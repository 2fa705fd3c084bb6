/**
 The administrative services over the RBAC tables. Each method is the database side of one
 mutation, up to the invalidation it then asks RbacService for; the awaits between the two are
 the protocol's business.
 */
module RbacAdmin {
  import opened Wrappers
  import opened RbacTables

  /** The PostgreSQL tables. */
  class Database {
    var features: map<Id, Feature>
    var permissions: map<Id, Permission>
    var roles: map<Id, Role>
    var grants: set<(Id, Id)>
    var members: map<Id, Id>

    function State(): Tables
      reads this
    {
      Tables(features, permissions, roles, grants, members)
    }

    constructor ()
      ensures State() == Tables(map[], map[], map[], {}, map[])
    {
      features, permissions, roles, grants, members := map[], map[], map[], {}, map[];
    }
  }

  /** The tables after an outcome, and what the caller learns of it. */
  ghost predicate Did(before: Tables, after: Tables, result: Result<Invalidation, AdminError>, outcome: Outcome) {
    match outcome
    case Ok(change) => after == change.tables && result == Ok(change.invalidation)
    case Err(error) => after == before && result == Err(error)
  }

  method FetchRoleIdsForPermission(db: Database, id: Id) returns (roleIds: set<Id>)
    ensures roleIds == Holders(db.State(), id)
  {
    roleIds := set g | g in db.grants && g.1 == id :: g.0;
  }

  class RoleService {
    const db: Database

    constructor (db: Database)
      ensures this.db == db
    {
      this.db := db;
    }

    method Update(id: Id, name: Option<string>, isActive: Option<bool>) returns (r: Result<Invalidation, AdminError>)
      modifies db
      ensures Did(old(db.State()), db.State(), r, AfterUpdateRole(old(db.State()), id, name, isActive))
    {
      if id !in db.roles {
        return Err(NotFound);
      }
      var role := db.roles[id];
      if name.Some? && name.value != "" && name.value != role.name {
        if exists other | other in db.roles :: db.roles[other].name == name.value {
          assert NameTaken(db.State(), name.value, Some(id));
          return Err(Conflict);
        }
      }
      var updated := Role(name.GetOr(role.name), isActive.GetOr(role.isActive));
      if updated.name != role.name && NameTaken(db.State(), updated.name, Some(id)) {
        return Err(Conflict);
      }
      db.roles := db.roles[id := updated];
      if isActive.Some? {
        return Ok(Roles({id}));
      }
      return Ok(NoBump);
    }

    method Remove(id: Id) returns (r: Result<Invalidation, AdminError>)
      modifies db
      ensures Did(old(db.State()), db.State(), r, AfterRemoveRole(old(db.State()), id))
    {
      if id !in db.roles {
        return Err(NotFound);
      }
      var holders := set u | u in db.members && db.members[u] == id;
      if |holders| > 0 {
        assert exists u :: u in holders;
        return Err(Conflict);
      }
      assert forall u | u in db.members :: db.members[u] == id ==> u in holders;
      db.roles := db.roles - {id};
      db.grants := set g | g in db.grants && g.0 != id;
      return Ok(Roles({id}));
    }

    /** Delete then insert in one transaction: a foreign key violation rolls both back. */
    method AssignPermissions(roleId: Id, permissionIds: seq<Id>) returns (r: Result<Invalidation, AdminError>)
      modifies db
      ensures Did(old(db.State()), db.State(), r, AfterAssignPermissions(old(db.State()), roleId, permissionIds))
    {
      if roleId !in db.roles {
        return Err(NotFound);
      }
      var snapshot := db.grants;
      db.grants := set g | g in db.grants && g.0 != roleId;
      ghost var kept := db.grants;
      for i := 0 to |permissionIds|
        invariant db.State() == old(db.State()).(grants := db.grants)
        invariant forall p | p in permissionIds[..i] :: p in db.permissions
        invariant db.grants == kept + set p | p in permissionIds[..i] :: (roleId, p)
      {
        assert permissionIds[..i + 1] == permissionIds[..i] + [permissionIds[i]];
        if permissionIds[i] !in db.permissions {
          db.grants := snapshot;
          assert permissionIds[i] in permissionIds;
          return Err(ForeignKeyViolation);
        }
        db.grants := db.grants + {(roleId, permissionIds[i])};
      }
      assert permissionIds[..|permissionIds|] == permissionIds;
      return Ok(Roles({roleId}));
    }
  }

  class PermissionService {
    const db: Database

    constructor (db: Database)
      ensures this.db == db
    {
      this.db := db;
    }

    method Update(id: Id, name: Option<string>) returns (r: Result<Invalidation, AdminError>)
      modifies db
      ensures Did(old(db.State()), db.State(), r, AfterUpdatePermission(old(db.State()), id, name))
    {
      if id !in db.permissions {
        return Err(NotFound);
      }
      var p := db.permissions[id];
      db.permissions := db.permissions[id := p.(name := name.GetOr(p.name))];
      var roleIds := FetchRoleIdsForPermission(db, id);
      return Ok(InvalidateHolders(roleIds));
    }

    method Remove(id: Id) returns (r: Result<Invalidation, AdminError>)
      modifies db
      ensures Did(old(db.State()), db.State(), r, Apply(old(db.State()), RemovePermission(id)))
    {
      var roleIds := FetchRoleIdsForPermission(db, id);
      if id !in db.permissions {
        return Err(NotFound);
      }
      db.permissions := db.permissions - {id};
      db.grants := set g | g in db.grants && g.1 != id;
      return Ok(InvalidateHolders(roleIds));
    }
  }

  class FeatureService {
    const db: Database

    constructor (db: Database)
      ensures this.db == db
    {
      this.db := db;
    }

    method Update(id: Id, key: Option<string>, name: Option<string>, isActive: Option<bool>)
      returns (r: Result<Invalidation, AdminError>)
      modifies db
      ensures Did(old(db.State()), db.State(), r, AfterUpdateFeature(old(db.State()), id, key, name, isActive))
    {
      if id !in db.features {
        return Err(NotFound);
      }
      if key.Some? && KeyTaken(db.State(), key.value, Some(id)) {
        return Err(DuplicateKey);
      }
      var f := db.features[id];
      db.features := db.features[id := Feature(key.GetOr(f.key), name.GetOr(f.name), isActive.GetOr(f.isActive))];
      return Ok(AllRoles);
    }

    method Remove(id: Id) returns (r: Result<Invalidation, AdminError>)
      modifies db
      ensures Did(old(db.State()), db.State(), r, AfterRemoveFeature(old(db.State()), id))
    {
      if id !in db.features {
        return Err(NotFound);
      }
      db.features := db.features - {id};
      db.permissions := map p | p in db.permissions && db.permissions[p].featureId != id :: db.permissions[p];
      db.grants := set g | g in db.grants && g.1 in db.permissions;
      return Ok(AllRoles);
    }
  }
}
