/**
 What each administrative mutation answers, leaves in the tables and tells the cache, row by row.
 Together with the foreign keys it keeps, this is all a mutation does.
 */
module RbacMutations {
  import opened Wrappers
  import opened RbacTables

  /** Every row of `m'` but the one under `id` is the row of `m`. */
  predicate SameElsewhere<K, V(==)>(m: map<K, V>, m': map<K, V>, id: K) {
    && (forall k | k in m && k != id :: k in m' && m'[k] == m[k])
    && (forall k | k in m' && k != id :: k in m)
  }

  // ---------------------------------------------------------------- features

  lemma CreateFeatureDoes(t: Tables, id: Id, key: string, name: string, isActive: bool)
    ensures var r := Apply(t, CreateFeature(id, key, name, isActive));
            && (r.Ok? <==> id !in t.features && forall f | f in t.features :: t.features[f].key != key)
            && (r == Err(Conflict) <==> id !in t.features && exists f :: f in t.features && t.features[f].key == key)
            && (r == Err(DuplicateKey) <==> id in t.features)
            && (r.Ok? ==>
                  var t' := r.value.tables;
                  && id in t'.features && t'.features[id].key == key && t'.features[id].name == name
                  && t'.features[id].isActive == isActive && SameElsewhere(t.features, t'.features, id)
                  && t'.permissions == t.permissions && t'.roles == t.roles && t'.grants == t.grants
                  && t'.members == t.members && r.value.invalidation == NoBump)
  {
  }

  /** A field that the request leaves out stays. */
  lemma UpdateFeatureDoes(t: Tables, id: Id, key: Option<string>, name: Option<string>, active: Option<bool>)
    ensures var r := Apply(t, UpdateFeature(id, key, name, active));
            && (r == Err(NotFound) <==> id !in t.features)
            && (r == Err(DuplicateKey) <==>
                  && id in t.features && key.Some?
                  && exists f :: f in t.features && f != id && t.features[f].key == key.value)
            && (r.Ok? || r.error in {NotFound, DuplicateKey})
            && (r.Ok? ==>
                  var t' := r.value.tables;
                  && id in t.features && id in t'.features
                  && t'.features[id].key == (if key.Some? then key.value else t.features[id].key)
                  && t'.features[id].name == (if name.Some? then name.value else t.features[id].name)
                  && t'.features[id].isActive == (if active.Some? then active.value else t.features[id].isActive)
                  && SameElsewhere(t.features, t'.features, id)
                  && t'.permissions == t.permissions && t'.roles == t.roles && t'.grants == t.grants
                  && t'.members == t.members && r.value.invalidation == AllRoles)
  {
  }

  /** The feature goes, its permissions go with it, and the grants of those; all other rows stay. */
  lemma RemoveFeatureDoes(t: Tables, id: Id)
    requires Valid(t)
    ensures var r := Apply(t, RemoveFeature(id));
            && (r.Ok? <==> id in t.features) && (r.Err? ==> r.error == NotFound)
            && (r.Ok? ==>
                  var t' := r.value.tables;
                  && id !in t'.features && SameElsewhere(t.features, t'.features, id)
                  && (forall p :: p in t'.permissions <==> p in t.permissions && t.permissions[p].featureId != id)
                  && (forall p | p in t'.permissions :: t'.permissions[p] == t.permissions[p])
                  && (forall role, p :: (role, p) in t'.grants <==>
                        (role, p) in t.grants && t.permissions[p].featureId != id)
                  && t'.roles == t.roles && t'.members == t.members && r.value.invalidation == AllRoles)
  {
    if id in t.features { RemovedFeatureGrants(t, id); }
  }

  lemma RemovedFeatureGrants(t: Tables, id: Id)
    requires Valid(t) && id in t.features
    ensures var t' := Apply(t, RemoveFeature(id)).value.tables;
            forall role, p :: (role, p) in t'.grants <==> (role, p) in t.grants && t.permissions[p].featureId != id
  {
    var t' := Apply(t, RemoveFeature(id)).value.tables;
    forall role, p ensures (role, p) in t'.grants <==> (role, p) in t.grants && t.permissions[p].featureId != id {
      var g := (role, p);
      assert g in t.grants ==> g.1 in t.permissions;
    }
  }

  // ---------------------------------------------------------------- permissions

  lemma CreatePermissionDoes(t: Tables, id: Id, featureId: Id, action: string, name: string)
    ensures var r := Apply(t, CreatePermission(id, featureId, action, name));
            && (r.Ok? <==>
                  && id !in t.permissions && featureId in t.features
                  && forall p | p in t.permissions ::
                       t.permissions[p].featureId != featureId || t.permissions[p].action != action)
            && (r == Err(ForeignKeyViolation) <==> id !in t.permissions && featureId !in t.features)
            && (r == Err(DuplicateKey) <==> id in t.permissions) && (r.Err? ==> r.error != NotFound)
            && (r.Ok? ==>
                  var t' := r.value.tables;
                  && id in t'.permissions && t'.permissions[id].featureId == featureId
                  && t'.permissions[id].action == action && t'.permissions[id].name == name
                  && SameElsewhere(t.permissions, t'.permissions, id)
                  && t'.features == t.features && t'.roles == t.roles && t'.grants == t.grants
                  && t'.members == t.members && r.value.invalidation == NoBump)
  {
  }

  /** Exactly the roles with a grant of the permission are invalidated; without any there is no bump. */
  ghost predicate InvalidatesHolders(t: Tables, id: Id, inv: Invalidation) {
    && (inv == NoBump <==> forall g | g in t.grants :: g.1 != id)
    && (inv != NoBump ==> inv.Roles? && forall role :: role in inv.ids <==> (role, id) in t.grants)
  }

  lemma HoldersInvalidated(t: Tables, id: Id)
    ensures InvalidatesHolders(t, id, InvalidateHolders(Holders(t, id)))
  {
    var ids := Holders(t, id);
    forall role ensures role in ids <==> (role, id) in t.grants {
      if (role, id) in t.grants {
        var g := (role, id);
        assert g in t.grants && g.1 == id;
      }
    }
    if g :| g in t.grants && g.1 == id { assert g.0 in ids; }
  }

  lemma UpdatePermissionDoes(t: Tables, id: Id, name: Option<string>)
    ensures var r := Apply(t, UpdatePermission(id, name));
            && (r.Ok? <==> id in t.permissions) && (r.Err? ==> r.error == NotFound)
            && (r.Ok? ==>
                  var t' := r.value.tables;
                  && id in t'.permissions && t'.permissions[id].featureId == t.permissions[id].featureId
                  && t'.permissions[id].action == t.permissions[id].action
                  && t'.permissions[id].name == (if name.Some? then name.value else t.permissions[id].name)
                  && SameElsewhere(t.permissions, t'.permissions, id)
                  && t'.features == t.features && t'.roles == t.roles && t'.grants == t.grants
                  && t'.members == t.members && InvalidatesHolders(t, id, r.value.invalidation))
  {
    HoldersInvalidated(t, id);
  }

  lemma RemovePermissionDoes(t: Tables, id: Id)
    ensures var r := Apply(t, RemovePermission(id));
            && (r.Ok? <==> id in t.permissions) && (r.Err? ==> r.error == NotFound)
            && (r.Ok? ==>
                  var t' := r.value.tables;
                  && id !in t'.permissions && SameElsewhere(t.permissions, t'.permissions, id)
                  && (forall role, p :: (role, p) in t'.grants <==> (role, p) in t.grants && p != id)
                  && t'.features == t.features && t'.roles == t.roles && t'.members == t.members
                  && InvalidatesHolders(t, id, r.value.invalidation))
  {
    HoldersInvalidated(t, id);
  }

  // ---------------------------------------------------------------- roles

  lemma CreateRoleDoes(t: Tables, id: Id, name: string, isActive: bool)
    ensures var r := Apply(t, CreateRole(id, name, isActive));
            && (r.Ok? <==> id !in t.roles && forall x | x in t.roles :: t.roles[x].name != name)
            && (r == Err(Conflict) <==> exists x :: x in t.roles && t.roles[x].name == name)
            && (r.Ok? ==>
                  var t' := r.value.tables;
                  && id in t'.roles && t'.roles[id].name == name && t'.roles[id].isActive == isActive
                  && SameElsewhere(t.roles, t'.roles, id)
                  && t'.features == t.features && t'.permissions == t.permissions && t'.grants == t.grants
                  && t'.members == t.members && r.value.invalidation == NoBump)
  {
  }

  /** The cache is told if and only if the request carries `isActive`. */
  lemma UpdateRoleDoes(t: Tables, id: Id, name: Option<string>, active: Option<bool>)
    requires Valid(t)
    ensures var r := Apply(t, UpdateRole(id, name, active));
            && (r == Err(NotFound) <==> id !in t.roles)
            && (r == Err(Conflict) <==>
                  && id in t.roles && name.Some?
                  && exists x :: x in t.roles && x != id && t.roles[x].name == name.value)
            && (r.Ok? || r.error in {NotFound, Conflict})
            && (r.Ok? ==>
                  var t' := r.value.tables;
                  && id in t.roles && id in t'.roles
                  && t'.roles[id].name == (if name.Some? then name.value else t.roles[id].name)
                  && t'.roles[id].isActive == (if active.Some? then active.value else t.roles[id].isActive)
                  && SameElsewhere(t.roles, t'.roles, id)
                  && t'.features == t.features && t'.permissions == t.permissions && t'.grants == t.grants
                  && t'.members == t.members
                  && r.value.invalidation == if active.Some? then Roles({id}) else NoBump)
  {
  }

  /** Refused while a user holds the role; else the role and its grants go. */
  lemma RemoveRoleDoes(t: Tables, id: Id)
    ensures var r := Apply(t, RemoveRole(id));
            && (r == Err(NotFound) <==> id !in t.roles)
            && (r == Err(Conflict) <==> id in t.roles && exists u :: u in t.members && t.members[u] == id)
            && (r.Ok? || r.error in {NotFound, Conflict})
            && (r.Ok? ==>
                  var t' := r.value.tables;
                  && id !in t'.roles && SameElsewhere(t.roles, t'.roles, id)
                  && (forall role, p :: (role, p) in t'.grants <==> (role, p) in t.grants && role != id)
                  && t'.features == t.features && t'.permissions == t.permissions && t'.members == t.members
                  && r.value.invalidation == Roles({id}))
  {
  }

  /** On success the role holds exactly the requested permissions, whatever it held before, and nothing
      else in the tables moves. It succeeds if and only if the role and all the permissions exist. */
  lemma AssignPermissionsDoes(t: Tables, roleId: Id, ids: seq<Id>)
    ensures var r := Apply(t, AssignPermissions(roleId, ids));
            && (r == Err(NotFound) <==> roleId !in t.roles)
            && (r == Err(ForeignKeyViolation) <==> roleId in t.roles && exists p :: p in ids && p !in t.permissions)
            && (r.Ok? || r.error in {NotFound, ForeignKeyViolation})
            && (r.Ok? ==>
                  var t' := r.value.tables;
                  && (forall p :: (roleId, p) in t'.grants <==> p in ids)
                  && (forall role, p | role != roleId :: (role, p) in t'.grants <==> (role, p) in t.grants)
                  && t'.features == t.features && t'.permissions == t.permissions && t'.roles == t.roles
                  && t'.members == t.members && r.value.invalidation == Roles({roleId}))
  {
  }

  /** After an assignment the role's `feature:action` strings are exactly those of the requested
      permissions. */
  lemma AssignedStrings(t: Tables, roleId: Id, ids: seq<Id>, s: string)
    requires Valid(t) && roleId in t.roles && forall p | p in ids :: p in t.permissions
    ensures var r := Apply(t, AssignPermissions(roleId, ids));
            && r.Ok?
            && (s in PermissionStrings(r.value.tables, roleId) <==>
                  exists p :: p in ids
                    && t.features[t.permissions[p].featureId].key + ":" + t.permissions[p].action == s)
  {
    AssignPermissionsDoes(t, roleId, ids);
    var t' := Apply(t, AssignPermissions(roleId, ids)).value.tables;
    if s in PermissionStrings(t', roleId) {
      var g :| g in t'.grants && g.0 == roleId && Joined(t', g.1) && PermissionString(t', g.1) == s;
      assert (roleId, g.1) in t'.grants;
    }
    if p :| p in ids && t.features[t.permissions[p].featureId].key + ":" + t.permissions[p].action == s {
      var g := (roleId, p);
      assert g in t'.grants && g.0 == roleId && Joined(t', g.1) && PermissionString(t', g.1) == s;
    }
  }
}
