/**
 The relational core of the RBAC module: the five tables with their foreign keys and unique
 indexes, the join that turns a role into its `feature:action` strings, and the effect of every
 administrative mutation on the tables together with the roles it tells the cache to forget.
 */
module RbacTables {
  import opened Wrappers

  type Id = string

  datatype Feature = Feature(key: string, name: string, isActive: bool)
  datatype Permission = Permission(featureId: Id, action: string, name: string)
  datatype Role = Role(name: string, isActive: bool)

  /** `grants` is the role_permissions table (pairs role, permission); `members` is users.role_id
      for the users whose role is not null. */
  datatype Tables = Tables(
    features: map<Id, Feature>,
    permissions: map<Id, Permission>,
    roles: map<Id, Role>,
    grants: set<(Id, Id)>,
    members: map<Id, Id>)

  /** Foreign keys and unique indexes of the schema. */
  ghost predicate Valid(t: Tables) {
    && (forall p | p in t.permissions :: t.permissions[p].featureId in t.features)
    && (forall g | g in t.grants :: g.0 in t.roles && g.1 in t.permissions)
    && (forall u | u in t.members :: t.members[u] in t.roles)
    && (forall f, f' | f in t.features && f' in t.features && f != f' :: t.features[f].key != t.features[f'].key)
    && (forall r, r' | r in t.roles && r' in t.roles && r != r' :: t.roles[r].name != t.roles[r'].name)
    && (forall p, p' | p in t.permissions && p' in t.permissions && p != p' ::
          t.permissions[p].featureId != t.permissions[p'].featureId
            || t.permissions[p].action != t.permissions[p'].action)
  }

  // ---------------------------------------------------------------- the join

  function Encode(key: string, action: string): string {
    key + ":" + action
  }

  /** The two inner joins succeed for this grant. */
  predicate Joined(t: Tables, permission: Id) {
    permission in t.permissions && t.permissions[permission].featureId in t.features
  }

  function PermissionString(t: Tables, permission: Id): string
    requires Joined(t, permission)
  {
    Encode(t.features[t.permissions[permission].featureId].key, t.permissions[permission].action)
  }

  /** fetchPermissionStringsForRole. Callers only ever build a Set from the rows. */
  function PermissionStrings(t: Tables, role: Id): set<string> {
    set g | g in t.grants && g.0 == role && Joined(t, g.1) :: PermissionString(t, g.1)
  }

  /** fetchRoleIdsForPermission: the distinct roles holding a permission. */
  function Holders(t: Tables, permission: Id): set<Id> {
    set g | g in t.grants && g.1 == permission :: g.0
  }

  /** One role_permission, permission, feature chain for a pair. */
  ghost predicate HasChain(t: Tables, role: Id, key: string, action: string) {
    exists p :: p in t.permissions && (role, p) in t.grants && IsChain(t, p, key, action)
  }

  predicate IsChain(t: Tables, permission: Id, key: string, action: string) {
    && Joined(t, permission)
    && t.features[t.permissions[permission].featureId].key == key
    && t.permissions[permission].action == action
  }

  // ---------------------------------------------------------------- the encoding

  /** `long` starts with `short` followed by a colon. */
  predicate Extends(short: string, long: string) {
    |short| < |long| && long[..|short|] == short && long[|short|] == ':'
  }

  predicate Unambiguous(keys: set<string>) {
    forall k, k' | k in keys && k' in keys :: !Extends(k, k')
  }

  ghost predicate InjectiveOn(keys: set<string>) {
    forall k, a, k', a' | k in keys && k' in keys && Encode(k, a) == Encode(k', a') :: k == k' && a == a'
  }

  lemma EncodeSplits(k: string, a: string, k': string, a': string)
    requires Encode(k, a) == Encode(k', a') && |k| <= |k'|
    ensures (k == k' && a == a') || Extends(k, k')
  {
    var s, s' := Encode(k, a), Encode(k', a');
    assert k == s[..|k|] && k' == s'[..|k'|];
    assert a == s[|k| + 1..] && a' == s'[|k'| + 1..];
    if |k| < |k'| {
      assert k'[..|k|] == s'[..|k|];
      assert k'[|k|] == s'[|k|] == s[|k|];
    }
  }

  /** `feature:action` strings identify their pair exactly when no feature key is another key
      followed by a colon. Keys free of colons are the usual special case. */
  lemma EncodingInjectiveIff(keys: set<string>)
    ensures InjectiveOn(keys) <==> Unambiguous(keys)
    ensures (forall k | k in keys :: ':' !in k) ==> Unambiguous(keys)
  {
    if Unambiguous(keys) {
      forall k, a, k', a' | k in keys && k' in keys && Encode(k, a) == Encode(k', a') ensures k == k' && a == a' {
        if |k| <= |k'| { EncodeSplits(k, a, k', a'); } else { EncodeSplits(k', a', k, a); }
      }
    }
    if !Unambiguous(keys) {
      var k, k' :| k in keys && k' in keys && Extends(k, k');
      var rest := k'[|k| + 1..];
      assert k' == k + ":" + rest;
      assert Encode(k, rest + ":") == Encode(k', "");
    }
  }

  /** A colon in a feature key really does merge two different pairs. */
  lemma ColonKeyAmbiguous()
    ensures Encode("a", "b:c") == Encode("a:b", "c")
    ensures !InjectiveOn({"a", "a:b"})
  {
    assert Encode("a", "b:c") == "a:b:c" == Encode("a:b", "c");
  }

  function Keys(t: Tables): set<string> {
    set f | f in t.features :: t.features[f].key
  }

  /** A string is granted exactly when some chain spells it. */
  lemma GrantedIffChain(t: Tables, role: Id, key: string, action: string)
    requires Unambiguous(Keys(t) + {key})
    ensures Encode(key, action) in PermissionStrings(t, role) <==> HasChain(t, role, key, action)
  {
    EncodingInjectiveIff(Keys(t) + {key});
    if Encode(key, action) in PermissionStrings(t, role) {
      var g :| g in t.grants && g.0 == role && Joined(t, g.1) && PermissionString(t, g.1) == Encode(key, action);
      assert t.features[t.permissions[g.1].featureId].key in Keys(t);
      assert IsChain(t, g.1, key, action) && (role, g.1) in t.grants;
    }
    if HasChain(t, role, key, action) {
      var p :| p in t.permissions && (role, p) in t.grants && IsChain(t, p, key, action);
      var g := (role, p);
      assert g in t.grants && g.0 == role && Joined(t, g.1) && PermissionString(t, g.1) == Encode(key, action);
    }
  }

  /** The decision of checkPermissions once the role's strings are known. */
  predicate Decide(role: Id, granted: set<string>, required: seq<string>) {
    role != "" && required != [] && forall i | 0 <= i < |required| :: required[i] in granted
  }

  function EncodeAll(pairs: seq<(string, string)>): seq<string> {
    seq(|pairs|, i requires 0 <= i < |pairs| => Encode(pairs[i].0, pairs[i].1))
  }

  /** An uncached check is true exactly when the list is non-empty and every pair has its own
      chain, whatever the order or repetition of the list. */
  lemma UncachedCheckIsChains(t: Tables, role: Id, pairs: seq<(string, string)>)
    requires Unambiguous(Keys(t) + set i | 0 <= i < |pairs| :: pairs[i].0)
    ensures Decide(role, PermissionStrings(t, role), EncodeAll(pairs)) <==>
            role != "" && pairs != [] && forall i | 0 <= i < |pairs| :: HasChain(t, role, pairs[i].0, pairs[i].1)
  {
    var required := EncodeAll(pairs);
    forall i | 0 <= i < |pairs|
      ensures required[i] in PermissionStrings(t, role) <==> HasChain(t, role, pairs[i].0, pairs[i].1)
    {
      assert pairs[i].0 in set j | 0 <= j < |pairs| :: pairs[j].0;
      GrantedIffChain(t, role, pairs[i].0, pairs[i].1);
    }
  }

  // ---------------------------------------------------------------- administrative mutations

  /** What a mutation asks of the cache after its commit. */
  datatype Invalidation = NoBump | Roles(ids: set<Id>) | AllRoles

  predicate Covers(inv: Invalidation, role: Id) {
    match inv
    case NoBump => false
    case Roles(ids) => role in ids
    case AllRoles => true
  }

  /** invalidateRoles returns at once, without a bump, on an empty list. */
  function InvalidateHolders(ids: set<Id>): Invalidation {
    if ids == {} then NoBump else Roles(ids)
  }

  datatype AdminError = NotFound | Conflict | ForeignKeyViolation | DuplicateKey

  datatype Change = Change(tables: Tables, invalidation: Invalidation)

  type Outcome = Result<Change, AdminError>

  /** The new row's id of a create is the one gen_random_uuid picked. */
  datatype AdminOp =
    | CreateFeature(id: Id, key: string, name: string, isActive: bool)
    | UpdateFeature(id: Id, newKey: Option<string>, newName: Option<string>, newActive: Option<bool>)
    | RemoveFeature(id: Id)
    | CreatePermission(id: Id, featureId: Id, action: string, name: string)
    | UpdatePermission(id: Id, newName: Option<string>)
    | RemovePermission(id: Id)
    | CreateRole(id: Id, name: string, isActive: bool)
    | UpdateRole(id: Id, newName: Option<string>, newActive: Option<bool>)
    | RemoveRole(id: Id)
    | AssignPermissions(roleId: Id, permissionIds: seq<Id>)

  predicate KeyTaken(t: Tables, key: string, except: Option<Id>) {
    exists f | f in t.features :: Some(f) != except && t.features[f].key == key
  }

  predicate NameTaken(t: Tables, name: string, except: Option<Id>) {
    exists r | r in t.roles :: Some(r) != except && t.roles[r].name == name
  }

  predicate ActionTaken(t: Tables, featureId: Id, action: string) {
    exists p | p in t.permissions :: t.permissions[p].featureId == featureId && t.permissions[p].action == action
  }

  function AfterCreateFeature(t: Tables, id: Id, key: string, name: string, isActive: bool): Outcome {
    if id in t.features then Err(DuplicateKey)
    else if KeyTaken(t, key, None) then Err(Conflict)
    else Ok(Change(t.(features := t.features[id := Feature(key, name, isActive)]), NoBump))
  }

  function AfterUpdateFeature(t: Tables, id: Id, key: Option<string>, name: Option<string>,
                              active: Option<bool>): Outcome {
    if id !in t.features then Err(NotFound)
    else if key.Some? && KeyTaken(t, key.value, Some(id)) then Err(DuplicateKey)
    else
      var f := t.features[id];
      var f' := Feature(key.GetOr(f.key), name.GetOr(f.name), active.GetOr(f.isActive));
      Ok(Change(t.(features := t.features[id := f']), AllRoles))
  }

  /** ON DELETE CASCADE from features to permissions to role_permissions. */
  function AfterRemoveFeature(t: Tables, id: Id): Outcome {
    if id !in t.features then Err(NotFound)
    else
      var kept := map p | p in t.permissions && t.permissions[p].featureId != id :: t.permissions[p];
      Ok(Change(t.(features := t.features - {id},
                   permissions := kept,
                   grants := set g | g in t.grants && g.1 in kept), AllRoles))
  }

  function AfterCreatePermission(t: Tables, id: Id, featureId: Id, action: string, name: string): Outcome {
    if id in t.permissions then Err(DuplicateKey)
    else if featureId !in t.features then Err(ForeignKeyViolation)
    else if ActionTaken(t, featureId, action) then Err(Conflict)
    else Ok(Change(t.(permissions := t.permissions[id := Permission(featureId, action, name)]), NoBump))
  }

  function AfterUpdatePermission(t: Tables, id: Id, name: Option<string>): Outcome {
    if id !in t.permissions then Err(NotFound)
    else
      var p := t.permissions[id];
      Ok(Change(t.(permissions := t.permissions[id := p.(name := name.GetOr(p.name))]),
                InvalidateHolders(Holders(t, id))))
  }

  /** `holders` is what the lookup before the delete returned. */
  function AfterRemovePermission(t: Tables, id: Id, holders: set<Id>): Outcome {
    if id !in t.permissions then Err(NotFound)
    else Ok(Change(t.(permissions := t.permissions - {id},
                      grants := set g | g in t.grants && g.1 != id),
                   InvalidateHolders(holders)))
  }

  function AfterCreateRole(t: Tables, id: Id, name: string, isActive: bool): Outcome {
    if NameTaken(t, name, None) then Err(Conflict)
    else if id in t.roles then Err(DuplicateKey)
    else Ok(Change(t.(roles := t.roles[id := Role(name, isActive)]), NoBump))
  }

  /** The cache is only told when the request carries `isActive`. */
  function AfterUpdateRole(t: Tables, id: Id, name: Option<string>, active: Option<bool>): Outcome {
    if id !in t.roles then Err(NotFound)
    else
      var r := t.roles[id];
      var r' := Role(name.GetOr(r.name), active.GetOr(r.isActive));
      if r'.name != r.name && NameTaken(t, r'.name, Some(id)) then Err(Conflict)
      else Ok(Change(t.(roles := t.roles[id := r']), if active.Some? then Roles({id}) else NoBump))
  }

  /** Refused while users hold the role; otherwise its grants cascade away. */
  function AfterRemoveRole(t: Tables, id: Id): Outcome {
    if id !in t.roles then Err(NotFound)
    else if exists u | u in t.members :: t.members[u] == id then Err(Conflict)
    else Ok(Change(t.(roles := t.roles - {id}, grants := set g | g in t.grants && g.0 != id), Roles({id})))
  }

  /** The SERIALIZABLE transaction replaces the role's grants or, on a bad permission id, nothing. */
  function AfterAssignPermissions(t: Tables, roleId: Id, permissionIds: seq<Id>): Outcome {
    if roleId !in t.roles then Err(NotFound)
    else if exists p | p in permissionIds :: p !in t.permissions then Err(ForeignKeyViolation)
    else Ok(Change(t.(grants := (set g | g in t.grants && g.0 != roleId) + (set p | p in permissionIds :: (roleId, p))),
                   Roles({roleId})))
  }

  function Apply(t: Tables, op: AdminOp): Outcome {
    match op
    case CreateFeature(id, key, name, active) => AfterCreateFeature(t, id, key, name, active)
    case UpdateFeature(id, key, name, active) => AfterUpdateFeature(t, id, key, name, active)
    case RemoveFeature(id) => AfterRemoveFeature(t, id)
    case CreatePermission(id, featureId, action, name) => AfterCreatePermission(t, id, featureId, action, name)
    case UpdatePermission(id, name) => AfterUpdatePermission(t, id, name)
    case RemovePermission(id) => AfterRemovePermission(t, id, Holders(t, id))
    case CreateRole(id, name, active) => AfterCreateRole(t, id, name, active)
    case UpdateRole(id, name, active) => AfterUpdateRole(t, id, name, active)
    case RemoveRole(id) => AfterRemoveRole(t, id)
    case AssignPermissions(roleId, ids) => AfterAssignPermissions(t, roleId, ids)
  }

  // ---------------------------------------------------------------- coverage

  /** The rows a role's strings are computed from are the same in both tables. */
  ghost predicate SameRows(t: Tables, t': Tables, role: Id) {
    && (forall g: (Id, Id) | g.0 == role :: g in t.grants <==> g in t'.grants)
    && (forall g | g in t.grants && g.0 == role :: SameChain(t, t', g.1))
  }

  ghost predicate SameChain(t: Tables, t': Tables, p: Id) {
    && (Joined(t, p) <==> Joined(t', p))
    && (Joined(t, p) ==> PermissionString(t, p) == PermissionString(t', p))
  }

  lemma SameRowsSameStrings(t: Tables, t': Tables, role: Id)
    requires SameRows(t, t', role)
    ensures PermissionStrings(t, role) == PermissionStrings(t', role)
  {
    var a, b := PermissionStrings(t, role), PermissionStrings(t', role);
    forall s | s in a ensures s in b {
      var g :| g in t.grants && g.0 == role && Joined(t, g.1) && PermissionString(t, g.1) == s;
      assert SameChain(t, t', g.1);
    }
    forall s | s in b ensures s in a {
      var g :| g in t'.grants && g.0 == role && Joined(t', g.1) && PermissionString(t', g.1) == s;
      assert g in t.grants && SameChain(t, t', g.1);
    }
  }

  lemma FeatureOpsKeepValid(t: Tables, op: AdminOp)
    requires Valid(t) && (op.CreateFeature? || op.UpdateFeature? || op.RemoveFeature?)
    ensures Apply(t, op).Ok? ==> Valid(Apply(t, op).value.tables)
  {
  }

  lemma PermissionOpsKeepValid(t: Tables, op: AdminOp)
    requires Valid(t) && (op.UpdatePermission? || op.RemovePermission?)
    ensures Apply(t, op).Ok? ==> Valid(Apply(t, op).value.tables)
  {
  }

  lemma CreatePermissionKeepsValid(t: Tables, id: Id, featureId: Id, action: string, name: string)
    requires Valid(t)
    ensures var o := AfterCreatePermission(t, id, featureId, action, name); o.Ok? ==> Valid(o.value.tables)
  {
  }

  lemma RoleOpsKeepValid(t: Tables, op: AdminOp)
    requires Valid(t) && (op.CreateRole? || op.UpdateRole? || op.RemoveRole?)
    ensures Apply(t, op).Ok? ==> Valid(Apply(t, op).value.tables)
  {
  }

  lemma AssignmentKeepsValid(t: Tables, roleId: Id, ids: seq<Id>)
    requires Valid(t)
    ensures var o := AfterAssignPermissions(t, roleId, ids); o.Ok? ==> Valid(o.value.tables)
  {
  }

  /** Every mutation keeps the foreign keys and unique indexes. */
  lemma ApplyKeepsValid(t: Tables, op: AdminOp)
    requires Valid(t)
    ensures Apply(t, op).Ok? ==> Valid(Apply(t, op).value.tables)
  {
    if op.CreateFeature? || op.UpdateFeature? || op.RemoveFeature? {
      FeatureOpsKeepValid(t, op);
    } else if op.CreatePermission? {
      CreatePermissionKeepsValid(t, op.id, op.featureId, op.action, op.name);
    } else if op.UpdatePermission? || op.RemovePermission? {
      PermissionOpsKeepValid(t, op);
    } else if op.AssignPermissions? {
      AssignmentKeepsValid(t, op.roleId, op.permissionIds);
    } else {
      RoleOpsKeepValid(t, op);
    }
  }

  /** Invalidation coverage: a role whose permission strings change is a role the mutation tells
      the cache to forget; so a path that skips the bump changes no role at all. */
  lemma MutationsCoverTheirEffect(t: Tables, op: AdminOp, role: Id)
    requires Valid(t) && Apply(t, op).Ok?
    ensures PermissionStrings(Apply(t, op).value.tables, role) != PermissionStrings(t, role) ==>
              Covers(Apply(t, op).value.invalidation, role)
  {
    if !Covers(Apply(t, op).value.invalidation, role) {
      UncoveredRowsStay(t, op, role);
      SameRowsSameStrings(t, Apply(t, op).value.tables, role);
    }
  }

  predicate TouchesGrants(op: AdminOp) {
    op.RemoveFeature? || op.RemovePermission? || op.RemoveRole? || op.AssignPermissions?
  }

  lemma UncoveredRowsStay(t: Tables, op: AdminOp, role: Id)
    requires Valid(t) && Apply(t, op).Ok? && !Covers(Apply(t, op).value.invalidation, role)
    ensures SameRows(t, Apply(t, op).value.tables, role)
  {
    if TouchesGrants(op) {
      UncoveredGrantsStay(t, op, role);
    } else if op.CreateFeature? {
      NewFeatureKeepsRows(t, op.id, Feature(op.key, op.name, op.isActive), role);
    } else if op.CreatePermission? {
      NewPermissionKeepsRows(t, op.id, Permission(op.featureId, op.action, op.name), role);
    } else if op.UpdatePermission? {
      RenamingKeepsRows(t, op.id, op.newName.GetOr(t.permissions[op.id].name), role);
    } else if op.CreateRole? || op.UpdateRole? {
      RoleRowsAreNotJoined(t, Apply(t, op).value.tables.roles, role);
    }
  }

  lemma NewFeatureKeepsRows(t: Tables, id: Id, f: Feature, role: Id)
    requires Valid(t) && id !in t.features
    ensures SameRows(t, t.(features := t.features[id := f]), role)
  {
  }

  lemma NewPermissionKeepsRows(t: Tables, id: Id, p: Permission, role: Id)
    requires Valid(t) && id !in t.permissions
    ensures SameRows(t, t.(permissions := t.permissions[id := p]), role)
  {
  }

  lemma RenamingKeepsRows(t: Tables, id: Id, name: string, role: Id)
    requires id in t.permissions
    ensures SameRows(t, t.(permissions := t.permissions[id := t.permissions[id].(name := name)]), role)
  {
  }

  lemma RoleRowsAreNotJoined(t: Tables, roles': map<Id, Role>, role: Id)
    ensures SameRows(t, t.(roles := roles'), role)
  {
  }

  lemma UncoveredGrantsStay(t: Tables, op: AdminOp, role: Id)
    requires Valid(t) && TouchesGrants(op) && Apply(t, op).Ok? && !Covers(Apply(t, op).value.invalidation, role)
    ensures SameRows(t, Apply(t, op).value.tables, role)
  {
    if op.RemovePermission? {
      assert forall g | g in t.grants :: g.0 in Holders(t, g.1);
      OthersKeepRows(t, op.id, Holders(t, op.id), role);
    } else {
      UncoveredRoleGrantsStay(t, op, role);
    }
  }

  lemma OthersKeepRows(t: Tables, id: Id, holders: set<Id>, role: Id)
    requires id in t.permissions && (role, id) !in t.grants
    ensures SameRows(t, AfterRemovePermission(t, id, holders).value.tables, role)
  {
  }

  lemma UncoveredRoleGrantsStay(t: Tables, op: AdminOp, role: Id)
    requires op.RemoveFeature? || op.RemoveRole? || op.AssignPermissions?
    requires Apply(t, op).Ok? && !Covers(Apply(t, op).value.invalidation, role)
    ensures SameRows(t, Apply(t, op).value.tables, role)
  {
  }

  lemma StringIdentifiesPermission(t: Tables, p: Id, q: Id)
    requires Valid(t) && Unambiguous(Keys(t)) && p in t.permissions && q in t.permissions
    requires PermissionString(t, p) == PermissionString(t, q)
    ensures p == q
  {
    EncodingInjectiveIff(Keys(t));
    var f, f' := t.permissions[p].featureId, t.permissions[q].featureId;
    assert t.features[f].key in Keys(t) && t.features[f'].key in Keys(t);
  }

  /** The role holds another permission that spells the same string. */
  predicate SpeltTwice(t: Tables, role: Id, id: Id)
    requires Joined(t, id)
  {
    exists g | g in t.grants ::
      g.0 == role && g.1 != id && Joined(t, g.1) && PermissionString(t, g.1) == PermissionString(t, id)
  }

  lemma UnambiguousSpellsOnce(t: Tables, role: Id, id: Id)
    requires Valid(t) && Unambiguous(Keys(t)) && id in t.permissions
    ensures !SpeltTwice(t, role, id)
  {
    forall g | g in t.grants && g.0 == role && g.1 != id ensures PermissionString(t, g.1) != PermissionString(t, id) {
      if PermissionString(t, g.1) == PermissionString(t, id) { StringIdentifiesPermission(t, g.1, id); }
    }
  }

  /** Deleting a permission changes precisely the holders that do not get its string from another
      permission. With unambiguous keys no holder does, and the list PermissionService.remove
      invalidates is not just enough but exact. */
  lemma RemovalChangesExactlyHolders(t: Tables, id: Id, role: Id)
    requires Valid(t) && id in t.permissions
    ensures var t' := AfterRemovePermission(t, id, {}).value.tables;
            && (PermissionStrings(t', role) != PermissionStrings(t, role)
                <==> role in Holders(t, id) && !SpeltTwice(t, role, id))
            && (Unambiguous(Keys(t))
                ==> (PermissionStrings(t', role) != PermissionStrings(t, role) <==> role in Holders(t, id)))
  {
    if role !in Holders(t, id) {
      NonHoldersStay(t, id, role);
    } else if SpeltTwice(t, role, id) {
      TwiceSpeltStays(t, id, role);
    } else {
      OnceSpeltGoes(t, id, role);
    }
    if Unambiguous(Keys(t)) { UnambiguousSpellsOnce(t, role, id); }
  }

  lemma NonHoldersStay(t: Tables, id: Id, role: Id)
    requires id in t.permissions && role !in Holders(t, id)
    ensures PermissionStrings(AfterRemovePermission(t, id, {}).value.tables, role) == PermissionStrings(t, role)
  {
    assert forall g | g in t.grants && g.1 == id :: g.0 in Holders(t, id);
    OthersKeepRows(t, id, {}, role);
    SameRowsSameStrings(t, AfterRemovePermission(t, id, {}).value.tables, role);
  }

  lemma TwiceSpeltStays(t: Tables, id: Id, role: Id)
    requires Valid(t) && id in t.permissions && SpeltTwice(t, role, id)
    ensures PermissionStrings(AfterRemovePermission(t, id, {}).value.tables, role) == PermissionStrings(t, role)
  {
    var other :| other in t.grants && other.0 == role && other.1 != id && Joined(t, other.1)
      && PermissionString(t, other.1) == PermissionString(t, id);
    FewerStrings(t, id, role);
    StillSpelt(t, id, other);
    forall s | s in PermissionStrings(t, role)
      ensures s in PermissionStrings(AfterRemovePermission(t, id, {}).value.tables, role)
    {
      var g :| g in t.grants && g.0 == role && Joined(t, g.1) && PermissionString(t, g.1) == s;
      if g.1 != id { StillSpelt(t, id, g); }
    }
  }

  lemma StillSpelt(t: Tables, id: Id, g: (Id, Id))
    requires id in t.permissions && g in t.grants && g.1 != id && Joined(t, g.1)
    ensures PermissionString(t, g.1) in PermissionStrings(AfterRemovePermission(t, id, {}).value.tables, g.0)
  {
    var t' := AfterRemovePermission(t, id, {}).value.tables;
    assert g in t'.grants && Joined(t', g.1) && PermissionString(t', g.1) == PermissionString(t, g.1);
  }

  lemma FewerStrings(t: Tables, id: Id, role: Id)
    requires id in t.permissions
    ensures PermissionStrings(AfterRemovePermission(t, id, {}).value.tables, role) <= PermissionStrings(t, role)
  {
    var t' := AfterRemovePermission(t, id, {}).value.tables;
    forall s | s in PermissionStrings(t', role) ensures s in PermissionStrings(t, role) {
      var g :| g in t'.grants && g.0 == role && Joined(t', g.1) && PermissionString(t', g.1) == s;
      assert g in t.grants && Joined(t, g.1) && PermissionString(t, g.1) == s;
    }
  }

  lemma OnceSpeltGoes(t: Tables, id: Id, role: Id)
    requires Valid(t) && id in t.permissions && role in Holders(t, id) && !SpeltTwice(t, role, id)
    ensures PermissionStrings(AfterRemovePermission(t, id, {}).value.tables, role) != PermissionStrings(t, role)
  {
    var t' := AfterRemovePermission(t, id, {}).value.tables;
    var g :| g in t.grants && g.1 == id && g.0 == role;
    var s := PermissionString(t, id);
    assert s in PermissionStrings(t, role);
    forall h | h in t'.grants && h.0 == role && Joined(t', h.1) ensures PermissionString(t', h.1) != s {
      assert h in t.grants && h.1 != id && PermissionString(t', h.1) == PermissionString(t, h.1);
    }
    assert s !in PermissionStrings(t', role);
  }

  /** Every role whose strings the change alters is one it tells the cache to forget. */
  ghost predicate CoveredBy(before: Tables, c: Change) {
    forall role | PermissionStrings(c.tables, role) != PermissionStrings(before, role) :: Covers(c.invalidation, role)
  }

  /** The holder lookup and the delete are separate statements. If the tables move from `before`
      to `at` in between, the invalidation list of `before` covers the deletion exactly when every
      role that gained the permission in the gap gets its string from another permission too. So
      it does when no role gained it, and with unambiguous keys only then. */
  lemma StaleHolderListCoversIff(before: Tables, at: Tables, id: Id)
    requires Valid(at) && id in at.permissions
    ensures var c := AfterRemovePermission(at, id, Holders(before, id)).value;
            && (CoveredBy(at, c)
                <==> forall role | role in Holders(at, id) - Holders(before, id) :: SpeltTwice(at, role, id))
            && (Holders(at, id) <= Holders(before, id) ==> CoveredBy(at, c))
            && (Unambiguous(Keys(at)) ==> (CoveredBy(at, c) <==> Holders(at, id) <= Holders(before, id)))
  {
    var listed := Holders(before, id);
    var c := AfterRemovePermission(at, id, listed).value;
    assert c.tables == AfterRemovePermission(at, id, {}).value.tables;
    assert forall role :: Covers(c.invalidation, role) <==> role in listed;
    forall role
      ensures PermissionStrings(c.tables, role) != PermissionStrings(at, role)
              <==> role in Holders(at, id) && !SpeltTwice(at, role, id)
    {
      RemovalChangesExactlyHolders(at, id, role);
    }
    if Unambiguous(Keys(at)) {
      forall role ensures !SpeltTwice(at, role, id) { UnambiguousSpellsOnce(at, role, id); }
    }
  }

  /** An assignment slipping into that gap: the role loses its string and nobody bumps. */
  lemma AssignmentSlipsPastRemoval()
    ensures exists before: Tables, role: Id, id: Id ::
              && Valid(before) && Unambiguous(Keys(before))
              && Apply(before, AssignPermissions(role, [id])).Ok?
              && var at := Apply(before, AssignPermissions(role, [id])).value.tables;
                 var c := AfterRemovePermission(at, id, Holders(before, id));
                 && c.Ok? && c.value.invalidation == NoBump
                 && PermissionStrings(c.value.tables, role) != PermissionStrings(at, role)
  {
    var before := Tables(map["f" := Feature("users", "Users", true)],
                         map["p" := Permission("f", "create", "Create")],
                         map["r" := Role("Admin", true)], {}, map[]);
    assert "f" in before.features;
    assert Keys(before) == {"users"};
    assert Valid(before) && Unambiguous(Keys(before));
    var op := AssignPermissions("r", ["p"]);
    assert forall p | p in ["p"] :: p in before.permissions;
    var at := Apply(before, op).value.tables;
    assert ("r", "p") in at.grants by { assert "p" in ["p"]; }
    ApplyKeepsValid(before, op);
    assert Keys(at) == Keys(before);
    assert Holders(before, "p") == {};
    var g := ("r", "p");
    assert g in at.grants && g.1 == "p" && g.0 == "r";
    RemovalChangesExactlyHolders(at, "p", "r");
    assert AfterRemovePermission(at, "p", {}).value.invalidation == NoBump;
  }
}
