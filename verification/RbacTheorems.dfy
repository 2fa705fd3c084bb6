/** The promises of the permission cache, over every run of the protocol. */
module RbacTheorems {
  import opened Wrappers
  import opened CacheTiers
  import opened RbacTables
  import opened RbacCacheService
  import opened RbacProtocol
  import opened RbacInvariants
  import opened RbacSteps

  function Reach(redis: bool, tables: Tables, actions: seq<Action>): System {
    Run(Init(redis, tables), actions)
  }

  lemma ReachableInv(redis: bool, tables: Tables, actions: seq<Action>)
    requires Valid(tables)
    ensures Inv(Reach(redis, tables, actions))
  {
    var s := Init(redis, tables);
    assert Inv(s);
    RunKeepsInv(s, actions);
  }

  /** Tag safety: an entry tagged e, in any tier, holds the role's strings of a committed version
      that includes every mutation whose bump returned at most e. */
  lemma CachedEntriesIncludeTheirEpoch(redis: bool, tables: Tables, actions: seq<Action>, tier: Tier, role: Id)
    requires Valid(tables) && (tier, role) in Reach(redis, tables, actions).tiers
    ensures var s := Reach(redis, tables, actions);
            var x := s.tiers[(tier, role)];
            && x.asOf < |s.dbs| && x.entry.permissions == PermissionStrings(s.dbs[x.asOf], role)
            && forall m | m in s.mutations && s.mutations[m].ticket.Some?
               && s.mutations[m].ticket.value <= x.entry.epoch ::
                 s.mutations[m].version <= x.asOf
  {
    ReachableInv(redis, tables, actions);
    assert GoodValue(CoreOf(Reach(redis, tables, actions)), role, Reach(redis, tables, actions).tiers[(tier, role)]);
  }

  /** No mutation sits between its commit and its bump. */
  ghost predicate Quiescent(s: System) {
    forall m | m in s.mutations :: s.mutations[m].ticket.Some?
  }

  /** Versions after the last bumped one changed no role. */
  lemma {:induction false} SilentTail(dbs: seq<Tables>, mutations: map<nat, Mutation>, from: nat, role: Id)
    requires DbInv(dbs, mutations) && from < |dbs|
    requires forall m | m in mutations :: mutations[m].version <= from
    ensures PermissionStrings(dbs[from], role) == PermissionStrings(dbs[|dbs| - 1], role)
    decreases |dbs| - from
  {
    if from + 1 < |dbs| {
      assert !IsVersionOf(mutations, from + 1);
      assert Silent(dbs[from], dbs[from + 1]);
      SilentTail(dbs, mutations, from + 1, role);
    }
  }

  /** Quiescent coherence: an entry of the current epoch is the fresh join, so the cached decision
      is the uncached decision. */
  lemma QuiescentEntriesAreFresh(redis: bool, tables: Tables, actions: seq<Action>, tier: Tier, role: Id,
                                 required: seq<string>)
    requires Valid(tables) && (tier, role) in Reach(redis, tables, actions).tiers
    requires var s := Reach(redis, tables, actions); Quiescent(s) && s.tiers[(tier, role)].entry.epoch == s.epoch
    ensures var s := Reach(redis, tables, actions);
            var cached := s.tiers[(tier, role)].entry.permissions;
            && |s.dbs| > 0 && cached == PermissionStrings(Current(s), role)
            && (Decide(role, cached, required) <==> Decide(role, PermissionStrings(Current(s), role), required))
  {
    var s := Reach(redis, tables, actions);
    ReachableInv(redis, tables, actions);
    CurrentEntryIsFresh(CoreOf(s), role, s.tiers[(tier, role)]);
  }

  lemma CurrentEntryIsFresh(k: Core, role: Id, x: Stamped)
    requires DbInv(k.dbs, k.mutations) && MutationInv(k) && GoodValue(k, role, x) && x.entry.epoch == k.epoch
    requires forall m | m in k.mutations :: k.mutations[m].ticket.Some?
    ensures x.entry.permissions == PermissionStrings(k.dbs[|k.dbs| - 1], role)
  {
    forall m | m in k.mutations ensures k.mutations[m].version <= x.asOf {
      assert GoodMutation(|k.dbs|, k.epoch, k.locals, k.mutations[m]);
      assert BumpedBy(k.mutations[m], x.entry.epoch);
    }
    SilentTail(k.dbs, k.mutations, x.asOf, role);
  }

  /** Completed-write visibility. A call starts when mutation `m`, whose scope covers the role,
      has returned from its invalidation. Whatever happens before and after, a value the call
      returns is the role's strings of one committed version, and that version includes `m`
      - always, when the call runs in the process that did the invalidation;
      - in any process, on a cache hit whose epoch read succeeded and on an own fetch;
      and a joined value is never older than the start of the fetch it joined. */
  lemma CompletedWritesAreVisible(redis: bool, tables: Tables, before: seq<Action>, p: Proc, c: nat, role: Id,
                                  after: seq<Action>, m: nat)
    requires Valid(tables)
    requires var s := Reach(redis, tables, before);
             && p in s.locals && c !in s.calls && c !in s.fetches
             && m in s.mutations && s.mutations[m].phase.Completed? && Covers(s.mutations[m].scope, role)
    requires var s' := Run(Step(Reach(redis, tables, before), StartCall(p, c, role)), after);
             c in s'.calls && s'.calls[c].phase.Returned?
    ensures var s' := Run(Step(Reach(redis, tables, before), StartCall(p, c, role)), after);
            var Returned(path, asOf, permissions) := s'.calls[c].phase;
            && asOf < |s'.dbs| && permissions == PermissionStrings(s'.dbs[asOf], role)
            && m in s'.mutations && s'.mutations[m].version == Reach(redis, tables, before).mutations[m].version
            && (s'.mutations[m].proc == p || path == FromCache(true) || path == OwnFetch
                ==> s'.mutations[m].version <= asOf)
  {
    var s := Reach(redis, tables, before);
    ReachableInv(redis, tables, before);
    var s1 := Step(s, StartCall(p, c, role));
    StepKeepsInv(s, StartCall(p, c, role));
    RunKeepsInv(s1, after);
    StartedCall(s, p, c, role, m);
    ReturnedValue(s1, Run(s1, after), c, m);
  }

  lemma StartedCall(s: System, p: Proc, c: nat, role: Id, m: nat)
    requires p in s.locals && c !in s.calls && c !in s.fetches
    requires m in s.mutations && s.mutations[m].phase.Completed? && Covers(s.mutations[m].scope, role)
    ensures var s' := Step(s, StartCall(p, c, role));
            c in s'.calls && s'.calls[c].proc == p && s'.calls[c].role == role && m in s'.calls[c].seen
              && s'.mutations == s.mutations
  {
  }

  lemma ReturnedValue(s: System, s': System, c: nat, m: nat)
    requires Grows(s, s') && CallInv(CoreOf(s'), s'.fetches, s'.calls)
    requires c in s.calls && m in s.mutations && m in s.calls[c].seen && c in s'.calls && s'.calls[c].phase.Returned?
    ensures var Returned(path, asOf, permissions) := s'.calls[c].phase;
            && ReadFrom(s'.dbs, s.calls[c].role, asOf, permissions)
            && m in s'.mutations && s'.mutations[m].version == s.mutations[m].version
            && (s'.mutations[m].proc == s.calls[c].proc || path == FromCache(true) || path == OwnFetch
                ==> s'.mutations[m].version <= asOf)
  {
    assert SameCall(s.calls[c], s'.calls[c]);
    assert Advances(s.epoch, s.mutations[m], s'.mutations[m]);
    assert GoodCall(CoreOf(s'), s'.fetches, c, s'.calls[c]);
  }

  /** The joined value: at the moment a waiting call picks up the rows of a fetch, they are from a
      version no older than the one current when that fetch was registered, and a fetch that is
      registered was registered after the last completed invalidation of its role there. */
  lemma JoinedValuesAreNoOlderThanTheirFetch(redis: bool, tables: Tables, actions: seq<Action>, c: nat)
    requires Valid(tables)
    ensures var s := Reach(redis, tables, actions);
            && (c in s.calls && s.calls[c].phase.AwaitingFetch? ==>
                  var f := s.calls[c].phase.fetch;
                  f in s.fetches && (s.fetches[f].phase.Resolved? ==> s.fetches[f].start <= s.fetches[f].phase.asOf))
            && (forall p, role, m | p in s.locals && role in s.locals[p].pending
                                    && m in CompletedFor(s.mutations, role) && s.mutations[m].proc == p ::
                  var f := s.locals[p].pending[role];
                  f in s.fetches && s.mutations[m].version <= s.fetches[f].start)
  {
    ReachableInv(redis, tables, actions);
    var s := Reach(redis, tables, actions);
    if c in s.calls && s.calls[c].phase.AwaitingFetch? {
      assert GoodCall(CoreOf(s), s.fetches, c, s.calls[c]);
      assert GoodFetch(CoreOf(s), s.fetches[s.calls[c].phase.fetch]);
    }
    forall p, role, m | p in s.locals && role in s.locals[p].pending && m in CompletedFor(s.mutations, role)
      && s.mutations[m].proc == p
      ensures s.locals[p].pending[role] in s.fetches
              && s.mutations[m].version <= s.fetches[s.locals[p].pending[role]].start
    {
      assert GoodRegistration(s.mutations, s.fetches, p, role, s.locals[p].pending[role]);
    }
  }

  /** What the epoch snapshot buys: nothing is written back that is older than a mutation whose
      bump this process already knows of. */
  lemma WriteBacksSurviveKnownBumps(redis: bool, tables: Tables, actions: seq<Action>, f: nat, w: Write)
    requires Valid(tables)
    requires var s := Reach(redis, tables, actions);
             w !in s.writes && w in DoResumeFetch(s, f).writes
    ensures var s := Reach(redis, tables, actions);
            && f in s.fetches && s.fetches[f].proc in s.locals
            && forall m | m in s.mutations && BumpedBy(s.mutations[m], s.locals[s.fetches[f].proc].epoch) ::
                 s.mutations[m].version <= w.value.asOf
  {
    ReachableInv(redis, tables, actions);
    var s := Reach(redis, tables, actions);
    assert GoodFetch(CoreOf(s), s.fetches[f]);
  }
}
