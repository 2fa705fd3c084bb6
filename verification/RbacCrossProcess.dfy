/**
 Which paths of a permission lookup reflect the invalidations other processes have completed:
 exactly a fetch of one's own and a hit whose epoch read succeeded. Two runs show that the other
 two can return an older value.
 */
module RbacCrossProcess {
  import opened Wrappers
  import opened CacheTiers
  import opened RbacTables
  import opened RbacCacheService
  import opened RbacProtocol
  import opened RbacInvariants
  import opened RbacSteps
  import opened RbacTheorems
  import opened RbacLookups

  ghost predicate Reachable(s: System, tables: Tables) {
    exists actions :: Reach(true, tables, actions) == s
  }

  lemma Onwards(tables: Tables, s: System, rest: seq<Action>) returns (s': System)
    requires Reachable(s, tables)
    ensures s' == Run(s, rest) && Reachable(s', tables)
  {
    var actions :| Reach(true, tables, actions) == s;
    s' := Run(s, rest);
    RunSplits(Init(true, tables), actions, rest);
    assert Reach(true, tables, actions + rest) == s';
  }

  lemma Then(tables: Tables, s: System, a: Action) returns (s': System)
    requires Reachable(s, tables)
    ensures s' == Step(s, a) && Reachable(s', tables)
  {
    s' := Onwards(tables, s, [a] + []);
    OneAction(s, a, Step(s, a), []);
  }

  function Old(tables: Tables, role: Id): Stamped {
    Stamped(Entry(0, PermissionStrings(tables, role)), 0)
  }

  // ---------------------------------------------------------------- process 0 fetches the role

  /** Only process 0, which has done nothing. */
  function Alone(tables: Tables): System {
    System(true, [tables], 0, map[0 := Local(0, map[])], map[0 := []], map[], map[], map[], map[], {})
  }

  lemma Booted(tables: Tables) returns (s: System)
    ensures Reachable(s, tables) && s == Alone(tables)
  {
    assert Reach(true, tables, []) == Init(true, tables);
    s := Then(tables, Init(true, tables), Boot(0));
  }

  /** Its own fetch has its rows, and is still registered. */
  lemma FirstAnswered(tables: Tables, role: Id) returns (s: System)
    ensures Reachable(s, tables) && Idle(s) && s.dbs == [tables] && s.locals[0].pending == map[role := 1]
    ensures s.fetches == map[1 := Fetch(0, role, 0, 0, 0, Answered(0, PermissionStrings(tables, role)))]
  {
    var s0 := Booted(tables);
    var s1 := Onwards(tables, s0, [StartCall(0, 1, role)] + EpochRead(true, 0, 1));
    StartAndRead(s0, 0, 1, role, {});
    s := Onwards(tables, s1, [MissCache(1)] + ([ResumeCall(1)] + ([ReadRows(1)] + [])));
    var _ := FirstQuery(tables, role, s1);
  }

  lemma FirstQuery(tables: Tables, role: Id, s: System) returns (s': System)
    requires s == AtCache(Alone(tables), 0, 1, role, {})
    ensures s' == Run(s, [MissCache(1)] + ([ResumeCall(1)] + ([ReadRows(1)] + [])))
    ensures Idle(s') && s'.dbs == [tables] && s'.locals[0].pending == map[role := 1]
    ensures s'.fetches == map[1 := Fetch(0, role, 0, 0, 0, Answered(0, PermissionStrings(tables, role)))]
  {
    var s2 := MissRun(s, 1, [ResumeCall(1)] + ([ReadRows(1)] + []));
    var s3 := StartRun(s2, 0, 1, role, [ReadRows(1)] + []);
    s' := ReadRun(s3, 1, []);
  }

  /** Its own tier holds the rows under epoch 0. */
  lemma FirstFilled(tables: Tables, role: Id) returns (s: System)
    ensures Reachable(s, tables) && Idle(s) && s.dbs == [tables]
    ensures s.tiers == map[(L1(0), role) := Old(tables, role)]
  {
    var s0 := Booted(tables);
    var cold := Onwards(tables, s0, ColdActions(true, 0, 1, role));
    ColdLookup(s0, 0, 1, role);
    s := Then(tables, cold, Land(Write(L1(0), role, Old(tables, role))));
    FirstLand(tables, role, cold);
  }

  lemma FirstLand(tables: Tables, role: Id, s: System)
    requires LookedUp(Alone(tables), s, 0, 1, role, PermissionStrings(tables, role))
    ensures var s' := Step(s, Land(Write(L1(0), role, Old(tables, role))));
            Idle(s') && s'.dbs == [tables] && s'.tiers == map[(L1(0), role) := Old(tables, role)]
  {
  }

  // ---------------------------------------------------------------- process 1 invalidates

  /** Process 0 has one call behind it and nothing has been invalidated. */
  predicate Idle(s: System) {
    s.redis && s.epoch == 0 && s.mutations == map[] && s.locals.Keys == {0} && s.locals[0].epoch == 0
    && s.inbox == map[0 := []] && s.calls.Keys == {1} && s.fetches.Keys == {1}
  }

  /** Process 1 came and made mutation 7, an empty permission list for the role; nothing else moved. */
  function Elsewhere(s: System, dbs: seq<Tables>, role: Id, epoch: nat, ticket: Option<nat>,
                     phase: MutationPhase): System {
    s.(dbs := dbs, epoch := epoch, locals := s.locals[1 := Local(epoch, map[])], inbox := s.inbox[1 := []],
       mutations := map[7 := Mutation(1, Roles({role}), 1, ticket, phase)])
  }

  lemma Emptied(tables: Tables, role: Id, s: System) returns (s': System)
    requires Idle(s) && s.dbs == [tables] && role in tables.roles
    ensures s' == Step(Step(s, Boot(1)), Mutate(1, 7, AssignPermissions(role, [])))
    ensures |s'.dbs| == 2 && s' == Elsewhere(s, s'.dbs, role, 0, None, Committed)
  {
    var op := AssignPermissions(role, []);
    var change := Apply(tables, op).value;
    var s1 := Step(s, Boot(1));
    MutateEquation(s1, 1, 7, op, change, s1.mutations[7 := Mutation(1, Roles({role}), 1, None, Committed)]);
    s' := Step(s1, Mutate(1, 7, op));
  }

  /** Its invalidation returns. */
  lemma InvalidatedElsewhere(tables: Tables, role: Id, s: System) returns (s': System)
    requires Reachable(s, tables) && Idle(s) && s.dbs == [tables] && role in tables.roles
    ensures Reachable(s', tables) && |s'.dbs| == 2 && s' == Elsewhere(s, s'.dbs, role, 1, Some(1), Completed)
    ensures CompletedFor(s'.mutations, role) == {7}
  {
    var s1 := Then(tables, s, Boot(1));
    var s2 := Then(tables, s1, Mutate(1, 7, AssignPermissions(role, [])));
    var _ := Emptied(tables, role, s);
    s' := Onwards(tables, s2, InvalidationActions(true, 1, 7));
    InvalidationRun(s2, 7);
    InvalidatedIs(s, s2, role);
  }

  lemma InvalidatedIs(s: System, s2: System, role: Id)
    requires s2 == Elsewhere(s, s2.dbs, role, 0, None, Committed) && s.epoch == 0
    ensures Invalidated(s2, 7) == Elsewhere(s, s2.dbs, role, 1, Some(1), Completed)
  {
    assert Forget(Local(1, map[]), Roles({role})) == Local(1, map[]);
  }

  // ---------------------------------------------------------------- the hit after a failed read

  /** A returned value older than an invalidation that had completed when the call started. */
  ghost predicate StaleReturn(s: System, path: Path, c: nat, m: nat) {
    && c in s.calls && m in s.calls[c].seen && m in s.mutations
    && s.calls[c].phase.Returned? && s.calls[c].phase.path == path
    && s.calls[c].phase.asOf < s.mutations[m].version
  }

  /** A call whose epoch read fails goes on with the epoch its process had. */
  lemma StartAndFail(s: System, p: Proc, c: nat, role: Id, seen: set<nat>)
    requires Ready(s, p, c) && s.redis && seen == CompletedFor(s.mutations, role)
    ensures Run(s, [StartCall(p, c, role)] + ([FailEpochRead(c)] + ([HandleReply(p)] + [])))
            == s.(calls := s.calls[c := Call(p, role, seen, AwaitingCache(s.locals[p].epoch, false))])
  {
    var s1 := BeginRun(s, p, c, role, seen, AwaitingEpoch, [FailEpochRead(c)] + ([HandleReply(p)] + []));
    FallBack(s, s1, p, c, role, seen);
  }

  lemma FallBack(s: System, s1: System, p: Proc, c: nat, role: Id, seen: set<nat>)
    requires p in s.locals && p in s.inbox && s.inbox[p] == []
    requires s1 == s.(calls := s.calls[c := Call(p, role, seen, AwaitingEpoch)])
    ensures Run(s1, [FailEpochRead(c)] + ([HandleReply(p)] + []))
            == s.(calls := s.calls[c := Call(p, role, seen, AwaitingCache(s.locals[p].epoch, false))])
  {
    var s2 := Step(s1, FailEpochRead(c));
    OneAction(s1, FailEpochRead(c), s2, [HandleReply(p)] + []);
    assert s2.inbox[p] == [] + [EpochReply(c, None, true)] == [EpochReply(c, None, true)];
    OverwriteTwice(s.calls, c, s1.calls[c], s2.calls[c]);
    FellBack(s, s2, p, c, role, seen);
    OneAction(s2, HandleReply(p), Step(s2, HandleReply(p)), []);
  }

  lemma FellBack(s: System, s2: System, p: Proc, c: nat, role: Id, seen: set<nat>)
    requires p in s.locals && p in s.inbox && s.inbox[p] == []
    requires s2 == s.(calls := s.calls[c := Call(p, role, seen, EpochAnswered)],
                      inbox := s.inbox[p := [EpochReply(c, None, true)]])
    ensures Step(s2, HandleReply(p))
            == s.(calls := s.calls[c := Call(p, role, seen, AwaitingCache(s.locals[p].epoch, false))])
  {
    HandleEpochEquation(s2, p, c);
    assert s2.inbox[p][1..] == [] && s2.inbox[p := []] == s.inbox;
  }

  lemma UntrustedHitCanBeStale(tables: Tables, role: Id)
    requires Valid(tables) && role in tables.roles
    ensures exists s, c, m :: Reachable(s, tables) && StaleReturn(s, FromCache(false), c, m)
  {
    var s0 := FirstFilled(tables, role);
    var s1 := InvalidatedElsewhere(tables, role, s0);
    var s2 := Onwards(tables, s1, [StartCall(0, 2, role)] + ([FailEpochRead(2)] + ([HandleReply(0)] + [])));
    StartAndFail(s1, 0, 2, role, {7});
    var s3 := Onwards(tables, s2, [AnswerFromCache(2, L1(0)), ResumeCall(2)]);
    var _ := HitTail(s2, 0, 2, role, L1(0), false);
    assert StaleReturn(s3, FromCache(false), 2, 7);
  }

  // ---------------------------------------------------------------- the joined fetch

  /** A call that joins the fetch of call 1, whose rows are older than the invalidation. */
  lemma SecondJoined(tables: Tables, role: Id, s0: System) returns (s: System)
    requires Reachable(s0, tables) && Idle(s0) && s0.dbs == [tables] && role in tables.roles
    requires s0.locals[0].pending == map[role := 1]
    ensures Reachable(s, tables) && s.fetches == s0.fetches && 0 in s.locals
    ensures 2 in s.calls && s.calls[2] == Call(0, role, {7}, AwaitingFetch(1)) && 7 in s.mutations
            && s.mutations[7].version == 1
  {
    var s1 := InvalidatedElsewhere(tables, role, s0);
    var s2 := Onwards(tables, s1, [StartCall(0, 2, role)] + EpochRead(true, 0, 2));
    StartAndRead(s1, 0, 2, role, {7});
    s := Onwards(tables, s2, [MissCache(2)] + ([ResumeCall(2)] + []));
    var s3 := MissRun(s2, 2, [ResumeCall(2)] + []);
    var _ := JoinRun(s3, 2, []);
  }

  lemma SecondReturn(role: Id, s: System, rows: set<string>) returns (s': System)
    requires 2 in s.calls && s.calls[2] == Call(0, role, {7}, AwaitingFetch(1)) && 7 in s.mutations
             && s.mutations[7].version == 1
    requires 0 in s.locals && 1 in s.fetches && s.fetches[1].proc == 0 && s.fetches[1].phase == Answered(0, rows)
    ensures s' == Step(Step(s, ResumeFetch(1)), Return(2)) && StaleReturn(s', Joined, 2, 7)
  {
    var _ := ResumeFetchEquation(s, 1);
    ReturnEquation(Step(s, ResumeFetch(1)), 2);
    s' := Step(Step(s, ResumeFetch(1)), Return(2));
  }

  lemma JoinedValueCanBeStale(tables: Tables, role: Id)
    requires Valid(tables) && role in tables.roles
    ensures exists s, c, m :: Reachable(s, tables) && StaleReturn(s, Joined, c, m)
  {
    var s0 := FirstAnswered(tables, role);
    var s := SecondJoined(tables, role, s0);
    var _ := SecondReturn(role, s, PermissionStrings(tables, role));
    s := Then(tables, s, ResumeFetch(1));
    s := Then(tables, s, Return(2));
    assert StaleReturn(s, Joined, 2, 7);
  }

  // ---------------------------------------------------------------- exactly which paths

  /** No run returns a stale value on this path. */
  ghost predicate AlwaysReflects(path: Path) {
    forall redis, tables, actions, c, m | Valid(tables) :: !StaleReturn(Reach(redis, tables, actions), path, c, m)
  }

  lemma ReturnsReflect(redis: bool, tables: Tables, actions: seq<Action>, path: Path, c: nat, m: nat)
    requires Valid(tables) && (path == OwnFetch || path == FromCache(true))
    ensures !StaleReturn(Reach(redis, tables, actions), path, c, m)
  {
    ReachableInv(redis, tables, actions);
    var s := Reach(redis, tables, actions);
    if c in s.calls { assert GoodCall(CoreOf(s), s.fetches, c, s.calls[c]); }
  }

  lemma OtherPathsDoNot(path: Path)
    requires path == Joined || path == FromCache(false)
    ensures !AlwaysReflects(path)
  {
    var tables := Tables(map[], map[], map["r" := Role("Admin", true)], {}, map[]);
    if path.Joined? { JoinedValueCanBeStale(tables, "r"); } else { UntrustedHitCanBeStale(tables, "r"); }
    var s, c, m :| Reachable(s, tables) && StaleReturn(s, path, c, m);
    Refutes(tables, s, path, c, m);
  }

  lemma Refutes(tables: Tables, s: System, path: Path, c: nat, m: nat)
    requires Valid(tables) && Reachable(s, tables) && StaleReturn(s, path, c, m)
    ensures !AlwaysReflects(path)
  {
    var actions :| Reach(true, tables, actions) == s;
    assert StaleReturn(Reach(true, tables, actions), path, c, m);
  }

  /** Visibility across processes. A path never yields a value older than an invalidation that had
      completed, in any process, when the call started, if and only if it is an own fetch or a hit
      whose epoch read succeeded. */
  lemma VisibleAcrossProcessesIff(path: Path)
    ensures AlwaysReflects(path) <==> path == OwnFetch || path == FromCache(true)
  {
    if path == OwnFetch || path == FromCache(true) {
      forall redis, tables, actions, c, m | Valid(tables)
        ensures !StaleReturn(Reach(redis, tables, actions), path, c, m)
      {
        ReturnsReflect(redis, tables, actions, path, c, m);
      }
    } else {
      OtherPathsDoNot(path);
    }
  }
}
