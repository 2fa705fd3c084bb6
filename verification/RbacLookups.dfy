/**
 What a permission lookup answers and what an invalidation achieves. The safety theorems say that no
 answer is wrong; here lookups are shown to get an answer: a cold one its own rows, a warm one the
 cached rows without a query, a waiting one the rows of the fetch it waits for, and an exception only
 if the database failed.
 */
module RbacLookups {
  import opened Wrappers
  import opened CacheTiers
  import opened RbacTables
  import opened RbacCacheService
  import opened RbacProtocol
  import opened RbacInvariants
  import opened RbacSteps
  import opened RbacTheorems
  import opened RbacFlight

  // ---------------------------------------------------------------- what a waiting call is told

  /** It gets the rows of its fetch exactly when that has resolved, and the exception exactly when that
      was rejected; until then it goes on waiting. */
  lemma ReturnAnswersIff(s: System, c: nat)
    requires c in s.calls && s.calls[c].phase.AwaitingFetch? && s.calls[c].phase.fetch in s.fetches
    ensures var f, s' := s.calls[c].phase.fetch, Step(s, Return(c));
            && c in s'.calls
            && (s'.calls[c].phase.Returned? <==> s.fetches[f].phase.Resolved?)
            && (s'.calls[c].phase.Threw? <==> s.fetches[f].phase.Rejected?)
            && (s.fetches[f].InFlight() <==> s'.calls[c].phase == AwaitingFetch(f))
            && (s.fetches[f].phase.Resolved? ==>
                  && s'.calls[c].phase.permissions == s.fetches[f].phase.rows
                  && s'.calls[c].phase.asOf == s.fetches[f].phase.asOf
                  && (s'.calls[c].phase.path == OwnFetch <==> f == c)
                  && (s'.calls[c].phase.path == Joined <==> f != c))
            && (forall d | d in s.calls && d != c :: d in s'.calls && s'.calls[d] == s.calls[d])
            && s'.calls[c].proc == s.calls[c].proc && s'.calls[c].role == s.calls[c].role
  {
    ReturnEquation(s, c);
  }

  /** Exceptions come from failed fetches of the role in the process. */
  ghost predicate ThrewAfterRejection(s: System) {
    forall c | c in s.calls && s.calls[c].phase.Threw? :: exists f :: RejectedFor(s, s.calls[c], f)
  }

  predicate RejectedFor(s: System, call: Call, f: nat) {
    f in s.fetches && s.fetches[f].phase.Rejected? && s.fetches[f].proc == call.proc && s.fetches[f].role == call.role
  }

  predicate TouchesFetches(a: Action) {
    a.ResumeCall? || a.ReadRows? || a.FailRows? || a.ResumeFetch?
  }

  lemma OthersLeaveFetches(s: System, a: Action)
    requires !TouchesFetches(a)
    ensures Step(s, a).fetches == s.fetches
  {
    if a.Mutate? {
      MutationTakesEffect(s, a.proc, a.mutation, a.op);
    } else if a.Return? {
      ReturnTouchesNoFetch(s, a.call);
    } else if LeavesFetchesAlone(a) {
      CallsTouchNoFetch(s, a);
    } else {
      RestLeavesFetches(s, a);
    }
  }

  lemma RestLeavesFetches(s: System, a: Action)
    requires a.Boot? || a.HandleReply? || a.Bump? || a.Clear?
    ensures Step(s, a).fetches == s.fetches
  {
    if a.HandleReply? { RepliesLeaveFetches(s, a.proc); }
  }

  lemma RepliesLeaveFetches(s: System, p: Proc)
    ensures DoHandleReply(s, p).fetches == s.fetches
  {
    if p in s.locals && p in s.inbox && s.inbox[p] != [] {
      match s.inbox[p][0]
      case EpochReply(c, _, _) =>
        if c in s.calls && s.calls[c].phase.EpochAnswered? { HandleEpochEquation(s, p, c); }
      case BumpReply(_, _) =>
    }
  }

  predicate CanResumeCall(s: System, c: nat) {
    c in s.calls && s.calls[c].phase.CacheAnswered? && s.calls[c].proc in s.locals && |s.dbs| > 0
  }

  lemma CannotResumeCall(s: System, c: nat)
    requires !CanResumeCall(s, c)
    ensures Step(s, ResumeCall(c)) == s
  {
  }

  lemma ResumeStartsAtMost(s: System, c: nat)
    ensures var s' := Step(s, ResumeCall(c));
            && (forall f | f in s.fetches && f != c :: f in s'.fetches && s'.fetches[f] == s.fetches[f])
            && (forall f | f in s'.fetches && f != c :: f in s.fetches)
            && (c in s'.fetches ==> s'.fetches[c].phase.Querying? || (c in s.fetches && s'.fetches[c] == s.fetches[c]))
  {
    if CanResumeCall(s, c) { ResumeEquations(s, c); } else { CannotResumeCall(s, c); }
  }

  predicate Moved(x: Fetch, x': Fetch, failed: bool) {
    x' == x || (x.InFlight() && (x'.phase.Rejected? <==> failed))
  }

  /** At most the fetch named moves, and it is rejected exactly by a failing query. */
  ghost predicate OnlyMoves(s: System, s': System, f: nat, failed: bool) {
    && s'.fetches.Keys == s.fetches.Keys
    && forall g | g in s.fetches ::
         if g == f then Moved(s.fetches[g], s'.fetches[g], failed) else s'.fetches[g] == s.fetches[g]
  }

  lemma FetchMoves(s: System, a: Action)
    requires a.ReadRows? || a.FailRows? || a.ResumeFetch?
    ensures OnlyMoves(s, Step(s, a), a.fetch, a.FailRows?)
  {
    if a.ReadRows? {
      ReadMoves(s, a.fetch);
    } else if a.FailRows? {
      FailMoves(s, a.fetch);
    } else {
      ResumeMoves(s, a.fetch);
    }
  }

  lemma ReadMoves(s: System, f: nat)
    ensures OnlyMoves(s, Step(s, ReadRows(f)), f, false)
  {
  }

  lemma FailMoves(s: System, f: nat)
    ensures OnlyMoves(s, Step(s, FailRows(f)), f, true)
  {
  }

  lemma ResumeMoves(s: System, f: nat)
    ensures OnlyMoves(s, Step(s, ResumeFetch(f)), f, false)
  {
  }

  /** Only a failing query rejects a fetch. */
  lemma RejectedByFailure(s: System, a: Action, f: nat)
    requires f in Step(s, a).fetches && Step(s, a).fetches[f].phase.Rejected?
    ensures a == FailRows(f) || (f in s.fetches && s.fetches[f].phase.Rejected?)
  {
    if !TouchesFetches(a) {
      OthersLeaveFetches(s, a);
    } else if a.ResumeCall? {
      ResumeStartsAtMost(s, a.call);
    } else {
      FetchMoves(s, a);
    }
  }

  lemma RejectedStays(s: System, a: Action, f: nat)
    requires OwnerInv(s.fetches, s.calls) && f in s.fetches && s.fetches[f].phase.Rejected?
    ensures f in Step(s, a).fetches && Step(s, a).fetches[f] == s.fetches[f]
  {
    if !TouchesFetches(a) {
      OthersLeaveFetches(s, a);
    } else if a.ResumeCall? {
      ResumeStartsAtMost(s, a.call);
      if a.call == f { CannotResumeCall(s, f); }
    } else {
      FetchMoves(s, a);
    }
  }

  predicate TouchesCalls(a: Action) {
    || a.StartCall? || a.ServeEpochRead? || a.FailEpochRead? || a.HandleReply? || a.AnswerFromCache? || a.MissCache?
    || a.ResumeCall? || a.Return?
  }

  lemma OthersLeaveCalls(s: System, a: Action)
    requires !TouchesCalls(a)
    ensures Step(s, a).calls == s.calls
  {
    if a.Mutate? { MutationTakesEffect(s, a.proc, a.mutation, a.op); }
  }

  /** No call newly throws, and no call is forgotten. */
  ghost predicate NoneThrows(s: System, s': System) {
    forall c | c in s'.calls && s'.calls[c].phase.Threw? :: c in s.calls && s.calls[c] == s'.calls[c]
  }

  lemma LookingUpDoesNotThrow(s: System, a: Action)
    requires a.StartCall? || a.ServeEpochRead? || a.FailEpochRead? || a.AnswerFromCache? || a.MissCache?
    ensures NoneThrows(s, Step(s, a))
  {
    if a.AnswerFromCache? || a.MissCache? { CacheDoesNotThrow(s, a); } else { ReadingDoesNotThrow(s, a); }
  }

  lemma CacheDoesNotThrow(s: System, a: Action)
    requires a.AnswerFromCache? || a.MissCache?
    ensures NoneThrows(s, Step(s, a))
  {
  }

  lemma ReadingDoesNotThrow(s: System, a: Action)
    requires a.StartCall? || a.ServeEpochRead? || a.FailEpochRead?
    ensures NoneThrows(s, Step(s, a))
  {
  }

  lemma RepliesDoNotThrow(s: System, p: Proc)
    ensures NoneThrows(s, Step(s, HandleReply(p)))
  {
  }

  lemma ResumingDoesNotThrow(s: System, c: nat)
    ensures NoneThrows(s, Step(s, ResumeCall(c)))
  {
    if CanResumeCall(s, c) { ResumeEquations(s, c); } else { CannotResumeCall(s, c); }
  }

  predicate CanReturn(s: System, c: nat) {
    c in s.calls && s.calls[c].phase.AwaitingFetch? && s.calls[c].phase.fetch in s.fetches
  }

  lemma CannotReturn(s: System, c: nat)
    requires !CanReturn(s, c)
    ensures Step(s, Return(c)) == s
  {
  }

  lemma ReturnedThrew(s: System, d: nat, c: nat)
    requires c in Step(s, Return(d)).calls && Step(s, Return(d)).calls[c].phase.Threw?
    ensures || (c in s.calls && s.calls[c] == Step(s, Return(d)).calls[c])
            || (&& d == c && CanReturn(s, c) && s.fetches[s.calls[c].phase.fetch].phase.Rejected?
                && Step(s, Return(d)).calls[c].proc == s.calls[c].proc
                && Step(s, Return(d)).calls[c].role == s.calls[c].role)
  {
    if CanReturn(s, d) { ReturnAnswersIff(s, d); } else { CannotReturn(s, d); }
  }

  lemma ThrewByReturn(s: System, a: Action, c: nat)
    requires c in Step(s, a).calls && Step(s, a).calls[c].phase.Threw?
    ensures || (c in s.calls && s.calls[c] == Step(s, a).calls[c])
            || (&& a == Return(c) && CanReturn(s, c) && s.fetches[s.calls[c].phase.fetch].phase.Rejected?
                && Step(s, a).calls[c].proc == s.calls[c].proc && Step(s, a).calls[c].role == s.calls[c].role)
  {
    if !TouchesCalls(a) {
      OthersLeaveCalls(s, a);
    } else if a.Return? {
      ReturnedThrew(s, a.call, c);
    } else if a.ResumeCall? {
      ResumingDoesNotThrow(s, a.call);
    } else if a.HandleReply? {
      RepliesDoNotThrow(s, a.proc);
    } else {
      LookingUpDoesNotThrow(s, a);
    }
  }

  lemma StepKeepsThrown(s: System, a: Action)
    requires Inv(s) && ThrewAfterRejection(s)
    ensures ThrewAfterRejection(Step(s, a))
  {
    var s' := Step(s, a);
    forall c | c in s'.calls && s'.calls[c].phase.Threw? ensures exists f :: RejectedFor(s', s'.calls[c], f) {
      ThrewByReturn(s, a, c);
      var f: nat;
      if c in s.calls && s.calls[c] == s'.calls[c] {
        f :| RejectedFor(s, s.calls[c], f);
      } else {
        f := s.calls[c].phase.fetch;
        assert GoodCall(CoreOf(s), s.fetches, c, s.calls[c]);
      }
      RejectedStays(s, a, f);
      assert RejectedFor(s', s'.calls[c], f);
    }
  }

  lemma {:induction false} RunKeepsThrown(s: System, actions: seq<Action>)
    requires Inv(s) && ThrewAfterRejection(s)
    ensures ThrewAfterRejection(Run(s, actions))
    decreases |actions|
  {
    if actions != [] {
      StepKeepsInv(s, actions[0]);
      StepKeepsThrown(s, actions[0]);
      RunKeepsThrown(Step(s, actions[0]), actions[1..]);
    }
  }

  lemma {:induction false} RejectedInRun(s: System, actions: seq<Action>, f: nat)
    requires f in Run(s, actions).fetches && Run(s, actions).fetches[f].phase.Rejected?
    ensures FailRows(f) in actions || (f in s.fetches && s.fetches[f].phase.Rejected?)
    decreases |actions|
  {
    if actions != [] {
      RejectedInRun(Step(s, actions[0]), actions[1..], f);
      if FailRows(f) !in actions[1..] { RejectedByFailure(s, actions[0], f); }
    }
  }

  /** Over every run: a lookup throws only if the database failed a fetch of its role in its process. */
  lemma LookupsThrowOnlyOnFailure(redis: bool, tables: Tables, actions: seq<Action>, c: nat)
    requires Valid(tables)
    requires c in Reach(redis, tables, actions).calls && Reach(redis, tables, actions).calls[c].phase.Threw?
    ensures var s := Reach(redis, tables, actions);
            exists f :: RejectedFor(s, s.calls[c], f) && FailRows(f) in actions
  {
    var s := Reach(redis, tables, actions);
    assert Inv(Init(redis, tables));
    RunKeepsThrown(Init(redis, tables), actions);
    var f :| RejectedFor(s, s.calls[c], f);
    RejectedInRun(Init(redis, tables), actions, f);
  }

  // ---------------------------------------------------------------- single statements

  /** The rows are those of the present tables. */
  lemma RowsAreCurrent(s: System, f: nat)
    requires f in s.fetches && s.fetches[f].phase.Querying? && |s.dbs| > 0
    ensures var s' := Step(s, ReadRows(f));
            && f in s'.fetches && s'.fetches[f].phase.Answered?
            && s'.fetches[f].phase.asOf == |s.dbs| - 1
            && s'.fetches[f].phase.rows == PermissionStrings(s.dbs[|s.dbs| - 1], s.fetches[f].role)
  {
    ReadRowsEquation(s, f);
  }

  /** A fetch with its rows unregisters its role, and writes to the process's own tier, and to the shared
      one if there is one, exactly if the epoch has not moved since it was registered. */
  lemma RowsAreWrittenBackIff(s: System, f: nat)
    requires f in s.fetches && s.fetches[f].phase.Answered? && s.fetches[f].proc in s.locals
    ensures var x, s' := s.fetches[f], Step(s, ResumeFetch(f));
            var value := Stamped(Entry(x.current, x.phase.rows), x.phase.asOf);
            && f in s'.fetches && s'.fetches[f].phase == Resolved(x.phase.asOf, x.phase.rows)
            && (if x.snapshot == s.locals[x.proc].epoch then
                  && (forall w | w in s.writes :: w in s'.writes) && Write(L1(x.proc), x.role, value) in s'.writes
                  && (s.redis ==> Write(L2, x.role, value) in s'.writes)
                  && (forall w | w in s'.writes && w !in s.writes ::
                        w.role == x.role && w.value == value && (w.tier == L1(x.proc) || (s.redis && w.tier == L2)))
                else s'.writes == s.writes)
            && x.proc in s'.locals && s'.locals[x.proc].epoch == s.locals[x.proc].epoch
            && ExceptScope(Roles({x.role}), s.locals[x.proc].pending, s'.locals[x.proc].pending)
  {
  }

  /** A failed query rejects the fetch and unregisters its role, and writes nothing. */
  lemma FailureUnregisters(s: System, f: nat)
    requires f in s.fetches && s.fetches[f].phase.Querying? && s.fetches[f].proc in s.locals
    ensures var x, s' := s.fetches[f], Step(s, FailRows(f));
            && f in s'.fetches && s'.fetches[f].phase.Rejected? && s'.writes == s.writes
            && x.proc in s'.locals && s'.locals[x.proc].epoch == s.locals[x.proc].epoch
            && ExceptScope(Roles({x.role}), s.locals[x.proc].pending, s'.locals[x.proc].pending)
  {
    FailRowsEquation(s, f);
  }

  /** A committed mutation is the newest version of the tables, and its invalidation, if it asks for one,
      is still to come; a refused one changes nothing. */
  lemma MutationTakesEffect(s: System, p: Proc, m: nat, op: AdminOp)
    ensures var s' := Step(s, Mutate(p, m, op));
            if p in s.locals && m !in s.mutations && |s.dbs| > 0 && Apply(Current(s), op).Ok? then
              var change := Apply(Current(s), op).value;
              var x := Mutation(p, change.invalidation, |s.dbs|, None, Committed);
              s' == s.(dbs := s.dbs + [change.tables],
                       mutations := if change.invalidation.NoBump? then s.mutations else s.mutations[m := x])
            else s' == s
  {
    if p in s.locals && m !in s.mutations && |s.dbs| > 0 && Apply(Current(s), op).Ok? {
      var change := Apply(Current(s), op).value;
      var x := Mutation(p, change.invalidation, |s.dbs|, None, Committed);
      Accepted(s, p, m, op, change, if change.invalidation.NoBump? then s.mutations else s.mutations[m := x]);
    } else {
      Refused(s, p, m, op);
    }
  }

  lemma Accepted(s: System, p: Proc, m: nat, op: AdminOp, change: Change, mutations': map<nat, Mutation>)
    requires p in s.locals && m !in s.mutations && |s.dbs| > 0 && Apply(Current(s), op) == Ok(change)
    requires mutations' == if change.invalidation.NoBump? then s.mutations
                           else s.mutations[m := Mutation(p, change.invalidation, |s.dbs|, None, Committed)]
    ensures Step(s, Mutate(p, m, op)) == s.(dbs := s.dbs + [change.tables], mutations := mutations')
  {
    MutateEquation(s, p, m, op, change, mutations');
  }

  lemma Refused(s: System, p: Proc, m: nat, op: AdminOp)
    requires !(p in s.locals && m !in s.mutations && |s.dbs| > 0 && Apply(Current(s), op).Ok?)
    ensures Step(s, Mutate(p, m, op)) == s
  {
  }

  /** An eviction drops the entry of one role from one tier; nothing else moves. */
  lemma EvictionForgets(s: System, tier: Tier, role: Id)
    ensures var s' := Step(s, Evict(tier, role));
            && s' == s.(tiers := s'.tiers) && s'.tiers.Keys == s.tiers.Keys - {(tier, role)}
            && forall k | k in s'.tiers :: s'.tiers[k] == s.tiers[k]
  {
  }

  // ---------------------------------------------------------------- whole lookups

  lemma TwoActions(s: System, a: Action, rest: seq<Action>)
    ensures Run(s, [a] + rest) == Run(Step(s, a), rest)
  {
    assert ([a] + rest)[1..] == rest;
  }

  /** A process in which a lookup can start: no reply is on its way to it, and its epoch is none that
      nobody has handed out. */
  predicate Ready(s: System, p: Proc, c: nat) {
    && |s.dbs| > 0 && p in s.locals && p in s.inbox && s.inbox[p] == [] && c !in s.calls && c !in s.fetches
    && s.locals[p].epoch <= s.epoch && (!s.redis ==> s.locals[p].epoch == s.epoch)
  }

  /** In every reachable state every process without pending replies is one. */
  lemma ReachableIsReady(redis: bool, tables: Tables, actions: seq<Action>, p: Proc, c: nat)
    requires Valid(tables)
    requires var s := Reach(redis, tables, actions);
             p in s.locals && p in s.inbox && s.inbox[p] == [] && c !in s.calls && c !in s.fetches
    ensures Ready(Reach(redis, tables, actions), p, c)
  {
    ReachableInv(redis, tables, actions);
  }

  /** The epoch read of a lookup, or none without Redis. */
  function EpochRead(redis: bool, p: Proc, c: nat): seq<Action> {
    if redis then [ServeEpochRead(c), HandleReply(p)] else []
  }

  /** The lookup has the current epoch, and so has its process. */
  function AtCache(s: System, p: Proc, c: nat, role: Id, seen: set<nat>): System
    requires p in s.locals
  {
    s.(calls := s.calls[c := Call(p, role, seen, AwaitingCache(s.epoch, true))],
       locals := s.locals[p := s.locals[p].(epoch := s.epoch)])
  }

  lemma StartAndRead(s: System, p: Proc, c: nat, role: Id, seen: set<nat>)
    requires Ready(s, p, c) && seen == CompletedFor(s.mutations, role)
    ensures Run(s, [StartCall(p, c, role)] + EpochRead(s.redis, p, c)) == AtCache(s, p, c, role, seen)
  {
    if s.redis {
      assert EpochRead(s.redis, p, c) == [ServeEpochRead(c)] + ([HandleReply(p)] + []);
      var s1 := BeginRun(s, p, c, role, seen, AwaitingEpoch, [ServeEpochRead(c)] + ([HandleReply(p)] + []));
      ReadShared(s, s1, p, c, role, seen);
    } else {
      assert EpochRead(s.redis, p, c) == [];
      StartAlone(s, p, c, role, seen);
    }
  }

  lemma StartAlone(s: System, p: Proc, c: nat, role: Id, seen: set<nat>)
    requires Ready(s, p, c) && !s.redis && seen == CompletedFor(s.mutations, role)
    ensures Run(s, [StartCall(p, c, role)] + []) == AtCache(s, p, c, role, seen)
  {
    var s1 := BeginRun(s, p, c, role, seen, AwaitingCache(s.epoch, true), []);
    assert s.locals[p := s.locals[p].(epoch := s.epoch)] == s.locals;
  }

  lemma ReadShared(s: System, s1: System, p: Proc, c: nat, role: Id, seen: set<nat>)
    requires p in s.locals && p in s.inbox && s.inbox[p] == [] && s.locals[p].epoch <= s.epoch
    requires s1 == s.(calls := s.calls[c := Call(p, role, seen, AwaitingEpoch)])
    ensures Run(s1, [ServeEpochRead(c)] + ([HandleReply(p)] + [])) == AtCache(s, p, c, role, seen)
  {
    var reply := EpochReply(c, if s.epoch == 0 then None else Some(s.epoch), false);
    var s2 := ReadReplied(s1, p, c, reply, [HandleReply(p)] + []);
    OverwriteTwice(s.calls, c, s1.calls[c], s2.calls[c]);
    ReplyAdopted(s, s2, p, c, role, seen, reply);
  }

  lemma BeginRun(s: System, p: Proc, c: nat, role: Id, seen: set<nat>, phase: CallPhase, rest: seq<Action>)
    returns (s': System)
    requires Ready(s, p, c) && seen == CompletedFor(s.mutations, role)
    requires phase == if s.redis then AwaitingEpoch else AwaitingCache(s.epoch, true)
    ensures s' == s.(calls := s.calls[c := Call(p, role, seen, phase)])
    ensures Run(s, [StartCall(p, c, role)] + rest) == Run(s', rest)
  {
    s' := s.(calls := s.calls[c := Call(p, role, seen, phase)]);
    OneAction(s, StartCall(p, c, role), s', rest);
  }

  lemma ReadReplied(s: System, p: Proc, c: nat, reply: Reply, rest: seq<Action>) returns (s': System)
    requires c in s.calls && s.calls[c].phase.AwaitingEpoch? && s.calls[c].proc == p && p in s.inbox && s.inbox[p] == []
    requires reply == EpochReply(c, if s.epoch == 0 then None else Some(s.epoch), false)
    ensures s' == s.(calls := s.calls[c := s.calls[c].(phase := EpochAnswered)], inbox := s.inbox[p := [reply]])
    ensures Run(s, [ServeEpochRead(c)] + rest) == Run(s', rest)
  {
    s' := Step(s, ServeEpochRead(c));
    assert [] + [reply] == [reply];
    OneAction(s, ServeEpochRead(c), s', rest);
  }

  lemma ReplyAdopted(s: System, s2: System, p: Proc, c: nat, role: Id, seen: set<nat>, reply: Reply)
    requires p in s.locals && p in s.inbox && s.inbox[p] == [] && s.locals[p].epoch <= s.epoch
    requires reply == EpochReply(c, if s.epoch == 0 then None else Some(s.epoch), false)
    requires s2 == s.(calls := s.calls[c := Call(p, role, seen, EpochAnswered)], inbox := s.inbox[p := [reply]])
    ensures Run(s2, [HandleReply(p)] + []) == AtCache(s, p, c, role, seen)
  {
    AdoptedState(s, s2, p, c, role, seen, reply);
    OneAction(s2, HandleReply(p), AtCache(s, p, c, role, seen), []);
  }

  lemma AdoptedState(s: System, s2: System, p: Proc, c: nat, role: Id, seen: set<nat>, reply: Reply)
    requires p in s.locals && p in s.inbox && s.inbox[p] == [] && s.locals[p].epoch <= s.epoch
    requires reply == EpochReply(c, if s.epoch == 0 then None else Some(s.epoch), false)
    requires s2 == s.(calls := s.calls[c := Call(p, role, seen, EpochAnswered)], inbox := s.inbox[p := [reply]])
    ensures DoHandleReply(s2, p) == AtCache(s, p, c, role, seen)
  {
    HandleEpochEquation(s2, p, c);
    assert s2.inbox[p][1..] == [];
    assert s.inbox[p := [reply]][p := []] == s.inbox;
    assert s.locals[p := s.locals[p]] == s.locals;
  }

  /** The rows of the role now, as they are cached. */
  function Fresh(s: System, role: Id): Stamped
    requires |s.dbs| > 0
  {
    Stamped(Entry(s.epoch, PermissionStrings(s.dbs[|s.dbs| - 1], role)), |s.dbs| - 1)
  }

  function ColdActions(redis: bool, p: Proc, c: nat, role: Id): seq<Action> {
    ([StartCall(p, c, role)] + EpochRead(redis, p, c))
    + [MissCache(c), ResumeCall(c), ReadRows(c), ResumeFetch(c), Return(c)]
  }

  lemma {:induction false} RunSplits(s: System, a: seq<Action>, b: seq<Action>)
    ensures Run(s, a + b) == Run(Run(s, a), b)
    decreases |a|
  {
    if a == [] {
      assert [] + b == b;
    } else {
      assert (a + b)[1..] == a[1..] + b;
      RunSplits(Step(s, a[0]), a[1..], b);
    }
  }

  /** One action of a run, and the state it leaves. */
  lemma OneAction(s: System, a: Action, s': System, rest: seq<Action>)
    requires Step(s, a) == s'
    ensures Run(s, [a] + rest) == Run(s', rest)
  {
    TwoActions(s, a, rest);
  }

  lemma MissRun(s: System, c: nat, rest: seq<Action>) returns (s': System)
    requires c in s.calls && s.calls[c].phase.AwaitingCache?
    ensures var x := s.calls[c].phase;
            s' == s.(calls := s.calls[c := s.calls[c].(phase := CacheAnswered(x.current, x.trusted, None))])
    ensures Run(s, [MissCache(c)] + rest) == Run(s', rest)
  {
    s' := Step(s, MissCache(c));
    OneAction(s, MissCache(c), s', rest);
  }

  lemma StartRun(s: System, p: Proc, c: nat, role: Id, rest: seq<Action>) returns (s': System)
    requires p in s.locals && c in s.calls && |s.dbs| > 0 && role !in s.locals[p].pending
    requires s.calls[c].proc == p && s.calls[c].role == role && s.calls[c].phase == CacheAnswered(s.epoch, true, None)
    requires s.locals[p].epoch == s.epoch
    ensures s' == s.(calls := s.calls[c := s.calls[c].(phase := AwaitingFetch(c))],
                     fetches := s.fetches[c := Fetch(p, role, s.epoch, s.epoch, |s.dbs| - 1, Querying)],
                     locals := s.locals[p := s.locals[p].(pending := s.locals[p].pending[role := c])])
    ensures Run(s, [ResumeCall(c)] + rest) == Run(s', rest)
  {
    s' := s.(calls := s.calls[c := s.calls[c].(phase := AwaitingFetch(c))],
             fetches := s.fetches[c := Fetch(p, role, s.epoch, s.epoch, |s.dbs| - 1, Querying)],
             locals := s.locals[p := s.locals[p].(pending := s.locals[p].pending[role := c])]);
    ResumeEquations(s, c);
    OneAction(s, ResumeCall(c), s', rest);
  }

  lemma ReadRun(s: System, f: nat, rest: seq<Action>) returns (s': System)
    requires f in s.fetches && s.fetches[f].phase.Querying? && |s.dbs| > 0
    ensures var rows := PermissionStrings(Current(s), s.fetches[f].role);
            s' == s.(fetches := s.fetches[f := s.fetches[f].(phase := Answered(|s.dbs| - 1, rows))])
    ensures Run(s, [ReadRows(f)] + rest) == Run(s', rest)
  {
    ReadRowsEquation(s, f);
    s' := Step(s, ReadRows(f));
    OneAction(s, ReadRows(f), s', rest);
  }

  lemma WriteRun(s: System, f: nat, value: Stamped, rest: seq<Action>) returns (s': System)
    requires f in s.fetches && s.fetches[f].phase.Answered? && s.fetches[f].proc in s.locals
    requires s.fetches[f].snapshot == s.locals[s.fetches[f].proc].epoch
    requires var x := s.fetches[f]; value == Stamped(Entry(x.current, x.phase.rows), x.phase.asOf)
    ensures var x := s.fetches[f];
            s' == s.(fetches := s.fetches[f := x.(phase := Resolved(x.phase.asOf, x.phase.rows))],
                     locals := s.locals[x.proc := Unregister(s.locals[x.proc], x.role)],
                     writes := s.writes + {Write(L1(x.proc), x.role, value)}
                               + if s.redis then {Write(L2, x.role, value)} else {})
    ensures Run(s, [ResumeFetch(f)] + rest) == Run(s', rest)
  {
    var ws := ResumeFetchEquation(s, f);
    s' := Step(s, ResumeFetch(f));
    WrittenBack(s, f, value);
    OneAction(s, ResumeFetch(f), s', rest);
  }

  lemma ReturnRun(s: System, c: nat, rest: seq<Action>) returns (s': System)
    requires c in s.calls && s.calls[c].phase == AwaitingFetch(c) && c in s.fetches && s.fetches[c].phase.Resolved?
    ensures var x := s.fetches[c].phase;
            s' == s.(calls := s.calls[c := s.calls[c].(phase := Returned(OwnFetch, x.asOf, x.rows))])
    ensures Run(s, [Return(c)] + rest) == Run(s', rest)
  {
    ReturnEquation(s, c);
    s' := Step(s, Return(c));
    OneAction(s, Return(c), s', rest);
  }

  lemma WrittenBack(s: System, f: nat, value: Stamped)
    requires f in s.fetches && s.fetches[f].phase.Answered? && s.fetches[f].proc in s.locals
    requires s.fetches[f].snapshot == s.locals[s.fetches[f].proc].epoch
    requires var x := s.fetches[f]; value == Stamped(Entry(x.current, x.phase.rows), x.phase.asOf)
    ensures var x := s.fetches[f];
            Step(s, ResumeFetch(f)).writes
            == s.writes + {Write(L1(x.proc), x.role, value)} + if s.redis then {Write(L2, x.role, value)} else {}
  {
  }

  /** The state a cold lookup leaves. */
  function Looked(s: System, p: Proc, c: nat, role: Id, seen: set<nat>, x: Stamped): System
    requires p in s.locals
  {
    var call := Call(p, role, seen, Returned(OwnFetch, x.asOf, x.entry.permissions));
    s.(calls := s.calls[c := call],
       fetches := s.fetches[c := Fetch(p, role, s.epoch, s.epoch, x.asOf, Resolved(x.asOf, x.entry.permissions))],
       locals := s.locals[p := s.locals[p].(epoch := s.epoch)],
       writes := s.writes + {Write(L1(p), role, x)} + if s.redis then {Write(L2, role, x)} else {})
  }

  lemma ColdRun(s: System, p: Proc, c: nat, role: Id, seen: set<nat>, x: Stamped)
    requires Ready(s, p, c) && role !in s.locals[p].pending
    requires seen == CompletedFor(s.mutations, role) && x == Fresh(s, role)
    ensures Run(s, ColdActions(s.redis, p, c, role)) == Looked(s, p, c, role, seen, x)
  {
    StartAndRead(s, p, c, role, seen);
    var head := [StartCall(p, c, role)] + EpochRead(s.redis, p, c);
    RunSplits(s, head, [MissCache(c), ResumeCall(c), ReadRows(c), ResumeFetch(c), Return(c)]);
    ColdTail(s, p, c, role, seen, x);
  }

  lemma ColdTail(s: System, p: Proc, c: nat, role: Id, seen: set<nat>, x: Stamped)
    requires Ready(s, p, c) && role !in s.locals[p].pending && x == Fresh(s, role)
    ensures Run(AtCache(s, p, c, role, seen), [MissCache(c), ResumeCall(c), ReadRows(c), ResumeFetch(c), Return(c)])
            == Looked(s, p, c, role, seen, x)
  {
    var s5 := ColdHead(s, p, c, role, seen);
    QueryEnds(s, s5, p, c, role, seen, x);
  }

  lemma QueryEnds(s: System, s5: System, p: Proc, c: nat, role: Id, seen: set<nat>, x: Stamped)
    requires |s.dbs| > 0 && p in s.locals && role !in s.locals[p].pending && x == Fresh(s, role)
    requires s5 == s.(calls := s.calls[c := Call(p, role, seen, AwaitingFetch(c))],
                      fetches := s.fetches[c := Fetch(p, role, s.epoch, s.epoch, |s.dbs| - 1, Querying)],
                      locals := s.locals[p := Local(s.epoch, s.locals[p].pending[role := c])])
    ensures Run(s5, [ReadRows(c)] + ([ResumeFetch(c)] + ([Return(c)] + []))) == Looked(s, p, c, role, seen, x)
  {
    var s8 := QueryTail(s5, p, c, role, x);
    LookedIs(s, s5, s8, p, c, role, seen, x);
  }

  lemma ColdHead(s: System, p: Proc, c: nat, role: Id, seen: set<nat>) returns (s': System)
    requires Ready(s, p, c) && role !in s.locals[p].pending
    ensures s' == s.(calls := s.calls[c := Call(p, role, seen, AwaitingFetch(c))],
                     fetches := s.fetches[c := Fetch(p, role, s.epoch, s.epoch, |s.dbs| - 1, Querying)],
                     locals := s.locals[p := Local(s.epoch, s.locals[p].pending[role := c])])
    ensures Run(AtCache(s, p, c, role, seen), [MissCache(c), ResumeCall(c), ReadRows(c), ResumeFetch(c), Return(c)])
            == Run(s', [ReadRows(c)] + ([ResumeFetch(c)] + ([Return(c)] + [])))
  {
    var s3 := AtCache(s, p, c, role, seen);
    s' := MissTail(s3, p, c, role);
    OverwriteTwice(s.calls, c, s3.calls[c], s'.calls[c]);
    OverwriteTwice(s.locals, p, s3.locals[p], s'.locals[p]);
  }

  /** A lookup that misses the cache registers a fetch. */
  lemma MissTail(s: System, p: Proc, c: nat, role: Id) returns (s': System)
    requires p in s.locals && c in s.calls && |s.dbs| > 0 && role !in s.locals[p].pending
    requires s.locals[p].epoch == s.epoch
    requires s.calls[c].proc == p && s.calls[c].role == role && s.calls[c].phase == AwaitingCache(s.epoch, true)
    ensures s' == s.(calls := s.calls[c := s.calls[c].(phase := AwaitingFetch(c))],
                     fetches := s.fetches[c := Fetch(p, role, s.epoch, s.epoch, |s.dbs| - 1, Querying)],
                     locals := s.locals[p := s.locals[p].(pending := s.locals[p].pending[role := c])])
    ensures Run(s, [MissCache(c), ResumeCall(c), ReadRows(c), ResumeFetch(c), Return(c)])
            == Run(s', [ReadRows(c)] + ([ResumeFetch(c)] + ([Return(c)] + [])))
  {
    var tail := [ReadRows(c)] + ([ResumeFetch(c)] + ([Return(c)] + []));
    assert [MissCache(c), ResumeCall(c), ReadRows(c), ResumeFetch(c), Return(c)]
        == [MissCache(c)] + ([ResumeCall(c)] + tail);
    var s1 := MissRun(s, c, [ResumeCall(c)] + tail);
    s' := StartRun(s1, p, c, role, tail);
  }

  /** A registered fetch of the current epoch runs to its end. */
  lemma QueryTail(s: System, p: Proc, c: nat, role: Id, x: Stamped) returns (s': System)
    requires |s.dbs| > 0 && p in s.locals && s.locals[p].epoch == s.epoch && c in s.calls && c in s.fetches
    requires s.calls[c].phase == AwaitingFetch(c) && x == Fresh(s, role)
    requires s.fetches[c] == Fetch(p, role, s.epoch, s.epoch, |s.dbs| - 1, Querying)
    ensures Run(s, [ReadRows(c)] + ([ResumeFetch(c)] + ([Return(c)] + []))) == s'
    ensures s' == s.(calls := s.calls[c := s.calls[c].(phase := Returned(OwnFetch, x.asOf, x.entry.permissions))],
                     fetches := s.fetches[c := s.fetches[c].(phase := Resolved(x.asOf, x.entry.permissions))],
                     locals := s.locals[p := Unregister(s.locals[p], role)],
                     writes := s.writes + {Write(L1(p), role, x)} + if s.redis then {Write(L2, role, x)} else {})
  {
    var s1 := ReadRun(s, c, [ResumeFetch(c)] + ([Return(c)] + []));
    var s2 := WriteRun(s1, c, x, [Return(c)] + []);
    s' := ReturnRun(s2, c, []);
    OverwriteTwice(s.fetches, c, s1.fetches[c], s2.fetches[c]);
  }

  lemma LookedIs(s: System, s5: System, s8: System, p: Proc, c: nat, role: Id, seen: set<nat>, x: Stamped)
    requires p in s.locals && role !in s.locals[p].pending
    requires s5 == s.(calls := s.calls[c := Call(p, role, seen, AwaitingFetch(c))],
                      fetches := s.fetches[c := Fetch(p, role, s.epoch, s.epoch, x.asOf, Querying)],
                      locals := s.locals[p := Local(s.epoch, s.locals[p].pending[role := c])])
    requires s8 == s5.(calls := s5.calls[c := s5.calls[c].(phase := Returned(OwnFetch, x.asOf, x.entry.permissions))],
                       fetches := s5.fetches[c := s5.fetches[c].(phase := Resolved(x.asOf, x.entry.permissions))],
                       locals := s5.locals[p := Unregister(s5.locals[p], role)],
                       writes := s.writes + {Write(L1(p), role, x)} + if s.redis then {Write(L2, role, x)} else {})
    ensures s8 == Looked(s, p, c, role, seen, x)
  {
    assert s.locals[p].pending[role := c] - {role} == s.locals[p].pending;
    OverwriteTwice(s.calls, c, s5.calls[c], s8.calls[c]);
    OverwriteTwice(s.fetches, c, s5.fetches[c], s8.fetches[c]);
    OverwriteTwice(s.locals, p, s5.locals[p], s8.locals[p]);
  }

  /** `s'` is `s` after call `c` looked the role up by a query of its own that saw `rows`. */
  predicate LookedUp(s: System, s': System, p: Proc, c: nat, role: Id, rows: set<string>)
    requires |s.dbs| > 0 && p in s.locals
  {
    var n := |s.dbs| - 1;
    var x := Stamped(Entry(s.epoch, rows), n);
    && c in s'.calls && s'.calls[c].proc == p && s'.calls[c].role == role
    && s'.calls[c].phase == Returned(OwnFetch, n, rows)
    && s'.writes == s.writes + {Write(L1(p), role, x)} + (if s.redis then {Write(L2, role, x)} else {})
    && s'.locals == s.locals[p := s.locals[p].(epoch := s.epoch)]
    && s'.fetches == s.fetches[c := Fetch(p, role, s.epoch, s.epoch, n, Resolved(n, rows))]
    && s'.calls.Keys == s.calls.Keys + {c} && s'.dbs == s.dbs && s'.epoch == s.epoch && s'.tiers == s.tiers
    && s'.inbox == s.inbox && s'.mutations == s.mutations && s'.redis == s.redis
  }

  lemma LookedSpelt(s: System, p: Proc, c: nat, role: Id, seen: set<nat>, x: Stamped)
    requires |s.dbs| > 0 && p in s.locals && x.asOf == |s.dbs| - 1 && x.entry.epoch == s.epoch
    ensures LookedUp(s, Looked(s, p, c, role, seen, x), p, c, role, x.entry.permissions)
  {
  }

  /** A cold lookup. In any such state, a lookup that misses the cache with nobody to join, and runs
      without interruption, returns the role's strings in the present tables from a query of its own;
      it leaves the registry as it found it, the process's epoch up to date, and the rows under the
      current epoch on their way to its own tier and to the shared one. */
  lemma ColdLookup(s: System, p: Proc, c: nat, role: Id)
    requires Ready(s, p, c) && role !in s.locals[p].pending
    ensures LookedUp(s, Run(s, ColdActions(s.redis, p, c, role)), p, c, role, PermissionStrings(Current(s), role))
  {
    var seen, x := CompletedFor(s.mutations, role), Fresh(s, role);
    ColdRun(s, p, c, role, seen, x);
    LookedSpelt(s, p, c, role, seen, x);
  }

  function WarmActions(redis: bool, p: Proc, c: nat, role: Id, tier: Tier): seq<Action> {
    ([StartCall(p, c, role)] + EpochRead(redis, p, c)) + [AnswerFromCache(c, tier), ResumeCall(c)]
  }

  lemma CacheServes(s: System, p: Proc, c: nat, role: Id, tier: Tier, rest: seq<Action>) returns (s': System)
    requires p in s.locals && c in s.calls && |s.dbs| > 0 && tier in {L1(p), L2} && (tier, role) in s.tiers
    requires s.calls[c].proc == p && s.calls[c].role == role && s.calls[c].phase.AwaitingCache?
    ensures var x, y := s.tiers[(tier, role)], s.calls[c].phase;
            s' == s.(calls := s.calls[c := s.calls[c].(phase := CacheAnswered(y.current, y.trusted, Some(x)))],
                     writes := s.writes + {Write(L1(p), role, x)})
    ensures Run(s, [AnswerFromCache(c, tier)] + rest) == Run(s', rest)
  {
    AnswerEquation(s, c, tier);
    s' := Step(s, AnswerFromCache(c, tier));
    OneAction(s, AnswerFromCache(c, tier), s', rest);
  }

  lemma HitRun(s: System, c: nat, x: Stamped, trusted: bool, rest: seq<Action>) returns (s': System)
    requires c in s.calls && s.calls[c].proc in s.locals && |s.dbs| > 0
    requires s.calls[c].phase == CacheAnswered(x.entry.epoch, trusted, Some(x))
    ensures var phase := Returned(FromCache(trusted), x.asOf, x.entry.permissions);
            s' == s.(calls := s.calls[c := s.calls[c].(phase := phase)])
    ensures Run(s, [ResumeCall(c)] + rest) == Run(s', rest)
  {
    ResumeEquations(s, c);
    s' := Step(s, ResumeCall(c));
    OneAction(s, ResumeCall(c), s', rest);
  }

  lemma HitTail(s: System, p: Proc, c: nat, role: Id, tier: Tier, trusted: bool) returns (s': System)
    requires p in s.locals && c in s.calls && |s.dbs| > 0 && tier in {L1(p), L2} && (tier, role) in s.tiers
    requires s.calls[c].proc == p && s.calls[c].role == role
    requires s.calls[c].phase == AwaitingCache(s.tiers[(tier, role)].entry.epoch, trusted)
    ensures var x := s.tiers[(tier, role)];
            var phase := Returned(FromCache(trusted), x.asOf, x.entry.permissions);
            s' == s.(calls := s.calls[c := s.calls[c].(phase := phase)], writes := s.writes + {Write(L1(p), role, x)})
    ensures Run(s, [AnswerFromCache(c, tier), ResumeCall(c)]) == s'
  {
    assert [AnswerFromCache(c, tier), ResumeCall(c)] == [AnswerFromCache(c, tier)] + ([ResumeCall(c)] + []);
    var s1 := CacheServes(s, p, c, role, tier, [ResumeCall(c)] + []);
    s' := HitRun(s1, c, s.tiers[(tier, role)], trusted, []);
  }

  lemma WarmRun(s: System, p: Proc, c: nat, role: Id, tier: Tier, seen: set<nat>)
    requires Ready(s, p, c) && tier in {L1(p), L2} && (tier, role) in s.tiers
    requires seen == CompletedFor(s.mutations, role)
    requires s.tiers[(tier, role)].entry.epoch == s.epoch
    ensures var x := s.tiers[(tier, role)];
            var phase := Returned(FromCache(true), x.asOf, x.entry.permissions);
            var call := Call(p, role, seen, phase);
            Run(s, WarmActions(s.redis, p, c, role, tier))
            == s.(calls := s.calls[c := call], locals := s.locals[p := s.locals[p].(epoch := s.epoch)],
                  writes := s.writes + {Write(L1(p), role, x)})
  {
    StartAndRead(s, p, c, role, seen);
    var head := [StartCall(p, c, role)] + EpochRead(s.redis, p, c);
    RunSplits(s, head, [AnswerFromCache(c, tier), ResumeCall(c)]);
    var s3 := AtCache(s, p, c, role, seen);
    var s5 := HitTail(s3, p, c, role, tier, true);
    OverwriteTwice(s.calls, c, s3.calls[c], s5.calls[c]);
  }

  /** A warm lookup. If the tier that answers holds an entry of the current epoch, the lookup returns its
      strings and no query is made; what the shared tier held is also copied to the process's own. */
  lemma WarmLookup(s: System, p: Proc, c: nat, role: Id, tier: Tier)
    requires Ready(s, p, c) && tier in {L1(p), L2} && (tier, role) in s.tiers
    requires s.tiers[(tier, role)].entry.epoch == s.epoch
    ensures var s', x := Run(s, WarmActions(s.redis, p, c, role, tier)), s.tiers[(tier, role)];
            && c in s'.calls && s'.calls[c].phase == Returned(FromCache(true), x.asOf, x.entry.permissions)
            && s'.fetches == s.fetches && s'.dbs == s.dbs && s'.tiers == s.tiers
            && s'.writes == s.writes + {Write(L1(p), role, x)}
            && s'.locals == s.locals[p := s.locals[p].(epoch := s.epoch)]
  {
    WarmRun(s, p, c, role, tier, CompletedFor(s.mutations, role));
  }

  /** One query is enough: after a cold lookup whose write has landed, the next lookup of the role in the
      process returns the same strings from the cache. */
  lemma SecondLookupHits(s: System, p: Proc, c: nat, d: nat, role: Id)
    requires Ready(s, p, c) && role !in s.locals[p].pending && d !in s.calls && d !in s.fetches && c != d
    ensures var x := Stamped(Entry(s.epoch, PermissionStrings(Current(s), role)), |s.dbs| - 1);
            var landed := Step(Run(s, ColdActions(s.redis, p, c, role)), Land(Write(L1(p), role, x)));
            var s' := Run(landed, WarmActions(s.redis, p, d, role, L1(p)));
            && d in s'.calls && s'.fetches == landed.fetches
            && s'.calls[d].phase == Returned(FromCache(true), |s.dbs| - 1, PermissionStrings(Current(s), role))
  {
    var seen, x := CompletedFor(s.mutations, role), Fresh(s, role);
    ColdRun(s, p, c, role, seen, x);
    WarmAfterCold(s, Looked(s, p, c, role, seen, x), p, c, d, role, seen, x);
  }

  lemma WarmAfterCold(s: System, cold: System, p: Proc, c: nat, d: nat, role: Id, seen: set<nat>, x: Stamped)
    requires Ready(s, p, c) && d !in s.calls && d !in s.fetches && c != d && x.entry.epoch == s.epoch
    requires seen == CompletedFor(s.mutations, role) && cold == Looked(s, p, c, role, seen, x)
    ensures var landed := Step(cold, Land(Write(L1(p), role, x)));
            var s' := Run(landed, WarmActions(s.redis, p, d, role, L1(p)));
            && d in s'.calls && s'.fetches == landed.fetches
            && s'.calls[d].phase == Returned(FromCache(true), x.asOf, x.entry.permissions)
  {
    var landed := Step(cold, Land(Write(L1(p), role, x)));
    assert landed == cold.(tiers := cold.tiers[(L1(p), role) := x]);
    WarmRun(landed, p, d, role, L1(p), seen);
  }

  lemma JoinRun(s: System, c: nat, rest: seq<Action>) returns (s': System)
    requires c in s.calls && s.calls[c].phase.CacheAnswered? && s.calls[c].proc in s.locals && |s.dbs| > 0
    requires var call := s.calls[c];
             && call.role in s.locals[call.proc].pending
             && (call.phase.got.None? || call.phase.got.value.entry.epoch != call.phase.current)
    ensures var f := s.locals[s.calls[c].proc].pending[s.calls[c].role];
            s' == s.(calls := s.calls[c := s.calls[c].(phase := AwaitingFetch(f))])
    ensures s' == Step(s, ResumeCall(c)) && Run(s, [ResumeCall(c)] + rest) == Run(s', rest)
  {
    ResumeEquations(s, c);
    s' := Step(s, ResumeCall(c));
    OneAction(s, ResumeCall(c), s', rest);
  }

  /** With a fetch registered, a lookup that misses makes no query of its own but waits for that one. */
  lemma MissJoins(s: System, c: nat)
    requires c in s.calls && s.calls[c].phase.CacheAnswered? && s.calls[c].proc in s.locals && |s.dbs| > 0
    requires var call := s.calls[c];
             && call.role in s.locals[call.proc].pending
             && (call.phase.got.None? || call.phase.got.value.entry.epoch != call.phase.current)
    ensures var s' := Step(s, ResumeCall(c));
            && c in s'.calls && s'.calls[c].phase == AwaitingFetch(s.locals[s.calls[c].proc].pending[s.calls[c].role])
            && s'.fetches == s.fetches && s'.locals == s.locals && s'.writes == s.writes
  {
    var _ := JoinRun(s, c, []);
  }

  // ---------------------------------------------------------------- whole invalidations

  function InvalidationActions(redis: bool, p: Proc, m: nat): seq<Action> {
    if redis then [Bump(m), HandleReply(p), Clear(m)] else [Bump(m), Clear(m)]
  }

  /** The state it leaves. */
  function Invalidated(s: System, m: nat): System
    requires m in s.mutations && s.mutations[m].proc in s.locals
  {
    var x, n := s.mutations[m], s.epoch + 1;
    s.(epoch := n, locals := s.locals[x.proc := Forget(s.locals[x.proc].(epoch := n), x.scope)],
       mutations := s.mutations[m := x.(ticket := Some(n), phase := Completed)])
  }

  /** A committed mutation whose process has no reply to wait for but its bump's. */
  predicate CanInvalidate(s: System, m: nat) {
    && m in s.mutations && s.mutations[m].phase.Committed? && s.mutations[m].proc in s.locals
    && s.mutations[m].proc in s.inbox && s.inbox[s.mutations[m].proc] == []
    && (!s.redis ==> s.locals[s.mutations[m].proc].epoch == s.epoch)
  }

  lemma ClearRun(s: System, s2: System, m: nat)
    requires CanInvalidate(s, m)
    requires var x, n := s.mutations[m], s.epoch + 1;
             s2 == s.(epoch := n, locals := s.locals[x.proc := s.locals[x.proc].(epoch := n)],
                      mutations := s.mutations[m := x.(ticket := Some(n), phase := Bumped)])
    ensures Run(s2, [Clear(m)] + []) == Invalidated(s, m)
  {
    ClearEquation(s2, m);
    OneAction(s2, Clear(m), Invalidated(s, m), []);
  }

  lemma InvalidationRun(s: System, m: nat)
    requires CanInvalidate(s, m)
    ensures Run(s, InvalidationActions(s.redis, s.mutations[m].proc, m)) == Invalidated(s, m)
  {
    if s.redis { SharedInvalidation(s, m); } else { LocalInvalidation(s, m); }
  }

  lemma SharedInvalidation(s: System, m: nat)
    requires CanInvalidate(s, m) && s.redis
    ensures Run(s, [Bump(m), HandleReply(s.mutations[m].proc), Clear(m)]) == Invalidated(s, m)
  {
    var p := s.mutations[m].proc;
    assert [Bump(m), HandleReply(p), Clear(m)] == [Bump(m)] + ([HandleReply(p)] + ([Clear(m)] + []));
    TwoActions(s, Bump(m), [HandleReply(p)] + ([Clear(m)] + []));
    TwoActions(Step(s, Bump(m)), HandleReply(p), [Clear(m)] + []);
    var s2 := BumpHeard(s, m);
    ClearRun(s, s2, m);
  }

  lemma LocalInvalidation(s: System, m: nat)
    requires CanInvalidate(s, m) && !s.redis
    ensures Run(s, [Bump(m), Clear(m)]) == Invalidated(s, m)
  {
    assert [Bump(m), Clear(m)] == [Bump(m)] + ([Clear(m)] + []);
    TwoActions(s, Bump(m), [Clear(m)] + []);
    LocalBumpEquation(s, m);
    ClearRun(s, Step(s, Bump(m)), m);
  }

  /** An invalidation runs to its end: the epoch is one higher, the process knows it, the mutation is
      completed under it, and exactly the registrations of the roles in its scope are gone. */
  lemma InvalidationCompletes(s: System, m: nat)
    requires CanInvalidate(s, m)
    ensures var x, s' := s.mutations[m], Run(s, InvalidationActions(s.redis, s.mutations[m].proc, m));
            && s'.epoch == s.epoch + 1 && x.proc in s.locals && x.proc in s'.locals
            && s'.locals[x.proc].epoch == s.epoch + 1
            && s'.mutations == s.mutations[m := x.(ticket := Some(s.epoch + 1), phase := Completed)]
            && ExceptScope(x.scope, s.locals[x.proc].pending, s'.locals[x.proc].pending)
            && (forall q | q in s.locals && q != x.proc :: q in s'.locals && s'.locals[q] == s.locals[q])
            && s'.dbs == s.dbs && s'.tiers == s.tiers && s'.writes == s.writes && s'.fetches == s.fetches
            && s'.calls == s.calls
  {
    InvalidationRun(s, m);
  }

  /** In every reachable state every committed mutation of a process without pending replies can. */
  lemma ReachableCanInvalidate(redis: bool, tables: Tables, actions: seq<Action>, m: nat)
    requires Valid(tables)
    requires var s := Reach(redis, tables, actions);
             && m in s.mutations && s.mutations[m].phase.Committed?
             && s.mutations[m].proc in s.inbox && s.inbox[s.mutations[m].proc] == []
    ensures CanInvalidate(Reach(redis, tables, actions), m)
  {
    ReachableInv(redis, tables, actions);
    var s := Reach(redis, tables, actions);
    assert GoodMutation(|s.dbs|, s.epoch, s.locals, s.mutations[m]);
    LocalBelowEpoch(s, s.mutations[m].proc);
  }

  /** What is registered for roles outside the scope, and nothing else. */
  ghost predicate ExceptScope(scope: Invalidation, pending: map<Id, nat>, pending': map<Id, nat>) {
    && (forall r :: r in pending' <==> r in pending && !InScope(scope, r))
    && (forall r | r in pending' :: pending'[r] == pending[r])
  }

  predicate InScope(scope: Invalidation, role: Id) {
    scope.AllRoles? || (scope.Roles? && role in scope.ids)
  }

  lemma BumpHeard(s: System, m: nat) returns (s': System)
    requires m in s.mutations && s.mutations[m].phase.Committed? && s.mutations[m].proc in s.locals && s.redis
    requires s.mutations[m].proc in s.inbox && s.inbox[s.mutations[m].proc] == []
    ensures var p := s.mutations[m].proc;
            && s' == Step(Step(s, Bump(m)), HandleReply(p))
            && s' == s.(epoch := s.epoch + 1, locals := s.locals[p := s.locals[p].(epoch := s.epoch + 1)],
                        mutations := s.mutations[m := s.mutations[m].(ticket := Some(s.epoch + 1), phase := Bumped)])
  {
    var p := s.mutations[m].proc;
    IncrEquation(s, m);
    var s1 := Step(s, Bump(m));
    assert s1.inbox[p] == [] + [BumpReply(m, s.epoch + 1)] == [BumpReply(m, s.epoch + 1)];
    s' := Step(s1, HandleReply(p));
    assert s1.inbox[p][1..] == [];
    assert s1.inbox[p := []] == s.inbox;
  }
}
