/** How many database fetches of one role one process can have in flight. */
module RbacFlight {
  import opened Wrappers
  import opened CacheTiers
  import opened RbacTables
  import opened RbacCacheService
  import opened RbacProtocol
  import opened RbacInvariants
  import opened RbacSteps
  import opened RbacTheorems
  import opened Sets

  function InFlight(fetches: map<nat, Fetch>, p: Proc, role: Id): set<nat> {
    set f | f in fetches && fetches[f].proc == p && fetches[f].role == role && fetches[f].InFlight()
  }

  function Registered(locals: map<Proc, Local>, p: Proc, role: Id): set<nat> {
    if p in locals && role in locals[p].pending then {locals[p].pending[role]} else {}
  }

  /** Fetches still running that no later call can join. */
  function Orphans(s: System, p: Proc, role: Id): set<nat> {
    InFlight(s.fetches, p, role) - Registered(s.locals, p, role)
  }

  /** The completed invalidations of the role in the process. */
  function Invalidations(s: System, p: Proc, role: Id): set<nat> {
    set m | m in CompletedFor(s.mutations, role) && s.mutations[m].proc == p
  }

  ghost predicate OrphansBounded(s: System) {
    forall p, role :: |Orphans(s, p, role)| <= |Invalidations(s, p, role)|
  }

  /** A step that orphans nothing and forgets no invalidation. */
  lemma NoNewOrphans(s: System, s': System)
    requires OrphansBounded(s)
    requires forall p, role :: Orphans(s', p, role) <= Orphans(s, p, role)
    requires forall p, role :: Invalidations(s, p, role) <= Invalidations(s', p, role)
    ensures OrphansBounded(s')
  {
    forall p, role ensures |Orphans(s', p, role)| <= |Invalidations(s', p, role)| {
      SubsetSize(Orphans(s', p, role), Orphans(s, p, role));
      SubsetSize(Invalidations(s, p, role), Invalidations(s', p, role));
    }
  }

  lemma InvalidationsGrow(s: System, s': System, p: Proc, role: Id)
    requires CoreGrows(CoreOf(s), CoreOf(s'))
    ensures Invalidations(s, p, role) <= Invalidations(s', p, role)
  {
    forall m | m in Invalidations(s, p, role) ensures m in Invalidations(s', p, role) {
      assert Advances(s.epoch, s.mutations[m], s'.mutations[m]);
    }
  }

  lemma FinishedInFlight(fetches: map<nat, Fetch>, fetches': map<nat, Fetch>, f: nat, p: Proc, role: Id)
    requires f in fetches' && !fetches'[f].InFlight() && fetches' == fetches[f := fetches'[f]]
    ensures InFlight(fetches', p, role) == InFlight(fetches, p, role) - {f}
  {
  }

  lemma RegisteredAfter(locals: map<Proc, Local>, x: Fetch, p: Proc, role: Id)
    requires x.proc in locals
    ensures Registered(locals[x.proc := Unregister(locals[x.proc], x.role)], p, role)
            == if p == x.proc && role == x.role then {} else Registered(locals, p, role)
  {
  }

  lemma RegisteredIsInFlight(mutations: map<nat, Mutation>, fetches: map<nat, Fetch>, locals: map<Proc, Local>, p: Proc,
                             role: Id)
    requires PendingInv(mutations, fetches, locals)
    ensures Registered(locals, p, role) <= InFlight(fetches, p, role) && |Registered(locals, p, role)| <= 1
  {
    if p in locals && role in locals[p].pending {
      assert GoodRegistration(mutations, fetches, p, role, locals[p].pending[role]);
    }
  }

  /** Taking out a member that ends leaves no more than taking out the registered one. */
  lemma OneOut(running: set<nat>, f: nat, registered: set<nat>)
    requires f in running && registered <= running && |registered| <= 1
    ensures |running - {f}| <= |running - registered|
  {
    assert |running| == |running - {f}| + 1;
    assert running == (running - registered) + registered;
  }

  /** A finishing fetch unregisters its role. If a newer fetch was registered, that one becomes an
      orphan in the place of the one that ends, which was an orphan itself. */
  lemma FinishKeepsBound(s: System, s': System, f: nat)
    requires OrphansBounded(s) && PendingInv(s.mutations, s.fetches, s.locals)
    requires f in s.fetches && s.fetches[f].InFlight() && s.fetches[f].proc in s.locals
    requires f in s'.fetches && !s'.fetches[f].InFlight() && s'.fetches == s.fetches[f := s'.fetches[f]]
    requires var x := s.fetches[f]; s'.locals == s.locals[x.proc := Unregister(s.locals[x.proc], x.role)]
    requires s'.mutations == s.mutations
    ensures OrphansBounded(s')
  {
    forall p, role ensures |Orphans(s', p, role)| <= |Invalidations(s', p, role)| {
      assert |Orphans(s, p, role)| <= |Invalidations(s, p, role)|;
      FinishedInFlight(s.fetches, s'.fetches, f, p, role);
      RegisteredAfter(s.locals, s.fetches[f], p, role);
      RegisteredIsInFlight(s.mutations, s.fetches, s.locals, p, role);
      FinishedOrphans(s, s', f, p, role);
    }
  }

  lemma FinishedOrphans(s: System, s': System, f: nat, p: Proc, role: Id)
    requires f in s.fetches && s.fetches[f].InFlight()
    requires Registered(s.locals, p, role) <= InFlight(s.fetches, p, role) && |Registered(s.locals, p, role)| <= 1
    requires InFlight(s'.fetches, p, role) == InFlight(s.fetches, p, role) - {f}
    requires var x := s.fetches[f];
             Registered(s'.locals, p, role)
             == if p == x.proc && role == x.role then {} else Registered(s.locals, p, role)
    ensures |Orphans(s', p, role)| <= |Orphans(s, p, role)|
  {
    var running, registered := InFlight(s.fetches, p, role), Registered(s.locals, p, role);
    if f in running {
      assert Orphans(s', p, role) == running - {f};
      OneOut(running, f, registered);
    } else {
      assert running - {f} == running;
    }
  }

  /** Clearing a role orphans at most its registered fetch, and is one more invalidation. */
  lemma ClearKeepsBound(s: System, m: nat)
    requires OrphansBounded(s)
    ensures OrphansBounded(DoClear(s, m))
  {
    if m in s.mutations && s.mutations[m].phase.Bumped? && s.mutations[m].proc in s.locals {
      var s' := DoClear(s, m);
      var x := s.mutations[m];
      forall p, role ensures |Orphans(s', p, role)| <= |Invalidations(s', p, role)| {
        assert |Orphans(s, p, role)| <= |Invalidations(s, p, role)|;
        if p == x.proc && Covers(x.scope, role) {
          ClearedOrphans(s, m, role);
        } else {
          UnclearedOrphans(s, m, p, role);
        }
      }
    }
  }

  lemma UnclearedOrphans(s: System, m: nat, p: Proc, role: Id)
    requires m in s.mutations && s.mutations[m].phase.Bumped? && s.mutations[m].proc in s.locals
    requires p != s.mutations[m].proc || !Covers(s.mutations[m].scope, role)
    ensures Orphans(DoClear(s, m), p, role) == Orphans(s, p, role)
    ensures Invalidations(DoClear(s, m), p, role) == Invalidations(s, p, role)
  {
    assert Registered(DoClear(s, m).locals, p, role) == Registered(s.locals, p, role);
  }

  lemma ClearedOrphans(s: System, m: nat, role: Id)
    requires m in s.mutations && s.mutations[m].phase.Bumped? && s.mutations[m].proc in s.locals
             && Covers(s.mutations[m].scope, role)
    ensures var p := s.mutations[m].proc;
            && |Invalidations(DoClear(s, m), p, role)| == |Invalidations(s, p, role)| + 1
            && |Orphans(DoClear(s, m), p, role)| <= |Orphans(s, p, role)| + 1
  {
    var s', p := DoClear(s, m), s.mutations[m].proc;
    OneMoreCompleted(s.mutations, m, s'.mutations, role);
    OneMoreInvalidation(s, s', m, role);
    assert Orphans(s', p, role) == InFlight(s.fetches, p, role) - Registered(s'.locals, p, role);
    SubsetSize(Orphans(s', p, role), Orphans(s, p, role) + Registered(s.locals, p, role));
  }

  lemma OneMoreCompleted(mutations: map<nat, Mutation>, m: nat, mutations': map<nat, Mutation>, role: Id)
    requires m in mutations && mutations[m].phase.Bumped? && Covers(mutations[m].scope, role)
    requires mutations' == mutations[m := mutations[m].(phase := Completed)]
    ensures m !in CompletedFor(mutations, role) && CompletedFor(mutations', role) == CompletedFor(mutations, role) + {m}
  {
  }

  lemma OneMoreInvalidation(s: System, s': System, m: nat, role: Id)
    requires m in s.mutations && s'.mutations == s.mutations[m := s.mutations[m].(phase := Completed)]
    requires m !in CompletedFor(s.mutations, role)
             && CompletedFor(s'.mutations, role) == CompletedFor(s.mutations, role) + {m}
    ensures |Invalidations(s', s.mutations[m].proc, role)| == |Invalidations(s, s.mutations[m].proc, role)| + 1
  {
    assert Invalidations(s', s.mutations[m].proc, role) == Invalidations(s, s.mutations[m].proc, role) + {m};
  }

  /** Resuming a call orphans nothing: a fetch it starts is registered at once. */
  lemma StartKeepsBound(s: System, c: nat)
    requires OrphansBounded(s) && OwnerInv(s.fetches, s.calls)
    ensures OrphansBounded(DoResumeCall(s, c))
  {
    var s' := DoResumeCall(s, c);
    if c in s.calls && s.calls[c].phase.CacheAnswered? && s.calls[c].proc in s.locals && |s.dbs| > 0 {
      assert c !in s.fetches;
      ResumeEquations(s, c);
      assert s'.mutations == s.mutations;
      forall p, role ensures Orphans(s', p, role) <= Orphans(s, p, role) {
        ResumeOrphans(s, c, p, role);
      }
      NoNewOrphans(s, s');
    }
  }

  lemma ResumeOrphans(s: System, c: nat, p: Proc, role: Id)
    requires c !in s.fetches && c in s.calls && s.calls[c].phase.CacheAnswered? && s.calls[c].proc in s.locals
             && |s.dbs| > 0
    ensures Orphans(DoResumeCall(s, c), p, role) <= Orphans(s, p, role)
  {
    ResumeEquations(s, c);
  }

  predicate SameFlights(s: System, s': System) {
    && s'.fetches.Keys == s.fetches.Keys
    && (forall f | f in s.fetches ::
          SameFetch(s.fetches[f], s'.fetches[f]) && (s'.fetches[f].InFlight() <==> s.fetches[f].InFlight()))
    && (forall p | p in s.locals :: p in s'.locals && s'.locals[p].pending == s.locals[p].pending)
    && (forall p | p in s'.locals && p !in s.locals :: s'.locals[p].pending == map[])
  }

  lemma SameFlightsKeepBound(s: System, s': System)
    requires OrphansBounded(s) && SameFlights(s, s') && CoreGrows(CoreOf(s), CoreOf(s'))
    ensures OrphansBounded(s')
  {
    forall p, role
      ensures Orphans(s', p, role) <= Orphans(s, p, role) && Invalidations(s, p, role) <= Invalidations(s', p, role)
    {
      SameOrphans(s, s', p, role);
      InvalidationsGrow(s, s', p, role);
    }
    NoNewOrphans(s, s');
  }

  lemma SameOrphans(s: System, s': System, p: Proc, role: Id)
    requires SameFlights(s, s')
    ensures Orphans(s', p, role) == Orphans(s, p, role)
  {
    assert InFlight(s'.fetches, p, role) == InFlight(s.fetches, p, role);
    assert Registered(s'.locals, p, role) == Registered(s.locals, p, role);
  }

  predicate MovesFlights(a: Action) {
    a.ResumeCall? || a.FailRows? || a.ResumeFetch? || a.Clear?
  }

  lemma UntouchedFlights(s: System, s': System)
    requires s'.fetches == s.fetches && s'.locals == s.locals
    ensures SameFlights(s, s')
  {
  }

  lemma MovedEpochKeepsFlights(s: System, s': System, p: Proc, e: nat)
    requires p in s.locals && s'.fetches == s.fetches && s'.locals == s.locals[p := s.locals[p].(epoch := e)]
    ensures SameFlights(s, s')
  {
  }

  lemma HandleReplyKeepsFlights(s: System, p: Proc)
    ensures SameFlights(s, DoHandleReply(s, p))
  {
    if p in s.locals && p in s.inbox && s.inbox[p] != [] {
      match s.inbox[p][0]
      case EpochReply(c, stored, failed) =>
        if c in s.calls && s.calls[c].phase.EpochAnswered? {
          HandleEpochEquation(s, p, c);
          if stored.Some? {
            MovedEpochKeepsFlights(s, DoHandleReply(s, p), p, stored.value);
          } else {
            UntouchedFlights(s, DoHandleReply(s, p));
          }
        } else {
          UntouchedFlights(s, DoHandleReply(s, p));
        }
      case BumpReply(m, next) =>
        if m in s.mutations && s.mutations[m].phase.Bumping? {
          MovedEpochKeepsFlights(s, DoHandleReply(s, p), p, next);
        } else {
          UntouchedFlights(s, DoHandleReply(s, p));
        }
    } else {
      UntouchedFlights(s, DoHandleReply(s, p));
    }
  }

  lemma ReadRowsKeepsFlights(s: System, f: nat)
    ensures SameFlights(s, DoReadRows(s, f))
  {
    if f in s.fetches && s.fetches[f].phase.Querying? && |s.dbs| > 0 {
      var x' := DoReadRows(s, f).fetches[f];
      assert DoReadRows(s, f) == s.(fetches := s.fetches[f := x']);
      MovedFetchKeepsFlights(s, DoReadRows(s, f), f, x');
    } else {
      UntouchedFlights(s, s);
    }
  }

  lemma MovedFetchKeepsFlights(s: System, s': System, f: nat, x: Fetch)
    requires f in s.fetches && SameFetch(s.fetches[f], x) && (x.InFlight() <==> s.fetches[f].InFlight())
    requires s'.fetches == s.fetches[f := x] && s'.locals == s.locals
    ensures SameFlights(s, s')
  {
  }

  lemma BumpKeepsFlights(s: System, m: nat)
    ensures SameFlights(s, DoBump(s, m))
  {
  }

  lemma RefusedMutation(s: System, p: Proc, m: nat, op: AdminOp)
    requires |s.dbs| > 0 && Apply(Current(s), op).Err?
    ensures DoMutate(s, p, m, op) == s
  {
  }

  lemma MutateKeepsFlights(s: System, p: Proc, m: nat, op: AdminOp)
    ensures SameFlights(s, DoMutate(s, p, m, op))
  {
    if p in s.locals && m !in s.mutations && |s.dbs| > 0 && Apply(Current(s), op).Ok? {
      var change := Apply(Current(s), op).value;
      var x := Mutation(p, change.invalidation, |s.dbs|, None, Committed);
      MutateEquation(s, p, m, op, change, if change.invalidation.NoBump? then s.mutations else s.mutations[m := x]);
    } else if |s.dbs| > 0 && Apply(Current(s), op).Err? {
      RefusedMutation(s, p, m, op);
    }
    UntouchedFlights(s, DoMutate(s, p, m, op));
  }

  lemma BootKeepsFlights(s: System, p: Proc)
    ensures SameFlights(s, DoBoot(s, p))
  {
  }

  predicate LeavesFetchesAlone(a: Action) {
    || a.StartCall? || a.ServeEpochRead? || a.FailEpochRead? || a.AnswerFromCache? || a.MissCache?
    || a.Land? || a.Evict?
  }

  lemma ReturnTouchesNoFetch(s: System, c: nat)
    ensures DoReturn(s, c) == s.(calls := DoReturn(s, c).calls)
  {
  }

  lemma CallsTouchNoFetch(s: System, a: Action)
    requires LeavesFetchesAlone(a)
    ensures Step(s, a).fetches == s.fetches && Step(s, a).locals == s.locals
  {
  }

  lemma QuietStepKeepsFlights(s: System, a: Action)
    requires !MovesFlights(a)
    ensures SameFlights(s, Step(s, a))
  {
    if LeavesFetchesAlone(a) {
      CallsTouchNoFetch(s, a);
      UntouchedFlights(s, Step(s, a));
    } else {
      OtherQuietStepKeepsFlights(s, a);
    }
  }

  lemma OtherQuietStepKeepsFlights(s: System, a: Action)
    requires !MovesFlights(a) && !LeavesFetchesAlone(a)
    ensures SameFlights(s, Step(s, a))
  {
    match a
    case Boot(p) => BootKeepsFlights(s, p);
    case HandleReply(p) => HandleReplyKeepsFlights(s, p);
    case ReadRows(f) => ReadRowsKeepsFlights(s, f);
    case Mutate(p, m, op) => MutateKeepsFlights(s, p, m, op);
    case Bump(m) => BumpKeepsFlights(s, m);
    case Return(c) =>
      ReturnTouchesNoFetch(s, c);
      UntouchedFlights(s, DoReturn(s, c));
  }

  lemma QuietStepKeepsBound(s: System, a: Action)
    requires Inv(s) && OrphansBounded(s) && !MovesFlights(a)
    ensures OrphansBounded(Step(s, a))
  {
    QuietStepKeepsFlights(s, a);
    StepKeepsInv(s, a);
    SameFlightsKeepBound(s, Step(s, a));
  }

  lemma RejectKeepsBound(s: System, f: nat)
    requires OrphansBounded(s) && PendingInv(s.mutations, s.fetches, s.locals)
    ensures OrphansBounded(DoFailRows(s, f))
  {
    if f in s.fetches && s.fetches[f].phase.Querying? && s.fetches[f].proc in s.locals {
      FinishKeepsBound(s, DoFailRows(s, f), f);
    }
  }

  lemma ResolveKeepsBound(s: System, f: nat)
    requires OrphansBounded(s) && PendingInv(s.mutations, s.fetches, s.locals)
    ensures OrphansBounded(DoResumeFetch(s, f))
  {
    if f in s.fetches && s.fetches[f].phase.Answered? && s.fetches[f].proc in s.locals {
      FinishKeepsBound(s, DoResumeFetch(s, f), f);
    }
  }

  lemma FetchEndKeepsBound(s: System, a: Action)
    requires OrphansBounded(s) && PendingInv(s.mutations, s.fetches, s.locals) && (a.FailRows? || a.ResumeFetch?)
    ensures OrphansBounded(Step(s, a))
  {
    if a.FailRows? {
      RejectKeepsBound(s, a.fetch);
      assert Step(s, a) == DoFailRows(s, a.fetch);
    } else {
      ResolveKeepsBound(s, a.fetch);
      assert Step(s, a) == DoResumeFetch(s, a.fetch);
    }
  }

  lemma FlightStepKeepsBound(s: System, a: Action)
    requires Inv(s) && OrphansBounded(s) && MovesFlights(a)
    ensures OrphansBounded(Step(s, a))
  {
    if a.ResumeCall? {
      StartKeepsBound(s, a.call);
      assert Step(s, a) == DoResumeCall(s, a.call);
    } else if a.Clear? {
      ClearKeepsBound(s, a.mutation);
      assert Step(s, a) == DoClear(s, a.mutation);
    } else {
      FetchEndKeepsBound(s, a);
    }
  }

  lemma StepKeepsBound(s: System, a: Action)
    requires Inv(s) && OrphansBounded(s)
    ensures OrphansBounded(Step(s, a))
  {
    if MovesFlights(a) { FlightStepKeepsBound(s, a); } else { QuietStepKeepsBound(s, a); }
  }

  lemma {:induction false} RunKeepsBound(s: System, actions: seq<Action>)
    requires Inv(s) && OrphansBounded(s)
    ensures OrphansBounded(Run(s, actions))
    decreases |actions|
  {
    if actions != [] {
      StepKeepsInv(s, actions[0]);
      StepKeepsBound(s, actions[0]);
      RunKeepsBound(Step(s, actions[0]), actions[1..]);
    }
  }

  /** In-flight bound: per process and role, simultaneous fetches never exceed one plus the
      invalidations of the role completed there so far; with none, the fetch is single-flight.
      And whatever is registered to be joined is one of them. */
  lemma FetchesInFlightAreBounded(redis: bool, tables: Tables, actions: seq<Action>, p: Proc, role: Id)
    requires Valid(tables)
    ensures var s := Reach(redis, tables, actions);
            && |InFlight(s.fetches, p, role)| <= 1 + |Invalidations(s, p, role)|
            && Registered(s.locals, p, role) <= InFlight(s.fetches, p, role)
  {
    var s := Reach(redis, tables, actions);
    ReachableInv(redis, tables, actions);
    InitBounded(redis, tables);
    assert Inv(Init(redis, tables));
    RunKeepsBound(Init(redis, tables), actions);
    RegisteredIsInFlight(s.mutations, s.fetches, s.locals, p, role);
    assert |Orphans(s, p, role)| <= |Invalidations(s, p, role)|;
    SubsetSize(InFlight(s.fetches, p, role), Orphans(s, p, role) + Registered(s.locals, p, role));
  }

  lemma InitBounded(redis: bool, tables: Tables)
    ensures OrphansBounded(Init(redis, tables))
  {
    forall p, role ensures Orphans(Init(redis, tables), p, role) == {} {
    }
  }
}
