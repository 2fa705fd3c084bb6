/** Each action of the epoch protocol keeps the invariant and only grows history. */
module RbacSteps {
  import opened Wrappers
  import opened CacheTiers
  import opened RbacTables
  import opened RbacCacheService
  import opened RbacProtocol
  import opened RbacInvariants

  lemma GrowsReflexive(s: System)
    ensures Grows(s, s)
  {
    CoreGrowsReflexive(CoreOf(s));
  }

  // ---------------------------------------------------------------- processes and calls

  lemma BootStep(s: System, p: Proc)
    requires Inv(s)
    ensures var s' := Step(s, Boot(p)); Inv(s') && Grows(s, s')
  {
    var s' := DoBoot(s, p);
    GrowsReflexive(s);
    if s' != s {
      var k, k' := CoreOf(s), CoreOf(s');
      assert CoreGrows(k, k');
      BootLocals(s, p);
      CallsStable(k, k', s.fetches, s.fetches, s.calls);
      FetchesStable(k, k', s.fetches);
      CacheStable(k, k', s.tiers, s.writes);
      InboxStable(k, k', s.calls, s.calls, s.inbox);
      assert GoodQueue(k', s.calls, p, []);
    }
  }

  lemma BootLocals(s: System, p: Proc)
    requires Inv(s) && p !in s.locals && (s.redis || s.locals == map[])
    ensures LocalInv(s.redis, s.epoch, s.locals[p := Local(0, map[])], s.inbox[p := []])
    ensures MutationInv(CoreOf(s).(locals := s.locals[p := Local(0, map[])]))
    ensures PendingInv(s.mutations, s.fetches, s.locals[p := Local(0, map[])])
  {
    var locals' := s.locals[p := Local(0, map[])];
    forall m | m in s.mutations ensures GoodMutation(|s.dbs|, s.epoch, locals', s.mutations[m]) {
      assert GoodMutation(|s.dbs|, s.epoch, s.locals, s.mutations[m]);
    }
    PendingReplaced(s.mutations, s.fetches, s.locals, locals', p);
  }

  /** An invalidation that completed returned at most the current epoch, and at most the epoch of
      its own process. */
  lemma CompletedIsBumped(s: System, role: Id)
    requires Inv(s)
    ensures forall m | m in CompletedFor(s.mutations, role) ::
              && 0 < s.epoch && BumpedBy(s.mutations[m], s.epoch)
              && s.mutations[m].proc in s.locals && BumpedBy(s.mutations[m], s.locals[s.mutations[m].proc].epoch)
              && (!s.redis ==> forall p | p in s.locals :: s.locals[p].epoch == s.epoch)
  {
    forall m | m in CompletedFor(s.mutations, role)
      ensures 0 < s.epoch && BumpedBy(s.mutations[m], s.epoch)
      ensures s.mutations[m].proc in s.locals && BumpedBy(s.mutations[m], s.locals[s.mutations[m].proc].epoch)
    {
      assert GoodMutation(|s.dbs|, s.epoch, s.locals, s.mutations[m]);
    }
  }

  lemma StartCallStep(s: System, p: Proc, c: nat, role: Id)
    requires Inv(s)
    ensures var s' := Step(s, StartCall(p, c, role)); Inv(s') && Grows(s, s')
  {
    GrowsReflexive(s);
    if p in s.locals && c !in s.calls && c !in s.fetches {
      CompletedIsBumped(s, role);
      var _ := SetCall(s, c, DoStartCall(s, p, c, role).calls[c]);
    }
  }

  lemma ServeEpochReadStep(s: System, c: nat)
    requires Inv(s)
    ensures var s' := Step(s, ServeEpochRead(c)); Inv(s') && Grows(s, s')
  {
    GrowsReflexive(s);
    if c in s.calls && s.calls[c].phase.AwaitingEpoch? {
      assert GoodCall(CoreOf(s), s.fetches, c, s.calls[c]);
      LocalBelowEpoch(s, s.calls[c].proc);
      var _ := AnswerEpoch(s, c, if s.epoch == 0 then None else Some(s.epoch), false);
    }
  }

  lemma FailEpochReadStep(s: System, c: nat)
    requires Inv(s)
    ensures var s' := Step(s, FailEpochRead(c)); Inv(s') && Grows(s, s')
  {
    GrowsReflexive(s);
    if c in s.calls && s.calls[c].phase.AwaitingEpoch? {
      assert GoodCall(CoreOf(s), s.fetches, c, s.calls[c]);
      LocalBelowEpoch(s, s.calls[c].proc);
      var _ := AnswerEpoch(s, c, None, true);
    }
  }

  lemma AnswerEpoch(s: System, c: nat, stored: Option<nat>, failed: bool) returns (s': System)
    requires Inv(s) && c in s.calls && s.calls[c].phase.AwaitingEpoch? && s.calls[c].proc in s.locals
    requires GoodCall(CoreOf(s), s.fetches, c, s.calls[c])
    requires stored == if failed || s.epoch == 0 then None else Some(s.epoch)
    ensures var p := s.calls[c].proc;
            s' == s.(calls := s.calls[c := s.calls[c].(phase := EpochAnswered)],
                     inbox := s.inbox[p := s.inbox[p] + [EpochReply(c, stored, failed)]])
    ensures Inv(s') && Grows(s, s')
  {
    var call := s.calls[c];
    CompletedIsBumped(s, call.role);
    assert call.seen <= CompletedFor(s.mutations, call.role);
    LocalBelowEpoch(s, call.proc);
    var mid := SetCall(s, c, call.(phase := EpochAnswered));
    s' := Push(mid, call.proc, EpochReply(c, stored, failed));
    GrowsTransitive(s, mid, s');
  }

  lemma LocalBelowEpoch(s: System, p: Proc)
    requires Inv(s) && p in s.locals
    ensures s.locals[p].epoch <= s.epoch && p in s.inbox
  {
  }

  lemma HandleReplyStep(s: System, p: Proc)
    requires Inv(s)
    ensures var s' := Step(s, HandleReply(p)); Inv(s') && Grows(s, s')
  {
    GrowsReflexive(s);
    if p in s.locals && p in s.inbox && s.inbox[p] != [] {
      OldestReply(CoreOf(s), s.calls, s.inbox, p);
      match s.inbox[p][0] {
        case EpochReply(c, stored, failed) =>
          if s.calls[c].phase.EpochAnswered? { HandleEpochReply(s, p, c); } else { var _ := Pop(s, p); }
        case BumpReply(m, next) =>
          if s.mutations[m].phase.Bumping? { HandleBumpReply(s, p, m, next); } else { var _ := Pop(s, p); }
      }
    }
  }

  ghost predicate HasReply(s: System, p: Proc) {
    Inv(s) && p in s.locals && p in s.inbox && s.inbox[p] != [] && GoodReply(CoreOf(s), s.calls, p, s.inbox[p][0])
  }

  lemma HandleEpochReply(s: System, p: Proc, c: nat)
    requires HasReply(s, p) && s.inbox[p][0].EpochReply? && s.inbox[p][0].call == c && s.calls[c].phase.EpochAnswered?
    ensures Inv(DoHandleReply(s, p)) && Grows(s, DoHandleReply(s, p))
  {
    var EpochReply(_, stored, failed) := s.inbox[p][0];
    ReadEpochReflects(s, p, s.inbox[p][0]);
    LocalBelowEpoch(s, p);
    var current := stored.GetOr(s.locals[p].epoch);
    HandleEpochEquation(s, p, c);
    if stored.Some? {
      var _ := AdoptAndAwaitCache(s, p, c, current, !failed);
    } else {
      var _ := PopAndAwaitCache(s, p, c, current, !failed);
    }
  }

  lemma HandleEpochEquation(s: System, p: Proc, c: nat)
    requires p in s.locals && p in s.inbox && s.inbox[p] != [] && s.inbox[p][0].EpochReply? && s.inbox[p][0].call == c
    requires c in s.calls && s.calls[c].phase.EpochAnswered?
    ensures var EpochReply(_, stored, failed) := s.inbox[p][0];
            var next := AwaitingCache(stored.GetOr(s.locals[p].epoch), !failed);
            var popped := s.(inbox := s.inbox[p := s.inbox[p][1..]], calls := s.calls[c := s.calls[c].(phase := next)]);
            DoHandleReply(s, p)
            == if stored.Some? then popped.(locals := s.locals[p := s.locals[p].(epoch := stored.value)]) else popped
  {
    assert s.locals[p := s.locals[p]] == s.locals;
  }

  lemma AdoptAndAwaitCache(s: System, p: Proc, c: nat, current: nat, trusted: bool) returns (s': System)
    requires Inv(s) && p in s.locals && s.inbox[p] != [] && ReplyEpoch(s.inbox[p][0]) == Some(current)
    requires c in s.calls && s.calls[c].phase.EpochAnswered?
    requires current <= s.epoch && EpochReflects(s.mutations, s.calls[c], current, trusted)
    ensures s' == s.(locals := s.locals[p := s.locals[p].(epoch := current)], inbox := s.inbox[p := s.inbox[p][1..]],
                     calls := s.calls[c := s.calls[c].(phase := AwaitingCache(current, trusted))])
    ensures Inv(s') && Grows(s, s')
  {
    var mid := SetLocalEpoch(s, p, current);
    s' := PopAndAwaitCache(mid, p, c, current, trusted);
    GrowsTransitive(s, mid, s');
  }

  lemma PopAndAwaitCache(s: System, p: Proc, c: nat, current: nat, trusted: bool) returns (s': System)
    requires Inv(s) && p in s.locals && s.inbox[p] != [] && c in s.calls && s.calls[c].phase.EpochAnswered?
    requires current <= s.epoch && EpochReflects(s.mutations, s.calls[c], current, trusted)
    ensures s' == s.(inbox := s.inbox[p := s.inbox[p][1..]],
                     calls := s.calls[c := s.calls[c].(phase := AwaitingCache(current, trusted))])
    ensures Inv(s') && Grows(s, s')
  {
    assert GoodCall(CoreOf(s), s.fetches, c, s.calls[c]);
    assert c !in s.fetches by { assert OwnerInv(s.fetches, s.calls); }
    var mid := SetCall(s, c, s.calls[c].(phase := AwaitingCache(current, trusted)));
    s' := Pop(mid, p);
    GrowsTransitive(s, mid, s');
  }

  lemma HandleBumpReply(s: System, p: Proc, m: nat, next: nat)
    requires HasReply(s, p) && s.inbox[p][0] == BumpReply(m, next) && s.mutations[m].phase.Bumping?
    ensures Inv(DoHandleReply(s, p)) && Grows(s, DoHandleReply(s, p))
  {
    var a := SetLocalEpoch(s, p, next);
    var b := PopAndMarkBumped(a, p, m);
    GrowsTransitive(s, a, b);
    assert b == DoHandleReply(s, p);
  }

  lemma PopAndMarkBumped(s: System, p: Proc, m: nat) returns (s': System)
    requires Inv(s) && p in s.locals && s.inbox[p] != [] && m in s.mutations && s.mutations[m].phase.Bumping?
    requires s.mutations[m].proc == p && BumpedBy(s.mutations[m], s.locals[p].epoch)
    ensures s' == s.(inbox := s.inbox[p := s.inbox[p][1..]],
                     mutations := s.mutations[m := s.mutations[m].(phase := Bumped)])
    ensures Inv(s') && Grows(s, s')
  {
    assert GoodMutation(|s.dbs|, s.epoch, s.locals, s.mutations[m]);
    var mid := SetMutation(s, m, s.mutations[m].(phase := Bumped));
    s' := Pop(mid, p);
    GrowsTransitive(s, mid, s');
  }

  lemma ReadEpochReflects(s: System, p: Proc, r: Reply)
    requires Inv(s) && p in s.locals && r.EpochReply? && GoodReply(CoreOf(s), s.calls, p, r)
    ensures EpochReflects(s.mutations, s.calls[r.call], r.stored.GetOr(s.locals[p].epoch), !r.failed)
  {
    var call := s.calls[r.call];
    assert GoodCall(CoreOf(s), s.fetches, r.call, call);
    CompletedIsBumped(s, call.role);
    forall m | m in call.seen && s.mutations[m].proc == p ensures BumpedBy(s.mutations[m], s.locals[p].epoch) {
      assert m in CompletedFor(s.mutations, call.role);
    }
  }

  // ---------------------------------------------------------------- the cache

  lemma AnswerFromCacheStep(s: System, c: nat, tier: Tier)
    requires Inv(s)
    ensures var s' := Step(s, AnswerFromCache(c, tier)); Inv(s') && Grows(s, s')
  {
    GrowsReflexive(s);
    if c in s.calls && s.calls[c].phase.AwaitingCache? && tier in {L1(s.calls[c].proc), L2}
      && (tier, s.calls[c].role) in s.tiers {
      var found := s.tiers[(tier, s.calls[c].role)];
      assert GoodValue(CoreOf(s), s.calls[c].role, found);
      AnswerEquation(s, c, tier);
      var _ := AnswerAndPromote(s, c, found);
    }
  }

  lemma AnswerEquation(s: System, c: nat, tier: Tier)
    requires c in s.calls && s.calls[c].phase.AwaitingCache?
    requires tier in {L1(s.calls[c].proc), L2} && (tier, s.calls[c].role) in s.tiers
    ensures var call, found := s.calls[c], s.tiers[(tier, s.calls[c].role)];
            Step(s, AnswerFromCache(c, tier))
            == s.(calls := s.calls[c := call.(phase := CacheAnswered(call.phase.current, call.phase.trusted,
                                                                     Some(found)))],
                  writes := s.writes + {Write(L1(call.proc), call.role, found)})
  {
  }

  lemma AnswerAndPromote(s: System, c: nat, found: Stamped) returns (s': System)
    requires Inv(s) && c in s.calls && s.calls[c].phase.AwaitingCache? && GoodValue(CoreOf(s), s.calls[c].role, found)
    ensures var call := s.calls[c];
            s' == s.(calls := s.calls[c := call.(phase := CacheAnswered(call.phase.current, call.phase.trusted,
                                                                        Some(found)))],
                     writes := s.writes + {Write(L1(call.proc), call.role, found)})
    ensures Inv(s') && Grows(s, s')
  {
    var call := s.calls[c];
    assert GoodCall(CoreOf(s), s.fetches, c, call);
    assert c !in s.fetches by { assert OwnerInv(s.fetches, s.calls); }
    var mid := SetCall(s, c, call.(phase := CacheAnswered(call.phase.current, call.phase.trusted, Some(found))));
    s' := AddWrites(mid, {Write(L1(call.proc), call.role, found)});
    GrowsTransitive(s, mid, s');
  }

  lemma MissCacheStep(s: System, c: nat)
    requires Inv(s)
    ensures var s' := Step(s, MissCache(c)); Inv(s') && Grows(s, s')
  {
    GrowsReflexive(s);
    if c in s.calls && s.calls[c].phase.AwaitingCache? {
      var call := s.calls[c];
      assert GoodCall(CoreOf(s), s.fetches, c, call);
      assert c !in s.fetches by { assert OwnerInv(s.fetches, s.calls); }
      var _ := SetCall(s, c, call.(phase := CacheAnswered(call.phase.current, call.phase.trusted, None)));
    }
  }

  lemma LandStep(s: System, w: Write)
    requires Inv(s)
    ensures var s' := Step(s, Land(w)); Inv(s') && Grows(s, s')
  {
    GrowsReflexive(s);
    if w in s.writes { assert GoodValue(CoreOf(s), w.role, w.value); }
  }

  lemma EvictStep(s: System, tier: Tier, role: Id)
    requires Inv(s)
    ensures var s' := Step(s, Evict(tier, role)); Inv(s') && Grows(s, s')
  {
    GrowsReflexive(s);
  }

  // ---------------------------------------------------------------- calls and fetches

  ghost predicate CanResume(s: System, c: nat) {
    && Inv(s) && c in s.calls && s.calls[c].phase.CacheAnswered?
    && c !in s.fetches && s.calls[c].proc in s.locals && GoodCall(CoreOf(s), s.fetches, c, s.calls[c])
  }

  predicate Hits(call: Call)
    requires call.phase.CacheAnswered?
  {
    call.phase.got.Some? && call.phase.got.value.entry.epoch == call.phase.current
  }

  lemma ResumeCallStep(s: System, c: nat)
    requires Inv(s)
    ensures var s' := Step(s, ResumeCall(c)); Inv(s') && Grows(s, s')
  {
    GrowsReflexive(s);
    if c in s.calls && s.calls[c].phase.CacheAnswered? {
      assert GoodCall(CoreOf(s), s.fetches, c, s.calls[c]);
      assert c !in s.fetches by { assert OwnerInv(s.fetches, s.calls); }
      if Hits(s.calls[c]) {
        HitStep(s, c);
      } else if s.calls[c].role in s.locals[s.calls[c].proc].pending {
        var f := s.locals[s.calls[c].proc].pending[s.calls[c].role];
        JoinReflects(s, s.calls[c], f);
        ResumeEquations(s, c);
        var _ := JoinFetch(s, c, f);
      } else {
        StartFetchStep(s, c);
      }
    }
  }

  /** A hit: the tag equals an epoch that reflects what the call saw, so the value does too. */
  lemma HitStep(s: System, c: nat)
    requires CanResume(s, c) && Hits(s.calls[c])
    ensures Inv(DoResumeCall(s, c)) && Grows(s, DoResumeCall(s, c))
  {
    var call := s.calls[c];
    var x := call.phase.got.value;
    HitReflects(CoreOf(s), call);
    ResumeEquations(s, c);
    var _ := SetCall(s, c, call.(phase := Returned(FromCache(call.phase.trusted), x.asOf, x.entry.permissions)));
  }

  /** What resuming a call amounts to in each of its three cases. */
  lemma ResumeEquations(s: System, c: nat)
    requires c in s.calls && s.calls[c].phase.CacheAnswered? && s.calls[c].proc in s.locals && |s.dbs| > 0
    ensures var call := s.calls[c];
            var p, role := call.proc, call.role;
            var s' := DoResumeCall(s, c);
            if Hits(call) then
              s' == s.(calls := s.calls[c := call.(phase :=
                      Returned(FromCache(call.phase.trusted), call.phase.got.value.asOf,
                               call.phase.got.value.entry.permissions))])
            else if role in s.locals[p].pending then
              s' == s.(calls := s.calls[c := call.(phase := AwaitingFetch(s.locals[p].pending[role]))])
            else
              s' == s.(calls := s.calls[c := call.(phase := AwaitingFetch(c))],
                       fetches := s.fetches[c := Fetch(p, role, call.phase.current, s.locals[p].epoch,
                                                       |s.dbs| - 1, Querying)],
                       locals := s.locals[p := s.locals[p].(pending := s.locals[p].pending[role := c])])
  {
    assert s.locals[s.calls[c].proc := s.locals[s.calls[c].proc]] == s.locals;
  }

  lemma HitReflects(k: Core, call: Call)
    requires call.phase.CacheAnswered? && Hits(call) && GoodValue(k, call.role, call.phase.got.value)
    requires EpochReflects(k.mutations, call, call.phase.current, call.phase.trusted)
    ensures VersionReflects(k.mutations, call, call.phase.got.value.asOf, call.phase.trusted)
  {
  }

  /** A join: the registered fetch began late enough. */
  lemma JoinFetch(s: System, c: nat, f: nat) returns (s': System)
    requires CanResume(s, c) && f in s.fetches && f != c
    requires s.fetches[f].proc == s.calls[c].proc && s.fetches[f].role == s.calls[c].role
    requires VersionReflects(s.mutations, s.calls[c], s.fetches[f].start, false)
    ensures s' == s.(calls := s.calls[c := s.calls[c].(phase := AwaitingFetch(f))]) && Inv(s') && Grows(s, s')
  {
    s' := SetCall(s, c, s.calls[c].(phase := AwaitingFetch(f)));
  }

  lemma JoinReflects(s: System, call: Call, f: nat)
    requires PendingInv(s.mutations, s.fetches, s.locals) && call.proc in s.locals
    requires call.role in s.locals[call.proc].pending && f == s.locals[call.proc].pending[call.role]
    requires forall m | m in call.seen :: m in CompletedFor(s.mutations, call.role)
    ensures GoodRegistration(s.mutations, s.fetches, call.proc, call.role, f)
    ensures VersionReflects(s.mutations, call, s.fetches[f].start, false)
  {
    assert GoodRegistration(s.mutations, s.fetches, call.proc, call.role, f);
  }

  /** Whatever the authority has handed out belongs to a version already committed. */
  lemma CurrentIncludesAllBumps(s: System)
    requires Inv(s)
    ensures forall m | m in s.mutations :: s.mutations[m].version <= |s.dbs| - 1
  {
    forall m | m in s.mutations ensures s.mutations[m].version <= |s.dbs| - 1 {
      assert GoodMutation(|s.dbs|, s.epoch, s.locals, s.mutations[m]);
    }
  }

  /** Starting a fetch, seen as: leave the cache phase, start the fetch, await it, register it. */
  lemma StartFetchStep(s: System, c: nat)
    requires CanResume(s, c) && !Hits(s.calls[c]) && s.calls[c].role !in s.locals[s.calls[c].proc].pending
    ensures Inv(DoResumeCall(s, c)) && Grows(s, DoResumeCall(s, c))
  {
    var call := s.calls[c];
    ResumeEquations(s, c);
    CurrentIncludesAllBumps(s);
    LocalBelowEpoch(s, call.proc);
    var epoch := s.locals[call.proc].epoch;
    var _ := StartFetch(s, c, Fetch(call.proc, call.role, call.phase.current, epoch, |s.dbs| - 1, Querying));
  }

  lemma StartFetch(s: System, c: nat, x: Fetch) returns (s': System)
    requires CanResume(s, c) && GoodFetch(CoreOf(s), x) && x.InFlight()
    requires x.proc == s.calls[c].proc && x.role == s.calls[c].role
    requires forall m | m in s.mutations :: s.mutations[m].version <= x.start
    ensures s' == s.(calls := s.calls[c := s.calls[c].(phase := AwaitingFetch(c))],
                     fetches := s.fetches[c := x],
                     locals := s.locals[x.proc := s.locals[x.proc].(pending := s.locals[x.proc].pending[x.role := c])])
    ensures Inv(s') && Grows(s, s')
  {
    OverwriteTwice(s.calls, c, s.calls[c].(phase := Threw), s.calls[c].(phase := AwaitingFetch(c)));
    var mid := AddFetch(s, c, x);
    s' := AwaitOwnFetch(mid, c);
    GrowsTransitive(s, mid, s');
  }

  lemma OverwriteTwice<K, V>(m: map<K, V>, key: K, v: V, v': V)
    ensures m[key := v][key := v'] == m[key := v']
  {
  }

  lemma AddFetch(s: System, c: nat, x: Fetch) returns (s': System)
    requires CanResume(s, c) && GoodFetch(CoreOf(s), x)
    ensures s' == s.(calls := s.calls[c := s.calls[c].(phase := Threw)], fetches := s.fetches[c := x])
    ensures Inv(s') && Grows(s, s')
  {
    var mid := SetCall(s, c, s.calls[c].(phase := Threw));
    s' := SetFetch(mid, c, x);
    GrowsTransitive(s, mid, s');
  }

  lemma AwaitOwnFetch(s: System, c: nat) returns (s': System)
    requires Inv(s) && c in s.calls && s.calls[c].phase.Threw? && c in s.fetches && s.calls[c].proc in s.locals
    requires s.fetches[c].proc == s.calls[c].proc && s.fetches[c].role == s.calls[c].role && s.fetches[c].InFlight()
    requires forall m | m in s.mutations :: s.mutations[m].version <= s.fetches[c].start
    ensures var p, role := s.calls[c].proc, s.calls[c].role;
            s' == s.(calls := s.calls[c := s.calls[c].(phase := AwaitingFetch(c))],
                     locals := s.locals[p := s.locals[p].(pending := s.locals[p].pending[role := c])])
    ensures Inv(s') && Grows(s, s')
  {
    var p, role := s.calls[c].proc, s.calls[c].role;
    assert GoodCall(CoreOf(s), s.fetches, c, s.calls[c]);
    RegisteredGood(s.mutations, s.fetches, s.locals, p, role, c);
    var mid := SetCall(s, c, s.calls[c].(phase := AwaitingFetch(c)));
    s' := SetPending(mid, p, s.locals[p].pending[role := c]);
    GrowsTransitive(s, mid, s');
  }

  ghost predicate AllRegistered(mutations: map<nat, Mutation>, fetches: map<nat, Fetch>, p: Proc,
                                pending: map<Id, nat>) {
    forall r | r in pending :: GoodRegistration(mutations, fetches, p, r, pending[r])
  }

  lemma RegisteredGood(mutations: map<nat, Mutation>, fetches: map<nat, Fetch>, locals: map<Proc, Local>, p: Proc,
                       role: Id, f: nat)
    requires PendingInv(mutations, fetches, locals) && p in locals && f in fetches
    requires fetches[f].proc == p && fetches[f].role == role && fetches[f].InFlight()
    requires forall m | m in mutations :: mutations[m].version <= fetches[f].start
    ensures AllRegistered(mutations, fetches, p, locals[p].pending[role := f])
  {
    forall r | r in locals[p].pending && r != role
      ensures GoodRegistration(mutations, fetches, p, r, locals[p].pending[r])
    {
    }
  }

  lemma ReadRowsStep(s: System, f: nat)
    requires Inv(s)
    ensures var s' := Step(s, ReadRows(f)); Inv(s') && Grows(s, s')
  {
    GrowsReflexive(s);
    if f in s.fetches && s.fetches[f].phase.Querying? {
      ReadRowsEquation(s, f);
      var _ := AnswerRows(s, f, PermissionStrings(Current(s), s.fetches[f].role));
    }
  }

  lemma AnswerRows(s: System, f: nat, rows: set<string>) returns (s': System)
    requires Inv(s) && f in s.fetches && s.fetches[f].phase.Querying?
    requires ReadFrom(s.dbs, s.fetches[f].role, |s.dbs| - 1, rows)
    ensures s' == s.(fetches := s.fetches[f := s.fetches[f].(phase := Answered(|s.dbs| - 1, rows))])
    ensures Inv(s') && Grows(s, s')
  {
    var x := s.fetches[f];
    assert GoodFetch(CoreOf(s), x);
    assert f in s.calls && PastCache(s.calls[f].phase) by { assert OwnerInv(s.fetches, s.calls); }
    AnsweredGood(CoreOf(s), x, rows);
    s' := SetFetch(s, f, x.(phase := Answered(|s.dbs| - 1, rows)));
  }

  lemma AnsweredGood(k: Core, x: Fetch, rows: set<string>)
    requires GoodFetch(k, x) && ReadFrom(k.dbs, x.role, |k.dbs| - 1, rows)
    ensures GoodFetch(k, x.(phase := Answered(|k.dbs| - 1, rows)))
  {
  }

  lemma ReadRowsEquation(s: System, f: nat)
    requires f in s.fetches && s.fetches[f].phase.Querying? && |s.dbs| > 0
    ensures var x := s.fetches[f];
            Step(s, ReadRows(f))
            == s.(fetches := s.fetches[f := x.(phase := Answered(|s.dbs| - 1, PermissionStrings(Current(s), x.role)))])
  {
  }

  /** Once its role is unregistered a fetch is registered nowhere. */
  lemma UnregisterStep(s: System, f: nat) returns (s': System)
    requires Inv(s) && f in s.fetches && s.fetches[f].proc in s.locals
    ensures var p := s.fetches[f].proc; s' == s.(locals := s.locals[p := Unregister(s.locals[p], s.fetches[f].role)])
    ensures Inv(s') && Grows(s, s')
    ensures forall p, r | p in s'.locals && r in s'.locals[p].pending :: s'.locals[p].pending[r] != f
  {
    var p, role := s.fetches[f].proc, s.fetches[f].role;
    s' := SetPending(s, p, s.locals[p].pending - {role});
    forall q, r | q in s'.locals && r in s'.locals[q].pending ensures s'.locals[q].pending[r] != f {
      assert GoodRegistration(s'.mutations, s'.fetches, q, r, s'.locals[q].pending[r]);
    }
  }

  lemma FailRowsStep(s: System, f: nat)
    requires Inv(s)
    ensures var s' := Step(s, FailRows(f)); Inv(s') && Grows(s, s')
  {
    GrowsReflexive(s);
    if f in s.fetches && s.fetches[f].phase.Querying? && s.fetches[f].proc in s.locals {
      FailRowsEquation(s, f);
      var _ := RejectRows(s, f);
    }
  }

  lemma FailRowsEquation(s: System, f: nat)
    requires f in s.fetches && s.fetches[f].phase.Querying? && s.fetches[f].proc in s.locals
    ensures var x := s.fetches[f];
            Step(s, FailRows(f))
            == s.(fetches := s.fetches[f := x.(phase := Rejected)],
                  locals := s.locals[x.proc := Unregister(s.locals[x.proc], x.role)])
  {
  }

  lemma RejectRows(s: System, f: nat) returns (s': System)
    requires Inv(s) && f in s.fetches && s.fetches[f].phase.Querying? && s.fetches[f].proc in s.locals
    ensures var x := s.fetches[f];
            s' == s.(fetches := s.fetches[f := x.(phase := Rejected)],
                     locals := s.locals[x.proc := Unregister(s.locals[x.proc], x.role)])
    ensures Inv(s') && Grows(s, s')
  {
    var mid := UnregisterStep(s, f);
    assert GoodFetch(CoreOf(mid), mid.fetches[f]);
    s' := SetFetch(mid, f, mid.fetches[f].(phase := Rejected));
    GrowsTransitive(s, mid, s');
  }

  lemma ResumeFetchStep(s: System, f: nat)
    requires Inv(s)
    ensures var s' := Step(s, ResumeFetch(f)); Inv(s') && Grows(s, s')
  {
    GrowsReflexive(s);
    if f in s.fetches && s.fetches[f].phase.Answered? && s.fetches[f].proc in s.locals {
      var x := s.fetches[f];
      var ws := ResumeFetchEquation(s, f);
      var _ := UnregisterAndResolve(s, f, ws);
    }
  }

  lemma ResumeFetchEquation(s: System, f: nat) returns (ws: set<Write>)
    requires f in s.fetches && s.fetches[f].phase.Answered? && s.fetches[f].proc in s.locals
    ensures var x := s.fetches[f];
            && Step(s, ResumeFetch(f))
               == s.(fetches := s.fetches[f := x.(phase := Resolved(x.phase.asOf, x.phase.rows))],
                     locals := s.locals[x.proc := Unregister(s.locals[x.proc], x.role)],
                     writes := s.writes + ws)
            && Carry(ws, x)
  {
    var x := s.fetches[f];
    var entry := OnRows(s.locals[x.proc], x.role, x.snapshot, x.current, x.phase.rows).1;
    ws := match entry
      case Some(e) => WriteBack(s, x.proc, x.role, Stamped(e, x.phase.asOf))
      case None => {};
  }

  /** The writes carry the rows the fetch read, tagged with its epoch. */
  predicate Carry(ws: set<Write>, x: Fetch)
    requires x.phase.Answered?
  {
    forall w | w in ws :: w.role == x.role && w.value == Stamped(Entry(x.current, x.phase.rows), x.phase.asOf)
  }

  lemma UnregisterAndResolve(s: System, f: nat, ws: set<Write>) returns (s': System)
    requires Inv(s) && f in s.fetches && s.fetches[f].phase.Answered? && s.fetches[f].proc in s.locals
    requires Carry(ws, s.fetches[f])
    ensures var x := s.fetches[f];
            s' == s.(fetches := s.fetches[f := x.(phase := Resolved(x.phase.asOf, x.phase.rows))],
                     locals := s.locals[x.proc := Unregister(s.locals[x.proc], x.role)],
                     writes := s.writes + ws)
    ensures Inv(s') && Grows(s, s')
  {
    var mid := UnregisterStep(s, f);
    s' := ResolveAndWrite(mid, f, ws);
    GrowsTransitive(s, mid, s');
  }

  lemma ResolveAndWrite(s: System, f: nat, ws: set<Write>) returns (s': System)
    requires Inv(s) && f in s.fetches && s.fetches[f].phase.Answered?
    requires forall p, r | p in s.locals && r in s.locals[p].pending :: s.locals[p].pending[r] != f
    requires Carry(ws, s.fetches[f])
    ensures var x := s.fetches[f];
            s' == s.(fetches := s.fetches[f := x.(phase := Resolved(x.phase.asOf, x.phase.rows))],
                     writes := s.writes + ws)
    ensures Inv(s') && Grows(s, s')
  {
    var x := s.fetches[f];
    assert GoodFetch(CoreOf(s), x);
    assert f in s.calls && PastCache(s.calls[f].phase) by { assert OwnerInv(s.fetches, s.calls); }
    RowsGood(CoreOf(s), x);
    var mid := AddWrites(s, ws);
    s' := SetFetch(mid, f, x.(phase := Resolved(x.phase.asOf, x.phase.rows)));
    GrowsTransitive(s, mid, s');
  }

  lemma RowsGood(k: Core, x: Fetch)
    requires GoodFetch(k, x) && x.phase.Answered?
    ensures GoodValue(k, x.role, Stamped(Entry(x.current, x.phase.rows), x.phase.asOf))
  {
  }

  lemma ReturnStep(s: System, c: nat)
    requires Inv(s)
    ensures var s' := Step(s, Return(c)); Inv(s') && Grows(s, s')
  {
    GrowsReflexive(s);
    if c in s.calls && s.calls[c].phase.AwaitingFetch? && s.calls[c].phase.fetch in s.fetches {
      var call, f := s.calls[c], s.calls[c].phase.fetch;
      assert GoodCall(CoreOf(s), s.fetches, c, call);
      assert GoodFetch(CoreOf(s), s.fetches[f]);
      SettledGood(CoreOf(s), s.fetches, c, call);
      ReturnEquation(s, c);
      var _ := SetCall(s, c, call.(phase := Settled(s.fetches, c, f)));
    }
  }

  /** What the waiting call is told, if anything yet. */
  function Settled(fetches: map<nat, Fetch>, c: nat, f: nat): CallPhase
    requires f in fetches
  {
    match fetches[f].phase
    case Resolved(asOf, rows) => Returned(if f == c then OwnFetch else Joined, asOf, rows)
    case Rejected => Threw
    case _ => AwaitingFetch(f)
  }

  lemma ReturnEquation(s: System, c: nat)
    requires c in s.calls && s.calls[c].phase.AwaitingFetch? && s.calls[c].phase.fetch in s.fetches
    ensures DoReturn(s, c)
            == s.(calls := s.calls[c := s.calls[c].(phase := Settled(s.fetches, c, s.calls[c].phase.fetch))])
  {
    assert s.calls[c := s.calls[c]] == s.calls;
  }

  lemma SettledGood(k: Core, fetches: map<nat, Fetch>, c: nat, call: Call)
    requires GoodCall(k, fetches, c, call) && call.phase.AwaitingFetch? && GoodFetch(k, fetches[call.phase.fetch])
    ensures GoodCall(k, fetches, c, call.(phase := Settled(fetches, c, call.phase.fetch)))
    ensures SameCall(call, call.(phase := Settled(fetches, c, call.phase.fetch)))
  {
  }

  // ---------------------------------------------------------------- mutations

  lemma MutateStep(s: System, p: Proc, m: nat, op: AdminOp)
    requires Inv(s)
    ensures var s' := Step(s, Mutate(p, m, op)); Inv(s') && Grows(s, s')
  {
    GrowsReflexive(s);
    if p in s.locals && m !in s.mutations && Apply(Current(s), op).Ok? {
      var change := Apply(Current(s), op).value;
      var x := Mutation(p, change.invalidation, |s.dbs|, None, Committed);
      ApplyKeepsValid(Current(s), op);
      var mutations' := if change.invalidation.NoBump? then s.mutations else s.mutations[m := x];
      MutateEquation(s, p, m, op, change, mutations');
      var _ := Commit(s, m, op, change, mutations');
    }
  }

  lemma MutateEquation(s: System, p: Proc, m: nat, op: AdminOp, change: Change, mutations': map<nat, Mutation>)
    requires |s.dbs| > 0 && p in s.locals && m !in s.mutations && Apply(Current(s), op) == Ok(change)
    requires mutations' == if change.invalidation.NoBump? then s.mutations
                           else s.mutations[m := Mutation(p, change.invalidation, |s.dbs|, None, Committed)]
    ensures DoMutate(s, p, m, op) == s.(dbs := s.dbs + [change.tables], mutations := mutations')
  {
  }

  /** The mutations after a commit: one more, if it invalidates. */
  predicate OneMore(s: System, m: nat, scope: Invalidation, mutations': map<nat, Mutation>) {
    if scope.NoBump? then mutations' == s.mutations
    else
      && m in mutations' && mutations' == s.mutations[m := mutations'[m]] && mutations'[m].proc in s.locals
      && mutations'[m] == Mutation(mutations'[m].proc, scope, |s.dbs|, None, Committed)
  }

  lemma Commit(s: System, m: nat, op: AdminOp, change: Change, mutations': map<nat, Mutation>) returns (s': System)
    requires Inv(s) && m !in s.mutations && Apply(Current(s), op) == Ok(change) && Valid(change.tables)
    requires OneMore(s, m, change.invalidation, mutations')
    ensures s' == s.(dbs := s.dbs + [change.tables], mutations := mutations') && Inv(s') && Grows(s, s')
  {
    s' := s.(dbs := s.dbs + [change.tables], mutations := mutations');
    CommitVersions(s, m, change.invalidation, mutations');
    CommitDb(s.dbs, s.mutations, mutations', change.tables, op);
    CommitMutations(s, m, mutations');
    CommitGrows(CoreOf(s), m, change.tables, mutations');
    CoreStep(s, s');
  }

  lemma CommitGrows(k: Core, m: nat, t: Tables, mutations': map<nat, Mutation>)
    requires m !in k.mutations
    requires mutations' == k.mutations
             || (m in mutations' && mutations' == k.mutations[m := mutations'[m]] && mutations'[m].ticket.None?)
    ensures CoreGrows(k, k.(dbs := k.dbs + [t], mutations := mutations'))
  {
  }

  lemma CommitVersions(s: System, m: nat, scope: Invalidation, mutations': map<nat, Mutation>)
    requires m !in s.mutations && OneMore(s, m, scope, mutations')
    ensures forall n | n in s.mutations :: n in mutations' && mutations'[n] == s.mutations[n]
    ensures !scope.NoBump? ==> IsVersionOf(mutations', |s.dbs|)
  {
    if !scope.NoBump? { assert mutations'[m].version == |s.dbs|; }
  }

  lemma CommitDb(dbs: seq<Tables>, mutations: map<nat, Mutation>, mutations': map<nat, Mutation>, t: Tables,
                 op: AdminOp)
    requires DbInv(dbs, mutations) && Apply(dbs[|dbs| - 1], op).Ok? && Apply(dbs[|dbs| - 1], op).value.tables == t
             && Valid(t)
    requires forall m | m in mutations :: m in mutations' && mutations'[m].version == mutations[m].version
    requires !Apply(dbs[|dbs| - 1], op).value.invalidation.NoBump? ==> IsVersionOf(mutations', |dbs|)
    ensures DbInv(dbs + [t], mutations')
  {
    DbStable(dbs, mutations, mutations');
    var last := dbs[|dbs| - 1];
    forall role
      ensures Apply(last, op).value.invalidation.NoBump? ==> PermissionStrings(last, role) == PermissionStrings(t, role)
    {
      MutationsCoverTheirEffect(last, op, role);
    }
    var dbs' := dbs + [t];
    forall v | 0 < v < |dbs'| ensures IsVersionOf(mutations', v) || Silent(dbs'[v - 1], dbs'[v]) {
    }
  }

  lemma CommitMutations(s: System, m: nat, mutations': map<nat, Mutation>)
    requires Inv(s) && m !in s.mutations
    requires mutations' == s.mutations ||
             (m in mutations' && mutations' == s.mutations[m := mutations'[m]] && mutations'[m].proc in s.locals
              && mutations'[m].version == |s.dbs| && mutations'[m].ticket.None? && mutations'[m].phase.Committed?)
    ensures forall n | n in mutations' :: GoodMutation(|s.dbs| + 1, s.epoch, s.locals, mutations'[n])
    ensures PendingInv(mutations', s.fetches, s.locals)
  {
    forall n | n in mutations' ensures GoodMutation(|s.dbs| + 1, s.epoch, s.locals, mutations'[n]) {
      if n in s.mutations { assert GoodMutation(|s.dbs|, s.epoch, s.locals, s.mutations[n]); }
    }
    if mutations' != s.mutations { PendingAfterMutation(s.mutations, mutations', m, s.fetches, s.locals); }
  }

  lemma BumpStep(s: System, m: nat)
    requires Inv(s)
    ensures var s' := Step(s, Bump(m)); Inv(s') && Grows(s, s')
  {
    GrowsReflexive(s);
    if m in s.mutations && s.mutations[m].phase.Committed? && s.mutations[m].proc in s.locals {
      assert GoodMutation(|s.dbs|, s.epoch, s.locals, s.mutations[m]);
      if s.redis {
        LocalBelowEpoch(s, s.mutations[m].proc);
        IncrEquation(s, m);
        var _ := IncrAndReply(s, m);
      } else {
        LocalBumpLocals(s, s.mutations[m].proc);
        LocalBumpEquation(s, m);
        var _ := LocalBump(s, m);
      }
    }
  }

  ghost predicate CanBump(s: System, m: nat) {
    Inv(s) && m in s.mutations && s.mutations[m].phase.Committed? && s.mutations[m].proc in s.locals
  }

  /** The bump gives the mutation a ticket above every epoch handed out so far. */
  lemma TicketRaised(s: System, m: nat, locals': map<Proc, Local>, phase: MutationPhase)
    requires DbInv(s.dbs, s.mutations) && MutationInv(CoreOf(s)) && PendingInv(s.mutations, s.fetches, s.locals)
    requires m in s.mutations && s.mutations[m].phase.Committed? && s.mutations[m].proc in s.locals
             && s.mutations[m].ticket.None?
    requires phase.Bumping? || phase.Bumped?
    requires locals'.Keys == s.locals.Keys && forall p | p in s.locals :: s.locals[p].epoch <= locals'[p].epoch
    requires phase.Bumped? ==> locals'[s.mutations[m].proc].epoch == s.epoch + 1
    ensures var mutations' := s.mutations[m := s.mutations[m].(ticket := Some(s.epoch + 1), phase := phase)];
            var k' := Core(s.redis, s.dbs, s.epoch + 1, locals', mutations');
            && CoreGrows(CoreOf(s), k') && MutationInv(k') && DbInv(s.dbs, mutations')
            && PendingInv(mutations', s.fetches, s.locals)
  {
    var mutations' := s.mutations[m := s.mutations[m].(ticket := Some(s.epoch + 1), phase := phase)];
    DbStable(s.dbs, s.mutations, mutations');
    TicketsGood(s, m, locals', mutations');
    TicketGrows(CoreOf(s), m, locals', mutations');
    PendingAfterMutation(s.mutations, mutations', m, s.fetches, s.locals);
  }

  lemma TicketGrows(k: Core, m: nat, locals': map<Proc, Local>, mutations': map<nat, Mutation>)
    requires m in k.mutations && k.mutations[m].ticket.None? && k.mutations[m].phase.Committed?
    requires m in mutations' && mutations' == k.mutations[m := mutations'[m]]
    requires mutations'[m] == k.mutations[m].(ticket := Some(k.epoch + 1), phase := mutations'[m].phase)
    requires locals'.Keys == k.locals.Keys && forall p | p in k.locals :: k.locals[p].epoch <= locals'[p].epoch
    ensures CoreGrows(k, k.(epoch := k.epoch + 1, locals := locals', mutations := mutations'))
  {
  }

  lemma TicketsGood(s: System, m: nat, locals': map<Proc, Local>, mutations': map<nat, Mutation>)
    requires MutationInv(CoreOf(s)) && m in s.mutations && m in mutations'
             && mutations' == s.mutations[m := mutations'[m]]
    requires mutations'[m].phase.Bumping? || mutations'[m].phase.Bumped?
    requires mutations'[m] == s.mutations[m].(ticket := Some(s.epoch + 1), phase := mutations'[m].phase)
    requires locals'.Keys == s.locals.Keys && forall p | p in s.locals :: s.locals[p].epoch <= locals'[p].epoch
    requires s.mutations[m].proc in s.locals
    requires mutations'[m].phase.Bumped? ==> locals'[s.mutations[m].proc].epoch == s.epoch + 1
    ensures forall n | n in mutations' :: GoodMutation(|s.dbs|, s.epoch + 1, locals', mutations'[n])
  {
    forall n | n in mutations' ensures GoodMutation(|s.dbs|, s.epoch + 1, locals', mutations'[n]) {
      assert GoodMutation(|s.dbs|, s.epoch, s.locals, s.mutations[n]);
    }
  }

  lemma IncrEquation(s: System, m: nat)
    requires m in s.mutations && s.mutations[m].phase.Committed? && s.mutations[m].proc in s.locals && s.redis
    requires s.mutations[m].proc in s.inbox
    ensures var p := s.mutations[m].proc;
            Step(s, Bump(m))
            == s.(epoch := s.epoch + 1, inbox := s.inbox[p := s.inbox[p] + [BumpReply(m, s.epoch + 1)]],
                  mutations := s.mutations[m := s.mutations[m].(ticket := Some(s.epoch + 1), phase := Bumping)])
  {
  }

  lemma IncrAndReply(s: System, m: nat) returns (s': System)
    requires CanBump(s, m) && s.mutations[m].ticket.None? && s.redis
    requires s.mutations[m].proc in s.inbox && s.locals[s.mutations[m].proc].epoch <= s.epoch
    ensures var p := s.mutations[m].proc;
            s' == s.(epoch := s.epoch + 1, inbox := s.inbox[p := s.inbox[p] + [BumpReply(m, s.epoch + 1)]],
                     mutations := s.mutations[m := s.mutations[m].(ticket := Some(s.epoch + 1), phase := Bumping)])
    ensures Inv(s') && Grows(s, s')
  {
    var mid := Incr(s, m);
    s' := Push(mid, s.mutations[m].proc, BumpReply(m, s.epoch + 1));
    GrowsTransitive(s, mid, s');
  }

  lemma Incr(s: System, m: nat) returns (s': System)
    requires CanBump(s, m) && s.mutations[m].ticket.None? && s.redis
    ensures s' == s.(epoch := s.epoch + 1,
                     mutations := s.mutations[m := s.mutations[m].(ticket := Some(s.epoch + 1), phase := Bumping)])
    ensures Inv(s') && Grows(s, s')
  {
    s' := s.(epoch := s.epoch + 1,
             mutations := s.mutations[m := s.mutations[m].(ticket := Some(s.epoch + 1), phase := Bumping)]);
    TicketRaised(s, m, s.locals, Bumping);
    CoreStep(s, s');
  }

  lemma LocalBumpEquation(s: System, m: nat)
    requires m in s.mutations && s.mutations[m].phase.Committed? && s.mutations[m].proc in s.locals && !s.redis
    requires s.locals[s.mutations[m].proc].epoch == s.epoch
    ensures var p, next := s.mutations[m].proc, s.epoch + 1;
            Step(s, Bump(m))
            == s.(epoch := next, locals := s.locals[p := s.locals[p].(epoch := next)],
                  mutations := s.mutations[m := s.mutations[m].(ticket := Some(next), phase := Bumped)])
  {
  }

  /** Without Redis the single process's counter is the epoch, and no reply is ever queued. */
  lemma LocalBump(s: System, m: nat) returns (s': System)
    requires CanBump(s, m) && s.mutations[m].ticket.None? && !s.redis
    ensures var p, next := s.mutations[m].proc, s.epoch + 1;
            s' == s.(epoch := next, locals := s.locals[p := s.locals[p].(epoch := next)],
                     mutations := s.mutations[m := s.mutations[m].(ticket := Some(next), phase := Bumped)])
    ensures Inv(s') && Grows(s, s')
  {
    var p, next := s.mutations[m].proc, s.epoch + 1;
    s' := s.(epoch := next, locals := s.locals[p := s.locals[p].(epoch := next)],
             mutations := s.mutations[m := s.mutations[m].(ticket := Some(next), phase := Bumped)]);
    LocalBumpLocals(s, p);
    TicketRaised(s, m, s'.locals, Bumped);
    PendingEpochFree(s'.mutations, s.fetches, s.locals, p, next);
    CoreStep(s, s');
    EmptyQueuesGood(CoreOf(s'), s.calls, s.inbox);
  }

  lemma EmptyQueuesGood(k: Core, calls: map<nat, Call>, inbox: map<Proc, seq<Reply>>)
    requires forall q | q in inbox :: inbox[q] == []
    ensures InboxInv(k, calls, inbox)
  {
  }

  lemma LocalBumpLocals(s: System, p: Proc)
    requires Inv(s) && !s.redis && p in s.locals
    ensures var locals' := s.locals[p := OnBump(s.locals[p], s.locals[p].epoch + 1)];
            && LocalInv(s.redis, s.epoch + 1, locals', s.inbox)
            && locals' == s.locals[p := s.locals[p].(epoch := s.epoch + 1)]
    ensures forall q | q in s.inbox :: s.inbox[q] == []
  {
  }

  lemma ClearStep(s: System, m: nat)
    requires Inv(s)
    ensures var s' := Step(s, Clear(m)); Inv(s') && Grows(s, s')
  {
    GrowsReflexive(s);
    if m in s.mutations && s.mutations[m].phase.Bumped? && s.mutations[m].proc in s.locals {
      ClearEquation(s, m);
      var _ := ForgetAndComplete(s, m);
    }
  }

  lemma ClearEquation(s: System, m: nat)
    requires m in s.mutations && s.mutations[m].phase.Bumped? && s.mutations[m].proc in s.locals
    ensures var x := s.mutations[m];
            Step(s, Clear(m))
            == s.(locals := s.locals[x.proc := Forget(s.locals[x.proc], x.scope)],
                  mutations := s.mutations[m := x.(phase := Completed)])
  {
  }

  lemma ForgetAndComplete(s: System, m: nat) returns (s': System)
    requires Inv(s) && m in s.mutations && s.mutations[m].phase.Bumped? && s.mutations[m].proc in s.locals
    ensures var x := s.mutations[m];
            s' == s.(locals := s.locals[x.proc := Forget(s.locals[x.proc], x.scope)],
                     mutations := s.mutations[m := x.(phase := Completed)])
    ensures Inv(s') && Grows(s, s')
  {
    var x := s.mutations[m];
    var pending := Forget(s.locals[x.proc], x.scope).pending;
    forall r | r in pending ensures GoodRegistration(s.mutations, s.fetches, x.proc, r, pending[r]) {
      assert GoodRegistration(s.mutations, s.fetches, x.proc, r, s.locals[x.proc].pending[r]);
    }
    var mid := SetPending(s, x.proc, pending);
    assert GoodMutation(|mid.dbs|, mid.epoch, mid.locals, x);
    s' := SetMutation(mid, m, x.(phase := Completed));
    GrowsTransitive(s, mid, s');
  }

  /** The invariant holds after every action, and history only grows. */
  lemma StepKeepsInv(s: System, a: Action)
    requires Inv(s)
    ensures Inv(Step(s, a)) && Grows(s, Step(s, a))
  {
    match a
    case Boot(p) => BootStep(s, p);
    case StartCall(p, c, role) => StartCallStep(s, p, c, role);
    case ServeEpochRead(c) => ServeEpochReadStep(s, c);
    case FailEpochRead(c) => FailEpochReadStep(s, c);
    case HandleReply(p) => HandleReplyStep(s, p);
    case AnswerFromCache(c, tier) => AnswerFromCacheStep(s, c, tier);
    case MissCache(c) => MissCacheStep(s, c);
    case ResumeCall(c) => ResumeCallStep(s, c);
    case ReadRows(f) => ReadRowsStep(s, f);
    case FailRows(f) => FailRowsStep(s, f);
    case ResumeFetch(f) => ResumeFetchStep(s, f);
    case Return(c) => ReturnStep(s, c);
    case Land(w) => LandStep(s, w);
    case Evict(tier, role) => EvictStep(s, tier, role);
    case Mutate(p, m, op) => MutateStep(s, p, m, op);
    case Bump(m) => BumpStep(s, m);
    case Clear(m) => ClearStep(s, m);
  }

  lemma {:induction false} RunKeepsInv(s: System, actions: seq<Action>)
    requires Inv(s)
    ensures Inv(Run(s, actions)) && Grows(s, Run(s, actions))
    decreases |actions|
  {
    GrowsReflexive(s);
    if actions != [] {
      var next := Step(s, actions[0]);
      StepKeepsInv(s, actions[0]);
      RunKeepsInv(next, actions[1..]);
      GrowsTransitive(s, next, Run(s, actions));
    }
  }
}
