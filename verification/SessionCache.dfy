/**
 Whole operations as interleavings of the cache events in which nothing comes between their parts:
 what each operation does to the cached copies of user rows, exactly which ones leave a stale copy,
 and a run in which another process serves one.
 */
module SessionCache {
  import opened Wrappers
  import opened CacheTiers
  import opened Users
  import opened Sessions
  import opened SessionInvariants
  import opened SessionAccounts
  import opened UserCache

  // ---------------------------------------------------------------- operations as events

  /** What validation's lookup of a user does to the cache. */
  function Lookup(a: Accounts, proc: Proc, promote: Option<nat>, user: UserId, now: nat): seq<Event> {
    if Served(a, proc, user, now).Some? then
      if Copy(a, L1(proc), user, now).None? && promote.Some? then
        [ReadCopy(0, proc, user, promote.value), Land(0, L1(proc)), End(0)]
      else []
    else if !Findable(a, user) then []
    else [ReadRow(0, proc, user), Land(0, L1(proc)), Land(0, L2), End(0)]
  }

  /** The events of an operation, after the time that passes. */
  function Parts(st: Auth, a: Action): seq<Event> {
    if NewRow(st, a).Some? then [Commit(0, a.user, NewRow(st, a).value, a.via), Delete(0)]
    else if a.DoRegister? then [Insert(a.user, User(true, false, 0, None, a.hashed))]
    else if Subject(st, a).Some? then Lookup(st.accounts, a.proc, a.promote, Subject(st, a).value, Now(st, a))
    else []
  }

  function Events(st: Auth, a: Action): seq<Event> {
    [Wait(Now(st, a) - st.clock)] + Parts(st, a)
  }

  lemma NoEvents(s: System)
    ensures Play(s, []) == s
  {
  }

  lemma OneMore(s: System, e: Event, rest: seq<Event>)
    ensures Play(s, [e] + rest) == Play(Apply(s, e), rest)
  {
    PlaySplits(s, [e], rest);
    assert [e][1..] == [];
  }

  lemma UpdateIsEvents(a: Accounts, user: UserId, row: User, via: Client, now: nat)
    requires user in a.users
    ensures Play(Idle(a, now), [Commit(0, user, row, via), Delete(0)]) == Idle(AfterUpdate(a, user, row, via), now)
  {
    var e, d := Commit(0, user, row, via), Delete(0);
    assert [e, d] == [e] + ([d] + []);
    OneMore(Idle(a, now), e, [d] + []);
    OneMore(Apply(Idle(a, now), e), d, []);
    assert map[0 := Update(user, via)] - {0} == map[];
  }

  lemma LookupIsEvents(a: Accounts, proc: Proc, promote: Option<nat>, user: UserId, now: nat)
    ensures Play(Idle(a, now), Lookup(a, proc, promote, user, now))
            == Idle(CachedOrStored(a, proc, promote, user, now).0, now)
  {
    var s := Idle(a, now);
    if Served(a, proc, user, now).Some? {
      if Copy(a, L1(proc), user, now).None? && promote.Some? { PromotionIsEvents(a, proc, promote.value, user, now); }
    } else if Findable(a, user) {
      FillIsEvents(a, proc, user, now);
    }
  }

  lemma PromotionIsEvents(a: Accounts, proc: Proc, lifetime: nat, user: UserId, now: nat)
    requires Copy(a, L2, user, now).Some?
    ensures var copy := CachedUser(Copy(a, L2, user, now).value, now + lifetime);
            Play(Idle(a, now), [ReadCopy(0, proc, user, lifetime), Land(0, L1(proc)), End(0)])
            == Idle(a.(cached := a.cached[(L1(proc), user) := copy]), now)
  {
    var s, e := Idle(a, now), ReadCopy(0, proc, user, lifetime);
    var read := Apply(s, e);
    assert [e, Land(0, L1(proc)), End(0)] == [e] + ([Land(0, L1(proc))] + ([End(0)] + []));
    OneMore(s, e, [Land(0, L1(proc))] + ([End(0)] + []));
    OneMore(read, Land(0, L1(proc)), [End(0)] + []);
    OneMore(Apply(read, Land(0, L1(proc))), End(0), []);
    assert read.fills - {0} == map[];
  }

  lemma FillIsEvents(a: Accounts, proc: Proc, user: UserId, now: nat)
    requires Findable(a, user)
    ensures var copy := CachedUser(a.users[user], now + USER_CACHE_TTL_MS);
            Play(Idle(a, now), [ReadRow(0, proc, user), Land(0, L1(proc)), Land(0, L2), End(0)])
            == Idle(a.(cached := a.cached[(L1(proc), user) := copy][(L2, user) := copy]), now)
  {
    var s := Idle(a, now);
    var read := Apply(s, ReadRow(0, proc, user));
    FourEvents(s, ReadRow(0, proc, user), Land(0, L1(proc)), Land(0, L2), End(0));
    assert read.fills - {0} == map[];
  }

  /** Every operation is, to accounts and cache, some time passing and its events with nothing in
      between; so what is proved of all interleavings holds of all runs of operations. */
  lemma OperationIsEvents(st: Auth, a: Action)
    ensures Play(Idle(st.accounts, st.clock), Events(st, a)) == Idle(Step(st, a).accounts, Step(st, a).clock)
  {
    var s, now := Idle(st.accounts, st.clock), Now(st, a);
    OneMore(s, Wait(now - st.clock), Parts(st, a));
    assert Apply(s, Wait(now - st.clock)) == Idle(st.accounts, now);
    StepAccounts(st, a);
    if NewRow(st, a).Some? {
      UpdateIsEvents(st.accounts, a.user, NewRow(st, a).value, a.via, now);
    } else if a.DoRegister? {
      RegisterIsEvent(st, a.user, a.hashed, now);
    } else if Subject(st, a).Some? {
      LookupIsEvents(st.accounts, a.proc, a.promote, Subject(st, a).value, now);
    }
  }

  lemma RegisterIsEvent(st: Auth, user: UserId, hashed: string, now: nat)
    ensures Play(Idle(st.accounts, now), [Insert(user, User(true, false, 0, None, hashed))])
            == Idle(Register(st, user, hashed).accounts, now)
  {
    var e := Insert(user, User(true, false, 0, None, hashed));
    assert [e] == [e] + [];
    OneMore(Idle(st.accounts, now), e, []);
  }

  ghost function RunEvents(st: Auth, actions: seq<Action>): seq<Event>
    decreases |actions|
  {
    if actions == [] then [] else Events(st, actions[0]) + RunEvents(Step(st, actions[0]), actions[1..])
  }

  lemma {:induction false} RunIsEvents(st: Auth, actions: seq<Action>)
    ensures Play(Idle(st.accounts, st.clock), RunEvents(st, actions))
            == Idle(Run(st, actions).accounts, Run(st, actions).clock)
    decreases |actions|
  {
    if actions != [] {
      OperationIsEvents(st, actions[0]);
      PlaySplits(Idle(st.accounts, st.clock), Events(st, actions[0]), RunEvents(Step(st, actions[0]), actions[1..]));
      RunIsEvents(Step(st, actions[0]), actions[1..]);
    }
  }

  /** Copies promoted to a memory tier get at most the lifetime `longest`. */
  predicate Promotes(a: Action, longest: nat) {
    a.DoValidate? && a.promote.Some? ==> a.promote.value <= longest
  }

  lemma OnePrompt(s: System, e: Event, rest: seq<Event>, extra: nat)
    requires Prompt(s, e, 0, extra) && AllPrompt(Apply(s, e), rest, 0, extra)
    ensures AllPrompt(s, [e] + rest, 0, extra)
  {
    assert ([e] + rest)[1..] == rest;
  }

  lemma LookupIsPrompt(a: Accounts, proc: Proc, promote: Option<nat>, user: UserId, now: nat, longest: nat)
    requires promote.Some? ==> promote.value <= longest
    ensures AllPrompt(Idle(a, now), Lookup(a, proc, promote, user, now), 0, longest)
  {
    var s, own, shared, end := Idle(a, now), Land(0, L1(proc)), Land(0, L2), End(0);
    if Served(a, proc, user, now).Some? {
      if Copy(a, L1(proc), user, now).None? && promote.Some? {
        var e := ReadCopy(0, proc, user, promote.value);
        var s1 := Apply(s, e);
        var s2 := Apply(s1, own);
        OnePrompt(s2, end, [], longest);
        OnePrompt(s1, own, [end] + [], longest);
        OnePrompt(s, e, [own] + ([end] + []), longest);
        assert [e] + ([own] + ([end] + [])) == [e, own, end];
      }
    } else if Findable(a, user) {
      var e := ReadRow(0, proc, user);
      var s1 := Apply(s, e);
      var s2 := Apply(s1, own);
      var s3 := Apply(s2, shared);
      OnePrompt(s3, end, [], longest);
      OnePrompt(s2, shared, [end] + [], longest);
      OnePrompt(s1, own, [shared] + ([end] + []), longest);
      OnePrompt(s, e, [own] + ([shared] + ([end] + [])), longest);
      assert [e] + ([own] + ([shared] + ([end] + []))) == [e, own, shared, end];
    }
  }

  lemma {:induction false} NoLandIsPrompt(s: System, events: seq<Event>, extra: nat)
    requires forall e | e in events :: !e.Land?
    ensures AllPrompt(s, events, 0, extra)
    decreases |events|
  {
    if events != [] {
      assert !events[0].Land?;
      NoLandIsPrompt(Apply(s, events[0]), events[1..], extra);
    }
  }

  lemma EventsArePrompt(st: Auth, a: Action, longest: nat)
    requires Promotes(a, longest)
    ensures AllPrompt(Idle(st.accounts, st.clock), Events(st, a), 0, longest)
  {
    var s, now := Idle(st.accounts, st.clock), Now(st, a);
    if NewRow(st, a).None? && !a.DoRegister? && Subject(st, a).Some? {
      LookupIsPrompt(st.accounts, a.proc, a.promote, Subject(st, a).value, now, longest);
    } else {
      NoLandIsPrompt(Apply(s, Wait(now - st.clock)), Parts(st, a), longest);
    }
    assert Apply(s, Wait(now - st.clock)) == Idle(st.accounts, now);
    OnePrompt(s, Wait(now - st.clock), Parts(st, a), longest);
  }

  /** In a run of operations nothing delays a cache write, so the bounds on the age of copies hold with
      delay 0 and the longest lifetime of a promotion. */
  lemma {:induction false} RunEventsArePrompt(st: Auth, actions: seq<Action>, longest: nat)
    requires forall a | a in actions :: Promotes(a, longest)
    ensures AllPrompt(Idle(st.accounts, st.clock), RunEvents(st, actions), 0, longest)
    decreases |actions|
  {
    if actions != [] {
      var s, st', first := Idle(st.accounts, st.clock), Step(st, actions[0]), Events(st, actions[0]);
      EventsArePrompt(st, actions[0], longest);
      OperationIsEvents(st, actions[0]);
      RunEventsArePrompt(st', actions[1..], longest);
      AllPromptSplits(s, first, RunEvents(st', actions[1..]), 0, longest);
    }
  }

  // ---------------------------------------------------------------- which operations leave a stale copy

  /** An unexpired copy of the user in a tier the caller's delete does not empty. */
  ghost predicate OutOfReach(a: Accounts, user: UserId, via: Client, now: nat) {
    exists tier :: Unexpired(a, (tier, user), now) && tier != L1(via.proc) && (tier == L2 ==> !via.up)
  }

  /** The operation changes a row of which such a copy exists. */
  ghost predicate Escapes(st: Auth, a: Action) {
    && NewRow(st, a).Some? && NewRow(st, a).value != st.accounts.users[a.user]
    && OutOfReach(st.accounts, a.user, a.via, Now(st, a))
  }

  lemma CoherentLater(a: Accounts, now: nat, later: nat)
    requires Coherent(a, {}, now) && now <= later
    ensures Coherent(a, {}, later)
  {
    forall key | Unexpired(a, key, later) ensures Stored(a, key.1) == Some(a.cached[key].user) {
      assert Unexpired(a, key, now);
    }
  }

  lemma NobodyBusy()
    ensures Busy(map[]) == {}
  {
  }

  lemma UpdateCoherentIff(a: Accounts, user: UserId, row: User, via: Client, now: nat)
    requires Coherent(a, {}, now) && Findable(a, user) && !row.deleted
    ensures Coherent(AfterUpdate(a, user, row, via), {}, now)
            <==> row == a.users[user] || !OutOfReach(a, user, via, now)
  {
    var s, d := DoCommit(Idle(a, now), 0, user, row, via), Delete(0);
    NobodyBusy();
    CoherenceIff(Idle(a, now), Commit(0, user, row, via));
    CoherenceIff(s, d);
    assert map[0 := Update(user, via)] - {0} == map[];
    assert s.accounts.(cached := Cleared(a.cached, user, via)) == AfterUpdate(a, user, row, via);
    forall tier | Unexpired(a, (tier, user), now) ensures a.cached[(tier, user)].user == a.users[user] {
    }
    assert Stored(s.accounts, user) == Some(row);
    if OutOfReach(a, user, via, now) {
      var tier :| Unexpired(a, (tier, user), now) && tier != L1(via.proc) && (tier == L2 ==> !via.up);
      assert Unexpired(s.accounts, (tier, user), now);
    }
  }

  lemma LookupKeepsCoherence(a: Accounts, proc: Proc, promote: Option<nat>, user: UserId, now: nat)
    requires Coherent(a, {}, now)
    ensures Coherent(CachedOrStored(a, proc, promote, user, now).0, {}, now)
  {
    var a' := CachedOrStored(a, proc, promote, user, now).0;
    assert Copy(a, L2, user, now).Some? ==> Unexpired(a, (L2, user), now);
    forall key | Unexpired(a', key, now) ensures Stored(a', key.1) == Some(a'.cached[key].user) {
      if key.1 != user || key.0 !in {L1(proc), L2} { assert Unexpired(a, key, now); }
      if key in a.cached && a'.cached[key] == a.cached[key] { assert Unexpired(a, key, now); }
    }
  }

  lemma RegisterKeepsCoherence(st: Auth, user: UserId, hashed: string, now: nat)
    requires Coherent(st.accounts, {}, now)
    ensures Coherent(Register(st, user, hashed).accounts, {}, now)
  {
    forall key | Unexpired(st.accounts, key, now) ensures Findable(st.accounts, key.1) {
    }
  }

  /** From coherent tiers, exactly one kind of operation, its parts not interleaved with others, leaves
      a stale copy behind: one that changes a row while an unexpired copy of it sits where the caller's
      delete does not reach - in the memory tier of another process, or in the shared tier when that
      does not answer. */
  lemma OperationCoherentIff(st: Auth, a: Action)
    requires Coherent(st.accounts, {}, st.clock)
    ensures Coherent(Step(st, a).accounts, {}, Step(st, a).clock) <==> !Escapes(st, a)
  {
    var now := Now(st, a);
    CoherentLater(st.accounts, st.clock, now);
    StepAccounts(st, a);
    if NewRow(st, a).Some? {
      UpdateCoherentIff(st.accounts, a.user, NewRow(st, a).value, a.via, now);
    } else if a.DoRegister? {
      RegisterKeepsCoherence(st, a.user, a.hashed, now);
    } else if Subject(st, a).Some? {
      LookupKeepsCoherence(st.accounts, a.proc, a.promote, Subject(st, a).value, now);
    }
  }

  ghost predicate NoneEscapes(st: Auth, actions: seq<Action>)
    decreases |actions|
  {
    actions == [] || (!Escapes(st, actions[0]) && NoneEscapes(Step(st, actions[0]), actions[1..]))
  }

  lemma {:induction false} RunStaysCoherent(st: Auth, actions: seq<Action>)
    requires Coherent(st.accounts, {}, st.clock) && NoneEscapes(st, actions)
    ensures Coherent(Run(st, actions).accounts, {}, Run(st, actions).clock)
    decreases |actions|
  {
    if actions != [] {
      OperationCoherentIff(st, actions[0]);
      RunStaysCoherent(Step(st, actions[0]), actions[1..]);
    }
  }

  /** The operation runs in process `p`, with a shared tier that answers. */
  predicate RunsIn(a: Action, p: Proc) {
    match a
    case DoLogin(_, _, _, _, via, _, _) => via == Client(p, true)
    case DoChangePassword(_, _, _, via, _, _) => via == Client(p, true)
    case DoSetUserActive(_, _, via, _, _) => via == Client(p, true)
    case DoValidate(_, proc, _, _) => proc == p
    case _ => true
  }

  lemma {:induction false} OneProcessNeverEscapes(st: Auth, actions: seq<Action>, p: Proc)
    requires OnlyIn(Idle(st.accounts, st.clock), p) && forall a | a in actions :: RunsIn(a, p)
    ensures NoneEscapes(st, actions)
    decreases |actions|
  {
    if actions != [] {
      assert RunsIn(actions[0], p);
      OneProcessStep(st, actions[0], p);
      OneProcessNeverEscapes(Step(st, actions[0]), actions[1..], p);
    }
  }

  lemma OneProcessStep(st: Auth, a: Action, p: Proc)
    requires OnlyIn(Idle(st.accounts, st.clock), p) && RunsIn(a, p)
    ensures !Escapes(st, a) && OnlyIn(Idle(Step(st, a).accounts, Step(st, a).clock), p)
  {
    StepAccounts(st, a);
  }

  /** In a single process with working deletes, over runs of whole operations, the copies change no
      verdict. A validation's row read and cache write are one step here; split, they may change one,
      exactly when UserCache.OneProcessCoherentIff says so. */
  lemma OneProcessVerdictIsUncached(users: map<UserId, User>, actions: seq<Action>, presented: Presented, p: Proc,
                                    promote: Option<nat>, now: nat)
    requires (forall a | a in actions :: RunsIn(a, p)) && Run(Init(users), actions).clock <= now
    ensures Validate(Run(Init(users), actions), presented, p, promote, now).1
            == Uncached(Run(Init(users), actions), presented, p, promote, now)
  {
    var st := Run(Init(users), actions);
    OneProcessNeverEscapes(Init(users), actions, p);
    RunStaysCoherent(Init(users), actions);
    if presented.AccessToken? && Live(st, presented.jti, now) {
      CoherentServes(st.accounts, {}, st.clock, p, st.accessTokens[presented.jti].sub, now);
      VerdictIsUncachedIff(st, presented.jti, p, promote, now);
    } else {
      DeadTokensNeedNoCache(st, presented, p, promote, now);
    }
  }

  // ---------------------------------------------------------------- another process

  /** A session is opened. */
  lemma Opened(u: User) returns (st: Auth, a: Action)
    requires u.isActive && !u.deleted && u.lockedUntil.None?
    ensures st == Step(Init(map["u" := u]), a) && Inv(st)
    ensures st.accounts == Accounts(map["u" := AfterReset(u)], map[]) && st.denylist == map[] && st.clock == 0
    ensures st.accessTokens == map[0 := AccessClaims("u", 900)] && st.refreshExp == map[0 := 604800] && st.next == 1
    ensures st.sessions.Keys == {0} && st.sessions[0].userId == "u" && st.sessions[0].revokedAt.None?
            && st.sessions[0].expiresAt == 7 * DAY_MS
  {
    a := DoLogin("u", true, None, None, Client(0, true), 0, 0);
    st := Step(Init(map["u" := u]), a);
    StepKeepsInv(Init(map["u" := u]), a);
  }

  /** It is rotated. */
  lemma Rotated(u: User) returns (st: Auth, first: Action, second: Action)
    requires u.isActive && !u.deleted && u.lockedUntil.None?
    ensures st == Step(Step(Init(map["u" := u]), first), second) && Inv(st)
    ensures st.accounts == Accounts(map["u" := AfterReset(u)], map[]) && st.denylist == map[] && st.clock == 0
    ensures 0 in st.accessTokens && st.accessTokens[0] == AccessClaims("u", 900)
    ensures UnrevokedOf(st.sessions, "u") == {1}
  {
    var st1;
    st1, first := Opened(u);
    second := DoRefresh(RefreshToken(0), None, None, {}, 0, 0);
    var (x, r) := RefreshRow(st1, 0, None, None, 0, {});
    RefreshFinds(st1, second, x, r);
    RefreshRowCases(st1, 0, None, None, 0, {});
    st := Step(st1, second);
    StepKeepsInv(st1, second);
  }

  lemma ThreeSteps(st: Auth, a: Action, b: Action, c: Action)
    ensures Run(st, [a, b, c]) == Step(Step(Step(st, a), b), c)
  {
    assert [a, b, c][1..] == [b, c] && [b, c][1..] == [c] && [c][1..] == [];
    assert Run(Step(Step(st, a), b), [c]) == Step(Step(Step(st, a), b), c);
    assert Run(Step(st, a), [b, c]) == Run(Step(Step(st, a), b), [c]);
  }

  /** Process 1 has validated the rotated session's access token, and holds a copy of the row. */
  lemma Filled(u: User) returns (st: Auth, actions: seq<Action>)
    requires u.isActive && !u.deleted && u.lockedUntil.None?
    ensures st == Run(Init(map["u" := u]), actions) && Inv(st)
    ensures st.accounts.users == map["u" := AfterReset(u)] && st.denylist == map[] && st.clock == 0
    ensures Copy(st.accounts, L1(1), "u", 0) == Some(AfterReset(u))
    ensures 0 in st.accessTokens && st.accessTokens[0] == AccessClaims("u", 900)
    ensures UnrevokedOf(st.sessions, "u") == {1}
  {
    var rotated, a, b := Rotated(u);
    var c := DoValidate(AccessToken(0), 1, None, 0);
    FillOnly(rotated, c);
    st := Step(rotated, c);
    StepKeepsInv(rotated, c);
    actions := [a, b, c];
    ThreeSteps(Init(map["u" := u]), a, b, c);
  }

  lemma FillOnly(st: Auth, a: Action)
    requires a == DoValidate(AccessToken(0), 1, None, 0) && st.clock == 0 && Live(st, 0, 0)
             && st.accessTokens[0].sub == "u"
    requires st.accounts.cached == map[] && Findable(st.accounts, "u")
    ensures var st' := Step(st, a);
            && st' == st.(accounts := st'.accounts) && st'.accounts.users == st.accounts.users
            && Copy(st'.accounts, L1(1), "u", 0) == Some(st.accounts.users["u"])
  {
  }

  /** The user is deactivated in process 0. Every delete and every denylist write arrives, and still
      process 1 accepts the token of the rotated session, which nothing denylists, from its own copy;
      without the cache it is refused. */
  lemma StaleInAnotherProcess(u: User)
    requires u.isActive && !u.deleted && u.lockedUntil.None?
    ensures exists before: seq<Action>, a: Action ::
              && a.DoSetUserActive? && !a.active && a.via.up
              && var st := Run(Init(map["u" := u]), before);
                 && ActiveJtis(st.sessions, "u") <= a.reached && Escapes(st, a)
                 && Validate(Step(st, a), AccessToken(0), 1, None, Step(st, a).clock).1.Accepted?
                 && Uncached(Step(st, a), AccessToken(0), 1, None, Step(st, a).clock) == Deactivated
  {
    var st, before := Filled(u);
    var a := DoSetUserActive("u", false, Client(0, true), {1}, 0);
    assert ActiveJtis(st.sessions, "u") <= {1} by {
      forall j | j in ActiveJtis(st.sessions, "u") ensures j == 1 {
        var i :| i in UnrevokedOf(st.sessions, "u") && st.sessions[i].accessJti == Some(j);
        assert GoodRow(st.refreshExp, st.next, i, st.sessions[i]);
      }
    }
    assert Unexpired(st.accounts, (L1(1), "u"), 0);
    DeactivatedElsewhere(st, a);
  }

  lemma DeactivatedElsewhere(st: Auth, a: Action)
    requires a == DoSetUserActive("u", false, Client(0, true), {1}, 0) && st.clock == 0 && Findable(st.accounts, "u")
    requires ActiveJtis(st.sessions, "u") <= {1} && st.denylist == map[]
    requires Copy(st.accounts, L1(1), "u", 0).Some? && Copy(st.accounts, L1(1), "u", 0).value == st.accounts.users["u"]
    requires st.accounts.users["u"].isActive && st.accounts.users["u"].lockedUntil.None?
    requires 0 in st.accessTokens && st.accessTokens[0] == AccessClaims("u", 900)
    ensures Escapes(st, a) && Step(st, a).clock == 0
    ensures Validate(Step(st, a), AccessToken(0), 1, None, 0).1.Accepted?
            && Uncached(Step(st, a), AccessToken(0), 1, None, 0) == Deactivated
  {
    StepAccounts(st, a);
    assert Unexpired(st.accounts, (L1(1), "u"), 0);
    var st' := Step(st, a);
    assert Live(st', 0, 0);
    assert Served(st'.accounts, 1, "u", 0) == Copy(st.accounts, L1(1), "u", 0);
    assert Served(st'.accounts.(cached := map[]), 1, "u", 0).None?;
  }
}
