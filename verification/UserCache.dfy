/**
 The cached copies of user rows, await by await: which interleavings of row updates, cache deletes,
 row reads and cache writes leave a stale copy behind, what request validation makes of it, and how
 old a copy can be. Sessions, tokens and denylist may do anything meanwhile.
 */
module UserCache {
  import opened Wrappers
  import opened CacheTiers
  import opened Users
  import opened Sessions
  import opened SessionAccounts

  predicate Unexpired(a: Accounts, key: (Tier, UserId), now: nat) {
    key in a.cached && now < a.cached[key].until
  }

  function Stored(a: Accounts, user: UserId): Option<User> {
    if Findable(a, user) then Some(a.users[user]) else None
  }

  // ---------------------------------------------------------------- one verdict

  /** The verdict without the cache. */
  function Uncached(st: Auth, presented: Presented, proc: Proc, promote: Option<nat>, now: nat): Verdict {
    Validate(st.(accounts := st.accounts.(cached := map[])), presented, proc, promote, now).1
  }

  /** What the gate looks at, and what it hands to the request if it opens. */
  predicate SameGate(copy: User, stored: Option<User>, now: nat) {
    && stored.Some? && copy.isActive == stored.value.isActive
    && (copy.isActive ==> (LockedAt(copy, now) <==> LockedAt(stored.value, now)))
    && (copy.isActive && !LockedAt(copy, now) ==> copy == stored.value)
  }

  /** The process would be served an unexpired copy that differs where it matters. */
  predicate ServesStale(a: Accounts, proc: Proc, user: UserId, now: nat) {
    Served(a, proc, user, now).Some? && !SameGate(Served(a, proc, user, now).value, Stored(a, user), now)
  }

  /** In any state whatever, one process judges a live token of a user as it would without the cache
      if and only if it is not served a copy whose gate fields differ from the stored row. */
  lemma VerdictIsUncachedIff(st: Auth, jti: Jti, proc: Proc, promote: Option<nat>, now: nat)
    requires Live(st, jti, now)
    ensures Validate(st, AccessToken(jti), proc, promote, now).1 == Uncached(st, AccessToken(jti), proc, promote, now)
            <==> !ServesStale(st.accounts, proc, st.accessTokens[jti].sub, now)
  {
    var user := st.accessTokens[jti].sub;
    var bare := st.accounts.(cached := map[]);
    assert Served(bare, proc, user, now).None?;
    assert Uncached(st, AccessToken(jti), proc, promote, now) == Gate(Stored(st.accounts, user), now);
  }

  /** Every other token is judged without looking at the cache. */
  lemma DeadTokensNeedNoCache(st: Auth, presented: Presented, proc: Proc, promote: Option<nat>, now: nat)
    requires presented.AccessToken? ==> !Live(st, presented.jti, now)
    ensures Validate(st, presented, proc, promote, now).1 == Uncached(st, presented, proc, promote, now)
    ensures !Validate(st, presented, proc, promote, now).1.Accepted?
  {
  }

  // ---------------------------------------------------------------- events

  /** A copy on its way to the cache. Request validation read `row` at `readAt`, from the database, or
      from the shared tier if the cache library promotes what it finds there, with a lifetime. */
  datatype Fill = Fill(proc: Proc, user: UserId, row: User, readAt: nat, promoted: Option<nat>)

  /** A row update whose cache delete has not returned. */
  datatype Update = Update(user: UserId, via: Client)

  datatype System = System(accounts: Accounts, fills: map<nat, Fill>, updates: map<nat, Update>, clock: nat)

  /** Each is one statement between two awaits; one that is not enabled does nothing, so a sequence
      of events is any interleaving of any number of requests. A read needs no preceding miss, a copy
      may land on each tier at any later time and more than once, and copies may be evicted early. */
  datatype Event =
    | Wait(time: nat)
    | Insert(user: UserId, row: User)
    | Commit(update: nat, user: UserId, row: User, via: Client)
    | Delete(update: nat)
    | ReadRow(fill: nat, proc: Proc, user: UserId)
    | ReadCopy(fill: nat, proc: Proc, user: UserId, lifetime: nat)
    | Land(fill: nat, tier: Tier)
    | End(fill: nat)
    | Evict(tier: Tier, user: UserId)

  /** The state between requests. */
  function Idle(a: Accounts, clock: nat): System {
    System(a, map[], map[], clock)
  }

  function Start(users: map<UserId, User>): System {
    Idle(Accounts(users, map[]), 0)
  }

  function DoCommit(s: System, u: nat, user: UserId, row: User, via: Client): System {
    if u in s.updates || user !in s.accounts.users then s
    else s.(accounts := s.accounts.(users := s.accounts.users[user := row]),
            updates := s.updates[u := Update(user, via)])
  }

  /** The delete returns or throws: what it reached is empty, and the update is over. */
  function DoDelete(s: System, u: nat): System {
    if u !in s.updates then s
    else
      var x := s.updates[u];
      s.(accounts := s.accounts.(cached := Cleared(s.accounts.cached, x.user, x.via)), updates := s.updates - {u})
  }

  function DoReadRow(s: System, f: nat, proc: Proc, user: UserId): System {
    if f in s.fills || !Findable(s.accounts, user) then s
    else s.(fills := s.fills[f := Fill(proc, user, s.accounts.users[user], s.clock, None)])
  }

  function DoReadCopy(s: System, f: nat, proc: Proc, user: UserId, lifetime: nat): System {
    if f in s.fills || Copy(s.accounts, L2, user, s.clock).None? then s
    else s.(fills := s.fills[f := Fill(proc, user, Copy(s.accounts, L2, user, s.clock).value, s.clock, Some(lifetime))])
  }

  /** A row read from the database goes to both tiers, a promoted copy to the memory tier. */
  predicate Lands(s: System, f: nat, tier: Tier) {
    f in s.fills && (tier == L1(s.fills[f].proc) || (tier == L2 && s.fills[f].promoted.None?))
  }

  function Landed(x: Fill, now: nat): CachedUser {
    CachedUser(x.row, now + x.promoted.GetOr(USER_CACHE_TTL_MS))
  }

  function DoLand(s: System, f: nat, tier: Tier): System {
    if !Lands(s, f, tier) then s
    else
      var x := s.fills[f];
      s.(accounts := s.accounts.(cached := s.accounts.cached[(tier, x.user) := Landed(x, s.clock)]))
  }

  function Apply(s: System, e: Event): System {
    match e
    case Wait(time) => s.(clock := s.clock + time)
    case Insert(user, row) =>
      if user in s.accounts.users then s else s.(accounts := s.accounts.(users := s.accounts.users[user := row]))
    case Commit(u, user, row, via) => DoCommit(s, u, user, row, via)
    case Delete(u) => DoDelete(s, u)
    case ReadRow(f, proc, user) => DoReadRow(s, f, proc, user)
    case ReadCopy(f, proc, user, lifetime) => DoReadCopy(s, f, proc, user, lifetime)
    case Land(f, tier) => DoLand(s, f, tier)
    case End(f) => s.(fills := s.fills - {f})
    case Evict(tier, user) => s.(accounts := s.accounts.(cached := s.accounts.cached - {(tier, user)}))
  }

  function Play(s: System, events: seq<Event>): System
    decreases |events|
  {
    if events == [] then s else Play(Apply(s, events[0]), events[1..])
  }

  /** Time passes, a request ends, and a copy goes early: nothing else moves. */
  lemma QuietEvents(s: System, time: nat, fill: nat, tier: Tier, user: UserId)
    ensures var s' := Apply(s, Wait(time)); s'.clock == s.clock + time && s' == s.(clock := s'.clock)
    ensures var s' := Apply(s, End(fill)); fill !in s'.fills && s' == s.(fills := s'.fills)
    ensures var s' := Apply(s, Evict(tier, user));
            && s' == s.(accounts := s.accounts.(cached := s'.accounts.cached))
            && s'.accounts.cached.Keys == s.accounts.cached.Keys - {(tier, user)}
            && forall k | k in s'.accounts.cached :: s'.accounts.cached[k] == s.accounts.cached[k]
  {
  }

  lemma {:induction false} PlaySplits(s: System, a: seq<Event>, b: seq<Event>)
    ensures Play(s, a + b) == Play(Play(s, a), b)
    decreases |a|
  {
    if a == [] {
      assert [] + b == b;
    } else {
      assert (a + b)[1..] == a[1..] + b;
      PlaySplits(Apply(s, a[0]), a[1..], b);
    }
  }

  // ---------------------------------------------------------------- which events leave a stale copy

  /** The users a row update of whom is under way. */
  function Busy(updates: map<nat, Update>): set<UserId> {
    set u | u in updates :: updates[u].user
  }

  /** Every copy any process could be served equals the stored row, except of the users in `busy`. */
  ghost predicate Coherent(a: Accounts, busy: set<UserId>, now: nat) {
    forall key | Unexpired(a, key, now) && key.1 !in busy :: Stored(a, key.1) == Some(a.cached[key].user)
  }

  /** An unexpired copy of the user, other than the stored row, in a tier the delete does not empty. */
  ghost predicate StaleOutOfReach(a: Accounts, user: UserId, via: Client, now: nat) {
    exists tier :: Unexpired(a, (tier, user), now) && tier != L1(via.proc) && (tier == L2 ==> !via.up)
                   && Stored(a, user) != Some(a.cached[(tier, user)].user)
  }

  /** A copy of a row that is no longer the stored one lands, and no delete is still to come. */
  predicate LateWrite(s: System, e: Event) {
    && e.Land? && Lands(s, e.fill, e.tier)
    && var x := s.fills[e.fill];
       && x.user !in Busy(s.updates) && s.clock < Landed(x, s.clock).until
       && Stored(s.accounts, x.user) != Some(x.row)
  }

  /** The last delete under way for a user returns and has not reached a stale copy. */
  ghost predicate MissedCopy(s: System, e: Event) {
    && e.Delete? && e.update in s.updates
    && var x := s.updates[e.update];
       && x.user !in Busy(s.updates - {e.update}) && StaleOutOfReach(s.accounts, x.user, x.via, s.clock)
  }

  ghost predicate Breaks(s: System, e: Event) {
    LateWrite(s, e) || MissedCopy(s, e)
  }

  lemma BusyAfterDelete(updates: map<nat, Update>, u: nat)
    requires u in updates
    ensures Busy(updates - {u}) <= Busy(updates) <= Busy(updates - {u}) + {updates[u].user}
  {
    forall user | user in Busy(updates) && user != updates[u].user ensures user in Busy(updates - {u}) {
      var v :| v in updates && updates[v].user == user;
      assert v in updates - {u} && (updates - {u})[v].user == user;
    }
  }

  lemma DeleteCoherentIff(s: System, u: nat)
    requires Coherent(s.accounts, Busy(s.updates), s.clock)
    ensures var s' := DoDelete(s, u);
            Coherent(s'.accounts, Busy(s'.updates), s'.clock) <==> !MissedCopy(s, Delete(u))
  {
    if u in s.updates {
      BusyAfterDelete(s.updates, u);
      ClearedCoherentIff(s.accounts, Busy(s.updates), Busy(s.updates - {u}), s.updates[u], s.clock);
    }
  }

  lemma ClearedCoherentIff(a: Accounts, before: set<UserId>, after: set<UserId>, x: Update, now: nat)
    requires Coherent(a, before, now) && after <= before <= after + {x.user}
    ensures Coherent(a.(cached := Cleared(a.cached, x.user, x.via)), after, now)
            <==> !(x.user !in after && StaleOutOfReach(a, x.user, x.via, now))
  {
    var a' := a.(cached := Cleared(a.cached, x.user, x.via));
    forall key | Unexpired(a', key, now)
      ensures Unexpired(a, key, now) && a'.cached[key] == a.cached[key] && Stored(a', key.1) == Stored(a, key.1)
    {
    }
    if x.user !in after && StaleOutOfReach(a, x.user, x.via, now) {
      var tier :| Unexpired(a, (tier, x.user), now) && tier != L1(x.via.proc) && (tier == L2 ==> !x.via.up)
                  && Stored(a, x.user) != Some(a.cached[(tier, x.user)].user);
      assert Unexpired(a', (tier, x.user), now);
    }
  }

  lemma LandCoherentIff(s: System, f: nat, tier: Tier)
    requires Coherent(s.accounts, Busy(s.updates), s.clock)
    ensures var s' := DoLand(s, f, tier);
            Coherent(s'.accounts, Busy(s'.updates), s'.clock) <==> !LateWrite(s, Land(f, tier))
  {
    if Lands(s, f, tier) {
      var x, a' := s.fills[f], DoLand(s, f, tier).accounts;
      var key := (tier, x.user);
      assert a'.cached[key] == Landed(x, s.clock);
      if LateWrite(s, Land(f, tier)) {
        assert Unexpired(a', key, s.clock);
      }
      forall k | k != key && Unexpired(a', k, s.clock) ensures Unexpired(s.accounts, k, s.clock) {
      }
    }
  }

  lemma CommitKeepsCoherence(s: System, u: nat, user: UserId, row: User, via: Client)
    requires Coherent(s.accounts, Busy(s.updates), s.clock)
    ensures var s' := DoCommit(s, u, user, row, via); Coherent(s'.accounts, Busy(s'.updates), s'.clock)
  {
    var s' := DoCommit(s, u, user, row, via);
    if s' != s {
      assert s'.updates[u].user == user;
      forall x | x in Busy(s.updates) ensures x in Busy(s'.updates) {
        var v :| v in s.updates && s.updates[v].user == x;
        assert s'.updates[v].user == x;
      }
      forall key | Unexpired(s'.accounts, key, s.clock) && key.1 !in Busy(s'.updates)
        ensures Stored(s'.accounts, key.1) == Some(s'.accounts.cached[key].user)
      {
        assert Unexpired(s.accounts, key, s.clock);
      }
    }
  }

  lemma OthersKeepCoherence(s: System, e: Event)
    requires Coherent(s.accounts, Busy(s.updates), s.clock) && !e.Delete? && !e.Land? && !e.Commit?
    ensures var s' := Apply(s, e); Coherent(s'.accounts, Busy(s'.updates), s'.clock)
  {
    var s' := Apply(s, e);
    forall key | Unexpired(s'.accounts, key, s'.clock) && key.1 !in Busy(s'.updates)
      ensures Stored(s'.accounts, key.1) == Some(s'.accounts.cached[key].user)
    {
      assert Unexpired(s.accounts, key, s.clock);
    }
  }

  /** Exactly two kinds of event leave a stale copy of a user no update of whom is under way: a row
      that was read earlier and has changed since is written to the cache after the last delete, or
      that delete does not reach a copy - in the memory tier of another process, or in the shared
      tier when that does not answer. */
  lemma CoherenceIff(s: System, e: Event)
    requires Coherent(s.accounts, Busy(s.updates), s.clock)
    ensures var s' := Apply(s, e); Coherent(s'.accounts, Busy(s'.updates), s'.clock) <==> !Breaks(s, e)
  {
    match e
    case Delete(u) => DeleteCoherentIff(s, u);
    case Land(f, tier) => LandCoherentIff(s, f, tier);
    case Commit(u, user, row, via) => CommitKeepsCoherence(s, u, user, row, via);
    case _ => OthersKeepCoherence(s, e);
  }

  // ---------------------------------------------------------------- whole interleavings

  /** Coherent after every event. */
  ghost predicate StaysCoherent(s: System, events: seq<Event>)
    decreases |events|
  {
    && Coherent(s.accounts, Busy(s.updates), s.clock)
    && (events != [] ==> StaysCoherent(Apply(s, events[0]), events[1..]))
  }

  ghost predicate NoneBreaks(s: System, events: seq<Event>)
    decreases |events|
  {
    events == [] || (!Breaks(s, events[0]) && NoneBreaks(Apply(s, events[0]), events[1..]))
  }

  lemma {:induction false} StaysCoherentIff(s: System, events: seq<Event>)
    requires Coherent(s.accounts, Busy(s.updates), s.clock)
    ensures StaysCoherent(s, events) <==> NoneBreaks(s, events)
    ensures NoneBreaks(s, events) ==>
              var s' := Play(s, events); Coherent(s'.accounts, Busy(s'.updates), s'.clock)
    decreases |events|
  {
    if events != [] {
      CoherenceIff(s, events[0]);
      if !Breaks(s, events[0]) { StaysCoherentIff(Apply(s, events[0]), events[1..]); }
    }
  }

  lemma {:induction false} NoneBreaksSplits(s: System, a: seq<Event>, b: seq<Event>)
    ensures NoneBreaks(s, a + b) <==> NoneBreaks(s, a) && NoneBreaks(Play(s, a), b)
    decreases |a|
  {
    if a == [] {
      assert [] + b == b;
    } else {
      assert (a + b)[0] == a[0] && (a + b)[1..] == a[1..] + b;
      NoneBreaksSplits(Apply(s, a[0]), a[1..], b);
    }
  }

  lemma CoherentServes(a: Accounts, busy: set<UserId>, clock: nat, proc: Proc, user: UserId, now: nat)
    requires Coherent(a, busy, clock) && clock <= now && user !in busy
    ensures !ServesStale(a, proc, user, now)
  {
    assert Copy(a, L1(proc), user, now).Some? ==> Unexpired(a, (L1(proc), user), clock);
    assert Copy(a, L2, user, now).Some? ==> Unexpired(a, (L2, user), clock);
  }

  /** While none of the events leaves a stale copy, the cached copies are invisible in every process,
      in every interleaving of requests split at their awaits: whatever the tokens and the denylist
      are, validating with the copies and without them gives the same verdict for every user no row
      update of whom is under way, and a token is accepted exactly when it is live and its user is
      stored, active and not locked right now. */
  lemma CachedVerdictIsUncachedVerdict(users: map<UserId, User>, events: seq<Event>, st: Auth, presented: Presented,
                                       proc: Proc, promote: Option<nat>, now: nat)
    requires NoneBreaks(Start(users), events)
    requires var s := Play(Start(users), events); st.accounts == s.accounts && s.clock <= now
    requires presented.AccessToken? && Live(st, presented.jti, now) ==>
               st.accessTokens[presented.jti].sub !in Busy(Play(Start(users), events).updates)
    ensures var verdict := Validate(st, presented, proc, promote, now).1;
            && verdict == Uncached(st, presented, proc, promote, now)
            && (verdict.Accepted? <==>
                  && presented.AccessToken? && Live(st, presented.jti, now)
                  && var user := st.accessTokens[presented.jti].sub;
                     Findable(st.accounts, user) && st.accounts.users[user].isActive
                       && !LockedAt(st.accounts.users[user], now))
  {
    var s := Play(Start(users), events);
    StaysCoherentIff(Start(users), events);
    if presented.AccessToken? && Live(st, presented.jti, now) {
      CoherentServes(s.accounts, Busy(s.updates), s.clock, proc, st.accessTokens[presented.jti].sub, now);
      VerdictIsUncachedIff(st, presented.jti, proc, promote, now);
    } else {
      DeadTokensNeedNoCache(st, presented, proc, promote, now);
    }
  }

  // ---------------------------------------------------------------- a validation split at its awaits

  lemma {:induction false} FillStays(s: System, f: nat, events: seq<Event>)
    requires f in s.fills && End(f) !in events
    ensures f in Play(s, events).fills && Play(s, events).fills[f] == s.fills[f]
    decreases |events|
  {
    if events != [] {
      assert events[0] in events && forall e | e in events[1..] :: e in events;
      FillStays(Apply(s, events[0]), f, events[1..]);
    }
  }

  /** A validation reads a row, any other events follow, and it writes the row to a tier. Copies stay
      coherent throughout if and only if none of the events between leaves a stale copy, and the row
      it read is then still the stored one, or an update of the user is under way whose delete is
      still to come. */
  lemma SplitValidationCoherentIff(s: System, f: nat, proc: Proc, user: UserId, between: seq<Event>, tier: Tier)
    requires Coherent(s.accounts, Busy(s.updates), s.clock)
    requires f !in s.fills && Findable(s.accounts, user) && End(f) !in between && tier in {L1(proc), L2}
    ensures var read := Apply(s, ReadRow(f, proc, user));
            var s' := Play(read, between);
            StaysCoherent(s, [ReadRow(f, proc, user)] + between + [Land(f, tier)]) <==>
              && NoneBreaks(read, between)
              && (user in Busy(s'.updates) || Stored(s'.accounts, user) == Stored(s.accounts, user))
  {
    var first, last := ReadRow(f, proc, user), Land(f, tier);
    var read := Apply(s, first);
    assert ([first] + between + [last])[0] == first && ([first] + between + [last])[1..] == between + [last];
    StaysCoherentIff(s, [first] + between + [last]);
    NoneBreaksSplits(read, between, [last]);
    FillStays(read, f, between);
    OneEvent(Play(read, between), last);
  }

  lemma OneEvent(s: System, e: Event)
    ensures NoneBreaks(s, [e]) <==> !Breaks(s, e)
  {
    assert [e][1..] == [];
    assert NoneBreaks(Apply(s, e), []);
  }

  lemma FourEvents(s: System, a: Event, b: Event, c: Event, d: Event)
    ensures Play(s, [a, b, c, d]) == Apply(Apply(Apply(Apply(s, a), b), c), d)
  {
    assert [a, b, c, d] == [a] + ([b] + ([c] + [d]));
    PlaySplits(s, [a], [b] + ([c] + [d]));
    PlaySplits(Apply(s, a), [b], [c] + [d]);
    PlaySplits(Apply(Apply(s, a), b), [c], [d]);
  }

  /** The user is deactivated, and the cache cleared, while a validation is between its row read and
      its cache write. */
  function DuringValidation(user: UserId, row: User, proc: Proc): seq<Event> {
    [ReadRow(0, proc, user), Commit(0, user, row.(isActive := false), Client(proc, true)), Delete(0), Land(0, L1(proc))]
  }

  /** One process, every delete arriving, and still the copy written late is served: the process
      accepts every live token of the deactivated user, all of which are refused without the cache. */
  lemma DeactivationDuringValidation(users: map<UserId, User>, user: UserId, proc: Proc, st: Auth, jti: Jti,
                                     promote: Option<nat>)
    requires user in users && !users[user].deleted && users[user].isActive && users[user].lockedUntil.None?
    requires st.accounts == Play(Start(users), DuringValidation(user, users[user], proc)).accounts
    requires Live(st, jti, 0) && st.accessTokens[jti].sub == user
    ensures Validate(st, AccessToken(jti), proc, promote, 0).1.Accepted?
    ensures Uncached(st, AccessToken(jti), proc, promote, 0) == Deactivated
  {
    var s, row := Start(users), users[user];
    var e := DuringValidation(user, row, proc);
    FourEvents(s, e[0], e[1], e[2], e[3]);
    var s2 := Apply(Apply(s, e[0]), e[1]);
    assert s2.fills == map[0 := Fill(proc, user, row, 0, None)];
    assert s2.accounts == Accounts(users[user := row.(isActive := false)], map[]);
    assert Served(st.accounts, proc, user, 0) == Some(row);
    assert Served(st.accounts.(cached := map[]), proc, user, 0).None?;
  }

  // ---------------------------------------------------------------- a single process

  /** The event is in process `p`, with a shared tier that answers. Without Redis the single process's
      memory tier is all there is, and the shared tier here merely repeats it. */
  predicate Within(e: Event, p: Proc) {
    match e
    case Commit(_, _, _, via) => via == Client(p, true)
    case ReadRow(_, proc, _) => proc == p
    case ReadCopy(_, proc, _, _) => proc == p
    case _ => true
  }

  ghost predicate OnlyIn(s: System, p: Proc) {
    && (forall key | key in s.accounts.cached :: key.0 == L1(p) || key.0 == L2)
    && (forall f | f in s.fills :: s.fills[f].proc == p)
    && (forall u | u in s.updates :: s.updates[u].via == Client(p, true))
  }

  ghost predicate NoLateWrite(s: System, events: seq<Event>)
    decreases |events|
  {
    events == [] || (!LateWrite(s, events[0]) && NoLateWrite(Apply(s, events[0]), events[1..]))
  }

  lemma {:induction false} OneProcessBreaksIff(s: System, events: seq<Event>, p: Proc)
    requires OnlyIn(s, p) && forall e | e in events :: Within(e, p)
    ensures NoneBreaks(s, events) <==> NoLateWrite(s, events)
    decreases |events|
  {
    if events != [] {
      assert Within(events[0], p);
      assert !MissedCopy(s, events[0]);
      StaysWithin(s, events[0], p);
      OneProcessBreaksIff(Apply(s, events[0]), events[1..], p);
    }
  }

  lemma StaysWithin(s: System, e: Event, p: Proc)
    requires OnlyIn(s, p) && Within(e, p)
    ensures OnlyIn(Apply(s, e), p)
  {
  }

  /** In a single process with working deletes the copies stay coherent if and only if no validation
      writes a row to the cache that has changed since it read it, with no delete still to come. Then
      they are invisible to every verdict, as in CachedVerdictIsUncachedVerdict. */
  lemma OneProcessCoherentIff(users: map<UserId, User>, events: seq<Event>, p: Proc)
    requires forall e | e in events :: Within(e, p)
    ensures StaysCoherent(Start(users), events) <==> NoLateWrite(Start(users), events)
    ensures NoLateWrite(Start(users), events) <==> NoneBreaks(Start(users), events)
  {
    OneProcessBreaksIff(Start(users), events, p);
    StaysCoherentIff(Start(users), events);
  }

  // ---------------------------------------------------------------- how stale a copy can be

  /** A row read from the database lands within `delay` of its read; a promoted copy expires within
      `extra` of being read from the shared tier. */
  predicate Prompt(s: System, e: Event, delay: nat, extra: nat) {
    e.Land? && e.fill in s.fills ==>
      var x := s.fills[e.fill];
      if x.promoted.None? then s.clock <= x.readAt + delay else s.clock + x.promoted.value <= x.readAt + extra
  }

  ghost predicate AllPrompt(s: System, events: seq<Event>, delay: nat, extra: nat)
    decreases |events|
  {
    events == [] || (Prompt(s, events[0], delay, extra) && AllPrompt(Apply(s, events[0]), events[1..], delay, extra))
  }

  lemma {:induction false} AllPromptSplits(s: System, a: seq<Event>, b: seq<Event>, delay: nat, extra: nat)
    ensures AllPrompt(s, a + b, delay, extra)
            <==> AllPrompt(s, a, delay, extra) && AllPrompt(Play(s, a), b, delay, extra)
    decreases |a|
  {
    if a == [] {
      assert [] + b == b;
    } else {
      assert (a + b)[0] == a[0] && (a + b)[1..] == a[1..] + b;
      AllPromptSplits(Apply(s, a[0]), a[1..], b, delay, extra);
    }
  }

  /** Lifetime in a tier, counted from a moment at which the row was stored. */
  function Lifetime(tier: Tier, delay: nat, extra: nat): nat {
    USER_CACHE_TTL_MS + delay + if tier.L1? then extra else 0
  }

  /** The users table at one time of a run. */
  datatype Moment = Moment(users: map<UserId, User>, clock: nat) {
    function Stored(user: UserId): Option<User> {
      if user in users && !users[user].deleted then Some(users[user]) else None
    }
  }

  function MomentOf(s: System): Moment {
    Moment(s.accounts.users, s.clock)
  }

  /** The moments after each of the events. */
  ghost function Later(s: System, events: seq<Event>): seq<Moment>
    decreases |events|
  {
    if events == [] then [] else [MomentOf(Apply(s, events[0]))] + Later(Apply(s, events[0]), events[1..])
  }

  /** All moments of a run, the present one last. */
  ghost function Moments(users: map<UserId, User>, events: seq<Event>): seq<Moment> {
    [MomentOf(Start(users))] + Later(Start(users), events)
  }

  /** The row was stored at the moment, and `until` is at most `span` later. */
  predicate FromMoment(m: Moment, user: UserId, row: User, until: nat, span: nat) {
    m.Stored(user) == Some(row) && until <= m.clock + span
  }

  ghost predicate WasStored(past: seq<Moment>, user: UserId, row: User, until: nat, span: nat) {
    exists k :: 0 <= k < |past| && FromMoment(past[k], user, row, until, span)
  }

  /** How long before it was read the row of a fill may have been the stored one. */
  function Age(x: Fill, delay: nat): nat {
    if x.promoted.None? then 0 else USER_CACHE_TTL_MS + delay
  }

  ghost predicate CopiesStored(past: seq<Moment>, cached: Copies, delay: nat, extra: nat) {
    forall key | key in cached ::
      WasStored(past, key.1, cached[key].user, cached[key].until, Lifetime(key.0, delay, extra))
  }

  ghost predicate FillsStored(past: seq<Moment>, fills: map<nat, Fill>, delay: nat) {
    forall f | f in fills :: WasStored(past, fills[f].user, fills[f].row, fills[f].readAt, Age(fills[f], delay))
  }

  lemma StillWasStored(past: seq<Moment>, m: Moment, user: UserId, row: User, until: nat, span: nat)
    requires WasStored(past, user, row, until, span) || FromMoment(m, user, row, until, span)
    ensures WasStored(past + [m], user, row, until, span)
  {
    var more := past + [m];
    if FromMoment(m, user, row, until, span) {
      assert FromMoment(more[|past|], user, row, until, span);
    } else {
      var k :| 0 <= k < |past| && FromMoment(past[k], user, row, until, span);
      assert FromMoment(more[k], user, row, until, span);
    }
  }

  /** The same moment bears witness for any later time, with the longer span. */
  lemma StretchedWasStored(past: seq<Moment>, user: UserId, row: User, until: nat, span: nat, until': nat, span': nat)
    requires WasStored(past, user, row, until, span) && until' + span <= until + span'
    ensures WasStored(past, user, row, until', span')
  {
    var k :| 0 <= k < |past| && FromMoment(past[k], user, row, until, span);
    assert FromMoment(past[k], user, row, until', span');
  }

  lemma FillsKeepStored(past: seq<Moment>, s: System, e: Event, delay: nat, extra: nat)
    requires CopiesStored(past, s.accounts.cached, delay, extra) && FillsStored(past, s.fills, delay)
    ensures FillsStored(past + [MomentOf(Apply(s, e))], Apply(s, e).fills, delay)
  {
    var s' := Apply(s, e);
    forall f | f in s'.fills
      ensures var x := s'.fills[f];
              WasStored(past + [MomentOf(s')], x.user, x.row, x.readAt, Age(x, delay))
    {
      var x := s'.fills[f];
      if e.ReadCopy? && f !in s.fills {
        var copy := s.accounts.cached[(L2, e.user)];
        StretchedWasStored(past, x.user, x.row, copy.until, Lifetime(L2, delay, extra), x.readAt, Age(x, delay));
      }
      StillWasStored(past, MomentOf(s'), x.user, x.row, x.readAt, Age(x, delay));
    }
  }

  lemma CopiesKeepStored(past: seq<Moment>, s: System, e: Event, delay: nat, extra: nat)
    requires CopiesStored(past, s.accounts.cached, delay, extra) && FillsStored(past, s.fills, delay)
    requires Prompt(s, e, delay, extra)
    ensures CopiesStored(past + [MomentOf(Apply(s, e))], Apply(s, e).accounts.cached, delay, extra)
  {
    var s' := Apply(s, e);
    forall key | key in s'.accounts.cached
      ensures WasStored(past + [MomentOf(s')], key.1, s'.accounts.cached[key].user, s'.accounts.cached[key].until,
                        Lifetime(key.0, delay, extra))
    {
      var copy := s'.accounts.cached[key];
      if e.Land? && Lands(s, e.fill, e.tier) && key == (e.tier, s.fills[e.fill].user) {
        var x := s.fills[e.fill];
        StretchedWasStored(past, x.user, x.row, x.readAt, Age(x, delay), copy.until, Lifetime(key.0, delay, extra));
      } else {
        assert key in s.accounts.cached && copy == s.accounts.cached[key];
      }
      StillWasStored(past, MomentOf(s'), key.1, copy.user, copy.until, Lifetime(key.0, delay, extra));
    }
  }

  lemma {:induction false} PlayKeepsStored(past: seq<Moment>, s: System, events: seq<Event>, delay: nat, extra: nat)
    requires CopiesStored(past, s.accounts.cached, delay, extra) && FillsStored(past, s.fills, delay)
    requires AllPrompt(s, events, delay, extra)
    ensures CopiesStored(past + Later(s, events), Play(s, events).accounts.cached, delay, extra)
    ensures FillsStored(past + Later(s, events), Play(s, events).fills, delay)
    decreases |events|
  {
    if events == [] {
      assert past + [] == past;
    } else {
      var s' := Apply(s, events[0]);
      CopiesKeepStored(past, s, events[0], delay, extra);
      FillsKeepStored(past, s, events[0], delay, extra);
      PlayKeepsStored(past + [MomentOf(s')], s', events[1..], delay, extra);
      assert past + [MomentOf(s')] + Later(s', events[1..]) == past + Later(s, events);
    }
  }

  /** `row` was the stored row at some moment of the run, less than 30 seconds and `slack` ago, or it is
      the stored row now. */
  ghost predicate Recent(moments: seq<Moment>, user: UserId, row: User, now: nat, slack: nat) {
    exists k :: 0 <= k < |moments| && moments[k].Stored(user) == Some(row)
                && (now < moments[k].clock + 30_000 + slack || k == |moments| - 1)
  }

  lemma ServedIsRecent(moments: seq<Moment>, a: Accounts, proc: Proc, user: UserId, now: nat, delay: nat, extra: nat)
    requires CopiesStored(moments, a.cached, delay, extra) && Served(a, proc, user, now).Some?
    ensures Recent(moments, user, Served(a, proc, user, now).value, now, delay + extra)
  {
    var key := (if Copy(a, L1(proc), user, now).Some? then L1(proc) else L2, user);
    var copy, span := a.cached[key], Lifetime(key.0, delay, extra);
    assert WasStored(moments, user, copy.user, copy.until, span);
    var k :| 0 <= k < |moments| && FromMoment(moments[k], user, copy.user, copy.until, span);
    assert moments[k].Stored(user) == Some(copy.user);
  }

  lemma {:induction false} LastMoment(s: System, events: seq<Event>)
    ensures var moments := [MomentOf(s)] + Later(s, events);
            moments[|moments| - 1] == MomentOf(Play(s, events))
    decreases |events|
  {
    if events != [] {
      LastMoment(Apply(s, events[0]), events[1..]);
    }
  }

  lemma AcceptedRow(st: Auth, jti: Jti, proc: Proc, promote: Option<nat>, now: nat)
    requires Validate(st, AccessToken(jti), proc, promote, now).1.Accepted?
    ensures Live(st, jti, now)
    ensures var (user, row) := (st.accessTokens[jti].sub, Validate(st, AccessToken(jti), proc, promote, now).1.user);
            && row.isActive && !LockedAt(row, now)
            && (Served(st.accounts, proc, user, now) == Some(row) || Stored(st.accounts, user) == Some(row))
  {
  }

  lemma RunIsStored(users: map<UserId, User>, events: seq<Event>, delay: nat, extra: nat)
    requires AllPrompt(Start(users), events, delay, extra)
    ensures CopiesStored(Moments(users, events), Play(Start(users), events).accounts.cached, delay, extra)
    ensures FillsStored(Moments(users, events), Play(Start(users), events).fills, delay)
  {
    PlayKeepsStored([MomentOf(Start(users))], Start(users), events, delay, extra);
  }

  /** Bounded staleness, in every interleaving, in every process and whatever deletes fail: a row that
      validation lets through was the stored row at some moment of the run less than 30 seconds ago,
      plus the longest a validation takes between its row read and its cache write, plus the longest
      a promoted copy lives, which is 0 if the cache library does not promote. */
  lemma AcceptedRowsAreRecent(users: map<UserId, User>, events: seq<Event>, st: Auth, jti: Jti, proc: Proc,
                              promote: Option<nat>, now: nat, delay: nat, extra: nat)
    requires AllPrompt(Start(users), events, delay, extra) && st.accounts == Play(Start(users), events).accounts
    requires Validate(st, AccessToken(jti), proc, promote, now).1.Accepted?
    ensures var row := Validate(st, AccessToken(jti), proc, promote, now).1.user;
            && jti in st.accessTokens && row.isActive && !LockedAt(row, now)
            && Recent(Moments(users, events), st.accessTokens[jti].sub, row, now, delay + extra)
  {
    AcceptedRow(st, jti, proc, promote, now);
    var user, row := st.accessTokens[jti].sub, Validate(st, AccessToken(jti), proc, promote, now).1.user;
    var moments := Moments(users, events);
    if Served(st.accounts, proc, user, now) == Some(row) {
      RunIsStored(users, events, delay, extra);
      ServedIsRecent(moments, st.accounts, proc, user, now, delay, extra);
    } else {
      LastMoment(Start(users), events);
      assert moments[|moments| - 1].Stored(user) == Some(row);
    }
  }

  /** The validation that read the row goes on with it when its writes have returned: the row was the
      stored one when it read it. */
  lemma ReadRowsWereStored(users: map<UserId, User>, events: seq<Event>, f: nat, delay: nat, extra: nat)
    requires AllPrompt(Start(users), events, delay, extra)
    requires f in Play(Start(users), events).fills && Play(Start(users), events).fills[f].promoted.None?
    ensures var x := Play(Start(users), events).fills[f];
            exists k :: 0 <= k < |Moments(users, events)| && Moments(users, events)[k].Stored(x.user) == Some(x.row)
                        && x.readAt <= Moments(users, events)[k].clock
  {
    RunIsStored(users, events, delay, extra);
    var x, moments := Play(Start(users), events).fills[f], Moments(users, events);
    assert WasStored(moments, x.user, x.row, x.readAt, Age(x, delay));
    var k :| 0 <= k < |moments| && FromMoment(moments[k], x.user, x.row, x.readAt, Age(x, delay));
    assert moments[k].Stored(x.user) == Some(x.row);
  }

  // ---------------------------------------------------------------- deactivation

  lemma {:induction false} LaterSplits(s: System, a: seq<Event>, b: seq<Event>)
    ensures Later(s, a + b) == Later(s, a) + Later(Play(s, a), b)
    decreases |a|
  {
    if a == [] {
      assert [] + b == b;
    } else {
      assert (a + b)[1..] == a[1..] + b;
      LaterSplits(Apply(s, a[0]), a[1..], b);
    }
  }

  lemma {:induction false} ClocksRise(s: System, events: seq<Event>)
    ensures s.clock <= Play(s, events).clock
    ensures forall k | 0 <= k < |Later(s, events)| :: Later(s, events)[k].clock <= Play(s, events).clock
    decreases |events|
  {
    if events != [] {
      ClocksRise(Apply(s, events[0]), events[1..]);
    }
  }

  predicate ActiveAt(m: Moment, user: UserId) {
    m.Stored(user).Some? && m.Stored(user).value.isActive
  }

  /** The event makes the user active again. */
  predicate Reactivates(e: Event, user: UserId) {
    e.Commit? && e.user == user && e.row.isActive
  }

  lemma {:induction false} StaysInactive(s: System, events: seq<Event>, user: UserId)
    requires InactiveIn(s.accounts, user) && forall e | e in events :: !Reactivates(e, user)
    ensures forall k | 0 <= k < |Later(s, events)| :: !ActiveAt(Later(s, events)[k], user)
    decreases |events|
  {
    if events != [] {
      assert !Reactivates(events[0], user);
      StaysInactive(Apply(s, events[0]), events[1..], user);
    }
  }

  /** The moments at which the user was active lie before the deactivation. */
  lemma ActiveIsEarlier(users: map<UserId, User>, before: seq<Event>, after: seq<Event>, user: UserId)
    requires InactiveIn(Play(Start(users), before).accounts, user) && forall e | e in after :: !Reactivates(e, user)
    ensures var moments := Moments(users, before + after);
            forall k | 0 <= k < |moments| && ActiveAt(moments[k], user) ::
              moments[k].clock <= Play(Start(users), before).clock && k < |moments| - 1
  {
    var s := Play(Start(users), before);
    LaterSplits(Start(users), before, after);
    ClocksRise(Start(users), before);
    StaysInactive(s, after, user);
    LastMoment(Start(users), before);
  }

  /** A deactivation bites within 30 seconds - plus the longest a validation takes from row read to
      cache write, plus the longest a promoted copy lives - in every interleaving and every process,
      even if every cache delete and every denylist write fails: from then on the user's access tokens
      are refused until the user is reactivated. */
  lemma DeactivationBitesWithinThirtySeconds(users: map<UserId, User>, before: seq<Event>, after: seq<Event>,
                                             user: UserId, st: Auth, jti: Jti, proc: Proc, promote: Option<nat>,
                                             now: nat, delay: nat, extra: nat)
    requires InactiveIn(Play(Start(users), before).accounts, user) && forall e | e in after :: !Reactivates(e, user)
    requires AllPrompt(Start(users), before + after, delay, extra)
    requires st.accounts == Play(Start(users), before + after).accounts
    requires Play(Start(users), before).clock + 30_000 + delay + extra <= now
    ensures jti in st.accessTokens && st.accessTokens[jti].sub == user ==>
              !Validate(st, AccessToken(jti), proc, promote, now).1.Accepted?
  {
    if jti in st.accessTokens && st.accessTokens[jti].sub == user
      && Validate(st, AccessToken(jti), proc, promote, now).1.Accepted? {
      AcceptedRowsAreRecent(users, before + after, st, jti, proc, promote, now, delay, extra);
      ActiveIsEarlier(users, before, after, user);
      assert false;
    }
  }
}
