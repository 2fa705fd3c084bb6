/**
 A refresh that is past its decision when a bulk revocation of its user's sessions begins. The UPDATE
 of the revocation takes the rows it sees unrevoked, waits for the lock the refresh holds on one of
 them, and skips that row once the refresh has committed; the row the refresh inserted it never saw.
 */
module SplitRefresh {
  import opened Wrappers
  import opened Users
  import opened Sessions
  import opened SessionInvariants
  import opened SessionAccounts

  /** The transaction of a refresh holds the lock on this row and has decided to exchange it. */
  predicate Exchangeable(st: Auth, id: SessionId, now: nat) {
    && id in st.sessions && st.sessions[id].revokedAt.None? && st.sessions[id].expiresAt >= now
    && Denial(st.accounts.users, st.sessions[id].userId, now).None?
  }

  /** With nothing in between, the decision and the writes that follow make up the transaction. */
  lemma HalvesMakeRefresh(st: Auth, id: SessionId, ip: Option<string>, agent: Option<string>, now: nat,
                          reached: set<Jti>)
    requires id in st.sessions
    ensures Exchangeable(st, id, now) <==> RefreshRow(st, id, ip, agent, now, reached).1.Refreshed?
    ensures Exchangeable(st, id, now) ==>
              RefreshRow(st, id, ip, agent, now, reached).0 == Exchange(st, id, ip, agent, now)
  {
  }

  /** The refresh of one session up to its decision, its commit, or its rollback; time passes. */
  datatype Progress =
    | Tick(wait: nat)
    | Decide(id: SessionId)
    | Commit(id: SessionId, ip: Option<string>, userAgent: Option<string>)
    | Abort(id: SessionId)

  /** `locked` are the rows whose refreshes are past their decision. */
  datatype Race = Race(st: Auth, locked: set<SessionId>)

  predicate Commits(r: Race, e: Progress) {
    e.Commit? && e.id in r.locked && e.id in r.st.sessions
  }

  function Advance(r: Race, e: Progress): Race {
    match e
    case Tick(wait) => r.(st := r.st.(clock := r.st.clock + wait))
    case Decide(id) =>
      if id !in r.locked && Exchangeable(r.st, id, r.st.clock) then r.(locked := r.locked + {id}) else r
    case Commit(id, ip, agent) =>
      if Commits(r, e) then Race(Exchange(r.st, id, ip, agent, r.st.clock), r.locked - {id}) else r
    case Abort(id) => r.(locked := r.locked - {id})
  }

  function Proceed(r: Race, events: seq<Progress>): Race
    decreases |events|
  {
    if events == [] then r else Proceed(Advance(r, events[0]), events[1..])
  }

  /** One refresh by itself, decided and committed, is the transaction of the state machine if it renews
      the session, and nothing if it does not. */
  lemma AloneIsRefresh(st: Auth, id: SessionId, ip: Option<string>, agent: Option<string>, reached: set<Jti>)
    requires id in st.sessions
    ensures var r' := Proceed(Race(st, {}), [Decide(id), Commit(id, ip, agent)]);
            var (st', answer) := RefreshRow(st, id, ip, agent, st.clock, reached);
            r' == Race(if answer.Refreshed? then st' else st, {})
  {
    var decided := Advance(Race(st, {}), Decide(id));
    assert [Decide(id), Commit(id, ip, agent)][1..] == [Commit(id, ip, agent)];
    assert [Commit(id, ip, agent)][1..] == [];
    assert Proceed(decided, [Commit(id, ip, agent)]) == Advance(decided, Commit(id, ip, agent));
    HalvesMakeRefresh(st, id, ip, agent, st.clock, reached);
    if Exchangeable(st, id, st.clock) { assert decided.locked - {id} == {}; }
  }

  /** What a bulk revocation revokes that saw the rows `seen` unrevoked when it began and had to wait for
      the locks on some of them: those that are still unrevoked when it gets to them. A row inserted
      since is not among them. */
  function RevokeSeen(rows: Rows, seen: set<SessionId>, now: nat): Rows {
    map i | i in rows :: if i in seen && rows[i].revokedAt.None? then rows[i].(revokedAt := Some(now)) else rows[i]
  }

  /** If nothing happened since, it is the bulk revocation of the state machine. */
  lemma SeenAtOnce(rows: Rows, user: UserId, now: nat)
    ensures RevokeSeen(rows, UnrevokedOf(rows, user), now) == RevokeRows(rows, user, now)
  {
  }

  /** Some refresh of the user commits. */
  predicate Renews(r: Race, events: seq<Progress>, user: UserId)
    decreases |events|
  {
    events != [] && ((Commits(r, events[0]) && r.st.sessions[events[0].id].userId == user)
                     || Renews(Advance(r, events[0]), events[1..], user))
  }

  /** Rows are older than the next fresh value, and locked ones unrevoked. */
  ghost predicate RaceInv(r: Race) {
    && (forall i | i in r.st.sessions :: i < r.st.next)
    && (forall i | i in r.locked && i in r.st.sessions :: r.st.sessions[i].revokedAt.None?)
  }

  lemma RaceBegins(st: Auth)
    requires Inv(st)
    ensures RaceInv(Race(st, {}))
  {
    RowsBelowNext(st.sessions, st.refreshExp, st.next);
  }

  lemma AdvanceKeepsInv(r: Race, e: Progress)
    requires RaceInv(r)
    ensures RaceInv(Advance(r, e)) && r.st.next <= Advance(r, e).st.next
  {
  }

  /** How one event moves the user's unrevoked sessions beyond those in `seen`. */
  lemma AdvanceMoves(r: Race, e: Progress, user: UserId, seen: set<SessionId>)
    requires RaceInv(r) && forall i | i in seen :: i < r.st.next
    ensures var before := UnrevokedOf(r.st.sessions, user) - seen;
            var after := UnrevokedOf(Advance(r, e).st.sessions, user) - seen;
            if Commits(r, e) && r.st.sessions[e.id].userId == user then after == before - {e.id} + {r.st.next}
            else after == before
  {
    if Commits(r, e) {
      var s' := Advance(r, e).st.sessions;
      assert s'.Keys == r.st.sessions.Keys + {r.st.next};
      assert s'[r.st.next].userId == r.st.sessions[e.id].userId && s'[r.st.next].revokedAt.None?;
    }
  }

  lemma {:induction false} UnseenIffRenewed(r: Race, events: seq<Progress>, user: UserId, seen: set<SessionId>)
    requires RaceInv(r) && forall i | i in seen :: i < r.st.next
    ensures UnrevokedOf(Proceed(r, events).st.sessions, user) <= seen
            <==> UnrevokedOf(r.st.sessions, user) <= seen && !Renews(r, events, user)
    decreases |events|
  {
    if events != [] {
      AdvanceKeepsInv(r, events[0]);
      AdvanceMoves(r, events[0], user, seen);
      UnseenIffRenewed(Advance(r, events[0]), events[1..], user, seen);
    }
  }

  lemma SeenIsRevoked(rows: Rows, seen: set<SessionId>, user: UserId, now: nat)
    ensures var rows' := RevokeSeen(rows, seen, now);
            && UnrevokedOf(rows', user) == UnrevokedOf(rows, user) - seen
            && forall i | i in rows && (i !in seen || rows[i].revokedAt.Some?) :: i in rows' && rows'[i] == rows[i]
  {
  }

  /** A bulk revocation begins at `r` and ends after `events`, in which refreshes decide, commit and roll
      back. The user ends with no unrevoked session if and only if none of the user's own refreshes
      commits in the meantime. */
  lemma WaitingRevocationCleanIff(r: Race, user: UserId, events: seq<Progress>, now: nat)
    requires RaceInv(r)
    ensures var seen := UnrevokedOf(r.st.sessions, user);
            UnrevokedOf(RevokeSeen(Proceed(r, events).st.sessions, seen, now), user) == {} <==> !Renews(r, events, user)
  {
    var seen := UnrevokedOf(r.st.sessions, user);
    UnseenIffRenewed(r, events, user, seen);
    SeenIsRevoked(Proceed(r, events).st.sessions, seen, user, now);
    var left := UnrevokedOf(Proceed(r, events).st.sessions, user);
    assert left - seen == {} <==> left <= seen by {
      if left - seen == {} {
        forall i | i in left ensures i in seen { assert i !in left - seen; }
      }
    }
  }

  lemma {:induction false} InactiveDecidesNothing(r: Race, events: seq<Progress>, user: UserId)
    requires RaceInv(r) && InactiveIn(r.st.accounts, user)
    requires forall i | i in r.locked && i in r.st.sessions :: r.st.sessions[i].userId != user
    ensures !Renews(r, events, user)
    decreases |events|
  {
    if events != [] {
      AdvanceKeepsInv(r, events[0]);
      InactiveDecidesNothing(Advance(r, events[0]), events[1..], user);
    }
  }

  lemma DecidedStays(r: Race, e: Progress, id: SessionId)
    requires RaceInv(r) && id in r.locked && id in r.st.sessions && e != Abort(id) && !(e.Commit? && e.id == id)
    ensures var r' := Advance(r, e);
            id in r'.locked && id in r'.st.sessions && r'.st.sessions[id].userId == r.st.sessions[id].userId
  {
  }

  lemma {:induction false} DecidedRenews(r: Race, events: seq<Progress>, id: SessionId, end: Progress)
    requires RaceInv(r) && id in r.locked && id in r.st.sessions && end.Commit? && end.id == id
    requires end in events && Abort(id) !in events
    ensures Renews(r, events, r.st.sessions[id].userId)
    decreases |events|
  {
    if !(events[0].Commit? && events[0].id == id) {
      assert end in events[1..] && Abort(id) !in events[1..];
      AdvanceKeepsInv(r, events[0]);
      DecidedStays(r, events[0], id);
      DecidedRenews(Advance(r, events[0]), events[1..], id, end);
    }
  }

  /** The rows of the user whose refreshes are past their decision. */
  function DecidedOf(r: Race, user: UserId): set<SessionId> {
    set i | i in r.locked && i in r.st.sessions && r.st.sessions[i].userId == user
  }

  /** Every refresh past its decision goes on to commit. */
  ghost predicate AllCommit(r: Race, events: seq<Progress>) {
    forall i | i in r.locked :: Abort(i) !in events && exists e :: e in events && e.Commit? && e.id == i
  }

  /** For a deactivation, which has written the flag before it revokes: if the refreshes past their
      decision commit, the user ends with no unrevoked session if and only if none of them is of one
      of the user's tokens. */
  lemma WaitingDeactivationCleanIff(r: Race, user: UserId, events: seq<Progress>, now: nat)
    requires RaceInv(r) && InactiveIn(r.st.accounts, user) && AllCommit(r, events)
    ensures var seen := UnrevokedOf(r.st.sessions, user);
            UnrevokedOf(RevokeSeen(Proceed(r, events).st.sessions, seen, now), user) == {} <==> DecidedOf(r, user) == {}
  {
    WaitingRevocationCleanIff(r, user, events, now);
    if DecidedOf(r, user) == {} {
      forall i | i in r.locked && i in r.st.sessions ensures r.st.sessions[i].userId != user {
        assert i !in DecidedOf(r, user);
      }
      InactiveDecidesNothing(r, events, user);
    } else {
      var i :| i in DecidedOf(r, user);
      var end :| end in events && end.Commit? && end.id == i;
      DecidedRenews(r, events, i, end);
    }
  }

  /** The run: a refresh of the user is past its decision when the deactivation has written the flag and
      begins to revoke. It commits, the revocation ends, and the inactive user holds the new session. */
  lemma DeactivationDuringRefresh(st: Auth, id: SessionId, ip: Option<string>, agent: Option<string>, now: nat)
    requires Inv(st) && Exchangeable(st, id, st.clock)
    ensures var user := st.sessions[id].userId;
            var off := st.accounts.users[user].(isActive := false);
            var flagged := st.(accounts := st.accounts.(users := st.accounts.users[user := off]));
            var st' := Proceed(Race(flagged, {id}), [Commit(id, ip, agent)]).st;
            && InactiveIn(st'.accounts, user)
            && UnrevokedOf(RevokeSeen(st'.sessions, UnrevokedOf(st.sessions, user), now), user) == {st.next}
  {
  }
}
