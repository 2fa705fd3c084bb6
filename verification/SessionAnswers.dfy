/**
 What every operation on sessions answers, and what it leaves: when each answer is given, decided by
 the request, the token's row and the account, and every field that changes, with its value.
 */
module SessionAnswers {
  import opened Wrappers
  import opened CacheTiers
  import opened Users
  import opened Sessions
  import opened SessionInvariants

  predicate SameAccounts(st: Auth, st': Auth) {
    st'.accounts == st.accounts
  }

  /** The clock every operation below works at: the end of the call. */
  lemma TimePasses(st: Auth, a: Action)
    ensures Step(st, a).clock == Now(st, a) == st.clock + a.wait + if a.DoLogin? || a.DoRefresh? then a.busy else 0
  {
  }

  /** Nothing is signed. */
  predicate SameTokens(st: Auth, st': Auth) {
    st'.refreshExp == st.refreshExp && st'.accessTokens == st.accessTokens && st'.next == st.next
  }

  // ---------------------------------------------------------------- refresh

  /** The token is one signed as a refresh token and has not run out. */
  predicate Verified(st: Auth, presented: Presented, at: nat) {
    presented.RefreshToken? && presented.token in st.refreshExp && at / 1000 < st.refreshExp[presented.token]
  }

  /** The answer to a token that does not verify or has no row. */
  lemma UnverifiedRefreshAnswers(st: Auth, a: Action)
    requires Inv(st) && a.DoRefresh?
    requires !Verified(st, a.presented, st.clock + a.wait) || a.presented.token !in st.sessions
    ensures var (st', answer) := Perform(st, a);
            && st' == st && answer.RefreshAnswer?
            && (answer.refresh == UnknownToken <==> Verified(st, a.presented, st.clock + a.wait))
            && (answer.refresh == NotARefreshToken <==>
                  && a.presented.AccessToken? && a.presented.jti in st.accessTokens
                  && (st.clock + a.wait) / 1000 < st.accessTokens[a.presented.jti].exp)
            && answer.refresh in {UnknownToken, NotARefreshToken, InvalidOrExpired}
  {
    RefreshRefuses(st, a);
  }

  /** The row can still be exchanged, as far as it goes. */
  predicate Open(s: Session, now: nat) {
    s.revokedAt.None? && s.expiresAt >= now
  }

  predicate Locks(u: User, now: nat) {
    u.lockedUntil.Some? && u.lockedUntil.value > now
  }

  /** The answer to a verified token with a stored row is decided by the row and the account: a rotated
      row is refused, a row revoked otherwise is reuse, an expired one is refused, and an open one is
      exchanged unless the account is missing, deleted, inactive or locked, in this order. */
  lemma RefreshAnswers(st: Auth, a: Action)
    requires Inv(st) && a.DoRefresh? && Verified(st, a.presented, st.clock + a.wait) && a.presented.token in st.sessions
    ensures var answer, row, users := Perform(st, a).1, st.sessions[a.presented.token], st.accounts.users;
            var now := st.clock + a.wait + a.busy;
            && answer.RefreshAnswer?
            && (answer.refresh == AlreadyRotated <==> row.revokedAt.Some? && row.rotatedTo.Some?)
            && (answer.refresh.ReuseDetected? <==> row.revokedAt.Some? && row.rotatedTo.None?)
            && (answer.refresh == SessionExpired <==> row.revokedAt.None? && row.expiresAt < now)
            && (Says(answer.refresh, Missing) <==> Open(row, now) && row.userId !in users)
            && (Says(answer.refresh, Deleted) <==> Open(row, now) && row.userId in users && users[row.userId].deleted)
            && (Says(answer.refresh, Inactive) <==>
                  && Open(row, now) && row.userId in users
                  && !users[row.userId].deleted && !users[row.userId].isActive)
            && (Says(answer.refresh, Locked) <==>
                  && Open(row, now) && row.userId in users
                  && !users[row.userId].deleted && users[row.userId].isActive && Locks(users[row.userId], now))
            && (answer.refresh.Refreshed? <==>
                  && Open(row, now) && row.userId in users
                  && !users[row.userId].deleted && users[row.userId].isActive && !Locks(users[row.userId], now))
  {
    var (x, r) := RefreshRow(st, a.presented.token, a.ip, a.userAgent, Now(st, a), a.reached);
    RefreshFinds(st, a, x, r);
  }

  predicate Says(r: RefreshOutcome, reason: DenialReason) {
    r.Denied? && r.reason == reason
  }

  /** The row a login or a refresh inserts: it carries the request's address and user agent, lives seven
      days from now, and is the row of the pair signed with it, which lasts as long and fifteen minutes. */
  ghost predicate Opens(st: Auth, st': Auth, n: SessionId, user: UserId, ip: Option<string>, userAgent: Option<string>,
                        from: Option<SessionId>, now: nat) {
    && n == st.next && st'.next == n + 1 && n in st'.sessions
    && st'.sessions[n].userId == user && st'.sessions[n].refreshTokenHash == n && st'.sessions[n].accessJti == Some(n)
    && st'.sessions[n].ip == ip && st'.sessions[n].userAgent == userAgent
    && st'.sessions[n].createdAt == now && st'.sessions[n].expiresAt == now + 604_800_000
    && st'.sessions[n].revokedAt == None && st'.sessions[n].rotatedFrom == from && st'.sessions[n].rotatedTo == None
    && st'.refreshExp == st.refreshExp[n := now / 1000 + 604_800]
    && st'.accessTokens == st.accessTokens[n := AccessClaims(user, now / 1000 + 900)]
  }

  /** A successful refresh. */
  lemma RefreshRenews(st: Auth, a: Action)
    requires Inv(st) && a.DoRefresh? && Perform(st, a).1.refresh.Refreshed?
    ensures var (st', answer) := Perform(st, a);
            var now := st.clock + a.wait + a.busy;
            && a.presented.RefreshToken? && a.presented.token in st.sessions
            && var token, row := a.presented.token, st.sessions[a.presented.token];
               && answer.refresh.user == row.userId
               && Opens(st, st', answer.refresh.successor, row.userId, a.ip, a.userAgent, Some(token), now)
               && st'.sessions.Keys == st.sessions.Keys + {st.next}
               && st'.sessions[token] == row.(revokedAt := Some(now), rotatedTo := Some(st.next))
               && (forall i | i in st.sessions && i != token :: st'.sessions[i] == st.sessions[i])
               && st'.denylist == st.denylist && SameAccounts(st, st')
  {
    RowsBelowNext(st.sessions, st.refreshExp, st.next);
    if Verified(st, a.presented, st.clock + a.wait) && a.presented.token in st.sessions {
      var token := a.presented.token;
      var (x, r) := RefreshRow(st, token, a.ip, a.userAgent, Now(st, a), a.reached);
      RefreshFinds(st, a, x, r);
      RefreshRowCases(st, token, a.ip, a.userAgent, Now(st, a), a.reached);
      ExchangeOpens(st, token, a.ip, a.userAgent, Now(st, a));
    } else {
      UnverifiedRefreshAnswers(st, a);
    }
  }

  lemma ExchangeOpens(st: Auth, id: SessionId, ip: Option<string>, agent: Option<string>, now: nat)
    requires id in st.sessions && st.next !in st.sessions
    ensures var st', row := Exchange(st, id, ip, agent, now), st.sessions[id];
            && Opens(st, st', st.next, row.userId, ip, agent, Some(id), now)
            && st'.sessions.Keys == st.sessions.Keys + {st.next}
            && st'.sessions[id] == row.(revokedAt := Some(now), rotatedTo := Some(st.next))
            && (forall i | i in st.sessions && i != id :: st'.sessions[i] == st.sessions[i])
            && st'.denylist == st.denylist && st'.accounts == st.accounts
  {
  }

  // ---------------------------------------------------------------- bulk revocation

  /** The token id of some unrevoked session of the user. */
  ghost predicate OfOpenSession(rows: Rows, user: UserId, jti: Jti) {
    exists i :: i in rows && rows[i].userId == user && rows[i].revokedAt == None && rows[i].accessJti == Some(jti)
  }

  /** Exactly the user's unrevoked rows are revoked, now. */
  ghost predicate RowsRevoked(rows: Rows, rows': Rows, user: UserId, now: nat) {
    && rows'.Keys == rows.Keys
    && forall i | i in rows ::
         var s := rows[i];
         rows'[i] == if s.userId == user && s.revokedAt == None then s.(revokedAt := Some(now)) else s
  }

  /** Exactly the caller's own token and, of the tokens of the user's unrevoked sessions, those whose
      writes arrive are on the denylist for fifteen minutes; every other entry is as it was. */
  ghost predicate TokensDenied(st: Auth, st': Auth, own: Option<Jti>, user: UserId, reached: set<Jti>, now: nat) {
    forall j: Jti ::
      if own == Some(j) || (OfOpenSession(st.sessions, user, j) && j in reached) then
        j in st'.denylist && st'.denylist[j] == now + 900_000
      else
        (j in st'.denylist <==> j in st.denylist) && (j in st.denylist ==> st'.denylist[j] == st.denylist[j])
  }

  lemma RevokeAllDoes(st: Auth, mid: Auth, own: Option<Jti>, user: UserId, now: nat, reached: set<Jti>)
    requires mid.sessions == st.sessions
    requires mid.denylist == if own.Some? then st.denylist[own.value := now + 900_000] else st.denylist
    ensures var st' := RevokeAll(mid, user, now, reached);
            && RowsRevoked(st.sessions, st'.sessions, user, now) && TokensDenied(st, st', own, user, reached, now)
            && st'.accounts == mid.accounts && SameTokens(mid, st') && st'.clock == mid.clock
  {
    forall j: Jti ensures j in ActiveJtis(st.sessions, user) <==> OfOpenSession(st.sessions, user, j) {
      if OfOpenSession(st.sessions, user, j) {
        var i :| i in st.sessions && st.sessions[i].userId == user && st.sessions[i].revokedAt == None
                 && st.sessions[i].accessJti == Some(j);
        assert Unrevoked(st.sessions[i], user);
      }
    }
  }

  /** How many unrevoked sessions the user has. */
  function OpenSessions(rows: Rows, user: UserId): nat {
    |set i | i in rows && rows[i].userId == user && rows[i].revokedAt == None|
  }

  lemma OpenSessionsCounted(rows: Rows, user: UserId)
    ensures OpenSessions(rows, user) == |UnrevokedOf(rows, user)|
  {
    assert UnrevokedOf(rows, user) == set i | i in rows && rows[i].userId == user && rows[i].revokedAt == None;
  }

  lemma RefreshSweepIs(st: Auth, a: Action)
    requires Inv(st) && a.DoRefresh? && (Perform(st, a).1.refresh.ReuseDetected? || Perform(st, a).1.refresh.Denied?)
    ensures a.presented.RefreshToken? && a.presented.token in st.sessions
    ensures var user := st.sessions[a.presented.token].userId;
            && Perform(st, a).0 == RevokeAll(st, user, Now(st, a), a.reached)
            && Perform(st, a).1.refresh.revoked == |UnrevokedOf(st.sessions, user)|
  {
    if Verified(st, a.presented, st.clock + a.wait) && a.presented.token in st.sessions {
      var token := a.presented.token;
      var (x, r) := RefreshRow(st, token, a.ip, a.userAgent, Now(st, a), a.reached);
      RefreshFinds(st, a, x, r);
      RefreshRowCases(st, token, a.ip, a.userAgent, Now(st, a), a.reached);
    } else {
      UnverifiedRefreshAnswers(st, a);
    }
  }

  /** All sessions of the user are revoked, and nothing else happened but denied tokens. */
  ghost predicate Swept(st: Auth, st': Auth, user: UserId, reached: set<Jti>, now: nat) {
    && RowsRevoked(st.sessions, st'.sessions, user, now) && TokensDenied(st, st', None, user, reached, now)
    && SameAccounts(st, st') && SameTokens(st, st')
  }

  lemma RevokeAllSweeps(st: Auth, st': Auth, user: UserId, now: nat, reached: set<Jti>)
    requires st' == RevokeAll(st, user, now, reached)
    ensures Swept(st, st', user, reached, now)
  {
    RevokeAllDoes(st, st, None, user, now, reached);
  }

  /** A refresh that detects reuse, or finds the account wanting, revokes all of the user's sessions,
      denies their access tokens, and says how many sessions there were. */
  lemma RefreshSweeps(st: Auth, a: Action)
    requires Inv(st) && a.DoRefresh? && (Perform(st, a).1.refresh.ReuseDetected? || Perform(st, a).1.refresh.Denied?)
    ensures a.presented.RefreshToken? && a.presented.token in st.sessions
    ensures var (st', answer) := Perform(st, a);
            var user := st.sessions[a.presented.token].userId;
            && Swept(st, st', user, a.reached, Now(st, a))
            && answer.refresh.revoked == OpenSessions(st.sessions, user)
  {
    RefreshSweepIs(st, a);
    var user := st.sessions[a.presented.token].userId;
    RevokeAllSweeps(st, Perform(st, a).0, user, Now(st, a), a.reached);
    OpenSessionsCounted(st.sessions, user);
  }

  // ---------------------------------------------------------------- login

  /** The login gets as far as the password comparison. */
  predicate MayLogIn(users: map<UserId, User>, user: UserId, at: nat) {
    user in users && !users[user].deleted && users[user].isActive && !Locks(users[user], at)
  }

  lemma LoginAnswers(st: Auth, a: Action)
    requires a.DoLogin?
    ensures var answer, may := Perform(st, a).1, MayLogIn(st.accounts.users, a.user, st.clock + a.wait);
            && answer.LoginAnswer?
            && (answer.login == Refused <==> !may)
            && (answer.login == Failed <==> may && !a.passwordOk && a.via.up)
            && (answer.login == Threw <==> may && !a.via.up)
            && (answer.login.LoggedIn? <==> may && a.passwordOk && a.via.up)
            && (answer.login == Refused ==> Perform(st, a).0 == st)
  {
  }

  /** Copies of the user's row are gone from the caller's memory tier and, if it answers, the shared one;
      all others are as they were. */
  ghost predicate CopiesDropped(cached: Copies, cached': Copies, user: UserId, via: Client) {
    forall key: (Tier, UserId) ::
      if key.1 == user && (key.0 == L1(via.proc) || (via.up && key.0 == L2)) then key !in cached'
      else (key in cached' <==> key in cached) && (key in cached ==> cached'[key] == cached[key])
  }

  /** Only the user's row changed, to `u`. */
  ghost predicate RowBecomes(st: Auth, st': Auth, user: UserId, u: User, via: Client) {
    && st'.accounts.users.Keys == st.accounts.users.Keys && user in st'.accounts.users && st'.accounts.users[user] == u
    && (forall x | x in st.accounts.users && x != user :: st'.accounts.users[x] == st.accounts.users[x])
    && CopiesDropped(st.accounts.cached, st'.accounts.cached, user, via)
  }

  lemma UpdateDoes(st: Auth, user: UserId, u: User, via: Client)
    requires user in st.accounts.users
    ensures RowBecomes(st, st.(accounts := AfterUpdate(st.accounts, user, u, via)), user, u, via)
  {
  }

  /** A wrong password counts one, and locks for fifteen minutes from the fifth on unless a lock runs. */
  lemma WrongPasswordDoes(st: Auth, a: Action)
    requires a.DoLogin? && MayLogIn(st.accounts.users, a.user, st.clock + a.wait) && !a.passwordOk
    ensures var st', u := Perform(st, a).0, st.accounts.users[a.user];
            var now := st.clock + a.wait + a.busy;
            var until := if u.failedLoginAttempts >= 4 && !Locks(u, now) then Some(now + 900_000) else u.lockedUntil;
            var u' := u.(failedLoginAttempts := u.failedLoginAttempts + 1, lockedUntil := until);
            && RowBecomes(st, st', a.user, u', a.via)
            && st'.sessions == st.sessions && st'.denylist == st.denylist && SameTokens(st, st')
  {
    UpdateDoes(st, a.user, AfterFailure(st.accounts.users[a.user], Now(st, a)), a.via);
  }

  /** The right password clears counter and lock; if the cache delete goes through, a session opens. */
  lemma RightPasswordDoes(st: Auth, a: Action)
    requires Inv(st) && a.DoLogin? && MayLogIn(st.accounts.users, a.user, st.clock + a.wait) && a.passwordOk
    ensures var (st', answer) := Perform(st, a);
            var u := st.accounts.users[a.user];
            && RowBecomes(st, st', a.user, u.(failedLoginAttempts := 0, lockedUntil := None), a.via)
            && st'.denylist == st.denylist
            && (if a.via.up then
                  && answer.LoginAnswer? && answer.login == LoggedIn(st.next)
                  && Opens(st, st', st.next, a.user, a.ip, a.userAgent, None, st.clock + a.wait + a.busy)
                  && st'.sessions.Keys == st.sessions.Keys + {st.next}
                  && (forall i | i in st.sessions :: st'.sessions[i] == st.sessions[i])
                else st'.sessions == st.sessions && SameTokens(st, st'))
  {
    RowsBelowNext(st.sessions, st.refreshExp, st.next);
    UpdateDoes(st, a.user, AfterReset(st.accounts.users[a.user]), a.via);
  }

  /** What a listing is: each row shown is an unrevoked, unexpired session of the user with its address,
      user agent and times; each such session is shown once; newest first. */
  lemma ListingIff(rows: Rows, user: UserId, now: nat, out: seq<SessionView>)
    ensures IsListing(rows, user, now, out) <==>
              && (forall k | 0 <= k < |out| :: ShownRow(rows, user, now, out[k]))
              && (forall i |
                    i in rows && rows[i].userId == user && rows[i].revokedAt == None && rows[i].expiresAt > now ::
                    exists k :: 0 <= k < |out| && out[k].id == i)
              && (forall k, l | 0 <= k < l < |out| :: out[k].id != out[l].id && out[k].createdAt >= out[l].createdAt)
  {
    forall i | Listed(rows, user, now, i)
      ensures i in rows && rows[i].userId == user && rows[i].revokedAt == None && rows[i].expiresAt > now {
    }
    forall i | i in rows && rows[i].userId == user && rows[i].revokedAt == None && rows[i].expiresAt > now
      ensures Listed(rows, user, now, i) {
    }
    forall k | 0 <= k < |out|
      ensures ShownRow(rows, user, now, out[k])
              <==> Listed(rows, user, now, out[k].id) && out[k] == View(out[k].id, rows[out[k].id]) {
    }
  }

  ghost predicate ShownRow(rows: Rows, user: UserId, now: nat, v: SessionView) {
    && v.id in rows
    && var s := rows[v.id];
       && s.userId == user && s.revokedAt == None && s.expiresAt > now && v.ip == s.ip && v.userAgent == s.userAgent
       && v.createdAt == s.createdAt && v.expiresAt == s.expiresAt
  }

  /** A session just opened is in the listing, with the request's address and user agent, until it is
      revoked or its seven days are over. */
  lemma OpenedIsListed(st: Auth, st': Auth, n: SessionId, user: UserId, ip: Option<string>, userAgent: Option<string>,
                       from: Option<SessionId>, now: nat, later: nat, out: seq<SessionView>)
    requires Opens(st, st', n, user, ip, userAgent, from, now)
    requires IsListing(st'.sessions, user, later, out) && later < now + 604_800_000
    ensures exists k :: 0 <= k < |out| && out[k].id == n && out[k].ip == ip && out[k].userAgent == userAgent
                        && out[k].createdAt == now && out[k].expiresAt == now + 604_800_000
  {
    assert Listed(st'.sessions, user, later, n);
    var k :| 0 <= k < |out| && out[k].id == n;
    assert out[k] == View(n, st'.sessions[n]);
  }

  // ---------------------------------------------------------------- logout

  /** Logging out denies the caller's own token and revokes the one session named, if it is the user's
      own; if the first write fails nothing happens. */
  lemma LogoutDoes(st: Auth, a: Action)
    requires a.DoLogout?
    ensures var st', now := Perform(st, a).0, st.clock + a.wait;
            if a.jti.Some? && !a.via.up then st' == st
            else
              && SameAccounts(st, st') && SameTokens(st, st')
              && st'.denylist == (if a.jti.Some? then st.denylist[a.jti.value := now + 900_000] else st.denylist)
              && st'.sessions.Keys == st.sessions.Keys
              && forall i | i in st.sessions ::
                   var s := st.sessions[i];
                   var named := s.userId == a.user && a.token == Some(s.refreshTokenHash) && s.revokedAt == None;
                   st'.sessions[i] == if named then s.(revokedAt := Some(now)) else s
  {
  }

  /** Logging out everywhere denies the caller's own token and revokes all of the user's sessions; if the
      first write fails nothing happens. */
  lemma LogoutAllDoes(st: Auth, a: Action)
    requires a.DoLogoutAll?
    ensures var st', now := Perform(st, a).0, Now(st, a);
            if a.jti.Some? && !a.via.up then st' == st
            else
              && RowsRevoked(st.sessions, st'.sessions, a.user, now)
              && TokensDenied(st, st', a.jti, a.user, a.reached, now) && SameAccounts(st, st') && SameTokens(st, st')
  {
    if a.jti.None? || a.via.up {
      LogoutAllIs(st, a);
      RevokeAllDoes(st, DenySelf(st, a.jti, Now(st, a)), a.jti, a.user, Now(st, a), a.reached);
    }
  }

  lemma LogoutAllIs(st: Auth, a: Action)
    requires a.DoLogoutAll? && (a.jti.None? || a.via.up)
    ensures Perform(st, a).0 == RevokeAll(DenySelf(st, a.jti, Now(st, a)), a.user, Now(st, a), a.reached)
  {
  }

  // ---------------------------------------------------------------- account changes

  /** The user's row becomes `u`, and all of the user's sessions are revoked if `sweep`, else none. */
  ghost predicate Updated(st: Auth, st': Auth, user: UserId, u: User, via: Client, sweep: bool, reached: set<Jti>,
                          now: nat) {
    && RowBecomes(st, st', user, u, via) && SameTokens(st, st')
    && if sweep then
         RowsRevoked(st.sessions, st'.sessions, user, now) && TokensDenied(st, st', None, user, reached, now)
       else st'.sessions == st.sessions && st'.denylist == st.denylist
  }

  lemma UpdateSweeps(st: Auth, updated: Auth, st': Auth, user: UserId, u: User, via: Client, sweep: bool,
                     reached: set<Jti>, now: nat)
    requires user in st.accounts.users && updated == st.(accounts := AfterUpdate(st.accounts, user, u, via))
    requires st' == if sweep then RevokeAll(updated, user, now, reached) else updated
    ensures Updated(st, st', user, u, via, sweep, reached, now)
  {
    UpdateDoes(st, user, u, via);
    RevokeAllDoes(st, updated, None, user, now, reached);
  }

  /** The password is replaced and all sessions revoked; a wrong current password or a missing account
      changes nothing, and a failing cache delete keeps the sessions. */
  lemma ChangePasswordDoes(st: Auth, a: Action)
    requires a.DoChangePassword?
    ensures var (st', answer) := Perform(st, a);
            var users, now := st.accounts.users, Now(st, a);
            var there := a.user in users && !users[a.user].deleted;
            && answer.AdminAnswer?
            && (answer.admin == NotFound <==> !there) && (answer.admin == WrongPassword <==> there && !a.currentOk)
            && (answer.admin == CacheFailed <==> there && a.currentOk && !a.via.up)
            && (answer.admin == Done <==> there && a.currentOk && a.via.up)
            && if there && a.currentOk then
                 Updated(st, st', a.user, users[a.user].(password := a.hashed), a.via, a.via.up, a.reached, now)
               else st' == st
  {
    if a.user in st.accounts.users && !st.accounts.users[a.user].deleted && a.currentOk {
      ChangePasswordIs(st, a);
      var u := st.accounts.users[a.user].(password := a.hashed);
      var updated := st.(accounts := AfterUpdate(st.accounts, a.user, u, a.via));
      UpdateSweeps(st, updated, Perform(st, a).0, a.user, u, a.via, a.via.up, a.reached, Now(st, a));
    }
  }

  lemma ChangePasswordIs(st: Auth, a: Action)
    requires a.DoChangePassword? && a.user in st.accounts.users && !st.accounts.users[a.user].deleted && a.currentOk
    ensures var u := st.accounts.users[a.user].(password := a.hashed);
            var updated := st.(accounts := AfterUpdate(st.accounts, a.user, u, a.via));
            Perform(st, a) == if a.via.up then (RevokeAll(updated, a.user, Now(st, a), a.reached), AdminAnswer(Done))
                              else (updated, AdminAnswer(CacheFailed))
  {
  }

  /** The flag is written; a deactivation whose cache delete goes through revokes all sessions. */
  lemma SetUserActiveDoes(st: Auth, a: Action)
    requires a.DoSetUserActive?
    ensures var (st', answer) := Perform(st, a);
            var users, now := st.accounts.users, Now(st, a);
            var there := a.user in users && !users[a.user].deleted;
            && answer.AdminAnswer?
            && (answer.admin == NotFound <==> !there) && (answer.admin == CacheFailed <==> there && !a.via.up)
            && (answer.admin == Done <==> there && a.via.up)
            && if there then
                 Updated(st, st', a.user, users[a.user].(isActive := a.active), a.via, a.via.up && !a.active,
                         a.reached, now)
               else st' == st
  {
    if a.user in st.accounts.users && !st.accounts.users[a.user].deleted {
      SetUserActiveIs(st, a);
      var u := st.accounts.users[a.user].(isActive := a.active);
      var updated := st.(accounts := AfterUpdate(st.accounts, a.user, u, a.via));
      UpdateSweeps(st, updated, Perform(st, a).0, a.user, u, a.via, a.via.up && !a.active, a.reached, Now(st, a));
    }
  }

  lemma SetUserActiveIs(st: Auth, a: Action)
    requires a.DoSetUserActive? && a.user in st.accounts.users && !st.accounts.users[a.user].deleted
    ensures var u := st.accounts.users[a.user].(isActive := a.active);
            var updated := st.(accounts := AfterUpdate(st.accounts, a.user, u, a.via));
            Perform(st, a) == if !a.via.up then (updated, AdminAnswer(CacheFailed))
                              else if a.active then (updated, AdminAnswer(Done))
                              else (RevokeAll(updated, a.user, Now(st, a), a.reached), AdminAnswer(Done))
  {
  }

  /** An active account with no failures is added, if the name is free. */
  lemma RegisterDoes(st: Auth, a: Action)
    requires a.DoRegister?
    ensures var st' := Perform(st, a).0;
            if a.user in st.accounts.users then st' == st
            else
              && st'.accounts.users.Keys == st.accounts.users.Keys + {a.user}
              && st'.accounts.users[a.user] == User(true, false, 0, None, a.hashed)
              && (forall x | x in st.accounts.users :: st'.accounts.users[x] == st.accounts.users[x])
              && st'.accounts.cached == st.accounts.cached && st'.sessions == st.sessions && st'.denylist == st.denylist
              && SameTokens(st, st')
  {
  }

  /** A purge removes exactly the rows that expired longer than the grace days ago and were not spared,
      and unlinks their successors. */
  lemma PurgeDoes(st: Auth, a: Action)
    requires a.DoPurge?
    ensures var st', now := Perform(st, a).0, st.clock + a.wait;
            && SameAccounts(st, st') && SameTokens(st, st') && st'.denylist == st.denylist
            && (forall i :: i in st'.sessions <==>
                  && i in st.sessions
                  && !(a.enabled && st.sessions[i].expiresAt + a.graceDays * 86_400_000 < now && i !in a.spared))
            && (forall i | i in st'.sessions ::
                  var from := st.sessions[i].rotatedFrom;
                  st'.sessions[i] == st.sessions[i].(rotatedFrom :=
                    if from.Some? && from.value in st.sessions && from.value !in st'.sessions then None else from))
  {
  }

  // ---------------------------------------------------------------- request validation

  /** The row a process sees: its own unexpired copy, else the shared one, else the stored row. */
  function Seen(a: Accounts, proc: Proc, user: UserId, now: nat): Option<User> {
    if (L1(proc), user) in a.cached && now < a.cached[(L1(proc), user)].until then Some(a.cached[(L1(proc), user)].user)
    else if (L2, user) in a.cached && now < a.cached[(L2, user)].until then Some(a.cached[(L2, user)].user)
    else if user in a.users && !a.users[user].deleted then Some(a.users[user])
    else None
  }

  lemma ValidateAnswers(st: Auth, a: Action)
    requires a.DoValidate?
    ensures var v, now := Perform(st, a).1, st.clock + a.wait;
            && v.ValidateAnswer?
            && match a.presented
               case Garbage => v.verdict == InvalidToken
               case RefreshToken(t) =>
                 var verifies := t in st.refreshExp && now / 1000 < st.refreshExp[t];
                 v.verdict == if verifies then WrongTokenType else ExpiredToken
               case AccessToken(j) =>
                 if j !in st.accessTokens then v.verdict == InvalidToken
                 else if now / 1000 >= st.accessTokens[j].exp then v.verdict == ExpiredToken
                 else if j in st.denylist && now < st.denylist[j] then v.verdict == Verdict.Revoked
                 else
                   var u := Seen(st.accounts, a.proc, st.accessTokens[j].sub, now);
                   && (v.verdict == InvalidToken <==> u.None?)
                   && (v.verdict == Deactivated <==> u.Some? && !u.value.isActive)
                   && (v.verdict == AccountLocked <==> u.Some? && u.value.isActive && Locks(u.value, now))
                   && (v.verdict.Accepted? <==> u.Some? && u.value.isActive && !Locks(u.value, now))
                   && (v.verdict.Accepted? ==> v.verdict.user == u.value)
  {
  }

  /** What a validation that gets as far as the user leaves in the cache: nothing after a copy of its own;
      a promoted copy, if there are such, after a shared one; else the stored row in both tiers for 30
      seconds. Nothing else changes. */
  lemma ValidateDoes(st: Auth, a: Action)
    requires a.DoValidate? && a.presented.AccessToken? && a.presented.jti in st.accessTokens
    requires var j, now := a.presented.jti, st.clock + a.wait;
             now / 1000 < st.accessTokens[j].exp && !(j in st.denylist && now < st.denylist[j])
    ensures var st', now, x := Perform(st, a).0, st.clock + a.wait, st.accounts;
            var user := st.accessTokens[a.presented.jti].sub;
            var own, shared := (L1(a.proc), user), (L2, user);
            && st' == st.(accounts := st'.accounts) && st'.accounts.users == x.users
            && st'.accounts.cached
               == if own in x.cached && now < x.cached[own].until then x.cached
                  else if shared in x.cached && now < x.cached[shared].until then
                    if a.promote.Some? then x.cached[own := CachedUser(x.cached[shared].user, now + a.promote.value)]
                    else x.cached
                  else if user in x.users && !x.users[user].deleted then
                    var copy := CachedUser(x.users[user], now + 30_000);
                    x.cached[own := copy][shared := copy]
                  else x.cached
  {
  }
}
