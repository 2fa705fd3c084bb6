/**
 The authentication services as classes over the session state. Every public method is one step of
 the state machine of module Sessions, so what is proved there of all runs holds of every sequence
 of calls. `wait` and `busy` are the times that pass before and during a call.
 */
module AuthServices {
  import opened Wrappers
  import opened CacheTiers
  import opened Users
  import opened Sessions
  import opened SessionInvariants

  lemma DenylistedOneMore(denylist: map<Jti, nat>, done: set<Jti>, jti: Jti, reached: set<Jti>, now: nat)
    ensures Denylisted(denylist, done + {jti}, reached, now)
            == if jti in reached then Denylisted(denylist, done, reached, now)[jti := now + ACCESS_TOKEN_EXPIRES_MS]
              else Denylisted(denylist, done, reached, now)
  {
  }

  lemma RefreshStepDone(st: Auth, a: Action, x: Auth, r: RefreshOutcome)
    requires Inv(st) && a.DoRefresh? && x.clock == Now(st, a)
    requires (x.(clock := st.clock), r)
             == Refresh(st, a.presented, a.ip, a.userAgent, st.clock + a.wait, Now(st, a), a.reached)
    ensures x == Step(st, a) && RefreshAnswer(r) == Perform(st, a).1 && Inv(x)
  {
    RefreshStepIs(st, a, x, r);
    StepKeepsInv(st, a);
  }

  lemma RefreshStepIs(st: Auth, a: Action, x: Auth, r: RefreshOutcome)
    requires a.DoRefresh? && x.clock == Now(st, a)
    requires (x.(clock := st.clock), r)
             == Refresh(st, a.presented, a.ip, a.userAgent, st.clock + a.wait, Now(st, a), a.reached)
    ensures x == Step(st, a) && RefreshAnswer(r) == Perform(st, a).1
  {
  }

  class AuthService {
    const usersService: UsersService
    var sessions: Rows
    var denylist: map<Jti, nat>
    var refreshExp: map<Token, nat>
    var accessTokens: map<Jti, AccessClaims>
    var next: nat
    var clock: nat

    function State(): Auth
      reads this, usersService
    {
      Auth(usersService.State(), sessions, denylist, refreshExp, accessTokens, next, clock)
    }

    ghost predicate Valid()
      reads this, usersService
    {
      Inv(State())
    }

    constructor (usersService: UsersService)
      requires usersService.cached == map[]
      ensures this.usersService == usersService && Valid()
      ensures State() == Init(usersService.users)
    {
      this.usersService := usersService;
      sessions, denylist, refreshExp, accessTokens, next, clock := map[], map[], map[], map[], 0, 0;
    }

    // -------------------------------------------------------------- helpers

    method BuildTokenPair(user: UserId, now: nat) returns (refreshToken: Token, accessJti: Jti, expiresAt: nat)
      modifies this`refreshExp, this`accessTokens, this`next
      ensures next == old(next) + 1 && refreshToken == accessJti == old(next) && expiresAt == now + 604_800_000
      ensures refreshExp == old(refreshExp)[refreshToken := ExpClaim(now, REFRESH_TOKEN_EXPIRES_MS)]
      ensures accessTokens == old(accessTokens)[accessJti := AccessClaims(user, ExpClaim(now, ACCESS_TOKEN_EXPIRES_MS))]
    {
      refreshToken, accessJti := next, next;
      next := next + 1;
      accessTokens := accessTokens[accessJti := AccessClaims(user, now / 1000 + 15 * 60)];
      refreshExp := refreshExp[refreshToken := now / 1000 + 7 * 24 * 60 * 60];
      expiresAt := now + 7 * DAY_MS;
    }

    /** One cache write for each unrevoked session; `ok` when all of them arrived. */
    method DenylistActiveAccessJtis(user: UserId, now: nat, reached: set<Jti>) returns (ok: bool)
      modifies this`denylist
      ensures denylist == Denylisted(old(denylist), ActiveJtis(sessions, user), reached, now)
      ensures ok <==> ActiveJtis(sessions, user) <= reached
    {
      var jtis := ActiveJtis(sessions, user);
      var pending := jtis;
      ghost var done: set<Jti> := {};
      ok := true;
      while pending != {}
        invariant done + pending == jtis && done !! pending
        invariant denylist == Denylisted(old(denylist), done, reached, now)
        invariant ok <==> done <= reached
        decreases |pending|
      {
        var jti :| jti in pending;
        DenylistedOneMore(old(denylist), done, jti, reached, now);
        pending := pending - {jti};
        done := done + {jti};
        if jti in reached {
          denylist := denylist[jti := now + ACCESS_TOKEN_EXPIRES_MS];
        } else {
          ok := false;
        }
      }
      assert done == jtis;
    }

    /** A failed denylist write does not keep the rows from being revoked. */
    method RevokeAllUserSessions(user: UserId, now: nat, reached: set<Jti>) returns (affected: nat)
      modifies this`sessions, this`denylist
      ensures State() == RevokeAll(old(State()), user, now, reached)
      ensures affected == |UnrevokedOf(old(sessions), user)|
    {
      var denied := DenylistActiveAccessJtis(user, now, reached);
      var matching := set i | i in sessions && sessions[i].userId == user && sessions[i].revokedAt.None?;
      assert matching == UnrevokedOf(sessions, user);
      affected := |matching|;
      sessions := map i | i in sessions :: if i in matching then sessions[i].(revokedAt := Some(now)) else sessions[i];
      assert sessions == RevokeRows(old(sessions), user, now);
    }

    method RevokeSessionByRefreshHash(user: UserId, hash: Token, now: nat)
      modifies this`sessions
      ensures sessions == RevokeToken(old(sessions), user, hash, now)
    {
      var matching := set i | i in sessions && sessions[i].userId == user && sessions[i].refreshTokenHash == hash
        && sessions[i].revokedAt.None?;
      sessions := map i | i in sessions :: if i in matching then sessions[i].(revokedAt := Some(now)) else sessions[i];
    }

    method CreateTokensAndSession(user: UserId, ip: Option<string>, userAgent: Option<string>, now: nat)
      returns (session: SessionId)
      modifies this`sessions, this`refreshExp, this`accessTokens, this`next
      ensures State() == NewSession(old(State()), user, ip, userAgent, None, now) && session == old(next)
    {
      var refreshToken, accessJti, expiresAt := BuildTokenPair(user, now);
      session := refreshToken;
      sessions := sessions[session := Session(user, refreshToken, Some(accessJti), ip, userAgent, now, expiresAt, None,
                                              None, None)];
    }

    // -------------------------------------------------------------- requests

    method Login(user: UserId, passwordOk: bool, ip: Option<string>, userAgent: Option<string>, via: Client, wait: nat,
                 busy: nat)
      returns (r: LoginOutcome)
      requires Valid()
      modifies this, usersService
      ensures var a := DoLogin(user, passwordOk, ip, userAgent, via, wait, busy);
              State() == Step(old(State()), a) && LoginAnswer(r) == Perform(old(State()), a).1
      ensures Valid()
    {
      StepKeepsInv(State(), DoLogin(user, passwordOk, ip, userAgent, via, wait, busy));
      var start, end := clock + wait, clock + wait + busy;
      r := LoginAt(user, passwordOk, ip, userAgent, via, start, end);
      clock := end;
    }

    /** login, with its two readings of the time. */
    method LoginAt(user: UserId, passwordOk: bool, ip: Option<string>, userAgent: Option<string>, via: Client,
                   start: nat, end: nat)
      returns (r: LoginOutcome)
      modifies this`sessions, this`refreshExp, this`accessTokens, this`next, usersService
      ensures (State(), r) == Sessions.Login(old(State()), user, passwordOk, ip, userAgent, start, end, via)
    {
      if user !in usersService.users || usersService.users[user].deleted || !usersService.users[user].isActive {
        return Refused;
      }
      var lockedUntil := usersService.users[user].lockedUntil;
      if lockedUntil.Some? && lockedUntil.value > start {
        return Refused;
      }
      if !passwordOk {
        var recorded := usersService.RecordFailedLogin(user, end, via);
        return if recorded.Ok? then Failed else Threw;
      }
      var affected := usersService.ResetFailedLogin(user, via);
      if affected.None? {
        return Threw;
      }
      var session := CreateTokensAndSession(user, ip, userAgent, end);
      return LoggedIn(session);
    }

    method VerifyRefreshToken(presented: Presented, now: nat) returns (refusal: Option<RefreshOutcome>)
      ensures refusal == Precheck(State(), presented, now)
    {
      match presented
      case Garbage =>
        return Some(InvalidOrExpired);
      case AccessToken(jti) =>
        if jti !in accessTokens || now / 1000 >= accessTokens[jti].exp { return Some(InvalidOrExpired); }
        return Some(NotARefreshToken);
      case RefreshToken(token) =>
        if token !in refreshExp || now / 1000 >= refreshExp[token] { return Some(InvalidOrExpired); }
        return None;
    }

    method Refresh(presented: Presented, ip: Option<string>, userAgent: Option<string>, reached: set<Jti>, wait: nat,
                   busy: nat)
      returns (r: RefreshOutcome)
      requires Valid()
      modifies this
      ensures var a := DoRefresh(presented, ip, userAgent, reached, wait, busy);
              State() == Step(old(State()), a) && RefreshAnswer(r) == Perform(old(State()), a).1
      ensures Valid()
    {
      ghost var st, a := State(), DoRefresh(presented, ip, userAgent, reached, wait, busy);
      var verifiedAt, now := clock + wait, clock + wait + busy;
      r := RefreshAt(presented, ip, userAgent, reached, verifiedAt, now);
      ghost var done := State();
      clock := now;
      assert State() == done.(clock := now) && done.clock == st.clock;
      RefreshStepDone(st, a, State(), r);
    }

    /** refresh, with its two readings of the time. The refusals that are thrown inside the
        transaction are raised before anything is written. */
    method RefreshAt(presented: Presented, ip: Option<string>, userAgent: Option<string>, reached: set<Jti>,
                     verifiedAt: nat, now: nat)
      returns (r: RefreshOutcome)
      requires RowInv(sessions, refreshExp, next)
      modifies this`sessions, this`denylist, this`refreshExp, this`accessTokens, this`next
      ensures (State(), r) == Sessions.Refresh(old(State()), presented, ip, userAgent, verifiedAt, now, reached)
    {
      var refusal := VerifyRefreshToken(presented, verifiedAt);
      if refusal.Some? {
        return refusal.value;
      }
      var token := presented.token;
      FindByHashIsExact(sessions, refreshExp, next, token);
      if id :| id in sessions && sessions[id].refreshTokenHash == token {
        assert GoodRow(refreshExp, next, id, sessions[id]);
        r := ExchangeRow(id, ip, userAgent, now, reached);
      } else {
        return UnknownToken;
      }
    }

    /** The transaction, once the locked read has returned a row. */
    method ExchangeRow(id: SessionId, ip: Option<string>, userAgent: Option<string>, now: nat, reached: set<Jti>)
      returns (r: RefreshOutcome)
      requires id in sessions
      modifies this`sessions, this`denylist, this`refreshExp, this`accessTokens, this`next
      ensures (State(), r) == RefreshRow(old(State()), id, ip, userAgent, now, reached)
    {
      var session := sessions[id];
      if session.revokedAt.Some? {
        if session.rotatedTo.Some? {
          return AlreadyRotated;
        }
        var revoked := RevokeAllUserSessions(session.userId, now, reached);
        return ReuseDetected(revoked);
      }
      if session.expiresAt < now {
        return SessionExpired;
      }
      var users, user := usersService.users, session.userId;
      if user !in users || users[user].deleted || !users[user].isActive
        || (users[user].lockedUntil.Some? && users[user].lockedUntil.value > now) {
        var reason :=
          if user !in users then Missing
          else if users[user].deleted then Deleted
          else if !users[user].isActive then Inactive
          else Locked;
        var revoked := RevokeAllUserSessions(user, now, reached);
        return Denied(reason, revoked);
      }
      var refreshToken, accessJti, expiresAt := BuildTokenPair(user, now);
      var newId := refreshToken;
      sessions := sessions[newId := Session(user, refreshToken, Some(accessJti), ip, userAgent, now, expiresAt, None,
                                            Some(id), None)];
      sessions := sessions[id := sessions[id].(revokedAt := Some(now), rotatedTo := Some(newId))];
      return Refreshed(user, newId);
    }

    method ChangePassword(user: UserId, currentOk: bool, hashed: string, via: Client, reached: set<Jti>, wait: nat)
      returns (r: AdminOutcome)
      requires Valid()
      modifies this, usersService
      ensures var a := DoChangePassword(user, currentOk, hashed, via, reached, wait);
              State() == Step(old(State()), a) && AdminAnswer(r) == Perform(old(State()), a).1
      ensures Valid()
    {
      StepKeepsInv(State(), DoChangePassword(user, currentOk, hashed, via, reached, wait));
      clock := clock + wait;
      if user !in usersService.users || usersService.users[user].deleted {
        return NotFound;
      }
      if !currentOk {
        return WrongPassword;
      }
      var affected := usersService.UpdatePassword(user, hashed, via);
      if affected.None? {
        return CacheFailed;
      }
      var revoked := RevokeAllUserSessions(user, clock, reached);
      return Done;
    }

    method Logout(user: UserId, accessJti: Option<Jti>, refreshToken: Option<Token>, via: Client, wait: nat)
      requires Valid()
      modifies this
      ensures State() == Step(old(State()), DoLogout(user, accessJti, refreshToken, via, wait))
      ensures Valid()
    {
      StepKeepsInv(State(), DoLogout(user, accessJti, refreshToken, via, wait));
      clock := clock + wait;
      if accessJti.Some? {
        if !via.up { return; }
        denylist := denylist[accessJti.value := clock + ACCESS_TOKEN_EXPIRES_MS];
      }
      if refreshToken.Some? {
        RevokeSessionByRefreshHash(user, refreshToken.value, clock);
      }
    }

    method LogoutAll(user: UserId, accessJti: Option<Jti>, via: Client, reached: set<Jti>, wait: nat)
      requires Valid()
      modifies this
      ensures State() == Step(old(State()), DoLogoutAll(user, accessJti, via, reached, wait))
      ensures Valid()
    {
      StepKeepsInv(State(), DoLogoutAll(user, accessJti, via, reached, wait));
      var now := clock + wait;
      LogoutAllAt(user, accessJti, via, reached, now);
      clock := now;
    }

    /** If the caller's own token cannot be denylisted, the exception ends the request. */
    method LogoutAllAt(user: UserId, accessJti: Option<Jti>, via: Client, reached: set<Jti>, now: nat)
      modifies this`sessions, this`denylist
      ensures State() == Sessions.LogoutAll(old(State()), user, accessJti, now, via, reached)
    {
      if accessJti.Some? {
        if !via.up { return; }
        denylist := denylist[accessJti.value := now + ACCESS_TOKEN_EXPIRES_MS];
      }
      var revoked := RevokeAllUserSessions(user, now, reached);
    }

    /** The query: newest first, ties in any order. */
    method FindActive(user: UserId, now: nat) returns (ids: seq<SessionId>)
      ensures forall i :: i in ids <==> Listed(sessions, user, now, i)
      ensures NewestFirst(sessions, ids)
    {
      var found := set i | i in sessions && sessions[i].userId == user && sessions[i].revokedAt.None?
        && sessions[i].expiresAt > now;
      ids := [];
      while found != {}
        invariant forall i :: i in found || i in ids <==> Listed(sessions, user, now, i)
        invariant NewestFirst(sessions, ids)
        invariant forall k, i | 0 <= k < |ids| && i in found ::
                    ids[k] != i && sessions[i].createdAt <= sessions[ids[k]].createdAt
        decreases |found|
      {
        ghost var latest := Newest(sessions, found);
        var i :| i in found && forall j | j in found :: sessions[j].createdAt <= sessions[i].createdAt;
        ids := ids + [i];
        found := found - {i};
      }
    }

    method ListSessions(user: UserId, now: nat) returns (out: seq<SessionView>)
      ensures IsListing(sessions, user, now, out)
    {
      var ids := FindActive(user, now);
      var rows := sessions;
      assert forall k | 0 <= k < |ids| :: ids[k] in ids;
      out := seq(|ids|, k requires 0 <= k < |ids| =>
        SessionView(ids[k], rows[ids[k]].ip, rows[ids[k]].userAgent, rows[ids[k]].createdAt, rows[ids[k]].expiresAt));
      forall i | Listed(sessions, user, now, i) ensures exists k :: 0 <= k < |out| && out[k].id == i {
        var k :| 0 <= k < |ids| && ids[k] == i;
        assert out[k].id == i;
      }
    }
  }

  ghost predicate NewestFirst(rows: Rows, ids: seq<SessionId>) {
    && (forall k | 0 <= k < |ids| :: ids[k] in rows)
    && (forall k, l | 0 <= k < l < |ids| :: ids[k] != ids[l] && rows[ids[k]].createdAt >= rows[ids[l]].createdAt)
  }

  lemma {:induction false} Newest(rows: Rows, ids: set<SessionId>) returns (i: SessionId)
    requires ids != {} && forall j | j in ids :: j in rows
    ensures i in ids && forall j | j in ids :: rows[j].createdAt <= rows[i].createdAt
    decreases |ids|
  {
    i :| i in ids;
    if ids != {i} {
      var j := Newest(rows, ids - {i});
      if rows[j].createdAt > rows[i].createdAt { i := j; }
    }
  }

  class UserAdminService {
    const usersService: UsersService
    const sessionRevocation: AuthService

    constructor (usersService: UsersService, sessionRevocation: AuthService)
      ensures this.usersService == usersService && this.sessionRevocation == sessionRevocation
    {
      this.usersService, this.sessionRevocation := usersService, sessionRevocation;
    }

    method SetUserActive(user: UserId, isActive: bool, via: Client, reached: set<Jti>, wait: nat)
      returns (r: AdminOutcome)
      requires sessionRevocation.usersService == usersService && sessionRevocation.Valid()
      modifies sessionRevocation, usersService
      ensures var a := DoSetUserActive(user, isActive, via, reached, wait);
              sessionRevocation.State() == Step(old(sessionRevocation.State()), a)
                && AdminAnswer(r) == Perform(old(sessionRevocation.State()), a).1
      ensures sessionRevocation.Valid()
    {
      StepKeepsInv(sessionRevocation.State(), DoSetUserActive(user, isActive, via, reached, wait));
      sessionRevocation.clock := sessionRevocation.clock + wait;
      if user !in usersService.users || usersService.users[user].deleted {
        return NotFound;
      }
      var affected := usersService.SetActive(user, isActive, via);
      if affected.None? {
        return CacheFailed;
      }
      if affected.value == 0 {
        return NotFound;
      }
      if !isActive {
        var revoked := sessionRevocation.RevokeAllUserSessions(user, sessionRevocation.clock, reached);
      }
      return Done;
    }
  }

  class JwtStrategy {
    const auth: AuthService

    constructor (auth: AuthService)
      ensures this.auth == auth
    {
      this.auth := auth;
    }

    method Validate(presented: Presented, proc: Proc, promote: Option<nat>, wait: nat) returns (v: Verdict)
      requires auth.Valid()
      modifies auth, auth.usersService
      ensures var a := DoValidate(presented, proc, promote, wait);
              auth.State() == Step(old(auth.State()), a) && ValidateAnswer(v) == Perform(old(auth.State()), a).1
      ensures auth.Valid()
    {
      StepKeepsInv(auth.State(), DoValidate(presented, proc, promote, wait));
      auth.clock := auth.clock + wait;
      var now := auth.clock;
      match presented
      case Garbage =>
        return InvalidToken;
      case RefreshToken(token) =>
        if token !in auth.refreshExp || now / 1000 >= auth.refreshExp[token] { return ExpiredToken; }
        return WrongTokenType;
      case AccessToken(jti) =>
        if jti !in auth.accessTokens { return InvalidToken; }
        if now / 1000 >= auth.accessTokens[jti].exp { return ExpiredToken; }
        if jti in auth.denylist && now < auth.denylist[jti] { return Verdict.Revoked; }
        v := ValidateUser(auth.accessTokens[jti].sub, proc, promote, now);
    }

    /** The cache manager asks the process's own tier, then the shared one. */
    method Get(sub: UserId, proc: Proc, promote: Option<nat>, now: nat) returns (found: Option<User>)
      modifies auth.usersService`cached
      ensures found == Served(old(auth.usersService.State()), proc, sub, now)
      ensures found.Some? ==>
                auth.usersService.State() == CachedOrStored(old(auth.usersService.State()), proc, promote, sub, now).0
      ensures found.None? ==> auth.usersService.State() == old(auth.usersService.State())
    {
      var users := auth.usersService;
      if (L1(proc), sub) in users.cached && now < users.cached[(L1(proc), sub)].until {
        return Some(users.cached[(L1(proc), sub)].user);
      }
      if (L2, sub) in users.cached && now < users.cached[(L2, sub)].until {
        found := Some(users.cached[(L2, sub)].user);
        if promote.Some? {
          users.cached := users.cached[(L1(proc), sub) := CachedUser(found.value, now + promote.value)];
        }
        return found;
      }
      return None;
    }

    /** The cached user, or the stored one, which is then cached for 30 seconds in both tiers. */
    method ValidateUser(sub: UserId, proc: Proc, promote: Option<nat>, now: nat) returns (v: Verdict)
      modifies auth.usersService
      ensures var (a, u) := CachedOrStored(old(auth.usersService.State()), proc, promote, sub, now);
              auth.usersService.State() == a && v == Gate(u, now)
    {
      var users := auth.usersService;
      var found := Get(sub, proc, promote, now);
      if found.None? {
        if sub !in users.users || users.users[sub].deleted {
          return InvalidToken;
        }
        found := Some(users.users[sub]);
        var copy := CachedUser(found.value, now + USER_CACHE_TTL_MS);
        users.cached := users.cached[(L1(proc), sub) := copy];
        users.cached := users.cached[(L2, sub) := copy];
      }
      var user := found.value;
      if !user.isActive {
        return Deactivated;
      }
      if user.lockedUntil.Some? && user.lockedUntil.value > now {
        return AccountLocked;
      }
      return Accepted(user);
    }
  }
}
