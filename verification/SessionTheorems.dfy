/** The promises of refresh-token rotation and revocation, over every run. */
module SessionTheorems {
  import opened Wrappers
  import opened CacheTiers
  import opened Users
  import opened Sessions
  import opened SessionInvariants

  // ---------------------------------------------------------------- first presentation decides

  /** The token can never again be exchanged. */
  ghost predicate Spent(st: Auth, token: Token) {
    && token < st.next
    && (token !in st.sessions || st.sessions[token].revokedAt.Some?
        || (token in st.refreshExp && !Verifies(st.refreshExp[token], st.clock)))
  }

  lemma SpentIsRefused(st: Auth, token: Token, ip: Option<string>, agent: Option<string>, verifiedAt: nat, now: nat,
                       reached: set<Jti>)
    requires Inv(st) && Spent(st, token) && st.clock <= verifiedAt <= now
    ensures !Refresh(st, RefreshToken(token), ip, agent, verifiedAt, now, reached).1.Refreshed?
  {
    FindByHashIsExact(st.sessions, st.refreshExp, st.next, token);
  }

  /** Any outcome of presenting a token spends it. */
  lemma PresentingSpends(st: Auth, token: Token, ip: Option<string>, agent: Option<string>, verifiedAt: nat, now: nat,
                         reached: set<Jti>)
    requires Inv(st) && token < st.next && st.clock <= verifiedAt <= now
    ensures Spent(Refresh(st, RefreshToken(token), ip, agent, verifiedAt, now, reached).0.(clock := now), token)
  {
    FindByHashIsExact(st.sessions, st.refreshExp, st.next, token);
    if token in st.sessions && Precheck(st, RefreshToken(token), verifiedAt).None? {
      ExchangeSpends(st, token, ip, agent, now, reached);
    }
  }

  lemma ExchangeSpends(st: Auth, token: Token, ip: Option<string>, agent: Option<string>, now: nat, reached: set<Jti>)
    requires TokenInv(st.refreshExp, st.accessTokens, st.next, st.clock) && token < st.next
    requires token in st.sessions && GoodRow(st.refreshExp, st.next, token, st.sessions[token])
    ensures Spent(RefreshRow(st, token, ip, agent, now, reached).0.(clock := now), token)
  {
  }

  /** Revocation is never undone, time only passes, and no row is ever inserted under a hash that
      was already handed out. */
  ghost predicate NeverReopens(st: Auth, st': Auth) {
    && st.next <= st'.next && st.clock <= st'.clock
    && (forall i | i in st'.sessions && i < st.next ::
          i in st.sessions && (st.sessions[i].revokedAt.Some? ==> st'.sessions[i].revokedAt.Some?))
    && (forall t | t in st.refreshExp && t < st.next :: t in st'.refreshExp && st'.refreshExp[t] == st.refreshExp[t])
  }

  lemma ExchangeNeverReopens(st: Auth, id: SessionId, ip: Option<string>, agent: Option<string>, now: nat)
    requires id in st.sessions && st.clock <= now
    ensures NeverReopens(st, Exchange(st, id, ip, agent, now).(clock := now))
  {
  }

  lemma BulkNeverReopens(st: Auth, user: UserId, now: nat, reached: set<Jti>)
    requires st.clock <= now
    ensures NeverReopens(st, RevokeAll(st, user, now, reached).(clock := now))
  {
  }

  lemma RefreshRowNeverReopens(st: Auth, id: SessionId, ip: Option<string>, agent: Option<string>, now: nat,
                               reached: set<Jti>)
    requires id in st.sessions && st.clock <= now
    ensures NeverReopens(st, RefreshRow(st, id, ip, agent, now, reached).0.(clock := now))
  {
    RefreshRowCases(st, id, ip, agent, now, reached);
    var outcome := RefreshRow(st, id, ip, agent, now, reached).1;
    if outcome.Refreshed? {
      ExchangeNeverReopens(st, id, ip, agent, now);
    } else if Sweeps(outcome) {
      BulkNeverReopens(st, st.sessions[id].userId, now, reached);
    }
  }

  lemma StepNeverReopens(st: Auth, a: Action)
    requires Inv(st)
    ensures NeverReopens(st, Step(st, a))
  {
    StepIsMonotone(st, a);
    if ByOwnerOrAdmin(a) {
      OwnerActionsOnlyRevoke(st, a);
    } else if a.DoRefresh? {
      if a.presented.RefreshToken? {
        FindByHashIsExact(st.sessions, st.refreshExp, st.next, a.presented.token);
        if a.presented.token in st.sessions {
          RefreshRowNeverReopens(st, a.presented.token, a.ip, a.userAgent, Now(st, a), a.reached);
        }
      }
    } else {
      OthersNeverReopen(st, a);
    }
  }

  lemma OthersNeverReopen(st: Auth, a: Action)
    requires a.DoLogin? || a.DoPurge? || a.DoRegister? || a.DoValidate?
    ensures NeverReopens(st, Step(st, a))
  {
    if a.DoLogin? {
      LoginNeverReopens(st, a);
    } else if a.DoPurge? {
      PurgeNeverReopens(st, a);
    } else {
      StepIsMonotone(st, a);
    }
  }

  lemma LoginNeverReopens(st: Auth, a: Action)
    requires a.DoLogin?
    ensures NeverReopens(st, Step(st, a))
  {
    var user := a.user;
    if Perform(st, a).1.login.LoggedIn? {
      var reset := st.(accounts := AfterUpdate(st.accounts, user, AfterReset(st.accounts.users[user]), a.via));
      assert Perform(st, a).0 == NewSession(reset, user, a.ip, a.userAgent, None, Now(st, a));
    } else {
      assert Perform(st, a).0.sessions == st.sessions && Perform(st, a).0.refreshExp == st.refreshExp;
    }
  }

  lemma PurgeNeverReopens(st: Auth, a: Action)
    requires a.DoPurge?
    ensures NeverReopens(st, Step(st, a))
  {
  }

  lemma {:induction false} SpentForGood(st: Auth, actions: seq<Action>, token: Token)
    requires Inv(st) && Spent(st, token)
    ensures Inv(Run(st, actions)) && Spent(Run(st, actions), token)
    decreases |actions|
  {
    if actions != [] {
      StepKeepsInv(st, actions[0]);
      StepNeverReopens(st, actions[0]);
      SpentForGood(Step(st, actions[0]), actions[1..], token);
    }
  }

  lemma SpentIsRefusedForGood(st: Auth, between: seq<Action>, again: Action, token: Token)
    requires Inv(st) && Spent(st, token) && again.DoRefresh? && again.presented == RefreshToken(token)
    ensures !Perform(Run(st, between), again).1.refresh.Refreshed?
  {
    SpentForGood(st, between, token);
    var st' := Run(st, between);
    SpentIsRefused(st', token, again.ip, again.userAgent, st'.clock + again.wait, Now(st', again), again.reached);
  }

  /** First presentation decides. Whatever happened before and whatever the first presentation of
      a token returned, success or refusal, no later presentation of it succeeds. The token is any
      that has been signed by then. */
  lemma FirstPresentationDecides(users: map<UserId, User>, before: seq<Action>, first: Action, between: seq<Action>,
                                 again: Action, token: Token)
    requires first.DoRefresh? && first.presented == RefreshToken(token)
    requires again.DoRefresh? && again.presented == RefreshToken(token)
    requires token < Run(Init(users), before).next
    ensures var st := Run(Step(Run(Init(users), before), first), between);
            !Perform(st, again).1.refresh.Refreshed?
  {
    ReachableInv(users, before);
    var st0 := Run(Init(users), before);
    var st1 := Step(st0, first);
    PresentingSpends(st0, token, first.ip, first.userAgent, st0.clock + first.wait, Now(st0, first), first.reached);
    StepKeepsInv(st0, first);
    SpentIsRefusedForGood(st1, between, again, token);
  }

  // ---------------------------------------------------------------- bulk revocation

  /** The operation, with this outcome, revokes every session of the user. */
  predicate BulkRevokes(st: Auth, a: Action, answer: Answer, user: UserId) {
    match a
    case DoLogoutAll(u, jti, via, _, _) => u == user && (jti.None? || via.up)
    case DoChangePassword(u, _, _, _, _, _) => u == user && answer == AdminAnswer(Done)
    case DoSetUserActive(u, active, _, _, _) => u == user && !active && answer == AdminAnswer(Done)
    case DoRefresh(presented, _, _, _, _, _) =>
      && presented.RefreshToken? && presented.token in st.sessions && st.sessions[presented.token].userId == user
      && answer.RefreshAnswer? && (answer.refresh.ReuseDetected? || answer.refresh.Denied?)
    case _ => false
  }

  /** Every row of `user` is revoked, those revoked earlier keep their date, and all else in the
      table is as it was. */
  ghost predicate AllRevokedAt(rows: Rows, rows': Rows, user: UserId, now: nat) {
    && rows'.Keys == rows.Keys
    && UnrevokedOf(rows', user) == {}
    && forall i | i in rows ::
         rows'[i] == if Unrevoked(rows[i], user) then rows[i].(revokedAt := Some(now)) else rows[i]
  }

  lemma RevokeRowsIsExact(rows: Rows, user: UserId, now: nat)
    ensures AllRevokedAt(rows, RevokeRows(rows, user, now), user, now)
  {
  }

  /** The answers of refresh are exhaustive about the table: one row rotated, one user's rows
      revoked and counted although the request is refused, or nothing touched at all. */
  lemma RefreshTouchesWhatItSays(users: map<UserId, User>, before: seq<Action>, a: Action)
    requires a.DoRefresh?
    ensures var st := Run(Init(users), before);
            var (st', answer) := Perform(st, a);
            match answer.refresh
            case Refreshed(user, successor) =>
              && a.presented.RefreshToken? && a.presented.token in st.sessions && successor !in st.sessions
              && st.sessions[a.presented.token].revokedAt.None? && st.sessions[a.presented.token].userId == user
              && st'.sessions.Keys == st.sessions.Keys + {successor}
              && st'.sessions[a.presented.token]
                == st.sessions[a.presented.token].(revokedAt := Some(Now(st, a)), rotatedTo := Some(successor))
              && st'.sessions[successor].rotatedFrom == Some(a.presented.token)
                 && Unrevoked(st'.sessions[successor], user)
              && (forall i | i in st.sessions && i != a.presented.token :: st'.sessions[i] == st.sessions[i])
            case ReuseDetected(n) =>
              && a.presented.RefreshToken? && a.presented.token in st.sessions
              && st.sessions[a.presented.token].revokedAt.Some? && st.sessions[a.presented.token].rotatedTo.None?
              && var user := st.sessions[a.presented.token].userId;
                 AllRevokedAt(st.sessions, st'.sessions, user, Now(st, a)) && n == |UnrevokedOf(st.sessions, user)|
            case Denied(reason, n) =>
              && a.presented.RefreshToken? && a.presented.token in st.sessions
                 && st.sessions[a.presented.token].revokedAt.None?
              && var user := st.sessions[a.presented.token].userId;
                 && Denial(st.accounts.users, user, Now(st, a)) == Some(reason)
                 && AllRevokedAt(st.sessions, st'.sessions, user, Now(st, a)) && n == |UnrevokedOf(st.sessions, user)|
                    && n > 0
            case _ => st' == st
  {
    ReachableInv(users, before);
    var st := Run(Init(users), before);
    if a.presented.RefreshToken? {
      FindByHashIsExact(st.sessions, st.refreshExp, st.next, a.presented.token);
      RowsBelowNext(st.sessions, st.refreshExp, st.next);
      if a.presented.token in st.sessions {
        RefreshRowIsExact(st, a.presented.token, a.ip, a.userAgent, Now(st, a), a.reached);
      }
    }
  }

  lemma RefreshRowIsExact(st: Auth, id: SessionId, ip: Option<string>, agent: Option<string>, now: nat,
                          reached: set<Jti>)
    requires id in st.sessions && st.next !in st.sessions
    ensures var (st', outcome) := RefreshRow(st, id, ip, agent, now, reached);
            var s := st.sessions[id];
            match outcome
            case Refreshed(user, successor) =>
              && successor == st.next && s.revokedAt.None? && s.userId == user
              && st'.sessions.Keys == st.sessions.Keys + {successor}
              && st'.sessions[id] == s.(revokedAt := Some(now), rotatedTo := Some(successor))
              && st'.sessions[successor].rotatedFrom == Some(id) && Unrevoked(st'.sessions[successor], user)
              && (forall i | i in st.sessions && i != id :: st'.sessions[i] == st.sessions[i])
            case ReuseDetected(n) =>
              && s.revokedAt.Some? && s.rotatedTo.None?
              && AllRevokedAt(st.sessions, st'.sessions, s.userId, now) && n == |UnrevokedOf(st.sessions, s.userId)|
            case Denied(reason, n) =>
              && s.revokedAt.None? && Denial(st.accounts.users, s.userId, now) == Some(reason)
              && AllRevokedAt(st.sessions, st'.sessions, s.userId, now) && n == |UnrevokedOf(st.sessions, s.userId)|
                 && n > 0
            case _ => st' == st
  {
    RefreshRowCases(st, id, ip, agent, now, reached);
    var outcome := RefreshRow(st, id, ip, agent, now, reached).1;
    if outcome.Refreshed? {
      ExchangeIsExact(st, id, ip, agent, now);
    } else if Sweeps(outcome) {
      RevokeRowsIsExact(st.sessions, st.sessions[id].userId, now);
      assert st.sessions[id].revokedAt.None? ==> id in UnrevokedOf(st.sessions, st.sessions[id].userId);
    }
  }

  lemma ExchangeIsExact(st: Auth, id: SessionId, ip: Option<string>, agent: Option<string>, now: nat)
    requires id in st.sessions && st.next !in st.sessions
    ensures var st' := Exchange(st, id, ip, agent, now);
            && st'.sessions.Keys == st.sessions.Keys + {st.next}
            && st'.sessions[id] == st.sessions[id].(revokedAt := Some(now), rotatedTo := Some(st.next))
            && st'.sessions[st.next].rotatedFrom == Some(id) && Unrevoked(st'.sessions[st.next], st.sessions[id].userId)
            && (forall i | i in st.sessions && i != id :: st'.sessions[i] == st.sessions[i])
  {
  }

  /** The same exactness for every operation that revokes in bulk. */
  lemma BulkRevocationIsExact(users: map<UserId, User>, before: seq<Action>, a: Action, user: UserId)
    requires var st := Run(Init(users), before); BulkRevokes(st, a, Perform(st, a).1, user)
    ensures var st := Run(Init(users), before);
            AllRevokedAt(st.sessions, Step(st, a).sessions, user, Now(st, a))
  {
    ReachableInv(users, before);
    BulkRevokesAll(Run(Init(users), before), a, user);
  }

  lemma RevokeAllEffect(st: Auth, user: UserId, now: nat, reached: set<Jti>)
    ensures AllRevokedAt(st.sessions, RevokeAll(st, user, now, reached).sessions, user, now)
    ensures forall j | j in ActiveJtis(st.sessions, user) && j in reached ::
              j in RevokeAll(st, user, now, reached).denylist
                && RevokeAll(st, user, now, reached).denylist[j] == now + ACCESS_TOKEN_EXPIRES_MS
  {
    RevokeRowsIsExact(st.sessions, user, now);
  }

  /** A bulk revocation is revokeAllUserSessions on the sessions found, whatever else was written
      just before it. */
  lemma BulkIsRevokeAll(st: Auth, a: Action, user: UserId) returns (mid: Auth)
    requires Inv(st) && BulkRevokes(st, a, Perform(st, a).1, user)
    ensures mid.sessions == st.sessions && Perform(st, a).0 == RevokeAll(mid, user, Now(st, a), a.reached)
  {
    if a.DoRefresh? {
      mid := st;
      RefreshIsRevokeAll(st, a, user);
    } else {
      mid := OwnerIsRevokeAll(st, a, user);
    }
  }

  lemma RefreshIsRevokeAll(st: Auth, a: Action, user: UserId)
    requires RowInv(st.sessions, st.refreshExp, st.next) && a.DoRefresh? && BulkRevokes(st, a, Perform(st, a).1, user)
    ensures Perform(st, a).0 == RevokeAll(st, user, Now(st, a), a.reached)
  {
    FindByHashIsExact(st.sessions, st.refreshExp, st.next, a.presented.token);
  }

  lemma OwnerIsRevokeAll(st: Auth, a: Action, user: UserId) returns (mid: Auth)
    requires !a.DoRefresh? && BulkRevokes(st, a, Perform(st, a).1, user)
    ensures mid.sessions == st.sessions && Perform(st, a).0 == RevokeAll(mid, user, Now(st, a), a.reached)
  {
    mid := st;
    match a {
      case DoLogoutAll(_, jti, _, _, _) =>
        if jti.Some? { mid := st.(denylist := st.denylist[jti.value := Now(st, a) + ACCESS_TOKEN_EXPIRES_MS]); }
      case DoChangePassword(_, _, hashed, via, _, _) =>
        mid := st.(accounts := AfterUpdate(st.accounts, user, st.accounts.users[user].(password := hashed), via));
      case DoSetUserActive(_, active, via, _, _) =>
        mid := st.(accounts := AfterUpdate(st.accounts, user, st.accounts.users[user].(isActive := active), via));
    }
  }

  lemma BulkRevokesAll(st: Auth, a: Action, user: UserId)
    requires Inv(st) && BulkRevokes(st, a, Perform(st, a).1, user)
    ensures AllRevokedAt(st.sessions, Step(st, a).sessions, user, Now(st, a))
    ensures forall j | j in ActiveJtis(st.sessions, user) && j in a.reached ::
              j in Step(st, a).denylist && Step(st, a).denylist[j] == Now(st, a) + ACCESS_TOKEN_EXPIRES_MS
  {
    var mid := BulkIsRevokeAll(st, a, user);
    RevokeAllEffect(mid, user, Now(st, a), a.reached);
  }

  // ---------------------------------------------------------------- the denylist outlives tokens

  /** The token's denylist entry lasts at least until its `exp`. */
  ghost predicate Barred(st: Auth, jti: Jti) {
    jti in st.denylist && jti in st.accessTokens && st.accessTokens[jti].exp * 1000 <= st.denylist[jti]
  }

  lemma BarredIsRefused(st: Auth, jti: Jti, proc: Proc, promote: Option<nat>, now: nat)
    requires Barred(st, jti)
    ensures Validate(st, AccessToken(jti), proc, promote, now).1 in {Verdict.Revoked, ExpiredToken}
  {
  }

  /** Entries are only ever written with a later expiry, and claims never change. */
  ghost predicate DenylistKept(st: Auth, st': Auth) {
    && (forall j | j in st.accessTokens && j < st.next ::
          j in st'.accessTokens && st'.accessTokens[j] == st.accessTokens[j])
    && (forall j | j in st.denylist :: j in st'.denylist &&
          (st'.denylist[j] == st.denylist[j] || st.clock + ACCESS_TOKEN_EXPIRES_MS <= st'.denylist[j]))
  }

  lemma StepKeepsDenylist(st: Auth, a: Action)
    ensures DenylistKept(st, Step(st, a))
  {
    match a
    case DoRefresh(presented, ip, agent, reached, wait, _) =>
      RefreshKeepsDenylist(st, presented, ip, agent, st.clock + wait, Now(st, a), reached);
    case DoLogin(_, _, _, _, _, _, _) => LoginKeepsDenylist(st, a);
    case DoLogout(_, _, _, _, _) => LogoutKeepsDenylist(st, a);
    case DoLogoutAll(_, _, _, _, _) => LogoutKeepsDenylist(st, a);
    case DoChangePassword(_, _, _, _, _, _) => AdminKeepsDenylist(st, a);
    case DoSetUserActive(_, _, _, _, _) => AdminKeepsDenylist(st, a);
    case _ => QuietKeepsDenylist(st, a);
  }

  lemma LoginKeepsDenylist(st: Auth, a: Action)
    requires a.DoLogin?
    ensures DenylistKept(st, Step(st, a))
  {
  }

  lemma LogoutKeepsDenylist(st: Auth, a: Action)
    requires a.DoLogout? || a.DoLogoutAll?
    ensures DenylistKept(st, Step(st, a))
  {
    if a.DoLogout? {
      OneLogoutKeepsDenylist(st, a);
    } else {
      var denied := DeniedSelf(st, a);
      RevocationKeepsDenylist(denied, a.user, Now(st, a), a.reached);
    }
  }

  lemma OneLogoutKeepsDenylist(st: Auth, a: Action)
    requires a.DoLogout?
    ensures DenylistKept(st, Step(st, a))
  {
  }

  /** logout-all is a bulk revocation after the caller's own token is denylisted, or nothing. */
  lemma DeniedSelf(st: Auth, a: Action) returns (denied: Auth)
    requires a.DoLogoutAll?
    ensures DenylistKept(st, denied) && denied.clock == st.clock && denied.accessTokens == st.accessTokens
            && denied.next == st.next
    ensures Perform(st, a).0 in {st, RevokeAll(denied, a.user, Now(st, a), a.reached)}
  {
    denied := if a.jti.Some? then st.(denylist := st.denylist[a.jti.value := Now(st, a) + ACCESS_TOKEN_EXPIRES_MS])
      else st;
  }

  lemma RevocationKeepsDenylist(st: Auth, user: UserId, now: nat, reached: set<Jti>)
    requires st.clock <= now
    ensures DenylistKept(st, RevokeAll(st, user, now, reached))
  {
  }

  lemma AdminKeepsDenylist(st: Auth, a: Action)
    requires a.DoChangePassword? || a.DoSetUserActive?
    ensures DenylistKept(st, Step(st, a))
  {
    RevocationKeepsDenylist(st, a.user, Now(st, a), a.reached);
    if a.DoSetUserActive? { ActivationKeepsDenylist(st, a); } else { PasswordKeepsDenylist(st, a); }
  }

  lemma ActivationKeepsDenylist(st: Auth, a: Action)
    requires a.DoSetUserActive?
    ensures Perform(st, a).0.accessTokens == st.accessTokens
    ensures Perform(st, a).0.denylist in {st.denylist, RevokeAll(st, a.user, Now(st, a), a.reached).denylist}
  {
  }

  lemma PasswordKeepsDenylist(st: Auth, a: Action)
    requires a.DoChangePassword?
    ensures Perform(st, a).0.accessTokens == st.accessTokens
    ensures Perform(st, a).0.denylist in {st.denylist, RevokeAll(st, a.user, Now(st, a), a.reached).denylist}
  {
  }

  lemma QuietKeepsDenylist(st: Auth, a: Action)
    requires a.DoPurge? || a.DoRegister? || a.DoValidate?
    ensures DenylistKept(st, Step(st, a))
  {
  }

  lemma RefreshKeepsDenylist(st: Auth, presented: Presented, ip: Option<string>, agent: Option<string>, verifiedAt: nat,
                             now: nat, reached: set<Jti>)
    requires st.clock <= now
    ensures DenylistKept(st, Refresh(st, presented, ip, agent, verifiedAt, now, reached).0)
  {
    var id := FindByHash(st.sessions, if presented.RefreshToken? then presented.token else 0);
    if id.Some? { ExchangeKeepsDenylist(st, id.value, ip, agent, now, reached); }
  }

  lemma ExchangeKeepsDenylist(st: Auth, id: SessionId, ip: Option<string>, agent: Option<string>, now: nat,
                              reached: set<Jti>)
    requires id in st.sessions && st.clock <= now
    ensures DenylistKept(st, RefreshRow(st, id, ip, agent, now, reached).0)
  {
  }

  lemma {:induction false} BarredForGood(st: Auth, actions: seq<Action>, jti: Jti)
    requires Inv(st) && Barred(st, jti)
    ensures Barred(Run(st, actions), jti)
    decreases |actions|
  {
    if actions != [] {
      StepKeepsInv(st, actions[0]);
      StepKeepsDenylist(st, actions[0]);
      BarredForGood(Step(st, actions[0]), actions[1..], jti);
    }
  }

  /** Denylist outlives tokens: after a bulk revocation whose denylist writes all arrived, every
      access token attached to a session that was unrevoked until then is refused at all later
      times, in every continuation. */
  lemma RevokedAccessTokensStayRefused(users: map<UserId, User>, before: seq<Action>, a: Action, user: UserId,
                                       after: seq<Action>, i: SessionId,
                                       proc: Proc, promote: Option<nat>, later: nat)
    requires var st := Run(Init(users), before);
             && BulkRevokes(st, a, Perform(st, a).1, user) && ActiveJtis(st.sessions, user) <= a.reached
             && i in st.sessions && Unrevoked(st.sessions[i], user) && st.sessions[i].accessJti.Some?
    ensures var st := Run(Init(users), before);
            Validate(Run(Step(st, a), after), AccessToken(st.sessions[i].accessJti.value), proc, promote,
                     later).1 in {Verdict.Revoked, ExpiredToken}
  {
    ReachableInv(users, before);
    var st := Run(Init(users), before);
    var jti := st.sessions[i].accessJti.value;
    assert GoodRow(st.refreshExp, st.next, i, st.sessions[i]);
    assert jti in ActiveJtis(st.sessions, user);
    BulkRevokesAll(st, a, user);
    StepKeepsInv(st, a);
    StepKeepsDenylist(st, a);
    BarredForGood(Step(st, a), after, jti);
    BarredIsRefused(Run(Step(st, a), after), jti, proc, promote, later);
  }

  // ---------------------------------------------------------------- logout

  /** The request got past its own denylist write. */
  predicate LoggedOut(a: Action) {
    (a.DoLogout? || a.DoLogoutAll?) && (a.jti.None? || a.via.up)
  }

  /** After a logout that went through, the access token it was made with is refused for good. */
  lemma OwnAccessTokenStaysRefused(users: map<UserId, User>, before: seq<Action>, a: Action, after: seq<Action>,
                                   proc: Proc, promote: Option<nat>, later: nat)
    requires LoggedOut(a) && a.jti.Some? && a.jti.value < Run(Init(users), before).next
    ensures Validate(Run(Step(Run(Init(users), before), a), after), AccessToken(a.jti.value), proc, promote,
                     later).1 in {Verdict.Revoked, ExpiredToken}
  {
    ReachableInv(users, before);
    var st := Run(Init(users), before);
    StepKeepsInv(st, a);
    LogoutBars(st, a);
    BarredForGood(Step(st, a), after, a.jti.value);
    BarredIsRefused(Run(Step(st, a), after), a.jti.value, proc, promote, later);
  }

  lemma LogoutBars(st: Auth, a: Action)
    requires Inv(st) && LoggedOut(a) && a.jti.Some? && a.jti.value < st.next
    ensures Barred(Step(st, a), a.jti.value)
  {
    assert a.jti.value in st.accessTokens;
  }

  lemma LogoutSpends(st: Auth, a: Action, token: Token)
    requires Inv(st) && LoggedOut(a) && a.DoLogout? && a.token == Some(token)
    requires token in st.sessions && st.sessions[token].userId == a.user
    ensures Spent(Step(st, a), token)
  {
    assert GoodRow(st.refreshExp, st.next, token, st.sessions[token]);
  }

  /** After a logout that went through, the refresh token it named, if it was the user's own, is
      never exchanged again. */
  lemma LoggedOutTokenIsSpent(users: map<UserId, User>, before: seq<Action>, a: Action, between: seq<Action>,
                              again: Action, token: Token)
    requires LoggedOut(a) && a.DoLogout? && a.token == Some(token) && again.DoRefresh?
             && again.presented == RefreshToken(token)
    requires var rows := Run(Init(users), before).sessions; token in rows && rows[token].userId == a.user
    ensures !Perform(Run(Step(Run(Init(users), before), a), between), again).1.refresh.Refreshed?
  {
    ReachableInv(users, before);
    var st := Run(Init(users), before);
    StepKeepsInv(st, a);
    LogoutSpends(st, a, token);
    SpentIsRefusedForGood(Step(st, a), between, again, token);
  }
}
