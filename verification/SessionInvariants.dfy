/** What every operation on sessions keeps: fresh tokens and the rotation graph. */
module SessionInvariants {
  import opened Wrappers
  import opened CacheTiers
  import opened Users
  import opened Sessions

  /** Every value below `next` has been signed as one refresh and one access token, the access
      token expiring first; and it outlives the present by at most its lifetime. */
  ghost predicate TokenInv(refreshExp: map<Token, nat>, accessTokens: map<Jti, AccessClaims>, next: nat, clock: nat) {
    && (forall n: nat :: n in refreshExp <==> n < next)
    && (forall n: nat :: n in accessTokens <==> n < next)
    && (forall n | n in accessTokens :: accessTokens[n].exp * 1000 <= clock + ACCESS_TOKEN_EXPIRES_MS)
    && (forall n | n in accessTokens && n in refreshExp :: accessTokens[n].exp <= refreshExp[n])
  }

  /** A row carries its own fresh tokens and lives at least as long as its refresh token. */
  ghost predicate GoodRow(refreshExp: map<Token, nat>, next: nat, i: SessionId, s: Session) {
    && i < next && s.refreshTokenHash == i && s.accessJti == Some(i)
    && i in refreshExp && refreshExp[i] * 1000 <= s.expiresAt
  }

  ghost predicate RowInv(rows: Rows, refreshExp: map<Token, nat>, next: nat) {
    forall i | i in rows :: GoodRow(refreshExp, next, i, rows[i])
  }

  /** A row with a successor is revoked; a stored successor points back at it. */
  ghost predicate ForwardOk(rows: Rows, next: nat, i: SessionId)
    requires i in rows
  {
    rows[i].rotatedTo.Some? ==>
      var t := rows[i].rotatedTo.value;
      && i < t < next && rows[i].revokedAt.Some?
      && (t in rows ==> rows[t].rotatedFrom == Some(i) && rows[t].userId == rows[i].userId)
  }

  /** A back-link that is not null points at a stored row, whose successor this is. */
  ghost predicate BackwardOk(rows: Rows, i: SessionId)
    requires i in rows
  {
    rows[i].rotatedFrom.Some? ==>
      rows[i].rotatedFrom.value in rows && rows[rows[i].rotatedFrom.value].rotatedTo == Some(i)
  }

  ghost predicate GraphInv(rows: Rows, next: nat) {
    && (forall i | i in rows :: ForwardOk(rows, next, i) && BackwardOk(rows, i))
    && (forall i, j | i in rows && j in rows && i != j && rows[i].rotatedTo.Some? ::
          rows[i].rotatedTo != rows[j].rotatedTo)
  }

  ghost predicate Inv(st: Auth) {
    && TokenInv(st.refreshExp, st.accessTokens, st.next, st.clock)
    && RowInv(st.sessions, st.refreshExp, st.next)
    && GraphInv(st.sessions, st.next)
  }

  /** Hashes are unique, so the lookup finds the row of the token if it is stored. */
  lemma FindByHashIsExact(rows: Rows, refreshExp: map<Token, nat>, next: nat, token: Token)
    requires RowInv(rows, refreshExp, next)
    ensures FindByHash(rows, token) == if token in rows then Some(token) else None
  {
    if token in rows { assert GoodRow(refreshExp, next, token, rows[token]); }
    forall i | i in rows && rows[i].refreshTokenHash == token ensures i == token {
      assert GoodRow(refreshExp, next, i, rows[i]);
    }
  }

  /** refresh, with the lookup resolved. */
  lemma RefreshFinds(st: Auth, a: Action, x: Auth, r: RefreshOutcome)
    requires a.DoRefresh? && RowInv(st.sessions, st.refreshExp, st.next)
             && Precheck(st, a.presented, st.clock + a.wait).None?
    requires a.presented.token in st.sessions
             && RefreshRow(st, a.presented.token, a.ip, a.userAgent, Now(st, a), a.reached) == (x, r)
    ensures Perform(st, a) == (x, RefreshAnswer(r))
  {
    FindByHashIsExact(st.sessions, st.refreshExp, st.next, a.presented.token);
    RefreshGoesOn(st, a, a.presented.token, x, r);
  }

  lemma RefreshGoesOn(st: Auth, a: Action, id: SessionId, x: Auth, r: RefreshOutcome)
    requires a.DoRefresh? && Precheck(st, a.presented, st.clock + a.wait).None?
    requires FindByHash(st.sessions, a.presented.token) == Some(id) && id in st.sessions
    requires RefreshRow(st, id, a.ip, a.userAgent, Now(st, a), a.reached) == (x, r)
    ensures Perform(st, a) == (x, RefreshAnswer(r))
  {
  }

  lemma RefreshRefuses(st: Auth, a: Action)
    requires a.DoRefresh? && RowInv(st.sessions, st.refreshExp, st.next)
    requires Precheck(st, a.presented, st.clock + a.wait).Some? || a.presented.token !in st.sessions
    ensures Perform(st, a) == (st, RefreshAnswer(Precheck(st, a.presented, st.clock + a.wait).GetOr(UnknownToken)))
  {
    if a.presented.RefreshToken? { FindByHashIsExact(st.sessions, st.refreshExp, st.next, a.presented.token); }
  }

  // ---------------------------------------------------------------- rows change in four ways

  /** Some unrevoked rows of one user become revoked; nothing else changes. */
  ghost predicate OnlyRevokes(rows: Rows, rows': Rows, user: UserId) {
    && rows'.Keys == rows.Keys
    && forall i | i in rows :: rows'[i] == rows[i]
         || (Unrevoked(rows[i], user) && rows'[i].revokedAt.Some?
             && rows'[i] == rows[i].(revokedAt := rows'[i].revokedAt))
  }

  lemma RevokingKeepsInv(rows: Rows, rows': Rows, user: UserId, refreshExp: map<Token, nat>, next: nat)
    requires OnlyRevokes(rows, rows', user) && RowInv(rows, refreshExp, next) && GraphInv(rows, next)
    ensures RowInv(rows', refreshExp, next) && GraphInv(rows', next)
  {
    forall i | i in rows'
      ensures GoodRow(refreshExp, next, i, rows'[i]) && ForwardOk(rows', next, i) && BackwardOk(rows', i)
    {
      assert GoodRow(refreshExp, next, i, rows[i]) && ForwardOk(rows, next, i) && BackwardOk(rows, i);
    }
  }

  /** A signed pair and its row: fresh, with or without a predecessor. */
  lemma SigningKeepsTokens(st: Auth, user: UserId, ip: Option<string>, agent: Option<string>, from: Option<SessionId>,
                           now: nat)
    requires TokenInv(st.refreshExp, st.accessTokens, st.next, st.clock) && st.clock <= now
    ensures var st' := NewSession(st, user, ip, agent, from, now);
            && TokenInv(st'.refreshExp, st'.accessTokens, st'.next, now)
            && GoodRow(st'.refreshExp, st'.next, st.next, st'.sessions[st.next])
  {
  }

  lemma RowsOutliveSigning(rows: Rows, refreshExp: map<Token, nat>, next: nat, exp: nat)
    requires RowInv(rows, refreshExp, next)
    ensures RowInv(rows, refreshExp[next := exp], next + 1)
  {
    forall i | i in rows ensures GoodRow(refreshExp[next := exp], next + 1, i, rows[i]) {
      assert GoodRow(refreshExp, next, i, rows[i]);
    }
  }

  lemma RowsBelowNext(rows: Rows, refreshExp: map<Token, nat>, next: nat)
    requires RowInv(rows, refreshExp, next)
    ensures next !in rows && forall i | i in rows :: i < next
  {
    forall i | i in rows ensures i < next { assert GoodRow(refreshExp, next, i, rows[i]); }
  }

  lemma LoginKeepsGraph(rows: Rows, refreshExp: map<Token, nat>, next: nat, s: Session)
    requires RowInv(rows, refreshExp, next) && GraphInv(rows, next) && s.rotatedFrom.None? && s.rotatedTo.None?
    ensures GraphInv(rows[next := s], next + 1)
  {
    var rows' := rows[next := s];
    RowsBelowNext(rows, refreshExp, next);
    forall i | i in rows' ensures ForwardOk(rows', next + 1, i) && BackwardOk(rows', i) {
      if i != next { assert ForwardOk(rows, next, i) && BackwardOk(rows, i); }
    }
  }

  /** The successor takes the fresh id, so no other row can already point at it. */
  lemma RotationKeepsGraph(rows: Rows, refreshExp: map<Token, nat>, next: nat, id: SessionId, s: Session, now: nat)
    requires RowInv(rows, refreshExp, next) && GraphInv(rows, next)
    requires id in rows && rows[id].rotatedTo.None? && s.rotatedFrom == Some(id) && s.rotatedTo.None?
             && s.userId == rows[id].userId
    ensures next !in rows && GraphInv(MarkRotated(rows[next := s], id, next, now), next + 1)
  {
    RowsBelowNext(rows, refreshExp, next);
    assert GoodRow(refreshExp, next, id, rows[id]);
    var rows' := MarkRotated(rows[next := s], id, next, now);
    forall i | i in rows' ensures ForwardOk(rows', next + 1, i) && BackwardOk(rows', i) {
      if i != next { assert ForwardOk(rows, next, i) && BackwardOk(rows, i); }
    }
    forall i | i in rows && rows[i].rotatedTo.Some? ensures rows[i].rotatedTo.value != next {
      assert ForwardOk(rows, next, i);
    }
  }

  /** Deleting rows nulls exactly the back-links that would dangle. */
  lemma DeletingKeepsInv(rows: Rows, refreshExp: map<Token, nat>, next: nat, gone: set<SessionId>)
    requires RowInv(rows, refreshExp, next) && GraphInv(rows, next)
    ensures RowInv(DeleteRows(rows, gone), refreshExp, next) && GraphInv(DeleteRows(rows, gone), next)
  {
    var rows' := DeleteRows(rows, gone);
    forall i | i in rows'
      ensures GoodRow(refreshExp, next, i, rows'[i]) && ForwardOk(rows', next, i) && BackwardOk(rows', i)
    {
      assert GoodRow(refreshExp, next, i, rows[i]) && ForwardOk(rows, next, i) && BackwardOk(rows, i);
    }
  }

  // ---------------------------------------------------------------- each operation

  /** The state after an operation that touches neither tokens nor, beyond revoking, rows. */
  lemma RevokingStep(st: Auth, st': Auth, user: UserId, now: nat)
    requires Inv(st) && st.clock <= now && AtMostRevokes(st, st', user)
    ensures Inv(st'.(clock := now))
  {
    RevokingKeepsInv(st.sessions, st'.sessions, user, st.refreshExp, st.next);
  }

  lemma NewSessionStep(st: Auth, user: UserId, ip: Option<string>, agent: Option<string>, now: nat)
    requires Inv(st) && st.clock <= now
    ensures Inv(NewSession(st, user, ip, agent, None, now).(clock := now))
  {
    SigningKeepsTokens(st, user, ip, agent, None, now);
    RowsOutliveSigning(st.sessions, st.refreshExp, st.next, ExpClaim(now, REFRESH_TOKEN_EXPIRES_MS));
    LoginKeepsGraph(st.sessions, st.refreshExp, st.next, NewSession(st, user, ip, agent, None, now).sessions[st.next]);
  }

  lemma RotationStep(st: Auth, id: SessionId, ip: Option<string>, agent: Option<string>, now: nat)
    requires Inv(st) && st.clock <= now && id in st.sessions && st.sessions[id].rotatedTo.None?
    ensures Inv(Exchange(st, id, ip, agent, now).(clock := now))
  {
    var inserted := NewSession(st, st.sessions[id].userId, ip, agent, Some(id), now);
    SigningKeepsTokens(st, st.sessions[id].userId, ip, agent, Some(id), now);
    RowsOutliveSigning(st.sessions, st.refreshExp, st.next, ExpClaim(now, REFRESH_TOKEN_EXPIRES_MS));
    RotationKeepsGraph(st.sessions, st.refreshExp, st.next, id, inserted.sessions[st.next], now);
    MarkedRowsGood(inserted.sessions, inserted.refreshExp, inserted.next, id, st.next, now);
  }

  lemma MarkedRowsGood(rows: Rows, refreshExp: map<Token, nat>, next: nat, id: SessionId, successor: SessionId,
                       now: nat)
    requires RowInv(rows, refreshExp, next) && id in rows
    ensures RowInv(MarkRotated(rows, id, successor, now), refreshExp, next)
  {
    forall i | i in rows ensures GoodRow(refreshExp, next, i, MarkRotated(rows, id, successor, now)[i]) {
      assert GoodRow(refreshExp, next, i, rows[i]);
    }
  }

  lemma TickStep(st: Auth, now: nat)
    requires Inv(st) && st.clock <= now
    ensures Inv(st.(clock := now))
  {
  }

  /** The row is exchanged, the user's sessions are revoked, or nothing happens. */
  function Exchange(st: Auth, id: SessionId, ip: Option<string>, agent: Option<string>, now: nat): Auth
    requires id in st.sessions
  {
    var x := NewSession(st, st.sessions[id].userId, ip, agent, Some(id), now);
    x.(sessions := MarkRotated(x.sessions, id, st.next, now))
  }

  predicate Sweeps(r: RefreshOutcome) {
    r.ReuseDetected? || r.Denied?
  }

  lemma RefreshRowCases(st: Auth, id: SessionId, ip: Option<string>, agent: Option<string>, now: nat, reached: set<Jti>)
    requires id in st.sessions
    ensures var (x, r) := RefreshRow(st, id, ip, agent, now, reached);
            && x == (if r.Refreshed? then Exchange(st, id, ip, agent, now)
                     else if Sweeps(r) then RevokeAll(st, st.sessions[id].userId, now, reached)
                     else st)
            && (r.Refreshed? ==> r == Refreshed(st.sessions[id].userId, st.next) && st.sessions[id].revokedAt.None?)
  {
  }

  lemma RefreshRowKeepsInv(st: Auth, id: SessionId, ip: Option<string>, agent: Option<string>, now: nat,
                           reached: set<Jti>)
    requires Inv(st) && st.clock <= now && id in st.sessions
    ensures Inv(RefreshRow(st, id, ip, agent, now, reached).0.(clock := now))
  {
    RefreshRowCases(st, id, ip, agent, now, reached);
    var outcome := RefreshRow(st, id, ip, agent, now, reached).1;
    if outcome.Refreshed? {
      assert ForwardOk(st.sessions, st.next, id);
      RotationStep(st, id, ip, agent, now);
    } else if Sweeps(outcome) {
      SweepStep(st, st.sessions[id].userId, now, reached);
    } else {
      TickStep(st, now);
    }
  }

  lemma SweepStep(st: Auth, user: UserId, now: nat, reached: set<Jti>)
    requires Inv(st) && st.clock <= now
    ensures Inv(RevokeAll(st, user, now, reached).(clock := now))
  {
    RevokeAllAtMostRevokes(st, user, now, reached);
    RevokingStep(st, RevokeAll(st, user, now, reached), user, now);
  }

  lemma PurgeKeepsInv(st: Auth, enabled: bool, graceDays: nat, spared: set<SessionId>, now: nat)
    requires Inv(st) && st.clock <= now
    ensures Inv(Purge(st, enabled, graceDays, spared, now).(clock := now))
  {
    DeletingKeepsInv(st.sessions, st.refreshExp, st.next, Expired(st.sessions, DaysAgo(graceDays, now)) - spared);
  }

  lemma LoginKeepsInv(st: Auth, user: UserId, ok: bool, ip: Option<string>, agent: Option<string>, start: nat, end: nat,
                      via: Client)
    requires Inv(st) && st.clock <= end
    ensures Inv(Login(st, user, ok, ip, agent, start, end, via).0.(clock := end))
  {
    var (st', outcome) := Login(st, user, ok, ip, agent, start, end, via);
    if outcome.LoggedIn? {
      var reset := st.(accounts := AfterUpdate(st.accounts, user, AfterReset(st.accounts.users[user]), via));
      NewSessionStep(reset, user, ip, agent, end);
    } else {
      TickStep(st', end);
    }
  }

  lemma RefreshKeepsInv(st: Auth, presented: Presented, ip: Option<string>, agent: Option<string>, verifiedAt: nat,
                        now: nat, reached: set<Jti>)
    requires Inv(st) && st.clock <= now
    ensures Inv(Refresh(st, presented, ip, agent, verifiedAt, now, reached).0.(clock := now))
  {
    TickStep(st, now);
    if presented.RefreshToken? {
      FindByHashIsExact(st.sessions, st.refreshExp, st.next, presented.token);
      if presented.token in st.sessions { RefreshRowKeepsInv(st, presented.token, ip, agent, now, reached); }
    }
  }

  predicate ByOwnerOrAdmin(a: Action) {
    a.DoLogout? || a.DoLogoutAll? || a.DoChangePassword? || a.DoSetUserActive?
  }

  /** No token is signed and no row changes beyond revoking the user's own. */
  ghost predicate AtMostRevokes(st: Auth, st': Auth, user: UserId) {
    && OnlyRevokes(st.sessions, st'.sessions, user)
    && st'.refreshExp == st.refreshExp && st'.accessTokens == st.accessTokens && st'.next == st.next
  }

  lemma RevokeAllAtMostRevokes(st: Auth, user: UserId, now: nat, reached: set<Jti>)
    ensures AtMostRevokes(st, RevokeAll(st, user, now, reached), user)
  {
    RevocationsOnlyRevoke(st.sessions, user, 0, now);
  }

  lemma LogoutAtMostRevokes(st: Auth, user: UserId, jti: Option<Jti>, token: Option<Token>, now: nat, via: Client)
    ensures AtMostRevokes(st, Logout(st, user, jti, token, now, via), user)
  {
    RevocationsOnlyRevoke(st.sessions, user, token.GetOr(0), now);
  }

  lemma LogoutAllAtMostRevokes(st: Auth, user: UserId, jti: Option<Jti>, now: nat, via: Client, reached: set<Jti>)
    ensures AtMostRevokes(st, LogoutAll(st, user, jti, now, via, reached), user)
  {
    RevocationsOnlyRevoke(st.sessions, user, 0, now);
  }

  lemma ChangePasswordAtMostRevokes(st: Auth, user: UserId, ok: bool, hashed: string, now: nat, via: Client,
                                    reached: set<Jti>)
    ensures AtMostRevokes(st, ChangePassword(st, user, ok, hashed, now, via, reached).0, user)
  {
    RevocationsOnlyRevoke(st.sessions, user, 0, now);
  }

  lemma SetUserActiveAtMostRevokes(st: Auth, user: UserId, active: bool, now: nat, via: Client, reached: set<Jti>)
    ensures AtMostRevokes(st, SetUserActive(st, user, active, now, via, reached).0, user)
  {
    RevocationsOnlyRevoke(st.sessions, user, 0, now);
  }

  /** Logout, logout-all, password change and (de)activation at most revoke rows of their user. */
  lemma OwnerActionsOnlyRevoke(st: Auth, a: Action)
    requires ByOwnerOrAdmin(a)
    ensures AtMostRevokes(st, Perform(st, a).0, a.user)
  {
    var now := Now(st, a);
    match a
    case DoLogout(user, jti, token, via, _) => LogoutAtMostRevokes(st, user, jti, token, now, via);
    case DoLogoutAll(user, jti, via, reached, _) => LogoutAllAtMostRevokes(st, user, jti, now, via, reached);
    case DoChangePassword(user, ok, hashed, via, reached, _) =>
      ChangePasswordAtMostRevokes(st, user, ok, hashed, now, via, reached);
    case DoSetUserActive(user, active, via, reached, _) =>
      SetUserActiveAtMostRevokes(st, user, active, now, via, reached);
  }

  lemma RevocationsOnlyRevoke(rows: Rows, user: UserId, token: Token, now: nat)
    ensures OnlyRevokes(rows, rows, user)
    ensures OnlyRevokes(rows, RevokeRows(rows, user, now), user)
    ensures OnlyRevokes(rows, RevokeToken(rows, user, token, now), user)
  {
  }

  lemma StepIsMonotone(st: Auth, a: Action)
    ensures st.clock <= Step(st, a).clock && st.next <= Step(st, a).next
  {
    if a.DoRefresh? { RefreshIsMonotone(st, a); } else if ByOwnerOrAdmin(a) { OwnerActionsOnlyRevoke(st, a); }
  }

  lemma RefreshIsMonotone(st: Auth, a: Action)
    requires a.DoRefresh?
    ensures st.next <= Perform(st, a).0.next
  {
  }

  lemma OwnerStepKeepsInv(st: Auth, a: Action)
    requires Inv(st) && ByOwnerOrAdmin(a)
    ensures Inv(Step(st, a))
  {
    OwnerActionsOnlyRevoke(st, a);
    RevokingStep(st, Perform(st, a).0, a.user, Now(st, a));
  }

  lemma StepKeepsInv(st: Auth, a: Action)
    requires Inv(st)
    ensures Inv(Step(st, a))
  {
    if ByOwnerOrAdmin(a) {
      OwnerStepKeepsInv(st, a);
    } else if a.DoLogin? || a.DoRefresh? {
      SigningStepKeepsInv(st, a);
    } else {
      QuietStepKeepsInv(st, a);
    }
  }

  lemma SigningStepKeepsInv(st: Auth, a: Action)
    requires Inv(st) && (a.DoLogin? || a.DoRefresh?)
    ensures Inv(Step(st, a))
  {
    if a.DoLogin? {
      LoginStepKeepsInv(st, a);
    } else {
      RefreshStepKeepsInv(st, a);
    }
  }

  lemma LoginStepKeepsInv(st: Auth, a: Action)
    requires Inv(st) && a.DoLogin?
    ensures Inv(Step(st, a))
  {
    LoginKeepsInv(st, a.user, a.passwordOk, a.ip, a.userAgent, st.clock + a.wait, Now(st, a), a.via);
  }

  lemma RefreshStepKeepsInv(st: Auth, a: Action)
    requires Inv(st) && a.DoRefresh?
    ensures Inv(Step(st, a))
  {
    RefreshKeepsInv(st, a.presented, a.ip, a.userAgent, st.clock + a.wait, Now(st, a), a.reached);
  }

  lemma QuietStepKeepsInv(st: Auth, a: Action)
    requires Inv(st) && (a.DoPurge? || a.DoRegister? || a.DoValidate?)
    ensures Inv(Step(st, a))
  {
    match a
    case DoPurge(enabled, graceDays, spared, _) => PurgeKeepsInv(st, enabled, graceDays, spared, Now(st, a));
    case DoRegister(user, hashed, _) => TickStep(Register(st, user, hashed), Now(st, a));
    case DoValidate(presented, proc, promote, _) => ValidateKeepsInv(st, presented, proc, promote, Now(st, a));
  }

  lemma ValidateKeepsInv(st: Auth, presented: Presented, proc: Proc, promote: Option<nat>, now: nat)
    requires Inv(st) && st.clock <= now
    ensures Inv(Validate(st, presented, proc, promote, now).0.(clock := now))
  {
    TickStep(Validate(st, presented, proc, promote, now).0, now);
  }

  lemma {:induction false} RunKeepsInv(st: Auth, actions: seq<Action>)
    requires Inv(st)
    ensures Inv(Run(st, actions)) && st.clock <= Run(st, actions).clock && st.next <= Run(st, actions).next
    decreases |actions|
  {
    if actions != [] {
      StepKeepsInv(st, actions[0]);
      StepIsMonotone(st, actions[0]);
      RunKeepsInv(Step(st, actions[0]), actions[1..]);
    }
  }

  lemma ReachableInv(users: map<UserId, User>, actions: seq<Action>)
    ensures Inv(Run(Init(users), actions))
  {
    RunKeepsInv(Init(users), actions);
  }

  // ---------------------------------------------------------------- the rotation graph

  /** The row `n` rotations after row `i`, as far as rows are stored. */
  function Follow(rows: Rows, i: SessionId, n: nat): Option<SessionId>
    decreases n
  {
    if n == 0 then Some(i)
    else if i in rows && rows[i].rotatedTo.Some? then Follow(rows, rows[i].rotatedTo.value, n - 1)
    else None
  }

  lemma {:induction false} FollowRises(rows: Rows, next: nat, i: SessionId, n: nat)
    requires GraphInv(rows, next) && n > 0 && Follow(rows, i, n).Some?
    ensures i in rows && rows[i].revokedAt.Some? && i < Follow(rows, i, n).value
    ensures var j := Follow(rows, i, n).value;
            j in rows ==> rows[j].userId == rows[i].userId && rows[j].rotatedFrom.Some?
    decreases n
  {
    assert ForwardOk(rows, next, i);
    if n > 1 { FollowRises(rows, next, rows[i].rotatedTo.value, n - 1); }
  }

  /** Rotation graph, over every run including purges. Forward and backward links of stored rows
      are inverse to each other; chains are unbranched, acyclic and belong to one user; and every
      row with a successor is revoked, so of a chain at most the last row is active. */
  lemma RotationGraph(users: map<UserId, User>, actions: seq<Action>, i: SessionId, j: SessionId, n: nat)
    requires var rows := Run(Init(users), actions).sessions; i in rows && j in rows
    ensures var rows := Run(Init(users), actions).sessions;
            && (rows[i].rotatedTo == Some(j) <==> rows[j].rotatedFrom == Some(i))
            && (i != j && rows[i].rotatedTo.Some? ==> rows[i].rotatedTo != rows[j].rotatedTo)
            && (rows[j].rotatedFrom.Some? ==> rows[j].rotatedFrom.value in rows)
            && (n > 0 && Follow(rows, i, n) == Some(j)
                ==> i != j && rows[i].userId == rows[j].userId && rows[i].revokedAt.Some?)
  {
    ReachableInv(users, actions);
    var st := Run(Init(users), actions);
    assert ForwardOk(st.sessions, st.next, i) && BackwardOk(st.sessions, j);
    if n > 0 && Follow(st.sessions, i, n) == Some(j) { FollowRises(st.sessions, st.next, i, n); }
  }
}
