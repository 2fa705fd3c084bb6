/**
 A purge is invisible: a run and the same run with its purges switched off are bisimilar. They give
 the same answer to every later operation, up to revocation counts, and the same session lists.
 */
module SessionPurge {
  import opened Wrappers
  import opened CacheTiers
  import opened Users
  import opened Sessions
  import opened SessionInvariants
  import opened Sets

  /** The same row, up to a nulled back-link. */
  ghost predicate SameRow(s': Session, s: Session) {
    s' == s.(rotatedFrom := s'.rotatedFrom)
  }

  /** Rows missing on the left have expired. */
  ghost predicate AlikeRows(rows': Rows, rows: Rows, clock: nat) {
    && rows'.Keys <= rows.Keys
    && (forall i | i in rows' :: SameRow(rows'[i], rows[i]))
    && (forall i | i in rows && i !in rows' :: rows[i].expiresAt < clock)
  }

  /** The access token no longer verifies. */
  ghost predicate Over(accessTokens: map<Jti, AccessClaims>, j: Jti, clock: nat) {
    j in accessTokens && accessTokens[j].exp * 1000 <= clock
  }

  function Entry(denylist: map<Jti, nat>, j: Jti): Option<nat> {
    if j in denylist then Some(denylist[j]) else None
  }

  ghost predicate AlikeDenylists(denylist': map<Jti, nat>, denylist: map<Jti, nat>,
                                 accessTokens: map<Jti, AccessClaims>, clock: nat) {
    forall j: Jti :: Entry(denylist', j) == Entry(denylist, j) || Over(accessTokens, j, clock)
  }

  /** The access tokens of missing rows are over. */
  ghost predicate MissingOver(rows': Rows, rows: Rows, accessTokens: map<Jti, AccessClaims>, clock: nat) {
    forall i | i in rows && i !in rows' && rows[i].accessJti.Some? :: Over(accessTokens, rows[i].accessJti.value, clock)
  }

  /** The bisimulation: `st'` has been purged, `st` has not. */
  ghost predicate Alike(st': Auth, st: Auth) {
    && st' == st.(sessions := st'.sessions, denylist := st'.denylist)
    && AlikeRows(st'.sessions, st.sessions, st.clock)
    && AlikeDenylists(st'.denylist, st.denylist, st.accessTokens, st.clock)
    && MissingOver(st'.sessions, st.sessions, st.accessTokens, st.clock)
  }

  /** The part of the invariant that is about tokens. */
  ghost predicate Signed(st: Auth) {
    && TokenInv(st.refreshExp, st.accessTokens, st.next, st.clock)
    && RowInv(st.sessions, st.refreshExp, st.next)
  }

  /** The same answer; the purged side may count fewer revoked sessions. */
  predicate SameAnswer(x: Answer, y: Answer) {
    || x == y
    || (&& x.RefreshAnswer? && y.RefreshAnswer?
        && match (x.refresh, y.refresh)
           case (ReuseDetected(m), ReuseDetected(n)) => m <= n
           case (Denied(r, m), Denied(s, n)) => r == s && m <= n
           case _ => false)
  }

  // ---------------------------------------------------------------- rows and denylists

  lemma AlikeRevocations(rows': Rows, rows: Rows, user: UserId, token: Token, now: nat, clock: nat)
    requires AlikeRows(rows', rows, clock)
    ensures AlikeRows(RevokeRows(rows', user, now), RevokeRows(rows, user, now), clock)
    ensures AlikeRows(RevokeToken(rows', user, token, now), RevokeToken(rows, user, token, now), clock)
  {
  }

  /** Purging the left side, even partly, only removes rows that have expired by now. */
  lemma AlikeDeletion(rows': Rows, rows: Rows, cutoff: nat, spared: set<SessionId>, clock: nat)
    requires AlikeRows(rows', rows, clock) && cutoff <= clock
    ensures AlikeRows(DeleteRows(rows', Expired(rows', cutoff) - spared), rows, clock)
  {
  }

  lemma AlikeInsertion(rows': Rows, rows: Rows, n: SessionId, s: Session, clock: nat)
    requires AlikeRows(rows', rows, clock)
    ensures AlikeRows(rows'[n := s], rows[n := s], clock)
  {
  }

  lemma AlikeRotation(rows': Rows, rows: Rows, id: SessionId, successor: SessionId, now: nat, clock: nat)
    requires AlikeRows(rows', rows, clock) && id in rows'
    ensures AlikeRows(MarkRotated(rows', id, successor, now), MarkRotated(rows, id, successor, now), clock)
  {
  }

  /** So it does not matter that only one side denylists them. */
  lemma MissingTokensAreOver(st': Auth, st: Auth, user: UserId)
    requires AlikeRows(st'.sessions, st.sessions, st.clock)
             && MissingOver(st'.sessions, st.sessions, st.accessTokens, st.clock)
    ensures forall j | j in ActiveJtis(st'.sessions, user) :: j in ActiveJtis(st.sessions, user)
    ensures forall j | j in ActiveJtis(st.sessions, user) && j !in ActiveJtis(st'.sessions, user) ::
              Over(st.accessTokens, j, st.clock)
  {
    forall j | j in ActiveJtis(st'.sessions, user) ensures j in ActiveJtis(st.sessions, user) {
      var i :| i in st'.sessions && Unrevoked(st'.sessions[i], user) && st'.sessions[i].accessJti == Some(j);
      assert SameRow(st'.sessions[i], st.sessions[i]);
    }
    forall j | j in ActiveJtis(st.sessions, user) && j !in ActiveJtis(st'.sessions, user)
      ensures Over(st.accessTokens, j, st.clock)
    {
      var i :| i in st.sessions && Unrevoked(st.sessions[i], user) && st.sessions[i].accessJti == Some(j);
      assert i in st'.sessions ==> SameRow(st'.sessions[i], st.sessions[i]) && i in UnrevokedOf(st'.sessions, user);
    }
  }

  lemma AlikeDenylisting(denylist': map<Jti, nat>, denylist: map<Jti, nat>, jtis': set<Jti>, jtis: set<Jti>,
                         accessTokens: map<Jti, AccessClaims>, reached: set<Jti>, now: nat, clock: nat)
    requires AlikeDenylists(denylist', denylist, accessTokens, clock)
    requires jtis' <= jtis && forall j | j in jtis && j !in jtis' :: Over(accessTokens, j, clock)
    ensures AlikeDenylists(Denylisted(denylist', jtis', reached, now), Denylisted(denylist, jtis, reached, now),
                           accessTokens, clock)
  {
    forall j: Jti ensures
      Entry(Denylisted(denylist', jtis', reached, now), j) == Entry(Denylisted(denylist, jtis, reached, now), j)
        || Over(accessTokens, j, clock)
    {
      assert Entry(denylist', j) == Entry(denylist, j) || Over(accessTokens, j, clock);
    }
  }

  lemma AlikeLater(st': Auth, st: Auth, now: nat)
    requires Alike(st', st) && st.clock <= now
    ensures Alike(st'.(clock := now), st.(clock := now))
  {
    forall j: Jti ensures Entry(st'.denylist, j) == Entry(st.denylist, j) || Over(st.accessTokens, j, now) {
      assert Entry(st'.denylist, j) == Entry(st.denylist, j) || Over(st.accessTokens, j, st.clock);
    }
  }

  lemma AlikeRowInv(rows': Rows, rows: Rows, clock: nat, refreshExp: map<Token, nat>, next: nat)
    requires AlikeRows(rows', rows, clock) && RowInv(rows, refreshExp, next)
    ensures RowInv(rows', refreshExp, next)
  {
    forall i | i in rows' ensures GoodRow(refreshExp, next, i, rows'[i]) {
      assert SameRow(rows'[i], rows[i]) && GoodRow(refreshExp, next, i, rows[i]);
    }
  }

  // ---------------------------------------------------------------- operations

  lemma AlikeRevokeAll(st': Auth, st: Auth, user: UserId, now: nat, reached: set<Jti>) returns (x': Auth, x: Auth)
    requires Alike(st', st)
    ensures x' == RevokeAll(st', user, now, reached) && x == RevokeAll(st, user, now, reached) && Alike(x', x)
    ensures |UnrevokedOf(st'.sessions, user)| <= |UnrevokedOf(st.sessions, user)|
  {
    x', x := RevokeAll(st', user, now, reached), RevokeAll(st, user, now, reached);
    AlikeRevocations(st'.sessions, st.sessions, user, 0, now, st.clock);
    MissingTokensAreOver(st', st, user);
    AlikeDenylisting(st'.denylist, st.denylist, ActiveJtis(st'.sessions, user), ActiveJtis(st.sessions, user),
                     st.accessTokens, reached, now, st.clock);
    AlikeUnrevoked(st'.sessions, st.sessions, user, st.clock);
  }

  lemma AlikeUnrevoked(rows': Rows, rows: Rows, user: UserId, clock: nat)
    requires AlikeRows(rows', rows, clock)
    ensures |UnrevokedOf(rows', user)| <= |UnrevokedOf(rows, user)|
  {
    forall i | i in UnrevokedOf(rows', user) ensures i in UnrevokedOf(rows, user) {
      assert SameRow(rows'[i], rows[i]);
    }
    SubsetSize(UnrevokedOf(rows', user), UnrevokedOf(rows, user));
  }

  /** New tokens are signed alike on both sides. */
  lemma AlikeNewSession(st': Auth, st: Auth, user: UserId, ip: Option<string>, agent: Option<string>,
                        from: Option<SessionId>, now: nat)
    returns (x': Auth, x: Auth)
    requires Alike(st', st) && st.next !in st.accessTokens
    ensures x' == NewSession(st', user, ip, agent, from, now) && x == NewSession(st, user, ip, agent, from, now)
            && Alike(x', x)
  {
    x', x := NewSession(st', user, ip, agent, from, now), NewSession(st, user, ip, agent, from, now);
    AlikeInsertion(st'.sessions, st.sessions, st.next, x.sessions[st.next], st.clock);
    OverStays(st'.sessions, st.sessions, x.sessions[st.next], st'.denylist, st.denylist, st.accessTokens,
              x.accessTokens, st.next, st.clock);
  }

  lemma OverStays(rows': Rows, rows: Rows, s: Session, denylist': map<Jti, nat>, denylist: map<Jti, nat>,
                  accessTokens: map<Jti, AccessClaims>, signed: map<Jti, AccessClaims>, n: nat, clock: nat)
    requires n !in accessTokens && n in signed && signed == accessTokens[n := signed[n]]
    requires AlikeDenylists(denylist', denylist, accessTokens, clock) && MissingOver(rows', rows, accessTokens, clock)
    ensures AlikeDenylists(denylist', denylist, signed, clock)
            && MissingOver(rows'[n := s], rows[n := s], signed, clock)
  {
    forall j: Jti ensures Entry(denylist', j) == Entry(denylist, j) || Over(signed, j, clock) {
      assert Entry(denylist', j) == Entry(denylist, j) || Over(accessTokens, j, clock);
    }
  }

  lemma AlikeExchange(st': Auth, st: Auth, id: SessionId, ip: Option<string>, agent: Option<string>, now: nat)
    returns (x': Auth, x: Auth)
    requires Alike(st', st) && st.next !in st.accessTokens && id in st'.sessions && id in st.sessions
    ensures x' == Exchange(st', id, ip, agent, now) && x == Exchange(st, id, ip, agent, now) && Alike(x', x)
  {
    assert SameRow(st'.sessions[id], st.sessions[id]);
    var y', y := AlikeNewSession(st', st, st.sessions[id].userId, ip, agent, Some(id), now);
    x', x := y'.(sessions := MarkRotated(y'.sessions, id, st.next, now)),
      y.(sessions := MarkRotated(y.sessions, id, st.next, now));
    AlikeRotation(y'.sessions, y.sessions, id, st.next, now, st.clock);
  }

  /** Both sides rule alike: the ruling looks at the row and the account, not at back-links. */
  lemma AlikeRuling(st': Auth, st: Auth, id: SessionId, ip: Option<string>, agent: Option<string>, now: nat,
                    reached: set<Jti>)
    requires id in st'.sessions && id in st.sessions && SameRow(st'.sessions[id], st.sessions[id])
    requires st'.accounts == st.accounts && st'.next == st.next
    requires |UnrevokedOf(st'.sessions, st.sessions[id].userId)| <= |UnrevokedOf(st.sessions, st.sessions[id].userId)|
    ensures var r', r := RefreshRow(st', id, ip, agent, now, reached).1, RefreshRow(st, id, ip, agent, now, reached).1;
            && SameAnswer(RefreshAnswer(r'), RefreshAnswer(r))
            && (r'.Refreshed? <==> r.Refreshed?) && (Sweeps(r') <==> Sweeps(r))
  {
  }

  lemma AlikeRefreshRow(st': Auth, st: Auth, id: SessionId, ip: Option<string>, agent: Option<string>, now: nat,
                        reached: set<Jti>)
    returns (x': Auth, r': RefreshOutcome, x: Auth, r: RefreshOutcome)
    requires Alike(st', st) && st.next !in st.accessTokens && id in st'.sessions && id in st.sessions
    ensures Alike(x', x) && SameAnswer(RefreshAnswer(r'), RefreshAnswer(r))
    ensures RefreshRow(st', id, ip, agent, now, reached) == (x', r')
            && RefreshRow(st, id, ip, agent, now, reached) == (x, r)
  {
    var user := st.sessions[id].userId;
    assert SameRow(st'.sessions[id], st.sessions[id]);
    AlikeUnrevoked(st'.sessions, st.sessions, user, st.clock);
    AlikeRuling(st', st, id, ip, agent, now, reached);
    RefreshRowCases(st', id, ip, agent, now, reached);
    RefreshRowCases(st, id, ip, agent, now, reached);
    r', r := RefreshRow(st', id, ip, agent, now, reached).1, RefreshRow(st, id, ip, agent, now, reached).1;
    if Sweeps(r) {
      x', x := AlikeRevokeAll(st', st, user, now, reached);
    } else if r.Refreshed? {
      x', x := AlikeExchange(st', st, id, ip, agent, now);
    } else {
      x', x := st', st;
    }
  }

  lemma AlikeFound(st': Auth, st: Auth, a: Action) returns (x': Auth, r': RefreshOutcome, x: Auth, r: RefreshOutcome)
    requires Alike(st', st) && st.next !in st.accessTokens
    requires a.DoRefresh? && Precheck(st, a.presented, st.clock + a.wait).None?
    requires var token := a.presented.token;
             && token in st'.sessions && token in st.sessions
             && FindByHash(st'.sessions, token) == Some(token) && FindByHash(st.sessions, token) == Some(token)
    ensures Alike(x', x) && SameAnswer(RefreshAnswer(r'), RefreshAnswer(r))
    ensures Perform(st', a) == (x', RefreshAnswer(r')) && Perform(st, a) == (x, RefreshAnswer(r))
  {
    var token := a.presented.token;
    var f' := RefreshRow(st', token, a.ip, a.userAgent, Now(st, a), a.reached);
    var f := RefreshRow(st, token, a.ip, a.userAgent, Now(st, a), a.reached);
    RefreshGoesOn(st', a, token, f'.0, f'.1);
    RefreshGoesOn(st, a, token, f.0, f.1);
    x', r', x, r := AlikeRefreshRow(st', st, token, a.ip, a.userAgent, Now(st, a), a.reached);
  }

  /** A token whose row is missing on one side no longer verifies on either. */
  lemma AlikeRefresh(st': Auth, st: Auth, a: Action) returns (x': Auth, answer': Answer, x: Auth, answer: Answer)
    requires Alike(st', st) && Signed(st) && a.DoRefresh?
    ensures Alike(x', x) && SameAnswer(answer', answer)
    ensures Perform(st', a) == (x', answer') && Perform(st, a) == (x, answer)
  {
    AlikeRowInv(st'.sessions, st.sessions, st.clock, st.refreshExp, st.next);
    if Precheck(st, a.presented, st.clock + a.wait).None? && a.presented.token in st'.sessions {
      FindByHashIsExact(st'.sessions, st'.refreshExp, st'.next, a.presented.token);
      FindByHashIsExact(st.sessions, st.refreshExp, st.next, a.presented.token);
      var r', r;
      x', r', x, r := AlikeFound(st', st, a);
      answer', answer := RefreshAnswer(r'), RefreshAnswer(r);
    } else {
      ExpiredRowIsRefused(st', st, a);
      RefreshRefuses(st', a);
      RefreshRefuses(st, a);
      var r := Precheck(st, a.presented, st.clock + a.wait).GetOr(UnknownToken);
      return st', RefreshAnswer(r), st, RefreshAnswer(r);
    }
  }

  lemma ExpiredRowIsRefused(st': Auth, st: Auth, a: Action)
    requires Alike(st', st) && Signed(st) && a.DoRefresh?
    requires Precheck(st, a.presented, st.clock + a.wait).None? ==> a.presented.token !in st'.sessions
    ensures Precheck(st, a.presented, st.clock + a.wait).None? ==> a.presented.token !in st.sessions
  {
    if a.presented.RefreshToken? && a.presented.token in st.sessions {
      assert GoodRow(st.refreshExp, st.next, a.presented.token, st.sessions[a.presented.token]);
    }
  }

  lemma AlikeDenial(st': Auth, st: Auth, jti: Jti, until: nat) returns (x': Auth, x: Auth)
    requires Alike(st', st)
    ensures x' == st'.(denylist := st'.denylist[jti := until]) && x == st.(denylist := st.denylist[jti := until])
            && Alike(x', x)
  {
    x', x := st'.(denylist := st'.denylist[jti := until]), st.(denylist := st.denylist[jti := until]);
    forall j: Jti ensures Entry(x'.denylist, j) == Entry(x.denylist, j) || Over(st.accessTokens, j, st.clock) {
      assert Entry(st'.denylist, j) == Entry(st.denylist, j) || Over(st.accessTokens, j, st.clock);
    }
  }

  lemma AlikeLogout(st': Auth, st: Auth, user: UserId, jti: Option<Jti>, token: Option<Token>, now: nat, via: Client)
    returns (x': Auth, x: Auth)
    requires Alike(st', st)
    ensures x' == Logout(st', user, jti, token, now, via) && x == Logout(st, user, jti, token, now, via) && Alike(x', x)
  {
    if jti.Some? && !via.up { return st', st; }
    x', x := st', st;
    if jti.Some? {
      x', x := AlikeDenial(st', st, jti.value, now + ACCESS_TOKEN_EXPIRES_MS);
    }
    if token.Some? {
      AlikeRevocations(st'.sessions, st.sessions, user, token.value, now, st.clock);
      return x'.(sessions := RevokeToken(st'.sessions, user, token.value, now)),
        x.(sessions := RevokeToken(st.sessions, user, token.value, now));
    }
  }

  lemma AlikeDenySelf(st': Auth, st: Auth, jti: Option<Jti>, now: nat) returns (x': Auth, x: Auth)
    requires Alike(st', st)
    ensures x' == DenySelf(st', jti, now) && x == DenySelf(st, jti, now) && Alike(x', x)
  {
    x', x := st', st;
    if jti.Some? { x', x := AlikeDenial(st', st, jti.value, now + ACCESS_TOKEN_EXPIRES_MS); }
  }

  /** A row update and its cache delete, and the revocation that may follow. */
  lemma AlikeUpdate(st': Auth, st: Auth, user: UserId, u: User, via: Client, revokes: bool, now: nat, reached: set<Jti>)
    returns (x': Auth, x: Auth)
    requires Alike(st', st)
    ensures var accounts := AfterUpdate(st.accounts, user, u, via);
            var y', y := st'.(accounts := accounts), st.(accounts := accounts);
            && x' == (if revokes then RevokeAll(y', user, now, reached) else y')
            && x == (if revokes then RevokeAll(y, user, now, reached) else y)
    ensures Alike(x', x)
  {
    var accounts := AfterUpdate(st.accounts, user, u, via);
    x', x := st'.(accounts := accounts), st.(accounts := accounts);
    assert Alike(x', x);
    if revokes { x', x := AlikeRevokeAll(x', x, user, now, reached); }
  }

  lemma AlikeValidate(st': Auth, st: Auth, presented: Presented, proc: Proc, promote: Option<nat>, now: nat)
    returns (x': Auth, x: Auth, v: Verdict)
    requires Alike(st', st) && st.clock <= now
    ensures Alike(x', x)
    ensures Validate(st', presented, proc, promote, now) == (x', v)
            && Validate(st, presented, proc, promote, now) == (x, v)
  {
    x', x, v := st', st, Validate(st, presented, proc, promote, now).1;
    if presented.AccessToken? && presented.jti in st.accessTokens {
      var j := presented.jti;
      assert Entry(st'.denylist, j) == Entry(st.denylist, j) || Over(st.accessTokens, j, st.clock);
      if Verifies(st.accessTokens[j].exp, now) && !OnDenylist(st.denylist, j, now) {
        var a := CachedOrStored(st.accounts, proc, promote, st.accessTokens[j].sub, now).0;
        return st'.(accounts := a), st.(accounts := a), v;
      }
    }
  }

  // ---------------------------------------------------------------- runs

  function WithoutPurge(a: Action): Action {
    if a.DoPurge? then a.(enabled := false) else a
  }

  function WithoutPurges(actions: seq<Action>): seq<Action> {
    if actions == [] then [] else [WithoutPurge(actions[0])] + WithoutPurges(actions[1..])
  }

  lemma LoginPerformed(st': Auth, st: Auth, a: Action) returns (x': Auth, answer': Answer, x: Auth, answer: Answer)
    requires Alike(st', st) && Signed(st) && a.DoLogin?
    ensures Alike(x', x) && SameAnswer(answer', answer)
    ensures Perform(st', a) == (x', answer') && Perform(st, a) == (x, answer)
  {
    var r := Login(st, a.user, a.passwordOk, a.ip, a.userAgent, st.clock + a.wait, Now(st, a), a.via).1;
    answer', answer := LoginAnswer(r), LoginAnswer(r);
    if r.Refused? { return st', answer', st, answer; }
    var u := st.accounts.users[a.user];
    var u' := if a.passwordOk then AfterReset(u) else AfterFailure(u, Now(st, a));
    x', x := AlikeUpdate(st', st, a.user, u', a.via, false, Now(st, a), {});
    if r.LoggedIn? { x', x := AlikeNewSession(x', x, a.user, a.ip, a.userAgent, None, Now(st, a)); }
  }

  lemma ChangePasswordIs(st: Auth, a: Action, x: Auth, r: AdminOutcome)
    requires a.DoChangePassword?
             && ChangePassword(st, a.user, a.currentOk, a.hashed, Now(st, a), a.via, a.reached) == (x, r)
    ensures Perform(st, a) == (x, AdminAnswer(r))
  {
  }

  lemma SetUserActiveIs(st: Auth, a: Action, x: Auth, r: AdminOutcome)
    requires a.DoSetUserActive? && SetUserActive(st, a.user, a.active, Now(st, a), a.via, a.reached) == (x, r)
    ensures Perform(st, a) == (x, AdminAnswer(r))
  {
  }

  lemma LogoutAllIs(st: Auth, a: Action, x: Auth)
    requires a.DoLogoutAll? && LogoutAll(st, a.user, a.jti, Now(st, a), a.via, a.reached) == x
    ensures Perform(st, a) == (x, NoAnswer)
  {
  }

  lemma LogoutAllPerformed(st': Auth, st: Auth, a: Action) returns (x': Auth, answer': Answer, x: Auth, answer: Answer)
    requires Alike(st', st) && a.DoLogoutAll?
    ensures Alike(x', x) && SameAnswer(answer', answer)
    ensures Perform(st', a) == (x', answer') && Perform(st, a) == (x, answer)
  {
    if a.jti.Some? && !a.via.up {
      LogoutAllIs(st', a, st');
      LogoutAllIs(st, a, st);
      return st', NoAnswer, st, NoAnswer;
    }
    LogoutAllIs(st', a, RevokeAll(DenySelf(st', a.jti, Now(st, a)), a.user, Now(st, a), a.reached));
    LogoutAllIs(st, a, RevokeAll(DenySelf(st, a.jti, Now(st, a)), a.user, Now(st, a), a.reached));
    var denied', denied := AlikeDenySelf(st', st, a.jti, Now(st, a));
    var y', y := AlikeRevokeAll(denied', denied, a.user, Now(st, a), a.reached);
    return y', NoAnswer, y, NoAnswer;
  }

  lemma ChangePasswordPerformed(st': Auth, st: Auth, a: Action)
    returns (x': Auth, answer': Answer, x: Auth, answer: Answer)
    requires Alike(st', st) && a.DoChangePassword?
    ensures Alike(x', x) && SameAnswer(answer', answer)
    ensures Perform(st', a) == (x', answer') && Perform(st, a) == (x, answer)
  {
    var f' := ChangePassword(st', a.user, a.currentOk, a.hashed, Now(st, a), a.via, a.reached);
    var f := ChangePassword(st, a.user, a.currentOk, a.hashed, Now(st, a), a.via, a.reached);
    ChangePasswordIs(st', a, f'.0, f'.1);
    ChangePasswordIs(st, a, f.0, f.1);
    if !Findable(st.accounts, a.user) || !a.currentOk { return st', AdminAnswer(f.1), st, AdminAnswer(f.1); }
    var u := st.accounts.users[a.user].(password := a.hashed);
    x', x := AlikeUpdate(st', st, a.user, u, a.via, a.via.up, Now(st, a), a.reached);
    answer', answer := AdminAnswer(f.1), AdminAnswer(f.1);
  }

  lemma SetUserActivePerformed(st': Auth, st: Auth, a: Action)
    returns (x': Auth, answer': Answer, x: Auth, answer: Answer)
    requires Alike(st', st) && a.DoSetUserActive?
    ensures Alike(x', x) && SameAnswer(answer', answer)
    ensures Perform(st', a) == (x', answer') && Perform(st, a) == (x, answer)
  {
    var f' := SetUserActive(st', a.user, a.active, Now(st, a), a.via, a.reached);
    var f := SetUserActive(st, a.user, a.active, Now(st, a), a.via, a.reached);
    SetUserActiveIs(st', a, f'.0, f'.1);
    SetUserActiveIs(st, a, f.0, f.1);
    if !Findable(st.accounts, a.user) { return st', AdminAnswer(NotFound), st, AdminAnswer(NotFound); }
    var u := st.accounts.users[a.user].(isActive := a.active);
    x', x := AlikeUpdate(st', st, a.user, u, a.via, a.via.up && !a.active, Now(st, a), a.reached);
    answer', answer := AdminAnswer(f.1), AdminAnswer(f.1);
  }

  lemma AlikePerform(st': Auth, st: Auth, a: Action) returns (x': Auth, answer': Answer, x: Auth, answer: Answer)
    requires Alike(st', st) && Signed(st) && !a.DoPurge?
    ensures Alike(x', x) && SameAnswer(answer', answer)
    ensures Perform(st', a) == (x', answer') && Perform(st, a) == (x, answer)
  {
    match a
    case DoLogin(_, _, _, _, _, _, _) => x', answer', x, answer := LoginPerformed(st', st, a);
    case DoRefresh(_, _, _, _, _, _) => x', answer', x, answer := AlikeRefresh(st', st, a);
    case DoLogout(user, jti, token, via, _) =>
      var y', y := AlikeLogout(st', st, user, jti, token, Now(st, a), via);
      return y', NoAnswer, y, NoAnswer;
    case DoLogoutAll(_, _, _, _, _) => x', answer', x, answer := LogoutAllPerformed(st', st, a);
    case DoChangePassword(_, _, _, _, _, _) => x', answer', x, answer := ChangePasswordPerformed(st', st, a);
    case DoSetUserActive(_, _, _, _, _) => x', answer', x, answer := SetUserActivePerformed(st', st, a);
    case DoRegister(user, hashed, _) =>
      return Register(st', user, hashed), NoAnswer, Register(st, user, hashed), NoAnswer;
    case DoValidate(presented, proc, promote, _) =>
      var y', y, v := AlikeValidate(st', st, presented, proc, promote, Now(st, a));
      return y', ValidateAnswer(v), y, ValidateAnswer(v);
  }

  lemma ClockIsOwn(st: Auth, a: Action)
    ensures Perform(st, a).0.clock == st.clock
  {
  }

  lemma AlikePurge(st': Auth, st: Auth, a: Action)
    requires Alike(st', st) && Signed(st) && a.DoPurge?
    ensures Alike(Step(st', a), Step(st, WithoutPurge(a)))
  {
    var now := Now(st, a);
    var rows := if a.enabled then DeleteRows(st'.sessions, Expired(st'.sessions, DaysAgo(a.graceDays, now)) - a.spared)
      else st'.sessions;
    PurgeSteps(st', a, rows);
    PurgeSteps(st, WithoutPurge(a), st.sessions);
    AlikeLater(st', st, now);
    if a.enabled {
      AlikeDeletion(st'.sessions, st.sessions, DaysAgo(a.graceDays, now), a.spared, now);
      DeletedOver(st', st, rows, now);
    }
  }

  lemma PurgeSteps(st: Auth, a: Action, rows: Rows)
    requires a.DoPurge?
    requires var stale := Expired(st.sessions, DaysAgo(a.graceDays, Now(st, a)));
             rows == if a.enabled then DeleteRows(st.sessions, stale - a.spared) else st.sessions
    ensures Step(st, a) == st.(sessions := rows, clock := Now(st, a))
  {
  }

  /** A row that has expired had its access token expire before. */
  lemma DeletedOver(st': Auth, st: Auth, rows': Rows, now: nat)
    requires Signed(st) && AlikeRows(rows', st.sessions, now)
    ensures MissingOver(rows', st.sessions, st.accessTokens, now)
  {
    forall i | i in st.sessions && i !in rows'
      ensures Over(st.accessTokens, i, now) && st.sessions[i].accessJti == Some(i)
    {
      assert GoodRow(st.refreshExp, st.next, i, st.sessions[i]);
    }
  }

  lemma AlikeStep(st': Auth, st: Auth, a: Action)
    requires Alike(st', st) && Signed(st)
    ensures Alike(Step(st', a), Step(st, WithoutPurge(a)))
    ensures SameAnswer(Perform(st', a).1, Perform(st, WithoutPurge(a)).1)
  {
    if a.DoPurge? {
      AlikePurge(st', st, a);
    } else {
      var x', answer', x, answer := AlikePerform(st', st, a);
      ClockIsOwn(st, a);
      AlikeLater(x', x, Now(st, a));
    }
  }

  lemma {:induction false} AlikeRuns(st': Auth, st: Auth, actions: seq<Action>)
    requires Alike(st', st) && Inv(st)
    ensures Alike(Run(st', actions), Run(st, WithoutPurges(actions)))
    ensures Inv(Run(st, WithoutPurges(actions)))
    decreases |actions|
  {
    if actions != [] {
      var a, b := actions[0], WithoutPurge(actions[0]);
      AlikeStep(st', st, a);
      StepKeepsInv(st, b);
      assert WithoutPurges(actions)[0] == b && WithoutPurges(actions)[1..] == WithoutPurges(actions[1..]);
      AlikeRuns(Step(st', a), Step(st, b), actions[1..]);
    }
  }

  lemma AlikeListings(rows': Rows, rows: Rows, user: UserId, now: nat, out: seq<SessionView>, clock: nat)
    requires AlikeRows(rows', rows, clock) && clock <= now
    ensures IsListing(rows', user, now, out) <==> IsListing(rows, user, now, out)
  {
    forall id ensures Listed(rows', user, now, id) <==> Listed(rows, user, now, id) {
      if id in rows' { assert SameRow(rows'[id], rows[id]); }
    }
    forall id | id in rows' ensures View(id, rows'[id]) == View(id, rows[id]) {
      assert SameRow(rows'[id], rows[id]);
    }
  }

  /** Purge is invisible. After any run with any purges in it, and after the same run with its
      purges switched off, every further operation gets the same answer - refresh on every token
      and validation of every token included - and the same session lists are possible. Only the
      counts of revoked sessions may be lower, and back-links may have been nulled. */
  lemma PurgeIsInvisible(users: map<UserId, User>, actions: seq<Action>, a: Action, user: UserId, now: nat,
                         out: seq<SessionView>)
    ensures var st', st := Run(Init(users), actions), Run(Init(users), WithoutPurges(actions));
            && SameAnswer(Perform(st', a).1, Perform(st, WithoutPurge(a)).1)
            && AlikeRows(st'.sessions, st.sessions, st.clock)
            && (st.clock <= now
                ==> (IsListing(st'.sessions, user, now, out) <==> IsListing(st.sessions, user, now, out)))
  {
    AlikeRuns(Init(users), Init(users), actions);
    var st', st := Run(Init(users), actions), Run(Init(users), WithoutPurges(actions));
    AlikeStep(st', st, a);
    if st.clock <= now { AlikeListings(st'.sessions, st.sessions, user, now, out, st.clock); }
  }
}
