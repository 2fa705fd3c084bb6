/** Counting over runs: sessions against logins, sessions of inactive users, password guesses. */
module SessionAccounting {
  import opened Wrappers
  import opened CacheTiers
  import opened Users
  import opened Sessions
  import opened SessionAccounts
  import opened SessionInvariants
  import opened SessionTheorems
  import opened Sets

  // ---------------------------------------------------------------- conservation

  /** How one operation moves the set of a user's unrevoked sessions. */
  ghost predicate Moved(before: set<SessionId>, after: set<SessionId>, a: Action, answer: Answer, user: UserId) {
    match a
    case DoLogin(u, _, _, _, _, _, _) =>
      if u == user && answer.LoginAnswer? && answer.login.LoggedIn?
      then answer.login.session !in before && after == before + {answer.login.session}
      else after == before
    case DoRefresh(presented, _, _, _, _, _) =>
      if answer.RefreshAnswer? && answer.refresh.Refreshed? && answer.refresh.user == user
      then presented.RefreshToken? && presented.token in before && answer.refresh.successor !in before
           && after == before - {presented.token} + {answer.refresh.successor}
      else after == before || after == {}
    case DoLogout(u, _, token, _, _) => after == before || (u == user && token.Some? && after == before - {token.value})
    case DoLogoutAll(u, _, _, _, _) => after == before || (u == user && after == {})
    case DoChangePassword(u, _, _, _, _, _) => after == before || (u == user && after == {})
    case DoSetUserActive(u, active, _, _, _) => after == before || (u == user && !active && after == {})
    case DoPurge(_, _, _, _) => after <= before
    case _ => after == before
  }

  lemma RowsOfOthers(rows: Rows, user: UserId, other: UserId, now: nat)
    ensures UnrevokedOf(RevokeRows(rows, other, now), user) == if user == other then {} else UnrevokedOf(rows, user)
  {
  }

  lemma ExchangeSwaps(st: Auth, id: SessionId, ip: Option<string>, agent: Option<string>, now: nat, user: UserId)
    requires id in st.sessions && st.next !in st.sessions && st.sessions[id].revokedAt.None?
    ensures var before := UnrevokedOf(st.sessions, user);
            var after := UnrevokedOf(Exchange(st, id, ip, agent, now).sessions, user);
            if user == st.sessions[id].userId then
              id in before && st.next !in before && after == before - {id} + {st.next}
            else after == before
  {
  }

  lemma RefreshMoves(st: Auth, id: SessionId, ip: Option<string>, agent: Option<string>, now: nat, reached: set<Jti>,
                     user: UserId)
    requires id in st.sessions && st.next !in st.sessions
    ensures var (st', outcome) := RefreshRow(st, id, ip, agent, now, reached);
            var before, after := UnrevokedOf(st.sessions, user), UnrevokedOf(st'.sessions, user);
            if outcome.Refreshed? && outcome.user == user
            then id in before && outcome.successor !in before && after == before - {id} + {outcome.successor}
            else after == before || after == {}
  {
    RefreshRowCases(st, id, ip, agent, now, reached);
    var outcome := RefreshRow(st, id, ip, agent, now, reached).1;
    if outcome.Refreshed? {
      ExchangeSwaps(st, id, ip, agent, now, user);
    } else if Sweeps(outcome) {
      RowsOfOthers(st.sessions, user, st.sessions[id].userId, now);
    }
  }

  lemma OwnerMoves(st: Auth, a: Action, user: UserId)
    requires Inv(st) && ByOwnerOrAdmin(a)
    ensures Moved(UnrevokedOf(st.sessions, user), UnrevokedOf(Perform(st, a).0.sessions, user), a, Perform(st, a).1,
                  user)
  {
    if a.DoLogout? {
      LogoutMoves(st, a, user);
    } else {
      BulkMoves(st, a, user);
    }
  }

  lemma LogoutMoves(st: Auth, a: Action, user: UserId)
    requires RowInv(st.sessions, st.refreshExp, st.next) && a.DoLogout?
    ensures Moved(UnrevokedOf(st.sessions, user), UnrevokedOf(Perform(st, a).0.sessions, user), a, Perform(st, a).1,
                  user)
  {
    if a.token.Some? {
      TokenMoves(st.sessions, st.refreshExp, st.next, a.user, a.token.value, Now(st, a), user);
    }
  }

  lemma BulkMoves(st: Auth, a: Action, user: UserId)
    requires a.DoLogoutAll? || a.DoChangePassword? || a.DoSetUserActive?
    ensures Moved(UnrevokedOf(st.sessions, user), UnrevokedOf(Perform(st, a).0.sessions, user), a, Perform(st, a).1,
                  user)
  {
    RowsOfOthers(st.sessions, user, a.user, Now(st, a));
    match a
    case DoLogoutAll(_, _, _, _, _) => LogoutAllRows(st, a);
    case DoChangePassword(_, _, _, _, _, _) => ChangePasswordRows(st, a);
    case DoSetUserActive(_, _, _, _, _) => SetUserActiveRows(st, a);
  }

  lemma LogoutAllRows(st: Auth, a: Action)
    requires a.DoLogoutAll?
    ensures Perform(st, a).0.sessions == st.sessions
            || Perform(st, a).0.sessions == RevokeRows(st.sessions, a.user, Now(st, a))
  {
  }

  lemma ChangePasswordRows(st: Auth, a: Action)
    requires a.DoChangePassword?
    ensures Perform(st, a).0.sessions == st.sessions
            || Perform(st, a).0.sessions == RevokeRows(st.sessions, a.user, Now(st, a))
  {
  }

  lemma SetUserActiveRows(st: Auth, a: Action)
    requires a.DoSetUserActive?
    ensures Perform(st, a).0.sessions == st.sessions
            || (!a.active && Perform(st, a).0.sessions == RevokeRows(st.sessions, a.user, Now(st, a)))
  {
  }

  lemma TokenMoves(rows: Rows, refreshExp: map<Token, nat>, next: nat, owner: UserId, token: Token, now: nat,
                   user: UserId)
    requires RowInv(rows, refreshExp, next)
    ensures var before, after := UnrevokedOf(rows, user), UnrevokedOf(RevokeToken(rows, owner, token, now), user);
            after == before || (user == owner && after == before - {token})
  {
    forall i | i in rows ensures rows[i].refreshTokenHash == i {
      assert GoodRow(refreshExp, next, i, rows[i]);
    }
  }

  lemma LoginMoves(st: Auth, a: Action, user: UserId)
    requires st.next !in st.sessions && a.DoLogin?
    ensures Moved(UnrevokedOf(st.sessions, user), UnrevokedOf(Perform(st, a).0.sessions, user), a, Perform(st, a).1,
                  user)
  {
  }

  lemma ExchangeMoves(st: Auth, a: Action, user: UserId)
    requires RowInv(st.sessions, st.refreshExp, st.next) && a.DoRefresh?
    ensures Moved(UnrevokedOf(st.sessions, user), UnrevokedOf(Perform(st, a).0.sessions, user), a, Perform(st, a).1,
                  user)
  {
    RowsBelowNext(st.sessions, st.refreshExp, st.next);
    if Precheck(st, a.presented, st.clock + a.wait).None? && a.presented.token in st.sessions {
      var token := a.presented.token;
      var (x, r) := RefreshRow(st, token, a.ip, a.userAgent, Now(st, a), a.reached);
      RefreshFinds(st, a, x, r);
      RefreshMoves(st, token, a.ip, a.userAgent, Now(st, a), a.reached, user);
    } else {
      RefreshRefuses(st, a);
    }
  }

  lemma QuietMoves(st: Auth, a: Action, user: UserId)
    requires a.DoPurge? || a.DoRegister? || a.DoValidate?
    ensures Moved(UnrevokedOf(st.sessions, user), UnrevokedOf(Perform(st, a).0.sessions, user), a, Perform(st, a).1,
                  user)
  {
  }

  lemma StepMoves(st: Auth, a: Action, user: UserId)
    requires Inv(st)
    ensures Moved(UnrevokedOf(st.sessions, user), UnrevokedOf(Step(st, a).sessions, user), a, Perform(st, a).1, user)
  {
    if ByOwnerOrAdmin(a) {
      OwnerMoves(st, a, user);
    } else if a.DoRefresh? {
      ExchangeMoves(st, a, user);
    } else if a.DoLogin? {
      RowsBelowNext(st.sessions, st.refreshExp, st.next);
      LoginMoves(st, a, user);
    } else {
      QuietMoves(st, a, user);
    }
  }

  /** What a move does to the number. */
  lemma MovedCount(before: set<SessionId>, after: set<SessionId>, a: Action, answer: Answer, user: UserId)
    requires Moved(before, after, a, answer, user)
    ensures a.DoLogin? && a.user == user && answer.LoginAnswer? && answer.login.LoggedIn? ==> |after| == |before| + 1
    ensures a.DoRefresh? && answer.RefreshAnswer? && answer.refresh.Refreshed? && answer.refresh.user == user
            ==> |after| == |before|
    ensures a.DoLogout? ==> |before| - 1 <= |after| <= |before|
    ensures |after| <= |before| || (a.DoLogin? && a.user == user && answer.LoginAnswer? && answer.login.LoggedIn?)
  {
    if a.DoPurge? { SubsetSize(after, before); }
  }

  /** One operation and the number of a user's unrevoked sessions: a login adds one, a refresh
      keeps the number exactly, a logout lowers it by at most one, and nothing else raises it. */
  lemma CountAfterStep(st: Auth, a: Action, user: UserId)
    requires Inv(st)
    ensures var n, n' := |UnrevokedOf(st.sessions, user)|, |UnrevokedOf(Step(st, a).sessions, user)|;
            var answer := Perform(st, a).1;
            && (answer.LoginAnswer? && answer.login.LoggedIn? && a.user == user ==> n' == n + 1)
            && (answer.RefreshAnswer? && answer.refresh.Refreshed? ==> n' == n)
            && (a.DoLogout? ==> n - 1 <= n' <= n)
            && (BulkRevokes(st, a, answer, user) ==> n' == 0)
            && (n' <= n || (answer.LoginAnswer? && answer.login.LoggedIn? && a.user == user))
  {
    var before, after := UnrevokedOf(st.sessions, user), UnrevokedOf(Step(st, a).sessions, user);
    var answer := Perform(st, a).1;
    StepMoves(st, a, user);
    MovedCount(before, after, a, answer, user);
    AnswersFit(st, a);
    if BulkRevokes(st, a, answer, user) { BulkRevokesAll(st, a, user); }
    if a.DoRefresh? && answer.refresh.Refreshed? && answer.refresh.user != user {
      RefreshedOthers(st, a, user);
    }
  }

  lemma AnswersFit(st: Auth, a: Action)
    ensures Perform(st, a).1.LoginAnswer? <==> a.DoLogin?
    ensures Perform(st, a).1.RefreshAnswer? <==> a.DoRefresh?
  {
  }

  lemma RefreshedOthers(st: Auth, a: Action, user: UserId)
    requires Inv(st) && a.DoRefresh? && Perform(st, a).1.refresh.Refreshed? && Perform(st, a).1.refresh.user != user
    ensures UnrevokedOf(Step(st, a).sessions, user) == UnrevokedOf(st.sessions, user)
  {
    RowsBelowNext(st.sessions, st.refreshExp, st.next);
    if Precheck(st, a.presented, st.clock + a.wait).None? && a.presented.token in st.sessions {
      var (x, r) := RefreshRow(st, a.presented.token, a.ip, a.userAgent, Now(st, a), a.reached);
      RefreshFinds(st, a, x, r);
      ExchangedOthers(st, a.presented.token, a.ip, a.userAgent, Now(st, a), a.reached, user);
    } else {
      RefreshRefuses(st, a);
    }
  }

  lemma ExchangedOthers(st: Auth, id: SessionId, ip: Option<string>, agent: Option<string>, now: nat, reached: set<Jti>,
                        user: UserId)
    requires id in st.sessions && st.next !in st.sessions
    ensures var (x, r) := RefreshRow(st, id, ip, agent, now, reached);
            r.Refreshed? && r.user != user ==> UnrevokedOf(x.sessions, user) == UnrevokedOf(st.sessions, user)
  {
    RefreshRowIsExact(st, id, ip, agent, now, reached);
  }

  /** The user's successful logins since the last bulk revocation of their sessions, on top of `c`. */
  ghost function Logins(st: Auth, actions: seq<Action>, user: UserId, c: nat): nat
    decreases |actions|
  {
    if actions == [] then c
    else
      var (a, answer) := (actions[0], Perform(st, actions[0]).1);
      var c' := if BulkRevokes(st, a, answer, user) then 0
                else if answer.LoginAnswer? && answer.login.LoggedIn? && a.user == user then c + 1
                else c;
      Logins(Step(st, a), actions[1..], user, c')
  }

  lemma {:induction false} CountWithinLogins(st: Auth, actions: seq<Action>, user: UserId, c: nat)
    requires Inv(st) && |UnrevokedOf(st.sessions, user)| <= c
    ensures |UnrevokedOf(Run(st, actions).sessions, user)| <= Logins(st, actions, user, c)
    decreases |actions|
  {
    if actions != [] {
      var (a, answer) := (actions[0], Perform(st, actions[0]).1);
      CountAfterStep(st, a, user);
      StepKeepsInv(st, a);
      var c' := if BulkRevokes(st, a, answer, user) then 0
                else if answer.LoginAnswer? && answer.login.LoggedIn? && a.user == user then c + 1
                else c;
      CountWithinLogins(Step(st, a), actions[1..], user, c');
    }
  }

  /** Conservation: in every run a user's unrevoked sessions never outnumber their successful
      logins since the last bulk revocation. */
  lemma SessionsNeverExceedLogins(users: map<UserId, User>, actions: seq<Action>, user: UserId)
    ensures |UnrevokedOf(Run(Init(users), actions).sessions, user)| <= Logins(Init(users), actions, user, 0)
  {
    CountWithinLogins(Init(users), actions, user, 0);
  }

  // ---------------------------------------------------------------- inactive users

  /** No inactive user has an unrevoked session. */
  ghost predicate InactiveClean(st: Auth) {
    forall u | InactiveIn(st.accounts, u) :: UnrevokedOf(st.sessions, u) == {}
  }

  /** The deactivation writes the row, then its cache delete throws: revocation is skipped. */
  predicate Interrupted(a: Action) {
    a.DoSetUserActive? && !a.active && !a.via.up
  }

  /** An inactive user gains no session, whatever happens and whatever fails: neither login nor
      refresh gives one. */
  lemma InactiveGainsNothing(st: Auth, a: Action, user: UserId)
    requires Inv(st) && InactiveIn(st.accounts, user)
    ensures UnrevokedOf(Step(st, a).sessions, user) <= UnrevokedOf(st.sessions, user)
  {
    StepMoves(st, a, user);
    if a.DoRefresh? && a.presented.RefreshToken? {
      FindByHashIsExact(st.sessions, st.refreshExp, st.next, a.presented.token);
    }
  }

  /** Exactly one kind of step breaks the rule: a deactivation of a user with unrevoked sessions
      whose cache delete fails. */
  lemma InactiveCleanIff(st: Auth, a: Action)
    requires Inv(st) && InactiveClean(st)
    ensures InactiveClean(Step(st, a))
            <==> !(Interrupted(a) && Findable(st.accounts, a.user) && UnrevokedOf(st.sessions, a.user) != {})
  {
    forall u | InactiveIn(Step(st, a).accounts, u) && !(Interrupted(a) && a.user == u)
      ensures UnrevokedOf(Step(st, a).sessions, u) == {}
    {
      StepActivity(st, a, u);
      if InactiveIn(st.accounts, u) { InactiveGainsNothing(st, a, u); } else { BulkRevokesAll(st, a, u); }
    }
    if Interrupted(a) {
      StepActivity(st, a, a.user);
      assert Step(st, a).sessions == st.sessions;
    }
  }

  lemma {:induction false} InactiveStaysClean(st: Auth, actions: seq<Action>)
    requires Inv(st) && InactiveClean(st) && forall a | a in actions :: !Interrupted(a)
    ensures InactiveClean(Run(st, actions))
    decreases |actions|
  {
    if actions != [] {
      InactiveCleanIff(st, actions[0]);
      StepKeepsInv(st, actions[0]);
      InactiveStaysClean(Step(st, actions[0]), actions[1..]);
    }
  }

  /** Over all runs in which no deactivation loses its cache delete, an inactive user has no
      unrevoked session, denylist failures or not. */
  lemma InactiveUsersHaveNoSessions(users: map<UserId, User>, actions: seq<Action>, user: UserId)
    requires forall a | a in actions :: !Interrupted(a)
    requires InactiveIn(Run(Init(users), actions).accounts, user)
    ensures UnrevokedOf(Run(Init(users), actions).sessions, user) == {}
  {
    InactiveStaysClean(Init(users), actions);
  }

  /** Without that condition it is false: a failing cache delete leaves the session open. */
  lemma InterruptedDeactivationLeavesSessions()
    ensures var actions
            := [DoLogin("u", true, None, None, Client(0, true), 0, 0),
                DoSetUserActive("u", false, Client(0, false), {}, 0)];
            var st := Run(Init(map["u" := User(true, false, 0, None, "")]), actions);
            InactiveIn(st.accounts, "u") && UnrevokedOf(st.sessions, "u") != {}
  {
    var st0 := Init(map["u" := User(true, false, 0, None, "")]);
    var a, b := DoLogin("u", true, None, None, Client(0, true), 0, 0),
      DoSetUserActive("u", false, Client(0, false), {}, 0);
    var st1 := Step(st0, a);
    var st2 := Step(st1, b);
    assert [a, b][1..] == [b] && [b][1..] == [];
    assert Run(st0, [a, b]) == Run(st1, [b]) == Run(st2, []) == st2;
    assert 0 in UnrevokedOf(st2.sessions, "u");
  }

  // ---------------------------------------------------------------- password guesses

  /** Logins on one account that reach the comparison and start between `from` and `to`. */
  ghost function Guesses(st: Auth, actions: seq<Action>, user: UserId, from: nat, to: nat): nat
    decreases |actions|
  {
    if actions == [] then 0
    else
      (if Reaches(st, actions[0], user) && from <= st.clock + actions[0].wait <= to then 1 else 0)
      + Guesses(Step(st, actions[0]), actions[1..], user, from, to)
  }

  /** The right password never reaches the comparison. */
  ghost predicate NoSuccess(st: Auth, actions: seq<Action>, user: UserId)
    decreases |actions|
  {
    actions == [] || (!(Reaches(st, actions[0], user) && actions[0].passwordOk)
                      && NoSuccess(Step(st, actions[0]), actions[1..], user))
  }

  /** The stored account, or the one registration would create. */
  function Account(st: Auth, user: UserId): User {
    if user in st.accounts.users then st.accounts.users[user] else User(true, false, 0, None, "")
  }

  lemma BudgetShrinks(u: User, low: nat, low': nat, to: nat)
    requires low <= low'
    ensures Budget(u, low', to) <= Budget(u, low, to)
  {
  }

  ghost predicate SameCounters(u: User, u': User) {
    u'.failedLoginAttempts == u.failedLoginAttempts && u'.lockedUntil == u.lockedUntil
  }

  /** Counter and deadline move only by the logins that reach the comparison. */
  lemma StepCounters(st: Auth, a: Action, user: UserId)
    requires !(Reaches(st, a, user) && a.passwordOk)
    ensures var u := Account(st, user);
            var guessed := AfterWrongGuess(u, Attempt(st.clock + a.wait, Now(st, a)));
            SameCounters(if Reaches(st, a, user) then guessed else u, Account(Step(st, a), user))
  {
    StepAccounts(st, a);
    AccountsCounters(st, a, user);
  }

  lemma AccountsCounters(st: Auth, a: Action, user: UserId)
    requires !(Reaches(st, a, user) && a.passwordOk)
    ensures var u := Account(st, user);
            var guessed := AfterWrongGuess(u, Attempt(st.clock + a.wait, Now(st, a)));
            var after := Account(st.(accounts := AccountsAfter(st, a)), user);
            SameCounters(if Reaches(st, a, user) then guessed else u, after)
  {
  }

  lemma {:induction false} GuessesWithinBudget(st: Auth, actions: seq<Action>, user: UserId, from: nat, to: nat)
    requires NoSuccess(st, actions, user)
    ensures Guesses(st, actions, user, from, to) <= Budget(Account(st, user), Max(st.clock, from), to)
    decreases |actions|
  {
    if actions != [] {
      var a, st' := actions[0], Step(st, actions[0]);
      GuessesWithinBudget(st', actions[1..], user, from, to);
      StepCounters(st, a, user);
      var low := Max(st.clock, from);
      if Reaches(st, a, user) {
        AttemptSpendsBudget(Account(st, user), Attempt(st.clock + a.wait, Now(st, a)), low, from, to);
      } else {
        BudgetShrinks(Account(st, user), low, Max(st'.clock, from), to);
      }
    }
  }

  /** Guess bound over whole runs: whatever else happens on the system, and whoever else logs in,
      wrong guesses on one account reach the comparison at most five times plus once per full lock
      period of the window, until one of them succeeds. */
  lemma GuessesAreBounded(users: map<UserId, User>, before: seq<Action>, actions: seq<Action>, user: UserId, from: nat,
                          to: nat)
    requires from <= to && NoSuccess(Run(Init(users), before), actions, user)
    ensures Guesses(Run(Init(users), before), actions, user, from, to) <= 5 + (to - from) / LOCKOUT_DURATION_MS
  {
    var st := Run(Init(users), before);
    GuessesWithinBudget(st, actions, user, from, to);
    BudgetIsBounded(Account(st, user), Max(st.clock, from), from, to);
  }

  lemma BudgetIsBounded(u: User, low: nat, from: nat, to: nat)
    requires from <= low && from <= to
    ensures Budget(u, low, to) <= 5 + (to - from) / LOCKOUT_DURATION_MS
  {
  }

  /** A correct password that reaches the comparison clears counter and lock and leaves the rest of the
      account alone, even if the request then fails: the four free guesses are back. */
  lemma SuccessRestoresGuesses(st: Auth, a: Action, user: UserId, t: nat)
    requires Reaches(st, a, user) && a.passwordOk
    ensures Free(Account(Step(st, a), user)) == 4 && !LockedAt(Account(Step(st, a), user), t)
    ensures Account(Step(st, a), user) == Account(st, user).(failedLoginAttempts := 0, lockedUntil := None)
  {
    StepAccounts(st, a);
  }
}
