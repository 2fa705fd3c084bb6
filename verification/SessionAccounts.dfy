/** What each operation does to the users table and to the cached copies of its rows. */
module SessionAccounts {
  import opened Wrappers
  import opened CacheTiers
  import opened Users
  import opened Sessions

  /** The login reaches the password comparison. */
  predicate Reaches(st: Auth, a: Action, user: UserId) {
    && a.DoLogin? && a.user == user && Findable(st.accounts, user)
    && Compares(st.accounts.users[user], Attempt(st.clock + a.wait, Now(st, a)))
  }

  /** The row of `a.user` the operation writes, if it writes one. */
  function NewRow(st: Auth, a: Action): (r: Option<User>)
    ensures r.Some? ==>
              && (a.DoLogin? || a.DoChangePassword? || a.DoSetUserActive?)
              && Findable(st.accounts, a.user) && !r.value.deleted
  {
    match a
    case DoLogin(user, ok, _, _, _, _, _) =>
      if !Reaches(st, a, user) then None
      else if ok then Some(AfterReset(st.accounts.users[user]))
      else Some(AfterFailure(st.accounts.users[user], Now(st, a)))
    case DoChangePassword(user, ok, hashed, _, _, _) =>
      if Findable(st.accounts, user) && ok then Some(st.accounts.users[user].(password := hashed)) else None
    case DoSetUserActive(user, active, _, _, _) =>
      if Findable(st.accounts, user) then Some(st.accounts.users[user].(isActive := active)) else None
    case _ => None
  }

  /** The user whose row a validation looks up. */
  function Subject(st: Auth, a: Action): Option<UserId> {
    if a.DoValidate? && a.presented.AccessToken? && Live(st, a.presented.jti, Now(st, a))
    then Some(st.accessTokens[a.presented.jti].sub) else None
  }

  /** A signed access token that has neither expired nor been denylisted. */
  predicate Live(st: Auth, jti: Jti, now: nat) {
    jti in st.accessTokens && Verifies(st.accessTokens[jti].exp, now) && !OnDenylist(st.denylist, jti, now)
  }

  function AccountsAfter(st: Auth, a: Action): Accounts {
    if NewRow(st, a).Some? then AfterUpdate(st.accounts, a.user, NewRow(st, a).value, a.via)
    else if a.DoRegister? then Register(st, a.user, a.hashed).accounts
    else if Subject(st, a).Some? then CachedOrStored(st.accounts, a.proc, a.promote, Subject(st, a).value, Now(st, a)).0
    else st.accounts
  }

  lemma LoginAccounts(st: Auth, a: Action)
    requires a.DoLogin?
    ensures Perform(st, a).0.accounts == AccountsAfter(st, a)
  {
  }

  lemma RefreshAccounts(st: Auth, a: Action)
    requires a.DoRefresh?
    ensures Perform(st, a).0.accounts == AccountsAfter(st, a)
  {
  }

  lemma LogoutAccounts(st: Auth, a: Action)
    requires a.DoLogout? || a.DoLogoutAll? || a.DoPurge? || a.DoRegister?
    ensures Perform(st, a).0.accounts == AccountsAfter(st, a)
  {
  }

  lemma AdminAccounts(st: Auth, a: Action)
    requires a.DoChangePassword? || a.DoSetUserActive?
    ensures Perform(st, a).0.accounts == AccountsAfter(st, a)
  {
  }

  lemma ValidateAccounts(st: Auth, a: Action)
    requires a.DoValidate?
    ensures Perform(st, a).0.accounts == AccountsAfter(st, a)
  {
  }

  /** Every operation's effect on accounts is one row update, one registration, or one cache fill. */
  lemma StepAccounts(st: Auth, a: Action)
    ensures Step(st, a).accounts == AccountsAfter(st, a)
  {
    match a
    case DoLogin(_, _, _, _, _, _, _) => LoginAccounts(st, a);
    case DoRefresh(_, _, _, _, _, _) => RefreshAccounts(st, a);
    case DoChangePassword(_, _, _, _, _, _) => AdminAccounts(st, a);
    case DoSetUserActive(_, _, _, _, _) => AdminAccounts(st, a);
    case DoValidate(_, _, _, _) => ValidateAccounts(st, a);
    case _ => LogoutAccounts(st, a);
  }

  predicate InactiveIn(a: Accounts, user: UserId) {
    user in a.users && !a.users[user].isActive
  }

  /** Only (de)activation changes who is inactive. */
  lemma StepActivity(st: Auth, a: Action, user: UserId)
    ensures InactiveIn(Step(st, a).accounts, user) <==>
              if a.DoSetUserActive? && a.user == user && Findable(st.accounts, user) then !a.active
              else InactiveIn(st.accounts, user)
  {
    StepAccounts(st, a);
  }
}
