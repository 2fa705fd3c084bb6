/**
 A login awaits the password comparison between reading a user row and acting on it. Any other
 operations may come in between: exactly when the delay does harm.
 */
module SplitLogin {
  import opened Wrappers
  import opened CacheTiers
  import opened Users
  import opened Sessions
  import opened SessionInvariants
  import opened SessionAccounts
  import opened SessionAccounting
  import opened GuessesInFlight

  /** The reading half: the row is there, active and not locked. */
  predicate Admitted(st: Auth, user: UserId, start: nat) {
    Findable(st.accounts, user) && st.accounts.users[user].isActive && !LockedAt(st.accounts.users[user], start)
  }

  /** The acting half, once the password has been compared. It does not look at the row again. */
  function FinishLogin(st: Auth, user: UserId, passwordOk: bool, ip: Option<string>, userAgent: Option<string>,
                       end: nat, via: Client): (Auth, LoginOutcome)
    requires Findable(st.accounts, user)
  {
    var u := st.accounts.users[user];
    if !passwordOk then
      (st.(accounts := AfterUpdate(st.accounts, user, AfterFailure(u, end), via)), if via.up then Failed else Threw)
    else
      var reset := st.(accounts := AfterUpdate(st.accounts, user, AfterReset(u), via));
      if !via.up then (reset, Threw) else (NewSession(reset, user, ip, userAgent, None, end), LoggedIn(st.next))
  }

  /** With nothing in between the halves make up the login of the state machine. */
  lemma HalvesMakeLogin(st: Auth, user: UserId, ok: bool, ip: Option<string>, agent: Option<string>, start: nat,
                        end: nat, via: Client)
    ensures Login(st, user, ok, ip, agent, start, end, via)
            == if Admitted(st, user, start) then FinishLogin(st, user, ok, ip, agent, end, via) else (st, Refused)
  {
  }

  /** Whether the user is active after the operations, by the last (de)activation among them. */
  function Switched(actions: seq<Action>, user: UserId, active: bool): bool {
    if actions == [] then active
    else
      var switches := actions[0].DoSetUserActive? && actions[0].user == user;
      Switched(actions[1..], user, if switches then actions[0].active else active)
  }

  lemma StepFindable(st: Auth, a: Action, user: UserId)
    requires Findable(st.accounts, user)
    ensures Findable(Step(st, a).accounts, user)
  {
    StepAccounts(st, a);
  }

  lemma {:induction false} RunSwitches(st: Auth, actions: seq<Action>, user: UserId)
    requires Findable(st.accounts, user)
    ensures Findable(Run(st, actions).accounts, user)
    ensures Run(st, actions).accounts.users[user].isActive
            <==> Switched(actions, user, st.accounts.users[user].isActive)
    decreases |actions|
  {
    if actions != [] {
      StepFindable(st, actions[0], user);
      StepActivity(st, actions[0], user);
      RunSwitches(Step(st, actions[0]), actions[1..], user);
    }
  }

  /** Who is inactive stays; one fresh session is added if the login succeeds. */
  lemma FinishMoves(st: Auth, user: UserId, ok: bool, ip: Option<string>, agent: Option<string>, end: nat, via: Client,
                    u: UserId)
    requires Findable(st.accounts, user) && st.next !in st.sessions
    ensures var st' := FinishLogin(st, user, ok, ip, agent, end, via).0;
            && (InactiveIn(st'.accounts, u) <==> InactiveIn(st.accounts, u))
            && UnrevokedOf(st'.sessions, u)
               == UnrevokedOf(st.sessions, u) + if ok && via.up && u == user then {st.next} else {}
  {
  }

  lemma FinishCleanIff(st: Auth, user: UserId, ok: bool, ip: Option<string>, agent: Option<string>, end: nat,
                       via: Client)
    requires Inv(st) && InactiveClean(st) && Findable(st.accounts, user)
    ensures InactiveClean(FinishLogin(st, user, ok, ip, agent, end, via).0)
            <==> !(ok && via.up && InactiveIn(st.accounts, user))
  {
    RowsBelowNext(st.sessions, st.refreshExp, st.next);
    var st' := FinishLogin(st, user, ok, ip, agent, end, via).0;
    FinishMoves(st, user, ok, ip, agent, end, via, user);
    forall u | u != user && InactiveIn(st'.accounts, u) ensures UnrevokedOf(st'.sessions, u) == {} {
      FinishMoves(st, user, ok, ip, agent, end, via, u);
    }
    assert ok && via.up ==> st.next in UnrevokedOf(st'.sessions, user);
  }

  /** The rule "an inactive user has no unrevoked session" survives a login that was admitted before
      and finishes after any other operations, none of them an interrupted deactivation, if and
      only if the login fails or the last (de)activation in between, if any, was an activation. */
  lemma SplitLoginCleanIff(st: Auth, user: UserId, start: nat, between: seq<Action>, ok: bool, ip: Option<string>,
                           agent: Option<string>, end: nat, via: Client)
    requires Inv(st) && InactiveClean(st) && Admitted(st, user, start) && forall a | a in between :: !Interrupted(a)
    ensures Findable(Run(st, between).accounts, user)
    ensures InactiveClean(FinishLogin(Run(st, between), user, ok, ip, agent, end, via).0)
            <==> !ok || !via.up || Switched(between, user, true)
  {
    RunKeepsInv(st, between);
    InactiveStaysClean(st, between);
    RunSwitches(st, between, user);
    FinishCleanIff(Run(st, between), user, ok, ip, agent, end, via);
  }

  /** A deactivation that fits into the password comparison, all its writes arriving, leaves the
      inactive user with the session the login then opens. */
  lemma DeactivationDuringComparison(st: Auth, user: UserId, start: nat, via: Client, reached: set<Jti>, end: nat)
    requires Inv(st) && InactiveClean(st) && Admitted(st, user, start) && via.up
    ensures var during := Run(st, [DoSetUserActive(user, false, via, reached, 0)]);
            && Findable(during.accounts, user)
            && var st' := FinishLogin(during, user, true, None, None, end, via).0;
               InactiveIn(st'.accounts, user) && st.next in UnrevokedOf(st'.sessions, user)
  {
    var a := DoSetUserActive(user, false, via, reached, 0);
    assert [a][1..] == [];
    assert Run(st, [a]) == Step(st, a);
    StepActivity(st, a, user);
    StepFindable(st, a, user);
    StepKeepsInv(st, a);
    DeactivationSignsNothing(st, a);
    RowsBelowNext(Step(st, a).sessions, Step(st, a).refreshExp, Step(st, a).next);
    FinishMoves(Step(st, a), user, true, None, None, end, via, user);
  }

  lemma DeactivationSignsNothing(st: Auth, a: Action)
    requires a.DoSetUserActive?
    ensures Step(st, a).next == st.next
  {
    OwnerActionsOnlyRevoke(st, a);
  }

  /** Overlapping guesses are made of these halves: one passes when its login is admitted, and what it
      records is the acting half of a failing login. */
  lemma GuessIsSplitLogin(st: Auth, user: UserId, flying: nat, at: nat, ip: Option<string>, agent: Option<string>,
                          via: Client)
    requires Findable(st.accounts, user) && flying > 0
    ensures var x := Target(st.accounts.users[user], flying);
            && (Passes(x, Begin(at)) <==> Admitted(st, user, at))
            && Next(x, Record(at)).user
               == FinishLogin(st, user, false, ip, agent, at, via).0.accounts.users[user]
  {
  }
}
