/**
 User accounts: the failed-login counter and lockout deadline, the activity flag, and the copies
 of user rows that request validation keeps in the cache. Times are milliseconds.
 */
module Users {
  import opened Wrappers
  import opened CacheTiers

  type UserId = string

  const LOCKOUT_THRESHOLD := 5
  const LOCKOUT_DURATION_MS := 15 * 60 * 1000
  const USER_CACHE_TTL_MS := 30_000

  datatype User = User(isActive: bool, deleted: bool, failedLoginAttempts: nat, lockedUntil: Option<nat>,
                       password: string)

  datatype CachedUser = CachedUser(user: User, until: nat)

  /** The copies of user rows in the memory tiers of all processes and in the shared tier. */
  type Copies = map<(Tier, UserId), CachedUser>

  /** The users table and the `user:<id>` cache entries. */
  datatype Accounts = Accounts(users: map<UserId, User>, cached: Copies)

  predicate LockedAt(u: User, now: nat) {
    u.lockedUntil.Some? && u.lockedUntil.value > now
  }

  /** The transaction of recordFailedLogin: count, and lock unless a lock is already running. */
  function AfterFailure(u: User, now: nat): User {
    var counted := u.(failedLoginAttempts := u.failedLoginAttempts + 1);
    if counted.failedLoginAttempts >= LOCKOUT_THRESHOLD && !LockedAt(u, now)
    then counted.(lockedUntil := Some(now + LOCKOUT_DURATION_MS))
    else counted
  }

  function AfterReset(u: User): User {
    u.(failedLoginAttempts := 0, lockedUntil := None)
  }

  /** invalidateUserCache: the delete empties the caller's memory tier and, if it answers, the shared
      one. It does not reach the memory tiers of other processes. */
  function Cleared(cached: Copies, id: UserId, via: Client): Copies {
    if via.up then cached - {(L1(via.proc), id), (L2, id)} else cached - {(L1(via.proc), id)}
  }

  /** A row update followed by invalidateUserCache, which throws if the shared tier is down. */
  function AfterUpdate(a: Accounts, id: UserId, u: User, via: Client): Accounts {
    a.(users := a.users[id := u], cached := Cleared(a.cached, id, via))
  }

  datatype Failure = Failure(attempts: nat, lockedUntil: Option<nat>)
  datatype UserError = NoSuchUser | CacheDown

  class UsersService {
    var users: map<UserId, User>
    var cached: Copies

    function State(): Accounts
      reads this
    {
      Accounts(users, cached)
    }

    constructor (users: map<UserId, User>)
      ensures State() == Accounts(users, map[])
    {
      this.users := users;
      cached := map[];
    }

    /** `ok` is false when the delete threw. */
    method InvalidateUserCache(id: UserId, via: Client) returns (ok: bool)
      modifies this`cached
      ensures cached == Cleared(old(cached), id, via) && ok == via.up
    {
      cached := cached - {(L1(via.proc), id)};
      if via.up {
        cached := cached - {(L2, id)};
      }
      ok := via.up;
    }

    /** A missing or deleted user makes the transaction throw, which undoes the increment. */
    method RecordFailedLogin(id: UserId, now: nat, via: Client) returns (r: Result<Failure, UserError>)
      modifies this
      ensures if id !in old(users) || old(users)[id].deleted then State() == old(State()) && r == Err(NoSuchUser)
              else
                var u := AfterFailure(old(users)[id], now);
                && State() == AfterUpdate(old(State()), id, u, via)
                && r == if via.up then Ok(Failure(u.failedLoginAttempts, u.lockedUntil)) else Err(CacheDown)
    {
      if id !in users || users[id].deleted {
        return Err(NoSuchUser);
      }
      var updated := users[id];
      updated := updated.(failedLoginAttempts := updated.failedLoginAttempts + 1);
      var shouldLock := updated.failedLoginAttempts >= LOCKOUT_THRESHOLD
                        && (updated.lockedUntil.None? || updated.lockedUntil.value <= now);
      if shouldLock {
        updated := updated.(lockedUntil := Some(now + LOCKOUT_DURATION_MS));
      }
      users := users[id := updated];
      var ok := InvalidateUserCache(id, via);
      if !ok {
        return Err(CacheDown);
      }
      return Ok(Failure(updated.failedLoginAttempts, updated.lockedUntil));
    }

    /** The three updates below report how many rows matched; None when the cache delete threw. */
    method ResetFailedLogin(id: UserId, via: Client) returns (affected: Option<nat>)
      modifies this
      ensures id in old(users) ==> State() == AfterUpdate(old(State()), id, AfterReset(old(users)[id]), via)
      ensures id !in old(users) ==> State() == Accounts(old(users), Cleared(old(cached), id, via))
      ensures affected == if via.up then Some(if id in old(users) then 1 else 0) else None
    {
      affected := Some(0);
      if id in users {
        users := users[id := users[id].(failedLoginAttempts := 0, lockedUntil := None)];
        affected := Some(1);
      }
      var ok := InvalidateUserCache(id, via);
      if !ok { affected := None; }
    }

    method UpdatePassword(id: UserId, hashed: string, via: Client) returns (affected: Option<nat>)
      modifies this
      ensures id in old(users) ==> State() == AfterUpdate(old(State()), id, old(users)[id].(password := hashed), via)
      ensures id !in old(users) ==> State() == Accounts(old(users), Cleared(old(cached), id, via))
      ensures affected == if via.up then Some(if id in old(users) then 1 else 0) else None
    {
      affected := Some(0);
      if id in users {
        users := users[id := users[id].(password := hashed)];
        affected := Some(1);
      }
      var ok := InvalidateUserCache(id, via);
      if !ok { affected := None; }
    }

    method SetActive(id: UserId, active: bool, via: Client) returns (affected: Option<nat>)
      modifies this
      ensures id in old(users) ==> State() == AfterUpdate(old(State()), id, old(users)[id].(isActive := active), via)
      ensures id !in old(users) ==> State() == Accounts(old(users), Cleared(old(cached), id, via))
      ensures affected == if via.up then Some(if id in old(users) then 1 else 0) else None
    {
      affected := Some(0);
      if id in users {
        users := users[id := users[id].(isActive := active)];
        affected := Some(1);
      }
      var ok := InvalidateUserCache(id, via);
      if !ok { affected := None; }
    }
  }

  // ---------------------------------------------------------------- the guess bound

  /** A login attempt: login reads the clock at `start`, recordFailedLogin at `end`. */
  datatype Attempt = Attempt(start: nat, end: nat)

  /** The attempts of one account follow one another without overlap. */
  predicate NonOverlapping(attempts: seq<Attempt>) {
    && (forall i | 0 <= i < |attempts| :: attempts[i].start <= attempts[i].end)
    && (forall i, j | 0 <= i < j < |attempts| :: attempts[i].end <= attempts[j].start)
  }

  /** The attempt reaches the password comparison. */
  predicate Compares(u: User, a: Attempt) {
    u.isActive && !LockedAt(u, a.start)
  }

  function AfterWrongGuess(u: User, a: Attempt): User {
    if Compares(u, a) then AfterFailure(u, a.end) else u
  }

  /** How many attempts starting between `from` and `to` reach the comparison, all guesses wrong. */
  function Comparisons(u: User, attempts: seq<Attempt>, from: nat, to: nat): nat
    decreases |attempts|
  {
    if attempts == [] then 0
    else
      (if Compares(u, attempts[0]) && from <= attempts[0].start <= to then 1 else 0)
      + Comparisons(AfterWrongGuess(u, attempts[0]), attempts[1..], from, to)
  }

  function Max(a: nat, b: nat): nat { if a < b then b else a }

  /** Wrong guesses that do not lock yet. */
  function Free(u: User): nat {
    if u.failedLoginAttempts < LOCKOUT_THRESHOLD - 1 then LOCKOUT_THRESHOLD - 1 - u.failedLoginAttempts else 0
  }

  /** Comparisons still possible in [from, to]: the free ones, one that locks, and one for each
      full lock period after it. */
  function Budget(u: User, from: nat, to: nat): nat {
    var first := Max(from, u.lockedUntil.GetOr(0));
    if first <= to then Free(u) + 1 + (to - first) / LOCKOUT_DURATION_MS else 0
  }

  lemma {:induction false} ComparisonsWithinBudget(u: User, attempts: seq<Attempt>, earliest: nat, from: nat, to: nat)
    requires NonOverlapping(attempts) && forall i | 0 <= i < |attempts| :: earliest <= attempts[i].start
    ensures Comparisons(u, attempts, from, to) <= Budget(u, Max(earliest, from), to)
    decreases |attempts|
  {
    if attempts != [] {
      var a, rest := attempts[0], attempts[1..];
      assert NonOverlapping(rest) by {
        assert forall i | 0 <= i < |rest| :: rest[i] == attempts[i + 1];
      }
      ComparisonsWithinBudget(AfterWrongGuess(u, a), rest, a.end, from, to);
      AttemptSpendsBudget(u, a, Max(earliest, from), from, to);
    }
  }

  lemma AttemptSpendsBudget(u: User, a: Attempt, low: nat, from: nat, to: nat)
    requires a.start <= a.end && from <= low && (from <= a.start ==> low <= a.start)
    requires low <= Max(a.start, from)
    ensures (if Compares(u, a) && from <= a.start <= to then 1 else 0)
            + Budget(AfterWrongGuess(u, a), Max(a.end, from), to)
            <= Budget(u, low, to)
  {
  }

  /** Guess bound: whatever the account's counter and lock were, non-overlapping wrong guesses
      reach the comparison at most five times plus once per full lock period. */
  lemma GuessBound(u: User, attempts: seq<Attempt>, from: nat, to: nat)
    requires NonOverlapping(attempts) && from <= to
    ensures Comparisons(u, attempts, from, to) <= 5 + (to - from) / LOCKOUT_DURATION_MS
  {
    ComparisonsWithinBudget(u, attempts, 0, from, to);
  }

  /** A patient attacker: five guesses at once, then one whenever the lock runs out. */
  function Patient(from: nat, periods: nat): seq<Attempt> {
    [Attempt(from, from), Attempt(from, from), Attempt(from, from), Attempt(from, from)] + Probes(from, periods)
  }

  function Probes(from: nat, periods: nat): seq<Attempt>
    decreases periods
  {
    [Attempt(from, from)] + if periods == 0 then [] else Probes(from + LOCKOUT_DURATION_MS, periods - 1)
  }

  lemma {:induction false} ProbesFollow(from: nat, periods: nat)
    ensures NonOverlapping(Probes(from, periods))
    ensures forall i | 0 <= i < |Probes(from, periods)| :: from <= Probes(from, periods)[i].start
    decreases periods
  {
    if periods > 0 {
      ProbesFollow(from + LOCKOUT_DURATION_MS, periods - 1);
    }
  }

  lemma {:induction false} ProbesAllCompare(u: User, from: nat, periods: nat, low: nat, to: nat)
    requires u.isActive && !LockedAt(u, from) && u.failedLoginAttempts >= LOCKOUT_THRESHOLD - 1
    requires low <= from && from + periods * LOCKOUT_DURATION_MS <= to
    ensures Comparisons(u, Probes(from, periods), low, to) == periods + 1
    decreases periods
  {
    var rest := if periods == 0 then [] else Probes(from + LOCKOUT_DURATION_MS, periods - 1);
    assert Probes(from, periods)[0] == Attempt(from, from) && Probes(from, periods)[1..] == rest;
    if periods > 0 {
      ProbesAllCompare(AfterWrongGuess(u, Attempt(from, from)), from + LOCKOUT_DURATION_MS, periods - 1, low, to);
    }
  }

  /** The bound is attained on a fresh account, for every number of lock periods. */
  lemma GuessBoundIsTight(u: User, from: nat, periods: nat)
    requires u.isActive && u.failedLoginAttempts == 0 && u.lockedUntil.None?
    ensures var to := from + periods * LOCKOUT_DURATION_MS;
            && NonOverlapping(Patient(from, periods))
            && Comparisons(u, Patient(from, periods), from, to) == 5 + (to - from) / LOCKOUT_DURATION_MS
  {
    ProbesFollow(from, periods);
    PatientCompares(u, from, periods, from + periods * LOCKOUT_DURATION_MS);
    WholePeriods(periods);
  }

  lemma WholePeriods(periods: nat)
    ensures (periods * LOCKOUT_DURATION_MS) / LOCKOUT_DURATION_MS == periods
  {
  }

  lemma PatientCompares(u: User, from: nat, periods: nat, to: nat)
    requires u.isActive && u.failedLoginAttempts == 0 && u.lockedUntil.None?
    requires from + periods * LOCKOUT_DURATION_MS <= to
    ensures Comparisons(u, Patient(from, periods), from, to) == 5 + periods
  {
    FreeGuesses(u, Probes(from, periods), from, to);
    ProbesAllCompare(u.(failedLoginAttempts := 4), from, periods, from, to);
  }

  lemma FreeGuesses(u: User, rest: seq<Attempt>, from: nat, to: nat)
    requires u.isActive && u.failedLoginAttempts == 0 && u.lockedUntil.None? && from <= to
    ensures var a := Attempt(from, from);
            Comparisons(u, [a, a, a, a] + rest, from, to)
              == 4 + Comparisons(u.(failedLoginAttempts := 4), rest, from, to)
  {
    var a := Attempt(from, from);
    assert [a, a, a, a] + rest == [a] + ([a] + ([a] + ([a] + rest)));
    FreeGuess(u, [a] + ([a] + ([a] + rest)), from, to);
    FreeGuess(u.(failedLoginAttempts := 1), [a] + ([a] + rest), from, to);
    FreeGuess(u.(failedLoginAttempts := 2), [a] + rest, from, to);
    FreeGuess(u.(failedLoginAttempts := 3), rest, from, to);
  }

  lemma FreeGuess(u: User, rest: seq<Attempt>, from: nat, to: nat)
    requires u.isActive && u.lockedUntil.None? && from <= to && u.failedLoginAttempts < LOCKOUT_THRESHOLD - 1
    ensures var a := Attempt(from, from);
            && Comparisons(u, [a] + rest, from, to) == 1 + Comparisons(AfterWrongGuess(u, a), rest, from, to)
            && AfterWrongGuess(u, a) == u.(failedLoginAttempts := u.failedLoginAttempts + 1)
  {
    assert ([Attempt(from, from)] + rest)[1..] == rest;
  }

  /** The documented rule, re-locking included: a wrong guess on an account that is not locked locks it
      if and only if it is at least the fifth since the last success, for exactly 15 minutes. A
      failure recorded while a lock is running counts, but does not move the deadline. */
  lemma FifthFailureLocks(u: User, now: nat)
    ensures !LockedAt(u, now) ==> (LockedAt(AfterFailure(u, now), now) <==> u.failedLoginAttempts >= 4)
    ensures !LockedAt(u, now) && u.failedLoginAttempts >= 4 ==>
              forall t: nat :: LockedAt(AfterFailure(u, now), t) <==> t < now + 900_000
    ensures LockedAt(u, now) ==> forall t: nat :: LockedAt(AfterFailure(u, now), t) <==> LockedAt(u, t)
  {
  }
}
