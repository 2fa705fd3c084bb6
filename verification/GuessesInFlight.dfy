/**
 Wrong guesses on one account whose logins overlap. Every login that passes the lock test while
 others are still comparing passwords counts, whatever those record later; so the bound depends on
 how many can be in flight at once.
 */
module GuessesInFlight {
  import opened Wrappers
  import opened Users

  /** A login reads row and clock, or one that passed records its failure. */
  datatype Guess = Begin(at: nat) | Record(at: nat)

  /** The account, and how many logins have passed the lock test and not recorded yet. */
  datatype Target = Target(user: User, flying: nat)

  predicate Passes(x: Target, g: Guess) {
    g.Begin? && x.user.isActive && !LockedAt(x.user, g.at)
  }

  function Next(x: Target, g: Guess): Target {
    if Passes(x, g) then x.(flying := x.flying + 1)
    else if g.Record? && x.flying > 0 then Target(AfterFailure(x.user, g.at), x.flying - 1)
    else x
  }

  function After(x: Target, guesses: seq<Guess>): Target
    decreases |guesses|
  {
    if guesses == [] then x else After(Next(x, guesses[0]), guesses[1..])
  }

  /** In the order of time, none before `low`. */
  predicate InOrder(guesses: seq<Guess>, low: nat)
    decreases |guesses|
  {
    guesses == [] || (low <= guesses[0].at && InOrder(guesses[1..], guesses[0].at))
  }

  /** Never more than `k` in flight. */
  predicate AtMost(x: Target, guesses: seq<Guess>, k: nat)
    decreases |guesses|
  {
    x.flying <= k && (guesses != [] ==> AtMost(Next(x, guesses[0]), guesses[1..], k))
  }

  predicate Counts(x: Target, g: Guess, from: nat, to: nat) {
    Passes(x, g) && from <= g.at <= to
  }

  /** How many logins starting between `from` and `to` reach the comparison. */
  function Passed(x: Target, guesses: seq<Guess>, from: nat, to: nat): nat
    decreases |guesses|
  {
    if guesses == [] then 0
    else (if Counts(x, guesses[0], from, to) then 1 else 0) + Passed(Next(x, guesses[0]), guesses[1..], from, to)
  }

  // ---------------------------------------------------------------- the bound

  /** Full lock periods between two times. */
  function Periods(low: nat, to: nat): nat {
    if low <= to then (to - low) / LOCKOUT_DURATION_MS else 0
  }

  /** Logins that can still pass from `low` on: while the account is open one for each failure that does
      not lock and each free place among the `k`, then `k` whenever a lock has run out. Before `from`
      nothing counts, and all places may become free. */
  function Room(x: Target, low: nat, from: nat, to: nat, k: nat): int {
    var opens := Max(low, x.user.lockedUntil.GetOr(0));
    if low < from then Free(x.user) + k * (1 + Periods(from, to))
    else if opens > to then 0
    else if opens > low then Free(x.user) + k * (1 + Periods(opens, to))
    else Free(x.user) + (k - x.flying) + k * Periods(low, to)
  }

  lemma TimesMonotone(k: nat, a: nat, b: nat)
    requires a <= b
    ensures k * a <= k * b
  {
  }

  lemma TimesOneMore(k: nat, a: nat)
    ensures k * (1 + a) == k + k * a
  {
  }

  lemma PeriodsFall(low: nat, later: nat, to: nat)
    requires low <= later
    ensures Periods(later, to) <= Periods(low, to)
  {
  }

  lemma OnePeriodLess(low: nat, to: nat)
    requires low + LOCKOUT_DURATION_MS <= to
    ensures Periods(low, to) == 1 + Periods(low + LOCKOUT_DURATION_MS, to)
  {
  }

  /** Letting time pass makes no room. */
  lemma RoomFalls(x: Target, low: nat, later: nat, from: nat, to: nat, k: nat)
    requires low <= later && x.flying <= k
    ensures 0 <= Room(x, later, from, to, k) <= Room(x, low, from, to, k)
  {
    var until := x.user.lockedUntil.GetOr(0);
    PeriodsFall(from, Max(from, Max(later, until)), to);
    PeriodsFall(low, later, to);
    PeriodsFall(Max(low, until), Max(later, until), to);
    TimesMonotone(k, Periods(Max(from, Max(later, until)), to), Periods(from, to));
    TimesMonotone(k, Periods(later, to), Periods(low, to));
    TimesMonotone(k, Periods(Max(later, until), to), Periods(Max(low, until), to));
    TimesOneMore(k, Periods(from, to));
    TimesOneMore(k, Periods(Max(low, until), to));
    TimesOneMore(k, Periods(Max(later, until), to));
  }

  lemma BeginTakesRoom(x: Target, at: nat, from: nat, to: nat, k: nat)
    requires x.flying <= k && Next(x, Begin(at)).flying <= k
    ensures (if Counts(x, Begin(at), from, to) then 1 else 0) + Room(Next(x, Begin(at)), at, from, to, k)
            <= Room(x, at, from, to, k)
  {
  }

  /** A failure that does not lock frees the place it uses up; one that locks leaves all places to the
      next period. */
  lemma RecordMakesNoRoom(x: Target, at: nat, from: nat, to: nat, k: nat)
    requires x.flying <= k
    ensures Room(Next(x, Record(at)), at, from, to, k) <= Room(x, at, from, to, k)
  {
    if at >= from && at + LOCKOUT_DURATION_MS <= to {
      OnePeriodLess(at, to);
      TimesOneMore(k, Periods(at + LOCKOUT_DURATION_MS, to));
    }
    TimesMonotone(k, 0, Periods(at, to));
    TimesMonotone(k, 0, Periods(from, to));
  }

  lemma {:induction false} PassedWithinRoom(x: Target, guesses: seq<Guess>, low: nat, from: nat, to: nat, k: nat)
    requires InOrder(guesses, low) && AtMost(x, guesses, k)
    ensures Passed(x, guesses, from, to) <= Room(x, low, from, to, k)
    decreases |guesses|
  {
    if guesses == [] {
      RoomFalls(x, low, low, from, to, k);
    } else {
      var g := guesses[0];
      RoomFalls(x, low, g.at, from, to, k);
      if g.Begin? { BeginTakesRoom(x, g.at, from, to, k); } else { RecordMakesNoRoom(x, g.at, from, to, k); }
      PassedWithinRoom(Next(x, g), guesses[1..], g.at, from, to, k);
    }
  }

  /** Whatever counter and lock the account starts with, wrong guesses of which at most `k` are in
      flight at once reach the comparison at most four times plus `k` times, and `k` times more for
      each full lock period. For `k` = 1 this is the bound for guesses that do not overlap. */
  lemma OverlappingGuessBound(x: Target, guesses: seq<Guess>, from: nat, to: nat, k: nat)
    requires InOrder(guesses, 0) && AtMost(x, guesses, k) && from <= to
    ensures Passed(x, guesses, from, to) <= 4 + k * (1 + (to - from) / LOCKOUT_DURATION_MS)
  {
    PassedWithinRoom(x, guesses, 0, from, to, k);
    if from == 0 { RoomAtStart(x, to, k); }
  }

  lemma RoomAtStart(x: Target, to: nat, k: nat)
    requires x.flying <= k
    ensures Room(x, 0, 0, to, k) <= 4 + k * (1 + to / LOCKOUT_DURATION_MS)
  {
    var opens := x.user.lockedUntil.GetOr(0);
    PeriodsFall(0, opens, to);
    TimesMonotone(k, Periods(opens, to), Periods(0, to));
    TimesOneMore(k, Periods(opens, to));
    TimesOneMore(k, Periods(0, to));
    TimesMonotone(k, 0, 1 + Periods(0, to));
  }

  // ---------------------------------------------------------------- one at a time

  /** Attempts that do not overlap. */
  function InTurn(attempts: seq<Attempt>): seq<Guess>
    decreases |attempts|
  {
    if attempts == [] then []
    else [Begin(attempts[0].start)] + ([Record(attempts[0].end)] + InTurn(attempts[1..]))
  }

  /** Counted either way they are the same comparisons, with at most one in flight. */
  lemma {:induction false} InTurnIsOneAtATime(u: User, attempts: seq<Attempt>, from: nat, to: nat)
    ensures Passed(Target(u, 0), InTurn(attempts), from, to) == Comparisons(u, attempts, from, to)
    ensures AtMost(Target(u, 0), InTurn(attempts), 1)
    decreases |attempts|
  {
    if attempts != [] {
      var a, rest := attempts[0], InTurn(attempts[1..]);
      var begun := Next(Target(u, 0), Begin(a.start));
      assert ([Begin(a.start)] + ([Record(a.end)] + rest))[1..] == [Record(a.end)] + rest;
      assert ([Record(a.end)] + rest)[1..] == rest;
      assert Next(begun, Record(a.end)) == Target(AfterWrongGuess(u, a), 0);
      assert Passed(begun, [Record(a.end)] + rest, from, to) == Passed(Next(begun, Record(a.end)), rest, from, to);
      InTurnIsOneAtATime(AfterWrongGuess(u, a), attempts[1..], from, to);
    }
  }

  // ---------------------------------------------------------------- the bound is attained

  function Begins(n: nat, at: nat): seq<Guess> {
    if n == 0 then [] else [Begin(at)] + Begins(n - 1, at)
  }

  function Records(n: nat, at: nat): seq<Guess> {
    if n == 0 then [] else [Record(at)] + Records(n - 1, at)
  }

  /** `k` logins start at once and then fail. */
  function Salvo(k: nat, at: nat): seq<Guess> {
    Begins(k, at) + Records(k, at)
  }

  /** One salvo, and another whenever the lock runs out. */
  function Salvos(k: nat, from: nat, periods: nat): seq<Guess>
    decreases periods
  {
    Salvo(k, from) + if periods == 0 then [] else Salvos(k, from + LOCKOUT_DURATION_MS, periods - 1)
  }

  /** `n` guesses one after the other. */
  function OneByOne(n: nat, at: nat): seq<Guess> {
    if n == 0 then [] else Salvo(1, at) + OneByOne(n - 1, at)
  }

  /** Four guesses that do not lock, then salvos. */
  function Attack(k: nat, from: nat, periods: nat): seq<Guess> {
    OneByOne(4, from) + Salvos(k, from, periods)
  }

  /** In time, in order, and never more than `k` in flight. */
  predicate Fits(x: Target, guesses: seq<Guess>, low: nat, end: nat, k: nat)
    decreases |guesses|
  {
    && low <= end && x.flying <= k
    && (guesses != [] ==>
          low <= guesses[0].at <= end && Fits(Next(x, guesses[0]), guesses[1..], guesses[0].at, end, k))
  }

  lemma {:induction false} FitsIsInOrder(x: Target, guesses: seq<Guess>, low: nat, end: nat, k: nat)
    requires Fits(x, guesses, low, end, k)
    ensures InOrder(guesses, low) && AtMost(x, guesses, k)
    decreases |guesses|
  {
    if guesses != [] { FitsIsInOrder(Next(x, guesses[0]), guesses[1..], guesses[0].at, end, k); }
  }

  /** A piece of an attack: it fits, so many pass, and this is the account after it. */
  ghost predicate Piece(x: Target, guesses: seq<Guess>, low: nat, end: nat, k: nat, from: nat, to: nat, passed: nat,
                        x': Target) {
    Fits(x, guesses, low, end, k) && (Passed(x, guesses, from, to), After(x, guesses)) == (passed, x')
  }

  /** Pieces in sequence. */
  lemma {:induction false} Pieces(x: Target, a: seq<Guess>, b: seq<Guess>, low: nat, mid: nat, end: nat, k: nat,
                                  from: nat, to: nat, n: nat, m: nat, y: Target, z: Target)
    requires Piece(x, a, low, mid, k, from, to, n, y) && Piece(y, b, mid, end, k, from, to, m, z)
    ensures Piece(x, a + b, low, end, k, from, to, n + m, z)
    decreases |a|
  {
    if a == [] {
      assert [] + b == b;
    } else {
      assert (a + b)[0] == a[0] && (a + b)[1..] == a[1..] + b;
      var first := if Counts(x, a[0], from, to) then 1 else 0;
      Pieces(Next(x, a[0]), a[1..], b, a[0].at, mid, end, k, from, to, n - first, m, y, z);
    }
  }

  lemma {:induction false} BeginsPass(x: Target, n: nat, at: nat, k: nat, from: nat, to: nat)
    requires x.user.isActive && !LockedAt(x.user, at) && x.flying + n <= k && from <= at <= to
    ensures Piece(x, Begins(n, at), at, at, k, from, to, n, x.(flying := x.flying + n))
    decreases n
  {
    if n > 0 {
      BeginsPass(x.(flying := x.flying + 1), n - 1, at, k, from, to);
    }
  }

  /** Failures recorded during a lock only count. */
  lemma {:induction false} RecordsUnderLock(x: Target, at: nat, k: nat, from: nat, to: nat)
    requires x.flying <= k && LockedAt(x.user, at)
    ensures Piece(x, Records(x.flying, at), at, at, k, from, to, 0,
                  Target(x.user.(failedLoginAttempts := x.user.failedLoginAttempts + x.flying), 0))
    decreases x.flying
  {
    if x.flying > 0 {
      RecordsUnderLock(Next(x, Record(at)), at, k, from, to);
    }
  }

  function AfterSalvo(u: User, k: nat, at: nat): User {
    u.(failedLoginAttempts := u.failedLoginAttempts + k, lockedUntil := Some(at + LOCKOUT_DURATION_MS))
  }

  lemma SalvoLocks(u: User, at: nat, k: nat, from: nat, to: nat)
    requires u.isActive && !LockedAt(u, at) && u.failedLoginAttempts >= LOCKOUT_THRESHOLD - 1
    requires from <= at <= to && k > 0
    ensures Piece(Target(u, 0), Salvo(k, at), at, at, k, from, to, k, Target(AfterSalvo(u, k, at), 0))
  {
    BeginsPass(Target(u, 0), k, at, k, from, to);
    RecordsUnderLock(Next(Target(u, k), Record(at)), at, k, from, to);
    Pieces(Target(u, 0), Begins(k, at), Records(k, at), at, at, at, k, from, to, k, 0, Target(u, k),
           Target(AfterSalvo(u, k, at), 0));
  }

  lemma {:induction false} SalvosPass(u: User, at: nat, periods: nat, k: nat, from: nat, to: nat) returns (x': Target)
    requires u.isActive && !LockedAt(u, at) && u.failedLoginAttempts >= LOCKOUT_THRESHOLD - 1 && from <= at && k > 0
    requires at + periods * LOCKOUT_DURATION_MS <= to
    ensures Piece(Target(u, 0), Salvos(k, at, periods), at, to, k, from, to, k * (1 + periods), x')
    decreases periods
  {
    SalvoLocks(u, at, k, from, to);
    var u' := AfterSalvo(u, k, at);
    if periods == 0 {
      x' := Target(u', 0);
      assert Salvos(k, at, 0) == Salvo(k, at) + [];
      Pieces(Target(u, 0), Salvo(k, at), [], at, at, to, k, from, to, k, 0, x', x');
    } else {
      var later := at + LOCKOUT_DURATION_MS;
      x' := SalvosPass(u', later, periods - 1, k, from, to);
      Pieces(Target(u, 0), Salvo(k, at), Salvos(k, later, periods - 1), at, at, to, k, from, to, k, k * periods,
             Target(u', 0), x');
      TimesOneMore(k, periods);
    }
  }

  lemma {:induction false} FreeGuessesPass(u: User, n: nat, at: nat, k: nat, from: nat, to: nat)
    requires u.isActive && u.lockedUntil.None? && u.failedLoginAttempts + n < LOCKOUT_THRESHOLD
    requires from <= at <= to && k > 0
    ensures Piece(Target(u, 0), OneByOne(n, at), at, at, k, from, to, n,
                  Target(u.(failedLoginAttempts := u.failedLoginAttempts + n), 0))
    decreases n
  {
    if n > 0 {
      var u' := u.(failedLoginAttempts := u.failedLoginAttempts + 1);
      OneFreeGuess(u, at, k, from, to);
      FreeGuessesPass(u', n - 1, at, k, from, to);
      Pieces(Target(u, 0), Salvo(1, at), OneByOne(n - 1, at), at, at, at, k, from, to, 1, n - 1, Target(u', 0),
             Target(u'.(failedLoginAttempts := u'.failedLoginAttempts + (n - 1)), 0));
    }
  }

  lemma OneFreeGuess(u: User, at: nat, k: nat, from: nat, to: nat)
    requires u.isActive && u.lockedUntil.None? && u.failedLoginAttempts + 1 < LOCKOUT_THRESHOLD
    requires from <= at <= to && k > 0
    ensures Piece(Target(u, 0), Salvo(1, at), at, at, k, from, to, 1,
                  Target(u.(failedLoginAttempts := u.failedLoginAttempts + 1), 0))
  {
    var u' := u.(failedLoginAttempts := u.failedLoginAttempts + 1);
    BeginsPass(Target(u, 0), 1, at, k, from, to);
    assert Records(1, at) == [Record(at)] && [Record(at)][1..] == [];
    assert Next(Target(u, 1), Record(at)) == Target(u', 0);
    assert After(Target(u', 0), []) == Target(u', 0) && Passed(Target(u', 0), [], from, to) == 0;
    Pieces(Target(u, 0), Begins(1, at), Records(1, at), at, at, at, k, from, to, 1, 0, Target(u, 1), Target(u', 0));
  }

  /** The bound is attained on a fresh account, for every `k` and every number of lock periods. */
  lemma OverlappingGuessBoundIsTight(u: User, from: nat, periods: nat, k: nat)
    requires u.isActive && u.failedLoginAttempts == 0 && u.lockedUntil.None? && k > 0
    ensures var to := from + periods * LOCKOUT_DURATION_MS;
            var guesses := Attack(k, from, periods);
            && InOrder(guesses, 0) && AtMost(Target(u, 0), guesses, k)
            && Passed(Target(u, 0), guesses, from, to) == 4 + k * (1 + (to - from) / LOCKOUT_DURATION_MS)
  {
    var to := from + periods * LOCKOUT_DURATION_MS;
    FreeGuessesPass(u, 4, from, k, from, to);
    var u' := u.(failedLoginAttempts := 4);
    var x' := SalvosPass(u', from, periods, k, from, to);
    Pieces(Target(u, 0), OneByOne(4, from), Salvos(k, from, periods), from, from, to, k, from, to, 4,
           k * (1 + periods), Target(u', 0), x');
    FitsIsInOrder(Target(u, 0), Attack(k, from, periods), 0, to, k);
    WholePeriods(periods);
  }
}
