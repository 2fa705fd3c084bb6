/**
 The transactions of module RefreshLock get somewhere: a presentation that gets the row lock and does
 not fail ends after at most three more statements, with the answer and the rows of the whole refresh.
 */
module RefreshProgress {
  import opened Wrappers
  import opened Users
  import opened Sessions
  import opened SessionInvariants
  import opened RefreshLock

  /** How many statements the holder has still to run, at most. */
  function Left(p: Phase): nat {
    match p
    case Holding => 3
    case Inserted(_) => 2
    case Barred(_) => 2
    case Rotated(_) => 1
    case Swept(_) => 1
    case _ => 0
  }

  /** One statement brings the holder closer to its end, and what the whole would do stays. */
  lemma WorkAdvances(s: System, t: TxId)
    requires Progress(s) && s.holder == Some(t)
    ensures Left(s.txs[t].phase) > 0
    ensures var s' := DoWork(s, t);
            s'.holder.None?
            || (s'.holder == Some(t) && t in s'.txs && Left(s'.txs[t].phase) < Left(s.txs[t].phase)
                && s'.atLock == s.atLock && s'.row == s.row && SameRequest(s.txs[t], s'.txs[t]))
  {
  }

  predicate SameRequest(x: Tx, x': Tx) {
    x'.ip == x.ip && x'.userAgent == x.userAgent && x'.reached == x.reached
  }

  lemma WholeOfRequest(atLock: Auth, row: SessionId, x: Tx, x': Tx)
    requires row in atLock.sessions && SameRequest(x, x')
    ensures Whole(atLock, row, x') == Whole(atLock, row, x)
  {
  }

  function Works(t: TxId, n: nat): seq<Micro> {
    if n == 0 then [] else [Work(t)] + Works(t, n - 1)
  }

  lemma {:induction false} IdleWorks(s: System, t: TxId, n: nat)
    requires s.holder.None?
    ensures MicroRun(s, Works(t, n)) == s
  {
    if n > 0 {
      assert Works(t, n)[1..] == Works(t, n - 1);
      IdleWorks(s, t, n - 1);
    }
  }

  /** The holder has at most `n` statements to run, and its whole gives `st` and `answer`. */
  ghost predicate Going(s: System, t: TxId, n: nat, log: seq<TxResult>, st: Auth, answer: RefreshOutcome) {
    && Progress(s) && s.holder == Some(t) && Left(s.txs[t].phase) <= n && s.log == log
    && (st, answer) == Whole(s.atLock, s.row, s.txs[t])
  }

  ghost predicate Ended(s: System, log: seq<TxResult>, st: Auth, answer: RefreshOutcome) {
    s.holder.None? && s.db == st && s.log == log + [Answered(answer)]
  }

  lemma WorkGoesOn(s: System, t: TxId, n: nat, log: seq<TxResult>, st: Auth, answer: RefreshOutcome)
    requires Going(s, t, n, log, st, answer)
    ensures n > 0
    ensures var s' := DoWork(s, t); Ended(s', log, st, answer) || Going(s', t, n - 1, log, st, answer)
  {
    WorkAdvances(s, t);
    StatementWorks(s, t);
    var s' := DoWork(s, t);
    if s'.holder.Some? { WholeOfRequest(s.atLock, s.row, s.txs[t], s'.txs[t]); }
  }

  lemma FirstWork(s: System, t: TxId, n: nat, log: seq<TxResult>, st: Auth, answer: RefreshOutcome)
    requires n > 0 && Ended(MicroRun(DoWork(s, t), Works(t, n - 1)), log, st, answer)
    ensures Ended(MicroRun(s, Works(t, n)), log, st, answer)
  {
    MicroFirst(s, Work(t), Works(t, n - 1));
  }

  lemma EndedStays(s: System, t: TxId, n: nat, log: seq<TxResult>, st: Auth, answer: RefreshOutcome)
    requires Ended(s, log, st, answer)
    ensures Ended(MicroRun(s, Works(t, n)), log, st, answer)
  {
    IdleWorks(s, t, n);
  }

  /** The holder's statements, run to the end, are the whole transaction. */
  lemma {:induction false} WorksToTheEnd(s: System, t: TxId, n: nat, log: seq<TxResult>, st: Auth,
                                         answer: RefreshOutcome)
    requires Going(s, t, n, log, st, answer)
    ensures Ended(MicroRun(s, Works(t, n)), log, st, answer)
    decreases n
  {
    WorkGoesOn(s, t, n, log, st, answer);
    var s' := DoWork(s, t);
    if Ended(s', log, st, answer) {
      EndedStays(s', t, n - 1, log, st, answer);
    } else {
      WorksToTheEnd(s', t, n - 1, log, st, answer);
    }
    FirstWork(s, t, n, log, st, answer);
  }

  lemma LockTaken(s: System, t: TxId, wait: nat)
    requires LockInv(s) && s.holder.None? && t in s.txs && s.txs[t].phase.Waiting?
    ensures var s', st := DoAcquireLock(s, t, wait), s.db.(clock := s.db.clock + wait);
            if s.token in st.sessions then
              && LockInv(s') && s'.holder == Some(t) && s'.atLock == st && s'.row == s.token && s'.log == s.log
              && s'.txs[t] == s.txs[t].(phase := Holding)
            else s'.holder.None? && s'.db == st && s'.log == s.log + [Answered(UnknownToken)]
  {
    LockKeepsInv(s, t, wait);
    FindByHashIsExact(s.db.sessions, s.db.refreshExp, s.db.next, s.token);
  }

  lemma ThreeWorks(t: TxId)
    ensures Works(t, 3) == [Work(t), Work(t), Work(t)]
  {
    assert Works(t, 1) == [Work(t)] + Works(t, 0) && Works(t, 2) == [Work(t)] + Works(t, 1);
  }

  /** The whole exchange of a token by this request, on a given state. */
  function Exchanged(st: Auth, token: Token, x: Tx): (Auth, RefreshOutcome) {
    if token in st.sessions then RefreshRow(st, token, x.ip, x.userAgent, st.clock, x.reached) else (st, UnknownToken)
  }

  /** A waiting presentation that gets the lock and is not interrupted ends within three statements, and
      is the whole exchange of the token, whoever else waits. */
  lemma WaitingGoesThrough(s: System, t: TxId, wait: nat, st: Auth, answer: RefreshOutcome)
    requires LockInv(s) && s.holder.None? && t in s.txs && s.txs[t].phase.Waiting?
    requires (st, answer) == Exchanged(s.db.(clock := s.db.clock + wait), s.token, s.txs[t])
    ensures var s' := MicroRun(s, [AcquireLock(t, wait), Work(t), Work(t), Work(t)]);
            s'.holder.None? && s'.db == st && s'.log == s.log + [Answered(answer)]
  {
    LockTaken(s, t, wait);
    var s1 := DoAcquireLock(s, t, wait);
    ThreeWorks(t);
    assert [AcquireLock(t, wait), Work(t), Work(t), Work(t)][1..] == [Work(t), Work(t), Work(t)];
    if s1.holder.Some? { WorksToTheEnd(s1, t, 3, s.log, st, answer); } else { IdleWorks(s1, t, 3); }
  }

  /** A presentation begins by verifying the token, and waits for the lock if and only if it verifies. */
  lemma BeginWaitsIff(s: System, t: TxId, ip: Option<string>, agent: Option<string>, reached: set<Jti>)
    requires t !in s.txs
    ensures var s', now := MicroStep(s, Begin(t, ip, agent, reached)), s.db.clock;
            var verified := s.token in s.db.refreshExp && now / 1000 < s.db.refreshExp[s.token];
            && s'.db == s.db && s'.holder == s.holder && s'.txs.Keys == s.txs.Keys + {t}
            && s'.txs[t].ip == ip && s'.txs[t].userAgent == agent && s'.txs[t].reached == reached
            && (s'.txs[t].phase.Waiting? <==> verified)
            && s'.log == if verified then s.log else s.log + [Answered(InvalidOrExpired)]
  {
  }

  lemma ClockApart(st: Auth, id: SessionId, ip: Option<string>, agent: Option<string>, now: nat, reached: set<Jti>)
    requires id in st.sessions
    ensures var (x, r) := RefreshRow(st, id, ip, agent, now, reached);
            RefreshRow(st.(clock := now), id, ip, agent, now, reached) == (x.(clock := now), r)
  {
  }

  lemma ExchangedIsPerformed(st: Auth, a: Action, x: Tx)
    requires Inv(st) && a.DoRefresh? && a.wait == 0 && a.presented.RefreshToken?
    requires x.ip == a.ip && x.userAgent == a.userAgent && x.reached == a.reached
    requires a.presented.token in st.refreshExp && st.clock / 1000 < st.refreshExp[a.presented.token]
    ensures Perform(st, a).1.RefreshAnswer?
    ensures (Step(st, a), Perform(st, a).1.refresh)
            == Exchanged(st.(clock := st.clock + a.busy), a.presented.token, x)
  {
    var token := a.presented.token;
    if token in st.sessions {
      var (y, r) := RefreshRow(st, token, a.ip, a.userAgent, Now(st, a), a.reached);
      RefreshFinds(st, a, y, r);
      ClockApart(st, token, a.ip, a.userAgent, Now(st, a), a.reached);
    } else {
      RefreshRefuses(st, a);
    }
  }

  lemma WaitingIsRefresh(s: System, t: TxId, a: Action)
    requires LockInv(s) && s.holder.None? && t in s.txs && a.DoRefresh?
    requires s.txs[t] == Tx(a.ip, a.userAgent, a.reached, Waiting)
    requires a.wait == 0 && a.presented == RefreshToken(s.token)
    requires s.token in s.db.refreshExp && s.db.clock / 1000 < s.db.refreshExp[s.token]
    ensures var s' := MicroRun(s, [AcquireLock(t, a.busy), Work(t), Work(t), Work(t)]);
            && s'.holder.None? && s'.db == Step(s.db, a)
            && Perform(s.db, a).1.RefreshAnswer? && s'.log == s.log + [Answered(Perform(s.db, a).1.refresh)]
  {
    ExchangedIsPerformed(s.db, a, s.txs[t]);
    WaitingGoesThrough(s, t, a.busy, Step(s.db, a), Perform(s.db, a).1.refresh);
  }

  lemma MicroFirst(s: System, m: Micro, rest: seq<Micro>)
    ensures MicroRun(s, [m] + rest) == MicroRun(MicroStep(s, m), rest)
  {
    assert ([m] + rest)[1..] == rest;
  }

  lemma Begun(s: System, t: TxId, a: Action)
    requires LockInv(s) && a.DoRefresh? && t !in s.txs
    requires s.token in s.db.refreshExp && s.db.clock / 1000 < s.db.refreshExp[s.token]
    ensures MicroStep(s, Begin(t, a.ip, a.userAgent, a.reached))
            == s.(txs := s.txs[t := Tx(a.ip, a.userAgent, a.reached, Waiting)])
    ensures LockInv(MicroStep(s, Begin(t, a.ip, a.userAgent, a.reached)))
  {
    BeginKeepsInv(s, t, a.ip, a.userAgent, a.reached);
  }

  /** Statement by statement and uninterrupted, a presentation whose token verifies is the refresh of the
      state machine, in its effect and in its answer. */
  lemma UninterruptedIsRefresh(s: System, t: TxId, a: Action)
    requires LockInv(s) && s.holder.None? && t !in s.txs
    requires a.DoRefresh? && a.wait == 0 && a.presented == RefreshToken(s.token)
    requires s.token in s.db.refreshExp && s.db.clock / 1000 < s.db.refreshExp[s.token]
    ensures var s' := MicroRun(s, [Begin(t, a.ip, a.userAgent, a.reached), AcquireLock(t, a.busy),
                                   Work(t), Work(t), Work(t)]);
            && s'.holder.None? && s'.db == Step(s.db, a)
            && Perform(s.db, a).1.RefreshAnswer? && s'.log == s.log + [Answered(Perform(s.db, a).1.refresh)]
  {
    var first, rest := Begin(t, a.ip, a.userAgent, a.reached), [AcquireLock(t, a.busy), Work(t), Work(t), Work(t)];
    assert [first, AcquireLock(t, a.busy), Work(t), Work(t), Work(t)] == [first] + rest;
    MicroFirst(s, first, rest);
    Begun(s, t, a);
    WaitingIsRefresh(MicroStep(s, first), t, a);
  }
}
