/**
 Many refreshes presenting the same token, statement by statement. Each is a transaction that
 waits for the lock on the session row, works on its own view of the rows, and commits or rolls
 back. Signing tokens and writing the denylist are not transactional. Every other operation is
 atomic and happens while no refresh of this token holds the lock; the clock does not advance
 while the lock is held.
 */
module RefreshLock {
  import opened Wrappers
  import opened Users
  import opened Sessions
  import opened SessionInvariants

  type TxId = nat

  datatype Phase =
    | Waiting
    | Holding
    | Inserted(successor: SessionId)
    | Rotated(successor: SessionId)
    | Barred(why: Option<DenialReason>)
    | Swept(answer: RefreshOutcome)
    | Finished(result: TxResult)

  datatype TxResult = Answered(outcome: RefreshOutcome) | RolledBack

  datatype Tx = Tx(ip: Option<string>, userAgent: Option<string>, reached: set<Jti>, phase: Phase)

  /** `db` holds the committed rows; `atLock` is what it held when the present holder got the lock
      on row `row`, and `view` the holder's rows. `log` lists results in the order they are reached. */
  datatype System = System(
    token: Token,
    db: Auth,
    holder: Option<TxId>,
    row: SessionId,
    atLock: Auth,
    view: Rows,
    txs: map<TxId, Tx>,
    log: seq<TxResult>)

  function Start(db: Auth, token: Token): System {
    System(token, db, None, 0, db, db.sessions, map[], [])
  }

  datatype Micro =
    | Begin(t: TxId, ip: Option<string>, userAgent: Option<string>, reached: set<Jti>)
    | AcquireLock(t: TxId, wait: nat)
    | Work(t: TxId)
    | Crash(t: TxId)
    | Other(action: Action)

  function Finish(s: System, t: TxId, result: TxResult): System
    requires t in s.txs
  {
    s.(txs := s.txs[t := s.txs[t].(phase := Finished(result))], log := s.log + [result])
  }

  /** The transaction ends and with it its lock. */
  function Release(s: System, t: TxId, result: TxResult, rows: Rows): System
    requires t in s.txs
  {
    Finish(s, t, result).(holder := None, db := s.db.(sessions := rows))
  }

  /** The token is verified before the transaction begins. */
  function DoBegin(s: System, t: TxId, ip: Option<string>, userAgent: Option<string>, reached: set<Jti>): System {
    if t in s.txs then s
    else
      var begun := s.(txs := s.txs[t := Tx(ip, userAgent, reached, Waiting)]);
      match Precheck(s.db, RefreshToken(s.token), s.db.clock)
      case Some(refusal) => Finish(begun, t, Answered(refusal))
      case None => begun
  }

  /** SELECT .. FOR UPDATE. */
  ghost function DoAcquireLock(s: System, t: TxId, wait: nat): System {
    if t !in s.txs || !s.txs[t].phase.Waiting? || s.holder.Some? then s
    else
      var db := s.db.(clock := s.db.clock + wait);
      match FindByHash(db.sessions, s.token)
      case None => Finish(s.(db := db), t, Answered(UnknownToken))
      case Some(id) =>
        s.(db := db, atLock := db, view := db.sessions, holder := Some(t), row := id,
           txs := s.txs[t := s.txs[t].(phase := Holding)])
  }

  function Move(s: System, t: TxId, phase: Phase, db: Auth, view: Rows): System
    requires t in s.txs
  {
    s.(txs := s.txs[t := s.txs[t].(phase := phase)], db := db, view := view)
  }

  function Bar(s: System, t: TxId, why: Option<DenialReason>, user: UserId): System
    requires t in s.txs
  {
    Move(s, t, Barred(why),
         s.db.(denylist := Denylisted(s.db.denylist, ActiveJtis(s.view, user), s.txs[t].reached, s.db.clock)), s.view)
  }

  /** What the callback does after reading the row: throw, start revoking, or insert the successor. */
  function Decide(s: System, t: TxId): System
    requires t in s.txs && s.row in s.view
  {
    var session := s.view[s.row];
    if session.revokedAt.Some? then
      if session.rotatedTo.Some? then Release(s, t, Answered(AlreadyRotated), s.db.sessions)
      else Bar(s, t, None, session.userId)
    else if session.expiresAt < s.db.clock then Release(s, t, Answered(SessionExpired), s.db.sessions)
    else
      match Denial(s.db.accounts.users, session.userId, s.db.clock)
      case Some(reason) => Bar(s, t, Some(reason), session.userId)
      case None =>
        var x := NewSession(s.db.(sessions := s.view), session.userId, s.txs[t].ip, s.txs[t].userAgent, Some(s.row),
                            s.db.clock);
        Move(s, t, Inserted(s.db.next), x.(sessions := s.db.sessions), x.sessions)
  }

  /** The holder's next statement; the last one commits. */
  function DoWork(s: System, t: TxId): System {
    if s.holder != Some(t) || t !in s.txs || s.row !in s.view then s
    else
      match s.txs[t].phase
      case Holding => Decide(s, t)
      case Inserted(successor) =>
        Move(s, t, Rotated(successor), s.db, MarkRotated(s.view, s.row, successor, s.db.clock))
      case Rotated(successor) => Release(s, t, Answered(Refreshed(s.view[s.row].userId, successor)), s.view)
      case Barred(why) =>
        var user := s.view[s.row].userId;
        var count := |UnrevokedOf(s.view, user)|;
        Move(s, t, Swept(if why.None? then ReuseDetected(count) else Denied(why.value, count)), s.db,
             RevokeRows(s.view, user, s.db.clock))
      case Swept(answer) => Release(s, t, Answered(answer), s.view)
      case _ => s
  }

  /** The database or the connection fails: the rows are as they were. */
  function DoCrash(s: System, t: TxId): System {
    if s.holder != Some(t) || t !in s.txs then s else Release(s, t, RolledBack, s.db.sessions)
  }

  ghost function MicroStep(s: System, m: Micro): System {
    match m
    case Begin(t, ip, agent, reached) => DoBegin(s, t, ip, agent, reached)
    case AcquireLock(t, wait) => DoAcquireLock(s, t, wait)
    case Work(t) => DoWork(s, t)
    case Crash(t) => DoCrash(s, t)
    case Other(a) => if s.holder.Some? then s else s.(db := Step(s.db, a))
  }

  ghost function MicroRun(s: System, ms: seq<Micro>): System
    decreases |ms|
  {
    if ms == [] then s else MicroRun(MicroStep(s, ms[0]), ms[1..])
  }

  // ---------------------------------------------------------------- progress of the holder

  /** What the whole transaction would do, as one operation on the state at the lock. */
  function Whole(atLock: Auth, row: SessionId, tx: Tx): (Auth, RefreshOutcome)
    requires row in atLock.sessions
  {
    RefreshRow(atLock, row, tx.ip, tx.userAgent, atLock.clock, tx.reached)
  }

  /** The pair the whole transaction signs and the row it inserts, if it gets that far. */
  function Pair(atLock: Auth, row: SessionId, tx: Tx): Auth
    requires row in atLock.sessions
  {
    NewSession(atLock, atLock.sessions[row].userId, tx.ip, tx.userAgent, Some(row), atLock.clock)
  }

  /** The statements run so far are a prefix of the whole, with only its rows still to commit. */
  ghost predicate OnTheWay(atLock: Auth, row: SessionId, tx: Tx, db: Auth, view: Rows)
    requires row in atLock.sessions
  {
    var session := atLock.sessions[row];
    var whole := Whole(atLock, row, tx);
    match tx.phase
    case Holding => db == atLock && view == atLock.sessions
    case Inserted(n) =>
      var x := Pair(atLock, row, tx);
      && whole.1 == Refreshed(session.userId, n) && n == atLock.next
      && db == x.(sessions := atLock.sessions) && view == x.sessions
    case Rotated(n) =>
      && whole.1 == Refreshed(session.userId, n) && whole.0 == db.(sessions := view)
      && db == Pair(atLock, row, tx).(sessions := atLock.sessions) && row in view && view[row].userId == session.userId
    case Barred(why) =>
      && (if why.None? then whole.1.ReuseDetected? else whole.1.Denied? && whole.1.reason == why.value)
      && db == whole.0.(sessions := atLock.sessions) && view == atLock.sessions
      && db == atLock.(denylist := db.denylist)
    case Swept(answer) =>
      whole == (db.(sessions := view), answer) && row in view && db == atLock.(denylist := db.denylist)
    case _ => false
  }

  ghost predicate Progress(s: System) {
    s.holder.Some? ==>
      && s.holder.value in s.txs && s.row == s.token && s.row in s.atLock.sessions && s.row < s.atLock.next
      && s.db.sessions == s.atLock.sessions && s.db.clock == s.atLock.clock
      && OnTheWay(s.atLock, s.row, s.txs[s.holder.value], s.db, s.view)
  }

  /** The database as the atomic operations see it. */
  function Settled(s: System): Auth {
    if s.holder.Some? then s.atLock else s.db
  }

  ghost predicate LockInv(s: System) {
    Inv(Settled(s)) && Progress(s)
  }

  // ---------------------------------------------------------------- each statement

  /** One statement of the holder, short of the invariant of the rows. */
  ghost predicate Worked(s: System, t: TxId, s': System)
    requires t in s.txs && s.row in s.atLock.sessions
  {
    && Progress(s') && s'.token == s.token
    && if s'.holder.Some? then
         s'.holder == s.holder && s'.atLock == s.atLock && s'.log == s.log && s'.db.sessions == s.db.sessions
       else
         (s'.db, s'.log) == (Whole(s.atLock, s.row, s.txs[t]).0, s.log + [Answered(Whole(s.atLock, s.row, s.txs[t]).1)])
  }

  lemma DecideWorks(s: System, t: TxId)
    requires Progress(s) && s.holder == Some(t) && s.txs[t].phase.Holding?
    ensures s.row in s.view && Worked(s, t, Decide(s, t))
  {
    var session, tx := s.view[s.row], s.txs[t];
    if session.revokedAt.Some? && session.rotatedTo.None? {
      BarWorks(s, t, None);
    } else if session.revokedAt.None? && session.expiresAt >= s.db.clock {
      var denial := Denial(s.db.accounts.users, session.userId, s.db.clock);
      if denial.Some? { BarWorks(s, t, denial); }
    }
  }

  lemma BarWorks(s: System, t: TxId, why: Option<DenialReason>)
    requires Progress(s) && s.holder == Some(t) && s.txs[t].phase.Holding?
    requires var r := Whole(s.atLock, s.row, s.txs[t]).1;
             if why.None? then r.ReuseDetected? else r.Denied? && r.reason == why.value
    ensures Worked(s, t, Bar(s, t, why, s.view[s.row].userId))
  {
    RefreshRowCases(s.atLock, s.row, s.txs[t].ip, s.txs[t].userAgent, s.atLock.clock, s.txs[t].reached);
  }

  lemma InsertedWorks(s: System, t: TxId)
    requires Progress(s) && s.holder == Some(t) && s.txs[t].phase.Inserted?
    ensures s.row in s.view && Worked(s, t, DoWork(s, t))
  {
    RefreshRowCases(s.atLock, s.row, s.txs[t].ip, s.txs[t].userAgent, s.atLock.clock, s.txs[t].reached);
  }

  lemma BarredWorks(s: System, t: TxId)
    requires Progress(s) && s.holder == Some(t) && s.txs[t].phase.Barred?
    ensures s.row in s.view && Worked(s, t, DoWork(s, t))
  {
  }

  lemma CommitWorks(s: System, t: TxId)
    requires Progress(s) && s.holder == Some(t) && (s.txs[t].phase.Rotated? || s.txs[t].phase.Swept?)
    ensures Worked(s, t, DoWork(s, t))
  {
  }

  lemma StatementWorks(s: System, t: TxId)
    requires Progress(s) && s.holder == Some(t)
    ensures Worked(s, t, DoWork(s, t))
  {
    match s.txs[t].phase
    case Holding => DecideWorks(s, t);
    case Inserted(_) => InsertedWorks(s, t);
    case Barred(_) => BarredWorks(s, t);
    case _ => CommitWorks(s, t);
  }

  /** A refresh refines one atomic exchange: every statement before the last leaves the settled
      state alone, and the last one, commit or throw, takes it to exactly what the atomic operation
      gives, with the same answer. */
  lemma WorkRefines(s: System, t: TxId)
    requires LockInv(s) && s.holder == Some(t)
    ensures var (s', whole) := (DoWork(s, t), Whole(s.atLock, s.row, s.txs[t]));
            && LockInv(s') && s'.token == s.token
            && (s'.holder.Some? ==> Settled(s') == Settled(s) && s'.log == s.log && s'.db.sessions == s.db.sessions)
            && (s'.holder.None? ==> (Settled(s'), s'.log) == (whole.0, s.log + [Answered(whole.1)]))
  {
    StatementWorks(s, t);
    WholeKeepsInv(s.atLock, s.row, s.txs[t]);
  }

  lemma WholeKeepsInv(atLock: Auth, row: SessionId, tx: Tx)
    requires Inv(atLock) && row in atLock.sessions
    ensures Inv(Whole(atLock, row, tx).0)
  {
    RefreshRowKeepsInv(atLock, row, tx.ip, tx.userAgent, atLock.clock, tx.reached);
    WholeStandsStill(atLock, row, tx);
  }

  lemma WholeStandsStill(atLock: Auth, row: SessionId, tx: Tx)
    requires row in atLock.sessions
    ensures Whole(atLock, row, tx).0.clock == atLock.clock
  {
  }

  /** What a rollback can leave behind: one signed pair or some denylist entries, but no row. */
  lemma LeftBehind(s: System, t: TxId)
    requires Progress(s) && s.holder == Some(t)
    ensures || s.db == s.atLock.(denylist := s.db.denylist)
            || s.db == Pair(s.atLock, s.row, s.txs[t]).(sessions := s.atLock.sessions)
  {
  }

  lemma SignedPairKeepsInv(st: Auth, user: UserId, ip: Option<string>, agent: Option<string>, from: Option<SessionId>)
    requires Inv(st)
    ensures Inv(NewSession(st, user, ip, agent, from, st.clock).(sessions := st.sessions))
  {
    RowsOutliveSigning(st.sessions, st.refreshExp, st.next, ExpClaim(st.clock, REFRESH_TOKEN_EXPIRES_MS));
    SigningKeepsTokens(st, user, ip, agent, from, st.clock);
    forall i | i in st.sessions ensures ForwardOk(st.sessions, st.next + 1, i) {
      assert ForwardOk(st.sessions, st.next, i);
    }
  }

  lemma DenylistIsFree(st: Auth, denylist: map<Jti, nat>)
    requires Inv(st)
    ensures Inv(st.(denylist := denylist))
  {
  }

  /** A rollback undoes every row change; tokens already signed stay unused. */
  lemma CrashRollsBack(s: System, t: TxId)
    requires LockInv(s) && s.holder == Some(t)
    ensures var s' := DoCrash(s, t);
            && LockInv(s') && s'.holder.None? && s'.token == s.token && s'.log == s.log + [RolledBack]
            && s'.db.sessions == s.atLock.sessions && s.atLock.next <= s'.db.next
  {
    LeftBehind(s, t);
    SignedPairKeepsInv(s.atLock, s.atLock.sessions[s.row].userId, s.txs[t].ip, s.txs[t].userAgent, Some(s.row));
    DenylistIsFree(s.atLock, s.db.denylist);
  }

  lemma LockKeepsInv(s: System, t: TxId, wait: nat)
    requires LockInv(s)
    ensures LockInv(DoAcquireLock(s, t, wait))
    ensures var s' := DoAcquireLock(s, t, wait);
            && Settled(s').sessions == Settled(s).sessions && Settled(s').next == Settled(s).next && s'.token == s.token
            && (s'.log == s.log || (s'.log == s.log + [Answered(UnknownToken)] && s.token !in s.db.sessions))
  {
    if s.holder.None? {
      FindByHashIsExact(s.db.sessions, s.db.refreshExp, s.db.next, s.token);
      RowsBelowNext(s.db.sessions, s.db.refreshExp, s.db.next);
      TickStep(s.db, s.db.clock + wait);
    }
  }

  lemma BeginKeepsInv(s: System, t: TxId, ip: Option<string>, agent: Option<string>, reached: set<Jti>)
    requires LockInv(s)
    ensures var s' := DoBegin(s, t, ip, agent, reached);
            && LockInv(s') && Settled(s') == Settled(s) && s'.token == s.token
            && (s'.log == s.log || s'.log == s.log + [Answered(InvalidOrExpired)])
  {
    BeginOnlyAdds(s, t, ip, agent, reached);
  }

  lemma BeginOnlyAdds(s: System, t: TxId, ip: Option<string>, agent: Option<string>, reached: set<Jti>)
    ensures var s' := DoBegin(s, t, ip, agent, reached);
            && s' == s.(txs := s'.txs, log := s'.log)
            && (forall u | u in s.txs :: u in s'.txs && s'.txs[u] == s.txs[u])
            && (s'.log == s.log || s'.log == s.log + [Answered(InvalidOrExpired)])
  {
  }

  lemma MicroKeepsInv(s: System, m: Micro)
    requires LockInv(s)
    ensures LockInv(MicroStep(s, m))
  {
    match m
    case Begin(t, ip, agent, reached) => BeginKeepsInv(s, t, ip, agent, reached);
    case AcquireLock(t, wait) => LockKeepsInv(s, t, wait);
    case Work(t) => if s.holder == Some(t) { WorkRefines(s, t); }
    case Crash(t) => if s.holder == Some(t) { CrashRollsBack(s, t); }
    case Other(a) => if s.holder.None? { StepKeepsInv(s.db, a); }
  }

  // ---------------------------------------------------------------- at most one success

  predicate Success(r: TxResult) {
    r.Answered? && r.outcome.Refreshed?
  }

  /** Refused without touching the table. */
  predicate Harmless(r: TxResult) {
    r.RolledBack? || r.outcome.AlreadyRotated? || r.outcome.UnknownToken? || r.outcome.InvalidOrExpired?
  }

  /** The token's row has a successor, or has been purged. */
  ghost predicate Closed(st: Auth, token: Token) {
    && token < st.next
    && (token in st.sessions ==> st.sessions[token].revokedAt.Some? && st.sessions[token].rotatedTo.Some?)
  }

  ghost predicate LogInv(s: System) {
    && (forall i | 0 <= i < |s.log| && Success(s.log[i]) :: Closed(Settled(s), s.token))
    && (forall i, j | 0 <= i < j < |s.log| && Success(s.log[i]) :: Harmless(s.log[j]))
  }

  lemma RefreshRowKeepsClosed(st: Auth, id: SessionId, ip: Option<string>, agent: Option<string>, now: nat,
                              reached: set<Jti>, token: Token)
    requires Inv(st) && id in st.sessions && Closed(st, token)
    ensures Closed(RefreshRow(st, id, ip, agent, now, reached).0, token)
  {
    RefreshRowCases(st, id, ip, agent, now, reached);
  }

  lemma StepKeepsClosed(st: Auth, a: Action, token: Token)
    requires Inv(st) && Closed(st, token)
    ensures Closed(Step(st, a), token)
  {
    if ByOwnerOrAdmin(a) {
      OwnerActionsOnlyRevoke(st, a);
    } else if a.DoRefresh? {
      RefreshKeepsClosed(st, a, token);
    } else if a.DoLogin? {
      LoginKeepsClosed(st, a, token);
    } else {
      QuietKeepsClosed(st, a, token);
    }
  }

  lemma RefreshKeepsClosed(st: Auth, a: Action, token: Token)
    requires Inv(st) && Closed(st, token) && a.DoRefresh?
    ensures Closed(Perform(st, a).0, token)
  {
    if Precheck(st, a.presented, st.clock + a.wait).None? && a.presented.token in st.sessions {
      var (x, r) := RefreshRow(st, a.presented.token, a.ip, a.userAgent, Now(st, a), a.reached);
      RefreshFinds(st, a, x, r);
      RefreshRowKeepsClosed(st, a.presented.token, a.ip, a.userAgent, Now(st, a), a.reached, token);
    } else {
      RefreshRefuses(st, a);
    }
  }

  lemma LoginKeepsClosed(st: Auth, a: Action, token: Token)
    requires Closed(st, token) && a.DoLogin?
    ensures Closed(Perform(st, a).0, token)
  {
  }

  lemma QuietKeepsClosed(st: Auth, a: Action, token: Token)
    requires Closed(st, token) && (a.DoPurge? || a.DoRegister? || a.DoValidate?)
    ensures Closed(Perform(st, a).0, token)
  {
  }

  lemma SuccessCloses(s: System, t: TxId)
    requires Progress(s) && s.holder == Some(t)
    ensures var whole := Whole(s.atLock, s.row, s.txs[t]);
            && (whole.1.Refreshed? ==> Closed(whole.0, s.token))
            && (Closed(s.atLock, s.token) ==> whole == (s.atLock, AlreadyRotated))
  {
    RefreshRowCases(s.atLock, s.row, s.txs[t].ip, s.txs[t].userAgent, s.atLock.clock, s.txs[t].reached);
  }

  lemma WorkKeepsLog(s: System, t: TxId)
    requires LockInv(s) && LogInv(s) && s.holder == Some(t)
    ensures LogInv(DoWork(s, t))
  {
    WorkRefines(s, t);
    SuccessCloses(s, t);
    Extended(s, DoWork(s, t), Answered(Whole(s.atLock, s.row, s.txs[t]).1));
  }

  /** At most one result is added, a success closes the token, and after a success only harmless
      results are. */
  lemma Extended(s: System, s': System, r: TxResult)
    requires LogInv(s) && s'.token == s.token && (s'.log == s.log || s'.log == s.log + [r])
    requires Closed(Settled(s), s.token) ==> Closed(Settled(s'), s.token) && Harmless(r)
    requires s'.log != s.log && Success(r) ==> Closed(Settled(s'), s.token)
    ensures LogInv(s')
  {
    forall i | 0 <= i < |s'.log| && Success(s'.log[i]) ensures Closed(Settled(s'), s.token) {
      if i < |s.log| { assert Success(s.log[i]); }
    }
    forall i, j | 0 <= i < j < |s'.log| && Success(s'.log[i]) ensures Harmless(s'.log[j]) {
      assert Success(s.log[i]);
      if j < |s.log| { assert Harmless(s.log[j]); }
    }
  }

  lemma MicroKeepsLog(s: System, m: Micro)
    requires LockInv(s) && LogInv(s)
    ensures LogInv(MicroStep(s, m))
  {
    match m
    case Begin(t, ip, agent, reached) =>
      BeginKeepsInv(s, t, ip, agent, reached);
      Extended(s, DoBegin(s, t, ip, agent, reached), Answered(InvalidOrExpired));
    case AcquireLock(t, wait) =>
      LockKeepsInv(s, t, wait);
      Extended(s, DoAcquireLock(s, t, wait), Answered(UnknownToken));
    case Work(t) =>
      if s.holder == Some(t) { WorkKeepsLog(s, t); }
    case Crash(t) =>
      if s.holder == Some(t) {
        CrashRollsBack(s, t);
        Extended(s, DoCrash(s, t), RolledBack);
      }
    case Other(a) => OtherKeepsLog(s, a);
  }

  lemma OtherKeepsLog(s: System, a: Action)
    requires LockInv(s) && LogInv(s)
    ensures LogInv(MicroStep(s, Other(a)))
  {
    if s.holder.None? {
      if Closed(s.db, s.token) { StepKeepsClosed(s.db, a, s.token); }
      Extended(s, s.(db := Step(s.db, a)), RolledBack);
    }
  }

  lemma TokenIsFixed(s: System, m: Micro)
    ensures MicroStep(s, m).token == s.token
  {
  }

  lemma {:induction false} MicroRunKeepsInv(s: System, ms: seq<Micro>)
    requires LockInv(s) && LogInv(s)
    ensures LockInv(MicroRun(s, ms)) && LogInv(MicroRun(s, ms)) && MicroRun(s, ms).token == s.token
    decreases |ms|
  {
    if ms != [] {
      MicroKeepsInv(s, ms[0]);
      MicroKeepsLog(s, ms[0]);
      TokenIsFixed(s, ms[0]);
      MicroRunKeepsInv(MicroStep(s, ms[0]), ms[1..]);
    }
  }

  /** Under the row lock, any interleaving of any number of refreshes presenting one token, with
      failures anywhere and with any other operations in between, yields at most one success. The
      presentations that finish after it get "already rotated" - or, their row purged or their
      token expired, are refused earlier - and revoke nothing. */
  lemma AtMostOneSuccess(users: map<UserId, User>, before: seq<Action>, token: Token, ms: seq<Micro>, i: nat, j: nat)
    requires var log := MicroRun(Start(Run(Init(users), before), token), ms).log; i < j < |log| && Success(log[i])
    ensures Harmless(MicroRun(Start(Run(Init(users), before), token), ms).log[j])
  {
    ReachableInv(users, before);
    MicroRunKeepsInv(Start(Run(Init(users), before), token), ms);
  }

  /** Once a presentation has succeeded, no statement of any other one changes the stored rows. */
  lemma NothingHappensAfterSuccess(users: map<UserId, User>, before: seq<Action>, token: Token, ms: seq<Micro>,
                                  m: Micro)
    requires exists r :: r in MicroRun(Start(Run(Init(users), before), token), ms).log && Success(r)
    requires !m.Other?
    ensures var s := MicroRun(Start(Run(Init(users), before), token), ms);
            MicroStep(s, m).db.sessions == s.db.sessions
  {
    ReachableInv(users, before);
    var s := MicroRun(Start(Run(Init(users), before), token), ms);
    MicroRunKeepsInv(Start(Run(Init(users), before), token), ms);
    var r :| r in s.log && Success(r);
    var i :| 0 <= i < |s.log| && s.log[i] == r;
    assert Closed(Settled(s), token);
    ClosedRowsStay(s, m);
  }

  lemma ClosedRowsStay(s: System, m: Micro)
    requires LockInv(s) && Closed(Settled(s), s.token) && !m.Other?
    ensures MicroStep(s, m).db.sessions == s.db.sessions
  {
    match m
    case Begin(t, ip, agent, reached) => BeginOnlyAdds(s, t, ip, agent, reached);
    case AcquireLock(_, _) =>
    case Work(t) => if s.holder == Some(t) { ClosedWorkStays(s, t); }
    case Crash(_) =>
  }

  lemma ClosedWorkStays(s: System, t: TxId)
    requires LockInv(s) && Closed(Settled(s), s.token) && s.holder == Some(t)
    ensures DoWork(s, t).db.sessions == s.db.sessions
  {
    WorkRefines(s, t);
    SuccessCloses(s, t);
  }

  /** Serialisability over whole interleavings: the settled state only ever moves by one whole
      operation. The last statement of a presentation is one atomic exchange of the token, with its
      answer; a lock that finds no row, a refusal before the transaction and a rollback leave every
      row alone. */
  lemma EveryStepIsAtomic(users: map<UserId, User>, before: seq<Action>, token: Token, ms: seq<Micro>, m: Micro)
    ensures var s := MicroRun(Start(Run(Init(users), before), token), ms);
            var s' := MicroStep(s, m);
            match m
            case Other(a) => Settled(s') == if s.holder.None? then Step(Settled(s), a) else Settled(s)
            case Work(t) =>
              if s.holder == Some(t) && s'.holder.None? then
                && t in s.txs && token in Settled(s).sessions
                && var x := s.txs[t];
                   var (st, answer) := RefreshRow(Settled(s), token, x.ip, x.userAgent, Settled(s).clock, x.reached);
                   Settled(s') == st && s'.log == s.log + [Answered(answer)]
              else Settled(s') == Settled(s) && s'.log == s.log
            case AcquireLock(_, _) => Settled(s').sessions == Settled(s).sessions
              && (s'.log == s.log || (s'.log == s.log + [Answered(UnknownToken)] && token !in s.db.sessions))
            case Begin(_, _, _, _) => Settled(s') == Settled(s)
              && (s'.log == s.log || s'.log == s.log + [Answered(InvalidOrExpired)])
            case Crash(_) =>
              Settled(s').sessions == Settled(s).sessions && (s'.log == s.log || s'.log == s.log + [RolledBack])
  {
    ReachableInv(users, before);
    var s := MicroRun(Start(Run(Init(users), before), token), ms);
    MicroRunKeepsInv(Start(Run(Init(users), before), token), ms);
    match m {
      case Begin(t, ip, agent, reached) => BeginKeepsInv(s, t, ip, agent, reached);
      case AcquireLock(t, wait) => LockKeepsInv(s, t, wait);
      case Work(t) => if s.holder == Some(t) { WorkRefines(s, t); }
      case Crash(t) => if s.holder == Some(t) { CrashRollsBack(s, t); }
      case Other(a) =>
    }
  }
}
