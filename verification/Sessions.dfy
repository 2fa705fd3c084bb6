/**
 Refresh-token sessions as a state machine. Rows are active, rotated (revoked with a successor)
 or revoked without one. Every service operation is a function from state to state; a run is any
 sequence of operations, each a non-negative delay after the one before.

 Row ids, refresh tokens and token ids are fresh random values, here drawn from one counter; a
 token's hash is injective, so it is the token itself. Times are milliseconds, `exp` claims are
 seconds, a day is 24 hours.
 */
module Sessions {
  import opened Wrappers
  import opened CacheTiers
  import opened Users

  type SessionId = nat
  type Token = nat
  type Jti = nat

  const DAY_MS := 24 * 60 * 60 * 1000
  const ACCESS_TOKEN_EXPIRES_MS := 15 * 60 * 1000
  const REFRESH_TOKEN_EXPIRES_MS := 7 * DAY_MS

  datatype Session = Session(
    userId: UserId,
    refreshTokenHash: Token,
    accessJti: Option<Jti>,
    ip: Option<string>,
    userAgent: Option<string>,
    createdAt: nat,
    expiresAt: nat,
    revokedAt: Option<nat>,
    rotatedFrom: Option<SessionId>,
    rotatedTo: Option<SessionId>)

  type Rows = map<SessionId, Session>

  datatype AccessClaims = AccessClaims(sub: UserId, exp: nat)

  /** `denylist` maps a token id to the moment its entry expires; `refreshExp` and `accessTokens`
      are the claims of every token signed so far; `next` is the next fresh value. */
  datatype Auth = Auth(
    accounts: Accounts,
    sessions: Rows,
    denylist: map<Jti, nat>,
    refreshExp: map<Token, nat>,
    accessTokens: map<Jti, AccessClaims>,
    next: nat,
    clock: nat)

  function Init(users: map<UserId, User>): Auth {
    Auth(Accounts(users, map[]), map[], map[], map[], map[], 0, 0)
  }

  // ---------------------------------------------------------------- rows

  /** `exp` of a token signed at `now`; the signature library floors to seconds. */
  function ExpClaim(now: nat, ttl: nat): nat {
    now / 1000 + ttl / 1000
  }

  predicate Verifies(exp: nat, now: nat) {
    now / 1000 < exp
  }

  predicate Unrevoked(s: Session, user: UserId) {
    s.userId == user && s.revokedAt.None?
  }

  function UnrevokedOf(rows: Rows, user: UserId): set<SessionId> {
    set i | i in rows && Unrevoked(rows[i], user)
  }

  /** UPDATE sessions SET revoked_at = NOW() WHERE user_id = :user AND revoked_at IS NULL. */
  function RevokeRows(rows: Rows, user: UserId, now: nat): Rows {
    map i | i in rows :: if Unrevoked(rows[i], user) then rows[i].(revokedAt := Some(now)) else rows[i]
  }

  /** The same, narrowed to one refresh token hash. */
  function RevokeToken(rows: Rows, user: UserId, token: Token, now: nat): Rows {
    map i | i in rows :: if Unrevoked(rows[i], user)
      && rows[i].refreshTokenHash == token then rows[i].(revokedAt := Some(now)) else rows[i]
  }

  /** The access token ids denylistActiveAccessJtis tries to write. */
  function ActiveJtis(rows: Rows, user: UserId): set<Jti> {
    set i | i in rows && Unrevoked(rows[i], user) && rows[i].accessJti.Some? :: rows[i].accessJti.value
  }

  /** Of the writes attempted those in `reached` arrive; a failure is swallowed. */
  function Denylisted(denylist: map<Jti, nat>, jtis: set<Jti>, reached: set<Jti>, now: nat): map<Jti, nat> {
    denylist + map j | j in jtis && j in reached :: now + ACCESS_TOKEN_EXPIRES_MS
  }

  /** revokeAllUserSessions. */
  function RevokeAll(st: Auth, user: UserId, now: nat, reached: set<Jti>): Auth {
    st.(sessions := RevokeRows(st.sessions, user, now),
        denylist := Denylisted(st.denylist, ActiveJtis(st.sessions, user), reached, now))
  }

  /** findOne by hash. */
  ghost function FindByHash(rows: Rows, token: Token): Option<SessionId> {
    if exists i :: i in rows && rows[i].refreshTokenHash == token then
      var i :| i in rows && rows[i].refreshTokenHash == token; Some(i)
    else None
  }

  /** buildTokenPair and the INSERT of the session that carries the pair. */
  function NewSession(st: Auth, user: UserId, ip: Option<string>, userAgent: Option<string>, from: Option<SessionId>,
                      now: nat): Auth {
    var n := st.next;
    var row := Session(user, n, Some(n), ip, userAgent, now, now + REFRESH_TOKEN_EXPIRES_MS, None, from, None);
    st.(sessions := st.sessions[n := row],
        refreshExp := st.refreshExp[n := ExpClaim(now, REFRESH_TOKEN_EXPIRES_MS)],
        accessTokens := st.accessTokens[n := AccessClaims(user, ExpClaim(now, ACCESS_TOKEN_EXPIRES_MS))],
        next := n + 1)
  }

  /** Rotation: the old row is revoked and points at its successor. */
  function MarkRotated(rows: Rows, id: SessionId, successor: SessionId, now: nat): Rows
    requires id in rows
  {
    rows[id := rows[id].(revokedAt := Some(now), rotatedTo := Some(successor))]
  }

  // ---------------------------------------------------------------- refresh

  datatype Presented = RefreshToken(token: Token) | AccessToken(jti: Jti) | Garbage

  datatype DenialReason = Missing | Deleted | Inactive | Locked

  datatype RefreshOutcome =
    | InvalidOrExpired
    | NotARefreshToken
    | UnknownToken
    | AlreadyRotated
    | ReuseDetected(revoked: nat)
    | SessionExpired
    | Denied(reason: DenialReason, revoked: nat)
    | Refreshed(user: UserId, successor: SessionId)

  function Denial(users: map<UserId, User>, user: UserId, now: nat): Option<DenialReason> {
    if user !in users then Some(Missing)
    else if users[user].deleted then Some(Deleted)
    else if !users[user].isActive then Some(Inactive)
    else if LockedAt(users[user], now) then Some(Locked)
    else None
  }

  /** The verify step before the transaction. */
  function Precheck(st: Auth, presented: Presented, now: nat): Option<RefreshOutcome> {
    match presented
    case Garbage => Some(InvalidOrExpired)
    case AccessToken(jti) =>
      if jti in st.accessTokens
        && Verifies(st.accessTokens[jti].exp, now) then Some(NotARefreshToken) else Some(InvalidOrExpired)
    case RefreshToken(token) =>
      if token in st.refreshExp && Verifies(st.refreshExp[token], now) then None else Some(InvalidOrExpired)
  }

  /** The transaction, given the row its locked read returned. */
  function RefreshRow(st: Auth, id: SessionId, ip: Option<string>, userAgent: Option<string>, now: nat,
                      reached: set<Jti>): (Auth, RefreshOutcome)
    requires id in st.sessions
  {
    var session := st.sessions[id];
    var count := |UnrevokedOf(st.sessions, session.userId)|;
    if session.revokedAt.Some? then
      if session.rotatedTo.Some? then (st, AlreadyRotated)
      else (RevokeAll(st, session.userId, now, reached), ReuseDetected(count))
    else if session.expiresAt < now then (st, SessionExpired)
    else
      match Denial(st.accounts.users, session.userId, now)
      case Some(reason) => (RevokeAll(st, session.userId, now, reached), Denied(reason, count))
      case None =>
        var inserted := NewSession(st, session.userId, ip, userAgent, Some(id), now);
        (inserted.(sessions := MarkRotated(inserted.sessions, id, st.next, now)), Refreshed(session.userId, st.next))
  }

  /** refresh: verified at `verifiedAt`, in the transaction at `now`. */
  ghost function Refresh(st: Auth, presented: Presented, ip: Option<string>, userAgent: Option<string>, verifiedAt: nat,
                         now: nat, reached: set<Jti>): (Auth, RefreshOutcome) {
    match Precheck(st, presented, verifiedAt)
    case Some(outcome) => (st, outcome)
    case None =>
      match FindByHash(st.sessions, presented.token)
      case None => (st, UnknownToken)
      case Some(id) => RefreshRow(st, id, ip, userAgent, now, reached)
  }

  // ---------------------------------------------------------------- the other operations

  datatype LoginOutcome = Refused | Failed | Threw | LoggedIn(session: SessionId)

  /** The login reads the clock at `start`; the password is compared; the rest happens at `end`. */
  function Login(st: Auth, user: UserId, passwordOk: bool, ip: Option<string>, userAgent: Option<string>, start: nat,
                 end: nat, via: Client): (Auth, LoginOutcome) {
    if user !in st.accounts.users || st.accounts.users[user].deleted
      || !Compares(st.accounts.users[user], Attempt(start, end)) then (st, Refused)
    else
      var u := st.accounts.users[user];
      if !passwordOk then
        (st.(accounts := AfterUpdate(st.accounts, user, AfterFailure(u, end), via)), if via.up then Failed else Threw)
      else
        var reset := st.(accounts := AfterUpdate(st.accounts, user, AfterReset(u), via));
        if !via.up then (reset, Threw)
        else (NewSession(reset, user, ip, userAgent, None, end), LoggedIn(st.next))
  }

  /** The caller's own access token id, if the request carried one, goes on the denylist. */
  function DenySelf(st: Auth, jti: Option<Jti>, now: nat): Auth {
    if jti.Some? then st.(denylist := st.denylist[jti.value := now + ACCESS_TOKEN_EXPIRES_MS]) else st
  }

  /** The caller's own token is denied first; if the cache is down nothing follows. */
  function Logout(st: Auth, user: UserId, jti: Option<Jti>, token: Option<Token>, now: nat, via: Client): Auth {
    if jti.Some? && !via.up then st
    else if token.Some? then DenySelf(st, jti, now).(sessions := RevokeToken(st.sessions, user, token.value, now))
    else DenySelf(st, jti, now)
  }

  function LogoutAll(st: Auth, user: UserId, jti: Option<Jti>, now: nat, via: Client, reached: set<Jti>): Auth {
    if jti.Some? && !via.up then st else RevokeAll(DenySelf(st, jti, now), user, now, reached)
  }

  datatype AdminOutcome = Done | NotFound | WrongPassword | CacheFailed

  /** findById does not see soft-deleted users. */
  predicate Findable(a: Accounts, user: UserId) {
    user in a.users && !a.users[user].deleted
  }

  function ChangePassword(st: Auth, user: UserId, currentOk: bool, hashed: string, now: nat, via: Client,
                          reached: set<Jti>): (Auth, AdminOutcome) {
    if !Findable(st.accounts, user) then (st, NotFound)
    else if !currentOk then (st, WrongPassword)
    else
      var updated := st.(accounts := AfterUpdate(st.accounts, user, st.accounts.users[user].(password := hashed), via));
      if !via.up then (updated, CacheFailed) else (RevokeAll(updated, user, now, reached), Done)
  }

  function SetUserActive(st: Auth, user: UserId, active: bool, now: nat, via: Client,
                         reached: set<Jti>): (Auth, AdminOutcome) {
    if !Findable(st.accounts, user) then (st, NotFound)
    else
      var updated := st.(accounts := AfterUpdate(st.accounts, user, st.accounts.users[user].(isActive := active), via));
      if !via.up then (updated, CacheFailed)
      else if active then (updated, Done)
      else (RevokeAll(updated, user, now, reached), Done)
  }

  function Register(st: Auth, user: UserId, hashed: string): Auth {
    if user in st.accounts.users then st
    else st.(accounts := st.accounts.(users := st.accounts.users[user := User(true, false, 0, None, hashed)]))
  }

  /** Rows a purge deletes, and ON DELETE SET NULL for the back-links into them. */
  predicate Before(s: Session, cutoff: nat) { s.expiresAt < cutoff }

  function DeleteRows(rows: Rows, gone: set<SessionId>): Rows {
    map i | i in rows && i !in gone ::
      if rows[i].rotatedFrom.Some? && rows[i].rotatedFrom.value in gone then rows[i].(rotatedFrom := None) else rows[i]
  }

  function Expired(rows: Rows, cutoff: nat): set<SessionId> {
    set i | i in rows && Before(rows[i], cutoff)
  }

  function DaysAgo(days: nat, now: nat): nat {
    if days * DAY_MS <= now then now - days * DAY_MS else 0
  }

  /** `spared` are the expired rows a purge that fails halfway has not reached. */
  function Purge(st: Auth, enabled: bool, graceDays: nat, spared: set<SessionId>, now: nat): Auth {
    if !enabled then st
      else st.(sessions := DeleteRows(st.sessions, Expired(st.sessions, DaysAgo(graceDays, now)) - spared))
  }

  // ---------------------------------------------------------------- request validation

  datatype Verdict =
    | Accepted(user: User)
    | WrongTokenType
    | Revoked
    | ExpiredToken
    | InvalidToken
    | Deactivated
    | AccountLocked

  predicate OnDenylist(denylist: map<Jti, nat>, jti: Jti, now: nat) {
    jti in denylist && now < denylist[jti]
  }

  /** An unexpired copy in one tier. */
  function Copy(a: Accounts, tier: Tier, user: UserId, now: nat): Option<User> {
    if (tier, user) in a.cached && now < a.cached[(tier, user)].until then Some(a.cached[(tier, user)].user) else None
  }

  /** What the cache answers to process `proc`: its own memory tier first, then the shared one. */
  function Served(a: Accounts, proc: Proc, user: UserId, now: nat): Option<User> {
    if Copy(a, L1(proc), user, now).Some? then Copy(a, L1(proc), user, now) else Copy(a, L2, user, now)
  }

  /** The row validation sees: a served copy, else the database's, which is then written to both tiers.
      `promote` is None if a copy found in the shared tier is only read, or the lifetime it gets if
      the cache library also copies it to the memory tier. */
  function CachedOrStored(a: Accounts, proc: Proc, promote: Option<nat>, user: UserId,
                          now: nat): (Accounts, Option<User>) {
    var served := Served(a, proc, user, now);
    if served.Some? then
      if Copy(a, L1(proc), user, now).None? && promote.Some?
      then (a.(cached := a.cached[(L1(proc), user) := CachedUser(served.value, now + promote.value)]), served)
      else (a, served)
    else if !Findable(a, user) then (a, None)
    else
      var copy := CachedUser(a.users[user], now + USER_CACHE_TTL_MS);
      (a.(cached := a.cached[(L1(proc), user) := copy][(L2, user) := copy]), Some(a.users[user]))
  }

  function Gate(u: Option<User>, now: nat): Verdict {
    match u
    case None => InvalidToken
    case Some(user) =>
      if !user.isActive then Deactivated else if LockedAt(user, now) then AccountLocked else Accepted(user)
  }

  /** The signature library's expiry check followed by JwtStrategy.validate. */
  function Validate(st: Auth, presented: Presented, proc: Proc, promote: Option<nat>, now: nat): (Auth, Verdict) {
    match presented
    case Garbage => (st, InvalidToken)
    case RefreshToken(token) =>
      (st, if token in st.refreshExp && Verifies(st.refreshExp[token], now) then WrongTokenType else ExpiredToken)
    case AccessToken(jti) =>
      if jti !in st.accessTokens then (st, InvalidToken)
      else if !Verifies(st.accessTokens[jti].exp, now) then (st, ExpiredToken)
      else if OnDenylist(st.denylist, jti, now) then (st, Revoked)
      else
        var (a, u) := CachedOrStored(st.accounts, proc, promote, st.accessTokens[jti].sub, now);
        (st.(accounts := a), Gate(u, now))
  }

  // ---------------------------------------------------------------- listing

  /** A row of listSessions. */
  datatype SessionView = SessionView(id: SessionId, ip: Option<string>, userAgent: Option<string>, createdAt: nat,
                                     expiresAt: nat)

  function View(id: SessionId, s: Session): SessionView {
    SessionView(id, s.ip, s.userAgent, s.createdAt, s.expiresAt)
  }

  predicate Listed(rows: Rows, user: UserId, now: nat, id: SessionId) {
    id in rows && Unrevoked(rows[id], user) && rows[id].expiresAt > now
  }

  /** `out` lists exactly the user's unrevoked, unexpired sessions, newest first. */
  ghost predicate IsListing(rows: Rows, user: UserId, now: nat, out: seq<SessionView>) {
    && (forall k | 0 <= k < |out| :: Listed(rows, user, now, out[k].id) && out[k] == View(out[k].id, rows[out[k].id]))
    && (forall id | Listed(rows, user, now, id) :: exists k :: 0 <= k < |out| && out[k].id == id)
    && (forall k, l | 0 <= k < l < |out| :: out[k].id != out[l].id && out[k].createdAt >= out[l].createdAt)
  }

  // ---------------------------------------------------------------- runs

  /** `wait` is the time since the previous operation, `busy` the time inside this one. */
  datatype Action =
    | DoLogin(user: UserId, passwordOk: bool, ip: Option<string>, userAgent: Option<string>, via: Client, wait: nat,
              busy: nat)
    | DoRefresh(presented: Presented, ip: Option<string>, userAgent: Option<string>, reached: set<Jti>, wait: nat,
                busy: nat)
    | DoLogout(user: UserId, jti: Option<Jti>, token: Option<Token>, via: Client, wait: nat)
    | DoLogoutAll(user: UserId, jti: Option<Jti>, via: Client, reached: set<Jti>, wait: nat)
    | DoChangePassword(user: UserId, currentOk: bool, hashed: string, via: Client, reached: set<Jti>, wait: nat)
    | DoSetUserActive(user: UserId, active: bool, via: Client, reached: set<Jti>, wait: nat)
    | DoRegister(user: UserId, hashed: string, wait: nat)
    | DoPurge(enabled: bool, graceDays: nat, spared: set<SessionId>, wait: nat)
    | DoValidate(presented: Presented, proc: Proc, promote: Option<nat>, wait: nat)

  datatype Answer =
    | RefreshAnswer(refresh: RefreshOutcome)
    | LoginAnswer(login: LoginOutcome)
    | AdminAnswer(admin: AdminOutcome)
    | ValidateAnswer(verdict: Verdict)
    | NoAnswer

  function Now(st: Auth, a: Action): nat {
    st.clock + a.wait + if a.DoLogin? || a.DoRefresh? then a.busy else 0
  }

  ghost function Perform(st: Auth, a: Action): (Auth, Answer) {
    var now := Now(st, a);
    match a
    case DoLogin(user, ok, ip, agent, via, wait, busy) =>
      var (st', r) := Login(st, user, ok, ip, agent, st.clock + wait, now, via); (st', LoginAnswer(r))
    case DoRefresh(presented, ip, agent, reached, wait, busy) =>
      var (st', r) := Refresh(st, presented, ip, agent, st.clock + wait, now, reached); (st', RefreshAnswer(r))
    case DoLogout(user, jti, token, via, _) => (Logout(st, user, jti, token, now, via), NoAnswer)
    case DoLogoutAll(user, jti, via, reached, _) => (LogoutAll(st, user, jti, now, via, reached), NoAnswer)
    case DoChangePassword(user, ok, hashed, via, reached, _) =>
      var (st', r) := ChangePassword(st, user, ok, hashed, now, via, reached); (st', AdminAnswer(r))
    case DoSetUserActive(user, active, via, reached, _) =>
      var (st', r) := SetUserActive(st, user, active, now, via, reached); (st', AdminAnswer(r))
    case DoRegister(user, hashed, _) => (Register(st, user, hashed), NoAnswer)
    case DoPurge(enabled, graceDays, spared, _) => (Purge(st, enabled, graceDays, spared, now), NoAnswer)
    case DoValidate(presented, proc, promote, _) =>
      var (st', v) := Validate(st, presented, proc, promote, now); (st', ValidateAnswer(v))
  }

  ghost function Step(st: Auth, a: Action): Auth {
    Perform(st, a).0.(clock := Now(st, a))
  }

  ghost function Run(st: Auth, actions: seq<Action>): Auth
    decreases |actions|
  {
    if actions == [] then st else Run(Step(st, actions[0]), actions[1..])
  }
}
