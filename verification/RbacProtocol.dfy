/**
 Many processes, calls and mutations interleaved. Each action below is one uninterrupted piece of
 work: a statement executed by the database or by Redis, or the code of one process between two
 awaits. A run is any sequence of actions; an action that is not enabled does nothing, so "every
 run" is "every interleaving".

 With Redis, processes share the epoch key and the second cache tier. Without it there is one
 process, whose own counter is the epoch. Replies travel on the process's single Redis connection
 and are handled in order. A cache lookup may always miss (expiry, eviction, a failed get); a
 write that was issued may land on each tier at any later moment, and more than once.
 */
module RbacProtocol {
  import opened Wrappers
  import opened CacheTiers
  import opened RbacTables
  import opened RbacCacheService

  /** A cached entry with the database version its rows were read from. The version is history:
      no action branches on it. */
  datatype Stamped = Stamped(entry: Entry, asOf: nat)

  datatype Write = Write(tier: Tier, role: Id, value: Stamped)

  datatype Path = FromCache(trusted: bool) | Joined | OwnFetch

  /** `trusted` says the epoch came from the authority, not from the fallback of a failed read. */
  datatype CallPhase =
    | AwaitingEpoch
    | EpochAnswered
    | AwaitingCache(current: nat, trusted: bool)
    | CacheAnswered(current: nat, trusted: bool, got: Option<Stamped>)
    | AwaitingFetch(fetch: nat)
    | Returned(path: Path, asOf: nat, permissions: set<string>)
    | Threw

  /** `seen` is history: the invalidations of the role that had returned, in any process, when
      the call started. */
  datatype Call = Call(proc: Proc, role: Id, seen: set<nat>, phase: CallPhase)

  datatype FetchPhase =
    | Querying
    | Answered(asOf: nat, rows: set<string>)
    | Resolved(asOf: nat, rows: set<string>)
    | Rejected

  /** `start` is history: the database version when the fetch was registered. */
  datatype Fetch = Fetch(proc: Proc, role: Id, current: nat, snapshot: nat, start: nat, phase: FetchPhase) {
    predicate InFlight() { phase.Querying? || phase.Answered? }
  }

  datatype MutationPhase = Committed | Bumping | Bumped | Completed

  /** A committed mutation that invalidates: the version its commit created and, once the bump
      reached the authority, the epoch the bump returned. */
  datatype Mutation = Mutation(proc: Proc, scope: Invalidation, version: nat, ticket: Option<nat>, phase: MutationPhase)

  datatype Reply = EpochReply(call: nat, stored: Option<nat>, failed: bool) | BumpReply(mutation: nat, next: nat)

  /** `dbs` lists every committed version of the tables, the current one last. */
  datatype System = System(
    redis: bool,
    dbs: seq<Tables>,
    epoch: nat,
    locals: map<Proc, Local>,
    inbox: map<Proc, seq<Reply>>,
    calls: map<nat, Call>,
    fetches: map<nat, Fetch>,
    mutations: map<nat, Mutation>,
    tiers: map<(Tier, Id), Stamped>,
    writes: set<Write>)

  function Init(redis: bool, tables: Tables): System {
    System(redis, [tables], 0, map[], map[], map[], map[], map[], map[], {})
  }

  function Current(s: System): Tables
    requires |s.dbs| > 0
  {
    s.dbs[|s.dbs| - 1]
  }

  datatype Action =
    | Boot(proc: Proc)
    | StartCall(proc: Proc, call: nat, role: Id)
    | ServeEpochRead(call: nat)
    | FailEpochRead(call: nat)
    | HandleReply(proc: Proc)
    | AnswerFromCache(call: nat, tier: Tier)
    | MissCache(call: nat)
    | ResumeCall(call: nat)
    | ReadRows(fetch: nat)
    | FailRows(fetch: nat)
    | ResumeFetch(fetch: nat)
    | Return(call: nat)
    | Land(write: Write)
    | Evict(tier: Tier, role: Id)
    | Mutate(proc: Proc, mutation: nat, op: AdminOp)
    | Bump(mutation: nat)
    | Clear(mutation: nat)

  function CompletedFor(mutations: map<nat, Mutation>, role: Id): set<nat> {
    set m | m in mutations && mutations[m].phase.Completed? && Covers(mutations[m].scope, role)
  }

  function WithPhase(s: System, c: nat, phase: CallPhase): System
    requires c in s.calls
  {
    s.(calls := s.calls[c := s.calls[c].(phase := phase)])
  }

  function Enqueue(s: System, p: Proc, reply: Reply): System {
    s.(inbox := s.inbox[p := (if p in s.inbox then s.inbox[p] else []) + [reply]])
  }

  /** A fresh process: epoch 0, nothing registered. Without Redis there is only ever one. */
  function DoBoot(s: System, p: Proc): System {
    if p in s.locals || (!s.redis && s.locals != map[]) then s
    else s.(locals := s.locals[p := Local(0, map[])], inbox := s.inbox[p := []])
  }

  function DoStartCall(s: System, p: Proc, c: nat, role: Id): System {
    if p !in s.locals || c in s.calls || c in s.fetches then s
    else
      var phase := if s.redis then AwaitingEpoch else AwaitingCache(s.locals[p].epoch, true);
      s.(calls := s.calls[c := Call(p, role, CompletedFor(s.mutations, role), phase)])
  }

  /** GET of the epoch key: null while nobody has bumped it. */
  function DoServeEpochRead(s: System, c: nat): System {
    if c !in s.calls || !s.calls[c].phase.AwaitingEpoch? then s
    else
      var stored := if s.epoch == 0 then None else Some(s.epoch);
      Enqueue(WithPhase(s, c, EpochAnswered), s.calls[c].proc, EpochReply(c, stored, false))
  }

  function DoFailEpochRead(s: System, c: nat): System {
    if c !in s.calls || !s.calls[c].phase.AwaitingEpoch? then s
    else Enqueue(WithPhase(s, c, EpochAnswered), s.calls[c].proc, EpochReply(c, None, true))
  }

  function DoHandleReply(s: System, p: Proc): System {
    if p !in s.locals || p !in s.inbox || s.inbox[p] == [] then s
    else
      var rest := s.(inbox := s.inbox[p := s.inbox[p][1..]]);
      match s.inbox[p][0]
      case EpochReply(c, stored, failed) =>
        if c !in s.calls || !s.calls[c].phase.EpochAnswered? then rest
        else
          var (l, current) := OnEpochRead(s.locals[p], stored);
          WithPhase(rest.(locals := s.locals[p := l]), c, AwaitingCache(current, !failed))
      case BumpReply(m, next) =>
        if m !in s.mutations || !s.mutations[m].phase.Bumping? then rest
        else
          rest.(locals := s.locals[p := OnBump(s.locals[p], next)],
                mutations := s.mutations[m := s.mutations[m].(phase := Bumped)])
  }

  /** A tier answers; an entry found in the shared tier is also copied to the process's own. */
  function DoAnswerFromCache(s: System, c: nat, tier: Tier): System {
    if c !in s.calls || !s.calls[c].phase.AwaitingCache? then s
    else
      var call := s.calls[c];
      if tier !in {L1(call.proc), L2} || (tier, call.role) !in s.tiers then s
      else
        var found := s.tiers[(tier, call.role)];
        var s' := WithPhase(s, c, CacheAnswered(call.phase.current, call.phase.trusted, Some(found)));
        s'.(writes := s.writes + {Write(L1(call.proc), call.role, found)})
  }

  function DoMissCache(s: System, c: nat): System {
    if c !in s.calls || !s.calls[c].phase.AwaitingCache? then s
    else WithPhase(s, c, CacheAnswered(s.calls[c].phase.current, s.calls[c].phase.trusted, None))
  }

  function DoResumeCall(s: System, c: nat): System {
    if c !in s.calls || !s.calls[c].phase.CacheAnswered? || s.calls[c].proc !in s.locals || |s.dbs| == 0 then s
    else
      var call := s.calls[c];
      var CacheAnswered(current, trusted, got) := call.phase;
      var cached := match got case Some(x) => Some(x.entry) case None => None;
      var (l, next) := OnCacheAnswer(s.locals[call.proc], call.role, current, cached, c);
      var s' := s.(locals := s.locals[call.proc := l]);
      match next
      case Hit(permissions) => WithPhase(s', c, Returned(FromCache(trusted), got.value.asOf, permissions))
      case Join(f) => WithPhase(s', c, AwaitingFetch(f))
      case Start(snapshot) =>
        WithPhase(s'.(fetches := s.fetches[c := Fetch(call.proc, call.role, current, snapshot, |s.dbs| - 1, Querying)]),
                  c, AwaitingFetch(c))
  }

  function DoReadRows(s: System, f: nat): System {
    if f !in s.fetches || !s.fetches[f].phase.Querying? || |s.dbs| == 0 then s
    else
      var rows := PermissionStrings(Current(s), s.fetches[f].role);
      s.(fetches := s.fetches[f := s.fetches[f].(phase := Answered(|s.dbs| - 1, rows))])
  }

  function DoFailRows(s: System, f: nat): System {
    if f !in s.fetches || !s.fetches[f].phase.Querying? || s.fetches[f].proc !in s.locals then s
    else
      var p := s.fetches[f].proc;
      s.(fetches := s.fetches[f := s.fetches[f].(phase := Rejected)],
         locals := s.locals[p := Unregister(s.locals[p], s.fetches[f].role)])
  }

  /** The writes of cacheManager.set: one per tier. */
  function WriteBack(s: System, p: Proc, role: Id, value: Stamped): set<Write> {
    {Write(L1(p), role, value)} + if s.redis then {Write(L2, role, value)} else {}
  }

  function DoResumeFetch(s: System, f: nat): System {
    if f !in s.fetches || !s.fetches[f].phase.Answered? || s.fetches[f].proc !in s.locals then s
    else
      var fetch := s.fetches[f];
      var Answered(asOf, rows) := fetch.phase;
      var (l, entry) := OnRows(s.locals[fetch.proc], fetch.role, fetch.snapshot, fetch.current, rows);
      s.(fetches := s.fetches[f := fetch.(phase := Resolved(asOf, rows))],
         locals := s.locals[fetch.proc := l],
         writes := s.writes + match entry
                              case Some(e) => WriteBack(s, fetch.proc, fetch.role, Stamped(e, asOf))
                              case None => {})
  }

  function DoReturn(s: System, c: nat): System {
    if c !in s.calls || !s.calls[c].phase.AwaitingFetch? || s.calls[c].phase.fetch !in s.fetches then s
    else
      var f := s.calls[c].phase.fetch;
      match s.fetches[f].phase
      case Resolved(asOf, rows) => WithPhase(s, c, Returned(if f == c then OwnFetch else Joined, asOf, rows))
      case Rejected => WithPhase(s, c, Threw)
      case _ => s
  }

  function DoLand(s: System, w: Write): System {
    if w !in s.writes then s else s.(tiers := s.tiers[(w.tier, w.role) := w.value])
  }

  function DoEvict(s: System, tier: Tier, role: Id): System {
    s.(tiers := s.tiers - {(tier, role)})
  }

  /** The commit of an administrative mutation; a refused one changes nothing. */
  function DoMutate(s: System, p: Proc, m: nat, op: AdminOp): System {
    if p !in s.locals || m in s.mutations || |s.dbs| == 0 then s
    else Record(s, p, m, Apply(Current(s), op))
  }

  /** A new version; if it invalidates, its bump is still to come. */
  function Record(s: System, p: Proc, m: nat, outcome: Outcome): System {
    match outcome
    case Err(_) => s
    case Ok(change) =>
      var s' := s.(dbs := s.dbs + [change.tables]);
      if change.invalidation.NoBump? then s'
      else s'.(mutations := s.mutations[m := Mutation(p, change.invalidation, |s.dbs|, None, Committed)])
  }

  /** INCR of the epoch key, or the increment of the single process's own counter. */
  function DoBump(s: System, m: nat): System {
    if m !in s.mutations || !s.mutations[m].phase.Committed? || s.mutations[m].proc !in s.locals then s
    else
      var p, next := s.mutations[m].proc, s.epoch + 1;
      if s.redis then
        Enqueue(s.(epoch := next,
                   mutations := s.mutations[m := s.mutations[m].(ticket := Some(next), phase := Bumping)]),
                p, BumpReply(m, next))
      else
        s.(epoch := next,
           locals := s.locals[p := OnBump(s.locals[p], s.locals[p].epoch + 1)],
           mutations := s.mutations[m := s.mutations[m].(ticket := Some(next), phase := Bumped)])
  }

  /** The rest of the invalidation, after its bump returned. */
  function DoClear(s: System, m: nat): System {
    if m !in s.mutations || !s.mutations[m].phase.Bumped? || s.mutations[m].proc !in s.locals then s
    else
      var p := s.mutations[m].proc;
      s.(locals := s.locals[p := Forget(s.locals[p], s.mutations[m].scope)],
         mutations := s.mutations[m := s.mutations[m].(phase := Completed)])
  }

  function Step(s: System, a: Action): System {
    match a
    case Boot(p) => DoBoot(s, p)
    case StartCall(p, c, role) => DoStartCall(s, p, c, role)
    case ServeEpochRead(c) => DoServeEpochRead(s, c)
    case FailEpochRead(c) => DoFailEpochRead(s, c)
    case HandleReply(p) => DoHandleReply(s, p)
    case AnswerFromCache(c, tier) => DoAnswerFromCache(s, c, tier)
    case MissCache(c) => DoMissCache(s, c)
    case ResumeCall(c) => DoResumeCall(s, c)
    case ReadRows(f) => DoReadRows(s, f)
    case FailRows(f) => DoFailRows(s, f)
    case ResumeFetch(f) => DoResumeFetch(s, f)
    case Return(c) => DoReturn(s, c)
    case Land(w) => DoLand(s, w)
    case Evict(tier, role) => DoEvict(s, tier, role)
    case Mutate(p, m, op) => DoMutate(s, p, m, op)
    case Bump(m) => DoBump(s, m)
    case Clear(m) => DoClear(s, m)
  }

  function Run(s: System, actions: seq<Action>): System
    decreases |actions|
  {
    if actions == [] then s else Run(Step(s, actions[0]), actions[1..])
  }
}
