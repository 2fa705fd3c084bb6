/**
 What every step of the epoch protocol keeps. The invariant is stated part by part over the
 components it depends on; each step is decomposed into changes of one component, and each such
 change is shown to keep every part.
 */
module RbacInvariants {
  import opened Wrappers
  import opened CacheTiers
  import opened RbacTables
  import opened RbacCacheService
  import opened RbacProtocol

  /** The part of the state that cached values and calls are judged against. */
  datatype Core = Core(redis: bool, dbs: seq<Tables>, epoch: nat, locals: map<Proc, Local>,
                       mutations: map<nat, Mutation>)

  function CoreOf(s: System): Core {
    Core(s.redis, s.dbs, s.epoch, s.locals, s.mutations)
  }

  /** Every bump that returned at most `epoch` belongs to a mutation committed by `version`. */
  ghost predicate IncludesBumps(mutations: map<nat, Mutation>, epoch: nat, version: nat) {
    forall m | m in mutations && BumpedBy(mutations[m], epoch) :: mutations[m].version <= version
  }

  /** The mutation's bump returned at most `epoch`. */
  predicate BumpedBy(mutation: Mutation, epoch: nat) {
    mutation.ticket.Some? && mutation.ticket.value <= epoch
  }

  ghost predicate ReadFrom(dbs: seq<Tables>, role: Id, asOf: nat, permissions: set<string>) {
    asOf < |dbs| && permissions == PermissionStrings(dbs[asOf], role)
  }

  ghost predicate GoodValue(k: Core, role: Id, x: Stamped) {
    && x.entry.epoch <= k.epoch
    && ReadFrom(k.dbs, role, x.asOf, x.entry.permissions)
    && IncludesBumps(k.mutations, x.entry.epoch, x.asOf)
  }

  // ---------------------------------------------------------------- the parts

  ghost predicate Silent(t: Tables, t': Tables) {
    forall role :: PermissionStrings(t, role) == PermissionStrings(t', role)
  }

  ghost predicate IsVersionOf(mutations: map<nat, Mutation>, v: nat) {
    exists m | m in mutations :: mutations[m].version == v
  }

  /** A version no invalidating mutation created changed no role. */
  ghost predicate DbInv(dbs: seq<Tables>, mutations: map<nat, Mutation>) {
    && |dbs| > 0
    && Valid(dbs[|dbs| - 1])
    && forall v | 0 < v < |dbs| :: IsVersionOf(mutations, v) || Silent(dbs[v - 1], dbs[v])
  }

  ghost predicate GoodMutation(versions: nat, epoch: nat, locals: map<Proc, Local>, x: Mutation) {
    && x.proc in locals
    && 0 < x.version < versions
    && (x.ticket.Some? ==> 0 < x.ticket.value <= epoch)
    && (x.phase.Committed? <==> x.ticket.None?)
    && (x.phase.Bumped? || x.phase.Completed? ==> BumpedBy(x, locals[x.proc].epoch))
  }

  ghost predicate MutationInv(k: Core) {
    forall m | m in k.mutations :: GoodMutation(|k.dbs|, k.epoch, k.locals, k.mutations[m])
  }

  /** Without Redis there is one process and its counter is the epoch. */
  ghost predicate LocalInv(redis: bool, epoch: nat, locals: map<Proc, Local>, inbox: map<Proc, seq<Reply>>) {
    && inbox.Keys == locals.Keys
    && (forall p | p in locals :: locals[p].epoch <= epoch)
    && (!redis ==> forall p | p in locals :: locals[p].epoch == epoch && inbox[p] == [])
    && (!redis ==> forall p, q | p in locals && q in locals :: p == q)
    && (!redis && locals == map[] ==> epoch == 0)
  }

  function ReplyEpoch(r: Reply): Option<nat> {
    match r
    case EpochReply(_, stored, _) => stored
    case BumpReply(_, next) => Some(next)
  }

  /** Every invalidation the call saw returned at most this epoch. */
  ghost predicate SeenBumpedBy(mutations: map<nat, Mutation>, seen: set<nat>, epoch: nat) {
    forall m | m in seen :: m in mutations && BumpedBy(mutations[m], epoch)
  }

  ghost predicate GoodReply(k: Core, calls: map<nat, Call>, p: Proc, r: Reply) {
    && p in k.locals
    && (ReplyEpoch(r).Some? ==> k.locals[p].epoch <= ReplyEpoch(r).value <= k.epoch)
    && match r
       case EpochReply(c, stored, failed) =>
         && c in calls && calls[c].proc == p
         && (stored.Some? ==> SeenBumpedBy(k.mutations, calls[c].seen, stored.value))
         && (stored.None? && !failed ==> calls[c].seen == {})
       case BumpReply(m, next) => m in k.mutations && k.mutations[m].proc == p && k.mutations[m].ticket == Some(next)
  }

  /** Replies of one connection carry epochs in the order Redis handed them out. */
  ghost predicate Ordered(replies: seq<Reply>) {
    forall i, j | 0 <= i < j < |replies| && ReplyEpoch(replies[i]).Some? && ReplyEpoch(replies[j]).Some? ::
      ReplyEpoch(replies[i]).value <= ReplyEpoch(replies[j]).value
  }

  ghost predicate GoodQueue(k: Core, calls: map<nat, Call>, p: Proc, replies: seq<Reply>) {
    Ordered(replies) && forall i | 0 <= i < |replies| :: GoodReply(k, calls, p, replies[i])
  }

  ghost predicate InboxInv(k: Core, calls: map<nat, Call>, inbox: map<Proc, seq<Reply>>) {
    forall p | p in inbox :: GoodQueue(k, calls, p, inbox[p])
  }

  /** The epoch reflects the invalidations the call saw: those of the call's own process, and all
      of them when the epoch is trusted. */
  ghost predicate EpochReflects(mutations: map<nat, Mutation>, call: Call, epoch: nat, trusted: bool) {
    forall m | m in call.seen && m in mutations && (trusted || mutations[m].proc == call.proc) ::
      BumpedBy(mutations[m], epoch)
  }

  /** Database version `v` includes what the call saw: of its own process, or of all of them. */
  ghost predicate VersionReflects(mutations: map<nat, Mutation>, call: Call, v: nat, all: bool) {
    forall m | m in call.seen && m in mutations && (all || mutations[m].proc == call.proc) ::
      mutations[m].version <= v
  }

  ghost predicate GoodPhase(k: Core, fetches: map<nat, Fetch>, c: nat, call: Call) {
    match call.phase
    case AwaitingEpoch => k.redis
    case AwaitingCache(current, trusted) =>
      current <= k.epoch && EpochReflects(k.mutations, call, current, trusted)
    case CacheAnswered(current, trusted, got) =>
      && current <= k.epoch && EpochReflects(k.mutations, call, current, trusted)
      && (got.Some? ==> GoodValue(k, call.role, got.value))
    case AwaitingFetch(f) =>
      && f in fetches && fetches[f].proc == call.proc && fetches[f].role == call.role
      && VersionReflects(k.mutations, call, fetches[f].start, f == c)
    case Returned(path, asOf, permissions) =>
      && ReadFrom(k.dbs, call.role, asOf, permissions)
      && VersionReflects(k.mutations, call, asOf, !path.Joined? && path != FromCache(false))
    case _ => true
  }

  ghost predicate GoodCall(k: Core, fetches: map<nat, Fetch>, c: nat, call: Call) {
    && call.proc in k.locals
    && (forall m | m in call.seen ::
          m in k.mutations && k.mutations[m].phase.Completed? && Covers(k.mutations[m].scope, call.role))
    && GoodPhase(k, fetches, c, call)
  }

  ghost predicate CallInv(k: Core, fetches: map<nat, Fetch>, calls: map<nat, Call>) {
    forall c | c in calls :: GoodCall(k, fetches, c, calls[c])
  }

  ghost predicate GoodFetch(k: Core, x: Fetch) {
    && x.proc in k.locals
    && x.start < |k.dbs| && x.current <= k.epoch && x.snapshot <= k.epoch
    && IncludesBumps(k.mutations, x.current, x.start)
    && IncludesBumps(k.mutations, x.snapshot, x.start)
    && match x.phase
       case Answered(asOf, rows) => x.start <= asOf && ReadFrom(k.dbs, x.role, asOf, rows)
       case Resolved(asOf, rows) => x.start <= asOf && ReadFrom(k.dbs, x.role, asOf, rows)
       case _ => true
  }

  ghost predicate FetchInv(k: Core, fetches: map<nat, Fetch>) {
    forall f | f in fetches :: GoodFetch(k, fetches[f])
  }

  /** The call has started or joined a fetch, or is over. */
  predicate PastCache(phase: CallPhase) {
    phase.AwaitingFetch? || phase.Returned? || phase.Threw?
  }

  /** A fetch is named by the call that started it. */
  ghost predicate OwnerInv(fetches: map<nat, Fetch>, calls: map<nat, Call>) {
    forall f | f in fetches :: f in calls && PastCache(calls[f].phase)
  }

  /** A registered fetch is in flight and began after the last completed invalidation of its role
      in its process. */
  ghost predicate GoodRegistration(mutations: map<nat, Mutation>, fetches: map<nat, Fetch>, p: Proc, role: Id, f: nat) {
    && f in fetches && fetches[f].proc == p && fetches[f].role == role && fetches[f].InFlight()
    && forall m | m in CompletedFor(mutations, role) && mutations[m].proc == p ::
         mutations[m].version <= fetches[f].start
  }

  ghost predicate PendingInv(mutations: map<nat, Mutation>, fetches: map<nat, Fetch>, locals: map<Proc, Local>) {
    forall p, role | p in locals && role in locals[p].pending ::
      GoodRegistration(mutations, fetches, p, role, locals[p].pending[role])
  }

  ghost predicate TierInv(k: Core, tiers: map<(Tier, Id), Stamped>) {
    forall t | t in tiers :: GoodValue(k, t.1, tiers[t])
  }

  ghost predicate WriteInv(k: Core, writes: set<Write>) {
    forall w | w in writes :: GoodValue(k, w.role, w.value)
  }

  ghost predicate Inv(s: System) {
    && DbInv(s.dbs, s.mutations)
    && MutationInv(CoreOf(s))
    && LocalInv(s.redis, s.epoch, s.locals, s.inbox)
    && InboxInv(CoreOf(s), s.calls, s.inbox)
    && CallInv(CoreOf(s), s.fetches, s.calls)
    && FetchInv(CoreOf(s), s.fetches)
    && OwnerInv(s.fetches, s.calls)
    && PendingInv(s.mutations, s.fetches, s.locals)
    && TierInv(CoreOf(s), s.tiers)
    && WriteInv(CoreOf(s), s.writes)
  }

  // ---------------------------------------------------------------- growth

  ghost predicate Advances(epoch: nat, x: Mutation, x': Mutation) {
    && x'.proc == x.proc && x'.scope == x.scope && x'.version == x.version
    && (x.ticket.Some? ==> x'.ticket == x.ticket)
    && (x.ticket.None? && x'.ticket.Some? ==> x'.ticket.value > epoch)
    && (x.phase.Completed? ==> x'.phase.Completed?)
  }

  /** Versions are appended, epochs rise, a later bump returns a larger epoch. */
  ghost predicate CoreGrows(k: Core, k': Core) {
    && k.redis == k'.redis
    && k.dbs <= k'.dbs
    && k.epoch <= k'.epoch
    && (forall p | p in k.locals :: p in k'.locals && k.locals[p].epoch <= k'.locals[p].epoch)
    && (forall m | m in k.mutations :: m in k'.mutations && Advances(k.epoch, k.mutations[m], k'.mutations[m]))
    && (forall m | m in k'.mutations && m !in k.mutations ::
          k'.mutations[m].ticket.Some? ==> k'.mutations[m].ticket.value > k.epoch)
  }

  predicate SameFetch(x: Fetch, x': Fetch) {
    x'.proc == x.proc && x'.role == x.role && x'.current == x.current && x'.snapshot == x.snapshot
      && x'.start == x.start
  }

  ghost predicate FetchesGrow(fetches: map<nat, Fetch>, fetches': map<nat, Fetch>) {
    forall f | f in fetches :: f in fetches' && SameFetch(fetches[f], fetches'[f])
  }

  predicate SameCall(x: Call, x': Call) {
    && x'.proc == x.proc && x'.role == x.role && x'.seen == x.seen
    && (x.phase.Returned? ==> x' == x)
    && (PastCache(x.phase) ==> PastCache(x'.phase))
  }

  ghost predicate CallsGrow(calls: map<nat, Call>, calls': map<nat, Call>) {
    forall c | c in calls :: c in calls' && SameCall(calls[c], calls'[c])
  }

  /** What is recorded about a mutation, a call or a fetch stays. */
  ghost predicate Grows(s: System, s': System) {
    CoreGrows(CoreOf(s), CoreOf(s')) && FetchesGrow(s.fetches, s'.fetches) && CallsGrow(s.calls, s'.calls)
  }

  lemma CoreGrowsTransitive(a: Core, b: Core, c: Core)
    requires CoreGrows(a, b) && CoreGrows(b, c)
    ensures CoreGrows(a, c)
  {
    forall m | m in a.mutations ensures m in c.mutations && Advances(a.epoch, a.mutations[m], c.mutations[m]) {
      assert Advances(a.epoch, a.mutations[m], b.mutations[m]) && Advances(b.epoch, b.mutations[m], c.mutations[m]);
    }
    forall m | m in c.mutations && m !in a.mutations && c.mutations[m].ticket.Some?
      ensures c.mutations[m].ticket.value > a.epoch
    {
      if m in b.mutations { assert Advances(b.epoch, b.mutations[m], c.mutations[m]); }
    }
  }

  lemma GrowsTransitive(a: System, b: System, c: System)
    requires Grows(a, b) && Grows(b, c)
    ensures Grows(a, c)
  {
    CoreGrowsTransitive(CoreOf(a), CoreOf(b), CoreOf(c));
  }

  lemma CoreGrowsReflexive(k: Core)
    ensures CoreGrows(k, k)
  {
  }

  // ---------------------------------------------------------------- stability under growth

  lemma IncludesBumpsStable(k: Core, k': Core, epoch: nat, version: nat)
    requires CoreGrows(k, k') && epoch <= k.epoch && IncludesBumps(k.mutations, epoch, version)
    ensures IncludesBumps(k'.mutations, epoch, version)
  {
    forall m | m in k'.mutations && BumpedBy(k'.mutations[m], epoch) ensures k'.mutations[m].version <= version {
      assert m in k.mutations && Advances(k.epoch, k.mutations[m], k'.mutations[m]);
    }
  }

  lemma GoodValueStable(k: Core, k': Core, role: Id, x: Stamped)
    requires CoreGrows(k, k') && GoodValue(k, role, x)
    ensures GoodValue(k', role, x)
  {
    IncludesBumpsStable(k, k', x.entry.epoch, x.asOf);
  }

  lemma CacheStable(k: Core, k': Core, tiers: map<(Tier, Id), Stamped>, writes: set<Write>)
    requires CoreGrows(k, k') && TierInv(k, tiers) && WriteInv(k, writes)
    ensures TierInv(k', tiers) && WriteInv(k', writes)
  {
    forall t | t in tiers ensures GoodValue(k', t.1, tiers[t]) { GoodValueStable(k, k', t.1, tiers[t]); }
    forall w | w in writes ensures GoodValue(k', w.role, w.value) { GoodValueStable(k, k', w.role, w.value); }
  }

  lemma GoodCallStable(k: Core, k': Core, fetches: map<nat, Fetch>, fetches': map<nat, Fetch>, c: nat, call: Call)
    requires CoreGrows(k, k') && FetchesGrow(fetches, fetches') && GoodCall(k, fetches, c, call)
    ensures GoodCall(k', fetches', c, call)
  {
    forall m | m in call.seen ensures m in k'.mutations && Advances(k.epoch, k.mutations[m], k'.mutations[m]) {
      assert m in k.mutations;
    }
    if call.phase.CacheAnswered? && call.phase.got.Some? {
      GoodValueStable(k, k', call.role, call.phase.got.value);
    }
  }

  lemma CallsStable(k: Core, k': Core, fetches: map<nat, Fetch>, fetches': map<nat, Fetch>, calls: map<nat, Call>)
    requires CoreGrows(k, k') && FetchesGrow(fetches, fetches') && CallInv(k, fetches, calls)
    ensures CallInv(k', fetches', calls)
  {
    forall c | c in calls
      ensures GoodCall(k', fetches', c, calls[c])
    {
      GoodCallStable(k, k', fetches, fetches', c, calls[c]);
    }
  }

  lemma FetchesStable(k: Core, k': Core, fetches: map<nat, Fetch>)
    requires CoreGrows(k, k') && FetchInv(k, fetches)
    ensures FetchInv(k', fetches)
  {
    forall f | f in fetches ensures GoodFetch(k', fetches[f]) {
      var x := fetches[f];
      assert GoodFetch(k, x);
      IncludesBumpsStable(k, k', x.current, x.start);
      IncludesBumpsStable(k, k', x.snapshot, x.start);
    }
  }

  lemma GoodReplyStable(k: Core, k': Core, calls: map<nat, Call>, calls': map<nat, Call>, p: Proc, r: Reply)
    requires CoreGrows(k, k') && CallsGrow(calls, calls') && GoodReply(k, calls, p, r)
    requires ReplyEpoch(r).Some? ==> k'.locals[p].epoch <= ReplyEpoch(r).value
    ensures GoodReply(k', calls', p, r)
  {
    match r
    case BumpReply(m, _) => assert Advances(k.epoch, k.mutations[m], k'.mutations[m]);
    case EpochReply(c, stored, failed) =>
      assert SameCall(calls[c], calls'[c]);
      forall m | m in calls[c].seen && stored.Some?
        ensures m in k'.mutations && BumpedBy(k'.mutations[m], stored.value)
      {
        assert Advances(k.epoch, k.mutations[m], k'.mutations[m]);
      }
  }

  lemma InboxStable(k: Core, k': Core, calls: map<nat, Call>, calls': map<nat, Call>, inbox: map<Proc, seq<Reply>>)
    requires CoreGrows(k, k') && CallsGrow(calls, calls') && InboxInv(k, calls, inbox)
    requires forall p | p in k.locals :: k'.locals[p].epoch == k.locals[p].epoch
    ensures InboxInv(k', calls', inbox)
  {
    forall p | p in inbox ensures GoodQueue(k', calls', p, inbox[p]) {
      assert GoodQueue(k, calls, p, inbox[p]);
      forall i | 0 <= i < |inbox[p]| ensures GoodReply(k', calls', p, inbox[p][i]) {
        assert GoodReply(k, calls, p, inbox[p][i]);
        GoodReplyStable(k, k', calls, calls', p, inbox[p][i]);
      }
    }
  }

  /** The core moved, everything else stayed. */
  lemma CoreStep(s: System, s': System)
    requires CoreGrows(CoreOf(s), CoreOf(s'))
    requires InboxInv(CoreOf(s), s.calls, s.inbox) && CallInv(CoreOf(s), s.fetches, s.calls)
             && FetchInv(CoreOf(s), s.fetches)
    requires TierInv(CoreOf(s), s.tiers) && WriteInv(CoreOf(s), s.writes)
    requires s'.inbox == s.inbox && s'.calls == s.calls && s'.fetches == s.fetches && s'.tiers == s.tiers
             && s'.writes == s.writes
    ensures Grows(s, s')
    ensures (forall p | p in s.locals :: s'.locals[p].epoch == s.locals[p].epoch)
            ==> InboxInv(CoreOf(s'), s'.calls, s'.inbox)
    ensures CallInv(CoreOf(s'), s'.fetches, s'.calls) && FetchInv(CoreOf(s'), s'.fetches)
    ensures TierInv(CoreOf(s'), s'.tiers) && WriteInv(CoreOf(s'), s'.writes)
  {
    var k, k' := CoreOf(s), CoreOf(s');
    if forall p | p in s.locals :: s'.locals[p].epoch == s.locals[p].epoch {
      InboxStable(k, k', s.calls, s.calls, s.inbox);
    }
    CallsStable(k, k', s.fetches, s.fetches, s.calls);
    FetchesStable(k, k', s.fetches);
    CacheStable(k, k', s.tiers, s.writes);
  }

  // ---------------------------------------------------------------- changes of one component

  lemma SetCall(s: System, c: nat, call: Call) returns (s': System)
    requires Inv(s) && GoodCall(CoreOf(s), s.fetches, c, call)
    requires c in s.calls ==> SameCall(s.calls[c], call)
    requires c in s.fetches ==> PastCache(call.phase)
    ensures s' == s.(calls := s.calls[c := call]) && Inv(s') && Grows(s, s')
  {
    s' := s.(calls := s.calls[c := call]);
    CoreGrowsReflexive(CoreOf(s));
    assert CallsGrow(s.calls, s'.calls);
    InboxStable(CoreOf(s), CoreOf(s'), s.calls, s'.calls, s.inbox);
  }

  lemma Push(s: System, p: Proc, r: Reply) returns (s': System)
    requires Inv(s) && s.redis && p in s.locals && GoodReply(CoreOf(s), s.calls, p, r)
    requires ReplyEpoch(r).Some? ==> ReplyEpoch(r).value == s.epoch
    ensures s' == s.(inbox := s.inbox[p := s.inbox[p] + [r]]) && Inv(s') && Grows(s, s')
  {
    s' := s.(inbox := s.inbox[p := s.inbox[p] + [r]]);
    CoreGrowsReflexive(CoreOf(s));
    assert CoreOf(s') == CoreOf(s);
    PushGood(CoreOf(s), s.calls, p, s.inbox[p], r);
    InboxSet(CoreOf(s), s.calls, s.inbox, p, s.inbox[p] + [r]);
  }

  lemma InboxSet(k: Core, calls: map<nat, Call>, inbox: map<Proc, seq<Reply>>, p: Proc, q: seq<Reply>)
    requires InboxInv(k, calls, inbox) && GoodQueue(k, calls, p, q) && p in inbox && p in k.locals
    requires LocalInv(k.redis, k.epoch, k.locals, inbox) && (!k.redis ==> q == [])
    ensures InboxInv(k, calls, inbox[p := q]) && LocalInv(k.redis, k.epoch, k.locals, inbox[p := q])
  {
  }

  lemma PushGood(k: Core, calls: map<nat, Call>, p: Proc, q: seq<Reply>, r: Reply)
    requires GoodQueue(k, calls, p, q) && GoodReply(k, calls, p, r)
    requires ReplyEpoch(r).Some? ==> ReplyEpoch(r).value == k.epoch
    ensures GoodQueue(k, calls, p, q + [r])
  {
    forall i | 0 <= i < |q| ensures ReplyEpoch(q[i]).Some? ==> ReplyEpoch(q[i]).value <= k.epoch {
      assert GoodReply(k, calls, p, q[i]);
    }
  }

  lemma Pop(s: System, p: Proc) returns (s': System)
    requires Inv(s) && p in s.locals && s.inbox[p] != []
    ensures s' == s.(inbox := s.inbox[p := s.inbox[p][1..]]) && Inv(s') && Grows(s, s')
  {
    s' := s.(inbox := s.inbox[p := s.inbox[p][1..]]);
    CoreGrowsReflexive(CoreOf(s));
    assert GoodQueue(CoreOf(s), s.calls, p, s.inbox[p]);
    assert GoodQueue(CoreOf(s), s.calls, p, s.inbox[p][1..]);
    InboxSet(CoreOf(s), s.calls, s.inbox, p, s.inbox[p][1..]);
  }

  lemma AddWrites(s: System, ws: set<Write>) returns (s': System)
    requires Inv(s) && forall w | w in ws :: GoodValue(CoreOf(s), w.role, w.value)
    ensures s' == s.(writes := s.writes + ws) && Inv(s') && Grows(s, s')
  {
    s' := s.(writes := s.writes + ws);
    CoreGrowsReflexive(CoreOf(s));
  }

  lemma SetFetch(s: System, f: nat, x: Fetch) returns (s': System)
    requires Inv(s) && GoodFetch(CoreOf(s), x)
    requires f in s.calls && PastCache(s.calls[f].phase)
    requires f in s.fetches ==> SameFetch(s.fetches[f], x)
    requires f in s.fetches && !x.InFlight() ==>
               forall p, r | p in s.locals && r in s.locals[p].pending :: s.locals[p].pending[r] != f
    ensures s' == s.(fetches := s.fetches[f := x]) && Inv(s') && Grows(s, s')
  {
    s' := s.(fetches := s.fetches[f := x]);
    CoreGrowsReflexive(CoreOf(s));
    FetchSet(CoreOf(s), s.fetches, s.calls, f, x);
    CallsStable(CoreOf(s), CoreOf(s'), s.fetches, s'.fetches, s.calls);
    PendingAfterFetch(s.mutations, s.fetches, s'.fetches, f, s.locals);
  }

  lemma FetchSet(k: Core, fetches: map<nat, Fetch>, calls: map<nat, Call>, f: nat, x: Fetch)
    requires FetchInv(k, fetches) && OwnerInv(fetches, calls) && GoodFetch(k, x)
    requires f in calls && PastCache(calls[f].phase) && (f in fetches ==> SameFetch(fetches[f], x))
    ensures FetchInv(k, fetches[f := x]) && OwnerInv(fetches[f := x], calls) && FetchesGrow(fetches, fetches[f := x])
  {
  }

  lemma PendingAfterFetch(mutations: map<nat, Mutation>, fetches: map<nat, Fetch>, fetches': map<nat, Fetch>, f: nat,
                          locals: map<Proc, Local>)
    requires PendingInv(mutations, fetches, locals) && f in fetches' && fetches' == fetches[f := fetches'[f]]
    requires f in fetches ==> SameFetch(fetches[f], fetches'[f])
    requires f in fetches && !fetches'[f].InFlight() ==>
               forall p, r | p in locals && r in locals[p].pending :: locals[p].pending[r] != f
    ensures PendingInv(mutations, fetches', locals)
  {
    forall p, r | p in locals && r in locals[p].pending
      ensures GoodRegistration(mutations, fetches', p, r, locals[p].pending[r])
    {
      assert GoodRegistration(mutations, fetches, p, r, locals[p].pending[r]);
    }
  }

  /** The registry of one process changes; its epoch does not. */
  lemma SetPending(s: System, p: Proc, pending: map<Id, nat>) returns (s': System)
    requires Inv(s) && p in s.locals
    requires forall r | r in pending :: GoodRegistration(s.mutations, s.fetches, p, r, pending[r])
    ensures s' == s.(locals := s.locals[p := s.locals[p].(pending := pending)]) && Inv(s') && Grows(s, s')
  {
    s' := s.(locals := s.locals[p := s.locals[p].(pending := pending)]);
    PendingReplaced(s.mutations, s.fetches, s.locals, s'.locals, p);
    LocalsMoved(s.redis, |s.dbs|, s.epoch, s.locals, s'.locals, s.mutations, s.inbox);
    SameEpochsGrow(CoreOf(s), s'.locals);
    CoreStep(s, s');
  }

  lemma SameEpochsGrow(k: Core, locals': map<Proc, Local>)
    requires forall p | p in k.locals :: p in locals' && locals'[p].epoch == k.locals[p].epoch
    ensures CoreGrows(k, k.(locals := locals'))
  {
  }

  lemma PendingReplaced(mutations: map<nat, Mutation>, fetches: map<nat, Fetch>, locals: map<Proc, Local>,
                        locals': map<Proc, Local>, p: Proc)
    requires PendingInv(mutations, fetches, locals) && p in locals' && locals' == locals[p := locals'[p]]
    requires forall r | r in locals'[p].pending :: GoodRegistration(mutations, fetches, p, r, locals'[p].pending[r])
    ensures PendingInv(mutations, fetches, locals')
  {
    forall q, r | q in locals' && r in locals'[q].pending
      ensures GoodRegistration(mutations, fetches, q, r, locals'[q].pending[r])
    {
      if q != p { assert GoodRegistration(mutations, fetches, q, r, locals[q].pending[r]); }
    }
  }

  /** Epochs of processes may only rise towards the authority's. */
  lemma LocalsMoved(redis: bool, versions: nat, epoch: nat, locals: map<Proc, Local>, locals': map<Proc, Local>,
                    mutations: map<nat, Mutation>, inbox: map<Proc, seq<Reply>>)
    requires LocalInv(redis, epoch, locals, inbox) && locals'.Keys == locals.Keys
    requires forall p | p in locals :: locals[p].epoch <= locals'[p].epoch <= epoch
    requires forall m | m in mutations :: GoodMutation(versions, epoch, locals, mutations[m])
    ensures LocalInv(redis, epoch, locals', inbox)
    ensures forall m | m in mutations :: GoodMutation(versions, epoch, locals', mutations[m])
  {
    forall m | m in mutations ensures GoodMutation(versions, epoch, locals', mutations[m]) {
      assert GoodMutation(versions, epoch, locals, mutations[m]);
    }
  }

  /** A process adopts the epoch of the oldest reply in its queue. */
  lemma SetLocalEpoch(s: System, p: Proc, e: nat) returns (s': System)
    requires Inv(s) && p in s.locals && s.inbox[p] != [] && ReplyEpoch(s.inbox[p][0]) == Some(e)
    ensures s' == s.(locals := s.locals[p := s.locals[p].(epoch := e)]) && Inv(s') && Grows(s, s')
  {
    s' := s.(locals := s.locals[p := s.locals[p].(epoch := e)]);
    PendingEpochFree(s.mutations, s.fetches, s.locals, p, e);
    Adopt(CoreOf(s), CoreOf(s'), s.calls, s.inbox, p, e);
    CoreStep(s, s');
  }

  lemma Adopt(k: Core, k': Core, calls: map<nat, Call>, inbox: map<Proc, seq<Reply>>, p: Proc, e: nat)
    requires LocalInv(k.redis, k.epoch, k.locals, inbox) && MutationInv(k) && InboxInv(k, calls, inbox)
    requires p in k.locals && inbox[p] != [] && ReplyEpoch(inbox[p][0]) == Some(e)
    requires k' == k.(locals := k.locals[p := k.locals[p].(epoch := e)])
    ensures CoreGrows(k, k') && LocalInv(k'.redis, k'.epoch, k'.locals, inbox) && MutationInv(k')
            && InboxInv(k', calls, inbox)
  {
    OldestReply(k, calls, inbox, p);
    LocalsMoved(k.redis, |k.dbs|, k.epoch, k.locals, k'.locals, k.mutations, inbox);
    InboxAfterAdopting(k, k', calls, inbox, p, e);
  }

  lemma PendingEpochFree(mutations: map<nat, Mutation>, fetches: map<nat, Fetch>, locals: map<Proc, Local>, p: Proc,
                         e: nat)
    requires PendingInv(mutations, fetches, locals) && p in locals
    ensures PendingInv(mutations, fetches, locals[p := locals[p].(epoch := e)])
  {
    var locals' := locals[p := locals[p].(epoch := e)];
    forall q, r | q in locals' && r in locals'[q].pending
      ensures GoodRegistration(mutations, fetches, q, r, locals'[q].pending[r])
    {
      assert GoodRegistration(mutations, fetches, q, r, locals[q].pending[r]);
    }
  }

  lemma OldestReply(k: Core, calls: map<nat, Call>, inbox: map<Proc, seq<Reply>>, p: Proc)
    requires InboxInv(k, calls, inbox) && p in inbox && inbox[p] != []
    ensures GoodReply(k, calls, p, inbox[p][0])
  {
    assert GoodQueue(k, calls, p, inbox[p]);
  }

  lemma InboxAfterAdopting(k: Core, k': Core, calls: map<nat, Call>, inbox: map<Proc, seq<Reply>>, p: Proc, e: nat)
    requires CoreGrows(k, k') && InboxInv(k, calls, inbox) && p in k.locals && p in inbox && inbox[p] != []
    requires ReplyEpoch(inbox[p][0]) == Some(e) && k'.locals == k.locals[p := k.locals[p].(epoch := e)]
    ensures InboxInv(k', calls, inbox)
  {
    forall q | q in inbox ensures GoodQueue(k', calls, q, inbox[q]) {
      assert GoodQueue(k, calls, q, inbox[q]);
      forall i | 0 <= i < |inbox[q]| ensures GoodReply(k', calls, q, inbox[q][i]) {
        assert GoodReply(k, calls, q, inbox[q][i]);
        GoodReplyStable(k, k', calls, calls, q, inbox[q][i]);
      }
    }
  }

  /** A mutation moves on; a completing one must find its roles unregistered. */
  lemma SetMutation(s: System, m: nat, x: Mutation) returns (s': System)
    requires Inv(s) && m in s.mutations && x.ticket == s.mutations[m].ticket && Advances(s.epoch, s.mutations[m], x)
    requires GoodMutation(|s.dbs|, s.epoch, s.locals, x)
    requires x.phase.Completed? ==> forall r | r in s.locals[x.proc].pending :: !Covers(x.scope, r)
    ensures s' == s.(mutations := s.mutations[m := x]) && Inv(s') && Grows(s, s')
  {
    s' := s.(mutations := s.mutations[m := x]);
    CoreStep(s, s');
    DbStable(s.dbs, s.mutations, s'.mutations);
    PendingAfterMutation(s.mutations, s'.mutations, m, s.fetches, s.locals);
  }

  lemma DbStable(dbs: seq<Tables>, mutations: map<nat, Mutation>, mutations': map<nat, Mutation>)
    requires DbInv(dbs, mutations)
    requires forall m | m in mutations :: m in mutations' && mutations'[m].version == mutations[m].version
    ensures DbInv(dbs, mutations')
  {
    forall v | 0 < v < |dbs| && IsVersionOf(mutations, v) ensures IsVersionOf(mutations', v) {
      var m :| m in mutations && mutations[m].version == v;
      assert mutations'[m].version == v;
    }
  }

  lemma PendingAfterMutation(mutations: map<nat, Mutation>, mutations': map<nat, Mutation>, m: nat,
                             fetches: map<nat, Fetch>, locals: map<Proc, Local>)
    requires PendingInv(mutations, fetches, locals) && m in mutations' && mutations' == mutations[m := mutations'[m]]
    requires m in mutations ==>
               && mutations'[m].proc == mutations[m].proc && mutations'[m].scope == mutations[m].scope
               && mutations'[m].version == mutations[m].version
    requires mutations'[m].phase.Completed? ==>
               mutations'[m].proc in locals
                 && forall r | r in locals[mutations'[m].proc].pending :: !Covers(mutations'[m].scope, r)
    ensures PendingInv(mutations', fetches, locals)
  {
    forall p, r | p in locals && r in locals[p].pending
      ensures GoodRegistration(mutations', fetches, p, r, locals[p].pending[r])
    {
      assert GoodRegistration(mutations, fetches, p, r, locals[p].pending[r]);
      forall n | n in CompletedFor(mutations', r) && mutations'[n].proc == p
        ensures mutations'[n].version <= fetches[locals[p].pending[r]].start
      {
        assert n != m;
        assert n in CompletedFor(mutations, r);
      }
    }
  }
}
