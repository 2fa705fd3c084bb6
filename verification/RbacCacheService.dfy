/**
 One process's RbacService: the local epoch and the registry of in-flight fetches. Every method
 below is the code between two awaits, so it runs without interruption; the state it leaves is
 given by a function, and the protocol of many interleaved calls is built from those functions
 in RbacProtocol.
 */
module RbacCacheService {
  import opened Wrappers
  import opened RbacTables

  /** A cached role: CachedRolePermissions. */
  datatype Entry = Entry(epoch: nat, permissions: set<string>)

  /** invalidationEpoch and pendingRequests. A promise is named by the call that started it; the
      cache key is injective in the role id, so the registry is keyed by the role. */
  datatype Local = Local(epoch: nat, pending: map<Id, nat>)

  /** getGlobalEpoch once Redis has answered: a stored number is adopted, a null key or a failed
      read falls back to the local epoch. */
  function OnEpochRead(l: Local, stored: Option<nat>): (r: (Local, nat))
    ensures r.1 == r.0.epoch && r.0.pending == l.pending
    ensures stored.Some? ==> r.1 == stored.value
    ensures stored.None? ==> r.0 == l
  {
    match stored
    case Some(n) => (l.(epoch := n), n)
    case None => (l, l.epoch)
  }

  /** bumpGlobalEpoch once INCR has answered. */
  function OnBump(l: Local, next: nat): Local {
    l.(epoch := next)
  }

  /** The registrations an invalidation drops. */
  function Forget(l: Local, inv: Invalidation): (l': Local)
    ensures l'.epoch == l.epoch
    ensures forall r :: r in l'.pending <==> r in l.pending && !Covers(inv, r)
    ensures forall r | r in l'.pending :: l'.pending[r] == l.pending[r]
  {
    l.(pending := map r | r in l.pending && !Covers(inv, r) :: l.pending[r])
  }

  datatype Lookup = Hit(permissions: set<string>) | Join(fetch: nat) | Start(snapshot: nat)

  /** getPermissionsForRole after the cache answered: serve an entry of the current epoch, else
      join the registered fetch, else register one of its own named `own`. */
  function OnCacheAnswer(l: Local, role: Id, current: nat, cached: Option<Entry>, own: nat): (Local, Lookup) {
    if cached.Some? && cached.value.epoch == current then (l, Hit(cached.value.permissions))
    else if role in l.pending then (l, Join(l.pending[role]))
    else (l.(pending := l.pending[role := own]), Start(l.epoch))
  }

  /** The `finally` block: whatever is registered for the role goes. */
  function Unregister(l: Local, role: Id): Local {
    l.(pending := l.pending - {role})
  }

  /** A fetch resuming with its rows: the entry to write back, if the epoch did not move. */
  function OnRows(l: Local, role: Id, snapshot: nat, current: nat, rows: set<string>): (Local, Option<Entry>) {
    (Unregister(l, role), if snapshot == l.epoch then Some(Entry(current, rows)) else None)
  }

  class RbacService {
    const usesSharedEpoch: bool
    var invalidationEpoch: nat
    var pendingRequests: map<Id, nat>

    function State(): Local
      reads this
    {
      Local(invalidationEpoch, pendingRequests)
    }

    constructor (usesSharedEpoch: bool)
      ensures State() == Local(0, map[])
      ensures this.usesSharedEpoch == usesSharedEpoch
    {
      this.usesSharedEpoch := usesSharedEpoch;
      invalidationEpoch := 0;
      pendingRequests := map[];
    }

    /** `answer` is what the Redis read produced; None for null or an exception. */
    method GetGlobalEpoch(answer: Option<nat>) returns (epoch: nat)
      modifies this`invalidationEpoch
      ensures (State(), epoch) == OnEpochRead(old(State()), if usesSharedEpoch then answer else None)
    {
      if !usesSharedEpoch {
        return invalidationEpoch;
      }
      if answer.Some? {
        invalidationEpoch := answer.value;
        return answer.value;
      }
      return invalidationEpoch;
    }

    /** `incremented` is the number INCR returned; None if it threw, and the process counts on alone. */
    method BumpGlobalEpoch(incremented: Option<nat>) returns (epoch: nat)
      modifies this`invalidationEpoch
      ensures var own := old(invalidationEpoch) + 1;
              State() == OnBump(old(State()), if usesSharedEpoch then incremented.GetOr(own) else own)
      ensures epoch == invalidationEpoch
    {
      if !usesSharedEpoch {
        invalidationEpoch := invalidationEpoch + 1;
        return invalidationEpoch;
      }
      if incremented.None? {
        invalidationEpoch := invalidationEpoch + 1;
        return invalidationEpoch;
      }
      invalidationEpoch := incremented.value;
      return incremented.value;
    }

    method ResumeAfterProbe(role: Id, current: nat, cached: Option<Entry>, own: nat) returns (next: Lookup)
      modifies this`pendingRequests
      ensures (State(), next) == OnCacheAnswer(old(State()), role, current, cached, own)
    {
      if cached.Some? && cached.value.epoch == current {
        return Hit(cached.value.permissions);
      }
      if role in pendingRequests {
        return Join(pendingRequests[role]);
      }
      next := Start(invalidationEpoch);
      pendingRequests := pendingRequests[role := own];
    }

    method ResumeAfterRows(role: Id, snapshot: nat, current: nat, rows: set<string>) returns (entry: Option<Entry>)
      modifies this`pendingRequests
      ensures (State(), entry) == OnRows(old(State()), role, snapshot, current, rows)
    {
      entry := None;
      if snapshot == invalidationEpoch {
        entry := Some(Entry(current, rows));
      }
      pendingRequests := pendingRequests - {role};
    }

    method ResumeAfterFailure(role: Id)
      modifies this`pendingRequests
      ensures State() == Unregister(old(State()), role)
    {
      pendingRequests := pendingRequests - {role};
    }

    method ClearRoleCacheKey(role: Id)
      modifies this`pendingRequests
      ensures State() == Forget(old(State()), Roles({role}))
    {
      pendingRequests := pendingRequests - {role};
    }

    /** The loop of invalidateRoles, once its bump returned. */
    method ClearRoles(roles: seq<Id>)
      modifies this`pendingRequests
      ensures State() == Forget(old(State()), Roles(set r | r in roles))
    {
      for i := 0 to |roles|
        invariant State() == Forget(old(State()), Roles(set r | r in roles[..i]))
      {
        ClearRoleCacheKey(roles[i]);
        assert roles[..i + 1] == roles[..i] + [roles[i]];
      }
      assert roles[..|roles|] == roles;
    }

    method ClearAll()
      modifies this`pendingRequests
      ensures State() == Forget(old(State()), AllRoles)
    {
      pendingRequests := map[];
    }
  }

  /** checkPermissions: `fetched` is None when getPermissionsForRole threw. */
  method CheckPermissions(role: Id, required: seq<string>, fetched: Option<set<string>>) returns (allowed: bool)
    ensures allowed <==> fetched.Some? && Decide(role, fetched.value, required)
  {
    if role == "" || |required| == 0 {
      return false;
    }
    if fetched.None? {
      return false;
    }
    allowed := true;
    for i := 0 to |required|
      invariant allowed <==> forall j | 0 <= j < i :: required[j] in fetched.value
    {
      if required[i] !in fetched.value {
        allowed := false;
      }
    }
  }
}
