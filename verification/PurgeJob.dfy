/** The purge service: batched deletion of expired sessions and old audit rows. */
module PurgeJob {
  import opened Wrappers
  import opened Sessions

  type RowId = nat

  /** sessions, and audit_logs as creation dates by id. */
  datatype Tables = Tables(sessions: Rows, auditLogs: map<RowId, nat>)

  datatype Target = SessionRows | AuditRows

  /** The rows the subselect ranges over. */
  function Stale(t: Tables, target: Target, cutoff: nat): set<RowId> {
    match target
    case SessionRows => Expired(t.sessions, cutoff)
    case AuditRows => set i | i in t.auditLogs && t.auditLogs[i] < cutoff
  }

  function Without(t: Tables, target: Target, gone: set<RowId>): Tables {
    match target
    case SessionRows => t.(sessions := DeleteRows(t.sessions, gone))
    case AuditRows => t.(auditLogs := t.auditLogs - gone)
  }

  /** Of the stale rows exactly `gone` have been removed so far. */
  ghost predicate Removed(before: Tables, now: Tables, target: Target, cutoff: nat, gone: set<RowId>) {
    && gone <= Stale(before, target, cutoff)
    && now == Without(before, target, gone)
  }

  lemma Nothing(t: Tables, target: Target, cutoff: nat)
    ensures Without(t, target, {}) == t && Removed(t, t, target, cutoff, {})
  {
    assert DeleteRows(t.sessions, {}) == t.sessions;
    assert t.auditLogs - {} == t.auditLogs;
  }

  lemma StaleAfter(t: Tables, target: Target, gone: set<RowId>, cutoff: nat)
    ensures Stale(Without(t, target, gone), target, cutoff) == Stale(t, target, cutoff) - gone
  {
  }

  lemma CardinalityOfRest(stale: set<RowId>, gone: set<RowId>)
    requires gone <= stale
    ensures |stale - gone| == |stale| - |gone| && |gone| <= |stale|
  {
    assert stale == (stale - gone) + gone;
  }

  lemma Remaining(before: Tables, now: Tables, target: Target, cutoff: nat, gone: set<RowId>)
    requires Removed(before, now, target, cutoff, gone)
    ensures |Stale(now, target, cutoff)| == |Stale(before, target, cutoff)| - |gone|
            && |gone| <= |Stale(before, target, cutoff)|
  {
    StaleAfter(before, target, gone, cutoff);
    CardinalityOfRest(Stale(before, target, cutoff), gone);
  }

  lemma NextBatch(before: Tables, now: Tables, after: Tables, target: Target, cutoff: nat, gone: set<RowId>,
                  batch: set<RowId>)
    returns (gone': set<RowId>)
    requires Removed(before, now, target, cutoff, gone) && Removed(now, after, target, cutoff, batch)
    ensures Removed(before, after, target, cutoff, gone')
    ensures |gone'| == |gone| + |batch| <= |Stale(before, target, cutoff)|
    ensures |Stale(now, target, cutoff)| == |Stale(before, target, cutoff)| - |gone|
  {
    gone' := gone + batch;
    RemovedTwice(before, now, after, target, cutoff, gone, batch);
    Remaining(before, now, target, cutoff, gone);
    Remaining(before, after, target, cutoff, gone');
  }

  lemma RemovedTwice(before: Tables, now: Tables, after: Tables, target: Target, cutoff: nat, gone: set<RowId>,
                     batch: set<RowId>)
    requires Removed(before, now, target, cutoff, gone) && Removed(now, after, target, cutoff, batch)
    ensures Removed(before, after, target, cutoff, gone + batch)
    ensures |gone + batch| == |gone| + |batch|
  {
    StaleAfter(before, target, gone, cutoff);
    if target.AuditRows? {
      assert before.auditLogs - gone - batch == before.auditLogs - (gone + batch);
    } else {
      assert DeleteRows(DeleteRows(before.sessions, gone), batch) == DeleteRows(before.sessions, gone + batch);
    }
  }

  lemma AllGone(before: Tables, now: Tables, target: Target, cutoff: nat, gone: set<RowId>)
    requires Removed(before, now, target, cutoff, gone) && |gone| == |Stale(before, target, cutoff)|
    ensures gone == Stale(before, target, cutoff)
  {
    CardinalityOfRest(Stale(before, target, cutoff), gone);
    assert Stale(before, target, cutoff) - gone == {};
  }

  function Min(a: nat, b: nat): nat { if a < b then a else b }

  lemma {:induction false} SubsetOfSize(s: set<RowId>, n: nat) returns (t: set<RowId>)
    requires n <= |s|
    ensures t <= s && |t| == n
    decreases n
  {
    if n == 0 { return {}; }
    var x :| x in s;
    var rest := SubsetOfSize(s - {x}, n - 1);
    t := rest + {x};
  }

  /** The rows in `k` full batches, and the full batches in `n` rows. */
  function Batches(k: nat, b: nat): nat {
    if k == 0 then 0 else Batches(k - 1, b) + b
  }

  function FullBatches(n: nat, b: nat): nat
    requires b >= 1
    decreases n
  {
    if n < b then 0 else FullBatches(n - b, b) + 1
  }

  lemma {:induction false} BatchesIsProduct(k: nat, b: nat)
    ensures Batches(k, b) == k * b
  {
    if k > 0 { BatchesIsProduct(k - 1, b); }
  }

  lemma Multiples(a: nat, b: nat, c: nat)
    ensures a <= b ==> a * c <= b * c
    ensures (a + 1) * c == a * c + c
  {
  }

  lemma QuotientIsUnique(q: nat, r: nat, k: nat, s: nat, b: nat)
    requires q * b + r == k * b + s && r < b && s < b
    ensures q == k
  {
    Multiples(q + 1, k, b);
    Multiples(k + 1, q, b);
    Multiples(q, k, b);
    Multiples(k, q, b);
  }

  lemma {:induction false} FullBatchesBounds(n: nat, b: nat)
    requires b >= 1
    ensures Batches(FullBatches(n, b), b) <= n < Batches(FullBatches(n, b), b) + b
    decreases n
  {
    if n >= b { FullBatchesBounds(n - b, b); }
  }

  lemma FullBatchesIsQuotient(n: nat, b: nat)
    requires b >= 1
    ensures FullBatches(n, b) == n / b
  {
    var q := FullBatches(n, b);
    FullBatchesBounds(n, b);
    BatchesIsProduct(q, b);
    QuotientIsUnique(n / b, n % b, q, n - q * b, b);
  }

  lemma {:induction false} FullBatchesFit(n: nat, b: nat, k: nat)
    requires b >= 1 && Batches(k, b) <= n
    ensures k <= FullBatches(n, b) && (n < Batches(k, b) + b ==> k == FullBatches(n, b))
    decreases k
  {
    if k > 0 { FullBatchesFit(n - b, b, k - 1); }
  }

  /** How a purge over n rows in batches of b ends: after n / b + 1 deletes everything is gone, or
      the database fails before that and exactly the full batches deleted so far are gone. */
  predicate Ends(n: nat, b: nat, failAfter: Option<nat>, failed: bool, deletes: nat, removed: nat)
    requires b >= 1
  {
    if failAfter.None? || failAfter.value > FullBatches(n, b)
    then !failed && deletes == FullBatches(n, b) + 1 && removed == n
    else failed && deletes == failAfter.value && removed == Batches(deletes, b)
  }

  lemma Finishes(n: nat, b: nat, failAfter: Option<nat>, k: nat)
    requires b >= 1 && Batches(k, b) <= n < Batches(k, b) + b && (failAfter.Some? ==> k < failAfter.value)
    ensures Ends(n, b, failAfter, false, k + 1, n)
  {
    FullBatchesFit(n, b, k);
  }

  lemma FailsEarly(n: nat, b: nat, k: nat)
    requires b >= 1 && Batches(k, b) <= n
    ensures Ends(n, b, Some(k), true, k, Batches(k, b))
  {
    FullBatchesFit(n, b, k);
  }

  lemma EndsInNumbers(n: nat, b: nat, failAfter: Option<nat>, failed: bool, deletes: nat, removed: nat)
    requires b >= 1
    ensures Ends(n, b, failAfter, failed, deletes, removed) <==>
              if failAfter.None? || failAfter.value > n / b
              then !failed && deletes == n / b + 1 && removed == n
              else failed && deletes == failAfter.value && removed == deletes * b
  {
    FullBatchesIsQuotient(n, b);
    BatchesIsProduct(deletes, b);
  }

  /** A date lies before the cutoff exactly if that many days of 86_400_000 milliseconds have passed. */
  lemma CutoffIs(days: nat, now: nat, at: nat)
    ensures at < DaysAgo(days, now) <==> at + days * 86_400_000 < now
  {
  }

  class Database {
    var sessions: Rows
    var auditLogs: map<RowId, nat>

    function State(): Tables
      reads this
    {
      Tables(sessions, auditLogs)
    }

    constructor (sessions: Rows, auditLogs: map<RowId, nat>)
      ensures State() == Tables(sessions, auditLogs)
    {
      this.sessions, this.auditLogs := sessions, auditLogs;
    }

    /** DELETE .. WHERE id IN (SELECT id .. WHERE .. < :cutoff LIMIT :batch): which of the stale rows
        go is the database's choice. */
    method DeleteBatch(target: Target, cutoff: nat, batch: nat) returns (affected: nat, ghost gone: set<RowId>)
      modifies this
      ensures Removed(old(State()), State(), target, cutoff, gone)
      ensures affected == |gone| == Min(batch, |Stale(old(State()), target, cutoff)|)
    {
      var stale := Stale(State(), target, cutoff);
      affected := Min(batch, |stale|);
      ghost var witnessed := SubsetOfSize(stale, affected);
      var chosen :| chosen <= stale && |chosen| == affected;
      gone := chosen;
      match target {
        case SessionRows => sessions := DeleteRows(sessions, chosen);
        case AuditRows => auditLogs := auditLogs - chosen;
      }
    }
  }

  datatype Config = Config(purgeEnabled: Option<bool>, sessionGraceDays: Option<nat>, auditRetentionDays: Option<nat>,
                           purgeBatchSize: Option<nat>)

  datatype Failure = DatabaseDown

  class PurgeService {
    const db: Database
    var purgeEnabled: bool
    var sessionGraceDays: nat
    var auditRetentionDays: nat
    var batchSize: nat

    constructor (db: Database)
      ensures this.db == db && purgeEnabled && sessionGraceDays == 1 && auditRetentionDays == 90 && batchSize == 1000
    {
      this.db := db;
      purgeEnabled, sessionGraceDays, auditRetentionDays, batchSize := true, 1, 90, 1000;
    }

    /** The configuration schema demands a batch of at least one row. */
    method OnModuleInit(config: Config)
      requires config.purgeBatchSize.GetOr(1000) >= 1
      modifies this
      ensures batchSize >= 1 && batchSize == config.purgeBatchSize.GetOr(1000)
      ensures purgeEnabled == config.purgeEnabled.GetOr(true)
      ensures sessionGraceDays == config.sessionGraceDays.GetOr(1)
              && auditRetentionDays == config.auditRetentionDays.GetOr(90)
    {
      purgeEnabled := config.purgeEnabled.GetOr(true);
      sessionGraceDays := config.sessionGraceDays.GetOr(1);
      auditRetentionDays := config.auditRetentionDays.GetOr(90);
      batchSize := config.purgeBatchSize.GetOr(1000);
    }

    /** With n stale rows and batches of b: n / b + 1 deletes remove exactly the stale rows and n is
        returned, whichever batches the database picks. If instead the delete after `failAfter`
        successful ones fails, and that many are not enough, exactly failAfter * b of the stale
        rows are gone. */
    method DeleteInBatches(target: Target, cutoff: nat, failAfter: Option<nat>)
      returns (r: Result<nat, Failure>, deletes: nat, ghost gone: set<RowId>)
      requires batchSize >= 1
      modifies db
      ensures Removed(old(db.State()), db.State(), target, cutoff, gone)
      ensures Ends(|Stale(old(db.State()), target, cutoff)|, batchSize, failAfter, r.Err?, deletes, |gone|)
      ensures r.Ok? ==> r.value == |gone| && gone == Stale(old(db.State()), target, cutoff)
    {
      ghost var before := db.State();
      ghost var now := before;
      ghost var n := |Stale(before, target, cutoff)|;
      var totalDeleted := 0;
      deletes, gone := 0, {};
      Nothing(before, target, cutoff);
      while true
        invariant now == db.State()
        invariant Removed(before, now, target, cutoff, gone)
        invariant |gone| <= n && totalDeleted == |gone| == Batches(deletes, batchSize)
        invariant failAfter.Some? ==> deletes <= failAfter.value
        decreases n - |gone|
      {
        if failAfter == Some(deletes) {
          FailsEarly(n, batchSize, deletes);
          return Err(DatabaseDown), deletes, gone;
        }
        var affected, batch := db.DeleteBatch(target, cutoff, batchSize);
        ghost var after := db.State();
        ghost var gone' := NextBatch(before, now, after, target, cutoff, gone, batch);
        now := after;
        totalDeleted := totalDeleted + affected;
        deletes, gone := deletes + 1, gone';
        if affected < batchSize {
          Finishes(n, batchSize, failAfter, deletes - 1);
          AllGone(before, now, target, cutoff, gone);
          return Ok(totalDeleted), deletes, gone;
        }
      }
    }

    /** The method swallows failures. `gone` are the rows it removed: none that expires, with the grace
        days, only now or later, and if it is enabled and not cut short all others. A kept row loses at
        most its link to a predecessor that went. */
    method RunSessionPurge(now: nat, failAfter: Option<nat>) returns (ghost gone: set<RowId>)
      requires batchSize >= 1
      modifies db
      ensures db.auditLogs == old(db.auditLogs) && db.sessions == DeleteRows(old(db.sessions), gone)
      ensures var expired := Expired(old(db.sessions), DaysAgo(sessionGraceDays, now));
              && gone <= expired
              && (!purgeEnabled ==> gone == {})
              && (purgeEnabled && (failAfter.None? || failAfter.value > FullBatches(|expired|, batchSize))
                  ==> gone == expired)
      ensures var rows, days := old(db.sessions), sessionGraceDays;
              forall i | i in rows && rows[i].expiresAt + days * 86_400_000 >= now :: i in db.sessions
      ensures forall i | i in db.sessions :: i in old(db.sessions) &&
                db.sessions[i] == old(db.sessions)[i].(rotatedFrom := db.sessions[i].rotatedFrom)
      ensures forall i | i in db.sessions ::
                var from := old(db.sessions)[i].rotatedFrom;
                db.sessions[i].rotatedFrom
                == if from.Some? && from.value in old(db.sessions) && from.value !in db.sessions then None else from
      ensures var rows, days := old(db.sessions), sessionGraceDays;
              var due := set i | i in rows && rows[i].expiresAt + days * 86_400_000 < now;
              purgeEnabled && (failAfter.None? || failAfter.value > |due| / batchSize) ==>
                forall i | i in due :: i !in db.sessions
    {
      gone := {};
      ghost var days := sessionGraceDays;
      ghost var due := set i | i in db.sessions && db.sessions[i].expiresAt + days * 86_400_000 < now;
      forall i: RowId | i in db.sessions { CutoffIs(sessionGraceDays, now, db.sessions[i].expiresAt); }
      assert due == Expired(db.sessions, DaysAgo(sessionGraceDays, now));
      FullBatchesIsQuotient(|due|, batchSize);
      if !purgeEnabled {
        Nothing(db.State(), SessionRows, 0);
        return;
      }
      var cutoff := DaysAgo(sessionGraceDays, now);
      var r, deletes;
      r, deletes, gone := DeleteInBatches(SessionRows, cutoff, failAfter);
    }

    /** No row younger than the retention goes, and if the purge is enabled and not cut short every older
        one does. */
    method RunAuditPurge(now: nat, failAfter: Option<nat>) returns (ghost gone: set<RowId>)
      requires batchSize >= 1
      modifies db
      ensures db.sessions == old(db.sessions) && db.auditLogs == old(db.auditLogs) - gone
      ensures var stale := set i | i in old(db.auditLogs) && old(db.auditLogs)[i] < DaysAgo(auditRetentionDays, now);
              && gone <= stale
              && (!purgeEnabled ==> gone == {})
              && (purgeEnabled && (failAfter.None? || failAfter.value > FullBatches(|stale|, batchSize))
                  ==> gone == stale)
      ensures var rows, days := old(db.auditLogs), auditRetentionDays;
              forall i | i in rows && rows[i] + days * 86_400_000 >= now :: i in db.auditLogs
      ensures forall i | i in db.auditLogs :: i in old(db.auditLogs) && db.auditLogs[i] == old(db.auditLogs)[i]
      ensures var rows, days := old(db.auditLogs), auditRetentionDays;
              var due := set i | i in rows && rows[i] + days * 86_400_000 < now;
              purgeEnabled && (failAfter.None? || failAfter.value > |due| / batchSize) ==>
                forall i | i in due :: i !in db.auditLogs
    {
      gone := {};
      ghost var days := auditRetentionDays;
      ghost var due := set i | i in db.auditLogs && db.auditLogs[i] + days * 86_400_000 < now;
      forall i: RowId | i in db.auditLogs { CutoffIs(auditRetentionDays, now, db.auditLogs[i]); }
      assert due == Stale(db.State(), AuditRows, DaysAgo(auditRetentionDays, now));
      FullBatchesIsQuotient(|due|, batchSize);
      if !purgeEnabled {
        return;
      }
      var cutoff := DaysAgo(auditRetentionDays, now);
      var r, deletes;
      r, deletes, gone := DeleteInBatches(AuditRows, cutoff, failAfter);
      assert due == set i | i in old(db.auditLogs) && old(db.auditLogs)[i] + days * 86_400_000 < now;
    }
  }

  /** A run of the job is a purge operation of the session state machine: what it did not reach
      are the spared rows. */
  lemma JobIsPurge(st: Auth, graceDays: nat, gone: set<RowId>, now: nat)
    requires gone <= Expired(st.sessions, DaysAgo(graceDays, now))
    ensures Purge(st, true, graceDays, Expired(st.sessions, DaysAgo(graceDays, now)) - gone, now)
            == st.(sessions := DeleteRows(st.sessions, gone))
  {
    var expired := Expired(st.sessions, DaysAgo(graceDays, now));
    assert expired - (expired - gone) == gone;
  }
}
