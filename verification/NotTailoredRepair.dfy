/** The repeatable repair of runs that failed only on the retired job-description blocker. */
module NotTailoredRepair {
  import opened Prelude
  import opened RunTable
  import opened DuplicateRepair

  const MARKER := "NOT_TAILORED_NO_JOB_DESCRIPTION"
  const SUPERSEDED_PREFIX := "SUPERSEDED_BY_FALLBACK_POLICY"
  const EXPLANATION :=
    ": The incomplete-job-description blocker was removed. "
    + "This run is now retryable and will select a master-resume fallback if needed. Prior error: "

  predicate Candidate(row: Row) {
    row.errorLog.Some? && Includes(row.errorLog.value, MARKER)
  }

  predicate AlreadyRepaired(row: Row) {
    row.errorLog.Some? && SUPERSEDED_PREFIX <= row.errorLog.value
  }

  predicate JobSubmitted(t: Table, jobId: JobId) {
    exists r :: r in t && t[r].jobId == jobId && t[r].status == Submitted
  }

  /** What the loop decides for one candidate, in the order it decides it. */
  datatype Verdict = Already | SkipSubmitted | Repair

  function Judge(t: Table, id: RunId): Verdict
    requires id in t
  {
    if AlreadyRepaired(t[id]) then Already
    else if JobSubmitted(t, t[id].jobId) then SkipSubmitted
    else Repair
  }

  function RetryableRow(row: Row, now: int): Row
    requires row.errorLog.Some?
  {
    row.(status := Failed, activeKey := None,
         errorLog := Some(SUPERSEDED_PREFIX + EXPLANATION + row.errorLog.value),
         currentStep := "SUPERSEDED_BY_FALLBACK_POLICY",
         needsUserActionReason := None, stoppedFieldLabel := None, finishedAt := Some(now))
  }

  datatype AuditEntry = AuditEntry(jobId: JobId, action: string, runId: RunId)

  function Entry(t: Table, id: RunId): AuditEntry
    requires id in t
  {
    AuditEntry(t[id].jobId, "run-superseded-by-fallback-policy", id)
  }

  class AuditLog {
    var entries: seq<AuditEntry>
    constructor ()
      ensures entries == []
    {
      entries := [];
    }
  }

  function CandidateIds(t: Table): set<RunId> {
    set id | id in t && Candidate(t[id])
  }

  function ToRepair(t: Table, ids: set<RunId>): set<RunId> {
    set id | id in ids && id in t && Candidate(t[id]) && Judge(t, id) == Repair
  }

  /** The table after the candidates in `ids` have been handled. */
  function Handled(t: Table, ids: set<RunId>, now: int): (r: Table)
    ensures r.Keys == t.Keys
  {
    map id | id in t :: if id in ToRepair(t, ids) then RetryableRow(t[id], now) else t[id]
  }

  function Result(t: Table, now: int): (r: Table)
    ensures r.Keys == t.Keys
  {
    Handled(t, CandidateIds(t), now)
  }

  datatype Counts = Counts(examined: nat, repaired: nat, already: nat, skipped: nat, locksCleared: nat)

  function HadActiveLock(row: Row): bool {
    row.activeKey.Some? && row.status != Failed
  }

  function CountOne(c: Counts, verdict: Verdict, hadActiveLock: bool): Counts {
    var c1 := c.(examined := c.examined + 1);
    match verdict
    case Already => c1.(already := c.already + 1)
    case SkipSubmitted => c1.(skipped := c.skipped + 1)
    case Repair => c1.(repaired := c.repaired + 1, locksCleared := c.locksCleared + if hadActiveLock then 1 else 0)
  }

  /** What the counters and the audit log should read after handling `order`. */
  function Tally(t: Table, order: seq<RunId>): (c: Counts)
    requires forall id :: id in order ==> id in t
    ensures c.examined == |order| == c.repaired + c.already + c.skipped && c.locksCleared <= c.repaired
  {
    if order == [] then Counts(0, 0, 0, 0, 0)
    else
      var last := order[|order| - 1];
      assert last in order;
      var front := order[..|order| - 1];
      assert forall id :: id in front ==> id in order;
      CountOne(Tally(t, front), Judge(t, last), HadActiveLock(t[last]))
  }

  function NewEntries(t: Table, id: RunId): seq<AuditEntry>
    requires id in t
  {
    if Judge(t, id) == Repair then [Entry(t, id)] else []
  }

  function Entries(t: Table, order: seq<RunId>): seq<AuditEntry>
    requires forall id :: id in order ==> id in t
  {
    if order == [] then []
    else
      var last := order[|order| - 1];
      assert last in order;
      var front := order[..|order| - 1];
      assert forall id :: id in front ==> id in order;
      Entries(t, front) + NewEntries(t, last)
  }

  lemma HandleOne(t: Table, ids: set<RunId>, id: RunId, now: int)
    requires id in t && Candidate(t[id]) && id !in ids
    ensures Judge(t, id) != Repair ==> Handled(t, ids + {id}, now) == Handled(t, ids, now)
    ensures Judge(t, id) == Repair ==>
      Handled(t, ids + {id}, now) == UpdateMany(Handled(t, ids, now), {id}, (row: Row) => RetryableRow(t[id], now))
  {
  }

  lemma LoopStep(t: Table, order: seq<RunId>, i: nat)
    requires i < |order| && NoDuplicates(order) && forall id :: id in order <==> id in CandidateIds(t)
    ensures order[i] in t && Candidate(t[order[i]]) && order[i] !in ToSet(order[..i])
    ensures ToSet(order[..i + 1]) == ToSet(order[..i]) + {order[i]}
    ensures forall id :: id in order[..i + 1] ==> id in t
    ensures Entries(t, order[..i + 1]) == Entries(t, order[..i]) + NewEntries(t, order[i])
    ensures Tally(t, order[..i + 1]) == CountOne(Tally(t, order[..i]), Judge(t, order[i]), HadActiveLock(t[order[i]]))
  {
    assert order[i] in order;
    assert order[..i + 1] == order[..i] + [order[i]];
    assert order[..i + 1][..i] == order[..i];
    forall id | id in order[..i + 1] ensures id in t {
      assert id in order;
    }
  }

  lemma LoopEnd(t: Table, order: seq<RunId>, now: int)
    requires forall id :: id in order <==> id in CandidateIds(t)
    ensures order[..|order|] == order && Handled(t, ToSet(order), now) == Result(t, now)
  {
    assert ToSet(order) == CandidateIds(t);
  }

  /** One candidate: skip it, or write its row and one audit entry. */
  method HandleRun(store: RunStore, log: AuditLog, t: Table, ghost seen: set<RunId>, id: RunId, c: Counts, now: int)
    returns (after: Counts)
    requires id in t && Candidate(t[id]) && id !in seen && store.rows == Handled(t, seen, now)
    modifies store, log
    ensures store.rows == Handled(t, seen + {id}, now)
    ensures log.entries == old(log.entries) + NewEntries(t, id)
    ensures after == CountOne(c, Judge(t, id), HadActiveLock(t[id]))
  {
    HandleOne(t, seen, id, now);
    after := c.(examined := c.examined + 1);
    if AlreadyRepaired(t[id]) {
      after := after.(already := after.already + 1);
      return;
    }
    if JobSubmitted(t, t[id].jobId) {
      after := after.(skipped := after.skipped + 1);
      return;
    }
    if HadActiveLock(t[id]) {
      after := after.(locksCleared := after.locksCleared + 1);
    }
    store.rows := UpdateMany(store.rows, {id}, (row: Row) => RetryableRow(t[id], now));
    log.entries := log.entries + [Entry(t, id)];
    after := after.(repaired := after.repaired + 1);
  }

  /** The first `i` candidates have been handled. */
  ghost predicate PassedUpTo(t: Table, order: seq<RunId>, i: nat, rows: Table, written: seq<AuditEntry>, c: Counts,
      now: int)
  {
    && i <= |order| && (forall id :: id in order[..i] ==> id in t) && rows == Handled(t, ToSet(order[..i]), now)
    && written == Entries(t, order[..i]) && c == Tally(t, order[..i])
  }

  lemma PassEnds(t: Table, order: seq<RunId>, rows: Table, written: seq<AuditEntry>, c: Counts, now: int)
    requires forall id :: id in order <==> id in CandidateIds(t)
    requires PassedUpTo(t, order, |order|, rows, written, c, now)
    ensures (forall id :: id in order ==> id in t) && rows == Result(t, now)
    ensures written == Entries(t, order) && c == Tally(t, order)
  {
    LoopEnd(t, order, now);
  }

  /** One turn of the loop; `written` is what the pass has added to the log so far. */
  method RepairNext(store: RunStore, log: AuditLog, t: Table, order: seq<RunId>, i: nat, c: Counts,
      ghost written: seq<AuditEntry>, now: int) returns (after: Counts)
    requires i < |order| && NoDuplicates(order) && forall id :: id in order <==> id in CandidateIds(t)
    requires PassedUpTo(t, order, i, store.rows, written, c, now)
    modifies store, log
    ensures PassedUpTo(t, order, i + 1, store.rows, written + NewEntriesAt(t, order, i), after, now)
    ensures log.entries == old(log.entries) + NewEntriesAt(t, order, i)
  {
    LoopStep(t, order, i);
    after := HandleRun(store, log, t, ToSet(order[..i]), order[i], c, now);
  }

  ghost function NewEntriesAt(t: Table, order: seq<RunId>, i: nat): seq<AuditEntry>
    requires i < |order|
  {
    if order[i] in t then NewEntries(t, order[i]) else []
  }

  /** `main`: judges every candidate against the snapshot it fetched, in the order it was fetched. */
  method RepairRuns(store: RunStore, log: AuditLog, order: seq<RunId>, now: int) returns (c: Counts)
    requires NoDuplicates(order) && forall id :: id in order <==> id in CandidateIds(store.rows)
    modifies store, log
    ensures store.rows == Result(old(store.rows), now)
    ensures (forall id :: id in order ==> id in old(store.rows))
         && log.entries == old(log.entries) + Entries(old(store.rows), order)
         && c == Tally(old(store.rows), order)
  {
    var t := store.rows;
    c := Counts(0, 0, 0, 0, 0);
    ghost var written: seq<AuditEntry> := [];
    for i := 0 to |order|
      invariant PassedUpTo(t, order, i, store.rows, written, c, now)
      invariant log.entries == old(log.entries) + written
    {
      c := RepairNext(store, log, t, order, i, c, written, now);
      written := written + NewEntriesAt(t, order, i);
    }
    PassEnds(t, order, store.rows, written, c, now);
  }

  /** A repaired row is still a candidate, and is recognised as already repaired. */
  lemma RetryableRowIsRecognised(row: Row, now: int)
    requires Candidate(row)
    ensures Candidate(RetryableRow(row, now)) && AlreadyRepaired(RetryableRow(row, now))
  {
    var before := row.errorLog.value;
    var head := SUPERSEDED_PREFIX + EXPLANATION;
    var after := head + before;
    var i :| 0 <= i <= |before| && MARKER <= before[i..];
    assert after[|head| + i..] == before[i..];
    assert SUPERSEDED_PREFIX + (EXPLANATION + before) == after;
  }

  /** Whether a job has a submitted run is the same before and after. */
  lemma SubmissionsUntouched(t: Table, now: int, jobId: JobId)
    ensures JobSubmitted(Result(t, now), jobId) <==> JobSubmitted(t, jobId)
    ensures JobSubmitted(t, jobId) ==> forall id :: id in t && t[id].jobId == jobId ==> Result(t, now)[id] == t[id]
  {
    var u := Result(t, now);
    if JobSubmitted(t, jobId) {
      var r :| r in t && t[r].jobId == jobId && t[r].status == Submitted;
      assert u[r] == t[r];
    }
    if JobSubmitted(u, jobId) {
      var r :| r in u && u[r].jobId == jobId && u[r].status == Submitted;
      assert t[r].status == Submitted;
    }
  }

  /** A second pass judges every earlier repair as already done and every other candidate as before. */
  lemma SecondVerdict(t: Table, now: int, id: RunId)
    requires id in t
    ensures Candidate(Result(t, now)[id]) <==> Candidate(t[id])
    ensures Candidate(t[id]) ==> Judge(Result(t, now), id) == if Judge(t, id) == Repair then Already else Judge(t, id)
  {
    SubmissionsUntouched(t, now, t[id].jobId);
    if Candidate(t[id]) && Judge(t, id) == Repair {
      RetryableRowIsRecognised(t[id], now);
      assert id in ToRepair(t, CandidateIds(t));
    }
  }

  /** Running the repair again writes no row. */
  lemma SecondPassWritesNothing(t: Table, now: int, later: int)
    ensures CandidateIds(Result(t, now)) == CandidateIds(t)
    ensures ToRepair(Result(t, now), CandidateIds(Result(t, now))) == {}
    ensures Result(Result(t, now), later) == Result(t, now)
  {
    forall id | id in t
      ensures id in CandidateIds(Result(t, now)) <==> id in CandidateIds(t)
      ensures id !in ToRepair(Result(t, now), CandidateIds(Result(t, now)))
    {
      SecondVerdict(t, now, id);
    }
  }

  lemma {:induction false} SecondPassEntries(t: Table, now: int, order: seq<RunId>)
    requires forall id :: id in order ==> id in t && Candidate(t[id])
    ensures Entries(Result(t, now), order) == []
    decreases |order|
  {
    if order != [] {
      var last, front := order[|order| - 1], order[..|order| - 1];
      assert last in order && forall id :: id in front ==> id in order;
      SecondPassEntries(t, now, front);
      SecondVerdict(t, now, last);
    }
  }

  /** One more candidate on both passes. */
  lemma CountTwice(t: Table, now: int, id: RunId, first: Counts, second: Counts)
    requires id in t && Candidate(t[id])
    requires second == Counts(first.examined, 0, first.already + first.repaired, first.skipped, 0)
    ensures var a := CountOne(first, Judge(t, id), HadActiveLock(t[id]));
            CountOne(second, Judge(Result(t, now), id), HadActiveLock(Result(t, now)[id]))
              == Counts(a.examined, 0, a.already + a.repaired, a.skipped, 0)
  {
    SecondVerdict(t, now, id);
  }

  lemma {:induction false} SecondPassTally(t: Table, now: int, order: seq<RunId>)
    requires forall id :: id in order ==> id in t && Candidate(t[id])
    ensures var first := Tally(t, order);
            Tally(Result(t, now), order) == Counts(first.examined, 0, first.already + first.repaired, first.skipped, 0)
    decreases |order|
  {
    if order != [] {
      var last, front := order[|order| - 1], order[..|order| - 1];
      assert last in order && forall id :: id in front ==> id in order;
      SecondPassTally(t, now, front);
      CountTwice(t, now, last, Tally(t, front), Tally(Result(t, now), front));
    }
  }

  /** The second pass adds no audit entry, and counts what the first pass repaired as already repaired. */
  lemma SecondPassCounts(t: Table, now: int, order: seq<RunId>)
    requires forall id :: id in order ==> id in t && Candidate(t[id])
    ensures Entries(Result(t, now), order) == []
    ensures Tally(Result(t, now), order)
         == Counts(|order|, 0, Tally(t, order).already + Tally(t, order).repaired, Tally(t, order).skipped, 0)
  {
    SecondPassEntries(t, now, order);
    SecondPassTally(t, now, order);
  }

  /** The repair activates nothing, so "one active run per job" survives it. */
  lemma RepairKeepsOneActive(t: Table, now: int, scope: Scope)
    requires OneActivePerJob(t, scope)
    ensures OneActivePerJob(Result(t, now), scope)
  {
    ActivatesNothingKeepsOneActive(t, Result(t, now), scope);
  }

  // ---- the pass in columns ----

  /** The run failed on the retired blocker. */
  ghost predicate Blocked(row: Row) {
    row.errorLog.Some? && Occurs("NOT_TAILORED_NO_JOB_DESCRIPTION", row.errorLog.value)
  }

  /** Its error log begins as one that has been repaired. */
  ghost predicate Marked(row: Row) {
    row.errorLog.Some? && exists rest :: row.errorLog.value == "SUPERSEDED_BY_FALLBACK_POLICY" + rest
  }

  ghost predicate SubmittedElsewhere(t: Table, row: Row) {
    exists other :: other in t && t[other].jobId == row.jobId && t[other].status == Submitted
  }

  /** What the pass rewrites: blocked, not repaired before, and no run of its job has been submitted. */
  ghost predicate Rewritten(t: Table, id: RunId) {
    id in t && Blocked(t[id]) && !Marked(t[id]) && !SubmittedElsewhere(t, t[id])
  }

  lemma JudgedInColumns(t: Table, id: RunId)
    requires id in t
    ensures Candidate(t[id]) <==> Blocked(t[id])
    ensures AlreadyRepaired(t[id]) <==> Marked(t[id])
    ensures JobSubmitted(t, t[id].jobId) <==> SubmittedElsewhere(t, t[id])
  {
    if t[id].errorLog.Some? {
      var text := t[id].errorLog.value;
      IncludesMeansOccurs(text, MARKER);
      if SUPERSEDED_PREFIX <= text {
        assert text == SUPERSEDED_PREFIX + text[|SUPERSEDED_PREFIX|..];
      }
    }
  }

  /**
   * One pass in columns. A blocked run that has not been repaired before and whose job has no submitted run becomes a
   * retryable failure: failed, without key, reason and label, finished now, its old error kept behind the explanation.
   * Job, owner, times of creation and start, and the stage history stay. Every other run is untouched.
   */
  lemma PassInColumns(t: Table, now: int, id: RunId)
    requires id in t
    ensures Result(t, now)[id] ==
      if Rewritten(t, id) then t[id].(status := Failed, activeKey := None,
        errorLog := Some("SUPERSEDED_BY_FALLBACK_POLICY"
          + (": The incomplete-job-description blocker was removed. "
             + "This run is now retryable and will select a master-resume fallback if needed. Prior error: ")
          + t[id].errorLog.value),
        currentStep := "SUPERSEDED_BY_FALLBACK_POLICY", needsUserActionReason := None, stoppedFieldLabel := None,
        finishedAt := Some(now))
      else t[id]
  {
    JudgedInColumns(t, id);
  }

  /** The runs of the list with a property. */
  ghost function Those(order: seq<RunId>, p: RunId -> bool): set<RunId> {
    set id | id in order && p(id)
  }

  lemma OneMore(front: seq<RunId>, last: RunId, p: RunId -> bool)
    requires last !in front
    ensures |Those(front + [last], p)| == |Those(front, p)| + if p(last) then 1 else 0
  {
    assert Those(front + [last], p) == if p(last) then Those(front, p) + {last} else Those(front, p);
  }

  /** Rewritten while it held a key and had not failed. */
  ghost predicate Freed(t: Table, id: RunId) {
    Rewritten(t, id) && t[id].activeKey != None && t[id].status != Failed
  }

  ghost predicate RepairedBefore(t: Table, id: RunId) {
    id in t && Marked(t[id])
  }

  ghost predicate LeftToItsSubmission(t: Table, id: RunId) {
    id in t && !Marked(t[id]) && SubmittedElsewhere(t, t[id])
  }

  /** The counters, each the number of runs with its property. */
  ghost predicate CountersAre(t: Table, order: seq<RunId>, c: Counts) {
    && c.examined == |order| && c.repaired == |Those(order, id => Rewritten(t, id))|
    && c.already == |Those(order, id => RepairedBefore(t, id))|
    && c.skipped == |Those(order, id => LeftToItsSubmission(t, id))|
    && c.locksCleared == |Those(order, id => Freed(t, id))|
  }

  lemma VerdictInColumns(t: Table, id: RunId)
    requires id in t && Candidate(t[id])
    ensures Judge(t, id) == Repair <==> Rewritten(t, id)
    ensures Judge(t, id) == Already <==> RepairedBefore(t, id)
    ensures Judge(t, id) == SkipSubmitted <==> LeftToItsSubmission(t, id)
    ensures Judge(t, id) == Repair && HadActiveLock(t[id]) <==> Freed(t, id)
  {
    JudgedInColumns(t, id);
  }

  lemma OneMoreCounted(t: Table, front: seq<RunId>, last: RunId, c: Counts)
    requires last in t && Candidate(t[last]) && last !in front && CountersAre(t, front, c)
    ensures CountersAre(t, front + [last], CountOne(c, Judge(t, last), HadActiveLock(t[last])))
  {
    VerdictInColumns(t, last);
    OneMore(front, last, id => Rewritten(t, id));
    OneMore(front, last, id => RepairedBefore(t, id));
    OneMore(front, last, id => LeftToItsSubmission(t, id));
    OneMore(front, last, id => Freed(t, id));
  }

  /** The printed counters are numbers of runs: looked at, rewritten, repaired before, skipped, and freed of a key. */
  lemma {:induction false} CountersInColumns(t: Table, order: seq<RunId>)
    requires NoDuplicates(order) && forall id :: id in order ==> id in t && Candidate(t[id])
    ensures CountersAre(t, order, Tally(t, order))
    decreases |order|
  {
    if order != [] {
      var last, front := order[|order| - 1], order[..|order| - 1];
      assert last in order && forall id :: id in front ==> id in order;
      assert order == front + [last];
      CountersInColumns(t, front);
      OneMoreCounted(t, front, last, Tally(t, front));
    }
  }

  ghost predicate EntriesAre(t: Table, runs: seq<RunId>, entries: seq<AuditEntry>) {
    |entries| == |runs| && forall i :: 0 <= i < |runs| ==>
      runs[i] in t && entries[i] == AuditEntry(t[runs[i]].jobId, "run-superseded-by-fallback-policy", runs[i])
  }

  lemma OneMoreEntry(t: Table, front: seq<RunId>, last: RunId, entries: seq<AuditEntry>)
    requires last in t && Candidate(t[last]) && EntriesAre(t, Filter(front, id => Rewritten(t, id)), entries)
    ensures EntriesAre(t, Filter(front + [last], id => Rewritten(t, id)), entries + NewEntries(t, last))
  {
    VerdictInColumns(t, last);
    FilterConcat(front, [last], id => Rewritten(t, id));
  }

  /** One audit entry for each rewritten run, in the order of the list, naming its job and the run. */
  lemma {:induction false} EntriesInColumns(t: Table, order: seq<RunId>)
    requires forall id :: id in order ==> id in t && Candidate(t[id])
    ensures EntriesAre(t, Filter(order, id => Rewritten(t, id)), Entries(t, order))
    decreases |order|
  {
    if order != [] {
      var last, front := order[|order| - 1], order[..|order| - 1];
      assert last in order && forall id :: id in front ==> id in order;
      assert order == front + [last];
      EntriesInColumns(t, front);
      OneMoreEntry(t, front, last, Entries(t, front));
    }
  }
}
