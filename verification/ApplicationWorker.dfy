/** The application worker: recovery of interrupted runs, polling, claiming, processing, requeueing. */
module ApplicationWorker {
  import opened Prelude
  import opened RunTable
  import opened DuplicateRepair
  import opened DuplicateRepairProofs

  // ---- recovery ----

  predicate Interrupted(row: Row, scope: Scope) {
    row.status == Running && scope.Contains(row.jobId)
  }

  function InterruptedIds(t: Table, scope: Scope): set<RunId> {
    set id | id in t && Interrupted(t[id], scope)
  }

  function Recovered(t: Table, scope: Scope): (r: Table)
    ensures r.Keys == t.Keys
  {
    map id | id in t ::
      if Interrupted(t[id], scope) then RequeuedRow(t[id]).(stages := LastHundred(t[id].stages + ["QUEUED"]))
      else t[id]
  }

  /** No in-scope run is left running, a second recovery finds nothing, and nothing becomes newly active. */
  lemma RecoveryLeavesNoneRunning(t: Table, scope: Scope)
    ensures InterruptedIds(Recovered(t, scope), scope) == {}
    ensures Recovered(Recovered(t, scope), scope) == Recovered(t, scope)
    ensures ActivatesNothing(t, Recovered(t, scope))
    ensures OneActivePerJob(t, scope) ==> OneActivePerJob(Recovered(t, scope), scope)
  {
    if OneActivePerJob(t, scope) {
      ActivatesNothingKeepsOneActive(t, Recovered(t, scope), scope);
    }
  }

  /** One bulk requeue, then one stage record per recovered run. */
  method RecoverInterruptedRuns(store: RunStore, scope: Scope)
    modifies store
    ensures store.rows == Recovered(old(store.rows), scope)
  {
    var t := store.rows;
    var ids := InterruptedIds(t, scope);
    if ids == {} {
      assert forall id :: id in t ==> !Interrupted(t[id], scope) by {
        assert forall id :: id in t && Interrupted(t[id], scope) ==> id in ids;
      }
      return;
    }
    store.rows := UpdateMany(t, ids, (row: Row) => RequeuedRow(row));
    var rest := ids;
    while rest != {}
      invariant rest <= ids
      invariant store.rows == PartlyRecorded(t, scope, rest)
      decreases |rest|
    {
      var id :| id in rest;
      RecordOne(t, scope, rest, id);
      store.rows := RecordStage(store.rows, id, "QUEUED");
      rest := rest - {id};
    }
  }

  /** The recovery write applied to every interrupted run, the stage record not yet to those in `rest`. */
  ghost function PartlyRecorded(t: Table, scope: Scope, rest: set<RunId>): Table {
    map id | id in t ::
      if !Interrupted(t[id], scope) then t[id]
      else if id in rest then RequeuedRow(t[id])
      else RequeuedRow(t[id]).(stages := LastHundred(t[id].stages + ["QUEUED"]))
  }

  lemma RecordOne(t: Table, scope: Scope, rest: set<RunId>, id: RunId)
    requires id in rest && rest <= InterruptedIds(t, scope)
    ensures RecordStage(PartlyRecorded(t, scope, rest), id, "QUEUED") == PartlyRecorded(t, scope, rest - {id})
  {
  }

  // ---- polling ----

  /** `take: 50` on the poll query. */
  const POLL_WINDOW := 50

  function QueuedIds(t: Table): set<RunId> {
    set id | id in t && t[id].status == Queued
  }

  /** Position of the first in-scope run, or the length of the list. */
  function ScopeIndex(t: Table, scope: Scope, order: seq<RunId>): (k: nat)
    requires forall id :: id in order ==> id in t
    ensures k <= |order|
    ensures forall i :: 0 <= i < k ==> !scope.Contains(t[order[i]].jobId)
    ensures k < |order| ==> scope.Contains(t[order[k]].jobId)
  {
    if order == [] || scope.Contains(t[order[0]].jobId) then 0 else 1 + ScopeIndex(t, scope, order[1..])
  }

  /** `candidates.find(inWorkerScope)`. */
  function FirstInScope(t: Table, scope: Scope, order: seq<RunId>): Option<RunId>
    requires forall id :: id in order ==> id in t
  {
    var k := ScopeIndex(t, scope, order);
    if k < |order| then Some(order[k]) else None
  }

  function Window(order: seq<RunId>): seq<RunId> {
    if |order| <= POLL_WINDOW then order else order[..POLL_WINDOW]
  }

  /** The worker's choice, given the queue as the database returned it. */
  function NextQueued(t: Table, scope: Scope, order: seq<RunId>): Option<RunId>
    requires forall id :: id in order ==> id in t
  {
    FirstInScope(t, scope, Window(order))
  }

  /** Whatever is picked is queued, in scope, and not younger than any other in-scope queued run. */
  lemma PickedRunIsOldest(t: Table, scope: Scope, order: seq<RunId>)
    requires OldestFirst(t, QueuedIds(t), order) && NextQueued(t, scope, order).Some?
    ensures var id := NextQueued(t, scope, order).value;
            id in QueuedIds(t) && scope.Contains(t[id].jobId)
            && forall other :: other in QueuedIds(t) && scope.Contains(t[other].jobId) ==>
              t[id].createdAt <= t[other].createdAt
  {
    var id := NextQueued(t, scope, order).value;
    var w := Window(order);
    var k := ScopeIndex(t, scope, w);
    assert order[k] == id;
    forall other | other in QueuedIds(t) && scope.Contains(t[other].jobId)
      ensures t[id].createdAt <= t[other].createdAt
    {
      assert other in order;
      var m :| 0 <= m < |order| && order[m] == other;
      if m < |w| { assert w[m] == other; }
    }
  }

  method NextQueuedRunId(store: RunStore, scope: Scope) returns (next: Option<RunId>, ghost order: seq<RunId>)
    ensures OldestFirst(store.rows, QueuedIds(store.rows), order)
    ensures next == NextQueued(store.rows, scope, order)
    ensures next.Some? ==> IsOldest(store.rows, InScope(store.rows, scope), next.value)
    ensures next.None? && |QueuedIds(store.rows)| <= POLL_WINDOW ==> InScope(store.rows, scope) == {}
  {
    var queue := FindManyOldestFirst(store.rows, QueuedIds(store.rows));
    order := queue;
    next := FirstInScope(store.rows, scope, Window(queue));
    if next.Some? {
      PickedRunIsOldest(store.rows, scope, order);
    } else {
      ShortQueueIsSeenWhole(store.rows, scope, order);
    }
  }

  /** The queued runs this worker may process. */
  function InScope(t: Table, scope: Scope): set<RunId> {
    set id | id in QueuedIds(t) && scope.Contains(t[id].jobId)
  }

  lemma ShortQueueIsSeenWhole(t: Table, scope: Scope, order: seq<RunId>)
    requires OldestFirst(t, QueuedIds(t), order) && NextQueued(t, scope, order).None?
    ensures |QueuedIds(t)| <= POLL_WINDOW ==> InScope(t, scope) == {}
  {
    PrefixSize(order);
    assert ToSet(order) == QueuedIds(t);
    assert forall id :: id in InScope(t, scope) ==> id in order && scope.Contains(t[id].jobId);
  }

  /** Queued runs of the other scope that are older than `id`. */
  function OlderForeign(t: Table, scope: Scope, id: RunId): set<RunId>
    requires id in t
  {
    set other | other in QueuedIds(t) && !scope.Contains(t[other].jobId) && t[other].createdAt < t[id].createdAt
  }

  /** Queued runs of the other scope that are not younger than `id`. */
  function NotYoungerForeign(t: Table, scope: Scope, id: RunId): set<RunId>
    requires id in t
  {
    set other | other in QueuedIds(t) && !scope.Contains(t[other].jobId) && t[other].createdAt <= t[id].createdAt
  }

  /**
   * The window is applied before the scope filter. Fewer than fifty queued runs of the other scope that are not younger
   * than the oldest in-scope run: something is picked. Fifty older ones: nothing is. In between the outcome depends on
   * how the database orders equal times.
   */
  lemma PollFindsOldest(t: Table, scope: Scope, order: seq<RunId>, id: RunId)
    requires OldestFirst(t, QueuedIds(t), order) && IsOldest(t, InScope(t, scope), id)
    ensures |NotYoungerForeign(t, scope, id)| < POLL_WINDOW ==> NextQueued(t, scope, order).Some?
    ensures |OlderForeign(t, scope, id)| >= POLL_WINDOW ==> NextQueued(t, scope, order).None?
    ensures OlderForeign(t, scope, id) == NotYoungerForeign(t, scope, id) ==>
      (NextQueued(t, scope, order).Some? <==> |OlderForeign(t, scope, id)| < POLL_WINDOW)
    ensures NextQueued(t, scope, order).Some? ==> IsOldest(t, InScope(t, scope), NextQueued(t, scope, order).value)
  {
    var k := ScopeIndex(t, scope, order);
    FirstInScopeIsOldest(t, scope, order, id);
    ForeignPrefix(t, scope, order, id, k);
    WindowSeesFirst(t, scope, order);
    if NextQueued(t, scope, order).Some? {
      PickedRunIsOldest(t, scope, order);
    }
  }

  /** The first in-scope run of the list is as old as any. */
  lemma FirstInScopeIsOldest(t: Table, scope: Scope, order: seq<RunId>, id: RunId)
    requires OldestFirst(t, QueuedIds(t), order) && IsOldest(t, InScope(t, scope), id)
    ensures ScopeIndex(t, scope, order) < |order|
    ensures t[order[ScopeIndex(t, scope, order)]].createdAt == t[id].createdAt
  {
    var k := ScopeIndex(t, scope, order);
    assert id in order;
    var m :| 0 <= m < |order| && order[m] == id;
    assert k <= m;
    assert order[k] in QueuedIds(t) && order[k] in InScope(t, scope);
  }

  lemma BeforeIsForeign(t: Table, scope: Scope, order: seq<RunId>, id: RunId, k: nat)
    requires OldestFirst(t, QueuedIds(t), order) && id in t
    requires k == ScopeIndex(t, scope, order) < |order| && t[order[k]].createdAt == t[id].createdAt
    ensures ToSet(order[..k]) <= NotYoungerForeign(t, scope, id)
  {
    forall other | other in order[..k] ensures other in NotYoungerForeign(t, scope, id) {
      var i :| 0 <= i < k && order[i] == other;
      assert order[i] in QueuedIds(t);
    }
  }

  lemma OlderIsBefore(t: Table, scope: Scope, order: seq<RunId>, id: RunId, k: nat)
    requires OldestFirst(t, QueuedIds(t), order) && id in t
    requires k < |order| && t[order[k]].createdAt == t[id].createdAt
    ensures OlderForeign(t, scope, id) <= ToSet(order[..k])
  {
    forall other | other in OlderForeign(t, scope, id) ensures other in order[..k] {
      assert other in order;
      var i :| 0 <= i < |order| && order[i] == other;
      assert i < k;
      assert order[..k][i] == other;
    }
  }

  /** What stands before it is foreign: all the older ones, and none that is younger. */
  lemma ForeignPrefix(t: Table, scope: Scope, order: seq<RunId>, id: RunId, k: nat)
    requires OldestFirst(t, QueuedIds(t), order) && id in t
    requires k == ScopeIndex(t, scope, order) < |order| && t[order[k]].createdAt == t[id].createdAt
    ensures |OlderForeign(t, scope, id)| <= k <= |NotYoungerForeign(t, scope, id)|
  {
    PrefixSize(order[..k]);
    OlderIsBefore(t, scope, order, id, k);
    BeforeIsForeign(t, scope, order, id, k);
    SubsetSize(OlderForeign(t, scope, id), ToSet(order[..k]));
    SubsetSize(ToSet(order[..k]), NotYoungerForeign(t, scope, id));
  }

  lemma SubsetSize(a: set<RunId>, b: set<RunId>)
    requires a <= b
    ensures |a| <= |b|
  {
    assert b == a + (b - a);
  }

  /** Something is picked exactly when the first in-scope run stands within the window. */
  lemma WindowSeesFirst(t: Table, scope: Scope, order: seq<RunId>)
    requires forall id :: id in order ==> id in t
    ensures NextQueued(t, scope, order).Some? <==>
      ScopeIndex(t, scope, order) < |order| && ScopeIndex(t, scope, order) < POLL_WINDOW
  {
    var k, w := ScopeIndex(t, scope, order), Window(order);
    assert forall i :: 0 <= i < |w| ==> w[i] == order[i];
    var m := ScopeIndex(t, scope, w);
    if m < |w| {
      assert scope.Contains(t[order[m]].jobId);
    }
  }

  lemma {:induction false} PrefixSize(s: seq<RunId>)
    requires NoDuplicates(s)
    ensures |ToSet(s)| == |s|
  {
    if s != [] {
      PrefixSize(s[1..]);
      assert s[0] !in s[1..];
      assert ToSet(s) == {s[0]} + ToSet(s[1..]);
    }
  }

  // ---- what the database may answer ----

  lemma {:induction false} SomeOrder(t: Table, ids: set<RunId>) returns (order: seq<RunId>)
    requires ids <= t.Keys
    ensures OldestFirst(t, ids, order)
    decreases |ids|
  {
    if ids == {} {
      return [];
    }
    OldestExists(t, ids);
    var id :| IsOldest(t, ids, id);
    var rest := SomeOrder(t, ids - {id});
    order := [id] + rest;
    assert forall i :: 0 <= i < |rest| ==> rest[i] in ids - {id};
  }

  lemma OrderConcat(t: Table, a: set<RunId>, b: set<RunId>, first: seq<RunId>, second: seq<RunId>)
    requires OldestFirst(t, a, first) && OldestFirst(t, b, second) && a !! b
    requires forall x, y :: x in a && y in b ==> t[x].createdAt <= t[y].createdAt
    ensures OldestFirst(t, a + b, first + second)
  {
    assert forall i :: 0 <= i < |first| ==> first[i] in a;
    assert forall i :: 0 <= i < |second| ==> second[i] in b;
  }

  lemma OrderSize(t: Table, ids: set<RunId>, order: seq<RunId>)
    requires OldestFirst(t, ids, order)
    ensures |order| == |ids| && forall i :: 0 <= i < |order| ==> order[i] in ids
  {
    PrefixSize(order);
    assert ToSet(order) == ids;
  }

  /** An order that puts `a` first reaches no in-scope run before all of `a`, if `a` is foreign. */
  lemma ForeignBlock(t: Table, scope: Scope, a: set<RunId>, first: seq<RunId>, second: seq<RunId>)
    requires OldestFirst(t, a, first) && forall id :: id in second ==> id in t
    requires forall id :: id in a ==> !scope.Contains(t[id].jobId)
    ensures (forall id :: id in first + second ==> id in t) && ScopeIndex(t, scope, first + second) >= |a|
  {
    OrderSize(t, a, first);
    var order := first + second;
    assert forall i :: 0 <= i < |first| ==> order[i] == first[i];
  }

  /** Some answer of the database lists every foreign run that is not younger before the first in-scope run. */
  lemma ForeignFirst(t: Table, scope: Scope, id: RunId) returns (order: seq<RunId>)
    requires IsOldest(t, InScope(t, scope), id)
    ensures OldestFirst(t, QueuedIds(t), order) && ScopeIndex(t, scope, order) >= |NotYoungerForeign(t, scope, id)|
  {
    var a := NotYoungerForeign(t, scope, id);
    var b := QueuedIds(t) - a;
    var first := SomeOrder(t, a);
    var second := SomeOrder(t, b);
    RestIsNotOlder(t, scope, id);
    OrderConcat(t, a, b, first, second);
    assert a + b == QueuedIds(t);
    ForeignBlock(t, scope, a, first, second);
    order := first + second;
  }

  lemma RestIsNotOlder(t: Table, scope: Scope, id: RunId)
    requires IsOldest(t, InScope(t, scope), id)
    ensures forall x, y :: x in NotYoungerForeign(t, scope, id) && y in QueuedIds(t) - NotYoungerForeign(t, scope, id)
              ==> t[x].createdAt <= t[y].createdAt
    ensures forall y :: y in QueuedIds(t) - OlderForeign(t, scope, id) ==> t[id].createdAt <= t[y].createdAt
  {
    forall y | y in QueuedIds(t) ensures scope.Contains(t[y].jobId) ==> t[id].createdAt <= t[y].createdAt {
      assert scope.Contains(t[y].jobId) ==> y in InScope(t, scope);
    }
  }

  /** And some answer lists the oldest in-scope run right after the older foreign ones. */
  lemma OwnFirst(t: Table, scope: Scope, id: RunId) returns (order: seq<RunId>)
    requires IsOldest(t, InScope(t, scope), id)
    ensures OldestFirst(t, QueuedIds(t), order)
    ensures ScopeIndex(t, scope, order) < |order| && ScopeIndex(t, scope, order) <= |OlderForeign(t, scope, id)|
  {
    var a := OlderForeign(t, scope, id);
    var b := QueuedIds(t) - a - {id};
    var first := SomeOrder(t, a);
    var second := SomeOrder(t, b);
    RestIsNotOlder(t, scope, id);
    OrderConcat(t, {id}, b, [id], second);
    OrderConcat(t, a, {id} + b, first, [id] + second);
    assert a + ({id} + b) == QueuedIds(t);
    OrderSize(t, a, first);
    order := first + ([id] + second);
    assert order[|first|] == id;
  }

  /**
   * Exactly when the worker can rely on the poll: whatever order the database gives equal times, it picks an oldest
   * in-scope run if and only if fewer than fifty foreign runs are not younger; and whatever order, it picks nothing if
   * and only if fifty are older.
   */
  lemma PollFindsOldestIff(t: Table, scope: Scope, id: RunId)
    requires IsOldest(t, InScope(t, scope), id)
    ensures (forall order :: OldestFirst(t, QueuedIds(t), order) ==> NextQueued(t, scope, order).Some?)
       <==> |NotYoungerForeign(t, scope, id)| < POLL_WINDOW
    ensures (forall order :: OldestFirst(t, QueuedIds(t), order) ==> NextQueued(t, scope, order).None?)
       <==> |OlderForeign(t, scope, id)| >= POLL_WINDOW
  {
    forall order | OldestFirst(t, QueuedIds(t), order)
      ensures |NotYoungerForeign(t, scope, id)| < POLL_WINDOW ==> NextQueued(t, scope, order).Some?
      ensures |OlderForeign(t, scope, id)| >= POLL_WINDOW ==> NextQueued(t, scope, order).None?
    {
      PollFindsOldest(t, scope, order, id);
    }
    var late := ForeignFirst(t, scope, id);
    WindowSeesFirst(t, scope, late);
    var early := OwnFirst(t, scope, id);
    WindowSeesFirst(t, scope, early);
  }

  /** The queued runs of the table that the worker serves, or that it does not. */
  ghost function Waiting(t: Table, scope: Scope, mine: bool): set<RunId> {
    set id | id in t && t[id].status == Queued && (Serves(scope, t[id].jobId) <==> mine)
  }

  lemma WaitingIsInScope(t: Table, scope: Scope, id: RunId)
    requires id in t
    ensures Waiting(t, scope, true) == InScope(t, scope)
    ensures Waiting(t, scope, true) + Waiting(t, scope, false) == QueuedIds(t)
    ensures OlderForeign(t, scope, id) == set x | x in Waiting(t, scope, false) && t[x].createdAt < t[id].createdAt
    ensures NotYoungerForeign(t, scope, id)
         == set x | x in Waiting(t, scope, false) && t[x].createdAt <= t[id].createdAt
  {
  }

  /**
   * In columns: `id` is a queued run the worker serves, as old as any. For every answer of the poll query a run is
   * picked exactly when fewer than fifty queued runs of the other scope are not younger, and then it is a queued run
   * the worker serves, as old as `id`. For no answer is one picked exactly when fifty are older.
   */
  lemma PollInColumns(t: Table, scope: Scope, id: RunId)
    requires id in Waiting(t, scope, true)
    requires forall other :: other in Waiting(t, scope, true) ==> t[id].createdAt <= t[other].createdAt
    ensures var queue := Waiting(t, scope, true) + Waiting(t, scope, false);
            && ((forall order :: OldestFirst(t, queue, order) ==> NextQueued(t, scope, order).Some?)
                <==> |set x | x in Waiting(t, scope, false) && t[x].createdAt <= t[id].createdAt| < 50)
            && ((forall order :: OldestFirst(t, queue, order) ==> NextQueued(t, scope, order).None?)
                <==> |set x | x in Waiting(t, scope, false) && t[x].createdAt < t[id].createdAt| >= 50)
            && (forall order :: OldestFirst(t, queue, order) && NextQueued(t, scope, order).Some? ==>
                  var picked := NextQueued(t, scope, order).value;
                  picked in Waiting(t, scope, true) && t[picked].createdAt == t[id].createdAt)
  {
    WaitingIsInScope(t, scope, id);
    assert IsOldest(t, InScope(t, scope), id);
    PollFindsOldestIff(t, scope, id);
    forall order | OldestFirst(t, QueuedIds(t), order) && NextQueued(t, scope, order).Some?
      ensures var picked := NextQueued(t, scope, order).value;
              picked in Waiting(t, scope, true) && t[picked].createdAt == t[id].createdAt
    {
      PollFindsOldest(t, scope, order, id);
    }
  }

  function Repeat(n: nat): string {
    if n == 0 then "" else Repeat(n - 1) + "t"
  }

  /** `n` queued runs of one job, all created at time zero. */
  function Crowd(n: nat, row: Row): Table {
    if n == 0 then map[] else Crowd(n - 1, row)[Repeat(n) := row]
  }

  lemma {:induction false} CrowdSize(n: nat, row: Row)
    ensures |Repeat(n)| == n
    ensures forall id :: id in Crowd(n, row) ==> 1 <= |id| <= n && Crowd(n, row)[id] == row
    ensures |Crowd(n, row).Keys| == n
  {
    if n > 0 {
      CrowdSize(n - 1, row);
      assert |Repeat(n)| == n;
      assert Repeat(n) !in Crowd(n - 1, row);
      assert Crowd(n, row).Keys == Crowd(n - 1, row).Keys + {Repeat(n)};
    }
  }

  /** A crowd of queued test runs at time zero, and one later run of an ordinary job. */
  function Crowded(n: nat, row: Row): Table {
    Crowd(n, row.(jobId := "test-job", status := Queued, createdAt := 0))
      ["" := row.(jobId := "job", status := Queued, createdAt := 1)]
  }

  /** A worker that leaves test jobs alone. */
  const ORDINARY := Scope(false, j => if j == "test-job" then Some(TEST_SOURCE) else None)

  lemma OrdinaryScope()
    ensures ORDINARY.Contains("job") && !ORDINARY.Contains("test-job")
  {
    assert |"job"| != |"test-job"|;
  }

  lemma CrowdedRow(n: nat, row: Row, id: RunId)
    requires id in Crowded(n, row)
    ensures Crowded(n, row)[id].status == Queued
    ensures if id == "" then Crowded(n, row)[id].jobId == "job" && Crowded(n, row)[id].createdAt == 1
            else Crowded(n, row)[id].jobId == "test-job" && Crowded(n, row)[id].createdAt == 0
  {
    CrowdSize(n, row.(jobId := "test-job", status := Queued, createdAt := 0));
  }

  lemma CrowdIsOlder(n: nat, row: Row)
    ensures "" in Crowded(n, row) && |OlderForeign(Crowded(n, row), ORDINARY, "")| == n
    ensures InScope(Crowded(n, row), ORDINARY) == {""}
  {
    var t := Crowded(n, row);
    OrdinaryScope();
    forall id | id in t ensures id in OlderForeign(t, ORDINARY, "") <==> id != "" {
      CrowdedRow(n, row, id);
      CrowdedRow(n, row, "");
    }
    forall id | id in t ensures id in InScope(t, ORDINARY) <==> id == "" {
      CrowdedRow(n, row, id);
    }
    CrowdSize(n, row.(jobId := "test-job", status := Queued, createdAt := 0));
    assert OlderForeign(t, ORDINARY, "") == Crowd(n, row.(jobId := "test-job", status := Queued, createdAt := 0)).Keys;
  }

  /** Fifty older runs of the other scope, or more, hide the only run this worker could process. */
  lemma FiftyForeignRunsStarveTheQueue(n: nat, row: Row, order: seq<RunId>)
    requires n >= POLL_WINDOW && OldestFirst(Crowded(n, row), QueuedIds(Crowded(n, row)), order)
    ensures InScope(Crowded(n, row), ORDINARY) == {""} && NextQueued(Crowded(n, row), ORDINARY, order) == None
  {
    CrowdIsOlder(n, row);
    assert IsOldest(Crowded(n, row), InScope(Crowded(n, row), ORDINARY), "");
    PollFindsOldest(Crowded(n, row), ORDINARY, order, "");
  }

  // ---- claiming and requeueing ----

  function ClaimedRow(row: Row, now: int): Row {
    row.(status := Running, currentStep := "STARTING_BROWSER", startedAt := Some(now), finishedAt := None)
  }

  /** `updateMany({ where: { id, status: "queued" } })`: the compare-and-set. */
  function Claim(t: Table, id: RunId, now: int): (r: (Table, bool))
    ensures r.0.Keys == t.Keys
  {
    if id in t && t[id].status == Queued then (t[id := ClaimedRow(t[id], now)], true) else (t, false)
  }

  /** Two rows that differ at most in status, step, stage history, start and finish. */
  ghost predicate SameRun(a: Row, b: Row) {
    && a.jobId == b.jobId && a.userId == b.userId && a.createdAt == b.createdAt
    && a.activeKey == b.activeKey && a.stoppedFieldLabel == b.stoppedFieldLabel
    && a.needsUserActionReason == b.needsUserActionReason && a.errorLog == b.errorLog
  }

  /**
   * What a claim that is recorded leaves, column by column: a queued run is running, at step STARTING_BROWSER, which is
   * also its newest stage, started now and not finished; its other columns and every other run are as before. Any other
   * run is not claimed, and nothing changes.
   */
  lemma ClaimMakesRunning(t: Table, id: RunId, now: int)
    ensures Claim(t, id, now).1 <==> id in t && t[id].status == Queued
    ensures !Claim(t, id, now).1 ==> Claim(t, id, now).0 == t
    ensures Claim(t, id, now).1 ==>
      var u := RecordStage(Claim(t, id, now).0, id, "STARTING_BROWSER");
      && u.Keys == t.Keys && (forall other :: other in t && other != id ==> u[other] == t[other])
      && u[id].status == Running && u[id].currentStep == "STARTING_BROWSER"
      && u[id].startedAt == Some(now) && u[id].finishedAt == None && SameRun(u[id], t[id])
      && u[id].stages != [] && u[id].stages[|u[id].stages| - 1] == "STARTING_BROWSER"
      && u[id].stages[..|u[id].stages| - 1] == if |t[id].stages| < 100 then t[id].stages
           else t[id].stages[|t[id].stages| - 99..]
  {
    if Claim(t, id, now).1 {
      var u := RecordStage(Claim(t, id, now).0, id, "STARTING_BROWSER");
      var all := t[id].stages + ["STARTING_BROWSER"];
      assert u[id].stages == LastHundred(all);
      assert all[|all| - 1] == "STARTING_BROWSER" && all[..|t[id].stages|] == t[id].stages;
    }
  }

  /** Of two claims of one run, one right after the other, the second never wins and changes nothing. */
  lemma AtMostOneClaimWins(t: Table, id: RunId, now: int, later: int)
    ensures var first := Claim(t, id, now); var second := Claim(first.0, id, later);
            !second.1 && second.0 == first.0
  {
  }

  /** The exception handler's write: back to queued, but only while still running. */
  function Requeue(t: Table, id: RunId): (r: Table)
    ensures r.Keys == t.Keys
  {
    if id in t && t[id].status == Running then t[id := t[id].(status := Queued, currentStep := "QUEUED")] else t
  }

  method ClaimRun(store: RunStore, id: RunId, now: int) returns (won: bool)
    modifies store
    ensures won == Claim(old(store.rows), id, now).1
    ensures store.rows == if won then RecordStage(Claim(old(store.rows), id, now).0, id, "STARTING_BROWSER")
                          else old(store.rows)
  {
    var (rows, claimed) := Claim(store.rows, id, now);
    store.rows := rows;
    if claimed {
      store.rows := RecordStage(store.rows, id, "STARTING_BROWSER");
    }
    won := claimed;
  }

  /** What `processApplicationRun` did to its own row, and whether it threw afterwards. */
  datatype Work = Work(write: Row -> Row, threw: bool)

  function ProcessOwn(t: Table, id: RunId, write: Row -> Row): Table {
    UpdateMany(t, {id}, write)
  }

  /** The table after the processor and, if it threw, the exception handler. */
  function Processed(t: Table, id: RunId, work: Work): Table {
    var processed := ProcessOwn(t, id, work.write);
    if work.threw then RecordStage(Requeue(processed, id), id, "QUEUED") else processed
  }

  /** The table after one full turn of the loop that picked `id`. */
  function AfterTurn(t: Table, id: RunId, now: int, work: Work): Table {
    if !Claim(t, id, now).1 then t
    else Processed(RecordStage(Claim(t, id, now).0, id, "STARTING_BROWSER"), id, work)
  }

  /** A turn of the loop writes no run but the one it picked, and creates and deletes none. */
  lemma TurnTouchesOnlyItsRun(t: Table, id: RunId, now: int, work: Work)
    ensures AfterTurn(t, id, now, work).Keys == t.Keys
    ensures forall other :: other in t && other != id ==> AfterTurn(t, id, now, work)[other] == t[other]
  {
  }

  /**
   * The stage record of the exception handler is not conditional on the requeue: after a throw the
   * step always reads QUEUED, and it agrees with the status exactly when the processor left its row
   * running or queued.
   */
  lemma ThrowRecordsQueuedStep(t: Table, id: RunId, now: int, work: Work)
    requires id in t && t[id].status == Queued && work.threw
    ensures var r := AfterTurn(t, id, now, work)[id];
            var left := work.write(RecordStage(Claim(t, id, now).0, id, "STARTING_BROWSER")[id]).status;
            r.currentStep == "QUEUED" && (r.status == Queued <==> left == Running || left == Queued)
  {
  }

  /**
   * The processor marks its run failed and then throws, as when a later write of the same handler is refused: the run
   * ends failed, with a step that says QUEUED.
   */
  lemma FailedRunSaysQueued(t: Table, id: RunId, now: int)
    requires id in t && t[id].status == Queued
    ensures var work := Work((row: Row) => row.(status := Failed, currentStep := "FAILED"), true);
            var r := AfterTurn(t, id, now, work)[id]; r.status == Failed && r.currentStep == "QUEUED"
  {
    ThrowRecordsQueuedStep(t, id, now, Work((row: Row) => row.(status := Failed, currentStep := "FAILED"), true));
  }

  /**
   * A turn in columns: the processor gets the claimed row, and what it writes stays unless it throws. Then a run it
   * left running is queued again, and in any case the step, also as newest stage, reads QUEUED; its other columns stay.
   */
  lemma TurnInColumns(t: Table, id: RunId, now: int, work: Work)
    requires id in t && t[id].status == Queued
    ensures var written := work.write(RecordStage(Claim(t, id, now).0, id, "STARTING_BROWSER")[id]);
            var r := AfterTurn(t, id, now, work)[id];
            && (!work.threw ==> r == written)
            && (work.threw ==>
                  && r == written.(status := if written.status == Running then Queued else written.status,
                                   currentStep := "QUEUED", stages := r.stages)
                  && r.stages != [] && r.stages[|r.stages| - 1] == "QUEUED")
  {
  }

  /** A turn that claims a run and whose processor throws before writing anything leaves the run queued again. */
  lemma UntouchedRunIsRequeued(t: Table, id: RunId, now: int, work: Work)
    requires id in t && t[id].status == Queued && work.threw && forall row :: work.write(row) == row
    ensures var r := AfterTurn(t, id, now, work)[id];
            r.status == Queued && r.currentStep == "QUEUED" && r.startedAt == Some(now) && SameRun(r, t[id])
  {
  }

  class Worker {
    const scope: Scope
    const store: RunStore
    var processing: Option<RunId>

    constructor (scope: Scope, store: RunStore)
      ensures this.scope == scope && this.store == store && processing == None
    {
      this.scope := scope;
      this.store := store;
      processing := None;
    }

    /** Repair, then recovery. A refused key ends startup before recovery. */
    method Start(now: int) returns (ready: bool, ghost active: seq<RunId>)
      modifies store
      ensures Fetched(old(store.rows), active)
      ensures ready <==> AllKeysFree(old(store.rows), Jobs(old(store.rows), scope, active))
      ensures ready ==> store.rows == Recovered(FullyRepaired(old(store.rows), scope, active, now), scope)
      ensures !ready ==> exists k :: StoppedAt(old(store.rows), scope, active, k, store.rows, now)
    {
      ready, active := RepairDuplicateRuns(store, scope, now);
      if ready {
        RecoverInterruptedRuns(store, scope);
      }
    }

    /** The claimed run: process it, and requeue it if that threw. */
    method ProcessClaimed(id: RunId, work: Work)
      modifies this, store
      ensures store.rows == Processed(old(store.rows), id, work) && processing == None
    {
      processing := Some(id);
      store.rows := ProcessOwn(store.rows, id, work.write);
      if work.threw {
        store.rows := Requeue(store.rows, id);
        store.rows := RecordStage(store.rows, id, "QUEUED");
      }
      processing := None;
    }

    /** One turn of `while (!stopping)`. */
    method PollOnce(now: int, work: Work) returns (picked: Option<RunId>, ghost order: seq<RunId>)
      modifies this, store
      ensures OldestFirst(old(store.rows), QueuedIds(old(store.rows)), order)
      ensures picked == NextQueued(old(store.rows), scope, order)
      ensures store.rows == if picked.None? then old(store.rows)
          else AfterTurn(old(store.rows), picked.value, now, work)
      ensures picked.Some? && Claim(old(store.rows), picked.value, now).1 ==> processing == None
    {
      picked, order := NextQueuedRunId(store, scope);
      if picked.Some? {
        var won := ClaimRun(store, picked.value, now);
        if won {
          ProcessClaimed(picked.value, work);
        }
      }
    }
  }

  /** After a start that succeeds: nothing in scope is running and no in-scope job has two active runs. */
  lemma StartLeavesCleanQueue(t: Table, scope: Scope, active: seq<RunId>, now: int)
    requires Fetched(t, active)
    ensures var u := Recovered(FullyRepaired(t, scope, active, now), scope);
            u.Keys == t.Keys && InterruptedIds(u, scope) == {} && OneActivePerJob(u, scope)
            && (forall id :: id in t && !scope.Contains(t[id].jobId) ==> u[id] == t[id])
            && (forall id :: id in t && !Active(t[id].status) ==> u[id] == t[id])
  {
    RepairLeavesOneActive(t, scope, active, now);
    RecoveryLeavesNoneRunning(FullyRepaired(t, scope, active, now), scope);
    assert forall id :: id in t && !Active(t[id].status) ==>
      Recovered(FullyRepaired(t, scope, active, now), scope)[id] == t[id];
  }

  /** What the recovery leaves, column by column. */
  lemma RecoveredInColumns(t: Table, scope: Scope, id: RunId)
    requires id in t
    ensures var r := Recovered(t, scope)[id];
            if t[id].status == Running && Serves(scope, t[id].jobId)
            then r.status == Queued && r.currentStep == "QUEUED" && r.finishedAt == None && SameRun(r, t[id])
                 && r.startedAt == t[id].startedAt && r.stages != [] && r.stages[|r.stages| - 1] == "QUEUED"
            else r == t[id]
  {
  }

  /** A crash and a restart leave a running in-scope run queued, or superseded beside a kept run of its job. */
  lemma RunningRunAfterRestart(c: Table, scope: Scope, id: RunId, active: seq<RunId>, later: int)
    requires id in c && c[id].status == Running && scope.Contains(c[id].jobId) && Fetched(c, active)
    ensures var u := Recovered(FullyRepaired(c, scope, active, later), scope);
            || (u[id].status == Queued && u[id].currentStep == "QUEUED" && u[id].activeKey == Some(c[id].jobId))
            || (u[id].status == Superseded && exists s ::
                  && s in c && s != id && c[s].jobId == c[id].jobId
                  && c[s].status in {Queued, Running, NeedsUserAction} && u[s].status in {Queued, NeedsUserAction})
  {
    var r := FullyRepaired(c, scope, active, later);
    RepairVerdict(c, scope, active, later, id);
    RecoveredInColumns(r, scope, id);
    var s := Survivors(c, scope, active)[c[id].jobId];
    SurvivorIsActive(c, scope, active, c[id].jobId);
    if s != id {
      RepairVerdict(c, scope, active, later, s);
      RecoveredInColumns(r, scope, s);
    }
  }

  /**
   * A run is claimed, the worker crashes, and the next start is not refused: the run is queued again, or another active
   * run of its job has been kept in its place. With no other active run of its job it is always queued again.
   */
  lemma ClaimedRunIsQueuedAfterRestart(t: Table, scope: Scope, id: RunId, now: int, active: seq<RunId>, later: int)
    requires id in t && t[id].status == Queued && Serves(scope, t[id].jobId)
    requires Fetched(RecordStage(Claim(t, id, now).0, id, "STARTING_BROWSER"), active)
    ensures var c := RecordStage(Claim(t, id, now).0, id, "STARTING_BROWSER");
            var u := Recovered(FullyRepaired(c, scope, active, later), scope);
            || (u[id].status == Queued && u[id].currentStep == "QUEUED" && u[id].activeKey == Some(t[id].jobId))
            || (u[id].status == Superseded && exists s ::
                  && s in t && s != id && t[s].jobId == t[id].jobId
                  && t[s].status in {Queued, Running, NeedsUserAction} && u[s].status in {Queued, NeedsUserAction})
  {
    ClaimMakesRunning(t, id, now);
    RunningRunAfterRestart(RecordStage(Claim(t, id, now).0, id, "STARTING_BROWSER"), scope, id, active, later);
  }
}
