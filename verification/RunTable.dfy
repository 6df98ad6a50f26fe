/** The shared `ApplicationRun` table and the single-statement writes made to it. */
module RunTable {
  import opened Prelude

  type RunId = string
  type JobId = string

  datatype Status =
    | Queued | Running | NeedsUserAction
    | Filled | Submitted | Failed | Cancelled | Superseded

  /** `userId` is the account the run belongs to; rows from before accounts have none. */
  datatype Row = Row(
    jobId: JobId,
    userId: Option<string>,
    status: Status,
    activeKey: Option<string>,
    stoppedFieldLabel: Option<string>,
    needsUserActionReason: Option<string>,
    createdAt: int,
    startedAt: Option<int>,
    finishedAt: Option<int>,
    currentStep: string,
    stages: seq<string>,
    errorLog: Option<string>
  )

  type Table = map<RunId, Row>

  /** A status that still belongs to a live attempt. */
  predicate Active(status: Status) {
    status == Queued || status == Running || status == NeedsUserAction
  }

  /** `Boolean(run.stoppedFieldLabel)`: a null and an empty label both read as false. */
  predicate Stopped(row: Row) {
    row.stoppedFieldLabel.Some? && row.stoppedFieldLabel.value != ""
  }

  const TEST_SOURCE := "application-worker-test"

  /** Which jobs this worker may touch; `source` is the job's source column. */
  datatype Scope = Scope(testOnly: bool, source: JobId -> Option<string>) {
    predicate Contains(jobId: JobId) {
      if testOnly then source(jobId) == Some(TEST_SOURCE) else source(jobId) != Some(TEST_SOURCE)
    }
  }

  /** The scope rule in one line: a test worker serves exactly the jobs whose source is the test source. */
  ghost predicate Serves(scope: Scope, jobId: JobId) {
    scope.testOnly <==> scope.source(jobId) == Some("application-worker-test")
  }

  /** `updateMany({ where: { id: { in: ids } } })`: ids no longer in the table are ignored. */
  function UpdateMany(t: Table, ids: set<RunId>, write: Row -> Row): (r: Table)
    ensures r.Keys == t.Keys
  {
    map id | id in t :: if id in ids then write(t[id]) else t[id]
  }

  /** The worker's "superseded duplicate" write. */
  function SupersededRow(row: Row, now: int): Row {
    row.(activeKey := None, status := Superseded, currentStep := "Superseded duplicate run", finishedAt := Some(now))
  }

  /** The recovery write. */
  function RequeuedRow(row: Row): Row {
    row.(status := Queued, currentStep := "QUEUED", finishedAt := None)
  }

  /** `history.slice(-100)`. */
  function LastHundred(stages: seq<string>): seq<string> {
    if |stages| <= 100 then stages else stages[|stages| - 100..]
  }

  /** One stage appended, the last hundred kept. */
  function WithStage(row: Row, stage: string): Row {
    row.(currentStep := stage, stages := LastHundred(row.stages + [stage]))
  }

  /** `recordRunStage`. */
  function RecordStage(t: Table, id: RunId, stage: string): (r: Table)
    ensures r.Keys == t.Keys
  {
    UpdateMany(t, {id}, (row: Row) => WithStage(row, stage))
  }

  /** The unique index on `activeKey`. */
  ghost predicate DistinctKeys(t: Table) {
    forall a, b :: a in t && b in t && a != b && t[a].activeKey.Some? ==> t[a].activeKey != t[b].activeKey
  }

  /** Somebody other than `id` already holds `key`: the database refuses the write. */
  predicate KeyTaken(t: Table, id: RunId, key: string) {
    exists other :: other in t && other != id && t[other].activeKey == Some(key)
  }

  /** The unique index lets `id` have the key of `row`. */
  predicate IndexAllows(t: Table, id: RunId, row: Row) {
    row.activeKey.Some? ==> !KeyTaken(t, id, row.activeKey.value)
  }

  /** No in-scope job has two active runs. */
  ghost predicate OneActivePerJob(t: Table, scope: Scope) {
    forall a, b | a in t && b in t && Active(t[a].status) && Active(t[b].status) ::
      t[a].jobId == t[b].jobId && scope.Contains(t[a].jobId) ==> a == b
  }

  /** `u` has the runs of `t`, each for the same job, and activates none of them. */
  ghost predicate ActivatesNothing(t: Table, u: Table) {
    u.Keys <= t.Keys
    && forall id :: id in u ==> u[id].jobId == t[id].jobId && (Active(u[id].status) ==> Active(t[id].status))
  }

  lemma ActivatesNothingKeepsOneActive(t: Table, u: Table, scope: Scope)
    requires ActivatesNothing(t, u) && OneActivePerJob(t, scope)
    ensures OneActivePerJob(u, scope)
  {
    forall a, b | a in u && b in u && Active(u[a].status) && Active(u[b].status)
      ensures u[a].jobId == u[b].jobId && scope.Contains(u[a].jobId) ==> a == b
    {
      assert a in t && b in t;
    }
  }

  // ---- reading in order ----

  /** `order` lists exactly `ids`, oldest first; rows with equal times come in any order. */
  ghost predicate OldestFirst(t: Table, ids: set<RunId>, order: seq<RunId>) {
    && (forall id :: id in order <==> id in ids)
    && NoDuplicates(order)
    && (forall id :: id in ids ==> id in t)
    && (forall i, j :: 0 <= i < j < |order| ==> t[order[i]].createdAt <= t[order[j]].createdAt)
  }

  /** No row of `ids` is older than `id`. */
  predicate IsOldest(t: Table, ids: set<RunId>, id: RunId)
    requires ids <= t.Keys
  {
    id in ids && forall other :: other in ids ==> t[id].createdAt <= t[other].createdAt
  }

  lemma {:induction false} OldestExists(t: Table, ids: set<RunId>)
    requires ids != {} && ids <= t.Keys
    ensures exists id :: IsOldest(t, ids, id)
    decreases |ids|
  {
    var x :| x in ids;
    var rest := ids - {x};
    if rest == {} {
      assert ids == {x};
      assert IsOldest(t, ids, x);
    } else {
      OldestExists(t, rest);
      var y :| IsOldest(t, rest, y);
      assert ids == rest + {x};
      if t[x].createdAt <= t[y].createdAt {
        assert IsOldest(t, ids, x);
      } else {
        assert IsOldest(t, ids, y);
      }
    }
  }

  lemma OldestFirstAppend(t: Table, ids: set<RunId>, order: seq<RunId>, id: RunId)
    requires OldestFirst(t, ids, order) && id in t && id !in ids
    requires forall a :: a in ids ==> t[a].createdAt <= t[id].createdAt
    ensures OldestFirst(t, ids + {id}, order + [id])
  {
    assert forall i :: 0 <= i < |order| ==> order[i] in ids;
  }

  /** The ids not yet listed are no older than those listed, which are in order. */
  ghost predicate PartlyListed(t: Table, ids: set<RunId>, done: set<RunId>, rest: set<RunId>, order: seq<RunId>) {
    && done + rest == ids && done !! rest && OldestFirst(t, done, order)
    && forall a, b :: a in done && b in rest ==> a in t && b in t && t[a].createdAt <= t[b].createdAt
  }

  lemma ListNext(t: Table, ids: set<RunId>, done: set<RunId>, rest: set<RunId>, order: seq<RunId>, id: RunId)
    requires ids <= t.Keys && PartlyListed(t, ids, done, rest, order) && rest <= t.Keys && IsOldest(t, rest, id)
    ensures PartlyListed(t, ids, done + {id}, rest - {id}, order + [id])
  {
    OldestFirstAppend(t, done, order, id);
  }

  /** `findMany({ where: { id in ids }, orderBy: { createdAt: "asc" } })`. */
  method FindManyOldestFirst(t: Table, ids: set<RunId>) returns (order: seq<RunId>)
    requires ids <= t.Keys
    ensures OldestFirst(t, ids, order)
  {
    order := [];
    var rest := ids;
    ghost var done: set<RunId> := {};
    while rest != {}
      invariant PartlyListed(t, ids, done, rest, order)
      decreases |rest|
    {
      OldestExists(t, rest);
      var id :| id in rest && IsOldest(t, rest, id);
      ListNext(t, ids, done, rest, order, id);
      order, rest, done := order + [id], rest - {id}, done + {id};
    }
    assert done == ids;
  }
}
