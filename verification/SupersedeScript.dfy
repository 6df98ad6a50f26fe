/** The maintenance script that marks duplicate running or paused runs as superseded. */
module SupersedeScript {
  import opened Prelude
  import opened RunTable
  import opened DuplicateRepair
  import opened DuplicateRepairProofs

  /** What the script fetches: it does not look at queued runs. */
  predicate Live(status: Status) {
    status == Running || status == NeedsUserAction
  }

  /** The script has no worker scope: every job takes part. */
  const EVERY_JOB := Scope(false, j => None)

  function LiveIds(t: Table): set<RunId> {
    set id | id in t && Live(t[id].status)
  }

  /** The script's write. Unlike the worker's, it leaves `activeKey` alone. */
  function RetiredRow(row: Row, now: int): Row {
    row.(status := Superseded, finishedAt := Some(now))
  }

  function Extra(t: Table, keep: map<JobId, RunId>, done: set<JobId>): set<RunId>
    requires done <= keep.Keys
  {
    set id | id in t && Live(t[id].status) && t[id].jobId in done && keep[t[id].jobId] != id
  }

  function Thinned(t: Table, keep: map<JobId, RunId>, done: set<JobId>, now: int): (r: Table)
    requires done <= keep.Keys
    ensures r.Keys == t.Keys
  {
    UpdateMany(t, Extra(t, keep, done), (row: Row) => RetiredRow(row, now))
  }

  /** The table the script leaves. */
  function Result(t: Table, live: seq<RunId>, now: int): (r: Table)
    requires forall id :: id in live ==> id in t
    ensures r.Keys == t.Keys
  {
    Thinned(t, Survivors(t, EVERY_JOB, live), ToSet(Jobs(t, EVERY_JOB, live)), now)
  }

  lemma ThinStep(t: Table, keep: map<JobId, RunId>, done: set<JobId>, jobId: JobId, ids: set<RunId>, now: int)
    requires done <= keep.Keys && jobId in keep && jobId !in done
    requires forall id :: id in ids <==> id in t && Live(t[id].status) && t[id].jobId == jobId && id != keep[jobId]
    ensures UpdateMany(Thinned(t, keep, done, now), ids, (row: Row) => RetiredRow(row, now))
        == Thinned(t, keep, done + {jobId}, now)
    ensures |Extra(t, keep, done + {jobId})| == |Extra(t, keep, done)| + |ids|
  {
    assert Extra(t, keep, done + {jobId}) == Extra(t, keep, done) + ids;
  }

  lemma GroupOfLive(t: Table, live: seq<RunId>, jobId: JobId)
    requires OldestFirst(t, LiveIds(t), live) && jobId in Jobs(t, EVERY_JOB, live)
    ensures var group := Members(t, live, jobId);
            && jobId in Survivors(t, EVERY_JOB, live) && group != []
            && Canonical(t, group) == Survivors(t, EVERY_JOB, live)[jobId]
            && (forall id :: id in group <==> id in t && Live(t[id].status) && t[id].jobId == jobId)
            && NoDuplicates(group)
  {
    FilterNoDuplicates(live, id => id in t && t[id].jobId == jobId);
  }

  lemma EarlierJobs(t: Table, live: seq<RunId>, k: nat)
    requires OldestFirst(t, LiveIds(t), live) && k < |Jobs(t, EVERY_JOB, live)|
    ensures var keys := Jobs(t, EVERY_JOB, live);
            && keys[k] in keys && ToSet(keys[..k]) <= Survivors(t, EVERY_JOB, live).Keys && keys[k] !in ToSet(keys[..k])
            && ToSet(keys[..k + 1]) == ToSet(keys[..k]) + {keys[k]}
  {
    PrefixSet(Jobs(t, EVERY_JOB, live), k);
  }

  /** A group shorter than two has nothing but its survivor. */
  lemma SingletonGroup(group: seq<RunId>, canonical: RunId)
    requires canonical in group && NoDuplicates(group)
    ensures |group| < 2 <==> (forall id :: id in group ==> id == canonical)
  {
    if |group| >= 2 {
      assert group[0] != group[1] && group[0] in group && group[1] in group;
    }
  }

  /** One job: returns how many runs were marked, none when it has a single running or paused run. */
  method ThinJob(store: RunStore, t: Table, ghost keep: map<JobId, RunId>, ghost done: set<JobId>, jobId: JobId,
                 group: seq<RunId>, now: int)
    returns (count: nat)
    requires done <= keep.Keys && jobId in keep && jobId !in done
    requires forall id :: id in group <==> id in t && Live(t[id].status) && t[id].jobId == jobId
    requires group != [] && NoDuplicates(group) && keep[jobId] == Canonical(t, group)
    requires store.rows == Thinned(t, keep, done, now)
    modifies store
    ensures store.rows == Thinned(t, keep, done + {jobId}, now)
    ensures |Extra(t, keep, done + {jobId})| == |Extra(t, keep, done)| + count
  {
    var canonical := Canonical(t, group);
    var ids := set id | id in group && id != canonical;
    ThinStep(t, keep, done, jobId, ids, now);
    SingletonGroup(group, canonical);
    if |group| < 2 {
      assert ids == {};
      assert UpdateMany(store.rows, {}, (row: Row) => RetiredRow(row, now)) == store.rows;
      return 0;
    }
    store.rows := UpdateMany(store.rows, ids, (row: Row) => RetiredRow(row, now));
    return |ids|;
  }

  /** The first `k` jobs have been thinned, and so many runs marked. */
  ghost predicate ThinnedUpTo(
    t: Table, keys: seq<JobId>, keep: map<JobId, RunId>, k: nat, rows: Table, count: nat, now: int)
  {
    k <= |keys| && ToSet(keys[..k]) <= keep.Keys && rows == Thinned(t, keep, ToSet(keys[..k]), now)
    && count == |Extra(t, keep, ToSet(keys[..k]))|
  }

  lemma AllThinned(t: Table, keys: seq<JobId>, keep: map<JobId, RunId>, rows: Table, count: nat, now: int)
    requires ThinnedUpTo(t, keys, keep, |keys|, rows, count, now)
    ensures ToSet(keys) <= keep.Keys && rows == Thinned(t, keep, ToSet(keys), now)
    ensures count == |Extra(t, keep, ToSet(keys))|
  {
    assert keys[..|keys|] == keys;
  }

  /** The turn of the loop for the `k`-th job. */
  method ThinListed(store: RunStore, t: Table, ghost live: seq<RunId>, ghost keep: map<JobId, RunId>, keys: seq<JobId>,
      k: nat, group: seq<RunId>, ghost before: nat, now: int) returns (count: nat)
    requires OldestFirst(t, LiveIds(t), live) && keys == Jobs(t, EVERY_JOB, live) && k < |keys|
    requires keep == Survivors(t, EVERY_JOB, live) && group == Members(t, live, keys[k])
    requires ThinnedUpTo(t, keys, keep, k, store.rows, before, now)
    modifies store
    ensures ThinnedUpTo(t, keys, keep, k + 1, store.rows, before + count, now)
  {
    EarlierJobs(t, live, k);
    GroupOfLive(t, live, keys[k]);
    count := ThinJob(store, t, keep, ToSet(keys[..k]), keys[k], group, now);
  }

  /** The loop over the groups. */
  method ThinAll(store: RunStore, t: Table, ghost live: seq<RunId>, ghost keep: map<JobId, RunId>, keys: seq<JobId>,
      byJob: map<JobId, seq<RunId>>, now: int) returns (superseded: nat)
    requires OldestFirst(t, LiveIds(t), live) && keys == Jobs(t, EVERY_JOB, live) && store.rows == t
    requires keep == Survivors(t, EVERY_JOB, live)
    requires forall k :: 0 <= k < |keys| ==> keys[k] in byJob && byJob[keys[k]] == Members(t, live, keys[k])
    modifies store
    ensures ThinnedUpTo(t, keys, keep, |keys|, store.rows, superseded, now)
  {
    superseded := 0;
    assert UpdateMany(t, {}, (row: Row) => RetiredRow(row, now)) == t;
    for k := 0 to |keys|
      invariant ThinnedUpTo(t, keys, keep, k, store.rows, superseded, now)
    {
      var count := ThinListed(store, t, live, keep, keys, k, byJob[keys[k]], superseded, now);
      superseded := superseded + count;
    }
  }

  /** `main`: returns the number of runs it marked. */
  method SupersedeDuplicates(store: RunStore, now: int) returns (superseded: nat, ghost live: seq<RunId>)
    modifies store
    ensures OldestFirst(old(store.rows), LiveIds(old(store.rows)), live)
    ensures store.rows == Result(old(store.rows), live, now)
    ensures superseded == |Extra(old(store.rows), Survivors(old(store.rows), EVERY_JOB, live),
                                 ToSet(Jobs(old(store.rows), EVERY_JOB, live)))|
  {
    var t := store.rows;
    var runs := FindManyOldestFirst(t, LiveIds(t));
    live := runs;
    var keys, byJob := GroupByJob(t, EVERY_JOB, runs);
    ghost var keep := Survivors(t, EVERY_JOB, runs);
    superseded := ThinAll(store, t, runs, keep, keys, byJob, now);
    AllThinned(t, keys, keep, store.rows, superseded, now);
  }

  lemma LiveVerdict(t: Table, live: seq<RunId>, now: int, id: RunId)
    requires OldestFirst(t, LiveIds(t), live) && id in t
    ensures var u := Result(t, live, now);
            if Live(t[id].status) then
              t[id].jobId in Survivors(t, EVERY_JOB, live) &&
              u[id] == if Survivors(t, EVERY_JOB, live)[t[id].jobId] == id then t[id] else RetiredRow(t[id], now)
            else u[id] == t[id]
  {
    if Live(t[id].status) {
      assert id in live;
    }
  }

  /** Every job keeps exactly one of its running or paused runs, the least in the repair's order. */
  lemma ScriptKeepsTheLeast(t: Table, live: seq<RunId>, now: int, id: RunId)
    requires OldestFirst(t, LiveIds(t), live) && id in t && Live(t[id].status)
    ensures var u := Result(t, live, now);
            exists s :: s in t && t[s].jobId == t[id].jobId && Live(t[s].status) && u[s] == t[s] && !Before(t, id, s)
              && (s != id ==> u[id] == RetiredRow(t[id], now))
  {
    LiveVerdict(t, live, now, id);
    var s := Survivors(t, EVERY_JOB, live)[t[id].jobId];
    LiveVerdict(t, live, now, s);
    assert id in Members(t, live, t[id].jobId);
  }

  /** A running or paused run of the job, which is all the script looks at. */
  ghost predicate Candidate(t: Table, jobId: JobId, id: RunId) {
    id in t && t[id].jobId == jobId && t[id].status in {Running, NeedsUserAction}
  }

  /** `s` is the run the script leaves: labelled if any candidate is, the oldest of those; the others are marked. */
  ghost predicate LeftRun(t: Table, u: Table, jobId: JobId, s: RunId, now: int) {
    && Candidate(t, jobId, s) && u.Keys == t.Keys && u[s] == t[s]
    && (forall other :: Candidate(t, jobId, other) ==>
          && (Labelled(t, other) ==> Labelled(t, s))
          && ((Labelled(t, other) <==> Labelled(t, s)) ==> t[s].createdAt <= t[other].createdAt)
          && (other != s ==> u[other] == t[other].(status := Superseded, finishedAt := Some(now))))
  }

  /** The survivor of the job, and how it stands to another candidate. */
  lemma SurvivorBeats(t: Table, live: seq<RunId>, jobId: JobId, other: RunId) returns (s: RunId)
    requires OldestFirst(t, LiveIds(t), live) && Candidate(t, jobId, other)
    ensures jobId in Survivors(t, EVERY_JOB, live) && s == Survivors(t, EVERY_JOB, live)[jobId]
    ensures Candidate(t, jobId, s) && !Before(t, other, s)
  {
    assert other in live && other in Members(t, live, jobId);
    s := Survivors(t, EVERY_JOB, live)[jobId];
    SurvivorIsLive(t, live, jobId);
  }

  lemma NotBeforeInColumns(t: Table, other: RunId, s: RunId)
    requires other in t && s in t && !Before(t, other, s)
    ensures Labelled(t, other) ==> Labelled(t, s)
    ensures (Labelled(t, other) <==> Labelled(t, s)) ==> t[s].createdAt <= t[other].createdAt
  {
  }

  lemma CandidateAfter(t: Table, live: seq<RunId>, now: int, jobId: JobId, other: RunId)
    requires OldestFirst(t, LiveIds(t), live) && Candidate(t, jobId, other) && jobId in Survivors(t, EVERY_JOB, live)
    ensures Result(t, live, now)[other] == if other == Survivors(t, EVERY_JOB, live)[jobId] then t[other]
                                           else t[other].(status := Superseded, finishedAt := Some(now))
  {
    LiveVerdict(t, live, now, other);
  }

  lemma SurvivorIsLeft(t: Table, live: seq<RunId>, now: int, jobId: JobId, id: RunId)
    requires OldestFirst(t, LiveIds(t), live) && Candidate(t, jobId, id)
    ensures jobId in Survivors(t, EVERY_JOB, live)
    ensures LeftRun(t, Result(t, live, now), jobId, Survivors(t, EVERY_JOB, live)[jobId], now)
  {
    var s := SurvivorBeats(t, live, jobId, id);
    CandidateAfter(t, live, now, jobId, s);
    forall other | Candidate(t, jobId, other)
      ensures Labelled(t, other) ==> Labelled(t, s)
      ensures (Labelled(t, other) <==> Labelled(t, s)) ==> t[s].createdAt <= t[other].createdAt
      ensures other != s ==>
        Result(t, live, now)[other] == t[other].(status := Superseded, finishedAt := Some(now))
    {
      var same := SurvivorBeats(t, live, jobId, other);
      NotBeforeInColumns(t, other, s);
      CandidateAfter(t, live, now, jobId, other);
    }
  }

  lemma OthersStay(t: Table, live: seq<RunId>, now: int, id: RunId)
    requires OldestFirst(t, LiveIds(t), live) && id in t && !Candidate(t, t[id].jobId, id)
    ensures Result(t, live, now)[id] == t[id]
  {
    LiveVerdict(t, live, now, id);
  }

  /**
   * Of the running and paused runs of a job one is left alone: one paused on a field if there is one, and among runs
   * alike in this the oldest. The others are marked superseded, and keep all else, their key included. Every other run
   * of the table, queued ones included, is untouched.
   */
  lemma ScriptInColumns(t: Table, live: seq<RunId>, now: int, jobId: JobId)
    requires OldestFirst(t, LiveIds(t), live)
    ensures (exists id :: Candidate(t, jobId, id)) ==> exists s :: LeftRun(t, Result(t, live, now), jobId, s, now)
    ensures forall id :: id in t && !Candidate(t, t[id].jobId, id) ==> Result(t, live, now)[id] == t[id]
  {
    var u := Result(t, live, now);
    if id :| Candidate(t, jobId, id) {
      SurvivorIsLeft(t, live, now, jobId, id);
    }
    forall id | id in t && !Candidate(t, t[id].jobId, id) ensures u[id] == t[id] {
      OthersStay(t, live, now, id);
    }
  }

  /** The printed count is the number of running and paused runs that are superseded afterwards. */
  lemma MarkedAreCounted(t: Table, live: seq<RunId>, now: int)
    requires OldestFirst(t, LiveIds(t), live)
    ensures Extra(t, Survivors(t, EVERY_JOB, live), ToSet(Jobs(t, EVERY_JOB, live)))
         == set id | id in t && t[id].status in {Running, NeedsUserAction}
              && Result(t, live, now)[id].status == Superseded
  {
    forall id | id in t
      ensures id in Extra(t, Survivors(t, EVERY_JOB, live), ToSet(Jobs(t, EVERY_JOB, live))) <==>
        t[id].status in {Running, NeedsUserAction} && Result(t, live, now)[id].status == Superseded
    {
      LiveVerdict(t, live, now, id);
    }
  }

  /** The script keeps "one active run per job" in every scope. */
  lemma ScriptKeepsOneActive(t: Table, live: seq<RunId>, now: int, scope: Scope)
    requires OldestFirst(t, LiveIds(t), live) && OneActivePerJob(t, scope)
    ensures OneActivePerJob(Result(t, live, now), scope)
  {
    ActivatesNothingKeepsOneActive(t, Result(t, live, now), scope);
  }

  /** Two active runs of one in-scope job of which at least one is still queued. */
  ghost predicate QueuedClash(t: Table, scope: Scope, a: RunId, b: RunId) {
    a in t && b in t && a != b && t[a].status == Queued && Active(t[b].status)
    && t[a].jobId == t[b].jobId && scope.Contains(t[a].jobId)
  }

  /** Since queued runs are not fetched, the script establishes the invariant exactly when no queued run clashes. */
  lemma ScriptEstablishesOneActiveIff(t: Table, live: seq<RunId>, now: int, scope: Scope)
    requires OldestFirst(t, LiveIds(t), live)
    ensures OneActivePerJob(Result(t, live, now), scope) <==> forall a, b :: !QueuedClash(t, scope, a, b)
  {
    if a, b :| QueuedClash(t, scope, a, b) {
      ClashSurvives(t, live, now, scope, a, b);
    } else {
      NoClashNoDuplicates(t, live, now, scope);
    }
  }

  /** What is active afterwards was active before: still queued, or the one its job keeps. */
  lemma ActiveAfterScript(t: Table, live: seq<RunId>, now: int, id: RunId)
    requires OldestFirst(t, LiveIds(t), live) && id in t && Active(Result(t, live, now)[id].status)
    ensures Result(t, live, now)[id] == t[id]
    ensures t[id].status != Queued ==>
      t[id].jobId in Survivors(t, EVERY_JOB, live) && Survivors(t, EVERY_JOB, live)[t[id].jobId] == id
  {
    LiveVerdict(t, live, now, id);
  }

  lemma NoClashNoDuplicates(t: Table, live: seq<RunId>, now: int, scope: Scope)
    requires OldestFirst(t, LiveIds(t), live) && forall a, b :: !QueuedClash(t, scope, a, b)
    ensures OneActivePerJob(Result(t, live, now), scope)
  {
    var u := Result(t, live, now);
    forall a, b | a in u && b in u && Active(u[a].status) && Active(u[b].status)
                  && u[a].jobId == u[b].jobId && scope.Contains(u[a].jobId)
      ensures a == b
    {
      ActiveAfterScript(t, live, now, a);
      ActiveAfterScript(t, live, now, b);
      assert !QueuedClash(t, scope, a, b) && !QueuedClash(t, scope, b, a);
    }
  }

  lemma ClashSurvives(t: Table, live: seq<RunId>, now: int, scope: Scope, a: RunId, b: RunId)
    requires OldestFirst(t, LiveIds(t), live) && QueuedClash(t, scope, a, b)
    ensures !OneActivePerJob(Result(t, live, now), scope)
  {
    var u := Result(t, live, now);
    LiveVerdict(t, live, now, a);
    LiveVerdict(t, live, now, b);
    var c := if t[b].status == Queued then b else Survivors(t, EVERY_JOB, live)[t[b].jobId];
    LiveVerdict(t, live, now, c);
    assert c != a && Active(u[a].status) && Active(u[c].status);
  }

  // ---- the next worker start ----

  /** The script retires the run, and the run holds its job's id as key. */
  ghost predicate RetiredHolder(t: Table, scope: Scope, live: seq<RunId>, id: RunId)
    requires OldestFirst(t, LiveIds(t), live)
  {
    id in t && Live(t[id].status) && scope.Contains(t[id].jobId) && t[id].activeKey == Some(t[id].jobId)
    && t[id].jobId in Survivors(t, EVERY_JOB, live) && Survivors(t, EVERY_JOB, live)[t[id].jobId] != id
  }

  /** What the script leaves of one row: everything but the status and the finishing time. */
  lemma RowAfter(t: Table, live: seq<RunId>, now: int, id: RunId)
    requires OldestFirst(t, LiveIds(t), live) && id in t
    ensures var r := Result(t, live, now)[id];
            r.jobId == t[id].jobId && r.activeKey == t[id].activeKey && (Active(r.status) ==> Active(t[id].status))
  {
  }

  lemma FinishedHolderBlocks(u: Table, scope: Scope, active: seq<RunId>, id: RunId, s: RunId)
    requires Fetched(u, active) && id in u && s in u && u[s].jobId == u[id].jobId
    requires !Active(u[id].status) && Active(u[s].status) && scope.Contains(u[id].jobId)
    requires u[id].activeKey == Some(u[id].jobId)
    ensures !AllKeysFree(u, Jobs(u, scope, active))
  {
    assert s in active;
    var keys := Jobs(u, scope, active);
    assert u[s].jobId in keys;
    var k :| 0 <= k < |keys| && keys[k] == u[s].jobId;
    assert !KeyFree(u, ToSet(keys[..k]), keys[k]);
  }

  lemma SurvivorIsLive(t: Table, live: seq<RunId>, jobId: JobId)
    requires OldestFirst(t, LiveIds(t), live) && jobId in Survivors(t, EVERY_JOB, live)
    ensures var s := Survivors(t, EVERY_JOB, live)[jobId]; s in t && Live(t[s].status) && t[s].jobId == jobId
  {
  }

  lemma KeptStaysActive(t: Table, live: seq<RunId>, now: int, jobId: JobId)
    requires OldestFirst(t, LiveIds(t), live) && jobId in Survivors(t, EVERY_JOB, live)
    ensures var u, s := Result(t, live, now), Survivors(t, EVERY_JOB, live)[jobId];
            s in u && Active(u[s].status) && u[s].jobId == jobId
  {
    SurvivorIsLive(t, live, jobId);
    LiveVerdict(t, live, now, Survivors(t, EVERY_JOB, live)[jobId]);
  }

  lemma HolderIsFinished(t: Table, live: seq<RunId>, now: int, scope: Scope, id: RunId)
    requires OldestFirst(t, LiveIds(t), live) && RetiredHolder(t, scope, live, id)
    ensures var u := Result(t, live, now);
            id in u && !Active(u[id].status) && u[id].jobId == t[id].jobId && u[id].activeKey == Some(t[id].jobId)
  {
    LiveVerdict(t, live, now, id);
  }

  /**
   * A run the script retires keeps its key. If that key is the bare job id, the next start of a worker
   * that owns the job is refused by the unique index, for as long as the job has an active run.
   */
  lemma LeftoverKeyBlocksWorkerStart(t: Table, live: seq<RunId>, now: int, scope: Scope, id: RunId, active: seq<RunId>)
    requires OldestFirst(t, LiveIds(t), live) && RetiredHolder(t, scope, live, id)
    requires Fetched(Result(t, live, now), active)
    ensures !AllKeysFree(Result(t, live, now), Jobs(Result(t, live, now), scope, active))
  {
    HolderIsFinished(t, live, now, scope, id);
    KeptStaysActive(t, live, now, t[id].jobId);
    FinishedHolderBlocks(Result(t, live, now), scope, active, id, Survivors(t, EVERY_JOB, live)[t[id].jobId]);
  }

  lemma OwnKeysStay(t: Table, live: seq<RunId>, now: int, scope: Scope)
    requires OldestFirst(t, LiveIds(t), live) && OwnKeys(t, scope) && forall id :: !RetiredHolder(t, scope, live, id)
    ensures OwnKeys(Result(t, live, now), scope)
  {
    var u := Result(t, live, now);
    forall id, other | id in u && other in u && Active(u[other].status) && scope.Contains(u[other].jobId)
      ensures u[id].activeKey == Some(u[other].jobId) ==> Active(u[id].status) && u[id].jobId == u[other].jobId
    {
      RowAfter(t, live, now, id);
      RowAfter(t, live, now, other);
      LiveVerdict(t, live, now, id);
      assert !RetiredHolder(t, scope, live, id);
    }
  }

  /**
   * Where only active runs of a job held its id as key, the worker start after the script goes through exactly when the
   * script retired no in-scope holder.
   */
  lemma StartAfterScriptIff(t: Table, live: seq<RunId>, now: int, scope: Scope, active: seq<RunId>)
    requires OldestFirst(t, LiveIds(t), live) && OwnKeys(t, scope) && Fetched(Result(t, live, now), active)
    ensures AllKeysFree(Result(t, live, now), Jobs(Result(t, live, now), scope, active))
       <==> forall id :: !RetiredHolder(t, scope, live, id)
  {
    if id :| RetiredHolder(t, scope, live, id) {
      LeftoverKeyBlocksWorkerStart(t, live, now, scope, id, active);
    } else {
      OwnKeysStay(t, live, now, scope);
      OwnKeysSuffice(Result(t, live, now), scope, active);
    }
  }

  lemma LeastOfTwoIsKept(t: Table, live: seq<RunId>, a: RunId, b: RunId)
    requires OldestFirst(t, LiveIds(t), live) && t.Keys == {a, b} && Live(t[a].status) && t[a].jobId == t[b].jobId
    requires Before(t, a, b)
    ensures t[a].jobId in Survivors(t, EVERY_JOB, live) && Survivors(t, EVERY_JOB, live)[t[a].jobId] == a
  {
    assert a in live && a in Members(t, live, t[a].jobId);
    assert Survivors(t, EVERY_JOB, live)[t[a].jobId] in t.Keys;
  }

  lemma LaterHolderIsRetired(t: Table, live: seq<RunId>, scope: Scope, a: RunId, b: RunId)
    requires OldestFirst(t, LiveIds(t), live) && t.Keys == {a, b} && Live(t[a].status) && Live(t[b].status)
    requires t[a].jobId == t[b].jobId && scope.Contains(t[b].jobId) && t[b].activeKey == Some(t[b].jobId)
    requires Before(t, a, b)
    ensures RetiredHolder(t, scope, live, b)
  {
    LeastOfTwoIsKept(t, live, a, b);
  }

  /** `a` and `b` are the only runs, live, of one job; `a` goes first and `b` holds the job's id as key. */
  ghost predicate HolderComesSecond(t: Table, scope: Scope, a: RunId, b: RunId) {
    && t.Keys == {a, b} && Live(t[a].status) && Live(t[b].status) && t[a].jobId == t[b].jobId
    && scope.Contains(t[b].jobId) && t[b].activeKey == Some(t[b].jobId) && Before(t, a, b)
  }

  lemma PairOwnsItsKeys(t: Table, scope: Scope, a: RunId, b: RunId)
    requires HolderComesSecond(t, scope, a, b)
    ensures OwnKeys(t, scope)
  {
  }

  lemma SecondHolderStopsTheWorker(t: Table, live: seq<RunId>, now: int, scope: Scope, a: RunId, b: RunId,
      active: seq<RunId>)
    requires OldestFirst(t, LiveIds(t), live) && HolderComesSecond(t, scope, a, b)
        && Fetched(Result(t, live, now), active)
    ensures OwnKeys(t, scope)
    ensures !AllKeysFree(Result(t, live, now), Jobs(Result(t, live, now), scope, active))
  {
    PairOwnsItsKeys(t, scope, a, b);
    LaterHolderIsRetired(t, live, scope, a, b);
    LeftoverKeyBlocksWorkerStart(t, live, now, scope, b, active);
  }

  /**
   * Two paused runs of one job: the older stopped for a security review, which leaves its owner-scoped key alone; the
   * later one stopped at a field, for which the processor writes the bare job id as key.
   */
  function TwoPaused(row: Row): Table {
    map["old" := row.(stoppedFieldLabel := Some("Security review required"), activeKey := Some("ann:" + row.jobId),
                      userId := Some("ann"), createdAt := 0),
        "new" := row.(stoppedFieldLabel := Some("Phone"), activeKey := Some(row.jobId),
                      userId := Some("bob"), createdAt := 1)]
  }

  /** There the script retires the later run, and the next start of the worker is refused. */
  lemma PausedHolderStopsTheWorker(row: Row, live: seq<RunId>, now: int, scope: Scope, active: seq<RunId>)
    requires row.status == NeedsUserAction && scope.Contains(row.jobId)
    requires OldestFirst(TwoPaused(row), LiveIds(TwoPaused(row)), live)
    requires Fetched(Result(TwoPaused(row), live, now), active)
    ensures OwnKeys(TwoPaused(row), scope)
    ensures !AllKeysFree(Result(TwoPaused(row), live, now), Jobs(Result(TwoPaused(row), live, now), scope, active))
  {
    PausedHolderComesSecond(row, scope);
    SecondHolderStopsTheWorker(TwoPaused(row), live, now, scope, "old", "new", active);
  }

  lemma PausedHolderComesSecond(row: Row, scope: Scope)
    requires row.status == NeedsUserAction && scope.Contains(row.jobId)
    ensures HolderComesSecond(TwoPaused(row), scope, "old", "new")
  {
    assert "old"[0] != "new"[0] && |"Phone"| == 5 && |"Security review required"| == 24;
  }
}
