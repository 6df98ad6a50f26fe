/** Startup repair of duplicate active runs: grouping, survivor choice, and the two writes per job. */
module DuplicateRepair {
  import opened Prelude
  import opened RunTable

  /** The repair's sort order: a run with a stopped field first, then the older run. */
  predicate Before(t: Table, a: RunId, b: RunId)
    requires a in t && b in t
  {
    (Stopped(t[a]) && !Stopped(t[b]))
    || (Stopped(t[a]) == Stopped(t[b]) && t[a].createdAt < t[b].createdAt)
  }

  /** `[...runs].sort(order)[0]` for a stable sort: the first of the least elements. */
  function Canonical(t: Table, runs: seq<RunId>): (c: RunId)
    requires runs != [] && forall id :: id in runs ==> id in t
    ensures c in runs
    ensures forall id :: id in runs ==> !Before(t, id, c)
    ensures exists k :: 0 <= k < |runs| && runs[k] == c && forall i :: 0 <= i < k ==> Before(t, c, runs[i])
  {
    var last := runs[|runs| - 1];
    if |runs| == 1 then last
    else
      var front := runs[..|runs| - 1];
      assert runs == front + [last];
      var best := Canonical(t, front);
      if Before(t, last, best) then
        assert forall i :: 0 <= i < |runs| - 1 ==> runs[i] in front;
        last
      else
        var k :| 0 <= k < |front| && front[k] == best && forall i :: 0 <= i < k ==> Before(t, best, front[i]);
        assert runs[k] == best && forall i :: 0 <= i < k ==> runs[i] == front[i];
        best
  }

  /** The first stopped run goes before every earlier run, and no later run goes before it. */
  lemma FirstStoppedGoesFirst(t: Table, ids: set<RunId>, runs: seq<RunId>, m: nat, k: nat)
    requires OldestFirst(t, ids, runs) && m < |runs| && k < |runs|
    requires Stopped(t[runs[m]]) && forall i :: 0 <= i < m ==> !Stopped(t[runs[i]])
    ensures runs[m] in t && runs[k] in t
    ensures k < m ==> Before(t, runs[m], runs[k])
    ensures m < k ==> !Before(t, runs[k], runs[m])
  {
    assert runs[m] in ids && runs[k] in ids;
  }

  /** Where the survivor stands in the list. */
  lemma CanonicalAt(t: Table, runs: seq<RunId>, m: nat) returns (k: nat)
    requires m < |runs| && forall id :: id in runs ==> id in t
    ensures k < |runs| && runs[k] == Canonical(t, runs) && runs[k] in t && runs[m] in t
    ensures m < k ==> Before(t, runs[k], runs[m])
    ensures !Before(t, runs[m], runs[k])
  {
    k :| 0 <= k < |runs| && runs[k] == Canonical(t, runs) && forall i :: 0 <= i < k ==> Before(t, runs[k], runs[i]);
    assert runs[m] in runs;
  }

  lemma FirstStoppedIsCanonical(t: Table, ids: set<RunId>, runs: seq<RunId>, m: nat)
    requires OldestFirst(t, ids, runs) && m < |runs|
    requires Stopped(t[runs[m]]) && forall i :: 0 <= i < m ==> !Stopped(t[runs[i]])
    ensures Canonical(t, runs) == runs[m]
  {
    var k := CanonicalAt(t, runs, m);
    FirstStoppedGoesFirst(t, ids, runs, m, k);
  }

  lemma OldestIsCanonical(t: Table, ids: set<RunId>, runs: seq<RunId>)
    requires OldestFirst(t, ids, runs) && runs != [] && forall id :: id in runs ==> !Stopped(t[id])
    ensures Canonical(t, runs) == runs[0]
  {
    var k := CanonicalAt(t, runs, 0);
    assert runs[k] in runs;
  }

  /** On a list fetched oldest first, the survivor is the first stopped run, or else the first run. */
  lemma CanonicalIsFirstStoppedElseOldest(t: Table, ids: set<RunId>, runs: seq<RunId>)
    requires OldestFirst(t, ids, runs) && runs != []
    ensures forall k :: 0 <= k < |runs| && Stopped(t[runs[k]]) && (forall i :: 0 <= i < k ==> !Stopped(t[runs[i]]))
              ==> Canonical(t, runs) == runs[k]
    ensures (forall id :: id in runs ==> !Stopped(t[id])) ==> Canonical(t, runs) == runs[0]
  {
    forall m | 0 <= m < |runs| && Stopped(t[runs[m]]) && (forall i :: 0 <= i < m ==> !Stopped(t[runs[i]]))
      ensures Canonical(t, runs) == runs[m]
    {
      FirstStoppedIsCanonical(t, ids, runs, m);
    }
    if forall id :: id in runs ==> !Stopped(t[id]) {
      OldestIsCanonical(t, ids, runs);
    }
  }

  /** The fetched active runs of one job. */
  function Members(t: Table, active: seq<RunId>, jobId: JobId): seq<RunId> {
    Filter(active, id => id in t && t[id].jobId == jobId)
  }

  /** In-scope job ids in the order the group map first sees them. */
  function Jobs(t: Table, scope: Scope, active: seq<RunId>): (keys: seq<JobId>)
    requires forall id :: id in active ==> id in t
    ensures NoDuplicates(keys)
    ensures forall j :: j in keys <==> scope.Contains(j) && exists id :: id in active && t[id].jobId == j
  {
    if active == [] then []
    else
      var last := active[|active| - 1];
      var front := active[..|active| - 1];
      assert active == front + [last];
      var keys := Jobs(t, scope, front);
      if !scope.Contains(t[last].jobId) || t[last].jobId in keys then keys else keys + [t[last].jobId]
  }

  /** The run each job keeps. */
  function Survivors(t: Table, scope: Scope, active: seq<RunId>): (s: map<JobId, RunId>)
    requires forall id :: id in active ==> id in t
    ensures forall j :: j in s <==> j in Jobs(t, scope, active)
    ensures forall j :: j in s ==> s[j] in active && t[s[j]].jobId == j
  {
    map j | j in Jobs(t, scope, active) :: Canonical(t, Members(t, active, j))
  }

  function ActiveIds(t: Table): set<RunId> {
    set id | id in t && Active(t[id].status)
  }

  ghost predicate Fetched(t: Table, active: seq<RunId>) {
    OldestFirst(t, ActiveIds(t), active)
  }

  /** The table once the jobs in `done` have been repaired. */
  function Repaired(t: Table, keep: map<JobId, RunId>, done: set<JobId>, now: int): (r: Table)
    requires done <= keep.Keys
    ensures r.Keys == t.Keys
  {
    map id | id in t ::
      if !Active(t[id].status) || t[id].jobId !in done then t[id]
      else if keep[t[id].jobId] == id then t[id].(activeKey := Some(t[id].jobId))
      else SupersededRow(t[id], now)
  }

  /** The table between the two writes for `jobId`: duplicates nulled, survivor not yet keyed. */
  function Nulled(t: Table, keep: map<JobId, RunId>, done: set<JobId>, jobId: JobId, now: int): (r: Table)
    requires done <= keep.Keys && jobId in keep
    ensures r.Keys == t.Keys
  {
    var before := Repaired(t, keep, done, now);
    map id | id in t ::
      if Active(t[id].status) && t[id].jobId == jobId && keep[jobId] != id then SupersededRow(before[id], now)
      else before[id]
  }

  /** Nobody outside the active runs of `jobId` and of the jobs already repaired holds key `jobId`. */
  predicate KeyFree(t: Table, done: set<JobId>, jobId: JobId) {
    forall id :: id in t && t[id].activeKey == Some(jobId) ==>
      Active(t[id].status) && (t[id].jobId == jobId || t[id].jobId in done)
  }

  /** The table after every in-scope job has been repaired. */
  function FullyRepaired(t: Table, scope: Scope, active: seq<RunId>, now: int): (r: Table)
    requires forall id :: id in active ==> id in t
    ensures r.Keys == t.Keys
  {
    Repaired(t, Survivors(t, scope, active), ToSet(Jobs(t, scope, active)), now)
  }

  /** Between the two writes, whoever but the survivor holds the key held it before and keeps it from being free. */
  lemma HolderInNulled(t: Table, keep: map<JobId, RunId>, done: set<JobId>, jobId: JobId, now: int, id: RunId)
    requires done <= keep.Keys && jobId in keep && jobId !in done && id in t && id != keep[jobId]
    requires Nulled(t, keep, done, jobId, now)[id].activeKey == Some(jobId)
    ensures t[id].activeKey == Some(jobId) && !(Active(t[id].status) && (t[id].jobId == jobId || t[id].jobId in done))
  {
  }

  lemma TakenMeansNotFree(t: Table, keep: map<JobId, RunId>, done: set<JobId>, jobId: JobId, now: int)
    requires done <= keep.Keys && jobId in keep && jobId !in done
    requires KeyTaken(Nulled(t, keep, done, jobId, now), keep[jobId], jobId)
    ensures !KeyFree(t, done, jobId)
  {
    var mid := Nulled(t, keep, done, jobId, now);
    var other :| other in mid && other != keep[jobId] && mid[other].activeKey == Some(jobId);
    HolderInNulled(t, keep, done, jobId, now, other);
  }

  /** Keying the survivor is refused exactly when the key is not free. */
  lemma KeyTakenIffNotFree(t: Table, keep: map<JobId, RunId>, done: set<JobId>, jobId: JobId, now: int)
    requires done <= keep.Keys && jobId in keep && jobId !in done
    requires keep[jobId] in t && Active(t[keep[jobId]].status) && t[keep[jobId]].jobId == jobId
    ensures KeyTaken(Nulled(t, keep, done, jobId, now), keep[jobId], jobId) <==> !KeyFree(t, done, jobId)
  {
    var mid := Nulled(t, keep, done, jobId, now);
    if KeyTaken(mid, keep[jobId], jobId) {
      TakenMeansNotFree(t, keep, done, jobId, now);
    }
    if !KeyFree(t, done, jobId) {
      var id :| id in t && t[id].activeKey == Some(jobId)
        && !(Active(t[id].status) && (t[id].jobId == jobId || t[id].jobId in done));
      assert mid[id].activeKey == Some(jobId);
    }
  }

  lemma MembersStep(t: Table, seen: seq<RunId>, run: RunId, j: JobId)
    requires run in t
    ensures Members(t, seen + [run], j)
         == if t[run].jobId == j then Members(t, seen, j) + [run] else Members(t, seen, j)
  {
    FilterConcat(seen, [run], id => id in t && t[id].jobId == j);
    assert Members(t, seen, j) + [] == Members(t, seen, j);
  }

  lemma JobsStep(t: Table, scope: Scope, seen: seq<RunId>, run: RunId, keys: seq<JobId>)
    requires run in t && (forall id :: id in seen ==> id in t) && keys == Jobs(t, scope, seen)
    ensures forall id :: id in seen + [run] ==> id in t
    ensures var jobId := t[run].jobId;
            && Jobs(t, scope, seen + [run])
               == (if !scope.Contains(jobId) || jobId in keys then keys else keys + [jobId])
            && (scope.Contains(jobId) && jobId !in keys ==> Members(t, seen, jobId) == [])
  {
    assert (seen + [run])[..|seen|] == seen;
    var jobId := t[run].jobId;
    if scope.Contains(jobId) && jobId !in keys {
      FilterNone(seen, id => id in t && t[id].jobId == jobId);
    }
  }

  lemma PrefixJobs(t: Table, scope: Scope, active: seq<RunId>, k: nat)
    requires Fetched(t, active) && k < |Jobs(t, scope, active)|
    ensures var keys := Jobs(t, scope, active);
            && ToSet(keys[..k]) <= Survivors(t, scope, active).Keys && keys[k] in Survivors(t, scope, active)
            && keys[k] !in ToSet(keys[..k]) && ToSet(keys[..k + 1]) == ToSet(keys[..k]) + {keys[k]}
  {
    var keys := Jobs(t, scope, active);
    PrefixSet(keys, k);
    assert keys[k] in keys;
  }

  lemma PrefixSet(keys: seq<JobId>, k: nat)
    requires k < |keys| && NoDuplicates(keys)
    ensures ToSet(keys[..k]) <= ToSet(keys) && keys[k] !in ToSet(keys[..k])
    ensures ToSet(keys[..k + 1]) == ToSet(keys[..k]) + {keys[k]}
  {
    assert keys[..k + 1] == keys[..k] + [keys[k]];
  }

  lemma MembersOfFetched(t: Table, scope: Scope, active: seq<RunId>, jobId: JobId)
    requires Fetched(t, active) && jobId in Jobs(t, scope, active)
    ensures forall id :: id in Members(t, active, jobId) <==> id in t && Active(t[id].status) && t[id].jobId == jobId
    ensures Members(t, active, jobId) != []
    ensures Survivors(t, scope, active)[jobId] == Canonical(t, Members(t, active, jobId))
  {
  }

  class RunStore {
    var rows: Table

    constructor (rows: Table)
      ensures this.rows == rows
    {
      this.rows := rows;
    }
  }

  /** The listed jobs, each with its runs in the order of the list. */
  function Groups(t: Table, keys: seq<JobId>, runs: seq<RunId>): map<JobId, seq<RunId>> {
    map j | j in keys :: Members(t, runs, j)
  }

  /** A further run of a listed job goes to the end of the job's group. */
  lemma GroupGrows(t: Table, keys: seq<JobId>, seen: seq<RunId>, run: RunId)
    requires run in t && t[run].jobId in keys
    ensures var groups := Groups(t, keys, seen); var jobId := t[run].jobId;
            jobId in groups && Groups(t, keys, seen + [run]) == groups[jobId := groups[jobId] + [run]]
  {
    forall j ensures Members(t, seen + [run], j)
                  == if t[run].jobId == j then Members(t, seen, j) + [run] else Members(t, seen, j) {
      MembersStep(t, seen, run, j);
    }
  }

  /** A run of a job that is not listed yet opens a group. */
  lemma GroupOpens(t: Table, keys: seq<JobId>, seen: seq<RunId>, run: RunId)
    requires run in t && t[run].jobId !in keys && Members(t, seen, t[run].jobId) == []
    ensures Groups(t, keys + [t[run].jobId], seen + [run]) == Groups(t, keys, seen)[t[run].jobId := [run]]
  {
    assert [] + [run] == [run];
    forall j ensures Members(t, seen + [run], j)
                  == if t[run].jobId == j then Members(t, seen, j) + [run] else Members(t, seen, j) {
      MembersStep(t, seen, run, j);
    }
  }

  /** A run of a job that is never listed changes no group. */
  lemma GroupsStay(t: Table, keys: seq<JobId>, seen: seq<RunId>, run: RunId)
    requires run in t && t[run].jobId !in keys
    ensures Groups(t, keys, seen + [run]) == Groups(t, keys, seen)
  {
    forall j ensures Members(t, seen + [run], j)
                  == if t[run].jobId == j then Members(t, seen, j) + [run] else Members(t, seen, j) {
      MembersStep(t, seen, run, j);
    }
  }

  /** One run put into its group, if it is in scope. */
  method AddToGroup(t: Table, scope: Scope, ghost seen: seq<RunId>, run: RunId, keys: seq<JobId>,
      groups: map<JobId, seq<RunId>>) returns (newKeys: seq<JobId>, newGroups: map<JobId, seq<RunId>>)
    requires run in t && forall id :: id in seen ==> id in t
    requires keys == Jobs(t, scope, seen) && groups == Groups(t, keys, seen)
    ensures forall id :: id in seen + [run] ==> id in t
    ensures newKeys == Jobs(t, scope, seen + [run]) && newGroups == Groups(t, newKeys, seen + [run])
  {
    var jobId := t[run].jobId;
    newKeys, newGroups := keys, groups;
    JobsStep(t, scope, seen, run, keys);
    if !scope.Contains(jobId) {
      GroupsStay(t, keys, seen, run);
    } else if jobId in groups {
      GroupGrows(t, keys, seen, run);
      newGroups := groups[jobId := groups[jobId] + [run]];
    } else {
      GroupOpens(t, keys, seen, run);
      newKeys, newGroups := keys + [jobId], groups[jobId := [run]];
    }
  }

  /** The insertion-ordered `Map` of runs by job. */
  method GroupByJob(t: Table, scope: Scope, active: seq<RunId>)
    returns (keys: seq<JobId>, groups: map<JobId, seq<RunId>>)
    requires forall id :: id in active ==> id in t
    ensures keys == Jobs(t, scope, active)
    ensures forall j :: j in groups <==> j in keys
    ensures forall j :: j in groups ==> groups[j] == Members(t, active, j)
  {
    keys, groups := [], map[];
    for i := 0 to |active|
      invariant forall id :: id in active[..i] ==> id in t
      invariant keys == Jobs(t, scope, active[..i]) && groups == Groups(t, keys, active[..i])
    {
      TakeStep(active, i);
      keys, groups := AddToGroup(t, scope, active[..i], active[i], keys, groups);
    }
    assert active[..|active|] == active;
  }

  lemma FirstWrite(t: Table, keep: map<JobId, RunId>, done: set<JobId>, jobId: JobId, duplicates: set<RunId>, now: int)
    requires done <= keep.Keys && jobId in keep && jobId !in done
    requires forall id :: id in duplicates <==>
      id in t && Active(t[id].status) && t[id].jobId == jobId && id != keep[jobId]
    ensures UpdateMany(Repaired(t, keep, done, now), duplicates, (row: Row) => SupersededRow(row, now))
         == Nulled(t, keep, done, jobId, now)
    ensures duplicates == {} ==> Repaired(t, keep, done, now) == Nulled(t, keep, done, jobId, now)
  {
  }

  lemma SecondWrite(t: Table, keep: map<JobId, RunId>, done: set<JobId>, jobId: JobId, now: int)
    requires done <= keep.Keys && jobId in keep && jobId !in done
    requires keep[jobId] in t && Active(t[keep[jobId]].status) && t[keep[jobId]].jobId == jobId
    ensures UpdateMany(Nulled(t, keep, done, jobId, now), {keep[jobId]}, (row: Row) => row.(activeKey := Some(jobId)))
         == Repaired(t, keep, done + {jobId}, now)
  {
  }

  /** One job: null the duplicates, then key the survivor unless the unique index refuses. */
  method RepairJob(store: RunStore, t: Table, ghost keep: map<JobId, RunId>, ghost done: set<JobId>, jobId: JobId,
                   runs: seq<RunId>, now: int)
    returns (ok: bool)
    requires done <= keep.Keys && jobId in keep && jobId !in done
    requires forall id :: id in runs <==> id in t && Active(t[id].status) && t[id].jobId == jobId
    requires runs != [] && keep[jobId] == Canonical(t, runs)
    requires store.rows == Repaired(t, keep, done, now)
    modifies store
    ensures ok <==> KeyFree(t, done, jobId)
    ensures store.rows == if ok then Repaired(t, keep, done + {jobId}, now) else Nulled(t, keep, done, jobId, now)
  {
    var canonical := Canonical(t, runs);
    var duplicates := set id | id in runs && id != canonical;
    FirstWrite(t, keep, done, jobId, duplicates, now);
    if duplicates != {} {
      store.rows := UpdateMany(store.rows, duplicates, (row: Row) => SupersededRow(row, now));
    }
    KeyTakenIffNotFree(t, keep, done, jobId, now);
    ok := !KeyTaken(store.rows, canonical, jobId);
    if ok {
      SecondWrite(t, keep, done, jobId, now);
      store.rows := UpdateMany(store.rows, {canonical}, (row: Row) => row.(activeKey := Some(jobId)));
    }
  }

  /** The repair gave up at the `k`-th job: earlier jobs repaired, this one's duplicates nulled, nothing else. */
  ghost predicate StoppedAt(t: Table, scope: Scope, active: seq<RunId>, k: int, rows: Table, now: int)
    requires Fetched(t, active)
  {
    var keys := Jobs(t, scope, active);
    0 <= k < |keys| && !KeyFree(t, ToSet(keys[..k]), keys[k])
    && (forall m :: 0 <= m < k ==> KeyFree(t, ToSet(keys[..m]), keys[m]))
    && ToSet(keys[..k]) <= Survivors(t, scope, active).Keys && keys[k] in Survivors(t, scope, active)
    && rows == Nulled(t, Survivors(t, scope, active), ToSet(keys[..k]), keys[k], now)
  }

  /** Every key of the plan is free when its turn comes. */
  ghost predicate AllKeysFree(t: Table, keys: seq<JobId>) {
    forall k :: 0 <= k < |keys| ==> KeyFree(t, ToSet(keys[..k]), keys[k])
  }

  /** The turn of the loop for the `k`-th job, given that the jobs before it have been repaired. */
  method RepairListed(store: RunStore, t: Table, scope: Scope, ghost active: seq<RunId>, keys: seq<JobId>, k: nat,
      runs: seq<RunId>, now: int) returns (ok: bool)
    requires Fetched(t, active) && keys == Jobs(t, scope, active) && k < |keys| && runs == Members(t, active, keys[k])
    requires ToSet(keys[..k]) <= Survivors(t, scope, active).Keys
    requires store.rows == Repaired(t, Survivors(t, scope, active), ToSet(keys[..k]), now)
    modifies store
    ensures ok <==> KeyFree(t, ToSet(keys[..k]), keys[k])
    ensures ToSet(keys[..k + 1]) <= Survivors(t, scope, active).Keys && keys[k] in Survivors(t, scope, active)
    ensures ok ==> store.rows == Repaired(t, Survivors(t, scope, active), ToSet(keys[..k + 1]), now)
    ensures !ok ==> store.rows == Nulled(t, Survivors(t, scope, active), ToSet(keys[..k]), keys[k], now)
  {
    PrefixJobs(t, scope, active, k);
    MembersOfFetched(t, scope, active, keys[k]);
    ok := RepairJob(store, t, Survivors(t, scope, active), ToSet(keys[..k]), keys[k], runs, now);
  }

  /**
   * Groups the active runs by job, then repairs job by job. `ok` is false when the unique
   * index refuses a key, which ends the worker's startup with the table half repaired.
   */
  method RepairDuplicateRuns(store: RunStore, scope: Scope, now: int)
    returns (ok: bool, ghost active: seq<RunId>)
    modifies store
    ensures Fetched(old(store.rows), active)
    ensures ok <==> AllKeysFree(old(store.rows), Jobs(old(store.rows), scope, active))
    ensures ok ==> store.rows == FullyRepaired(old(store.rows), scope, active, now)
    ensures !ok ==> exists k :: StoppedAt(old(store.rows), scope, active, k, store.rows, now)
  {
    var t := store.rows;
    var fetched := FindManyOldestFirst(t, ActiveIds(t));
    active := fetched;
    var keys, groups := GroupByJob(t, scope, fetched);
    for k := 0 to |keys|
      invariant ToSet(keys[..k]) <= Survivors(t, scope, fetched).Keys
      invariant store.rows == Repaired(t, Survivors(t, scope, fetched), ToSet(keys[..k]), now)
      invariant forall m :: 0 <= m < k ==> KeyFree(t, ToSet(keys[..m]), keys[m])
    {
      ok := RepairListed(store, t, scope, fetched, keys, k, groups[keys[k]], now);
      if !ok {
        assert StoppedAt(t, scope, fetched, k, store.rows, now);
        return;
      }
    }
    assert keys[..|keys|] == keys;
    ok := true;
  }
}
