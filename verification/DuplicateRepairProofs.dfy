/** What the startup repair guarantees about the table it leaves behind. */
module DuplicateRepairProofs {
  import opened Prelude
  import opened RunTable
  import opened DuplicateRepair

  /** An active in-scope run ends either as its job's one survivor or as superseded. */
  lemma RepairVerdict(t: Table, scope: Scope, active: seq<RunId>, now: int, id: RunId)
    requires Fetched(t, active) && id in t
    ensures var u := FullyRepaired(t, scope, active, now);
            if Active(t[id].status) && scope.Contains(t[id].jobId) then
              t[id].jobId in Survivors(t, scope, active) &&
              u[id] == if Survivors(t, scope, active)[t[id].jobId] == id then t[id].(activeKey := Some(t[id].jobId))
                       else SupersededRow(t[id], now)
            else u[id] == t[id]
  {
    if Active(t[id].status) && scope.Contains(t[id].jobId) {
      assert id in active;
    }
  }

  /** What is active in scope afterwards is its job's survivor, with job and owner as before. */
  lemma ActiveAfterIsSurvivor(t: Table, scope: Scope, active: seq<RunId>, now: int, s: RunId)
    requires Fetched(t, active) && s in t && Active(FullyRepaired(t, scope, active, now)[s].status)
    ensures var r := FullyRepaired(t, scope, active, now)[s]; r.jobId == t[s].jobId && r.userId == t[s].userId
    ensures scope.Contains(t[s].jobId) ==>
      t[s].jobId in Survivors(t, scope, active) && Survivors(t, scope, active)[t[s].jobId] == s
  {
    RepairVerdict(t, scope, active, now, s);
  }

  /** After a repair every in-scope job has at most one active run. */
  lemma RepairLeavesOneActive(t: Table, scope: Scope, active: seq<RunId>, now: int)
    requires Fetched(t, active)
    ensures OneActivePerJob(FullyRepaired(t, scope, active, now), scope)
  {
    var u := FullyRepaired(t, scope, active, now);
    forall a, b | a in u && b in u && Active(u[a].status) && Active(u[b].status)
                  && u[a].jobId == u[b].jobId && scope.Contains(u[a].jobId)
      ensures a == b
    {
      ActiveAfterIsSurvivor(t, scope, active, now, a);
      ActiveAfterIsSurvivor(t, scope, active, now, b);
    }
  }

  /**
   * A job that had an active in-scope run keeps exactly one, and no active run of that job comes
   * before it: it has a stopped field if any does, and is the oldest among those that tie.
   */
  lemma RepairKeepsTheLeast(t: Table, scope: Scope, active: seq<RunId>, now: int, id: RunId)
    requires Fetched(t, active) && id in t && Active(t[id].status) && scope.Contains(t[id].jobId)
    ensures var u := FullyRepaired(t, scope, active, now);
            exists s :: s in t && Active(t[s].status) && t[s].jobId == t[id].jobId
              && u[s] == t[s].(activeKey := Some(t[id].jobId))
              && !Before(t, id, s)
              && (s != id ==> u[id] == SupersededRow(t[id], now))
  {
    RepairVerdict(t, scope, active, now, id);
    var s := Survivors(t, scope, active)[t[id].jobId];
    RepairVerdict(t, scope, active, now, s);
    MembersOfFetched(t, scope, active, t[id].jobId);
  }

  // ---- the same in columns ----

  /** An active run of an in-scope job: what the query and the scope test let through. */
  ghost predicate Contender(t: Table, scope: Scope, jobId: JobId, id: RunId) {
    && id in t && t[id].jobId == jobId && t[id].status in {Queued, Running, NeedsUserAction}
    && Serves(scope, jobId)
  }

  /** The run is paused on a field: its label is there and not empty. */
  ghost predicate Labelled(t: Table, id: RunId) {
    id in t && t[id].stoppedFieldLabel != None && t[id].stoppedFieldLabel != Some("")
  }

  lemma ContendersAreActive(t: Table, scope: Scope, jobId: JobId, id: RunId)
    requires id in t
    ensures Contender(t, scope, jobId, id) <==>
      t[id].jobId == jobId && Active(t[id].status) && scope.Contains(t[id].jobId)
    ensures Labelled(t, id) <==> Stopped(t[id])
  {
  }

  /** `s` is the run its job keeps: keyed with the job's id, labelled if any contender is, and the oldest of those. */
  ghost predicate KeptRun(t: Table, u: Table, scope: Scope, jobId: JobId, s: RunId, now: int) {
    && Contender(t, scope, jobId, s) && u.Keys == t.Keys && u[s] == t[s].(activeKey := Some(jobId))
    && (forall other :: Contender(t, scope, jobId, other) ==>
          && (Labelled(t, other) ==> Labelled(t, s))
          && ((Labelled(t, other) <==> Labelled(t, s)) ==> t[s].createdAt <= t[other].createdAt)
          && (other != s ==> u[other] == t[other].(activeKey := None, status := Superseded,
                currentStep := "Superseded duplicate run", finishedAt := Some(now))))
  }

  /**
   * Of the active runs of an in-scope job one is kept and gets the job's id as key. If any of them is paused on a
   * field, a paused one is kept, however old the others are; among runs alike in this, the oldest. All the others
   * end superseded, without a key. Every other run of the table is untouched.
   */
  lemma RepairInColumns(t: Table, scope: Scope, active: seq<RunId>, now: int, jobId: JobId)
    requires Fetched(t, active)
    ensures (exists id :: Contender(t, scope, jobId, id)) ==>
      exists s :: KeptRun(t, FullyRepaired(t, scope, active, now), scope, jobId, s, now)
    ensures forall id :: id in t && !Contender(t, scope, t[id].jobId, id) ==>
      FullyRepaired(t, scope, active, now)[id] == t[id]
  {
    var u := FullyRepaired(t, scope, active, now);
    if id :| Contender(t, scope, jobId, id) {
      ContendersAreActive(t, scope, jobId, id);
      RepairVerdict(t, scope, active, now, id);
      var s := Survivors(t, scope, active)[jobId];
      SurvivorIsActive(t, scope, active, jobId);
      ContendersAreActive(t, scope, jobId, s);
      RepairVerdict(t, scope, active, now, s);
      forall other | Contender(t, scope, jobId, other)
        ensures Labelled(t, other) ==> Labelled(t, s)
        ensures (Labelled(t, other) <==> Labelled(t, s)) ==> t[s].createdAt <= t[other].createdAt
        ensures other != s ==> u[other] == SupersededRow(t[other], now)
      {
        ContendersAreActive(t, scope, jobId, other);
        RepairVerdict(t, scope, active, now, other);
        HasSurvivor(t, scope, active, other);
      }
      assert KeptRun(t, u, scope, jobId, s, now);
    }
    forall id | id in t && !Contender(t, scope, t[id].jobId, id) ensures u[id] == t[id] {
      ContendersAreActive(t, scope, t[id].jobId, id);
      RepairVerdict(t, scope, active, now, id);
    }
  }

  /** An older queued run beside a later one paused at a field. */
  function QueuedAndPaused(row: Row): Table {
    map["a" := row.(status := Queued, createdAt := 0, stoppedFieldLabel := None),
        "b" := row.(status := NeedsUserAction, createdAt := 1, stoppedFieldLabel := Some("Phone"))]
  }

  lemma QueuedAndPausedRows(row: Row, scope: Scope)
    requires Contender(QueuedAndPaused(row), scope, row.jobId, "a")
    ensures var t := QueuedAndPaused(row);
            && t.Keys == {"a", "b"} && Contender(t, scope, row.jobId, "b") && t["b"].status == NeedsUserAction
            && Labelled(t, "b") && !Labelled(t, "a")
  {
    assert "a"[0] != "b"[0] && |"Phone"| == 5;
  }

  lemma LabelledOneIsKept(t: Table, u: Table, scope: Scope, jobId: JobId, s: RunId, now: int, a: RunId, b: RunId)
    requires KeptRun(t, u, scope, jobId, s, now) && t.Keys == {a, b}
    requires Contender(t, scope, jobId, a) && Contender(t, scope, jobId, b) && Labelled(t, b) && !Labelled(t, a)
    ensures b in u && u[b] == t[b].(activeKey := Some(jobId))
    ensures a in u && u[a].status == Superseded && u[a].activeKey == None
  {
    assert s in t.Keys;
  }

  /** There the paused run is kept and the older queued one superseded. */
  lemma PausedRunIsKept(row: Row, scope: Scope, active: seq<RunId>, now: int)
    requires Fetched(QueuedAndPaused(row), active) && Contender(QueuedAndPaused(row), scope, row.jobId, "a")
    ensures var u := FullyRepaired(QueuedAndPaused(row), scope, active, now);
            && "b" in u && u["b"].status == NeedsUserAction && u["b"].activeKey == Some(row.jobId)
            && "a" in u && u["a"].status == Superseded && u["a"].activeKey == None
  {
    var t := QueuedAndPaused(row);
    QueuedAndPausedRows(row, scope);
    RepairInColumns(t, scope, active, now, row.jobId);
    var s :| KeptRun(t, FullyRepaired(t, scope, active, now), scope, row.jobId, s, now);
    LabelledOneIsKept(t, FullyRepaired(t, scope, active, now), scope, row.jobId, s, now, "a", "b");
  }

  /** Non-null keys stay distinct after every single write of a repair that is not refused. */
  lemma KeysDistinctThroughout(t: Table, scope: Scope, active: seq<RunId>, k: nat, now: int)
    requires Fetched(t, active) && DistinctKeys(t)
    requires k < |Jobs(t, scope, active)| && AllKeysFree(t, Jobs(t, scope, active))
    ensures var keys := Jobs(t, scope, active); var keep := Survivors(t, scope, active);
            && ToSet(keys[..k]) <= keep.Keys && ToSet(keys[..k + 1]) <= keep.Keys && keys[k] in keep
            && DistinctKeys(Repaired(t, keep, ToSet(keys[..k]), now))
            && DistinctKeys(Nulled(t, keep, ToSet(keys[..k]), keys[k], now))
            && DistinctKeys(Repaired(t, keep, ToSet(keys[..k + 1]), now))
  {
    PrefixJobs(t, scope, active, k);
    DistinctAfter(t, scope, active, k, now);
    DistinctAfter(t, scope, active, k + 1, now);
    var jobId := Jobs(t, scope, active)[k];
    var done := ToSet(Jobs(t, scope, active)[..k]);
    NulledKeepsDistinct(t, Survivors(t, scope, active), done, jobId, now);
  }

  lemma NulledKeepsDistinct(t: Table, keep: map<JobId, RunId>, done: set<JobId>, jobId: JobId, now: int)
    requires done <= keep.Keys && jobId in keep && DistinctKeys(Repaired(t, keep, done, now))
    ensures DistinctKeys(Nulled(t, keep, done, jobId, now))
  {
    DroppingKeysKeepsDistinct(Repaired(t, keep, done, now), Nulled(t, keep, done, jobId, now));
  }

  lemma DroppingKeysKeepsDistinct(r: Table, u: Table)
    requires DistinctKeys(r) && u.Keys == r.Keys
    requires forall id :: id in u && u[id].activeKey.Some? ==> u[id].activeKey == r[id].activeKey
    ensures DistinctKeys(u)
  {
  }

  lemma DoneKeysWereFree(t: Table, keys: seq<JobId>, k: nat, j: JobId)
    requires k <= |keys| && AllKeysFree(t, keys) && j in ToSet(keys[..k])
    ensures exists earlier :: earlier <= ToSet(keys[..k]) && KeyFree(t, earlier, j)
  {
    var m :| 0 <= m < k && keys[m] == j;
    assert ToSet(keys[..m]) <= ToSet(keys[..k]) && KeyFree(t, ToSet(keys[..m]), keys[m]);
  }

  lemma RepairedIsDistinct(t: Table, keep: map<JobId, RunId>, done: set<JobId>, now: int)
    requires done <= keep.Keys && DistinctKeys(t)
    requires forall j :: j in done ==> exists earlier :: earlier <= done && KeyFree(t, earlier, j)
    ensures DistinctKeys(Repaired(t, keep, done, now))
  {
    var u := Repaired(t, keep, done, now);
    forall a, b | a in u && b in u && a != b && u[a].activeKey.Some?
      ensures u[a].activeKey != u[b].activeKey
    {
      if Active(t[a].status) && t[a].jobId in done {
        NewKeyIsUnique(t, keep, done, now, a, b);
      } else if Active(t[b].status) && t[b].jobId in done {
        NewKeyIsUnique(t, keep, done, now, b, a);
      }
    }
  }

  lemma DistinctAfter(t: Table, scope: Scope, active: seq<RunId>, k: nat, now: int)
    requires Fetched(t, active) && DistinctKeys(t)
    requires k <= |Jobs(t, scope, active)| && AllKeysFree(t, Jobs(t, scope, active))
    ensures var keys := Jobs(t, scope, active); var keep := Survivors(t, scope, active);
            ToSet(keys[..k]) <= keep.Keys && DistinctKeys(Repaired(t, keep, ToSet(keys[..k]), now))
  {
    var keys, keep := Jobs(t, scope, active), Survivors(t, scope, active);
    assert forall j :: j in ToSet(keys[..k]) ==> j in keys;
    forall j | j in ToSet(keys[..k])
      ensures exists earlier :: earlier <= ToSet(keys[..k]) && KeyFree(t, earlier, j)
    {
      DoneKeysWereFree(t, keys, k, j);
    }
    RepairedIsDistinct(t, keep, ToSet(keys[..k]), now);
  }

  /** The key a repair gives to a survivor differs from every other key in the table. */
  lemma NewKeyIsUnique(t: Table, keep: map<JobId, RunId>, done: set<JobId>, now: int, a: RunId, b: RunId)
    requires done <= keep.Keys && a in t && b in t && a != b && DistinctKeys(t)
    requires forall j :: j in done ==> exists earlier :: earlier <= done && KeyFree(t, earlier, j)
    requires Active(t[a].status) && t[a].jobId in done
    ensures var u := Repaired(t, keep, done, now);
            u[a].activeKey.Some? ==> u[a].activeKey != u[b].activeKey
  {
    var j := t[a].jobId;
    var earlier :| earlier <= done && KeyFree(t, earlier, j);
  }

  /** Whoever holds the id of a job with active in-scope runs as key is an active run of that job. */
  ghost predicate OwnKeys(t: Table, scope: Scope) {
    forall id, other | id in t && other in t && Active(t[other].status) && scope.Contains(t[other].jobId) ::
      t[id].activeKey == Some(t[other].jobId) ==> Active(t[id].status) && t[id].jobId == t[other].jobId
  }

  /** If only active runs of a job hold that job's id as key, no key is ever refused. */
  lemma OwnKeysSuffice(t: Table, scope: Scope, active: seq<RunId>)
    requires Fetched(t, active) && OwnKeys(t, scope)
    ensures AllKeysFree(t, Jobs(t, scope, active))
  {
    var keys := Jobs(t, scope, active);
    forall k | 0 <= k < |keys| ensures KeyFree(t, ToSet(keys[..k]), keys[k]) {
      assert keys[k] in keys;
      var other :| other in active && t[other].jobId == keys[k];
    }
  }

  lemma RepairedRowStays(u: Table, scope: Scope, again: seq<RunId>, later: int, id: RunId)
    requires Fetched(u, again) && OneActivePerJob(u, scope) && id in u
    requires Active(u[id].status) && scope.Contains(u[id].jobId) ==> u[id].activeKey == Some(u[id].jobId)
    ensures FullyRepaired(u, scope, again, later)[id] == u[id]
  {
    RepairVerdict(u, scope, again, later, id);
    if Active(u[id].status) && scope.Contains(u[id].jobId) {
      LoneRunSurvives(u, scope, again, id);
    }
  }

  /** Repairing a repaired table changes nothing. */
  lemma RepairTwiceIsRepairOnce(t: Table, scope: Scope, active: seq<RunId>, now: int, again: seq<RunId>, later: int)
    requires Fetched(t, active) && Fetched(FullyRepaired(t, scope, active, now), again)
    ensures FullyRepaired(FullyRepaired(t, scope, active, now), scope, again, later)
        == FullyRepaired(t, scope, active, now)
  {
    var u := FullyRepaired(t, scope, active, now);
    RepairLeavesOneActive(t, scope, active, now);
    forall id | id in u ensures FullyRepaired(u, scope, again, later)[id] == u[id] {
      RepairVerdict(t, scope, active, now, id);
      RepairedRowStays(u, scope, again, later, id);
    }
  }

  lemma LoneRunSurvives(u: Table, scope: Scope, again: seq<RunId>, id: RunId)
    requires Fetched(u, again) && OneActivePerJob(u, scope)
    requires id in u && Active(u[id].status) && scope.Contains(u[id].jobId)
    ensures u[id].jobId in Survivors(u, scope, again) && Survivors(u, scope, again)[u[id].jobId] == id
  {
    assert id in again;
    var s := Survivors(u, scope, again)[u[id].jobId];
    assert s in again && Active(u[s].status);
  }

  /** Once a repair has gone through, the next one is not refused either. */
  lemma RepairedTableIsNotRefused(t: Table, scope: Scope, active: seq<RunId>, now: int, again: seq<RunId>)
    requires Fetched(t, active) && DistinctKeys(t) && AllKeysFree(t, Jobs(t, scope, active))
    requires Fetched(FullyRepaired(t, scope, active, now), again)
    ensures AllKeysFree(FullyRepaired(t, scope, active, now), Jobs(FullyRepaired(t, scope, active, now), scope, again))
  {
    var u := FullyRepaired(t, scope, active, now);
    FullRepairKeepsDistinct(t, scope, active, now);
    var keys := Jobs(u, scope, again);
    forall k | 0 <= k < |keys| ensures KeyFree(u, ToSet(keys[..k]), keys[k]) {
      assert keys[k] in keys;
      SurvivorIsKeyed(t, scope, active, now, again, keys[k]);
      var holder :| holder in u && Active(u[holder].status) && u[holder].jobId == keys[k]
        && u[holder].activeKey == Some(keys[k]);
      SoleHolderFreesKey(u, ToSet(keys[..k]), keys[k], holder);
    }
  }

  lemma FullRepairKeepsDistinct(t: Table, scope: Scope, active: seq<RunId>, now: int)
    requires Fetched(t, active) && DistinctKeys(t) && AllKeysFree(t, Jobs(t, scope, active))
    ensures DistinctKeys(FullyRepaired(t, scope, active, now))
  {
    var keys := Jobs(t, scope, active);
    DistinctAfter(t, scope, active, |keys|, now);
    assert keys[..|keys|] == keys;
  }

  lemma SurvivorIsKeyed(t: Table, scope: Scope, active: seq<RunId>, now: int, again: seq<RunId>, jobId: JobId)
    requires Fetched(t, active) && Fetched(FullyRepaired(t, scope, active, now), again)
    requires jobId in Jobs(FullyRepaired(t, scope, active, now), scope, again)
    ensures var u := FullyRepaired(t, scope, active, now);
            exists h :: h in u && Active(u[h].status) && u[h].jobId == jobId && u[h].activeKey == Some(jobId)
  {
    var u := FullyRepaired(t, scope, active, now);
    var holder :| holder in again && u[holder].jobId == jobId;
    RepairVerdict(t, scope, active, now, holder);
  }

  lemma SoleHolderFreesKey(u: Table, done: set<JobId>, jobId: JobId, holder: RunId)
    requires DistinctKeys(u) && holder in u && Active(u[holder].status) && u[holder].jobId == jobId
    requires u[holder].activeKey == Some(jobId)
    ensures KeyFree(u, done, jobId)
  {
  }

  // ---- a repair killed half way ----

  /** A table the repair passes through: some jobs repaired, and possibly one more with its duplicates nulled only. */
  ghost predicate Midway(t: Table, scope: Scope, active: seq<RunId>, k: nat, mid: Table, now: int)
    requires Fetched(t, active)
  {
    var keys, keep := Jobs(t, scope, active), Survivors(t, scope, active);
    k <= |keys| && ToSet(keys[..k]) <= keep.Keys
    && (mid == Repaired(t, keep, ToSet(keys[..k]), now)
        || (k < |keys| && keys[k] in keep && mid == Nulled(t, keep, ToSet(keys[..k]), keys[k], now)))
  }

  /** The run keeps job, stopped field and age; if it has retired, it is not the one its job keeps. */
  ghost predicate OnlyRetires(t: Table, mid: Table, keep: map<JobId, RunId>, id: RunId) {
    && id in t && id in mid && mid[id].jobId == t[id].jobId && mid[id].createdAt == t[id].createdAt
    && mid[id].stoppedFieldLabel == t[id].stoppedFieldLabel && (Active(mid[id].status) ==> Active(t[id].status))
    && (Active(t[id].status) && !Active(mid[id].status) ==> t[id].jobId in keep && keep[t[id].jobId] != id)
  }

  lemma MidwayRow(t: Table, scope: Scope, active: seq<RunId>, k: nat, mid: Table, now: int, id: RunId)
    requires Fetched(t, active) && Midway(t, scope, active, k, mid, now) && id in t
    ensures OnlyRetires(t, mid, Survivors(t, scope, active), id)
  {
    var keys, keep := Jobs(t, scope, active), Survivors(t, scope, active);
    RepairedRow(t, keep, ToSet(keys[..k]), now, id);
    if k < |keys| && keys[k] in keep {
      NulledRow(t, keep, ToSet(keys[..k]), keys[k], now, id);
    }
  }

  lemma RepairedRow(t: Table, keep: map<JobId, RunId>, done: set<JobId>, now: int, id: RunId)
    requires done <= keep.Keys && id in t
    ensures OnlyRetires(t, Repaired(t, keep, done, now), keep, id)
  {
  }

  lemma NulledRow(t: Table, keep: map<JobId, RunId>, done: set<JobId>, jobId: JobId, now: int, id: RunId)
    requires done <= keep.Keys && jobId in keep && id in t
    ensures OnlyRetires(t, Nulled(t, keep, done, jobId, now), keep, id)
  {
  }

  lemma HasSurvivor(t: Table, scope: Scope, active: seq<RunId>, id: RunId)
    requires Fetched(t, active) && id in t && Active(t[id].status) && scope.Contains(t[id].jobId)
    ensures t[id].jobId in Survivors(t, scope, active) && !Before(t, id, Survivors(t, scope, active)[t[id].jobId])
  {
    assert id in active;
    MembersOfFetched(t, scope, active, t[id].jobId);
  }

  lemma SurvivorIsActive(t: Table, scope: Scope, active: seq<RunId>, jobId: JobId)
    requires Fetched(t, active) && jobId in Survivors(t, scope, active)
    ensures scope.Contains(jobId)
    ensures var s := Survivors(t, scope, active)[jobId]; s in t && Active(t[s].status) && t[s].jobId == jobId
  {
  }

  lemma SameOrder(t: Table, mid: Table, keep: map<JobId, RunId>, a: RunId, b: RunId)
    requires OnlyRetires(t, mid, keep, a) && OnlyRetires(t, mid, keep, b)
    ensures Before(t, a, b) <==> Before(mid, a, b)
  {
  }

  /** Some run of the job is kept before and after, the same one or one that ties with it. */
  ghost predicate KeepsOrTies(
    t: Table, scope: Scope, active: seq<RunId>, mid: Table, again: seq<RunId>, jobId: JobId)
    requires Fetched(t, active) && Fetched(mid, again) && jobId in Survivors(t, scope, active)
  {
    jobId in Survivors(mid, scope, again) &&
    var s, r := Survivors(t, scope, active)[jobId], Survivors(mid, scope, again)[jobId];
    r in t && Active(t[r].status) && t[r].jobId == jobId && !Before(t, s, r) && !Before(t, r, s)
  }

  /**
   * Killed after any of its writes and started again, the repair keeps the same run of each job, or one that ties with
   * it; where no two runs of a job tie, exactly the same. And it deals with the same jobs.
   */
  lemma InterruptedRepairKeepsSurvivors(
      t: Table, scope: Scope, active: seq<RunId>, k: nat, mid: Table, now: int, again: seq<RunId>, jobId: JobId)
    requires Fetched(t, active) && Midway(t, scope, active, k, mid, now) && Fetched(mid, again)
    ensures jobId in Survivors(t, scope, active) ==> KeepsOrTies(t, scope, active, mid, again, jobId)
    ensures jobId in Survivors(mid, scope, again) ==> jobId in Survivors(t, scope, active)
  {
    if jobId in Survivors(t, scope, active) {
      var s := Survivors(t, scope, active)[jobId];
      SurvivorIsActive(t, scope, active, jobId);
      MidwayRow(t, scope, active, k, mid, now, s);
      HasSurvivor(mid, scope, again, s);
      var r := Survivors(mid, scope, again)[jobId];
      SurvivorIsActive(mid, scope, again, jobId);
      assert r in t;
      MidwayRow(t, scope, active, k, mid, now, r);
      HasSurvivor(t, scope, active, r);
      SameOrder(t, mid, Survivors(t, scope, active), s, r);
    }
    if jobId in Survivors(mid, scope, again) {
      SurvivorIsActive(mid, scope, again, jobId);
      MidwayRow(t, scope, active, k, mid, now, Survivors(mid, scope, again)[jobId]);
      HasSurvivor(t, scope, active, Survivors(mid, scope, again)[jobId]);
    }
  }

  // ---- owners ----

  /** The owner of `id` still has an active run for the job of `id`. */
  ghost predicate OwnerIsServed(t: Table, u: Table, id: RunId)
    requires id in t
  {
    exists s :: s in u && Active(u[s].status) && u[s].jobId == t[id].jobId && u[s].userId == t[id].userId
  }

  /** All active in-scope runs of one job belong to one owner. */
  ghost predicate OneOwnerPerJob(t: Table, scope: Scope) {
    forall a, b | a in t && b in t && Active(t[a].status) && Active(t[b].status) ::
      t[a].jobId == t[b].jobId && scope.Contains(t[a].jobId) ==> t[a].userId == t[b].userId
  }

  /**
   * The repair groups by job id alone. Everyone with an active in-scope run for a job still has one for it afterwards
   * exactly when no job has active runs of two owners.
   */
  lemma EveryOwnerIsServedIff(t: Table, scope: Scope, active: seq<RunId>, now: int)
    requires Fetched(t, active)
    ensures (forall id :: id in t && Active(t[id].status) && scope.Contains(t[id].jobId)
               ==> OwnerIsServed(t, FullyRepaired(t, scope, active, now), id))
       <==> OneOwnerPerJob(t, scope)
  {
    var u := FullyRepaired(t, scope, active, now);
    if forall id :: id in t && Active(t[id].status) && scope.Contains(t[id].jobId) ==> OwnerIsServed(t, u, id) {
      forall a, b | a in t && b in t && Active(t[a].status) && Active(t[b].status)
        ensures t[a].jobId == t[b].jobId && scope.Contains(t[a].jobId) ==> t[a].userId == t[b].userId
      {
        if t[a].jobId == t[b].jobId && scope.Contains(t[a].jobId) {
          assert OwnerIsServed(t, u, a) && OwnerIsServed(t, u, b);
          ServedMeansSurvivor(t, scope, active, now, a);
          ServedMeansSurvivor(t, scope, active, now, b);
        }
      }
    }
    if OneOwnerPerJob(t, scope) {
      forall id | id in t && Active(t[id].status) && scope.Contains(t[id].jobId) ensures OwnerIsServed(t, u, id) {
        RepairVerdict(t, scope, active, now, id);
        RepairVerdict(t, scope, active, now, Survivors(t, scope, active)[t[id].jobId]);
      }
    }
  }

  lemma ServedMeansSurvivor(t: Table, scope: Scope, active: seq<RunId>, now: int, id: RunId)
    requires Fetched(t, active) && id in t && Active(t[id].status) && scope.Contains(t[id].jobId)
    requires OwnerIsServed(t, FullyRepaired(t, scope, active, now), id)
    ensures t[id].jobId in Survivors(t, scope, active)
    ensures t[Survivors(t, scope, active)[t[id].jobId]].userId == t[id].userId
  {
    var u := FullyRepaired(t, scope, active, now);
    var s :| s in u && Active(u[s].status) && u[s].jobId == t[id].jobId && u[s].userId == t[id].userId;
    ActiveAfterIsSurvivor(t, scope, active, now, s);
  }

  lemma LeastOfTwoSurvives(t: Table, scope: Scope, active: seq<RunId>, a: RunId, b: RunId)
    requires Fetched(t, active) && t.Keys == {a, b} && Active(t[a].status) && t[a].jobId == t[b].jobId
    requires scope.Contains(t[a].jobId) && Before(t, a, b)
    ensures t[a].jobId in Survivors(t, scope, active) && Survivors(t, scope, active)[t[a].jobId] == a
  {
    assert a in active;
    MembersOfFetched(t, scope, active, t[a].jobId);
    assert Survivors(t, scope, active)[t[a].jobId] in t.Keys;
  }

  lemma LaterOwnerLoses(t: Table, scope: Scope, active: seq<RunId>, now: int, a: RunId, b: RunId)
    requires Fetched(t, active) && t.Keys == {a, b} && Active(t[a].status) && Active(t[b].status)
    requires t[a].jobId == t[b].jobId && scope.Contains(t[a].jobId) && Before(t, a, b) && t[a].userId != t[b].userId
    ensures !OwnerIsServed(t, FullyRepaired(t, scope, active, now), b)
  {
    if OwnerIsServed(t, FullyRepaired(t, scope, active, now), b) {
      ServedMeansSurvivor(t, scope, active, now, b);
      LeastOfTwoSurvives(t, scope, active, a, b);
    }
  }

  /** One queued run of the same job for each of two people. */
  function TwoQueued(row: Row): Table {
    map["a" := row.(userId := Some("ann"), createdAt := 0), "b" := row.(userId := Some("bob"), createdAt := 1)]
  }

  /** Two people queue the same job, as enqueueing allows; the next worker start leaves the later one without a run. */
  lemma TwoOwnersOneJob(row: Row, active: seq<RunId>, scope: Scope, now: int)
    requires row.status == Queued && row.stoppedFieldLabel == None && scope.Contains(row.jobId)
    requires Fetched(TwoQueued(row), active)
    ensures "b" in TwoQueued(row)
    ensures !OwnerIsServed(TwoQueued(row), FullyRepaired(TwoQueued(row), scope, active, now), "b")
  {
    assert Some("ann") != Some("bob") by {
      assert "ann"[0] != "bob"[0];
    }
    LaterOwnerLoses(TwoQueued(row), scope, active, now, "a", "b");
  }
}
