/** The chunked, re-runnable copy of a local database into PostgreSQL. */
module TableCopy {
  import opened Prelude

  /** A reference to a row of another table; tables are numbered in copy order. */
  type Key = (nat, string)

  /** `uniques` holds the row's values under the table's secondary unique constraints, tagged by constraint. */
  datatype Row = Row(id: string, uniques: set<string>, refs: seq<Key>, data: string)

  type Db = map<Key, Row>

  /** A row of the table already holds one of this row's secondary unique values. */
  predicate Clashes(db: Db, t: nat, row: Row) {
    exists k :: k in db && k.0 == t && !(db[k].uniques !! row.uniques)
  }

  /** What `skipDuplicates` skips. */
  predicate Conflicts(db: Db, t: nat, row: Row) {
    (t, row.id) in db || Clashes(db, t, row)
  }

  function InsertRow(db: Db, t: nat, row: Row): Db {
    if Conflicts(db, t, row) then db else db[(t, row.id) := row]
  }

  /** All rows of one table, one after the other. */
  function InsertRows(db: Db, t: nat, rows: seq<Row>): Db {
    if rows == [] then db else InsertRow(InsertRows(db, t, rows[..|rows| - 1]), t, rows[|rows| - 1])
  }

  /** No row refers to a missing row: what the foreign keys enforce after every statement. */
  ghost predicate Closed(db: Db) {
    forall k, r :: k in db && r in db[k].refs ==> r in db
  }

  lemma {:induction false} InsertConcat(db: Db, t: nat, a: seq<Row>, b: seq<Row>)
    ensures InsertRows(db, t, a + b) == InsertRows(InsertRows(db, t, a), t, b)
    decreases |b|
  {
    if b == [] {
      assert a + b == a;
    } else {
      var n := |b| - 1;
      assert (a + b)[..|a + b| - 1] == a + b[..n];
      InsertConcat(db, t, a, b[..n]);
    }
  }

  /** Copying never changes or removes a row that is there. */
  lemma {:induction false} InsertOnlyAdds(db: Db, t: nat, rows: seq<Row>)
    ensures var u := InsertRows(db, t, rows);
            && (forall k :: k in db ==> k in u && u[k] == db[k])
            && (forall k :: k in u && k !in db ==> k.0 == t && u[k] in rows && u[k].id == k.1)
            && |db| <= |u|
  {
    if rows != [] {
      var before := InsertRows(db, t, rows[..|rows| - 1]);
      InsertOnlyAdds(db, t, rows[..|rows| - 1]);
      var row := rows[|rows| - 1];
      assert forall r :: r in rows[..|rows| - 1] ==> r in rows;
      if !Conflicts(before, t, row) {
        AddedKeyGrows(before, (t, row.id), row);
      }
    }
  }

  lemma AddedKeyGrows(db: Db, k: Key, row: Row)
    requires k !in db
    ensures |db[k := row]| == |db| + 1
  {
    assert db[k := row].Keys == db.Keys + {k};
  }

  ghost predicate RefersElsewhere(t: nat, rows: seq<Row>) {
    forall row, r :: row in rows && r in row.refs ==> r.0 != t
  }

  // ---- the copy ----

  const CHUNK := 500

  function ChunkEnd(index: nat, size: nat): nat {
    if index + CHUNK <= size then index + CHUNK else size
  }

  /** So many chunks went in and the next one was refused: the rows before it are in, the rest of the table is not. */
  ghost predicate StoppedAtChunk(before: Db, t: nat, rows: seq<Row>, chunks: nat, after: Db) {
    var end := chunks * 500;
    && end < |rows| && after == InsertRows(before, t, rows[..end])
    && !Closed(InsertRows(before, t, rows[..if end + 500 <= |rows| then end + 500 else |rows|]))
  }

  ghost predicate StoppedInTable(before: Db, t: nat, listed: Option<seq<Row>>, after: Db) {
    listed.Some? && exists chunks :: StoppedAtChunk(before, t, listed.value, chunks, after)
  }

  /** The copy stopped in table `t`, with every earlier table in. */
  ghost predicate StoppedAtTable(before: Db, source: seq<Option<seq<Row>>>, t: int, after: Db) {
    0 <= t < |source| && StoppedInTable(CopyAll(before, source, t), t, source[t], after)
  }

  class Destination {
    var db: Db

    constructor (db: Db)
      ensures this.db == db
    {
      this.db := db;
    }

    /** `createMany({ data, skipDuplicates: true })`: all or nothing, refused if a foreign key would dangle. */
    method CreateMany(t: nat, rows: seq<Row>) returns (count: Option<nat>)
      requires Closed(db)
      modifies this
      ensures count.Some? <==> Closed(InsertRows(old(db), t, rows))
      ensures db == if count.Some? then InsertRows(old(db), t, rows) else old(db)
      ensures count.Some? ==> |db| == |old(db)| + count.value
    {
      var after := InsertRows(db, t, rows);
      InsertOnlyAdds(db, t, rows);
      if exists k :: k in after && exists r :: r in after[k].refs && r !in after {
        return None;
      }
      var written := |after| - |db|;
      db := after;
      return Some(written);
    }

    /** One chunk; `start` is what the table's copy began with. */
    method CopyChunk(t: nat, rows: seq<Row>, index: nat, ghost start: Db, ghost chunks: nat)
      returns (count: Option<nat>, end: nat)
      requires index == chunks * CHUNK < |rows| && Closed(start) && RefersElsewhere(t, rows)
      requires db == InsertRows(start, t, rows[..index]) && Closed(db)
      modifies this
      ensures end == ChunkEnd(index, |rows|) && index < end <= |rows|
      ensures count.Some? ==>
        db == InsertRows(start, t, rows[..end]) && Closed(db) && |db| == |old(db)| + count.value
      ensures count.None? ==>
        db == old(db) && StoppedAtChunk(start, t, rows, chunks, db) && !Closed(InsertRows(start, t, rows))
    {
      end := ChunkEnd(index, |rows|);
      assert rows[..end] == rows[..index] + rows[index..end];
      InsertConcat(start, t, rows[..index], rows[index..end]);
      count := CreateMany(t, rows[index..end]);
      if count.None? {
        DanglingStays(start, t, rows, end);
      }
    }

    /** One table in chunks. Stops at the first refused chunk; `written` counts the rows that went in. */
    method CopyTable(t: nat, rows: seq<Row>) returns (ok: bool, written: nat)
      requires Closed(db) && RefersElsewhere(t, rows)
      modifies this
      ensures ok <==> Closed(InsertRows(old(db), t, rows))
      ensures ok ==> db == InsertRows(old(db), t, rows)
      ensures !ok ==> exists chunks :: StoppedAtChunk(old(db), t, rows, chunks, db)
      ensures Closed(db) && |db| == |old(db)| + written
    {
      written := 0;
      var index: nat := 0;
      ghost var start := db;
      ghost var chunks: nat := 0;
      while index < |rows|
        invariant index <= |rows| && (index < |rows| ==> index == chunks * CHUNK)
        invariant db == InsertRows(start, t, rows[..index]) && Closed(db)
        invariant |db| == |start| + written
      {
        var count, end := CopyChunk(t, rows, index, start, chunks);
        if count.None? {
          return false, written;
        }
        written := written + count.value;
        index, chunks := end, chunks + 1;
      }
      assert rows[..index] == rows;
      ok := true;
    }

    /** One turn of the loop in `main`; a table the source does not have is skipped. */
    method CopyListed(t: nat, listed: Option<seq<Row>>) returns (ok: bool, written: nat)
      requires Closed(db) && (listed.Some? ==> RefersElsewhere(t, listed.value))
      modifies this
      ensures ok <==> Closed(InsertListed(old(db), t, listed))
      ensures ok ==> db == InsertListed(old(db), t, listed)
      ensures !ok ==> StoppedInTable(old(db), t, listed, db)
      ensures Closed(db) && |db| == |old(db)| + written
    {
      if listed.None? {
        return true, 0;
      }
      ok, written := CopyTable(t, listed.value);
    }

    /** `main`: every table in order. */
    method Migrate(source: seq<Option<seq<Row>>>) returns (ok: bool, written: nat)
      requires Closed(db) && ParentsFirst(source)
      modifies this
      ensures ok <==> Closed(CopyAll(old(db), source, |source|))
      ensures ok ==> db == CopyAll(old(db), source, |source|)
      ensures !ok ==> exists t :: StoppedAtTable(old(db), source, t, db)
      ensures Closed(db) && |db| == |old(db)| + written
    {
      ok, written := true, 0;
      ghost var start := db;
      var t: nat := 0;
      while ok && t < |source|
        invariant t <= |source| && Closed(db) && |db| == |start| + written
        invariant if ok then db == CopyAll(start, source, t)
                  else !Closed(CopyAll(start, source, t)) && StoppedAtTable(start, source, t - 1, db)
        decreases |source| - t, ok
      {
        var count;
        ok, count := CopyListed(t, source[t]);
        t, written := t + 1, written + count;
      }
      if !ok {
        DanglingStaysUpTo(start, source, t, |source|);
      }
    }
  }

  function InsertListed(db: Db, t: nat, listed: Option<seq<Row>>): Db {
    if listed.None? then db else InsertRows(db, t, listed.value)
  }

  /** The first `n` tables, each in one pass. */
  function CopyAll(db: Db, source: seq<Option<seq<Row>>>, n: nat): Db
    requires n <= |source|
  {
    if n == 0 then db else InsertListed(CopyAll(db, source, n - 1), n - 1, source[n - 1])
  }

  /** Every reference points to a table copied earlier. */
  ghost predicate ParentsFirst(source: seq<Option<seq<Row>>>) {
    forall t, row, r :: 0 <= t < |source| && source[t].Some? && row in source[t].value && r in row.refs ==> r.0 < t
  }

  lemma InsertSplit(db: Db, t: nat, rows: seq<Row>, end: nat)
    requires end <= |rows|
    ensures InsertRows(db, t, rows) == InsertRows(InsertRows(db, t, rows[..end]), t, rows[end..])
  {
    assert rows == rows[..end] + rows[end..];
    InsertConcat(db, t, rows[..end], rows[end..]);
  }

  /** A reference that dangles when a chunk goes in still dangles once the whole table is in. */
  lemma DanglingStays(db: Db, t: nat, rows: seq<Row>, end: nat)
    requires Closed(db) && end <= |rows| && RefersElsewhere(t, rows)
    requires !Closed(InsertRows(db, t, rows[..end]))
    ensures !Closed(InsertRows(db, t, rows))
  {
    var mid := InsertRows(db, t, rows[..end]);
    var k, r :| k in mid && r in mid[k].refs && r !in mid;
    InsertSplit(db, t, rows, end);
    InsertKey(db, t, rows[..end], k);
    InsertKey(db, t, rows[..end], r);
    InsertKey(mid, t, rows[end..], k);
    InsertKey(mid, t, rows[end..], r);
    assert k in db ==> r in db;
  }

  lemma InsertKey(db: Db, t: nat, rows: seq<Row>, k: Key)
    ensures var u := InsertRows(db, t, rows);
            && (k in db ==> k in u && u[k] == db[k])
            && (k in u && k !in db ==> k.0 == t && u[k] in rows && u[k].id == k.1)
  {
    InsertOnlyAdds(db, t, rows);
  }

  lemma {:induction false} CopyKey(db: Db, source: seq<Option<seq<Row>>>, m: nat, n: nat, k: Key)
    requires m <= n <= |source|
    ensures var a := CopyAll(db, source, m); var b := CopyAll(db, source, n);
            && (k in a ==> k in b && b[k] == a[k])
            && (k in b && k !in a ==> m <= k.0 < n)
  {
    if m < n {
      CopyKey(db, source, m, n - 1, k);
      if source[n - 1].Some? {
        InsertKey(CopyAll(db, source, n - 1), n - 1, source[n - 1].value, k);
      }
    }
  }

  lemma CopyAllOnlyAdds(db: Db, source: seq<Option<seq<Row>>>, m: nat, n: nat)
    requires m <= n <= |source|
    ensures var a := CopyAll(db, source, m); var b := CopyAll(db, source, n);
            && (forall k :: k in a ==> k in b && b[k] == a[k])
            && (forall k :: k in b && k !in a ==> m <= k.0 < n)
  {
    forall k: Key
      ensures var a := CopyAll(db, source, m); var b := CopyAll(db, source, n);
              (k in a ==> k in b && b[k] == a[k]) && (k in b && k !in a ==> m <= k.0 < n)
    {
      CopyKey(db, source, m, n, k);
    }
  }

  /** Where a row of the copy came from. */
  lemma {:induction false} CopiedFrom(db: Db, source: seq<Option<seq<Row>>>, n: nat, k: Key)
    requires n <= |source| && k in CopyAll(db, source, n) && k !in db
    ensures k.0 < n && source[k.0].Some? && CopyAll(db, source, n)[k] in source[k.0].value
        && CopyAll(db, source, n)[k].id == k.1
  {
    var before := CopyAll(db, source, n - 1);
    if source[n - 1].Some? {
      InsertKey(before, n - 1, source[n - 1].value, k);
    }
    if k in before {
      CopiedFrom(db, source, n - 1, k);
    }
  }

  lemma DanglingStaysUpTo(db: Db, source: seq<Option<seq<Row>>>, m: nat, n: nat)
    requires Closed(db) && ParentsFirst(source) && m <= n <= |source| && !Closed(CopyAll(db, source, m))
    ensures !Closed(CopyAll(db, source, n))
  {
    var mid := CopyAll(db, source, m);
    var k, r :| k in mid && r in mid[k].refs && r !in mid;
    CopyKey(db, source, 0, m, k);
    CopyKey(db, source, 0, m, r);
    assert k in db ==> r in db;
    CopiedFrom(db, source, m, k);
    CopyKey(db, source, m, n, k);
    CopyKey(db, source, m, n, r);
  }

  /** Within one table, what is closed after more rows was closed after fewer. */
  lemma FewerRowsClosed(db: Db, t: nat, rows: seq<Row>, few: nat, more: nat)
    requires Closed(db) && few <= more <= |rows| && RefersElsewhere(t, rows)
    requires Closed(InsertRows(db, t, rows[..more]))
    ensures Closed(InsertRows(db, t, rows[..few]))
  {
    assert rows[..more][..few] == rows[..few];
    assert forall row :: row in rows[..more] ==> row in rows;
    if !Closed(InsertRows(db, t, rows[..few])) {
      DanglingStays(db, t, rows[..more], few);
    }
  }

  /**
   * Whenever the copy has come to a state without dangling references, every earlier state was free of them as well.
   */
  lemma EarlierStatesWereClosed(db: Db, source: seq<Option<seq<Row>>>, t: nat, stop: nat, m: nat, end: nat)
    requires Closed(db) && ParentsFirst(source) && m <= t < |source| && source[t].Some? && source[m].Some?
    requires stop <= |source[t].value| && end <= |source[m].value| && (m == t ==> end <= stop)
    requires Closed(CopyAll(db, source, t)) && Closed(InsertRows(CopyAll(db, source, t), t, source[t].value[..stop]))
    ensures Closed(CopyAll(db, source, m)) && Closed(InsertRows(CopyAll(db, source, m), m, source[m].value[..end]))
  {
    if !Closed(CopyAll(db, source, m)) {
      DanglingStaysUpTo(db, source, m, t);
    }
    ParentsAreElsewhere(source, m);
    if m == t {
      FewerRowsClosed(CopyAll(db, source, t), t, source[t].value, end, stop);
    } else {
      if !Closed(CopyAll(db, source, m + 1)) {
        DanglingStaysUpTo(db, source, m + 1, t);
      }
      assert source[m].value[..|source[m].value|] == source[m].value;
      FewerRowsClosed(CopyAll(db, source, m), m, source[m].value, end, |source[m].value|);
    }
  }

  lemma ParentsAreElsewhere(source: seq<Option<seq<Row>>>, t: nat)
    requires ParentsFirst(source) && t < |source| && source[t].Some?
    ensures RefersElsewhere(t, source[t].value)
  {
  }

  // ---- re-running ----

  /** Every row of the table is already there under its id or its unique value. */
  ghost predicate AllConflict(db: Db, t: nat, rows: seq<Row>) {
    forall row :: row in rows ==> Conflicts(db, t, row)
  }

  lemma {:induction false} NothingToInsert(db: Db, t: nat, rows: seq<Row>)
    requires AllConflict(db, t, rows)
    ensures InsertRows(db, t, rows) == db
  {
    if rows != [] {
      assert forall r :: r in rows[..|rows| - 1] ==> r in rows;
      assert rows[|rows| - 1] in rows;
      NothingToInsert(db, t, rows[..|rows| - 1]);
    }
  }

  lemma ConflictsPersist(a: Db, b: Db, t: nat, row: Row)
    requires Conflicts(a, t, row) && forall k :: k in a ==> k in b && b[k] == a[k]
    ensures Conflicts(b, t, row)
  {
    if Clashes(a, t, row) {
      var k :| k in a && k.0 == t && !(a[k].uniques !! row.uniques);
      assert k in b && b[k] == a[k];
    }
  }

  lemma {:induction false} InsertedConflict(db: Db, t: nat, rows: seq<Row>)
    ensures AllConflict(InsertRows(db, t, rows), t, rows)
  {
    if rows != [] {
      var front := rows[..|rows| - 1];
      InsertedConflict(db, t, front);
      var before, after := InsertRows(db, t, front), InsertRows(db, t, rows);
      forall row | row in rows ensures Conflicts(after, t, row) {
        if row in front {
          ConflictsPersist(before, after, t, row);
        } else {
          assert row == rows[|rows| - 1];
        }
      }
    }
  }

  /** A second copy of the same source writes nothing and changes nothing. */
  lemma {:induction false} RerunWritesNothing(db: Db, source: seq<Option<seq<Row>>>, n: nat)
    requires n <= |source|
    ensures CopyAll(CopyAll(db, source, |source|), source, n) == CopyAll(db, source, |source|)
  {
    if n > 0 {
      var full := CopyAll(db, source, |source|);
      RerunWritesNothing(db, source, n - 1);
      if source[n - 1].Some? {
        CopiedTableConflicts(db, source, n - 1);
        NothingToInsert(full, n - 1, source[n - 1].value);
      }
    }
  }

  lemma CopiedTableConflicts(db: Db, source: seq<Option<seq<Row>>>, t: nat)
    requires t < |source| && source[t].Some?
    ensures AllConflict(CopyAll(db, source, |source|), t, source[t].value)
  {
    InsertedConflict(CopyAll(db, source, t), t, source[t].value);
    CopyAllOnlyAdds(db, source, t + 1, |source|);
    forall row | row in source[t].value ensures Conflicts(CopyAll(db, source, |source|), t, row) {
      ConflictsPersist(CopyAll(db, source, t + 1), CopyAll(db, source, |source|), t, row);
    }
  }

  // ---- a copy stopped half way ----

  /** The destination after `end` rows of table `t`: where a refusal, an error or a kill may leave it. */
  function Halfway(db: Db, source: seq<Option<seq<Row>>>, t: nat, end: nat): Db
    requires t < |source| && source[t].Some? && end <= |source[t].value|
  {
    InsertRows(CopyAll(db, source, t), t, source[t].value[..end])
  }

  /** The tables copied before the stop have nothing left to write. */
  lemma {:induction false} EarlierTablesAreIn(db: Db, source: seq<Option<seq<Row>>>, t: nat, end: nat, n: nat)
    requires n <= t < |source| && source[t].Some? && end <= |source[t].value|
    ensures CopyAll(Halfway(db, source, t, end), source, n) == Halfway(db, source, t, end)
  {
    if n > 0 {
      EarlierTablesAreIn(db, source, t, end, n - 1);
      if source[n - 1].Some? {
        EarlierTableConflicts(db, source, t, end, n - 1);
        NothingToInsert(Halfway(db, source, t, end), n - 1, source[n - 1].value);
      }
    }
  }

  lemma HalfwayExtends(db: Db, source: seq<Option<seq<Row>>>, t: nat, end: nat, m: nat)
    requires m <= t < |source| && source[t].Some? && end <= |source[t].value|
    ensures var a, b := CopyAll(db, source, m), Halfway(db, source, t, end);
            forall k :: k in a ==> k in b && b[k] == a[k]
  {
    CopyAllOnlyAdds(db, source, m, t);
    InsertOnlyAdds(CopyAll(db, source, t), t, source[t].value[..end]);
  }

  lemma EarlierTableConflicts(db: Db, source: seq<Option<seq<Row>>>, t: nat, end: nat, m: nat)
    requires m < t < |source| && source[t].Some? && source[m].Some? && end <= |source[t].value|
    ensures AllConflict(Halfway(db, source, t, end), m, source[m].value)
  {
    InsertedConflict(CopyAll(db, source, m), m, source[m].value);
    HalfwayExtends(db, source, t, end, m + 1);
    forall row | row in source[m].value ensures Conflicts(Halfway(db, source, t, end), m, row) {
      ConflictsPersist(CopyAll(db, source, m + 1), Halfway(db, source, t, end), m, row);
    }
  }

  lemma RestOfTable(db: Db, t: nat, rows: seq<Row>, end: nat)
    requires end <= |rows|
    ensures InsertRows(InsertRows(db, t, rows[..end]), t, rows) == InsertRows(db, t, rows)
  {
    var mid := InsertRows(db, t, rows[..end]);
    InsertedConflict(db, t, rows[..end]);
    NothingToInsert(mid, t, rows[..end]);
    InsertSplit(mid, t, rows, end);
    InsertSplit(db, t, rows, end);
  }

  lemma {:induction false} ResumedFrom(db: Db, source: seq<Option<seq<Row>>>, t: nat, end: nat, n: nat)
    requires t < n <= |source| && source[t].Some? && end <= |source[t].value|
    ensures CopyAll(Halfway(db, source, t, end), source, n) == CopyAll(db, source, n)
  {
    if n == t + 1 {
      EarlierTablesAreIn(db, source, t, end, t);
      RestOfTable(CopyAll(db, source, t), t, source[t].value, end);
    } else {
      ResumedFrom(db, source, t, end, n - 1);
    }
  }

  /** Stopped after any chunk, or any row, and run again, the copy ends where one undisturbed copy ends. */
  lemma ResumedCopyIsOneCopy(db: Db, source: seq<Option<seq<Row>>>, t: nat, end: nat)
    requires t < |source| && source[t].Some? && end <= |source[t].value|
    ensures CopyAll(Halfway(db, source, t, end), source, |source|) == CopyAll(db, source, |source|)
  {
    ResumedFrom(db, source, t, end, |source|);
  }

  // ---- when a copy goes through ----

  /** The source is a database of its own: ids and unique values are distinct, and references resolve. */
  ghost predicate SourceIsClosed(source: seq<Option<seq<Row>>>) {
    && ParentsFirst(source)
    && (forall t :: 0 <= t < |source| && source[t].Some? ==> DistinctRows(source[t].value))
    && (forall t, row, r :: 0 <= t < |source| && source[t].Some? && row in source[t].value && r in row.refs ==>
      Resolves(source, r))
  }

  ghost predicate Resolves(source: seq<Option<seq<Row>>>, r: Key) {
    r.0 < |source| && source[r.0].Some? && exists p :: p in source[r.0].value && p.id == r.1
  }

  ghost predicate DistinctRows(rows: seq<Row>) {
    forall i, j :: 0 <= i < j < |rows| ==>
      rows[i].id != rows[j].id && rows[i].uniques !! rows[j].uniques
  }

  /** Inserting the rows before it makes no difference to whether the last row conflicts. */
  lemma LastConflictsIff(db: Db, t: nat, rows: seq<Row>)
    requires DistinctRows(rows) && rows != []
    ensures Conflicts(InsertRows(db, t, rows[..|rows| - 1]), t, rows[|rows| - 1])
        <==> Conflicts(db, t, rows[|rows| - 1])
  {
    var front, last := rows[..|rows| - 1], rows[|rows| - 1];
    var before := InsertRows(db, t, front);
    InsertOnlyAdds(db, t, front);
    if Conflicts(db, t, last) {
      ConflictsPersist(db, before, t, last);
    } else {
      forall k | k in before && k !in db ensures k != (t, last.id) && before[k].uniques !! last.uniques {
        var i :| 0 <= i < |front| && front[i] == before[k];
        assert rows[i] == front[i];
      }
    }
  }

  /** With distinct source rows, what goes in is exactly what does not conflict with the destination. */
  lemma {:induction false} InsertedIff(db: Db, t: nat, rows: seq<Row>)
    requires DistinctRows(rows)
    ensures forall row :: row in rows ==> ((t, row.id) in InsertRows(db, t, rows)
        <==> (t, row.id) in db || !Conflicts(db, t, row))
    ensures forall row :: row in rows && !Conflicts(db, t, row) ==> InsertRows(db, t, rows)[(t, row.id)] == row
  {
    if rows != [] {
      var front, last := rows[..|rows| - 1], rows[|rows| - 1];
      InsertedIff(db, t, front);
      InsertOnlyAdds(db, t, front);
      LastConflictsIff(db, t, rows);
      forall row | row in rows
        ensures (t, row.id) in InsertRows(db, t, rows) <==> (t, row.id) in db || !Conflicts(db, t, row)
        ensures !Conflicts(db, t, row) ==> InsertRows(db, t, rows)[(t, row.id)] == row
      {
        if row in front {
          var i :| 0 <= i < |front| && front[i] == row;
          assert rows[i].id != rows[|rows| - 1].id;
        } else {
          assert row == last;
        }
      }
    }
  }

  /** Which source rows are in the destination afterwards: all but those clashing over a secondary unique value. */
  lemma CopiedIff(db: Db, source: seq<Option<seq<Row>>>, t: nat, row: Row)
    requires SourceIsClosed(source) && t < |source| && source[t].Some? && row in source[t].value
    ensures (t, row.id) in CopyAll(db, source, |source|) <==> (t, row.id) in db || !Clashes(db, t, row)
    ensures !Conflicts(db, t, row) ==>
      (t, row.id) in CopyAll(db, source, |source|) && CopyAll(db, source, |source|)[(t, row.id)] == row
  {
    EarlierTablesDoNotConflict(db, source, t, row);
    InsertedIff(CopyAll(db, source, t), t, source[t].value);
    CopyAllOnlyAdds(db, source, t + 1, |source|);
  }

  lemma EarlierTablesDoNotConflict(db: Db, source: seq<Option<seq<Row>>>, t: nat, row: Row)
    requires t <= |source|
    ensures Conflicts(CopyAll(db, source, t), t, row) <==> Conflicts(db, t, row)
    ensures (t, row.id) in CopyAll(db, source, t) <==> (t, row.id) in db
  {
    var a := CopyAll(db, source, t);
    CopyAllOnlyAdds(db, source, 0, t);
    if Conflicts(db, t, row) {
      ConflictsPersist(db, a, t, row);
    }
  }

  /** The source row under this key stays out, because the destination holds its unique value under another id. */
  ghost predicate Displaced(db: Db, source: seq<Option<seq<Row>>>, r: Key) {
    r !in db && r.0 < |source| && source[r.0].Some?
      && exists p :: p in source[r.0].value && p.id == r.1 && Clashes(db, r.0, p)
  }

  /** No row that would go in refers to a displaced row. */
  ghost predicate NoOrphans(db: Db, source: seq<Option<seq<Row>>>) {
    forall t, row, r ::
      0 <= t < |source| && source[t].Some? && row in source[t].value && !Conflicts(db, t, row) && r in row.refs
      ==> !Displaced(db, source, r)
  }

  /** The copy goes through exactly when nothing it would write refers to a displaced row. */
  lemma CopySucceedsIff(db: Db, source: seq<Option<seq<Row>>>)
    requires Closed(db) && SourceIsClosed(source)
    ensures Closed(CopyAll(db, source, |source|)) <==> NoOrphans(db, source)
  {
    if Closed(CopyAll(db, source, |source|)) {
      ClosedHasNoOrphans(db, source);
    }
    if NoOrphans(db, source) {
      NoOrphansIsClosed(db, source);
    }
  }

  // ---- the same in columns ----

  /** A row of the table in the destination has one of this row's secondary unique values. */
  ghost predicate ValueIsTaken(db: Db, t: nat, row: Row) {
    exists k, value :: k in db && k.0 == t && value in db[k].uniques && value in row.uniques
  }

  lemma TakenMeansClash(db: Db, t: nat, row: Row)
    ensures Clashes(db, t, row) <==> ValueIsTaken(db, t, row)
  {
    if k :| k in db && k.0 == t && !(db[k].uniques !! row.uniques) {
      var value :| value in db[k].uniques && value in row.uniques;
    }
  }

  /** The source has the row at this place. */
  ghost predicate Listed(source: seq<Option<seq<Row>>>, t: nat, row: Row) {
    t < |source| && source[t].Some? && row in source[t].value
  }

  /** The row goes in: neither its id nor one of its unique values is in the destination's table. */
  ghost predicate GoesIn(db: Db, source: seq<Option<seq<Row>>>, t: nat, row: Row) {
    Listed(source, t, row) && (t, row.id) !in db && !ValueIsTaken(db, t, row)
  }

  /** The destination afterwards: what was there, as it was, and the rows that go in, as they are in the source. */
  lemma CopyInColumns(db: Db, source: seq<Option<seq<Row>>>, k: Key)
    requires SourceIsClosed(source)
    ensures var after := CopyAll(db, source, |source|);
            && (k in db ==> k in after && after[k] == db[k])
            && (k !in db ==> (k in after <==> exists row :: GoesIn(db, source, k.0, row) && row.id == k.1))
            && (forall row :: GoesIn(db, source, k.0, row) && row.id == k.1 ==> k in after && after[k] == row)
  {
    var after := CopyAll(db, source, |source|);
    CopyAllOnlyAdds(db, source, 0, |source|);
    forall row | Listed(source, k.0, row) && row.id == k.1
      ensures k !in db && k in after ==> !ValueIsTaken(db, k.0, row)
      ensures GoesIn(db, source, k.0, row) ==> k in after && after[k] == row
    {
      CopiedIff(db, source, k.0, row);
      TakenMeansClash(db, k.0, row);
    }
    if k in after && k !in db {
      CopiedFrom(db, source, |source|, k);
      assert Listed(source, k.0, after[k]);
    }
  }

  /** A row that goes in refers to a row that is neither in the destination nor goes in, for its value is taken. */
  ghost predicate Strands(db: Db, source: seq<Option<seq<Row>>>, t: nat, row: Row, r: Key) {
    && GoesIn(db, source, t, row) && r in row.refs && r !in db
    && exists p :: Listed(source, r.0, p) && p.id == r.1 && ValueIsTaken(db, r.0, p)
  }

  lemma StrandsIffDisplaced(db: Db, source: seq<Option<seq<Row>>>, t: nat, row: Row, r: Key)
    ensures Strands(db, source, t, row, r) <==>
      Listed(source, t, row) && !Conflicts(db, t, row) && r in row.refs && Displaced(db, source, r)
  {
    TakenMeansClash(db, t, row);
    DisplacedInColumns(db, source, r);
  }

  lemma DisplacedInColumns(db: Db, source: seq<Option<seq<Row>>>, r: Key)
    ensures Displaced(db, source, r) <==>
      r !in db && exists p :: Listed(source, r.0, p) && p.id == r.1 && ValueIsTaken(db, r.0, p)
  {
    forall p ensures Clashes(db, r.0, p) <==> ValueIsTaken(db, r.0, p) {
      TakenMeansClash(db, r.0, p);
    }
    assert forall p :: Listed(source, r.0, p) ==> p in source[r.0].value;
  }

  /** The copy goes through exactly when no row that goes in is stranded. */
  lemma CopySucceedsInColumns(db: Db, source: seq<Option<seq<Row>>>)
    requires Closed(db) && SourceIsClosed(source)
    ensures Closed(CopyAll(db, source, |source|)) <==> forall t, row, r :: !Strands(db, source, t, row, r)
  {
    CopySucceedsIff(db, source);
    forall t: nat, row, r
      ensures Strands(db, source, t, row, r) <==>
        Listed(source, t, row) && !Conflicts(db, t, row) && r in row.refs && Displaced(db, source, r)
    {
      StrandsIffDisplaced(db, source, t, row, r);
    }
    if NoOrphans(db, source) {
      assert forall t, row, r :: !Strands(db, source, t, row, r);
    } else {
      var t, row, r :| 0 <= t < |source| && source[t].Some? && row in source[t].value && !Conflicts(db, t, row)
        && r in row.refs && Displaced(db, source, r);
      assert Strands(db, source, t, row, r);
    }
  }

  lemma ClosedHasNoOrphans(db: Db, source: seq<Option<seq<Row>>>)
    requires SourceIsClosed(source) && Closed(CopyAll(db, source, |source|))
    ensures NoOrphans(db, source)
  {
    forall t, row, r |
      0 <= t < |source| && source[t].Some? && row in source[t].value && !Conflicts(db, t, row) && r in row.refs
      ensures !Displaced(db, source, r)
    {
      CopiedIff(db, source, t, row);
      ArrivedIsNotDisplaced(db, source, r);
    }
  }

  lemma NoOrphansIsClosed(db: Db, source: seq<Option<seq<Row>>>)
    requires Closed(db) && SourceIsClosed(source) && NoOrphans(db, source)
    ensures Closed(CopyAll(db, source, |source|))
  {
    var full := CopyAll(db, source, |source|);
    forall k, r | k in full && r in full[k].refs ensures r in full {
      CopyKey(db, source, 0, |source|, k);
      CopyKey(db, source, 0, |source|, r);
      if k !in db {
        CopiedFrom(db, source, |source|, k);
        CopiedIff(db, source, k.0, full[k]);
        ResolvedArrives(db, source, r);
      }
    }
  }

  lemma ArrivedIsNotDisplaced(db: Db, source: seq<Option<seq<Row>>>, r: Key)
    requires SourceIsClosed(source) && r in CopyAll(db, source, |source|)
    ensures !Displaced(db, source, r)
  {
    if Displaced(db, source, r) {
      var p :| p in source[r.0].value && p.id == r.1 && Clashes(db, r.0, p);
      CopiedIff(db, source, r.0, p);
    }
  }

  lemma ResolvedArrives(db: Db, source: seq<Option<seq<Row>>>, r: Key)
    requires SourceIsClosed(source) && Resolves(source, r) && !Displaced(db, source, r)
    ensures r in CopyAll(db, source, |source|)
  {
    var p :| p in source[r.0].value && p.id == r.1;
    CopiedIff(db, source, r.0, p);
  }

  /** When the copy goes through, every state between two chunks is free of dangling references too. */
  lemma EveryPrefixIsClosed(db: Db, source: seq<Option<seq<Row>>>, t: nat, end: nat)
    requires Closed(db) && SourceIsClosed(source) && NoOrphans(db, source)
    requires t < |source| && source[t].Some? && end <= |source[t].value|
    ensures Closed(CopyAll(db, source, t))
    ensures Closed(InsertRows(CopyAll(db, source, t), t, source[t].value[..end]))
  {
    CopySucceedsIff(db, source);
    if !Closed(CopyAll(db, source, t + 1)) {
      DanglingStaysUpTo(db, source, t + 1, |source|);
    }
    if !Closed(CopyAll(db, source, t)) {
      DanglingStaysUpTo(db, source, t, |source|);
    }
    assert source[t].value[..|source[t].value|] == source[t].value;
    EarlierStatesWereClosed(db, source, t, |source[t].value|, t, end);
  }

  /** Into an empty database the copy always goes through and reproduces the source exactly. */
  lemma FreshCopyIsExact(source: seq<Option<seq<Row>>>, k: Key, row: Row)
    requires SourceIsClosed(source)
    ensures var full := CopyAll(map[], source, |source|);
            && Closed(full)
            && (k in full && full[k] == row <==>
                k.0 < |source| && source[k.0].Some? && row in source[k.0].value && row.id == k.1)
  {
    NoOrphansIsClosed(map[], source);
    if k in CopyAll(map[], source, |source|) {
      CopiedFrom(map[], source, |source|, k);
    }
    if k.0 < |source| && source[k.0].Some? && row in source[k.0].value && row.id == k.1 {
      CopiedIff(map[], source, k.0, row);
    }
  }

  /** A user in the first table and a session of that user in the second. */
  function UserAndSession(user: Row, session: Row): seq<Option<seq<Row>>> {
    [Some([user]), Some([session])]
  }

  lemma UserAndSessionClosed(user: Row, session: Row)
    requires user.refs == [] && session.refs == [(0, user.id)]
    ensures SourceIsClosed(UserAndSession(user, session))
  {
    var source := UserAndSession(user, session);
    assert Resolves(source, (0, user.id)) by {
      assert user in source[0].value;
    }
  }

  lemma SessionIsOrphaned(db: Db, user: Row, session: Row, k: Key)
    requires session.refs == [(0, user.id)] && (0, user.id) !in db && !Conflicts(db, 1, session)
    requires k in db && k.0 == 0 && !(db[k].uniques !! user.uniques)
    ensures !NoOrphans(db, UserAndSession(user, session))
  {
    var source := UserAndSession(user, session);
    assert user in source[0].value && session in source[1].value;
    assert Displaced(db, source, (0, user.id));
    assert (0, user.id) in session.refs;
  }

  /**
   * Not every destination will do. This one holds the user's e-mail address under a new id, so the old user row stays
   * out and the session that refers to it is refused.
   */
  lemma AddressUnderAnotherIdStopsTheCopy(db: Db, user: Row, newcomer: Row, session: Row)
    requires user.id != newcomer.id && user.uniques == {"email"} == newcomer.uniques && user.refs == [] == newcomer.refs
    requires db == map[(0, newcomer.id) := newcomer] && session.refs == [(0, user.id)]
    ensures var source := UserAndSession(user, session);
            Closed(db) && SourceIsClosed(source) && !Closed(CopyAll(db, source, |source|))
  {
    UserAndSessionClosed(user, session);
    assert "email" in user.uniques && "email" in newcomer.uniques;
    SessionIsOrphaned(db, user, session, (0, newcomer.id));
    CopySucceedsIff(db, UserAndSession(user, session));
  }

  // ---- the order of the tables ----

  datatype Table =
    | User | UserSession | UserProfile | Company | ApprovedAtsTenant | NewEmployerReview | SecurityQuarantineEntry
    | Job | AtsSyncRun | VerificationAttempt | MatchResult | InitialAiMatchJob | GeneratedDocument | ApplicationRun
    | AuditLogEntry | ResumeFact | ResumeDocument | ResumeBullet | ApplicationProfile | ApplicationPreferences
    | SensitiveAnswerPreferences | CompanyRelationshipFact | ApprovedAnswer | Education | Experience | Project
    | SyncLog | SavedFilter | AppSetting | GmailAccount | TrackedEmail | AssessmentInboxEntry | NearbyFirm

  /** Where the list that `main` walks through has the table. */
  function Position(table: Table): nat {
    match table
    case User => 0 case UserSession => 1 case UserProfile => 2 case Company => 3 case ApprovedAtsTenant => 4
    case NewEmployerReview => 5 case SecurityQuarantineEntry => 6 case Job => 7 case AtsSyncRun => 8
    case VerificationAttempt => 9 case MatchResult => 10 case InitialAiMatchJob => 11
    case GeneratedDocument => 12 case ApplicationRun => 13 case AuditLogEntry => 14 case ResumeFact => 15
    case ResumeDocument => 16 case ResumeBullet => 17 case ApplicationProfile => 18
    case ApplicationPreferences => 19 case SensitiveAnswerPreferences => 20 case CompanyRelationshipFact => 21
    case ApprovedAnswer => 22 case Education => 23 case Experience => 24 case Project => 25 case SyncLog => 26
    case SavedFilter => 27 case AppSetting => 28 case GmailAccount => 29 case TrackedEmail => 30
    case AssessmentInboxEntry => 31 case NearbyFirm => 32
  }

  /** The foreign keys the schema declares between these tables. */
  function Parents(child: Table): set<Table> {
    match child
    case InitialAiMatchJob => {User, Job, MatchResult}
    case MatchResult | GeneratedDocument | ApplicationRun => {User, Job}
    case VerificationAttempt => {Job}
    case ApprovedAtsTenant => {Company}
    case User | Company | NewEmployerReview | SecurityQuarantineEntry | Job | AtsSyncRun | ApplicationProfile
      | SyncLog | AppSetting | NearbyFirm => {}
    case _ => {User}
  }

  /** Tables are numbered as listed, and references follow the schema's foreign keys. */
  ghost predicate FollowsSchema(source: seq<Option<seq<Row>>>) {
    forall t, row, r :: 0 <= t < |source| && source[t].Some? && row in source[t].value && r in row.refs ==>
      SchemaAllows(t, r.0)
  }

  ghost predicate SchemaAllows(t: nat, p: nat) {
    exists child: Table, parent: Table :: Position(child) == t && Position(parent) == p && parent in Parents(child)
  }

  /** The list puts every parent before its children, so a source that follows the schema is copied parents first. */
  lemma ListedParentsFirst(source: seq<Option<seq<Row>>>)
    requires FollowsSchema(source)
    ensures ParentsFirst(source)
  {
    forall t, row, r | 0 <= t < |source| && source[t].Some? && row in source[t].value && r in row.refs ensures r.0 < t {
      AllowedIsEarlier(t, r.0);
    }
  }

  lemma AllowedIsEarlier(t: nat, p: nat)
    requires SchemaAllows(t, p)
    ensures p < t
  {
    var child: Table, parent: Table :| Position(child) == t && Position(parent) == p && parent in Parents(child);
    ParentIsEarlier(child, parent);
  }

  lemma ParentIsEarlier(child: Table, parent: Table)
    requires parent in Parents(child)
    ensures Position(parent) < Position(child)
  {
    if parent !in {User, Company, Job} {
      assert parent == MatchResult && child == InitialAiMatchJob;
    }
  }
}
