/** Small vocabulary shared by every model: options, filtered lists, subsequences. */
module Prelude {

  datatype Option<+T> = None | Some(value: T)

  /** The elements of `s` that satisfy `keep`, in order (`Array.prototype.filter`). */
  function Filter<T(!new)>(s: seq<T>, keep: T -> bool): (r: seq<T>)
    ensures |r| <= |s|
    ensures forall x :: x in r <==> x in s && keep(x)
  {
    if s == [] then []
    else if keep(s[0]) then [s[0]] + Filter(s[1..], keep)
    else Filter(s[1..], keep)
  }

  /** `s.map(f)` for a pure `f`. */
  function Map<A, B>(s: seq<A>, f: A -> B): (r: seq<B>)
    ensures |r| == |s|
    ensures forall i :: 0 <= i < |s| ==> r[i] == f(s[i])
  {
    if s == [] then [] else [f(s[0])] + Map(s[1..], f)
  }

  /** `a` can be obtained from `b` by deleting elements, order kept. */
  predicate IsSubsequence<T(==)>(a: seq<T>, b: seq<T>) {
    if a == [] then true
    else if b == [] then false
    else if a[0] == b[0] then IsSubsequence(a[1..], b[1..])
    else IsSubsequence(a, b[1..])
  }

  /** First occurrence of every value, in order (`Array.from(new Set(s))`). */
  function Dedupe<T(==,!new)>(s: seq<T>): (r: seq<T>)
    ensures forall x :: x in r <==> x in s
    ensures forall i, j :: 0 <= i < j < |r| ==> r[i] != r[j]
  {
    if s == [] then []
    else
      var front := Dedupe(s[..|s| - 1]);
      assert s == s[..|s| - 1] + [s[|s| - 1]];
      if s[|s| - 1] in front then front else front + [s[|s| - 1]]
  }

  /** `x` occurs in `s` before `y` does. */
  ghost predicate OccursFirst<T>(s: seq<T>, x: T, y: T) {
    exists p :: 0 <= p < |s| && s[p] == x && forall q :: 0 <= q <= p ==> s[q] != y
  }

  /** What is listed earlier occurs earlier. */
  lemma {:induction false} DedupeKeepsOrder<T(!new)>(s: seq<T>, i: nat, j: nat)
    requires i < j < |Dedupe(s)|
    ensures OccursFirst(s, Dedupe(s)[i], Dedupe(s)[j])
    decreases |s|
  {
    var front, last := s[..|s| - 1], s[|s| - 1];
    assert s == front + [last];
    var before := Dedupe(front);
    if j < |before| {
      DedupeKeepsOrder(front, i, j);
      var p :| 0 <= p < |front| && front[p] == before[i] && forall q :: 0 <= q <= p ==> front[q] != before[j];
      assert s[p] == before[i] && forall q :: 0 <= q <= p ==> s[q] != before[j];
    } else {
      assert before[i] in front && last !in front;
      var p :| 0 <= p < |front| && front[p] == before[i];
      assert s[p] == before[i] && forall q :: 0 <= q <= p ==> s[q] == front[q];
    }
  }

  /** The elements of `s` (`new Set(s)`). */
  function ToSet<T(==)>(s: seq<T>): set<T> {
    set x | x in s
  }

  lemma TakeStep<T>(s: seq<T>, i: nat)
    requires i < |s|
    ensures s[..i + 1] == s[..i] + [s[i]]
  {
  }

  ghost predicate NoDuplicates<T>(s: seq<T>) {
    forall i, j :: 0 <= i < j < |s| ==> s[i] != s[j]
  }

  lemma {:induction false} FilterNoDuplicates<T(!new)>(s: seq<T>, keep: T -> bool)
    requires NoDuplicates(s)
    ensures NoDuplicates(Filter(s, keep))
  {
    if s != [] {
      FilterNoDuplicates(s[1..], keep);
      assert s[0] !in s[1..];
    }
  }

  lemma {:induction false} FilterConcat<T(!new)>(a: seq<T>, b: seq<T>, keep: T -> bool)
    ensures Filter(a + b, keep) == Filter(a, keep) + Filter(b, keep)
  {
    if a == [] {
      assert a + b == b;
    } else {
      FilterConcat(a[1..], b, keep);
      assert (a + b)[1..] == a[1..] + b && (a + b)[0] == a[0];
      ConcatAssociates([a[0]], Filter(a[1..], keep), Filter(b, keep));
    }
  }

  lemma ConcatAssociates<T>(a: seq<T>, b: seq<T>, c: seq<T>)
    ensures a + (b + c) == (a + b) + c
  {
  }

  lemma {:induction false} FilterAll<T(!new)>(s: seq<T>, keep: T -> bool)
    requires forall x :: x in s ==> keep(x)
    ensures Filter(s, keep) == s
  {
    if s != [] {
      FilterAll(s[1..], keep);
    }
  }

  lemma {:induction false} FilterNone<T(!new)>(s: seq<T>, keep: T -> bool)
    requires forall x :: x in s ==> !keep(x)
    ensures Filter(s, keep) == []
  {
    if s != [] {
      FilterNone(s[1..], keep);
    }
  }

  lemma {:induction false} FilterSame<T(!new)>(s: seq<T>, p: T -> bool, q: T -> bool)
    requires forall x :: x in s ==> p(x) == q(x)
    ensures Filter(s, p) == Filter(s, q)
  {
    if s != [] {
      FilterSame(s[1..], p, q);
    }
  }

  lemma MapSame<A(!new), B(!new)>(s: seq<A>, f: A -> B, g: A -> B)
    requires forall x :: x in s ==> f(x) == g(x)
    ensures Map(s, f) == Map(s, g)
  {
    forall i | 0 <= i < |s| ensures Map(s, f)[i] == Map(s, g)[i] {
      assert s[i] in s;
    }
  }

  /** A stricter filter keeps a subsequence of what a laxer one keeps. */
  lemma {:induction false} FilterMonotone<T(!new)>(s: seq<T>, p: T -> bool, q: T -> bool)
    requires forall x :: x in s && p(x) ==> q(x)
    ensures IsSubsequence(Filter(s, p), Filter(s, q))
  {
    if s != [] {
      FilterMonotone(s[1..], p, q);
      if q(s[0]) && !p(s[0]) {
        SubsequenceSkip(Filter(s[1..], p), s[0], Filter(s[1..], q));
      }
    }
  }

  lemma {:induction false} SubsequenceSkip<T(!new)>(a: seq<T>, x: T, b: seq<T>)
    requires IsSubsequence(a, b)
    ensures IsSubsequence(a, [x] + b)
    decreases |b|, 1
  {
    assert ([x] + b)[1..] == b;
    if a != [] && a[0] == x {
      SubsequenceTail(a, b);
    }
  }

  lemma {:induction false} SubsequenceTail<T(!new)>(a: seq<T>, b: seq<T>)
    requires a != [] && IsSubsequence(a, b)
    ensures IsSubsequence(a[1..], b)
    decreases |b|, 0
  {
    if a[0] == b[0] {
      assert [b[0]] + b[1..] == b;
      SubsequenceSkip(a[1..], b[0], b[1..]);
    } else {
      SubsequenceTail(a, b[1..]);
      assert [b[0]] + b[1..] == b;
      SubsequenceSkip(a[1..], b[0], b[1..]);
    }
  }

  lemma {:induction false} FilterIsSubsequence<T(!new)>(s: seq<T>, keep: T -> bool)
    ensures IsSubsequence(Filter(s, keep), s)
  {
    FilterMonotone(s, keep, x => true);
    FilterAll(s, x => true);
  }

  lemma {:induction false} SubsequenceConcat<T(!new)>(a: seq<T>, b: seq<T>, c: seq<T>, d: seq<T>)
    requires IsSubsequence(a, b) && IsSubsequence(c, d)
    ensures IsSubsequence(a + c, b + d)
  {
    if b == [] {
      assert a + c == c && b + d == d;
    } else if a != [] && a[0] == b[0] {
      SubsequenceConcat(a[1..], b[1..], c, d);
      assert (a + c)[1..] == a[1..] + c && (b + d)[1..] == b[1..] + d;
    } else {
      SubsequenceConcat(a, b[1..], c, d);
      assert b + d == [b[0]] + (b[1..] + d);
      SubsequenceSkip(a + c, b[0], b[1..] + d);
    }
  }

  lemma MapConcat<A(!new), B(!new)>(a: seq<A>, b: seq<A>, f: A -> B)
    ensures Map(a + b, f) == Map(a, f) + Map(b, f)
  {
    forall i | 0 <= i < |a + b| ensures Map(a + b, f)[i] == (Map(a, f) + Map(b, f))[i] {
    }
  }

  /** One more turn of a loop that pushes `f(x)` for every `x` worth keeping. */
  lemma MapFilterStep<A(!new), B(!new)>(s: seq<A>, i: nat, keep: A -> bool, f: A -> B)
    requires i < |s|
    ensures Map(Filter(s[..i + 1], keep), f) == Map(Filter(s[..i], keep), f) + if keep(s[i]) then [f(s[i])] else []
  {
    assert s[..i + 1] == s[..i] + [s[i]];
    FilterConcat(s[..i], [s[i]], keep);
    MapConcat(Filter(s[..i], keep), Filter([s[i]], keep), f);
  }

  lemma {:induction false} MapSubsequence<A(!new), B(!new)>(a: seq<A>, b: seq<A>, f: A -> B)
    requires IsSubsequence(a, b)
    ensures IsSubsequence(Map(a, f), Map(b, f))
  {
    if a != [] {
      assert Map(b, f)[1..] == Map(b[1..], f);
      if a[0] == b[0] {
        MapSubsequence(a[1..], b[1..], f);
      } else {
        MapSubsequence(a, b[1..], f);
        SubsequenceSkip(Map(a, f), f(b[0]), Map(b[1..], f));
      }
    }
  }

  /** `s.includes(part)`. */
  predicate Includes(s: string, part: string) {
    exists i :: 0 <= i <= |s| && part <= s[i..]
  }

  /** `part` occurs in `s`, said without positions. */
  ghost predicate Occurs(part: string, s: string) {
    exists before, after :: s == before + part + after
  }

  lemma OccursAt(s: string, part: string, i: nat)
    requires i <= |s| && part <= s[i..]
    ensures Occurs(part, s)
  {
    var after := s[i + |part|..];
    assert s[i..] == part + after;
    assert s == s[..i] + part + after;
  }

  lemma IncludesMeansOccurs(s: string, part: string)
    ensures Includes(s, part) <==> Occurs(part, s)
  {
    if Includes(s, part) {
      var i :| 0 <= i <= |s| && part <= s[i..];
      OccursAt(s, part, i);
    }
    if Occurs(part, s) {
      var before, after :| s == before + part + after;
      assert s[|before|..] == part + after;
    }
  }

  /** `parts.join(separator)`. */
  function Join(parts: seq<string>, separator: string): string {
    if parts == [] then ""
    else if |parts| == 1 then parts[0]
    else parts[0] + separator + Join(parts[1..], separator)
  }

  function Min(a: int, b: int): int { if a < b then a else b }
  function Max(a: int, b: int): int { if a > b then a else b }

  function Insert<T>(x: T, s: seq<T>, less: (T, T) -> bool): (r: seq<T>)
    ensures |r| == |s| + 1
  {
    if s == [] || !less(s[0], x) then [x] + s else [s[0]] + Insert(x, s[1..], less)
  }

  /** `[...s].sort(...)` under the order `less`. */
  function Sort<T>(s: seq<T>, less: (T, T) -> bool): (r: seq<T>)
    ensures |r| == |s|
  {
    if s == [] then [] else Insert(s[0], Sort(s[1..], less), less)
  }
}
