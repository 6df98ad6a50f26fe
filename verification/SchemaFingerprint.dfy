/** The generated-client fingerprint: which enums and fields a Prisma client knows, as one string. */
module SchemaFingerprint {
  import opened Prelude

  // ---- string order and sorting ----

  /** `Array.prototype.sort` without a comparator: by code units. */
  predicate Less(a: string, b: string) {
    if b == "" then false
    else if a == "" then true
    else a[0] < b[0] || (a[0] == b[0] && Less(a[1..], b[1..]))
  }

  lemma {:induction false} LessIsTotal(a: string, b: string)
    ensures Less(a, b) || a == b || Less(b, a)
    ensures !(Less(a, b) && Less(b, a)) && !Less(a, a)
    decreases |a| + |b|
  {
    if a != "" && b != "" {
      if a[0] == b[0] {
        LessIsTotal(a[1..], b[1..]);
        assert a == [a[0]] + a[1..] && b == [b[0]] + b[1..];
      }
    }
    if a != "" {
      LessIrreflexive(a);
    }
  }

  lemma {:induction false} LessIrreflexive(a: string)
    ensures !Less(a, a)
  {
    if a != "" {
      LessIrreflexive(a[1..]);
    }
  }

  lemma {:induction false} LessTransitive(a: string, b: string, c: string)
    requires Less(a, b) && Less(b, c)
    ensures Less(a, c)
  {
    if a != "" && a[0] == b[0] && b[0] == c[0] {
      LessTransitive(a[1..], b[1..], c[1..]);
    }
  }

  ghost predicate Ascending(s: seq<string>) {
    forall i, j :: 0 <= i < j < |s| ==> Less(s[i], s[j])
  }

  lemma {:induction false} InsertKeepsAscending(x: string, s: seq<string>)
    requires Ascending(s) && x !in s
    ensures Ascending(Insert(x, s, Less)) && forall y :: y in Insert(x, s, Less) <==> y == x || y in s
  {
    if s != [] && Less(s[0], x) {
      InsertKeepsAscending(x, s[1..]);
      var rest := Insert(x, s[1..], Less);
      forall i | 0 <= i < |rest| ensures Less(s[0], rest[i]) {
        assert rest[i] in rest;
        if rest[i] != x {
          var j :| 0 <= j < |s[1..]| && s[1..][j] == rest[i];
          assert s[j + 1] == rest[i];
        }
      }
      PrependAscending(s[0], rest);
    } else if s != [] {
      LessIsTotal(s[0], x);
      forall i | 0 <= i < |s| ensures Less(x, s[i]) {
        if i > 0 { LessTransitive(x, s[0], s[i]); }
      }
      PrependAscending(x, s);
    }
  }

  lemma PrependAscending(x: string, s: seq<string>)
    requires Ascending(s) && forall i :: 0 <= i < |s| ==> Less(x, s[i])
    ensures Ascending([x] + s)
  {
  }

  lemma {:induction false} SortIsAscending(s: seq<string>)
    requires NoDuplicates(s)
    ensures Ascending(Sort(s, Less)) && forall y :: y in Sort(s, Less) <==> y in s
  {
    if s != [] {
      SortIsAscending(s[1..]);
      assert s[0] !in s[1..];
      InsertKeepsAscending(s[0], Sort(s[1..], Less));
    }
  }

  /** An ascending list is determined by its elements. */
  lemma {:induction false} AscendingIsUnique(a: seq<string>, b: seq<string>)
    requires Ascending(a) && Ascending(b) && forall y :: y in a <==> y in b
    ensures a == b
  {
    assert b == [] || b[0] in b;
    if a != [] {
      assert a[0] in b;
      SameHead(a, b);
      SameTailElements(a, b);
      AscendingIsUnique(a[1..], b[1..]);
      assert a == [a[0]] + a[1..] && b == [b[0]] + b[1..];
    }
  }

  lemma SameHead(a: seq<string>, b: seq<string>)
    requires a != [] && b != [] && Ascending(a) && Ascending(b) && forall y :: y in a <==> y in b
    ensures a[0] == b[0]
  {
    assert a[0] in b && b[0] in a;
    var i :| 0 <= i < |b| && b[i] == a[0];
    var j :| 0 <= j < |a| && a[j] == b[0];
    LessIsTotal(a[0], b[0]);
  }

  lemma SameTailElements(a: seq<string>, b: seq<string>)
    requires a != [] && b != [] && a[0] == b[0] && Ascending(a) && Ascending(b) && forall y :: y in a <==> y in b
    ensures forall y :: y in a[1..] <==> y in b[1..]
  {
    LessIrreflexive(a[0]);
    assert a[0] !in a[1..] && b[0] !in b[1..];
    assert forall y :: y in a <==> y == a[0] || y in a[1..];
    assert forall y :: y in b <==> y == b[0] || y in b[1..];
  }

  // ---- joining is injective ----

  predicate Free(s: string, c: char) {
    forall i :: 0 <= i < |s| ==> s[i] != c
  }

  predicate Parts(parts: seq<string>, c: char) {
    forall i :: 0 <= i < |parts| ==> parts[i] != "" && Free(parts[i], c)
  }

  lemma JoinHead(parts: seq<string>, c: char)
    requires parts != []
    ensures Join(parts, [c]) == if |parts| == 1 then parts[0] else parts[0] + ([c] + Join(parts[1..], [c]))
  {
  }

  /** Two texts cut at the first separator agree on both sides. */
  lemma CutAgrees(a: string, x: string, b: string, y: string, c: char)
    requires Free(a, c) && Free(b, c) && a + x == b + y
    requires (x == "" || x[0] == c) && (y == "" || y[0] == c)
    ensures a == b && x == y
  {
    var whole := a + x;
    assert forall i :: 0 <= i < |whole| ==> whole[i] == if i < |a| then a[i] else x[i - |a|];
    assert forall i :: 0 <= i < |whole| ==> whole[i] == if i < |b| then b[i] else y[i - |b|];
    var afterA := if |a| < |whole| then whole[|a|] else c;
    var afterB := if |b| < |whole| then whole[|b|] else c;
    assert |a| == |b|;
    assert a == whole[..|a|] && b == whole[..|b|];
    assert x == whole[|a|..] && y == whole[|b|..];
  }

  function Rest(parts: seq<string>, c: char): string
    requires parts != []
  {
    if |parts| == 1 then "" else [c] + Join(parts[1..], [c])
  }

  lemma JoinOfNoneOrSome(parts: seq<string>, c: char)
    requires Parts(parts, c)
    ensures Join(parts, [c]) == "" <==> parts == []
  {
    if parts != [] {
      JoinHead(parts, c);
    }
  }

  lemma {:induction false} JoinIsInjective(a: seq<string>, b: seq<string>, c: char)
    requires Parts(a, c) && Parts(b, c) && Join(a, [c]) == Join(b, [c])
    ensures a == b
  {
    JoinOfNoneOrSome(a, c);
    JoinOfNoneOrSome(b, c);
    if a != [] {
      JoinHead(a, c);
      JoinHead(b, c);
      assert Join(a, [c]) == a[0] + Rest(a, c) && Join(b, [c]) == b[0] + Rest(b, c);
      CutAgrees(a[0], Rest(a, c), b[0], Rest(b, c), c);
      if |a| > 1 {
        assert |b| > 1;
        assert Rest(a, c)[1..] == Join(a[1..], [c]) && Rest(b, c)[1..] == Join(b[1..], [c]);
        JoinIsInjective(a[1..], b[1..], c);
      }
      assert a == [a[0]] + a[1..] && b == [b[0]] + b[1..];
    }
  }

  lemma {:induction false} JoinIsFree(parts: seq<string>, separator: char, c: char)
    requires separator != c && forall i :: 0 <= i < |parts| ==> Free(parts[i], c)
    ensures Free(Join(parts, [separator]), c)
  {
    if |parts| > 1 {
      JoinIsFree(parts[1..], separator, c);
      JoinHead(parts, separator);
    }
  }

  // ---- the fingerprint ----

  /** One exported name of the generated namespace; a value that is not an object has no fields. */
  datatype Export = Export(name: string, fields: seq<string>)

  const SUFFIX := "ScalarFieldEnum"

  predicate EnumName(name: string) {
    |name| >= |SUFFIX| && name[|name| - |SUFFIX|..] == SUFFIX
  }

  /** The namespace in whatever order its keys are enumerated. */
  type Namespace = seq<Export>

  function Names(ns: Namespace): seq<string> {
    Map(ns, (e: Export) => e.name)
  }

  function EnumNames(ns: Namespace): seq<string> {
    Filter(Names(ns), EnumName)
  }

  function FieldsOf(ns: Namespace, name: string): seq<string> {
    if ns == [] then [] else if ns[0].name == name then ns[0].fields else FieldsOf(ns[1..], name)
  }

  function Part(ns: Namespace, name: string): string {
    name + ":" + Join(Sort(FieldsOf(ns, name), Less), ",")
  }

  function Fingerprint(ns: Namespace): string {
    Join(Map(Sort(EnumNames(ns), Less), name => Part(ns, name)), "|")
  }

  predicate Identifier(s: string) {
    s != "" && Free(s, ':') && Free(s, ',') && Free(s, '|')
  }

  /** Distinct names, distinct fields, all of them proper identifiers. */
  ghost predicate WellNamed(ns: Namespace) {
    && NoDuplicates(Names(ns))
    && (forall i :: 0 <= i < |ns| ==> Identifier(ns[i].name) && NoDuplicates(ns[i].fields))
    && (forall i, f :: 0 <= i < |ns| && f in ns[i].fields ==> Identifier(f))
  }

  /** The namespace exports `name`, which ends as the generated enums do. */
  ghost predicate HasEnum(ns: Namespace, name: string) {
    (exists i :: 0 <= i < |ns| && ns[i].name == name) && exists stem :: name == stem + "ScalarFieldEnum"
  }

  ghost predicate HasField(ns: Namespace, name: string, f: string) {
    exists i :: 0 <= i < |ns| && ns[i].name == name && f in ns[i].fields
  }

  /** Same enum names, and the same set of fields under each. */
  ghost predicate SameSchema(a: Namespace, b: Namespace) {
    && (forall name :: HasEnum(a, name) <==> HasEnum(b, name))
    && (forall name, f :: HasEnum(a, name) ==> (HasField(a, name, f) <==> HasField(b, name, f)))
  }

  ghost predicate SameEnums(a: Namespace, b: Namespace) {
    && (forall name :: name in EnumNames(a) <==> name in EnumNames(b))
    && (forall name :: name in EnumNames(a) ==> forall f :: f in FieldsOf(a, name) <==> f in FieldsOf(b, name))
  }

  lemma EnumNameMeansSuffix(name: string)
    ensures EnumName(name) <==> exists stem :: name == stem + "ScalarFieldEnum"
  {
    if EnumName(name) {
      assert name == name[..|name| - |SUFFIX|] + "ScalarFieldEnum";
    }
  }

  lemma EnumNamesAreEnums(ns: Namespace, name: string)
    ensures name in EnumNames(ns) <==> HasEnum(ns, name)
  {
    EnumNameMeansSuffix(name);
    if i :| 0 <= i < |ns| && ns[i].name == name {
      assert Names(ns)[i] == name;
    }
    if i :| 0 <= i < |Names(ns)| && Names(ns)[i] == name {
      assert ns[i].name == name;
    }
  }

  lemma {:induction false} FieldsAreTheExports(ns: Namespace, name: string, f: string)
    requires WellNamed(ns)
    ensures f in FieldsOf(ns, name) <==> HasField(ns, name, f)
  {
    if ns != [] {
      TailIsWellNamed(ns);
      FieldsAreTheExports(ns[1..], name, f);
      if ns[0].name == name {
        OnlyOneExport(ns, name);
      } else if HasField(ns, name, f) {
        var i :| 0 <= i < |ns| && ns[i].name == name && f in ns[i].fields;
        assert ns[1..][i - 1] == ns[i];
      }
    }
  }

  lemma OnlyOneExport(ns: Namespace, name: string)
    requires WellNamed(ns) && ns != [] && ns[0].name == name
    ensures forall i :: 0 <= i < |ns| && ns[i].name == name ==> i == 0
  {
    assert forall i :: 0 <= i < |ns| ==> Names(ns)[i] == ns[i].name;
  }

  lemma SameEnumsIff(a: Namespace, b: Namespace)
    requires WellNamed(a) && WellNamed(b)
    ensures SameEnums(a, b) <==> SameSchema(a, b)
  {
    forall name ensures (name in EnumNames(a) <==> HasEnum(a, name)) && (name in EnumNames(b) <==> HasEnum(b, name)) {
      EnumNamesAreEnums(a, name);
      EnumNamesAreEnums(b, name);
    }
    forall name, f ensures (f in FieldsOf(a, name) <==> HasField(a, name, f))
                        && (f in FieldsOf(b, name) <==> HasField(b, name, f)) {
      FieldsAreTheExports(a, name, f);
      FieldsAreTheExports(b, name, f);
    }
  }

  lemma {:induction false} FieldsOfName(ns: Namespace, name: string)
    requires WellNamed(ns)
    ensures NoDuplicates(FieldsOf(ns, name)) && forall f :: f in FieldsOf(ns, name) ==> Identifier(f)
  {
    if ns != [] && ns[0].name != name {
      TailIsWellNamed(ns);
      FieldsOfName(ns[1..], name);
    }
  }

  lemma TailIsWellNamed(ns: Namespace)
    requires WellNamed(ns) && ns != []
    ensures WellNamed(ns[1..])
  {
    assert Names(ns)[1..] == Names(ns[1..]);
  }

  lemma SortedEnums(ns: Namespace)
    requires WellNamed(ns)
    ensures Ascending(Sort(EnumNames(ns), Less)) && forall n :: n in Sort(EnumNames(ns), Less) <==> n in EnumNames(ns)
    ensures forall n :: n in Sort(EnumNames(ns), Less) ==> Identifier(n)
  {
    FilterNoDuplicates(Names(ns), EnumName);
    SortIsAscending(EnumNames(ns));
    forall n | n in EnumNames(ns) ensures Identifier(n) {
      var i :| 0 <= i < |Names(ns)| && Names(ns)[i] == n;
      assert Identifier(ns[i].name);
    }
  }

  lemma SortedFields(ns: Namespace, name: string)
    requires WellNamed(ns)
    ensures Ascending(Sort(FieldsOf(ns, name), Less))
      && forall f :: f in Sort(FieldsOf(ns, name), Less) <==> f in FieldsOf(ns, name)
    ensures Parts(Sort(FieldsOf(ns, name), Less), ',') && Free(Join(Sort(FieldsOf(ns, name), Less), ","), '|')
  {
    FieldsOfName(ns, name);
    SortIsAscending(FieldsOf(ns, name));
    var sorted := Sort(FieldsOf(ns, name), Less);
    forall i | 0 <= i < |sorted| ensures Identifier(sorted[i]) {
      assert sorted[i] in sorted;
    }
    JoinIsFree(sorted, ',', '|');
  }

  lemma PartIsPart(ns: Namespace, name: string)
    requires WellNamed(ns) && Identifier(name)
    ensures Part(ns, name) != "" && Free(Part(ns, name), '|')
  {
    SortedFields(ns, name);
  }

  lemma ColonCuts(x: string, fa: string, y: string, fb: string)
    requires Identifier(x) && Identifier(y) && x + ":" + fa == y + ":" + fb
    ensures x == y && fa == fb
  {
    assert x + ":" + fa == x + (":" + fa) && y + ":" + fb == y + (":" + fb);
    CutAgrees(x, ":" + fa, y, ":" + fb, ':');
    assert (":" + fa)[1..] == fa && (":" + fb)[1..] == fb;
  }

  lemma PartsAgree(a: Namespace, x: string, b: Namespace, y: string)
    requires WellNamed(a) && WellNamed(b) && Identifier(x) && Identifier(y) && Part(a, x) == Part(b, y)
    ensures x == y && Sort(FieldsOf(a, x), Less) == Sort(FieldsOf(b, y), Less)
  {
    ColonCuts(x, Join(Sort(FieldsOf(a, x), Less), ","), y, Join(Sort(FieldsOf(b, y), Less), ","));
    SortedFields(a, x);
    SortedFields(b, y);
    JoinIsInjective(Sort(FieldsOf(a, x), Less), Sort(FieldsOf(b, y), Less), ',');
  }

  function AllParts(ns: Namespace): seq<string> {
    Map(Sort(EnumNames(ns), Less), name => Part(ns, name))
  }

  lemma AllPartsAreParts(ns: Namespace)
    requires WellNamed(ns)
    ensures Parts(AllParts(ns), '|')
  {
    SortedEnums(ns);
    forall i | 0 <= i < |AllParts(ns)| ensures AllParts(ns)[i] != "" && Free(AllParts(ns)[i], '|') {
      assert Sort(EnumNames(ns), Less)[i] in Sort(EnumNames(ns), Less);
      PartIsPart(ns, Sort(EnumNames(ns), Less)[i]);
    }
  }

  lemma EqualFingerprintsMeanSameEnums(a: Namespace, b: Namespace)
    requires WellNamed(a) && WellNamed(b) && Fingerprint(a) == Fingerprint(b)
    ensures SameEnums(a, b)
  {
    AllPartsAreParts(a);
    AllPartsAreParts(b);
    JoinIsInjective(AllParts(a), AllParts(b), '|');
    SortedEnums(a);
    SortedEnums(b);
    var na, nb := Sort(EnumNames(a), Less), Sort(EnumNames(b), Less);
    forall i | 0 <= i < |na| ensures na[i] == nb[i] && Sort(FieldsOf(a, na[i]), Less)
      == Sort(FieldsOf(b, na[i]), Less) {
      assert na[i] in na && nb[i] in nb;
      assert AllParts(a)[i] == Part(a, na[i]) && AllParts(b)[i] == Part(b, nb[i]);
      PartsAgree(a, na[i], b, nb[i]);
    }
    assert na == nb;
    forall name | name in EnumNames(a) ensures forall f :: f in FieldsOf(a, name) <==> f in FieldsOf(b, name) {
      assert name in na;
      SortedFields(a, name);
      SortedFields(b, name);
    }
  }

  lemma SameEnumsMeanEqualFingerprints(a: Namespace, b: Namespace)
    requires WellNamed(a) && WellNamed(b) && SameEnums(a, b)
    ensures Fingerprint(a) == Fingerprint(b)
  {
    SortedEnums(a);
    SortedEnums(b);
    AscendingIsUnique(Sort(EnumNames(a), Less), Sort(EnumNames(b), Less));
    var names := Sort(EnumNames(a), Less);
    forall i | 0 <= i < |names| ensures AllParts(a)[i] == AllParts(b)[i] {
      assert names[i] in names;
      SortedFields(a, names[i]);
      SortedFields(b, names[i]);
      AscendingIsUnique(Sort(FieldsOf(a, names[i]), Less), Sort(FieldsOf(b, names[i]), Less));
    }
    assert AllParts(a) == AllParts(b);
  }

  /**
   * Two clients have the same fingerprint exactly when they know the same enums with the same fields,
   * in whatever order the generated namespace enumerates them.
   */
  lemma FingerprintIdentifiesSchema(a: Namespace, b: Namespace)
    requires WellNamed(a) && WellNamed(b)
    ensures Fingerprint(a) == Fingerprint(b) <==> SameSchema(a, b)
  {
    SameEnumsIff(a, b);
    if Fingerprint(a) == Fingerprint(b) {
      EqualFingerprintsMeanSameEnums(a, b);
    }
    if SameEnums(a, b) {
      SameEnumsMeanEqualFingerprints(a, b);
    }
  }

  /** Without the identifier rule the fingerprint would confuse one field `a,b` with two fields `a` and `b`. */
  lemma CommaInAFieldBreaksIt(name: string)
    requires EnumName(name)
    ensures var a := [Export(name, ["a,b"])]; var b := [Export(name, ["a", "b"])];
            Fingerprint(a) == Fingerprint(b) && !SameSchema(a, b)
  {
    var a := [Export(name, ["a,b"])];
    var b := [Export(name, ["a", "b"])];
    assert Names(a) == [name] && Names(b) == [name];
    assert Sort(["a,b"], Less) == ["a,b"];
    assert Insert("b", [], Less) == ["b"] && Insert("a", ["b"], Less) == ["a", "b"];
    assert ["a", "b"][1..] == ["b"] && ["b"][1..] == [];
    assert Sort(["b"], Less) == ["b"] && Sort(["a", "b"], Less) == ["a", "b"];
    assert Join(["a", "b"], ",") == "a" + "," + Join(["b"], ",") == "a,b";
    assert Part(a, name) == Part(b, name);
    assert EnumNames(a) == [name] && Sort([name], Less) == [name];
    EnumNamesAreEnums(a, name);
    assert "a" in b[0].fields && HasField(b, name, "a") && !HasField(a, name, "a");
  }
}
