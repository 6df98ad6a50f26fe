/** Idempotence, soundness, monotonicity and conservation of grounding. */
module GroundingProofs {
  import opened Prelude
  import opened Grounding
  import opened GroundingText

  // ---- soundness ----

  lemma InSupported(lex: Lexicon, facts: Facts, items: seq<SkillItem>, out: SkillItem)
    requires out in Supported(lex, facts, items)
    ensures exists item :: item in items && Supportable(lex, facts, item) && out == SupportedItem(facts, item)
  {
    var kept := Filter(items, item => Supportable(lex, facts, item));
    var i :| 0 <= i < |Supported(lex, facts, items)| && Supported(lex, facts, items)[i] == out;
    assert kept[i] in kept;
  }

  lemma InConfirmation(lex: Lexicon, facts: Facts, items: seq<SkillItem>, out: SkillItem)
    requires out in Confirmation(lex, facts, items)
    ensures exists item :: item in items && Confirmable(lex, facts, item) && out == ConfirmationItem(facts, item)
  {
    var kept := Filter(items, item => Confirmable(lex, facts, item));
    var i :| 0 <= i < |Confirmation(lex, facts, items)| && Confirmation(lex, facts, items)[i] == out;
    assert kept[i] in kept;
  }

  /** Every supported item cites only valid facts, and one single cited fact is direct evidence for it. */
  lemma SupportedIsGrounded(lex: Lexicon, facts: Facts, result: MatchResponse, item: SkillItem)
    requires item in Ground(lex, facts, result).skillsSupported
    ensures item.factIds != [] && forall id :: id in item.factIds ==> id in facts.valid
    ensures exists id :: id in item.factIds && Evidence(lex, facts, item.skill, id)
  {
    InSupported(lex, facts, result.skillsSupported, item);
    var source :| source in result.skillsSupported && Supportable(lex, facts, source)
      && item == SupportedItem(facts, source);
    var id :| id in RealIds(facts, source)
      && DirectlySupportsQualification(lex, source.skill, facts.TextOf(id), facts.TypeOf(id));
    SupportsIffEvidence(lex, facts, item.skill, id);
  }

  /** And a claim with such a fact is never turned away. */
  lemma EvidencedClaimIsKept(lex: Lexicon, facts: Facts, result: MatchResponse, item: SkillItem, id: string)
    requires item in result.skillsSupported && id in item.factIds && id in facts.valid
        && Evidence(lex, facts, item.skill, id)
    ensures SupportedItem(facts, item) in Ground(lex, facts, result).skillsSupported
  {
    SupportsIffEvidence(lex, facts, item.skill, id);
    assert id in RealIds(facts, item);
    var kept := Filter(result.skillsSupported, it => Supportable(lex, facts, it));
    assert item in kept;
    var i :| 0 <= i < |kept| && kept[i] == item;
    assert Supported(lex, facts, result.skillsSupported)[i] == SupportedItem(facts, item);
  }

  /** A claim that is confirmed only with exact evidence: it has a type rule, or names a certificate or years. */
  ghost predicate Exacting(lex: Lexicon, skill: string) {
    TypeRuled(lex, lex.lower(skill)) || lex.certificationOrYears(skill)
  }

  lemma ExactingMeansRequired(lex: Lexicon, facts: Facts, item: SkillItem)
    ensures RequiresExactEvidence(lex, item.skill) <==> Exacting(lex, item.skill)
    ensures HasEvidence(lex, facts, item) <==>
      exists id :: id in item.factIds && id in facts.valid && Evidence(lex, facts, item.skill, id)
  {
    AllowedMeansFits(lex, facts, item.skill, "");
    forall id ensures DirectlySupportsQualification(lex, item.skill, facts.TextOf(id), facts.TypeOf(id))
                 <==> Evidence(lex, facts, item.skill, id) {
      SupportsIffEvidence(lex, facts, item.skill, id);
    }
  }

  /** Confirmation items also cite only valid facts; where exact evidence is required, they have it. */
  lemma ConfirmationIsGrounded(lex: Lexicon, facts: Facts, result: MatchResponse, item: SkillItem)
    requires item in Ground(lex, facts, result).skillsNeedConfirmation
    ensures item.factIds != [] && forall id :: id in item.factIds ==> id in facts.valid
    ensures Exacting(lex, item.skill) ==> exists id :: id in item.factIds && Evidence(lex, facts, item.skill, id)
  {
    InConfirmation(lex, facts, result.skillsNeedConfirmation, item);
    var source :| source in result.skillsNeedConfirmation && Confirmable(lex, facts, source)
      && item == ConfirmationItem(facts, source);
    ExactingMeansRequired(lex, facts, source);
  }

  /** Work authorization, visa and clearance claims never survive, whatever the facts. */
  lemma AuthorizationIsNeverClaimed(lex: Lexicon, facts: Facts, result: MatchResponse, item: SkillItem)
    requires lex.authorization(lex.lower(item.skill))
    ensures item !in Ground(lex, facts, result).skillsSupported
    ensures item !in Ground(lex, facts, result).skillsNeedConfirmation
  {
    if item in Ground(lex, facts, result).skillsSupported {
      SupportedIsGrounded(lex, facts, result, item);
    }
    if item in Ground(lex, facts, result).skillsNeedConfirmation {
      ConfirmationIsGrounded(lex, facts, result, item);
    }
  }

  /**
   * A claim of support without such a fact goes to the never-add list, citing nothing. The confirmation list is made
   * from the model's own confirmation items alone, so nothing claimed as supported is ever downgraded into it.
   */
  lemma UnsupportedClaimIsNeverAdd(lex: Lexicon, facts: Facts, result: MatchResponse, item: SkillItem)
    requires item in result.skillsSupported
    requires forall id :: id in item.factIds && id in facts.valid ==> !Evidence(lex, facts, item.skill, id)
    ensures NeverItem(item) in Ground(lex, facts, result).skillsNeverAdd
    ensures forall claimed :: Ground(lex, facts, result.(skillsSupported := claimed)).skillsNeedConfirmation
                              == Ground(lex, facts, result).skillsNeedConfirmation
  {
    forall id | id in RealIds(facts, item)
      ensures !DirectlySupportsQualification(lex, item.skill, facts.TextOf(id), facts.TypeOf(id))
    {
      SupportsIffEvidence(lex, facts, item.skill, id);
    }
    var turnedAway := Filter(result.skillsSupported, it => !Supportable(lex, facts, it));
    assert item in turnedAway;
    var i :| 0 <= i < |turnedAway| && turnedAway[i] == item;
    var rejected := Rejected(lex, facts, result);
    assert rejected[i] == RejectedItem(item);
    assert (rejected + result.skillsNeverAdd)[i] == RejectedItem(item);
    assert Ground(lex, facts, result).skillsNeverAdd[i] == NeverItem(RejectedItem(item)) == NeverItem(item);
  }

  // ---- idempotence ----

  lemma RealIdsAgain(facts: Facts, item: SkillItem)
    ensures RealIds(facts, item.(factIds := RealIds(facts, item))) == RealIds(facts, item)
    ensures RealIds(facts, SupportedItem(facts, item)) == RealIds(facts, item)
    ensures RealIds(facts, ConfirmationItem(facts, item)) == RealIds(facts, item)
  {
    FilterAll(RealIds(facts, item), id => id in facts.valid);
  }

  lemma SupportedAgain(lex: Lexicon, facts: Facts, items: seq<SkillItem>)
    ensures Supported(lex, facts, Supported(lex, facts, items)) == Supported(lex, facts, items)
    ensures Filter(Supported(lex, facts, items), item => !Supportable(lex, facts, item)) == []
  {
    var once := Supported(lex, facts, items);
    forall out | out in once ensures Supportable(lex, facts, out) && SupportedItem(facts, out) == out {
      InSupported(lex, facts, items, out);
      var item :| item in items && Supportable(lex, facts, item) && out == SupportedItem(facts, item);
      RealIdsAgain(facts, item);
    }
    FilterAll(once, item => Supportable(lex, facts, item));
    FilterNone(once, item => !Supportable(lex, facts, item));
    MapIdentity(once, item => SupportedItem(facts, item));
  }

  lemma ConfirmationAgain(lex: Lexicon, facts: Facts, items: seq<SkillItem>)
    ensures Confirmation(lex, facts, Confirmation(lex, facts, items)) == Confirmation(lex, facts, items)
    ensures Filter(Confirmation(lex, facts, items), item => !Confirmable(lex, facts, item)) == []
  {
    var once := Confirmation(lex, facts, items);
    forall out | out in once ensures Confirmable(lex, facts, out) && ConfirmationItem(facts, out) == out {
      InConfirmation(lex, facts, items, out);
      var item :| item in items && Confirmable(lex, facts, item) && out == ConfirmationItem(facts, item);
      RealIdsAgain(facts, item);
    }
    FilterAll(once, item => Confirmable(lex, facts, item));
    FilterNone(once, item => !Confirmable(lex, facts, item));
    MapIdentity(once, item => ConfirmationItem(facts, item));
  }

  lemma MapIdentity(s: seq<SkillItem>, f: SkillItem -> SkillItem)
    requires forall x :: x in s ==> f(x) == x
    ensures Map(s, f) == s
  {
  }

  lemma MapTwice(s: seq<SkillItem>, f: SkillItem -> SkillItem)
    requires forall x :: f(f(x)) == f(x)
    ensures Map(Map(s, f), f) == Map(s, f)
  {
  }

  /** Grounding a grounded answer changes nothing: lists, reasons, explanation, preview, recommendation. */
  lemma GroundingIsIdempotent(lex: Lexicon, facts: Facts, result: MatchResponse)
    ensures Ground(lex, facts, Ground(lex, facts, result)) == Ground(lex, facts, result)
  {
    var once := Ground(lex, facts, result);
    NothingLeftToReject(lex, facts, result);
    SupportedAgain(lex, facts, result.skillsSupported);
    ConfirmationAgain(lex, facts, result.skillsNeedConfirmation);
    AssembleAgain(result, once.skillsSupported, once.skillsNeedConfirmation, Rejected(lex, facts, result));
  }

  lemma NothingLeftToReject(lex: Lexicon, facts: Facts, result: MatchResponse)
    ensures Rejected(lex, facts, Ground(lex, facts, result)) == []
  {
    SupportedAgain(lex, facts, result.skillsSupported);
    ConfirmationAgain(lex, facts, result.skillsNeedConfirmation);
  }

  lemma NeverAddAgain(items: seq<SkillItem>)
    ensures Map([] + Map(items, NeverItem), NeverItem) == Map(items, NeverItem)
  {
    assert [] + Map(items, NeverItem) == Map(items, NeverItem);
    MapTwice(items, NeverItem);
  }

  lemma AssembleAgain(result: MatchResponse, supported: seq<SkillItem>, confirmation: seq<SkillItem>,
      rejected: seq<SkillItem>)
    ensures Assemble(Assemble(result, supported, confirmation, rejected), supported, confirmation, [])
         == Assemble(result, supported, confirmation, rejected)
  {
    NeverAddAgain(rejected + result.skillsNeverAdd);
    MapTwice(result.skillsToLearn, LearnItem);
  }

  // ---- monotonicity ----

  /** `more` has every fact of `less`, with the same texts and types. */
  ghost predicate MoreEvidence(less: Facts, more: Facts) {
    less.valid <= more.valid
    && forall id :: id in less.valid ==> less.TextOf(id) == more.TextOf(id) && less.TypeOf(id) == more.TypeOf(id)
  }

  lemma EvidenceCarriesOver(lex: Lexicon, less: Facts, more: Facts, item: SkillItem)
    requires MoreEvidence(less, more)
    ensures Supportable(lex, less, item) ==> Supportable(lex, more, item)
    ensures Confirmable(lex, less, item) ==> Confirmable(lex, more, item)
  {
    assert forall id :: id in RealIds(less, item) ==> id in RealIds(more, item);
    if |RealIds(less, item)| > 0 {
      assert RealIds(less, item)[0] in RealIds(more, item);
    }
    if HasEvidence(lex, less, item) {
      var id :| id in RealIds(less, item)
        && DirectlySupportsQualification(lex, item.skill, less.TextOf(id), less.TypeOf(id));
      assert id in RealIds(more, item);
    }
  }

  lemma SkillsOfMap(s: seq<SkillItem>, f: SkillItem -> SkillItem)
    requires forall x: SkillItem :: f(x).skill == x.skill
    ensures Skills(Map(s, f)) == Skills(s)
  {
  }

  lemma KeptSkillsGrow(s: seq<SkillItem>, p: SkillItem -> bool, q: SkillItem -> bool, f: SkillItem -> SkillItem,
      g: SkillItem -> SkillItem)
    requires forall x :: x in s && p(x) ==> q(x)
    requires forall x: SkillItem :: f(x).skill == x.skill && g(x).skill == x.skill
    ensures IsSubsequence(Skills(Map(Filter(s, p), f)), Skills(Map(Filter(s, q), g)))
  {
    FilterMonotone(s, p, q);
    SkillsOfMap(Filter(s, p), f);
    SkillsOfMap(Filter(s, q), g);
    MapSubsequence(Filter(s, p), Filter(s, q), (item: SkillItem) => item.skill);
  }

  lemma RejectedSkillsShrink(lex: Lexicon, less: Facts, more: Facts, result: MatchResponse)
    requires MoreEvidence(less, more)
    ensures IsSubsequence(Skills(Rejected(lex, more, result)), Skills(Rejected(lex, less, result)))
  {
    forall item ensures (Supportable(lex, less, item) ==> Supportable(lex, more, item))
                     && (Confirmable(lex, less, item) ==> Confirmable(lex, more, item)) {
      EvidenceCarriesOver(lex, less, more, item);
    }
    var a := result.skillsSupported;
    var b := result.skillsNeedConfirmation;
    KeptSkillsGrow(a, item => !Supportable(lex, more, item), item => !Supportable(lex, less, item), RejectedItem,
      RejectedItem);
    KeptSkillsGrow(b, item => !Confirmable(lex, more, item), item => !Confirmable(lex, less, item), RejectedItem,
      RejectedItem);
    SubsequenceConcat(
      Skills(Unsupported(lex, more, a)),
      Skills(Unsupported(lex, less, a)),
      Skills(Unconfirmed(lex, more, b)),
      Skills(Unconfirmed(lex, less, b)));
    SkillsOfRejected(lex, more, result);
    SkillsOfRejected(lex, less, result);
  }

  lemma SkillsOfRejected(lex: Lexicon, facts: Facts, result: MatchResponse)
    ensures Skills(Rejected(lex, facts, result))
         == Skills(Unsupported(lex, facts, result.skillsSupported))
          + Skills(Unconfirmed(lex, facts, result.skillsNeedConfirmation))
  {
    MapConcat(Unsupported(lex, facts, result.skillsSupported),
              Unconfirmed(lex, facts, result.skillsNeedConfirmation),
              (item: SkillItem) => item.skill);
  }

  lemma SkillsOfNeverAdd(lex: Lexicon, facts: Facts, result: MatchResponse)
    ensures Skills(Ground(lex, facts, result).skillsNeverAdd)
        == Skills(Rejected(lex, facts, result)) + Skills(result.skillsNeverAdd)
  {
    SkillsOfMap(Rejected(lex, facts, result) + result.skillsNeverAdd, NeverItem);
    MapConcat(Rejected(lex, facts, result), result.skillsNeverAdd, (item: SkillItem) => item.skill);
  }

  /** More approved facts only add to the supported and confirmation lists and only shorten the never-add list. */
  lemma GroundingIsMonotone(lex: Lexicon, less: Facts, more: Facts, result: MatchResponse)
    requires MoreEvidence(less, more)
    ensures var a := Ground(lex, less, result); var b := Ground(lex, more, result);
            && IsSubsequence(Skills(a.skillsSupported), Skills(b.skillsSupported))
            && IsSubsequence(Skills(a.skillsNeedConfirmation), Skills(b.skillsNeedConfirmation))
            && IsSubsequence(Skills(b.skillsNeverAdd), Skills(a.skillsNeverAdd))
  {
    forall item ensures (Supportable(lex, less, item) ==> Supportable(lex, more, item))
                     && (Confirmable(lex, less, item) ==> Confirmable(lex, more, item)) {
      EvidenceCarriesOver(lex, less, more, item);
    }
    KeptSkillsGrow(result.skillsSupported, item => Supportable(lex, less, item), item => Supportable(lex, more, item),
                   item => SupportedItem(less, item), item => SupportedItem(more, item));
    KeptSkillsGrow(result.skillsNeedConfirmation, item => Confirmable(lex, less, item),
      item => Confirmable(lex, more, item),
                   item => ConfirmationItem(less, item), item => ConfirmationItem(more, item));
    NeverAddShrinks(lex, less, more, result);
  }

  lemma NeverAddShrinks(lex: Lexicon, less: Facts, more: Facts, result: MatchResponse)
    requires MoreEvidence(less, more)
    ensures IsSubsequence(Skills(Ground(lex, more, result).skillsNeverAdd),
        Skills(Ground(lex, less, result).skillsNeverAdd))
  {
    RejectedSkillsShrink(lex, less, more, result);
    SkillsOfNeverAdd(lex, less, result);
    SkillsOfNeverAdd(lex, more, result);
    FilterAll(Skills(result.skillsNeverAdd), s => true);
    FilterIsSubsequence(Skills(result.skillsNeverAdd), s => true);
    SubsequenceConcat(Skills(Rejected(lex, more, result)), Skills(Rejected(lex, less, result)),
                      Skills(result.skillsNeverAdd), Skills(result.skillsNeverAdd));
  }

  // ---- conservation ----

  lemma {:induction false} FilterSplits(s: seq<SkillItem>, p: SkillItem -> bool, q: SkillItem -> bool)
    requires forall x :: q(x) == !p(x)
    ensures multiset(Skills(Filter(s, p))) + multiset(Skills(Filter(s, q))) == multiset(Skills(s))
    ensures |Filter(s, p)| + |Filter(s, q)| == |s|
  {
    if s != [] {
      FilterSplits(s[1..], p, q);
      assert Skills(s) == [s[0].skill] + Skills(s[1..]);
      assert Filter(s, p) == if p(s[0]) then [s[0]] + Filter(s[1..], p) else Filter(s[1..], p);
      assert Filter(s, q) == if p(s[0]) then Filter(s[1..], q) else [s[0]] + Filter(s[1..], q);
      SkillsCons(s[0], Filter(s[1..], p));
      SkillsCons(s[0], Filter(s[1..], q));
    }
  }

  lemma KeptAndRejected(s: seq<SkillItem>, p: SkillItem -> bool, q: SkillItem -> bool, f: SkillItem -> SkillItem,
      g: SkillItem -> SkillItem)
    requires forall x :: q(x) == !p(x)
    requires forall x: SkillItem :: f(x).skill == x.skill && g(x).skill == x.skill
    ensures multiset(Skills(Map(Filter(s, p), f))) + multiset(Skills(Map(Filter(s, q), g))) == multiset(Skills(s))
    ensures |Map(Filter(s, p), f)| + |Map(Filter(s, q), g)| == |s|
  {
    FilterSplits(s, p, q);
    SkillsOfMap(Filter(s, p), f);
    SkillsOfMap(Filter(s, q), g);
  }

  lemma SkillsCons(x: SkillItem, s: seq<SkillItem>)
    ensures Skills([x] + s) == [x.skill] + Skills(s)
  {
    assert ([x] + s)[1..] == s;
  }

  function AllSkills(r: MatchResponse): multiset<string> {
    multiset(Skills(r.skillsSupported)) + multiset(Skills(r.skillsNeedConfirmation))
    + multiset(Skills(r.skillsToLearn)) + multiset(Skills(r.skillsNeverAdd))
  }

  function Claims(r: MatchResponse): nat {
    |r.skillsSupported| + |r.skillsNeedConfirmation| + |r.skillsToLearn| + |r.skillsNeverAdd|
  }

  lemma SupportedBalance(lex: Lexicon, facts: Facts, items: seq<SkillItem>)
    ensures multiset(Skills(Supported(lex, facts, items)))
          + multiset(Skills(Unsupported(lex, facts, items)))
            == multiset(Skills(items))
    ensures |Supported(lex, facts, items)|
          + |Unsupported(lex, facts, items)| == |items|
  {
    KeptAndRejected(items, item => Supportable(lex, facts, item), item => !Supportable(lex, facts, item),
                    item => SupportedItem(facts, item), RejectedItem);
  }

  lemma ConfirmationBalance(lex: Lexicon, facts: Facts, items: seq<SkillItem>)
    ensures multiset(Skills(Confirmation(lex, facts, items)))
          + multiset(Skills(Unconfirmed(lex, facts, items)))
            == multiset(Skills(items))
    ensures |Confirmation(lex, facts, items)|
          + |Unconfirmed(lex, facts, items)| == |items|
  {
    KeptAndRejected(items, item => Confirmable(lex, facts, item), item => !Confirmable(lex, facts, item),
                    item => ConfirmationItem(facts, item), RejectedItem);
  }

  lemma SplitSkills(a: seq<string>, b: seq<string>)
    ensures multiset(a + b) == multiset(a) + multiset(b)
  {
  }

  lemma RejectedBalance(lex: Lexicon, facts: Facts, result: MatchResponse)
    ensures var g := Ground(lex, facts, result);
            multiset(Skills(g.skillsSupported)) + multiset(Skills(g.skillsNeedConfirmation))
              + multiset(Skills(Rejected(lex, facts, result)))
              == multiset(Skills(result.skillsSupported)) + multiset(Skills(result.skillsNeedConfirmation))
    ensures |Ground(lex, facts, result).skillsSupported| + |Ground(lex, facts, result).skillsNeedConfirmation|
        + |Rejected(lex, facts, result)|
         == |result.skillsSupported| + |result.skillsNeedConfirmation|
  {
    SupportedBalance(lex, facts, result.skillsSupported);
    ConfirmationBalance(lex, facts, result.skillsNeedConfirmation);
    SkillsOfRejected(lex, facts, result);
    SplitSkills(Skills(Unsupported(lex, facts, result.skillsSupported)),
                Skills(Unconfirmed(lex, facts, result.skillsNeedConfirmation)));
  }

  /** No skill is lost, duplicated or invented over the four lists. */
  lemma GroundingConservesSkills(lex: Lexicon, facts: Facts, result: MatchResponse)
    ensures AllSkills(Ground(lex, facts, result)) == AllSkills(result)
  {
    RejectedBalance(lex, facts, result);
    SkillsOfNeverAdd(lex, facts, result);
    SplitSkills(Skills(Rejected(lex, facts, result)), Skills(result.skillsNeverAdd));
    SkillsOfMap(result.skillsToLearn, LearnItem);
  }

  lemma ClaimsBalance(lex: Lexicon, facts: Facts, result: MatchResponse)
    ensures Claims(Ground(lex, facts, result)) == Claims(result)
  {
    RejectedBalance(lex, facts, result);
  }

  /** The count in the eligibility reason and the supported list add up to the number of claims made. */
  lemma ReasonCountsEveryClaim(lex: Lexicon, facts: Facts, result: MatchResponse)
    ensures var g := Ground(lex, facts, result);
            Claims(g) == Claims(result) &&
            g.eligibilityReason == EligibilityBasis(result.eligibility, |g.skillsSupported|,
              Claims(result) - |g.skillsSupported|)
  {
    ClaimsBalance(lex, facts, result);
  }

  /** Items only move from supported or confirmation into never-add, and every list keeps its order. */
  lemma GroundingKeepsOrder(lex: Lexicon, facts: Facts, result: MatchResponse)
    ensures var g := Ground(lex, facts, result);
            && IsSubsequence(Skills(g.skillsSupported), Skills(result.skillsSupported))
            && IsSubsequence(Skills(g.skillsNeedConfirmation), Skills(result.skillsNeedConfirmation))
            && Skills(g.skillsToLearn) == Skills(result.skillsToLearn)
            && IsSubsequence(Skills(g.skillsNeverAdd),
                 Skills(result.skillsSupported) + Skills(result.skillsNeedConfirmation) + Skills(result.skillsNeverAdd))
            && Skills(result.skillsNeverAdd) <= Skills(g.skillsNeverAdd)[|Rejected(lex, facts, result)|..]
  {
    var skill := (item: SkillItem) => item.skill;
    KeptIsSubsequence(result.skillsSupported, item => Supportable(lex, facts, item),
      item => SupportedItem(facts, item));
    KeptIsSubsequence(result.skillsNeedConfirmation, item => Confirmable(lex, facts, item),
      item => ConfirmationItem(facts, item));
    SkillsOfMap(result.skillsToLearn, LearnItem);
    NeverAddOrder(lex, facts, result);
  }

  lemma KeptIsSubsequence(s: seq<SkillItem>, p: SkillItem -> bool, f: SkillItem -> SkillItem)
    requires forall x: SkillItem :: f(x).skill == x.skill
    ensures IsSubsequence(Skills(Map(Filter(s, p), f)), Skills(s))
  {
    SkillsOfMap(Filter(s, p), f);
    FilterIsSubsequence(s, p);
    MapSubsequence(Filter(s, p), s, (item: SkillItem) => item.skill);
  }

  lemma NeverAddOrder(lex: Lexicon, facts: Facts, result: MatchResponse)
    ensures var g := Ground(lex, facts, result);
            && IsSubsequence(Skills(g.skillsNeverAdd),
                 Skills(result.skillsSupported) + Skills(result.skillsNeedConfirmation) + Skills(result.skillsNeverAdd))
            && Skills(result.skillsNeverAdd) <= Skills(g.skillsNeverAdd)[|Rejected(lex, facts, result)|..]
  {
    var a := Unsupported(lex, facts, result.skillsSupported);
    var b := Unconfirmed(lex, facts, result.skillsNeedConfirmation);
    KeptIsSubsequence(result.skillsSupported, item => !Supportable(lex, facts, item), RejectedItem);
    KeptIsSubsequence(result.skillsNeedConfirmation, item => !Confirmable(lex, facts, item), RejectedItem);
    SkillsOfRejected(lex, facts, result);
    SkillsOfNeverAdd(lex, facts, result);
    SubsequenceConcat(Skills(a), Skills(result.skillsSupported), Skills(b), Skills(result.skillsNeedConfirmation));
    SubsequenceSelf(Skills(result.skillsNeverAdd));
    SubsequenceConcat(Skills(a) + Skills(b), Skills(result.skillsSupported) + Skills(result.skillsNeedConfirmation),
                      Skills(result.skillsNeverAdd), Skills(result.skillsNeverAdd));
  }

  lemma SubsequenceSelf(s: seq<string>)
    ensures IsSubsequence(s, s)
  {
    FilterAll(s, x => true);
    FilterIsSubsequence(s, x => true);
  }

  /**
   * None of the model's own words survive: every sentence is one of the fixed templates, an item's reason is the one
   * of the list it ends in and names its own skill, and what is not supported or unconfirmed cites nothing.
   */
  lemma NoModelWordsSurvive(lex: Lexicon, facts: Facts, result: MatchResponse)
    ensures var g := Ground(lex, facts, result);
            && g.explanation == Explains(Skills(g.skillsSupported)) && g.eligibilityReason.EligibilityBasis?
            && (forall line :: line in g.tailoringPreview ==>
              line.Emphasize? && line.skill in Skills(g.skillsSupported))
            && (forall item :: item in g.skillsSupported ==> item.reason == SupportedByEvidence)
            && (forall item :: item in g.skillsNeedConfirmation ==> item.reason == EvidenceNotDirect(item.skill))
            && (forall item :: item in g.skillsToLearn ==>
              item.factIds == [] && item.reason == DevelopmentGap(item.skill))
            && (forall item :: item in g.skillsNeverAdd ==> item.factIds == [] && item.reason == NeverClaim(item.skill))
  {
    var g := Ground(lex, facts, result);
    forall item | item in g.skillsSupported ensures item.reason == SupportedByEvidence {
      InSupported(lex, facts, result.skillsSupported, item);
    }
    forall item | item in g.skillsNeedConfirmation ensures item.reason == EvidenceNotDirect(item.skill) {
      InConfirmation(lex, facts, result.skillsNeedConfirmation, item);
    }
    forall line | line in g.tailoringPreview ensures line.Emphasize? && line.skill in Skills(g.skillsSupported) {
      assert line in PreviewLines(g.skillsSupported);
      PreviewNamesASkill(g.skillsSupported, line);
    }
  }

  lemma {:induction false} PreviewNamesASkill(items: seq<SkillItem>, line: Phrase)
    requires line in PreviewLines(items)
    ensures line.Emphasize? && line.skill in Skills(items)
  {
    assert Skills(items) == [items[0].skill] + Skills(items[1..]);
    if line in PreviewLines(items[1..]) {
      PreviewNamesASkill(items[1..], line);
    }
  }

  // ---- the whole answer, spelled out ----

  /** The claim cites a valid fact that is direct evidence for it. */
  ghost predicate Backed(lex: Lexicon, facts: Facts, item: SkillItem) {
    exists id :: id in item.factIds && id in facts.valid && Evidence(lex, facts, item.skill, id)
  }

  /** The claim cites a valid fact, and evidence as well where exact evidence is required. */
  ghost predicate Offerable(lex: Lexicon, facts: Facts, item: SkillItem) {
    (exists id :: id in item.factIds && id in facts.valid) && (Exacting(lex, item.skill) ==> Backed(lex, facts, item))
  }

  lemma SupportableMeansBacked(lex: Lexicon, facts: Facts, item: SkillItem)
    ensures Supportable(lex, facts, item) <==> Backed(lex, facts, item)
    ensures Confirmable(lex, facts, item) <==> Offerable(lex, facts, item)
  {
    ExactingMeansRequired(lex, facts, item);
    var ids := RealIds(facts, item);
    if ids != [] {
      assert ids[0] in ids;
    }
  }

  /** The claim as it is listed: its own skill, a fixed sentence, and of the cited ids the valid ones. */
  function Citing(facts: Facts, item: SkillItem, reason: Phrase): SkillItem {
    SkillItem(item.skill, reason, Filter(item.factIds, id => id in facts.valid))
  }

  function Uncited(item: SkillItem, reason: Phrase): SkillItem {
    SkillItem(item.skill, reason, [])
  }

  lemma KeptListsSpelledOut(lex: Lexicon, facts: Facts, items: seq<SkillItem>)
    ensures Supported(lex, facts, items)
         == Map(Filter(items, item => Backed(lex, facts, item)),
                (item: SkillItem) => Citing(facts, item, SupportedByEvidence))
    ensures Confirmation(lex, facts, items)
         == Map(Filter(items, item => Offerable(lex, facts, item)),
                (item: SkillItem) => Citing(facts, item, EvidenceNotDirect(item.skill)))
  {
    forall item ensures (Supportable(lex, facts, item) <==> Backed(lex, facts, item))
                     && (Confirmable(lex, facts, item) <==> Offerable(lex, facts, item)) {
      SupportableMeansBacked(lex, facts, item);
    }
    FilterSame(items, item => Supportable(lex, facts, item), item => Backed(lex, facts, item));
    FilterSame(items, item => Confirmable(lex, facts, item), item => Offerable(lex, facts, item));
    MapSame(Filter(items, item => Backed(lex, facts, item)), item => SupportedItem(facts, item),
            (item: SkillItem) => Citing(facts, item, SupportedByEvidence));
    MapSame(Filter(items, item => Offerable(lex, facts, item)), item => ConfirmationItem(facts, item),
            (item: SkillItem) => Citing(facts, item, EvidenceNotDirect(item.skill)));
  }

  lemma RejectedListsSpelledOut(lex: Lexicon, facts: Facts, items: seq<SkillItem>)
    ensures Unsupported(lex, facts, items) == Map(Filter(items, item => !Backed(lex, facts, item)), RejectedItem)
    ensures Unconfirmed(lex, facts, items) == Map(Filter(items, item => !Offerable(lex, facts, item)), RejectedItem)
  {
    forall item ensures (Supportable(lex, facts, item) <==> Backed(lex, facts, item))
                     && (Confirmable(lex, facts, item) <==> Offerable(lex, facts, item)) {
      SupportableMeansBacked(lex, facts, item);
    }
    FilterSame(items, item => !Supportable(lex, facts, item), item => !Backed(lex, facts, item));
    FilterSame(items, item => !Confirmable(lex, facts, item), item => !Offerable(lex, facts, item));
  }

  lemma SkillAt(a: seq<SkillItem>, b: seq<SkillItem>, c: seq<SkillItem>, i: nat)
    requires i < |a + b + c|
    ensures (Map(a, RejectedItem) + Map(b, RejectedItem) + c)[i].skill == (a + b + c)[i].skill
  {
  }

  lemma NeverListSpelledOut(a: seq<SkillItem>, b: seq<SkillItem>, c: seq<SkillItem>)
    ensures Map(Map(a, RejectedItem) + Map(b, RejectedItem) + c, NeverItem)
         == Map(a + b + c, (item: SkillItem) => Uncited(item, NeverClaim(item.skill)))
  {
    var never := Map(Map(a, RejectedItem) + Map(b, RejectedItem) + c, NeverItem);
    var spelled := Map(a + b + c, (item: SkillItem) => Uncited(item, NeverClaim(item.skill)));
    assert |never| == |spelled|;
    forall i | 0 <= i < |never| ensures never[i] == spelled[i] {
      SkillAt(a, b, c, i);
    }
  }

  /**
   * The four lists of the answer, item by item and in order. Supported: the claims with direct evidence. To confirm:
   * the model's own confirmation items that cite a valid fact, unless exact evidence is required and missing. Both keep
   * exactly their valid ids. Never to add: the claims turned away from the two lists, then the model's own. To learn:
   * all of the model's. The last two cite nothing.
   */
  lemma ListsSpelledOut(lex: Lexicon, facts: Facts, result: MatchResponse)
    ensures var g := Ground(lex, facts, result);
            && g.skillsSupported
               == Map(Filter(result.skillsSupported, item => Backed(lex, facts, item)),
                      (item: SkillItem) => Citing(facts, item, SupportedByEvidence))
            && g.skillsNeedConfirmation
               == Map(Filter(result.skillsNeedConfirmation, item => Offerable(lex, facts, item)),
                      (item: SkillItem) => Citing(facts, item, EvidenceNotDirect(item.skill)))
            && g.skillsNeverAdd
               == Map(Filter(result.skillsSupported, item => !Backed(lex, facts, item))
                      + Filter(result.skillsNeedConfirmation, item => !Offerable(lex, facts, item))
                      + result.skillsNeverAdd, (item: SkillItem) => Uncited(item, NeverClaim(item.skill)))
            && g.skillsToLearn
               == Map(result.skillsToLearn, (item: SkillItem) => Uncited(item, DevelopmentGap(item.skill)))
  {
    KeptListsSpelledOut(lex, facts, result.skillsSupported);
    KeptListsSpelledOut(lex, facts, result.skillsNeedConfirmation);
    RejectedListsSpelledOut(lex, facts, result.skillsSupported);
    RejectedListsSpelledOut(lex, facts, result.skillsNeedConfirmation);
    NeverListSpelledOut(Filter(result.skillsSupported, item => !Backed(lex, facts, item)),
                        Filter(result.skillsNeedConfirmation, item => !Offerable(lex, facts, item)),
                        result.skillsNeverAdd);
    MapSame(result.skillsToLearn, LearnItem, (item: SkillItem) => Uncited(item, DevelopmentGap(item.skill)));
  }

  lemma MappedMember(s: seq<SkillItem>, f: SkillItem -> SkillItem, item: SkillItem)
    requires item in s
    ensures f(item) in Map(s, f)
  {
    var i :| 0 <= i < |s| && s[i] == item;
    assert Map(s, f)[i] == f(item);
  }

  /**
   * Each confirmation item ends in exactly one way: if it cites a valid fact, and either needs no exact evidence or has
   * it, it is offered for confirmation with its valid ids; otherwise it is on the never-add list.
   */
  lemma ConfirmationIsDecided(lex: Lexicon, facts: Facts, result: MatchResponse, item: SkillItem)
    requires item in result.skillsNeedConfirmation
    ensures var g := Ground(lex, facts, result);
            if (exists id :: id in item.factIds && id in facts.valid)
               && (!Exacting(lex, item.skill)
                   || exists id :: id in item.factIds && id in facts.valid && Evidence(lex, facts, item.skill, id))
            then Citing(facts, item, EvidenceNotDirect(item.skill)) in g.skillsNeedConfirmation
            else Uncited(item, NeverClaim(item.skill)) in g.skillsNeverAdd
  {
    ListsSpelledOut(lex, facts, result);
    if Offerable(lex, facts, item) {
      MappedMember(Filter(result.skillsNeedConfirmation, it => Offerable(lex, facts, it)),
                   (it: SkillItem) => Citing(facts, it, EvidenceNotDirect(it.skill)), item);
    } else {
      MappedMember(Filter(result.skillsSupported, it => !Backed(lex, facts, it))
                   + Filter(result.skillsNeedConfirmation, it => !Offerable(lex, facts, it))
                   + result.skillsNeverAdd, (it: SkillItem) => Uncited(it, NeverClaim(it.skill)), item);
    }
  }

  /**
   * The rest of the answer: what is kept, the counts in the reason, the skills in the explanation, and a preview with
   * one line for each of the first four supported skills.
   */
  lemma PreviewAndRecommendation(lex: Lexicon, facts: Facts, result: MatchResponse)
    ensures var g := Ground(lex, facts, result);
            && g.eligibility == result.eligibility && g.matchScore == result.matchScore
            && g.recommendation == (if result.eligibility == Fail then Skip else result.recommendation)
            && g.eligibilityReason == EligibilityBasis(result.eligibility, |g.skillsSupported|,
                 |g.skillsToLearn| + |g.skillsNeverAdd| + |g.skillsNeedConfirmation|)
            && g.explanation.Explains? && Names(g.skillsSupported, g.explanation.skills)
            && PreviewOf(g.skillsSupported, g.tailoringPreview)
  {
    AssembledSentences(result, Supported(lex, facts, result.skillsSupported),
                       Confirmation(lex, facts, result.skillsNeedConfirmation), Rejected(lex, facts, result));
    PreviewIsOfSupported(lex, facts, result);
  }

  lemma AssembledSentences(result: MatchResponse, supported: seq<SkillItem>, confirmation: seq<SkillItem>,
      rejected: seq<SkillItem>)
    ensures var g := Assemble(result, supported, confirmation, rejected);
            && g.skillsSupported == supported
            && g.eligibility == result.eligibility && g.matchScore == result.matchScore
            && g.recommendation == (if result.eligibility == Fail then Skip else result.recommendation)
            && g.eligibilityReason == EligibilityBasis(result.eligibility, |g.skillsSupported|,
                 |g.skillsToLearn| + |g.skillsNeverAdd| + |g.skillsNeedConfirmation|)
            && g.explanation.Explains? && Names(supported, g.explanation.skills)
  {
  }

  ghost predicate Names(items: seq<SkillItem>, skills: seq<string>) {
    |skills| == |items| && forall i :: 0 <= i < |items| ==> skills[i] == items[i].skill
  }

  lemma PreviewIsOfSupported(lex: Lexicon, facts: Facts, result: MatchResponse)
    ensures PreviewOf(Ground(lex, facts, result).skillsSupported, Ground(lex, facts, result).tailoringPreview)
  {
    var g := Ground(lex, facts, result);
    forall item | item in g.skillsSupported ensures item.factIds != [] {
      SupportedIsGrounded(lex, facts, result, item);
    }
    FirstFourLines(g.skillsSupported);
  }

  /** One line for each of the first four supported skills. */
  ghost predicate PreviewOf(supported: seq<SkillItem>, lines: seq<Phrase>) {
    && |lines| == (if |supported| < 4 then |supported| else 4)
    && forall i :: 0 <= i < |lines| ==> lines[i] == Emphasize(supported[i].skill)
  }

  lemma FirstFourLines(supported: seq<SkillItem>)
    requires forall item :: item in supported ==> item.factIds != []
    ensures PreviewOf(supported, FirstFour(PreviewLines(supported)))
  {
    PreviewSpelledOut(supported);
  }

  lemma {:induction false} PreviewSpelledOut(supported: seq<SkillItem>)
    requires forall item :: item in supported ==> item.factIds != []
    ensures |PreviewLines(supported)| == |supported|
    ensures forall i :: 0 <= i < |supported| ==> PreviewLines(supported)[i] == Emphasize(supported[i].skill)
  {
    if supported != [] {
      assert supported[0] in supported;
      PreviewSpelledOut(supported[1..]);
    }
  }
}
