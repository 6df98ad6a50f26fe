/** Evidence grounding: rewriting a model answer into lists that claim only what approved facts support. */
module Grounding {
  import opened Prelude

  // ---- the text tests ----

  /** The regular expressions and the case folding, by name. Everything below holds for any choice of them. */
  datatype Lexicon = Lexicon(
    lower: string -> string,
    authorization: string -> bool,
    gpa: string -> bool,
    graduation: string -> bool,
    coursework: string -> bool,
    degree: string -> bool,
    relatedEngineeringDegree: string -> bool,
    engineering: string -> bool,
    duration: string -> Option<string>,
    mentionsDuration: (string, string) -> bool,
    certificationOrYears: string -> bool
  )

  const STOP_WORDS := {
    "a", "an", "and", "degree", "experience", "in", "knowledge", "of",
    "or", "programming", "proficiency", "skill", "skills", "the", "with"
  }

  predicate TokenStart(c: char) {
    'a' <= c <= 'z' || '0' <= c <= '9'
  }

  predicate TokenRest(c: char) {
    TokenStart(c) || c == '+' || c == '.' || c == '#' || c == '-'
  }

  function TokenLength(s: string): (n: nat)
    ensures n <= |s| && forall i :: 0 <= i < n ==> TokenRest(s[i])
    ensures n < |s| ==> !TokenRest(s[n])
  {
    if s == "" || !TokenRest(s[0]) then 0 else 1 + TokenLength(s[1..])
  }

  /** `value.match(/[a-z0-9][a-z0-9+.#-]*` `/g) ?? []`: maximal tokens, left to right. */
  function Matches(s: string): seq<string>
    decreases |s|
  {
    if s == "" then []
    else if TokenStart(s[0]) then
      var n := 1 + TokenLength(s[1..]);
      [s[..n]] + Matches(s[n..])
    else Matches(s[1..])
  }

  function QualificationTokens(lex: Lexicon, value: string): seq<string> {
    Dedupe(Filter(Matches(lex.lower(value)), (token: string) => |token| > 1 && token !in STOP_WORDS))
  }

  /** `None` means any fact type will do; an empty set means none will. */
  function AllowedFactTypes(lex: Lexicon, qualification: string): Option<set<string>> {
    var value := lex.lower(qualification);
    if lex.authorization(value) then Some({})
    else if lex.gpa(value) then Some({"gpa"})
    else if lex.graduation(value) then Some({"graduationDate", "education"})
    else if lex.coursework(value) then Some({"coursework"})
    else if lex.degree(value) then Some({"education"})
    else None
  }

  function DirectlySupportsQualification(lex: Lexicon, qualification: string, factText: string,
      factType: Option<string>): bool {
    var allowed := AllowedFactTypes(lex, qualification);
    if allowed.Some? && (factType.None? || factType.value == "" || factType.value !in allowed.value) then false
    else
      var required := lex.duration(lex.lower(qualification));
      if required.Some? && !lex.mentionsDuration(required.value, factText) then false
      else
        var tokens := QualificationTokens(lex, qualification);
        if |tokens| == 0 then false
        else
          var evidence := lex.lower(factText);
          if && lex.relatedEngineeringDegree(lex.lower(qualification)) && factType == Some("education")
             && lex.engineering(evidence) then true
          else
            var overlap := Filter(tokens, token => Includes(evidence, token));
            if |tokens| == 1 then |overlap| == 1 else |overlap| >= 2
  }

  function RequiresExactEvidence(lex: Lexicon, qualification: string): bool {
    AllowedFactTypes(lex, qualification).Some? || lex.certificationOrYears(qualification)
  }

  // ---- the answer ----

  /** A piece of text in the answer: the model's own words, or one of the code's fixed templates. */
  datatype Phrase =
    | ModelSaid(text: string)
    | SupportedByEvidence
    | EvidenceNotDirect(skill: string)
    | NoFactSupports(skill: string)
    | DevelopmentGap(skill: string)
    | NeverClaim(skill: string)
    | EligibilityBasis(eligibility: Eligibility, supported: nat, unsupported: nat)
    | Explains(skills: seq<string>)
    | Emphasize(skill: string)

  datatype SkillItem = SkillItem(skill: string, reason: Phrase, factIds: seq<string>)

  datatype Eligibility = Pass | Fail | Unknown

  datatype Recommendation = Apply | Skip | Consider

  datatype MatchResponse = MatchResponse(
    eligibility: Eligibility,
    eligibilityReason: Phrase,
    matchScore: int,
    explanation: Phrase,
    recommendation: Recommendation,
    skillsSupported: seq<SkillItem>,
    skillsNeedConfirmation: seq<SkillItem>,
    skillsToLearn: seq<SkillItem>,
    skillsNeverAdd: seq<SkillItem>,
    tailoringPreview: seq<Phrase>
  )

  /** The approved facts one match run works with. */
  datatype Facts = Facts(valid: set<string>, text: map<string, string>, types: map<string, string>) {
    function TextOf(id: string): string {
      if id in text then text[id] else ""
    }
    function TypeOf(id: string): Option<string> {
      if id in types then Some(types[id]) else None
    }
  }

  function RealIds(facts: Facts, item: SkillItem): seq<string> {
    Filter(item.factIds, id => id in facts.valid)
  }

  /** `realIds.some(directlySupports)`. */
  predicate HasEvidence(lex: Lexicon, facts: Facts, item: SkillItem) {
    exists id :: id in RealIds(facts, item)
      && DirectlySupportsQualification(lex, item.skill, facts.TextOf(id), facts.TypeOf(id))
  }

  predicate Supportable(lex: Lexicon, facts: Facts, item: SkillItem) {
    |RealIds(facts, item)| > 0 && HasEvidence(lex, facts, item)
  }

  predicate Confirmable(lex: Lexicon, facts: Facts, item: SkillItem) {
    !(|RealIds(facts, item)| == 0 || (RequiresExactEvidence(lex, item.skill) && !HasEvidence(lex, facts, item)))
  }

  function SupportedItem(facts: Facts, item: SkillItem): SkillItem {
    item.(factIds := RealIds(facts, item), reason := SupportedByEvidence)
  }

  function ConfirmationItem(facts: Facts, item: SkillItem): SkillItem {
    item.(factIds := RealIds(facts, item), reason := EvidenceNotDirect(item.skill))
  }

  function RejectedItem(item: SkillItem): SkillItem {
    item.(factIds := [], reason := NoFactSupports(item.skill))
  }

  function LearnItem(item: SkillItem): SkillItem {
    item.(factIds := [], reason := DevelopmentGap(item.skill))
  }

  function NeverItem(item: SkillItem): SkillItem {
    item.(factIds := [], reason := NeverClaim(item.skill))
  }

  function Skills(items: seq<SkillItem>): seq<string> {
    Map(items, (item: SkillItem) => item.skill)
  }

  /** `flatMap(item => item.factIds.slice(0, 1).map(line))`. */
  function PreviewLines(supported: seq<SkillItem>): seq<Phrase> {
    if supported == [] then []
    else (if supported[0].factIds == [] then [] else [Emphasize(supported[0].skill)]) + PreviewLines(supported[1..])
  }

  function FirstFour(lines: seq<Phrase>): seq<Phrase> {
    if |lines| <= 4 then lines else lines[..4]
  }

  // ---- the specification ----

  function Supported(lex: Lexicon, facts: Facts, items: seq<SkillItem>): seq<SkillItem> {
    Map(Filter(items, item => Supportable(lex, facts, item)), item => SupportedItem(facts, item))
  }

  function Confirmation(lex: Lexicon, facts: Facts, items: seq<SkillItem>): seq<SkillItem> {
    Map(Filter(items, item => Confirmable(lex, facts, item)), item => ConfirmationItem(facts, item))
  }

  /** The claims turned away by the first loop, and by the second. */
  function Unsupported(lex: Lexicon, facts: Facts, items: seq<SkillItem>): seq<SkillItem> {
    Map(Filter(items, item => !Supportable(lex, facts, item)), RejectedItem)
  }

  function Unconfirmed(lex: Lexicon, facts: Facts, items: seq<SkillItem>): seq<SkillItem> {
    Map(Filter(items, item => !Confirmable(lex, facts, item)), RejectedItem)
  }

  function Rejected(lex: Lexicon, facts: Facts, result: MatchResponse): seq<SkillItem> {
    Unsupported(lex, facts, result.skillsSupported)
    + Unconfirmed(lex, facts, result.skillsNeedConfirmation)
  }

  function Assemble(result: MatchResponse, supported: seq<SkillItem>, confirmation: seq<SkillItem>,
      rejected: seq<SkillItem>): MatchResponse {
    var toLearn := Map(result.skillsToLearn, LearnItem);
    var neverAdd := Map(rejected + result.skillsNeverAdd, NeverItem);
    MatchResponse(
      result.eligibility,
      EligibilityBasis(result.eligibility, |supported|, |toLearn| + |neverAdd| + |confirmation|),
      result.matchScore,
      Explains(Skills(supported)),
      if result.eligibility == Fail then Skip else result.recommendation,
      supported,
      confirmation,
      toLearn,
      neverAdd,
      FirstFour(PreviewLines(supported)))
  }

  function Ground(lex: Lexicon, facts: Facts, result: MatchResponse): MatchResponse {
    Assemble(result, Supported(lex, facts, result.skillsSupported),
             Confirmation(lex, facts, result.skillsNeedConfirmation), Rejected(lex, facts, result))
  }

  // ---- the loops ----

  lemma SupportedStep(lex: Lexicon, facts: Facts, items: seq<SkillItem>, i: nat)
    requires i < |items|
    ensures Supported(lex, facts, items[..i + 1])
         == if Supportable(lex, facts, items[i])
            then Supported(lex, facts, items[..i]) + [SupportedItem(facts, items[i])]
            else Supported(lex, facts, items[..i])
    ensures Unsupported(lex, facts, items[..i + 1])
         == if Supportable(lex, facts, items[i]) then Unsupported(lex, facts, items[..i])
            else Unsupported(lex, facts, items[..i]) + [RejectedItem(items[i])]
  {
    MapFilterStep(items, i, item => Supportable(lex, facts, item), item => SupportedItem(facts, item));
    MapFilterStep(items, i, item => !Supportable(lex, facts, item), RejectedItem);
  }

  lemma ConfirmationStep(lex: Lexicon, facts: Facts, items: seq<SkillItem>, i: nat)
    requires i < |items|
    ensures Confirmation(lex, facts, items[..i + 1])
         == if Confirmable(lex, facts, items[i])
            then Confirmation(lex, facts, items[..i]) + [ConfirmationItem(facts, items[i])]
            else Confirmation(lex, facts, items[..i])
    ensures Unconfirmed(lex, facts, items[..i + 1])
         == if Confirmable(lex, facts, items[i]) then Unconfirmed(lex, facts, items[..i])
            else Unconfirmed(lex, facts, items[..i]) + [RejectedItem(items[i])]
  {
    MapFilterStep(items, i, item => Confirmable(lex, facts, item), item => ConfirmationItem(facts, item));
    MapFilterStep(items, i, item => !Confirmable(lex, facts, item), RejectedItem);
  }

  /** The first `i` items have been sorted. */
  ghost predicate SupportedUpTo(lex: Lexicon, facts: Facts, items: seq<SkillItem>, i: nat, supported: seq<SkillItem>,
      rejected: seq<SkillItem>) {
    i <= |items| && supported == Supported(lex, facts, items[..i]) && rejected == Unsupported(lex, facts, items[..i])
  }

  ghost predicate ConfirmedUpTo(lex: Lexicon, facts: Facts, items: seq<SkillItem>, i: nat,
      confirmation: seq<SkillItem>, rejected: seq<SkillItem>) {
    && i <= |items| && confirmation == Confirmation(lex, facts, items[..i])
    && rejected == Unconfirmed(lex, facts, items[..i])
  }

  lemma SupportedNext(lex: Lexicon, facts: Facts, items: seq<SkillItem>, i: nat, supported: seq<SkillItem>,
      rejected: seq<SkillItem>)
    requires i < |items| && SupportedUpTo(lex, facts, items, i, supported, rejected)
    ensures if Supportable(lex, facts, items[i])
            then SupportedUpTo(lex, facts, items, i + 1, supported + [SupportedItem(facts, items[i])], rejected)
            else SupportedUpTo(lex, facts, items, i + 1, supported, rejected + [RejectedItem(items[i])])
  {
    SupportedStep(lex, facts, items, i);
  }

  lemma ConfirmedNext(lex: Lexicon, facts: Facts, items: seq<SkillItem>, i: nat, confirmation: seq<SkillItem>,
      rejected: seq<SkillItem>)
    requires i < |items| && ConfirmedUpTo(lex, facts, items, i, confirmation, rejected)
    ensures if Confirmable(lex, facts, items[i])
            then ConfirmedUpTo(lex, facts, items, i + 1, confirmation + [ConfirmationItem(facts, items[i])], rejected)
            else ConfirmedUpTo(lex, facts, items, i + 1, confirmation, rejected + [RejectedItem(items[i])])
  {
    ConfirmationStep(lex, facts, items, i);
  }

  method SortSupported(lex: Lexicon, facts: Facts, items: seq<SkillItem>)
    returns (supported: seq<SkillItem>, rejected: seq<SkillItem>)
    ensures supported == Supported(lex, facts, items)
    ensures rejected == Unsupported(lex, facts, items)
  {
    supported, rejected := [], [];
    for i := 0 to |items|
      invariant SupportedUpTo(lex, facts, items, i, supported, rejected)
    {
      SupportedNext(lex, facts, items, i, supported, rejected);
      var item := items[i];
      var realIds := RealIds(facts, item);
      if |realIds| > 0 && HasEvidence(lex, facts, item) {
        supported := supported + [item.(factIds := realIds, reason := SupportedByEvidence)];
      } else {
        rejected := rejected + [RejectedItem(item)];
      }
    }
    assert items[..|items|] == items;
  }

  method SortConfirmation(lex: Lexicon, facts: Facts, items: seq<SkillItem>)
    returns (confirmation: seq<SkillItem>, rejected: seq<SkillItem>)
    ensures confirmation == Confirmation(lex, facts, items)
    ensures rejected == Unconfirmed(lex, facts, items)
  {
    confirmation, rejected := [], [];
    for i := 0 to |items|
      invariant ConfirmedUpTo(lex, facts, items, i, confirmation, rejected)
    {
      ConfirmedNext(lex, facts, items, i, confirmation, rejected);
      var item := items[i];
      var realIds := RealIds(facts, item);
      if |realIds| == 0 || (RequiresExactEvidence(lex, item.skill) && !HasEvidence(lex, facts, item)) {
        rejected := rejected + [RejectedItem(item)];
        continue;
      }
      confirmation := confirmation + [ConfirmationItem(facts, item)];
    }
    assert items[..|items|] == items;
  }

  /** `enforceGrounding`. */
  method EnforceGrounding(lex: Lexicon, facts: Facts, result: MatchResponse) returns (grounded: MatchResponse)
    ensures grounded == Ground(lex, facts, result)
  {
    var supported, rejectedClaims := SortSupported(lex, facts, result.skillsSupported);
    var confirmation, moreRejected := SortConfirmation(lex, facts, result.skillsNeedConfirmation);
    grounded := Assemble(result, supported, confirmation, rejectedClaims + moreRejected);
  }
}
