/** What the text tests of grounding mean, said without the code's control flow and helpers. */
module GroundingText {
  import opened Prelude
  import opened Grounding

  // ---- words ----

  predicate Alphanumeric(c: char) {
    c in "abcdefghijklmnopqrstuvwxyz0123456789"
  }

  predicate InWord(c: char) {
    Alphanumeric(c) || c in "+.#-"
  }

  /**
   * `s[from..to]` is a word of `s`: the stretch of word characters that starts at `run` extends up to `to` and no
   * further on either side, and the word is what is left of it from its first letter or digit on.
   */
  ghost predicate WordAt(s: string, run: nat, from: nat, to: nat) {
    && run <= from < to <= |s|
    && (forall k :: run <= k < to ==> InWord(s[k]))
    && (run > 0 ==> !InWord(s[run - 1])) && (to < |s| ==> !InWord(s[to]))
    && (forall k :: run <= k < from ==> !Alphanumeric(s[k])) && Alphanumeric(s[from])
  }

  lemma ClassesAgree(c: char)
    ensures TokenStart(c) <==> Alphanumeric(c)
    ensures TokenRest(c) <==> InWord(c)
  {
  }

  lemma AllClassesAgree()
    ensures forall c :: TokenStart(c) <==> Alphanumeric(c)
    ensures forall c :: TokenRest(c) <==> InWord(c)
  {
    forall c ensures (TokenStart(c) <==> Alphanumeric(c)) && (TokenRest(c) <==> InWord(c)) {
      ClassesAgree(c);
    }
  }

  ghost predicate IsWord(s: string, w: string) {
    exists run: nat, from: nat, to: nat :: WordAt(s, run, from, to) && w == s[from..to]
  }

  lemma WordBeyondSkip(s: string, run: nat, from: nat, to: nat)
    requires s != "" && !Alphanumeric(s[0]) && WordAt(s[1..], run, from, to)
    ensures WordAt(s, if run == 0 && InWord(s[0]) then 0 else run + 1, from + 1, to + 1)
    ensures s[1..][from..to] == s[from + 1..to + 1]
  {
    var rest := s[1..];
    assert forall k :: 0 < k < |s| ==> s[k] == rest[k - 1];
  }

  lemma WordStartsLater(s: string, run: nat, from: nat, to: nat)
    requires s != "" && !Alphanumeric(s[0]) && WordAt(s, run, from, to)
    ensures from > 0 && WordAt(s[1..], if run == 0 then 0 else run - 1, from - 1, to - 1)
    ensures s[1..][from - 1..to - 1] == s[from..to]
  {
    var rest := s[1..];
    assert forall k :: 0 <= k < |rest| ==> rest[k] == s[k + 1];
  }

  /** A character that starts no word makes no difference. */
  lemma WordsAfterSkip(s: string, w: string)
    requires s != "" && !Alphanumeric(s[0])
    ensures IsWord(s, w) <==> IsWord(s[1..], w)
  {
    if IsWord(s[1..], w) {
      var run: nat, from: nat, to: nat :| WordAt(s[1..], run, from, to) && w == s[1..][from..to];
      WordBeyondSkip(s, run, from, to);
    }
    if IsWord(s, w) {
      var run: nat, from: nat, to: nat :| WordAt(s, run, from, to) && w == s[from..to];
      WordStartsLater(s, run, from, to);
    }
  }

  /** `s` starts with a letter or digit, and its first `n` characters are all of the word that starts there. */
  ghost predicate StartsWithWord(s: string, n: nat) {
    && 0 < n <= |s| && Alphanumeric(s[0]) && (forall k :: 0 <= k < n ==> InWord(s[k])) && (n < |s| ==> !InWord(s[n]))
  }

  /** After a whole word the text goes on as if it began there. */
  lemma ShiftedWord(s: string, n: nat, run: nat, from: nat, to: nat)
    requires 0 < n <= |s| && 0 < run && run <= from < to <= |s| - n
    ensures WordAt(s, run + n, from + n, to + n) <==> WordAt(s[n..], run, from, to)
    ensures s[n..][from..to] == s[from + n..to + n]
  {
    var rest := s[n..];
    assert forall k :: n <= k < |s| ==> s[k] == rest[k - n];
  }

  lemma LaterRun(s: string, n: nat, run: nat, from: nat, to: nat)
    requires StartsWithWord(s, n) && WordAt(s[n..], run, from, to)
    ensures run > 0
  {
    assert s[n..][0] == s[n];
  }

  lemma WordBeyondFirst(s: string, n: nat, w: string)
    requires StartsWithWord(s, n) && IsWord(s[n..], w)
    ensures IsWord(s, w)
  {
    var run: nat, from: nat, to: nat :| WordAt(s[n..], run, from, to) && w == s[n..][from..to];
    LaterRun(s, n, run, from, to);
    ShiftedWord(s, n, run, from, to);
  }

  /** Only the first word lies within the first stretch. */
  lemma WithinFirst(s: string, n: nat, run: nat, from: nat, to: nat)
    requires StartsWithWord(s, n) && WordAt(s, run, from, to)
    ensures run > n || (from == 0 && to == n)
  {
    if run == 0 {
      assert from == 0;
      assert to == n;
    } else {
      assert run - 1 >= n;
    }
  }

  lemma WordThere(s: string, run: nat, from: nat, to: nat, w: string)
    requires WordAt(s, run, from, to) && w == s[from..to]
    ensures IsWord(s, w)
  {
  }

  lemma LaterWord(s: string, n: nat, run: nat, from: nat, to: nat, r: nat, f: nat, e: nat)
    requires StartsWithWord(s, n) && WordAt(s, run, from, to) && r > 0 && run == r + n && from == f + n && to == e + n
    ensures IsWord(s[n..], s[from..to])
  {
    ShiftedWord(s, n, r, f, e);
    WordThere(s[n..], r, f, e, s[from..to]);
  }

  /** Every word is the first one or one of the rest. */
  lemma FirstOrLater(s: string, n: nat, w: string)
    requires StartsWithWord(s, n) && IsWord(s, w)
    ensures w == s[..n] || IsWord(s[n..], w)
  {
    var run: nat, from: nat, to: nat :| WordAt(s, run, from, to) && w == s[from..to];
    WithinFirst(s, n, run, from, to);
    if run > n {
      LaterWord(s, n, run, from, to, run - n, from - n, to - n);
    }
  }

  lemma WordsAfterWord(s: string, n: nat, w: string)
    requires StartsWithWord(s, n)
    ensures IsWord(s, w) <==> w == s[..n] || IsWord(s[n..], w)
  {
    if w == s[..n] {
      assert WordAt(s, 0, 0, n) && s[0..n] == s[..n];
    } else if IsWord(s, w) {
      FirstOrLater(s, n, w);
    } else if IsWord(s[n..], w) {
      WordBeyondFirst(s, n, w);
    }
  }

  lemma FirstToken(s: string)
    requires s != "" && TokenStart(s[0])
    ensures 1 + TokenLength(s[1..]) <= |s| && StartsWithWord(s, 1 + TokenLength(s[1..]))
  {
    AllClassesAgree();
    var n := 1 + TokenLength(s[1..]);
    forall k | 0 <= k < n ensures InWord(s[k]) {
      if k > 0 {
        assert s[1..][k - 1] == s[k];
      }
    }
    if n < |s| {
      assert s[1..][n - 1] == s[n];
    }
  }

  /** The matches of the code's expression are the words of the text. */
  lemma {:induction false} MatchesAreWords(s: string, w: string)
    ensures w in Matches(s) <==> IsWord(s, w)
    decreases |s|
  {
    if s != "" {
      ClassesAgree(s[0]);
      if TokenStart(s[0]) {
        var n := 1 + TokenLength(s[1..]);
        FirstToken(s);
        MatchesAreWords(s[n..], w);
        WordsAfterWord(s, n, w);
      } else {
        MatchesAreWords(s[1..], w);
        WordsAfterSkip(s, w);
      }
    }
  }

  /** A word of the qualification that is longer than one character and says something. */
  ghost predicate Telling(lex: Lexicon, qualification: string, w: string) {
    && IsWord(lex.lower(qualification), w) && |w| > 1
    && w !in ["a", "an", "and", "degree", "experience", "in", "knowledge", "of", "or", "programming", "proficiency",
              "skill", "skills", "the", "with"]
  }

  /** The code's tokens are the telling words, each once. */
  lemma TokensAreTellingWords(lex: Lexicon, qualification: string)
    ensures forall w :: w in QualificationTokens(lex, qualification) <==> Telling(lex, qualification, w)
    ensures NoDuplicates(QualificationTokens(lex, qualification))
  {
    forall w ensures w in QualificationTokens(lex, qualification) <==> Telling(lex, qualification, w) {
      TokenIffTelling(lex, qualification, w);
    }
  }

  lemma TokenIffTelling(lex: Lexicon, qualification: string, w: string)
    ensures w in QualificationTokens(lex, qualification) <==> Telling(lex, qualification, w)
  {
    MatchesAreWords(lex.lower(qualification), w);
  }

  // ---- evidence ----

  /** The first rule the qualification falls under says which type the fact must have; authorization admits none. */
  ghost predicate TypeFits(lex: Lexicon, value: string, facts: Facts, id: string) {
    var gpa, graduation, coursework := lex.gpa(value), lex.graduation(value), lex.coursework(value);
    && !lex.authorization(value)
    && (gpa ==> id in facts.types && facts.types[id] == "gpa")
    && (!gpa && graduation ==> id in facts.types && facts.types[id] in ["graduationDate", "education"])
    && (!gpa && !graduation && coursework ==> id in facts.types && facts.types[id] == "coursework")
    && (!gpa && !graduation && !coursework && lex.degree(value) ==>
          id in facts.types && facts.types[id] == "education")
  }

  /** Some rule on the type of the fact applies. */
  ghost predicate TypeRuled(lex: Lexicon, value: string) {
    lex.authorization(value) || lex.gpa(value) || lex.graduation(value) || lex.coursework(value) || lex.degree(value)
  }

  ghost function FactText(facts: Facts, id: string): string {
    if id in facts.text then facts.text[id] else ""
  }

  /** The only telling word, or two of them. */
  ghost predicate WordsOverlap(lex: Lexicon, qualification: string, text: string) {
    || (exists a :: Telling(lex, qualification, a) && Occurs(a, text)
          && forall b :: Telling(lex, qualification, b) ==> b == a)
    || (exists a, b :: Telling(lex, qualification, a) && Telling(lex, qualification, b) && a != b
          && Occurs(a, text) && Occurs(b, text))
  }

  /**
   * What counts as direct evidence: the type rule, the years rule, a qualification with a telling word, and either the
   * related-engineering-degree exception or enough overlapping words.
   */
  ghost predicate Evidence(lex: Lexicon, facts: Facts, qualification: string, id: string) {
    var value := lex.lower(qualification);
    var text := lex.lower(FactText(facts, id));
    && TypeFits(lex, value, facts, id)
    && (lex.duration(value).Some? ==> lex.mentionsDuration(lex.duration(value).value, FactText(facts, id)))
    && (exists w :: Telling(lex, qualification, w))
    && (|| (lex.relatedEngineeringDegree(value) && id in facts.types && facts.types[id] == "education"
            && lex.engineering(text))
        || WordsOverlap(lex, qualification, text))
  }

  lemma OverlapIsTwoTokens(tokens: seq<string>, hit: string -> bool)
    requires NoDuplicates(tokens)
    ensures |Filter(tokens, hit)| >= 2 <==> exists a, b :: a in tokens && b in tokens && a != b && hit(a) && hit(b)
  {
    var overlap := Filter(tokens, hit);
    FilterNoDuplicates(tokens, hit);
    if |overlap| >= 2 {
      assert overlap[0] in overlap && overlap[1] in overlap && overlap[0] != overlap[1];
    }
    if a, b :| a in tokens && b in tokens && a != b && hit(a) && hit(b) {
      assert a in overlap && b in overlap;
      var i :| 0 <= i < |overlap| && overlap[i] == a;
      var j :| 0 <= j < |overlap| && overlap[j] == b;
    }
  }

  lemma AllowedMeansFits(lex: Lexicon, facts: Facts, qualification: string, id: string)
    ensures var allowed := AllowedFactTypes(lex, qualification);
            && (allowed.Some? <==> TypeRuled(lex, lex.lower(qualification)))
            && (TypeFits(lex, lex.lower(qualification), facts, id) <==>
                  !(allowed.Some? && (facts.TypeOf(id).None? || facts.TypeOf(id).value == ""
                                      || facts.TypeOf(id).value !in allowed.value)))
  {
    assert "gpa" != "" && "graduationDate" != "" && "education" != "" && "coursework" != "";
  }

  /** The code's two counts, of tokens and of tokens found in the text, come to overlap of words. */
  lemma CountsMeanOverlap(lex: Lexicon, qualification: string, text: string)
    requires QualificationTokens(lex, qualification) != []
    ensures var tokens := QualificationTokens(lex, qualification);
            var overlap := Filter(tokens, token => Includes(text, token));
            (if |tokens| == 1 then |overlap| == 1 else |overlap| >= 2) <==> WordsOverlap(lex, qualification, text)
  {
    var tokens := QualificationTokens(lex, qualification);
    TokensAreTellingWords(lex, qualification);
    forall w ensures Includes(text, w) <==> Occurs(w, text) {
      IncludesMeansOccurs(text, w);
    }
    if |tokens| == 1 {
      OneToken(lex, qualification, text, tokens);
    } else {
      TwoTokens(lex, qualification, text, tokens);
    }
  }

  lemma OneToken(lex: Lexicon, qualification: string, text: string, tokens: seq<string>)
    requires |tokens| == 1 && forall w :: w in tokens <==> Telling(lex, qualification, w)
    requires forall w :: Includes(text, w) <==> Occurs(w, text)
    ensures |Filter(tokens, token => Includes(text, token))| == 1 <==> WordsOverlap(lex, qualification, text)
  {
    assert tokens == [tokens[0]] && tokens[0] in tokens;
    assert forall b :: Telling(lex, qualification, b) ==> b == tokens[0];
  }

  /** Where two words tell something, overlap takes two. */
  lemma OverlapTakesTwo(lex: Lexicon, qualification: string, text: string, u: string, v: string)
    requires Telling(lex, qualification, u) && Telling(lex, qualification, v) && u != v
    ensures WordsOverlap(lex, qualification, text) <==>
      exists a, b :: Telling(lex, qualification, a) && Telling(lex, qualification, b) && a != b
        && Occurs(a, text) && Occurs(b, text)
  {
  }

  lemma TwoTokens(lex: Lexicon, qualification: string, text: string, tokens: seq<string>)
    requires |tokens| > 1 && NoDuplicates(tokens) && forall w :: w in tokens <==> Telling(lex, qualification, w)
    requires forall w :: Includes(text, w) <==> Occurs(w, text)
    ensures |Filter(tokens, token => Includes(text, token))| >= 2 <==> WordsOverlap(lex, qualification, text)
  {
    OverlapIsTwoTokens(tokens, token => Includes(text, token));
    assert tokens[0] in tokens && tokens[1] in tokens;
    OverlapTakesTwo(lex, qualification, text, tokens[0], tokens[1]);
  }

  /** The code accepts a fact for a qualification exactly when it is direct evidence for it. */
  lemma SupportsIffEvidence(lex: Lexicon, facts: Facts, qualification: string, id: string)
    ensures DirectlySupportsQualification(lex, qualification, facts.TextOf(id), facts.TypeOf(id))
       <==> Evidence(lex, facts, qualification, id)
  {
    var tokens := QualificationTokens(lex, qualification);
    AllowedMeansFits(lex, facts, qualification, id);
    TokensAreTellingWords(lex, qualification);
    if tokens != [] {
      assert tokens[0] in tokens;
      CountsMeanOverlap(lex, qualification, lex.lower(facts.TextOf(id)));
    }
  }
}
