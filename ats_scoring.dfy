/**
 * The ATS scorer: which of seven resume sections a text shows, how many required
 * skills it mentions, how quantified and how badly formatted it is, and the
 * weighted 0-100 score with its breakdown.
 */
module AtsScoring {
  import opened Wrappers
  import opened Text
  import opened Utils
  import opened Patterns

  function Min(a: real, b: real): real { if a <= b then a else b }
  function Max(a: real, b: real): real { if a >= b then a else b }

  // ---------------------------------------------------------------------------
  // section hints
  // ---------------------------------------------------------------------------

  /** The section names with their hint words, in the order the scorer visits them. */
  const SectionHints: seq<(string, seq<string>)> := [
    ("summary", ["summary", "profile", "objective", "about"]),
    ("experience", ["experience", "work", "employment", "professional", "internship"]),
    ("projects", ["projects", "project work", "academic projects", "personal projects"]),
    ("skills", ["skills", "technical skills", "tools", "technologies", "stack"]),
    ("education", ["education", "qualifications", "academics", "b.tech", "bachelor", "master", "university", "college"]),
    ("certifications", ["certifications", "courses", "licenses"]),
    ("achievements", ["achievements", "awards", "honors"])
  ]

  const SectionNames: set<string> :=
    {"summary", "experience", "projects", "skills", "education", "certifications", "achievements"}

  // ---------------------------------------------------------------------------
  // section detection
  // ---------------------------------------------------------------------------

  /** `ln.lower().rstrip(":")`. */
  function HeaderKey(ln: string): string {
    RStripChar(Lower(ln), ':')
  }

  /** A line that names the section or one of its hints, colons aside. */
  predicate IsHeader(ln: string, sec: string, hints: seq<string>) {
    HeaderKey(ln) == sec || HeaderKey(ln) in hints
  }

  /** The first 60 non-empty stripped lines, where headers are looked for. */
  function TopLines(text: string): (lines: seq<string>)
    ensures |lines| <= 60
  {
    Take(StripNonEmpty(SplitLines(text)), 60)
  }

  predicate HeaderFound(lines: seq<string>, sec: string, hints: seq<string>) {
    exists j :: 0 <= j < |lines| && IsHeader(lines[j], sec, hints)
  }

  /** Some hint occurs as a whole word in the lower-cased text. */
  predicate HintFound(textLower: string, hints: seq<string>) {
    exists j :: 0 <= j < |hints| && HasWholeWord(textLower, hints[j])
  }

  const ExperienceWords: seq<string> := ["develop", "built", "worked", "engineer", "implemented"]
  const EducationWords: seq<string> := ["bachelor", "master", "degree", "gpa", "percentage"]

  /** `w` splits as digits `w[..a]`, whitespace `w[a..b]`, then "year" or "years". */
  predicate YearsSplit(w: string, a: nat, b: nat) {
    0 < a < b <= |w|
    && (forall i :: 0 <= i < a ==> IsDigit(w[i]))
    && (forall i :: a <= i < b ==> IsSpace(w[i]))
    && (w[b..] == "year" || w[b..] == "years")
  }

  /** `w` is exactly a match of `\d+\s+years?`. */
  predicate IsYears(w: string) {
    exists a: nat, b: nat | 0 < a < b <= |w| :: YearsSplit(w, a, b)
  }

  /** `\b\d+\s+years?\b` occurs in `t`. */
  predicate HasYears(t: string) {
    exists p: nat, q: nat | p < q <= |t| :: Boundary(t, p) && Boundary(t, q) && IsYears(t[p..q])
  }

  /** `\b(develop|built|worked|engineer|implemented|\d+\s+years?)\b` occurs. */
  predicate ExperienceCue(textLower: string) {
    (exists j :: 0 <= j < |ExperienceWords| && HasWholeWord(textLower, ExperienceWords[j]))
    || HasYears(textLower)
  }

  /** `\b(bachelor|master|degree|gpa|percentage)\b` occurs. */
  predicate EducationCue(textLower: string) {
    exists j :: 0 <= j < |EducationWords| && HasWholeWord(textLower, EducationWords[j])
  }

  /** The distinct matches of `[A-Za-z0-9\+\#\./-]{2,}` in the raw text. */
  function SkillishTokens(text: string): set<string> {
    var ms := Matches(SkillishRun, text);
    set i | 0 <= i < |ms| :: ms[i]
  }

  /** More than eight distinct skill-like tokens. */
  predicate SkillsCue(text: string) {
    |SkillishTokens(text)| > 8
  }

  /** The last-resort cue a section has, if any. */
  predicate HeuristicFound(text: string, sec: string) {
    if sec == "experience" then ExperienceCue(Lower(text))
    else if sec == "education" then EducationCue(Lower(text))
    else if sec == "skills" then SkillsCue(text)
    else false
  }

  /** Whether the section counts as present: a header line near the top, a hint
      anywhere as a whole word, or the section's heuristic. */
  predicate Found(text: string, sec: string, hints: seq<string>) {
    HeaderFound(TopLines(text), sec, hints) || HintFound(Lower(text), hints) || HeuristicFound(text, sec)
  }

  /** The dict a loop over `secs` fills with `m[name] = f(name, hints)`, in order. */
  function Fill<V>(f: (string, seq<string>) -> V, secs: seq<(string, seq<string>)>): map<string, V> {
    if |secs| == 0 then map[]
    else
      var last := secs[|secs| - 1];
      Fill(f, secs[..|secs| - 1])[last.0 := f(last.0, last.1)]
  }

  /** The keys are the names visited. */
  lemma {:induction false} FillKeys<V>(f: (string, seq<string>) -> V, secs: seq<(string, seq<string>)>)
    ensures Fill(f, secs).Keys == set i | 0 <= i < |secs| :: secs[i].0
    decreases |secs|
  {
    if |secs| > 0 {
      var n := |secs| - 1;
      var before := secs[..n];
      FillKeys(f, before);
      var names := set i | 0 <= i < |secs| :: secs[i].0;
      var older := set i | 0 <= i < n :: before[i].0;
      assert names == older + {secs[n].0} by {
        forall x | x in names ensures x in older + {secs[n].0} {
          var i :| 0 <= i < |secs| && secs[i].0 == x;
          if i < n {
            assert before[i] == secs[i];
          }
        }
        forall x | x in older ensures x in names {
          var i :| 0 <= i < n && before[i].0 == x;
          assert before[i] == secs[i];
        }
      }
    }
  }

  lemma FillStep<V>(f: (string, seq<string>) -> V, secs: seq<(string, seq<string>)>, i: nat)
    requires i < |secs|
    ensures Fill(f, secs[..i + 1]) == Fill(f, secs[..i])[secs[i].0 := f(secs[i].0, secs[i].1)]
  {
    assert secs[..i + 1][..i] == secs[..i];
  }

  /** With distinct names, each name's entry is the value computed on its visit. */
  lemma {:induction false} FillLookup<V>(f: (string, seq<string>) -> V, secs: seq<(string, seq<string>)>, i: nat)
    requires i < |secs|
    requires forall a, b :: 0 <= a < b < |secs| ==> secs[a].0 != secs[b].0
    ensures secs[i].0 in Fill(f, secs)
    ensures Fill(f, secs)[secs[i].0] == f(secs[i].0, secs[i].1)
    decreases |secs|
  {
    var n := |secs| - 1;
    if i < n {
      var before := secs[..n];
      assert Fill(f, secs) == Fill(f, before)[secs[n].0 := f(secs[n].0, secs[n].1)];
      assert secs[i].0 != secs[n].0;
      assert before[i] == secs[i];
      assert forall a, b :: 0 <= a < b < |before| ==> before[a].0 != before[b].0 by {
        forall a, b | 0 <= a < b < |before| ensures before[a].0 != before[b].0 {
          assert before[a] == secs[a] && before[b] == secs[b];
        }
      }
      FillLookup(f, before, i);
    }
  }

  /** The value the section loop stores for a section of `text`. */
  function FoundIn(text: string): (string, seq<string>) -> bool {
    (sec: string, hints: seq<string>) => Found(text, sec, hints)
  }

  /** `detect_sections(text)`: every section name mapped to whether it was found. */
  function Sections(text: string): (presence: map<string, bool>)
    ensures presence.Keys == SectionNames
    ensures text == "" ==> forall k :: k in presence ==> !presence[k]
  {
    if text == "" then map k | k in SectionNames :: false
    else
      var presence := Fill(FoundIn(text), SectionHints);
      FillKeys(FoundIn(text), SectionHints);
      SectionHintNames();
      presence
  }

  lemma SectionHintNames()
    ensures (set i | 0 <= i < |SectionHints| :: SectionHints[i].0) == SectionNames
  {
    var names := set i | 0 <= i < |SectionHints| :: SectionHints[i].0;
    assert SectionHints[0].0 in names && SectionHints[1].0 in names && SectionHints[2].0 in names;
    assert SectionHints[3].0 in names && SectionHints[4].0 in names && SectionHints[5].0 in names;
    assert SectionHints[6].0 in names;
  }

  /** `detect_sections`, loop for loop: headers first, hints next, heuristics last. */
  method DetectSections(text: string) returns (presence: map<string, bool>)
    ensures presence == Sections(text)
  {
    if text == "" {
      return map k | k in SectionNames :: false;
    }
    var textLower := Lower(text);
    var lines := StripNonEmpty(SplitLines(text));
    presence := map[];
    for i := 0 to |SectionHints|
      invariant presence == Fill(FoundIn(text), SectionHints[..i])
    {
      var sec := SectionHints[i].0;
      var found := DetectSection(text, textLower, lines, sec, SectionHints[i].1);
      FillStep(FoundIn(text), SectionHints, i);
      presence := presence[sec := found];
    }
    assert SectionHints[..|SectionHints|] == SectionHints;
  }

  /** One pass of the section loop: header lines, then hints, then the heuristic. */
  method DetectSection(text: string, textLower: string, lines: seq<string>, sec: string, hints: seq<string>)
    returns (found: bool)
    requires textLower == Lower(text) && lines == StripNonEmpty(SplitLines(text))
    ensures found == Found(text, sec, hints)
  {
    found := SearchHeaders(Take(lines, 60), sec, hints);
    if !found {
      found := SearchHints(textLower, hints);
    }
    if !found {
      if sec == "experience" {
        if ExperienceCue(textLower) {
          found := true;
        }
      } else if sec == "education" {
        if EducationCue(textLower) {
          found := true;
        }
      } else if sec == "skills" {
        var tokens := Matches(SkillishRun, text);
        if |set j | 0 <= j < |tokens| :: tokens[j]| > 8 {
          found := true;
        }
      }
    }
  }

  /** The header loop over the top lines, stopping at the first header. */
  method SearchHeaders(lines: seq<string>, sec: string, hints: seq<string>) returns (found: bool)
    ensures found == HeaderFound(lines, sec, hints)
  {
    found := false;
    for j := 0 to |lines|
      invariant !found
      invariant forall jj :: 0 <= jj < j ==> !IsHeader(lines[jj], sec, hints)
    {
      var lnNorm := HeaderKey(lines[j]);
      if lnNorm == sec || lnNorm in hints {
        found := true;
        break;
      }
    }
  }

  /** The hint loop, stopping at the first hint found as a whole word. */
  method SearchHints(textLower: string, hints: seq<string>) returns (found: bool)
    ensures found == HintFound(textLower, hints)
  {
    found := false;
    for j := 0 to |hints|
      invariant !found
      invariant forall jj :: 0 <= jj < j ==> !HasWholeWord(textLower, hints[jj])
    {
      if HasWholeWord(textLower, hints[j]) {
        found := true;
        break;
      }
    }
  }

  /** The seven section names are distinct, so the later ones never overwrite. */
  lemma SectionNamesDistinct()
    ensures forall a, b :: 0 <= a < b < |SectionHints| ==> SectionHints[a].0 != SectionHints[b].0
  {
    assert |SectionHints[0].0| == 7 && |SectionHints[1].0| == 10 && |SectionHints[2].0| == 8;
    assert |SectionHints[3].0| == 6 && |SectionHints[4].0| == 9 && |SectionHints[5].0| == 14;
    assert |SectionHints[6].0| == 12;
  }

  /** On a non-empty text, each section's entry is exactly whether it was found. */
  lemma SectionsLookup(text: string, i: nat)
    requires text != "" && i < |SectionHints|
    ensures SectionHints[i].0 in Sections(text)
      && Sections(text)[SectionHints[i].0] == Found(text, SectionHints[i].0, SectionHints[i].1)
  {
    SectionNamesDistinct();
    FillLookup(FoundIn(text), SectionHints, i);
  }

  /** The early return for the empty text agrees with the general search: no header,
      no hint and no heuristic fires on "". */
  lemma FoundNothingInEmpty(sec: string, hints: seq<string>)
    requires forall j :: 0 <= j < |hints| ==> hints[j] != ""
    ensures !Found("", sec, hints)
  {
    assert Lower("") == "";
    assert MatchTable(SkillishRun, "") == [];
    assert Matches(SkillishRun, "") == [];
    assert SkillishTokens("") == {};
  }

  /** Every hint of every section is a non-empty word. */
  lemma HintsNonEmpty(i: nat)
    requires i < |SectionHints|
    ensures forall j :: 0 <= j < |SectionHints[i].1| ==> SectionHints[i].1[j] != ""
  {
  }

  /** Returning all-false for "" is what the search would have found anyway. */
  lemma EmptyTextAgrees(i: nat)
    requires i < |SectionHints|
    ensures !Found("", SectionHints[i].0, SectionHints[i].1)
  {
    HintsNonEmpty(i);
    FoundNothingInEmpty(SectionHints[i].0, SectionHints[i].1);
  }

  /** A line among the first 60 that reads as the section's name (any case, trailing
      colons allowed) marks the section present. */
  lemma HeaderMarksSection(text: string, i: nat, j: nat)
    requires i < |SectionHints| && j < |TopLines(text)|
    requires HeaderKey(TopLines(text)[j]) == SectionHints[i].0
    ensures SectionHints[i].0 in Sections(text) && Sections(text)[SectionHints[i].0]
  {
    assert text != "" by {
      assert SplitLines("") == [];
    }
    SectionsLookup(text, i);
  }

  // ---------------------------------------------------------------------------
  // arithmetic facts the ratios need
  // ---------------------------------------------------------------------------

  lemma {:induction false} SubsetCard<T>(a: set<T>, b: set<T>)
    requires a <= b
    ensures |a| <= |b|
    ensures |a| == |b| ==> a == b
    decreases |b|
  {
    if b != {} {
      var x :| x in b;
      SubsetCard(a - {x}, b - {x});
      if x in a {
        assert a == (a - {x}) + {x};
        assert b == (b - {x}) + {x};
      } else {
        assert a - {x} == a;
      }
    }
  }

  lemma RatioFacts(x: real, d: real)
    requires 0.0 <= x && 0.0 < d
    ensures 0.0 <= x / d
    ensures x / d == 0.0 <==> x == 0.0
    ensures x / d >= 1.0 <==> x >= d
  {
    var r := x / d;
    assert r * d == x;
    if r >= 1.0 {
      assert r * d >= 1.0 * d;
    }
    if x >= d {
      assert r >= 1.0;
    }
  }

  // ---------------------------------------------------------------------------
  // keyword matching
  // ---------------------------------------------------------------------------

  /** `{normalize_token(s) for s in skills if s}`. */
  function SkillSet(skills: seq<string>): set<string> {
    set s | s in skills && s != "" :: Normalized(s)
  }

  /** The normalized skills that occur in the normalized text; "" never counts. */
  function MatchedSkills(norms: set<string>, textNorm: string): (m: set<string>)
    ensures m <= norms && "" !in m
  {
    set s | s in norms && s != "" && IsSubstring(s, textNorm)
  }

  /** The share of the normalized skills `norms` found in `textNorm`. */
  function RateOf(norms: set<string>, textNorm: string): (rate: real)
    ensures 0.0 <= rate <= 1.0
    ensures rate == 1.0 <==> norms != {} && MatchedSkills(norms, textNorm) == norms
    ensures rate == 0.0 <==> MatchedSkills(norms, textNorm) == {}
  {
    if |norms| == 0 then 0.0
    else
      var matched := MatchedSkills(norms, textNorm);
      SubsetCard(matched, norms);
      RatioFacts(|matched| as real, |norms| as real);
      |matched| as real / |norms| as real
  }

  /** `keyword_match_rate(text, skills)`. */
  function KeywordMatchRate(text: string, skills: seq<string>): (rate: real)
    ensures 0.0 <= rate <= 1.0
    ensures text == "" || skills == [] ==> rate == 0.0
  {
    if text == "" || |skills| == 0 then 0.0
    else RateOf(SkillSet(skills), Normalized(text))
  }

  lemma RateOfFull(norms: set<string>, textNorm: string)
    requires norms != {}
    ensures RateOf(norms, textNorm) == 1.0 <==>
      forall s :: s in norms ==> s != "" && IsSubstring(s, textNorm)
  {
    if forall s :: s in norms ==> s != "" && IsSubstring(s, textNorm) {
      assert MatchedSkills(norms, textNorm) == norms;
    }
  }

  /** The rate is 1 exactly when every distinct normalized skill is non-empty and
      occurs in the normalized text. */
  lemma KeywordRateFull(text: string, skills: seq<string>)
    requires text != "" && SkillSet(skills) != {}
    ensures KeywordMatchRate(text, skills) == 1.0 <==>
      forall s :: s in SkillSet(skills) ==> s != "" && IsSubstring(s, Normalized(text))
  {
    assert skills != [] by {
      var s :| s in SkillSet(skills);
    }
    RateOfFull(SkillSet(skills), Normalized(text));
  }

  /** The rate is 0 exactly when the text or the skills are empty or nothing matches. */
  lemma KeywordRateZero(text: string, skills: seq<string>)
    ensures KeywordMatchRate(text, skills) == 0.0 <==>
      text == "" || skills == [] || MatchedSkills(SkillSet(skills), Normalized(text)) == {}
  {
  }

  /** A skill that normalizes to "" (such as "++") still counts in the denominator,
      so the rate can no longer reach 1. */
  lemma KeywordRateBlankSkill(text: string, skills: seq<string>, s: string)
    requires text != "" && s in skills && s != "" && Normalized(s) == ""
    ensures KeywordMatchRate(text, skills) < 1.0
  {
    assert "" in SkillSet(skills);
    KeywordRateFull(text, skills);
  }

  /** Only which skills are listed matters: order and duplicates do not. */
  lemma KeywordRateOrderFree(text: string, a: seq<string>, b: seq<string>)
    requires forall s :: s in a <==> s in b
    ensures KeywordMatchRate(text, a) == KeywordMatchRate(text, b)
  {
    assert SkillSet(a) == SkillSet(b);
  }

  /** Two skills with different normalized forms, one in the text and one not,
      give a rate of one half. */
  lemma KeywordRateHalf(text: string, hit: string, miss: string)
    requires text != "" && hit != "" && miss != ""
    requires Normalized(hit) != "" && Normalized(hit) != Normalized(miss)
    requires IsSubstring(Normalized(hit), Normalized(text))
    requires !IsSubstring(Normalized(miss), Normalized(text))
    ensures KeywordMatchRate(text, [hit, miss]) == 0.5
  {
    SkillSetPair(hit, miss);
    RateOfHalf(Normalized(hit), Normalized(miss), Normalized(text));
  }

  lemma SkillSetPair(a: string, b: string)
    requires a != "" && b != ""
    ensures SkillSet([a, b]) == {Normalized(a), Normalized(b)}
  {
    var pair := [a, b];
    assert forall s :: s in pair <==> s == a || s == b;
  }

  lemma RateOfHalf(a: string, b: string, textNorm: string)
    requires a != "" && a != b && IsSubstring(a, textNorm) && !IsSubstring(b, textNorm)
    ensures RateOf({a, b}, textNorm) == 0.5
  {
    assert MatchedSkills({a, b}, textNorm) == {a};
  }

  // ---------------------------------------------------------------------------
  // quantification signal
  // ---------------------------------------------------------------------------

  /** The numbers and bullet lines `quantify_bullets_ratio` counts together. */
  function Quantified(text: string): nat {
    Count(Number, text) + Count(BulletLine, text)
  }

  /** `max(1, len(re.findall(r"[.!?]", text)))`. */
  function Sentences(text: string): (n: nat)
    ensures n >= 1
  {
    var ends := Count(SentenceEnd, text);
    if ends >= 1 then ends else 1
  }

  /** `quantify_bullets_ratio(text)`. */
  function QuantifyBulletsRatio(text: string): (r: real)
    ensures 0.0 <= r <= 1.0
    ensures text == "" ==> r == 0.0
  {
    if text == "" then 0.0
    else
      RatioFacts(Quantified(text) as real, Sentences(text) as real * 0.6);
      Min(1.0, Quantified(text) as real / (Sentences(text) as real * 0.6))
  }

  /** The signal saturates exactly when there are at least 0.6 quantified items per
      sentence terminator (a text without terminators counts as one sentence). */
  lemma QuantifySaturates(text: string)
    requires text != ""
    ensures QuantifyBulletsRatio(text) == 1.0 <==> Quantified(text) as real >= 0.6 * Sentences(text) as real
  {
    RatioFacts(Quantified(text) as real, Sentences(text) as real * 0.6);
  }

  /** The signal is 0 exactly when the text has no number token and no bullet line. */
  lemma QuantifyZero(text: string)
    requires text != ""
    ensures QuantifyBulletsRatio(text) == 0.0 <==> Count(Number, text) == 0 && Count(BulletLine, text) == 0
  {
    RatioFacts(Quantified(text) as real, Sentences(text) as real * 0.6);
  }

  // ---------------------------------------------------------------------------
  // formatting penalty
  // ---------------------------------------------------------------------------

  /** `sum(1 for s in pieces if len(s.split()) > 35)`. */
  function LongSentences(pieces: seq<string>): (n: nat)
    ensures n <= |pieces|
  {
    if |pieces| == 0 then 0
    else (if |Words(pieces[0])| > 35 then 1 else 0) + LongSentences(pieces[1..])
  }

  function CapsRatio(text: string): (r: real)
    ensures 0.0 <= r
  {
    var words := |Words(text)|;
    Count(AllCaps, text) as real / (if words >= 1 then words else 1) as real
  }

  function LongRatio(text: string): (r: real)
    ensures 0.0 <= r <= 1.0
  {
    var pieces := Split(text, SentenceEnds);
    RatioFacts(LongSentences(pieces) as real, |pieces| as real);
    LongSentences(pieces) as real / (if |pieces| >= 1 then |pieces| else 1) as real
  }

  /** `formatting_penalty(text)`. */
  function FormattingPenalty(text: string): (pen: real)
    ensures 0.0 <= pen <= 0.15
    ensures text == "" ==> pen == 0.0
  {
    if text == "" then 0.0
    else Min(0.15, CapsRatio(text) * 0.15 + LongRatio(text) * 0.15)
  }

  /** No penalty exactly when there is no all-caps word and no sentence over 35 words. */
  lemma FormattingPenaltyZero(text: string)
    requires text != ""
    ensures FormattingPenalty(text) == 0.0 <==>
      Count(AllCaps, text) == 0 && LongSentences(Split(text, SentenceEnds)) == 0
  {
    var words := |Words(text)|;
    RatioFacts(Count(AllCaps, text) as real, (if words >= 1 then words else 1) as real);
    var pieces := Split(text, SentenceEnds);
    RatioFacts(LongSentences(pieces) as real, |pieces| as real);
  }

  /** The cap binds exactly when the two ratios add up to 1 or more; one all-caps
      match per word is already enough. */
  lemma FormattingPenaltyCapped(text: string)
    requires text != ""
    ensures FormattingPenalty(text) == 0.15 <==> CapsRatio(text) + LongRatio(text) >= 1.0
  {
  }

  // ---------------------------------------------------------------------------
  // readability
  // ---------------------------------------------------------------------------

  /** `readability_score`: the Flesch reading ease, clamped to [0, 100]; `None` is
      the case where the readability library raised, which gives 50. */
  function ReadabilityScore(flesch: Option<real>): (r: real)
    ensures 0.0 <= r <= 100.0
    ensures flesch.None? ==> r == 50.0
    ensures flesch.Some? && 0.0 <= flesch.value <= 100.0 ==> r == flesch.value
    ensures flesch.Some? && flesch.value < 0.0 ==> r == 0.0
    ensures flesch.Some? && flesch.value > 100.0 ==> r == 100.0
  {
    match flesch
    case None => 50.0
    case Some(score) => Max(0.0, Min(100.0, score))
  }

  // ---------------------------------------------------------------------------
  // the score
  // ---------------------------------------------------------------------------

  /** `sum(1 for v in sections.values() if v) / len(sections)`. */
  function Coverage(sections: map<string, bool>): (c: real)
    requires |sections| > 0
    ensures 0.0 <= c <= 1.0
  {
    var hits := set k | k in sections && sections[k];
    SubsetCard(hits, sections.Keys);
    RatioFacts(|hits| as real, |sections| as real);
    |hits| as real / |sections| as real
  }

  /** `max(0.0, min(1.0, (read - 30) / 70))`. */
  function ReadNorm(read: real): (r: real)
    ensures 0.0 <= r <= 1.0
  {
    Max(0.0, Min(1.0, (read - 30.0) / 70.0))
  }

  /** The weighted signals less the penalty, clamped to [0, 1]. */
  function Combined(keyword: real, coverage: real, quantify: real, readNorm: real, penalty: real): (s: real)
    ensures 0.0 <= s <= 1.0
  {
    Max(0.0, Min(1.0, 0.35 * keyword + 0.25 * coverage + 0.20 * quantify + 0.20 * readNorm - penalty))
  }

  /** The breakdown `ats_score` returns next to the score. */
  datatype Breakdown =
    | EmptyText(error: string)
    | Detail(sectionsDetected: map<string, bool>, sectionCoverage: real, keywordMatchRate: real,
             quantificationSignal: real, readability: real, formattingPenalty: real)

  datatype AtsResult = AtsResult(score: real, breakdown: Breakdown)

  /** `ats_score(text, required_skills)`, with the Flesch score of the text passed in. */
  function AtsScore(text: string, skills: seq<string>, flesch: Option<real>): (res: AtsResult)
    ensures 0.0 <= res.score <= 100.0
    ensures text == "" ==> res == AtsResult(0.0, EmptyText("Empty resume text"))
    ensures text != "" ==> res.breakdown.Detail?
  {
    if text == "" then AtsResult(0.0, EmptyText("Empty resume text"))
    else
      var sections := Sections(text);
      SectionCount(text);
      var coverage := Coverage(sections);
      var keyword := KeywordMatchRate(text, skills);
      var quantify := QuantifyBulletsRatio(text);
      var read := ReadabilityScore(flesch);
      var penalty := FormattingPenalty(text);
      AtsResult(Combined(keyword, coverage, quantify, ReadNorm(read), penalty) * 100.0,
                Detail(sections, coverage, keyword, quantify, read, penalty))
  }

  lemma SectionCount(text: string)
    ensures |Sections(text)| == 7
  {
    var keys := Sections(text).Keys;
    SectionNamesCount();
    assert |keys| == |SectionNames|;
  }

  lemma SectionNamesCount()
    ensures |SectionNames| == 7
  {
    var s2 := {"summary", "experience"};
    var s4 := s2 + {"projects", "skills"};
    var s6 := s4 + {"education", "certifications"};
    assert |s2| == 2;
    assert |s4| == 4;
    assert |s6| == 6;
    assert SectionNames == s6 + {"achievements"};
  }

  /** The breakdown is auditable: each field is the signal it names, computed from
      the text, the skills or the Flesch score, and lies in its documented range; the
      coverage is the share of the seven sections found; and the score is recomputed
      from the breakdown alone. */
  lemma AtsScoreAuditable(text: string, skills: seq<string>, flesch: Option<real>)
    requires text != ""
    ensures var d := AtsScore(text, skills, flesch).breakdown;
      && d.sectionsDetected == Sections(text)
      && d.sectionsDetected.Keys == SectionNames
      && d.sectionCoverage == |set k | k in Sections(text) && Sections(text)[k]| as real / 7.0
      && d.keywordMatchRate == KeywordMatchRate(text, skills)
      && d.quantificationSignal == QuantifyBulletsRatio(text)
      && d.readability == ReadabilityScore(flesch)
      && d.formattingPenalty == FormattingPenalty(text)
      && 0.0 <= d.sectionCoverage <= 1.0
      && 0.0 <= d.keywordMatchRate <= 1.0
      && 0.0 <= d.quantificationSignal <= 1.0
      && 0.0 <= d.readability <= 100.0
      && 0.0 <= d.formattingPenalty <= 0.15
      && AtsScore(text, skills, flesch).score ==
         100.0 * Combined(d.keywordMatchRate, d.sectionCoverage, d.quantificationSignal,
                          ReadNorm(d.readability), d.formattingPenalty)
  {
    SectionCount(text);
  }

  /** More of any signal never lowers the score; more penalty never raises it. */
  lemma CombinedMonotone(k1: real, c1: real, q1: real, r1: real, p1: real,
                         k2: real, c2: real, q2: real, r2: real, p2: real)
    requires k1 <= k2 && c1 <= c2 && q1 <= q2 && r1 <= r2 && p2 <= p1
    ensures Combined(k1, c1, q1, r1, p1) <= Combined(k2, c2, q2, r2, p2)
  {
  }

  /** Matching more of the required skills never lowers the ATS score. */
  lemma AtsScoreKeywordMonotone(text: string, a: seq<string>, b: seq<string>, flesch: Option<real>)
    requires text != ""
    requires KeywordMatchRate(text, a) <= KeywordMatchRate(text, b)
    ensures AtsScore(text, a, flesch).score <= AtsScore(text, b, flesch).score
  {
    SectionCount(text);
    var cov := Coverage(Sections(text));
    var q := QuantifyBulletsRatio(text);
    var r := ReadNorm(ReadabilityScore(flesch));
    var p := FormattingPenalty(text);
    CombinedMonotone(KeywordMatchRate(text, a), cov, q, r, p, KeywordMatchRate(text, b), cov, q, r, p);
  }
}
