/**
 * The handful of regular expressions the scorer and the reviewer run, each as a
 * matcher at one position, and `re.findall`'s scan: the leftmost match, then the
 * search resumes where it ended, so the matches never overlap.
 */
module Patterns {
  import opened Wrappers
  import opened Text

  predicate IsAlnum(c: char) { 'a' <= c <= 'z' || IsUpper(c) || IsDigit(c) }

  /** The character classes the patterns repeat. */
  datatype Class =
    | Digits      // \d
    | Uppers      // [A-Z]
    | Spaces      // \s
    | Skillish    // [A-Za-z0-9\+\#\./-]
    | SkillChars  // [A-Za-z0-9\+\#\-/]

  predicate InClass(c: char, k: Class) {
    match k
    case Digits => IsDigit(c)
    case Uppers => IsUpper(c)
    case Spaces => IsSpace(c)
    case Skillish => IsAlnum(c) || c == '+' || c == '#' || c == '.' || c == '/' || c == '-'
    case SkillChars => IsAlnum(c) || c == '+' || c == '#' || c == '-' || c == '/'
  }

  /** Where a greedy run of class `k` starting at `p` ends. */
  function RunEnd(t: string, p: nat, k: Class): (e: nat)
    requires p <= |t|
    ensures p <= e <= |t|
    ensures forall i :: p <= i < e ==> InClass(t[i], k)
    ensures e == |t| || !InClass(t[e], k)
    decreases |t| - p
  {
    if p < |t| && InClass(t[p], k) then RunEnd(t, p + 1, k) else p
  }

  /** The characters `[-â€¢*]` of the bullet pattern: a UTF-8 bullet read as cp1252
      became the three characters U+00E2, U+20AC, U+00A2. */
  const BulletMarks: set<char> := {'-', 'â', '€', '¢', '*'}

  datatype Pattern =
    | Number      // \b\d+(\.\d+)?%?\b
    | BulletLine  // ^\s*[-â€¢*] with re.MULTILINE
    | AllCaps     // \b[A-Z]{3,}\b
    | SkillishRun // [A-Za-z0-9\+\#\./-]{2,}
    | SkillToken  // \b[A-Za-z0-9\+\#\-/]+\b
    | SentenceEnd // [.!?]

  /** `\b\d+(\.\d+)?%?\b` tried at `p`, with the backtracking the engine does:
      the longest fraction and the percent sign are tried first, and when the
      closing `\b` fails after them the match falls back to the integer part. */
  function NumberEnd(t: string, p: nat): (m: Option<nat>)
    requires p <= |t|
    ensures m.Some? ==> p < m.value <= |t| && IsDigit(t[p])
    ensures m.Some? ==> Boundary(t, p) && Boundary(t, m.value)
  {
    if !(p < |t| && IsDigit(t[p]) && Boundary(t, p)) then None
    else
      var q := RunEnd(t, p, Digits);
      if q + 1 < |t| && t[q] == '.' && IsDigit(t[q + 1]) then
        var r := RunEnd(t, q + 1, Digits);
        if r < |t| && t[r] == '%' && WordAt(t, r + 1) then Some(r + 1)
        else if !WordAt(t, r) then Some(r)
        else Some(q)
      else if q < |t| && t[q] == '%' && WordAt(t, q + 1) then Some(q + 1)
      else if !WordAt(t, q) then Some(q)
      else None
  }

  /** `^\s*[-â€¢*]` tried at `p`: a line start, any whitespace (newlines too), a mark. */
  function BulletEnd(t: string, p: nat): (m: Option<nat>)
    requires p <= |t|
    ensures m.Some? ==> p < m.value <= |t| && t[m.value - 1] in BulletMarks
    ensures m.Some? ==> (p == 0 || t[p - 1] == '\n')
  {
    if p == 0 || t[p - 1] == '\n' then
      var w := RunEnd(t, p, Spaces);
      if w < |t| && t[w] in BulletMarks then Some(w + 1) else None
    else None
  }

  /** `\b[A-Z]{3,}\b` tried at `p`: a word made of three or more capitals. */
  function CapsEnd(t: string, p: nat): (m: Option<nat>)
    requires p <= |t|
    ensures m.Some? ==> p + 3 <= m.value <= |t| && Boundary(t, p) && Boundary(t, m.value)
    ensures m.Some? ==> forall i :: p <= i < m.value ==> IsUpper(t[i])
  {
    if p < |t| && IsUpper(t[p]) && Boundary(t, p) then
      var q := RunEnd(t, p, Uppers);
      if q - p >= 3 && !WordAt(t, q) then Some(q) else None
    else None
  }

  /** `[A-Za-z0-9\+\#\./-]{2,}` tried at `p`: a greedy run of two or more. */
  function SkillishEnd(t: string, p: nat): (m: Option<nat>)
    requires p <= |t|
    ensures m.Some? ==> p + 2 <= m.value <= |t|
    ensures m.Some? ==> forall i :: p <= i < m.value ==> InClass(t[i], Skillish)
  {
    if p < |t| && InClass(t[p], Skillish) then
      var q := RunEnd(t, p, Skillish);
      if q - p >= 2 then Some(q) else None
    else None
  }

  /** The last word boundary in `(p, e]`: where a greedy run backs off to. */
  function LastBoundary(t: string, p: nat, e: nat): (m: Option<nat>)
    requires p <= e <= |t|
    ensures m.Some? ==> p < m.value <= e && Boundary(t, m.value)
    ensures m.Some? ==> forall q :: m.value < q <= e ==> !Boundary(t, q)
    ensures m.None? ==> forall q :: p < q <= e ==> !Boundary(t, q)
    decreases e
  {
    if e <= p then None
    else if Boundary(t, e) then Some(e)
    else LastBoundary(t, p, e - 1)
  }

  /** `\b[A-Za-z0-9\+\#\-/]+\b` tried at `p`. */
  function SkillTokenEnd(t: string, p: nat): (m: Option<nat>)
    requires p <= |t|
    ensures m.Some? ==> p < m.value <= |t| && Boundary(t, p) && Boundary(t, m.value)
    ensures m.Some? ==> forall i :: p <= i < m.value ==> InClass(t[i], SkillChars)
  {
    if p < |t| && InClass(t[p], SkillChars) && Boundary(t, p) then
      LastBoundary(t, p, RunEnd(t, p, SkillChars))
    else None
  }

  /** The class `[.!?]`, which also splits a text into sentences. */
  const SentenceEnds: set<char> := {'.', '!', '?'}

  /** Where `pat` matches when tried at `p`, if it does; no pattern matches empty. */
  function MatchAt(pat: Pattern, t: string, p: nat): (m: Option<nat>)
    requires p <= |t|
    ensures m.Some? ==> p < m.value <= |t|
  {
    match pat
    case Number => NumberEnd(t, p)
    case BulletLine => BulletEnd(t, p)
    case AllCaps => CapsEnd(t, p)
    case SkillishRun => SkillishEnd(t, p)
    case SkillToken => SkillTokenEnd(t, p)
    case SentenceEnd => if p < |t| && t[p] in SentenceEnds then Some(p + 1) else None
  }

  /** A table of what the pattern does at each position: `None` where it fails,
      the end of the match where it succeeds. */
  predicate ValidTable(tab: seq<Option<nat>>) {
    forall p :: 0 <= p < |tab| && tab[p].Some? ==> p < tab[p].value <= |tab|
  }

  function MatchTable(pat: Pattern, t: string): (tab: seq<Option<nat>>)
    ensures |tab| == |t| && ValidTable(tab)
    ensures forall p :: 0 <= p < |t| ==> tab[p] == MatchAt(pat, t, p)
  {
    seq(|t|, p requires 0 <= p < |t| => MatchAt(pat, t, p))
  }

  /** The scan of `re.findall` over such a table from position `p` on: take the match
      at `p` and resume at its end, or move one position on. */
  function Scan(tab: seq<Option<nat>>, p: nat): (spans: seq<(nat, nat)>)
    requires ValidTable(tab) && p <= |tab|
    ensures |spans| <= |tab| - p
    ensures forall k :: 0 <= k < |spans| ==> p <= spans[k].0 < spans[k].1 <= |tab|
    ensures forall k :: 0 <= k < |spans| ==> tab[spans[k].0] == Some(spans[k].1)
    ensures forall k :: 0 <= k < |spans| - 1 ==> spans[k].1 <= spans[k + 1].0
    decreases |tab| - p
  {
    if p == |tab| then []
    else if tab[p].Some? then [(p, tab[p].value)] + Scan(tab, tab[p].value)
    else Scan(tab, p + 1)
  }

  /** The spans `re.findall(pat, t)` reports, in order. */
  function FindAll(pat: Pattern, t: string): (spans: seq<(nat, nat)>)
    ensures forall k :: 0 <= k < |spans| ==> spans[k].0 < spans[k].1 <= |t|
    ensures forall k :: 0 <= k < |spans| ==> MatchAt(pat, t, spans[k].0) == Some(spans[k].1)
    ensures forall k :: 0 <= k < |spans| - 1 ==> spans[k].1 <= spans[k + 1].0
  {
    Scan(MatchTable(pat, t), 0)
  }

  /** `len(re.findall(pat, t))`. */
  function Count(pat: Pattern, t: string): (n: nat)
    ensures n <= |t|
  {
    |FindAll(pat, t)|
  }

  /** `re.findall(pat, t)` (for patterns without groups): the matched texts. */
  function Matches(pat: Pattern, t: string): (ms: seq<string>)
    ensures |ms| == Count(pat, t)
  {
    var spans := FindAll(pat, t);
    seq(|spans|, k requires 0 <= k < |spans| => t[spans[k].0..spans[k].1])
  }

  /** Position `q` lies inside one of `spans`. */
  predicate Covered(spans: seq<(nat, nat)>, q: nat) {
    exists k :: 0 <= k < |spans| && spans[k].0 <= q < spans[k].1
  }

  /** Every position the scan passes over without reporting a match there is one
      where the pattern fails: the scan misses no leftmost match. */
  lemma {:induction false} ScanSkipsOnlyFailures(tab: seq<Option<nat>>, p: nat, q: nat)
    requires ValidTable(tab) && p <= q < |tab|
    requires !Covered(Scan(tab, p), q)
    ensures tab[q].None?
    decreases q - p
  {
    if tab[p].Some? {
      var e := tab[p].value;
      var rest := Scan(tab, e);
      assert Scan(tab, p) == [(p, e)] + rest;
      assert Scan(tab, p)[0] == (p, e);
      forall k | 0 <= k < |rest| ensures !(rest[k].0 <= q < rest[k].1) {
        assert Scan(tab, p)[k + 1] == rest[k];
      }
      ScanSkipsOnlyFailures(tab, e, q);
    } else if q > p {
      ScanSkipsOnlyFailures(tab, p + 1, q);
    }
  }

  /** `re.findall` misses nothing: wherever no reported match lies, the pattern fails. */
  lemma FindAllMissesNothing(pat: Pattern, t: string, q: nat)
    requires q < |t|
    requires !Covered(FindAll(pat, t), q)
    ensures MatchAt(pat, t, q).None?
  {
    ScanSkipsOnlyFailures(MatchTable(pat, t), 0, q);
  }

  /** Where the pattern matches at no position, `re.findall` finds nothing. */
  lemma {:induction false} ScanOfFailures(tab: seq<Option<nat>>, p: nat)
    requires ValidTable(tab) && p <= |tab|
    requires forall i :: p <= i < |tab| ==> tab[i].None?
    ensures Scan(tab, p) == []
    decreases |tab| - p
  {
    if p < |tab| {
      ScanOfFailures(tab, p + 1);
    }
  }
}
