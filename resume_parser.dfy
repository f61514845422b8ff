/**
 * The pure post-processing of app/components/resume_parser.py: bullet
 * normalisation, per-line clean-up with structure kept, and the chain
 * bullets -> lines -> `clean_text` applied to the text a PDF library extracted.
 */
module ResumeParser {
  import opened Wrappers
  import opened Text
  import opened Utils

  // ---------------------------------------------------------------------------
  // _normalize_bullets
  // ---------------------------------------------------------------------------

  /** The bullet glyphs of the character class: U+2022, U+25AA, U+25E6, U+25CF,
      U+2023 and U+2219. */
  const Bullets: set<char> := {'\U{2022}', '\U{25AA}', '\U{25E6}', '\U{25CF}', '\U{2023}', '\U{2219}'}

  /** `_normalize_bullets(text)`: every bullet glyph becomes '-', nothing else moves. */
  function NormalizeBullets(text: string): (r: string)
    ensures text == "" ==> r == ""
    ensures |r| == |text|
    ensures forall i :: 0 <= i < |text| ==> r[i] == if text[i] in Bullets then '-' else text[i]
    ensures forall i :: 0 <= i < |r| ==> r[i] !in Bullets
  {
    if text == "" then "" else Substitute(text, Bullets, '-')
  }

  /** Normalising twice is normalising once. */
  lemma NormalizeBulletsIdempotent(text: string)
    ensures NormalizeBullets(NormalizeBullets(text)) == NormalizeBullets(text)
  {
  }

  // ---------------------------------------------------------------------------
  // one line of _postprocess_lines
  // ---------------------------------------------------------------------------

  /** The class `[ \t]`. */
  predicate IsBlank(c: char) { c == ' ' || c == '\t' }

  /** Whitespace other than the line break. */
  predicate IsInline(c: char) { IsSpace(c) && c != '\n' }

  /** No two characters of `[ \t]` in a row. */
  predicate NoBlankPair(s: string) {
    forall i :: 0 <= i < |s| - 1 ==> !(IsBlank(s[i]) && IsBlank(s[i + 1]))
  }

  /** `re.sub(r"[ \t]{2,}", " ", s)`. Two blanks at the front become one space
      and the scan goes on from that space, so a run of any length ends as one
      space, as the regex leaves it; a lone tab is kept. */
  function CollapseBlanks(s: string): (r: string)
    ensures |s| > 0 ==> |r| > 0 && (r[0] == s[0] || (IsBlank(s[0]) && r[0] == ' '))
    ensures |s| > 0 && !IsBlank(s[|s| - 1]) ==> |r| > 0 && r[|r| - 1] == s[|s| - 1]
    ensures NoBlankPair(r)
    decreases |s|
  {
    if |s| >= 2 && IsBlank(s[0]) && IsBlank(s[1]) then CollapseBlanks([' '] + s[2..])
    else if |s| == 0 then ""
    else [s[0]] + CollapseBlanks(s[1..])
  }

  /** Collapsing blanks introduces no character other than the space. */
  lemma {:induction false} CollapseBlanksAvoids(s: string, cs: set<char>)
    requires ' ' !in cs
    requires forall i :: 0 <= i < |s| ==> s[i] !in cs
    ensures forall i :: 0 <= i < |CollapseBlanks(s)| ==> CollapseBlanks(s)[i] !in cs
    decreases |s|
  {
    if |s| >= 2 && IsBlank(s[0]) && IsBlank(s[1]) {
      CollapseBlanksAvoids([' '] + s[2..], cs);
    } else if |s| > 0 {
      CollapseBlanksAvoids(s[1..], cs);
    }
  }

  lemma {:induction false} CollapseBlanksKeepsInk(s: string)
    ensures Ink(CollapseBlanks(s)) == Ink(s)
    decreases |s|
  {
    if |s| >= 2 && IsBlank(s[0]) && IsBlank(s[1]) {
      CollapseBlanksKeepsInk([' '] + s[2..]);
      assert s[1..][1..] == s[2..];
      assert Ink(s) == Ink(s[1..]) == Ink(s[2..]);
      assert ([' '] + s[2..])[1..] == s[2..];
    } else if |s| > 0 {
      CollapseBlanksKeepsInk(s[1..]);
    }
  }

  /** One iteration of the loop of `_postprocess_lines`: NUL to space, strip, and
      collapse blank runs when something is left. */
  function ProcessLine(ln: string): string {
    var t := Strip(Substitute(ln, {'\0'}, ' '));
    if t == "" then "" else CollapseBlanks(t)
  }

  /** What the loop promises of each line it keeps: no NUL, no line break, no
      whitespace at either end, no run of spaces and tabs. */
  predicate TidyLine(ln: string) {
    && (forall i :: 0 <= i < |ln| ==> ln[i] != '\0' && ln[i] != '\n')
    && IsStripped(ln)
    && NoBlankPair(ln)
  }

  lemma ProcessLineTidy(ln: string)
    requires '\n' !in ln
    ensures TidyLine(ProcessLine(ln))
  {
    var sub := Substitute(ln, {'\0'}, ' ');
    var t := Strip(sub);
    if t != "" {
      var lo := LeadingSpace(sub);
      forall i | 0 <= i < |t| ensures t[i] !in {'\0', '\n'} {
        assert t[i] == sub[lo + i];
        assert ln[lo + i] in ln;
      }
      CollapseBlanksAvoids(t, {'\0', '\n'});
    }
  }

  /** A line comes out empty exactly when it held nothing but whitespace and NULs:
      the blank line kept "for structure". */
  lemma ProcessLineEmpty(ln: string)
    ensures ProcessLine(ln) == "" <==> forall i :: 0 <= i < |ln| ==> ln[i] in Blankish
  {
    var sub := Substitute(ln, {'\0'}, ' ');
    var t := Strip(sub);
    if forall i :: 0 <= i < |ln| ==> ln[i] in Blankish {
      assert LeadingSpace(sub) == |sub|;
    } else {
      var i :| 0 <= i < |ln| && ln[i] !in Blankish;
      assert sub[i] == ln[i];
      assert LeadingSpace(sub) <= i < StripEnd(sub);
    }
  }

  /** Processing a line keeps its visible characters in order. */
  lemma ProcessLineKeepsInk(ln: string)
    ensures Ink(ProcessLine(ln)) == Ink(ln)
  {
    var sub := Substitute(ln, {'\0'}, ' ');
    SubstituteKeepsDrop(ln, {'\0'}, ' ', Blankish);
    StripKeepsDrop(sub, Blankish);
    CollapseBlanksKeepsInk(Strip(sub));
  }

  // ---------------------------------------------------------------------------
  // the whole text
  // ---------------------------------------------------------------------------

  /** The lines of the text after the loop, one per input line. */
  function ProcessedLines(text: string): (lines: seq<string>)
    ensures |lines| == |SplitLines(text)|
    ensures forall i :: 0 <= i < |lines| ==> lines[i] == ProcessLine(SplitLines(text)[i])
  {
    var ls := SplitLines(text);
    seq(|ls|, i requires 0 <= i < |ls| => ProcessLine(ls[i]))
  }

  /** `re.sub(r"\n{3,}", "\n\n", s)`. Three line breaks at the front lose one and
      the scan goes on, so every run of three or more ends as two. */
  function CollapseNewlines(s: string): (r: string)
    ensures |s| > 0 ==> |r| > 0 && r[0] == s[0] && r[|r| - 1] == s[|s| - 1]
    decreases |s|
  {
    if |s| >= 3 && s[0] == '\n' && s[1] == '\n' && s[2] == '\n' then CollapseNewlines(s[1..])
    else if |s| == 0 then ""
    else [s[0]] + CollapseNewlines(s[1..])
  }

  /** The text after `_postprocess_lines(text)`. */
  function PostprocessedText(text: string): string {
    Strip(CollapseNewlines(Join(ProcessedLines(text), "\n")))
  }

  /** The body of the loop of `_postprocess_lines` for one line: an empty
      stripped line is kept as "" (the `continue`), any other is collapsed. */
  method PostprocessLine(raw: string) returns (ln: string)
    ensures ln == ProcessLine(raw)
  {
    ln := Strip(Substitute(raw, {'\0'}, ' '));
    if ln == "" {
      return "";
    }
    ln := CollapseBlanks(ln);
  }

  /** `_postprocess_lines`: the loop appending one processed line per input line,
      then the join, the collapse of blank-line runs and the final strip. */
  method PostprocessLines(text: string) returns (cleaned: string)
    ensures cleaned == PostprocessedText(text)
  {
    var input := SplitLines(text);
    var lines: seq<string> := [];
    for k := 0 to |input|
      invariant lines == ProcessedLines(text)[..k]
    {
      var ln := PostprocessLine(input[k]);
      lines := lines + [ln];
    }
    assert lines == ProcessedLines(text);
    cleaned := Join(lines, "\n");
    cleaned := CollapseNewlines(cleaned);
    cleaned := Strip(cleaned);
  }

  // ---------------------------------------------------------------------------
  // what the output looks like
  // ---------------------------------------------------------------------------

  /** No line starts or ends with whitespace, no line has a run of spaces and tabs,
      and there is no NUL: stated on neighbouring characters. */
  predicate PairOk(a: char, b: char) {
    && !(IsBlank(a) && IsBlank(b))
    && !(a == '\n' && IsInline(b))
    && !(IsInline(a) && b == '\n')
  }

  predicate Tidy(s: string) {
    && (forall i :: 0 <= i < |s| ==> s[i] != '\0')
    && (forall i :: 0 <= i < |s| - 1 ==> PairOk(s[i], s[i + 1]))
  }

  /** Neither end holds whitespace other than a line break. */
  predicate InlineEdges(s: string) {
    |s| > 0 ==> !IsInline(s[0]) && !IsInline(s[|s| - 1])
  }

  /** No three line breaks in a row: at most one empty line between two lines. */
  predicate NoTripleBreak(s: string) {
    forall i :: 0 <= i < |s| - 2 ==> !(s[i] == '\n' && s[i + 1] == '\n' && s[i + 2] == '\n')
  }

  lemma TidyConcat(a: string, b: string)
    requires Tidy(a) && Tidy(b)
    requires |a| > 0 && |b| > 0 ==> PairOk(a[|a| - 1], b[0])
    ensures Tidy(a + b)
  {
    var s := a + b;
    forall i | 0 <= i < |s| - 1
      ensures PairOk(s[i], s[i + 1])
    {
      if i < |a| - 1 {
        assert s[i] == a[i] && s[i + 1] == a[i + 1];
      } else if i == |a| - 1 {
        assert s[i] == a[|a| - 1] && s[i + 1] == b[0];
      } else {
        assert s[i] == b[i - |a|] && s[i + 1] == b[i - |a| + 1];
      }
    }
  }

  lemma TidySlice(s: string, lo: nat, hi: nat)
    requires Tidy(s) && lo <= hi <= |s|
    ensures Tidy(s[lo..hi])
  {
    var t := s[lo..hi];
    forall i | 0 <= i < |t| - 1
      ensures PairOk(t[i], t[i + 1])
    {
      assert t[i] == s[lo + i] && t[i + 1] == s[lo + i + 1];
    }
  }

  lemma TidyLineIsTidy(ln: string)
    requires TidyLine(ln)
    ensures Tidy(ln) && InlineEdges(ln)
  {
    forall i | 0 <= i < |ln| - 1
      ensures PairOk(ln[i], ln[i + 1])
    {
      assert ln[i] != '\n' && ln[i + 1] != '\n';
    }
  }

  /** Joining tidy lines with line breaks gives a tidy text. */
  lemma {:induction false} JoinTidy(lines: seq<string>)
    requires forall i :: 0 <= i < |lines| ==> TidyLine(lines[i])
    ensures Tidy(Join(lines, "\n")) && InlineEdges(Join(lines, "\n"))
    decreases |lines|
  {
    if |lines| == 1 {
      TidyLineIsTidy(lines[0]);
    } else if |lines| > 1 {
      var x, rest := lines[0], Join(lines[1..], "\n");
      JoinTidy(lines[1..]);
      TidyLineIsTidy(x);
      TidyConcat("\n", rest);
      TidyConcat(x, "\n" + rest);
      assert x + "\n" + rest == x + ("\n" + rest);
    }
  }

  lemma {:induction false} CollapseNewlinesTidy(s: string)
    requires Tidy(s)
    ensures Tidy(CollapseNewlines(s))
    decreases |s|
  {
    if |s| >= 3 && s[0] == '\n' && s[1] == '\n' && s[2] == '\n' {
      TidySlice(s, 1, |s|);
      CollapseNewlinesTidy(s[1..]);
    } else if |s| > 0 {
      TidySlice(s, 1, |s|);
      CollapseNewlinesTidy(s[1..]);
      if |s| > 1 {
        assert PairOk(s[0], s[1]);
      }
      TidyConcat([s[0]], CollapseNewlines(s[1..]));
    }
  }

  /** A collapsed text starts with two line breaks only if the original did. */
  lemma CollapseNewlinesHead(s: string)
    requires |CollapseNewlines(s)| >= 2
    ensures CollapseNewlines(s)[0] == '\n' && CollapseNewlines(s)[1] == '\n'
        ==> |s| >= 2 && s[0] == '\n' && s[1] == '\n'
    decreases |s|
  {
    if |s| >= 3 && s[0] == '\n' && s[1] == '\n' && s[2] == '\n' {
    } else if |s| > 0 {
      assert CollapseNewlines(s) == [s[0]] + CollapseNewlines(s[1..]);
    }
  }

  lemma NoTripleCons(c: char, rest: string)
    requires NoTripleBreak(rest)
    requires !(c == '\n' && |rest| >= 2 && rest[0] == '\n' && rest[1] == '\n')
    ensures NoTripleBreak([c] + rest)
  {
    var r := [c] + rest;
    forall i | 1 <= i < |r| - 2
      ensures !(r[i] == '\n' && r[i + 1] == '\n' && r[i + 2] == '\n')
    {
      assert r[i] == rest[i - 1] && r[i + 1] == rest[i] && r[i + 2] == rest[i + 1];
    }
  }

  lemma {:induction false} CollapseNewlinesNoTriple(s: string)
    ensures NoTripleBreak(CollapseNewlines(s))
    decreases |s|
  {
    if |s| >= 3 && s[0] == '\n' && s[1] == '\n' && s[2] == '\n' {
      CollapseNewlinesNoTriple(s[1..]);
    } else if |s| > 0 {
      CollapseNewlinesNoTriple(s[1..]);
      var rest := CollapseNewlines(s[1..]);
      if |rest| >= 2 {
        CollapseNewlinesHead(s[1..]);
      }
      NoTripleCons(s[0], rest);
    }
  }

  lemma {:induction false} CollapseNewlinesKeepsInk(s: string)
    ensures Ink(CollapseNewlines(s)) == Ink(s)
    decreases |s|
  {
    if |s| > 0 {
      CollapseNewlinesKeepsInk(s[1..]);
    }
  }

  lemma NoTripleSlice(s: string, lo: nat, hi: nat)
    requires NoTripleBreak(s) && lo <= hi <= |s|
    ensures NoTripleBreak(s[lo..hi])
  {
    var t := s[lo..hi];
    forall i | 0 <= i < |t| - 2
      ensures !(t[i] == '\n' && t[i + 1] == '\n' && t[i + 2] == '\n')
    {
      assert t[i] == s[lo + i] && t[i + 1] == s[lo + i + 1] && t[i + 2] == s[lo + i + 2];
    }
  }

  /** The visible text of each line, in order. */
  function InkOfLines(lines: seq<string>): string {
    if |lines| == 0 then "" else Ink(lines[0]) + InkOfLines(lines[1..])
  }

  /** Line breaks are not visible: joining keeps the visible text of the lines. */
  lemma {:induction false} JoinKeepsInk(lines: seq<string>)
    ensures Ink(Join(lines, "\n")) == InkOfLines(lines)
    decreases |lines|
  {
    if |lines| == 1 {
      assert InkOfLines(lines) == Ink(lines[0]) + InkOfLines([]);
    } else if |lines| > 1 {
      var rest := Join(lines[1..], "\n");
      JoinKeepsInk(lines[1..]);
      DropConcat(lines[0] + "\n", rest, Blankish);
      DropConcat(lines[0], "\n", Blankish);
    }
  }

  /** Lines with the same visible text, one by one, have the same visible text together. */
  lemma {:induction false} InkOfLinesPointwise(xs: seq<string>, ys: seq<string>)
    requires |xs| == |ys|
    requires forall i :: 0 <= i < |xs| ==> Ink(xs[i]) == Ink(ys[i])
    ensures InkOfLines(xs) == InkOfLines(ys)
    decreases |xs|
  {
    if |xs| > 0 {
      InkOfLinesPointwise(xs[1..], ys[1..]);
    }
  }

  /** The lines of a text carry its visible text. */
  lemma InkOfSplitLines(text: string)
    ensures InkOfLines(SplitLines(text)) == Ink(text)
  {
    JoinKeepsInk(SplitLines(text));
    if |text| > 0 {
      if text[|text| - 1] == '\n' {
        JoinDropLast(text);
      } else {
        JoinSplit(text, '\n');
      }
    }
  }

  /** Without its final empty piece, the split of a text ending in a line break
      joins back to the text minus that break, which has the same visible text. */
  lemma JoinDropLast(text: string)
    requires |text| > 0 && text[|text| - 1] == '\n'
    ensures Ink(Join(SplitLines(text), "\n")) == Ink(text)
  {
    var body := text[..|text| - 1];
    assert text == body + ['\n'] + "";
    SplitAppend(body, '\n', "");
    var parts := Split(text, {'\n'});
    assert parts == Split(body, {'\n'}) + [""];
    assert SplitLines(text) == Split(body, {'\n'});
    JoinSplit(body, '\n');
    assert text == body + "\n";
    DropConcat(body, "\n", Blankish);
    assert Ink("\n") == "";
  }

  /** Lines processed one by one keep, together, the visible text of the input. */
  lemma ProcessedLinesKeepInk(text: string)
    ensures Ink(Join(ProcessedLines(text), "\n")) == Ink(text)
  {
    var ls := SplitLines(text);
    var ps := ProcessedLines(text);
    JoinKeepsInk(ps);
    forall i | 0 <= i < |ls| ensures Ink(ps[i]) == Ink(ls[i]) {
      ProcessLineKeepsInk(ls[i]);
    }
    InkOfLinesPointwise(ps, ls);
    InkOfSplitLines(text);
  }

  /** What `_postprocess_lines` promises of its output: no NUL, no three line
      breaks in a row, nothing to strip at either end, every line stripped and
      free of runs of spaces and tabs, and the visible text of the input kept in order. */
  lemma PostprocessedTextShape(text: string)
    ensures var out := PostprocessedText(text);
      && Tidy(out)
      && NoTripleBreak(out)
      && IsStripped(out)
      && Ink(out) == Ink(text)
  {
    var ps := ProcessedLines(text);
    forall i | 0 <= i < |ps| ensures TidyLine(ps[i]) {
      ProcessLineTidy(SplitLines(text)[i]);
    }
    var joined := Join(ps, "\n");
    JoinTidy(ps);
    CollapseNewlinesTidy(joined);
    CollapseNewlinesNoTriple(joined);
    var collapsed := CollapseNewlines(joined);
    TidySlice(collapsed, LeadingSpace(collapsed), StripEnd(collapsed));
    NoTripleSlice(collapsed, LeadingSpace(collapsed), StripEnd(collapsed));
    ProcessedLinesKeepInk(text);
    CollapseNewlinesKeepsInk(joined);
    StripKeepsDrop(collapsed, Blankish);
  }

  // ---------------------------------------------------------------------------
  // which lines survive
  // ---------------------------------------------------------------------------

  /** The non-empty lines of a text. */
  function TextLines(s: string): seq<string> {
    NonBlank(Split(s, {'\n'}))
  }

  /** Splitting a text that starts with `c`. */
  lemma SplitCons(c: char, y: string)
    ensures Split([c] + y, {'\n'})
         == if c == '\n' then [""] + Split(y, {'\n'})
            else [[c] + Split(y, {'\n'})[0]] + Split(y, {'\n'})[1..]
  {
    assert ([c] + y)[1..] == y;
  }

  /** Two texts with the same first line and the same non-empty lines after it. */
  predicate PiecesAgree(x: string, y: string) {
    && Split(x, {'\n'})[0] == Split(y, {'\n'})[0]
    && NonBlank(Split(x, {'\n'})[1..]) == NonBlank(Split(y, {'\n'})[1..])
  }

  /** Dropping one line break of a run of three keeps the pieces that matter. */
  lemma PiecesDropBreak(s1: string, r: string)
    requires |s1| >= 2 && s1[0] == '\n' && s1[1] == '\n'
    requires PiecesAgree(r, s1)
    ensures PiecesAgree(r, ['\n'] + s1)
  {
    SplitCons('\n', s1);
    SplitCons('\n', s1[1..]);
    assert [s1[0]] + s1[1..] == s1;
    var p1 := Split(s1, {'\n'});
    assert p1 == [""] + p1[1..];
    NonBlankConcat([""], p1[1..]);
  }

  /** Putting the same character in front of both texts keeps them agreeing. */
  lemma PiecesCons(c: char, r: string, s1: string)
    requires PiecesAgree(r, s1)
    ensures PiecesAgree([c] + r, [c] + s1)
  {
    SplitCons(c, s1);
    SplitCons(c, r);
    if c == '\n' {
      var p, q := Split(r, {'\n'}), Split(s1, {'\n'});
      assert p == [p[0]] + p[1..] && q == [q[0]] + q[1..];
      NonBlankConcat([p[0]], p[1..]);
      NonBlankConcat([q[0]], q[1..]);
    }
  }

  /** Collapsing runs of line breaks keeps the first piece and the non-empty
      pieces after it. */
  lemma {:induction false} CollapseNewlinesPieces(s: string)
    ensures PiecesAgree(CollapseNewlines(s), s)
    decreases |s|
  {
    if |s| >= 3 && s[0] == '\n' && s[1] == '\n' && s[2] == '\n' {
      CollapseNewlinesPieces(s[1..]);
      assert [s[0]] + s[1..] == s;
      PiecesDropBreak(s[1..], CollapseNewlines(s[1..]));
    } else if |s| > 0 {
      CollapseNewlinesPieces(s[1..]);
      assert [s[0]] + s[1..] == s;
      PiecesCons(s[0], CollapseNewlines(s[1..]), s[1..]);
    }
  }

  lemma CollapseNewlinesKeepsLines(s: string)
    ensures TextLines(CollapseNewlines(s)) == TextLines(s)
  {
    CollapseNewlinesPieces(s);
    var p, q := Split(CollapseNewlines(s), {'\n'}), Split(s, {'\n'});
    assert p == [p[0]] + p[1..] && q == [q[0]] + q[1..];
    NonBlankConcat([p[0]], p[1..]);
    NonBlankConcat([q[0]], q[1..]);
  }

  /** Line breaks at either end carry no line. */
  lemma {:induction false} TextLinesTrim(a: string, b: string, c: string)
    requires forall i :: 0 <= i < |a| ==> a[i] == '\n'
    requires forall i :: 0 <= i < |c| ==> c[i] == '\n'
    ensures TextLines(a + b + c) == TextLines(b)
    decreases |a| + |c|
  {
    if |a| > 0 {
      TextLinesTrim(a[1..], b, c);
      assert a + b + c == [a[0]] + (a[1..] + b + c);
      SplitCons('\n', a[1..] + b + c);
      NonBlankConcat([""], Split(a[1..] + b + c, {'\n'}));
    } else if |c| > 0 {
      var c0 := c[..|c| - 1];
      assert c == c0 + ['\n'];
      TextLinesTrim(a, b, c0);
      var x := a + b + c0;
      assert a + b + c == x + ['\n'] + "";
      SplitAppend(x, '\n', "");
      NonBlankConcat(Split(x, {'\n'}), [""]);
      assert NonBlank([""]) == [] + NonBlank([]);
    } else {
      assert a + b + c == b;
    }
  }

  /** Around a tidy text, the whitespace `strip` removes is all line breaks. */
  lemma {:induction false} LeadingBreak(s: string, i: nat)
    requires Tidy(s) && InlineEdges(s) && i < LeadingSpace(s)
    ensures s[i] == '\n'
  {
    if i > 0 {
      LeadingBreak(s, i - 1);
      assert PairOk(s[i - 1], s[i]);
    }
  }

  lemma {:induction false} TrailingBreak(s: string, i: nat)
    requires Tidy(s) && InlineEdges(s) && StripEnd(s) <= i < |s|
    ensures s[i] == '\n'
    decreases |s| - i
  {
    if i < |s| - 1 {
      TrailingBreak(s, i + 1);
      assert PairOk(s[i], s[i + 1]);
    }
  }

  lemma StripKeepsLines(s: string)
    requires Tidy(s) && InlineEdges(s)
    ensures TextLines(Strip(s)) == TextLines(s)
  {
    var lo, hi := LeadingSpace(s), StripEnd(s);
    forall i | 0 <= i < lo ensures s[i] == '\n' { LeadingBreak(s, i); }
    forall i | hi <= i < |s| ensures s[i] == '\n' { TrailingBreak(s, i); }
    assert s == s[..lo] + s[lo..hi] + s[hi..];
    TextLinesTrim(s[..lo], s[lo..hi], s[hi..]);
  }

  lemma TextLinesOfJoin(lines: seq<string>)
    requires forall i :: 0 <= i < |lines| ==> '\n' !in lines[i]
    ensures TextLines(Join(lines, "\n")) == NonBlank(lines)
  {
    if |lines| > 0 {
      SplitJoin(lines, '\n');
    }
  }

  /** The non-empty lines of the output are the processed input lines that were not
      blank, in their original order; lines of only whitespace and NULs come out
      empty (ProcessLineEmpty). Where the empty lines go is PostprocessSqueezes. */
  lemma PostprocessKeepsLines(text: string)
    ensures TextLines(PostprocessedText(text)) == NonBlank(ProcessedLines(text))
  {
    var ps := ProcessedLines(text);
    forall i | 0 <= i < |ps| ensures TidyLine(ps[i]) {
      ProcessLineTidy(SplitLines(text)[i]);
    }
    var joined := Join(ps, "\n");
    TextLinesOfJoin(ps);
    CollapseNewlinesKeepsLines(joined);
    JoinTidy(ps);
    CollapseNewlinesTidy(joined);
    StripKeepsLines(CollapseNewlines(joined));
  }

  // ---------------------------------------------------------------------------
  // where the empty lines go
  // ---------------------------------------------------------------------------

  /** The lines `_postprocess_lines` keeps of its processed lines: the empty lines at
      either end are dropped, and each run of empty lines between two lines is cut
      to a single empty line. */
  function Squeeze(ls: seq<string>): (r: seq<string>)
    ensures r != [] ==> r[0] != "" && r[|r| - 1] != ""
    ensures forall i :: 0 <= i < |r| ==> r[i] == "" || r[i] in ls
    ensures forall i :: 0 <= i < |r| - 1 ==> r[i] != "" || r[i + 1] != ""
    decreases |ls|
  {
    if |ls| == 0 then []
    else if ls[0] == "" then Squeeze(ls[1..])
    else
      var rest := Squeeze(ls[1..]);
      if |ls| > 1 && ls[1] == "" && rest != [] then [ls[0], ""] + rest else [ls[0]] + rest
  }

  /** Squeezing keeps every non-empty line, in order. */
  lemma {:induction false} SqueezeKeepsLines(ls: seq<string>)
    ensures NonBlank(Squeeze(ls)) == NonBlank(ls)
    decreases |ls|
  {
    if |ls| > 0 {
      SqueezeKeepsLines(ls[1..]);
      if ls[0] != "" {
        var rest := Squeeze(ls[1..]);
        NonBlankConcat([ls[0]], rest);
        if |ls| > 1 && ls[1] == "" && rest != [] {
          NonBlankConcat([ls[0], ""], rest);
          NonBlankConcat([ls[0]], [""]);
        }
      }
    }
  }

  /** `n` line breaks. */
  function Breaks(n: nat): (s: string)
    ensures |s| == n && forall i :: 0 <= i < n ==> s[i] == '\n'
  {
    seq(n, i => '\n')
  }

  /** Each line preceded by a line break: what follows the first line in a join. */
  function Prefixed(ls: seq<string>): string
    decreases |ls|
  {
    if |ls| == 0 then "" else "\n" + ls[0] + Prefixed(ls[1..])
  }

  /** How many empty lines `ls` starts with. */
  function LeadingEmpty(ls: seq<string>): nat
    decreases |ls|
  {
    if |ls| > 0 && ls[0] == "" then 1 + LeadingEmpty(ls[1..]) else 0
  }

  lemma {:induction false} JoinPrefixed(ls: seq<string>)
    requires |ls| > 0
    ensures Join(ls, "\n") == ls[0] + Prefixed(ls[1..])
    decreases |ls|
  {
    if |ls| > 1 {
      JoinPrefixed(ls[1..]);
      assert ls[1..][1..] == ls[2..];
    }
  }

  /** A run of `n` line breaks before a character that is not one becomes
      `min(n, 2)` line breaks. */
  lemma {:induction false} CollapseRun(n: nat, s: string)
    requires s == "" || s[0] != '\n'
    ensures CollapseNewlines(Breaks(n) + s) == Breaks(if n < 2 then n else 2) + CollapseNewlines(s)
    decreases n
  {
    var t := Breaks(n) + s;
    if n >= 3 {
      assert t[1..] == Breaks(n - 1) + s;
      CollapseRun(n - 1, s);
    } else if n == 2 {
      assert t[1..] == "\n" + s;
      assert ("\n" + s)[1..] == s;
    } else if n == 1 {
      assert t[1..] == s;
    } else {
      assert t == s;
    }
  }

  /** A piece without line breaks passes through the collapse unchanged. */
  lemma {:induction false} CollapseLine(y: string, s: string)
    requires '\n' !in y
    ensures CollapseNewlines(y + s) == y + CollapseNewlines(s)
    decreases |y|
  {
    if |y| > 0 {
      var t, y1 := y + s, y[1..];
      assert y[0] in y;
      assert t[0] == y[0] && t[1..] == y1 + s;
      assert CollapseNewlines(t) == [y[0]] + CollapseNewlines(y1 + s);
      assert '\n' !in y1 by {
        forall i | 0 <= i < |y1| ensures y1[i] != '\n' {
          assert y1[i] == y[i + 1] && y[i + 1] in y;
        }
      }
      CollapseLine(y1, s);
      assert [y[0]] + y1 == y;
    } else {
      assert y + s == s;
    }
  }

  /** The line breaks left before the first squeezed line: two when any line break
      but the line's own one was pending or an empty line came first, else one. */
  function Gap(n: nat, r: seq<string>): nat {
    if n + LeadingEmpty(r) > 0 then 2 else 1
  }

  /** The collapse of `n` pending line breaks and the prefixed lines `r`: the
      squeezed lines after their gap, and some line breaks at the end. */
  lemma {:induction false} CollapsePrefixed(n: nat, r: seq<string>) returns (b: nat)
    requires forall i :: 0 <= i < |r| ==> '\n' !in r[i]
    ensures Squeeze(r) == [] ==> CollapseNewlines(Breaks(n) + Prefixed(r)) == Breaks(b)
    ensures Squeeze(r) != [] ==>
      CollapseNewlines(Breaks(n) + Prefixed(r)) == Breaks(Gap(n, r)) + Join(Squeeze(r), "\n") + Breaks(b)
    decreases |r|
  {
    if |r| == 0 {
      CollapseRun(n, "");
      b := if n < 2 then n else 2;
      Regroup(Breaks(n), "", "");
      Regroup(Breaks(b), "", "");
    } else if r[0] == "" {
      BreaksBeforeEmpty(n, r);
      b := CollapsePrefixed(n + 1, r[1..]);
    } else {
      var y, r1 := r[0], r[1..];
      assert [y] + r1 == r;
      var c := CollapsePrefixed(0, r1);
      BreaksNone(Prefixed(r1));
      CollapseAfterLine(n, y, r1);
      SqueezeJoinCons(y, r1);
      b := c;
      var m := if n + 1 < 2 then n + 1 else 2;
      assert m == Gap(n, r);
      if Squeeze(r1) == [] {
        Regroup(Breaks(m), y, Breaks(c));
      } else {
        RegroupLine(Breaks(m), y, Breaks(Gap(0, r1)), Join(Squeeze(r1), "\n"), Breaks(c));
      }
    }
  }

  lemma Regroup(a: string, b: string, c: string)
    ensures a + (b + c) == a + b + c
  {
  }

  lemma RegroupLine(a: string, y: string, g: string, j: string, b: string)
    ensures a + (y + (g + j + b)) == a + (y + g + j) + b
  {
  }

  lemma BreaksNone(s: string)
    ensures Breaks(0) + s == s
  {
  }

  lemma {:induction false} BreaksBeforeEmpty(n: nat, r: seq<string>)
    requires |r| > 0 && r[0] == ""
    ensures Breaks(n) + Prefixed(r) == Breaks(n + 1) + Prefixed(r[1..])
  {
    var p := Prefixed(r[1..]);
    assert Prefixed(r) == "\n" + r[0] + p;
    assert "\n" + r[0] == "\n";
    assert Breaks(n) + "\n" == Breaks(n + 1);
    Regroup(Breaks(n), "\n", p);
  }

  /** Pending line breaks, a line break and a non-empty line: at most two line
      breaks are left before the line. */
  lemma {:induction false} CollapseAfterLine(n: nat, y: string, r1: seq<string>)
    requires y != "" && '\n' !in y
    ensures CollapseNewlines(Breaks(n) + Prefixed([y] + r1))
         == Breaks(if n + 1 < 2 then n + 1 else 2) + (y + CollapseNewlines(Prefixed(r1)))
  {
    var p := Prefixed(r1);
    var t := y + p;
    BreaksBeforeLine(n, y, r1);
    assert t[0] == y[0] && y[0] in y;
    CollapseRun(n + 1, t);
    CollapseLine(y, p);
  }

  lemma BreaksBeforeLine(n: nat, y: string, r1: seq<string>)
    ensures Breaks(n) + Prefixed([y] + r1) == Breaks(n + 1) + (y + Prefixed(r1))
  {
    assert ([y] + r1)[1..] == r1;
  }

  /** Squeezing lines that start with a non-empty one keeps that line, then its
      gap before the squeezed rest, if any. */
  lemma {:induction false} SqueezeJoinCons(y: string, r1: seq<string>)
    requires y != ""
    ensures Squeeze(r1) == [] ==> Join(Squeeze([y] + r1), "\n") == y
    ensures Squeeze(r1) != [] ==>
      Join(Squeeze([y] + r1), "\n") == y + Breaks(Gap(0, r1)) + Join(Squeeze(r1), "\n")
  {
    var rest := Squeeze(r1);
    assert ([y] + r1)[1..] == r1;
    if rest != [] {
      if |r1| > 0 && r1[0] == "" {
        assert Squeeze([y] + r1) == [y, ""] + rest;
        JoinBlankBetween(y, rest);
      } else {
        assert Squeeze([y] + r1) == [y] + rest;
        JoinLineBefore(y, rest);
      }
    }
  }

  lemma JoinBlankBetween(y: string, rest: seq<string>)
    requires rest != []
    ensures Join([y, ""] + rest, "\n") == y + Breaks(2) + Join(rest, "\n")
  {
    assert ([y, ""] + rest)[1..] == [""] + rest;
    assert ([""] + rest)[1..] == rest;
  }

  lemma JoinLineBefore(y: string, rest: seq<string>)
    requires rest != []
    ensures Join([y] + rest, "\n") == y + Breaks(1) + Join(rest, "\n")
  {
    assert ([y] + rest)[1..] == rest;
  }

  /** Line breaks around a text that does not begin or end with whitespace are
      stripped off again. */
  lemma {:induction false} StripBreaks(a: nat, j: string, b: nat)
    requires j == "" || (!IsSpace(j[0]) && !IsSpace(j[|j| - 1]))
    ensures Strip(Breaks(a) + j + Breaks(b)) == j
  {
    var s := Breaks(a) + j + Breaks(b);
    assert IsSpace('\n');
    assert forall i :: 0 <= i < a ==> s[i] == '\n';
    assert forall i :: |s| - b <= i < |s| ==> s[i] == '\n';
    if j == "" {
      assert forall i :: 0 <= i < |s| ==> IsSpace(s[i]);
      assert LeadingSpace(s) == |s|;
    } else {
      assert s[a] == j[0] && s[|s| - 1 - b] == j[|j| - 1];
      assert LeadingSpace(s) == a;
      assert TrailingSpace(s) == b;
      assert s[a..|s| - b] == j;
    }
  }

  /** A join of lines ends with the last line's last character. */
  lemma {:induction false} JoinLast(ls: seq<string>)
    requires |ls| > 0 && ls[|ls| - 1] != ""
    ensures var j := Join(ls, "\n"); |j| > 0 && j[|j| - 1] == ls[|ls| - 1][|ls[|ls| - 1]| - 1]
    decreases |ls|
  {
    if |ls| > 1 {
      JoinLast(ls[1..]);
    }
  }

  /** The collapse of joined lines: the squeezed lines with some line breaks on
      either side. */
  lemma {:induction false} CollapseJoined(ps: seq<string>) returns (a: nat, b: nat)
    requires forall i :: 0 <= i < |ps| ==> '\n' !in ps[i]
    ensures CollapseNewlines(Join(ps, "\n")) == Breaks(a) + Join(Squeeze(ps), "\n") + Breaks(b)
  {
    if |ps| == 0 {
      a, b := 0, 0;
    } else if ps[0] == "" {
      a, b := CollapseJoinedBlank(ps);
    } else {
      b := CollapseJoinedLine(ps);
      a := 0;
      BreaksNone(Join(Squeeze(ps), "\n"));
    }
  }

  lemma {:induction false} CollapseJoinedBlank(ps: seq<string>) returns (a: nat, b: nat)
    requires forall i :: 0 <= i < |ps| ==> '\n' !in ps[i]
    requires |ps| > 0 && ps[0] == ""
    ensures CollapseNewlines(Join(ps, "\n")) == Breaks(a) + Join(Squeeze(ps), "\n") + Breaks(b)
  {
    JoinPrefixed(ps);
    BreaksNone(Prefixed(ps[1..]));
    var c := CollapsePrefixed(0, ps[1..]);
    if Squeeze(ps[1..]) == [] {
      a, b := c, 0;
    } else {
      a, b := Gap(0, ps[1..]), c;
    }
  }

  lemma {:induction false} CollapseJoinedLine(ps: seq<string>) returns (b: nat)
    requires forall i :: 0 <= i < |ps| ==> '\n' !in ps[i]
    requires |ps| > 0 && ps[0] != ""
    ensures CollapseNewlines(Join(ps, "\n")) == Join(Squeeze(ps), "\n") + Breaks(b)
  {
    var joined := Join(ps, "\n");
    b := CollapsePrefixed(0, ps);
    BreaksBeforeJoin(ps);
    assert ps[0][0] in ps[0];
    CollapseRun(1, joined);
    var j := Join(Squeeze(ps), "\n");
    Regroup(Breaks(1), j, Breaks(b));
    Cancel(Breaks(1), CollapseNewlines(joined), j + Breaks(b));
  }

  lemma {:induction false} BreaksBeforeJoin(ps: seq<string>)
    requires |ps| > 0
    ensures Breaks(1) + Join(ps, "\n") == Breaks(0) + Prefixed(ps)
  {
    var p := Prefixed(ps[1..]);
    JoinPrefixed(ps);
    assert Prefixed(ps) == "\n" + ps[0] + p;
    assert Breaks(1) == "\n";
    Regroup("\n", ps[0], p);
    BreaksNone(Prefixed(ps));
  }

  lemma Cancel(a: string, x: string, y: string)
    requires a + x == a + y
    ensures x == y
  {
    assert x == (a + x)[|a|..];
    assert y == (a + y)[|a|..];
  }

  /** The whole of `_postprocess_lines`: the output is the squeezed processed lines
      joined by line breaks. So two successive lines of the output are separated by
      an empty line exactly when the input had at least one blank line between them,
      and the output neither begins nor ends with an empty line. */
  lemma PostprocessSqueezes(text: string)
    ensures PostprocessedText(text) == Join(Squeeze(ProcessedLines(text)), "\n")
  {
    var ps := ProcessedLines(text);
    forall i | 0 <= i < |ps| ensures TidyLine(ps[i]) && '\n' !in ps[i] {
      ProcessLineTidy(SplitLines(text)[i]);
    }
    SqueezedEdges(ps);
    var a, b := CollapseJoined(ps);
    StripBreaks(a, Join(Squeeze(ps), "\n"), b);
  }

  /** Squeezed stripped lines neither begin nor end with whitespace. */
  lemma SqueezedEdges(ps: seq<string>)
    requires forall i :: 0 <= i < |ps| ==> IsStripped(ps[i])
    ensures var j := Join(Squeeze(ps), "\n"); j == "" || (!IsSpace(j[0]) && !IsSpace(j[|j| - 1]))
  {
    var sq := Squeeze(ps);
    var j := Join(sq, "\n");
    if sq != [] {
      assert sq[0] in ps && sq[|sq| - 1] in ps;
      assert |sq| > 1 ==> j == sq[0] + "\n" + Join(sq[1..], "\n");
      JoinLast(sq);
    }
  }

  // ---------------------------------------------------------------------------
  // the post-extraction chain
  // ---------------------------------------------------------------------------

  /** Lines 76-78 and 96-98 of `extract_text_from_pdf`: bullets, then lines, then
      `clean_text`, applied to the accumulated page text when it is not blank;
      `None` is the fall-through to the next extractor, or to `("", 0)`. */
  function FinishExtraction(text: string): (r: Option<string>)
    ensures r.Some? <==> Strip(text) != ""
  {
    if Strip(text) == "" then None
    else Some(CleanText(PostprocessedText(NormalizeBullets(text))))
  }

  /** A character that is not blank survives in the visible text. */
  lemma {:induction false} InkHolds(s: string, i: nat)
    requires i < |s| && s[i] !in Blankish
    ensures s[i] in Ink(s)
  {
    if i > 0 {
      InkHolds(s[1..], i - 1);
    }
  }

  lemma BulletsAreVisible()
    ensures Bullets !! Blankish
  {
  }

  /** Two texts with the same visible text hold the same visible characters. */
  lemma SameInkAvoids(s: string, t: string, cs: set<char>)
    requires Ink(s) == Ink(t)
    requires forall i :: 0 <= i < |t| ==> t[i] !in cs
    requires cs !! Blankish
    ensures forall i :: 0 <= i < |s| ==> s[i] !in cs
  {
    DropFrom(t, Blankish);
    forall i | 0 <= i < |s| && s[i] !in Blankish ensures s[i] in t {
      InkHolds(s, i);
      var j :| 0 <= j < |Ink(s)| && Ink(s)[j] == s[i];
      assert Ink(t)[j] in t;
    }
  }

  /** The extracted text is clean in the sense of `clean_text`, has no bullet glyph
      left, and keeps the visible text of the extraction with bullets turned to '-'. */
  lemma FinishExtractionShape(text: string)
    requires Strip(text) != ""
    ensures var out := FinishExtraction(text).value;
      && IsClean(out)
      && Ink(out) == Ink(NormalizeBullets(text))
      && forall i :: 0 <= i < |out| ==> out[i] !in Bullets
  {
    var nb := NormalizeBullets(text);
    var out := CleanText(PostprocessedText(nb));
    assert FinishExtraction(text) == Some(out);
    PostprocessedTextShape(nb);
    BulletsAreVisible();
    SameInkAvoids(out, nb, Bullets);
  }
}
