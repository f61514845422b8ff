/**
 * Character classes and the string operations of Python's `str` and `re` that the
 * resume pipeline relies on, in an ASCII view: `lower`, `strip` and `split()` use
 * Python's whitespace restricted to ASCII, `\w` is `[A-Za-z0-9_]`, `\d` is `[0-9]`.
 */
module Text {

  /** Python's `str.isspace` on ASCII: tab, newline, vertical tab, form feed,
      carriage return, the separators 0x1C-0x1F and the space. */
  const Whitespace: set<char> :=
    {' ', '\t', '\n', '\U{B}', '\U{C}', '\r', '\U{1C}', '\U{1D}', '\U{1E}', '\U{1F}'}

  /** Characters that carry no text: whitespace and NUL. */
  const Blankish: set<char> := Whitespace + {'\0'}

  predicate IsSpace(c: char) { c in Whitespace }
  predicate IsDigit(c: char) { '0' <= c <= '9' }
  predicate IsUpper(c: char) { 'A' <= c <= 'Z' }
  predicate IsLowerAlnum(c: char) { 'a' <= c <= 'z' || IsDigit(c) }
  /** The regex class `\w`. */
  predicate IsWord(c: char) { 'a' <= c <= 'z' || IsUpper(c) || IsDigit(c) || c == '_' }

  predicate AllLowerAlnum(s: string) { forall i :: 0 <= i < |s| ==> IsLowerAlnum(s[i]) }

  /** No whitespace at either end: what `strip()` leaves. */
  predicate IsStripped(s: string) { |s| > 0 ==> !IsSpace(s[0]) && !IsSpace(s[|s| - 1]) }

  // ---------------------------------------------------------------------------
  // lower
  // ---------------------------------------------------------------------------

  function LowerChar(c: char): (d: char)
    ensures !IsUpper(d)
    ensures IsSpace(d) <==> IsSpace(c)
    ensures !IsUpper(c) ==> d == c
  {
    if IsUpper(c) then (c as int + 32) as char else c
  }

  /** `str.lower()` on ASCII letters. */
  function Lower(s: string): (r: string)
    ensures |r| == |s|
    ensures forall i :: 0 <= i < |s| ==> r[i] == LowerChar(s[i])
  {
    seq(|s|, i requires 0 <= i < |s| => LowerChar(s[i]))
  }

  // ---------------------------------------------------------------------------
  // strip
  // ---------------------------------------------------------------------------

  /** Length of the whitespace prefix. */
  function LeadingSpace(s: string): (n: nat)
    ensures n <= |s|
    ensures forall i :: 0 <= i < n ==> IsSpace(s[i])
    ensures n < |s| ==> !IsSpace(s[n])
  {
    if |s| > 0 && IsSpace(s[0]) then 1 + LeadingSpace(s[1..]) else 0
  }

  /** Length of the whitespace suffix. */
  function TrailingSpace(s: string): (n: nat)
    ensures n <= |s|
    ensures forall i :: |s| - n <= i < |s| ==> IsSpace(s[i])
    ensures n < |s| ==> !IsSpace(s[|s| - 1 - n])
  {
    if |s| > 0 && IsSpace(s[|s| - 1]) then 1 + TrailingSpace(s[..|s| - 1]) else 0
  }

  /** Where the stripped text ends: everything from here on is whitespace. */
  function StripEnd(s: string): (hi: nat)
    ensures LeadingSpace(s) <= hi <= |s|
    ensures forall i :: hi <= i < |s| ==> IsSpace(s[i])
    ensures LeadingSpace(s) < hi ==> !IsSpace(s[hi - 1])
  {
    var lo := LeadingSpace(s);
    if lo == |s| then lo
    else
      |s| - TrailingSpace(s)
  }

  /** `str.strip()`: the slice of `s` left after removing whitespace at both ends. */
  function Strip(s: string): (r: string)
    ensures |r| <= |s|
    ensures IsStripped(r)
  {
    s[LeadingSpace(s)..StripEnd(s)]
  }

  /** `s.rstrip(c)`: removes every trailing copy of `c`. */
  function RStripChar(s: string, c: char): (r: string)
    ensures |r| <= |s| && r == s[..|r|]
    ensures |r| > 0 ==> r[|r| - 1] != c
    ensures forall i :: |r| <= i < |s| ==> s[i] == c
  {
    if |s| > 0 && s[|s| - 1] == c then RStripChar(s[..|s| - 1], c) else s
  }

  // ---------------------------------------------------------------------------
  // dropping characters
  // ---------------------------------------------------------------------------

  /** `s` with every character of `cs` removed (order of the rest kept). */
  function Drop(s: string, cs: set<char>): (r: string)
    ensures |r| <= |s|
    ensures forall i :: 0 <= i < |r| ==> r[i] !in cs
  {
    if |s| == 0 then [] else (if s[0] in cs then [] else [s[0]]) + Drop(s[1..], cs)
  }

  /** Every character of `cs` in `s` replaced by `d`: a one-character-class `re.sub`. */
  function Substitute(s: string, cs: set<char>, d: char): (r: string)
    ensures |r| == |s|
    ensures forall i :: 0 <= i < |s| ==> r[i] == if s[i] in cs then d else s[i]
  {
    if |s| == 0 then [] else [if s[0] in cs then d else s[0]] + Substitute(s[1..], cs, d)
  }

  /** Substituting dropped characters by a dropped character changes nothing visible. */
  lemma {:induction false} SubstituteKeepsDrop(s: string, cs: set<char>, d: char, gone: set<char>)
    requires cs <= gone && d in gone
    ensures Drop(Substitute(s, cs, d), gone) == Drop(s, gone)
  {
    if |s| > 0 {
      SubstituteKeepsDrop(s[1..], cs, d, gone);
      assert Substitute(s, cs, d)[1..] == Substitute(s[1..], cs, d);
    }
  }

  /** The visible text of `s`: every character except whitespace and NUL, in order. */
  function Ink(s: string): string { Drop(s, Blankish) }

  lemma {:induction false} DropConcat(a: string, b: string, cs: set<char>)
    ensures Drop(a + b, cs) == Drop(a, cs) + Drop(b, cs)
  {
    if |a| > 0 {
      assert (a + b)[1..] == a[1..] + b;
      DropConcat(a[1..], b, cs);
    } else {
      assert a + b == b;
    }
  }

  /** Dropping keeps only characters of the original. */
  lemma {:induction false} DropFrom(s: string, cs: set<char>)
    ensures forall j :: 0 <= j < |Drop(s, cs)| ==> Drop(s, cs)[j] in s
  {
    if |s| > 0 {
      DropFrom(s[1..], cs);
      var rest := Drop(s[1..], cs);
      assert forall j :: 0 <= j < |rest| ==> rest[j] in s;
    }
  }

  lemma {:induction false} DropOnly(s: string, cs: set<char>)
    requires forall i :: 0 <= i < |s| ==> s[i] in cs
    ensures Drop(s, cs) == []
  {
    if |s| > 0 { DropOnly(s[1..], cs); }
  }

  lemma {:induction false} DropNone(s: string, cs: set<char>)
    requires forall i :: 0 <= i < |s| ==> s[i] !in cs
    ensures Drop(s, cs) == s
  {
    if |s| > 0 { DropNone(s[1..], cs); }
  }

  /** Removing characters that do not occur changes nothing. */
  lemma {:induction false} DropExtra(s: string, cs: set<char>, extra: set<char>)
    requires forall i :: 0 <= i < |s| ==> s[i] !in extra
    ensures Drop(s, cs + extra) == Drop(s, cs)
  {
    if |s| > 0 { DropExtra(s[1..], cs, extra); }
  }

  /** Stripping removes only whitespace, so it keeps every visible character. */
  lemma StripKeepsDrop(s: string, cs: set<char>)
    requires Whitespace <= cs
    ensures Drop(Strip(s), cs) == Drop(s, cs)
  {
    var lo, hi := LeadingSpace(s), StripEnd(s);
    var a, b, c := s[..lo], s[lo..hi], s[hi..];
    assert s == a + b + c;
    assert Strip(s) == b;
    forall i | 0 <= i < |a| ensures a[i] in cs {
      assert a[i] == s[i];
    }
    forall i | 0 <= i < |c| ensures c[i] in cs {
      assert c[i] == s[hi + i];
    }
    DropConcat(a + b, c, cs);
    DropConcat(a, b, cs);
    DropOnly(a, cs);
    DropOnly(c, cs);
  }

  /** Text that is already stripped is left alone. */
  lemma StripOfStripped(s: string)
    requires IsStripped(s)
    ensures Strip(s) == s
  {
    if |s| > 0 {
      assert LeadingSpace(s) == 0;
      assert TrailingSpace(s) == 0;
    }
  }

  /** One leading space is stripped off again. */
  lemma StripLeadingSpace(x: string)
    requires x != "" && IsStripped(x)
    ensures Strip([' '] + x) == x
  {
    var s := [' '] + x;
    assert s[1..] == x;
    assert LeadingSpace(s) == 1 + LeadingSpace(x) == 1;
    assert TrailingSpace(s) == 0;
    assert s[1..|s|] == x;
  }

  /** Dropping two sets one after the other drops their union. */
  lemma {:induction false} DropDrop(s: string, a: set<char>, b: set<char>)
    ensures Drop(Drop(s, a), b) == Drop(s, a + b)
    decreases |s|
  {
    if |s| > 0 {
      DropDrop(s[1..], a, b);
      var head := if s[0] in a then [] else [s[0]];
      DropConcat(head, Drop(s[1..], a), b);
      if s[0] !in a {
        assert Drop(head, b) == (if s[0] in b then [] else [s[0]]) + Drop([], b);
      }
    }
  }

  // ---------------------------------------------------------------------------
  // split and join
  // ---------------------------------------------------------------------------

  /** `s.split(sep)` for one-character separators, or `re.split("[...]", s)` for a
      character class: the maximal separator-free pieces, empty ones included. */
  function Split(s: string, seps: set<char>): (parts: seq<string>)
    ensures |parts| >= 1
    ensures forall i :: 0 <= i < |parts| ==> forall j :: 0 <= j < |parts[i]| ==> parts[i][j] !in seps
  {
    if |s| == 0 then [""]
    else
      var rest := Split(s[1..], seps);
      if s[0] in seps then [""] + rest else [[s[0]] + rest[0]] + rest[1..]
  }

  /** `sep.join(parts)`. */
  function Join(parts: seq<string>, sep: string): string {
    if |parts| == 0 then ""
    else if |parts| == 1 then parts[0]
    else parts[0] + sep + Join(parts[1..], sep)
  }

  /** The pieces that are not empty, in order: `[p for p in parts if p]`. */
  function NonBlank(parts: seq<string>): (r: seq<string>)
    ensures forall i :: 0 <= i < |r| ==> r[i] != ""
  {
    if |parts| == 0 then [] else (if parts[0] == "" then [] else [parts[0]]) + NonBlank(parts[1..])
  }

  lemma {:induction false} NonBlankConcat(a: seq<string>, b: seq<string>)
    ensures NonBlank(a + b) == NonBlank(a) + NonBlank(b)
    decreases |a|
  {
    if |a| == 0 {
      assert a + b == b;
    } else {
      assert (a + b)[1..] == a[1..] + b;
      NonBlankConcat(a[1..], b);
    }
  }

  /** `s.split()` with no argument: the maximal runs of non-whitespace. */
  function Words(s: string): (ws: seq<string>)
    ensures forall i :: 0 <= i < |ws| ==> ws[i] != ""
  {
    NonBlank(Split(s, Whitespace))
  }

  /** `"".join(parts)`. */
  function Concat(parts: seq<string>): string {
    if |parts| == 0 then "" else parts[0] + Concat(parts[1..])
  }

  /** Joining the pieces of a split with the separator gives back the text. */
  lemma {:induction false} JoinSplit(s: string, c: char)
    ensures Join(Split(s, {c}), [c]) == s
  {
    if |s| > 0 {
      var rest := Split(s[1..], {c});
      JoinSplit(s[1..], c);
      if s[0] == c {
        assert Split(s, {c}) == [""] + rest;
        assert ([""] + rest)[1..] == rest;
      } else {
        var parts := Split(s, {c});
        assert parts == [[s[0]] + rest[0]] + rest[1..];
        if |rest| > 1 {
          assert parts[1..] == rest[1..];
          assert Join(rest, [c]) == rest[0] + [c] + Join(rest[1..], [c]);
        }
      }
    }
  }

  /** Gluing the pieces of a split back together without separators deletes the separator. */
  lemma {:induction false} ConcatSplit(s: string, c: char)
    ensures Concat(Split(s, {c})) == Drop(s, {c})
    decreases |s|
  {
    if |s| > 0 {
      ConcatSplit(s[1..], c);
      var rest := Split(s[1..], {c});
      if s[0] == c {
        assert ([""] + rest)[1..] == rest;
      } else {
        var parts := [[s[0]] + rest[0]] + rest[1..];
        assert parts[1..] == rest[1..];
        assert Concat(rest) == rest[0] + Concat(rest[1..]);
      }
    }
  }

  /** A split at a separator that is the first one in the text. */
  lemma SplitAtFirst(a: string, c: char, b: string)
    requires forall i :: 0 <= i < |a| ==> a[i] != c
    ensures Split(a + [c] + b, {c}) == [a] + Split(b, {c})
    decreases |a|
  {
    if |a| == 0 {
      assert a + [c] + b == [c] + b;
      assert ([c] + b)[1..] == b;
    } else {
      assert (a + [c] + b)[1..] == a[1..] + [c] + b;
      SplitAtFirst(a[1..], c, b);
      assert [a[0]] + a[1..] == a;
    }
  }

  /** Splitting distributes over a separator occurrence. */
  lemma {:induction false} SplitAppend(a: string, c: char, b: string)
    ensures Split(a + [c] + b, {c}) == Split(a, {c}) + Split(b, {c})
    decreases |a|
  {
    if |a| == 0 {
      assert a + [c] + b == [c] + b;
      assert ([c] + b)[1..] == b;
    } else {
      assert (a + [c] + b)[1..] == a[1..] + [c] + b;
      SplitAppend(a[1..], c, b);
    }
  }

  /** Splitting a join of separator-free pieces gives the pieces back. */
  lemma {:induction false} SplitJoin(parts: seq<string>, c: char)
    requires |parts| >= 1
    requires forall i :: 0 <= i < |parts| ==> c !in parts[i]
    ensures Split(Join(parts, [c]), {c}) == parts
    decreases |parts|
  {
    var p0, rest := parts[0], parts[1..];
    forall i | 0 <= i < |p0| ensures p0[i] !in {c} {
      assert p0[i] in p0;
    }
    SplitNone(p0, {c});
    if |parts| > 1 {
      var j := Join(rest, [c]);
      assert Join(parts, [c]) == p0 + [c] + j;
      SplitJoin(rest, c);
      SplitAppend(p0, c, j);
      assert [p0] + rest == parts;
    }
  }

  /** A text without the separator is a single piece. */
  lemma SplitNone(a: string, seps: set<char>)
    requires forall i :: 0 <= i < |a| ==> a[i] !in seps
    ensures Split(a, seps) == [a]
    decreases |a|
  {
    if |a| > 0 {
      SplitNone(a[1..], seps);
      assert [a[0]] + a[1..] == a;
    }
  }

  /** Python's `splitlines()` for '\n' line ends: no final empty piece after a
      trailing newline, and no lines at all for the empty text. */
  function SplitLines(s: string): (lines: seq<string>)
    ensures forall i :: 0 <= i < |lines| ==> '\n' !in lines[i]
  {
    if |s| == 0 then []
    else
      var parts := Split(s, {'\n'});
      if s[|s| - 1] == '\n' then parts[..|parts| - 1] else parts
  }

  // ---------------------------------------------------------------------------
  // replace, substring, slicing
  // ---------------------------------------------------------------------------

  /** `s.replace(k, v)`: non-overlapping occurrences of `k`, scanned left to right. */
  function Replace(s: string, k: string, v: string): string
    requires |k| > 0
    decreases |s|
  {
    if |s| < |k| then s
    else if s[..|k|] == k then v + Replace(s[|k|..], k, v)
    else [s[0]] + Replace(s[1..], k, v)
  }

  /** Replacing a pattern by itself is the identity. */
  lemma ReplaceSelf(s: string, k: string)
    requires |k| > 0
    ensures Replace(s, k, k) == s
    decreases |s|
  {
    if |s| >= |k| {
      if s[..|k|] == k {
        ReplaceSelf(s[|k|..], k);
        assert s[..|k|] + s[|k|..] == s;
      } else {
        ReplaceSelf(s[1..], k);
        assert [s[0]] + s[1..] == s;
      }
    }
  }

  /** A pattern holding a character that the text lacks cannot occur in it. */
  lemma ReplaceAbsent(s: string, k: string, v: string, j: nat)
    requires |k| > 0 && j < |k|
    requires forall i :: 0 <= i < |s| ==> s[i] != k[j]
    ensures Replace(s, k, v) == s
    decreases |s|
  {
    if |s| >= |k| {
      assert s[..|k|][j] == s[j];
      ReplaceAbsent(s[1..], k, v, j);
      assert [s[0]] + s[1..] == s;
    }
  }

  /** A pattern replaced in itself leaves just the replacement. */
  lemma ReplaceWhole(k: string, v: string)
    requires |k| > 0
    ensures Replace(k, k, v) == v
  {
    assert k[..|k|] == k;
    assert k[|k|..] == [];
  }

  /** `needle` occurs in `hay` starting at position `i`. */
  predicate OccursAt(needle: string, hay: string, i: int) {
    0 <= i && i + |needle| <= |hay| && hay[i..i + |needle|] == needle
  }

  /** Python's `needle in hay` on strings. */
  predicate IsSubstring(needle: string, hay: string) {
    exists i :: 0 <= i <= |hay| - |needle| && OccursAt(needle, hay, i)
  }

  /** Python's `s[:n]`. */
  function Take<T>(s: seq<T>, n: nat): (r: seq<T>)
    ensures |r| == if |s| <= n then |s| else n
    ensures r == s[..|r|]
  {
    if |s| <= n then s else s[..n]
  }

  // ---------------------------------------------------------------------------
  // regex word boundaries
  // ---------------------------------------------------------------------------

  predicate WordAt(t: string, i: int) { 0 <= i < |t| && IsWord(t[i]) }

  /** The regex assertion `\b` at position `i` (0 <= i <= |t|). */
  predicate Boundary(t: string, i: int) { WordAt(t, i - 1) != WordAt(t, i) }

  /** `re.search(r"\b" + re.escape(h) + r"\b", t)` succeeds at position `i`. */
  predicate WholeWordAt(t: string, h: string, i: int) {
    0 <= i && i + |h| <= |t| && t[i..i + |h|] == h && Boundary(t, i) && Boundary(t, i + |h|)
  }

  /** `re.search(r"\b" + re.escape(h) + r"\b", t)` finds a match. */
  predicate HasWholeWord(t: string, h: string) {
    exists i :: 0 <= i <= |t| - |h| && WholeWordAt(t, h, i)
  }
}
