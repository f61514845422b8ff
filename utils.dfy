/**
 * Text helpers of app/components/utils.py: `clean_text`, the technical-token
 * normaliser `normalize_token` and `split_csv_list`.
 */
module Utils {
  import opened Text

  // ---------------------------------------------------------------------------
  // clean_text
  // ---------------------------------------------------------------------------

  /** The characters `clean_text` turns into spaces: NUL, carriage return, tab. */
  const Controls: set<char> := {'\0', '\r', '\t'}

  /** What `clean_text` promises of its output: no NUL, CR or tab, no two spaces
      in a row, and no whitespace at either end. */
  predicate IsClean(s: string) {
    && (forall i :: 0 <= i < |s| ==> s[i] !in Controls)
    && (forall i :: 0 <= i < |s| - 1 ==> !(s[i] == ' ' && s[i + 1] == ' '))
    && IsStripped(s)
  }

  /** The two `replace("\x00", " ")` calls and `re.sub(r"[\r\t]", " ", text)`. */
  function SpaceControls(s: string): (r: string)
    ensures |r| == |s|
    ensures forall i :: 0 <= i < |s| ==> r[i] == if s[i] in Controls then ' ' else s[i]
  {
    Substitute(s, Controls, ' ')
  }

  /** `re.sub(r" {2,}", " ", s)`: every run of spaces becomes one space. */
  function CollapseSpaces(s: string): (r: string)
    ensures |s| > 0 ==> |r| > 0 && r[0] == s[0]
    ensures forall i :: 0 <= i < |r| - 1 ==> !(r[i] == ' ' && r[i + 1] == ' ')
    decreases |s|
  {
    if |s| < 2 then s
    else if s[0] == ' ' && s[1] == ' ' then CollapseSpaces(s[1..])
    else [s[0]] + CollapseSpaces(s[1..])
  }

  /** `clean_text(text)`; the empty string stands for both "" and None. */
  function CleanText(text: string): (r: string)
    ensures text == "" ==> r == ""
    ensures IsClean(r)
    ensures Ink(r) == Ink(text)
  {
    if text == "" then ""
    else
      StripOfCollapsedIsClean(SpaceControls(text));
      CleaningKeepsInk(text);
      Strip(CollapseSpaces(SpaceControls(text)))
  }

  lemma CleaningKeepsInk(text: string)
    ensures Ink(Strip(CollapseSpaces(SpaceControls(text)))) == Ink(text)
  {
    var spaced := SpaceControls(text);
    SpaceControlsKeepsInk(text);
    CollapseSpacesKeepsInk(spaced);
    StripKeepsDrop(CollapseSpaces(spaced), Blankish);
  }

  /** Collapsing spaces introduces no character other than the space. */
  lemma {:induction false} CollapseSpacesAvoids(s: string, cs: set<char>)
    requires ' ' !in cs
    requires forall i :: 0 <= i < |s| ==> s[i] !in cs
    ensures forall i :: 0 <= i < |CollapseSpaces(s)| ==> CollapseSpaces(s)[i] !in cs
    decreases |s|
  {
    if |s| >= 2 {
      CollapseSpacesAvoids(s[1..], cs);
    }
  }

  lemma StripOfCollapsedIsClean(spaced: string)
    requires forall i :: 0 <= i < |spaced| ==> spaced[i] !in Controls
    ensures IsClean(Strip(CollapseSpaces(spaced)))
  {
    CollapseSpacesAvoids(spaced, Controls);
    StripKeepsClean(CollapseSpaces(spaced));
  }

  /** Stripping a text without controls or double spaces makes it clean. */
  lemma StripKeepsClean(c: string)
    requires forall i :: 0 <= i < |c| ==> c[i] !in Controls
    requires forall i :: 0 <= i < |c| - 1 ==> !(c[i] == ' ' && c[i + 1] == ' ')
    ensures IsClean(Strip(c))
  {
  }

  lemma SpaceControlsKeepsInk(s: string)
    ensures Ink(SpaceControls(s)) == Ink(s)
  {
    SubstituteKeepsDrop(s, Controls, ' ', Blankish);
  }

  lemma {:induction false} CollapseSpacesKeepsInk(s: string)
    ensures Ink(CollapseSpaces(s)) == Ink(s)
    decreases |s|
  {
    if |s| >= 2 {
      CollapseSpacesKeepsInk(s[1..]);
    }
  }

  lemma {:induction false} CollapseSpacesNoRun(s: string)
    requires forall i :: 0 <= i < |s| - 1 ==> !(s[i] == ' ' && s[i + 1] == ' ')
    ensures CollapseSpaces(s) == s
    decreases |s|
  {
    if |s| >= 2 {
      CollapseSpacesNoRun(s[1..]);
      assert [s[0]] + s[1..] == s;
    }
  }

  /** `clean_text` keeps newlines: on a text that does not begin or end with
      whitespace or NUL, every character except NUL, CR, tab and space survives in
      order, each line break included; only spaces are inserted or merged. */
  lemma CleanTextKeepsNewlines(text: string)
    requires |text| > 0 && text[0] !in Blankish && text[|text| - 1] !in Blankish
    ensures Drop(CleanText(text), {' '}) == Drop(text, Controls + {' '})
  {
    var spaced := SpaceControls(text);
    SpaceControlsDropSpaces(text);
    CollapseSpacesKeepsDrop(spaced, {' '});
    CollapsedEndsKept(text);
  }

  /** When the text neither begins nor ends with a blank, the final strip of
      `clean_text` has nothing to remove. */
  lemma CollapsedEndsKept(text: string)
    requires |text| > 0 && text[0] !in Blankish && text[|text| - 1] !in Blankish
    ensures CleanText(text) == CollapseSpaces(SpaceControls(text))
  {
    var spaced := SpaceControls(text);
    var collapsed := CollapseSpaces(spaced);
    assert spaced[|spaced| - 1] == text[|text| - 1];
    CollapseSpacesLast(spaced);
    assert !IsSpace(collapsed[0]) && !IsSpace(collapsed[|collapsed| - 1]);
    StripOfStripped(collapsed);
  }

  /** Turning controls into spaces is invisible once spaces are dropped. */
  lemma SpaceControlsDropSpaces(text: string)
    ensures Drop(SpaceControls(text), {' '}) == Drop(text, Controls + {' '})
  {
    var spaced := SpaceControls(text);
    SubstituteKeepsDrop(text, Controls, ' ', Controls + {' '});
    DropExtra(spaced, {' '}, Controls);
    assert {' '} + Controls == Controls + {' '};
  }

  /** Collapsing spaces changes nothing once spaces are dropped anyway. */
  lemma {:induction false} CollapseSpacesKeepsDrop(s: string, cs: set<char>)
    requires ' ' in cs
    ensures Drop(CollapseSpaces(s), cs) == Drop(s, cs)
    decreases |s|
  {
    if |s| >= 2 {
      CollapseSpacesKeepsDrop(s[1..], cs);
    }
  }

  /** A last character other than the space survives the collapse. */
  lemma {:induction false} CollapseSpacesLast(s: string)
    requires |s| > 0 && s[|s| - 1] != ' '
    ensures CollapseSpaces(s)[|CollapseSpaces(s)| - 1] == s[|s| - 1]
    decreases |s|
  {
    if |s| >= 2 {
      CollapseSpacesLast(s[1..]);
    }
  }

  /** A clean text is a fixed point of `clean_text`: together with CleanText's own
      contract this gives CleanText(t) == t exactly when t is clean (or ""). */
  lemma CleanTextFixesClean(t: string)
    ensures CleanText(t) == t <==> IsClean(t)
  {
    if IsClean(t) && t != "" {
      assert SpaceControls(t) == t;
      CollapseSpacesNoRun(t);
      StripOfStripped(t);
    }
  }

  /** `clean_text` is idempotent. */
  lemma CleanTextIdempotent(t: string)
    ensures CleanText(CleanText(t)) == CleanText(t)
  {
    CleanTextFixesClean(CleanText(t));
  }

  // ---------------------------------------------------------------------------
  // normalize_token
  // ---------------------------------------------------------------------------

  /** The replacement table of `normalize_token`, in the order the loop applies it. */
  const Replacements: seq<(string, string)> := [
    ("c#", "csharp"),
    ("c++", "cplusplus"),
    (".net core", "dotnetcore"),
    (".net", "dotnet"),
    ("asp.net core", "aspnetcore"),
    ("asp.net", "aspnet"),
    ("web api", "webapi"),
    ("rest api", "restapi"),
    ("node.js", "nodejs"),
    ("node js", "nodejs"),
    ("javascript", "javascript"),
    ("typescript", "typescript")
  ]

  predicate NonEmptyKeys(tbl: seq<(string, string)>) {
    forall i :: 0 <= i < |tbl| ==> |tbl[i].0| > 0
  }

  /** The characters every rewriting key holds at least one of. */
  predicate IsMarker(c: char) { c == '#' || c == '+' || c == '.' || c == ' ' }

  /** No marker character occurs in `t`. */
  predicate Unmarked(t: string) { forall p :: 0 <= p < |t| ==> !IsMarker(t[p]) }

  /** Character `j` of `k` is a marker. */
  predicate MarkerAt(k: string, j: int) { 0 <= j < |k| && IsMarker(k[j]) }

  /** An entry that cannot fire on unmarked text: it maps its key to itself, or its
      key holds a marker character. */
  predicate Guarded(entry: (string, string)) {
    entry.0 == entry.1 || exists j :: 0 <= j < |entry.0| && MarkerAt(entry.0, j)
  }

  /** The `for k, v in replacements.items(): t = t.replace(k, v)` loop from entry
      `i` on: each entry rewrites the result of the previous one. */
  function ApplyTable(t: string, i: nat): string
    decreases |Replacements| - i
  {
    if i >= |Replacements| then t
    else
      TableKeysNonEmpty();
      ApplyTable(Replace(t, Replacements[i].0, Replacements[i].1), i + 1)
  }

  /** `re.sub(r"[^a-z0-9]+", "", t)`. */
  function KeepLowerAlnum(s: string): (r: string)
    ensures AllLowerAlnum(r)
    ensures AllLowerAlnum(s) ==> r == s
  {
    if |s| == 0 then []
    else
      var rest := KeepLowerAlnum(s[1..]);
      if IsLowerAlnum(s[0]) then (assert AllLowerAlnum(s) ==> s == [s[0]] + s[1..]; [s[0]] + rest) else rest
  }

  /** What `normalize_token(token)` returns: lower-case, strip, apply the table in
      order, then delete everything outside `[a-z0-9]`. */
  function Normalized(token: string): (r: string)
    ensures token == "" ==> r == ""
    ensures AllLowerAlnum(r)
  {
    if token == "" then "" else KeepLowerAlnum(ApplyTable(Strip(Lower(token)), 0))
  }

  /** `normalize_token`: the loop rebinding `t` once per table entry. */
  method NormalizeToken(token: string) returns (t: string)
    ensures t == Normalized(token)
  {
    if token == "" {
      return "";
    }
    var start := Strip(Lower(token));
    t := start;
    for i := 0 to |Replacements|
      invariant ApplyTable(t, i) == ApplyTable(start, 0)
    {
      TableKeysNonEmpty();
      t := Replace(t, Replacements[i].0, Replacements[i].1);
    }
    t := KeepLowerAlnum(t);
  }

  lemma TableKeysNonEmpty()
    ensures NonEmptyKeys(Replacements)
  {
  }

  lemma TableGuarded()
    ensures NonEmptyKeys(Replacements)
    ensures forall i :: 0 <= i < |Replacements| ==> Guarded(Replacements[i])
  {
    assert MarkerAt(Replacements[0].0, 1);
    assert MarkerAt(Replacements[1].0, 1);
    assert MarkerAt(Replacements[2].0, 0);
    assert MarkerAt(Replacements[3].0, 0);
    assert MarkerAt(Replacements[4].0, 3);
    assert MarkerAt(Replacements[5].0, 3);
    assert MarkerAt(Replacements[6].0, 3);
    assert MarkerAt(Replacements[7].0, 4);
    assert MarkerAt(Replacements[8].0, 4);
    assert MarkerAt(Replacements[9].0, 4);
  }

  /** The table leaves text without `#`, `+`, `.` and spaces untouched, from any entry on:
      only tokens holding one of those characters are rewritten. */
  lemma {:induction false} UnmarkedTableFixes(u: string, i: nat)
    requires Unmarked(u)
    ensures ApplyTable(u, i) == u
    decreases |Replacements| - i
  {
    if i < |Replacements| {
      TableGuarded();
      var (k, v) := Replacements[i];
      if k == v {
        ReplaceSelf(u, k);
      } else {
        var j :| 0 <= j < |k| && MarkerAt(k, j);
        ReplaceAbsent(u, k, v, j);
      }
      UnmarkedTableFixes(u, i + 1);
    }
  }

  /** Without a marker character a token is only lower-cased, stripped and cut down
      to `[a-z0-9]`. */
  lemma NormalizedUnmarked(token: string)
    requires Unmarked(token)
    ensures Normalized(token) == KeepLowerAlnum(Strip(Lower(token)))
  {
    if token != "" {
      UnmarkedTableFixes(Strip(Lower(token)), 0);
    }
  }

  /** Entry `i` cannot fire on `t`: character `j` of its key does not occur in `t`. */
  lemma TableSkips(t: string, i: nat, j: nat)
    requires i < |Replacements| && j < |Replacements[i].0|
    requires forall p :: 0 <= p < |t| ==> t[p] != Replacements[i].0[j]
    ensures ApplyTable(t, i) == ApplyTable(t, i + 1)
  {
    TableKeysNonEmpty();
    ReplaceAbsent(t, Replacements[i].0, Replacements[i].1, j);
  }

  /** Some character of entry `m`'s key does not occur in `s`, so the entry leaves
      `s` alone. */
  predicate Skipped(s: string, m: nat)
    requires m < |Replacements|
  {
    exists j :: 0 <= j < |Replacements[m].0| && Replacements[m].0[j] !in s
  }

  /** Entries `i` up to `n` all pass over `s`. */
  lemma {:induction false} TableSkipsTo(s: string, i: nat, n: nat)
    requires i <= n <= |Replacements|
    requires forall m :: i <= m < n ==> Skipped(s, m)
    ensures ApplyTable(s, i) == ApplyTable(s, n)
    decreases n - i
  {
    if i < n {
      assert Skipped(s, i);
      var j :| 0 <= j < |Replacements[i].0| && Replacements[i].0[j] !in s;
      TableSkips(s, i, j);
      TableSkipsTo(s, i + 1, n);
    }
  }

  /** Entry `i` rewrites `t` to `r`. */
  lemma TableFires(t: string, i: nat, r: string)
    requires i < |Replacements|
    requires NonEmptyKeys(Replacements) && Replace(t, Replacements[i].0, Replacements[i].1) == r
    ensures ApplyTable(t, i) == ApplyTable(r, i + 1)
  {
  }

  /** A lower-case alphanumeric result passes the rest of the table and the final
      filter unchanged. */
  lemma TableSettles(r: string, i: nat)
    requires AllLowerAlnum(r)
    ensures KeepLowerAlnum(ApplyTable(r, i)) == r
  {
    UnmarkedTableFixes(r, i);
  }

  /** A token whose prepared form passes entries `0..n`, is rewritten by entry `n`
      to a `[a-z0-9]` string `r`, normalizes to `r`. */
  lemma NormalizedFiresAt(token: string, n: nat, r: string)
    requires token != "" && n < |Replacements|
    requires forall m :: 0 <= m < n ==> Skipped(Strip(Lower(token)), m)
    requires NonEmptyKeys(Replacements) && Replace(Strip(Lower(token)), Replacements[n].0, Replacements[n].1) == r
    requires AllLowerAlnum(r)
    ensures Normalized(token) == r
  {
    var s := Strip(Lower(token));
    TableSkipsTo(s, 0, n);
    TableFires(s, n, r);
    TableSettles(r, n + 1);
  }

  /** The docstring's "C# -> csharp": the first entry fires. */
  lemma NormalizeCSharp()
    ensures Normalized("C#") == "csharp"
  {
    assert Lower("C#") == "c#";
    StripOfStripped("c#");
    TableKeysNonEmpty();
    ReplaceWhole("c#", "csharp");
    NormalizedFiresAt("C#", 0, "csharp");
  }

  lemma CodeNamesSkipped(t: string)
    requires t in {".net core", "web api", "node.js", "asp.net"}
    ensures forall m :: 0 <= m < 2 ==> Skipped(t, m)
  {
    assert Skipped(t, 0) by { assert Replacements[0].0[1] == '#'; }
    assert Skipped(t, 1) by { assert Replacements[1].0[1] == '+'; }
  }

  /** The docstring's ".NET Core -> dotnetcore": entry 2 fires on the whole token. */
  lemma NormalizeDotNetCore()
    ensures Normalized(".NET Core") == "dotnetcore"
  {
    assert Lower(".NET Core") == ".net core";
    StripOfStripped(".net core");
    CodeNamesSkipped(".net core");
    TableKeysNonEmpty();
    ReplaceWhole(".net core", "dotnetcore");
    NormalizedFiresAt(".NET Core", 2, "dotnetcore");
  }

  lemma WebApiSkipped(t: string)
    requires t == "web api"
    ensures forall m :: 0 <= m < 6 ==> Skipped(t, m)
  {
    CodeNamesSkipped(t);
    assert Skipped(t, 2) by { assert Replacements[2].0[0] == '.'; }
    assert Skipped(t, 3) by { assert Replacements[3].0[0] == '.'; }
    assert Skipped(t, 4) by { assert Replacements[4].0[3] == '.'; }
    assert Skipped(t, 5) by { assert Replacements[5].0[3] == '.'; }
  }

  /** The docstring's "Web API -> webapi": entry 6 fires on the whole token. */
  lemma NormalizeWebApi()
    ensures Normalized("Web API") == "webapi"
  {
    assert Lower("Web API") == "web api";
    StripOfStripped("web api");
    WebApiSkipped("web api");
    TableKeysNonEmpty();
    ReplaceWhole("web api", "webapi");
    NormalizedFiresAt("Web API", 6, "webapi");
  }

  lemma NodeJsSkippedLow(t: string)
    requires t == "node.js"
    ensures forall m :: 0 <= m < 4 ==> Skipped(t, m)
  {
    CodeNamesSkipped(t);
    assert Skipped(t, 2) by { assert Replacements[2].0[4] == ' '; }
    assert Skipped(t, 3) by { assert Replacements[3].0[3] == 't'; }
  }

  lemma NodeJsSkippedHigh(t: string)
    requires t == "node.js"
    ensures forall m :: 4 <= m < 8 ==> Skipped(t, m)
  {
    assert Skipped(t, 4) by { assert Replacements[4].0[0] == 'a'; }
    assert Skipped(t, 5) by { assert Replacements[5].0[0] == 'a'; }
    assert Skipped(t, 6) by { assert Replacements[6].0[0] == 'w'; }
    assert Skipped(t, 7) by { assert Replacements[7].0[0] == 'r'; }
  }

  /** The docstring's "Node.js -> nodejs": entry 8 fires on the whole token. */
  lemma NormalizeNodeJs()
    ensures Normalized("Node.js") == "nodejs"
  {
    assert Lower("Node.js") == "node.js";
    StripOfStripped("node.js");
    NodeJsSkippedLow("node.js");
    NodeJsSkippedHigh("node.js");
    TableKeysNonEmpty();
    ReplaceWhole("node.js", "nodejs");
    NormalizedFiresAt("Node.js", 8, "nodejs");
  }

  lemma AspNetSkipped(t: string)
    requires t == "asp.net"
    ensures forall m :: 0 <= m < 3 ==> Skipped(t, m)
  {
    CodeNamesSkipped(t);
    assert Skipped(t, 2) by { assert Replacements[2].0[4] == ' '; }
  }

  /** Entry 3, `".net" -> "dotnet"`, rewrites the tail of "asp.net". */
  lemma AspNetFires(t: string)
    requires t == "asp.net"
    ensures NonEmptyKeys(Replacements)
    ensures Replace(t, Replacements[3].0, Replacements[3].1) == "aspdotnet"
  {
    TableKeysNonEmpty();
    var k, v := Replacements[3].0, Replacements[3].1;
    assert t[3..] == k;
    ReplaceWhole(k, v);
    assert t[..4] != k && t[1..][..4] != k && t[2..][..4] != k;
    assert Replace(t, k, v) == "asp" + Replace(t[3..], k, v);
  }

  /** "ASP.NET" becomes "aspdotnet", not the "aspnet" the docstring lists: the
      ".net" entry comes before the "asp.net" one and fires first. */
  lemma NormalizeAspNet()
    ensures Normalized("ASP.NET") == "aspdotnet"
  {
    assert Lower("ASP.NET") == "asp.net";
    StripOfStripped("asp.net");
    AspNetSkipped("asp.net");
    AspNetFires("asp.net");
    NormalizedFiresAt("ASP.NET", 3, "aspdotnet");
  }

  /** A `[a-z0-9]` string is its own normal form. */
  lemma NormalizedFixesAlnum(u: string)
    requires AllLowerAlnum(u)
    ensures Normalized(u) == u
  {
    if u != "" {
      assert Lower(u) == u;
      StripOfStripped(u);
      UnmarkedTableFixes(u, 0);
    }
  }

  /** `normalize_token` is idempotent: no key other than the identity entries can
      match inside a `[a-z0-9]` string. */
  lemma NormalizedIdempotent(token: string)
    ensures Normalized(Normalized(token)) == Normalized(token)
  {
    NormalizedFixesAlnum(Normalized(token));
  }

  // ---------------------------------------------------------------------------
  // split_csv_list
  // ---------------------------------------------------------------------------

  /** What `split_csv_list` promises of each item: non-empty, stripped, comma-free. */
  predicate CsvItem(item: string) { item != "" && IsStripped(item) && ',' !in item }

  /** `[p.strip() for p in parts if p.strip()]`. */
  function StripNonEmpty(parts: seq<string>): (items: seq<string>)
    ensures |items| <= |parts|
    ensures forall i :: 0 <= i < |items| ==> items[i] != "" && IsStripped(items[i])
  {
    if |parts| == 0 then []
    else
      var p := Strip(parts[0]);
      (if p != "" then [p] else []) + StripNonEmpty(parts[1..])
  }

  /** `split_csv_list(s)`. */
  function SplitCsvList(s: string): (items: seq<string>)
    ensures s == "" ==> items == []
    ensures forall i :: 0 <= i < |items| ==> CsvItem(items[i])
  {
    if s == "" then []
    else
      var parts := Split(s, {','});
      var items := StripNonEmpty(parts);
      StripNonEmptyCommaFree(parts);
      items
  }

  lemma {:induction false} StripNonEmptyCommaFree(parts: seq<string>)
    requires forall i :: 0 <= i < |parts| ==> ',' !in parts[i]
    ensures forall i :: 0 <= i < |StripNonEmpty(parts)| ==> ',' !in StripNonEmpty(parts)[i]
  {
    if |parts| > 0 {
      StripNonEmptyCommaFree(parts[1..]);
      var p := Strip(parts[0]);
      assert forall j :: 0 <= j < |p| ==> p[j] in parts[0];
    }
  }

  /** Stripping and dropping empty pieces loses only whitespace. */
  lemma {:induction false} StripNonEmptyKeepsDrop(parts: seq<string>)
    ensures Drop(Concat(StripNonEmpty(parts)), Whitespace) == Drop(Concat(parts), Whitespace)
  {
    if |parts| > 0 {
      var p := Strip(parts[0]);
      var rest := StripNonEmpty(parts[1..]);
      StripNonEmptyKeepsDrop(parts[1..]);
      StripKeepsDrop(parts[0], Whitespace);
      DropConcat(parts[0], Concat(parts[1..]), Whitespace);
      if p != "" {
        assert Concat([p] + rest) == p + Concat(rest) by {
          assert ([p] + rest)[1..] == rest;
        }
        DropConcat(p, Concat(rest), Whitespace);
      } else {
        assert [] + rest == rest;
      }
    }
  }

  /** `split_csv_list` loses nothing but whitespace and commas: the visible characters
      of the items, in order, are those of the input. */
  lemma SplitCsvListKeepsText(s: string)
    ensures Drop(Concat(SplitCsvList(s)), Whitespace) == Drop(s, {','} + Whitespace)
  {
    if s != "" {
      StripNonEmptyKeepsDrop(Split(s, {','}));
      ConcatSplit(s, ',');
      DropDrop(s, {','}, Whitespace);
    }
  }

  lemma StripPrefixed(pre: string, x: string)
    requires CsvItem(x) && (pre == "" || pre == " ")
    ensures Strip(pre + x) == x
  {
    if pre == "" {
      assert pre + x == x;
      StripOfStripped(x);
    } else {
      StripLeadingSpace(x);
    }
  }

  /** Splitting `pre + ", ".join(items)`, with `pre` empty or one space, gives the items back. */
  lemma {:induction false} SplitJoinedItems(items: seq<string>, pre: string)
    requires forall i :: 0 <= i < |items| ==> CsvItem(items[i])
    requires pre == "" || pre == " "
    ensures StripNonEmpty(Split(pre + Join(items, ", "), {','})) == items
    decreases |items|
  {
    if |items| <= 1 {
      SplitJoinedBase(items, pre);
    } else {
      var rest := items[1..];
      assert items == [items[0]] + rest;
      SplitJoinedItems(rest, " ");
      SplitJoinedStep(items[0], rest, pre);
    }
  }

  lemma SplitJoinedBase(items: seq<string>, pre: string)
    requires |items| <= 1 && forall i :: 0 <= i < |items| ==> CsvItem(items[i])
    requires pre == "" || pre == " "
    ensures StripNonEmpty(Split(pre + Join(items, ", "), {','})) == items
  {
    if |items| == 0 {
      assert pre + "" == pre;
      SplitNone(pre, {','});
    } else {
      var x := items[0];
      SplitNone(pre + x, {','});
      StripPrefixed(pre, x);
      assert StripNonEmpty([pre + x]) == [x] + StripNonEmpty([]);
    }
  }

  lemma SplitJoinedStep(x: string, rest: seq<string>, pre: string)
    requires CsvItem(x) && |rest| > 0 && (pre == "" || pre == " ")
    ensures StripNonEmpty(Split(pre + Join([x] + rest, ", "), {','}))
         == [x] + StripNonEmpty(Split(" " + Join(rest, ", "), {','}))
  {
    var tail := " " + Join(rest, ", ");
    assert ([x] + rest)[1..] == rest;
    assert pre + Join([x] + rest, ", ") == (pre + x) + [','] + tail;
    assert forall i :: 0 <= i < |pre + x| ==> (pre + x)[i] != ',';
    SplitAtFirst(pre + x, ',', tail);
    StripPrefixed(pre, x);
    var parts := [pre + x] + Split(tail, {','});
    assert parts[1..] == Split(tail, {','});
  }

  /** Round trip with the `", ".join(...)` the index uses for skills: items that
      are non-empty, stripped and comma-free come back unchanged. */
  lemma SplitCsvListJoin(items: seq<string>)
    requires forall i :: 0 <= i < |items| ==> CsvItem(items[i])
    ensures SplitCsvList(Join(items, ", ")) == items
  {
    if |items| > 0 {
      SplitJoinedItems(items, "");
      assert "" + Join(items, ", ") == Join(items, ", ");
    }
  }
}
