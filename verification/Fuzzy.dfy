/** Fuzzy find and replace over lines: four ever weaker comparisons, the search
    for the leftmost window at the strongest level, and the replacing loop.
    Strings are sequences of code points. */
module Fuzzy {
  import opened Options

  // ---------- lines ----------

  /** Split at every newline: never empty. */
  function Split(s: string): (r: seq<string>)
    ensures |r| > 0
  {
    if |s| == 0 then [""]
    else
      var rest := Split(s[1..]);
      if s[0] == '\n' then [""] + rest else [[s[0]] + rest[0]] + rest[1..]
  }

  function Join(lines: seq<string>): string {
    if |lines| == 0 then ""
    else if |lines| == 1 then lines[0]
    else lines[0] + "\n" + Join(lines[1..])
  }

  predicate EndsInNewline(s: string) {
    |s| > 0 && s[|s| - 1] == '\n'
  }

  function ToLines(s: string): seq<string> {
    if s == "" then [] else Split(if EndsInNewline(s) then s[..|s| - 1] else s)
  }

  function FromLines(lines: seq<string>, trailing: bool): string {
    if trailing && Join(lines) != "" then Join(lines) + "\n" else Join(lines)
  }

  lemma {:induction false} JoinSplit(s: string)
    ensures Join(Split(s)) == s
  {
    if |s| > 0 {
      JoinSplit(s[1..]);
      var rest := Split(s[1..]);
      if s[0] == '\n' {
        assert ([""] + rest)[1..] == rest;
      } else {
        var lines := [[s[0]] + rest[0]] + rest[1..];
        assert lines[1..] == rest[1..];
      }
    }
  }

  /** Text survives being taken to lines and back, except a lone newline. */
  lemma LinesRoundTrip(s: string)
    ensures FromLines(ToLines(s), EndsInNewline(s)) == s <==> s != "\n"
  {
    hide Split, Join;
    if s == "" {
      assert Join([]) == "" by { JoinNone(); }
    } else {
      JoinSplit(if EndsInNewline(s) then s[..|s| - 1] else s);
    }
  }

  lemma JoinNone()
    ensures Join([]) == ""
  {
  }

  // ---------- the four comparisons ----------

  predicate IsBlank(c: char) {
    c == ' ' || c == '\t'
  }

  /** The white space of Unicode. */
  predicate IsSpace(c: char) {
    var n := c as int;
    (9 <= n <= 13) || n == 32 || n == 0x85 || n == 0xA0 || n == 0x1680 || (0x2000 <= n <= 0x200A)
    || n == 0x2028 || n == 0x2029 || n == 0x202F || n == 0x205F || n == 0x3000
  }

  function TrimRight(s: string, p: char -> bool): string {
    if |s| > 0 && p(s[|s| - 1]) then TrimRight(s[..|s| - 1], p) else s
  }

  function TrimLeft(s: string, p: char -> bool): (r: string)
    ensures |r| <= |s|
  {
    if |s| > 0 && p(s[0]) then TrimLeft(s[1..], p) else s
  }

  /** What is left is the shortest rest before which only such characters stood. */
  lemma {:induction false} TrimLeftIs(s: string, p: char -> bool)
    ensures var r := TrimLeft(s, p);
            && (|r| > 0 ==> !p(r[0]))
            && r == s[|s| - |r|..]
            && (forall i :: 0 <= i < |s| - |r| ==> p(s[i]))
    decreases |s|
  {
    if |s| > 0 && p(s[0]) { TrimLeftIs(s[1..], p); }
  }

  /** Likewise at the right. */
  lemma {:induction false} TrimRightIs(s: string, p: char -> bool)
    ensures var r := TrimRight(s, p);
            && (|r| > 0 ==> !p(r[|r| - 1]))
            && r <= s
            && (forall i :: |r| <= i < |s| ==> p(s[i]))
    decreases |s|
  {
    if |s| > 0 && p(s[|s| - 1]) { TrimRightIs(s[..|s| - 1], p); }
  }

  function TrimSpace(s: string): string {
    TrimLeft(TrimRight(s, IsSpace), IsSpace)
  }

  /** Smart punctuation to ASCII. */
  function NormalizeRune(c: char): string {
    var n := c as int;
    if n in {0x2018, 0x2019, 0x201A, 0x2039, 0x203A} then "'"
    else if n in {0x201C, 0x201D, 0x201E, 0xAB, 0xBB} then "\""
    else if n in {0x2013, 0x2014, 0x2015, 0x2212} then "-"
    else if n in {0xA0, 0x2007, 0x202F} then " "
    else if n == 0x2026 then "..."
    else if n == 0xD7 then "*"
    else if n == 0x2192 then "->"
    else if n == 0x21D2 then "=>"
    else [c]
  }

  function Normalize(s: string): string {
    if |s| == 0 then "" else Normalize(s[..|s| - 1]) + NormalizeRune(s[|s| - 1])
  }

  method NormalizeUnicode(s: string) returns (r: string)
    ensures r == Normalize(s)
  {
    hide NormalizeRune;
    r := "";
    for i := 0 to |s|
      invariant r == Normalize(s[..i])
    {
      assert s[..i + 1][..i] == s[..i];
      r := r + NormalizeRune(s[i]);
    }
    assert s[..|s|] == s;
  }

  const EXACT := 1
  const TRIM_TRAILING := 2
  const TRIM_ALL := 3
  const NORMALIZED := 4

  predicate Same(level: int, a: string, b: string) {
    if level == EXACT then a == b
    else if level == TRIM_TRAILING then TrimRight(a, IsBlank) == TrimRight(b, IsBlank)
    else if level == TRIM_ALL then TrimSpace(a) == TrimSpace(b)
    else Normalize(TrimSpace(a)) == Normalize(TrimSpace(b))
  }

  /** Trimming everything at the right sees no difference after trimming blanks. */
  lemma {:induction false} TrimAfterBlanks(s: string)
    ensures TrimRight(TrimRight(s, IsBlank), IsSpace) == TrimRight(s, IsSpace)
    decreases |s|
  {
    if |s| > 0 && IsBlank(s[|s| - 1]) { TrimAfterBlanks(s[..|s| - 1]); }
  }

  /** The comparisons are nested: what a level accepts, every weaker level
      accepts. */
  lemma Nested(a: string, b: string, level: int, weaker: int)
    requires EXACT <= level <= weaker <= NORMALIZED && Same(level, a, b)
    ensures Same(weaker, a, b)
  {
    hide Normalize, TrimLeft, TrimRight, IsSpace, IsBlank;
    TrimAfterBlanks(a);
    TrimAfterBlanks(b);
  }

  // ---------- searching ----------

  /** The needle matches the window at `start`. */
  predicate MatchesAt(level: int, hay: seq<string>, needle: seq<string>, start: nat) {
    start + |needle| <= |hay| && forall i :: 0 <= i < |needle| ==> Same(level, hay[start + i], needle[i])
  }

  method FindWith(level: int, hay: seq<string>, needle: seq<string>) returns (r: Option<nat>)
    requires |needle| <= |hay|
    ensures r.Some? ==> MatchesAt(level, hay, needle, r.value)
    ensures r.Some? ==> forall k :: 0 <= k < r.value ==> !MatchesAt(level, hay, needle, k)
    ensures r.None? ==> forall k: nat :: !MatchesAt(level, hay, needle, k)
  {
    hide Same;
    for start := 0 to |hay| - |needle| + 1
      invariant forall k :: 0 <= k < start ==> !MatchesAt(level, hay, needle, k)
    {
      var matches := true;
      var i := 0;
      while i < |needle|
        invariant 0 <= i <= |needle|
        invariant matches <==> forall j :: 0 <= j < i ==> Same(level, hay[start + j], needle[j])
      {
        if !Same(level, hay[start + i], needle[i]) {
          matches := false;
          break;
        }
        i := i + 1;
      }
      if matches {
        return Some(start);
      }
    }
    return None;
  }

  datatype Found = Found(start: nat, level: int)

  /** The strongest level at which any window matches, and the leftmost window
      at that level. */
  ghost predicate BestMatch(hay: seq<string>, needle: seq<string>, f: Found) {
    && EXACT <= f.level <= NORMALIZED && MatchesAt(f.level, hay, needle, f.start)
    && (forall k :: 0 <= k < f.start ==> !MatchesAt(f.level, hay, needle, k))
    && (forall level, k: nat :: EXACT <= level < f.level ==> !MatchesAt(level, hay, needle, k))
  }

  ghost predicate NoMatch(hay: seq<string>, needle: seq<string>) {
    |needle| == 0 || forall level, k: nat :: EXACT <= level <= NORMALIZED ==> !MatchesAt(level, hay, needle, k)
  }

  /** The search is exact: it fails only if nothing matches at any level. */
  method FindLines(hay: seq<string>, needle: seq<string>) returns (r: Option<Found>)
    ensures r.Some? ==> |needle| > 0 && BestMatch(hay, needle, r.value)
    ensures r.None? ==> NoMatch(hay, needle)
  {
    hide Same;
    if |needle| == 0 || |needle| > |hay| {
      return None;
    }
    for level := EXACT to NORMALIZED + 1
      invariant forall l, k: nat :: EXACT <= l < level ==> !MatchesAt(l, hay, needle, k)
    {
      var pos := FindWith(level, hay, needle);
      if pos.Some? {
        return Some(Found(pos.value, level));
      }
    }
    return None;
  }

  /** There is only one best match. */
  lemma BestUnique(hay: seq<string>, needle: seq<string>, f: Found, g: Found)
    requires BestMatch(hay, needle, f) && BestMatch(hay, needle, g)
    ensures f == g
  {
    hide MatchesAt;
  }

  lemma MatchWeakens(level: int, hay: seq<string>, needle: seq<string>, k: nat)
    requires EXACT <= level <= NORMALIZED && MatchesAt(level, hay, needle, k)
    ensures MatchesAt(NORMALIZED, hay, needle, k)
  {
    hide Same;
    forall i | 0 <= i < |needle| ensures Same(NORMALIZED, hay[k + i], needle[i]) {
      Nested(hay[k + i], needle[i], level, NORMALIZED);
    }
  }

  /** Failing at the weakest level is failing at all. */
  lemma WeakestDecides(hay: seq<string>, needle: seq<string>)
    requires |needle| > 0
    ensures NoMatch(hay, needle) <==> forall k: nat :: !MatchesAt(NORMALIZED, hay, needle, k)
  {
    hide MatchesAt;
    forall level, k: nat | EXACT <= level <= NORMALIZED && MatchesAt(level, hay, needle, k)
      ensures MatchesAt(NORMALIZED, hay, needle, k)
    {
      MatchWeakens(level, hay, needle, k);
    }
  }

  // ---------- indentation ----------

  function DetectIndent(line: string): string {
    line[..|line| - |TrimLeft(line, IsBlank)|]
  }

  function IndentedLine(line: string, replBase: string, base: string): string {
    var trimmed := TrimLeft(line, IsBlank);
    if trimmed == "" then ""
    else
      var indent := DetectIndent(line);
      base + (if |indent| > |replBase| then indent[|replBase|..] else "") + trimmed
  }

  function Indented(lines: seq<string>, base: string): (r: seq<string>)
    ensures |r| == |lines|
  {
    if |lines| == 0 then []
    else
      var replBase := DetectIndent(lines[0]);
      seq(|lines|, i requires 0 <= i < |lines| => IndentedLine(lines[i], replBase, base))
  }

  method ApplyIndent(text: string, base: string) returns (out: seq<string>)
    ensures out == Indented(ToLines(text), base)
  {
    hide IndentedLine, ToLines;
    var lines := ToLines(text);
    if |lines| == 0 {
      return [];
    }
    var replBase := DetectIndent(lines[0]);
    out := [];
    for i := 0 to |lines|
      invariant out == Indented(lines, base)[..i]
    {
      out := out + [IndentedLine(lines[i], replBase, base)];
    }
  }

  predicate Blanks(s: string) {
    forall i :: 0 <= i < |s| ==> IsBlank(s[i])
  }

  lemma {:induction false} TrimRightJoin(a: string, s: string)
    requires Blanks(a)
    ensures TrimRight(a + s, IsSpace)
            == if TrimRight(s, IsSpace) == "" then TrimRight(a, IsSpace) else a + TrimRight(s, IsSpace)
    decreases |s|
  {
    if |s| == 0 {
      assert a + s == a;
    } else {
      assert (a + s)[|a + s| - 1] == s[|s| - 1];
      if IsSpace(s[|s| - 1]) {
        assert (a + s)[..|a + s| - 1] == a + s[..|s| - 1];
        TrimRightJoin(a, s[..|s| - 1]);
      }
    }
  }

  lemma {:induction false} BlanksTrimAway(a: string)
    requires Blanks(a)
    ensures TrimRight(a, IsSpace) == ""
    decreases |a|
  {
    if |a| > 0 { BlanksTrimAway(a[..|a| - 1]); }
  }

  lemma {:induction false} TrimLeftJoin(a: string, s: string)
    requires Blanks(a)
    ensures TrimLeft(a + s, IsSpace) == TrimLeft(s, IsSpace)
    decreases |a|
  {
    if |a| == 0 {
      assert a + s == s;
    } else {
      assert (a + s)[1..] == a[1..] + s;
      TrimLeftJoin(a[1..], s);
    }
  }

  /** Leading blanks do not matter to a full trim. */
  lemma BlankPrefix(a: string, s: string)
    requires Blanks(a)
    ensures TrimSpace(a + s) == TrimSpace(s)
  {
    TrimRightJoin(a, s);
    BlanksTrimAway(a);
    hide TrimLeft, TrimRight;
    if TrimRight(s, IsSpace) != "" { TrimLeftJoin(a, TrimRight(s, IsSpace)); }
  }

  /** Re-indenting does not change a line as far as the weak comparisons go. */
  lemma IndentInvisible(line: string, replBase: string, base: string)
    requires Blanks(base)
    ensures TrimSpace(IndentedLine(line, replBase, base)) == TrimSpace(line)
  {
    var trimmed := TrimLeft(line, IsBlank);
    var indent := DetectIndent(line);
    IndentIsBlank(line);
    TrimLeftIs(line, IsBlank);
    assert line == indent + trimmed;
    hide TrimLeft, TrimSpace, TrimRight, DetectIndent;
    BlankPrefix(indent, trimmed);
    if trimmed == "" {
      assert TrimSpace(line) == TrimSpace("");
    } else {
      var relative := if |indent| > |replBase| then indent[|replBase|..] else "";
      assert Blanks(base + relative);
      hide Blanks;
      BlankPrefix(base + relative, trimmed);
      assert IndentedLine(line, replBase, base) == base + relative + trimmed;
    }
  }

  lemma IndentIsBlank(line: string)
    ensures Blanks(DetectIndent(line))
  {
    TrimLeftIs(line, IsBlank);
  }
}
