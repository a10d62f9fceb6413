/** What the comparisons and the re-indenting of the fuzzy edit come to, said by what
    the lines are made of. */
module FuzzyLevels {
  import opened Fuzzy
  import opened FuzzyReplace

  // ---------- characters ----------

  /** The white space of Unicode. */
  const SPACES: set<int> := {
    0x09, 0x0A, 0x0B, 0x0C, 0x0D, 0x20, 0x85, 0xA0, 0x1680, 0x2000, 0x2001, 0x2002, 0x2003, 0x2004, 0x2005, 0x2006,
    0x2007, 0x2008, 0x2009, 0x200A, 0x2028, 0x2029, 0x202F, 0x205F, 0x3000
  }

  /** The punctuation that is written differently in ASCII, with what it becomes. */
  const PUNCTUATION: map<int, string> := map[
    0x2018 := "'", 0x2019 := "'", 0x201A := "'", 0x2039 := "'", 0x203A := "'",
    0x201C := "\"", 0x201D := "\"", 0x201E := "\"", 0xAB := "\"", 0xBB := "\"",
    0x2013 := "-", 0x2014 := "-", 0x2015 := "-", 0x2212 := "-",
    0xA0 := " ", 0x2007 := " ", 0x202F := " ",
    0x2026 := "...", 0xD7 := "*", 0x2192 := "->", 0x21D2 := "=>"
  ]

  lemma SpaceIs(c: char)
    ensures IsSpace(c) <==> c as int in SPACES
    ensures IsBlank(c) <==> c as int in {0x09, 0x20}
  {
  }

  lemma RuneIs(c: char)
    ensures NormalizeRune(c) == if c as int in PUNCTUATION then PUNCTUATION[c as int] else [c]
  {
  }

  /** Normalising works character by character. */
  lemma {:induction false} NormalizeJoin(a: string, b: string)
    ensures Normalize(a + b) == Normalize(a) + Normalize(b)
    ensures forall c :: Normalize([c]) == NormalizeRune(c)
    decreases |b|
  {
    hide NormalizeRune;
    forall c ensures Normalize([c]) == NormalizeRune(c) {
      assert [c][..0] == "";
    }
    if |b| == 0 {
      assert a + b == a;
    } else {
      assert (a + b)[..|a + b| - 1] == a + b[..|b| - 1];
      NormalizeJoin(a, b[..|b| - 1]);
    }
  }

  // ---------- trimming ----------

  predicate AllOf(s: string, p: char -> bool) {
    forall i :: 0 <= i < |s| ==> p(s[i])
  }

  lemma {:induction false} TrimRightOf(c: string, x: string, p: char -> bool)
    requires AllOf(x, p)
    ensures TrimRight(c + x, p) == TrimRight(c, p)
    decreases |x|
  {
    if |x| == 0 {
      assert c + x == c;
    } else {
      assert (c + x)[|c + x| - 1] == x[|x| - 1];
      assert (c + x)[..|c + x| - 1] == c + x[..|x| - 1];
      TrimRightOf(c, x[..|x| - 1], p);
    }
  }

  lemma {:induction false} TrimLeftOf(x: string, c: string, p: char -> bool)
    requires AllOf(x, p)
    ensures TrimLeft(x + c, p) == TrimLeft(c, p)
    decreases |x|
  {
    if |x| == 0 {
      assert x + c == c;
    } else {
      assert (x + c)[1..] == x[1..] + c;
      TrimLeftOf(x[1..], c, p);
    }
  }

  /** No space at either end. */
  predicate Tight(c: string) {
    |c| > 0 ==> !IsSpace(c[0]) && !IsSpace(c[|c| - 1])
  }

  /** `s` is `c` with nothing but white space around it. */
  ghost predicate Core(s: string, c: string) {
    Tight(c) && exists x, y :: s == x + c + y && AllOf(x, IsSpace) && AllOf(y, IsSpace)
  }

  lemma CoreIs(s: string, c: string)
    ensures Core(s, c) <==> c == TrimSpace(s)
  {
    TrimHasCore(s);
    if Core(s, c) {
      var x, y :| s == x + c + y && AllOf(x, IsSpace) && AllOf(y, IsSpace);
      CoreTrimmed(x, c, y);
    }
  }

  lemma TrimHasCore(s: string)
    ensures Core(s, TrimSpace(s))
  {
    var r, y := RightParts(s);
    var x, c := LeftParts(r);
    hide TrimRight, TrimLeft, IsSpace, AllOf;
    if |c| > 0 { assert c[|c| - 1] == r[|r| - 1] by { LastOfTail(x, c, r); } }
  }

  lemma RightParts(s: string) returns (r: string, y: string)
    ensures r == TrimRight(s, IsSpace) && s == r + y && AllOf(y, IsSpace) && (|r| > 0 ==> !IsSpace(r[|r| - 1]))
  {
    TrimRightIs(s, IsSpace);
    r := TrimRight(s, IsSpace);
    hide TrimRight, IsSpace;
    y := s[|r|..];
  }

  lemma LeftParts(r: string) returns (x: string, c: string)
    ensures c == TrimLeft(r, IsSpace) && r == x + c && AllOf(x, IsSpace) && (|c| > 0 ==> !IsSpace(c[0]))
  {
    TrimLeftIs(r, IsSpace);
    c := TrimLeft(r, IsSpace);
    hide TrimLeft, IsSpace;
    x := r[..|r| - |c|];
  }

  lemma LastOfTail(x: string, c: string, r: string)
    requires r == x + c && |c| > 0
    ensures |r| > 0 && c[|c| - 1] == r[|r| - 1]
  {
  }

  lemma CoreTrimmed(x: string, c: string, y: string)
    requires Tight(c) && AllOf(x, IsSpace) && AllOf(y, IsSpace)
    ensures TrimSpace(x + c + y) == c
  {
    TrimRightOf(x + c, y, IsSpace);
    if |c| == 0 {
      assert x + c == x && "" + x == x;
      TrimRightOf("", x, IsSpace);
    } else {
      assert (x + c)[|x + c| - 1] == c[|c| - 1];
      TrimLeftOf(x, c, IsSpace);
    }
  }

  // ---------- the four levels ----------

  /** Exact: the same line.  Then: the same up to blanks at the end; the same up to
      white space around it; and the same once what stands within that is normalised. */
  lemma LevelsAre(a: string, b: string)
    ensures Same(EXACT, a, b) <==> a == b
    ensures Same(TRIM_TRAILING, a, b)
            <==> exists c, x, y :: a == c + x && b == c + y && AllOf(x, IsBlank) && AllOf(y, IsBlank)
    ensures Same(TRIM_ALL, a, b) <==> exists c :: Core(a, c) && Core(b, c)
    ensures Same(NORMALIZED, a, b) <==> exists c, d :: Core(a, c) && Core(b, d) && Normalize(c) == Normalize(d)
  {
    TrailingIs(a, b);
    hide Core, TrimRight, TrimSpace, Normalize;
    forall c ensures Core(a, c) <==> c == TrimSpace(a) {
      CoreIs(a, c);
    }
    forall c ensures Core(b, c) <==> c == TrimSpace(b) {
      CoreIs(b, c);
    }
    assert Core(a, TrimSpace(a)) && Core(b, TrimSpace(b));
  }

  lemma TrailingIs(a: string, b: string)
    ensures TrimRight(a, IsBlank) == TrimRight(b, IsBlank)
            <==> exists c, x, y :: a == c + x && b == c + y && AllOf(x, IsBlank) && AllOf(y, IsBlank)
  {
    TrimRightIs(a, IsBlank);
    TrimRightIs(b, IsBlank);
    if TrimRight(a, IsBlank) == TrimRight(b, IsBlank) {
      var c := TrimRight(a, IsBlank);
      hide TrimRight, IsBlank;
      assert a == c + a[|c|..] && b == c + b[|c|..] && AllOf(a[|c|..], IsBlank) && AllOf(b[|c|..], IsBlank);
    } else if c, x, y :| a == c + x && b == c + y && AllOf(x, IsBlank) && AllOf(y, IsBlank) {
      TrimRightOf(c, x, IsBlank);
      TrimRightOf(c, y, IsBlank);
    }
  }

  // ---------- indentation ----------

  /** `line` is `indent` and then text that does not begin with a blank. */
  predicate IndentedBy(line: string, indent: string, text: string) {
    line == indent + text && AllOf(indent, IsBlank) && (|text| > 0 ==> !IsBlank(text[0]))
  }

  lemma IndentIs(line: string, indent: string, text: string)
    ensures IndentedBy(line, indent, text) <==> indent == DetectIndent(line) && text == TrimLeft(line, IsBlank)
  {
    TrimLeftIs(line, IsBlank);
    if IndentedBy(line, indent, text) {
      TrimLeftOf(indent, text, IsBlank);
      TrimLeftIs(text, IsBlank);
      assert TrimLeft(text, IsBlank) == text;
    }
  }

  /** Re-indenting: blank lines become empty; every other line keeps its text, behind
      the new base and what its indent had beyond that of the first line.  So the first
      line, if it is not blank, begins with exactly the new base, and lines indented
      deeper than it stay as much deeper, with the same blanks. */
  lemma IndentMoved(lines: seq<string>, base: string, k: nat, first: string, indent: string, text: string)
    requires k < |lines| && AllOf(base, IsBlank) && first == DetectIndent(lines[0])
             && IndentedBy(lines[k], indent, text)
    ensures var out := Indented(lines, base);
            && |out| == |lines|
            && (text == "" ==> out[k] == "")
            && (text != "" ==> IndentedBy(out[k], base + (if |indent| > |first| then indent[|first|..] else ""), text))
            && (text != "" && k == 0 ==> IndentedBy(out[0], base, text))
            && (forall more :: text != "" && indent == first + more ==> IndentedBy(out[k], base + more, text))
  {
    IndentIs(lines[k], indent, text);
    var out := Indented(lines, base);
    var more := if |indent| > |first| then indent[|first|..] else "";
    assert out[k] == if text == "" then "" else base + more + text;
    hide DetectIndent, Indented, TrimLeft;
    if k == 0 { assert base + more == base; }
    forall deeper | indent == first + deeper ensures more == deeper {
      assert indent[|first|..] == deeper;
    }
  }

  // ---------- what a replacement leaves alone ----------

  /** Line by line: before the window nothing changes, in its place stand the lines put
      in, after it all follows in order. */
  lemma SplicedAt(e: Edit, hay: seq<string>, f: Found, k: nat)
    requires f.start + |e.needle| <= |hay| && f.start < |hay| && k < |Spliced(e, hay, f)|
    ensures var out, put, s, m := Spliced(e, hay, f), SpliceIn(e, hay, f), f.start, |e.needle|;
            && |out| == |hay| - m + |put| && |put| == |ToLines(e.text)|
            && (k < s ==> out[k] == hay[k])
            && (s <= k < s + |put| ==> out[k] == put[k - s])
            && (s + |put| <= k ==> out[k] == hay[k - |put| + m])
            && (f.level in {EXACT, TRIM_TRAILING} ==> put == ToLines(e.text))
            && (f.level in {TRIM_ALL, NORMALIZED} ==> put == Indented(ToLines(e.text), DetectIndent(hay[s])))
  {
    hide ToLines, Indented, DetectIndent;
  }

  /** What a call edits: the lines of the old text are looked for and the new text put
      in, and the final newline is that of the content. */
  lemma CallIs(content: string, oldText: string, newText: string)
    ensures var e := EditOf(content, oldText, newText);
            && e.needle == ToLines(oldText) && e.text == newText
            && (e.trailing <==> |content| > 0 && content[|content| - 1] == '\n')
  {
    hide ToLines;
  }

  /** One replacement, in the text: the best match of the old lines is where the new ones
      go, and the lines are joined again. */
  lemma ReplacementIs(content: string, oldText: string, newText: string, current: string, f: Found, next: string)
    requires Replaces(EditOf(content, oldText, newText), current, f, next)
    ensures var e, hay := EditOf(content, oldText, newText), ToLines(current);
            && ToLines(oldText) != [] && BestMatch(hay, ToLines(oldText), f)
            && f.start < |hay| && f.start + |ToLines(oldText)| <= |hay|
            && next == FromLines(Spliced(e, hay, f), |content| > 0 && content[|content| - 1] == '\n')
  {
    BestFits(ToLines(current), ToLines(oldText), f);
    hide ToLines, FromLines, Spliced, BestMatch;
  }
}
