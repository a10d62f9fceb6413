/** The replacing loop: what it does to the text, when it ends, and when it
    does not. */
module FuzzyReplace {
  import opened Fuzzy

  // ---------- text and lines ----------

  predicate Unbroken(line: string) {
    forall i :: 0 <= i < |line| ==> line[i] != '\n'
  }

  predicate AllUnbroken(lines: seq<string>) {
    forall i :: 0 <= i < |lines| ==> Unbroken(lines[i])
  }

  lemma {:induction false} SplitUnbroken(s: string)
    ensures AllUnbroken(Split(s))
  {
    if |s| > 0 { SplitUnbroken(s[1..]); }
  }

  lemma ToLinesUnbroken(s: string)
    ensures AllUnbroken(ToLines(s))
  {
    hide Split, AllUnbroken;
    assert AllUnbroken([]) by { NoneUnbroken(); }
    if s != "" { SplitUnbroken(if EndsInNewline(s) then s[..|s| - 1] else s); }
  }

  lemma NoneUnbroken()
    ensures AllUnbroken([])
  {
  }

  lemma {:induction false} SplitLine(line: string, rest: string)
    requires Unbroken(line)
    ensures Split(line + "\n" + rest) == [line] + Split(rest)
    decreases |line|
  {
    if |line| == 0 {
      assert line + "\n" + rest == "\n" + rest;
      assert ("\n" + rest)[1..] == rest;
    } else {
      var s := line + "\n" + rest;
      assert s[1..] == line[1..] + "\n" + rest;
      SplitLine(line[1..], rest);
      assert [line[0]] + line[1..] == line;
    }
  }

  lemma {:induction false} SplitOne(line: string)
    requires Unbroken(line)
    ensures Split(line) == [line]
  {
    if |line| > 0 {
      SplitOne(line[1..]);
      assert [line[0]] + line[1..] == line;
    }
  }

  lemma {:induction false} SplitJoin(lines: seq<string>)
    requires |lines| > 0 && AllUnbroken(lines)
    ensures Split(Join(lines)) == lines
    decreases |lines|
  {
    hide Split;
    if |lines| == 1 {
      SplitOne(lines[0]);
    } else {
      SplitJoin(lines[1..]);
      SplitLine(lines[0], Join(lines[1..]));
      assert lines == [lines[0]] + lines[1..];
    }
  }

  /** Lines read back from text they were written to: all of them, except that
      a last empty line is lost when nothing marks it. */
  function Reread(lines: seq<string>, trailing: bool): seq<string> {
    if |lines| > 0 && lines[|lines| - 1] == "" && (!trailing || |lines| == 1) then lines[..|lines| - 1] else lines
  }

  lemma {:induction false} JoinEmptyEnd(lines: seq<string>)
    requires |lines| > 1 && AllUnbroken(lines)
    ensures Join(lines) != ""
    ensures EndsInNewline(Join(lines)) <==> lines[|lines| - 1] == ""
    ensures lines[|lines| - 1] == "" ==> Join(lines) == Join(lines[..|lines| - 1]) + "\n"
    decreases |lines|
  {
    var n := |lines| - 1;
    var rest := Join(lines[1..]);
    assert Join(lines) == lines[0] + "\n" + rest;
    if n == 1 {
      assert rest == lines[1] && Unbroken(lines[1]);
      assert Join(lines[..1]) == lines[0];
      if lines[1] == "" { assert lines[0] + "\n" + "" == lines[0] + "\n"; }
    } else {
      JoinEmptyEnd(lines[1..]);
      assert lines[1..][..n - 1] == lines[..n][1..];
      assert Join(lines[..n]) == lines[0] + "\n" + Join(lines[..n][1..]);
      if lines[n] == "" {
        var most := Join(lines[1..][..n - 1]);
        assert lines[0] + "\n" + (most + "\n") == lines[0] + "\n" + most + "\n";
      }
    }
  }

  lemma WrittenAndReread(lines: seq<string>, trailing: bool)
    requires AllUnbroken(lines)
    ensures ToLines(FromLines(lines, trailing)) == Reread(lines, trailing)
  {
    var n := |lines| - 1;
    if |lines| == 0 {
      JoinNone();
    } else if |lines| == 1 {
      RereadOne(lines[0], trailing);
      assert lines == [lines[0]];
    } else {
      hide Split, Join;
      JoinEmptyEnd(lines);
      SplitJoin(lines);
      var text := Join(lines);
      if trailing {
        assert (text + "\n")[..|text|] == text;
      } else if lines[n] == "" {
        assert text[..|text| - 1] == Join(lines[..n]);
        SplitJoin(lines[..n]);
      }
    }
  }

  lemma RereadOne(line: string, trailing: bool)
    requires Unbroken(line)
    ensures ToLines(FromLines([line], trailing)) == if line == "" then [] else [line]
  {
    SplitOne(line);
    hide Split;
    assert Join([line]) == line;
    if line != "" && trailing { assert (line + "\n")[..|line|] == line; }
  }

  /** Text that does not end in a newline has a last line that is not empty. */
  lemma LastNotEmpty(content: string)
    ensures content != "" && !EndsInNewline(content) ==>
              |ToLines(content)| > 0 && ToLines(content)[|ToLines(content)| - 1] != ""
    ensures content == "" ==> ToLines(content) == []
  {
    if content != "" && !EndsInNewline(content) { SplitLast(content); }
  }

  lemma {:induction false} SplitLast(s: string)
    ensures Split(s)[|Split(s)| - 1] == "" <==> s == "" || EndsInNewline(s)
    decreases |s|
  {
    if |s| > 0 { SplitLast(s[1..]); }
  }

  // ---------- one replacement ----------

  /** The fixed data of one call. */
  datatype Edit = Edit(needle: seq<string>, text: string, trailing: bool)

  /** The lines put in place of the window found. */
  function SpliceIn(e: Edit, hay: seq<string>, f: Found): seq<string>
    requires f.start < |hay|
  {
    if f.level >= TRIM_ALL then Indented(ToLines(e.text), DetectIndent(hay[f.start])) else ToLines(e.text)
  }

  /** Everything outside the window as it was. */
  function Spliced(e: Edit, hay: seq<string>, f: Found): seq<string>
    requires f.start < |hay| && f.start + |e.needle| <= |hay|
  {
    hay[..f.start] + SpliceIn(e, hay, f) + hay[f.start + |e.needle|..]
  }

  /** `next` is the text after replacing the best match in `current`. */
  ghost predicate Replaces(e: Edit, current: string, f: Found, next: string) {
    var hay := ToLines(current);
    && |e.needle| > 0 && BestMatch(hay, e.needle, f)
    && next == FromLines(Spliced(e, hay, f), e.trailing)
  }

  ghost predicate Stuck(e: Edit, current: string) {
    NoMatch(ToLines(current), e.needle)
  }

  /** A chain of replacements: texts and the matches replaced. */
  ghost predicate Chain(e: Edit, texts: seq<string>, founds: seq<Found>) {
    && |texts| == |founds| + 1
    && forall i :: 0 <= i < |founds| ==> Replaces(e, texts[i], founds[i], texts[i + 1])
  }

  function Worst(founds: seq<Found>): int {
    if |founds| == 0 then EXACT
    else if founds[|founds| - 1].level > Worst(founds[..|founds| - 1]) then founds[|founds| - 1].level
    else Worst(founds[..|founds| - 1])
  }

  function EditOf(content: string, oldText: string, newText: string): Edit {
    Edit(ToLines(oldText), newText, EndsInNewline(content))
  }

  datatype LoopResult = Replaced(text: string, level: int, reps: nat) | NothingFound | StillRunning

  /** The result is where a chain of best-match replacements from `content`
      leads, with the worst level on the way, and the loop stopped because the
      count was reached, because nothing matches any more at any level, or
      because of the limit. */
  ghost predicate Explains(e: Edit, content: string, count: nat, limit: nat, r: LoopResult, texts: seq<string>,
      founds: seq<Found>) {
    && Chain(e, texts, founds) && texts[0] == content
    && match r
       case Replaced(text, level, reps) =>
         && reps == |founds| > 0 && text == texts[reps] && level == Worst(founds)
         && (count > 0 ==> reps <= count)
         && ((count > 0 && reps == count) || Stuck(e, text))
       case NothingFound => |founds| == 0 && Stuck(e, content)
       case StillRunning => |founds| == limit && (count > 0 ==> limit < count)
  }

  ghost predicate Explained(e: Edit, content: string, count: nat, limit: nat, r: LoopResult) {
    exists texts, founds :: Explains(e, content, count, limit, r, texts, founds)
  }

  /** The loop, cut off after `limit` replacements. */
  method ReplaceLoop(content: string, oldText: string, newText: string, count: nat, limit: nat)
    returns (r: LoopResult)
    ensures Explained(EditOf(content, oldText, newText), content, count, limit, r)
  {
    hide BestMatch, NoMatch, Spliced, FromLines, ToLines, Worst;
    var current := content;
    var trailing := EndsInNewline(content);
    var worst := EXACT;
    var reps := 0;
    var needle := ToLines(oldText);
    ghost var e := EditOf(content, oldText, newText);
    assert e == Edit(needle, newText, trailing);
    ghost var texts: seq<string>, founds: seq<Found> := [content], [];
    WorstNone();
    while true
      invariant reps == |founds| <= limit && |texts| == reps + 1 && worst == Worst(founds)
      invariant count > 0 ==> reps <= count
      invariant Chain(e, texts, founds) && texts[0] == content && texts[reps] == current
      decreases limit - reps
    {
      if count > 0 && reps >= count {
        break;
      }
      var hay := ToLines(current);
      var found := FindLines(hay, needle);
      if found.None? {
        break;
      }
      if reps == limit {
        assert Explains(e, content, count, limit, StillRunning, texts, founds);
        return StillRunning;
      }
      var f := found.value;
      BestFits(hay, needle, f);
      if f.level > worst {
        worst := f.level;
      }
      var spliceIn;
      if f.level >= TRIM_ALL {
        spliceIn := ApplyIndent(newText, DetectIndent(hay[f.start]));
      } else {
        spliceIn := ToLines(newText);
      }
      var lines := hay[..f.start] + spliceIn + hay[f.start + |needle|..];
      assert lines == Spliced(e, hay, f) by { SplicedIs(e, hay, f); }
      current := FromLines(lines, trailing);
      reps := reps + 1;
      WorstMore(founds, f);
      texts, founds := texts + [current], founds + [f];
    }
    if reps == 0 {
      r := NothingFound;
    } else {
      r := Replaced(current, worst, reps);
    }
    assert Explains(e, content, count, limit, r, texts, founds);
  }

  lemma BestFits(hay: seq<string>, needle: seq<string>, f: Found)
    requires |needle| > 0 && BestMatch(hay, needle, f)
    ensures f.start < |hay| && f.start + |needle| <= |hay|
  {
  }

  lemma SplicedIs(e: Edit, hay: seq<string>, f: Found)
    requires f.start < |hay| && f.start + |e.needle| <= |hay|
    ensures Spliced(e, hay, f) == hay[..f.start] + SpliceIn(e, hay, f) + hay[f.start + |e.needle|..]
  {
  }

  lemma WorstNone()
    ensures Worst([]) == EXACT
  {
  }

  lemma WorstMore(founds: seq<Found>, f: Found)
    ensures Worst(founds + [f]) == if f.level > Worst(founds) then f.level else Worst(founds)
  {
    assert (founds + [f])[..|founds|] == founds;
  }

  /** The reported level is the worst one used. */
  lemma {:induction false} WorstIsMaximum(founds: seq<Found>)
    ensures forall i :: 0 <= i < |founds| ==> founds[i].level <= Worst(founds)
    ensures Worst(founds) == EXACT || exists i :: 0 <= i < |founds| && founds[i].level == Worst(founds)
  {
    if |founds| > 0 {
      var n := |founds| - 1;
      WorstIsMaximum(founds[..n]);
      if founds[n].level <= Worst(founds[..n]) && Worst(founds) != EXACT {
        var i :| 0 <= i < n && founds[..n][i].level == Worst(founds[..n]);
        assert founds[i].level == Worst(founds);
      }
    }
  }

  // ---------- what one replacement does to the lines ----------

  lemma ReplacesLines(e: Edit, current: string, f: Found, next: string)
    requires Replaces(e, current, f, next)
    ensures f.start < |ToLines(current)| && f.start + |e.needle| <= |ToLines(current)|
    ensures ToLines(next) == Reread(Spliced(e, ToLines(current), f), e.trailing)
  {
    var hay := ToLines(current);
    BestFits(hay, e.needle, f);
    hide ToLines, BestMatch, Reread, FromLines;
    ToLinesUnbroken(current);
    ToLinesUnbroken(e.text);
    IndentIsBlank(hay[f.start]);
    IndentedUnbroken(ToLines(e.text), DetectIndent(hay[f.start]));
    assert AllUnbroken(Spliced(e, hay, f));
    WrittenAndReread(Spliced(e, hay, f), e.trailing);
  }

  lemma IndentedUnbroken(lines: seq<string>, base: string)
    requires AllUnbroken(lines) && Blanks(base)
    ensures AllUnbroken(Indented(lines, base))
  {
    forall i | 0 <= i < |lines| ensures Unbroken(Indented(lines, base)[i]) {
      assert Unbroken(lines[i]);
      IndentedLineUnbroken(lines[i], DetectIndent(lines[0]), base);
    }
  }

  lemma IndentedLineUnbroken(line: string, replBase: string, base: string)
    requires Unbroken(line) && Blanks(base)
    ensures Unbroken(IndentedLine(line, replBase, base))
  {
    var trimmed := TrimLeft(line, IsBlank);
    var indent := DetectIndent(line);
    TrimLeftIs(line, IsBlank);
    hide TrimLeft;
    var relative := if |indent| > |replBase| then indent[|replBase|..] else "";
    assert Unbroken(trimmed) && Unbroken(relative) && Unbroken(base);
  }

  /** Lines outside the window are unchanged by a replacement, with the one
      exception of a last empty line that nothing in the text marks. */
  lemma OutsideUnchanged(e: Edit, current: string, f: Found, next: string)
    requires Replaces(e, current, f, next)
    ensures var hay, after := ToLines(current), ToLines(next);
            var out := Spliced(e, hay, f);
            && (after == out <==> !(|out| > 0 && out[|out| - 1] == "" && (!e.trailing || |out| == 1)))
            && (after == out || (|after| == |out| - 1 && after <= out && out[|out| - 1] == ""))
  {
    ReplacesLines(e, current, f, next);
  }

  /** The exception is real: the text "a\n\n" came from lines that ended in
      nothing, and its empty line does not survive a change elsewhere. */
  lemma LastLineLost()
    ensures var e := Edit(["a"], "x", false);
            var current := "a\n\n";
            && ToLines(current) == ["a", ""]
            && Replaces(e, current, Found(0, EXACT), "x\n") && ToLines("x\n") == ["x"]
  {
    var e := Edit(["a"], "x", false);
    var current := "a\n\n";
    var hay := ["a", ""];
    assert current[..2] == "a" + "\n" + "";
    SplitLine("a", "");
    assert ToLines(current) == hay;
    SplitOne("x");
    assert ToLines("x") == ["x"];
    assert "x\n"[..1] == "x";
    assert ToLines("x\n") == ["x"];
    var f := Found(0, EXACT);
    assert MatchesAt(EXACT, hay, ["a"], 0);
    assert BestMatch(hay, ["a"], f);
    assert Spliced(e, hay, f) == ["x", ""];
    assert Join(["x", ""]) == "x" + "\n" + Join([""]);
    assert FromLines(["x", ""], false) == "x\n";
  }

  // ---------- termination with count 0 ----------

  lemma ChainPrefix(e: Edit, texts: seq<string>, founds: seq<Found>)
    requires Chain(e, texts, founds) && |founds| > 0
    ensures var n := |founds| - 1;
            Chain(e, texts[..n + 1], founds[..n]) && Replaces(e, texts[n], founds[n], texts[n + 1])
  {
    hide Replaces;
    var n := |founds| - 1;
    forall i | 0 <= i < n ensures Replaces(e, texts[..n + 1][i], founds[..n][i], texts[..n + 1][i + 1]) {
      assert Replaces(e, texts[i], founds[i], texts[i + 1]);
    }
  }

  /** A replacement with fewer lines than the needle: every step leaves fewer
      lines, so a chain is no longer than the text has lines. */
  lemma {:induction false} ShrinkingEnds(e: Edit, texts: seq<string>, founds: seq<Found>)
    requires Chain(e, texts, founds) && |ToLines(e.text)| < |e.needle|
    ensures |founds| + |ToLines(texts[|founds|])| <= |ToLines(texts[0])|
    decreases |founds|
  {
    hide ToLines, Replaces, Reread, Spliced, SpliceIn;
    if |founds| > 0 {
      var n := |founds| - 1;
      ChainPrefix(e, texts, founds);
      ShrinkingEnds(e, texts[..n + 1], founds[..n]);
      ReplacesLines(e, texts[n], founds[n], texts[n + 1]);
      SplicedSize(e, ToLines(texts[n]), founds[n]);
    }
  }

  lemma SplicedSize(e: Edit, hay: seq<string>, f: Found)
    requires f.start < |hay| && f.start + |e.needle| <= |hay|
    ensures |Reread(Spliced(e, hay, f), e.trailing)| <= |hay| - |e.needle| + |ToLines(e.text)|
  {
  }

  /** How many windows from `lo` up to `hi` match at the weakest level. */
  ghost function Windows(lines: seq<string>, needle: seq<string>, lo: nat, hi: nat): nat
    decreases hi
  {
    if hi <= lo then 0
    else Windows(lines, needle, lo, hi - 1) + if MatchesAt(NORMALIZED, lines, needle, hi - 1) then 1 else 0
  }

  lemma {:induction false} WindowsSplit(lines: seq<string>, needle: seq<string>, lo: nat, mid: nat, hi: nat)
    requires lo <= mid <= hi
    ensures Windows(lines, needle, lo, hi) == Windows(lines, needle, lo, mid) + Windows(lines, needle, mid, hi)
    decreases hi
  {
    hide MatchesAt;
    if mid < hi { WindowsSplit(lines, needle, lo, mid, hi - 1); }
  }

  /** Fewer windows where every window of `a` is one of `b`, `from` lines moved
      to `to`. */
  lemma {:induction false} WindowsMoved(a: seq<string>, b: seq<string>, needle: seq<string>, from: nat, to: nat, n: nat)
    requires forall k :: from <= k < from + n && MatchesAt(NORMALIZED, a, needle, k)
               ==> MatchesAt(NORMALIZED, b, needle, k - from + to)
    ensures Windows(a, needle, from, from + n) <= Windows(b, needle, to, to + n)
    decreases n
  {
    hide MatchesAt;
    if n > 0 { WindowsMoved(a, b, needle, from, to, n - 1); }
  }

  lemma {:induction false} NoWindows(lines: seq<string>, needle: seq<string>, lo: nat, hi: nat)
    requires forall k :: lo <= k < hi ==> !MatchesAt(NORMALIZED, lines, needle, k)
    ensures Windows(lines, needle, lo, hi) == 0
    decreases hi
  {
    hide MatchesAt;
    if lo < hi { NoWindows(lines, needle, lo, hi - 1); }
  }

  lemma {:induction false} WindowsBounded(lines: seq<string>, needle: seq<string>, n: nat)
    ensures Windows(lines, needle, 0, n) <= n
    decreases n
  {
    hide MatchesAt;
    if n > 0 { WindowsBounded(lines, needle, n - 1); }
  }

  /** Laid over the replacement from line `a` on, the needle does not match. */
  predicate Clash(e: Edit, a: int) {
    exists i :: 0 <= i < |ToLines(e.text)| && 0 <= i - a < |e.needle|
                && !Same(NORMALIZED, ToLines(e.text)[i], e.needle[i - a])
  }

  /** Wherever the needle overlaps the replacement, even in part, some line
      differs, however loosely they are compared. */
  predicate Apart(e: Edit) {
    forall a :: -|e.needle| < a < |ToLines(e.text)| ==> Clash(e, a)
  }

  /** The replacement itself holds a match of the needle. */
  ghost predicate Reproduces(e: Edit) {
    exists j: nat :: MatchesAt(NORMALIZED, ToLines(e.text), e.needle, j)
  }

  /** Re-indenting a replacement does not change what its lines match. */
  lemma SpliceMatches(e: Edit, hay: seq<string>, f: Found)
    requires f.start < |hay|
    ensures |SpliceIn(e, hay, f)| == |ToLines(e.text)|
    ensures forall i, line :: 0 <= i < |ToLines(e.text)| ==>
              (Same(NORMALIZED, SpliceIn(e, hay, f)[i], line) <==> Same(NORMALIZED, ToLines(e.text)[i], line))
  {
    var lines := ToLines(e.text);
    hide TrimSpace, ToLines, IndentedLine, Normalize;
    if f.level >= TRIM_ALL && |lines| > 0 {
      var base := DetectIndent(hay[f.start]);
      IndentIsBlank(hay[f.start]);
      forall i | 0 <= i < |lines| ensures TrimSpace(Indented(lines, base)[i]) == TrimSpace(lines[i]) {
        IndentInvisible(lines[i], DetectIndent(lines[0]), base);
      }
    }
  }

  lemma WindowFits(hay: seq<string>, needle: seq<string>, start: nat)
    requires MatchesAt(NORMALIZED, hay, needle, start)
    ensures start + |needle| <= |hay|
  {
  }

  lemma SpliceSize(e: Edit, hay: seq<string>, f: Found)
    requires f.start < |hay|
    ensures |SpliceIn(e, hay, f)| == |ToLines(e.text)|
  {
  }

  /** After the splice no window overlaps what was put in. */
  lemma WindowInside(e: Edit, hay: seq<string>, f: Found, k: nat)
    requires Apart(e) && f.start < |hay| && f.start + |e.needle| <= |hay|
    requires f.start < k + |e.needle| && k < f.start + |SpliceIn(e, hay, f)|
    ensures !MatchesAt(NORMALIZED, Spliced(e, hay, f), e.needle, k)
  {
    hide Same, ToLines, SpliceIn, Spliced, Clash;
    SpliceMatches(e, hay, f);
    SplicedIs(e, hay, f);
    assert Clash(e, k - f.start);
    var i := ClashAt(e, k - f.start);
    var out, put, n := Spliced(e, hay, f), SpliceIn(e, hay, f), i - (k - f.start);
    assert out[f.start + i] == put[i];
    assert !Same(NORMALIZED, out[k + n], e.needle[n]);
  }

  lemma ClashAt(e: Edit, a: int) returns (i: int)
    requires Clash(e, a)
    ensures 0 <= i < |ToLines(e.text)| && 0 <= i - a < |e.needle|
    ensures !Same(NORMALIZED, ToLines(e.text)[i], e.needle[i - a])
  {
    hide Same, ToLines;
    i :| 0 <= i < |ToLines(e.text)| && 0 <= i - a < |e.needle|
         && !Same(NORMALIZED, ToLines(e.text)[i], e.needle[i - a]);
  }

  lemma WindowBefore(e: Edit, hay: seq<string>, f: Found, k: nat)
    requires f.start < |hay| && f.start + |e.needle| <= |hay| && k + |e.needle| <= f.start
    requires MatchesAt(NORMALIZED, Spliced(e, hay, f), e.needle, k)
    ensures MatchesAt(NORMALIZED, hay, e.needle, k)
  {
    hide Same, SpliceIn;
    var out := Spliced(e, hay, f);
    forall i | 0 <= i < |e.needle| ensures Same(NORMALIZED, hay[k + i], e.needle[i]) {
      assert out[k + i] == hay[k + i];
    }
  }

  lemma WindowAfter(e: Edit, hay: seq<string>, f: Found, k: nat)
    requires f.start < |hay| && f.start + |e.needle| <= |hay| && f.start + |SpliceIn(e, hay, f)| <= k
    requires MatchesAt(NORMALIZED, Spliced(e, hay, f), e.needle, k)
    ensures MatchesAt(NORMALIZED, hay, e.needle, k - |SpliceIn(e, hay, f)| + |e.needle|)
  {
    hide Same, SpliceIn;
    var out, to := Spliced(e, hay, f), k - |SpliceIn(e, hay, f)| + |e.needle|;
    forall i | 0 <= i < |e.needle| ensures Same(NORMALIZED, hay[to + i], e.needle[i]) {
      assert Same(NORMALIZED, out[k + i], e.needle[i]);
      assert out[k + i] == hay[to + i];
    }
  }

  /** Putting such lines in place of a window leaves fewer windows. */
  lemma SplicedWindows(e: Edit, hay: seq<string>, f: Found)
    requires |e.needle| > 0 && Apart(e)
    requires f.start < |hay| && MatchesAt(NORMALIZED, hay, e.needle, f.start)
    ensures Windows(Spliced(e, hay, f), e.needle, 0, |Spliced(e, hay, f)|) < Windows(hay, e.needle, 0, |hay|)
  {
    hide *;
    WindowFits(hay, e.needle, f.start);
    SpliceSize(e, hay, f);
    SplicedIs(e, hay, f);
    var needle, out, s, m, r := e.needle, Spliced(e, hay, f), f.start, |e.needle|, |SpliceIn(e, hay, f)|;
    var rest := |hay| - s - m;
    assert |out| == s + r + rest;
    WindowsOutside(e, hay, f);
    WindowsMoved(out, hay, needle, 0, 0, s);
    NoWindows(out, needle, s, s + r);
    WindowsMoved(out, hay, needle, s + r, s + m, rest);
    WindowsSplit(out, needle, 0, s, s + r + rest);
    WindowsSplit(out, needle, s, s + r, s + r + rest);
    WindowsSplit(hay, needle, 0, s, s + m + rest);
    WindowsSplit(hay, needle, s, s + 1, s + m + rest);
    WindowsSplit(hay, needle, s + 1, s + m, s + m + rest);
    OneWindow(hay, needle, s);
  }

  /** The windows after the splice, in three stretches. */
  lemma WindowsOutside(e: Edit, hay: seq<string>, f: Found)
    requires |e.needle| > 0 && Apart(e)
    requires f.start < |hay| && f.start + |e.needle| <= |hay|
    ensures var needle, out, s, m, r := e.needle, Spliced(e, hay, f), f.start, |e.needle|, |SpliceIn(e, hay, f)|;
            && (forall k :: 0 <= k < s && MatchesAt(NORMALIZED, out, needle, k)
                  ==> MatchesAt(NORMALIZED, hay, needle, k))
            && (forall k :: s <= k < s + r ==> !MatchesAt(NORMALIZED, out, needle, k))
            && (forall k :: s + r <= k && MatchesAt(NORMALIZED, out, needle, k)
                  ==> MatchesAt(NORMALIZED, hay, needle, k - r + m))
  {
    hide *;
    SpliceSize(e, hay, f);
    var needle, out, s, m, r := e.needle, Spliced(e, hay, f), f.start, |e.needle|, |SpliceIn(e, hay, f)|;
    forall k | 0 <= k < s && MatchesAt(NORMALIZED, out, needle, k) ensures MatchesAt(NORMALIZED, hay, needle, k) {
      if s < k + m { WindowInside(e, hay, f, k); }
      WindowBefore(e, hay, f, k);
    }
    forall k | s <= k < s + r ensures !MatchesAt(NORMALIZED, out, needle, k) {
      WindowInside(e, hay, f, k);
    }
    forall k | s + r <= k && MatchesAt(NORMALIZED, out, needle, k)
      ensures MatchesAt(NORMALIZED, hay, needle, k - r + m)
    {
      WindowAfter(e, hay, f, k);
    }
  }

  lemma OneWindow(hay: seq<string>, needle: seq<string>, s: nat)
    requires MatchesAt(NORMALIZED, hay, needle, s)
    ensures Windows(hay, needle, s, s + 1) == 1
  {
    hide MatchesAt;
    assert Windows(hay, needle, s, s) == 0;
  }

  lemma RereadWindows(lines: seq<string>, trailing: bool, needle: seq<string>)
    ensures var r := Reread(lines, trailing); Windows(r, needle, 0, |r|) <= Windows(lines, needle, 0, |lines|)
  {
    hide Same, Windows;
    var r := Reread(lines, trailing);
    forall k | 0 <= k < |r| && MatchesAt(NORMALIZED, r, needle, k) ensures MatchesAt(NORMALIZED, lines, needle, k) {
      forall i | 0 <= i < |needle| ensures Same(NORMALIZED, lines[k + i], needle[i]) {
        assert Same(NORMALIZED, r[k + i], needle[i]);
      }
    }
    WindowsMoved(r, lines, needle, 0, 0, |r|);
    WindowsSplit(lines, needle, 0, |r|, |lines|);
  }

  /** One such replacement leaves fewer windows in the text. */
  lemma ApartStep(e: Edit, current: string, f: Found, next: string)
    requires Apart(e) && Replaces(e, current, f, next)
    ensures Windows(ToLines(next), e.needle, 0, |ToLines(next)|)
            < Windows(ToLines(current), e.needle, 0, |ToLines(current)|)
  {
    var hay := ToLines(current);
    ReplacesLines(e, current, f, next);
    MatchWeakens(f.level, hay, e.needle, f.start);
    RereadWindows(Spliced(e, hay, f), e.trailing, e.needle);
    hide ToLines, Apart, Reread, Spliced, Windows, MatchesAt, FromLines;
    SplicedWindows(e, hay, f);
  }

  /** A replacement apart from the needle: a chain is no longer than the text has
      matching windows. */
  lemma {:induction false} ApartEnds(e: Edit, texts: seq<string>, founds: seq<Found>)
    requires Chain(e, texts, founds) && Apart(e)
    ensures var last, first := ToLines(texts[|founds|]), ToLines(texts[0]);
            |founds| + Windows(last, e.needle, 0, |last|) <= Windows(first, e.needle, 0, |first|)
    decreases |founds|
  {
    hide ToLines, Replaces, Apart, Windows;
    if |founds| > 0 {
      var n := |founds| - 1;
      ChainPrefix(e, texts, founds);
      ApartEnds(e, texts[..n + 1], founds[..n]);
      ApartStep(e, texts[n], founds[n], texts[n + 1]);
    }
  }

  // ---------- lines that look alike ----------

  lemma Alike(a: string, b: string, line: string)
    requires Same(NORMALIZED, a, b)
    ensures Same(NORMALIZED, a, line) <==> Same(NORMALIZED, b, line)
  {
    hide Normalize, TrimSpace;
  }

  /** The same places in `a` and in `b` hold a line that looks like this one. */
  predicate AlikeTo(a: seq<string>, b: seq<string>, line: string) {
    |a| == |b| && forall i :: 0 <= i < |a| ==> (Same(NORMALIZED, a[i], line) <==> Same(NORMALIZED, b[i], line))
  }

  lemma WindowAlike(hay: seq<string>, needle: seq<string>, s: nat, line: string)
    requires MatchesAt(NORMALIZED, hay, needle, s)
    ensures s + |needle| <= |hay| && AlikeTo(hay[s..s + |needle|], needle, line)
  {
    hide Same;
    forall i | 0 <= i < |needle|
      ensures Same(NORMALIZED, hay[s..s + |needle|][i], line) <==> Same(NORMALIZED, needle[i], line)
    {
      assert Same(NORMALIZED, hay[s + i], needle[i]);
      Alike(hay[s + i], needle[i], line);
    }
  }

  lemma SpliceAlike(e: Edit, hay: seq<string>, f: Found, line: string)
    requires f.start < |hay|
    ensures AlikeTo(SpliceIn(e, hay, f), ToLines(e.text), line)
  {
    hide Same, SpliceIn, ToLines;
    SpliceMatches(e, hay, f);
  }

  // ---------- fewer of some line ----------

  /** How many lines look like this one. */
  function Likes(lines: seq<string>, line: string): nat {
    if |lines| == 0 then 0
    else Likes(lines[..|lines| - 1], line) + if Same(NORMALIZED, lines[|lines| - 1], line) then 1 else 0
  }

  lemma {:induction false} LikesAppend(a: seq<string>, b: seq<string>, line: string)
    ensures Likes(a + b, line) == Likes(a, line) + Likes(b, line)
    decreases |b|
  {
    hide Same;
    if |b| == 0 {
      assert a + b == a;
    } else {
      assert (a + b)[..|a + b| - 1] == a + b[..|b| - 1];
      LikesAppend(a, b[..|b| - 1], line);
    }
  }

  lemma {:induction false} LikesAlike(a: seq<string>, b: seq<string>, line: string)
    requires AlikeTo(a, b, line)
    ensures Likes(a, line) == Likes(b, line)
    decreases |a|
  {
    hide Same;
    if |a| > 0 { LikesAlike(a[..|a| - 1], b[..|b| - 1], line); }
  }

  lemma {:induction false} LikesBounded(lines: seq<string>, line: string)
    ensures Likes(lines, line) <= |lines|
  {
    hide Same;
    if |lines| > 0 { LikesBounded(lines[..|lines| - 1], line); }
  }

  /** The replacement holds fewer of this line of the needle. */
  predicate ThinsOut(e: Edit, k: nat) {
    k < |e.needle| && Likes(ToLines(e.text), e.needle[k]) < Likes(e.needle, e.needle[k])
  }

  predicate Thins(e: Edit) {
    exists k: nat :: k < |e.needle| && ThinsOut(e, k)
  }

  lemma SplicedLikes(e: Edit, hay: seq<string>, f: Found, line: string)
    requires f.start < |hay| && MatchesAt(NORMALIZED, hay, e.needle, f.start)
    ensures f.start + |e.needle| <= |hay|
    ensures Likes(Spliced(e, hay, f), line) + Likes(e.needle, line) == Likes(hay, line) + Likes(ToLines(e.text), line)
  {
    hide *;
    WindowAlike(hay, e.needle, f.start, line);
    SpliceAlike(e, hay, f, line);
    SplicedIs(e, hay, f);
    var s, m, put := f.start, |e.needle|, SpliceIn(e, hay, f);
    assert hay == hay[..s] + hay[s..s + m] + hay[s + m..];
    LikesAlike(hay[s..s + m], e.needle, line);
    LikesAlike(put, ToLines(e.text), line);
    LikesAppend(hay[..s] + put, hay[s + m..], line);
    LikesAppend(hay[..s], put, line);
    LikesAppend(hay[..s] + hay[s..s + m], hay[s + m..], line);
    LikesAppend(hay[..s], hay[s..s + m], line);
  }

  lemma RereadLikes(lines: seq<string>, trailing: bool, line: string)
    ensures Likes(Reread(lines, trailing), line) <= Likes(lines, line)
  {
    hide Same;
  }

  /** A replacement with fewer of some line of the needle: a chain is no longer
      than the text has of that line. */
  lemma {:induction false} ThinningEnds(e: Edit, k: nat, texts: seq<string>, founds: seq<Found>)
    requires Chain(e, texts, founds) && ThinsOut(e, k)
    ensures |founds| + Likes(ToLines(texts[|founds|]), e.needle[k]) <= Likes(ToLines(texts[0]), e.needle[k])
    decreases |founds|
  {
    hide ToLines, Replaces, ThinsOut, Likes;
    assert k < |e.needle| by { LineOfNeedle(e, k); }
    if |founds| > 0 {
      var n := |founds| - 1;
      ChainPrefix(e, texts, founds);
      ThinningEnds(e, k, texts[..n + 1], founds[..n]);
      ThinningStep(e, k, texts[n], founds[n], texts[n + 1]);
    }
  }

  lemma LineOfNeedle(e: Edit, k: nat)
    requires ThinsOut(e, k)
    ensures k < |e.needle|
  {
  }

  lemma ThinningStep(e: Edit, k: nat, current: string, f: Found, next: string)
    requires ThinsOut(e, k) && Replaces(e, current, f, next)
    ensures k < |e.needle| && Likes(ToLines(next), e.needle[k]) < Likes(ToLines(current), e.needle[k])
  {
    hide Same, ToLines, Likes, Reread, Spliced, MatchesAt, FromLines;
    var hay := ToLines(current);
    ReplacesLines(e, current, f, next);
    MatchWeakens(f.level, hay, e.needle, f.start);
    SplicedLikes(e, hay, f, e.needle[k]);
    RereadLikes(Spliced(e, hay, f), e.trailing, e.needle[k]);
  }

  // ---------- as many lines as the needle ----------

  /** As many lines as the needle, which does not match them. */
  predicate Fades(e: Edit) {
    |ToLines(e.text)| == |e.needle| && !MatchesAt(NORMALIZED, ToLines(e.text), e.needle, 0)
  }

  /** Line `d` is the first at which the needle does not match the replacement. */
  predicate FadesAt(e: Edit, d: nat) {
    && d < |e.needle| && |ToLines(e.text)| == |e.needle|
    && !Same(NORMALIZED, ToLines(e.text)[d], e.needle[d])
    && forall i :: 0 <= i < d ==> Same(NORMALIZED, ToLines(e.text)[i], e.needle[i])
  }

  function FirstApart(e: Edit, d: nat): nat
    decreases |e.needle| - d
  {
    if d < |e.needle| && d < |ToLines(e.text)| && Same(NORMALIZED, ToLines(e.text)[d], e.needle[d])
    then FirstApart(e, d + 1)
    else d
  }

  lemma {:induction false} FirstApartIs(e: Edit, d: nat)
    requires Fades(e) && d <= |e.needle|
    requires forall i :: 0 <= i < d ==> Same(NORMALIZED, ToLines(e.text)[i], e.needle[i])
    ensures FadesAt(e, FirstApart(e, d))
    decreases |e.needle| - d
  {
    hide Same, ToLines;
    if d < |e.needle| && Same(NORMALIZED, ToLines(e.text)[d], e.needle[d]) { FirstApartIs(e, d + 1); }
  }

  /** The lines as binary digits, the first one foremost: 1 for one that looks like
      this one. */
  function Digits(lines: seq<string>, line: string): nat {
    if |lines| == 0 then 0
    else 2 * Digits(lines[..|lines| - 1], line) + if Same(NORMALIZED, lines[|lines| - 1], line) then 1 else 0
  }

  lemma {:induction false} DigitsAlike(a: seq<string>, b: seq<string>, line: string)
    requires AlikeTo(a, b, line)
    ensures Digits(a, line) == Digits(b, line)
    decreases |a|
  {
    hide Same;
    if |a| > 0 { DigitsAlike(a[..|a| - 1], b[..|b| - 1], line); }
  }

  /** What comes after the first difference does not matter. */
  lemma {:induction false} DigitsDrop(a: seq<string>, b: seq<string>, line: string, k: nat)
    requires k < |a| == |b| && AlikeTo(a[..k], b[..k], line)
    requires Same(NORMALIZED, a[k], line) && !Same(NORMALIZED, b[k], line)
    ensures Digits(b, line) < Digits(a, line)
    decreases |a|
  {
    hide Same, AlikeTo;
    var n := |a| - 1;
    if k == n {
      DigitsAlike(a[..n], b[..n], line);
    } else {
      assert a[..n][..k] == a[..k] && b[..n][..k] == b[..k];
      DigitsDrop(a[..n], b[..n], line, k);
    }
  }

  lemma RereadDigits(lines: seq<string>, trailing: bool, line: string)
    ensures Digits(Reread(lines, trailing), line) <= Digits(lines, line)
  {
    hide Same;
  }

  lemma SplicedDigits(e: Edit, hay: seq<string>, f: Found, d: nat)
    requires FadesAt(e, d) && f.start < |hay| && MatchesAt(NORMALIZED, hay, e.needle, f.start)
    ensures f.start + |e.needle| <= |hay| && Digits(Spliced(e, hay, f), e.needle[d]) < Digits(hay, e.needle[d])
  {
    hide Same, ToLines, SpliceIn, Spliced, Digits, MatchesAt, AlikeTo;
    WindowFits(hay, e.needle, f.start);
    SplicedPlaces(e, hay, f, d);
    DigitsDrop(hay, Spliced(e, hay, f), e.needle[d], f.start + d);
  }

  /** Where the needle and the replacement begin to differ so do the texts. */
  lemma SplicedPlaces(e: Edit, hay: seq<string>, f: Found, d: nat)
    requires FadesAt(e, d) && f.start < |hay| && MatchesAt(NORMALIZED, hay, e.needle, f.start)
    ensures var line, out, k := e.needle[d], Spliced(e, hay, f), f.start + d;
            && k < |hay| == |out| && AlikeTo(hay[..k], out[..k], line)
            && Same(NORMALIZED, hay[k], line) && !Same(NORMALIZED, out[k], line)
  {
    hide Same, ToLines, SpliceIn, Spliced, MatchesAt;
    WindowAlike(hay, e.needle, f.start, e.needle[d]);
    SpliceAlike(e, hay, f, e.needle[d]);
    SplicedIs(e, hay, f);
    var lines, s, line := ToLines(e.text), f.start, e.needle[d];
    var out, window, put := Spliced(e, hay, f), hay[s..s + |e.needle|], SpliceIn(e, hay, f);
    forall i | s <= i < s + d ensures Same(NORMALIZED, hay[i], line) <==> Same(NORMALIZED, out[i], line) {
      assert hay[i] == window[i - s] && out[i] == put[i - s];
      Alike(lines[i - s], e.needle[i - s], line);
    }
    assert forall i :: 0 <= i < s ==> hay[i] == out[i];
    assert hay[s + d] == window[d] && out[s + d] == put[d];
    LikeItself(line);
  }

  lemma LikeItself(line: string)
    ensures Same(NORMALIZED, line, line)
  {
  }

  lemma FadingStep(e: Edit, d: nat, current: string, f: Found, next: string)
    requires FadesAt(e, d) && Replaces(e, current, f, next)
    ensures Digits(ToLines(next), e.needle[d]) < Digits(ToLines(current), e.needle[d])
  {
    hide Same, ToLines, Digits, Reread, Spliced, MatchesAt, FromLines;
    var hay := ToLines(current);
    ReplacesLines(e, current, f, next);
    MatchWeakens(f.level, hay, e.needle, f.start);
    SplicedDigits(e, hay, f, d);
    RereadDigits(Spliced(e, hay, f), e.trailing, e.needle[d]);
  }

  /** As many lines as the needle, which does not match them: whatever the lines
      share and however matches overlap, the digits go down with every step. */
  lemma {:induction false} FadingEnds(e: Edit, d: nat, texts: seq<string>, founds: seq<Found>)
    requires Chain(e, texts, founds) && FadesAt(e, d)
    ensures |founds| + Digits(ToLines(texts[|founds|]), e.needle[d]) <= Digits(ToLines(texts[0]), e.needle[d])
    decreases |founds|
  {
    hide Same, ToLines, Replaces, Digits;
    if |founds| > 0 {
      var n := |founds| - 1;
      ChainPrefix(e, texts, founds);
      FadingEnds(e, d, texts[..n + 1], founds[..n]);
      FadingStep(e, d, texts[n], founds[n], texts[n + 1]);
    }
  }

  /** What lets the loop end whatever the text: fewer lines than the needle or
      fewer of one of its lines, lines apart from it, or as many lines which it does
      not match. */
  predicate Wanes(e: Edit) {
    |e.needle| > 0 && (|ToLines(e.text)| < |e.needle| || Apart(e) || Thins(e) || Fades(e))
  }

  /** How many replacements there can then be. */
  function StepBound(e: Edit, content: string): nat {
    var d := FirstApart(e, 0);
    if |ToLines(e.text)| < |e.needle| || Apart(e) || Thins(e) || d >= |e.needle| then |ToLines(content)|
    else Digits(ToLines(content), e.needle[d])
  }

  lemma ChainBounded(e: Edit, texts: seq<string>, founds: seq<Found>)
    requires Chain(e, texts, founds) && Wanes(e)
    ensures |founds| <= StepBound(e, texts[0])
  {
    hide Same, ToLines, Replaces, Apart, ThinsOut, Fades, FirstApart, Digits, Likes, Windows;
    if |ToLines(e.text)| < |e.needle| {
      ShrinkingEnds(e, texts, founds);
    } else if Apart(e) {
      ApartEnds(e, texts, founds);
      WindowsBounded(ToLines(texts[0]), e.needle, |ToLines(texts[0])|);
    } else if k: nat :| k < |e.needle| && ThinsOut(e, k) {
      ThinningEnds(e, k, texts, founds);
      LikesBounded(ToLines(texts[0]), e.needle[k]);
    } else {
      FirstApartIs(e, 0);
      FadingEnds(e, FirstApart(e, 0), texts, founds);
    }
  }

  /** The loop ended by itself, within so many replacements, and nothing matches at
      any level any more. */
  ghost predicate EndedWithin(e: Edit, content: string, bound: nat, r: LoopResult) {
    match r
    case Replaced(text, _, reps) => Stuck(e, text) && 0 < reps <= bound
    case NothingFound => Stuck(e, content)
    case StillRunning => false
  }

  /** With count 0 the loop then ends. */
  method ReplaceAll(content: string, oldText: string, newText: string) returns (r: LoopResult)
    requires Wanes(EditOf(content, oldText, newText))
    ensures var e := EditOf(content, oldText, newText); EndedWithin(e, content, StepBound(e, content), r)
  {
    hide Explains, ToLines, Wanes, Stuck, EditOf, StepBound, EndedWithin;
    var e := EditOf(content, oldText, newText);
    r := ReplaceLoop(content, oldText, newText, 0, StepBound(e, content) + 1);
    ghost var texts, founds :| Explains(e, content, 0, StepBound(e, content) + 1, r, texts, founds);
    EndsInTime(e, content, r, texts, founds);
  }

  lemma EndsInTime(e: Edit, content: string, r: LoopResult, texts: seq<string>, founds: seq<Found>)
    requires Wanes(e) && Explains(e, content, 0, StepBound(e, content) + 1, r, texts, founds)
    ensures EndedWithin(e, content, StepBound(e, content), r)
  {
    hide Stuck, Worst, Replaces, Wanes, StepBound;
    ChainBounded(e, texts, founds);
    hide Chain;
  }

  // ---------- when the loop with count 0 ends ----------

  /** The replacing loop, which stops only where nothing matches, comes to such
      a text. */
  ghost predicate Ends(e: Edit, content: string) {
    exists texts, founds :: EndsBy(e, content, texts, founds)
  }

  ghost predicate EndsBy(e: Edit, content: string, texts: seq<string>, founds: seq<Found>) {
    Chain(e, texts, founds) && texts[0] == content && Stuck(e, texts[|founds|])
  }

  lemma {:induction false} LeastMatch(level: int, hay: seq<string>, needle: seq<string>, k: nat) returns (least: nat)
    requires MatchesAt(level, hay, needle, k)
    ensures MatchesAt(level, hay, needle, least)
    ensures forall i :: 0 <= i < least ==> !MatchesAt(level, hay, needle, i)
    decreases k
  {
    hide MatchesAt;
    if i: nat :| i < k && MatchesAt(level, hay, needle, i) {
      least := LeastMatch(level, hay, needle, i);
    } else {
      least := k;
    }
  }

  lemma {:induction false} BestExists(hay: seq<string>, needle: seq<string>, level: int) returns (f: Found)
    requires |needle| > 0 && EXACT <= level <= NORMALIZED && !NoMatch(hay, needle)
    requires forall l, k: nat :: EXACT <= l < level ==> !MatchesAt(l, hay, needle, k)
    ensures BestMatch(hay, needle, f)
    decreases NORMALIZED - level
  {
    hide MatchesAt;
    if k: nat :| MatchesAt(level, hay, needle, k) {
      var least := LeastMatch(level, hay, needle, k);
      f := Found(least, level);
    } else {
      f := BestExists(hay, needle, level + 1);
    }
  }

  /** Where something matches there is a next text, and only one. */
  lemma NextText(e: Edit, current: string) returns (f: Found, next: string)
    requires !Stuck(e, current)
    ensures Replaces(e, current, f, next)
    ensures forall g, other :: Replaces(e, current, g, other) ==> g == f && other == next
  {
    hide MatchesAt, FromLines, Spliced, BestMatch;
    var hay := ToLines(current);
    f := BestExists(hay, e.needle, EXACT);
    BestFits(hay, e.needle, f);
    next := FromLines(Spliced(e, hay, f), e.trailing);
    forall g, other | Replaces(e, current, g, other) ensures g == f && other == next {
      BestUnique(hay, e.needle, f, g);
    }
  }

  lemma ChainMore(e: Edit, texts: seq<string>, founds: seq<Found>, f: Found, next: string)
    requires Chain(e, texts, founds) && Replaces(e, texts[|founds|], f, next)
    ensures Chain(e, texts + [next], founds + [f])
  {
    hide Replaces;
    var ts, fs := texts + [next], founds + [f];
    forall i | 0 <= i < |fs| ensures Replaces(e, ts[i], fs[i], ts[i + 1]) {
      if i < |founds| { assert Replaces(e, texts[i], founds[i], texts[i + 1]); }
    }
  }

  /** Chains that cannot grow without bound reach the end. */
  lemma {:induction false} WanesEnds(e: Edit, texts: seq<string>, founds: seq<Found>)
    requires Wanes(e) && Chain(e, texts, founds)
    ensures Ends(e, texts[0])
    decreases StepBound(e, texts[0]) - |founds|
  {
    hide Wanes, Chain, Stuck, ToLines, StepBound;
    ChainBounded(e, texts, founds);
    assert |texts| == |founds| + 1 by { ChainSize(e, texts, founds); }
    if Stuck(e, texts[|founds|]) {
      assert EndsBy(e, texts[0], texts, founds);
    } else {
      var f, next := NextText(e, texts[|founds|]);
      ChainMore(e, texts, founds, f, next);
      ChainBounded(e, texts + [next], founds + [f]);
      WanesEnds(e, texts + [next], founds + [f]);
    }
  }

  lemma ChainSize(e: Edit, texts: seq<string>, founds: seq<Found>)
    requires Chain(e, texts, founds)
    ensures |texts| == |founds| + 1
  {
  }

  /** What matches in the replacement still matches where it was put. */
  lemma SplicedMatch(e: Edit, hay: seq<string>, f: Found, j: nat)
    requires f.start < |hay| && f.start + |e.needle| <= |hay|
    requires MatchesAt(NORMALIZED, ToLines(e.text), e.needle, j)
    ensures MatchesAt(NORMALIZED, Spliced(e, hay, f), e.needle, f.start + j)
  {
    hide *;
    SpliceMatches(e, hay, f);
    SplicedIs(e, hay, f);
    MatchLike(ToLines(e.text), SpliceIn(e, hay, f), e.needle, j);
    MatchInside(hay[..f.start], SpliceIn(e, hay, f), hay[f.start + |e.needle|..], e.needle, j);
  }

  lemma MatchLike(a: seq<string>, b: seq<string>, needle: seq<string>, j: nat)
    requires |a| == |b| && MatchesAt(NORMALIZED, a, needle, j)
    requires forall i, line :: 0 <= i < |a| ==> (Same(NORMALIZED, b[i], line) <==> Same(NORMALIZED, a[i], line))
    ensures MatchesAt(NORMALIZED, b, needle, j)
  {
    hide Same;
    forall i | 0 <= i < |needle| ensures Same(NORMALIZED, b[j + i], needle[i]) {
      assert Same(NORMALIZED, a[j + i], needle[i]);
    }
  }

  lemma MatchInside(a: seq<string>, b: seq<string>, c: seq<string>, needle: seq<string>, j: nat)
    requires MatchesAt(NORMALIZED, b, needle, j)
    ensures MatchesAt(NORMALIZED, a + b + c, needle, |a| + j)
  {
    hide Same;
    forall i | 0 <= i < |needle| ensures Same(NORMALIZED, (a + b + c)[|a| + j + i], needle[i]) {
      assert (a + b + c)[|a| + j + i] == b[j + i];
    }
  }

  /** Not part of a match, the empty last line that writing and reading may lose:
      the needle does not end in such a line, or the text ends in a newline and
      has another line, or the match ends earlier. */
  predicate Survives(e: Edit, lines: seq<string>, k: nat) {
    && |e.needle| > 0
    && (|| !Same(NORMALIZED, "", e.needle[|e.needle| - 1])
        || (e.trailing && |lines| > 1)
        || k + |e.needle| < |lines|)
  }

  /** The replacement holds a match that survives wherever it is put. */
  ghost predicate Lasting(e: Edit) {
    exists j: nat :: MatchesAt(NORMALIZED, ToLines(e.text), e.needle, j) && Survives(e, ToLines(e.text), j)
  }

  lemma RereadMatch(e: Edit, lines: seq<string>, k: nat)
    requires Survives(e, lines, k) && MatchesAt(NORMALIZED, lines, e.needle, k)
    ensures MatchesAt(NORMALIZED, Reread(lines, e.trailing), e.needle, k)
  {
    hide Same;
    var r, m := Reread(lines, e.trailing), |e.needle| - 1;
    assert Same(NORMALIZED, lines[k + m], e.needle[m]);
    forall i | 0 <= i < |e.needle| ensures k + i < |r| && Same(NORMALIZED, r[k + i], e.needle[i]) {
      assert Same(NORMALIZED, lines[k + i], e.needle[i]);
    }
  }

  /** Such a replacement leaves a match behind. */
  lemma ReproducesStep(e: Edit, current: string, f: Found, next: string)
    requires Lasting(e) && Replaces(e, current, f, next)
    ensures !Stuck(e, next)
  {
    hide ToLines, Same, Survives, FromLines, BestMatch, MatchesAt, Reread, Spliced, SpliceIn, Stuck, Replaces;
    var hay, lines := ToLines(current), ToLines(e.text);
    var j: nat :| MatchesAt(NORMALIZED, lines, e.needle, j) && Survives(e, lines, j);
    ReplacesLines(e, current, f, next);
    SplicedSurvives(e, hay, f, j);
    SplicedMatch(e, hay, f, j);
    RereadMatch(e, Spliced(e, hay, f), f.start + j);
    MatchedNotStuck(e, next, f.start + j);
  }

  lemma SplicedSurvives(e: Edit, hay: seq<string>, f: Found, j: nat)
    requires f.start < |hay| && f.start + |e.needle| <= |hay| && Survives(e, ToLines(e.text), j)
    ensures Survives(e, Spliced(e, hay, f), f.start + j) && |e.needle| > 0
  {
    hide Same;
    SplicedHolds(e, hay, f);
  }

  lemma SplicedHolds(e: Edit, hay: seq<string>, f: Found)
    requires f.start < |hay| && f.start + |e.needle| <= |hay|
    ensures |Spliced(e, hay, f)| >= f.start + |ToLines(e.text)|
  {
    hide ToLines, SpliceIn;
    SpliceSize(e, hay, f);
  }

  lemma MatchedNotStuck(e: Edit, text: string, k: nat)
    requires |e.needle| > 0 && MatchesAt(NORMALIZED, ToLines(text), e.needle, k)
    ensures !Stuck(e, text)
  {
    hide ToLines, MatchesAt, Same;
  }

  /** From any text with a match such a replacement goes on for ever: there are
      chains of every length. */
  lemma {:induction false} Endless(e: Edit, content: string, n: nat) returns (texts: seq<string>, founds: seq<Found>)
    requires Lasting(e)
    requires !Stuck(e, content)
    ensures Chain(e, texts, founds) && |founds| == n && texts[0] == content && !Stuck(e, texts[n])
  {
    hide Same, Stuck, Replaces, Lasting;
    if n == 0 {
      texts, founds := [content], [];
    } else {
      texts, founds := Endless(e, content, n - 1);
      var f, next := NextText(e, texts[n - 1]);
      ReproducesStep(e, texts[n - 1], f, next);
      ChainMore(e, texts, founds, f, next);
      texts, founds := texts + [next], founds + [f];
    }
  }

  /** Every chain from a text with a match stays among texts with a match. */
  lemma {:induction false} NeverStuck(e: Edit, texts: seq<string>, founds: seq<Found>)
    requires Lasting(e)
    requires Chain(e, texts, founds) && !Stuck(e, texts[0])
    ensures !Stuck(e, texts[|founds|])
    decreases |founds|
  {
    hide Same, Stuck, Replaces, Lasting;
    if |founds| > 0 {
      var n := |founds| - 1;
      ChainPrefix(e, texts, founds);
      ReproducesStep(e, texts[n], founds[n], texts[n + 1]);
    }
  }

  lemma StuckEnds(e: Edit, content: string)
    requires Stuck(e, content)
    ensures Ends(e, content)
  {
    hide Stuck;
    assert EndsBy(e, content, [content], []);
  }

  lemma EndsAtOnce(e: Edit, content: string, f: Found, next: string)
    requires Replaces(e, content, f, next) && Stuck(e, next)
    ensures Ends(e, content)
  {
    hide Replaces, Chain, Stuck;
    ChainStart(e, content);
    ChainMore(e, [content], [], f, next);
    var texts, founds := [content] + [next], [] + [f];
    assert EndsBy(e, content, texts, founds);
  }

  /** A replacement that holds the needle: the loop ends only if there was
      nothing to replace. */
  lemma ReproducesNeverEnds(e: Edit, content: string)
    requires Lasting(e)
    ensures Ends(e, content) <==> Stuck(e, content)
  {
    hide Same, Stuck, Lasting, Chain;
    if Stuck(e, content) {
      StuckEnds(e, content);
    } else if Ends(e, content) {
      var texts, founds :| EndsBy(e, content, texts, founds);
      NeverStuck(e, texts, founds);
      assert false;
    }
  }

  /** A replacement with no more lines than the needle, which matches it nowhere or
      lastingly: the loop ends exactly when it does not match it, or there was
      nothing to replace. */
  lemma NoLongerExact(e: Edit, content: string)
    requires |e.needle| > 0 && |ToLines(e.text)| <= |e.needle| && (Reproduces(e) ==> Lasting(e))
    ensures Ends(e, content) <==> !Reproduces(e) || Stuck(e, content)
  {
    hide *;
    if Reproduces(e) {
      ReproducesNeverEnds(e, content);
    } else {
      NoLongerWanes(e);
      ChainStart(e, content);
      WanesEnds(e, [content], []);
    }
  }

  lemma NoLongerWanes(e: Edit)
    requires |e.needle| > 0 && |ToLines(e.text)| <= |e.needle| && !Reproduces(e)
    ensures Wanes(e)
  {
    hide ToLines, MatchesAt, Apart, Thins;
  }

  /** No line of the replacement matches the needle. */
  predicate NoneMatches(e: Edit)
    requires |e.needle| == 1
  {
    forall i :: 0 <= i < |ToLines(e.text)| ==> !Same(NORMALIZED, ToLines(e.text)[i], e.needle[0])
  }

  /** A one-line needle whose matches in the replacement last, if it has any: the
      loop ends exactly when it has none, or there was nothing to replace. */
  lemma OneLineEnds(e: Edit, content: string)
    requires |e.needle| == 1 && (Reproduces(e) ==> Lasting(e))
    ensures Ends(e, content) <==> NoneMatches(e) || Stuck(e, content)
  {
    OneLineApart(e);
    assert |e.needle| > 0;
    hide *;
    if Apart(e) {
      ApartWanes(e);
      ChainStart(e, content);
      WanesEnds(e, [content], []);
    } else {
      ReproducesNeverEnds(e, content);
    }
  }

  lemma OneLineApart(e: Edit)
    requires |e.needle| == 1
    ensures Apart(e) <==> NoneMatches(e)
    ensures Apart(e) <==> !Reproduces(e)
  {
    hide Same, ToLines;
    var lines := ToLines(e.text);
    forall i | 0 <= i < |lines|
      ensures Clash(e, i) <==> !Same(NORMALIZED, lines[i], e.needle[0])
      ensures MatchesAt(NORMALIZED, lines, e.needle, i) <==> Same(NORMALIZED, lines[i], e.needle[0])
    {
      assert Clash(e, i) ==> exists j :: 0 <= j < |lines| && j == i && !Same(NORMALIZED, lines[j], e.needle[j - i]);
      if !Same(NORMALIZED, lines[i], e.needle[0]) { assert !Same(NORMALIZED, lines[i], e.needle[i - i]); }
      if Same(NORMALIZED, lines[i], e.needle[0]) { assert Same(NORMALIZED, lines[i + 0], e.needle[0]); }
    }
  }

  lemma ApartWanes(e: Edit)
    requires |e.needle| > 0 && Apart(e)
    ensures Wanes(e)
  {
  }

  lemma ChainStart(e: Edit, content: string)
    ensures Chain(e, [content], [])
  {
  }
}
