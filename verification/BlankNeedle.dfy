/** Replacing a blank line: the one needle whose match can be lost when lines are
    written and read again, and exactly when the loop with count 0 ends there. */
module BlankNeedle {
  import opened Fuzzy
  import opened FuzzyReplace

  /** A line the needle matches at the weakest level; as the needle is blank these
      are the blank lines. */
  predicate Hit(e: Edit, line: string)
    requires |e.needle| == 1
  {
    Same(NORMALIZED, line, e.needle[0])
  }

  /** A line the needle matches without re-indenting. */
  predicate Close(e: Edit, line: string)
    requires |e.needle| == 1
  {
    Same(TRIM_TRAILING, line, e.needle[0])
  }

  function Lines(e: Edit): seq<string> {
    ToLines(e.text)
  }

  /** A blank one-line needle that only the last line of the replacement matches,
      so that the match may be lost. */
  predicate Frail(e: Edit) {
    && |e.needle| == 1 && Hit(e, "") && |Lines(e)| > 0 && Hit(e, Lines(e)[|Lines(e)| - 1])
    && (forall k :: 0 <= k < |Lines(e)| - 1 ==> !Hit(e, Lines(e)[k]))
    && !(e.trailing && |Lines(e)| > 1)
  }

  function LastOf(e: Edit): string
    requires Frail(e)
  {
    Lines(e)[|Lines(e)| - 1]
  }

  /** Every other replacement by or of one line is covered by its lasting matches. */
  lemma FrailOrLasting(e: Edit)
    requires |e.needle| == 1
    ensures Frail(e) <==> Reproduces(e) && !Lasting(e)
  {
    hide Same, ToLines, MatchesAt, Hit, Survives;
    var lines := Lines(e);
    forall k: nat
      ensures MatchesAt(NORMALIZED, lines, e.needle, k) <==> k < |lines| && Hit(e, lines[k])
      ensures Survives(e, lines, k) <==> !Hit(e, "") || (e.trailing && |lines| > 1) || k + 1 < |lines|
    {
      MatchIsHit(e, lines, k);
    }
  }

  lemma MatchIsHit(e: Edit, lines: seq<string>, k: nat)
    requires |e.needle| == 1
    ensures MatchesAt(NORMALIZED, lines, e.needle, k) <==> k < |lines| && Hit(e, lines[k])
    ensures Survives(e, lines, k) <==> !Hit(e, "") || (e.trailing && |lines| > 1) || k + 1 < |lines|
  {
    hide Same;
    if k < |lines| { assert lines[k + 0] == lines[k]; }
    if k < |lines| && !Hit(e, lines[k]) { assert !Same(NORMALIZED, lines[k + 0], e.needle[0]); }
  }

  // ---------- one replacement ----------

  /** What a replacement step does: the line at `s` goes, `put` comes, and a last
      empty line may be lost. */
  predicate Turn(e: Edit, hay: seq<string>, s: nat, put: seq<string>, after: seq<string>)
    requires |e.needle| == 1
  {
    && s < |hay| && Hit(e, hay[s]) && |put| == |Lines(e)|
    && (forall k :: 0 <= k < |put| ==> (Hit(e, put[k]) <==> Hit(e, Lines(e)[k])))
    && after == Reread(hay[..s] + put + hay[s + 1..], e.trailing)
  }

  lemma TurnOf(e: Edit, current: string, f: Found, next: string) returns (put: seq<string>)
    requires |e.needle| == 1 && Replaces(e, current, f, next)
    ensures f.start < |ToLines(current)| && put == SpliceIn(e, ToLines(current), f)
    ensures Turn(e, ToLines(current), f.start, put, ToLines(next))
  {
    hide ToLines, Same, SpliceIn, FromLines, Reread, BestMatch, Spliced;
    var hay := ToLines(current);
    ReplacesLines(e, current, f, next);
    put := SpliceIn(e, hay, f);
    SpliceMatches(e, hay, f);
    SplicedIs(e, hay, f);
    BestHits(e, hay, f);
  }

  lemma BestHits(e: Edit, hay: seq<string>, f: Found)
    requires |e.needle| == 1 && BestMatch(hay, e.needle, f)
    ensures f.start < |hay| && Hit(e, hay[f.start])
  {
    hide Same;
    MatchWeakens(f.level, hay, e.needle, f.start);
    assert Same(NORMALIZED, hay[f.start + 0], e.needle[0]);
  }

  /** Where there is a hit there is something to replace. */
  lemma HitNotStuck(e: Edit, text: string, k: nat)
    requires |e.needle| == 1 && k < |ToLines(text)| && Hit(e, ToLines(text)[k])
    ensures !Stuck(e, text)
  {
    hide ToLines, Same;
    assert Same(NORMALIZED, ToLines(text)[k + 0], e.needle[0]);
    assert MatchesAt(NORMALIZED, ToLines(text), e.needle, k);
  }

  lemma StuckHasNoHit(e: Edit, text: string)
    requires |e.needle| == 1 && forall k :: 0 <= k < |ToLines(text)| ==> !Hit(e, ToLines(text)[k])
    ensures Stuck(e, text)
  {
    hide ToLines, Same;
    WeakestDecides(ToLines(text), e.needle);
    forall k: nat ensures !MatchesAt(NORMALIZED, ToLines(text), e.needle, k) {
      if k < |ToLines(text)| { assert !Same(NORMALIZED, ToLines(text)[k + 0], e.needle[0]); }
    }
  }

  // ---------- a hit with something behind it ----------

  /** A line that no later turn can take away from behind a hit: one that is no
      hit, or, where further lines are put in, any that is not empty. */
  predicate Backs(e: Edit, line: string)
    requires |e.needle| == 1
  {
    !Hit(e, line) || (|Lines(e)| > 1 && line != "")
  }

  ghost predicate Backed(e: Edit, lines: seq<string>)
    requires |e.needle| == 1
  {
    exists i, j :: 0 <= i < j < |lines| && Hit(e, lines[i]) && Backs(e, lines[j])
  }

  lemma BackedTurn(e: Edit, hay: seq<string>, s: nat, put: seq<string>, after: seq<string>)
    requires Frail(e) && Backed(e, hay) && Turn(e, hay, s, put, after)
    ensures Backed(e, after)
  {
    hide Same, ToLines;
    var out, n := hay[..s] + put + hay[s + 1..], |put|;
    var i, j :| 0 <= i < j < |hay| && Hit(e, hay[i]) && Backs(e, hay[j]);
    // where the hit and the line behind it are now
    var a := if i < s then i else if i == s then s + n - 1 else i + n - 1;
    var b := if j < s then j else if j == s then s else j + n - 1;
    assert Hit(e, out[a]);
    assert a < b && Backs(e, out[b]) by {
      if j == s { assert n > 1 && !Hit(e, put[0]) && out[b] == put[0]; } else { assert out[b] == hay[j]; }
    }
    assert b < |after| && after[a] == out[a] && after[b] == out[b];
  }

  // ---------- a text with a final newline ----------

  /** With a final newline only a text of one line can lose it. */
  ghost predicate Kept(e: Edit, lines: seq<string>)
    requires |e.needle| == 1
  {
    e.trailing && |lines| > 1 && exists i :: 0 <= i < |lines| && Hit(e, lines[i])
  }

  lemma KeptTurn(e: Edit, hay: seq<string>, s: nat, put: seq<string>, after: seq<string>)
    requires Frail(e) && Kept(e, hay) && Turn(e, hay, s, put, after)
    ensures Kept(e, after)
  {
    hide Same, ToLines;
    var out := hay[..s] + put + hay[s + 1..];
    assert |put| == 1 && out[s] == put[0] && Hit(e, out[s]);
    assert after == out;
  }

  // ---------- the last line as the only hit ----------

  predicate LastHit(e: Edit, lines: seq<string>)
    requires |e.needle| == 1
  {
    |lines| > 0 && Hit(e, lines[|lines| - 1]) && forall k :: 0 <= k < |lines| - 1 ==> !Hit(e, lines[k])
  }

  /** Nothing keeps an empty last line: there is no final newline, or no other
      line. */
  predicate Loose(e: Edit, lines: seq<string>) {
    !e.trailing || |lines| == 1
  }

  /** The line that takes the place of a blank last line. */
  function NewLast(e: Edit, line: string): string
    requires Frail(e)
  {
    if Close(e, line) then LastOf(e)
    else IndentedLine(LastOf(e), DetectIndent(Lines(e)[0]), DetectIndent(line))
  }

  /** In the place of this last line the replacement leaves nothing, after one or
      two turns. */
  predicate Vanishes(e: Edit, line: string)
    requires Frail(e)
  {
    var w := LastOf(e);
    TrimLeft(w, IsBlank) == "" && (w == "" || !Close(e, line) || !Close(e, w))
  }

  lemma NewLastIs(e: Edit, line: string)
    requires Frail(e)
    ensures var w := LastOf(e); var l := NewLast(e, line);
            && (TrimLeft(w, IsBlank) != "" ==> l != "")
            && (TrimLeft(w, IsBlank) == "" ==> l == if Close(e, line) then w else "")
  {
    hide ToLines, Same, Close;
  }

  /** The turn at the only hit. */
  lemma LastTurn(e: Edit, current: string, f: Found, next: string)
    requires Frail(e) && LastHit(e, ToLines(current)) && Loose(e, ToLines(current)) && Replaces(e, current, f, next)
    ensures var hay, after := ToLines(current), ToLines(next);
            var l := NewLast(e, hay[|hay| - 1]);
            if l == "" then forall k :: 0 <= k < |after| ==> !Hit(e, after[k])
            else LastHit(e, after) && Loose(e, after) && after[|after| - 1] == l
  {
    hide ToLines, Same, FromLines, BestMatch, SpliceIn, IndentedLine, Close, LastOf;
    var put := TurnOf(e, current, f, next);
    var hay, after := ToLines(current), ToLines(next);
    var last := |hay| - 1;
    assert f.start == last;
    PutLast(e, hay, f);
    var l, n := NewLast(e, hay[last]), |put|;
    var out := hay[..last] + put + hay[last + 1..];
    assert |out| == last + n && out[|out| - 1] == put[n - 1] == l;
    forall k | 0 <= k < |out| - 1 ensures !Hit(e, out[k]) {
      if k < last { assert out[k] == hay[k]; } else { assert out[k] == put[k - last]; }
    }
    assert Hit(e, l);
    assert e.trailing ==> |out| == 1;
    if l == "" {
      assert after == out[..|out| - 1];
    } else {
      assert after == out;
    }
  }

  /** How the last line put in looks: as written for a close match, re-indented
      otherwise. */
  lemma PutLast(e: Edit, hay: seq<string>, f: Found)
    requires Frail(e) && BestMatch(hay, e.needle, f) && f.start < |hay|
    ensures |SpliceIn(e, hay, f)| == |Lines(e)| > 0
    ensures SpliceIn(e, hay, f)[|Lines(e)| - 1] == NewLast(e, hay[f.start])
  {
    hide ToLines, Same, IndentedLine;
    LevelIs(e, hay, f);
    SpliceSize(e, hay, f);
  }

  /** A close match is found as one. */
  lemma LevelIs(e: Edit, hay: seq<string>, f: Found)
    requires |e.needle| == 1 && BestMatch(hay, e.needle, f)
    ensures f.start < |hay| && (f.level < TRIM_ALL <==> Close(e, hay[f.start]))
  {
    hide Same, MatchesAt;
    BestHits(e, hay, f);
    MatchAt(e, hay, f.level, f.start);
    MatchAt(e, hay, TRIM_TRAILING, f.start);
    if f.level < TRIM_ALL { Nested(hay[f.start], e.needle[0], f.level, TRIM_TRAILING); }
  }

  // ---------- which line is chosen ----------

  predicate Exact(e: Edit, line: string)
    requires |e.needle| == 1
  {
    line == e.needle[0]
  }

  lemma {:induction false} NothingNormalized(s: string)
    ensures Normalize(s) == "" <==> s == ""
  {
    if s != "" { assert |NormalizeRune(s[|s| - 1])| > 0; }
  }

  /** All hits of a blank needle are blank, which the third level sees. */
  lemma HitIsBlank(e: Edit, line: string)
    requires |e.needle| == 1 && Hit(e, "") && Hit(e, line)
    ensures Same(TRIM_ALL, line, e.needle[0])
  {
    hide TrimSpace;
    NothingNormalized(TrimSpace(line));
    NothingNormalized(TrimSpace(e.needle[0]));
    assert Normalize(TrimSpace("")) == "" by { NothingTrimmed(); }
  }

  lemma NothingTrimmed()
    ensures TrimSpace("") == "" && Normalize("") == ""
  {
  }

  /** Exact lines come first, then the first close one, then the first hit. */
  lemma Chosen(e: Edit, hay: seq<string>, f: Found)
    requires |e.needle| == 1 && Hit(e, "") && BestMatch(hay, e.needle, f)
    ensures f.start < |hay| && Hit(e, hay[f.start])
    ensures forall k :: 0 <= k < |hay| && Exact(e, hay[k]) ==> Exact(e, hay[f.start])
    ensures forall k :: 0 <= k < |hay| && Close(e, hay[k]) ==> Close(e, hay[f.start])
    ensures !Exact(e, hay[f.start]) ==> forall k :: 0 <= k < f.start ==> !Close(e, hay[k])
    ensures !Close(e, hay[f.start]) ==> forall k :: 0 <= k < f.start ==> !Hit(e, hay[k])
  {
    hide Same, BestMatch;
    BestHits(e, hay, f);
    LevelIs(e, hay, f);
    forall k | 0 <= k < |hay|
      ensures Exact(e, hay[k]) ==> Exact(e, hay[f.start])
      ensures Close(e, hay[k]) ==> Close(e, hay[f.start])
      ensures !Exact(e, hay[f.start]) && k < f.start ==> !Close(e, hay[k])
      ensures !Close(e, hay[f.start]) && k < f.start ==> !Hit(e, hay[k])
    {
      ChosenBefore(e, hay, f, k);
    }
  }

  lemma ChosenBefore(e: Edit, hay: seq<string>, f: Found, k: nat)
    requires |e.needle| == 1 && Hit(e, "") && BestMatch(hay, e.needle, f) && k < |hay| && f.start < |hay|
    requires f.level < TRIM_ALL <==> Close(e, hay[f.start])
    ensures Exact(e, hay[k]) ==> Exact(e, hay[f.start])
    ensures Close(e, hay[k]) ==> Close(e, hay[f.start])
    ensures !Exact(e, hay[f.start]) && k < f.start ==> !Close(e, hay[k])
    ensures !Close(e, hay[f.start]) && k < f.start ==> !Hit(e, hay[k])
  {
    hide TrimSpace, TrimRight, Normalize;
    MatchAt(e, hay, EXACT, k);
    MatchAt(e, hay, TRIM_TRAILING, k);
    MatchAt(e, hay, TRIM_ALL, k);
    MatchAt(e, hay, f.level, f.start);
    MatchAt(e, hay, TRIM_ALL, f.start);
    if Hit(e, hay[k]) { HitIsBlank(e, hay[k]); }
    BestHits(e, hay, f);
    HitIsBlank(e, hay[f.start]);
    assert f.level <= TRIM_ALL;
    assert f.level == EXACT <==> Exact(e, hay[f.start]) by { MatchAt(e, hay, EXACT, f.start); }
  }

  lemma MatchAt(e: Edit, hay: seq<string>, level: int, k: nat)
    requires |e.needle| == 1 && k < |hay|
    ensures MatchesAt(level, hay, e.needle, k) <==> Same(level, hay[k], e.needle[0])
  {
    hide Same;
    assert hay[k + 0] == hay[k];
  }

  // ---------- an empty line in the place of others at the end ----------

  /** No final newline, the empty line put in, and from line `p` on all lines are
      blank, but none before. */
  predicate Run(e: Edit, lines: seq<string>, p: nat)
    requires Frail(e)
  {
    && !e.trailing && Lines(e) == [""] && p <= |lines|
    && (forall k :: 0 <= k < p ==> !Hit(e, lines[k])) && (forall k :: p <= k < |lines| ==> Hit(e, lines[k]))
  }

  /** The first close line from `p` on, or the end. */
  function FirstClose(e: Edit, lines: seq<string>, p: nat): (q: nat)
    requires |e.needle| == 1 && p <= |lines|
    ensures p <= q <= |lines| && (q < |lines| ==> Close(e, lines[q]))
    ensures forall k :: p <= k < q ==> !Close(e, lines[k])
    decreases |lines| - p
  {
    if p == |lines| || Close(e, lines[p]) then p else FirstClose(e, lines, p + 1)
  }

  /** The loop empties and loses the blank lines from the end on.  Where an empty
      line is no close match it stops at a line that is neither close nor empty;
      where it is one, the first close line is taken again and again, so that
      only exact lines are emptied behind it and one line before it. */
  predicate Settles(e: Edit, lines: seq<string>, p: nat)
    requires |e.needle| == 1
  {
    if p > |lines| then false
    else if !Close(e, "") then forall i :: p < i < |lines| ==> Close(e, lines[i]) || lines[i] == ""
    else
      var q := FirstClose(e, lines, p);
      if q == |lines| then |lines| <= p + 1
      else q <= p + 1 && forall i :: q < i < |lines| ==> Exact(e, lines[i]) || lines[i] == ""
  }

  ghost predicate Lingers(e: Edit, lines: seq<string>)
    requires Frail(e)
  {
    exists p: nat :: Run(e, lines, p) && !Settles(e, lines, p)
  }

  /** Lines that will be emptied in their turn. */
  predicate Marked(e: Edit, line: string)
    requires |e.needle| == 1
  {
    if Close(e, "") then Exact(e, line) && line != "" else Close(e, line)
  }

  function Marks(e: Edit, lines: seq<string>): nat
    requires |e.needle| == 1
  {
    if |lines| == 0 then 0
    else Marks(e, lines[..|lines| - 1]) + if Marked(e, lines[|lines| - 1]) then 1 else 0
  }

  /** The lines after a turn: one emptied, and the last lost if it is empty. */
  function Emptied(lines: seq<string>, s: nat): seq<string>
    requires s < |lines|
  {
    var out := lines[s := ""];
    if out[|out| - 1] == "" then out[..|out| - 1] else out
  }

  /** How the line to be emptied is chosen. */
  predicate Picked(e: Edit, lines: seq<string>, s: nat)
    requires |e.needle| == 1
  {
    && s < |lines| && Hit(e, lines[s])
    && (forall k :: 0 <= k < |lines| && Exact(e, lines[k]) ==> Exact(e, lines[s]))
    && (forall k :: 0 <= k < |lines| && Close(e, lines[k]) ==> Close(e, lines[s]))
    && (!Exact(e, lines[s]) ==> forall k :: 0 <= k < s ==> !Close(e, lines[k]))
    && (!Close(e, lines[s]) ==> forall k :: 0 <= k < s ==> !Hit(e, lines[k]))
  }

  lemma RunTurn(e: Edit, current: string, f: Found, next: string, p: nat)
    requires Frail(e) && Run(e, ToLines(current), p) && Replaces(e, current, f, next)
    ensures Picked(e, ToLines(current), f.start)
    ensures ToLines(next) == Emptied(ToLines(current), f.start)
  {
    hide ToLines, Same, FromLines, BestMatch, SpliceIn, IndentedLine, Close;
    var hay := ToLines(current);
    var put := TurnOf(e, current, f, next);
    Chosen(e, hay, f);
    PutLast(e, hay, f);
    NewLastIs(e, hay[f.start]);
    assert TrimLeft("", IsBlank) == "";
    assert put == [""];
    assert hay[..f.start] + put + hay[f.start + 1..] == hay[f.start := ""];
  }

  lemma EmptiedRun(e: Edit, lines: seq<string>, p: nat, s: nat)
    requires Frail(e) && Run(e, lines, p) && Picked(e, lines, s)
    ensures p <= s && Run(e, Emptied(lines, s), p)
  {
    hide Same, ToLines, Close;
  }

  /** Whether it settles does not change from turn to turn. */
  lemma EmptiedSettlesFar(e: Edit, lines: seq<string>, p: nat, s: nat)
    requires Frail(e) && Run(e, lines, p) && Picked(e, lines, s) && !Close(e, "")
    ensures p <= |Emptied(lines, s)| && (Settles(e, Emptied(lines, s), p) <==> Settles(e, lines, p))
  {
    hide Same, ToLines, Close, FirstClose;
    EmptiedRun(e, lines, p, s);
    var after, last := Emptied(lines, s), |lines| - 1;
    assert Hit(e, lines[p]);
    assert p < s ==> Close(e, lines[s]);
    if Settles(e, after, p) {
      forall i | p < i < |lines| ensures Close(e, lines[i]) || lines[i] == "" {
        if i != s && i < |after| { assert after[i] == lines[i]; }
      }
    }
  }

  lemma EmptiedSettlesClose(e: Edit, lines: seq<string>, p: nat, s: nat)
    requires Frail(e) && Run(e, lines, p) && Picked(e, lines, s) && Close(e, "")
    ensures p <= |Emptied(lines, s)| && (Settles(e, Emptied(lines, s), p) <==> Settles(e, lines, p))
  {
    hide Same, ToLines, Close, FirstClose;
    EmptiedRun(e, lines, p, s);
    ExactIsClose(e);
    var after, q := Emptied(lines, s), FirstClose(e, lines, p);
    var q' := FirstClose(e, after, p);
    if q < |lines| {
      assert q <= s && (s == q || Exact(e, lines[s]));
      assert forall i :: p <= i < |after| && i != s ==> after[i] == lines[i];
      assert q < |after| ==> q' == q;
      assert q == |after| ==> q' == |after|;
    } else {
      assert Hit(e, lines[p]) && s == p;
      forall i | p < i < |lines| ensures !Close(e, lines[i]) && !Exact(e, lines[i]) && lines[i] != "" {
        FarNotEmpty(e, lines[i]);
      }
      assert p < |after| ==> q' == p;
      assert |lines| > p + 1 ==> |after| == |lines|;
      assert forall i :: p < i < |after| ==> after[i] == lines[i];
    }
  }

  lemma FarNotEmpty(e: Edit, line: string)
    requires |e.needle| == 1 && Close(e, "") && !Close(e, line)
    ensures line != "" && !Exact(e, line)
  {
  }

  lemma ExactIsClose(e: Edit)
    requires |e.needle| == 1
    ensures forall l :: Exact(e, l) ==> Close(e, l)
  {
  }

  lemma {:induction false} MarksAppend(e: Edit, a: seq<string>, b: seq<string>)
    requires |e.needle| == 1
    ensures Marks(e, a + b) == Marks(e, a) + Marks(e, b)
    decreases |b|
  {
    hide Marked;
    if |b| == 0 {
      assert a + b == a;
    } else {
      assert (a + b)[..|a + b| - 1] == a + b[..|b| - 1];
      MarksAppend(e, a, b[..|b| - 1]);
    }
  }

  lemma OneMark(e: Edit, line: string)
    requires |e.needle| == 1
    ensures Marks(e, [line]) == if Marked(e, line) then 1 else 0
  {
    hide Marked;
    assert [line][..0] == [];
  }

  lemma SplitAround(lines: seq<string>, s: nat)
    requires s < |lines|
    ensures lines == lines[..s] + [lines[s]] + lines[s + 1..]
  {
  }

  /** Emptying a marked line takes its mark away. */
  lemma EmptiedMarks(e: Edit, lines: seq<string>, s: nat)
    requires |e.needle| == 1 && s < |lines| && !Marked(e, "")
    ensures Marks(e, Emptied(lines, s)) + (if Marked(e, lines[s]) then 1 else 0) <= Marks(e, lines)
  {
    hide Marked;
    var out := lines[s := ""];
    MarksAround(e, lines, s);
    MarksAround(e, out, s);
    assert out[..s] == lines[..s] && out[s + 1..] == lines[s + 1..];
  }

  lemma MarksAround(e: Edit, lines: seq<string>, s: nat)
    requires |e.needle| == 1 && s < |lines|
    ensures Marks(e, lines)
            == Marks(e, lines[..s]) + (if Marked(e, lines[s]) then 1 else 0) + Marks(e, lines[s + 1..])
  {
    hide Marked, Marks;
    SplitAround(lines, s);
    MarksAppend(e, lines[..s] + [lines[s]], lines[s + 1..]);
    MarksAppend(e, lines[..s], [lines[s]]);
    OneMark(e, lines[s]);
  }

  /** While it settles, every turn empties a marked line or loses one. */
  lemma SettlingMoves(e: Edit, lines: seq<string>, p: nat, s: nat)
    requires Frail(e) && Run(e, lines, p) && Picked(e, lines, s) && Settles(e, lines, p)
    ensures Marked(e, lines[s]) || |Emptied(lines, s)| < |lines|
    ensures !Marked(e, "")
  {
    hide Same, ToLines, Close, FirstClose;
    EmptiedRun(e, lines, p, s);
    ExactIsClose(e);
    var q, last := FirstClose(e, lines, p), |lines| - 1;
    if Close(e, "") && q < |lines| {
      assert q <= s && (s == q || Exact(e, lines[s]));
    }
    if !Marked(e, lines[s]) {
      assert s == last || lines[last] == "";
    }
  }

  lemma RunStep(e: Edit, current: string, f: Found, next: string, p: nat)
    requires Frail(e) && Run(e, ToLines(current), p) && Replaces(e, current, f, next)
    ensures Run(e, ToLines(next), p)
    ensures Settles(e, ToLines(next), p) <==> Settles(e, ToLines(current), p)
    ensures Settles(e, ToLines(current), p) ==>
              |ToLines(next)| + Marks(e, ToLines(next)) < |ToLines(current)| + Marks(e, ToLines(current))
  {
    assert |e.needle| == 1;
    hide ToLines, Same, Replaces, Run, Settles, Picked, Close, Frail, Marked;
    var lines := ToLines(current);
    RunTurn(e, current, f, next, p);
    PickedIn(e, lines, f.start);
    EmptiedRun(e, lines, p, f.start);
    if Close(e, "") { EmptiedSettlesClose(e, lines, p, f.start); } else { EmptiedSettlesFar(e, lines, p, f.start); }
    if Settles(e, lines, p) {
      SettlingMoves(e, lines, p, f.start);
      EmptiedMarks(e, lines, f.start);
    }
  }

  lemma PickedIn(e: Edit, lines: seq<string>, s: nat)
    requires |e.needle| == 1 && Picked(e, lines, s)
    ensures s < |lines|
  {
  }

  /** Where it settles the loop comes to its end. */
  lemma {:induction false} SettlesEnds(e: Edit, texts: seq<string>, founds: seq<Found>, p: nat)
    requires Frail(e) && Chain(e, texts, founds)
    requires Run(e, ToLines(texts[|founds|]), p) && Settles(e, ToLines(texts[|founds|]), p)
    ensures Ends(e, texts[0])
    decreases |ToLines(texts[|founds|])| + Marks(e, ToLines(texts[|founds|]))
  {
    hide Chain, Stuck, ToLines, Replaces, Run, Settles, Frail, Marks;
    ChainSize(e, texts, founds);
    var n := |founds|;
    if Stuck(e, texts[n]) {
      assert EndsBy(e, texts[0], texts, founds);
    } else {
      var f, next := NextText(e, texts[n]);
      ChainMore(e, texts, founds, f, next);
      RunStep(e, texts[n], f, next, p);
      SettlesEnds(e, texts + [next], founds + [f], p);
    }
  }

  // ---------- a line that is not empty in the place of another ----------

  ghost predicate Filled(e: Edit, lines: seq<string>)
    requires Frail(e)
  {
    && !e.trailing && |Lines(e)| == 1 && LastOf(e) != "" && |lines| > 0 && lines[|lines| - 1] != ""
    && exists i :: 0 <= i < |lines| - 1 && Hit(e, lines[i])
  }

  lemma FilledStep(e: Edit, current: string, f: Found, next: string)
    requires Frail(e) && Filled(e, ToLines(current)) && Replaces(e, current, f, next)
    ensures Filled(e, ToLines(next))
  {
    hide ToLines, Same, FromLines, BestMatch, SpliceIn, IndentedLine, Close, TrimLeft;
    var hay, after := ToLines(current), ToLines(next);
    var put := TurnOf(e, current, f, next);
    Chosen(e, hay, f);
    PutLast(e, hay, f);
    var s, last := f.start, |hay| - 1;
    var out := hay[..s] + put + hay[s + 1..];
    assert |out| == |hay| && out[s] == put[0] && forall k :: 0 <= k < |out| && k != s ==> out[k] == hay[k];
    if s == last { NewLastIs(e, hay[s]); }
    assert out[last] != "";
    assert after == out;
    var i :| 0 <= i < last && Hit(e, hay[i]);
    assert Hit(e, out[i]);
  }

  // ---------- going on for ever ----------

  ghost predicate Going(e: Edit, lines: seq<string>)
    requires Frail(e)
  {
    || Backed(e, lines)
    || Kept(e, lines)
    || Filled(e, lines)
    || Lingers(e, lines)
    || (LastHit(e, lines) && Loose(e, lines) && !Vanishes(e, lines[|lines| - 1]))
  }

  lemma GoingStep(e: Edit, current: string, f: Found, next: string)
    requires Frail(e) && Going(e, ToLines(current)) && Replaces(e, current, f, next)
    ensures Going(e, ToLines(next))
  {
    hide ToLines, Same, Backed, Kept, Filled, Run, Settles, Turn, LastHit, Loose, Replaces, Close, TrimLeft;
    var hay := ToLines(current);
    if Backed(e, hay) {
      var put := TurnOf(e, current, f, next);
      BackedTurn(e, hay, f.start, put, ToLines(next));
    } else if Kept(e, hay) {
      var put := TurnOf(e, current, f, next);
      KeptTurn(e, hay, f.start, put, ToLines(next));
    } else if Filled(e, hay) {
      FilledStep(e, current, f, next);
    } else if Lingers(e, hay) {
      var p: nat :| Run(e, hay, p) && !Settles(e, hay, p);
      RunStep(e, current, f, next, p);
    } else {
      LastIsHit(e, hay);
      LastTurn(e, current, f, next);
      NewLastIs(e, hay[|hay| - 1]);
    }
  }

  lemma GoingNotStuck(e: Edit, text: string)
    requires Frail(e) && Going(e, ToLines(text))
    ensures !Stuck(e, text)
  {
    hide ToLines, Same, Stuck, Vanishes;
    var lines := ToLines(text);
    var k :| 0 <= k < |lines| && Hit(e, lines[k]);
    HitNotStuck(e, text, k);
  }

  lemma {:induction false} GoingOn(e: Edit, texts: seq<string>, founds: seq<Found>)
    requires Frail(e) && Chain(e, texts, founds) && Going(e, ToLines(texts[0]))
    ensures Going(e, ToLines(texts[|founds|]))
    decreases |founds|
  {
    hide Going, Replaces, ToLines, Frail;
    if |founds| > 0 {
      var n := |founds| - 1;
      ChainPrefix(e, texts, founds);
      GoingOn(e, texts[..n + 1], founds[..n]);
      GoingStep(e, texts[n], founds[n], texts[n + 1]);
    }
  }

  lemma GoingNeverEnds(e: Edit, content: string)
    requires Frail(e) && Going(e, ToLines(content))
    ensures !Ends(e, content) && !Stuck(e, content)
  {
    hide Going, Stuck, Chain, ToLines, Frail;
    GoingNotStuck(e, content);
    if texts, founds :| EndsBy(e, content, texts, founds) {
      ChainSize(e, texts, founds);
      GoingOn(e, texts, founds);
      GoingNotStuck(e, texts[|founds|]);
      assert false;
    }
  }

  // ---------- coming to an end ----------

  /** A vanishing last line is gone after one turn or two. */
  lemma VanishesEnds(e: Edit, content: string)
    requires Frail(e) && LastHit(e, ToLines(content)) && Loose(e, ToLines(content))
    requires Vanishes(e, ToLines(content)[|ToLines(content)| - 1])
    ensures Ends(e, content) && !Stuck(e, content)
  {
    hide ToLines, Same, Stuck, Replaces, Chain, TrimLeft, Close, LastHit, NewLast;
    var hay := ToLines(content);
    assert |hay| > 0 && Hit(e, hay[|hay| - 1]) by { LastIsHit(e, hay); }
    var line := hay[|hay| - 1];
    HitNotStuck(e, content, |hay| - 1);
    var f, next := NextText(e, content);
    LastTurn(e, content, f, next);
    NewLastIs(e, line);
    if NewLast(e, line) == "" {
      StuckHasNoHit(e, next);
      EndsAtOnce(e, content, f, next);
    } else {
      NewLastIs(e, NewLast(e, line));
      VanishesAgain(e, content, f, next);
    }
  }

  lemma LastIsHit(e: Edit, lines: seq<string>)
    requires |e.needle| == 1 && LastHit(e, lines)
    ensures |lines| > 0 && Hit(e, lines[|lines| - 1])
  {
  }

  /** The second turn, at the line the first one wrote. */
  lemma VanishesAgain(e: Edit, content: string, f: Found, next: string)
    requires Frail(e) && LastHit(e, ToLines(next)) && Loose(e, ToLines(next)) && Replaces(e, content, f, next)
    requires NewLast(e, ToLines(next)[|ToLines(next)| - 1]) == ""
    ensures Ends(e, content)
  {
    hide ToLines, Same, Stuck, Replaces, Chain, TrimLeft, Close, LastHit, NewLast;
    LastIsHit(e, ToLines(next));
    HitNotStuck(e, next, |ToLines(next)| - 1);
    var g, third := NextText(e, next);
    LastTurn(e, next, g, third);
    StuckHasNoHit(e, third);
    ChainStart(e, content);
    ChainMore(e, [content], [], f, next);
    var texts, founds := [content] + [next], [] + [f];
    ChainMore(e, texts, founds, g, third);
    assert EndsBy(e, content, texts + [third], founds + [g]);
  }

  // ---------- exactly when ----------

  /** The last line is the only blank one, nothing keeps it, and it vanishes; or
      there is no final newline, the empty line is put in, all blank lines are at
      the end, and they settle. */
  ghost predicate BlankRunsOut(e: Edit, lines: seq<string>)
    requires Frail(e)
  {
    || (LastHit(e, lines) && Loose(e, lines) && Vanishes(e, lines[|lines| - 1]))
    || exists p: nat :: Run(e, lines, p) && Settles(e, lines, p)
  }

  /** Then, or when there is nothing to replace, the loop ends, and only then. */
  lemma BlankEnds(e: Edit, content: string)
    requires Frail(e) && e.trailing == EndsInNewline(content)
    ensures var lines := ToLines(content);
            Ends(e, content) <==> Stuck(e, content) || BlankRunsOut(e, lines)
  {
    var lines := ToLines(content);
    LastNotEmpty(content);
    hide ToLines, Same, Stuck, Vanishes, Ends, EndsInNewline, Run, Settles, Going;
    if p: nat :| Run(e, lines, p) && Settles(e, lines, p) {
      ChainStart(e, content);
      SettlesEnds(e, [content], [], p);
    } else if LastHit(e, lines) && Loose(e, lines) {
      if Vanishes(e, lines[|lines| - 1]) {
        VanishesEnds(e, content);
      } else {
        assert Going(e, lines) by { StaysGoing(e, lines); }
        GoingNeverEnds(e, content);
      }
    } else if k :| 0 <= k < |lines| && Hit(e, lines[k]) {
      SomeGoing(e, lines, k);
      GoingNeverEnds(e, content);
    } else {
      StuckHasNoHit(e, content);
      StuckEnds(e, content);
    }
  }

  lemma StaysGoing(e: Edit, lines: seq<string>)
    requires Frail(e) && LastHit(e, lines) && Loose(e, lines) && !Vanishes(e, lines[|lines| - 1])
    ensures Going(e, lines)
  {
  }

  /** Every one-line needle: the loop ends exactly when no line of the replacement
      matches it, there is nothing to replace, or its matches are lost one by one. */
  lemma OneLineExact(e: Edit, content: string)
    requires |e.needle| == 1 && e.trailing == EndsInNewline(content)
    ensures Ends(e, content) <==>
            || NoneMatches(e)
            || Stuck(e, content)
            || (Frail(e) && BlankRunsOut(e, ToLines(content)))
  {
    hide ToLines, Stuck, Ends, EndsInNewline, Reproduces, Lasting, Apart, BlankRunsOut, NoneMatches, Frail;
    FrailOrLasting(e);
    OneLineApart(e);
    if Frail(e) { BlankEnds(e, content); } else { OneLineEnds(e, content); }
  }

  lemma SomeGoing(e: Edit, lines: seq<string>, k: nat)
    requires Frail(e) && k < |lines| && Hit(e, lines[k]) && !(LastHit(e, lines) && Loose(e, lines))
    requires !e.trailing ==> lines[|lines| - 1] != ""
    requires !exists p: nat :: Run(e, lines, p) && Settles(e, lines, p)
    ensures Going(e, lines)
  {
    hide Same, ToLines, Settles, Close;
    var last := |lines| - 1;
    OneIsLast(e, lines, k);
    if !e.trailing && !Hit(e, lines[last]) {
      assert Backs(e, lines[last]);
    } else if !e.trailing {
      var i :| 0 <= i < last && Hit(e, lines[i]);
      if |Lines(e)| > 1 {
        assert Backs(e, lines[last]);
      } else if LastOf(e) != "" {
        assert Filled(e, lines);
      } else if p, q :| 0 <= p < q < |lines| && Hit(e, lines[p]) && !Hit(e, lines[q]) {
        assert Backs(e, lines[q]);
      } else {
        assert Lines(e) == [""];
        var p := FirstHit(e, lines, k);
        assert Run(e, lines, p);
        assert Lingers(e, lines);
      }
    }
  }

  lemma {:induction false} FirstHit(e: Edit, lines: seq<string>, k: nat) returns (p: nat)
    requires |e.needle| == 1 && k < |lines| && Hit(e, lines[k])
    ensures p <= k && Hit(e, lines[p]) && forall i :: 0 <= i < p ==> !Hit(e, lines[i])
    decreases k
  {
    hide Hit;
    if i: nat :| i < k && Hit(e, lines[i]) { p := FirstHit(e, lines, i); } else { p := k; }
  }

  lemma OneIsLast(e: Edit, lines: seq<string>, k: nat)
    requires |e.needle| == 1 && k < |lines| && Hit(e, lines[k])
    ensures |lines| == 1 ==> LastHit(e, lines) && Loose(e, lines)
  {
    hide Same;
  }
}
