/** A replacement with as many lines as the needle that the needle itself matches, so
    that a match can go only by the loss of a last line: exactly when the loop with
    count 0 ends there. */
module EvenEdit {
  import opened Fuzzy
  import opened FuzzyReplace

  predicate Blank(line: string) {
    Same(NORMALIZED, line, "")
  }

  predicate SomeText(lines: seq<string>) {
    exists i :: 0 <= i < |lines| && !Blank(lines[i])
  }

  /** The needle matches all of the replacement, and nothing keeps its last line. */
  predicate Fragile(e: Edit) {
    && |ToLines(e.text)| == |e.needle| > 0 && MatchesAt(NORMALIZED, ToLines(e.text), e.needle, 0)
    && SomeText(e.needle) && Blank(e.needle[|e.needle| - 1]) && !e.trailing
  }

  /** Every other such replacement is covered by its lasting match. */
  lemma FragileOrLasting(e: Edit)
    requires |ToLines(e.text)| <= |e.needle| && SomeText(e.needle)
    ensures Fragile(e) <==> Reproduces(e) && !Lasting(e)
  {
    hide ToLines, MatchesAt, Same;
    var lines := ToLines(e.text);
    forall k: nat | MatchesAt(NORMALIZED, lines, e.needle, k) ensures k == 0 && |lines| == |e.needle| {
      WindowFits(lines, e.needle, k);
    }
    BlankBoth(e.needle[|e.needle| - 1]);
    assert |e.needle| == 1 ==> !Blank(e.needle[0]);
    assert Lasting(e) <==> MatchesAt(NORMALIZED, lines, e.needle, 0) && Survives(e, lines, 0);
  }

  lemma BlankBoth(line: string)
    ensures Blank(line) <==> Same(NORMALIZED, "", line)
  {
    hide Normalize, TrimSpace;
  }

  // ---------- one replacement ----------

  /** Line by line the two look alike to any line. */
  ghost predicate LooksLike(a: seq<string>, b: seq<string>) {
    |a| == |b| && forall line :: AlikeTo(a, b, line)
  }

  lemma LikeMatches(a: seq<string>, b: seq<string>, needle: seq<string>, k: nat)
    requires LooksLike(a, b)
    ensures MatchesAt(NORMALIZED, a, needle, k) <==> MatchesAt(NORMALIZED, b, needle, k)
  {
    hide Same;
    if k + |needle| <= |a| {
      forall i | 0 <= i < |needle|
        ensures Same(NORMALIZED, a[k + i], needle[i]) <==> Same(NORMALIZED, b[k + i], needle[i])
      {
        assert AlikeTo(a, b, needle[i]);
      }
    }
  }

  lemma LikeBlank(a: seq<string>, b: seq<string>, i: nat)
    requires LooksLike(a, b) && i < |a|
    ensures Blank(a[i]) <==> Blank(b[i])
  {
    hide Same;
    assert AlikeTo(a, b, "");
  }

  /** A replacement changes nothing that the weakest comparison sees, but the last
      line can be lost. */
  lemma TurnOf(e: Edit, current: string, f: Found, next: string) returns (out: seq<string>)
    requires Fragile(e) && Replaces(e, current, f, next)
    ensures var hay, s, m := ToLines(current), f.start, |e.needle|;
            && MatchesAt(NORMALIZED, hay, e.needle, s) && s + m <= |hay| && |SpliceIn(e, hay, f)| == m
            && out == hay[..s] + SpliceIn(e, hay, f) + hay[s + m..]
            && LooksLike(hay, out) && ToLines(next) == Reread(out, false)
  {
    hide ToLines, MatchesAt, AlikeTo, SpliceIn, Reread, BestMatch, FromLines, Spliced, SomeText, Blank;
    var hay, s, m := ToLines(current), f.start, |e.needle|;
    ReplacesLines(e, current, f, next);
    BestMatches(hay, e.needle, f);
    SplicedIs(e, hay, f);
    SpliceSize(e, hay, f);
    out := Spliced(e, hay, f);
    forall line ensures AlikeTo(hay, out, line) {
      WindowAlike(hay, e.needle, s, line);
      WindowAlike(ToLines(e.text), e.needle, 0, line);
      SpliceAlike(e, hay, f, line);
      assert ToLines(e.text)[0..0 + m] == ToLines(e.text);
      PutAlike(hay, s, m, e.needle, ToLines(e.text), SpliceIn(e, hay, f), line);
    }
  }

  lemma BestMatches(hay: seq<string>, needle: seq<string>, f: Found)
    requires BestMatch(hay, needle, f)
    ensures MatchesAt(NORMALIZED, hay, needle, f.start)
  {
    hide MatchesAt;
    MatchWeakens(f.level, hay, needle, f.start);
  }

  lemma PutAlike(hay: seq<string>, s: nat, m: nat, needle: seq<string>, lines: seq<string>, put: seq<string>,
                 line: string)
    requires s + m <= |hay| && |put| == m
    requires AlikeTo(hay[s..s + m], needle, line) && AlikeTo(lines, needle, line) && AlikeTo(put, lines, line)
    ensures AlikeTo(hay, hay[..s] + put + hay[s + m..], line)
  {
    hide Same;
    var out := hay[..s] + put + hay[s + m..];
    forall i | 0 <= i < |hay| ensures Same(NORMALIZED, hay[i], line) <==> Same(NORMALIZED, out[i], line) {
      if s <= i < s + m { assert hay[i] == hay[s..s + m][i - s] && out[i] == put[i - s]; }
    }
  }

  // ---------- a match with text behind it ----------

  ghost predicate TextBehind(e: Edit, lines: seq<string>) {
    exists k: nat, j :: MatchesAt(NORMALIZED, lines, e.needle, k) && k + |e.needle| <= j < |lines| && !Blank(lines[j])
  }

  lemma TextBehindStep(e: Edit, current: string, f: Found, next: string)
    requires Fragile(e) && TextBehind(e, ToLines(current)) && Replaces(e, current, f, next)
    ensures TextBehind(e, ToLines(next))
  {
    hide ToLines, MatchesAt, Fragile, Replaces, SpliceIn, LooksLike, Blank;
    var hay, after := ToLines(current), ToLines(next);
    var out := TurnOf(e, current, f, next);
    var k: nat, j :| MatchesAt(NORMALIZED, hay, e.needle, k) && k + |e.needle| <= j < |hay| && !Blank(hay[j]);
    LikeMatches(hay, out, e.needle, k);
    LikeBlank(hay, out, j);
    EmptyIsBlank();
    MatchInPrefix(out, e.needle, k, |after|);
    assert after[j] == out[j];
  }

  lemma EmptyIsBlank()
    ensures Blank("")
  {
    LikeItself("");
  }

  /** A match stays one as long as its lines do, and no other arises. */
  lemma MatchInPrefix(lines: seq<string>, needle: seq<string>, k: nat, n: nat)
    requires n <= |lines|
    ensures MatchesAt(NORMALIZED, lines[..n], needle, k)
            <==> MatchesAt(NORMALIZED, lines, needle, k) && k + |needle| <= n
  {
    hide Same;
    if k + |needle| <= n {
      forall i | 0 <= i < |needle|
        ensures Same(NORMALIZED, lines[..n][k + i], needle[i]) <==> Same(NORMALIZED, lines[k + i], needle[i])
      {
        assert lines[..n][k + i] == lines[k + i];
      }
    }
  }

  // ---------- only one match ----------

  ghost predicate OnlyMatch(e: Edit, lines: seq<string>, k: nat) {
    MatchesAt(NORMALIZED, lines, e.needle, k)
    && forall i: nat :: MatchesAt(NORMALIZED, lines, e.needle, i) ==> i == k
  }

  /** Of two matches the first has text behind it. */
  lemma TwoMatches(e: Edit, lines: seq<string>, k: nat, l: nat)
    requires SomeText(e.needle) && k < l
    requires MatchesAt(NORMALIZED, lines, e.needle, k) && MatchesAt(NORMALIZED, lines, e.needle, l)
    ensures TextBehind(e, lines)
  {
    hide MatchesAt, Same, Blank;
    var i :| 0 <= i < |e.needle| && !Blank(e.needle[i]);
    var q := LastText(e.needle, i);
    WindowFits(lines, e.needle, k);
    WindowFits(lines, e.needle, l);
    MatchBlank(lines, e.needle, l, q);
    if l + q < k + |e.needle| { MatchBlank(lines, e.needle, k, l + q - k); }
  }

  lemma {:induction false} LastText(lines: seq<string>, i: nat) returns (q: nat)
    requires i < |lines| && !Blank(lines[i])
    ensures q < |lines| && !Blank(lines[q]) && forall j :: q < j < |lines| ==> Blank(lines[j])
    decreases |lines| - i
  {
    hide Blank;
    if j :| i < j < |lines| && !Blank(lines[j]) { q := LastText(lines, j); } else { q := i; }
  }

  lemma MatchBlank(lines: seq<string>, needle: seq<string>, k: nat, i: nat)
    requires i < |needle| && MatchesAt(NORMALIZED, lines, needle, k)
    ensures k + i < |lines| && (Blank(lines[k + i]) <==> Blank(needle[i]))
  {
    hide Same;
    assert Same(NORMALIZED, lines[k + i], needle[i]);
    Alike(lines[k + i], needle[i], "");
  }

  lemma OnlyAfter(e: Edit, hay: seq<string>, out: seq<string>, k: nat)
    requires LooksLike(hay, out) && OnlyMatch(e, hay, k)
    ensures OnlyMatch(e, out, k)
  {
    hide MatchesAt, LooksLike;
    LikeMatches(hay, out, e.needle, k);
    forall i: nat | MatchesAt(NORMALIZED, out, e.needle, i) ensures i == k {
      LikeMatches(hay, out, e.needle, i);
    }
  }

  // ---------- lines behind the only match ----------

  ghost predicate LineBehind(e: Edit, lines: seq<string>) {
    exists k: nat :: OnlyMatch(e, lines, k) && k + |e.needle| < |lines| && lines[|lines| - 1] != ""
  }

  lemma LineBehindStep(e: Edit, current: string, f: Found, next: string)
    requires Fragile(e) && LineBehind(e, ToLines(current)) && Replaces(e, current, f, next)
    ensures LineBehind(e, ToLines(next))
  {
    hide ToLines, MatchesAt, Fragile, Replaces, SpliceIn, LooksLike;
    var hay := ToLines(current);
    var k: nat :| OnlyMatch(e, hay, k) && k + |e.needle| < |hay| && hay[|hay| - 1] != "";
    var out := TurnOf(e, current, f, next);
    OnlyAfter(e, hay, out, k);
    assert f.start == k;
    assert out[|out| - 1] == hay[|hay| - 1];
  }

  // ---------- the only match at the end ----------

  ghost predicate AtEnd(e: Edit, lines: seq<string>) {
    |e.needle| <= |lines| && OnlyMatch(e, lines, |lines| - |e.needle|)
  }

  function LastLines(e: Edit, lines: seq<string>): seq<string> {
    if |e.needle| <= |lines| then lines[|lines| - |e.needle|..] else []
  }

  /** Lines the needle matches without re-indenting. */
  predicate CloseLines(e: Edit, window: seq<string>) {
    MatchesAt(TRIM_TRAILING, window, e.needle, 0)
  }

  /** What is put in their place. */
  function NewLines(e: Edit, window: seq<string>): seq<string> {
    if CloseLines(e, window) then ToLines(e.text)
    else Indented(ToLines(e.text), if |window| > 0 then DetectIndent(window[0]) else "")
  }

  /** After one turn or two the last line is empty. */
  predicate Vanishes(e: Edit, window: seq<string>) {
    var lines := ToLines(e.text);
    |lines| > 0 && TrimLeft(lines[|lines| - 1], IsBlank) == ""
    && (lines[|lines| - 1] == "" || !CloseLines(e, window) || !CloseLines(e, lines))
  }

  lemma NewLinesEnd(e: Edit, window: seq<string>)
    requires Fragile(e)
    ensures |NewLines(e, window)| == |ToLines(e.text)| == |e.needle| > 0
    ensures var w, l := ToLines(e.text)[|e.needle| - 1], NewLines(e, window)[|e.needle| - 1];
            && (TrimLeft(w, IsBlank) != "" ==> l != "")
            && (TrimLeft(w, IsBlank) == "" ==> l == if CloseLines(e, window) then w else "")
  {
    hide ToLines, MatchesAt, CloseLines;
  }

  /** Only what matches at the end can be close. */
  lemma EndLevel(e: Edit, hay: seq<string>, f: Found)
    requires AtEnd(e, hay) && BestMatch(hay, e.needle, f)
    ensures f.start == |hay| - |e.needle|
    ensures f.level < TRIM_ALL <==> CloseLines(e, LastLines(e, hay))
  {
    hide MatchesAt;
    BestMatches(hay, e.needle, f);
    SuffixMatch(TRIM_TRAILING, hay, e.needle);
    if f.level < TRIM_ALL { MatchTrims(f.level, hay, e.needle, f.start); }
  }

  lemma SuffixMatch(level: int, hay: seq<string>, needle: seq<string>)
    requires |needle| <= |hay|
    ensures MatchesAt(level, hay, needle, |hay| - |needle|) <==> MatchesAt(level, hay[|hay| - |needle|..], needle, 0)
  {
    hide Same;
    var s := |hay| - |needle|;
    forall i | 0 <= i < |needle|
      ensures Same(level, hay[s..][0 + i], needle[i]) <==> Same(level, hay[s + i], needle[i])
    {
      assert hay[s..][0 + i] == hay[s + i];
    }
  }

  lemma MatchTrims(level: int, hay: seq<string>, needle: seq<string>, k: nat)
    requires EXACT <= level <= TRIM_TRAILING && MatchesAt(level, hay, needle, k)
    ensures MatchesAt(TRIM_TRAILING, hay, needle, k)
  {
    hide Same;
    forall i | 0 <= i < |needle| ensures Same(TRIM_TRAILING, hay[k + i], needle[i]) {
      Nested(hay[k + i], needle[i], level, TRIM_TRAILING);
    }
  }

  lemma PutIsNew(e: Edit, hay: seq<string>, f: Found)
    requires AtEnd(e, hay) && BestMatch(hay, e.needle, f) && |e.needle| > 0
    ensures f.start < |hay| && SpliceIn(e, hay, f) == NewLines(e, LastLines(e, hay))
  {
    EndLevel(e, hay, f);
    hide ToLines, BestMatch, OnlyMatch, CloseLines, Indented, DetectIndent;
  }

  /** The turn at the only match: its lines are replaced, and if the last one is
      empty it goes and nothing matches any more. */
  lemma EndTurn(e: Edit, current: string, f: Found, next: string)
    requires Fragile(e) && AtEnd(e, ToLines(current)) && Replaces(e, current, f, next)
    ensures var put, after := NewLines(e, LastLines(e, ToLines(current))), ToLines(next);
            && |put| > 0
            && (put[|put| - 1] == "" ==> Stuck(e, next))
            && (put[|put| - 1] != "" ==> AtEnd(e, after) && LastLines(e, after) == put)
  {
    hide ToLines, MatchesAt, BestMatch, SpliceIn, NewLines, LooksLike, SomeText, Blank, FromLines, Spliced, Stuck;
    var hay, after := ToLines(current), ToLines(next);
    var out := TurnOf(e, current, f, next);
    EndLevel(e, hay, f);
    PutIsNew(e, hay, f);
    OnlyAfter(e, hay, out, f.start);
    var put := NewLines(e, LastLines(e, hay));
    assert out == hay[..f.start] + put;
    if put[|put| - 1] == "" {
      assert after == out[..|out| - 1];
      LostMatch(e, next, out);
    } else {
      assert after == out;
    }
  }

  lemma LostMatch(e: Edit, text: string, out: seq<string>)
    requires |e.needle| > 0 && AtEnd(e, out) && ToLines(text) == out[..|out| - 1]
    ensures Stuck(e, text)
  {
    hide ToLines, MatchesAt;
    WeakestDecides(ToLines(text), e.needle);
    forall k: nat ensures !MatchesAt(NORMALIZED, ToLines(text), e.needle, k) {
      MatchInPrefix(out, e.needle, k, |out| - 1);
    }
  }

  // ---------- going on for ever ----------

  ghost predicate Going(e: Edit, lines: seq<string>) {
    || TextBehind(e, lines)
    || LineBehind(e, lines)
    || (AtEnd(e, lines) && !Vanishes(e, LastLines(e, lines)))
  }

  lemma GoingStep(e: Edit, current: string, f: Found, next: string)
    requires Fragile(e) && Going(e, ToLines(current)) && Replaces(e, current, f, next)
    ensures Going(e, ToLines(next))
  {
    hide ToLines, TextBehind, LineBehind, AtEnd, Replaces, LastLines, CloseLines, NewLines, TrimLeft, Stuck, Fragile;
    var hay := ToLines(current);
    if TextBehind(e, hay) {
      TextBehindStep(e, current, f, next);
    } else if LineBehind(e, hay) {
      LineBehindStep(e, current, f, next);
    } else {
      EndTurn(e, current, f, next);
      NewLinesEnd(e, LastLines(e, hay));
      NewLinesAre(e, LastLines(e, hay));
    }
  }

  lemma NewLinesAre(e: Edit, window: seq<string>)
    ensures CloseLines(e, window) ==> NewLines(e, window) == ToLines(e.text)
  {
  }

  lemma GoingNotStuck(e: Edit, text: string)
    requires Fragile(e) && Going(e, ToLines(text))
    ensures !Stuck(e, text)
  {
    hide ToLines, MatchesAt, Blank, Stuck, Vanishes, SomeText;
    var k: nat :| MatchesAt(NORMALIZED, ToLines(text), e.needle, k);
    MatchedNotStuck(e, text, k);
  }

  lemma {:induction false} GoingOn(e: Edit, texts: seq<string>, founds: seq<Found>)
    requires Fragile(e) && Chain(e, texts, founds) && Going(e, ToLines(texts[0]))
    ensures Going(e, ToLines(texts[|founds|]))
    decreases |founds|
  {
    hide Going, Replaces, ToLines, Fragile;
    if |founds| > 0 {
      var n := |founds| - 1;
      ChainPrefix(e, texts, founds);
      GoingOn(e, texts[..n + 1], founds[..n]);
      GoingStep(e, texts[n], founds[n], texts[n + 1]);
    }
  }

  lemma GoingNeverEnds(e: Edit, content: string)
    requires Fragile(e) && Going(e, ToLines(content))
    ensures !Ends(e, content) && !Stuck(e, content)
  {
    hide Going, Stuck, Chain, ToLines, Fragile;
    GoingNotStuck(e, content);
    if texts, founds :| EndsBy(e, content, texts, founds) {
      ChainSize(e, texts, founds);
      GoingOn(e, texts, founds);
      GoingNotStuck(e, texts[|founds|]);
      assert false;
    }
  }

  // ---------- coming to an end ----------

  predicate EndsEmpty(lines: seq<string>) {
    |lines| > 0 && lines[|lines| - 1] == ""
  }

  lemma EmptySoon(e: Edit, window: seq<string>)
    requires Fragile(e) && Vanishes(e, window)
    ensures |NewLines(e, window)| > 0
    ensures EndsEmpty(NewLines(e, window)) || EndsEmpty(NewLines(e, NewLines(e, window)))
  {
    hide ToLines, CloseLines, NewLines, TrimLeft, Fragile;
    NewLinesEnd(e, window);
    NewLinesAre(e, window);
    NewLinesEnd(e, ToLines(e.text));
  }

  lemma VanishesEnds(e: Edit, content: string)
    requires Fragile(e) && AtEnd(e, ToLines(content)) && Vanishes(e, LastLines(e, ToLines(content)))
    ensures Ends(e, content)
  {
    hide ToLines, AtEnd, Stuck, Replaces, Chain, NewLines, LastLines, Vanishes, Fragile, Ends;
    EmptySoon(e, LastLines(e, ToLines(content)));
    if Stuck(e, content) {
      StuckEnds(e, content);
    } else {
      var f, next := NextText(e, content);
      EndTurn(e, content, f, next);
      if Stuck(e, next) { EndsAtOnce(e, content, f, next); } else { VanishesAgain(e, content, f, next); }
    }
  }

  /** The second turn, at the lines the first one wrote. */
  lemma VanishesAgain(e: Edit, content: string, f: Found, next: string)
    requires Fragile(e) && AtEnd(e, ToLines(next)) && Replaces(e, content, f, next) && !Stuck(e, next)
    requires EndsEmpty(NewLines(e, LastLines(e, ToLines(next))))
    ensures Ends(e, content)
  {
    hide ToLines, AtEnd, Stuck, Replaces, Chain, NewLines, LastLines;
    var g, third := NextText(e, next);
    EndTurn(e, next, g, third);
    ChainStart(e, content);
    ChainMore(e, [content], [], f, next);
    var texts, founds := [content] + [next], [] + [f];
    ChainMore(e, texts, founds, g, third);
    assert EndsBy(e, content, texts + [third], founds + [g]);
  }

  // ---------- exactly when ----------

  /** Such a loop ends exactly when there is nothing to replace, or the only match is
      at the very end and the line put in last is lost. */
  lemma EvenExact(e: Edit, content: string)
    requires Fragile(e) && e.trailing == EndsInNewline(content)
    ensures var lines := ToLines(content);
            Ends(e, content) <==> Stuck(e, content) || (AtEnd(e, lines) && Vanishes(e, LastLines(e, lines)))
  {
    hide ToLines, Stuck, Vanishes, Ends, EndsInNewline, OnlyMatch, LineBehind, TextBehind, MatchesAt, Going, LastLines;
    var lines := ToLines(content);
    if Stuck(e, content) {
      StuckEnds(e, content);
    } else if !AtEnd(e, lines) {
      NotAtEnd(e, content);
      GoingNeverEnds(e, content);
    } else if Vanishes(e, LastLines(e, lines)) {
      VanishesEnds(e, content);
    } else {
      assert Going(e, lines) by { StaysGoing(e, lines); }
      GoingNeverEnds(e, content);
    }
  }

  lemma StaysGoing(e: Edit, lines: seq<string>)
    requires AtEnd(e, lines) && !Vanishes(e, LastLines(e, lines))
    ensures Going(e, lines)
  {
  }

  lemma NotAtEnd(e: Edit, content: string)
    requires Fragile(e) && e.trailing == EndsInNewline(content)
    requires !Stuck(e, content) && !AtEnd(e, ToLines(content))
    ensures Going(e, ToLines(content))
  {
    hide ToLines, MatchesAt, Blank, Vanishes, EndsInNewline, SomeText;
    var lines := ToLines(content);
    WeakestDecides(lines, e.needle);
    var k: nat :| MatchesAt(NORMALIZED, lines, e.needle, k);
    WindowFits(lines, e.needle, k);
    LastNotEmpty(content);
    if !TextBehind(e, lines) {
      forall l: nat | MatchesAt(NORMALIZED, lines, e.needle, l) ensures l == k {
        if k < l { TwoMatches(e, lines, k, l); } else if l < k { TwoMatches(e, lines, l, k); }
      }
      assert OnlyMatch(e, lines, k);
    }
  }

  /** Every replacement with no more lines than the needle, where the needle has some
      text: the loop ends exactly when the needle does not match the replacement,
      there is nothing to replace, or the one match at the end is lost. */
  lemma ShortExact(e: Edit, content: string)
    requires |ToLines(e.text)| <= |e.needle| && SomeText(e.needle) && e.trailing == EndsInNewline(content)
    ensures var lines := ToLines(content);
            Ends(e, content) <==>
            || !Reproduces(e)
            || Stuck(e, content)
            || (Fragile(e) && AtEnd(e, lines) && Vanishes(e, LastLines(e, lines)))
  {
    hide ToLines, Stuck, Ends, EndsInNewline, Reproduces, Lasting, Fragile, AtEnd, Vanishes, LastLines, Blank;
    FragileOrLasting(e);
    if Fragile(e) { EvenExact(e, content); } else { NoLongerExact(e, content); }
  }
}
