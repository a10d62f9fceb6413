/** The line and column the lexer keeps, against the ones computed from the
    byte offset. */
module LexPositions {
  import opened Tokens
  import opened Lexing

  /** Newlines among the `n` bytes from `i` on. */
  function Newlines(s: string, i: nat, n: nat): nat
    decreases n
  {
    if n == 0 then 0 else (if Ch(s, i) == '\n' then 1 else 0) + Newlines(s, i + 1, n - 1)
  }

  /** 1-based line of offset `i`. */
  function LineOf(s: string, i: nat): int {
    1 + Newlines(s, 0, i)
  }

  /** 1-based column of offset `i`: the distance to the last newline before it. */
  function ColOf(s: string, i: nat): int {
    if i == 0 || Ch(s, i - 1) == '\n' then 1 else ColOf(s, i - 1) + 1
  }

  /** How many newlines the cursor has missed. */
  function Lag(s: string, st: State): int {
    LineOf(s, st.pos) - st.line
  }

  predicate Good(s: string, st: State) {
    Lag(s, st) == 0 && st.col == ColOf(s, st.pos)
  }

  lemma {:induction false} NewlinesSplit(s: string, i: nat, n: nat, m: nat)
    ensures Newlines(s, i, n + m) == Newlines(s, i, n) + Newlines(s, i + n, m)
    decreases n
  {
    if n > 0 { NewlinesSplit(s, i + 1, n - 1, m); }
  }

  lemma {:induction false} NoNewlines(s: string, i: nat, n: nat)
    requires forall k :: i <= k < i + n ==> Ch(s, k) != '\n'
    ensures Newlines(s, i, n) == 0
    decreases n
  {
    if n > 0 { NoNewlines(s, i + 1, n - 1); }
  }

  /** Reading `n` bytes without adjusting the line misses their newlines. */
  lemma {:induction false} StepLag(s: string, st: State, n: nat)
    ensures Lag(s, Step(st, n)) == Lag(s, st) + Newlines(s, st.pos, n)
    ensures Good(s, st) && Newlines(s, st.pos, n) == 0 ==> Good(s, Step(st, n))
    decreases n
  {
    NewlinesSplit(s, 0, st.pos, n);
    if n > 0 {
      NewlinesSplit(s, st.pos, n - 1, 1);
      StepLag(s, st, n - 1);
      assert Newlines(s, st.pos + n - 1, 1) == if Ch(s, st.pos + n - 1) == '\n' then 1 else 0;
    }
  }

  /** Reading a newline the way the lexer does keeps up with it. */
  lemma NewlineStep(s: string, st: State)
    requires Ch(s, st.pos) == '\n'
    ensures Lag(s, State(st.pos + 1, st.line + 1, 1)) == Lag(s, st)
    ensures Good(s, st) ==> Good(s, State(st.pos + 1, st.line + 1, 1))
  {
    NewlinesSplit(s, 0, st.pos, 1);
    assert Newlines(s, st.pos, 1) == 1 + Newlines(s, st.pos + 1, 0);
  }

  /** The move keeps the lag, and exact positions exact. */
  predicate Follows(s: string, st: State, r: State) {
    Lag(s, r) == Lag(s, st) && (Good(s, st) ==> Good(s, r))
  }

  lemma PlainStep(s: string, st: State, n: nat)
    requires forall k :: st.pos <= k < st.pos + n ==> Ch(s, k) != '\n'
    ensures Follows(s, st, Step(st, n))
  {
    NoNewlines(s, st.pos, n);
    StepLag(s, st, n);
  }

  lemma {:induction false} BlanksHaveNoNewline(s: string, i: nat)
    ensures forall k :: i <= k < BlankEnd(s, i) ==> Ch(s, k) != '\n'
    decreases |s| - i
  {
    if IsBlank(Ch(s, i)) { BlanksHaveNoNewline(s, i + 1); }
  }

  lemma {:induction false} LineCommentHasNoNewline(s: string, i: nat)
    ensures forall k :: i <= k < LineCommentEnd(s, i) ==> Ch(s, k) != '\n'
    decreases |s| - i
  {
    if Ch(s, i) != '\n' && Ch(s, i) != NUL { LineCommentHasNoNewline(s, i + 1); }
  }

  lemma {:induction false} BlockCommentFollows(s: string, st: State)
    ensures Follows(s, st, BlockComment(s, st))
    decreases |s| - st.pos
  {
    var c := Ch(s, st.pos);
    if c == '\n' {
      NewlineStep(s, st);
      BlockCommentFollows(s, State(st.pos + 1, st.line + 1, 1));
    } else if c == '*' && Ch(s, st.pos + 1) == '/' {
      PlainStep(s, st, 2);
    } else if c != NUL {
      PlainStep(s, st, 1);
      BlockCommentFollows(s, Step(st, 1));
    }
  }

  /** Blanks and both kinds of comments are followed exactly. */
  lemma {:induction false} TriviaFollows(s: string, st: State)
    ensures Follows(s, st, SkipTrivia(s, st))
    decreases |s| - st.pos
  {
    hide BlankEnd, LineCommentEnd, BlockComment, Good, Lag;
    var a := Step(st, BlankEnd(s, st.pos) - st.pos);
    BlanksHaveNoNewline(s, st.pos);
    PlainStep(s, st, BlankEnd(s, st.pos) - st.pos);
    if Ch(s, a.pos) == '/' && Ch(s, a.pos + 1) == '/' {
      LineCommentHasNoNewline(s, a.pos);
      LineCommentMoves(s, a.pos);
      PlainStep(s, a, LineCommentEnd(s, a.pos) - a.pos);
      TriviaFollows(s, Step(a, LineCommentEnd(s, a.pos) - a.pos));
    } else if Ch(s, a.pos) == '/' && Ch(s, a.pos + 1) == '*' {
      PlainStep(s, a, 2);
      BlockCommentFollows(s, Step(a, 2));
      TriviaFollows(s, BlockComment(s, Step(a, 2)));
    }
  }

  lemma LineCommentMoves(s: string, i: nat)
    requires Ch(s, i) == '/'
    ensures LineCommentEnd(s, i) > i
  {
  }

  lemma {:induction false} WordHasNoNewline(s: string, i: nat)
    ensures forall k :: i <= k < WordEnd(s, i) ==> Ch(s, k) != '\n'
    decreases |s| - i
  {
    if IsLetter(Ch(s, i)) || IsDigit(Ch(s, i)) { WordHasNoNewline(s, i + 1); }
  }

  lemma {:induction false} DigitsHaveNoNewline(s: string, i: nat)
    ensures forall k :: i <= k < DigitsEnd(s, i) ==> Ch(s, k) != '\n'
    decreases |s| - i
  {
    if IsDigit(Ch(s, i)) { DigitsHaveNoNewline(s, i + 1); }
  }

  lemma NumberHasNoNewline(s: string, i: nat)
    ensures forall k :: i <= k < NumberEnd(s, i) ==> Ch(s, k) != '\n'
  {
    hide DigitsEnd;
    var j := DigitsEnd(s, i);
    DigitsHaveNoNewline(s, i);
    DigitsHaveNoNewline(s, j + 1);
    var d := DecimalEnd(s, i);
    assert forall k :: i <= k < d ==> Ch(s, k) != '\n';
    forall k | d <= k < d + DurationSuffix(s, d) ensures Ch(s, k) != '\n' {
      if k != d { assert k == d + 1; }
    }
  }

  lemma OperatorHasNoNewline(s: string, i: nat)
    requires Ch(s, i) != '\n'
    ensures forall k :: i <= k < i + Operator(s, i).1 ==> Ch(s, k) != '\n'
  {
    forall k | i <= k < i + Operator(s, i).1 ensures Ch(s, k) != '\n' {
      if k != i { assert k == i + 1 || k == i + 2; }
    }
  }

  /** A token is a string literal with a raw newline inside. */
  predicate BreaksLine(s: string, st: State) {
    var a := SkipTrivia(s, st);
    Ch(s, a.pos) == '"' && Newlines(s, a.pos, Scan(s, a).1.pos - a.pos) > 0
  }

  lemma ScanFollows(s: string, a: State)
    ensures Lag(s, Scan(s, a).1) >= Lag(s, a)
    ensures Ch(s, a.pos) != '"' ==> Follows(s, a, Scan(s, a).1)
    ensures Ch(s, a.pos) == '"' ==>
              var n := Newlines(s, a.pos, Scan(s, a).1.pos - a.pos);
              Lag(s, Scan(s, a).1) == Lag(s, a) + n && (n == 0 ==> Follows(s, a, Scan(s, a).1))
  {
    hide Good, Lag, Newlines, StringBody, WordEnd, NumberEnd, Operator, LookupIdent, NumberType;
    var c := Ch(s, a.pos);
    if c == NUL {
      PlainStep(s, a, 1);
    } else if c == '\n' {
      NewlineStep(s, a);
    } else if c == '"' {
      var n := StringBody(s, a.pos + 1).1 + 1 - a.pos;
      StringFollows(s, a, n);
    } else if IsLetter(c) {
      WordHasNoNewline(s, a.pos);
      PlainStep(s, a, WordEnd(s, a.pos) - a.pos);
    } else if IsDigit(c) {
      NumberHasNoNewline(s, a.pos);
      PlainStep(s, a, NumberEnd(s, a.pos) - a.pos);
    } else {
      OperatorHasNoNewline(s, a.pos);
      PlainStep(s, a, Operator(s, a.pos).1);
    }
  }

  lemma StringFollows(s: string, a: State, n: nat)
    ensures Lag(s, Step(a, n)) == Lag(s, a) + Newlines(s, a.pos, n)
    ensures Newlines(s, a.pos, n) == 0 ==> Follows(s, a, Step(a, n))
  {
    StepLag(s, a, n);
  }

  /** One token: from an exact cursor its position is exact, and the cursor
      stays exact if and only if the token is no line-breaking string. */
  lemma NextPosition(s: string, st: State)
    requires Good(s, st)
    ensures var t := Next(s, st);
            t.0.line == LineOf(s, SkipTrivia(s, st).pos) && t.0.col == ColOf(s, SkipTrivia(s, st).pos)
    ensures Good(s, Next(s, st).1) <==> !BreaksLine(s, st)
    ensures BreaksLine(s, st) ==> Lag(s, Next(s, st).1) > 0
  {
    hide Scan, SkipTrivia, ColOf, Newlines;
    TriviaFollows(s, st);
    ScanFollows(s, SkipTrivia(s, st));
  }

  /** Where the tokens of `Collect` start. */
  function Offsets(s: string, st: State): (r: seq<nat>)
    ensures |r| == |Collect(s, st)|
    decreases |s| - st.pos
  {
    var t := Next(s, st);
    [SkipTrivia(s, st).pos] + if t.0.sym.typ == EOF then [] else Offsets(s, t.1)
  }

  predicate Exact(s: string, t: Token, offset: nat) {
    t.line == LineOf(s, offset) && t.col == ColOf(s, offset)
  }

  /** Some token of the run before its EOF breaks a line. */
  predicate SomeBreak(s: string, st: State)
    decreases |s| - st.pos
  {
    var t := Next(s, st);
    t.0.sym.typ != EOF && (BreaksLine(s, st) || SomeBreak(s, t.1))
  }

  predicate AllExact(s: string, ts: seq<Token>, offsets: seq<nat>)
    requires |ts| == |offsets|
  {
    forall k :: 0 <= k < |ts| ==> Exact(s, ts[k], offsets[k])
  }

  lemma AllExactSplit(s: string, t: Token, ts: seq<Token>, o: nat, os: seq<nat>)
    requires |ts| == |os|
    ensures AllExact(s, [t] + ts, [o] + os) <==> Exact(s, t, o) && AllExact(s, ts, os)
  {
    hide Exact;
    if AllExact(s, [t] + ts, [o] + os) {
      assert Exact(s, ([t] + ts)[0], ([o] + os)[0]);
      forall k | 0 <= k < |ts| ensures Exact(s, ts[k], os[k]) {
        assert Exact(s, ([t] + ts)[k + 1], ([o] + os)[k + 1]);
      }
    }
  }

  /** A cursor that lags never catches up: some reported position is wrong. */
  lemma {:induction false} LagStays(s: string, st: State)
    requires Lag(s, st) > 0
    ensures !AllExact(s, Collect(s, st), Offsets(s, st))
    decreases |s| - st.pos
  {
    hide Scan, SkipTrivia, ColOf, Newlines, AllExact;
    var a := SkipTrivia(s, st);
    TriviaFollows(s, st);
    ScanFollows(s, a);
    var t := Next(s, st);
    assert !Exact(s, t.0, a.pos);
    if t.0.sym.typ == EOF {
      AllExactSplit(s, t.0, [], a.pos, []);
      assert [t.0] + [] == [t.0] && [a.pos] + [] == [a.pos];
    } else {
      AllExactSplit(s, t.0, Collect(s, t.1), a.pos, Offsets(s, t.1));
    }
  }

  /** All the positions `CollectAll` reports are the ones computed from the
      byte offsets if and only if no string literal contains a raw newline. */
  lemma {:induction false} PositionsExact(s: string, st: State)
    requires Good(s, st)
    ensures AllExact(s, Collect(s, st), Offsets(s, st)) <==> !SomeBreak(s, st)
    decreases |s| - st.pos
  {
    hide Scan, SkipTrivia, ColOf, Newlines, AllExact, BreaksLine, Good, Lag;
    var a := SkipTrivia(s, st);
    var t := Next(s, st);
    NextPosition(s, st);
    hide Next;
    if t.0.sym.typ == EOF {
      AllExactSplit(s, t.0, [], a.pos, []);
      NoneExact(s);
      assert [t.0] + [] == [t.0] && [a.pos] + [] == [a.pos];
    } else {
      AllExactSplit(s, t.0, Collect(s, t.1), a.pos, Offsets(s, t.1));
      if BreaksLine(s, st) {
        LagStays(s, t.1);
      } else {
        PositionsExact(s, t.1);
      }
    }
  }

  lemma NoneExact(s: string)
    ensures AllExact(s, [], [])
  {
  }

  /** The lexer starts exact. */
  lemma StartExact(s: string)
    ensures Good(s, Start())
  {
  }
}
