/** The converse of the round trip: on input without grouping parentheses an
    error-free parse consumes exactly the print of its tree, and no operand of
    that tree needed parentheses. */
module PrattYield {
  import opened Tokens
  import opened Ast
  import opened Grammar
  import opened Printer
  import opened PrattRoundTrip

  /** No operand anywhere in the tree is one the printer would parenthesise. */
  predicate Bare(e: Expr) {
    match e
    case PrefixOp(_, right) => Bare(right) && LeftPrec(right) > PREFIX
    case InfixOp(left, op, right) =>
      Bare(left) && Bare(right) && RightOpen(left) >= Precedence(op.typ) && LeftPrec(right) > Precedence(op.typ)
    case Assignment(left, _, value) => Bare(left) && Bare(value) && RightOpen(left) >= SEND_PREC
    case Try(left) => Bare(left) && RightOpen(left) >= POSTFIX
    case Call(fn, args) =>
      Bare(fn) && RightOpen(fn) >= CALL && forall k :: 0 <= k < |args| ==> Bare(args[k].value)
    case FieldAccess(left, _) => Bare(left) && RightOpen(left) >= FIELD
    case Index(left, index) => Bare(left) && Bare(index) && RightOpen(left) >= FIELD
    case ListLit(elems) => forall k :: 0 <= k < |elems| ==> Bare(elems[k])
    case _ => true
  }

  /** A token after which an operand is complete. */
  predicate EndsOperand(t: TokenType) {
    t == IDENT || IsCheckedLiteral(t) || IsPlainAtom(t) || t == RPAREN || t == RBRACKET || t == QUESTION
  }

  /** The kinds of the operator fragment with the literals the lexer gives
      the punctuation. */
  predicate InFragment(s: Sym) {
    var t := s.typ;
    || (t == IDENT && s.lit != "") || IsCheckedLiteral(t) || IsPlainAtom(t)
    || t == BANG || IsBinary(t) || IsAssign(t)
    || s == OPEN_PAREN || s == CLOSE_PAREN || s == OPEN_BRACKET || s == CLOSE_BRACKET
    || s == COMMA_SYM || s == COLON_SYM || s == DOT_SYM || s == QUESTION_SYM
  }

  /** Token `k` of input starting at `lo` belongs to the fragment, opens no
      group and no leading-dot name, and is no trailing comma. */
  predicate Plain(c: Ctx, lo: nat, k: nat) {
    && InFragment(SymAt(c, k))
    && (Cur(c, k) == LPAREN || Cur(c, k) == DOT ==> k > lo && EndsOperand(Cur(c, k - 1)))
    && (Cur(c, k) == DOT ==> Cur(c, k + 1) == IDENT)
    && (Cur(c, k) == COMMA ==> Cur(c, k + 1) != RBRACKET)
  }

  predicate PlainRange(c: Ctx, lo: nat, i: nat, hi: nat) {
    forall k :: i <= k <= hi ==> Plain(c, lo, k)
  }

  /** An expression may start at `i`: nothing to its left is an operand. */
  predicate StartsOperand(c: Ctx, lo: nat, i: nat) {
    i == lo || (i > lo && !EndsOperand(Cur(c, i - 1)))
  }

  /** `e` is exactly tokens `i` to `j`, bare, and reachable at level `p`. */
  predicate Yields(c: Ctx, i: nat, j: nat, e: Expr, p: nat) {
    Printable(c, e) && Bare(e) && At(c, i, Print(e)) && j + 1 == i + |Print(e)| && p < LeftPrec(e)
  }

  lemma AtJoin(c: Ctx, i: nat, a: seq<Sym>, b: seq<Sym>)
    requires At(c, i, a) && At(c, i + |a|, b)
    ensures At(c, i, a + b)
  {
    assert c.toks[i..i + |a + b|] == c.toks[i..i + |a|] + c.toks[i + |a|..i + |a| + |b|];
  }

  lemma AtSym(c: Ctx, i: nat)
    requires i < |c.toks|
    ensures At(c, i, [SymAt(c, i)])
  {
  }

  lemma InTokens(c: Ctx, i: nat)
    requires InFragment(SymAt(c, i))
    ensures i < |c.toks|
  {
  }

  /** The loop leaves the parser before a token it does not take. */
  lemma {:induction false} LoopExit(c: Ctx, i: nat, p: nat, left: Expr)
    requires p >= LOWEST
    ensures StopsLoop(Cur(c, InfixLoop(c, i, p, left).at + 1), p)
    decreases Left(c, i)
  {
    hide ParseInfix, ParseExpression, ParsePrefix;
    var t := Cur(c, i + 1);
    if !StopsLoop(t, p) && HasInfixFn(t) {
      var a := ParseInfix(c, i + 1, left);
      LoopExit(c, a.at, p, a.v);
    } else {
      hide InfixLoop;
      NoInfixIsLowest(t);
      LoopDone(c, i, p, left);
    }
  }

  lemma LoopDone(c: Ctx, i: nat, p: nat, left: Expr)
    requires StopsLoop(Cur(c, i + 1), p) || !HasInfixFn(Cur(c, i + 1))
    ensures InfixLoop(c, i, p, left) == R(left, i, [])
  {
    hide ParseInfix, ParseExpression, ParsePrefix;
  }

  lemma NoInfixIsLowest(t: TokenType)
    ensures !HasInfixFn(t) ==> Precedence(t) == LOWEST
    ensures HasInfixFn(t) ==> IsBinary(t) || IsAssign(t) || t == DOT || t == LPAREN || t == LBRACKET || t == QUESTION
  {
  }

  /** An error-free step of the loop, with what follows it. */
  lemma LoopTurn(c: Ctx, i: nat, p: nat, left: Expr)
    requires !StopsLoop(Cur(c, i + 1), p) && HasInfixFn(Cur(c, i + 1)) && InfixLoop(c, i, p, left).errs == []
    ensures var a := ParseInfix(c, i + 1, left);
            a.errs == [] && InfixLoop(c, i, p, left) == InfixLoop(c, a.at, p, a.v)
  {
    hide ParseInfix, ParseExpression, ParsePrefix;
    var a := ParseInfix(c, i + 1, left);
    var b := InfixLoop(c, a.at, p, a.v);
    assert |a.errs| + |b.errs| == |InfixLoop(c, i, p, left).errs|;
    assert [] + b.errs == b.errs;
  }

  /** An error-free expression is its prefix followed by the loop. */
  lemma ExpressionTurn(c: Ctx, i: nat, p: nat)
    requires ParseExpression(c, i, p).errs == []
    ensures HasPrefixFn(Cur(c, i))
    ensures var a := ParsePrefix(c, i);
            a.errs == [] && ParseExpression(c, i, p) == InfixLoop(c, a.at, p, a.v)
  {
    hide ParseInfix, InfixLoop, ParsePrefix;
    if HasPrefixFn(Cur(c, i)) {
      var a := ParsePrefix(c, i);
      var b := InfixLoop(c, a.at, p, a.v);
      assert |a.errs| + |b.errs| == |ParseExpression(c, i, p).errs|;
      assert [] + b.errs == b.errs;
    }
  }

  /** An error-free expression of plain tokens is the print of its tree, and
      what follows it does not continue it. */
  lemma {:induction false} ExpressionYields(c: Ctx, lo: nat, i: nat, p: nat)
    requires LOWEST <= p <= PREFIX && StartsOperand(c, lo, i)
    requires var r := ParseExpression(c, i, p); r.errs == [] && PlainRange(c, lo, i, r.at)
    ensures var r := ParseExpression(c, i, p); Yields(c, i, r.at, r.v, p) && StopsLoop(Cur(c, r.at + 1), p)
    decreases Left(c, i), 3
  {
    hide ParseInfix, InfixLoop, ParsePrefix, Plain, Printable, Bare, At, Print, LeftPrec, HasPrefixFn, Precedence,
      StopsLoop, ParseExpression;
    assert lo <= i;
    hide StartsOperand;
    ExpressionTurn(c, i, p);
    var a := ParsePrefix(c, i);
    PrefixYields(c, lo, i, p);
    LoopYields(c, lo, i, a.at, p, a.v);
    LoopExit(c, a.at, p, a.v);
  }

  /** The tree so far and the next token: nothing in the tree would take it. */
  predicate Closed(e: Expr, t: TokenType) {
    StopsLoop(t, RightOpen(e))
  }

  lemma {:induction false} PrefixYields(c: Ctx, lo: nat, i: nat, p: nat)
    requires p <= PREFIX && HasPrefixFn(Cur(c, i)) && StartsOperand(c, lo, i)
    requires var r := ParsePrefix(c, i); r.errs == [] && PlainRange(c, lo, i, r.at)
    ensures var r := ParsePrefix(c, i); Yields(c, i, r.at, r.v, p) && Closed(r.v, Cur(c, r.at + 1))
    decreases Left(c, i), 2
  {
    hide PlainRange, ParsePrefix, InfixLoop, ParseInfix, ParseExpression, StopsLoop, Precedence;
    PlainFirst(c, lo, i, ParsePrefix(c, i).at);
    var t := Cur(c, i);
    PlainPrefix(c, lo, i);
    hide HasPrefixFn, Plain, Yields, Closed;
    if t == BANG || t == MINUS {
      PrefixOpYields(c, lo, i, p);
    } else if t == LBRACKET {
      ListYields(c, lo, i, p);
    } else {
      AtomYields(c, lo, i, p);
    }
  }

  lemma PlainFirst(c: Ctx, lo: nat, i: nat, hi: nat)
    requires PlainRange(c, lo, i, hi) && i <= hi
    ensures Plain(c, lo, i) && i < |c.toks|
  {
    assert Plain(c, lo, i);
    hide PlainRange;
    InTokens(c, i);
  }

  /** The only prefix positions of plain input. */
  lemma PlainPrefix(c: Ctx, lo: nat, i: nat)
    requires HasPrefixFn(Cur(c, i)) && StartsOperand(c, lo, i) && Plain(c, lo, i)
    ensures var t := Cur(c, i);
            || (t == IDENT && Lit(c, i) != "")
            || IsCheckedLiteral(t) || IsPlainAtom(t) || t == BANG || t == MINUS || t == LBRACKET
  {
  }

  lemma AtomYields(c: Ctx, lo: nat, i: nat, p: nat)
    requires var t := Cur(c, i); t == IDENT || IsCheckedLiteral(t) || IsPlainAtom(t)
    requires i < |c.toks| && p <= PREFIX
    requires var r := ParsePrefix(c, i); r.errs == [] && PlainRange(c, lo, i, r.at)
    ensures var r := ParsePrefix(c, i); Yields(c, i, r.at, r.v, p) && Closed(r.v, Cur(c, r.at + 1))
  {
    hide InfixLoop, ParseInfix, ParseExpression, ObjectFields, Precedence, PlainRange;
    var r := ParsePrefix(c, i);
    if r.at >= i + 1 {
      NoBrace(c, lo, i, r.at);
    } else {
      ClosedAlways(r.v, Cur(c, r.at + 1));
    }
  }

  lemma NoBrace(c: Ctx, lo: nat, i: nat, hi: nat)
    requires PlainRange(c, lo, i, hi) && i + 1 <= hi
    ensures Cur(c, i + 1) != LBRACE
  {
    assert Plain(c, lo, i + 1);
  }

  lemma ClosedAlways(e: Expr, t: TokenType)
    requires RightOpen(e) == CLOSED
    ensures Closed(e, t)
  {
  }

  lemma {:induction false} PrefixOpYields(c: Ctx, lo: nat, i: nat, p: nat)
    requires (Cur(c, i) == BANG || Cur(c, i) == MINUS) && i < |c.toks| && lo <= i
    requires var r := ParsePrefix(c, i); r.errs == [] && PlainRange(c, lo, i, r.at) && p <= PREFIX
    ensures var r := ParsePrefix(c, i); Yields(c, i, r.at, r.v, p) && Closed(r.v, Cur(c, r.at + 1))
    decreases Left(c, i), 1
  {
    hide InfixLoop, ParseInfix, ParseExpression, Plain, Yields, StopsLoop;
    var a := ParseExpression(c, i + 1, PREFIX);
    assert ParsePrefix(c, i) == R(PrefixOp(SymAt(c, i), a.v), a.at, a.errs);
    hide ParsePrefix;
    ExpressionYields(c, lo, i + 1, PREFIX);
    PrefixOpBuild(c, i, a.at, SymAt(c, i), a.v, p);
  }

  lemma PrefixOpBuild(c: Ctx, i: nat, j: nat, op: Sym, right: Expr, p: nat)
    requires i < |c.toks| && SymAt(c, i) == op && (op.typ == BANG || op.typ == MINUS) && p <= PREFIX
    requires Yields(c, i + 1, j, right, PREFIX)
    ensures Yields(c, i, j, PrefixOp(op, right), p)
  {
    assert Print(PrefixOp(op, right)) == [op] + Print(right);
    hide Print, At;
    AtSym(c, i);
    AtJoin(c, i, [op], Print(right));
  }

  lemma PlainSub(c: Ctx, lo: nat, i: nat, hi: nat, i': nat, hi': nat)
    requires PlainRange(c, lo, i, hi) && i <= i' && hi' <= hi
    ensures PlainRange(c, lo, i', hi')
  {
  }

  lemma {:induction false} LoopYields(c: Ctx, lo: nat, i: nat, j: nat, p: nat, left: Expr)
    requires LOWEST <= p <= PREFIX && lo <= i
    requires Yields(c, i, j, left, p) && Closed(left, Cur(c, j + 1))
    requires var r := InfixLoop(c, j, p, left); r.errs == [] && PlainRange(c, lo, i, r.at)
    ensures var r := InfixLoop(c, j, p, left); Yields(c, i, r.at, r.v, p)
    decreases Left(c, j), 1
  {
    hide ParseInfix, InfixLoop, ParseExpression, PlainRange, Yields, Closed, StopsLoop, HasInfixFn;
    var t := Cur(c, j + 1);
    if StopsLoop(t, p) || !HasInfixFn(t) {
      LoopDone(c, j, p, left);
    } else {
      LoopTurn(c, j, p, left);
      var a := ParseInfix(c, j + 1, left);
      PlainSub(c, lo, i, InfixLoop(c, j, p, left).at, i, a.at);
      InTokensInfix(c, j + 1);
      InfixYields(c, lo, i, j, p, left);
      LoopYields(c, lo, i, a.at, p, a.v);
    }
  }

  lemma InTokensInfix(c: Ctx, i: nat)
    requires HasInfixFn(Cur(c, i))
    ensures i < |c.toks|
  {
  }

  lemma {:induction false} InfixYields(c: Ctx, lo: nat, i: nat, j: nat, p: nat, left: Expr)
    requires p <= PREFIX && lo <= i && j + 1 < |c.toks|
    requires Yields(c, i, j, left, p) && Closed(left, Cur(c, j + 1))
    requires !StopsLoop(Cur(c, j + 1), p) && HasInfixFn(Cur(c, j + 1))
    requires var a := ParseInfix(c, j + 1, left); a.errs == [] && PlainRange(c, lo, i, a.at)
    ensures var a := ParseInfix(c, j + 1, left); Yields(c, i, a.at, a.v, p) && Closed(a.v, Cur(c, a.at + 1))
    decreases Left(c, j + 1), 2
  {
    hide ParseInfix, PlainRange, Yields, RightOpen, Precedence, IsBinary, IsAssign;
    var t := Cur(c, j + 1);
    var q := Precedence(t);
    assert p < q <= RightOpen(left);
    NoInfixIsLowest(t);
    PostfixPrecedence(t);
    hide StopsLoop, HasInfixFn, Closed;
    if IsBinary(t) {
      BinaryYields(c, lo, i, j, p, left);
    } else if IsAssign(t) {
      AssignYields(c, lo, i, j, p, left);
    } else if t == DOT {
      FieldYields(c, lo, i, j, p, left);
    } else if t == LPAREN {
      CallYields(c, lo, i, j, p, left);
    } else if t == LBRACKET {
      IndexYields(c, lo, i, j, p, left);
    } else {
      TryYields(c, lo, i, j, p, left);
    }
  }

  lemma {:induction false} BinaryYields(c: Ctx, lo: nat, i: nat, j: nat, p: nat, left: Expr)
    requires lo <= i && j + 1 < |c.toks| && Yields(c, i, j, left, p) && IsBinary(Cur(c, j + 1))
    requires p < Precedence(Cur(c, j + 1)) <= RightOpen(left)
    requires var a := ParseInfix(c, j + 1, left); a.errs == [] && PlainRange(c, lo, i, a.at)
    ensures var a := ParseInfix(c, j + 1, left); Yields(c, i, a.at, a.v, p) && Closed(a.v, Cur(c, a.at + 1))
    decreases Left(c, j + 1), 1
  {
    hide ParseExpression, PlainRange, Yields, Precedence, StopsLoop;
    var q := Precedence(Cur(c, j + 1));
    OperatorPrecedence(Cur(c, j + 1));
    var a := ParseExpression(c, j + 2, q);
    assert ParseInfix(c, j + 1, left) == R(InfixOp(left, SymAt(c, j + 1), a.v), a.at, a.errs);
    hide ParseInfix, IsBinary;
    YieldsLength(c, i, j, left, p);
    OperatorStarts(c, lo, j + 2);
    PlainSub(c, lo, i, a.at, j + 2, a.at);
    ExpressionYields(c, lo, j + 2, q);
    InfixBuild(c, i, j, a.at, left, SymAt(c, j + 1), a.v, p);
    ClosedAt(InfixOp(left, SymAt(c, j + 1), a.v), Cur(c, a.at + 1), q);
  }

  lemma ClosedAt(e: Expr, t: TokenType, q: nat)
    requires StopsLoop(t, q) && RightOpen(e) == q
    ensures Closed(e, t)
  {
    hide RightOpen, Precedence;
  }

  lemma YieldsLength(c: Ctx, i: nat, j: nat, e: Expr, p: nat)
    requires Yields(c, i, j, e, p)
    ensures i <= j
  {
    hide Print, At, Printable, Bare, LeftPrec, StartsWell;
    PrintStarts(c, e);
    FirstNotColon(Print(e));
  }

  /** After an operator or an opening or separating mark an operand starts. */
  lemma OperatorStarts(c: Ctx, lo: nat, i: nat)
    requires lo < i
    requires var t := Cur(c, i - 1);
             IsBinary(t) || IsAssign(t) || t == LPAREN || t == LBRACKET || t == COMMA || t == COLON
    ensures StartsOperand(c, lo, i)
  {
  }

  lemma InfixBuild(c: Ctx, i: nat, j: nat, k: nat, left: Expr, op: Sym, right: Expr, p: nat)
    requires j + 1 < |c.toks| && SymAt(c, j + 1) == op && IsBinary(op.typ)
    requires p < Precedence(op.typ) <= RightOpen(left)
    requires Yields(c, i, j, left, p) && Yields(c, j + 2, k, right, Precedence(op.typ))
    ensures Yields(c, i, k, InfixOp(left, op, right), p)
  {
    hide IsBinary, At, Precedence, RightOpen;
    assert Print(InfixOp(left, op, right)) == Print(left) + ([op] + Print(right));
    hide Print;
    AtSym(c, j + 1);
    AtJoin(c, j + 1, [op], Print(right));
    AtJoin(c, i, Print(left), [op] + Print(right));
  }

  lemma {:induction false} AssignYields(c: Ctx, lo: nat, i: nat, j: nat, p: nat, left: Expr)
    requires lo <= i && j + 1 < |c.toks| && Yields(c, i, j, left, p) && IsAssign(Cur(c, j + 1))
    requires p < Precedence(Cur(c, j + 1)) <= RightOpen(left)
    requires var a := ParseInfix(c, j + 1, left); a.errs == [] && PlainRange(c, lo, i, a.at)
    ensures var a := ParseInfix(c, j + 1, left); Yields(c, i, a.at, a.v, p) && Closed(a.v, Cur(c, a.at + 1))
    decreases Left(c, j + 1), 1
  {
    hide ParseExpression, PlainRange, Yields, Precedence, StopsLoop;
    OperatorPrecedence(Cur(c, j + 1));
    var a := ParseExpression(c, j + 2, LOWEST);
    assert ParseInfix(c, j + 1, left) == R(Assignment(left, SymAt(c, j + 1), a.v), a.at, a.errs);
    hide ParseInfix, IsAssign;
    YieldsLength(c, i, j, left, p);
    OperatorStarts(c, lo, j + 2);
    PlainSub(c, lo, i, a.at, j + 2, a.at);
    ExpressionYields(c, lo, j + 2, LOWEST);
    AssignBuild(c, i, j, a.at, left, SymAt(c, j + 1), a.v, p);
    ClosedAt(Assignment(left, SymAt(c, j + 1), a.v), Cur(c, a.at + 1), LOWEST);
  }

  lemma AssignBuild(c: Ctx, i: nat, j: nat, k: nat, left: Expr, op: Sym, value: Expr, p: nat)
    requires j + 1 < |c.toks| && SymAt(c, j + 1) == op && IsAssign(op.typ)
    requires p < SEND_PREC <= RightOpen(left)
    requires Yields(c, i, j, left, p) && Yields(c, j + 2, k, value, LOWEST)
    ensures Yields(c, i, k, Assignment(left, op, value), p)
  {
    hide IsAssign, At, RightOpen;
    assert Print(Assignment(left, op, value)) == Print(left) + ([op] + Print(value));
    hide Print;
    AtSym(c, j + 1);
    AtJoin(c, j + 1, [op], Print(value));
    AtJoin(c, i, Print(left), [op] + Print(value));
  }

  /** Token `k` of plain input is the punctuation its kind stands for. */
  lemma PlainMark(c: Ctx, lo: nat, i: nat, hi: nat, k: nat)
    requires PlainRange(c, lo, i, hi) && i <= k <= hi
    ensures k < |c.toks|
    ensures Cur(c, k) == QUESTION ==> SymAt(c, k) == QUESTION_SYM
    ensures Cur(c, k) == DOT ==> SymAt(c, k) == DOT_SYM && Cur(c, k + 1) == IDENT
    ensures Cur(c, k) == LPAREN ==> SymAt(c, k) == OPEN_PAREN
    ensures Cur(c, k) == RPAREN ==> SymAt(c, k) == CLOSE_PAREN
    ensures Cur(c, k) == LBRACKET ==> SymAt(c, k) == OPEN_BRACKET
    ensures Cur(c, k) == RBRACKET ==> SymAt(c, k) == CLOSE_BRACKET
    ensures Cur(c, k) == COLON ==> SymAt(c, k) == COLON_SYM
    ensures Cur(c, k) == COMMA ==> SymAt(c, k) == COMMA_SYM && Cur(c, k + 1) != RBRACKET
    ensures Cur(c, k) == IDENT ==> Lit(c, k) != ""
  {
    assert Plain(c, lo, k);
    hide PlainRange, EndsOperand;
    InTokens(c, k);
  }

  lemma TryYields(c: Ctx, lo: nat, i: nat, j: nat, p: nat, left: Expr)
    requires lo <= i && Yields(c, i, j, left, p) && Cur(c, j + 1) == QUESTION && p < POSTFIX <= RightOpen(left)
    requires var a := ParseInfix(c, j + 1, left); a.errs == [] && PlainRange(c, lo, i, a.at)
    ensures var a := ParseInfix(c, j + 1, left); Yields(c, i, a.at, a.v, p) && Closed(a.v, Cur(c, a.at + 1))
  {
    hide ParseExpression, PlainRange, Precedence, At, Yields;
    assert ParseInfix(c, j + 1, left) == R(Try(left), j + 1, []);
    hide ParseInfix;
    YieldsLength(c, i, j, left, p);
    PlainMark(c, lo, i, j + 1, j + 1);
    TryBuild(c, i, j, left, p);
    ClosedAlways(Try(left), Cur(c, j + 2));
  }

  lemma TryBuild(c: Ctx, i: nat, j: nat, left: Expr, p: nat)
    requires j + 1 < |c.toks| && SymAt(c, j + 1) == QUESTION_SYM && p < POSTFIX <= RightOpen(left)
    requires Yields(c, i, j, left, p)
    ensures Yields(c, i, j + 1, Try(left), p)
  {
    hide At, RightOpen;
    assert Print(Try(left)) == Print(left) + [QUESTION_SYM];
    hide Print;
    AtSym(c, j + 1);
    AtJoin(c, i, Print(left), [QUESTION_SYM]);
  }

  lemma FieldYields(c: Ctx, lo: nat, i: nat, j: nat, p: nat, left: Expr)
    requires lo <= i && Yields(c, i, j, left, p) && Cur(c, j + 1) == DOT && p < FIELD <= RightOpen(left)
    requires var a := ParseInfix(c, j + 1, left); a.errs == [] && PlainRange(c, lo, i, a.at)
    ensures var a := ParseInfix(c, j + 1, left); Yields(c, i, a.at, a.v, p) && Closed(a.v, Cur(c, a.at + 1))
  {
    hide ParseExpression, PlainRange, Precedence, At, Yields;
    var f := Lit(c, j + 2);
    assert ParseInfix(c, j + 1, left) == R(FieldAccess(left, f), j + 2, []);
    hide ParseInfix;
    YieldsLength(c, i, j, left, p);
    PlainMark(c, lo, i, j + 2, j + 1);
    PlainMark(c, lo, i, j + 2, j + 2);
    FieldBuild(c, i, j, left, f, p);
    ClosedAlways(FieldAccess(left, f), Cur(c, j + 3));
  }

  lemma FieldBuild(c: Ctx, i: nat, j: nat, left: Expr, field: string, p: nat)
    requires j + 2 < |c.toks| && SymAt(c, j + 1) == DOT_SYM && SymAt(c, j + 2) == Sym(IDENT, field)
    requires p < FIELD <= RightOpen(left) && Yields(c, i, j, left, p)
    ensures Yields(c, i, j + 2, FieldAccess(left, field), p)
  {
    hide At, RightOpen;
    assert Print(FieldAccess(left, field)) == Print(left) + ([DOT_SYM] + [Sym(IDENT, field)]);
    hide Print;
    AtSym(c, j + 1);
    AtSym(c, j + 2);
    AtJoin(c, j + 1, [DOT_SYM], [Sym(IDENT, field)]);
    AtJoin(c, i, Print(left), [DOT_SYM] + [Sym(IDENT, field)]);
  }

  lemma {:induction false} IndexYields(c: Ctx, lo: nat, i: nat, j: nat, p: nat, left: Expr)
    requires lo <= i && j + 1 < |c.toks| && Yields(c, i, j, left, p)
    requires Cur(c, j + 1) == LBRACKET && p < FIELD <= RightOpen(left)
    requires var a := ParseInfix(c, j + 1, left); a.errs == [] && PlainRange(c, lo, i, a.at)
    ensures var a := ParseInfix(c, j + 1, left); Yields(c, i, a.at, a.v, p) && Closed(a.v, Cur(c, a.at + 1))
    decreases Left(c, j + 1), 1
  {
    hide ParseExpression, PlainRange, Precedence, At, Yields, StopsLoop, Args;
    var a := ParseExpression(c, j + 2, LOWEST);
    var r := ParseInfix(c, j + 1, left);
    IndexShape(c, j + 1, left);
    hide ParseInfix;
    YieldsLength(c, i, j, left, p);
    PlainMark(c, lo, i, r.at, j + 1);
    PlainMark(c, lo, i, r.at, r.at);
    OperatorStarts(c, lo, j + 2);
    PlainSub(c, lo, i, r.at, j + 2, a.at);
    ExpressionYields(c, lo, j + 2, LOWEST);
    IndexBuild(c, i, j, a.at, left, a.v, p);
    ClosedAlways(r.v, Cur(c, r.at + 1));
  }

  lemma IndexShape(c: Ctx, i: nat, left: Expr)
    requires Cur(c, i) == LBRACKET && ParseInfix(c, i, left).errs == []
    ensures var a := ParseExpression(c, i + 1, LOWEST);
            a.errs == [] && Cur(c, a.at + 1) == RBRACKET && ParseInfix(c, i, left) == R(Index(left, a.v), a.at + 1, [])
  {
    hide ParseExpression, ParseCallArgs, Precedence;
    var a := ParseExpression(c, i + 1, LOWEST);
    var x := Expect(c, a.at, RBRACKET);
    assert |a.errs| + |x.errs| == |ParseInfix(c, i, left).errs|;
  }

  lemma IndexBuild(c: Ctx, i: nat, j: nat, k: nat, left: Expr, index: Expr, p: nat)
    requires j + 1 < |c.toks| && SymAt(c, j + 1) == OPEN_BRACKET
    requires k + 1 < |c.toks| && SymAt(c, k + 1) == CLOSE_BRACKET
    requires p < FIELD <= RightOpen(left) && Yields(c, i, j, left, p) && Yields(c, j + 2, k, index, LOWEST)
    ensures Yields(c, i, k + 1, Index(left, index), p)
  {
    hide At, RightOpen;
    assert Print(Index(left, index)) == Print(left) + ([OPEN_BRACKET] + (Print(index) + [CLOSE_BRACKET]));
    hide Print;
    BracketJoin(c, j + 1, k + 1, OPEN_BRACKET, Print(index), CLOSE_BRACKET);
    AtJoin(c, i, Print(left), [OPEN_BRACKET] + (Print(index) + [CLOSE_BRACKET]));
  }

  lemma BracketJoin(c: Ctx, i: nat, k: nat, open: Sym, s: seq<Sym>, close: Sym)
    requires i < |c.toks| && k < |c.toks| && SymAt(c, i) == open && SymAt(c, k) == close
    requires At(c, i + 1, s) && k == i + 1 + |s|
    ensures At(c, i, [open] + (s + [close]))
  {
    hide At;
    AtSym(c, i);
    AtSym(c, k);
    AtJoin(c, i + 1, s, [close]);
    AtJoin(c, i, [open], s + [close]);
  }

  // ---------- argument lists and list literals ----------

  /** Every argument value is printable and bare. */
  predicate GoodArgs(c: Ctx, args: seq<Arg>) {
    forall k :: 0 <= k < |args| ==> Printable(c, args[k].value) && Bare(args[k].value)
  }

  predicate GoodElems(c: Ctx, es: seq<Expr>) {
    forall k :: 0 <= k < |es| ==> Printable(c, es[k]) && Bare(es[k])
  }

  lemma {:induction false} CallYields(c: Ctx, lo: nat, i: nat, j: nat, p: nat, fn: Expr)
    requires lo <= i && j + 1 < |c.toks| && Yields(c, i, j, fn, p)
    requires Cur(c, j + 1) == LPAREN && p < CALL <= RightOpen(fn)
    requires var a := ParseInfix(c, j + 1, fn); a.errs == [] && PlainRange(c, lo, i, a.at)
    ensures var a := ParseInfix(c, j + 1, fn); Yields(c, i, a.at, a.v, p) && Closed(a.v, Cur(c, a.at + 1))
    decreases Left(c, j + 1), 1
  {
    hide ParseExpression, PlainRange, Precedence, At, Yields, Args, ParseCallArgs;
    var a := ParseCallArgs(c, j + 1);
    assert ParseInfix(c, j + 1, fn) == R(Call(fn, a.v), a.at, a.errs);
    hide ParseInfix;
    YieldsLength(c, i, j, fn, p);
    PlainMark(c, lo, i, a.at, j + 1);
    CallArgsYield(c, lo, i, j + 1);
    CallBuild(c, i, j, a.at, fn, a.v, p);
    ClosedAlways(Call(fn, a.v), Cur(c, a.at + 1));
  }

  lemma CallBuild(c: Ctx, i: nat, j: nat, k: nat, fn: Expr, args: seq<Arg>, p: nat)
    requires j + 1 < |c.toks| && SymAt(c, j + 1) == OPEN_PAREN
    requires k < |c.toks| && SymAt(c, k) == CLOSE_PAREN
    requires At(c, j + 2, PrintArgs(args)) && k == j + 2 + |PrintArgs(args)| && GoodArgs(c, args)
    requires p < CALL <= RightOpen(fn) && Yields(c, i, j, fn, p)
    ensures Yields(c, i, k, Call(fn, args), p)
  {
    hide At, RightOpen, PrintArgs;
    assert Print(Call(fn, args)) == Print(fn) + ([OPEN_PAREN] + (PrintArgs(args) + [CLOSE_PAREN]));
    hide Print;
    BracketJoin(c, j + 1, k, OPEN_PAREN, PrintArgs(args), CLOSE_PAREN);
    AtJoin(c, i, Print(fn), [OPEN_PAREN] + (PrintArgs(args) + [CLOSE_PAREN]));
  }

  lemma {:induction false} CallArgsYield(c: Ctx, lo: nat, i: nat, j: nat)
    requires lo <= i <= j < |c.toks| && Cur(c, j) == LPAREN
    requires var a := ParseCallArgs(c, j); a.errs == [] && PlainRange(c, lo, i, a.at)
    ensures var a := ParseCallArgs(c, j);
            a.at < |c.toks| && SymAt(c, a.at) == CLOSE_PAREN && GoodArgs(c, a.v)
            && At(c, j + 1, PrintArgs(a.v)) && a.at == j + 1 + |PrintArgs(a.v)|
    decreases Left(c, j), 0
  {
    hide PlainRange, At, Args;
    var r := ParseCallArgs(c, j);
    if Cur(c, j + 1) == RPAREN {
      PlainMark(c, lo, i, r.at, j + 1);
      AtNothing(c, j + 1);
    } else {
      CallArgsShape(c, j);
      var a := Args(c, j + 1);
      hide ParseCallArgs;
      PlainMark(c, lo, i, r.at, r.at);
      PlainSub(c, lo, i, r.at, j + 1, a.at);
      OperatorStarts(c, lo, j + 1);
      ArgsYield(c, lo, j + 1);
    }
  }

  lemma AtNothing(c: Ctx, i: nat)
    requires i <= |c.toks|
    ensures At(c, i, PrintArgs([])) && |PrintArgs([])| == 0
    ensures At(c, i, PrintList([])) && |PrintList([])| == 0
    ensures At(c, i, PrintMore([])) && |PrintMore([])| == 0
  {
  }

  lemma CallArgsShape(c: Ctx, i: nat)
    requires i < |c.toks| && Cur(c, i + 1) != RPAREN && ParseCallArgs(c, i).errs == []
    ensures var a := Args(c, i + 1);
            a.errs == [] && Cur(c, a.at + 1) == RPAREN && ParseCallArgs(c, i) == R(a.v, a.at + 1, [])
  {
    hide Args;
    var a := Args(c, i + 1);
    var x := Expect(c, a.at, RPAREN);
    assert |a.errs| + |x.errs| == |ParseCallArgs(c, i).errs|;
  }

  /** The first argument of a list, and what `Args` does after it. */
  lemma ArgsShape(c: Ctx, i: nat)
    requires Args(c, i).errs == []
    ensures var named := Cur(c, i) == IDENT && Cur(c, i + 1) == COLON;
            var a := ParseExpression(c, if named then i + 2 else i, LOWEST);
            var arg := Arg(if named then Lit(c, i) else "", a.v);
            && a.errs == [] && a.at <= Args(c, i).at
            && (Cur(c, a.at + 1) != COMMA ==> Args(c, i) == R([arg], a.at, []))
            && (Cur(c, a.at + 1) == COMMA ==>
                  var rest := Args(c, a.at + 2);
                  rest.errs == [] && Args(c, i) == R([arg] + rest.v, rest.at, []))
  {
    hide ParseExpression;
    var named := Cur(c, i) == IDENT && Cur(c, i + 1) == COLON;
    var a := ParseExpression(c, if named then i + 2 else i, LOWEST);
    if Cur(c, a.at + 1) == COMMA {
      var rest := Args(c, a.at + 2);
      assert |a.errs| + |rest.errs| == |Args(c, i).errs|;
    }
  }

  lemma {:induction false} ArgsYield(c: Ctx, lo: nat, i: nat)
    requires StartsOperand(c, lo, i) && i > lo
    requires var a := Args(c, i); a.errs == [] && PlainRange(c, lo, i, a.at)
    ensures var a := Args(c, i);
            |a.v| > 0 && GoodArgs(c, a.v) && At(c, i, PrintArgs(a.v)) && a.at + 1 == i + |PrintArgs(a.v)|
    decreases Left(c, i), 5
  {
    hide ParseExpression, PlainRange, Args, At, StartsOperand, Print, PrintArg;
    var r := Args(c, i);
    ArgsShape(c, i);
    var named := Cur(c, i) == IDENT && Cur(c, i + 1) == COLON;
    var a := ParseExpression(c, if named then i + 2 else i, LOWEST);
    var arg := Arg(if named then Lit(c, i) else "", a.v);
    PlainSub(c, lo, i, r.at, i, a.at);
    ArgYield(c, lo, i);
    if Cur(c, a.at + 1) == COMMA {
      var rest := Args(c, a.at + 2);
      PlainMark(c, lo, i, r.at, a.at + 1);
      OperatorStarts(c, lo, a.at + 2);
      PlainSub(c, lo, i, r.at, a.at + 2, rest.at);
      ArgsYield(c, lo, a.at + 2);
      ArgsBuild(c, i, a.at, arg, rest.v);
    } else {
      OneArg(c, arg);
    }
  }

  lemma OneArg(c: Ctx, arg: Arg)
    requires Printable(c, arg.value) && Bare(arg.value)
    ensures GoodArgs(c, [arg]) && PrintArgs([arg]) == PrintArg(arg)
  {
    hide Printable, Bare, PrintArg;
  }

  lemma ArgsBuild(c: Ctx, i: nat, j: nat, arg: Arg, rest: seq<Arg>)
    requires At(c, i, PrintArg(arg)) && j + 1 == i + |PrintArg(arg)| && Printable(c, arg.value) && Bare(arg.value)
    requires j + 1 < |c.toks| && SymAt(c, j + 1) == COMMA_SYM
    requires |rest| > 0 && GoodArgs(c, rest) && At(c, j + 2, PrintArgs(rest))
    ensures GoodArgs(c, [arg] + rest) && At(c, i, PrintArgs([arg] + rest))
    ensures |PrintArgs([arg] + rest)| == |PrintArg(arg)| + 1 + |PrintArgs(rest)|
  {
    hide At, Printable, Bare, PrintArg;
    assert ([arg] + rest)[1..] == rest;
    assert PrintArgs([arg] + rest) == PrintArg(arg) + ([COMMA_SYM] + PrintArgs(rest));
    hide PrintArgs;
    AtSym(c, j + 1);
    AtJoin(c, j + 1, [COMMA_SYM], PrintArgs(rest));
    AtJoin(c, i, PrintArg(arg), [COMMA_SYM] + PrintArgs(rest));
  }

  lemma {:induction false} ArgYield(c: Ctx, lo: nat, i: nat)
    requires StartsOperand(c, lo, i) && i > lo
    requires var named := Cur(c, i) == IDENT && Cur(c, i + 1) == COLON;
             var a := ParseExpression(c, if named then i + 2 else i, LOWEST);
             a.errs == [] && PlainRange(c, lo, i, a.at)
    ensures var named := Cur(c, i) == IDENT && Cur(c, i + 1) == COLON;
            var a := ParseExpression(c, if named then i + 2 else i, LOWEST);
            var arg := Arg(if named then Lit(c, i) else "", a.v);
            Printable(c, a.v) && Bare(a.v) && At(c, i, PrintArg(arg)) && a.at + 1 == i + |PrintArg(arg)|
    decreases Left(c, i), 4
  {
    hide ParseExpression, PlainRange, At, StartsOperand, Print, Printable, Bare, StopsLoop, LeftPrec;
    if Cur(c, i) == IDENT && Cur(c, i + 1) == COLON {
      var a := ParseExpression(c, i + 2, LOWEST);
      PlainMark(c, lo, i, a.at, i);
      PlainMark(c, lo, i, a.at, i + 1);
      PlainSub(c, lo, i, a.at, i + 2, a.at);
      OperatorStarts(c, lo, i + 2);
      ExpressionYields(c, lo, i + 2, LOWEST);
      AtSym(c, i);
      AtSym(c, i + 1);
      AtJoin(c, i + 1, [COLON_SYM], Print(a.v));
      AtJoin(c, i, [Sym(IDENT, Lit(c, i))], [COLON_SYM] + Print(a.v));
    } else {
      ExpressionYields(c, lo, i, LOWEST);
    }
  }

  lemma {:induction false} ListYields(c: Ctx, lo: nat, i: nat, p: nat)
    requires Cur(c, i) == LBRACKET && i < |c.toks| && lo <= i && p <= PREFIX
    requires var r := ParsePrefix(c, i); r.errs == [] && PlainRange(c, lo, i, r.at)
    ensures var r := ParsePrefix(c, i); Yields(c, i, r.at, r.v, p) && Closed(r.v, Cur(c, r.at + 1))
    decreases Left(c, i), 1
  {
    hide ParseExpression, PlainRange, At, Yields, ParseExpressionList;
    var a := ParseExpressionList(c, i, RBRACKET);
    assert ParsePrefix(c, i) == R(ListLit(a.v), a.at, a.errs);
    hide ParsePrefix;
    PlainMark(c, lo, i, a.at, i);
    ElemsYield(c, lo, i);
    ListBuild(c, i, a.at, a.v, p);
    ClosedAlways(ListLit(a.v), Cur(c, a.at + 1));
  }

  lemma ListBuild(c: Ctx, i: nat, k: nat, es: seq<Expr>, p: nat)
    requires i < |c.toks| && SymAt(c, i) == OPEN_BRACKET && k < |c.toks| && SymAt(c, k) == CLOSE_BRACKET
    requires At(c, i + 1, PrintList(es)) && k == i + 1 + |PrintList(es)| && GoodElems(c, es) && p <= PREFIX
    ensures Yields(c, i, k, ListLit(es), p)
  {
    hide At, PrintList;
    assert Print(ListLit(es)) == [OPEN_BRACKET] + (PrintList(es) + [CLOSE_BRACKET]);
    hide Print;
    BracketJoin(c, i, k, OPEN_BRACKET, PrintList(es), CLOSE_BRACKET);
  }

  lemma ListShape(c: Ctx, i: nat)
    requires i < |c.toks| && Cur(c, i + 1) != RBRACKET && ParseExpressionList(c, i, RBRACKET).errs == []
    ensures var a := ParseExpression(c, i + 1, LOWEST);
            var rest := MoreExpressions(c, a.at, RBRACKET);
            && a.errs == [] && rest.errs == [] && Cur(c, rest.at + 1) == RBRACKET
            && ParseExpressionList(c, i, RBRACKET) == R([a.v] + rest.v, rest.at + 1, [])
  {
    hide ParseExpression, MoreExpressions;
    var a := ParseExpression(c, i + 1, LOWEST);
    var rest := MoreExpressions(c, a.at, RBRACKET);
    var x := Expect(c, rest.at, RBRACKET);
    assert |a.errs| + |rest.errs| + |x.errs| == |ParseExpressionList(c, i, RBRACKET).errs|;
  }

  lemma {:induction false} ElemsYield(c: Ctx, lo: nat, i: nat)
    requires lo <= i < |c.toks| && Cur(c, i) == LBRACKET
    requires var r := ParseExpressionList(c, i, RBRACKET); r.errs == [] && PlainRange(c, lo, i, r.at)
    ensures var r := ParseExpressionList(c, i, RBRACKET);
            r.at < |c.toks| && SymAt(c, r.at) == CLOSE_BRACKET && GoodElems(c, r.v)
            && At(c, i + 1, PrintList(r.v)) && r.at == i + 1 + |PrintList(r.v)|
    decreases Left(c, i), 0
  {
    hide PlainRange, At, ParseExpression, MoreExpressions, StopsLoop, Print, Printable, Bare, LeftPrec;
    var r := ParseExpressionList(c, i, RBRACKET);
    PlainMark(c, lo, i, r.at, r.at);
    if Cur(c, i + 1) == RBRACKET {
      AtNothing(c, i + 1);
    } else {
      ListShape(c, i);
      hide ParseExpressionList;
      var a := ParseExpression(c, i + 1, LOWEST);
      var rest := MoreExpressions(c, a.at, RBRACKET);
      OperatorStarts(c, lo, i + 1);
      PlainSub(c, lo, i, r.at, i + 1, a.at);
      ExpressionYields(c, lo, i + 1, LOWEST);
      PlainSub(c, lo, i, r.at, a.at + 1, rest.at);
      MoreYield(c, lo, a.at);
      ElemsBuild(c, i + 1, a.at, a.v, rest.v);
    }
  }

  lemma ElemsBuild(c: Ctx, i: nat, j: nat, e: Expr, rest: seq<Expr>)
    requires At(c, i, Print(e)) && j + 1 == i + |Print(e)| && Printable(c, e) && Bare(e)
    requires GoodElems(c, rest) && At(c, j + 1, PrintMore(rest))
    ensures GoodElems(c, [e] + rest) && At(c, i, PrintList([e] + rest))
    ensures |PrintList([e] + rest)| == |Print(e)| + |PrintMore(rest)|
  {
    hide At, Printable, Bare, Print;
    assert ([e] + rest)[1..] == rest;
    AtJoin(c, i, Print(e), PrintMore(rest));
  }

  lemma MoreShape(c: Ctx, i: nat)
    requires MoreExpressions(c, i, RBRACKET).errs == [] && Cur(c, i + 1) == COMMA && Cur(c, i + 2) != RBRACKET
    ensures var a := ParseExpression(c, i + 2, LOWEST);
            var rest := MoreExpressions(c, a.at, RBRACKET);
            a.errs == [] && rest.errs == [] && MoreExpressions(c, i, RBRACKET) == R([a.v] + rest.v, rest.at, [])
  {
    hide ParseExpression;
    var a := ParseExpression(c, i + 2, LOWEST);
    var rest := MoreExpressions(c, a.at, RBRACKET);
    assert |a.errs| + |rest.errs| == |MoreExpressions(c, i, RBRACKET).errs|;
  }

  lemma MoreEnds(c: Ctx, i: nat)
    ensures Cur(c, i + 1) != COMMA ==> MoreExpressions(c, i, RBRACKET) == R([], i, [])
    ensures Cur(c, i + 1) == COMMA ==> MoreExpressions(c, i, RBRACKET).at > i
  {
    hide ParseExpression;
  }

  lemma {:induction false} MoreYield(c: Ctx, lo: nat, i: nat)
    requires lo <= i < |c.toks|
    requires var r := MoreExpressions(c, i, RBRACKET); r.errs == [] && PlainRange(c, lo, i + 1, r.at)
    ensures var r := MoreExpressions(c, i, RBRACKET);
            GoodElems(c, r.v) && At(c, i + 1, PrintMore(r.v)) && r.at == i + |PrintMore(r.v)|
    decreases Left(c, i), 0
  {
    hide PlainRange, At, ParseExpression, MoreExpressions, StopsLoop, Print, Printable, Bare, LeftPrec;
    var r := MoreExpressions(c, i, RBRACKET);
    MoreEnds(c, i);
    if Cur(c, i + 1) != COMMA {
      AtNothing(c, i + 1);
    } else {
      PlainMark(c, lo, i + 1, r.at, i + 1);
      MoreShape(c, i);
      var a := ParseExpression(c, i + 2, LOWEST);
      var rest := MoreExpressions(c, a.at, RBRACKET);
      OperatorStarts(c, lo, i + 2);
      PlainSub(c, lo, i + 1, r.at, i + 2, a.at);
      ExpressionYields(c, lo, i + 2, LOWEST);
      PlainMark(c, lo, i + 2, a.at, a.at);
      PlainSub(c, lo, i + 1, r.at, a.at + 1, rest.at);
      MoreYield(c, lo, a.at);
      MoreBuild(c, i, a.at, a.v, rest.v);
    }
  }

  lemma MoreBuild(c: Ctx, i: nat, j: nat, e: Expr, rest: seq<Expr>)
    requires i + 1 < |c.toks| && SymAt(c, i + 1) == COMMA_SYM
    requires At(c, i + 2, Print(e)) && j + 1 == i + 2 + |Print(e)| && Printable(c, e) && Bare(e)
    requires GoodElems(c, rest) && At(c, j + 1, PrintMore(rest))
    ensures GoodElems(c, [e] + rest) && At(c, i + 1, PrintMore([e] + rest))
    ensures |PrintMore([e] + rest)| == 1 + |Print(e)| + |PrintMore(rest)|
  {
    hide At, Printable, Bare, Print;
    assert ([e] + rest)[1..] == rest;
    AtSym(c, i + 1);
    AtJoin(c, i + 2, Print(e), PrintMore(rest));
    AtJoin(c, i + 1, [COMMA_SYM], Print(e) + PrintMore(rest));
  }

  /** Parse then print: an error-free parse of plain input at LOWEST returns a
      tree whose print is exactly the tokens consumed, in which no operand
      needs parentheses. */
  lemma ParseThenPrint(c: Ctx, i: nat)
    requires var r := ParseExpression(c, i, LOWEST); r.errs == [] && PlainRange(c, i, i, r.at)
    ensures var r := ParseExpression(c, i, LOWEST);
            r.at < |c.toks| && c.toks[i..r.at + 1] == Print(r.v) && Bare(r.v) && Printable(c, r.v)
  {
    hide ParseExpression, PlainRange, Print, Printable, Bare, LeftPrec;
    ExpressionYields(c, i, i, LOWEST);
  }
}
