/** Parsing what `Print` wrote gives the printed tree back. */
module PrattRoundTrip {
  import opened Tokens
  import opened Ast
  import opened Grammar
  import opened Printer
  import opened ParseSteps

  /** The tokens from `i` on begin with `s`. */
  predicate At(c: Ctx, i: nat, s: seq<Sym>) {
    i + |s| <= |c.toks| && c.toks[i..i + |s|] == s
  }

  lemma AtSplit(c: Ctx, i: nat, a: seq<Sym>, b: seq<Sym>)
    requires At(c, i, a + b)
    ensures At(c, i, a) && At(c, i + |a|, b)
    ensures |a| > 0 ==> SymAt(c, i) == a[0]
  {
    var s := c.toks[i..i + |a + b|];
    assert s[..|a|] == a && s[|a|..] == b;
    assert c.toks[i..i + |a|] == s[..|a|];
    assert c.toks[i + |a|..i + |a| + |b|] == s[|a|..];
    if |a| > 0 { assert c.toks[i] == s[0]; }
  }

  lemma AtHead(c: Ctx, i: nat, s: Sym, b: seq<Sym>)
    requires At(c, i, [s] + b)
    ensures SymAt(c, i) == s && At(c, i + 1, b)
  {
    AtSplit(c, i, [s], b);
  }

  lemma AtOne(c: Ctx, i: nat, s: Sym)
    requires At(c, i, [s])
    ensures SymAt(c, i) == s
  {
    assert c.toks[i] == c.toks[i..i + 1][0];
  }

  lemma AtIndex(c: Ctx, i: nat, s: seq<Sym>, k: nat)
    requires At(c, i, s) && k < |s|
    ensures SymAt(c, i + k) == s[k]
  {
    assert c.toks[i + k] == c.toks[i..i + |s|][k];
  }

  lemma OperatorPrecedence(t: TokenType)
    ensures IsBinary(t) ==> SEND_PREC <= Precedence(t) < PREFIX && t != LBRACE
    ensures IsAssign(t) ==> Precedence(t) == SEND_PREC && t != LBRACE
  {
  }

  /** The token after a print neither continues its right end nor turns a
      final identifier into an object literal. */
  predicate Stops(e: Expr, t: TokenType) {
    (t == SEMICOLON || t == EOF || Precedence(t) <= RightOpen(e)) && t != LBRACE
  }

  /** A print starts like an expression and its second token is no colon. */
  predicate StartsWell(s: seq<Sym>) {
    |s| > 0 && HasPrefixFn(s[0].typ) && s[0].typ != FN && (|s| > 1 ==> s[1].typ != COLON)
  }

  lemma StartsAppend(s: seq<Sym>, t: seq<Sym>)
    requires StartsWell(s) && (|t| > 0 ==> t[0].typ != COLON)
    ensures StartsWell(s + t)
  {
    hide HasPrefixFn;
  }

  lemma StartsPrepend(op: Sym, s: seq<Sym>)
    requires HasPrefixFn(op.typ) && op.typ != FN && |s| > 0 && s[0].typ != COLON
    ensures StartsWell([op] + s)
  {
    hide HasPrefixFn;
  }

  lemma {:induction false} PrintStarts(c: Ctx, e: Expr)
    requires Printable(c, e)
    ensures StartsWell(Print(e))
    decreases e, 0
  {
    hide Wrap, PrintArgs, StartsWell, Precedence;
    match e
    case Atom(sym) => AtomStarts(c, sym);
    case PrefixOp(op, right) =>
      WrapStarts(c, right, LeftPrec(right) <= PREFIX);
      FirstNotColon(Wrap(right, LeftPrec(right) <= PREFIX));
      StartsPrepend(op, Wrap(right, LeftPrec(right) <= PREFIX));
    case InfixOp(left, op, right) =>
      WrapStarts(c, left, RightOpen(left) < Precedence(op.typ));
      var rest := [op] + Wrap(right, LeftPrec(right) <= Precedence(op.typ));
      StartsAppend(Wrap(left, RightOpen(left) < Precedence(op.typ)), rest);
    case Assignment(left, op, value) =>
      WrapStarts(c, left, RightOpen(left) < SEND_PREC);
      StartsAppend(Wrap(left, RightOpen(left) < SEND_PREC), [op] + Print(value));
    case Try(left) =>
      WrapStarts(c, left, RightOpen(left) < POSTFIX);
      StartsAppend(Wrap(left, RightOpen(left) < POSTFIX), [QUESTION_SYM]);
    case Call(fn, args) =>
      WrapStarts(c, fn, RightOpen(fn) < CALL);
      StartsAppend(Wrap(fn, RightOpen(fn) < CALL), [OPEN_PAREN] + (PrintArgs(args) + [CLOSE_PAREN]));
    case FieldAccess(left, field) =>
      WrapStarts(c, left, RightOpen(left) < FIELD);
      StartsAppend(Wrap(left, RightOpen(left) < FIELD), [DOT_SYM] + [Sym(IDENT, field)]);
    case Index(left, index) =>
      WrapStarts(c, left, RightOpen(left) < FIELD);
      StartsAppend(Wrap(left, RightOpen(left) < FIELD), [OPEN_BRACKET] + (Print(index) + [CLOSE_BRACKET]));
    case ListLit(elems) =>
      ListStarts(c, elems);
      StartsPrepend(OPEN_BRACKET, PrintList(elems) + [CLOSE_BRACKET]);
  }

  lemma AtomStarts(c: Ctx, sym: Sym)
    requires Printable(c, Atom(sym))
    ensures StartsWell(Print(Atom(sym)))
  {
  }

  lemma FirstNotColon(s: seq<Sym>)
    requires StartsWell(s)
    ensures |s| > 0 && s[0].typ != COLON
  {
  }

  lemma {:induction false} ListStarts(c: Ctx, elems: seq<Expr>)
    requires forall k :: 0 <= k < |elems| ==> Printable(c, elems[k])
    ensures (PrintList(elems) + [CLOSE_BRACKET])[0].typ != COLON
    decreases elems, 0
  {
    hide Print, Printable, PrintMore;
    if |elems| > 0 {
      PrintStarts(c, elems[0]);
      FirstNotColon(Print(elems[0]));
    }
  }

  lemma {:induction false} WrapStarts(c: Ctx, e: Expr, paren: bool)
    requires Printable(c, e)
    ensures StartsWell(Wrap(e, paren))
    decreases e, 1
  {
    hide Print, Printable, StartsWell;
    PrintStarts(c, e);
    if paren {
      FirstNotColon(Print(e));
      StartsPrepend(OPEN_PAREN, Print(e) + [CLOSE_PAREN]);
    }
  }

  lemma FirstToken(c: Ctx, i: nat, e: Expr)
    requires Printable(c, e) && At(c, i, Print(e))
    ensures HasPrefixFn(Cur(c, i)) && Cur(c, i) != FN && |Print(e)| > 0
  {
    hide Print, Printable, HasPrefixFn, At;
    PrintStarts(c, e);
    AtIndex(c, i, Print(e), 0);
  }

  lemma NoPrefixAtEnd(t: TokenType)
    requires HasPrefixFn(t)
    ensures t != RPAREN && t != RBRACKET
  {
  }

  lemma PostfixPrecedence(t: TokenType)
    ensures t == QUESTION ==> Precedence(t) == POSTFIX
    ensures t == LPAREN ==> Precedence(t) == CALL
    ensures t == DOT || t == LBRACKET ==> Precedence(t) == FIELD
    ensures t == RPAREN || t == RBRACKET || t == COMMA ==> Precedence(t) == LOWEST
  {
  }

  /** An operand printed bare at the left of an operator of precedence `q`
      can be parsed at any level the operator itself is reached from. */
  lemma LeftOperandFits(c: Ctx, left: Expr, p: nat, q: nat)
    requires Printable(c, left) && p < q && p <= PREFIX && q <= RightOpen(left) && SEND_PREC <= q
    ensures p < LeftPrec(left)
  {
    hide Precedence;
  }

  /** `e` is printed from `i` on, in a place where a parse at level `p` reaches
      all of it and nothing after it continues it. */
  predicate Printed(c: Ctx, i: nat, e: Expr, p: nat) {
    Printable(c, e) && At(c, i, Print(e)) && p < LeftPrec(e) && p <= PREFIX && Stops(e, Cur(c, i + |Print(e)|))
  }

  /** Up to and including the last token of the print, `parseExpression`
      behaves as its loop does with the printed tree as the left operand. */
  predicate Reads(c: Ctx, i: nat, e: Expr, p: nat) {
    |Print(e)| > 0 && ParseExpression(c, i, p) == InfixLoop(c, i + |Print(e)| - 1, p, e)
  }

  /** The heart of the round trip. */
  lemma {:induction false} ParsePrinted(c: Ctx, i: nat, e: Expr, p: nat)
    requires Printed(c, i, e, p)
    ensures Reads(c, i, e, p)
    decreases e, 1
  {
    match e {
      case PrefixOp(_, _) => hide Printed, Reads; ParsePrintedPrefix(c, i, e, p);
      case InfixOp(_, _, _) => hide Printed, Reads; ParsePrintedInfix(c, i, e, p);
      case Assignment(_, _, _) => hide Printed, Reads; ParsePrintedAssignment(c, i, e, p);
      case Try(_) => hide Printed, Reads; ParsePrintedTry(c, i, e, p);
      case Call(_, _) => hide Printed, Reads; ParsePrintedCall(c, i, e, p);
      case FieldAccess(_, _) => hide Printed, Reads; ParsePrintedField(c, i, e, p);
      case Index(_, _) => hide Printed, Reads; ParsePrintedIndex(c, i, e, p);
      case ListLit(_) => hide Printed, Reads; ParsePrintedList(c, i, e, p);
      case Atom(sym) =>
        hide ParseExpression, InfixLoop, At, Stops;
        AtOne(c, i, sym);
        AtomStops(e, Cur(c, i + 1));
        AtomStep(c, i, p);
      case _ => assert false;
    }
  }

  lemma AtomStops(e: Expr, t: TokenType)
    requires Stops(e, t)
    ensures t != LBRACE
  {
  }

  /** What `Stops` says after an operator whose right end is open at `q`. */
  lemma StopsOpen(e: Expr, t: TokenType, q: nat)
    requires Stops(e, t) && RightOpen(e) == q
    ensures StopsLoop(t, q) && t != LBRACE
  {
    hide Precedence, RightOpen;
  }

  /** A print followed by a token that binds at LOWEST is parsed whole. */
  lemma {:induction false} ParseClosed(c: Ctx, i: nat, e: Expr)
    requires Printable(c, e) && At(c, i, Print(e))
    requires StopsLoop(Cur(c, i + |Print(e)|), LOWEST) && Cur(c, i + |Print(e)|) != LBRACE
    ensures |Print(e)| > 0
    ensures ParseExpression(c, i, LOWEST) == R(e, i + |Print(e)| - 1, [])
    decreases e, 2
  {
    hide ParseExpression, InfixLoop, Print, At, Precedence, Printable, LeftPrec, RightOpen;
    PrintedLevels(c, e);
    ParsePrinted(c, i, e, LOWEST);
    LoopStops(c, i + |Print(e)| - 1, LOWEST, e);
  }

  lemma PrintedLevels(c: Ctx, e: Expr)
    requires Printable(c, e)
    ensures LOWEST < LeftPrec(e) && LOWEST <= RightOpen(e)
  {
    if e.InfixOp? { OperatorPrecedence(e.op.typ); }
  }

  /** A possibly parenthesised operand. */
  lemma {:induction false} ParseWrapped(c: Ctx, i: nat, e: Expr, paren: bool, p: nat)
    requires Printable(c, e) && At(c, i, Wrap(e, paren)) && p <= PREFIX
    requires !paren ==> Printed(c, i, e, p)
    ensures |Wrap(e, paren)| > 0
    ensures ParseExpression(c, i, p) == InfixLoop(c, i + |Wrap(e, paren)| - 1, p, e)
    decreases e, 3
  {
    hide ParseExpression, InfixLoop, Print, At, Printable, LeftPrec, RightOpen, Printed, Precedence;
    if paren {
      PostfixPrecedence(Cur(c, i + 1 + |Print(e)|));
      AtHead(c, i, OPEN_PAREN, Print(e) + [CLOSE_PAREN]);
      AtSplit(c, i + 1, Print(e), [CLOSE_PAREN]);
      AtOne(c, i + 1 + |Print(e)|, CLOSE_PAREN);
      ParseClosed(c, i + 1, e);
      GroupedStep(c, i, p, e, i + |Print(e)|);
    } else {
      ParsePrinted(c, i, e, p);
    }
  }

  /** The left operand of an operator of precedence `q` standing right after it. */
  lemma {:induction false} ParseLeft(c: Ctx, i: nat, left: Expr, p: nat, q: nat)
    requires Printable(c, left) && At(c, i, Wrap(left, RightOpen(left) < q))
    requires p < q && p <= PREFIX && SEND_PREC <= q
    requires Precedence(Cur(c, i + |Wrap(left, RightOpen(left) < q)|)) == q
    ensures |Wrap(left, RightOpen(left) < q)| > 0
    ensures ParseExpression(c, i, p) == InfixLoop(c, i + |Wrap(left, RightOpen(left) < q)| - 1, p, left)
    decreases left, 4
  {
    hide ParseExpression, InfixLoop, Print, At, Printable, LeftPrec, RightOpen, Precedence;
    if RightOpen(left) >= q {
      LeftOperandFits(c, left, p, q);
      LeftStops(left, Cur(c, i + |Print(left)|), q);
      ParseWrapped(c, i, left, false, p);
    } else {
      ParseWrapped(c, i, left, true, p);
    }
  }

  lemma LeftStops(left: Expr, t: TokenType, q: nat)
    requires Precedence(t) == q <= RightOpen(left) && SEND_PREC <= q
    ensures Stops(left, t)
  {
    hide RightOpen;
  }

  /** The right operand of an operator of precedence `q`, parsed at level `q`. */
  lemma {:induction false} ParseRight(c: Ctx, i: nat, right: Expr, q: nat)
    requires Printable(c, right) && At(c, i, Wrap(right, LeftPrec(right) <= q))
    requires SEND_PREC <= q <= PREFIX
    requires StopsLoop(Cur(c, i + |Wrap(right, LeftPrec(right) <= q)|), q)
    requires Cur(c, i + |Wrap(right, LeftPrec(right) <= q)|) != LBRACE
    ensures |Wrap(right, LeftPrec(right) <= q)| > 0
    ensures ParseExpression(c, i, q) == R(right, i + |Wrap(right, LeftPrec(right) <= q)| - 1, [])
    decreases right, 4
  {
    hide ParseExpression, InfixLoop, Print, At, Printable, Precedence, LeftPrec, RightOpen;
    var paren := LeftPrec(right) <= q;
    if !paren { RightOperandStops(c, right, q); }
    ParseWrapped(c, i, right, paren, q);
    LoopStops(c, i + |Wrap(right, paren)| - 1, q, right);
  }

  /** An operand printed bare at the right of an operator of precedence `q`
      is at least as closed on its right as the operator is. */
  lemma RightOperandStops(c: Ctx, right: Expr, q: nat)
    requires Printable(c, right) && SEND_PREC <= q <= PREFIX && q < LeftPrec(right)
    ensures q <= RightOpen(right)
  {
    hide Precedence;
  }

  lemma {:induction false} ParsePrintedPrefix(c: Ctx, i: nat, e: Expr, p: nat)
    requires e.PrefixOp? && Printed(c, i, e, p)
    ensures Reads(c, i, e, p)
    decreases e, 0
  {
    hide ParseExpression, InfixLoop, At, Precedence, Wrap, IsBinary, IsAssign, Stops, PrintList, PrintArgs;
    var r := Wrap(e.right, LeftPrec(e.right) <= PREFIX);
    assert Print(e) == [e.op] + r;
    hide Print, Printable, LeftPrec;
    AtHead(c, i, e.op, r);
    StopsOpen(e, Cur(c, i + 1 + |r|), PREFIX);
    ParseRight(c, i + 1, e.right, PREFIX);
    PrefixOpStep(c, i, p, e.right, i + |r|);
  }

  lemma {:induction false} ParsePrintedInfix(c: Ctx, i: nat, e: Expr, p: nat)
    requires e.InfixOp? && Printed(c, i, e, p)
    ensures Reads(c, i, e, p)
    decreases e, 0
  {
    hide ParseExpression, InfixLoop, At, Precedence, Wrap, IsBinary, IsAssign, Stops, PrintList, PrintArgs;
    var q := Precedence(e.op.typ);
    var l := Wrap(e.left, RightOpen(e.left) < q);
    var r := Wrap(e.right, LeftPrec(e.right) <= q);
    assert Print(e) == l + ([e.op] + r);
    hide Print, Printable, LeftPrec;
    OperatorPrecedence(e.op.typ);
    AtSplit(c, i, l, [e.op] + r);
    AtHead(c, i + |l|, e.op, r);
    StopsOpen(e, Cur(c, i + |l| + 1 + |r|), q);
    hide RightOpen;
    ParseLeft(c, i, e.left, p, q);
    ParseRight(c, i + |l| + 1, e.right, q);
    BinaryStep(c, i + |l| - 1, p, e.left, e.right, i + |l| + |r|);
  }

  lemma {:induction false} ParsePrintedAssignment(c: Ctx, i: nat, e: Expr, p: nat)
    requires e.Assignment? && Printed(c, i, e, p)
    ensures Reads(c, i, e, p)
    decreases e, 0
  {
    hide ParseExpression, InfixLoop, At, Precedence, Wrap, IsBinary, IsAssign, Stops, PrintList, PrintArgs;
    var l := Wrap(e.left, RightOpen(e.left) < SEND_PREC);
    var s := Print(e.value);
    assert Print(e) == l + ([e.op] + s);
    hide Print, Printable, LeftPrec;
    OperatorPrecedence(e.op.typ);
    AtSplit(c, i, l, [e.op] + s);
    AtHead(c, i + |l|, e.op, s);
    StopsOpen(e, Cur(c, i + |l| + 1 + |s|), LOWEST);
    hide RightOpen;
    ParseLeft(c, i, e.left, p, SEND_PREC);
    ParseClosed(c, i + |l| + 1, e.value);
    AssignStep(c, i + |l| - 1, p, e.left, e.value, i + |l| + |s|);
  }

  lemma {:induction false} ParsePrintedTry(c: Ctx, i: nat, e: Expr, p: nat)
    requires e.Try? && Printed(c, i, e, p)
    ensures Reads(c, i, e, p)
    decreases e, 0
  {
    hide ParseExpression, InfixLoop, At, Precedence, Wrap, IsBinary, IsAssign, Stops, PrintList, PrintArgs;
    var l := Wrap(e.left, RightOpen(e.left) < POSTFIX);
    assert Print(e) == l + [QUESTION_SYM];
    hide Print, Printable, LeftPrec;
    AtSplit(c, i, l, [QUESTION_SYM]);
    AtOne(c, i + |l|, QUESTION_SYM);
    hide RightOpen;
    PostfixPrecedence(Cur(c, i + |l|));
    ParseLeft(c, i, e.left, p, POSTFIX);
    TryStep(c, i + |l| - 1, p, e.left);
  }

  lemma {:induction false} ParsePrintedField(c: Ctx, i: nat, e: Expr, p: nat)
    requires e.FieldAccess? && Printed(c, i, e, p)
    ensures Reads(c, i, e, p)
    decreases e, 0
  {
    hide ParseExpression, InfixLoop, At, Precedence, Wrap, IsBinary, IsAssign, Stops, PrintList, PrintArgs;
    var l := Wrap(e.left, RightOpen(e.left) < FIELD);
    var f := Sym(IDENT, e.field);
    assert Print(e) == l + ([DOT_SYM] + [f]);
    hide Print, Printable, LeftPrec;
    AtSplit(c, i, l, [DOT_SYM] + [f]);
    AtHead(c, i + |l|, DOT_SYM, [f]);
    AtOne(c, i + |l| + 1, f);
    hide RightOpen;
    PostfixPrecedence(Cur(c, i + |l|));
    ParseLeft(c, i, e.left, p, FIELD);
    FieldStep(c, i + |l| - 1, p, e.left);
  }

  /** An operand followed by something in brackets. */
  lemma AtBracketed(c: Ctx, i: nat, l: seq<Sym>, open: Sym, s: seq<Sym>, close: Sym)
    requires At(c, i, l + ([open] + (s + [close])))
    ensures At(c, i, l) && i + |l| < |c.toks| && Cur(c, i + |l|) == open.typ
    ensures At(c, i + |l| + 1, s) && Cur(c, i + |l| + 1 + |s|) == close.typ
  {
    hide At;
    AtSplit(c, i, l, [open] + (s + [close]));
    AtHead(c, i + |l|, open, s + [close]);
    AtSplit(c, i + |l| + 1, s, [close]);
    AtOne(c, i + |l| + 1 + |s|, close);
  }

  lemma {:induction false} ParsePrintedIndex(c: Ctx, i: nat, e: Expr, p: nat)
    requires e.Index? && Printed(c, i, e, p)
    ensures Reads(c, i, e, p)
    decreases e, 0
  {
    hide ParseExpression, InfixLoop, At, Precedence, Wrap, IsBinary, IsAssign, Stops, PrintList, PrintArgs;
    var l := Wrap(e.left, RightOpen(e.left) < FIELD);
    var s := Print(e.index);
    assert Print(e) == l + ([OPEN_BRACKET] + (s + [CLOSE_BRACKET]));
    hide Print, Printable, LeftPrec;
    AtBracketed(c, i, l, OPEN_BRACKET, s, CLOSE_BRACKET);
    assert |Print(e)| == |l| + |s| + 2;
    hide RightOpen;
    PostfixPrecedence(Cur(c, i + |l|));
    PostfixPrecedence(Cur(c, i + |l| + 1 + |s|));
    ParseLeft(c, i, e.left, p, FIELD);
    ParseClosed(c, i + |l| + 1, e.index);
    IndexStep(c, i + |l| - 1, p, e.left, e.index, i + |l| + |s|);
  }

  lemma {:induction false} ParsePrintedCall(c: Ctx, i: nat, e: Expr, p: nat)
    requires e.Call? && Printed(c, i, e, p)
    ensures Reads(c, i, e, p)
    decreases e, 0
  {
    hide ParseExpression, InfixLoop, At, Precedence, Wrap, IsBinary, IsAssign, Stops, PrintList, PrintArgs;
    var l := Wrap(e.fn, RightOpen(e.fn) < CALL);
    var s := PrintArgs(e.args);
    assert Print(e) == l + ([OPEN_PAREN] + (s + [CLOSE_PAREN]));
    hide Print, Printable, LeftPrec;
    AtBracketed(c, i, l, OPEN_PAREN, s, CLOSE_PAREN);
    assert |Print(e)| == |l| + |s| + 2;
    hide RightOpen, ParseCallArgs, Args;
    PostfixPrecedence(Cur(c, i + |l|));
    ParseLeft(c, i, e.fn, p, CALL);
    ParsePrintedCallArgs(c, i + |l|, e.args);
    CallStep(c, i + |l| - 1, p, e.fn, e.args, i + |l| + |s| + 1);
  }

  lemma {:induction false} ParsePrintedCallArgs(c: Ctx, i: nat, args: seq<Arg>)
    requires i < |c.toks| && At(c, i + 1, PrintArgs(args)) && Cur(c, i + 1 + |PrintArgs(args)|) == RPAREN
    requires forall k :: 0 <= k < |args| ==> Printable(c, args[k].value)
    ensures ParseCallArgs(c, i) == R(args, i + 1 + |PrintArgs(args)|, [])
    decreases args, 6
  {
    hide Args, PrintArg, At, Printable;
    if |args| > 0 {
      ParsePrintedArgs(c, i + 1, args);
      CallArgsStep(c, i, args, i + |PrintArgs(args)|);
    }
  }

  lemma {:induction false} ParsePrintedArgs(c: Ctx, i: nat, args: seq<Arg>)
    requires |args| > 0 && At(c, i, PrintArgs(args))
    requires forall k :: 0 <= k < |args| ==> Printable(c, args[k].value)
    requires Cur(c, i + |PrintArgs(args)|) == RPAREN
    ensures |PrintArgs(args)| > 0 && Cur(c, i) != RPAREN
    ensures Args(c, i) == R(args, i + |PrintArgs(args)| - 1, [])
    decreases args, 5
  {
    hide ParseExpression, Args, PrintArg, At, Printable;
    if |args| == 1 {
      ParsePrintedArg(c, i, args[0]);
      ArgsLast(c, i, args[0], i + |PrintArg(args[0])| - 1);
      assert args == [args[0]];
    } else {
      var s := PrintArg(args[0]);
      var rest := PrintArgs(args[1..]);
      AtSplit(c, i, s, [COMMA_SYM] + rest);
      AtHead(c, i + |s|, COMMA_SYM, rest);
      ParsePrintedArg(c, i, args[0]);
      ParsePrintedArgs(c, i + |s| + 1, args[1..]);
      ArgsMore(c, i, args[0], i + |s| - 1, args[1..], i + |s| + |rest|);
      assert args == [args[0]] + args[1..];
    }
  }

  /** One argument: whether it is taken for a named one, and its value. */
  lemma {:induction false} ParsePrintedArg(c: Ctx, i: nat, a: Arg)
    requires Printable(c, a.value) && At(c, i, PrintArg(a))
    requires Cur(c, i + |PrintArg(a)|) == RPAREN || Cur(c, i + |PrintArg(a)|) == COMMA
    ensures |PrintArg(a)| > 0 && Cur(c, i) != RPAREN
    ensures (Cur(c, i) == IDENT && Cur(c, i + 1) == COLON) <==> a.name != ""
    ensures a.name != "" ==> Lit(c, i) == a.name
    ensures ParseExpression(c, if a.name != "" then i + 2 else i, LOWEST) == R(a.value, i + |PrintArg(a)| - 1, [])
    decreases a, 5
  {
    hide ParseExpression, Print, At, Printable, Precedence, HasPrefixFn;
    PostfixPrecedence(Cur(c, i + |PrintArg(a)|));
    if a.name == "" {
      PrintStarts(c, a.value);
      AtIndex(c, i, Print(a.value), 0);
      NoPrefixAtEnd(Cur(c, i));
      if |Print(a.value)| > 1 { AtIndex(c, i, Print(a.value), 1); }
      ParseClosed(c, i, a.value);
    } else {
      AtHead(c, i, Sym(IDENT, a.name), [COLON_SYM] + Print(a.value));
      AtHead(c, i + 1, COLON_SYM, Print(a.value));
      ParseClosed(c, i + 2, a.value);
    }
  }

  lemma {:induction false} ParsePrintedList(c: Ctx, i: nat, e: Expr, p: nat)
    requires e.ListLit? && Printed(c, i, e, p)
    ensures Reads(c, i, e, p)
    decreases e, 0
  {
    hide ParseExpression, InfixLoop, At, Precedence, Wrap, IsBinary, IsAssign, Stops, PrintList, PrintArgs;
    var s := PrintList(e.elems);
    assert Print(e) == [OPEN_BRACKET] + (s + [CLOSE_BRACKET]);
    hide Print, Printable, LeftPrec;
    AtHead(c, i, OPEN_BRACKET, s + [CLOSE_BRACKET]);
    AtSplit(c, i + 1, s, [CLOSE_BRACKET]);
    AtOne(c, i + 1 + |s|, CLOSE_BRACKET);
    hide ParseExpressionList;
    ParsePrintedElems(c, i, e.elems);
    ListStep(c, i, p, e.elems, i + |s| + 1);
  }

  lemma {:induction false} ParsePrintedElems(c: Ctx, i: nat, elems: seq<Expr>)
    requires forall k :: 0 <= k < |elems| ==> Printable(c, elems[k])
    requires i < |c.toks| && At(c, i + 1, PrintList(elems)) && Cur(c, i + 1 + |PrintList(elems)|) == RBRACKET
    ensures ParseExpressionList(c, i, RBRACKET) == R(elems, i + 1 + |PrintList(elems)|, [])
    decreases elems, 6
  {
    hide ParseExpression, MoreExpressions, Print, PrintMore, At, Printable, Precedence, HasPrefixFn;
    if |elems| == 0 {
      EmptyList(c, i);
    } else {
      hide ParseExpressionList;
      var first := Print(elems[0]);
      var rest := PrintMore(elems[1..]);
      AtSplit(c, i + 1, first, rest);
      FirstToken(c, i + 1, elems[0]);
      NoPrefixAtEnd(Cur(c, i + 1));
      ParseMore(c, i + |first|, elems[1..]);
      MoreStart(c, i + 1 + |first|, elems[1..]);
      PostfixPrecedence(Cur(c, i + 1 + |first|));
      ParseClosed(c, i + 1, elems[0]);
      ExpressionListStep(c, i, RBRACKET, elems[0], i + |first|, elems[1..], i + |first| + |rest|);
      assert elems == [elems[0]] + elems[1..];
    }
  }

  lemma EmptyList(c: Ctx, i: nat)
    requires i < |c.toks| && Cur(c, i + 1) == RBRACKET
    ensures ParseExpressionList(c, i, RBRACKET) == R([], i + 1, [])
  {
    hide ParseExpression, MoreExpressions;
  }

  lemma EmptyMore(c: Ctx, i: nat)
    requires Cur(c, i + 1) == RBRACKET
    ensures MoreExpressions(c, i, RBRACKET) == R([], i, [])
  {
    hide ParseExpression;
  }

  /** What follows an element is a comma or the closing bracket. */
  lemma MoreStart(c: Ctx, i: nat, es: seq<Expr>)
    requires At(c, i, PrintMore(es)) && Cur(c, i + |PrintMore(es)|) == RBRACKET
    ensures Cur(c, i) == if |es| == 0 then RBRACKET else COMMA
  {
    hide Print, At;
    if |es| > 0 { AtHead(c, i, COMMA_SYM, Print(es[0]) + PrintMore(es[1..])); }
  }

  lemma {:induction false} ParseMore(c: Ctx, i: nat, es: seq<Expr>)
    requires forall k :: 0 <= k < |es| ==> Printable(c, es[k])
    requires At(c, i + 1, PrintMore(es)) && Cur(c, i + 1 + |PrintMore(es)|) == RBRACKET
    ensures MoreExpressions(c, i, RBRACKET) == R(es, i + |PrintMore(es)|, [])
    decreases es, 5
  {
    hide ParseExpression, MoreExpressions, Print, At, Printable, Precedence, HasPrefixFn;
    if |es| > 0 {
      var first := Print(es[0]);
      var rest := PrintMore(es[1..]);
      AtHead(c, i + 1, COMMA_SYM, first + rest);
      AtSplit(c, i + 2, first, rest);
      ParseMore(c, i + 1 + |first|, es[1..]);
      MoreStart(c, i + 2 + |first|, es[1..]);
      FirstToken(c, i + 2, es[0]);
      NoPrefixAtEnd(Cur(c, i + 2));
      PostfixPrecedence(Cur(c, i + 2 + |first|));
      ParseClosed(c, i + 2, es[0]);
      MoreStep(c, i, RBRACKET, es[0], i + 1 + |first|, es[1..], i + 1 + |first| + |rest|);
      assert es == [es[0]] + es[1..];
    } else {
      EmptyMore(c, i);
    }
  }

  /** Print then parse: at LOWEST, before `;` or the end of input, the parser
      returns the printed tree, stops on its last token and records nothing. */
  lemma PrintThenParse(c: Ctx, i: nat, e: Expr)
    requires Printable(c, e) && At(c, i, Print(e))
    requires Cur(c, i + |Print(e)|) == SEMICOLON || Cur(c, i + |Print(e)|) == EOF
    ensures |Print(e)| > 0
    ensures ParseExpression(c, i, LOWEST) == R(e, i + |Print(e)| - 1, [])
  {
    hide ParseExpression, Print, At, Printable;
    ParseClosed(c, i, e);
  }
}
