/** From trees to text and back: printing a program of expression statements,
    rendering its tokens, lexing the text, dropping newlines and parsing. */
module SourceRoundTrip {
  import opened Tokens
  import opened Ast
  import opened Grammar
  import opened Printer
  import opened PrattRoundTrip
  import opened Lexing
  import opened LexRoundTrip
  import opened Parser
  import opened ParserLoops

  const SEMI := Sym(SEMICOLON, ";")

  /** The statements in order, each closed by a semicolon. */
  function PrintProgram(es: seq<Expr>): seq<Sym> {
    if |es| == 0 then [] else Print(es[0]) + ([SEMI] + PrintProgram(es[1..]))
  }

  function AsStatements(es: seq<Expr>): (r: seq<Stmt>)
    ensures |r| == |es|
  {
    seq(|es|, k requires 0 <= k < |es| => ExprStmt(es[k]))
  }

  lemma OneStatement(c: Ctx, i: nat, e: Expr)
    requires Printable(c, e) && At(c, i, Print(e)) && Cur(c, i + |Print(e)|) == SEMICOLON
    ensures i < |c.toks| && Cur(c, i) != EOF
    ensures ParseStatement(c, i) == R(ExprStmt(e), i + |Print(e)|, [])
  {
    hide Grammar.ParseExpression, Print, Printable, Grammar.ParseStatement, At;
    FirstToken(c, i, e);
    PrintThenParse(c, i, e);
    StatementStarts(c, i);
  }

  lemma StatementStarts(c: Ctx, i: nat)
    requires HasPrefixFn(Cur(c, i)) && Cur(c, i) != FN
    ensures i < |c.toks| && Cur(c, i) != EOF
    ensures var a := Grammar.ParseExpression(c, i, LOWEST);
            ParseStatement(c, i) == R(ExprStmt(a.v), SkipIf(c, a.at, SEMICOLON), a.errs)
  {
    hide Grammar.ParseExpression;
  }

  /** A printed program parses to its statements and the parser reaches EOF. */
  lemma {:induction false} ProgramPrintThenParse(c: Ctx, i: nat, es: seq<Expr>)
    requires forall k :: 0 <= k < |es| ==> Printable(c, es[k])
    requires At(c, i, PrintProgram(es)) && Cur(c, i + |PrintProgram(es)|) == EOF
    ensures Statements(c, i, EOF) == R(AsStatements(es), i + |PrintProgram(es)|, [])
    decreases |es|
  {
    hide Grammar.ParseStatement, Print, Printable, At, Statements;
    StatementsUnfold(c, i);
    if |es| > 0 {
      var first := Print(es[0]);
      var rest := PrintProgram(es[1..]);
      AtSplit(c, i, first, [SEMI] + rest);
      AtHead(c, i + |first|, SEMI, rest);
      OneStatement(c, i, es[0]);
      ProgramPrintThenParse(c, i + |first| + 1, es[1..]);
      assert AsStatements(es) == [ExprStmt(es[0])] + AsStatements(es[1..]);
    }
  }

  // ---------- spelling ----------

  predicate IsName(s: string) {
    IsWord(s) && LookupIdent(s) == IDENT
  }

  /** Every token of the tree has a spelling the lexer reads back. */
  predicate Spelled(e: Expr) {
    match e
    case Atom(sym) => WellFormed(sym) && sym.typ != NEWLINE
    case PrefixOp(op, right) => WellFormed(op) && op.typ != NEWLINE && Spelled(right)
    case InfixOp(left, op, right) => WellFormed(op) && op.typ != NEWLINE && Spelled(left) && Spelled(right)
    case Assignment(left, op, value) => WellFormed(op) && op.typ != NEWLINE && Spelled(left) && Spelled(value)
    case Try(left) => Spelled(left)
    case Call(fn, args) =>
      && Spelled(fn)
      && forall k :: 0 <= k < |args| ==> Spelled(args[k].value) && (args[k].name != "" ==> IsName(args[k].name))
    case FieldAccess(left, field) => Spelled(left) && IsName(field)
    case Index(left, index) => Spelled(left) && Spelled(index)
    case ListLit(elems) => forall k :: 0 <= k < |elems| ==> Spelled(elems[k])
    case _ => true
  }

  predicate WellSpelled(s: seq<Sym>) {
    forall k :: 0 <= k < |s| ==> WellFormed(s[k]) && s[k].typ != NEWLINE
  }

  lemma JoinSpelled(a: seq<Sym>, b: seq<Sym>)
    requires WellSpelled(a) && WellSpelled(b)
    ensures WellSpelled(a + b)
  {
    hide WellFormed;
  }

  lemma OneSpelled(s: Sym)
    requires WellFormed(s) && s.typ != NEWLINE
    ensures WellSpelled([s])
  {
    hide WellFormed;
  }

  lemma NameSpelled(s: string)
    requires IsName(s)
    ensures WellSpelled([Sym(IDENT, s)])
  {
    hide LookupIdent, IsWord;
  }

  lemma MarksSpelled()
    ensures WellSpelled([OPEN_PAREN]) && WellSpelled([CLOSE_PAREN]) && WellSpelled([OPEN_BRACKET])
    ensures WellSpelled([CLOSE_BRACKET]) && WellSpelled([COMMA_SYM]) && WellSpelled([COLON_SYM])
    ensures WellSpelled([DOT_SYM]) && WellSpelled([QUESTION_SYM]) && WellSpelled([SEMI])
  {
    hide LookupIdent, IsWord;
  }

  lemma JoinThree(a: seq<Sym>, b: seq<Sym>, c: seq<Sym>)
    requires WellSpelled(a) && WellSpelled(b) && WellSpelled(c)
    ensures WellSpelled(a + (b + c))
  {
    hide WellSpelled;
    JoinSpelled(b, c);
    JoinSpelled(a, b + c);
  }

  lemma {:induction false} PrintSpelled(e: Expr)
    requires Spelled(e)
    ensures WellSpelled(Print(e))
    decreases e, 1
  {
    hide WellSpelled, Wrap, PrintArgs, PrintList, WellFormed, Precedence, IsName, LeftPrec, RightOpen;
    MarksSpelled();
    match e
    case Atom(sym) => OneSpelled(sym);
    case PrefixOp(op, right) =>
      OneSpelled(op);
      WrapSpelled(right, LeftPrec(right) <= PREFIX);
      JoinSpelled([op], Wrap(right, LeftPrec(right) <= PREFIX));
    case InfixOp(left, op, right) =>
      var q := Precedence(op.typ);
      OneSpelled(op);
      WrapSpelled(left, RightOpen(left) < q);
      WrapSpelled(right, LeftPrec(right) <= q);
      JoinThree(Wrap(left, RightOpen(left) < q), [op], Wrap(right, LeftPrec(right) <= q));
    case Assignment(left, op, value) =>
      OneSpelled(op);
      WrapSpelled(left, RightOpen(left) < SEND_PREC);
      PrintSpelled(value);
      JoinThree(Wrap(left, RightOpen(left) < SEND_PREC), [op], Print(value));
    case Try(left) =>
      WrapSpelled(left, RightOpen(left) < POSTFIX);
      JoinSpelled(Wrap(left, RightOpen(left) < POSTFIX), [QUESTION_SYM]);
    case Call(fn, args) =>
      WrapSpelled(fn, RightOpen(fn) < CALL);
      ArgsSpelled(args);
      JoinThree([OPEN_PAREN], PrintArgs(args), [CLOSE_PAREN]);
      JoinSpelled(Wrap(fn, RightOpen(fn) < CALL), [OPEN_PAREN] + (PrintArgs(args) + [CLOSE_PAREN]));
    case FieldAccess(left, field) =>
      WrapSpelled(left, RightOpen(left) < FIELD);
      NameSpelled(field);
      JoinThree(Wrap(left, RightOpen(left) < FIELD), [DOT_SYM], [Sym(IDENT, field)]);
    case Index(left, index) =>
      WrapSpelled(left, RightOpen(left) < FIELD);
      PrintSpelled(index);
      JoinThree([OPEN_BRACKET], Print(index), [CLOSE_BRACKET]);
      JoinSpelled(Wrap(left, RightOpen(left) < FIELD), [OPEN_BRACKET] + (Print(index) + [CLOSE_BRACKET]));
    case ListLit(elems) =>
      ListSpelled(elems);
      JoinThree([OPEN_BRACKET], PrintList(elems), [CLOSE_BRACKET]);
    case _ => NothingSpelled();
  }

  lemma NothingSpelled()
    ensures WellSpelled([])
  {
  }

  lemma {:induction false} WrapSpelled(e: Expr, paren: bool)
    requires Spelled(e)
    ensures WellSpelled(Wrap(e, paren))
    decreases e, 2
  {
    hide WellSpelled, Print, Spelled;
    MarksSpelled();
    PrintSpelled(e);
    JoinThree([OPEN_PAREN], Print(e), [CLOSE_PAREN]);
  }

  lemma {:induction false} ArgsSpelled(args: seq<Arg>)
    requires forall k :: 0 <= k < |args| ==> Spelled(args[k].value) && (args[k].name != "" ==> IsName(args[k].name))
    ensures WellSpelled(PrintArgs(args))
    decreases args, 3
  {
    hide WellSpelled, PrintArg, Spelled, IsName;
    MarksSpelled();
    NothingSpelled();
    if |args| > 0 {
      ArgSpelled(args[0]);
      ArgsSpelled(args[1..]);
      JoinThree(PrintArg(args[0]), [COMMA_SYM], PrintArgs(args[1..]));
    }
  }

  lemma {:induction false} ArgSpelled(a: Arg)
    requires Spelled(a.value) && (a.name != "" ==> IsName(a.name))
    ensures WellSpelled(PrintArg(a))
    decreases a, 3
  {
    hide WellSpelled, Print, Spelled, IsName;
    MarksSpelled();
    PrintSpelled(a.value);
    if a.name != "" {
      NameSpelled(a.name);
      JoinThree([Sym(IDENT, a.name)], [COLON_SYM], Print(a.value));
    }
  }

  lemma {:induction false} ListSpelled(es: seq<Expr>)
    requires forall k :: 0 <= k < |es| ==> Spelled(es[k])
    ensures WellSpelled(PrintList(es))
    decreases es, 4
  {
    hide WellSpelled, Print, Spelled, PrintMore;
    NothingSpelled();
    if |es| > 0 {
      PrintSpelled(es[0]);
      MoreSpelled(es[1..]);
      JoinSpelled(Print(es[0]), PrintMore(es[1..]));
    }
  }

  lemma {:induction false} MoreSpelled(es: seq<Expr>)
    requires forall k :: 0 <= k < |es| ==> Spelled(es[k])
    ensures WellSpelled(PrintMore(es))
    decreases es, 3
  {
    hide WellSpelled, Print, Spelled;
    NothingSpelled();
    MarksSpelled();
    if |es| > 0 {
      PrintSpelled(es[0]);
      MoreSpelled(es[1..]);
      JoinThree([COMMA_SYM], Print(es[0]), PrintMore(es[1..]));
    }
  }

  lemma {:induction false} ProgramSpelled(es: seq<Expr>)
    requires forall k :: 0 <= k < |es| ==> Spelled(es[k])
    ensures WellSpelled(PrintProgram(es))
    decreases |es|
  {
    hide WellSpelled, Print, Spelled;
    NothingSpelled();
    MarksSpelled();
    if |es| > 0 {
      PrintSpelled(es[0]);
      ProgramSpelled(es[1..]);
      JoinThree(Print(es[0]), [SEMI], PrintProgram(es[1..]));
    }
  }

  // ---------- the whole front end ----------

  lemma {:induction false} VisibleAll(ts: seq<Token>)
    requires forall k :: 0 <= k < |ts| ==> ts[k].sym.typ != NEWLINE
    ensures Visible(ts) == Syms(ts)
    decreases |ts|
  {
    if |ts| > 0 {
      VisibleAll(ts[1..]);
      assert Syms(ts) == [ts[0].sym] + Syms(ts[1..]);
    }
  }

  /** What the parser sees of rendered tokens: the same, then EOF. */
  lemma LexSpelled(ss: seq<Sym>)
    requires WellSpelled(ss)
    ensures Visible(Collect(Render(ss), Start())) == ss + [Sym(EOF, "")]
  {
    hide Render, Collect, WellFormed, Visible;
    RenderThenLex(ss);
    var ts := Collect(Render(ss), Start());
    NoNewlines(ts, ss);
    VisibleAll(ts);
  }

  lemma NoNewlines(ts: seq<Token>, ss: seq<Sym>)
    requires WellSpelled(ss) && Syms(ts) == ss + [Sym(EOF, "")]
    ensures forall k :: 0 <= k < |ts| ==> ts[k].sym.typ != NEWLINE
  {
    hide WellFormed;
    forall k | 0 <= k < |ts| ensures ts[k].sym.typ != NEWLINE {
      assert ts[k].sym == Syms(ts)[k];
    }
  }

  /** Text round trip: lexing and parsing the rendered print of a program of
      expression statements returns exactly those statements, at EOF and
      without errors. */
  lemma TextRoundTrip(es: seq<Expr>, valid: Sym -> bool)
    requires forall k :: 0 <= k < |es| ==> Spelled(es[k]) && Printable(Ctx([], valid), es[k])
    ensures var c := Ctx(Visible(Collect(Render(PrintProgram(es)), Start())), valid);
            ParseProgram(c) == R(AsStatements(es), |PrintProgram(es)|, [])
  {
    hide Spelled, Render, Collect, PrintProgram, Visible, Statements, AsStatements;
    var ss := PrintProgram(es);
    ProgramSpelled(es);
    LexSpelled(ss);
    var c := Ctx(ss + [Sym(EOF, "")], valid);
    forall k | 0 <= k < |es| ensures Printable(c, es[k]) {
      SamePrintable(Ctx([], valid), c, es[k]);
    }
    hide Printable;
    assert c.toks[0..|ss|] == ss;
    ProgramPrintThenParse(c, 0, es);
  }

  /** Whether a tree is printable depends only on the number checker. */
  lemma {:induction false} SamePrintable(c: Ctx, d: Ctx, e: Expr)
    requires c.valid == d.valid && Printable(c, e)
    ensures Printable(d, e)
    decreases e
  {
    match e
    case PrefixOp(_, right) => SamePrintable(c, d, right);
    case InfixOp(left, _, right) => SamePrintable(c, d, left); SamePrintable(c, d, right);
    case Assignment(left, _, value) => SamePrintable(c, d, left); SamePrintable(c, d, value);
    case Try(left) => SamePrintable(c, d, left);
    case Call(fn, args) =>
      SamePrintable(c, d, fn);
      forall k | 0 <= k < |args| ensures Printable(d, args[k].value) { SamePrintable(c, d, args[k].value); }
    case FieldAccess(left, _) => SamePrintable(c, d, left);
    case Index(left, index) => SamePrintable(c, d, left); SamePrintable(c, d, index);
    case ListLit(elems) =>
      forall k | 0 <= k < |elems| ensures Printable(d, elems[k]) { SamePrintable(c, d, elems[k]); }
    case _ =>
  }
}
