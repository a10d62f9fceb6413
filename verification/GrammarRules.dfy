/** The concrete syntax, form by form: which tokens, with which parts between them, are
    read as which tree.  The parts are read from where the form leaves off and to where
    it goes on. */
module GrammarRules {
  import opened Options
  import opened Tokens
  import opened Ast
  import opened Grammar
  import opened ParseSteps

  /** An expression stands at `i` and ends with token `j`. */
  predicate Reads(c: Ctx, i: nat, e: Expr, j: nat) {
    ParseExpression(c, i, LOWEST) == R(e, j, [])
  }

  /** Statements stand at `i`, up to the closing brace at `j`. */
  predicate ReadsBlock(c: Ctx, i: nat, ss: seq<Stmt>, j: nat) {
    Statements(c, i, RBRACE) == R(ss, j, [])
  }

  /** As a prefix form: with what binds to it behind it, `InfixLoop` says. */
  predicate ReadsForm(c: Ctx, i: nat, e: Expr, j: nat) {
    HasPrefixFn(Cur(c, i)) && ParsePrefix(c, i) == R(e, j, [])
  }

  /** A form followed by nothing that binds to it is a whole expression. */
  lemma FormAlone(c: Ctx, i: nat, e: Expr, j: nat)
    requires ReadsForm(c, i, e, j) && StopsLoop(Cur(c, j + 1), LOWEST)
    ensures Reads(c, i, e, j)
  {
    hide ParsePrefix, ParseExpression, InfixLoop;
    PrefixStep(c, i, LOWEST, e, j);
    LoopStops(c, j, LOWEST, e);
  }

  // ---------- control flow ----------

  /** `if cond { ... }`, with nothing, `else { ... }` or `else if ...` behind it. */
  lemma IfForm(c: Ctx, i: nat, cond: Expr, j: nat, yes: seq<Stmt>, k: nat)
    requires Cur(c, i) == IF && Reads(c, i + 1, cond, j) && Cur(c, j + 1) == LBRACE && ReadsBlock(c, j + 2, yes, k)
    ensures Cur(c, k + 1) != ELSE ==> ReadsForm(c, i, If(cond, yes, None), k)
    ensures forall no, m :: Cur(c, k + 1) == ELSE && Cur(c, k + 2) == LBRACE && ReadsBlock(c, k + 3, no, m) ==>
              ReadsForm(c, i, If(cond, yes, Some(no)), m)
    ensures forall e, m :: Cur(c, k + 1) == ELSE && Cur(c, k + 2) == IF && e != Missing && ReadsForm(c, k + 2, e, m) ==>
              ReadsForm(c, i, If(cond, yes, Some([ExprStmt(e)])), m)
  {
    hide ParseExpression, Statements;
    assert Expect(c, j, LBRACE) == R(true, j + 1, []);
    assert BlockBody(c, j + 1) == R(yes, k, []);
    var r := Else(c, k, cond, yes);
    assert ParseIf(c, i) == R(r.v, r.at, [] + [] + r.errs);
    assert [] + [] + r.errs == r.errs;
    IfIs(c, i);
    hide ParseIf, ParsePrefix, BlockBody;
    forall no, m | Cur(c, k + 1) == ELSE && Cur(c, k + 2) == LBRACE && ReadsBlock(c, k + 3, no, m)
      ensures r == R(If(cond, yes, Some(no)), m, [])
    {
      BlockIs(c, k + 2, no, m);
    }
    forall e, m | Cur(c, k + 1) == ELSE && Cur(c, k + 2) == IF && e != Missing && ReadsForm(c, k + 2, e, m)
      ensures r == R(If(cond, yes, Some([ExprStmt(e)])), m, [])
    {
      IfIs(c, k + 2);
    }
  }

  lemma IfIs(c: Ctx, i: nat)
    requires Cur(c, i) == IF
    ensures HasPrefixFn(Cur(c, i)) && ParsePrefix(c, i) == ParseIf(c, i)
  {
    hide ParseIf;
  }

  lemma BlockIs(c: Ctx, i: nat, ss: seq<Stmt>, j: nat)
    requires i < |c.toks| && ReadsBlock(c, i + 1, ss, j)
    ensures BlockBody(c, i) == R(ss, j, [])
  {
    hide Statements;
  }

  /** `while cond { ... }` */
  lemma WhileForm(c: Ctx, i: nat, cond: Expr, j: nat, body: seq<Stmt>, k: nat)
    requires Cur(c, i) == WHILE && Reads(c, i + 1, cond, j) && Cur(c, j + 1) == LBRACE && ReadsBlock(c, j + 2, body, k)
    ensures ReadsForm(c, i, While(cond, body), k)
  {
    hide ParseExpression, Statements;
    assert BlockBody(c, j + 1) == R(body, k, []);
    assert ParseWhile(c, i) == R(While(cond, body), k, []);
  }

  /** `for x in list { ... }` */
  lemma ForForm(c: Ctx, i: nat, e: Expr, j: nat, body: seq<Stmt>, k: nat)
    requires Cur(c, i) == FOR && Cur(c, i + 1) == IDENT && Cur(c, i + 2) == IN
    requires Reads(c, i + 3, e, j) && Cur(c, j + 1) == LBRACE && ReadsBlock(c, j + 2, body, k)
    ensures ReadsForm(c, i, ForIn(Lit(c, i + 1), e, body), k)
  {
    hide ParseExpression, Statements;
    assert BlockBody(c, j + 1) == R(body, k, []);
    assert ParseForIn(c, i) == R(ForIn(Lit(c, i + 1), e, body), k, []);
  }

  /** `handle (Effect) { using: handler } in { ... }` */
  lemma HandleForm(c: Ctx, i: nat, h: Expr, j: nat, body: seq<Stmt>, k: nat)
    requires Cur(c, i) == HANDLE && Cur(c, i + 1) == LPAREN && Cur(c, i + 3) == RPAREN && Cur(c, i + 4) == LBRACE
    requires Lit(c, i + 5) == "using" && Cur(c, i + 6) == COLON && Reads(c, i + 7, h, j)
    requires Cur(c, j + 1) == RBRACE && Cur(c, j + 2) == IN && Cur(c, j + 3) == LBRACE && ReadsBlock(c, j + 4, body, k)
    ensures ReadsForm(c, i, Handle(Lit(c, i + 2), h, body), k)
  {
    hide ParseExpression, Statements;
    assert BlockBody(c, j + 3) == R(body, k, []);
    assert HandleTail(c, j, Lit(c, i + 2), h) == R(Handle(Lit(c, i + 2), h, body), k, []);
    hide HandleTail;
    assert HandleUsing(c, i + 3, Lit(c, i + 2)) == R(Handle(Lit(c, i + 2), h, body), k, []);
    hide HandleUsing;
    assert ParseHandle(c, i) == R(Handle(Lit(c, i + 2), h, body), k, []);
  }

  // ---------- match ----------

  /** Arms stand at `i`, up to the closing brace at `j`. */
  predicate ReadsArms(c: Ctx, i: nat, arms: seq<Arm>, j: nat) {
    Arms(c, i) == R(arms, j, [])
  }

  /** `match subject { arms }` */
  lemma MatchForm(c: Ctx, i: nat, e: Expr, j: nat, arms: seq<Arm>, k: nat)
    requires Cur(c, i) == MATCH && Reads(c, i + 1, e, j) && Cur(c, j + 1) == LBRACE && ReadsArms(c, j + 2, arms, k)
    ensures ReadsForm(c, i, Match(e, arms), k)
  {
    hide ParseExpression, Arms;
    assert ParseMatch(c, i) == R(Match(e, arms), k, []);
  }

  /** Arms end at the brace; else there is one more, `pattern => body`, and a comma or
      none behind it. */
  lemma ArmForms(c: Ctx, i: nat, p: Pattern, j: nat, body: Expr, k: nat, rest: seq<Arm>, m: nat)
    ensures Cur(c, i) == RBRACE ==> ReadsArms(c, i, [], i)
    ensures Cur(c, i) != RBRACE && Cur(c, i) != EOF && ParsePattern(c, i) == R(p, j, []) && Cur(c, j + 1) == FAT_ARROW
            && Reads(c, j + 2, body, k) && ReadsArms(c, if Cur(c, k + 1) == COMMA then k + 2 else k + 1, rest, m)
            ==> ReadsArms(c, i, [Arm(p, None, body)] + rest, m)
  {
    hide ParseExpression, ParsePattern, Guard, ArmBody;
    GuardIs(c, j, body, k);
    ArmBodyIs(c, j, body, k);
    if Cur(c, i) != RBRACE && Cur(c, i) != EOF && ParsePattern(c, i) == R(p, j, []) && Cur(c, j + 1) == FAT_ARROW
        && Reads(c, j + 2, body, k) && ReadsArms(c, if Cur(c, k + 1) == COMMA then k + 2 else k + 1, rest, m) {
      hide Reads;
      OneArm(c, i, p, j, None, j, body, k, rest, m);
    }
  }

  /** `pattern if guard => body` */
  lemma GuardedArm(c: Ctx, i: nat, p: Pattern, j: nat, g: Expr, l: nat, body: Expr, k: nat, rest: seq<Arm>, m: nat)
    requires Cur(c, i) != RBRACE && Cur(c, i) != EOF && ParsePattern(c, i) == R(p, j, [])
    requires Cur(c, j + 1) == IF && Reads(c, j + 2, g, l) && Cur(c, l + 1) == FAT_ARROW && Reads(c, l + 2, body, k)
    requires ReadsArms(c, if Cur(c, k + 1) == COMMA then k + 2 else k + 1, rest, m)
    ensures ReadsArms(c, i, [Arm(p, Some(g), body)] + rest, m)
  {
    hide ParseExpression, ParsePattern, Guard, ArmBody, Arms;
    GuardIs(c, j, g, l);
    ArmBodyIs(c, l, body, k);
    OneArm(c, i, p, j, Some(g), l, body, k, rest, m);
  }

  lemma GuardIs(c: Ctx, j: nat, g: Expr, l: nat)
    ensures Cur(c, j + 1) != IF ==> Guard(c, j) == R(None, j, [])
    ensures Cur(c, j + 1) == IF && Reads(c, j + 2, g, l) ==> Guard(c, j) == R(Some(g), l, [])
  {
    hide ParseExpression;
  }

  lemma ArmBodyIs(c: Ctx, l: nat, body: Expr, k: nat)
    ensures Cur(c, l + 1) == FAT_ARROW && Reads(c, l + 2, body, k) ==> ArmBody(c, l) == R(body, k, [])
  {
    hide ParseExpression;
  }

  lemma OneArm(c: Ctx, i: nat, p: Pattern, j: nat, g: Option<Expr>, l: nat, body: Expr, k: nat, rest: seq<Arm>, m: nat)
    requires Cur(c, i) != RBRACE && Cur(c, i) != EOF && ParsePattern(c, i) == R(p, j, [])
    requires Guard(c, j) == R(g, l, []) && ArmBody(c, l) == R(body, k, [])
    requires ReadsArms(c, if Cur(c, k + 1) == COMMA then k + 2 else k + 1, rest, m)
    ensures ReadsArms(c, i, [Arm(p, g, body)] + rest, m)
  {
    hide ParsePattern, Guard, ArmBody;
    assert ParseMatchArm(c, i) == R(Arm(p, g, body), k, []);
    hide ParseMatchArm;
  }

  /** `_`, a literal, a name, a dotted name, and a name with bindings. */
  lemma PatternForms(c: Ctx, i: nat)
    ensures Cur(c, i) == IDENT && Lit(c, i) == "_" ==> ParsePattern(c, i) == R(Pattern(Wildcard, "_", [], []), i, [])
    ensures Cur(c, i) == INT_LIT || Cur(c, i) == FLOAT_LIT || Cur(c, i) == STRING_LIT ==>
              ParsePattern(c, i) == R(Pattern(Literal, Lit(c, i), [], []), i, [])
    ensures Cur(c, i) == TRUE || Cur(c, i) == FALSE || Cur(c, i) == NIL ==>
              ParsePattern(c, i) == R(Pattern(Identifier, Lit(c, i), [], []), i, [])
    ensures Cur(c, i) == IDENT && Lit(c, i) != "_" && Cur(c, i + 1) != DOT && Cur(c, i + 1) != LPAREN
            && Cur(c, i + 1) != LBRACE
            ==> ParsePattern(c, i) == R(Pattern(Identifier, Lit(c, i), [], []), i, [])
    ensures Cur(c, i) == IDENT && Lit(c, i) != "_" && Cur(c, i + 1) == DOT && Cur(c, i + 3) != DOT
            && Cur(c, i + 3) != LPAREN && Cur(c, i + 3) != LBRACE
            ==> ParsePattern(c, i) == R(Pattern(Identifier, Lit(c, i) + "." + Lit(c, i + 2), [], []), i + 2, [])
  {
    hide FieldPatterns, Bindings;
    assert Cur(c, i + 1) != DOT ==> DottedName(c, i, Lit(c, i)) == R(Lit(c, i), i, []);
    assert Cur(c, i + 1) == DOT && Cur(c, i + 3) != DOT ==>
             DottedName(c, i + 2, Lit(c, i) + "." + Lit(c, i + 2)) == R(Lit(c, i) + "." + Lit(c, i + 2), i + 2, []);
  }

  /** `Name(x)` */
  lemma BindingPattern(c: Ctx, i: nat)
    requires Cur(c, i) == IDENT && Lit(c, i) != "_" && Cur(c, i + 1) == LPAREN && Cur(c, i + 2) == IDENT
    requires Cur(c, i + 3) == RPAREN
    ensures ParsePattern(c, i) == R(Pattern(Destructure, Lit(c, i), [Lit(c, i + 2)], []), i + 3, [])
  {
    assert DottedName(c, i, Lit(c, i)) == R(Lit(c, i), i, []);
    assert Bindings(c, i + 2) == R([], i + 2, []);
    assert SkipIf(c, i + 2, COMMA) == i + 2;
    assert Bindings(c, i + 1) == R([Lit(c, i + 2)] + [], i + 2, []);
    assert [Lit(c, i + 2)] + [] == [Lit(c, i + 2)];
    hide FieldPatterns, DottedName, Bindings;
  }

  // ---------- functions ----------

  /** Parameters between parentheses, up to the closing one at `j`. */
  predicate ReadsParams(c: Ctx, i: nat, ps: seq<Param>, j: nat) {
    i < |c.toks| && ParseFnParams(c, i) == R(ps, j, [])
  }

  /** None, or the parameters and the closing parenthesis. */
  lemma ParamsForms(c: Ctx, i: nat, ps: seq<Param>, j: nat)
    requires i < |c.toks|
    ensures Cur(c, i + 1) == RPAREN ==> ReadsParams(c, i, [], i + 1)
    ensures Cur(c, i + 1) != RPAREN && Params(c, i + 1) == R(ps, j, []) && Cur(c, j + 1) == RPAREN ==>
              ReadsParams(c, i, ps, j + 1)
  {
    hide Params;
  }

  /** One parameter: `self`, a bare name, or a name with a default; commas between. */
  lemma ParamForms(c: Ctx, i: nat, e: Expr, j: nat, rest: seq<Param>, k: nat)
    ensures Cur(c, i) == SELF ==> ParseParam(c, i) == R(Param("self", "", "", None), i, [])
    ensures Cur(c, i) == IDENT && Cur(c, i + 1) != COLON && Cur(c, i + 1) != ASSIGN ==>
              ParseParam(c, i) == R(Param(Lit(c, i), "", "", None), i, [])
    ensures Cur(c, i) == IDENT && Cur(c, i + 1) == ASSIGN && Reads(c, i + 2, e, j) ==>
              ParseParam(c, i) == R(Param(Lit(c, i), "", "", Some(e)), j, [])
    ensures Cur(c, i) == IDENT && Cur(c, i + 1) == COLON && Cur(c, i + 2) == IDENT && Cur(c, i + 3) != DOT
            && Cur(c, i + 3) != LBRACKET && Cur(c, i + 3) != ASSIGN
            ==> ParseParam(c, i) == R(Param(Lit(c, i), "", Lit(c, i + 2), None), i + 2, [])
  {
    hide ParseExpression;
    if Cur(c, i) == IDENT && Cur(c, i + 1) == COLON && Cur(c, i + 2) == IDENT && Cur(c, i + 3) != DOT
        && Cur(c, i + 3) != LBRACKET {
      PlainType(c, i + 2);
    }
    hide ParseTypeExpr;
  }

  lemma ParamsChain(c: Ctx, i: nat, p: Param, j: nat, rest: seq<Param>, k: nat)
    requires ParseParam(c, i) == R(p, j, [])
    ensures Cur(c, j + 1) != COMMA ==> Params(c, i) == R([p], j, [])
    ensures Cur(c, j + 1) == COMMA && Params(c, j + 2) == R(rest, k, []) ==> Params(c, i) == R([p] + rest, k, [])
  {
    hide ParseParam;
  }

  /** A type of one name. */
  lemma PlainType(c: Ctx, i: nat)
    requires Cur(c, i) != LBRACKET && Cur(c, i + 1) != DOT && Cur(c, i + 1) != LBRACKET
    ensures ParseTypeExpr(c, i) == R(Lit(c, i), i, [])
  {
    assert DottedName(c, i, Lit(c, i)) == R(Lit(c, i), i, []);
  }

  /** `fn(params) => e` and `fn(params) { ... }`, with `-> type` before the body or
      without. */
  lemma LambdaForms(c: Ctx, i: nat, ps: seq<Param>, j: nat, ty: string, l: nat, body: Expr, stmts: seq<Stmt>, k: nat)
    requires Cur(c, i) == FN && Cur(c, i + 1) == LPAREN && ReadsParams(c, i + 1, ps, j)
    requires if Cur(c, j + 1) == ARROW then ParseTypeExpr(c, j + 2) == R(ty, l, []) else ty == "" && l == j
    ensures Cur(c, l + 1) == FAT_ARROW && Reads(c, l + 2, body, k) ==>
              ReadsForm(c, i, Lambda(ps, ty, [ExprStmt(body)]), k)
    ensures Cur(c, l + 1) == LBRACE && ReadsBlock(c, l + 2, stmts, k) ==> ReadsForm(c, i, Lambda(ps, ty, stmts), k)
  {
    hide ParseExpression, Statements, ParseFnParams, ParseTypeExpr, ParsePrefix, LambdaBody;
    assert OptionalType(c, j, ARROW) == R(ty, l, []);
    LambdaIs(c, i, ps, j);
    BodyIs(c, l, body, stmts, k);
  }

  lemma BodyIs(c: Ctx, l: nat, body: Expr, stmts: seq<Stmt>, k: nat)
    ensures Cur(c, l + 1) == FAT_ARROW && Reads(c, l + 2, body, k) ==>
              LambdaBody(c, l) == R(Some([ExprStmt(body)]), k, [])
    ensures Cur(c, l + 1) == LBRACE && ReadsBlock(c, l + 2, stmts, k) ==> LambdaBody(c, l) == R(Some(stmts), k, [])
  {
    hide ParseExpression, Statements;
  }

  lemma LambdaIs(c: Ctx, i: nat, ps: seq<Param>, j: nat)
    requires Cur(c, i) == FN && Cur(c, i + 1) == LPAREN && ReadsParams(c, i + 1, ps, j)
    ensures HasPrefixFn(Cur(c, i))
    ensures var ty := OptionalType(c, j, ARROW); var b := LambdaBody(c, ty.at);
            b.v.Some? && b.errs == [] ==> ParsePrefix(c, i) == R(Lambda(ps, ty.v, b.v.value), b.at, [])
  {
    hide ParseFnParams, OptionalType, LambdaBody;
    assert Expect(c, i, LPAREN) == R(true, i + 1, []);
  }

  // ---------- blocks and objects ----------

  /** `{ ... }` is a block unless a name and a colon follow the brace. */
  lemma BlockForm(c: Ctx, i: nat, ss: seq<Stmt>, j: nat)
    requires Cur(c, i) == LBRACE && !(Cur(c, i + 1) == IDENT && Cur(c, i + 2) == COLON) && ReadsBlock(c, i + 1, ss, j)
    ensures ReadsForm(c, i, Block(ss), j)
  {
    hide Statements;
    assert ParseBlockExpression(c, i) == R(Block(ss), j, []);
  }

  /** Fields of an unnamed object, up to the closing brace at `j`. */
  predicate ReadsFields(c: Ctx, i: nat, fs: seq<Arg>, j: nat) {
    BareObjectBody(c, i) == R(Some(fs), j, [])
  }

  lemma BareObjectForms(c: Ctx, i: nat, e: Expr, j: nat, rest: seq<Arg>, k: nat)
    requires Cur(c, i) == IDENT && Cur(c, i + 1) == COLON && Reads(c, i + 2, e, j)
    ensures Cur(c, j + 1) == RBRACE ==> ReadsFields(c, i, [Arg(Lit(c, i), e)], j + 1)
    ensures Cur(c, j + 1) == COMMA && ReadsFields(c, j + 2, rest, k) ==>
              ReadsFields(c, i, [Arg(Lit(c, i), e)] + rest, k)
  {
    hide ParseExpression;
    assert Expect(c, i, COLON) == R(true, i + 1, []);
  }

  lemma BareObjectForm(c: Ctx, i: nat, fs: seq<Arg>, j: nat)
    requires Cur(c, i) == LBRACE && Cur(c, i + 1) == IDENT && Cur(c, i + 2) == COLON && ReadsFields(c, i + 1, fs, j)
    ensures ReadsForm(c, i, ObjectLit("", fs), j)
  {
    hide BareObjectBody;
    assert ParseBlockExpression(c, i) == R(ObjectLit("", fs), j, []);
  }

  /** `Name { }` and `Name { field: e ... }` for a name that begins with a capital. */
  lemma ObjectForms(c: Ctx, i: nat, fs: seq<Arg>, j: nat)
    requires Cur(c, i) == IDENT && Lit(c, i) != "" && 'A' <= Lit(c, i)[0] <= 'Z' && Cur(c, i + 1) == LBRACE
    ensures Cur(c, i + 2) == RBRACE ==> ReadsForm(c, i, ObjectLit(Lit(c, i), []), i + 2)
    ensures Cur(c, i + 2) != RBRACE && ObjectFields(c, i + 1) == R(Some(fs), j, []) ==>
              ReadsForm(c, i, ObjectLit(Lit(c, i), fs), j)
  {
    hide ObjectFields;
    assert ParsePrefix(c, i) == ParseIdentifier(c, i);
    hide ParsePrefix;
  }

  lemma ObjectFieldForms(c: Ctx, i: nat, e: Expr, j: nat, rest: seq<Arg>, k: nat)
    requires Cur(c, i + 1) == IDENT && Cur(c, i + 2) == COLON && Reads(c, i + 3, e, j)
    ensures Cur(c, j + 1) == RBRACE ==> ObjectFields(c, i) == R(Some([Arg(Lit(c, i + 1), e)]), j + 1, [])
    ensures Cur(c, j + 1) != RBRACE
            && ObjectFields(c, if Cur(c, j + 1) == COMMA then j + 1 else j) == R(Some(rest), k, [])
            ==> ObjectFields(c, i) == R(Some([Arg(Lit(c, i + 1), e)] + rest), k, [])
  {
    hide ParseExpression;
    assert Expect(c, i + 1, COLON) == R(true, i + 2, []);
  }

  /** `spawn e`, `...e` and `.name`. */
  lemma OtherForms(c: Ctx, i: nat, e: Expr, j: nat)
    ensures Cur(c, i) == SPAWN && Reads(c, i + 1, e, j) ==> ReadsForm(c, i, Spawn(e), j)
    ensures Cur(c, i) == SPREAD && ParseExpression(c, i + 1, PREFIX) == R(e, j, []) ==> ReadsForm(c, i, SpreadOp(e), j)
    ensures Cur(c, i) == DOT && Cur(c, i + 1) == IDENT && Cur(c, i + 2) != LPAREN ==>
              ReadsForm(c, i, LeadingDot(Lit(c, i + 1), []), i + 1)
  {
    hide ParseExpression;
    if Cur(c, i) == DOT && Cur(c, i + 1) == IDENT && Cur(c, i + 2) != LPAREN {
      assert ParseLeadingDot(c, i) == R(LeadingDot(Lit(c, i + 1), []), i + 1, []);
    }
  }

  // ---------- statements ----------

  /** Statements end at the closing token; else there is one more in front. */
  lemma StatementLists(c: Ctx, i: nat, end: TokenType, s: Stmt, j: nat, rest: seq<Stmt>, k: nat)
    ensures Cur(c, i) == end ==> Statements(c, i, end) == R([], i, [])
    ensures Cur(c, i) != end && Cur(c, i) != EOF && ParseStatement(c, i) == R(s, j, []) && s != NoStmt
            && Statements(c, j + 1, end) == R(rest, k, [])
            ==> Statements(c, i, end) == R([s] + rest, k, [])
  {
    hide ParseStatement;
  }

  function AfterSemicolon(c: Ctx, j: nat): nat {
    if Cur(c, j + 1) == SEMICOLON then j + 1 else j
  }

  /** `let x = e`, `mut x = e`, the same with a type, `return e`, `break`, `continue`;
      a semicolon may follow. */
  lemma StatementForms(c: Ctx, i: nat, e: Expr, j: nat)
    ensures Cur(c, i) == BREAK ==> ParseStatement(c, i) == R(Break, i, [])
    ensures Cur(c, i) == CONTINUE ==> ParseStatement(c, i) == R(Continue, i, [])
    ensures Cur(c, i) == RETURN && Reads(c, i + 1, e, j) ==>
              ParseStatement(c, i) == R(Return(e), AfterSemicolon(c, j), [])
    ensures Cur(c, i) in {LET, MUT} && Cur(c, i + 1) == IDENT && Cur(c, i + 2) == ASSIGN && Reads(c, i + 3, e, j) ==>
              ParseStatement(c, i)
              == R(if Cur(c, i) == LET then Let(Lit(c, i + 1), "", "", e) else Mut(Lit(c, i + 1), "", "", e),
                   AfterSemicolon(c, j), [])
  {
    hide ParseExpression;
    if Cur(c, i) in {LET, MUT} && Cur(c, i + 1) == IDENT && Cur(c, i + 2) == ASSIGN && Reads(c, i + 3, e, j) {
      assert TypeAnnotation(c, i + 1) == R(("", ""), i + 1, []);
      assert Binding(c, i) == R(Some((Lit(c, i + 1), "", "", e)), AfterSemicolon(c, j), []);
      hide Binding;
    }
  }

  lemma TypedBinding(c: Ctx, i: nat, ty: string, l: nat, e: Expr, j: nat)
    requires Cur(c, i) in {LET, MUT} && Cur(c, i + 1) == IDENT && Cur(c, i + 2) == COLON && !IsCapability(Cur(c, i + 3))
    requires ParseTypeExpr(c, i + 3) == R(ty, l, []) && Cur(c, l + 1) == ASSIGN && Reads(c, l + 2, e, j)
    ensures ParseStatement(c, i)
            == R(if Cur(c, i) == LET then Let(Lit(c, i + 1), "", ty, e) else Mut(Lit(c, i + 1), "", ty, e),
                 AfterSemicolon(c, j), [])
  {
    hide ParseExpression, ParseTypeExpr;
    assert TypeAnnotation(c, i + 1) == R(("", ty), l, []);
    hide TypeAnnotation;
    assert Binding(c, i) == R(Some((Lit(c, i + 1), "", ty, e)), AfterSemicolon(c, j), []);
  }

  /** Anything else that begins like an expression is one. */
  lemma ExpressionStatements(c: Ctx, i: nat, e: Expr, j: nat)
    requires HasPrefixFn(Cur(c, i)) && !(Cur(c, i) == FN && Cur(c, i + 1) == IDENT) && Reads(c, i, e, j)
    ensures ParseStatement(c, i) == R(ExprStmt(e), AfterSemicolon(c, j), [])
  {
    hide ParseExpression, ParseLet, ParseMut, ParseReturn, ParseFnDecl, ParseDecl;
    assert ParseExpressionStatement(c, i) == R(ExprStmt(e), AfterSemicolon(c, j), []);
    hide ParseExpressionStatement;
    assert ParseStatement(c, i) == ParseExpressionStatement(c, i);
  }

  /** `fn name(params) { ... }`, with a result type and declared effects or without. */
  lemma FunctionForm(c: Ctx, i: nat, ps: seq<Param>, j: nat, ty: string, k: nat, es: seq<string>, l: nat,
      body: seq<Stmt>, m: nat)
    requires Cur(c, i) == FN && Cur(c, i + 1) == IDENT && Cur(c, i + 2) == LPAREN && ReadsParams(c, i + 2, ps, j)
    requires if Cur(c, j + 1) == ARROW then ParseTypeExpr(c, j + 2) == R(ty, k, []) else ty == "" && k == j
    requires if Cur(c, k + 1) == EFFECT then Cur(c, k + 2) == LBRACKET && NamesUntil(c, k + 3, RBRACKET) == R(es, l, [])
             else es == [] && l == k
    requires Cur(c, l + 1) == LBRACE && ReadsBlock(c, l + 2, body, m)
    ensures ParseStatement(c, i) == R(FnDecl(Lit(c, i + 1), ps, ty, es, body), m, [])
  {
    hide ParseFnParams, ParseTypeExpr, NamesUntil, Statements;
    assert OptionalType(c, j, ARROW) == R(ty, k, []);
    assert OptionalEffects(c, k) == R(es, l, []);
    assert BlockBody(c, l + 1) == R(body, m, []);
    hide OptionalType, OptionalEffects, BlockBody;
    assert ParseFnDecl(c, i) == R(FnDecl(Lit(c, i + 1), ps, ty, es, body), m, []);
  }

  /** Names up to a closing token, with commas between them. */
  lemma NameLists(c: Ctx, i: nat, end: TokenType, rest: seq<string>, j: nat)
    ensures Cur(c, i) == end ==> NamesUntil(c, i, end) == R([], i, [])
    ensures Cur(c, i) != end && Cur(c, i) != EOF
            && NamesUntil(c, if Cur(c, i + 1) == COMMA then i + 2 else i + 1, end) == R(rest, j, [])
            ==> NamesUntil(c, i, end) == R([Lit(c, i)] + rest, j, [])
  {
  }
}
