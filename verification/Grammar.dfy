/** What each parse function computes: for a token sequence and the index of
    the current token, the tree, the index of the token the parser is left on
    (the last one consumed) and the errors recorded on the way.  Past the end
    every token is EOF.  That these mutually recursive definitions are accepted
    is the termination proof: the measure is the number of tokens left and then
    the rank of the function. */
module Grammar {
  import opened Options
  import opened Tokens
  import opened Ast

  /** The token sequence (newlines already dropped) together with what comes
      from code outside the model: whether the standard library accepts the
      text of a number or duration. */
  datatype Ctx = Ctx(toks: seq<Sym>, valid: Sym -> bool)

  datatype R<+T> = R(v: T, at: nat, errs: seq<Error>)

  /** What one turn of a declaration's loop comes to: go on with the parts
      read, end the declaration as it stands, or give it up. */
  datatype Turn = Go(parts: seq<Part>) | Cut | GiveUp

  function Left(c: Ctx, i: nat): nat {
    if i <= |c.toks| then |c.toks| - i else 0
  }

  function SymAt(c: Ctx, i: nat): Sym {
    if i < |c.toks| then c.toks[i] else Sym(EOF, "")
  }

  function Cur(c: Ctx, i: nat): TokenType {
    SymAt(c, i).typ
  }

  function Lit(c: Ctx, i: nat): string {
    SymAt(c, i).lit
  }

  /** `expectPeek`: step onto the next token if it has the wanted kind. */
  function Expect(c: Ctx, i: nat, t: TokenType): (r: R<bool>)
    ensures i <= r.at <= i + 1
    ensures r.v ==> r.at == i + 1 && r.errs == []
  {
    if Cur(c, i + 1) == t then R(true, i + 1, []) else R(false, i, [WrongPeek(t, Cur(c, i + 1))])
  }

  function SkipIf(c: Ctx, i: nat, t: TokenType): (j: nat)
    ensures i <= j <= i + 1
  {
    if Cur(c, i + 1) == t then i + 1 else i
  }

  predicate IsKeywordIdent(t: TokenType) {
    t == SEND || t == RECEIVE || t == EMIT || t == YIELD
  }

  predicate IsPlainAtom(t: TokenType) {
    t == STRING_LIT || t == TRUE || t == FALSE || t == NIL || t == SELF || t == SUPER || IsKeywordIdent(t)
  }

  predicate IsCheckedLiteral(t: TokenType) {
    t == INT_LIT || t == FLOAT_LIT || t == DURATION_LIT
  }

  /** The kinds with a registered prefix function. */
  predicate HasPrefixFn(t: TokenType) {
    t == IDENT || IsCheckedLiteral(t) || IsPlainAtom(t)
    || t == DOT || t == BANG || t == MINUS || t == LPAREN || t == LBRACKET || t == LBRACE
    || t == IF || t == MATCH || t == FN || t == SPAWN || t == HANDLE || t == FOR || t == SPREAD || t == WHILE
  }

  predicate IsBinary(t: TokenType) {
    t == PLUS || t == MINUS || t == STAR || t == SLASH || t == PERCENT
    || t == EQ || t == NEQ || t == LT || t == GT || t == LTE || t == GTE
    || t == AND || t == OR || t == SEND_OP || t == DOUBLE_QUESTION
  }

  predicate IsAssign(t: TokenType) {
    t == ASSIGN || t == PLUS_ASSIGN || t == MINUS_ASSIGN
  }

  /** The kinds with a registered infix function. */
  predicate HasInfixFn(t: TokenType) {
    IsBinary(t) || IsAssign(t) || t == DOT || t == LPAREN || t == LBRACKET || t == QUESTION
  }

  predicate IsUpper(s: string) {
    |s| > 0 && 'A' <= s[0] <= 'Z'
  }

  predicate IsCapability(t: TokenType) {
    t == ISO || t == TRN || t == REF || t == VAL || t == BOX || t == TAG
  }

  /** The kinds that begin a declaration whatever follows. */
  predicate IsDecl(t: TokenType) {
    t == OBJECT || t == ENUM || t == ACTOR || t == PIPELINE || t == TOOL || t == AGENT || t == MCP
    || t == SERVICE || t == PROTOCOL || t == IMPL || t == TYPE || t == IMPORT
  }

  predicate IsWordAt(c: Ctx, i: nat, word: string) {
    Cur(c, i) == IDENT && Lit(c, i) == word
  }

  predicate StopsLoop(t: TokenType, p: nat) {
    t == SEMICOLON || t == EOF || p >= Precedence(t)
  }

  // ---------- expressions ----------

  function ParseExpression(c: Ctx, i: nat, p: nat): (r: R<Expr>)
    ensures r.at >= i
    decreases Left(c, i), 3
  {
    if !HasPrefixFn(Cur(c, i)) then
      R(Missing, i, [NoPrefixFn(Cur(c, i))])
    else
      var a := ParsePrefix(c, i);
      var b := InfixLoop(c, a.at, p, a.v);
      R(b.v, b.at, a.errs + b.errs)
  }

  function InfixLoop(c: Ctx, i: nat, p: nat, left: Expr): (r: R<Expr>)
    ensures r.at >= i
    decreases Left(c, i), 1
  {
    if StopsLoop(Cur(c, i + 1), p) || !HasInfixFn(Cur(c, i + 1)) then
      R(left, i, [])
    else
      assert i + 1 < |c.toks|;
      var a := ParseInfix(c, i + 1, left);
      var b := InfixLoop(c, a.at, p, a.v);
      R(b.v, b.at, a.errs + b.errs)
  }

  /** Dispatch on the prefix function of the current token. */
  function ParsePrefix(c: Ctx, i: nat): (r: R<Expr>)
    requires HasPrefixFn(Cur(c, i))
    ensures r.at >= i
    decreases Left(c, i), 2
  {
    var t := Cur(c, i);
    if t == IDENT then ParseIdentifier(c, i)
    else if IsCheckedLiteral(t) then
      if c.valid(SymAt(c, i)) then R(Atom(SymAt(c, i)), i, []) else R(Missing, i, [BadLiteral(SymAt(c, i))])
    else if IsPlainAtom(t) then R(Atom(SymAt(c, i)), i, [])
    else if t == DOT then ParseLeadingDot(c, i)
    else if t == BANG || t == MINUS then ParsePrefixExpression(c, i)
    else if t == LPAREN then ParseGrouped(c, i)
    else if t == LBRACKET then
      var a := ParseExpressionList(c, i, RBRACKET);
      R(ListLit(a.v), a.at, a.errs)
    else if t == LBRACE then ParseBlockExpression(c, i)
    else if t == IF then ParseIf(c, i)
    else if t == MATCH then ParseMatch(c, i)
    else if t == FN then ParseLambda(c, i)
    else if t == SPAWN then
      var a := ParseExpression(c, i + 1, LOWEST);
      R(Spawn(a.v), a.at, a.errs)
    else if t == HANDLE then ParseHandle(c, i)
    else if t == FOR then ParseForIn(c, i)
    else if t == SPREAD then
      var a := ParseExpression(c, i + 1, PREFIX);
      R(SpreadOp(a.v), a.at, a.errs)
    else ParseWhile(c, i)
  }

  /** Dispatch on the infix function of the operator at `i`. */
  function ParseInfix(c: Ctx, i: nat, left: Expr): (r: R<Expr>)
    requires HasInfixFn(Cur(c, i))
    ensures r.at >= i
    decreases Left(c, i), 2
  {
    var t := Cur(c, i);
    if IsBinary(t) then
      var a := ParseExpression(c, i + 1, Precedence(t));
      R(InfixOp(left, SymAt(c, i), a.v), a.at, a.errs)
    else if IsAssign(t) then
      var a := ParseExpression(c, i + 1, LOWEST);
      R(Assignment(left, SymAt(c, i), a.v), a.at, a.errs)
    else if t == DOT then
      R(FieldAccess(left, Lit(c, i + 1)), i + 1, [])
    else if t == LPAREN then
      var a := ParseCallArgs(c, i);
      R(Call(left, a.v), a.at, a.errs)
    else if t == LBRACKET then
      var a := ParseExpression(c, i + 1, LOWEST);
      var x := Expect(c, a.at, RBRACKET);
      R(if x.v then Index(left, a.v) else Missing, x.at, a.errs + x.errs)
    else
      R(Try(left), i, [])
  }

  function ParseIdentifier(c: Ctx, i: nat): (r: R<Expr>)
    requires i < |c.toks|
    ensures r.at >= i
    decreases Left(c, i), 1
  {
    if IsUpper(Lit(c, i)) && Cur(c, i + 1) == LBRACE then
      if Cur(c, i + 2) == RBRACE then R(ObjectLit(Lit(c, i), []), i + 2, [])
      else
        var a := ObjectFields(c, i + 1);
        R(if a.v.Some? then ObjectLit(Lit(c, i), a.v.value) else Missing, a.at, a.errs)
    else R(Atom(SymAt(c, i)), i, [])
  }

  /** The field loop of a named object literal, entered on `{` or `,`. */
  function ObjectFields(c: Ctx, i: nat): (r: R<Option<seq<Arg>>>)
    ensures r.at >= i
    decreases Left(c, i), 0
  {
    if Cur(c, i + 1) == RBRACE || Cur(c, i + 1) == EOF then R(Some([]), i + 1, [])
    else
      var x := Expect(c, i + 1, COLON);
      if !x.v then R(None, x.at, x.errs)
      else
        var v := ParseExpression(c, x.at + 1, LOWEST);
        var f := Arg(Lit(c, i + 1), v.v);
        if Cur(c, v.at + 1) == RBRACE then R(Some([f]), v.at + 1, v.errs)
        else
          var rest := ObjectFields(c, SkipIf(c, v.at, COMMA));
          R(if rest.v.Some? then Some([f] + rest.v.value) else None, rest.at, v.errs + rest.errs)
  }

  function ParseLeadingDot(c: Ctx, i: nat): (r: R<Expr>)
    requires i < |c.toks|
    ensures r.at >= i
    decreases Left(c, i), 1
  {
    var x := Expect(c, i, IDENT);
    if !x.v then R(Missing, x.at, x.errs)
    else if Cur(c, i + 2) != LPAREN then R(LeadingDot(Lit(c, i + 1), []), i + 1, [])
    else if Cur(c, i + 3) == RPAREN then R(LeadingDot(Lit(c, i + 1), []), i + 3, [])
    else
      var a := Args(c, i + 3);
      var y := Expect(c, a.at, RPAREN);
      R(if y.v then LeadingDot(Lit(c, i + 1), a.v) else Missing, y.at, a.errs + y.errs)
  }

  function ParsePrefixExpression(c: Ctx, i: nat): (r: R<Expr>)
    requires i < |c.toks|
    ensures r.at >= i
    decreases Left(c, i), 1
  {
    var a := ParseExpression(c, i + 1, PREFIX);
    R(PrefixOp(SymAt(c, i), a.v), a.at, a.errs)
  }

  function ParseGrouped(c: Ctx, i: nat): (r: R<Expr>)
    requires i < |c.toks|
    ensures r.at >= i
    decreases Left(c, i), 1
  {
    var a := ParseExpression(c, i + 1, LOWEST);
    var x := Expect(c, a.at, RPAREN);
    R(if x.v then a.v else Missing, x.at, a.errs + x.errs)
  }

  function ParseExpressionList(c: Ctx, i: nat, end: TokenType): (r: R<seq<Expr>>)
    requires i < |c.toks|
    ensures r.at >= i
    decreases Left(c, i), 1
  {
    if Cur(c, i + 1) == end then R([], i + 1, [])
    else
      var a := ParseExpression(c, i + 1, LOWEST);
      var rest := MoreExpressions(c, a.at, end);
      var x := Expect(c, rest.at, end);
      R(if x.v then [a.v] + rest.v else [], x.at, a.errs + rest.errs + x.errs)
  }

  /** The comma loop of `parseExpressionList`; a trailing comma is allowed. */
  function MoreExpressions(c: Ctx, i: nat, end: TokenType): (r: R<seq<Expr>>)
    ensures r.at >= i
    decreases Left(c, i), 0
  {
    if Cur(c, i + 1) != COMMA then R([], i, [])
    else if Cur(c, i + 2) == end then R([], i + 1, [])
    else
      var a := ParseExpression(c, i + 2, LOWEST);
      var rest := MoreExpressions(c, a.at, end);
      R([a.v] + rest.v, rest.at, a.errs + rest.errs)
  }

  function ParseCallArgs(c: Ctx, i: nat): (r: R<seq<Arg>>)
    requires i < |c.toks|
    ensures r.at >= i
    decreases Left(c, i), 1
  {
    if Cur(c, i + 1) == RPAREN then R([], i + 1, [])
    else
      var a := Args(c, i + 1);
      var x := Expect(c, a.at, RPAREN);
      R(if x.v then a.v else [], x.at, a.errs + x.errs)
  }

  /** One or more comma-separated arguments, the first token of the first
      already current. */
  function Args(c: Ctx, i: nat): (r: R<seq<Arg>>)
    ensures r.at >= i
    decreases Left(c, i), 4
  {
    var named := Cur(c, i) == IDENT && Cur(c, i + 1) == COLON;
    var a := ParseExpression(c, if named then i + 2 else i, LOWEST);
    var arg := Arg(if named then Lit(c, i) else "", a.v);
    if Cur(c, a.at + 1) != COMMA then R([arg], a.at, a.errs)
    else
      var rest := Args(c, a.at + 2);
      R([arg] + rest.v, rest.at, a.errs + rest.errs)
  }

  // ---------- blocks and control flow ----------

  function ParseBlockExpression(c: Ctx, i: nat): (r: R<Expr>)
    requires i < |c.toks|
    ensures r.at >= i
    decreases Left(c, i), 1
  {
    if Cur(c, i + 1) == IDENT && Cur(c, i + 2) == COLON then
      var a := BareObjectBody(c, i + 1);
      R(if a.v.Some? then ObjectLit("", a.v.value) else Missing, a.at, a.errs)
    else
      var a := Statements(c, i + 1, RBRACE);
      R(Block(a.v), a.at, a.errs)
  }

  function BareObjectBody(c: Ctx, i: nat): (r: R<Option<seq<Arg>>>)
    ensures r.at >= i
    decreases Left(c, i), 0
  {
    if Cur(c, i) != IDENT then R(None, i, [NoFieldName(Cur(c, i))])
    else
      var x := Expect(c, i, COLON);
      if !x.v then R(None, x.at, x.errs)
      else
        var v := ParseExpression(c, i + 2, LOWEST);
        var f := Arg(Lit(c, i), v.v);
        if Cur(c, v.at + 1) == COMMA then
          var rest := BareObjectBody(c, v.at + 2);
          R(if rest.v.Some? then Some([f] + rest.v.value) else None, rest.at, v.errs + rest.errs)
        else if Cur(c, v.at + 1) == RBRACE then R(Some([f]), v.at + 1, v.errs)
        else if Cur(c, v.at) == RBRACE then R(Some([f]), v.at, v.errs)
        else R(None, v.at, v.errs + [BadObjectLiteral(Cur(c, v.at + 1))])
  }

  /** The statement loop shared by blocks and whole programs: it runs until
      the current token is `end` or EOF. */
  function Statements(c: Ctx, i: nat, end: TokenType): (r: R<seq<Stmt>>)
    ensures r.at >= i
    ensures Cur(c, r.at) == end || Cur(c, r.at) == EOF
    decreases Left(c, i), 6
  {
    if Cur(c, i) == end || Cur(c, i) == EOF then R([], i, [])
    else
      var s := ParseStatement(c, i);
      var rest := Statements(c, s.at + 1, end);
      R((if s.v == NoStmt then [] else [s.v]) + rest.v, rest.at, s.errs + rest.errs)
  }

  function BlockBody(c: Ctx, i: nat): (r: R<seq<Stmt>>)
    requires i < |c.toks|
    ensures r.at >= i
    decreases Left(c, i), 0
  {
    Statements(c, i + 1, RBRACE)
  }

  function ParseIf(c: Ctx, i: nat): (r: R<Expr>)
    requires i < |c.toks|
    ensures r.at >= i
    decreases Left(c, i), 1
  {
    var cond := ParseExpression(c, i + 1, LOWEST);
    var x := Expect(c, cond.at, LBRACE);
    if !x.v then R(Missing, x.at, cond.errs + x.errs)
    else
      var body := BlockBody(c, x.at);
      var rest := Else(c, body.at, cond.v, body.v);
      R(rest.v, rest.at, cond.errs + body.errs + rest.errs)
  }

  /** The optional `else`; a chained `if` becomes a block of one statement. */
  function Else(c: Ctx, i: nat, cond: Expr, consequence: seq<Stmt>): (r: R<Expr>)
    ensures r.at >= i
    decreases Left(c, i), 1
  {
    if Cur(c, i + 1) != ELSE then R(If(cond, consequence, None), i, [])
    else if Cur(c, i + 2) == IF then
      var chained := ParseIf(c, i + 2);
      R(if chained.v == Missing then Missing else If(cond, consequence, Some([ExprStmt(chained.v)])),
        chained.at, chained.errs)
    else
      var y := Expect(c, i + 1, LBRACE);
      if !y.v then R(Missing, y.at, y.errs)
      else
        var alt := BlockBody(c, y.at);
        R(If(cond, consequence, Some(alt.v)), alt.at, alt.errs)
  }

  function ParseMatch(c: Ctx, i: nat): (r: R<Expr>)
    requires i < |c.toks|
    ensures r.at >= i
    decreases Left(c, i), 1
  {
    var s := ParseExpression(c, i + 1, LOWEST);
    var x := Expect(c, s.at, LBRACE);
    if !x.v then R(Missing, x.at, s.errs + x.errs)
    else
      var arms := Arms(c, x.at + 1);
      R(Match(s.v, arms.v), arms.at, s.errs + arms.errs)
  }

  function Arms(c: Ctx, i: nat): (r: R<seq<Arm>>)
    ensures r.at >= i
    decreases Left(c, i), 6
  {
    if Cur(c, i) == RBRACE || Cur(c, i) == EOF then R([], i, [])
    else
      var a := ParseMatchArm(c, i);
      var rest := Arms(c, SkipIf(c, a.at, COMMA) + 1);
      R([a.v] + rest.v, rest.at, a.errs + rest.errs)
  }

  function ParseMatchArm(c: Ctx, i: nat): (r: R<Arm>)
    requires i < |c.toks|
    ensures r.at >= i
    decreases Left(c, i), 5
  {
    var pat := ParsePattern(c, i);
    var g := Guard(c, pat.at);
    var b := ArmBody(c, g.at);
    R(Arm(pat.v, g.v, b.v), b.at, pat.errs + g.errs + b.errs)
  }

  /** An optional `if condition`. */
  function Guard(c: Ctx, i: nat): (r: R<Option<Expr>>)
    ensures r.at >= i
    decreases Left(c, i), 4
  {
    if Cur(c, i + 1) != IF then R(None, i, [])
    else
      var g := ParseExpression(c, i + 2, LOWEST);
      R(Some(g.v), g.at, g.errs)
  }

  /** `=> body`, nothing without the arrow. */
  function ArmBody(c: Ctx, i: nat): (r: R<Expr>)
    ensures r.at >= i
    decreases Left(c, i), 4
  {
    var x := Expect(c, i, FAT_ARROW);
    if !x.v then R(Missing, x.at, x.errs) else ParseExpression(c, i + 2, LOWEST)
  }

  function ParsePattern(c: Ctx, i: nat): (r: R<Pattern>)
    ensures r.at >= i
    decreases Left(c, i), 4
  {
    var t := Cur(c, i);
    if t == IDENT && Lit(c, i) == "_" then R(Pattern(Wildcard, "_", [], []), i, [])
    else if t == INT_LIT || t == FLOAT_LIT || t == STRING_LIT then R(Pattern(Literal, Lit(c, i), [], []), i, [])
    else if t == IDENT then
      var name := DottedName(c, i, Lit(c, i));
      if Cur(c, name.at + 1) == LPAREN then
        var bs := Bindings(c, name.at + 1);
        R(Pattern(Destructure, name.v, bs.v, []), bs.at + 1, [])
      else if Cur(c, name.at + 1) == LBRACE then
        var fs := FieldPatterns(c, name.at + 1);
        R(Pattern(ObjectDestructure, name.v, [], fs.v.0), if fs.v.1 then fs.at + 1 else fs.at, fs.errs)
      else R(Pattern(Identifier, name.v, [], []), name.at, [])
    else R(Pattern(Identifier, Lit(c, i), [], []), i, [])
  }

  /** `name.name. ...` from the token after the first name. */
  function DottedName(c: Ctx, i: nat, acc: string): (r: R<string>)
    ensures r.at >= i
    ensures r.errs == []
    decreases Left(c, i), 0
  {
    if Cur(c, i + 1) != DOT then R(acc, i, []) else DottedName(c, i + 2, acc + "." + Lit(c, i + 2))
  }

  function Bindings(c: Ctx, i: nat): (r: R<seq<string>>)
    ensures r.at >= i
    ensures r.errs == []
    decreases Left(c, i), 0
  {
    if Cur(c, i + 1) == RPAREN || Cur(c, i + 1) == EOF then R([], i, [])
    else
      var rest := Bindings(c, SkipIf(c, i + 1, COMMA));
      R([Lit(c, i + 1)] + rest.v, rest.at, [])
  }

  /** The field loop of an object pattern; the flag is false when it gave up. */
  function FieldPatterns(c: Ctx, i: nat): (r: R<(seq<FieldPattern>, bool)>)
    ensures r.at >= i
    decreases Left(c, i), 0
  {
    if Cur(c, i + 1) == RBRACE || Cur(c, i + 1) == EOF then R(([], true), i, [])
    else if Cur(c, i + 1) != IDENT then R(([], false), i + 1, [NoPatternField(Cur(c, i + 1))])
    else
      var hasSub := Cur(c, i + 2) == COLON;
      var sub := if hasSub then ParsePattern(c, i + 3) else R(Pattern(Wildcard, "", [], []), i + 1, []);
      var f := FieldPattern(Lit(c, i + 1), if hasSub then Some(sub.v) else None);
      var rest := FieldPatterns(c, SkipIf(c, sub.at, COMMA));
      R(([f] + rest.v.0, rest.v.1), rest.at, sub.errs + rest.errs)
  }

  function ParseLambda(c: Ctx, i: nat): (r: R<Expr>)
    requires i < |c.toks|
    ensures r.at >= i
    decreases Left(c, i), 1
  {
    var x := Expect(c, i, LPAREN);
    if !x.v then R(Missing, x.at, x.errs)
    else
      var ps := ParseFnParams(c, i + 1);
      var ty := OptionalType(c, ps.at, ARROW);
      var b := LambdaBody(c, ty.at);
      R(if b.v.Some? then Lambda(ps.v, ty.v, b.v.value) else Missing, b.at, ps.errs + b.errs)
  }

  /** `=> expression` or a block. */
  function LambdaBody(c: Ctx, i: nat): (r: R<Option<seq<Stmt>>>)
    ensures r.at >= i
    decreases Left(c, i), 1
  {
    if Cur(c, i + 1) == FAT_ARROW then
      var b := ParseExpression(c, i + 2, LOWEST);
      R(Some([ExprStmt(b.v)]), b.at, b.errs)
    else
      var y := Expect(c, i, LBRACE);
      if !y.v then R(None, y.at, y.errs)
      else
        var b := BlockBody(c, i + 1);
        R(Some(b.v), b.at, b.errs)
  }

  /** An optional type after `mark`, `->` or `:`. */
  function OptionalType(c: Ctx, i: nat, mark: TokenType): (r: R<string>)
    ensures r.at >= i
    ensures r.errs == []
  {
    if Cur(c, i + 1) == mark then ParseTypeExpr(c, i + 2) else R("", i, [])
  }

  /** An optional `= expression`. */
  function DefaultValue(c: Ctx, i: nat): (r: R<Option<Expr>>)
    ensures r.at >= i
    decreases Left(c, i), 0
  {
    if Cur(c, i + 1) == ASSIGN then
      var e := ParseExpression(c, i + 2, LOWEST);
      R(Some(e.v), e.at, e.errs)
    else R(None, i, [])
  }

  function ParseFnParams(c: Ctx, i: nat): (r: R<seq<Param>>)
    requires i < |c.toks|
    ensures r.at >= i
    decreases Left(c, i), 1
  {
    if Cur(c, i + 1) == RPAREN then R([], i + 1, [])
    else
      var ps := Params(c, i + 1);
      var x := Expect(c, ps.at, RPAREN);
      R(if x.v then ps.v else [], x.at, ps.errs + x.errs)
  }

  function Params(c: Ctx, i: nat): (r: R<seq<Param>>)
    ensures r.at >= i
    decreases Left(c, i), 4
  {
    var p := ParseParam(c, i);
    if Cur(c, p.at + 1) != COMMA then R([p.v], p.at, p.errs)
    else
      var rest := Params(c, p.at + 2);
      R([p.v] + rest.v, rest.at, p.errs + rest.errs)
  }

  function ParseParam(c: Ctx, i: nat): (r: R<Param>)
    ensures r.at >= i
    decreases Left(c, i), 3
  {
    if Cur(c, i) == SELF then R(Param("self", "", "", None), i, [])
    else
      var ty := TypeAnnotation(c, i);
      var d := DefaultValue(c, ty.at);
      R(Param(Lit(c, i), ty.v.0, ty.v.1, d.v), d.at, d.errs)
  }

  /** An optional `: [cap] type`: the capability and the type. */
  function TypeAnnotation(c: Ctx, i: nat): (r: R<(string, string)>)
    ensures r.at >= i
    ensures r.errs == []
  {
    if Cur(c, i + 1) != COLON then R(("", ""), i, [])
    else if IsCapability(Cur(c, i + 2)) then
      var ty := ParseTypeExpr(c, i + 3);
      R((Lit(c, i + 2), ty.v), ty.at, [])
    else
      var ty := ParseTypeExpr(c, i + 2);
      R(("", ty.v), ty.at, [])
  }

  function ParseTypeExpr(c: Ctx, i: nat): (r: R<string>)
    ensures r.at >= i
    ensures r.errs == []
    decreases Left(c, i), 1
  {
    if Cur(c, i) == LBRACKET then
      var a := ParseTypeExpr(c, i + 1);
      R("[" + a.v + "]", SkipIf(c, a.at, RBRACKET), [])
    else
      var name := DottedName(c, i, Lit(c, i));
      if Cur(c, name.at + 1) != LBRACKET then name
      else
        var a := ParseTypeExpr(c, name.at + 2);
        var rest := TypeArgs(c, a.at, a.v);
        R(name.v + "[" + rest.v + "]", SkipIf(c, rest.at, RBRACKET), [])
  }

  function TypeArgs(c: Ctx, i: nat, acc: string): (r: R<string>)
    ensures r.at >= i
    ensures r.errs == []
    decreases Left(c, i), 0
  {
    if Cur(c, i + 1) != COMMA then R(acc, i, [])
    else
      var a := ParseTypeExpr(c, i + 2);
      TypeArgs(c, a.at, acc + ", " + a.v)
  }

  function ParseHandle(c: Ctx, i: nat): (r: R<Expr>)
    requires i < |c.toks|
    ensures r.at >= i
    decreases Left(c, i), 1
  {
    var x := Expect(c, i, LPAREN);
    if !x.v then R(Missing, x.at, x.errs)
    else
      var effect := Lit(c, i + 2);
      var y := Expect(c, i + 2, RPAREN);
      if !y.v then R(Missing, y.at, y.errs)
      else
        HandleUsing(c, i + 3, effect)
  }

  /** `{ using: handler` */
  function HandleUsing(c: Ctx, i: nat, effect: string): (r: R<Expr>)
    ensures r.at >= i
    decreases Left(c, i), 1
  {
    var z := Expect(c, i, LBRACE);
    if !z.v then R(Missing, z.at, z.errs)
    else if Lit(c, i + 2) != "using" then R(Missing, i + 2, [NoUsing(Lit(c, i + 2))])
    else
      var w := Expect(c, i + 2, COLON);
      if !w.v then R(Missing, w.at, w.errs)
      else
        var h := ParseExpression(c, i + 4, LOWEST);
        var rest := HandleTail(c, h.at, effect, h.v);
        R(rest.v, rest.at, h.errs + rest.errs)
  }

  /** `} in { body }` after the handler of a `handle` expression. */
  function HandleTail(c: Ctx, i: nat, effect: string, handler: Expr): (r: R<Expr>)
    ensures r.at >= i
    decreases Left(c, i), 0
  {
    var x := Expect(c, i, RBRACE);
    if !x.v then R(Missing, x.at, x.errs)
    else
      var y := Expect(c, i + 1, IN);
      if !y.v then R(Missing, y.at, y.errs)
      else
        var z := Expect(c, i + 2, LBRACE);
        if !z.v then R(Missing, z.at, z.errs)
        else
          var b := BlockBody(c, i + 3);
          R(Handle(effect, handler, b.v), b.at, b.errs)
  }

  function ParseForIn(c: Ctx, i: nat): (r: R<Expr>)
    requires i < |c.toks|
    ensures r.at >= i
    decreases Left(c, i), 1
  {
    var x := Expect(c, i, IDENT);
    if !x.v then R(Missing, x.at, x.errs)
    else
      var y := Expect(c, i + 1, IN);
      if !y.v then R(Missing, y.at, y.errs)
      else
        var e := ParseExpression(c, i + 3, LOWEST);
        var z := Expect(c, e.at, LBRACE);
        if !z.v then R(Missing, z.at, e.errs + z.errs)
        else
          var b := BlockBody(c, z.at);
          R(ForIn(Lit(c, i + 1), e.v, b.v), b.at, e.errs + b.errs)
  }

  function ParseWhile(c: Ctx, i: nat): (r: R<Expr>)
    requires i < |c.toks|
    ensures r.at >= i
    decreases Left(c, i), 1
  {
    var e := ParseExpression(c, i + 1, LOWEST);
    var x := Expect(c, e.at, LBRACE);
    if !x.v then R(Missing, x.at, e.errs + x.errs)
    else
      var b := BlockBody(c, x.at);
      R(While(e.v, b.v), b.at, e.errs + b.errs)
  }

  // ---------- statements ----------

  function ParseStatement(c: Ctx, i: nat): (r: R<Stmt>)
    ensures r.at >= i
    decreases Left(c, i), 5
  {
    var t := Cur(c, i);
    if t == LET then ParseLet(c, i)
    else if t == MUT then ParseMut(c, i)
    else if t == RETURN then ParseReturn(c, i)
    else if t == BREAK then R(Break, i, [])
    else if t == CONTINUE then R(Continue, i, [])
    else if t == FN && Cur(c, i + 1) == IDENT then ParseFnDecl(c, i)
    else if IsDecl(t) || (t == EFFECT && Cur(c, i + 1) == IDENT) then ParseDecl(c, i)
    else if t == EXPORT then
      var a := ParseStatement(c, i + 1);
      R(Export(a.v), a.at, a.errs)
    else ParseExpressionStatement(c, i)
  }

  function ParseExpressionStatement(c: Ctx, i: nat): (r: R<Stmt>)
    ensures r.at >= i
    decreases Left(c, i), 4
  {
    var a := ParseExpression(c, i, LOWEST);
    R(ExprStmt(a.v), SkipIf(c, a.at, SEMICOLON), a.errs)
  }

  function ParseReturn(c: Ctx, i: nat): (r: R<Stmt>)
    requires i < |c.toks|
    ensures r.at >= i
    decreases Left(c, i), 1
  {
    var a := ParseExpression(c, i + 1, LOWEST);
    R(Return(a.v), SkipIf(c, a.at, SEMICOLON), a.errs)
  }

  function ParseMut(c: Ctx, i: nat): (r: R<Stmt>)
    requires i < |c.toks|
    ensures r.at >= i
    decreases Left(c, i), 1
  {
    var a := Binding(c, i);
    R(if a.v.Some? then Mut(a.v.value.0, a.v.value.1, a.v.value.2, a.v.value.3) else NilStmt, a.at, a.errs)
  }

  function ParseLet(c: Ctx, i: nat): (r: R<Stmt>)
    requires i < |c.toks|
    ensures r.at >= i
    decreases Left(c, i), 1
  {
    if Cur(c, i + 1) == LBRACKET then
      var ns := DestructureNames(c, i + 2, 0);
      var x := Expect(c, ns.at, ASSIGN);
      if !x.v then R(NilStmt, x.at, x.errs)
      else
        var a := ParseExpression(c, x.at + 1, LOWEST);
        R(LetDestructure(ns.v.0, ns.v.1, a.v), SkipIf(c, a.at, SEMICOLON), a.errs)
    else
      var a := Binding(c, i);
      R(if a.v.Some? then Let(a.v.value.0, a.v.value.1, a.v.value.2, a.v.value.3) else NoStmt, a.at, a.errs)
  }

  /** `name [: [cap] type] = value [;]`, common to `let` and `mut`. */
  function Binding(c: Ctx, i: nat): (r: R<Option<(string, string, string, Expr)>>)
    requires i < |c.toks|
    ensures r.at >= i
    decreases Left(c, i), 0
  {
    var x := Expect(c, i, IDENT);
    if !x.v then R(None, x.at, x.errs)
    else
      var ty := TypeAnnotation(c, i + 1);
      var y := Expect(c, ty.at, ASSIGN);
      if !y.v then R(None, y.at, y.errs)
      else
        var a := ParseExpression(c, y.at + 1, LOWEST);
        R(Some((Lit(c, i + 1), ty.v.0, ty.v.1, a.v)), SkipIf(c, a.at, SEMICOLON), a.errs)
  }

  /** The names of a list destructuring; `idx` counts the names so far.  A
      later `...rest` replaces an earlier one. */
  function DestructureNames(c: Ctx, i: nat, idx: nat): (r: R<(seq<string>, Option<(string, nat)>)>)
    ensures r.at >= i
    ensures r.errs == []
    decreases Left(c, i), 0
  {
    if Cur(c, i) == RBRACKET || Cur(c, i) == EOF then R(([], None), i, [])
    else if Cur(c, i) == SPREAD then
      var more := DestructureNames(c, SkipIf(c, i + 1, COMMA) + 1, idx);
      R((more.v.0, if more.v.1.Some? then more.v.1 else Some((Lit(c, i + 1), idx))), more.at, [])
    else
      var more := DestructureNames(c, SkipIf(c, i, COMMA) + 1, idx + 1);
      R(([Lit(c, i)] + more.v.0, more.v.1), more.at, [])
  }

  function ParseFnDecl(c: Ctx, i: nat): (r: R<Stmt>)
    requires i < |c.toks|
    ensures r.at >= i
    decreases Left(c, i), 0
  {
    var x := Expect(c, i + 1, LPAREN);
    if !x.v then R(NilStmt, x.at, x.errs)
    else
      var ps := ParseFnParams(c, i + 2);
      var ty := OptionalType(c, ps.at, ARROW);
      var es := OptionalEffects(c, ty.at);
      var y := Expect(c, es.at, LBRACE);
      if !y.v then R(NilStmt, y.at, ps.errs + es.errs + y.errs)
      else
        var b := BlockBody(c, y.at);
        R(FnDecl(Lit(c, i + 1), ps.v, ty.v, es.v, b.v), b.at, ps.errs + es.errs + b.errs)
  }

  /** An optional `effect [names]`. */
  function OptionalEffects(c: Ctx, i: nat): (r: R<seq<string>>)
    ensures r.at >= i
  {
    if Cur(c, i + 1) == EFFECT then ParseEffectList(c, i + 1) else R([], i, [])
  }

  function ParseEffectList(c: Ctx, i: nat): (r: R<seq<string>>)
    ensures r.at >= i
  {
    var x := Expect(c, i, LBRACKET);
    if !x.v then R([], x.at, x.errs) else NamesUntil(c, i + 2, RBRACKET)
  }

  /** Names up to the closing token, commas between them skipped. */
  function NamesUntil(c: Ctx, i: nat, end: TokenType): (r: R<seq<string>>)
    ensures r.at >= i
    ensures r.errs == []
    decreases Left(c, i)
  {
    if Cur(c, i) == end || Cur(c, i) == EOF then R([], i, [])
    else
      var rest := NamesUntil(c, SkipIf(c, i, COMMA) + 1, end);
      R([Lit(c, i)] + rest.v, rest.at, [])
  }

  // ---------- declarations ----------

  function ParseDecl(c: Ctx, i: nat): (r: R<Stmt>)
    requires i < |c.toks|
    ensures r.at >= i
    decreases Left(c, i), 2
  {
    var t := Cur(c, i);
    if t == TYPE then ParseTypeAlias(c, i)
    else if t == IMPORT then ParseImport(c, i)
    else
      var x := Expect(c, i, IDENT);
      if !x.v then R(NilStmt, x.at, x.errs)
      else if t == IMPL && Cur(c, i + 2) == FOR then
        var y := Expect(c, i + 2, IDENT);
        if !y.v then R(NilStmt, y.at, y.errs)
        else DeclBody(c, i + 3, t, Lit(c, i + 3), [Text("protocol", Lit(c, i + 1))])
      else DeclBody(c, i + 1, t, Lit(c, i + 1), [])
  }

  /** `{ member ... }` */
  function DeclBody(c: Ctx, i: nat, t: TokenType, name: string, parts: seq<Part>): (r: R<Stmt>)
    ensures r.at >= i
    decreases Left(c, i), 1
  {
    var x := Expect(c, i, LBRACE);
    if !x.v then R(NilStmt, x.at, x.errs)
    else
      var ms := Members(c, i + 2, t);
      R(if ms.v.Some? then Decl(t, name, parts + ms.v.value) else NilStmt, ms.at, ms.errs)
  }

  /** The loop every declaration runs until `}` or EOF: a member that gives up
      takes the declaration with it, one that cuts it short ends it there. */
  function Members(c: Ctx, i: nat, t: TokenType): (r: R<Option<seq<Part>>>)
    ensures r.at >= i
    decreases Left(c, i), 4
  {
    if Cur(c, i) == RBRACE || Cur(c, i) == EOF then R(Some([]), i, [])
    else
      var m := Member(c, i, t);
      if m.v == GiveUp then R(None, m.at, m.errs)
      else if m.v == Cut then R(Some([]), m.at, m.errs)
      else
        var rest := Members(c, m.at + 1, t);
        R(if rest.v.Some? then Some(m.v.parts + rest.v.value) else None, rest.at, m.errs + rest.errs)
  }

  function Member(c: Ctx, i: nat, t: TokenType): (r: R<Turn>)
    requires i < |c.toks|
    ensures r.at >= i
    decreases Left(c, i), 3
  {
    if t == OBJECT then ObjectMember(c, i)
    else if t == ENUM then VariantMember(c, i)
    else if t == ACTOR then ActorMember(c, i)
    else if t == PIPELINE then StageMember(c, i)
    else if t == TOOL then ToolMember(c, i)
    else if t == AGENT then AgentMember(c, i)
    else if t == MCP then McpMember(c, i)
    else if t == SERVICE then ServiceMember(c, i)
    else if t == PROTOCOL then ProtocolMember(c, i)
    else if t == IMPL then ImplMember(c, i)
    else OperationMember(c, i)
  }

  function ObjectMember(c: Ctx, i: nat): (r: R<Turn>)
    requires i < |c.toks|
    ensures r.at >= i
    decreases Left(c, i), 2
  {
    if Cur(c, i) != DELEGATE then
      var f := FieldMember(c, i);
      R(if f.v.Some? then Go([f.v.value]) else Cut, f.at, f.errs)
    else
      var x := Expect(c, i, IDENT);
      if !x.v then R(GiveUp, x.at, x.errs)
      else
        var y := Expect(c, i + 1, COLON);
        if !y.v then R(GiveUp, y.at, y.errs)
        else
          var ty := ParseTypeExpr(c, i + 3);
          R(Go([Delegate(Lit(c, i + 1), ty.v)]), SkipIf(c, ty.at, COMMA), [])
  }

  /** `name: type [= default] [@annotation] [,]`, nothing without the colon. */
  function FieldMember(c: Ctx, i: nat): (r: R<Option<Part>>)
    requires i < |c.toks|
    ensures r.at >= i
    decreases Left(c, i), 1
  {
    var x := Expect(c, i, COLON);
    if !x.v then R(None, x.at, x.errs)
    else
      var ty := ParseTypeExpr(c, i + 2);
      var d := DefaultValue(c, ty.at);
      var a := ParseAnnotation(c, d.at);
      R(Some(Field(Lit(c, i), ty.v, d.v, a.v)), SkipIf(c, a.at, COMMA), d.errs + a.errs)
  }

  /** An optional `@name[(arguments)]`. */
  function ParseAnnotation(c: Ctx, i: nat): (r: R<Option<Annotation>>)
    ensures r.at >= i
    decreases Left(c, i), 0
  {
    if Cur(c, i + 1) != AT then R(None, i, [])
    else if Cur(c, i + 3) != LPAREN then R(Some(Annotation(Lit(c, i + 2), [])), i + 2, [])
    else
      var es := ParseExpressionList(c, i + 3, RPAREN);
      R(Some(Annotation(Lit(c, i + 2), es.v)), es.at, es.errs)
  }

  /** The fields of an `input` or `output` block, up to the first without a colon. */
  function FieldList(c: Ctx, i: nat): (r: R<seq<Part>>)
    ensures r.at >= i
    decreases Left(c, i), 2
  {
    if Cur(c, i) == RBRACE || Cur(c, i) == EOF then R([], i, [])
    else
      var f := FieldMember(c, i);
      if f.v.None? then R([], f.at, f.errs)
      else
        var rest := FieldList(c, f.at + 1);
        R([f.v.value] + rest.v, rest.at, f.errs + rest.errs)
  }

  /** `{ fields }` under a key. */
  function FieldBlock(c: Ctx, i: nat, key: string): (r: R<Turn>)
    ensures r.at >= i
    decreases Left(c, i), 1
  {
    var x := Expect(c, i, LBRACE);
    if !x.v then R(GiveUp, x.at, x.errs)
    else
      var fs := FieldList(c, i + 2);
      R(Go([Fields(key, fs.v)]), fs.at, fs.errs)
  }

  function VariantMember(c: Ctx, i: nat): (r: R<Turn>)
    requires i < |c.toks|
    ensures r.at >= i
    ensures r.errs == []
  {
    var fs := if Cur(c, i + 1) == LPAREN then VariantFields(c, i + 2) else R([], i, []);
    R(Go([Variant(Lit(c, i), fs.v)]), SkipIf(c, fs.at, COMMA), [])
  }

  function VariantFields(c: Ctx, i: nat): (r: R<seq<(string, string)>>)
    ensures r.at >= i
    ensures r.errs == []
    decreases Left(c, i)
  {
    if Cur(c, i) == RPAREN || Cur(c, i) == EOF then R([], i, [])
    else
      var ty := OptionalType(c, i, COLON);
      var rest := VariantFields(c, SkipIf(c, ty.at, COMMA) + 1);
      R([(Lit(c, i), ty.v)] + rest.v, rest.at, [])
  }

  /** Anything else between the members of an actor is stepped over. */
  function ActorMember(c: Ctx, i: nat): (r: R<Turn>)
    requires i < |c.toks|
    ensures r.at >= i
    decreases Left(c, i), 2
  {
    if IsWordAt(c, i, "state") then
      var ty := OptionalType(c, i + 1, COLON);
      var d := DefaultValue(c, ty.at);
      R(Go([State(Lit(c, i + 1), ty.v, d.v)]), d.at, d.errs)
    else if Cur(c, i) == RECEIVE then
      var b := ReceiveBlock(c, i);
      R(Go([b.v]), b.at, b.errs)
    else R(Go([]), i, [])
  }

  function ReceiveBlock(c: Ctx, i: nat): (r: R<Part>)
    requires i < |c.toks|
    ensures r.at >= i
    decreases Left(c, i), 1
  {
    var ps := OptionalParams(c, i + 1);
    var ty := OptionalType(c, ps.at, ARROW);
    var x := Expect(c, ty.at, LBRACE);
    if !x.v then R(Receive(Lit(c, i + 1), ps.v, ty.v, None), x.at, ps.errs + x.errs)
    else
      var b := BlockBody(c, x.at);
      R(Receive(Lit(c, i + 1), ps.v, ty.v, Some(b.v)), b.at, ps.errs + b.errs)
  }

  /** An optional parameter list. */
  function OptionalParams(c: Ctx, i: nat): (r: R<seq<Param>>)
    ensures r.at >= i
    decreases Left(c, i), 0
  {
    if Cur(c, i + 1) == LPAREN then ParseFnParams(c, i + 1) else R([], i, [])
  }

  /** The stage a token of a pipeline names, if any. */
  function StageKind(s: Sym): Option<string> {
    if s.typ == SOURCE then Some("source")
    else if s.typ == TRANSFORM then Some("transform")
    else if s.typ == SINK then Some("sink")
    else if s.typ == PARTITION then Some("partition")
    else if s.typ != IDENT then None
    else if s.lit == "on_error" || s.lit == "back_pressure" || s.lit == "checkpoint" then Some(s.lit)
    else None
  }

  function StageMember(c: Ctx, i: nat): (r: R<Turn>)
    requires i < |c.toks|
    ensures r.at >= i
    decreases Left(c, i), 2
  {
    var kind := StageKind(SymAt(c, i));
    if kind.None? then R(Go([]), i, [])
    else
      var x := Expect(c, i, COLON);
      if !x.v then R(GiveUp, x.at, x.errs)
      else
        var e := ParseExpression(c, i + 2, LOWEST);
        R(Go([Stage(kind.value, e.v)]), e.at, e.errs)
  }

  /** `: expression` under a key; only a string literal is kept. */
  function TextMember(c: Ctx, i: nat, key: string): (r: R<Turn>)
    requires i < |c.toks|
    ensures r.at >= i
    decreases Left(c, i), 1
  {
    var x := Expect(c, i, COLON);
    if !x.v then R(GiveUp, x.at, x.errs)
    else
      var e := ParseExpression(c, i + 2, LOWEST);
      R(Go(TextOf(key, e.v)), e.at, e.errs)
  }

  function TextOf(key: string, e: Expr): seq<Part> {
    if e.Atom? && e.sym.typ == STRING_LIT then [Text(key, e.sym.lit)] else []
  }

  /** `: .name` under a key. */
  function DotMember(c: Ctx, i: nat, key: string): (r: R<Turn>)
    ensures r.at >= i
    ensures r.v.Go? ==> r.at == i + 3 && r.errs == []
  {
    var x := Expect(c, i, COLON);
    if !x.v then R(GiveUp, x.at, x.errs)
    else
      var y := Expect(c, i + 1, DOT);
      if !y.v then R(GiveUp, y.at, y.errs) else R(Go([Text(key, Lit(c, i + 3))]), i + 3, [])
  }

  /** `: [` before a list of members. */
  function ListStart(c: Ctx, i: nat): (r: R<bool>)
    ensures r.at >= i
    ensures r.v ==> r.at == i + 2 && r.errs == []
  {
    var x := Expect(c, i, COLON);
    if !x.v then x else Expect(c, i + 1, LBRACKET)
  }

  /** `: [name, ...]` under the key `tools`. */
  function ToolsMember(c: Ctx, i: nat): (r: R<Turn>)
    ensures r.at >= i
  {
    var x := ListStart(c, i);
    if !x.v then R(GiveUp, x.at, x.errs)
    else
      var ns := ToolNames(c, i + 3);
      R(Go([Names("tools", ns.v)]), ns.at, [])
  }

  function ToolNames(c: Ctx, i: nat): (r: R<seq<string>>)
    ensures r.at >= i
    ensures r.errs == []
    decreases Left(c, i)
  {
    if Cur(c, i) == RBRACKET || Cur(c, i) == EOF then R([], i, [])
    else
      var rest := ToolNames(c, SkipIf(c, i, COMMA) + 1);
      R((if Cur(c, i) == IDENT || Cur(c, i) == TOOL then [Lit(c, i)] else []) + rest.v, rest.at, [])
  }

  function ToolMember(c: Ctx, i: nat): (r: R<Turn>)
    requires i < |c.toks|
    ensures r.at >= i
    decreases Left(c, i), 2
  {
    if IsWordAt(c, i, "description") then TextMember(c, i, "description")
    else if IsWordAt(c, i, "capability") then DotMember(c, i, "capability")
    else if IsWordAt(c, i, "input") then FieldBlock(c, i, "input")
    else if IsWordAt(c, i, "output") then
      if Cur(c, i + 1) == LBRACE then FieldBlock(c, i, "output") else OutputType(c, i)
    else if Cur(c, i) == EFFECT then
      var x := Expect(c, i, COLON);
      if !x.v then R(GiveUp, x.at, x.errs)
      else
        var es := ParseEffectList(c, i + 1);
        R(Go([Names("effects", es.v)]), es.at, es.errs)
    else if Cur(c, i) == FN then FnMember(c, i)
    else R(Go([]), i, [])
  }

  function OutputType(c: Ctx, i: nat): (r: R<Turn>)
    ensures r.at >= i
  {
    var x := Expect(c, i, COLON);
    if !x.v then R(GiveUp, x.at, x.errs)
    else
      var ty := ParseTypeExpr(c, i + 2);
      R(Go([Text("output", ty.v)]), ty.at, [])
  }

  function FnMember(c: Ctx, i: nat): (r: R<Turn>)
    requires i < |c.toks|
    ensures r.at >= i
    decreases Left(c, i), 1
  {
    var f := ParseFnDecl(c, i);
    R(Go([Function(f.v)]), f.at, f.errs)
  }

  function AgentMember(c: Ctx, i: nat): (r: R<Turn>)
    requires i < |c.toks|
    ensures r.at >= i
    decreases Left(c, i), 2
  {
    if IsWordAt(c, i, "model") then TextMember(c, i, "model")
    else if IsWordAt(c, i, "system") then TextMember(c, i, "system")
    else if IsWordAt(c, i, "tools") then ToolsMember(c, i)
    else if IsWordAt(c, i, "output") then FieldBlock(c, i, "output")
    else if IsWordAt(c, i, "config") then
      var x := Expect(c, i, LBRACE);
      if !x.v then R(GiveUp, x.at, x.errs)
      else
        var ss := Settings(c, i + 2);
        R(if ss.v.Some? then Go(ss.v.value) else GiveUp, ss.at, ss.errs)
    else R(Go([]), i, [])
  }

  function Settings(c: Ctx, i: nat): (r: R<Option<seq<Part>>>)
    ensures r.at >= i
    decreases Left(c, i), 0
  {
    if Cur(c, i) == RBRACE || Cur(c, i) == EOF then R(Some([]), i, [])
    else
      var x := Expect(c, i, COLON);
      if !x.v then R(None, x.at, x.errs)
      else
        var e := ParseExpression(c, i + 2, LOWEST);
        var rest := Settings(c, SkipIf(c, e.at, COMMA) + 1);
        R(if rest.v.Some? then Some(SettingOf(Lit(c, i), e.v) + rest.v.value) else None,
          rest.at, e.errs + rest.errs)
  }

  predicate IsInteger(e: Expr) {
    e.Atom? && (e.sym.typ == INT_LIT || e.sym.typ == DURATION_LIT)
  }

  /** The settings that are kept: whole numbers for the counts, any number for
      the temperature. */
  function SettingOf(key: string, e: Expr): seq<Part> {
    if key == "max_turns" || key == "budget_tokens" || key == "retry_invalid_output" then
      if IsInteger(e) then [Setting(key, e.sym)] else []
    else if key == "temperature" then
      if IsInteger(e) || (e.Atom? && e.sym.typ == FLOAT_LIT) then [Setting(key, e.sym)] else []
    else []
  }

  function McpMember(c: Ctx, i: nat): (r: R<Turn>)
    requires i < |c.toks|
    ensures r.at >= i
    decreases Left(c, i), 2
  {
    if IsWordAt(c, i, "name") then TextMember(c, i, "name")
    else if IsWordAt(c, i, "version") then TextMember(c, i, "version")
    else if IsWordAt(c, i, "tools") then ToolsMember(c, i)
    else if IsWordAt(c, i, "resources") then
      var x := ListStart(c, i);
      if !x.v then R(GiveUp, x.at, x.errs)
      else
        var rs := Resources(c, i + 3);
        R(Go(rs.v), rs.at, rs.errs)
    else if IsWordAt(c, i, "auth") then AuthMember(c, i)
    else if IsWordAt(c, i, "transport") then DotMember(c, i, "transport")
    else R(Go([]), i, [])
  }

  function Resources(c: Ctx, i: nat): (r: R<seq<Part>>)
    ensures r.at >= i
    decreases Left(c, i), 2
  {
    if Cur(c, i) == RBRACKET || Cur(c, i) == EOF then R([], i, [])
    else if IsWordAt(c, i, "Resource") then
      var a := OneResource(c, i);
      var rest := Resources(c, SkipIf(c, a.at, COMMA) + 1);
      R([a.v] + rest.v, rest.at, a.errs + rest.errs)
    else Resources(c, SkipIf(c, i, COMMA) + 1)
  }

  /** `Resource.static(name, uri: ..., content: ...)`: the three tokens after
      the first are stepped over unseen. */
  function OneResource(c: Ctx, i: nat): (r: R<Part>)
    requires i < |c.toks|
    ensures r.at >= i
    decreases Left(c, i), 1
  {
    var e := ParseExpression(c, i + 4, LOWEST);
    var a := ResourceArgs(c, e.at, "", "");
    R(Resource(Content(e.v, ""), a.v.0, a.v.1), a.at, e.errs + a.errs)
  }

  /** The text of a string literal; anything else leaves what was there. */
  function Content(e: Expr, before: string): string {
    if e.Atom? && e.sym.typ == STRING_LIT then e.sym.lit else before
  }

  function ResourceArgs(c: Ctx, i: nat, uri: string, content: string): (r: R<(string, string)>)
    ensures r.at >= i
    decreases Left(c, i), 3
  {
    if Cur(c, i) == RPAREN || Cur(c, i) == EOF then R((uri, content), i, [])
    else
      var a := WordArg(c, i, "uri", uri);
      var b := WordArg(c, a.at, "content", content);
      var rest := ResourceArgs(c, b.at + 1, a.v, b.v);
      R(rest.v, rest.at, a.errs + b.errs + rest.errs)
  }

  /** `word: expression` if that is what stands here. */
  function WordArg(c: Ctx, i: nat, word: string, before: string): (r: R<string>)
    ensures r.at >= i
    decreases Left(c, i), 2
  {
    if IsWordAt(c, i, word) then
      var e := ParseExpression(c, i + 2, LOWEST);
      R(Content(e.v, before), e.at, e.errs)
    else R(before, i, [])
  }

  function AuthMember(c: Ctx, i: nat): (r: R<Turn>)
    requires i < |c.toks|
    ensures r.at >= i
    decreases Left(c, i), 1
  {
    var d := DotMember(c, i, "auth");
    if !d.v.Go? || Cur(c, i + 4) != LPAREN then d
    else if Cur(c, i + 5) == RPAREN then R(d.v, i + 5, [])
    else
      var a := Args(c, i + 5);
      var x := Expect(c, a.at, RPAREN);
      R(if x.v then Go(d.v.parts + [AuthArgs(a.v)]) else GiveUp, x.at, a.errs + x.errs)
  }

  predicate IsHttpMethod(s: string) {
    s == "GET" || s == "POST" || s == "PUT" || s == "PATCH" || s == "DELETE" || s == "HEAD" || s == "OPTIONS"
  }

  function ServiceMember(c: Ctx, i: nat): (r: R<Turn>)
    requires i < |c.toks|
    ensures r.at >= i
    decreases Left(c, i), 2
  {
    if Cur(c, i) == IDENT && IsHttpMethod(Lit(c, i)) then RouteMember(c, i)
    else if IsWordAt(c, i, "prefix") then TextMember(c, i, "prefix")
    else if IsWordAt(c, i, "middleware") then
      var x := ListStart(c, i);
      if !x.v then R(GiveUp, x.at, x.errs)
      else
        var ms := Middlewares(c, i + 3);
        R(if ms.v.Some? then Go(ms.v.value) else GiveUp, ms.at, ms.errs)
    else if IsWordAt(c, i, "transport") then TransportMember(c, i)
    else R(Go([]), i, [])
  }

  /** `GET "pattern" -> handler`, the handler a name or written in place. */
  function RouteMember(c: Ctx, i: nat): (r: R<Turn>)
    requires i < |c.toks|
    ensures r.at >= i
    decreases Left(c, i), 1
  {
    var x := Expect(c, i, STRING_LIT);
    if !x.v then R(GiveUp, x.at, x.errs)
    else
      var y := Expect(c, i + 1, ARROW);
      if !y.v then R(GiveUp, y.at, y.errs)
      else if Cur(c, i + 3) == FN then InlineHandler(c, i + 3, Lit(c, i), Lit(c, i + 1))
      else
        var z := Expect(c, i + 2, IDENT);
        R(if z.v then Go([Route(Lit(c, i), Lit(c, i + 1), Lit(c, i + 3), None)]) else GiveUp, z.at, z.errs)
  }

  function InlineHandler(c: Ctx, i: nat, verb: string, pattern: string): (r: R<Turn>)
    requires i < |c.toks|
    ensures r.at >= i
    decreases Left(c, i), 1
  {
    var x := Expect(c, i, LPAREN);
    if !x.v then R(GiveUp, x.at, x.errs)
    else
      var ps := ParseFnParams(c, i + 1);
      var ty := OptionalType(c, ps.at, ARROW);
      var y := Expect(c, ty.at, LBRACE);
      if !y.v then R(GiveUp, y.at, ps.errs + y.errs)
      else
        var b := BlockBody(c, y.at);
        var f := FnDecl("__inline_" + verb + "_" + pattern + "__", ps.v, ty.v, [], b.v);
        R(Go([Route(verb, pattern, "", Some(f))]), b.at, ps.errs + b.errs)
  }

  function Middlewares(c: Ctx, i: nat): (r: R<Option<seq<Part>>>)
    ensures r.at >= i
    decreases Left(c, i), 2
  {
    if Cur(c, i) == RBRACKET || Cur(c, i) == EOF then R(Some([]), i, [])
    else
      var m := MiddlewareRef(c, i);
      if m.v == GiveUp || m.v == Cut then R(None, m.at, m.errs)
      else
        var rest := Middlewares(c, SkipIf(c, m.at, COMMA) + 1);
        R(if rest.v.Some? then Some(m.v.parts + rest.v.value) else None, rest.at, m.errs + rest.errs)
  }

  /** `name [.call [(values)]]`; anything but a name is stepped over. */
  function MiddlewareRef(c: Ctx, i: nat): (r: R<Turn>)
    requires i < |c.toks|
    ensures r.at >= i
    decreases Left(c, i), 1
  {
    if Cur(c, i) != IDENT then R(Go([]), i, [])
    else if Cur(c, i + 1) != DOT then R(Go([Middleware(Lit(c, i), "", [])]), i, [])
    else
      var x := Expect(c, i + 1, IDENT);
      if !x.v then R(GiveUp, x.at, x.errs)
      else if Cur(c, i + 3) != LPAREN then R(Go([Middleware(Lit(c, i), Lit(c, i + 2), [])]), i + 2, [])
      else if Cur(c, i + 4) == RPAREN then R(Go([Middleware(Lit(c, i), Lit(c, i + 2), [])]), i + 4, [])
      else
        var vs := Values(c, i + 3);
        var y := Expect(c, vs.at, RPAREN);
        R(if y.v then Go([Middleware(Lit(c, i), Lit(c, i + 2), vs.v)]) else GiveUp, y.at, vs.errs + y.errs)
  }

  /** One or more comma-separated expressions after the current token. */
  function Values(c: Ctx, i: nat): (r: R<seq<Expr>>)
    requires i < |c.toks|
    ensures r.at >= i
    decreases Left(c, i), 0
  {
    var e := ParseExpression(c, i + 1, LOWEST);
    if Cur(c, e.at + 1) != COMMA then R([e.v], e.at, e.errs)
    else
      var rest := Values(c, e.at + 1);
      R([e.v] + rest.v, rest.at, e.errs + rest.errs)
  }

  /** `: .http [(port: ..., host: ...)]` */
  function TransportMember(c: Ctx, i: nat): (r: R<Turn>)
    requires i < |c.toks|
    ensures r.at >= i
    decreases Left(c, i), 1
  {
    var d := DotMember(c, i, "transport");
    if !d.v.Go? then d
    else if Cur(c, i + 4) != LPAREN then R(Go([]), i + 3, [])
    else
      var a := TransportArgs(c, i + 4);
      if a.v.None? then R(GiveUp, a.at, a.errs)
      else
        var x := Expect(c, a.at, RPAREN);
        R(if x.v then Go(a.v.value) else GiveUp, x.at, a.errs + x.errs)
  }

  function TransportArgs(c: Ctx, i: nat): (r: R<Option<seq<Part>>>)
    ensures r.at >= i
    decreases Left(c, i), 0
  {
    if Cur(c, i + 1) == RPAREN || Cur(c, i + 1) == EOF then R(Some([]), i, [])
    else if Cur(c, i + 1) != IDENT then R(Some([]), i + 1, [])
    else
      var x := Expect(c, i + 1, COLON);
      if !x.v then R(None, x.at, x.errs)
      else
        var e := ParseExpression(c, i + 3, LOWEST);
        var rest := TransportArgs(c, SkipIf(c, e.at, COMMA));
        R(if rest.v.Some? then Some(TransportOf(Lit(c, i + 1), e.v) + rest.v.value) else None,
          rest.at, e.errs + rest.errs)
  }

  function TransportOf(key: string, e: Expr): seq<Part> {
    if key == "port" && IsInteger(e) then [Setting(key, e.sym)]
    else if key == "host" then TextOf(key, e)
    else []
  }

  function ProtocolMember(c: Ctx, i: nat): (r: R<Turn>)
    requires i < |c.toks|
    ensures r.at >= i
    decreases Left(c, i), 2
  {
    if Cur(c, i) != FN then R(Go([]), i, [])
    else
      var x := Expect(c, i + 1, LPAREN);
      if !x.v then R(Go([Operation(Lit(c, i + 1), [], "", [])]), x.at, x.errs)
      else
        var ps := ParseFnParams(c, i + 2);
        var ty := OptionalType(c, ps.at, ARROW);
        var es := OptionalEffects(c, ty.at);
        R(Go([Operation(Lit(c, i + 1), ps.v, ty.v, es.v)]), es.at, ps.errs + es.errs)
  }

  function ImplMember(c: Ctx, i: nat): (r: R<Turn>)
    requires i < |c.toks|
    ensures r.at >= i
    decreases Left(c, i), 2
  {
    if Cur(c, i) == FN then FnMember(c, i) else R(Go([]), i, [])
  }

  function OperationMember(c: Ctx, i: nat): (r: R<Turn>)
    requires i < |c.toks|
    ensures r.at >= i
    decreases Left(c, i), 2
  {
    if Cur(c, i) != IDENT then R(Go([]), i, [])
    else
      var ps := OptionalParams(c, i);
      var ty := OptionalType(c, ps.at, ARROW);
      R(Go([Operation(Lit(c, i), ps.v, ty.v, [])]), ty.at, ps.errs)
  }

  function ParseTypeAlias(c: Ctx, i: nat): (r: R<Stmt>)
    ensures r.at >= i
  {
    var x := Expect(c, i, IDENT);
    if !x.v then R(NilStmt, x.at, x.errs)
    else
      var y := Expect(c, i + 1, ASSIGN);
      if !y.v then R(NilStmt, y.at, y.errs)
      else
        var ty := ParseTypeExpr(c, i + 3);
        R(TypeAlias(Lit(c, i + 1), ty.v), ty.at, [])
  }

  function ParseImport(c: Ctx, i: nat): (r: R<Stmt>)
    ensures r.at >= i
  {
    if Cur(c, i + 1) == LBRACE then
      var ns := NamesUntil(c, i + 2, RBRACE);
      var x := Expect(c, ns.at, IDENT);
      if !x.v || Lit(c, x.at) != "from" then R(NilStmt, x.at, x.errs + [NoFrom(Lit(c, x.at))])
      else
        var y := Expect(c, x.at, STRING_LIT);
        R(if y.v then Import(Lit(c, y.at), "", ns.v) else NilStmt, y.at, y.errs)
    else
      var x := Expect(c, i, STRING_LIT);
      if !x.v then R(NilStmt, x.at, x.errs)
      else if !IsWordAt(c, i + 2, "as") then R(Import(Lit(c, i + 1), "", []), i + 1, [])
      else
        var y := Expect(c, i + 2, IDENT);
        R(if y.v then Import(Lit(c, i + 1), Lit(c, i + 3), []) else NilStmt, y.at, y.errs)
  }

  function ParseProgram(c: Ctx): R<seq<Stmt>> {
    Statements(c, 0, EOF)
  }
}
