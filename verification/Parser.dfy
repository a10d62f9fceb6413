/** The parser object: two tokens of lookahead over a token supply, advanced in
    place, proved against `Grammar`. */
module Parser {
  import opened Options
  import opened Tokens
  import opened Ast
  import opened Grammar
  import opened ParserLoops

  /** The symbols the parser gets to see: newlines are dropped. */
  function Visible(ts: seq<Token>): seq<Sym> {
    if |ts| == 0 then []
    else if ts[0].sym.typ == NEWLINE then Visible(ts[1..])
    else [ts[0].sym] + Visible(ts[1..])
  }

  class Parser {
    const toks: seq<Token>
    const valid: Sym -> bool
    var next: nat
    var cur: Token
    var peek: Token
    var errors: seq<Error>
    var at: nat // how many tokens lie behind the current one

    function C(): Ctx {
      Ctx(Visible(toks), valid)
    }

    /** The supply still holds what lies past the lookahead token. */
    ghost predicate Supplies(n: nat)
      reads `next
    {
      next <= |toks|
      && Visible(toks[next..]) == if n <= |C().toks| then C().toks[n..] else []
    }

    ghost predicate Valid()
      reads this
    {
      cur.sym == SymAt(C(), at) && peek.sym == SymAt(C(), at + 1) && Supplies(at + 2)
    }

    constructor (toks: seq<Token>, valid: Sym -> bool)
      ensures Valid() && at == 0 && errors == []
      ensures this.toks == toks && this.valid == valid
    {
      this.toks, this.valid := toks, valid;
      next, errors, at := 0, [], 0;
      cur := Token(Sym(EOF, ""), 0, 0);
      peek := Token(Sym(EOF, ""), 0, 0);
      new;
      assert toks[0..] == toks && C().toks[0..] == C().toks;
      cur := Pull(0);
      peek := Pull(1);
    }

    /** The next token of the supply that is not a newline. */
    method Pull(ghost n: nat) returns (t: Token)
      requires Supplies(n)
      modifies `next
      ensures Supplies(n + 1) && t.sym == SymAt(C(), n)
    {
      while next < |toks| && toks[next].sym.typ == NEWLINE
        invariant Supplies(n)
        decreases |toks| - next
      {
        next := next + 1;
      }
      if next < |toks| {
        t := toks[next];
        assert Visible(toks[next..]) == [t.sym] + Visible(toks[next + 1..]);
        assert n < |C().toks|;
        assert C().toks[n..] == [C().toks[n]] + C().toks[n + 1..];
        next := next + 1;
      } else {
        t := Token(Sym(EOF, ""), 0, 0);
      }
    }

    method NextToken()
      requires Valid()
      modifies this
      ensures Valid() && at == old(at) + 1 && errors == old(errors)
    {
      cur := peek;
      peek := Pull(at + 2);
      at := at + 1;
    }

    function CurIs(t: TokenType): (b: bool)
      requires Valid()
      reads this
      ensures b == (Cur(C(), at) == t)
    {
      cur.sym.typ == t
    }

    function PeekIs(t: TokenType): (b: bool)
      requires Valid()
      reads this
      ensures b == (Cur(C(), at + 1) == t)
    {
      peek.sym.typ == t
    }

    function CurIsWord(word: string): (b: bool)
      requires Valid()
      reads this
      ensures b == IsWordAt(C(), at, word)
    {
      cur.sym.typ == IDENT && cur.sym.lit == word
    }

    /** An optional semicolon. */
    method SkipSemicolon()
      requires Valid()
      modifies this
      ensures Valid() && errors == old(errors) && at == SkipIf(C(), old(at), SEMICOLON)
    {
      if PeekIs(SEMICOLON) {
        NextToken();
      }
    }

    method ExpectPeek(t: TokenType) returns (ok: bool)
      requires Valid()
      modifies this
      ensures Valid()
      ensures R(ok, at, errors) == After(old(errors), Expect(C(), old(at), t))
      ensures ok ==> errors == old(errors)
    {
      if PeekIs(t) {
        NextToken();
        return true;
      }
      errors := errors + [WrongPeek(t, peek.sym.typ)];
      return false;
    }

    method ParseExpression(precedence: nat) returns (e: Expr)
      requires Valid()
      modifies this
      ensures Valid()
      ensures R(e, at, errors) == After(old(errors), Grammar.ParseExpression(C(), old(at), precedence))
      decreases Left(C(), at), 3
    {
      hide C, Visible, Supplies, Grammar.ParsePrefix, Grammar.ParseInfix, InfixLoop;
      if !HasPrefixFn(cur.sym.typ) {
        errors := errors + [NoPrefixFn(cur.sym.typ)];
        return Missing;
      }
      ghost var a := Grammar.ParsePrefix(C(), at);
      e := ParsePrefix();
      ghost var b := InfixLoop(C(), a.at, precedence, a.v);
      e := ExtendWithInfix(precedence, e);
      assert old(errors) + a.errs + b.errs == old(errors) + (a.errs + b.errs);
    }

    /** The loop of `parseExpression`. */
    method ExtendWithInfix(precedence: nat, left: Expr) returns (e: Expr)
      requires Valid()
      modifies this
      ensures Valid()
      ensures R(e, at, errors) == After(old(errors), InfixLoop(C(), old(at), precedence, left))
      decreases Left(C(), at), 1
    {
      hide C, Visible, Supplies, Grammar.ParseInfix, InfixLoop, StopsLoop;
      e := left;
      ghost var total := After(errors, InfixLoop(C(), at, precedence, e));
      while !StopsLoop(peek.sym.typ, precedence) && HasInfixFn(peek.sym.typ)
        invariant Valid() && at >= old(at)
        invariant total == After(errors, InfixLoop(C(), at, precedence, e))
        decreases Left(C(), at)
      {
        LoopUnfolds(C(), at, precedence, e);
        ghost var a := Grammar.ParseInfix(C(), at + 1, e);
        AfterBoth(errors, a, InfixLoop(C(), a.at, precedence, a.v));
        NextToken();
        e := ParseInfix(e);
      }
      LoopUnfolds(C(), at, precedence, e);
      AfterNothing(errors, e, at);
    }

    /** Dispatch on the prefix function of the current token. */
    method ParsePrefix() returns (e: Expr)
      requires Valid() && HasPrefixFn(cur.sym.typ)
      modifies this
      ensures Valid()
      ensures R(e, at, errors) == After(old(errors), Grammar.ParsePrefix(C(), old(at)))
      decreases Left(C(), at), 2
    {
      hide C, Visible, Supplies, Grammar.ParseIdentifier, Grammar.ParseLeadingDot, Grammar.ParsePrefixExpression,
        Grammar.ParseGrouped, Grammar.ParseExpressionList, Grammar.ParseBlockExpression, Grammar.ParseIf,
        Grammar.ParseMatch, Grammar.ParseLambda, Grammar.ParseHandle, Grammar.ParseForIn, Grammar.ParseWhile,
        Grammar.ParseExpression;
      var t := cur.sym.typ;
      if t == IDENT {
        e := ParseIdentifier();
      } else if IsCheckedLiteral(t) {
        e := ParseNumber();
      } else if IsPlainAtom(t) {
        e := Atom(cur.sym);
      } else if t == DOT {
        e := ParseLeadingDot();
      } else if t == BANG || t == MINUS {
        e := ParsePrefixExpression();
      } else if t == LPAREN {
        e := ParseGrouped();
      } else if t == LBRACKET {
        var elems := ParseExpressionList(RBRACKET);
        e := ListLit(elems);
      } else if t == LBRACE {
        e := ParseBlockExpression();
      } else if t == IF {
        e := ParseIf();
      } else if t == MATCH {
        e := ParseMatch();
      } else if t == FN {
        e := ParseLambda();
      } else if t == SPAWN {
        NextToken();
        var call := ParseExpression(LOWEST);
        e := Spawn(call);
      } else if t == HANDLE {
        e := ParseHandle();
      } else if t == FOR {
        e := ParseForIn();
      } else if t == SPREAD {
        NextToken();
        var value := ParseExpression(PREFIX);
        e := SpreadOp(value);
      } else {
        e := ParseWhile();
      }
    }

    /** Dispatch on the infix function of the current operator. */
    method ParseInfix(left: Expr) returns (e: Expr)
      requires Valid() && HasInfixFn(cur.sym.typ)
      modifies this
      ensures Valid()
      ensures R(e, at, errors) == After(old(errors), Grammar.ParseInfix(C(), old(at), left))
      decreases Left(C(), at), 2
    {
      hide C, Visible, Supplies, Grammar.ParseExpression, Grammar.ParseCallArgs, Precedence;
      var op := cur.sym;
      if IsBinary(op.typ) {
        e := ParseInfixExpression(left);
      } else if IsAssign(op.typ) {
        NextToken();
        var value := ParseExpression(LOWEST);
        e := Assignment(left, op, value);
      } else if op.typ == DOT {
        NextToken();
        e := FieldAccess(left, cur.sym.lit);
      } else if op.typ == LPAREN {
        var args := ParseCallArgs();
        e := Call(left, args);
      } else if op.typ == LBRACKET {
        e := ParseIndex(left);
      } else {
        e := Try(left);
      }
    }

    method ParseInfixExpression(left: Expr) returns (e: Expr)
      requires Valid() && at < |C().toks| && IsBinary(cur.sym.typ)
      modifies this
      ensures Valid()
      ensures R(e, at, errors) == After(old(errors), Grammar.ParseInfix(C(), old(at), left))
      decreases Left(C(), at), 1
    {
      hide C, Visible, Supplies, Grammar.ParseExpression, Grammar.ParseCallArgs, Precedence;
      var op := cur.sym;
      NextToken();
      var right := ParseExpression(Precedence(op.typ));
      e := InfixOp(left, op, right);
    }

    method ParseIndex(left: Expr) returns (e: Expr)
      requires Valid() && at < |C().toks| && cur.sym.typ == LBRACKET
      modifies this
      ensures Valid()
      ensures R(e, at, errors) == After(old(errors), Grammar.ParseInfix(C(), old(at), left))
      decreases Left(C(), at), 1
    {
      hide C, Visible, Supplies, Grammar.ParseExpression, Grammar.ParseCallArgs, Precedence;
      NextToken();
      var index := ParseExpression(LOWEST);
      var ok := ExpectPeek(RBRACKET);
      e := if ok then Index(left, index) else Missing;
    }

    method ParseNumber() returns (e: Expr)
      requires Valid() && IsCheckedLiteral(cur.sym.typ)
      modifies this
      ensures Valid()
      ensures R(e, at, errors) == After(old(errors), Grammar.ParsePrefix(C(), old(at)))
      decreases Left(C(), at), 1
    {
      hide Visible, Supplies, Grammar.ParseIdentifier;
      if valid(cur.sym) {
        e := Atom(cur.sym);
      } else {
        errors := errors + [BadLiteral(cur.sym)];
        e := Missing;
      }
    }

    method ParsePrefixExpression() returns (e: Expr)
      requires Valid() && at < |C().toks|
      modifies this
      ensures Valid()
      ensures R(e, at, errors) == After(old(errors), Grammar.ParsePrefixExpression(C(), old(at)))
      decreases Left(C(), at), 1
    {
      hide C, Visible, Supplies, Grammar.ParseExpression;
      var op := cur.sym;
      NextToken();
      var right := ParseExpression(PREFIX);
      e := PrefixOp(op, right);
    }

    method ParseGrouped() returns (e: Expr)
      requires Valid() && at < |C().toks|
      modifies this
      ensures Valid()
      ensures R(e, at, errors) == After(old(errors), Grammar.ParseGrouped(C(), old(at)))
      decreases Left(C(), at), 1
    {
      hide C, Visible, Supplies, Grammar.ParseExpression;
      NextToken();
      e := ParseExpression(LOWEST);
      var ok := ExpectPeek(RPAREN);
      if !ok {
        e := Missing;
      }
    }

    method ParseExpressionList(end: TokenType) returns (list: seq<Expr>)
      requires Valid() && at < |C().toks|
      modifies this
      ensures Valid()
      ensures R(list, at, errors) == After(old(errors), Grammar.ParseExpressionList(C(), old(at), end))
      decreases Left(C(), at), 1
    {
      hide C, Visible, Supplies, Grammar.ParseExpression, MoreExpressions;
      list := [];
      if PeekIs(end) {
        NextToken();
        return;
      }
      ghost var a := Grammar.ParseExpression(C(), at + 1, LOWEST);
      ghost var rest := MoreExpressions(C(), a.at, end);
      ghost var x := Expect(C(), rest.at, end);
      ErrorsJoin(errors, a.errs, rest.errs, x.errs);
      NextToken();
      var e := ParseExpression(LOWEST);
      list := ParseMoreExpressions([e], end);
      assert R(list, at, errors) == R([a.v] + rest.v, rest.at, (old(errors) + a.errs) + rest.errs);
      hide Expect;
      var ok := ExpectPeek(end);
      if !ok {
        list := [];
      }
    }

    /** The comma loop of `parseExpressionList`. */
    method ParseMoreExpressions(first: seq<Expr>, end: TokenType) returns (list: seq<Expr>)
      requires Valid()
      modifies this
      ensures Valid()
      ensures R(list, at, errors) == AfterMany(first, old(errors), MoreExpressions(C(), old(at), end))
      decreases Left(C(), at), 0
    {
      hide C, Visible, Supplies, Grammar.ParseExpression, MoreExpressions;
      list := first;
      ghost var total := AfterMany(list, errors, MoreExpressions(C(), at, end));
      while PeekIs(COMMA)
        invariant Valid() && at >= old(at)
        invariant total == AfterMany(list, errors, MoreExpressions(C(), at, end))
        decreases Left(C(), at)
      {
        MoreUnfolds(C(), at, end);
        ghost var a := Grammar.ParseExpression(C(), at + 2, LOWEST);
        ghost var rest := MoreExpressions(C(), a.at, end);
        AfterManyStep(list, errors, a.v, a.errs, rest);
        NextToken();
        if PeekIs(end) {
          AfterManyEnd(list, errors, at);
          return;
        }
        NextToken();
        var e := ParseExpression(LOWEST);
        list := list + [e];
      }
      MoreUnfolds(C(), at, end);
      AfterManyEnd(list, errors, at);
    }

    method ParseCallArgs() returns (args: seq<Arg>)
      requires Valid() && at < |C().toks|
      modifies this
      ensures Valid()
      ensures R(args, at, errors) == After(old(errors), Grammar.ParseCallArgs(C(), old(at)))
      decreases Left(C(), at), 1
    {
      hide C, Visible, Supplies, Args;
      args := [];
      if PeekIs(RPAREN) {
        NextToken();
        return;
      }
      NextToken();
      args := ParseArgs();
      var ok := ExpectPeek(RPAREN);
      if !ok {
        args := [];
      }
    }

    /** The argument loop, the first token of the first argument already current. */
    method ParseArgs() returns (args: seq<Arg>)
      requires Valid()
      modifies this
      ensures Valid()
      ensures R(args, at, errors) == After(old(errors), Args(C(), old(at)))
      decreases Left(C(), at), 4, 1
    {
      hide C, Visible, Supplies, Grammar.ParseExpression, Args, OneArg;
      args := [];
      ghost var total := AfterMany(args, errors, Args(C(), at));
      AfterManyNone(errors, Args(C(), at));
      while true
        invariant Valid() && at >= old(at)
        invariant total == AfterMany(args, errors, Args(C(), at))
        decreases Left(C(), at)
      {
        ArgsUnfold(C(), at);
        ghost var a := OneArg(C(), at);
        AfterManyStep(args, errors, a.v, a.errs, Args(C(), a.at + 2));
        AfterManyLast(args, errors, a);
        var arg := ParseArg();
        args := args + [arg];
        if !PeekIs(COMMA) {
          return;
        }
        NextToken();
        NextToken();
      }
    }

    /** One argument, named or positional. */
    method ParseArg() returns (arg: Arg)
      requires Valid()
      modifies this
      ensures Valid()
      ensures R(arg, at, errors) == After(old(errors), OneArg(C(), old(at)))
      decreases Left(C(), at), 4, 0
    {
      hide C, Visible, Supplies, Grammar.ParseExpression;
      var name := "";
      if CurIs(IDENT) && PeekIs(COLON) {
        name := cur.sym.lit;
        NextToken();
        NextToken();
      }
      var value := ParseExpression(LOWEST);
      arg := Arg(name, value);
    }

    method ParseIdentifier() returns (e: Expr)
      requires Valid() && at < |C().toks| && cur.sym.typ == IDENT
      modifies this
      ensures Valid()
      ensures R(e, at, errors) == After(old(errors), Grammar.ParseIdentifier(C(), old(at)))
      decreases Left(C(), at), 1
    {
      hide C, Visible, Supplies, ObjectFields;
      if IsUpper(cur.sym.lit) && PeekIs(LBRACE) {
        e := ParseObjectLiteral();
      } else {
        e := Atom(cur.sym);
      }
    }

    method ParseObjectLiteral() returns (e: Expr)
      requires Valid() && at < |C().toks| && IsUpper(cur.sym.lit) && PeekIs(LBRACE)
      modifies this
      ensures Valid()
      ensures R(e, at, errors) == After(old(errors), Grammar.ParseIdentifier(C(), old(at)))
      decreases Left(C(), at), 0
    {
      hide C, Visible, Supplies, ObjectFields;
      var name := cur.sym.lit;
      NextToken();
      if PeekIs(RBRACE) {
        NextToken();
        return ObjectLit(name, []);
      }
      var fields := ParseObjectFields();
      e := if fields.Some? then ObjectLit(name, fields.value) else Missing;
    }

    /** The field loop of a named object literal, entered on `{`. */
    method ParseObjectFields() returns (fields: Option<seq<Arg>>)
      requires Valid()
      modifies this
      ensures Valid()
      ensures R(fields, at, errors) == After(old(errors), ObjectFields(C(), old(at)))
      decreases Left(C(), at), 0
    {
      hide C, Visible, Supplies, Grammar.ParseExpression, ObjectFields, AfterSome;
      var xs := [];
      ghost var total := AfterSome(xs, errors, ObjectFields(C(), at));
      AfterSomeNone(errors, ObjectFields(C(), at));
      while true
        invariant Valid() && at >= old(at)
        invariant total == AfterSome(xs, errors, ObjectFields(C(), at))
        decreases Left(C(), at)
      {
        ObjectFieldsStep(xs, errors, C(), at);
        NextToken();
        if CurIs(RBRACE) || CurIs(EOF) {
          return Some(xs);
        }
        var name := cur.sym.lit;
        var ok := ExpectPeek(COLON);
        if !ok {
          return None;
        }
        NextToken();
        var value := ParseExpression(LOWEST);
        xs := xs + [Arg(name, value)];
        if PeekIs(COMMA) {
          NextToken();
        } else if PeekIs(RBRACE) {
          NextToken();
          return Some(xs);
        }
      }
    }

    method ParseLeadingDot() returns (e: Expr)
      requires Valid() && at < |C().toks|
      modifies this
      ensures Valid()
      ensures R(e, at, errors) == After(old(errors), Grammar.ParseLeadingDot(C(), old(at)))
      decreases Left(C(), at), 1
    {
      hide C, Visible, Supplies, Args;
      var ok := ExpectPeek(IDENT);
      if !ok {
        return Missing;
      }
      var name := cur.sym.lit;
      if !PeekIs(LPAREN) {
        return LeadingDot(name, []);
      }
      NextToken();
      if PeekIs(RPAREN) {
        NextToken();
        return LeadingDot(name, []);
      }
      NextToken();
      var args := ParseArgs();
      ok := ExpectPeek(RPAREN);
      e := if ok then LeadingDot(name, args) else Missing;
    }

    // ---------- blocks and control flow ----------

    method ParseBlockExpression() returns (e: Expr)
      requires Valid() && at < |C().toks|
      modifies this
      ensures Valid()
      ensures R(e, at, errors) == After(old(errors), Grammar.ParseBlockExpression(C(), old(at)))
      decreases Left(C(), at), 1
    {
      hide C, Visible, Supplies, BareObjectBody, Statements;
      NextToken();
      if CurIs(IDENT) && PeekIs(COLON) {
        var fields := ParseBareObject();
        return if fields.Some? then ObjectLit("", fields.value) else Missing;
      }
      var stmts := ParseStatements(RBRACE);
      e := Block(stmts);
    }

    /** The fields of an unnamed object literal, the first name already current. */
    method ParseBareObject() returns (fields: Option<seq<Arg>>)
      requires Valid()
      modifies this
      ensures Valid()
      ensures R(fields, at, errors) == After(old(errors), BareObjectBody(C(), old(at)))
      decreases Left(C(), at), 0
    {
      hide C, Visible, Supplies, Grammar.ParseExpression, BareObjectBody, AfterSome;
      var xs := [];
      ghost var total := AfterSome(xs, errors, BareObjectBody(C(), at));
      AfterSomeNone(errors, BareObjectBody(C(), at));
      while true
        invariant Valid() && at >= old(at)
        invariant total == AfterSome(xs, errors, BareObjectBody(C(), at))
        decreases Left(C(), at)
      {
        BareObjectStep(xs, errors, C(), at);
        if !CurIs(IDENT) {
          errors := errors + [NoFieldName(cur.sym.typ)];
          return None;
        }
        var name := cur.sym.lit;
        var ok := ExpectPeek(COLON);
        if !ok {
          return None;
        }
        NextToken();
        var value := ParseExpression(LOWEST);
        xs := xs + [Arg(name, value)];
        if PeekIs(COMMA) {
          NextToken();
          NextToken();
        } else if PeekIs(RBRACE) {
          NextToken();
          return Some(xs);
        } else if CurIs(RBRACE) {
          return Some(xs);
        } else {
          errors := errors + [BadObjectLiteral(peek.sym.typ)];
          return None;
        }
      }
    }

    /** The statement loop of a block or a program. */
    method ParseStatements(end: TokenType) returns (stmts: seq<Stmt>)
      requires Valid()
      modifies this
      ensures Valid()
      ensures R(stmts, at, errors) == After(old(errors), Statements(C(), old(at), end))
      decreases Left(C(), at), 6
    {
      hide C, Visible, Supplies, Statements, Grammar.ParseStatement, AfterMany;
      stmts := [];
      ghost var total := AfterMany(stmts, errors, Statements(C(), at, end));
      AfterManyNone(errors, Statements(C(), at, end));
      while !CurIs(end) && !CurIs(EOF)
        invariant Valid() && at >= old(at)
        invariant total == AfterMany(stmts, errors, Statements(C(), at, end))
        decreases Left(C(), at)
      {
        StatementsStep(stmts, errors, C(), at, end);
        var s := ParseStatement();
        if s != NoStmt {
          stmts := stmts + [s];
        }
        NextToken();
      }
      StatementsStep(stmts, errors, C(), at, end);
    }

    /** A block, its `{` already current. */
    method ParseBlockBody() returns (stmts: seq<Stmt>)
      requires Valid() && at < |C().toks|
      modifies this
      ensures Valid()
      ensures R(stmts, at, errors) == After(old(errors), BlockBody(C(), old(at)))
      decreases Left(C(), at), 0
    {
      hide C, Visible, Supplies, Statements;
      NextToken();
      stmts := ParseStatements(RBRACE);
    }

    method ParseIf() returns (e: Expr)
      requires Valid() && at < |C().toks|
      modifies this
      ensures Valid()
      ensures R(e, at, errors) == After(old(errors), Grammar.ParseIf(C(), old(at)))
      decreases Left(C(), at), 1
    {
      hide C, Visible, Supplies, Grammar.ParseExpression, BlockBody, Else;
      NextToken();
      var cond := ParseExpression(LOWEST);
      var ok := ExpectPeek(LBRACE);
      if !ok {
        return Missing;
      }
      var consequence := ParseBlockBody();
      e := ParseElse(cond, consequence);
    }

    /** The optional `else`, chained `if`s wrapped in a block. */
    method ParseElse(cond: Expr, consequence: seq<Stmt>) returns (e: Expr)
      requires Valid()
      modifies this
      ensures Valid()
      ensures R(e, at, errors) == After(old(errors), Else(C(), old(at), cond, consequence))
      decreases Left(C(), at), 1
    {
      hide C, Visible, Supplies, Grammar.ParseIf, BlockBody;
      if !PeekIs(ELSE) {
        return If(cond, consequence, None);
      }
      NextToken();
      if PeekIs(IF) {
        NextToken();
        var chained := ParseIf();
        return if chained == Missing then Missing else If(cond, consequence, Some([ExprStmt(chained)]));
      }
      var ok := ExpectPeek(LBRACE);
      if !ok {
        return Missing;
      }
      var alternative := ParseBlockBody();
      e := If(cond, consequence, Some(alternative));
    }

    method ParseMatch() returns (e: Expr)
      requires Valid() && at < |C().toks|
      modifies this
      ensures Valid()
      ensures R(e, at, errors) == After(old(errors), Grammar.ParseMatch(C(), old(at)))
      decreases Left(C(), at), 1
    {
      hide C, Visible, Supplies, Grammar.ParseExpression, Arms;
      NextToken();
      var subject := ParseExpression(LOWEST);
      var ok := ExpectPeek(LBRACE);
      if !ok {
        return Missing;
      }
      NextToken();
      var arms := ParseArms();
      e := Match(subject, arms);
    }

    /** The arms of a match, up to its `}`. */
    method ParseArms() returns (arms: seq<Arm>)
      requires Valid()
      modifies this
      ensures Valid()
      ensures R(arms, at, errors) == After(old(errors), Arms(C(), old(at)))
      decreases Left(C(), at), 6
    {
      hide C, Visible, Supplies, Arms, Grammar.ParseMatchArm, AfterMany;
      arms := [];
      ghost var total := AfterMany(arms, errors, Arms(C(), at));
      AfterManyNone(errors, Arms(C(), at));
      while !CurIs(RBRACE) && !CurIs(EOF)
        invariant Valid() && at >= old(at)
        invariant total == AfterMany(arms, errors, Arms(C(), at))
        decreases Left(C(), at)
      {
        ArmsStep(arms, errors, C(), at);
        var arm := ParseMatchArm();
        arms := arms + [arm];
        if PeekIs(COMMA) {
          NextToken();
        }
        NextToken();
      }
      ArmsStep(arms, errors, C(), at);
    }

    method ParseMatchArm() returns (arm: Arm)
      requires Valid() && at < |C().toks|
      modifies this
      ensures Valid()
      ensures R(arm, at, errors) == After(old(errors), Grammar.ParseMatchArm(C(), old(at)))
      decreases Left(C(), at), 5
    {
      hide C, Visible, Supplies, Grammar.ParsePattern, Guard, ArmBody;
      var pattern := ParsePattern();
      var guard := ParseGuard();
      var body := ParseArmBody();
      arm := Arm(pattern, guard, body);
    }

    /** An optional `if condition`. */
    method ParseGuard() returns (guard: Option<Expr>)
      requires Valid()
      modifies this
      ensures Valid()
      ensures R(guard, at, errors) == After(old(errors), Guard(C(), old(at)))
      decreases Left(C(), at), 4
    {
      hide C, Visible, Supplies, Grammar.ParseExpression;
      guard := None;
      if PeekIs(IF) {
        NextToken();
        NextToken();
        var cond := ParseExpression(LOWEST);
        guard := Some(cond);
      }
    }

    /** `=> body` */
    method ParseArmBody() returns (body: Expr)
      requires Valid()
      modifies this
      ensures Valid()
      ensures R(body, at, errors) == After(old(errors), ArmBody(C(), old(at)))
      decreases Left(C(), at), 4
    {
      hide C, Visible, Supplies, Grammar.ParseExpression;
      var ok := ExpectPeek(FAT_ARROW);
      if !ok {
        return Missing;
      }
      NextToken();
      body := ParseExpression(LOWEST);
    }

    method ParsePattern() returns (pattern: Pattern)
      requires Valid()
      modifies this
      ensures Valid()
      ensures R(pattern, at, errors) == After(old(errors), Grammar.ParsePattern(C(), old(at)))
      decreases Left(C(), at), 4
    {
      hide C, Visible, Supplies, DottedName, Bindings, FieldPatterns;
      if CurIs(IDENT) && cur.sym.lit == "_" {
        return Pattern(Wildcard, "_", [], []);
      }
      if CurIs(INT_LIT) || CurIs(FLOAT_LIT) || CurIs(STRING_LIT) {
        return Pattern(Literal, cur.sym.lit, [], []);
      }
      if !CurIs(IDENT) {
        return Pattern(Identifier, cur.sym.lit, [], []);
      }
      var name := ParseDottedName();
      if PeekIs(LPAREN) {
        NextToken();
        var bindings := ParseBindings();
        NextToken();
        pattern := Pattern(Destructure, name, bindings, []);
      } else if PeekIs(LBRACE) {
        NextToken();
        var fields, ok := ParseFieldPatterns();
        if ok {
          NextToken();
        }
        pattern := Pattern(ObjectDestructure, name, [], fields);
      } else {
        pattern := Pattern(Identifier, name, [], []);
      }
    }

    /** `name.name. ...`, the first name already current. */
    method ParseDottedName() returns (name: string)
      requires Valid()
      modifies this
      ensures Valid()
      ensures R(name, at, errors) == After(old(errors), DottedName(C(), old(at), Lit(C(), old(at))))
      decreases Left(C(), at), 0, 0
    {
      hide C, Visible, Supplies;
      name := cur.sym.lit;
      ghost var total := DottedName(C(), at, name);
      while PeekIs(DOT)
        invariant Valid() && at >= old(at) && errors == old(errors)
        invariant total == DottedName(C(), at, name)
        decreases Left(C(), at)
      {
        NextToken();
        NextToken();
        name := name + "." + cur.sym.lit;
      }
    }

    /** The bindings of a pattern, up to before its `)`. */
    method ParseBindings() returns (names: seq<string>)
      requires Valid()
      modifies this
      ensures Valid()
      ensures R(names, at, errors) == After(old(errors), Bindings(C(), old(at)))
      decreases Left(C(), at), 0
    {
      hide C, Visible, Supplies, Bindings, AfterMany;
      names := [];
      ghost var total := AfterMany(names, errors, Bindings(C(), at));
      AfterManyNone(errors, Bindings(C(), at));
      while !PeekIs(RPAREN) && !PeekIs(EOF)
        invariant Valid() && at >= old(at) && errors == old(errors)
        invariant total == AfterMany(names, errors, Bindings(C(), at))
        decreases Left(C(), at)
      {
        BindingsStep(names, errors, C(), at);
        NextToken();
        names := names + [cur.sym.lit];
        if PeekIs(COMMA) {
          NextToken();
        }
      }
      BindingsStep(names, errors, C(), at);
    }

    /** The fields of an object pattern: up to before its `}`, or given up. */
    method ParseFieldPatterns() returns (fields: seq<FieldPattern>, done: bool)
      requires Valid()
      modifies this
      ensures Valid()
      ensures R((fields, done), at, errors) == After(old(errors), FieldPatterns(C(), old(at)))
      decreases Left(C(), at), 0
    {
      hide C, Visible, Supplies, FieldPatterns, OneFieldPattern, AfterFields;
      fields := [];
      ghost var total := AfterFields(fields, errors, FieldPatterns(C(), at));
      AfterFieldsNone(errors, FieldPatterns(C(), at));
      while !PeekIs(RBRACE) && !PeekIs(EOF)
        invariant Valid() && at >= old(at)
        invariant total == AfterFields(fields, errors, FieldPatterns(C(), at))
        decreases Left(C(), at)
      {
        FieldPatternsStep(fields, errors, C(), at);
        NextToken();
        if !CurIs(IDENT) {
          errors := errors + [NoPatternField(cur.sym.typ)];
          return fields, false;
        }
        var field := ParseFieldPattern();
        fields := fields + [field];
        if PeekIs(COMMA) {
          NextToken();
        }
      }
      FieldPatternsStep(fields, errors, C(), at);
      done := true;
    }

    method ParseFieldPattern() returns (field: FieldPattern)
      requires Valid()
      modifies this
      ensures Valid()
      ensures R(field, at, errors) == After(old(errors), OneFieldPattern(C(), old(at)))
      decreases Left(C(), at), 0
    {
      hide C, Visible, Supplies, Grammar.ParsePattern;
      var name := cur.sym.lit;
      if !PeekIs(COLON) {
        return FieldPattern(name, None);
      }
      NextToken();
      NextToken();
      var sub := ParsePattern();
      field := FieldPattern(name, Some(sub));
    }

    method ParseLambda() returns (e: Expr)
      requires Valid() && at < |C().toks|
      modifies this
      ensures Valid()
      ensures R(e, at, errors) == After(old(errors), Grammar.ParseLambda(C(), old(at)))
      decreases Left(C(), at), 1
    {
      hide C, Visible, Supplies, Grammar.ParseFnParams, OptionalType, LambdaBody;
      var ok := ExpectPeek(LPAREN);
      if !ok {
        return Missing;
      }
      var params := ParseFnParams();
      var returnType := ParseOptionalType(ARROW);
      var body := ParseLambdaBody();
      e := if body.Some? then Lambda(params, returnType, body.value) else Missing;
    }

    /** `=> expression` or a block. */
    method ParseLambdaBody() returns (body: Option<seq<Stmt>>)
      requires Valid()
      modifies this
      ensures Valid()
      ensures R(body, at, errors) == After(old(errors), LambdaBody(C(), old(at)))
      decreases Left(C(), at), 1
    {
      hide C, Visible, Supplies, Grammar.ParseExpression, BlockBody;
      if PeekIs(FAT_ARROW) {
        NextToken();
        NextToken();
        var value := ParseExpression(LOWEST);
        return Some([ExprStmt(value)]);
      }
      var ok := ExpectPeek(LBRACE);
      if !ok {
        return None;
      }
      var stmts := ParseBlockBody();
      body := Some(stmts);
    }

    method ParseHandle() returns (e: Expr)
      requires Valid() && at < |C().toks|
      modifies this
      ensures Valid()
      ensures R(e, at, errors) == After(old(errors), Grammar.ParseHandle(C(), old(at)))
      decreases Left(C(), at), 1
    {
      hide C, Visible, Supplies, HandleUsing;
      var ok := ExpectPeek(LPAREN);
      if !ok {
        return Missing;
      }
      NextToken();
      var effect := cur.sym.lit;
      ok := ExpectPeek(RPAREN);
      if !ok {
        return Missing;
      }
      e := ParseHandleUsing(effect);
    }

    /** `{ using: handler } in { body }` */
    method ParseHandleUsing(effect: string) returns (e: Expr)
      requires Valid()
      modifies this
      ensures Valid()
      ensures R(e, at, errors) == After(old(errors), HandleUsing(C(), old(at), effect))
      decreases Left(C(), at), 1
    {
      hide C, Visible, Supplies, Grammar.ParseExpression, HandleTail;
      var ok := ExpectPeek(LBRACE);
      if !ok {
        return Missing;
      }
      NextToken();
      if cur.sym.lit != "using" {
        errors := errors + [NoUsing(cur.sym.lit)];
        return Missing;
      }
      ok := ExpectPeek(COLON);
      if !ok {
        return Missing;
      }
      NextToken();
      var handler := ParseExpression(LOWEST);
      e := ParseHandleTail(effect, handler);
    }

    /** `} in { body }` */
    method ParseHandleTail(effect: string, handler: Expr) returns (e: Expr)
      requires Valid()
      modifies this
      ensures Valid()
      ensures R(e, at, errors) == After(old(errors), HandleTail(C(), old(at), effect, handler))
      decreases Left(C(), at), 0
    {
      hide C, Visible, Supplies, BlockBody;
      var ok := ExpectPeek(RBRACE);
      if !ok {
        return Missing;
      }
      ok := ExpectPeek(IN);
      if !ok {
        return Missing;
      }
      ok := ExpectPeek(LBRACE);
      if !ok {
        return Missing;
      }
      var body := ParseBlockBody();
      e := Handle(effect, handler, body);
    }

    method ParseForIn() returns (e: Expr)
      requires Valid() && at < |C().toks|
      modifies this
      ensures Valid()
      ensures R(e, at, errors) == After(old(errors), Grammar.ParseForIn(C(), old(at)))
      decreases Left(C(), at), 1
    {
      hide C, Visible, Supplies, Grammar.ParseExpression, BlockBody;
      var ok := ExpectPeek(IDENT);
      if !ok {
        return Missing;
      }
      var variable := cur.sym.lit;
      ok := ExpectPeek(IN);
      if !ok {
        return Missing;
      }
      NextToken();
      var iterable := ParseExpression(LOWEST);
      ok := ExpectPeek(LBRACE);
      if !ok {
        return Missing;
      }
      var body := ParseBlockBody();
      e := ForIn(variable, iterable, body);
    }

    method ParseWhile() returns (e: Expr)
      requires Valid() && at < |C().toks|
      modifies this
      ensures Valid()
      ensures R(e, at, errors) == After(old(errors), Grammar.ParseWhile(C(), old(at)))
      decreases Left(C(), at), 1
    {
      hide C, Visible, Supplies, Grammar.ParseExpression, BlockBody;
      NextToken();
      var cond := ParseExpression(LOWEST);
      var ok := ExpectPeek(LBRACE);
      if !ok {
        return Missing;
      }
      var body := ParseBlockBody();
      e := While(cond, body);
    }

    // ---------- types and parameters ----------

    /** An optional type after `mark`. */
    method ParseOptionalType(mark: TokenType) returns (ty: string)
      requires Valid()
      modifies this
      ensures Valid()
      ensures R(ty, at, errors) == After(old(errors), OptionalType(C(), old(at), mark))
      decreases Left(C(), at), 1
    {
      hide C, Visible, Supplies, Grammar.ParseTypeExpr;
      ty := "";
      if PeekIs(mark) {
        NextToken();
        NextToken();
        ty := ParseTypeExpr();
      }
    }

    method ParseTypeExpr() returns (ty: string)
      requires Valid()
      modifies this
      ensures Valid()
      ensures R(ty, at, errors) == After(old(errors), Grammar.ParseTypeExpr(C(), old(at)))
      decreases Left(C(), at), 0, 1
    {
      hide C, Visible, Supplies, DottedName, TypeArgs;
      if CurIs(LBRACKET) {
        NextToken();
        var elem := ParseTypeExpr();
        if PeekIs(RBRACKET) {
          NextToken();
        }
        return "[" + elem + "]";
      }
      ty := ParseDottedName();
      if PeekIs(LBRACKET) {
        NextToken();
        NextToken();
        var arg := ParseTypeExpr();
        var args := ParseTypeArgs(arg);
        if PeekIs(RBRACKET) {
          NextToken();
        }
        ty := ty + "[" + args + "]";
      }
    }

    /** The type arguments after the first. */
    method ParseTypeArgs(first: string) returns (args: string)
      requires Valid()
      modifies this
      ensures Valid()
      ensures R(args, at, errors) == After(old(errors), TypeArgs(C(), old(at), first))
      decreases Left(C(), at), 0
    {
      hide C, Visible, Supplies, Grammar.ParseTypeExpr;
      args := first;
      ghost var total := TypeArgs(C(), at, args);
      while PeekIs(COMMA)
        invariant Valid() && at >= old(at) && errors == old(errors)
        invariant total == TypeArgs(C(), at, args)
        decreases Left(C(), at)
      {
        NextToken();
        NextToken();
        var arg := ParseTypeExpr();
        args := args + ", " + arg;
      }
    }

    /** An optional `= expression`. */
    method ParseDefault() returns (default: Option<Expr>)
      requires Valid()
      modifies this
      ensures Valid()
      ensures R(default, at, errors) == After(old(errors), DefaultValue(C(), old(at)))
      decreases Left(C(), at), 0
    {
      hide C, Visible, Supplies, Grammar.ParseExpression;
      default := None;
      if PeekIs(ASSIGN) {
        NextToken();
        NextToken();
        var value := ParseExpression(LOWEST);
        default := Some(value);
      }
    }

    /** An optional `: [capability] type`. */
    method ParseAnnotated() returns (capability: string, ty: string)
      requires Valid()
      modifies this
      ensures Valid()
      ensures R((capability, ty), at, errors) == After(old(errors), TypeAnnotation(C(), old(at)))
      decreases Left(C(), at), 0, 2
    {
      hide C, Visible, Supplies, Grammar.ParseTypeExpr;
      capability, ty := "", "";
      if PeekIs(COLON) {
        NextToken();
        NextToken();
        if IsCapability(cur.sym.typ) {
          capability := cur.sym.lit;
          NextToken();
        }
        ty := ParseTypeExpr();
      }
    }

    method ParseFnParams() returns (params: seq<Param>)
      requires Valid() && at < |C().toks|
      modifies this
      ensures Valid()
      ensures R(params, at, errors) == After(old(errors), Grammar.ParseFnParams(C(), old(at)))
      decreases Left(C(), at), 1
    {
      hide C, Visible, Supplies, Params;
      params := [];
      if PeekIs(RPAREN) {
        NextToken();
        return;
      }
      NextToken();
      params := ParseParams();
      var ok := ExpectPeek(RPAREN);
      if !ok {
        params := [];
      }
    }

    /** The parameter loop, the first parameter already current. */
    method ParseParams() returns (params: seq<Param>)
      requires Valid()
      modifies this
      ensures Valid()
      ensures R(params, at, errors) == After(old(errors), Params(C(), old(at)))
      decreases Left(C(), at), 4
    {
      hide C, Visible, Supplies, Params, Grammar.ParseParam;
      params := [];
      ghost var total := AfterMany(params, errors, Params(C(), at));
      AfterManyNone(errors, Params(C(), at));
      while true
        invariant Valid() && at >= old(at)
        invariant total == AfterMany(params, errors, Params(C(), at))
        decreases Left(C(), at)
      {
        ParamsUnfold(C(), at);
        ghost var p := Grammar.ParseParam(C(), at);
        AfterManyStep(params, errors, p.v, p.errs, Params(C(), p.at + 2));
        AfterManyLast(params, errors, p);
        var param := ParseParam();
        params := params + [param];
        if !PeekIs(COMMA) {
          return;
        }
        NextToken();
        NextToken();
      }
    }

    method ParseParam() returns (param: Param)
      requires Valid()
      modifies this
      ensures Valid()
      ensures R(param, at, errors) == After(old(errors), Grammar.ParseParam(C(), old(at)))
      decreases Left(C(), at), 3
    {
      hide C, Visible, Supplies, TypeAnnotation, DefaultValue;
      if CurIs(SELF) {
        return Param("self", "", "", None);
      }
      var name := cur.sym.lit;
      var capability, ty := ParseAnnotated();
      var default := ParseDefault();
      param := Param(name, capability, ty, default);
    }

    // ---------- statements ----------

    method ParseStatement() returns (s: Stmt)
      requires Valid()
      modifies this
      ensures Valid()
      ensures R(s, at, errors) == After(old(errors), Grammar.ParseStatement(C(), old(at)))
      decreases Left(C(), at), 5
    {
      hide C, Visible, Supplies, Grammar.ParseLet, Grammar.ParseMut, Grammar.ParseReturn, Grammar.ParseFnDecl,
        Grammar.ParseDecl, Grammar.ParseExpressionStatement;
      var t := cur.sym.typ;
      if t == LET {
        s := ParseLet();
      } else if t == MUT {
        s := ParseMut();
      } else if t == RETURN {
        s := ParseReturn();
      } else if t == BREAK {
        s := Break;
      } else if t == CONTINUE {
        s := Continue;
      } else if t == FN && PeekIs(IDENT) {
        s := ParseFnDecl();
      } else if IsDecl(t) || (t == EFFECT && PeekIs(IDENT)) {
        s := ParseDecl();
      } else if t == EXPORT {
        NextToken();
        var inner := ParseStatement();
        s := Export(inner);
      } else {
        s := ParseExpressionStatement();
      }
    }

    method ParseExpressionStatement() returns (s: Stmt)
      requires Valid()
      modifies this
      ensures Valid()
      ensures R(s, at, errors) == After(old(errors), Grammar.ParseExpressionStatement(C(), old(at)))
      decreases Left(C(), at), 4
    {
      hide C, Visible, Supplies, Grammar.ParseExpression;
      var e := ParseExpression(LOWEST);
      SkipSemicolon();
      s := ExprStmt(e);
    }

    method ParseLet() returns (s: Stmt)
      requires Valid() && at < |C().toks|
      modifies this
      ensures Valid()
      ensures R(s, at, errors) == After(old(errors), Grammar.ParseLet(C(), old(at)))
      decreases Left(C(), at), 1
    {
      hide C, Visible, Supplies, DestructureNames, Grammar.ParseExpression, Binding;
      if PeekIs(LBRACKET) {
        s := ParseLetDestructure();
      } else {
        var binding := ParseBinding();
        s := if binding.Some? then Let(binding.value.0, binding.value.1, binding.value.2, binding.value.3) else NoStmt;
      }
    }

    method ParseMut() returns (s: Stmt)
      requires Valid() && at < |C().toks|
      modifies this
      ensures Valid()
      ensures R(s, at, errors) == After(old(errors), Grammar.ParseMut(C(), old(at)))
      decreases Left(C(), at), 1
    {
      hide C, Visible, Supplies, Binding;
      var binding := ParseBinding();
      s := if binding.Some? then Mut(binding.value.0, binding.value.1, binding.value.2, binding.value.3) else NilStmt;
    }

    /** `name [: [capability] type] = value [;]` */
    method ParseBinding() returns (binding: Option<(string, string, string, Expr)>)
      requires Valid() && at < |C().toks|
      modifies this
      ensures Valid()
      ensures R(binding, at, errors) == After(old(errors), Binding(C(), old(at)))
      decreases Left(C(), at), 0
    {
      hide C, Visible, Supplies, TypeAnnotation, Grammar.ParseExpression;
      var ok := ExpectPeek(IDENT);
      if !ok {
        return None;
      }
      var name := cur.sym.lit;
      var capability, ty := ParseAnnotated();
      ok := ExpectPeek(ASSIGN);
      if !ok {
        return None;
      }
      NextToken();
      var value := ParseExpression(LOWEST);
      SkipSemicolon();
      binding := Some((name, capability, ty, value));
    }

    method ParseLetDestructure() returns (s: Stmt)
      requires Valid() && at < |C().toks| && PeekIs(LBRACKET)
      modifies this
      ensures Valid()
      ensures R(s, at, errors) == After(old(errors), Grammar.ParseLet(C(), old(at)))
      decreases Left(C(), at), 0
    {
      hide C, Visible, Supplies, DestructureNames, Grammar.ParseExpression, Binding;
      NextToken();
      NextToken();
      var names, rest := ParseDestructureNames();
      var ok := ExpectPeek(ASSIGN);
      if !ok {
        return NilStmt;
      }
      NextToken();
      var value := ParseExpression(LOWEST);
      SkipSemicolon();
      s := LetDestructure(names, rest, value);
    }

    /** The names of a list destructuring, up to its `]`. */
    method ParseDestructureNames() returns (names: seq<string>, rest: Option<(string, nat)>)
      requires Valid()
      modifies this
      ensures Valid()
      ensures R((names, rest), at, errors) == After(old(errors), DestructureNames(C(), old(at), 0))
      decreases Left(C(), at), 0
    {
      hide C, Visible, Supplies, DestructureNames, AfterNames;
      names, rest := [], None;
      ghost var total := AfterNames(names, rest, errors, DestructureNames(C(), at, 0));
      AfterNamesNone(errors, DestructureNames(C(), at, 0));
      while !CurIs(RBRACKET) && !CurIs(EOF)
        invariant Valid() && at >= old(at) && errors == old(errors)
        invariant total == AfterNames(names, rest, errors, DestructureNames(C(), at, |names|))
        decreases Left(C(), at)
      {
        DestructureStep(names, rest, errors, C(), at);
        if CurIs(SPREAD) {
          NextToken();
          rest := Some((cur.sym.lit, |names|));
        } else {
          names := names + [cur.sym.lit];
        }
        if PeekIs(COMMA) {
          NextToken();
        }
        NextToken();
      }
      DestructureStep(names, rest, errors, C(), at);
    }

    method ParseReturn() returns (s: Stmt)
      requires Valid() && at < |C().toks|
      modifies this
      ensures Valid()
      ensures R(s, at, errors) == After(old(errors), Grammar.ParseReturn(C(), old(at)))
      decreases Left(C(), at), 1
    {
      hide C, Visible, Supplies, Grammar.ParseExpression;
      NextToken();
      var value := ParseExpression(LOWEST);
      SkipSemicolon();
      s := Return(value);
    }

    method ParseFnDecl() returns (s: Stmt)
      requires Valid() && at < |C().toks|
      modifies this
      ensures Valid()
      ensures R(s, at, errors) == After(old(errors), Grammar.ParseFnDecl(C(), old(at)))
      decreases Left(C(), at), 0
    {
      hide C, Visible, Supplies, Grammar.ParseFnParams, OptionalType, OptionalEffects, BlockBody;
      NextToken();
      var name := cur.sym.lit;
      var ok := ExpectPeek(LPAREN);
      if !ok {
        return NilStmt;
      }
      var params := ParseFnParams();
      var returnType := ParseOptionalType(ARROW);
      var effects := ParseOptionalEffects();
      ok := ExpectPeek(LBRACE);
      if !ok {
        return NilStmt;
      }
      var body := ParseBlockBody();
      s := FnDecl(name, params, returnType, effects, body);
    }

    /** An optional `effect [names]`. */
    method ParseOptionalEffects() returns (effects: seq<string>)
      requires Valid()
      modifies this
      ensures Valid()
      ensures R(effects, at, errors) == After(old(errors), OptionalEffects(C(), old(at)))
      decreases Left(C(), at), 0
    {
      hide C, Visible, Supplies, Grammar.ParseEffectList;
      effects := [];
      if PeekIs(EFFECT) {
        NextToken();
        effects := ParseEffectList();
      }
    }

    method ParseEffectList() returns (effects: seq<string>)
      requires Valid()
      modifies this
      ensures Valid()
      ensures R(effects, at, errors) == After(old(errors), Grammar.ParseEffectList(C(), old(at)))
      decreases Left(C(), at), 0
    {
      hide C, Visible, Supplies, NamesUntil;
      effects := [];
      var ok := ExpectPeek(LBRACKET);
      if ok {
        NextToken();
        effects := ParseNames(RBRACKET);
      }
    }

    /** Names up to the closing token. */
    method ParseNames(end: TokenType) returns (names: seq<string>)
      requires Valid()
      modifies this
      ensures Valid()
      ensures R(names, at, errors) == After(old(errors), NamesUntil(C(), old(at), end))
      decreases Left(C(), at), 0
    {
      hide C, Visible, Supplies, NamesUntil, AfterMany;
      names := [];
      ghost var total := AfterMany(names, errors, NamesUntil(C(), at, end));
      AfterManyNone(errors, NamesUntil(C(), at, end));
      while !CurIs(end) && !CurIs(EOF)
        invariant Valid() && at >= old(at) && errors == old(errors)
        invariant total == AfterMany(names, errors, NamesUntil(C(), at, end))
        decreases Left(C(), at)
      {
        NamesStep(names, errors, C(), at, end);
        names := names + [cur.sym.lit];
        if PeekIs(COMMA) {
          NextToken();
        }
        NextToken();
      }
      NamesStep(names, errors, C(), at, end);
    }

    // ---------- declarations ----------

    method ParseDecl() returns (s: Stmt)
      requires Valid() && at < |C().toks|
      modifies this
      ensures Valid()
      ensures R(s, at, errors) == After(old(errors), Grammar.ParseDecl(C(), old(at)))
      decreases Left(C(), at), 2
    {
      hide C, Visible, Supplies, Grammar.ParseTypeAlias, Grammar.ParseImport, DeclBody;
      var t := cur.sym.typ;
      if t == TYPE {
        s := ParseTypeAlias();
        return;
      }
      if t == IMPORT {
        s := ParseImport();
        return;
      }
      var ok := ExpectPeek(IDENT);
      if !ok {
        return NilStmt;
      }
      var name := cur.sym.lit;
      if t == IMPL && PeekIs(FOR) {
        NextToken();
        ok := ExpectPeek(IDENT);
        if !ok {
          return NilStmt;
        }
        s := ParseDeclBody(t, cur.sym.lit, [Text("protocol", name)]);
      } else {
        s := ParseDeclBody(t, name, []);
      }
    }

    method ParseDeclBody(t: TokenType, name: string, parts: seq<Part>) returns (s: Stmt)
      requires Valid()
      modifies this
      ensures Valid()
      ensures R(s, at, errors) == After(old(errors), DeclBody(C(), old(at), t, name, parts))
      decreases Left(C(), at), 1
    {
      hide C, Visible, Supplies, Members;
      var ok := ExpectPeek(LBRACE);
      if !ok {
        return NilStmt;
      }
      NextToken();
      var members := ParseMembers(t);
      s := if members.Some? then Decl(t, name, parts + members.value) else NilStmt;
    }

    /** The loop of a declaration, up to its `}`. */
    method ParseMembers(t: TokenType) returns (parts: Option<seq<Part>>)
      requires Valid()
      modifies this
      ensures Valid()
      ensures R(parts, at, errors) == After(old(errors), Members(C(), old(at), t))
      decreases Left(C(), at), 4
    {
      hide C, Visible, Supplies, Members, Member, AfterSome;
      var xs := [];
      ghost var total := AfterSome(xs, errors, Members(C(), at, t));
      AfterSomeNone(errors, Members(C(), at, t));
      while !CurIs(RBRACE) && !CurIs(EOF)
        invariant Valid() && at >= old(at)
        invariant total == AfterSome(xs, errors, Members(C(), at, t))
        decreases Left(C(), at)
      {
        MembersStep(xs, errors, C(), at, t);
        var turn := ParseMember(t);
        if turn == GiveUp {
          return None;
        }
        if turn == Cut {
          return Some(xs);
        }
        xs := xs + turn.parts;
        NextToken();
      }
      MembersStep(xs, errors, C(), at, t);
      parts := Some(xs);
    }

    method ParseMember(t: TokenType) returns (turn: Turn)
      requires Valid() && at < |C().toks|
      modifies this
      ensures Valid()
      ensures R(turn, at, errors) == After(old(errors), Member(C(), old(at), t))
      decreases Left(C(), at), 3
    {
      hide C, Visible, Supplies, ObjectMember, VariantMember, ActorMember, StageMember, ToolMember,
        AgentMember, McpMember, ServiceMember, ProtocolMember, ImplMember, OperationMember;
      if t == OBJECT {
        turn := ParseObjectMember();
      } else if t == ENUM {
        turn := ParseVariant();
      } else if t == ACTOR {
        turn := ParseActorMember();
      } else if t == PIPELINE {
        turn := ParseStage();
      } else if t == TOOL {
        turn := ParseToolMember();
      } else if t == AGENT {
        turn := ParseAgentMember();
      } else if t == MCP {
        turn := ParseMcpMember();
      } else if t == SERVICE {
        turn := ParseServiceMember();
      } else if t == PROTOCOL {
        turn := ParseProtocolMember();
      } else if t == IMPL {
        turn := ParseImplMember();
      } else {
        turn := ParseOperation();
      }
    }

    method ParseObjectMember() returns (turn: Turn)
      requires Valid() && at < |C().toks|
      modifies this
      ensures Valid()
      ensures R(turn, at, errors) == After(old(errors), ObjectMember(C(), old(at)))
      decreases Left(C(), at), 2
    {
      hide C, Visible, Supplies, FieldMember, Grammar.ParseTypeExpr;
      if !CurIs(DELEGATE) {
        var field := ParseField();
        return if field.Some? then Go([field.value]) else Cut;
      }
      var ok := ExpectPeek(IDENT);
      if !ok {
        return GiveUp;
      }
      var name := cur.sym.lit;
      ok := ExpectPeek(COLON);
      if !ok {
        return GiveUp;
      }
      NextToken();
      var ty := ParseTypeExpr();
      if PeekIs(COMMA) {
        NextToken();
      }
      turn := Go([Delegate(name, ty)]);
    }

    method ParseField() returns (field: Option<Part>)
      requires Valid() && at < |C().toks|
      modifies this
      ensures Valid()
      ensures R(field, at, errors) == After(old(errors), FieldMember(C(), old(at)))
      decreases Left(C(), at), 1
    {
      hide C, Visible, Supplies, Grammar.ParseTypeExpr, DefaultValue, Grammar.ParseAnnotation;
      var name := cur.sym.lit;
      var ok := ExpectPeek(COLON);
      if !ok {
        return None;
      }
      NextToken();
      var ty := ParseTypeExpr();
      var default := ParseDefault();
      var annotation := ParseAnnotation();
      if PeekIs(COMMA) {
        NextToken();
      }
      field := Some(Field(name, ty, default, annotation));
    }

    /** An optional `@name[(arguments)]`. */
    method ParseAnnotation() returns (annotation: Option<Annotation>)
      requires Valid()
      modifies this
      ensures Valid()
      ensures R(annotation, at, errors) == After(old(errors), Grammar.ParseAnnotation(C(), old(at)))
      decreases Left(C(), at), 0
    {
      hide C, Visible, Supplies, Grammar.ParseExpressionList;
      if !PeekIs(AT) {
        return None;
      }
      NextToken();
      NextToken();
      var name := cur.sym.lit;
      var args := [];
      if PeekIs(LPAREN) {
        NextToken();
        args := ParseExpressionList(RPAREN);
      }
      annotation := Some(Annotation(name, args));
    }

    /** The fields of a block, up to its `}` or the first without a colon. */
    method ParseFieldList() returns (fields: seq<Part>)
      requires Valid()
      modifies this
      ensures Valid()
      ensures R(fields, at, errors) == After(old(errors), FieldList(C(), old(at)))
      decreases Left(C(), at), 2
    {
      hide C, Visible, Supplies, FieldList, FieldMember, AfterMany;
      fields := [];
      ghost var total := AfterMany(fields, errors, FieldList(C(), at));
      AfterManyNone(errors, FieldList(C(), at));
      while !CurIs(RBRACE) && !CurIs(EOF)
        invariant Valid() && at >= old(at)
        invariant total == AfterMany(fields, errors, FieldList(C(), at))
        decreases Left(C(), at)
      {
        FieldListStep(fields, errors, C(), at);
        var field := ParseField();
        if field.None? {
          return;
        }
        fields := fields + [field.value];
        NextToken();
      }
      FieldListStep(fields, errors, C(), at);
    }

    method ParseFieldBlock(key: string) returns (turn: Turn)
      requires Valid()
      modifies this
      ensures Valid()
      ensures R(turn, at, errors) == After(old(errors), FieldBlock(C(), old(at), key))
      decreases Left(C(), at), 1
    {
      hide C, Visible, Supplies, FieldList;
      var ok := ExpectPeek(LBRACE);
      if !ok {
        return GiveUp;
      }
      NextToken();
      var fields := ParseFieldList();
      turn := Go([Fields(key, fields)]);
    }

    method ParseVariant() returns (turn: Turn)
      requires Valid() && at < |C().toks|
      modifies this
      ensures Valid()
      ensures R(turn, at, errors) == After(old(errors), VariantMember(C(), old(at)))
      decreases Left(C(), at), 2
    {
      hide C, Visible, Supplies, VariantFields;
      var name := cur.sym.lit;
      var payload := [];
      if PeekIs(LPAREN) {
        NextToken();
        NextToken();
        payload := ParseVariantFields();
      }
      if PeekIs(COMMA) {
        NextToken();
      }
      turn := Go([Variant(name, payload)]);
    }

    /** The payload of a variant, up to its `)`. */
    method ParseVariantFields() returns (fields: seq<(string, string)>)
      requires Valid()
      modifies this
      ensures Valid()
      ensures R(fields, at, errors) == After(old(errors), VariantFields(C(), old(at)))
      decreases Left(C(), at), 3
    {
      hide C, Visible, Supplies, VariantFields, OptionalType, AfterMany;
      fields := [];
      ghost var total := AfterMany(fields, errors, VariantFields(C(), at));
      AfterManyNone(errors, VariantFields(C(), at));
      while !CurIs(RPAREN) && !CurIs(EOF)
        invariant Valid() && at >= old(at) && errors == old(errors)
        invariant total == AfterMany(fields, errors, VariantFields(C(), at))
        decreases Left(C(), at)
      {
        VariantFieldsStep(fields, errors, C(), at);
        var name := cur.sym.lit;
        var ty := ParseOptionalType(COLON);
        fields := fields + [(name, ty)];
        if PeekIs(COMMA) {
          NextToken();
        }
        NextToken();
      }
      VariantFieldsStep(fields, errors, C(), at);
    }

    method ParseActorMember() returns (turn: Turn)
      requires Valid() && at < |C().toks|
      modifies this
      ensures Valid()
      ensures R(turn, at, errors) == After(old(errors), ActorMember(C(), old(at)))
      decreases Left(C(), at), 2
    {
      hide C, Visible, Supplies, OptionalType, DefaultValue, ReceiveBlock;
      if CurIsWord("state") {
        NextToken();
        var name := cur.sym.lit;
        var ty := ParseOptionalType(COLON);
        var default := ParseDefault();
        turn := Go([State(name, ty, default)]);
      } else if CurIs(RECEIVE) {
        var block := ParseReceiveBlock();
        turn := Go([block]);
      } else {
        turn := Go([]);
      }
    }

    method ParseReceiveBlock() returns (block: Part)
      requires Valid() && at < |C().toks|
      modifies this
      ensures Valid()
      ensures R(block, at, errors) == After(old(errors), ReceiveBlock(C(), old(at)))
      decreases Left(C(), at), 1
    {
      hide C, Visible, Supplies, OptionalParams, OptionalType, BlockBody;
      NextToken();
      var message := cur.sym.lit;
      var params := ParseOptionalParams();
      var returnType := ParseOptionalType(ARROW);
      var ok := ExpectPeek(LBRACE);
      if !ok {
        return Receive(message, params, returnType, None);
      }
      var body := ParseBlockBody();
      block := Receive(message, params, returnType, Some(body));
    }

    /** An optional parameter list. */
    method ParseOptionalParams() returns (params: seq<Param>)
      requires Valid()
      modifies this
      ensures Valid()
      ensures R(params, at, errors) == After(old(errors), OptionalParams(C(), old(at)))
      decreases Left(C(), at), 0
    {
      hide C, Visible, Supplies, Grammar.ParseFnParams;
      params := [];
      if PeekIs(LPAREN) {
        NextToken();
        params := ParseFnParams();
      }
    }

    method ParseStage() returns (turn: Turn)
      requires Valid() && at < |C().toks|
      modifies this
      ensures Valid()
      ensures R(turn, at, errors) == After(old(errors), StageMember(C(), old(at)))
      decreases Left(C(), at), 2
    {
      hide C, Visible, Supplies, Grammar.ParseExpression;
      var kind := StageKind(cur.sym);
      if kind.None? {
        return Go([]);
      }
      var ok := ExpectPeek(COLON);
      if !ok {
        return GiveUp;
      }
      NextToken();
      var e := ParseExpression(LOWEST);
      turn := Go([Stage(kind.value, e)]);
    }

    /** `: expression` under a key. */
    method ParseText(key: string) returns (turn: Turn)
      requires Valid() && at < |C().toks|
      modifies this
      ensures Valid()
      ensures R(turn, at, errors) == After(old(errors), TextMember(C(), old(at), key))
      decreases Left(C(), at), 1
    {
      hide C, Visible, Supplies, Grammar.ParseExpression;
      var ok := ExpectPeek(COLON);
      if !ok {
        return GiveUp;
      }
      NextToken();
      var e := ParseExpression(LOWEST);
      turn := Go(TextOf(key, e));
    }

    /** `: .name` under a key. */
    method ParseDotName(key: string) returns (turn: Turn)
      requires Valid()
      modifies this
      ensures Valid()
      ensures R(turn, at, errors) == After(old(errors), DotMember(C(), old(at), key))
      decreases Left(C(), at), 0
    {
      hide C, Visible, Supplies;
      var ok := ExpectPeek(COLON);
      if !ok {
        return GiveUp;
      }
      ok := ExpectPeek(DOT);
      if !ok {
        return GiveUp;
      }
      NextToken();
      turn := Go([Text(key, cur.sym.lit)]);
    }

    /** `: [` */
    method ParseListStart() returns (ok: bool)
      requires Valid()
      modifies this
      ensures Valid()
      ensures R(ok, at, errors) == After(old(errors), ListStart(C(), old(at)))
      decreases Left(C(), at), 0
    {
      hide C, Visible, Supplies;
      ok := ExpectPeek(COLON);
      if ok {
        ok := ExpectPeek(LBRACKET);
      }
    }

    method ParseTools() returns (turn: Turn)
      requires Valid()
      modifies this
      ensures Valid()
      ensures R(turn, at, errors) == After(old(errors), ToolsMember(C(), old(at)))
      decreases Left(C(), at), 1
    {
      hide C, Visible, Supplies, ListStart, ToolNames;
      var ok := ParseListStart();
      if !ok {
        return GiveUp;
      }
      NextToken();
      var names := ParseToolNames();
      turn := Go([Names("tools", names)]);
    }

    /** The names of a tool list, up to its `]`. */
    method ParseToolNames() returns (names: seq<string>)
      requires Valid()
      modifies this
      ensures Valid()
      ensures R(names, at, errors) == After(old(errors), ToolNames(C(), old(at)))
      decreases Left(C(), at), 0
    {
      hide C, Visible, Supplies, ToolNames, AfterMany;
      names := [];
      ghost var total := AfterMany(names, errors, ToolNames(C(), at));
      AfterManyNone(errors, ToolNames(C(), at));
      while !CurIs(RBRACKET) && !CurIs(EOF)
        invariant Valid() && at >= old(at) && errors == old(errors)
        invariant total == AfterMany(names, errors, ToolNames(C(), at))
        decreases Left(C(), at)
      {
        ToolNamesStep(names, errors, C(), at);
        if CurIs(IDENT) || CurIs(TOOL) {
          names := names + [cur.sym.lit];
        }
        NextToken();
        if CurIs(COMMA) {
          NextToken();
        }
      }
      ToolNamesStep(names, errors, C(), at);
    }

    method ParseToolMember() returns (turn: Turn)
      requires Valid() && at < |C().toks|
      modifies this
      ensures Valid()
      ensures R(turn, at, errors) == After(old(errors), ToolMember(C(), old(at)))
      decreases Left(C(), at), 2
    {
      hide C, Visible, Supplies, TextMember, DotMember, FieldBlock, OutputType, Grammar.ParseEffectList,
        FnMember;
      if CurIsWord("description") {
        turn := ParseText("description");
      } else if CurIsWord("capability") {
        turn := ParseDotName("capability");
      } else if CurIsWord("input") {
        turn := ParseFieldBlock("input");
      } else if CurIsWord("output") {
        if PeekIs(LBRACE) {
          turn := ParseFieldBlock("output");
        } else {
          turn := ParseOutputType();
        }
      } else if CurIs(EFFECT) {
        var ok := ExpectPeek(COLON);
        if !ok {
          return GiveUp;
        }
        var effects := ParseEffectList();
        turn := Go([Names("effects", effects)]);
      } else if CurIs(FN) {
        turn := ParseFnMember();
      } else {
        turn := Go([]);
      }
    }

    method ParseOutputType() returns (turn: Turn)
      requires Valid() && at < |C().toks|
      modifies this
      ensures Valid()
      ensures R(turn, at, errors) == After(old(errors), OutputType(C(), old(at)))
      decreases Left(C(), at), 1
    {
      hide C, Visible, Supplies, Grammar.ParseTypeExpr;
      var ok := ExpectPeek(COLON);
      if !ok {
        return GiveUp;
      }
      NextToken();
      var ty := ParseTypeExpr();
      turn := Go([Text("output", ty)]);
    }

    method ParseFnMember() returns (turn: Turn)
      requires Valid() && at < |C().toks|
      modifies this
      ensures Valid()
      ensures R(turn, at, errors) == After(old(errors), FnMember(C(), old(at)))
      decreases Left(C(), at), 1
    {
      hide C, Visible, Supplies, Grammar.ParseFnDecl;
      var fn := ParseFnDecl();
      turn := Go([Function(fn)]);
    }

    method ParseAgentMember() returns (turn: Turn)
      requires Valid() && at < |C().toks|
      modifies this
      ensures Valid()
      ensures R(turn, at, errors) == After(old(errors), AgentMember(C(), old(at)))
      decreases Left(C(), at), 2
    {
      hide C, Visible, Supplies, TextMember, ToolsMember, FieldBlock, Settings;
      if CurIsWord("model") {
        turn := ParseText("model");
      } else if CurIsWord("system") {
        turn := ParseText("system");
      } else if CurIsWord("tools") {
        turn := ParseTools();
      } else if CurIsWord("output") {
        turn := ParseFieldBlock("output");
      } else if CurIsWord("config") {
        var ok := ExpectPeek(LBRACE);
        if !ok {
          return GiveUp;
        }
        NextToken();
        var settings := ParseSettings();
        turn := if settings.Some? then Go(settings.value) else GiveUp;
      } else {
        turn := Go([]);
      }
    }

    /** The settings of a `config` block, up to its `}`. */
    method ParseSettings() returns (parts: Option<seq<Part>>)
      requires Valid()
      modifies this
      ensures Valid()
      ensures R(parts, at, errors) == After(old(errors), Settings(C(), old(at)))
      decreases Left(C(), at), 0
    {
      hide C, Visible, Supplies, Settings, Grammar.ParseExpression, AfterSome, SettingOf;
      var xs := [];
      ghost var total := AfterSome(xs, errors, Settings(C(), at));
      AfterSomeNone(errors, Settings(C(), at));
      while !CurIs(RBRACE) && !CurIs(EOF)
        invariant Valid() && at >= old(at)
        invariant total == AfterSome(xs, errors, Settings(C(), at))
        decreases Left(C(), at)
      {
        SettingsStep(xs, errors, C(), at);
        var key := cur.sym.lit;
        var ok := ExpectPeek(COLON);
        if !ok {
          return None;
        }
        NextToken();
        var e := ParseExpression(LOWEST);
        xs := xs + SettingOf(key, e);
        NextToken();
        if CurIs(COMMA) {
          NextToken();
        }
      }
      SettingsStep(xs, errors, C(), at);
      parts := Some(xs);
    }

    method ParseMcpMember() returns (turn: Turn)
      requires Valid() && at < |C().toks|
      modifies this
      ensures Valid()
      ensures R(turn, at, errors) == After(old(errors), McpMember(C(), old(at)))
      decreases Left(C(), at), 2
    {
      hide C, Visible, Supplies, TextMember, ToolsMember, ListStart, Resources, AuthMember, DotMember;
      if CurIsWord("name") {
        turn := ParseText("name");
      } else if CurIsWord("version") {
        turn := ParseText("version");
      } else if CurIsWord("tools") {
        turn := ParseTools();
      } else if CurIsWord("resources") {
        var ok := ParseListStart();
        if !ok {
          return GiveUp;
        }
        NextToken();
        var resources := ParseResources();
        turn := Go(resources);
      } else if CurIsWord("auth") {
        turn := ParseAuth();
      } else if CurIsWord("transport") {
        turn := ParseDotName("transport");
      } else {
        turn := Go([]);
      }
    }

    /** The resources of a server, up to their `]`. */
    method ParseResources() returns (parts: seq<Part>)
      requires Valid()
      modifies this
      ensures Valid()
      ensures R(parts, at, errors) == After(old(errors), Resources(C(), old(at)))
      decreases Left(C(), at), 2
    {
      hide C, Visible, Supplies, Resources, OneResource, AfterMany, IsWordAt;
      parts := [];
      ghost var total := AfterMany(parts, errors, Resources(C(), at));
      AfterManyNone(errors, Resources(C(), at));
      while !CurIs(RBRACKET) && !CurIs(EOF)
        invariant Valid() && at >= old(at)
        invariant total == AfterMany(parts, errors, Resources(C(), at))
        decreases Left(C(), at)
      {
        ResourcesStep(parts, errors, C(), at);
        if CurIsWord("Resource") {
          var resource := ParseResource();
          parts := parts + [resource];
        }
        NextToken();
        if CurIs(COMMA) {
          NextToken();
        }
      }
      ResourcesStep(parts, errors, C(), at);
    }

    method ParseResource() returns (part: Part)
      requires Valid() && at < |C().toks|
      modifies this
      ensures Valid()
      ensures R(part, at, errors) == After(old(errors), OneResource(C(), old(at)))
      decreases Left(C(), at), 1
    {
      hide C, Visible, Supplies, Grammar.ParseExpression, ResourceArgs;
      NextToken();
      NextToken();
      NextToken();
      NextToken();
      var e := ParseExpression(LOWEST);
      var uri, content := ParseResourceArgs();
      part := Resource(Content(e, ""), uri, content);
    }

    /** The named arguments of a resource, up to its `)`. */
    method ParseResourceArgs() returns (uri: string, content: string)
      requires Valid()
      modifies this
      ensures Valid()
      ensures R((uri, content), at, errors) == After(old(errors), ResourceArgs(C(), old(at), "", ""))
      decreases Left(C(), at), 3
    {
      hide C, Visible, Supplies, ResourceArgs, WordArg;
      uri, content := "", "";
      ghost var total := After(errors, ResourceArgs(C(), at, uri, content));
      while !CurIs(RPAREN) && !CurIs(EOF)
        invariant Valid() && at >= old(at)
        invariant total == After(errors, ResourceArgs(C(), at, uri, content))
        decreases Left(C(), at)
      {
        ResourceArgsStep(errors, C(), at, uri, content);
        uri := ParseWordArg("uri", uri);
        content := ParseWordArg("content", content);
        NextToken();
      }
      ResourceArgsStep(errors, C(), at, uri, content);
    }

    method ParseWordArg(word: string, before: string) returns (text: string)
      requires Valid()
      modifies this
      ensures Valid()
      ensures R(text, at, errors) == After(old(errors), WordArg(C(), old(at), word, before))
      decreases Left(C(), at), 2
    {
      hide C, Visible, Supplies, Grammar.ParseExpression;
      text := before;
      if CurIsWord(word) {
        NextToken();
        NextToken();
        var e := ParseExpression(LOWEST);
        text := Content(e, before);
      }
    }

    method ParseAuth() returns (turn: Turn)
      requires Valid() && at < |C().toks|
      modifies this
      ensures Valid()
      ensures R(turn, at, errors) == After(old(errors), AuthMember(C(), old(at)))
      decreases Left(C(), at), 1
    {
      hide C, Visible, Supplies, DotMember, Args;
      turn := ParseDotName("auth");
      if !turn.Go? || !PeekIs(LPAREN) {
        return;
      }
      NextToken();
      if PeekIs(RPAREN) {
        NextToken();
        return;
      }
      NextToken();
      var args := ParseArgs();
      var ok := ExpectPeek(RPAREN);
      turn := if ok then Go(turn.parts + [AuthArgs(args)]) else GiveUp;
    }

    method ParseServiceMember() returns (turn: Turn)
      requires Valid() && at < |C().toks|
      modifies this
      ensures Valid()
      ensures R(turn, at, errors) == After(old(errors), ServiceMember(C(), old(at)))
      decreases Left(C(), at), 2
    {
      hide C, Visible, Supplies, RouteMember, TextMember, ListStart, Middlewares, TransportMember;
      if CurIs(IDENT) && IsHttpMethod(cur.sym.lit) {
        turn := ParseRoute();
      } else if CurIsWord("prefix") {
        turn := ParseText("prefix");
      } else if CurIsWord("middleware") {
        var ok := ParseListStart();
        if !ok {
          return GiveUp;
        }
        NextToken();
        var refs := ParseMiddlewares();
        turn := if refs.Some? then Go(refs.value) else GiveUp;
      } else if CurIsWord("transport") {
        turn := ParseTransport();
      } else {
        turn := Go([]);
      }
    }

    method ParseRoute() returns (turn: Turn)
      requires Valid() && at < |C().toks|
      modifies this
      ensures Valid()
      ensures R(turn, at, errors) == After(old(errors), RouteMember(C(), old(at)))
      decreases Left(C(), at), 1
    {
      hide C, Visible, Supplies, InlineHandler;
      var verb := cur.sym.lit;
      var ok := ExpectPeek(STRING_LIT);
      if !ok {
        return GiveUp;
      }
      var pattern := cur.sym.lit;
      ok := ExpectPeek(ARROW);
      if !ok {
        return GiveUp;
      }
      if PeekIs(FN) {
        NextToken();
        turn := ParseInlineHandler(verb, pattern);
      } else {
        ok := ExpectPeek(IDENT);
        turn := if ok then Go([Route(verb, pattern, cur.sym.lit, None)]) else GiveUp;
      }
    }

    method ParseInlineHandler(verb: string, pattern: string) returns (turn: Turn)
      requires Valid() && at < |C().toks|
      modifies this
      ensures Valid()
      ensures R(turn, at, errors) == After(old(errors), InlineHandler(C(), old(at), verb, pattern))
      decreases Left(C(), at), 1
    {
      hide C, Visible, Supplies, Grammar.ParseFnParams, OptionalType, BlockBody;
      var ok := ExpectPeek(LPAREN);
      if !ok {
        return GiveUp;
      }
      var params := ParseFnParams();
      var returnType := ParseOptionalType(ARROW);
      ok := ExpectPeek(LBRACE);
      if !ok {
        return GiveUp;
      }
      var body := ParseBlockBody();
      var fn := FnDecl("__inline_" + verb + "_" + pattern + "__", params, returnType, [], body);
      turn := Go([Route(verb, pattern, "", Some(fn))]);
    }

    /** The middleware list of a service, up to its `]`. */
    method ParseMiddlewares() returns (parts: Option<seq<Part>>)
      requires Valid()
      modifies this
      ensures Valid()
      ensures R(parts, at, errors) == After(old(errors), Middlewares(C(), old(at)))
      decreases Left(C(), at), 2
    {
      hide C, Visible, Supplies, Middlewares, MiddlewareRef, AfterSome;
      var xs := [];
      ghost var total := AfterSome(xs, errors, Middlewares(C(), at));
      AfterSomeNone(errors, Middlewares(C(), at));
      while !CurIs(RBRACKET) && !CurIs(EOF)
        invariant Valid() && at >= old(at)
        invariant total == AfterSome(xs, errors, Middlewares(C(), at))
        decreases Left(C(), at)
      {
        MiddlewaresStep(xs, errors, C(), at);
        var turn := ParseMiddleware();
        if !turn.Go? {
          return None;
        }
        xs := xs + turn.parts;
        NextToken();
        if CurIs(COMMA) {
          NextToken();
        }
      }
      MiddlewaresStep(xs, errors, C(), at);
      parts := Some(xs);
    }

    method ParseMiddleware() returns (turn: Turn)
      requires Valid() && at < |C().toks|
      modifies this
      ensures Valid()
      ensures R(turn, at, errors) == After(old(errors), MiddlewareRef(C(), old(at)))
      decreases Left(C(), at), 1
    {
      hide C, Visible, Supplies, Values;
      if !CurIs(IDENT) {
        return Go([]);
      }
      var name := cur.sym.lit;
      if !PeekIs(DOT) {
        return Go([Middleware(name, "", [])]);
      }
      NextToken();
      var ok := ExpectPeek(IDENT);
      if !ok {
        return GiveUp;
      }
      var call := cur.sym.lit;
      if !PeekIs(LPAREN) {
        return Go([Middleware(name, call, [])]);
      }
      NextToken();
      if PeekIs(RPAREN) {
        NextToken();
        return Go([Middleware(name, call, [])]);
      }
      var values := ParseValues();
      ok := ExpectPeek(RPAREN);
      turn := if ok then Go([Middleware(name, call, values)]) else GiveUp;
    }

    /** Comma-separated values after the current token. */
    method ParseValues() returns (values: seq<Expr>)
      requires Valid() && at < |C().toks|
      modifies this
      ensures Valid()
      ensures R(values, at, errors) == After(old(errors), Values(C(), old(at)))
      decreases Left(C(), at), 0
    {
      hide C, Visible, Supplies, Values, Grammar.ParseExpression;
      values := [];
      ghost var total := AfterMany(values, errors, Values(C(), at));
      AfterManyNone(errors, Values(C(), at));
      while true
        invariant Valid() && at >= old(at) && at < |C().toks|
        invariant total == AfterMany(values, errors, Values(C(), at))
        decreases Left(C(), at)
      {
        ValuesUnfold(C(), at);
        ghost var a := Grammar.ParseExpression(C(), at + 1, LOWEST);
        if Cur(C(), a.at + 1) == COMMA {
          AfterManyStep(values, errors, a.v, a.errs, Values(C(), a.at + 1));
        }
        AfterManyLast(values, errors, a);
        NextToken();
        var value := ParseExpression(LOWEST);
        values := values + [value];
        if !PeekIs(COMMA) {
          return;
        }
        NextToken();
      }
    }

    method ParseTransport() returns (turn: Turn)
      requires Valid() && at < |C().toks|
      modifies this
      ensures Valid()
      ensures R(turn, at, errors) == After(old(errors), TransportMember(C(), old(at)))
      decreases Left(C(), at), 1
    {
      hide C, Visible, Supplies, DotMember, TransportArgs;
      turn := ParseDotName("transport");
      if !turn.Go? {
        return;
      }
      if !PeekIs(LPAREN) {
        return Go([]);
      }
      NextToken();
      var args := ParseTransportArgs();
      if args.None? {
        return GiveUp;
      }
      var ok := ExpectPeek(RPAREN);
      turn := if ok then Go(args.value) else GiveUp;
    }

    /** The arguments of a transport, up to before its `)`. */
    method ParseTransportArgs() returns (parts: Option<seq<Part>>)
      requires Valid()
      modifies this
      ensures Valid()
      ensures R(parts, at, errors) == After(old(errors), TransportArgs(C(), old(at)))
      decreases Left(C(), at), 0
    {
      hide C, Visible, Supplies, TransportArgs, Grammar.ParseExpression, AfterSome, TransportOf;
      var xs := [];
      ghost var total := AfterSome(xs, errors, TransportArgs(C(), at));
      AfterSomeNone(errors, TransportArgs(C(), at));
      while !PeekIs(RPAREN) && !PeekIs(EOF)
        invariant Valid() && at >= old(at)
        invariant total == AfterSome(xs, errors, TransportArgs(C(), at))
        decreases Left(C(), at)
      {
        TransportArgsStep(xs, errors, C(), at);
        NextToken();
        if !CurIs(IDENT) {
          return Some(xs);
        }
        var key := cur.sym.lit;
        var ok := ExpectPeek(COLON);
        if !ok {
          return None;
        }
        NextToken();
        var e := ParseExpression(LOWEST);
        xs := xs + TransportOf(key, e);
        if PeekIs(COMMA) {
          NextToken();
        }
      }
      TransportArgsStep(xs, errors, C(), at);
      parts := Some(xs);
    }

    method ParseProtocolMember() returns (turn: Turn)
      requires Valid() && at < |C().toks|
      modifies this
      ensures Valid()
      ensures R(turn, at, errors) == After(old(errors), ProtocolMember(C(), old(at)))
      decreases Left(C(), at), 2
    {
      hide C, Visible, Supplies, Grammar.ParseFnParams, OptionalType, OptionalEffects;
      if !CurIs(FN) {
        return Go([]);
      }
      NextToken();
      var name := cur.sym.lit;
      var ok := ExpectPeek(LPAREN);
      if !ok {
        return Go([Operation(name, [], "", [])]);
      }
      var params := ParseFnParams();
      var returnType := ParseOptionalType(ARROW);
      var effects := ParseOptionalEffects();
      turn := Go([Operation(name, params, returnType, effects)]);
    }

    method ParseImplMember() returns (turn: Turn)
      requires Valid() && at < |C().toks|
      modifies this
      ensures Valid()
      ensures R(turn, at, errors) == After(old(errors), ImplMember(C(), old(at)))
      decreases Left(C(), at), 2
    {
      hide C, Visible, Supplies, FnMember;
      turn := Go([]);
      if CurIs(FN) {
        turn := ParseFnMember();
      }
    }

    method ParseOperation() returns (turn: Turn)
      requires Valid() && at < |C().toks|
      modifies this
      ensures Valid()
      ensures R(turn, at, errors) == After(old(errors), OperationMember(C(), old(at)))
      decreases Left(C(), at), 2
    {
      hide C, Visible, Supplies, OptionalParams, OptionalType;
      if !CurIs(IDENT) {
        return Go([]);
      }
      var name := cur.sym.lit;
      var params := ParseOptionalParams();
      var returnType := ParseOptionalType(ARROW);
      turn := Go([Operation(name, params, returnType, [])]);
    }

    method ParseTypeAlias() returns (s: Stmt)
      requires Valid() && at < |C().toks|
      modifies this
      ensures Valid()
      ensures R(s, at, errors) == After(old(errors), Grammar.ParseTypeAlias(C(), old(at)))
      decreases Left(C(), at), 1
    {
      hide C, Visible, Supplies, Grammar.ParseTypeExpr;
      var ok := ExpectPeek(IDENT);
      if !ok {
        return NilStmt;
      }
      var name := cur.sym.lit;
      ok := ExpectPeek(ASSIGN);
      if !ok {
        return NilStmt;
      }
      NextToken();
      var ty := ParseTypeExpr();
      s := TypeAlias(name, ty);
    }

    method ParseImport() returns (s: Stmt)
      requires Valid() && at < |C().toks|
      modifies this
      ensures Valid()
      ensures R(s, at, errors) == After(old(errors), Grammar.ParseImport(C(), old(at)))
      decreases Left(C(), at), 1
    {
      hide C, Visible, Supplies, NamesUntil;
      if PeekIs(LBRACE) {
        NextToken();
        NextToken();
        var names := ParseNames(RBRACE);
        var ok := ExpectPeek(IDENT);
        if !ok || cur.sym.lit != "from" {
          errors := errors + [NoFrom(cur.sym.lit)];
          return NilStmt;
        }
        ok := ExpectPeek(STRING_LIT);
        return if ok then Import(cur.sym.lit, "", names) else NilStmt;
      }
      var ok := ExpectPeek(STRING_LIT);
      if !ok {
        return NilStmt;
      }
      var path := cur.sym.lit;
      if PeekIs(IDENT) && peek.sym.lit == "as" {
        NextToken();
        ok := ExpectPeek(IDENT);
        return if ok then Import(path, cur.sym.lit, []) else NilStmt;
      }
      s := Import(path, "", []);
    }

    /** `ParseProgram`: it stops on EOF. */
    method ParseProgram() returns (program: seq<Stmt>)
      requires Valid() && at == 0
      modifies this
      ensures Valid() && cur.sym.typ == EOF
      ensures R(program, at, errors) == After(old(errors), Grammar.ParseProgram(C()))
    {
      hide C, Visible, Supplies, Statements;
      program := ParseStatements(EOF);
    }
  }
}
