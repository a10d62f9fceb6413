/** One error-free step of the Pratt parser for each form of the operator
    fragment: what the prefix or infix function adds to the loop. */
module ParseSteps {
  import opened Tokens
  import opened Ast
  import opened Grammar

  /** An error-free prefix function hands its tree to the loop. */
  lemma PrefixStep(c: Ctx, i: nat, p: nat, e: Expr, j: nat)
    requires HasPrefixFn(Cur(c, i)) && ParsePrefix(c, i) == R(e, j, [])
    ensures ParseExpression(c, i, p) == InfixLoop(c, j, p, e)
  {
    hide ParsePrefix, InfixLoop, ParseInfix;
    var b := InfixLoop(c, j, p, e);
    assert [] + b.errs == b.errs;
  }

  /** One turn of the loop over an operator whose infix function is error-free. */
  lemma LoopStep(c: Ctx, i: nat, p: nat, left: Expr, e: Expr, j: nat)
    requires !StopsLoop(Cur(c, i + 1), p) && HasInfixFn(Cur(c, i + 1))
    requires ParseInfix(c, i + 1, left) == R(e, j, [])
    ensures InfixLoop(c, i, p, left) == InfixLoop(c, j, p, e)
  {
    hide ParsePrefix, ParseExpression, ParseInfix;
    var b := InfixLoop(c, j, p, e);
    assert [] + b.errs == b.errs;
  }

  lemma LoopStops(c: Ctx, i: nat, p: nat, left: Expr)
    requires StopsLoop(Cur(c, i + 1), p)
    ensures InfixLoop(c, i, p, left) == R(left, i, [])
  {
    hide ParsePrefix, ParseExpression, ParseInfix;
  }

  lemma AtomStep(c: Ctx, i: nat, p: nat)
    requires var s := SymAt(c, i);
             || (s.typ == IDENT && Cur(c, i + 1) != LBRACE)
             || IsPlainAtom(s.typ)
             || (IsCheckedLiteral(s.typ) && c.valid(s))
    ensures ParseExpression(c, i, p) == InfixLoop(c, i, p, Atom(SymAt(c, i)))
  {
    hide InfixLoop, ParseInfix, ParseExpression;
    PrefixStep(c, i, p, Atom(SymAt(c, i)), i);
  }

  lemma PrefixOpStep(c: Ctx, i: nat, p: nat, right: Expr, j: nat)
    requires Cur(c, i) == BANG || Cur(c, i) == MINUS
    requires ParseExpression(c, i + 1, PREFIX) == R(right, j, [])
    ensures ParseExpression(c, i, p) == InfixLoop(c, j, p, PrefixOp(SymAt(c, i), right))
  {
    hide InfixLoop, ParseInfix, ParseExpression;
    PrefixStep(c, i, p, PrefixOp(SymAt(c, i), right), j);
  }

  lemma GroupedStep(c: Ctx, i: nat, p: nat, e: Expr, j: nat)
    requires Cur(c, i) == LPAREN && ParseExpression(c, i + 1, LOWEST) == R(e, j, []) && Cur(c, j + 1) == RPAREN
    ensures ParseExpression(c, i, p) == InfixLoop(c, j + 1, p, e)
  {
    hide InfixLoop, ParseInfix, ParseExpression;
    PrefixStep(c, i, p, e, j + 1);
  }

  lemma ListStep(c: Ctx, i: nat, p: nat, es: seq<Expr>, j: nat)
    requires Cur(c, i) == LBRACKET && ParseExpressionList(c, i, RBRACKET) == R(es, j, [])
    ensures ParseExpression(c, i, p) == InfixLoop(c, j, p, ListLit(es))
  {
    hide InfixLoop, ParseInfix, ParseExpression, ParseExpressionList;
    PrefixStep(c, i, p, ListLit(es), j);
  }

  lemma BinaryStep(c: Ctx, i: nat, p: nat, left: Expr, right: Expr, j: nat)
    requires IsBinary(Cur(c, i + 1)) && p < Precedence(Cur(c, i + 1))
    requires ParseExpression(c, i + 2, Precedence(Cur(c, i + 1))) == R(right, j, [])
    ensures InfixLoop(c, i, p, left) == InfixLoop(c, j, p, InfixOp(left, SymAt(c, i + 1), right))
  {
    hide InfixLoop, ParsePrefix, ParseExpression;
    LoopStep(c, i, p, left, InfixOp(left, SymAt(c, i + 1), right), j);
  }

  lemma AssignStep(c: Ctx, i: nat, p: nat, left: Expr, value: Expr, j: nat)
    requires IsAssign(Cur(c, i + 1)) && p < SEND_PREC
    requires ParseExpression(c, i + 2, LOWEST) == R(value, j, [])
    ensures InfixLoop(c, i, p, left) == InfixLoop(c, j, p, Assignment(left, SymAt(c, i + 1), value))
  {
    hide InfixLoop, ParsePrefix, ParseExpression;
    LoopStep(c, i, p, left, Assignment(left, SymAt(c, i + 1), value), j);
  }

  lemma TryStep(c: Ctx, i: nat, p: nat, left: Expr)
    requires Cur(c, i + 1) == QUESTION && p < POSTFIX
    ensures InfixLoop(c, i, p, left) == InfixLoop(c, i + 1, p, Try(left))
  {
    hide InfixLoop, ParsePrefix, ParseExpression;
    LoopStep(c, i, p, left, Try(left), i + 1);
  }

  lemma FieldStep(c: Ctx, i: nat, p: nat, left: Expr)
    requires Cur(c, i + 1) == DOT && p < FIELD
    ensures InfixLoop(c, i, p, left) == InfixLoop(c, i + 2, p, FieldAccess(left, Lit(c, i + 2)))
  {
    hide InfixLoop, ParsePrefix, ParseExpression;
    LoopStep(c, i, p, left, FieldAccess(left, Lit(c, i + 2)), i + 2);
  }

  lemma IndexStep(c: Ctx, i: nat, p: nat, left: Expr, index: Expr, j: nat)
    requires Cur(c, i + 1) == LBRACKET && p < FIELD
    requires ParseExpression(c, i + 2, LOWEST) == R(index, j, []) && Cur(c, j + 1) == RBRACKET
    ensures InfixLoop(c, i, p, left) == InfixLoop(c, j + 1, p, Index(left, index))
  {
    hide InfixLoop, ParsePrefix, ParseExpression, ParseCallArgs, Args;
    var x := Expect(c, j, RBRACKET);
    assert x == R(true, j + 1, []);
    assert ParseInfix(c, i + 1, left) == R(Index(left, index), j + 1, []);
    LoopStep(c, i, p, left, Index(left, index), j + 1);
  }

  lemma CallStep(c: Ctx, i: nat, p: nat, fn: Expr, args: seq<Arg>, j: nat)
    requires Cur(c, i + 1) == LPAREN && p < CALL && ParseCallArgs(c, i + 1) == R(args, j, [])
    ensures InfixLoop(c, i, p, fn) == InfixLoop(c, j, p, Call(fn, args))
  {
    hide InfixLoop, ParsePrefix, ParseExpression, ParseCallArgs;
    LoopStep(c, i, p, fn, Call(fn, args), j);
  }

  lemma CallArgsStep(c: Ctx, i: nat, args: seq<Arg>, j: nat)
    requires i < |c.toks| && Cur(c, i + 1) != RPAREN && Args(c, i + 1) == R(args, j, []) && Cur(c, j + 1) == RPAREN
    ensures ParseCallArgs(c, i) == R(args, j + 1, [])
  {
    hide Args;
  }

  /** The last argument of a list, and an argument followed by a comma. */
  lemma ArgsLast(c: Ctx, i: nat, a: Arg, j: nat)
    requires (Cur(c, i) == IDENT && Cur(c, i + 1) == COLON) <==> a.name != ""
    requires a.name != "" ==> Lit(c, i) == a.name
    requires ParseExpression(c, if a.name != "" then i + 2 else i, LOWEST) == R(a.value, j, [])
    requires Cur(c, j + 1) != COMMA
    ensures Args(c, i) == R([a], j, [])
  {
    hide ParseExpression;
  }

  lemma ArgsMore(c: Ctx, i: nat, a: Arg, j: nat, rest: seq<Arg>, k: nat)
    requires (Cur(c, i) == IDENT && Cur(c, i + 1) == COLON) <==> a.name != ""
    requires a.name != "" ==> Lit(c, i) == a.name
    requires ParseExpression(c, if a.name != "" then i + 2 else i, LOWEST) == R(a.value, j, [])
    requires Cur(c, j + 1) == COMMA && Args(c, j + 2) == R(rest, k, [])
    ensures Args(c, i) == R([a] + rest, k, [])
  {
    hide ParseExpression;
  }

  lemma ExpressionListStep(c: Ctx, i: nat, end: TokenType, e: Expr, j: nat, rest: seq<Expr>, k: nat)
    requires i < |c.toks| && Cur(c, i + 1) != end && ParseExpression(c, i + 1, LOWEST) == R(e, j, [])
    requires MoreExpressions(c, j, end) == R(rest, k, []) && Cur(c, k + 1) == end
    ensures ParseExpressionList(c, i, end) == R([e] + rest, k + 1, [])
  {
    hide ParseExpression, MoreExpressions;
  }

  lemma MoreStep(c: Ctx, i: nat, end: TokenType, e: Expr, j: nat, rest: seq<Expr>, k: nat)
    requires Cur(c, i + 1) == COMMA && Cur(c, i + 2) != end && ParseExpression(c, i + 2, LOWEST) == R(e, j, [])
    requires MoreExpressions(c, j, end) == R(rest, k, [])
    ensures MoreExpressions(c, i, end) == R([e] + rest, k, [])
  {
    hide ParseExpression;
  }
}
