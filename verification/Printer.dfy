/** Printing operator expressions with only the parentheses the precedence
    table forces. */
module Printer {
  import opened Tokens
  import opened Ast
  import opened Grammar

  const CLOSED: nat := 14

  const OPEN_PAREN := Sym(LPAREN, "(")
  const CLOSE_PAREN := Sym(RPAREN, ")")
  const OPEN_BRACKET := Sym(LBRACKET, "[")
  const CLOSE_BRACKET := Sym(RBRACKET, "]")
  const COMMA_SYM := Sym(COMMA, ",")
  const COLON_SYM := Sym(COLON, ":")
  const DOT_SYM := Sym(DOT, ".")
  const QUESTION_SYM := Sym(QUESTION, "?")

  /** The operator fragment: atoms the parser accepts, prefix, infix,
      assignment, `?`, call, field, index and list. */
  predicate Printable(c: Ctx, e: Expr) {
    match e
    case Atom(sym) => sym.typ == IDENT || IsPlainAtom(sym.typ) || (IsCheckedLiteral(sym.typ) && c.valid(sym))
    case PrefixOp(op, right) => (op.typ == BANG || op.typ == MINUS) && Printable(c, right)
    case InfixOp(left, op, right) => IsBinary(op.typ) && Printable(c, left) && Printable(c, right)
    case Assignment(left, op, value) => IsAssign(op.typ) && Printable(c, left) && Printable(c, value)
    case Try(left) => Printable(c, left)
    case Call(fn, args) => Printable(c, fn) && forall k :: 0 <= k < |args| ==> Printable(c, args[k].value)
    case FieldAccess(left, _) => Printable(c, left)
    case Index(left, index) => Printable(c, left) && Printable(c, index)
    case ListLit(elems) => forall k :: 0 <= k < |elems| ==> Printable(c, elems[k])
    case _ => false
  }

  /** How tightly the outermost operator binds to what stands on its left: a
      parse at level `p` reaches it only if `p < LeftPrec`. */
  function LeftPrec(e: Expr): nat {
    match e
    case InfixOp(_, op, _) => Precedence(op.typ)
    case Assignment(_, _, _) => SEND_PREC
    case Try(_) => POSTFIX
    case Call(_, _) => CALL
    case FieldAccess(_, _) => FIELD
    case Index(_, _) => FIELD
    case _ => CLOSED
  }

  /** The level at which the right end is still being parsed: an operator
      binding tighter than this would be taken by it. */
  function RightOpen(e: Expr): nat {
    match e
    case PrefixOp(_, _) => PREFIX
    case InfixOp(_, op, _) => Precedence(op.typ)
    case Assignment(_, _, _) => LOWEST
    case _ => CLOSED
  }

  function Print(e: Expr): seq<Sym>
    decreases e, 1
  {
    match e
    case Atom(sym) => [sym]
    case PrefixOp(op, right) => [op] + Wrap(right, LeftPrec(right) <= PREFIX)
    case InfixOp(left, op, right) =>
      Wrap(left, RightOpen(left) < Precedence(op.typ)) + ([op] + Wrap(right, LeftPrec(right) <= Precedence(op.typ)))
    case Assignment(left, op, value) => Wrap(left, RightOpen(left) < SEND_PREC) + ([op] + Print(value))
    case Try(left) => Wrap(left, RightOpen(left) < POSTFIX) + [QUESTION_SYM]
    case Call(fn, args) => Wrap(fn, RightOpen(fn) < CALL) + ([OPEN_PAREN] + (PrintArgs(args) + [CLOSE_PAREN]))
    case FieldAccess(left, field) => Wrap(left, RightOpen(left) < FIELD) + ([DOT_SYM] + [Sym(IDENT, field)])
    case Index(left, index) =>
      Wrap(left, RightOpen(left) < FIELD) + ([OPEN_BRACKET] + (Print(index) + [CLOSE_BRACKET]))
    case ListLit(elems) => [OPEN_BRACKET] + (PrintList(elems) + [CLOSE_BRACKET])
    case _ => []
  }

  function Wrap(e: Expr, paren: bool): seq<Sym>
    decreases e, 2
  {
    if paren then [OPEN_PAREN] + (Print(e) + [CLOSE_PAREN]) else Print(e)
  }

  function PrintList(es: seq<Expr>): seq<Sym>
    decreases es, 0
  {
    if |es| == 0 then [] else Print(es[0]) + PrintMore(es[1..])
  }

  function PrintMore(es: seq<Expr>): seq<Sym>
    decreases es, 0
  {
    if |es| == 0 then [] else [COMMA_SYM] + (Print(es[0]) + PrintMore(es[1..]))
  }

  function PrintArg(a: Arg): seq<Sym>
    decreases a, 0
  {
    if a.name == "" then Print(a.value) else [Sym(IDENT, a.name)] + ([COLON_SYM] + Print(a.value))
  }

  function PrintArgs(args: seq<Arg>): seq<Sym>
    decreases args, 0
  {
    if |args| == 0 then []
    else if |args| == 1 then PrintArg(args[0])
    else PrintArg(args[0]) + ([COMMA_SYM] + PrintArgs(args[1..]))
  }
}
