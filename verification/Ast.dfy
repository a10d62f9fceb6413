/** Syntax trees and parse errors. */
module Ast {
  import opened Options
  import opened Tokens

  /** Expressions.  `Missing` is the nil expression the parser leaves behind
      after an error; `Atom` covers identifiers and literals, whose node keeps
      its token.  A duration literal is an integer node on its own token. */
  datatype Expr =
    | Missing
    | Atom(sym: Sym)
    | PrefixOp(op: Sym, right: Expr)
    | InfixOp(left: Expr, op: Sym, right: Expr)
    | Assignment(left: Expr, op: Sym, value: Expr)
    | Try(left: Expr)
    | Call(fn: Expr, args: seq<Arg>)
    | FieldAccess(left: Expr, field: string)
    | Index(left: Expr, index: Expr)
    | ListLit(elems: seq<Expr>)
    | SpreadOp(value: Expr)
    | LeadingDot(name: string, args: seq<Arg>)
    | ObjectLit(name: string, fields: seq<Arg>)
    | Block(stmts: seq<Stmt>)
    | If(cond: Expr, consequence: seq<Stmt>, alternative: Option<seq<Stmt>>)
    | Match(subject: Expr, arms: seq<Arm>)
    | Lambda(params: seq<Param>, returnType: string, body: seq<Stmt>)
    | Spawn(call: Expr)
    | Handle(effect: string, handler: Expr, body: seq<Stmt>)
    | ForIn(variable: string, iterable: Expr, body: seq<Stmt>)
    | While(cond: Expr, body: seq<Stmt>)

  /** A call argument (`name` empty when positional) or an object field. */
  datatype Arg = Arg(name: string, value: Expr)

  datatype Arm = Arm(pattern: Pattern, guard: Option<Expr>, body: Expr)

  datatype PatternKind = Wildcard | Literal | Identifier | Destructure | ObjectDestructure

  datatype Pattern = Pattern(kind: PatternKind, value: string, bindings: seq<string>, fields: seq<FieldPattern>)

  datatype FieldPattern = FieldPattern(field: string, sub: Option<Pattern>)

  datatype Param = Param(name: string, capability: string, typeExpr: string, default: Option<Expr>)

  /** Statements.  `NoStmt` is a nil statement, which blocks drop; `NilStmt` is
      a nil pointer of a concrete statement type, which Go's `stmt != nil` test
      lets through, so blocks keep it. */
  datatype Stmt =
    | NoStmt
    | NilStmt
    | Let(name: string, capability: string, typeExpr: string, value: Expr)
    | Mut(name: string, capability: string, typeExpr: string, value: Expr)
    | LetDestructure(names: seq<string>, rest: Option<(string, nat)>, value: Expr)
    | Return(value: Expr)
    | Break
    | Continue
    | ExprStmt(expr: Expr)
    | FnDecl(name: string, params: seq<Param>, returnType: string, effects: seq<string>, body: seq<Stmt>)
    | Decl(typ: TokenType, name: string, parts: seq<Part>)
    | TypeAlias(name: string, typeExpr: string)
    | Import(path: string, alias: string, names: seq<string>)
    | Export(inner: Stmt)

  /** What a declaration gathers, in source order.  Where the node has one slot
      for a key (`Text`, `Setting`, ...) the last part for that key is the one
      that stays. */
  datatype Part =
    | Field(name: string, typeExpr: string, default: Option<Expr>, annotation: Option<Annotation>)
    | Delegate(name: string, typeExpr: string)
    | Variant(name: string, payload: seq<(string, string)>)
    | State(name: string, typeExpr: string, default: Option<Expr>)
    | Receive(message: string, params: seq<Param>, returnType: string, body: Option<seq<Stmt>>)
    | Stage(kind: string, expr: Expr)
    | Text(key: string, text: string)
    | Names(key: string, names: seq<string>)
    | Fields(key: string, fields: seq<Part>)
    | Setting(key: string, value: Sym)
    | Resource(name: string, uri: string, content: string)
    | AuthArgs(args: seq<Arg>)
    | Function(fn: Stmt)
    | Operation(name: string, params: seq<Param>, returnType: string, effects: seq<string>)
    | Route(verb: string, pattern: string, handler: string, inline: Option<Stmt>)
    | Middleware(name: string, call: string, values: seq<Expr>)

  datatype Annotation = Annotation(name: string, args: seq<Expr>)

  datatype Error =
    | WrongPeek(want: TokenType, got: TokenType)
    | NoPrefixFn(typ: TokenType)
    | BadLiteral(sym: Sym)
    | NoFieldName(typ: TokenType)
    | BadObjectLiteral(typ: TokenType)
    | NoUsing(lit: string)
    | NoPatternField(typ: TokenType)
    | NoFrom(lit: string)
}
