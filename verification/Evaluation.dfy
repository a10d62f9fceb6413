/** The tree-walking evaluator on the part of the language that matters for
    effects: scopes, calls, tools, signals, handlers and capabilities.  Scopes
    live in a store of frames, so that `env` is a pointer as it is in the
    interpreter.  `fuel` bounds the depth of evaluation: every finished
    evaluation finishes with some fuel. */
module Evaluation {
  import opened Options
  import opened EffectStack

  datatype Op =
    | And | Or | Coalesce
    | Plus | Minus | Times | Divide | Modulo
    | Less | Greater | LessEqual | GreaterEqual | Equal | NotEqual

  datatype PrefixOp = Not | Negate

  datatype AssignOp = Replace | AddTo | TakeFrom

  datatype Expr =
    | Nil
    | Num(n: int)
    | Flag(b: bool)
    | Text(s: string)
    | Name(name: string)
    | Infix(op: Op, left: Expr, right: Expr)
    | Prefix(sign: PrefixOp, operand: Expr)
    | Try(operand: Expr)
    | Index(owner: Expr, index: Expr)
    | Assign(target: string, how: AssignOp, value: Expr)
    | If(cond: Expr, consequence: seq<Stmt>, alternative: Else)
    | Block(stmts: seq<Stmt>)
    | Match(subject: Expr, arms: seq<Arm>)
    | Call(callee: Expr, args: seq<Arg>)
    | Field(owner: Expr, field: string)
    | List(elems: seq<Expr>)
    | Object(tname: string, fields: seq<Arg>)
    | Wrap(tname: string, variant: string, payload: Expr)
    | Lambda(params: seq<Param>, body: seq<Stmt>)
    | Handle(effect: string, handler: Expr, body: seq<Stmt>)
    | ForIn(variable: string, iterable: Expr, body: seq<Stmt>)
    | While(cond: Expr, body: seq<Stmt>)

  datatype Else = NoElse | Else(stmts: seq<Stmt>)

  datatype Stmt = Let(name: string, value: Expr) | Return(value: Expr) | Break | Continue | Do(value: Expr)

  datatype Arm = Arm(pattern: Pattern, guard: Option<Expr>, body: Expr)

  datatype Pattern =
    | Wildcard
    | Literal(n: int)
    | Truth(b: bool)
    | Bind(name: string)
    | Variant(variant: string, binding: Option<string>)

  /** An argument of a call or a field of an object literal; `name` is empty
      for a positional argument. */
  datatype Arg = Arg(name: string, value: Expr)

  datatype Param = Param(name: string, default: Option<Expr>)

  /** Control signals are values, as in the interpreter. */
  datatype Value =
    | VNil
    | VInt(n: int)
    | VBool(b: bool)
    | VStr(s: string)
    | VList(elems: seq<Value>)
    | VObject(tname: string, fields: map<string, Value>)
    | VEnum(tname: string, variant: string, payload: Value)
    | VFn(params: seq<Param>, body: seq<Stmt>, env: nat)
    | VPrim(name: string)
    | VNamespace(name: string)
    | VReturn(value: Value)
    | VBreak
    | VContinue

  /** `outer` of the global frame is itself. */
  datatype Frame = Frame(vars: map<string, Value>, outer: nat)

  datatype St = St(frames: seq<Frame>, env: nat, handlers: seq<Handler<Value>>, caps: seq<string>, tick: nat)

  datatype Panic =
    | NoHandler(effect: string)
    | BreakOutsideLoop
    | ContinueOutsideLoop
    | NotAList
    | ProviderFailed

  datatype Out<T> = Done(value: T, st: St) | Panics(panic: Panic) | NoFuel

  datatype PrimOut = PrimOk(value: Value) | PrimErr

  datatype Tool = Tool(capability: string, inputs: seq<Param>, body: seq<Stmt>)

  /** What does not change while evaluating: the tools, the effect names, the
      code behind builtins and provider methods, which sees its arguments and
      may answer differently every time, and the equality of values that are
      not numbers, truth values or strings. */
  datatype Ctx = Ctx(
    tools: map<string, Tool>,
    effects: set<string>,
    prim: (string, seq<Value>, nat) -> PrimOut,
    same: (Value, Value) -> bool)

  // ---------- scopes ----------

  function Get(frames: seq<Frame>, i: nat, name: string): Option<Value>
    decreases i
  {
    if i >= |frames| then None
    else if name in frames[i].vars then Some(frames[i].vars[name])
    else if frames[i].outer < i then Get(frames, frames[i].outer, name)
    else None
  }

  function SetVar(frames: seq<Frame>, i: nat, name: string, v: Value): (r: seq<Frame>)
    ensures |r| == |frames| && forall k :: 0 <= k < |r| ==> r[k].outer == frames[k].outer
  {
    if i >= |frames| then frames else frames[i := frames[i].(vars := frames[i].vars[name := v])]
  }

  /** Assignment: rebinds the nearest binding, or does nothing. */
  function Update(frames: seq<Frame>, i: nat, name: string, v: Value): (r: seq<Frame>)
    ensures |r| == |frames| && forall k :: 0 <= k < |r| ==> r[k].outer == frames[k].outer
    decreases i
  {
    if i >= |frames| then frames
    else if name in frames[i].vars then SetVar(frames, i, name, v)
    else if frames[i].outer < i then Update(frames, frames[i].outer, name, v)
    else frames
  }

  /** Enter a new scope inside the current one. */
  function Enclose(st: St, vars: map<string, Value>): St {
    st.(frames := st.frames + [Frame(vars, st.env)], env := |st.frames|)
  }

  // ---------- the frame discipline ----------

  predicate Grown(fs: seq<Frame>, gs: seq<Frame>) {
    |fs| <= |gs| && forall i :: 0 <= i < |fs| ==> gs[i].outer == fs[i].outer
  }

  /** On normal return the scope, the handlers and the capabilities are those
      held before, and every older scope still hangs where it hung. */
  predicate Kept<T>(st: St, r: Out<T>) {
    r.Done? ==>
      && r.st.env == st.env && r.st.handlers == st.handlers && r.st.caps == st.caps
      && Grown(st.frames, r.st.frames)
  }

  // ---------- values ----------

  predicate IsSignal(v: Value) {
    v.VReturn? || v.VBreak? || v.VContinue?
  }

  function Truthy(v: Value): bool {
    match v
    case VBool(b) => b
    case VNil => false
    case _ => true
  }

  /** Arithmetic wraps around at 64 bits. */
  function Wrap64(n: int): (r: int)
    ensures -0x8000_0000_0000_0000 <= r < 0x8000_0000_0000_0000
  {
    (n + 0x8000_0000_0000_0000) % 0x1_0000_0000_0000_0000 - 0x8000_0000_0000_0000
  }

  function Abs(n: int): nat {
    if n < 0 then -n else n
  }

  /** Division truncates towards zero. */
  function Quotient(l: int, r: int): int
    requires r != 0
  {
    if (l < 0) == (r < 0) then Abs(l) / Abs(r) else -(Abs(l) / Abs(r))
  }

  function IntOp(op: Op, l: int, r: int): Value {
    match op
    case Plus => VInt(Wrap64(l + r))
    case Minus => VInt(Wrap64(l - r))
    case Times => VInt(Wrap64(l * r))
    case Divide => if r == 0 then ErrResult("div_by_zero") else VInt(Wrap64(Quotient(l, r)))
    case Modulo => if r == 0 then ErrResult("div_by_zero") else VInt(l - r * Quotient(l, r))
    case Less => VBool(l < r)
    case Greater => VBool(l > r)
    case LessEqual => VBool(l <= r)
    case GreaterEqual => VBool(l >= r)
    case Equal => VBool(l == r)
    case NotEqual => VBool(l != r)
    case _ => VNil
  }

  function Same(c: Ctx, l: Value, r: Value): bool {
    if l.VStr? && r.VStr? then l.s == r.s else if l.VBool? && r.VBool? then l.b == r.b else c.same(l, r)
  }

  /** Operators on evaluated operands. */
  function Arith(c: Ctx, op: Op, l: Value, r: Value): Value {
    if l.VInt? && r.VInt? then IntOp(op, l.n, r.n)
    else if op.Plus? && l.VStr? && r.VStr? then VStr(l.s + r.s)
    else if op.Equal? then VBool(Same(c, l, r))
    else if op.NotEqual? then VBool(!Same(c, l, r))
    else VNil
  }

  function Signed(sign: PrefixOp, v: Value): Value {
    if sign.Not? && v.VBool? then VBool(!v.b)
    else if sign.Negate? && v.VInt? then VInt(Wrap64(-v.n))
    else VNil
  }

  /** `+=` and `-=`: the old value stays unless the two fit together. */
  function Combined(how: AssignOp, before: Value, v: Value): Value {
    match how
    case Replace => v
    case AddTo =>
      if before.VInt? && v.VInt? then VInt(Wrap64(before.n + v.n))
      else if before.VStr? && v.VStr? then VStr(before.s + v.s)
      else before
    case TakeFrom => if before.VInt? && v.VInt? then VInt(Wrap64(before.n - v.n)) else before
  }

  function Indexed(v: Value, i: Value): Value {
    if v.VList? && i.VInt? then
      if 0 <= i.n < |v.elems| then v.elems[i.n] else ErrResult("index_out_of_bounds")
    else if v.VStr? && i.VInt? then
      if 0 <= i.n < |v.s| then VStr([v.s[i.n]]) else ErrResult("index_out_of_bounds")
    else if v.VObject? && i.VStr? && i.s in v.fields then v.fields[i.s]
    else VNil
  }

  function MatchPattern(v: Value, p: Pattern): Option<map<string, Value>> {
    match p
    case Wildcard => Some(map[])
    case Literal(n) => if v == VInt(n) then Some(map[]) else None
    case Truth(b) => if v == VBool(b) then Some(map[]) else None
    case Bind(name) => Some(map[name := v])
    case Variant(variant, binding) =>
      if v.VEnum? && v.variant == variant then
        (if binding.Some? then Some(map[binding.value := v.payload]) else Some(map[]))
      else None
  }

  function FindArg(args: seq<Arg>, name: string): (r: Option<Expr>)
    ensures r.Some? ==> exists k :: 0 <= k < |args| && args[k].name == name && r == Some(args[k].value)
  {
    if |args| == 0 then None
    else if args[0].name == name then Some(args[0].value)
    else FindArg(args[1..], name)
  }

  function ErrResult(code: string): Value {
    VEnum("Result", "Err", VStr(code))
  }

  // ---------- evaluation ----------

  function Eval(c: Ctx, fuel: nat, e: Expr, st: St): (r: Out<Value>)
    ensures Kept(st, r)
    decreases fuel, 0, 0
  {
    if fuel == 0 then NoFuel
    else
      match e
      case Nil => Done(VNil, st)
      case Num(n) => Done(VInt(n), st)
      case Flag(b) => Done(VBool(b), st)
      case Text(s) => Done(VStr(s), st)
      case Name(name) => Done(EvalName(c, name, st), st)
      case Infix(op, left, right) => EvalInfix(c, fuel - 1, op, left, right, st)
      case Prefix(sign, operand) => EvalPrefix(c, fuel - 1, sign, operand, st)
      case Try(operand) => EvalTry(c, fuel - 1, operand, st)
      case Index(owner, index) => EvalIndex(c, fuel - 1, owner, index, st)
      case Assign(target, how, value) => EvalAssign(c, fuel - 1, target, how, value, st)
      case If(cond, consequence, alternative) => EvalIf(c, fuel - 1, cond, consequence, alternative, st)
      case Block(stmts) => EvalScoped(c, fuel - 1, stmts, map[], st)
      case Match(subject, arms) => EvalMatch(c, fuel - 1, subject, arms, st)
      case Call(callee, args) => EvalCall(c, fuel - 1, callee, args, st)
      case Field(owner, field) => EvalField(c, fuel - 1, owner, field, st)
      case List(elems) => EvalList(c, fuel - 1, elems, st)
      case Object(tname, fields) => EvalObject(c, fuel - 1, tname, fields, st)
      case Wrap(tname, variant, payload) => EvalWrap(c, fuel - 1, tname, variant, payload, st)
      case Lambda(params, body) => Done(VFn(params, body, st.env), st)
      case Handle(effect, handler, body) => EvalHandle(c, fuel - 1, effect, handler, body, st)
      case ForIn(variable, iterable, body) => EvalForIn(c, fuel - 1, variable, iterable, body, st)
      case While(cond, body) => EvalWhile(c, fuel - 1, cond, body, VNil, st)
  }

  /** Effect names win over variables. */
  function EvalName(c: Ctx, name: string, st: St): Value {
    if name in c.effects then VNamespace(name)
    else
      match Get(st.frames, st.env, name)
      case Some(v) => v
      case None => VNil
  }

  function EvalInfix(c: Ctx, fuel: nat, op: Op, left: Expr, right: Expr, st: St): (r: Out<Value>)
    ensures Kept(st, r)
    decreases fuel, 4, 0
  {
    match Eval(c, fuel, left, st)
    case Panics(p) => Panics(p)
    case NoFuel => NoFuel
    case Done(l, st1) =>
      if l.VReturn? then Done(l, st1) else EvalRight(c, fuel, op, l, right, st1)
  }

  function EvalRight(c: Ctx, fuel: nat, op: Op, l: Value, right: Expr, st: St): (r: Out<Value>)
    ensures Kept(st, r)
    decreases fuel, 3, 0
  {
    match op
    case Coalesce => EvalCoalesce(c, fuel, l, right, st)
    case And => EvalLogic(c, fuel, l == VBool(true), false, right, st)
    case Or => EvalLogic(c, fuel, l == VBool(false), l == VBool(true), right, st)
    case _ => EvalArith(c, fuel, op, l, right, st)
  }

  predicate IsMissing(v: Value) {
    || v.VNil?
    || (v.VEnum? && v.tname == "Result" && v.variant == "Err")
    || (v.VEnum? && v.tname == "Option" && v.variant == "None")
  }

  function Unwrapped(v: Value): Value {
    if v.VEnum? && ((v.tname == "Result" && v.variant == "Ok") || (v.tname == "Option" && v.variant == "Some"))
    then v.payload
    else v
  }

  /** `??`: the right operand stands in for nil, `Err` and `None`. */
  function EvalCoalesce(c: Ctx, fuel: nat, l: Value, right: Expr, st: St): (r: Out<Value>)
    ensures Kept(st, r)
    decreases fuel, 2, 0
  {
    if IsMissing(l) then Eval(c, fuel, right, st) else Done(Unwrapped(l), st)
  }

  /** The right operand of `&&` or `||` when it is needed, else `short`. */
  function EvalLogic(c: Ctx, fuel: nat, needed: bool, short: bool, right: Expr, st: St): (r: Out<Value>)
    ensures Kept(st, r)
    decreases fuel, 2, 0
  {
    if !needed then Done(VBool(short), st)
    else
      match Eval(c, fuel, right, st)
      case Done(v, st1) => Done(if v.VBool? then v else VBool(false), st1)
      case other => other
  }

  function EvalArith(c: Ctx, fuel: nat, op: Op, l: Value, right: Expr, st: St): (r: Out<Value>)
    ensures Kept(st, r)
    decreases fuel, 2, 0
  {
    match Eval(c, fuel, right, st)
    case Done(v, st1) => Done(if v.VReturn? then v else Arith(c, op, l, v), st1)
    case other => other
  }

  /** Postfix `?`. */
  function EvalTry(c: Ctx, fuel: nat, operand: Expr, st: St): (r: Out<Value>)
    ensures Kept(st, r)
    decreases fuel, 4, 0
  {
    match Eval(c, fuel, operand, st)
    case Done(v, st1) =>
      Done(if v.VEnum? && v.tname == "Result" then (if v.variant == "Ok" then v.payload else VReturn(v)) else v, st1)
    case other => other
  }

  function EvalPrefix(c: Ctx, fuel: nat, sign: PrefixOp, operand: Expr, st: St): (r: Out<Value>)
    ensures Kept(st, r)
    decreases fuel, 4, 0
  {
    match Eval(c, fuel, operand, st)
    case Done(v, st1) => Done(Signed(sign, v), st1)
    case other => other
  }

  function EvalIndex(c: Ctx, fuel: nat, owner: Expr, index: Expr, st: St): (r: Out<Value>)
    ensures Kept(st, r)
    decreases fuel, 4, 0
  {
    match Eval(c, fuel, owner, st)
    case Panics(p) => Panics(p)
    case NoFuel => NoFuel
    case Done(v, st1) => EvalIndexed(c, fuel, v, index, st1)
  }

  function EvalIndexed(c: Ctx, fuel: nat, v: Value, index: Expr, st: St): (r: Out<Value>)
    ensures Kept(st, r)
    decreases fuel, 2, 0
  {
    match Eval(c, fuel, index, st)
    case Done(i, st1) => Done(Indexed(v, i), st1)
    case other => other
  }

  function EvalAssign(c: Ctx, fuel: nat, target: string, how: AssignOp, value: Expr, st: St): (r: Out<Value>)
    ensures Kept(st, r)
    decreases fuel, 4, 0
  {
    match Eval(c, fuel, value, st)
    case Done(v, st1) => Done(v, st1.(frames := Assigned(st1.frames, st1.env, target, how, v)))
    case other => other
  }

  function Assigned(frames: seq<Frame>, i: nat, target: string, how: AssignOp, v: Value): (r: seq<Frame>)
    ensures |r| == |frames| && forall k :: 0 <= k < |r| ==> r[k].outer == frames[k].outer
  {
    match Get(frames, i, target)
    case None => frames
    case Some(before) => Update(frames, i, target, Combined(how, before, v))
  }

  function EvalIf(c: Ctx, fuel: nat, cond: Expr, consequence: seq<Stmt>, alternative: Else, st: St): (r: Out<Value>)
    ensures Kept(st, r)
    decreases fuel, 4, 0
  {
    match Eval(c, fuel, cond, st)
    case Panics(p) => Panics(p)
    case NoFuel => NoFuel
    case Done(v, st1) =>
      if Truthy(v) then EvalScoped(c, fuel, consequence, map[], st1)
      else if alternative.Else? then EvalScoped(c, fuel, alternative.stmts, map[], st1)
      else Done(VNil, st1)
  }

  /** The statements of a block in the current scope. */
  function EvalStmts(c: Ctx, fuel: nat, stmts: seq<Stmt>, last: Value, st: St): (r: Out<Value>)
    ensures Kept(st, r)
    decreases fuel, 2, |stmts|
  {
    if |stmts| == 0 then Done(last, st)
    else
      match EvalStmt(c, fuel, stmts[0], st)
      case Panics(p) => Panics(p)
      case NoFuel => NoFuel
      case Done(v, st1) => if IsSignal(v) then Done(v, st1) else EvalStmts(c, fuel, stmts[1..], v, st1)
  }

  function EvalStmt(c: Ctx, fuel: nat, s: Stmt, st: St): (r: Out<Value>)
    ensures Kept(st, r)
    decreases fuel, 1, 0
  {
    match s
    case Break => Done(VBreak, st)
    case Continue => Done(VContinue, st)
    case Do(value) => Eval(c, fuel, value, st)
    case Return(value) =>
      (match Eval(c, fuel, value, st)
       case Done(v, st1) => Done(VReturn(v), st1)
       case other => other)
    case Let(name, value) =>
      (match Eval(c, fuel, value, st)
       case Done(v, st1) =>
         if v.VReturn? then Done(v, st1) else Done(v, st1.(frames := SetVar(st1.frames, st1.env, name, v)))
       case other => other)
  }

  /** A block in a scope of its own that starts out with `vars`. */
  function EvalScoped(c: Ctx, fuel: nat, stmts: seq<Stmt>, vars: map<string, Value>, st: St): (r: Out<Value>)
    ensures Kept(st, r)
    decreases fuel, 3, 0
  {
    match EvalStmts(c, fuel, stmts, VNil, Enclose(st, vars))
    case Done(v, st1) => Done(v, st1.(env := st.env))
    case other => other
  }

  function EvalMatch(c: Ctx, fuel: nat, subject: Expr, arms: seq<Arm>, st: St): (r: Out<Value>)
    ensures Kept(st, r)
    decreases fuel, 4, 0
  {
    match Eval(c, fuel, subject, st)
    case Panics(p) => Panics(p)
    case NoFuel => NoFuel
    case Done(v, st1) => EvalArms(c, fuel, v, arms, st1)
  }

  function EvalArms(c: Ctx, fuel: nat, subject: Value, arms: seq<Arm>, st: St): (r: Out<Value>)
    ensures Kept(st, r)
    decreases fuel, 3, |arms|
  {
    if |arms| == 0 then Done(VNil, st)
    else
      match MatchPattern(subject, arms[0].pattern)
      case None => EvalArms(c, fuel, subject, arms[1..], st)
      case Some(vars) =>
        match EvalGuard(c, fuel, arms[0].guard, vars, st)
        case Panics(p) => Panics(p)
        case NoFuel => NoFuel
        case Done(holds, st1) =>
          if holds then EvalInScope(c, fuel, arms[0].body, vars, st1)
          else EvalArms(c, fuel, subject, arms[1..], st1)
  }

  function EvalInScope(c: Ctx, fuel: nat, e: Expr, vars: map<string, Value>, st: St): (r: Out<Value>)
    ensures Kept(st, r)
    decreases fuel, 1, 0
  {
    match Eval(c, fuel, e, Enclose(st, vars))
    case Done(v, st1) => Done(v, st1.(env := st.env))
    case other => other
  }

  /** Whether the guard is absent or evaluates to true. */
  function EvalGuard(c: Ctx, fuel: nat, guard: Option<Expr>, vars: map<string, Value>, st: St): (r: Out<bool>)
    ensures Kept(st, r)
    decreases fuel, 2, 0
  {
    if guard.None? then Done(true, st)
    else
      match EvalInScope(c, fuel, guard.value, vars, st)
      case Panics(p) => Panics(p)
      case NoFuel => NoFuel
      case Done(v, st1) => Done(v == VBool(true), st1)
  }

  function EvalAll(c: Ctx, fuel: nat, es: seq<Expr>, st: St): (r: Out<seq<Value>>)
    ensures Kept(st, r) && (r.Done? ==> |r.value| == |es|)
    decreases fuel, 2, |es|
  {
    if |es| == 0 then Done([], st)
    else
      match Eval(c, fuel, es[0], st)
      case Panics(p) => Panics(p)
      case NoFuel => NoFuel
      case Done(v, st1) =>
        match EvalAll(c, fuel, es[1..], st1)
        case Panics(p) => Panics(p)
        case NoFuel => NoFuel
        case Done(vs, st2) => Done([v] + vs, st2)
  }

  function EvalList(c: Ctx, fuel: nat, elems: seq<Expr>, st: St): (r: Out<Value>)
    ensures Kept(st, r)
    decreases fuel, 4, 0
  {
    match EvalAll(c, fuel, elems, st)
    case Panics(p) => Panics(p)
    case NoFuel => NoFuel
    case Done(vs, st1) => Done(VList(vs), st1)
  }

  /** Fields by name, later ones winning. */
  function FieldMap(fields: seq<Arg>, vs: seq<Value>): (r: map<string, Value>)
    requires |fields| == |vs|
    ensures forall n :: n in r ==> r[n] in vs
  {
    if |fields| == 0 then map[]
    else FieldMap(fields[..|fields| - 1], vs[..|vs| - 1])[fields[|fields| - 1].name := vs[|vs| - 1]]
  }

  function EvalObject(c: Ctx, fuel: nat, tname: string, fields: seq<Arg>, st: St): (r: Out<Value>)
    ensures Kept(st, r)
    decreases fuel, 4, 0
  {
    match EvalAll(c, fuel, ArgValues(fields), st)
    case Panics(p) => Panics(p)
    case NoFuel => NoFuel
    case Done(vs, st1) => Done(VObject(tname, FieldMap(fields, vs)), st1)
  }

  function EvalWrap(c: Ctx, fuel: nat, tname: string, variant: string, payload: Expr, st: St): (r: Out<Value>)
    ensures Kept(st, r)
    decreases fuel, 4, 0
  {
    match Eval(c, fuel, payload, st)
    case Done(v, st1) => Done(VEnum(tname, variant, v), st1)
    case other => other
  }

  /** Field access; on an effect namespace it looks up the handler. */
  function EvalField(c: Ctx, fuel: nat, owner: Expr, field: string, st: St): (r: Out<Value>)
    ensures Kept(st, r)
    decreases fuel, 4, 0
  {
    match Eval(c, fuel, owner, st)
    case Panics(p) => Panics(p)
    case NoFuel => NoFuel
    case Done(v, st1) =>
      if v.VNamespace? then
        (match TopDown(st1.handlers, v.name)
         case None => Panics(NoHandler(v.name))
         case Some(provider) => Done(FieldOf(provider, field), st1))
      else Done(FieldOf(v, field), st1)
  }

  function FieldOf(v: Value, field: string): Value {
    if v.VObject? && field in v.fields then v.fields[field] else VNil
  }

  function ArgValues(args: seq<Arg>): (r: seq<Expr>)
    ensures |r| == |args| && forall i :: 0 <= i < |r| ==> r[i] == args[i].value
  {
    seq(|args|, i requires 0 <= i < |args| => args[i].value)
  }

  /** A call: tools first, then the callee, then the arguments, which a
      function evaluates once more when it binds its parameters. */
  function EvalCall(c: Ctx, fuel: nat, callee: Expr, args: seq<Arg>, st: St): (r: Out<Value>)
    ensures Kept(st, r)
    decreases fuel, 6, 0
  {
    if callee.Field? && callee.owner.Name? && callee.owner.name in c.tools && callee.field == "run" then
      EvalTool(c, fuel, c.tools[callee.owner.name], args, st)
    else
      match Eval(c, fuel, callee, st)
      case Panics(p) => Panics(p)
      case NoFuel => NoFuel
      case Done(f, st1) =>
        if f.VReturn? then Done(f, st1)
        else
          match EvalAll(c, fuel, ArgValues(args), st1)
          case Panics(p) => Panics(p)
          case NoFuel => NoFuel
          case Done(vs, st2) => Invoke(c, fuel, f, args, vs, st2)
  }

  function Invoke(c: Ctx, fuel: nat, f: Value, args: seq<Arg>, vs: seq<Value>, st: St): (r: Out<Value>)
    ensures Kept(st, r)
    decreases fuel, 5, 0
  {
    match f
    case VFn(params, body, env) => CallFunction(c, fuel, params, body, env, args, st)
    case VPrim(name) => if name == WITH_CAPABILITY then WithCapability(c, fuel, vs, st) else CallPrim(c, name, vs, st)
    case _ => Done(VNil, st)
  }

  function CallPrim(c: Ctx, name: string, vs: seq<Value>, st: St): (r: Out<Value>)
    ensures Kept(st, r)
  {
    match c.prim(name, vs, st.tick)
    case PrimOk(v) => Done(v, st.(tick := st.tick + 1))
    case PrimErr => Panics(ProviderFailed)
  }

  function CallFunction(c: Ctx, fuel: nat, params: seq<Param>, body: seq<Stmt>, env: nat, args: seq<Arg>,
      st: St): (r: Out<Value>)
    ensures Kept(st, r)
    decreases fuel, 4, 0
  {
    var callee := |st.frames|;
    match BindParams(c, fuel, params, 0, args, callee, st.(frames := st.frames + [Frame(map[], env)]))
    case Panics(p) => Panics(p)
    case NoFuel => NoFuel
    case Done(_, st1) =>
      match EvalStmts(c, fuel, body, VNil, st1.(env := callee))
      case Panics(p) => Panics(p)
      case NoFuel => NoFuel
      case Done(v, st2) =>
        var back := st2.(env := st1.env);
        match v
        case VReturn(w) => Done(w, back)
        case VBreak => Panics(BreakOutsideLoop)
        case VContinue => Panics(ContinueOutsideLoop)
        case _ => Done(v, back)
  }

  /** Bind every parameter in the callee's frame; arguments and defaults are
      evaluated in the caller's scope. */
  function BindParams(c: Ctx, fuel: nat, params: seq<Param>, argIdx: nat, args: seq<Arg>, callee: nat,
      st: St): (r: Out<()>)
    ensures Kept(st, r)
    decreases fuel, 3, |params|
  {
    if |params| == 0 then Done((), st)
    else if params[0].name == "self" then BindParams(c, fuel, params[1..], argIdx, args, callee, st)
    else
      match BindParam(c, fuel, params[0], argIdx, args, st)
      case Panics(p) => Panics(p)
      case NoFuel => NoFuel
      case Done(v, st1) =>
        BindParams(c, fuel, params[1..], argIdx + 1, args, callee,
                   st1.(frames := SetVar(st1.frames, callee, params[0].name, v)))
  }

  /** The argument of this name, else the positional one, else the default:
      each is tried while the value so far is nil. */
  function BindParam(c: Ctx, fuel: nat, param: Param, argIdx: nat, args: seq<Arg>, st: St): (r: Out<Value>)
    ensures Kept(st, r)
    decreases fuel, 2, 0
  {
    match EvalIfNil(c, fuel, VNil, FindArg(args, param.name), st)
    case Panics(p) => Panics(p)
    case NoFuel => NoFuel
    case Done(named, st1) =>
      match EvalIfNil(c, fuel, named, Positional(args, argIdx), st1)
      case Panics(p) => Panics(p)
      case NoFuel => NoFuel
      case Done(v, st2) => EvalIfNil(c, fuel, v, param.default, st2)
  }

  function Positional(args: seq<Arg>, argIdx: nat): Option<Expr> {
    if argIdx < |args| && args[argIdx].name == "" then Some(args[argIdx].value) else None
  }

  function EvalIfNil(c: Ctx, fuel: nat, v: Value, e: Option<Expr>, st: St): (r: Out<Value>)
    ensures Kept(st, r)
    decreases fuel, 1, 0
  {
    if v.VNil? && e.Some? then Eval(c, fuel, e.value, st) else Done(v, st)
  }

  const WITH_CAPABILITY := "with_capability"

  /** The builtin `with_capability(name, fn)`. */
  function WithCapability(c: Ctx, fuel: nat, vs: seq<Value>, st: St): (r: Out<Value>)
    ensures Kept(st, r)
    decreases fuel, 4, 0
  {
    if |vs| != 2 || !vs[0].VStr? || !(vs[1].VFn? || vs[1].VPrim?) then Done(ErrResult("capability_bad_args"), st)
    else
      match ApplyCallback(c, fuel, vs[1], st.(caps := st.caps + [vs[0].s]))
      case Done(v, st1) => Done(v, st1.(caps := if |st1.caps| > 0 then st1.caps[..|st1.caps| - 1] else []))
      case other => other
  }

  /** Run a callback without arguments. */
  function ApplyCallback(c: Ctx, fuel: nat, f: Value, st: St): (r: Out<Value>)
    ensures Kept(st, r)
    decreases fuel, 3, 0
  {
    match f
    case VFn(params, body, env) =>
      (match EvalStmts(c, fuel, body, VNil, st.(frames := st.frames + [Frame(map[], env)], env := |st.frames|))
       case Done(v, st1) => Done(if v.VReturn? then v.value else v, st1.(env := st.env))
       case other => other)
    case VPrim(name) => CallPrim(c, name, [], st)
    case _ => Panics(ProviderFailed)
  }

  function EvalTool(c: Ctx, fuel: nat, tool: Tool, args: seq<Arg>, st: St): (r: Out<Value>)
    ensures Kept(st, r)
    decreases fuel, 5, 0
  {
    if tool.capability != "" && tool.capability !in st.caps then Done(ErrResult("capability_denied"), st)
    else
      match EvalInputs(c, fuel, tool.inputs, 0, args, map[], st)
      case Panics(p) => Panics(p)
      case NoFuel => NoFuel
      case Done(inputs, st1) =>
        match EvalScoped(c, fuel, tool.body, map["self" := VNil, "i" := VObject("Input", inputs)], st1)
        case Done(v, st2) => Done(if v.VReturn? then v.value else v, st2)
        case other => other
  }

  function EvalInputs(c: Ctx, fuel: nat, inputs: seq<Param>, idx: nat, args: seq<Arg>, fields: map<string, Value>,
      st: St)
    : (r: Out<map<string, Value>>)
    ensures Kept(st, r)
    decreases fuel, 3, |inputs|
  {
    if |inputs| == 0 then Done(fields, st)
    else
      match BindParam(c, fuel, inputs[0], idx, args, st)
      case Panics(p) => Panics(p)
      case NoFuel => NoFuel
      case Done(v, st1) => EvalInputs(c, fuel, inputs[1..], idx + 1, args, fields[inputs[0].name := v], st1)
  }

  /** `handle E with h { body }`: the handler is evaluated outside, the body
      under the pushed handler, which is popped again. */
  function EvalHandle(c: Ctx, fuel: nat, effect: string, handler: Expr, body: seq<Stmt>, st: St): (r: Out<Value>)
    ensures Kept(st, r)
    decreases fuel, 4, 0
  {
    match Eval(c, fuel, handler, st)
    case Panics(p) => Panics(p)
    case NoFuel => NoFuel
    case Done(h, st1) =>
      match EvalScoped(c, fuel, body, map[], st1.(handlers := st1.handlers + [Handler(effect, h)]))
      case Done(v, st2) => Done(if v.VReturn? then v.value else v, st2.(handlers := Popped(st2.handlers)))
      case other => other
  }

  function Popped(handlers: seq<Handler<Value>>): seq<Handler<Value>> {
    if |handlers| > 0 then handlers[..|handlers| - 1] else []
  }

  function EvalForIn(c: Ctx, fuel: nat, variable: string, iterable: Expr, body: seq<Stmt>, st: St): (r: Out<Value>)
    ensures Kept(st, r)
    decreases fuel, 5, 0
  {
    match Eval(c, fuel, iterable, st)
    case Panics(p) => Panics(p)
    case NoFuel => NoFuel
    case Done(v, st1) => if v.VList? then EvalFor(c, fuel, variable, v.elems, body, VNil, st1) else Panics(NotAList)
  }

  function LoopVars(variable: string, v: Value): map<string, Value> {
    if variable == "_" then map[] else map[variable := v]
  }

  function EvalFor(c: Ctx, fuel: nat, variable: string, elems: seq<Value>, body: seq<Stmt>, last: Value,
      st: St): (r: Out<Value>)
    ensures Kept(st, r)
    decreases fuel, 4, |elems|
  {
    if |elems| == 0 then Done(last, st)
    else
      match EvalScoped(c, fuel, body, LoopVars(variable, elems[0]), st)
      case Panics(p) => Panics(p)
      case NoFuel => NoFuel
      case Done(v, st1) =>
        match v
        case VReturn(_) => Done(v, st1)
        case VBreak => Done(VNil, st1)
        case _ => EvalFor(c, fuel, variable, elems[1..], body, if v.VContinue? then VNil else v, st1)
  }

  function EvalWhile(c: Ctx, fuel: nat, cond: Expr, body: seq<Stmt>, last: Value, st: St): (r: Out<Value>)
    ensures Kept(st, r)
    decreases fuel, 4, 0
  {
    match Eval(c, fuel, cond, st)
    case Panics(p) => Panics(p)
    case NoFuel => NoFuel
    case Done(b, st1) =>
      if b != VBool(true) then Done(last, st1) else EvalAgain(c, fuel, cond, body, st1)
  }

  /** A loop whose condition just held. */
  function EvalAgain(c: Ctx, fuel: nat, cond: Expr, body: seq<Stmt>, st: St): (r: Out<Value>)
    ensures Kept(st, r)
    decreases fuel, 3, 1
  {
    match EvalScoped(c, fuel, body, map[], st)
    case Panics(p) => Panics(p)
    case NoFuel => NoFuel
    case Done(v, st1) =>
      match v
      case VReturn(_) => Done(v, st1)
      case VBreak => Done(VNil, st1)
      case _ => if fuel == 0 then NoFuel else EvalWhile(c, fuel - 1, cond, body, if v.VContinue? then VNil else v, st1)
  }
}
