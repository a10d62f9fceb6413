/** The interpreter object: scopes, effect stack and capability stack are
    fields saved and restored around every construct, and each method computes
    what the evaluation functions say. */
module Interpreter {
  import opened Options
  import opened EffectStack
  import opened Evaluation

  /** The result of evaluating: a value, a panic, or the depth used up. */
  datatype Res<T> = Val(v: T) | Threw(p: Panic) | Spent

  function AsOut<T>(r: Res<T>, st: St): Out<T> {
    match r
    case Val(v) => Done(v, st)
    case Threw(p) => Panics(p)
    case Spent => NoFuel
  }

  function Prefixed(vs: seq<Value>, r: Out<seq<Value>>): Out<seq<Value>> {
    match r
    case Done(ws, st) => Done(vs + ws, st)
    case other => other
  }

  lemma PrefixedNone(r: Out<seq<Value>>)
    ensures Prefixed([], r) == r
  {
    if r.Done? { assert [] + r.value == r.value; }
  }

  lemma PrefixedStep(vs: seq<Value>, v: Value, r: Out<seq<Value>>)
    ensures Prefixed(vs, Prefixed([v], r)) == Prefixed(vs + [v], r)
  {
    if r.Done? {
      assert vs + ([v] + r.value) == vs + [v] + r.value;
    }
  }

  /** One test of a loop's condition. */
  lemma WhileStep(c: Ctx, fuel: nat, cond: Expr, body: seq<Stmt>, last: Value, st: St)
    ensures var b := Eval(c, fuel, cond, st);
            EvalWhile(c, fuel, cond, body, last, st)
            == if !b.Done? then b
               else if b.value != VBool(true) then Done(last, b.st)
               else EvalAgain(c, fuel, cond, body, b.st)
  {
    hide Eval, EvalAgain, Kept;
  }

  /** An index after its owner. */
  lemma IndexStep(c: Ctx, fuel: nat, owner: Expr, index: Expr, st: St)
    ensures var v := Eval(c, fuel, owner, st);
            EvalIndex(c, fuel, owner, index, st) == if !v.Done? then v else EvalIndexed(c, fuel, v.value, index, v.st)
  {
    hide Eval, EvalIndexed, Kept;
  }

  /** One run of a loop's body. */
  lemma AgainStep(c: Ctx, fuel: nat, cond: Expr, body: seq<Stmt>, st: St)
    ensures var r := EvalScoped(c, fuel, body, map[], st);
            EvalAgain(c, fuel, cond, body, st)
            == if !r.Done? || r.value.VReturn? then r
               else if r.value.VBreak? then Done(VNil, r.st)
               else if fuel == 0 then NoFuel
               else EvalWhile(c, fuel - 1, cond, body, if r.value.VContinue? then VNil else r.value, r.st)
  {
    hide EvalScoped, EvalWhile, Kept;
  }

  predicate IsCompound(e: Expr) {
    e.Call? || e.Field? || e.List? || e.Object? || e.Wrap?
  }

  predicate IsControl(e: Expr) {
    e.If? || e.Block? || e.Match? || e.Handle? || e.ForIn? || e.While?
  }

  class Interpreter {
    const c: Ctx
    const effects: EffectStack<Value>
    var frames: seq<Frame>
    var env: nat
    var caps: seq<string>
    var tick: nat

    ghost predicate Valid()
      reads effects
    {
      effects.Valid()
    }

    function Snap(): St
      reads this, effects
    {
      St(frames, env, effects.handlers, caps, tick)
    }

    /** Providers are installed at the bottom of the effect stack. */
    constructor (c: Ctx, globals: map<string, Value>, providers: seq<Handler<Value>>)
      ensures Valid() && this.c == c && fresh(effects)
      ensures Snap() == St([Frame(globals, 0)], 0, providers, [], 0)
    {
      var stack := new EffectStack<Value>();
      for i := 0 to |providers|
        invariant fresh(stack) && stack.Valid() && stack.handlers == providers[..i]
      {
        stack.Push(providers[i]);
      }
      this.c, effects, frames, env, caps, tick := c, stack, [Frame(globals, 0)], 0, [], 0;
    }

    method EvalExpression(fuel: nat, e: Expr) returns (r: Res<Value>)
      requires Valid()
      modifies this, effects
      ensures Valid() && AsOut(r, Snap()) == Eval(c, fuel, e, old(Snap()))
      decreases fuel, 0, 1
    {
      hide EvalInfix, EvalPrefix, EvalTry, EvalIndex, EvalAssign, EvalIf, EvalScoped, EvalMatch, EvalCall, EvalField,
        EvalList, EvalObject, EvalWrap, EvalHandle, EvalForIn, EvalWhile, EvalName, Kept;
      if fuel == 0 { return Spent; }
      if IsCompound(e) {
        r := EvalCompound(fuel, e);
        return;
      }
      if IsControl(e) {
        r := EvalControl(fuel, e);
        return;
      }
      match e
      case Nil => r := Val(VNil);
      case Num(n) => r := Val(VInt(n));
      case Flag(b) => r := Val(VBool(b));
      case Text(s) => r := Val(VStr(s));
      case Name(name) => r := Val(EvalName(c, name, Snap()));
      case Infix(op, left, right) => r := EvalInfixOp(fuel - 1, op, left, right);
      case Prefix(sign, operand) => r := EvalPrefixOp(fuel - 1, sign, operand);
      case Try(operand) => r := EvalPostfix(fuel - 1, operand);
      case Index(owner, index) => r := EvalIndexExpr(fuel - 1, owner, index);
      case Assign(target, how, value) => r := EvalAssignment(fuel - 1, target, how, value);
      case Lambda(params, body) => r := Val(VFn(params, body, env));
    }

    /** Calls, members and the forms that build values. */
    method EvalCompound(fuel: nat, e: Expr) returns (r: Res<Value>)
      requires Valid() && fuel > 0 && IsCompound(e)
      modifies this, effects
      ensures Valid() && AsOut(r, Snap()) == Eval(c, fuel, e, old(Snap()))
      decreases fuel, 0, 0
    {
      hide EvalCall, EvalField, EvalList, EvalObject, EvalWrap, Kept;
      match e
      case Call(callee, args) => r := EvalCallExpr(fuel - 1, callee, args);
      case Field(owner, field) => r := EvalFieldAccess(fuel - 1, owner, field);
      case List(elems) => r := EvalListLiteral(fuel - 1, elems);
      case Object(tname, fields) => r := EvalObjectLiteral(fuel - 1, tname, fields);
      case Wrap(tname, variant, payload) => r := EvalEnumConstruction(fuel - 1, tname, variant, payload);
    }

    /** The forms with a body of their own. */
    method EvalControl(fuel: nat, e: Expr) returns (r: Res<Value>)
      requires Valid() && fuel > 0 && IsControl(e)
      modifies this, effects
      ensures Valid() && AsOut(r, Snap()) == Eval(c, fuel, e, old(Snap()))
      decreases fuel, 0, 0
    {
      hide EvalIf, EvalScoped, EvalMatch, EvalHandle, EvalForIn, EvalWhile, Kept;
      match e
      case If(cond, consequence, alternative) => r := EvalConditional(fuel - 1, cond, consequence, alternative);
      case Block(stmts) => r := EvalBlockScoped(fuel - 1, stmts, map[]);
      case Match(subject, arms) => r := EvalMatchExpr(fuel - 1, subject, arms);
      case Handle(effect, handler, body) => r := EvalHandleExpr(fuel - 1, effect, handler, body);
      case ForIn(variable, iterable, body) => r := EvalForInExpr(fuel - 1, variable, iterable, body);
      case While(cond, body) => r := EvalWhileExpr(fuel - 1, cond, body, VNil);
    }

    method EvalInfixOp(fuel: nat, op: Op, left: Expr, right: Expr) returns (r: Res<Value>)
      requires Valid()
      modifies this, effects
      ensures Valid() && AsOut(r, Snap()) == EvalInfix(c, fuel, op, left, right, old(Snap()))
      decreases fuel, 4, 0
    {
      hide Eval, EvalRight, Kept;
      ghost var before := Snap();
      var l := EvalExpression(fuel, left);
      assert AsOut(l, Snap()) == Eval(c, fuel, left, before);
      if !l.Val? || l.v.VReturn? {
        r := l;
        assert AsOut(r, Snap()) == EvalInfix(c, fuel, op, left, right, before);
        return;
      }
      ghost var mid := Snap();
      assert EvalInfix(c, fuel, op, left, right, before) == EvalRight(c, fuel, op, l.v, right, mid);
      r := EvalRightOperand(fuel, op, l.v, right);
    }

    method EvalRightOperand(fuel: nat, op: Op, l: Value, right: Expr) returns (r: Res<Value>)
      requires Valid()
      modifies this, effects
      ensures Valid() && AsOut(r, Snap()) == EvalRight(c, fuel, op, l, right, old(Snap()))
      decreases fuel, 3, 0
    {
      hide EvalLogic, EvalArith, EvalCoalesce, Kept;
      match op
      case Coalesce => r := EvalOtherwise(fuel, l, right);
      case And => r := EvalShortCircuit(fuel, l == VBool(true), false, right);
      case Or => r := EvalShortCircuit(fuel, l == VBool(false), l == VBool(true), right);
      case _ => r := EvalOperands(fuel, op, l, right);
    }

    method EvalOtherwise(fuel: nat, l: Value, right: Expr) returns (r: Res<Value>)
      requires Valid()
      modifies this, effects
      ensures Valid() && AsOut(r, Snap()) == EvalCoalesce(c, fuel, l, right, old(Snap()))
      decreases fuel, 2, 0
    {
      hide Eval, IsMissing, Unwrapped, Kept;
      if IsMissing(l) { r := EvalExpression(fuel, right); } else { r := Val(Unwrapped(l)); }
    }

    method EvalShortCircuit(fuel: nat, needed: bool, short: bool, right: Expr) returns (r: Res<Value>)
      requires Valid()
      modifies this, effects
      ensures Valid() && AsOut(r, Snap()) == EvalLogic(c, fuel, needed, short, right, old(Snap()))
      decreases fuel, 2, 0
    {
      hide Eval, Kept;
      if !needed { return Val(VBool(short)); }
      r := EvalExpression(fuel, right);
      if r.Val? && !r.v.VBool? { r := Val(VBool(false)); }
    }

    method EvalOperands(fuel: nat, op: Op, l: Value, right: Expr) returns (r: Res<Value>)
      requires Valid()
      modifies this, effects
      ensures Valid() && AsOut(r, Snap()) == EvalArith(c, fuel, op, l, right, old(Snap()))
      decreases fuel, 2, 0
    {
      hide Eval, Arith, Kept;
      ghost var before := Snap();
      r := EvalExpression(fuel, right);
      assert AsOut(r, Snap()) == Eval(c, fuel, right, before);
      if r.Val? && !r.v.VReturn? {
        r := Val(Arith(c, op, l, r.v));
        assert EvalArith(c, fuel, op, l, right, before) == Done(r.v, Snap());
      } else {
        assert EvalArith(c, fuel, op, l, right, before) == AsOut(r, Snap());
      }
    }

    method EvalPostfix(fuel: nat, operand: Expr) returns (r: Res<Value>)
      requires Valid()
      modifies this, effects
      ensures Valid() && AsOut(r, Snap()) == EvalTry(c, fuel, operand, old(Snap()))
      decreases fuel, 4, 0
    {
      hide Eval, Kept;
      r := EvalExpression(fuel, operand);
      if r.Val? && r.v.VEnum? && r.v.tname == "Result" {
        r := Val(if r.v.variant == "Ok" then r.v.payload else VReturn(r.v));
      }
    }

    method EvalPrefixOp(fuel: nat, sign: PrefixOp, operand: Expr) returns (r: Res<Value>)
      requires Valid()
      modifies this, effects
      ensures Valid() && AsOut(r, Snap()) == EvalPrefix(c, fuel, sign, operand, old(Snap()))
      decreases fuel, 4, 0
    {
      hide Eval, Signed, Kept;
      r := EvalExpression(fuel, operand);
      if r.Val? { r := Val(Signed(sign, r.v)); }
    }

    method EvalIndexExpr(fuel: nat, owner: Expr, index: Expr) returns (r: Res<Value>)
      requires Valid()
      modifies this, effects
      ensures Valid() && AsOut(r, Snap()) == EvalIndex(c, fuel, owner, index, old(Snap()))
      decreases fuel, 4, 0
    {
      hide Eval, EvalIndex, EvalIndexed, Kept;
      IndexStep(c, fuel, owner, index, Snap());
      r := EvalExpression(fuel, owner);
      if r.Val? { r := EvalIndexOf(fuel, r.v, index); }
    }

    method EvalIndexOf(fuel: nat, v: Value, index: Expr) returns (r: Res<Value>)
      requires Valid()
      modifies this, effects
      ensures Valid() && AsOut(r, Snap()) == EvalIndexed(c, fuel, v, index, old(Snap()))
      decreases fuel, 2, 0
    {
      hide Eval, Indexed, Kept;
      r := EvalExpression(fuel, index);
      if r.Val? { r := Val(Indexed(v, r.v)); }
    }

    method EvalAssignment(fuel: nat, target: string, how: AssignOp, value: Expr) returns (r: Res<Value>)
      requires Valid()
      modifies this, effects
      ensures Valid() && AsOut(r, Snap()) == EvalAssign(c, fuel, target, how, value, old(Snap()))
      decreases fuel, 4, 0
    {
      hide Eval, Update, Kept, Combined, Get;
      r := EvalExpression(fuel, value);
      if r.Val? {
        var before := Get(frames, env, target);
        if before.Some? { frames := Update(frames, env, target, Combined(how, before.value, r.v)); }
      }
    }

    method EvalConditional(fuel: nat, cond: Expr, consequence: seq<Stmt>, alternative: Else) returns (r: Res<Value>)
      requires Valid()
      modifies this, effects
      ensures Valid() && AsOut(r, Snap()) == EvalIf(c, fuel, cond, consequence, alternative, old(Snap()))
      decreases fuel, 4, 0
    {
      hide Eval, EvalScoped, Truthy, Kept;
      r := EvalExpression(fuel, cond);
      if !r.Val? { return; }
      if Truthy(r.v) {
        r := EvalBlockScoped(fuel, consequence, map[]);
      } else if alternative.Else? {
        r := EvalBlockScoped(fuel, alternative.stmts, map[]);
      } else {
        r := Val(VNil);
      }
    }

    /** The statements of a block, stopping at the first signal. */
    method EvalBlock(fuel: nat, stmts: seq<Stmt>) returns (r: Res<Value>)
      requires Valid()
      modifies this, effects
      ensures Valid() && AsOut(r, Snap()) == EvalStmts(c, fuel, stmts, VNil, old(Snap()))
      decreases fuel, 2, |stmts|
    {
      hide EvalStmt, Kept;
      var last := VNil;
      var i := 0;
      ghost var goal := EvalStmts(c, fuel, stmts, VNil, Snap());
      while i < |stmts|
        invariant 0 <= i <= |stmts| && Valid()
        invariant EvalStmts(c, fuel, stmts[i..], last, Snap()) == goal
        decreases |stmts| - i
      {
        assert stmts[i..][1..] == stmts[i + 1..];
        r := EvalStatement(fuel, stmts[i]);
        if !r.Val? || IsSignal(r.v) { return; }
        last := r.v;
        i := i + 1;
      }
      r := Val(last);
    }

    method EvalStatement(fuel: nat, s: Stmt) returns (r: Res<Value>)
      requires Valid()
      modifies this, effects
      ensures Valid() && AsOut(r, Snap()) == EvalStmt(c, fuel, s, old(Snap()))
      decreases fuel, 1, 0
    {
      hide Eval, SetVar, Kept;
      match s
      case Break => r := Val(VBreak);
      case Continue => r := Val(VContinue);
      case Do(value) => r := EvalExpression(fuel, value);
      case Return(value) =>
        r := EvalExpression(fuel, value);
        if r.Val? { r := Val(VReturn(r.v)); }
      case Let(name, value) =>
        r := EvalExpression(fuel, value);
        if r.Val? && !r.v.VReturn? { frames := SetVar(frames, env, name, r.v); }
    }

    method EvalBlockScoped(fuel: nat, stmts: seq<Stmt>, vars: map<string, Value>) returns (r: Res<Value>)
      requires Valid()
      modifies this, effects
      ensures Valid() && AsOut(r, Snap()) == EvalScoped(c, fuel, stmts, vars, old(Snap()))
      decreases fuel, 3, 0
    {
      hide EvalStmts, Kept;
      var prev := env;
      frames, env := frames + [Frame(vars, env)], |frames|;
      r := EvalBlock(fuel, stmts);
      env := prev;
    }

    method EvalMatchExpr(fuel: nat, subject: Expr, arms: seq<Arm>) returns (r: Res<Value>)
      requires Valid()
      modifies this, effects
      ensures Valid() && AsOut(r, Snap()) == EvalMatch(c, fuel, subject, arms, old(Snap()))
      decreases fuel, 4, 0
    {
      hide Eval, EvalArms, Kept;
      r := EvalExpression(fuel, subject);
      if r.Val? { r := EvalMatchArms(fuel, r.v, arms); }
    }

    /** The first arm whose pattern matches and whose guard holds. */
    method EvalMatchArms(fuel: nat, subject: Value, arms: seq<Arm>) returns (r: Res<Value>)
      requires Valid()
      modifies this, effects
      ensures Valid() && AsOut(r, Snap()) == EvalArms(c, fuel, subject, arms, old(Snap()))
      decreases fuel, 3, |arms|
    {
      hide EvalGuard, EvalInScope, MatchPattern, Kept;
      var i := 0;
      ghost var goal := EvalArms(c, fuel, subject, arms, Snap());
      while i < |arms|
        invariant 0 <= i <= |arms| && Valid()
        invariant EvalArms(c, fuel, subject, arms[i..], Snap()) == goal
        decreases |arms| - i
      {
        assert arms[i..][1..] == arms[i + 1..];
        var bindings := MatchPattern(subject, arms[i].pattern);
        if bindings.Some? {
          var holds := GuardHolds(fuel, arms[i].guard, bindings.value);
          if !holds.Val? { return if holds.Threw? then Threw(holds.p) else Spent; }
          if holds.v {
            r := EvalIn(fuel, arms[i].body, bindings.value);
            return;
          }
        }
        i := i + 1;
      }
      r := Val(VNil);
    }

    method EvalIn(fuel: nat, e: Expr, vars: map<string, Value>) returns (r: Res<Value>)
      requires Valid()
      modifies this, effects
      ensures Valid() && AsOut(r, Snap()) == EvalInScope(c, fuel, e, vars, old(Snap()))
      decreases fuel, 1, 0
    {
      hide Eval, Kept;
      var prev := env;
      frames, env := frames + [Frame(vars, env)], |frames|;
      r := EvalExpression(fuel, e);
      env := prev;
    }

    method GuardHolds(fuel: nat, guard: Option<Expr>, vars: map<string, Value>) returns (r: Res<bool>)
      requires Valid()
      modifies this, effects
      ensures Valid() && AsOut(r, Snap()) == EvalGuard(c, fuel, guard, vars, old(Snap()))
      decreases fuel, 2, 0
    {
      hide EvalInScope, Kept;
      if guard.None? { return Val(true); }
      var v := EvalIn(fuel, guard.value, vars);
      match v
      case Val(b) => r := Val(b == VBool(true));
      case Threw(p) => r := Threw(p);
      case Spent => r := Spent;
    }

    method EvalExpressions(fuel: nat, es: seq<Expr>) returns (r: Res<seq<Value>>)
      requires Valid()
      modifies this, effects
      ensures Valid() && AsOut(r, Snap()) == EvalAll(c, fuel, es, old(Snap()))
      decreases fuel, 2, |es|
    {
      hide Eval, Kept;
      var vs: seq<Value> := [];
      var i := 0;
      ghost var goal := EvalAll(c, fuel, es, Snap());
      PrefixedNone(goal);
      while i < |es|
        invariant 0 <= i <= |es| && Valid()
        invariant Prefixed(vs, EvalAll(c, fuel, es[i..], Snap())) == goal
        decreases |es| - i
      {
        assert es[i..][1..] == es[i + 1..];
        ghost var rest := EvalAll(c, fuel, es[i..], Snap());
        var v := EvalExpression(fuel, es[i]);
        if !v.Val? { return if v.Threw? then Threw(v.p) else Spent; }
        PrefixedStep(vs, v.v, EvalAll(c, fuel, es[i + 1..], Snap()));
        vs := vs + [v.v];
        i := i + 1;
      }
      assert vs + [] == vs;
      r := Val(vs);
    }

    method EvalListLiteral(fuel: nat, elems: seq<Expr>) returns (r: Res<Value>)
      requires Valid()
      modifies this, effects
      ensures Valid() && AsOut(r, Snap()) == EvalList(c, fuel, elems, old(Snap()))
      decreases fuel, 4, 0
    {
      hide EvalAll, Kept;
      var vs := EvalExpressions(fuel, elems);
      match vs
      case Val(v) => r := Val(VList(v));
      case Threw(p) => r := Threw(p);
      case Spent => r := Spent;
    }

    method EvalObjectLiteral(fuel: nat, tname: string, fields: seq<Arg>) returns (r: Res<Value>)
      requires Valid()
      modifies this, effects
      ensures Valid() && AsOut(r, Snap()) == EvalObject(c, fuel, tname, fields, old(Snap()))
      decreases fuel, 4, 0
    {
      hide EvalAll, FieldMap, ArgValues, Kept;
      var vs := EvalExpressions(fuel, ArgValues(fields));
      match vs
      case Val(v) => r := Val(VObject(tname, FieldMap(fields, v)));
      case Threw(p) => r := Threw(p);
      case Spent => r := Spent;
    }

    method EvalEnumConstruction(fuel: nat, tname: string, variant: string, payload: Expr) returns (r: Res<Value>)
      requires Valid()
      modifies this, effects
      ensures Valid() && AsOut(r, Snap()) == EvalWrap(c, fuel, tname, variant, payload, old(Snap()))
      decreases fuel, 4, 0
    {
      hide Eval, Kept;
      r := EvalExpression(fuel, payload);
      if r.Val? { r := Val(VEnum(tname, variant, r.v)); }
    }

    /** A namespace member is looked up in the handler the effect stack resolves to. */
    method EvalFieldAccess(fuel: nat, owner: Expr, field: string) returns (r: Res<Value>)
      requires Valid()
      modifies this, effects
      ensures Valid() && AsOut(r, Snap()) == EvalField(c, fuel, owner, field, old(Snap()))
      decreases fuel, 4, 0
    {
      hide Eval, FieldOf, TopDown, Kept;
      r := EvalExpression(fuel, owner);
      if !r.Val? { return; }
      if r.v.VNamespace? {
        var provider := effects.Resolve(r.v.name);
        r := if provider.Some? then Val(FieldOf(provider.value, field)) else Threw(NoHandler(r.v.name));
      } else {
        r := Val(FieldOf(r.v, field));
      }
    }

    method EvalCallExpr(fuel: nat, callee: Expr, args: seq<Arg>) returns (r: Res<Value>)
      requires Valid()
      modifies this, effects
      ensures Valid() && AsOut(r, Snap()) == EvalCall(c, fuel, callee, args, old(Snap()))
      decreases fuel, 6, 0
    {
      hide Eval, EvalAll, Invoke, EvalTool, ArgValues, Kept;
      if callee.Field? && callee.owner.Name? && callee.owner.name in c.tools && callee.field == "run" {
        r := EvalToolRun(fuel, c.tools[callee.owner.name], args);
        return;
      }
      r := EvalExpression(fuel, callee);
      if !r.Val? || r.v.VReturn? { return; }
      var vs := EvalExpressions(fuel, ArgValues(args));
      match vs
      case Val(v) => r := InvokeValue(fuel, r.v, args, v);
      case Threw(p) => r := Threw(p);
      case Spent => r := Spent;
    }

    method InvokeValue(fuel: nat, f: Value, args: seq<Arg>, vs: seq<Value>) returns (r: Res<Value>)
      requires Valid()
      modifies this, effects
      ensures Valid() && AsOut(r, Snap()) == Invoke(c, fuel, f, args, vs, old(Snap()))
      decreases fuel, 5, 0
    {
      hide CallFunction, WithCapability, CallPrim, Kept;
      match f
      case VFn(params, body, fnEnv) => r := Apply(fuel, params, body, fnEnv, args);
      case VPrim(name) =>
        if name == WITH_CAPABILITY { r := RunWithCapability(fuel, vs); } else { r := CallBuiltin(name, vs); }
      case _ => r := Val(VNil);
    }

    method CallBuiltin(name: string, vs: seq<Value>) returns (r: Res<Value>)
      requires Valid()
      modifies this, effects
      ensures Valid() && AsOut(r, Snap()) == CallPrim(c, name, vs, old(Snap()))
    {
      hide Kept;
      match c.prim(name, vs, tick)
      case PrimOk(v) =>
        tick := tick + 1;
        r := Val(v);
      case PrimErr => r := Threw(ProviderFailed);
    }

    /** A function call: bind the parameters, run the body in the new scope, come back. */
    method Apply(fuel: nat, params: seq<Param>, body: seq<Stmt>, fnEnv: nat, args: seq<Arg>) returns (r: Res<Value>)
      requires Valid()
      modifies this, effects
      ensures Valid() && AsOut(r, Snap()) == CallFunction(c, fuel, params, body, fnEnv, args, old(Snap()))
      decreases fuel, 4, 0
    {
      hide BindParams, EvalStmts, Kept;
      var callee := |frames|;
      frames := frames + [Frame(map[], fnEnv)];
      var bound := BindParameters(fuel, params, args, callee);
      if !bound.Val? { return if bound.Threw? then Threw(bound.p) else Spent; }
      var prev := env;
      env := callee;
      r := EvalBlock(fuel, body);
      env := prev;
      if r.Val? {
        match r.v
        case VReturn(w) => r := Val(w);
        case VBreak => r := Threw(BreakOutsideLoop);
        case VContinue => r := Threw(ContinueOutsideLoop);
        case _ =>
      }
    }

    method BindParameters(fuel: nat, params: seq<Param>, args: seq<Arg>, callee: nat) returns (r: Res<()>)
      requires Valid()
      modifies this, effects
      ensures Valid() && AsOut(r, Snap()) == BindParams(c, fuel, params, 0, args, callee, old(Snap()))
      decreases fuel, 3, |params|
    {
      hide BindParam, SetVar, Kept;
      var argIdx := 0;
      var i := 0;
      ghost var goal := BindParams(c, fuel, params, 0, args, callee, Snap());
      while i < |params|
        invariant 0 <= i <= |params| && Valid()
        invariant BindParams(c, fuel, params[i..], argIdx, args, callee, Snap()) == goal
        decreases |params| - i
      {
        assert params[i..][1..] == params[i + 1..];
        if params[i].name != "self" {
          var v := BindParameter(fuel, params[i], argIdx, args);
          if !v.Val? { return if v.Threw? then Threw(v.p) else Spent; }
          frames := SetVar(frames, callee, params[i].name, v.v);
          argIdx := argIdx + 1;
        }
        i := i + 1;
      }
      r := Val(());
    }

    method BindParameter(fuel: nat, param: Param, argIdx: nat, args: seq<Arg>) returns (r: Res<Value>)
      requires Valid()
      modifies this, effects
      ensures Valid() && AsOut(r, Snap()) == BindParam(c, fuel, param, argIdx, args, old(Snap()))
      decreases fuel, 2, 0
    {
      hide EvalIfNil, FindArg, Positional, Kept;
      r := EvalUnlessBound(fuel, VNil, FindArg(args, param.name));
      if !r.Val? { return; }
      r := EvalUnlessBound(fuel, r.v, Positional(args, argIdx));
      if !r.Val? { return; }
      r := EvalUnlessBound(fuel, r.v, param.default);
    }

    method EvalUnlessBound(fuel: nat, v: Value, e: Option<Expr>) returns (r: Res<Value>)
      requires Valid()
      modifies this, effects
      ensures Valid() && AsOut(r, Snap()) == EvalIfNil(c, fuel, v, e, old(Snap()))
      decreases fuel, 1, 0
    {
      hide Eval, Kept;
      if v.VNil? && e.Some? { r := EvalExpression(fuel, e.value); } else { r := Val(v); }
    }

    method RunWithCapability(fuel: nat, vs: seq<Value>) returns (r: Res<Value>)
      requires Valid()
      modifies this, effects
      ensures Valid() && AsOut(r, Snap()) == WithCapability(c, fuel, vs, old(Snap()))
      decreases fuel, 4, 0
    {
      hide ApplyCallback, Kept;
      if |vs| != 2 || !vs[0].VStr? || !(vs[1].VFn? || vs[1].VPrim?) {
        return Val(ErrResult("capability_bad_args"));
      }
      caps := caps + [vs[0].s];
      r := RunCallback(fuel, vs[1]);
      caps := if |caps| > 0 then caps[..|caps| - 1] else [];
    }

    method RunCallback(fuel: nat, f: Value) returns (r: Res<Value>)
      requires Valid()
      modifies this, effects
      ensures Valid() && AsOut(r, Snap()) == ApplyCallback(c, fuel, f, old(Snap()))
      decreases fuel, 3, 0
    {
      hide EvalStmts, CallPrim, Kept;
      match f
      case VFn(params, body, fnEnv) =>
        var prev := env;
        frames, env := frames + [Frame(map[], fnEnv)], |frames|;
        r := EvalBlock(fuel, body);
        env := prev;
        if r.Val? && r.v.VReturn? { r := Val(r.v.value); }
      case VPrim(name) => r := CallBuiltin(name, []);
      case _ => r := Threw(ProviderFailed);
    }

    method EvalToolRun(fuel: nat, tool: Tool, args: seq<Arg>) returns (r: Res<Value>)
      requires Valid()
      modifies this, effects
      ensures Valid() && AsOut(r, Snap()) == EvalTool(c, fuel, tool, args, old(Snap()))
      decreases fuel, 5, 0
    {
      hide EvalInputs, EvalScoped, Kept;
      if tool.capability != "" && tool.capability !in caps {
        return Val(ErrResult("capability_denied"));
      }
      var inputs := BindInputs(fuel, tool.inputs, 0, args, map[]);
      if !inputs.Val? { return if inputs.Threw? then Threw(inputs.p) else Spent; }
      r := EvalBlockScoped(fuel, tool.body, map["self" := VNil, "i" := VObject("Input", inputs.v)]);
      if r.Val? && r.v.VReturn? { r := Val(r.v.value); }
    }

    method BindInputs(fuel: nat, inputs: seq<Param>, idx: nat, args: seq<Arg>, fields: map<string,
        Value>) returns (r: Res<map<string, Value>>)
      requires Valid()
      modifies this, effects
      ensures Valid() && AsOut(r, Snap()) == EvalInputs(c, fuel, inputs, idx, args, fields, old(Snap()))
      decreases fuel, 3, |inputs|
    {
      hide BindParam, Kept;
      if |inputs| == 0 { return Val(fields); }
      var v := BindParameter(fuel, inputs[0], idx, args);
      if !v.Val? { return if v.Threw? then Threw(v.p) else Spent; }
      r := BindInputs(fuel, inputs[1..], idx + 1, args, fields[inputs[0].name := v.v]);
    }

    method EvalHandleExpr(fuel: nat, effect: string, handler: Expr, body: seq<Stmt>) returns (r: Res<Value>)
      requires Valid()
      modifies this, effects
      ensures Valid() && AsOut(r, Snap()) == EvalHandle(c, fuel, effect, handler, body, old(Snap()))
      decreases fuel, 4, 0
    {
      hide Eval, EvalScoped, Kept;
      r := EvalExpression(fuel, handler);
      if !r.Val? { return; }
      effects.Push(Handler(effect, r.v));
      r := EvalBlockScoped(fuel, body, map[]);
      effects.Pop();
      if r.Val? && r.v.VReturn? { r := Val(r.v.value); }
    }

    method EvalForInExpr(fuel: nat, variable: string, iterable: Expr, body: seq<Stmt>) returns (r: Res<Value>)
      requires Valid()
      modifies this, effects
      ensures Valid() && AsOut(r, Snap()) == EvalForIn(c, fuel, variable, iterable, body, old(Snap()))
      decreases fuel, 5, 0
    {
      hide Eval, EvalFor, Kept;
      r := EvalExpression(fuel, iterable);
      if !r.Val? { return; }
      if r.v.VList? { r := EvalForLoop(fuel, variable, r.v.elems, body); } else { r := Threw(NotAList); }
    }

    method EvalForLoop(fuel: nat, variable: string, elems: seq<Value>, body: seq<Stmt>) returns (r: Res<Value>)
      requires Valid()
      modifies this, effects
      ensures Valid() && AsOut(r, Snap()) == EvalFor(c, fuel, variable, elems, body, VNil, old(Snap()))
      decreases fuel, 4, |elems|
    {
      hide EvalScoped, LoopVars, Kept;
      var result := VNil;
      var i := 0;
      ghost var goal := EvalFor(c, fuel, variable, elems, body, VNil, Snap());
      while i < |elems|
        invariant 0 <= i <= |elems| && Valid()
        invariant EvalFor(c, fuel, variable, elems[i..], body, result, Snap()) == goal
        decreases |elems| - i
      {
        assert elems[i..][1..] == elems[i + 1..];
        r := EvalBlockScoped(fuel, body, LoopVars(variable, elems[i]));
        if !r.Val? || r.v.VReturn? { return; }
        if r.v.VBreak? { return Val(VNil); }
        result := if r.v.VContinue? then VNil else r.v;
        i := i + 1;
      }
      r := Val(result);
    }

    method EvalWhileExpr(fuel: nat, cond: Expr, body: seq<Stmt>, last: Value) returns (r: Res<Value>)
      requires Valid()
      modifies this, effects
      ensures Valid() && AsOut(r, Snap()) == EvalWhile(c, fuel, cond, body, last, old(Snap()))
      decreases fuel, 4, 0
    {
      hide Eval, EvalScoped, EvalWhile, EvalAgain, Kept;
      var result := last;
      var rest: nat := fuel;
      ghost var goal := EvalWhile(c, fuel, cond, body, last, Snap());
      while true
        invariant rest <= fuel && Valid()
        invariant EvalWhile(c, rest, cond, body, result, Snap()) == goal
        decreases rest
      {
        WhileStep(c, rest, cond, body, result, Snap());
        r := EvalExpression(rest, cond);
        if !r.Val? { return; }
        if r.v != VBool(true) { return Val(result); }
        AgainStep(c, rest, cond, body, Snap());
        r := EvalBlockScoped(rest, body, map[]);
        if !r.Val? || r.v.VReturn? { return; }
        if r.v.VBreak? { return Val(VNil); }
        result := if r.v.VContinue? then VNil else r.v;
        if rest == 0 { return Spent; }
        rest := rest - 1;
      }
    }
  }
}
