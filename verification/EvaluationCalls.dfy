/** The rules for what runs a body elsewhere or again: calls, tools, capabilities,
    handlers and loops. */
module EvaluationCalls {
  import opened Options
  import opened EffectStack
  import opened Evaluation
  import opened EvaluationRules

  // ---------- calls ----------

  predicate IsToolRun(c: Ctx, callee: Expr) {
    callee.Field? && callee.field == "run" && callee.owner.Name? && callee.owner.name in c.tools
  }

  /** A lambda keeps the scope it is written in. */
  lemma Lambdas(c: Ctx, fuel: nat, params: seq<Param>, body: seq<Stmt>, st: St)
    requires fuel > 0
    ensures Gives(c, fuel, Lambda(params, body), st, VFn(params, body, st.env), st)
  {
  }

  /** A call evaluates the callee, then all arguments, and invokes the value. */
  lemma Calls(c: Ctx, fuel: nat, callee: Expr, args: seq<Arg>, f: Value, vs: seq<Value>, st: St, sts: seq<St>)
    requires !IsToolRun(c, callee) && |sts| > 0 && Gives(c, fuel, callee, st, f, sts[0])
    ensures f.VReturn? ==> Gives(c, fuel + 1, Call(callee, args), st, f, sts[0])
    ensures !f.VReturn? && GivesAll(c, fuel, Values(args), vs, sts) ==>
              |sts| == |args| + 1
              && Eval(c, fuel + 1, Call(callee, args), st) == Invoke(c, fuel, f, args, vs, sts[|args|])
  {
    if !f.VReturn? && GivesAll(c, fuel, Values(args), vs, sts) {
      assert Values(args) == ArgValues(args);
      AllGiven(c, fuel, Values(args), vs, sts);
    }
    hide EvalAll, GivesAll, Invoke, Values, EvalTool;
    assert Eval(c, fuel + 1, Call(callee, args), st) == EvalCall(c, fuel, callee, args, st);
  }

  /** Builtins answer as they do, a builtin that fails panics, and what is neither a
      function nor a builtin gives nil. */
  lemma Invoked(c: Ctx, fuel: nat, f: Value, args: seq<Arg>, vs: seq<Value>, v: Value, st: St)
    ensures !f.VFn? && !f.VPrim? ==> Invoke(c, fuel, f, args, vs, st) == Done(VNil, st)
    ensures f.VPrim? && f.name != "with_capability" && c.prim(f.name, vs, st.tick) == PrimOk(v) ==>
              Invoke(c, fuel, f, args, vs, st) == Done(v, St(st.frames, st.env, st.handlers, st.caps, st.tick + 1))
    ensures f.VPrim? && f.name != "with_capability" && c.prim(f.name, vs, st.tick).PrimErr? ==>
              Invoke(c, fuel, f, args, vs, st) == Panics(ProviderFailed)
    ensures f.VFn? ==> Invoke(c, fuel, f, args, vs, st) == CallFunction(c, fuel, f.params, f.body, f.env, args, st)
  {
    hide CallFunction, WithCapability;
  }

  /** The first value that is not nil, of those there are, in the order given. */
  ghost predicate FirstNonNil(c: Ctx, fuel: nat, es: seq<Option<Expr>>, v: Value, st: St, st1: St)
    decreases |es|
  {
    if |es| == 0 then v == VNil && st1 == st
    else if es[0].None? then FirstNonNil(c, fuel, es[1..], v, st, st1)
    else
      exists w, mid :: Gives(c, fuel, es[0].value, st, w, mid)
        && if w != VNil then v == w && st1 == mid else FirstNonNil(c, fuel, es[1..], v, mid, st1)
  }

  /** `named` is the first argument that has this name. */
  predicate IsNamed(args: seq<Arg>, name: string, named: Option<Expr>) {
    if named.None? then forall k :: 0 <= k < |args| ==> args[k].name != name
    else exists k :: 0 <= k < |args| && args[k].name == name && named == Some(args[k].value)
                     && forall j :: 0 <= j < k ==> args[j].name != name
  }

  lemma {:induction false} FirstNamed(args: seq<Arg>, name: string, k: nat)
    ensures (forall j :: 0 <= j < |args| ==> args[j].name != name) ==> FindArg(args, name) == None
    ensures k < |args| && args[k].name == name && (forall j :: 0 <= j < k ==> args[j].name != name)
            ==> FindArg(args, name) == Some(args[k].value)
    decreases |args|
  {
    if |args| > 0 && args[0].name != name { FirstNamed(args[1..], name, if k > 0 then k - 1 else 0); }
  }

  lemma NamedIs(args: seq<Arg>, name: string, named: Option<Expr>)
    requires IsNamed(args, name, named)
    ensures FindArg(args, name) == named
  {
    if named.None? {
      FirstNamed(args, name, 0);
    } else {
      var k :| 0 <= k < |args| && args[k].name == name && named == Some(args[k].value)
               && forall j :: 0 <= j < k ==> args[j].name != name;
      FirstNamed(args, name, k);
    }
  }

  /** A parameter takes the argument of its name, the positional argument at its
      place, or its default: the first of them that is not nil. */
  lemma Parameters(c: Ctx, fuel: nat, p: Param, place: nat, args: seq<Arg>, named: Option<Expr>, v: Value, st: St,
      st1: St)
    requires IsNamed(args, p.name, named)
    requires var positional := if place < |args| && args[place].name == "" then Some(args[place].value) else None;
             FirstNonNil(c, fuel, [named, positional, p.default], v, st, st1)
    ensures BindParam(c, fuel, p, place, args, st) == Done(v, st1)
  {
    NamedIs(args, p.name, named);
    var positional := if place < |args| && args[place].name == "" then Some(args[place].value) else None;
    assert Positional(args, place) == positional;
    hide FindArg, Positional, FirstNonNil, IsNamed;
    assert [named, positional, p.default] == [named] + [positional, p.default];
    assert [positional, p.default] == [positional] + [p.default] && [p.default] == [p.default] + [];
    var v1, s1 := TakeSource(c, fuel, VNil, named, [positional, p.default], v, st, st1);
    var v2, s2 := TakeSource(c, fuel, v1, positional, [p.default], v, s1, st1);
    var v3, s3 := TakeSource(c, fuel, v2, p.default, [], v, s2, st1);
    assert v3 == v && s3 == st1 by { NothingLeft(c, fuel, v, s3, st1); }
    hide EvalIfNil;
  }

  lemma NothingLeft(c: Ctx, fuel: nat, v: Value, st: St, st1: St)
    ensures FirstNonNil(c, fuel, [], v, st, st1) <==> v == VNil && st1 == st
  {
  }

  lemma TakeSource(c: Ctx, fuel: nat, sofar: Value, e: Option<Expr>, rest: seq<Option<Expr>>, v: Value, st: St, st1: St)
      returns (w: Value, mid: St)
    requires if sofar == VNil then FirstNonNil(c, fuel, [e] + rest, v, st, st1) else sofar == v && st == st1
    ensures EvalIfNil(c, fuel, sofar, e, st) == Done(w, mid)
    ensures if w == VNil then FirstNonNil(c, fuel, rest, v, mid, st1) else w == v && mid == st1
  {
    assert ([e] + rest)[1..] == rest;
    hide Eval;
    if sofar != VNil || e.None? {
      w, mid := sofar, st;
    } else {
      w, mid :| Gives(c, fuel, e.value, st, w, mid)
                && if w != VNil then v == w && st1 == mid else FirstNonNil(c, fuel, rest, v, mid, st1);
    }
  }

  /** Binding parameters: `self` is skipped, every other one is put into the frame of
      the function, in order. */
  lemma Binding(c: Ctx, fuel: nat, params: seq<Param>, place: nat, args: seq<Arg>, frame: nat, v: Value, st: St,
      st1: St)
    ensures BindParams(c, fuel, [], place, args, frame, st) == Done((), st)
    ensures |params| > 0 && params[0].name == "self" ==>
              BindParams(c, fuel, params, place, args, frame, st)
              == BindParams(c, fuel, params[1..], place, args, frame, st)
    ensures |params| > 0 && params[0].name != "self" && BindParam(c, fuel, params[0], place, args, st) == Done(v, st1)
            && frame < |st1.frames|
            ==> var f := st1.frames[frame];
                BindParams(c, fuel, params, place, args, frame, st)
                == BindParams(c, fuel, params[1..], place + 1, args, frame,
                              St(st1.frames[frame := Frame(f.vars[params[0].name := v], f.outer)], st1.env,
                                st1.handlers,
                                 st1.caps, st1.tick))
  {
    hide BindParam;
  }

  /** A function runs in a new frame inside the scope it was written in; its arguments
      are evaluated in the scope of the call, which is the current one again after it.
      A return gives its value, and a break or continue that is left over panics. */
  lemma Functions(c: Ctx, fuel: nat, params: seq<Param>, body: seq<Stmt>, env: nat, args: seq<Arg>, v: Value, st: St,
      st1: St, st2: St)
    requires var bare := St(st.frames + [Frame(map[], env)], st.env, st.handlers, st.caps, st.tick);
             BindParams(c, fuel, params, 0, args, |st.frames|, bare) == Done((), st1)
    requires EvalStmts(c, fuel, body, VNil, At(st1, |st.frames|)) == Done(v, st2)
    ensures var r := CallFunction(c, fuel, params, body, env, args, st);
            && (v.VReturn? ==> r == Done(v.value, At(st2, st.env)))
            && (v.VBreak? ==> r == Panics(BreakOutsideLoop))
            && (v.VContinue? ==> r == Panics(ContinueOutsideLoop))
            && (!v.VReturn? && !v.VBreak? && !v.VContinue? ==> r == Done(v, At(st2, st.env)))
  {
    var bare := St(st.frames + [Frame(map[], env)], st.env, st.handlers, st.caps, st.tick);
    assert bare == st.(frames := st.frames + [Frame(map[], env)]);
    assert Kept(bare, BindParams(c, fuel, params, 0, args, |st.frames|, bare));
    hide BindParams, EvalStmts;
  }

  // ---------- capabilities and tools ----------

  /** The capability is held while the function runs, and only then. */
  lemma Capability(c: Ctx, fuel: nat, cap: string, f: Value, v: Value, st: St, st1: St)
    requires f.VFn?
    requires var inner := St(st.frames + [Frame(map[], f.env)], |st.frames|, st.handlers, st.caps + [cap], st.tick);
             EvalStmts(c, fuel, f.body, VNil, inner) == Done(v, st1)
    ensures Invoke(c, fuel, VPrim("with_capability"), [], [VStr(cap), f], st)
            == Done(if v.VReturn? then v.value else v, St(st1.frames, st.env, st1.handlers, st.caps, st1.tick))
  {
    var inner := St(st.frames + [Frame(map[], f.env)], |st.frames|, st.handlers, st.caps + [cap], st.tick);
    var held := St(st.frames, st.env, st.handlers, st.caps + [cap], st.tick);
    assert inner == held.(frames := held.frames + [Frame(map[], f.env)], env := |held.frames|);
    assert st1.caps == st.caps + [cap] by { assert Kept(inner, EvalStmts(c, fuel, f.body, VNil, inner)); }
    hide EvalStmts;
    assert ApplyCallback(c, fuel, f, held) == Done(if v.VReturn? then v.value else v, At(st1, st.env));
    hide ApplyCallback;
    assert (st.caps + [cap])[..|st.caps|] == st.caps;
    assert WithCapability(c, fuel, [VStr(cap), f], st)
        == Done(if v.VReturn? then v.value else v, St(st1.frames, st.env, st1.handlers, st.caps, st1.tick));
  }

  /** A tool whose capability is not held answers so and does nothing; else its body
      runs with its inputs in `i`, and a return gives its value. */
  lemma Tools(c: Ctx, fuel: nat, name: string, args: seq<Arg>, inputs: map<string, Value>, v: Value, st: St, st1: St,
      st2: St)
    requires name in c.tools
    ensures var tool := c.tools[name]; var e := Call(Field(Name(name), "run"), args);
            && (tool.capability != "" && tool.capability !in st.caps ==>
                  Gives(c, fuel + 1, e, st, VEnum("Result", "Err", VStr("capability_denied")), st))
            && ((tool.capability == "" || tool.capability in st.caps)
                && EvalInputs(c, fuel, tool.inputs, 0, args, map[], st) == Done(inputs, st1)
                && EvalStmts(c, fuel, tool.body, VNil, Opened(st1, map["self" := VNil, "i" := VObject("Input",
                  inputs)]))
                   == Done(v, st2)
                ==> Gives(c, fuel + 1, e, st, if v.VReturn? then v.value else v, At(st2, st1.env)))
  {
    var tool := c.tools[name];
    var vars := map["self" := VNil, "i" := VObject("Input", inputs)];
    assert Opened(st1, vars) == Enclose(st1, vars);
    hide EvalInputs, EvalStmts;
    if EvalStmts(c, fuel, tool.body, VNil, Opened(st1, vars)) == Done(v, st2) {
      assert EvalScoped(c, fuel, tool.body, vars, st1) == Done(v, At(st2, st1.env));
    }
    hide EvalScoped, Enclose;
    assert Eval(c, fuel + 1, Call(Field(Name(name), "run"), args), st) == EvalTool(c, fuel, tool, args, st) by {
      hide EvalTool;
      assert EvalCall(c, fuel, Field(Name(name), "run"), args, st) == EvalTool(c, fuel, tool, args, st);
    }
  }

  /** The inputs of a tool are bound as parameters are. */
  lemma Inputs(c: Ctx, fuel: nat, inputs: seq<Param>, place: nat, args: seq<Arg>, m: map<string, Value>, v: Value,
      st: St, st1: St)
    ensures EvalInputs(c, fuel, [], place, args, m, st) == Done(m, st)
    ensures |inputs| > 0 && BindParam(c, fuel, inputs[0], place, args, st) == Done(v, st1) ==>
              EvalInputs(c, fuel, inputs, place, args, m, st)
              == EvalInputs(c, fuel, inputs[1..], place + 1, args, m[inputs[0].name := v], st1)
  {
    hide BindParam;
  }

  // ---------- handlers ----------

  /** The handler is evaluated before it is pushed, is on top while the body runs, and
      is gone after it; a return from the body gives its value here. */
  lemma Handling(c: Ctx, fuel: nat, effect: string, handler: Expr, body: seq<Stmt>, h: Value, v: Value, st: St, st1: St,
      st2: St)
    requires Gives(c, fuel, handler, st, h, st1)
    requires var under := St(st1.frames, st1.env, st1.handlers + [Handler(effect, h)], st1.caps, st1.tick);
             EvalStmts(c, fuel, body, VNil, Opened(under, map[])) == Done(v, st2)
    ensures Gives(c, fuel + 1, Handle(effect, handler, body), st, if v.VReturn? then v.value else v,
                  St(st2.frames, st1.env, st1.handlers, st2.caps, st2.tick))
  {
    var under := St(st1.frames, st1.env, st1.handlers + [Handler(effect, h)], st1.caps, st1.tick);
    ScopedIs(c, fuel, body, map[], v, under, st2);
    hide EvalStmts, EvalScoped, Gives, Opened;
    HandleIs(c, fuel, effect, handler, body, h, v, st, st1, At(st2, st1.env));
  }

  lemma HandleIs(c: Ctx, fuel: nat, effect: string, handler: Expr, body: seq<Stmt>, h: Value, v: Value, st: St, st1: St,
      st2: St)
    requires Gives(c, fuel, handler, st, h, st1)
    requires var under := St(st1.frames, st1.env, st1.handlers + [Handler(effect, h)], st1.caps, st1.tick);
             EvalScoped(c, fuel, body, map[], under) == Done(v, st2)
    ensures Gives(c, fuel + 1, Handle(effect, handler, body), st, if v.VReturn? then v.value else v,
                  St(st2.frames, st2.env, st1.handlers, st2.caps, st2.tick))
  {
    var under := St(st1.frames, st1.env, st1.handlers + [Handler(effect, h)], st1.caps, st1.tick);
    assert st2.handlers == under.handlers by { assert Kept(under, EvalScoped(c, fuel, body, map[], under)); }
    assert under.handlers[..|under.handlers| - 1] == st1.handlers;
    hide EvalScoped, Kept, Eval;
    HandledBy(c, fuel, effect, handler, body, h, v, st, st1, st2);
    assert EvalHandle(c, fuel, effect, handler, body, st)
        == Done(if v.VReturn? then v.value else v, St(st2.frames, st2.env, st1.handlers, st2.caps, st2.tick));
    hide EvalHandle;
    assert Eval(c, fuel + 1, Handle(effect, handler, body), st) == EvalHandle(c, fuel, effect, handler, body, st) by {
      HandleStep(c, fuel, effect, handler, body, st);
    }
  }

  lemma HandleStep(c: Ctx, fuel: nat, effect: string, handler: Expr, body: seq<Stmt>, st: St)
    ensures Eval(c, fuel + 1, Handle(effect, handler, body), st) == EvalHandle(c, fuel, effect, handler, body, st)
  {
    hide EvalHandle, Kept;
  }

  lemma HandledBy(c: Ctx, fuel: nat, effect: string, handler: Expr, body: seq<Stmt>, h: Value, v: Value, st: St,
      st1: St, st2: St)
    requires Eval(c, fuel, handler, st) == Done(h, st1)
    requires EvalScoped(c, fuel, body, map[], St(st1.frames, st1.env, st1.handlers + [Handler(effect, h)], st1.caps,
                                                  st1.tick)) == Done(v, st2)
    ensures EvalHandle(c, fuel, effect, handler, body, st)
            == Done(if v.VReturn? then v.value else v, st2.(handlers := Popped(st2.handlers)))
  {
    hide EvalScoped, Kept, Eval, Popped;
    var under := st1.(handlers := st1.handlers + [Handler(effect, h)]);
    assert under == St(st1.frames, st1.env, st1.handlers + [Handler(effect, h)], st1.caps, st1.tick);
  }

  // ---------- loops ----------

  /** Only lists are iterated. */
  lemma Iteration(c: Ctx, fuel: nat, variable: string, iterable: Expr, body: seq<Stmt>, v: Value, st: St, st1: St)
    requires Gives(c, fuel, iterable, st, v, st1)
    ensures v.VList? ==> Eval(c, fuel + 1, ForIn(variable, iterable, body), st)
                         == EvalFor(c, fuel, variable, v.elems, body, VNil, st1)
    ensures !v.VList? ==> Eval(c, fuel + 1, ForIn(variable, iterable, body), st) == Panics(NotAList)
  {
    hide EvalFor;
    assert Eval(c, fuel + 1, ForIn(variable, iterable, body), st) == EvalForIn(c, fuel, variable, iterable, body, st);
  }

  /** One turn an element, with the variable bound unless it is `_`; a break ends the
      loop with nil, a return ends it, a continue leaves nil, else the last value stays. */
  lemma Turns(c: Ctx, fuel: nat, variable: string, elems: seq<Value>, body: seq<Stmt>, last: Value, v: Value, st: St,
      st1: St)
    requires |elems| > 0
    requires EvalStmts(c, fuel, body, VNil, Opened(st, if variable == "_" then map[] else map[variable := elems[0]]))
             == Done(v, st1)
    ensures EvalFor(c, fuel, variable, elems, body, last, st)
            == if v.VReturn? then Done(v, At(st1, st.env))
               else if v.VBreak? then Done(VNil, At(st1, st.env))
               else EvalFor(c, fuel, variable, elems[1..], body, if v.VContinue? then VNil else v, At(st1, st.env))
  {
    var vars := if variable == "_" then map[] else map[variable := elems[0]];
    assert LoopVars(variable, elems[0]) == vars;
    ScopedIs(c, fuel, body, vars, v, st, st1);
    hide EvalStmts, EvalScoped, LoopVars, Opened, At, Kept;
  }

  lemma TurnsDone(c: Ctx, fuel: nat, variable: string, body: seq<Stmt>, last: Value, st: St)
    ensures EvalFor(c, fuel, variable, [], body, last, st) == Done(last, st)
  {
  }

  lemma ScopedIs(c: Ctx, fuel: nat, stmts: seq<Stmt>, vars: map<string, Value>, v: Value, st: St, st1: St)
    requires EvalStmts(c, fuel, stmts, VNil, Opened(st, vars)) == Done(v, st1)
    ensures EvalScoped(c, fuel, stmts, vars, st) == Done(v, At(st1, st.env))
  {
    assert Opened(st, vars) == Enclose(st, vars);
    hide EvalStmts;
  }

  /** A loop goes on only while its condition is exactly true. */
  lemma Looping(c: Ctx, fuel: nat, cond: Expr, body: seq<Stmt>, last: Value, b: Value, v: Value, st: St, st1: St,
      st2: St)
    requires Gives(c, fuel, cond, st, b, st1)
    ensures b != VBool(true) ==> EvalWhile(c, fuel, cond, body, last, st) == Done(last, st1)
    ensures b == VBool(true) && EvalStmts(c, fuel, body, VNil, Opened(st1, map[])) == Done(v, st2) ==>
              EvalWhile(c, fuel, cond, body, last, st)
              == if v.VReturn? then Done(v, At(st2, st1.env))
                 else if v.VBreak? then Done(VNil, At(st2, st1.env))
                 else if fuel == 0 then NoFuel
                 else EvalWhile(c, fuel - 1, cond, body, if v.VContinue? then VNil else v, At(st2, st1.env))
  {
    hide EvalStmts, EvalScoped, Opened, At, Eval, Kept;
    if b == VBool(true) && EvalStmts(c, fuel, body, VNil, Opened(st1, map[])) == Done(v, st2) {
      ScopedIs(c, fuel, body, map[], v, st1, st2);
      AgainIs(c, fuel, cond, body, v, st1, At(st2, st1.env));
      hide EvalAgain;
    }
  }

  lemma AgainIs(c: Ctx, fuel: nat, cond: Expr, body: seq<Stmt>, v: Value, st: St, st1: St)
    requires EvalScoped(c, fuel, body, map[], st) == Done(v, st1)
    ensures EvalAgain(c, fuel, cond, body, st)
            == if v.VReturn? then Done(v, st1)
               else if v.VBreak? then Done(VNil, st1)
               else if fuel == 0 then NoFuel
               else EvalWhile(c, fuel - 1, cond, body, if v.VContinue? then VNil else v, st1)
  {
    hide EvalScoped, EvalWhile, Kept;
  }

  lemma WhileIs(c: Ctx, fuel: nat, cond: Expr, body: seq<Stmt>, st: St)
    ensures Eval(c, fuel + 1, While(cond, body), st) == EvalWhile(c, fuel, cond, body, VNil, st)
  {
    hide EvalWhile;
  }

  // ---------- panics ----------

  /** What is evaluated first. */
  function FirstPart(c: Ctx, e: Expr): Option<Expr> {
    match e
    case Infix(_, left, _) => Some(left)
    case Prefix(_, operand) => Some(operand)
    case Try(operand) => Some(operand)
    case Index(owner, _) => Some(owner)
    case Assign(_, _, value) => Some(value)
    case If(cond, _, _) => Some(cond)
    case Match(subject, _) => Some(subject)
    case Call(callee, _) => if IsToolRun(c, callee) then None else Some(callee)
    case Field(owner, _) => Some(owner)
    case List(elems) => if |elems| > 0 then Some(elems[0]) else None
    case Object(_, fields) => if |fields| > 0 then Some(fields[0].value) else None
    case Wrap(_, _, payload) => Some(payload)
    case Handle(_, handler, _) => Some(handler)
    case ForIn(_, iterable, _) => Some(iterable)
    case While(cond, _) => Some(cond)
    case _ => None
  }

  /** A panic in what is evaluated first is a panic of the whole, whatever else there
      is. */
  lemma FirstPanics(c: Ctx, fuel: nat, e: Expr, p: Panic, st: St)
    requires FirstPart(c, e).Some? && Eval(c, fuel, FirstPart(c, e).value, st) == Panics(p)
    ensures Eval(c, fuel + 1, e, st) == Panics(p)
  {
    hide Kept, EvalScoped, EvalArms, EvalRight, EvalIndexed, EvalTool, Invoke, EvalFor, EvalAgain;
    match e
    case List(elems) => PartsPanic(c, fuel, elems, p, st);
    case Object(_, fields) => PartsPanic(c, fuel, ArgValues(fields), p, st);
    case While(cond, body) => WhileIs(c, fuel, cond, body, st);
    case Call(callee, args) => assert EvalCall(c, fuel, callee, args, st) == Panics(p);
    case _ => FirstPanicsPlain(c, fuel, e, p, st);
  }

  lemma PartsPanic(c: Ctx, fuel: nat, es: seq<Expr>, p: Panic, st: St)
    requires |es| > 0 && Eval(c, fuel, es[0], st) == Panics(p)
    ensures EvalAll(c, fuel, es, st) == Panics(p)
  {
    hide Eval;
  }

  lemma FirstPanicsPlain(c: Ctx, fuel: nat, e: Expr, p: Panic, st: St)
    requires !e.List? && !e.Object? && !e.While? && !e.Call?
    requires FirstPart(c, e).Some? && Eval(c, fuel, FirstPart(c, e).value, st) == Panics(p)
    ensures Eval(c, fuel + 1, e, st) == Panics(p)
  {
    hide Kept, EvalScoped, EvalArms, EvalRight, EvalIndexed, EvalTool, Invoke, EvalFor, EvalAgain;
    match e
    case Infix(op, left, right) => assert EvalInfix(c, fuel, op, left, right, st) == Panics(p);
    case Index(owner, index) => assert EvalIndex(c, fuel, owner, index, st) == Panics(p);
    case If(cond, yes, no) => assert EvalIf(c, fuel, cond, yes, no, st) == Panics(p);
    case Match(subject, arms) => assert EvalMatch(c, fuel, subject, arms, st) == Panics(p);
    case Field(owner, field) => assert EvalField(c, fuel, owner, field, st) == Panics(p);
    case Handle(effect, handler, body) => assert EvalHandle(c, fuel, effect, handler, body, st) == Panics(p);
    case ForIn(x, iterable, body) => assert EvalForIn(c, fuel, x, iterable, body, st) == Panics(p);
    case _ =>
  }

  /** A panic in a later part is one too: a right operand, an index, a later element, a
      statement, and a body wherever it runs. */
  lemma LaterPanics(c: Ctx, fuel: nat, op: Op, left: Expr, right: Expr, l: Value, p: Panic, st: St, st1: St)
    requires Gives(c, fuel, left, st, l, st1) && !l.VReturn? && Eval(c, fuel, right, st1) == Panics(p)
    ensures IsArithmetic(op) ==> Eval(c, fuel + 1, Infix(op, left, right), st) == Panics(p)
    ensures Eval(c, fuel + 1, Index(left, right), st) == Panics(p)
    ensures EvalAll(c, fuel, [left, right], st) == Panics(p)
    ensures !l.VBreak? && !l.VContinue? ==> EvalStmts(c, fuel, [Do(left), Do(right)], VNil, st) == Panics(p)
  {
    InfixAfter(c, fuel, op, left, right, l, st, st1);
    hide Kept, Eval;
    if IsArithmetic(op) { assert EvalRight(c, fuel, op, l, right, st1) == EvalArith(c, fuel, op, l, right, st1); }
    assert EvalIndexed(c, fuel, l, right, st1) == Panics(p);
    assert EvalIndex(c, fuel, left, right, st) == Panics(p);
    assert [left, right][1..] == [right];
    assert EvalAll(c, fuel, [right], st1) == Panics(p);
    assert [Do(left), Do(right)][1..] == [Do(right)];
    assert EvalStmts(c, fuel, [Do(right)], l, st1) == Panics(p);
    IndexStep(c, fuel, left, right, st);
  }

  lemma IndexStep(c: Ctx, fuel: nat, left: Expr, right: Expr, st: St)
    ensures Eval(c, fuel + 1, Index(left, right), st) == EvalIndex(c, fuel, left, right, st)
  {
    hide EvalIndex, Kept;
  }

  lemma BodyPanics(c: Ctx, fuel: nat, body: seq<Stmt>, vars: map<string, Value>, effect: string, handler: Expr,
      h: Value, p: Panic, st: St, st1: St)
    ensures EvalStmts(c, fuel, body, VNil, Opened(st, map[])) == Panics(p) ==>
              Eval(c, fuel + 1, Block(body), st) == Panics(p)
    ensures var under := St(st1.frames, st1.env, st1.handlers + [Handler(effect, h)], st1.caps, st1.tick);
            Gives(c, fuel, handler, st, h, st1) && EvalStmts(c, fuel, body, VNil, Opened(under, map[])) == Panics(p) ==>
              Eval(c, fuel + 1, Handle(effect, handler, body), st) == Panics(p)
  {
    hide Kept, EvalStmts;
    ScopedPanics(c, fuel, body, map[], p, st);
    var under := St(st1.frames, st1.env, st1.handlers + [Handler(effect, h)], st1.caps, st1.tick);
    assert under == st1.(handlers := st1.handlers + [Handler(effect, h)]);
    ScopedPanics(c, fuel, body, map[], p, under);
    hide EvalScoped, Opened, Eval;
    HandleStep(c, fuel, effect, handler, body, st);
    assert Eval(c, fuel + 1, Block(body), st) == EvalScoped(c, fuel, body, map[], st) by { BlockStep(c, fuel, body,
      st); }
  }

  lemma BlockStep(c: Ctx, fuel: nat, body: seq<Stmt>, st: St)
    ensures Eval(c, fuel + 1, Block(body), st) == EvalScoped(c, fuel, body, map[], st)
  {
    hide EvalScoped, Kept;
  }

  lemma ScopedPanics(c: Ctx, fuel: nat, stmts: seq<Stmt>, vars: map<string, Value>, p: Panic, st: St)
    ensures EvalStmts(c, fuel, stmts, VNil, Opened(st, vars)) == Panics(p) ==>
              EvalScoped(c, fuel, stmts, vars, st) == Panics(p)
  {
    assert Opened(st, vars) == Enclose(st, vars);
    hide EvalStmts, Kept;
  }
}
