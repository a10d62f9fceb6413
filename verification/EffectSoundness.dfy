/** Soundness of the effect checker for the evaluator: a program that passes
    never reaches an effect without a handler, as long as effects are only
    reached by direct calls. */
module EffectSoundness {
  import opened Options
  import opened EffectStack
  import opened Evaluation
  import opened Checking

  // ---------- the first-order fragment ----------

  /** Namespaces only as the owner in a call, and only those the checker knows;
      functions only called, by name; no lambdas, no tools, no capabilities; no binder named as a function. */
  predicate FirstOrder(c: Ctx, k: Known, e: Expr)
    decreases e
  {
    match e
    case Name(x) => x !in k.fns && x !in c.effects && x != WITH_CAPABILITY
    case Infix(_, left, right) => FirstOrder(c, k, left) && FirstOrder(c, k, right)
    case Prefix(_, operand) => FirstOrder(c, k, operand)
    case Try(operand) => FirstOrder(c, k, operand)
    case Index(owner, index) => FirstOrder(c, k, owner) && FirstOrder(c, k, index)
    case Assign(target, _, value) => target !in k.fns && target != WITH_CAPABILITY && FirstOrder(c, k, value)
    case If(cond, consequence, alternative) =>
      FirstOrder(c, k, cond) && FirstOrderStmts(c, k, consequence)
      && (alternative.Else? ==> FirstOrderStmts(c, k, alternative.stmts))
    case Block(stmts) => FirstOrderStmts(c, k, stmts)
    case Match(subject, arms) =>
      FirstOrder(c, k, subject) && forall i :: 0 <= i < |arms| ==> FirstOrderArm(c, k, arms[i])
    case Call(callee, args) =>
      DirectCallee(c, k, callee) && forall i :: 0 <= i < |args| ==> FirstOrder(c, k, args[i].value)
    case Field(owner, _) => FirstOrder(c, k, owner)
    case List(elems) => forall i :: 0 <= i < |elems| ==> FirstOrder(c, k, elems[i])
    case Object(_, fields) => forall i :: 0 <= i < |fields| ==> FirstOrder(c, k, fields[i].value)
    case Wrap(_, _, payload) => FirstOrder(c, k, payload)
    case Lambda(_, _) => false
    case Handle(_, handler, body) => FirstOrder(c, k, handler) && FirstOrderStmts(c, k, body)
    case ForIn(variable, iterable, body) =>
      variable !in k.fns && FirstOrder(c, k, iterable) && FirstOrderStmts(c, k, body)
    case While(cond, body) => FirstOrder(c, k, cond) && FirstOrderStmts(c, k, body)
    case _ => true
  }

  predicate DirectCallee(c: Ctx, k: Known, callee: Expr)
    decreases callee
  {
    match callee
    case Name(f) => f !in c.effects && f != WITH_CAPABILITY
    case Field(owner, _) =>
      if owner.Name? then owner.name !in c.tools && (owner.name in k.effects || FirstOrder(c, k, owner))
      else FirstOrder(c, k, owner)
    case _ => false
  }

  predicate FirstOrderStmts(c: Ctx, k: Known, stmts: seq<Stmt>)
    decreases stmts
  {
    forall i :: 0 <= i < |stmts| ==> FirstOrderStmt(c, k, stmts[i])
  }

  predicate FirstOrderStmt(c: Ctx, k: Known, s: Stmt)
    decreases s
  {
    match s
    case Let(name, value) => name !in k.fns && FirstOrder(c, k, value)
    case Return(value) => FirstOrder(c, k, value)
    case Do(value) => FirstOrder(c, k, value)
    case _ => true
  }

  predicate FirstOrderArm(c: Ctx, k: Known, arm: Arm)
    decreases arm
  {
    && BoundNames(arm.pattern) !! k.fns.Keys
    && (arm.guard.Some? ==> FirstOrder(c, k, arm.guard.value)) && FirstOrder(c, k, arm.body)
  }

  /** The names matching a pattern binds when it is evaluated. */
  function BoundNames(p: Pattern): set<string> {
    match p
    case Bind(name) => {name}
    case Variant(_, Some(name)) => {name}
    case _ => {}
  }

  /** A function of the fragment; defaults, which the checker never looks at,
      may not use effects. */
  ghost predicate FirstOrderFn(c: Ctx, k: Known, fn: FnDecl) {
    && FirstOrderStmts(c, k, fn.body)
    && forall i :: 0 <= i < |fn.params| ==> ParamOk(c, k, fn.params[i])
  }

  ghost predicate ParamOk(c: Ctx, k: Known, p: Param) {
    p.name !in k.fns && (p.default.Some? ==> FirstOrder(c, k, p.default.value) && Clean(k, p.default.value, {}, {}))
  }

  // ---------- what evaluation keeps ----------

  /** No function, namespace or capability builtin anywhere inside. */
  predicate Flat(v: Value)
    decreases v
  {
    match v
    case VFn(_, _, _) => false
    case VNamespace(_) => false
    case VPrim(name) => name != WITH_CAPABILITY
    case VList(elems) => forall i :: 0 <= i < |elems| ==> Flat(elems[i])
    case VObject(_, fields) => forall n :: n in fields ==> Flat(fields[n])
    case VEnum(_, _, payload) => Flat(payload)
    case VReturn(w) => Flat(w)
    case _ => true
  }

  /** The program: every effect the checker knows is one at run time, every
      function passes the checker and is first-order, and builtins return
      first-order values. */
  ghost predicate Setup(c: Ctx, k: Known) {
    && k.effects <= c.effects
    && (forall f :: f in k.fns ==> Passes(k, k.fns[f]) && FirstOrderFn(c, k, k.fns[f]))
    && (forall n, vs, t :: c.prim(n, vs, t).PrimOk? ==> Flat(c.prim(n, vs, t).value))
  }

  predicate GlobalFrame(k: Known, f: Frame) {
    && f.outer == 0
    && (forall n :: n in k.fns ==> n in f.vars && f.vars[n] == VFn(k.fns[n].params, k.fns[n].body, 0))
    && (forall n :: n in f.vars && n !in k.fns && n != WITH_CAPABILITY ==> Flat(f.vars[n]))
  }

  predicate LocalVars(k: Known, vars: map<string, Value>) {
    forall n :: n in vars ==> n !in k.fns && Flat(vars[n])
  }

  predicate GoodFrames(k: Known, frames: seq<Frame>) {
    && |frames| > 0 && GlobalFrame(k, frames[0])
    && forall i :: 0 < i < |frames| ==> frames[i].outer < i && LocalVars(k, frames[i].vars)
  }

  predicate Good(k: Known, st: St) {
    GoodFrames(k, st.frames) && st.env < |st.frames| && forall h :: h in st.handlers ==> Flat(h.provider)
  }

  predicate Fits(r: Report, covered: set<string>) {
    r.errors == [] && r.used <= covered
  }

  /** In some scope the checker finds no error, and no effect beyond `covered`. */
  ghost predicate Clean(k: Known, e: Expr, h: set<string>, covered: set<string>) {
    exists s :: Fits(Scan(k, e, s, h), covered)
  }

  ghost predicate CleanStmt(k: Known, stmt: Stmt, h: set<string>, covered: set<string>) {
    exists s :: Fits(ScanStmt(k, stmt, s, h), covered)
  }

  ghost predicate CleanStmts(k: Known, stmts: seq<Stmt>, h: set<string>, covered: set<string>) {
    exists s: Scope :: |s| > 0 && Fits(ScanStmts(k, stmts, s, h), covered)
  }

  ghost predicate At(c: Ctx, k: Known, h: set<string>, st: St) {
    Setup(c, k) && Good(k, st) && h <= Names(st.handlers)
  }

  ghost predicate Ok(c: Ctx, k: Known, e: Expr, h: set<string>, st: St) {
    FirstOrder(c, k, e) && Clean(k, e, h, Names(st.handlers))
  }

  ghost predicate OkStmts(c: Ctx, k: Known, stmts: seq<Stmt>, h: set<string>, st: St) {
    FirstOrderStmts(c, k, stmts) && CleanStmts(k, stmts, h, Names(st.handlers))
  }

  ghost predicate OkAll(c: Ctx, k: Known, es: seq<Expr>, h: set<string>, st: St) {
    forall i :: 0 <= i < |es| ==> Ok(c, k, es[i], h, st)
  }

  predicate NoMissingHandler<T>(r: Out<T>) {
    r.Panics? ==> !r.panic.NoHandler?
  }

  predicate Safe(k: Known, r: Out<Value>) {
    NoMissingHandler(r) && (r.Done? ==> Flat(r.value) && Good(k, r.st))
  }

  predicate SafeAll(k: Known, r: Out<seq<Value>>) {
    NoMissingHandler(r) && (r.Done? ==> Good(k, r.st) && forall i :: 0 <= i < |r.value| ==> Flat(r.value[i]))
  }

  // ---------- small steps ----------

  lemma JoinFits(a: Report, b: Report, covered: set<string>)
    ensures Fits(Join(a, b), covered) <==> Fits(a, covered) && Fits(b, covered)
  {
    assert |Join(a, b).errors| == |a.errors| + |b.errors|;
  }

  lemma {:induction false} GetFunction(k: Known, frames: seq<Frame>, i: nat, f: string)
    requires GoodFrames(k, frames) && i < |frames| && f in k.fns
    ensures Get(frames, i, f) == Some(VFn(k.fns[f].params, k.fns[f].body, 0))
    decreases i
  {
    hide Flat;
    if i > 0 { GetFunction(k, frames, frames[i].outer, f); }
  }

  lemma {:induction false} GetFlat(k: Known, frames: seq<Frame>, i: nat, x: string)
    requires GoodFrames(k, frames) && i < |frames| && x !in k.fns && x != WITH_CAPABILITY
    ensures var r := Get(frames, i, x); r.Some? ==> Flat(r.value)
    decreases i
  {
    hide Flat;
    if i > 0 { GetFlat(k, frames, frames[i].outer, x); }
  }

  lemma SetGood(k: Known, frames: seq<Frame>, i: nat, x: string, v: Value)
    requires GoodFrames(k, frames) && x !in k.fns && Flat(v)
    ensures GoodFrames(k, SetVar(frames, i, x, v))
  {
    hide Flat;
    var r := SetVar(frames, i, x, v);
    assert i > 0 ==> r[0] == frames[0];
    assert forall j :: 0 <= j < |r| && j != i ==> r[j] == frames[j];
  }

  lemma {:induction false} UpdateGood(k: Known, frames: seq<Frame>, i: nat, x: string, v: Value)
    requires GoodFrames(k, frames) && i < |frames| && x !in k.fns && Flat(v)
    ensures GoodFrames(k, Update(frames, i, x, v))
    decreases i
  {
    hide Flat, SetVar, GoodFrames;
    if x in frames[i].vars { SetGood(k, frames, i, x, v); }
    else if frames[i].outer < i { UpdateGood(k, frames, frames[i].outer, x, v); }
  }

  /** A new scope below scope `outer`. */
  lemma ExtendGood(k: Known, frames: seq<Frame>, vars: map<string, Value>, outer: nat)
    requires GoodFrames(k, frames) && LocalVars(k, vars) && outer < |frames|
    ensures GoodFrames(k, frames + [Frame(vars, outer)])
  {
    hide LocalVars, GlobalFrame;
    var r := frames + [Frame(vars, outer)];
    assert r[0] == frames[0];
    assert forall j :: 0 < j < |frames| ==> r[j] == frames[j];
  }

  lemma EncloseGood(k: Known, st: St, vars: map<string, Value>)
    requires Good(k, st) && LocalVars(k, vars)
    ensures Good(k, Enclose(st, vars))
  {
    hide GoodFrames, LocalVars, Flat;
    ExtendGood(k, st.frames, vars, st.env);
  }

  lemma MatchFlat(k: Known, v: Value, p: Pattern)
    requires Flat(v) && BoundNames(p) !! k.fns.Keys
    ensures MatchPattern(v, p).Some? ==> LocalVars(k, MatchPattern(v, p).value)
  {
  }

  lemma {:induction false} TopDownFlat(handlers: seq<Handler<Value>>, name: string)
    requires forall h :: h in handlers ==> Flat(h.provider)
    ensures var r := TopDown(handlers, name); r.Some? ==> Flat(r.value)
  {
    hide Flat;
    if |handlers| > 0 { TopDownFlat(handlers[..|handlers| - 1], name); }
  }

  lemma IndexedFlat(v: Value, i: Value)
    requires Flat(v)
    ensures Flat(Indexed(v, i))
  {
  }

  lemma CombinedFlat(how: AssignOp, before: Value, v: Value)
    requires Flat(before) && Flat(v)
    ensures Flat(Combined(how, before, v))
  {
  }

  lemma AssignedGood(k: Known, frames: seq<Frame>, i: nat, x: string, how: AssignOp, v: Value)
    requires GoodFrames(k, frames) && i < |frames| && x !in k.fns && x != WITH_CAPABILITY && Flat(v)
    ensures GoodFrames(k, Assigned(frames, i, x, how, v))
  {
    hide Flat, GoodFrames, Combined, Update;
    GetFlat(k, frames, i, x);
    var before := Get(frames, i, x);
    if before.Some? {
      CombinedFlat(how, before.value, v);
      UpdateGood(k, frames, i, x, Combined(how, before.value, v));
    }
  }

  lemma FieldFlat(v: Value, field: string)
    requires Flat(v)
    ensures Flat(FieldOf(v, field))
  {
  }

  /** A first-order name evaluates to a first-order value. */
  lemma NameFlat(c: Ctx, k: Known, st: St, x: string)
    requires Setup(c, k) && Good(k, st) && x !in k.fns && x !in c.effects && x != WITH_CAPABILITY
    ensures Flat(EvalName(c, x, st))
  {
    hide GoodFrames, Get, Passes, FirstOrderFn;
    GetFlat(k, st.frames, st.env, x);
  }

  // ---------- the parts of what fits, fit ----------

  lemma CleanIn(k: Known, e: Expr, s: Scope, h: set<string>, covered: set<string>)
    requires Fits(Scan(k, e, s, h), covered)
    ensures Clean(k, e, h, covered)
  {
  }

  lemma CleanStmtsIn(k: Known, stmts: seq<Stmt>, s: Scope, h: set<string>, covered: set<string>)
    requires |s| > 0 && Fits(ScanStmts(k, stmts, s, h), covered)
    ensures CleanStmts(k, stmts, h, covered)
  {
  }

  /** Constructs with one operand and no scope of their own. */
  lemma OperandFits(c: Ctx, k: Known, e: Expr, operand: Expr, h: set<string>, st: St)
    requires Ok(c, k, e, h, st)
    requires
      || e == Try(operand)
      || (e.Prefix? && e.operand == operand)
      || (e.Assign? && e.value == operand)
      || (e.Field? && e.owner == operand)
      || (e.Wrap? && e.payload == operand)
    ensures Ok(c, k, operand, h, st)
  {
    var s :| Fits(Scan(k, e, s, h), Names(st.handlers));
    if e.Assign? { JoinFits(Scan(k, operand, s, h), ScanTarget(e.target, s), Names(st.handlers)); }
    assert Fits(Scan(k, operand, s, h), Names(st.handlers));
  }

  lemma InfixFits(c: Ctx, k: Known, op: Op, left: Expr, right: Expr, h: set<string>, st: St)
    requires Ok(c, k, Infix(op, left, right), h, st)
    ensures Ok(c, k, left, h, st) && Ok(c, k, right, h, st)
  {
    var s :| Fits(Scan(k, Infix(op, left, right), s, h), Names(st.handlers));
    JoinFits(Scan(k, left, s, h), Scan(k, right, s, h), Names(st.handlers));
  }

  lemma IndexFits(c: Ctx, k: Known, owner: Expr, index: Expr, h: set<string>, st: St)
    requires Ok(c, k, Index(owner, index), h, st)
    ensures Ok(c, k, owner, h, st) && Ok(c, k, index, h, st)
  {
    var s :| Fits(Scan(k, Index(owner, index), s, h), Names(st.handlers));
    JoinFits(Scan(k, owner, s, h), Scan(k, index, s, h), Names(st.handlers));
  }

  lemma IfFits(c: Ctx, k: Known, cond: Expr, consequence: seq<Stmt>, alternative: Else, h: set<string>, st: St)
    requires Ok(c, k, If(cond, consequence, alternative), h, st)
    ensures Ok(c, k, cond, h, st) && OkStmts(c, k, consequence, h, st)
    ensures alternative.Else? ==> OkStmts(c, k, alternative.stmts, h, st)
  {
    var covered := Names(st.handlers);
    var e := If(cond, consequence, alternative);
    assert FirstOrder(c, k, e);
    var s :| Fits(Scan(k, e, s, h), covered);
    var first, second := Scan(k, cond, s, h), ScanStmts(k, consequence, Inner(s), h);
    JoinFits(first, second, covered);
    if alternative.Else? {
      var third := ScanStmts(k, alternative.stmts, Inner(s), h);
      assert Scan(k, e, s, h) == Join(Join(first, second), third);
      JoinFits(Join(first, second), third, covered);
      CleanStmtsIn(k, alternative.stmts, Inner(s), h, covered);
    }
    CleanIn(k, cond, s, h, covered);
    CleanStmtsIn(k, consequence, Inner(s), h, covered);
  }

  lemma BlockFits(c: Ctx, k: Known, stmts: seq<Stmt>, h: set<string>, st: St)
    requires Ok(c, k, Block(stmts), h, st)
    ensures OkStmts(c, k, stmts, h, st)
  {
    var s :| Fits(Scan(k, Block(stmts), s, h), Names(st.handlers));
    CleanStmtsIn(k, stmts, Inner(s), h, Names(st.handlers));
  }

  lemma WhileFits(c: Ctx, k: Known, cond: Expr, body: seq<Stmt>, h: set<string>, st: St)
    requires Ok(c, k, While(cond, body), h, st)
    ensures Ok(c, k, cond, h, st) && OkStmts(c, k, body, h, st)
  {
    var covered := Names(st.handlers);
    assert FirstOrder(c, k, cond) && FirstOrderStmts(c, k, body);
    var s :| Fits(Scan(k, While(cond, body), s, h), covered);
    JoinFits(Scan(k, cond, s, h), ScanStmts(k, body, Inner(s), h), covered);
    hide ScanStmts, FirstOrder, FirstOrderStmts, Fits, Clean, CleanStmts;
    CleanIn(k, cond, s, h, covered);
    CleanStmtsIn(k, body, Inner(s), h, covered);
  }

  lemma ForInFits(c: Ctx, k: Known, variable: string, iterable: Expr, body: seq<Stmt>, h: set<string>, st: St)
    requires Ok(c, k, ForIn(variable, iterable, body), h, st)
    ensures Ok(c, k, iterable, h, st) && OkStmts(c, k, body, h, st) && variable !in k.fns
  {
    var covered := Names(st.handlers);
    assert FirstOrder(c, k, iterable) && FirstOrderStmts(c, k, body);
    var s :| Fits(Scan(k, ForIn(variable, iterable, body), s, h), covered);
    JoinFits(Scan(k, iterable, s, h), ScanStmts(k, body, LoopScope(s, variable), h), covered);
    hide ScanStmts, FirstOrderStmts, Fits, Clean, CleanStmts;
    CleanIn(k, iterable, s, h, covered);
    CleanStmtsIn(k, body, LoopScope(s, variable), h, covered);
  }

  lemma HandleFits(c: Ctx, k: Known, effect: string, handler: Expr, body: seq<Stmt>, h: set<string>, st: St)
    requires Ok(c, k, Handle(effect, handler, body), h, st)
    ensures Ok(c, k, handler, h, st)
    ensures FirstOrderStmts(c, k, body) && CleanStmts(k, body, h + {effect}, Names(st.handlers))
  {
    var covered := Names(st.handlers);
    assert FirstOrder(c, k, handler) && FirstOrderStmts(c, k, body);
    var s :| Fits(Scan(k, Handle(effect, handler, body), s, h), covered);
    JoinFits(Scan(k, handler, s, h), ScanStmts(k, body, Inner(s), h + {effect}), covered);
    hide ScanStmts, FirstOrderStmts, Clean, CleanStmts;
    CleanIn(k, handler, s, h, covered);
    CleanStmtsIn(k, body, Inner(s), h + {effect}, covered);
  }

  lemma StmtsFit(c: Ctx, k: Known, stmts: seq<Stmt>, h: set<string>, st: St)
    requires |stmts| > 0 && OkStmts(c, k, stmts, h, st)
    ensures FirstOrderStmt(c, k, stmts[0]) && CleanStmt(k, stmts[0], h, Names(st.handlers))
    ensures OkStmts(c, k, stmts[1..], h, st)
  {
    hide FirstOrderStmt, ScanStmt, AfterStmt, Names, Fits, Join;
    var covered := Names(st.handlers);
    var s: Scope :| |s| > 0 && Fits(ScanStmts(k, stmts, s, h), covered);
    var after := AfterStmt(s, stmts[0]);
    JoinFits(ScanStmt(k, stmts[0], s, h), ScanStmts(k, stmts[1..], after, h), covered);
    hide CleanStmts;
    assert FirstOrderStmts(c, k, stmts[1..]);
    assert CleanStmt(k, stmts[0], h, covered);
    CleanStmtsIn(k, stmts[1..], after, h, covered);
  }

  lemma StmtFits(c: Ctx, k: Known, stmt: Stmt, h: set<string>, st: St)
    requires FirstOrderStmt(c, k, stmt) && CleanStmt(k, stmt, h, Names(st.handlers))
    requires stmt.Let? || stmt.Return? || stmt.Do?
    ensures Ok(c, k, stmt.value, h, st)
  {
    hide Scan, FirstOrder;
    var s :| Fits(ScanStmt(k, stmt, s, h), Names(st.handlers));
    assert Fits(Scan(k, stmt.value, s, h), Names(st.handlers));
  }

  /** The first arm, and the arms after it. */
  lemma ArmsFit(c: Ctx, k: Known, arms: seq<Arm>, s: Scope, h: set<string>, st: St)
    requires |arms| > 0 && FirstOrderArm(c, k, arms[0]) && Fits(ScanArms(k, arms, s, h), Names(st.handlers))
    ensures arms[0].guard.Some? ==> Ok(c, k, arms[0].guard.value, h, st)
    ensures Ok(c, k, arms[0].body, h, st) && BoundNames(arms[0].pattern) !! k.fns.Keys
    ensures Fits(ScanArms(k, arms[1..], s, h), Names(st.handlers))
  {
    hide Scan, FirstOrder;
    var covered := Names(st.handlers);
    var inner := DefineAll(Inner(s), PatternNames(arms[0].pattern));
    JoinFits(ScanArm(k, arms[0], s, h), ScanArms(k, arms[1..], s, h), covered);
    var body := Scan(k, arms[0].body, inner, h);
    if arms[0].guard.Some? { JoinFits(Scan(k, arms[0].guard.value, inner, h), body, covered); }
    assert Fits(body, covered);
  }

  /** The body of a function that passes fits under handlers for what it declares. */
  lemma BodyFits(c: Ctx, k: Known, fn: FnDecl, st: St)
    requires Passes(k, fn) && FirstOrderFn(c, k, fn) && Set(fn.effects) <= Names(st.handlers)
    ensures OkStmts(c, k, fn.body, {}, st)
  {
    hide ScanStmts, FirstOrderStmts, ParamOk, CleanStmts;
    CleanStmtsIn(k, fn.body, Entry(k, fn), {}, Names(st.handlers));
  }

  lemma {:induction false} ArgsFit(c: Ctx, k: Known, args: seq<Arg>, s: Scope, h: set<string>, st: St)
    requires forall i :: 0 <= i < |args| ==> FirstOrder(c, k, args[i].value)
    requires Fits(ScanArgs(k, args, s, h), Names(st.handlers))
    ensures OkAll(c, k, ArgValues(args), h, st)
    decreases |args|
  {
    if |args| > 0 {
      JoinFits(Scan(k, args[0].value, s, h), ScanArgs(k, args[1..], s, h), Names(st.handlers));
      hide Scan, ScanArgs, FirstOrder, Fits, Join;
      ArgsFit(c, k, args[1..], s, h, st);
      assert forall i :: 1 <= i < |args| ==> ArgValues(args)[i] == ArgValues(args[1..])[i - 1];
    }
  }

  /** The arguments of a call, and its callee in the same scope. */
  lemma CallFits(c: Ctx, k: Known, callee: Expr, args: seq<Arg>, h: set<string>, st: St) returns (s: Scope)
    requires Ok(c, k, Call(callee, args), h, st)
    ensures OkAll(c, k, ArgValues(args), h, st)
    ensures DirectCallee(c, k, callee) && Fits(ScanCallee(k, callee, s, h), Names(st.handlers))
    ensures !(callee.Field? && callee.owner.Name? && callee.owner.name in c.tools)
  {
    s :| Fits(Scan(k, Call(callee, args), s, h), Names(st.handlers));
    JoinFits(ScanArgs(k, args, s, h), ScanCallee(k, callee, s, h), Names(st.handlers));
    ArgsFit(c, k, args, s, h, st);
    hide OkAll, Names, Fits, Scan, ScanArgs, ScanCallee, Clean;
  }

  lemma {:induction false} AllFit(c: Ctx, k: Known, es: seq<Expr>, s: Scope, h: set<string>, st: St)
    requires forall i :: 0 <= i < |es| ==> FirstOrder(c, k, es[i])
    requires Fits(ScanAll(k, es, s, h), Names(st.handlers))
    ensures OkAll(c, k, es, h, st)
    decreases |es|
  {
    if |es| > 0 {
      JoinFits(Scan(k, es[0], s, h), ScanAll(k, es[1..], s, h), Names(st.handlers));
      assert Ok(c, k, es[0], h, st);
      hide Scan, ScanAll, FirstOrder, Fits, Join;
      AllFit(c, k, es[1..], s, h, st);
      hide Ok;
      forall i | 0 <= i < |es| ensures Ok(c, k, es[i], h, st) {
        if i > 0 { assert es[i] == es[1..][i - 1]; }
      }
    }
  }
}
