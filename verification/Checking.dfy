/** The effect side of the checker: the effects a body uses outside matching
    handlers, compared with the declared list. */
module Checking {
  import opened Options
  import opened Evaluation

  datatype FnDecl = FnDecl(name: string, params: seq<Param>, effects: seq<string>, body: seq<Stmt>)

  datatype CheckError =
    | UnknownEffect(effect: string)
    | Undeclared(effect: string)
    | Unused(effect: string)
    | Undefined(name: string)
    | Redeclared(name: string)
    | Immutable(name: string)

  /** Scopes, innermost last.  A name maps to whether it may be assigned. */
  type Scope = seq<map<string, bool>>

  /** What the first pass collects: effect names, the declared effects of every
      function, and the bindings of the top level: a `let` there may not be
      assigned, a `mut` may. */
  datatype Known = Known(effects: set<string>, fns: map<string, FnDecl>, globals: map<string, bool>)

  datatype Report = Report(used: set<string>, errors: seq<CheckError>)

  const NOTHING := Report({}, [])

  function Join(a: Report, b: Report): Report {
    Report(a.used + b.used, a.errors + b.errors)
  }

  /** Later declarations of a name win. */
  function Table(decls: seq<FnDecl>): (r: map<string, FnDecl>)
    ensures forall n :: n in r ==> r[n] in decls && r[n].name == n
    ensures forall d :: d in decls ==> d.name in r
  {
    if |decls| == 0 then map[]
    else Table(decls[..|decls| - 1])[decls[|decls| - 1].name := decls[|decls| - 1]]
  }

  // ---------- scopes ----------

  function Lookup(s: Scope, name: string): Option<bool> {
    if |s| == 0 then None
    else if name in s[|s| - 1] then Some(s[|s| - 1][name])
    else Lookup(s[..|s| - 1], name)
  }

  predicate DeclaredHere(s: Scope, name: string) {
    |s| > 0 && name in s[|s| - 1]
  }

  function Define(s: Scope, name: string): (r: Scope)
    requires |s| > 0
    ensures |r| == |s| && r[..|s| - 1] == s[..|s| - 1]
  {
    s[|s| - 1 := s[|s| - 1][name := true]]
  }

  function DefineAll(s: Scope, names: seq<string>): (r: Scope)
    requires |s| > 0
    ensures |r| == |s| && r[..|s| - 1] == s[..|s| - 1]
    decreases |names|
  {
    if |names| == 0 then s else DefineAll(Define(s, names[0]), names[1..])
  }

  function ParamNames(params: seq<Param>): seq<string> {
    seq(|params|, i requires 0 <= i < |params| => params[i].name)
  }

  /** Parameters of a declaration other than `self`. */
  function OwnNames(params: seq<Param>): seq<string> {
    if |params| == 0 then []
    else (if params[0].name == "self" then [] else [params[0].name]) + OwnNames(params[1..])
  }

  predicate IsUpper(s: string) {
    |s| > 0 && 'A' <= s[0] <= 'Z'
  }

  /** The names an arm brings into scope: a bare name only when it begins with
      a small letter. */
  function PatternNames(p: Pattern): seq<string> {
    match p
    case Bind(name) =>
      if |name| > 0 && 'a' <= name[0] <= 'z' && name != "true" && name != "false" then [name] else []
    case Variant(_, Some(name)) => [name]
    case _ => []
  }

  function AfterStmt(s: Scope, stmt: Stmt): (r: Scope)
    requires |s| > 0
    ensures |r| == |s| && r[..|s| - 1] == s[..|s| - 1]
  {
    if stmt.Let? && !DeclaredHere(s, stmt.name) then Define(s, stmt.name) else s
  }

  function AfterStmts(s: Scope, stmts: seq<Stmt>): (r: Scope)
    requires |s| > 0
    ensures |r| == |s| && r[..|s| - 1] == s[..|s| - 1]
    decreases |stmts|
  {
    if |stmts| == 0 then s else AfterStmts(AfterStmt(s, stmts[0]), stmts[1..])
  }

  /** The scopes inside a new one. */
  function Inner(s: Scope): (r: Scope)
    ensures |r| == |s| + 1 && r[..|s|] == s
  {
    s + [map[]]
  }

  /** The scopes a function body starts in. */
  function Entry(k: Known, fn: FnDecl): (r: Scope)
    ensures |r| == 2
  {
    DefineAll(Inner([k.globals]), OwnNames(fn.params))
  }

  function LoopScope(s: Scope, variable: string): (r: Scope)
    ensures |r| == |s| + 1 && r[..|s|] == s
  {
    if variable == "_" then Inner(s) else Define(Inner(s), variable)
  }

  // ---------- the effects of an expression ----------

  function Scan(k: Known, e: Expr, s: Scope, handled: set<string>): Report
    decreases e
  {
    match e
    case Name(name) => ScanName(k, name, s)
    case Infix(_, left, right) => Join(Scan(k, left, s, handled), Scan(k, right, s, handled))
    case Prefix(_, operand) => Scan(k, operand, s, handled)
    case Try(operand) => Scan(k, operand, s, handled)
    case Index(owner, index) => Join(Scan(k, owner, s, handled), Scan(k, index, s, handled))
    case Assign(target, _, value) => Join(Scan(k, value, s, handled), ScanTarget(target, s))
    case If(cond, consequence, alternative) =>
      var first := Join(Scan(k, cond, s, handled), ScanStmts(k, consequence, Inner(s), handled));
      if alternative.Else? then Join(first, ScanStmts(k, alternative.stmts, Inner(s), handled)) else first
    case Block(stmts) => ScanStmts(k, stmts, Inner(s), handled)
    case Match(subject, arms) => Join(Scan(k, subject, s, handled), ScanArms(k, arms, s, handled))
    case Call(callee, args) => Join(ScanArgs(k, args, s, handled), ScanCallee(k, callee, s, handled))
    case Field(owner, _) => Scan(k, owner, s, handled)
    case List(elems) => ScanAll(k, elems, s, handled)
    case Object(_, fields) => ScanArgs(k, fields, s, handled)
    case Wrap(_, _, payload) => Scan(k, payload, s, handled)
    case Lambda(params, body) => ScanStmts(k, body, DefineAll(Inner(s), ParamNames(params)), handled)
    case Handle(effect, handler, body) =>
      if effect !in k.effects then Report({}, [UnknownEffect(effect)])
      else Join(Scan(k, handler, s, handled), ScanStmts(k, body, Inner(s), handled + {effect}))
    case ForIn(variable, iterable, body) =>
      Join(Scan(k, iterable, s, handled), ScanStmts(k, body, LoopScope(s, variable), handled))
    case While(cond, body) => Join(Scan(k, cond, s, handled), ScanStmts(k, body, Inner(s), handled))
    case _ => NOTHING
  }

  /** A name that is neither an effect nor in scope is an error, unless it
      begins with a capital: then it may be a type from elsewhere. */
  function ScanName(k: Known, name: string, s: Scope): Report {
    if name in k.effects || Lookup(s, name).Some? || IsUpper(name) then NOTHING else Report({}, [Undefined(name)])
  }

  function ScanTarget(target: string, s: Scope): Report {
    match Lookup(s, target)
    case None => Report({}, [Undefined(target)])
    case Some(assignable) => if assignable then NOTHING else Report({}, [Immutable(target)])
  }

  /** A direct call uses what the function declares; a method call on a
      namespace uses that effect. */
  function ScanCallee(k: Known, callee: Expr, s: Scope, handled: set<string>): Report
    decreases callee
  {
    match callee
    case Name(f) => if f in k.fns then Report(Set(k.fns[f].effects) - handled, []) else NOTHING
    case Field(owner, _) =>
      Join(Scan(k, owner, s, handled),
           if owner.Name? && owner.name in k.effects then Report({owner.name} - handled, []) else NOTHING)
    case _ => NOTHING
  }

  function Set(s: seq<string>): set<string> {
    set x | x in s
  }

  function ScanStmts(k: Known, stmts: seq<Stmt>, s: Scope, handled: set<string>): Report
    requires |s| > 0
    decreases stmts
  {
    if |stmts| == 0 then NOTHING
    else Join(ScanStmt(k, stmts[0], s, handled), ScanStmts(k, stmts[1..], AfterStmt(s, stmts[0]), handled))
  }

  /** A second `let` of a name in one scope is an error, and its value is not
      looked at. */
  function ScanStmt(k: Known, stmt: Stmt, s: Scope, handled: set<string>): Report
    decreases stmt
  {
    match stmt
    case Let(name, value) =>
      if DeclaredHere(s, name) then Report({}, [Redeclared(name)]) else Scan(k, value, s, handled)
    case Return(value) => Scan(k, value, s, handled)
    case Do(value) => Scan(k, value, s, handled)
    case _ => NOTHING
  }

  function ScanArms(k: Known, arms: seq<Arm>, s: Scope, handled: set<string>): Report
    decreases arms
  {
    if |arms| == 0 then NOTHING
    else Join(ScanArm(k, arms[0], s, handled), ScanArms(k, arms[1..], s, handled))
  }

  function ScanArm(k: Known, arm: Arm, s: Scope, handled: set<string>): Report
    decreases arm
  {
    var inner := DefineAll(Inner(s), PatternNames(arm.pattern));
    var body := Scan(k, arm.body, inner, handled);
    if arm.guard.Some? then Join(Scan(k, arm.guard.value, inner, handled), body) else body
  }

  function ScanArgs(k: Known, args: seq<Arg>, s: Scope, handled: set<string>): Report
    decreases args
  {
    if |args| == 0 then NOTHING
    else Join(Scan(k, args[0].value, s, handled), ScanArgs(k, args[1..], s, handled))
  }

  function ScanAll(k: Known, es: seq<Expr>, s: Scope, handled: set<string>): Report
    decreases es
  {
    if |es| == 0 then NOTHING
    else Join(Scan(k, es[0], s, handled), ScanAll(k, es[1..], s, handled))
  }

  /** A function passes when its body raises no error of its own and uses
      exactly the effects it declares. */
  predicate Passes(k: Known, fn: FnDecl) {
    var r := ScanStmts(k, fn.body, Entry(k, fn), {});
    r.errors == [] && r.used == Set(fn.effects)
  }

  predicate AllPass(k: Known, decls: seq<FnDecl>) {
    forall d :: d in decls ==> Passes(k, d)
  }

  // ---------- the checker ----------

  class Checker {
    const effects: set<string>
    const globals: map<string, bool>
    var fns: map<string, FnDecl>
    var used: set<string>
    var handled: set<string>
    var scope: Scope
    var errors: seq<CheckError>

    constructor (effects: set<string>, globals: map<string, bool>)
      ensures this.effects == effects && this.globals == globals && scope == [globals]
      ensures fns == map[] && used == {} && handled == {} && errors == []
    {
      this.effects, this.globals, scope := effects, globals, [globals];
      fns, used, handled, errors := map[], {}, {}, [];
    }

    function K(): Known
      reads `fns
    {
      Known(effects, fns, globals)
    }

    /** The context after looking at something whose report is `r`: the used
        set and the errors grow by it, everything else is as it was. */
    twostate predicate Reported(r: Report)
      reads this
    {
      && used == old(used) + r.used && errors == old(errors) + r.errors
      && handled == old(handled) && scope == old(scope)
    }

    method PushScope()
      modifies `scope
      ensures scope == Inner(old(scope))
    {
      scope := scope + [map[]];
    }

    method PopScope()
      requires |scope| > 0
      modifies `scope
      ensures scope == old(scope)[..|old(scope)| - 1]
    {
      scope := scope[..|scope| - 1];
    }

    method DefineName(name: string)
      requires |scope| > 0
      modifies `scope
      ensures scope == Define(old(scope), name)
    {
      scope := scope[|scope| - 1 := scope[|scope| - 1][name := true]];
    }

    method EnterLoop(variable: string)
      modifies `scope
      ensures scope == LoopScope(old(scope), variable)
    {
      PushScope();
      if variable != "_" {
        DefineName(variable);
      }
    }

    method DefineNames(names: seq<string>)
      requires |scope| > 0
      modifies `scope
      ensures scope == DefineAll(old(scope), names)
    {
      var i := 0;
      while i < |names|
        invariant 0 <= i <= |names| && |scope| > 0
        invariant DefineAll(scope, names[i..]) == DefineAll(old(scope), names)
      {
        assert names[i..][1..] == names[i + 1..];
        DefineName(names[i]);
        i := i + 1;
      }
    }

    method RecordEffect(effect: string)
      modifies `used
      ensures used == old(used) + ({effect} - handled)
    {
      if effect in handled {
        return;
      }
      used := used + {effect};
    }

    method InferExpr(e: Expr)
      modifies `used, `handled, `scope, `errors
      ensures Reported(Scan(K(), e, old(scope), old(handled)))
      decreases e, 2
    {
      hide ScanStmts, ScanArms, ScanArgs, ScanAll, ScanCallee, ScanName, ScanTarget, Inner, LoopScope, DefineAll, Join;
      match e
      case Name(name) => InferIdentifier(name);
      case Infix(_, left, right) => InferBoth(e, left, right);
      case Prefix(_, operand) => InferExpr(operand);
      case Try(operand) => InferExpr(operand);
      case Index(owner, index) => InferBoth(e, owner, index);
      case Assign(target, how, value) => CheckAssignment(target, how, value);
      case Call(callee, args) => InferCall(callee, args);
      case Field(owner, _) => InferExpr(owner);
      case List(elems) => InferAll(elems);
      case Object(_, fields) => InferArgs(fields);
      case Wrap(_, _, payload) => InferExpr(payload);
      case _ => InferBody(e);
    }

    /** Both operands of `e`. */
    method InferBoth(ghost e: Expr, left: Expr, right: Expr)
      requires left < e && right < e
      modifies `used, `handled, `scope, `errors
      ensures Reported(Join(Scan(K(), left, old(scope), old(handled)), Scan(K(), right, old(scope), old(handled))))
      decreases e, 1
    {
      hide Scan;
      InferExpr(left);
      InferExpr(right);
    }

    /** The forms with a body of their own; anything else is a literal. */
    method InferBody(e: Expr)
      requires e.If? || e.Block? || e.Match? || e.Lambda? || e.Handle? || e.ForIn? || e.While?
               || e.Nil? || e.Num? || e.Flag? || e.Text?
      modifies `used, `handled, `scope, `errors
      ensures Reported(Scan(K(), e, old(scope), old(handled)))
      decreases e, 1
    {
      hide ScanStmts, ScanArms, ScanArgs, ScanAll, ScanCallee, ScanName, ScanTarget, Inner, LoopScope, DefineAll;
      match e
      case If(cond, consequence, alternative) => CheckIf(cond, consequence, alternative);
      case Block(stmts) => CheckInner(stmts);
      case Match(subject, arms) => CheckMatch(subject, arms);
      case Lambda(params, body) => CheckLambda(params, body);
      case Handle(effect, handler, body) => CheckHandle(effect, handler, body);
      case ForIn(variable, iterable, body) => CheckForIn(variable, iterable, body);
      case While(cond, body) =>
        InferExpr(cond);
        CheckInner(body);
      case _ =>
    }

    function LookupName(name: string): (r: Option<bool>)
      reads `scope
      ensures r == Lookup(scope, name)
    {
      Lookup(scope, name)
    }

    method InferIdentifier(name: string)
      modifies `errors
      ensures Reported(ScanName(K(), name, old(scope)))
    {
      if name in effects {
        return;
      }
      var binding := LookupName(name);
      if binding.None? && !IsUpper(name) {
        errors := errors + [Undefined(name)];
      }
    }

    method CheckAssignment(target: string, how: AssignOp, value: Expr)
      modifies `used, `handled, `scope, `errors
      ensures Reported(Scan(K(), Assign(target, how, value), old(scope), old(handled)))
      decreases Assign(target, how, value), 0
    {
      hide ScanStmts, ScanArms, ScanArgs, ScanAll, ScanCallee, ScanName;
      InferExpr(value);
      var binding := LookupName(target);
      if binding.None? {
        errors := errors + [Undefined(target)];
      } else if !binding.value {
        errors := errors + [Immutable(target)];
      }
    }

    method CheckMatch(subject: Expr, arms: seq<Arm>)
      modifies `used, `handled, `scope, `errors
      ensures Reported(Scan(K(), Match(subject, arms), old(scope), old(handled)))
      decreases Match(subject, arms), 0
    {
      hide ScanStmts, ScanArms, ScanArgs, ScanAll, ScanCallee, ScanName;
      InferExpr(subject);
      CheckArms(arms);
    }

    /** A block in a scope of its own. */
    method CheckInner(stmts: seq<Stmt>)
      modifies `used, `handled, `scope, `errors
      ensures Reported(ScanStmts(K(), stmts, Inner(old(scope)), old(handled)))
      decreases stmts, 2
    {
      hide ScanStmts;
      PushScope();
      CheckBlock(stmts);
      PopScope();
    }

    method CheckLambda(params: seq<Param>, body: seq<Stmt>)
      modifies `used, `handled, `scope, `errors
      ensures Reported(Scan(K(), Lambda(params, body), old(scope), old(handled)))
      decreases Lambda(params, body), 0
    {
      hide ScanStmts;
      PushScope();
      DefineNames(ParamNames(params));
      CheckBlock(body);
      PopScope();
    }

    method CheckForIn(variable: string, iterable: Expr, body: seq<Stmt>)
      modifies `used, `handled, `scope, `errors
      ensures Reported(Scan(K(), ForIn(variable, iterable, body), old(scope), old(handled)))
      decreases ForIn(variable, iterable, body), 0
    {
      hide ScanStmts, ScanArms, ScanArgs, ScanAll, ScanCallee, ScanName;
      InferExpr(iterable);
      EnterLoop(variable);
      CheckBlock(body);
      PopScope();
    }

    method CheckIf(cond: Expr, consequence: seq<Stmt>, alternative: Else)
      modifies `used, `handled, `scope, `errors
      ensures Reported(Scan(K(), If(cond, consequence, alternative), old(scope), old(handled)))
      decreases If(cond, consequence, alternative), 0
    {
      hide ScanStmts, ScanArms, ScanArgs, ScanAll, ScanCallee, ScanName;
      InferExpr(cond);
      CheckInner(consequence);
      if alternative.Else? {
        CheckInner(alternative.stmts);
      }
    }

    method CheckHandle(effect: string, handler: Expr, body: seq<Stmt>)
      modifies `used, `handled, `scope, `errors
      ensures Reported(Scan(K(), Handle(effect, handler, body), old(scope), old(handled)))
      decreases Handle(effect, handler, body), 0
    {
      hide ScanStmts, ScanArms, ScanArgs, ScanAll, ScanCallee, ScanName, ScanTarget, Inner, LoopScope, DefineAll;
      if effect !in effects {
        errors := errors + [UnknownEffect(effect)];
        return;
      }
      InferExpr(handler);
      var prevHandled := handled;
      handled := handled + {effect};
      CheckInner(body);
      handled := prevHandled;
    }

    method InferCall(callee: Expr, args: seq<Arg>)
      modifies `used, `handled, `scope, `errors
      ensures Reported(Scan(K(), Call(callee, args), old(scope), old(handled)))
      decreases Call(callee, args), 0
    {
      hide ScanStmts, ScanArms, ScanArgs, ScanAll, ScanCallee;
      InferArgs(args);
      InferCallee(callee);
    }

    method InferCallee(callee: Expr)
      modifies `used, `handled, `scope, `errors
      ensures Reported(ScanCallee(K(), callee, old(scope), old(handled)))
      decreases callee, 3
    {
      hide Scan;
      match callee
      case Name(f) => if f in fns { RecordAll(fns[f].effects); }
      case Field(owner, _) =>
        InferExpr(owner);
        if owner.Name? && owner.name in effects {
          RecordEffect(owner.name);
        }
      case _ =>
    }

    method RecordAll(effects: seq<string>)
      modifies `used
      ensures used == old(used) + (Set(effects) - handled)
    {
      for i := 0 to |effects|
        invariant used == old(used) + (Set(effects[..i]) - handled)
      {
        assert Set(effects[..i + 1]) == Set(effects[..i]) + {effects[i]};
        RecordEffect(effects[i]);
      }
      assert effects[..|effects|] == effects;
    }

    /** The statements of a block, in the current scope, which grows by what
        they declare. */
    method CheckBlock(stmts: seq<Stmt>)
      requires |scope| > 0
      modifies `used, `handled, `scope, `errors
      ensures var r := ScanStmts(K(), stmts, old(scope), old(handled));
              used == old(used) + r.used && errors == old(errors) + r.errors && handled == old(handled)
      ensures scope == AfterStmts(old(scope), stmts)
      decreases stmts, 1
    {
      hide ScanStmt, AfterStmt;
      var i := 0;
      ghost var k, h := K(), handled;
      ghost var r := ScanStmts(k, stmts, scope, h);
      while i < |stmts|
        invariant 0 <= i <= |stmts| && handled == h && K() == k && |scope| > 0
        invariant AfterStmts(scope, stmts[i..]) == AfterStmts(old(scope), stmts)
        invariant used + ScanStmts(k, stmts[i..], scope, h).used == old(used) + r.used
        invariant errors + ScanStmts(k, stmts[i..], scope, h).errors == old(errors) + r.errors
        decreases |stmts| - i
      {
        assert stmts[i..][1..] == stmts[i + 1..];
        CheckStatement(stmts[i]);
        i := i + 1;
      }
    }

    method CheckStatement(stmt: Stmt)
      requires |scope| > 0
      modifies `used, `handled, `scope, `errors
      ensures var r := ScanStmt(K(), stmt, old(scope), old(handled));
              used == old(used) + r.used && errors == old(errors) + r.errors && handled == old(handled)
      ensures scope == AfterStmt(old(scope), stmt)
      decreases stmt, 1
    {
      match stmt
      case Let(name, value) =>
        if DeclaredHere(scope, name) {
          errors := errors + [Redeclared(name)];
        } else {
          InferExpr(value);
          DefineName(name);
        }
      case Return(value) => InferExpr(value);
      case Do(value) => InferExpr(value);
      case _ =>
    }

    method CheckArms(arms: seq<Arm>)
      modifies `used, `handled, `scope, `errors
      ensures Reported(ScanArms(K(), arms, old(scope), old(handled)))
      decreases arms, 1
    {
      hide ScanArm;
      var i := 0;
      ghost var k, s, h := K(), scope, handled;
      while i < |arms|
        invariant 0 <= i <= |arms| && handled == h && scope == s && K() == k
        invariant used + ScanArms(k, arms[i..], s, h).used == old(used) + ScanArms(k, arms, s, h).used
        invariant errors + ScanArms(k, arms[i..], s, h).errors == old(errors) + ScanArms(k, arms, s, h).errors
        decreases |arms| - i
      {
        assert arms[i..][1..] == arms[i + 1..];
        CheckArm(arms[i]);
        i := i + 1;
      }
    }

    method CheckArm(arm: Arm)
      modifies `used, `handled, `scope, `errors
      ensures Reported(ScanArm(K(), arm, old(scope), old(handled)))
      decreases arm, 1
    {
      hide Scan, DefineAll, PatternNames;
      PushScope();
      DefineNames(PatternNames(arm.pattern));
      if arm.guard.Some? {
        InferExpr(arm.guard.value);
      }
      InferExpr(arm.body);
      PopScope();
    }

    method InferArgs(args: seq<Arg>)
      modifies `used, `handled, `scope, `errors
      ensures Reported(ScanArgs(K(), args, old(scope), old(handled)))
      decreases args, 1
    {
      hide Scan;
      var i := 0;
      ghost var k, s, h := K(), scope, handled;
      while i < |args|
        invariant 0 <= i <= |args| && handled == h && scope == s && K() == k
        invariant used + ScanArgs(k, args[i..], s, h).used == old(used) + ScanArgs(k, args, s, h).used
        invariant errors + ScanArgs(k, args[i..], s, h).errors == old(errors) + ScanArgs(k, args, s, h).errors
        decreases |args| - i
      {
        assert args[i..][1..] == args[i + 1..];
        InferExpr(args[i].value);
        i := i + 1;
      }
    }

    method InferAll(es: seq<Expr>)
      modifies `used, `handled, `scope, `errors
      ensures Reported(ScanAll(K(), es, old(scope), old(handled)))
      decreases es, 1
    {
      hide Scan;
      var i := 0;
      ghost var k, s, h := K(), scope, handled;
      while i < |es|
        invariant 0 <= i <= |es| && handled == h && scope == s && K() == k
        invariant used + ScanAll(k, es[i..], s, h).used == old(used) + ScanAll(k, es, s, h).used
        invariant errors + ScanAll(k, es[i..], s, h).errors == old(errors) + ScanAll(k, es, s, h).errors
        decreases |es| - i
      {
        assert es[i..][1..] == es[i + 1..];
        InferExpr(es[i]);
        i := i + 1;
      }
    }

    /** The two-way contract: one error for each effect used but not declared,
        and for each declared but not used. */
    method CheckEffects(declared: seq<string>)
      modifies `errors
      ensures old(errors) <= errors
      ensures errors == old(errors) <==> used == Set(declared)
      ensures forall e :: Undeclared(e) in errors[|old(errors)|..] <==> e in used - Set(declared)
      ensures forall e :: Unused(e) in errors[|old(errors)|..] <==> e in Set(declared) - used
    {
      var missing: seq<CheckError> := [];
      var rest := used;
      while rest != {}
        invariant rest <= used
        invariant forall e :: Undeclared(e) in missing <==> e in used - rest - Set(declared)
        invariant forall x :: x in missing ==> x.Undeclared?
        decreases rest
      {
        var effect :| effect in rest;
        if effect !in declared {
          missing := missing + [Undeclared(effect)];
        }
        rest := rest - {effect};
      }
      var idle: seq<CheckError> := [];
      for i := 0 to |declared|
        invariant forall e :: Unused(e) in idle <==> e in declared[..i] && e !in used
        invariant forall x :: x in idle ==> x.Unused?
      {
        if declared[i] !in used {
          idle := idle + [Unused(declared[i])];
        }
      }
      assert declared[..|declared|] == declared;
      errors := errors + (missing + idle);
      assert errors[|old(errors)|..] == missing + idle;
      assert errors == old(errors) <==> missing + idle == [];
      if missing + idle == [] {
        assert forall e :: Undeclared(e) !in missing && Unused(e) !in idle;
        assert used == Set(declared);
      } else if |missing| > 0 {
        assert missing[0] in missing;
        assert missing[0].effect in used - Set(declared);
      } else {
        assert idle[0] in idle;
        assert idle[0].effect in Set(declared) - used;
      }
    }

    /** One function: no new error exactly when it passes, and the checker's
        own context is restored. */
    method CheckFnDecl(fn: FnDecl)
      requires scope == [globals]
      modifies `used, `handled, `scope, `errors
      ensures used == old(used) && handled == old(handled) && scope == old(scope)
      ensures old(errors) <= errors
      ensures errors == old(errors) <==> Passes(K(), fn)
    {
      hide ScanStmts;
      PushScope();
      var prevUsed, prevHandled := used, handled;
      used, handled := {}, {};
      DefineNames(OwnNames(fn.params));
      CheckBlock(fn.body);
      ghost var mid := errors;
      CheckEffects(fn.effects);
      used, handled := prevUsed, prevHandled;
      PopScope();
      assert |errors| >= |mid| >= |old(errors)|;
    }

    /** The first pass. */
    method Collect(decls: seq<FnDecl>)
      modifies `fns
      ensures fns == Table(decls)
    {
      fns := map[];
      for i := 0 to |decls|
        invariant fns == Table(decls[..i])
      {
        assert decls[..i + 1][..i] == decls[..i];
        fns := fns[decls[i].name := decls[i]];
      }
      assert decls[..|decls|] == decls;
    }

    /** Both passes over the declarations of a program. */
    method Check(decls: seq<FnDecl>)
      requires errors == [] && scope == [globals]
      modifies this
      ensures fns == Table(decls)
      ensures errors == [] <==> AllPass(Known(effects, Table(decls), globals), decls)
    {
      hide Table, Passes;
      Collect(decls);
      ghost var k := K();
      for i := 0 to |decls|
        invariant K() == k && scope == [globals]
        invariant errors == [] <==> AllPass(k, decls[..i])
      {
        assert decls[..i + 1] == decls[..i] + [decls[i]];
        CheckFnDecl(decls[i]);
      }
      assert decls[..|decls|] == decls;
    }
  }
}
