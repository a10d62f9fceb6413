/** What the checker finds, said without its accumulators: an effect is used exactly
    when a call of it occurs outside every handler for it, and there are no errors
    exactly when the names are well used. */
module EffectOccurrences {
  import opened Options
  import opened Evaluation
  import opened Checking

  // ---------- occurrences ----------

  /** A direct call of a function that declares `x`, or a method call on the
      namespace `x`. */
  predicate CallsEffect(k: Known, callee: Expr, x: string) {
    || (callee.Name? && callee.name in k.fns && x in k.fns[callee.name].effects)
    || (callee.Field? && callee.owner == Name(x) && x in k.effects)
  }

  /** A call of `x` occurs in `e` outside every handler for `x`. */
  predicate Occurs(k: Known, e: Expr, s: Scope, x: string)
    decreases e
  {
    match e
    case Infix(_, left, right) => Occurs(k, left, s, x) || Occurs(k, right, s, x)
    case Prefix(_, operand) => Occurs(k, operand, s, x)
    case Try(operand) => Occurs(k, operand, s, x)
    case Index(owner, index) => Occurs(k, owner, s, x) || Occurs(k, index, s, x)
    case Assign(_, _, value) => Occurs(k, value, s, x)
    case If(cond, yes, no) =>
      || Occurs(k, cond, s, x)
      || OccursStmts(k, yes, Inner(s), x)
      || (no.Else? && OccursStmts(k, no.stmts, Inner(s), x))
    case Block(stmts) => OccursStmts(k, stmts, Inner(s), x)
    case Match(subject, arms) => Occurs(k, subject, s, x) || OccursArms(k, arms, s, x)
    case Call(callee, args) =>
      || CallsEffect(k, callee, x)
      || (callee.Field? && Occurs(k, callee.owner, s, x))
      || OccursArgs(k, args, s, x)
    case Field(owner, _) => Occurs(k, owner, s, x)
    case List(elems) => OccursAll(k, elems, s, x)
    case Object(_, fields) => OccursArgs(k, fields, s, x)
    case Wrap(_, _, payload) => Occurs(k, payload, s, x)
    case Lambda(params, body) => OccursStmts(k, body, DefineAll(Inner(s), ParamNames(params)), x)
    case Handle(effect, handler, body) =>
      effect in k.effects && (Occurs(k, handler, s, x) || (effect != x && OccursStmts(k, body, Inner(s), x)))
    case ForIn(variable, iterable, body) => Occurs(k, iterable, s, x) || OccursStmts(k, body, LoopScope(s, variable), x)
    case While(cond, body) => Occurs(k, cond, s, x) || OccursStmts(k, body, Inner(s), x)
    case _ => false
  }

  predicate OccursStmts(k: Known, stmts: seq<Stmt>, s: Scope, x: string)
    requires |s| > 0
    decreases stmts
  {
    |stmts| > 0 && (OccursStmt(k, stmts[0], s, x) || OccursStmts(k, stmts[1..], AfterStmt(s, stmts[0]), x))
  }

  predicate OccursStmt(k: Known, stmt: Stmt, s: Scope, x: string)
    decreases stmt
  {
    match stmt
    case Let(name, value) => !DeclaredHere(s, name) && Occurs(k, value, s, x)
    case Return(value) => Occurs(k, value, s, x)
    case Do(value) => Occurs(k, value, s, x)
    case _ => false
  }

  predicate OccursArms(k: Known, arms: seq<Arm>, s: Scope, x: string)
    decreases arms
  {
    |arms| > 0 && (OccursArm(k, arms[0], s, x) || OccursArms(k, arms[1..], s, x))
  }

  predicate OccursArm(k: Known, arm: Arm, s: Scope, x: string)
    decreases arm
  {
    var inner := DefineAll(Inner(s), PatternNames(arm.pattern));
    (arm.guard.Some? && Occurs(k, arm.guard.value, inner, x)) || Occurs(k, arm.body, inner, x)
  }

  predicate OccursArgs(k: Known, args: seq<Arg>, s: Scope, x: string)
    decreases args
  {
    |args| > 0 && (Occurs(k, args[0].value, s, x) || OccursArgs(k, args[1..], s, x))
  }

  predicate OccursAll(k: Known, es: seq<Expr>, s: Scope, x: string)
    decreases es
  {
    |es| > 0 && (Occurs(k, es[0], s, x) || OccursAll(k, es[1..], s, x))
  }

  // ---------- the used set is the set of occurrences ----------

  /** The report uses `x` exactly when it occurs and is not handled around. */
  predicate Finds(r: Report, occurs: bool, h: set<string>, x: string) {
    x in r.used <==> occurs && x !in h
  }

  lemma {:induction false} UsedExactly(k: Known, e: Expr, s: Scope, h: set<string>, x: string)
    ensures Finds(Scan(k, e, s, h), Occurs(k, e, s, x), h, x)
    decreases e, 1
  {
    hide Inner, LoopScope, DefineAll, ParamNames, ScanName, ScanTarget, ScanCallee, CallsEffect, ScanStmts, ScanArms,
      ScanArgs, ScanAll, OccursStmts, OccursArms, OccursArgs, OccursAll;
    match e
    case Infix(_, left, right) => UsedExactly(k, left, s, h, x); UsedExactly(k, right, s, h, x);
    case Prefix(_, operand) => UsedExactly(k, operand, s, h, x);
    case Try(operand) => UsedExactly(k, operand, s, h, x);
    case Index(owner, index) => UsedExactly(k, owner, s, h, x); UsedExactly(k, index, s, h, x);
    case Assign(target, _, value) => UsedExactly(k, value, s, h, x); NamesUseNothing(k, target, s);
    case Name(name) => NamesUseNothing(k, name, s);
    case Call(callee, args) => UsedArgs(k, args, s, h, x); UsedCallee(k, callee, s, h, x);
    case Field(owner, _) => UsedExactly(k, owner, s, h, x);
    case List(elems) => UsedAll(k, elems, s, h, x);
    case Object(_, fields) => UsedArgs(k, fields, s, h, x);
    case Wrap(_, _, payload) => UsedExactly(k, payload, s, h, x);
    case _ =>
      hide Scan, Occurs;
      UsedBody(k, e, s, h, x);
  }

  /** The forms with a body. */
  lemma {:induction false} UsedBody(k: Known, e: Expr, s: Scope, h: set<string>, x: string)
    requires e.If? || e.Block? || e.Match? || e.Lambda? || e.Handle? || e.ForIn? || e.While?
             || e.Nil? || e.Num? || e.Flag? || e.Text?
    ensures Finds(Scan(k, e, s, h), Occurs(k, e, s, x), h, x)
    decreases e, 0, 1
  {
    hide Inner, LoopScope, DefineAll, ParamNames, ScanName, ScanTarget, ScanCallee, CallsEffect, ScanStmts, ScanArms,
      ScanArgs, ScanAll, OccursStmts, OccursArms, OccursArgs, OccursAll;
    match e
    case If(_, _, _) => UsedIf(k, e, s, h, x);
    case Handle(_, _, _) => UsedHandle(k, e, s, h, x);
    case Block(stmts) => UsedStmts(k, stmts, Inner(s), h, x);
    case Match(subject, arms) => UsedExactly(k, subject, s, h, x); UsedArms(k, arms, s, h, x);
    case Lambda(params, body) => UsedStmts(k, body, DefineAll(Inner(s), ParamNames(params)), h, x);
    case ForIn(variable, iterable, body) =>
      UsedExactly(k, iterable, s, h, x);
      UsedStmts(k, body, LoopScope(s, variable), h, x);
    case While(cond, body) => UsedExactly(k, cond, s, h, x); UsedStmts(k, body, Inner(s), h, x);
    case _ =>
  }

  lemma {:induction false} UsedIf(k: Known, e: Expr, s: Scope, h: set<string>, x: string)
    requires e.If?
    ensures Finds(Scan(k, e, s, h), Occurs(k, e, s, x), h, x)
    decreases e, 0, 0
  {
    hide Inner, ScanStmts, OccursStmts;
    UsedExactly(k, e.cond, s, h, x);
    UsedStmts(k, e.consequence, Inner(s), h, x);
    if e.alternative.Else? { UsedStmts(k, e.alternative.stmts, Inner(s), h, x); }
  }

  lemma {:induction false} UsedHandle(k: Known, e: Expr, s: Scope, h: set<string>, x: string)
    requires e.Handle?
    ensures Finds(Scan(k, e, s, h), Occurs(k, e, s, x), h, x)
    decreases e, 0, 0
  {
    hide Inner, ScanStmts, OccursStmts;
    if e.effect in k.effects {
      UsedExactly(k, e.handler, s, h, x);
      UsedStmts(k, e.body, Inner(s), h + {e.effect}, x);
    }
  }

  lemma NamesUseNothing(k: Known, name: string, s: Scope)
    ensures ScanName(k, name, s).used == {} && ScanTarget(name, s).used == {}
  {
  }

  lemma {:induction false} UsedCallee(k: Known, callee: Expr, s: Scope, h: set<string>, x: string)
    ensures Finds(ScanCallee(k, callee, s, h),
                  CallsEffect(k, callee, x) || (callee.Field? && Occurs(k, callee.owner, s, x)), h, x)
    decreases callee
  {
    hide Scan, Occurs;
    if callee.Field? { UsedExactly(k, callee.owner, s, h, x); }
  }

  lemma {:induction false} UsedStmts(k: Known, stmts: seq<Stmt>, s: Scope, h: set<string>, x: string)
    requires |s| > 0
    ensures Finds(ScanStmts(k, stmts, s, h), OccursStmts(k, stmts, s, x), h, x)
    decreases stmts
  {
    hide AfterStmt, Scan, Occurs;
    if |stmts| > 0 {
      UsedStmt(k, stmts[0], s, h, x);
      UsedStmts(k, stmts[1..], AfterStmt(s, stmts[0]), h, x);
    }
  }

  lemma {:induction false} UsedStmt(k: Known, stmt: Stmt, s: Scope, h: set<string>, x: string)
    ensures Finds(ScanStmt(k, stmt, s, h), OccursStmt(k, stmt, s, x), h, x)
    decreases stmt
  {
    hide Scan, Occurs;
    match stmt
    case Let(_, value) => UsedExactly(k, value, s, h, x);
    case Return(value) => UsedExactly(k, value, s, h, x);
    case Do(value) => UsedExactly(k, value, s, h, x);
    case _ =>
  }

  lemma {:induction false} UsedArms(k: Known, arms: seq<Arm>, s: Scope, h: set<string>, x: string)
    ensures Finds(ScanArms(k, arms, s, h), OccursArms(k, arms, s, x), h, x)
    decreases arms
  {
    hide Inner, DefineAll, PatternNames, Scan, Occurs;
    if |arms| > 0 {
      UsedArm(k, arms[0], s, h, x);
      UsedArms(k, arms[1..], s, h, x);
    }
  }

  lemma {:induction false} UsedArm(k: Known, arm: Arm, s: Scope, h: set<string>, x: string)
    ensures Finds(ScanArm(k, arm, s, h), OccursArm(k, arm, s, x), h, x)
    decreases arm
  {
    hide Inner, DefineAll, PatternNames, Scan, Occurs;
    var inner := DefineAll(Inner(s), PatternNames(arm.pattern));
    if arm.guard.Some? { UsedExactly(k, arm.guard.value, inner, h, x); }
    UsedExactly(k, arm.body, inner, h, x);
  }

  lemma {:induction false} UsedArgs(k: Known, args: seq<Arg>, s: Scope, h: set<string>, x: string)
    ensures Finds(ScanArgs(k, args, s, h), OccursArgs(k, args, s, x), h, x)
    decreases args
  {
    hide Scan, Occurs;
    if |args| > 0 {
      UsedExactly(k, args[0].value, s, h, x);
      UsedArgs(k, args[1..], s, h, x);
    }
  }

  lemma {:induction false} UsedAll(k: Known, es: seq<Expr>, s: Scope, h: set<string>, x: string)
    ensures Finds(ScanAll(k, es, s, h), OccursAll(k, es, s, x), h, x)
    decreases es
  {
    hide Scan, Occurs;
    if |es| > 0 {
      UsedExactly(k, es[0], s, h, x);
      UsedAll(k, es[1..], s, h, x);
    }
  }

  /** What is handled around an expression is taken from what it uses alone. */
  lemma HandledAround(k: Known, e: Expr, s: Scope, h: set<string>)
    ensures Scan(k, e, s, h).used == Scan(k, e, s, {}).used - h
  {
    hide Scan, Occurs;
    forall x ensures x in Scan(k, e, s, h).used <==> x in Scan(k, e, s, {}).used - h {
      UsedExactly(k, e, s, h, x);
      UsedExactly(k, e, s, {}, x);
    }
  }

  /** A handler of a known effect: its effect is used only by the handler expression,
      any other one by that or by the body. */
  lemma HandlerMasks(k: Known, effect: string, handler: Expr, body: seq<Stmt>, s: Scope, h: set<string>)
    requires effect in k.effects
    ensures var e := Handle(effect, handler, body);
            && (effect in Scan(k, e, s, h).used <==> effect in Scan(k, handler, s, h).used)
            && (forall x :: x != effect ==>
                  (x in Scan(k, e, s, h).used <==>
                   x in Scan(k, handler, s, h).used || x in Scan(k, Block(body), s, h).used))
  {
    hide Scan, Occurs;
    forall x
      ensures x in Scan(k, Handle(effect, handler, body), s, h).used <==>
              x in Scan(k, handler, s, h).used || (x != effect && x in Scan(k, Block(body), s, h).used)
    {
      UsedExactly(k, Handle(effect, handler, body), s, h, x);
      UsedExactly(k, handler, s, h, x);
      UsedExactly(k, Block(body), s, h, x);
      HandleOccurs(k, effect, handler, body, s, x);
    }
  }

  lemma HandleOccurs(k: Known, effect: string, handler: Expr, body: seq<Stmt>, s: Scope, x: string)
    requires effect in k.effects
    ensures Occurs(k, Handle(effect, handler, body), s, x)
            <==> Occurs(k, handler, s, x) || (effect != x && Occurs(k, Block(body), s, x))
  {
  }

  // ---------- scopes ----------

  predicate Bound(s: Scope, name: string) {
    exists i :: 0 <= i < |s| && name in s[i]
  }

  /** The innermost binding of the name may be assigned. */
  predicate Assignable(s: Scope, name: string) {
    exists i :: 0 <= i < |s| && name in s[i] && s[i][name] && forall j :: i < j < |s| ==> name !in s[j]
  }

  lemma {:induction false} LookupIs(s: Scope, name: string)
    ensures Lookup(s, name).Some? <==> Bound(s, name)
    ensures Lookup(s, name) == Some(true) <==> Assignable(s, name)
  {
    var n := |s| - 1;
    if |s| > 0 && name !in s[n] {
      LookupIs(s[..n], name);
      if i :| 0 <= i < |s| && name in s[i] { assert name in s[..n][i]; }
      if i :| 0 <= i < n && name in s[..n][i] { assert name in s[i]; }
      if i :| 0 <= i < |s| && name in s[i] && s[i][name] && forall j :: i < j < |s| ==> name !in s[j] {
        assert name in s[..n][i] && s[..n][i][name];
      }
      if i :| 0 <= i < n && name in s[..n][i] && s[..n][i][name] && forall j :: i < j < n ==> name !in s[..n][j] {
        assert forall j :: i < j < n ==> s[..n][j] == s[j];
        assert name in s[i] && s[i][name];
      }
    } else if |s| > 0 {
      assert name in s[n];
    }
  }

  lemma DefineBinds(s: Scope, name: string, n: string)
    requires |s| > 0
    ensures Bound(Define(s, name), n) <==> n == name || Bound(s, n)
  {
    var r := Define(s, name);
    assert forall i :: 0 <= i < |s| - 1 ==> r[i] == s[i];
    assert name in r[|s| - 1];
    if i :| 0 <= i < |s| && n in s[i] { assert n in r[i]; }
  }

  lemma {:induction false} DefineAllBinds(s: Scope, names: seq<string>, n: string)
    requires |s| > 0
    ensures Bound(DefineAll(s, names), n) <==> n in names || Bound(s, n)
    decreases |names|
  {
    hide Define, Bound;
    if |names| > 0 {
      DefineBinds(s, names[0], n);
      DefineAllBinds(Define(s, names[0]), names[1..], n);
      assert n in names <==> n == names[0] || n in names[1..];
    }
  }

  lemma InnerBinds(s: Scope, n: string)
    ensures Bound(Inner(s), n) <==> Bound(s, n)
  {
    if i :| 0 <= i < |s| && n in s[i] { assert n in Inner(s)[i]; }
  }

  lemma {:induction false} OwnNamesAre(params: seq<Param>, n: string)
    ensures n in OwnNames(params) <==> n != "self" && exists i :: 0 <= i < |params| && params[i].name == n
  {
    if |params| > 0 {
      OwnNamesAre(params[1..], n);
      if i :| 0 <= i < |params| && params[i].name == n && i > 0 { assert params[1..][i - 1].name == n; }
    }
  }

  /** What is in scope: in a function the globals and its parameters but `self`, in a
      lambda the parameters, in a loop its variable unless it is `_`, and after a
      `let` its name. */
  lemma WhatIsBound(k: Known, fn: FnDecl, s: Scope, params: seq<Param>, variable: string, stmt: Stmt, n: string)
    ensures Bound(Entry(k, fn), n)
            <==> n in k.globals || (n != "self" && exists i :: 0 <= i < |fn.params| && fn.params[i].name == n)
    ensures Bound(DefineAll(Inner(s), ParamNames(params)), n)
            <==> Bound(s, n) || exists i :: 0 <= i < |params| && params[i].name == n
    ensures Bound(LoopScope(s, variable), n) <==> Bound(s, n) || (n == variable && variable != "_")
    ensures |s| > 0 ==> (Bound(AfterStmt(s, stmt), n) <==> Bound(s, n) || (stmt.Let? && n == stmt.name))
  {
    DefineAllBinds(Inner([k.globals]), OwnNames(fn.params), n);
    OwnNamesAre(fn.params, n);
    InnerBinds([k.globals], n);
    assert Bound([k.globals], n) <==> n in k.globals by { GlobalBound(k.globals, n); }
    DefineAllBinds(Inner(s), ParamNames(params), n);
    InnerBinds(s, n);
    ParamNamesAre(params, n);
    DefineBinds(Inner(s), variable, n);
    if |s| > 0 { AfterBinds(s, stmt, n); }
    hide Bound, DefineAll, Define, Inner, OwnNames, ParamNames, AfterStmt;
  }

  lemma GlobalBound(globals: map<string, bool>, n: string)
    ensures Bound([globals], n) <==> n in globals
  {
    if n in globals { assert n in [globals][0]; }
  }

  lemma ParamNamesAre(params: seq<Param>, n: string)
    ensures n in ParamNames(params) <==> exists i :: 0 <= i < |params| && params[i].name == n
  {
    if i :| 0 <= i < |params| && params[i].name == n { assert ParamNames(params)[i] == n; }
  }

  lemma AfterBinds(s: Scope, stmt: Stmt, n: string)
    requires |s| > 0
    ensures Bound(AfterStmt(s, stmt), n) <==> Bound(s, n) || (stmt.Let? && n == stmt.name)
  {
    if stmt.Let? {
      DefineBinds(s, stmt.name, n);
      if DeclaredHere(s, stmt.name) { assert Bound(s, stmt.name); }
    }
  }

  // ---------- well used names ----------

  predicate NameStands(k: Known, name: string, s: Scope) {
    name in k.effects || Bound(s, name) || (|name| > 0 && 'A' <= name[0] <= 'Z')
  }

  /** Every name read stands for something, every one assigned may be, no scope
      declares one twice, and every handler is for a known effect. */
  predicate Clean(k: Known, e: Expr, s: Scope)
    decreases e
  {
    match e
    case Name(name) => NameStands(k, name, s)
    case Infix(_, left, right) => Clean(k, left, s) && Clean(k, right, s)
    case Prefix(_, operand) => Clean(k, operand, s)
    case Try(operand) => Clean(k, operand, s)
    case Index(owner, index) => Clean(k, owner, s) && Clean(k, index, s)
    case Assign(target, _, value) => Assignable(s, target) && Clean(k, value, s)
    case If(cond, yes, no) =>
      && Clean(k, cond, s)
      && CleanStmts(k, yes, Inner(s))
      && (no.Else? ==> CleanStmts(k, no.stmts, Inner(s)))
    case Block(stmts) => CleanStmts(k, stmts, Inner(s))
    case Match(subject, arms) => Clean(k, subject, s) && CleanArms(k, arms, s)
    case Call(callee, args) => (callee.Field? ==> Clean(k, callee.owner, s)) && CleanArgs(k, args, s)
    case Field(owner, _) => Clean(k, owner, s)
    case List(elems) => CleanAll(k, elems, s)
    case Object(_, fields) => CleanArgs(k, fields, s)
    case Wrap(_, _, payload) => Clean(k, payload, s)
    case Lambda(params, body) => CleanStmts(k, body, DefineAll(Inner(s), ParamNames(params)))
    case Handle(effect, handler, body) =>
      effect in k.effects && Clean(k, handler, s) && CleanStmts(k, body, Inner(s))
    case ForIn(variable, iterable, body) => Clean(k, iterable, s) && CleanStmts(k, body, LoopScope(s, variable))
    case While(cond, body) => Clean(k, cond, s) && CleanStmts(k, body, Inner(s))
    case _ => true
  }

  predicate CleanStmts(k: Known, stmts: seq<Stmt>, s: Scope)
    requires |s| > 0
    decreases stmts
  {
    |stmts| > 0 ==> CleanStmt(k, stmts[0], s) && CleanStmts(k, stmts[1..], AfterStmt(s, stmts[0]))
  }

  predicate CleanStmt(k: Known, stmt: Stmt, s: Scope)
    requires |s| > 0
    decreases stmt
  {
    match stmt
    case Let(name, value) => name !in s[|s| - 1] && Clean(k, value, s)
    case Return(value) => Clean(k, value, s)
    case Do(value) => Clean(k, value, s)
    case _ => true
  }

  predicate CleanArms(k: Known, arms: seq<Arm>, s: Scope)
    decreases arms
  {
    |arms| > 0 ==> CleanArm(k, arms[0], s) && CleanArms(k, arms[1..], s)
  }

  predicate CleanArm(k: Known, arm: Arm, s: Scope)
    decreases arm
  {
    var inner := DefineAll(Inner(s), PatternNames(arm.pattern));
    (arm.guard.Some? ==> Clean(k, arm.guard.value, inner)) && Clean(k, arm.body, inner)
  }

  predicate CleanArgs(k: Known, args: seq<Arg>, s: Scope)
    decreases args
  {
    |args| > 0 ==> Clean(k, args[0].value, s) && CleanArgs(k, args[1..], s)
  }

  predicate CleanAll(k: Known, es: seq<Expr>, s: Scope)
    decreases es
  {
    |es| > 0 ==> Clean(k, es[0], s) && CleanAll(k, es[1..], s)
  }

  /** The errors are none exactly when this is clean, and are the same whatever is
      handled around. */
  predicate Errs(a: Report, b: Report, clean: bool) {
    a.errors == b.errors && (a.errors == [] <==> clean)
  }

  lemma {:induction false} ErrorsExactly(k: Known, e: Expr, s: Scope, h: set<string>, g: set<string>)
    ensures Errs(Scan(k, e, s, h), Scan(k, e, s, g), Clean(k, e, s))
    decreases e, 1
  {
    hide Inner, LoopScope, DefineAll, ParamNames, ScanName, ScanTarget, ScanCallee, ScanStmts, ScanArms, ScanArgs,
      ScanAll,
      CleanStmts, CleanArms, CleanArgs, CleanAll, NameStands, Assignable;
    match e
    case Infix(_, left, right) => ErrorsExactly(k, left, s, h, g); ErrorsExactly(k, right, s, h, g);
    case Prefix(_, operand) => ErrorsExactly(k, operand, s, h, g);
    case Try(operand) => ErrorsExactly(k, operand, s, h, g);
    case Index(owner, index) => ErrorsExactly(k, owner, s, h, g); ErrorsExactly(k, index, s, h, g);
    case Assign(target, _, value) => ErrorsExactly(k, value, s, h, g); NameErrors(k, target, s);
    case Name(name) => NameErrors(k, name, s);
    case Call(callee, args) => ErrorsArgs(k, args, s, h, g); ErrorsCallee(k, callee, s, h, g);
    case Field(owner, _) => ErrorsExactly(k, owner, s, h, g);
    case List(elems) => ErrorsAll(k, elems, s, h, g);
    case Object(_, fields) => ErrorsArgs(k, fields, s, h, g);
    case Wrap(_, _, payload) => ErrorsExactly(k, payload, s, h, g);
    case _ =>
      hide Scan, Clean;
      ErrorsBody(k, e, s, h, g);
  }

  lemma {:induction false} ErrorsBody(k: Known, e: Expr, s: Scope, h: set<string>, g: set<string>)
    requires e.If? || e.Block? || e.Match? || e.Lambda? || e.Handle? || e.ForIn? || e.While?
             || e.Nil? || e.Num? || e.Flag? || e.Text?
    ensures Errs(Scan(k, e, s, h), Scan(k, e, s, g), Clean(k, e, s))
    decreases e, 0, 1
  {
    hide Inner, LoopScope, DefineAll, ParamNames, ScanName, ScanTarget, ScanCallee, ScanStmts, ScanArms, ScanArgs,
      ScanAll,
      CleanStmts, CleanArms, CleanArgs, CleanAll;
    match e
    case If(_, _, _) => ErrorsIf(k, e, s, h, g);
    case Handle(_, _, _) => ErrorsHandle(k, e, s, h, g);
    case Block(stmts) => ErrorsStmts(k, stmts, Inner(s), h, g);
    case Match(subject, arms) => ErrorsExactly(k, subject, s, h, g); ErrorsArms(k, arms, s, h, g);
    case Lambda(params, body) => ErrorsStmts(k, body, DefineAll(Inner(s), ParamNames(params)), h, g);
    case ForIn(_, _, _) => ErrorsLoop(k, e, s, h, g);
    case While(_, _) => ErrorsLoop(k, e, s, h, g);
    case _ =>
  }

  lemma {:induction false} ErrorsLoop(k: Known, e: Expr, s: Scope, h: set<string>, g: set<string>)
    requires e.ForIn? || e.While?
    ensures Errs(Scan(k, e, s, h), Scan(k, e, s, g), Clean(k, e, s))
    decreases e, 0, 0
  {
    hide Inner, LoopScope, ScanStmts, CleanStmts;
    if e.ForIn? {
      ErrorsExactly(k, e.iterable, s, h, g);
      ErrorsStmts(k, e.body, LoopScope(s, e.variable), h, g);
    } else {
      ErrorsExactly(k, e.cond, s, h, g);
      ErrorsStmts(k, e.body, Inner(s), h, g);
    }
  }

  lemma {:induction false} ErrorsIf(k: Known, e: Expr, s: Scope, h: set<string>, g: set<string>)
    requires e.If?
    ensures Errs(Scan(k, e, s, h), Scan(k, e, s, g), Clean(k, e, s))
    decreases e, 0, 0
  {
    hide Inner, ScanStmts, CleanStmts;
    ErrorsExactly(k, e.cond, s, h, g);
    ErrorsStmts(k, e.consequence, Inner(s), h, g);
    if e.alternative.Else? { ErrorsStmts(k, e.alternative.stmts, Inner(s), h, g); }
  }

  lemma {:induction false} ErrorsHandle(k: Known, e: Expr, s: Scope, h: set<string>, g: set<string>)
    requires e.Handle?
    ensures Errs(Scan(k, e, s, h), Scan(k, e, s, g), Clean(k, e, s))
    decreases e, 0, 0
  {
    hide Inner, ScanStmts, CleanStmts;
    if e.effect in k.effects {
      ErrorsExactly(k, e.handler, s, h, g);
      ErrorsStmts(k, e.body, Inner(s), h + {e.effect}, g + {e.effect});
    }
  }

  lemma NameErrors(k: Known, name: string, s: Scope)
    ensures ScanName(k, name, s).errors == [] <==> NameStands(k, name, s)
    ensures ScanTarget(name, s).errors == [] <==> Assignable(s, name)
  {
    LookupIs(s, name);
    hide Lookup, Bound, Assignable;
  }

  lemma {:induction false} ErrorsCallee(k: Known, callee: Expr, s: Scope, h: set<string>, g: set<string>)
    ensures Errs(ScanCallee(k, callee, s, h), ScanCallee(k, callee, s, g), callee.Field? ==> Clean(k, callee.owner, s))
    decreases callee
  {
    hide Scan, Clean;
    if callee.Field? { ErrorsExactly(k, callee.owner, s, h, g); }
  }

  lemma {:induction false} ErrorsStmts(k: Known, stmts: seq<Stmt>, s: Scope, h: set<string>, g: set<string>)
    requires |s| > 0
    ensures Errs(ScanStmts(k, stmts, s, h), ScanStmts(k, stmts, s, g), CleanStmts(k, stmts, s))
    decreases stmts
  {
    hide AfterStmt, Scan, Clean;
    if |stmts| > 0 {
      ErrorsStmt(k, stmts[0], s, h, g);
      ErrorsStmts(k, stmts[1..], AfterStmt(s, stmts[0]), h, g);
    }
  }

  lemma {:induction false} ErrorsStmt(k: Known, stmt: Stmt, s: Scope, h: set<string>, g: set<string>)
    requires |s| > 0
    ensures Errs(ScanStmt(k, stmt, s, h), ScanStmt(k, stmt, s, g), CleanStmt(k, stmt, s))
    decreases stmt
  {
    hide Scan, Clean;
    match stmt
    case Let(_, value) => ErrorsExactly(k, value, s, h, g);
    case Return(value) => ErrorsExactly(k, value, s, h, g);
    case Do(value) => ErrorsExactly(k, value, s, h, g);
    case _ =>
  }

  lemma {:induction false} ErrorsArms(k: Known, arms: seq<Arm>, s: Scope, h: set<string>, g: set<string>)
    ensures Errs(ScanArms(k, arms, s, h), ScanArms(k, arms, s, g), CleanArms(k, arms, s))
    decreases arms
  {
    hide Inner, DefineAll, PatternNames, Scan, Clean;
    if |arms| > 0 {
      ErrorsArm(k, arms[0], s, h, g);
      ErrorsArms(k, arms[1..], s, h, g);
    }
  }

  lemma {:induction false} ErrorsArm(k: Known, arm: Arm, s: Scope, h: set<string>, g: set<string>)
    ensures Errs(ScanArm(k, arm, s, h), ScanArm(k, arm, s, g), CleanArm(k, arm, s))
    decreases arm
  {
    hide Inner, DefineAll, PatternNames, Scan, Clean;
    var inner := DefineAll(Inner(s), PatternNames(arm.pattern));
    if arm.guard.Some? { ErrorsExactly(k, arm.guard.value, inner, h, g); }
    ErrorsExactly(k, arm.body, inner, h, g);
  }

  lemma {:induction false} ErrorsArgs(k: Known, args: seq<Arg>, s: Scope, h: set<string>, g: set<string>)
    ensures Errs(ScanArgs(k, args, s, h), ScanArgs(k, args, s, g), CleanArgs(k, args, s))
    decreases args
  {
    hide Scan, Clean;
    if |args| > 0 {
      ErrorsExactly(k, args[0].value, s, h, g);
      ErrorsArgs(k, args[1..], s, h, g);
    }
  }

  lemma {:induction false} ErrorsAll(k: Known, es: seq<Expr>, s: Scope, h: set<string>, g: set<string>)
    ensures Errs(ScanAll(k, es, s, h), ScanAll(k, es, s, g), CleanAll(k, es, s))
    decreases es
  {
    hide Scan, Clean;
    if |es| > 0 {
      ErrorsExactly(k, es[0], s, h, g);
      ErrorsAll(k, es[1..], s, h, g);
    }
  }

  /** What each error says: a name that stands for nothing, one assigned that is not
      bound or may not be assigned, a handler for an effect nobody knows, a second `let`
      of a name in one scope. */
  lemma ErrorsSay(k: Known, name: string, value: Expr, body: seq<Stmt>, s: Scope, h: set<string>)
    ensures !NameStands(k, name, s) ==> Scan(k, Name(name), s, h) == Report({}, [Undefined(name)])
    ensures !Bound(s, name) ==> ScanTarget(name, s).errors == [Undefined(name)]
    ensures Bound(s, name) && !Assignable(s, name) ==> ScanTarget(name, s).errors == [Immutable(name)]
    ensures name !in k.effects ==> Scan(k, Handle(name, value, body), s, h) == Report({}, [UnknownEffect(name)])
    ensures |s| > 0 && name in s[|s| - 1] ==> ScanStmt(k, Let(name, value), s, h) == Report({}, [Redeclared(name)])
  {
    NameErrorsSay(k, name, s);
    hide NameStands, Bound, Assignable, ScanStmts, ScanName, ScanTarget;
  }

  lemma NameErrorsSay(k: Known, name: string, s: Scope)
    ensures !NameStands(k, name, s) ==> ScanName(k, name, s) == Report({}, [Undefined(name)])
    ensures !Bound(s, name) ==> ScanTarget(name, s).errors == [Undefined(name)]
    ensures Bound(s, name) && !Assignable(s, name) ==> ScanTarget(name, s).errors == [Immutable(name)]
  {
    LookupIs(s, name);
    hide Lookup, Bound, Assignable;
  }

  // ---------- when a function passes ----------

  /** A function passes exactly when its names are well used and the effects it
      declares are those of which a call occurs in its body outside every handler. */
  lemma PassesExactly(k: Known, fn: FnDecl)
    ensures Passes(k, fn) <==>
            && CleanStmts(k, fn.body, Entry(k, fn))
            && forall x :: x in fn.effects <==> OccursStmts(k, fn.body, Entry(k, fn), x)
  {
    var s := Entry(k, fn);
    hide ScanStmts, OccursStmts, CleanStmts, Entry;
    ErrorsStmts(k, fn.body, s, {}, {});
    var used := ScanStmts(k, fn.body, s, {}).used;
    forall x ensures x in used <==> OccursStmts(k, fn.body, s, x) {
      UsedStmts(k, fn.body, s, {}, x);
    }
    assert used == Set(fn.effects) <==> forall x :: x in used <==> x in fn.effects;
  }

  /** Of several declarations of one name the last is the one that is called. */
  lemma {:induction false} LastDeclaration(decls: seq<FnDecl>, k: nat)
    requires k < |decls| && forall j :: k < j < |decls| ==> decls[j].name != decls[k].name
    ensures decls[k].name in Table(decls) && Table(decls)[decls[k].name] == decls[k]
    decreases |decls|
  {
    if k < |decls| - 1 { LastDeclaration(decls[..|decls| - 1], k); }
  }

  /** A pattern brings into scope the name it binds: a bare one only if it begins with a
      small letter and is no truth value. */
  lemma PatternBinds(p: Pattern, n: string)
    ensures n in PatternNames(p) <==>
            || (p == Pattern.Bind(n) && n != "" && 'a' <= n[0] <= 'z' && n != "true" && n != "false")
            || (p.Variant? && p.binding == Some(n))
  {
  }
}
