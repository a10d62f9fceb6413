/** The soundness induction, one lemma per construct, and the theorem for whole
    programs. */
module EffectTheorem {
  import opened Options
  import opened EffectStack
  import opened Evaluation
  import opened Checking
  import opened EffectSoundness

  lemma {:induction false} SoundEval(c: Ctx, k: Known, fuel: nat, e: Expr, h: set<string>, st: St)
    requires At(c, k, h, st) && Ok(c, k, e, h, st)
    ensures Safe(k, Eval(c, fuel, e, st))
    decreases fuel, 0, 1
  {
    hide Setup, Good, Fits, Names, EvalName, EvalInfix, EvalPrefix, EvalTry, EvalIndex, EvalAssign, EvalIf, EvalScoped,
      EvalMatch, EvalCall, EvalField, EvalList, EvalObject, EvalWrap, EvalHandle, EvalForIn, EvalWhile, ScanStmts,
      ScanArms, ScanArgs, ScanCallee, ScanAll, FirstOrderStmts, FirstOrderArm, DirectCallee, Join, Kept, Clean;
    if fuel > 0 {
      if e.If? || e.Block? || e.Match? || e.Handle? || e.ForIn? || e.While? {
        SoundControl(c, k, fuel, e, h, st);
        return;
      }
      match e
      case Name(x) => NameFlat(c, k, st, x);
      case Infix(op, left, right) => SoundInfix(c, k, fuel - 1, op, left, right, h, st);
      case Prefix(sign, operand) =>
        OperandFits(c, k, e, operand, h, st);
        SoundPrefix(c, k, fuel - 1, sign, operand, h, st);
      case Index(owner, index) => SoundIndex(c, k, fuel - 1, owner, index, h, st);
      case Try(operand) =>
        OperandFits(c, k, e, operand, h, st);
        SoundTry(c, k, fuel - 1, operand, h, st);
      case Assign(target, how, value) =>
        OperandFits(c, k, e, value, h, st);
        SoundAssign(c, k, fuel - 1, target, how, value, h, st);
      case Call(callee, args) => SoundCall(c, k, fuel - 1, callee, args, h, st);
      case Field(owner, field) =>
        OperandFits(c, k, e, owner, h, st);
        SoundField(c, k, fuel - 1, owner, field, h, st);
      case List(elems) => SoundList(c, k, fuel - 1, elems, h, st);
      case Object(tname, fields) => SoundObject(c, k, fuel - 1, tname, fields, h, st);
      case Wrap(tname, variant, payload) =>
        OperandFits(c, k, e, payload, h, st);
        SoundWrap(c, k, fuel - 1, tname, variant, payload, h, st);
      case _ =>
    }
  }

  /** The forms with a body of their own. */
  lemma {:induction false} SoundControl(c: Ctx, k: Known, fuel: nat, e: Expr, h: set<string>, st: St)
    requires At(c, k, h, st) && Ok(c, k, e, h, st) && fuel > 0
    requires e.If? || e.Block? || e.Match? || e.Handle? || e.ForIn? || e.While?
    ensures Safe(k, Eval(c, fuel, e, st))
    decreases fuel, 0, 0
  {
    hide Setup, Good, Fits, Names, EvalIf, EvalScoped, EvalMatch, EvalHandle, EvalForIn, EvalWhile, ScanStmts,
      ScanArms, FirstOrderStmts, FirstOrderArm, Join, Kept, Clean, Ok;
    match e
    case If(cond, consequence, alternative) => SoundIf(c, k, fuel - 1, cond, consequence, alternative, h, st);
    case Block(stmts) =>
      BlockFits(c, k, stmts, h, st);
      SoundScoped(c, k, fuel - 1, stmts, map[], h, st);
    case Match(subject, arms) => SoundMatch(c, k, fuel - 1, subject, arms, h, st);
    case Handle(effect, handler, body) => SoundHandle(c, k, fuel - 1, effect, handler, body, h, st);
    case ForIn(variable, iterable, body) => SoundForIn(c, k, fuel - 1, variable, iterable, body, h, st);
    case While(cond, body) =>
      NilFlat();
      SoundWhile(c, k, fuel - 1, cond, body, VNil, h, st);
  }

  lemma {:induction false} SoundInfix(c: Ctx, k: Known, fuel: nat, op: Op, left: Expr, right: Expr, h: set<string>,
      st: St)
    requires At(c, k, h, st) && Ok(c, k, Infix(op, left, right), h, st)
    ensures Safe(k, EvalInfix(c, fuel, op, left, right, st))
    decreases fuel, 4, 0
  {
    hide Eval, EvalRight, Ok, Setup, Good, Names, Grown, Flat, Scan, FirstOrder, Fits, Join;
    InfixFits(c, k, op, left, right, h, st);
    SoundEval(c, k, fuel, left, h, st);
    var l := Eval(c, fuel, left, st);
    if l.Done? {
      OkSame(c, k, right, h, st, l.st);
      SoundRight(c, k, fuel, op, l.value, right, h, l.st);
    }
  }

  lemma {:induction false} SoundRight(c: Ctx, k: Known, fuel: nat, op: Op, l: Value, right: Expr, h: set<string>,
      st: St)
    requires At(c, k, h, st) && Ok(c, k, right, h, st) && Flat(l)
    ensures Safe(k, EvalRight(c, fuel, op, l, right, st))
    decreases fuel, 3, 0
  {
    hide Eval, Ok, Setup, Good, Names, Kept, IsMissing;
    SoundEval(c, k, fuel, right, h, st);
  }

  /** Only the handlers of a state matter for what an expression may use. */
  lemma OkSame(c: Ctx, k: Known, e: Expr, h: set<string>, st: St, st': St)
    requires Ok(c, k, e, h, st) && st.handlers == st'.handlers
    ensures Ok(c, k, e, h, st')
  {
  }

  lemma OkStmtsSame(c: Ctx, k: Known, stmts: seq<Stmt>, h: set<string>, st: St, st': St)
    requires OkStmts(c, k, stmts, h, st) && st.handlers == st'.handlers
    ensures OkStmts(c, k, stmts, h, st')
  {
  }

  lemma {:induction false} SoundTry(c: Ctx, k: Known, fuel: nat, operand: Expr, h: set<string>, st: St)
    requires At(c, k, h, st) && Ok(c, k, operand, h, st)
    ensures Safe(k, EvalTry(c, fuel, operand, st))
    decreases fuel, 4, 0
  {
    hide Eval, Ok, Setup, Good, Names, Grown;
    SoundEval(c, k, fuel, operand, h, st);
  }

  lemma {:induction false} SoundPrefix(c: Ctx, k: Known, fuel: nat, sign: PrefixOp, operand: Expr, h: set<string>,
      st: St)
    requires At(c, k, h, st) && Ok(c, k, operand, h, st)
    ensures Safe(k, EvalPrefix(c, fuel, sign, operand, st))
    decreases fuel, 4, 0
  {
    hide Eval, Ok, Setup, Good, Names, Kept;
    SoundEval(c, k, fuel, operand, h, st);
  }

  lemma {:induction false} SoundIndex(c: Ctx, k: Known, fuel: nat, owner: Expr, index: Expr, h: set<string>, st: St)
    requires At(c, k, h, st) && Ok(c, k, Index(owner, index), h, st)
    ensures Safe(k, EvalIndex(c, fuel, owner, index, st))
    decreases fuel, 4, 0
  {
    hide Eval, Ok, Setup, Good, Names, Grown, Flat, Indexed;
    IndexFits(c, k, owner, index, h, st);
    SoundEval(c, k, fuel, owner, h, st);
    var r := Eval(c, fuel, owner, st);
    if r.Done? {
      OkSame(c, k, index, h, st, r.st);
      SoundEval(c, k, fuel, index, h, r.st);
      var i := Eval(c, fuel, index, r.st);
      if i.Done? { IndexedFlat(r.value, i.value); }
    }
  }

  lemma {:induction false} SoundAssign(c: Ctx, k: Known, fuel: nat, target: string, how: AssignOp, value: Expr,
      h: set<string>, st: St)
    requires At(c, k, h, st) && Ok(c, k, value, h, st) && target !in k.fns && target != WITH_CAPABILITY
    ensures Safe(k, EvalAssign(c, fuel, target, how, value, st))
    decreases fuel, 4, 0
  {
    hide Eval, Ok, Setup, Names, Grown, GoodFrames, Assigned, Flat;
    SoundEval(c, k, fuel, value, h, st);
    var r := Eval(c, fuel, value, st);
    if r.Done? { AssignedGood(k, r.st.frames, r.st.env, target, how, r.value); }
  }

  lemma {:induction false} SoundIf(c: Ctx, k: Known, fuel: nat, cond: Expr, consequence: seq<Stmt>, alternative: Else,
      h: set<string>, st: St)
    requires At(c, k, h, st) && Ok(c, k, If(cond, consequence, alternative), h, st)
    ensures Safe(k, EvalIf(c, fuel, cond, consequence, alternative, st))
    decreases fuel, 4, 0
  {
    hide Clean, CleanStmts;
    hide Eval, EvalScoped, Ok, OkStmts, Setup, Good, Names, Grown, Flat, Scan, FirstOrder, Fits, Join, ScanStmts,
      FirstOrderStmts;
    NilFlat();
    IfFits(c, k, cond, consequence, alternative, h, st);
    SoundEval(c, k, fuel, cond, h, st);
    var r := Eval(c, fuel, cond, st);
    if r.Done? {
      OkStmtsSame(c, k, consequence, h, st, r.st);
      if Truthy(r.value) {
        SoundScoped(c, k, fuel, consequence, map[], h, r.st);
      } else if alternative.Else? {
        OkStmtsSame(c, k, alternative.stmts, h, st, r.st);
        SoundScoped(c, k, fuel, alternative.stmts, map[], h, r.st);
      }
    }
  }

  lemma {:induction false} SoundStmts(c: Ctx, k: Known, fuel: nat, stmts: seq<Stmt>, last: Value, h: set<string>,
      st: St)
    requires At(c, k, h, st) && OkStmts(c, k, stmts, h, st) && Flat(last)
    ensures Safe(k, EvalStmts(c, fuel, stmts, last, st))
    decreases fuel, 2, |stmts|
  {
    hide Clean, CleanStmts;
    if |stmts| > 0 {
      StmtsFit(c, k, stmts, h, st);
      hide EvalStmt, OkStmts, Setup, Good, Names, Grown, Flat, ScanStmts, ScanStmt, Fits, FirstOrderStmts,
        FirstOrderStmt, Join, CleanStmt, CleanStmts;
      SoundStmt(c, k, fuel, stmts[0], h, st);
      var r := EvalStmt(c, fuel, stmts[0], st);
      if r.Done? && !IsSignal(r.value) {
        OkStmtsSame(c, k, stmts[1..], h, st, r.st);
        SoundStmts(c, k, fuel, stmts[1..], r.value, h, r.st);
      }
    }
  }

  lemma {:induction false} SoundStmt(c: Ctx, k: Known, fuel: nat, s: Stmt, h: set<string>, st: St)
    requires At(c, k, h, st) && FirstOrderStmt(c, k, s) && CleanStmt(k, s, h, Names(st.handlers))
    ensures Safe(k, EvalStmt(c, fuel, s, st))
    decreases fuel, 1, 0
  {
    if s.Let? || s.Return? || s.Do? { StmtFits(c, k, s, h, st); }
    hide Ok, CleanStmt, Eval, Setup, Names, Grown, GoodFrames, SetVar, Scan, FirstOrder, Fits;
    if s.Let? || s.Return? || s.Do? {
      SoundEval(c, k, fuel, s.value, h, st);
      var r := Eval(c, fuel, s.value, st);
      if s.Let? && r.Done? { SetGood(k, r.st.frames, r.st.env, s.name, r.value); }
    }
  }

  lemma {:induction false} SoundScoped(c: Ctx, k: Known, fuel: nat, stmts: seq<Stmt>, vars: map<string, Value>,
      h: set<string>, st: St)
    requires At(c, k, h, st) && OkStmts(c, k, stmts, h, st) && LocalVars(k, vars)
    ensures Safe(k, EvalScoped(c, fuel, stmts, vars, st))
    decreases fuel, 3, 0
  {
    hide Clean, CleanStmts;
    hide EvalStmts, OkStmts, Setup, Names, GoodFrames, LocalVars, Flat;
    EncloseGood(k, st, vars);
    OkStmtsSame(c, k, stmts, h, st, Enclose(st, vars));
    assert Flat(VNil) by { NilFlat(); }
    SoundStmts(c, k, fuel, stmts, VNil, h, Enclose(st, vars));
  }

  lemma NilFlat()
    ensures Flat(VNil)
  {
  }

  lemma {:induction false} SoundMatch(c: Ctx, k: Known, fuel: nat, subject: Expr, arms: seq<Arm>, h: set<string>,
      st: St)
    requires At(c, k, h, st) && Ok(c, k, Match(subject, arms), h, st)
    ensures Safe(k, EvalMatch(c, fuel, subject, arms, st))
    decreases fuel, 4, 0
  {
    hide Eval, EvalArms, Ok, Setup, Good, Names, Grown, Flat, Scan, ScanArms, FirstOrder, FirstOrderArm, Fits, Join;
    var s := MatchFits(c, k, subject, arms, h, st);
    SoundEval(c, k, fuel, subject, h, st);
    var r := Eval(c, fuel, subject, st);
    if r.Done? { SoundArms(c, k, fuel, r.value, arms, s, h, r.st); }
  }

  lemma MatchFits(c: Ctx, k: Known, subject: Expr, arms: seq<Arm>, h: set<string>, st: St) returns (s: Scope)
    requires Ok(c, k, Match(subject, arms), h, st)
    ensures Ok(c, k, subject, h, st) && Fits(ScanArms(k, arms, s, h), Names(st.handlers))
    ensures forall i :: 0 <= i < |arms| ==> FirstOrderArm(c, k, arms[i])
  {
    s :| Fits(Scan(k, Match(subject, arms), s, h), Names(st.handlers));
    JoinFits(Scan(k, subject, s, h), ScanArms(k, arms, s, h), Names(st.handlers));
  }

  lemma {:induction false} SoundArms(c: Ctx, k: Known, fuel: nat, subject: Value, arms: seq<Arm>, s: Scope,
      h: set<string>, st: St)
    requires At(c, k, h, st) && Flat(subject)
    requires forall i :: 0 <= i < |arms| ==> FirstOrderArm(c, k, arms[i])
    requires Fits(ScanArms(k, arms, s, h), Names(st.handlers))
    ensures Safe(k, EvalArms(c, fuel, subject, arms, st))
    decreases fuel, 3, |arms|
  {
    hide Ok, EvalGuard, EvalInScope, MatchPattern, BoundNames, Setup, Good, Names, Grown, Flat, Scan, ScanArms, ScanArm,
      FirstOrder, FirstOrderArm, Fits, Join, LocalVars;
    NilFlat();
    if |arms| > 0 {
      var arm := arms[0];
      ArmsFit(c, k, arms, s, h, st);
      MatchFlat(k, subject, arm.pattern);
      match MatchPattern(subject, arm.pattern)
      case None => SoundArms(c, k, fuel, subject, arms[1..], s, h, st);
      case Some(vars) =>
        SoundGuard(c, k, fuel, arm.guard, vars, h, st);
        var r := EvalGuard(c, fuel, arm.guard, vars, st);
        if r.Done? {
          OkSame(c, k, arm.body, h, st, r.st);
          if r.value {
            SoundInScope(c, k, fuel, arm.body, vars, h, r.st);
          } else {
            SoundArms(c, k, fuel, subject, arms[1..], s, h, r.st);
          }
        }
    }
  }

  lemma {:induction false} SoundInScope(c: Ctx, k: Known, fuel: nat, e: Expr, vars: map<string, Value>,
      h: set<string>, st: St)
    requires At(c, k, h, st) && Ok(c, k, e, h, st) && LocalVars(k, vars)
    ensures Safe(k, EvalInScope(c, fuel, e, vars, st))
    decreases fuel, 1, 0
  {
    hide Eval, Ok, Setup, Names, GoodFrames, LocalVars, Flat;
    EncloseGood(k, st, vars);
    OkSame(c, k, e, h, st, Enclose(st, vars));
    SoundEval(c, k, fuel, e, h, Enclose(st, vars));
  }

  lemma {:induction false} SoundGuard(c: Ctx, k: Known, fuel: nat, guard: Option<Expr>, vars: map<string, Value>,
      h: set<string>, st: St)
    requires At(c, k, h, st) && (guard.Some? ==> Ok(c, k, guard.value, h, st)) && LocalVars(k, vars)
    ensures var r := EvalGuard(c, fuel, guard, vars, st); NoMissingHandler(r) && (r.Done? ==> Good(k, r.st))
    decreases fuel, 2, 0
  {
    hide EvalInScope, Ok, Setup, Good, Names, Grown, LocalVars, Flat;
    if guard.Some? { SoundInScope(c, k, fuel, guard.value, vars, h, st); }
  }

  lemma {:induction false} SoundAll(c: Ctx, k: Known, fuel: nat, es: seq<Expr>, h: set<string>, st: St)
    requires At(c, k, h, st) && OkAll(c, k, es, h, st)
    ensures SafeAll(k, EvalAll(c, fuel, es, st))
    decreases fuel, 2, |es|
  {
    if |es| > 0 {
      hide Eval, Ok, Setup, Good, Names, Grown, Flat;
      SoundEval(c, k, fuel, es[0], h, st);
      var r := Eval(c, fuel, es[0], st);
      if r.Done? {
        forall i | 0 <= i < |es[1..]| ensures Ok(c, k, es[1..][i], h, r.st) { OkSame(c, k, es[i + 1], h, st, r.st); }
        SoundAll(c, k, fuel, es[1..], h, r.st);
      }
    }
  }

  lemma {:induction false} SoundList(c: Ctx, k: Known, fuel: nat, elems: seq<Expr>, h: set<string>, st: St)
    requires At(c, k, h, st) && Ok(c, k, List(elems), h, st)
    ensures Safe(k, EvalList(c, fuel, elems, st))
    decreases fuel, 4, 0
  {
    var s :| Fits(Scan(k, List(elems), s, h), Names(st.handlers));
    AllFit(c, k, elems, s, h, st);
    hide Ok, OkAll, EvalAll, Setup, Good, Names, Kept, Scan, FirstOrder, Fits;
    SoundAll(c, k, fuel, elems, h, st);
  }

  lemma {:induction false} SoundObject(c: Ctx, k: Known, fuel: nat, tname: string, fields: seq<Arg>, h: set<string>,
      st: St)
    requires At(c, k, h, st) && Ok(c, k, Object(tname, fields), h, st)
    ensures Safe(k, EvalObject(c, fuel, tname, fields, st))
    decreases fuel, 4, 0
  {
    var s :| Fits(Scan(k, Object(tname, fields), s, h), Names(st.handlers));
    ArgsFit(c, k, fields, s, h, st);
    hide Ok, OkAll, EvalAll, Setup, Good, Names, Kept, Scan, FirstOrder, Fits, FieldMap;
    SoundAll(c, k, fuel, ArgValues(fields), h, st);
  }

  lemma {:induction false} SoundWrap(c: Ctx, k: Known, fuel: nat, tname: string, variant: string, payload: Expr,
      h: set<string>, st: St)
    requires At(c, k, h, st) && Ok(c, k, payload, h, st)
    ensures Safe(k, EvalWrap(c, fuel, tname, variant, payload, st))
    decreases fuel, 4, 0
  {
    hide Eval, Ok, Setup, Good, Names, Kept;
    SoundEval(c, k, fuel, payload, h, st);
  }

  lemma {:induction false} SoundField(c: Ctx, k: Known, fuel: nat, owner: Expr, field: string, h: set<string>, st: St)
    requires At(c, k, h, st) && Ok(c, k, owner, h, st)
    ensures Safe(k, EvalField(c, fuel, owner, field, st))
    decreases fuel, 4, 0
  {
    hide Eval, Ok, Setup, Good, Names, Kept, FieldOf;
    SoundEval(c, k, fuel, owner, h, st);
    var r := Eval(c, fuel, owner, st);
    if r.Done? { FieldFlat(r.value, field); }
  }

  // ---------- calls ----------

  lemma {:induction false} SoundCall(c: Ctx, k: Known, fuel: nat, callee: Expr, args: seq<Arg>, h: set<string>, st: St)
    requires At(c, k, h, st) && Ok(c, k, Call(callee, args), h, st)
    ensures Safe(k, EvalCall(c, fuel, callee, args, st))
    decreases fuel, 6, 0
  {
    var s := CallFits(c, k, callee, args, h, st);
    hide Ok, OkAll, Eval, EvalAll, Invoke, EvalTool, Setup, Good, Names, Grown, Flat, ScanCallee, DirectCallee, Fits,
      Covered;
    SoundCallee(c, k, fuel, callee, s, h, st);
    var f := Eval(c, fuel, callee, st);
    if f.Done? && !f.value.VReturn? {
      forall i | 0 <= i < |ArgValues(args)| ensures Ok(c, k, ArgValues(args)[i], h, f.st) {
        OkAllAt(c, k, ArgValues(args), h, st, i);
        OkSame(c, k, ArgValues(args)[i], h, st, f.st);
      }
      OkAllOf(c, k, ArgValues(args), h, f.st);
      SoundAll(c, k, fuel, ArgValues(args), h, f.st);
      var vs := EvalAll(c, fuel, ArgValues(args), f.st);
      if vs.Done? {
        OkAllSame(c, k, ArgValues(args), h, f.st, vs.st);
        SoundInvoke(c, k, fuel, f.value, args, vs.value, h, vs.st);
      }
    }
  }

  lemma OkAllAt(c: Ctx, k: Known, es: seq<Expr>, h: set<string>, st: St, i: nat)
    requires OkAll(c, k, es, h, st) && i < |es|
    ensures Ok(c, k, es[i], h, st)
  {
  }

  lemma OkAllOf(c: Ctx, k: Known, es: seq<Expr>, h: set<string>, st: St)
    requires forall i :: 0 <= i < |es| ==> Ok(c, k, es[i], h, st)
    ensures OkAll(c, k, es, h, st)
  {
  }

  lemma OkAllSame(c: Ctx, k: Known, es: seq<Expr>, h: set<string>, st: St, st': St)
    requires OkAll(c, k, es, h, st) && st.handlers == st'.handlers
    ensures OkAll(c, k, es, h, st')
  {
    hide Ok;
    forall i | 0 <= i < |es| ensures Ok(c, k, es[i], h, st') { OkSame(c, k, es[i], h, st, st'); }
  }

  /** What a direct callee may be: a first-order value, or a function of the
      program all of whose effects have handlers. */
  ghost predicate Covered(k: Known, v: Value, st: St) {
    || Flat(v)
    || exists f :: f in k.fns && v == VFn(k.fns[f].params, k.fns[f].body, 0)
                   && Set(k.fns[f].effects) <= Names(st.handlers)
  }

  lemma {:induction false} SoundCallee(c: Ctx, k: Known, fuel: nat, callee: Expr, s: Scope, h: set<string>,
      st: St)
    requires At(c, k, h, st) && DirectCallee(c, k, callee) && Fits(ScanCallee(k, callee, s, h), Names(st.handlers))
    ensures var r := Eval(c, fuel, callee, st);
            && NoMissingHandler(r)
            && (r.Done? ==> Good(k, r.st) && Covered(k, r.value, r.st) && (r.value.VReturn? ==> Flat(r.value)))
    decreases fuel, 1, 0
  {
    if fuel > 0 {
      match callee
      case Name(f) =>
        if f in k.fns {
          CalleeFunction(c, k, f, s, h, st);
        } else {
          NameFlat(c, k, st, f);
        }
        hide Setup, Good, Names, Flat, EvalName, Fits;
      case Field(owner, field) =>
        if owner.Name? && owner.name in k.effects {
          CalleeMethod(c, k, fuel - 1, owner.name, field, s, h, st);
        } else {
          JoinFits(Scan(k, owner, s, h), NOTHING, Names(st.handlers));
          assert Ok(c, k, owner, h, st);
          hide Ok, Setup, Good, Names, Flat, EvalField, Fits, Scan, FirstOrder, Kept;
          SoundField(c, k, fuel - 1, owner, field, h, st);
        }
    }
  }

  lemma CalleeFunction(c: Ctx, k: Known, f: string, s: Scope, h: set<string>, st: St)
    requires At(c, k, h, st) && f in k.fns && f !in c.effects && Fits(ScanCallee(k, Name(f), s, h), Names(st.handlers))
    ensures Covered(k, EvalName(c, f, st), st) && EvalName(c, f, st).VFn?
  {
    hide GoodFrames, Get, Passes, FirstOrderFn, Flat;
    GetFunction(k, st.frames, st.env, f);
    assert Set(k.fns[f].effects) <= Names(st.handlers) by {
      forall x | x in Set(k.fns[f].effects) ensures x in Names(st.handlers) {
        if x !in h { assert x in Set(k.fns[f].effects) - h; }
      }
    }
  }

  /** A namespace method finds its handler, because the effect was recorded. */
  lemma CalleeMethod(c: Ctx, k: Known, fuel: nat, ns: string, field: string, s: Scope, h: set<string>, st: St)
    requires At(c, k, h, st) && ns in k.effects
    requires Fits(ScanCallee(k, Field(Name(ns), field), s, h), Names(st.handlers))
    ensures Safe(k, EvalField(c, fuel, Name(ns), field, st))
  {
    JoinFits(NOTHING, Report({ns} - h, []), Names(st.handlers));
    assert ns in Names(st.handlers) by {
      if ns !in h { assert ns in {ns} - h; }
    }
    TopDownFlat(st.handlers, ns);
    hide Names, GoodFrames, FieldOf, Fits, Passes, FirstOrderFn;
    var r := TopDown(st.handlers, ns);
    FieldFlat(r.value, field);
  }

  lemma {:induction false} SoundInvoke(c: Ctx, k: Known, fuel: nat, f: Value, args: seq<Arg>, vs: seq<Value>,
      h: set<string>, st: St)
    requires At(c, k, h, st) && Covered(k, f, st) && OkAll(c, k, ArgValues(args), h, st)
    ensures Safe(k, Invoke(c, fuel, f, args, vs, st))
    decreases fuel, 5, 0
  {
    hide OkAll, Names, GoodFrames, CallFunction, WithCapability, Passes, FirstOrderFn;
    if f.VFn? {
      var n :| n in k.fns && f == VFn(k.fns[n].params, k.fns[n].body, 0) && Set(k.fns[n].effects) <= Names(st.handlers);
      hide Setup, Flat, Good, Covered;
      SoundFunction(c, k, fuel, n, args, h, st);
    }
  }

  /** Calling any function of the program under handlers for its declared
      effects is safe. */
  lemma {:induction false} SoundFunction(c: Ctx, k: Known, fuel: nat, n: string, args: seq<Arg>, h: set<string>, st: St)
    requires At(c, k, h, st) && n in k.fns && Set(k.fns[n].effects) <= Names(st.handlers)
             && OkAll(c, k, ArgValues(args), h, st)
    ensures Safe(k, CallFunction(c, fuel, k.fns[n].params, k.fns[n].body, 0, args, st))
    decreases fuel, 4, 0
  {
    hide Setup, Passes, Scan, FirstOrder, ScanStmts, FirstOrderStmts, OkAll, BindParams, EvalStmts, ParamOk, Flat,
      Names, Clean, CleanStmts;
    var fn := k.fns[n];
    var st0 := st.(frames := st.frames + [Frame(map[], 0)]);
    FunctionOk(c, k, n);
    assert Good(k, st0) by {
      assert LocalVars(k, map[]);
      hide LocalVars, GoodFrames;
      ExtendGood(k, st.frames, map[], 0);
    }
    hide GoodFrames;
    OkAllSame(c, k, ArgValues(args), h, st, st0);
    SoundBindParams(c, k, fuel, fn.params, 0, args, |st.frames|, h, st0);
    var b := BindParams(c, fuel, fn.params, 0, args, |st.frames|, st0);
    if b.Done? {
      NilFlat();
      var st1 := b.st.(env := |st.frames|);
      assert Good(k, st1);
      BodyFits(c, k, fn, st1);
      SoundStmts(c, k, fuel, fn.body, VNil, {}, st1);
      ReturnFlat(EvalStmts(c, fuel, fn.body, VNil, st1));
    }
  }

  lemma FunctionOk(c: Ctx, k: Known, n: string)
    requires Setup(c, k) && n in k.fns
    ensures Passes(k, k.fns[n]) && FirstOrderFn(c, k, k.fns[n])
  {
    hide Passes, FirstOrderFn, Flat;
  }

  lemma ReturnFlat(r: Out<Value>)
    ensures r.Done? && r.value.VReturn? && Flat(r.value) ==> Flat(r.value.value)
  {
  }

  lemma {:induction false} SoundBindParams(c: Ctx, k: Known, fuel: nat, params: seq<Param>, argIdx: nat,
      args: seq<Arg>, callee: nat,
      h: set<string>, st: St)
    requires At(c, k, h, st) && OkAll(c, k, ArgValues(args), h, st)
             && forall i :: 0 <= i < |params| ==> ParamOk(c, k, params[i])
    ensures var r := BindParams(c, fuel, params, argIdx, args, callee, st);
            NoMissingHandler(r) && (r.Done? ==> Good(k, r.st))
    decreases fuel, 3, |params|
  {
    hide Setup, Scan, FirstOrder, Grown, OkAll, BindParam, Flat, Names, GoodFrames, SetVar, Fits;
    if |params| > 0 {
      if params[0].name == "self" {
        SoundBindParams(c, k, fuel, params[1..], argIdx, args, callee, h, st);
      } else {
        SoundBindParam(c, k, fuel, params[0], argIdx, args, h, st);
        var r := BindParam(c, fuel, params[0], argIdx, args, st);
        if r.Done? {
          SetGood(k, r.st.frames, callee, params[0].name, r.value);
          var st1 := r.st.(frames := SetVar(r.st.frames, callee, params[0].name, r.value));
          OkAllSame(c, k, ArgValues(args), h, st, st1);
          SoundBindParams(c, k, fuel, params[1..], argIdx + 1, args, callee, h, st1);
        }
      }
    }
  }

  lemma {:induction false} SoundBindParam(c: Ctx, k: Known, fuel: nat, param: Param, argIdx: nat, args: seq<Arg>,
      h: set<string>, st: St)
    requires At(c, k, h, st) && OkAll(c, k, ArgValues(args), h, st) && ParamOk(c, k, param)
    ensures Safe(k, BindParam(c, fuel, param, argIdx, args, st))
    decreases fuel, 2, 0
  {
    var named, positional := FindArg(args, param.name), Positional(args, argIdx);
    if named.Some? {
      var i :| 0 <= i < |args| && named == Some(args[i].value);
      assert Ok(c, k, ArgValues(args)[i], h, st);
    }
    if positional.Some? { assert Ok(c, k, ArgValues(args)[argIdx], h, st); }
    if param.default.Some? { assert Ok(c, k, param.default.value, {}, st); }
    hide Ok, OkAll, ArgValues, FindArg, Positional, EvalIfNil, Setup, Good, Names, Grown, Flat, Fits, Scan,
      FirstOrder, ParamOk;
    assert Flat(VNil) by { NilFlat(); }
    SoundIfNil(c, k, fuel, VNil, named, h, st);
    var r := EvalIfNil(c, fuel, VNil, named, st);
    if r.Done? {
      if positional.Some? { OkSame(c, k, positional.value, h, st, r.st); }
      SoundIfNil(c, k, fuel, r.value, positional, h, r.st);
      var q := EvalIfNil(c, fuel, r.value, positional, r.st);
      if q.Done? {
        if param.default.Some? { OkSame(c, k, param.default.value, {}, st, q.st); }
        SoundIfNil(c, k, fuel, q.value, param.default, {}, q.st);
      }
    }
  }

  lemma {:induction false} SoundIfNil(c: Ctx, k: Known, fuel: nat, v: Value, e: Option<Expr>, h: set<string>, st: St)
    requires At(c, k, h, st) && Flat(v) && (e.Some? ==> Ok(c, k, e.value, h, st))
    ensures Safe(k, EvalIfNil(c, fuel, v, e, st))
    decreases fuel, 1, 0
  {
    hide Ok, Eval, Setup, Good, Names, Kept, Flat;
    if v.VNil? && e.Some? { SoundEval(c, k, fuel, e.value, h, st); }
  }

  // ---------- handlers and loops ----------

  function Pushed(st: St, effect: string, provider: Value): St {
    st.(handlers := st.handlers + [Handler(effect, provider)])
  }

  /** Under the pushed handler the body may use its effect. */
  lemma PushGood(c: Ctx, k: Known, effect: string, provider: Value, body: seq<Stmt>, h: set<string>, st: St)
    requires At(c, k, h, st) && Flat(provider)
    requires FirstOrderStmts(c, k, body) && CleanStmts(k, body, h + {effect}, Names(st.handlers))
    ensures At(c, k, h + {effect}, Pushed(st, effect, provider)) && LocalVars(k, map[])
    ensures OkStmts(c, k, body, h + {effect}, Pushed(st, effect, provider))
  {
    hide Setup, Names, FirstOrderStmts, ScanStmts, GoodFrames, Flat;
    NamesPush(st.handlers, Handler(effect, provider));
  }

  lemma {:induction false} SoundHandle(c: Ctx, k: Known, fuel: nat, effect: string, handler: Expr, body: seq<Stmt>,
      h: set<string>, st: St)
    requires At(c, k, h, st) && Ok(c, k, Handle(effect, handler, body), h, st)
    ensures Safe(k, EvalHandle(c, fuel, effect, handler, body, st))
    decreases fuel, 4, 0
  {
    HandleFits(c, k, effect, handler, body, h, st);
    hide Ok, Eval, EvalScoped, Setup, Names, Grown, Scan, ScanStmts, FirstOrder, FirstOrderStmts, Flat, GoodFrames,
      Join;
    SoundEval(c, k, fuel, handler, h, st);
    var r := Eval(c, fuel, handler, st);
    if r.Done? {
      PushGood(c, k, effect, r.value, body, h, r.st);
      hide At, OkStmts, Fits;
      SoundHandled(c, k, fuel, effect, r.value, body, h, r.st);
    }
  }

  /** The body runs under the pushed handler, which is then popped. */
  lemma {:induction false} SoundHandled(c: Ctx, k: Known, fuel: nat, effect: string, provider: Value,
      body: seq<Stmt>, h: set<string>, st: St)
    requires At(c, k, h + {effect}, Pushed(st, effect, provider)) && LocalVars(k, map[]) && Good(k, st)
    requires OkStmts(c, k, body, h + {effect}, Pushed(st, effect, provider))
    ensures var b := EvalScoped(c, fuel, body, map[], Pushed(st, effect, provider));
            && NoMissingHandler(b)
            && (b.Done? ==>
                  && Popped(b.st.handlers) == st.handlers && Flat(b.value)
                  && (b.value.VReturn? ==> Flat(b.value.value))
                  && Good(k, b.st.(handlers := Popped(b.st.handlers))))
    decreases fuel, 3, 1
  {
    hide At, OkStmts, EvalScoped, Grown, Flat, GoodFrames, LocalVars;
    SoundScoped(c, k, fuel, body, map[], h + {effect}, Pushed(st, effect, provider));
    var b := EvalScoped(c, fuel, body, map[], Pushed(st, effect, provider));
    ReturnFlat(b);
    if b.Done? {
      assert Popped(b.st.handlers) == st.handlers;
    }
  }

  lemma {:induction false} SoundForIn(c: Ctx, k: Known, fuel: nat, variable: string, iterable: Expr, body: seq<Stmt>,
      h: set<string>, st: St)
    requires At(c, k, h, st) && Ok(c, k, ForIn(variable, iterable, body), h, st)
    ensures Safe(k, EvalForIn(c, fuel, variable, iterable, body, st))
    decreases fuel, 5, 0
  {
    hide Clean, CleanStmts;
    hide Ok, OkStmts, Eval, EvalFor, Setup, Good, Names, Grown, Scan, ScanStmts, FirstOrder, FirstOrderStmts, Fits,
      Join;
    ForInFits(c, k, variable, iterable, body, h, st);
    SoundEval(c, k, fuel, iterable, h, st);
    var r := Eval(c, fuel, iterable, st);
    if r.Done? && r.value.VList? {
      OkStmtsSame(c, k, body, h, st, r.st);
      SoundFor(c, k, fuel, variable, r.value.elems, body, VNil, h, r.st);
    }
  }

  lemma LoopVarsLocal(k: Known, variable: string, v: Value)
    requires variable !in k.fns && Flat(v)
    ensures LocalVars(k, LoopVars(variable, v))
  {
    hide Flat;
  }

  lemma {:induction false} SoundFor(c: Ctx, k: Known, fuel: nat, variable: string, elems: seq<Value>,
      body: seq<Stmt>, last: Value, h: set<string>, st: St)
    requires At(c, k, h, st) && OkStmts(c, k, body, h, st) && variable !in k.fns && Flat(last)
    requires forall i :: 0 <= i < |elems| ==> Flat(elems[i])
    ensures Safe(k, EvalFor(c, fuel, variable, elems, body, last, st))
    decreases fuel, 4, |elems|
  {
    hide Clean, CleanStmts, OkStmts, EvalScoped, Setup, Good, Names, Grown, LocalVars, LoopVars, Flat;
    if |elems| > 0 {
      var vars := LoopVars(variable, elems[0]);
      LoopVarsLocal(k, variable, elems[0]);
      NilFlat();
      SoundScoped(c, k, fuel, body, vars, h, st);
      var r := EvalScoped(c, fuel, body, vars, st);
      if r.Done? && !r.value.VReturn? && !r.value.VBreak? {
        OkStmtsSame(c, k, body, h, st, r.st);
        SoundFor(c, k, fuel, variable, elems[1..], body, if r.value.VContinue? then VNil else r.value, h, r.st);
      }
    }
  }

  lemma {:induction false} SoundWhile(c: Ctx, k: Known, fuel: nat, cond: Expr, body: seq<Stmt>, last: Value,
      h: set<string>, st: St)
    requires At(c, k, h, st) && Ok(c, k, While(cond, body), h, st) && Flat(last)
    ensures Safe(k, EvalWhile(c, fuel, cond, body, last, st))
    decreases fuel, 4, 0
  {
    hide Clean, CleanStmts;
    WhileFits(c, k, cond, body, h, st);
    assert LocalVars(k, map[]) && Flat(VNil);
    hide Ok, OkStmts, Eval, EvalScoped, Setup, Good, Names, Grown, Scan, ScanStmts, FirstOrder, FirstOrderStmts,
      Fits, Join,
      LocalVars, Flat, EvalAgain;
    SoundEval(c, k, fuel, cond, h, st);
    var b := Eval(c, fuel, cond, st);
    if b.Done? && b.value == VBool(true) {
      OkSame(c, k, While(cond, body), h, st, b.st);
      OkStmtsSame(c, k, body, h, st, b.st);
      SoundAgain(c, k, fuel, cond, body, h, b.st);
    }
  }

  lemma {:induction false} SoundAgain(c: Ctx, k: Known, fuel: nat, cond: Expr, body: seq<Stmt>, h: set<string>, st: St)
    requires At(c, k, h, st) && Ok(c, k, While(cond, body), h, st) && OkStmts(c, k, body, h, st)
    ensures Safe(k, EvalAgain(c, fuel, cond, body, st))
    decreases fuel, 3, 1
  {
    hide Clean, CleanStmts;
    assert LocalVars(k, map[]) && Flat(VNil);
    hide Ok, OkStmts, EvalWhile, EvalScoped, Setup, Good, Names, Grown, Flat, LocalVars;
    SoundScoped(c, k, fuel, body, map[], h, st);
    var r := EvalScoped(c, fuel, body, map[], st);
    if r.Done? && !r.value.VReturn? && !r.value.VBreak? && fuel > 0 {
      OkSame(c, k, While(cond, body), h, st, r.st);
      SoundWhile(c, k, fuel - 1, cond, body, if r.value.VContinue? then VNil else r.value, h, r.st);
    }
  }

  // ---------- whole programs ----------

  /** The state a program starts in: its functions and the builtins in the
      global scope, the standard providers on the handler stack. */
  function Initial(k: Known, builtins: map<string, Value>, providers: seq<Handler<Value>>): St {
    St([GlobalScope(k, builtins)], 0, providers, [], 0)
  }

  function GlobalScope(k: Known, builtins: map<string, Value>): Frame {
    Frame(builtins + FunctionVars(k), 0)
  }

  function FunctionVars(k: Known): map<string, Value> {
    map n | n in k.fns :: VFn(k.fns[n].params, k.fns[n].body, 0)
  }

  /** A program that passes the checker: calling any of its functions, under
      providers for the effects it declares, never finds an effect without a
      handler, however deep the evaluation goes. */
  lemma ProgramSound(c: Ctx, decls: seq<FnDecl>, effects: set<string>, globals: map<string, bool>,
      builtins: map<string, Value>, providers: seq<Handler<Value>>, f: string, fuel: nat)
    requires forall n, vs, t :: c.prim(n, vs, t).PrimOk? ==> Flat(c.prim(n, vs, t).value)
    requires forall n :: n in builtins && n != WITH_CAPABILITY ==> Flat(builtins[n])
    requires forall p :: p in providers ==> Flat(p.provider)
    requires effects <= c.effects
    requires var k := Known(effects, Table(decls), globals);
             AllPass(k, decls) && (forall d :: d in decls ==> FirstOrderFn(c, k, d))
             && f in k.fns && Set(k.fns[f].effects) <= Names(providers)
    ensures var k := Known(effects, Table(decls), globals);
            var st := Initial(k, builtins, providers);
            NoMissingHandler(CallFunction(c, fuel, k.fns[f].params, k.fns[f].body, 0, [], st))
  {
    var k := Known(effects, Table(decls), globals);
    hide Passes, FirstOrderFn, Flat, Names, CallFunction, Table, Initial, Good;
    assert Setup(c, k);
    hide Setup;
    InitialGood(k, builtins, providers);
    assert Initial(k, builtins, providers).handlers == providers by { InitialHandlers(k, builtins, providers); }
    SoundFunction(c, k, fuel, f, [], {}, Initial(k, builtins, providers));
  }

  lemma InitialHandlers(k: Known, builtins: map<string, Value>, providers: seq<Handler<Value>>)
    ensures Initial(k, builtins, providers).handlers == providers
  {
  }

  lemma InitialGood(k: Known, builtins: map<string, Value>, providers: seq<Handler<Value>>)
    requires forall n :: n in builtins && n != WITH_CAPABILITY ==> Flat(builtins[n])
    requires forall p :: p in providers ==> Flat(p.provider)
    ensures Good(k, Initial(k, builtins, providers))
  {
    hide Flat, GlobalFrame;
    InitialFrame(k, builtins);
  }

  lemma InitialFrame(k: Known, builtins: map<string, Value>)
    requires forall n :: n in builtins && n != WITH_CAPABILITY ==> Flat(builtins[n])
    ensures GlobalFrame(k, GlobalScope(k, builtins))
  {
    hide Flat, FunctionVars, WITH_CAPABILITY;
    var fns, vars := FunctionVars(k), GlobalScope(k, builtins).vars;
    forall n | n in k.fns ensures n in vars && vars[n] == VFn(k.fns[n].params, k.fns[n].body, 0) {
      FunctionVarsAt(k, n);
      MergedAt(builtins, fns, n);
    }
    forall n | n in vars && n !in k.fns && n != WITH_CAPABILITY ensures Flat(vars[n]) {
      FunctionVarsAt(k, n);
      MergedAt(builtins, fns, n);
    }
  }

  lemma MergedAt(a: map<string, Value>, b: map<string, Value>, n: string)
    ensures n in b ==> n in a + b && (a + b)[n] == b[n]
    ensures n in a + b && n !in b ==> n in a && (a + b)[n] == a[n]
  {
  }

  lemma FunctionVarsAt(k: Known, n: string)
    ensures n in FunctionVars(k) <==> n in k.fns
    ensures n in k.fns ==> FunctionVars(k)[n] == VFn(k.fns[n].params, k.fns[n].body, 0)
  {
  }
}
