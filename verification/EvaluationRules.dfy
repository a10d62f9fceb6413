/** The rules of the language, construct by construct: what a program gives, from what
    its parts give.  The results are said in full, in the terms of the language. */
module EvaluationRules {
  import opened Options
  import opened EffectStack
  import opened Evaluation

  /** Evaluating `e` in `st` gives `v` and leaves `st1`. */
  predicate Gives(c: Ctx, fuel: nat, e: Expr, st: St, v: Value, st1: St) {
    Eval(c, fuel, e, st) == Done(v, st1)
  }

  // ---------- literals and names ----------

  lemma Literals(c: Ctx, fuel: nat, n: int, b: bool, s: string, st: St)
    requires fuel > 0
    ensures Gives(c, fuel, Num(n), st, VInt(n), st) && Gives(c, fuel, Flag(b), st, VBool(b), st)
    ensures Gives(c, fuel, Text(s), st, VStr(s), st) && Gives(c, fuel, Nil, st, VNil, st)
  {
  }

  /** `k` is the nearest scope outwards from `i` that holds `name`. */
  predicate NearestAt(frames: seq<Frame>, i: nat, name: string, k: nat)
    decreases i
  {
    i < |frames| && if name in frames[i].vars then k == i
                    else frames[i].outer < i && NearestAt(frames, frames[i].outer, name, k)
  }

  lemma {:induction false} NearestIs(frames: seq<Frame>, i: nat, name: string, k: nat)
    requires NearestAt(frames, i, name, k)
    ensures k < |frames| && name in frames[k].vars && Get(frames, i, name) == Some(frames[k].vars[name])
    decreases i
  {
    if name !in frames[i].vars { NearestIs(frames, frames[i].outer, name, k); }
  }

  lemma {:induction false} NearestExists(frames: seq<Frame>, i: nat, name: string)
    requires Get(frames, i, name).Some?
    ensures exists k: nat :: NearestAt(frames, i, name, k)
    decreases i
  {
    if name in frames[i].vars {
      assert NearestAt(frames, i, name, i);
    } else {
      NearestExists(frames, frames[i].outer, name);
      var k: nat :| NearestAt(frames, frames[i].outer, name, k);
      assert NearestAt(frames, i, name, k);
    }
  }

  /** A name is an effect, or its nearest binding, or nil. */
  lemma NameValue(c: Ctx, fuel: nat, name: string, st: St, v: Value)
    requires fuel > 0
    ensures Gives(c, fuel, Name(name), st, v, st) <==>
            if name in c.effects then v == VNamespace(name)
            else (exists k: nat :: NearestAt(st.frames, st.env, name, k) && k < |st.frames| && name in st.frames[k].vars
                              && v == st.frames[k].vars[name])
                 || ((forall k: nat :: !NearestAt(st.frames, st.env, name, k)) && v == VNil)
  {
    if Get(st.frames, st.env, name).Some? { NearestExists(st.frames, st.env, name); }
    forall k: nat | NearestAt(st.frames, st.env, name, k)
      ensures k < |st.frames| && name in st.frames[k].vars
      ensures Get(st.frames, st.env, name) == Some(st.frames[k].vars[name])
    {
      NearestIs(st.frames, st.env, name, k);
    }
  }

  // ---------- numbers ----------

  predicate InRange(n: int) {
    -0x8000_0000_0000_0000 <= n < 0x8000_0000_0000_0000
  }

  ghost predicate Congruent(a: int, b: int) {
    exists t: int :: a == b + t * 0x1_0000_0000_0000_0000
  }

  /** `q` and `r` are what dividing towards zero gives. */
  predicate Divides(x: int, y: int, q: int, r: int) {
    x == q * y + r && (if y < 0 then y < r < -y else -y < r < y) && (r == 0 || (r < 0 <==> x < 0))
  }

  /** What an operator gives for two integers. */
  ghost predicate IntegerResult(op: Op, x: int, y: int, v: Value) {
    match op
    case Plus => v.VInt? && InRange(v.n) && Congruent(v.n, x + y)
    case Minus => v.VInt? && InRange(v.n) && Congruent(v.n, x - y)
    case Times => v.VInt? && InRange(v.n) && Congruent(v.n, x * y)
    case Divide =>
      if y == 0 then v == VEnum("Result", "Err", VStr("div_by_zero"))
      else v.VInt? && InRange(v.n) && exists q, r :: Divides(x, y, q, r) && Congruent(v.n, q)
    case Modulo =>
      if y == 0 then v == VEnum("Result", "Err", VStr("div_by_zero"))
      else v.VInt? && exists q, r :: Divides(x, y, q, r) && v.n == r
    case Less => v == VBool(x < y)
    case Greater => v == VBool(y < x)
    case LessEqual => v == VBool(!(y < x))
    case GreaterEqual => v == VBool(!(x < y))
    case Equal => v == VBool(x == y)
    case NotEqual => v == VBool(x != y)
    case _ => false
  }

  predicate IsArithmetic(op: Op) {
    !op.And? && !op.Or? && !op.Coalesce?
  }

  lemma WrapIs(n: int)
    ensures InRange(Wrap64(n)) && Congruent(Wrap64(n), n)
  {
    var t := (n + 0x8000_0000_0000_0000) / 0x1_0000_0000_0000_0000;
    assert Wrap64(n) == n + (-t) * 0x1_0000_0000_0000_0000;
  }

  lemma QuotientIs(x: int, y: int)
    requires y != 0
    ensures Divides(x, y, Quotient(x, y), x - y * Quotient(x, y))
  {
    hide Divides, Quotient, Abs;
    var q, r := QuotientParts(x, y);
    SignedQuotient(x, y, q, r);
  }

  lemma QuotientParts(x: int, y: int) returns (q: int, r: int)
    requires y != 0
    ensures Abs(x) == Abs(y) * q + r && 0 <= r < Abs(y)
    ensures Quotient(x, y) == if (x < 0) == (y < 0) then q else -q
  {
    var a, b := Abs(x), Abs(y);
    hide Abs;
    assert b != 0 by { AbsPositive(y); }
    q, r := a / b, a % b;
  }

  lemma AbsPositive(y: int)
    requires y != 0
    ensures Abs(y) > 0
  {
  }

  lemma SignedQuotient(x: int, y: int, q: int, r: int)
    requires y != 0 && Abs(x) == Abs(y) * q + r && 0 <= r < Abs(y)
    ensures var t := if (x < 0) == (y < 0) then q else -q; Divides(x, y, t, x - y * t)
  {
    assert (-y) * q == -(y * q) && y * (-q) == -(y * q);
  }

  /** There is only one integer result, so the rule says which. */
  lemma QuotientUnique(x: int, y: int, q: int, r: int, q': int, r': int)
    requires y != 0 && Divides(x, y, q, r) && Divides(x, y, q', r')
    ensures q == q' && r == r'
  {
    var d := q - q';
    assert d * y == r' - r;
    if d != 0 {
      assert d * y >= (if y < 0 then -y else y) || d * y <= -(if y < 0 then -y else y) by { Multiple(d, y); }
    }
  }

  lemma Multiple(d: int, y: int)
    requires d != 0 && y != 0
    ensures d * y >= (if y < 0 then -y else y) || d * y <= -(if y < 0 then -y else y)
  {
    if d > 0 && y > 0 { assert (d - 1) * y >= 0; }
    if d > 0 && y < 0 { assert (d - 1) * (-y) >= 0; }
    if d < 0 && y > 0 { assert (-d - 1) * y >= 0; }
    if d < 0 && y < 0 { assert (-d - 1) * (-y) >= 0; }
  }

  lemma IntegersAre(op: Op, x: int, y: int)
    requires IsArithmetic(op)
    ensures IntegerResult(op, x, y, IntOp(op, x, y))
  {
    WrapIs(x + y);
    WrapIs(x - y);
    WrapIs(x * y);
    if y != 0 {
      QuotientIs(x, y);
      WrapIs(Quotient(x, y));
    }
    hide Wrap64, Quotient, Congruent, InRange, Divides;
  }

  lemma CongruentOnce(a: int, b: int, n: int)
    requires InRange(a) && InRange(b) && Congruent(a, n) && Congruent(b, n)
    ensures a == b
  {
    var s: int :| a == n + s * 0x1_0000_0000_0000_0000;
    var t: int :| b == n + t * 0x1_0000_0000_0000_0000;
  }

  /** Both operands in order, then the operator. */
  lemma Operands(c: Ctx, fuel: nat, op: Op, left: Expr, right: Expr, l: Value, r: Value, st: St, st1: St, st2: St)
    requires IsArithmetic(op) && !l.VReturn? && !r.VReturn?
    requires Gives(c, fuel, left, st, l, st1) && Gives(c, fuel, right, st1, r, st2)
    ensures Gives(c, fuel + 1, Infix(op, left, right), st, Arith(c, op, l, r), st2)
  {
    hide Eval, Arith, EvalRight;
    InfixAfter(c, fuel, op, left, right, l, st, st1);
    ArithAfter(c, fuel, op, l, right, r, st1, st2);
  }

  lemma ArithAfter(c: Ctx, fuel: nat, op: Op, l: Value, right: Expr, r: Value, st: St, st1: St)
    requires IsArithmetic(op) && Gives(c, fuel, right, st, r, st1)
    ensures EvalRight(c, fuel, op, l, right, st) == Done(if r.VReturn? then r else Arith(c, op, l, r), st1)
  {
    hide Eval, Arith, Kept;
    assert EvalRight(c, fuel, op, l, right, st) == EvalArith(c, fuel, op, l, right, st);
  }

  lemma IntegerOperation(c: Ctx, fuel: nat, op: Op, left: Expr, right: Expr, x: int, y: int, st: St, st1: St, st2: St)
      returns (v: Value)
    requires IsArithmetic(op) && Gives(c, fuel, left, st, VInt(x), st1) && Gives(c, fuel, right, st1, VInt(y), st2)
    ensures Gives(c, fuel + 1, Infix(op, left, right), st, v, st2) && IntegerResult(op, x, y, v)
  {
    IntegersAre(op, x, y);
    Operands(c, fuel, op, left, right, VInt(x), VInt(y), st, st1, st2);
    hide IntOp, IntegerResult, Gives;
    v := IntOp(op, x, y);
  }

  /** Text is joined and compared, truth values are compared; for other operands there
      is equality, and nil for every other operator. */
  lemma OtherOperation(c: Ctx, fuel: nat, op: Op, left: Expr, right: Expr, l: Value, r: Value, st: St, st1: St, st2: St)
    requires IsArithmetic(op) && !l.VReturn? && !r.VReturn? && !(l.VInt? && r.VInt?)
    requires Gives(c, fuel, left, st, l, st1) && Gives(c, fuel, right, st1, r, st2)
    ensures var e := Infix(op, left, right); var g := fuel + 1;
            && (op.Plus? && l.VStr? && r.VStr? ==> Gives(c, g, e, st, VStr(l.s + r.s), st2))
            && (op.Equal? && l.VStr? && r.VStr? ==> Gives(c, g, e, st, VBool(l.s == r.s), st2))
            && (op.NotEqual? && l.VStr? && r.VStr? ==> Gives(c, g, e, st, VBool(l.s != r.s), st2))
            && (op.Equal? && l.VBool? && r.VBool? ==> Gives(c, g, e, st, VBool(l.b == r.b), st2))
            && (op.NotEqual? && l.VBool? && r.VBool? ==> Gives(c, g, e, st, VBool(l.b != r.b), st2))
            && (!op.Equal? && !op.NotEqual? && !(op.Plus? && l.VStr? && r.VStr?) ==> Gives(c, g, e, st, VNil, st2))
            && (op.Equal? && !(l.VStr? && r.VStr?) && !(l.VBool? && r.VBool?)
                ==> Gives(c, g, e, st, VBool(c.same(l, r)), st2))
            && (op.NotEqual? && !(l.VStr? && r.VStr?) && !(l.VBool? && r.VBool?)
                ==> Gives(c, g, e, st, VBool(!c.same(l, r)), st2))
  {
    Operands(c, fuel, op, left, right, l, r, st, st1, st2);
    hide Gives;
  }

  /** A return in an operand is the result; after one on the left the right operand is
      not evaluated. */
  lemma ReturnInOperand(c: Ctx, fuel: nat, op: Op, left: Expr, right: Expr, l: Value, r: Value, st: St, st1: St,
      st2: St)
    requires Gives(c, fuel, left, st, l, st1)
    ensures l.VReturn? ==> Gives(c, fuel + 1, Infix(op, left, right), st, l, st1)
    ensures !l.VReturn? && r.VReturn? && IsArithmetic(op) && Gives(c, fuel, right, st1, r, st2)
            ==> Gives(c, fuel + 1, Infix(op, left, right), st, r, st2)
  {
    if l.VReturn? {
      ReturnedLeft(c, fuel, op, left, right, l, st, st1);
    } else if r.VReturn? && IsArithmetic(op) && Gives(c, fuel, right, st1, r, st2) {
      hide Eval, Arith, EvalRight;
      InfixAfter(c, fuel, op, left, right, l, st, st1);
      ArithAfter(c, fuel, op, l, right, r, st1, st2);
    }
  }

  lemma ReturnedLeft(c: Ctx, fuel: nat, op: Op, left: Expr, right: Expr, l: Value, st: St, st1: St)
    requires Gives(c, fuel, left, st, l, st1) && l.VReturn?
    ensures Gives(c, fuel + 1, Infix(op, left, right), st, l, st1)
  {
    hide EvalRight, Kept;
    assert EvalInfix(c, fuel, op, left, right, st) == Done(l, st1);
  }

  // ---------- operators that may leave out an operand ----------

  /** `&&` after anything but true and `||` after anything but false do not look at
      the right operand; else its value is the result, or false if it is none. */
  lemma ShortCircuit(c: Ctx, fuel: nat, left: Expr, right: Expr, l: Value, r: Value, st: St, st1: St, st2: St)
    requires Gives(c, fuel, left, st, l, st1) && !l.VReturn?
    ensures l != VBool(true) ==> Gives(c, fuel + 1, Infix(And, left, right), st, VBool(false), st1)
    ensures l == VBool(true) ==> Gives(c, fuel + 1, Infix(Or, left, right), st, VBool(true), st1)
    ensures !l.VBool? ==> Gives(c, fuel + 1, Infix(Or, left, right), st, VBool(false), st1)
    ensures l == VBool(true) && Gives(c, fuel, right, st1, r, st2)
            ==> Gives(c, fuel + 1, Infix(And, left, right), st, if r.VBool? then r else VBool(false), st2)
    ensures l == VBool(false) && Gives(c, fuel, right, st1, r, st2)
            ==> Gives(c, fuel + 1, Infix(Or, left, right), st, if r.VBool? then r else VBool(false), st2)
  {
    InfixAfter(c, fuel, And, left, right, l, st, st1);
    InfixAfter(c, fuel, Or, left, right, l, st, st1);
    LogicIs(c, fuel, true, false, right, r, st1, st2);
    LogicIs(c, fuel, false, false, right, r, st1, st2);
    LogicIs(c, fuel, false, true, right, r, st1, st2);
    assert EvalRight(c, fuel, And, l, right, st1) == EvalLogic(c, fuel, l == VBool(true), false, right, st1);
    assert EvalRight(c, fuel, Or, l, right, st1) == EvalLogic(c, fuel, l == VBool(false), l == VBool(true), right, st1);
    hide Eval, EvalLogic, EvalRight;
  }

  lemma InfixAfter(c: Ctx, fuel: nat, op: Op, left: Expr, right: Expr, l: Value, st: St, st1: St)
    requires Gives(c, fuel, left, st, l, st1) && !l.VReturn?
    ensures Eval(c, fuel + 1, Infix(op, left, right), st) == EvalRight(c, fuel, op, l, right, st1)
  {
    hide EvalRight;
    assert EvalInfix(c, fuel, op, left, right, st) == EvalRight(c, fuel, op, l, right, st1);
  }

  lemma LogicIs(c: Ctx, fuel: nat, needed: bool, short: bool, right: Expr, r: Value, st: St, st1: St)
    ensures !needed ==> EvalLogic(c, fuel, needed, short, right, st) == Done(VBool(short), st)
    ensures needed && Gives(c, fuel, right, st, r, st1)
            ==> EvalLogic(c, fuel, needed, short, right, st) == Done(if r.VBool? then r else VBool(false), st1)
  {
    hide Eval;
  }

  /** `??` takes the right operand for nil, `Err` and `None` alone, and takes the
      payload out of `Ok` and `Some`. */
  lemma Otherwise(c: Ctx, fuel: nat, left: Expr, right: Expr, l: Value, st: St, st1: St)
    requires Gives(c, fuel, left, st, l, st1) && !l.VReturn?
    ensures var e := Infix(Coalesce, left, right);
            if l.VNil? || (l.VEnum? && (l.tname, l.variant) in {("Result", "Err"), ("Option", "None")})
            then Eval(c, fuel + 1, e, st) == Eval(c, fuel, right, st1)
            else if l.VEnum? && (l.tname, l.variant) in {("Result", "Ok"), ("Option", "Some")}
            then Gives(c, fuel + 1, e, st, l.payload, st1)
            else Gives(c, fuel + 1, e, st, l, st1)
  {
    InfixAfter(c, fuel, Coalesce, left, right, l, st, st1);
    assert EvalRight(c, fuel, Coalesce, l, right, st1) == EvalCoalesce(c, fuel, l, right, st1);
  }

  // ---------- one operand ----------

  /** `?` takes the payload out of `Ok` and returns `Err` from the function. */
  lemma Question(c: Ctx, fuel: nat, e: Expr, v: Value, st: St, st1: St)
    requires Gives(c, fuel, e, st, v, st1)
    ensures if v.VEnum? && v.tname == "Result" && v.variant == "Ok" then Gives(c, fuel + 1, Try(e), st, v.payload, st1)
            else if v.VEnum? && v.tname == "Result" then Gives(c, fuel + 1, Try(e), st, VReturn(v), st1)
            else Gives(c, fuel + 1, Try(e), st, v, st1)
  {
    hide Kept;
    assert EvalTry(c, fuel, e, st).Done?;
  }

  /** `!` turns a truth value over, `-` a number; anything else becomes nil. */
  lemma Signs(c: Ctx, fuel: nat, e: Expr, v: Value, st: St, st1: St)
    requires Gives(c, fuel, e, st, v, st1)
    ensures v == VBool(true) ==> Gives(c, fuel + 1, Prefix(Not, e), st, VBool(false), st1)
    ensures v == VBool(false) ==> Gives(c, fuel + 1, Prefix(Not, e), st, VBool(true), st1)
    ensures !v.VBool? ==> Gives(c, fuel + 1, Prefix(Not, e), st, VNil, st1)
    ensures v.VInt? ==> exists n :: Gives(c, fuel + 1, Prefix(Negate, e), st, VInt(n), st1)
                                    && InRange(n) && Congruent(n, 0 - v.n)
    ensures !v.VInt? ==> Gives(c, fuel + 1, Prefix(Negate, e), st, VNil, st1)
  {
    SignIs(c, fuel, Not, e, v, st, st1);
    SignIs(c, fuel, Negate, e, v, st, st1);
    hide Gives, Wrap64, Congruent, InRange;
    if v.VInt? {
      WrapIs(-v.n);
      assert Gives(c, fuel + 1, Prefix(Negate, e), st, VInt(Wrap64(-v.n)), st1);
    }
  }

  lemma SignIs(c: Ctx, fuel: nat, sign: PrefixOp, e: Expr, v: Value, st: St, st1: St)
    requires Gives(c, fuel, e, st, v, st1)
    ensures Gives(c, fuel + 1, Prefix(sign, e), st, Signed(sign, v), st1)
  {
    hide Signed, Kept;
    assert EvalPrefix(c, fuel, sign, e, st) == Done(Signed(sign, v), st1);
  }

  /** An element, a character or a member; an error out of bounds; else nil. */
  lemma Indexing(c: Ctx, fuel: nat, owner: Expr, index: Expr, v: Value, i: Value, st: St, st1: St, st2: St)
    requires Gives(c, fuel, owner, st, v, st1) && Gives(c, fuel, index, st1, i, st2)
    ensures var e := Index(owner, index); var outside := VEnum("Result", "Err", VStr("index_out_of_bounds"));
            if v.VList? && i.VInt? then
              if 0 <= i.n < |v.elems| then Gives(c, fuel + 1, e, st, v.elems[i.n], st2)
              else Gives(c, fuel + 1, e, st, outside, st2)
            else if v.VStr? && i.VInt? then
              if 0 <= i.n < |v.s| then Gives(c, fuel + 1, e, st, VStr([v.s[i.n]]), st2)
              else Gives(c, fuel + 1, e, st, outside, st2)
            else if v.VObject? && i.VStr? && i.s in v.fields then Gives(c, fuel + 1, e, st, v.fields[i.s], st2)
            else Gives(c, fuel + 1, e, st, VNil, st2)
  {
    assert EvalIndexed(c, fuel, v, index, st1) == Done(Indexed(v, i), st2);
    hide Indexed;
    assert EvalIndex(c, fuel, owner, index, st) == Done(Indexed(v, i), st2);
    assert Gives(c, fuel + 1, Index(owner, index), st, Indexed(v, i), st2);
    IndexedIs(v, i);
    hide Gives, Eval, EvalIndex, EvalIndexed;
  }

  lemma IndexedIs(v: Value, i: Value)
    ensures Indexed(v, i)
            == if v.VList? && i.VInt? then
                 if 0 <= i.n < |v.elems| then v.elems[i.n] else VEnum("Result", "Err", VStr("index_out_of_bounds"))
               else if v.VStr? && i.VInt? then
                 if 0 <= i.n < |v.s| then VStr([v.s[i.n]]) else VEnum("Result", "Err", VStr("index_out_of_bounds"))
               else if v.VObject? && i.VStr? && i.s in v.fields then v.fields[i.s] else VNil
  {
  }

  // ---------- conditionals ----------

  /** Only false and nil are not taken for true. */
  lemma Conditional(c: Ctx, fuel: nat, cond: Expr, yes: seq<Stmt>, no: Else, v: Value, st: St, st1: St)
    requires Gives(c, fuel, cond, st, v, st1)
    ensures var e := If(cond, yes, no);
            if v != VBool(false) && v != VNil then Eval(c, fuel + 1, e, st) == Eval(c, fuel + 1, Block(yes), st1)
            else if no.Else? then Eval(c, fuel + 1, e, st) == Eval(c, fuel + 1, Block(no.stmts), st1)
            else Gives(c, fuel + 1, e, st, VNil, st1)
  {
    hide EvalScoped, Kept;
    assert Eval(c, fuel + 1, Block(yes), st1) == EvalScoped(c, fuel, yes, map[], st1);
    if no.Else? { assert Eval(c, fuel + 1, Block(no.stmts), st1) == EvalScoped(c, fuel, no.stmts, map[], st1); }
    assert Eval(c, fuel + 1, If(cond, yes, no), st) == EvalIf(c, fuel, cond, yes, no, st);
  }

  /** Conditionals on literals are their branches. */
  lemma ConditionalEquations(c: Ctx, fuel: nat, a: seq<Stmt>, b: seq<Stmt>, alt: Else, n: int, s: string, st: St)
    requires fuel >= 2
    ensures Eval(c, fuel, If(Flag(true), a, alt), st) == Eval(c, fuel, Block(a), st)
    ensures Eval(c, fuel, If(Num(n), a, alt), st) == Eval(c, fuel, Block(a), st)
    ensures Eval(c, fuel, If(Text(s), a, alt), st) == Eval(c, fuel, Block(a), st)
    ensures Eval(c, fuel, If(Flag(false), a, Else.Else(b)), st) == Eval(c, fuel, Block(b), st)
    ensures Eval(c, fuel, If(Nil, a, Else.Else(b)), st) == Eval(c, fuel, Block(b), st)
    ensures Gives(c, fuel, If(Flag(false), a, NoElse), st, VNil, st) && Gives(c, fuel, If(Nil, a, NoElse), st, VNil, st)
  {
    hide Eval, Gives;
    Literals(c, fuel - 1, n, true, s, st);
    Literals(c, fuel - 1, n, false, s, st);
    Conditional(c, fuel - 1, Flag(true), a, alt, VBool(true), st, st);
    Conditional(c, fuel - 1, Num(n), a, alt, VInt(n), st, st);
    Conditional(c, fuel - 1, Text(s), a, alt, VStr(s), st, st);
    Conditional(c, fuel - 1, Flag(false), a, Else.Else(b), VBool(false), st, st);
    Conditional(c, fuel - 1, Nil, a, Else.Else(b), VNil, st, st);
    Conditional(c, fuel - 1, Flag(false), a, NoElse, VBool(false), st, st);
    Conditional(c, fuel - 1, Nil, a, NoElse, VNil, st, st);
  }

  // ---------- statements ----------

  /** The scope a block runs in: a new one inside the current one. */
  function Opened(st: St, vars: map<string, Value>): St {
    St(st.frames + [Frame(vars, st.env)], |st.frames|, st.handlers, st.caps, st.tick)
  }

  function At(st: St, env: nat): St {
    St(st.frames, env, st.handlers, st.caps, st.tick)
  }

  /** A block gives what its statements give in a scope of its own, and comes back. */
  lemma Blocks(c: Ctx, fuel: nat, stmts: seq<Stmt>, v: Value, st: St, st1: St)
    requires EvalStmts(c, fuel, stmts, VNil, Opened(st, map[])) == Done(v, st1)
    ensures Gives(c, fuel + 1, Block(stmts), st, v, At(st1, st.env))
  {
    hide EvalStmts;
    assert Opened(st, map[]) == Enclose(st, map[]);
    assert EvalScoped(c, fuel, stmts, map[], st) == Done(v, At(st1, st.env));
  }

  /** Statements run in order up to the first signal; the last value is the result. */
  lemma Sequence(c: Ctx, fuel: nat, stmts: seq<Stmt>, last: Value, v: Value, st: St, st1: St)
    ensures EvalStmts(c, fuel, [], last, st) == Done(last, st)
    ensures |stmts| > 0 && EvalStmt(c, fuel, stmts[0], st) == Done(v, st1)
            ==> EvalStmts(c, fuel, stmts, last, st)
                == if v.VReturn? || v.VBreak? || v.VContinue? then Done(v, st1)
                   else EvalStmts(c, fuel, stmts[1..], v, st1)
  {
    hide EvalStmt;
  }

  lemma Statements(c: Ctx, fuel: nat, e: Expr, name: string, v: Value, st: St, st1: St)
    requires Gives(c, fuel, e, st, v, st1)
    ensures EvalStmt(c, fuel, Break, st) == Done(VBreak, st) && EvalStmt(c, fuel, Continue, st) == Done(VContinue, st)
    ensures EvalStmt(c, fuel, Do(e), st) == Done(v, st1) && EvalStmt(c, fuel, Return(e), st) == Done(VReturn(v), st1)
    ensures v.VReturn? ==> EvalStmt(c, fuel, Let(name, e), st) == Done(v, st1)
    ensures !v.VReturn? && st1.env < |st1.frames| ==>
              var f := st1.frames[st1.env];
              EvalStmt(c, fuel, Let(name, e), st)
              == Done(v, St(st1.frames[st1.env := Frame(f.vars[name := v], f.outer)], st1.env, st1.handlers, st1.caps,
                            st1.tick))
  {
    hide Eval;
  }

  /** Assignment changes the nearest binding of the name and nothing else: `=` to the
      value, `+=` and `-=` by it where the two fit together. */
  lemma Assignments(c: Ctx, fuel: nat, name: string, how: AssignOp, e: Expr, v: Value, w: Value, k: nat, st: St,
      st1: St)
    requires Gives(c, fuel, e, st, v, st1)
    ensures (forall i: nat :: !NearestAt(st1.frames, st1.env, name, i))
            ==> Gives(c, fuel + 1, Assign(name, how, e), st, v, st1)
    ensures NearestAt(st1.frames, st1.env, name, k) && k < |st1.frames| && name in st1.frames[k].vars
            && NewValue(how, st1.frames[k].vars[name], v, w)
            ==> var f := st1.frames[k];
                Gives(c, fuel + 1, Assign(name, how, e), st, v,
                      St(st1.frames[k := Frame(f.vars[name := w], f.outer)], st1.env, st1.handlers, st1.caps, st1.tick))
  {
    hide Combined, Update, Get, Gives, NewValue, NearestAt;
    AssignIs(c, fuel, name, how, e, v, st, st1);
    if forall i: nat :: !NearestAt(st1.frames, st1.env, name, i) {
      NothingToAssign(st1.frames, st1.env, name, how, v);
    }
    if NearestAt(st1.frames, st1.env, name, k) && k < |st1.frames| && name in st1.frames[k].vars
        && NewValue(how, st1.frames[k].vars[name], v, w) {
      CombinedIs(how, st1.frames[k].vars[name], v, w);
      AssignedNearest(st1.frames, st1.env, name, how, v, w, k);
    }
    hide Assigned;
  }

  lemma AssignIs(c: Ctx, fuel: nat, name: string, how: AssignOp, e: Expr, v: Value, st: St, st1: St)
    requires Gives(c, fuel, e, st, v, st1)
    ensures Gives(c, fuel + 1, Assign(name, how, e), st, v,
                  St(Assigned(st1.frames, st1.env, name, how, v), st1.env, st1.handlers, st1.caps, st1.tick))
  {
    hide Assigned, Kept;
    assert EvalAssign(c, fuel, name, how, e, st)
        == Done(v, st1.(frames := Assigned(st1.frames, st1.env, name, how, v)));
  }

  lemma NothingToAssign(frames: seq<Frame>, i: nat, name: string, how: AssignOp, v: Value)
    requires forall k: nat :: !NearestAt(frames, i, name, k)
    ensures Assigned(frames, i, name, how, v) == frames
  {
    hide Combined, Update, NearestAt;
    if Get(frames, i, name).Some? { NearestExists(frames, i, name); }
  }

  lemma AssignedNearest(frames: seq<Frame>, i: nat, name: string, how: AssignOp, v: Value, w: Value, k: nat)
    requires NearestAt(frames, i, name, k) && k < |frames| && name in frames[k].vars
    requires w == Combined(how, frames[k].vars[name], v)
    ensures var f := frames[k]; Assigned(frames, i, name, how, v) == frames[k := Frame(f.vars[name := w], f.outer)]
  {
    hide Combined, Update, Get, NearestAt;
    NearestIs(frames, i, name, k);
    UpdateNearest(frames, i, name, w, k);
  }

  ghost predicate NewValue(how: AssignOp, before: Value, v: Value, w: Value) {
    match how
    case Replace => w == v
    case AddTo =>
      if before.VInt? && v.VInt? then w.VInt? && InRange(w.n) && Congruent(w.n, before.n + v.n)
      else if before.VStr? && v.VStr? then w == VStr(before.s + v.s)
      else w == before
    case TakeFrom =>
      if before.VInt? && v.VInt? then w.VInt? && InRange(w.n) && Congruent(w.n, before.n - v.n) else w == before
  }

  lemma CombinedIs(how: AssignOp, before: Value, v: Value, w: Value)
    requires NewValue(how, before, v, w)
    ensures w == Combined(how, before, v)
  {
    hide Wrap64, Congruent, InRange;
    if before.VInt? && v.VInt? && !how.Replace? {
      var n := if how.AddTo? then before.n + v.n else before.n - v.n;
      WrapIs(n);
      CongruentOnce(w.n, Wrap64(n), n);
    }
  }

  lemma {:induction false} UpdateNearest(frames: seq<Frame>, i: nat, name: string, v: Value, k: nat)
    requires NearestAt(frames, i, name, k) && k < |frames|
    ensures var f := frames[k]; Update(frames, i, name, v) == frames[k := Frame(f.vars[name := v], f.outer)]
    decreases i
  {
    if name !in frames[i].vars { UpdateNearest(frames, frames[i].outer, name, v, k); }
  }

  // ---------- match ----------

  lemma Matching(c: Ctx, fuel: nat, subject: Expr, arms: seq<Arm>, v: Value, st: St, st1: St)
    requires Gives(c, fuel, subject, st, v, st1)
    ensures Eval(c, fuel + 1, Match(subject, arms), st) == EvalArms(c, fuel, v, arms, st1)
  {
    hide EvalArms;
    assert EvalMatch(c, fuel, subject, arms, st) == EvalArms(c, fuel, v, arms, st1);
  }

  /** What a pattern fits, and what it binds. */
  ghost predicate Fits(v: Value, p: Pattern, vars: map<string, Value>) {
    match p
    case Wildcard => vars == map[]
    case Literal(n) => v == VInt(n) && vars == map[]
    case Truth(b) => v == VBool(b) && vars == map[]
    case Bind(name) => vars == map[name := v]
    case Variant(variant, binding) =>
      v.VEnum? && v.variant == variant && vars == if binding.None? then map[] else map[binding.value := v.payload]
  }

  lemma PatternFits(v: Value, p: Pattern, vars: map<string, Value>)
    ensures MatchPattern(v, p) == Some(vars) <==> Fits(v, p, vars)
    ensures MatchPattern(v, p).None? <==> forall w :: !Fits(v, p, w)
  {
    if MatchPattern(v, p).Some? { assert Fits(v, p, MatchPattern(v, p).value); }
  }

  /** Arms are tried in order; where none is left the result is nil.  One that does not
      fit is passed over. */
  lemma ArmPassed(c: Ctx, fuel: nat, v: Value, arms: seq<Arm>, st: St)
    ensures EvalArms(c, fuel, v, [], st) == Done(VNil, st)
    ensures |arms| > 0 && (forall x :: !Fits(v, arms[0].pattern, x)) ==>
              EvalArms(c, fuel, v, arms, st) == EvalArms(c, fuel, v, arms[1..], st)
  {
    if |arms| > 0 { PatternFits(v, arms[0].pattern, map[]); }
    hide MatchPattern, Fits;
  }

  /** One that fits, without a guard, gives its body, in a scope of what it binds. */
  lemma ArmTaken(c: Ctx, fuel: nat, v: Value, arms: seq<Arm>, vars: map<string, Value>, w: Value, st: St, st1: St)
    requires |arms| > 0 && Fits(v, arms[0].pattern, vars) && arms[0].guard.None?
    requires Gives(c, fuel, arms[0].body, Opened(st, vars), w, st1)
    ensures EvalArms(c, fuel, v, arms, st) == Done(w, At(st1, st.env))
  {
    PatternFits(v, arms[0].pattern, vars);
    assert EvalGuard(c, fuel, arms[0].guard, vars, st) == Done(true, st);
    InScope(c, fuel, arms[0].body, vars, w, st, st1);
    hide MatchPattern, Fits, Eval, EvalGuard, EvalInScope;
  }

  lemma InScope(c: Ctx, fuel: nat, e: Expr, vars: map<string, Value>, w: Value, st: St, st1: St)
    requires Gives(c, fuel, e, Opened(st, vars), w, st1)
    ensures EvalInScope(c, fuel, e, vars, st) == Done(w, At(st1, st.env))
  {
    hide Eval;
    assert Opened(st, vars) == Enclose(st, vars);
  }

  /** A guard is evaluated in that scope too; unless it gives true the arm is passed
      over. */
  lemma ArmGuarded(c: Ctx, fuel: nat, v: Value, arms: seq<Arm>, vars: map<string, Value>, g: Value, w: Value, st: St,
      st1: St, st2: St)
    requires |arms| > 0 && Fits(v, arms[0].pattern, vars) && arms[0].guard.Some?
    requires Gives(c, fuel, arms[0].guard.value, Opened(st, vars), g, st1)
    ensures g != VBool(true) ==> EvalArms(c, fuel, v, arms, st) == EvalArms(c, fuel, v, arms[1..], At(st1, st.env))
    ensures g == VBool(true) && Gives(c, fuel, arms[0].body, Opened(At(st1, st.env), vars), w, st2)
            ==> EvalArms(c, fuel, v, arms, st) == Done(w, At(st2, st.env))
  {
    PatternFits(v, arms[0].pattern, vars);
    InScope(c, fuel, arms[0].guard.value, vars, g, st, st1);
    hide MatchPattern, Fits, Eval, EvalInScope;
    assert EvalGuard(c, fuel, arms[0].guard, vars, st) == Done(g == VBool(true), At(st1, st.env));
    hide EvalGuard;
    if g == VBool(true) && Gives(c, fuel, arms[0].body, Opened(At(st1, st.env), vars), w, st2) {
      InScope(c, fuel, arms[0].body, vars, w, At(st1, st.env), st2);
    }
  }

  // ---------- lists, objects, enums ----------

  /** Expressions evaluated one after another, each in the state the one before left. */
  ghost predicate GivesAll(c: Ctx, fuel: nat, es: seq<Expr>, vs: seq<Value>, sts: seq<St>) {
    && |vs| == |es| && |sts| == |es| + 1
    && forall k :: 0 <= k < |es| ==> Gives(c, fuel, es[k], sts[k], vs[k], sts[k + 1])
  }

  lemma {:induction false} AllGiven(c: Ctx, fuel: nat, es: seq<Expr>, vs: seq<Value>, sts: seq<St>)
    requires GivesAll(c, fuel, es, vs, sts)
    ensures EvalAll(c, fuel, es, sts[0]) == Done(vs, sts[|es|])
    decreases |es|
  {
    hide Eval;
    if |es| > 0 {
      assert Gives(c, fuel, es[0], sts[0], vs[0], sts[1]);
      forall k | 0 <= k < |es| - 1 ensures Gives(c, fuel, es[1..][k], sts[1..][k], vs[1..][k], sts[1..][k + 1]) {
        assert Gives(c, fuel, es[k + 1], sts[k + 1], vs[k + 1], sts[k + 2]);
      }
      AllGiven(c, fuel, es[1..], vs[1..], sts[1..]);
      assert [vs[0]] + vs[1..] == vs;
    }
  }

  lemma Lists(c: Ctx, fuel: nat, es: seq<Expr>, vs: seq<Value>, sts: seq<St>)
    requires GivesAll(c, fuel, es, vs, sts)
    ensures Gives(c, fuel + 1, List(es), sts[0], VList(vs), sts[|es|])
  {
    AllGiven(c, fuel, es, vs, sts);
    hide EvalAll, GivesAll;
    assert EvalList(c, fuel, es, sts[0]) == Done(VList(vs), sts[|es|]);
  }

  /** No later field has the name of field `k`. */
  predicate LastOfName(fields: seq<Arg>, k: nat) {
    k < |fields| && forall j :: k < j < |fields| ==> fields[j].name != fields[k].name
  }

  /** In an object each name has the value of its last field. */
  ghost predicate FieldsAre(fields: seq<Arg>, vs: seq<Value>, m: map<string, Value>)
    requires |fields| == |vs|
  {
    && (forall n :: n in m ==> exists k :: 0 <= k < |fields| && fields[k].name == n)
    && forall k: nat :: LastOfName(fields, k) ==> fields[k].name in m && m[fields[k].name] == vs[k]
  }

  lemma {:induction false} FieldNames(fields: seq<Arg>, vs: seq<Value>, n: string)
    requires |fields| == |vs| && n in FieldMap(fields, vs)
    ensures exists k :: 0 <= k < |fields| && fields[k].name == n
    decreases |fields|
  {
    var m := |fields| - 1;
    if n != fields[m].name {
      FieldNames(fields[..m], vs[..m], n);
      var k :| 0 <= k < m && fields[..m][k].name == n;
      assert fields[k].name == n;
    }
  }

  lemma {:induction false} FieldLast(fields: seq<Arg>, vs: seq<Value>, k: nat)
    requires |fields| == |vs| && LastOfName(fields, k)
    ensures fields[k].name in FieldMap(fields, vs) && FieldMap(fields, vs)[fields[k].name] == vs[k]
    decreases |fields|
  {
    var m := |fields| - 1;
    if k < m { FieldLast(fields[..m], vs[..m], k); }
  }

  lemma FieldMapIs(fields: seq<Arg>, vs: seq<Value>)
    requires |fields| == |vs|
    ensures FieldsAre(fields, vs, FieldMap(fields, vs))
  {
    forall n | n in FieldMap(fields, vs) ensures exists k :: 0 <= k < |fields| && fields[k].name == n {
      FieldNames(fields, vs, n);
    }
    forall k: nat | LastOfName(fields, k)
      ensures fields[k].name in FieldMap(fields, vs) && FieldMap(fields, vs)[fields[k].name] == vs[k]
    {
      FieldLast(fields, vs, k);
    }
  }

  function Values(args: seq<Arg>): (r: seq<Expr>)
    ensures |r| == |args|
  {
    seq(|args|, i requires 0 <= i < |args| => args[i].value)
  }

  lemma Objects(c: Ctx, fuel: nat, tname: string, fields: seq<Arg>, vs: seq<Value>, sts: seq<St>)
      returns (m: map<string, Value>)
    requires GivesAll(c, fuel, Values(fields), vs, sts)
    ensures |vs| == |fields| && FieldsAre(fields, vs, m) && |sts| == |fields| + 1
    ensures Gives(c, fuel + 1, Object(tname, fields), sts[0], VObject(tname, m), sts[|fields|])
  {
    assert Values(fields) == ArgValues(fields);
    hide Eval, FieldMap, FieldsAre, Values, Gives;
    AllGiven(c, fuel, Values(fields), vs, sts);
    FieldMapIs(fields, vs);
    m := FieldMap(fields, vs);
    ObjectIs(c, fuel, tname, fields, vs, sts[0], sts[|fields|]);
  }

  lemma ObjectIs(c: Ctx, fuel: nat, tname: string, fields: seq<Arg>, vs: seq<Value>, st: St, st1: St)
    requires |vs| == |fields| && EvalAll(c, fuel, ArgValues(fields), st) == Done(vs, st1)
    ensures Gives(c, fuel + 1, Object(tname, fields), st, VObject(tname, FieldMap(fields, vs)), st1)
  {
    hide EvalAll, FieldMap, ArgValues, Kept;
    assert EvalObject(c, fuel, tname, fields, st) == Done(VObject(tname, FieldMap(fields, vs)), st1);
  }

  lemma Wrapping(c: Ctx, fuel: nat, tname: string, variant: string, e: Expr, v: Value, st: St, st1: St)
    requires Gives(c, fuel, e, st, v, st1)
    ensures Gives(c, fuel + 1, Wrap(tname, variant, e), st, VEnum(tname, variant, v), st1)
  {
    assert EvalWrap(c, fuel, tname, variant, e, st) == Done(VEnum(tname, variant, v), st1);
  }

  /** A member of an object, or of what the topmost handler of a namespace provides;
      without a handler there is a panic, and whatever has no such member gives nil. */
  lemma Members(c: Ctx, fuel: nat, owner: Expr, field: string, v: Value, k: nat, st: St, st1: St)
    requires Gives(c, fuel, owner, st, v, st1)
    ensures var e := Field(owner, field);
            && (!v.VNamespace? ==> Gives(c, fuel + 1, e, st, MemberOf(v, field), st1))
            && (v.VNamespace? && (forall i :: 0 <= i < |st1.handlers| ==> st1.handlers[i].name != v.name)
                ==> Eval(c, fuel + 1, e, st) == Panics(NoHandler(v.name)))
            && (v.VNamespace? && k < |st1.handlers| && st1.handlers[k].name == v.name
                && (forall i :: k < i < |st1.handlers| ==> st1.handlers[i].name != v.name)
                ==> Gives(c, fuel + 1, e, st, MemberOf(st1.handlers[k].provider, field), st1))
  {
    hide Kept;
    if v.VNamespace? { Topmost(st1.handlers, v.name, k); }
    hide TopDown;
    assert Eval(c, fuel + 1, Field(owner, field), st) == EvalField(c, fuel, owner, field, st);
  }

  function MemberOf(v: Value, field: string): Value {
    if v.VObject? && field in v.fields then v.fields[field] else VNil
  }

  lemma {:induction false} Topmost(hs: seq<Handler<Value>>, name: string, k: nat)
    ensures (forall i :: 0 <= i < |hs| ==> hs[i].name != name) ==> TopDown(hs, name).None?
    ensures k < |hs| && hs[k].name == name && (forall i :: k < i < |hs| ==> hs[i].name != name)
            ==> TopDown(hs, name) == Some(hs[k].provider)
    decreases |hs|
  {
    if |hs| > 0 {
      var n := |hs| - 1;
      Topmost(hs[..n], name, k);
      if k < n && hs[k].name == name { assert hs[..n][k] == hs[k]; }
    }
  }
}
