/** Laws of whole programs, which follow from the rules. */
module EvaluationLaws {
  import opened EffectStack
  import opened Evaluation
  import opened EvaluationRules
  import opened EvaluationCalls

  // ---------- arithmetic ----------

  /** `x o y` on literals. */
  lemma LiteralOperation(c: Ctx, fuel: nat, op: Op, x: int, y: int, st: St) returns (v: Value)
    requires fuel >= 2 && IsArithmetic(op)
    ensures Gives(c, fuel, Infix(op, Num(x), Num(y)), st, v, st) && IntegerResult(op, x, y, v)
  {
    hide Gives, IntegerResult;
    Literals(c, fuel - 1, x, true, "", st);
    Literals(c, fuel - 1, y, true, "", st);
    v := IntegerOperation(c, fuel - 1, op, Num(x), Num(y), x, y, st, st, st);
  }

  /** `(x + y) - y` is `x`, whatever overflows on the way. */
  lemma AddThenSubtract(c: Ctx, fuel: nat, x: int, y: int, st: St)
    requires fuel >= 3 && InRange(x)
    ensures Gives(c, fuel, Infix(Minus, Infix(Plus, Num(x), Num(y)), Num(y)), st, VInt(x), st)
  {
    hide Gives, InRange, Congruent;
    var s := LiteralOperation(c, fuel - 1, Plus, x, y, st);
    Literals(c, fuel - 1, y, true, "", st);
    var v := IntegerOperation(c, fuel - 1, Minus, Infix(Plus, Num(x), Num(y)), Num(y), s.n, y, st, st, st);
    CongruentBack(v.n, s.n, x, y);
    CongruentOnce(v.n, x, x);
  }

  lemma CongruentBack(v: int, s: int, x: int, y: int)
    requires Congruent(s, x + y) && Congruent(v, s - y)
    ensures Congruent(v, x) && Congruent(x, x)
  {
    var t: int :| s == x + y + t * 0x1_0000_0000_0000_0000;
    var u: int :| v == s - y + u * 0x1_0000_0000_0000_0000;
    assert v == x + (t + u) * 0x1_0000_0000_0000_0000;
    assert x == x + 0 * 0x1_0000_0000_0000_0000;
  }

  /** `(x / y) * y + x % y` is `x`. */
  lemma QuotientAndRemainder(c: Ctx, fuel: nat, x: int, y: int, st: St)
    requires fuel >= 4 && InRange(x) && y != 0
    ensures var e := Infix(Plus, Infix(Times, Infix(Divide, Num(x), Num(y)), Num(y)), Infix(Modulo, Num(x), Num(y)));
            Gives(c, fuel, e, st, VInt(x), st)
  {
    hide Gives, InRange, Congruent, Divides;
    var q := LiteralOperation(c, fuel - 2, Divide, x, y, st);
    var r := LiteralOperation(c, fuel - 1, Modulo, x, y, st);
    Literals(c, fuel - 2, y, true, "", st);
    var p := IntegerOperation(c, fuel - 2, Times, Infix(Divide, Num(x), Num(y)), Num(y), q.n, y, st, st, st);
    var left := Infix(Times, Infix(Divide, Num(x), Num(y)), Num(y));
    var v := IntegerOperation(c, fuel - 1, Plus, left, Infix(Modulo, Num(x), Num(y)), p.n, r.n, st, st, st);
    QuotientBack(x, y, q.n, p.n, r.n, v.n);
    CongruentOnce(v.n, x, x);
  }

  lemma QuotientBack(x: int, y: int, q: int, p: int, r: int, v: int)
    requires y != 0
    requires exists k, l :: Divides(x, y, k, l) && Congruent(q, k)
    requires exists k, l :: Divides(x, y, k, l) && r == l
    requires Congruent(p, q * y) && Congruent(v, p + r)
    ensures Congruent(v, x) && Congruent(x, x)
  {
    var k: int, l: int :| Divides(x, y, k, l) && Congruent(q, k);
    var k': int, l': int :| Divides(x, y, k', l') && r == l';
    QuotientUnique(x, y, k, l, k', l');
    var a: int :| q == k + a * 0x1_0000_0000_0000_0000;
    var b: int :| p == q * y + b * 0x1_0000_0000_0000_0000;
    var d: int :| v == p + r + d * 0x1_0000_0000_0000_0000;
    Distributes(k, a, y);
    assert v == x + (a * y + b + d) * 0x1_0000_0000_0000_0000;
    assert x == x + 0 * 0x1_0000_0000_0000_0000;
  }

  lemma Distributes(k: int, a: int, y: int)
    ensures (k + a * 0x1_0000_0000_0000_0000) * y == k * y + (a * y) * 0x1_0000_0000_0000_0000
  {
  }

  /** Exactly one of `<`, `==` and `>` holds. */
  lemma Trichotomy(c: Ctx, fuel: nat, x: int, y: int, st: St) returns (l: bool, e: bool, g: bool)
    requires fuel >= 2
    ensures Gives(c, fuel, Infix(Less, Num(x), Num(y)), st, VBool(l), st)
    ensures Gives(c, fuel, Infix(Equal, Num(x), Num(y)), st, VBool(e), st)
    ensures Gives(c, fuel, Infix(Greater, Num(x), Num(y)), st, VBool(g), st)
    ensures (if l then 1 else 0) + (if e then 1 else 0) + (if g then 1 else 0) == 1
  {
    hide Gives;
    var v := LiteralOperation(c, fuel, Less, x, y, st);
    var w := LiteralOperation(c, fuel, Equal, x, y, st);
    var u := LiteralOperation(c, fuel, Greater, x, y, st);
    l, e, g := v.b, w.b, u.b;
  }

  // ---------- scopes ----------

  lemma {:induction false} NearestGrown(frames: seq<Frame>, more: seq<Frame>, i: nat, name: string, k: nat)
    requires i < |frames|
    ensures NearestAt(frames + more, i, name, k) <==> NearestAt(frames, i, name, k)
    decreases i
  {
    assert (frames + more)[i] == frames[i];
    if name !in frames[i].vars && frames[i].outer < i { NearestGrown(frames, more, frames[i].outer, name, k); }
  }

  /** A scope opened inside sees its own names and else what the outer one sees. */
  lemma NearestOpened(st: St, vars: map<string, Value>, name: string, k: nat)
    requires st.env < |st.frames|
    ensures name in vars ==> NearestAt(Opened(st, vars).frames, Opened(st, vars).env, name, |st.frames|)
    ensures name !in vars ==> (NearestAt(Opened(st, vars).frames, Opened(st, vars).env, name, k)
                               <==> NearestAt(st.frames, st.env, name, k))
  {
    NearestGrown(st.frames, [Frame(vars, st.env)], st.env, name, k);
  }

  function Bound(st: St, name: string, v: Value): St
    requires st.env < |st.frames|
  {
    var f := st.frames[st.env];
    St(st.frames[st.env := Frame(f.vars[name := v], f.outer)], st.env, st.handlers, st.caps, st.tick)
  }

  /** What is let in a scope is what its name gives there. */
  lemma LetThenName(c: Ctx, fuel: nat, name: string, e: Expr, v: Value, st: St, st1: St)
    requires fuel >= 1 && name !in c.effects && !v.VReturn? && !v.VBreak? && !v.VContinue?
    requires st1.env < |st1.frames| && Gives(c, fuel, e, st, v, st1)
    ensures EvalStmts(c, fuel, [Let(name, e), Do(Name(name))], VNil, st) == Done(v, Bound(st1, name, v))
  {
    var after := Bound(st1, name, v);
    Statements(c, fuel, e, name, v, st, st1);
    assert NearestAt(after.frames, after.env, name, after.env);
    NameValue(c, fuel, name, after, v);
    Statements(c, fuel, Name(name), name, v, after, after);
    var stmts := [Let(name, e), Do(Name(name))];
    Sequence(c, fuel, stmts, VNil, v, st, after);
    assert stmts[1..] == [Do(Name(name))] && stmts[1..][1..] == [];
    Sequence(c, fuel, stmts[1..], v, v, after, after);
    Sequence(c, fuel, [], v, v, after, after);
    hide Gives, EvalStmts, EvalStmt, NearestAt;
  }

  /** A `let` in an inner block does not touch the outer name. */
  lemma InnerLet(c: Ctx, fuel: nat, name: string, n: int, st: St, v: Value) returns (st1: St)
    requires fuel >= 2 && st.env < |st.frames| && name !in c.effects
    requires Gives(c, fuel, Name(name), st, v, st)
    ensures Gives(c, fuel, Block([Let(name, Num(n))]), st, VInt(n), st1) && st1.env == st.env
    ensures Gives(c, fuel, Name(name), st1, v, st1)
  {
    var inner := Opened(st, map[]);
    Literals(c, fuel - 1, n, true, "", inner);
    Statements(c, fuel - 1, Num(n), name, VInt(n), inner, inner);
    var after := Bound(inner, name, VInt(n));
    var stmts := [Let(name, Num(n))];
    assert stmts[1..] == [];
    Sequence(c, fuel - 1, stmts, VNil, VInt(n), inner, after);
    Sequence(c, fuel - 1, [], VInt(n), VNil, after, after);
    assert EvalStmts(c, fuel - 1, stmts, VNil, inner) == Done(VInt(n), after);
    Blocks(c, fuel - 1, stmts, VInt(n), st, after);
    st1 := At(after, st.env);
    assert st1.frames == st.frames + [st1.frames[|st.frames|]];
    hide Gives, EvalStmts, EvalStmt, Opened, Bound;
    NameGrown(c, fuel, name, v, st, st1);
  }

  lemma NameGrown(c: Ctx, fuel: nat, name: string, v: Value, st: St, st1: St)
    requires fuel >= 1 && Gives(c, fuel, Name(name), st, v, st)
    requires st.env < |st.frames| && st1.env == st.env && |st1.frames| >= |st.frames|
    requires st1.frames[..|st.frames|] == st.frames
    ensures Gives(c, fuel, Name(name), st1, v, st1)
  {
    var more := st1.frames[|st.frames|..];
    assert st1.frames == st.frames + more;
    GetGrown(st.frames, more, st.env, name);
    hide Get;
  }

  lemma {:induction false} GetGrown(frames: seq<Frame>, more: seq<Frame>, i: nat, name: string)
    requires i < |frames|
    ensures Get(frames + more, i, name) == Get(frames, i, name)
    decreases i
  {
    assert (frames + more)[i] == frames[i];
    if name !in frames[i].vars && frames[i].outer < i { GetGrown(frames, more, frames[i].outer, name); }
  }

  // ---------- a loop that adds up ----------

  function Sum(ns: seq<int>): int {
    if |ns| == 0 then 0 else ns[0] + Sum(ns[1..])
  }

  predicate AllInts(vs: seq<Value>, ns: seq<int>) {
    |vs| == |ns| && forall k :: 0 <= k < |vs| ==> vs[k] == VInt(ns[k])
  }

  /** The name `s` is nearest in frame `k` and holds the number `n`. */
  predicate Holds(st: St, s: string, k: nat, n: int) {
    st.env < |st.frames| && NearestAt(st.frames, st.env, s, k) && k < |st.frames|
    && s in st.frames[k].vars && st.frames[k].vars[s] == VInt(n)
  }

  /** `for x in ns { s += x }` adds the numbers to `s`, every one once. */
  lemma {:induction false} LoopAddsUp(c: Ctx, fuel: nat, x: string, s: string, vs: seq<Value>, ns: seq<int>,
      last: Value, k: nat, n: int, st: St) returns (v: Value, st1: St, total: int)
    requires fuel >= 2 && x != s && x != "_" && x !in c.effects && InRange(n)
    requires AllInts(vs, ns) && Holds(st, s, k, n)
    ensures EvalFor(c, fuel, x, vs, [Do(Assign(s, AddTo, Name(x)))], last, st) == Done(v, st1)
    ensures Holds(st1, s, k, total) && InRange(total) && Congruent(total, n + Sum(ns))
    decreases |vs|
  {
    hide EvalFor, Holds, Gives, InRange, Congruent;
    if |vs| == 0 {
      TurnsDone(c, fuel, x, [Do(Assign(s, AddTo, Name(x)))], last, st);
      v, st1, total := last, st, n;
      CongruentSelf(n);
    } else {
      var st2, m := AddTurn(c, fuel, x, s, ns[0], k, n, st);
      Turns(c, fuel, x, vs, [Do(Assign(s, AddTo, Name(x)))], last, VInt(ns[0]), st, st2);
      v, st1, total := LoopAddsUp(c, fuel, x, s, vs[1..], ns[1..], VInt(ns[0]), k, m, At(st2, st.env));
      CongruentSum(total, m, n, ns[0], Sum(ns[1..]));
    }
  }

  lemma CongruentSelf(n: int)
    ensures Congruent(n, n + 0)
  {
    assert n == n + 0 * 0x1_0000_0000_0000_0000;
  }

  lemma CongruentSum(total: int, m: int, n: int, x: int, rest: int)
    requires Congruent(total, m + rest) && Congruent(m, n + x)
    ensures Congruent(total, n + (x + rest))
  {
    var t: int :| total == m + rest + t * 0x1_0000_0000_0000_0000;
    var u: int :| m == n + x + u * 0x1_0000_0000_0000_0000;
    assert total == n + (x + rest) + (t + u) * 0x1_0000_0000_0000_0000;
  }

  /** One turn of it. */
  lemma AddTurn(c: Ctx, fuel: nat, x: string, s: string, a: int, k: nat, n: int, st: St) returns (st2: St, m: int)
    requires fuel >= 2 && x != s && x != "_" && x !in c.effects && Holds(st, s, k, n)
    ensures InRange(m) && Congruent(m, n + a)
    ensures EvalStmts(c, fuel, [Do(Assign(s, AddTo, Name(x)))], VNil, Opened(st, map[x := VInt(a)]))
            == Done(VInt(a), st2)
    ensures Holds(At(st2, st.env), s, k, m)
  {
    var inner := Opened(st, map[x := VInt(a)]);
    m := Wrap64(n + a);
    WrapIs(n + a);
    NearestOpened(st, map[x := VInt(a)], x, k);
    NearestOpened(st, map[x := VInt(a)], s, k);
    NameValue(c, fuel - 1, x, inner, VInt(a));
    assert Gives(c, fuel - 1, Name(x), inner, VInt(a), inner);
    assert inner.frames[k] == st.frames[k];
    var f := inner.frames[k];
    st2 := St(inner.frames[k := Frame(f.vars[s := VInt(m)], f.outer)], inner.env, inner.handlers, inner.caps,
      inner.tick);
    Assignments(c, fuel - 1, s, AddTo, Name(x), VInt(a), VInt(m), k, inner, inner);
    OneStatement(c, fuel, Assign(s, AddTo, Name(x)), VInt(a), inner, st2);
    hide Gives, EvalStmts, Congruent, InRange, Wrap64;
    StillNearest(st, inner, st2, s, k);
  }

  lemma OneStatement(c: Ctx, fuel: nat, e: Expr, v: Value, st: St, st1: St)
    requires Gives(c, fuel, e, st, v, st1) && !v.VReturn? && !v.VBreak? && !v.VContinue?
    ensures EvalStmts(c, fuel, [Do(e)], VNil, st) == Done(v, st1)
  {
    Statements(c, fuel, e, "", v, st, st1);
    assert [Do(e)][1..] == [];
    Sequence(c, fuel, [Do(e)], VNil, v, st, st1);
    Sequence(c, fuel, [], v, v, st1, st1);
    hide Gives, EvalStmts, EvalStmt;
  }

  lemma StillNearest(st: St, inner: St, st2: St, s: string, k: nat)
    requires st.env < |st.frames| && k < |st.frames| && NearestAt(st.frames, st.env, s, k) && s in st.frames[k].vars
    requires |inner.frames| == |st.frames| + 1 && inner.frames[..|st.frames|] == st.frames
    requires |st2.frames| == |inner.frames| && s in st2.frames[k].vars && st2.frames[k].outer == inner.frames[k].outer
    requires forall i :: 0 <= i < |inner.frames| && i != k ==> st2.frames[i] == inner.frames[i]
    ensures NearestAt(st2.frames, st.env, s, k)
  {
    NearestSame(st.frames, st2.frames, st.env, s, k);
  }

  lemma {:induction false} NearestSame(a: seq<Frame>, b: seq<Frame>, i: nat, s: string, k: nat)
    requires |a| <= |b| && k < |a| && NearestAt(a, i, s, k) && s in b[k].vars && b[k].outer == a[k].outer
    requires forall j :: 0 <= j < |a| && j != k ==> b[j] == a[j]
    ensures NearestAt(b, i, s, k)
    decreases i
  {
    if i != k { NearestSame(a, b, a[i].outer, s, k); }
  }

  // ---------- functions and handlers ----------

  /** A function sees the scope it was written in, not the one it is called from: the
      body runs inside `env`, whatever the current scope is. */
  lemma CallWithoutArguments(c: Ctx, fuel: nat, f: string, body: seq<Stmt>, env: nat, v: Value, st: St, st1: St)
    requires fuel >= 1 && Gives(c, fuel, Name(f), st, VFn([], body, env), st)
    requires !v.VReturn? && !v.VBreak? && !v.VContinue?
    requires var inner := St(st.frames + [Frame(map[], env)], |st.frames|, st.handlers, st.caps, st.tick);
             EvalStmts(c, fuel, body, VNil, inner) == Done(v, st1)
    ensures Gives(c, fuel + 1, Call(Name(f), []), st, v, At(st1, st.env))
  {
    var bare := St(st.frames + [Frame(map[], env)], st.env, st.handlers, st.caps, st.tick);
    assert At(bare, |st.frames|) == St(st.frames + [Frame(map[], env)], |st.frames|, st.handlers, st.caps, st.tick);
    Binding(c, fuel, [], 0, [], |st.frames|, VNil, bare, bare);
    Functions(c, fuel, [], body, env, [], v, st, bare, st1);
    Calls(c, fuel, Name(f), [], VFn([], body, env), [], st, [st]);
    assert GivesAll(c, fuel, Values([]), [], [st]) by { assert Values([]) == []; }
    Invoked(c, fuel, VFn([], body, env), [], [], VNil, st);
    hide Gives, EvalStmts, CallFunction, Invoke;
  }

  /** Under two handlers for one effect the inner one answers; after it the outer. */
  lemma InnerHandlerAnswers(c: Ctx, fuel: nat, effect: string, outer: Value, inner: Value, member: string, st: St)
    requires fuel >= 2 && effect in c.effects
    ensures var both := St(st.frames, st.env, st.handlers + [Handler(effect, outer), Handler(effect, inner)], st.caps,
                           st.tick);
            Gives(c, fuel, Field(Name(effect), member), both, MemberOf(inner, member), both)
    ensures var one := St(st.frames, st.env, st.handlers + [Handler(effect, outer)], st.caps, st.tick);
            Gives(c, fuel, Field(Name(effect), member), one, MemberOf(outer, member), one)
  {
    var n := |st.handlers|;
    var both := St(st.frames, st.env, st.handlers + [Handler(effect, outer), Handler(effect, inner)], st.caps, st.tick);
    var one := St(st.frames, st.env, st.handlers + [Handler(effect, outer)], st.caps, st.tick);
    NameValue(c, fuel - 1, effect, both, VNamespace(effect));
    NameValue(c, fuel - 1, effect, one, VNamespace(effect));
    hide Gives, MemberOf;
    Members(c, fuel - 1, Name(effect), member, VNamespace(effect), n + 1, both, both);
    Members(c, fuel - 1, Name(effect), member, VNamespace(effect), n, one, one);
  }
}
