/** Where the effect checker does not protect the evaluator: for each shape
    the sound fragment leaves out, a program that passes the checker and still
    reaches an effect without a handler. */
module EffectLimits {
  import opened Options
  import opened EffectStack
  import opened Evaluation
  import opened Checking

  const DB := "DB"

  /** `DB.query()` */
  const QUERY := Call(Field(Name(DB), "query"), [])

  /** No functions yet called: an empty program under no handlers. */
  function Bare(frames: seq<Frame>): St {
    St(frames, 0, [], [], 0)
  }

  /** Looking up a namespace member panics exactly when nothing on the handler
      stack covers the effect. */
  lemma NamespaceAccess(c: Ctx, fuel: nat, ns: string, field: string, st: St)
    requires ns in c.effects && fuel > 0
    ensures EvalField(c, fuel, Name(ns), field, st) == Panics(NoHandler(ns)) <==> ns !in Names(st.handlers)
  {
    hide Names, FieldOf;
  }

  lemma QueryPanics(c: Ctx, fuel: nat, frames: seq<Frame>, env: nat)
    requires DB in c.effects && DB !in c.tools && fuel >= 4
    ensures Eval(c, fuel, QUERY, St(frames, env, [], [], 0)) == Panics(NoHandler(DB))
  {
    MemberPanics(c, fuel, DB, "query", frames, env);
  }

  lemma MemberPanics(c: Ctx, fuel: nat, ns: string, field: string, frames: seq<Frame>, env: nat)
    requires ns in c.effects && ns !in c.tools && fuel >= 4
    ensures Eval(c, fuel, Call(Field(Name(ns), field), []), St(frames, env, [], [], 0)) == Panics(NoHandler(ns))
  {
    var st := St(frames, env, [], [], 0);
    assert Eval(c, fuel - 2, Name(ns), st) == Done(VNamespace(ns), st);
    NamespaceAccess(c, fuel - 2, ns, field, st);
    assert Eval(c, fuel - 1, Field(Name(ns), field), st) == EvalField(c, fuel - 2, Name(ns), field, st);
    assert Names(st.handlers) == {};
  }

  /** A single statement whose evaluation panics. */
  lemma BodyPanics(c: Ctx, fuel: nat, e: Expr, st: St)
    requires Eval(c, fuel, e, st).Panics?
    ensures EvalStmts(c, fuel, [Do(e)], VNil, st) == Eval(c, fuel, e, st)
  {
    hide Eval;
    assert EvalStmt(c, fuel, Do(e), st) == Eval(c, fuel, e, st);
  }

  /** A function of one statement that raises no error and uses what the
      function declares. */
  lemma OnlyStatement(k: Known, e: Expr, fn: FnDecl)
    requires fn.body == [Do(e)]
    ensures var r := Scan(k, e, Entry(k, fn), {}); Passes(k, fn) <==> r.errors == [] && r.used == Set(fn.effects)
  {
    hide Scan, Entry;
    var r := Scan(k, e, Entry(k, fn), {});
    assert ScanStmts(k, [Do(e)], Entry(k, fn), {}) == Join(r, NOTHING);
    assert Join(r, NOTHING) == r;
  }

  lemma RunPanics(c: Ctx, fuel: nat, body: seq<Stmt>, frames: seq<Frame>)
    requires EvalStmts(c, fuel, body, VNil, St(frames + [Frame(map[], 0)], |frames|, [], [], 0)).Panics?
    ensures CallFunction(c, fuel, [], body, 0, [], Bare(frames))
            == EvalStmts(c, fuel, body, VNil, St(frames + [Frame(map[], 0)], |frames|, [], [], 0))
  {
    hide EvalStmts;
    var st := Bare(frames).(frames := frames + [Frame(map[], 0)]);
    assert BindParams(c, fuel, [], 0, [], |frames|, st) == Done((), st);
    assert st.(env := |frames|) == St(frames + [Frame(map[], 0)], |frames|, [], [], 0);
  }

  /** Naming a namespace member without calling it is not recorded. */
  lemma UncalledMember(c: Ctx, k: Known, fuel: nat, frames: seq<Frame>)
    requires DB in k.effects && DB in c.effects && fuel >= 3
    ensures var f := FnDecl("f", [], [], [Do(Field(Name(DB), "query"))]);
            Passes(k, f) && CallFunction(c, fuel, [], f.body, 0, [], Bare(frames)) == Panics(NoHandler(DB))
  {
    var e := Field(Name(DB), "query");
    var st := St(frames + [Frame(map[], 0)], |frames|, [], [], 0);
    assert Scan(k, e, Entry(k, FnDecl("f", [], [], [Do(e)])), {}) == NOTHING;
    OnlyStatement(k, e, FnDecl("f", [], [], [Do(e)]));
    hide Scan, ScanStmts, Entry;
    NamespaceAccess(c, fuel - 1, DB, "query", st);
    assert Names(st.handlers) == {};
    assert Eval(c, fuel, e, st) == Panics(NoHandler(DB));
    BodyPanics(c, fuel, e, st);
    RunPanics(c, fuel, [Do(e)], frames);
  }

  /** Effects of a default value are not recorded, and a call without the
      argument evaluates it. */
  lemma DefaultValue(c: Ctx, k: Known, fuel: nat, frames: seq<Frame>)
    requires DB in c.effects && DB !in c.tools && fuel >= 4
    ensures var f := FnDecl("f", [Param("x", Some(QUERY))], [], []);
            Passes(k, f) && CallFunction(c, fuel, f.params, f.body, 0, [], Bare(frames)) == Panics(NoHandler(DB))
  {
    var p := Param("x", Some(QUERY));
    var st := Bare(frames).(frames := frames + [Frame(map[], 0)]);
    QueryPanics(c, fuel, st.frames, 0);
    hide Eval;
    assert BindParam(c, fuel, p, 0, [], st) == Panics(NoHandler(DB));
    hide BindParam;
    assert BindParams(c, fuel, [p], 0, [], |frames|, st) == Panics(NoHandler(DB));
  }

  /** The callee of a call is looked at only when it is a name or a member. */
  lemma ComputedCallee(c: Ctx, k: Known, fuel: nat, frames: seq<Frame>)
    requires DB in c.effects && DB !in c.tools && fuel >= 6
    ensures var f := FnDecl("f", [], [], [Do(Call(Try(QUERY), []))]);
            Passes(k, f) && CallFunction(c, fuel, [], f.body, 0, [], Bare(frames)) == Panics(NoHandler(DB))
  {
    var e := Call(Try(QUERY), []);
    var st := St(frames + [Frame(map[], 0)], |frames|, [], [], 0);
    assert Scan(k, e, Entry(k, FnDecl("f", [], [], [Do(e)])), {}) == NOTHING;
    OnlyStatement(k, e, FnDecl("f", [], [], [Do(e)]));
    hide Scan, ScanStmts, Entry;
    QueryPanics(c, fuel - 2, st.frames, |frames|);
    assert Eval(c, fuel - 1, Try(QUERY), st) == Panics(NoHandler(DB));
    assert Eval(c, fuel, e, st) == EvalCall(c, fuel - 1, Try(QUERY), [], st);
    BodyPanics(c, fuel, e, st);
    RunPanics(c, fuel, [Do(e)], frames);
  }

  /** A function under another name: `let g = q; g()`, where `q` declares the
      effect, uses nothing as far as the checker can see.  It passes exactly
      when the name alone is accepted: it begins with a capital, or the top
      level binds it too. */
  lemma RenamedFunction(c: Ctx, k: Known, fuel: nat, q: string, g: string)
    requires DB in k.effects && k.effects <= c.effects && DB !in c.tools && fuel >= 8
    requires q !in c.effects && g !in c.effects && q != g
    requires k.fns == map[q := FnDecl(q, [], [DB], [Do(QUERY)])]
    ensures var f := FnDecl("f", [], [], [Let(g, Name(q)), Do(Call(Name(g), []))]);
            var frames := [Frame(map[q := VFn([], [Do(QUERY)], 0)], 0)];
            && Passes(k, k.fns[q]) && (Passes(k, f) <==> IsUpper(q) || q in k.globals)
            && CallFunction(c, fuel, [], f.body, 0, [], Bare(frames)) == Panics(NoHandler(DB))
  {
    RenamedPasses(k, q, g);
    var v := VFn([], [Do(QUERY)], 0);
    var frames := [Frame(map[q := v], 0)];
    var st := St(frames + [Frame(map[], 0)], 1, [], [], 0);
    var st1 := St(frames + [Frame(map[g := v], 0)], 1, [], [], 0);
    var call := Call(Name(g), []);
    hide Passes, QUERY;
    assert EvalStmt(c, fuel, Let(g, Name(q)), st) == Done(v, st1) by { RenamedLet(c, fuel, q, g); }
    assert Eval(c, fuel, call, st1) == Panics(NoHandler(DB)) by { RenamedCall(c, fuel, q, g); }
    hide Eval, EvalStmt;
    var body := [Let(g, Name(q)), Do(call)];
    assert body[1..] == [Do(call)];
    BodyPanics(c, fuel, call, st1);
    TailPanics(c, fuel, call, v, st1);
    assert EvalStmts(c, fuel, body, VNil, st) == EvalStmts(c, fuel, body[1..], v, st1);
    RunPanics(c, fuel, body, frames);
  }

  lemma TailPanics(c: Ctx, fuel: nat, e: Expr, last: Value, st: St)
    requires Eval(c, fuel, e, st).Panics?
    ensures EvalStmts(c, fuel, [Do(e)], last, st) == Eval(c, fuel, e, st)
  {
    hide Eval;
    assert EvalStmt(c, fuel, Do(e), st) == Eval(c, fuel, e, st);
  }

  lemma RenamedPasses(k: Known, q: string, g: string)
    requires DB in k.effects && k.fns == map[q := FnDecl(q, [], [DB], [Do(QUERY)])] && q != g && q !in k.effects
    ensures Passes(k, k.fns[q])
    ensures Passes(k, FnDecl("f", [], [], [Let(g, Name(q)), Do(Call(Name(g), []))]))
            <==> IsUpper(q) || q in k.globals
  {
    QueryUses(k, Entry(k, k.fns[q]), {});
    OnlyStatement(k, QUERY, k.fns[q]);
    assert Set([DB]) == {DB};
    assert Set([]) == {};
    RenamedUses(k, q, g);
  }

  lemma QueryUses(k: Known, s: Scope, h: set<string>)
    requires DB in k.effects
    ensures Scan(k, QUERY, s, h) == Report({DB} - h, [])
  {
    assert ScanArgs(k, [], s, h) == NOTHING;
    assert Scan(k, Name(DB), s, h) == NOTHING;
    assert ScanCallee(k, Field(Name(DB), "query"), s, h) == Report({DB} - h, []);
  }

  lemma RenamedUses(k: Known, q: string, g: string)
    requires g !in k.fns && q !in k.effects
    ensures var fn := FnDecl("f", [], [], [Let(g, Name(q)), Do(Call(Name(g), []))]);
            ScanStmts(k, fn.body, Entry(k, fn), {})
            == if IsUpper(q) || q in k.globals then NOTHING else Report({}, [Undefined(q)])
  {
    var call := Call(Name(g), []);
    var fn := FnDecl("f", [], [], [Let(g, Name(q)), Do(call)]);
    var s := Entry(k, fn);
    EntryAlone(k, fn);
    var first := ScanStmt(k, fn.body[0], s, {});
    assert Scan(k, Name(q), s, {}) == ScanName(k, q, s);
    assert first == ScanName(k, q, s);
    hide Entry, Lookup;
    var after := AfterStmt(s, fn.body[0]);
    assert ScanCallee(k, Name(g), after, {}) == NOTHING;
    assert Scan(k, call, after, {}) == NOTHING;
    hide Scan, AfterStmt;
    assert ScanStmts(k, [Do(call)], after, {}) == NOTHING;
    assert fn.body[1..] == [Do(call)];
    assert Join(first, NOTHING) == first;
  }

  /** A function without parameters starts with the bindings of the top level. */
  lemma EntryAlone(k: Known, fn: FnDecl)
    requires fn.params == []
    ensures Entry(k, fn) == [k.globals, map[]]
    ensures forall x :: Lookup(Entry(k, fn), x).Some? <==> x in k.globals
    ensures forall x :: !DeclaredHere(Entry(k, fn), x)
  {
    var s := [k.globals, map[]];
    forall x ensures Lookup(s, x).Some? <==> x in k.globals {
      assert x !in s[1] && s[..|s| - 1] == [k.globals];
      var t: Scope := [k.globals];
      assert Lookup(s, x) == Lookup(t, x);
      assert Lookup(t, x) == if x in t[0] then Some(t[0][x]) else Lookup(t[..0], x);
    }
  }

  lemma RenamedLet(c: Ctx, fuel: nat, q: string, g: string)
    requires q !in c.effects && fuel > 0 && q != g
    ensures var v := VFn([], [Do(QUERY)], 0);
            var frames := [Frame(map[q := v], 0)];
            EvalStmt(c, fuel, Let(g, Name(q)), St(frames + [Frame(map[], 0)], 1, [], [], 0))
            == Done(v, St(frames + [Frame(map[g := v], 0)], 1, [], [], 0))
  {
    var v := VFn([], [Do(QUERY)], 0);
    var fs := [Frame(map[q := v], 0)] + [Frame(map[], 0)];
    assert fs[0].vars == map[q := v] && fs[1].vars == map[];
    assert Get(fs, 0, q) == Some(v);
    assert Get(fs, 1, q) == Some(v);
    var st := St(fs, 1, [], [], 0);
    assert Eval(c, fuel, Name(q), st) == Done(v, st);
    assert SetVar(fs, 1, g, v) == [Frame(map[q := v], 0)] + [Frame(map[g := v], 0)];
  }

  lemma RenamedCall(c: Ctx, fuel: nat, q: string, g: string)
    requires DB in c.effects && g !in c.effects && DB !in c.tools && fuel >= 8 && q != g
    ensures var v := VFn([], [Do(QUERY)], 0);
            Eval(c, fuel, Call(Name(g), []), St([Frame(map[q := v], 0)] + [Frame(map[g := v], 0)], 1, [], [], 0))
            == Panics(NoHandler(DB))
  {
    var v := VFn([], [Do(QUERY)], 0);
    var fs := [Frame(map[q := v], 0)] + [Frame(map[g := v], 0)];
    assert Get(fs, 1, g) == Some(v);
    hide Eval;
    BoundCall(c, fuel, fs, 1, g, 0);
  }

  /** Calling, under no handlers, a name bound to a function that queries. */
  lemma BoundCall(c: Ctx, fuel: nat, fs: seq<Frame>, env: nat, g: string, scope: nat)
    requires DB in c.effects && g !in c.effects && DB !in c.tools && fuel >= 8
    requires Get(fs, env, g) == Some(VFn([], [Do(QUERY)], scope))
    ensures Eval(c, fuel, Call(Name(g), []), St(fs, env, [], [], 0)) == Panics(NoHandler(DB))
  {
    var q := VFn([], [Do(QUERY)], scope);
    var st := St(fs, env, [], [], 0);
    assert Eval(c, fuel - 1, Name(g), st) == Done(q, st) by { hide Get; }
    QueryPanics(c, fuel - 1, fs + [Frame(map[], scope)], |fs|);
    hide Eval, Get;
    assert EvalAll(c, fuel - 1, [], st) == Done([], st);
    var st0 := st.(frames := fs + [Frame(map[], scope)]);
    BodyPanics(c, fuel - 1, QUERY, st0.(env := |fs|));
    hide EvalStmts;
    assert BindParams(c, fuel - 1, [], 0, [], |fs|, st0) == Done((), st0);
    assert CallFunction(c, fuel - 1, [], [Do(QUERY)], scope, [], st) == Panics(NoHandler(DB));
    hide CallFunction;
    assert ArgValues([]) == [];
    assert EvalCall(c, fuel - 1, Name(g), [], st) == Panics(NoHandler(DB));
    hide EvalCall;
    CallUnfolds(c, fuel, Name(g), [], st);
  }

  lemma CallUnfolds(c: Ctx, fuel: nat, callee: Expr, args: seq<Arg>, st: St)
    requires fuel > 0
    ensures Eval(c, fuel, Call(callee, args), st) == EvalCall(c, fuel - 1, callee, args, st)
  {
    hide EvalCall;
  }

  // ---------- a function value that outlives its handler ----------

  /** `handle DB with nil { fn() { DB.query() } }` */
  const ESCAPING := Handle(DB, Nil, [Do(Lambda([], [Do(QUERY)]))])

  /** The handler covers the lambda where it is written, but the lambda can be
      called outside; the same happens under the name of a function that
      declares no effect, which the local binding shadows. */
  lemma EscapingLambda(c: Ctx, k: Known, fuel: nat, g: string, global: Frame)
    requires DB in k.effects && DB in c.effects && g !in c.effects && DB !in c.tools && fuel >= 8 && global.outer == 0
    requires g in k.fns ==> k.fns[g].effects == []
    ensures var f := FnDecl("f", [], [], [Let(g, ESCAPING), Do(Call(Name(g), []))]);
            Passes(k, f) && CallFunction(c, fuel, [], f.body, 0, [], Bare([global])) == Panics(NoHandler(DB))
  {
    var call := Call(Name(g), []);
    var body := [Let(g, ESCAPING), Do(call)];
    var v := VFn([], [Do(QUERY)], 2);
    var st := St([global] + [Frame(map[], 0)], 1, [], [], 0);
    var fs := [global, Frame(map[g := v], 0), Frame(map[], 1)];
    var st1 := St(fs, 1, [], [], 0);
    EscapingUses(k, g);
    assert Set([]) == {};
    hide Passes, Scan, ScanStmts, ESCAPING;
    EscapingLet(c, fuel, g, global);
    assert Get(fs, 1, g) == Some(v);
    hide EvalStmt, Eval, Get;
    BoundCall(c, fuel, fs, 1, g, 2);
    TailPanics(c, fuel, call, v, st1);
    assert body[1..] == [Do(call)];
    assert EvalStmts(c, fuel, body, VNil, st) == EvalStmts(c, fuel, body[1..], v, st1);
    hide EvalStmts;
    RunPanics(c, fuel, body, [global]);
  }

  lemma EscapingUses(k: Known, g: string)
    requires DB in k.effects && (g in k.fns ==> k.fns[g].effects == [])
    ensures var fn := FnDecl("f", [], [], [Let(g, ESCAPING), Do(Call(Name(g), []))]);
            ScanStmts(k, fn.body, Entry(k, fn), {}) == NOTHING
  {
    var call := Call(Name(g), []);
    var fn := FnDecl("f", [], [], [Let(g, ESCAPING), Do(call)]);
    var s := Entry(k, fn);
    EntryAlone(k, fn);
    HandledQuery(k, Inner(s));
    assert Scan(k, ESCAPING, s, {}) == NOTHING;
    assert ScanStmt(k, fn.body[0], s, {}) == NOTHING;
    hide Entry;
    var after := AfterStmt(s, fn.body[0]);
    assert Set([]) == {};
    assert ScanCallee(k, Name(g), after, {}) == NOTHING;
    assert Scan(k, call, after, {}) == NOTHING;
    hide Scan, AfterStmt;
    assert ScanStmts(k, [Do(call)], after, {}) == NOTHING;
    assert fn.body[1..] == [Do(call)];
  }

  lemma HandledQuery(k: Known, s: Scope)
    requires DB in k.effects && |s| > 0
    ensures ScanStmts(k, [Do(Lambda([], [Do(QUERY)]))], s, {} + {DB}) == NOTHING
  {
    var h := {} + {DB};
    var inner := Inner(s);
    QueryUses(k, inner, h);
    assert Report({DB} - h, []) == NOTHING;
    assert ScanStmts(k, [Do(QUERY)], inner, h) == NOTHING;
    assert Scan(k, Lambda([], [Do(QUERY)]), s, h) == NOTHING;
  }

  lemma EscapingLet(c: Ctx, fuel: nat, g: string, global: Frame)
    requires fuel >= 8
    ensures var v := VFn([], [Do(QUERY)], 2);
            EvalStmt(c, fuel, Let(g, ESCAPING), St([global] + [Frame(map[], 0)], 1, [], [], 0))
            == Done(v, St([global, Frame(map[g := v], 0), Frame(map[], 1)], 1, [], [], 0))
  {
    var v := VFn([], [Do(QUERY)], 2);
    var fs := [global] + [Frame(map[], 0)];
    var st := St(fs, 1, [], [], 0);
    var pushed := St(fs, 1, [Handler(DB, VNil)], [], 0);
    var after := [global, Frame(map[], 0), Frame(map[], 1)];
    LambdaScoped(c, fuel - 1, pushed);
    assert fs + [Frame(map[], 1)] == after;
    assert Eval(c, fuel - 1, Nil, st) == Done(VNil, st);
    assert [] + [Handler(DB, VNil)] == [Handler(DB, VNil)];
    hide EvalScoped, EvalStmts;
    assert EvalHandle(c, fuel - 1, DB, Nil, [Do(Lambda([], [Do(QUERY)]))], st) == Done(v, St(after, 1, [], [], 0));
    hide EvalHandle;
    assert Eval(c, fuel, ESCAPING, st) == Done(v, St(after, 1, [], [], 0));
    hide Eval;
    assert SetVar(after, 1, g, v) == [global, Frame(map[g := v], 0), Frame(map[], 1)];
  }

  /** A block that is just a lambda: its value is bound to the block's scope. */
  lemma LambdaScoped(c: Ctx, fuel: nat, st: St)
    requires fuel >= 2
    ensures EvalScoped(c, fuel, [Do(Lambda([], [Do(QUERY)]))], map[], st)
            == Done(VFn([], [Do(QUERY)], |st.frames|), st.(frames := st.frames + [Frame(map[], st.env)]))
  {
    hide QUERY;
    var v := VFn([], [Do(QUERY)], |st.frames|);
    var lambda := Lambda([], [Do(QUERY)]);
    var inner := Enclose(st, map[]);
    assert EvalStmt(c, fuel, Do(lambda), inner) == Done(v, inner);
    assert EvalStmts(c, fuel, [], v, inner) == Done(v, inner);
    assert [Do(lambda)][1..] == [];
    assert EvalStmts(c, fuel, [Do(lambda)], VNil, inner) == Done(v, inner);
  }

  // ---------- effects the checker does not know ----------

  /** The interpreter knows effects that the checker does not.  Calling one of
      those passes exactly when its name alone is accepted, and uses nothing as
      far as the checker can see. */
  lemma RuntimeOnlyEffect(c: Ctx, k: Known, fuel: nat, ns: string, field: string, frames: seq<Frame>)
    requires ns in c.effects && ns !in k.effects && ns !in c.tools && fuel >= 4
    ensures var f := FnDecl("f", [], [], [Do(Call(Field(Name(ns), field), []))]);
            && (Passes(k, f) <==> IsUpper(ns) || ns in k.globals)
            && CallFunction(c, fuel, [], f.body, 0, [], Bare(frames)) == Panics(NoHandler(ns))
  {
    var e := Call(Field(Name(ns), field), []);
    MemberUses(k, ns, field);
    OnlyStatement(k, e, FnDecl("f", [], [], [Do(e)]));
    assert Set([]) == {};
    hide Scan, ScanStmts, ScanCallee, Entry, Eval, EvalCall;
    var callee := frames + [Frame(map[], 0)];
    MemberPanics(c, fuel, ns, field, callee, |frames|);
    BodyPanics(c, fuel, e, St(callee, |frames|, [], [], 0));
    RunPanics(c, fuel, [Do(e)], frames);
  }

  // ---------- tools ----------

  /** The body of a tool is never looked at: the call passes exactly when the
      tool's name alone is accepted. */
  lemma ToolBody(c: Ctx, k: Known, fuel: nat, tool: string, frames: seq<Frame>)
    requires DB in c.effects && DB != tool && tool !in k.effects && fuel >= 6
    requires c.tools == map[tool := Tool("", [], [Do(QUERY)])]
    ensures var f := FnDecl("f", [], [], [Do(Call(Field(Name(tool), "run"), []))]);
            && (Passes(k, f) <==> IsUpper(tool) || tool in k.globals)
            && CallFunction(c, fuel, [], f.body, 0, [], Bare(frames)) == Panics(NoHandler(DB))
  {
    var e := Call(Field(Name(tool), "run"), []);
    var st := St(frames + [Frame(map[], 0)], |frames|, [], [], 0);
    MemberUses(k, tool, "run");
    OnlyStatement(k, e, FnDecl("f", [], [], [Do(e)]));
    assert Set([]) == {};
    hide Scan, ScanStmts, ScanCallee, Entry;
    ToolPanics(c, fuel - 1, tool, st);
    hide EvalCall;
    assert Eval(c, fuel, e, st) == EvalCall(c, fuel - 1, Field(Name(tool), "run"), [], st);
    BodyPanics(c, fuel, e, st);
    RunPanics(c, fuel, [Do(e)], frames);
  }

  /** A method call on a name that is no effect to the checker. */
  lemma MemberUses(k: Known, owner: string, field: string)
    requires owner !in k.effects
    ensures var e := Call(Field(Name(owner), field), []);
            Scan(k, e, Entry(k, FnDecl("f", [], [], [Do(e)])), {})
            == if IsUpper(owner) || owner in k.globals then NOTHING else Report({}, [Undefined(owner)])
  {
    var e := Call(Field(Name(owner), field), []);
    var fn := FnDecl("f", [], [], [Do(e)]);
    var s := Entry(k, fn);
    EntryAlone(k, fn);
    hide Entry, Lookup;
    var name := ScanName(k, owner, s);
    assert Scan(k, Name(owner), s, {}) == name;
    assert Join(name, NOTHING) == name;
    assert ScanCallee(k, Field(Name(owner), field), s, {}) == name;
    assert ScanArgs(k, [], s, {}) == NOTHING;
    assert Join(NOTHING, name) == name;
  }

  lemma ToolPanics(c: Ctx, fuel: nat, tool: string, st: St)
    requires DB in c.effects && tool != DB && fuel >= 5 && st.handlers == [] && st.caps == [] && st.tick == 0
    requires c.tools == map[tool := Tool("", [], [Do(QUERY)])]
    ensures EvalCall(c, fuel, Field(Name(tool), "run"), [], st) == Panics(NoHandler(DB))
  {
    var inputs := VObject("Input", map[]);
    var inner := Enclose(st, map["self" := VNil, "i" := inputs]);
    QueryPanics(c, fuel, inner.frames, inner.env);
    BodyPanics(c, fuel, QUERY, inner);
    hide Eval, EvalStmts;
    assert EvalInputs(c, fuel, [], 0, [], map[], st) == Done(map[], st);
    assert EvalScoped(c, fuel, [Do(QUERY)], map["self" := VNil, "i" := inputs], st) == Panics(NoHandler(DB));
    hide EvalScoped, EvalInputs;
    assert EvalTool(c, fuel, c.tools[tool], [], st) == Panics(NoHandler(DB));
  }
}
