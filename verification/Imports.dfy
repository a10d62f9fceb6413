/** Import resolution: a depth-first search memoised by the module cache, with
    a cycle test against the stack of files being loaded. */
module Imports {
  import opened Options

  type Path = string

  /** What an import statement resolves to: a file, or the listed entries of a
      directory, or a directory that cannot be listed. */
  datatype Target = File(path: Path) | Dir(entries: seq<Target>) | BadDir

  datatype Source = Unparsable | Source(imports: seq<Target>)

  /** Files by normalised path; a path without an entry cannot be read. */
  type Graph = map<Path, Source>

  datatype Error = NotFound(path: Path) | ParseError(path: Path) | Cycle(path: Path) | CannotRead

  /** `order` lists the cached modules in the order they were evaluated. */
  datatype Outcome = Outcome(order: seq<Path>, err: Option<Error>)

  ghost function Set(s: seq<Path>): set<Path> {
    set p | p in s
  }

  lemma FewerLeft(g: Graph, stack: seq<Path>, p: Path)
    requires p in g && p !in stack
    ensures |g.Keys - Set(stack + [p])| < |g.Keys - Set(stack)|
  {
    assert p in g.Keys - Set(stack);
    assert Set(stack + [p]) == Set(stack) + {p};
    assert g.Keys - Set(stack + [p]) == (g.Keys - Set(stack)) - {p};
  }

  ghost function Resolve(g: Graph, order: seq<Path>, stack: seq<Path>, t: Target): (r: Outcome)
    decreases |g.Keys - Set(stack)|, t
  {
    match t
    case BadDir => Outcome(order, Some(CannotRead))
    case Dir(entries) => ResolveAll(g, order, stack, entries)
    case File(p) =>
      if p in order then Outcome(order, None)
      else if p in stack then Outcome(order, Some(Cycle(p)))
      else if p !in g then Outcome(order, Some(NotFound(p)))
      else if g[p].Unparsable? then Outcome(order, Some(ParseError(p)))
      else
        FewerLeft(g, stack, p);
        var r := ResolveAll(g, order, stack + [p], g[p].imports);
        if r.err.None? then Outcome(r.order + [p], None) else r
  }

  ghost function ResolveAll(g: Graph, order: seq<Path>, stack: seq<Path>, ts: seq<Target>): (r: Outcome)
    decreases |g.Keys - Set(stack)|, ts
  {
    if |ts| == 0 then Outcome(order, None)
    else
      var r := Resolve(g, order, stack, ts[0]);
      if r.err.None? then ResolveAll(g, r.order, stack, ts[1..]) else r
  }

  // ---------- the objects ----------

  /** The cache shared by the interpreters of one program. */
  class ModuleCache {
    var order: seq<Path>

    constructor ()
      ensures order == []
    {
      order := [];
    }
  }

  /** One interpreter per file; children share the cache and start with their
      parent's import stack. */
  class Resolver {
    const cache: ModuleCache
    var importStack: seq<Path>

    constructor (cache: ModuleCache, importStack: seq<Path>)
      ensures this.cache == cache && this.importStack == importStack
    {
      this.cache, this.importStack := cache, importStack;
    }

    method ProcessImports(g: Graph, ts: seq<Target>) returns (err: Option<Error>)
      modifies this, cache
      ensures Outcome(cache.order, err) == ResolveAll(g, old(cache.order), old(importStack), ts)
      ensures importStack == old(importStack)
      decreases |g.Keys - Set(importStack)|, ts, 1
    {
      var i := 0;
      while i < |ts|
        invariant 0 <= i <= |ts| && importStack == old(importStack)
        invariant ResolveAll(g, cache.order, importStack, ts[i..])
                  == ResolveAll(g, old(cache.order), old(importStack), ts)
        decreases |ts| - i
      {
        assert ts[i..][1..] == ts[i + 1..];
        err := ResolveImport(g, ts[i]);
        if err.Some? {
          return;
        }
        i := i + 1;
      }
      err := None;
    }

    method ResolveImport(g: Graph, t: Target) returns (err: Option<Error>)
      modifies this, cache
      ensures Outcome(cache.order, err) == Resolve(g, old(cache.order), old(importStack), t)
      ensures importStack == old(importStack)
      decreases |g.Keys - Set(importStack)|, t, 1
    {
      match t
      case BadDir => err := Some(CannotRead);
      case Dir(entries) => err := ProcessImports(g, entries);
      case File(p) =>
        if p in cache.order { return None; }
        if p in importStack { return Some(Cycle(p)); }
        importStack := importStack + [p];
        assert importStack[..|importStack| - 1] == old(importStack);
        err := Load(g, p);
        importStack := importStack[..|importStack| - 1];
    }

    /** Read, parse, resolve the file's own imports with a child interpreter,
        then evaluate it. */
    method Load(g: Graph, p: Path) returns (err: Option<Error>)
      requires |importStack| > 0 && importStack[|importStack| - 1] == p
      requires p !in cache.order && p !in importStack[..|importStack| - 1]
      modifies this, cache
      ensures Outcome(cache.order, err)
              == Resolve(g, old(cache.order), old(importStack)[..|old(importStack)| - 1], File(p))
      ensures importStack == old(importStack)
      decreases |g.Keys - Set(importStack[..|importStack| - 1])|, File(p), 0
    {
      if p !in g { return Some(NotFound(p)); }
      if g[p].Unparsable? { return Some(ParseError(p)); }
      var child := new Resolver(cache, importStack);
      ghost var below := importStack[..|importStack| - 1];
      FewerLeft(g, below, p);
      assert below + [p] == importStack;
      err := child.ProcessImports(g, g[p].imports);
      if err.Some? { return; }
      cache.order := cache.order + [p];
    }
  }

  // ---------- the file graph ----------

  /** The files a list of imports stands for, directories spread out. */
  function Files(ts: seq<Target>): seq<Path> {
    if |ts| == 0 then [] else FilesOf(ts[0]) + Files(ts[1..])
  }

  function FilesOf(t: Target): seq<Path> {
    match t
    case File(p) => [p]
    case Dir(entries) => Files(entries)
    case BadDir => []
  }

  /** Every directory among the imports can be listed. */
  predicate Listable(ts: seq<Target>) {
    |ts| == 0 || (ListableOne(ts[0]) && Listable(ts[1..]))
  }

  predicate ListableOne(t: Target) {
    match t
    case File(_) => true
    case Dir(entries) => Listable(entries)
    case BadDir => false
  }

  predicate GoodFile(g: Graph, p: Path) {
    p in g && g[p].Source? && Listable(g[p].imports)
  }

  function Deps(g: Graph, p: Path): seq<Path> {
    if p in g && g[p].Source? then Files(g[p].imports) else []
  }

  /** A walk along imports. */
  predicate Walk(g: Graph, ps: seq<Path>) {
    |ps| > 0 && forall i :: 0 <= i < |ps| - 1 ==> ps[i + 1] in Deps(g, ps[i])
  }

  ghost predicate Reachable(g: Graph, roots: seq<Path>, p: Path) {
    exists ps :: Walk(g, ps) && ps[0] in roots && ps[|ps| - 1] == p
  }

  /** No file reachable from the roots imports itself, however indirectly. */
  ghost predicate Acyclic(g: Graph, roots: seq<Path>) {
    forall ps :: Walk(g, ps) && |ps| > 1 && Reachable(g, roots, ps[0]) ==> ps[0] != ps[|ps| - 1]
  }

  /** Everything reachable reads, parses and lists. */
  ghost predicate AllGood(g: Graph, ts: seq<Target>) {
    Listable(ts) && forall p :: Reachable(g, Files(ts), p) ==> GoodFile(g, p)
  }

  // ---------- what a finished order looks like ----------

  /** Each file once, good, and after all its imports. */
  predicate Topological(g: Graph, order: seq<Path>) {
    && (forall i, j :: 0 <= i < j < |order| ==> order[i] != order[j])
    && (forall i :: 0 <= i < |order| ==>
                      GoodFile(g, order[i]) && forall d :: d in Deps(g, order[i]) ==> d in order[..i])
  }

  lemma TopologicalAppend(g: Graph, order: seq<Path>, p: Path)
    requires Topological(g, order) && p !in order && GoodFile(g, p) && forall d :: d in Deps(g, p) ==> d in order
    ensures Topological(g, order + [p])
  {
    hide GoodFile, Deps;
    var r := order + [p];
    forall i | 0 <= i < |r| ensures GoodFile(g, r[i]) && forall d :: d in Deps(g, r[i]) ==> d in r[..i] {
      assert r[..i] == order[..i];
      if i == |order| { assert order[..i] == order; }
    }
  }

  predicate Apart(order: seq<Path>, stack: seq<Path>) {
    forall p :: p in order ==> p !in stack
  }

  /** On success the order has grown, stays topological and clear of the
      stack, and covers the target. */
  lemma {:induction false} ResolveSound(g: Graph, order: seq<Path>, stack: seq<Path>, t: Target)
    requires Topological(g, order) && Apart(order, stack) && Resolve(g, order, stack, t).err.None?
    ensures var r := Resolve(g, order, stack, t);
            && order <= r.order && Topological(g, r.order) && Apart(r.order, stack)
            && ListableOne(t) && forall p :: p in FilesOf(t) ==> p in r.order
    decreases |g.Keys - Set(stack)|, t
  {
    hide Topological;
    match t
    case Dir(entries) => ResolveAllSound(g, order, stack, entries);
    case File(p) =>
      if p !in order {
        FewerLeft(g, stack, p);
        ResolveAllSound(g, order, stack + [p], g[p].imports);
        TopologicalAppend(g, ResolveAll(g, order, stack + [p], g[p].imports).order, p);
      }
    case BadDir =>
  }

  lemma {:induction false} ResolveAllSound(g: Graph, order: seq<Path>, stack: seq<Path>, ts: seq<Target>)
    requires Topological(g, order) && Apart(order, stack) && ResolveAll(g, order, stack, ts).err.None?
    ensures var r := ResolveAll(g, order, stack, ts);
            && order <= r.order && Topological(g, r.order) && Apart(r.order, stack)
            && Listable(ts) && forall p :: p in Files(ts) ==> p in r.order
    decreases |g.Keys - Set(stack)|, ts
  {
    hide Topological, Apart, Resolve;
    if |ts| > 0 {
      ResolveSound(g, order, stack, ts[0]);
      ResolveAllSound(g, Resolve(g, order, stack, ts[0]).order, stack, ts[1..]);
    }
  }

  /** Walks from an evaluated file go backwards in the order. */
  lemma {:induction false} WalkDescends(g: Graph, order: seq<Path>, ps: seq<Path>, i: nat) returns (j: nat)
    requires Topological(g, order) && Walk(g, ps) && i < |order| && ps[0] == order[i]
    ensures j <= i && order[j] == ps[|ps| - 1] && (|ps| > 1 ==> j < i)
    decreases |ps|
  {
    hide GoodFile, Deps;
    if |ps| == 1 {
      j := i;
    } else {
      assert ps[1] in order[..i];
      var m :| 0 <= m < i && order[m] == ps[1];
      assert ps[1..][0] == ps[1] && ps[1..][|ps| - 2] == ps[|ps| - 1];
      assert Walk(g, ps[1..]) by {
        forall q | 0 <= q < |ps| - 2 ensures ps[1..][q + 1] in Deps(g, ps[1..][q]) {
          assert ps[q + 1 + 1] in Deps(g, ps[q + 1]);
        }
      }
      j := WalkDescends(g, order, ps[1..], m);
    }
  }

  /** When resolving succeeds everything reachable has been evaluated. */
  lemma ReachableEvaluated(g: Graph, ts: seq<Target>, order: seq<Path>, p: Path)
    requires Topological(g, order) && (forall q :: q in Files(ts) ==> q in order) && Reachable(g, Files(ts), p)
    ensures p in order
  {
    hide Topological, Files;
    var ps :| Walk(g, ps) && ps[0] in Files(ts) && ps[|ps| - 1] == p;
    var i :| 0 <= i < |order| && order[i] == ps[0];
    var j := WalkDescends(g, order, ps, i);
  }

  lemma TopologicalAcyclic(g: Graph, roots: seq<Path>, order: seq<Path>)
    requires Topological(g, order) && forall p :: Reachable(g, roots, p) ==> p in order
    ensures Acyclic(g, roots)
  {
    hide GoodFile, Deps, Walk, Reachable;
    forall ps | Walk(g, ps) && |ps| > 1 && Reachable(g, roots, ps[0]) ensures ps[0] != ps[|ps| - 1] {
      var i :| 0 <= i < |order| && order[i] == ps[0];
      var j := WalkDescends(g, order, ps, i);
      assert order[j] != order[i];
    }
  }

  // ---------- why resolving fails ----------

  /** The stack is a walk from a root. */
  predicate OnWalk(g: Graph, roots: seq<Path>, stack: seq<Path>) {
    |stack| == 0 || (Walk(g, stack) && stack[0] in roots)
  }

  /** These files are what the top of the stack imports. */
  predicate NextOf(g: Graph, roots: seq<Path>, stack: seq<Path>, files: seq<Path>) {
    forall p :: p in files ==> p in (if |stack| == 0 then roots else Deps(g, stack[|stack| - 1]))
  }

  lemma PushOnWalk(g: Graph, roots: seq<Path>, stack: seq<Path>, p: Path)
    requires OnWalk(g, roots, stack) && NextOf(g, roots, stack, [p])
    ensures OnWalk(g, roots, stack + [p]) && Reachable(g, roots, p)
  {
    hide Deps;
    var ps := stack + [p];
    assert p in [p];
    assert Walk(g, ps) && ps[0] in roots && ps[|ps| - 1] == p;
  }

  /** A file met again while it is being loaded closes a cycle. */
  ghost predicate OnCycle(g: Graph, roots: seq<Path>, p: Path) {
    exists ps :: Walk(g, ps) && |ps| > 1 && Reachable(g, roots, ps[0]) && ps[0] == p == ps[|ps| - 1]
  }

  lemma StackCycle(g: Graph, roots: seq<Path>, stack: seq<Path>, p: Path)
    requires OnWalk(g, roots, stack) && NextOf(g, roots, stack, [p]) && p in stack
    ensures OnCycle(g, roots, p)
  {
    hide Deps;
    var i :| 0 <= i < |stack| && stack[i] == p;
    PushOnWalk(g, roots, stack, p);
    var ps := stack[i..] + [p];
    forall k | 0 <= k < |ps| - 1 ensures ps[k + 1] in Deps(g, ps[k]) {
      assert (stack + [p])[i + k + 1] in Deps(g, (stack + [p])[i + k]);
    }
    assert ps[0] == p && ps[|ps| - 1] == p;
    assert Walk(g, ps);
    hide Walk, Reachable;
    assert OnCycle(g, roots, p);
  }

  /** What an error says about the graph. */
  ghost predicate Explained(g: Graph, roots: seq<Path>, err: Option<Error>) {
    match err
    case Some(NotFound(p)) => Reachable(g, roots, p) && p !in g
    case Some(ParseError(p)) => Reachable(g, roots, p) && p in g && g[p].Unparsable?
    case Some(Cycle(p)) => OnCycle(g, roots, p)
    case _ => true
  }

  /** Resolving evaluates only reachable files, names the true reason when it
      fails, and cannot report an unlistable directory when all can be listed. */
  lemma {:induction false} ResolveExplained(g: Graph, roots: seq<Path>, order: seq<Path>, stack: seq<Path>, t: Target)
    requires OnWalk(g, roots, stack) && NextOf(g, roots, stack, FilesOf(t))
    ensures var r := Resolve(g, order, stack, t);
            && Explained(g, roots, r.err) && (forall p :: p in r.order ==> p in order || Reachable(g, roots, p))
            && (r.err == Some(CannotRead) ==> !ListableOne(t) || exists p :: Reachable(g, roots, p) && !GoodFile(g, p))
    decreases |g.Keys - Set(stack)|, t
  {
    hide OnWalk, NextOf, Reachable, OnCycle;
    match t
    case Dir(entries) => ResolveAllExplained(g, roots, order, stack, entries);
    case File(p) =>
      if p in order {
      } else if p in stack {
        StackCycle(g, roots, stack, p);
      } else {
        PushOnWalk(g, roots, stack, p);
        if p in g && g[p].Source? {
          FewerLeft(g, stack, p);
          ImportsNext(g, roots, stack, p);
          ResolveAllExplained(g, roots, order, stack + [p], g[p].imports);
        }
      }
    case BadDir =>
  }

  lemma ImportsNext(g: Graph, roots: seq<Path>, stack: seq<Path>, p: Path)
    requires p in g && g[p].Source?
    ensures NextOf(g, roots, stack + [p], Files(g[p].imports))
  {
    hide Files;
  }

  lemma NextSplit(g: Graph, roots: seq<Path>, stack: seq<Path>, a: seq<Path>, b: seq<Path>)
    requires NextOf(g, roots, stack, a + b)
    ensures NextOf(g, roots, stack, a) && NextOf(g, roots, stack, b)
  {
    hide Deps;
    assert forall p :: p in a || p in b ==> p in a + b;
  }

  lemma {:induction false} ResolveAllExplained(g: Graph, roots: seq<Path>, order: seq<Path>, stack: seq<Path>,
      ts: seq<Target>)
    requires OnWalk(g, roots, stack) && NextOf(g, roots, stack, Files(ts))
    ensures var r := ResolveAll(g, order, stack, ts);
            && Explained(g, roots, r.err) && (forall p :: p in r.order ==> p in order || Reachable(g, roots, p))
            && (r.err == Some(CannotRead) ==> !Listable(ts) || exists p :: Reachable(g, roots, p) && !GoodFile(g, p))
    decreases |g.Keys - Set(stack)|, ts
  {
    hide OnWalk, Reachable, OnCycle, Resolve, Deps, GoodFile;
    if |ts| > 0 {
      NextSplit(g, roots, stack, FilesOf(ts[0]), Files(ts[1..]));
      ResolveExplained(g, roots, order, stack, ts[0]);
      var r := Resolve(g, order, stack, ts[0]);
      if r.err.None? { ResolveAllExplained(g, roots, r.order, stack, ts[1..]); }
    }
  }

  /** Resolving the imports of a program terminates, and succeeds exactly when
      every reachable file reads and parses, every directory lists, and the
      reachable graph is acyclic; then exactly the reachable files have been
      evaluated, each once and after everything it imports. */
  lemma ImportsTheorem(g: Graph, ts: seq<Target>)
    ensures var r := ResolveAll(g, [], [], ts);
            && (r.err.None? <==> AllGood(g, ts) && Acyclic(g, Files(ts)))
            && (r.err.None? ==> Topological(g, r.order) && forall p :: p in r.order <==> Reachable(g, Files(ts), p))
            && Explained(g, Files(ts), r.err)
  {
    var roots := Files(ts);
    var r := ResolveAll(g, [], [], ts);
    ResolveAllExplained(g, roots, [], [], ts);
    hide Reachable, ResolveAll, Files, GoodFile, Listable, OnCycle;
    if r.err.None? {
      assert Topological(g, []) && Apart([], []);
      hide Topological, Apart;
      ResolveAllSound(g, [], [], ts);
      forall p | Reachable(g, roots, p) ensures p in r.order && GoodFile(g, p) {
        ReachableEvaluated(g, ts, r.order, p);
        EvaluatedGood(g, r.order, p);
      }
      TopologicalAcyclic(g, roots, r.order);
    } else if AllGood(g, ts) && Acyclic(g, roots) {
      FailureContradiction(g, ts, r.err.value);
    }
  }

  lemma EvaluatedGood(g: Graph, order: seq<Path>, p: Path)
    requires Topological(g, order) && p in order
    ensures GoodFile(g, p)
  {
  }

  lemma FailureContradiction(g: Graph, ts: seq<Target>, e: Error)
    requires Explained(g, Files(ts), Some(e)) && AllGood(g, ts) && Acyclic(g, Files(ts))
    ensures e == CannotRead
  {
    hide Reachable, Files, Listable, Walk;
    match e
    case NotFound(p) =>
    case ParseError(p) =>
    case Cycle(p) =>
    case CannotRead =>
  }
}
