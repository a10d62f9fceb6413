/** Imports are resolved in the order they are written. */
module ImportOrder {
  import opened Imports

  /** First one list, then the other, unless the first fails. */
  lemma {:induction false} ResolveAllSplit(g: Graph, order: seq<Path>, stack: seq<Path>, a: seq<Target>, b: seq<Target>)
    ensures var r := ResolveAll(g, order, stack, a);
            ResolveAll(g, order, stack, a + b) == if r.err.None? then ResolveAll(g, r.order, stack, b) else r
    decreases |a|
  {
    hide Resolve;
    if |a| == 0 {
      assert a + b == b;
    } else {
      assert (a + b)[1..] == a[1..] + b;
      var r := Resolve(g, order, stack, a[0]);
      if r.err.None? { ResolveAllSplit(g, r.order, stack, a[1..], b); }
    }
  }

  /** Where resolving succeeds, the files reachable from the first `m` imports are
      evaluated before any others. */
  lemma InSourceOrder(g: Graph, ts: seq<Target>, m: nat) returns (n: nat)
    requires ResolveAll(g, [], [], ts).err.None? && m <= |ts|
    ensures var order := ResolveAll(g, [], [], ts).order;
            && n <= |order|
            && forall p :: p in order[..n] <==> Reachable(g, Files(ts[..m]), p)
  {
    hide Reachable, ResolveAll, Files, AllGood, Acyclic, Explained;
    assert ts == ts[..m] + ts[m..];
    ResolveAllSplit(g, [], [], ts[..m], ts[m..]);
    ImportsTheorem(g, ts[..m]);
    var r := ResolveAll(g, [], [], ts[..m]);
    assert Topological(g, []) && Apart([], []);
    ResolveAllSound(g, [], [], ts[..m]);
    ResolveAllSound(g, r.order, [], ts[m..]);
    n := |r.order|;
  }

  /** Where it fails, the import that fails is the first that does not lead to good
      files without a cycle: all before it do. */
  lemma {:induction false} FirstFailure(g: Graph, ts: seq<Target>) returns (m: nat)
    requires ResolveAll(g, [], [], ts).err.Some?
    ensures m < |ts| && AllGood(g, ts[..m]) && Acyclic(g, Files(ts[..m]))
    ensures !(AllGood(g, ts[..m + 1]) && Acyclic(g, Files(ts[..m + 1])))
    ensures ResolveAll(g, [], [], ts) == ResolveAll(g, [], [], ts[..m + 1])
    decreases |ts|
  {
    hide Reachable, Files, AllGood, Acyclic, Explained, Resolve, Topological;
    var k := |ts| - 1;
    assert ts == ts[..k] + [ts[k]];
    ResolveAllSplit(g, [], [], ts[..k], [ts[k]]);
    hide ResolveAll;
    ImportsTheorem(g, ts);
    ImportsTheorem(g, ts[..k]);
    if ResolveAll(g, [], [], ts[..k]).err.None? {
      m := k;
      assert ts[..k + 1] == ts;
    } else {
      m := FirstFailure(g, ts[..k]);
      assert ts[..k][..m] == ts[..m] && ts[..k][..m + 1] == ts[..m + 1];
    }
  }
}
