/** What a pipeline delivers and in which order, said outright. */
module PartitionLaws {
  import opened Options
  import opened Partition
  import opened PartitionRuns

  /** A result `v` puts `x` into the output: itself, or what `Some` holds; nil and
      `None` put nothing. */
  predicate Delivers(v: Value, x: Value) {
    if v.Enum? && v.tname == "Option" && v.variant == "None" then false
    else if v.Enum? && v.tname == "Option" && v.variant == "Some" && "value" in v.fields then x == v.fields["value"]
    else v != Nil && x == v
  }

  lemma EmitIs(v: Value)
    ensures forall x :: Emit(v) == Some(x) <==> Delivers(v, x)
    ensures Emit(v) == None <==> forall x :: !Delivers(v, x)
  {
    if Emit(v).Some? { assert Delivers(v, Emit(v).value); }
  }

  // ---------- the partitioned pipeline ----------

  /** How many items end up as `x`. */
  ghost function Delivering(fs: seq<Transform>, items: seq<Value>, x: Value): set<int> {
    set i | 0 <= i < |items| && Delivers(Run(fs, items[i]), x)
  }

  /** The transforms are applied in order, each to the result of the one before. */
  lemma RunIs(f: Transform, rest: seq<Transform>, v: Value)
    ensures Run([], v) == v && Run([f] + rest, v) == Run(rest, f(v))
  {
    assert ([f] + rest)[1..] == rest;
  }

  lemma {:induction false} YieldsAre(fs: seq<Transform>, items: seq<Value>, x: Value)
    ensures Yields(fs, items, x) == |Delivering(fs, items, x)|
    decreases |items|
  {
    hide Run, Emit, Delivers;
    if |items| > 0 {
      var n := |items| - 1;
      YieldsAre(fs, items[..n], x);
      YieldsAppend(fs, items[..n], items[n], x);
      assert items == items[..n] + [items[n]];
      EmitIs(Run(fs, items[n]));
      DeliveringMore(fs, items, x);
    }
  }

  lemma DeliveringMore(fs: seq<Transform>, items: seq<Value>, x: Value)
    requires |items| > 0
    ensures var n := |items| - 1;
            |Delivering(fs, items, x)|
            == |Delivering(fs, items[..n], x)| + if Delivers(Run(fs, items[n]), x) then 1 else 0
  {
    hide Run, Delivers;
    var n := |items| - 1;
    assert forall i :: 0 <= i < n ==> items[..n][i] == items[i];
    assert Delivering(fs, items, x)
        == Delivering(fs, items[..n], x) + if Delivers(Run(fs, items[n]), x) then {n} else {};
  }

  /** The collected results: every value as often as items end up as it, whatever the
      schedule and the number of workers, in the order of their rendering. */
  lemma ResultsAre(fs: seq<Transform>, items: seq<Value>, inspect: Inspect, n: nat, ls: seq<Label>, t: State,
                   sorted: seq<Value>, x: Value)
    requires n > 0 && Runs(fs, |items|, Start(items, n), ls, t) && t.finished
             && SortedVersion(inspect, t.results, sorted)
    ensures multiset(sorted)[x] == |Delivering(fs, items, x)|
    ensures forall i, j :: 0 <= i < j < |sorted| ==> !(Earlier(inspect(sorted[j]), inspect(sorted[i])))
  {
    Collected(fs, items, n, ls, t, x);
    YieldsAre(fs, items, x);
    hide Runs, Before, Earlier, Yields, Delivering;
    forall i, j | 0 <= i < j < |sorted| ensures !Earlier(inspect(sorted[j]), inspect(sorted[i])) {
      BeforeIs(inspect(sorted[j]), inspect(sorted[i]));
    }
  }

  // ---------- the order of strings ----------

  /** A proper beginning comes first, else the first difference decides. */
  ghost predicate Earlier(a: string, b: string) {
    || (|a| < |b| && a == b[..|a|])
    || exists k :: 0 <= k < |a| && k < |b| && a[..k] == b[..k] && a[k] < b[k]
  }

  lemma {:induction false} BeforeIs(a: string, b: string)
    ensures Before(a, b) <==> Earlier(a, b)
    decreases |a|
  {
    if |a| > 0 && |b| > 0 {
      if a[0] == b[0] {
        BeforeIs(a[1..], b[1..]);
        EarlierTail(a, b);
      } else {
        HeadDecides(a, b);
      }
    }
  }

  lemma HeadDecides(a: string, b: string)
    requires |a| > 0 && |b| > 0 && a[0] != b[0]
    ensures Earlier(a, b) <==> a[0] < b[0]
  {
    assert a[..0] == b[..0];
    assert forall k :: 0 < k <= |a| && k <= |b| ==> a[..k][0] == a[0] && b[..k][0] == b[0];
    assert |a| < |b| ==> b[..|a|][0] == b[0];
  }

  lemma EarlierTail(a: string, b: string)
    requires |a| > 0 && |b| > 0 && a[0] == b[0]
    ensures Earlier(a, b) <==> Earlier(a[1..], b[1..])
  {
    assert a == [a[0]] + a[1..] && b == [b[0]] + b[1..];
    if |a| < |b| && a == b[..|a|] { assert a[1..] == b[1..][..|a| - 1]; }
    if |a| < |b| && a[1..] == b[1..][..|a| - 1] { assert a == b[..|a|]; }
    if k :| 0 <= k < |a| && k < |b| && a[..k] == b[..k] && a[k] < b[k] {
      assert k > 0 && a[1..][..k - 1] == a[..k][1..] == b[..k][1..] == b[1..][..k - 1];
      assert a[1..][k - 1] < b[1..][k - 1];
    }
    if k :| 0 <= k < |a| - 1 && k < |b| - 1 && a[1..][..k] == b[1..][..k] && a[1..][k] < b[1..][k] {
      assert a[..k + 1] == [a[0]] + a[1..][..k] == b[..k + 1];
      assert a[k + 1] < b[k + 1];
    }
  }

  // ---------- the sequential pipeline ----------

  /** Stage by stage: every item of a stage in order, delivered or dropped. */
  lemma StageIs(f: Transform, rest: seq<Transform>, items: seq<Value>, v: Value, x: Value)
    ensures Applied([], f) == []
    ensures Delivers(f(v), x) ==> Applied([v] + items, f) == [x] + Applied(items, f)
    ensures (forall y :: !Delivers(f(v), y)) ==> Applied([v] + items, f) == Applied(items, f)
    ensures Sequential([], items) == items
    ensures Sequential([f] + rest, items) == Sequential(rest, Applied(items, f))
  {
    AppliedConcat([v], items, f);
    AppliedOne(f, v);
    EmitIs(f(v));
    assert ([f] + rest)[1..] == rest;
    hide Emit, Delivers, Applied;
    assert Applied([], f) == [] by { AppliedNone(f); }
  }

  lemma AppliedNone(f: Transform)
    ensures Applied([], f) == []
  {
  }
}
