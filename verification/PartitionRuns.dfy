/** Whole runs of the partitioned pipeline: no send blocks, every schedule
    ends, and the sorted result does not depend on the schedule. */
module PartitionRuns {
  import opened Options
  import opened Partition

  predicate Runs(fs: seq<Transform>, cap: nat, s: State, ls: seq<Label>, t: State)
    decreases |ls|
  {
    if |ls| == 0 then s == t else Enabled(cap, s, ls[0]) && Runs(fs, cap, Apply(fs, cap, s, ls[0]), ls[1..], t)
  }

  lemma StepWorkers(fs: seq<Transform>, cap: nat, s: State, l: Label)
    requires Enabled(cap, s, l)
    ensures |Apply(fs, cap, s, l).workers| == |s.workers|
  {
    hide Emit;
  }

  lemma {:induction false} RunInvariant(fs: seq<Transform>, cap: nat, items: seq<Value>, s: State, ls: seq<Label>,
      t: State)
    requires Invariant(fs, items, s) && Runs(fs, cap, s, ls, t)
    ensures Invariant(fs, items, t) && |t.workers| == |s.workers|
    decreases |ls|
  {
    hide Invariant, Enabled, Apply;
    if |ls| > 0 {
      StepInvariant(fs, cap, items, s, ls[0]);
      StepWorkers(fs, cap, s, ls[0]);
      RunInvariant(fs, cap, items, Apply(fs, cap, s, ls[0]), ls[1..], t);
    }
  }

  /** Both channels hold as many items as the source, so a send never waits. */
  lemma NoSendBlocks(fs: seq<Transform>, items: seq<Value>, s: State)
    requires Invariant(fs, items, s)
    ensures |s.unfed| > 0 ==> Enabled(|items|, s, Feed)
    ensures forall w :: 0 <= w < |s.workers| && s.workers[w].Sending? ==> Enabled(|items|, s, Send(w))
  {
    hide ItemsKept, OutcomeKept, Active;
    forall w | 0 <= w < |s.workers| && s.workers[w].Sending? ensures Enabled(|items|, s, Send(w)) {
      ActiveUpdate(s.workers, w, Waiting);
    }
  }

  /** Until the results are complete some step can be taken. */
  lemma NoDeadlock(fs: seq<Transform>, items: seq<Value>, s: State) returns (l: Label)
    requires Invariant(fs, items, s) && !s.finished
    ensures Enabled(|items|, s, l)
  {
    NoSendBlocks(fs, items, s);
    hide ItemsKept, OutcomeKept, Active;
    if |s.unfed| > 0 {
      l := Feed;
    } else if !AllExited(s) {
      var w :| 0 <= w < |s.workers| && !s.workers[w].Exited?;
      match s.workers[w]
      case Waiting => l := if |s.input| > 0 then Take(w) else Leave(w);
      case Busy(_, _, _) => l := Work(w);
      case Sending(_, _) => l := Send(w);
    } else if |s.output| > 0 {
      l := Receive;
    } else {
      l := if s.closed then Finish else Close;
    }
  }

  // ---------- termination ----------

  function WorkerRank(stages: nat, w: Worker): nat {
    match w
    case Waiting => 1
    case Busy(_, stage, _) => 4 + if stage <= stages then stages - stage else 0
    case Sending(_, _) => 3
    case Exited => 0
  }

  function WorkersRank(stages: nat, ws: seq<Worker>): nat {
    if |ws| == 0 then 0 else WorkerRank(stages, ws[0]) + WorkersRank(stages, ws[1..])
  }

  lemma {:induction false} RankUpdate(stages: nat, ws: seq<Worker>, i: nat, w: Worker)
    requires i < |ws|
    ensures WorkersRank(stages, ws[i := w]) + WorkerRank(stages, ws[i])
            == WorkersRank(stages, ws) + WorkerRank(stages, w)
  {
    hide WorkerRank;
    if i == 0 {
      assert ws[0 := w][1..] == ws[1..];
    } else {
      assert ws[i := w][1..] == ws[1..][i - 1 := w] && ws[1..][i - 1] == ws[i];
      RankUpdate(stages, ws[1..], i - 1, w);
    }
  }

  /** Steps still possible, at most. */
  function Rank(fs: seq<Transform>, s: State): nat {
    (|fs| + 6) * |s.unfed| + (|fs| + 5) * |s.input| + WorkersRank(|fs|, s.workers) + |s.output|
    + (if s.closed then 0 else 1) + (if s.finished then 0 else 1)
  }

  lemma LessOne(a: nat, n: nat)
    requires n > 0
    ensures a * n == a * (n - 1) + a
  {
  }

  lemma RankFalls(fs: seq<Transform>, items: seq<Value>, cap: nat, s: State, l: Label)
    requires Bookkept(fs, items, s) && Enabled(cap, s, l)
    ensures Rank(fs, Apply(fs, cap, s, l)) < Rank(fs, s)
  {
    hide Active, WorkersRank, Emit;
    var k := |fs|;
    match l
    case Feed =>
      LessOne(k + 6, |s.unfed|);
      LessOne(k + 5, |s.input| + 1);
    case Take(w) =>
      LessOne(k + 5, |s.input|);
      RankUpdate(k, s.workers, w, Busy(s.input[0], 0, s.input[0]));
    case Work(w) => RankUpdate(k, s.workers, w, WorkStep(fs, s, w).workers[w]);
    case Send(w) => RankUpdate(k, s.workers, w, Waiting);
    case Leave(w) => RankUpdate(k, s.workers, w, Exited);
    case Close =>
    case Receive =>
    case Finish =>
  }

  /** Every schedule ends. */
  lemma {:induction false} RunBounded(fs: seq<Transform>, cap: nat, items: seq<Value>, s: State, ls: seq<Label>,
      t: State)
    requires Invariant(fs, items, s) && Runs(fs, cap, s, ls, t)
    ensures |ls| <= Rank(fs, s)
    decreases |ls|
  {
    hide Rank, Enabled, Apply, ItemsKept, OutcomeKept;
    if |ls| > 0 {
      StepInvariant(fs, cap, items, s, ls[0]);
      RankFalls(fs, items, cap, s, ls[0]);
      hide Invariant, Bookkept;
      RunBounded(fs, cap, items, Apply(fs, cap, s, ls[0]), ls[1..], t);
    }
  }

  // ---------- what is collected ----------

  /** Whatever the schedule, the collected results are what the items yield,
      and nothing of the source is missing. */
  lemma Collected(fs: seq<Transform>, items: seq<Value>, n: nat, ls: seq<Label>, t: State, x: Value)
    requires n > 0 && Runs(fs, |items|, Start(items, n), ls, t) && t.finished
    ensures Count(t.results, x) == Yields(fs, items, x)
    ensures Count(t.emitted, x) + Count(t.dropped, x) == Count(items, x)
  {
    StartInvariant(fs, items, n);
    RunInvariant(fs, |items|, items, Start(items, n), ls, t);
    hide Runs, Yield, Run;
    assert t.workers[0].Exited?;
    assert t.unfed == [] && t.input == [] && t.output == [];
    Idle(fs, t.workers, x);
    assert ItemsKept(items, t, x) && OutcomeKept(fs, items, t, x);
  }

  // ---------- sorting by rendering ----------

  /** The order of strings, byte by byte. */
  predicate Before(a: string, b: string) {
    |b| > 0 && (|a| == 0 || a[0] < b[0] || (a[0] == b[0] && Before(a[1..], b[1..])))
  }

  predicate NotAfter(a: string, b: string) {
    !Before(b, a)
  }

  lemma {:induction false} Antisymmetric(a: string, b: string)
    requires NotAfter(a, b) && NotAfter(b, a)
    ensures a == b
    decreases |a|
  {
    if |a| > 0 && |b| > 0 {
      Antisymmetric(a[1..], b[1..]);
      assert a == [a[0]] + a[1..] && b == [b[0]] + b[1..];
    }
  }

  type Inspect = Value -> string

  /** What `sort.Slice` leaves: the same values, no later one rendered before
      an earlier one. */
  predicate SortedVersion(inspect: Inspect, results: seq<Value>, sorted: seq<Value>) {
    && multiset(sorted) == multiset(results)
    && forall i, j :: 0 <= i < j < |sorted| ==> NotAfter(inspect(sorted[i]), inspect(sorted[j]))
  }

  predicate Ordered(inspect: Inspect, s: seq<Value>) {
    forall i, j :: 0 <= i < j < |s| ==> NotAfter(inspect(s[i]), inspect(s[j]))
  }

  function Keys(inspect: Inspect, s: seq<Value>): (r: seq<string>)
    ensures |r| == |s| && forall i :: 0 <= i < |s| ==> r[i] == inspect(s[i])
  {
    seq(|s|, i requires 0 <= i < |s| => inspect(s[i]))
  }

  function Drop(s: seq<Value>, j: nat): (r: seq<Value>)
    requires j < |s|
  {
    s[..j] + s[j + 1..]
  }

  lemma DropMultiset(s: seq<Value>, j: nat)
    requires j < |s|
    ensures multiset(s) == multiset(Drop(s, j)) + multiset{s[j]}
  {
    assert s == s[..j] + [s[j]] + s[j + 1..];
  }

  /** The least key comes first in both. */
  lemma SameFirstKey(inspect: Inspect, a: seq<Value>, b: seq<Value>)
    requires |a| > 0 && |b| > 0 && multiset(a) == multiset(b) && Ordered(inspect, a) && Ordered(inspect, b)
    ensures inspect(a[0]) == inspect(b[0])
  {
    assert a[0] in multiset(b) && b[0] in multiset(a);
    var i :| 0 <= i < |b| && b[i] == a[0];
    var j :| 0 <= j < |a| && a[j] == b[0];
    hide NotAfter;
    if i > 0 && j > 0 { Antisymmetric(inspect(a[0]), inspect(b[0])); }
  }

  /** Up to an element whose key is the least, all keys are that one. */
  lemma DropKeys(inspect: Inspect, b: seq<Value>, j: nat)
    requires Ordered(inspect, b) && j < |b| && inspect(b[j]) == inspect(b[0])
    ensures Ordered(inspect, Drop(b, j)) && Keys(inspect, Drop(b, j)) == Keys(inspect, b)[1..]
  {
    hide NotAfter;
    forall k | 0 <= k < |b| - 1 ensures inspect(Drop(b, j)[k]) == inspect(b[k + 1]) {
      if k < j {
        if k > 0 { Antisymmetric(inspect(b[k]), inspect(b[0])); }
        if k + 1 < j { Antisymmetric(inspect(b[k + 1]), inspect(b[0])); }
      }
    }
  }

  lemma KeysHead(inspect: Inspect, s: seq<Value>)
    requires |s| > 0
    ensures Keys(inspect, s) == [inspect(s[0])] + Keys(inspect, s)[1..]
  {
  }

  lemma SameLength(a: seq<Value>, b: seq<Value>)
    requires multiset(a) == multiset(b)
    ensures |a| == |b|
  {
    assert |multiset(a)| == |multiset(b)|;
  }

  /** The first element of one in the other, and what is left without it. */
  lemma FindFirst(a: seq<Value>, b: seq<Value>) returns (j: nat)
    requires multiset(a) == multiset(b) && |a| > 0
    ensures j < |b| && b[j] == a[0] && multiset(Drop(a, 0)) == multiset(Drop(b, j)) && |Drop(a, 0)| < |a|
  {
    assert a[0] in multiset(b);
    j :| 0 <= j < |b| && b[j] == a[0];
    DropMultiset(a, 0);
    DropMultiset(b, j);
    hide Drop;
    Cancel(multiset(Drop(a, 0)), multiset(Drop(b, j)), a[0]);
  }

  lemma Cancel(m: multiset<Value>, n: multiset<Value>, x: Value)
    requires m + multiset{x} == n + multiset{x}
    ensures m == n
  {
    assert m == (m + multiset{x}) - multiset{x};
    assert n == (n + multiset{x}) - multiset{x};
  }

  /** Two ordered versions of the same values render alike. */
  lemma {:induction false} SameKeys(inspect: Inspect, a: seq<Value>, b: seq<Value>)
    requires multiset(a) == multiset(b) && Ordered(inspect, a) && Ordered(inspect, b)
    ensures Keys(inspect, a) == Keys(inspect, b)
    decreases |a|
  {
    SameLength(a, b);
    if |a| > 0 {
      hide Ordered, NotAfter, Keys, Drop;
      SameFirstKey(inspect, a, b);
      var j := FindFirst(a, b);
      DropKeys(inspect, b, j);
      DropKeys(inspect, a, 0);
      SameKeys(inspect, Drop(a, 0), Drop(b, j));
      KeysHead(inspect, a);
      KeysHead(inspect, b);
    }
  }

  /** The result of a partitioned pipeline is independent of the schedule and
      of the number of workers: it always renders the same, and it is the same
      sequence whenever different yielded values render differently. */
  lemma ScheduleIndependence(fs: seq<Transform>, items: seq<Value>, inspect: Inspect,
                             n: nat, ls: seq<Label>, t: State, sorted: seq<Value>,
                             n': nat, ls': seq<Label>, t': State, sorted': seq<Value>)
    requires n > 0 && Runs(fs, |items|, Start(items, n), ls, t) && t.finished
             && SortedVersion(inspect, t.results, sorted)
    requires n' > 0 && Runs(fs, |items|, Start(items, n'), ls', t') && t'.finished
             && SortedVersion(inspect, t'.results, sorted')
    ensures Keys(inspect, sorted) == Keys(inspect, sorted')
    ensures (forall x, y :: Yields(fs, items, x) > 0 && Yields(fs, items, y) > 0 && inspect(x) == inspect(y) ==> x == y)
            ==> sorted == sorted'
  {
    hide Runs, NotAfter, Yields;
    forall x ensures multiset(sorted)[x] == multiset(sorted')[x] == Yields(fs, items, x) {
      Collected(fs, items, n, ls, t, x);
      Collected(fs, items, n', ls', t', x);
    }
    assert multiset(sorted) == multiset(sorted');
    SameKeys(inspect, sorted, sorted');
    forall i | 0 <= i < |sorted| ensures inspect(sorted[i]) == inspect(sorted'[i]) {
      assert Keys(inspect, sorted)[i] == Keys(inspect, sorted')[i];
    }
    forall i | 0 <= i < |sorted| ensures Yields(fs, items, sorted[i]) > 0 && Yields(fs, items, sorted'[i]) > 0 {
      assert sorted[i] in multiset(sorted) && sorted'[i] in multiset(sorted');
    }
  }

  /** With a single transform the partitioned result is a sorted version of the
      sequential one. */
  lemma PartitionIsSequential(f: Transform, items: seq<Value>, inspect: Inspect, n: nat, ls: seq<Label>, t: State,
                              sorted: seq<Value>)
    requires n > 0 && Runs([f], |items|, Start(items, n), ls, t) && t.finished
             && SortedVersion(inspect, t.results, sorted)
    ensures SortedVersion(inspect, Sequential([f], items), sorted)
  {
    hide Runs, NotAfter;
    assert Sequential([f], items) == Applied(items, f);
    forall x ensures multiset(sorted)[x] == multiset(Applied(items, f))[x] {
      Collected([f], items, n, ls, t, x);
      SingleTransform(f, items, x);
    }
  }

  // ---------- several transforms ----------

  /** Every result but the last stage's is passed on as it is. */
  predicate StagesPlain(fs: seq<Transform>, v: Value) {
    |fs| <= 1 || (Emit(fs[0](v)) == Some(fs[0](v)) && StagesPlain(fs[1..], fs[0](v)))
  }

  lemma {:induction false} PlainApplied(f: Transform, items: seq<Value>)
    requires forall i :: 0 <= i < |items| ==> Emit(f(items[i])) == Some(f(items[i]))
    ensures |Applied(items, f)| == |items| && forall i :: 0 <= i < |items| ==> Applied(items, f)[i] == f(items[i])
  {
    hide Emit;
    if |items| > 0 { PlainApplied(f, items[..|items| - 1]); }
  }

  lemma {:induction false} YieldsMapped(fs: seq<Transform>, items: seq<Value>, mapped: seq<Value>, x: Value)
    requires |fs| > 0 && |items| == |mapped| && forall i :: 0 <= i < |items| ==> mapped[i] == fs[0](items[i])
    ensures Yields(fs, items, x) == Yields(fs[1..], mapped, x)
    decreases |items|
  {
    hide Yield;
    if |items| > 0 { YieldsMapped(fs, items[1..], mapped[1..], x); }
  }

  /** Partitioned and sequential agree when no stage but the last drops or
      unwraps anything. */
  lemma {:induction false} PlainStagesAgree(fs: seq<Transform>, items: seq<Value>, x: Value)
    requires |fs| > 0 && forall i :: 0 <= i < |items| ==> StagesPlain(fs, items[i])
    ensures Yields(fs, items, x) == Count(Sequential(fs, items), x)
    decreases |fs|
  {
    if |fs| == 1 {
      assert fs == [fs[0]];
      SingleTransform(fs[0], items, x);
    } else {
      PlainApplied(fs[0], items);
      hide Emit, Yields, Applied;
      YieldsMapped(fs, items, Applied(items, fs[0]), x);
      PlainStagesAgree(fs[1..], Applied(items, fs[0]), x);
    }
  }

  function Wrapping(inner: Value): Transform {
    (v: Value) => Enum("Option", "Some", map["value" := inner])
  }

  function DataOnly(): Transform {
    (v: Value) => if v.Data? then v else Nil
  }

  /** They differ as soon as an inner stage wraps: the next stage sees the
      wrapped value in one and the inner value in the other. */
  lemma WrappedStageDiffers(inner: Value)
    requires inner.Data?
    ensures var fs := [Wrapping(inner), DataOnly()];
            Yields(fs, [inner], inner) == 0 && Count(Sequential(fs, [inner]), inner) == 1
  {
    WrappedResults(inner);
    var f, g := Wrapping(inner), DataOnly();
    hide Wrapping, DataOnly, Emit;
    TwoStages(f, g, inner, inner);
    AppliedOne(f, inner);
    AppliedOne(g, inner);
    hide *;
    YieldNil(inner);
    CountOne(inner);
  }

  lemma WrappedResults(inner: Value)
    requires inner.Data?
    ensures DataOnly()(Wrapping(inner)(inner)) == Nil
    ensures Emit(Wrapping(inner)(inner)) == Some(inner) && Emit(DataOnly()(inner)) == Some(inner)
  {
  }

  lemma TwoStages(f: Transform, g: Transform, v: Value, x: Value)
    ensures Yields([f, g], [v], x) == Yield(g(f(v)), x)
    ensures Sequential([f, g], [v]) == Applied(Applied([v], f), g)
  {
    hide Yield, Applied;
    assert [f, g][1..] == [g] && [g][1..] == [];
    assert Run([f, g], v) == Run([g], f(v)) == Run([], g(f(v)));
    assert Yields([f, g], [v], x) == Yield(Run([f, g], v), x) + Yields([f, g], [], x);
    assert Sequential([f, g], [v]) == Sequential([g], Applied([v], f)) == Sequential([], Applied(Applied([v], f), g));
  }

  lemma YieldNil(x: Value)
    ensures Yield(Nil, x) == 0
  {
  }

  lemma CountOne(x: Value)
    ensures Count([x], x) == 1
  {
  }

  lemma AppliedOne(f: Transform, v: Value)
    ensures Applied([v], f) == if Emit(f(v)).None? then [] else [Emit(f(v)).value]
  {
    hide Emit;
    assert [v][..0] == [];
  }

  predicate Plain(v: Value) {
    Emit(v) == Some(v)
  }

  /** How many options with a value are around a value. */
  function Wraps(v: Value): nat {
    if v.Enum? && v.tname == "Option" && v.variant == "Some" && "value" in v.fields then 1 + Wraps(v.fields["value"])
    else 0
  }

  lemma {:induction false} AppliedFrom(f: Transform, items: seq<Value>, w: Value)
    requires w in Applied(items, f)
    ensures exists k :: 0 <= k < |items| && Emit(f(items[k])) == Some(w)
    decreases |items|
  {
    hide Emit;
    var n := |items| - 1;
    if Emit(f(items[n])) != Some(w) {
      AppliedFrom(f, items[..n], w);
      var k :| 0 <= k < n && Emit(f(items[..n][k])) == Some(w);
      assert Emit(f(items[k])) == Some(w);
    }
  }

  lemma {:induction false} YieldsSome(fs: seq<Transform>, items: seq<Value>, x: Value, i: nat)
    requires i < |items| && Yield(Run(fs, items[i]), x) > 0
    ensures Yields(fs, items, x) > 0
    decreases i
  {
    hide Yield, Run;
    if i > 0 { YieldsSome(fs, items[1..], x, i - 1); }
  }

  /** The outcome of the stage that is wrapped most among those not passed on as
      they are. */
  lemma {:induction false} MostWrapped(f: Transform, items: seq<Value>, i: nat) returns (m: nat)
    requires i < |items| && !Plain(f(items[i]))
    ensures m < |items| && !Plain(f(items[m]))
    ensures forall k :: 0 <= k < |items| && !Plain(f(items[k])) ==> Wraps(f(items[k])) <= Wraps(f(items[m]))
    decreases |items|
  {
    hide Plain, Wraps;
    var n := |items| - 1;
    if exists k: nat :: k < n && !Plain(f(items[k])) {
      var k: nat :| k < n && !Plain(f(items[k]));
      assert items[..n][k] == items[k];
      m := MostWrapped(f, items[..n], k);
      assert forall l :: 0 <= l < n ==> items[..n][l] == items[l];
      if !Plain(f(items[n])) && Wraps(f(items[n])) > Wraps(f(items[m])) { m := n; }
    } else {
      m := n;
    }
  }

  /** Recognises one value. */
  function Probe(u: Value): Transform {
    (v: Value) => if v == u then Data("") else Nil
  }

  /** A stage that changes something on the way to the next one can be told by
      some next stage. */
  lemma ProbeTells(f: Transform, items: seq<Value>, i: nat) returns (g: Transform)
    requires i < |items| && !Plain(f(items[i]))
    ensures Yields([f, g], items, Data("")) > 0 == Count(Sequential([f, g], items), Data(""))
  {
    var m := MostWrapped(f, items, i);
    var u, found := f(items[m]), Data("");
    g := Probe(u);
    assert [f, g][1..] == [g] && [g][1..] == [];
    assert Run([f, g], items[m]) == Run([g], u) == Run([], found) == found;
    YieldsSome([f, g], items, found, m);
    var ws := Applied(items, f);
    assert Sequential([f, g], items) == Sequential([g], ws) == Applied(ws, g);
    forall k | 0 <= k < |ws| ensures Emit(g(ws[k])).None? {
      NotPassedOn(f, items, m, ws[k]);
    }
    AllDropped(g, ws);
  }

  /** The most wrapped of the results that are changed reaches no next stage. */
  lemma NotPassedOn(f: Transform, items: seq<Value>, m: nat, w: Value)
    requires m < |items| && !Plain(f(items[m])) && w in Applied(items, f)
    requires forall k :: 0 <= k < |items| && !Plain(f(items[k])) ==> Wraps(f(items[k])) <= Wraps(f(items[m]))
    ensures w != f(items[m])
  {
    AppliedFrom(f, items, w);
    var k :| 0 <= k < |items| && Emit(f(items[k])) == Some(w);
    assert Plain(f(items[k])) ==> w == f(items[k]);
    assert !Plain(f(items[k])) ==> Wraps(f(items[k])) == 1 + Wraps(w);
  }

  lemma {:induction false} AllDropped(g: Transform, items: seq<Value>)
    requires forall k :: 0 <= k < |items| ==> Emit(g(items[k])).None?
    ensures Applied(items, g) == []
  {
    hide Emit;
    if |items| > 0 { AllDropped(g, items[..|items| - 1]); }
  }

  /** Exactly: two stages agree whatever the second one is, if and only if every
      result of the first is passed on as it is. */
  lemma TwoStagesExact(f: Transform, items: seq<Value>)
    ensures (forall g: Transform, x :: Yields([f, g], items, x) == Count(Sequential([f, g], items), x))
            <==> forall i :: 0 <= i < |items| ==> Plain(f(items[i]))
  {
    hide Yields, Sequential, Count;
    if i :| 0 <= i < |items| && !Plain(f(items[i])) {
      var g := ProbeTells(f, items, i);
      assert Yields([f, g], items, Data("")) != Count(Sequential([f, g], items), Data(""));
    } else {
      forall g: Transform, x ensures Yields([f, g], items, x) == Count(Sequential([f, g], items), x) {
        forall i | 0 <= i < |items| ensures StagesPlain([f, g], items[i]) {
          assert Plain(f(items[i]));
          assert [f, g][1..] == [g];
        }
        PlainStagesAgree([f, g], items, x);
      }
    }
  }

  // ---------- any number of stages ----------

  /** Both paths yield `x` equally often. */
  predicate Agree(fs: seq<Transform>, items: seq<Value>, x: Value) {
    Yields(fs, items, x) == Count(Sequential(fs, items), x)
  }

  /** Every one of these stages hands on its result as it is. */
  predicate Passes(fs: seq<Transform>, v: Value) {
    |fs| == 0 || (Plain(fs[0](v)) && Passes(fs[1..], fs[0](v)))
  }

  lemma {:induction false} PassesPlain(fs: seq<Transform>, k: nat, g: Transform, v: Value)
    requires Passes(fs, v) && k <= |fs|
    ensures StagesPlain(fs[..k] + [g], v)
    decreases k
  {
    hide Emit;
    if k > 0 {
      PassesPlain(fs[1..], k - 1, g, fs[0](v));
      assert (fs[..k] + [g])[1..] == fs[1..][..k - 1] + [g];
    }
  }

  /** A plain stage in front changes nothing about the rest. */
  lemma AgreeBehind(f: Transform, rest: seq<Transform>, items: seq<Value>, x: Value)
    requires forall i :: 0 <= i < |items| ==> Plain(f(items[i]))
    ensures Agree([f] + rest, items, x) <==> Agree(rest, Applied(items, f), x)
  {
    hide Emit, Yields, Applied, Count;
    forall i | 0 <= i < |items| ensures Emit(f(items[i])) == Some(f(items[i])) {
      assert Plain(f(items[i]));
    }
    PlainApplied(f, items);
    assert ([f] + rest)[1..] == rest;
    YieldsMapped([f] + rest, items, Applied(items, f), x);
  }

  /** If some result is changed on the way, the two paths can be told apart behind
      the first stage that does so. */
  lemma {:induction false} StageTells(fs: seq<Transform>, items: seq<Value>, i: nat)
      returns (k: nat, g: Transform, x: Value)
    requires i < |items| && !Passes(fs, items[i])
    ensures k <= |fs| && !Agree(fs[..k] + [g], items, x)
    decreases |fs|
  {
    hide Agree, Plain;
    var f := fs[0];
    if j: nat :| j < |items| && !Plain(f(items[j])) {
      g := ProbeTells(f, items, j);
      k, x := 1, Data("");
      assert fs[..1] + [g] == [f, g];
      NotAgree([f, g], items, x);
    } else {
      MappedPlain(f, items);
      k, g, x := StageTells(fs[1..], Applied(items, f), i);
      AgreeBehind(f, fs[1..][..k] + [g], items, x);
      assert [f] + (fs[1..][..k] + [g]) == fs[..k + 1] + [g];
      k := k + 1;
    }
  }

  lemma MappedPlain(f: Transform, items: seq<Value>)
    requires forall i :: 0 <= i < |items| ==> Plain(f(items[i]))
    ensures |Applied(items, f)| == |items| && forall i :: 0 <= i < |items| ==> Applied(items, f)[i] == f(items[i])
  {
    forall i | 0 <= i < |items| ensures Emit(f(items[i])) == Some(f(items[i])) {
      assert Plain(f(items[i]));
    }
    hide Emit;
    PlainApplied(f, items);
  }

  lemma NotAgree(fs: seq<Transform>, items: seq<Value>, x: Value)
    requires Yields(fs, items, x) != Count(Sequential(fs, items), x)
    ensures !Agree(fs, items, x)
  {
  }

  /** Exactly, for any number of stages: after any of them, and whatever stage comes
      next, the two paths agree, if and only if every result of every one of them is
      passed on as it is. */
  lemma StagesExact(fs: seq<Transform>, items: seq<Value>)
    ensures (forall k: nat, g: Transform, x :: k <= |fs| ==> Agree(fs[..k] + [g], items, x))
            <==> forall i :: 0 <= i < |items| ==> Passes(fs, items[i])
  {
    hide Yields, Sequential, Count, StagesPlain;
    if i :| 0 <= i < |items| && !Passes(fs, items[i]) {
      var k, g, x := StageTells(fs, items, i);
      assert !Agree(fs[..k] + [g], items, x);
    } else {
      forall k: nat, g: Transform, x | k <= |fs| ensures Agree(fs[..k] + [g], items, x) {
        forall i | 0 <= i < |items| ensures StagesPlain(fs[..k] + [g], items[i]) {
          PassesPlain(fs, k, g, items[i]);
        }
        PlainStagesAgree(fs[..k] + [g], items, x);
      }
    }
  }

  // ---------- any last stage ----------

  /** What the last stage of the partitioned path is given. */
  function Arriving(fs: seq<Transform>, items: seq<Value>): seq<Value> {
    if |items| == 0 then [] else [Run(fs, items[0])] + Arriving(fs, items[1..])
  }

  lemma {:induction false} RunAppend(fs: seq<Transform>, g: Transform, v: Value)
    ensures Run(fs + [g], v) == g(Run(fs, v))
    decreases |fs|
  {
    if |fs| > 0 {
      assert (fs + [g])[1..] == fs[1..] + [g];
      RunAppend(fs[1..], g, fs[0](v));
    } else {
      assert (fs + [g])[1..] == [];
    }
  }

  lemma {:induction false} SequentialAppend(fs: seq<Transform>, items: seq<Value>, g: Transform)
    ensures Sequential(fs + [g], items) == Applied(Sequential(fs, items), g)
    decreases |fs|
  {
    hide Applied;
    if |fs| > 0 {
      assert (fs + [g])[1..] == fs[1..] + [g];
      SequentialAppend(fs[1..], Applied(items, fs[0]), g);
    } else {
      assert (fs + [g])[1..] == [];
    }
  }

  lemma {:induction false} YieldsArriving(fs: seq<Transform>, items: seq<Value>, g: Transform, x: Value)
    ensures Yields(fs + [g], items, x) == Yields([g], Arriving(fs, items), x)
    decreases |items|
  {
    hide Yield;
    if |items| > 0 {
      YieldsArriving(fs, items[1..], g, x);
      RunAppend(fs, g, items[0]);
      RunAppend([], g, Run(fs, items[0]));
      assert [] + [g] == [g];
    }
  }

  /** Either path ends in one pass over what arrives at the last stage. */
  lemma AgreeLast(fs: seq<Transform>, items: seq<Value>, g: Transform, x: Value)
    ensures Agree(fs + [g], items, x)
            <==> Count(Applied(Arriving(fs, items), g), x) == Count(Applied(Sequential(fs, items), g), x)
  {
    hide Yields, Sequential, Applied, Count, Arriving;
    YieldsArriving(fs, items, g, x);
    SingleTransform(g, Arriving(fs, items), x);
    SequentialAppend(fs, items, g);
  }

  lemma {:induction false} AppliedConcat(a: seq<Value>, b: seq<Value>, g: Transform)
    ensures Applied(a + b, g) == Applied(a, g) + Applied(b, g)
    decreases |b|
  {
    hide Emit;
    if |b| == 0 {
      assert a + b == a;
    } else {
      assert (a + b)[..|a + b| - 1] == a + b[..|b| - 1];
      AppliedConcat(a, b[..|b| - 1], g);
    }
  }

  lemma CountConcat(a: seq<Value>, b: seq<Value>, x: Value)
    ensures Count(a + b, x) == Count(a, x) + Count(b, x)
  {
  }

  /** A pass does not depend on the order. */
  lemma {:induction false} AppliedBag(a: seq<Value>, b: seq<Value>, g: Transform, x: Value)
    requires multiset(a) == multiset(b)
    ensures Count(Applied(a, g), x) == Count(Applied(b, g), x)
    decreases |a|
  {
    hide Applied, Count, Drop;
    SameLength(a, b);
    if |a| > 0 {
      var j := FindFirst(a, b);
      AppliedBag(Drop(a, 0), Drop(b, j), g, x);
      AppliedTaken(a, 0, g, x);
      AppliedTaken(b, j, g, x);
    }
  }

  lemma AppliedTaken(s: seq<Value>, j: nat, g: Transform, x: Value)
    requires j < |s|
    ensures Count(Applied(s, g), x) == Count(Applied(Drop(s, j), g), x) + Count(Applied([s[j]], g), x)
  {
    hide Applied, Count;
    var p, v, q := s[..j], [s[j]], s[j + 1..];
    assert s == p + v + q && Drop(s, j) == p + q;
    AppliedConcat(p + v, q, g);
    AppliedConcat(p, v, g);
    AppliedConcat(p, q, g);
    CountConcat(Applied(p, g) + Applied(v, g), Applied(q, g), x);
    CountConcat(Applied(p, g), Applied(v, g), x);
    CountConcat(Applied(p, g), Applied(q, g), x);
  }

  lemma {:induction false} ProbeCounts(s: seq<Value>, u: Value)
    ensures Count(Applied(s, Probe(u)), Data("")) == Count(s, u)
  {
    if |s| > 0 {
      var n := |s| - 1;
      ProbeCounts(s[..n], u);
      assert s == s[..n] + [s[n]];
      CountAppend(s[..n], s[n], u);
    }
  }

  /** Exactly, for given stages: the two paths agree whatever the last stage is, if
      and only if the same values, as often, arrive at it. */
  lemma LastStageExact(fs: seq<Transform>, items: seq<Value>)
    ensures (forall g: Transform, x :: Agree(fs + [g], items, x))
            <==> multiset(Arriving(fs, items)) == multiset(Sequential(fs, items))
  {
    hide Agree, Applied, Arriving, Sequential;
    var a, s := Arriving(fs, items), Sequential(fs, items);
    if forall g: Transform, x :: Agree(fs + [g], items, x) {
      forall u ensures multiset(a)[u] == multiset(s)[u] {
        AgreeLast(fs, items, Probe(u), Data(""));
        ProbeCounts(a, u);
        ProbeCounts(s, u);
      }
    } else {
      var g: Transform, x :| !Agree(fs + [g], items, x);
      AgreeLast(fs, items, g, x);
      if multiset(a) == multiset(s) { AppliedBag(a, s, g, x); }
    }
  }
}
