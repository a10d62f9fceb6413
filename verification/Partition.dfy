/** The partitioned pipeline: workers take items from one buffered channel,
    run every transform and put results on another; whatever the schedule, the
    collected results are the same. */
module Partition {
  import opened Options

  /** Only what the pipeline looks at: nil, options, and everything else. */
  datatype Value = Nil | Data(repr: string) | Enum(tname: string, variant: string, fields: map<string, Value>)

  type Transform = Value -> Value

  /** What a final result puts on the output: nothing for nil and `None`, the
      inner value for a `Some` that has one, else the value itself. */
  function Emit(v: Value): Option<Value> {
    if v.Enum? && v.tname == "Option" && v.variant == "None" then None
    else if v.Enum? && v.tname == "Option" && v.variant == "Some" && "value" in v.fields then Some(v.fields["value"])
    else if v.Nil? then None
    else Some(v)
  }

  /** All transforms in order. */
  function Run(fs: seq<Transform>, v: Value): Value {
    if |fs| == 0 then v else Run(fs[1..], fs[0](v))
  }

  function Count(s: seq<Value>, x: Value): nat {
    multiset(s)[x]
  }

  lemma CountAppend(s: seq<Value>, v: Value, x: Value)
    ensures Count(s + [v], x) == Count(s, x) + if v == x then 1 else 0
  {
  }

  lemma CountHead(s: seq<Value>, x: Value)
    requires |s| > 0
    ensures Count(s, x) == (if s[0] == x then 1 else 0) + Count(s[1..], x)
  {
    assert s == [s[0]] + s[1..];
  }

  /** How often `x` is among the results the items yield. */
  function Yields(fs: seq<Transform>, items: seq<Value>, x: Value): nat {
    if |items| == 0 then 0 else Yield(Run(fs, items[0]), x) + Yields(fs, items[1..], x)
  }

  lemma YieldsHead(fs: seq<Transform>, items: seq<Value>, x: Value)
    requires |items| > 0
    ensures Yields(fs, items, x) == Yield(Run(fs, items[0]), x) + Yields(fs, items[1..], x)
  {
  }

  // ---------- the sequential pipeline ----------

  function Applied(items: seq<Value>, f: Transform): seq<Value> {
    if |items| == 0 then []
    else
      var n := |items| - 1;
      match Emit(f(items[n]))
      case None => Applied(items[..n], f)
      case Some(x) => Applied(items[..n], f) + [x]
  }

  method ApplyTransform(items: seq<Value>, f: Transform) returns (result: seq<Value>)
    ensures result == Applied(items, f)
  {
    result := [];
    for i := 0 to |items|
      invariant result == Applied(items[..i], f)
    {
      assert items[..i + 1][..i] == items[..i];
      var val := f(items[i]);
      if val.Enum? && val.tname == "Option" && val.variant == "None" {
        continue;
      }
      if val.Enum? && val.tname == "Option" && val.variant == "Some" && "value" in val.fields {
        result := result + [val.fields["value"]];
        continue;
      }
      if val.Nil? {
        continue;
      }
      result := result + [val];
    }
    assert items[..|items|] == items;
  }

  /** One sequential pass after another. */
  function Sequential(fs: seq<Transform>, items: seq<Value>): seq<Value> {
    if |fs| == 0 then items else Sequential(fs[1..], Applied(items, fs[0]))
  }

  lemma {:induction false} YieldsAppend(fs: seq<Transform>, items: seq<Value>, v: Value, x: Value)
    ensures Yields(fs, items + [v], x) == Yields(fs, items, x) + Yield(Run(fs, v), x)
  {
    hide Run, Yield;
    if |items| > 0 {
      assert (items + [v])[1..] == items[1..] + [v];
      YieldsAppend(fs, items[1..], v, x);
    }
  }

  /** With one transform the partitioned pipeline yields what the sequential
      one does. */
  lemma {:induction false} SingleTransform(f: Transform, items: seq<Value>, x: Value)
    ensures Yields([f], items, x) == Count(Applied(items, f), x)
  {
    if |items| > 0 {
      var n := |items| - 1;
      SingleTransform(f, items[..n], x);
      YieldsAppend([f], items[..n], items[n], x);
      assert items[..n] + [items[n]] == items;
      assert Run([f], items[n]) == f(items[n]);
      hide Emit, Yields, Run;
      if Emit(f(items[n])).Some? { CountAppend(Applied(items[..n], f), Emit(f(items[n])).value, x); }
    }
  }

  // ---------- the workers ----------

  datatype Worker =
    | Waiting
    | Busy(item: Value, stage: nat, current: Value)
    | Sending(item: Value, out: Value)
    | Exited

  /** `emitted` and `dropped` record the source items done with; they only
      serve to state what the channels conserve. */
  datatype State = State(unfed: seq<Value>, input: seq<Value>, workers: seq<Worker>, output: seq<Value>, closed: bool,
                         results: seq<Value>, finished: bool, emitted: seq<Value>, dropped: seq<Value>)

  datatype Label = Feed | Take(w: nat) | Work(w: nat) | Send(w: nat) | Leave(w: nat) | Close | Receive | Finish

  function Start(items: seq<Value>, n: nat): State {
    State(items, [], seq(n, _ => Waiting), [], false, [], false, [], [])
  }

  predicate AllExited(s: State) {
    forall i :: 0 <= i < |s.workers| ==> s.workers[i].Exited?
  }

  /** `cap` is the capacity of both channels.  Workers start once the input
      has been filled and closed. */
  predicate Enabled(cap: nat, s: State, l: Label) {
    match l
    case Feed => |s.unfed| > 0 && |s.input| < cap
    case Take(w) => w < |s.workers| && s.workers[w].Waiting? && |s.unfed| == 0 && |s.input| > 0
    case Work(w) => w < |s.workers| && s.workers[w].Busy?
    case Send(w) => w < |s.workers| && s.workers[w].Sending? && |s.output| < cap
    case Leave(w) => w < |s.workers| && s.workers[w].Waiting? && |s.unfed| == 0 && |s.input| == 0
    case Close => |s.unfed| == 0 && AllExited(s) && !s.closed
    case Receive => |s.output| > 0
    case Finish => |s.output| == 0 && s.closed && !s.finished
  }

  /** One stage of a worker, or its last look at the result. */
  function WorkStep(fs: seq<Transform>, s: State, w: nat): State
    requires w < |s.workers| && s.workers[w].Busy?
  {
    var b := s.workers[w];
    if b.stage < |fs| then s.(workers := s.workers[w := Busy(b.item, b.stage + 1, fs[b.stage](b.current))])
    else
      match Emit(b.current)
      case None => s.(workers := s.workers[w := Waiting], dropped := s.dropped + [b.item])
      case Some(x) => s.(workers := s.workers[w := Sending(b.item, x)])
  }

  function Apply(fs: seq<Transform>, cap: nat, s: State, l: Label): State
    requires Enabled(cap, s, l)
  {
    match l
    case Feed => s.(unfed := s.unfed[1..], input := s.input + [s.unfed[0]])
    case Take(w) => s.(input := s.input[1..], workers := s.workers[w := Busy(s.input[0], 0, s.input[0])])
    case Work(w) => WorkStep(fs, s, w)
    case Send(w) =>
      s.(workers := s.workers[w := Waiting],
         output := s.output + [s.workers[w].out],
         emitted := s.emitted + [s.workers[w].item])
    case Leave(w) => s.(workers := s.workers[w := Exited])
    case Close => s.(closed := true)
    case Receive => s.(output := s.output[1..], results := s.results + [s.output[0]])
    case Finish => s.(finished := true)
  }

  // ---------- conservation ----------

  /** How often a value occurs in what one item yields. */
  function Yield(v: Value, x: Value): nat {
    if Emit(v) == Some(x) then 1 else 0
  }

  /** How many workers have source item `x` in flight. */
  function InFlight(ws: seq<Worker>, x: Value): nat {
    if |ws| == 0 then 0 else Carries(ws[0], x) + InFlight(ws[1..], x)
  }

  function Carries(w: Worker, x: Value): nat {
    if (w.Busy? || w.Sending?) && w.item == x then 1 else 0
  }

  /** How many results `x` the workers will still send. */
  function Owed(fs: seq<Transform>, ws: seq<Worker>, x: Value): nat {
    if |ws| == 0 then 0 else OwedBy(fs, ws[0], x) + Owed(fs, ws[1..], x)
  }

  function OwedBy(fs: seq<Transform>, w: Worker, x: Value): nat {
    match w
    case Busy(_, stage, current) => Yield(Run(if stage <= |fs| then fs[stage..] else [], current), x)
    case Sending(_, out) => if out == x then 1 else 0
    case _ => 0
  }

  lemma {:induction false} InFlightUpdate(ws: seq<Worker>, i: nat, w: Worker, x: Value)
    requires i < |ws|
    ensures InFlight(ws[i := w], x) + Carries(ws[i], x) == InFlight(ws, x) + Carries(w, x)
  {
    hide Carries;
    if i == 0 {
      assert ws[0 := w][1..] == ws[1..];
    } else {
      assert ws[i := w][1..] == ws[1..][i - 1 := w] && ws[1..][i - 1] == ws[i];
      InFlightUpdate(ws[1..], i - 1, w, x);
    }
  }

  lemma {:induction false} OwedUpdate(fs: seq<Transform>, ws: seq<Worker>, i: nat, w: Worker, x: Value)
    requires i < |ws|
    ensures Owed(fs, ws[i := w], x) + OwedBy(fs, ws[i], x) == Owed(fs, ws, x) + OwedBy(fs, w, x)
  {
    hide OwedBy;
    if i == 0 {
      assert ws[0 := w][1..] == ws[1..];
    } else {
      assert ws[i := w][1..] == ws[1..][i - 1 := w] && ws[1..][i - 1] == ws[i];
      OwedUpdate(fs, ws[1..], i - 1, w, x);
    }
  }

  /** Every source item is unfed, queued, in flight, emitted or dropped. */
  predicate ItemsKept(items: seq<Value>, s: State, x: Value) {
    Count(s.unfed, x) + Count(s.input, x) + InFlight(s.workers, x) + Count(s.emitted, x) + Count(s.dropped, x)
    == Count(items, x)
  }

  /** What will have been collected in the end is fixed by the source. */
  predicate OutcomeKept(fs: seq<Transform>, items: seq<Value>, s: State, x: Value) {
    Yields(fs, s.unfed, x) + Yields(fs, s.input, x) + Owed(fs, s.workers, x) + Count(s.output, x) + Count(s.results, x)
    == Yields(fs, items, x)
  }

  /** Workers in flight or idle, and the number of items at every place. */
  predicate Bookkept(fs: seq<Transform>, items: seq<Value>, s: State) {
    && |s.unfed| + |s.input| + Active(s.workers) + |s.output| + |s.results| + |s.dropped| == |items|
    && (forall i :: 0 <= i < |s.workers| && s.workers[i].Busy? ==> s.workers[i].stage <= |fs|)
    && (s.closed ==> AllExited(s) && |s.unfed| == 0) && (s.finished ==> s.closed && |s.output| == 0)
    && (forall i :: 0 <= i < |s.workers| && s.workers[i].Exited? ==> |s.unfed| == 0 && |s.input| == 0)
  }

  function Active(ws: seq<Worker>): nat {
    if |ws| == 0 then 0 else IsActive(ws[0]) + Active(ws[1..])
  }

  function IsActive(w: Worker): nat {
    if w.Busy? || w.Sending? then 1 else 0
  }

  lemma {:induction false} ActiveUpdate(ws: seq<Worker>, i: nat, w: Worker)
    requires i < |ws|
    ensures Active(ws[i := w]) + IsActive(ws[i]) == Active(ws) + IsActive(w)
    ensures Active(ws) >= IsActive(ws[i])
  {
    hide IsActive;
    if i == 0 {
      assert ws[0 := w][1..] == ws[1..];
    } else {
      assert ws[i := w][1..] == ws[1..][i - 1 := w] && ws[1..][i - 1] == ws[i];
      ActiveUpdate(ws[1..], i - 1, w);
    }
  }

  ghost predicate Invariant(fs: seq<Transform>, items: seq<Value>, s: State) {
    (forall x :: ItemsKept(items, s, x)) && (forall x :: OutcomeKept(fs, items, s, x)) && Bookkept(fs, items, s)
  }

  // ---------- every step keeps it ----------

  lemma {:induction false} Idle(fs: seq<Transform>, ws: seq<Worker>, x: Value)
    requires forall i :: 0 <= i < |ws| ==> ws[i].Waiting? || ws[i].Exited?
    ensures InFlight(ws, x) == 0 && Owed(fs, ws, x) == 0 && Active(ws) == 0
    decreases |ws|
  {
    if |ws| > 0 { Idle(fs, ws[1..], x); }
  }

  lemma StepItems(fs: seq<Transform>, cap: nat, items: seq<Value>, s: State, l: Label, x: Value)
    requires Enabled(cap, s, l) && ItemsKept(items, s, x)
    ensures ItemsKept(items, Apply(fs, cap, s, l), x)
  {
    hide InFlight, Emit, Count;
    match l
    case Feed =>
      CountHead(s.unfed, x);
      CountAppend(s.input, s.unfed[0], x);
    case Take(w) =>
      InFlightUpdate(s.workers, w, Busy(s.input[0], 0, s.input[0]), x);
      CountHead(s.input, x);
    case Work(w) =>
      InFlightUpdate(s.workers, w, WorkStep(fs, s, w).workers[w], x);
      CountAppend(s.dropped, s.workers[w].item, x);
    case Send(w) =>
      InFlightUpdate(s.workers, w, Waiting, x);
      CountAppend(s.emitted, s.workers[w].item, x);
    case Leave(w) => InFlightUpdate(s.workers, w, Exited, x);
    case Close =>
    case Receive =>
    case Finish =>
  }

  /** A stage of a worker does not change what it owes. */
  lemma StageOwes(fs: seq<Transform>, b: Worker, x: Value)
    requires b.Busy? && b.stage < |fs|
    ensures OwedBy(fs, Busy(b.item, b.stage + 1, fs[b.stage](b.current)), x) == OwedBy(fs, b, x)
  {
    hide Yield;
    assert fs[b.stage..][1..] == fs[b.stage + 1..];
  }

  lemma LookOwes(fs: seq<Transform>, b: Worker, x: Value)
    requires b.Busy? && b.stage == |fs|
    ensures OwedBy(fs, b, x) == Yield(b.current, x)
  {
    hide Yield;
    assert fs[b.stage..] == [];
  }

  lemma StepOutcome(fs: seq<Transform>, cap: nat, items: seq<Value>, s: State, l: Label, x: Value)
    requires Enabled(cap, s, l) && OutcomeKept(fs, items, s, x) && Bookkept(fs, items, s)
    ensures OutcomeKept(fs, items, Apply(fs, cap, s, l), x)
  {
    hide Owed, Emit, Run, Yield, Yields, Count;
    match l
    case Feed =>
      YieldsHead(fs, s.unfed, x);
      YieldsAppend(fs, s.input, s.unfed[0], x);
    case Take(w) =>
      OwedUpdate(fs, s.workers, w, Busy(s.input[0], 0, s.input[0]), x);
      YieldsHead(fs, s.input, x);
      assert fs[0..] == fs;
    case Work(w) =>
      var b := s.workers[w];
      OwedUpdate(fs, s.workers, w, WorkStep(fs, s, w).workers[w], x);
      if b.stage < |fs| { StageOwes(fs, b, x); } else { LookOwes(fs, b, x); YieldIs(b.current, x); }
    case Send(w) =>
      OwedUpdate(fs, s.workers, w, Waiting, x);
      CountAppend(s.output, s.workers[w].out, x);
    case Leave(w) => OwedUpdate(fs, s.workers, w, Exited, x);
    case Close =>
    case Receive =>
      CountHead(s.output, x);
      CountAppend(s.results, s.output[0], x);
    case Finish =>
  }

  lemma YieldIs(v: Value, x: Value)
    ensures Yield(v, x) == if Emit(v) == Some(x) then 1 else 0
  {
  }

  lemma StepBookkept(fs: seq<Transform>, cap: nat, items: seq<Value>, s: State, l: Label)
    requires Enabled(cap, s, l) && Bookkept(fs, items, s)
    ensures Bookkept(fs, items, Apply(fs, cap, s, l))
  {
    hide Emit, Active;
    match l
    case Take(w) => ActiveUpdate(s.workers, w, Busy(s.input[0], 0, s.input[0]));
    case Work(w) => ActiveUpdate(s.workers, w, WorkStep(fs, s, w).workers[w]);
    case Send(w) => ActiveUpdate(s.workers, w, Waiting);
    case Leave(w) => ActiveUpdate(s.workers, w, Exited);
    case _ =>
  }

  lemma StepInvariant(fs: seq<Transform>, cap: nat, items: seq<Value>, s: State, l: Label)
    requires Enabled(cap, s, l) && Invariant(fs, items, s)
    ensures Invariant(fs, items, Apply(fs, cap, s, l))
  {
    hide ItemsKept, OutcomeKept, Bookkept, Apply, Enabled;
    forall x ensures ItemsKept(items, Apply(fs, cap, s, l), x) && OutcomeKept(fs, items, Apply(fs, cap, s, l), x) {
      StepItems(fs, cap, items, s, l, x);
      StepOutcome(fs, cap, items, s, l, x);
    }
    StepBookkept(fs, cap, items, s, l);
  }

  lemma StartInvariant(fs: seq<Transform>, items: seq<Value>, n: nat)
    ensures Invariant(fs, items, Start(items, n))
  {
    var s := Start(items, n);
    forall x ensures ItemsKept(items, s, x) && OutcomeKept(fs, items, s, x) { Idle(fs, s.workers, x); }
    Idle(fs, s.workers, Nil);
  }
}
