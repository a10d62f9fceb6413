/** Properties of whole runs of the supervisor: safety, the fate of stale
    callbacks, what a restart replaces, and the sliding restart budget. */
module SupervisorRuns {
  import opened Supervisor

  /** `ls` leads from `s` to `t`. */
  predicate Runs(cfg: Config, s: State, ls: seq<Label>, t: State)
    decreases |ls|
  {
    if |ls| == 0 then s == t
    else RefsAllocated(s) && Enabled(s, ls[0]) && Runs(cfg, Apply(cfg, s, ls[0]), ls[1..], t)
  }

  /** Safety over every interleaving after `Start`: no mailbox is closed twice,
      tracked refs are distinct, no child is lost. */
  lemma {:induction false} RunSafe(cfg: Config, s: State, ls: seq<Label>, t: State)
    requires Safe(s) && Runs(cfg, s, ls, t)
    ensures Safe(t)
    decreases |ls|
  {
    hide Safe, Apply, Enabled;
    if |ls| > 0 {
      StepSafe(cfg, s, ls[0]);
      RunSafe(cfg, Apply(cfg, s, ls[0]), ls[1..], t);
    }
  }

  lemma SafetyFromStart(cfg: Config, specs: seq<Spec>, now: int, ls: seq<Label>, t: State)
    requires Runs(cfg, Started(specs, now), ls, t)
    ensures !t.fault && Distinct(t.children) && RefsAllocated(t)
    ensures !t.stopped && t.job.Idle? ==>
              forall i :: 0 <= i < |t.children| && t.actors[t.children[i].ref].done ==> t.actors[t.children[i].ref].owed
  {
    StartedSafe(specs, now);
    RunSafe(cfg, Started(specs, now), ls, t);
  }

  // ---------- stale callbacks ----------

  predicate Untracked(s: State, ref: nat) {
    ref < |s.actors| && forall i :: 0 <= i < |s.children| ==> s.children[i].ref != ref
  }

  /** A callback for a ref that is no longer tracked, or one that arrives
      after the supervisor stopped, changes nothing but being used up. */
  lemma StaleCallback(cfg: Config, s: State, ref: nat)
    requires Enabled(s, HandleCrash(ref)) && RefsAllocated(s) && (s.stopped || Untracked(s, ref))
    ensures Apply(cfg, s, HandleCrash(ref)) == TakeCallback(s, ref)
  {
    if FindChild(s.children, ref) < |s.children| {
      assert s.children[FindChild(s.children, ref)].ref == ref;
    }
  }

  lemma UntrackedStep(cfg: Config, s: State, l: Label, ref: nat)
    requires Safe(s) && Enabled(s, l) && Untracked(s, ref)
    ensures Untracked(Apply(cfg, s, l), ref)
  {
  }

  /** A ref that was replaced or removed is never tracked again. */
  lemma {:induction false} UntrackedForever(cfg: Config, s: State, ls: seq<Label>, t: State, ref: nat)
    requires Safe(s) && Runs(cfg, s, ls, t) && Untracked(s, ref)
    ensures Untracked(t, ref)
    decreases |ls|
  {
    if |ls| > 0 {
      hide Apply, Enabled, Untracked;
      UntrackedStep(cfg, s, ls[0], ref);
      StepSafe(cfg, s, ls[0]);
      hide Safe;
      UntrackedForever(cfg, Apply(cfg, s, ls[0]), ls[1..], t, ref);
    }
  }

  // ---------- what a restart replaces ----------

  function Specs(children: seq<Child>): (r: seq<Spec>)
    ensures |r| == |children|
  {
    seq(|children|, i requires 0 <= i < |children| => children[i].spec)
  }

  /** Only the callers' `AddChild` and `RemoveChild` change the list of specs:
      crashes, restarts and stopping never do. */
  lemma SpecsKept(cfg: Config, s: State, l: Label)
    requires Safe(s) && Enabled(s, l) && !l.AddChild? && !s.job.Removing?
    ensures Specs(Apply(cfg, s, l).children) == Specs(s.children)
  {
  }

  /** A run during which the lock is never released before its end. */
  predicate HeldRun(cfg: Config, s: State, ls: seq<Label>, t: State)
    decreases |ls|
  {
    if |ls| == 0 then s == t
    else !s.job.Idle? && RefsAllocated(s) && Enabled(s, ls[0]) && HeldRun(cfg, Apply(cfg, s, ls[0]), ls[1..], t)
  }

  /** Midway through restarting children `lo` to `hi` of `s0`: those before
      `done` have new refs, all others the refs they had. */
  predicate Replaced(s0: State, lo: nat, done: nat, s: State) {
    && |s.children| == |s0.children| && |s.actors| >= |s0.actors|
    && forall j :: 0 <= j < |s.children| ==>
                     && s.children[j].spec == s0.children[j].spec
                     && (if lo <= j < done then s.children[j].ref >= |s0.actors|
                         else s.children[j].ref == s0.children[j].ref)
  }

  predicate Midway(s0: State, lo: nat, hi: nat, s: State) {
    if s.job.Idle? then Replaced(s0, lo, hi, s)
    else s.job.Restarting? && s.job.end == hi && lo <= s.job.next && Replaced(s0, lo, s.job.next, s)
  }

  lemma MidwayStep(cfg: Config, s0: State, lo: nat, hi: nat, s: State, l: Label)
    requires Safe(s) && !s.job.Idle? && Enabled(s, l) && Midway(s0, lo, hi, s)
    ensures Midway(s0, lo, hi, Apply(cfg, s, l))
  {
  }

  lemma {:induction false} MidwayRun(cfg: Config, s0: State, lo: nat, hi: nat, s: State, ls: seq<Label>, t: State)
    requires Safe(s) && HeldRun(cfg, s, ls, t) && Midway(s0, lo, hi, s)
    ensures Midway(s0, lo, hi, t)
    decreases |ls|
  {
    if |ls| > 0 {
      hide Apply, Enabled, Midway;
      MidwayStep(cfg, s0, lo, hi, s, ls[0]);
      StepSafe(cfg, s, ls[0]);
      hide Safe;
      MidwayRun(cfg, s0, lo, hi, Apply(cfg, s, ls[0]), ls[1..], t);
    }
  }

  /** The whole handling of a counted crash within budget, however actors
      interleave with it: when the lock is released exactly the children in the
      strategy's range have fresh refs and every other child is untouched. */
  lemma RestartEffect(cfg: Config, s: State, ref: nat, ls: seq<Label>, t: State)
    requires Safe(s) && !s.stopped && Enabled(s, HandleCrash(ref)) && Tracks(s, ref)
    requires var u := Apply(cfg, s, HandleCrash(ref));
             !u.stopped && HeldRun(cfg, u, ls, t) && t.job.Idle?
    ensures var range := Range(cfg.strategy, FindChild(s.children, ref), |s.children|);
            Replaced(s, range.0, range.1, t)
  {
    var u := Apply(cfg, s, HandleCrash(ref));
    var range := Range(cfg.strategy, FindChild(s.children, ref), |s.children|);
    assert Midway(s, range.0, range.1, u) by { CrashStarts(cfg, s, ref); }
    StepSafe(cfg, s, HandleCrash(ref));
    hide Safe, Apply, HeldRun;
    MidwayRun(cfg, s, range.0, range.1, u, ls, t);
  }

  lemma CrashStarts(cfg: Config, s: State, ref: nat)
    requires RefsAllocated(s) && !s.stopped && Enabled(s, HandleCrash(ref)) && Tracks(s, ref)
    requires !Apply(cfg, s, HandleCrash(ref)).stopped
    ensures var range := Range(cfg.strategy, FindChild(s.children, ref), |s.children|);
            Midway(s, range.0, range.1, Apply(cfg, s, HandleCrash(ref)))
  {
  }

  /** Work left for the lock holder. */
  function Work(s: State): nat {
    match s.job
    case Idle => 0
    case Restarting(next, end, waiting) => 1 + if next < end then 2 * (end - next) - (if waiting then 1 else 0) else 0
    case Stopping(next, waiting) =>
      1 + if next < |s.children| then 2 * (|s.children| - next) - (if waiting then 1 else 0) else 0
    case Removing(_, waiting) => if waiting then 1 else 2
  }

  /** The lock holder never deadlocks: it can act, or the actor it waits for
      has been told to stop and can exit; and its own actions are bounded. */
  lemma HolderProgress(cfg: Config, s: State)
    requires Safe(s) && !s.job.Idle?
    ensures Enabled(s, Proceed)
            || (Target(s) < |s.children| && Enabled(s, ActorExits(s.children[Target(s)].ref)))
    ensures Enabled(s, Proceed) ==> Work(Apply(cfg, s, Proceed)) < Work(s)
  {
  }

  // ---------- the sliding window ----------

  predicate Sorted(times: seq<int>) {
    forall i, j :: 0 <= i < j < |times| ==> times[i] <= times[j]
  }

  /** Crashes of a history at times from `a` to `b`. */
  function CountBetween(times: seq<int>, a: int, b: int): nat {
    if |times| == 0 then 0
    else CountBetween(times[..|times| - 1], a, b) + if a <= times[|times| - 1] <= b then 1 else 0
  }

  /** The kept times are the history filtered to the window ending at the last
      crash. */
  predicate WindowExact(cfg: Config, child: Child) {
    child.crashTimes
    == if |child.history| == 0 then [] else InWindow(child.history, child.history[|child.history| - 1] - cfg.window)
  }

  /** After each counted crash the window held at most `maxRestarts`. */
  predicate WithinBudget(cfg: Config, history: seq<int>) {
    forall k :: 0 <= k < |history| ==> |InWindow(history[..k + 1], history[k] - cfg.window)| <= cfg.maxRestarts
  }

  predicate Kept(cfg: Config, child: Child, clock: int, stopped: bool) {
    var h := child.history;
    && Sorted(h) && (|h| > 0 ==> h[|h| - 1] <= clock)
    && WindowExact(cfg, child) && (!stopped ==> WithinBudget(cfg, h))
  }

  predicate Budgeted(cfg: Config, s: State) {
    forall i :: 0 <= i < |s.children| ==> Kept(cfg, s.children[i], s.clock, s.stopped)
  }

  /** The record of a child is judged by its crashes, not by its ref. */
  lemma KeptSame(cfg: Config, c: Child, d: Child, clock: int, stopped: bool)
    requires Kept(cfg, c, clock, stopped) && c.history == d.history && c.crashTimes == d.crashTimes
    ensures Kept(cfg, d, clock, stopped)
  {
  }

  /** Time passing and stopping keep a record good. */
  lemma KeptLater(cfg: Config, c: Child, clock: int, stopped: bool, clock': int, stopped': bool)
    requires Kept(cfg, c, clock, stopped) && clock <= clock' && (stopped ==> stopped')
    ensures Kept(cfg, c, clock', stopped')
  {
  }

  lemma InWindowAppend(times: seq<int>, t: int, a: int)
    ensures InWindow(times + [t], a) == InWindow(times, a) + if t >= a then [t] else []
  {
    assert (times + [t])[..|times|] == times;
  }

  /** Filtering twice with growing bounds is filtering once. */
  lemma {:induction false} InWindowTwice(times: seq<int>, a: int, b: int)
    requires a <= b
    ensures InWindow(InWindow(times, a), b) == InWindow(times, b)
    decreases |times|
  {
    if |times| > 0 {
      var n := |times| - 1;
      var w := InWindow(times[..n], a);
      InWindowTwice(times[..n], a, b);
      InWindowAppend(w, times[n], b);
      hide InWindow;
      assert w + [] == w;
    }
  }

  /** Counting a crash keeps the kept times exact. */
  lemma CountCrashExact(cfg: Config, child: Child, now: int)
    requires WindowExact(cfg, child) && (|child.history| > 0 ==> child.history[|child.history| - 1] <= now)
    ensures WindowExact(cfg, CountCrash(cfg, child, now))
  {
    var h := child.history;
    var start := now - cfg.window;
    InWindowAppend(child.crashTimes, now, start);
    InWindowAppend(h, now, start);
    if |h| > 0 {
      InWindowTwice(h, h[|h| - 1] - cfg.window, start);
    }
  }

  lemma WithinBudgetAppend(cfg: Config, history: seq<int>, now: int)
    requires WithinBudget(cfg, history) && |InWindow(history + [now], now - cfg.window)| <= cfg.maxRestarts
    ensures WithinBudget(cfg, history + [now])
  {
    hide InWindow;
    var h := history + [now];
    forall k | 0 <= k < |h| ensures |InWindow(h[..k + 1], h[k] - cfg.window)| <= cfg.maxRestarts {
      if k < |history| {
        assert h[..k + 1] == history[..k + 1] && h[k] == history[k];
      } else {
        assert h[..k + 1] == h;
      }
    }
  }

  /** Counting a crash within the budget keeps a record good. */
  lemma KeptCrash(cfg: Config, c: Child, now: int, stopped: bool)
    requires Kept(cfg, c, now, stopped) && (stopped || |CountCrash(cfg, c, now).crashTimes| <= cfg.maxRestarts)
    ensures Kept(cfg, CountCrash(cfg, c, now), now, stopped)
  {
    hide InWindow, Sorted, WithinBudget;
    CountCrashExact(cfg, c, now);
    SortedAppend(c.history, now);
    if !stopped { WithinBudgetAppend(cfg, c.history, now); }
  }

  lemma CrashBudgeted(cfg: Config, s: State, ref: nat)
    requires Budgeted(cfg, s) && ref < |s.actors| && RefsAllocated(s)
    ensures Budgeted(cfg, Crash(cfg, s, ref))
  {
    hide Kept, InWindow;
    var idx := FindChild(s.children, ref);
    if !s.stopped && idx < |s.children| {
      var child := s.children[idx];
      var over := |CountCrash(cfg, child, s.clock).crashTimes| > cfg.maxRestarts;
      forall i | 0 <= i < |s.children| ensures Kept(cfg, s.children[i], s.clock, over) {
        KeptLater(cfg, s.children[i], s.clock, s.stopped, s.clock, over);
      }
      KeptCrash(cfg, child, s.clock, over);
    }
  }

  lemma SortedAppend(times: seq<int>, t: int)
    requires Sorted(times) && (|times| > 0 ==> times[|times| - 1] <= t)
    ensures Sorted(times + [t])
  {
  }

  lemma KeptFresh(cfg: Config, spec: Spec, ref: nat, clock: int, stopped: bool)
    ensures Kept(cfg, Child(spec, ref, [], []), clock, stopped)
  {
  }

  lemma BudgetStep(cfg: Config, s: State, l: Label)
    requires Safe(s) && Enabled(s, l) && Budgeted(cfg, s)
    ensures Budgeted(cfg, Apply(cfg, s, l))
  {
    hide Kept, ClosedIsAwaited, NoChildLost, AwaitedIsClosed, Distinct;
    match l
    case HandleCrash(ref) =>
      hide Budgeted, Crash;
      CrashBudgeted(cfg, s, ref);
    case AddChild(spec) => KeptFresh(cfg, spec, |s.actors|, s.clock, s.stopped);
    case Proceed =>
      hide Budgeted, Continue;
      ContinueBudgeted(cfg, s);
    case Tick(now) =>
      forall i | 0 <= i < |s.children| ensures Kept(cfg, s.children[i], now, s.stopped) {
        KeptLater(cfg, s.children[i], s.clock, s.stopped, now, s.stopped);
      }
    case Stop =>
      forall i | 0 <= i < |s.children| ensures Kept(cfg, s.children[i], s.clock, true) {
        KeptLater(cfg, s.children[i], s.clock, s.stopped, s.clock, true);
      }
    case _ =>
  }

  /** The lock holder's actions leave every child's crash record alone. */
  lemma ContinueBudgeted(cfg: Config, s: State)
    requires Safe(s) && Enabled(s, Proceed) && Budgeted(cfg, s)
    ensures Budgeted(cfg, Continue(s))
  {
    hide Kept, ClosedIsAwaited, NoChildLost, AwaitedIsClosed, Distinct;
    var i := Target(s);
    if s.job.Restarting? && i < |s.children| {
      KeptSame(cfg, s.children[i], s.children[i].(ref := |s.actors|), s.clock, s.stopped);
    }
  }

  lemma {:induction false} RunBudgeted(cfg: Config, s: State, ls: seq<Label>, t: State)
    requires Safe(s) && Budgeted(cfg, s) && Runs(cfg, s, ls, t)
    ensures Budgeted(cfg, t)
    decreases |ls|
  {
    hide Safe, Apply, Enabled, Budgeted;
    if |ls| > 0 {
      BudgetStep(cfg, s, ls[0]);
      StepSafe(cfg, s, ls[0]);
      RunBudgeted(cfg, Apply(cfg, s, ls[0]), ls[1..], t);
    }
  }

  /** In a sorted history with nothing after `b`, counting from `a` is
      filtering from `a`. */
  lemma {:induction false} CountIsWindow(times: seq<int>, a: int, b: int)
    requires forall k :: 0 <= k < |times| ==> times[k] <= b
    ensures CountBetween(times, a, b) == |InWindow(times, a)|
    decreases |times|
  {
    if |times| > 0 { CountIsWindow(times[..|times| - 1], a, b); }
  }

  lemma {:induction false} WindowShrinks(times: seq<int>, a: int, b: int)
    requires a <= b
    ensures |InWindow(times, b)| <= |InWindow(times, a)|
    decreases |times|
  {
    if |times| > 0 { WindowShrinks(times[..|times| - 1], a, b); }
  }

  /** No interval as long as the window holds more counted crashes of one
      child than the budget. */
  lemma {:induction false} IntervalBudget(cfg: Config, history: seq<int>, a: int)
    requires Sorted(history) && WithinBudget(cfg, history)
    ensures CountBetween(history, a, a + cfg.window) <= if cfg.maxRestarts > 0 then cfg.maxRestarts else 0
    decreases |history|
  {
    if |history| > 0 {
      var n := |history| - 1;
      if a <= history[n] <= a + cfg.window {
        assert history[..n + 1] == history;
        CountIsWindow(history, a, history[n]);
        SameCount(history, a, history[n], a + cfg.window);
        WindowShrinks(history, history[n] - cfg.window, a);
      } else {
        PrefixBudget(cfg, history, n);
        IntervalBudget(cfg, history[..n], a);
      }
    }
  }

  lemma {:induction false} SameCount(times: seq<int>, a: int, b: int, b': int)
    requires b <= b' && forall k :: 0 <= k < |times| ==> times[k] <= b
    ensures CountBetween(times, a, b) == CountBetween(times, a, b')
    decreases |times|
  {
    if |times| > 0 { SameCount(times[..|times| - 1], a, b, b'); }
  }

  lemma PrefixBudget(cfg: Config, history: seq<int>, n: nat)
    requires n <= |history| && Sorted(history) && WithinBudget(cfg, history)
    ensures Sorted(history[..n]) && WithinBudget(cfg, history[..n])
  {
    hide InWindow;
    var p := history[..n];
    forall k | 0 <= k < n ensures |InWindow(p[..k + 1], p[k] - cfg.window)| <= cfg.maxRestarts {
      assert p[..k + 1] == history[..k + 1];
    }
  }

  /** In every run from `Start` the kept crash times of each child are its full
      history filtered to the window; and while the supervisor has not stopped,
      no interval as long as the window contains more than `maxRestarts` counted
      crashes of one child. */
  lemma RestartBudget(cfg: Config, specs: seq<Spec>, now: int, ls: seq<Label>, t: State, i: nat, a: int)
    requires Runs(cfg, Started(specs, now), ls, t) && i < |t.children|
    ensures WindowExact(cfg, t.children[i])
    ensures !t.stopped ==>
              CountBetween(t.children[i].history, a, a + cfg.window)
              <= if cfg.maxRestarts > 0 then cfg.maxRestarts else 0
  {
    hide InWindow, Runs;
    StartedSafe(specs, now);
    StartedBudgeted(cfg, specs, now);
    RunBudgeted(cfg, Started(specs, now), ls, t);
    assert Kept(cfg, t.children[i], t.clock, t.stopped);
    hide Budgeted, Kept, WithinBudget, Sorted;
    if !t.stopped {
      BudgetedChild(cfg, t, i);
      IntervalBudget(cfg, t.children[i].history, a);
    }
  }

  lemma BudgetedChild(cfg: Config, s: State, i: nat)
    requires Budgeted(cfg, s) && i < |s.children| && !s.stopped
    ensures Sorted(s.children[i].history) && WithinBudget(cfg, s.children[i].history)
  {
  }

  lemma StartedBudgeted(cfg: Config, specs: seq<Spec>, now: int)
    ensures Budgeted(cfg, Started(specs, now))
  {
    hide InWindow;
  }
}
