/** What handling a crash, stopping and removing come to, strategy by strategy, for the
    state in which the lock is released. */
module SupervisorEffects {
  import opened Supervisor
  import opened SupervisorRuns

  // ---------- when a crash stops everything ----------

  /** A counted crash of a tracked child is recorded for that child alone, and stops the
      supervisor exactly when more than `maxRestarts` of the child's crashes, this one
      included, lie within the window; else a restart begins. */
  lemma CrashDecides(cfg: Config, s: State, ref: nat, idx: nat)
    requires RefsAllocated(s) && Budgeted(cfg, s) && !s.stopped && Enabled(s, HandleCrash(ref))
    requires idx < |s.children| && s.children[idx].ref == ref && forall j :: 0 <= j < idx ==> s.children[j].ref != ref
    ensures var u := Apply(cfg, s, HandleCrash(ref));
            var h := s.children[idx].history + [s.clock];
            && |u.children| == |s.children| && u.children[idx].history == h
            && (forall j :: 0 <= j < |s.children| && j != idx ==> u.children[j] == s.children[j])
            && (u.stopped <==> CountBetween(h, s.clock - cfg.window, s.clock) > cfg.maxRestarts)
            && (u.stopped ==> u.job == Stopping(0, false)) && (!u.stopped ==> u.job.Restarting?)
  {
    FoundAt(s.children, ref, idx);
    CountedExactly(cfg, s.children[idx], s.clock, s.stopped);
    hide InWindow, CountBetween, CountCrash, FindChild, Budgeted;
    CrashTaken(cfg, s, ref, idx);
  }

  lemma CrashTaken(cfg: Config, s: State, ref: nat, idx: nat)
    requires RefsAllocated(s) && !s.stopped && Enabled(s, HandleCrash(ref))
    requires idx < |s.children| && FindChild(s.children, ref) == idx
    ensures var u := Apply(cfg, s, HandleCrash(ref)); var child := CountCrash(cfg, s.children[idx], s.clock);
            && u.children == s.children[idx := child]
            && (u.stopped <==> |child.crashTimes| > cfg.maxRestarts)
            && (u.stopped ==> u.job == Stopping(0, false)) && (!u.stopped ==> u.job.Restarting?)
  {
    hide CountCrash, FindChild, Range;
  }

  lemma CountedExactly(cfg: Config, child: Child, now: int, stopped: bool)
    requires Kept(cfg, child, now, stopped)
    ensures var c := CountCrash(cfg, child, now); var h := child.history + [now];
            c.history == h && |c.crashTimes| == CountBetween(h, now - cfg.window, now)
  {
    KeptHistory(cfg, child, now, stopped);
    CountCrashExact(cfg, child, now);
    CountIsWindow(child.history + [now], now - cfg.window, now);
  }

  lemma {:induction false} FoundAt(children: seq<Child>, ref: nat, idx: nat)
    requires idx < |children| && children[idx].ref == ref && forall j :: 0 <= j < idx ==> children[j].ref != ref
    ensures FindChild(children, ref) == idx
  {
  }

  lemma KeptHistory(cfg: Config, c: Child, clock: int, stopped: bool)
    requires Kept(cfg, c, clock, stopped)
    ensures WindowExact(cfg, c) && Sorted(c.history + [clock])
    ensures |c.history| > 0 ==> c.history[|c.history| - 1] <= clock
  {
  }

  // ---------- what a restart leaves behind ----------

  /** The child at `j` has been stopped and started again since `s0`. */
  predicate Restarted(s0: State, s: State, j: nat) {
    && j < |s.children| == |s0.children| && s0.children[j].ref < |s.actors|
    && |s0.actors| <= s.children[j].ref < |s.actors|
    && s.children[j].spec == s0.children[j].spec && s.actors[s0.children[j].ref].done
  }

  /** The child at `j` has its actor still, which nobody told to stop. */
  predicate Untouched(s0: State, s: State, j: nat) {
    && j < |s.children| == |s0.children| && s0.children[j].ref < |s0.actors| <= |s.actors|
    && s.children[j].ref == s0.children[j].ref && s.children[j].spec == s0.children[j].spec
    && s.actors[s.children[j].ref].closed == s0.actors[s.children[j].ref].closed
  }

  predicate SameChild(s0: State, s: State, j: nat) {
    && j < |s.children| == |s0.children| && s0.children[j].ref < |s0.actors| <= |s.actors|
    && s.children[j].ref == s0.children[j].ref && s.children[j].spec == s0.children[j].spec
  }

  /** Midway through restarting children `lo` up to `hi` of `s0`. */
  predicate Underway(s0: State, lo: nat, hi: nat, s: State) {
    && |s.children| == |s0.children| && lo <= hi <= |s.children|
    && (s.job.Idle? || (s.job.Restarting? && s.job.end == hi && lo <= s.job.next <= hi))
    && var next := if s.job.Idle? then hi else s.job.next;
       && (forall j :: lo <= j < next ==> Restarted(s0, s, j))
       && (forall j :: next <= j < hi ==> SameChild(s0, s, j))
       && (forall j :: 0 <= j < |s.children| && !(lo <= j < hi) ==> Untouched(s0, s, j))
  }

  lemma ActorsUnderway(cfg: Config, s0: State, lo: nat, hi: nat, s: State, l: Label)
    requires Safe(s) && !s.job.Idle? && Enabled(s, l) && Underway(s0, lo, hi, s) && !l.Proceed?
    ensures Underway(s0, lo, hi, Apply(cfg, s, l))
  {
    var t := Apply(cfg, s, l);
    assert t.children == s.children && t.job == s.job && |t.actors| == |s.actors|;
    assert forall r :: 0 <= r < |s.actors| ==>
             t.actors[r].closed == s.actors[r].closed && (s.actors[r].done ==> t.actors[r].done);
    hide Safe, Apply;
    forall j | lo <= j < s.job.next ensures Restarted(s0, t, j) {
      assert Restarted(s0, s, j);
    }
    forall j | s.job.next <= j < hi ensures SameChild(s0, t, j) {
      assert SameChild(s0, s, j);
    }
    forall j | 0 <= j < |s.children| && !(lo <= j < hi) ensures Untouched(s0, t, j) {
      assert Untouched(s0, s, j);
    }
  }

  lemma ProceedUnderway(cfg: Config, s0: State, lo: nat, hi: nat, s: State)
    requires Safe(s) && !s.job.Idle? && Enabled(s, Proceed) && Underway(s0, lo, hi, s)
    ensures Underway(s0, lo, hi, Continue(s))
  {
    hide NoChildLost, ClosedIsAwaited, AwaitedIsClosed;
    var i := Target(s);
    if i >= |s.children| {
      assert s.job.next == hi;
      Carried(s0, lo, hi, s, Continue(s), hi);
    } else if !s.job.waiting && !TargetDone(s) {
      ClosedUnderway(s0, lo, hi, s);
    } else {
      RespawnUnderway(s0, lo, hi, s);
    }
  }

  /** The lock holder tells the actor at hand to stop. */
  lemma ClosedUnderway(s0: State, lo: nat, hi: nat, s: State)
    requires RefsAllocated(s) && Distinct(s.children) && JobInRange(s) && Underway(s0, lo, hi, s) && s.job.Restarting?
    requires Target(s) < |s.children| && !s.job.waiting && !TargetDone(s)
    ensures Underway(s0, lo, hi, Continue(s))
  {
    var t, i := Continue(s), Target(s);
    assert t.children == s.children;
    Carried(s0, lo, hi, s, t, s.job.next);
  }

  /** The actor at hand is done, and the child gets a new one. */
  lemma RespawnUnderway(s0: State, lo: nat, hi: nat, s: State)
    requires RefsAllocated(s) && Distinct(s.children) && JobInRange(s) && Underway(s0, lo, hi, s) && s.job.Restarting?
    requires Target(s) < |s.children| && TargetDone(s)
    ensures Underway(s0, lo, hi, Continue(s))
  {
    var t, i := Continue(s), Target(s);
    assert i == s.job.next && SameChild(s0, s, i);
    assert t.children == s.children[i := s.children[i].(ref := |s.actors|)];
    assert t.actors == s.actors + [FRESH];
    assert Restarted(s0, t, i);
    Carried(s0, lo, hi, s, t, i);
  }

  /** What an action that touches nothing but the child at hand carries over. */
  lemma Carried(s0: State, lo: nat, hi: nat, s: State, t: State, i: nat)
    requires RefsAllocated(s) && Distinct(s.children) && Underway(s0, lo, hi, s) && s.job.Restarting?
    requires |t.children| == |s.children| && |t.actors| >= |s.actors| && lo <= i <= hi && s.job.next == i
    requires forall j :: 0 <= j < |s.children| && (j != i || i >= hi) ==> t.children[j] == s.children[j]
    requires forall r :: 0 <= r < |s.actors| && s.actors[r].done ==> t.actors[r].done
    requires forall r :: 0 <= r < |s.actors| && (i < hi ==> r != s.children[i].ref) ==>
               t.actors[r].closed == s.actors[r].closed
    ensures forall j :: lo <= j < i ==> Restarted(s0, t, j)
    ensures forall j :: i < j < hi ==> SameChild(s0, t, j)
    ensures i < hi && t.children[i] == s.children[i] ==> SameChild(s0, t, i)
    ensures forall j :: 0 <= j < |s.children| && !(lo <= j < hi) ==> Untouched(s0, t, j)
  {
    forall j | lo <= j < i ensures Restarted(s0, t, j) {
      assert Restarted(s0, s, j);
    }
    forall j | i <= j < hi && t.children[j] == s.children[j] ensures SameChild(s0, t, j) {
      assert SameChild(s0, s, j);
    }
    forall j | 0 <= j < |s.children| && !(lo <= j < hi) ensures Untouched(s0, t, j) {
      assert Untouched(s0, s, j);
    }
  }

  lemma {:induction false} RunUnderway(cfg: Config, s0: State, lo: nat, hi: nat, s: State, ls: seq<Label>, t: State)
    requires Safe(s) && HeldRun(cfg, s, ls, t) && Underway(s0, lo, hi, s)
    ensures Underway(s0, lo, hi, t)
    decreases |ls|
  {
    hide Apply, Enabled, Underway;
    if |ls| > 0 {
      StepUnderway(cfg, s0, lo, hi, s, ls[0]);
      StepSafe(cfg, s, ls[0]);
      hide Safe;
      RunUnderway(cfg, s0, lo, hi, Apply(cfg, s, ls[0]), ls[1..], t);
    }
  }

  lemma StepUnderway(cfg: Config, s0: State, lo: nat, hi: nat, s: State, l: Label)
    requires Safe(s) && !s.job.Idle? && Enabled(s, l) && Underway(s0, lo, hi, s)
    ensures Underway(s0, lo, hi, Apply(cfg, s, l))
  {
    if l.Proceed? {
      ProceedUnderway(cfg, s0, lo, hi, s);
      hide Continue, Underway, Safe;
    } else {
      hide Underway, Safe;
      ActorsUnderway(cfg, s0, lo, hi, s, l);
    }
  }

  predicate AsTold(strategy: Strategy, idx: nat, s: State, t: State, j: nat) {
    match strategy
    case OneForOne => if j == idx then Restarted(s, t, j) else Untouched(s, t, j)
    case OneForAll => Restarted(s, t, j)
    case RestForOne => if j >= idx then Restarted(s, t, j) else Untouched(s, t, j)
  }

  /** A crash within the budget, however actors interleave with its handling.  When the
      lock is released: one-for-one has restarted the crashed child and left the others
      alone, one-for-all has restarted every child, rest-for-one those from the crashed
      one on. */
  lemma RestartByStrategy(cfg: Config, s: State, ref: nat, idx: nat, ls: seq<Label>, t: State)
    requires Safe(s) && !s.stopped && Enabled(s, HandleCrash(ref))
    requires idx < |s.children| && s.children[idx].ref == ref && forall j :: 0 <= j < idx ==> s.children[j].ref != ref
    requires var u := Apply(cfg, s, HandleCrash(ref)); !u.stopped && HeldRun(cfg, u, ls, t) && t.job.Idle?
    ensures |t.children| == |s.children|
    ensures forall j: nat :: j < |s.children| ==> AsTold(cfg.strategy, idx, s, t, j)
  {
    FoundAt(s.children, ref, idx);
    var u := Apply(cfg, s, HandleCrash(ref));
    var lo := if cfg.strategy.OneForAll? then 0 else idx;
    var hi := if cfg.strategy.OneForOne? then idx + 1 else |s.children|;
    CrashUnderway(cfg, s, ref, idx, lo, hi);
    StepSafe(cfg, s, HandleCrash(ref));
    hide Safe, Apply, HeldRun;
    RunUnderway(cfg, s, lo, hi, u, ls, t);
    hide Restarted, Untouched;
  }

  lemma CrashUnderway(cfg: Config, s: State, ref: nat, idx: nat, lo: nat, hi: nat)
    requires Safe(s) && !s.stopped && Enabled(s, HandleCrash(ref)) && !Apply(cfg, s, HandleCrash(ref)).stopped
    requires idx < |s.children| && FindChild(s.children, ref) == idx
    requires lo == if cfg.strategy.OneForAll? then 0 else idx
    requires hi == if cfg.strategy.OneForOne? then idx + 1 else |s.children|
    ensures Underway(s, lo, hi, Apply(cfg, s, HandleCrash(ref)))
  {
    hide InWindow, FindChild, Distinct, ClosedIsAwaited, NoChildLost;
    var u := Apply(cfg, s, HandleCrash(ref));
    assert u.job == Restarting(lo, hi, false);
    assert forall j :: 0 <= j < |s.children| ==>
             u.children[j].ref == s.children[j].ref && u.children[j].spec == s.children[j].spec;
  }

  // ---------- what stopping leaves behind ----------

  /** The children before the one at hand are done; the list is as it was. */
  predicate StoppedUpTo(s0: State, s: State) {
    && s.stopped && Pairs(s.children) == Pairs(s0.children) && RefsAllocated(s) && |s.actors| == |s0.actors|
    && (s.job.Idle? || s.job.Stopping?)
    && forall j :: 0 <= j < (if s.job.Idle? then |s.children| else s.job.next) && j < |s.children| ==>
         s.actors[s.children[j].ref].done
  }

  function Pairs(children: seq<Child>): seq<(Spec, nat)> {
    seq(|children|, i requires 0 <= i < |children| => (children[i].spec, children[i].ref))
  }

  lemma StopStep(cfg: Config, s0: State, s: State, l: Label)
    requires Safe(s) && !s.job.Idle? && Enabled(s, l) && StoppedUpTo(s0, s)
    ensures StoppedUpTo(s0, Apply(cfg, s, l))
  {
    hide NoChildLost, ClosedIsAwaited, Distinct, Pairs;
    assert Apply(cfg, s, l).children == s.children;
  }

  lemma {:induction false} StopRun(cfg: Config, s0: State, s: State, ls: seq<Label>, t: State)
    requires Safe(s) && HeldRun(cfg, s, ls, t) && StoppedUpTo(s0, s)
    ensures StoppedUpTo(s0, t)
    decreases |ls|
  {
    hide Apply, Enabled, StoppedUpTo;
    if |ls| > 0 {
      StopStep(cfg, s0, s, ls[0]);
      StepSafe(cfg, s, ls[0]);
      hide Safe;
      StopRun(cfg, s0, Apply(cfg, s, ls[0]), ls[1..], t);
    }
  }

  /** After `Stop`, and after a crash over the budget, when the lock is released every
      child's actor is done, none was started, and the supervisor is stopped. */
  lemma StopEffect(cfg: Config, s: State, l: Label, ls: seq<Label>, t: State)
    requires Safe(s) && Enabled(s, l) && (l.Stop? || (l.HandleCrash? && !s.stopped && Apply(cfg, s, l).stopped))
    requires HeldRun(cfg, Apply(cfg, s, l), ls, t) && t.job.Idle?
    ensures t.stopped && Pairs(t.children) == Pairs(s.children) && |t.actors| == |s.actors| && RefsAllocated(t)
    ensures forall j :: 0 <= j < |t.children| ==> t.actors[t.children[j].ref].done
  {
    StopBegins(cfg, s, l);
    StepSafe(cfg, s, l);
    hide Safe, Apply, HeldRun, Pairs;
    StopRun(cfg, s, Apply(cfg, s, l), ls, t);
  }

  lemma StopBegins(cfg: Config, s: State, l: Label)
    requires Safe(s) && Enabled(s, l) && (l.Stop? || (l.HandleCrash? && !s.stopped && Apply(cfg, s, l).stopped))
    ensures StoppedUpTo(s, Apply(cfg, s, l))
  {
    hide InWindow, Distinct, ClosedIsAwaited, NoChildLost;
    var u := Apply(cfg, s, l);
    assert forall j :: 0 <= j < |s.children| ==>
             u.children[j].ref == s.children[j].ref && u.children[j].spec == s.children[j].spec;
  }

  // ---------- what removing and adding leave behind ----------

  predicate Leaving(s0: State, idx: nat, s: State) {
    && RefsAllocated(s) && idx < |s0.children| && s0.children[idx].ref < |s.actors| == |s0.actors|
    && s.stopped == s0.stopped
    && if s.job.Idle? then
         s.children == s0.children[..idx] + s0.children[idx + 1..] && s.actors[s0.children[idx].ref].done
       else s.job.Removing? && s.job.idx == idx && s.children == s0.children
  }

  lemma LeavingStep(cfg: Config, s0: State, idx: nat, s: State, l: Label)
    requires Safe(s) && !s.job.Idle? && Enabled(s, l) && Leaving(s0, idx, s)
    ensures Leaving(s0, idx, Apply(cfg, s, l))
  {
    hide NoChildLost, ClosedIsAwaited, Distinct;
  }

  lemma {:induction false} LeavingRun(cfg: Config, s0: State, idx: nat, s: State, ls: seq<Label>, t: State)
    requires Safe(s) && HeldRun(cfg, s, ls, t) && Leaving(s0, idx, s)
    ensures Leaving(s0, idx, t)
    decreases |ls|
  {
    hide Apply, Enabled, Leaving;
    if |ls| > 0 {
      LeavingStep(cfg, s0, idx, s, ls[0]);
      StepSafe(cfg, s, ls[0]);
      hide Safe;
      LeavingRun(cfg, s0, idx, Apply(cfg, s, ls[0]), ls[1..], t);
    }
  }

  /** Removing a tracked child: when the lock is released its actor is done, and the
      other children are as they were, in order. */
  lemma RemoveEffect(cfg: Config, s: State, ref: nat, idx: nat, ls: seq<Label>, t: State)
    requires Safe(s) && Enabled(s, RemoveChild(ref))
    requires idx < |s.children| && s.children[idx].ref == ref && forall j :: 0 <= j < idx ==> s.children[j].ref != ref
    requires HeldRun(cfg, Apply(cfg, s, RemoveChild(ref)), ls, t) && t.job.Idle?
    ensures t.children == s.children[..idx] + s.children[idx + 1..]
    ensures ref < |t.actors| && t.actors[ref].done && t.stopped == s.stopped
  {
    FoundAt(s.children, ref, idx);
    assert Leaving(s, idx, Apply(cfg, s, RemoveChild(ref)));
    StepSafe(cfg, s, RemoveChild(ref));
    hide Safe, Apply, HeldRun;
    LeavingRun(cfg, s, idx, Apply(cfg, s, RemoveChild(ref)), ls, t);
  }

  /** Removing an untracked ref changes nothing; adding puts a running child of this
      spec at the end. */
  lemma RemoveUntrackedAndAdd(cfg: Config, s: State, ref: nat, spec: Spec)
    requires RefsAllocated(s) && s.job.Idle?
    ensures (forall j :: 0 <= j < |s.children| ==> s.children[j].ref != ref) ==> Apply(cfg, s, RemoveChild(ref)) == s
    ensures var t := Apply(cfg, s, AddChild(spec)); var n := |s.children|;
            && |t.children| == n + 1 && t.children[..n] == s.children && t.children[n].spec == spec
            && t.children[n].ref == |s.actors| && |t.actors| == |s.actors| + 1 && t.actors[..|s.actors|] == s.actors
            && !t.actors[|s.actors|].closed && !t.actors[|s.actors|].done
            && t.children[n].history == [] && t.stopped == s.stopped && t.job.Idle?
  {
    var i := FindChild(s.children, ref);
  }
}
