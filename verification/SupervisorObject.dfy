/** The supervisor as an object: child records that are updated in place.  A
    handler holds the lock from its first action to its last; each method is
    one stretch between two points at which it may block, and computes that
    step of the step system. */
module SupervisorObject {
  import opened Supervisor

  class ChildState {
    const spec: Spec
    var ref: nat
    var crashTimes: seq<int>
    ghost var history: seq<int>

    constructor (spec: Spec, ref: nat)
      ensures this.spec == spec && this.ref == ref && crashTimes == [] && history == []
    {
      this.spec, this.ref, crashTimes, history := spec, ref, [], [];
    }
  }

  ghost function ChildOf(c: ChildState): Child
    reads c
  {
    Child(c.spec, c.ref, c.crashTimes, c.history)
  }

  ghost function View(children: seq<ChildState>): (r: seq<Child>)
    reads children
    ensures |r| == |children| && forall i :: 0 <= i < |r| ==> r[i] == ChildOf(children[i])
  {
    seq(|children|, i requires 0 <= i < |children| reads children => ChildOf(children[i]))
  }

  class SupervisorObject {
    const config: Config
    var children: seq<ChildState>
    var actors: seq<Actor>
    var stopped: bool
    var job: Job
    var clock: int
    ghost var fault: bool

    ghost predicate Valid()
      reads this
    {
      forall i, j :: 0 <= i < j < |children| ==> children[i] != children[j]
    }

    ghost function Snapshot(): State
      reads this, children
    {
      State(View(children), actors, stopped, job, clock, fault)
    }

    /** `NewSupervisor` and `Start`: one fresh actor per spec, in order. */
    constructor (config: Config, specs: seq<Spec>, now: int)
      ensures Valid() && this.config == config && fresh(children) && Snapshot() == Started(specs, now)
    {
      this.config, stopped, job, clock, fault := config, false, Idle, now, false;
      children, actors := [], [];
      new;
      for i := 0 to |specs|
        invariant Valid() && fresh(children) && |children| == |actors| == i && this.config == config
        invariant !stopped && job == Idle && clock == now && !fault
        invariant forall k :: 0 <= k < i ==> ChildOf(children[k]) == Child(specs[k], k, [], []) && actors[k] == FRESH
      {
        var c := new ChildState(specs[i], |actors|);
        children, actors := children + [c], actors + [FRESH];
      }
      assert View(children) == Started(specs, now).children;
    }

    /** The search loop over the child records. */
    method FindRef(ref: nat) returns (i: nat)
      ensures i == FindChild(View(children), ref)
    {
      ghost var view := View(children);
      i := 0;
      while i < |children| && children[i].ref != ref
        invariant i <= |children| && FindChild(view, ref) == i + FindChild(view[i..], ref)
      {
        assert view[i..][1..] == view[i + 1..];
        i := i + 1;
      }
    }

    /** `handleCrash` up to its first blocking action: count the crash, prune
        the window, and decide between stopping and restarting. */
    method HandleCrash(ref: nat)
      requires Valid() && ref < |actors|
      modifies this, children
      ensures Valid() && children == old(children) && Snapshot() == Crash(config, old(Snapshot()), ref)
    {
      hide FindChild, CountCrash, View, Range, Crash;
      ghost var before := Snapshot();
      CrashIs(config, before, ref);
      actors := actors[ref := actors[ref].(owed := false)];
      if stopped {
        return;
      }
      var idx := FindRef(ref);
      if idx == |children| {
        return;
      }
      var crashes := CountCrashOf(idx);
      assert View(children) == before.children[idx := CountCrash(config, before.children[idx], clock)];
      assert crashes == |CountCrash(config, before.children[idx], clock).crashTimes|;
      Decide(idx, crashes);
    }

    /** Over the budget: stop everything; else restart what the strategy says. */
    method Decide(idx: nat, crashes: nat)
      modifies `stopped, `job
      ensures stopped == (old(stopped) || crashes > config.maxRestarts)
      ensures var range := Range(config.strategy, idx, |children|);
              job == if crashes > config.maxRestarts then Stopping(0, false) else Restarting(range.0, range.1, false)
    {
      if crashes > config.maxRestarts {
        stopped, job := true, Stopping(0, false);
        return;
      }
      match config.strategy
      case OneForOne => job := Restarting(idx, idx + 1, false);
      case OneForAll => job := Restarting(0, |children|, false);
      case RestForOne => job := Restarting(idx, |children|, false);
    }

    /** Append the crash and keep the times inside the window. */
    method CountCrashOf(idx: nat) returns (crashes: nat)
      requires Valid() && idx < |children|
      modifies children[idx]
      ensures View(children) == old(View(children))[idx := CountCrash(config, old(View(children))[idx], clock)]
      ensures crashes == |View(children)[idx].crashTimes|
    {
      hide InWindow;
      var child := children[idx];
      child.crashTimes, child.history := child.crashTimes + [clock], child.history + [clock];
      var inWindow := Prune(child.crashTimes, clock - config.window);
      child.crashTimes := inWindow;
      crashes := |inWindow|;
      assert View(children) == old(View(children))[idx := CountCrash(config, old(View(children))[idx], clock)];
    }

    /** What the lock holder does next to its current child: close the mailbox
        and wait, or, the actor being done, respawn, move on or unregister. */
    method Proceed()
      requires Valid() && RefsAllocated(Snapshot()) && Supervisor.Enabled(Snapshot(), Label.Proceed)
      modifies this, children
      ensures Valid() && Snapshot() == Continue(old(Snapshot()))
    {
      hide View;
      ghost var before := Snapshot();
      var target := CurrentTarget();
      if target >= |children| {
        job := Idle;
        return;
      }
      var child := children[target];
      assert ChildOf(child) == before.children[target];
      if !job.waiting && !actors[child.ref].done {
        CloseAndWait(child.ref);
        assert Snapshot() == Continue(before);
        return;
      }
      Finish(target);
    }

    /** The current child's actor is done, or has just been waited for. */
    method Finish(target: nat)
      requires Valid() && RefsAllocated(Snapshot()) && !job.Idle?
      requires target == Target(Snapshot()) < |children| && (job.waiting || actors[children[target].ref].done)
      modifies this, children
      ensures Valid() && Snapshot() == Continue(old(Snapshot()))
    {
      hide View;
      ghost var before := Snapshot();
      assert job.waiting || TargetDone(before);
      ContinueDone(before);
      hide Continue, Respawn;
      match job
      case Restarting(next, end, _) =>
        RestartChild(target);
        job := Restarting(next + 1, end, false);
      case Stopping(next, _) =>
        job := Stopping(next + 1, false);
      case Removing(_, _) =>
        Unregister(target);
        job := Idle;
    }

    method CloseAndWait(ref: nat)
      requires !job.Idle? && ref < |actors|
      modifies this
      ensures Snapshot() == CloseMailbox(old(Snapshot()), ref).(job := old(job).(waiting := true))
      ensures children == old(children)
    {
      fault := fault || actors[ref].closed;
      actors := actors[ref := actors[ref].(closed := true)];
      job := job.(waiting := true);
    }

    method Unregister(idx: nat)
      requires Valid() && idx < |children|
      modifies `children
      ensures Valid() && View(children) == old(View(children))[..idx] + old(View(children))[idx + 1..]
    {
      children := children[..idx] + children[idx + 1..];
    }

    /** Spawn the child's spec again and track the new actor. */
    method RestartChild(idx: nat)
      requires Valid() && idx < |children|
      modifies `actors, children[idx]
      ensures actors == old(actors) + [FRESH]
      ensures View(children) == old(View(children))[idx := old(View(children))[idx].(ref := |old(actors)|)]
    {
      children[idx].ref := |actors|;
      actors := actors + [FRESH];
      assert View(children) == old(View(children))[idx := old(View(children))[idx].(ref := |old(actors)|)];
    }

    method CurrentTarget() returns (target: nat)
      ensures target == Target(Snapshot())
    {
      match job
      case Restarting(next, end, _) => target := if next < end then next else |children|;
      case Stopping(next, _) => target := next;
      case Removing(idx, _) => target := idx;
      case Idle => target := |children|;
    }

    method Stop()
      requires job.Idle? && RefsAllocated(Snapshot())
      modifies this
      ensures Snapshot() == Apply(config, old(Snapshot()), Label.Stop)
    {
      stopped, job := true, Stopping(0, false);
    }

    method AddChild(spec: Spec) returns (ref: nat)
      requires Valid() && job.Idle? && RefsAllocated(Snapshot())
      modifies this
      ensures Valid() && ref == |old(actors)| && Snapshot() == Apply(config, old(Snapshot()), Label.AddChild(spec))
    {
      ref := |actors|;
      var c := new ChildState(spec, ref);
      children, actors := children + [c], actors + [FRESH];
      assert View(children) == old(View(children)) + [Child(spec, ref, [], [])];
    }

    method RemoveChild(ref: nat)
      requires job.Idle? && RefsAllocated(Snapshot())
      modifies this
      ensures Snapshot() == Apply(config, old(Snapshot()), Label.RemoveChild(ref))
    {
      hide FindChild;
      var idx := FindRef(ref);
      if idx < |children| {
        job := Removing(idx, false);
      }
    }
  }

  /** A crash in terms of the child found. */
  lemma CrashIs(cfg: Config, s: State, ref: nat)
    requires ref < |s.actors|
    ensures var t := TakeCallback(s, ref); var idx := FindChild(s.children, ref);
            Crash(cfg, s, ref) ==
            if s.stopped || idx == |s.children| then t
            else
              var child := CountCrash(cfg, s.children[idx], s.clock);
              var range := Range(cfg.strategy, idx, |s.children|);
              var over := |child.crashTimes| > cfg.maxRestarts;
              t.(children := s.children[idx := child],
                 stopped := over,
                 job := if over then Stopping(0, false) else Restarting(range.0, range.1, false))
  {
    hide FindChild, CountCrash, Range;
  }

  /** What is done with a child that has stopped. */
  lemma ContinueDone(s: State)
    requires !s.job.Idle? && Target(s) < |s.children| && s.children[Target(s)].ref < |s.actors|
    requires s.job.waiting || TargetDone(s)
    ensures var i := Target(s);
            Continue(s) ==
            match s.job
            case Restarting(next, end, _) => Respawn(s, i).(job := Restarting(next + 1, end, false))
            case Stopping(next, _) => s.(job := Stopping(next + 1, false))
            case Removing(_, _) => s.(children := s.children[..i] + s.children[i + 1..], job := Idle)
  {
  }
}
