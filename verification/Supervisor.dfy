/** The supervisor and its actors as a step system.  The supervisor's mutex is
    `job`: while it is not `Idle` some handler holds the lock, and the steps of
    actors interleave freely with the steps of that handler. */
module Supervisor {

  datatype Strategy = OneForOne | OneForAll | RestForOne

  /** `window` is the crash window and clock readings share its unit. */
  datatype Config = Config(strategy: Strategy, maxRestarts: int, window: int)

  type Spec = string

  /** What the runtime knows of one spawned actor: whether its mailbox and its
      done channel are closed, and whether a crash callback for it is still to
      run (it panicked and no handler has taken the callback up yet). */
  datatype Actor = Actor(closed: bool, done: bool, owed: bool)

  /** `crashTimes` is the pruned list the source keeps; `history` is the whole
      list of counted crashes, kept only to state properties. */
  datatype Child = Child(spec: Spec, ref: nat, crashTimes: seq<int>, history: seq<int>)

  /** What the holder of the lock is doing.  `waiting` means it has closed the
      mailbox of the child at hand and blocks on its done channel. */
  datatype Job =
    | Idle
    | Restarting(next: nat, end: nat, waiting: bool)
    | Stopping(next: nat, waiting: bool)
    | Removing(idx: nat, waiting: bool)

  /** `fault` records a second close of one mailbox, which panics. */
  datatype State = State(children: seq<Child>, actors: seq<Actor>, stopped: bool, job: Job, clock: int, fault: bool)

  datatype Label =
    | ActorPanics(ref: nat)
    | ActorExits(ref: nat)
    | Tick(now: int)
    | HandleCrash(ref: nat)
    | Stop
    | AddChild(spec: Spec)
    | RemoveChild(ref: nat)
    | Proceed

  // ---------- pieces of the handlers ----------

  const FRESH := Actor(false, false, false)

  /** Index of the child tracking `ref`, or the number of children. */
  function FindChild(children: seq<Child>, ref: nat): (i: nat)
    ensures i <= |children|
    ensures i < |children| ==> children[i].ref == ref
    ensures forall k :: 0 <= k < i ==> children[k].ref != ref
  {
    if |children| == 0 || children[0].ref == ref then 0 else 1 + FindChild(children[1..], ref)
  }

  /** The times not before `start`, in order. */
  function InWindow(times: seq<int>, start: int): seq<int> {
    if |times| == 0 then []
    else InWindow(times[..|times| - 1], start) + if times[|times| - 1] >= start then [times[|times| - 1]] else []
  }

  /** The pruning loop of `handleCrash`. */
  method Prune(times: seq<int>, start: int) returns (inWindow: seq<int>)
    ensures inWindow == InWindow(times, start)
  {
    inWindow := [];
    for k := 0 to |times|
      invariant inWindow == InWindow(times[..k], start)
    {
      assert times[..k + 1][..k] == times[..k];
      if times[k] >= start {
        inWindow := inWindow + [times[k]];
      }
    }
    assert times[..|times|] == times;
  }

  /** The children a crash of child `idx` restarts. */
  function Range(strategy: Strategy, idx: nat, n: nat): (nat, nat) {
    match strategy
    case OneForOne => (idx, idx + 1)
    case OneForAll => (0, n)
    case RestForOne => (idx, n)
  }

  function Tracks(s: State, ref: nat): bool {
    FindChild(s.children, ref) < |s.children|
  }

  function CountCrash(cfg: Config, child: Child, now: int): Child {
    child.(crashTimes := InWindow(child.crashTimes + [now], now - cfg.window), history := child.history + [now])
  }

  /** `close(mailbox)`, remembering a double close. */
  function CloseMailbox(s: State, ref: nat): State
    requires ref < |s.actors|
  {
    s.(fault := s.fault || s.actors[ref].closed, actors := s.actors[ref := s.actors[ref].(closed := true)])
  }

  /** Spawn a fresh actor for child `i`. */
  function Respawn(s: State, i: nat): State
    requires i < |s.children|
  {
    s.(children := s.children[i := s.children[i].(ref := |s.actors|)], actors := s.actors + [FRESH])
  }

  // ---------- steps ----------

  /** The child the lock holder is about to stop or is waiting for. */
  function Target(s: State): nat {
    match s.job
    case Restarting(next, end, _) => if next < end then next else |s.children|
    case Stopping(next, _) => next
    case Removing(idx, _) => idx
    case Idle => |s.children|
  }

  predicate Waiting(s: State) {
    !s.job.Idle? && s.job.waiting
  }

  predicate TargetDone(s: State) {
    Target(s) < |s.children| && s.children[Target(s)].ref < |s.actors| && s.actors[s.children[Target(s)].ref].done
  }

  predicate Enabled(s: State, l: Label) {
    match l
    case ActorPanics(ref) => ref < |s.actors| && !s.actors[ref].done
    case ActorExits(ref) => ref < |s.actors| && !s.actors[ref].done && s.actors[ref].closed
    case Tick(now) => now >= s.clock
    case HandleCrash(ref) => s.job.Idle? && ref < |s.actors| && s.actors[ref].owed
    case Proceed => !s.job.Idle? && (Waiting(s) ==> TargetDone(s))
    case _ => s.job.Idle?
  }

  function TakeCallback(s: State, ref: nat): State
    requires ref < |s.actors|
  {
    s.(actors := s.actors[ref := s.actors[ref].(owed := false)])
  }

  /** `handleCrash` from taking the lock to its first blocking action. */
  function Crash(cfg: Config, s: State, ref: nat): State
    requires ref < |s.actors|
  {
    var t := TakeCallback(s, ref);
    var idx := FindChild(t.children, ref);
    if t.stopped || idx == |t.children| then t
    else
      var child := CountCrash(cfg, t.children[idx], t.clock);
      var u := t.(children := t.children[idx := child]);
      if |child.crashTimes| > cfg.maxRestarts then u.(stopped := true, job := Stopping(0, false))
      else
        var range := Range(cfg.strategy, idx, |u.children|);
        u.(job := Restarting(range.0, range.1, false))
  }

  /** One action of the lock holder on its current child. */
  function Continue(s: State): State
    requires !s.job.Idle? && (Target(s) < |s.children| ==> s.children[Target(s)].ref < |s.actors|)
  {
    if Target(s) >= |s.children| then s.(job := Idle)
    else
      var i := Target(s);
      if !s.job.waiting && !TargetDone(s) then CloseMailbox(s, s.children[i].ref).(job := s.job.(waiting := true))
      else
        match s.job
        case Restarting(next, end, _) => Respawn(s, i).(job := Restarting(next + 1, end, false))
        case Stopping(next, _) => s.(job := Stopping(next + 1, false))
        case Removing(_, _) => s.(children := s.children[..i] + s.children[i + 1..], job := Idle)
  }

  predicate RefsAllocated(s: State) {
    forall i :: 0 <= i < |s.children| ==> s.children[i].ref < |s.actors|
  }

  function Apply(cfg: Config, s: State, l: Label): State
    requires Enabled(s, l) && RefsAllocated(s)
  {
    match l
    case ActorPanics(ref) => s.(actors := s.actors[ref := s.actors[ref].(done := true, owed := true)])
    case ActorExits(ref) => s.(actors := s.actors[ref := s.actors[ref].(done := true)])
    case Tick(now) => s.(clock := now)
    case HandleCrash(ref) => Crash(cfg, s, ref)
    case Stop => s.(stopped := true, job := Stopping(0, false))
    case AddChild(spec) => s.(children := s.children + [Child(spec, |s.actors|, [], [])], actors := s.actors + [FRESH])
    case RemoveChild(ref) =>
      if Tracks(s, ref) then s.(job := Removing(FindChild(s.children, ref), false)) else s
    case Proceed => Continue(s)
  }

  /** The state after `Start`: every spec spawned in order. */
  function Started(specs: seq<Spec>, now: int): State {
    State(seq(|specs|, i requires 0 <= i < |specs| => Child(specs[i], i, [], [])),
          seq(|specs|, _ => FRESH), false, Idle, now, false)
  }

  // ---------- the invariant ----------

  /** The lock holder is blocked on the child at `i`. */
  predicate WaitsOn(s: State, i: nat) {
    Waiting(s) && Target(s) == i
  }

  /** The child at `i` will be dealt with by the lock holder. */
  predicate InJob(s: State, i: nat) {
    match s.job
    case Restarting(next, end, _) => next <= i < end
    case Removing(idx, _) => i == idx
    case _ => false
  }

  predicate Distinct(children: seq<Child>) {
    forall i, j :: 0 <= i < j < |children| ==> children[i].ref != children[j].ref
  }

  /** A tracked mailbox is closed before its actor is done only while the lock
      holder waits for it. */
  predicate ClosedIsAwaited(s: State)
    requires RefsAllocated(s)
  {
    forall i :: 0 <= i < |s.children| ==>
                  var a := s.actors[s.children[i].ref]; a.closed && !a.done ==> WaitsOn(s, i)
  }

  /** While not stopped, every tracked actor that is done has a callback
      pending or is being dealt with: no child is lost. */
  predicate NoChildLost(s: State)
    requires RefsAllocated(s)
  {
    !s.stopped ==>
      forall i :: 0 <= i < |s.children| && s.actors[s.children[i].ref].done ==>
                    s.actors[s.children[i].ref].owed || InJob(s, i)
  }

  /** The actor the lock holder waits for has been told to stop. */
  predicate AwaitedIsClosed(s: State)
    requires RefsAllocated(s)
  {
    Waiting(s) && Target(s) < |s.children| ==> s.actors[s.children[Target(s)].ref].closed
  }

  predicate JobInRange(s: State) {
    match s.job
    case Idle => true
    case Restarting(next, end, waiting) => next <= end <= |s.children| && (waiting ==> next < end)
    case Stopping(next, waiting) => s.stopped && next <= |s.children| && (waiting ==> next < |s.children|)
    case Removing(idx, _) => idx < |s.children|
  }

  predicate Safe(s: State) {
    && RefsAllocated(s) && Distinct(s.children) && JobInRange(s) && !s.fault
    && ClosedIsAwaited(s) && AwaitedIsClosed(s) && NoChildLost(s)
  }

  lemma StartedSafe(specs: seq<Spec>, now: int)
    ensures Safe(Started(specs, now))
  {
  }

  /** An update of actors that keeps `closed` and never undoes `done`. */
  lemma ActorStepSafe(s: State, ref: nat, a: Actor)
    requires Safe(s) && ref < |s.actors|
    requires a.closed == s.actors[ref].closed && (s.actors[ref].done ==> a.done) && (s.actors[ref].owed ==> a.owed)
    requires a.done && !s.actors[ref].done ==> a.owed || s.actors[ref].closed
    ensures Safe(s.(actors := s.actors[ref := a]))
  {
    var t := s.(actors := s.actors[ref := a]);
    forall i | 0 <= i < |t.children| && !t.stopped && t.actors[t.children[i].ref].done
      ensures t.actors[t.children[i].ref].owed || InJob(t, i)
    {
      if !s.actors[s.children[i].ref].done && !a.owed {
        assert WaitsOn(s, i);
      }
    }
  }

  /** What taking up a crash leaves alone, and whom it puts in the job. */
  lemma CrashKeeps(cfg: Config, s: State, ref: nat)
    requires s.job.Idle? && ref < |s.actors|
    ensures var r := Crash(cfg, s, ref);
            && |r.children| == |s.children|
            && (forall i :: 0 <= i < |r.children| ==> r.children[i].ref == s.children[i].ref)
            && r.actors == s.actors[ref := s.actors[ref].(owed := false)]
            && r.fault == s.fault && JobInRange(r) && !Waiting(r)
            && (!r.stopped ==> !s.stopped && (Tracks(s, ref) ==> InJob(r, FindChild(s.children, ref))))
  {
    hide InWindow;
  }

  lemma CrashSafe(cfg: Config, s: State, ref: nat)
    requires Safe(s) && s.job.Idle? && ref < |s.actors|
    ensures Safe(Crash(cfg, s, ref))
  {
    hide Crash;
    CrashKeeps(cfg, s, ref);
    var r, idx := Crash(cfg, s, ref), FindChild(s.children, ref);
    forall i | 0 <= i < |r.children| && !r.stopped && r.actors[r.children[i].ref].done
      ensures r.actors[r.children[i].ref].owed || InJob(r, i)
    {
      assert s.actors[s.children[i].ref].done;
      if s.children[i].ref == ref { assert i == idx; }
    }
  }

  lemma CloseSafe(s: State)
    requires Safe(s) && !s.job.Idle? && !s.job.waiting && Target(s) < |s.children| && !TargetDone(s)
    ensures Safe(Continue(s))
  {
    var i := Target(s);
    var ref := s.children[i].ref;
    assert !s.actors[ref].closed;
    var r := Continue(s);
    assert r.children == s.children && Target(r) == i;
    assert forall j :: 0 <= j < |s.actors| && j != ref ==> r.actors[j] == s.actors[j];
  }

  lemma RespawnSafe(s: State)
    requires Safe(s) && s.job.Restarting? && Target(s) < |s.children| && TargetDone(s)
    ensures Safe(Continue(s))
  {
    var i := Target(s);
    var r := Continue(s);
    assert r.children[i].ref == |s.actors|;
    forall j | 0 <= j < |r.children| && j != i
      ensures r.children[j] == s.children[j] && r.actors[r.children[j].ref] == s.actors[s.children[j].ref]
    {
    }
  }

  lemma RemoveSafe(s: State)
    requires Safe(s) && s.job.Removing? && TargetDone(s)
    ensures Safe(Continue(s))
  {
    var i := Target(s);
    var r := Continue(s);
    forall j | 0 <= j < |r.children|
      ensures r.children[j] == s.children[if j < i then j else j + 1]
    {
    }
  }

  lemma ContinueSafe(s: State)
    requires Safe(s) && Enabled(s, Proceed)
    ensures Safe(Continue(s))
  {
    if Target(s) >= |s.children| {
      assert !Waiting(s);
    } else if !s.job.waiting && !TargetDone(s) {
      CloseSafe(s);
    } else {
      match s.job
      case Restarting(_, _, _) => RespawnSafe(s);
      case Stopping(_, _) =>
      case Removing(_, _) => RemoveSafe(s);
    }
  }

  /** Every step of actors, handlers and callers keeps the system safe. */
  lemma StepSafe(cfg: Config, s: State, l: Label)
    requires Safe(s) && Enabled(s, l)
    ensures Safe(Apply(cfg, s, l))
  {
    hide Safe;
    assert RefsAllocated(s) by { SafeAllocated(s); }
    match l
    case ActorPanics(ref) => ActorStepSafe(s, ref, s.actors[ref].(done := true, owed := true));
    case ActorExits(ref) => ActorStepSafe(s, ref, s.actors[ref].(done := true));
    case HandleCrash(ref) => CrashSafe(cfg, s, ref);
    case AddChild(spec) => AddSafe(s, spec);
    case Proceed => ContinueSafe(s);
    case _ => QuietSafe(cfg, s, l);
  }

  lemma SafeAllocated(s: State)
    requires Safe(s)
    ensures RefsAllocated(s)
  {
  }

  lemma AddSafe(s: State, spec: Spec)
    requires Safe(s) && s.job.Idle?
    ensures Safe(s.(children := s.children + [Child(spec, |s.actors|, [], [])], actors := s.actors + [FRESH]))
  {
  }

  lemma QuietSafe(cfg: Config, s: State, l: Label)
    requires Safe(s) && Enabled(s, l) && (l.Tick? || l.Stop? || l.RemoveChild?)
    ensures Safe(Apply(cfg, s, l))
  {
  }
}
