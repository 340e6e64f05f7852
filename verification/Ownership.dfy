/**
 Who may be announcing: the acquire, own, run and lose cycle of every supervisor of one
 connector instance, on any number of nodes (backend/internal/connector/manager.go, `supervise`,
 `runOwned` and `startDrainLoop`).

 Several supervisors may live on one node: after the stop-grace timeout a replacement starts
 while the old one is still winding down. The lease is exclusive from TryAcquire to Release, but
 the environment may take it away, which is what the watchdog is for.
 */
module Ownership {
  import opened Wrappers

  datatype Phase =
    | Acquiring        // top of the supervise loop
    | Sleeping         // backing off
    | Holding          // lease acquired, runOwned entered
    | LoopStarted      // drain loop registered and running
    | Starting         // watchdog running too
    | InStart          // inside the connector's Start
    | Winding          // Start returned, runCtx cancelled, joining watchdog and drain loop
    | Releasing        // both joined
    | Gone

  datatype Drain = NoLoop | Waiting | InPass | Leaving | Ended

  /** `late` marks a confirmation asked for after the lease was gone. */
  datatype Watchdog = NoDog | Watching | Confirming(late: bool) | DogDone

  /** `cancelled` is the supervisor's own context, `stopRun` the run context's extra cancel;
      `wake` identifies the wake-up channel of the current drain loop. */
  datatype Supervisor = Supervisor(
    node: nat, phase: Phase, cancelled: bool, stopRun: bool, drain: Drain, watchdog: Watchdog,
    wake: nat, lostLease: bool)

  /** `drains` is each node's map from this instance to a wake-up channel. */
  datatype State = State(sups: seq<Supervisor>, holder: Option<nat>, drains: map<nat, nat>, channels: nat)

  datatype Step =
    | Spawn(node: nat)                      // start, also beside a supervisor that did not stop in time
    | Cancel(i: nat)
    | AcquireFails(i: nat)
    | Acquire(i: nat)
    | Rise(i: nat)                          // the backoff sleep ends
    | Quit(i: nat)                          // the context ended
    | RefuseKind(i: nat)                    // runOwned's early returns
    | StartLoop(i: nat, drainer: bool)
    | StartDog(i: nat)
    | EnterStart(i: nat)
    | StartReturns(i: nat)                  // for its own reasons, by cancellation or by panic
    | PassBegins(i: nat)
    | PassEnds(i: nat)
    | LoopLeaves(i: nat)
    | LoopUnregisters(i: nat)
    | ConfirmBegins(i: nat)
    | ConfirmReturns(i: nat, ok: bool)
    | DogStops(i: nat)
    | Join(i: nat)
    | Release(i: nat)
    | LoseLease(i: nat)                     // the lock goes away underneath its holder

  const Init := State([], None, map[], 0)

  predicate RunOver(v: Supervisor) {
    v.cancelled || v.stopRun
  }

  predicate LoopAlive(v: Supervisor) {
    v.drain.Waiting? || v.drain.InPass? || v.drain.Leaving?
  }

  /** Whether a supervisor is at the point a step is taken from. */
  predicate Ready(v: Supervisor, step: Step) {
    match step
    case Spawn(_) => false
    case Cancel(_) => true
    case AcquireFails(_) => v.phase.Acquiring?
    case Acquire(_) => v.phase.Acquiring?
    case Rise(_) => v.phase.Sleeping?
    case Quit(_) => (v.phase.Sleeping? || v.phase.Acquiring?) && v.cancelled
    case RefuseKind(_) => v.phase.Holding?
    case StartLoop(_, _) => v.phase.Holding?
    case StartDog(_) => v.phase.LoopStarted?
    case EnterStart(_) => v.phase.Starting?
    case StartReturns(_) => v.phase.InStart?
    case PassBegins(_) => v.drain.Waiting?
    case PassEnds(_) => v.drain.InPass?
    case LoopLeaves(_) => v.drain.Waiting? && RunOver(v)
    case LoopUnregisters(_) => v.drain.Leaving?
    case ConfirmBegins(_) => v.watchdog.Watching?
    case ConfirmReturns(_, ok) => v.watchdog.Confirming? && (ok ==> !v.watchdog.late)
    case DogStops(_) => v.watchdog.Watching? && RunOver(v)
    case Join(_) => v.phase.Winding? && v.watchdog.DogDone? && v.drain.Ended?
    case Release(_) => v.phase.Releasing?
    case LoseLease(_) => true
  }

  /** The supervisor's own part of a step; `channel` is a new wake-up channel. */
  function Next(v: Supervisor, step: Step, channel: nat): Supervisor {
    match step
    case Spawn(_) => v
    case Cancel(_) => v.(cancelled := true)
    case AcquireFails(_) => v.(phase := Sleeping)
    case Acquire(_) => v.(phase := Holding)
    case Rise(_) => v.(phase := Acquiring)
    case Quit(_) => v.(phase := Gone)
    case RefuseKind(_) => v.(phase := Releasing)
    case StartLoop(_, drainer) =>
      if drainer then v.(phase := LoopStarted, drain := Waiting, wake := channel)
      else v.(phase := LoopStarted, drain := Ended)
    case StartDog(_) => v.(phase := Starting, watchdog := Watching)
    case EnterStart(_) => v.(phase := InStart)
    case StartReturns(_) => v.(phase := Winding, stopRun := true)
    case PassBegins(_) => v.(drain := InPass)
    case PassEnds(_) => v.(drain := if RunOver(v) then Leaving else Waiting)
    case LoopLeaves(_) => v.(drain := Leaving)
    case LoopUnregisters(_) => v.(drain := Ended)
    case ConfirmBegins(_) => v.(watchdog := Confirming(v.lostLease))
    case ConfirmReturns(_, ok) =>
      if ok then v.(watchdog := Watching) else v.(watchdog := DogDone, stopRun := true)
    case DogStops(_) => v.(watchdog := DogDone)
    case Join(_) => v.(phase := Releasing)
    case Release(_) => v.(phase := Sleeping, stopRun := false, drain := NoLoop, watchdog := NoDog, lostLease := false)
    case LoseLease(_) => v.(lostLease := true)
  }

  predicate Enabled(s: State, step: Step) {
    step.Spawn? ||
    (step.i < |s.sups| && Ready(s.sups[step.i], step) &&
     (step.Acquire? ==> s.holder.None?) && (step.LoseLease? ==> s.holder == Some(step.i)))
  }

  /** The exclusive lock. */
  function HolderAfter(s: State, step: Step): Option<nat> {
    if step.Acquire? then Some(step.i)
    else if step.LoseLease? || (step.Release? && s.holder == Some(step.i)) then None
    else s.holder
  }

  /** A loop registers its channel on starting and removes it, if it is still its own, on leaving. */
  function DrainsAfter(s: State, step: Step): map<nat, nat>
    requires Enabled(s, step)
  {
    if step.StartLoop? && step.drainer then s.drains[s.sups[step.i].node := s.channels]
    else if step.LoopUnregisters? then
      var v := s.sups[step.i];
      if v.node in s.drains && s.drains[v.node] == v.wake then s.drains - {v.node} else s.drains
    else s.drains
  }

  function Apply(s: State, step: Step): State
    requires Enabled(s, step)
  {
    State(
      if step.Spawn?
      then s.sups + [Supervisor(step.node, Acquiring, false, false, NoLoop, NoDog, 0, false)]
      else s.sups[step.i := Next(s.sups[step.i], step, s.channels)],
      HolderAfter(s, step),
      DrainsAfter(s, step),
      if step.StartLoop? && step.drainer then s.channels + 1 else s.channels)
  }

  predicate ValidRun(s: State, run: seq<Step>)
    decreases |run|
  {
    run == [] || (Enabled(s, run[0]) && ValidRun(Apply(s, run[0]), run[1..]))
  }

  function Exec(s: State, run: seq<Step>): State
    requires ValidRun(s, run)
    decreases |run|
  {
    if run == [] then s else Exec(Apply(s, run[0]), run[1..])
  }

  // ---- the invariant ---------------------------------------------------------------

  predicate Owning(v: Supervisor) {
    !v.phase.Acquiring? && !v.phase.Sleeping? && !v.phase.Gone?
  }

  /** Inside the connector's client, or inside a delivery pass. */
  predicate Announcing(v: Supervisor) {
    v.phase.InStart? || v.drain.InPass?
  }

  /** Which goroutines can be up in which phase. */
  predicate Staged(v: Supervisor) {
    && (!Owning(v) ==> !v.lostLease)
    && (!Owning(v) || v.phase.Holding? ==> v.drain.NoLoop? && v.watchdog.NoDog?)
    && (v.phase.LoopStarted? ==> !v.drain.NoLoop? && v.watchdog.NoDog?)
    && (v.phase.Starting? || v.phase.InStart? || v.phase.Winding? ==> !v.drain.NoLoop? && !v.watchdog.NoDog?)
    && (v.phase.Releasing? ==> !LoopAlive(v) && !v.watchdog.Watching? && !v.watchdog.Confirming?)
  }

  ghost predicate Safe(s: State) {
    && (forall i :: 0 <= i < |s.sups| ==>
          Staged(s.sups[i]) && (Owning(s.sups[i]) && !s.sups[i].lostLease ==> s.holder == Some(i)))
    && (s.holder.Some? ==>
          && s.holder.value < |s.sups|
          && Owning(s.sups[s.holder.value])
          && !s.sups[s.holder.value].lostLease)
  }

  /** Every registered channel belongs to a loop that is running on that node, and channels are
      told apart. */
  ghost predicate Registered(s: State) {
    && (forall n :: n in s.drains ==>
          exists i :: 0 <= i < |s.sups| && s.sups[i].node == n && s.sups[i].wake == s.drains[n] && LoopAlive(s.sups[i]))
    && (forall i :: 0 <= i < |s.sups| && LoopAlive(s.sups[i]) ==> s.sups[i].wake < s.channels)
    && (forall i, j :: 0 <= i < j < |s.sups| && LoopAlive(s.sups[i]) && LoopAlive(s.sups[j]) ==>
          s.sups[i].wake != s.sups[j].wake)
  }

  /** Every running loop of a supervisor that still has its lease can be woken. */
  ghost predicate Reachable(s: State) {
    forall i :: 0 <= i < |s.sups| && LoopAlive(s.sups[i]) ==>
      s.sups[i].node in s.drains && s.drains[s.sups[i].node] == s.sups[i].wake
  }

  lemma NextStaged(v: Supervisor, step: Step, channel: nat)
    requires Staged(v) && Ready(v, step) && (step.LoseLease? ==> Owning(v))
    ensures Staged(Next(v, step, channel))
    ensures Owning(Next(v, step, channel)) <==> step.Acquire? || (Owning(v) && !step.Release?)
    ensures v.lostLease && Owning(v) && !step.Release? ==> Next(v, step, channel).lostLease
  {
  }

  lemma StepStaged(s: State, step: Step, j: nat)
    requires Enabled(s, step) && Safe(s) && j < |Apply(s, step).sups|
    ensures var s' := Apply(s, step);
      Staged(s'.sups[j]) && (Owning(s'.sups[j]) && !s'.sups[j].lostLease ==> s'.holder == Some(j))
  {
    if !step.Spawn? {
      NextStaged(s.sups[step.i], step, s.channels);
    }
  }

  lemma StepSafe(s: State, step: Step)
    requires Enabled(s, step) && Safe(s)
    ensures Safe(Apply(s, step))
  {
    var s' := Apply(s, step);
    forall j | 0 <= j < |s'.sups|
      ensures Staged(s'.sups[j]) && (Owning(s'.sups[j]) && !s'.sups[j].lostLease ==> s'.holder == Some(j))
    {
      StepStaged(s, step, j);
    }
    if !step.Spawn? {
      NextStaged(s.sups[step.i], step, s.channels);
    }
  }

  lemma {:induction false} RunSafe(s: State, run: seq<Step>)
    requires ValidRun(s, run) && Safe(s)
    ensures Safe(Exec(s, run))
    decreases |run|
  {
    if run != [] {
      StepSafe(s, run[0]);
      RunSafe(Apply(s, run[0]), run[1..]);
    }
  }

  predicate SameLoop(v: Supervisor, w: Supervisor) {
    w.node == v.node && w.wake == v.wake && LoopAlive(w) == LoopAlive(v)
  }

  /** Steps that neither start nor unregister a loop leave loops and channels as they were. */
  lemma LoopsUntouched(s: State, step: Step)
    requires Enabled(s, step) && Safe(s)
    requires !(step.StartLoop? && step.drainer) && !step.LoopUnregisters?
    ensures var s' := Apply(s, step);
      && s'.drains == s.drains && s'.channels == s.channels && |s'.sups| >= |s.sups|
      && (forall i :: 0 <= i < |s.sups| ==> SameLoop(s.sups[i], s'.sups[i]))
      && (forall i :: |s.sups| <= i < |s'.sups| ==> !LoopAlive(s'.sups[i]))
  {
  }

  lemma StepRegistered(s: State, step: Step)
    requires Enabled(s, step) && Safe(s) && Registered(s)
    ensures Registered(Apply(s, step))
  {
    var s' := Apply(s, step);
    if !(step.StartLoop? && step.drainer) && !step.LoopUnregisters? {
      LoopsUntouched(s, step);
    }
    forall n | n in s'.drains
      ensures exists i :: 0 <= i < |s'.sups| && s'.sups[i].node == n && s'.sups[i].wake == s'.drains[n] && LoopAlive(s'.sups[i])
    {
      if step.StartLoop? && step.drainer && n == s.sups[step.i].node {
        assert s'.sups[step.i].wake == s'.drains[n];
      } else {
        var i :| 0 <= i < |s.sups| && s.sups[i].node == n && s.sups[i].wake == s.drains[n] && LoopAlive(s.sups[i]);
        assert s'.sups[i].node == n && s'.sups[i].wake == s'.drains[n] && LoopAlive(s'.sups[i]);
      }
    }
  }

  lemma {:induction false} RunRegistered(s: State, run: seq<Step>)
    requires ValidRun(s, run) && Safe(s) && Registered(s)
    ensures Registered(Exec(s, run))
    decreases |run|
  {
    if run != [] {
      StepSafe(s, run[0]);
      StepRegistered(s, run[0]);
      RunRegistered(Apply(s, run[0]), run[1..]);
    }
  }

  // ---- the theorems ------------------------------------------------------------------

  /** Two supervisors of one instance, on any nodes, are never announcing at once unless one of
      them has had its lease taken away. */
  lemma SingleOwner(run: seq<Step>, i: nat, j: nat)
    requires ValidRun(Init, run)
    requires var s := Exec(Init, run);
      i < |s.sups| && j < |s.sups| && i != j && Announcing(s.sups[i]) && Announcing(s.sups[j])
    ensures var s := Exec(Init, run); s.sups[i].lostLease || s.sups[j].lostLease
  {
    RunSafe(Init, run);
  }

  ghost predicate AllLeased(s: State) {
    forall i :: 0 <= i < |s.sups| ==> !s.sups[i].lostLease
  }

  /** The environment takes no lease away. */
  predicate Kind(run: seq<Step>) {
    forall k :: 0 <= k < |run| ==> !run[k].LoseLease?
  }

  lemma StepLeased(s: State, step: Step)
    requires Enabled(s, step) && AllLeased(s) && !step.LoseLease?
    ensures AllLeased(Apply(s, step))
  {
  }

  lemma {:induction false} LeasesKept(s: State, run: seq<Step>)
    requires ValidRun(s, run) && AllLeased(s) && Kind(run)
    ensures AllLeased(Exec(s, run))
    decreases |run|
  {
    if run != [] {
      StepLeased(s, run[0]);
      LeasesKept(Apply(s, run[0]), run[1..]);
    }
  }

  /** With leases that last until they are released there is at most one. */
  lemma SingleOwnerOutright(run: seq<Step>, i: nat, j: nat)
    requires ValidRun(Init, run) && Kind(run)
    requires var s := Exec(Init, run);
      i < |s.sups| && j < |s.sups| && Announcing(s.sups[i]) && Announcing(s.sups[j])
    ensures i == j
  {
    RunSafe(Init, run);
    LeasesKept(Init, run);
  }

  /** Whatever path ends a run, nothing of it is left when the lease is released: not the client,
      not a delivery, and not the watchdog that reads the lease's connection. */
  lemma NothingOutlivesTheLease(run: seq<Step>, i: nat)
    requires ValidRun(Init, run) && Enabled(Exec(Init, run), Release(i))
    ensures var v := Exec(Init, run).sups[i];
      !Announcing(v) && !LoopAlive(v) && !v.watchdog.Watching? && !v.watchdog.Confirming?
  {
    RunSafe(Init, run);
  }

  /** While leases are kept nobody but the owner has a loop. */
  lemma NoOtherLoop(s: State, i: nat)
    requires Safe(s) && AllLeased(s) && i < |s.sups| && Owning(s.sups[i])
    ensures forall j :: 0 <= j < |s.sups| && j != i ==> !LoopAlive(s.sups[j])
  {
  }

  lemma StepReachable(s: State, step: Step)
    requires Enabled(s, step) && Safe(s) && Registered(s) && Reachable(s) && AllLeased(s)
    ensures Reachable(Apply(s, step))
  {
    if (step.StartLoop? && step.drainer) || step.LoopUnregisters? {
      NoOtherLoop(s, step.i);
    } else {
      LoopsUntouched(s, step);
    }
  }

  lemma {:induction false} RunReachable(s: State, run: seq<Step>)
    requires ValidRun(s, run) && Safe(s) && Registered(s) && Reachable(s)
    requires AllLeased(s) && Kind(run)
    ensures Reachable(Exec(s, run))
    decreases |run|
  {
    if run != [] {
      StepSafe(s, run[0]);
      StepRegistered(s, run[0]);
      StepReachable(s, run[0]);
      StepLeased(s, run[0]);
      RunReachable(Apply(s, run[0]), run[1..]);
    }
  }

  /** The channel of the drain loop started last on a node, alive or not. */
  function LastStarted(s: State, run: seq<Step>, n: nat, last: Option<nat>): Option<nat>
    requires ValidRun(s, run)
    decreases |run|
  {
    if run == [] then last
    else
      var step := run[0];
      LastStarted(Apply(s, step), run[1..], n,
                  if step.StartLoop? && step.drainer && s.sups[step.i].node == n then Some(s.channels) else last)
  }

  /** Only the loop started last is ever registered, and it stays so while it is alive. */
  ghost predicate LastRegistered(s: State, n: nat, last: Option<nat>) {
    && (n in s.drains ==> last == Some(s.drains[n]))
    && (forall i :: 0 <= i < |s.sups| && LoopAlive(s.sups[i]) && s.sups[i].node == n && last == Some(s.sups[i].wake) ==>
          n in s.drains && s.drains[n] == s.sups[i].wake)
  }

  lemma OthersStay(s: State, step: Step, j: nat)
    requires Enabled(s, step) && !step.Spawn? && j < |s.sups| && j != step.i
    ensures |Apply(s, step).sups| == |s.sups| && Apply(s, step).sups[j] == s.sups[j]
  {
  }

  lemma StartLastRegistered(s: State, step: Step, n: nat, last: Option<nat>)
    requires Enabled(s, step) && Safe(s) && Registered(s) && LastRegistered(s, n, last)
    requires step.StartLoop? && step.drainer
    ensures LastRegistered(Apply(s, step), n, if s.sups[step.i].node == n then Some(s.channels) else last)
  {
    var s', v := Apply(s, step), s.sups[step.i];
    assert s'.drains == s.drains[v.node := s.channels];
    var now := if v.node == n then Some(s.channels) else last;
    forall i | 0 <= i < |s'.sups| && LoopAlive(s'.sups[i]) && s'.sups[i].node == n && now == Some(s'.sups[i].wake)
      ensures n in s'.drains && s'.drains[n] == s'.sups[i].wake
    {
      if i != step.i {
        OthersStay(s, step, i);
      }
    }
  }

  lemma LeaveLastRegistered(s: State, step: Step, n: nat, last: Option<nat>)
    requires Enabled(s, step) && Registered(s) && LastRegistered(s, n, last) && step.LoopUnregisters?
    ensures LastRegistered(Apply(s, step), n, last)
  {
    var s', v := Apply(s, step), s.sups[step.i];
    forall i | 0 <= i < |s'.sups| && LoopAlive(s'.sups[i]) && s'.sups[i].node == n && last == Some(s'.sups[i].wake)
      ensures n in s'.drains && s'.drains[n] == s'.sups[i].wake
    {
      assert i != step.i;
      OthersStay(s, step, i);
      assert s.sups[i].wake != v.wake;
    }
  }

  lemma StepLastRegistered(s: State, step: Step, n: nat, last: Option<nat>)
    requires Enabled(s, step) && Safe(s) && Registered(s) && LastRegistered(s, n, last)
    ensures LastRegistered(Apply(s, step), n,
      if step.StartLoop? && step.drainer && s.sups[step.i].node == n then Some(s.channels) else last)
  {
    if step.StartLoop? && step.drainer {
      StartLastRegistered(s, step, n, last);
    } else if step.LoopUnregisters? {
      LeaveLastRegistered(s, step, n, last);
    } else {
      LoopsUntouched(s, step);
    }
  }

  lemma {:induction false} RunLastRegistered(s: State, run: seq<Step>, n: nat, last: Option<nat>)
    requires ValidRun(s, run) && Safe(s) && Registered(s) && LastRegistered(s, n, last)
    ensures LastRegistered(Exec(s, run), n, LastStarted(s, run, n, last))
    decreases |run|
  {
    if run != [] {
      var step := run[0];
      StepSafe(s, step);
      StepRegistered(s, step);
      StepLastRegistered(s, step, n, last);
      RunLastRegistered(Apply(s, step), run[1..], n,
        if step.StartLoop? && step.drainer && s.sups[step.i].node == n then Some(s.channels) else last);
    }
  }

  /** Over every run, with leases lost and any number of old and new supervisors on one node: the
      node's map holds a wake-up channel exactly if it is that of the loop started last there and
      that loop is still running. So an old loop that leaves never unregisters a newer one. */
  lemma OnlyTheLastLoopIsRegistered(run: seq<Step>, n: nat, w: nat)
    requires ValidRun(Init, run)
    ensures var s := Exec(Init, run);
      (n in s.drains && s.drains[n] == w) <==>
      && LastStarted(Init, run, n, None) == Some(w)
      && exists i :: 0 <= i < |s.sups| && s.sups[i].node == n && s.sups[i].wake == w && LoopAlive(s.sups[i])
  {
    RunSafe(Init, run);
    RunRegistered(Init, run);
    RunLastRegistered(Init, run, n, None);
  }

  /** While no lease is lost there is one loop at most, and the map holds its channel exactly while
      it runs. */
  lemma DrainsAreTheRunningLoops(run: seq<Step>, n: nat, w: nat)
    requires ValidRun(Init, run) && Kind(run)
    ensures var s := Exec(Init, run);
      (n in s.drains && s.drains[n] == w) <==>
      exists i :: 0 <= i < |s.sups| && s.sups[i].node == n && s.sups[i].wake == w && LoopAlive(s.sups[i])
  {
    RunSafe(Init, run);
    RunRegistered(Init, run);
    RunReachable(Init, run);
  }

  // ---- how long an owner that lost its lease can go on ---------------------------------

  function PassesBegun(run: seq<Step>, i: nat): nat {
    if run == [] then 0
    else (if run[0] == PassBegins(i) then 1 else 0) + PassesBegun(run[1..], i)
  }

  /** A loop is waiting, or is still to be started. */
  predicate MayBegin(v: Supervisor) {
    v.drain.Waiting? || v.phase.Holding?
  }

  /** A run that is over stays over until its release, and only its one waiting loop can still
      begin a pass. */
  lemma StepOver(s: State, step: Step, i: nat)
    requires Enabled(s, step) && Safe(s) && i < |s.sups|
    requires RunOver(s.sups[i]) && Owning(s.sups[i])
    requires step != Release(i)
    ensures var v, w := s.sups[i], Apply(s, step).sups[i];
      && RunOver(w) && Owning(w)
      && (MayBegin(w) ==> MayBegin(v) && step != PassBegins(i))
  {
    if step.Spawn? || step.i != i {
      assert Apply(s, step).sups[i] == s.sups[i];
    } else {
      assert Staged(s.sups[i]);
    }
  }

  /** Once a run's context has ended, from the watchdog or from outside, at most one more delivery
      pass begins before the lease is released, and none at all if one was under way. */
  lemma {:induction false} AtMostOneMorePass(s: State, run: seq<Step>, i: nat)
    requires ValidRun(s, run) && Safe(s) && i < |s.sups|
    requires RunOver(s.sups[i]) && Owning(s.sups[i])
    requires forall k :: 0 <= k < |run| ==> run[k] != Release(i)
    ensures PassesBegun(run, i) <= if MayBegin(s.sups[i]) then 1 else 0
    decreases |run|
  {
    if run != [] {
      StepSafe(s, run[0]);
      StepOver(s, run[0], i);
      AtMostOneMorePass(Apply(s, run[0]), run[1..], i);
    }
  }

  lemma {:induction false} LateStaysLate(s: State, run: seq<Step>, i: nat)
    requires ValidRun(s, run) && Safe(s) && i < |s.sups| && s.sups[i].watchdog == Confirming(true)
    requires forall k :: 0 <= k < |run| ==> !(run[k].ConfirmReturns? && run[k].i == i)
    ensures Safe(Exec(s, run)) && i < |Exec(s, run).sups| && Exec(s, run).sups[i].watchdog == Confirming(true)
    decreases |run|
  {
    if run != [] {
      StepSafe(s, run[0]);
      assert Staged(s.sups[i]);
      LateStaysLate(Apply(s, run[0]), run[1..], i);
    }
  }

  /** The first confirmation asked for after the lease was lost fails and ends the run, whatever
      happens while it is under way; after it at most one more delivery pass begins before the
      lease is released. */
  lemma LostLeaseEndsTheRun(s: State, meanwhile: seq<Step>, ok: bool, after: seq<Step>, i: nat)
    requires Safe(s) && i < |s.sups| && s.sups[i].lostLease && Enabled(s, ConfirmBegins(i))
    requires var asked := Apply(s, ConfirmBegins(i));
      && ValidRun(asked, meanwhile) && Enabled(Exec(asked, meanwhile), ConfirmReturns(i, ok))
      && ValidRun(Apply(Exec(asked, meanwhile), ConfirmReturns(i, ok)), after)
    requires forall k :: 0 <= k < |meanwhile| ==> !(meanwhile[k].ConfirmReturns? && meanwhile[k].i == i)
    requires forall k :: 0 <= k < |after| ==> after[k] != Release(i)
    ensures !ok
    ensures var done := Apply(Exec(Apply(s, ConfirmBegins(i)), meanwhile), ConfirmReturns(i, ok));
      i < |done.sups| && RunOver(done.sups[i]) && PassesBegun(after, i) <= 1
  {
    var asked := Apply(s, ConfirmBegins(i));
    StepSafe(s, ConfirmBegins(i));
    LateStaysLate(asked, meanwhile, i);
    var back := Exec(asked, meanwhile);
    StepSafe(back, ConfirmReturns(i, ok));
    assert Staged(back.sups[i]) && Owning(back.sups[i]);
    AtMostOneMorePass(Apply(back, ConfirmReturns(i, ok)), after, i);
  }

  lemma {:induction false} ExecAppend(s: State, run: seq<Step>, more: seq<Step>)
    requires ValidRun(s, run) && ValidRun(Exec(s, run), more)
    ensures ValidRun(s, run + more) && Exec(s, run + more) == Exec(Exec(s, run), more)
    decreases |run|
  {
    if run == [] {
      assert run + more == more;
    } else {
      assert (run + more)[0] == run[0] && (run + more)[1..] == run[1..] + more;
      ExecAppend(Apply(s, run[0]), run[1..], more);
    }
  }

  lemma Then(s: State, run: seq<Step>, step: Step) returns (longer: seq<Step>)
    requires ValidRun(s, run) && Enabled(Exec(s, run), step)
    ensures longer == run + [step]
    ensures ValidRun(s, longer) && Exec(s, longer) == Apply(Exec(s, run), step)
  {
    longer := run + [step];
    assert ValidRun(Apply(Exec(s, run), step), []);
    ExecAppend(s, run, [step]);
  }

  /** A step of the newest supervisor at the end of a run. */
  lemma Advance(s: State, run: seq<Step>, base: seq<Supervisor>, v: Supervisor, step: Step) returns (longer: seq<Step>)
    requires ValidRun(s, run) && Exec(s, run).sups == base + [v] && !step.Spawn? && step.i == |base|
    requires Ready(v, step)
    requires (step.Acquire? ==> Exec(s, run).holder.None?) && (step.LoseLease? ==> Exec(s, run).holder == Some(step.i))
    ensures var t := Exec(s, run);
      && ValidRun(s, longer) && Enabled(t, step)
      && Exec(s, longer) == State(
        base + [Next(v, step, t.channels)], HolderAfter(t, step), DrainsAfter(t, step),
        if step.StartLoop? && step.drainer then t.channels + 1 else t.channels)
  {
    assert Exec(s, run).sups[|base|] == v;
    longer := Then(s, run, step);
    var w := Next(v, step, Exec(s, run).channels);
    assert (base + [v])[|base| := w] == base + [w];
  }

  /** A supervisor inside its client, with its loop waiting. */
  function UpAndRunning(node: nat, channel: nat): Supervisor {
    Supervisor(node, InStart, false, false, Waiting, Watching, channel, false)
  }

  function Fresh(node: nat): Supervisor {
    Supervisor(node, Acquiring, false, false, NoLoop, NoDog, 0, false)
  }

  lemma GetsLease(s: State, node: nat) returns (run: seq<Step>)
    requires s.holder.None?
    ensures ValidRun(s, run)
    ensures Exec(s, run) == State(s.sups + [Fresh(node).(phase := Holding)], Some(|s.sups|), s.drains, s.channels)
  {
    run := Then(s, [], Spawn(node));
    run := Advance(s, run, s.sups, Fresh(node), Acquire(|s.sups|));
  }

  lemma StartsLoop(s: State, node: nat) returns (run: seq<Step>)
    requires s.holder.None?
    ensures ValidRun(s, run)
    ensures Exec(s, run) == State(
      s.sups + [Fresh(node).(phase := LoopStarted, drain := Waiting, wake := s.channels)],
      Some(|s.sups|), s.drains[node := s.channels], s.channels + 1)
  {
    run := GetsLease(s, node);
    run := Advance(s, run, s.sups, Fresh(node).(phase := Holding), StartLoop(|s.sups|, true));
  }

  /** A new supervisor that finds the lease free gets into its client. */
  lemma BringUp(s: State, node: nat) returns (run: seq<Step>)
    requires s.holder.None?
    ensures ValidRun(s, run)
    ensures Exec(s, run) == State(
      s.sups + [UpAndRunning(node, s.channels)], Some(|s.sups|), s.drains[node := s.channels], s.channels + 1)
  {
    run := StartsLoop(s, node);
    var v := Fresh(node).(phase := LoopStarted, drain := Waiting, wake := s.channels);
    run := Advance(s, run, s.sups, v, StartDog(|s.sups|));
    run := Advance(s, run, s.sups, v.(phase := Starting, watchdog := Watching), EnterStart(|s.sups|));
  }

  /** The overlap the watchdog interval bounds is real: with a lease lost unnoticed, two nodes can
      be inside their clients together. */
  lemma OverlapReachable() returns (run: seq<Step>)
    ensures ValidRun(Init, run)
    ensures var s := Exec(Init, run);
      |s.sups| == 2 && s.sups[0].node != s.sups[1].node && Announcing(s.sups[0]) && Announcing(s.sups[1])
  {
    run := TwoUp(0, 1);
  }

  /** A second supervisor comes up beside one whose lease was lost unnoticed. */
  lemma TwoUp(node: nat, other: nat) returns (run: seq<Step>)
    ensures ValidRun(Init, run)
    ensures Exec(Init, run) == State(
      [UpAndRunning(node, 0).(lostLease := true), UpAndRunning(other, 1)], Some(1), map[node := 0][other := 1], 2)
  {
    run := BringUp(Init, node);
    assert [] + [UpAndRunning(node, 0)] == [UpAndRunning(node, 0)];
    run := Advance(Init, run, [], UpAndRunning(node, 0), LoseLease(0));
    var lost := Exec(Init, run);
    assert lost == State([UpAndRunning(node, 0).(lostLease := true)], None, map[node := 0], 1);
    var more := BringUp(lost, other);
    ExecAppend(Init, run, more);
    run := run + more;
  }

  /** Two loops of one instance can run on one node, and the old one can leave before the new one:
      the new one's channel stays. */
  lemma OldLoopLeavesNewRegistered() returns (run: seq<Step>)
    ensures ValidRun(Init, run)
    ensures var s := Exec(Init, run);
      && |s.sups| == 2 && s.sups[0].node == s.sups[1].node == 0
      && s.sups[0].drain.Ended? && LoopAlive(s.sups[1]) && 0 in s.drains && s.drains[0] == s.sups[1].wake
  {
    run := TwoUp(0, 0);
    run := Then(Init, run, Cancel(0));
    run := Then(Init, run, LoopLeaves(0));
    run := Then(Init, run, LoopUnregisters(0));
  }
}
