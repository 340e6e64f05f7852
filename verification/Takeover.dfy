/**
 The supervise cycle never gives up (backend/internal/connector/manager.go, `supervise` and `runOwned`):
 a supervisor ends only when it is told to, an owner can always wind down and hand the lease back, and
 whoever is left can always take over.
 */
module Takeover {
  import opened Ownership
  import opened Wrappers

  // ---- what a cycle keeps -------------------------------------------------------------------------

  /** The watchdog is awake. */
  predicate Watched(v: Supervisor) {
    v.watchdog.Watching? || v.watchdog.Confirming?
  }

  predicate Sound(v: Supervisor) {
    && Staged(v)
    && (v.phase.Gone? ==> v.cancelled)
    && (!Owning(v) || v.phase.Holding? || v.phase.LoopStarted? ==> !v.stopRun)
    && (v.phase.Winding? ==> v.stopRun)
    && (v.phase.Starting? || v.phase.InStart? ==> Watched(v) || v.stopRun || v.cancelled)
    && (v.drain.Leaving? ==> RunOver(v))
  }

  ghost predicate AllSound(s: State) {
    Safe(s) && forall i :: 0 <= i < |s.sups| ==> Sound(s.sups[i])
  }

  lemma NextSound(v: Supervisor, step: Step, channel: nat)
    requires Sound(v) && Ready(v, step) && (step.LoseLease? ==> Owning(v))
    ensures Sound(Next(v, step, channel))
  {
    NextStaged(v, step, channel);
  }

  lemma StepSound(s: State, step: Step)
    requires AllSound(s) && Enabled(s, step)
    ensures AllSound(Apply(s, step))
  {
    StepSafe(s, step);
    var s' := Apply(s, step);
    if !step.Spawn? {
      NextSound(s.sups[step.i], step, s.channels);
    }
    forall j | 0 <= j < |s'.sups| ensures Sound(s'.sups[j]) {
      assert step.Spawn? || j != step.i ==> j < |s.sups| ==> s'.sups[j] == s.sups[j];
    }
  }

  lemma {:induction false} RunSound(s: State, run: seq<Step>)
    requires AllSound(s) && ValidRun(s, run)
    ensures AllSound(Exec(s, run))
    decreases |run|
  {
    if run != [] {
      StepSound(s, run[0]);
      RunSound(Apply(s, run[0]), run[1..]);
    }
  }

  /** A supervisor gives up only when it is told to. */
  lemma GoneOnlyIfCancelled(run: seq<Step>, i: nat)
    requires ValidRun(Init, run) && i < |Exec(Init, run).sups| && Exec(Init, run).sups[i].phase.Gone?
    ensures Exec(Init, run).sups[i].cancelled
  {
    RunSound(Init, run);
  }

  /** While a client is inside Start and its run is not over, its watchdog is awake. */
  lemma WatchedWhileRunning(run: seq<Step>, i: nat)
    requires ValidRun(Init, run) && i < |Exec(Init, run).sups|
    requires Exec(Init, run).sups[i].phase.InStart? && !RunOver(Exec(Init, run).sups[i])
    ensures Watched(Exec(Init, run).sups[i])
  {
    RunSound(Init, run);
  }

  /** A confirmation that succeeds leaves the watchdog to ask again, and the next one is about the lease
      as it is then. */
  lemma AsksAgain(s: State, i: nat) returns (run: seq<Step>)
    requires AllSound(s) && i < |s.sups| && s.sups[i].watchdog == Confirming(false)
    ensures run == [ConfirmReturns(i, true), ConfirmBegins(i)] && ValidRun(s, run)
    ensures Exec(s, run).sups == s.sups[i := s.sups[i].(watchdog := Confirming(s.sups[i].lostLease))]
  {
    run := Then(s, [], ConfirmReturns(i, true));
    run := Then(s, run, ConfirmBegins(i));
  }

  // ---- the loop lives as long as its run --------------------------------------------------------

  predicate LoopUp(v: Supervisor) {
    v.drain.Waiting? || v.drain.InPass?
  }

  lemma StepKeepsLoop(s: State, step: Step, i: nat)
    requires AllSound(s) && Enabled(s, step) && i < |s.sups| && LoopUp(s.sups[i])
    requires !RunOver(Apply(s, step).sups[i])
    ensures !RunOver(s.sups[i]) && LoopUp(Apply(s, step).sups[i])
  {
    if step.Spawn? || step.i != i {
      assert Apply(s, step).sups[i] == s.sups[i];
    }
  }

  lemma OthersUntouched(s: State, step: Step, i: nat)
    requires Enabled(s, step) && i < |s.sups| && (step.Spawn? || step.i != i)
    ensures i < |Apply(s, step).sups| && Apply(s, step).sups[i] == s.sups[i]
  {
  }

  lemma NextStaysOver(v: Supervisor, step: Step, channel: nat)
    requires RunOver(v) && !step.Release?
    ensures RunOver(Next(v, step, channel))
  {
  }

  lemma StepStaysOver(s: State, step: Step, i: nat)
    requires Enabled(s, step) && AllSound(s) && i < |s.sups| && RunOver(s.sups[i]) && step != Release(i)
    ensures i < |Apply(s, step).sups| && RunOver(Apply(s, step).sups[i])
  {
    if step.Spawn? || step.i != i {
      OthersUntouched(s, step, i);
    } else {
      NextStaysOver(s.sups[i], step, s.channels);
    }
  }

  lemma {:induction false} OverStaysOver(s: State, run: seq<Step>, i: nat)
    requires AllSound(s) && ValidRun(s, run) && i < |s.sups| && RunOver(s.sups[i])
    requires forall k :: 0 <= k < |run| ==> run[k] != Release(i)
    ensures i < |Exec(s, run).sups| && RunOver(Exec(s, run).sups[i])
    decreases |run|
  {
    if run != [] {
      StepSound(s, run[0]);
      StepStaysOver(s, run[0], i);
      OverStaysOver(Apply(s, run[0]), run[1..], i);
    }
  }

  /** Nothing but the end of the run ends its drain loop. */
  lemma {:induction false} LoopLivesAsLongAsTheRun(s: State, run: seq<Step>, i: nat)
    requires AllSound(s) && ValidRun(s, run) && i < |s.sups| && LoopUp(s.sups[i])
    requires forall k :: 0 <= k < |run| ==> run[k] != Release(i)
    requires i < |Exec(s, run).sups| && !RunOver(Exec(s, run).sups[i])
    ensures LoopUp(Exec(s, run).sups[i])
    decreases |run|
  {
    if run != [] {
      var s' := Apply(s, run[0]);
      StepSound(s, run[0]);
      if RunOver(s'.sups[i]) {
        OverStaysOver(s', run[1..], i);
      } else {
        StepKeepsLoop(s, run[0], i);
        LoopLivesAsLongAsTheRun(s', run[1..], i);
      }
    }
  }

  // ---- every attempt on the lease is paid for with a sleep ---------------------------------------

  function Attempts(run: seq<Step>, i: nat): nat {
    if run == [] then 0
    else (if run[0] == AcquireFails(i) || run[0] == Acquire(i) then 1 else 0) + Attempts(run[1..], i)
  }

  function Sleeps(run: seq<Step>, i: nat): nat {
    if run == [] then 0 else (if run[0] == Rise(i) then 1 else 0) + Sleeps(run[1..], i)
  }

  /** However its runs end, a supervisor sleeps between two attempts to get the lease. */
  lemma {:induction false} SleepsBetweenAttempts(s: State, run: seq<Step>, i: nat)
    requires ValidRun(s, run) && i < |s.sups|
    ensures Attempts(run, i) <= Sleeps(run, i) + if s.sups[i].phase.Acquiring? then 1 else 0
    decreases |run|
  {
    if run != [] {
      var step := run[0];
      if step.Spawn? || step.i != i {
        assert Apply(s, step).sups[i] == s.sups[i];
      }
      SleepsBetweenAttempts(Apply(s, step), run[1..], i);
    }
  }

  // ---- what begins ends -----------------------------------------------------------------------------

  /** How many of a run's steps are this one. */
  function Times(run: seq<Step>, step: Step): nat {
    if run == [] then 0 else (if run[0] == step then 1 else 0) + Times(run[1..], step)
  }

  function One(b: bool): nat {
    if b then 1 else 0
  }

  /** A pass is under way exactly from when it begins to when it ends, the client from when Start is
      entered to when it returns, and the lease is owned from when it is acquired to when it is
      released. */
  lemma {:induction false} BeginningsAndEnds(s: State, run: seq<Step>, i: nat)
    requires AllSound(s) && ValidRun(s, run) && i < |s.sups|
    ensures i < |Exec(s, run).sups|
    ensures var v, w := s.sups[i], Exec(s, run).sups[i];
      && One(v.drain.InPass?) + Times(run, PassBegins(i)) == One(w.drain.InPass?) + Times(run, PassEnds(i))
      && One(v.phase.InStart?) + Times(run, EnterStart(i)) == One(w.phase.InStart?) + Times(run, StartReturns(i))
      && One(Owning(v)) + Times(run, Acquire(i)) == One(Owning(w)) + Times(run, Release(i))
    decreases |run|
  {
    if run != [] {
      StepSound(s, run[0]);
      StepBeginsOrEnds(s, run[0], i);
      BeginningsAndEnds(Apply(s, run[0]), run[1..], i);
    }
  }

  predicate Pairs(v: Supervisor, step: Step, w: Supervisor, i: nat) {
    && One(v.drain.InPass?) + One(step == PassBegins(i)) == One(w.drain.InPass?) + One(step == PassEnds(i))
    && One(v.phase.InStart?) + One(step == EnterStart(i)) == One(w.phase.InStart?) + One(step == StartReturns(i))
    && One(Owning(v)) + One(step == Acquire(i)) == One(Owning(w)) + One(step == Release(i))
  }

  lemma PassPairs(v: Supervisor, step: Step, channel: nat)
    requires Sound(v) && !step.Spawn? && Ready(v, step) && (step.LoseLease? ==> Owning(v))
    ensures var i, w := step.i, Next(v, step, channel);
      One(v.drain.InPass?) + One(step == PassBegins(i)) == One(w.drain.InPass?) + One(step == PassEnds(i))
  {
  }

  lemma StartPairs(v: Supervisor, step: Step, channel: nat)
    requires Sound(v) && !step.Spawn? && Ready(v, step) && (step.LoseLease? ==> Owning(v))
    ensures var i, w := step.i, Next(v, step, channel);
      One(v.phase.InStart?) + One(step == EnterStart(i)) == One(w.phase.InStart?) + One(step == StartReturns(i))
  {
  }

  lemma LeasePairs(v: Supervisor, step: Step, channel: nat)
    requires Sound(v) && !step.Spawn? && Ready(v, step) && (step.LoseLease? ==> Owning(v))
    ensures var i, w := step.i, Next(v, step, channel);
      One(Owning(v)) + One(step == Acquire(i)) == One(Owning(w)) + One(step == Release(i))
  {
  }

  lemma NextPairs(v: Supervisor, step: Step, channel: nat)
    requires Sound(v) && !step.Spawn? && Ready(v, step) && (step.LoseLease? ==> Owning(v))
    ensures Pairs(v, step, Next(v, step, channel), step.i)
  {
    PassPairs(v, step, channel);
    StartPairs(v, step, channel);
    LeasePairs(v, step, channel);
  }

  lemma StepBeginsOrEnds(s: State, step: Step, i: nat)
    requires AllSound(s) && Enabled(s, step) && i < |s.sups|
    ensures i < |Apply(s, step).sups| && Pairs(s.sups[i], step, Apply(s, step).sups[i], i)
  {
    if step.Spawn? || step.i != i {
      OthersUntouched(s, step, i);
    } else {
      NextPairs(s.sups[i], step, s.channels);
    }
  }

  // ---- winding down -------------------------------------------------------------------------------

  /** Steps of one supervisor that neither the manager nor the environment decides on. */
  predicate Own(step: Step, i: nat) {
    !step.Spawn? && step.i == i && !step.Cancel? && !step.LoseLease?
  }

  ghost predicate OwnRun(run: seq<Step>, i: nat) {
    forall k :: 0 <= k < |run| ==> Own(run[k], i)
  }

  function StepDown(v: Supervisor, i: nat): Step
    requires Owning(v)
  {
    match v.phase
    case Holding => StartLoop(i, true)
    case LoopStarted => StartDog(i)
    case Starting => EnterStart(i)
    case InStart => StartReturns(i)
    case Releasing => Release(i)
    case _ =>
      if v.drain.Waiting? then LoopLeaves(i)
      else if v.drain.InPass? then PassEnds(i)
      else if v.drain.Leaving? then LoopUnregisters(i)
      else if v.watchdog.Watching? then DogStops(i)
      else if v.watchdog.Confirming? then ConfirmReturns(i, false)
      else Join(i)
  }

  function StepsDown(v: Supervisor): nat {
    match v.phase
    case Holding => 20
    case LoopStarted => 19
    case Starting => 18
    case InStart => 17
    case Winding =>
      2 + (if v.drain.Waiting? || v.drain.InPass? then 4 else if v.drain.Leaving? then 2 else 0)
      + (if Watched(v) then 1 else 0)
    case Releasing => 1
    case _ => 0
  }

  /** Other supervisors keep what they have. */
  ghost predicate Only(s: State, t: State, i: nat) {
    |t.sups| == |s.sups| && forall j :: 0 <= j < |s.sups| && j != i ==> t.sups[j] == s.sups[j]
  }

  lemma StepDownHelps(s: State, i: nat)
    requires AllSound(s) && i < |s.sups| && Owning(s.sups[i])
    ensures var step := StepDown(s.sups[i], i);
      && Enabled(s, step) && Own(step, i) && Only(s, Apply(s, step), i)
      && StepsDown(Apply(s, step).sups[i]) < StepsDown(s.sups[i])
      && Apply(s, step).sups[i].cancelled == s.sups[i].cancelled
      && (Owning(Apply(s, step).sups[i]) ==> Apply(s, step).holder == s.holder)
      && (!Owning(Apply(s, step).sups[i]) ==>
            && Apply(s, step).sups[i].phase.Sleeping?
            && Apply(s, step).holder == if s.holder == Some(i) then None else s.holder)
  {
    assert Sound(s.sups[i]);
  }

  /** An owner can always end its run by its own steps, and the lease is free again if it had it. */
  lemma {:induction false} CanWindDown(s: State, i: nat) returns (run: seq<Step>)
    requires AllSound(s) && i < |s.sups| && Owning(s.sups[i])
    ensures ValidRun(s, run) && OwnRun(run, i) && Release(i) in run
    ensures var t := Exec(s, run);
      && AllSound(t) && Only(s, t, i) && t.sups[i].phase.Sleeping? && t.sups[i].cancelled == s.sups[i].cancelled
      && t.holder == if s.holder == Some(i) then None else s.holder
    decreases StepsDown(s.sups[i])
  {
    var step := StepDown(s.sups[i], i);
    StepDownHelps(s, i);
    StepSound(s, step);
    var t := Apply(s, step);
    var rest: seq<Step> := [];
    if Owning(t.sups[i]) {
      rest := CanWindDown(t, i);
    } else {
      assert step == Release(i);
    }
    run := [step] + rest;
    assert run[0] == step && run[1..] == rest;
  }

  /** A cancelled supervisor can always come to its end. */
  lemma CancelledCanEnd(s: State, i: nat) returns (run: seq<Step>)
    requires AllSound(s) && i < |s.sups| && s.sups[i].cancelled
    ensures ValidRun(s, run) && OwnRun(run, i)
    ensures var t := Exec(s, run); Only(s, t, i) && t.sups[i].phase.Gone? && t.holder != Some(i)
  {
    run := [];
    if Owning(s.sups[i]) {
      run := CanWindDown(s, i);
    }
    var t := Exec(s, run);
    if !t.sups[i].phase.Gone? {
      run := Then(s, run, Quit(i));
    }
  }

  /** A connector whose kind is refused gives the lease back all the same. */
  lemma RefusedGivesBack(s: State, i: nat) returns (run: seq<Step>)
    requires AllSound(s) && i < |s.sups| && s.sups[i].phase.Holding? && s.holder == Some(i)
    ensures ValidRun(s, run) && |run| == 2 && run[0] == RefuseKind(i) && OwnRun(run, i)
    ensures Only(s, Exec(s, run), i) && Exec(s, run).sups[i].phase.Sleeping? && Exec(s, run).holder == None
  {
    run := Then(s, [], RefuseKind(i));
    run := Then(s, run, Release(i));
  }

  // ---- taking over ----------------------------------------------------------------------------------

  /** Inside the client, with the lease, a watchdog that is awake, and a loop if there is a drainer. */
  ghost predicate Up(s: State, i: nat, drainer: bool) {
    && i < |s.sups| && s.holder == Some(i)
    && var v := s.sups[i];
       && v.phase.InStart? && !RunOver(v) && !v.lostLease && v.watchdog.Watching?
       && (if drainer then v.drain.Waiting? && v.node in s.drains && s.drains[v.node] == v.wake else v.drain.Ended?)
  }

  lemma GetsTheLease(s: State, i: nat) returns (run: seq<Step>)
    requires AllSound(s) && i < |s.sups| && !s.sups[i].cancelled && !Owning(s.sups[i]) && s.holder.None?
    ensures ValidRun(s, run) && OwnRun(run, i) && Only(s, Exec(s, run), i)
    ensures var t := Exec(s, run); t.holder == Some(i) && t.sups[i] == s.sups[i].(phase := Holding)
  {
    assert Sound(s.sups[i]);
    run := [];
    if s.sups[i].phase.Sleeping? {
      run := Then(s, run, Rise(i));
    }
    run := Then(s, run, Acquire(i));
  }

  lemma GetsUp(s: State, i: nat, drainer: bool) returns (run: seq<Step>)
    requires i < |s.sups| && s.holder == Some(i)
    requires var v := s.sups[i]; v.phase.Holding? && !RunOver(v) && !v.lostLease
    ensures ValidRun(s, run) && OwnRun(run, i) && Only(s, Exec(s, run), i) && Up(Exec(s, run), i, drainer)
  {
    run := Then(s, [], StartLoop(i, drainer));
    run := Then(s, run, StartDog(i));
    run := Then(s, run, EnterStart(i));
  }

  lemma TakesOver(s: State, i: nat, drainer: bool) returns (run: seq<Step>)
    requires AllSound(s) && i < |s.sups| && !s.sups[i].cancelled && !Owning(s.sups[i]) && s.holder.None?
    ensures ValidRun(s, run) && OwnRun(run, i) && Only(s, Exec(s, run), i) && Up(Exec(s, run), i, drainer)
  {
    assert Sound(s.sups[i]);
    run := GetsTheLease(s, i);
    var more := GetsUp(Exec(s, run), i, drainer);
    ExecAppend(s, run, more);
    run := run + more;
  }

  /** From every state a run can reach: whoever is not told to stop can get into its client by its own
      steps alone, once the lease is free; and if it is an owner itself, it can give the lease back and
      do so again. So a connector is taken over whenever its owner is gone, and no failed attempt, no
      failed run and no lost lease puts a supervisor out of the running. */
  lemma CanTakeOver(before: seq<Step>, i: nat, drainer: bool) returns (run: seq<Step>)
    requires ValidRun(Init, before)
    requires var s := Exec(Init, before);
      i < |s.sups| && !s.sups[i].cancelled && (s.holder.None? || s.holder == Some(i))
    ensures var s := Exec(Init, before);
      && ValidRun(s, run) && OwnRun(run, i) && Only(s, Exec(s, run), i) && Up(Exec(s, run), i, drainer)
      && (Owning(s.sups[i]) ==> Release(i) in run)
  {
    var s := Exec(Init, before);
    RunSound(Init, before);
    run := [];
    if Owning(s.sups[i]) {
      run := CanWindDown(s, i);
    }
    var more := TakesOver(Exec(s, run), i, drainer);
    ExecAppend(s, run, more);
    run := run + more;
  }
}
