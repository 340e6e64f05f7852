/**
 The owner's drain loop and its depth-1 wake-up channel (backend/internal/connector/manager.go,
 `drainLoop`, `waitOrWake` and `signal`): no request to drain is ever lost.
 */
module DrainLoop {

  /** Milliseconds; `connectPoll` and `drainPoll` are fields of the manager so that tests can
      shorten them, and only their being positive matters. */
  const CONNECT_POLL := 1000
  const DRAIN_POLL := 5000

  /** Why the loop is about to wait. */
  datatype Wait = Initially | Disconnected | Again(after: int) | Poll

  function Duration(w: Wait): int {
    match w
    case Initially => 0
    case Disconnected => CONNECT_POLL
    case Again(after) => after
    case Poll => DRAIN_POLL
  }

  datatype Point =
    | Waiting(wait: Wait)   // in waitOrWake
    | Woken                 // waitOrWake returned true, the client's connection not checked yet
    | InPass                // in DrainOwned
    | Done

  datatype Event = Signalled | PassBegan

  /** `full` is the channel's one slot; `ended` the loop's context. */
  datatype Loop = Loop(full: bool, point: Point, ended: bool, trace: seq<Event>)

  /** Why waitOrWake returned: its context, the channel, the timer, or nothing to wait for. */
  datatype Cause = ContextDone | WokenUp | TimedOut | NoWait

  datatype Step =
    | Signal
    | End                                      // the context is cancelled
    | WaitReturns(cause: Cause)
    | Check(connected: bool)                   // true for a client that does not report
    | PassReturns(again: bool, after: int)     // a panicking pass returns (false, 0)

  const Start := Loop(false, Waiting(Initially), false, [])

  /** A select with several ready cases takes any of them. */
  predicate CanReturn(l: Loop, cause: Cause)
    requires l.point.Waiting?
  {
    if Duration(l.point.wait) <= 0
    then cause == if l.ended then ContextDone else NoWait
    else match cause
      case ContextDone => l.ended
      case WokenUp => l.full
      case TimedOut => true
      case NoWait => false
  }

  predicate Enabled(l: Loop, step: Step) {
    match step
    case Signal => true
    case End => true
    case WaitReturns(cause) => l.point.Waiting? && CanReturn(l, cause)
    case Check(_) => l.point.Woken?
    case PassReturns(_, _) => l.point.InPass?
  }

  function Apply(l: Loop, step: Step): Loop
    requires Enabled(l, step)
  {
    match step
    case Signal => l.(full := true, trace := l.trace + [Signalled])
    case End => l.(ended := true)
    case WaitReturns(cause) =>
      l.(point := if cause.ContextDone? then Done else Woken, full := l.full && !cause.WokenUp?)
    case Check(connected) =>
      if connected then l.(point := InPass, trace := l.trace + [PassBegan])
      else l.(point := Waiting(Disconnected))
    case PassReturns(again, after) =>
      l.(point := if l.ended then Done else Waiting(if again then Again(after) else Poll))
  }

  predicate ValidRun(l: Loop, run: seq<Step>)
    decreases |run|
  {
    run == [] || (Enabled(l, run[0]) && ValidRun(Apply(l, run[0]), run[1..]))
  }

  function Exec(l: Loop, run: seq<Step>): Loop
    requires ValidRun(l, run)
    decreases |run|
  {
    if run == [] then l else Exec(Apply(l, run[0]), run[1..])
  }

  /** One turn of the loop with nothing else happening meanwhile. */
  function TurnStep(l: Loop, cause: Cause, connected: bool, again: bool, after: int): Loop
    requires l.point.Waiting? && CanReturn(l, cause)
  {
    var woken := Apply(l, WaitReturns(cause));
    if woken.point.Done? then woken
    else
      var checked := Apply(woken, Check(connected));
      if connected then Apply(checked, PassReturns(again, after)) else checked
  }

  lemma OneStep(l: Loop, step: Step)
    requires Enabled(l, step)
    ensures ValidRun(l, [step]) && Exec(l, [step]) == Apply(l, step)
  {
    assert [step][1..] == [];
    assert ValidRun(Apply(l, step), []);
  }

  /** So a turn is a run of the model. */
  lemma TurnIsARun(l: Loop, cause: Cause, connected: bool, again: bool, after: int) returns (run: seq<Step>)
    requires l.point.Waiting? && CanReturn(l, cause)
    ensures ValidRun(l, run) && Exec(l, run) == TurnStep(l, cause, connected, again, after)
  {
    var woken := Apply(l, WaitReturns(cause));
    var rest := if woken.point.Done? then []
                else if connected then [Check(true), PassReturns(again, after)]
                else [Check(false)];
    run := [WaitReturns(cause)] + rest;
    assert run[1..] == rest;
    if rest != [] {
      var checked := Apply(woken, rest[0]);
      if connected {
        assert rest[1..] == [PassReturns(again, after)];
        OneStep(checked, PassReturns(again, after));
      }
      assert Exec(woken, rest) == Exec(checked, rest[1..]);
    }
  }

  // ---- the loop in place ----------------------------------------------------------------

  /** The goroutine's variables and the channel it shares with whoever asks for a drain. */
  class Drainer {
    var full: bool
    var point: Point
    var ended: bool
    var trace: seq<Event>

    ghost function View(): Loop
      reads this
    {
      Loop(full, point, ended, trace)
    }

    constructor ()
      ensures View() == Start
    {
      full, point, ended, trace := false, Waiting(Initially), false, [];
    }

    /** A non-blocking send. */
    method SignalWake()
      modifies this`full, this`trace
      ensures View() == Apply(old(View()), Signal)
      ensures full
    {
      if !full {
        full := true;
      }
      trace := trace + [Signalled];
    }

    /** One turn of the loop. A wait that ends by its timer or the channel is followed by a pass
        only while the client is connected. */
    method Turn(cause: Cause, connected: bool, again: bool, after: int) returns (goOn: bool)
      requires point.Waiting? && CanReturn(View(), cause)
      modifies this`full, this`point, this`trace
      ensures goOn <==> !point.Done?
      ensures View() == TurnStep(old(View()), cause, connected, again, after)
      ensures goOn ==> point.Waiting?
    {
      if cause.ContextDone? {
        point := Done;
        return false;
      }
      if cause.WokenUp? {
        full := false;
      }
      point := Woken;
      if !connected {
        point := Waiting(Disconnected);
        return true;
      }
      point := InPass;
      trace := trace + [PassBegan];
      if ended {
        point := Done;
        return false;
      }
      point := Waiting(if again then Again(after) else Poll);
      return true;
    }
  }

  // ---- no request is lost -----------------------------------------------------------------

  /** Some request has not been followed by a pass that began after it. */
  predicate Owed(t: seq<Event>) {
    t != [] && (t[|t| - 1].Signalled?)
  }

  /** An owed request is in the channel, has just been taken out of it, or the loop is not
      settled: it has yet to start, waits for its client to connect, or is over. */
  predicate Remembered(l: Loop) {
    Owed(l.trace) ==>
      || l.full
      || l.point.Woken?
      || l.point == Waiting(Disconnected)
      || l.point == Waiting(Initially)
      || l.point.Done?
  }

  /** Any signal is followed by a pass, or is the last thing that happened to be traced. */
  lemma OwedMeansUnserved(t: seq<Event>, i: nat)
    requires i < |t| && t[i].Signalled?
    ensures Owed(t) || exists j :: i < j < |t| && t[j].PassBegan?
  {
    if !Owed(t) {
      assert t[|t| - 1].PassBegan?;
    }
  }

  lemma {:induction false} RunRemembers(l: Loop, run: seq<Step>)
    requires ValidRun(l, run) && Remembered(l)
    ensures Remembered(Exec(l, run))
    decreases |run|
  {
    if run != [] {
      RunRemembers(Apply(l, run[0]), run[1..]);
    }
  }

  /** Over every run, each signal is followed by a pass that began after it, or the request is
      still in the channel or in the loop's hands, the client is not connected, or the loop is
      over. In particular the loop never settles into a poll having forgotten a request. */
  lemma NoRequestLost(run: seq<Step>, i: nat)
    requires ValidRun(Start, run)
    requires i < |Exec(Start, run).trace| && Exec(Start, run).trace[i].Signalled?
    ensures var l := Exec(Start, run);
      || (exists j :: i < j < |l.trace| && l.trace[j].PassBegan?)
      || l.full || l.point.Woken? || l.point == Waiting(Disconnected) || l.point == Waiting(Initially)
      || l.point.Done?
    ensures var l := Exec(Start, run);
      l.point.Waiting? && (l.point.wait.Poll? || l.point.wait.Again?) && !l.full ==>
        exists j :: i < j < |l.trace| && l.trace[j].PassBegan?
  {
    RunRemembers(Start, run);
    OwedMeansUnserved(Exec(Start, run).trace, i);
  }

  // ---- and it is served without waiting for the poll ------------------------------------------

  /** The loop's own steps and further requests, while its context lives and its client is
      connected. */
  predicate Smooth(step: Step) {
    !step.End? && (step.Check? ==> step.connected)
  }

  predicate SmoothRun(run: seq<Step>) {
    forall k :: 0 <= k < |run| ==> Smooth(run[k])
  }

  /** How long a wait takes: a channel that is already full ends it at once, and one that is filled
      meanwhile may be filled at its very end. */
  function Cost(l: Loop, step: Step): nat
    requires Enabled(l, step)
  {
    if (step.WaitReturns? || step.Signal?) && l.point.Waiting? && !l.full && Duration(l.point.wait) > 0
    then Duration(l.point.wait)
    else 0
  }

  /** The time spent waiting before the client's connection is next looked at, and with the client
      connected a pass begins. */
  function TimeToCheck(l: Loop, run: seq<Step>): nat
    requires ValidRun(l, run)
    decreases |run|
  {
    if run == [] || run[0].Check? then 0
    else Cost(l, run[0]) + TimeToCheck(Apply(l, run[0]), run[1..])
  }

  function OwnSteps(run: seq<Step>): nat {
    if run == [] then 0 else (if run[0].Signal? then 0 else 1) + OwnSteps(run[1..])
  }

  predicate BeginsPass(run: seq<Step>) {
    exists k :: 0 <= k < |run| && run[k] == Check(true)
  }

  /** How many steps of its own the loop is away from beginning a pass. */
  function StepsToPass(l: Loop): nat {
    if l.point.Woken? then 1 else if l.point.Waiting? then 2 else 3
  }

  /** With its client connected, an owed request is served after at most one connect poll, and at
      once unless the loop was waiting for that client; it takes the loop at most three steps of its
      own, however many further requests come in between. */
  lemma {:induction false} OwedIsServedPromptly(l: Loop, run: seq<Step>)
    requires ValidRun(l, run) && SmoothRun(run) && Remembered(l) && Owed(l.trace)
    requires !l.ended && !l.point.Done?
    ensures TimeToCheck(l, run) <= if l.point == Waiting(Disconnected) && !l.full then CONNECT_POLL else 0
    ensures OwnSteps(run) >= StepsToPass(l) ==> BeginsPass(run)
    decreases |run|
  {
    if run != [] {
      assert Smooth(run[0]);
      if run[0].Check? {
        assert run[0] == Check(true);
      } else {
        var rest := run[1..];
        assert forall k :: 0 <= k < |rest| ==> rest[k] == run[k + 1];
        OwedIsServedPromptly(Apply(l, run[0]), rest);
        if BeginsPass(rest) {
          var k :| 0 <= k < |rest| && rest[k] == Check(true);
          assert run[k + 1] == Check(true);
        }
      }
    }
  }

  // ---- how long it waits ------------------------------------------------------------------------------

  predicate LooksAtTheClient(run: seq<Step>) {
    exists k :: 0 <= k < |run| && run[k].Check?
  }

  /** Nobody asks for a drain and the context lives on. */
  predicate Undisturbed(run: seq<Step>) {
    forall k :: 0 <= k < |run| ==> !run[k].Signal? && !run[k].End?
  }

  /** What a loop that is waiting with nothing in its channel still has to wait. */
  lemma WaitsInFull(l: Loop, run: seq<Step>)
    requires l.point.Waiting? && !l.full && !l.ended
    requires ValidRun(l, run) && Undisturbed(run) && LooksAtTheClient(run)
    ensures TimeToCheck(l, run) == if Duration(l.point.wait) > 0 then Duration(l.point.wait) else 0
  {
    assert !run[0].Signal? && !run[0].End?;
    assert |run| > 1;
    var woken := Apply(l, run[0]);
    assert Enabled(woken, run[1..][0]) && run[1..][0] == run[1] && !run[1].Signal? && !run[1].End?;
  }

  /** The wait after a pass, over every run in which nobody asks for another: what the pass asked for
      if it wants to go again, at once if that is no time at all, and otherwise the whole poll. The wait
      for a client that is not connected is the connect poll, and the first pass is waited for not at
      all. */
  lemma WaitsAsThePassAsked(l: Loop, step: Step, run: seq<Step>)
    requires Enabled(l, step) && !l.full && !l.ended && ValidRun(Apply(l, step), run)
    requires Undisturbed(run) && LooksAtTheClient(run)
    ensures step.PassReturns? && !step.again ==> TimeToCheck(Apply(l, step), run) == DRAIN_POLL
    ensures step.PassReturns? && step.again ==>
      TimeToCheck(Apply(l, step), run) == if step.after > 0 then step.after else 0
    ensures step == Check(false) ==> TimeToCheck(Apply(l, step), run) == CONNECT_POLL
  {
    if step.PassReturns? || step == Check(false) {
      WaitsInFull(Apply(l, step), run);
    }
  }

  lemma FirstPassAtOnce(run: seq<Step>)
    requires ValidRun(Start, run) && Undisturbed(run) && LooksAtTheClient(run)
    ensures TimeToCheck(Start, run) == 0
  {
    WaitsInFull(Start, run);
  }

  /** With the client connected the next pass always comes, owed or not, within three of the loop's own
      steps. */
  lemma {:induction false} PassComes(l: Loop, run: seq<Step>)
    requires ValidRun(l, run) && SmoothRun(run) && !l.ended && !l.point.Done?
    ensures OwnSteps(run) >= StepsToPass(l) ==> BeginsPass(run)
    decreases |run|
  {
    if run != [] {
      assert Smooth(run[0]);
      if run[0].Check? {
        assert run[0] == Check(true);
      } else {
        var rest := run[1..];
        assert forall k :: 0 <= k < |rest| ==> rest[k] == run[k + 1];
        PassComes(Apply(l, run[0]), rest);
        if BeginsPass(rest) {
          var k :| 0 <= k < |rest| && rest[k] == Check(true);
          assert run[k + 1] == Check(true);
        }
      }
    }
  }

  /** No wait is stuck: it can end by the channel if that is full, by the context once that has ended,
      and otherwise by its timer, or at once if there is nothing to wait for. */
  lemma WaitsCanEnd(l: Loop)
    requires l.point.Waiting?
    ensures Duration(l.point.wait) > 0 && l.full ==> Enabled(l, WaitReturns(WokenUp))
    ensures Duration(l.point.wait) > 0 ==> Enabled(l, WaitReturns(TimedOut))
    ensures l.ended ==> Enabled(l, WaitReturns(ContextDone)) && Apply(l, WaitReturns(ContextDone)).point.Done?
    ensures Duration(l.point.wait) <= 0 && !l.ended ==>
      Enabled(l, WaitReturns(NoWait)) && Apply(l, WaitReturns(NoWait)).point.Woken?
    ensures Enabled(l, WaitReturns(NoWait)) ==> Duration(l.point.wait) <= 0 && !l.ended
    ensures Enabled(l, WaitReturns(WokenUp)) ==> l.full
    ensures Enabled(l, WaitReturns(ContextDone)) ==> l.ended
  {
  }

  /** A request is taken whatever the loop is doing, and so is the end of its context. */
  lemma AlwaysHeard(l: Loop)
    ensures Enabled(l, Signal) && Apply(l, Signal).full && Apply(l, Signal).point == l.point
    ensures Enabled(l, End) && Apply(l, End).ended && Apply(l, End).point == l.point
  {
  }

  // ---- what is traced -----------------------------------------------------------------------------------

  function Signals(run: seq<Step>): nat {
    if run == [] then 0 else (if run[0].Signal? then 1 else 0) + Signals(run[1..])
  }

  function Wakes(run: seq<Step>): nat {
    if run == [] then 0 else (if run[0] == WaitReturns(WokenUp) then 1 else 0) + Wakes(run[1..])
  }

  /** One pending wake-up covers any number of requests, and each is used up by what it wakes. */
  lemma {:induction false} WakesAreUsedUp(l: Loop, run: seq<Step>)
    requires ValidRun(l, run)
    ensures Wakes(run) + (if Exec(l, run).full then 1 else 0) <= Signals(run) + if l.full then 1 else 0
    decreases |run|
  {
    if run != [] {
      WakesAreUsedUp(Apply(l, run[0]), run[1..]);
    }
  }

  /** What a step leaves on record: a request, or a pass begun where the client was found connected. */
  function Record(step: Step): seq<Event> {
    if step.Signal? then [Signalled] else if step == Check(true) then [PassBegan] else []
  }

  function Happened(run: seq<Step>): seq<Event> {
    if run == [] then [] else Record(run[0]) + Happened(run[1..])
  }

  lemma StepIsRecorded(l: Loop, step: Step)
    requires Enabled(l, step)
    ensures Apply(l, step).trace == l.trace + Record(step)
  {
    assert l.trace + [] == l.trace;
  }

  /** The requests and the passes of a run are on record in the order they happened; no pass begins
      while the client is not connected. */
  lemma {:induction false} TraceIsWhatHappened(l: Loop, run: seq<Step>)
    requires ValidRun(l, run)
    ensures Exec(l, run).trace == l.trace + Happened(run)
    decreases |run|
  {
    if run == [] {
      assert l.trace + [] == l.trace;
    } else {
      StepIsRecorded(l, run[0]);
      TraceIsWhatHappened(Apply(l, run[0]), run[1..]);
      assert l.trace + Record(run[0]) + Happened(run[1..]) == l.trace + (Record(run[0]) + Happened(run[1..]));
    }
  }

  // ---- how it ends -----------------------------------------------------------------------------------------

  function Passes(run: seq<Step>): nat {
    if run == [] then 0 else (if run[0] == Check(true) then 1 else 0) + Passes(run[1..])
  }

  /** Once the context has ended at most one more pass begins, and none from a pass under way or from a
      wait for nothing. */
  lemma {:induction false} AtMostOneMorePass(l: Loop, run: seq<Step>)
    requires ValidRun(l, run) && l.ended
    ensures Passes(run) <= if l.point.Woken? || (l.point.Waiting? && Duration(l.point.wait) > 0) then 1 else 0
    decreases |run|
  {
    if run != [] {
      AtMostOneMorePass(Apply(l, run[0]), run[1..]);
    }
  }

  /** The loop is over only if its context has ended, which the context does only once. */
  lemma {:induction false} OverOnlyIfEnded(l: Loop, run: seq<Step>)
    requires ValidRun(l, run) && (l.point.Done? ==> l.ended)
    ensures Exec(l, run).point.Done? ==> Exec(l, run).ended
    ensures Exec(l, run).ended <==> l.ended || exists k :: 0 <= k < |run| && run[k].End?
    decreases |run|
  {
    if run != [] {
      var rest := run[1..];
      assert forall k :: 0 <= k < |rest| ==> rest[k] == run[k + 1];
      OverOnlyIfEnded(Apply(l, run[0]), rest);
      assert (exists k :: 0 <= k < |run| && run[k].End?) <==>
        run[0].End? || (exists k :: 0 <= k < |rest| && rest[k].End?)
      by {
        if exists k :: 0 <= k < |rest| && rest[k].End? {
          var k :| 0 <= k < |rest| && rest[k].End?;
          assert run[k + 1].End?;
        }
        if k :| 0 <= k < |run| && run[k].End? {
          if k > 0 {
            assert rest[k - 1].End?;
          }
        }
      }
    }
  }

  /** And from wherever it is, an ended loop can come to its end. */
  lemma EndedCanStop(l: Loop) returns (run: seq<Step>)
    requires l.ended
    ensures ValidRun(l, run) && Exec(l, run).point.Done? && Signals(run) == 0
  {
    match l.point {
      case Done => run := [];
      case InPass => run := [PassReturns(false, 0)];
      case Waiting(_) => run := [WaitReturns(ContextDone)];
      case Woken =>
        run := [Check(false), WaitReturns(ContextDone)];
        assert run[1..] == [WaitReturns(ContextDone)];
    }
    assert run != [] ==> ValidRun(Apply(l, run[0]), run[1..]);
  }
}
