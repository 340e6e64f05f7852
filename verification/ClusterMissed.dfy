/**
 What it means that a message is missed: from then on only a resync at the receiver makes up for it,
 and two concrete runs, one for each exception, in which none comes.
 */
module ClusterMissed {
  import opened ClusterBus
  import opened ClusterOrder
  import opened ClusterRuns
  import opened Wrappers

  // ---- a missed message stays missed --------------------------------------------------------------

  /** The message is published, nobody has it in hand any more, and no copy is ahead of `b`. */
  ghost predicate Spent(s: State, m: Message, b: nat) {
    && m.origin < |s.nodes| && b < |s.nodes|
    && m.number < s.nodes[m.origin].published && s.nodes[b].pos <= |s.log|
    && (forall n :: 0 <= n < |s.nodes| ==> !InHand(s.nodes[n], m))
    && (forall p :: s.nodes[b].pos <= p < |s.log| ==> s.log[p] != Data(m))
  }

  lemma StepOutOfHand(s: State, step: Step, m: Message, b: nat, n: nat)
    requires Enabled(s, step) && Spent(s, m, b) && n < |s.nodes|
    ensures |Apply(s, step).nodes| == |s.nodes| && !InHand(Apply(s, step).nodes[n], m)
  {
    assert !InHand(s.nodes[n], m);
    if step.n == n && step.Publish? && |s.nodes[n].queue| < SEND_BUFFER {
      assert Apply(s, step).nodes[n].queue == s.nodes[n].queue + [Message(n, s.nodes[n].published, step.large)];
    } else if step.n == n && step.Take? {
      assert s.nodes[n].queue[0] in s.nodes[n].queue;
    }
  }

  lemma StepSpent(s: State, step: Step, m: Message, b: nat)
    requires Enabled(s, step) && Spent(s, m, b)
    ensures Spent(Apply(s, step), m, b)
  {
    var s' := Apply(s, step);
    assert !InHand(s.nodes[step.n], m);
    forall n | 0 <= n < |s'.nodes| ensures !InHand(s'.nodes[n], m) {
      StepOutOfHand(s, step, m, b, n);
    }
    forall p | s'.nodes[b].pos <= p < |s'.log| ensures s'.log[p] != Data(m) {
      if p < |s.log| {
        assert s'.log[p] == s.log[p];
      }
    }
  }

  /** What a step adds to the trace. */
  function Added(s: State, step: Step): seq<Event>
    requires Enabled(s, step)
  {
    Apply(s, step).trace[|s.trace|..]
  }

  lemma AddedIs(s: State, step: Step)
    requires Enabled(s, step)
    ensures |s.trace| <= |Apply(s, step).trace| && Apply(s, step).trace == s.trace + Added(s, step)
    ensures |Added(s, step)| <= 2
  {
  }

  lemma SpentNotDispatched(s: State, step: Step, m: Message, b: nat, e: Event)
    requires Enabled(s, step) && Spent(s, m, b) && e in Added(s, step)
    ensures !(e.Dispatched? && e.node == b && e.msg == m)
  {
  }

  /** Events of a run from a state on. */
  lemma {:induction false} TraceGrows(s: State, run: seq<Step>)
    requires ValidRun(s, run)
    ensures s.trace <= Exec(s, run).trace
    decreases |run|
  {
    if run != [] {
      AddedIs(s, run[0]);
      TraceGrows(Apply(s, run[0]), run[1..]);
    }
  }

  lemma {:induction false} NeverDispatchedAgain(s: State, run: seq<Step>, m: Message, b: nat, j: nat)
    requires ValidRun(s, run) && Spent(s, m, b)
    requires |s.trace| <= j < |Exec(s, run).trace|
    ensures var e := Exec(s, run).trace[j]; !(e.Dispatched? && e.node == b && e.msg == m)
    decreases |run|
  {
    if run != [] {
      var s' := Apply(s, run[0]);
      AddedIs(s, run[0]);
      StepSpent(s, run[0], m, b);
      TraceGrows(s', run[1..]);
      if j < |s'.trace| {
        var e := Exec(s, run).trace[j];
        assert e == s'.trace[j] == Added(s, run[0])[j - |s.trace|];
        SpentNotDispatched(s, run[0], m, b, e);
      } else {
        NeverDispatchedAgain(s', run[1..], m, b, j);
      }
    }
  }

  /** Whatever happens from the moment a message is missed, it is made up for exactly if the receiver
      runs its resync callbacks. */
  lemma OnlyAResyncHelps(s: State, more: seq<Step>, m: Message, b: nat)
    requires m.origin < |s.nodes| && b < |s.nodes| && Spent(s, m, b) && Published(m) in s.trace
    requires Missed(s, m, b) && ValidRun(s, more)
    ensures var t := Exec(s, more).trace;
      Settled(t, m, b) <==> exists j :: |s.trace| <= j < |t| && t[j] == ResyncFired(b)
  {
    var t := Exec(s, more).trace;
    TraceGrows(s, more);
    if j :| |s.trace| <= j < |t| && t[j] == ResyncFired(b) {
      assert Published(m) in t[..j] by {
        var i :| 0 <= i < |s.trace| && s.trace[i] == Published(m);
        assert t[..j][i] == Published(m);
      }
      assert Settles(t[j], m, b);
    }
    if Settled(t, m, b) {
      var j :| 0 <= j < |t| && Settles(t[j], m, b) && Published(m) in t[..j];
      if j < |s.trace| {
        SettledEarlier(s.trace, t, m, b, j);
      } else {
        NeverDispatchedAgain(s, more, m, b, j);
      }
    }
  }

  lemma SettledEarlier(before: seq<Event>, t: seq<Event>, m: Message, b: nat, j: nat)
    requires before <= t && j < |before| && Settles(t[j], m, b) && Published(m) in t[..j]
    ensures Settled(before, m, b)
  {
    assert before[j] == t[j] && before[..j] == t[..j];
  }

  /** A node whose live session has no resync request of another node ahead of it, or that has
      stopped. */
  ghost predicate Undisturbed(s: State, b: nat) {
    && b < |s.nodes| && s.nodes[b].pos <= |s.log|
    && (s.nodes[b].stopped ||
        (s.nodes[b].listener.Session? && s.nodes[b].listener.live &&
         forall p :: s.nodes[b].pos <= p < |s.log| && s.log[p].Resync? ==> s.log[p].origin == b))
  }

  /** A step that leaves `b` its session and puts no other node's resync request in the log. */
  predicate Undisturbing(s: State, step: Step, b: nat)
    requires Enabled(s, step)
  {
    && !(step.Drop? && step.n == b)
    && !(step.Attempt? && step.n != b && s.nodes[step.n].sender.Resyncing? && !step.outcome.Failed?)
  }

  predicate UndisturbingRun(s: State, run: seq<Step>, b: nat)
    requires ValidRun(s, run)
    decreases |run|
  {
    run == [] || (Undisturbing(s, run[0], b) && UndisturbingRun(Apply(s, run[0]), run[1..], b))
  }

  lemma StepUndisturbed(s: State, step: Step, b: nat)
    requires Enabled(s, step) && Undisturbed(s, b) && Undisturbing(s, step, b)
    ensures Undisturbed(Apply(s, step), b)
  {
    var s' := Apply(s, step);
    forall p | s'.nodes[b].pos <= p < |s'.log| && !s'.nodes[b].stopped && s'.log[p].Resync?
      ensures s'.log[p].origin == b
    {
      if p < |s.log| {
        assert s'.log[p] == s.log[p];
      }
    }
  }

  lemma NoResyncThen(s: State, step: Step, b: nat, e: Event)
    requires Enabled(s, step) && Undisturbed(s, b) && e in Added(s, step)
    ensures e != ResyncFired(b)
  {
  }

  lemma {:induction false} NoResyncInRun(s: State, run: seq<Step>, b: nat, j: nat)
    requires ValidRun(s, run) && Undisturbed(s, b) && UndisturbingRun(s, run, b)
    requires |s.trace| <= j < |Exec(s, run).trace|
    ensures Exec(s, run).trace[j] != ResyncFired(b)
    decreases |run|
  {
    if run != [] {
      var s' := Apply(s, run[0]);
      AddedIs(s, run[0]);
      StepUndisturbed(s, run[0], b);
      TraceGrows(s', run[1..]);
      if j < |s'.trace| {
        assert Exec(s, run).trace[j] == s'.trace[j] == Added(s, run[0])[j - |s.trace|];
        NoResyncThen(s, run[0], b, Exec(s, run).trace[j]);
      } else {
        NoResyncInRun(s', run[1..], b, j);
      }
    }
  }

  /** So it stays missed for as long as the receiver keeps its session and nobody else's resync
      request goes out. */
  lemma StaysMissed(s: State, more: seq<Step>, m: Message, b: nat)
    requires m.origin < |s.nodes| && Spent(s, m, b) && Published(m) in s.trace && Missed(s, m, b)
    requires Undisturbed(s, b) && ValidRun(s, more) && UndisturbingRun(s, more, b)
    ensures !Settled(Exec(s, more).trace, m, b)
  {
    OnlyAResyncHelps(s, more, m, b);
    var t := Exec(s, more).trace;
    forall j | |s.trace| <= j < |t| ensures t[j] != ResyncFired(b) {
      NoResyncInRun(s, more, b, j);
    }
  }

  /** In a reachable state a missed message is spent. */
  lemma MissedIsSpent(n: nat, run: seq<Step>, m: Message, b: nat)
    requires ValidRun(Init(n), run) && m.origin < n && b < n && b != m.origin
    requires var s := Exec(Init(n), run); |s.nodes| == n && Published(m) in s.trace && Missed(s, m, b)
    ensures Spent(Exec(Init(n), run), m, b)
  {
    RunOrdered(Init(n), run, false);
    RunKeeps(Init(n), run, m, b);
    var s := Exec(Init(n), run);
    assert Ordered(s, m.origin, false);
    var i :| 0 <= i < |s.trace| && s.trace[i] == Published(m);
    assert PublishedBy(s.trace[i], m.origin);
    forall k | 0 <= k < |s.nodes| ensures !InHand(s.nodes[k], m) {
      assert Ordered(s, k, false);
      OwnInHand(s, k, m);
    }
  }

  /** A node has only messages of its own in hand. */
  lemma OwnInHand(s: State, a: nat, m: Message)
    requires a < |s.nodes| && Ordered(s, a, false)
    ensures InHand(s.nodes[a], m) ==> m.origin == a
  {
    var v := s.nodes[a];
    assert forall x :: x in v.queue ==> x in Pending(v);
    assert InHand(v, m) ==> m in Pending(v);
  }

  /** Missed from some reachable state on, for as long as the receiver keeps its session and no other
      node's resync request goes out. */
  ghost predicate MissedFrom(s: State, m: Message, b: nat) {
    && m.origin < |s.nodes| && b < |s.nodes| && Published(m) in s.trace && Missed(s, m, b)
    && forall more :: ValidRun(s, more) && UndisturbingRun(s, more, b) ==> !Settled(Exec(s, more).trace, m, b)
  }

  lemma MissedStays(n: nat, run: seq<Step>, m: Message, b: nat)
    requires ValidRun(Init(n), run) && m.origin < n && b < n && b != m.origin
    requires var s := Exec(Init(n), run);
      |s.nodes| == n && Published(m) in s.trace && Missed(s, m, b) && Undisturbed(s, b)
    ensures MissedFrom(Exec(Init(n), run), m, b)
  {
    var s := Exec(Init(n), run);
    MissedIsSpent(n, run, m, b);
    forall more | ValidRun(s, more) && UndisturbingRun(s, more, b) ensures !Settled(Exec(s, more).trace, m, b) {
      StaysMissed(s, more, m, b);
    }
  }

  // ---- the two exceptions are reachable ------------------------------------------------------------

  /** In a reachable state the next message of a node has never been heard of. */
  lemma NextIsUnheard(n: nat, run: seq<Step>, a: nat, large: bool)
    requires ValidRun(Init(n), run) && a < n
    ensures var s := Exec(Init(n), run);
      |s.nodes| == n && Unheard(s, Message(a, s.nodes[a].published, large))
  {
    RunOrdered(Init(n), run, false);
    var s := Exec(Init(n), run);
    var v := s.nodes[a];
    assert Ordered(s, a, false);
    var m := Message(a, v.published, large);
    assert forall x :: x in Pending(v) ==> x.number < v.published;
    assert forall x :: x in v.queue ==> x in Pending(v);
    assert InHand(v, m) ==> m in Pending(v);
  }

  /** Exactly when a message dropped in the middle of a recovery is missed once `lost` is stored, in
      every state a run can reach. */
  lemma DropForgottenExactly(n: nat, run: seq<Step>, a: nat, b: nat, large: bool)
    requires ValidRun(Init(n), run) && a < n && b < n && a != b
    requires var s := Exec(Init(n), run);
      |s.nodes| == n && !s.nodes[a].stopped && CanStore(s.nodes[a]) && |s.nodes[a].queue| == SEND_BUFFER
    ensures var s := Exec(Init(n), run);
      var m := Message(a, s.nodes[a].published, large);
      Missed(Apply(Apply(s, Publish(a, large)), Store(a)), m, b) <==>
        && s.nodes[a].sender.ResyncSent?
        && !NotReady(s.nodes[b])
        && forall p :: s.nodes[b].pos <= p < |s.log| ==> s.log[p] != Resync(a)
  {
    NextIsUnheard(n, run, a, large);
    assert Kept(Init(n), Message(a, 0, large), b);
    RunKeeps(Init(n), run, Message(a, 0, large), b);
    DropThenStore(Exec(Init(n), run), a, b, large);
  }

  lemma Then(s: State, run: seq<Step>, step: Step) returns (longer: seq<Step>)
    requires ValidRun(s, run) && Enabled(Exec(s, run), step)
    ensures longer == run + [step]
    ensures ValidRun(s, longer) && Exec(s, longer) == Apply(Exec(s, run), step)
  {
    longer := run + [step];
    OneStep(Exec(s, run), step);
    ExecAppend(s, run, [step]);
  }

  /** `k` publishes at node 0 that fit its buffer only lengthen its queue. */
  lemma {:induction false} PublishMany(s: State, k: nat) returns (run: seq<Step>)
    requires |s.nodes| == 2 && |s.nodes[0].queue| + k <= SEND_BUFFER
    ensures ValidRun(s, run)
    ensures var s', v := Exec(s, run), s.nodes[0];
      |s'.nodes| == 2 && s'.nodes[1] == s.nodes[1] && s'.log == s.log &&
      |s'.nodes[0].queue| == |v.queue| + k &&
      s'.nodes[0].sender == v.sender && s'.nodes[0].lost == v.lost && s'.nodes[0].stopped == v.stopped
    decreases k
  {
    if k == 0 {
      run := [];
    } else {
      var rest := PublishMany(Apply(s, Publish(0, false)), k - 1);
      run := [Publish(0, false)] + rest;
      assert run[1..] == rest;
    }
  }

  /** Node 1 live and caught up, node 0 with its first message in hand. */
  ghost predicate OneInHand(s: State, large: bool) {
    && |s.nodes| == 2 && s.log == [Probe(1, 0)]
    && s.nodes[0].queue == [] && s.nodes[0].sender == Taken(Message(0, 0, large))
    && !s.nodes[0].lost && !s.nodes[0].stopped && !s.nodes[1].stopped
    && s.nodes[1].pos == 1 && s.nodes[1].listener == Session(true, 0, None, true)
    && s.trace == [ResyncFired(1), Published(Message(0, 0, large))]
  }

  lemma Opening(large: bool) returns (run: seq<Step>)
    ensures ValidRun(Init(2), run) && OneInHand(Exec(Init(2), run), large)
  {
    run := Then(Init(2), [], Listen(1, true));
    run := Then(Init(2), run, SendProbe(1));
    run := Then(Init(2), run, Hear(1, true));
    run := Then(Init(2), run, Publish(0, large));
    run := Then(Init(2), run, Take(0));
  }

  /** The buffer full behind that message, one more dropped, and the resync request out and heard. */
  lemma Recovering(s: State) returns (run: seq<Step>)
    requires |s.nodes| == 2 && |s.log| == 1 && |s.nodes[0].queue| == SEND_BUFFER && s.nodes[0].sender.Taken?
    requires !s.nodes[0].stopped && !s.nodes[1].stopped
    requires s.nodes[1].pos == 1 && s.nodes[1].listener == Session(true, 0, None, true)
    ensures ValidRun(s, run)
    ensures var s' := Exec(s, run);
      && |s'.nodes| == 2 && |s'.log| == 2 && s'.nodes[1].pos == 2 && !NotReady(s'.nodes[1])
      && !s'.nodes[0].stopped && s'.nodes[0].sender.ResyncSent? && |s'.nodes[0].queue| == SEND_BUFFER
  {
    run := Then(s, [], Publish(0, false));
    run := Then(s, run, Load(0));
    run := Then(s, run, Attempt(0, Sent));
    run := Then(s, run, Hear(1, true));
  }

  /** The first exception: a message can be dropped between a node's resync request and its clearing
      `lost`, with the other node caught up. Nobody will be told. */
  lemma WindowDropReachable() returns (run: seq<Step>, m: Message)
    ensures ValidRun(Init(2), run) && m.origin == 0
    ensures MissedFrom(Exec(Init(2), run), m, 1) && Swallowed(m) in Exec(Init(2), run).trace
  {
    run := Opening(false);
    var filling := PublishMany(Exec(Init(2), run), SEND_BUFFER);
    ExecAppend(Init(2), run, filling);
    run := run + filling;
    var recovering := Recovering(Exec(Init(2), run));
    ExecAppend(Init(2), run, recovering);
    run := run + recovering;
    var s := Exec(Init(2), run);
    m := Message(0, s.nodes[0].published, false);
    DropForgottenExactly(2, run, 0, 1, false);
    var last := DropsAndStores(s);
    ExecAppend(Init(2), run, last);
    run := run + last;
    MissedStays(2, run, m, 1);
  }

  lemma DropsAndStores(s: State) returns (run: seq<Step>)
    requires |s.nodes| == 2 && |s.log| == 2 && s.nodes[1].pos == 2 && !NotReady(s.nodes[1])
    requires !s.nodes[0].stopped && s.nodes[0].sender.ResyncSent? && |s.nodes[0].queue| == SEND_BUFFER
    ensures ValidRun(s, run)
    ensures Exec(s, run) == Apply(Apply(s, Publish(0, false)), Store(0))
    ensures var s', m := Exec(s, run), Message(0, s.nodes[0].published, false);
      |s'.nodes| == 2 && Published(m) in s'.trace && Swallowed(m) in s'.trace && Undisturbed(s', 1)
  {
    run := Then(s, [], Publish(0, false));
    run := Then(s, run, Store(0));
    var s', m := Exec(s, run), Message(0, s.nodes[0].published, false);
    assert s'.trace == s.trace + [Published(m), Swallowed(m)];
    assert s'.trace[|s.trace|] == Published(m) && s'.trace[|s.trace| + 1] == Swallowed(m);
  }

  /** The second exception: a spilled message is heard and its payload cannot be fetched. */
  lemma FetchFailureReachable() returns (run: seq<Step>, m: Message)
    ensures ValidRun(Init(2), run) && m.origin == 0 && m.large
    ensures MissedFrom(Exec(Init(2), run), m, 1) && FetchFailed(1, m) in Exec(Init(2), run).trace
  {
    run := Opening(true);
    var s := Exec(Init(2), run);
    m := Message(0, 0, true);
    var rest := SendsAndLoses(s, m);
    ExecAppend(Init(2), run, rest);
    run := run + rest;
    MissedStays(2, run, m, 1);
  }

  lemma SendsAndLoses(s: State, m: Message) returns (run: seq<Step>)
    requires m == Message(0, 0, true) && OneInHand(s, true)
    ensures ValidRun(s, run)
    ensures var s' := Exec(s, run);
      && |s'.nodes| == 2 && Published(m) in s'.trace && FetchFailed(1, m) in s'.trace
      && Missed(s', m, 1) && Undisturbed(s', 1)
  {
    run := Then(s, [], Load(0));
    run := Then(s, run, Attempt(0, Sent));
    run := Then(s, run, Hear(1, false));
    var s' := Exec(s, run);
    assert s'.log == s.log + [Data(m)];
    assert s'.trace == [ResyncFired(1), Published(m), FetchFailed(1, m)];
    assert Published(m) !in s'.trace[..0];
    assert s'.trace[1] == Published(m) && s'.trace[2] == FetchFailed(1, m);
  }
}
