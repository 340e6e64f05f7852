/**
 Nothing gets stuck: from every reachable state the nodes that have not stopped can still bring each
 other to rest, and with that settle every message that is no exception.
 */
module ClusterQuiet {
  import opened ClusterBus
  import opened ClusterMissed
  import opened ClusterRuns

  // ---- the publisher has nothing left to do -----------------------------------------------------

  predicate Rests(v: Node) {
    v.queue == [] && v.sender.Idle? && !v.lost
  }

  /** What a publisher does next when every attempt goes out. A resync that is owed waits for a message
      to follow it. */
  function NextStep(v: Node, a: nat): Step {
    match v.sender
    case Idle => if v.queue == [] then Publish(a, false) else Take(a)
    case Taken(_) => Load(a)
    case Resyncing(_, _) => Attempt(a, Sent)
    case ResyncSent(_) => Store(a)
    case Sending(_, _) => Attempt(a, Sent)
    case GaveUp(_) => Store(a)
  }

  /** A resync will be owed that no message in hand or in the queue will bring. */
  predicate Stranded(v: Node) {
    && (v.lost || v.sender.GaveUp?) && v.queue == []
    && (v.sender.Idle? || v.sender.Sending? || v.sender.GaveUp?)
  }

  function StepsLeft(v: Node): nat {
    (match v.sender
     case Idle => 0
     case Taken(_) => 4
     case Resyncing(_, _) => 3
     case ResyncSent(_) => 2
     case Sending(_, _) => 1
     case GaveUp(_) => 1)
    + 5 * |v.queue| + if Stranded(v) then 6 else 0
  }

  /** Neither an exception nor a session lost. */
  ghost predicate Smooth(s: State, run: seq<Step>)
    requires ValidRun(s, run)
  {
    && (forall k :: 0 <= k < |run| ==> !run[k].Drop? && !run[k].Cut? && !run[k].Stop?)
    && NothingNew(s.trace, Exec(s, run).trace)
  }

  ghost predicate NothingNew(before: seq<Event>, after: seq<Event>) {
    forall m, b :: Excepted(after, m, b) ==> Excepted(before, m, b)
  }

  lemma NothingNewIn(t: seq<Event>, es: seq<Event>)
    requires forall e :: e in es ==> !e.Swallowed? && !e.FetchFailed?
    ensures NothingNew(t, t + es)
  {
  }

  /** Other nodes keep what they have. */
  predicate Only(s: State, s': State, a: nat) {
    |s'.nodes| == |s.nodes| && forall n :: 0 <= n < |s.nodes| && n != a ==> s'.nodes[n] == s.nodes[n]
  }

  lemma NextStepHelps(s: State, a: nat)
    requires a < |s.nodes| && !s.nodes[a].stopped && !Rests(s.nodes[a])
    ensures var step := NextStep(s.nodes[a], a);
      && Enabled(s, step) && Only(s, Apply(s, step), a) && !Apply(s, step).nodes[a].stopped
      && StepsLeft(Apply(s, step).nodes[a]) < StepsLeft(s.nodes[a])
      && NothingNew(s.trace, Apply(s, step).trace)
  {
    var step := NextStep(s.nodes[a], a);
    if step.Publish? {
      NothingNewIn(s.trace, [Published(Message(a, s.nodes[a].published, false))]);
    } else {
      NothingNewIn(s.trace, []);
    }
  }

  lemma {:induction false} PublisherRests(s: State, a: nat) returns (run: seq<Step>)
    requires a < |s.nodes| && !s.nodes[a].stopped
    ensures ValidRun(s, run) && Smooth(s, run)
    ensures var s' := Exec(s, run);
      Only(s, s', a) && Rests(s'.nodes[a]) && !s'.nodes[a].stopped && |s'.log| >= |s.log|
    decreases StepsLeft(s.nodes[a])
  {
    if Rests(s.nodes[a]) {
      run := [];
    } else {
      var step := NextStep(s.nodes[a], a);
      NextStepHelps(s, a);
      var rest := PublisherRests(Apply(s, step), a);
      run := [step] + rest;
      assert run[1..] == rest;
    }
  }

  // ---- the receiver has heard everything ------------------------------------------------------------

  predicate CaughtUp(s: State, b: nat)
    requires b < |s.nodes|
  {
    !NotReady(s.nodes[b]) && s.nodes[b].pos == |s.log|
  }

  lemma HearHelps(s: State, b: nat)
    requires b < |s.nodes| && !s.nodes[b].stopped && !NotReady(s.nodes[b]) && s.nodes[b].pos < |s.log|
    ensures Enabled(s, Hear(b, true))
    ensures var s' := Apply(s, Hear(b, true));
      && Only(s, s', b) && s'.log == s.log && !NotReady(s'.nodes[b]) && !s'.nodes[b].stopped
      && s'.nodes[b].pos == s.nodes[b].pos + 1 && NothingNew(s.trace, s'.trace)
  {
    var v := s.nodes[b];
    NothingNewIn(s.trace, ReactionEvents(b, HearReaction(v, b, s.log[v.pos], true), v.pos));
  }

  /** A live session hears the rest of the log, with every spilled payload fetched. */
  lemma {:induction false} HearAll(s: State, b: nat) returns (run: seq<Step>)
    requires b < |s.nodes| && !s.nodes[b].stopped && !NotReady(s.nodes[b]) && s.nodes[b].pos <= |s.log|
    ensures ValidRun(s, run) && Smooth(s, run)
    ensures Only(s, Exec(s, run), b) && CaughtUp(Exec(s, run), b)
    decreases |s.log| - s.nodes[b].pos
  {
    if s.nodes[b].pos == |s.log| {
      run := [];
    } else {
      HearHelps(s, b);
      var rest := HearAll(Apply(s, Hear(b, true)), b);
      run := [Hear(b, true)] + rest;
      assert run[1..] == rest;
    }
  }

  lemma NothingNewOver(t: seq<Event>, u: seq<Event>, v: seq<Event>)
    requires NothingNew(t, u) && NothingNew(u, v)
    ensures NothingNew(t, v)
  {
  }

  /** A session that is not trusted is given up for a new one, which hears its own probe. */
  lemma Reconnect(s: State, b: nat) returns (run: seq<Step>)
    requires b < |s.nodes| && !s.nodes[b].stopped && s.nodes[b].listener.Down?
    ensures ValidRun(s, run) && Only(s, Exec(s, run), b) && CaughtUp(Exec(s, run), b)
    ensures NothingNew(s.trace, Exec(s, run).trace)
  {
    var s1 := Apply(s, Listen(b, true));
    var s2 := Apply(s1, SendProbe(b));
    assert s2.log == s.log + [Probe(b, s.nonce)];
    assert s2.trace == s.trace;
    HearOwn(s2, b);
    var s3 := Apply(s2, Hear(b, true));
    run := [Listen(b, true), SendProbe(b), Hear(b, true)];
    assert run[1..] == [SendProbe(b), Hear(b, true)] && run[2..] == [Hear(b, true)] && run[3..] == [];
    assert run[1..][1..] == run[2..] && run[2..][1..] == run[3..];
    assert ValidRun(s3, []) && ValidRun(s2, run[2..]) && ValidRun(s1, run[1..]);
    assert Exec(s2, run[2..]) == s3;
    assert Exec(s1, run[1..]) == s3;
  }

  lemma HearOwn(s: State, b: nat)
    requires b < |s.nodes| && !s.nodes[b].stopped && s.nodes[b].pos + 1 == |s.log|
    requires s.nodes[b].listener.Session? && s.nodes[b].listener.hears
    requires IsOwnProbe(s.nodes[b], b, s.log[s.nodes[b].pos])
    ensures Enabled(s, Hear(b, true))
    ensures var s' := Apply(s, Hear(b, true));
      Only(s, s', b) && CaughtUp(s', b) && NothingNew(s.trace, s'.trace)
  {
    var v := s.nodes[b];
    NothingNewIn(s.trace, ReactionEvents(b, HearReaction(v, b, s.log[v.pos], true), v.pos));
  }

  lemma ReceiverCatchesUp(s: State, b: nat) returns (run: seq<Step>)
    requires b < |s.nodes| && !s.nodes[b].stopped && s.nodes[b].pos <= |s.log|
    ensures ValidRun(s, run) && Only(s, Exec(s, run), b) && CaughtUp(Exec(s, run), b)
    ensures NothingNew(s.trace, Exec(s, run).trace) && (!NotReady(s.nodes[b]) ==> Smooth(s, run))
  {
    if !NotReady(s.nodes[b]) {
      run := HearAll(s, b);
    } else if s.nodes[b].listener.Down? {
      run := Reconnect(s, b);
    } else {
      var rest := Reconnect(Apply(s, Drop(b)), b);
      run := [Drop(b)] + rest;
      assert run[1..] == rest;
      assert Apply(s, Drop(b)).trace == s.trace;
    }
  }

  // ---- together -----------------------------------------------------------------------------------

  /** From every reachable state a publisher and a receiver that have not stopped can come to rest,
      without a new exception, and without losing the receiver's session if it is a live one. */
  lemma QuietIsReachable(n: nat, run: seq<Step>, a: nat, b: nat) returns (more: seq<Step>)
    requires ValidRun(Init(n), run) && a < n && b < n && a != b
    requires var s := Exec(Init(n), run); |s.nodes| == n && !s.nodes[a].stopped && !s.nodes[b].stopped
    ensures var s := Exec(Init(n), run);
      && ValidRun(s, more) && |Exec(s, more).nodes| == n && Quiet(Exec(s, more), a, b)
      && NothingNew(s.trace, Exec(s, more).trace) && (!NotReady(s.nodes[b]) ==> Smooth(s, more))
  {
    var s := Exec(Init(n), run);
    assert Kept(Init(n), Message(a, 0, false), b);
    RunKeeps(Init(n), run, Message(a, 0, false), b);
    var first := PublisherRests(s, a);
    var s1 := Exec(s, first);
    var second := ReceiverCatchesUp(s1, b);
    more := first + second;
    ExecAppend(s, first, second);
    NothingNewOver(s.trace, s1.trace, Exec(s1, second).trace);
  }

  /** So every published message that is no exception yet can still be settled at every other node. */
  lemma CanStillBeSettled(n: nat, run: seq<Step>, m: Message, b: nat) returns (more: seq<Step>)
    requires ValidRun(Init(n), run) && m.origin < n && b < n && b != m.origin
    requires var s := Exec(Init(n), run);
      && |s.nodes| == n && !s.nodes[m.origin].stopped && !s.nodes[b].stopped
      && Published(m) in s.trace && !Excepted(s.trace, m, b)
    ensures var s := Exec(Init(n), run);
      && ValidRun(s, more) && Settled(Exec(s, more).trace, m, b)
      && (!NotReady(s.nodes[b]) ==> Smooth(s, more))
  {
    var s := Exec(Init(n), run);
    more := QuietIsReachable(n, run, m.origin, b);
    TraceGrows(s, more);
    ExecAppend(Init(n), run, more);
    QuietMeansSettled(n, run + more, m, b);
  }
}
