/**
 Sessions and what ends them (backend/internal/cluster/cluster.go, `listenOnce`): a node's probes can be
 told apart, one at a time is under way, a session that is cut hears nothing more, and a node that has
 stopped does nothing more.
 */
module ClusterSessions {
  import opened ClusterBus
  import opened ClusterMissed
  import opened ClusterRuns
  import opened Wrappers

  // ---- probes ---------------------------------------------------------------------------------------

  ghost predicate ProbesApart(s: State) {
    && (forall p :: 0 <= p < |s.log| && s.log[p].Probe? ==> s.log[p].nonce < s.nonce)
    && (forall p, q :: 0 <= p < q < |s.log| && s.log[p].Probe? && s.log[q].Probe? ==> s.log[p].nonce < s.log[q].nonce)
  }

  lemma StepProbesApart(s: State, step: Step)
    requires Enabled(s, step) && ProbesApart(s)
    ensures ProbesApart(Apply(s, step))
  {
    var s' := Apply(s, step);
    assert forall p :: 0 <= p < |s.log| ==> s'.log[p] == s.log[p];
    assert |s'.log| <= |s.log| + 1;
  }

  lemma {:induction false} RunProbesApart(s: State, run: seq<Step>)
    requires ValidRun(s, run) && ProbesApart(s)
    ensures ProbesApart(Exec(s, run))
    decreases |run|
  {
    if run != [] {
      StepProbesApart(s, run[0]);
      RunProbesApart(Apply(s, run[0]), run[1..]);
    }
  }

  /** Over every run later probes carry larger nonces, so an answer answers one of them. */
  lemma ProbesDiffer(n: nat, run: seq<Step>, p: nat, q: nat)
    requires ValidRun(Init(n), run) && p < q < |Exec(Init(n), run).log|
    requires var log := Exec(Init(n), run).log; log[p].Probe? && log[q].Probe?
    ensures var log := Exec(Init(n), run).log; log[p].nonce < log[q].nonce
  {
    RunProbesApart(Init(n), run);
  }

  /** A session has one probe under way at most, and sends none while it has. */
  lemma OneProbeAtATime(s: State, n: nat)
    requires n < |s.nodes|
    ensures Enabled(s, SendProbe(n)) <==>
      !s.nodes[n].stopped && s.nodes[n].listener.Session? && s.nodes[n].listener.pending == None
    ensures Enabled(s, SendProbe(n)) ==>
      var t := Apply(s, SendProbe(n));
      t.log == s.log + [Probe(n, s.nonce)] && t.nodes[n].listener.pending == Some(s.nonce)
  {
  }

  // ---- how sessions end -------------------------------------------------------------------------------

  /** A session can be cut or dropped at any time, and a node be stopped at any time. */
  lemma SessionsEnd(s: State, n: nat)
    requires n < |s.nodes| && !s.nodes[n].stopped
    ensures Enabled(s, Stop(n))
    ensures var v := Apply(s, Stop(n)).nodes[n]; v.stopped && v.listener.Down?
    ensures s.nodes[n].listener.Session? ==>
      && Enabled(s, Cut(n)) && Enabled(s, Drop(n)) && Apply(s, Drop(n)).nodes[n].listener.Down?
      && !Enabled(Apply(s, Cut(n)), Hear(n, true)) && !Enabled(Apply(s, Cut(n)), Hear(n, false))
    ensures s.nodes[n].listener.Down? ==>
      forall hears :: Enabled(s, Listen(n, hears)) && !Enabled(s, Hear(n, hears))
  {
  }

  predicate Does(e: Event, n: nat) {
    match e
    case Published(_) => false
    case Swallowed(_) => false
    case Dispatched(node, _, _) => node == n
    case FetchFailed(node, _) => node == n
    case ResyncFired(node) => node == n
  }

  /** A node that has stopped stays stopped: it calls nobody any more, whatever the others do. */
  lemma {:induction false} StoppedDoesNothing(s: State, run: seq<Step>, n: nat, j: nat)
    requires ValidRun(s, run) && n < |s.nodes| && s.nodes[n].stopped
    requires |s.trace| <= j < |Exec(s, run).trace|
    ensures n < |Exec(s, run).nodes| && Exec(s, run).nodes[n].stopped
    ensures !Does(Exec(s, run).trace[j], n)
    decreases |run|
  {
    if run != [] {
      var s' := Apply(s, run[0]);
      AddedIs(s, run[0]);
      TraceGrows(s', run[1..]);
      assert n < |s'.nodes| && s'.nodes[n].stopped;
      if j < |s'.trace| {
        var e := Exec(s, run).trace[j];
        assert e == s'.trace[j] == Added(s, run[0])[j - |s.trace|];
        StaysStopped(s', run[1..], n);
        SilentStep(s, run[0], n, e);
      } else {
        StoppedDoesNothing(s', run[1..], n, j);
      }
    }
  }

  lemma SilentStep(s: State, step: Step, n: nat, e: Event)
    requires Enabled(s, step) && n < |s.nodes| && s.nodes[n].stopped && e in Added(s, step)
    ensures !Does(e, n)
  {
  }

  lemma {:induction false} StaysStopped(s: State, run: seq<Step>, n: nat)
    requires ValidRun(s, run) && n < |s.nodes| && s.nodes[n].stopped
    ensures n < |Exec(s, run).nodes| && Exec(s, run).nodes[n].stopped
    decreases |run|
  {
    if run != [] {
      StaysStopped(Apply(s, run[0]), run[1..], n);
    }
  }

  predicate SentBy(e: Entry, n: nat) {
    match e
    case Data(m) => m.origin == n
    case Resync(origin) => origin == n
    case Probe(origin, _) => origin == n
  }

  lemma {:induction false} LogGrows(s: State, run: seq<Step>)
    requires ValidRun(s, run)
    ensures s.log <= Exec(s, run).log
    decreases |run|
  {
    if run != [] {
      assert s.log <= Apply(s, run[0]).log;
      LogGrows(Apply(s, run[0]), run[1..]);
    }
  }

  /** What is in a node's hands is its own. */
  ghost predicate OwnHands(s: State, n: nat) {
    n < |s.nodes| && (!s.nodes[n].sender.Idle? ==> s.nodes[n].sender.held.origin == n)
    && forall m :: m in s.nodes[n].queue ==> m.origin == n
  }

  lemma StepOwnHands(s: State, step: Step, n: nat)
    requires Enabled(s, step) && OwnHands(s, n)
    ensures OwnHands(Apply(s, step), n)
  {
  }

  lemma StepSentBy(s: State, step: Step, n: nat, p: nat)
    requires Enabled(s, step) && n < |s.nodes| && s.nodes[n].stopped && OwnHands(s, step.n)
    requires |s.log| <= p < |Apply(s, step).log|
    ensures !SentBy(Apply(s, step).log[p], n)
  {
  }

  /** And it sends nothing any more. */
  lemma {:induction false} StoppedSendsNothing(s: State, run: seq<Step>, n: nat, p: nat)
    requires ValidRun(s, run) && n < |s.nodes| && s.nodes[n].stopped
    requires forall i :: 0 <= i < |s.nodes| ==> OwnHands(s, i)
    requires |s.log| <= p < |Exec(s, run).log|
    ensures !SentBy(Exec(s, run).log[p], n)
    decreases |run|
  {
    if run != [] {
      var s' := Apply(s, run[0]);
      forall i | 0 <= i < |s'.nodes| ensures OwnHands(s', i) {
        StepOwnHands(s, run[0], i);
      }
      LogGrows(s', run[1..]);
      if p < |s'.log| {
        StepSentBy(s, run[0], n, p);
      } else {
        StoppedSendsNothing(s', run[1..], n, p);
      }
    }
  }
}
