/**
 Every interleaving of the nodes' publishers, senders and listeners over one notify log,
 and the claim the bus is built for: nothing that was missed stays missed.
 */
module ClusterRuns {
  import opened ClusterBus
  import opened Wrappers

  /** What a run leaves behind, in the order it happened. `Swallowed` records a message dropped
      between a resync request going out and `lost` being cleared. */
  datatype Event =
    | Published(msg: Message)
    | Swallowed(msg: Message)
    | Dispatched(node: nat, msg: Message, at: nat)
    | FetchFailed(node: nat, msg: Message)
    | ResyncFired(node: nat)

  datatype State = State(nodes: seq<Node>, log: seq<Entry>, trace: seq<Event>, nonce: nat)

  datatype Step =
    | Publish(n: nat, large: bool)
    | Take(n: nat)
    | Load(n: nat)
    | Attempt(n: nat, outcome: Outcome)
    | Store(n: nat)
    | Listen(n: nat, hears: bool)          // connect and LISTEN
    | SendProbe(n: nat)                    // on connecting, and after a silence
    | Hear(n: nat, fetched: bool)          // WaitForNotification returns one
    | Cut(n: nat)                          // the session silently stops delivering
    | Drop(n: nat)                         // any error, or a probe that never came back
    | Stop(n: nat)                         // the node's context is cancelled

  function Init(n: nat): State {
    State(seq(n, i => NewNode()), [], [], 0)
  }

  predicate Enabled(s: State, step: Step) {
    && step.n < |s.nodes|
    && var v := s.nodes[step.n];
       (step.Publish? || !v.stopped) &&
       match step
       case Publish(_, _) => true
       case Take(_) => CanTake(v)
       case Load(_) => v.sender.Taken?
       case Attempt(_, _) => CanAttempt(v)
       case Store(_) => CanStore(v)
       case Listen(_, _) => v.listener.Down?
       case SendProbe(_) => v.listener.Session? && v.listener.pending.None?
       case Hear(_, _) => Listening(v) && v.listener.hears && v.pos < |s.log|
       case Cut(_) => v.listener.Session?
       case Drop(_) => v.listener.Session?
       case Stop(_) => true
  }

  function ReactionEvents(n: nat, r: Reaction, at: nat): seq<Event> {
    match r
    case Ignore => []
    case Handle(m) => [Dispatched(n, m, at)]
    case LoseSpilled(m) => [FetchFailed(n, m)]
    case FireResync => [ResyncFired(n)]
  }

  function Update(s: State, n: nat, v: Node, entries: seq<Entry>, events: seq<Event>): State
    requires n < |s.nodes|
  {
    s.(nodes := s.nodes[n := v], log := s.log + entries, trace := s.trace + events)
  }

  function Apply(s: State, step: Step): State
    requires Enabled(s, step)
  {
    var n := step.n;
    var v := s.nodes[n];
    match step
    case Publish(_, large) =>
      var m := Message(n, v.published, large);
      var dropped := |v.queue| >= SEND_BUFFER;
      Update(s, n, PublishStep(v, m), [],
             [Published(m)] + if dropped && v.sender.ResyncSent? then [Swallowed(m)] else [])
    case Take(_) => Update(s, n, TakeStep(v), [], [])
    case Load(_) => Update(s, n, LoadStep(v), [], [])
    case Attempt(_, o) => Update(s, n, AttemptStep(v, o), AttemptEntries(v, n, o), [])
    case Store(_) => Update(s, n, StoreStep(v), [], [])
    case Listen(_, hears) =>
      Update(s, n, v.(listener := Session(hears, |s.log|, None, false), pos := |s.log|), [], [])
    case SendProbe(_) =>
      Update(s.(nonce := s.nonce + 1), n,
             v.(listener := v.listener.(pending := Some(s.nonce))), [Probe(n, s.nonce)], [])
    case Hear(_, fetched) =>
      Update(s, n, HearStep(v, n, s.log[v.pos]), [],
             ReactionEvents(n, HearReaction(v, n, s.log[v.pos], fetched), v.pos))
    case Cut(_) => Update(s, n, v.(listener := v.listener.(hears := false)), [], [])
    case Drop(_) => Update(s, n, v.(listener := Down), [], [])
    case Stop(_) => Update(s, n, v.(stopped := true, listener := Down), [], [])
  }

  predicate ValidRun(s: State, run: seq<Step>)
    decreases |run|
  {
    run == [] || (Enabled(s, run[0]) && ValidRun(Apply(s, run[0]), run[1..]))
  }

  function Exec(s: State, run: seq<Step>): State
    requires ValidRun(s, run)
    decreases |run|
  {
    if run == [] then s else Exec(Apply(s, run[0]), run[1..])
  }

  lemma {:induction false} ExecAppend(s: State, run: seq<Step>, more: seq<Step>)
    requires ValidRun(s, run) && ValidRun(Exec(s, run), more)
    ensures ValidRun(s, run + more) && Exec(s, run + more) == Exec(Exec(s, run), more)
    decreases |run|
  {
    if run == [] {
      assert run + more == more;
    } else {
      assert (run + more)[0] == run[0] && (run + more)[1..] == run[1..] + more;
      ExecAppend(Apply(s, run[0]), run[1..], more);
    }
  }

  /** Doing two things to one node in a row is doing both at once. */
  lemma UpdateTwice(s: State, n: nat, v: Node, w: Node, e1: seq<Entry>, e2: seq<Entry>)
    requires n < |s.nodes|
    ensures Update(Update(s, n, v, e1, []), n, w, e2, []) == Update(s, n, w, e1 + e2, [])
  {
    assert s.log + e1 + e2 == s.log + (e1 + e2);
    assert s.trace + [] + [] == s.trace + [];
  }

  /** The retry loop run by itself is a run of attempts. */
  lemma {:induction false} RetryIsARun(s: State, n: nat, outcomes: seq<Outcome>) returns (run: seq<Step>)
    requires n < |s.nodes| && !s.nodes[n].stopped
    requires CanAttempt(s.nodes[n]) && s.nodes[n].sender.attempt < SEND_ATTEMPTS
    ensures ValidRun(s, run)
    ensures var r := RetryStep(s.nodes[n], n, outcomes); Exec(s, run) == Update(s, n, r.0, r.1, [])
    decreases SEND_ATTEMPTS - s.nodes[n].sender.attempt
  {
    var v := s.nodes[n];
    var step := Attempt(n, OutcomeAt(outcomes, v.sender.attempt));
    var s' := Apply(s, step);
    if step.outcome.Sent? || v.sender.attempt + 1 == SEND_ATTEMPTS {
      run := [step];
      assert Exec(s', []) == s';
    } else {
      var rest := RetryIsARun(s', n, outcomes);
      run := [step] + rest;
      assert run[1..] == rest;
      var r := RetryStep(s'.nodes[n], n, outcomes);
      UpdateTwice(s, n, s'.nodes[n], r.0, AttemptEntries(v, n, step.outcome), r.1);
    }
  }

  lemma OneStep(s: State, step: Step)
    requires Enabled(s, step)
    ensures ValidRun(s, [step]) && Exec(s, [step]) == Apply(s, step)
  {
    assert ValidRun(Apply(s, step), []);
  }

  /** An attempt run followed by the store it calls for, if any. */
  lemma StoreAfter(s: State, n: nat, w: Node, out: seq<Entry>, store: bool, tries: seq<Step>) returns (run: seq<Step>)
    requires n < |s.nodes| && !w.stopped && (store ==> CanStore(w))
    requires ValidRun(s, tries) && Exec(s, tries) == Update(s, n, w, out, [])
    ensures ValidRun(s, run) && Exec(s, run) == Update(s, n, if store then StoreStep(w) else w, out, [])
  {
    run := tries;
    if store {
      var s' := Update(s, n, w, out, []);
      OneStep(s', Store(n));
      ExecAppend(s, tries, [Store(n)]);
      run := tries + [Store(n)];
      UpdateTwice(s, n, w, StoreStep(w), out, []);
      assert out + [] == out;
    }
  }

  lemma AskIsARun(s: State, n: nat, outcomes: seq<Outcome>) returns (run: seq<Step>)
    requires n < |s.nodes| && !s.nodes[n].stopped
    requires s.nodes[n].sender.Resyncing? && s.nodes[n].sender.attempt == 0
    ensures var r := AskStep(s.nodes[n], n, outcomes); ValidRun(s, run) && Exec(s, run) == Update(s, n, r.0, r.1, [])
  {
    var tries := RetryIsARun(s, n, outcomes);
    var r := RetryStep(s.nodes[n], n, outcomes);
    run := StoreAfter(s, n, r.0, r.1, r.0.sender.ResyncSent?, tries);
  }

  lemma DeliverIsARun(s: State, n: nat, outcomes: seq<Outcome>) returns (run: seq<Step>)
    requires n < |s.nodes| && !s.nodes[n].stopped
    requires s.nodes[n].sender.Sending? && s.nodes[n].sender.attempt == 0
    ensures var r := DeliverStep(s.nodes[n], n, outcomes); ValidRun(s, run) && Exec(s, run) == Update(s, n, r.0, r.1, [])
  {
    var tries := RetryIsARun(s, n, outcomes);
    var r := RetryStep(s.nodes[n], n, outcomes);
    run := StoreAfter(s, n, r.0, r.1, r.0.sender.GaveUp?, tries);
  }

  lemma TakeAndLoadIsARun(s: State, n: nat) returns (run: seq<Step>)
    requires n < |s.nodes| && !s.nodes[n].stopped && CanTake(s.nodes[n])
    ensures ValidRun(s, run) && Exec(s, run) == Update(s, n, LoadStep(TakeStep(s.nodes[n])), [], [])
  {
    var v := s.nodes[n];
    OneStep(s, Take(n));
    OneStep(Apply(s, Take(n)), Load(n));
    ExecAppend(s, [Take(n)], [Load(n)]);
    run := [Take(n)] + [Load(n)];
    UpdateTwice(s, n, TakeStep(v), LoadStep(TakeStep(v)), [], []);
    var none: seq<Entry> := [];
    assert none + none == none;
  }

  /** Two runs in a row that each only touch node `n` and the log. */
  lemma RunsCompose(s: State, n: nat, first: seq<Step>, v: Node, e1: seq<Entry>, second: seq<Step>, w: Node, e2: seq<Entry>)
    requires n < |s.nodes|
    requires ValidRun(s, first) && Exec(s, first) == Update(s, n, v, e1, [])
    requires ValidRun(Update(s, n, v, e1, []), second)
    requires Exec(Update(s, n, v, e1, []), second) == Update(Update(s, n, v, e1, []), n, w, e2, [])
    ensures ValidRun(s, first + second) && Exec(s, first + second) == Update(s, n, w, e1 + e2, [])
  {
    ExecAppend(s, first, second);
    UpdateTwice(s, n, v, w, e1, e2);
  }

  /** One turn of the send loop, as `Bus.SendOne` performs it in place, is a run of the model: so
      everything proved over runs holds of buses driven by it. */
  lemma SendOneIsARun(s: State, n: nat, resyncOutcomes: seq<Outcome>, outcomes: seq<Outcome>)
    returns (run: seq<Step>)
    requires n < |s.nodes| && !s.nodes[n].stopped && CanTake(s.nodes[n])
    ensures ValidRun(s, run)
    ensures var r := SendOneStep(s.nodes[n], n, resyncOutcomes, outcomes);
      Exec(s, run) == Update(s, n, r.0, r.1, [])
  {
    var loaded := LoadStep(TakeStep(s.nodes[n]));
    run := TakeAndLoadIsARun(s, n);
    var s1 := Update(s, n, loaded, [], []);
    var ready, asked: seq<Entry> := loaded, [];
    if loaded.sender.Resyncing? {
      var asking := AskIsARun(s1, n, resyncOutcomes);
      ready, asked := AskStep(loaded, n, resyncOutcomes).0, AskStep(loaded, n, resyncOutcomes).1;
      RunsCompose(s, n, run, loaded, [], asking, ready, asked);
      run := run + asking;
      assert [] + asked == asked;
    }
    var delivering := DeliverIsARun(Update(s, n, ready, asked, []), n, outcomes);
    var r := DeliverStep(ready, n, outcomes);
    RunsCompose(s, n, run, ready, asked, delivering, r.0, r.1);
    run := run + delivering;
  }

  // ---- what is promised ---------------------------------------------------------

  predicate Settles(e: Event, m: Message, b: nat) {
    e == ResyncFired(b) || (e.Dispatched? && e.node == b && e.msg == m)
  }

  /** Node `b` handled the message, or ran its resync callbacks after it was published. */
  ghost predicate Settled(t: seq<Event>, m: Message, b: nat) {
    exists j :: 0 <= j < |t| && Settles(t[j], m, b) && Published(m) in t[..j]
  }

  /** The two ways a message can slip through. */
  predicate Excepted(t: seq<Event>, m: Message, b: nat) {
    Swallowed(m) in t || FetchFailed(b, m) in t
  }

  /** The publisher still has the message queued or in hand. */
  predicate InHand(v: Node, m: Message) {
    m in v.queue || (!v.sender.Idle? && v.sender.held == m)
  }

  /** Node `b` has no session it trusts, so a resync of its own is still ahead of it. */
  predicate NotReady(v: Node) {
    v.listener.Down? || !v.listener.hears || !v.listener.live
  }

  /** The message, or a resync request of its publisher, is in the log ahead of `b`. */
  ghost predicate InFlight(s: State, m: Message, b: nat)
    requires b < |s.nodes|
  {
    exists p :: s.nodes[b].pos <= p < |s.log| && (s.log[p] == Data(m) || s.log[p] == Resync(m.origin))
  }

  /** Settled, or still going to be without help from the publisher's `lost` flag. */
  ghost predicate OnItsWay(s: State, m: Message, b: nat)
    requires m.origin < |s.nodes| && b < |s.nodes|
  {
    || Settled(s.trace, m, b)
    || InHand(s.nodes[m.origin], m)
    || NotReady(s.nodes[b])
    || InFlight(s, m, b)
  }

  ghost predicate Accounted(s: State, m: Message, b: nat)
    requires m.origin < |s.nodes| && b < |s.nodes|
  {
    OnItsWay(s, m, b) || s.nodes[m.origin].lost
  }

  // ---- the invariant for one message and one receiver ----------------------------

  ghost predicate Sane(s: State) {
    forall n :: 0 <= n < |s.nodes| ==> s.nodes[n].pos <= |s.log| && |s.nodes[n].queue| <= SEND_BUFFER
  }

  /** Once the resync request is out, `lost` no longer carries anything that was not swallowed. */
  ghost predicate Kept(s: State, m: Message, b: nat)
    requires m.origin < |s.nodes| && b < |s.nodes|
  {
    Published(m) in s.trace && !Excepted(s.trace, m, b) ==>
      && Accounted(s, m, b)
      && (s.nodes[m.origin].sender.ResyncSent? ==> OnItsWay(s, m, b))
  }

  lemma SettledByLast(t: seq<Event>, e: Event, m: Message, b: nat)
    requires Published(m) in t && Settles(e, m, b)
    ensures Settled(t + [e], m, b)
  {
    var u := t + [e];
    assert u[|t|] == e && u[..|t|] == t;
  }

  lemma SettledStays(t: seq<Event>, es: seq<Event>, m: Message, b: nat)
    requires Settled(t, m, b)
    ensures Settled(t + es, m, b)
  {
    var j :| 0 <= j < |t| && Settles(t[j], m, b) && Published(m) in t[..j];
    assert (t + es)[j] == t[j] && (t + es)[..j] == t[..j];
  }

  /** Steps that move nothing but the log forward keep what is in flight in flight. */
  lemma InFlightStays(s: State, s': State, m: Message, b: nat)
    requires b < |s.nodes| && b < |s'.nodes|
    requires s.log <= s'.log && s'.nodes[b].pos == s.nodes[b].pos
    requires InFlight(s, m, b)
    ensures InFlight(s', m, b)
  {
    var p :| s.nodes[b].pos <= p < |s.log| && (s.log[p] == Data(m) || s.log[p] == Resync(m.origin));
    assert s'.log[p] == s.log[p];
  }

  lemma SaneStays(s: State, step: Step)
    requires Sane(s) && Enabled(s, step)
    ensures Sane(Apply(s, step)) && |Apply(s, step).nodes| == |s.nodes|
    ensures s.log <= Apply(s, step).log && s.trace <= Apply(s, step).trace
  {
  }

  /** Hearing one notification takes the message out of flight only by settling or excepting it. */
  lemma HearKeeps(s: State, step: Step, m: Message, b: nat)
    requires Sane(s) && Enabled(s, step) && step.Hear? && step.n == b
    requires m.origin < |s.nodes| && b != m.origin
    requires Published(m) in s.trace && OnItsWay(s, m, b)
    ensures var s' := Apply(s, step); OnItsWay(s', m, b) || Excepted(s'.trace, m, b)
  {
    var s' := Apply(s, step);
    var v := s.nodes[b];
    var e := s.log[v.pos];
    var r := HearReaction(v, b, e, step.fetched);
    var events := ReactionEvents(b, r, v.pos);
    assert s'.trace == s.trace + events;
    if Settled(s.trace, m, b) {
      SettledStays(s.trace, events, m, b);
    } else if r == FireResync || r == Handle(m) {
      SettledByLast(s.trace, events[0], m, b);
    } else if r == LoseSpilled(m) {
      assert events[0] in s'.trace;
    } else if InFlight(s, m, b) {
      var p :| v.pos <= p < |s.log| && (s.log[p] == Data(m) || s.log[p] == Resync(m.origin));
      assert p != v.pos;
      assert s'.log[p] == s.log[p];
    }
  }

  lemma StepKeeps(s: State, step: Step, m: Message, b: nat)
    requires Sane(s) && Enabled(s, step)
    requires m.origin < |s.nodes| && b < |s.nodes| && b != m.origin
    requires Published(m) in s.trace && Kept(s, m, b)
    ensures Kept(Apply(s, step), m, b)
  {
    var s' := Apply(s, step);
    var a := m.origin;
    SaneStays(s, step);
    if Excepted(s.trace, m, b) {
      assert Excepted(s'.trace, m, b);
    } else if step.Hear? && step.n == b {
      if OnItsWay(s, m, b) {
        HearKeeps(s, step, m, b);
      }
    } else {
      if Settled(s.trace, m, b) {
        SettledStays(s.trace, s'.trace[|s.trace|..], m, b);
        assert s'.trace == s.trace + s'.trace[|s.trace|..];
      }
      if step.n == b {
        if step.Listen? { assert NotReady(s'.nodes[b]); }
        if !step.Listen? && InFlight(s, m, b) { InFlightStays(s, s', m, b); }
      } else if InFlight(s, m, b) {
        InFlightStays(s, s', m, b);
      }
      if step.n == a && step.Attempt? {
        AttemptKeeps(s, step, m, b);
      }
    }
  }

  /** A successful attempt puts what it sends ahead of every receiver. */
  lemma AttemptKeeps(s: State, step: Step, m: Message, b: nat)
    requires Sane(s) && Enabled(s, step) && step.Attempt? && step.n == m.origin
    requires m.origin < |s.nodes| && b < |s.nodes| && b != m.origin
    ensures var v, s' := s.nodes[m.origin], Apply(s, step);
      step.outcome.Sent? && (v.sender.Resyncing? || v.sender.held == m) ==> InFlight(s', m, b)
  {
    var v, s' := s.nodes[m.origin], Apply(s, step);
    if step.outcome.Sent? && (v.sender.Resyncing? || v.sender.held == m) {
      var p := |s.log|;
      assert s'.nodes[b].pos <= p < |s'.log|;
      assert s'.log[p] == Data(m) || s'.log[p] == Resync(m.origin);
    }
  }

  /** A newly published message starts out accounted for. */
  lemma PublishKeeps(s: State, step: Step, m: Message, b: nat)
    requires Sane(s) && Enabled(s, step)
    requires m.origin < |s.nodes| && b < |s.nodes| && b != m.origin
    requires Published(m) !in s.trace
    ensures Kept(Apply(s, step), m, b)
  {
    var s' := Apply(s, step);
    if step.Publish? && m == Message(step.n, s.nodes[step.n].published, step.large) {
      var v := s.nodes[step.n];
      if |v.queue| < SEND_BUFFER {
        assert s'.nodes[step.n].queue == v.queue + [m];
        assert m in s'.nodes[step.n].queue;
      } else if v.sender.ResyncSent? {
        assert s'.trace[|s.trace| + 1] == Swallowed(m);
      }
    } else {
      assert Published(m) !in s'.trace;
    }
  }

  lemma {:induction false} RunKeeps(s: State, run: seq<Step>, m: Message, b: nat)
    requires Sane(s) && ValidRun(s, run)
    requires m.origin < |s.nodes| && b < |s.nodes| && b != m.origin
    requires Kept(s, m, b)
    ensures var s' := Exec(s, run); |s'.nodes| == |s.nodes| && Sane(s') && Kept(s', m, b)
    decreases |run|
  {
    if run != [] {
      SaneStays(s, run[0]);
      if Published(m) in s.trace {
        StepKeeps(s, run[0], m, b);
      } else {
        PublishKeeps(s, run[0], m, b);
      }
      RunKeeps(Apply(s, run[0]), run[1..], m, b);
    }
  }

  // ---- the theorems ---------------------------------------------------------------

  /** Over every run, a published message has been dispatched at each other node or followed by
      a resync there, or is still owed, unless it was swallowed in the window after a resync
      request or its spilled payload could not be fetched. */
  lemma NothingMissedStaysMissed(n: nat, run: seq<Step>, m: Message, b: nat)
    requires ValidRun(Init(n), run)
    requires m.origin < n && b < n && b != m.origin
    requires Published(m) in Exec(Init(n), run).trace
    ensures var s := Exec(Init(n), run);
      |s.nodes| == n && (Accounted(s, m, b) || Excepted(s.trace, m, b))
  {
    RunKeeps(Init(n), run, m, b);
  }

  /** A node pair with nothing left to do: the publisher holds nothing and owes nothing, and the
      receiver's live session has heard the whole log. */
  predicate Quiet(s: State, a: nat, b: nat)
    requires a < |s.nodes| && b < |s.nodes|
  {
    && s.nodes[a].queue == [] && s.nodes[a].sender.Idle? && !s.nodes[a].lost
    && !NotReady(s.nodes[b]) && s.nodes[b].pos == |s.log|
  }

  /** So once things are quiet, every message that was not excepted has been settled. */
  lemma QuietMeansSettled(n: nat, run: seq<Step>, m: Message, b: nat)
    requires ValidRun(Init(n), run)
    requires m.origin < n && b < n && b != m.origin
    requires var s := Exec(Init(n), run);
      |s.nodes| == n && Published(m) in s.trace && Quiet(s, m.origin, b)
    ensures var s := Exec(Init(n), run); Settled(s.trace, m, b) || Excepted(s.trace, m, b)
  {
    NothingMissedStaysMissed(n, run, m, b);
  }

  // ---- the two exceptions, exactly ----------------------------------------------------

  /** A message is missed when nothing anywhere will bring it, or a resync, to `b`. */
  ghost predicate Missed(s: State, m: Message, b: nat)
    requires m.origin < |s.nodes| && b < |s.nodes|
  {
    !Accounted(s, m, b)
  }

  /** Nothing has been heard of the next message of node `a`. */
  ghost predicate Unheard(s: State, m: Message)
    requires m.origin < |s.nodes|
  {
    Published(m) !in s.trace && !InHand(s.nodes[m.origin], m) && Data(m) !in s.log
  }

  /** A drop is forgotten by the sender's next store exactly when it lands after the resync
      request went out and the receiver, live, has already heard every such request. */
  lemma DropThenStore(s: State, a: nat, b: nat, large: bool)
    requires Sane(s) && a < |s.nodes| && b < |s.nodes| && a != b
    requires !s.nodes[a].stopped && CanStore(s.nodes[a]) && |s.nodes[a].queue| == SEND_BUFFER
    requires Unheard(s, Message(a, s.nodes[a].published, large))
    ensures var m := Message(a, s.nodes[a].published, large);
      Missed(Apply(Apply(s, Publish(a, large)), Store(a)), m, b) <==>
        && s.nodes[a].sender.ResyncSent?
        && !NotReady(s.nodes[b])
        && forall p :: s.nodes[b].pos <= p < |s.log| ==> s.log[p] != Resync(a)
  {
    var m := Message(a, s.nodes[a].published, large);
    var s2 := Apply(Apply(s, Publish(a, large)), Store(a));
    forall j | 0 <= j < |s2.trace|
      ensures !(Settles(s2.trace[j], m, b) && Published(m) in s2.trace[..j])
    {
      if j <= |s.trace| {
        assert s2.trace[..j] == s.trace[..j];
      }
    }
    assert !Settled(s2.trace, m, b);
    forall p | 0 <= p < |s.log| ensures s.log[p] != Data(m) {
      assert s.log[p] in s.log;
    }
    assert s2.log == s.log && s2.nodes[b] == s.nodes[b];
    assert s2.nodes[a].queue == s.nodes[a].queue && !InHand(s2.nodes[a], m);
  }

  /** Hearing the last copy of a message, nothing else being under way for it, misses it exactly
      when it was spilled and the payload could not be fetched. */
  lemma HearMissesExactly(s: State, m: Message, b: nat, fetched: bool)
    requires Sane(s) && m.origin < |s.nodes| && b < |s.nodes| && b != m.origin
    requires Enabled(s, Hear(b, fetched)) && s.log[s.nodes[b].pos] == Data(m)
    requires Published(m) in s.trace && !Settled(s.trace, m, b)
    requires !InHand(s.nodes[m.origin], m) && !s.nodes[m.origin].lost && !NotReady(s.nodes[b])
    requires forall p :: s.nodes[b].pos < p < |s.log| ==> s.log[p] != Data(m) && s.log[p] != Resync(m.origin)
    ensures Missed(Apply(s, Hear(b, fetched)), m, b) <==> m.large && !fetched
  {
    var s' := Apply(s, Hear(b, fetched));
    if m.large && !fetched {
      forall j | 0 <= j < |s'.trace|
        ensures !(Settles(s'.trace[j], m, b) && Published(m) in s'.trace[..j])
      {
        if j < |s.trace| {
          assert s'.trace[..j] == s.trace[..j];
        }
      }
    } else {
      SettledByLast(s.trace, Dispatched(b, m, s.nodes[b].pos), m, b);
    }
  }

  // ---- why a session is not trusted before its probe is back --------------------------

  /** A live session has heard a probe of its own, sent after it started listening. */
  ghost predicate Trusted(s: State, n: nat)
    requires n < |s.nodes|
  {
    var l := s.nodes[n].listener;
    l.Session? ==>
      && l.since <= s.nodes[n].pos <= |s.log|
      && (l.live ==> exists p :: l.since <= p < s.nodes[n].pos && s.log[p].Probe? && s.log[p].origin == n)
  }

  lemma {:induction false} LiveOnlyAfterOwnProbe(s: State, run: seq<Step>, n: nat)
    requires ValidRun(s, run) && n < |s.nodes| && Trusted(s, n)
    ensures n < |Exec(s, run).nodes| && Trusted(Exec(s, run), n)
    decreases |run|
  {
    if run != [] {
      var s' := Apply(s, run[0]);
      var l := s.nodes[n].listener;
      if l.Session? && l.live {
        var p :| l.since <= p < s.nodes[n].pos && s.log[p].Probe? && s.log[p].origin == n;
        assert s'.log[p] == s.log[p];
      }
      if run[0].Hear? && run[0].n == n {
        assert s'.log[s.nodes[n].pos] == s.log[s.nodes[n].pos];
      }
      LiveOnlyAfterOwnProbe(s', run[1..], n);
    }
  }

  /** So a session that delivers nothing is never taken for a live one, whatever other nodes do: it
      fires no resync and its node stays marked as one that owes itself a resync. */
  lemma {:induction false} DeafSessionNeverGoesLive(s: State, run: seq<Step>, n: nat)
    requires ValidRun(s, run) && n < |s.nodes|
    requires s.nodes[n].listener.Session? && !s.nodes[n].listener.hears && !s.nodes[n].listener.live
    requires forall i :: 0 <= i < |run| ==> !(run[i].n == n && (run[i].Drop? || run[i].Stop?))
    ensures n < |Exec(s, run).nodes| && Exec(s, run).nodes[n].listener.Session?
    ensures !Exec(s, run).nodes[n].listener.live && Exec(s, run).nodes[n].pos == s.nodes[n].pos
    decreases |run|
  {
    if run != [] {
      DeafSessionNeverGoesLive(Apply(s, run[0]), run[1..], n);
    }
  }
}
