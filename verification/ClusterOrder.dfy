/**
 The order in which a node hears another node's messages, and how often it can hear one.
 */
module ClusterOrder {
  import opened ClusterBus
  import opened ClusterRuns
  import opened Wrappers

  // ---- the log keeps each publisher's order ---------------------------------------------

  predicate From(e: Entry, a: nat) {
    e.Data? && e.msg.origin == a
  }

  /** `x` was published before `y`; unless every failed attempt left nothing behind, `y` may
      also be another copy of `x`. */
  predicate Precedes(x: Message, y: Message, clean: bool) {
    x.number < y.number || (!clean && x == y)
  }

  /** What a node has yet to send, in order. */
  function Pending(v: Node): seq<Message> {
    (if v.sender.Idle? then [] else [v.sender.held]) + v.queue
  }

  predicate InNotify(v: Node) {
    v.sender.Sending? || v.sender.GaveUp?
  }

  ghost predicate PendingOrdered(pending: seq<Message>, a: nat, bound: nat) {
    && (forall i :: 0 <= i < |pending| ==> pending[i].origin == a && pending[i].number < bound)
    && (forall i, j :: 0 <= i < j < |pending| ==> pending[i].number < pending[j].number)
  }

  ghost predicate LogOrdered(log: seq<Entry>, a: nat, clean: bool) {
    forall p, q :: 0 <= p < q < |log| && From(log[p], a) && From(log[q], a) ==>
      Precedes(log[p].msg, log[q].msg, clean)
  }

  /** Everything of node `a` in the log comes before everything it still has to send, except
      that copies of the first of them may already be there when `strict` is off. */
  ghost predicate LogBefore(log: seq<Entry>, pending: seq<Message>, a: nat, strict: bool) {
    forall p, i :: 0 <= p < |log| && From(log[p], a) && 0 <= i < |pending| ==>
      Precedes(log[p].msg, pending[i], strict || i > 0)
  }

  ghost predicate LogNumbered(log: seq<Entry>, a: nat, bound: nat) {
    forall p :: 0 <= p < |log| && From(log[p], a) ==> log[p].msg.number < bound
  }

  predicate PublishedBy(e: Event, a: nat) {
    e.Published? && e.msg.origin == a
  }

  ghost predicate TraceNumbered(t: seq<Event>, a: nat, bound: nat) {
    && (forall i :: 0 <= i < |t| && PublishedBy(t[i], a) ==> t[i].msg.number < bound)
    && (forall i, j :: 0 <= i < j < |t| && PublishedBy(t[i], a) && PublishedBy(t[j], a) ==>
          t[i].msg.number < t[j].msg.number)
  }

  /** The log and what is pending at `a` continue one another in publish order. */
  ghost predicate Queued(log: seq<Entry>, pending: seq<Message>, a: nat, clean: bool, strict: bool, bound: nat) {
    && PendingOrdered(pending, a, bound)
    && LogOrdered(log, a, clean)
    && LogBefore(log, pending, a, strict)
    && LogNumbered(log, a, bound)
  }

  ghost predicate Ordered(s: State, a: nat, clean: bool)
    requires a < |s.nodes|
  {
    var v := s.nodes[a];
    && Queued(s.log, Pending(v), a, clean, clean || !InNotify(v), v.published)
    && TraceNumbered(s.trace, a, v.published)
  }

  /** No attempt of the run failed after committing. */
  predicate CleanStep(step: Step) {
    step.Attempt? ==> !step.outcome.FailedButCommitted?
  }

  predicate CleanRun(run: seq<Step>) {
    forall i :: 0 <= i < |run| ==> CleanStep(run[i])
  }

  lemma AppendOrdered(log: seq<Entry>, m: Message, a: nat, clean: bool)
    requires LogOrdered(log, a, clean)
    requires forall p :: 0 <= p < |log| && From(log[p], a) ==> Precedes(log[p].msg, m, clean)
    ensures LogOrdered(log + [Data(m)], a, clean)
  {
    var log' := log + [Data(m)];
    forall p, q | 0 <= p < q < |log'| && From(log'[p], a) && From(log'[q], a)
      ensures Precedes(log'[p].msg, log'[q].msg, clean)
    {
      assert log'[p] == log[p];
      if q < |log| {
        assert log'[q] == log[q];
      }
    }
  }

  lemma AppendBefore(log: seq<Entry>, m: Message, pending: seq<Message>, a: nat, strict: bool)
    requires LogBefore(log, pending, a, strict)
    requires forall i :: 0 <= i < |pending| ==> Precedes(m, pending[i], strict || i > 0)
    ensures LogBefore(log + [Data(m)], pending, a, strict)
  {
    var log' := log + [Data(m)];
    forall p, i | 0 <= p < |log'| && From(log'[p], a) && 0 <= i < |pending|
      ensures Precedes(log'[p].msg, pending[i], strict || i > 0)
    {
      if p < |log| {
        assert log'[p] == log[p];
      }
    }
  }

  /** Appending the first pending message keeps the order, whether it then counts as sent or,
      after a failure that committed, stays pending. */
  lemma AppendQueued(log: seq<Entry>, pending: seq<Message>, a: nat, clean: bool, sent: bool, bound: nat)
    requires |pending| > 0 && (clean ==> sent) && Queued(log, pending, a, clean, clean, bound)
    ensures Queued(log + [Data(pending[0])], if sent then pending[1..] else pending, a, clean, clean || sent, bound)
  {
    AppendOrdered(log, pending[0], a, clean);
    if sent {
      DropFirstQueued(log, pending, a, clean, clean, bound);
      AppendBefore(log, pending[0], pending[1..], a, true);
    } else {
      AppendBefore(log, pending[0], pending, a, clean);
    }
    assert forall p :: 0 <= p < |log| ==> (log + [Data(pending[0])])[p] == log[p];
  }

  /** An entry that is not one of `a`'s messages changes nothing. */
  lemma ForeignQueued(log: seq<Entry>, e: Entry, pending: seq<Message>, a: nat, clean: bool, strict: bool, bound: nat)
    requires !From(e, a) && Queued(log, pending, a, clean, strict, bound)
    ensures Queued(log + [e], pending, a, clean, strict, bound)
  {
    var log' := log + [e];
    forall p | 0 <= p < |log'| && From(log'[p], a) ensures p < |log| && log'[p] == log[p] {
    }
  }

  lemma DropFirstQueued(log: seq<Entry>, pending: seq<Message>, a: nat, clean: bool, strict: bool, bound: nat)
    requires |pending| > 0 && Queued(log, pending, a, clean, strict, bound)
    ensures Queued(log, pending[1..], a, clean, true, bound)
  {
    assert forall i :: 0 <= i < |pending[1..]| ==> pending[1..][i] == pending[i + 1];
  }

  lemma PublishQueued(log: seq<Entry>, pending: seq<Message>, a: nat, clean: bool, strict: bool, m: Message)
    requires m.origin == a && Queued(log, pending, a, clean, strict, m.number)
    ensures Queued(log, pending, a, clean, strict, m.number + 1)
    ensures Queued(log, pending + [m], a, clean, strict, m.number + 1)
  {
  }

  lemma PublishNumbered(t: seq<Event>, m: Message, swallowed: bool)
    requires TraceNumbered(t, m.origin, m.number)
    ensures TraceNumbered(t + ([Published(m)] + if swallowed then [Swallowed(m)] else []), m.origin, m.number + 1)
  {
    var t' := t + ([Published(m)] + if swallowed then [Swallowed(m)] else []);
    assert forall i :: 0 <= i < |t| ==> t'[i] == t[i];
    assert t'[|t|] == Published(m);
    assert forall i :: |t| < i < |t'| ==> t'[i] == Swallowed(m);
  }

  lemma PublishOrdered(s: State, step: Step, clean: bool)
    requires Enabled(s, step) && Ordered(s, step.n, clean) && step.Publish?
    ensures Ordered(Apply(s, step), step.n, clean)
  {
    var s', a := Apply(s, step), step.n;
    var v, w := s.nodes[a], s'.nodes[a];
    var m := Message(a, v.published, step.large);
    assert s'.log == s.log;
    assert Pending(w) == if |v.queue| < SEND_BUFFER then Pending(v) + [m] else Pending(v);
    PublishQueued(s.log, Pending(v), a, clean, clean || !InNotify(v), m);
    PublishNumbered(s.trace, m, |v.queue| >= SEND_BUFFER && v.sender.ResyncSent?);
  }

  lemma AttemptOrdered(s: State, step: Step, clean: bool)
    requires Enabled(s, step) && Ordered(s, step.n, clean) && (clean ==> CleanStep(step))
    requires step.Attempt?
    ensures Ordered(Apply(s, step), step.n, clean)
  {
    var s', a := Apply(s, step), step.n;
    var v, w := s.nodes[a], s'.nodes[a];
    var sent := v.sender.Sending? && step.outcome.Sent?;
    assert s'.trace == s.trace && w.published == v.published;
    assert Pending(w) == if sent then Pending(v)[1..] else Pending(v);
    if step.outcome.Failed? {
      assert s'.log == s.log;
    } else if v.sender.Sending? {
      assert s'.log == s.log + [Data(Pending(v)[0])];
      AppendQueued(s.log, Pending(v), a, clean, sent, v.published);
    } else {
      assert s'.log == s.log + [Resync(a)];
      ForeignQueued(s.log, Resync(a), Pending(v), a, clean, true, v.published);
    }
  }

  predicate Silent(step: Step) {
    !step.Publish? && !step.Attempt? && !step.Hear? && !step.SendProbe?
  }

  lemma SilentLog(s: State, step: Step)
    requires Enabled(s, step) && Silent(step)
    ensures var s' := Apply(s, step);
      s'.trace == s.trace && s'.log == s.log && s'.nodes[step.n].published == s.nodes[step.n].published
  {
  }

  lemma SilentPending(s: State, step: Step)
    requires Enabled(s, step) && Silent(step)
    ensures var v, w := s.nodes[step.n], Apply(s, step).nodes[step.n];
      if step.Store? && v.sender.GaveUp? then
        Pending(v) != [] && Pending(w) == Pending(v)[1..] && InNotify(v)
      else
        Pending(w) == Pending(v) && (InNotify(v) ==> InNotify(w))
  {
  }

  /** Steps that leave the log alone keep what is pending, or drop its first message. */
  lemma SilentOrdered(s: State, step: Step, clean: bool)
    requires Enabled(s, step) && Ordered(s, step.n, clean) && Silent(step)
    ensures Ordered(Apply(s, step), step.n, clean)
  {
    var v := s.nodes[step.n];
    SilentLog(s, step);
    SilentPending(s, step);
    if step.Store? && v.sender.GaveUp? {
      DropFirstQueued(s.log, Pending(v), step.n, clean, clean, v.published);
    }
  }

  lemma OwnStepOrdered(s: State, step: Step, clean: bool)
    requires Enabled(s, step) && Ordered(s, step.n, clean) && (clean ==> CleanStep(step))
    ensures Ordered(Apply(s, step), step.n, clean)
  {
    if step.Publish? {
      PublishOrdered(s, step, clean);
    } else if step.Attempt? {
      AttemptOrdered(s, step, clean);
    } else if step.Hear? {
      HearOrdered(s, step, clean);
    } else if step.SendProbe? {
      var s', a := Apply(s, step), step.n;
      var v := s.nodes[a];
      ForeignQueued(s.log, Probe(a, s.nonce), Pending(v), a, clean, clean || !InNotify(v), v.published);
      assert s'.trace == s.trace && s'.log == s.log + [Probe(a, s.nonce)] && Pending(s'.nodes[a]) == Pending(v);
    } else {
      SilentOrdered(s, step, clean);
    }
  }

  lemma HearOrdered(s: State, step: Step, clean: bool)
    requires Enabled(s, step) && Ordered(s, step.n, clean) && step.Hear?
    ensures Ordered(Apply(s, step), step.n, clean)
  {
    var s', a := Apply(s, step), step.n;
    assert s'.log == s.log && Pending(s'.nodes[a]) == Pending(s.nodes[a]);
    NothingPublished(s, step, a);
  }

  lemma NothingPublished(s: State, step: Step, a: nat)
    requires Enabled(s, step) && a < |s.nodes| && (step.Publish? ==> step.n != a)
    requires TraceNumbered(s.trace, a, s.nodes[a].published)
    ensures TraceNumbered(Apply(s, step).trace, a, s.nodes[a].published)
  {
    var t, t' := s.trace, Apply(s, step).trace;
    assert forall i :: 0 <= i < |t| ==> t'[i] == t[i];
    assert forall i :: |t| <= i < |t'| ==> !PublishedBy(t'[i], a);
  }

  lemma OtherStepOrdered(s: State, step: Step, a: nat, clean: bool)
    requires Enabled(s, step) && step.n != a < |s.nodes| && Ordered(s, a, clean)
    requires Ordered(s, step.n, clean)
    ensures Ordered(Apply(s, step), a, clean)
  {
    var s' := Apply(s, step);
    var v, w := s.nodes[a], s.nodes[step.n];
    assert s'.nodes[a] == v;
    NothingPublished(s, step, a);
    if |s'.log| > |s.log| {
      var e := s'.log[|s.log|];
      assert s'.log == s.log + [e];
      if step.Attempt? {
        assert w.sender.held == Pending(w)[0];
      }
      ForeignQueued(s.log, e, Pending(v), a, clean, clean || !InNotify(v), v.published);
    } else {
      assert s'.log == s.log;
    }
  }

  lemma {:induction false} RunOrdered(s: State, run: seq<Step>, clean: bool)
    requires ValidRun(s, run) && (clean ==> CleanRun(run))
    requires forall a :: 0 <= a < |s.nodes| ==> Ordered(s, a, clean)
    ensures |Exec(s, run).nodes| == |s.nodes|
    ensures forall a :: 0 <= a < |s.nodes| ==> Ordered(Exec(s, run), a, clean)
    decreases |run|
  {
    if run != [] {
      var s' := Apply(s, run[0]);
      assert clean ==> CleanStep(run[0]);
      forall a | 0 <= a < |s.nodes| ensures Ordered(s', a, clean) {
        if a == run[0].n {
          OwnStepOrdered(s, run[0], clean);
        } else {
          assert Ordered(s, run[0].n, clean);
          OtherStepOrdered(s, run[0], a, clean);
        }
      }
      RunOrdered(s', run[1..], clean);
    }
  }

  // ---- what one node hears follows the log ---------------------------------------------------

  predicate HeardAt(e: Event, b: nat) {
    e.Dispatched? && e.node == b
  }

  /** The dispatches at `b` are entries of the log below its position, in log order, and never
      its own messages. */
  ghost predicate Heard(s: State, b: nat)
    requires b < |s.nodes|
  {
    HeardIn(s.log, s.trace, b, s.nodes[b].pos)
  }

  ghost predicate HeardIn(log: seq<Entry>, t: seq<Event>, b: nat, pos: nat) {
    && pos <= |log|
    && (forall i :: 0 <= i < |t| && HeardAt(t[i], b) ==>
          t[i].at < pos && log[t[i].at] == Data(t[i].msg) && t[i].msg.origin != b)
    && (forall i, j :: 0 <= i < j < |t| && HeardAt(t[i], b) && HeardAt(t[j], b) ==> t[i].at < t[j].at)
  }

  /** Events that are no dispatch at `b` leave it as it was, whatever the log gains. */
  lemma HeardGrows(log: seq<Entry>, es: seq<Entry>, t: seq<Event>, more: seq<Event>, b: nat, pos: nat, pos': nat)
    requires HeardIn(log, t, b, pos) && pos <= pos' <= |log + es|
    requires forall e :: e in more ==> !HeardAt(e, b)
    ensures HeardIn(log + es, t + more, b, pos')
  {
    var t', log' := t + more, log + es;
    forall i | |t| <= i < |t'| ensures !HeardAt(t'[i], b) {
      assert t'[i] == more[i - |t|];
    }
    forall i | 0 <= i < |t| && HeardAt(t[i], b) ensures t'[i] == t[i] && log'[t[i].at] == log[t[i].at] {
    }
  }

  lemma HeardOne(log: seq<Entry>, t: seq<Event>, m: Message, b: nat, pos: nat)
    requires HeardIn(log, t, b, pos) && pos < |log| && log[pos] == Data(m) && m.origin != b
    ensures HeardIn(log, t + [Dispatched(b, m, pos)], b, pos + 1)
  {
    var t' := t + [Dispatched(b, m, pos)];
    forall i | 0 <= i < |t| ensures t'[i] == t[i] {
    }
  }

  lemma HearHeard(s: State, step: Step, b: nat)
    requires Enabled(s, step) && step.Hear? && b < |s.nodes| && Heard(s, b)
    ensures b < |Apply(s, step).nodes| && Heard(Apply(s, step), b)
  {
    var s', v, pos := Apply(s, step), s.nodes[step.n], s.nodes[step.n].pos;
    var r := HearReaction(v, step.n, s.log[pos], step.fetched);
    var more := ReactionEvents(step.n, r, pos);
    assert s'.log == s.log + [] == s.log && s'.trace == s.trace + more;
    if step.n == b && r.Handle? {
      HeardOne(s.log, s.trace, r.msg, b, pos);
    } else {
      HeardGrows(s.log, [], s.trace, more, b, s.nodes[b].pos, s'.nodes[b].pos);
    }
  }

  lemma StepHeard(s: State, step: Step, b: nat)
    requires Enabled(s, step) && b < |s.nodes| && Heard(s, b)
    ensures b < |Apply(s, step).nodes| && Heard(Apply(s, step), b)
  {
    if step.Hear? {
      HearHeard(s, step, b);
    } else {
      var s' := Apply(s, step);
      var es, more := s'.log[|s.log|..], s'.trace[|s.trace|..];
      assert s'.log == s.log + es && s'.trace == s.trace + more;
      assert forall e :: e in more ==> !HeardAt(e, b);
      HeardGrows(s.log, es, s.trace, more, b, s.nodes[b].pos, s'.nodes[b].pos);
    }
  }

  lemma {:induction false} RunHeard(s: State, run: seq<Step>, b: nat)
    requires ValidRun(s, run) && b < |s.nodes| && Heard(s, b)
    ensures b < |Exec(s, run).nodes| && Heard(Exec(s, run), b)
    decreases |run|
  {
    if run != [] {
      StepHeard(s, run[0], b);
      RunHeard(Apply(s, run[0]), run[1..], b);
    }
  }

  /** Whatever node `b` dispatches of another node's messages comes in that node's publish order,
      and `b` never dispatches its own. Strictly, so each message at most once, when no failed
      attempt had committed. */
  lemma DeliveryKeepsPublishOrder(n: nat, run: seq<Step>, b: nat, i: nat, j: nat)
    requires ValidRun(Init(n), run) && b < n
    requires var t := Exec(Init(n), run).trace;
      i < j < |t| && HeardAt(t[i], b) && HeardAt(t[j], b)
    ensures var t := Exec(Init(n), run).trace;
      && t[i].msg.origin != b && t[j].msg.origin != b
      && (t[i].msg.origin == t[j].msg.origin < n ==> Precedes(t[i].msg, t[j].msg, CleanRun(run)))
  {
    RunHeard(Init(n), run, b);
    RunOrdered(Init(n), run, CleanRun(run));
    DeliveredInOrder(Exec(Init(n), run), b, i, j, CleanRun(run));
  }

  lemma DeliveredInOrder(s: State, b: nat, i: nat, j: nat, clean: bool)
    requires b < |s.nodes| && Heard(s, b) && forall a :: 0 <= a < |s.nodes| ==> Ordered(s, a, clean)
    requires i < j < |s.trace| && HeardAt(s.trace[i], b) && HeardAt(s.trace[j], b)
    ensures var x, y := s.trace[i].msg, s.trace[j].msg;
      && x.origin != b && y.origin != b && (x.origin == y.origin < |s.nodes| ==> Precedes(x, y, clean))
  {
    var x, y := s.trace[i], s.trace[j];
    HeardPair(s.log, s.trace, b, s.nodes[b].pos, i, j);
    if x.msg.origin == y.msg.origin < |s.nodes| {
      assert Ordered(s, x.msg.origin, clean);
      LogPair(s.log, x.msg.origin, clean, x.at, y.at);
    }
  }

  lemma HeardPair(log: seq<Entry>, t: seq<Event>, b: nat, pos: nat, i: nat, j: nat)
    requires HeardIn(log, t, b, pos) && i < j < |t| && HeardAt(t[i], b) && HeardAt(t[j], b)
    ensures t[i].at < t[j].at < |log| && t[i].msg.origin != b && t[j].msg.origin != b
    ensures log[t[i].at] == Data(t[i].msg) && log[t[j].at] == Data(t[j].msg)
  {
  }

  lemma LogPair(log: seq<Entry>, a: nat, clean: bool, p: nat, q: nat)
    requires LogOrdered(log, a, clean) && p < q < |log| && From(log[p], a) && From(log[q], a)
    ensures Precedes(log[p].msg, log[q].msg, clean)
  {
  }

  /** Numbers are publish order: later publishes of a node have larger ones. */
  lemma NumbersArePublishOrder(n: nat, run: seq<Step>, i: nat, j: nat)
    requires ValidRun(Init(n), run)
    requires var t := Exec(Init(n), run).trace;
      i < j < |t| && t[i].Published? && t[j].Published? && t[i].msg.origin == t[j].msg.origin < n
    ensures var t := Exec(Init(n), run).trace; t[i].msg.number < t[j].msg.number
  {
    RunOrdered(Init(n), run, false);
    var s := Exec(Init(n), run);
    assert Ordered(s, s.trace[i].msg.origin, false);
    assert PublishedBy(s.trace[i], s.trace[i].msg.origin) && PublishedBy(s.trace[j], s.trace[i].msg.origin);
  }

  // ---- at most `SEND_ATTEMPTS` copies -----------------------------------------------------------

  ghost function Copies(log: seq<Entry>, m: Message): nat {
    if log == [] then 0
    else Copies(log[..|log| - 1], m) + if log[|log| - 1] == Data(m) then 1 else 0
  }

  ghost function Hearings(t: seq<Event>, b: nat, m: Message): nat {
    if t == [] then 0
    else Hearings(t[..|t| - 1], b, m) + if HeardAt(t[|t| - 1], b) && t[|t| - 1].msg == m then 1 else 0
  }

  lemma CopiesSnoc(log: seq<Entry>, e: Entry, m: Message)
    ensures Copies(log + [e], m) == Copies(log, m) + if e == Data(m) then 1 else 0
  {
    assert (log + [e])[..|log|] == log;
  }

  lemma HearingsSnoc(t: seq<Event>, e: Event, b: nat, m: Message)
    ensures Hearings(t + [e], b, m) == Hearings(t, b, m) + if HeardAt(e, b) && e.msg == m then 1 else 0
  {
    assert (t + [e])[..|t|] == t;
  }

  lemma {:induction false} CopiesMonotone(log: seq<Entry>, p: nat, q: nat, m: Message)
    requires p <= q <= |log|
    ensures Copies(log[..p], m) <= Copies(log[..q], m)
    decreases q
  {
    if p < q {
      CopiesMonotone(log, p, q - 1, m);
      assert log[..q][..q - 1] == log[..q - 1];
    }
  }

  lemma {:induction false} NoCopies(log: seq<Entry>, m: Message)
    requires forall p :: 0 <= p < |log| ==> log[p] != Data(m)
    ensures Copies(log, m) == 0
  {
    if log != [] {
      NoCopies(log[..|log| - 1], m);
    }
  }

  ghost predicate CopiesIn(log: seq<Entry>, sender: Sender, m: Message) {
    && Copies(log, m) <= SEND_ATTEMPTS
    && (sender.Sending? ==> sender.attempt < SEND_ATTEMPTS)
    && (sender.Sending? && sender.held == m ==> Copies(log, m) <= sender.attempt)
  }

  /** While a message is being sent there are no more copies of it than attempts made. */
  ghost predicate CopiesBounded(s: State, m: Message)
    requires m.origin < |s.nodes|
  {
    CopiesIn(s.log, s.nodes[m.origin].sender, m)
  }

  lemma EntriesCopies(log: seq<Entry>, v: Node, a: nat, o: Outcome, m: Message)
    requires CanAttempt(v)
    ensures Copies(log + AttemptEntries(v, a, o), m) ==
      Copies(log, m) + if !o.Failed? && v.sender.Sending? && v.sender.held == m then 1 else 0
  {
    if o.Failed? {
      assert log + [] == log;
    } else {
      CopiesSnoc(log, AttemptEntries(v, a, o)[0], m);
    }
  }

  lemma OwnAttemptCopies(log: seq<Entry>, v: Node, a: nat, o: Outcome, m: Message)
    requires CanAttempt(v) && CopiesIn(log, v.sender, m)
    requires v.sender.Resyncing? && v.sender.held == m ==> Copies(log, m) == 0
    ensures CopiesIn(log + AttemptEntries(v, a, o), AttemptStep(v, o).sender, m)
  {
    EntriesCopies(log, v, a, o, m);
  }

  lemma AttemptCopies(s: State, step: Step, m: Message)
    requires Enabled(s, step) && step.Attempt? && m.origin < |s.nodes| && CopiesBounded(s, m)
    requires Ordered(s, step.n, false)
    ensures CopiesBounded(Apply(s, step), m)
  {
    var v := s.nodes[step.n];
    if step.n == m.origin {
      if v.sender.Resyncing? && v.sender.held == m {
        NothingOfHeld(s, step.n);
        NoCopies(s.log, m);
      }
      OwnAttemptCopies(s.log, v, step.n, step.outcome, m);
    } else {
      assert v.sender.held == Pending(v)[0];
      EntriesCopies(s.log, v, step.n, step.outcome, m);
    }
  }

  lemma StepCopies(s: State, step: Step, m: Message)
    requires Enabled(s, step) && m.origin < |s.nodes| && CopiesBounded(s, m)
    requires forall a :: 0 <= a < |s.nodes| ==> Ordered(s, a, false)
    ensures CopiesBounded(Apply(s, step), m)
  {
    assert Ordered(s, step.n, false);
    if step.Attempt? {
      AttemptCopies(s, step, m);
    } else {
      var v := s.nodes[step.n];
      if step.SendProbe? {
        CopiesSnoc(s.log, Probe(step.n, s.nonce), m);
      } else {
        assert s.log + [] == s.log;
      }
      if !v.sender.Idle? && !InNotify(v) && v.sender.held == m {
        NothingOfHeld(s, step.n);
        NoCopies(s.log, m);
      }
    }
  }

  /** Before its first attempt a message is not in the log. */
  lemma NothingOfHeld(s: State, a: nat)
    requires a < |s.nodes| && Ordered(s, a, false)
    requires !s.nodes[a].sender.Idle? && !InNotify(s.nodes[a])
    ensures forall p :: 0 <= p < |s.log| ==> s.log[p] != Data(s.nodes[a].sender.held)
  {
    var held := Pending(s.nodes[a])[0];
    forall p | 0 <= p < |s.log| ensures s.log[p] != Data(held) {
      assert From(s.log[p], a) ==> Precedes(s.log[p].msg, held, true);
    }
  }

  /** What `b` has heard of a message is bounded by the copies in the part of the log it heard. */
  ghost predicate HearingsBounded(s: State, b: nat, m: Message)
    requires b < |s.nodes|
  {
    s.nodes[b].pos <= |s.log| && Hearings(s.trace, b, m) <= Copies(s.log[..s.nodes[b].pos], m)
  }

  lemma HeardOnce(log: seq<Entry>, pos: nat, m: Message)
    requires pos < |log|
    ensures Copies(log[..pos + 1], m) == Copies(log[..pos], m) + if log[pos] == Data(m) then 1 else 0
  {
    assert log[..pos + 1] == log[..pos] + [log[pos]];
    CopiesSnoc(log[..pos], log[pos], m);
  }

  lemma ReactionHearings(t: seq<Event>, n: nat, r: Reaction, at: nat, b: nat, m: Message)
    ensures Hearings(t + ReactionEvents(n, r, at), b, m) ==
      Hearings(t, b, m) + if n == b && r == Handle(m) then 1 else 0
  {
    if r.Ignore? {
      assert t + [] == t;
    } else {
      var e := ReactionEvents(n, r, at)[0];
      assert ReactionEvents(n, r, at) == [e];
      HearingsSnoc(t, e, b, m);
    }
  }

  lemma ReactionTo(v: Node, id: nat, e: Entry, fetched: bool, m: Message)
    requires v.listener.Session?
    ensures var r := HearReaction(v, id, e, fetched); r == Handle(m) ==> e == Data(m)
  {
  }

  lemma HearHearings(s: State, step: Step, b: nat, m: Message)
    requires Enabled(s, step) && step.Hear? && b < |s.nodes| && HearingsBounded(s, b, m)
    ensures HearingsBounded(Apply(s, step), b, m)
  {
    var v := s.nodes[step.n];
    ReactionHearings(s.trace, step.n, HearReaction(v, step.n, s.log[v.pos], step.fetched), v.pos, b, m);
    ReactionTo(v, step.n, s.log[v.pos], step.fetched, m);
    HeardOnce(s.log, v.pos, m);
    assert Apply(s, step).log == s.log;
  }

  lemma PublishHearings(t: seq<Event>, p: Message, swallowed: bool, b: nat, m: Message)
    ensures Hearings(t + ([Published(p)] + if swallowed then [Swallowed(p)] else []), b, m) == Hearings(t, b, m)
  {
    HearingsSnoc(t, Published(p), b, m);
    HearingsSnoc(t + [Published(p)], Swallowed(p), b, m);
    assert t + [Published(p)] + [Swallowed(p)] == t + ([Published(p)] + [Swallowed(p)]);
    assert t + ([Published(p)] + []) == t + [Published(p)];
  }

  lemma StepHearings(s: State, step: Step, b: nat, m: Message)
    requires Enabled(s, step) && b < |s.nodes| && HearingsBounded(s, b, m)
    ensures HearingsBounded(Apply(s, step), b, m)
  {
    var s' := Apply(s, step);
    var v, pos := s.nodes[step.n], s.nodes[b].pos;
    if step.Hear? {
      HearHearings(s, step, b, m);
    } else {
      assert s'.log[..pos] == s.log[..pos];
      if step.Publish? {
        PublishHearings(s.trace, Message(step.n, v.published, step.large),
                        |v.queue| >= SEND_BUFFER && v.sender.ResyncSent?, b, m);
      } else {
        assert s'.trace == s.trace;
      }
      if step.Listen? && step.n == b {
        assert s'.log == s.log && s.log[..|s.log|] == s.log;
        CopiesMonotone(s.log, pos, |s.log|, m);
      }
    }
  }

  lemma {:induction false} RunCopies(s: State, run: seq<Step>, b: nat, m: Message)
    requires ValidRun(s, run) && b < |s.nodes| && m.origin < |s.nodes|
    requires forall a :: 0 <= a < |s.nodes| ==> Ordered(s, a, false)
    requires CopiesBounded(s, m) && HearingsBounded(s, b, m)
    ensures var s' := Exec(s, run); |s'.nodes| == |s.nodes| && CopiesBounded(s', m) && HearingsBounded(s', b, m)
    decreases |run|
  {
    if run != [] {
      StepCopies(s, run[0], m);
      StepHearings(s, run[0], b, m);
      RunOrdered(s, run[..1], false);
      assert ValidRun(s, run[..1]) && Exec(s, run[..1]) == Apply(s, run[0]);
      RunCopies(Apply(s, run[0]), run[1..], b, m);
    }
  }

  /** However many of its attempts failed after committing, a message is dispatched at a node at
      most `SEND_ATTEMPTS` times. */
  lemma AtMostSendAttemptsCopies(n: nat, run: seq<Step>, b: nat, m: Message)
    requires ValidRun(Init(n), run) && b < n && m.origin < n
    ensures Hearings(Exec(Init(n), run).trace, b, m) <= SEND_ATTEMPTS
  {
    RunCopies(Init(n), run, b, m);
    var s := Exec(Init(n), run);
    CopiesMonotone(s.log, s.nodes[b].pos, |s.log|, m);
    assert s.log[..|s.log|] == s.log;
  }
}
