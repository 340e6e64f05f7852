/**
 The cluster broadcast bus: what one node does with its send queue, its `lost` flag and
 its listening session (backend/internal/cluster/cluster.go).

 The functions of this module describe one node's atomic actions on values; the class
 `Bus` performs the same actions in place and is proved against them. How the actions of
 several nodes interleave over one notify log is the subject of module `ClusterRuns`.
 */
module ClusterBus {
  import opened Wrappers

  const SEND_BUFFER := 1024
  const SEND_ATTEMPTS := 3

  /** One `Publish` call: the publishing node, its running number there, and whether the
      envelope is over `maxInlineBytes`, so that the notification only carries a reference. */
  datatype Message = Message(origin: nat, number: nat, large: bool)

  /** What is NOTIFYed on the one shared channel. */
  datatype Entry = Data(msg: Message) | Resync(origin: nat) | Probe(origin: nat, nonce: nat)

  /** Where the sender goroutine is in its loop body, with the message it holds. */
  datatype Sender =
    | Idle
    | Taken(held: Message)                     // received from the channel, `lost` not read yet
    | Resyncing(held: Message, attempt: nat)   // in notifyWithRetry for the resync request
    | ResyncSent(held: Message)                // resync went out, `lost` not cleared yet
    | Sending(held: Message, attempt: nat)     // in notifyWithRetry for the message itself
    | GaveUp(held: Message)                    // every attempt failed, `lost` not set yet

  /** The LISTEN session. `hears` is the environment's: a session cut off without a reset, or
      one behind a transaction-mode pooler, delivers nothing and says nothing. */
  datatype Listener = Down | Session(hears: bool, since: nat, pending: Option<nat>, live: bool)

  /** `pos` is the log position up to which this node's sessions have delivered. */
  datatype Node = Node(
    published: nat, queue: seq<Message>, lost: bool, sender: Sender,
    listener: Listener, pos: nat, stopped: bool)

  /** What one pg_notify attempt did: a reported failure may still have committed. */
  datatype Outcome = Sent | Failed | FailedButCommitted

  function NewNode(): Node {
    Node(0, [], false, Idle, Down, 0, false)
  }

  // ---- the publishing side ----------------------------------------------------

  /** `Publish`: a non-blocking channel send, and `lost` when the buffer is full. */
  function PublishStep(v: Node, m: Message): Node {
    if |v.queue| < SEND_BUFFER
    then v.(published := v.published + 1, queue := v.queue + [m])
    else v.(published := v.published + 1, lost := true)
  }

  predicate CanTake(v: Node) {
    v.sender.Idle? && |v.queue| > 0
  }

  function TakeStep(v: Node): Node
    requires CanTake(v)
  {
    v.(sender := Taken(v.queue[0]), queue := v.queue[1..])
  }

  /** `if b.lost.Load()`. */
  function LoadStep(v: Node): Node
    requires v.sender.Taken?
  {
    v.(sender := if v.lost then Resyncing(v.sender.held, 0) else Sending(v.sender.held, 0))
  }

  predicate CanAttempt(v: Node) {
    v.sender.Resyncing? || v.sender.Sending?
  }

  /** What an attempt leaves in the log. */
  function AttemptEntries(v: Node, id: nat, o: Outcome): seq<Entry>
    requires CanAttempt(v)
  {
    if o.Failed? then [] else [if v.sender.Resyncing? then Resync(id) else Data(v.sender.held)]
  }

  /** One turn of the notifyWithRetry loop; the last failure gives the call up. */
  function AttemptStep(v: Node, o: Outcome): Node
    requires CanAttempt(v)
  {
    var held := v.sender.held;
    var again := v.sender.attempt + 1;
    if v.sender.Resyncing? then
      v.(sender := if o.Sent? then ResyncSent(held)
                   else if again < SEND_ATTEMPTS then Resyncing(held, again)
                   else Sending(held, 0))
    else
      v.(sender := if o.Sent? then Idle
                   else if again < SEND_ATTEMPTS then Sending(held, again)
                   else GaveUp(held))
  }

  predicate CanStore(v: Node) {
    v.sender.ResyncSent? || v.sender.GaveUp?
  }

  /** `lost.Store(false)` after a resync request, `lost.Store(true)` after giving up. */
  function StoreStep(v: Node): Node
    requires CanStore(v)
  {
    if v.sender.ResyncSent?
    then v.(lost := false, sender := Sending(v.sender.held, 0))
    else v.(lost := true, sender := Idle)
  }

  // ---- the listening side -----------------------------------------------------

  /** What hearing one notification does at a node. */
  datatype Reaction = Ignore | Handle(msg: Message) | LoseSpilled(msg: Message) | FireResync

  predicate Listening(v: Node) {
    v.listener.Session? && (v.listener.live || v.listener.pending.Some?)
  }

  /** The pending probe, compared by origin, topic and nonce. */
  predicate IsOwnProbe(v: Node, id: nat, e: Entry)
    requires v.listener.Session?
  {
    e.Probe? && e.origin == id && v.listener.pending == Some(e.nonce)
  }

  /** `dispatch`: own messages and probes are skipped, a resync request resyncs, and a
      spilled payload that cannot be fetched is dropped. */
  function Dispatch(id: nat, e: Entry, fetched: bool): Reaction {
    match e
    case Probe(_, _) => Ignore
    case Resync(origin) => if origin == id then Ignore else FireResync
    case Data(msg) =>
      if msg.origin == id then Ignore
      else if msg.large && !fetched then LoseSpilled(msg)
      else Handle(msg)
  }

  /** One notification in listenOnce: the probe first, everything else to dispatch. */
  function HearReaction(v: Node, id: nat, e: Entry, fetched: bool): Reaction
    requires v.listener.Session?
  {
    if IsOwnProbe(v, id, e) then (if v.listener.live then Ignore else FireResync)
    else Dispatch(id, e, fetched)
  }

  function HearStep(v: Node, id: nat, e: Entry): Node
    requires v.listener.Session?
  {
    if IsOwnProbe(v, id, e)
    then v.(pos := v.pos + 1, listener := v.listener.(pending := None, live := true))
    else v.(pos := v.pos + 1)
  }

  // ---- the sender's loop body, uninterrupted -----------------------------------

  /** The database's answer to an attempt; a missing one is a failure. */
  function OutcomeAt(outcomes: seq<Outcome>, attempt: nat): Outcome {
    if attempt < |outcomes| then outcomes[attempt] else Failed
  }

  /** notifyWithRetry from the sender's current attempt on: only `Sent` ends it early. */
  function RetryStep(v: Node, id: nat, outcomes: seq<Outcome>): (r: (Node, seq<Entry>))
    requires CanAttempt(v) && v.sender.attempt < SEND_ATTEMPTS
    ensures r.0 == v.(sender := r.0.sender)
    ensures r.0.sender == if v.sender.Resyncing?
      then (if r.0.sender.ResyncSent? then ResyncSent(v.sender.held) else Sending(v.sender.held, 0))
      else (if r.0.sender.Idle? then Idle else GaveUp(v.sender.held))
    decreases SEND_ATTEMPTS - v.sender.attempt
  {
    var o := OutcomeAt(outcomes, v.sender.attempt);
    var next := AttemptStep(v, o);
    var out := AttemptEntries(v, id, o);
    if o.Sent? || v.sender.attempt + 1 == SEND_ATTEMPTS then (next, out)
    else
      var rest := RetryStep(next, id, outcomes);
      (rest.0, out + rest.1)
  }

  /** One turn of the retry loop, with the log it appends to. */
  lemma RetryTurn(v: Node, id: nat, outcomes: seq<Outcome>, log: seq<Entry>)
    requires CanAttempt(v) && v.sender.attempt < SEND_ATTEMPTS
    ensures var o := OutcomeAt(outcomes, v.sender.attempt);
      var next, out := AttemptStep(v, o), AttemptEntries(v, id, o);
      if o.Sent? || v.sender.attempt + 1 == SEND_ATTEMPTS then RetryStep(v, id, outcomes) == (next, out)
      else
        && CanAttempt(next) && next.sender.attempt == v.sender.attempt + 1
        && RetryStep(v, id, outcomes).0 == RetryStep(next, id, outcomes).0
        && log + RetryStep(v, id, outcomes).1 == (log + out) + RetryStep(next, id, outcomes).1
  {
  }

  /** The attempt from this one on that is the first to be reported a success, and the limit if none of
      three is. */
  function FirstSent(outcomes: seq<Outcome>, from: nat): (k: nat)
    ensures from <= 3 ==> from <= k <= 3
    decreases 3 - from
  {
    if from >= 3 || (from < |outcomes| && outcomes[from].Sent?) then from else FirstSent(outcomes, from + 1)
  }

  /** How many attempts committed, from this one to the last that was made. */
  function Committed(outcomes: seq<Outcome>, from: nat, last: nat): nat
    decreases last + 1 - from
  {
    if from > last then 0
    else (if from < |outcomes| && !outcomes[from].Failed? then 1 else 0) + Committed(outcomes, from + 1, last)
  }

  /** A message is tried until an attempt is reported a success, three times at most, whatever earlier
      attempts did; it has gone out exactly if one of the three was, and is in the log once for every
      attempt that committed. */
  lemma {:induction false} RetryTriesThreeTimes(v: Node, id: nat, outcomes: seq<Outcome>)
    requires CanAttempt(v) && v.sender.attempt < 3
    ensures var k := FirstSent(outcomes, v.sender.attempt);
      var (w, entries) := RetryStep(v, id, outcomes);
      && (k < 3 <==> if v.sender.Resyncing? then w.sender.ResyncSent? else w.sender.Idle?)
      && |entries| == Committed(outcomes, v.sender.attempt, if k < 3 then k else 2)
      && forall e :: e in entries ==> e == if v.sender.Resyncing? then Resync(id) else Data(v.sender.held)
    decreases 3 - v.sender.attempt
  {
    var o := OutcomeAt(outcomes, v.sender.attempt);
    if !o.Sent? && v.sender.attempt < 2 {
      RetryTriesThreeTimes(AttemptStep(v, o), id, outcomes);
    }
    if o.Sent? || v.sender.attempt == 2 {
      assert Committed(outcomes, v.sender.attempt + 1, v.sender.attempt) == 0;
    }
  }

  /** The resync request, and `lost` cleared if it went out. */
  function AskStep(v: Node, id: nat, outcomes: seq<Outcome>): (r: (Node, seq<Entry>))
    requires v.sender.Resyncing? && v.sender.attempt == 0
    ensures r.0 == v.(sender := Sending(v.sender.held, 0), lost := r.0.lost)
  {
    var (w, out) := RetryStep(v, id, outcomes);
    (if w.sender.ResyncSent? then StoreStep(w) else w, out)
  }

  /** The message itself, and `lost` set if it could not be sent. */
  function DeliverStep(v: Node, id: nat, outcomes: seq<Outcome>): (r: (Node, seq<Entry>))
    requires v.sender.Sending? && v.sender.attempt == 0
    ensures r.0 == v.(sender := Idle, lost := r.0.lost)
  {
    var (w, out) := RetryStep(v, id, outcomes);
    (if w.sender.GaveUp? then StoreStep(w) else w, out)
  }

  /** Everything `send` does with one message when nothing else touches the node meanwhile. */
  function SendOneStep(v: Node, id: nat, resyncOutcomes: seq<Outcome>, outcomes: seq<Outcome>)
    : (r: (Node, seq<Entry>))
    requires CanTake(v)
  {
    var loaded := LoadStep(TakeStep(v));
    var (ready, asked) := if loaded.sender.Resyncing? then AskStep(loaded, id, resyncOutcomes) else (loaded, []);
    var (done, sent) := DeliverStep(ready, id, outcomes);
    (done, asked + sent)
  }

  /** The database's side of NOTIFY: committed notifications in commit order. */
  class NotifyLog {
    var entries: seq<Entry>

    constructor ()
      ensures entries == []
    {
      entries := [];
    }
  }

  /** What a node's subscribers and resync callbacks have been called with, in order. */
  datatype Call = Called(handler: nat, msg: Message) | Resynced(callback: nat)

  function ResyncCalls(callbacks: seq<nat>): (r: seq<Call>)
    ensures |r| == |callbacks| && forall i :: 0 <= i < |r| ==> r[i] == Resynced(callbacks[i])
  {
    if callbacks == [] then []
    else ResyncCalls(callbacks[..|callbacks| - 1]) + [Resynced(callbacks[|callbacks| - 1])]
  }

  function HandlerCalls(handlers: seq<nat>, m: Message): (r: seq<Call>)
    ensures |r| == |handlers| && forall i :: 0 <= i < |r| ==> r[i] == Called(handlers[i], m)
  {
    if handlers == [] then []
    else HandlerCalls(handlers[..|handlers| - 1], m) + [Called(handlers[|handlers| - 1], m)]
  }

  function CallsOf(r: Reaction, resync: seq<nat>, handlers: map<nat, seq<nat>>, topic: nat): seq<Call> {
    match r
    case Ignore => []
    case LoseSpilled(_) => []
    case FireResync => ResyncCalls(resync)
    case Handle(m) => if topic in handlers then HandlerCalls(handlers[topic], m) else []
  }

  /** One node's bus, updated in place as the source's Bus is. */
  class Bus {
    const node: nat
    const db: NotifyLog
    var published: nat
    var out: seq<Message>
    var lost: bool
    var handlers: map<nat, seq<nat>>      // topic to handlers
    var resync: seq<nat>
    var sender: Sender
    var listener: Listener
    var pos: nat
    var calls: seq<Call>

    ghost predicate Valid()
      reads this
    {
      |out| <= SEND_BUFFER
    }

    ghost function View(): Node
      reads this
    {
      Node(published, out, lost, sender, listener, pos, false)
    }

    constructor (node: nat, db: NotifyLog)
      ensures Valid() && View() == NewNode()
      ensures this.node == node && this.db == db && calls == [] && handlers == map[] && resync == []
    {
      this.node, this.db := node, db;
      published, out, lost := 0, [], false;
      handlers, resync, calls := map[], [], [];
      sender, listener, pos := Idle, Down, 0;
    }

    method Subscribe(topic: nat, h: nat)
      modifies this`handlers
      ensures handlers == old(handlers)[topic := (if topic in old(handlers) then old(handlers)[topic] else []) + [h]]
    {
      var before := if topic in handlers then handlers[topic] else [];
      handlers := handlers[topic := before + [h]];
    }

    method OnResync(f: nat)
      modifies this`resync
      ensures resync == old(resync) + [f]
    {
      resync := resync + [f];
    }

    /** Never blocks: a full buffer costs the message and sets `lost`. */
    method Publish(large: bool) returns (m: Message)
      requires Valid()
      modifies this`published, this`out, this`lost
      ensures Valid()
      ensures m == Message(node, old(published), large) && published == old(published) + 1
      ensures View() == PublishStep(old(View()), m)
      ensures m in out || lost
    {
      m := Message(node, published, large);
      published := published + 1;
      if |out| < SEND_BUFFER {
        out := out + [m];
      } else {
        lost := true;
      }
    }

    /** One `notify` call and what the retry loop makes of it. */
    method Notify(o: Outcome)
      requires CanAttempt(View())
      modifies this`sender, db
      ensures View() == AttemptStep(old(View()), o)
      ensures db.entries == old(db.entries) + AttemptEntries(old(View()), node, o)
    {
      if !o.Failed? {
        db.entries := db.entries + [if sender.Resyncing? then Resync(node) else Data(sender.held)];
      }
      var again := sender.attempt + 1;
      if sender.Resyncing? {
        sender := if o.Sent? then ResyncSent(sender.held)
                  else if again < SEND_ATTEMPTS then Resyncing(sender.held, again)
                  else Sending(sender.held, 0);
      } else {
        sender := if o.Sent? then Idle
                  else if again < SEND_ATTEMPTS then Sending(sender.held, again)
                  else GaveUp(sender.held);
      }
    }

    /** Tries up to `SEND_ATTEMPTS` times and reports whether an attempt succeeded. */
    method NotifyWithRetry(outcomes: seq<Outcome>) returns (ok: bool)
      requires CanAttempt(View()) && sender.attempt == 0
      modifies this`sender, db
      ensures View() == RetryStep(old(View()), node, outcomes).0
      ensures db.entries == old(db.entries) + RetryStep(old(View()), node, outcomes).1
      ensures ok <==> sender.ResyncSent? || sender.Idle?
    {
      ok := false;
      var attempt := 0;
      ghost var whole := RetryStep(View(), node, outcomes);
      ghost var log := db.entries;
      while attempt < SEND_ATTEMPTS && !ok
        invariant 0 <= attempt <= SEND_ATTEMPTS
        invariant ok || attempt == SEND_ATTEMPTS ==>
          View() == whole.0 && db.entries == log + whole.1
        invariant ok ==> sender.ResyncSent? || sender.Idle?
        invariant !ok && attempt == SEND_ATTEMPTS ==> !sender.ResyncSent? && !sender.Idle?
        invariant !ok && attempt < SEND_ATTEMPTS ==> CanAttempt(View()) && sender.attempt == attempt
        invariant !ok && attempt < SEND_ATTEMPTS ==>
          whole.0 == RetryStep(View(), node, outcomes).0 &&
          log + whole.1 == db.entries + RetryStep(View(), node, outcomes).1
      {
        var o := OutcomeAt(outcomes, attempt);
        RetryTurn(View(), node, outcomes, db.entries);
        Notify(o);
        ok := o.Sent?;
        attempt := attempt + 1;
      }
    }

    method AskResync(outcomes: seq<Outcome>)
      requires sender.Resyncing? && sender.attempt == 0
      modifies this`sender, this`lost, db
      ensures View() == AskStep(old(View()), node, outcomes).0
      ensures db.entries == old(db.entries) + AskStep(old(View()), node, outcomes).1
    {
      var msg := sender.held;
      var asked := NotifyWithRetry(outcomes);
      if asked {
        lost := false;
        sender := Sending(msg, 0);
      }
    }

    method Deliver(outcomes: seq<Outcome>)
      requires sender.Sending? && sender.attempt == 0
      modifies this`sender, this`lost, db
      ensures View() == DeliverStep(old(View()), node, outcomes).0
      ensures db.entries == old(db.entries) + DeliverStep(old(View()), node, outcomes).1
    {
      var went := NotifyWithRetry(outcomes);
      if !went {
        lost := true;
        sender := Idle;
      }
    }

    /** The body of the send loop for one message. */
    method SendOne(resyncOutcomes: seq<Outcome>, outcomes: seq<Outcome>)
      requires Valid() && CanTake(View())
      modifies this`out, this`sender, this`lost, db
      ensures Valid()
      ensures View() == SendOneStep(old(View()), node, resyncOutcomes, outcomes).0
      ensures db.entries == old(db.entries) + SendOneStep(old(View()), node, resyncOutcomes, outcomes).1
    {
      var msg := out[0];
      out := out[1..];
      if lost {
        sender := Resyncing(msg, 0);
        AskResync(resyncOutcomes);
      } else {
        sender := Sending(msg, 0);
      }
      Deliver(outcomes);
    }

    /** Runs every resync callback, in the order they were registered. */
    method FireResyncCallbacks()
      modifies this`calls
      ensures calls == old(calls) + ResyncCalls(resync)
      ensures old(calls) <= calls && |calls| == |old(calls)| + |resync|
      ensures forall i :: 0 <= i < |resync| ==> calls[|old(calls)| + i] == Resynced(resync[i])
    {
      for i := 0 to |resync|
        modifies this`calls
        invariant calls == old(calls) + ResyncCalls(resync[..i])
      {
        calls := calls + [Resynced(resync[i])];
        assert resync[..i + 1] == resync[..i] + [resync[i]];
      }
      assert resync[..|resync|] == resync;
    }

    /** Calls every handler of a topic, in the order they subscribed; a topic without any is no error. */
    method CallHandlers(topic: nat, m: Message)
      modifies this`calls
      ensures calls == old(calls) + if topic in handlers then HandlerCalls(handlers[topic], m) else []
    {
      if topic in handlers {
        var hs := handlers[topic];
        for i := 0 to |hs|
          modifies this`calls
          invariant calls == old(calls) + HandlerCalls(hs[..i], m)
        {
          calls := calls + [Called(hs[i], m)];
          assert hs[..i + 1] == hs[..i] + [hs[i]];
        }
        assert hs[..|hs|] == hs;
      }
    }

    /** What a notification that is no answer to the node's own probe does. */
    method DispatchEntry(e: Entry, fetched: bool, topic: nat)
      modifies this`calls
      ensures calls == old(calls) + CallsOf(Dispatch(node, e, fetched), resync, handlers, topic)
    {
      match e {
        case Probe(_, _) =>
        case Resync(origin) =>
          if origin != node {
            FireResyncCallbacks();
          }
        case Data(m) =>
          if m.origin == node || topic !in handlers || (m.large && !fetched) {
            return;
          }
          CallHandlers(topic, m);
      }
    }

    /** One notification in the listen loop; `fetched` says whether a spilled payload was
        still there, `topic` where the message belongs. */
    method Hear(e: Entry, fetched: bool, topic: nat)
      requires Valid() && Listening(View())
      modifies this`pos, this`listener, this`calls
      ensures Valid() && View() == HearStep(old(View()), node, e)
      ensures calls == old(calls) + CallsOf(HearReaction(old(View()), node, e, fetched), resync, handlers, topic)
    {
      pos := pos + 1;
      if listener.pending.Some? && e.Probe? && e.origin == node && listener.pending.value == e.nonce {
        var wasLive := listener.live;
        listener := listener.(pending := None, live := true);
        if !wasLive {
          FireResyncCallbacks();
        }
        return;
      }
      DispatchEntry(e, fetched, topic);
    }
  }

  /** A node's session goes live with the first answer to its pending probe, and that alone. */
  lemma GoesLive(v: Node, id: nat, e: Entry)
    requires v.listener.Session?
    ensures var w := HearStep(v, id, e);
      && w == v.(pos := v.pos + 1, listener := w.listener) && w.listener.Session?
      && (if e.Probe? && e.origin == id && v.listener.pending == Some(e.nonce)
          then w.listener == v.listener.(pending := None, live := true)
          else w.listener == v.listener)
  {
  }

  /** What is called on hearing a notification, by its place among the calls: every resync callback
      when the session goes live and when another node asks for a resync, every handler of the topic
      for another node's message whose payload is there, and nothing otherwise. */
  lemma CallsByPlace(
    v: Node, id: nat, e: Entry, fetched: bool, resync: seq<nat>, handlers: map<nat, seq<nat>>, topic: nat)
    requires v.listener.Session?
    ensures var calls := CallsOf(HearReaction(v, id, e, fetched), resync, handlers, topic);
      var answer := e.Probe? && e.origin == id && v.listener.pending == Some(e.nonce);
      var resyncs := (answer && !v.listener.live) || (e.Resync? && e.origin != id);
      var handles := e.Data? && e.msg.origin != id && (e.msg.large ==> fetched) && topic in handlers;
      if resyncs then |calls| == |resync| && forall i :: 0 <= i < |calls| ==> calls[i] == Resynced(resync[i])
      else if handles then
        |calls| == |handlers[topic]| && forall i :: 0 <= i < |calls| ==> calls[i] == Called(handlers[topic][i], e.msg)
      else calls == []
  {
  }
}
