/**
 What the live-feed hub delivers over a run (backend/internal/handler/announce_sse.go): every browser
 gets the frames of its feed in the order they were broadcast, and all of them as long as it keeps up;
 and who leaves, leaves at once with its close due.
 */
module FeedDelivery {
  import opened FeedHub

  // ---- who leaves ---------------------------------------------------------------------------------

  /** Whom a step takes out of the map. */
  predicate Leaves(s: State, step: Step, id: ClientId) {
    id in s.profiles && Watches(s, id) &&
    ((step.Leave? && step.id == id) || (step.DisconnectUser? && s.profiles[id].user == step.user) || step.DisconnectAll?)
  }

  /** A handler on its way out takes its own client with it, a disconnect takes the user's, and a gap
      in the cluster's messages takes everyone; each has its close due, and nobody else is touched. */
  lemma LeavingIsExact(run: seq<Step>, step: Step, id: ClientId)
    requires ValidRun(Init, run) && Enabled(Exec(Init, run), step)
    requires step.Leave? || step.DisconnectUser? || step.DisconnectAll?
    ensures var s := Exec(Init, run);
      var t := Apply(s, step);
      && (Watches(t, id) <==> Watches(s, id) && !Leaves(s, step, id))
      && t.doomed[id] == s.doomed[id] + (if Leaves(s, step, id) then 1 else 0)
      && t.closes == s.closes && t.profiles == s.profiles && t.buffers == s.buffers && t.queue == s.queue
  {
    ReachableIsSafe(run);
    var s := Exec(Init, run);
    match step {
      case Leave(i) => TakenWatches(s, if Watches(s, i) then {i} else {});
      case DisconnectUser(user) => TakenWatches(s, Streams(s, user));
      case DisconnectAll => TakenWatches(s, Everyone(s));
      case _ =>
    }
  }

  lemma ReachableIsSafe(run: seq<Step>)
    requires ValidRun(Init, run)
    ensures Safe(Exec(Init, run))
  {
    assert forall user :: Streams(Init, user) == {};
    RunSafe(Init, run);
  }

  /** Whoever watches can be sent to: its channel has not been closed. */
  lemma WatchersAreOpen(run: seq<Step>, id: ClientId)
    requires ValidRun(Init, run) && Watches(Exec(Init, run), id)
    ensures id !in Exec(Init, run).closes && id !in Exec(Init, run).doomed
  {
    ReachableIsSafe(run);
    assert Fate(Exec(Init, run), id) == 1;
  }

  /** A close that is due can always be made, and then has been. */
  lemma DueCloseHappens(s: State, id: ClientId)
    requires id in s.doomed
    ensures Enabled(s, Close(id))
    ensures var t := Apply(s, Close(id));
      t.doomed[id] == s.doomed[id] - 1 && t.closes[id] == s.closes[id] + 1 && t.clients == s.clients
  {
  }

  // ---- the hub's queue --------------------------------------------------------------------------------

  /** The frames that found room in the hub's buffer. */
  function Accepted(s: State, run: seq<Step>): seq<Frame>
    requires ValidRun(s, run)
    decreases |run|
  {
    if run == [] then []
    else
      (if run[0].Broadcast? && |s.queue| < HUB_BUFFER then [run[0].frame] else []) + Accepted(Apply(s, run[0]), run[1..])
  }

  /** The frames the fan-out took up. */
  function FannedOut(s: State, run: seq<Step>): seq<Frame>
    requires ValidRun(s, run)
    decreases |run|
  {
    if run == [] then []
    else (if run[0].Deliver? then [s.queue[0]] else []) + FannedOut(Apply(s, run[0]), run[1..])
  }

  lemma QueueStep(s: State, step: Step)
    requires Enabled(s, step)
    ensures (if step.Deliver? then [s.queue[0]] else []) + Apply(s, step).queue ==
      s.queue + if step.Broadcast? && |s.queue| < HUB_BUFFER then [step.frame] else []
  {
    assert s.queue + [] == s.queue && [] + s.queue == s.queue;
  }

  /** First in, first out, and nothing that was taken in is lost. */
  lemma {:induction false} BroadcastOrderKept(s: State, run: seq<Step>)
    requires ValidRun(s, run)
    ensures FannedOut(s, run) + Exec(s, run).queue == s.queue + Accepted(s, run)
    decreases |run|
  {
    if run == [] {
      assert [] + s.queue == s.queue + [];
    } else {
      var t, rest := Apply(s, run[0]), run[1..];
      QueueStep(s, run[0]);
      BroadcastOrderKept(t, rest);
      var out := if run[0].Deliver? then [s.queue[0]] else [];
      var taken := if run[0].Broadcast? && |s.queue| < HUB_BUFFER then [run[0].frame] else [];
      Reassociate(out, FannedOut(t, rest), Exec(t, rest).queue, t.queue, Accepted(t, rest), s.queue, taken);
    }
  }

  lemma Reassociate(
    out: seq<Frame>, fanned: seq<Frame>, left: seq<Frame>, mid: seq<Frame>, more: seq<Frame>, first: seq<Frame>,
    taken: seq<Frame>)
    requires out + mid == first + taken && fanned + left == mid + more
    ensures (out + fanned) + left == first + (taken + more)
  {
    assert (out + fanned) + left == out + (fanned + left) == out + (mid + more) == (out + mid) + more;
    assert (first + taken) + more == first + (taken + more);
  }

  // ---- one browser's stream ----------------------------------------------------------------------------

  predicate GetsNext(s: State, step: Step, id: ClientId)
    requires Enabled(s, step)
  {
    && step.Deliver? && Watches(s, id) && s.queue[0].feed == s.profiles[id].feed
    && id in s.buffers && |s.buffers[id]| < CLIENT_BUFFER
  }

  /** The frames of its feed that were fanned out while it watched and had room. */
  function Got(s: State, run: seq<Step>, id: ClientId): seq<Frame>
    requires ValidRun(s, run)
    decreases |run|
  {
    if run == [] then []
    else (if GetsNext(s, run[0], id) then [s.queue[0]] else []) + Got(Apply(s, run[0]), run[1..], id)
  }

  /** The frames its handler wrote to it. */
  function Written(s: State, run: seq<Step>, id: ClientId): seq<Frame>
    requires ValidRun(s, run)
    decreases |run|
  {
    if run == [] then []
    else (if run[0] == Read(id) then [s.buffers[id][0]] else []) + Written(Apply(s, run[0]), run[1..], id)
  }

  lemma TargetsWatch(s: State, id: ClientId)
    requires Safe(s) && s.queue != []
    ensures id in Targets(s, s.queue[0].feed) <==> Watches(s, id) && s.profiles[id].feed == s.queue[0].feed
  {
  }

  lemma BufferStep(s: State, step: Step, id: ClientId)
    requires Safe(s) && Enabled(s, step) && id in s.buffers
    ensures id in Apply(s, step).buffers
    ensures (if step == Read(id) then [s.buffers[id][0]] else []) + Apply(s, step).buffers[id] ==
      s.buffers[id] + if GetsNext(s, step, id) then [s.queue[0]] else []
  {
    var b := s.buffers[id];
    assert b + [] == b && [] + b == b;
    assert b != [] ==> [b[0]] + b[1..] == b;
    if step.Deliver? {
      TargetsWatch(s, id);
    }
  }

  /** What is written to a browser, followed by what is still buffered for it, is what was buffered
      first, followed by exactly the frames of its feed that were fanned out while it watched and had
      room, in that order. */
  lemma {:induction false} StreamIsInOrder(s: State, run: seq<Step>, id: ClientId)
    requires Safe(s) && ValidRun(s, run) && id in s.buffers
    ensures id in Exec(s, run).buffers
    ensures Written(s, run, id) + Exec(s, run).buffers[id] == s.buffers[id] + Got(s, run, id)
    decreases |run|
  {
    if run == [] {
      assert [] + s.buffers[id] == s.buffers[id] + [];
    } else {
      var t, rest := Apply(s, run[0]), run[1..];
      StepSafe(s, run[0]);
      BufferStep(s, run[0], id);
      StreamIsInOrder(t, rest, id);
      var out := if run[0] == Read(id) then [s.buffers[id][0]] else [];
      var taken := if GetsNext(s, run[0], id) then [s.queue[0]] else [];
      Reassociate(out, Written(t, rest, id), Exec(t, rest).buffers[id], t.buffers[id], Got(t, rest, id), s.buffers[id], taken);
    }
  }

  function OfFeed(frames: seq<Frame>, feed: string): seq<Frame> {
    if frames == [] then [] else (if frames[0].feed == feed then [frames[0]] else []) + OfFeed(frames[1..], feed)
  }

  /** Whenever a frame of its feed goes out it is watching and has room. */
  predicate KeepsUp(s: State, run: seq<Step>, id: ClientId, feed: string)
    requires ValidRun(s, run)
    decreases |run|
  {
    run == [] ||
    ((run[0].Deliver? && s.queue[0].feed == feed ==> GetsNext(s, run[0], id)) &&
     KeepsUp(Apply(s, run[0]), run[1..], id, feed))
  }

  lemma ProfileStays(s: State, step: Step, id: ClientId)
    requires Enabled(s, step) && id in s.profiles
    ensures id in Apply(s, step).profiles && Apply(s, step).profiles[id] == s.profiles[id]
  {
  }

  lemma {:induction false} GotAll(s: State, run: seq<Step>, id: ClientId)
    requires Safe(s) && ValidRun(s, run) && id in s.profiles && KeepsUp(s, run, id, s.profiles[id].feed)
    ensures Got(s, run, id) == OfFeed(FannedOut(s, run), s.profiles[id].feed)
    decreases |run|
  {
    if run != [] {
      var t := Apply(s, run[0]);
      StepSafe(s, run[0]);
      ProfileStays(s, run[0], id);
      GotAll(t, run[1..], id);
      if run[0].Deliver? {
        assert ([s.queue[0]] + FannedOut(t, run[1..]))[1..] == FannedOut(t, run[1..]);
      } else {
        assert [] + FannedOut(t, run[1..]) == FannedOut(t, run[1..]);
      }
    }
  }

  /** A browser that keeps up gets every frame of its feed that goes out, in the order of the
      broadcasts. */
  lemma KeepingUpGetsAll(s: State, run: seq<Step>, id: ClientId)
    requires Safe(s) && ValidRun(s, run) && id in s.profiles && KeepsUp(s, run, id, s.profiles[id].feed)
    ensures id in s.buffers && id in Exec(s, run).buffers
    ensures Written(s, run, id) + Exec(s, run).buffers[id] ==
      s.buffers[id] + OfFeed(FannedOut(s, run), s.profiles[id].feed)
  {
    StreamIsInOrder(s, run, id);
    GotAll(s, run, id);
  }

  /** Who is admitted watches its feed with nothing buffered; who is not, is not known at all. */
  lemma ConnectingWatches(run: seq<Step>, id: ClientId, p: Profile)
    requires ValidRun(Init, run) && Enabled(Exec(Init, run), Connect(id, p))
    ensures var s := Exec(Init, run);
      var t := Apply(s, Connect(id, p));
      if |Streams(s, p.user)| < 5 then
        && Watches(t, id) && t.profiles == s.profiles[id := p] && t.buffers == s.buffers[id := []]
        && (forall j :: j != id ==> (Watches(t, j) <==> Watches(s, j)))
      else t == s
  {
    ReachableIsSafe(run);
    var s := Exec(Init, run);
    if |Streams(s, p.user)| < 5 {
      RegisterWatches(s, id, p);
    }
  }

  /** A send on a closed channel would show, so that none ever happens means something. */
  lemma CrashWouldShow(s: State)
    requires MapSound(s) && s.queue != []
    ensures Apply(s, Deliver).crashed <==>
      s.crashed || exists id :: Watches(s, id) && s.profiles[id].feed == s.queue[0].feed && id in s.closes
  {
    forall id ensures id in Targets(s, s.queue[0].feed) <==> Watches(s, id) && s.profiles[id].feed == s.queue[0].feed {
    }
    var targets := Targets(s, s.queue[0].feed);
    if id :| id in targets && id in s.closes {
      assert Watches(s, id);
    }
    if id :| Watches(s, id) && s.profiles[id].feed == s.queue[0].feed && id in s.closes {
      assert id in targets && id !in {};
    }
  }

  /** A turn finds slow exactly the watchers of the frame's feed whose buffer is full. */
  lemma SlowHaveNoRoom(s: State, id: ClientId)
    requires Safe(s) && s.queue != []
    ensures id in SlowOnes(s) <==>
      Watches(s, id) && s.profiles[id].feed == s.queue[0].feed && |s.buffers[id]| >= 16
  {
    TargetsWatch(s, id);
  }

  /** Nothing has to wait for a browser: a client can leave, a user or everyone be disconnected and a
      frame be broadcast at any time, and what is queued can always be fanned out. */
  lemma NothingBlocks(s: State, id: ClientId, user: nat, frame: Frame)
    ensures Enabled(s, Leave(id)) && Enabled(s, DisconnectUser(user)) && Enabled(s, DisconnectAll)
    ensures Enabled(s, Broadcast(frame)) && (Enabled(s, Deliver) <==> s.queue != [])
    ensures |s.queue| < 256 ==> Apply(s, Broadcast(frame)).queue == s.queue + [frame]
    ensures |s.queue| >= 256 ==> Apply(s, Broadcast(frame)) == s
    ensures id in s.buffers ==> (Enabled(s, Read(id)) <==> s.buffers[id] != [])
  {
  }
}
