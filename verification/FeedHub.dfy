/**
 The live-feed hub: which browsers watch which feed, what is queued for them, and when they are
 closed (backend/internal/handler/announce_sse.go).

 Every lock section of the hub is one step here, and so is every close, since closes happen
 outside the lock and, after a cluster gap, up to seconds later. Steps of handlers, of the
 fan-out loop and of disconnects interleave in any order.
 */
module FeedHub {

  const MAX_PER_USER := 5
  const CLIENT_BUFFER := 16
  const HUB_BUFFER := 256

  type ClientId = nat

  /** Fixed for the life of a connection. */
  datatype Profile = Profile(user: nat, feed: string)

  datatype Frame = Frame(feed: string, content: nat)

  /** `clients` is the hub's map; `doomed` counts the calls to close that are still to come for
      clients taken out of it, `closes` those that have run. `crashed` records a send on a closed
      channel, which would panic. */
  datatype State = State(
    profiles: map<ClientId, Profile>, clients: map<string, set<ClientId>>, queue: seq<Frame>,
    buffers: map<ClientId, seq<Frame>>, doomed: multiset<ClientId>, closes: multiset<ClientId>,
    crashed: bool)

  const Init := State(map[], map[], [], map[], multiset{}, multiset{}, false)

  predicate Watches(s: State, id: ClientId) {
    id in s.profiles && s.profiles[id].feed in s.clients && id in s.clients[s.profiles[id].feed]
  }

  /** The streams of one user, across every feed. */
  function Streams(s: State, user: nat): set<ClientId> {
    set id | id in s.profiles && Watches(s, id) && s.profiles[id].user == user
  }

  function Everyone(s: State): set<ClientId> {
    set id | id in s.profiles && Watches(s, id)
  }

  // ---- the lock sections -------------------------------------------------------------------

  /** tryRegister: the count and the insert under one lock. */
  function Register(s: State, id: ClientId, p: Profile): State
    requires id !in s.profiles
  {
    if |Streams(s, p.user)| >= MAX_PER_USER then s else Admit(s, id, p)
  }

  function Admit(s: State, id: ClientId, p: Profile): State {
    s.(profiles := s.profiles[id := p],
       clients := s.clients[p.feed := (if p.feed in s.clients then s.clients[p.feed] else {}) + {id}],
       buffers := s.buffers[id := []])
  }

  function Taken(clients: map<string, set<ClientId>>, ids: set<ClientId>): map<string, set<ClientId>> {
    map f | f in clients && clients[f] - ids != {} :: clients[f] - ids
  }

  /** Takes clients out of the map, feeds left empty with them; their closes are then due. */
  function TakeOut(s: State, ids: set<ClientId>): State
    requires forall id :: id in ids ==> Watches(s, id)
  {
    s.(clients := Taken(s.clients, ids), doomed := s.doomed + multiset(ids))
  }

  /** remove, by a handler on its way out or by the fan-out loop for a slow client. */
  function Remove(s: State, id: ClientId): State {
    TakeOut(s, if Watches(s, id) then {id} else {})
  }

  function Targets(s: State, feed: string): set<ClientId> {
    if feed in s.clients then s.clients[feed] else {}
  }

  predicate HasRoom(s: State, id: ClientId) {
    id in s.buffers && |s.buffers[id]| < CLIENT_BUFFER
  }

  predicate AnyClosed(closes: multiset<ClientId>, targets: set<ClientId>, todo: set<ClientId>) {
    exists id :: id in targets && id !in todo && id in closes
  }

  /** One turn of Run under the read lock. Clients without room are left out; they are removed
      afterwards, each in a lock section of its own. */
  function FanOut(s: State): State
    requires s.queue != []
  {
    var frame := s.queue[0];
    var targets := Targets(s, frame.feed);
    s.(queue := s.queue[1..],
       buffers := map id | id in s.buffers ::
         if id in targets && HasRoom(s, id) then s.buffers[id] + [frame] else s.buffers[id],
       crashed := s.crashed || AnyClosed(s.closes, targets, {}))
  }

  datatype Step =
    | Connect(id: ClientId, profile: Profile)
    | Leave(id: ClientId)
    | DisconnectUser(user: nat)
    | DisconnectAll
    | Broadcast(frame: Frame)
    | Deliver
    | Read(id: ClientId)
    | Close(id: ClientId)

  predicate Enabled(s: State, step: Step) {
    match step
    case Connect(id, _) => id !in s.profiles
    case Leave(_) => true
    case DisconnectUser(_) => true
    case DisconnectAll => true
    case Broadcast(_) => true
    case Deliver => s.queue != []
    case Read(id) => id in s.buffers && s.buffers[id] != []
    case Close(id) => id in s.doomed
  }

  function Apply(s: State, step: Step): State
    requires Enabled(s, step)
  {
    match step
    case Connect(id, p) => Register(s, id, p)
    case Leave(id) => Remove(s, id)
    case DisconnectUser(user) => TakeOut(s, Streams(s, user))
    case DisconnectAll => TakeOut(s, Everyone(s))
    case Broadcast(frame) => if |s.queue| < HUB_BUFFER then s.(queue := s.queue + [frame]) else s
    case Deliver => FanOut(s)
    case Read(id) => s.(buffers := s.buffers[id := s.buffers[id][1..]])
    case Close(id) => s.(doomed := s.doomed - multiset{id}, closes := s.closes + multiset{id})
  }

  predicate ValidRun(s: State, run: seq<Step>)
    decreases |run|
  {
    run == [] || (Enabled(s, run[0]) && ValidRun(Apply(s, run[0]), run[1..]))
  }

  function Exec(s: State, run: seq<Step>): State
    requires ValidRun(s, run)
    decreases |run|
  {
    if run == [] then s else Exec(Apply(s, run[0]), run[1..])
  }

  // ---- safety in every reachable state ---------------------------------------------------------

  /** The map holds registered clients under their own feed, and no feed without one. */
  ghost predicate MapSound(s: State) {
    && (forall f, id :: f in s.clients && id in s.clients[f] ==> id in s.profiles && s.profiles[id].feed == f)
    && (forall f :: f in s.clients ==> s.clients[f] != {})
  }

  /** Watching, awaiting its close, closed: a registered client is in exactly one of these states,
      and close is called for it once. */
  function Fate(s: State, id: ClientId): nat {
    (if Watches(s, id) then 1 else 0) + s.doomed[id] + s.closes[id]
  }

  ghost predicate FateSealed(s: State) {
    forall id :: Fate(s, id) == if id in s.profiles then 1 else 0
  }

  ghost predicate CapKept(s: State) {
    forall user :: |Streams(s, user)| <= MAX_PER_USER
  }

  /** A buffer holds only frames of its client's own feed, and never more than its capacity. */
  ghost predicate BuffersSound(s: State) {
    && s.buffers.Keys == s.profiles.Keys
    && (forall id :: id in s.buffers ==> |s.buffers[id]| <= CLIENT_BUFFER)
    && (forall id, frame :: id in s.buffers && frame in s.buffers[id] ==> frame.feed == s.profiles[id].feed)
  }

  ghost predicate Safe(s: State) {
    MapSound(s) && FateSealed(s) && CapKept(s) && BuffersSound(s) && !s.crashed && |s.queue| <= HUB_BUFFER
  }

  lemma TakenWatches(s: State, ids: set<ClientId>)
    requires MapSound(s) && forall id :: id in ids ==> Watches(s, id)
    ensures MapSound(TakeOut(s, ids))
    ensures forall id :: Watches(TakeOut(s, ids), id) <==> Watches(s, id) && id !in ids
  {
    var s' := TakeOut(s, ids);
    forall id ensures Watches(s', id) <==> Watches(s, id) && id !in ids {
      if Watches(s, id) && id !in ids {
        var f := s.profiles[id].feed;
        assert id in s.clients[f] - ids;
        assert f in s'.clients;
      }
    }
  }

  lemma SmallerStreams(s: State, s': State, user: nat)
    requires Streams(s', user) <= Streams(s, user) && |Streams(s, user)| <= MAX_PER_USER
    ensures |Streams(s', user)| <= MAX_PER_USER
  {
    SubsetSize(Streams(s', user), Streams(s, user));
  }

  lemma {:induction false} SubsetSize(a: set<ClientId>, b: set<ClientId>)
    requires a <= b
    ensures |a| <= |b|
    decreases |a|
  {
    if a != {} {
      var x :| x in a;
      SubsetSize(a - {x}, b - {x});
    }
  }

  lemma TakeOutSafe(s: State, ids: set<ClientId>)
    requires Safe(s) && forall id :: id in ids ==> Watches(s, id)
    ensures Safe(TakeOut(s, ids))
  {
    var s' := TakeOut(s, ids);
    TakenWatches(s, ids);
    forall id ensures Fate(s', id) == if id in s'.profiles then 1 else 0 {
      assert Fate(s, id) == if id in s.profiles then 1 else 0;
    }
    forall user ensures |Streams(s', user)| <= MAX_PER_USER {
      SmallerStreams(s, s', user);
    }
  }

  lemma RegisterMap(s: State, id: ClientId, p: Profile)
    requires MapSound(s) && id !in s.profiles && |Streams(s, p.user)| < MAX_PER_USER
    ensures MapSound(Register(s, id, p))
  {
    var s' := Register(s, id, p);
    forall f, j | f in s'.clients && j in s'.clients[f] ensures j in s'.profiles && s'.profiles[j].feed == f {
      if j != id {
        assert f in s.clients && j in s.clients[f];
      }
    }
    assert id in s'.clients[p.feed];
  }

  lemma RegisterBuffers(s: State, id: ClientId, p: Profile)
    requires BuffersSound(s) && id !in s.profiles && |Streams(s, p.user)| < MAX_PER_USER
    ensures BuffersSound(Register(s, id, p))
  {
    var s' := Register(s, id, p);
    forall j, frame | j in s'.buffers && frame in s'.buffers[j] ensures frame.feed == s'.profiles[j].feed {
      assert j != id;
    }
  }

  lemma AdmitWatch(s: State, id: ClientId, p: Profile, j: ClientId)
    requires MapSound(s) && id !in s.profiles
    ensures Watches(Admit(s, id, p), j) <==> Watches(s, j) || j == id
  {
    var watchers := if p.feed in s.clients then s.clients[p.feed] else {};
    assert Admit(s, id, p).clients == s.clients[p.feed := watchers + {id}];
    assert id !in watchers;
    assert j in s.profiles ==> j != id;
  }

  lemma RegisterWatches(s: State, id: ClientId, p: Profile)
    requires MapSound(s) && id !in s.profiles && |Streams(s, p.user)| < MAX_PER_USER
    ensures var s' := Register(s, id, p); forall j :: Watches(s', j) <==> Watches(s, j) || j == id
  {
    forall j ensures Watches(Admit(s, id, p), j) <==> Watches(s, j) || j == id {
      AdmitWatch(s, id, p, j);
    }
  }

  lemma SameUnless(s: State, s': State, id: ClientId, user: nat)
    requires forall j :: Watches(s', j) <==> Watches(s, j) || j == id
    requires forall j :: j in s.profiles ==> j in s'.profiles && s'.profiles[j] == s.profiles[j]
    requires id in s'.profiles
    ensures Streams(s', user) <= Streams(s, user) + {id}
    ensures s'.profiles[id].user != user ==> Streams(s', user) <= Streams(s, user)
  {
  }

  lemma RegisterStreams(s: State, id: ClientId, p: Profile, user: nat)
    requires MapSound(s) && id !in s.profiles && |Streams(s, p.user)| < MAX_PER_USER
    ensures Streams(Register(s, id, p), user) <= Streams(s, user) + if user == p.user then {id} else {}
  {
    RegisterWatches(s, id, p);
    SameUnless(s, Register(s, id, p), id, user);
  }

  lemma RegisterCap(s: State, id: ClientId, p: Profile, user: nat)
    requires MapSound(s) && CapKept(s) && id !in s.profiles && |Streams(s, p.user)| < MAX_PER_USER
    ensures |Streams(Register(s, id, p), user)| <= MAX_PER_USER
  {
    RegisterStreams(s, id, p, user);
    SubsetSize(Streams(Register(s, id, p), user), Streams(s, user) + if user == p.user then {id} else {});
  }

  lemma RegisterFate(s: State, id: ClientId, p: Profile)
    requires MapSound(s) && FateSealed(s) && id !in s.profiles && |Streams(s, p.user)| < MAX_PER_USER
    ensures FateSealed(Register(s, id, p))
  {
    var s' := Register(s, id, p);
    RegisterWatches(s, id, p);
    forall j ensures Fate(s', j) == if j in s'.profiles then 1 else 0 {
      assert Fate(s, j) == if j in s.profiles then 1 else 0;
    }
  }

  lemma RegisterSafe(s: State, id: ClientId, p: Profile)
    requires Safe(s) && id !in s.profiles
    ensures Safe(Register(s, id, p))
  {
    if |Streams(s, p.user)| < MAX_PER_USER {
      RegisterMap(s, id, p);
      RegisterBuffers(s, id, p);
      RegisterFate(s, id, p);
      forall user ensures |Streams(Register(s, id, p), user)| <= MAX_PER_USER {
        RegisterCap(s, id, p, user);
      }
    }
  }

  /** The fan-out never meets a closed client: whoever is in the map has not been closed. */
  lemma FanOutSafe(s: State)
    requires Safe(s) && s.queue != []
    ensures Safe(FanOut(s))
  {
    var s' := FanOut(s);
    forall id | id in Targets(s, s.queue[0].feed) ensures id !in s.closes {
      assert Watches(s, id);
      assert Fate(s, id) == 1;
    }
    forall id ensures Watches(s', id) == Watches(s, id) && Fate(s', id) == Fate(s, id) {
    }
    forall user ensures |Streams(s', user)| <= MAX_PER_USER {
      assert Streams(s', user) == Streams(s, user);
    }
    forall id, frame | id in s'.buffers && frame in s'.buffers[id] ensures frame.feed == s'.profiles[id].feed {
    }
  }

  lemma OtherSafe(s: State, step: Step)
    requires Safe(s) && Enabled(s, step) && (step.Broadcast? || step.Read? || step.Close?)
    ensures Safe(Apply(s, step))
  {
    var s' := Apply(s, step);
    forall id ensures Watches(s', id) == Watches(s, id) && Fate(s', id) == Fate(s, id) {
    }
    forall user ensures |Streams(s', user)| <= MAX_PER_USER {
      assert Streams(s', user) == Streams(s, user);
    }
  }

  lemma StepSafe(s: State, step: Step)
    requires Safe(s) && Enabled(s, step)
    ensures Safe(Apply(s, step))
  {
    match step {
      case Connect(id, p) => RegisterSafe(s, id, p);
      case Leave(id) => TakeOutSafe(s, if Watches(s, id) then {id} else {});
      case DisconnectUser(user) => TakeOutSafe(s, Streams(s, user));
      case DisconnectAll => TakeOutSafe(s, Everyone(s));
      case Deliver => FanOutSafe(s);
      case _ => OtherSafe(s, step);
    }
  }

  lemma {:induction false} RunSafe(s: State, run: seq<Step>)
    requires Safe(s) && ValidRun(s, run)
    ensures Safe(Exec(s, run))
    decreases |run|
  {
    if run != [] {
      StepSafe(s, run[0]);
      RunSafe(Apply(s, run[0]), run[1..]);
    }
  }

  /** In every state the hub can reach: nothing was ever sent on a closed channel, every client
      has been registered once and is watching, about to be closed or closed exactly once, nobody
      holds more than the allowed streams over all feeds, no feed is kept empty, and what is queued
      for a client belongs to its own feed. */
  lemma HubIsSafe(run: seq<Step>)
    requires ValidRun(Init, run)
    ensures var s := Exec(Init, run);
      && !s.crashed
      && (forall id :: s.closes[id] <= 1)
      && (forall id :: id in s.profiles && !Watches(s, id) ==> s.doomed[id] + s.closes[id] == 1)
      && (forall user :: |Streams(s, user)| <= MAX_PER_USER)
      && (forall f :: f in s.clients ==> s.clients[f] != {})
      && s.buffers.Keys == s.profiles.Keys
      && (forall id, frame :: id in s.buffers && frame in s.buffers[id] ==> frame.feed == s.profiles[id].feed)
  {
    assert forall user :: Streams(Init, user) == {};
    RunSafe(Init, run);
    var s := Exec(Init, run);
    forall id ensures s.closes[id] <= 1 {
      assert Fate(s, id) <= 1;
    }
    forall id | id in s.profiles && !Watches(s, id) ensures s.doomed[id] + s.closes[id] == 1 {
      assert Fate(s, id) == 1;
    }
  }

  /** A disconnect leaves the user no stream in the map, over all feeds, and each one that was
      there has its close due. */
  lemma DisconnectedUserHasNone(run: seq<Step>, user: nat)
    requires ValidRun(Init, run)
    ensures Streams(Apply(Exec(Init, run), DisconnectUser(user)), user) == {}
    ensures var s := Exec(Init, run);
      forall id :: id in Streams(s, user) ==> id in Apply(s, DisconnectUser(user)).doomed
  {
    var s := Exec(Init, run);
    assert forall u :: Streams(Init, u) == {};
    RunSafe(Init, run);
    TakenWatches(s, Streams(s, user));
  }

  // ---- the hub in place ----------------------------------------------------------------------------

  /** The watchers of some of the feeds. */
  function WatchersIn(s: State, feeds: set<string>): set<ClientId> {
    set id | id in s.profiles && Watches(s, id) && s.profiles[id].feed in feeds
  }

  function UsersOf(profiles: map<ClientId, Profile>, ids: set<ClientId>, user: nat): set<ClientId> {
    set id | id in ids && id in profiles && profiles[id].user == user
  }

  lemma OneMoreFeed(s: State, feeds: set<string>, feed: string)
    requires MapSound(s) && feed in s.clients && feed !in feeds
    ensures WatchersIn(s, feeds + {feed}) == WatchersIn(s, feeds) + s.clients[feed]
    ensures WatchersIn(s, feeds) !! s.clients[feed]
  {
    forall id | id in s.clients[feed] ensures Watches(s, id) && s.profiles[id].feed == feed {
    }
  }

  lemma UsersOfBoth(profiles: map<ClientId, Profile>, a: set<ClientId>, b: set<ClientId>, user: nat)
    requires a !! b
    ensures UsersOf(profiles, a + b, user) == UsersOf(profiles, a, user) + UsersOf(profiles, b, user)
    ensures |UsersOf(profiles, a + b, user)| == |UsersOf(profiles, a, user)| + |UsersOf(profiles, b, user)|
  {
    assert UsersOf(profiles, a + b, user) == UsersOf(profiles, a, user) + UsersOf(profiles, b, user);
    assert UsersOf(profiles, a, user) !! UsersOf(profiles, b, user);
  }

  lemma AllFeeds(s: State)
    ensures WatchersIn(s, s.clients.Keys) == Everyone(s)
    ensures forall user :: UsersOf(s.profiles, Everyone(s), user) == Streams(s, user)
  {
  }

  lemma EveryoneEnds(s: State)
    requires MapSound(s)
    ensures WatchersIn(s, s.clients.Keys - s.clients.Keys) == {}
    ensures WatchersIn(s, s.clients.Keys - {}) == Everyone(s)
    ensures TakeOut(s, Everyone(s)) == s.(clients := map[], doomed := s.doomed + multiset(Everyone(s)))
  {
    assert s.clients.Keys - {} == s.clients.Keys;
    AllFeeds(s);
    NobodyLeft(s);
  }

  lemma EveryoneStep(s: State, todo: set<string>, feed: string)
    requires MapSound(s) && feed in todo && todo <= s.clients.Keys
    ensures WatchersIn(s, s.clients.Keys - (todo - {feed})) == WatchersIn(s, s.clients.Keys - todo) + s.clients[feed]
  {
    var done := s.clients.Keys - todo;
    assert s.clients.Keys - (todo - {feed}) == done + {feed};
    OneMoreFeed(s, done, feed);
  }

  /** The map half way through a sweep: feeds still to come are untouched. */
  function Swept(clients: map<string, set<ClientId>>, done: set<string>, ids: set<ClientId>): map<string, set<ClientId>> {
    map f | f in clients && (f in done ==> clients[f] - ids != {}) ::
      if f in done then clients[f] - ids else clients[f]
  }

  function WithFeed(clients: map<string, set<ClientId>>, feed: string, watchers: set<ClientId>): map<string, set<ClientId>> {
    if watchers == {} then clients - {feed} else clients[feed := watchers]
  }

  lemma OneMoreSwept(clients: map<string, set<ClientId>>, done: set<string>, ids: set<ClientId>, feed: string)
    requires feed in clients && feed !in done
    ensures feed in Swept(clients, done, ids) && Swept(clients, done, ids)[feed] == clients[feed]
    ensures Swept(clients, done + {feed}, ids) == WithFeed(Swept(clients, done, ids), feed, clients[feed] - ids)
  {
  }

  lemma SweptAll(clients: map<string, set<ClientId>>, ids: set<ClientId>)
    requires forall f :: f in clients ==> clients[f] != {}
    ensures Swept(clients, {}, ids) == clients
    ensures Swept(clients, clients.Keys, ids) == Taken(clients, ids)
  {
  }

  lemma NobodyLeft(s: State)
    requires MapSound(s)
    ensures Taken(s.clients, Everyone(s)) == map[]
  {
    forall f | f in s.clients ensures s.clients[f] - Everyone(s) == {} {
      forall id | id in s.clients[f] ensures Watches(s, id) {
      }
    }
  }

  lemma SweepOne(s: State, id: ClientId)
    requires MapSound(s) && Watches(s, id)
    ensures var f := s.profiles[id].feed; Taken(s.clients, {id}) == WithFeed(s.clients, f, s.clients[f] - {id})
  {
    forall g | g in s.clients && g != s.profiles[id].feed ensures s.clients[g] - {id} == s.clients[g] {
    }
  }

  lemma TakeNone(s: State)
    requires MapSound(s)
    ensures TakeOut(s, {}) == s
  {
    assert forall f :: f in s.clients ==> s.clients[f] - {} == s.clients[f];
    assert Taken(s.clients, {}) == s.clients;
    assert s.doomed + multiset({}) == s.doomed;
  }

  /** Taking a user's streams out of one feed takes out the user's watchers there. */
  lemma LeftOf(s: State, feed: string, user: nat)
    requires MapSound(s) && feed in s.clients
    ensures s.clients[feed] - Streams(s, user) == s.clients[feed] - UsersOf(s.profiles, s.clients[feed], user)
  {
    forall id | id in s.clients[feed]
      ensures id in Streams(s, user) <==> id in UsersOf(s.profiles, s.clients[feed], user)
    {
      assert Watches(s, id);
    }
  }

  lemma CountStep(s: State, todo: set<string>, feed: string, user: nat)
    requires MapSound(s) && feed in todo && todo <= s.clients.Keys
    ensures s.clients[feed] <= s.profiles.Keys
    ensures var before := UsersOf(s.profiles, WatchersIn(s, s.clients.Keys - todo), user);
      var mine := UsersOf(s.profiles, s.clients[feed], user);
      var after := UsersOf(s.profiles, WatchersIn(s, s.clients.Keys - (todo - {feed})), user);
      after == before + mine && |after| == |before| + |mine|
  {
    var done := s.clients.Keys - todo;
    assert s.clients.Keys - (todo - {feed}) == done + {feed};
    OneMoreFeed(s, done, feed);
    UsersOfBoth(s.profiles, WatchersIn(s, done), s.clients[feed], user);
  }

  lemma SweepStep(s: State, todo: set<string>, feed: string, user: nat)
    requires MapSound(s) && feed in todo && todo <= s.clients.Keys
    ensures var before := Swept(s.clients, s.clients.Keys - todo, Streams(s, user));
      && feed in before && before[feed] == s.clients[feed]
      && Swept(s.clients, s.clients.Keys - (todo - {feed}), Streams(s, user))
        == WithFeed(before, feed, s.clients[feed] - UsersOf(s.profiles, s.clients[feed], user))
  {
    var done := s.clients.Keys - todo;
    assert s.clients.Keys - (todo - {feed}) == done + {feed};
    OneMoreSwept(s.clients, done, Streams(s, user), feed);
    LeftOf(s, feed, user);
  }

  lemma CountEnds(s: State, user: nat)
    ensures UsersOf(s.profiles, WatchersIn(s, s.clients.Keys - s.clients.Keys), user) == {}
    ensures UsersOf(s.profiles, WatchersIn(s, s.clients.Keys - {}), user) == Streams(s, user)
  {
    assert s.clients.Keys - {} == s.clients.Keys;
    AllFeeds(s);
  }

  lemma SweepEnds(s: State, user: nat)
    requires MapSound(s)
    ensures Swept(s.clients, s.clients.Keys - s.clients.Keys, Streams(s, user)) == s.clients
    ensures Swept(s.clients, s.clients.Keys - {}, Streams(s, user)) == Taken(s.clients, Streams(s, user))
  {
    assert s.clients.Keys - {} == s.clients.Keys;
    assert s.clients.Keys - s.clients.Keys == {};
    SweptAll(s.clients, Streams(s, user));
  }

  /** The buffers once a frame has been offered to every target but those still to come. */
  function Offered(buffers: map<ClientId, seq<Frame>>, targets: set<ClientId>, todo: set<ClientId>, frame: Frame)
    : map<ClientId, seq<Frame>>
  {
    map id | id in buffers ::
      if id in targets && id !in todo && |buffers[id]| < CLIENT_BUFFER then buffers[id] + [frame] else buffers[id]
  }

  function SlowIn(buffers: map<ClientId, seq<Frame>>, targets: set<ClientId>, todo: set<ClientId>): set<ClientId> {
    set id | id in targets && id !in todo && id in buffers && |buffers[id]| >= CLIENT_BUFFER
  }

  lemma OfferStep(buffers: map<ClientId, seq<Frame>>, targets: set<ClientId>, todo: set<ClientId>, frame: Frame, id: ClientId)
    requires id in todo && todo <= targets <= buffers.Keys
    ensures var before := Offered(buffers, targets, todo, frame);
      && id in before && before[id] == buffers[id]
      && Offered(buffers, targets, todo - {id}, frame) ==
        if |buffers[id]| < CLIENT_BUFFER then before[id := buffers[id] + [frame]] else before
    ensures SlowIn(buffers, targets, todo - {id}) ==
      SlowIn(buffers, targets, todo) + if |buffers[id]| >= CLIENT_BUFFER then {id} else {}
  {
  }

  lemma ClosedStep(closes: multiset<ClientId>, targets: set<ClientId>, todo: set<ClientId>, id: ClientId)
    requires id in todo && todo <= targets
    ensures AnyClosed(closes, targets, todo - {id}) <==> AnyClosed(closes, targets, todo) || id in closes
  {
    if AnyClosed(closes, targets, todo) {
      var j :| j in targets && j !in todo && j in closes;
      assert j !in todo - {id};
    }
    if id in closes {
      assert id !in todo - {id};
    }
  }

  lemma OfferStarts(buffers: map<ClientId, seq<Frame>>, targets: set<ClientId>, frame: Frame)
    ensures Offered(buffers, targets, targets, frame) == buffers && SlowIn(buffers, targets, targets) == {}
  {
  }

  lemma TargetsKnown(s: State)
    requires MapSound(s) && s.buffers.Keys == s.profiles.Keys && s.queue != []
    ensures var targets := Targets(s, s.queue[0].feed);
      targets <= s.buffers.Keys && Offered(s.buffers, targets, {}, s.queue[0]) == FanOut(s).buffers
  {
  }

  /** The watchers of the first frame's feed that have no room for it. */
  function SlowOnes(s: State): set<ClientId>
    requires s.queue != []
  {
    SlowIn(s.buffers, Targets(s, s.queue[0].feed), {})
  }

  lemma SlowOnesWatch(s: State)
    requires MapSound(s) && s.queue != []
    ensures MapSound(FanOut(s)) && forall id :: id in SlowOnes(s) ==> Watches(FanOut(s), id)
  {
    forall id | id in SlowOnes(s) ensures Watches(s, id) {
      assert id in s.clients[s.queue[0].feed];
    }
  }

  lemma TakenTwice(clients: map<string, set<ClientId>>, a: set<ClientId>, b: set<ClientId>)
    ensures Taken(Taken(clients, a), b) == Taken(clients, a + b)
  {
    forall f | f in clients ensures clients[f] - a - b == clients[f] - (a + b) {
    }
    forall f | f in clients && clients[f] - (a + b) != {} ensures clients[f] - a != {} {
      var id :| id in clients[f] - (a + b);
      assert id in clients[f] - a;
    }
  }

  lemma Disjoint(a: set<ClientId>, id: ClientId)
    requires id !in a
    ensures multiset(a) + multiset({id}) == multiset(a + {id})
  {
  }

  ghost predicate Parted(ids: set<ClientId>, gone: set<ClientId>, todo: set<ClientId>) {
    forall id :: (id in ids <==> id in gone || id in todo) && (id in gone ==> id !in todo)
  }

  lemma PartedStep(ids: set<ClientId>, gone: set<ClientId>, todo: set<ClientId>, id: ClientId)
    requires Parted(ids, gone, todo) && id in todo
    ensures Parted(ids, gone + {id}, todo - {id}) && id in ids && id !in gone && gone <= ids
  {
  }

  lemma PartedAll(ids: set<ClientId>, gone: set<ClientId>)
    requires Parted(ids, gone, {})
    ensures gone == ids
  {
  }

  /** One by one comes to the same as all at once. */
  lemma RemoveOneMore(s: State, gone: set<ClientId>, id: ClientId)
    requires MapSound(s) && id !in gone && Watches(s, id) && forall g :: g in gone ==> Watches(s, g)
    ensures MapSound(TakeOut(s, gone)) && Remove(TakeOut(s, gone), id) == TakeOut(s, gone + {id})
  {
    TakenWatches(s, gone);
    TakenTwice(s.clients, gone, {id});
    Disjoint(gone, id);
    assert s.doomed + multiset(gone) + multiset({id}) == s.doomed + (multiset(gone) + multiset({id}));
  }

  class Hub {
    var profiles: map<ClientId, Profile>
    var clients: map<string, set<ClientId>>
    var queue: seq<Frame>
    var buffers: map<ClientId, seq<Frame>>
    var doomed: multiset<ClientId>
    var closes: multiset<ClientId>
    ghost var crashed: bool

    ghost function View(): State
      reads this
    {
      State(profiles, clients, queue, buffers, doomed, closes, crashed)
    }

    constructor ()
      ensures View() == Init
    {
      profiles, clients, queue, buffers := map[], map[], [], map[];
      doomed, closes, crashed := multiset{}, multiset{}, false;
    }

    /** A feed left without watchers goes from the map, or it would stay for good. */
    method SetFeed(feed: string, watchers: set<ClientId>)
      modifies this`clients
      ensures clients == WithFeed(old(clients), feed, watchers)
    {
      clients := clients[feed := watchers];
      if clients[feed] == {} {
        clients := clients - {feed};
      }
    }

    /** Which of a feed's watchers are the user's. */
    method PickUser(watchers: set<ClientId>, user: nat) returns (mine: set<ClientId>)
      requires watchers <= profiles.Keys
      ensures mine == UsersOf(profiles, watchers, user)
    {
      mine := {};
      var todo := watchers;
      while todo != {}
        invariant todo <= watchers
        invariant mine == UsersOf(profiles, watchers - todo, user)
        decreases |todo|
      {
        var id :| id in todo;
        todo := todo - {id};
        if profiles[id].user == user {
          mine := mine + {id};
        }
      }
      assert watchers - todo == watchers;
    }

    /** Counted across every feed, not per feed. */
    method CountStreams(user: nat) returns (n: nat)
      requires MapSound(View())
      ensures n == |Streams(View(), user)|
    {
      n := 0;
      var todo := clients.Keys;
      ghost var s := View();
      CountEnds(s, user);
      while todo != {}
        invariant todo <= s.clients.Keys
        invariant n == |UsersOf(s.profiles, WatchersIn(s, s.clients.Keys - todo), user)|
        decreases |todo|
      {
        var feed :| feed in todo;
        CountStep(s, todo, feed, user);
        var mine := PickUser(clients[feed], user);
        n := n + |mine|;
        todo := todo - {feed};
      }
    }

    method TryRegister(id: ClientId, p: Profile) returns (admitted: bool)
      requires MapSound(View()) && id !in profiles
      modifies this
      ensures View() == Register(old(View()), id, p)
      ensures admitted <==> |Streams(old(View()), p.user)| < MAX_PER_USER
    {
      var forUser := CountStreams(p.user);
      if forUser >= MAX_PER_USER {
        return false;
      }
      profiles := profiles[id := p];
      buffers := buffers[id := []];
      var watchers := if p.feed in clients then clients[p.feed] else {};
      clients := clients[p.feed := watchers + {id}];
      return true;
    }

    /** Safe to call from the fan-out loop or a handler, any number of times. */
    method RemoveClient(id: ClientId) returns (present: bool)
      requires MapSound(View()) && id in profiles
      modifies this
      ensures View() == Remove(old(View()), id)
      ensures present <==> Watches(old(View()), id)
    {
      var f := profiles[id].feed;
      present := f in clients && id in clients[f];
      ghost var s := View();
      if present {
        SweepOne(s, id);
        SetFeed(f, clients[f] - {id});
        doomed := doomed + multiset{id};
        assert multiset({id}) == multiset{id};
      } else {
        TakeNone(s);
      }
    }

    /** Deletes one user's watchers from every feed, and feeds they leave empty. */
    method DisconnectUserLocal(user: nat) returns (dropped: set<ClientId>)
      requires MapSound(View())
      modifies this
      ensures dropped == Streams(old(View()), user)
      ensures View() == TakeOut(old(View()), dropped)
    {
      ghost var s := View();
      dropped := {};
      var todo := clients.Keys;
      CountEnds(s, user);
      SweepEnds(s, user);
      while todo != {}
        invariant todo <= s.clients.Keys && clients == Swept(s.clients, s.clients.Keys - todo, Streams(s, user))
        invariant dropped == UsersOf(s.profiles, WatchersIn(s, s.clients.Keys - todo), user)
        decreases |todo|
        modifies this`clients
      {
        var feed :| feed in todo;
        CountStep(s, todo, feed, user);
        SweepStep(s, todo, feed, user);
        var mine := PickUser(clients[feed], user);
        dropped := dropped + mine;
        SetFeed(feed, clients[feed] - mine);
        todo := todo - {feed};
      }
      doomed := doomed + multiset(dropped);
    }

    method CollectEveryone() returns (all: set<ClientId>)
      requires MapSound(View())
      ensures all == Everyone(View())
    {
      all := {};
      var todo := clients.Keys;
      EveryoneEnds(View());
      while todo != {}
        invariant todo <= clients.Keys
        invariant all == WatchersIn(View(), clients.Keys - todo)
        decreases |todo|
      {
        var feed :| feed in todo;
        EveryoneStep(View(), todo, feed);
        all := all + clients[feed];
        todo := todo - {feed};
      }
    }

    /** Takes every client out at once; they are closed now or within the spread. */
    method DisconnectAllLocal() returns (dropped: set<ClientId>)
      requires MapSound(View())
      modifies this
      ensures dropped == Everyone(old(View()))
      ensures View() == TakeOut(old(View()), dropped)
    {
      EveryoneEnds(View());
      dropped := CollectEveryone();
      clients := map[];
      doomed := doomed + multiset(dropped);
    }

    method BroadcastLocal(frame: Frame)
      modifies this`queue
      ensures View() == Apply(old(View()), Broadcast(frame))
    {
      if |queue| < HUB_BUFFER {
        queue := queue + [frame];
      }
    }

    /** A send that does not wait; on a closed channel it would panic. */
    method TrySend(id: ClientId, frame: Frame) returns (taken: bool)
      requires id in buffers
      modifies this`buffers, this`crashed
      ensures taken <==> |old(buffers)[id]| < CLIENT_BUFFER
      ensures buffers == if taken then old(buffers)[id := old(buffers)[id] + [frame]] else old(buffers)
      ensures crashed <==> old(crashed) || id in closes
    {
      crashed := crashed || id in closes;
      taken := |buffers[id]| < CLIENT_BUFFER;
      if taken {
        buffers := buffers[id := buffers[id] + [frame]];
      }
    }

    method OfferAll(targets: set<ClientId>, frame: Frame) returns (slow: set<ClientId>)
      requires targets <= buffers.Keys
      modifies this`buffers, this`crashed
      ensures buffers == Offered(old(buffers), targets, {}, frame) && slow == SlowIn(old(buffers), targets, {})
      ensures crashed <==> old(crashed) || AnyClosed(closes, targets, {})
    {
      slow := {};
      var todo := targets;
      ghost var before := buffers;
      OfferStarts(before, targets, frame);
      while todo != {}
        invariant todo <= targets
        invariant buffers == Offered(before, targets, todo, frame) && slow == SlowIn(before, targets, todo)
        invariant crashed <==> old(crashed) || AnyClosed(closes, targets, todo)
        decreases |todo|
        modifies this`buffers, this`crashed
      {
        var id :| id in todo;
        OfferStep(before, targets, todo, frame, id);
        ClosedStep(closes, targets, todo, id);
        var taken := TrySend(id, frame);
        if !taken {
          slow := slow + {id};
        }
        todo := todo - {id};
      }
    }

    /** One frame to every watcher of its feed; whoever has no room is reported as slow. */
    method RunOnce() returns (slow: set<ClientId>)
      requires MapSound(View()) && buffers.Keys == profiles.Keys && queue != []
      modifies this
      ensures View() == FanOut(old(View()))
      ensures slow == SlowOnes(old(View()))
    {
      TargetsKnown(View());
      var frame := queue[0];
      queue := queue[1..];
      slow := OfferAll(if frame.feed in clients then clients[frame.feed] else {}, frame);
    }

    method RemoveNext(id: ClientId, ghost s: State, ghost gone: set<ClientId>)
      requires MapSound(s) && Watches(s, id) && id !in gone && forall g :: g in gone ==> Watches(s, g)
      requires View() == TakeOut(s, gone)
      modifies this
      ensures View() == TakeOut(s, gone + {id})
    {
      RemoveOneMore(s, gone, id);
      var _ := RemoveClient(id);
    }

    method RemoveEach(ids: set<ClientId>)
      requires MapSound(View()) && forall id :: id in ids ==> Watches(View(), id)
      modifies this
      ensures View() == TakeOut(old(View()), ids)
    {
      ghost var s := View();
      var todo := ids;
      ghost var gone: set<ClientId> := {};
      TakeNone(s);
      while todo != {}
        invariant Parted(ids, gone, todo) && View() == TakeOut(s, gone)
        decreases |todo|
      {
        var id :| id in todo;
        PartedStep(ids, gone, todo, id);
        RemoveNext(id, s, gone);
        todo, gone := todo - {id}, gone + {id};
      }
      PartedAll(ids, gone);
    }

    /** The whole of one turn of Run, with no other lock section in between: the frame goes out, and
        then everyone who had no room for it is taken out. */
    method FanOutTurn()
      requires MapSound(View()) && buffers.Keys == profiles.Keys && queue != []
      modifies this
      ensures View() == TakeOut(FanOut(old(View())), SlowOnes(old(View())))
    {
      SlowOnesWatch(View());
      var slow := RunOnce();
      RemoveEach(slow);
    }
  }
}
