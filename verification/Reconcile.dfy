/**
 Bringing the supervisors that run on this node in line with the connectors the database says
 are enabled (backend/internal/connector/manager.go, `reconcileOnce`, `start`, `setStatus` and
 `stopAll`).
 */
module Reconcile {
  import opened Wrappers

  datatype Instance = Instance(id: nat, kind: string, name: string, config: string)

  datatype Managed = Managed(generation: nat, fingerprint: string)

  datatype Report = Acquiring | NotOwner | Connecting | Connected | Stopped | Error

  datatype Status = Status(state: Report, since: int, lastError: string)

  /** `cancelled` holds the supervisors, by instance and generation, that were told to stop. */
  datatype State = State(
    running: map<nat, Managed>, status: map<nat, Status>, kinds: map<nat, string>,
    generation: nat, cancelled: set<(nat, nat)>)

  /** Config and name are all that reach the connector. */
  function Fingerprint(inst: Instance): string {
    inst.name + ['\0'] + inst.config
  }

  /** An edit of name or config always shows, as long as names hold no NUL (which a PostgreSQL
      text column cannot). */
  lemma FingerprintShowsEdits(a: Instance, b: Instance)
    requires '\0' !in a.name && '\0' !in b.name
    ensures Fingerprint(a) == Fingerprint(b) <==> a.name == b.name && a.config == b.config
  {
    var f, g := Fingerprint(a), Fingerprint(b);
    assert f[|a.name|] == '\0' && f[..|a.name|] == a.name && f[|a.name| + 1..] == a.config;
    assert g[|b.name|] == '\0' && g[..|b.name|] == b.name && g[|b.name| + 1..] == b.config;
    assert forall i :: 0 <= i < |a.name| ==> f[i] == a.name[i] && a.name[i] in a.name;
    assert forall i :: 0 <= i < |b.name| ==> g[i] == b.name[i] && b.name[i] in b.name;
  }

  /** The enabled instances of persistent kinds, by id; a later row replaces an earlier one. */
  function Wanted(listed: seq<Instance>, persistent: set<string>): (w: map<nat, Instance>)
    ensures forall id :: id in w ==> w[id] in listed && w[id].id == id && w[id].kind in persistent
    ensures forall inst :: inst in listed && inst.kind in persistent ==> inst.id in w
  {
    if listed == [] then map[]
    else
      var init, last := listed[..|listed| - 1], listed[|listed| - 1];
      var w := Wanted(init, persistent);
      if last.kind in persistent then w[last.id := last] else w
  }

  // ---- one instance's share of the manager's maps ------------------------------------------

  datatype Slot = Slot(managed: Option<Managed>, status: Option<Status>, kind: Option<string>)

  function Get<V>(m: map<nat, V>, id: nat): Option<V> {
    if id in m then Some(m[id]) else None
  }

  function At(s: State, id: nat): Slot {
    Slot(Get(s.running, id), Get(s.status, id), Get(s.kinds, id))
  }

  /** Already running with exactly the wanted config. */
  predicate Keeps(a: Slot, want: Option<Instance>) {
    a.managed.Some? && want.Some? && a.managed.value.fingerprint == Fingerprint(want.value)
  }

  predicate Stops(a: Slot, want: Option<Instance>) {
    a.managed.Some? && !Keeps(a, want)
  }

  predicate Starts(a: Slot, want: Option<Instance>) {
    want.Some? && !Keeps(a, want)
  }

  /** What the pass over the running map leaves: an instance that is no longer wanted at all is
      also forgotten. */
  function Swept(a: Slot, want: Option<Instance>): Slot {
    if !Stops(a, want) then a
    else if want.Some? then a.(managed := None)
    else Slot(None, None, None)
  }

  // ---- what a reconcile promises --------------------------------------------------------------

  /** Generations tell supervisors apart, and the counter bounds them all. */
  ghost predicate Distinct(s: State) {
    && (forall id :: id in s.running ==> 1 <= s.running[id].generation <= s.generation)
    && (forall id, id' :: id in s.running && id' in s.running && id != id' ==>
          s.running[id].generation != s.running[id'].generation)
  }

  /** Exactly the running supervisors have not been told to stop. */
  ghost predicate Valid(s: State) {
    && Distinct(s)
    && (forall id :: id in s.running ==> (id, s.running[id].generation) !in s.cancelled)
    && (forall id, g :: (id, g) in s.cancelled ==> g <= s.generation)
  }

  function StartedIds(s: State, w: map<nat, Instance>): set<nat> {
    set id | id in w && Starts(At(s, id), Get(w, id))
  }

  /** What has become of an instance while those in `left` are yet to be started. */
  predicate Settled(s: State, w: map<nat, Instance>, left: set<nat>, t: State, id: nat) {
    var a := Swept(At(s, id), Get(w, id));
    if id in w && Starts(At(s, id), Get(w, id)) && id !in left then
      && id in t.running
      && s.generation < t.running[id].generation <= t.generation
      && t.running[id].fingerprint == Fingerprint(w[id]) && Get(t.kinds, id) == Some(w[id].kind)
    else Get(t.running, id) == a.managed && Get(t.kinds, id) == a.kind
  }

  /** The status of an instance after the reports `ws` that landed meanwhile. A supervisor that was
      kept is shown by its own reports alone. One that was started is shown as acquiring, which counts
      from before if that was shown already, and from then on by its own reports. An instance without
      a registered supervisor is shown by whoever still reports for it, above all a cancelled one. */
  ghost predicate StatusIs(s: State, w: map<nat, Instance>, now: int, ws: seq<Write>, t: State, id: nat) {
    var before := Swept(At(s, id), Get(w, id)).status;
    if id !in t.running then Get(t.status, id) == Shown(before, Of(ws, id))
    else
      var g := t.running[id].generation;
      if id in s.running && s.running[id].generation == g then Get(t.status, id) == Shown(before, By(ws, id, g))
      else exists k: nat :: ShowsStart(before, ws, Write(id, g, Acquiring, "", now), k, Get(t.status, id))
  }

  /** Started once the first `k` reports had landed. */
  predicate ShowsStart(before: Option<Status>, ws: seq<Write>, start: Write, k: nat, status: Option<Status>) {
    k <= |ws| && status == Shown(before, Of(ws[..k], start.id) + [start] + By(ws[k..], start.id, start.generation))
  }

  /** Every supervisor that was stopped, and no other, has been cancelled. */
  ghost predicate CancelsStale(s: State, w: map<nat, Instance>, todo: set<nat>, t: State) {
    forall id, g :: (id, g) in t.cancelled <==>
      (id, g) in s.cancelled || (id !in todo && Stops(At(s, id), Get(w, id)) && s.running[id].generation == g)
  }

  /** `ws` are the reports that landed while the reconcile was waiting and starting. */
  ghost predicate Reconciled(s: State, w: map<nat, Instance>, now: int, ws: seq<Write>, t: State) {
    && (forall id :: Settled(s, w, {}, t, id))
    && (forall id :: StatusIs(s, w, now, ws, t, id))
    && t.generation == s.generation + |StartedIds(s, w)|
    && Distinct(t)
    && CancelsStale(s, w, {}, t)
  }

  // ---- status reports by supervisors old and new ----------------------------------------------------

  datatype Write = Write(id: nat, generation: nat, state: Report, lastError: string, now: int)

  /** Since means "in this state since". */
  function Reported(before: Option<Status>, w: Write): Status {
    var since := if before.Some? && before.value.state == w.state then before.value.since else w.now;
    Status(w.state, since, w.lastError)
  }

  /** setStatus: a superseded generation is ignored. */
  function SetStatusStep(s: State, w: Write): State {
    if w.id in s.running && s.running[w.id].generation != w.generation then s
    else s.(status := s.status[w.id := Reported(Get(s.status, w.id), w)])
  }

  function Writes(s: State, ws: seq<Write>): State {
    if ws == [] then s else SetStatusStep(Writes(s, ws[..|ws| - 1]), ws[|ws| - 1])
  }

  /** The reports of one supervisor, and all reports for one instance. */
  function By(ws: seq<Write>, id: nat, generation: nat): seq<Write> {
    if ws == [] then []
    else
      var last := ws[|ws| - 1];
      By(ws[..|ws| - 1], id, generation) + if last.id == id && last.generation == generation then [last] else []
  }

  function Of(ws: seq<Write>, id: nat): seq<Write> {
    if ws == [] then [] else Of(ws[..|ws| - 1], id) + if ws[|ws| - 1].id == id then [ws[|ws| - 1]] else []
  }

  /** What a sequence of accepted reports leaves. */
  function Shown(before: Option<Status>, own: seq<Write>): Option<Status> {
    if own == [] then before else Some(Reported(Shown(before, own[..|own| - 1]), own[|own| - 1]))
  }

  /** Reports land in batches: one while the cancelled supervisors are waited for, and one after each
      start. */
  function Batch(reports: seq<seq<Write>>, k: nat): seq<Write> {
    if k < |reports| then reports[k] else []
  }

  function Landed(reports: seq<seq<Write>>, k: nat): seq<Write> {
    if k == 0 then Batch(reports, 0) else Landed(reports, k - 1) + Batch(reports, k)
  }

  predicate NoneAhead(ws: seq<Write>, generation: nat) {
    forall w :: w in ws ==> w.generation <= generation
  }

  /** No supervisor reports before it is started. */
  ghost predicate Causal(reports: seq<seq<Write>>, generation: nat) {
    forall k: nat :: NoneAhead(Batch(reports, k), generation + k)
  }

  class Manager {
    const persistent: set<string>
    var running: map<nat, Managed>
    var status: map<nat, Status>
    var kinds: map<nat, string>
    var generation: nat
    var cancelled: set<(nat, nat)>

    ghost function View(): State
      reads this
    {
      State(running, status, kinds, generation, cancelled)
    }

    constructor (persistent: set<string>)
      ensures this.persistent == persistent && View() == State(map[], map[], map[], 0, {})
      ensures Valid(View())
    {
      this.persistent := persistent;
      running, status, kinds, generation, cancelled := map[], map[], map[], 0, {};
    }

    method SetStatus(id: nat, gen: nat, state: Report, lastError: string, now: int)
      modifies this`status
      ensures View() == SetStatusStep(old(View()), Write(id, gen, state, lastError, now))
      ensures id in running && running[id].generation != gen ==> status == old(status)
      ensures id !in running || running[id].generation == gen ==>
        && id in status && status == old(status)[id := status[id]]
        && status[id].state == state && status[id].lastError == lastError
        && status[id].since ==
           if id in old(status) && old(status)[id].state == state then old(status)[id].since else now
    {
      if id in running && running[id].generation != gen {
        return;
      }
      var since := now;
      if id in status && status[id].state == state {
        since := status[id].since;
      }
      status := status[id := Status(state, since, lastError)];
    }

    /** Supervisors report at any moment the manager's lock is free. */
    method Land(ws: seq<Write>)
      modifies this`status
      ensures View() == Writes(old(View()), ws)
    {
      for i := 0 to |ws|
        invariant View() == Writes(old(View()), ws[..i])
      {
        assert ws[..i + 1][..i] == ws[..i];
        SetStatus(ws[i].id, ws[i].generation, ws[i].state, ws[i].lastError, ws[i].now);
      }
      assert ws[..|ws|] == ws;
    }

    /** Registers a new generation; the supervise goroutine itself is not run here. */
    method StartInstance(inst: Instance, now: int)
      modifies this`running, this`status, this`kinds, this`generation
      ensures View() == StartOne(old(View()), inst, now)
    {
      generation := generation + 1;
      running := running[inst.id := Managed(generation, Fingerprint(inst))];
      kinds := kinds[inst.id := inst.kind];
      SetStatus(inst.id, generation, Acquiring, "", now);
    }

    method CollectWanted(listed: seq<Instance>) returns (w: map<nat, Instance>)
      ensures w == Wanted(listed, persistent)
    {
      w := map[];
      for i := 0 to |listed|
        invariant w == Wanted(listed[..i], persistent)
      {
        assert listed[..i + 1][..i] == listed[..i];
        if listed[i].kind in persistent {
          w := w[listed[i].id := listed[i]];
        }
      }
      assert listed[..|listed|] == listed;
    }

    /** Leaves an instance that runs as wanted alone, and stops any other. */
    method StopUnlessWanted(id: nat, wanted: map<nat, Instance>) returns (kept: bool)
      requires id in running
      modifies this
      ensures View() == SweepOne(old(View()), wanted, id)
      ensures kept <==> Keeps(At(old(View()), id), Get(wanted, id))
    {
      kept := id in wanted && running[id].fingerprint == Fingerprint(wanted[id]);
      if !kept {
        cancelled := cancelled + {(id, running[id].generation)};
        running := running - {id};
        if id !in wanted {
          kinds := kinds - {id};
          status := status - {id};
        }
      }
    }

    /** Stops what should no longer run as it does, and reports what is left to start. */
    method StopStale(wanted: map<nat, Instance>) returns (toStart: set<nat>)
      modifies this
      ensures HalfSwept(old(View()), wanted, {}, View()) && toStart == StartedIds(old(View()), wanted)
    {
      ghost var s := View();
      toStart := wanted.Keys;
      var todo := running.Keys;
      LeftAtFirst(s, wanted);
      while todo != {}
        invariant todo <= s.running.Keys && HalfSwept(s, wanted, todo, View())
        invariant toStart == StillToStart(s, wanted, todo)
        decreases |todo|
      {
        var id :| id in todo;
        ghost var t := View();
        SweptSoFar(s, wanted, todo, t, id);
        SweepStep(s, wanted, todo, id, t);
        LeftStep(s, wanted, todo, id);
        var kept := StopUnlessWanted(id, wanted);
        if kept {
          toStart := toStart - {id};
        }
        todo := todo - {id};
      }
      LeftAtLast(s, wanted);
    }

    /** One start, and the reports that land after it. */
    method StartNext(inst: Instance, batch: seq<Write>, now: int)
      modifies this`running, this`status, this`kinds, this`generation
      ensures View() == Writes(StartOne(old(View()), inst, now), batch)
    {
      StartInstance(inst, now);
      Land(batch);
    }

    /** The starts come in whatever order the map yields them. */
    method ListToStart(left: set<nat>) returns (ids: seq<nat>)
      ensures Ordering(left, ids) && Less(left, ids) == {}
    {
      ids := [];
      var todo := left;
      while todo != {}
        invariant Ordering(left, ids) && Less(left, ids) == todo
        decreases |todo|
      {
        var id :| id in todo;
        assert (ids + [id])[..|ids|] == ids;
        ids, todo := ids + [id], todo - {id};
      }
    }

    method StartAll(wanted: map<nat, Instance>, toStart: seq<nat>, reports: seq<seq<Write>>, now: int)
      requires forall id :: id in toStart ==> id in wanted
      modifies this`running, this`status, this`kinds, this`generation
      ensures View() == Started(old(View()), wanted, toStart, reports, now)
    {
      for i := 0 to |toStart|
        invariant View() == Started(old(View()), wanted, toStart[..i], reports, now)
      {
        assert toStart[..i + 1][..i] == toStart[..i];
        StartNext(wanted[toStart[i]], Batch(reports, i + 1), now);
      }
      assert toStart[..|toStart|] == toStart;
    }

    /** The list is read first; stopping, waiting and starting follow, and supervisors report all the
        while. */
    method ReconcileOnce(listed: Option<seq<Instance>>, reports: seq<seq<Write>>, now: int)
      requires Valid(View()) && Causal(reports, generation)
      modifies this
      ensures Valid(View())
      ensures listed.None? ==> View() == old(View())
      ensures listed.Some? ==>
        var w := Wanted(listed.value, persistent);
        Reconciled(old(View()), w, now, Landed(reports, |StartedIds(old(View()), w)|), View())
    {
      if listed.None? {
        return;
      }
      var wanted := CollectWanted(listed.value);
      ghost var s := View();
      var left := StopStale(wanted);
      ghost var swept := View();
      var toStart := ListToStart(left);
      AllStarted(s, wanted, swept, toStart, reports, now);
      Land(Batch(reports, 0));
      StartAll(wanted, toStart, reports, now);
      ReconciledIsValid(s, wanted, now, Landed(reports, |left|), View());
    }

    /** Shutdown under the lock: everything is cancelled and reported stopped. */
    method MarkAllStopped(now: int)
      modifies this
      ensures running == map[] && generation == old(generation) && kinds == old(kinds)
      ensures forall id, g :: (id, g) in cancelled <==>
        (id, g) in old(cancelled) || (id in old(running) && g == old(running)[id].generation)
      ensures forall id :: id in status <==> id in old(status) || id in old(running)
      ensures forall id :: id in status ==>
        status[id] == if id in old(running) then Status(Stopped, now, "") else old(status)[id]
    {
      var todo := running.Keys;
      while todo != {}
        invariant todo == running.Keys <= old(running).Keys
        invariant forall id :: id in running ==> running[id] == old(running)[id]
        invariant generation == old(generation) && kinds == old(kinds)
        invariant forall id, g :: (id, g) in cancelled <==>
          (id, g) in old(cancelled) || (id in old(running) && id !in todo && g == old(running)[id].generation)
        invariant forall id :: id in status <==> id in old(status) || (id in old(running) && id !in todo)
        invariant forall id :: id in status ==>
          status[id] == if id in old(running) && id !in todo then Status(Stopped, now, "") else old(status)[id]
        decreases |todo|
      {
        var id: nat :| id in todo;
        todo := todo - {id};
        cancelled := cancelled + {(id, running[id].generation)};
        running := running - {id};
        status := status[id := Status(Stopped, now, "")];
      }
    }

    /** Shutdown, with what the cancelled supervisors report while it waits for them. */
    method StopAll(reports: seq<Write>, now: int)
      modifies this
      ensures running == map[] && generation == old(generation) && kinds == old(kinds)
      ensures forall id, g :: (id, g) in cancelled <==>
        (id, g) in old(cancelled) || (id in old(running) && g == old(running)[id].generation)
      ensures forall id ::
        var before := if id in old(running) then Some(Status(Stopped, now, "")) else Get(old(status), id);
        Get(status, id) == Shown(before, Of(reports, id))
    {
      MarkAllStopped(now);
      ghost var marked := View();
      WritesOnlyReport(marked, reports);
      forall id ensures Get(Writes(marked, reports).status, id) == Shown(Get(marked.status, id), Of(reports, id)) {
        UnregisteredReports(marked, reports, id);
      }
      Land(reports);
    }
  }

  // ---- one pass over the running map, in any order --------------------------------------------

  /** Stopping one instance unless it runs as wanted. */
  function SweepOne(t: State, w: map<nat, Instance>, id: nat): State
    requires id in t.running
  {
    if Keeps(At(t, id), Get(w, id)) then t
    else
      t.(running := t.running - {id},
         cancelled := t.cancelled + {(id, t.running[id].generation)},
         kinds := if id in w then t.kinds else t.kinds - {id},
         status := if id in w then t.status else t.status - {id})
  }

  /** Everything but `todo` has been looked at. */
  ghost predicate HalfSwept(s: State, w: map<nat, Instance>, todo: set<nat>, t: State) {
    && t.generation == s.generation
    && (forall id :: At(t, id) == if id in todo then At(s, id) else Swept(At(s, id), Get(w, id)))
    && CancelsStale(s, w, todo, t)
  }

  /** What of `wanted` has not been found running as wanted. */
  function StillToStart(s: State, w: map<nat, Instance>, todo: set<nat>): set<nat> {
    StartedIds(s, w) + (w.Keys * todo)
  }

  lemma LeftAtFirst(s: State, w: map<nat, Instance>)
    ensures StillToStart(s, w, s.running.Keys) == w.Keys
  {
  }

  lemma LeftStep(s: State, w: map<nat, Instance>, todo: set<nat>, id: nat)
    requires id in todo
    ensures StillToStart(s, w, todo - {id}) ==
      if Keeps(At(s, id), Get(w, id)) then StillToStart(s, w, todo) - {id} else StillToStart(s, w, todo)
  {
  }

  lemma LeftAtLast(s: State, w: map<nat, Instance>)
    ensures StillToStart(s, w, {}) == StartedIds(s, w)
  {
  }

  lemma SweptSoFar(s: State, w: map<nat, Instance>, todo: set<nat>, t: State, id: nat)
    requires todo <= s.running.Keys && HalfSwept(s, w, todo, t) && id in todo
    ensures At(t, id) == At(s, id) && id in t.running && t.running[id] == s.running[id]
  {
    assert At(t, id) == At(s, id);
    assert At(s, id).managed.Some?;
  }

  lemma SweepOneAt(t: State, w: map<nat, Instance>, id: nat, id': nat)
    requires id in t.running
    ensures At(SweepOne(t, w, id), id') == if id' == id then Swept(At(t, id), Get(w, id)) else At(t, id')
  {
  }

  lemma SweepStep(s: State, w: map<nat, Instance>, todo: set<nat>, id: nat, t: State)
    requires todo <= s.running.Keys && id in todo && id in t.running && HalfSwept(s, w, todo, t)
    ensures HalfSwept(s, w, todo - {id}, SweepOne(t, w, id))
  {
    var t' := SweepOne(t, w, id);
    SweptSoFar(s, w, todo, t, id);
    forall id' ensures At(t', id') == if id' in todo - {id} then At(s, id') else Swept(At(s, id'), Get(w, id')) {
      SweepOneAt(t, w, id, id');
    }
    forall id', g ensures (id', g) in t'.cancelled <==>
      (id', g) in s.cancelled || (id' !in todo - {id} && Stops(At(s, id'), Get(w, id')) && s.running[id'].generation == g)
    {
      assert (id', g) in t.cancelled <==>
        (id', g) in s.cancelled || (id' !in todo && Stops(At(s, id'), Get(w, id')) && s.running[id'].generation == g);
    }
  }

  // ---- starting what is left, in any order -------------------------------------------------------

  function StartOne(t: State, inst: Instance, now: int): State {
    var running := t.running[inst.id := Managed(t.generation + 1, Fingerprint(inst))];
    var kinds := t.kinds[inst.id := inst.kind];
    SetStatusStep(State(running, t.status, kinds, t.generation + 1, t.cancelled),
                  Write(inst.id, t.generation + 1, Acquiring, "", now))
  }

  lemma StartOneAt(t: State, inst: Instance, now: int, id: nat)
    ensures var t' := StartOne(t, inst, now);
      if id == inst.id then
        && Get(t'.running, id) == Some(Managed(t.generation + 1, Fingerprint(inst))) && Get(t'.kinds, id) == Some(inst.kind)
        && Get(t'.status, id) == Some(Reported(Get(t.status, id), Write(id, t.generation + 1, Acquiring, "", now)))
      else At(t', id) == At(t, id)
    ensures StartOne(t, inst, now).generation == t.generation + 1
    ensures StartOne(t, inst, now).cancelled == t.cancelled
  {
  }

  /** Everything to be started but `left` has been, and the reports in `ws` have landed. */
  ghost predicate HalfStarted(s: State, w: map<nat, Instance>, now: int, left: set<nat>, ws: seq<Write>, t: State) {
    && left <= StartedIds(s, w)
    && t.generation + |left| == s.generation + |StartedIds(s, w)|
    && s.generation <= t.generation
    && (forall id :: Settled(s, w, left, t, id))
    && (forall id :: StatusIs(s, w, now, ws, t, id))
    && Distinct(t) && NoneAhead(ws, t.generation)
    && CancelsStale(s, w, {}, t)
  }

  lemma SweptStatus(s: State, w: map<nat, Instance>, now: int, t: State, id: nat)
    requires HalfSwept(s, w, {}, t)
    ensures StatusIs(s, w, now, [], t, id)
  {
    assert At(t, id) == Swept(At(s, id), Get(w, id));
    assert Get(t.running, id) == At(t, id).managed && Get(t.status, id) == At(t, id).status;
    assert Get(s.running, id) == At(s, id).managed;
  }

  lemma SweptIsHalfStarted(s: State, w: map<nat, Instance>, now: int, t: State)
    requires Distinct(s) && HalfSwept(s, w, {}, t)
    ensures HalfStarted(s, w, now, StartedIds(s, w), [], t)
  {
    forall id ensures Settled(s, w, StartedIds(s, w), t, id) {
      assert At(t, id) == Swept(At(s, id), Get(w, id));
    }
    forall id ensures StatusIs(s, w, now, [], t, id) {
      SweptStatus(s, w, now, t, id);
    }
    forall id | id in t.running ensures id in s.running && t.running[id] == s.running[id] {
      assert At(t, id) == Swept(At(s, id), Get(w, id));
      assert At(t, id).managed.Some?;
    }
  }

  lemma StartDistinct(t: State, inst: Instance, now: int)
    requires Distinct(t)
    ensures Distinct(StartOne(t, inst, now))
  {
    var t' := StartOne(t, inst, now);
    assert t'.running == t.running[inst.id := Managed(t.generation + 1, Fingerprint(inst))];
  }

  lemma StartSettles(s: State, w: map<nat, Instance>, left: set<nat>, id: nat, now: int, ws: seq<Write>, t: State, other: nat)
    requires HalfStarted(s, w, now, left, ws, t) && id in left && w[id].id == id
    ensures Settled(s, w, left - {id}, StartOne(t, w[id], now), other)
  {
    StartOneAt(t, w[id], now, other);
    assert Settled(s, w, left, t, other);
    var t' := StartOne(t, w[id], now);
    assert other != id ==> At(t', other).managed == At(t, other).managed && At(t', other).kind == At(t, other).kind;
  }

  lemma StartShows(before: Option<Status>, ws: seq<Write>, start: Write)
    ensures ShowsStart(before, ws, start, |ws|, Some(Reported(Shown(before, Of(ws, start.id)), start)))
  {
    assert ws[..|ws|] == ws && ws[|ws|..] == [];
    var own := Of(ws, start.id);
    assert own + [start] + [] == own + [start];
    ShownSnoc(before, own, start);
  }

  lemma StartStatus(s: State, w: map<nat, Instance>, left: set<nat>, id: nat, now: int, ws: seq<Write>, t: State, other: nat)
    requires Distinct(s) && HalfStarted(s, w, now, left, ws, t) && id in left && w[id].id == id
    ensures StatusIs(s, w, now, ws, StartOne(t, w[id], now), other)
  {
    var t' := StartOne(t, w[id], now);
    StartOneAt(t, w[id], now, other);
    assert StatusIs(s, w, now, ws, t, other);
    if other == id {
      assert Settled(s, w, left, t, id);
      assert Get(t.running, id).None?;
      StartShows(Swept(At(s, id), Get(w, id)).status, ws, Write(id, t.generation + 1, Acquiring, "", now));
      assert Get(t'.running, id) == Some(t'.running[id]);
      assert id in s.running ==> s.running[id].generation <= s.generation;
    } else {
      assert At(t', other).managed == At(t, other).managed && At(t', other).status == At(t, other).status;
    }
  }

  lemma StartStep(s: State, w: map<nat, Instance>, left: set<nat>, id: nat, now: int, ws: seq<Write>, t: State)
    requires Distinct(s) && HalfStarted(s, w, now, left, ws, t) && id in left && w[id].id == id
    ensures HalfStarted(s, w, now, left - {id}, ws, StartOne(t, w[id], now))
  {
    assert |left - {id}| == |left| - 1;
    StartOneAt(t, w[id], now, id);
    forall other ensures Settled(s, w, left - {id}, StartOne(t, w[id], now), other) {
      StartSettles(s, w, left, id, now, ws, t, other);
    }
    forall other ensures StatusIs(s, w, now, ws, StartOne(t, w[id], now), other) {
      StartStatus(s, w, left, id, now, ws, t, other);
    }
    StartDistinct(t, w[id], now);
  }

  // ---- reports landing ----------------------------------------------------------------------------

  lemma ReportAt(t: State, x: Write, id: nat)
    ensures var t' := SetStatusStep(t, x);
      && t'.running == t.running && t'.kinds == t.kinds && t'.generation == t.generation && t'.cancelled == t.cancelled
      && Get(t'.status, id) ==
         if id == x.id && (id in t.running ==> t.running[id].generation == x.generation)
         then Some(Reported(Get(t.status, id), x)) else Get(t.status, id)
  {
  }

  lemma BySnoc(ws: seq<Write>, x: Write, id: nat, g: nat)
    ensures By(ws + [x], id, g) == if x.id == id && x.generation == g then By(ws, id, g) + [x] else By(ws, id, g)
  {
    assert (ws + [x])[..|ws|] == ws;
    assert By(ws, id, g) + [] == By(ws, id, g);
  }

  lemma OfSnoc(ws: seq<Write>, x: Write, id: nat)
    ensures Of(ws + [x], id) == if x.id == id then Of(ws, id) + [x] else Of(ws, id)
  {
    assert (ws + [x])[..|ws|] == ws;
    assert Of(ws, id) + [] == Of(ws, id);
  }

  lemma ShownSnoc(before: Option<Status>, own: seq<Write>, x: Write)
    ensures Shown(before, own + [x]) == Some(Reported(Shown(before, own), x))
  {
    assert (own + [x])[..|own|] == own;
  }

  lemma ReportAfterStart(before: Option<Status>, ws: seq<Write>, start: Write, k: nat, status: Option<Status>, x: Write)
    requires ShowsStart(before, ws, start, k, status)
    ensures ShowsStart(before, ws + [x], start, k,
      if x.id == start.id && x.generation == start.generation then Some(Reported(status, x)) else status)
  {
    assert (ws + [x])[..k] == ws[..k] && (ws + [x])[k..] == ws[k..] + [x];
    BySnoc(ws[k..], x, start.id, start.generation);
    var head, own := Of(ws[..k], start.id) + [start], By(ws[k..], start.id, start.generation);
    assert head + (own + [x]) == head + own + [x];
    ShownSnoc(before, head + own, x);
  }

  lemma ReportKeepsStatus(s: State, w: map<nat, Instance>, now: int, ws: seq<Write>, t: State, x: Write, id: nat)
    requires StatusIs(s, w, now, ws, t, id)
    ensures StatusIs(s, w, now, ws + [x], SetStatusStep(t, x), id)
  {
    ReportAt(t, x, id);
    var before := Swept(At(s, id), Get(w, id)).status;
    if id !in t.running {
      OfSnoc(ws, x, id);
      ShownSnoc(before, Of(ws, id), x);
    } else {
      var g := t.running[id].generation;
      if id in s.running && s.running[id].generation == g {
        BySnoc(ws, x, id, g);
        ShownSnoc(before, By(ws, id, g), x);
      } else {
        var start := Write(id, g, Acquiring, "", now);
        var k: nat :| ShowsStart(before, ws, start, k, Get(t.status, id));
        ReportAfterStart(before, ws, start, k, Get(t.status, id), x);
      }
    }
  }

  lemma ReportKeeps(s: State, w: map<nat, Instance>, now: int, left: set<nat>, ws: seq<Write>, x: Write, t: State)
    requires HalfStarted(s, w, now, left, ws, t) && x.generation <= t.generation
    ensures HalfStarted(s, w, now, left, ws + [x], SetStatusStep(t, x))
  {
    ReportAt(t, x, x.id);
    forall id ensures Settled(s, w, left, SetStatusStep(t, x), id) {
      assert Settled(s, w, left, t, id);
    }
    forall id ensures StatusIs(s, w, now, ws + [x], SetStatusStep(t, x), id) {
      ReportKeepsStatus(s, w, now, ws, t, x, id);
    }
  }

  lemma {:induction false} LandKeeps(
    s: State, w: map<nat, Instance>, now: int, left: set<nat>, ws: seq<Write>, more: seq<Write>, t: State)
    requires HalfStarted(s, w, now, left, ws, t) && NoneAhead(more, t.generation)
    ensures HalfStarted(s, w, now, left, ws + more, Writes(t, more)) && Writes(t, more).cancelled == t.cancelled
    ensures Writes(t, more).generation == t.generation
  {
    if more == [] {
      assert ws + more == ws;
    } else {
      var init, x := more[..|more| - 1], more[|more| - 1];
      assert more == init + [x];
      LandKeeps(s, w, now, left, ws, init, t);
      ReportKeeps(s, w, now, left, ws + init, x, Writes(t, init));
      ReportAt(Writes(t, init), x, x.id);
      assert ws + init + [x] == ws + more;
    }
  }

  lemma StartAndLand(
    s: State, w: map<nat, Instance>, left: set<nat>, id: nat, now: int, ws: seq<Write>, batch: seq<Write>, t: State)
    requires Distinct(s) && HalfStarted(s, w, now, left, ws, t) && id in left && w[id].id == id
    requires NoneAhead(batch, t.generation + 1)
    ensures HalfStarted(s, w, now, left - {id}, ws + batch, Writes(StartOne(t, w[id], now), batch))
    ensures Writes(StartOne(t, w[id], now), batch).generation == t.generation + 1
  {
    StartStep(s, w, left, id, now, ws, t);
    StartOneAt(t, w[id], now, id);
    LandKeeps(s, w, now, left - {id}, ws, batch, StartOne(t, w[id], now));
  }

  /** Starting the listed instances one by one, with reports landing after each. */
  function Started(t: State, w: map<nat, Instance>, ids: seq<nat>, reports: seq<seq<Write>>, now: int): State
    requires forall id :: id in ids ==> id in w
  {
    if ids == [] then t
    else
      var init, last := ids[..|ids| - 1], ids[|ids| - 1];
      Writes(StartOne(Started(t, w, init, reports, now), w[last], now), Batch(reports, |ids|))
  }

  function Less(left: set<nat>, ids: seq<nat>): set<nat> {
    if ids == [] then left else Less(left, ids[..|ids| - 1]) - {ids[|ids| - 1]}
  }

  /** Each of `ids` is taken from what its predecessors leave. */
  predicate Ordering(left: set<nat>, ids: seq<nat>) {
    ids == [] ||
    (Ordering(left, ids[..|ids| - 1]) && ids[|ids| - 1] in Less(left, ids[..|ids| - 1]))
  }

  lemma {:induction false} OrderingWithin(left: set<nat>, ids: seq<nat>)
    requires Ordering(left, ids)
    ensures Less(left, ids) <= left && forall id :: id in ids ==> id in left
    ensures |Less(left, ids)| + |ids| == |left|
  {
    if ids != [] {
      OrderingWithin(left, ids[..|ids| - 1]);
    }
  }

  lemma {:induction false} StartedSoFar(
    s: State, w: map<nat, Instance>, t: State, ids: seq<nat>, reports: seq<seq<Write>>, now: int)
    requires Distinct(s) && HalfStarted(s, w, now, StartedIds(s, w), Landed(reports, 0), t)
    requires t.generation == s.generation && Causal(reports, s.generation)
    requires (forall id :: id in w ==> w[id].id == id) && Ordering(StartedIds(s, w), ids)
    ensures forall id :: id in ids ==> id in w
    ensures Started(t, w, ids, reports, now).generation == s.generation + |ids|
    ensures HalfStarted(
      s, w, now, Less(StartedIds(s, w), ids), Landed(reports, |ids|), Started(t, w, ids, reports, now))
  {
    OrderingWithin(StartedIds(s, w), ids);
    if ids != [] {
      var init, last := ids[..|ids| - 1], ids[|ids| - 1];
      StartedSoFar(s, w, t, init, reports, now);
      OrderingWithin(StartedIds(s, w), init);
      assert NoneAhead(Batch(reports, |ids|), s.generation + |ids|);
      StartAndLand(s, w, Less(StartedIds(s, w), init), last, now, Landed(reports, |init|), Batch(reports, |ids|),
                   Started(t, w, init, reports, now));
    }
  }

  lemma AllStarted(
    s: State, w: map<nat, Instance>, swept: State, ids: seq<nat>, reports: seq<seq<Write>>, now: int)
    requires Distinct(s) && HalfSwept(s, w, {}, swept) && Causal(reports, s.generation)
    requires forall id :: id in w ==> w[id].id == id
    requires Ordering(StartedIds(s, w), ids) && Less(StartedIds(s, w), ids) == {}
    ensures forall id :: id in ids ==> id in w
    ensures HalfStarted(
      s, w, now, {}, Landed(reports, |StartedIds(s, w)|), Started(Writes(swept, Batch(reports, 0)), w, ids, reports, now))
  {
    SweptIsHalfStarted(s, w, now, swept);
    assert NoneAhead(Batch(reports, 0), s.generation + 0);
    LandKeeps(s, w, now, StartedIds(s, w), [], Batch(reports, 0), swept);
    assert [] + Batch(reports, 0) == Landed(reports, 0);
    StartedSoFar(s, w, Writes(swept, Batch(reports, 0)), ids, reports, now);
    OrderingWithin(StartedIds(s, w), ids);
  }

  lemma ReconciledIsValid(s: State, w: map<nat, Instance>, now: int, ws: seq<Write>, t: State)
    requires Valid(s) && HalfStarted(s, w, now, {}, ws, t)
    ensures Valid(t) && Reconciled(s, w, now, ws, t)
  {
    forall id | id in t.running ensures (id, t.running[id].generation) !in t.cancelled {
      assert Settled(s, w, {}, t, id);
      assert Get(t.running, id) == Some(t.running[id]);
      if !(id in w && Starts(At(s, id), Get(w, id))) {
        assert At(s, id).managed.Some? && s.running[id] == t.running[id];
        assert !Stops(At(s, id), Get(w, id));
      }
    }
    forall id, g | (id, g) in t.cancelled ensures g <= t.generation {
      assert (id, g) in s.cancelled || s.running[id].generation == g;
    }
  }

  // ---- what follows ---------------------------------------------------------------------------

  /** After a reconcile exactly the wanted instances run, each with its current config; one that
      ran with it before keeps its supervisor, and every other gets a generation never used. */
  lemma RunsWhatIsWanted(s: State, w: map<nat, Instance>, now: int, ws: seq<Write>, t: State)
    requires Reconciled(s, w, now, ws, t)
    ensures t.running.Keys == w.Keys
    ensures forall id :: id in w ==> t.running[id].fingerprint == Fingerprint(w[id])
    ensures forall id :: id in w ==>
      if Keeps(At(s, id), Get(w, id)) then t.running[id] == s.running[id]
      else s.generation < t.running[id].generation <= t.generation
  {
    forall id ensures id in t.running <==> id in w {
      assert Settled(s, w, {}, t, id);
      assert id in t.running <==> Get(t.running, id).Some?;
    }
    forall id | id in w
      ensures t.running[id].fingerprint == Fingerprint(w[id])
      ensures if Keeps(At(s, id), Get(w, id)) then t.running[id] == s.running[id]
              else s.generation < t.running[id].generation <= t.generation
    {
      assert Settled(s, w, {}, t, id);
      assert Get(t.running, id) == Some(t.running[id]);
    }
  }

  lemma NothingLeftToDo(s: State, w: map<nat, Instance>, now: int, ws: seq<Write>, t: State)
    requires Reconciled(s, w, now, ws, t)
    ensures StartedIds(t, w) == {} && forall id :: Swept(At(t, id), Get(w, id)) == At(t, id)
    ensures forall id :: !Stops(At(t, id), Get(w, id))
  {
    RunsWhatIsWanted(s, w, now, ws, t);
    forall id ensures !Stops(At(t, id), Get(w, id)) && !(id in w && Starts(At(t, id), Get(w, id))) {
      assert id in w ==> Keeps(At(t, id), Get(w, id));
    }
  }

  lemma NothingIsDone(s: State, w: map<nat, Instance>, now: int, ws: seq<Write>, t: State)
    requires StartedIds(s, w) == {} && (forall id :: !Stops(At(s, id), Get(w, id)))
    requires Reconciled(s, w, now, ws, t)
    ensures t == s.(status := t.status)
  {
    forall id ensures Get(t.running, id) == Get(s.running, id) && Get(t.kinds, id) == Get(s.kinds, id) {
      assert Settled(s, w, {}, t, id);
      assert id !in StartedIds(s, w);
      assert Swept(At(s, id), Get(w, id)) == At(s, id);
    }
    SameMap(s.running, t.running);
    SameMap(s.kinds, t.kinds);
    forall c: (nat, nat) ensures c in t.cancelled <==> c in s.cancelled {
      assert c == (c.0, c.1);
    }
    assert t.cancelled == s.cancelled;
  }

  /** A second reconcile against the same list stops and starts nothing and spends no generation:
      only what supervisors report meanwhile can change, and if none does, nothing at all. */
  lemma SecondReconcileIsANoOp(
    s: State, w: map<nat, Instance>, now1: int, ws1: seq<Write>, s1: State, now2: int, ws2: seq<Write>, s2: State)
    requires Reconciled(s, w, now1, ws1, s1) && Reconciled(s1, w, now2, ws2, s2)
    ensures s2 == s1.(status := s2.status)
    ensures forall id :: id in s1.running ==>
      Get(s2.status, id) == Shown(Get(s1.status, id), By(ws2, id, s1.running[id].generation))
    ensures ws2 == [] ==> s2 == s1
  {
    NothingLeftToDo(s, w, now1, ws1, s1);
    NothingIsDone(s1, w, now2, ws2, s2);
    forall id | id in s1.running
      ensures Get(s2.status, id) == Shown(Get(s1.status, id), By(ws2, id, s1.running[id].generation))
    {
      assert StatusIs(s1, w, now2, ws2, s2, id);
    }
    if ws2 == [] {
      forall id ensures Get(s2.status, id) == Get(s1.status, id) {
        assert StatusIs(s1, w, now2, ws2, s2, id);
      }
      SameMap(s1.status, s2.status);
    }
  }

  lemma SameMap<V>(m: map<nat, V>, m': map<nat, V>)
    requires forall id :: Get(m', id) == Get(m, id)
    ensures m == m'
  {
    forall id ensures id in m <==> id in m' {
      assert Get(m', id) == Get(m, id);
    }
    forall id | id in m ensures m[id] == m'[id] {
      assert Get(m', id) == Get(m, id);
    }
  }

  /** No supervisor outlives a reconcile that does not want it as it is: whatever generation ran
      for an instance before either still does, with the wanted config, or has been cancelled. */
  lemma StaleIsCancelled(s: State, w: map<nat, Instance>, now: int, ws: seq<Write>, t: State, id: nat)
    requires Valid(s) && Reconciled(s, w, now, ws, t) && id in s.running
    ensures (id, s.running[id].generation) in t.cancelled <==> !Keeps(At(s, id), Get(w, id))
    ensures (id, s.running[id].generation) in t.cancelled <==>
      !(id in t.running && t.running[id].generation == s.running[id].generation)
  {
    RunsWhatIsWanted(s, w, now, ws, t);
  }

  lemma {:induction false} WritesOnlyReport(s: State, ws: seq<Write>)
    ensures Writes(s, ws) == s.(status := Writes(s, ws).status)
  {
    if ws != [] {
      WritesOnlyReport(s, ws[..|ws| - 1]);
    }
  }

  /** However the reports of superseded supervisors are interleaved, what is shown for an instance is
      what the registered supervisor's own reports, alone, leave. */
  lemma {:induction false} OnlyTheRegisteredGenerationReports(s: State, ws: seq<Write>, id: nat)
    requires id in s.running
    ensures Get(Writes(s, ws).status, id) == Shown(Get(s.status, id), By(ws, id, s.running[id].generation))
  {
    if ws != [] {
      var init, x, g := ws[..|ws| - 1], ws[|ws| - 1], s.running[id].generation;
      OnlyTheRegisteredGenerationReports(s, init, id);
      WritesOnlyReport(s, init);
      ReportAt(Writes(s, init), x, id);
      BySnoc(init, x, id, g);
      assert ws == init + [x];
      ShownSnoc(Get(s.status, id), By(init, id, g), x);
    }
  }

  lemma UnregisteredReport(before: Option<Status>, t: State, ws: seq<Write>, x: Write, id: nat)
    requires id !in t.running && Get(t.status, id) == Shown(before, Of(ws, id))
    ensures Get(SetStatusStep(t, x).status, id) == Shown(before, Of(ws + [x], id))
  {
    ReportAt(t, x, id);
    OfSnoc(ws, x, id);
    ShownSnoc(before, Of(ws, id), x);
  }

  /** Nobody registered: whoever still reports for the instance is shown. */
  lemma {:induction false} UnregisteredReports(s: State, ws: seq<Write>, id: nat)
    requires id !in s.running
    ensures Get(Writes(s, ws).status, id) == Shown(Get(s.status, id), Of(ws, id))
  {
    if ws != [] {
      var init, x := ws[..|ws| - 1], ws[|ws| - 1];
      UnregisteredReports(s, init, id);
      WritesOnlyReport(s, init);
      UnregisteredReport(Get(s.status, id), Writes(s, init), init, x, id);
      assert ws == init + [x];
    }
  }

  // ---- backoff ------------------------------------------------------------------------------------

  const ACQUIRE_BACKOFF_MIN := 5
  const ACQUIRE_BACKOFF_MAX := 60

  function NextBackoff(current: int): int {
    if current * 2 > ACQUIRE_BACKOFF_MAX then ACQUIRE_BACKOFF_MAX else current * 2
  }

  /** The backoff after a sequence of runs, `true` for one that lasted long enough to count. */
  function BackoffAfter(runs: seq<bool>): (b: int)
    ensures ACQUIRE_BACKOFF_MIN <= b <= ACQUIRE_BACKOFF_MAX
  {
    if runs == [] || runs[|runs| - 1] then ACQUIRE_BACKOFF_MIN
    else NextBackoff(BackoffAfter(runs[..|runs| - 1]))
  }

  /** Four failures in a row reach the cap, and nothing but a healthy run leaves it. */
  lemma {:induction false} FailuresReachTheCap(runs: seq<bool>, k: nat)
    requires 4 <= k <= |runs| && forall i :: |runs| - k <= i < |runs| ==> !runs[i]
    ensures BackoffAfter(runs) == ACQUIRE_BACKOFF_MAX
    decreases |runs|
  {
    var r1 := runs[..|runs| - 1];
    if k > 4 {
      FailuresReachTheCap(r1, k - 1);
    } else {
      var r2 := r1[..|r1| - 1];
      var r3 := r2[..|r2| - 1];
      assert !runs[|runs| - 1] && !r1[|r1| - 1] && !r2[|r2| - 1] && !r3[|r3| - 1];
      assert BackoffAfter(r3) >= 10 && BackoffAfter(r2) >= 20 && BackoffAfter(r1) >= 40;
    }
  }
}
