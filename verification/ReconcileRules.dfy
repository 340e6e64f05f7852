/**
 What a reconcile comes to for one connector (backend/internal/connector/manager.go, `reconcileOnce`,
 `setStatus` and `nextBackoff`), in the terms of the rows that are listed and of the reports that are
 made.
 */
module ReconcileRules {
  import opened Reconcile
  import opened Wrappers

  // ---- which rows count ---------------------------------------------------------------------------

  /** What is wanted of an id is the last row listed for it, if its kind is a persistent one. */
  lemma {:induction false} LastRowCounts(listed: seq<Instance>, persistent: set<string>, i: nat)
    requires i < |listed| && listed[i].kind in persistent
    requires forall j :: i < j < |listed| && listed[j].kind in persistent ==> listed[j].id != listed[i].id
    ensures listed[i].id in Wanted(listed, persistent) && Wanted(listed, persistent)[listed[i].id] == listed[i]
  {
    if i < |listed| - 1 {
      LastRowCounts(listed[..|listed| - 1], persistent, i);
      assert listed[|listed| - 1].kind in persistent ==> listed[|listed| - 1].id != listed[i].id;
    }
  }

  /** And nothing else is wanted. */
  lemma OnlyListedRowsCount(listed: seq<Instance>, persistent: set<string>, id: nat)
    requires id in Wanted(listed, persistent)
    ensures exists i :: 0 <= i < |listed| && listed[i].id == id && listed[i].kind in persistent
  {
    var row := Wanted(listed, persistent)[id];
    var i :| 0 <= i < |listed| && listed[i] == row;
  }

  // ---- restarts -------------------------------------------------------------------------------------

  /** From one reconcile to the next an instance that is wanted by both keeps its supervisor exactly if
      neither its name nor its config was edited. */
  lemma RestartsExactlyOnEdits(
    s: State, w1: map<nat, Instance>, now1: int, ws1: seq<Write>, t: State,
    w2: map<nat, Instance>, now2: int, ws2: seq<Write>, u: State, id: nat)
    requires Reconciled(s, w1, now1, ws1, t) && Reconciled(t, w2, now2, ws2, u)
    requires id in w1 && id in w2 && '\0' !in w1[id].name && '\0' !in w2[id].name
    ensures id in t.running && id in u.running
    ensures u.running[id].generation == t.running[id].generation <==>
      w1[id].name == w2[id].name && w1[id].config == w2[id].config
  {
    RunsWhatIsWanted(s, w1, now1, ws1, t);
    RunsWhatIsWanted(t, w2, now2, ws2, u);
    FingerprintShowsEdits(w1[id], w2[id]);
    assert Distinct(t);
  }

  /** An instance that is not wanted any more is not running, its kind is forgotten, and whatever is
      shown for it has been reported since; one that never ran keeps what was there. */
  lemma UnwantedIsForgotten(
    s: State, w: map<nat, Instance>, now: int, ws: seq<Write>, t: State, id: nat)
    requires Reconciled(s, w, now, ws, t) && id !in w
    ensures id !in t.running
    ensures id in s.running ==> id !in t.kinds && (id in t.status <==> exists x :: x in ws && x.id == id)
    ensures id !in s.running ==> (id in t.kinds <==> id in s.kinds) && (id in s.status ==> id in t.status)
  {
    RunsWhatIsWanted(s, w, now, ws, t);
    assert Settled(s, w, {}, t, id) && StatusIs(s, w, now, ws, t, id);
    assert Get(t.kinds, id).Some? <==> id in t.kinds;
    assert Get(t.status, id).Some? <==> id in t.status;
    assert Get(s.status, id).Some? <==> id in s.status;
    OfIsTheirs(ws, id);
    ShownIfAny(if id in s.running then None else Get(s.status, id), Of(ws, id));
  }

  /** One that is restarted has the kind of its row, and one that is kept the kind it had. */
  lemma KindsAreThoseStarted(
    s: State, w: map<nat, Instance>, now: int, ws: seq<Write>, t: State, id: nat)
    requires Reconciled(s, w, now, ws, t) && id in w && Valid(s)
    ensures id in t.running
    ensures !(id in s.running && s.running[id].generation == t.running[id].generation) ==>
      id in t.kinds && t.kinds[id] == w[id].kind
    ensures id in s.running && s.running[id].generation == t.running[id].generation ==>
      Get(t.kinds, id) == Get(s.kinds, id)
  {
    RunsWhatIsWanted(s, w, now, ws, t);
    assert Settled(s, w, {}, t, id);
    assert Get(t.kinds, id).Some? <==> id in t.kinds;
  }

  lemma {:induction false} OfIsTheirs(ws: seq<Write>, id: nat)
    ensures Of(ws, id) != [] <==> exists x :: x in ws && x.id == id
    ensures forall x :: x in Of(ws, id) ==> x.id == id
  {
    if ws != [] {
      var init, last := ws[..|ws| - 1], ws[|ws| - 1];
      assert ws == init + [last];
      OfIsTheirs(init, id);
      if last.id == id {
        assert last in ws;
      }
    }
  }

  lemma {:induction false} ShownIfAny(before: Option<Status>, own: seq<Write>)
    ensures Shown(before, own).Some? <==> before.Some? || own != []
  {
  }

  // ---- since when ---------------------------------------------------------------------------------

  predicate Showing(status: Option<Status>, state: Report) {
    status.Some? && status.value.state == state
  }

  /** What is shown is the last report's state and error. */
  lemma LastReportShows(before: Option<Status>, own: seq<Write>)
    requires own != []
    ensures var shown, last := Shown(before, own), own[|own| - 1];
      Showing(shown, last.state) && shown.value.lastError == last.lastError
  {
  }

  /** Since means since the first report of the unbroken stretch of reports of the state shown. */
  lemma {:induction false} SinceTheStretchBegan(before: Option<Status>, a: seq<Write>, b: seq<Write>, state: Report)
    requires b != [] && (forall x :: x in b ==> x.state == state) && !Showing(Shown(before, a), state)
    ensures Showing(Shown(before, a + b), state) && Shown(before, a + b).value.since == b[0].now
  {
    var init, last := b[..|b| - 1], b[|b| - 1];
    assert (a + b)[..|a + b| - 1] == a + init && (a + b)[|a + b| - 1] == last;
    assert last in b;
    if init == [] {
      assert a + init == a;
    } else {
      SinceTheStretchBegan(before, a, init, state);
    }
  }

  /** A state that was shown already goes on since it began. */
  lemma {:induction false} SinceGoesOn(before: Option<Status>, b: seq<Write>, state: Report)
    requires Showing(before, state) && forall x :: x in b ==> x.state == state
    ensures Showing(Shown(before, b), state) && Shown(before, b).value.since == before.value.since
  {
    if b != [] {
      assert b[|b| - 1] in b;
      SinceGoesOn(before, b[..|b| - 1], state);
    }
  }

  // ---- backoff --------------------------------------------------------------------------------------

  /** The backoff after a run that lasted and so many failures since: 5, 10, 20, 40 and then 60
      seconds. */
  lemma BackoffDoubles(runs: seq<bool>, failures: nat)
    requires failures <= |runs| && (failures < |runs| ==> runs[|runs| - failures - 1])
    requires forall i :: |runs| - failures <= i < |runs| ==> !runs[i]
    ensures BackoffAfter(runs) ==
      if failures == 0 then 5 else if failures == 1 then 10 else if failures == 2 then 20
      else if failures == 3 then 40 else 60
  {
    if failures > 0 {
      BackoffDoubles(runs[..|runs| - 1], failures - 1);
    }
  }
}
