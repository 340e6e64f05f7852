/**
 From a published torrent to delivery rows: which connectors are told, which are withheld, and
 which get a drain (backend/internal/listener/connector_dispatch.go and
 backend/internal/connector/filters.go). The database, the category tree and the queue are what an
 event finds them to be; each may fail.
 */
module Dispatch {
  import opened Wrappers

  datatype Announcement = Announcement(
    event: string, torrent: int, category: int, path: seq<int>, size: int, freeleech: bool, anonymous: bool)

  datatype Mode = Include | Exclude

  datatype Filters = Filters(
    events: seq<string>, categories: seq<int>, mode: Mode, minSize: int, freeleechOnly: bool, excludeAnonymous: bool)

  /** The stored filters: nothing, text that does not decode, or fields yet to be checked. */
  datatype RawFilters = Blank | Undecodable | Decoded(f: Filters, mode: string)

  const NO_FILTERS := Filters([], [], Include, 0, false, false)

  /** An unknown mode is refused rather than read as "include". */
  function ParseFilters(raw: RawFilters): Option<Filters> {
    match raw
    case Blank => Some(NO_FILTERS)
    case Undecodable => None
    case Decoded(f, mode) =>
      if f.minSize < 0 then None
      else if mode == "" || mode == "include" then Some(f.(mode := Include))
      else if mode == "exclude" then Some(f.(mode := Exclude))
      else None
  }

  /** The ancestor path when there is one, the leaf alone otherwise. */
  function CategoryChain(a: Announcement): seq<int> {
    if a.path != [] then a.path else [a.category]
  }

  predicate Listed(f: Filters, chain: seq<int>) {
    exists i :: 0 <= i < |chain| && chain[i] in f.categories
  }

  predicate CategoryMatches(f: Filters, a: Announcement) {
    f.categories == [] || (Listed(f, CategoryChain(a)) <==> f.mode.Include?)
  }

  predicate Matches(f: Filters, a: Announcement) {
    && (f.events != [] ==> a.event in f.events)
    && CategoryMatches(f, a)
    && (f.minSize > 0 ==> a.size >= f.minSize)
    && (f.freeleechOnly ==> a.freeleech)
    && (f.excludeAnonymous ==> !a.anonymous)
  }

  predicate ExcludesCategories(f: Filters) {
    f.mode.Exclude? && f.categories != []
  }

  // ---- delivery rows -----------------------------------------------------------------------------

  function Digits(n: nat): (s: string)
    ensures s != "" && forall i :: 0 <= i < |s| ==> '0' <= s[i] <= '9'
  {
    (if n < 10 then "" else Digits(n / 10)) + [('0' as int + n % 10) as char]
  }

  function Decimal(n: int): (s: string)
    ensures s != "" && ':' !in s
  {
    if n < 0 then "-" + Digits(-n) else Digits(n)
  }

  datatype Status = Pending | Withheld

  datatype Row = Row(instance: int, key: string, status: Status, payload: Announcement)

  datatype State = State(rows: seq<Row>, drains: seq<int>)

  datatype Instance = Instance(id: int, raw: RawFilters)

  datatype Target = Target(id: int, filters: Filters)

  type Resolver = int -> Option<seq<int>>

  /** What one event finds: the site's switch, the enabled connectors or no list of them, the
      category resolver if one is configured, the instances whose insert fails, and whether there
      is a queue to enqueue to. */
  datatype World = World(
    switchedOn: bool, enabled: Option<seq<Instance>>, resolver: Option<Resolver>, insertFails: set<int>, queue: bool)

  function KeyOf(a: Announcement): string {
    a.event + ":" + Decimal(a.torrent)
  }

  lemma LastDigit(n: nat)
    ensures var s := Digits(n); s[|s| - 1] as int - '0' as int == n % 10
    ensures var s := Digits(n); s[..|s| - 1] == if n < 10 then "" else Digits(n / 10)
  {
  }

  lemma {:induction false} DigitsTell(m: nat, n: nat)
    requires Digits(m) == Digits(n)
    ensures m == n
  {
    LastDigit(m);
    LastDigit(n);
    if m >= 10 && n >= 10 {
      DigitsTell(m / 10, n / 10);
    }
  }

  lemma SignShows(n: int)
    ensures n < 0 <==> Decimal(n)[0] == '-'
    ensures n < 0 ==> Decimal(n)[1..] == Digits(-n)
  {
  }

  lemma DecimalTells(m: int, n: int)
    requires Decimal(m) == Decimal(n)
    ensures m == n
  {
    SignShows(m);
    SignShows(n);
    if m < 0 {
      DigitsTell(-m, -n);
    } else {
      DigitsTell(m, n);
    }
  }

  lemma LastColon(a: string, b: string, x: string, y: string)
    requires a + ":" + x == b + ":" + y && ':' !in x && ':' !in y
    ensures a == b && x == y
  {
    var s, t := a + ":" + x, b + ":" + y;
    assert s[|a|] == ':' && t[|b|] == ':';
    forall i | |a| < i < |s| ensures s[i] != ':' {
      assert s[i] == x[i - |a| - 1];
    }
    forall i | |b| < i < |t| ensures t[i] != ':' {
      assert t[i] == y[i - |b| - 1];
    }
    assert a == s[..|a|] && b == t[..|b|];
    assert x == s[|a| + 1..] && y == t[|b| + 1..];
  }

  /** Two announcements share a key exactly if they are the same event of the same torrent, whatever
      the event's name. */
  lemma KeyTellsEvents(a: Announcement, b: Announcement)
    ensures KeyOf(a) == KeyOf(b) <==> a.event == b.event && a.torrent == b.torrent
  {
    if KeyOf(a) == KeyOf(b) {
      LastColon(a.event, b.event, Decimal(a.torrent), Decimal(b.torrent));
      DecimalTells(a.torrent, b.torrent);
    }
  }

  predicate Recorded(rows: seq<Row>, instance: int, key: string) {
    exists i :: 0 <= i < |rows| && rows[i].instance == instance && rows[i].key == key
  }

  /** InsertPending against the unique index on instance and key. */
  function Insert(rows: seq<Row>, row: Row, fails: bool): (seq<Row>, bool) {
    if fails || Recorded(rows, row.instance, row.key) then (rows, false) else (rows + [row], true)
  }

  function Targets(instances: seq<Instance>): seq<Target> {
    if instances == [] then []
    else
      var last := instances[|instances| - 1];
      Targets(instances[..|instances| - 1])
      + match ParseFilters(last.raw)
        case None => []
        case Some(f) => [Target(last.id, f)]
  }

  /** The announcement with its chain, and whether the chain is known. A leaf that is no category
      needs none. */
  function Resolve(w: World, a: Announcement): (Announcement, bool) {
    if a.category <= 0 then (a, true)
    else if w.resolver.None? then (a, false)
    else match w.resolver.value(a.category)
      case None => (a, false)
      case Some(path) => (a.(path := path), true)
  }

  datatype Verdict = Hold | Skip | Announce

  function Judge(f: Filters, a: Announcement, known: bool): Verdict {
    if !known && ExcludesCategories(f) then Hold
    else if !Matches(f, a) then Skip
    else Announce
  }

  function HandleTarget(s: State, w: World, a: Announcement, known: bool, t: Target): State {
    match Judge(t.filters, a, known)
    case Hold =>
      s.(rows := Insert(s.rows, Row(t.id, KeyOf(a), Withheld, a), t.id in w.insertFails).0)
    case Skip => s
    case Announce =>
      var (rows, inserted) := Insert(s.rows, Row(t.id, KeyOf(a), Pending, a), t.id in w.insertFails);
      State(rows, if inserted && w.queue then s.drains + [t.id] else s.drains)
  }

  function HandleAll(s: State, w: World, a: Announcement, known: bool, targets: seq<Target>): State {
    if targets == [] then s
    else HandleTarget(HandleAll(s, w, a, known, targets[..|targets| - 1]), w, a, known, targets[|targets| - 1])
  }

  function OnPublished(s: State, w: World, a: Announcement): State {
    if !w.switchedOn || w.enabled.None? then s
    else
      var (b, known) := Resolve(w, a);
      HandleAll(s, w, b, known, Targets(w.enabled.value))
  }

  class Dispatcher {
    var rows: seq<Row>
    var drains: seq<int>

    function View(): State
      reads this
    {
      State(rows, drains)
    }

    constructor ()
      ensures View() == State([], [])
    {
      rows, drains := [], [];
    }

    /** True if a row was added; a failed insert and a duplicate both leave the table as it is. */
    method InsertPending(row: Row, fails: bool) returns (inserted: bool)
      modifies this`rows
      ensures (rows, inserted) == Insert(old(rows), row, fails)
    {
      inserted := !fails && !Recorded(rows, row.instance, row.key);
      if inserted {
        rows := rows + [row];
      }
    }

    method Announce(w: World, a: Announcement, known: bool, t: Target)
      modifies this
      ensures View() == HandleTarget(old(View()), w, a, known, t)
    {
      if !known && t.filters.mode.Exclude? && |t.filters.categories| > 0 {
        var _ := InsertPending(Row(t.id, KeyOf(a), Withheld, a), t.id in w.insertFails);
        return;
      }
      if !Matches(t.filters, a) {
        return;
      }
      var inserted := InsertPending(Row(t.id, KeyOf(a), Pending, a), t.id in w.insertFails);
      if inserted && w.queue {
        drains := drains + [t.id];
      }
    }

    /** The TorrentPublished handler. */
    method HandlePublished(w: World, a: Announcement)
      modifies this
      ensures View() == OnPublished(old(View()), w, a)
    {
      if !w.switchedOn || w.enabled.None? {
        return;
      }
      var instances := w.enabled.value;
      var targets: seq<Target> := [];
      for i := 0 to |instances|
        invariant targets == Targets(instances[..i]) && View() == old(View())
      {
        assert instances[..i + 1][..i] == instances[..i];
        var parsed := ParseFilters(instances[i].raw);
        if parsed.None? {
          continue;
        }
        targets := targets + [Target(instances[i].id, parsed.value)];
      }
      assert instances[..|instances|] == instances;
      if |targets| == 0 {
        return;
      }
      var announcement, known := a, true;
      if a.category > 0 {
        if w.resolver.None? {
          known := false;
        } else {
          var path := w.resolver.value(a.category);
          if path.None? {
            known := false;
          } else {
            announcement := announcement.(path := path.value);
          }
        }
      }
      for i := 0 to |targets|
        invariant View() == HandleAll(old(View()), w, announcement, known, targets[..i])
      {
        assert targets[..i + 1][..i] == targets[..i];
        Announce(w, announcement, known, targets[i]);
      }
      assert targets[..|targets|] == targets;
    }
  }

  // ---- a run of events -----------------------------------------------------------------------------

  datatype Published = Published(w: World, a: Announcement)

  function Exec(run: seq<Published>): State {
    if run == [] then State([], [])
    else OnPublished(Exec(run[..|run| - 1]), run[|run| - 1].w, run[|run| - 1].a)
  }

  predicate OneRowEach(rows: seq<Row>) {
    forall i, j :: 0 <= i < j < |rows| ==> rows[i].instance != rows[j].instance || rows[i].key != rows[j].key
  }

  function PendingOf(rows: seq<Row>): seq<int> {
    if rows == [] then []
    else
      var last := rows[|rows| - 1];
      PendingOf(rows[..|rows| - 1]) + if last.status.Pending? then [last.instance] else []
  }

  /** The drains enqueued are the pending rows inserted, one each and in the same order. */
  predicate DrainsMatch(s: State) {
    s.drains == PendingOf(s.rows)
  }

  lemma PendingMore(rows: seq<Row>, row: Row, fails: bool)
    ensures var (after, inserted) := Insert(rows, row, fails);
      PendingOf(after) == if inserted && row.status.Pending? then PendingOf(rows) + [row.instance] else PendingOf(rows)
  {
    assert (rows + [row])[..|rows|] == rows;
    assert PendingOf(rows) + [] == PendingOf(rows);
  }

  lemma InsertKeepsOne(rows: seq<Row>, row: Row, fails: bool)
    requires OneRowEach(rows)
    ensures OneRowEach(Insert(rows, row, fails).0)
  {
    var after := Insert(rows, row, fails).0;
    forall i, j | 0 <= i < j < |after|
      ensures after[i].instance != after[j].instance || after[i].key != after[j].key
    {
      assert after[i] == rows[i];
    }
  }

  lemma TargetKeeps(s: State, w: World, a: Announcement, known: bool, t: Target)
    ensures OneRowEach(s.rows) ==> OneRowEach(HandleTarget(s, w, a, known, t).rows)
    ensures w.queue && DrainsMatch(s) ==> DrainsMatch(HandleTarget(s, w, a, known, t))
  {
    match Judge(t.filters, a, known) {
      case Skip =>
      case Hold =>
        RowKeeps(s, Row(t.id, KeyOf(a), Withheld, a), t.id in w.insertFails);
      case Announce =>
        RowKeeps(s, Row(t.id, KeyOf(a), Pending, a), t.id in w.insertFails);
    }
  }

  lemma RowKeeps(s: State, row: Row, fails: bool)
    ensures var (rows, inserted) := Insert(s.rows, row, fails);
      && (OneRowEach(s.rows) ==> OneRowEach(rows))
      && (DrainsMatch(s) ==>
        DrainsMatch(State(rows, if inserted && row.status.Pending? then s.drains + [row.instance] else s.drains)))
  {
    PendingMore(s.rows, row, fails);
    if OneRowEach(s.rows) {
      InsertKeepsOne(s.rows, row, fails);
    }
  }

  lemma {:induction false} TargetsKeep(s: State, w: World, a: Announcement, known: bool, targets: seq<Target>)
    ensures OneRowEach(s.rows) ==> OneRowEach(HandleAll(s, w, a, known, targets).rows)
    ensures w.queue && DrainsMatch(s) ==> DrainsMatch(HandleAll(s, w, a, known, targets))
  {
    if targets != [] {
      var init := targets[..|targets| - 1];
      TargetsKeep(s, w, a, known, init);
      TargetKeeps(HandleAll(s, w, a, known, init), w, a, known, targets[|targets| - 1]);
    }
  }

  /** Over any run of events, however often the same torrent is published: at most one row per
      instance and event, and, with a queue to send to, one drain for each pending row. */
  lemma {:induction false} RunKeeps(run: seq<Published>)
    ensures OneRowEach(Exec(run).rows)
    ensures (forall p :: p in run ==> p.w.queue) ==> DrainsMatch(Exec(run))
  {
    if run != [] {
      var init, p := run[..|run| - 1], run[|run| - 1];
      RunKeeps(init);
      assert p in run && forall q :: q in init ==> q in run;
      if p.w.switchedOn && p.w.enabled.Some? {
        var (b, known) := Resolve(p.w, p.a);
        TargetsKeep(Exec(init), p.w, b, known, Targets(p.w.enabled.value));
      }
    }
  }

  // ---- one instance at a time ---------------------------------------------------------------------

  function RowsOf(rows: seq<Row>, x: int): seq<Row> {
    if rows == [] then []
    else
      RowsOf(rows[..|rows| - 1], x) + if rows[|rows| - 1].instance == x then [rows[|rows| - 1]] else []
  }

  function DrainsOf(drains: seq<int>, x: int): seq<int> {
    if drains == [] then []
    else DrainsOf(drains[..|drains| - 1], x) + if drains[|drains| - 1] == x then [x] else []
  }

  function ShareOf(s: State, x: int): State {
    State(RowsOf(s.rows, x), DrainsOf(s.drains, x))
  }

  function TargetsOf(targets: seq<Target>, x: int): seq<Target> {
    if targets == [] then []
    else
      TargetsOf(targets[..|targets| - 1], x)
      + if targets[|targets| - 1].id == x then [targets[|targets| - 1]] else []
  }

  lemma {:induction false} RecordedOf(rows: seq<Row>, x: int, key: string)
    ensures Recorded(rows, x, key) <==> Recorded(RowsOf(rows, x), x, key)
  {
    if rows != [] {
      var init, last := rows[..|rows| - 1], rows[|rows| - 1];
      RecordedOf(init, x, key);
      RecordedSnoc(init, last, x, key);
      assert rows == init + [last];
      if last.instance == x {
        RecordedSnoc(RowsOf(init, x), last, x, key);
      } else {
        assert RowsOf(init, x) + [] == RowsOf(init, x);
      }
    }
  }

  lemma RecordedSnoc(rows: seq<Row>, row: Row, x: int, key: string)
    ensures Recorded(rows + [row], x, key) <==> Recorded(rows, x, key) || (row.instance == x && row.key == key)
  {
    var all := rows + [row];
    if Recorded(rows, x, key) {
      var i :| 0 <= i < |rows| && rows[i].instance == x && rows[i].key == key;
      assert all[i] == rows[i];
    }
    if row.instance == x && row.key == key {
      assert all[|rows|] == row;
    }
  }

  lemma DrainsSnoc(drains: seq<int>, d: int, x: int)
    ensures DrainsOf(drains + [d], x) == if d == x then DrainsOf(drains, x) + [x] else DrainsOf(drains, x)
  {
    assert (drains + [d])[..|drains|] == drains;
    assert DrainsOf(drains, x) + [] == DrainsOf(drains, x);
  }

  lemma InsertSeesItsOwn(rows: seq<Row>, row: Row, fails: bool, x: int)
    ensures row.instance == x ==>
      && RowsOf(Insert(rows, row, fails).0, x) == Insert(RowsOf(rows, x), row, fails).0
      && Insert(rows, row, fails).1 == Insert(RowsOf(rows, x), row, fails).1
    ensures row.instance != x ==> RowsOf(Insert(rows, row, fails).0, x) == RowsOf(rows, x)
  {
    RecordedOf(rows, row.instance, row.key);
    assert (rows + [row])[..|rows|] == rows;
    assert RowsOf(rows, x) + [] == RowsOf(rows, x);
  }

  /** A target works on its own instance's rows and on nothing else. */
  lemma TargetSeesItsOwn(s: State, w: World, a: Announcement, known: bool, t: Target, x: int)
    ensures ShareOf(HandleTarget(s, w, a, known, t), x) ==
      if t.id == x then HandleTarget(ShareOf(s, x), w, a, known, t) else ShareOf(s, x)
  {
    match Judge(t.filters, a, known) {
      case Skip =>
      case Hold => InsertSeesItsOwn(s.rows, Row(t.id, KeyOf(a), Withheld, a), t.id in w.insertFails, x);
      case Announce =>
        InsertSeesItsOwn(s.rows, Row(t.id, KeyOf(a), Pending, a), t.id in w.insertFails, x);
        DrainsSnoc(s.drains, t.id, x);
    }
  }

  lemma {:induction false} TargetsSeeTheirOwn(
    s: State, w: World, a: Announcement, known: bool, targets: seq<Target>, x: int)
    ensures ShareOf(HandleAll(s, w, a, known, targets), x) ==
      HandleAll(ShareOf(s, x), w, a, known, TargetsOf(targets, x))
  {
    if targets != [] {
      var init, t := targets[..|targets| - 1], targets[|targets| - 1];
      TargetsSeeTheirOwn(s, w, a, known, init, x);
      TargetSeesItsOwn(HandleAll(s, w, a, known, init), w, a, known, t, x);
      if t.id == x {
        assert (TargetsOf(init, x) + [t])[..|TargetsOf(init, x)|] == TargetsOf(init, x);
      } else {
        assert TargetsOf(init, x) + [] == TargetsOf(init, x);
      }
    }
  }

  lemma {:induction false} OnlyOwnFailureCounts(
    s: State, w1: World, w2: World, a: Announcement, known: bool, targets: seq<Target>, x: int)
    requires (x in w1.insertFails <==> x in w2.insertFails) && w1.queue == w2.queue
    requires forall t :: t in targets ==> t.id == x
    ensures HandleAll(s, w1, a, known, targets) == HandleAll(s, w2, a, known, targets)
  {
    if targets != [] {
      assert targets[|targets| - 1] in targets;
      OnlyOwnFailureCounts(s, w1, w2, a, known, targets[..|targets| - 1], x);
    }
  }

  lemma {:induction false} TargetsOfAre(targets: seq<Target>, x: int)
    ensures forall t :: t in TargetsOf(targets, x) ==> t.id == x
  {
    if targets != [] {
      TargetsOfAre(targets[..|targets| - 1], x);
    }
  }

  /** What an instance gets from an event depends on nothing but its own filters and its own insert:
      other instances may be broken, failing or absent. */
  lemma Isolation(s: State, w1: World, w2: World, a: Announcement, x: int)
    requires w1.switchedOn && w2.switchedOn && w1.enabled.Some? && w2.enabled.Some?
    requires w1.resolver == w2.resolver && w1.queue == w2.queue
    requires x in w1.insertFails <==> x in w2.insertFails
    requires TargetsOf(Targets(w1.enabled.value), x) == TargetsOf(Targets(w2.enabled.value), x)
    ensures ShareOf(OnPublished(s, w1, a), x) == ShareOf(OnPublished(s, w2, a), x)
  {
    var (b, known) := Resolve(w1, a);
    TargetsSeeTheirOwn(s, w1, b, known, Targets(w1.enabled.value), x);
    TargetsSeeTheirOwn(s, w2, b, known, Targets(w2.enabled.value), x);
    TargetsOfAre(Targets(w1.enabled.value), x);
    OnlyOwnFailureCounts(ShareOf(s, x), w1, w2, b, known, TargetsOf(Targets(w1.enabled.value), x), x);
  }

  /** The outcome for an instance enabled once, when the event is new to it: announced, withheld
      with the reason on record, or nothing, exactly as its filters say; and nothing at all if its
      insert fails. */
  lemma WhatAnInstanceGets(s: State, w: World, a: Announcement, t: Target)
    requires w.switchedOn && w.enabled.Some? && TargetsOf(Targets(w.enabled.value), t.id) == [t]
    requires !Recorded(s.rows, t.id, KeyOf(a))
    ensures var (b, known) := Resolve(w, a);
      RowsOf(OnPublished(s, w, a).rows, t.id) == RowsOf(s.rows, t.id) +
        if t.id in w.insertFails then []
        else match Judge(t.filters, b, known)
          case Hold => [Row(t.id, KeyOf(a), Withheld, b)]
          case Skip => []
          case Announce => [Row(t.id, KeyOf(a), Pending, b)]
  {
    var (b, known) := Resolve(w, a);
    TargetsSeeTheirOwn(s, w, b, known, Targets(w.enabled.value), t.id);
    RecordedOf(s.rows, t.id, KeyOf(a));
    var own := ShareOf(s, t.id);
    assert [t][..0] == [];
    assert HandleAll(own, w, b, known, []) == own;
    assert HandleAll(own, w, b, known, [t]) == HandleTarget(own, w, b, known, t);
    assert RowsOf(s.rows, t.id) + [] == RowsOf(s.rows, t.id);
  }

  // ---- what the filters promise ---------------------------------------------------------------------

  lemma ListedMeans(f: Filters, chain: seq<int>)
    ensures !Listed(f, chain) <==> (forall id :: id in chain ==> id !in f.categories)
  {
    if Listed(f, chain) {
      var i :| 0 <= i < |chain| && chain[i] in f.categories;
      var id := chain[i];
      assert id in chain && id in f.categories;
    } else {
      forall id | id in chain ensures id !in f.categories {
        var i :| 0 <= i < |chain| && chain[i] == id;
      }
    }
  }

  /** An exclude filter fails closed: it lets an announcement through exactly when the chain is
      known, nothing on it is listed, and the other filters agree. */
  lemma ExcludeFailsClosed(w: World, a: Announcement, f: Filters)
    requires ExcludesCategories(f)
    ensures var (b, known) := Resolve(w, a);
      && (Judge(f, b, known).Hold? <==> !known)
      && (Judge(f, b, known).Announce? <==>
        && known && (forall id :: id in CategoryChain(b) ==> id !in f.categories)
        && Matches(f.(categories := []), b))
  {
    var (b, known) := Resolve(w, a);
    ListedMeans(f, CategoryChain(b));
    assert Matches(f, b) <==> !Listed(f, CategoryChain(b)) && Matches(f.(categories := []), b);
  }

  /** An include filter that takes the leaf alone would take the whole chain too, so falling back to
      the leaf never delivers more. */
  lemma LeafImpliesChain(f: Filters, a: Announcement, path: seq<int>)
    requires f.mode.Include? && a.path == [] && (path != [] ==> a.category in path)
    requires Matches(f, a)
    ensures Matches(f, a.(path := path))
  {
    var b := a.(path := path);
    if f.categories != [] && path != [] {
      var i :| 0 <= i < |path| && path[i] == a.category;
      assert CategoryChain(b)[i] in f.categories;
    }
  }

  // ---- every row over a run is accounted for ------------------------------------------------------

  /** The row an instance's target makes of an event, as its filters ask. */
  predicate MadeBy(w: World, b: Announcement, known: bool, t: Target, row: Row) {
    && row.instance == t.id && row.key == KeyOf(b) && row.payload == b && t.id !in w.insertFails
    && Judge(t.filters, b, known) == if row.status.Pending? then Announce else Hold
  }

  ghost predicate MadeByEvent(p: Published, row: Row) {
    && p.w.switchedOn && p.w.enabled.Some?
    && exists t :: t in Targets(p.w.enabled.value) && MadeBy(p.w, Resolve(p.w, p.a).0, Resolve(p.w, p.a).1, t, row)
  }

  lemma {:induction false} NewRowsAreMade(
    s: State, w: World, b: Announcement, known: bool, targets: seq<Target>, row: Row)
    requires row in HandleAll(s, w, b, known, targets).rows
    ensures row in s.rows || exists t :: t in targets && MadeBy(w, b, known, t, row)
  {
    if targets != [] {
      var init, t := targets[..|targets| - 1], targets[|targets| - 1];
      if row in HandleAll(s, w, b, known, init).rows {
        NewRowsAreMade(s, w, b, known, init, row);
        assert forall u :: u in init ==> u in targets;
      } else {
        assert t in targets && MadeBy(w, b, known, t, row);
      }
    }
  }

  /** Over any run every row comes from an event that found its instance enabled, its filters in
      order and its insert working: a pending row where the filters let the announcement through, a
      withheld one where they had to hold it. */
  lemma {:induction false} RowsAreEarned(run: seq<Published>, row: Row)
    requires row in Exec(run).rows
    ensures exists k :: 0 <= k < |run| && MadeByEvent(run[k], row)
  {
    var init, p := run[..|run| - 1], run[|run| - 1];
    if row in Exec(init).rows {
      RowsAreEarned(init, row);
      var k :| 0 <= k < |init| && MadeByEvent(init[k], row);
      assert run[k] == init[k];
    } else {
      NewRowsAreMade(Exec(init), p.w, Resolve(p.w, p.a).0, Resolve(p.w, p.a).1, Targets(p.w.enabled.value), row);
      assert MadeByEvent(run[|run| - 1], row);
    }
  }

  /** What an exclude filter must have seen before a row was made under it. */
  predicate ExcludeHeld(p: Published, t: Target, row: Row) {
    var (b, known) := Resolve(p.w, p.a);
    if row.status.Withheld? then ExcludesCategories(t.filters) && !known
    else !ExcludesCategories(t.filters) || (known && forall id :: id in CategoryChain(b) ==> id !in t.filters.categories)
  }

  ghost predicate ExcludeHeldAt(p: Published, row: Row) {
    && KeyOf(p.a) == row.key && Resolve(p.w, p.a).0 == row.payload && p.w.enabled.Some?
    && exists t :: t in Targets(p.w.enabled.value) && t.id == row.instance && ExcludeHeld(p, t, row)
  }

  lemma ExcludeHeldFor(p: Published, t: Target, row: Row)
    requires MadeBy(p.w, Resolve(p.w, p.a).0, Resolve(p.w, p.a).1, t, row)
    ensures ExcludeHeld(p, t, row)
  {
    if ExcludesCategories(t.filters) {
      ExcludeFailsClosed(p.w, p.a, t.filters);
    }
  }

  lemma EventHoldsExclude(p: Published, row: Row)
    requires MadeByEvent(p, row)
    ensures ExcludeHeldAt(p, row)
  {
    var (b, known) := Resolve(p.w, p.a);
    var t :| t in Targets(p.w.enabled.value) && MadeBy(p.w, b, known, t, row);
    ExcludeHeldFor(p, t, row);
  }

  /** The exclude filter's guarantee over any run, as far as the resolver's chains go: whatever is
      pending was let through by filters that, where they exclude categories, were given a chain or
      needed none and found none of it excluded; and only such filters withhold, when none was given. */
  lemma ExcludeHoldsOverRuns(run: seq<Published>, row: Row)
    requires row in Exec(run).rows
    ensures exists k :: 0 <= k < |run| && ExcludeHeldAt(run[k], row)
  {
    RowsAreEarned(run, row);
    var k :| 0 <= k < |run| && MadeByEvent(run[k], row);
    EventHoldsExclude(run[k], row);
  }
}
