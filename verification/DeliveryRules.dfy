/**
 Which connector gets which announcement, in the terms of the stored filters and of the category tree
 (backend/internal/connector/filters.go and backend/internal/listener/connector_dispatch.go): a
 reference the dispatcher is held to, one filter at a time and from end to end.
 */
module DeliveryRules {
  import opened Dispatch
  import opened Wrappers

  // ---- one filter at a time ---------------------------------------------------------------------

  /** The path stands for the category where there is one, and the leaf for itself where there is not. */
  predicate OnChain(a: Announcement, id: int) {
    id in a.path || (a.path == [] && id == a.category)
  }

  lemma ChainHolds(a: Announcement, id: int)
    ensures id in CategoryChain(a) <==> OnChain(a, id)
  {
  }

  /** A filter on events lets its own through and no other. */
  lemma EventsNarrow(f: Filters, a: Announcement)
    ensures f.events != [] && a.event !in f.events ==> !Matches(f, a)
    ensures a.event in f.events ==> (Matches(f, a) <==> Matches(f.(events := []), a))
  {
  }

  /** A torrent exactly at the least size passes, and one below it does not. */
  lemma SizeNarrows(f: Filters, a: Announcement)
    ensures f.minSize > 0 && a.size < f.minSize ==> !Matches(f, a)
    ensures f.minSize <= a.size || f.minSize <= 0 ==> (Matches(f, a) <==> Matches(f.(minSize := 0), a))
  {
  }

  lemma FreeleechNarrows(f: Filters, a: Announcement)
    ensures f.freeleechOnly && !a.freeleech ==> !Matches(f, a)
    ensures a.freeleech || !f.freeleechOnly ==> (Matches(f, a) <==> Matches(f.(freeleechOnly := false), a))
  {
  }

  lemma AnonymousNarrows(f: Filters, a: Announcement)
    ensures f.excludeAnonymous && a.anonymous ==> !Matches(f, a)
    ensures !a.anonymous || !f.excludeAnonymous ==> (Matches(f, a) <==> Matches(f.(excludeAnonymous := false), a))
  {
  }

  /** An include filter that lists categories lets an announcement through exactly when some category
      on the chain is listed and the other filters agree; it never holds one back on record. */
  lemma IncludeTakesListed(w: World, a: Announcement, f: Filters)
    requires f.mode.Include? && f.categories != []
    ensures var (b, known) := Resolve(w, a);
      && !Judge(f, b, known).Hold?
      && (Judge(f, b, known).Announce? <==>
            (exists id :: OnChain(b, id) && id in f.categories) && Matches(f.(categories := []), b))
  {
    var (b, known) := Resolve(w, a);
    ListedMeans(f, CategoryChain(b));
    forall id ensures id in CategoryChain(b) <==> OnChain(b, id) {
      ChainHolds(b, id);
    }
  }

  /** An exclude filter that lists categories lets one through exactly when the chain is known, no
      category on it is listed, and the other filters agree; it holds one back exactly when the chain
      is not known. */
  lemma ExcludeKeepsListedOut(w: World, a: Announcement, f: Filters)
    requires f.mode.Exclude? && f.categories != []
    ensures var (b, known) := Resolve(w, a);
      && (Judge(f, b, known).Hold? <==> !known)
      && (Judge(f, b, known).Announce? <==>
            known && (forall id :: OnChain(b, id) ==> id !in f.categories) && Matches(f.(categories := []), b))
  {
    var (b, known) := Resolve(w, a);
    ExcludeFailsClosed(w, a, f);
    forall id ensures id in CategoryChain(b) <==> OnChain(b, id) {
      ChainHolds(b, id);
    }
  }

  /** A filter that lists no category has no opinion on categories, whatever its mode. */
  lemma NoCategoriesNoOpinion(w: World, a: Announcement, f: Filters, mode: Mode)
    requires f.categories == []
    ensures var (b, known) := Resolve(w, a);
      !Judge(f, b, known).Hold? && (Judge(f, b, known).Announce? <==> Matches(f.(mode := mode), b))
  {
  }

  /** Filters that were never set take everything. */
  lemma UnsetTakesAll(a: Announcement, known: bool)
    ensures ParseFilters(Blank).Some? && Judge(ParseFilters(Blank).value, a, known).Announce?
  {
  }

  // ---- stored filters -------------------------------------------------------------------------------

  /** Text that does not decode, a negative size and a mode nobody knows are refused; otherwise the
      stored fields are the filter's, and it excludes exactly if the text says so. */
  lemma StoredFilters(f: Filters, mode: string)
    ensures ParseFilters(Undecodable).None?
    ensures var r := ParseFilters(Decoded(f, mode));
      && (r.Some? <==> f.minSize >= 0 && mode in ["", "include", "exclude"])
      && (r.Some? ==>
            && r.value.(mode := f.mode) == f
            && (r.value.mode.Exclude? <==> mode == "exclude"))
  {
  }

  // ---- which instances an event is for --------------------------------------------------------------

  lemma {:induction false} TargetsAre(instances: seq<Instance>, t: Target)
    ensures t in Targets(instances) <==>
      exists i :: 0 <= i < |instances| && instances[i].id == t.id && ParseFilters(instances[i].raw) == Some(t.filters)
  {
    if instances != [] {
      var init, last := instances[..|instances| - 1], instances[|instances| - 1];
      TargetsAre(init, t);
      if t in Targets(init) {
        var i :| 0 <= i < |init| && init[i].id == t.id && ParseFilters(init[i].raw) == Some(t.filters);
        assert instances[i] == init[i];
      }
      if i :| 0 <= i < |instances| && instances[i].id == t.id && ParseFilters(instances[i].raw) == Some(t.filters) {
        if i < |init| {
          assert init[i] == instances[i];
        } else {
          assert ParseFilters(last.raw) == Some(t.filters);
        }
      }
    }
  }

  /** The list is gone through in its order. */
  lemma {:induction false} TargetsInOrder(a: seq<Instance>, b: seq<Instance>)
    ensures Targets(a + b) == Targets(a) + Targets(b)
  {
    if b == [] {
      assert a + b == a && Targets(a) + [] == Targets(a);
    } else {
      assert (a + b)[..|a + b| - 1] == a + b[..|b| - 1];
      TargetsInOrder(a, b[..|b| - 1]);
    }
  }

  // ---- from end to end ----------------------------------------------------------------------------------

  /** The chain needs no resolving, or the resolver gives it. */
  predicate ChainKnown(w: World, a: Announcement) {
    a.category <= 0 || (w.resolver.Some? && w.resolver.value(a.category).Some?)
  }

  /** What is announced: the torrent, with its chain where that is known. */
  function Announced(w: World, a: Announcement): Announcement {
    if a.category > 0 && ChainKnown(w, a) then a.(path := w.resolver.value(a.category).value) else a
  }

  predicate Readable(f: Filters, mode: string) {
    f.minSize >= 0 && mode in ["", "include", "exclude"]
  }

  predicate CategoriesAgree(f: Filters, mode: string, w: World, a: Announcement) {
    || f.categories == []
    || (mode == "exclude" && ChainKnown(w, a) && forall id :: id in f.categories ==> !OnChain(Announced(w, a), id))
    || (mode != "exclude" && exists id :: id in f.categories && OnChain(Announced(w, a), id))
  }

  predicate Wanted(f: Filters, mode: string, w: World, a: Announcement) {
    && Readable(f, mode) && CategoriesAgree(f, mode, w, a)
    && (f.events == [] || a.event in f.events) && (f.minSize == 0 || f.minSize <= a.size)
    && (f.freeleechOnly ==> a.freeleech) && (f.excludeAnonymous ==> !a.anonymous)
  }

  predicate HeldBack(f: Filters, mode: string, w: World, a: Announcement) {
    Readable(f, mode) && mode == "exclude" && f.categories != [] && !ChainKnown(w, a)
  }

  lemma ResolvesAs(w: World, a: Announcement)
    ensures Resolve(w, a) == (Announced(w, a), ChainKnown(w, a))
  {
  }

  lemma MatchesOthers(f: Filters, b: Announcement)
    requires f.minSize >= 0
    ensures Matches(f.(categories := []), b) <==>
      && (f.events == [] || b.event in f.events) && (f.minSize == 0 || f.minSize <= b.size)
      && (f.freeleechOnly ==> b.freeleech) && (f.excludeAnonymous ==> !b.anonymous)
  {
  }

  lemma JudgedAsWanted(f: Filters, mode: string, w: World, a: Announcement)
    requires Readable(f, mode)
    ensures var v := Judge(ParseFilters(Decoded(f, mode)).value, Announced(w, a), ChainKnown(w, a));
      (v.Announce? <==> Wanted(f, mode, w, a)) && (v.Hold? <==> HeldBack(f, mode, w, a))
  {
    StoredFilters(f, mode);
    ResolvesAs(w, a);
    var g := ParseFilters(Decoded(f, mode)).value;
    MatchesOthers(g, Announced(w, a));
    if f.categories == [] {
      NoCategoriesNoOpinion(w, a, g, g.mode);
      assert g.(categories := []) == g;
    } else if g.mode.Include? {
      IncludeTakesListed(w, a, g);
    } else {
      ExcludeKeepsListedOut(w, a, g);
    }
  }

  /** What a published torrent leaves for an instance that is enabled once, has stored filters, has not
      been told of the event yet and whose row can be written: a pending row exactly if it is wanted, a
      row held back exactly if the filter would have to exclude something it cannot know, and otherwise
      none. */
  lemma WhatIsDelivered(s: State, w: World, a: Announcement, before: seq<Instance>, inst: Instance, after: seq<Instance>)
    requires w.switchedOn && w.enabled == Some(before + [inst] + after) && inst.raw.Decoded?
    requires forall other :: other in before + after ==> other.id != inst.id
    requires !Recorded(s.rows, inst.id, KeyOf(a)) && inst.id !in w.insertFails
    ensures var f, mode := inst.raw.f, inst.raw.mode;
      RowsOf(OnPublished(s, w, a).rows, inst.id) == RowsOf(s.rows, inst.id) +
        if Wanted(f, mode, w, a) then [Row(inst.id, KeyOf(a), Pending, Announced(w, a))]
        else if HeldBack(f, mode, w, a) then [Row(inst.id, KeyOf(a), Withheld, Announced(w, a))]
        else []
  {
    var f, mode := inst.raw.f, inst.raw.mode;
    var all := before + [inst] + after;
    TargetsInOrder(before + [inst], after);
    TargetsInOrder(before, [inst]);
    NoTargetsOf(before, inst.id);
    NoTargetsOf(after, inst.id);
    TargetsOfAppend(Targets(before) + Targets([inst]), Targets(after), inst.id);
    TargetsOfAppend(Targets(before), Targets([inst]), inst.id);
    OneInstance(inst);
    StoredFilters(f, mode);
    ResolvesAs(w, a);
    if Readable(f, mode) {
      var t := Target(inst.id, ParseFilters(inst.raw).value);
      OneTargetOf(t);
      assert TargetsOf(Targets(all), inst.id) == [] + [t] + [] == [t];
      JudgedAsWanted(f, mode, w, a);
      WhatAnInstanceGets(s, w, a, t);
    } else {
      assert TargetsOf(Targets(all), inst.id) == [];
      NobodyThere(s, w, a, inst.id);
      assert RowsOf(s.rows, inst.id) + [] == RowsOf(s.rows, inst.id);
    }
  }

  lemma OneTargetOf(t: Target)
    ensures TargetsOf([t], t.id) == [t]
  {
    assert [t][..0] == [];
  }

  lemma OneInstance(inst: Instance)
    ensures Targets([inst]) ==
      match ParseFilters(inst.raw)
      case None => []
      case Some(f) => [Target(inst.id, f)]
  {
    assert [inst][..0] == [];
  }

  lemma {:induction false} NoneOf(targets: seq<Target>, x: int)
    requires forall t :: t in targets ==> t.id != x
    ensures TargetsOf(targets, x) == []
  {
    if targets != [] {
      NoneOf(targets[..|targets| - 1], x);
    }
  }

  lemma NoTargetsOf(instances: seq<Instance>, x: int)
    requires forall inst :: inst in instances ==> inst.id != x
    ensures TargetsOf(Targets(instances), x) == []
  {
    forall t | t in Targets(instances) ensures t.id != x {
      TargetsAre(instances, t);
    }
    NoneOf(Targets(instances), x);
  }

  lemma {:induction false} TargetsOfAppend(a: seq<Target>, b: seq<Target>, x: int)
    ensures TargetsOf(a + b, x) == TargetsOf(a, x) + TargetsOf(b, x)
  {
    if b == [] {
      assert a + b == a && TargetsOf(a, x) + [] == TargetsOf(a, x);
    } else {
      assert (a + b)[..|a + b| - 1] == a + b[..|b| - 1];
      TargetsOfAppend(a, b[..|b| - 1], x);
    }
  }

  lemma NobodyThere(s: State, w: World, a: Announcement, x: int)
    requires w.switchedOn && w.enabled.Some? && TargetsOf(Targets(w.enabled.value), x) == []
    ensures RowsOf(OnPublished(s, w, a).rows, x) == RowsOf(s.rows, x)
  {
    var (b, known) := Resolve(w, a);
    TargetsSeeTheirOwn(s, w, b, known, Targets(w.enabled.value), x);
    assert HandleAll(ShareOf(s, x), w, b, known, []) == ShareOf(s, x);
  }

  /** Without a queue to send to nothing is drained, whatever rows are written. */
  lemma {:induction false} NoQueueNoDrains(s: State, w: World, a: Announcement, known: bool, targets: seq<Target>)
    requires !w.queue
    ensures HandleAll(s, w, a, known, targets).drains == s.drains
  {
    if targets != [] {
      NoQueueNoDrains(s, w, a, known, targets[..|targets| - 1]);
    }
  }

  /** A site that is muted, or whose list of connectors cannot be read, tells nobody. */
  lemma NothingWithoutTheList(s: State, w: World, a: Announcement)
    requires !w.switchedOn || w.enabled.None?
    ensures OnPublished(s, w, a) == s
  {
  }
}
