/**
 Dropping the component schemas nothing reaches and the security schemes nothing names
 (backend/internal/openapi/openapi.go, `schemaRefs`, `keepSchemas`, `keepSecuritySchemes`,
 `pruneComponents`), stated against reachability in the possibly cyclic schema graph.
 */
module OpenApiPrune {
  import opened OpenApiRefs
  import opened YamlTree
  import opened Wrappers

  // ---- reachability ---------------------------------------------------------------------------

  /** The schemas one schema refers to; a name nothing defines refers to none. */
  function Successors(schemas: seq<Entry>, name: string): seq<string> {
    match Lookup(schemas, name)
    case Some(n) => SchemaRefs(n)
    case None => []
  }

  ghost predicate Closed(s: set<string>, seeds: seq<string>, schemas: seq<Entry>) {
    && (forall x :: x in seeds ==> x in s)
    && (forall n, x :: n in s && x in Successors(schemas, n) ==> x in s)
  }

  ghost predicate InEveryClosed(n: string, seeds: seq<string>, schemas: seq<Entry>) {
    forall s: set<string> :: Closed(s, seeds, schemas) ==> n in s
  }

  /** Every name that is referred to at all. */
  function Universe(seeds: seq<string>, schemas: seq<Entry>): set<string> {
    (set x | x in seeds) + (set x | x in EntriesRefs(schemas))
  }

  /** The names reachable from the seeds: the least closed set. */
  ghost function Reach(seeds: seq<string>, schemas: seq<Entry>): set<string> {
    set n | n in Universe(seeds, schemas) && InEveryClosed(n, seeds, schemas)
  }

  lemma SuccessorsInUniverse(seeds: seq<string>, schemas: seq<Entry>, n: string, x: string)
    requires x in Successors(schemas, n)
    ensures x in Universe(seeds, schemas)
  {
    EntriesRefsMembers(schemas, x);
    assert x in SchemaRefs(schemas[Find(schemas, n)].value);
  }

  lemma UniverseClosed(seeds: seq<string>, schemas: seq<Entry>)
    ensures Closed(Universe(seeds, schemas), seeds, schemas)
  {
    forall n, x | n in Universe(seeds, schemas) && x in Successors(schemas, n)
      ensures x in Universe(seeds, schemas)
    {
      SuccessorsInUniverse(seeds, schemas, n, x);
    }
  }

  lemma ReachIsLeast(seeds: seq<string>, schemas: seq<Entry>)
    ensures Closed(Reach(seeds, schemas), seeds, schemas)
    ensures forall s: set<string> :: Closed(s, seeds, schemas) ==> Reach(seeds, schemas) <= s
  {
    var r := Reach(seeds, schemas);
    UniverseClosed(seeds, schemas);
    forall x | x in seeds ensures x in r {
    }
    forall n, x | n in r && x in Successors(schemas, n) ensures x in r {
      SuccessorsInUniverse(seeds, schemas, n, x);
      forall s: set<string> | Closed(s, seeds, schemas) ensures x in s {
        assert n in s;
      }
    }
  }

  lemma OnlyOneLeast(a: set<string>, seeds: seq<string>, schemas: seq<Entry>)
    requires Closed(a, seeds, schemas)
    requires forall s: set<string> :: Closed(s, seeds, schemas) ==> a <= s
    ensures a == Reach(seeds, schemas)
  {
    ReachIsLeast(seeds, schemas);
  }

  /** More seeds reach more. */
  lemma ReachMonotone(small: seq<string>, large: seq<string>, schemas: seq<Entry>)
    requires forall x :: x in small ==> x in large
    ensures Reach(small, schemas) <= Reach(large, schemas)
  {
    ReachIsLeast(small, schemas);
    ReachIsLeast(large, schemas);
    assert Closed(Reach(large, schemas), small, schemas);
  }

  /** Two graphs that agree on a closed set have the same closed sets inside it. */
  lemma ClosedInside(within: set<string>, s: set<string>, seeds: seq<string>, schemas: seq<Entry>, kept: seq<Entry>)
    requires Closed(within, seeds, schemas) && Closed(s, seeds, kept)
    requires forall n :: n in within ==> Lookup(kept, n) == Lookup(schemas, n)
    ensures Closed(s * within, seeds, schemas)
  {
    forall n, x | n in s * within && x in Successors(schemas, n) ensures x in s * within {
      assert Successors(kept, n) == Successors(schemas, n);
    }
  }

  lemma ClosedThere(within: set<string>, seeds: seq<string>, schemas: seq<Entry>, kept: seq<Entry>)
    requires Closed(within, seeds, schemas)
    requires forall n :: n in within ==> Lookup(kept, n) == Lookup(schemas, n)
    ensures Closed(within, seeds, kept)
  {
    forall n, x | n in within && x in Successors(kept, n) ensures x in within {
      assert Successors(kept, n) == Successors(schemas, n);
    }
  }

  /** What smaller seeds reach can be computed among what larger ones kept. */
  lemma SmallerReachAfterPruning(small: seq<string>, large: seq<string>, schemas: seq<Entry>, kept: seq<Entry>)
    requires forall x :: x in small ==> x in large
    requires forall n :: Lookup(kept, n) == if n in Reach(large, schemas) then Lookup(schemas, n) else None
    ensures Reach(small, kept) == Reach(small, schemas)
  {
    var r := Reach(small, schemas);
    ReachMonotone(small, large, schemas);
    ReachIsLeast(small, schemas);
    ClosedThere(r, small, schemas, kept);
    forall s: set<string> | Closed(s, small, kept) ensures r <= s {
      ClosedInside(r, s, small, schemas, kept);
    }
    OnlyOneLeast(r, small, kept);
  }

  /** Removing schemas outside the reached set does not change what is reached. */
  lemma ReachAfterPruning(seeds: seq<string>, schemas: seq<Entry>, kept: seq<Entry>)
    requires forall n :: Lookup(kept, n) == if n in Reach(seeds, schemas) then Lookup(schemas, n) else None
    ensures Reach(seeds, kept) == Reach(seeds, schemas)
  {
    SmallerReachAfterPruning(seeds, seeds, schemas, kept);
  }

  // ---- keeping some entries, in order ------------------------------------------------------------

  function Keep(es: seq<Entry>, names: set<string>): seq<Entry> {
    if es == [] then []
    else Keep(es[..|es| - 1], names) + if es[|es| - 1].key in names then [es[|es| - 1]] else []
  }

  lemma {:induction false} KeepLookup(es: seq<Entry>, names: set<string>, key: string)
    ensures Lookup(Keep(es, names), key) == if key in names then Lookup(es, key) else None
    decreases |es|
  {
    if es != [] {
      var init, last := es[..|es| - 1], es[|es| - 1];
      KeepLookup(init, names, key);
      LookupSnoc(init, last, key);
      assert es == init + [last];
      if last.key in names {
        LookupSnoc(Keep(init, names), last, key);
      } else {
        assert Keep(es, names) == Keep(init, names);
      }
    }
  }

  lemma LookupSnoc(es: seq<Entry>, last: Entry, key: string)
    ensures Lookup(es + [last], key) ==
      if Lookup(es, key).Some? then Lookup(es, key) else if last.key == key then Some(last.value) else None
  {
    var f := Find(es, key);
    FindIs(es + [last], key, if f < |es| then f else if last.key == key then |es| else |es| + 1);
  }

  lemma {:induction false} KeepIn(es: seq<Entry>, names: set<string>)
    ensures forall e :: e in Keep(es, names) <==> e in es && e.key in names
    decreases |es|
  {
    if es != [] {
      KeepIn(es[..|es| - 1], names);
      assert es == es[..|es| - 1] + [es[|es| - 1]];
    }
  }

  lemma {:induction false} KeepDistinct(es: seq<Entry>, names: set<string>)
    requires DistinctKeys(es)
    ensures DistinctKeys(Keep(es, names))
    decreases |es|
  {
    if es != [] {
      var init := es[..|es| - 1];
      KeepDistinct(init, names);
      KeepIn(init, names);
      var k := Keep(init, names);
      forall i | 0 <= i < |k| ensures k[i].key != es[|es| - 1].key {
        assert k[i] in init;
      }
    }
  }

  lemma {:induction false} KeepAll(es: seq<Entry>, names: set<string>)
    requires forall i :: 0 <= i < |es| ==> es[i].key in names
    ensures Keep(es, names) == es
    decreases |es|
  {
    if es != [] {
      KeepAll(es[..|es| - 1], names);
    }
  }

  lemma {:induction false} KeepShrinks(es: seq<Entry>, names: set<string>)
    ensures |Keep(es, names)| <= |es|
    ensures |Keep(es, names)| == |es| ==> forall i :: 0 <= i < |es| ==> es[i].key in names
    decreases |es|
  {
    if es != [] {
      KeepShrinks(es[..|es| - 1], names);
    }
  }

  lemma KeepSize(es: seq<Entry>, names: set<string>)
    ensures |Keep(es, names)| <= |es|
    ensures |Keep(es, names)| == |es| <==> forall e :: e in es ==> e.key in names
    ensures |Keep(es, names)| == |es| ==> Keep(es, names) == es
  {
    KeepShrinks(es, names);
    if forall e :: e in es ==> e.key in names {
      KeepAll(es, names);
    }
  }

  lemma KeepMembers(es: seq<Entry>, names: set<string>)
    ensures forall e :: e in Keep(es, names) <==> e in es && e.key in names
    ensures DistinctKeys(es) ==> DistinctKeys(Keep(es, names))
    ensures |Keep(es, names)| <= |es|
    ensures |Keep(es, names)| == |es| <==> forall e :: e in es ==> e.key in names
    ensures (forall e :: e in es ==> e.key in names) ==> Keep(es, names) == es
  {
    KeepIn(es, names);
    KeepSize(es, names);
    if DistinctKeys(es) {
      KeepDistinct(es, names);
    }
  }

  // ---- pruning ------------------------------------------------------------------------------------------

  predicate MappingOrAbsent(n: Option<Node>) {
    n.Some? ==> n.value.Mapping?
  }

  function Seeds(root: seq<Entry>, components: seq<Entry>): seq<string> {
    RefsExcept(root, "components") + RefsExcept(components, "schemas")
  }

  ghost function KeepSchemas(root: seq<Entry>, components: seq<Entry>): seq<Entry>
    requires MappingOrAbsent(Lookup(components, "schemas"))
  {
    match Lookup(components, "schemas")
    case None => components
    case Some(n) => With(components, "schemas", Mapping(Keep(n.entries, Reach(Seeds(root, components), n.entries))))
  }

  function KeepSecuritySchemes(root: seq<Entry>, components: seq<Entry>): seq<Entry>
    requires MappingOrAbsent(Lookup(components, "securitySchemes"))
  {
    match Lookup(components, "securitySchemes")
    case None => components
    case Some(n) => With(components, "securitySchemes", Mapping(Keep(n.entries, NameSet(UsedSchemes(root)))))
  }

  function DropEmpty(components: seq<Entry>, section: string): seq<Entry> {
    if Lookup(components, section) == Some(Mapping([])) then Without(components, section) else components
  }

  predicate Prunable(components: seq<Entry>) {
    MappingOrAbsent(Lookup(components, "schemas")) && MappingOrAbsent(Lookup(components, "securitySchemes"))
  }

  ghost function PrunedComponents(root: seq<Entry>, components: seq<Entry>): seq<Entry>
    requires Prunable(components)
  {
    LookupWith(components, "schemas", Mapping([]), "securitySchemes");
    var kept := KeepSchemas(root, components);
    assert Lookup(kept, "securitySchemes") == Lookup(components, "securitySchemes") by { KeptElsewhere(root, components); }
    DropEmpty(DropEmpty(KeepSecuritySchemes(root, kept), "schemas"), "securitySchemes")
  }

  lemma KeptElsewhere(root: seq<Entry>, components: seq<Entry>)
    requires MappingOrAbsent(Lookup(components, "schemas"))
    ensures forall k :: k != "schemas" ==> Lookup(KeepSchemas(root, components), k) == Lookup(components, k)
  {
    forall k | k != "schemas" ensures Lookup(KeepSchemas(root, components), k) == Lookup(components, k) {
      if Has(components, "schemas") {
        var n := Lookup(components, "schemas").value;
        LookupWith(components, "schemas", Mapping(Keep(n.entries, Reach(Seeds(root, components), n.entries))), k);
      }
    }
  }

  ghost function Prune(root: Node): Result<Node, SpecError>
    requires root.Mapping?
  {
    match Lookup(root.entries, "components")
    case None => Ok(root)
    case Some(Mapping(components)) =>
      if !Prunable(components) then Err(Malformed)
      else
        var pruned := PrunedComponents(root.entries, components);
        Ok(Mapping(if pruned == [] then Without(root.entries, "components")
                   else With(root.entries, "components", Mapping(pruned))))
    case _ => Err(Malformed)
  }

  // ---- the pruned components, section by section ------------------------------------------------------------

  /** A section whose entries were filtered is gone when nothing is left of it. */
  function Section(es: seq<Entry>): Option<Node> {
    if es == [] then None else Some(Mapping(es))
  }

  ghost function KeptSchemas(root: seq<Entry>, components: seq<Entry>): seq<Entry>
    requires Prunable(components)
  {
    match Lookup(components, "schemas")
    case None => []
    case Some(n) => Keep(n.entries, Reach(Seeds(root, components), n.entries))
  }

  function KeptSchemes(root: seq<Entry>, components: seq<Entry>): seq<Entry>
    requires Prunable(components)
  {
    match Lookup(components, "securitySchemes")
    case None => []
    case Some(n) => Keep(n.entries, NameSet(UsedSchemes(root)))
  }

  lemma DropEmptyLookup(components: seq<Entry>, section: string, key: string)
    requires DistinctKeys(components)
    ensures DistinctKeys(DropEmpty(components, section))
    ensures Lookup(DropEmpty(components, section), key) ==
      if key == section && Lookup(components, section) == Some(Mapping([])) then None else Lookup(components, key)
  {
    LookupWithout(components, section, key);
  }

  lemma FilteredLookup(root: seq<Entry>, components: seq<Entry>, key: string)
    requires Prunable(components) && DistinctKeys(components)
    ensures MappingOrAbsent(Lookup(KeepSchemas(root, components), "securitySchemes"))
    ensures var filtered := KeepSecuritySchemes(root, KeepSchemas(root, components));
      && DistinctKeys(filtered)
      && Lookup(filtered, key) ==
         if key == "schemas" && Has(components, key) then Some(Mapping(KeptSchemas(root, components)))
         else if key == "securitySchemes" && Has(components, key) then Some(Mapping(KeptSchemes(root, components)))
         else Lookup(components, key)
  {
    KeptElsewhere(root, components);
    var kept := KeepSchemas(root, components);
    LookupWith(components, "schemas", Mapping(KeptSchemas(root, components)), key);
    LookupWith(kept, "securitySchemes", Mapping(KeptSchemes(root, components)), key);
  }

  /** What every section of the components looks up after pruning. */
  lemma PrunedLookup(root: seq<Entry>, components: seq<Entry>, key: string)
    requires Prunable(components) && DistinctKeys(components)
    ensures DistinctKeys(PrunedComponents(root, components))
    ensures Lookup(PrunedComponents(root, components), key) ==
      if key == "schemas" then Section(KeptSchemas(root, components))
      else if key == "securitySchemes" then Section(KeptSchemes(root, components))
      else Lookup(components, key)
  {
    FilteredLookup(root, components, key);
    FilteredLookup(root, components, "schemas");
    FilteredLookup(root, components, "securitySchemes");
    var filtered := KeepSecuritySchemes(root, KeepSchemas(root, components));
    DropEmptyLookup(filtered, "schemas", key);
    DropEmptyLookup(filtered, "schemas", "securitySchemes");
    DropEmptyLookup(DropEmpty(filtered, "schemas"), "securitySchemes", key);
  }

  // ---- pruning is exact ----------------------------------------------------------------------------------------

  function Components(root: Node): Option<Node> {
    MapValue(root, "components")
  }

  function Schemas(root: Node): seq<Entry> {
    match Components(root)
    case Some(c) => (match MapValue(c, "schemas") case Some(Mapping(es)) => es case _ => [])
    case None => []
  }

  function SeedsOf(root: Node): seq<string> {
    if root.Mapping? then
      match Components(root)
      case Some(Mapping(components)) => Seeds(root.entries, components)
      case _ => RefsExcept(root.entries, "components")
    else []
  }

  predicate DistinctSections(root: Node) {
    && root.Mapping? && DistinctKeys(root.entries)
    && (Components(root).Some? && Components(root).value.Mapping? ==> DistinctKeys(Components(root).value.entries))
    && DistinctKeys(Schemas(root))
  }

  lemma PruneComponentsOf(root: Node)
    requires DistinctSections(root) && Prune(root).Ok? && Components(root).Some?
    ensures Components(root).value.Mapping? && Prunable(Components(root).value.entries)
    ensures var p, pruned := Prune(root).value, PrunedComponents(root.entries, Components(root).value.entries);
      && p.Mapping? && DistinctKeys(p.entries)
      && Components(p) == Section(pruned)
      && (forall k :: k != "components" ==> Lookup(p.entries, k) == Lookup(root.entries, k))
  {
    var components := Components(root).value.entries;
    var pruned := PrunedComponents(root.entries, components);
    forall k ensures Lookup(Prune(root).value.entries, k) ==
      if k == "components" then Section(pruned) else Lookup(root.entries, k)
    {
      LookupWith(root.entries, "components", Mapping(pruned), k);
      LookupWithout(root.entries, "components", k);
    }
    LookupWith(root.entries, "components", Mapping(pruned), "components");
    LookupWithout(root.entries, "components", "components");
  }

  /** The schemas that survive are exactly the existing ones reachable from outside the schemas,
      in their original order and unchanged. */
  lemma PruningIsExact(root: Node)
    requires DistinctSections(root) && Prune(root).Ok?
    ensures Schemas(Prune(root).value) == Keep(Schemas(root), Reach(SeedsOf(root), Schemas(root)))
    ensures forall e :: e in Schemas(Prune(root).value) <==>
      e in Schemas(root) && e.key in Reach(SeedsOf(root), Schemas(root))
  {
    PruneKeeps(root);
    KeepMembers(Schemas(root), Reach(SeedsOf(root), Schemas(root)));
  }

  lemma PruneKeeps(root: Node)
    requires DistinctSections(root) && Prune(root).Ok?
    ensures Schemas(Prune(root).value) == Keep(Schemas(root), Reach(SeedsOf(root), Schemas(root)))
  {
    if Components(root).Some? {
      PruneComponentsOf(root);
      PrunedLookup(root.entries, Components(root).value.entries, "schemas");
    }
  }

  // ---- nothing new dangles ----------------------------------------------------------------------------------------

  /** A path into the schemas section. */
  predicate InSchemas(root: Node, path: seq<nat>) {
    |path| >= 2 && KeyIs(root, path[0], "components") && KeyIs(root.entries[path[0]].value, path[1], "schemas")
  }

  /** The document itself, its components or its schemas section, whose keys are names and no fields. */
  predicate Frame(root: Node, path: seq<nat>) {
    || path == []
    || (|path| == 1 && KeyIs(root, path[0], "components"))
    || (|path| == 2 && InSchemas(root, path))
  }

  /** A reference anywhere in the document. */
  ghost predicate Refers(root: Node, x: string) {
    exists path :: RefAt(root, path, x) && !Frame(root, path)
  }

  ghost predicate RefersOutside(root: Node, x: string) {
    exists path :: RefAt(root, path, x) && !Frame(root, path) && !InSchemas(root, path)
  }

  ghost predicate RefersInside(root: Node, x: string) {
    exists path :: RefAt(root, path, x) && !Frame(root, path) && InSchemas(root, path)
  }

  lemma BelowEntry(n: Node, k: nat, path: seq<nat>, x: string)
    requires n.Mapping? && k < |n.entries|
    ensures RefAt(n, [k] + path, x) <==> RefAt(n.entries[k].value, path, x)
  {
    AtStep(n, k, path);
    assert Children(n)[k] == n.entries[k].value;
  }

  lemma FromEntry(n: Node, path: seq<nat>, x: string)
    requires n.Mapping? && path != [] && RefAt(n, path, x)
    ensures path[0] < |n.entries| && RefAt(n.entries[path[0]].value, path[1..], x)
    ensures x in SchemaRefs(n.entries[path[0]].value)
  {
    assert Children(n)[path[0]] == n.entries[path[0]].value;
    assert RefAt(n.entries[path[0]].value, path[1..], x);
    RefsAreFound(n.entries[path[0]].value, x);
  }

  /** A path to a reference under an entry. */
  lemma EntryRefers(n: Node, k: nat, x: string) returns (path: seq<nat>)
    requires n.Mapping? && k < |n.entries| && RefersTo(n.entries[k], x)
    ensures path != [] && path[0] == k && RefAt(n, path, x)
  {
    RefsAreFound(n.entries[k].value, x);
    var below :| RefAt(n.entries[k].value, below, x);
    path := [k] + below;
    BelowEntry(n, k, below, x);
  }

  /** The same path from one level up. */
  lemma OneUp(n: Node, k: nat, below: seq<nat>, x: string) returns (path: seq<nat>)
    requires n.Mapping? && k < |n.entries| && RefAt(n.entries[k].value, below, x)
    ensures |path| == 1 + |below| && path[0] == k && path[1..] == below && RefAt(n, path, x)
  {
    path := [k] + below;
    BelowEntry(n, k, below, x);
  }

  lemma OnlyOneKey(es: seq<Entry>, k: nat, key: string)
    requires DistinctKeys(es) && k < |es| && es[k].key == key
    ensures Find(es, key) == k && Lookup(es, key) == Some(es[k].value)
  {
    FindIs(es, key, k);
  }

  lemma OutsideComponents(root: Node, x: string)
    requires root.Mapping? && x in RefsExcept(root.entries, "components")
    ensures RefersOutside(root, x)
  {
    RefsExceptMembers(root.entries, "components", x);
    var k :| 0 <= k < |root.entries| && root.entries[k].key != "components" && RefersTo(root.entries[k], x);
    var path := EntryRefers(root, k, x);
    assert !Frame(root, path) && !InSchemas(root, path);
  }

  lemma OutsideSchemas(root: Node, c: nat, x: string)
    requires KeyIs(root, c, "components") && root.entries[c].value.Mapping?
    requires x in RefsExcept(root.entries[c].value.entries, "schemas")
    ensures RefersOutside(root, x)
  {
    var comps := root.entries[c].value;
    RefsExceptMembers(comps.entries, "schemas", x);
    var k :| 0 <= k < |comps.entries| && comps.entries[k].key != "schemas" && RefersTo(comps.entries[k], x);
    var below := EntryRefers(comps, k, x);
    var path := OneUp(root, c, below, x);
    assert path[1] == below[0];
    assert !Frame(root, path) && !InSchemas(root, path);
  }

  lemma SeedsRefer(root: Node, x: string)
    requires DistinctSections(root) && Prune(root).Ok? && x in SeedsOf(root)
    ensures RefersOutside(root, x)
  {
    if x in RefsExcept(root.entries, "components") {
      OutsideComponents(root, x);
    } else {
      OutsideSchemas(root, Find(root.entries, "components"), x);
    }
  }

  lemma ReferringIsSeed(root: Node, path: seq<nat>, x: string)
    requires DistinctSections(root) && Prune(root).Ok?
    requires RefAt(root, path, x) && !Frame(root, path) && !InSchemas(root, path)
    ensures x in SeedsOf(root)
  {
    FromEntry(root, path, x);
    var k := path[0];
    RefsExceptMembers(root.entries, "components", x);
    assert RefersTo(root.entries[k], x);
    if root.entries[k].key == "components" {
      OnlyOneKey(root.entries, k, "components");
      var comps := root.entries[k].value;
      FromEntry(comps, path[1..], x);
      assert path[1..][0] == path[1];
      RefsExceptMembers(comps.entries, "schemas", x);
      assert RefersTo(comps.entries[path[1]], x);
    }
  }

  /** The names the pruning starts from are those something outside the schemas refers to. */
  lemma SeedsAreOutside(root: Node, x: string)
    requires DistinctSections(root) && Prune(root).Ok?
    ensures x in SeedsOf(root) <==> RefersOutside(root, x)
  {
    if x in SeedsOf(root) {
      SeedsRefer(root, x);
    }
    if path :| RefAt(root, path, x) && !Frame(root, path) && !InSchemas(root, path) {
      ReferringIsSeed(root, path, x);
    }
  }

  lemma SectionRefers(root: Node, c: nat, s: nat, x: string)
    requires KeyIs(root, c, "components") && KeyIs(root.entries[c].value, s, "schemas")
    requires root.entries[c].value.entries[s].value.Mapping?
    requires x in EntriesRefs(root.entries[c].value.entries[s].value.entries)
    ensures RefersInside(root, x)
  {
    var comps := root.entries[c].value;
    var section := comps.entries[s].value;
    EntriesRefsMembers(section.entries, x);
    var k :| 0 <= k < |section.entries| && x in SchemaRefs(section.entries[k].value);
    assert RefersTo(section.entries[k], x);
    var inner := EntryRefers(section, k, x);
    var below := OneUp(comps, s, inner, x);
    var path := OneUp(root, c, below, x);
    assert path[1] == below[0];
    assert InSchemas(root, path) && !Frame(root, path);
  }

  lemma SchemasRefer(root: Node, x: string)
    requires DistinctSections(root) && Prune(root).Ok? && x in EntriesRefs(Schemas(root))
    ensures RefersInside(root, x)
  {
    var c := Find(root.entries, "components");
    SectionRefers(root, c, Find(root.entries[c].value.entries, "schemas"), x);
  }

  /** With distinct keys the schemas section is where its keys lead. */
  lemma SectionAt(root: Node, c: nat, s: nat)
    requires DistinctSections(root) && Prune(root).Ok?
    requires KeyIs(root, c, "components") && KeyIs(root.entries[c].value, s, "schemas")
    ensures root.entries[c].value.entries[s].value == Mapping(Schemas(root))
  {
    OnlyOneKey(root.entries, c, "components");
    OnlyOneKey(root.entries[c].value.entries, s, "schemas");
  }

  lemma ReferringIsInSchemas(root: Node, path: seq<nat>, x: string)
    requires DistinctSections(root) && Prune(root).Ok?
    requires RefAt(root, path, x) && !Frame(root, path) && InSchemas(root, path)
    ensures x in EntriesRefs(Schemas(root))
  {
    SectionAt(root, path[0], path[1]);
    FromEntry(root, path, x);
    FromEntry(root.entries[path[0]].value, path[1..], x);
    assert path[1..][0] == path[1] && path[1..][1..] == path[2..];
    FromEntry(Mapping(Schemas(root)), path[2..], x);
    EntriesRefsMembers(Schemas(root), x);
  }

  lemma RefersIsFound(root: Node, x: string)
    requires DistinctSections(root) && Prune(root).Ok?
    ensures Refers(root, x) <==> x in SeedsOf(root) || x in EntriesRefs(Schemas(root))
  {
    if path :| RefAt(root, path, x) && !Frame(root, path) {
      if InSchemas(root, path) {
        ReferringIsInSchemas(root, path, x);
      } else {
        ReferringIsSeed(root, path, x);
      }
    }
    if x in SeedsOf(root) {
      SeedsRefer(root, x);
    } else if x in EntriesRefs(Schemas(root)) {
      SchemasRefer(root, x);
    }
  }

  /** A schema's successors are what anything at or under it refers to. */
  lemma SuccessorsRefer(schemas: seq<Entry>, name: string, x: string)
    ensures x in Successors(schemas, name) <==>
      Lookup(schemas, name).Some? && exists path :: RefAt(Lookup(schemas, name).value, path, x)
  {
    if Lookup(schemas, name).Some? {
      RefsAreFound(Lookup(schemas, name).value, x);
    }
  }

  lemma PrunedIsSound(root: Node)
    requires DistinctSections(root) && Prune(root).Ok?
    ensures DistinctSections(Prune(root).value) && Prune(Prune(root).value).Ok?
  {
    PruneTwice(root);
    PruneKeeps(root);
    KeepMembers(Schemas(root), Reach(SeedsOf(root), Schemas(root)));
    if Components(root).Some? {
      PruneComponentsOf(root);
      PrunedLookup(root.entries, Components(root).value.entries, "schemas");
    }
  }

  predicate Defines(root: Node, x: string) {
    Has(Schemas(root), x)
  }

  lemma SurvivingSeedsAreSeeds(root: Node, x: string)
    requires DistinctSections(root) && Prune(root).Ok?
    requires x in SeedsOf(Prune(root).value)
    ensures x in SeedsOf(root)
  {
    var p := Prune(root).value;
    if Components(root).Some? {
      PruneComponentsOf(root);
      var components := Components(root).value.entries;
      RefsExceptByLookup(root.entries, "components", x);
      RefsExceptByLookup(p.entries, "components", x);
      if x !in RefsExcept(p.entries, "components") {
        var pruned := PrunedComponents(root.entries, components);
        PrunedLookup(root.entries, components, "schemas");
        RefsExceptByLookup(pruned, "schemas", x);
        RefsExceptByLookup(components, "schemas", x);
        var k :| k != "schemas" && ValueRefersTo(Lookup(pruned, k), x);
        PrunedLookup(root.entries, components, k);
        if k == "securitySchemes" {
          KeptSchemesRefs(root.entries, components, x);
        }
        assert ValueRefersTo(Lookup(components, k), x);
      }
    }
  }

  lemma {:induction false} KeepOwnRefs(es: seq<Entry>, names: set<string>, x: string)
    requires x in OwnRefs(Keep(es, names))
    ensures x in OwnRefs(es)
    decreases |es|
  {
    var init, last := es[..|es| - 1], es[|es| - 1];
    if last.key in names {
      assert Keep(es, names)[..|Keep(es, names)| - 1] == Keep(init, names);
      if x in OwnRefs(Keep(init, names)) {
        KeepOwnRefs(init, names, x);
      }
    } else {
      assert Keep(es, names) == Keep(init, names);
      KeepOwnRefs(init, names, x);
    }
  }

  lemma KeptSchemesRefs(root: seq<Entry>, components: seq<Entry>, x: string)
    requires Prunable(components) && ValueRefersTo(Section(KeptSchemes(root, components)), x)
    ensures ValueRefersTo(Lookup(components, "securitySchemes"), x)
  {
    var es, names := Lookup(components, "securitySchemes").value.entries, NameSet(UsedSchemes(root));
    var kept := Keep(es, names);
    if x in OwnRefs(kept) {
      KeepOwnRefs(es, names, x);
    } else {
      EntriesRefsMembers(kept, x);
      EntriesRefsMembers(es, x);
      KeepMembers(es, names);
      var i :| 0 <= i < |kept| && x in SchemaRefs(kept[i].value);
      assert kept[i] in es;
    }
  }

  /** What a reached schema refers to is reached. */
  lemma KeptRefsAreReached(seeds: seq<string>, all: seq<Entry>, x: string)
    requires DistinctKeys(all) && x in EntriesRefs(Keep(all, Reach(seeds, all)))
    ensures x in Reach(seeds, all)
  {
    var kept := Keep(all, Reach(seeds, all));
    ReachIsLeast(seeds, all);
    KeepMembers(all, Reach(seeds, all));
    EntriesRefsMembers(kept, x);
    var i :| 0 <= i < |kept| && x in SchemaRefs(kept[i].value);
    assert kept[i] in kept;
    var j :| 0 <= j < |all| && all[j] == kept[i];
    FindIs(all, all[j].key, j);
    assert x in Successors(all, all[j].key);
  }

  /** Every reference of the published document that resolved in the full one still resolves. */
  lemma NothingNewDangles(root: Node, x: string)
    requires DistinctSections(root) && Prune(root).Ok?
    requires Refers(Prune(root).value, x) && Defines(root, x)
    ensures Defines(Prune(root).value, x)
  {
    var all, seeds := Schemas(root), SeedsOf(root);
    PrunedIsSound(root);
    RefersIsFound(Prune(root).value, x);
    PruneKeeps(root);
    KeepLookup(all, Reach(seeds, all), x);
    if x in SeedsOf(Prune(root).value) {
      SurvivingSeedsAreSeeds(root, x);
      ReachIsLeast(seeds, all);
    } else {
      KeptRefsAreReached(seeds, all, x);
    }
  }

  // ---- pruning twice -------------------------------------------------------------------------------------------------

  /** The seeds that are left once the security schemes nothing names are gone. */
  function SurvivingSeeds(root: seq<Entry>, components: seq<Entry>): seq<string>
    requires Prunable(components)
  {
    RefsExcept(root, "components") + RefsExcept(KeepSecuritySchemes(root, components), "schemas")
  }

  /** No existing schema is reached only by way of a security scheme that is itself dropped. */
  ghost predicate SchemesPullNothing(root: Node) {
    root.Mapping? && Components(root).Some? && Components(root).value.Mapping? &&
    Prunable(Components(root).value.entries) ==>
      var components := Components(root).value.entries;
      forall e :: e in Schemas(root) && e.key in Reach(SeedsOf(root), Schemas(root)) ==>
        e.key in Reach(SurvivingSeeds(root.entries, components), Schemas(root))
  }

  lemma {:induction false} UsedSchemesElsewhere(es: seq<Entry>, i: nat, v: Node)
    requires i < |es| && es[i].key == "components"
    ensures UsedSchemes(es[i := Entry("components", v)]) == UsedSchemes(es)
    decreases |es|
  {
    var u := es[i := Entry("components", v)];
    var init := es[..|es| - 1];
    if i == |es| - 1 {
      assert u[..|u| - 1] == init;
    } else {
      assert u[..|u| - 1] == init[i := Entry("components", v)];
      UsedSchemesElsewhere(init, i, v);
    }
  }

  /** Two mappings that differ only in `skip` refer to the same schemas elsewhere. */
  lemma SameRefsElsewhere(a: seq<Entry>, b: seq<Entry>, skip: string, x: string)
    requires DistinctKeys(a) && DistinctKeys(b)
    requires forall k :: k != skip ==> (ValueRefersTo(Lookup(a, k), x) <==> ValueRefersTo(Lookup(b, k), x))
    ensures x in RefsExcept(a, skip) <==> x in RefsExcept(b, skip)
  {
    RefsExceptByLookup(a, skip, x);
    RefsExceptByLookup(b, skip, x);
  }

  /** A section that was filtered refers to the same schemas whether or not it goes when empty. */
  lemma SurvivingSectionRefs(root: seq<Entry>, components: seq<Entry>, x: string, k: string)
    requires Prunable(components) && DistinctKeys(components) && k != "schemas"
    ensures ValueRefersTo(Lookup(PrunedComponents(root, components), k), x) <==>
      ValueRefersTo(Lookup(KeepSecuritySchemes(root, components), k), x)
  {
    PrunedLookup(root, components, k);
    LookupWith(components, "securitySchemes", Mapping(KeptSchemes(root, components)), k);
    assert SchemaRefs(Mapping([])) == [];
  }

  lemma SurvivingComponentRefs(root: seq<Entry>, components: seq<Entry>, x: string)
    requires Prunable(components) && DistinctKeys(components)
    ensures x in RefsExcept(PrunedComponents(root, components), "schemas") <==>
      x in RefsExcept(KeepSecuritySchemes(root, components), "schemas")
  {
    var pruned, kept := PrunedComponents(root, components), KeepSecuritySchemes(root, components);
    PrunedLookup(root, components, "schemas");
    LookupWith(components, "securitySchemes", Mapping(KeptSchemes(root, components)), "schemas");
    forall k | k != "schemas" ensures ValueRefersTo(Lookup(pruned, k), x) <==> ValueRefersTo(Lookup(kept, k), x) {
      SurvivingSectionRefs(root, components, x, k);
    }
    SameRefsElsewhere(pruned, kept, "schemas", x);
  }

  lemma SurvivingSeedsExactly(root: Node, x: string)
    requires DistinctSections(root) && Prune(root).Ok? && Components(Prune(root).value).Some?
    requires Components(root).Some? && Components(root).value.Mapping?
    requires Prunable(Components(root).value.entries)
    ensures x in SeedsOf(Prune(root).value) <==>
      x in SurvivingSeeds(root.entries, Components(root).value.entries)
  {
    PruneComponentsOf(root);
    SameRefsElsewhere(root.entries, Prune(root).value.entries, "components", x);
    SurvivingComponentRefs(root.entries, Components(root).value.entries, x);
  }

  /** A second pass requires the same schemes. */
  lemma SameSchemesUsed(root: Node)
    requires DistinctSections(root) && Prune(root).Ok? && Components(Prune(root).value).Some?
    ensures Prune(root).value.Mapping? && UsedSchemes(Prune(root).value.entries) == UsedSchemes(root.entries)
  {
    PruneComponentsOf(root);
    var pruned := PrunedComponents(root.entries, Components(root).value.entries);
    UsedSchemesElsewhere(root.entries, Find(root.entries, "components"), Mapping(pruned));
  }

  lemma SchemesKeptOnce(root: seq<Entry>, components: seq<Entry>)
    requires Prunable(components)
    ensures Keep(KeptSchemes(root, components), NameSet(UsedSchemes(root))) == KeptSchemes(root, components)
  {
    match Lookup(components, "securitySchemes") {
      case None =>
      case Some(n) =>
        KeepMembers(n.entries, NameSet(UsedSchemes(root)));
        KeepMembers(KeptSchemes(root, components), NameSet(UsedSchemes(root)));
    }
  }

  /** A pruned document can be pruned. */
  lemma SecondSections(root: Node)
    requires DistinctSections(root) && Prune(root).Ok? && Components(Prune(root).value).Some?
    ensures var p := Prune(root).value;
      && Components(root).Some? && Components(root).value.Mapping? && Prunable(Components(root).value.entries)
      && Components(p) == Some(Mapping(PrunedComponents(root.entries, Components(root).value.entries)))
      && Prunable(Components(p).value.entries) && DistinctKeys(Components(p).value.entries)
  {
    PruneComponentsOf(root);
    PrunedLookup(root.entries, Components(root).value.entries, "schemas");
    PrunedLookup(root.entries, Components(root).value.entries, "securitySchemes");
  }

  function SchemesIn(components: seq<Entry>): seq<Entry>
    requires Prunable(components)
  {
    match Lookup(components, "securitySchemes")
    case Some(n) => n.entries
    case None => []
  }

  lemma SecondSchemes(root: Node)
    requires DistinctSections(root) && Prune(root).Ok? && Components(Prune(root).value).Some?
    ensures var p := Prune(root).value;
      && Components(p).value.Mapping? && Prunable(Components(p).value.entries) && p.Mapping?
      && KeptSchemes(p.entries, Components(p).value.entries) == SchemesIn(Components(p).value.entries)
  {
    SecondSections(root);
    SameSchemesUsed(root);
    PrunedLookup(root.entries, Components(root).value.entries, "securitySchemes");
    SchemesKeptOnce(root.entries, Components(root).value.entries);
  }

  /** The second pass over the components, section by section. */
  lemma SecondPass(root: Node)
    requires DistinctSections(root) && Prune(root).Ok? && Components(Prune(root).value).Some?
    ensures var p := Prune(root).value;
      && Components(p).value.Mapping? && Prunable(Components(p).value.entries)
      && DistinctKeys(Components(p).value.entries)
      && KeptSchemes(p.entries, Components(p).value.entries) == SchemesIn(Components(p).value.entries)
      && KeptSchemas(p.entries, Components(p).value.entries)
         == Keep(Schemas(p), Reach(SeedsOf(p), Schemas(p)))
  {
    SecondSections(root);
    SecondSchemes(root);
  }

  /** Pruning twice is pruning once exactly when no surviving schema was reached only through a
      security scheme that was dropped: the schemes are pruned after the schemas. */
  lemma PruneTwice(root: Node)
    requires DistinctSections(root) && Prune(root).Ok?
    ensures Prune(root).value.Mapping? && Prune(Prune(root).value).Ok?
    ensures Prune(Prune(root).value) == Prune(root) <==> SchemesPullNothing(root)
  {
    var p := Prune(root).value;
    if Components(root).None? {
    } else {
      PruneComponentsOf(root);
      PruningIsExact(root);
      if Components(p).None? {
        PrunedLookup(root.entries, Components(root).value.entries, "schemas");
        assert Schemas(p) == [];
      } else {
        SecondPass(root);
        SecondPruning(root);
      }
    }
  }

  /** What the second pass reaches: whatever the surviving seeds reached in the first place. */
  lemma SecondReach(root: Node)
    requires DistinctSections(root) && Prune(root).Ok? && Components(root).Some? && Components(Prune(root).value).Some?
    requires Components(root).value.Mapping? && Prunable(Components(root).value.entries)
    ensures var p := Prune(root).value;
      Reach(SeedsOf(p), Schemas(p)) ==
      Reach(SurvivingSeeds(root.entries, Components(root).value.entries), Schemas(root))
  {
    var p := Prune(root).value;
    var all, seeds := Schemas(root), SeedsOf(root);
    var small := SurvivingSeeds(root.entries, Components(root).value.entries);
    PruningIsExact(root);
    forall x ensures x in SeedsOf(p) <==> x in small {
      SurvivingSeedsExactly(root, x);
    }
    forall x | x in SeedsOf(p) ensures x in seeds {
      SurvivingSeedsAreSeeds(root, x);
    }
    forall n ensures Lookup(Schemas(p), n) == if n in Reach(seeds, all) then Lookup(all, n) else None {
      KeepLookup(all, Reach(seeds, all), n);
    }
    SmallerReachAfterPruning(SeedsOf(p), seeds, all, Schemas(p));
    ReachMonotone(SeedsOf(p), small, all);
    ReachMonotone(small, SeedsOf(p), all);
  }

  /** The second pass keeps every schema exactly when the dropped schemes pulled nothing in. */
  lemma SecondKeep(root: Node)
    requires DistinctSections(root) && Prune(root).Ok? && Components(root).Some? && Components(Prune(root).value).Some?
    ensures var p := Prune(root).value;
      var kept := Keep(Schemas(p), Reach(SeedsOf(p), Schemas(p)));
      (SchemesPullNothing(root) ==> kept == Schemas(p)) && (!SchemesPullNothing(root) ==> |kept| < |Schemas(p)|)
  {
    var p := Prune(root).value;
    PruneComponentsOf(root);
    PruningIsExact(root);
    SecondReach(root);
    KeepMembers(Schemas(p), Reach(SeedsOf(p), Schemas(p)));
  }

  lemma SecondPruning(root: Node)
    requires DistinctSections(root) && Prune(root).Ok? && Components(root).Some? && Components(Prune(root).value).Some?
    ensures Prune(root).value.Mapping? && Prune(Prune(root).value).Ok?
    ensures Prune(Prune(root).value) == Prune(root) <==> SchemesPullNothing(root)
  {
    var p := Prune(root).value;
    PruneComponentsOf(root);
    SecondPass(root);
    SecondKeep(root);
    var pruned := Components(p).value.entries;
    if SchemesPullNothing(root) {
      PruneSections(root);
      StablePass(p.entries, pruned);
      WithTwice(p.entries, "components", Mapping(pruned), Mapping(pruned));
    } else {
      var again := PrunedComponents(p.entries, pruned);
      PrunedLookup(p.entries, pruned, "schemas");
      assert again != pruned;
      LookupWith(p.entries, "components", Mapping(again), "components");
      LookupWithout(p.entries, "components", "components");
    }
  }

  /** No section of pruned components is empty. */
  lemma PruneSections(root: Node)
    requires DistinctSections(root) && Prune(root).Ok? && Components(root).Some? && Components(Prune(root).value).Some?
    ensures Components(Prune(root).value).value.Mapping?
    ensures var pruned := Components(Prune(root).value).value.entries;
      && Lookup(pruned, "schemas") == Section(Schemas(Prune(root).value))
      && Lookup(pruned, "securitySchemes") ==
         Section(match Lookup(pruned, "securitySchemes") case Some(Mapping(es)) => es case _ => [])
  {
    PruneComponentsOf(root);
    PrunedLookup(root.entries, Components(root).value.entries, "schemas");
    PrunedLookup(root.entries, Components(root).value.entries, "securitySchemes");
  }

  /** A pass that filters nothing out of non-empty sections is the identity. */
  lemma StablePass(root: seq<Entry>, components: seq<Entry>)
    requires Prunable(components) && DistinctKeys(components)
    requires Lookup(components, "schemas") == Section(KeptSchemas(root, components))
    requires Lookup(components, "securitySchemes") == Section(KeptSchemes(root, components))
    ensures PrunedComponents(root, components) == components
  {
    WithTwice(components, "schemas", Mapping(KeptSchemas(root, components)), Mapping([]));
    WithTwice(components, "securitySchemes", Mapping(KeptSchemes(root, components)), Mapping([]));
    assert KeepSchemas(root, components) == components;
    assert KeepSecuritySchemes(root, components) == components;
  }

  /** What is left reaches every schema that is left exactly when the dropped schemes pulled nothing
      in. */
  lemma NothingUnreachedIff(root: Node)
    requires DistinctSections(root) && Prune(root).Ok?
    ensures var p := Prune(root).value;
      (forall e :: e in Schemas(p) ==> e.key in Reach(SeedsOf(p), Schemas(p))) <==> SchemesPullNothing(root)
  {
    var p := Prune(root).value;
    PruningIsExact(root);
    if Components(root).Some? {
      PruneComponentsOf(root);
      if Components(p).Some? {
        SecondKeep(root);
        KeepMembers(Schemas(p), Reach(SeedsOf(p), Schemas(p)));
      }
    }
  }

  // ---- documents on which one pass is enough ------------------------------------------------------

  /** A reference to a schema anywhere under the security schemes. */
  predicate SchemesRefer(root: Node) {
    Components(root).Some? && MapValue(Components(root).value, "securitySchemes").Some? &&
    SchemaRefs(MapValue(Components(root).value, "securitySchemes").value) != []
  }

  lemma SameSeedsElsewhere(root: seq<Entry>, components: seq<Entry>, x: string)
    requires Prunable(components) && DistinctKeys(components)
    requires Has(components, "securitySchemes") ==> SchemaRefs(Lookup(components, "securitySchemes").value) == []
    requires x in Seeds(root, components)
    ensures x in SurvivingSeeds(root, components)
  {
    var kept := KeepSecuritySchemes(root, components);
    if x in RefsExcept(components, "schemas") {
      LookupWith(components, "securitySchemes", Mapping(KeptSchemes(root, components)), "schemas");
      RefsExceptByLookup(components, "schemas", x);
      RefsExceptByLookup(kept, "schemas", x);
      var k :| k != "schemas" && ValueRefersTo(Lookup(components, k), x);
      LookupWith(components, "securitySchemes", Mapping(KeptSchemes(root, components)), k);
      assert ValueRefersTo(Lookup(kept, k), x);
    }
  }

  /** So it is enough that no security scheme refers to a schema. */
  lemma SchemesWithoutRefs(root: Node)
    requires DistinctSections(root) && !SchemesRefer(root)
    ensures SchemesPullNothing(root)
  {
    if Components(root).Some? && Components(root).value.Mapping? && Prunable(Components(root).value.entries) {
      var components := Components(root).value.entries;
      var seeds, small := SeedsOf(root), SurvivingSeeds(root.entries, components);
      forall x | x in seeds ensures x in small {
        SameSeedsElsewhere(root.entries, components, x);
      }
      ReachMonotone(seeds, small, Schemas(root));
    }
  }

  // ---- security requirements ------------------------------------------------------------------------

  function Schemes(root: Node): seq<Entry> {
    match Components(root)
    case Some(c) => (match MapValue(c, "securitySchemes") case Some(Mapping(es)) => es case _ => [])
    case None => []
  }

  predicate DefinesScheme(root: Node, name: string) {
    Has(Schemes(root), name)
  }

  lemma OmitThenInit(es: seq<Entry>, i: nat)
    requires i < |es| - 1
    ensures var u, init := es[..i] + es[i + 1..], es[..|es| - 1];
      |u| > 0 && u[|u| - 1] == es[|es| - 1] && u[..|u| - 1] == init[..i] + init[i + 1..]
  {
  }

  lemma {:induction false} UsedSchemesWithout(es: seq<Entry>, i: nat)
    requires i < |es| && es[i].key == "components"
    ensures UsedSchemes(es[..i] + es[i + 1..]) == UsedSchemes(es)
    decreases |es|
  {
    var u := es[..i] + es[i + 1..];
    var init := es[..|es| - 1];
    if i == |es| - 1 {
      assert u == init;
    } else {
      OmitThenInit(es, i);
      UsedSchemesWithout(init, i);
    }
  }

  lemma RequirementsElsewhere(es: seq<Entry>, v: Node)
    ensures UsedSchemes(Without(es, "components")) == UsedSchemes(es)
    ensures UsedSchemes(With(es, "components", v)) == UsedSchemes(es)
  {
    if Has(es, "components") {
      UsedSchemesWithout(es, Find(es, "components"));
      UsedSchemesElsewhere(es, Find(es, "components"), v);
    }
  }

  lemma PruneKeepsRequirements(root: Node)
    requires DistinctSections(root) && Prune(root).Ok?
    ensures var p := Prune(root).value; p.Mapping? && UsedSchemes(p.entries) == UsedSchemes(root.entries)
  {
    if Components(root).Some? {
      PruneComponentsOf(root);
      RequirementsElsewhere(root.entries, Mapping(PrunedComponents(root.entries, Components(root).value.entries)));
    }
  }

  /** The schemes that survive are exactly the required ones, and pruning changes no requirement; so a
      requirement resolves in the pruned document exactly if it did before. */
  lemma RequirementsStillResolve(root: Node, name: string)
    requires DistinctSections(root) && Prune(root).Ok?
    ensures var p := Prune(root).value;
      && (Requires(p, name) <==> Requires(root, name))
      && (DefinesScheme(p, name) <==> DefinesScheme(root, name) && Requires(root, name))
  {
    PruneKeepsRequirements(root);
    RequiredIsFound(root, name);
    RequiredIsFound(Prune(root).value, name);
    if Components(root).Some? {
      PruneComponentsOf(root);
      var components := Components(root).value.entries;
      PrunedLookup(root.entries, components, "securitySchemes");
      KeepLookup(Schemes(root), NameSet(UsedSchemes(root.entries)), name);
      assert Schemes(Prune(root).value) == KeptSchemes(root.entries, components);
    }
  }
}
