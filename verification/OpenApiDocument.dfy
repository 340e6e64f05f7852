/**
 The publisher itself: the rewrites of `Public` as they are performed on the document, and what
 their composition promises (backend/internal/openapi/openapi.go).
 */
module OpenApiDocument {
  import opened YamlTree
  import opened OpenApiOperations
  import opened OpenApiPrune
  import opened OpenApiRefs
  import opened Wrappers

  // ---- the rewrites composed ----------------------------------------------------------------

  function RewriteInfo(root: Node, title: string, description: string): Result<Node, SpecError> {
    match MapValue(root, "info")
    case Some(Mapping(info)) =>
      if Has(info, "title") && Has(info, "description") then
        var rewritten := SetScalar(SetScalar(Mapping(info), "title", title), "description", description);
        Ok(Mapping(With(root.entries, "info", rewritten)))
      else Err(Malformed)
    case _ => Err(Malformed)
  }

  /** The tree after its internal operations are gone and its info is rewritten. */
  function Rewritten(root: Node, title: string, description: string): Result<Node, SpecError> {
    match DropInternal(root)
    case Ok(dropped) => RewriteInfo(dropped, title, description)
    case Err(e) => Err(e)
  }

  ghost function Public(root: Node, title: string, description: string): Result<Node, SpecError> {
    match Rewritten(root, title, description)
    case Ok(x) => Prune(x)
    case Err(e) => Err(e)
  }

  // ---- the worklist ------------------------------------------------------------------------------

  /** Nothing outside the least closed set has been visited or queued, and what is still missing
      from it is queued. */
  ghost predicate Working(reachable: set<string>, frontier: seq<string>, least: set<string>,
                          seeds: seq<string>, schemas: seq<Entry>) {
    && reachable <= least
    && (forall x :: x in frontier ==> x in least)
    && (forall x :: x in seeds ==> x in reachable || x in frontier)
    && (forall n, x :: n in reachable && x in Successors(schemas, n) ==> x in reachable || x in frontier)
  }

  lemma WorklistStep(reachable: set<string>, rest: seq<string>, name: string, least: set<string>,
                     seeds: seq<string>, schemas: seq<Entry>)
    requires Closed(least, seeds, schemas) && Working(reachable, rest + [name], least, seeds, schemas)
    ensures name in least
    ensures if name in reachable then Working(reachable, rest, least, seeds, schemas)
            else Working(reachable + {name}, rest + Successors(schemas, name), least, seeds, schemas)
  {
    assert name in rest + [name];
    assert forall x :: x in rest ==> x in rest + [name];
  }

  // ---- the document in place ------------------------------------------------------------------

  class Document {
    var root: Node

    constructor (root: Node)
      ensures this.root == root
    {
      this.root := root;
    }

    method DropInternalOperations() returns (ok: bool)
      modifies this
      ensures ok <==> DropInternal(old(root)).Ok?
      ensures root == if ok then DropInternal(old(root)).value else old(root)
    {
      var found := MapValue(root, "paths");
      if found.None? || !found.value.Mapping? {
        return false;
      }
      var kept;
      ok, kept := KeepPaths(found.value.entries);
      if ok {
        root := Mapping(With(root.entries, "paths", Mapping(kept)));
      }
    }

    /** The outer loop over the path items. */
    method KeepPaths(paths: seq<Entry>) returns (ok: bool, kept: seq<Entry>)
      ensures ok <==> AllMappings(paths)
      ensures ok ==> kept == KeptPaths(paths)
    {
      kept := [];
      for i := 0 to |paths|
        invariant AllMappings(paths[..i]) && kept == KeptPaths(paths[..i])
      {
        var item := paths[i];
        if !item.value.Mapping? {
          return false, [];
        }
        assert paths[..i + 1][..i] == paths[..i];
        var keptOps, operations := KeepOperations(item.value.entries);
        if operations > 0 {
          kept := kept + [Entry(item.key, Mapping(keptOps))];
        }
      }
      assert paths[..|paths|] == paths;
      return true, kept;
    }

    /** The inner loop over one path item, counting the operations it keeps. */
    method KeepOperations(fields: seq<Entry>) returns (kept: seq<Entry>, operations: nat)
      ensures kept == KeptFields(fields)
      ensures operations > 0 <==> HasOperation(fields)
    {
      kept, operations := [], 0;
      for j := 0 to |fields|
        invariant kept == KeptFields(fields[..j])
        invariant operations > 0 <==> exists i :: 0 <= i < j && IsMethod(fields[i].key) && !IsInternal(fields[i].value)
      {
        assert fields[..j + 1][..j] == fields[..j];
        var field := fields[j];
        if !IsMethod(field.key) {
          kept := kept + [field];
        } else if ScalarAt(field.value, AUDIENCE_KEY) != AUDIENCE_INTERNAL {
          operations := operations + 1;
          kept := kept + [Entry(field.key, MapDelete(field.value, AUDIENCE_KEY))];
        }
      }
      assert fields[..|fields|] == fields;
    }

    method RewriteTitle(title: string, description: string) returns (ok: bool)
      modifies this
      ensures ok <==> RewriteInfo(old(root), title, description).Ok?
      ensures root == if ok then RewriteInfo(old(root), title, description).value else old(root)
    {
      var found := MapValue(root, "info");
      if found.None? || !found.value.Mapping? {
        return false;
      }
      var info := found.value;
      if MapValue(info, "title").None? || MapValue(info, "description").None? {
        return false;
      }
      info := SetScalar(info, "title", title);
      info := SetScalar(info, "description", description);
      root := Mapping(With(root.entries, "info", info));
      return true;
    }

    /** The worklist: it ends on cyclic schema graphs, with exactly what the seeds reach. */
    method Reachable(seeds: seq<string>, schemas: seq<Entry>) returns (reachable: set<string>)
      ensures reachable == Reach(seeds, schemas)
    {
      reachable := {};
      var frontier := seeds;
      ghost var least := Reach(seeds, schemas);
      ReachIsLeast(seeds, schemas);
      while |frontier| > 0
        invariant Working(reachable, frontier, least, seeds, schemas)
        decreases least - reachable, |frontier|
      {
        var name := frontier[|frontier| - 1];
        assert frontier == frontier[..|frontier| - 1] + [name];
        frontier := frontier[..|frontier| - 1];
        WorklistStep(reachable, frontier, name, least, seeds, schemas);
        if name !in reachable {
          reachable := reachable + {name};
          frontier := frontier + Successors(schemas, name);
        }
      }
      assert Closed(reachable, seeds, schemas);
    }

    method KeepNamed(es: seq<Entry>, names: set<string>) returns (kept: seq<Entry>)
      ensures kept == Keep(es, names)
    {
      kept := [];
      for i := 0 to |es|
        invariant kept == Keep(es[..i], names)
      {
        assert es[..i + 1][..i] == es[..i];
        if es[i].key in names {
          kept := kept + [es[i]];
        }
      }
      assert es[..|es|] == es;
    }

    method CollectRefs(es: seq<Entry>, skip: string) returns (refs: seq<string>)
      ensures refs == RefsExcept(es, skip)
    {
      refs := [];
      for i := 0 to |es|
        invariant refs == RefsExcept(es[..i], skip)
      {
        assert es[..i + 1][..i] == es[..i];
        if es[i].key != skip {
          refs := refs + SchemaRefs(es[i].value);
        }
      }
      assert es[..|es|] == es;
    }

    method PruneSchemas(components: seq<Entry>) returns (pruned: seq<Entry>)
      requires root.Mapping? && Has(components, "schemas") && MappingOrAbsent(Lookup(components, "schemas"))
      ensures pruned == KeepSchemas(root.entries, components)
    {
      var schemas := Lookup(components, "schemas").value.entries;
      var outside := CollectRefs(root.entries, "components");
      var beside := CollectRefs(components, "schemas");
      var reachable := Reachable(outside + beside, schemas);
      var kept := KeepNamed(schemas, reachable);
      pruned := With(components, "schemas", Mapping(kept));
    }

    method PruneSchemes(components: seq<Entry>) returns (pruned: seq<Entry>)
      requires root.Mapping? && Has(components, "securitySchemes")
      requires MappingOrAbsent(Lookup(components, "securitySchemes"))
      ensures pruned == KeepSecuritySchemes(root.entries, components)
    {
      var schemes := Lookup(components, "securitySchemes").value.entries;
      var kept := KeepNamed(schemes, NameSet(UsedSchemes(root.entries)));
      pruned := With(components, "securitySchemes", Mapping(kept));
    }

    method PruneComponents() returns (ok: bool)
      requires root.Mapping?
      modifies this
      ensures ok <==> Prune(old(root)).Ok?
      ensures root == if ok then Prune(old(root)).value else old(root)
    {
      var found := MapValue(root, "components");
      if found.None? {
        return true;
      }
      if !found.value.Mapping? {
        return false;
      }
      var components := found.value.entries;
      var schemas, schemes := Lookup(components, "schemas"), Lookup(components, "securitySchemes");
      if !MappingOrAbsent(schemas) || !MappingOrAbsent(schemes) {
        return false;
      }
      KeptElsewhere(root.entries, components);
      if schemas.Some? {
        components := PruneSchemas(components);
      }
      if schemes.Some? {
        components := PruneSchemes(components);
      }
      components := DropEmpty(components, "schemas");
      components := DropEmpty(components, "securitySchemes");
      if components == [] {
        root := Mapping(Without(root.entries, "components"));
      } else {
        root := Mapping(With(root.entries, "components", Mapping(components)));
      }
      return true;
    }

    /** `Public`, up to parsing and encoding. A failure leaves the tree part-way; the source then
        returns no document at all. */
    method Publish(title: string, description: string) returns (ok: bool)
      modifies this
      ensures ok <==> Public(old(root), title, description).Ok?
      ensures ok ==> root == Public(old(root), title, description).value
    {
      ok := DropInternalOperations();
      if ok {
        ok := RewriteTitle(title, description);
        if ok {
          ok := PruneComponents();
        }
      }
    }
  }

  // ---- what publishing promises -----------------------------------------------------------------

  /** The mappings the rewrites look into hold no key twice. */
  predicate WellKeyed(root: Node) {
    && DistinctSections(root)
    && (MapValue(root, "paths").Some? && MapValue(root, "paths").value.Mapping? ==>
          DistinctOperations(MapValue(root, "paths").value.entries))
  }

  /** The earlier rewrites do not touch the components. */
  lemma RewrittenLookup(root: Node, title: string, description: string, key: string)
    requires Rewritten(root, title, description).Ok? && root.Mapping?
    ensures var x := Rewritten(root, title, description).value;
      && x.Mapping?
      && (key != "paths" && key != "info" ==> Lookup(x.entries, key) == Lookup(root.entries, key))
      && Lookup(x.entries, "paths") == Lookup(DropInternal(root).value.entries, "paths")
      && (DistinctKeys(root.entries) ==> DistinctKeys(x.entries))
  {
    var dropped := DropInternal(root).value;
    var paths := MapValue(root, "paths").value.entries;
    var info := MapValue(dropped, "info").value;
    var rewritten := SetScalar(SetScalar(info, "title", title), "description", description);
    LookupWith(root.entries, "paths", Mapping(KeptPaths(paths)), key);
    LookupWith(dropped.entries, "info", rewritten, key);
    LookupWith(dropped.entries, "info", rewritten, "paths");
  }

  /** The info of a rewritten tree is a fixed point of the rewrite. */
  lemma InfoSettles(root: Node, title: string, description: string)
    requires RewriteInfo(root, title, description).Ok?
    ensures var x := RewriteInfo(root, title, description).value;
      forall y: Node :: y.Mapping? && Lookup(y.entries, "info") == Lookup(x.entries, "info") ==>
        RewriteInfo(y, title, description) == Ok(y)
  {
    var info := MapValue(root, "info").value.entries;
    var titled := With(info, "title", Scalar(title));
    var done := With(titled, "description", Scalar(description));
    var x := RewriteInfo(root, title, description).value;
    LookupWith(root.entries, "info", Mapping(done), "info");
    assert Lookup(x.entries, "info") == Some(Mapping(done));
    LookupWith(info, "title", Scalar(title), "title");
    LookupWith(info, "title", Scalar(title), "description");
    LookupWith(titled, "description", Scalar(description), "title");
    LookupWith(titled, "description", Scalar(description), "description");
    WithTwice(done, "title", Scalar(title), Scalar(title));
    WithTwice(done, "description", Scalar(description), Scalar(description));
    forall y: Node | y.Mapping? && Lookup(y.entries, "info") == Some(Mapping(done))
      ensures RewriteInfo(y, title, description) == Ok(y)
    {
      WithTwice(y.entries, "info", Mapping(done), Mapping(done));
    }
  }

  lemma RewrittenSections(root: Node, title: string, description: string)
    requires Rewritten(root, title, description).Ok? && WellKeyed(root)
    ensures DistinctSections(Rewritten(root, title, description).value)
  {
    RewrittenLookup(root, title, description, "components");
    var x := Rewritten(root, title, description).value;
    assert Components(x) == Components(root);
    assert Schemas(x) == Schemas(root);
  }

  /** Outside its components the published tree is the rewritten one. */
  lemma PrunedElsewhere(x: Node, key: string)
    requires DistinctSections(x) && Prune(x).Ok? && key != "components"
    ensures Prune(x).value.Mapping? && Lookup(Prune(x).value.entries, key) == Lookup(x.entries, key)
  {
    if Components(x).Some? {
      PruneComponentsOf(x);
    }
  }

  /** The published document lists exactly the operations the full one does not mark internal,
      unmarked; every path item in it has one. */
  lemma PublicListsThePublicOperations(root: Node, title: string, description: string)
    requires WellKeyed(root) && Public(root, title, description).Ok?
    ensures var p := Public(root, title, description).value;
      && Listed(root).Ok?
      && Listed(p) == Ok(Published(Listed(root).value))
      && forall item :: item in MapValue(p, "paths").value.entries ==> SettledItem(item)
  {
    var x := Rewritten(root, title, description).value;
    RewrittenSections(root, title, description);
    RewrittenLookup(root, title, description, "paths");
    PrunedElsewhere(x, "paths");
    DropCommutesWithListing(root);
    DropSettles(root);
  }

  /** Publishing a published document again changes nothing, exactly when no schema was kept only
      for the sake of a security scheme that was then dropped. */
  lemma PublicTwice(root: Node, title: string, description: string)
    requires WellKeyed(root) && Public(root, title, description).Ok?
    ensures var p := Public(root, title, description).value;
      && Public(p, title, description).Ok?
      && (Public(p, title, description) == Ok(p) <==>
          SchemesPullNothing(Rewritten(root, title, description).value))
  {
    var x := Rewritten(root, title, description).value;
    var p := Public(root, title, description).value;
    RewrittenSections(root, title, description);
    RewrittenLookup(root, title, description, "paths");
    PrunedElsewhere(x, "paths");
    PrunedElsewhere(x, "info");
    DropSettles(root);
    var dropped := DropInternal(root).value;
    var paths := MapValue(p, "paths").value.entries;
    assert DropInternal(p) == Ok(p) by {
      assert MapValue(p, "paths") == MapValue(dropped, "paths");
      DropAgain(dropped, p);
    }
    InfoSettles(dropped, title, description);
    assert Rewritten(p, title, description) == Ok(p);
    PruneTwice(x);
  }

  lemma DropAgain(dropped: Node, p: Node)
    requires dropped.Mapping? && p.Mapping? && MapValue(p, "paths") == MapValue(dropped, "paths")
    requires DropInternal(dropped) == Ok(dropped)
    ensures DropInternal(p) == Ok(p)
  {
    var paths := MapValue(p, "paths").value.entries;
    LookupWith(dropped.entries, "paths", Mapping(KeptPaths(paths)), "paths");
    assert Mapping(KeptPaths(paths)) == Mapping(paths);
    WithTwice(p.entries, "paths", Mapping(paths), Mapping(paths));
  }

  /** The published schemas are exactly the existing ones that the rewritten document reaches from
      outside its schemas, before its unused security schemes are dropped; and nothing of the
      published document dangles that did not dangle before. */
  lemma PublicSchemasAreExact(root: Node, title: string, description: string, name: string)
    requires WellKeyed(root) && Public(root, title, description).Ok?
    ensures var x, p := Rewritten(root, title, description).value, Public(root, title, description).value;
      && (Defines(p, name) <==> Defines(root, name) && name in Reach(SeedsOf(x), Schemas(root)))
      && (Refers(p, name) && Defines(root, name) ==> Defines(p, name))
  {
    var x := Rewritten(root, title, description).value;
    RewrittenSections(root, title, description);
    RewrittenLookup(root, title, description, "components");
    assert Schemas(x) == Schemas(root);
    PruningIsExact(x);
    KeepLookup(Schemas(x), Reach(SeedsOf(x), Schemas(x)), name);
    if Refers(Public(root, title, description).value, name) && Defines(root, name) {
      NothingNewDangles(x, name);
    }
  }

  /** Every published schema is reached from the published document itself exactly when no schema was
      kept only for a security scheme that was then dropped. */
  lemma PublicReachesItsSchemasIff(root: Node, title: string, description: string)
    requires WellKeyed(root) && Public(root, title, description).Ok?
    ensures var p := Public(root, title, description).value;
      (forall e :: e in Schemas(p) ==> e.key in Reach(SeedsOf(p), Schemas(p))) <==>
      SchemesPullNothing(Rewritten(root, title, description).value)
  {
    RewrittenSections(root, title, description);
    NothingUnreachedIff(Rewritten(root, title, description).value);
  }

  /** The published schemes are exactly the ones a published operation, or the document itself,
      requires; and a requirement that resolved still does. */
  lemma PublicRequirementsResolve(root: Node, title: string, description: string, name: string)
    requires WellKeyed(root) && Public(root, title, description).Ok?
    ensures var p := Public(root, title, description).value;
      DefinesScheme(p, name) <==> DefinesScheme(root, name) && Requires(p, name)
  {
    var x := Rewritten(root, title, description).value;
    RewrittenSections(root, title, description);
    RewrittenLookup(root, title, description, "components");
    assert Schemes(x) == Schemes(root);
    RequirementsStillResolve(x, name);
  }

  /** Publishing twice is publishing once for every document whose security schemes refer to no
      schema. */
  lemma PublicOnceIsEnough(root: Node, title: string, description: string)
    requires WellKeyed(root) && Public(root, title, description).Ok? && !SchemesRefer(root)
    ensures var p := Public(root, title, description).value; Public(p, title, description) == Ok(p)
  {
    var x := Rewritten(root, title, description).value;
    RewrittenSections(root, title, description);
    RewrittenLookup(root, title, description, "components");
    assert Components(x) == Components(root);
    SchemesWithoutRefs(x);
    PublicTwice(root, title, description);
  }

  // ---- a document that is not published in one go --------------------------------------------------

  /** A schema `name` that only an unused security scheme refers to. */
  function UnusedComponents(name: string): seq<Entry> {
    [Entry("schemas", Mapping([Entry(name, Scalar(""))])),
     Entry("securitySchemes", Mapping([Entry("unused",
       Mapping([Entry("$ref", Scalar(SCHEMA_REF_PREFIX + name))]))]))]
  }

  function InfoOf(title: string, description: string): seq<Entry> {
    [Entry("title", Scalar(title)), Entry("description", Scalar(description))]
  }

  /** A document the publisher accepts: no paths, its own title and description, and those components. */
  function UnusedSchemeDocument(name: string, title: string, description: string): Node {
    Mapping([
      Entry("paths", Mapping([])), Entry("info", Mapping(InfoOf(title, description))),
      Entry("components", Mapping(UnusedComponents(name)))])
  }

  lemma UnusedSchemeRefers(name: string)
    ensures name in RefsExcept(UnusedComponents(name), "schemas")
  {
    var components := UnusedComponents(name);
    var schemes := components[1].value.entries;
    var fields := schemes[0].value.entries;
    assert name in OwnRefs(fields) by {
      assert fields[..0] == [] && RefName(fields[0].value) == [name];
    }
    assert name in SchemaRefs(schemes[0].value);
    EntriesRefsMembers(schemes, name);
    assert RefersTo(components[1], name);
    RefsExceptMembers(components, "schemas", name);
  }

  lemma OneMoreScalar(es: seq<Entry>, e: Entry)
    requires e.value.Scalar? && e.key != "$ref"
    ensures OwnRefs(es + [e]) == OwnRefs(es) && EntriesRefs(es + [e]) == EntriesRefs(es)
    ensures EntriesSecurityNames(es + [e]) == EntriesSecurityNames(es)
  {
    assert (es + [e])[..|es|] == es;
    assert SchemaRefs(e.value) == [] && SecurityNames(e.value) == [] && RequirementNames(e.value) == [];
    assert EntriesSecurityNames(es + [e]) == EntriesSecurityNames(es) + [] + [];
  }

  /** Two scalars refer to nothing and require nothing. */
  lemma InfoIsBare(title: string, description: string)
    ensures SchemaRefs(Mapping(InfoOf(title, description))) == []
    ensures SecurityNames(Mapping(InfoOf(title, description))) == []
  {
    var a, b := Entry("title", Scalar(title)), Entry("description", Scalar(description));
    OneMoreScalar([], a);
    OneMoreScalar([a], b);
    assert [] + [a] == [a] && InfoOf(title, description) == [a] + [b];
  }

  lemma OneMoreOutside(es: seq<Entry>, e: Entry)
    ensures UsedSchemes(es + [e]) == UsedSchemes(es) +
      if e.key == "components" then []
      else (if e.key == "security" then RequirementNames(e.value) else []) + SecurityNames(e.value)
    ensures RefsExcept(es + [e], "components") ==
      RefsExcept(es, "components") + if e.key == "components" then [] else SchemaRefs(e.value)
  {
    assert (es + [e])[..|es|] == es;
  }

  lemma OutsideIsBare(name: string, title: string, description: string)
    ensures var root := UnusedSchemeDocument(name, title, description);
      UsedSchemes(root.entries) == [] && RefsExcept(root.entries, "components") == []
  {
    var es := UnusedSchemeDocument(name, title, description).entries;
    InfoIsBare(title, description);
    assert SchemaRefs(Mapping([])) == [] && SecurityNames(Mapping([])) == [];
    OneMoreOutside([], es[0]);
    OneMoreOutside([es[0]], es[1]);
    OneMoreOutside([es[0], es[1]], es[2]);
    assert [] + [es[0]] == [es[0]] && [es[0]] + [es[1]] == [es[0], es[1]] && es == [es[0], es[1]] + [es[2]];
  }

  lemma SchemesAllGo(root: seq<Entry>, name: string)
    requires UsedSchemes(root) == []
    ensures Prunable(UnusedComponents(name))
    ensures KeepSecuritySchemes(root, UnusedComponents(name)) ==
      [UnusedComponents(name)[0], Entry("securitySchemes", Mapping([]))]
  {
    var components := UnusedComponents(name);
    var schemes := components[1].value.entries;
    FindIs(components, "schemas", 0);
    FindIs(components, "securitySchemes", 1);
    assert Keep(schemes, {}) == [] by {
      assert schemes[..0] == [];
    }
    assert NameSet([]) == {};
  }

  lemma UnusedSchemeGoes(name: string, title: string, description: string)
    ensures var root := UnusedSchemeDocument(name, title, description);
      Prunable(UnusedComponents(name)) && SurvivingSeeds(root.entries, UnusedComponents(name)) == []
  {
    var root := UnusedSchemeDocument(name, title, description);
    OutsideIsBare(name, title, description);
    SchemesAllGo(root.entries, name);
    var kept := KeepSecuritySchemes(root.entries, UnusedComponents(name));
    assert SchemaRefs(Mapping([])) == [];
    assert kept[..1] == [UnusedComponents(name)[0]] && kept[..1][..0] == [];
    assert RefsExcept(kept[..1], "schemas") == [] && kept[..|kept| - 1] == kept[..1];
    assert RefsExcept(kept, "schemas") == [];
  }

  lemma NothingReachesNothing(schemas: seq<Entry>)
    ensures Reach([], schemas) == {}
  {
    assert Closed({}, [], schemas);
    ReachIsLeast([], schemas);
  }

  lemma UnusedSections(name: string, title: string, description: string)
    ensures var root := UnusedSchemeDocument(name, title, description);
      && MapValue(root, "paths") == Some(Mapping([])) && MapValue(root, "info") == Some(Mapping(InfoOf(title, description)))
      && Components(root) == Some(Mapping(UnusedComponents(name))) && Schemas(root) == [Entry(name, Scalar(""))]
      && DistinctSections(root) && WellKeyed(root)
  {
    var root := UnusedSchemeDocument(name, title, description);
    FindIs(root.entries, "paths", 0);
    FindIs(root.entries, "info", 1);
    FindIs(root.entries, "components", 2);
    FindIs(UnusedComponents(name), "schemas", 0);
  }

  lemma UnusedSchemePulls(name: string, title: string, description: string)
    ensures var root := UnusedSchemeDocument(name, title, description);
      DistinctSections(root) && Prune(root).Ok? && !SchemesPullNothing(root)
  {
    var root := UnusedSchemeDocument(name, title, description);
    var schemas := [Entry(name, Scalar(""))];
    UnusedSections(name, title, description);
    UnusedSchemeRefers(name);
    UnusedSchemeGoes(name, title, description);
    ReachIsLeast(SeedsOf(root), schemas);
    NothingReachesNothing(schemas);
    assert schemas[0] in Schemas(root) && name in Reach(SeedsOf(root), schemas);
  }

  /** The first two rewrites only give the document its new title and description. */
  lemma UnusedRewritten(name: string, t0: string, d0: string, title: string, description: string)
    ensures Rewritten(UnusedSchemeDocument(name, t0, d0), title, description) ==
      Ok(UnusedSchemeDocument(name, title, description))
  {
    var root := UnusedSchemeDocument(name, t0, d0);
    UnusedSections(name, t0, d0);
    WithTwice(root.entries, "paths", Mapping([]), Mapping([]));
    assert DropInternal(root) == Ok(root);
    var info := InfoOf(t0, d0);
    FindIs(info, "title", 0);
    FindIs(info, "description", 1);
    assert With(info, "title", Scalar(title)) == InfoOf(title, d0);
    FindIs(InfoOf(title, d0), "description", 1);
    assert With(InfoOf(title, d0), "description", Scalar(description)) == InfoOf(title, description);
    FindIs(root.entries, "info", 1);
    FindIs(info, "description", 1);
    assert SetScalar(SetScalar(Mapping(info), "title", title), "description", description) ==
      Mapping(InfoOf(title, description));
    assert With(root.entries, "info", Mapping(InfoOf(title, description))) ==
      UnusedSchemeDocument(name, title, description).entries;
  }

  /** Publishing is not idempotent: on every such document the first pass drops the scheme and only
      the second one drops the schema, so that publishing what was published changes it. */
  lemma OnePassIsNotEnough(name: string, t0: string, d0: string, title: string, description: string)
    ensures var root := UnusedSchemeDocument(name, t0, d0);
      && WellKeyed(root) && Public(root, title, description).Ok?
      && var p := Public(root, title, description).value;
         Public(p, title, description).Ok? && Public(p, title, description) != Ok(p)
  {
    var root := UnusedSchemeDocument(name, t0, d0);
    UnusedSections(name, t0, d0);
    UnusedRewritten(name, t0, d0, title, description);
    UnusedSchemePulls(name, title, description);
    PublicTwice(root, title, description);
  }
}
