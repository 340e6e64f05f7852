/**
 What a node of the document refers to: component schemas by `$ref`, and security schemes by the keys
 of `security` lists (backend/internal/openapi/openapi.go, `schemaRefs`, `securitySchemeNames` and
 `requirementNames`). What the walks find is pinned to positions in the tree.
 */
module OpenApiRefs {
  import opened YamlTree
  import opened Wrappers

  const SCHEMA_REF_PREFIX := "#/components/schemas/"

  // ---- references under a node --------------------------------------------------------------

  function RefName(value: Node): seq<string> {
    if value.Scalar? && SCHEMA_REF_PREFIX <= value.text then [value.text[|SCHEMA_REF_PREFIX|..]] else []
  }

  function OwnRefs(es: seq<Entry>): seq<string> {
    if es == [] then []
    else OwnRefs(es[..|es| - 1]) + if es[|es| - 1].key == "$ref" then RefName(es[|es| - 1].value) else []
  }

  /** Every schema reference under a node. */
  function SchemaRefs(n: Node): seq<string>
    decreases n, 1
  {
    match n
    case Scalar(_) => []
    case Mapping(es) => OwnRefs(es) + EntriesRefs(es)
    case Sequence(items) => ItemsRefs(items)
  }

  function EntriesRefs(es: seq<Entry>): seq<string>
    decreases es, 0
  {
    if es == [] then [] else EntriesRefs(es[..|es| - 1]) + SchemaRefs(es[|es| - 1].value)
  }

  function ItemsRefs(items: seq<Node>): seq<string>
    decreases items, 0
  {
    if items == [] then [] else ItemsRefs(items[..|items| - 1]) + SchemaRefs(items[|items| - 1])
  }

  /** References under every entry but those for one key. */
  function RefsExcept(es: seq<Entry>, skip: string): seq<string> {
    if es == [] then []
    else RefsExcept(es[..|es| - 1], skip) + if es[|es| - 1].key == skip then [] else SchemaRefs(es[|es| - 1].value)
  }

  lemma {:induction false} EntriesRefsMembers(es: seq<Entry>, x: string)
    ensures x in EntriesRefs(es) <==> exists i :: 0 <= i < |es| && x in SchemaRefs(es[i].value)
    decreases |es|
  {
    if es != [] {
      var init := es[..|es| - 1];
      EntriesRefsMembers(init, x);
      if x in EntriesRefs(init) {
        var i :| 0 <= i < |init| && x in SchemaRefs(init[i].value);
        assert x in SchemaRefs(es[i].value);
      }
    }
  }

  predicate RefersTo(e: Entry, x: string) {
    x in SchemaRefs(e.value)
  }

  lemma {:induction false} RefsExceptMembers(es: seq<Entry>, skip: string, x: string)
    ensures x in RefsExcept(es, skip) <==> exists i :: 0 <= i < |es| && es[i].key != skip && RefersTo(es[i], x)
    decreases |es|
  {
    if es != [] {
      var init, last := es[..|es| - 1], es[|es| - 1];
      RefsExceptMembers(init, skip, x);
      if x in RefsExcept(init, skip) {
        var i :| 0 <= i < |init| && init[i].key != skip && RefersTo(init[i], x);
        assert es[i] == init[i];
      } else if x in RefsExcept(es, skip) {
        assert last.key != skip && RefersTo(last, x);
      } else {
        forall i | 0 <= i < |es| && es[i].key != skip ensures !RefersTo(es[i], x) {
          if i < |init| {
            assert es[i] == init[i];
          }
        }
      }
    }
  }

  /** With distinct keys an entry is what its key looks up. */
  lemma RefsExceptByLookup(es: seq<Entry>, skip: string, x: string)
    requires DistinctKeys(es)
    ensures x in RefsExcept(es, skip) <==> exists k :: k != skip && ValueRefersTo(Lookup(es, k), x)
  {
    RefsExceptMembers(es, skip, x);
    if x in RefsExcept(es, skip) {
      var i :| 0 <= i < |es| && es[i].key != skip && RefersTo(es[i], x);
      FindIs(es, es[i].key, i);
      assert ValueRefersTo(Lookup(es, es[i].key), x);
    }
    if k :| k != skip && ValueRefersTo(Lookup(es, k), x) {
      assert RefersTo(es[Find(es, k)], x);
    }
  }

  predicate ValueRefersTo(n: Option<Node>, x: string) {
    n.Some? && x in SchemaRefs(n.value)
  }

  // ---- security schemes -----------------------------------------------------------------------------

  function Keys(es: seq<Entry>): seq<string> {
    seq(|es|, i requires 0 <= i < |es| => es[i].key)
  }

  /** The scheme keys named by one requirement list. */
  function RequirementNames(list: Node): seq<string> {
    if list.Sequence? then RequirementItems(list.items) else []
  }

  function RequirementItems(items: seq<Node>): seq<string> {
    if items == [] then []
    else RequirementItems(items[..|items| - 1]) +
         if items[|items| - 1].Mapping? then Keys(items[|items| - 1].entries) else []
  }

  /** The keys named by every `security:` list under a node. */
  function SecurityNames(n: Node): seq<string>
    decreases n, 1
  {
    match n
    case Scalar(_) => []
    case Mapping(es) => EntriesSecurityNames(es)
    case Sequence(items) => ItemsSecurityNames(items)
  }

  function EntriesSecurityNames(es: seq<Entry>): seq<string>
    decreases es, 0
  {
    if es == [] then []
    else
      var last := es[|es| - 1];
      EntriesSecurityNames(es[..|es| - 1]) +
      (if last.key == "security" then RequirementNames(last.value) else []) + SecurityNames(last.value)
  }

  function ItemsSecurityNames(items: seq<Node>): seq<string>
    decreases items, 0
  {
    if items == [] then [] else ItemsSecurityNames(items[..|items| - 1]) + SecurityNames(items[|items| - 1])
  }

  /** The scheme names required anywhere in the document outside its components. */
  function UsedSchemes(root: seq<Entry>): seq<string> {
    if root == [] then []
    else
      var last := root[|root| - 1];
      UsedSchemes(root[..|root| - 1]) +
      if last.key == "components" then []
      else (if last.key == "security" then RequirementNames(last.value) else []) + SecurityNames(last.value)
  }

  function NameSet(names: seq<string>): set<string> {
    set x | x in names
  }

  // ---- positions ------------------------------------------------------------------------------

  function Children(n: Node): seq<Node> {
    match n
    case Scalar(_) => []
    case Mapping(es) => seq(|es|, i requires 0 <= i < |es| => es[i].value)
    case Sequence(items) => items
  }

  /** The node a path of child positions leads to. */
  function At(n: Node, path: seq<nat>): Option<Node>
    decreases |path|
  {
    if path == [] then Some(n)
    else if path[0] < |Children(n)| then At(Children(n)[path[0]], path[1..])
    else None
  }

  lemma AtStep(n: Node, k: nat, path: seq<nat>)
    ensures At(n, [k] + path) == if k < |Children(n)| then At(Children(n)[k], path) else None
  {
    assert ([k] + path)[1..] == path;
  }

  /** The node is itself a reference to the schema. */
  predicate HoldsRef(n: Node, x: string) {
    n.Mapping? && exists j :: 0 <= j < |n.entries| && n.entries[j] == Entry("$ref", Scalar(SCHEMA_REF_PREFIX + x))
  }

  predicate RefAt(n: Node, path: seq<nat>, x: string) {
    At(n, path).Some? && HoldsRef(At(n, path).value, x)
  }

  lemma RefNameIs(v: Node, x: string)
    ensures x in RefName(v) <==> v == Scalar(SCHEMA_REF_PREFIX + x)
  {
    if v.Scalar? && SCHEMA_REF_PREFIX <= v.text {
      assert v.text == SCHEMA_REF_PREFIX + v.text[|SCHEMA_REF_PREFIX|..];
    }
    assert (SCHEMA_REF_PREFIX + x)[|SCHEMA_REF_PREFIX|..] == x;
  }

  lemma {:induction false} OwnRefsMembers(es: seq<Entry>, x: string)
    ensures x in OwnRefs(es) <==>
      exists j :: 0 <= j < |es| && es[j] == Entry("$ref", Scalar(SCHEMA_REF_PREFIX + x))
    decreases |es|
  {
    if es != [] {
      var init, last := es[..|es| - 1], es[|es| - 1];
      OwnRefsMembers(init, x);
      RefNameIs(last.value, x);
      if x in OwnRefs(init) {
        var j :| 0 <= j < |init| && init[j] == Entry("$ref", Scalar(SCHEMA_REF_PREFIX + x));
        assert es[j] == init[j];
      }
      if j :| 0 <= j < |es| && es[j] == Entry("$ref", Scalar(SCHEMA_REF_PREFIX + x)) {
        if j < |init| {
          assert init[j] == es[j];
        }
      }
    }
  }

  lemma {:induction false} ItemsRefsMembers(items: seq<Node>, x: string)
    ensures x in ItemsRefs(items) <==> exists i :: 0 <= i < |items| && x in SchemaRefs(items[i])
    decreases |items|
  {
    if items != [] {
      var init := items[..|items| - 1];
      ItemsRefsMembers(init, x);
      if x in ItemsRefs(init) {
        var i :| 0 <= i < |init| && x in SchemaRefs(init[i]);
        assert x in SchemaRefs(items[i]);
      }
    }
  }

  lemma RefsOfChildren(n: Node, x: string)
    ensures x in SchemaRefs(n) <==>
      HoldsRef(n, x) || exists k :: 0 <= k < |Children(n)| && x in SchemaRefs(Children(n)[k])
  {
    match n {
      case Scalar(_) =>
      case Sequence(items) =>
        ItemsRefsMembers(items, x);
        assert Children(n) == items;
      case Mapping(es) =>
        OwnRefsMembers(es, x);
        EntriesRefsMembers(es, x);
        if x in EntriesRefs(es) {
          var i :| 0 <= i < |es| && x in SchemaRefs(es[i].value);
          assert Children(n)[i] == es[i].value;
        }
        if k :| 0 <= k < |Children(n)| && x in SchemaRefs(Children(n)[k]) {
          assert Children(n)[k] == es[k].value;
        }
    }
  }

  lemma ChildIsSmaller(n: Node, k: nat)
    requires k < |Children(n)|
    ensures Children(n)[k] < n
  {
    if n.Mapping? {
      assert Children(n)[k] == n.entries[k].value;
    }
  }

  /** The walk finds a reference exactly where there is one: in some mapping at or under the node, under
      any number of mappings and sequences, with the text that names the schema. */
  lemma {:induction false} RefsAreFound(n: Node, x: string)
    ensures x in SchemaRefs(n) <==> exists path :: RefAt(n, path, x)
    decreases n
  {
    RefsOfChildren(n, x);
    forall k | 0 <= k < |Children(n)|
      ensures x in SchemaRefs(Children(n)[k]) <==> exists path :: RefAt(Children(n)[k], path, x)
    {
      ChildIsSmaller(n, k);
      RefsAreFound(Children(n)[k], x);
    }
    if x in SchemaRefs(n) {
      if HoldsRef(n, x) {
        assert RefAt(n, [], x);
      } else {
        var k :| 0 <= k < |Children(n)| && x in SchemaRefs(Children(n)[k]);
        var path :| RefAt(Children(n)[k], path, x);
        AtStep(n, k, path);
        assert RefAt(n, [k] + path, x);
      }
    }
    if path :| RefAt(n, path, x) {
      if path != [] {
        assert RefAt(Children(n)[path[0]], path[1..], x);
      }
    }
  }

  /** The node lists security requirements and one of them names the scheme. */
  predicate NamesHere(n: Node, name: string) {
    n.Mapping? && exists j :: 0 <= j < |n.entries| && n.entries[j].key == "security" && Lists(n.entries[j].value, name)
  }

  predicate Lists(list: Node, name: string) {
    list.Sequence? && exists k :: 0 <= k < |list.items| && HasKey(list.items[k], name)
  }

  predicate HasKey(n: Node, name: string) {
    n.Mapping? && exists l :: 0 <= l < |n.entries| && n.entries[l].key == name
  }

  predicate NamesAt(n: Node, path: seq<nat>, name: string) {
    At(n, path).Some? && NamesHere(At(n, path).value, name)
  }

  lemma {:induction false} RequirementItemsMembers(items: seq<Node>, name: string)
    ensures name in RequirementItems(items) <==> exists k :: 0 <= k < |items| && HasKey(items[k], name)
    decreases |items|
  {
    if items != [] {
      var init, last := items[..|items| - 1], items[|items| - 1];
      RequirementItemsMembers(init, name);
      KeysMembers(last, name);
      if name in RequirementItems(init) {
        var k :| 0 <= k < |init| && HasKey(init[k], name);
        assert HasKey(items[k], name);
      }
      if k :| 0 <= k < |items| && HasKey(items[k], name) {
        if k < |init| {
          assert HasKey(init[k], name);
        }
      }
    }
  }

  lemma KeysMembers(n: Node, name: string)
    ensures HasKey(n, name) <==> n.Mapping? && name in Keys(n.entries)
  {
    if n.Mapping? && name in Keys(n.entries) {
      var l :| 0 <= l < |Keys(n.entries)| && Keys(n.entries)[l] == name;
      assert n.entries[l].key == name;
    }
    if HasKey(n, name) {
      var l :| 0 <= l < |n.entries| && n.entries[l].key == name;
      assert Keys(n.entries)[l] == name;
    }
  }

  lemma RequirementsAre(list: Node, name: string)
    ensures name in RequirementNames(list) <==> Lists(list, name)
  {
    if list.Sequence? {
      RequirementItemsMembers(list.items, name);
    }
  }

  /** One entry's part in what a mapping names. */
  predicate EntryNames(e: Entry, name: string) {
    (e.key == "security" && Lists(e.value, name)) || name in SecurityNames(e.value)
  }

  lemma LastEntryNames(es: seq<Entry>, name: string)
    requires es != []
    ensures name in EntriesSecurityNames(es) <==>
      name in EntriesSecurityNames(es[..|es| - 1]) || EntryNames(es[|es| - 1], name)
  {
    RequirementsAre(es[|es| - 1].value, name);
  }

  lemma {:induction false} EntriesSecurityMembers(es: seq<Entry>, name: string)
    ensures name in EntriesSecurityNames(es) <==> exists j :: 0 <= j < |es| && EntryNames(es[j], name)
    decreases |es|
  {
    if es != [] {
      var init, last := es[..|es| - 1], es[|es| - 1];
      EntriesSecurityMembers(init, name);
      LastEntryNames(es, name);
      if name in EntriesSecurityNames(init) {
        var j :| 0 <= j < |init| && EntryNames(init[j], name);
        assert EntryNames(es[j], name);
      }
      if j :| 0 <= j < |es| && EntryNames(es[j], name) {
        if j < |init| {
          assert EntryNames(init[j], name);
        }
      }
    }
  }

  lemma {:induction false} ItemsSecurityMembers(items: seq<Node>, name: string)
    ensures name in ItemsSecurityNames(items) <==> exists i :: 0 <= i < |items| && name in SecurityNames(items[i])
    decreases |items|
  {
    if items != [] {
      var init := items[..|items| - 1];
      ItemsSecurityMembers(init, name);
      if name in ItemsSecurityNames(init) {
        var i :| 0 <= i < |init| && name in SecurityNames(init[i]);
        assert name in SecurityNames(items[i]);
      }
    }
  }

  lemma NamesOfChildren(n: Node, name: string)
    ensures name in SecurityNames(n) <==>
      NamesHere(n, name) || exists k :: 0 <= k < |Children(n)| && name in SecurityNames(Children(n)[k])
  {
    match n {
      case Scalar(_) =>
      case Sequence(items) =>
        ItemsSecurityMembers(items, name);
        assert Children(n) == items;
      case Mapping(es) =>
        EntriesSecurityMembers(es, name);
        if name in SecurityNames(n) {
          var j :| 0 <= j < |es| && EntryNames(es[j], name);
          assert Children(n)[j] == es[j].value;
        }
        if NamesHere(n, name) {
          var j :| 0 <= j < |es| && es[j].key == "security" && Lists(es[j].value, name);
          assert EntryNames(es[j], name);
        }
        if k :| 0 <= k < |Children(n)| && name in SecurityNames(Children(n)[k]) {
          assert EntryNames(es[k], name);
        }
    }
  }

  /** The walk over security requirements finds exactly the names listed at or under the node. */
  lemma {:induction false} NamesAreFound(n: Node, name: string)
    ensures name in SecurityNames(n) <==> exists path :: NamesAt(n, path, name)
    decreases n
  {
    NamesOfChildren(n, name);
    forall k | 0 <= k < |Children(n)|
      ensures name in SecurityNames(Children(n)[k]) <==> exists path :: NamesAt(Children(n)[k], path, name)
    {
      ChildIsSmaller(n, k);
      NamesAreFound(Children(n)[k], name);
    }
    if name in SecurityNames(n) {
      if NamesHere(n, name) {
        assert NamesAt(n, [], name);
      } else {
        var k :| 0 <= k < |Children(n)| && name in SecurityNames(Children(n)[k]);
        var path :| NamesAt(Children(n)[k], path, name);
        AtStep(n, k, path);
        assert NamesAt(n, [k] + path, name);
      }
    }
    if path :| NamesAt(n, path, name) {
      if path != [] {
        assert NamesAt(Children(n)[path[0]], path[1..], name);
      }
    }
  }

  // ---- positions in the document ----------------------------------------------------------------

  /** The k-th entry of a mapping has this key. */
  predicate KeyIs(n: Node, k: nat, key: string) {
    n.Mapping? && k < |n.entries| && n.entries[k].key == key
  }

  /** The document as a whole requires the scheme, or something outside its components does. */
  ghost predicate Requires(root: Node, name: string) {
    root.Mapping? && exists path :: NamesAt(root, path, name) && (path == [] || !KeyIs(root, path[0], "components"))
  }

  predicate RootEntryNames(e: Entry, name: string) {
    e.key != "components" && EntryNames(e, name)
  }

  lemma LastRootEntryNames(root: seq<Entry>, name: string)
    requires root != []
    ensures name in UsedSchemes(root) <==>
      name in UsedSchemes(root[..|root| - 1]) || RootEntryNames(root[|root| - 1], name)
  {
    RequirementsAre(root[|root| - 1].value, name);
  }

  predicate SomeRootEntryNames(root: seq<Entry>, name: string) {
    exists j :: 0 <= j < |root| && RootEntryNames(root[j], name)
  }

  lemma SomeOrTheLast(root: seq<Entry>, name: string)
    requires root != []
    ensures SomeRootEntryNames(root, name) <==>
      SomeRootEntryNames(root[..|root| - 1], name) || RootEntryNames(root[|root| - 1], name)
  {
    var init := root[..|root| - 1];
    if SomeRootEntryNames(init, name) {
      var j :| 0 <= j < |init| && RootEntryNames(init[j], name);
      assert RootEntryNames(root[j], name);
    }
    if SomeRootEntryNames(root, name) {
      var j :| 0 <= j < |root| && RootEntryNames(root[j], name);
      assert j < |init| ==> RootEntryNames(init[j], name);
    }
  }

  lemma {:induction false} UsedSchemesMembers(root: seq<Entry>, name: string)
    ensures name in UsedSchemes(root) <==> SomeRootEntryNames(root, name)
    decreases |root|
  {
    if root != [] {
      UsedSchemesMembers(root[..|root| - 1], name);
      LastRootEntryNames(root, name);
      SomeOrTheLast(root, name);
    }
  }

  /** What the pruning takes to be required is what is required. */
  lemma RequiredIsFound(root: Node, name: string)
    requires root.Mapping?
    ensures name in UsedSchemes(root.entries) <==> Requires(root, name)
  {
    var es := root.entries;
    UsedSchemesMembers(es, name);
    if name in UsedSchemes(es) {
      var j :| 0 <= j < |es| && RootEntryNames(es[j], name);
      RequiredBelow(root, j, name);
    }
    if path :| NamesAt(root, path, name) && (path == [] || !KeyIs(root, path[0], "components")) {
      if path == [] {
        var j :| 0 <= j < |es| && es[j].key == "security" && Lists(es[j].value, name);
        assert RootEntryNames(es[j], name);
      } else {
        assert NamesAt(Children(root)[path[0]], path[1..], name);
        assert Children(root)[path[0]] == es[path[0]].value;
        NamesAreFound(es[path[0]].value, name);
        assert RootEntryNames(es[path[0]], name);
      }
    }
  }

  lemma RequiredBelow(root: Node, j: nat, name: string)
    requires root.Mapping? && j < |root.entries| && RootEntryNames(root.entries[j], name)
    ensures Requires(root, name)
  {
    var e := root.entries[j];
    if e.key == "security" && Lists(e.value, name) {
      assert NamesAt(root, [], name);
    } else {
      NamesAreFound(e.value, name);
      var path :| NamesAt(e.value, path, name);
      AtStep(root, j, path);
      assert NamesAt(root, [j] + path, name);
      assert ([j] + path)[0] == j;
    }
  }
}
