/**
 What the publisher keeps, drops and changes, place by place (backend/internal/openapi/openapi.go): a
 reference for the listing, for the dropping of internal operations and for the rewritten info.
 */
module OpenApiRules {
  import opened OpenApiDocument
  import opened OpenApiOperations
  import opened OpenApiPrune
  import opened YamlTree
  import opened Wrappers

  // ---- what an operation is -----------------------------------------------------------------------

  /** Only the 26 capitals change, and only into their small letters. */
  lemma LowerIs(s: string)
    ensures |ToLower(s)| == |s|
    ensures forall i :: 0 <= i < |s| ==>
      ToLower(s)[i] as int == s[i] as int + if 65 <= s[i] as int <= 90 then 32 else 0
  {
  }

  lemma UpperIs(s: string)
    ensures |ToUpper(s)| == |s|
    ensures forall i :: 0 <= i < |s| ==>
      ToUpper(s)[i] as int == s[i] as int - if 97 <= s[i] as int <= 122 then 32 else 0
  {
  }

  /** The methods of OpenAPI, written in capitals or not. */
  lemma MethodsAre(key: string)
    ensures IsMethod(key) <==>
      ToLower(key) in {"get", "put", "post", "delete", "options", "head", "patch", "trace"}
  {
  }

  /** The scalar a mapping has for a key, and no text where there is none. */
  lemma ScalarIs(n: Node, key: string)
    ensures ScalarAt(n, key) ==
      if MapValue(n, key).Some? && MapValue(n, key).value.Scalar? then MapValue(n, key).value.text else ""
  {
  }

  lemma InternalIs(op: Node)
    ensures IsInternal(op) <==> MapValue(op, "x-audience") == Some(Scalar("internal"))
  {
  }

  /** A path item's field is an operation, and listed as this one. */
  predicate ListedAs(path: string, field: Entry, op: Operation) {
    && IsMethod(field.key) && op.path == path && op.verb == ToUpper(field.key)
    && op.audience == ScalarAt(field.value, "x-audience") && op.operationId == ScalarAt(field.value, "operationId")
  }

  // ---- the listing ------------------------------------------------------------------------------------

  predicate SomeListedAs(path: string, fields: seq<Entry>, op: Operation) {
    exists j :: 0 <= j < |fields| && ListedAs(path, fields[j], op)
  }

  lemma SomeListedOrLast(path: string, fields: seq<Entry>, op: Operation)
    requires fields != []
    ensures SomeListedAs(path, fields, op) <==>
      SomeListedAs(path, fields[..|fields| - 1], op) || ListedAs(path, fields[|fields| - 1], op)
  {
    var init := fields[..|fields| - 1];
    if SomeListedAs(path, init, op) {
      var j :| 0 <= j < |init| && ListedAs(path, init[j], op);
      assert ListedAs(path, fields[j], op);
    }
    if SomeListedAs(path, fields, op) {
      var j :| 0 <= j < |fields| && ListedAs(path, fields[j], op);
      assert j < |init| ==> ListedAs(path, init[j], op);
    }
  }

  lemma FieldListedIff(path: string, field: Entry, op: Operation)
    ensures op in FieldOperations(path, field) <==> ListedAs(path, field, op)
  {
  }

  lemma {:induction false} ItemListed(path: string, fields: seq<Entry>, op: Operation)
    ensures op in ItemOperations(path, fields) <==> SomeListedAs(path, fields, op)
  {
    if fields != [] {
      ItemListed(path, fields[..|fields| - 1], op);
      FieldListedIff(path, fields[|fields| - 1], op);
      SomeListedOrLast(path, fields, op);
    }
  }

  /** Some field of the path item is listed as this operation. */
  predicate ItemHas(item: Entry, op: Operation) {
    item.value.Mapping? && SomeListedAs(item.key, item.value.entries, op)
  }

  lemma ItemListedIff(item: Entry, op: Operation)
    requires item.value.Mapping?
    ensures op in ItemOperations(item.key, item.value.entries) <==> ItemHas(item, op)
  {
    ItemListed(item.key, item.value.entries, op);
  }

  predicate SomeItemHas(paths: seq<Entry>, op: Operation) {
    exists i :: 0 <= i < |paths| && ItemHas(paths[i], op)
  }

  lemma SomeItemOrLast(paths: seq<Entry>, op: Operation)
    requires paths != []
    ensures SomeItemHas(paths, op) <==> SomeItemHas(paths[..|paths| - 1], op) || ItemHas(paths[|paths| - 1], op)
  {
    var init := paths[..|paths| - 1];
    if SomeItemHas(init, op) {
      var i :| 0 <= i < |init| && ItemHas(init[i], op);
      assert ItemHas(paths[i], op);
    }
    if SomeItemHas(paths, op) {
      var i :| 0 <= i < |paths| && ItemHas(paths[i], op);
      assert i < |init| ==> ItemHas(init[i], op);
    }
  }

  lemma {:induction false} PathsListed(paths: seq<Entry>, op: Operation)
    requires AllMappings(paths)
    ensures op in PathsOperations(paths) <==> SomeItemHas(paths, op)
  {
    if paths != [] {
      PathsListed(paths[..|paths| - 1], op);
      ItemListedIff(paths[|paths| - 1], op);
      SomeItemOrLast(paths, op);
    }
  }

  /** The listing holds an operation for each method of each path item, and nothing else. */
  lemma ListingIsComplete(root: Node, op: Operation)
    requires Listed(root).Ok?
    ensures MapValue(root, "paths").Some? && MapValue(root, "paths").value.Mapping?
    ensures op in Listed(root).value <==>
      SomeItemHas(MapValue(root, "paths").value.entries, op)
  {
    PathsListed(MapValue(root, "paths").value.entries, op);
  }

  lemma PathsSnoc(paths: seq<Entry>, last: Entry)
    requires AllMappings(paths) && last.value.Mapping?
    ensures AllMappings(paths + [last])
    ensures PathsOperations(paths + [last]) == PathsOperations(paths) + ItemOperations(last.key, last.value.entries)
  {
    assert (paths + [last])[..|paths|] == paths;
  }

  lemma Grouped(a: seq<Operation>, b: seq<Operation>, c: seq<Operation>)
    ensures a + b + c == a + (b + c)
  {
  }

  lemma LastOfBoth(a: seq<Entry>, b: seq<Entry>)
    requires b != []
    ensures a + b == (a + b[..|b| - 1]) + [b[|b| - 1]] && b == b[..|b| - 1] + [b[|b| - 1]]
  {
  }

  /** It follows the document. */
  lemma {:induction false} ListingInOrder(a: seq<Entry>, b: seq<Entry>)
    requires AllMappings(a) && AllMappings(b) && AllMappings(a + b)
    ensures PathsOperations(a + b) == PathsOperations(a) + PathsOperations(b)
  {
    if b == [] {
      assert a + b == a && PathsOperations(a) + [] == PathsOperations(a);
    } else {
      var init, last := b[..|b| - 1], b[|b| - 1];
      LastOfBoth(a, b);
      ListingInOrder(a, init);
      PathsSnoc(init, last);
      PathsSnoc(a + init, last);
      Grouped(PathsOperations(a), PathsOperations(init), ItemOperations(last.key, last.value.entries));
    }
  }

  lemma {:induction false} ItemInOrder(path: string, a: seq<Entry>, b: seq<Entry>)
    ensures ItemOperations(path, a + b) == ItemOperations(path, a) + ItemOperations(path, b)
  {
    if b == [] {
      assert a + b == a && ItemOperations(path, a) + [] == ItemOperations(path, a);
    } else {
      assert (a + b)[..|a + b| - 1] == a + b[..|b| - 1];
      ItemInOrder(path, a, b[..|b| - 1]);
    }
  }

  // ---- what is kept of the paths -----------------------------------------------------------------------

  /** The same node, less its marker: every other key leads where it led. */
  predicate LessItsMarker(old_: Node, new_: Node) {
    if old_.Mapping? then new_.Mapping? && new_.entries == Without(old_.entries, "x-audience") else new_ == old_
  }

  lemma OthersLeadOn(old_: Node, new_: Node, key: string)
    requires LessItsMarker(old_, new_) && (old_.Mapping? ==> DistinctKeys(old_.entries))
    ensures MapValue(new_, key) == if key == "x-audience" then None else MapValue(old_, key)
  {
    if old_.Mapping? {
      LookupWithout(old_.entries, "x-audience", key);
    }
  }

  /** What a field of a path item becomes, if it is kept. */
  predicate KeptAs(field: Entry, kept: Entry) {
    if IsMethod(field.key)
    then !IsInternal(field.value) && kept.key == field.key && LessItsMarker(field.value, kept.value)
    else kept == field
  }

  predicate SomeFieldKeptAs(fields: seq<Entry>, kept: Entry) {
    exists j :: 0 <= j < |fields| && KeptAs(fields[j], kept)
  }

  lemma SomeFieldOrLast(fields: seq<Entry>, kept: Entry)
    requires fields != []
    ensures SomeFieldKeptAs(fields, kept) <==>
      SomeFieldKeptAs(fields[..|fields| - 1], kept) || KeptAs(fields[|fields| - 1], kept)
  {
    var init := fields[..|fields| - 1];
    if SomeFieldKeptAs(init, kept) {
      var j :| 0 <= j < |init| && KeptAs(init[j], kept);
      assert KeptAs(fields[j], kept);
    }
    if SomeFieldKeptAs(fields, kept) {
      var j :| 0 <= j < |fields| && KeptAs(fields[j], kept);
      assert j < |init| ==> KeptAs(init[j], kept);
    }
  }

  lemma FieldKeptIff(field: Entry, kept: Entry)
    ensures kept in KeptField(field) <==> KeptAs(field, kept)
  {
  }

  lemma {:induction false} FieldsKept(fields: seq<Entry>, kept: Entry)
    ensures kept in KeptFields(fields) <==> SomeFieldKeptAs(fields, kept)
  {
    if fields != [] {
      FieldsKept(fields[..|fields| - 1], kept);
      FieldKeptIff(fields[|fields| - 1], kept);
      SomeFieldOrLast(fields, kept);
    }
  }

  lemma {:induction false} FieldsInOrder(a: seq<Entry>, b: seq<Entry>)
    ensures KeptFields(a + b) == KeptFields(a) + KeptFields(b)
  {
    if b == [] {
      assert a + b == a && KeptFields(a) + [] == KeptFields(a);
    } else {
      assert (a + b)[..|a + b| - 1] == a + b[..|b| - 1];
      FieldsInOrder(a, b[..|b| - 1]);
    }
  }

  /** What a path item becomes, if it is kept: that is, if it has an operation that is not internal. */
  predicate ItemKeptAs(item: Entry, kept: Entry) {
    && item.value.Mapping? && kept.key == item.key && kept.value == Mapping(KeptFields(item.value.entries))
    && exists j :: 0 <= j < |item.value.entries|
         && IsMethod(item.value.entries[j].key) && !IsInternal(item.value.entries[j].value)
  }

  lemma ItemKeptIff(item: Entry, kept: Entry)
    requires item.value.Mapping?
    ensures kept in KeptPath(item) <==> ItemKeptAs(item, kept)
  {
    assert HasOperation(item.value.entries) <==>
      exists j :: 0 <= j < |item.value.entries|
        && IsMethod(item.value.entries[j].key) && !IsInternal(item.value.entries[j].value);
  }

  predicate SomeKeptAs(paths: seq<Entry>, kept: Entry) {
    exists i :: 0 <= i < |paths| && ItemKeptAs(paths[i], kept)
  }

  lemma SomeKeptOrLast(paths: seq<Entry>, kept: Entry)
    requires paths != []
    ensures SomeKeptAs(paths, kept) <==>
      SomeKeptAs(paths[..|paths| - 1], kept) || ItemKeptAs(paths[|paths| - 1], kept)
  {
    var init := paths[..|paths| - 1];
    if SomeKeptAs(init, kept) {
      var i :| 0 <= i < |init| && ItemKeptAs(init[i], kept);
      assert ItemKeptAs(paths[i], kept);
    }
    if SomeKeptAs(paths, kept) {
      var i :| 0 <= i < |paths| && ItemKeptAs(paths[i], kept);
      assert i < |init| ==> ItemKeptAs(init[i], kept);
    }
  }

  lemma {:induction false} PathsKept(paths: seq<Entry>, kept: Entry)
    requires AllMappings(paths)
    ensures kept in KeptPaths(paths) <==> SomeKeptAs(paths, kept)
  {
    if paths != [] {
      PathsKept(paths[..|paths| - 1], kept);
      ItemKeptIff(paths[|paths| - 1], kept);
      SomeKeptOrLast(paths, kept);
    }
  }

  lemma {:induction false} PathsInOrder(a: seq<Entry>, b: seq<Entry>)
    requires AllMappings(a) && AllMappings(b)
    ensures AllMappings(a + b) && KeptPaths(a + b) == KeptPaths(a) + KeptPaths(b)
  {
    if b == [] {
      assert a + b == a && KeptPaths(a) + [] == KeptPaths(a);
    } else {
      assert (a + b)[..|a + b| - 1] == a + b[..|b| - 1];
      PathsInOrder(a, b[..|b| - 1]);
    }
  }

  // ---- what is kept of the rest -------------------------------------------------------------------------

  /** The published document has the title and the description it was to get, where the full one had
      its own, the paths as above, and everything else outside its components as it was. */
  lemma PublicElsewhere(root: Node, title: string, description: string, key: string)
    requires WellKeyed(root) && Public(root, title, description).Ok?
    ensures var p := Public(root, title, description).value;
      && p.Mapping? && root.Mapping?
      && (key !in {"paths", "info", "components"} ==> Lookup(p.entries, key) == Lookup(root.entries, key))
      && MapValue(root, "paths").Some? && MapValue(root, "paths").value.Mapping?
      && AllMappings(MapValue(root, "paths").value.entries)
      && MapValue(p, "paths") == Some(Mapping(KeptPaths(MapValue(root, "paths").value.entries)))
  {
    var x := Rewritten(root, title, description).value;
    RewrittenSections(root, title, description);
    RewrittenLookup(root, title, description, key);
    RewrittenLookup(root, title, description, "paths");
    if key != "components" {
      PrunedElsewhere(x, key);
    }
    PrunedElsewhere(x, "paths");
    LookupWith(root.entries, "paths", Mapping(KeptPaths(MapValue(root, "paths").value.entries)), "paths");
  }

  lemma PublicInfo(root: Node, title: string, description: string, key: string)
    requires WellKeyed(root) && Public(root, title, description).Ok?
    ensures var p := Public(root, title, description).value;
      && MapValue(root, "info").Some? && MapValue(p, "info").Some?
      && MapValue(p, "info").value.Mapping? && MapValue(root, "info").value.Mapping?
      && |MapValue(p, "info").value.entries| == |MapValue(root, "info").value.entries|
      && MapValue(MapValue(p, "info").value, key) ==
         if key == "title" then Some(Scalar(title))
         else if key == "description" then Some(Scalar(description))
         else MapValue(MapValue(root, "info").value, key)
  {
    var x := Rewritten(root, title, description).value;
    RewrittenSections(root, title, description);
    PrunedElsewhere(x, "info");
    var dropped := DropInternal(root).value;
    LookupWith(root.entries, "paths", Mapping(KeptPaths(MapValue(root, "paths").value.entries)), "info");
    InfoRewritten(dropped, title, description, key);
  }

  lemma InfoRewritten(root: Node, title: string, description: string, key: string)
    requires RewriteInfo(root, title, description).Ok?
    ensures var x := RewriteInfo(root, title, description).value;
      && MapValue(root, "info").Some? && MapValue(x, "info").Some?
      && MapValue(x, "info").value.Mapping? && MapValue(root, "info").value.Mapping?
      && |MapValue(x, "info").value.entries| == |MapValue(root, "info").value.entries|
      && MapValue(MapValue(x, "info").value, key) ==
         if key == "title" then Some(Scalar(title))
         else if key == "description" then Some(Scalar(description))
         else MapValue(MapValue(root, "info").value, key)
  {
    var info := MapValue(root, "info").value.entries;
    var once := With(info, "title", Scalar(title));
    var twice := With(once, "description", Scalar(description));
    LookupWith(info, "title", Scalar(title), key);
    LookupWith(info, "title", Scalar(title), "description");
    LookupWith(once, "description", Scalar(description), key);
    LookupWith(root.entries, "info", Mapping(twice), "info");
  }

  predicate PathsFit(root: Node) {
    && MapValue(root, "paths").Some? && MapValue(root, "paths").value.Mapping?
    && forall i :: 0 <= i < |MapValue(root, "paths").value.entries| ==>
         MapValue(root, "paths").value.entries[i].value.Mapping?
  }

  predicate InfoFits(root: Node) {
    && MapValue(root, "info").Some? && MapValue(root, "info").value.Mapping?
    && MapValue(MapValue(root, "info").value, "title").Some?
    && MapValue(MapValue(root, "info").value, "description").Some?
  }

  predicate SectionFits(components: Node, section: string) {
    MapValue(components, section).None? || MapValue(components, section).value.Mapping?
  }

  predicate ComponentsFit(root: Node) {
    MapValue(root, "components").Some? ==>
      var components := MapValue(root, "components").value;
      components.Mapping? && SectionFits(components, "schemas") && SectionFits(components, "securitySchemes")
  }

  lemma InfoFitsIff(root: Node, title: string, description: string)
    ensures RewriteInfo(root, title, description).Ok? <==> InfoFits(root)
  {
  }

  lemma DroppedElsewhere(root: Node, key: string)
    requires DropInternal(root).Ok? && key != "paths"
    ensures MapValue(DropInternal(root).value, key) == MapValue(root, key)
  {
    LookupWith(root.entries, "paths", Mapping(KeptPaths(MapValue(root, "paths").value.entries)), key);
  }

  /** Publishing fails exactly if the paths, some path item or a section that is pruned is no mapping, or
      the info has no title or description to replace. */
  lemma PublishedIff(root: Node, title: string, description: string)
    requires root.Mapping?
    ensures Public(root, title, description).Ok? <==> PathsFit(root) && InfoFits(root) && ComponentsFit(root)
  {
    if DropInternal(root).Ok? {
      var dropped := DropInternal(root).value;
      DroppedElsewhere(root, "info");
      InfoFitsIff(dropped, title, description);
      if RewriteInfo(dropped, title, description).Ok? {
        RewrittenLookup(root, title, description, "components");
      }
    }
  }
}
