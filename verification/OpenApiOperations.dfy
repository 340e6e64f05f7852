/**
 Listing a spec's operations and dropping the internal ones (backend/internal/openapi/openapi.go,
 `Operations`, `dropInternalOperations`): the published document documents exactly the operations
 the full one does not mark internal.
 */
module OpenApiOperations {
  import opened YamlTree
  import opened Wrappers

  const AUDIENCE_KEY := "x-audience"
  const AUDIENCE_INTERNAL := "internal"

  const HTTP_METHODS: set<string> :=
    {"get", "put", "post", "delete", "options", "head", "patch", "trace"}

  datatype Operation = Operation(path: string, verb: string, audience: string, operationId: string)

  function LowerChar(c: char): char {
    if 'A' <= c <= 'Z' then c + 32 as char else c
  }

  function UpperChar(c: char): char {
    if 'a' <= c <= 'z' then c - 32 as char else c
  }

  function ToLower(s: string): string {
    seq(|s|, i requires 0 <= i < |s| => LowerChar(s[i]))
  }

  function ToUpper(s: string): string {
    seq(|s|, i requires 0 <= i < |s| => UpperChar(s[i]))
  }

  /** The fields of a path item that are operations; everything else is the item's own. */
  predicate IsMethod(key: string) {
    ToLower(key) in HTTP_METHODS
  }

  predicate IsInternal(op: Node) {
    ScalarAt(op, AUDIENCE_KEY) == AUDIENCE_INTERNAL
  }

  // ---- listing ------------------------------------------------------------------------------

  function OperationOf(path: string, field: Entry): Operation {
    Operation(path, ToUpper(field.key), ScalarAt(field.value, AUDIENCE_KEY), ScalarAt(field.value, "operationId"))
  }

  function FieldOperations(path: string, field: Entry): seq<Operation> {
    if IsMethod(field.key) then [OperationOf(path, field)] else []
  }

  function ItemOperations(path: string, fields: seq<Entry>): seq<Operation> {
    if fields == [] then []
    else ItemOperations(path, fields[..|fields| - 1]) + FieldOperations(path, fields[|fields| - 1])
  }

  predicate AllMappings(paths: seq<Entry>) {
    forall i :: 0 <= i < |paths| ==> paths[i].value.Mapping?
  }

  function PathsOperations(paths: seq<Entry>): seq<Operation>
    requires AllMappings(paths)
  {
    if paths == [] then []
    else
      var init, last := paths[..|paths| - 1], paths[|paths| - 1];
      PathsOperations(init) + ItemOperations(last.key, last.value.entries)
  }

  /** Every operation, in document order; `Operations` hands them out sorted. */
  function Listed(root: Node): Result<seq<Operation>, SpecError> {
    match MapValue(root, "paths")
    case Some(Mapping(paths)) => if AllMappings(paths) then Ok(PathsOperations(paths)) else Err(Malformed)
    case _ => Err(Malformed)
  }

  // ---- dropping -----------------------------------------------------------------------------

  /** What is left of one field of a path item. */
  function KeptField(field: Entry): seq<Entry> {
    if !IsMethod(field.key) then [field]
    else if IsInternal(field.value) then []
    else [Entry(field.key, MapDelete(field.value, AUDIENCE_KEY))]
  }

  function KeptFields(fields: seq<Entry>): seq<Entry> {
    if fields == [] then []
    else KeptFields(fields[..|fields| - 1]) + KeptField(fields[|fields| - 1])
  }

  /** A path item is kept for the operations it still has. */
  predicate HasOperation(fields: seq<Entry>) {
    exists i :: 0 <= i < |fields| && IsMethod(fields[i].key) && !IsInternal(fields[i].value)
  }

  function KeptPath(item: Entry): seq<Entry>
    requires item.value.Mapping?
  {
    if HasOperation(item.value.entries) then [Entry(item.key, Mapping(KeptFields(item.value.entries)))] else []
  }

  function KeptPaths(paths: seq<Entry>): seq<Entry>
    requires AllMappings(paths)
  {
    if paths == [] then []
    else KeptPaths(paths[..|paths| - 1]) + KeptPath(paths[|paths| - 1])
  }

  function DropInternal(root: Node): Result<Node, SpecError> {
    match MapValue(root, "paths")
    case Some(Mapping(paths)) =>
      if AllMappings(paths) then Ok(Mapping(With(root.entries, "paths", Mapping(KeptPaths(paths))))) else Err(Malformed)
    case _ => Err(Malformed)
  }

  // ---- the two agree ----------------------------------------------------------------------------

  /** The entries of a listing that are published, with their marker gone. */
  function Published(ops: seq<Operation>): seq<Operation> {
    if ops == [] then []
    else
      var init, last := ops[..|ops| - 1], ops[|ops| - 1];
      Published(init) + if last.audience == AUDIENCE_INTERNAL then [] else [last.(audience := "")]
  }

  lemma {:induction false} PublishedAppend(a: seq<Operation>, b: seq<Operation>)
    ensures Published(a + b) == Published(a) + Published(b)
    decreases |b|
  {
    if b == [] {
      assert a + b == a;
    } else {
      assert (a + b)[..|a + b| - 1] == a + b[..|b| - 1];
      PublishedAppend(a, b[..|b| - 1]);
    }
  }

  /** No operation repeats a key; the source's lookups then see all there is. */
  predicate DistinctOperations(paths: seq<Entry>) {
    forall i :: 0 <= i < |paths| ==> DistinctItem(paths[i])
  }

  predicate DistinctItem(item: Entry) {
    item.value.Mapping? ==> forall j :: 0 <= j < |item.value.entries| ==> DistinctField(item.value.entries[j])
  }

  predicate DistinctField(field: Entry) {
    IsMethod(field.key) && field.value.Mapping? ==> DistinctKeys(field.value.entries)
  }

  lemma DeleteAudience(op: Node)
    requires op.Mapping? ==> DistinctKeys(op.entries)
    ensures MapValue(MapDelete(op, AUDIENCE_KEY), AUDIENCE_KEY) == None
    ensures ScalarAt(MapDelete(op, AUDIENCE_KEY), "operationId") == ScalarAt(op, "operationId")
    ensures MapDelete(MapDelete(op, AUDIENCE_KEY), AUDIENCE_KEY) == MapDelete(op, AUDIENCE_KEY)
    ensures MapDelete(op, AUDIENCE_KEY).Mapping? ==> DistinctKeys(MapDelete(op, AUDIENCE_KEY).entries)
  {
    if op.Mapping? {
      LookupWithout(op.entries, AUDIENCE_KEY, AUDIENCE_KEY);
      LookupWithout(op.entries, AUDIENCE_KEY, "operationId");
    }
  }

  lemma ItemOperationsAppend(path: string, a: seq<Entry>, b: seq<Entry>)
    requires |b| <= 1
    ensures ItemOperations(path, a + b) ==
      ItemOperations(path, a) + if b == [] then [] else FieldOperations(path, b[0])
  {
    if b == [] {
      assert a + b == a;
    } else {
      assert (a + b)[..|a + b| - 1] == a;
    }
  }

  lemma FieldCommutes(path: string, field: Entry)
    requires DistinctField(field)
    ensures KeptField(field) == [] ==> Published(FieldOperations(path, field)) == []
    ensures KeptField(field) != [] ==>
      FieldOperations(path, KeptField(field)[0]) == Published(FieldOperations(path, field))
    ensures !(IsMethod(field.key) && !IsInternal(field.value)) ==> Published(FieldOperations(path, field)) == []
  {
    var ops := FieldOperations(path, field);
    if IsMethod(field.key) {
      DeleteAudience(field.value);
      assert ops[..0] == [];
    }
  }

  lemma {:induction false} ItemCommutes(path: string, fields: seq<Entry>)
    requires forall i :: 0 <= i < |fields| ==> DistinctField(fields[i])
    ensures ItemOperations(path, KeptFields(fields)) == Published(ItemOperations(path, fields))
    decreases |fields|
  {
    if fields != [] {
      var init, last := fields[..|fields| - 1], fields[|fields| - 1];
      ItemCommutes(path, init);
      FieldCommutes(path, last);
      ItemOperationsAppend(path, KeptFields(init), KeptField(last));
      PublishedAppend(ItemOperations(path, init), FieldOperations(path, last));
    }
  }

  /** An item left without operations had none to publish. */
  lemma {:induction false} EmptiedItem(path: string, fields: seq<Entry>)
    requires forall i :: 0 <= i < |fields| ==> DistinctField(fields[i])
    requires !HasOperation(fields)
    ensures Published(ItemOperations(path, fields)) == []
    decreases |fields|
  {
    if fields != [] {
      var init, last := fields[..|fields| - 1], fields[|fields| - 1];
      assert forall i :: 0 <= i < |init| ==> init[i] == fields[i];
      EmptiedItem(path, init);
      FieldCommutes(path, last);
      PublishedAppend(ItemOperations(path, init), FieldOperations(path, last));
    }
  }

  lemma {:induction false} PathsOperationsAppend(a: seq<Entry>, b: seq<Entry>)
    requires AllMappings(a) && AllMappings(b) && |b| <= 1
    ensures PathsOperations(a + b) ==
      PathsOperations(a) + if b == [] then [] else ItemOperations(b[0].key, b[0].value.entries)
  {
    if b == [] {
      assert a + b == a;
    } else {
      assert (a + b)[..|a + b| - 1] == a;
    }
  }

  lemma PathCommutes(item: Entry)
    requires item.value.Mapping? && DistinctItem(item)
    ensures KeptPath(item) == [] ==> Published(ItemOperations(item.key, item.value.entries)) == []
    ensures KeptPath(item) != [] ==>
      ItemOperations(item.key, KeptPath(item)[0].value.entries) ==
      Published(ItemOperations(item.key, item.value.entries))
  {
    ItemCommutes(item.key, item.value.entries);
    if !HasOperation(item.value.entries) {
      EmptiedItem(item.key, item.value.entries);
    }
  }

  lemma {:induction false} PathsCommute(paths: seq<Entry>)
    requires AllMappings(paths) && DistinctOperations(paths)
    ensures AllMappings(KeptPaths(paths))
    ensures PathsOperations(KeptPaths(paths)) == Published(PathsOperations(paths))
    decreases |paths|
  {
    if paths != [] {
      var init, last := paths[..|paths| - 1], paths[|paths| - 1];
      PathsCommute(init);
      PathCommutes(last);
      PublishedAppend(PathsOperations(init), ItemOperations(last.key, last.value.entries));
      PathsOperationsAppend(KeptPaths(init), KeptPath(last));
    }
  }

  /** Listing the rewritten tree lists the published operations of the original. */
  lemma DropCommutesWithListing(root: Node)
    requires Listed(root).Ok?
    requires DistinctOperations(MapValue(root, "paths").value.entries)
    ensures DropInternal(root).Ok?
    ensures Listed(DropInternal(root).value) == Ok(Published(Listed(root).value))
  {
    var paths := MapValue(root, "paths").value.entries;
    PathsCommute(paths);
    LookupWith(root.entries, "paths", Mapping(KeptPaths(paths)), "paths");
  }

  // ---- sorted listings ---------------------------------------------------------------------------

  /** Byte order on strings. */
  predicate Less(a: string, b: string) {
    b != [] && (a == [] || a[0] < b[0] || (a[0] == b[0] && Less(a[1..], b[1..])))
  }

  /** The order of `sort.Slice`; equal keys may come in any order. */
  predicate Before(a: Operation, b: Operation) {
    if a.path != b.path then Less(a.path, b.path) else Less(a.verb, b.verb)
  }

  ghost predicate Sorted(ops: seq<Operation>) {
    forall i, j :: 0 <= i < j < |ops| ==> !Before(ops[j], ops[i])
  }

  /** A possible result of `Operations`: a sorted permutation of the listing. */
  ghost predicate Answers(ops: seq<Operation>, listed: seq<Operation>) {
    Sorted(ops) && multiset(ops) == multiset(listed)
  }

  lemma {:induction false} PublishedMembers(ops: seq<Operation>, p: Operation)
    requires p in Published(ops)
    ensures exists o :: o in ops && o.audience != AUDIENCE_INTERNAL && p == o.(audience := "")
    decreases |ops|
  {
    var init, last := ops[..|ops| - 1], ops[|ops| - 1];
    if p in Published(init) {
      PublishedMembers(init, p);
      var o :| o in init && o.audience != AUDIENCE_INTERNAL && p == o.(audience := "");
      assert o in ops;
    } else {
      assert last in ops;
    }
  }

  lemma {:induction false} PublishedSorted(ops: seq<Operation>)
    requires Sorted(ops)
    ensures Sorted(Published(ops))
    decreases |ops|
  {
    if ops != [] {
      var init, last := ops[..|ops| - 1], ops[|ops| - 1];
      PublishedSorted(init);
      forall p | p in Published(init) ensures !Before(last.(audience := ""), p) {
        PublishedMembers(init, p);
        var o :| o in init && p == o.(audience := "");
        var i :| 0 <= i < |init| && init[i] == o;
        assert !Before(ops[|ops| - 1], ops[i]);
      }
      var pub := Published(init);
      assert forall i :: 0 <= i < |pub| ==> pub[i] in pub;
    }
  }

  lemma PublishedWithout(x: seq<Operation>, o: Operation, z: seq<Operation>)
    ensures multiset(Published(x + [o] + z)) == multiset(Published(x + z)) + multiset(Published([o]))
  {
    PublishedAppend(x + [o], z);
    PublishedAppend(x, [o]);
    PublishedAppend(x, z);
  }

  /** Publishing is a function of the multiset of operations. */
  lemma {:induction false} PublishedMultiset(a: seq<Operation>, b: seq<Operation>)
    requires multiset(a) == multiset(b)
    ensures multiset(Published(a)) == multiset(Published(b))
    decreases |a|
  {
    if a == [] {
      assert |b| == |multiset(b)| == 0;
    } else {
      var o, init := a[|a| - 1], a[..|a| - 1];
      assert a == init + [o];
      var k := Position(o, b) by { assert o in multiset(a); }
      var x, z := b[..k], b[k + 1..];
      assert b == x + [o] + z;
      assert multiset(init) + multiset{o} == multiset(x + z) + multiset{o};
      CancelOne(multiset(init), multiset(x + z), o);
      PublishedMultiset(init, x + z);
      PublishedAppend(init, [o]);
      PublishedWithout(x, o, z);
    }
  }

  lemma CancelOne<T>(a: multiset<T>, b: multiset<T>, o: T)
    requires a + multiset{o} == b + multiset{o}
    ensures a == b
  {
    assert a == a + multiset{o} - multiset{o};
    assert b == b + multiset{o} - multiset{o};
  }

  lemma Position<T>(x: T, b: seq<T>) returns (k: nat)
    requires x in multiset(b)
    ensures k < |b| && b[k] == x
  {
    k :| 0 <= k < |b| && b[k] == x;
  }

  /** Whatever sorted listing `Operations` gives for the full spec, its published part is a
      listing it may give for the published one. */
  lemma SortedListingCommutes(root: Node, ops: seq<Operation>)
    requires Listed(root).Ok?
    requires DistinctOperations(MapValue(root, "paths").value.entries)
    requires Answers(ops, Listed(root).value)
    ensures DropInternal(root).Ok? && Listed(DropInternal(root).value).Ok?
    ensures Answers(Published(ops), Listed(DropInternal(root).value).value)
  {
    DropCommutesWithListing(root);
    PublishedSorted(ops);
    PublishedMultiset(ops, Listed(root).value);
  }

  // ---- what is left -----------------------------------------------------------------------------------

  /** Nothing but operations is dropped from a path item that stays. */
  function OwnFields(fields: seq<Entry>): seq<Entry> {
    if fields == [] then []
    else OwnFields(fields[..|fields| - 1]) +
         if IsMethod(fields[|fields| - 1].key) then [] else [fields[|fields| - 1]]
  }

  lemma {:induction false} OwnFieldsKept(fields: seq<Entry>)
    ensures OwnFields(KeptFields(fields)) == OwnFields(fields)
    decreases |fields|
  {
    if fields != [] {
      var init, last := fields[..|fields| - 1], fields[|fields| - 1];
      OwnFieldsKept(init);
      if KeptField(last) == [] {
        assert KeptFields(fields) == KeptFields(init);
      } else {
        assert KeptFields(fields)[..|KeptFields(init)|] == KeptFields(init);
      }
    }
  }

  /** A field as it is published: an operation has lost its marker. */
  predicate SettledField(field: Entry) {
    DistinctField(field) && (IsMethod(field.key) ==> MapValue(field.value, AUDIENCE_KEY) == None)
  }

  predicate SettledFields(fields: seq<Entry>) {
    forall j :: 0 <= j < |fields| ==> SettledField(fields[j])
  }

  /** A path item as it is published still has an operation. */
  ghost predicate SettledItem(item: Entry) {
    item.value.Mapping? && HasOperation(item.value.entries) && SettledFields(item.value.entries)
  }

  lemma KeptFieldSettled(field: Entry)
    requires DistinctField(field)
    ensures SettledFields(KeptField(field))
  {
    if IsMethod(field.key) {
      DeleteAudience(field.value);
    }
  }

  lemma {:induction false} KeptFieldsSettled(fields: seq<Entry>)
    requires forall j :: 0 <= j < |fields| ==> DistinctField(fields[j])
    ensures SettledFields(KeptFields(fields))
    decreases |fields|
  {
    if fields != [] {
      KeptFieldsSettled(fields[..|fields| - 1]);
      KeptFieldSettled(fields[|fields| - 1]);
    }
  }

  lemma {:induction false} KeptFieldsHaveOperation(fields: seq<Entry>, i: nat)
    requires SettledFields(KeptFields(fields))
    requires i < |fields| && IsMethod(fields[i].key) && !IsInternal(fields[i].value)
    ensures HasOperation(KeptFields(fields))
    decreases |fields|
  {
    var init, kept := KeptFields(fields[..|fields| - 1]), KeptFields(fields);
    if i < |fields| - 1 {
      assert forall j :: 0 <= j < |init| ==> SettledField(kept[j]) && init[j] == kept[j];
      KeptFieldsHaveOperation(fields[..|fields| - 1], i);
      var j :| 0 <= j < |init| && IsMethod(init[j].key) && !IsInternal(init[j].value);
      assert IsMethod(kept[j].key);
    } else {
      assert SettledField(kept[|init|]);
      assert IsMethod(kept[|init|].key);
    }
  }

  lemma SettledFieldStays(field: Entry)
    requires SettledField(field)
    ensures KeptField(field) == [field]
  {
  }

  lemma {:induction false} SettledFieldsStay(fields: seq<Entry>)
    requires SettledFields(fields)
    ensures KeptFields(fields) == fields
    decreases |fields|
  {
    if fields != [] {
      var init, last := fields[..|fields| - 1], fields[|fields| - 1];
      SettledFieldsStay(init);
      SettledFieldStays(last);
      assert init + [last] == fields;
    }
  }

  lemma {:induction false} KeptPathsSettled(paths: seq<Entry>)
    requires AllMappings(paths) && DistinctOperations(paths)
    ensures forall i :: 0 <= i < |KeptPaths(paths)| ==> SettledItem(KeptPaths(paths)[i])
    decreases |paths|
  {
    if paths != [] {
      var last := paths[|paths| - 1];
      KeptPathsSettled(paths[..|paths| - 1]);
      assert DistinctItem(last);
      var fields := last.value.entries;
      KeptFieldsSettled(fields);
      if HasOperation(fields) {
        var i :| 0 <= i < |fields| && IsMethod(fields[i].key) && !IsInternal(fields[i].value);
        KeptFieldsHaveOperation(fields, i);
      }
    }
  }

  lemma SettledPathStays(item: Entry)
    requires SettledItem(item)
    ensures KeptPath(item) == [item]
  {
    SettledFieldsStay(item.value.entries);
  }

  lemma {:induction false} SettledPathsStay(paths: seq<Entry>)
    requires AllMappings(paths)
    requires forall i :: 0 <= i < |paths| ==> KeptPath(paths[i]) == [paths[i]]
    ensures KeptPaths(paths) == paths
    decreases |paths|
  {
    if paths != [] {
      var init, last := paths[..|paths| - 1], paths[|paths| - 1];
      SettledPathsStay(init);
      assert KeptPath(last) == [last];
      assert init + [last] == paths;
    }
  }

  /** Every published path item documents an operation, none carries a marker any more, and
      dropping internal operations a second time is the identity. */
  lemma DropSettles(root: Node)
    requires DropInternal(root).Ok? && DistinctOperations(MapValue(root, "paths").value.entries)
    ensures var root' := DropInternal(root).value;
      && MapValue(root', "paths").Some? && MapValue(root', "paths").value.Mapping?
      && (forall i :: 0 <= i < |MapValue(root', "paths").value.entries| ==>
            SettledItem(MapValue(root', "paths").value.entries[i]))
      && DropInternal(root') == Ok(root')
  {
    var root' := DropInternal(root).value;
    var paths := MapValue(root, "paths").value.entries;
    var kept := KeptPaths(paths);
    KeptPathsSettled(paths);
    forall i | 0 <= i < |kept| ensures kept[i].value.Mapping? && KeptPath(kept[i]) == [kept[i]] {
      SettledPathStays(kept[i]);
    }
    SettledPathsStay(kept);
    LookupWith(root.entries, "paths", Mapping(kept), "paths");
    WithTwice(root.entries, "paths", Mapping(kept), Mapping(kept));
  }
}
