/**
 The YAML tree the OpenAPI publisher edits, and its node plumbing (backend/internal/openapi/
 openapi.go, `mapValue`, `scalarAt`, `mapDelete`, `setScalar`). Mappings keep their order and may
 repeat a key: lookups find the first entry, as the source's do.
 */
module YamlTree {
  import opened Wrappers

  /** A section that is missing or not of the shape it has to have. */
  datatype SpecError = Malformed

  datatype Entry = Entry(key: string, value: Node)

  datatype Node = Scalar(text: string) | Mapping(entries: seq<Entry>) | Sequence(items: seq<Node>)

  /** The index of the first entry for a key, or the number of entries. */
  function Find(es: seq<Entry>, key: string): (i: nat)
    ensures i <= |es|
    ensures i < |es| ==> es[i].key == key
    ensures forall j :: 0 <= j < i ==> es[j].key != key
  {
    if es == [] || es[0].key == key then 0 else 1 + Find(es[1..], key)
  }

  predicate Has(es: seq<Entry>, key: string) {
    Find(es, key) < |es|
  }

  function Lookup(es: seq<Entry>, key: string): Option<Node> {
    if Has(es, key) then Some(es[Find(es, key)].value) else None
  }

  function MapValue(n: Node, key: string): Option<Node> {
    if n.Mapping? then Lookup(n.entries, key) else None
  }

  function ScalarAt(n: Node, key: string): string {
    match MapValue(n, key)
    case Some(Scalar(text)) => text
    case _ => ""
  }

  function Without(es: seq<Entry>, key: string): seq<Entry> {
    if Has(es, key) then es[..Find(es, key)] + es[Find(es, key) + 1..] else es
  }

  function MapDelete(n: Node, key: string): Node {
    if n.Mapping? then Mapping(Without(n.entries, key)) else n
  }

  /** Replaces what the first entry for a key points at, in its place. */
  function With(es: seq<Entry>, key: string, value: Node): seq<Entry> {
    if Has(es, key) then es[Find(es, key) := Entry(key, value)] else es
  }

  function SetScalar(n: Node, key: string, text: string): Node {
    if n.Mapping? then Mapping(With(n.entries, key, Scalar(text))) else n
  }

  predicate DistinctKeys(es: seq<Entry>) {
    forall i, j :: 0 <= i < j < |es| ==> es[i].key != es[j].key
  }

  // ---- lookups after edits --------------------------------------------------------------

  /** The first entry for a key is the one no earlier entry competes with. */
  lemma FindIs(es: seq<Entry>, key: string, i: nat)
    requires i <= |es| && (i < |es| ==> es[i].key == key)
    requires forall j :: 0 <= j < i ==> es[j].key != key
    ensures Find(es, key) == i
  {
  }

  lemma LookupWith(es: seq<Entry>, key: string, value: Node, other: string)
    ensures Lookup(With(es, key, value), other) ==
      if other == key && Has(es, key) then Some(value) else Lookup(es, other)
    ensures Has(With(es, key, value), other) == Has(es, other)
    ensures |With(es, key, value)| == |es|
    ensures DistinctKeys(es) ==> DistinctKeys(With(es, key, value))
  {
    FindIs(With(es, key, value), other, Find(es, other));
  }

  lemma WithTwice(es: seq<Entry>, key: string, v: Node, w: Node)
    ensures With(With(es, key, v), key, w) == With(es, key, w)
    ensures Lookup(es, key) == Some(v) ==> With(es, key, v) == es
  {
    LookupWith(es, key, v, key);
    FindIs(With(es, key, v), key, Find(es, key));
  }

  lemma LookupWithout(es: seq<Entry>, key: string, other: string)
    requires DistinctKeys(es)
    ensures DistinctKeys(Without(es, key))
    ensures Lookup(Without(es, key), other) == if other == key then None else Lookup(es, other)
  {
    var w := Without(es, key);
    if Has(es, key) {
      WithoutEntries(es, key);
      WithoutFinds(es, key, other);
    }
  }

  lemma WithoutEntries(es: seq<Entry>, key: string)
    requires Has(es, key)
    ensures |Without(es, key)| == |es| - 1
    ensures forall j :: 0 <= j < |es| - 1 ==>
      Without(es, key)[j] == if j < Find(es, key) then es[j] else es[j + 1]
  {
  }

  lemma WithoutFinds(es: seq<Entry>, key: string, other: string)
    requires DistinctKeys(es) && Has(es, key)
    ensures Find(Without(es, key), other) ==
      var f, g := Find(es, key), Find(es, other);
      if other == key || g == |es| then |es| - 1 else if g < f then g else g - 1
  {
    WithoutEntries(es, key);
    var f, g := Find(es, key), Find(es, other);
    FindIs(Without(es, key), other, if other == key || g == |es| then |es| - 1 else if g < f then g else g - 1);
  }
}
