/**
 A connector's config with its secrets taken out, and an update folded back onto it
 (backend/internal/connector/secrets.go, RedactConfig and MergeSecrets). JSON objects are maps;
 how a value is written does not matter here, only whether it is null, a string or anything else.
 */
module SecretMerge {

  datatype Json = Null | Str(text: string) | Other(content: nat)

  type Object = map<string, Json>

  /** The stored text: empty and a bare null both read as an empty object. */
  datatype Raw = Blank | NullLiteral | ObjectText(obj: Object) | NotAnObject

  datatype Decoded = Ok(obj: Object) | Err(what: string)

  function Decode(raw: Raw, what: string): Decoded {
    match raw
    case Blank => Ok(map[])
    case NullLiteral => Ok(map[])
    case ObjectText(obj) => Ok(obj)
    case NotAnObject => Err(what)
  }

  datatype Slot = Absent | Holds(value: Json)

  function At(obj: Object, key: string): Slot {
    if key in obj then Holds(obj[key]) else Absent
  }

  function Put(obj: Object, key: string, slot: Slot): Object {
    match slot
    case Absent => obj - {key}
    case Holds(value) => obj[key := value]
  }

  // ---- redaction of a config ---------------------------------------------------------------

  predicate NonEmptyString(value: Json) {
    value.Str? && value.text != ""
  }

  /** JSON null decodes into an empty string. */
  predicate EmptyString(value: Json) {
    value.Null? || (value.Str? && value.text == "")
  }

  function Stripped(obj: Object, fields: seq<string>): Object {
    map k | k in obj && k !in fields :: obj[k]
  }

  /** The secrets that held something, each once, in the order the fields first come. */
  function HeldSecrets(obj: Object, fields: seq<string>): seq<string> {
    if fields == [] then []
    else
      var last := fields[|fields| - 1];
      HeldSecrets(obj, fields[..|fields| - 1])
      + if last in obj && last !in fields[..|fields| - 1] && NonEmptyString(obj[last]) then [last] else []
  }

  /** What the browser gets, and the list of secrets it may show as set. */
  method RedactConfig(cfg: Raw, secretFields: seq<string>) returns (out: Object, held: seq<string>)
    ensures Decode(cfg, "config").Err? ==> out == map[] && held == []
    ensures Decode(cfg, "config").Ok? ==>
      var obj := Decode(cfg, "config").obj;
      out == Stripped(obj, secretFields) && held == HeldSecrets(obj, secretFields)
  {
    var decoded := Decode(cfg, "config");
    if decoded.Err? {
      return map[], [];
    }
    out, held := decoded.obj, [];
    assert out == Stripped(decoded.obj, secretFields[..0]);
    for i := 0 to |secretFields|
      invariant out == Stripped(decoded.obj, secretFields[..i])
      invariant held == HeldSecrets(decoded.obj, secretFields[..i])
    {
      var field := secretFields[i];
      assert secretFields[..i + 1][..i] == secretFields[..i];
      if field in out {
        var value := out[field];
        out := out - {field};
        if NonEmptyString(value) {
          held := held + [field];
        }
      }
      assert out == Stripped(decoded.obj, secretFields[..i + 1]);
    }
    assert secretFields[..|secretFields|] == secretFields;
  }

  /** Nothing secret leaves, everything else does, and exactly the set secrets are named, once. */
  lemma {:induction false} RedactedShowsNoSecret(obj: Object, fields: seq<string>)
    ensures forall k :: k in Stripped(obj, fields) <==> k in obj && k !in fields
    ensures forall k :: k in HeldSecrets(obj, fields) <==>
      k in fields && k in obj && obj[k].Str? && obj[k].text != ""
    ensures forall i, j :: 0 <= i < j < |HeldSecrets(obj, fields)| ==>
      HeldSecrets(obj, fields)[i] != HeldSecrets(obj, fields)[j]
  {
    if fields != [] {
      RedactedShowsNoSecret(obj, fields[..|fields| - 1]);
      assert fields == fields[..|fields| - 1] + [fields[|fields| - 1]];
    }
  }

  /** The secrets are named in the order the fields first come. */
  lemma {:induction false} NamedInOrder(obj: Object, fields: seq<string>, i: nat)
    requires i <= |fields|
    ensures HeldSecrets(obj, fields[..i]) <= HeldSecrets(obj, fields)
    decreases |fields|
  {
    if i == |fields| {
      assert fields[..i] == fields;
    } else {
      assert fields[..|fields| - 1][..i] == fields[..i];
      NamedInOrder(obj, fields[..|fields| - 1], i);
    }
  }

  /** A config that was never set and a bare null are empty; anything but an object is refused, and the
      refusal says which of the two it was. */
  lemma DecodeIs(raw: Raw, what: string)
    ensures raw == Blank || raw == NullLiteral ==> Decode(raw, what) == Ok(map[])
    ensures raw.ObjectText? ==> Decode(raw, what) == Ok(raw.obj)
    ensures raw == NotAnObject ==> Decode(raw, what) == Err(what)
  {
  }

  // ---- merging an update ---------------------------------------------------------------------

  /** One visit to one field: null clears, nothing or "" keeps what is stored, anything else stays. */
  function Resolve(submitted: Slot, stored: Slot): Slot {
    if submitted == Holds(Null) then Absent
    else if submitted.Absent? || EmptyString(submitted.value) then stored
    else submitted
  }

  function MergeFields(incoming: Object, stored: Object, fields: seq<string>): Object {
    if fields == [] then incoming
    else
      var last := fields[|fields| - 1];
      var before := MergeFields(incoming, stored, fields[..|fields| - 1]);
      Put(before, last, Resolve(At(before, last), At(stored, last)))
  }

  /** The incoming config is read first, so its error is the one reported. */
  method Merge(existing: Raw, incoming: Raw, secretFields: seq<string>) returns (r: Decoded)
    ensures Decode(incoming, "config").Err? ==> r == Err("config")
    ensures Decode(incoming, "config").Ok? && Decode(existing, "stored config").Err? ==> r == Err("stored config")
    ensures Decode(incoming, "config").Ok? && Decode(existing, "stored config").Ok? ==>
      r == Ok(MergeFields(Decode(incoming, "config").obj, Decode(existing, "stored config").obj, secretFields))
  {
    var first := Decode(incoming, "config");
    if first.Err? {
      return first;
    }
    var second := Decode(existing, "stored config");
    if second.Err? {
      return second;
    }
    var merged, stored := first.obj, second.obj;
    for i := 0 to |secretFields|
      invariant merged == MergeFields(first.obj, stored, secretFields[..i])
    {
      var field := secretFields[i];
      assert secretFields[..i + 1][..i] == secretFields[..i];
      if field in merged && merged[field].Null? {
        merged := merged - {field};
      } else if field !in merged || EmptyString(merged[field]) {
        if field in stored {
          merged := merged[field := stored[field]];
        } else {
          merged := merged - {field};
        }
      } else {
        assert merged == Put(merged, field, At(merged, field));
      }
    }
    assert secretFields[..|secretFields|] == secretFields;
    return Ok(merged);
  }

  // ---- the laws --------------------------------------------------------------------------------

  function Count(fields: seq<string>, key: string): nat {
    if fields == [] then 0
    else Count(fields[..|fields| - 1], key) + if fields[|fields| - 1] == key then 1 else 0
  }

  function Visited(n: nat, submitted: Slot, stored: Slot): Slot {
    if n == 0 then submitted else Resolve(Visited(n - 1, submitted, stored), stored)
  }

  /** Keys do not affect one another: each comes out of its own two values and the number of times
      it is listed. A key that is not secret is the incoming one's. */
  lemma {:induction false} KeyByKey(incoming: Object, stored: Object, fields: seq<string>, key: string)
    ensures At(MergeFields(incoming, stored, fields), key) ==
      Visited(Count(fields, key), At(incoming, key), At(stored, key))
  {
    if fields != [] {
      KeyByKey(incoming, stored, fields[..|fields| - 1], key);
    }
  }

  lemma {:induction false} CountZero(fields: seq<string>, key: string)
    ensures Count(fields, key) == 0 <==> key !in fields
  {
    if fields != [] {
      CountZero(fields[..|fields| - 1], key);
      assert fields == fields[..|fields| - 1] + [fields[|fields| - 1]];
    }
  }

  /** What the admin's form does to a secret listed once, and to any other key. */
  lemma KeepReplaceOrClear(incoming: Object, stored: Object, fields: seq<string>, key: string)
    ensures var r := At(MergeFields(incoming, stored, fields), key);
      && (key !in fields ==> r == At(incoming, key))
      && (Count(fields, key) == 1 ==>
        && (At(incoming, key) == Absent || At(incoming, key) == Holds(Str("")) ==> r == At(stored, key))
        && (At(incoming, key) == Holds(Null) ==> r == Absent)
        && (key in incoming && !EmptyString(incoming[key]) ==> r == Holds(incoming[key]))
        && (key in incoming && (incoming[key].Other? || (incoming[key].Str? && incoming[key].text != "")) ==>
              r == Holds(incoming[key])))
  {
    KeyByKey(incoming, stored, fields, key);
    CountZero(fields, key);
    if Count(fields, key) == 1 {
      assert Visited(0, At(incoming, key), At(stored, key)) == At(incoming, key);
    }
  }

  /** Visiting a field again undoes a clear, and clears a kept null. */
  lemma {:induction false} VisitedFromNothing(n: nat, stored: Slot)
    requires n > 0
    ensures Visited(n, Absent, stored) == if stored == Holds(Null) && n % 2 == 0 then Absent else stored
  {
    if n > 1 {
      VisitedFromNothing(n - 1, stored);
    } else {
      assert Visited(0, Absent, stored) == Absent;
    }
  }

  lemma {:induction false} VisitedFromSame(n: nat, slot: Slot)
    ensures Visited(n, slot, slot) == if slot == Holds(Null) && n % 2 == 1 then Absent else slot
  {
    if n > 0 {
      VisitedFromSame(n - 1, slot);
    }
  }

  lemma SameObjects(a: Object, b: Object)
    ensures a == b <==> forall k :: At(a, k) == At(b, k)
  {
    if forall k :: At(a, k) == At(b, k) {
      forall k ensures (k in a <==> k in b) && (k in a ==> a[k] == b[k]) {
        assert At(a, k) == At(b, k);
      }
    }
  }

  /** Sending back the redacted form restores the stored config, unless a secret is stored as null
      and listed an even number of times; it always does for fields listed once. */
  lemma RedactedRestores(stored: Object, fields: seq<string>)
    ensures MergeFields(Stripped(stored, fields), stored, fields) == stored <==>
      forall k :: k in fields && At(stored, k) == Holds(Null) ==> Count(fields, k) % 2 == 1
  {
    var r := MergeFields(Stripped(stored, fields), stored, fields);
    forall k ensures At(r, k) ==
      if k in fields && At(stored, k) == Holds(Null) && Count(fields, k) % 2 == 0 then Absent else At(stored, k)
    {
      KeyByKey(Stripped(stored, fields), stored, fields, k);
      CountZero(fields, k);
      if k in fields {
        VisitedFromNothing(Count(fields, k), At(stored, k));
      }
    }
    SameObjects(r, stored);
    if k :| k in fields && At(stored, k) == Holds(Null) && Count(fields, k) % 2 == 0 {
      assert At(r, k) != At(stored, k);
    }
  }

  /** Merging a config onto itself changes nothing exactly when no secret listed an odd number of
      times is null; for fields listed once, when no secret is null. */
  lemma SelfMergeIsIdentity(config: Object, fields: seq<string>)
    ensures MergeFields(config, config, fields) == config <==>
      forall k :: k in fields && At(config, k) == Holds(Null) ==> Count(fields, k) % 2 == 0
  {
    var r := MergeFields(config, config, fields);
    forall k ensures At(r, k) ==
      if k in fields && At(config, k) == Holds(Null) && Count(fields, k) % 2 == 1 then Absent else At(config, k)
    {
      KeyByKey(config, config, fields, k);
      CountZero(fields, k);
      VisitedFromSame(Count(fields, k), At(config, k));
    }
    SameObjects(r, config);
    if k :| k in fields && At(config, k) == Holds(Null) && Count(fields, k) % 2 == 1 {
      assert At(r, k) != At(config, k);
    }
  }

  /** The result of a merge is stable: merged again onto itself it stays, unless a stored null was
      kept for some secret. */
  lemma MergedIsStable(incoming: Object, stored: Object, fields: seq<string>)
    requires forall k :: k in fields ==> Count(fields, k) == 1
    ensures var r := MergeFields(incoming, stored, fields);
      MergeFields(r, r, fields) == r <==>
        forall k :: k in fields && At(stored, k) == Holds(Null) ==> k in incoming && incoming[k] != Str("")
  {
    var r := MergeFields(incoming, stored, fields);
    SelfMergeIsIdentity(r, fields);
    forall k | k in fields
      ensures At(r, k) == Holds(Null) <==>
        At(stored, k) == Holds(Null) && (k !in incoming || incoming[k] == Str(""))
    {
      KeepReplaceOrClear(incoming, stored, fields, k);
      assert Count(fields, k) == 1;
    }
  }
}
