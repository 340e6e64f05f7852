/**
 Metadata fields of a category: which definitions are well-formed, how a chain of categories is
 merged into one schema, and which values a schema accepts
 (backend/internal/metadata/schema.go). Regular expressions and the parsing of decimal numbers are
 parameters; every theorem holds whatever they do.
 */
module Metadata {
  import opened WhiteSpace
  import opened Wrappers

  datatype Error = UnknownField | Required(key: string) | Invalid(key: string)

  /** A 64-bit float, less its rounding. Schema bounds come from JSON and are finite; a number a
      client sends as text need not be. */
  datatype Float = Finite(r: real) | PosInf | NegInf | NaN

  predicate Less(a: Float, b: Float) {
    match (a, b)
    case (Finite(x), Finite(y)) => x < y
    case (NegInf, Finite(_)) => true
    case (NegInf, PosInf) => true
    case (Finite(_), PosInf) => true
    case _ => false
  }

  /** Equal to itself with the fraction cut off, which NaN never is. */
  predicate Whole(n: Float) {
    match n
    case Finite(r) => r == r.Floor as real
    case NaN => false
    case _ => true
  }

  datatype Kind = Text | Number | Select | Multiselect | Boolean | OtherKind(name: string)

  datatype FieldDef = FieldDef(
    key: string, caption: string, kind: Kind, required: bool,
    options: seq<string>, maxItems: Option<int>,
    min: Option<real>, max: Option<real>, integer: bool,
    maxLength: Option<int>, pattern: string)

  datatype Value =
    | Nil
    | Str(text: string)
    | Num(n: Float)
    | NumText(digits: string)
    | Bool(b: bool)
    | List(items: seq<Value>)
    | StrList(texts: seq<string>)
    | Object

  datatype Env = Env(
    parse: string -> Option<Float>, compiles: string -> bool, matches: (string, string) -> bool)

  // ---- the schema itself ---------------------------------------------------------------------

  const MAX_KEY := 64
  const MAX_CAPTION := 128

  predicate KeyChar(c: char) {
    'a' <= c <= 'z' || '0' <= c <= '9' || c == '_'
  }

  predicate GoodKey(key: string) {
    && key != "" && 'a' <= key[0] <= 'z' && |key| <= MAX_KEY
    && (forall i :: 0 < i < |key| ==> KeyChar(key[i]))
  }

  predicate Distinct(s: seq<string>) {
    s == [] || (s[|s| - 1] !in s[..|s| - 1] && Distinct(s[..|s| - 1]))
  }

  lemma {:induction false} DistinctMeans(s: seq<string>)
    ensures Distinct(s) <==> forall i, j :: 0 <= i < j < |s| ==> s[i] != s[j]
  {
    if s != [] {
      DistinctMeans(s[..|s| - 1]);
      if Distinct(s) {
        forall i, j | 0 <= i < j < |s| ensures s[i] != s[j] {
          assert s[i] in s[..|s| - 1];
          assert s[..|s| - 1][i] == s[i];
        }
      } else if s[|s| - 1] in s[..|s| - 1] {
        var i :| 0 <= i < |s| - 1 && s[i] == s[|s| - 1];
      } else {
        var init := s[..|s| - 1];
        var i, j :| 0 <= i < j < |init| && init[i] == init[j];
        assert s[i] == s[j];
      }
    }
  }

  lemma {:induction false} DistinctAt(s: seq<string>, i: nat, j: nat)
    requires Distinct(s) && i < |s| && j < |s| && s[i] == s[j]
    ensures i == j
  {
    DistinctMeans(s);
  }

  lemma DistinctSnoc(s: seq<string>, x: string)
    ensures Distinct(s + [x]) <==> Distinct(s) && x !in s
  {
    assert (s + [x])[..|s|] == s;
  }

  predicate GoodOptions(options: seq<string>) {
    options != [] && (forall i :: 0 <= i < |options| ==> !Blank(options[i])) && Distinct(options)
  }

  predicate GoodConstraints(env: Env, f: FieldDef) {
    match f.kind
    case Select => GoodOptions(f.options)
    case Multiselect => GoodOptions(f.options) && (f.maxItems.Some? ==> f.maxItems.value >= 1)
    case Number => f.min.Some? && f.max.Some? ==> f.min.value <= f.max.value
    case Text => (f.maxLength.Some? ==> f.maxLength.value >= 1) && (f.pattern != "" ==> env.compiles(f.pattern))
    case Boolean => true
    case OtherKind(_) => false
  }

  predicate GoodField(env: Env, f: FieldDef) {
    GoodKey(f.key) && !Blank(f.caption) && |f.caption| <= MAX_CAPTION && GoodConstraints(env, f)
  }

  function Keys(fields: seq<FieldDef>): (keys: seq<string>)
    ensures |keys| == |fields| && forall i :: 0 <= i < |fields| ==> keys[i] == fields[i].key
  {
    if fields == [] then [] else Keys(fields[..|fields| - 1]) + [fields[|fields| - 1].key]
  }

  predicate GoodFields(env: Env, fields: seq<FieldDef>) {
    fields == [] || (GoodField(env, fields[|fields| - 1]) && GoodFields(env, fields[..|fields| - 1]))
  }

  predicate GoodSchema(env: Env, fields: seq<FieldDef>) {
    GoodFields(env, fields) && Distinct(Keys(fields))
  }

  lemma {:induction false} GoodFieldsMeans(env: Env, fields: seq<FieldDef>)
    ensures GoodFields(env, fields) <==> forall f :: f in fields ==> GoodField(env, f)
  {
    if fields != [] {
      GoodFieldsMeans(env, fields[..|fields| - 1]);
      assert fields == fields[..|fields| - 1] + [fields[|fields| - 1]];
    }
  }

  lemma {:induction false} DistinctPrefix(s: seq<string>, i: nat)
    requires i <= |s| && Distinct(s)
    ensures Distinct(s[..i])
  {
    if i < |s| {
      DistinctPrefix(s[..|s| - 1], i);
      assert s[..|s| - 1][..i] == s[..i];
    } else {
      assert s[..i] == s;
    }
  }

  function Elements(s: seq<string>): set<string> {
    set k | k in s
  }

  lemma ElementsSnoc(s: seq<string>, x: string)
    ensures Elements(s + [x]) == Elements(s) + {x}
    ensures forall k :: k in Elements(s) <==> k in s
  {
  }

  predicate OptionOk(option: string, taken: set<string>) {
    !Blank(option) && option !in taken
  }

  lemma OneMoreOption(options: seq<string>, i: nat)
    requires i < |options|
    ensures GoodOptions(options[..i + 1]) <==>
      (i == 0 || GoodOptions(options[..i])) && OptionOk(options[i], Elements(options[..i]))
    ensures Elements(options[..i + 1]) == Elements(options[..i]) + {options[i]}
  {
    assert options[..i + 1] == options[..i] + [options[i]];
    DistinctSnoc(options[..i], options[i]);
    ElementsSnoc(options[..i], options[i]);
  }

  lemma GoodOptionsPrefix(options: seq<string>, i: nat)
    requires 0 < i <= |options| && GoodOptions(options)
    ensures GoodOptions(options[..i])
  {
    DistinctPrefix(options, i);
  }

  method CheckOptions(options: seq<string>) returns (ok: bool)
    ensures ok <==> GoodOptions(options)
  {
    if |options| == 0 {
      return false;
    }
    var seen: set<string> := {};
    for i := 0 to |options|
      invariant seen == Elements(options[..i])
      invariant i > 0 ==> GoodOptions(options[..i])
    {
      OneMoreOption(options, i);
      TrimTwice(options[i]);
      if Trim(options[i]) == "" || options[i] in seen {
        if GoodOptions(options) {
          GoodOptionsPrefix(options, i + 1);
        }
        return false;
      }
      seen := seen + {options[i]};
    }
    assert options[..|options|] == options;
    return true;
  }

  method CheckConstraints(env: Env, f: FieldDef) returns (ok: bool)
    ensures ok <==> GoodConstraints(env, f)
  {
    match f.kind {
      case Select => ok := CheckOptions(f.options);
      case Multiselect =>
        ok := CheckOptions(f.options);
        ok := ok && (f.maxItems.None? || f.maxItems.value >= 1);
      case Number => ok := f.min.None? || f.max.None? || f.min.value <= f.max.value;
      case Text =>
        ok := (f.maxLength.None? || f.maxLength.value >= 1) && (f.pattern == "" || env.compiles(f.pattern));
      case Boolean => ok := true;
      case OtherKind(_) => ok := false;
    }
  }

  function FieldOk(env: Env, f: FieldDef, taken: set<string>): bool {
    GoodField(env, f) && f.key !in taken
  }

  method CheckField(env: Env, f: FieldDef, seen: set<string>) returns (ok: bool)
    ensures ok == FieldOk(env, f, seen)
  {
    if !GoodKey(f.key) || f.key in seen {
      return false;
    }
    TrimTwice(f.caption);
    if Trim(f.caption) == "" || |f.caption| > MAX_CAPTION {
      return false;
    }
    ok := CheckConstraints(env, f);
  }

  /** Accepts exactly the good schemas, and otherwise stops at the first field that spoils it. */
  method ValidateSchema(env: Env, fields: seq<FieldDef>) returns (ok: bool, bad: nat)
    ensures ok <==> GoodSchema(env, fields)
    ensures !ok ==> bad < |fields| && GoodSchema(env, fields[..bad]) && !GoodSchema(env, fields[..bad + 1])
  {
    var seen: set<string> := {};
    for i := 0 to |fields|
      invariant seen == Elements(Keys(fields[..i]))
      invariant GoodSchema(env, fields[..i])
    {
      var good := CheckField(env, fields[i], seen);
      if !good {
        FieldSpoils(env, fields, i);
        return false, i;
      }
      OneMoreField(env, fields, i);
      seen := seen + {fields[i].key};
    }
    assert fields[..|fields|] == fields;
    return true, 0;
  }

  lemma GoodSnoc(env: Env, fields: seq<FieldDef>, f: FieldDef)
    ensures Keys(fields + [f]) == Keys(fields) + [f.key]
    ensures GoodFields(env, fields + [f]) <==> GoodFields(env, fields) && GoodField(env, f)
    ensures Distinct(Keys(fields + [f])) <==> Distinct(Keys(fields)) && f.key !in Keys(fields)
  {
    assert (fields + [f])[..|fields|] == fields;
    DistinctSnoc(Keys(fields), f.key);
  }

  lemma OneMoreField(env: Env, fields: seq<FieldDef>, i: nat)
    requires i < |fields|
    ensures Keys(fields[..i + 1]) == Keys(fields[..i]) + [fields[i].key]
    ensures GoodSchema(env, fields[..i + 1]) <==>
      GoodSchema(env, fields[..i]) && FieldOk(env, fields[i], Elements(Keys(fields[..i])))
    ensures Elements(Keys(fields[..i + 1])) == Elements(Keys(fields[..i])) + {fields[i].key}
  {
    assert fields[..i + 1] == fields[..i] + [fields[i]];
    GoodSnoc(env, fields[..i], fields[i]);
    ElementsSnoc(Keys(fields[..i]), fields[i].key);
  }

  lemma FieldSpoils(env: Env, fields: seq<FieldDef>, i: nat)
    requires i < |fields| && !FieldOk(env, fields[i], Elements(Keys(fields[..i])))
    ensures !GoodSchema(env, fields) && !GoodSchema(env, fields[..i + 1])
  {
    OneMoreField(env, fields, i);
    GoodPrefix(env, fields, i + 1);
  }

  lemma {:induction false} GoodPrefix(env: Env, fields: seq<FieldDef>, i: nat)
    requires i <= |fields|
    ensures GoodSchema(env, fields) ==> GoodSchema(env, fields[..i])
    decreases |fields|
  {
    if i < |fields| {
      var init := fields[..|fields| - 1];
      assert init[..i] == fields[..i] && fields[..|fields|] == fields;
      OneMoreField(env, fields, |fields| - 1);
      GoodPrefix(env, init, i);
    } else {
      assert fields[..i] == fields;
    }
  }

  // ---- merging a chain ---------------------------------------------------------------------------

  /** Strings in the order they first come, each once. */
  function FirstOnly(s: seq<string>): seq<string> {
    if s == [] then []
    else
      var init := FirstOnly(s[..|s| - 1]);
      if s[|s| - 1] in s[..|s| - 1] then init else init + [s[|s| - 1]]
  }

  /** The definition of a key nearest the leaf. */
  function LastDef(fields: seq<FieldDef>, key: string): FieldDef
    requires key in Keys(fields)
  {
    if fields[|fields| - 1].key == key then fields[|fields| - 1] else LastDef(fields[..|fields| - 1], key)
  }

  function Flat(levels: seq<seq<FieldDef>>): seq<FieldDef> {
    if levels == [] then [] else Flat(levels[..|levels| - 1]) + levels[|levels| - 1]
  }

  function IndexOf(keys: seq<string>, key: string): (i: nat)
    requires key in keys
    ensures i < |keys| && keys[i] == key && key !in keys[..i]
  {
    if keys[0] == key then 0
    else
      assert keys == [keys[0]] + keys[1..];
      var i := 1 + IndexOf(keys[1..], key);
      assert keys[..i] == [keys[0]] + keys[1..][..i - 1];
      i
  }

  function Put(out: seq<FieldDef>, f: FieldDef): seq<FieldDef> {
    if f.key in Keys(out) then out[IndexOf(Keys(out), f.key) := f] else out + [f]
  }

  function Merged(fields: seq<FieldDef>): seq<FieldDef> {
    if fields == [] then [] else Put(Merged(fields[..|fields| - 1]), fields[|fields| - 1])
  }

  lemma PutKeys(out: seq<FieldDef>, f: FieldDef)
    ensures Keys(Put(out, f)) == if f.key in Keys(out) then Keys(out) else Keys(out) + [f.key]
  {
    if f.key !in Keys(out) {
      assert (out + [f])[..|out|] == out;
    }
  }

  lemma {:induction false} FirstOnlySame(s: seq<string>)
    ensures Distinct(FirstOnly(s)) && forall k :: k in FirstOnly(s) <==> k in s
  {
    if s != [] {
      var init, last := s[..|s| - 1], s[|s| - 1];
      assert s == init + [last];
      FirstOnlySame(init);
      DistinctSnoc(FirstOnly(init), last);
    }
  }

  ghost predicate HoldsLast(fields: seq<FieldDef>, out: seq<FieldDef>) {
    forall g :: g in out ==> g.key in Keys(fields) && g == LastDef(fields, g.key)
  }

  lemma PutMembers(out: seq<FieldDef>, f: FieldDef, g: FieldDef)
    requires Distinct(Keys(out)) && g in Put(out, f)
    ensures g == f || (g in out && g.key != f.key)
  {
    var i :| 0 <= i < |Put(out, f)| && Put(out, f)[i] == g;
    if f.key in Keys(out) && out[i].key == f.key {
      DistinctAt(Keys(out), IndexOf(Keys(out), f.key), i);
    }
  }

  lemma {:induction false} MergedKeys(fields: seq<FieldDef>)
    ensures Keys(Merged(fields)) == FirstOnly(Keys(fields)) && Distinct(Keys(Merged(fields)))
  {
    FirstOnlySame(Keys(fields));
    if fields != [] {
      var init, last := fields[..|fields| - 1], fields[|fields| - 1];
      MergedKeys(init);
      FirstOnlySame(Keys(init));
      PutKeys(Merged(init), last);
    }
  }

  lemma {:induction false} MergedDef(fields: seq<FieldDef>, g: FieldDef)
    requires g in Merged(fields)
    ensures g.key in Keys(fields) && g == LastDef(fields, g.key)
  {
    var init, last := fields[..|fields| - 1], fields[|fields| - 1];
    assert init + [last] == fields;
    MergedKeys(init);
    PutMembers(Merged(init), last, g);
    if g == last {
      LastDefNew(init, last);
    } else {
      MergedDef(init, g);
      LastDefKept(init, last, g.key);
    }
  }

  /** The merged keys are the chain's keys in the order of their first appearance, each once, and
      each holds the definition given last. */
  lemma MergedIs(fields: seq<FieldDef>)
    ensures Keys(Merged(fields)) == FirstOnly(Keys(fields)) && Distinct(Keys(Merged(fields)))
    ensures HoldsLast(fields, Merged(fields))
  {
    MergedKeys(fields);
    forall g | g in Merged(fields) ensures g.key in Keys(fields) && g == LastDef(fields, g.key) {
      MergedDef(fields, g);
    }
  }

  lemma LastDefNew(fields: seq<FieldDef>, f: FieldDef)
    ensures f.key in Keys(fields + [f]) && LastDef(fields + [f], f.key) == f
  {
    assert (fields + [f])[|fields|] == f;
    assert Keys(fields + [f])[|fields|] == f.key;
  }

  lemma LastDefKept(fields: seq<FieldDef>, f: FieldDef, key: string)
    requires key in Keys(fields) && key != f.key
    ensures key in Keys(fields + [f]) && LastDef(fields + [f], key) == LastDef(fields, key)
  {
    var all := fields + [f];
    assert all[..|fields|] == fields && all[|fields|] == f;
    assert Keys(all) == Keys(fields) + [f.key];
  }

  /** Definitions that are good one by one merge into a good schema. */
  lemma {:induction false} MergedIsGood(env: Env, fields: seq<FieldDef>)
    requires GoodFields(env, fields)
    ensures GoodFields(env, Merged(fields))
  {
    GoodFieldsMeans(env, fields);
    MergedIs(fields);
    forall f | f in Merged(fields) ensures f in fields {
      LastDefIsThere(fields, f.key);
    }
    GoodFieldsMeans(env, Merged(fields));
  }

  lemma {:induction false} LastDefIsThere(fields: seq<FieldDef>, key: string)
    requires key in Keys(fields)
    ensures LastDef(fields, key) in fields
  {
    if fields[|fields| - 1].key != key {
      LastDefIsThere(fields[..|fields| - 1], key);
    }
  }

  lemma {:induction false} FlatGood(env: Env, levels: seq<seq<FieldDef>>)
    requires forall level :: level in levels ==> GoodFields(env, level)
    ensures GoodFields(env, Flat(levels))
  {
    if levels != [] {
      var init, last := levels[..|levels| - 1], levels[|levels| - 1];
      FlatGood(env, init);
      GoodFieldsMeans(env, Flat(init));
      GoodFieldsMeans(env, last);
      GoodFieldsMeans(env, Flat(levels));
    }
  }

  /** A chain of good schemas merges into a good schema. */
  lemma MergeIsGood(env: Env, levels: seq<seq<FieldDef>>)
    requires forall level :: level in levels ==> GoodSchema(env, level)
    ensures GoodSchema(env, Merged(Flat(levels)))
  {
    FlatGood(env, levels);
    MergedIsGood(env, Flat(levels));
    MergedIs(Flat(levels));
    FirstOnlySame(Keys(Flat(levels)));
  }

  function PutAll(out: seq<FieldDef>, fields: seq<FieldDef>): seq<FieldDef> {
    if fields == [] then out else Put(PutAll(out, fields[..|fields| - 1]), fields[|fields| - 1])
  }

  lemma {:induction false} MergedAppend(a: seq<FieldDef>, b: seq<FieldDef>)
    ensures Merged(a + b) == PutAll(Merged(a), b)
  {
    if b == [] {
      assert a + b == a;
    } else {
      assert (a + b)[..|a + b| - 1] == a + b[..|b| - 1];
      MergedAppend(a, b[..|b| - 1]);
    }
  }

  lemma {:induction false} DistinctMergesToItself(fields: seq<FieldDef>)
    requires Distinct(Keys(fields))
    ensures Merged(fields) == fields
  {
    if fields != [] {
      var init, last := fields[..|fields| - 1], fields[|fields| - 1];
      assert fields == init + [last];
      assert Keys(fields) == Keys(init) + [last.key];
      DistinctSnoc(Keys(init), last.key);
      DistinctMergesToItself(init);
    }
  }

  lemma {:induction false} FlatAppend(a: seq<seq<FieldDef>>, b: seq<seq<FieldDef>>)
    ensures Flat(a + b) == Flat(a) + Flat(b)
  {
    if b == [] {
      assert a + b == a;
    } else {
      assert (a + b)[..|a + b| - 1] == a + b[..|b| - 1];
      FlatAppend(a, b[..|b| - 1]);
    }
  }

  /** A chain may be merged in two goes: an ancestor's effective schema stands for all above it. */
  lemma MergeInTwoGoes(a: seq<seq<FieldDef>>, b: seq<seq<FieldDef>>)
    ensures Merged(Flat(a + b)) == Merged(Flat([Merged(Flat(a))] + b))
  {
    var up := Merged(Flat(a));
    MergedIs(Flat(a));
    FirstOnlySame(Keys(Flat(a)));
    DistinctMergesToItself(up);
    FlatAppend(a, b);
    FlatAppend([up], b);
    assert [up][..0] == [];
    assert Flat([up]) == [] + up == up;
    MergedAppend(Flat(a), Flat(b));
    MergedAppend(up, Flat(b));
  }

  /** The index of the keys met so far. */
  ghost predicate Indexes(idx: map<string, nat>, keys: seq<string>) {
    && (forall k :: k in idx <==> k in keys)
    && (forall k :: k in idx ==> idx[k] < |keys| && keys[idx[k]] == k)
  }

  lemma IndexFound(idx: map<string, nat>, out: seq<FieldDef>, f: FieldDef)
    requires Indexes(idx, Keys(out)) && Distinct(Keys(out)) && f.key in idx
    ensures out[idx[f.key] := f] == Put(out, f) && Keys(Put(out, f)) == Keys(out)
  {
    DistinctAt(Keys(out), idx[f.key], IndexOf(Keys(out), f.key));
    PutKeys(out, f);
  }

  lemma IndexAdded(idx: map<string, nat>, keys: seq<string>, k: string)
    requires Indexes(idx, keys) && k !in idx
    ensures Indexes(idx[k := |keys|], keys + [k])
  {
    assert k !in keys;
  }

  lemma PutOneMore(out: seq<FieldDef>, level: seq<FieldDef>, i: nat)
    requires i < |level|
    ensures PutAll(out, level[..i + 1]) == Put(PutAll(out, level[..i]), level[i])
  {
    assert level[..i + 1][..i] == level[..i];
  }

  method MergeLevel(idx0: map<string, nat>, out0: seq<FieldDef>, level: seq<FieldDef>)
    returns (idx: map<string, nat>, out: seq<FieldDef>)
    requires Indexes(idx0, Keys(out0)) && Distinct(Keys(out0))
    ensures out == PutAll(out0, level) && Indexes(idx, Keys(out)) && Distinct(Keys(out))
  {
    idx, out := idx0, out0;
    for i := 0 to |level|
      invariant out == PutAll(out0, level[..i]) && Indexes(idx, Keys(out)) && Distinct(Keys(out))
    {
      var f := level[i];
      PutOneMore(out0, level, i);
      if f.key in idx {
        IndexFound(idx, out, f);
        out := out[idx[f.key] := f];
        continue;
      }
      IndexAdded(idx, Keys(out), f.key);
      PutKeys(out, f);
      DistinctSnoc(Keys(out), f.key);
      idx := idx[f.key := |out|];
      out := out + [f];
    }
    assert level[..|level|] == level;
  }

  /** Merge, level by level. */
  method Merge(chain: seq<seq<FieldDef>>) returns (out: seq<FieldDef>)
    ensures out == Merged(Flat(chain))
  {
    var idx: map<string, nat> := map[];
    out := [];
    for n := 0 to |chain|
      invariant out == Merged(Flat(chain[..n])) && Indexes(idx, Keys(out)) && Distinct(Keys(out))
    {
      assert chain[..n + 1][..n] == chain[..n];
      MergedAppend(Flat(chain[..n]), chain[n]);
      idx, out := MergeLevel(idx, out, chain[n]);
    }
    assert chain[..|chain|] == chain;
  }

  // ---- values ------------------------------------------------------------------------------------

  /** "Not provided", as far as the form is concerned. */
  predicate IsEmpty(v: Value) {
    match v
    case Nil => true
    case Str(text) => Trim(text) == ""
    case List(items) => items == []
    case StrList(texts) => texts == []
    case _ => false
  }

  function ToFloat(env: Env, raw: Value): Option<Float> {
    match raw
    case Num(n) => Some(n)
    case NumText(digits) => env.parse(digits)
    case Str(text) => env.parse(Trim(text))
    case _ => None
  }

  function AllTexts(items: seq<Value>): Option<seq<string>> {
    if items == [] then Some([])
    else
      var init := AllTexts(items[..|items| - 1]);
      if init.Some? && items[|items| - 1].Str? then Some(init.value + [items[|items| - 1].text]) else None
  }

  function ToTexts(raw: Value): Option<seq<string>> {
    match raw
    case StrList(texts) => Some(texts)
    case List(items) => AllTexts(items)
    case _ => None
  }

  function LowerAscii(s: string): string {
    if s == "" then ""
    else (if 'A' <= s[0] <= 'Z' then [(s[0] as int + 32) as char] else [s[0]]) + LowerAscii(s[1..])
  }

  function Bad(f: FieldDef): Result<Value, Error> {
    Err(Invalid(f.key))
  }

  function CoerceText(env: Env, f: FieldDef, raw: Value): Result<Value, Error> {
    if !raw.Str? then Bad(f)
    else
      var s := Trim(raw.text);
      if f.maxLength.Some? && |s| > f.maxLength.value then Bad(f)
      else if f.pattern != "" && (!env.compiles(f.pattern) || !env.matches(f.pattern, s)) then Bad(f)
      else Ok(Str(s))
  }

  function CoerceNumber(env: Env, f: FieldDef, raw: Value): Result<Value, Error> {
    var n := ToFloat(env, raw);
    if n.None? then Bad(f)
    else if f.integer && !Whole(n.value) then Bad(f)
    else if f.min.Some? && Less(n.value, Finite(f.min.value)) then Bad(f)
    else if f.max.Some? && Less(Finite(f.max.value), n.value) then Bad(f)
    else Ok(Num(n.value))
  }

  function CoerceSelect(f: FieldDef, raw: Value): Result<Value, Error> {
    if raw.Str? && raw.text in f.options then Ok(raw) else Bad(f)
  }

  function CoerceMulti(f: FieldDef, raw: Value): Result<Value, Error> {
    var items := ToTexts(raw);
    if items.None? || !(forall k :: k in items.value ==> k in f.options) then Bad(f)
    else if f.maxItems.Some? && |FirstOnly(items.value)| > f.maxItems.value then Bad(f)
    else Ok(StrList(FirstOnly(items.value)))
  }

  function CoerceBoolean(f: FieldDef, raw: Value): Result<Value, Error> {
    match raw
    case Bool(_) => Ok(raw)
    case Str(text) =>
      if LowerAscii(Trim(text)) == "true" then Ok(Bool(true))
      else if LowerAscii(Trim(text)) == "false" then Ok(Bool(false))
      else Bad(f)
    case _ => Bad(f)
  }

  function Coerce(env: Env, f: FieldDef, raw: Value): Result<Value, Error> {
    match f.kind
    case Text => CoerceText(env, f, raw)
    case Number => CoerceNumber(env, f, raw)
    case Select => CoerceSelect(f, raw)
    case Multiselect => CoerceMulti(f, raw)
    case Boolean => CoerceBoolean(f, raw)
    case OtherKind(_) => Bad(f)
  }

  /** Duplicates dropped in one pass, first-seen order kept. */
  method Dedupe(texts: seq<string>, options: seq<string>) returns (ok: bool, out: seq<string>)
    ensures ok <==> forall k :: k in texts ==> k in options
    ensures ok ==> out == FirstOnly(texts)
  {
    out := [];
    var seen: set<string> := {};
    for i := 0 to |texts|
      invariant out == FirstOnly(texts[..i]) && seen == set k | k in texts[..i]
      invariant forall k :: k in texts[..i] ==> k in options
    {
      assert texts[..i + 1][..i] == texts[..i];
      assert texts[..i + 1] == texts[..i] + [texts[i]];
      if texts[i] !in options {
        assert texts[i] in texts;
        return false, [];
      }
      if texts[i] in seen {
        continue;
      }
      seen := seen + {texts[i]};
      out := out + [texts[i]];
    }
    assert texts[..|texts|] == texts;
    return true, out;
  }

  method CoerceMultiselect(f: FieldDef, raw: Value) returns (r: Result<Value, Error>)
    ensures r == CoerceMulti(f, raw)
  {
    var items := ToTexts(raw);
    if items.None? {
      return Bad(f);
    }
    var ok, out := Dedupe(items.value, f.options);
    if !ok || (f.maxItems.Some? && |out| > f.maxItems.value) {
      return Bad(f);
    }
    return Ok(StrList(out));
  }

  type Values = map<string, Value>

  predicate Provided(values: Values, f: FieldDef) {
    f.key in values && !IsEmpty(values[f.key])
  }

  type Coercion = (FieldDef, Value) -> Result<Value, Error>

  function Coercer(env: Env): Coercion {
    (f, v) => Coerce(env, f, v)
  }

  /** The walk over the schema, whatever the coercion does with one value. */
  function CoerceAll(c: Coercion, fields: seq<FieldDef>, values: Values): Result<Values, Error> {
    if fields == [] then Ok(map[])
    else
      var f := fields[|fields| - 1];
      var before := CoerceAll(c, fields[..|fields| - 1], values);
      if before.Err? then before
      else if !Provided(values, f) then (if f.required then Err(Required(f.key)) else before)
      else match c(f, values[f.key])
        case Err(e) => Err(e)
        case Ok(v) => Ok(before.value[f.key := v])
  }

  function Validated(env: Env, fields: seq<FieldDef>, values: Values): Result<Values, Error> {
    if exists k :: k in values && k !in Keys(fields) then Err(UnknownField)
    else CoerceAll(Coercer(env), fields, values)
  }

  lemma {:induction false} FirstErrorStays(c: Coercion, fields: seq<FieldDef>, values: Values, i: nat)
    requires i <= |fields| && CoerceAll(c, fields[..i], values).Err?
    ensures CoerceAll(c, fields, values) == CoerceAll(c, fields[..i], values)
    decreases |fields|
  {
    if i == |fields| {
      assert fields[..i] == fields;
    } else {
      assert fields[..|fields| - 1][..i] == fields[..i];
      FirstErrorStays(c, fields[..|fields| - 1], values, i);
    }
  }

  /** Fields in schema order, stopping at the first that fails. */
  method CoerceFields(c: Coercion, effective: seq<FieldDef>, values: Values) returns (r: Result<Values, Error>)
    ensures r == CoerceAll(c, effective, values)
  {
    var out: Values := map[];
    for i := 0 to |effective|
      invariant CoerceAll(c, effective[..i], values) == Ok(out)
    {
      var f := effective[i];
      assert effective[..i + 1][..i] == effective[..i];
      if f.key !in values || IsEmpty(values[f.key]) {
        if f.required {
          FirstErrorStays(c, effective, values, i + 1);
          return Err(Required(f.key));
        }
        continue;
      }
      var canonical := c(f, values[f.key]);
      if canonical.Err? {
        FirstErrorStays(c, effective, values, i + 1);
        return Err(canonical.error);
      }
      out := out[f.key := canonical.value];
    }
    assert effective[..|effective|] == effective;
    return Ok(out);
  }

  /** Unknown keys are refused before any value is looked at. */
  method ValidateValues(env: Env, effective: seq<FieldDef>, values: Values) returns (r: Result<Values, Error>)
    ensures r == Validated(env, effective, values)
  {
    var todo := values.Keys;
    while todo != {}
      invariant todo <= values.Keys
      invariant forall k :: k in values && k !in todo ==> k in Keys(effective)
      decreases |todo|
    {
      var k :| k in todo;
      if k !in Keys(effective) {
        return Err(UnknownField);
      }
      todo := todo - {k};
    }
    r := CoerceFields(Coercer(env), effective, values);
  }

  // ---- what acceptance means -------------------------------------------------------------------------

  /** Not above, where NaN is neither above nor below anything. */
  predicate AtMost(a: Float, b: Float) {
    Less(a, b) || (a == b && !a.NaN?)
  }

  predicate InRange(f: FieldDef, n: Float) {
    && (f.min.Some? ==> AtMost(Finite(f.min.value), n))
    && (f.max.Some? ==> AtMost(n, Finite(f.max.value)))
    && (f.integer ==> Whole(n))
  }

  /** A stored value as its field wants it, and as JSON can write it: a number is neither NaN nor
      infinite. */
  predicate Meets(env: Env, f: FieldDef, v: Value) {
    match f.kind
    case Text =>
      && v.Str? && v.text != "" && Trim(v.text) == v.text
      && (f.maxLength.Some? ==> |v.text| <= f.maxLength.value)
      && (f.pattern != "" ==> env.compiles(f.pattern) && env.matches(f.pattern, v.text))
    case Number => v.Num? && v.n.Finite? && InRange(f, v.n)
    case Select => v.Str? && v.text in f.options
    case Multiselect =>
      && v.StrList? && v.texts != [] && Distinct(v.texts)
      && (forall k :: k in v.texts ==> k in f.options)
      && (f.maxItems.Some? ==> |v.texts| <= f.maxItems.value)
    case Boolean => v.Bool?
    case OtherKind(_) => false
  }

  /** What a caller can tell beforehand: what was submitted for a number field parses to something
      that is no number, and nothing about the field refuses it. The checks ask whether a number is
      out of range, which NaN never is and an infinity is only on the side that has a bound; the check
      for whole numbers refuses NaN alone. */
  predicate Slips(env: Env, f: FieldDef, raw: Value) {
    f.kind.Number? &&
    match ToFloat(env, raw)
    case Some(NaN) => !f.integer
    case Some(PosInf) => f.max.None?
    case Some(NegInf) => f.min.None?
    case _ => false
  }

  /** The part of these that is out of bounds. */
  predicate NaNSlips(env: Env, f: FieldDef, raw: Value) {
    Slips(env, f, raw) && ToFloat(env, raw) == Some(NaN) && (f.min.Some? || f.max.Some?)
  }

  /** What is submitted for a number field is accepted exactly if it is finite and in range, or slips
      through. */
  lemma NumberAcceptedIff(env: Env, f: FieldDef, raw: Value)
    requires f.kind.Number?
    ensures var n := ToFloat(env, raw);
      && (CoerceNumber(env, f, raw).Ok? <==>
            (n.Some? && n.value.Finite? && InRange(f, n.value)) || Slips(env, f, raw))
      && (CoerceNumber(env, f, raw).Ok? ==> (InRange(f, n.value) <==> !NaNSlips(env, f, raw)))
  {
    var n := ToFloat(env, raw);
    if n.Some? && !n.value.NaN? {
      assert f.min.Some? ==> (Less(n.value, Finite(f.min.value)) <==> !AtMost(Finite(f.min.value), n.value));
      assert f.max.Some? ==> (Less(Finite(f.max.value), n.value) <==> !AtMost(n.value, Finite(f.max.value)));
    }
  }

  lemma {:induction false} DistinctStays(s: seq<string>)
    requires Distinct(s)
    ensures FirstOnly(s) == s
  {
    if s != [] {
      assert s == s[..|s| - 1] + [s[|s| - 1]];
      DistinctSnoc(s[..|s| - 1], s[|s| - 1]);
      DistinctStays(s[..|s| - 1]);
    }
  }

  /** What comes out of a coercion meets the field unless it slipped through, and comes out of it again
      unchanged. */
  lemma CoercedMeets(env: Env, f: FieldDef, raw: Value)
    requires !IsEmpty(raw) && Coerce(env, f, raw).Ok?
    ensures var v := Coerce(env, f, raw).value;
      && (Meets(env, f, v) <==> !Slips(env, f, raw))
      && (f.kind.Number? ==> v.Num? && (InRange(f, v.n) <==> !NaNSlips(env, f, raw)))
      && (v.Num? ==> f.kind.Number? && (v.n.Finite? <==> !Slips(env, f, raw)))
      && !IsEmpty(v) && Coerce(env, f, v) == Ok(v)
  {
    match f.kind {
      case Text => TrimTwice(raw.text);
      case Number => NumberAcceptedIff(env, f, raw);
      case Multiselect => MultiMeets(env, f, raw);
      case _ =>
    }
  }

  lemma {:induction false} TextsOfSome(items: seq<Value>)
    requires AllTexts(items).Some?
    ensures |AllTexts(items).value| == |items|
  {
    if items != [] {
      TextsOfSome(items[..|items| - 1]);
    }
  }

  lemma OnlyOnes(texts: seq<string>)
    ensures var out := FirstOnly(texts);
      && Distinct(out) && FirstOnly(out) == out && (texts != [] ==> out != [])
      && forall k :: k in out <==> k in texts
  {
    FirstOnlySame(texts);
    DistinctStays(FirstOnly(texts));
    if texts != [] {
      assert texts[0] in FirstOnly(texts);
    }
  }

  lemma ProvidedTexts(raw: Value)
    requires !IsEmpty(raw) && ToTexts(raw).Some?
    ensures ToTexts(raw).value != []
  {
    if raw.List? {
      TextsOfSome(raw.items);
    }
  }

  lemma MultiMeets(env: Env, f: FieldDef, raw: Value)
    requires !IsEmpty(raw) && f.kind.Multiselect? && CoerceMulti(f, raw).Ok?
    ensures var v := CoerceMulti(f, raw).value; Meets(env, f, v) && !IsEmpty(v) && CoerceMulti(f, v) == Ok(v)
  {
    ProvidedTexts(raw);
    OnlyOnes(ToTexts(raw).value);
  }

  /** One field's part in the result. */
  predicate FieldDone(c: Coercion, f: FieldDef, values: Values, out: Values) {
    if Provided(values, f) then
      f.key in out && c(f, values[f.key]) == Ok(out[f.key])
    else
      f.key !in out && !f.required
  }

  lemma {:induction false} OnlySchemaKeys(c: Coercion, fields: seq<FieldDef>, values: Values)
    requires CoerceAll(c, fields, values).Ok?
    ensures forall k :: k in CoerceAll(c, fields, values).value ==> k in Keys(fields)
  {
    if fields != [] {
      OnlySchemaKeys(c, fields[..|fields| - 1], values);
    }
  }

  lemma KeysSnoc(fields: seq<FieldDef>)
    requires fields != [] && Distinct(Keys(fields))
    ensures Distinct(Keys(fields[..|fields| - 1])) && fields[|fields| - 1].key !in Keys(fields[..|fields| - 1])
  {
    DistinctSnoc(Keys(fields[..|fields| - 1]), fields[|fields| - 1].key);
  }

  lemma LastFieldDone(c: Coercion, fields: seq<FieldDef>, values: Values)
    requires fields != [] && Distinct(Keys(fields)) && CoerceAll(c, fields, values).Ok?
    ensures FieldDone(c, fields[|fields| - 1], values, CoerceAll(c, fields, values).value)
  {
    KeysSnoc(fields);
    OnlySchemaKeys(c, fields[..|fields| - 1], values);
  }

  lemma EarlierFieldsKept(c: Coercion, fields: seq<FieldDef>, values: Values, key: string)
    requires fields != [] && CoerceAll(c, fields, values).Ok? && key != fields[|fields| - 1].key
    ensures var before, out := CoerceAll(c, fields[..|fields| - 1], values), CoerceAll(c, fields, values).value;
      before.Ok? && (key in out <==> key in before.value) && (key in out ==> out[key] == before.value[key])
  {
  }

  /** Field by field: accepted means each provided value is coerced, and each required one provided. */
  lemma {:induction false} CoerceAllAt(c: Coercion, fields: seq<FieldDef>, values: Values, i: nat)
    requires Distinct(Keys(fields)) && CoerceAll(c, fields, values).Ok? && i < |fields|
    ensures FieldDone(c, fields[i], values, CoerceAll(c, fields, values).value)
  {
    if i == |fields| - 1 {
      LastFieldDone(c, fields, values);
    } else {
      var init := fields[..|fields| - 1];
      KeysSnoc(fields);
      assert Keys(init)[i] == fields[i].key;
      EarlierFieldsKept(c, fields, values, fields[i].key);
      CoerceAllAt(c, init, values, i);
    }
  }

  predicate SameOutcome(c: Coercion, f: FieldDef, a: Values, b: Values) {
    && (Provided(a, f) <==> Provided(b, f))
    && (Provided(a, f) ==> c(f, a[f.key]) == c(f, b[f.key]))
  }

  lemma {:induction false} SameResult(c: Coercion, fields: seq<FieldDef>, a: Values, b: Values)
    requires forall f :: f in fields ==> SameOutcome(c, f, a, b)
    ensures CoerceAll(c, fields, a) == CoerceAll(c, fields, b)
  {
    if fields != [] {
      SameResult(c, fields[..|fields| - 1], a, b);
      assert SameOutcome(c, fields[|fields| - 1], a, b);
    }
  }

  ghost predicate FieldSound(env: Env, f: FieldDef, values: Values, out: Values) {
    && (f.key in out <==> Provided(values, f))
    && (f.required ==> f.key in out)
    && (f.key in out ==>
          && f.key in values
          && (Meets(env, f, out[f.key]) <==> !Slips(env, f, values[f.key]))
          && (f.kind.Number? ==>
                out[f.key].Num? && (InRange(f, out[f.key].n) <==> !NaNSlips(env, f, values[f.key])))
          && (out[f.key].Num? ==> (out[f.key].n.Finite? <==> !Slips(env, f, values[f.key]))))
  }

  lemma DoneIsSound(env: Env, f: FieldDef, values: Values, out: Values)
    requires FieldDone(Coercer(env), f, values, out)
    ensures FieldSound(env, f, values, out) && SameOutcome(Coercer(env), f, out, values)
  {
    if Provided(values, f) {
      CoercedMeets(env, f, values[f.key]);
    }
  }

  lemma FieldIsSound(env: Env, fields: seq<FieldDef>, values: Values, f: FieldDef)
    requires Distinct(Keys(fields)) && CoerceAll(Coercer(env), fields, values).Ok? && f in fields
    ensures var out := CoerceAll(Coercer(env), fields, values).value;
      FieldSound(env, f, values, out) && SameOutcome(Coercer(env), f, out, values)
  {
    var i :| 0 <= i < |fields| && fields[i] == f;
    CoerceAllAt(Coercer(env), fields, values, i);
    DoneIsSound(env, f, values, CoerceAll(Coercer(env), fields, values).value);
  }

  /** Accepted values are sound: only the schema's keys, every required one, each value meeting its
      field unless it slipped through. */
  lemma ValidatedIsSound(env: Env, fields: seq<FieldDef>, values: Values)
    requires Distinct(Keys(fields)) && Validated(env, fields, values).Ok?
    ensures var out := Validated(env, fields, values).value;
      && (forall k :: k in out ==> k in Keys(fields))
      && (forall f :: f in fields ==> FieldSound(env, f, values, out))
  {
    OnlySchemaKeys(Coercer(env), fields, values);
    forall f | f in fields
      ensures FieldSound(env, f, values, CoerceAll(Coercer(env), fields, values).value)
    {
      FieldIsSound(env, fields, values, f);
    }
  }

  ghost predicate NothingSlips(env: Env, fields: seq<FieldDef>, values: Values) {
    forall f :: f in fields && Provided(values, f) ==> !Slips(env, f, values[f.key])
  }

  /** Every number can be written as JSON. */
  ghost predicate AllFinite(out: Values) {
    forall k :: k in out && out[k].Num? ==> out[k].n.Finite?
  }

  lemma KeyHasField(fields: seq<FieldDef>, key: string) returns (f: FieldDef)
    requires key in Keys(fields)
    ensures f in fields && f.key == key
  {
    var i :| 0 <= i < |Keys(fields)| && Keys(fields)[i] == key;
    f := fields[i];
  }

  /** An accepted result meets its schema, and can be written as JSON, exactly if nothing submitted
      slips through. */
  lemma AllMeetIff(env: Env, fields: seq<FieldDef>, values: Values)
    requires Distinct(Keys(fields)) && Validated(env, fields, values).Ok?
    ensures var out := Validated(env, fields, values).value;
      (forall f :: f in fields && f.key in out ==> Meets(env, f, out[f.key])) <==> NothingSlips(env, fields, values)
    ensures AllFinite(Validated(env, fields, values).value) <==> NothingSlips(env, fields, values)
  {
    ValidatedIsSound(env, fields, values);
    var out := Validated(env, fields, values).value;
    forall f | f in fields
      ensures (f.key in out ==> Meets(env, f, out[f.key])) <==> (Provided(values, f) ==> !Slips(env, f, values[f.key]))
    {
      assert FieldSound(env, f, values, out);
    }
    if NothingSlips(env, fields, values) {
      forall k | k in out && out[k].Num? ensures out[k].n.Finite? {
        var f := KeyHasField(fields, k);
        assert FieldSound(env, f, values, out);
      }
    } else {
      var f :| f in fields && Provided(values, f) && Slips(env, f, values[f.key]);
      assert FieldSound(env, f, values, out);
    }
  }

  /** Bounds alone are kept exactly if nothing submitted for a field with a bound is a NaN that slips
      through. */
  lemma BoundsKeptIff(env: Env, fields: seq<FieldDef>, values: Values)
    requires Distinct(Keys(fields)) && Validated(env, fields, values).Ok?
    ensures var out := Validated(env, fields, values).value;
      (forall f :: f in fields && f.key in out && out[f.key].Num? ==> InRange(f, out[f.key].n)) <==>
      (forall f :: f in fields && Provided(values, f) ==> !NaNSlips(env, f, values[f.key]))
  {
    ValidatedIsSound(env, fields, values);
    var out := Validated(env, fields, values).value;
    forall f | f in fields
      ensures (f.key in out && out[f.key].Num? ==> InRange(f, out[f.key].n)) <==>
              (Provided(values, f) ==> !NaNSlips(env, f, values[f.key]))
    {
      assert FieldSound(env, f, values, out);
    }
  }

  lemma OneField(env: Env, f: FieldDef, text: string, n: Float)
    requires f.kind.Number? && Trim(text) == text && text != "" && env.parse(text) == Some(n)
    requires Slips(env, f, Str(text))
    ensures Validated(env, [f], map[f.key := Str(text)]) == Ok(map[f.key := Num(n)])
    ensures !Meets(env, f, Num(n)) && !AllFinite(map[f.key := Num(n)])
  {
    NumberAcceptedIff(env, f, Str(text));
    assert [f][..0] == [] && Keys([f])[0] == f.key;
    assert CoerceAll(Coercer(env), [], map[f.key := Str(text)]) == Ok(map[]);
    var out := map[f.key := Num(n)];
    assert f.key in out && out[f.key].Num?;
  }

  /** The text "NaN" gets through any form with one number field that takes fractions. */
  lemma NaNGetsThrough(env: Env, f: FieldDef)
    requires env.parse("NaN") == Some(NaN) && f.kind.Number? && !f.integer
    ensures Validated(env, [f], map[f.key := Str("NaN")]) == Ok(map[f.key := Num(NaN)])
    ensures !AllFinite(map[f.key := Num(NaN)])
  {
    assert !IsSpace('N') && Trim("NaN") == "NaN";
    OneField(env, f, "NaN", NaN);
  }

  /** The text "Inf" gets through any with one number field without a maximum, whole numbers or not. */
  lemma InfinityGetsThrough(env: Env, f: FieldDef)
    requires env.parse("Inf") == Some(PosInf) && f.kind.Number? && f.max.None?
    ensures Validated(env, [f], map[f.key := Str("Inf")]) == Ok(map[f.key := Num(PosInf)])
    ensures !AllFinite(map[f.key := Num(PosInf)])
  {
    assert !IsSpace('I') && !IsSpace('f') && Trim("Inf") == "Inf";
    OneField(env, f, "Inf", PosInf);
  }

  /** Accepted values are accepted again, and come out the same. */
  lemma ValidatedTwice(env: Env, fields: seq<FieldDef>, values: Values)
    requires Distinct(Keys(fields)) && Validated(env, fields, values).Ok?
    ensures var out := Validated(env, fields, values).value; Validated(env, fields, out) == Ok(out)
  {
    var out := CoerceAll(Coercer(env), fields, values).value;
    OnlySchemaKeys(Coercer(env), fields, values);
    forall f | f in fields ensures SameOutcome(Coercer(env), f, out, values) {
      FieldIsSound(env, fields, values, f);
    }
    SameResult(Coercer(env), fields, out, values);
  }

  predicate FieldPasses(c: Coercion, f: FieldDef, values: Values) {
    if Provided(values, f) then c(f, values[f.key]).Ok? else !f.required
  }

  lemma {:induction false} PassesAll(c: Coercion, fields: seq<FieldDef>, values: Values)
    ensures CoerceAll(c, fields, values).Ok? <==> forall f :: f in fields ==> FieldPasses(c, f, values)
  {
    if fields != [] {
      var init, last := fields[..|fields| - 1], fields[|fields| - 1];
      PassesAll(c, init, values);
      assert fields == init + [last];
      assert CoerceAll(c, fields, values).Ok? <==> CoerceAll(c, init, values).Ok? && FieldPasses(c, last, values);
    }
  }

  /** Values are accepted exactly when every key is known and every field passes on its own. */
  lemma AcceptedIff(env: Env, fields: seq<FieldDef>, values: Values)
    ensures Validated(env, fields, values).Ok? <==>
      && (forall k :: k in values ==> k in Keys(fields))
      && (forall f :: f in fields ==> FieldPasses(Coercer(env), f, values))
  {
    PassesAll(Coercer(env), fields, values);
  }
}
