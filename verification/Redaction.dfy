/**
 Scrubbing configured secrets out of an error message (backend/internal/connector/secrets.go,
 RedactString and truncate). Characters stand for bytes.

 The point is that one replacement may not undo another: replacing a secret writes "[redacted]"
 into the text, and cutting the text appends an ellipsis, and either could complete another secret.
 */
module Redaction {
  import opened SecretMerge

  const REDACTED := "[redacted]"
  const ELLIPSIS := ['\U{E2}', '\U{80}', '\U{A6}']
  const MAX_ERROR_LEN := 1000
  const MIN_SECRET_LEN := 6
  const UNREADABLE := "[error redacted: connector config unreadable]"

  predicate OccursAt(v: string, s: string, i: nat) {
    i + |v| <= |s| && s[i..i + |v|] == v
  }

  ghost predicate Occurs(v: string, s: string) {
    exists i: nat :: OccursAt(v, s, i)
  }

  /** Leftmost matches first, none overlapping another. */
  function ReplaceAll(s: string, v: string): string
    requires v != ""
  {
    if |s| < |v| then s
    else if v <= s then REDACTED + ReplaceAll(s[|v|..], v)
    else [s[0]] + ReplaceAll(s[1..], v)
  }

  function Truncate(s: string): string {
    if |s| <= MAX_ERROR_LEN then s else s[..MAX_ERROR_LEN] + ELLIPSIS
  }

  predicate LongEnough(vs: seq<string>) {
    forall v :: v in vs ==> |v| >= MIN_SECRET_LEN
  }

  function ReplaceEach(s: string, vs: seq<string>): string
    requires LongEnough(vs)
  {
    if vs == [] then s else ReplaceAll(ReplaceEach(s, vs[..|vs| - 1]), vs[|vs| - 1])
  }

  /** The values worth matching, in field order: strings of at least the minimum length. JSON null
      reads as an empty string and so is passed over, like a value of any other type. */
  function SecretAt(obj: Object, field: string): seq<string> {
    if field in obj && obj[field].Str? && |obj[field].text| >= MIN_SECRET_LEN then [obj[field].text] else []
  }

  function SecretsIn(obj: Object, fields: seq<string>): (vs: seq<string>)
    ensures LongEnough(vs)
  {
    if fields == [] then [] else SecretsIn(obj, fields[..|fields| - 1]) + SecretAt(obj, fields[|fields| - 1])
  }

  function Scrubbed(s: string, cfg: Raw, fields: seq<string>): string {
    if fields == [] then Truncate(s)
    else if Decode(cfg, "config").Err? then UNREADABLE
    else Truncate(ReplaceEach(s, SecretsIn(Decode(cfg, "config").obj, fields)))
  }

  lemma SecretsStep(obj: Object, fields: seq<string>, i: nat)
    requires i < |fields|
    ensures SecretsIn(obj, fields[..i + 1]) == SecretsIn(obj, fields[..i]) + SecretAt(obj, fields[i])
  {
    assert fields[..i + 1][..i] == fields[..i];
  }

  lemma ReplaceOneMore(s: string, vs: seq<string>, v: string)
    requires LongEnough(vs) && |v| >= MIN_SECRET_LEN
    ensures ReplaceEach(s, vs + [v]) == ReplaceAll(ReplaceEach(s, vs), v)
  {
    assert (vs + [v])[..|vs|] == vs;
  }

  lemma ScrubStep(s: string, obj: Object, fields: seq<string>, i: nat)
    requires i < |fields|
    ensures var before := ReplaceEach(s, SecretsIn(obj, fields[..i]));
      ReplaceEach(s, SecretsIn(obj, fields[..i + 1])) ==
        if SecretAt(obj, fields[i]) == [] then before else ReplaceAll(before, obj[fields[i]].text)
  {
    SecretsStep(obj, fields, i);
    if SecretAt(obj, fields[i]) != [] {
      ReplaceOneMore(s, SecretsIn(obj, fields[..i]), obj[fields[i]].text);
    } else {
      assert SecretsIn(obj, fields[..i]) + [] == SecretsIn(obj, fields[..i]);
    }
  }

  method RedactString(s: string, cfg: Raw, secretFields: seq<string>) returns (r: string)
    ensures r == Scrubbed(s, cfg, secretFields)
  {
    r := s;
    if |secretFields| > 0 {
      var decoded := Decode(cfg, "config");
      if decoded.Err? {
        return UNREADABLE;
      }
      var obj := decoded.obj;
      for i := 0 to |secretFields|
        invariant r == ReplaceEach(s, SecretsIn(obj, secretFields[..i]))
      {
        var field := secretFields[i];
        ScrubStep(s, obj, secretFields, i);
        if field !in obj || !(obj[field].Str? || obj[field].Null?) {
          continue;
        }
        var value := if obj[field].Null? then "" else obj[field].text;
        if |value| < MIN_SECRET_LEN {
          continue;
        }
        r := ReplaceAll(r, value);
      }
      assert secretFields[..|secretFields|] == secretFields;
    }
    r := Truncate(r);
  }

  // ---- which secrets redaction can protect ----------------------------------------------------

  predicate EndsWith(v: string, m: string, k: nat) {
    0 < k <= |m| && k <= |v| && v[|v| - k..] == m[..k]
  }

  predicate BeginsWith(v: string, m: string, k: nat) {
    k < |m| && m[k..] <= v
  }

  ghost predicate StartsInMarker(v: string) {
    exists k: nat :: BeginsWith(v, REDACTED, k)
  }

  ghost predicate EndsInMarker(v: string) {
    exists k: nat :: EndsWith(v, REDACTED, k)
  }

  ghost predicate EndsInEllipsis(v: string) {
    exists k: nat :: EndsWith(v, ELLIPSIS, k)
  }

  ghost predicate ClearOfMarker(t: string) {
    !EndsInMarker(t) && !Occurs(REDACTED, t)
  }

  ghost predicate OffMarker(v: string) {
    !Occurs(v, REDACTED) && ClearOfMarker(v) && !StartsInMarker(v)
  }

  /** No occurrence of the value can share a byte with the marker or the ellipsis. */
  ghost predicate Apart(v: string) {
    OffMarker(v) && !EndsInEllipsis(v)
  }

  /** The value can share a byte with the marker or the ellipsis and still end before the cut, or,
      for the ellipsis, just after it. */
  ghost predicate Exposed(v: string) {
    || (|v| <= MAX_ERROR_LEN && (Occurs(v, REDACTED) || Occurs(REDACTED, v) || EndsInMarker(v)))
    || (exists k: nat :: BeginsWith(v, REDACTED, k) && k + |v| <= MAX_ERROR_LEN)
    || (exists k: nat :: EndsWith(v, ELLIPSIS, k) && |v| - k <= MAX_ERROR_LEN)
  }

  /** Where a message has room for the value beside the marker, the two are the same. */
  lemma ExposedIffNotApart(v: string)
    ensures Exposed(v) ==> !Apart(v)
    ensures |v| <= MAX_ERROR_LEN - |REDACTED| ==> (Exposed(v) <==> !Apart(v))
  {
    if |v| <= MAX_ERROR_LEN - |REDACTED| && StartsInMarker(v) {
      var k: nat :| BeginsWith(v, REDACTED, k);
      assert k + |v| <= MAX_ERROR_LEN;
    }
    if |v| <= MAX_ERROR_LEN - |REDACTED| && EndsInEllipsis(v) {
      var k: nat :| EndsWith(v, ELLIPSIS, k);
      assert |v| - k <= MAX_ERROR_LEN;
    }
  }

  lemma OccursInTail(v: string, a: string, b: string, i: nat)
    requires OccursAt(v, a + b, i) && i >= |a|
    ensures Occurs(v, b)
  {
    assert (a + b)[i..i + |v|] == b[i - |a|..i - |a| + |v|];
    assert OccursAt(v, b, i - |a|);
  }

  lemma OccursAfter(v: string, a: string, b: string)
    requires Occurs(v, b)
    ensures Occurs(v, a + b)
  {
    var i: nat :| OccursAt(v, b, i);
    assert (a + b)[i + |a|..i + |a| + |v|] == b[i..i + |v|];
    assert OccursAt(v, a + b, i + |a|);
  }

  lemma PrefixOccurs(v: string, s: string)
    requires v <= s
    ensures Occurs(v, s)
  {
    assert OccursAt(v, s, 0);
  }

  lemma TailEndsInMarker(t: string)
    requires t != "" && EndsInMarker(t[1..])
    ensures EndsInMarker(t)
  {
    var t' := t[1..];
    var k: nat :| EndsWith(t', REDACTED, k);
    assert t[|t| - k..] == t'[|t'| - k..];
    assert EndsWith(t, REDACTED, k);
  }

  lemma ClearTail(t: string)
    requires ClearOfMarker(t) && t != ""
    ensures ClearOfMarker(t[1..])
  {
    assert t == [t[0]] + t[1..];
    if EndsInMarker(t[1..]) {
      TailEndsInMarker(t);
    }
    if Occurs(REDACTED, t[1..]) {
      OccursAfter(REDACTED, [t[0]], t[1..]);
    }
  }

  lemma MarkerAhead(t: string, rest: string)
    requires t != "" && t <= REDACTED + rest
    ensures !ClearOfMarker(t)
  {
    if |t| <= |REDACTED| {
      assert t[|t| - |t|..] == REDACTED[..|t|];
      assert EndsWith(t, REDACTED, |t|);
    } else {
      assert t[..|REDACTED|] == REDACTED;
      PrefixOccurs(REDACTED, t);
    }
  }

  /** What begins the scrubbed text and keeps clear of the marker began the text before. */
  lemma {:induction false} BeganBefore(t: string, s: string, u: string)
    requires u != "" && ClearOfMarker(t) && t <= ReplaceAll(s, u)
    ensures t <= s
    decreases |s|
  {
    if |s| < |u| || t == "" {
    } else if u <= s {
      MarkerAhead(t, ReplaceAll(s[|u|..], u));
    } else {
      var out := ReplaceAll(s[1..], u);
      ClearTail(t);
      assert t[1..] <= out by {
        assert ([s[0]] + out)[1..|t|] == out[..|t| - 1];
      }
      BeganBefore(t[1..], s[1..], u);
      assert t == [s[0]] + t[1..] && s == [s[0]] + s[1..];
    }
  }

  lemma FromTheMarker(v: string, rest: string, i: nat)
    requires OccursAt(v, REDACTED + rest, i) && i < |REDACTED|
    ensures Occurs(v, REDACTED) || BeginsWith(v, REDACTED, i)
  {
    if i + |v| <= |REDACTED| {
      assert (REDACTED + rest)[i..i + |v|] == REDACTED[i..i + |v|];
      assert OccursAt(v, REDACTED, i);
    } else {
      assert v[..|REDACTED| - i] == (REDACTED + rest)[i..|REDACTED|] == REDACTED[i..];
    }
  }

  lemma AcrossTheMarker(v: string, rest: string, i: nat)
    requires OccursAt(v, REDACTED + rest, i)
    ensures Occurs(v, rest) || Occurs(v, REDACTED) || StartsInMarker(v)
  {
    if i >= |REDACTED| {
      OccursInTail(v, REDACTED, rest, i);
    } else {
      FromTheMarker(v, rest, i);
    }
  }

  lemma MarkerThenClean(v: string, rest: string)
    requires OffMarker(v) && !Occurs(v, rest)
    ensures !Occurs(v, REDACTED + rest)
  {
    if i: nat :| OccursAt(v, REDACTED + rest, i) {
      AcrossTheMarker(v, rest, i);
    }
  }

  /** A replacement never brings a protected value in, and replacing the value itself removes it. */
  lemma {:induction false} StaysOut(v: string, s: string, u: string)
    requires OffMarker(v) && v != "" && u != "" && (u == v || !Occurs(v, s))
    ensures !Occurs(v, ReplaceAll(s, u))
    decreases |s|
  {
    if |s| < |u| {
    } else if u <= s {
      var rest := s[|u|..];
      assert s == s[..|u|] + rest;
      if u != v && Occurs(v, rest) {
        OccursAfter(v, s[..|u|], rest);
      }
      StaysOut(v, rest, u);
      MarkerThenClean(v, ReplaceAll(rest, u));
    } else {
      assert s == [s[0]] + s[1..];
      if u != v && Occurs(v, s[1..]) {
        OccursAfter(v, [s[0]], s[1..]);
      }
      StaysOut(v, s[1..], u);
      if i: nat :| OccursAt(v, ReplaceAll(s, u), i) {
        if i >= 1 {
          OccursInTail(v, [s[0]], ReplaceAll(s[1..], u), i);
        } else {
          BeganBefore(v, s, u);
          PrefixOccurs(v, s);
        }
      }
    }
  }

  lemma {:induction false} EachStaysOut(v: string, s: string, vs: seq<string>)
    requires LongEnough(vs) && v in vs && OffMarker(v)
    ensures !Occurs(v, ReplaceEach(s, vs))
    decreases |vs|
  {
    var init, last := vs[..|vs| - 1], vs[|vs| - 1];
    assert vs == init + [last];
    if v in init {
      EachStaysOut(v, s, init);
    }
    StaysOut(v, ReplaceEach(s, init), last);
  }

  /** Nothing of the value before position `q`. */
  ghost predicate NotBefore(v: string, s: string, q: nat) {
    forall i: nat :: OccursAt(v, s, i) ==> i >= q
  }

  /** Whatever of the marker begins the value starts at `q` or later in the marker. */
  ghost predicate BeginsLate(v: string, q: nat) {
    q <= |REDACTED| && forall k: nat :: BeginsWith(v, REDACTED, k) ==> k >= q
  }

  lemma MarkerThenLate(v: string, rest: string, q: nat)
    requires BeginsLate(v, q) && !Occurs(v, REDACTED)
    ensures NotBefore(v, REDACTED + rest, q)
  {
    forall i: nat | OccursAt(v, REDACTED + rest, i) ensures i >= q {
      if i < q {
        FromTheMarker(v, rest, i);
      }
    }
  }

  lemma NotBeforeTail(v: string, s: string, q: nat)
    requires s != "" && q > 0 && NotBefore(v, s, q)
    ensures NotBefore(v, s[1..], q - 1)
  {
    forall i: nat | OccursAt(v, s[1..], i) ensures i >= q - 1 {
      assert s[i + 1..i + 1 + |v|] == s[1..][i..i + |v|];
      assert OccursAt(v, s, i + 1);
    }
  }

  lemma NotAtFront(v: string, s: string, q: nat)
    requires q > 0 && NotBefore(v, s, q)
    ensures !(v <= s)
  {
    assert v <= s ==> OccursAt(v, s, 0);
  }

  lemma NotBegun(v: string, s: string, u: string)
    requires u != "" && ClearOfMarker(v) && !(v <= s)
    ensures !(v <= ReplaceAll(s, u))
  {
    if v <= ReplaceAll(s, u) {
      BeganBefore(v, s, u);
    }
  }

  lemma NotBeforeCons(v: string, c: char, rest: string, q: nat)
    requires q > 0 && NotBefore(v, rest, q - 1) && !(v <= [c] + rest)
    ensures NotBefore(v, [c] + rest, q)
  {
    assert OccursAt(v, [c] + rest, 0) ==> v <= [c] + rest;
    forall i: nat | OccursAt(v, [c] + rest, i) ensures i >= q {
      if i > 0 {
        assert ([c] + rest)[i..i + |v|] == rest[i - 1..i - 1 + |v|];
        assert OccursAt(v, rest, i - 1);
      }
    }
  }

  /** The same for a value that may begin in the marker, as long as it begins late: replacements
      move nothing of it to the front. */
  lemma {:induction false} StaysBack(v: string, s: string, u: string, q: nat)
    requires ClearOfMarker(v) && !Occurs(v, REDACTED) && BeginsLate(v, q)
    requires v != "" && u != "" && (u == v || NotBefore(v, s, q))
    ensures NotBefore(v, ReplaceAll(s, u), q)
    decreases |s|
  {
    if q == 0 || |s| < |u| {
    } else if u <= s {
      MarkerThenLate(v, ReplaceAll(s[|u|..], u), q);
    } else {
      if u != v {
        NotBeforeTail(v, s, q);
        NotAtFront(v, s, q);
      }
      StaysBack(v, s[1..], u, q - 1);
      NotBegun(v, s, u);
      NotBeforeCons(v, s[0], ReplaceAll(s[1..], u), q);
    }
  }

  lemma {:induction false} EachStaysBack(v: string, s: string, vs: seq<string>, q: nat)
    requires LongEnough(vs) && v in vs && ClearOfMarker(v) && !Occurs(v, REDACTED) && BeginsLate(v, q)
    ensures NotBefore(v, ReplaceEach(s, vs), q)
    decreases |vs|
  {
    var init, last := vs[..|vs| - 1], vs[|vs| - 1];
    assert vs == init + [last];
    if v in init {
      EachStaysBack(v, s, init, q);
    }
    StaysBack(v, ReplaceEach(s, init), last, q);
  }

  ghost predicate PastTheCut(v: string, s: string) {
    forall i: nat :: OccursAt(v, s, i) ==> i + |v| > MAX_ERROR_LEN
  }

  lemma EachPastTheCut(v: string, s: string, vs: seq<string>)
    requires LongEnough(vs) && v in vs && !Exposed(v)
    ensures PastTheCut(v, ReplaceEach(s, vs))
  {
    if |v| <= MAX_ERROR_LEN {
      if StartsInMarker(v) {
        var k: nat :| BeginsWith(v, REDACTED, k);
        EachStaysBack(v, s, vs, MAX_ERROR_LEN + 1 - |v|);
      } else {
        EachStaysOut(v, s, vs);
      }
    }
  }

  lemma AcrossTheCut(v: string, s: string, i: nat)
    requires |s| > MAX_ERROR_LEN && |v| > |ELLIPSIS| && OccursAt(v, Truncate(s), i)
    ensures (OccursAt(v, s, i) && i + |v| <= MAX_ERROR_LEN) || Exposed(v)
  {
    var cut := s[..MAX_ERROR_LEN];
    if i + |v| <= |cut| {
      assert (cut + ELLIPSIS)[i..i + |v|] == s[i..i + |v|];
    } else {
      var k := i + |v| - |cut|;
      assert v[|v| - k..] == (cut + ELLIPSIS)[|cut|..|cut| + k] == ELLIPSIS[..k];
      assert EndsWith(v, ELLIPSIS, k);
    }
  }

  /** However a message is replaced and cut, a secret that is not exposed is not in it. */
  lemma UnexposedStaysOut(v: string, s: string, vs: seq<string>)
    requires LongEnough(vs) && v in vs && !Exposed(v)
    ensures !Occurs(v, Truncate(ReplaceEach(s, vs)))
  {
    var out := ReplaceEach(s, vs);
    EachPastTheCut(v, s, vs);
    if i: nat :| OccursAt(v, Truncate(out), i) {
      if |out| > MAX_ERROR_LEN {
        AcrossTheCut(v, out, i);
      }
    }
  }

  lemma {:induction false} IsASecret(obj: Object, fields: seq<string>, field: string)
    requires field in fields && field in obj && obj[field].Str? && |obj[field].text| >= MIN_SECRET_LEN
    ensures obj[field].text in SecretsIn(obj, fields)
  {
    var init := fields[..|fields| - 1];
    assert fields == init + [fields[|fields| - 1]];
    if field in init {
      IsASecret(obj, init, field);
    }
  }

  /** A secret that is not exposed is not in the message that is stored, whatever the message, the
      other secrets and their order, and after the cut. */
  lemma RedactionIsComplete(s: string, cfg: Raw, fields: seq<string>, field: string)
    requires Decode(cfg, "config").Ok?
    requires var obj := Decode(cfg, "config").obj;
      && field in fields && field in obj && obj[field].Str?
      && |obj[field].text| >= 6 && !Exposed(obj[field].text)
    ensures !Occurs(Decode(cfg, "config").obj[field].text, Scrubbed(s, cfg, fields))
  {
    var obj := Decode(cfg, "config").obj;
    IsASecret(obj, fields, field);
    UnexposedStaysOut(obj[field].text, s, SecretsIn(obj, fields));
  }

  lemma InTheMiddle(v: string, m: string, i: nat)
    requires OccursAt(v, "[" + m + "]", i) && 0 < i && i + |v| <= |m| + 1
    ensures Occurs(v, m)
  {
    assert ("[" + m + "]")[i..i + |v|] == m[i - 1..i - 1 + |v|];
    assert OccursAt(v, m, i - 1);
  }

  lemma InsideMarker(v: string)
    requires v != "" && Occurs(v, REDACTED)
    ensures '[' in v || ']' in v || Occurs(v, "redacted")
  {
    var i: nat :| OccursAt(v, REDACTED, i);
    assert REDACTED == "[" + "redacted" + "]";
    if i == 0 {
      assert v[0] == REDACTED[0];
    } else if i + |v| == |REDACTED| {
      assert v[|v| - 1] == REDACTED[|REDACTED| - 1];
    } else {
      InTheMiddle(v, "redacted", i);
    }
  }

  lemma AroundMarker(v: string)
    requires Occurs(REDACTED, v) || StartsInMarker(v) || EndsInMarker(v)
    ensures '[' in v || ']' in v
  {
    if i: nat :| OccursAt(REDACTED, v, i) {
      assert v[i] == v[i..i + |REDACTED|][0];
    } else if k: nat :| BeginsWith(v, REDACTED, k) {
      assert v[|REDACTED| - k - 1] == REDACTED[k..][|REDACTED| - k - 1];
    } else {
      var k: nat :| EndsWith(v, REDACTED, k);
      assert v[|v| - k] == REDACTED[..k][0];
    }
  }

  lemma EllipsisByte(v: string)
    requires EndsInEllipsis(v)
    ensures ELLIPSIS[0] in v
  {
    var k: nat :| EndsWith(v, ELLIPSIS, k);
    assert v[|v| - k] == ELLIPSIS[..k][0];
  }

  /** A credential without brackets or ellipsis bytes, other than a piece of "redacted", is such a
      secret. */
  lemma OrdinarySecretsKeepApart(v: string)
    requires v != "" && '[' !in v && ']' !in v && !Occurs(v, "redacted")
    requires forall c :: c in ELLIPSIS ==> c !in v
    ensures Apart(v) && !Exposed(v)
  {
    assert ELLIPSIS[0] in ELLIPSIS;
    if Occurs(v, REDACTED) {
      InsideMarker(v);
    }
    if Occurs(REDACTED, v) || StartsInMarker(v) || EndsInMarker(v) {
      AroundMarker(v);
    }
    if EndsInEllipsis(v) {
      EllipsisByte(v);
    }
  }

  // ---- and every other secret can leak -----------------------------------------------------------

  predicate InByteRange(c: char, lo: int, hi: int) {
    lo <= c as int <= hi
  }

  predicate Tail(c: char) {
    InByteRange(c, 0x80, 0xBF)
  }

  /** The length of the character that begins the text (RFC 3629, section 4); 0 if none does. */
  function FirstLength(s: string): (n: nat)
    ensures n <= |s| && n <= 4
  {
    if s == "" then 0
    else if InByteRange(s[0], 0, 0x7F) then 1
    else if |s| >= 2 && InByteRange(s[0], 0xC2, 0xDF) && Tail(s[1]) then 2
    else if |s| >= 3 && Tail(s[2]) && ThreeByteStart(s[0], s[1]) then 3
    else if |s| >= 4 && Tail(s[2]) && Tail(s[3]) && FourByteStart(s[0], s[1]) then 4
    else 0
  }

  predicate ThreeByteStart(a: char, b: char) {
    || (InByteRange(a, 0xE0, 0xE0) && InByteRange(b, 0xA0, 0xBF))
    || ((InByteRange(a, 0xE1, 0xEC) || InByteRange(a, 0xEE, 0xEF)) && Tail(b))
    || (InByteRange(a, 0xED, 0xED) && InByteRange(b, 0x80, 0x9F))
  }

  predicate FourByteStart(a: char, b: char) {
    || (InByteRange(a, 0xF0, 0xF0) && InByteRange(b, 0x90, 0xBF))
    || (InByteRange(a, 0xF1, 0xF3) && Tail(b))
    || (InByteRange(a, 0xF4, 0xF4) && InByteRange(b, 0x80, 0x8F))
  }

  predicate ValidUtf8(s: string)
    decreases |s|
  {
    s == "" || (FirstLength(s) > 0 && ValidUtf8(s[FirstLength(s)..]))
  }

  /** A string decoded from JSON never holds a broken character. */
  predicate Storable(obj: Object) {
    forall k :: k in obj && obj[k].Str? ==> ValidUtf8(obj[k].text)
  }

  /** The value is a secret of a stored config, and still in the message that is stored. */
  ghost predicate LeaksFrom(v: string, s: string, cfg: Raw, fields: seq<string>, field: string) {
    && Decode(cfg, "config").Ok? && Storable(Decode(cfg, "config").obj)
    && field in fields && field in Decode(cfg, "config").obj && Decode(cfg, "config").obj[field] == Str(v)
    && Occurs(v, Scrubbed(s, cfg, fields))
  }

  ghost predicate CanLeak(v: string) {
    exists s: string, cfg: Raw, fields: seq<string>, field: string :: LeaksFrom(v, s, cfg, fields, field)
  }

  lemma {:induction false} EllipsisIsWhole(v: string, i: nat)
    requires ValidUtf8(v) && i < |v| && v[i] == ELLIPSIS[0]
    ensures i + 2 < |v|
    decreases |v|
  {
    var n := FirstLength(v);
    if i >= n {
      EllipsisIsWhole(v[n..], i - n);
    }
  }

  /** So a stored value that shares a byte with the ellipsis ends in the whole of it. */
  lemma StoredEllipsis(v: string, k: nat)
    requires ValidUtf8(v) && EndsWith(v, ELLIPSIS, k)
    ensures k == |ELLIPSIS|
  {
    assert v[|v| - k] == v[|v| - k..][0] == ELLIPSIS[0];
    EllipsisIsWhole(v, |v| - k);
  }

  predicate Ascii(s: string) {
    forall c :: c in s ==> InByteRange(c, 0, 0x7F)
  }

  lemma {:induction false} AsciiIsValid(s: string)
    requires Ascii(s)
    ensures ValidUtf8(s)
    decreases |s|
  {
    if s != "" {
      AsciiIsValid(s[1..]);
    }
  }

  function TwoFields(v: string, w: string): Object {
    map["a" := Str(v), "b" := Str(w)]
  }

  lemma TwoSecrets(v: string, w: string)
    requires |v| >= MIN_SECRET_LEN && |w| >= MIN_SECRET_LEN
    ensures SecretsIn(TwoFields(v, w), ["a", "b"]) == [v, w]
  {
    var obj := TwoFields(v, w);
    assert SecretsIn(obj, []) == [];
    SecretsStep(obj, ["a", "b"], 0);
    SecretsStep(obj, ["a", "b"], 1);
    assert ["a", "b"][..2] == ["a", "b"] && ["a", "b"][..0] == [];
    assert SecretAt(obj, "a") == [v] && SecretAt(obj, "b") == [w];
  }

  lemma TwoScrubbed(v: string, w: string, s: string)
    requires |v| >= MIN_SECRET_LEN && |w| >= MIN_SECRET_LEN
    ensures Scrubbed(s, ObjectText(TwoFields(v, w)), ["a", "b"]) == Truncate(ReplaceEach(s, [v, w]))
  {
    TwoSecrets(v, w);
  }

  lemma StoredLeak(v: string, w: string, s: string)
    requires |v| >= MIN_SECRET_LEN && ValidUtf8(v) && |w| >= MIN_SECRET_LEN && Ascii(w)
    requires Occurs(v, Truncate(ReplaceEach(s, [v, w])))
    ensures CanLeak(v)
  {
    AsciiIsValid(w);
    TwoScrubbed(v, w, s);
    var obj, fields := TwoFields(v, w), ["a", "b"];
    assert fields[0] == "a";
    assert LeaksFrom(v, s, ObjectText(obj), fields, "a");
  }

  function Run(c: char, n: nat): (s: string)
    ensures |s| == n && forall i :: 0 <= i < n ==> s[i] == c
  {
    if n == 0 then "" else [c] + Run(c, n - 1)
  }

  function Unlike(x: char, y: char, z: char): (c: char)
    ensures c != x && c != y && c != z && InByteRange(c, 0, 0x7F)
  {
    if 'p' !in {x, y, z} then 'p' else if 'q' !in {x, y, z} then 'q' else if 'r' !in {x, y, z} then 'r' else 's'
  }

  lemma {:induction false} NothingToReplace(s: string, v: string)
    requires v != "" && !Occurs(v, s)
    ensures ReplaceAll(s, v) == s
    decreases |s|
  {
    if |s| >= |v| {
      assert !OccursAt(v, s, 0);
      assert s == [s[0]] + s[1..];
      if Occurs(v, s[1..]) {
        OccursAfter(v, [s[0]], s[1..]);
      }
      NothingToReplace(s[1..], v);
    }
  }

  /** A run of one byte, between texts too short to hold it, is matched only where it stands. */
  lemma {:induction false} RunReplaced(a: string, c: char, n: nat, b: string)
    requires n > |a| && n > |b| && (a == "" || a[|a| - 1] != c)
    ensures ReplaceAll(a + Run(c, n) + b, Run(c, n)) == a + REDACTED + b
    decreases |a|
  {
    var w := Run(c, n);
    var s := a + w + b;
    if a == "" {
      assert s == w + b && s[n..] == b;
    } else {
      assert w[|a| - 1] == c && s[|a| - 1] == a[|a| - 1];
      assert s[1..] == a[1..] + w + b;
      RunReplaced(a[1..], c, n, b);
      assert [a[0]] + (a[1..] + REDACTED + b) == a + REDACTED + b;
    }
  }

  lemma NotAroundTheRun(v: string, a: string, c: char, b: string)
    requires |v| > |a| && |v| > |b| && c != v[0] && c != v[|v| - 1]
    ensures !Occurs(v, a + Run(c, |v|) + b)
  {
    var n := |v|;
    var s := a + Run(c, n) + b;
    forall i: nat | i + n <= |s| ensures !OccursAt(v, s, i) {
      if i < |a| {
        assert s[i..i + n][n - 1] == s[i + n - 1] == Run(c, n)[i + n - 1 - |a|] == c;
      } else {
        assert s[i..i + n][0] == s[i] == Run(c, n)[i - |a|] == c;
      }
    }
  }

  lemma SurvivesTheCut(v: string, s: string, i: nat)
    requires OccursAt(v, s, i) && i + |v| <= MAX_ERROR_LEN
    ensures Occurs(v, Truncate(s))
  {
    assert Truncate(s)[i..i + |v|] == s[i..i + |v|];
    assert OccursAt(v, Truncate(s), i);
  }

  /** If writing the marker between two short texts completes the value before the cut, a second
      secret leaks it. */
  /** Scrubbing the message of the value and then of `w` leaves the value in it. */
  ghost predicate LeavesIn(v: string, s: string, w: string)
    requires |v| >= MIN_SECRET_LEN
  {
    |w| >= MIN_SECRET_LEN && Ascii(w) && Occurs(v, Truncate(ReplaceEach(s, [v, w])))
  }

  lemma LeaksAround(v: string, a: string, b: string, i: nat) returns (s: string, w: string)
    requires MIN_SECRET_LEN <= |v| && |a| < |v| && |b| < |v|
    requires OccursAt(v, a + REDACTED + b, i) && i + |v| <= MAX_ERROR_LEN
    ensures LeavesIn(v, s, w)
  {
    var c := Unlike(v[0], v[|v| - 1], if a == "" then v[0] else a[|a| - 1]);
    w := Run(c, |v|);
    s := a + w + b;
    var vs := [v, w];
    NotAroundTheRun(v, a, c, b);
    NothingToReplace(s, v);
    RunReplaced(a, c, |v|, b);
    assert vs[..1] == [v] && [v][..0] == [];
    assert ReplaceEach(s, []) == s;
    assert ReplaceEach(s, [v]) == ReplaceAll(s, v);
    assert ReplaceEach(s, vs) == ReplaceAll(s, w) == a + REDACTED + b;
    SurvivesTheCut(v, a + REDACTED + b, i);
  }

  lemma NotBeforeTheCut(v: string, k: nat, pad: string, c: char, x: char)
    requires |v| > 3 && EndsWith(v, ELLIPSIS, k)
    requires c != v[0] && x != ELLIPSIS[0] && forall i :: 0 <= i < |pad| ==> pad[i] == c
    ensures !Occurs(v, pad + v[..|v| - k] + [x])
  {
    var s := pad + v[..|v| - k] + [x];
    forall i: nat | i + |v| <= |s| ensures !OccursAt(v, s, i) {
      if i < |pad| {
        assert s[i..i + |v|][0] == pad[i];
      } else {
        assert i == |pad| && k == 1;
        assert s[i..i + |v|][|v| - 1] == x;
        assert v[|v| - 1..][0] == ELLIPSIS[..1][0];
      }
    }
  }

  lemma TooLongToMatch(s: string, v: string, w: string)
    requires |v| >= MIN_SECRET_LEN && !Occurs(v, s) && |w| >= MIN_SECRET_LEN && |w| > |s|
    ensures ReplaceEach(s, [v, w]) == s
  {
    NothingToReplace(s, v);
    assert [v, w][..1] == [v] && [v][..0] == [];
    assert ReplaceEach(s, []) == s;
    assert ReplaceEach(s, [v]) == ReplaceAll(s, v);
  }

  /** If the ellipsis completes the value, a message cut just there leaks it. */
  lemma LeaksAtTheCut(v: string, k: nat) returns (s: string, w: string)
    requires MIN_SECRET_LEN <= |v| && EndsWith(v, ELLIPSIS, k) && |v| - k <= MAX_ERROR_LEN
    ensures LeavesIn(v, s, w)
  {
    var t := v[..|v| - k];
    var c := Unlike(v[0], v[0], v[0]);
    var pad := Run(c, MAX_ERROR_LEN - |t|);
    s := pad + t + "x";
    w := Run(c, |s| + 1);
    NotBeforeTheCut(v, k, pad, c, 'x');
    TooLongToMatch(s, v, w);
    assert s[..MAX_ERROR_LEN] == pad + t;
    var out := pad + t + ELLIPSIS;
    assert out[|pad|..|pad| + |v|] == t + ELLIPSIS[..k] == v;
    assert OccursAt(v, out, |pad|);
  }

  lemma ContainingLeaks(v: string) returns (s: string, w: string)
    requires MIN_SECRET_LEN <= |v| <= MAX_ERROR_LEN && Occurs(REDACTED, v)
    ensures LeavesIn(v, s, w)
  {
    var i: nat :| OccursAt(REDACTED, v, i);
    var a, b := v[..i], v[i + |REDACTED|..];
    assert v == a + REDACTED + b;
    s, w := LeaksAround(v, a, b, 0);
  }

  lemma StartingLeaks(v: string, k: nat) returns (s: string, w: string)
    requires MIN_SECRET_LEN <= |v| && BeginsWith(v, REDACTED, k) && k + |v| <= MAX_ERROR_LEN
    ensures LeavesIn(v, s, w)
  {
    var b := v[|REDACTED| - k..];
    assert v == REDACTED[k..] + b;
    assert ("" + REDACTED + b)[k..k + |v|] == v;
    s, w := LeaksAround(v, "", b, k);
  }

  lemma EndingLeaks(v: string) returns (s: string, w: string)
    requires MIN_SECRET_LEN <= |v| <= MAX_ERROR_LEN && EndsInMarker(v)
    ensures LeavesIn(v, s, w)
  {
    var k: nat :| EndsWith(v, REDACTED, k);
    var a := v[..|v| - k];
    assert (a + REDACTED + "")[0..|v|] == a + REDACTED[..k] == v;
    s, w := LeaksAround(v, a, "", 0);
  }

  lemma ExposedLeaks(v: string) returns (s: string, w: string)
    requires |v| >= MIN_SECRET_LEN && Exposed(v)
    ensures LeavesIn(v, s, w)
  {
    if |v| <= MAX_ERROR_LEN && Occurs(v, REDACTED) {
      var i: nat :| OccursAt(v, REDACTED, i);
      assert "" + REDACTED + "" == REDACTED;
      s, w := LeaksAround(v, "", "", i);
    } else if |v| <= MAX_ERROR_LEN && Occurs(REDACTED, v) {
      s, w := ContainingLeaks(v);
    } else if |v| <= MAX_ERROR_LEN && EndsInMarker(v) {
      s, w := EndingLeaks(v);
    } else if k: nat :| BeginsWith(v, REDACTED, k) && k + |v| <= MAX_ERROR_LEN {
      s, w := StartingLeaks(v, k);
    } else {
      var k: nat :| EndsWith(v, ELLIPSIS, k) && |v| - k <= MAX_ERROR_LEN;
      s, w := LeaksAtTheCut(v, k);
    }
  }

  /** The secrets of stored configs that can be left in a stored message are exactly the exposed ones,
      at any length. */
  lemma LeaksIffExposed(v: string)
    requires |v| >= 6 && ValidUtf8(v)
    ensures CanLeak(v) <==> Exposed(v)
  {
    if Exposed(v) {
      var s, w := ExposedLeaks(v);
      StoredLeak(v, w, s);
    } else if s, cfg, fields, field :| LeaksFrom(v, s, cfg, fields, field) {
      RedactionIsComplete(s, cfg, fields, field);
    }
  }

  // ---- what is written in its place ---------------------------------------------------------------

  lemma OneInFront(a: string, m: string, rest: string)
    requires a != ""
    ensures [a[0]] + (a[1..] + m + rest) == a + m + rest
  {
  }

  /** The first occurrence of the value gives way to the marker, and what follows it is treated the
      same; a text without the value stays as it is (`NothingToReplace`). */
  lemma {:induction false} FirstGivesWay(a: string, v: string, b: string)
    requires v != "" && forall i: nat :: OccursAt(v, a + v + b, i) ==> i >= |a|
    ensures ReplaceAll(a + v + b, v) == a + "[redacted]" + ReplaceAll(b, v)
    decreases |a|
  {
    var s := a + v + b;
    if a == "" {
      assert s == v + b && s[|v|..] == b;
    } else {
      assert s[1..] == a[1..] + v + b && s[0] == a[0];
      assert NotBefore(v, s, |a|);
      NotAtFront(v, s, |a|);
      NotBeforeTail(v, s, |a|);
      FirstGivesWay(a[1..], v, b);
      OneInFront(a, "[redacted]", ReplaceAll(b, v));
    }
  }

  /** A message of up to 1000 bytes is kept, and a longer one cut there and marked with an ellipsis. */
  lemma CutAtAThousand(s: string)
    ensures |s| <= 1000 ==> Truncate(s) == s
    ensures |s| > 1000 ==>
      |Truncate(s)| == 1003 && Truncate(s)[..1000] == s[..1000] && Truncate(s)[1000..] == ['\U{E2}', '\U{80}', '\U{A6}']
  {
  }

  /** Fields that are missing, no strings or shorter than six bytes hide nothing. */
  lemma {:induction false} NothingEligible(obj: Object, fields: seq<string>)
    requires forall k :: k in fields && k in obj ==> !obj[k].Str? || |obj[k].text| < 6
    ensures SecretsIn(obj, fields) == []
  {
    if fields != [] {
      NothingEligible(obj, fields[..|fields| - 1]);
      assert fields[|fields| - 1] in fields;
    }
  }

  /** What becomes of a message besides: cut where there is nothing to hide, dropped where the config
      that would say so cannot be read. */
  lemma ScrubbedOtherwise(s: string, cfg: Raw, fields: seq<string>)
    ensures fields == [] ==> Scrubbed(s, cfg, fields) == Truncate(s)
    ensures fields != [] && cfg == NotAnObject ==>
      Scrubbed(s, cfg, fields) == "[error redacted: connector config unreadable]"
    ensures cfg.ObjectText? && (forall k :: k in fields && k in cfg.obj ==> !cfg.obj[k].Str? || |cfg.obj[k].text| < 6) ==>
      Scrubbed(s, cfg, fields) == Truncate(s)
  {
    if cfg.ObjectText? && forall k :: k in fields && k in cfg.obj ==> !cfg.obj[k].Str? || |cfg.obj[k].text| < 6 {
      NothingEligible(cfg.obj, fields);
    }
  }

  /** The secrets are taken in the order of their fields. */
  lemma {:induction false} SecretsInOrder(obj: Object, fields: seq<string>, i: nat)
    requires i <= |fields|
    ensures SecretsIn(obj, fields[..i]) <= SecretsIn(obj, fields)
    decreases |fields|
  {
    if i == |fields| {
      assert fields[..i] == fields;
    } else {
      assert fields[..|fields| - 1][..i] == fields[..i];
      SecretsInOrder(obj, fields[..|fields| - 1], i);
    }
  }
}
