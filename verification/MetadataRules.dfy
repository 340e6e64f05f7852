/**
 The rules for metadata fields in the terms of what a form is filled in with
 (backend/internal/metadata/schema.go): which keys and constraints are sensible, and which submitted
 values are taken, as what.
 */
module MetadataRules {
  import opened Metadata
  import opened WhiteSpace
  import opened Wrappers

  // ---- keys, captions and options ---------------------------------------------------------------

  const LETTERS := "abcdefghijklmnopqrstuvwxyz"
  const DIGITS := "0123456789"

  lemma LetterIs(c: char)
    ensures 'a' <= c <= 'z' <==> c in LETTERS
  {
    if 'a' <= c <= 'z' {
      assert LETTERS[c as int - 'a' as int] == c;
    }
  }

  lemma DigitIs(c: char)
    ensures '0' <= c <= '9' <==> c in DIGITS
  {
    if '0' <= c <= '9' {
      assert DIGITS[c as int - '0' as int] == c;
    }
  }

  /** A key is a small letter followed by small letters, digits and underscores, 64 of them at most. */
  lemma KeysAllowed(key: string)
    ensures GoodKey(key) <==>
      && 1 <= |key| <= 64 && key[0] in LETTERS
      && forall i :: 1 <= i < |key| ==> key[i] in LETTERS || key[i] in DIGITS || key[i] == '_'
  {
    if key != "" {
      LetterIs(key[0]);
    }
    forall i | 1 <= i < |key|
      ensures KeyChar(key[i]) <==> key[i] in LETTERS || key[i] in DIGITS || key[i] == '_'
    {
      LetterIs(key[i]);
      DigitIs(key[i]);
    }
  }

  /** Some character is seen. */
  predicate Visible(s: string) {
    exists i :: 0 <= i < |s| && !IsSpace(s[i])
  }

  lemma VisibleIsNotBlank(s: string)
    ensures Visible(s) <==> !Blank(s)
  {
    if c :| c in s && !IsSpace(c) {
      var i :| 0 <= i < |s| && s[i] == c;
    }
  }

  /** There is something to choose from, every choice can be seen, and no two are the same. */
  lemma OptionsAllowed(options: seq<string>)
    ensures GoodOptions(options) <==>
      && |options| >= 1 && (forall i :: 0 <= i < |options| ==> Visible(options[i]))
      && forall i, j :: 0 <= i < j < |options| ==> options[i] != options[j]
  {
    DistinctMeans(options);
    forall i | 0 <= i < |options| ensures Visible(options[i]) <==> !Blank(options[i]) {
      VisibleIsNotBlank(options[i]);
    }
  }

  /** A field needs a key and a caption that can be seen, of 128 characters at most, beside
      constraints that make sense. */
  lemma FieldsAllowed(env: Env, f: FieldDef)
    ensures GoodField(env, f) <==>
      GoodKey(f.key) && Visible(f.caption) && |f.caption| <= 128 && GoodConstraints(env, f)
  {
    VisibleIsNotBlank(f.caption);
  }

  // ---- constraints that make sense are those that can be met ------------------------------------------

  predicate FilledIn(env: Env, f: FieldDef, raw: Value) {
    !IsEmpty(raw) && Coerce(env, f, raw).Ok?
  }

  ghost predicate CanBeFilledIn(env: Env, f: FieldDef) {
    exists raw :: FilledIn(env, f, raw)
  }

  /** Bounds make sense exactly if some number is within them. */
  lemma BoundsMakeSense(env: Env, f: FieldDef)
    requires f.kind.Number? && !f.integer
    ensures GoodConstraints(env, f) <==> exists x: real :: FilledIn(env, f, Num(Finite(x)))
  {
    if GoodConstraints(env, f) {
      var x := if f.min.Some? then f.min.value else if f.max.Some? then f.max.value else 0.0;
      NumberTaken(env, f, Num(Finite(x)), x);
    }
    if x: real :| FilledIn(env, f, Num(Finite(x))) {
      NumberTaken(env, f, Num(Finite(x)), x);
    }
  }

  /** A greatest length makes sense exactly if some text is short enough; a pattern has to compile. */
  lemma LengthMakesSense(env: Env, f: FieldDef)
    requires f.kind.Text?
    ensures f.pattern == "" ==> (GoodConstraints(env, f) <==> CanBeFilledIn(env, f))
    ensures f.pattern != "" ==>
      (GoodConstraints(env, f) <==> env.compiles(f.pattern) && CanBeFilledIn(env, f.(pattern := "")))
  {
    var g := f.(pattern := "");
    assert !IsSpace('x') && Trim("x") == "x";
    TextTaken(env, g, Str("x"));
    if CanBeFilledIn(env, g) {
      var raw :| FilledIn(env, g, raw);
      TextTaken(env, g, raw);
    }
    assert (f.maxLength.Some? ==> f.maxLength.value >= 1) ==> FilledIn(env, g, Str("x"));
    assert f.pattern == "" ==> f == g;
  }

  /** A choice makes sense if every option could be taken; and where many may be taken, one at least. */
  lemma ChoicesMakeSense(env: Env, f: FieldDef)
    requires f.options != []
    ensures f.kind.Select? ==> (GoodConstraints(env, f) <==> GoodOptions(f.options))
    ensures f.kind.Multiselect? ==> (GoodConstraints(env, f) <==> GoodOptions(f.options) && CanBeFilledIn(env, f))
  {
    if f.kind.Multiselect? {
      RoomForOne(env, f);
    }
  }

  lemma RoomForOne(env: Env, f: FieldDef)
    requires f.options != [] && f.kind.Multiselect?
    ensures CanBeFilledIn(env, f) <==> f.maxItems.None? || f.maxItems.value >= 1
  {
    var one := StrList([f.options[0]]);
    if f.maxItems.None? || f.maxItems.value >= 1 {
      ManyTaken(env, f, one, [f.options[0]]);
      OneOnly(f.options[0]);
      assert FilledIn(env, f, one);
    }
    if CanBeFilledIn(env, f) {
      var raw :| FilledIn(env, f, raw);
      CoercedMeets(env, f, raw);
    }
  }

  lemma OneOnly(x: string)
    ensures FirstOnly([x]) == [x]
  {
    assert [x][..0] == [];
  }

  /** A switch needs no constraints, and a kind nobody knows is never good. */
  lemma OtherKinds(env: Env, f: FieldDef)
    ensures f.kind.Boolean? ==> GoodConstraints(env, f)
    ensures f.kind.OtherKind? ==> !GoodConstraints(env, f) && !CanBeFilledIn(env, f)
  {
  }

  // ---- what is taken, as what -------------------------------------------------------------------------

  /** Text is taken without the white space around it, if what is left is short enough and matches. */
  lemma TextTaken(env: Env, f: FieldDef, raw: Value)
    requires f.kind.Text?
    ensures Coerce(env, f, raw).Ok? <==>
      && raw.Str? && (f.maxLength.None? || |Trim(raw.text)| <= f.maxLength.value)
      && (f.pattern == "" || (env.compiles(f.pattern) && env.matches(f.pattern, Trim(raw.text))))
    ensures Coerce(env, f, raw).Ok? ==> Coerce(env, f, raw).value == Str(Trim(raw.text))
  {
  }

  function AsReal(i: int): real {
    i as real
  }

  ghost predicate IsWhole(x: real) {
    exists i: int :: AsReal(i) == x
  }

  lemma WholeIs(x: real)
    ensures Whole(Finite(x)) <==> IsWhole(x)
  {
    if i: int :| AsReal(i) == x {
      assert x.Floor == i;
    }
    if Whole(Finite(x)) {
      assert AsReal(x.Floor) == x;
    }
  }

  /** A finite number is taken as it is, exactly if it is within the bounds, and whole where asked. */
  lemma NumberTaken(env: Env, f: FieldDef, raw: Value, x: real)
    requires f.kind.Number? && ToFloat(env, raw) == Some(Finite(x))
    ensures Coerce(env, f, raw).Ok? <==>
      && (f.min.None? || f.min.value <= x) && (f.max.None? || x <= f.max.value) && (f.integer ==> IsWhole(x))
    ensures Coerce(env, f, raw).Ok? ==> Coerce(env, f, raw).value == Num(Finite(x))
  {
    WholeIs(x);
  }

  /** A number may be submitted as one, or as text that parses to one, white space around it or not. */
  lemma NumbersMayBeText(env: Env, f: FieldDef, raw: Value)
    requires f.kind.Number?
    ensures Coerce(env, f, raw).Ok? ==> raw.Num? || raw.NumText? || raw.Str?
    ensures raw.Num? && Coerce(env, f, raw).Ok? ==> Coerce(env, f, raw).value == raw
    ensures raw.NumText? ==> (Coerce(env, f, raw).Ok? <==>
      env.parse(raw.digits).Some? && Coerce(env, f, Num(env.parse(raw.digits).value)).Ok?)
    ensures raw.Str? ==> (Coerce(env, f, raw).Ok? <==>
      env.parse(Trim(raw.text)).Some? && Coerce(env, f, Num(env.parse(Trim(raw.text)).value)).Ok?)
  {
  }

  /** One of the options is taken, letter for letter. */
  lemma ChoiceTaken(env: Env, f: FieldDef, raw: Value)
    requires f.kind.Select?
    ensures Coerce(env, f, raw).Ok? <==> raw.Str? && raw.text in f.options
    ensures Coerce(env, f, raw).Ok? ==> Coerce(env, f, raw).value == raw
  {
  }

  /** The submitted value is this list of texts. */
  predicate ListOf(raw: Value, texts: seq<string>) {
    || raw == StrList(texts)
    || (raw.List? && |raw.items| == |texts| && forall i :: 0 <= i < |texts| ==> raw.items[i] == Str(texts[i]))
  }

  lemma {:induction false} TextsAre(items: seq<Value>)
    ensures AllTexts(items).Some? <==> forall i :: 0 <= i < |items| ==> items[i].Str?
    ensures AllTexts(items).Some? ==>
      && |AllTexts(items).value| == |items|
      && forall i :: 0 <= i < |items| ==> items[i] == Str(AllTexts(items).value[i])
  {
    if items != [] {
      var init := items[..|items| - 1];
      TextsAre(init);
      assert forall i :: 0 <= i < |init| ==> init[i] == items[i];
    }
  }

  lemma ListIs(raw: Value, texts: seq<string>)
    ensures ListOf(raw, texts) <==> ToTexts(raw) == Some(texts)
  {
    if raw.List? {
      TextsAre(raw.items);
      if AllTexts(raw.items).Some? && ListOf(raw, texts) {
        assert AllTexts(raw.items).value == texts;
      }
    }
  }

  /** A list is taken if it holds options only and no more of them than allowed, each counted once; it
      is taken without repetitions. */
  lemma ManyTaken(env: Env, f: FieldDef, raw: Value, texts: seq<string>)
    requires f.kind.Multiselect? && ListOf(raw, texts)
    ensures Coerce(env, f, raw).Ok? <==>
      && (forall i :: 0 <= i < |texts| ==> texts[i] in f.options)
      && (f.maxItems.None? || |FirstOnly(texts)| <= f.maxItems.value)
    ensures Coerce(env, f, raw).Ok? ==> Coerce(env, f, raw).value == StrList(FirstOnly(texts))
  {
    ListIs(raw, texts);
  }

  lemma OnlyListsTaken(env: Env, f: FieldDef, raw: Value)
    requires f.kind.Multiselect? && Coerce(env, f, raw).Ok?
    ensures exists texts :: ListOf(raw, texts)
  {
    ListIs(raw, ToTexts(raw).value);
  }

  /** Repetitions go, the first of each stays where it is among the others. */
  lemma {:induction false} FirstOnesStay(texts: seq<string>, i: nat)
    requires i < |texts|
    ensures texts[i] !in texts[..i] ==>
      var before := FirstOnly(texts[..i]);
      before + [texts[i]] <= FirstOnly(texts)
    ensures |FirstOnly(texts)| <= |texts|
    decreases |texts|
  {
    FewerOnes(texts);
    if i == |texts| - 1 {
      assert texts[..i] == texts[..|texts| - 1];
    } else {
      var init := texts[..|texts| - 1];
      assert init[..i] == texts[..i];
      FirstOnesStay(init, i);
    }
  }

  lemma {:induction false} FewerOnes(texts: seq<string>)
    ensures |FirstOnly(texts)| <= |texts|
  {
    if texts != [] {
      FewerOnes(texts[..|texts| - 1]);
    }
  }

  /** Letter for letter, capitals or not. */
  predicate Reads(s: string, word: string) {
    |s| == |word| && forall i :: 0 <= i < |s| ==> s[i] == word[i] || (s[i] in CAPITALS && s[i] as int + 32 == word[i] as int)
  }

  const CAPITALS := "ABCDEFGHIJKLMNOPQRSTUVWXYZ"

  predicate Small(word: string) {
    forall i :: 0 <= i < |word| ==> word[i] in LETTERS
  }

  lemma CapitalIs(c: char)
    ensures 'A' <= c <= 'Z' <==> c in CAPITALS
  {
    if 'A' <= c <= 'Z' {
      assert CAPITALS[c as int - 'A' as int] == c;
    }
  }

  lemma {:induction false} LowerReads(s: string, word: string)
    requires Small(word)
    ensures LowerAscii(s) == word <==> Reads(s, word)
    decreases |s|
  {
    if s == "" || word == "" {
      assert s != "" ==> |LowerAscii(s)| >= 1;
    } else {
      LowerReads(s[1..], word[1..]);
      CapitalIs(s[0]);
      LetterIs(word[0]);
      assert word[0] in LETTERS;
      FirstAndRest(s, word);
      var c := LowerAscii(s)[0];
      assert LowerAscii(s) == [c] + LowerAscii(s[1..]) && word == [word[0]] + word[1..];
      assert c == word[0] <==> s[0] == word[0] || (s[0] in CAPITALS && s[0] as int + 32 == word[0] as int);
      assert LowerAscii(s) == word <==> c == word[0] && LowerAscii(s[1..]) == word[1..];
    }
  }

  lemma FirstAndRest(s: string, word: string)
    requires s != "" && word != ""
    ensures Reads(s, word) <==>
      Reads(s[1..], word[1..]) && (s[0] == word[0] || (s[0] in CAPITALS && s[0] as int + 32 == word[0] as int))
  {
    if Reads(s[1..], word[1..]) && (s[0] == word[0] || (s[0] in CAPITALS && s[0] as int + 32 == word[0] as int)) {
      forall i | 0 <= i < |s|
        ensures s[i] == word[i] || (s[i] in CAPITALS && s[i] as int + 32 == word[i] as int)
      {
        if i > 0 {
          assert s[i] == s[1..][i - 1] && word[i] == word[1..][i - 1];
        }
      }
    }
  }

  /** A switch is taken as it is, or as the word for it, in capitals or not. */
  lemma SwitchTaken(env: Env, f: FieldDef, raw: Value)
    requires f.kind.Boolean?
    ensures raw.Bool? ==> Coerce(env, f, raw) == Ok(raw)
    ensures raw.Str? && Reads(Trim(raw.text), "true") ==> Coerce(env, f, raw) == Ok(Bool(true))
    ensures raw.Str? && Reads(Trim(raw.text), "false") ==> Coerce(env, f, raw) == Ok(Bool(false))
    ensures Coerce(env, f, raw).Ok? ==>
      raw.Bool? || (raw.Str? && (Reads(Trim(raw.text), "true") || Reads(Trim(raw.text), "false")))
  {
    if raw.Str? {
      SmallWords();
      LowerReads(Trim(raw.text), "true");
      LowerReads(Trim(raw.text), "false");
    }
  }

  lemma SmallWords()
    ensures Small("true") && Small("false")
  {
    LetterIs('t');
    LetterIs('r');
    LetterIs('u');
    LetterIs('e');
    LetterIs('f');
    LetterIs('a');
    LetterIs('l');
    LetterIs('s');
  }

  /** Nothing, nothing but white space and an empty list count as not submitted; anything else does. */
  lemma EmptyIs(raw: Value)
    ensures IsEmpty(raw) <==>
      raw == Nil || (raw.Str? && !Visible(raw.text)) || raw == List([]) || raw == StrList([])
  {
    if raw.Str? {
      TrimTwice(raw.text);
      VisibleIsNotBlank(raw.text);
    }
  }

  /** What is required is refused if it is missing, and what is not is left out. */
  lemma MissingFields(env: Env, f: FieldDef, values: Values)
    requires f.key !in values && values == map[]
    ensures f.required ==> Validated(env, [f], values) == Err(Required(f.key))
    ensures !f.required ==> Validated(env, [f], values) == Ok(map[])
  {
    assert [f][..0] == [];
    assert CoerceAll(Coercer(env), [], values) == Ok(map[]);
  }
}
