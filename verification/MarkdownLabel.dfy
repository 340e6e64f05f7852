/**
 A torrent's name as the label of a Markdown link (backend/internal/connector/announcement.go,
 MarkdownLink and escapeMarkdownLabel). Characters are Unicode scalar values and lengths are
 counted in UTF-8 bytes. The reader's side is backslash escapes as section 2.4 of the CommonMark
 specification defines them.
 */
module MarkdownLabel {
  import opened WhiteSpace

  const MAX_LABEL_BYTES := 200
  const ELLIPSIS := ['\U{2026}']
  const BUDGET := 197

  function CharBytes(c: char): nat {
    var code := c as int;
    if code < 0x80 then 1 else if code < 0x800 then 2 else if code < 0x10000 then 3 else 4
  }

  function Bytes(s: string): nat {
    if s == "" then 0 else Bytes(s[..|s| - 1]) + CharBytes(s[|s| - 1])
  }

  predicate Special(c: char) {
    c in {'\\', '[', ']', '(', ')', '*', '_', '~', '`', '<', '>', '&', '!'}
  }

  function Escape(c: char): string {
    if Special(c) then ['\\', c] else [c]
  }

  function EscapeAll(text: string): string {
    if text == "" then "" else EscapeAll(text[..|text| - 1]) + Escape(text[|text| - 1])
  }

  /** How many characters are taken before the first whose escaped form goes over the budget. */
  function Fits(text: string): (k: nat)
    ensures k <= |text|
  {
    if text == "" then 0
    else
      var k := Fits(text[..|text| - 1]);
      if k == |text| - 1 && Bytes(EscapeAll(text)) <= BUDGET then |text| else k
  }

  function Label(text: string): string {
    EscapeAll(text[..Fits(text)]) + if Fits(text) == |text| then "" else ELLIPSIS
  }

  lemma {:induction false} BytesAppend(a: string, b: string)
    ensures Bytes(a + b) == Bytes(a) + Bytes(b)
  {
    if b == "" {
      assert a + b == a;
    } else {
      BytesAppend(a, b[..|b| - 1]);
      assert (a + b)[..|a + b| - 1] == a + b[..|b| - 1];
    }
  }

  lemma EscapeOneMore(text: string, i: nat)
    requires i < |text|
    ensures EscapeAll(text[..i + 1]) == EscapeAll(text[..i]) + Escape(text[i])
    ensures Bytes(EscapeAll(text[..i + 1])) == Bytes(EscapeAll(text[..i])) + Bytes(Escape(text[i]))
  {
    assert text[..i + 1][..i] == text[..i];
    BytesAppend(EscapeAll(text[..i]), Escape(text[i]));
  }

  lemma SamePrefix(text: string, k: nat)
    requires k < |text|
    ensures text[..|text| - 1][..k] == text[..k]
  {
  }

  lemma Whole(text: string)
    ensures text[..|text|] == text
  {
  }

  ghost predicate IsTheMost(text: string, k: nat) {
    && k <= |text| && Bytes(EscapeAll(text[..k])) <= BUDGET
    && (k < |text| ==> Bytes(EscapeAll(text[..k + 1])) > BUDGET)
  }

  lemma OneMoreToTake(text: string, k: nat)
    requires text != "" && IsTheMost(text[..|text| - 1], k)
    ensures IsTheMost(text, if k == |text| - 1 && Bytes(EscapeAll(text)) <= BUDGET then |text| else k)
  {
    SamePrefix(text, k);
    if k < |text| - 1 {
      SamePrefix(text, k + 1);
    } else {
      Whole(text);
    }
  }

  /** What is taken fits, and one character more would not. */
  lemma {:induction false} FitsIsTheMost(text: string)
    ensures IsTheMost(text, Fits(text))
  {
    if text != "" {
      FitsIsTheMost(text[..|text| - 1]);
      OneMoreToTake(text, Fits(text[..|text| - 1]));
    } else {
      assert ""[..0] == "";
    }
  }

  lemma {:induction false} LongerIsNoLighter(text: string, i: nat, j: nat)
    requires i <= j <= |text|
    ensures Bytes(EscapeAll(text[..i])) <= Bytes(EscapeAll(text[..j]))
    decreases j
  {
    if i < j {
      LongerIsNoLighter(text, i, j - 1);
      EscapeOneMore(text, j - 1);
    }
  }

  lemma FitsIs(text: string, k: nat)
    requires k <= |text| && Bytes(EscapeAll(text[..k])) <= BUDGET
    requires k < |text| ==> Bytes(EscapeAll(text[..k + 1])) > BUDGET
    ensures Fits(text) == k
  {
    FitsIsTheMost(text);
    if Fits(text) < k {
      LongerIsNoLighter(text, Fits(text) + 1, k);
    } else if k < Fits(text) {
      LongerIsNoLighter(text, k + 1, Fits(text));
    }
  }

  /** escapeMarkdownLabel, with the builder it writes into. */
  method EscapeLabel(text: string) returns (b: string)
    ensures b == Label(text)
  {
    b := "";
    for i := 0 to |text|
      invariant b == EscapeAll(text[..i]) && Bytes(b) <= BUDGET
    {
      var piece := Escape(text[i]);
      EscapeOneMore(text, i);
      if Bytes(b) + Bytes(piece) > BUDGET {
        FitsIs(text, i);
        b := b + ELLIPSIS;
        return;
      }
      b := b + piece;
    }
    FitsIs(text, |text|);
    assert text[..|text|] == text && b + "" == b;
  }

  // ---- reading it back -----------------------------------------------------------------------

  predicate AsciiPunctuation(c: char) {
    '!' <= c <= '/' || ':' <= c <= '@' || '[' <= c <= '`' || '{' <= c <= '~'
  }

  predicate StartsEscape(s: string) {
    |s| > 1 && s[0] == '\\' && AsciiPunctuation(s[1])
  }

  function Unescape(s: string): string {
    if s == "" then ""
    else if StartsEscape(s) then [s[1]] + Unescape(s[2..])
    else [s[0]] + Unescape(s[1..])
  }

  /** Where the first c stands that no backslash escapes; the end if there is none. */
  function FirstBare(s: string, c: char): (k: nat)
    ensures k <= |s|
  {
    if s == "" then 0
    else if StartsEscape(s) then 2 + FirstBare(s[2..], c)
    else if s[0] == c then 0
    else 1 + FirstBare(s[1..], c)
  }

  /** The text breaks off after a backslash that escapes nothing yet. */
  predicate EndsMidEscape(s: string) {
    s != "" && if StartsEscape(s) then EndsMidEscape(s[2..]) else s == "\\" || EndsMidEscape(s[1..])
  }

  /** The reading functions pass over an escaped character as one. */
  lemma PastOne(c: char, rest: string, bare: char)
    requires Special(bare)
    ensures Unescape(Escape(c) + rest) == [c] + Unescape(rest)
    ensures FirstBare(Escape(c) + rest, bare) == |Escape(c)| + FirstBare(rest, bare)
    ensures EndsMidEscape(Escape(c) + rest) == EndsMidEscape(rest)
  {
    var s := Escape(c) + rest;
    if Special(c) {
      assert s[2..] == rest;
    } else {
      assert s[1..] == rest;
    }
  }

  lemma {:induction false} PastEscaped(text: string, rest: string, bare: char)
    requires Special(bare)
    ensures Unescape(EscapeAll(text) + rest) == text + Unescape(rest)
    ensures FirstBare(EscapeAll(text) + rest, bare) == |EscapeAll(text)| + FirstBare(rest, bare)
    ensures EndsMidEscape(EscapeAll(text) + rest) == EndsMidEscape(rest)
    decreases |text|
  {
    if text == "" {
      assert EscapeAll(text) + rest == rest;
    } else {
      var init, c := text[..|text| - 1], text[|text| - 1];
      assert EscapeAll(text) + rest == EscapeAll(init) + (Escape(c) + rest);
      PastEscaped(init, Escape(c) + rest, bare);
      PastOne(c, rest, bare);
      assert text + Unescape(rest) == init + ([c] + Unescape(rest));
    }
  }

  lemma EllipsisReads(bare: char)
    requires Special(bare)
    ensures Unescape(ELLIPSIS) == ELLIPSIS && Unescape("") == ""
    ensures FirstBare(ELLIPSIS, bare) == 1 && !EndsMidEscape(ELLIPSIS)
    ensures Bytes(ELLIPSIS) == 3
  {
    assert ELLIPSIS[1..] == "" && ELLIPSIS[..0] == "";
  }

  /** For every text the label keeps within its bytes, leaves no special character unescaped and
      does not break off mid-escape; read back it is the whole text, or as much of it as fits with
      the ellipsis after it. */
  lemma LabelReadsBack(text: string)
    ensures Bytes(Label(text)) <= MAX_LABEL_BYTES && !EndsMidEscape(Label(text))
    ensures forall c :: Special(c) ==> FirstBare(Label(text), c) == |Label(text)|
    ensures Bytes(EscapeAll(text)) <= BUDGET ==> Unescape(Label(text)) == text
    ensures Bytes(EscapeAll(text)) > BUDGET ==>
      var k := Fits(text);
      && k < |text| && Unescape(Label(text)) == text[..k] + ELLIPSIS
      && Bytes(EscapeAll(text[..k])) <= BUDGET < Bytes(EscapeAll(text[..k + 1]))
  {
    var k := Fits(text);
    var tail := if k == |text| then "" else ELLIPSIS;
    FitsIsTheMost(text);
    assert text[..|text|] == text;
    BytesAppend(EscapeAll(text[..k]), tail);
    forall c | Special(c) ensures FirstBare(Label(text), c) == |Label(text)| {
      PastEscaped(text[..k], tail, c);
      EllipsisReads(c);
    }
    PastEscaped(text[..k], tail, '!');
    EllipsisReads('!');
    if k < |text| {
      LongerIsNoLighter(text, k + 1, |text|);
    }
    assert text + "" == text;
  }

  /** The whole text comes back exactly when its escaped form fits, or when it ends in an ellipsis
      of its own and only that did not. */
  lemma WholeTextComesBack(text: string)
    ensures Unescape(Label(text)) == text <==>
      || Bytes(EscapeAll(text)) <= BUDGET
      || (text != "" && text[|text| - 1..] == ELLIPSIS && Bytes(EscapeAll(text[..|text| - 1])) <= BUDGET)
  {
    LabelReadsBack(text);
    if Bytes(EscapeAll(text)) > BUDGET {
      NotEmpty(text);
      if Bytes(EscapeAll(text[..|text| - 1])) <= BUDGET {
        LastOneCut(text);
        EndsWith(text, ELLIPSIS);
      } else {
        CutEarlier(text);
      }
    }
  }

  lemma NotEmpty(text: string)
    requires Bytes(EscapeAll(text)) > 0
    ensures text != ""
  {
  }

  lemma SameEnd(a: string, b: string, c: string)
    ensures a + b == a + c <==> b == c
  {
    assert (a + b)[|a|..] == b && (a + c)[|a|..] == c;
  }

  lemma EndsWith(s: string, tail: string)
    requires s != ""
    ensures s[..|s| - 1] + tail == s <==> s[|s| - 1..] == tail
  {
    assert s == s[..|s| - 1] + s[|s| - 1..];
    SameEnd(s[..|s| - 1], tail, s[|s| - 1..]);
  }

  lemma LastOneCut(text: string)
    requires text != "" && Bytes(EscapeAll(text)) > BUDGET && Bytes(EscapeAll(text[..|text| - 1])) <= BUDGET
    ensures Fits(text) == |text| - 1
  {
    var k := |text| - 1;
    assert text[..k + 1] == text;
    FitsIs(text, k);
  }

  lemma CutEarlier(text: string)
    requires text != "" && Bytes(EscapeAll(text[..|text| - 1])) > BUDGET
    ensures |text[..Fits(text)] + ELLIPSIS| < |text|
  {
    FitsIsTheMost(text);
    assert text[..|text|] == text;
    if Fits(text) >= |text| - 1 {
      LongerIsNoLighter(text, |text| - 1, Fits(text));
    }
  }

  // ---- the link ----------------------------------------------------------------------------------

  /** The words between white space, and the word being read. */
  function Fields(text: string): seq<string> {
    Words(text, "")
  }

  function Words(text: string, word: string): seq<string>
    decreases |text|
  {
    var done := if word == "" then [] else [word];
    if text == "" then done
    else if IsSpace(text[0]) then done + Words(text[1..], "")
    else Words(text[1..], word + [text[0]])
  }

  function Join(words: seq<string>): string {
    if words == [] then "" else if |words| == 1 then words[0] else words[0] + " " + Join(words[1..])
  }

  function Collapsed(text: string): string {
    Join(Fields(text))
  }

  predicate IsWord(w: string) {
    w != "" && forall c :: c in w ==> !IsSpace(c)
  }

  lemma {:induction false} WordsAreWords(text: string, word: string)
    requires word == "" || IsWord(word)
    ensures forall w :: w in Words(text, word) ==> IsWord(w)
    decreases |text|
  {
    if text != "" {
      if IsSpace(text[0]) {
        WordsAreWords(text[1..], "");
      } else {
        WordsAreWords(text[1..], word + [text[0]]);
      }
    }
  }

  function Solid(s: string): string {
    if s == "" then "" else (if IsSpace(s[0]) then "" else [s[0]]) + Solid(s[1..])
  }

  lemma {:induction false} SolidAppend(a: string, b: string)
    ensures Solid(a + b) == Solid(a) + Solid(b)
  {
    if a == "" {
      assert a + b == b;
    } else {
      assert (a + b)[1..] == a[1..] + b;
      SolidAppend(a[1..], b);
    }
  }

  lemma {:induction false} JoinHead(w: string, rest: seq<string>)
    ensures Solid(Join([w] + rest)) == Solid(w) + Solid(Join(rest))
  {
    assert ([w] + rest)[1..] == rest;
    if rest != [] {
      SolidAppend(w + " ", Join(rest));
      SolidAppend(w, " ");
      assert " "[1..] == "";
      assert Solid(" ") == "";
    }
  }

  lemma DoneThen(word: string, rest: seq<string>)
    ensures Solid(Join((if word == "" then [] else [word]) + rest)) == Solid(word) + Solid(Join(rest))
  {
    if word == "" {
      assert [] + rest == rest;
    } else {
      JoinHead(word, rest);
    }
  }

  lemma {:induction false} NothingSolidLost(text: string, word: string)
    ensures Solid(Join(Words(text, word))) == Solid(word + text)
    decreases |text|
  {
    if text == "" {
      assert word + text == word;
    } else if IsSpace(text[0]) {
      NothingSolidLost(text[1..], "");
      assert "" + text[1..] == text[1..];
      SolidAppend(word, text);
      DoneThen(word, Words(text[1..], ""));
    } else {
      NothingSolidLost(text[1..], word + [text[0]]);
      assert word + [text[0]] + text[1..] == word + text;
    }
  }

  /** White space is only ever one blank between words, so the link stays on one line. */
  predicate Tidy(s: string) {
    && (forall i :: 0 <= i < |s| && IsSpace(s[i]) ==> s[i] == ' ' && 0 < i < |s| - 1)
    && (forall i :: 0 < i < |s| && IsSpace(s[i]) ==> !IsSpace(s[i - 1]))
  }

  lemma {:induction false} JoinTidy(words: seq<string>)
    requires forall w :: w in words ==> IsWord(w)
    ensures Tidy(Join(words)) && (words != [] ==> Join(words) != "" && !IsSpace(Join(words)[0]))
  {
    if |words| == 1 {
      assert words[0] in words;
    } else if |words| > 1 {
      var w, rest := words[0], Join(words[1..]);
      assert w in words;
      JoinTidy(words[1..]);
      var s := w + " " + rest;
      forall i | 0 <= i < |s| ensures s[i] == if i < |w| then w[i] else if i == |w| then ' ' else rest[i - |w| - 1] {
      }
      forall i | 0 <= i < |w| ensures !IsSpace(s[i]) {
        assert w[i] in w;
      }
    }
  }

  /** Collapsing touches nothing but white space. */
  lemma CollapsedIsTidy(text: string)
    ensures Tidy(Collapsed(text)) && Solid(Collapsed(text)) == Solid(text)
  {
    WordsAreWords(text, "");
    JoinTidy(Fields(text));
    NothingSolidLost(text, "");
    assert "" + text == text;
  }

  function EscapeUrlChar(c: char): string {
    if c == '(' then "%28" else if c == ')' then "%29" else if c == ' ' then "%20" else [c]
  }

  function EscapeUrl(url: string): string {
    if url == "" then "" else EscapeUrl(url[..|url| - 1]) + EscapeUrlChar(url[|url| - 1])
  }

  function MarkdownLink(text: string, url: string): string {
    var shown := Label(Collapsed(text));
    if Blank(url) then shown else "[" + shown + "](" + EscapeUrl(url) + ")"
  }

  lemma {:induction false} EscapedUrlIsOneToken(url: string)
    ensures forall c :: c in EscapeUrl(url) ==> c != '(' && c != ')' && c != ' '
  {
    if url != "" {
      EscapedUrlIsOneToken(url[..|url| - 1]);
    }
  }

  function TrailingBackslashes(s: string): nat {
    if s != "" && s[|s| - 1] == '\\' then 1 + TrailingBackslashes(s[..|s| - 1]) else 0
  }

  lemma BareAtOnce(s: string, c: char)
    requires s != "" && s[0] == c && c != '\\'
    ensures FirstBare(s, c) == 0
  {
  }

  lemma Parts(a: string, b: string)
    ensures var s, rest := "[" + a + "](" + b + ")", "](" + b + ")";
      |s| == 1 + |a| + |rest| && s[0] == '[' && s[1..] == a + rest && s[1 + |a|..] == rest
  {
  }

  lemma LinkParts(text: string, url: string)
    requires !Blank(url)
    ensures var link, shown, rest := MarkdownLink(text, url), Label(Collapsed(text)), "](" + EscapeUrl(url) + ")";
      |link| == 1 + |shown| + |rest| && link[0] == '[' && link[1..] == shown + rest && link[1 + |shown|..] == rest
  {
    Parts(Label(Collapsed(text)), EscapeUrl(url));
  }

  /** The label ends at the bracket the link writes after it, whatever the text; the destination
      has no parenthesis or blank of its own. */
  lemma LinkHoldsTogether(text: string, url: string)
    requires !Blank(url)
    ensures var link, shown := MarkdownLink(text, url), Label(Collapsed(text));
      && link[0] == '[' && FirstBare(link[1..], ']') == |shown| && link[1 + |shown|..] == "](" + EscapeUrl(url) + ")"
      && FirstBare(link[1..], '[') >= |shown|
    ensures forall c :: c in EscapeUrl(url) ==> c != '(' && c != ')' && c != ' '
  {
    var shown := Label(Collapsed(text));
    var rest := "](" + EscapeUrl(url) + ")";
    EscapedUrlIsOneToken(url);
    LinkParts(text, url);
    PastLabel(Collapsed(text), rest, ']');
    PastLabel(Collapsed(text), rest, '[');
    BareAtOnce(rest, ']');
  }

  lemma PastLabel(text: string, rest: string, c: char)
    requires Special(c)
    ensures FirstBare(Label(text) + rest, c) == |Label(text)| + FirstBare(rest, c)
  {
    var taken := text[..Fits(text)];
    if Fits(text) == |text| {
      PastEscaped(taken, rest, c);
      assert Label(text) + rest == EscapeAll(taken) + rest;
    } else {
      PastEscaped(taken, ELLIPSIS + rest, c);
      assert Label(text) + rest == EscapeAll(taken) + (ELLIPSIS + rest);
      assert (ELLIPSIS + rest)[1..] == rest;
    }
  }

  lemma {:induction false} UrlKeepsBackslashes(url: string)
    ensures TrailingBackslashes(EscapeUrl(url)) == TrailingBackslashes(url)
  {
    if url != "" {
      var init, last := url[..|url| - 1], url[|url| - 1];
      UrlKeepsBackslashes(init);
      if last == '\\' {
        assert EscapeUrl(url)[..|EscapeUrl(url)| - 1] == EscapeUrl(init);
      }
    }
  }

  lemma {:induction false} TrailingFromTheLeft(c: char, s: string)
    ensures TrailingBackslashes(s) <= |s|
    ensures TrailingBackslashes([c] + s) ==
      if TrailingBackslashes(s) == |s| && c == '\\' then |s| + 1 else TrailingBackslashes(s)
    decreases |s|
  {
    var all := [c] + s;
    if s == "" {
      assert all[..0] == "";
    } else {
      TrailingFromTheLeft(c, s[..|s| - 1]);
      assert all[..|all| - 1] == [c] + s[..|s| - 1];
    }
  }

  lemma NotAllBackslashes(s: string)
    requires s != "" && s[0] != '\\'
    ensures TrailingBackslashes(s) < |s|
  {
    assert s == [s[0]] + s[1..];
    TrailingFromTheLeft(s[0], s[1..]);
  }

  /** Escapes pair backslashes off from the left; one is left over exactly when the run at the end
      is odd. */
  lemma {:induction false} OddRunIsLeftOver(s: string)
    ensures EndsMidEscape(s) <==> TrailingBackslashes(s) % 2 == 1
    decreases |s|
  {
    if s != "" {
      var rest := s[1..];
      assert s == [s[0]] + rest;
      TrailingFromTheLeft(s[0], rest);
      if StartsEscape(s) {
        assert rest == [rest[0]] + s[2..];
        TrailingFromTheLeft(rest[0], s[2..]);
        OddRunIsLeftOver(s[2..]);
      } else {
        OddRunIsLeftOver(rest);
        if rest != "" && s[0] == '\\' {
          NotAllBackslashes(rest);
        }
      }
    }
  }

  lemma {:induction false} ClosedAfter(s: string)
    requires ')' !in s
    ensures FirstBare(s + ")", ')') == |s| <==> !EndsMidEscape(s)
    decreases |s|
  {
    var all := s + ")";
    if s == "\\" {
      assert all[2..] == "";
    } else if s != "" {
      if StartsEscape(s) {
        assert all[2..] == s[2..] + ")";
        ClosedAfter(s[2..]);
      } else {
        assert all[1..] == s[1..] + ")";
        ClosedAfter(s[1..]);
      }
    }
  }

  /** The first parenthesis no backslash escapes is the one written after the destination exactly
      when the URL does not end in an odd run of backslashes, which the code leaves as they are. */
  lemma LinkClosesIff(text: string, url: string)
    requires !Blank(url)
    ensures var link, start := MarkdownLink(text, url), 3 + |Label(Collapsed(text))|;
      && start < |link| && link[start..] == EscapeUrl(url) + ")"
      && (FirstBare(link[start..], ')') == |link| - start - 1 <==> TrailingBackslashes(url) % 2 == 0)
  {
    var link, shown := MarkdownLink(text, url), Label(Collapsed(text));
    assert link == ("[" + shown + "](") + (EscapeUrl(url) + ")");
    EscapedUrlIsOneToken(url);
    ClosedAfter(EscapeUrl(url));
    OddRunIsLeftOver(EscapeUrl(url));
    UrlKeepsBackslashes(url);
  }

  predicate Control(c: char) {
    c < ' ' || c == '\U{7F}'
  }

  /** A destination without angle brackets around it (CommonMark, section 6.3): not empty, not
      beginning with one, without control characters, blanks and parentheses. */
  predicate PlainDestination(d: string) {
    d != "" && d[0] != '<' && forall c :: c in d ==> !Control(c) && c != ' ' && c != '(' && c != ')'
  }

  lemma {:induction false} EscapeKeepsControls(url: string)
    ensures (exists c :: c in EscapeUrl(url) && Control(c)) <==> (exists c :: c in url && Control(c))
  {
    if url != "" {
      var init, last := url[..|url| - 1], url[|url| - 1];
      EscapeKeepsControls(init);
      assert url == init + [last];
      forall c | c in EscapeUrlChar(last) && Control(c) ensures c == last {
      }
      assert Control(last) ==> EscapeUrlChar(last) == [last] && last in EscapeUrl(url);
    }
  }

  lemma {:induction false} EscapeKeepsFirst(url: string)
    requires url != ""
    ensures EscapeUrl(url) != "" && (EscapeUrl(url)[0] == '<' <==> url[0] == '<')
  {
    if |url| > 1 {
      EscapeKeepsFirst(url[..|url| - 1]);
    } else {
      assert EscapeUrl(url[..0]) == "";
      assert EscapeUrl(url) == EscapeUrlChar(url[0]);
    }
  }

  /** All that is written between the parentheses is read as the destination, and the link ends after
      it, exactly when the URL neither begins with an angle bracket nor holds a control character, such
      as a tab or a line feed, nor ends in an odd run of backslashes. */
  lemma LinkReadsIff(text: string, url: string)
    requires !Blank(url)
    ensures var link, start := MarkdownLink(text, url), 3 + |Label(Collapsed(text))|;
      && start < |link| && link[start..] == EscapeUrl(url) + ")"
      && (PlainDestination(EscapeUrl(url)) && FirstBare(link[start..], ')') == |EscapeUrl(url)| <==>
          url[0] != '<' && (forall c :: c in url ==> !Control(c)) && TrailingBackslashes(url) % 2 == 0)
  {
    LinkClosesIff(text, url);
    EscapedUrlIsOneToken(url);
    EscapeKeepsControls(url);
    EscapeKeepsFirst(url);
  }
}
