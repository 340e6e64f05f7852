/**
 The characters and bytes link labels are made of (backend/internal/connector/announcement.go), spelled
 out: how long a character is in UTF-8, which characters Markdown reads as markup, and which of them a
 label leaves without an escape, which is none.
 */
module LabelRules {
  import opened MarkdownLabel
  import opened WhiteSpace

  // ---- bytes --------------------------------------------------------------------------------------

  /** UTF-8 (RFC 3629, section 3). */
  function Encoded(code: nat): seq<nat> {
    var high := code / 64;
    if code <= 0x7F then [code]
    else if code <= 0x7FF then [0xC0 + high, 0x80 + code % 64]
    else if code <= 0xFFFF then [0xE0 + high / 64, 0x80 + high % 64, 0x80 + code % 64]
    else [0xF0 + high / 64 / 64, 0x80 + high / 64 % 64, 0x80 + high % 64, 0x80 + code % 64]
  }

  /** The code point, from the bits of a first byte and those that follow. */
  function Joined(first: int, rest: seq<nat>): int {
    if rest == [] then first else Joined(first, rest[..|rest| - 1]) * 64 + rest[|rest| - 1] - 0x80
  }

  lemma SixBits(code: nat)
    ensures code == code / 64 * 64 + code % 64 && 0 <= code % 64 <= 63
  {
  }

  /** The first byte tells how many follow, the others cannot be taken for a first one, and together
      they give the character back. */
  lemma EncodingReadsBack(code: nat)
    requires code <= 0x10FFFF
    ensures var e := Encoded(code);
      && (|e| == 1 ==> e[0] <= 0x7F && code == e[0])
      && (|e| == 2 ==> 0xC0 <= e[0] <= 0xDF && code == Joined(e[0] - 0xC0, e[1..]))
      && (|e| == 3 ==> 0xE0 <= e[0] <= 0xEF && code == Joined(e[0] - 0xE0, e[1..]))
      && (|e| == 4 ==> 0xF0 <= e[0] <= 0xF4 && code == Joined(e[0] - 0xF0, e[1..]))
      && 1 <= |e| <= 4 && forall i :: 1 <= i < |e| ==> 0x80 <= e[i] <= 0xBF
  {
    var e, high := Encoded(code), code / 64;
    SixBits(code);
    SixBits(high);
    SixBits(high / 64);
    if |e| == 2 {
      JoinOne(e[0] - 0xC0, e[1]);
      assert e[1..] == [e[1]];
    } else if |e| == 3 {
      JoinTwo(e[0] - 0xE0, e[1], e[2]);
      assert e[1..] == [e[1], e[2]];
    } else if |e| == 4 {
      JoinThree(e[0] - 0xF0, e[1], e[2], e[3]);
      assert e[1..] == [e[1], e[2], e[3]];
    }
  }

  lemma JoinOne(first: int, a: nat)
    ensures Joined(first, [a]) == first * 64 + (a - 0x80)
  {
    assert [a][..0] == [];
  }

  lemma JoinTwo(first: int, a: nat, b: nat)
    ensures Joined(first, [a, b]) == (first * 64 + (a - 0x80)) * 64 + (b - 0x80)
  {
    assert [a, b][..1] == [a];
    JoinOne(first, a);
  }

  lemma JoinThree(first: int, a: nat, b: nat, c: nat)
    ensures Joined(first, [a, b, c]) == ((first * 64 + (a - 0x80)) * 64 + (b - 0x80)) * 64 + (c - 0x80)
  {
    assert [a, b, c][..2] == [a, b];
    JoinTwo(first, a, b);
  }

  /** What a label counts for a character is the length of its encoding. */
  lemma BytesAreEncoded(c: char)
    ensures CharBytes(c) == |Encoded(c as int)|
  {
  }

  // ---- markup -----------------------------------------------------------------------------------------

  /** The ASCII punctuation characters of CommonMark, section 2.1. */
  const PUNCTUATION := ["!\"#$%&'()*+,-./", ":;<=>?@", "[\\]^_`", "{|}~"]

  lemma PunctuationIs(c: char)
    ensures AsciiPunctuation(c) <==>
      c in PUNCTUATION[0] || c in PUNCTUATION[1] || c in PUNCTUATION[2] || c in PUNCTUATION[3]
  {
    BetweenIs("!\"#$%&'()*+,-./", c);
    BetweenIs(":;<=>?@", c);
    BetweenIs("[\\]^_`", c);
    BetweenIs("{|}~", c);
  }

  /** A text whose characters follow one another holds everything between the first and the last. */
  lemma BetweenIs(s: string, c: char)
    requires s != "" && forall i :: 0 <= i < |s| ==> s[i] as int == s[0] as int + i
    ensures c in s <==> s[0] <= c <= s[|s| - 1]
  {
    if s[0] <= c <= s[|s| - 1] {
      assert s[c as int - s[0] as int] == c;
    }
  }

  /** What opens or closes emphasis, code, links, autolinks, entities and images, and the backslash. */
  const MARKUP := "\\[]()*_~`<>&!"

  lemma MarkupIsSpecial(c: char)
    ensures Special(c) <==> c in MARKUP
  {
  }

  /** Whatever its text, a label is at most 200 bytes and leaves no markup character unescaped; read
      back, it is the whole text if that fits in 197 bytes escaped, and otherwise its longest beginning
      that does, and an ellipsis. */
  lemma LabelIsPlainText(text: string)
    ensures Bytes(Label(text)) <= 200
    ensures forall c :: c in MARKUP ==> FirstBare(Label(text), c) == |Label(text)|
    ensures Bytes(EscapeAll(text)) <= 197 ==> Unescape(Label(text)) == text
    ensures Bytes(EscapeAll(text)) > 197 ==>
      exists k :: 0 <= k < |text| && Unescape(Label(text)) == text[..k] + "\U{2026}"
        && Bytes(EscapeAll(text[..k])) <= 197 < Bytes(EscapeAll(text[..k + 1]))
  {
    LabelReadsBack(text);
    forall c | c in MARKUP ensures FirstBare(Label(text), c) == |Label(text)| {
      MarkupIsSpecial(c);
    }
  }

  /** Escaping puts a backslash before a markup character, and leaves every other as it is. */
  lemma {:induction false} EscapedLength(text: string)
    ensures |EscapeAll(text)| == |text| + |Marked(text)|
  {
    if text != "" {
      EscapedLength(text[..|text| - 1]);
      MarkupIsSpecial(text[|text| - 1]);
    }
  }

  /** The markup characters of a text. */
  function Marked(text: string): string {
    if text == "" then ""
    else Marked(text[..|text| - 1]) + if text[|text| - 1] in MARKUP then [text[|text| - 1]] else ""
  }

  // ---- the link ---------------------------------------------------------------------------------------

  /** Without a URL to point at there is no link; with one, the label and the URL are written as
      Markdown writes a link, the URL with three characters percent-encoded. */
  lemma LinkIsWritten(text: string, url: string)
    ensures (forall i :: 0 <= i < |url| ==> IsSpace(url[i])) ==> MarkdownLink(text, url) == Label(Collapsed(text))
    ensures (exists i :: 0 <= i < |url| && !IsSpace(url[i])) ==>
      MarkdownLink(text, url) == "[" + Label(Collapsed(text)) + "](" + EscapeUrl(url) + ")"
  {
    if Blank(url) {
      forall i | 0 <= i < |url| ensures IsSpace(url[i]) {
        assert url[i] in url;
      }
    }
  }

  function PercentDecoded(s: string): string
    decreases |s|
  {
    if |s| < 3 then s
    else if s[..3] == "%28" then "(" + PercentDecoded(s[3..])
    else if s[..3] == "%29" then ")" + PercentDecoded(s[3..])
    else if s[..3] == "%20" then " " + PercentDecoded(s[3..])
    else [s[0]] + PercentDecoded(s[1..])
  }

  lemma WithoutEnds(s: string)
    requires |s| > 1
    ensures s[..|s| - 1][1..] == s[1..][..|s| - 2] && s[1..][|s| - 2] == s[|s| - 1] && s[..|s| - 1][0] == s[0]
  {
  }

  lemma OneCharUrl(url: string)
    requires |url| == 1
    ensures EscapeUrl(url) == EscapeUrlChar(url[0])
  {
    assert url[..0] == "" && EscapeUrl("") == "";
    assert "" + EscapeUrlChar(url[0]) == EscapeUrlChar(url[0]);
  }

  lemma {:induction false} EscapeUrlFirst(url: string)
    requires url != ""
    ensures EscapeUrl(url) == EscapeUrlChar(url[0]) + EscapeUrl(url[1..])
  {
    if |url| == 1 {
      OneCharUrl(url);
      assert url[1..] == "" && EscapeUrlChar(url[0]) + "" == EscapeUrlChar(url[0]);
    } else {
      EscapeUrlFirst(url[..|url| - 1]);
      WithoutEnds(url);
      Regroup(EscapeUrlChar(url[0]), EscapeUrl(url[1..][..|url| - 2]), EscapeUrlChar(url[|url| - 1]));
    }
  }

  lemma Regroup(a: string, b: string, c: string)
    ensures a + b + c == a + (b + c)
  {
  }

  /** A URL that holds no percent sign is what its percent-encoded form decodes to. */
  lemma {:induction false} UrlReadsBack(url: string)
    requires '%' !in url
    ensures PercentDecoded(EscapeUrl(url)) == url
    decreases |url|
  {
    if url != "" {
      EscapeUrlFirst(url);
      assert url == [url[0]] + url[1..];
      assert url[0] in url;
      UrlReadsBack(url[1..]);
      var rest := EscapeUrl(url[1..]);
      var c := EscapeUrlChar(url[0]);
      DecodesFirst(url[0], rest);
    }
  }

  lemma DecodesFirst(c: char, rest: string)
    requires c != '%'
    ensures PercentDecoded(EscapeUrlChar(c) + rest) == [c] + PercentDecoded(rest)
  {
    var s := EscapeUrlChar(c) + rest;
    if c == '(' || c == ')' || c == ' ' {
      assert s[..3] == EscapeUrlChar(c) && s[3..] == rest;
    } else {
      assert s[0] == c && s[1..] == rest;
      if |s| < 3 {
        ShortDecodes(rest);
      } else {
        assert s[..3][0] == c;
      }
    }
  }

  lemma ShortDecodes(s: string)
    requires |s| < 3
    ensures PercentDecoded(s) == s
  {
  }
}
