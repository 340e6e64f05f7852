/**
 The live feed on the wire: the printer of server-sent events
 (backend/internal/handler/announce_sse.go, sseFrame and HandleStream), and the browser's reader
 as sections 9.2.5 (Parsing an event stream) and 9.2.6 (Interpreting an event stream) of the
 WHATWG HTML Living Standard define it. Characters stand for bytes.
 */
module EventStream {

  // ---- the printer -------------------------------------------------------------------------

  function Without(s: string, drop: set<char>): string {
    if s == "" then ""
    else if s[0] in drop then Without(s[1..], drop)
    else [s[0]] + Without(s[1..], drop)
  }

  /** sseSanitize: the field value on one line. */
  function Sanitize(s: string): string {
    Without(s, {'\r', '\n'})
  }

  function DropCr(s: string): string {
    Without(s, {'\r'})
  }

  function CrLfToLf(s: string): string {
    if |s| >= 2 && s[0] == '\r' && s[1] == '\n' then "\n" + CrLfToLf(s[2..])
    else if s == "" then ""
    else [s[0]] + CrLfToLf(s[1..])
  }

  function SplitLf(s: string): (lines: seq<string>)
    ensures lines != []
  {
    if s == "" then [""]
    else
      var rest := SplitLf(s[1..]);
      if s[0] == '\n' then [""] + rest else [[s[0]] + rest[0]] + rest[1..]
  }

  /** Lines, each with its line feed. */
  function Terminated(lines: seq<string>): string {
    if lines == [] then "" else lines[0] + "\n" + Terminated(lines[1..])
  }

  function DataLines(lines: seq<string>): seq<string> {
    if lines == [] then [] else ["data: " + DropCr(lines[0])] + DataLines(lines[1..])
  }

  function FrameLines(name: string, id: string, payload: string): seq<string> {
    ["event: " + Sanitize(name)]
    + (if id == "" then [] else ["id: " + Sanitize(id)])
    + DataLines(SplitLf(CrLfToLf(payload)))
    + [""]
  }

  lemma {:induction false} TerminatedAppend(a: seq<string>, b: seq<string>)
    ensures Terminated(a + b) == Terminated(a) + Terminated(b)
  {
    if a == [] {
      assert a + b == b;
    } else {
      TerminatedAppend(a[1..], b);
      assert (a + b)[1..] == a[1..] + b;
    }
  }

  lemma {:induction false} DataLinesAppend(a: seq<string>, b: seq<string>)
    ensures DataLines(a + b) == DataLines(a) + DataLines(b)
  {
    if a == [] {
      assert a + b == b;
    } else {
      DataLinesAppend(a[1..], b);
      assert (a + b)[1..] == a[1..] + b && (a + b)[0] == a[0];
    }
  }

  lemma TerminatedOne(line: string)
    ensures Terminated([line]) == line + "\n"
  {
    assert [line][1..] == [];
    assert line + "\n" + "" == line + "\n";
  }

  /** sseFrame, with the builder it writes into. */
  method SseFrame(name: string, id: string, payload: string) returns (b: string)
    ensures b == Terminated(FrameLines(name, id, payload))
  {
    ghost var written := ["event: " + Sanitize(name)];
    b := "event: " + Sanitize(name) + "\n";
    TerminatedOne(written[0]);
    if id != "" {
      TerminatedOne("id: " + Sanitize(id));
      TerminatedAppend(written, ["id: " + Sanitize(id)]);
      written := written + ["id: " + Sanitize(id)];
      b := b + ("id: " + Sanitize(id) + "\n");
    }
    ghost var head := written;
    var lines := SplitLf(CrLfToLf(payload));
    var i := 0;
    assert written == head + DataLines(lines[..0]);
    while i < |lines|
      invariant 0 <= i <= |lines|
      invariant written == head + DataLines(lines[..i]) && b == Terminated(written)
    {
      var line := "data: " + DropCr(lines[i]);
      DataLinesAppend(lines[..i], [lines[i]]);
      assert lines[..i + 1] == lines[..i] + [lines[i]];
      assert DataLines([lines[i]]) == [line];
      TerminatedOne(line);
      TerminatedAppend(written, [line]);
      b := b + (line + "\n");
      written := written + [line];
      i := i + 1;
    }
    assert lines[..|lines|] == lines;
    TerminatedOne("");
    TerminatedAppend(written, [""]);
    b := b + "\n";
  }

  /** What HandleStream writes after its headers: the retry hint, then frames and pings in any
      order, each written whole. */
  datatype Item = Announcement(name: string, id: string, payload: string) | Ping

  const RETRY_HINT := ["retry: 5000", ""]
  const PING := [": ping", ""]

  function ItemLines(item: Item): seq<string> {
    match item
    case Announcement(name, id, payload) => FrameLines(name, id, payload)
    case Ping => PING
  }

  function AllLines(items: seq<Item>): seq<string> {
    if items == [] then [] else ItemLines(items[0]) + AllLines(items[1..])
  }

  /** Everything written to one connection so far. */
  function Stream(items: seq<Item>): string {
    Terminated(RETRY_HINT) + Terminated(AllLines(items))
  }

  // ---- the reader ----------------------------------------------------------------------------

  const BOM := ['\U{EF}', '\U{BB}', '\U{BF}']

  /** The lines of a stream, ended by CR LF, LF or CR; what no end of line follows is discarded. */
  function Lines(s: string, read: string): seq<string>
    decreases |s|
  {
    if s == "" then []
    else if s[0] == '\r' && |s| > 1 && s[1] == '\n' then [read] + Lines(s[2..], "")
    else if s[0] == '\r' || s[0] == '\n' then [read] + Lines(s[1..], "")
    else Lines(s[1..], read + [s[0]])
  }

  datatype Message = Message(event: string, data: string, lastEventId: string)

  datatype Reader = Reader(
    event: string, data: string, lastId: string, reconnection: nat, dispatched: seq<Message>)

  function Colon(line: string): (k: nat)
    ensures k <= |line|
  {
    if line == "" || line[0] == ':' then 0 else 1 + Colon(line[1..])
  }

  function Value(afterColon: string): string {
    if afterColon != "" && afterColon[0] == ' ' then afterColon[1..] else afterColon
  }

  predicate Digits(s: string) {
    forall i :: 0 <= i < |s| ==> '0' <= s[i] <= '9'
  }

  function Decimal(s: string): nat
    requires Digits(s)
  {
    if s == "" then 0 else 10 * Decimal(s[..|s| - 1]) + (s[|s| - 1] as int - '0' as int)
  }

  function ProcessField(r: Reader, field: string, value: string): Reader {
    if field == "event" then r.(event := value)
    else if field == "data" then r.(data := r.data + value + "\n")
    else if field == "id" then (if '\0' in value then r else r.(lastId := value))
    else if field == "retry" then (if value != "" && Digits(value) then r.(reconnection := Decimal(value)) else r)
    else r
  }

  /** An empty data buffer dispatches nothing; otherwise the buffer loses its last line feed. */
  function Dispatch(r: Reader): Reader {
    if r.data == "" then r.(event := "")
    else
      var data := if r.data[|r.data| - 1] == '\n' then r.data[..|r.data| - 1] else r.data;
      var event := if r.event == "" then "message" else r.event;
      r.(event := "", data := "", dispatched := r.dispatched + [Message(event, data, r.lastId)])
  }

  function ReadLine(r: Reader, line: string): Reader {
    if line == "" then Dispatch(r)
    else if line[0] == ':' then r
    else
      var k := Colon(line);
      if k < |line| then ProcessField(r, line[..k], Value(line[k + 1..])) else ProcessField(r, line, "")
  }

  function ReadLines(r: Reader, lines: seq<string>): Reader
    decreases |lines|
  {
    if lines == [] then r else ReadLines(ReadLine(r, lines[0]), lines[1..])
  }

  const FRESH := Reader("", "", "", 0, [])

  function Read(s: string): Reader {
    ReadLines(FRESH, Lines(if BOM <= s then s[3..] else s, ""))
  }

  // ---- lines come back ---------------------------------------------------------------------------

  predicate OneLine(s: string) {
    '\r' !in s && '\n' !in s
  }

  predicate AllOneLine(lines: seq<string>) {
    forall line :: line in lines ==> OneLine(line)
  }

  lemma {:induction false} WithoutDrops(s: string, drop: set<char>)
    ensures forall c :: c in Without(s, drop) <==> c in s && c !in drop
  {
    if s != "" {
      WithoutDrops(s[1..], drop);
    }
  }

  lemma {:induction false} OneLineBack(line: string, rest: string, read: string)
    requires OneLine(line)
    ensures Lines(line + "\n" + rest, read) == [read + line] + Lines(rest, "")
    decreases |line|
  {
    var s := line + "\n" + rest;
    if line == "" {
      assert s[1..] == rest;
      assert read + line == read;
    } else {
      assert s[0] == line[0];
      assert s[1..] == line[1..] + "\n" + rest;
      OneLineBack(line[1..], rest, read + [line[0]]);
      assert read + [line[0]] + line[1..] == read + line;
    }
  }

  lemma {:induction false} LinesBack(lines: seq<string>)
    requires AllOneLine(lines)
    ensures Lines(Terminated(lines), "") == lines
  {
    if lines != [] {
      OneLineBack(lines[0], Terminated(lines[1..]), "");
      LinesBack(lines[1..]);
      assert "" + lines[0] == lines[0];
    }
  }

  lemma {:induction false} SplitLfClean(s: string)
    ensures forall line :: line in SplitLf(s) ==> '\n' !in line
  {
    if s != "" {
      SplitLfClean(s[1..]);
    }
  }

  lemma {:induction false} DataLinesClean(lines: seq<string>)
    requires forall line :: line in lines ==> '\n' !in line
    ensures AllOneLine(DataLines(lines))
  {
    if lines != [] {
      DataLinesClean(lines[1..]);
      WithoutDrops(lines[0], {'\r'});
    }
  }

  lemma FrameLinesClean(name: string, id: string, payload: string)
    ensures AllOneLine(FrameLines(name, id, payload))
  {
    WithoutDrops(name, {'\r', '\n'});
    WithoutDrops(id, {'\r', '\n'});
    SplitLfClean(CrLfToLf(payload));
    DataLinesClean(SplitLf(CrLfToLf(payload)));
  }

  lemma {:induction false} AllLinesClean(items: seq<Item>)
    ensures AllOneLine(AllLines(items))
  {
    if items != [] {
      AllLinesClean(items[1..]);
      if items[0].Announcement? {
        FrameLinesClean(items[0].name, items[0].id, items[0].payload);
      }
    }
  }

  // ---- fields come back ----------------------------------------------------------------------------

  lemma {:induction false} ColonAt(name: string, rest: string)
    requires ':' !in name
    ensures Colon(name + ":" + rest) == |name|
  {
    var s := name + ":" + rest;
    if name != "" {
      assert s[1..] == name[1..] + ":" + rest;
      ColonAt(name[1..], rest);
    }
  }

  /** One space after the colon is the reader's to remove; any others belong to the value. */
  lemma FieldBack(r: Reader, name: string, value: string)
    requires name != "" && ':' !in name
    ensures ReadLine(r, name + ": " + value) == ProcessField(r, name, value)
  {
    var line := name + ": " + value;
    assert line == name + ":" + (" " + value);
    ColonAt(name, " " + value);
    assert line[..|name|] == name && line[|name| + 1..] == " " + value;
    assert (" " + value)[1..] == value;
  }

  lemma {:induction false} ReadAppend(r: Reader, a: seq<string>, b: seq<string>)
    ensures ReadLines(r, a + b) == ReadLines(ReadLines(r, a), b)
    decreases |a|
  {
    if a == [] {
      assert a + b == b;
    } else {
      assert (a + b)[1..] == a[1..] + b;
      ReadAppend(ReadLine(r, a[0]), a[1..], b);
    }
  }

  function DropEach(lines: seq<string>): seq<string> {
    if lines == [] then [] else [DropCr(lines[0])] + DropEach(lines[1..])
  }

  lemma OneDataLine(r: Reader, value: string)
    ensures ReadLine(r, "data: " + value) == r.(data := r.data + value + "\n")
  {
    FieldBack(r, "data", value);
    assert "data" + ": " + value == "data: " + value;
  }

  lemma ReadHead(r: Reader, line: string, rest: seq<string>)
    ensures ReadLines(r, [line] + rest) == ReadLines(ReadLine(r, line), rest)
  {
    assert ([line] + rest)[1..] == rest;
  }

  lemma TerminatedHead(line: string, rest: seq<string>)
    ensures Terminated([line] + rest) == line + "\n" + Terminated(rest)
  {
    assert ([line] + rest)[1..] == rest;
  }

  lemma DataHead(r: Reader, lines: seq<string>)
    requires lines != []
    ensures ReadLines(r, DataLines(lines)) ==
      ReadLines(r.(data := r.data + DropCr(lines[0]) + "\n"), DataLines(lines[1..]))
  {
    OneDataLine(r, DropCr(lines[0]));
    ReadHead(r, "data: " + DropCr(lines[0]), DataLines(lines[1..]));
  }

  lemma Regroup(a: string, b: string, c: string, d: string)
    ensures a + (b + c + d) == a + b + c + d
  {
  }

  lemma DataText(before: string, lines: seq<string>)
    requires lines != []
    ensures before + Terminated(DropEach(lines)) ==
      before + DropCr(lines[0]) + "\n" + Terminated(DropEach(lines[1..]))
  {
    var value, rest := DropCr(lines[0]), DropEach(lines[1..]);
    TerminatedHead(value, rest);
    Regroup(before, value, "\n", Terminated(rest));
  }

  lemma {:induction false} DataBack(r: Reader, lines: seq<string>)
    ensures ReadLines(r, DataLines(lines)) == r.(data := r.data + Terminated(DropEach(lines)))
    decreases |lines|
  {
    if lines == [] {
      assert r.data + "" == r.data;
    } else {
      var value := DropCr(lines[0]);
      var r' := r.(data := r.data + value + "\n");
      DataHead(r, lines);
      DataText(r.data, lines);
      DataBack(r', lines[1..]);
    }
  }

  lemma DropCrHead(c: char, s: string)
    ensures DropCr([c] + s) == (if c == '\r' then [] else [c]) + DropCr(s)
  {
    assert ([c] + s)[1..] == s;
  }

  lemma DropEachHead(line: string, rest: seq<string>)
    ensures DropEach([line] + rest) == [DropCr(line)] + DropEach(rest)
  {
    assert ([line] + rest)[1..] == rest;
  }

  lemma {:induction false} SplitThenDrop(s: string)
    ensures Terminated(DropEach(SplitLf(s))) == DropCr(s) + "\n"
  {
    if s != "" {
      var rest := SplitLf(s[1..]);
      SplitThenDrop(s[1..]);
      DropEachHead(rest[0], rest[1..]);
      assert rest == [rest[0]] + rest[1..];
      TerminatedHead(DropCr(rest[0]), DropEach(rest[1..]));
      DropCrHead(s[0], s[1..]);
      assert s == [s[0]] + s[1..];
      if s[0] == '\n' {
        DropEachHead("", rest);
        TerminatedHead("", DropEach(rest));
      } else {
        var first := [s[0]] + rest[0];
        DropEachHead(first, rest[1..]);
        TerminatedHead(DropCr(first), DropEach(rest[1..]));
        DropCrHead(s[0], rest[0]);
        var kept := if s[0] == '\r' then [] else [s[0]];
        assert kept + DropCr(rest[0]) + "\n" + Terminated(DropEach(rest[1..]))
            == kept + (DropCr(rest[0]) + "\n" + Terminated(DropEach(rest[1..])));
        assert kept + (DropCr(s[1..]) + "\n") == kept + DropCr(s[1..]) + "\n";
      }
    } else {
      DropEachHead("", []);
      TerminatedHead("", []);
      assert [""] + [] == [""];
    }
  }

  lemma {:induction false} CrGoesAnyway(s: string)
    ensures DropCr(CrLfToLf(s)) == DropCr(s)
    decreases |s|
  {
    if |s| >= 2 && s[0] == '\r' && s[1] == '\n' {
      CrGoesAnyway(s[2..]);
      assert s == ['\r'] + (['\n'] + s[2..]);
      DropCrHead('\r', ['\n'] + s[2..]);
      DropCrHead('\n', s[2..]);
      DropCrHead('\n', CrLfToLf(s[2..]));
    } else if s != "" {
      CrGoesAnyway(s[1..]);
      DropCrHead(s[0], CrLfToLf(s[1..]));
    }
  }

  // ---- what the browser is meant to see ----------------------------------------------------------------

  /** An id with a NUL is not taken, and no id at all leaves the last one standing. */
  function IdAfter(lastId: string, id: string): string {
    if id == "" || '\0' in id then lastId else Sanitize(id)
  }

  function Expected(items: seq<Item>, lastId: string): seq<Message> {
    if items == [] then []
    else match items[0]
      case Ping => Expected(items[1..], lastId)
      case Announcement(name, id, payload) =>
        var event := if Sanitize(name) == "" then "message" else Sanitize(name);
        [Message(event, DropCr(payload), IdAfter(lastId, id))] + Expected(items[1..], IdAfter(lastId, id))
  }

  predicate Idle(r: Reader) {
    r.event == "" && r.data == ""
  }

  lemma IdBack(r: Reader, id: string)
    ensures ReadLine(r, "id: " + Sanitize(id)) == r.(lastId := if '\0' in id then r.lastId else Sanitize(id))
  {
    FieldBack(r, "id", Sanitize(id));
    assert "id" + ": " + Sanitize(id) == "id: " + Sanitize(id);
    WithoutDrops(id, {'\r', '\n'});
  }

  lemma PayloadBack(r: Reader, payload: string)
    ensures ReadLines(r, DataLines(SplitLf(CrLfToLf(payload)))) == r.(data := r.data + DropCr(payload) + "\n")
  {
    DataBack(r, SplitLf(CrLfToLf(payload)));
    SplitThenDrop(CrLfToLf(payload));
    CrGoesAnyway(payload);
    assert r.data + (DropCr(payload) + "\n") == r.data + DropCr(payload) + "\n";
  }

  lemma ReadOne(r: Reader, line: string)
    ensures ReadLines(r, [line]) == ReadLine(r, line)
  {
    assert [line][1..] == [];
  }

  lemma HeadBack(r: Reader, name: string, id: string)
    ensures ReadLines(r, ["event: " + Sanitize(name)] + (if id == "" then [] else ["id: " + Sanitize(id)])) ==
      r.(event := Sanitize(name), lastId := IdAfter(r.lastId, id))
  {
    var first := "event: " + Sanitize(name);
    var ids := if id == "" then [] else ["id: " + Sanitize(id)];
    var r1 := r.(event := Sanitize(name));
    assert ReadLine(r, first) == r1 by {
      FieldBack(r, "event", Sanitize(name));
      assert "event" + ": " + Sanitize(name) == first;
    }
    ReadHead(r, first, ids);
    if id != "" {
      IdBack(r1, id);
      ReadOne(r1, "id: " + Sanitize(id));
    }
  }

  lemma DispatchBack(r: Reader, payload: string)
    requires r.data == DropCr(payload) + "\n"
    ensures ReadLines(r, [""]) == r.(event := "", data := "", dispatched :=
      r.dispatched + [Message(if r.event == "" then "message" else r.event, DropCr(payload), r.lastId)])
  {
    ReadOne(r, "");
    assert r.data[..|r.data| - 1] == DropCr(payload);
  }

  lemma BodyBack(r: Reader, payload: string)
    requires r.data == ""
    ensures ReadLines(r, DataLines(SplitLf(CrLfToLf(payload))) + [""]) == r.(event := "", dispatched :=
      r.dispatched + [Message(if r.event == "" then "message" else r.event, DropCr(payload), r.lastId)])
  {
    var data := DataLines(SplitLf(CrLfToLf(payload)));
    PayloadBack(r, payload);
    assert r.data + DropCr(payload) + "\n" == DropCr(payload) + "\n";
    ReadAppend(r, data, [""]);
    DispatchBack(r.(data := DropCr(payload) + "\n"), payload);
  }

  lemma FrameBack(r: Reader, name: string, id: string, payload: string)
    requires Idle(r)
    ensures ReadLines(r, FrameLines(name, id, payload)) ==
      r.(lastId := IdAfter(r.lastId, id), dispatched := r.dispatched + Expected([Announcement(name, id, payload)], r.lastId))
  {
    var head := ["event: " + Sanitize(name)] + (if id == "" then [] else ["id: " + Sanitize(id)]);
    var body := DataLines(SplitLf(CrLfToLf(payload))) + [""];
    assert FrameLines(name, id, payload) == head + body;
    ReadAppend(r, head, body);
    HeadBack(r, name, id);
    BodyBack(r.(event := Sanitize(name), lastId := IdAfter(r.lastId, id)), payload);
    ExpectedOne(name, id, payload, r.lastId);
  }

  lemma ExpectedOne(name: string, id: string, payload: string, lastId: string)
    ensures Expected([Announcement(name, id, payload)], lastId) ==
      [Message(if Sanitize(name) == "" then "message" else Sanitize(name), DropCr(payload), IdAfter(lastId, id))]
  {
    assert Expected([Announcement(name, id, payload)][1..], IdAfter(lastId, id)) == [];
  }

  lemma PingBack(r: Reader)
    requires Idle(r)
    ensures ReadLines(r, PING) == r
  {
    assert PING[1..] == [""];
    ReadOne(r, "");
  }

  lemma OneItemBack(r: Reader, item: Item)
    requires Idle(r)
    ensures var r' := ReadLines(r, ItemLines(item));
      && Idle(r') && r'.reconnection == r.reconnection
      && r'.dispatched == r.dispatched + Expected([item], r.lastId)
      && r'.lastId == LastIdAfter(r.lastId, item)
  {
    match item {
      case Ping =>
        PingBack(r);
        assert Expected([], r.lastId) == [];
        assert r.dispatched + [] == r.dispatched;
      case Announcement(name, id, payload) => FrameBack(r, name, id, payload);
    }
  }

  function LastIdAfter(lastId: string, item: Item): string {
    match item
    case Ping => lastId
    case Announcement(_, id, _) => IdAfter(lastId, id)
  }

  lemma ExpectedHead(items: seq<Item>, lastId: string)
    requires items != []
    ensures Expected(items, lastId) == Expected([items[0]], lastId) + Expected(items[1..], LastIdAfter(lastId, items[0]))
  {
    var one := [items[0]];
    assert one[1..] == [];
    assert Expected(one[1..], LastIdAfter(lastId, items[0])) == [];
  }

  lemma AppendExpected(r: Reader, items: seq<Item>)
    requires items != []
    ensures ReadLines(r, AllLines(items)) == ReadLines(ReadLines(r, ItemLines(items[0])), AllLines(items[1..]))
    ensures Expected(items, r.lastId) ==
      Expected([items[0]], r.lastId) + Expected(items[1..], LastIdAfter(r.lastId, items[0]))
  {
    ReadAppend(r, ItemLines(items[0]), AllLines(items[1..]));
    ExpectedHead(items, r.lastId);
  }

  lemma AppendThree(a: seq<Message>, b: seq<Message>, c: seq<Message>)
    ensures a + (b + c) == a + b + c
  {
  }

  lemma {:induction false} ItemsBack(r: Reader, items: seq<Item>)
    requires Idle(r)
    ensures var r' := ReadLines(r, AllLines(items));
      && Idle(r') && r'.dispatched == r.dispatched + Expected(items, r.lastId) && r'.reconnection == r.reconnection
    decreases |items|
  {
    if items == [] {
      assert r.dispatched + [] == r.dispatched;
    } else {
      var r1 := ReadLines(r, ItemLines(items[0]));
      AppendExpected(r, items);
      OneItemBack(r, items[0]);
      ItemsBack(r1, items[1..]);
      AppendThree(r.dispatched, Expected([items[0]], r.lastId), Expected(items[1..], r1.lastId));
    }
  }

  lemma FiveThousand()
    ensures Digits("5000") && Decimal("5000") == 5000
  {
    assert "5000"[..3] == "500" && "500"[..2] == "50" && "50"[..1] == "5" && "5"[..0] == "";
    assert Decimal("5") == 5;
    assert Decimal("50") == 50;
    assert Decimal("500") == 500;
  }

  lemma RetryField()
    ensures RETRY_HINT[0] == "retry" + ": " + "5000"
  {
  }

  lemma RetryTaken(r: Reader)
    ensures ProcessField(r, "retry", "5000") == r.(reconnection := 5000)
  {
    FiveThousand();
  }

  lemma RetryFieldBack(r: Reader)
    ensures ReadLine(r, RETRY_HINT[0]) == r.(reconnection := 5000)
  {
    RetryField();
    FieldBack(r, "retry", "5000");
    RetryTaken(r);
  }

  lemma ReadTwo(r: Reader, lines: seq<string>)
    requires |lines| == 2
    ensures ReadLines(r, lines) == ReadLine(ReadLine(r, lines[0]), lines[1])
  {
    assert lines[1..] == [lines[1]];
    ReadOne(ReadLine(r, lines[0]), lines[1]);
  }

  lemma RetryBack()
    ensures ReadLines(FRESH, RETRY_HINT) == FRESH.(reconnection := 5000)
  {
    ReadTwo(FRESH, RETRY_HINT);
    RetryFieldBack(FRESH);
  }

  /** The browser gets exactly the announcements, in order: each with its sanitised type, its
      payload less every carriage return, and its id or the last one that could be taken. Pings
      and the retry hint leave no event behind. */
  lemma RoundTrip(items: seq<Item>)
    ensures Read(Stream(items)).dispatched == Expected(items, "")
    ensures Read(Stream(items)).reconnection == 5000
  {
    var all := RETRY_HINT + AllLines(items);
    AllLinesClean(items);
    assert AllOneLine(RETRY_HINT);
    LinesBack(all);
    TerminatedAppend(RETRY_HINT, AllLines(items));
    assert Stream(items) == Terminated(all);
    assert Stream(items)[0] == 'r' by {
      assert Terminated(RETRY_HINT)[0] == 'r';
    }
    ReadAppend(FRESH, RETRY_HINT, AllLines(items));
    RetryBack();
    ItemsBack(FRESH.(reconnection := 5000), items);
    assert [] + Expected(items, "") == Expected(items, "");
  }

  // ---- a connection cut anywhere -------------------------------------------------------------------------

  lemma {:induction false} LinesGrow(a: string, b: string, read: string)
    ensures Lines(a, read) <= Lines(a + b, read)
    decreases |a|
  {
    if a != "" {
      var s := a + b;
      assert s[0] == a[0];
      assert s[1..] == a[1..] + b;
      if a[0] == '\r' && |a| > 1 && a[1] == '\n' {
        assert s[2..] == a[2..] + b;
        LinesGrow(a[2..], b, "");
      } else if a[0] == '\r' || a[0] == '\n' {
        LinesGrow(a[1..], b, "");
      } else {
        LinesGrow(a[1..], b, read + [a[0]]);
      }
    }
  }

  lemma {:induction false} DispatchedGrows(r: Reader, lines: seq<string>)
    ensures r.dispatched <= ReadLines(r, lines).dispatched
    decreases |lines|
  {
    if lines != [] {
      DispatchedGrows(ReadLine(r, lines[0]), lines[1..]);
    }
  }

  /** A stream cut after any number of bytes yields the first of those events and nothing else:
      no event is cut short or made up. */
  lemma CutStreamIsAPrefix(items: seq<Item>, k: nat)
    requires k <= |Stream(items)|
    ensures Read(Stream(items)[..k]).dispatched <= Expected(items, "")
  {
    var s := Stream(items);
    assert s[0] == 'r' by {
      assert Terminated(RETRY_HINT)[0] == 'r';
    }
    LinesGrow(s[..k], s[k..], "");
    assert s[..k] + s[k..] == s;
    var early, all := Lines(s[..k], ""), Lines(s, "");
    assert all == early + all[|early|..];
    ReadAppend(FRESH, early, all[|early|..]);
    DispatchedGrows(ReadLines(FRESH, early), all[|early|..]);
    RoundTrip(items);
  }

  /** A payload arrives unchanged exactly when it has no carriage return. */
  lemma {:induction false} UnchangedIffNoCr(payload: string)
    ensures DropCr(payload) == payload <==> '\r' !in payload
  {
    WithoutDrops(payload, {'\r'});
    NothingToDrop(payload);
  }

  lemma {:induction false} NothingToDrop(s: string)
    ensures '\r' !in s ==> DropCr(s) == s
  {
    if s != "" {
      NothingToDrop(s[1..]);
    }
  }

  // ---- what is left of a field ---------------------------------------------------------------------

  lemma {:induction false} WithoutAppend(a: string, b: string, cs: set<char>)
    ensures Without(a + b, cs) == Without(a, cs) + Without(b, cs)
    decreases |a|
  {
    if a == "" {
      assert a + b == b;
    } else {
      assert (a + b)[1..] == a[1..] + b;
      WithoutAppend(a[1..], b, cs);
    }
  }

  /** A type or an id loses its line breaks, character by character, and a payload its carriage returns;
      nothing else is lost and nothing is added. */
  lemma FieldsCharByChar(a: string, c: char, b: string)
    ensures Sanitize("") == "" && DropCr("") == ""
    ensures Sanitize(a + [c] + b) == Sanitize(a) + (if c == '\r' || c == '\n' then "" else [c]) + Sanitize(b)
    ensures DropCr(a + [c] + b) == DropCr(a) + (if c == '\r' then "" else [c]) + DropCr(b)
  {
    WithoutAppend(a + [c], b, {'\r', '\n'});
    WithoutAppend(a, [c], {'\r', '\n'});
    WithoutAppend(a + [c], b, {'\r'});
    WithoutAppend(a, [c], {'\r'});
    assert [c][1..] == "";
  }
}
