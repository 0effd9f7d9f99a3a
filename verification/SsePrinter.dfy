/** The frames the server of httpserver/sse.go writes, and that decoding gives them back. */
module SsePrinter {
  import opened Options
  import opened SseText
  import opened SseStandard
  import opened SseFrames

  // An event with its cursor, the idle comment, or the terminal error; json is what json.Marshal gave.
  datatype Sent = SentEvent(id: Bytes, json: Bytes) | SentHeartbeat | SentError(json: Bytes)

  function IdText(id: Bytes): Bytes { if id == [] then [] else "id: " + id + [LF] }

  function DataText(json: Bytes): Bytes { "data: " + json + [LF] + [LF] }

  function Print(s: Sent): Bytes {
    match s
    case SentEvent(id, json) => IdText(id) + DataText(json)
    case SentHeartbeat => ": keep-alive" + [LF] + [LF]
    case SentError(json) => "event: error" + [LF] + DataText(json)
  }

  predicate CursorAllowed(id: Bytes) { NUL !in id && CR !in id && LF !in id }

  /** The frame text of an event, or a refusal of its cursor; the caller has marshalled the data. */
  method MarshalEvent(id: Bytes, json: Bytes) returns (text: Option<Bytes>)
    ensures text == if CursorAllowed(id) then Some(Print(SentEvent(id, json))) else None
  {
    if NUL in id || CR in id || LF in id {
      return None;
    }
    var frame: Bytes := [];
    if id != [] {
      frame := frame + "id: ";
      frame := frame + id;
      frame := frame + [LF];
    }
    frame := frame + "data: ";
    frame := frame + json;
    frame := frame + [LF] + [LF];
    assert frame == IdText(id) + DataText(json);
    return Some(frame);
  }

  function PrintAll(sent: seq<Sent>): Bytes {
    if sent == [] then [] else Print(sent[0]) + PrintAll(sent[1..])
  }

  // What json.Marshal promises of its output: valid UTF-8 without line ends.
  predicate IsJson(json: Bytes) { ValidUtf8(json) && NoEol(json) }

  predicate Printable(s: Sent) {
    match s
    case SentEvent(id, json) => CursorAllowed(id) && ValidUtf8(id) && IsJson(json)
    case SentHeartbeat => true
    case SentError(json) => IsJson(json)
  }

  function Cursor(s: Sent, id: Bytes): Bytes {
    if s.SentEvent? && s.id != [] then s.id else id
  }

  function FrameOf(s: Sent, id: Bytes): Frame {
    match s
    case SentEvent(_, json) => Frame(Data, Cursor(s, id), json)
    case SentHeartbeat => Frame(Heartbeat, [], [])
    case SentError(json) => Frame(Error, id, json)
  }

  // Each event with the last cursor that was sent, or the one the client started from.
  function Received(sent: seq<Sent>, id: Bytes): seq<Frame> {
    if sent == [] then []
    else [FrameOf(sent[0], id)] + Received(sent[1..], Cursor(sent[0], id))
  }

  // ---- one line --------------------------------------------------------------------------

  // A line the decoder would not take for one with a byte order mark.
  predicate Unmarked(line: Bytes) { NoEol(line) && (line != [] ==> line[0] != BOM[0]) }

  lemma ScanFirst(line: Bytes, rest: Bytes, b: Block, first: bool)
    requires Unmarked(line)
    ensures var x := Scan(line + [LF] + rest, b, first);
      && (!ValidUtf8(line) ==> x == Reading(NotUtf8, rest, |line| + 1, b.id, 1))
      && (line == [] ==> x == Reading(Close(b), rest, 1, b.id, 1))
      && (ValidUtf8(line) && line != [] ==>
            var y := Scan(rest, Feed(b, line), false);
            x == y.(counted := |line| + 1 + y.counted, taken := y.taken + 1))
  {
    hide EolAt, Feed, Close;
    SplitLine(line, LF, rest);
    StripNothing(line);
  }

  lemma StripNothing(line: Bytes)
    requires line != [] ==> line[0] != BOM[0]
    ensures StripBom(line) == line
  {
    if |line| >= 3 {
      assert line[..3][0] == line[0];
    }
  }

  lemma {:induction false} ColonFound(name: Bytes, rest: Bytes)
    requires ':' !in name
    ensures ColonAt(name + [':'] + rest) == |name|
  {
    if name == [] {
      assert name + [':'] + rest == [':'] + rest;
    } else {
      assert (name + [':'] + rest)[1..] == name[1..] + [':'] + rest;
      ColonFound(name[1..], rest);
    }
  }

  function FieldLine(name: Bytes, value: Bytes): Bytes { name + ": " + value }

  lemma FieldParts(name: Bytes, value: Bytes)
    requires ':' !in name
    ensures FieldName(FieldLine(name, value)) == name && FieldValue(FieldLine(name, value)) == value
  {
    assert FieldLine(name, value) == name + [':'] + ([' '] + value);
    ColonFound(name, [' '] + value);
  }

  lemma FieldUtf8(name: Bytes, value: Bytes)
    requires Ascii(name)
    ensures ValidUtf8(FieldLine(name, value)) <==> ValidUtf8(value)
  {
    AsciiPrefix(name + ": ", value);
  }

  // ---- one frame -------------------------------------------------------------------------

  lemma ScanId(id: Bytes, rest: Bytes, b: Block, first: bool)
    requires CursorAllowed(id)
    ensures var x := Scan(FieldLine("id", id) + [LF] + rest, b, first);
      && (!ValidUtf8(id) ==> x.outcome == NotUtf8 && x.counted == |id| + 5)
      && (ValidUtf8(id) ==>
            var y := Scan(rest, b.(id := id), false);
            x == y.(counted := |id| + 5 + y.counted, taken := y.taken + 1))
  {
    hide Scan, ValidUtf8, FieldName, FieldValue;
    FieldParts("id", id);
    FieldUtf8("id", id);
    ScanFirst(FieldLine("id", id), rest, b, first);
  }

  lemma ScanData(json: Bytes, rest: Bytes, b: Block, first: bool)
    requires IsJson(json) && !b.hasData && b.data == []
    ensures var x := Scan(FieldLine("data", json) + [LF] + ([LF] + rest), b, first);
      x == Reading(Close(b.(hasData := true, data := json + [LF])), rest, |json| + 8, b.id, 2)
  {
    hide Scan, ValidUtf8, FieldName, FieldValue, Close;
    FieldParts("data", json);
    FieldUtf8("data", json);
    ScanFirst(FieldLine("data", json), [LF] + rest, b, first);
    assert [] + json + [LF] == json + [LF];
    assert [] + [LF] + rest == [LF] + rest;
    ScanFirst([], rest, Feed(b, FieldLine("data", json)), false);
    EmptyUtf8();
  }

  lemma EmptyUtf8()
    ensures ValidUtf8([])
  {
  }

  lemma ErrorLine()
    ensures FieldName(FieldLine("event", "error")) == "event" && FieldValue(FieldLine("event", "error")) == "error"
    ensures ValidUtf8(FieldLine("event", "error"))
  {
    FieldParts("event", "error");
    EmptyUtf8();
    assert FieldLine("event", "error") == "event: error" + [];
    AsciiPrefix("event: error", []);
  }

  lemma ScanErrorName(rest: Bytes, b: Block, first: bool)
    ensures var x := Scan(FieldLine("event", "error") + [LF] + rest, b, first);
      var y := Scan(rest, b.(event := "error"), false);
      x == y.(counted := 13 + y.counted, taken := y.taken + 1)
  {
    hide Scan, ValidUtf8, FieldName, FieldValue;
    ErrorLine();
    ScanFirst(FieldLine("event", "error"), rest, b, first);
  }

  lemma ScanHeartbeat(rest: Bytes, b: Block, first: bool)
    ensures Scan(": keep-alive" + [LF] + ([LF] + rest), b, first)
         == Reading(Close(b.(hasComment := true)), rest, 14, b.id, 2)
  {
    hide Scan, ValidUtf8, Close;
    EmptyUtf8();
    assert ": keep-alive" == ": keep-alive" + [];
    AsciiPrefix(": keep-alive", []);
    ScanFirst(": keep-alive", [LF] + rest, b, first);
    assert [] + [LF] + rest == [LF] + rest;
    ScanFirst([], rest, b.(hasComment := true), false);
  }

  lemma Labels(value: Bytes)
    ensures FieldLine("data", value) == "data: " + value && FieldLine("id", value) == "id: " + value
    ensures FieldLine("event", "error") == "event: error"
  {
    assert "data" + ": " == "data: " && "id" + ": " == "id: ";
  }

  lemma DataTextLines(json: Bytes, rest: Bytes)
    ensures DataText(json) + rest == FieldLine("data", json) + [LF] + ([LF] + rest)
    ensures |DataText(json)| == |json| + 8
  {
    hide FieldLine;
    Labels(json);
    var line: Bytes := "data: " + json;
    assert line + [LF] + [LF] + rest == line + [LF] + ([LF] + rest);
  }

  lemma EventText(id: Bytes, json: Bytes, rest: Bytes)
    ensures var text := Print(SentEvent(id, json));
      var body := DataText(json) + rest;
      && text + rest == (if id == [] then body else FieldLine("id", id) + [LF] + body)
      && |text| == |IdText(id)| + |DataText(json)| && |IdText(id)| == if id == [] then 0 else |id| + 5
  {
    hide FieldLine, DataText;
    Labels(id);
    var data := DataText(json);
    assert IdText(id) + data + rest == IdText(id) + (data + rest);
    assert [] + (data + rest) == data + rest;
  }

  lemma ErrorText(json: Bytes, rest: Bytes)
    ensures var text := Print(SentError(json));
      && text + rest == FieldLine("event", "error") + [LF] + (DataText(json) + rest)
      && |text| == 13 + |DataText(json)|
  {
    hide FieldLine, DataText;
    Labels([]);
    var head: Bytes, data := "event: error" + [LF], DataText(json);
    assert head + data + rest == head + (data + rest);
  }

  lemma HeartbeatText(rest: Bytes)
    ensures Print(SentHeartbeat) + rest == ": keep-alive" + [LF] + ([LF] + rest) && |Print(SentHeartbeat)| == 14
  {
    var line: Bytes := ": keep-alive";
    assert line + [LF] + [LF] + rest == line + [LF] + ([LF] + rest);
  }

  lemma ClosedFrames(b: Block, json: Bytes)
    requires b.data == json + [LF] && b.hasData
    ensures b.event == [] ==> Close(b) == Got(Frame(Data, b.id, json))
    ensures b.event == "error" ==> Close(b) == Got(Frame(Error, b.id, json))
  {
    assert b.data[..|b.data| - 1] == json;
  }

  /** One printed frame is one block, and every byte of it is counted. */
  lemma ScanPrinted(s: Sent, rest: Bytes, id: Bytes, first: bool)
    requires Printable(s)
    ensures var x := Scan(Print(s) + rest, Fresh(id), first);
      x.outcome == Got(FrameOf(s, id)) && x.rest == rest && x.counted == |Print(s)| && x.id == Cursor(s, id)
  {
    hide Scan, ValidUtf8, Print, FieldLine, DataText, IdText;
    match s {
      case SentEvent(next, json) =>
        EventText(next, json, rest);
        DataTextLines(json, rest);
        ScanEvent(next, json, rest, id, first);
      case SentHeartbeat =>
        HeartbeatText(rest);
        ScanHeartbeat(rest, Fresh(id), first);
      case SentError(json) =>
        ErrorText(json, rest);
        DataTextLines(json, rest);
        ScanErrorName(DataText(json) + rest, Fresh(id), first);
        var b := Fresh(id).(event := "error");
        ScanData(json, rest, b, false);
        ClosedFrames(b.(hasData := true, data := json + [LF]), json);
    }
  }

  lemma ScanEvent(next: Bytes, json: Bytes, rest: Bytes, id: Bytes, first: bool)
    requires Printable(SentEvent(next, json))
    ensures var body := FieldLine("data", json) + [LF] + ([LF] + rest);
      var text := if next == [] then body else FieldLine("id", next) + [LF] + body;
      var x := Scan(text, Fresh(id), first);
      && x.outcome == Got(FrameOf(SentEvent(next, json), id)) && x.rest == rest
      && x.counted == |json| + 8 + (if next == [] then 0 else |next| + 5) && x.id == Cursor(SentEvent(next, json), id)
  {
    hide Scan, ValidUtf8, FieldLine, Close;
    var b := Fresh(if next == [] then id else next);
    if next == [] {
      ScanData(json, rest, b, first);
    } else {
      ScanId(next, FieldLine("data", json) + [LF] + ([LF] + rest), Fresh(id), first);
      ScanData(json, rest, b, false);
    }
    ClosedFrames(b.(hasData := true, data := json + [LF]), json);
  }

  // ---- all of them -----------------------------------------------------------------------

  /** Decoding what was printed gives exactly the frames sent, in order, each with its cursor. */
  lemma {:induction false} DecodePrinted(sent: seq<Sent>, id: Bytes, first: bool, max: nat)
    requires forall i :: 0 <= i < |sent| ==> Printable(sent[i]) && |Print(sent[i])| <= max
    ensures Decode(PrintAll(sent), id, first, max) == Decoded(Received(sent, id), Eof)
  {
    hide Scan, Print, Printable;
    if sent == [] {
      ScanNothing(id, first);
    } else {
      var rest := PrintAll(sent[1..]);
      ScanPrinted(sent[0], rest, id, first);
      DecodePrinted(sent[1..], Cursor(sent[0], id), false, max);
    }
  }

  lemma ScanNothing(id: Bytes, first: bool)
    ensures var x := Scan([], Fresh(id), first); x.outcome == Eof && x.counted == 0
  {
  }

  /**
   * The printer refuses a cursor with NUL, CR or LF but lets one through that is not UTF-8, which the
   * decoder then refuses: an accepted event survives the trip exactly if its cursor is UTF-8.
   */
  lemma SurvivesIff(id: Bytes, json: Bytes, before: Bytes, max: nat)
    requires CursorAllowed(id) && IsJson(json)
    requires |Print(SentEvent(id, json))| <= max
    ensures var s := SentEvent(id, json);
      Decode(Print(s), before, true, max) == Decoded([FrameOf(s, before)], Eof) <==> ValidUtf8(id)
  {
    hide Scan, ValidUtf8;
    var s := SentEvent(id, json);
    if ValidUtf8(id) {
      hide Print;
      DecodePrinted([s], before, true, max);
      assert PrintAll([s][1..]) == [];
      assert PrintAll([s]) == Print(s) + [] == Print(s);
      assert Received([s][1..], Cursor(s, before)) == [];
      assert Received([s], before) == [FrameOf(s, before)];
    } else {
      EmptyUtf8();
      EventText(id, json, []);
      assert Print(s) + [] == Print(s);
      ScanId(id, DataText(json) + [], Fresh(before), true);
      assert Decode(Print(s), before, true, max).frames == [];
    }
  }

  /** Such a cursor exists: a lone continuation byte. */
  lemma NotEveryCursorSurvives()
    ensures CursorAllowed([0x80 as char]) && !ValidUtf8([0x80 as char])
  {
    assert Utf8Head([0x80 as char]) == 0;
  }
}
