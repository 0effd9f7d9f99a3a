/**
 * How the WHATWG HTML Standard (section 9.2.6, "Interpreting an event stream") turns the lines of a
 * stream into events. Nothing here knows about the decoder of httpserver/sse_client_parser.go.
 */
module SseStandard {
  import opened SseText

  datatype Event = Event(eventType: Bytes, data: Bytes, lastId: Bytes)

  // The data, event type and last event ID buffers.
  datatype Buffers = Buffers(data: Bytes, eventType: Bytes, lastId: Bytes)

  const NUL: char := '\0'

  // The position of the first colon, or the length.
  function ColonAt(line: Bytes): (k: nat)
    ensures k <= |line| && (forall i :: 0 <= i < k ==> line[i] != ':') && (k < |line| ==> line[k] == ':')
  {
    if line == [] || line[0] == ':' then 0 else 1 + ColonAt(line[1..])
  }

  function FieldName(line: Bytes): Bytes { line[..ColonAt(line)] }

  // What follows the colon, less one leading space.
  function FieldValue(line: Bytes): Bytes {
    var k := ColonAt(line);
    if k == |line| then []
    else if k + 1 < |line| && line[k + 1] == ' ' then line[k + 2..]
    else line[k + 1..]
  }

  function ProcessLine(b: Buffers, line: Bytes): Buffers
    requires line != []
  {
    var value := FieldValue(line);
    if line[0] == ':' then b
    else match FieldName(line)
      case "event" => b.(eventType := value)
      case "data" => b.(data := b.data + value + [LF])
      case "id" => if NUL in value then b else b.(lastId := value)
      case _ => b
  }

  // At an empty line: an event unless the data buffer is empty, less the final line feed.
  function Dispatch(b: Buffers): seq<Event> {
    if b.data == [] then []
    else [Event(if b.eventType == [] then "message" else b.eventType,
                if b.data[|b.data| - 1] == LF then b.data[..|b.data| - 1] else b.data,
                b.lastId)]
  }

  /** An event that is still pending when the lines run out is dropped. */
  function Events(lines: seq<Bytes>, b: Buffers): seq<Event> {
    if lines == [] then []
    else if lines[0] == [] then Dispatch(b) + Events(lines[1..], Buffers([], [], b.lastId))
    else Events(lines[1..], ProcessLine(b, lines[0]))
  }

  // Section 9.2.5: one leading byte order mark is not part of the stream.
  function StripBom(s: Bytes): Bytes {
    if |s| >= 3 && s[..3] == BOM then s[3..] else s
  }

  function Interpret(stream: Bytes, lastId: Bytes): seq<Event> {
    Events(Lines(StripBom(stream)), Buffers([], [], lastId))
  }
}
