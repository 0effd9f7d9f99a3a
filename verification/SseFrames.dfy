/** What the decoder of httpserver/sse_client_parser.go yields for a byte stream, and the laws of that. */
module SseFrames {
  import opened SseText
  import opened SseStandard

  datatype Kind = Data | Error | Heartbeat | Other

  datatype Frame = Frame(kind: Kind, id: Bytes, data: Bytes)

  datatype Outcome = Got(frame: Frame) | Truncated | Eof | TooLarge | NotUtf8 | UnsupportedEvent

  // The local variables of `next`, and the cursor.
  datatype Block = Block(data: Bytes, event: Bytes, hasData: bool, hasComment: bool, id: Bytes)

  function Fresh(id: Bytes): Block { Block([], [], false, false, id) }

  // What one call reads: its outcome, the bytes after it, the bytes counted against the limit, the
  // cursor left behind, and how many complete lines it took.
  datatype Reading = Reading(outcome: Outcome, rest: Bytes, counted: nat, id: Bytes, taken: nat)

  function Feed(b: Block, line: Bytes): Block
    requires line != []
  {
    var value := FieldValue(line);
    if line[0] == ':' then b.(hasComment := true)
    else match FieldName(line)
      case "event" => b.(event := value)
      case "data" => b.(hasData := true, data := b.data + value + [LF])
      case "id" => if NUL in value then b else b.(id := value)
      case _ => b
  }

  function TrimLf(data: Bytes): Bytes {
    if data != [] && data[|data| - 1] == LF then data[..|data| - 1] else data
  }

  function Close(b: Block): Outcome {
    if !b.hasData then Got(Frame(if b.hasComment then Heartbeat else Other, [], []))
    else if b.event == [] || b.event == "message" then Got(Frame(Data, b.id, TrimLf(b.data)))
    else if b.event == "error" then Got(Frame(Error, b.id, TrimLf(b.data)))
    else UnsupportedEvent
  }

  // One block as if there were no limit. A line feed that completes the CR of the final, empty line
  // is taken but not counted.
  function Scan(r: Bytes, b: Block, first: bool): (x: Reading)
    ensures |x.rest| <= |r| && (x.outcome.Got? ==> |x.rest| < |r|)
    ensures x.counted <= |r|
    decreases |r|
  {
    if !HasLine(r) then Reading(if b.hasData || r != [] then Truncated else Eof, [], |r|, b.id, 0)
    else
      var line := if first then StripBom(LineOf(r)) else LineOf(r);
      var rest := AfterLine(r);
      if !ValidUtf8(line) then Reading(NotUtf8, rest, EolAt(r) + 1, b.id, 1)
      else if line == [] then Reading(Close(b), rest, EolAt(r) + 1, b.id, 1)
      else
        var x := Scan(rest, Feed(b, line), false);
        x.(counted := |r| - |rest| + x.counted, taken := x.taken + 1)
  }

  // The limit applies to the counted bytes of a block, whatever else is wrong with it.
  function Limited(x: Reading, max: nat): Outcome {
    if x.counted <= max then x.outcome else TooLarge
  }

  datatype Decoded = Decoded(frames: seq<Frame>, end: Outcome)

  /** Calls until the first that does not return a frame. */
  function Decode(r: Bytes, id: Bytes, first: bool, max: nat): Decoded
    decreases |r|
  {
    var x := Scan(r, Fresh(id), first);
    var o := Limited(x, max);
    if o.Got? then
      var d := Decode(x.rest, x.id, false, max);
      Decoded([o.frame] + d.frames, d.end)
    else Decoded([], o)
  }

  // ---- the decoder agrees with the Standard ------------------------------------------------

  function AsEvent(f: Frame): Event { Event(if f.kind.Error? then "error" else "message", f.data, f.id) }

  // The frames that carry an event.
  function Dispatched(frames: seq<Frame>): seq<Event> {
    if frames == [] then []
    else (if frames[0].kind.Data? || frames[0].kind.Error? then [AsEvent(frames[0])] else [])
         + Dispatched(frames[1..])
  }

  // The lines of a stream whose first line may carry a byte order mark.
  function LinesFrom(r: Bytes, first: bool): seq<Bytes> {
    if first then Lines(StripBom(r)) else Lines(r)
  }

  ghost predicate Abstracts(b: Block, w: Buffers) {
    w == Buffers(b.data, b.event, b.id) && (b.hasData <==> b.data != [])
    && (b.data != [] ==> b.data[|b.data| - 1] == LF)
  }

  lemma FeedRefines(b: Block, w: Buffers, line: Bytes)
    requires Abstracts(b, w) && line != []
    ensures Abstracts(Feed(b, line), ProcessLine(w, line))
  {
  }

  lemma CloseRefines(b: Block, w: Buffers)
    requires Abstracts(b, w) && Close(b).Got?
    ensures Dispatched([Close(b).frame]) == Dispatch(w)
  {
    assert [Close(b).frame][1..] == [];
  }

  // Dropping the mark before splitting is dropping it from the first line.
  lemma {:induction false} BomInFirstLine(r: Bytes)
    ensures HasLine(StripBom(r)) <==> HasLine(r)
    ensures HasLine(r) ==> LineOf(StripBom(r)) == StripBom(LineOf(r)) && AfterLine(StripBom(r)) == AfterLine(r)
  {
    if |r| >= 3 && r[..3] == BOM {
      var s := r[3..];
      assert r[0] == BOM[0] && r[1] == BOM[1] && r[2] == BOM[2];
      assert r[1..][1..] == r[2..] && r[2..][1..] == s;
      assert EolAt(r[2..]) == 1 + EolAt(s);
      assert EolAt(r[1..]) == 1 + EolAt(r[2..]);
      assert EolAt(r) == 3 + EolAt(s);
      if HasLine(r) {
        assert LineOf(r)[..3] == r[..3];
        assert LineOf(r)[3..] == LineOf(s);
        assert AfterLine(r) == AfterLine(s);
      }
    } else if HasLine(r) {
      var line := LineOf(r);
      if |line| >= 3 {
        assert line[..3] == r[..3];
      }
    }
  }

  lemma LinesFromSplit(r: Bytes, first: bool)
    ensures HasLine(r) ==>
      LinesFrom(r, first) == [if first then StripBom(LineOf(r)) else LineOf(r)] + LinesFrom(AfterLine(r), false)
    ensures !HasLine(r) ==> LinesFrom(r, first) == []
  {
    BomInFirstLine(r);
  }

  // One block: the events of its lines, then those of what follows.
  lemma {:induction false} ScanRefines(r: Bytes, b: Block, w: Buffers, first: bool)
    requires Abstracts(b, w)
    ensures var x := Scan(r, b, first);
      var more := Events(LinesFrom(x.rest, false), Buffers([], [], x.id));
      && (x.outcome.Got? ==> Events(LinesFrom(r, first), w) == Dispatched([x.outcome.frame]) + more)
      && (x.outcome.Truncated? || x.outcome.Eof? ==> Events(LinesFrom(r, first), w) == [])
    decreases |r|
  {
    hide StripBom, LineOf, AfterLine, EolAt, LinesFrom, ValidUtf8, Feed, ProcessLine, Close, Dispatch, Abstracts, HasLine;
    LinesFromSplit(r, first);
    if HasLine(r) {
      var line := if first then StripBom(LineOf(r)) else LineOf(r);
      var rest := AfterLine(r);
      var lines := LinesFrom(r, first);
      assert lines[0] == line && lines[1..] == LinesFrom(rest, false);
      if line == [] {
        AbstractsId(b, w);
        if Close(b).Got? {
          CloseRefines(b, w);
        } else {
          NeverEnds(b);
        }
      } else {
        FeedRefines(b, w, line);
        ScanRefines(rest, Feed(b, line), ProcessLine(w, line), false);
      }
    }
  }

  lemma AbstractsId(b: Block, w: Buffers)
    requires Abstracts(b, w)
    ensures w.lastId == b.id
  {
  }

  lemma NeverEnds(b: Block)
    ensures !Close(b).Truncated? && !Close(b).Eof?
  {
  }

  lemma DispatchedSplit(f: Frame, fs: seq<Frame>)
    ensures Dispatched([f] + fs) == Dispatched([f]) + Dispatched(fs)
  {
    assert ([f] + fs)[1..] == fs && [f][1..] == [];
  }

  /**
   * The decoder yields the events of the Standard, in order and with the same cursor, up to the point
   * where one of its stricter rules stops it; a stream that ends without such a stop yields them all.
   */
  lemma {:induction false} DecodeRefinesStandard(r: Bytes, id: Bytes, first: bool, max: nat)
    ensures var d := Decode(r, id, first, max);
      var all := Events(LinesFrom(r, first), Buffers([], [], id));
      && Dispatched(d.frames) <= all
      && (d.end.Eof? || d.end.Truncated? ==> Dispatched(d.frames) == all)
    decreases |r|
  {
    hide Scan, Events, LinesFrom, Dispatched;
    var x := Scan(r, Fresh(id), first);
    ScanRefines(r, Fresh(id), Buffers([], [], id), first);
    if Limited(x, max).Got? {
      var d := Decode(x.rest, x.id, false, max);
      DecodeRefinesStandard(x.rest, x.id, false, max);
      DispatchedSplit(x.outcome.frame, d.frames);
      assert Decode(r, id, first, max) == Decoded([x.outcome.frame] + d.frames, d.end);
    } else {
      NothingDispatched();
    }
  }

  /** The same for a whole stream, against the Standard's own interpretation of it. */
  lemma StreamRefinesStandard(stream: Bytes, id: Bytes, max: nat)
    ensures var d := Decode(stream, id, true, max);
      && Dispatched(d.frames) <= Interpret(stream, id)
      && (d.end.Eof? || d.end.Truncated? ==> Dispatched(d.frames) == Interpret(stream, id))
  {
    hide Decode, Events, Dispatched, Lines, StripBom;
    DecodeRefinesStandard(stream, id, true, max);
  }

  lemma NothingDispatched()
    ensures Dispatched([]) == []
  {
  }

  // ---- when the stricter rules stop it -----------------------------------------------------

  predicate AllUtf8(lines: seq<Bytes>) { forall i :: 0 <= i < |lines| ==> ValidUtf8(lines[i]) }

  predicate AllSupported(events: seq<Event>) {
    forall i :: 0 <= i < |events| ==> events[i].eventType in {"message", "error"}
  }

  lemma {:induction false} ScanStops(r: Bytes, b: Block, w: Buffers, first: bool)
    requires Abstracts(b, w)
    ensures var x := Scan(r, b, first);
      var lines := LinesFrom(r, first);
      && (AllUtf8(lines) && AllSupported(Events(lines, w)) <==>
            (x.outcome.Eof? || x.outcome.Truncated?
             || (x.outcome.Got? && AllUtf8(LinesFrom(x.rest, false))
                 && AllSupported(Events(LinesFrom(x.rest, false), Buffers([], [], x.id))))))
    decreases |r|
  {
    hide StripBom, LineOf, AfterLine, EolAt, LinesFrom, ValidUtf8, Feed, ProcessLine, Close, Dispatch, Abstracts, HasLine;
    LinesFromSplit(r, first);
    if HasLine(r) {
      var line := if first then StripBom(LineOf(r)) else LineOf(r);
      var rest := AfterLine(r);
      var lines := LinesFrom(r, first);
      var more := LinesFrom(rest, false);
      assert lines[0] == line && lines[1..] == more && lines == [line] + more;
      Utf8Split(line, more);
      if line == [] {
        AbstractsId(b, w);
        CloseStops(b, w);
        SupportedSplit(Dispatch(w), Events(more, Buffers([], [], w.lastId)));
      } else {
        FeedRefines(b, w, line);
        ScanStops(rest, Feed(b, line), ProcessLine(w, line), false);
      }
    }
  }

  lemma Utf8Split(line: Bytes, more: seq<Bytes>)
    ensures AllUtf8([line] + more) <==> ValidUtf8(line) && AllUtf8(more)
    ensures ValidUtf8([])
  {
    assert ([line] + more)[0] == line;
    if AllUtf8([line] + more) {
      forall i | 0 <= i < |more| ensures ValidUtf8(more[i]) {
        assert more[i] == ([line] + more)[i + 1];
      }
    }
  }

  lemma SupportedSplit(a: seq<Event>, b: seq<Event>)
    ensures AllSupported(a + b) <==> AllSupported(a) && AllSupported(b)
  {
    if AllSupported(a + b) {
      forall i | 0 <= i < |a| ensures a[i].eventType in {"message", "error"} {
        assert a[i] == (a + b)[i];
      }
      forall i | 0 <= i < |b| ensures b[i].eventType in {"message", "error"} {
        assert b[i] == (a + b)[|a| + i];
      }
    }
  }

  lemma CloseStops(b: Block, w: Buffers)
    requires Abstracts(b, w)
    ensures Close(b).Got? <==> AllSupported(Dispatch(w))
    ensures Close(b).Got? || Close(b).UnsupportedEvent?
  {
    if Dispatch(w) != [] {
      assert Dispatch(w)[0].eventType == if b.event == [] then "message" else b.event;
    }
  }

  /** Where the limit does not matter, a stream is read to its end exactly if these two hold of it. */
  lemma {:induction false} ReadToTheEndIff(r: Bytes, id: Bytes, first: bool, max: nat)
    requires |r| <= max
    ensures var end := Decode(r, id, first, max).end;
      var lines := LinesFrom(r, first);
      (end.Eof? || end.Truncated?) <==> (AllUtf8(lines) && AllSupported(Events(lines, Buffers([], [], id))))
    decreases |r|
  {
    hide Scan, Events, LinesFrom, AllUtf8, AllSupported;
    var x := Scan(r, Fresh(id), first);
    ScanStops(r, Fresh(id), Buffers([], [], id), first);
    if x.outcome.Got? {
      ReadToTheEndIff(x.rest, x.id, false, max);
    }
  }

  // ---- exactly where it stops --------------------------------------------------------------

  // The lines of the first block, with the empty line that closes it if there is one.
  function BlockLines(lines: seq<Bytes>): seq<Bytes> {
    if lines == [] then []
    else if lines[0] == [] then [[]]
    else [lines[0]] + BlockLines(lines[1..])
  }

  predicate Closed(block: seq<Bytes>) { block != [] && block[|block| - 1] == [] }

  lemma {:induction false} ScanOutcome(r: Bytes, b: Block, w: Buffers, first: bool)
    requires Abstracts(b, w)
    ensures var o := Scan(r, b, first).outcome;
      var block := BlockLines(LinesFrom(r, first));
      && (o.NotUtf8? <==> !AllUtf8(block))
      && (o.Eof? || o.Truncated? <==> AllUtf8(block) && !Closed(block))
      && (o.Got? <==> AllUtf8(block) && Closed(block) && AllSupported(Events(block, w)))
      && (o.UnsupportedEvent? <==> AllUtf8(block) && Closed(block) && !AllSupported(Events(block, w)))
    decreases |r|
  {
    hide StripBom, LineOf, AfterLine, EolAt, LinesFrom, ValidUtf8, Feed, ProcessLine, Close, Dispatch, Abstracts, HasLine, AllUtf8,
         AllSupported;
    LinesFromSplit(r, first);
    NoLines();
    if HasLine(r) {
      var line := if first then StripBom(LineOf(r)) else LineOf(r);
      var lines, more := LinesFrom(r, first), LinesFrom(AfterLine(r), false);
      assert lines[0] == line && lines[1..] == more;
      if line == [] {
        Utf8Split(line, []);
        assert BlockLines(lines) == [line] + [];
        CloseStops(b, w);
        LastOfBlock(w);
      } else {
        var block := BlockLines(more);
        Utf8Split(line, block);
        FeedRefines(b, w, line);
        ScanOutcome(AfterLine(r), Feed(b, line), ProcessLine(w, line), false);
        assert BlockLines(lines) == [line] + block && ([line] + block)[1..] == block;
      }
    }
  }

  lemma NoLines()
    ensures AllUtf8([]) && BlockLines([]) == []
  {
  }

  lemma LastOfBlock(w: Buffers)
    ensures Events([[]], w) == Dispatch(w)
  {
    var lines: seq<Bytes> := [[]];
    assert lines[1..] == [];
    assert Events(lines, w) == Dispatch(w) + Events([], Buffers([], [], w.lastId));
  }

  // Where a call starts: what is left of the stream, the cursor, and whether it is the very start.
  datatype Position = Position(rest: Bytes, id: Bytes, first: bool)

  function NextBlock(at: Position): Reading { Scan(at.rest, Fresh(at.id), at.first) }

  function AfterBlocks(at: Position, n: nat): Position
    decreases n
  {
    if n == 0 then at else AfterBlocks(Position(NextBlock(at).rest, NextBlock(at).id, false), n - 1)
  }

  function BlockAt(at: Position): seq<Bytes> { BlockLines(LinesFrom(at.rest, at.first)) }

  /** Why a call does not return a frame: the limit first, then the encoding of a line, then the end of the
      stream inside the block, then the type of the event. */
  ghost predicate StopsWith(at: Position, max: nat, end: Outcome) {
    if NextBlock(at).counted > max then end == TooLarge
    else if !AllUtf8(BlockAt(at)) then end == NotUtf8
    else if !Closed(BlockAt(at)) then end.Eof? || end.Truncated?
    else end == UnsupportedEvent && !AllSupported(Events(BlockAt(at), Buffers([], [], at.id)))
  }

  ghost predicate Passes(at: Position, max: nat) {
    && NextBlock(at).counted <= max && AllUtf8(BlockAt(at)) && Closed(BlockAt(at))
    && AllSupported(Events(BlockAt(at), Buffers([], [], at.id)))
  }

  lemma OneCall(at: Position, max: nat)
    ensures Limited(NextBlock(at), max).Got? <==> Passes(at, max)
    ensures !Passes(at, max) ==> StopsWith(at, max, Limited(NextBlock(at), max))
  {
    hide Scan, Events, LinesFrom, AllUtf8, AllSupported, Closed, BlockLines;
    ScanOutcome(at.rest, Fresh(at.id), Buffers([], [], at.id), at.first);
  }

  /** The decoder stops exactly at the first block that is over the limit, has a line that is not UTF-8, is
      not closed or is of an unsupported type, for that reason; it has yielded one frame for every block
      before, and the events of the Standard still missing are those from that block on. */
  lemma {:induction false} StopsExactly(at: Position, max: nat)
    ensures var d := Decode(at.rest, at.id, at.first, max);
      var stop := AfterBlocks(at, |d.frames|);
      && (forall k: nat :: k < |d.frames| ==> Passes(AfterBlocks(at, k), max))
      && !Passes(stop, max) && StopsWith(stop, max, d.end)
      && Events(LinesFrom(at.rest, at.first), Buffers([], [], at.id))
           == Dispatched(d.frames) + Events(LinesFrom(stop.rest, stop.first), Buffers([], [], stop.id))
    decreases |at.rest|
  {
    hide Scan, Events, LinesFrom, Dispatched, Passes, StopsWith;
    var x := NextBlock(at);
    OneCall(at, max);
    ScanRefines(at.rest, Fresh(at.id), Buffers([], [], at.id), at.first);
    NothingDispatched();
    if Limited(x, max).Got? {
      var next := Position(x.rest, x.id, false);
      var d := Decode(x.rest, x.id, false, max);
      StopsExactly(next, max);
      DispatchedSplit(x.outcome.frame, d.frames);
      assert Decode(at.rest, at.id, at.first, max) == Decoded([x.outcome.frame] + d.frames, d.end);
      forall k: nat | k < |d.frames| + 1 ensures Passes(AfterBlocks(at, k), max) {
        assert k > 0 ==> AfterBlocks(at, k) == AfterBlocks(next, k - 1);
      }
    }
  }

  // ---- the limit ---------------------------------------------------------------------------

  // The bytes after which a block is over are its own, but for the line feed of a final CR LF.
  ghost predicate FreeLf(r: Bytes, x: Reading) {
    x.counted == |r| - |x.rest|
    || (x.counted + 1 == |r| - |x.rest| && r[x.counted] == LF && x.counted > 0 && r[x.counted - 1] == CR)
  }

  lemma {:induction false} CountedBytes(r: Bytes, b: Block, first: bool)
    ensures var x := Scan(r, b, first);
      x.rest == r[|r| - |x.rest|..] && FreeLf(r, x)
    decreases |r|
  {
    hide StripBom, ValidUtf8, Feed, Close, LineOf, EolAt, AfterLine, HasLine, FreeLf;
    var x := Scan(r, b, first);
    if HasLine(r) {
      LineStep(r);
      var line := if first then StripBom(LineOf(r)) else LineOf(r);
      var rest := AfterLine(r);
      if ValidUtf8(line) && line != [] {
        CountedBytes(rest, Feed(b, line), false);
        FreeLfShift(r, rest, Scan(rest, Feed(b, line), false), x);
      } else {
        FreeLfAtLine(r, x);
      }
    } else {
      FreeLfAtEnd(r, x);
    }
  }

  lemma FreeLfAtEnd(r: Bytes, x: Reading)
    requires x.rest == [] && x.counted == |r|
    ensures FreeLf(r, x)
  {
  }

  lemma FreeLfAtLine(r: Bytes, x: Reading)
    requires HasLine(r) && x.rest == AfterLine(r) && x.counted == EolAt(r) + 1
    ensures FreeLf(r, x)
  {
  }

  lemma FreeLfShift(r: Bytes, rest: Bytes, y: Reading, x: Reading)
    requires |rest| <= |r| && rest == r[|r| - |rest|..] && |y.rest| <= |rest| && y.counted <= |rest|
    requires y.rest == rest[|rest| - |y.rest|..] && FreeLf(rest, y)
    requires x.rest == y.rest && x.counted == |r| - |rest| + y.counted
    ensures x.rest == r[|r| - |x.rest|..] && FreeLf(r, x)
  {
    var n := |r| - |rest|;
    assert 0 < y.counted ==> rest[y.counted - 1] == r[n + y.counted - 1];
    assert y.counted < |rest| ==> rest[y.counted] == r[n + y.counted];
    assert n + (|rest| - |y.rest|) == |r| - |x.rest|;
  }

  lemma LineStep(r: Bytes)
    requires HasLine(r)
    ensures var rest := AfterLine(r);
      && rest == r[|r| - |rest|..]
      && (|r| - |rest| == EolAt(r) + 1
          || (|r| - |rest| == EolAt(r) + 2 && r[EolAt(r)] == CR && r[EolAt(r) + 1] == LF))
    ensures |LineOf(r)| == EolAt(r)
  {
  }

  lemma FeedData(b: Block, line: Bytes)
    requires line != []
    ensures |Feed(b, line).data| <= |b.data| + |line|
  {
  }

  /** What a block accumulates never exceeds what is counted, and that never exceeds the limit. */
  lemma {:induction false} DataWithinCount(r: Bytes, b: Block, first: bool)
    ensures var x := Scan(r, b, first);
      x.outcome.Got? ==> |x.outcome.frame.data| <= |b.data| + x.counted
    decreases |r|
  {
    hide ValidUtf8, Feed, LineOf, EolAt;
    if HasLine(r) {
      LineStep(r);
      var line := if first then StripBom(LineOf(r)) else LineOf(r);
      if ValidUtf8(line) && line != [] {
        FeedData(b, line);
        DataWithinCount(AfterLine(r), Feed(b, line), false);
      }
    }
  }

  lemma {:induction false} DataWithinLimit(r: Bytes, id: Bytes, first: bool, max: nat)
    ensures forall i :: 0 <= i < |Decode(r, id, first, max).frames| ==>
      |Decode(r, id, first, max).frames[i].data| <= max
    decreases |r|
  {
    hide Scan;
    var x := Scan(r, Fresh(id), first);
    DataWithinCount(r, Fresh(id), first);
    if Limited(x, max).Got? {
      DataWithinLimit(x.rest, x.id, false, max);
    }
  }

  // ---- the encoding of the line ends -------------------------------------------------------

  // What a block yields depends on the lines and the unfinished tail only.
  lemma {:induction false} ScanByLines(r: Bytes, s: Bytes, b: Block, first: bool)
    requires Lines(r) == Lines(s) && Tail(r) == Tail(s)
    ensures var x, y := Scan(r, b, first), Scan(s, b, first);
      && x.outcome == y.outcome && x.id == y.id && x.taken == y.taken
      && (x.outcome.Got? ==> Lines(x.rest) == Lines(y.rest) && Tail(x.rest) == Tail(y.rest))
      && (x.outcome.Got? ==> x.taken <= |Lines(r)| && Lines(x.rest) == Lines(r)[x.taken..])
    decreases |r|
  {
    hide StripBom, LineOf, AfterLine, EolAt, ValidUtf8, Feed, Close, HasLine;
    if HasLine(r) {
      assert Lines(r)[0] == LineOf(r) && Lines(r)[1..] == Lines(AfterLine(r));
      assert HasLine(s);
      assert Lines(s)[0] == LineOf(s) && Lines(s)[1..] == Lines(AfterLine(s));
      var line := if first then StripBom(LineOf(r)) else LineOf(r);
      if ValidUtf8(line) && line != [] {
        ScanByLines(AfterLine(r), AfterLine(s), Feed(b, line), false);
      }
    }
  }

  /** However the lines are ended, they give the same frames, unless the limit cuts one of the streams. */
  lemma {:induction false} SameLinesSameFrames(r: Bytes, s: Bytes, id: Bytes, first: bool, max: nat)
    requires Lines(r) == Lines(s) && Tail(r) == Tail(s)
    requires !Decode(r, id, first, max).end.TooLarge? && !Decode(s, id, first, max).end.TooLarge?
    ensures Decode(r, id, first, max) == Decode(s, id, first, max)
    decreases |r|
  {
    hide Scan, Lines, Tail;
    ScanByLines(r, s, Fresh(id), first);
    var x, y := Scan(r, Fresh(id), first), Scan(s, Fresh(id), first);
    if x.outcome.Got? && Limited(x, max).Got? && Limited(y, max).Got? {
      SameLinesSameFrames(x.rest, y.rest, x.id, false, max);
    }
  }

  /** With one byte to every line end the limit cannot tell them apart either. */
  lemma {:induction false} PlainEndingsAgree(r: Bytes, s: Bytes, id: Bytes, first: bool, max: nat)
    requires Lines(r) == Lines(s) && Tail(r) == Tail(s) && NoCrLf(r) && NoCrLf(s)
    ensures Decode(r, id, first, max) == Decode(s, id, first, max)
    decreases |r|
  {
    hide Scan, Lines, Tail, LinesCost;
    PlainScan(r, s, Fresh(id), first);
    ScanByLines(r, s, Fresh(id), first);
    var x, y := Scan(r, Fresh(id), first), Scan(s, Fresh(id), first);
    if Limited(x, max).Got? {
      CountedBytes(r, Fresh(id), first);
      CountedBytes(s, Fresh(id), first);
      PlainSuffix(r, |r| - |x.rest|);
      PlainSuffix(s, |s| - |y.rest|);
      PlainEndingsAgree(x.rest, y.rest, x.id, false, max);
    }
  }

  lemma PlainSuffix(r: Bytes, n: nat)
    requires NoCrLf(r) && n <= |r|
    ensures NoCrLf(r[n..])
  {
  }

  lemma {:induction false} PlainScan(r: Bytes, s: Bytes, b: Block, first: bool)
    requires Lines(r) == Lines(s) && Tail(r) == Tail(s) && NoCrLf(r) && NoCrLf(s)
    ensures Scan(r, b, first).counted == Scan(s, b, first).counted
    decreases |r|
  {
    hide StripBom, LineOf, AfterLine, EolAt, ValidUtf8, Feed, Close, HasLine, LinesCost, Tail;
    PlainLength(r);
    PlainLength(s);
    if HasLine(r) {
      assert Lines(r)[0] == LineOf(r) && Lines(r)[1..] == Lines(AfterLine(r));
      assert HasLine(s);
      assert Lines(s)[0] == LineOf(s) && Lines(s)[1..] == Lines(AfterLine(s));
      LineStep(r);
      LineStep(s);
      TailStep(r);
      TailStep(s);
      PlainSuffix(r, |r| - |AfterLine(r)|);
      PlainSuffix(s, |s| - |AfterLine(s)|);
      var line := if first then StripBom(LineOf(r)) else LineOf(r);
      if ValidUtf8(line) && line != [] {
        PlainScan(AfterLine(r), AfterLine(s), Feed(b, line), false);
      }
    }
  }

  lemma TailStep(r: Bytes)
    requires HasLine(r)
    ensures Tail(r) == Tail(AfterLine(r))
  {
  }

  lemma {:induction false} RoomEnough(r: Bytes, id: Bytes, first: bool, max: nat)
    requires |r| <= max
    ensures !Decode(r, id, first, max).end.TooLarge?
    decreases |r|
  {
    hide Scan;
    var x := Scan(r, Fresh(id), first);
    NoLimitInScan(r, Fresh(id), first);
    if x.outcome.Got? {
      RoomEnough(x.rest, x.id, false, max);
    }
  }

  lemma {:induction false} NoLimitInScan(r: Bytes, b: Block, first: bool)
    ensures !Scan(r, b, first).outcome.TooLarge?
    decreases |r|
  {
    hide StripBom, LineOf, EolAt, ValidUtf8, Feed, HasLine;
    if HasLine(r) {
      var line := if first then StripBom(LineOf(r)) else LineOf(r);
      if ValidUtf8(line) && line != [] {
        NoLimitInScan(AfterLine(r), Feed(b, line), false);
      }
    }
  }

  /** The same lines ended by LF, by CR LF, by CR, or by any mix of them that reads back unambiguously. */
  lemma EncodingsAgree(lines: seq<Bytes>, a: seq<Ending>, b: seq<Ending>, id: Bytes, max: nat)
    requires |lines| == |a| == |b| && Unambiguous(lines, a) && Unambiguous(lines, b)
    requires forall i :: 0 <= i < |lines| ==> NoEol(lines[i])
    requires |Encode(lines, a)| <= max && |Encode(lines, b)| <= max
    ensures Decode(Encode(lines, a), id, true, max) == Decode(Encode(lines, b), id, true, max)
  {
    hide Decode, Encode, Lines, Tail, Unambiguous;
    LinesOfEncode(lines, a);
    LinesOfEncode(lines, b);
    RoomEnough(Encode(lines, a), id, true, max);
    RoomEnough(Encode(lines, b), id, true, max);
    SameLinesSameFrames(Encode(lines, a), Encode(lines, b), id, true, max);
  }

  lemma UniformEndingsUnambiguous(lines: seq<Bytes>, e: Ending)
    ensures Unambiguous(lines, seq(|lines|, _ => e))
  {
  }
}
