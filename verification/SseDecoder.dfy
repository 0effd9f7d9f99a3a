/** The byte-at-a-time decoder of httpserver/sse_client_parser.go, reading a stream that ends. */
module SseDecoder {
  import opened SseText
  import opened SseStandard
  import opened SseFrames

  datatype LineResult = Line(text: Bytes) | AtEof(text: Bytes) | OverLimit

  // What is left to read once the line feed of a CR LF already acted upon is out of the way.
  function Pending(left: Bytes, skipLF: bool): Bytes {
    if skipLF && left != [] && left[0] == LF then left[1..] else left
  }

  // What that line feed costs: nothing after the CR that ended a block.
  function Owed(left: Bytes, skipLF: bool, blockLF: bool): nat {
    if skipLF && left != [] && left[0] == LF && !blockLF then 1 else 0
  }

  class Decoder {
    const input: Bytes
    const maxBytes: nat
    var pos: nat
    var id: Bytes
    var first: bool
    var skipLF: bool
    var blockLF: bool

    ghost predicate Valid()
      reads this
    {
      pos <= |input| && (blockLF ==> skipLF)
    }

    // Between two blocks only the free line feed can be outstanding.
    ghost predicate BetweenBlocks()
      reads this
    {
      Valid() && (skipLF ==> blockLF)
    }

    ghost function Left(): Bytes
      requires pos <= |input|
      reads this`pos
    {
      input[pos..]
    }

    ghost function View(): Bytes
      requires Valid()
      reads this
    {
      Pending(Left(), skipLF)
    }

    ghost function Due(): nat
      requires Valid()
      reads this
    {
      Owed(Left(), skipLF, blockLF)
    }

    constructor (reader: Bytes, limit: nat, initialId: Bytes)
      ensures BetweenBlocks() && input == reader && maxBytes == limit
      ensures View() == reader && id == initialId && first
    {
      input, maxBytes, pos := reader, limit, 0;
      id, first, skipLF, blockLF := initialId, true, false, false;
    }

    method ReadByte() returns (more: bool, b: char)
      requires pos <= |input|
      modifies this`pos
      ensures pos <= |input|
      ensures if more then old(Left()) == [b] + Left() && pos == old(pos) + 1 else old(Left()) == [] && pos == old(pos)
    {
      if pos == |input| {
        return false, LF;
      }
      b, pos := input[pos], pos + 1;
      return true, b;
    }

    method ReadLine(size0: nat) returns (r: LineResult, size: nat)
      requires Valid() && size0 <= maxBytes
      modifies this
      ensures Valid() && id == old(id) && first == old(first)
      ensures LineDone(old(View()), old(Due()) + size0, maxBytes, r, size, View(), Due())
      ensures r.Line? ==> !blockLF
    {
      hide LineDone, Partial, Pending, Owed, Left;
      size := size0;
      var line: Bytes := [];
      ghost var view, due := View(), Due();
      StartLine(Left());
      NothingSkipped(Left(), blockLF);
      while true
        invariant Valid() && id == old(id) && first == old(first)
        invariant skipLF ==> View() == view && Due() == due && line == [] && size == size0
        invariant !skipLF ==> Partial(view, line, Left()) && size == size0 + due + |line|
        invariant size <= maxBytes
        decreases |input| - pos
      {
        var more, b := ReadByte();
        if !more {
          NothingLeft(skipLF, blockLF);
          OnlyPart(view, due + size0, maxBytes, line, [], size, View(), Due());
          return AtEof(line), size;
        }
        NextByte(b, Left(), blockLF);
        if skipLF {
          skipLF := false;
          StartLine(view);
          if b == LF {
            if blockLF {
              blockLF := false;
              continue;
            }
            size := size + 1;
            if size > maxBytes {
              PastLimitAtOnce(view, due + size0, maxBytes, size, View(), Due());
              return OverLimit, size;
            }
            continue;
          }
        }
        blockLF := false;
        size := size + 1;
        if size > maxBytes {
          PastLimit(view, due + size0, maxBytes, line, b, Left(), size, View(), Due());
          return OverLimit, size;
        }
        if b == CR {
          skipLF := true;
          EndedLine(view, due + size0, maxBytes, line, b, Left(), size);
          return Line(line), size;
        } else if b == LF {
          EndedLine(view, due + size0, maxBytes, line, b, Left(), size);
          return Line(line), size;
        } else {
          GrowLine(view, line, b, Left());
          line := line + [b];
        }
      }
    }

    /** One block of the stream, within the limit. */
    method Next() returns (o: Outcome)
      requires BetweenBlocks()
      modifies this
      ensures o == Limited(Scan(old(View()), Fresh(old(id)), old(first)), maxBytes)
      ensures o.Got? ==>
        var x := Scan(old(View()), Fresh(old(id)), old(first));
        BetweenBlocks() && View() == x.rest && id == x.id && !first
      ensures o.Got? ==> |View()| < |old(View())|
    {
      hide Scan, LineCost, HasLine, AfterLine, Pending, StripBom, ValidUtf8, Feed, Close, Unmarked, Splits;
      var data: Bytes, event: Bytes, size: nat := [], [], 0;
      var hasData, hasComment := false, false;
      ghost var x := Scan(View(), Fresh(id), first);
      while true
        invariant Valid() && size <= maxBytes && |View()| <= |old(View())|
        invariant x.counted == size + Due() + Scan(View(), Block(data, event, hasData, hasComment, id), first).counted
        invariant SameEnd(x, Scan(View(), Block(data, event, hasData, hasComment, id), first))
        decreases |View()|
      {
        ghost var b := Block(data, event, hasData, hasComment, id);
        ScanStep(View(), b, first);
        var l;
        l, size := ReadLine(size);
        match l {
          case OverLimit => return TooLarge;
          case AtEof(text) => return if hasData || text != [] then Truncated else Eof;
          case Line(text) =>
            var line := Unmarked(text, first);
            first := false;
            if !ValidUtf8(line) {
              return NotUtf8;
            }
            if line == [] {
              blockLF := skipLF;
              o := Finish(data, event, hasData, hasComment);
              return;
            }
            data, event, hasData, hasComment := SetField(line, data, event, hasData, hasComment);
        }
      }
    }

    method Finish(data: Bytes, event: Bytes, hasData: bool, hasComment: bool) returns (o: Outcome)
      ensures o == Close(Block(data, event, hasData, hasComment, id))
    {
      if !hasData {
        return Got(Frame(if hasComment then Heartbeat else Other, [], []));
      }
      var kind := Data;
      match event {
        case "" =>
        case "message" =>
        case "error" => kind := Error;
        case _ => return UnsupportedEvent;
      }
      return Got(Frame(kind, id, TrimLf(data)));
    }

    method SetField(line: Bytes, data0: Bytes, event0: Bytes, hasData0: bool, hasComment0: bool)
        returns (data: Bytes, event: Bytes, hasData: bool, hasComment: bool)
      requires line != []
      modifies this`id
      ensures Block(data, event, hasData, hasComment, id) == Feed(Block(data0, event0, hasData0, hasComment0, old(id)), line)
    {
      hide ColonAt, FieldName, FieldValue;
      data, event, hasData, hasComment := data0, event0, hasData0, hasComment0;
      if line[0] == ':' {
        hasComment := true;
        return;
      }
      var value := FieldValue(line);
      match FieldName(line) {
        case "event" => event := value;
        case "data" =>
          hasData := true;
          data := data + value + [LF];
        case "id" =>
          if NUL !in value {
            id := value;
          }
        case _ =>
      }
    }

    /** The client's loop: every frame up to the first call that returns none. */
    method DecodeAll() returns (frames: seq<Frame>, end: Outcome)
      requires BetweenBlocks()
      modifies this
      ensures Decoded(frames, end) == Decode(old(View()), old(id), old(first), maxBytes)
    {
      hide Scan, Valid, View, Limited;
      frames := [];
      ghost var all := Decode(View(), id, first, maxBytes);
      while true
        invariant BetweenBlocks()
        invariant var d := Decode(View(), id, first, maxBytes); all == Decoded(frames + d.frames, d.end)
        decreases |View()|
      {
        ghost var was := View();
        ghost var d := Decode(View(), id, first, maxBytes);
        var o := Next();
        if !o.Got? {
          assert frames + [] == frames;
          return frames, o;
        }
        assert frames + d.frames == frames + [o.frame] + d.frames[1..];
        frames := frames + [o.frame];
      }
    }
  }

  // Two readings of one block from different points of it end alike.
  ghost predicate SameEnd(x: Reading, y: Reading) {
    x.outcome == y.outcome && x.rest == y.rest && x.id == y.id
  }

  lemma ScanStep(r: Bytes, b: Block, first: bool)
    ensures var x := Scan(r, b, first); x.counted >= LineCost(r)
    ensures !HasLine(r) ==>
      Scan(r, b, first) == Reading(if b.hasData || r != [] then Truncated else Eof, [], |r|, b.id, 0)
    ensures forall line, rest :: Splits(r, line, rest) ==> LineStep(r, b, Scan(r, b, first), Unmarked(line, first), |line|, rest)
  {
  }

  function Unmarked(line: Bytes, first: bool): Bytes { if first then StripBom(line) else line }

  ghost predicate LineStep(r: Bytes, b: Block, x: Reading, line: Bytes, width: nat, rest: Bytes) {
    if !ValidUtf8(line) then x.outcome == NotUtf8 && x.counted == width + 1
    else if line == [] then SameEnd(x, Reading(Close(b), rest, 0, b.id, 1)) && x.counted == width + 1
    else
      var y := Scan(rest, Feed(b, line), false);
      SameEnd(x, y) && x.counted == |r| - |rest| + y.counted
  }

  // The bytes up to the end of the first line, or of the stream.
  function LineCost(r: Bytes): nat {
    if HasLine(r) then EolAt(r) + 1 else |r|
  }

  ghost predicate Splits(r: Bytes, line: Bytes, rest: Bytes) {
    HasLine(r) && line == LineOf(r) && rest == AfterLine(r)
  }

  // A line read so far, and the bytes after it.
  ghost predicate Partial(view: Bytes, line: Bytes, left: Bytes) {
    view == line + left && NoEol(line)
  }

  lemma StartLine(view: Bytes)
    ensures Partial(view, [], view)
  {
    assert [] + view == view;
  }

  lemma NextByte(b: char, left: Bytes, blockLF: bool)
    ensures Pending([b] + left, true) == if b == LF then left else [b] + left
    ensures Owed([b] + left, true, blockLF) == if b == LF && !blockLF then 1 else 0
  {
  }

  lemma NothingSkipped(left: Bytes, blockLF: bool)
    ensures Pending(left, false) == left && Owed(left, false, blockLF) == 0
  {
  }

  lemma NothingLeft(skipLF: bool, blockLF: bool)
    ensures Pending([], skipLF) == [] && Owed([], skipLF, blockLF) == 0
  {
  }

  lemma GrowLine(view: Bytes, line: Bytes, b: char, left: Bytes)
    requires Partial(view, line, [b] + left) && !IsEol(b)
    ensures Partial(view, line + [b], left)
  {
  }

  // What one call leaves behind: `spent` was counted before the first byte of the line.
  ghost predicate LineDone(view: Bytes, spent: nat, max: nat, r: LineResult, size: nat, rest: Bytes, due: nat) {
    match r
    case Line(text) =>
      && Splits(view, text, rest) && |rest| < |view| && size == spent + |text| + 1 <= max
      && due + |text| + 1 == |view| - |rest|
    case AtEof(text) => !HasLine(view) && text == view && spent + |text| <= max
    case OverLimit => spent + LineCost(view) > max
  }

  lemma OnlyPart(view: Bytes, spent: nat, max: nat, line: Bytes, left: Bytes, size: nat, rest: Bytes, due: nat)
    requires Partial(view, line, left) && left == [] && size == spent + |line| <= max
    ensures LineDone(view, spent, max, AtEof(line), size, rest, due)
  {
    EolSkips(line, []);
    assert line + [] == line;
  }

  lemma PastLimitAtOnce(view: Bytes, spent: nat, max: nat, size: nat, rest: Bytes, due: nat)
    requires spent > max
    ensures LineDone(view, spent, max, OverLimit, size, rest, due)
  {
  }

  lemma PastLimit(view: Bytes, spent: nat, max: nat, line: Bytes, b: char, left: Bytes, size: nat, rest: Bytes, due: nat)
    requires Partial(view, line, [b] + left) && spent + |line| + 1 > max
    ensures LineDone(view, spent, max, OverLimit, size, rest, due)
  {
    EolSkips(line, [b] + left);
  }

  // A line, its ending and the rest, where the line feed of a CR LF is still to be read.
  lemma EndedLine(view: Bytes, spent: nat, max: nat, line: Bytes, b: char, left: Bytes, size: nat)
    requires Partial(view, line, [b] + left) && IsEol(b) && size == spent + |line| + 1 <= max
    ensures LineDone(view, spent, max, Line(line), size, Pending(left, b == CR), Owed(left, b == CR, false))
    ensures b != CR ==> Pending(left, false) == left && Owed(left, false, false) == 0
  {
    EolSkips(line, [b] + left);
    assert view[|line| + 1..] == left;
    if left != [] {
      assert view[|line| + 1] == left[0];
      assert view[|line| + 2..] == left[1..];
    }
  }
}
