/** Bytes of an event stream: line splitting and the UTF-8 check. A byte is a character below 256. */
module SseText {
  type Bytes = string

  const CR: char := '\r'
  const LF: char := '\n'
  const BOM: Bytes := [0xEF as char, 0xBB as char, 0xBF as char]

  // ---- lines: ended by LF, CR LF, or CR alone (section 9.2.5 of the WHATWG HTML Standard) -----

  predicate IsEol(c: char) { c == CR || c == LF }

  predicate NoEol(s: Bytes) { forall i :: 0 <= i < |s| ==> !IsEol(s[i]) }

  function EolAt(s: Bytes): (e: nat)
    ensures e <= |s| && NoEol(s[..e]) && (e < |s| ==> IsEol(s[e]))
  {
    if s == [] || IsEol(s[0]) then 0 else 1 + EolAt(s[1..])
  }

  predicate HasLine(s: Bytes) { EolAt(s) < |s| }

  function LineOf(s: Bytes): Bytes { s[..EolAt(s)] }

  predicate EndsCrLf(s: Bytes)
    requires HasLine(s)
  {
    s[EolAt(s)] == CR && EolAt(s) + 1 < |s| && s[EolAt(s) + 1] == LF
  }

  function AfterLine(s: Bytes): (rest: Bytes)
    requires HasLine(s)
    ensures |rest| < |s|
  {
    s[EolAt(s) + (if EndsCrLf(s) then 2 else 1)..]
  }

  function Lines(s: Bytes): seq<Bytes>
    decreases |s|
  {
    if HasLine(s) then [LineOf(s)] + Lines(AfterLine(s)) else []
  }

  // What follows the last complete line.
  function Tail(s: Bytes): Bytes
    decreases |s|
  {
    if HasLine(s) then Tail(AfterLine(s)) else s
  }

  lemma {:induction false} EolSkips(line: Bytes, rest: Bytes)
    requires NoEol(line)
    ensures EolAt(line + rest) == |line| + EolAt(rest)
  {
    if line == [] {
      assert line + rest == rest;
    } else {
      assert (line + rest)[1..] == line[1..] + rest;
      EolSkips(line[1..], rest);
    }
  }

  // A line, the byte that ends it, and what follows.
  lemma SplitLine(line: Bytes, eol: char, rest: Bytes)
    requires NoEol(line) && IsEol(eol) && !(eol == CR && rest != [] && rest[0] == LF)
    ensures HasLine(line + [eol] + rest) && EolAt(line + [eol] + rest) == |line|
    ensures LineOf(line + [eol] + rest) == line && AfterLine(line + [eol] + rest) == rest
    ensures (line + [eol] + rest)[|line|] == eol
  {
    var s := line + [eol] + rest;
    assert s == line + ([eol] + rest);
    EolSkips(line, [eol] + rest);
    if |line| + 1 < |s| {
      assert s[|line| + 1] == rest[0];
    }
  }

  datatype Ending = WithLf | WithCrLf | WithCr

  function EndingText(e: Ending): Bytes {
    match e case WithLf => [LF] case WithCrLf => [CR, LF] case WithCr => [CR]
  }

  function Encode(lines: seq<Bytes>, ends: seq<Ending>): Bytes
    requires |lines| == |ends|
  {
    if lines == [] then [] else lines[0] + EndingText(ends[0]) + Encode(lines[1..], ends[1..])
  }

  // A lone CR must not be followed by a LF, or the two would be read as one ending.
  predicate Unambiguous(lines: seq<Bytes>, ends: seq<Ending>)
    requires |lines| == |ends|
  {
    forall i :: 0 <= i < |lines| - 1 && ends[i].WithCr? && lines[i + 1] == [] ==> !ends[i + 1].WithLf?
  }

  /** Splitting inverts joining, however the endings are mixed. */
  lemma {:induction false} LinesOfEncode(lines: seq<Bytes>, ends: seq<Ending>)
    requires |lines| == |ends| && (forall i :: 0 <= i < |lines| ==> NoEol(lines[i])) && Unambiguous(lines, ends)
    ensures Lines(Encode(lines, ends)) == lines && Tail(Encode(lines, ends)) == []
  {
    if lines != [] {
      var rest := Encode(lines[1..], ends[1..]);
      var s := lines[0] + (EndingText(ends[0]) + rest);
      assert Encode(lines, ends) == s;
      EolSkips(lines[0], EndingText(ends[0]) + rest);
      if |lines| > 1 {
        FirstByte(lines[1..], ends[1..]);
        assert Unambiguous(lines[1..], ends[1..]);
      }
      assert LineOf(s) == lines[0];
      assert AfterLine(s) == rest by {
        assert EndsCrLf(s) <==> ends[0].WithCrLf?;
      }
      LinesOfEncode(lines[1..], ends[1..]);
    }
  }

  lemma FirstByte(lines: seq<Bytes>, ends: seq<Ending>)
    requires |lines| == |ends| > 0 && NoEol(lines[0])
    ensures Encode(lines, ends) != []
    ensures Encode(lines, ends)[0] == LF ==> lines[0] == [] && ends[0].WithLf?
  {
    if lines[0] != [] {
      assert Encode(lines, ends)[0] == lines[0][0];
    } else {
      assert Encode(lines, ends)[0] == EndingText(ends[0])[0];
    }
  }

  // No CR is followed by a LF.
  predicate NoCrLf(s: Bytes) { forall i :: 0 <= i < |s| - 1 && s[i] == CR ==> s[i + 1] != LF }

  function LinesCost(lines: seq<Bytes>): nat {
    if lines == [] then 0 else |lines[0]| + 1 + LinesCost(lines[1..])
  }

  // Where every ending is one byte long, the lines determine the length.
  lemma {:induction false} PlainLength(s: Bytes)
    requires NoCrLf(s)
    ensures |s| == LinesCost(Lines(s)) + |Tail(s)|
    decreases |s|
  {
    if HasLine(s) {
      PlainLength(AfterLine(s));
      assert Lines(s)[1..] == Lines(AfterLine(s));
    }
  }

  // ---- UTF-8 -----------------------------------------------------------------------------

  predicate Between(c: char, lo: int, hi: int) { lo <= c as int <= hi }

  predicate Cont(s: Bytes, i: nat) { i < |s| && Between(s[i], 0x80, 0xBF) }

  // The length of the well-formed sequence s starts with, zero if there is none.
  function Utf8Head(s: Bytes): (n: nat)
    requires s != []
    ensures n <= |s|
  {
    var c := s[0] as int;
    if c < 0x80 then 1
    else if 0xC2 <= c <= 0xDF then (if Cont(s, 1) then 2 else 0)
    else if c == 0xE0 then (if Cont(s, 1) && Between(s[1], 0xA0, 0xBF) && Cont(s, 2) then 3 else 0)
    else if c == 0xED then (if Cont(s, 1) && Between(s[1], 0x80, 0x9F) && Cont(s, 2) then 3 else 0)
    else if 0xE1 <= c <= 0xEF then (if Cont(s, 1) && Cont(s, 2) then 3 else 0)
    else if c == 0xF0 then (if Cont(s, 1) && Between(s[1], 0x90, 0xBF) && Cont(s, 2) && Cont(s, 3) then 4 else 0)
    else if c == 0xF4 then (if Cont(s, 1) && Between(s[1], 0x80, 0x8F) && Cont(s, 2) && Cont(s, 3) then 4 else 0)
    else if 0xF1 <= c <= 0xF3 then (if Cont(s, 1) && Cont(s, 2) && Cont(s, 3) then 4 else 0)
    else 0
  }

  predicate ValidUtf8(s: Bytes)
    decreases |s|
  {
    s == [] || (Utf8Head(s) > 0 && ValidUtf8(s[Utf8Head(s)..]))
  }

  predicate Ascii(s: Bytes) { forall i :: 0 <= i < |s| ==> (s[i] as int) < 0x80 }

  /** An ASCII prefix neither makes nor breaks validity. */
  lemma {:induction false} AsciiPrefix(a: Bytes, s: Bytes)
    requires Ascii(a)
    ensures ValidUtf8(a + s) <==> ValidUtf8(s)
  {
    if a == [] {
      assert a + s == s;
    } else {
      AsciiPrefix(a[1..], s);
      assert (a + s)[1..] == a[1..] + s;
      assert Utf8Head(a + s) == 1;
    }
  }
}
