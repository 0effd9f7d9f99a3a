/** Named opaque references (refs/values.go): what a collection may hold, and its JSON form. */
module RefValues {
  import opened Options
  import opened SortedNames
  import opened RefJson

  const MAX_ENTRIES: nat := 64
  const MAX_KEY_BYTES: nat := 64
  const MAX_ID_BYTES: nat := 256
  const MAX_JSON_BYTES: nat := 128 * 1024

  function Utf8Len(c: char): (n: nat)
    ensures 1 <= n <= 4
  {
    if c as int < 0x80 then 1 else if c as int < 0x800 then 2 else if c as int < 0x10000 then 3 else 4
  }

  // The size of a text in UTF-8.
  function Bytes(s: string): nat {
    if s == "" then 0 else Utf8Len(s[0]) + Bytes(s[1..])
  }

  // ---- what is valid ---------------------------------------------------------------------

  predicate IsLower(c: char) { 'a' <= c <= 'z' }

  predicate KeyChar(c: char) { IsLower(c) || '0' <= c <= '9' || c == '_' || c == '.' }

  // Lowercase segments, each begun by a letter, joined by dots.
  predicate ValidKey(key: string) {
    && 0 < |key| <= MAX_KEY_BYTES
    && (forall i :: 0 <= i < |key| ==> KeyChar(key[i]))
    && IsLower(key[0]) && (forall i :: 0 <= i < |key| - 1 && key[i] == '.' ==> IsLower(key[i + 1]))
    && key[|key| - 1] != '.'
  }

  method ValidReferenceKey(key: string) returns (ok: bool)
    ensures ok <==> ValidKey(key)
  {
    if |key| == 0 || |key| > MAX_KEY_BYTES {
      return false;
    }
    var segmentStart := true;
    for i := 0 to |key|
      invariant segmentStart <==> i == 0 || key[i - 1] == '.'
      invariant forall j :: 0 <= j < i ==> KeyChar(key[j])
      invariant i > 0 ==> IsLower(key[0])
      invariant forall j :: 0 <= j < i - 1 && key[j] == '.' ==> IsLower(key[j + 1])
    {
      var c := key[i];
      if segmentStart {
        if c < 'a' || c > 'z' {
          assert i > 0 ==> key[i - 1] == '.';
          return false;
        }
        segmentStart := false;
      } else if c == '.' {
        segmentStart := true;
      } else if !('a' <= c <= 'z') && !('0' <= c <= '9') && c != '_' {
        return false;
      }
    }
    return !segmentStart;
  }

  // Unicode's White_Space property.
  predicate UnicodeSpace(c: char) {
    var u := c as int;
    0x9 <= u <= 0xD || u == 0x20 || u == 0x85 || u == 0xA0 || u == 0x1680 || 0x2000 <= u <= 0x200A
    || u == 0x2028 || u == 0x2029 || u == 0x202F || u == 0x205F || u == 0x3000
  }

  predicate UnicodeControl(c: char) { c as int < 0x20 || 0x7F <= c as int < 0xA0 }

  predicate ValidId(id: string) {
    0 < Bytes(id) <= MAX_ID_BYTES && forall i :: 0 <= i < |id| ==> !UnicodeSpace(id[i]) && !UnicodeControl(id[i])
  }

  method ValidOpaqueId(id: string) returns (ok: bool)
    ensures ok <==> ValidId(id)
  {
    if Bytes(id) == 0 || Bytes(id) > MAX_ID_BYTES {
      return false;
    }
    for i := 0 to |id|
      invariant forall j :: 0 <= j < i ==> !UnicodeSpace(id[j]) && !UnicodeControl(id[j])
    {
      if UnicodeSpace(id[i]) || UnicodeControl(id[i]) {
        return false;
      }
    }
    return true;
  }

  type Entries = map<string, string>

  ghost predicate ValidValues(m: Entries) {
    |m| <= MAX_ENTRIES && forall k :: k in m ==> ValidKey(k) && ValidId(m[k])
  }

  // ---- lists of members ------------------------------------------------------------------

  predicate DistinctKeys(ps: seq<Pair>) {
    forall i, j :: 0 <= i < j < |ps| ==> ps[i].0 != ps[j].0
  }

  function ToMap(ps: seq<Pair>): Entries {
    if ps == [] then map[] else ToMap(ps[..|ps| - 1])[ps[|ps| - 1].0 := ps[|ps| - 1].1]
  }

  predicate ValidPair(p: Pair) { ValidKey(p.0) && ValidId(p.1) }

  ghost predicate ValidList(ps: seq<Pair>) {
    |ps| <= MAX_ENTRIES && DistinctKeys(ps) && forall i :: 0 <= i < |ps| ==> ValidPair(ps[i])
  }

  /** What a text must be to be accepted: small enough, one object, no key twice, everything valid. */
  ghost predicate Acceptable(data: string) {
    Bytes(data) <= MAX_JSON_BYTES && Pairs(data).Some? && ValidList(Pairs(data).value)
  }

  predicate HasKey(ps: seq<Pair>, k: string) { exists i :: 0 <= i < |ps| && ps[i].0 == k }

  lemma OneMorePair(ps: seq<Pair>, k: string)
    requires ps != []
    ensures HasKey(ps, k) <==> HasKey(ps[..|ps| - 1], k) || ps[|ps| - 1].0 == k
  {
    var init := ps[..|ps| - 1];
    if HasKey(init, k) {
      var i :| 0 <= i < |init| && init[i].0 == k;
      assert ps[i].0 == k;
    }
    if HasKey(ps, k) {
      var i :| 0 <= i < |ps| && ps[i].0 == k;
      assert i < |init| ==> init[i].0 == k;
    }
  }

  lemma {:induction false} MapOfPairs(ps: seq<Pair>)
    requires DistinctKeys(ps)
    ensures |ToMap(ps)| == |ps|
    ensures forall k :: k in ToMap(ps) <==> HasKey(ps, k)
    ensures forall i :: 0 <= i < |ps| ==> ps[i].0 in ToMap(ps) && ToMap(ps)[ps[i].0] == ps[i].1
  {
    if ps != [] {
      hide HasKey;
      var init, last := ps[..|ps| - 1], ps[|ps| - 1];
      MapOfPairs(init);
      forall k ensures k in ToMap(ps) <==> HasKey(ps, k) {
        OneMorePair(ps, k);
      }
      NewKey(ps);
      assert ToMap(ps).Keys == ToMap(init).Keys + {last.0};
      forall i | 0 <= i < |ps| ensures ps[i].0 in ToMap(ps) && ToMap(ps)[ps[i].0] == ps[i].1 {
        if i < |init| {
          assert init[i] == ps[i];
        }
      }
    }
  }

  lemma NewKey(ps: seq<Pair>)
    requires ps != [] && DistinctKeys(ps)
    ensures !HasKey(ps[..|ps| - 1], ps[|ps| - 1].0)
  {
  }

  /** Whatever is accepted obeys the rules for constructing a collection, and no member was dropped. */
  lemma AcceptedIsValid(data: string)
    requires Acceptable(data)
    ensures ValidValues(ToMap(Pairs(data).value)) && |ToMap(Pairs(data).value)| == |Pairs(data).value|
  {
    var ps := Pairs(data).value;
    MapOfPairs(ps);
  }

  // ---- the size of the written form ------------------------------------------------------

  lemma {:induction false} BytesConcat(a: string, b: string)
    ensures Bytes(a + b) == Bytes(a) + Bytes(b)
  {
    if a == "" {
      assert a + b == b;
    } else {
      assert (a + b)[1..] == a[1..] + b;
      BytesConcat(a[1..], b);
    }
  }

  lemma {:induction false} AsciiBytes(s: string)
    requires forall i :: 0 <= i < |s| ==> s[i] as int < 0x80
    ensures Bytes(s) == |s|
  {
    if s != "" {
      AsciiBytes(s[1..]);
    }
  }

  // No escape takes more than six bytes for each byte it replaces.
  lemma EncodedCharBytes(c: char)
    ensures Bytes(EncodeChar(c)) <= 6 * Utf8Len(c)
  {
    var s := EncodeChar(c);
    if |s| == 1 {
      assert s == [c];
      assert Bytes(s[1..]) == 0;
    } else {
      AsciiBytes(s);
    }
  }

  lemma {:induction false} EncodedBodyBytes(s: string)
    ensures Bytes(EncodeBody(s)) <= 6 * Bytes(s)
  {
    if s != "" {
      EncodedCharBytes(s[0]);
      EncodedBodyBytes(s[1..]);
      BytesConcat(EncodeChar(s[0]), EncodeBody(s[1..]));
    }
  }

  // A key needs no escapes at all.
  lemma {:induction false} EncodedKey(s: string)
    requires forall i :: 0 <= i < |s| ==> KeyChar(s[i])
    ensures EncodeBody(s) == s
  {
    if s != "" {
      EncodedKey(s[1..]);
      assert s == [s[0]] + s[1..];
    }
  }

  lemma QuotedBytes(s: string)
    ensures Bytes(Quote(s)) == Bytes(EncodeBody(s)) + 2
  {
    BytesConcat("\"", EncodeBody(s));
    BytesConcat("\"" + EncodeBody(s), "\"");
    AsciiBytes("\"");
  }

  const PAIR_BYTES: nat := (MAX_KEY_BYTES + 2) + 1 + (6 * MAX_ID_BYTES + 2)

  lemma EncodedPairBytes(p: Pair)
    requires ValidPair(p)
    ensures Bytes(EncodePair(p)) <= PAIR_BYTES
  {
    EncodedKey(p.0);
    AsciiBytes(p.0);
    QuotedBytes(p.0);
    QuotedBytes(p.1);
    EncodedBodyBytes(p.1);
    BytesConcat(Quote(p.0), ":");
    BytesConcat(Quote(p.0) + ":", Quote(p.1));
    AsciiBytes(":");
  }

  lemma {:induction false} EncodedRestBytes(ps: seq<Pair>, width: nat)
    requires forall i :: 0 <= i < |ps| ==> Bytes(EncodePair(ps[i])) < width
    ensures Bytes(EncodeRest(ps)) <= |ps| * width + 1
  {
    if ps == [] {
      AsciiBytes("}");
    } else {
      hide EncodePair;
      EncodedRestBytes(ps[1..], width);
      BytesConcat(",", EncodePair(ps[0]));
      BytesConcat("," + EncodePair(ps[0]), EncodeRest(ps[1..]));
      AsciiBytes(",");
      OneMore(|ps| - 1, width);
    }
  }

  lemma OneMore(n: nat, width: nat)
    ensures (n + 1) * width == n * width + width
  {
  }

  /** The written form of every valid collection is within the limit for reading. */
  lemma EncodingFits(ps: seq<Pair>)
    requires |ps| <= MAX_ENTRIES && forall i :: 0 <= i < |ps| ==> ValidPair(ps[i])
    ensures Bytes(Encode(ps)) <= MAX_JSON_BYTES
  {
    hide ValidPair, EncodePair;
    if ps == [] {
      AsciiBytes("{}");
    } else {
      forall i | 0 <= i < |ps| ensures Bytes(EncodePair(ps[i])) < PAIR_BYTES + 1 {
        EncodedPairBytes(ps[i]);
      }
      EncodedRestBytes(ps[1..], PAIR_BYTES + 1);
      BytesConcat("{", EncodePair(ps[0]));
      BytesConcat("{" + EncodePair(ps[0]), EncodeRest(ps[1..]));
      AsciiBytes("{");
    }
  }

  // ---- the round trip --------------------------------------------------------------------

  // A collection listed under its keys in order.
  ghost predicate Lists(ps: seq<Pair>, m: Entries) {
    && DistinctKeys(ps) && (forall i :: 0 <= i < |ps| ==> ps[i].0 in m && m[ps[i].0] == ps[i].1)
    && (forall k :: k in m ==> HasKey(ps, k))
  }

  lemma ListedMap(ps: seq<Pair>, m: Entries)
    requires Lists(ps, m)
    ensures ToMap(ps) == m && |m| == |ps|
  {
    MapOfPairs(ps);
    assert ToMap(ps).Keys == m.Keys;
  }

  /** Reading what was written for a valid collection gives it back, in whatever order it was listed. */
  lemma ValuesRoundTrip(ps: seq<Pair>, m: Entries)
    requires ValidValues(m) && Lists(ps, m)
    ensures Acceptable(Encode(ps)) && ToMap(Pairs(Encode(ps)).value) == m
  {
    ListedMap(ps, m);
    EncodeReads(ps);
    EncodingFits(ps);
  }
}
