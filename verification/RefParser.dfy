/** The parser and the constructors of refs/values.go as the code runs them. */
module RefParser {
  import opened Options
  import opened SortedNames
  import J = RefJson
  import opened RefValues

  datatype Result = Ok(entries: Entries) | Err

  class JsonParser {
    const data: string
    var pos: nat

    ghost predicate Valid()
      reads this
    {
      pos <= |data|
    }

    ghost function Left(): string
      requires Valid()
      reads this
    {
      data[pos..]
    }

    constructor (data: string)
      ensures Valid() && this.data == data && Left() == data && pos == 0
    {
      this.data, pos := data, 0;
    }

    method SkipSpace()
      requires Valid()
      modifies this
      ensures Valid() && pos >= old(pos) && Left() == J.SkipSpace(old(Left()))
    {
      while pos < |data| && J.IsSpace(data[pos])
        invariant Valid() && pos >= old(pos) && J.SkipSpace(Left()) == J.SkipSpace(old(Left()))
        decreases |data| - pos
      {
        assert Left()[1..] == data[pos + 1..];
        pos := pos + 1;
      }
    }

    method Take(c: char) returns (ok: bool)
      requires Valid()
      modifies this
      ensures Valid() && pos >= old(pos) && (ok <==> J.Take(c, old(Left())).Some?)
      ensures ok ==> Left() == J.Take(c, old(Left())).value && pos > old(pos) && data[pos - 1] == c
      ensures !ok ==> Left() == J.SkipSpace(old(Left()))
    {
      SkipSpace();
      if pos < |data| && data[pos] == c {
        assert Left()[1..] == data[pos + 1..];
        pos := pos + 1;
        return true;
      }
      return false;
    }

    // Four digits; the position after a failure does not matter.
    method HexUnit() returns (ok: bool, unit: nat)
      requires Valid()
      modifies this
      ensures Valid() && pos >= old(pos) && (ok <==> J.Hex4(old(Left())).Some?)
      ensures ok ==> unit == J.Hex4(old(Left())).value && pos == old(pos) + 4
    {
      unit := 0;
      ghost var s := Left();
      if pos + 4 > |data| {
        return false, 0;
      }
      ghost var start := pos;
      for i := 0 to 4
        invariant Valid() && pos == start + i
        invariant forall j :: 0 <= j < i ==> J.HexValue(s[j]).Some?
        invariant unit == Prefix4(s, i)
      {
        var d := J.HexValue(data[pos]);
        assert s[i] == data[pos];
        pos := pos + 1;
        if d.None? {
          return false, 0;
        }
        unit := unit * 16 + d.value;
      }
      AllFour(s);
      return true, unit;
    }

    // After a backslash.
    method ReadEscape() returns (ok: bool)
      requires Valid()
      modifies this
      ensures Valid() && pos >= old(pos) && (ok <==> J.Escape(old(Left())).Some?)
      ensures ok ==> pos == old(pos) + J.Escape(old(Left())).value.1
    {
      hide J.Hex4, J.Short;
      ghost var s := Left();
      if pos >= |data| {
        return false;
      }
      var escaped := data[pos];
      pos := pos + 1;
      assert s[1..] == Left();
      if escaped != 'u' {
        return J.Short(escaped).Some?;
      }
      var unit;
      ok, unit := HexUnit();
      if !ok {
        return false;
      }
      if J.High(unit) {
        if pos + 2 > |data| || data[pos] != '\\' || data[pos + 1] != 'u' {
          return false;
        }
        pos := pos + 2;
        assert s[7..] == Left();
        var low;
        ok, low := HexUnit();
        return ok && J.Low(low);
      }
      return !J.Low(unit);
    }

    method StringValue() returns (ok: bool, value: string)
      requires Valid()
      modifies this
      ensures Valid() && pos >= old(pos) && (ok <==> J.Str(old(Left())).Some?)
      ensures ok ==> value == J.Str(old(Left())).value.0 && Left() == J.Str(old(Left())).value.1 && pos > old(pos)
    {
      hide J.Body, J.Escape;
      value := "";
      ok := Take('"');
      if !ok {
        return;
      }
      var start := pos;
      ghost var body := Left();
      while pos < |data|
        invariant Valid() && start <= pos && Rest(body) == Rest(Left())
        decreases |data| - pos
      {
        var c := data[pos];
        ghost var left := Left();
        pos := pos + 1;
        assert left == [c] + Left() && left[1..] == Left();
        RestStep(c, Left());
        if c == '"' {
          LiteralBody(body, data[start..pos], Left());
          return true, J.Body(data[start..pos]).value.0;
        } else if c == '\\' {
          ghost var e := Left();
          ok := ReadEscape();
          if !ok {
            return;
          }
          assert e[J.Escape(e).value.1..] == Left();
        } else if c < ' ' {
          return false, "";
        }
      }
      NoBody(Left());
      return false, "";
    }
  }

  // The value of the first i of four digits.
  function Prefix4(s: string, i: nat): nat
    requires i <= 4 <= |s| && forall j :: 0 <= j < i ==> J.HexValue(s[j]).Some?
  {
    if i == 0 then 0 else Prefix4(s, i - 1) * 16 + J.HexValue(s[i - 1]).value
  }

  lemma AllFour(s: string)
    requires |s| >= 4 && forall j :: 0 <= j < 4 ==> J.HexValue(s[j]).Some?
    ensures J.Hex4(s) == Some(Prefix4(s, 4))
  {
    assert Prefix4(s, 1) == J.HexValue(s[0]).value;
    assert Prefix4(s, 2) == Prefix4(s, 1) * 16 + J.HexValue(s[1]).value;
    assert Prefix4(s, 3) == Prefix4(s, 2) * 16 + J.HexValue(s[2]).value;
  }

  // Where a string ends, if it does.
  function Rest(s: string): Option<string> {
    match J.Body(s) case None => None case Some(m) => Some(m.1)
  }

  lemma RestStep(c: char, t: string)
    ensures c == '"' ==> Rest([c] + t) == Some(t)
    ensures c < ' ' ==> Rest([c] + t) == None
    ensures c != '"' && c != '\\' && c >= ' ' ==> Rest([c] + t) == Rest(t)
    ensures c == '\\' ==> Rest([c] + t) == if J.Escape(t).Some? then Rest(t[J.Escape(t).value.1..]) else None
  {
    hide J.Escape;
    var s := [c] + t;
    assert s[1..] == t;
    if c == '\\' && J.Escape(t).Some? {
      assert s[1 + J.Escape(t).value.1..] == t[J.Escape(t).value.1..];
    }
  }

  lemma NoBody(s: string)
    requires s == ""
    ensures Rest(s) == None
  {
  }

  // An escape is read from its own characters alone.
  lemma EscapeAlone(s: string, rest: string)
    requires J.Escape(s + rest).Some? && J.Escape(s + rest).value.1 <= |s|
    ensures J.Escape(s) == J.Escape(s + rest)
  {
    var t := s + rest;
    assert t[0] == s[0];
    if s[0] == 'u' {
      assert t[1..][..4] == s[1..][..4];
      if |s| >= 11 {
        assert t[7..][..4] == s[7..][..4];
      }
    }
  }

  // And so is a whole literal.
  lemma {:induction false} LiteralAlone(s: string, rest: string)
    requires J.Body(s + rest).Some? && J.Body(s + rest).value.1 == rest
    ensures J.Body(s) == Some((J.Body(s + rest).value.0, ""))
    decreases |s|
  {
    hide J.Escape;
    var t := s + rest;
    assert s == "" ==> t == rest;
    if s == "" {
    } else if s[0] == '"' {
      assert t[1..] == rest;
      assert |s| == 1;
    } else if s[0] == '\\' {
      var n := J.Escape(t[1..]).value.1;
      assert t[1..] == s[1..] + rest;
      EnoughLeft(s, rest, n);
      EscapeAlone(s[1..], rest);
      assert t[1 + n..] == s[1 + n..] + rest;
      LiteralAlone(s[1 + n..], rest);
    } else {
      assert t[1..] == s[1..] + rest;
      LiteralAlone(s[1..], rest);
    }
  }

  lemma EnoughLeft(s: string, rest: string, n: nat)
    requires s != "" && 1 + n <= |s + rest| && J.Body((s + rest)[1 + n..]).Some? && J.Body((s + rest)[1 + n..]).value.1 == rest
    ensures 1 + n <= |s|
  {
  }

  lemma LiteralBody(body: string, literal: string, rest: string)
    requires body == literal + rest && Rest(body) == Some(rest)
    ensures J.Body(literal).Some? && J.Body(body).Some? && J.Body(literal).value.0 == J.Body(body).value.0
  {
    LiteralAlone(literal, rest);
  }

  // ---- whole texts -----------------------------------------------------------------------

  lemma {:induction false} SpaceSkipped(s: string)
    ensures J.SkipSpace(J.SkipSpace(s)) == J.SkipSpace(s)
    ensures forall c :: J.Take(c, J.SkipSpace(s)) == J.Take(c, s)
  {
    if s != "" && J.IsSpace(s[0]) {
      SpaceSkipped(s[1..]);
    }
  }

  // What is still to come, given what was read: the members of the rest follow those before.
  ghost predicate Remaining(all: string, done: seq<J.Pair>, rest: string) {
    match J.Members(rest)
    case None => J.Members(all) == None
    case Some(ms) => J.Members(all) == Some((done + ms.0, ms.1))
  }

  lemma RemainingStart(all: string)
    ensures Remaining(all, [], all)
  {
    if J.Members(all).Some? {
      assert [] + J.Members(all).value.0 == J.Members(all).value.0;
    }
  }

  lemma RemainingNext(all: string, done: seq<J.Pair>, rest: string, next: string)
    requires Remaining(all, done, rest) && J.Member(rest).Some?
    requires J.Take('}', J.Member(rest).value.1) == None && J.Take(',', J.Member(rest).value.1) == Some(next)
    ensures Remaining(all, done + [J.Member(rest).value.0], next)
  {
    if J.Members(next).Some? {
      var m, more := J.Member(rest).value.0, J.Members(next).value.0;
      assert done + ([m] + more) == done + [m] + more;
    }
  }

  // A list that begins with an unacceptable member is not acceptable.
  ghost predicate Rejects(done: seq<J.Pair>, p: J.Pair) {
    !ValidPair(p) || HasKey(done, p.0) || |done| >= MAX_ENTRIES
  }

  lemma RejectedMembers(all: string, done: seq<J.Pair>, rest: string)
    requires Remaining(all, done, rest) && J.Member(rest).Some? && Rejects(done, J.Member(rest).value.0)
    ensures J.Members(all).Some? ==> !ValidList(J.Members(all).value.0)
  {
    hide ValidPair;
    if J.Members(all).Some? {
      var ps, p := J.Members(all).value.0, J.Member(rest).value.0;
      assert J.Members(rest).Some? && J.Members(rest).value.0[0] == p;
      assert ps[|done|] == p;
      if HasKey(done, p.0) {
        var i :| 0 <= i < |done| && done[i].0 == p.0;
        assert ps[i] == done[i];
      }
    }
  }

  // The collection read so far.
  ghost predicate ReadSoFar(done: seq<J.Pair>, entries: Entries) {
    ValidList(done) && entries == ToMap(done)
  }

  lemma ReadOneMore(done: seq<J.Pair>, entries: Entries, p: J.Pair)
    requires ReadSoFar(done, entries) && !Rejects(done, p)
    ensures ReadSoFar(done + [p], entries[p.0 := p.1])
  {
    hide ValidPair;
    assert (done + [p])[..|done|] == done;
    forall i | 0 <= i < |done| ensures done[i].0 != p.0 {
      assert !HasKey(done, p.0);
    }
  }

  lemma ReadKeys(done: seq<J.Pair>, entries: Entries, k: string)
    requires ReadSoFar(done, entries)
    ensures k in entries <==> HasKey(done, k)
    ensures |entries| == |done|
  {
    MapOfPairs(done);
  }

  // One member: its key, the checks on it, its colon and its value.
  method ReadMember(p: JsonParser, ghost done: seq<J.Pair>, entries: Entries) returns (ok: bool, key: string, id: string)
    requires p.Valid() && ReadSoFar(done, entries)
    modifies p
    ensures p.Valid() && p.pos >= old(p.pos)
    ensures ok <==> J.Member(old(p.Left())).Some? && !Rejects(done, J.Member(old(p.Left())).value.0)
    ensures ok ==> (key, id) == J.Member(old(p.Left())).value.0 && p.Left() == J.Member(old(p.Left())).value.1 && p.pos > old(p.pos)
  {
    hide J.Str, J.Take, ToMap, ReadSoFar, ValidKey, ValidId, HasKey;
    id := "";
    ok, key := p.StringValue();
    if !ok {
      return;
    }
    ok := ValidReferenceKey(key);
    ReadKeys(done, entries, key);
    if !ok || key in entries || |entries| >= MAX_ENTRIES {
      return false, key, id;
    }
    ok := p.Take(':');
    if !ok {
      return;
    }
    ok, id := p.StringValue();
    if !ok {
      return;
    }
    ok := ValidOpaqueId(id);
  }

  /** Accepts exactly the acceptable texts, and gives their members as a map. */
  method DecodeJSON(data: string) returns (r: Result)
    ensures r.Ok? <==> Acceptable(data)
    ensures r.Ok? ==> r.entries == ToMap(J.Pairs(data).value)
  {
    hide J.Members, J.Member, J.Take, J.SkipSpace, Bytes, ValidPair, ValidList, ToMap, ReadSoFar;
    if Bytes(data) > MAX_JSON_BYTES {
      return Err;
    }
    var p := new JsonParser(data);
    var ok := p.Take('{');
    if !ok {
      return Err;
    }
    ghost var all := p.Left();
    SpaceSkipped(all);
    ok := p.Take('}');
    var entries: Entries := map[];
    ghost var ps: seq<J.Pair> := [];
    NothingRead();
    if !ok {
      ok, entries, ps := ReadMembers(p, all);
      if !ok {
        return Err;
      }
    }
    p.SkipSpace();
    if p.pos != |data| {
      assert p.Left() != "";
      return Err;
    }
    assert p.Left() == "";
    ReadDone(ps, entries);
    return Ok(entries);
  }

  lemma NothingRead()
    ensures ReadSoFar([], map[])
  {
  }

  lemma ReadDone(ps: seq<J.Pair>, entries: Entries)
    requires ReadSoFar(ps, entries)
    ensures ValidList(ps) && entries == ToMap(ps)
  {
  }

  lemma MembersEnd(all: string, done: seq<J.Pair>, rest: string)
    requires Remaining(all, done, rest) && J.Member(rest).Some?
    ensures J.Take('}', J.Member(rest).value.1).Some? ==>
      J.Members(all) == Some((done + [J.Member(rest).value.0], J.Take('}', J.Member(rest).value.1).value))
    ensures J.Take('}', J.Member(rest).value.1) == None && J.Take(',', J.Member(rest).value.1) == None ==> J.Members(all) == None
  {
  }

  lemma NoMember(all: string, done: seq<J.Pair>, rest: string)
    requires Remaining(all, done, rest) && J.Member(rest) == None
    ensures J.Members(all) == None
  {
  }

  method ReadMembers(p: JsonParser, ghost all: string) returns (ok: bool, entries: Entries, ghost ps: seq<J.Pair>)
    requires p.Valid() && p.Left() == J.SkipSpace(all)
    modifies p
    ensures p.Valid()
    ensures ok ==> J.Members(all) == Some((ps, p.Left())) && ReadSoFar(ps, entries)
    ensures !ok ==> J.Members(all) == None || !ValidList(J.Members(all).value.0)
  {
    hide J.Members, J.Member, J.Take, J.SkipSpace, ValidPair, ValidList, ToMap, ReadSoFar, Remaining, Rejects;
    entries, ps := map[], [];
    ghost var rest := all;
    RemainingStart(all);
    NothingRead();
    SpaceBefore(all);
    while true
      invariant p.Valid() && J.Member(p.Left()) == J.Member(rest)
      invariant Remaining(all, ps, rest) && ReadSoFar(ps, entries)
      decreases |p.data| - p.pos
    {
      var key, id;
      ok, key, id := ReadMember(p, ps, entries);
      if !ok {
        if J.Member(rest).Some? {
          RejectedMembers(all, ps, rest);
        } else {
          NoMember(all, ps, rest);
        }
        return;
      }
      ReadOneMore(ps, entries, (key, id));
      MembersEnd(all, ps, rest);
      ghost var after := p.Left();
      SpaceSkipped(after);
      entries := entries[key := id];
      ok := p.Take('}');
      if ok {
        ps := ps + [(key, id)];
        return;
      }
      ok := p.Take(',');
      if !ok {
        return;
      }
      RemainingNext(all, ps, rest, p.Left());
      ps, rest := ps + [(key, id)], p.Left();
    }
  }

  lemma SpaceBefore(s: string)
    ensures J.Member(J.SkipSpace(s)) == J.Member(s)
  {
    SpaceSkipped(s);
  }

  // ---- constructing and writing ----------------------------------------------------------

  // The keys, collected in an arbitrary order and then sorted.
  method SortedKeys(m: Entries) returns (keys: seq<string>)
    ensures Sorted(keys) && |keys| == |m| && (forall k :: k in keys <==> k in m)
    ensures forall i, j :: 0 <= i < j < |keys| ==> keys[i] != keys[j]
  {
    hide Sort, Sorted;
    var rest := m.Keys;
    var found: seq<string> := [];
    while rest != {}
      invariant rest <= m.Keys && |found| + |rest| == |m|
      invariant forall k :: k in m <==> k in rest || k in found
      invariant forall k :: k in found ==> k !in rest
      invariant forall i, j :: 0 <= i < j < |found| ==> found[i] != found[j]
      decreases |rest|
    {
      var k :| k in rest;
      rest, found := rest - {k}, found + [k];
    }
    keys := Sort(found);
    SortKeeps(found);
    assert |multiset(keys)| == |multiset(found)|;
    forall k ensures k in keys <==> k in found {
      assert multiset(keys)[k] == multiset(found)[k];
    }
    StillDistinct(found, keys);
  }

  lemma {:induction false} OnceEach(s: seq<string>)
    ensures (forall i, j :: 0 <= i < j < |s| ==> s[i] != s[j]) <==> (forall x :: multiset(s)[x] <= 1)
  {
    if s != [] {
      var init, last := s[..|s| - 1], s[|s| - 1];
      OnceEach(init);
      assert s == init + [last];
      assert multiset(s) == multiset(init) + multiset{last};
      if forall i, j :: 0 <= i < j < |s| ==> s[i] != s[j] {
        assert last !in init;
        assert multiset(init)[last] == 0;
      }
      if forall x :: multiset(s)[x] <= 1 {
        assert multiset(s)[last] == multiset(init)[last] + 1;
        assert forall x :: multiset(init)[x] <= multiset(s)[x];
        assert last !in multiset(init);
        assert forall i :: 0 <= i < |init| ==> init[i] in multiset(init);
      }
    }
  }

  lemma StillDistinct(s: seq<string>, t: seq<string>)
    requires multiset(s) == multiset(t) && forall i, j :: 0 <= i < j < |s| ==> s[i] != s[j]
    ensures forall i, j :: 0 <= i < j < |t| ==> t[i] != t[j]
  {
    OnceEach(s);
    OnceEach(t);
  }

  /** A collection is made of exactly the inputs that are valid, and holds what they hold. */
  method NewValues(input: Entries) returns (r: Result)
    ensures r.Ok? <==> ValidValues(input)
    ensures r.Ok? ==> r.entries == input
  {
    hide ValidKey, ValidId, Sorted;
    if |input| > MAX_ENTRIES {
      return Err;
    }
    var keys := SortedKeys(input);
    for i := 0 to |keys|
      invariant forall j :: 0 <= j < i ==> ValidKey(keys[j])
    {
      var ok := ValidReferenceKey(keys[i]);
      if !ok {
        assert keys[i] in input;
        return Err;
      }
    }
    r := CopyEntries(keys, input);
  }

  method CopyEntries(keys: seq<string>, input: Entries) returns (r: Result)
    requires forall k :: k in keys <==> k in input
    ensures r.Ok? <==> forall k :: k in input ==> ValidId(input[k])
    ensures r.Ok? ==> r.entries == input
  {
    hide ValidId;
    var entries: Entries := map[];
    for i := 0 to |keys|
      invariant forall k :: k in entries <==> k in keys[..i]
      invariant forall k :: k in entries ==> k in input && entries[k] == input[k] && ValidId(input[k])
    {
      assert keys[i] in input;
      var ok := ValidOpaqueId(input[keys[i]]);
      if !ok {
        return Err;
      }
      assert keys[..i + 1] == keys[..i] + [keys[i]];
      entries := entries[keys[i] := input[keys[i]]];
    }
    assert keys[..|keys|] == keys;
    assert entries == input;
    return Ok(entries);
  }

  // The text of a collection, its members in the order of their keys.
  ghost predicate Writes(out: string, m: Entries) {
    exists ps :: Lists(ps, m) && InKeyOrder(ps) && out == J.Encode(ps)
  }

  /** The JSON form, which reading gives back as the same collection. */
  method MarshalJSON(m: Entries) returns (out: string)
    ensures Writes(out, m)
    ensures ValidValues(m) ==> Acceptable(out) && ToMap(J.Pairs(out).value) == m
  {
    hide J.Encode, Sorted, InKeyOrder, Less, ValidValues, Acceptable, ToMap, Lists;
    var keys := SortedKeys(m);
    var members := seq(|keys|, i requires 0 <= i < |keys| => (keys[i], if keys[i] in m then m[keys[i]] else ""));
    ListsSorted(keys, members, m);
    if |m| == 0 {
      EncodeEmpty();
      assert members == [];
      out := "{}";
    } else {
      out := J.Encode(members);
    }
    if ValidValues(m) {
      ValuesRoundTrip(members, m);
    }
  }

  lemma ListsSorted(keys: seq<string>, ps: seq<J.Pair>, m: Entries)
    requires Sorted(keys) && (forall k :: k in keys <==> k in m) && |keys| == |ps|
    requires forall i, j :: 0 <= i < j < |keys| ==> keys[i] != keys[j]
    requires forall i :: 0 <= i < |ps| ==> ps[i] == (keys[i], if keys[i] in m then m[keys[i]] else "")
    ensures Lists(ps, m) && InKeyOrder(ps)
  {
    hide Less, Sorted;
    SortedInOrder(keys, ps);
    forall i | 0 <= i < |keys| ensures keys[i] in m {
      assert keys[i] in keys;
    }
    forall k | k in m ensures HasKey(ps, k) {
      assert k in keys;
      var i :| 0 <= i < |keys| && keys[i] == k;
      assert ps[i].0 == k;
    }
  }

  lemma SortedInOrder(keys: seq<string>, ps: seq<J.Pair>)
    requires Sorted(keys) && |keys| == |ps| && forall i :: 0 <= i < |ps| ==> ps[i].0 == keys[i]
    requires forall i, j :: 0 <= i < j < |keys| ==> keys[i] != keys[j]
    ensures InKeyOrder(ps)
  {
    hide Less;
  }

  lemma EncodeEmpty()
    ensures J.Encode([]) == "{}"
  {
  }

  predicate InKeyOrder(ps: seq<J.Pair>) {
    forall i, j :: 0 <= i < j < |ps| ==> Less(ps[i].0, ps[j].0)
  }

  lemma KeysSorted(ps: seq<J.Pair>)
    requires InKeyOrder(ps)
    ensures Sorted(KeysOf(ps))
  {
    hide Less;
  }

  /** A collection has one such text, however its map is walked. */
  lemma ListingUnique(ps: seq<J.Pair>, qs: seq<J.Pair>, m: Entries)
    requires Lists(ps, m) && Lists(qs, m) && InKeyOrder(ps) && InKeyOrder(qs)
    ensures ps == qs
  {
    hide Less, Sorted, InKeyOrder, HasKey, DistinctKeys;
    var s, t := KeysOf(ps), KeysOf(qs);
    KeysSorted(ps);
    KeysSorted(qs);
    forall x ensures multiset(s)[x] == multiset(t)[x] {
      KeyCounts(ps, m, x);
      KeyCounts(qs, m, x);
    }
    assert multiset(s) == multiset(t);
    SortedUnique(s, t);
    forall i | 0 <= i < |ps| ensures ps[i] == qs[i] {
      assert s[i] == t[i];
    }
  }

  ghost function KeysOf(ps: seq<J.Pair>): (s: seq<string>)
    ensures |s| == |ps| && forall i :: 0 <= i < |s| ==> s[i] == ps[i].0
  {
    seq(|ps|, i requires 0 <= i < |ps| => ps[i].0)
  }

  lemma KeyCounts(ps: seq<J.Pair>, m: Entries, x: string)
    requires Lists(ps, m)
    ensures multiset(KeysOf(ps))[x] == if x in m then 1 else 0
  {
    var s := KeysOf(ps);
    OnceEach(s);
    if x in m {
      assert HasKey(ps, x);
      var i :| 0 <= i < |ps| && ps[i].0 == x;
      assert s[i] in multiset(s);
    } else {
      assert x !in s;
    }
  }
}
