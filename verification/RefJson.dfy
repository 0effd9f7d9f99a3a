/** JSON texts (RFC 8259) of flat objects with string values, as refs/values.go reads and writes them.
    A text is a sequence of Unicode scalar values. */
module RefJson {
  import opened Options

  // ---- strings ---------------------------------------------------------------------------

  function HexValue(c: char): (d: Option<nat>)
    ensures d.Some? ==> d.value < 16
  {
    if '0' <= c <= '9' then Some(c as int - '0' as int)
    else if 'a' <= c <= 'f' then Some(c as int - 'a' as int + 10)
    else if 'A' <= c <= 'F' then Some(c as int - 'A' as int + 10)
    else None
  }

  // Four hexadecimal digits: a UTF-16 code unit.
  function Hex4(s: string): (u: Option<nat>)
    ensures u.Some? ==> u.value < 0x10000 && |s| >= 4
  {
    if |s| < 4 then None
    else
      var a, b, c, d := HexValue(s[0]), HexValue(s[1]), HexValue(s[2]), HexValue(s[3]);
      if a.Some? && b.Some? && c.Some? && d.Some?
      then Some(((a.value * 16 + b.value) * 16 + c.value) * 16 + d.value) else None
  }

  predicate High(u: nat) { 0xD800 <= u <= 0xDBFF }

  predicate Low(u: nat) { 0xDC00 <= u <= 0xDFFF }

  function Paired(high: nat, low: nat): char
    requires High(high) && Low(low)
  {
    (0x10000 + (high - 0xD800) * 0x400 + (low - 0xDC00)) as char
  }

  // What a one-letter escape stands for.
  function Short(c: char): Option<char> {
    match c
    case '"' => Some('"')
    case '\\' => Some('\\')
    case '/' => Some('/')
    case 'b' => Some('\U{8}')
    case 'f' => Some('\U{C}')
    case 'n' => Some('\n')
    case 'r' => Some('\r')
    case 't' => Some('\t')
    case _ => None
  }

  // The character after a backslash, and how many places it takes.
  function Escape(s: string): (r: Option<(char, nat)>)
    ensures r.Some? ==> 0 < r.value.1 <= |s|
  {
    if s == "" then None
    else if s[0] != 'u' then (if Short(s[0]).Some? then Some((Short(s[0]).value, 1)) else None)
    else match Hex4(s[1..])
      case None => None
      case Some(u) =>
        if Low(u) then None
        else if !High(u) then Some((u as char, 5))
        else if |s| < 7 || s[5] != '\\' || s[6] != 'u' then None
        else match Hex4(s[7..])
          case None => None
          case Some(low) => if Low(low) then Some((Paired(u, low), 11)) else None
  }

  // A string after its opening quote: its value, and what follows the closing quote.
  function Body(s: string): (r: Option<(string, string)>)
    ensures r.Some? ==> |r.value.1| < |s|
    decreases |s|
  {
    if s == "" || s[0] < ' ' then None
    else if s[0] == '"' then Some(("", s[1..]))
    else if s[0] == '\\' then
      match Escape(s[1..])
      case None => None
      case Some(e) =>
        match Body(s[1 + e.1..])
        case None => None
        case Some(more) => Some(([e.0] + more.0, more.1))
    else match Body(s[1..])
      case None => None
      case Some(more) => Some(([s[0]] + more.0, more.1))
  }

  // ---- objects ---------------------------------------------------------------------------

  predicate IsSpace(c: char) { c == ' ' || c == '\t' || c == '\n' || c == '\r' }

  function SkipSpace(s: string): (r: string)
    ensures |r| <= |s|
  {
    if s != "" && IsSpace(s[0]) then SkipSpace(s[1..]) else s
  }

  // A character, after any space.
  function Take(c: char, s: string): (r: Option<string>)
    ensures r.Some? ==> |r.value| < |s|
  {
    var t := SkipSpace(s);
    if t != "" && t[0] == c then Some(t[1..]) else None
  }

  function Str(s: string): (r: Option<(string, string)>)
    ensures r.Some? ==> |r.value.1| < |s|
  {
    match Take('"', s) case None => None case Some(t) => Body(t)
  }

  type Pair = (string, string)

  // A member with its colon.
  function Member(s: string): (r: Option<(Pair, string)>)
    ensures r.Some? ==> |r.value.1| < |s|
  {
    match Str(s)
    case None => None
    case Some(k) =>
      match Take(':', k.1)
      case None => None
      case Some(t) =>
        match Str(t)
        case None => None
        case Some(v) => Some(((k.0, v.0), v.1))
  }

  // The members up to and including the closing brace.
  function Members(s: string): (r: Option<(seq<Pair>, string)>)
    ensures r.Some? ==> |r.value.1| < |s| && r.value.0 != []
    decreases |s|
  {
    match Member(s)
    case None => None
    case Some(m) =>
      match Take('}', m.1)
      case Some(rest) => Some(([m.0], rest))
      case None =>
        match Take(',', m.1)
        case None => None
        case Some(t) =>
          match Members(t)
          case None => None
          case Some(more) => Some(([m.0] + more.0, more.1))
  }

  /** The members of a text that is one object with string values and nothing else, in their order. */
  function Pairs(data: string): Option<seq<Pair>> {
    match Take('{', data)
    case None => None
    case Some(s) =>
      match Take('}', s)
      case Some(rest) => if SkipSpace(rest) == "" then Some([]) else None
      case None =>
        match Members(s)
        case None => None
        case Some(ms) => if SkipSpace(ms.1) == "" then Some(ms.0) else None
  }

  // ---- writing ---------------------------------------------------------------------------

  function HexDigit(d: nat): (c: char)
    requires d < 16
    ensures HexValue(c) == Some(d)
  {
    if d < 10 then ('0' as int + d) as char else ('a' as int + d - 10) as char
  }

  // \u00XX, \u2028 and \u2029.
  function UnicodeEscape(u: nat): string
    requires u < 0x10000
  {
    ['\\', 'u', HexDigit(u / 4096), HexDigit(u / 256 % 16), HexDigit(u / 16 % 16), HexDigit(u % 16)]
  }

  // encoding/json escapes what HTML could misread, too.
  function EncodeChar(c: char): (s: string)
    ensures 0 < |s| <= 6
  {
    if c == '"' then "\\\"" else if c == '\\' then "\\\\"
    else if c == '\U{8}' then "\\b" else if c == '\U{C}' then "\\f"
    else if c == '\n' then "\\n" else if c == '\r' then "\\r" else if c == '\t' then "\\t"
    else if c < ' ' || c == '<' || c == '>' || c == '&' || c == '\U{2028}' || c == '\U{2029}' then UnicodeEscape(c as int)
    else [c]
  }

  function EncodeBody(s: string): string {
    if s == "" then "" else EncodeChar(s[0]) + EncodeBody(s[1..])
  }

  function Quote(s: string): string { "\"" + EncodeBody(s) + "\"" }

  function EncodePair(p: Pair): string { Quote(p.0) + ":" + Quote(p.1) }

  function EncodeRest(ps: seq<Pair>): string {
    if ps == [] then "}" else "," + EncodePair(ps[0]) + EncodeRest(ps[1..])
  }

  function Encode(ps: seq<Pair>): string {
    if ps == [] then "{}" else "{" + EncodePair(ps[0]) + EncodeRest(ps[1..])
  }

  // ---- reading inverts writing -----------------------------------------------------------

  lemma UnicodeEscapeReads(u: nat, rest: string)
    requires u < 0x10000 && !High(u) && !Low(u)
    ensures Escape(UnicodeEscape(u)[1..] + rest) == Some((u as char, 5))
  {
    var s := UnicodeEscape(u)[1..] + rest;
    var h := s[1..];
    assert h[0] == HexDigit(u / 4096) && h[1] == HexDigit(u / 256 % 16) && h[2] == HexDigit(u / 16 % 16) && h[3] == HexDigit(u % 16);
    Digits(u);
  }

  // The UTF-16 code units of a supplementary character.
  function HighOf(c: char): nat
    requires c as int >= 0x10000
  {
    0xD800 + (c as int - 0x10000) / 0x400
  }

  function LowOf(c: char): nat
    requires c as int >= 0x10000
  {
    0xDC00 + (c as int - 0x10000) % 0x400
  }

  lemma HexReads(u: nat, rest: string)
    requires u < 0x10000
    ensures UnicodeEscape(u)[0] == '\\' && UnicodeEscape(u)[1] == 'u'
    ensures Hex4(UnicodeEscape(u)[2..] + rest) == Some(u)
  {
    var h := UnicodeEscape(u)[2..] + rest;
    assert h[0] == HexDigit(u / 4096) && h[1] == HexDigit(u / 256 % 16) && h[2] == HexDigit(u / 16 % 16) && h[3] == HexDigit(u % 16);
    Digits(u);
  }

  /** A character outside the basic plane is read from its pair of surrogate escapes. */
  lemma SurrogatePairReads(c: char, rest: string)
    requires c as int >= 0x10000
    ensures Escape(UnicodeEscape(HighOf(c))[1..] + UnicodeEscape(LowOf(c)) + rest) == Some((c, 11))
  {
    hide Hex4, UnicodeEscape;
    var high, low := HighOf(c), LowOf(c);
    var a, b := UnicodeEscape(high), UnicodeEscape(low);
    SixLong(high);
    SixLong(low);
    var s := a[1..] + b + rest;
    HexReads(high, b + rest);
    HexReads(low, rest);
    assert s[1..] == a[2..] + (b + rest);
    assert s[5] == b[0] && s[6] == b[1];
    assert s[7..] == b[2..] + rest;
  }

  lemma SixLong(u: nat)
    requires u < 0x10000
    ensures |UnicodeEscape(u)| == 6 && UnicodeEscape(u)[1] == 'u'
  {
  }

  /** A surrogate escape that is not part of such a pair is refused. */
  lemma LoneSurrogateRefused(u: nat, rest: string)
    requires u < 0x10000 && (High(u) || Low(u))
    ensures Escape(UnicodeEscape(u)[1..] + rest).Some? <==>
      High(u) && |rest| >= 6 && rest[0] == '\\' && rest[1] == 'u' && Hex4(rest[2..]).Some? && Low(Hex4(rest[2..]).value)
  {
    hide Hex4, UnicodeEscape;
    SixLong(u);
    HexReads(u, rest);
    var s := UnicodeEscape(u)[1..] + rest;
    assert s[1..] == UnicodeEscape(u)[2..] + rest;
    if |rest| >= 2 {
      assert s[5] == rest[0] && s[6] == rest[1] && s[7..] == rest[2..];
      HexNeedsFour(rest[2..]);
    }
  }

  lemma HexNeedsFour(s: string)
    ensures Hex4(s).Some? ==> |s| >= 4
  {
  }

  lemma Digits(u: nat)
    requires u < 0x10000
    ensures ((u / 4096 * 16 + u / 256 % 16) * 16 + u / 16 % 16) * 16 + u % 16 == u && u / 4096 < 16
  {
  }

  lemma CharReads(c: char, rest: string)
    ensures Body(EncodeChar(c) + rest) ==
      match Body(rest) case None => None case Some(more) => Some(([c] + more.0, more.1))
  {
    hide Hex4;
    var s := EncodeChar(c) + rest;
    if |EncodeChar(c)| == 1 {
      assert s[1..] == rest;
    } else if EncodeChar(c)[1] != 'u' {
      ShortReads(c, rest);
    } else {
      UnicodeReads(c, rest);
    }
  }

  lemma ShortReads(c: char, rest: string)
    requires |EncodeChar(c)| > 1 && EncodeChar(c)[1] != 'u'
    ensures var s := EncodeChar(c) + rest; s[0] == '\\' && Escape(s[1..]) == Some((c, 1)) && s[2..] == rest
  {
    var s := EncodeChar(c) + rest;
    assert s[1..][0] == EncodeChar(c)[1];
  }

  lemma UnicodeReads(c: char, rest: string)
    requires |EncodeChar(c)| > 1 && EncodeChar(c)[1] == 'u'
    ensures var s := EncodeChar(c) + rest; s[0] == '\\' && Escape(s[1..]) == Some((c, 5)) && s[6..] == rest
  {
    var s := EncodeChar(c) + rest;
    assert s[1..] == UnicodeEscape(c as int)[1..] + rest;
    UnicodeEscapeReads(c as int, rest);
  }

  lemma {:induction false} BodyReads(v: string, rest: string)
    ensures Body(EncodeBody(v) + "\"" + rest) == Some((v, rest))
  {
    if v == "" {
      assert EncodeBody(v) + "\"" + rest == "\"" + rest;
    } else {
      hide Body, EncodeChar;
      var more := EncodeBody(v[1..]) + "\"" + rest;
      assert EncodeBody(v) + "\"" + rest == EncodeChar(v[0]) + more;
      BodyReads(v[1..], rest);
      CharReads(v[0], more);
      assert v == [v[0]] + v[1..];
    }
  }

  lemma TakeFirst(c: char, s: string)
    requires !IsSpace(c)
    ensures Take(c, [c] + s) == Some(s)
    ensures forall d :: d != c ==> Take(d, [c] + s) == None
  {
    assert ([c] + s)[1..] == s;
  }

  lemma QuoteReads(v: string, rest: string)
    ensures Str(Quote(v) + rest) == Some((v, rest))
  {
    hide Body, EncodeBody;
    assert Quote(v) + rest == ['"'] + (EncodeBody(v) + "\"" + rest);
    TakeFirst('"', EncodeBody(v) + "\"" + rest);
    BodyReads(v, rest);
  }

  lemma PairReads(p: Pair, rest: string)
    ensures Member(EncodePair(p) + rest) == Some((p, rest))
  {
    hide Str, Take, Quote;
    assert EncodePair(p) + rest == Quote(p.0) + ([':'] + (Quote(p.1) + rest));
    QuoteReads(p.0, [':'] + (Quote(p.1) + rest));
    TakeFirst(':', Quote(p.1) + rest);
    QuoteReads(p.1, rest);
  }

  lemma {:induction false} MembersRead(ps: seq<Pair>)
    requires ps != []
    ensures Members(EncodePair(ps[0]) + EncodeRest(ps[1..])) == Some((ps, ""))
  {
    hide Member, EncodePair, Take;
    var rest := EncodeRest(ps[1..]);
    PairReads(ps[0], rest);
    if |ps| == 1 {
      TakeFirst('}', "");
      assert rest == ['}'] + "";
      assert ps == [ps[0]];
    } else {
      var t := EncodePair(ps[1]) + EncodeRest(ps[1..][1..]);
      assert rest == [','] + t;
      TakeFirst(',', t);
      MembersRead(ps[1..]);
      assert ps == [ps[0]] + ps[1..];
    }
  }

  lemma PairStarts(p: Pair, rest: string)
    ensures Take('}', EncodePair(p) + rest) == None
  {
    assert (EncodePair(p) + rest)[0] == '"';
  }

  /** Every member list is read back from its text, escapes, surrogates and all. */
  lemma EncodeReads(ps: seq<Pair>)
    ensures Pairs(Encode(ps)) == Some(ps)
  {
    hide Members, EncodePair;
    if ps == [] {
      assert "{}" == ['{'] + "}" && "}" == ['}'] + "";
      TakeFirst('{', "}");
      TakeFirst('}', "");
    } else {
      var s := EncodePair(ps[0]) + EncodeRest(ps[1..]);
      assert Encode(ps) == ['{'] + s;
      TakeFirst('{', s);
      PairStarts(ps[0], EncodeRest(ps[1..]));
      MembersRead(ps);
    }
  }
}
