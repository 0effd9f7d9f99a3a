/** Canonical amounts of money/money.go. A decimal is a coefficient and a power of ten. */
module Money {
  import opened Options
  import opened Decimals

  datatype Decimal = Decimal(coef: int, exp: int)

  const MAX_AMOUNT_LEN: nat := 64
  const MIN_EXPONENT: int := -18
  const MAX_EXPONENT: int := 30
  const MAX_DIGITS: nat := 38

  datatype Amount = Amount(decimal: Decimal, currency: string)

  datatype Error = TooLong | NotCanonical | NotANumber | InvalidAmount | InvalidCurrency | NegativeZero

  datatype Result<T> = Ok(value: T) | Err(error: Error)

  function Abs(x: int): nat { if x < 0 then -x else x }

  predicate ValidCurrency(c: string) {
    3 <= |c| <= 6 && forall i :: 0 <= i < |c| ==> 'A' <= c[i] <= 'Z'
  }

  predicate ValidAmount(d: Decimal) {
    MIN_EXPONENT <= d.exp <= MAX_EXPONENT && |FromNat(Abs(d.coef))| <= MAX_DIGITS
  }

  // ---- the canonical form ----------------------------------------------------------------

  // -?(0|[1-9][0-9]*)(\.[0-9]+)?
  datatype Form = Form(negative: bool, whole: string, fraction: string)

  predicate ValidForm(f: Form) {
    && AllDigits(f.whole) && AllDigits(f.fraction)
    && f.whole != "" && (f.whole[0] != '0' || |f.whole| == 1)
  }

  function Text(f: Form): string {
    (if f.negative then "-" else "") + f.whole + (if f.fraction == "" then "" else "." + f.fraction)
  }

  function DotAt(s: string): (k: nat)
    ensures k <= |s| && (forall i :: 0 <= i < k ==> s[i] != '.') && (k < |s| ==> s[k] == '.')
  {
    if s == "" || s[0] == '.' then 0 else 1 + DotAt(s[1..])
  }

  // The regular expression as a decision: the parts, if the text has the form.
  function Match(s: string): Option<Form> {
    var negative := s != "" && s[0] == '-';
    var rest := if negative then s[1..] else s;
    var k := DotAt(rest);
    var f := Form(negative, rest[..k], if k < |rest| then rest[k + 1..] else "");
    if ValidForm(f) && (k < |rest| ==> f.fraction != "") then Some(f) else None
  }

  lemma {:induction false} DotAfter(a: string, b: string)
    requires AllDigits(a) && (b == "" || b[0] == '.')
    ensures DotAt(a + b) == |a|
  {
    if a == "" {
      assert a + b == b;
    } else {
      assert (a + b)[1..] == a[1..] + b;
      DotAfter(a[1..], b);
    }
  }

  function Unsigned(f: Form): string { f.whole + (if f.fraction == "" then "" else "." + f.fraction) }

  lemma SignApart(f: Form)
    requires ValidForm(f)
    ensures Text(f) != "" && (Text(f)[0] == '-' <==> f.negative)
    ensures (if f.negative then Text(f)[1..] else Text(f)) == Unsigned(f)
  {
    if f.negative {
      assert Text(f) == "-" + Unsigned(f);
    } else {
      assert Text(f) == Unsigned(f);
      assert Unsigned(f)[0] == f.whole[0];
    }
  }

  lemma UnsignedParts(f: Form)
    requires ValidForm(f)
    ensures var rest, k := Unsigned(f), DotAt(Unsigned(f));
      && rest[..k] == f.whole && (k < |rest| <==> f.fraction != "") && (k < |rest| ==> rest[k + 1..] == f.fraction)
  {
    var tail := if f.fraction == "" then "" else "." + f.fraction;
    DotAfter(f.whole, tail);
    assert Unsigned(f)[|f.whole|..] == tail;
  }

  lemma TextMatches(f: Form)
    requires ValidForm(f)
    ensures Match(Text(f)) == Some(f)
  {
    hide Text, DotAt;
    SignApart(f);
    UnsignedParts(f);
  }

  lemma SplitAtDot(rest: string, k: nat, fraction: string)
    requires k <= |rest| && (k < |rest| ==> rest[k] == '.' && fraction == rest[k + 1..] && fraction != "")
    requires k == |rest| ==> fraction == ""
    ensures rest == rest[..k] + (if fraction == "" then "" else "." + fraction)
  {
    assert rest == rest[..k] + rest[k..];
    if k < |rest| {
      assert rest[k..] == "." + rest[k + 1..];
    }
  }

  lemma MatchedText(s: string)
    requires Match(s).Some?
    ensures ValidForm(Match(s).value) && Text(Match(s).value) == s
  {
    hide DotAt, ValidForm;
    var f := Match(s).value;
    var rest := if f.negative then s[1..] else s;
    SplitAtDot(rest, DotAt(rest), f.fraction);
    assert Unsigned(f) == rest;
    SignPut(f, s, rest);
  }

  lemma SignPut(f: Form, s: string, rest: string)
    requires Unsigned(f) == rest && (f.negative ==> s != "" && s[0] == '-' && rest == s[1..]) && (!f.negative ==> rest == s)
    ensures Text(f) == s
  {
    if f.negative {
      assert s == "-" + rest;
      assert Text(f) == "-" + Unsigned(f);
    } else {
      assert Text(f) == Unsigned(f);
    }
  }

  /** The decision recognises exactly the texts of the form, and takes them apart correctly. */
  lemma MatchIff(s: string, f: Form)
    ensures Match(s) == Some(f) <==> ValidForm(f) && s == Text(f)
  {
    hide Match, Text, ValidForm;
    if Match(s).Some? {
      MatchedText(s);
    }
    if ValidForm(f) && s == Text(f) {
      TextMatches(f);
    }
  }

  // The number a plain decimal text stands for: the digits without the point, scaled by the fraction.
  function DecimalOf(f: Form): Decimal
    requires ValidForm(f)
  {
    var n: int := ToNat(f.whole + f.fraction);
    Decimal(if f.negative then -n else n, -|f.fraction|)
  }

  // ---- the operations --------------------------------------------------------------------

  function New(d: Decimal, currency: string): Result<Amount> {
    if !ValidCurrency(currency) then Err(InvalidCurrency)
    else if !ValidAmount(d) then Err(InvalidAmount)
    else Ok(Amount(d, currency))
  }

  // On plain decimal texts; other notations are not part of this model.
  function Parse(s: string, currency: string): Result<Amount> {
    if |s| > MAX_AMOUNT_LEN then Err(TooLong)
    else match Match(s)
      case None => Err(NotANumber)
      case Some(f) => New(DecimalOf(f), currency)
  }

  function ParseCanonical(s: string, currency: string): Result<Amount> {
    if |s| > MAX_AMOUNT_LEN then Err(TooLong)
    else if Match(s).None? then Err(NotCanonical)
    else
      var r := Parse(s, currency);
      if r.Ok? && r.value.decimal.coef == 0 && s[0] == '-' then Err(NegativeZero) else r
  }

  // With the scale of the amount, trailing zeros included.
  function Format(d: Decimal): string {
    if d.exp < 0 then
      var digits, k := FromNat(Abs(d.coef)), -d.exp;
      var body :=
        if |digits| > k then digits[..|digits| - k] + "." + digits[|digits| - k..]
        else "0." + Zeros(k - |digits|) + digits;
      if d.coef < 0 then "-" + body else body
    else
      var body := FromNat(Abs(d.coef) * Pow10(d.exp));
      if d.coef < 0 then "-" + body else body
  }

  // ---- canonical means one text per number -----------------------------------------------

  // The parts Format puts together.
  function Shape(d: Decimal): (f: Form)
    requires d.exp <= 0
    ensures ValidForm(f)
  {
    var digits, k := FromNat(Abs(d.coef)), -d.exp;
    FirstDigit(Abs(d.coef));
    if |digits| > k then Form(d.coef < 0, digits[..|digits| - k], digits[|digits| - k..])
    else Form(d.coef < 0, "0", Zeros(k - |digits|) + digits)
  }

  lemma FirstDigit(n: nat)
    ensures FromNat(n)[0] != '0' || |FromNat(n)| == 1
  {
    FromNatFirst(n);
  }

  lemma FormatIsShape(d: Decimal)
    requires d.exp <= 0
    ensures Format(d) == Text(Shape(d))
  {
    var digits, k := FromNat(Abs(d.coef)), -d.exp;
    if k == 0 {
      assert Abs(d.coef) * Pow10(0) == Abs(d.coef);
      assert digits[..|digits| - 0] == digits && digits[|digits|..] == "";
    }
    assert "-" + ("0" + ("." + (Zeros(if |digits| > k then 0 else k - |digits|) + digits)))
        == "-" + ("0." + Zeros(if |digits| > k then 0 else k - |digits|) + digits);
  }

  lemma ShapeOfForm(f: Form)
    requires ValidForm(f) && (DecimalOf(f).coef == 0 ==> !f.negative)
    ensures Shape(DecimalOf(f)) == f
  {
    hide FromNat, ToNat;
    var s := f.whole + f.fraction;
    var d := DecimalOf(f);
    var digits, k := FromNat(ToNat(s)), |f.fraction|;
    assert Abs(d.coef) == ToNat(s);
    if f.whole[0] != '0' {
      FromNatToNat(s);
      assert s[..|f.whole|] == f.whole && s[|f.whole|..] == f.fraction;
    } else if f.fraction == "" {
      assert s == "0" && f.whole == "0";
      FromNatToNat(s);
      assert digits[..1] == "0" && digits[1..] == "";
    } else {
      assert f.whole == "0" == Zeros(1);
      LeadingZeros(1, f.fraction);
      PaddedBack(f.fraction);
    }
  }

  /** What is accepted is printed back byte for byte. */
  lemma CanonicalRoundTrip(s: string, currency: string)
    requires ParseCanonical(s, currency).Ok?
    ensures Format(ParseCanonical(s, currency).value.decimal) == s
  {
    var f := Match(s).value;
    MatchIff(s, f);
    ShapeOfForm(f);
    FormatIsShape(DecimalOf(f));
  }

  // Equal as numbers, whatever the scale.
  predicate SameValue(a: Decimal, b: Decimal) {
    if a.exp <= b.exp then a.coef == b.coef * Pow10(b.exp - a.exp) else a.coef * Pow10(a.exp - b.exp) == b.coef
  }

  /** Two accepted texts of equal value with equally many fraction digits are the same text. */
  lemma CanonicalUnique(s: string, t: string, currency: string, other: string)
    requires ParseCanonical(s, currency).Ok? && ParseCanonical(t, other).Ok?
    requires var a, b := ParseCanonical(s, currency).value.decimal, ParseCanonical(t, other).value.decimal;
      a.exp == b.exp && SameValue(a, b)
    ensures s == t
  {
    CanonicalRoundTrip(s, currency);
    CanonicalRoundTrip(t, other);
    var a, b := ParseCanonical(s, currency).value.decimal, ParseCanonical(t, other).value.decimal;
    assert Pow10(b.exp - a.exp) == 1;
  }

  /** Exactly these texts are accepted. */
  lemma CanonicalAcceptsIff(s: string, currency: string)
    ensures ParseCanonical(s, currency).Ok? <==>
      && ValidCurrency(currency)
      && exists f :: ValidForm(f) && s == Text(f) && |s| <= MAX_AMOUNT_LEN && ValidAmount(DecimalOf(f))
                     && !(f.negative && ToNat(f.whole + f.fraction) == 0)
  {
    if ParseCanonical(s, currency).Ok? {
      MatchIff(s, Match(s).value);
      NegativeIff(s, Match(s).value);
    }
    forall f | ValidForm(f) && s == Text(f) && |s| <= MAX_AMOUNT_LEN ensures Match(s) == Some(f) && (s[0] == '-' <==> f.negative) {
      MatchIff(s, f);
      NegativeIff(s, f);
    }
  }

  lemma NegativeIff(s: string, f: Form)
    requires ValidForm(f) && s == Text(f)
    ensures s != "" && (s[0] == '-' <==> f.negative)
  {
    if !f.negative {
      assert s[0] == f.whole[0];
    }
  }

  // ---- what goes out comes back ----------------------------------------------------------

  lemma FormatMatches(d: Decimal)
    ensures d.exp <= 0 ==> Match(Format(d)) == Some(Shape(d))
    ensures d.exp > 0 ==> Match(Format(d)) == Some(Form(d.coef < 0, FromNat(Abs(d.coef) * Pow10(d.exp)), ""))
  {
    if d.exp <= 0 {
      FormatIsShape(d);
      MatchIff(Format(d), Shape(d));
    } else {
      FirstDigit(Abs(d.coef) * Pow10(d.exp));
      MatchIff(Format(d), Form(d.coef < 0, FromNat(Abs(d.coef) * Pow10(d.exp)), ""));
    }
  }

  lemma ShapeDecimal(d: Decimal)
    requires d.exp <= 0
    ensures DecimalOf(Shape(d)) == d
  {
    hide FromNat, ToNat;
    var digits, k := FromNat(Abs(d.coef)), -d.exp;
    var f := Shape(d);
    ToNatFromNat(Abs(d.coef));
    if |digits| > k {
      assert f.whole + f.fraction == digits;
    } else {
      LeadingZeros(k - |digits| + 1, digits);
      assert f.whole + f.fraction == Zeros(k - |digits| + 1) + digits;
    }
  }

  lemma FormatLength(d: Decimal)
    requires ValidAmount(d) && d.exp <= 0
    ensures |Format(d)| <= MAX_AMOUNT_LEN
  {
    FormatIsShape(d);
  }

  // The digits, in plain notation, of what has no fraction.
  predicate FewDigits(coef: int, exp: nat) { coef == 0 || |FromNat(Abs(coef))| + exp <= MAX_DIGITS }

  ghost predicate Returns(d: Decimal, currency: string) {
    Parse(Format(d), currency).Ok? && SameValue(Parse(Format(d), currency).value.decimal, d)
  }

  /** An amount, however it was made, survives being written out and parsed again exactly if its scale and
      its digits are within bounds, and with a positive exponent the digits of its plain notation are. */
  lemma WrittenAmountReturnsIff(d: Decimal, currency: string)
    ensures Returns(d, currency) <==>
              ValidCurrency(currency) && if d.exp <= 0 then ValidAmount(d) else FewDigits(d.coef, d.exp)
  {
    hide FromNat, Shape, Match, Text, Format, DecimalOf, Pow10, ValidForm, ValidCurrency;
    FormatMatches(d);
    if d.exp <= 0 {
      ShapeDecimal(d);
      if ValidAmount(d) { FormatLength(d); }
      SameAsItself(d);
    } else {
      ScaledUp(d);
      ScaleApart(d);
    }
  }

  // Arithmetic checks nothing but the currency.
  function Mul(a: Decimal, b: Decimal): Decimal { Decimal(a.coef * b.coef, a.exp + b.exp) }

  function Add(a: Decimal, b: Decimal): Decimal {
    if a.exp <= b.exp then Decimal(a.coef + b.coef * Pow10(b.exp - a.exp), a.exp)
    else Decimal(a.coef * Pow10(a.exp - b.exp) + b.coef, b.exp)
  }

  function Neg(a: Decimal): Decimal { Decimal(-a.coef, a.exp) }

  function Sub(a: Decimal, b: Decimal): Decimal { Add(a, Neg(b)) }

  /** An accepted amount times any factor returns exactly if its scale, which is the sum of the two, and its
      digits are within bounds. */
  lemma ProductReturnsIff(a: Decimal, b: Decimal, currency: string)
    requires New(a, currency).Ok?
    ensures var exp := a.exp + b.exp;
      Returns(Mul(a, b), currency)
      <==> if exp <= 0 then exp >= MIN_EXPONENT && |FromNat(Abs(a.coef * b.coef))| <= MAX_DIGITS
           else FewDigits(a.coef * b.coef, exp)
  {
    hide FromNat, Format, Parse, SameValue;
    WrittenAmountReturnsIff(Mul(a, b), currency);
  }

  /** A sum or a difference of accepted amounts has a scale within bounds, and returns exactly if its digits
      are too. */
  lemma SumReturnsIff(a: Decimal, b: Decimal, currency: string)
    requires New(a, currency).Ok? && New(b, currency).Ok?
    ensures forall s :: s in {Add(a, b), Sub(a, b)} ==>
      && s.exp == (if a.exp <= b.exp then a.exp else b.exp)
      && (Returns(s, currency)
          <==> if s.exp <= 0 then |FromNat(Abs(s.coef))| <= MAX_DIGITS else FewDigits(s.coef, s.exp))
  {
    hide FromNat, Format, Parse, SameValue, Pow10;
    WrittenAmountReturnsIff(Add(a, b), currency);
    WrittenAmountReturnsIff(Sub(a, b), currency);
  }

  /** Five followed by 37 zeros, twice: each is accepted, their sum has 39 digits and is refused. */
  lemma SumRefused()
    ensures var a := Decimal(5 * Pow10(37), 0);
      && New(a, "USD").Ok? && |FromNat(Abs(Add(a, a).coef))| == 39
      && !Returns(Add(a, a), "USD")
  {
    hide Pow10, FromNat, Format, Parse, SameValue;
    var a := Decimal(5 * Pow10(37), 0);
    assert Pow10(0) == 1 && FromNat(5) == "5" && FromNat(10) == "10" by { Digits(); }
    AppendZeros(5, 37);
    AppendZeros(10, 37);
    assert Add(a, a).coef == 10 * Pow10(37);
    WrittenAmountReturnsIff(Add(a, a), "USD");
  }

  lemma Digits()
    ensures Pow10(0) == 1 && FromNat(5) == "5" && FromNat(10) == "10"
  {
    assert FromNat(1) == "1";
  }

  /** The smallest amount times itself: 36 fraction digits, which are written out and refused. */
  lemma ProductRefused()
    ensures var a := Decimal(1, -18);
      && New(a, "USD").Ok? && Mul(a, a) == Decimal(1, -36)
      && Parse(Format(Mul(a, a)), "USD") == Err(InvalidAmount)
  {
    hide Pow10, Match, Text, Format, DecimalOf, ValidForm, Shape;
    var p := Decimal(1, -36);
    FormatMatches(p);
    ShapeDecimal(p);
    SmallShape(p);
  }

  lemma SmallShape(p: Decimal)
    requires p == Decimal(1, -36)
    ensures |Format(p)| == 38
  {
    assert FromNat(1) == "1";
  }

  /** An amount of nine digits and thirty zeros: it is accepted, written out with 39 digits, and refused. */
  lemma WrittenAmountRefused()
    ensures var d := Decimal(123456789, 30);
            && New(d, "USD").Ok? && |FromNat(Abs(d.coef))| == 9
            && Parse(Format(d), "USD") == Err(InvalidAmount)
  {
    hide FromNat, Pow10, Match, Text, Format, DecimalOf, ValidForm;
    var d := Decimal(123456789, 30);
    NineDigits();
    FormatMatches(d);
    ScaledUp(d);
  }

  lemma NineDigits()
    ensures |FromNat(123456789)| == 9
  {
    assert |FromNat(123)| == 3;
    assert |FromNat(12345)| == 5;
    assert |FromNat(1234567)| == 7;
  }

  lemma SameAsItself(d: Decimal)
    ensures SameValue(d, d)
  {
    assert Pow10(0) == 1;
  }

  lemma ScaleApart(d: Decimal)
    requires d.exp > 0
    ensures SameValue(Decimal(d.coef * Pow10(d.exp), 0), d)
  {
  }

  // With a positive exponent the zeros are written out.
  lemma ScaledUp(d: Decimal)
    requires d.exp > 0
    ensures var f := Form(d.coef < 0, FromNat(Abs(d.coef) * Pow10(d.exp)), "");
      && ValidForm(f) && DecimalOf(f) == Decimal(d.coef * Pow10(d.exp), 0)
      && |FromNat(Abs(d.coef * Pow10(d.exp)))| == (if d.coef == 0 then 1 else |FromNat(Abs(d.coef))| + d.exp)
      && |Format(d)| <= |f.whole| + 1
  {
    hide FromNat, ToNat;
    var n := Abs(d.coef) * Pow10(d.exp);
    var f := Form(d.coef < 0, FromNat(n), "");
    FirstDigit(n);
    assert f.whole + f.fraction == FromNat(n);
    ToNatFromNat(n);
    AbsTimes(d.coef, Pow10(d.exp));
    if d.coef == 0 {
      FromNatFirst(0);
    } else {
      AppendZeros(Abs(d.coef), d.exp);
    }
  }

  lemma AbsTimes(x: int, p: nat)
    ensures Abs(x) * p == Abs(x * p)
    ensures x * p == if x < 0 then -(Abs(x) * p) else Abs(x) * p
    ensures x == 0 ==> x * p == 0
  {
    if x < 0 {
      assert (-x) * p == -(x * p);
      SignOfProduct(-x, p);
    } else {
      SignOfProduct(x, p);
    }
  }

  lemma SignOfProduct(a: nat, p: nat)
    ensures a * p >= 0
  {
  }
}
