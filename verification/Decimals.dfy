/** Decimal digits: the text of a number and the number of a text. */
module Decimals {
  predicate IsDigit(c: char) { '0' <= c <= '9' }

  predicate AllDigits(s: string) { forall i :: 0 <= i < |s| ==> IsDigit(s[i]) }

  function DigitValue(c: char): (d: nat)
    requires IsDigit(c)
    ensures d < 10
  {
    c as int - '0' as int
  }

  function DigitChar(d: nat): (c: char)
    requires d < 10
    ensures IsDigit(c) && DigitValue(c) == d
  {
    ('0' as int + d) as char
  }

  function ToNat(s: string): nat
    requires AllDigits(s)
  {
    if s == "" then 0 else 10 * ToNat(s[..|s| - 1]) + DigitValue(s[|s| - 1])
  }

  // Without leading zeros; zero is "0".
  function FromNat(n: nat): (s: string)
    ensures |s| > 0 && AllDigits(s)
  {
    if n < 10 then [DigitChar(n)] else FromNat(n / 10) + [DigitChar(n % 10)]
  }

  function Zeros(k: nat): (z: string)
    ensures |z| == k && AllDigits(z) && forall i :: 0 <= i < k ==> z[i] == '0'
  {
    seq(k, _ => '0')
  }

  lemma {:induction false} ToNatFromNat(n: nat)
    ensures ToNat(FromNat(n)) == n
  {
    var s := FromNat(n);
    if n >= 10 {
      ToNatFromNat(n / 10);
      assert s[..|s| - 1] == FromNat(n / 10);
    } else {
      assert s[..0] == "";
    }
  }

  // A text without a leading zero is the text of its number.
  lemma {:induction false} FromNatToNat(s: string)
    requires AllDigits(s) && s != "" && (s[0] != '0' || |s| == 1)
    ensures FromNat(ToNat(s)) == s && (s[0] != '0' ==> ToNat(s) > 0)
  {
    var init, last := s[..|s| - 1], s[|s| - 1];
    if |s| == 1 {
      assert init == "";
      assert s == [DigitChar(DigitValue(last))];
    } else {
      FromNatToNat(init);
      assert ToNat(s) >= 10;
      assert s == init + [last];
    }
  }

  // Leading zeros do not count.
  lemma {:induction false} LeadingZeros(k: nat, s: string)
    requires AllDigits(s)
    ensures AllDigits(Zeros(k) + s) && ToNat(Zeros(k) + s) == ToNat(s)
  {
    var t := Zeros(k) + s;
    if s == "" {
      if k > 0 {
        LeadingZeros(k - 1, "");
        assert t[..|t| - 1] == Zeros(k - 1) + "";
      }
    } else {
      LeadingZeros(k, s[..|s| - 1]);
      assert t[..|t| - 1] == Zeros(k) + s[..|s| - 1];
    }
  }

  // Digits with their leading zeros split off; nothing is left of zero.
  function Strip(s: string): (k: nat)
    ensures k <= |s| && (forall i :: 0 <= i < k ==> s[i] == '0') && (k < |s| ==> s[k] != '0')
  {
    if s == "" || s[0] != '0' then 0 else 1 + Strip(s[1..])
  }

  /** The text of the number of s, padded to the length of s again, is s. */
  lemma PaddedBack(s: string)
    requires AllDigits(s) && s != ""
    ensures |FromNat(ToNat(s))| <= |s| && Zeros(|s| - |FromNat(ToNat(s))|) + FromNat(ToNat(s)) == s
  {
    var k := Strip(s);
    assert s == Zeros(k) + s[k..];
    LeadingZeros(k, s[k..]);
    if k < |s| {
      FromNatToNat(s[k..]);
    } else {
      assert s[k..] == "" && ToNat(s) == 0;
      assert FromNat(0) == "0";
    }
  }

  function Pow10(k: nat): (p: nat)
    ensures p > 0
  {
    if k == 0 then 1 else 10 * Pow10(k - 1)
  }

  lemma TimesTen(m: nat)
    requires m > 0
    ensures FromNat(10 * m) == FromNat(m) + "0"
  {
    assert (10 * m) / 10 == m && (10 * m) % 10 == 0;
  }

  // Multiplying by a power of ten appends zeros.
  lemma {:induction false} AppendZeros(n: nat, k: nat)
    requires n > 0
    ensures FromNat(n * Pow10(k)) == FromNat(n) + Zeros(k)
  {
    hide FromNat;
    if k == 0 {
      assert FromNat(n) + Zeros(0) == FromNat(n);
    } else {
      var p := Pow10(k - 1);
      assert n * Pow10(k) == 10 * (n * p);
      Positive(n, p);
      AppendZeros(n, k - 1);
      TimesTen(n * p);
      assert FromNat(n) + Zeros(k - 1) + "0" == FromNat(n) + Zeros(k);
    }
  }

  lemma Positive(a: nat, b: nat)
    requires a > 0 && b > 0
    ensures a * b > 0
  {
  }

  lemma {:induction false} FromNatFirst(n: nat)
    ensures FromNat(n)[0] == '0' ==> n == 0
    ensures n == 0 ==> FromNat(n) == "0"
  {
    if n >= 10 {
      FromNatFirst(n / 10);
    }
  }
}
