/** Decimal numerals as `String(n)` prints them. */
module Decimal {

  predicate IsDigit(c: char) { '0' <= c <= '9' }

  function Digit(d: nat): char
    requires d < 10
  {
    '0' + d as char
  }

  function Value(c: char): nat
    requires IsDigit(c)
  {
    c as nat - '0' as nat
  }

  function Digits(n: nat): (s: string)
    ensures |s| >= 1 && forall i :: 0 <= i < |s| ==> IsDigit(s[i])
  {
    if n < 10 then [Digit(n)] else Digits(n / 10) + [Digit(n % 10)]
  }

  function Print(n: int): string { if n < 0 then "-" + Digits(-n) else Digits(n) }

  /** The number that a run of digits denotes; leading zeros are allowed. */
  function ReadNat(s: string): nat
    requires forall i :: 0 <= i < |s| ==> IsDigit(s[i])
  {
    if s == [] then 0 else 10 * ReadNat(s[..|s| - 1]) + Value(s[|s| - 1])
  }

  function Zeros(n: nat): (s: string)
    ensures |s| == n && forall i :: 0 <= i < n ==> s[i] == '0'
  {
    seq(n, i => '0')
  }

  /** `padStart(width, '0')`. */
  function PadStart(s: string, width: nat): (r: string)
    ensures |r| == if |s| < width then width else |s|
  {
    if |s| < width then Zeros(width - |s|) + s else s
  }

  lemma {:induction false} ReadDigits(n: nat)
    ensures ReadNat(Digits(n)) == n
  {
    if n < 10 {
      assert Digits(n)[..0] == [];
    } else {
      var s := Digits(n);
      assert s[..|s| - 1] == Digits(n / 10);
      ReadDigits(n / 10);
    }
  }

  lemma {:induction false} ReadZeros(n: nat)
    ensures ReadNat(Zeros(n)) == 0
  {
    if n > 0 { assert Zeros(n)[..n - 1] == Zeros(n - 1); ReadZeros(n - 1); }
  }

  lemma {:induction false} ReadPadded(k: nat, s: string)
    requires forall i :: 0 <= i < |s| ==> IsDigit(s[i])
    ensures ReadNat(Zeros(k) + s) == ReadNat(s)
  {
    if s == [] {
      assert Zeros(k) + s == Zeros(k);
      ReadZeros(k);
    } else {
      var t := Zeros(k) + s;
      assert t[..|t| - 1] == Zeros(k) + s[..|s| - 1];
      ReadPadded(k, s[..|s| - 1]);
    }
  }

  /** A numeral padded with zeros reads back as its number. */
  lemma {:induction false} PadReadsBack(n: nat, width: nat)
    ensures forall i :: 0 <= i < |PadStart(Digits(n), width)| ==> IsDigit(PadStart(Digits(n), width)[i])
    ensures ReadNat(PadStart(Digits(n), width)) == n
  {
    var s := Digits(n);
    ReadDigits(n);
    if |s| < width { ReadPadded(width - |s|, s); }
  }

  function Pow10(k: nat): (p: nat)
    ensures p >= 1
  {
    if k == 0 then 1 else 10 * Pow10(k - 1)
  }

  /** A number has at most `k` digits exactly when it is below `10^k`. */
  lemma {:induction false} DigitsFit(n: nat, k: nat)
    requires k >= 1
    ensures |Digits(n)| <= k <==> n < Pow10(k)
  {
    if n < 10 {
      assert Pow10(k) == 10 * Pow10(k - 1);
    } else if k == 1 {
      assert Pow10(1) == 10 * Pow10(0);
    } else {
      DigitsFit(n / 10, k - 1);
      assert Pow10(k) == 10 * Pow10(k - 1);
    }
  }

  lemma {:induction false} PrintInjective(a: int, b: int)
    requires Print(a) == Print(b)
    ensures a == b
  {
    var x, y := Digits(if a < 0 then -a else a), Digits(if b < 0 then -b else b);
    assert IsDigit(x[0]) && IsDigit(y[0]) && !IsDigit('-');
    ReadDigits(if a < 0 then -a else a);
    ReadDigits(if b < 0 then -b else b);
    if a < 0 {
      assert Print(a)[1..] == x && Print(b)[0] == '-';
      assert Print(b)[1..] == y;
    }
  }
}
