/** Text as bytes, and decimal numbers in it. */
module Bytes {
  newtype byte = b: int | 0 <= b < 256

  type Text = seq<byte>

  /** The bytes of an ASCII literal. */
  function Ascii(s: string): (t: Text)
    ensures |t| == |s|
    ensures forall i :: 0 <= i < |s| ==> t[i] as int == s[i] as int % 256
  {
    seq(|s|, i requires 0 <= i < |s| => (s[i] as int % 256) as byte)
  }

  const MINUS: byte := 45
  const PLUS: byte := 43

  predicate IsDigit(c: byte) {
    48 <= c <= 57
  }

  predicate AllDigits(t: Text) {
    forall i :: 0 <= i < |t| ==> IsDigit(t[i])
  }

  function Digit(d: int): (c: byte)
    requires 0 <= d < 10
    ensures IsDigit(c)
  {
    (48 + d) as byte
  }

  /** A number in decimal, without leading zeros. */
  function Digits(n: nat): (t: Text)
    ensures |t| > 0 && AllDigits(t)
  {
    if n < 10 then [Digit(n)] else Digits(n / 10) + [Digit(n % 10)]
  }

  function Zeros(count: nat): (t: Text)
    ensures |t| == count && AllDigits(t)
  {
    seq(count, _ => 48)
  }

  /** At least so many digits, with zeros in front. */
  function Padded(n: nat, width: nat): (t: Text)
    ensures |t| >= width && |t| > 0 && AllDigits(t)
  {
    if |Digits(n)| >= width then Digits(n) else Zeros(width - |Digits(n)|) + Digits(n)
  }

  function Signed(n: int): (t: Text)
    ensures |t| > 0
  {
    if n < 0 then [MINUS] + Digits(-n) else Digits(n)
  }

  /** What a string of digits is worth. */
  function Value(t: Text): nat
    requires AllDigits(t)
  {
    if t == [] then 0 else Value(t[..|t| - 1]) * 10 + (t[|t| - 1] as int - 48)
  }

  lemma {:induction false} ValueOfDigits(n: nat)
    ensures Value(Digits(n)) == n
  {
    if n >= 10 {
      ValueOfDigits(n / 10);
      assert Digits(n)[..|Digits(n)| - 1] == Digits(n / 10);
    }
  }

  lemma {:induction false} ValueOfZeros(count: nat, t: Text)
    requires AllDigits(t)
    ensures AllDigits(Zeros(count) + t) && Value(Zeros(count) + t) == Value(t)
    decreases count + |t|
  {
    var all := Zeros(count) + t;
    if t != [] {
      assert all[..|all| - 1] == Zeros(count) + t[..|t| - 1];
      ValueOfZeros(count, t[..|t| - 1]);
    } else if count > 0 {
      assert all[..|all| - 1] == Zeros(count - 1) + t;
      ValueOfZeros(count - 1, t);
    }
  }

  lemma ValueOfPadded(n: nat, width: nat)
    ensures Value(Padded(n, width)) == n
  {
    ValueOfDigits(n);
    if |Digits(n)| < width {
      ValueOfZeros(width - |Digits(n)|, Digits(n));
    }
  }

  function Power10(k: nat): nat {
    if k == 0 then 1 else 10 * Power10(k - 1)
  }

  lemma {:induction false} DigitsFit(n: nat, width: nat)
    requires width > 0 && n < Power10(width)
    ensures |Digits(n)| <= width
  {
    if n >= 10 {
      assert Power10(width) == 10 * Power10(width - 1);
      DigitsFit(n / 10, width - 1);
    }
  }

  /** A padded number that fits has exactly the width asked for. */
  lemma PaddedFits(n: nat, width: nat)
    requires width > 0 && n < Power10(width)
    ensures |Padded(n, width)| == width
  {
    DigitsFit(n, width);
  }
}
