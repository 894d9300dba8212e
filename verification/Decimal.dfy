/** Decimal numerals as `%d` and `%0*d` print them, and their inverse. */
module Decimal {

  function DigitChar(d: nat): (c: char)
    requires d < 10
    ensures '0' <= c <= '9'
    ensures c as int - '0' as int == d
  {
    '0' + d as char
  }

  function DigitValue(c: char): (d: nat)
    requires '0' <= c <= '9'
    ensures d < 10 && DigitChar(d) == c
  {
    c as int - '0' as int
  }

  predicate AllDigits(s: string)
  {
    forall i :: 0 <= i < |s| ==> '0' <= s[i] <= '9'
  }

  /** `%d` of a natural number: no leading zero, except for 0 itself. */
  function Digits(n: nat): (s: string)
    ensures s != [] && AllDigits(s)
  {
    if n < 10 then [DigitChar(n)] else Digits(n / 10) + [DigitChar(n % 10)]
  }

  /** `%d` of any integer. */
  function Print(n: int): (s: string)
    ensures s != []
  {
    if n < 0 then "-" + Digits(-n) else Digits(n)
  }

  /** The number a digit string denotes; the empty string denotes 0. */
  function Value(s: string): nat
    requires AllDigits(s)
  {
    if s == [] then 0 else 10 * Value(s[..|s| - 1]) + DigitValue(s[|s| - 1])
  }

  /** `%0*d`: at least `width` characters, padded on the left with zeros. */
  function Padded(n: nat, width: nat): (s: string)
    ensures AllDigits(s) && |s| >= width && s != []
  {
    Zeros(width, |Digits(n)|) + Digits(n)
  }

  function Zeros(width: nat, used: nat): (s: string)
    ensures AllDigits(s)
    ensures |s| == if used < width then width - used else 0
    ensures forall i :: 0 <= i < |s| ==> s[i] == '0'
  {
    seq(if used < width then width - used else 0, _ => '0')
  }

  lemma {:induction false} ValueDigits(n: nat)
    ensures Value(Digits(n)) == n
  {
    if n < 10 {
      assert [DigitChar(n)][..0] == [];
    } else {
      ValueDigits(n / 10);
      assert Digits(n)[..|Digits(n)| - 1] == Digits(n / 10);
    }
  }

  lemma {:induction false} ValueZeros(zeros: string, s: string)
    requires AllDigits(s) && forall i :: 0 <= i < |zeros| ==> zeros[i] == '0'
    ensures AllDigits(zeros + s) && Value(zeros + s) == Value(s)
    decreases |zeros| + |s|
  {
    if s != [] {
      ValueZeros(zeros, s[..|s| - 1]);
      assert (zeros + s)[..|zeros + s| - 1] == zeros + s[..|s| - 1];
    } else if zeros != [] {
      ValueZeros(zeros[..|zeros| - 1], []);
      assert zeros[..|zeros| - 1] + [] == zeros[..|zeros| - 1];
      assert zeros + s == zeros;
    } else {
      assert zeros + s == [];
    }
  }

  /** Padding does not change what a numeral denotes. */
  lemma ValuePadded(n: nat, width: nat)
    ensures Value(Padded(n, width)) == n
  {
    ValueZeros(Zeros(width, |Digits(n)|), Digits(n));
    ValueDigits(n);
  }

  lemma PaddedInjective(m: nat, n: nat, width: nat)
    requires Padded(m, width) == Padded(n, width)
    ensures m == n
  {
    ValuePadded(m, width);
    ValuePadded(n, width);
  }

  lemma PrintSign(n: int)
    ensures Print(n)[0] == '-' <==> n < 0
    ensures n < 0 ==> Print(n)[1..] == Digits(-n)
  {
    hide Digits;
    assert n >= 0 ==> '0' <= Digits(n)[0] <= '9';
  }

  lemma PrintInjective(m: int, n: int)
    requires Print(m) == Print(n)
    ensures m == n
  {
    hide Digits;
    PrintSign(m);
    PrintSign(n);
    ValueDigits(if m < 0 then -m else m);
    ValueDigits(if n < 0 then -n else n);
  }

  lemma {:induction false} DigitsLead(n: nat)
    requires n > 0
    ensures Digits(n)[0] != '0'
  {
    if n >= 10 {
      DigitsLead(n / 10);
    }
  }

  /** A numeral without a leading zero is the one its value prints as. */
  lemma {:induction false} DigitsValue(s: string)
    requires s != [] && AllDigits(s) && s[0] != '0'
    ensures Digits(Value(s)) == s && Value(s) > 0
  {
    var init, last := s[..|s| - 1], s[|s| - 1];
    if |s| == 1 {
      assert Value(init) == 0;
      assert DigitValue(last) != 0 by { assert DigitChar(0) == '0'; }
    } else {
      DigitsValue(init);
      var v, d := Value(init), DigitValue(last);
      assert Value(s) == 10 * v + d;
      assert (10 * v + d) / 10 == v && (10 * v + d) % 10 == d;
    }
  }
}
