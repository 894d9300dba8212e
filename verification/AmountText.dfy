/** Decimal text of an amount in its currency's precision, and back. The exponent
    is the currency's number of fractional digits (0, 2 or 3 in the table). */
module AmountText {
  import opened Decimal
  import opened Text
  import opened Money

  function Pow10(n: nat): (p: nat)
    ensures p >= 1
  {
    if n == 0 then 1 else 10 * Pow10(n - 1)
  }

  /** The whole units of a magnitude. */
  function Whole(m: nat, exp: nat): (q: nat)
  {
    DivBound(m, Pow10(exp));
    m / Pow10(exp)
  }

  /** What is left of it below one unit. */
  function Fraction(m: nat, exp: nat): (r: nat)
    ensures r < Pow10(exp)
  {
    m % Pow10(exp)
  }

  lemma WholeAndFraction(m: nat, exp: nat)
    ensures m == Whole(m, exp) * Pow10(exp) + Fraction(m, exp)
    ensures Whole(m, exp) <= m
  {
    DivBound(m, Pow10(exp));
  }

  /** Go's `%`: the remainder takes the sign of the dividend. */
  function Remainder(a: int, b: int): int
    requires b > 0
  {
    if a < 0 then -(-a % b) else a % b
  }

  /** `%0*d` of any integer: the sign counts toward the width. */
  function PaddedInt(n: int, width: nat): (s: string)
    requires width > 0
  {
    if n < 0 then "-" + Padded(-n, width - 1) else Padded(n, width)
  }

  function SignOf(amount: int): string
  {
    if amount < 0 then "-" else ""
  }

  /** `fmt.Sprintf("%s%d.%0*d", sign, q, exp, r)`. */
  function Sprint(sign: string, q: int, r: int, exp: nat): string
    requires exp > 0
  {
    sign + Print(q) + "." + PaddedInt(r, exp)
  }

  /** The magnitude as the machine negates it: the smallest amount stays negative. */
  function Magnitude(amount: int): Int64
    requires MIN64 <= amount <= MAX64
  {
    if amount < 0 then Wrap(-amount) else amount
  }

  function FormatMinor(amount: int, exp: nat): string
    requires MIN64 <= amount <= MAX64
  {
    if exp == 0 then Print(amount)
    else
      var a := Magnitude(amount);
      Sprint(SignOf(amount), Quotient(a, Pow10(exp)), Remainder(a, Pow10(exp)), exp)
  }

  /** The digits of an amount once its fraction is filled up to `exp` places, or
      nothing when the fraction is too long. */
  function Spread(body: string, exp: nat): Option<string>
  {
    var i := Find(body, '.');
    var whole := if i == 0 then "0" else body[..i];
    var frac := if i < |body| then body[i + 1..] else "";
    if |frac| > exp then None else Some(whole + frac + Zeros(exp, |frac|))
  }

  function Signed(neg: bool, digits: string): Option<Int64>
  {
    if !AllDigits(digits) then None
    else if neg then Some(Wrap(-(Wrap(Value(digits)) as int))) else Some(Wrap(Value(digits)))
  }

  function Body(raw: string): string
    requires raw != ""
  {
    if raw[0] == '-' || raw[0] == '+' then raw[1..] else raw
  }

  function ParsedBody(body: string, neg: bool, exp: nat): Option<Int64>
  {
    match Spread(body, exp)
    case None => None
    case Some(digits) => Signed(neg, digits)
  }

  /** What a decimal string denotes in minor units, modulo 2^64. */
  function Parsed(s: string, exp: nat): Option<Int64>
  {
    var raw := TrimSpace(s);
    if raw == "" then None else ParsedBody(Body(raw), raw[0] == '-', exp)
  }

  lemma WrapDigit(v: nat, d: nat)
    ensures Wrap(Wrap(Wrap(v) * 10) + d) == Wrap(10 * v + d)
  {
    WrapInside(v, 10, d);
  }

  /** The number of minor units a decimal string stands for, with no limit on its
      size: whole units and the fraction at its place value. */
  function Denoted(s: string, exp: nat): Option<int>
  {
    var raw := TrimSpace(s);
    if raw == "" then None else
    var body := Body(raw);
    var i := Find(body, '.');
    var whole, frac := body[..i], if i < |body| then body[i + 1..] else "";
    if |frac| > exp || !AllDigits(whole) || !AllDigits(frac) then None
    else
      var units := Value(whole) * Pow10(exp) + Value(frac) * Pow10(exp - |frac|);
      Some(if raw[0] == '-' then 0 - units else units)
  }

  lemma AllDigitsSplit(a: string, b: string)
    ensures AllDigits(a + b) <==> AllDigits(a) && AllDigits(b)
  {
    assert forall i :: 0 <= i < |a| ==> (a + b)[i] == a[i];
    assert forall i :: 0 <= i < |b| ==> (a + b)[|a| + i] == b[i];
  }

  lemma ZeroForNothing(whole: string)
    ensures var w := if whole == "" then "0" else whole;
            (AllDigits(w) <==> AllDigits(whole)) && (AllDigits(w) ==> Value(w) == Value(whole))
  {
    assert "0"[..0] == [];
  }

  lemma ValueFilled(w: string, frac: string, exp: nat)
    requires |frac| <= exp && AllDigits(w) && AllDigits(frac)
    ensures var digits := w + frac + Zeros(exp, |frac|);
            AllDigits(digits) && Value(digits) == Value(w) * Pow10(exp) + Value(frac) * Pow10(exp - |frac|)
  {
    var z := Zeros(exp, |frac|);
    assert Value("") == 0;
    hide Value;
    hide Pow10;
    AllDigitsSplit(w, frac);
    ValueAppend(w, frac);
    ValueAppend(w + frac, z);
    ValueZeros(z, "");
    assert z + "" == z;
    PowSum(|frac|, exp - |frac|);
    Distribute(Value(w), Pow10(|frac|), Value(frac), Pow10(exp - |frac|));
  }

  lemma SpreadValue(whole: string, frac: string, exp: nat)
    requires |frac| <= exp
    ensures var digits := (if whole == "" then "0" else whole) + frac + Zeros(exp, |frac|);
            && (AllDigits(digits) <==> AllDigits(whole) && AllDigits(frac))
            && (AllDigits(digits) ==> Value(digits) == Value(whole) * Pow10(exp) + Value(frac) * Pow10(exp - |frac|))
  {
    hide Value;
    hide Pow10;
    var w, z := if whole == "" then "0" else whole, Zeros(exp, |frac|);
    ZeroForNothing(whole);
    hide AllDigits;
    AllDigitsSplit(w, frac);
    AllDigitsSplit(w + frac, z);
    if AllDigits(w) && AllDigits(frac) {
      ValueFilled(w, frac, exp);
    }
  }

  lemma {:induction false} PowSum(a: nat, b: nat)
    ensures Pow10(a) * Pow10(b) == Pow10(a + b)
  {
    if a > 0 {
      PowSum(a - 1, b);
      assert 10 * Pow10(a - 1) * Pow10(b) == 10 * (Pow10(a - 1) * Pow10(b));
    }
  }

  lemma Distribute(a: int, b: int, c: int, d: int)
    ensures (a * b + c) * d == a * (b * d) + c * d
  {
  }

  lemma SignedExact(neg: bool, digits: string)
    requires AllDigits(digits)
    ensures var v: int := if neg then 0 - Value(digits) else Value(digits);
            Signed(neg, digits) == Some(Wrap(v))
  {
    WrapNegated(Value(digits));
    hide Wrap;
    hide Value;
  }

  /** Parsing accepts exactly the strings that denote an amount, and yields that
      amount if and only if it fits into 64 bits. */
  lemma ParsedIsExactIff(s: string, exp: nat)
    ensures Parsed(s, exp).Some? <==> Denoted(s, exp).Some?
    ensures Denoted(s, exp).Some? ==>
              (Parsed(s, exp) == Some(Denoted(s, exp).value) <==> MIN64 <= Denoted(s, exp).value <= MAX64)
  {
    hide Value;
    hide Pow10;
    hide TrimSpace;
    var raw := TrimSpace(s);
    if raw != "" {
      var body := Body(raw);
      var i := Find(body, '.');
      hide Find;
      var whole, frac := body[..i], if i < |body| then body[i + 1..] else "";
      if |frac| <= exp {
        SpreadValue(whole, frac, exp);
        var digits := (if whole == "" then "0" else whole) + frac + Zeros(exp, |frac|);
        if AllDigits(digits) {
          SignedExact(raw[0] == '-', digits);
        }
      }
    }
  }

  method Accumulate(digits: string, neg: bool) returns (r: Option<Int64>)
    ensures r == Signed(neg, digits)
  {
    hide Wrap;
    var out: Int64 := 0;
    for i := 0 to |digits|
      invariant AllDigits(digits[..i])
      invariant out == Wrap(Value(digits[..i]))
    {
      var c := digits[i];
      if c < '0' || c > '9' {
        return None;
      }
      assert digits[..i + 1][..i] == digits[..i];
      WrapDigit(Value(digits[..i]), DigitValue(c));
      out := Wrap(Wrap(out * 10) + DigitValue(c));
    }
    assert digits[..|digits|] == digits;
    if neg {
      return Some(Wrap(-(out as int)));
    }
    return Some(out);
  }

  method ParseMinor(s: string, exp: nat) returns (r: Option<Int64>)
    ensures r == Parsed(s, exp)
  {
    hide ParsedBody;
    hide TrimSpace;
    var raw := TrimSpace(s);
    if raw == "" {
      return None;
    }
    var neg := false;
    var body := raw;
    if raw[0] == '-' {
      neg, body := true, raw[1..];
    } else if raw[0] == '+' {
      body := raw[1..];
    }
    r := ParseBody(body, neg, exp);
  }

  method ParseBody(body: string, neg: bool, exp: nat) returns (r: Option<Int64>)
    ensures r == ParsedBody(body, neg, exp)
  {
    hide Signed;
    var i := Find(body, '.');
    hide Find;
    var whole, frac := body[..i], if i < |body| then body[i + 1..] else "";
    if whole == "" {
      whole := "0";
    }
    if i < |body| && |frac| > exp {
      return None;
    }
    var full := Fill(frac, exp);
    assert whole + full == whole + frac + Zeros(exp, |frac|);
    r := Accumulate(whole + full, neg);
  }

  method Fill(given: string, exp: nat) returns (frac: string)
    requires |given| <= exp
    ensures frac == given + Zeros(exp, |given|)
  {
    frac := given;
    while |frac| < exp
      invariant |given| <= |frac| <= exp
      invariant frac == given + Zeros(|frac|, |given|)
    {
      frac := frac + "0";
    }
  }

  // -------------------------------------------------------------- round trip

  lemma {:induction false} ValueAppend(a: string, b: string)
    requires AllDigits(a) && AllDigits(b)
    ensures AllDigits(a + b) && Value(a + b) == Value(a) * Pow10(|b|) + Value(b)
  {
    if b == [] {
      assert a + b == a;
      assert Pow10(0) == 1;
    } else {
      var k := |b| - 1;
      ValueAppend(a, b[..k]);
      var s := a + b;
      assert s[..|s| - 1] == a + b[..k] && s[|s| - 1] == b[k];
      var v, p, w, d := Value(a), Pow10(k), Value(b[..k]), DigitValue(b[k]);
      assert Value(s) == 10 * Value(a + b[..k]) + d;
      assert Value(b) == 10 * w + d;
      assert Pow10(|b|) == 10 * p;
      hide Value;
      hide Pow10;
      ScaleDigit(v, p, w, d);
    }
  }

  lemma ScaleDigit(v: int, p: int, w: int, d: int)
    ensures 10 * (v * p + w) + d == v * (10 * p) + (10 * w + d)
  {
    assert v * (10 * p) == 10 * (v * p);
  }

  lemma {:induction false} DigitsFit(n: nat, width: nat)
    requires width > 0 && n < Pow10(width)
    ensures |Digits(n)| <= width
  {
    if n >= 10 {
      assert width > 1 by { assert Pow10(1) == 10 * Pow10(0); }
      DigitsFit(n / 10, width - 1);
    }
  }

  /** Reading back `q.r` with `exp` fractional digits. */
  lemma SpreadFormatted(q: nat, r: nat, exp: nat)
    requires exp > 0 && r < Pow10(exp)
    ensures var body := Digits(q) + "." + Padded(r, exp);
            var digits := Digits(q) + Padded(r, exp);
            Spread(body, exp) == Some(digits) && AllDigits(digits) && Value(digits) == q * Pow10(exp) + r
  {
    hide Digits;
    hide Pow10;
    DigitsFit(r, exp);
    var body := Digits(q) + "." + Padded(r, exp);
    assert |Padded(r, exp)| == exp;
    FindFirst(Digits(q), '.', Padded(r, exp));
    assert body == Digits(q) + ['.'] + Padded(r, exp);
    assert body[..|Digits(q)|] == Digits(q) && body[|Digits(q)| + 1..] == Padded(r, exp);
    assert Digits(q) + Padded(r, exp) + Zeros(exp, exp) == Digits(q) + Padded(r, exp);
    ValueAppend(Digits(q), Padded(r, exp));
    ValueDigits(q);
    ValuePadded(r, exp);
  }

  lemma SpreadWhole(n: nat)
    ensures Spread(Digits(n), 0) == Some(Digits(n))
  {
    hide Digits;
    var s := Digits(n);
    assert forall k :: 0 <= k < |s| ==> s[k] != '.';
    assert s[..|s|] == s;
    assert s + "" + Zeros(0, 0) == s;
  }

  lemma SprintShape(sign: string, q: nat, r: nat, exp: nat)
    requires exp > 0
    ensures Sprint(sign, q, r, exp) == sign + (Digits(q) + "." + Padded(r, exp))
  {
    hide Digits;
    hide Padded;
    var d, f := Digits(q), Padded(r, exp);
    assert sign + d + "." + f == sign + (d + "." + f);
  }

  lemma FormattedShape(amount: int, exp: nat)
    requires MIN64 < amount <= MAX64 && exp > 0
    ensures var m := Abs(amount);
            FormatMinor(amount, exp) == SignOf(amount) + (Digits(Whole(m, exp)) + "." + Padded(Fraction(m, exp), exp))
  {
    hide Sprint;
    hide Pow10;
    var m := Abs(amount);
    assert Magnitude(amount) == m;
    hide Magnitude;
    assert Quotient(m, Pow10(exp)) == Whole(m, exp) && Remainder(m, Pow10(exp)) == Fraction(m, exp);
    hide Quotient;
    hide Remainder;
    SprintShape(SignOf(amount), Whole(m, exp), Fraction(m, exp), exp);
  }

  /** A padded numeral is as wide as asked, its sign included, or as wide as it
      has to be. */
  lemma PaddedIntWidth(n: int, width: nat)
    requires width > 0
    ensures |PaddedInt(n, width)| == if |Print(n)| < width then width else |Print(n)|
    ensures PaddedInt(n, width)[0] == '-' <==> n < 0
  {
    hide Digits;
    var m := if n < 0 then -n else n;
    assert Digits(m) != [];
    assert n >= 0 ==> '0' <= Padded(n, width)[0] <= '9';
  }

  /** An amount prints with a minus sign exactly if it is negative, and with the
      whole units, a point and exactly so many digits after it. */
  lemma FormatExactly(amount: int, exp: nat)
    requires MIN64 < amount <= MAX64 && exp > 0
    ensures var s, m := FormatMinor(amount, exp), Abs(amount);
            && s == (if amount < 0 then "-" else "") + (Digits(Whole(m, exp)) + "." + Padded(Fraction(m, exp), exp))
            && |Padded(Fraction(m, exp), exp)| == exp
            && m == Whole(m, exp) * Pow10(exp) + Fraction(m, exp)
    ensures FormatMinor(amount, exp) != [] && (FormatMinor(amount, exp)[0] == '-' <==> amount < 0)
  {
    var m := Abs(amount);
    FormattedShape(amount, exp);
    WholeAndFraction(m, exp);
    DigitsFit(Fraction(m, exp), exp);
    hide FormatMinor;
    hide Pow10;
    hide Whole;
    hide Fraction;
    var d := Digits(Whole(m, exp));
    assert '0' <= d[0] <= '9';
    hide Digits;
  }

  lemma SignStays(c: char, s: string)
    requires (c == '-' || c == '+') && s != "" && TrimSpace(s) == s
    ensures TrimSpace([c] + s) == [c] + s
  {
    var t := [c] + s;
    assert t[|t| - 1] == s[|s| - 1] && !IsSpace(s[|s| - 1]);
    hide TrimLeft;
    hide TrimRight;
  }

  /** A plus sign changes nothing, and a minus sign negates. */
  lemma SignsRead(s: string, exp: nat)
    requires s != "" && TrimSpace(s) == s && s[0] != '-' && s[0] != '+'
    ensures Parsed("+" + s, exp) == Parsed(s, exp)
    ensures Parsed("-" + s, exp) == match Parsed(s, exp) case None => None case Some(v) => Some(Wrap(-(v as int)))
  {
    hide TrimSpace;
    hide Spread;
    hide Wrap;
    hide Value;
    SignStays('-', s);
    SignStays('+', s);
    assert ("+" + s)[1..] == s && ("-" + s)[1..] == s;
  }

  /** Printed amounts carry no space, so trimming leaves them alone. */
  lemma PrintedBody(sign: string, q: nat, r: nat, exp: nat)
    requires sign == "" || sign == "-"
    requires exp > 0
    ensures var body := Digits(q) + "." + Padded(r, exp);
            && TrimSpace(sign + body) == sign + body
            && '0' <= body[0] <= '9'
            && (sign == "-" ==> (sign + body)[1..] == body)
            && (sign == "" ==> sign + body == body)
  {
    hide Digits;
    hide Padded;
    var body := Digits(q) + "." + Padded(r, exp);
    var s := sign + body;
    assert body[0] == Digits(q)[0];
    assert s[|s| - 1] == Padded(r, exp)[|Padded(r, exp)| - 1];
  }

  lemma RoundTripFraction(amount: int, exp: nat)
    requires MIN64 < amount <= MAX64 && exp > 0
    ensures Parsed(FormatMinor(amount, exp), exp) == Some(amount)
  {
    var m := Abs(amount);
    hide Pow10;
    hide Digits;
    hide Padded;
    hide Whole;
    hide Fraction;
    hide Spread;
    hide Value;
    hide FormatMinor;
    hide TrimSpace;
    FormattedShape(amount, exp);
    WholeAndFraction(m, exp);
    PrintedBody(SignOf(amount), Whole(m, exp), Fraction(m, exp), exp);
    SpreadFormatted(Whole(m, exp), Fraction(m, exp), exp);
  }

  lemma RoundTripWhole(amount: int)
    requires MIN64 <= amount <= MAX64
    ensures Parsed(FormatMinor(amount, 0), 0) == Some(amount)
  {
    hide Digits;
    var s, m := Print(amount), Abs(amount);
    PrintSign(amount);
    SpreadWhole(m);
    ValueDigits(m);
    hide Spread;
    assert '0' <= Digits(m)[|Digits(m)| - 1] <= '9';
    assert TrimSpace(s) == s;
    if amount == MIN64 {
      WrapSame(m, amount, 1);
      WrapSame(-amount, amount, 1);
    }
  }

  /** Any character but the point survives into the digits. */
  lemma SpreadKeeps(body: string, exp: nat, c: char)
    requires c in body && c != '.'
    ensures Spread(body, exp).Some? ==> c in Spread(body, exp).value
  {
    var i := Find(body, '.');
    if i < |body| {
      assert body == body[..i] + ['.'] + body[i + 1..];
    } else {
      assert body == body[..i];
    }
  }

  /** Both a quotient and a remainder print with digits at the end. */
  lemma FractionEnds(r: int, exp: nat)
    requires exp > 0
    ensures var f := PaddedInt(r, exp); f != [] && '0' <= f[|f| - 1] <= '9' && (r < 0 ==> f[0] == '-')
  {
    hide Padded;
    var g := if r < 0 then Padded(-r, exp - 1) else Padded(r, exp);
    assert g != [] && '0' <= g[|g| - 1] <= '9';
  }

  /** A second sign anywhere in the body is refused. */
  lemma SecondSign(body: string, exp: nat)
    requires body != [] && '0' <= body[|body| - 1] <= '9' && '-' in body
    ensures Parsed("-" + body, exp) == None
  {
    var s := "-" + body;
    assert s[|s| - 1] == body[|body| - 1];
    assert TrimSpace(s) == s;
    hide TrimSpace;
    assert s[1..] == body;
    SpreadKeeps(body, exp, '-');
    hide Spread;
  }

  lemma TwoSigns(q: int, r: int, exp: nat)
    requires exp > 0 && (q < 0 || r < 0)
    ensures Parsed(Sprint("-", q, r, exp), exp) == None
  {
    hide Parsed;
    hide PaddedInt;
    hide Print;
    FractionEnds(r, exp);
    PrintSign(q);
    SignInBody(Print(q), PaddedInt(r, exp));
    SecondSign(Print(q) + "." + PaddedInt(r, exp), exp);
    assert Sprint("-", q, r, exp) == "-" + (Print(q) + "." + PaddedInt(r, exp));
  }

  lemma SignInBody(a: string, f: string)
    requires a != [] && f != [] && (a[0] == '-' || f[0] == '-')
    ensures var body := a + "." + f; '-' in body && body[|body| - 1] == f[|f| - 1]
  {
    var body := a + "." + f;
    assert body[0] == a[0] && body[|a| + 1] == f[0];
  }

  /** The smallest amount negates to itself and prints two minus signs. */
  lemma SmallestDoesNotRead(exp: nat)
    requires exp > 0
    ensures Parsed(FormatMinor(MIN64, exp), exp) == None
  {
    hide Sprint;
    hide Pow10;
    var q, r := Quotient(MIN64, Pow10(exp)), Remainder(MIN64, Pow10(exp));
    assert q < 0 || r < 0 by { WholeAndFraction(-MIN64, exp); }
    assert Magnitude(MIN64) == MIN64 by { WrapSame(-MIN64, MIN64, 1); }
    hide Magnitude;
    hide Quotient;
    hide Remainder;
    TwoSigns(q, r, exp);
  }

  /** Formatting then parsing gives every amount back, in every precision,
      except the smallest 64-bit amount in a currency with fractions. */
  lemma RoundTripIff(amount: int, exp: nat)
    requires MIN64 <= amount <= MAX64
    ensures Parsed(FormatMinor(amount, exp), exp) == Some(amount) <==> amount != MIN64 || exp == 0
  {
    if exp == 0 {
      RoundTripWhole(amount);
    } else if amount != MIN64 {
      RoundTripFraction(amount, exp);
    } else {
      SmallestDoesNotRead(exp);
    }
  }
}
