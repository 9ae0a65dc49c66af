/**
 * Decimal digit strings: zero-padded fixed-width fields (`%Y`, `%m`, `:02d`),
 * unpadded decimals (`str(int)`), and reading a run of digits back.
 */
module Digits {
  import opened Lex

  predicate IsDigit(c: char)
  {
    '0' <= c <= '9'
  }

  predicate AllDigits(s: string)
  {
    forall i :: 0 <= i < |s| ==> IsDigit(s[i])
  }

  function DigitChar(d: nat): (c: char)
    requires d <= 9
    ensures IsDigit(c)
  {
    ('0' as int + d) as char
  }

  function DigitValue(c: char): (d: nat)
    requires IsDigit(c)
    ensures d <= 9 && DigitChar(d) == c
  {
    c as int - '0' as int
  }

  function Pow10(n: nat): (p: nat)
    ensures p >= 1
  {
    if n == 0 then 1 else 10 * Pow10(n - 1)
  }

  /** The last `width` decimal digits of `n`, left-padded with '0'. */
  function Pad(n: nat, width: nat): (r: string)
    ensures |r| == width && AllDigits(r)
  {
    if width == 0 then [] else Pad(n / 10, width - 1) + [DigitChar(n % 10)]
  }

  /** A two-digit field: the tens digit, then the units digit. */
  lemma PadTwo(n: nat)
    requires n < 100
    ensures Pad(n, 2) == [DigitChar(n / 10), DigitChar(n % 10)]
  {
    var t := n / 10;
    assert t < 10 && t % 10 == t;
    assert Pad(t, 1) == Pad(t / 10, 0) + [DigitChar(t % 10)] == [DigitChar(t)];
    assert Pad(n, 2) == Pad(t, 1) + [DigitChar(n % 10)];
  }

  /** A four-digit field: thousands, hundreds, tens and units. */
  lemma PadFour(n: nat)
    requires n < 10000
    ensures Pad(n, 4) == [DigitChar(n / 1000), DigitChar(n / 100 % 10), DigitChar(n / 10 % 10), DigitChar(n % 10)]
  {
    var a, b := n / 10, n / 100;
    assert a / 10 == b && b / 10 == n / 1000 && b % 10 == n / 100 % 10 && b < 100;
    PadTwo(b);
    assert Pad(a, 3) == Pad(b, 2) + [DigitChar(a % 10)];
  }

  /** The decimal notation of `n` without leading zeros, as `str(n)` writes it. */
  function Decimal(n: nat): (r: string)
    ensures r != [] && AllDigits(r)
  {
    if n < 10 then [DigitChar(n)] else Decimal(n / 10) + [DigitChar(n % 10)]
  }

  /** The number a run of decimal digits denotes. */
  function DigitsValue(s: string): (v: nat)
    requires AllDigits(s)
    ensures v < Pow10(|s|)
  {
    if s == [] then 0 else 10 * DigitsValue(s[..|s| - 1]) + DigitValue(s[|s| - 1])
  }

  lemma DivMod10(q: nat, d: nat)
    requires d <= 9
    ensures (10 * q + d) / 10 == q && (10 * q + d) % 10 == d
  {
  }

  /** Padding loses nothing when the number fits in the width. */
  lemma {:induction false} PadValue(n: nat, width: nat)
    requires n < Pow10(width)
    ensures DigitsValue(Pad(n, width)) == n
  {
    if width > 0 {
      var q, r := n / 10, n % 10;
      assert n == 10 * q + r && q < Pow10(width - 1);
      PadValue(q, width - 1);
      var p := Pad(n, width);
      assert p[..|p| - 1] == Pad(q, width - 1) && p[|p| - 1] == DigitChar(r);
      assert DigitsValue(p) == 10 * DigitsValue(Pad(q, width - 1)) + DigitValue(DigitChar(r));
    }
  }

  /** A digit run is the padded form of its own value. */
  lemma {:induction false} DigitsPad(s: string)
    requires AllDigits(s)
    ensures Pad(DigitsValue(s), |s|) == s
  {
    if s != [] {
      var init := s[..|s| - 1];
      DigitsPad(init);
      DivMod10(DigitsValue(init), DigitValue(s[|s| - 1]));
      assert s == init + [s[|s| - 1]];
    }
  }

  lemma {:induction false} DecimalValue(n: nat)
    ensures DigitsValue(Decimal(n)) == n
  {
    if n >= 10 {
      DecimalValue(n / 10);
      var r := Decimal(n);
      assert r[..|r| - 1] == Decimal(n / 10);
    }
  }

  lemma DecimalInjective(a: nat, b: nat)
    requires Decimal(a) == Decimal(b)
    ensures a == b
  {
    DecimalValue(a);
    DecimalValue(b);
  }

  /** Four-digit numbers print the same padded or unpadded. */
  lemma DecimalIsPad4(n: nat)
    requires 1000 <= n <= 9999
    ensures Decimal(n) == Pad(n, 4)
  {
    var n1, n2, n3 := n / 10, n / 100, n / 1000;
    assert n1 / 10 == n2 && n2 / 10 == n3 && n3 / 10 == 0;
    assert 100 <= n1 && 10 <= n2 && n3 < 10;
    assert Pad(n3, 1) == Pad(0, 0) + [DigitChar(n3)];
    assert Decimal(n3) == Pad(n3, 1);
    assert Decimal(n2) == Decimal(n3) + [DigitChar(n2 % 10)];
    assert Decimal(n2) == Pad(n2, 2);
    assert Decimal(n1) == Decimal(n2) + [DigitChar(n1 % 10)];
    assert Decimal(n1) == Pad(n1, 3);
    assert Decimal(n) == Decimal(n1) + [DigitChar(n % 10)];
  }

  /** Equal-width padded fields sort in numeric order. */
  lemma {:induction false} PadOrder(a: nat, b: nat, width: nat)
    requires a < Pow10(width) && b < Pow10(width)
    ensures LexLt(Pad(a, width), Pad(b, width)) <==> a < b
  {
    if width > 0 {
      var pa, pb := Pad(a / 10, width - 1), Pad(b / 10, width - 1);
      var ca, cb := [DigitChar(a % 10)], [DigitChar(b % 10)];
      assert a / 10 < Pow10(width - 1) && b / 10 < Pow10(width - 1);
      PadOrder(a / 10, b / 10, width - 1);
      LexLeAppend(pa, ca, pb, cb);
      PadSameIff(a / 10, b / 10, width - 1);
      PadSameIff(a, b, width);
      DigitOrder(a % 10, b % 10);
      DivModOrder(a, b);
    }
  }

  /** Fields of the same width sort like the numbers they hold. */
  lemma PadLe(a: nat, b: nat, width: nat)
    requires a < Pow10(width) && b < Pow10(width)
    ensures LexLe(Pad(a, width), Pad(b, width)) <==> a <= b
  {
    PadOrder(a, b, width);
    PadSameIff(a, b, width);
    if a == b {
      LexLeRefl(Pad(a, width));
    }
  }

  /** Two fields of the same width are equal exactly when the numbers are. */
  lemma PadSameIff(a: nat, b: nat, width: nat)
    requires a < Pow10(width) && b < Pow10(width)
    ensures Pad(a, width) == Pad(b, width) <==> a == b
  {
    if Pad(a, width) == Pad(b, width) {
      PadInjective(a, b, width);
    }
  }

  /** One digit sorts before another exactly when its value is smaller. */
  lemma DigitOrder(x: nat, y: nat)
    requires x <= 9 && y <= 9
    ensures LexLe([DigitChar(x)], [DigitChar(y)]) <==> x <= y
  {
    assert [DigitChar(x)][1..] == [];
  }

  /** Numbers compare by their leading digits first, then by the last one. */
  lemma DivModOrder(a: nat, b: nat)
    ensures a < b <==> a / 10 < b / 10 || (a / 10 == b / 10 && a % 10 < b % 10)
  {
    assert a == 10 * (a / 10) + a % 10 && b == 10 * (b / 10) + b % 10;
  }


  /** Equal-width padded fields are equal exactly when the numbers are. */
  lemma PadInjective(a: nat, b: nat, width: nat)
    requires a < Pow10(width) && b < Pow10(width)
    requires Pad(a, width) == Pad(b, width)
    ensures a == b
  {
    PadValue(a, width);
    PadValue(b, width);
  }
}
