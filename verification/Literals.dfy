/** Integer literals: reading digits from the right in 64-bit unsigned arithmetic, with overflow
    detected by dividing back. */
module Literals {
  import opened Words
  import Lowering
  import Ir

  /** What `string_to_int` returns instead of a value. */
  const SENTINEL: nat := TWO_64 - 1

  predicate IsDigit(c: char, base: nat) {
    || '0' <= c <= '9'
    || (base == 16 && ('a' <= c <= 'f' || 'A' <= c <= 'F'))
  }

  /** `character_to_int`. */
  function Digit(c: char): (d: int) {
    if 'a' <= c <= 'f' then c as int - 'a' as int + 10
    else if 'A' <= c <= 'F' then c as int - 'A' as int + 10
    else c as int - '0' as int
  }

  lemma DigitInRange(c: char, base: nat)
    requires IsDigit(c, base) && (base == 10 || base == 16)
    ensures 0 <= Digit(c) < base
  {
  }

  predicate AreDigits(s: string, base: nat) {
    (base == 10 || base == 16) && forall i :: 0 <= i < |s| ==> IsDigit(s[i], base)
  }

  /** What the numeral means, from the left as one reads it. */
  function Numeral(s: string, base: nat): (v: nat)
    requires AreDigits(s, base)
  {
    if s == "" then 0 else Numeral(s[..|s| - 1], base) * base + Digit(s[|s| - 1])
  }

  function Power(base: nat, n: nat): nat {
    if n == 0 then 1 else base * Power(base, n - 1)
  }

  lemma {:induction false} PowerPositive(base: nat, n: nat)
    requires base > 0
    ensures Power(base, n) > 0
  {
    if n > 0 { PowerPositive(base, n - 1); }
  }

  lemma {:induction false} PowerGrows(base: nat, m: nat, n: nat)
    requires base > 0 && m <= n
    ensures Power(base, m) <= Power(base, n)
  {
    if m < n {
      PowerGrows(base, m, n - 1);
      TimesMonotone(Power(base, n - 1), 1, base);
    }
  }

  /** The digits from position `i` on, read with position 0 of the suffix as the most significant:
      a leading digit counts `base` to the number of digits after it. */
  lemma {:induction false} LeadingDigit(s: string, base: nat)
    requires s != "" && AreDigits(s, base)
    ensures Numeral(s, base) == Digit(s[0]) * Power(base, |s| - 1) + Numeral(s[1..], base)
  {
    var n := |s| - 1;
    if n == 0 {
      assert s[..0] == "" && s[1..] == "";
    } else {
      LeadingDigit(s[..n], base);
      assert s[..n][1..] == s[1..][..n - 1] && s[..n][0] == s[0] && s[1..][n - 1] == s[n];
      Distribute(Digit(s[0]), Power(base, n - 1), Numeral(s[..n][1..], base), base);
      assert Numeral(s[1..], base) == Numeral(s[1..][..n - 1], base) * base + Digit(s[n]);
    }
  }

  lemma Distribute(d: int, p: int, rest: int, base: int)
    ensures (d * p + rest) * base == d * (base * p) + rest * base
  {
    assert (d * p) * base == d * (p * base);
    assert p * base == base * p;
  }

  lemma {:induction false} SuffixAtMost(s: string, base: nat, i: nat)
    requires AreDigits(s, base) && i <= |s|
    ensures Numeral(s[i..], base) <= Numeral(s, base)
    decreases i
  {
    hide Numeral, Power, Digit, AreDigits;
    if i == 0 {
      assert s[0..] == s;
    } else {
      SuffixAtMost(s, base, i - 1);
      DigitAt(s, base, i - 1);
      LeadingDigitLeft(s, base, i - 1);
      ProductOfNats(Digit(s[i - 1]), Power(base, |s| - i));
    }
  }

  lemma LeadingDigitLeft(s: string, base: nat, i: nat)
    requires AreDigits(s, base) && i < |s|
    ensures Numeral(s[i..], base) == Digit(s[i]) * Power(base, |s| - i - 1) + Numeral(s[i + 1..], base)
  {
    DigitAt(s, base, i);
    hide Numeral, Power, Digit, AreDigits;
    assert s[i..][1..] == s[i + 1..] && s[i..][0] == s[i];
    LeadingDigit(s[i..], base);
  }

  lemma DigitAt(s: string, base: nat, i: nat)
    requires i < |s| && AreDigits(s, base)
    ensures 0 <= Digit(s[i]) < base
    ensures AreDigits(s[i..], base) && AreDigits(s[i + 1..], base)
  {
    assert IsDigit(s[i], base);
    DigitInRange(s[i], base);
  }

  lemma ProductOfNats(a: nat, b: nat)
    ensures 0 <= a * b
  {
  }

  lemma TimesMonotone(a: nat, b: int, c: int)
    requires b <= c
    ensures a * b <= a * c
  {
    assert a * c - a * b == a * (c - b);
  }

  lemma WrappedProduct(p: nat)
    requires p >= TWO_64
    ensures p % TWO_64 <= p - TWO_64
  {
  }

  lemma DivideBack(a: nat, b: nat)
    requires a > 0
    ensures (a * b) / a == b
  {
    var p := a * b;
    var q, r := p / a, p % a;
    assert p == a * q + r;
    if q < b { TimesMonotone(a, q + 1, b); }
    if q > b { TimesMonotone(a, b + 1, q); }
  }

  lemma QuotientBelow(r: nat, a: nat, c: int)
    requires a > 0 && r < a * c
    ensures r / a < c
  {
    var q := r / a;
    assert a * q <= r;
    if q >= c { TimesMonotone(a, c, q); }
  }

  /** Dividing a wrapped product back by a factor gives the other factor exactly when nothing wrapped. */
  lemma WrapDetected(a: nat, b: nat)
    requires 0 < a < TWO_64 && b < TWO_64
    ensures ((a * b) % TWO_64) / a == b <==> a * b < TWO_64
  {
    var p := a * b;
    if p < TWO_64 {
      DivideBack(a, b);
    } else {
      WrappedProduct(p);
      assert a * (b - 1) == p - a;
      QuotientBelow(p % TWO_64, a, b - 1);
    }
  }

  /** The sentinel, exactly when the value is too large or the last place does not fit 64 bits;
      otherwise the numeral's value. */
  function ReadInteger(s: string, maximum: nat, base: nat): nat
    requires AreDigits(s, base)
  {
    var tooLong := |s| > 0 && Power(base, |s| - 1) >= TWO_64;
    if Numeral(s, base) > maximum || tooLong then SENTINEL else Numeral(s, base)
  }

  predicate ReadsExactly(s: string, maximum: nat, base: nat, r: nat)
    requires AreDigits(s, base)
  {
    r == ReadInteger(s, maximum, base)
  }

  /** `string_to_int`, with every operation modulo 2^64. */
  method StringToInt(s: string, maximum: nat, base: nat) returns (r: nat)
    requires AreDigits(s, base) && maximum < SENTINEL
    ensures ReadsExactly(s, maximum, base, r)
  {
    hide Numeral, Power, Digit, ReadInteger;
    var value := 0;
    var place := 1;
    var i := |s|;
    NothingRead(s, maximum, base);
    while i > 0
      invariant 0 <= i <= |s|
      invariant value == Numeral(s[i..], base) <= maximum
      invariant i > 0 ==> place == Power(base, |s| - i) < TWO_64
      invariant i == 0 ==> value == ReadInteger(s, maximum, base)
    {
      i := i - 1;
      NextDigit(s, base, i);
      var digit := Digit(s[i]);
      var increment := (digit * place) % TWO_64;
      DigitRead(s, maximum, base, i, place, value, increment, increment / place == digit);
      if increment / place != digit {
        return SENTINEL;
      }
      if (value + increment) % TWO_64 < value {
        return SENTINEL;
      }
      value := (value + increment) % TWO_64;
      if value > maximum {
        return SENTINEL;
      }
      if i != 0 { PlaceRead(s, maximum, base, i, place); }
      if i != 0 && ((place * base) % TWO_64) / place != base {
        return SENTINEL;
      }
      place := (place * base) % TWO_64;
    }
    return value;
  }

  lemma DigitWrapDetected(digit: nat, place: nat)
    requires 0 < place < TWO_64 && digit < TWO_64
    ensures ((digit * place) % TWO_64) / place == digit <==> digit * place < TWO_64
  {
    WrapDetected(place, digit);
    assert place * digit == digit * place;
  }

  /** The tests on the sum: they find out a whole that is too large, and otherwise the sum is the whole. */
  lemma SumDetected(product: nat, value: nat, maximum: nat, fits: bool)
    requires value <= maximum < SENTINEL && fits == (product < TWO_64)
    ensures var sum := (value + product % TWO_64) % TWO_64;
      if !fits || sum < value || sum > maximum then product + value > maximum else sum == product + value
  {
  }

  /** What one digit adds, as a number, and whether the multiplication wraps. */
  lemma DigitAdds(s: string, base: nat, i: nat, place: nat, increment: nat, kept: bool) returns (product: nat)
    requires AreDigits(s, base) && i < |s| && place == Power(base, |s| - i - 1) < TWO_64
    requires place > 0 ==>
      increment == (Digit(s[i]) * place) % TWO_64 && kept == (increment / place == Digit(s[i]))
    ensures increment == product % TWO_64 && kept == (product < TWO_64)
    ensures Numeral(s[i..], base) == product + Numeral(s[i + 1..], base) <= Numeral(s, base)
  {
    NextDigit(s, base, i);
    hide Numeral, Power, Digit, AreDigits;
    DigitWrapDetected(Digit(s[i]), place);
    product := Digit(s[i]) * place;
  }

  /** One digit more: each of the two tests on the way finds out a value that is too large, and otherwise
      the sum is exact. */
  lemma DigitRead(s: string, maximum: nat, base: nat, i: nat, place: nat, value: nat, increment: nat, kept: bool)
    requires AreDigits(s, base) && maximum < SENTINEL && i < |s|
    requires place == Power(base, |s| - i - 1) < TWO_64 && value == Numeral(s[i + 1..], base) <= maximum
    requires place > 0 ==>
      increment == (Digit(s[i]) * place) % TWO_64 && kept == (increment / place == Digit(s[i]))
    ensures var sum := (value + increment) % TWO_64;
      if !kept || sum < value || sum > maximum then ReadInteger(s, maximum, base) == SENTINEL
      else
        && sum == Numeral(s[i..], base)
        && (i == 0 ==> sum == ReadInteger(s, maximum, base))
  {
    var product := DigitAdds(s, base, i, place, increment, kept);
    SumDetected(product, value, maximum, kept);
    hide Numeral, Power, Digit, AreDigits;
    if i == 0 { assert s[0..] == s; }
  }

  /** One place more: the test finds out a leading place that does not fit. */
  lemma PlaceRead(s: string, maximum: nat, base: nat, i: nat, place: nat)
    requires AreDigits(s, base) && 0 < i < |s| && 0 < place == Power(base, |s| - i - 1) < TWO_64
    ensures if ((place * base) % TWO_64) / place != base then ReadInteger(s, maximum, base) == SENTINEL
      else (place * base) % TWO_64 == Power(base, |s| - i) < TWO_64
  {
    NextPlace(s, base, i);
    hide Numeral, Power;
    WrapDetected(place, base);
    assert place * base == base * place;
  }

  lemma NothingRead(s: string, maximum: nat, base: nat)
    requires AreDigits(s, base)
    ensures s[|s|..] == "" && Numeral(s[|s|..], base) == 0 && Power(base, 0) == 1
    ensures s == "" ==> ReadInteger(s, maximum, base) == 0
  {
    assert s[|s|..] == "";
  }

  /** What the next digit to the left adds, and that the whole is no smaller. */
  lemma NextDigit(s: string, base: nat, i: nat)
    requires i < |s| && AreDigits(s, base)
    ensures 0 <= Digit(s[i]) < base
    ensures Numeral(s[i..], base) == Digit(s[i]) * Power(base, |s| - i - 1) + Numeral(s[i + 1..], base)
    ensures Numeral(s[i..], base) <= Numeral(s, base)
    ensures Power(base, |s| - i - 1) > 0
  {
    hide Numeral, Power, Digit, IsDigit, AreDigits;
    DigitAt(s, base, i);
    LeadingDigitLeft(s, base, i);
    SuffixAtMost(s, base, i);
    PowerPositive(base, |s| - 1 - i);
  }

  /** The next place, which is no larger than the last one. */
  lemma NextPlace(s: string, base: nat, i: nat)
    requires 0 < i < |s| && AreDigits(s, base)
    ensures Power(base, |s| - i) == base * Power(base, |s| - i - 1)
    ensures Power(base, |s| - i) <= Power(base, |s| - 1)
  {
    PowerGrows(base, |s| - i, |s| - 1);
  }

  lemma AtLeastItsPlace(s: string, base: nat)
    requires AreDigits(s, base) && s != "" && s[0] != '0'
    ensures Numeral(s, base) >= Power(base, |s| - 1)
  {
    hide Numeral, Power;
    LeadingDigit(s, base);
    var d, p := Digit(s[0]), Power(base, |s| - 1);
    assert IsDigit(s[0], base) && d >= 1;
    TimesMonotone(p, 1, d);
    assert p * d == d * p;
  }

  /** Without a leading zero, the sentinel means exactly that the value exceeds the limit. */
  lemma NoLeadingZero(s: string, maximum: nat, base: nat, r: nat)
    requires AreDigits(s, base) && maximum < SENTINEL && ReadsExactly(s, maximum, base, r)
    requires s != "" && s[0] != '0'
    ensures r == SENTINEL <==> Numeral(s, base) > maximum
    ensures r != SENTINEL ==> r == Numeral(s, base)
  {
    hide Numeral, Power, AreDigits;
    AtLeastItsPlace(s, base);
  }

  /** With leading zeros the sentinel can come for a small value: 21 digits, the value one. */
  lemma LeadingZerosRejected()
    ensures var s := "000000000000000000001";
            AreDigits(s, 10) && Numeral(s, 10) == 1 && forall maximum, r :: ReadsExactly(s, maximum, 10, r) ==>
              r == SENTINEL
  {
    var s := "000000000000000000001";
    assert |s| == 21;
    ZerosThenOne(s);
    TwentyPlaces();
  }

  lemma {:induction false} Zeros(s: string)
    requires forall i :: 0 <= i < |s| ==> s[i] == '0'
    ensures AreDigits(s, 10) && Numeral(s, 10) == 0
  {
    if s != "" { Zeros(s[..|s| - 1]); }
  }

  lemma ZerosThenOne(s: string)
    requires s != "" && s[|s| - 1] == '1' && forall i :: 0 <= i < |s| - 1 ==> s[i] == '0'
    ensures AreDigits(s, 10) && Numeral(s, 10) == 1
  {
    Zeros(s[..|s| - 1]);
  }

  lemma TwentyPlaces()
    ensures Power(10, 20) >= TWO_64
  {
    assert Power(10, 5) == 100000;
    assert Power(10, 10) == 10000000000;
    assert Power(10, 15) == 1000000000000000;
  }

  // ----- literals of the language -----

  /** The largest magnitude: one more under a minus. */
  function Limit(negate: bool): nat {
    if negate then TWO_63 else TWO_63 - 1
  }

  /** How many digits, leading zeros included, can be read at all. */
  function MostDigits(base: nat): nat {
    if base == 10 then 20 else 16
  }

  lemma SixteenPlaces()
    ensures Power(16, 16) == TWO_64 && Power(16, 15) < TWO_64
  {
    assert Power(16, 4) == 0x1_0000;
    assert Power(16, 8) == 0x1_0000_0000;
    assert Power(16, 12) == 0x1_0000_0000_0000;
  }

  lemma NineteenPlaces()
    ensures Power(10, 19) < TWO_64
  {
    assert Power(10, 5) == 100000;
    assert Power(10, 10) == 10000000000;
    assert Power(10, 15) == 1000000000000000;
  }

  /** The place of a leading digit fits 64 bits exactly up to a number of digits. */
  lemma PlacesFit(base: nat, n: nat)
    requires base == 10 || base == 16
    ensures Power(base, n) < TWO_64 <==> n < MostDigits(base)
  {
    TwentyPlaces();
    NineteenPlaces();
    SixteenPlaces();
    hide Power;
    if n < MostDigits(base) {
      PowerGrows(base, n, MostDigits(base) - 1);
    } else {
      PowerGrows(base, MostDigits(base), n);
    }
  }

  /** From digits to the word the generator emits: a literal in range, down to -2^63, becomes the integer
      it denotes exactly when it is not written with too many digits, and every other literal becomes the
      sentinel that the checker reports. */
  lemma LiteralDenotes(s: string, base: nat, negate: bool, r: nat)
    requires AreDigits(s, base) && ReadsExactly(s, Limit(negate), base, r)
    ensures r == 0xFFFF_FFFF_FFFF_FFFF || r == Numeral(s, base)
    ensures r != 0xFFFF_FFFF_FFFF_FFFF <==>
      && (Numeral(s, base) < 0x8000_0000_0000_0000 || (negate && Numeral(s, base) == 0x8000_0000_0000_0000))
      && |s| <= if base == 10 then 20 else 16
    ensures r != SENTINEL ==>
      Lowering.LiteralToInt64(Ir.Literal(Ir.IntLiteral, negate, r)) == if negate then -(Numeral(s, base) as int)
        else Numeral(s, base)
  {
    if s != "" { PlacesFit(base, |s| - 1); }
    hide Numeral, Power, AreDigits;
    if r != SENTINEL {
      Lowering.LiteralToInt64Exact(Ir.Literal(Ir.IntLiteral, negate, r));
    }
  }
}
