/** 64-bit machine words: the arithmetic of the target, with wrap-around written out. */
module Words {

  datatype Option<+T> = None | Some(value: T)

  const TWO_63: int := 0x8000_0000_0000_0000
  const TWO_64: int := 0x1_0000_0000_0000_0000

  /** A signed 64-bit value. */
  type Word = x: int | -TWO_63 <= x < TWO_63

  /** The two's complement reading of the low 64 bits of `x`. */
  function Wrap(x: int): (r: Word)
    ensures (r - x) % TWO_64 == 0
    ensures -TWO_63 <= x < TWO_63 ==> r == x
  {
    var low := x % TWO_64;
    if low < TWO_63 then low else low - TWO_64
  }

  /** The same 64 bits read without a sign. */
  function Unsigned(w: Word): (u: nat)
    ensures u < TWO_64 && (u == w || u == w + TWO_64)
  {
    if w < 0 then w + TWO_64 else w
  }

  function Abs(x: int): nat {
    if x < 0 then -x else x
  }

  /** C division truncates toward zero. */
  function TruncatedQuotient(l: int, r: int): int
    requires r != 0
  {
    var q := Abs(l) / Abs(r);
    if (l < 0) == (r < 0) then q else -q
  }

  function TruncatedRemainder(l: int, r: int): int
    requires r != 0
  {
    var m := Abs(l) % Abs(r);
    if l < 0 then -m else m
  }

  /** The two operand pairs on which the divide instruction traps. */
  predicate DivisionTraps(l: Word, r: Word) {
    r == 0 || (l == -TWO_63 && r == -1)
  }

  function FromBool(b: bool): (w: Word)
    ensures w == 1 <==> b
    ensures w == 0 <==> !b
  {
    if b then 1 else 0
  }

  // ----- what division means -----

  /** `q` and `m` are the quotient and the remainder of `l` over `r`, rounded toward zero: the remainder is
      smaller than the divisor and has the sign of the dividend, and the quotient has the sign of both. */
  predicate Divided(l: int, r: int, q: int, m: int) {
    && l == q * r + m
    && (if m < 0 then -m else m) < (if r < 0 then -r else r)
    && (m == 0 || (m < 0 <==> l < 0))
    && (q == 0 || (q < 0 <==> (l < 0) != (r < 0)))
  }

  lemma TruncationDivides(l: int, r: int)
    requires r != 0
    ensures Divided(l, r, TruncatedQuotient(l, r), TruncatedRemainder(l, r))
  {
    var q, m := Magnitudes(l, r);
    hide TruncatedQuotient, TruncatedRemainder;
    Signed(q, if r < 0 then -r else r, l < 0, r < 0);
  }

  lemma Magnitudes(l: int, r: int) returns (q: int, m: int)
    requires r != 0
    ensures var a, b := (if l < 0 then -l else l), if r < 0 then -r else r;
      a == q * b + m && 0 <= m < b && 0 <= q
    ensures TruncatedQuotient(l, r) == (if (l < 0) == (r < 0) then q else -q)
    ensures TruncatedRemainder(l, r) == if l < 0 then -m else m
  {
    q, m := Abs(l) / Abs(r), Abs(l) % Abs(r);
  }

  /** The sign of a product, put on either factor. */
  lemma Signed(q: int, b: int, negative: bool, negated: bool)
    ensures (if negative == negated then q else -q) * (if negated then -b else b)
         == if negative then -(q * b) else q * b
  {
  }

  /** Nothing else is the quotient and the remainder. */
  lemma DividedOnce(l: int, r: int, q: int, m: int)
    requires Divided(l, r, q, m)
    ensures r != 0 && q == TruncatedQuotient(l, r) && m == TruncatedRemainder(l, r)
  {
    TruncationDivides(l, r);
    var q', m' := TruncatedQuotient(l, r), TruncatedRemainder(l, r);
    hide TruncatedQuotient, TruncatedRemainder;
    SameQuotient(r, q, q', m, m');
  }

  lemma SameQuotient(r: int, q: int, q': int, m: int, m': int)
    requires q * r + m == q' * r + m'
    requires -r < m - m' < r || r < m - m' < -r
    ensures q == q' && m == m'
  {
    var d := q - q';
    assert d * r == m' - m;
  }

  /** A division traps exactly when it has no quotient that a word could hold. */
  lemma TrapsExactly(l: Word, r: Word)
    ensures DivisionTraps(l, r) <==> !exists q: Word, m :: Divided(l, r, q, m)
  {
    if r != 0 {
      TruncationDivides(l, r);
      var q, m := TruncatedQuotient(l, r), TruncatedRemainder(l, r);
      QuotientFits(l, r, q, m);
      forall q': Word, m' | Divided(l, r, q', m') ensures q' == q { DividedOnce(l, r, q', m'); }
    }
  }

  lemma QuotientFits(l: Word, r: Word, q: int, m: int)
    requires Divided(l, r, q, m)
    ensures -TWO_63 <= q < TWO_63 <==> !(l == -TWO_63 && r == -1)
    ensures -TWO_63 <= m < TWO_63
  {
    var p := q * r;
    if r != -1 && r != 1 { AtLeastTwice(q, r, p); }
  }

  lemma AtLeastTwice(q: int, r: int, p: int)
    requires p == q * r && (r >= 2 || r <= -2)
    ensures q >= 0 ==> p >= 2 * q || p <= -2 * q
    ensures q < 0 ==> p >= -2 * q || p <= 2 * q
  {
    if r >= 2 { assert p - 2 * q == q * (r - 2); } else { assert p + 2 * q == q * (r + 2); }
  }
}
