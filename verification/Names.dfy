/** How the generator spells the names of fields and temporaries, and how the optimizer
    recognises a global from the spelling alone. */
module Names {

  /** Decimal digits of `n`, as `%u` prints them. */
  function Decimal(n: nat): (s: string)
    ensures |s| > 0
    ensures forall i :: 0 <= i < |s| ==> '0' <= s[i] <= '9'
  {
    var digit := '0' + (n % 10) as char;
    if n < 10 then [digit] else Decimal(n / 10) + [digit]
  }

  /** `llir_field_new`: globals keep their name, other fields get `@` and their scope level. */
  function FieldName(identifier: string, level: nat): string {
    if level == 0 then identifier else identifier + "@" + Decimal(level)
  }

  /** `new_temporary`: a prefix and a running number. */
  function TemporaryName(prefix: char, number: nat): string {
    [prefix] + Decimal(number)
  }

  /** `llir_operand_is_field_global`: no `$` and no `@` anywhere in the name. */
  predicate LooksGlobal(name: string) {
    forall i :: 0 <= i < |name| ==> name[i] != '$' && name[i] != '@'
  }

  /** What the scanner accepts as an identifier never contains the three marker characters. */
  predicate ValidIdentifier(identifier: string) {
    && |identifier| > 0
    && forall i :: 0 <= i < |identifier| ==> identifier[i] != '$' && identifier[i] != '@' && identifier[i] != '#'
  }

  /** Reading the digits back: the left inverse of `Decimal`. */
  function Undecimal(s: string): nat
    requires forall i :: 0 <= i < |s| ==> '0' <= s[i] <= '9'
  {
    if s == "" then 0 else Undecimal(s[..|s| - 1]) * 10 + (s[|s| - 1] - '0') as int
  }

  lemma {:induction false} DecimalRoundTrip(n: nat)
    ensures Undecimal(Decimal(n)) == n
  {
    var digit := '0' + (n % 10) as char;
    if n < 10 {
      assert [digit][..0] == "";
    } else {
      DecimalRoundTrip(n / 10);
      assert (Decimal(n / 10) + [digit])[..|Decimal(n / 10)|] == Decimal(n / 10);
    }
  }

  lemma DecimalInjective(m: nat, n: nat)
    requires Decimal(m) == Decimal(n)
    ensures m == n
  {
    DecimalRoundTrip(m);
    DecimalRoundTrip(n);
  }

  /** Where the marker of a non-global field name sits. */
  lemma FieldNameMarker(identifier: string, level: nat)
    requires ValidIdentifier(identifier) && level > 0
    ensures var name := FieldName(identifier, level);
      && |identifier| < |name| && name[|identifier|] == '@' && name[..|identifier|] == identifier
      && name[|identifier| + 1..] == Decimal(level)
      && (forall i :: 0 <= i < |name| && name[i] == '@' ==> i == |identifier|)
  {
    var name := FieldName(identifier, level);
    assert name == identifier + "@" + Decimal(level);
    forall i | |identifier| < i < |name| ensures name[i] != '@' {
      assert name[i] == Decimal(level)[i - |identifier| - 1];
    }
  }

  /** Distinct identifier/level pairs never share a spelling. */
  lemma FieldNameInjective(id0: string, level0: nat, id1: string, level1: nat)
    requires ValidIdentifier(id0) && ValidIdentifier(id1)
    requires FieldName(id0, level0) == FieldName(id1, level1)
    ensures id0 == id1 && level0 == level1
  {
    if level0 > 0 { FieldNameMarker(id0, level0); }
    if level1 > 0 { FieldNameMarker(id1, level1); }
    if level0 > 0 && level1 > 0 {
      DecimalInjective(level0, level1);
    }
  }

  /** The optimizer's test on the spelling answers exactly "declared at level 0" on fields, and
      treats `$` temporaries as local and `#` temporaries as global. */
  lemma LooksGlobalExactly(identifier: string, level: nat, number: nat)
    requires ValidIdentifier(identifier)
    ensures LooksGlobal(FieldName(identifier, level)) <==> level == 0
    ensures !LooksGlobal(TemporaryName('$', number))
    ensures LooksGlobal(TemporaryName('#', number))
  {
    if level > 0 { FieldNameMarker(identifier, level); }
    assert TemporaryName('$', number)[0] == '$';
  }

  /** Temporaries are pairwise distinct and never collide with a field. */
  lemma TemporaryNameFresh(prefix: char, number: nat, identifier: string, level: nat)
    requires prefix == '$' || prefix == '#'
    requires ValidIdentifier(identifier)
    ensures TemporaryName(prefix, number) != FieldName(identifier, level)
  {
    assert TemporaryName(prefix, number)[0] == prefix;
    assert FieldName(identifier, level)[0] == identifier[0];
  }

  lemma TemporaryNameInjective(p0: char, n0: nat, p1: char, n1: nat)
    requires TemporaryName(p0, n0) == TemporaryName(p1, n1)
    ensures p0 == p1 && n0 == n1
  {
    assert TemporaryName(p0, n0)[0] == p0;
    assert TemporaryName(p1, n1)[0] == p1;
    assert TemporaryName(p0, n0)[1..] == Decimal(n0);
    assert TemporaryName(p1, n1)[1..] == Decimal(n1);
    DecimalInjective(n0, n1);
  }
}
