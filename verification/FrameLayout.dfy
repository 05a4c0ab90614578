/** Frame layout: where the fields of a method lie in its frame, and exactly when that keeps them apart. */
module FrameLayout {
  import opened Words
  import opened Worlds
  import opened Llir
  import opened Machine
  import opened Programs
  import opened CodeGeneration

  /** How many words a name needs: as many as its longest declaration. */
  function Longest(fields: seq<FieldDeclaration>): map<string, nat> {
    if fields == [] then map[]
    else
      var f, lengths := fields[|fields| - 1], Longest(fields[..|fields| - 1]);
      if f.identifier in lengths && lengths[f.identifier] >= |f.values| then lengths
        else lengths[f.identifier := |f.values|]
  }

  lemma {:induction false} LongestCovers(fields: seq<FieldDeclaration>)
    ensures forall f :: f in fields ==> f.identifier in Longest(fields) && |f.values| <= Longest(fields)[f.identifier]
  {
    if fields != [] {
      var n := |fields| - 1;
      LongestCovers(fields[..n]);
      forall f | f in fields ensures f in fields[..n] || f == fields[n] {}
    }
  }

  lemma {:induction false} LongestIs(fields: seq<FieldDeclaration>, name: string) returns (f: FieldDeclaration)
    requires name in Longest(fields)
    ensures f in fields && f.identifier == name && |f.values| == Longest(fields)[name]
  {
    var n := |fields| - 1;
    var shorter := Longest(fields[..n]);
    if name in shorter && shorter[name] == Longest(fields)[name] { f := LongestIs(fields[..n], name); }
      else { f := fields[n]; }
  }

  function TotalWords(fields: seq<FieldDeclaration>): nat {
    if fields == [] then 0 else TotalWords(fields[..|fields| - 1]) + |fields[|fields| - 1].values|
  }

  /** No later declaration has the name of declaration `i`: this is the one whose place is used. */
  predicate IsLast(fields: seq<FieldDeclaration>, i: nat) {
    i < |fields| && forall k :: i < k < |fields| ==> fields[k].identifier != fields[i].identifier
  }

  /** Between the last declarations of two names, at least as many words are declared as the longest
      declaration of the second name needs. Sibling scopes at one depth share names, so this is a
      condition on the program, not a consequence of scoping. */
  predicate SlotsFit(fields: seq<FieldDeclaration>) {
    LongestCovers(fields);
    forall i, j :: 0 <= i < j < |fields| && IsLast(fields, i) && IsLast(fields, j) ==>
      Longest(fields)[fields[j].identifier] <= TotalWords(fields[i + 1..j + 1])
  }

  /** The bytes of a field, below the frame base: from `-offset` up. */
  predicate Apart(offset0: nat, words0: nat, offset1: nat, words1: nat) {
    offset0 <= offset1 - 8 * words1 || offset1 <= offset0 - 8 * words0
  }

  predicate SlotsApart(fields: seq<FieldDeclaration>, offsets: Offsets) {
    forall n, k :: n in Longest(fields) && k in Longest(fields) && n != k ==>
      n in Allocate(offsets, fields) && k in Allocate(offsets, fields)
      && Apart(Allocate(offsets, fields)[n], Longest(fields)[n], Allocate(offsets, fields)[k], Longest(fields)[k])
  }

  // ----- where a name lies -----

  lemma {:induction false} BytesAreWords(fields: seq<FieldDeclaration>)
    ensures FrameBytes(fields) == 8 * TotalWords(fields)
  {
    if fields != [] { BytesAreWords(fields[..|fields| - 1]); }
  }

  lemma {:induction false} WordsConcatenation(a: seq<FieldDeclaration>, b: seq<FieldDeclaration>)
    ensures TotalWords(a + b) == TotalWords(a) + TotalWords(b)
  {
    if b == [] {
      assert a + b == a;
    } else {
      assert (a + b)[..|a + b| - 1] == a + b[..|b| - 1];
      WordsConcatenation(a, b[..|b| - 1]);
    }
  }

  /** A name lies where its last declaration was laid out. */
  lemma {:induction false} OffsetIs(fields: seq<FieldDeclaration>, offsets: Offsets, i: nat)
    requires IsLast(fields, i)
    ensures fields[i].identifier in Allocate(offsets, fields)
    ensures Allocate(offsets, fields)[fields[i].identifier] == 8 * TotalWords(fields[..i + 1])
  {
    var n := |fields| - 1;
    if i == n {
      assert fields[..i + 1] == fields;
      BytesAreWords(fields);
    } else {
      assert IsLast(fields[..n], i);
      OffsetIs(fields[..n], offsets, i);
      assert fields[..n][..i + 1] == fields[..i + 1];
    }
  }

  lemma {:induction false} LastExists(fields: seq<FieldDeclaration>, f: FieldDeclaration) returns (i: nat)
    requires f in fields
    ensures IsLast(fields, i) && fields[i].identifier == f.identifier
  {
    var n := |fields| - 1;
    if fields[n].identifier == f.identifier {
      i := n;
    } else {
      assert f in fields[..n];
      i := LastExists(fields[..n], f);
    }
  }

  /** A declaration needs no more words than have been declared once its name is placed. */
  lemma NeedsAtMost(fields: seq<FieldDeclaration>, i: nat, f: FieldDeclaration)
    requires IsLast(fields, i) && f in fields && f.identifier == fields[i].identifier
    ensures |f.values| <= TotalWords(fields[..i + 1])
  {
    var k :| 0 <= k < |fields| && fields[k] == f;
    assert fields[..i + 1] == fields[..k] + ([f] + fields[k + 1..i + 1]);
    WordsConcatenation(fields[..k], [f] + fields[k + 1..i + 1]);
    WordsConcatenation([f], fields[k + 1..i + 1]);
    assert [f][..0] == [];
  }

  /** Every name lies inside the frame, whatever the lengths. */
  lemma InsideFrame(fields: seq<FieldDeclaration>, offsets: Offsets, f: FieldDeclaration)
    requires f in fields
    ensures f.identifier in Allocate(offsets, fields)
    ensures f.identifier in Longest(fields)
    ensures 8 * |f.values| <= 8 * Longest(fields)[f.identifier] <= Allocate(offsets,
      fields)[f.identifier] <= FrameBytes(fields)
  {
    hide Longest, Allocate;
    var i := LastExists(fields, f);
    OffsetIs(fields, offsets, i);
    LongestCovers(fields);
    var longest := LongestIs(fields, f.identifier);
    NeedsAtMost(fields, i, longest);
    assert fields == fields[..i + 1] + fields[i + 1..];
    WordsConcatenation(fields[..i + 1], fields[i + 1..]);
    BytesAreWords(fields);
  }

  /** Two names, by the places of their last declarations. */
  lemma PairApart(fields: seq<FieldDeclaration>, offsets: Offsets, i: nat, j: nat)
    requires i < j && IsLast(fields, i) && IsLast(fields, j)
    ensures var n, k, table := fields[i].identifier, fields[j].identifier, Allocate(offsets, fields);
      && n in table && k in table && n in Longest(fields) && k in Longest(fields)
      && (Longest(fields)[n] > 0 ==>
            (Apart(table[n], Longest(fields)[n], table[k], Longest(fields)[k]) <==>
              Longest(fields)[k] <= TotalWords(fields[i + 1..j + 1])))
  {
    hide Longest, Allocate, TotalWords;
    OffsetIs(fields, offsets, i);
    OffsetIs(fields, offsets, j);
    LongestCovers(fields);
    assert fields[..j + 1] == fields[..i + 1] + fields[i + 1..j + 1];
    WordsConcatenation(fields[..i + 1], fields[i + 1..j + 1]);
    InsideFrame(fields, offsets, fields[i]);
  }

  // ----- the exact condition -----

  /** Distinct names lie apart exactly when the declarations leave each name enough room. */
  lemma LayoutIsSound(fields: seq<FieldDeclaration>, offsets: Offsets)
    requires forall f :: f in fields ==> |f.values| > 0
    ensures SlotsApart(fields, offsets) <==> SlotsFit(fields)
  {
    if SlotsFit(fields) { FittingIsApart(fields, offsets); }
    if SlotsApart(fields, offsets) { ApartIsFitting(fields, offsets); }
  }

  lemma PlaceOf(fields: seq<FieldDeclaration>, n: string) returns (i: nat)
    requires n in Longest(fields) && forall f :: f in fields ==> |f.values| > 0
    ensures i < |fields| && IsLast(fields, i) && fields[i].identifier == n && Longest(fields)[n] > 0
  {
    hide Longest;
    var f := LongestIs(fields, n);
    i := LastExists(fields, f);
  }

  lemma FittingIsApart(fields: seq<FieldDeclaration>, offsets: Offsets)
    requires SlotsFit(fields) && forall f :: f in fields ==> |f.values| > 0
    ensures SlotsApart(fields, offsets)
  {
    hide Longest, Allocate, TotalWords, Apart, IsLast;
    forall n, k | n in Longest(fields) && k in Longest(fields) && n != k
      ensures n in Allocate(offsets, fields) && k in Allocate(offsets, fields)
      ensures Apart(Allocate(offsets, fields)[n], Longest(fields)[n], Allocate(offsets, fields)[k], Longest(fields)[k])
    {
      var i := PlaceOf(fields, n);
      var j := PlaceOf(fields, k);
      if i < j {
        PairApart(fields, offsets, i, j);
      } else {
        PairApart(fields, offsets, j, i);
        ApartSymmetric(Allocate(offsets, fields)[k], Longest(fields)[k], Allocate(offsets, fields)[n],
          Longest(fields)[n]);
      }
    }
  }

  lemma ApartIsFitting(fields: seq<FieldDeclaration>, offsets: Offsets)
    requires SlotsApart(fields, offsets) && forall f :: f in fields ==> |f.values| > 0
    ensures SlotsFit(fields)
  {
    hide Longest, Allocate, TotalWords, Apart;
    LongestCovers(fields);
    forall i, j | 0 <= i < j < |fields| && IsLast(fields, i) && IsLast(fields, j)
      ensures Longest(fields)[fields[j].identifier] <= TotalWords(fields[i + 1..j + 1])
    {
      PairApart(fields, offsets, i, j);
      var n := PlaceOf(fields, fields[i].identifier);
    }
  }

  lemma ApartSymmetric(offset0: nat, words0: nat, offset1: nat, words1: nat)
    ensures Apart(offset0, words0, offset1, words1) ==> Apart(offset1, words1, offset0, words0)
  {
  }

  /** It is enough that a later declaration of a name is at least as long as every earlier one. */
  lemma GrowingLengthsFit(fields: seq<FieldDeclaration>)
    requires forall i, j :: 0 <= i < j < |fields| && fields[i].identifier == fields[j].identifier ==>
      |fields[i].values| <= |fields[j].values|
    ensures SlotsFit(fields)
  {
    hide Longest, TotalWords;
    LongestCovers(fields);
    forall i, j | 0 <= i < j < |fields| && IsLast(fields, i) && IsLast(fields, j)
      ensures Longest(fields)[fields[j].identifier] <= TotalWords(fields[i + 1..j + 1])
    {
      var f := LongestIs(fields, fields[j].identifier);
      var k :| 0 <= k < |fields| && fields[k] == f;
      assert |fields[k].values| <= |fields[j].values|;
      LastOfSlice(fields, i, j);
    }
  }

  lemma LastOfSlice(fields: seq<FieldDeclaration>, i: nat, j: nat)
    requires i < j < |fields|
    ensures |fields[j].values| <= TotalWords(fields[i + 1..j + 1])
  {
    assert fields[i + 1..j + 1][..j - i - 1] == fields[i + 1..j] && fields[i + 1..j + 1][j - i - 1] == fields[j];
  }

  // ----- the rest of the table -----

  /** The table outside the method's own names is as earlier methods left it. */
  lemma {:induction false} AllocateElsewhere(fields: seq<FieldDeclaration>, offsets: Offsets, name: string)
    requires forall f :: f in fields ==> f.identifier != name
    ensures IsLocal(Allocate(offsets, fields), name) <==> IsLocal(offsets, name)
    ensures name in offsets <==> name in Allocate(offsets, fields)
    ensures name in offsets ==> Allocate(offsets, fields)[name] == offsets[name]
  {
    if fields != [] {
      assert fields[|fields| - 1] in fields;
      AllocateElsewhere(fields[..|fields| - 1], offsets, name);
    }
  }

  /** The frame is the smallest multiple of 16 with room for every declared word. */
  lemma FrameSizeAligned(fields: seq<FieldDeclaration>)
    ensures FrameSize(fields) % 16 == 0 && 8 * TotalWords(fields) <= FrameSize(fields) < 8 * TotalWords(fields) + 16
    ensures FrameBytes(fields) == 8 * TotalWords(fields)
  {
    BytesAreWords(fields);
    var bytes, words := FrameBytes(fields), TotalWords(fields);
    hide FrameBytes, TotalWords;
    RoundedUp(bytes, words);
  }

  lemma RoundedUp(bytes: nat, words: nat)
    requires bytes == 8 * words
    ensures bytes % 8 == 0 && (bytes % 16 == 0 || (bytes + 8) % 16 == 0)
  {
    var pairs := words / 2;
    assert words == 2 * pairs || words == 2 * pairs + 1;
  }
}
