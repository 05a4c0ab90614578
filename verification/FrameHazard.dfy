/** A method whose variables the frame layout puts on top of each other:
    `void g(bool c) { if (c) { int x[2]; int y; } else { int x[1]; } }`. */
module FrameHazard {
  import opened Words
  import opened Worlds
  import opened Llir
  import opened Programs
  import opened CodeGeneration
  import opened FrameLayout
  import Lowering
  import MethodLowering
  import Names
  import Ir

  function Local(id: string, isArray: bool, length: nat): Ir.Field {
    Ir.Field(Ir.Int, isArray, false, id, length, None, false, false)
  }

  const First := Ir.Block([Local("x", true, 2), Local("y", false, 1)], [])

  const Second := Ir.Block([Local("x", true, 1)], [])

  const Branching := Ir.If(Ir.At(Ir.Location("c", None)), First, Some(Second))

  const M := Ir.Method(Ir.Void, "g", [Ir.Field(Ir.Bool, false, false, "c", 1, None, false, false)],
    Ir.Block([], [Branching]))

  const C1 := FieldDeclaration("c@1", false, [0])
  const T0 := FieldDeclaration("$0", false, [0])
  const LongX := FieldDeclaration("x@2", true, [0, 0])
  const Y := FieldDeclaration("y@2", false, [0])
  const ShortX := FieldDeclaration("x@2", true, [0])

  lemma Spellings()
    ensures Names.FieldName("c", 1) == "c@1" && Names.FieldName("x", 2) == "x@2" && Names.FieldName("y", 2) == "y@2"
    ensures Names.TemporaryName('$', 0) == "$0"
  {
    assert Names.Decimal(1) == "1" && Names.Decimal(0) == "0" && Names.Decimal(2) == "2";
  }

  lemma Made()
    ensures Lowering.MakeField(Local("x", true, 2), 2) == LongX && Lowering.MakeField(Local("y", false, 1), 2) == Y
    ensures Lowering.MakeField(Local("x", true, 1), 2) == ShortX && Lowering.MakeField(M.arguments[0], 1) == C1
  {
    Spellings();
    assert Lowering.FieldValues(Local("x", true, 2)) == [0, 0];
  }

  /** What a declaration adds to the current block's fields. */
  lemma {:induction false} FieldsAdded(s: Lowering.Generator, fields: seq<Ir.Field>)
    requires s.symbols != []
    ensures var s', level := Lowering.GenerateFields(s, fields), |s.symbols| - 1;
      && s'.fields == s.fields + seq(|fields|, i requires 0 <= i < |fields| => Lowering.MakeField(fields[i], level))
      && s'.order == s.order && s'.finished == s.finished && s'.current == s.current && s'.nextBlock == s.nextBlock
      && s'.temporaries == s.temporaries && |s'.symbols| == |s.symbols|
  {
    hide Lowering.MakeField, Lowering.InitializeElements;
    if fields != [] {
      var n := |fields| - 1;
      FieldsAdded(s, fields[..n]);
      var field := Lowering.MakeField(fields[n], |s.symbols| - 1);
      var s1 := Lowering.GenerateFields(s, fields[..n]);
      ElementsAdded(Lowering.AddField(s1.(symbols := Lowering.Declare(s1.symbols, fields[n])), field), field.identifier,
        field.values);
    }
  }

  lemma {:induction false} ElementsAdded(s: Lowering.Generator, name: string, values: seq<Word>)
    ensures Lowering.InitializeElements(s, name, values)
      == s.(code := Lowering.InitializeElements(s, name, values).code)
  {
    if values != [] { ElementsAdded(s, name, values[..|values| - 1]); }
  }

  /** A block without statements. */
  lemma BlockAdds(s: Lowering.Generator, b: Ir.Block)
    requires b.statements == [] && s.symbols != []
    ensures var s', level := Lowering.GenerateBlock(s, b), |s.symbols|;
      && s'.fields == s.fields
        + seq(|b.fields|, i requires 0 <= i < |b.fields| => Lowering.MakeField(b.fields[i], level))
      && s'.order == s.order && s'.finished == s.finished && s'.current == s.current && s'.nextBlock == s.nextBlock
      && s'.temporaries == s.temporaries && s'.symbols == s.symbols
  {
    hide Lowering.GenerateFields, Lowering.MakeField;
    FieldsAdded(s.(symbols := s.symbols + [map[]]), b.fields);
  }

  lemma GeneratedFields()
    ensures var g := Lowering.GenerateMethod(map[], M, 0, 0);
      MethodFields(Method(MethodLowering.Parameters(M.arguments), g)) == [C1, T0, LongX, Y, ShortX]
  {
    Made();
    var s := BodyFields();
    hide Lowering.GenerateBody, Lowering.PredecessorLists, LocalFields;
    var g := Lowering.GenerateMethod(map[], M, 0, 0);
    assert g.order == [0, 1, 2, 3] && g.blocks == Lowering.Blocks(s, Return(Literal(0)));
    BlockFields(g.blocks);
    assert MethodLowering.Parameters(M.arguments) == [C1];
  }

  lemma BodyFields() returns (s: Lowering.Generator)
    ensures Lowering.GenerateBody(map[], M, 0, 0) == s
    ensures s.order == [0, 1, 2] && s.current == 3 && s.fields == [] && s.finished.Keys == {0, 1, 2}
    ensures s.finished[0].fields == [T0] && s.finished[1].fields == [LongX, Y] && s.finished[2].fields == [ShortX]
  {
    Made();
    assert M.arguments[..0] == [];
    var symbols := Lowering.DeclareAll([map[], map[]], M.arguments);
    assert symbols == [map[], map["c" := C1]];
    var s0 := Lowering.Generator(0, 1, symbols, [], [], [], map[], 0, [], []);
    assert Lowering.StartMethod(map[], M, 0, 0) == s0;
    assert Lowering.Lookup(symbols, "c") == Some(C1);
    s := Lowering.GenerateIf(s0, Branching);
    BranchingFields(s0, s);
    hide Lowering.GenerateIf, Lowering.StartMethod;
    assert [Branching][1..] == [];
    assert Lowering.GenerateStatement(s0, Branching) == s;
    assert Lowering.GenerateStatements(s, []) == s;
  }

  lemma BlockFields(blocks: map<BlockId, Block>)
    requires blocks.Keys == {0, 1, 2, 3} && blocks[0].fields == [T0] && blocks[1].fields == [LongX, Y]
    requires blocks[2].fields == [ShortX] && blocks[3].fields == []
    ensures LocalFields([0, 1, 2, 3], blocks) == [T0, LongX, Y, ShortX]
  {
    assert [0, 1, 2, 3][..3] == [0, 1, 2] && [0, 1, 2][..2] == [0, 1] && [0, 1][..1] == [0] && [0][..0] == [];
    assert LocalFields([0], blocks) == [T0];
    assert LocalFields([0, 1], blocks) == [T0, LongX, Y];
    assert LocalFields([0, 1, 2], blocks) == [T0, LongX, Y, ShortX];
  }

  lemma ConditionFields(s0: Lowering.Generator)
    requires s0.temporaries == 0 && s0.fields == [] && s0.code == [] && Lowering.Lookup(s0.symbols, "c") == Some(C1)
    ensures Lowering.GenerateExpression(s0, Branching.condition)
         == (s0.(temporaries := 1, fields := [T0], code := [Unary(Move, "$0", Field("c@1"))]), Field("$0"))
  {
    Spellings();
    var s1 := s0.(temporaries := 1, fields := [T0], code := [Unary(Move, "$0", Field("c@1"))]);
    assert s0.fields + s1.fields == s1.fields && s0.code + s1.code == s1.code;
    assert Lowering.FieldOf(s0.symbols, "c") == C1;
    assert Lowering.GenerateExpression(s0, Branching.condition)
      == Lowering.GenerateLocation(s0, Ir.Location("c", None));
  }

  lemma BranchingFields(s0: Lowering.Generator, s: Lowering.Generator)
    requires s0 == Lowering.Generator(0, 1, s0.symbols, [], [], [], map[], 0, [], []) && |s0.symbols| == 2
    requires Lowering.Lookup(s0.symbols, "c") == Some(C1) && s == Lowering.GenerateIf(s0, Branching)
    ensures s.order == [0, 1, 2] && s.current == 3 && s.fields == [] && s.finished.Keys == {0, 1, 2}
    ensures s.finished[0].fields == [T0] && s.finished[1].fields == [LongX, Y] && s.finished[2].fields == [ShortX]
  {
    var s1 := s0.(temporaries := 1, fields := [T0], code := [Unary(Move, "$0", Field("c@1"))]);
    ConditionFields(s0);
    var s4 := Lowering.Finish(s1.(nextBlock := 3), Lowering.SkipIfZero(Field("$0"), 1, 2), 1);
    assert s4.order == [0] && s4.finished[0].fields == [T0];
    FirstFields(s4);
    IfUnfolds(s0, s1, s4);
    hide Lowering.GenerateExpression, Lowering.GenerateBlock, Lowering.SkipIfZero, Lowering.GenerateIf;
    SecondFields(Lowering.Finish(Lowering.GenerateBlock(s4, First).(nextBlock := 4), Jump(3), 2));
  }

  lemma IfUnfolds(s0: Lowering.Generator, s1: Lowering.Generator, s4: Lowering.Generator)
    requires Lowering.GenerateExpression(s0, Branching.condition) == (s1, Field("$0")) && s1.nextBlock == 1
    requires s4 == Lowering.Finish(s1.(nextBlock := 3), Lowering.SkipIfZero(Field("$0"), 1, 2), 1)
    requires Lowering.GenerateBlock(s4, First).nextBlock == 3
    ensures var s7 := Lowering.Finish(Lowering.GenerateBlock(s4, First).(nextBlock := 4), Jump(3), 2);
      Lowering.GenerateIf(s0, Branching) == Lowering.Finish(Lowering.GenerateBlock(s7, Second), Jump(3), 3)
  {
    hide Lowering.GenerateExpression, Lowering.GenerateBlock, Lowering.SkipIfZero, Lowering.Finish;
  }

  lemma FirstFields(s: Lowering.Generator)
    requires s.order == [0] && s.current == 1 && s.fields == [] && s.finished.Keys == {0} && |s.symbols| == 2
      && s.nextBlock == 3
    ensures var s5 := Lowering.GenerateBlock(s, First);
      var s' := Lowering.Finish(s5.(nextBlock := 4), Jump(3), 2);
      && s5.nextBlock == 3 && s'.order == [0, 1] && s'.current == 2 && s'.fields == [] && s'.finished.Keys == {0, 1}
      && s'.finished[0] == s.finished[0] && s'.finished[1].fields == [LongX, Y] && s'.symbols == s.symbols
  {
    Made();
    BlockAdds(s, First);
    hide Lowering.GenerateBlock, Lowering.MakeField;
    assert Lowering.GenerateBlock(s, First).fields == [LongX, Y];
  }

  lemma SecondFields(s: Lowering.Generator)
    requires s.order == [0, 1] && s.current == 2 && s.fields == [] && s.finished.Keys == {0, 1} && |s.symbols| == 2
    ensures var s' := Lowering.Finish(Lowering.GenerateBlock(s, Second), Jump(3), 3);
      && s'.order == [0, 1, 2] && s'.current == 3 && s'.fields == [] && s'.finished.Keys == {0, 1, 2}
      && s'.finished[0] == s.finished[0] && s'.finished[1] == s.finished[1] && s'.finished[2].fields == [ShortX]
  {
    Made();
    BlockAdds(s, Second);
    hide Lowering.GenerateBlock, Lowering.MakeField;
    assert Lowering.GenerateBlock(s, Second).fields == [ShortX];
  }

  /** The second word of the longer `x` is the word of `y`. */
  lemma VariablesOverlap(offsets: Offsets)
    ensures var fields :=
      MethodFields(Method(MethodLowering.Parameters(M.arguments), Lowering.GenerateMethod(map[], M, 0, 0)));
      && fields == [C1, T0, LongX, Y, ShortX]
      && !SlotsFit(fields) && !SlotsApart(fields, offsets)
      && LongX in fields && Y in fields
      && "x@2" in Allocate(offsets, fields) && "y@2" in Allocate(offsets, fields)
      && Allocate(offsets, fields)["x@2"] - 8 * 1 == Allocate(offsets, fields)["y@2"]
  {
    hide MethodFields, Lowering.GenerateMethod, MethodLowering.Parameters, Allocate, SlotsFit, SlotsApart;
    GeneratedFields();
    ListOverlaps(offsets);
  }

  lemma ListOverlaps(offsets: Offsets)
    ensures var fields := [C1, T0, LongX, Y, ShortX];
      && !SlotsFit(fields) && !SlotsApart(fields, offsets)
      && LongX in fields && Y in fields
      && "x@2" in Allocate(offsets, fields) && "y@2" in Allocate(offsets, fields)
      && Allocate(offsets, fields)["x@2"] - 8 * 1 == Allocate(offsets, fields)["y@2"]
  {
    var fields := [C1, T0, LongX, Y, ShortX];
    hide Allocate, Longest, SlotsApart;
    assert "c@1"[0] != "x@2"[0] && "$0"[0] != "x@2"[0] && "y@2"[0] != "x@2"[0];
    assert IsLast(fields, 3) && IsLast(fields, 4);
    LongestCovers(fields);
    assert LongX in fields;
    assert fields[4..5] == [ShortX] && [ShortX][..0] == [];
    assert TotalWords([ShortX]) == 1;
    LayoutIsSound(fields, offsets);
    OffsetIs(fields, offsets, 3);
    OffsetIs(fields, offsets, 4);
    assert fields[..5] == fields[..4] + [ShortX];
    WordsConcatenation(fields[..4], [ShortX]);
  }
}
