/** Why the two operand passes ask that every replaced name be written on every path: the search records
    assignments only, so the value a parameter arrives with is not among the definitions it finds. The
    method is `int f(int p, bool c) { if (c) { p = 5; } return p; }`, as the generator lowers it. */
module ParameterHazard {
  import opened Words
  import opened Worlds
  import opened Llir
  import opened ReachingDefinitions
  import opened Rewriting
  import opened OperandPasses
  import opened Compilation
  import Lowering
  import Names
  import Ir

  const P := "p@1"
  const C := "c@1"

  function Parameter(t: Ir.Type, id: string): Ir.Field {
    Ir.Field(t, false, false, id, 1, None, false, false)
  }

  function Variable(id: string): Ir.Expression {
    Ir.At(Ir.Location(id, None))
  }

  const AssignFive := Ir.Assign(Ir.Assignment(Ir.Location("p", None), Ir.Set,
    Some(Ir.Constant(Ir.Literal(Ir.IntLiteral, false, 5)))))

  const F := Ir.Method(Ir.Int, "f", [Parameter(Ir.Int, "p"), Parameter(Ir.Bool, "c")],
                       Ir.Block([], [Ir.If(Variable("c"), Ir.Block([], [AssignFive]), None),
                         Ir.Return(Some(Variable("p")))]))

  function Temporary(name: string): FieldDeclaration {
    FieldDeclaration(name, false, [0])
  }

  function Blocks(w: Operand, x: Operand, y: Operand, z: Operand): map<BlockId, Block> {
    map[0 := Block([Temporary("$0")], [Unary(Move, "$0", Field(C))], Branch(IfEqual, false, w, Literal(0), 1, 2)),
        1 := Block([Temporary("$1")], [Unary(Move, "$1", Literal(5)), Unary(Move, P, x)], Jump(2)),
        2 := Block([Temporary("$2")], [Unary(Move, "$2", y)], Return(z)),
        3 := Block([], [], Exit(-2))]
  }

  /** The method body, with the operands that the passes replace left open. */
  function Body(w: Operand, x: Operand, y: Operand, z: Operand): Graph {
    Graph([0, 1, 2, 3], Blocks(w, x, y, z), map[0 := [], 1 := [0], 2 := [0, 1], 3 := []])
  }

  const Generated := Body(Field("$0"), Field("$1"), Field(P), Field("$2"))

  // ----- what the generator makes of the method -----

  lemma Spellings()
    ensures Names.FieldName("p", 1) == P && Names.FieldName("c", 1) == C
    ensures Names.TemporaryName('$', 0) == "$0" && Names.TemporaryName('$', 1) == "$1" && Names.TemporaryName('$', 2)
      == "$2"
  {
    assert Names.Decimal(1) == "1" && Names.Decimal(0) == "0" && Names.Decimal(2) == "2";
  }

  function FieldP(): FieldDeclaration {
    FieldDeclaration(P, false, [0])
  }

  function FieldC(): FieldDeclaration {
    FieldDeclaration(C, false, [0])
  }

  lemma Declared() returns (symbols: Lowering.SymbolTables)
    ensures Lowering.StartMethod(map[], F, 0, 0) == Lowering.Generator(0, 1, symbols, [], [], [], map[], 0, [], [])
    ensures Lowering.Lookup(symbols, "p") == Some(FieldP()) && Lowering.Lookup(symbols, "c") == Some(FieldC())
  {
    Spellings();
    var p, c := Parameter(Ir.Int, "p"), Parameter(Ir.Bool, "c");
    assert [p, c][..1] == [p] && [p][..0] == [];
    var table: Lowering.SymbolTables := [map[], map[]];
    assert Lowering.MakeField(p, 1) == FieldP() && Lowering.MakeField(c, 1) == FieldC();
    assert Lowering.DeclareAll(table, [p]) == [map[], map["p" := FieldP()]];
    assert Lowering.DeclareAll(table, [p, c]) == [map[], map["p" := FieldP(), "c" := FieldC()]];
    symbols := Lowering.DeclareAll(table, [p, c]);
  }

  lemma ReturnIsGenerated(s1: Lowering.Generator, s2: Lowering.Generator)
    requires Lowering.Lookup(s1.symbols, "p") == Some(FieldP()) && s1.temporaries == 2 && s1.nextBlock == 3
      && s1.current == 2
    requires s1.fields == [] && s1.code == []
    requires s2 == s1.(temporaries := 3, nextBlock := 4, order := s1.order + [2], finished :=
      s1.finished[2 := Generated.blocks[2]], current := 3)
    ensures Lowering.GenerateStatement(s1, F.body.statements[1]) == s2
  {
    Spellings();
    VariableIsGenerated(s1, "p", FieldP());
    var ready := s1.(temporaries := 3, fields := [Temporary("$2")], code := [Unary(Move, "$2", Field(P))]);
    assert s1.fields + ready.fields == ready.fields && s1.code + ready.code == ready.code;
    hide Lowering.GenerateExpression;
    assert Lowering.GenerateExpression(s1, Variable("p")) == (ready, Field("$2"));
    assert Lowering.GenerateEnd(ready, Return(Field("$2"))) == s2;
  }

  lemma MethodIsGenerated()
    ensures Lowering.GenerateMethod(map[], F, 0, 0) == Generated
  {
    var symbols := Declared();
    var all := Generated.blocks;
    var s0 := Lowering.Generator(0, 1, symbols, [], [], [], map[], 0, [], []);
    var s1 := Lowering.Generator(2, 3, symbols, [], [], [0, 1], map[0 := all[0], 1 := all[1]], 2, [], []);
    IfIsGenerated(s0, s1, FieldP(), FieldC());
    var s2 := Lowering.Generator(3, 4, symbols, [], [], [0, 1] + [2], s1.finished[2 := all[2]], 3, [], []);
    ReturnIsGenerated(s1, s2);
    var first, second := F.body.statements[0], F.body.statements[1];
    hide Lowering.GenerateStatement, Lowering.StartMethod, Blocks, Lowering.Assembled;
    assert F.body.statements[1..] == [second] && [second][1..] == [];
    assert Lowering.GenerateStatements(s2, []) == s2;
    assert Lowering.GenerateStatements(s1, [second]) == s2;
    assert Lowering.GenerateStatements(s0, F.body.statements) == s2;
    PredecessorsAre();
    LastBlock(s2);
  }

  lemma LastBlock(s: Lowering.Generator)
    requires Lowering.GenerateBody(map[], F, 0, 0) == s && s.order == [0, 1, 2] && s.current == 3 && s.fields == []
      && s.code == []
    requires s.finished == map[0 := Generated.blocks[0], 1 := Generated.blocks[1], 2 := Generated.blocks[2]]
    requires Lowering.Assembled([0, 1, 2, 3], Generated.blocks) == Generated
    ensures Lowering.GenerateMethod(map[], F, 0, 0) == Generated
  {
    hide Lowering.GenerateBody, Lowering.Assembled;
    assert Lowering.Blocks(s, Lowering.LastTerminal(F)) == Generated.blocks;
    assert s.order + [3] == [0, 1, 2, 3];
  }

  lemma VariableIsGenerated(s: Lowering.Generator, id: string, f: FieldDeclaration)
    requires Lowering.Lookup(s.symbols, id) == Some(f)
    ensures var d := Names.TemporaryName('$', s.temporaries);
      Lowering.GenerateExpression(s, Variable(id))
        == (s.(temporaries := s.temporaries + 1, fields := s.fields + [Temporary(d)], code :=
          s.code + [Unary(Move, d, Field(f.identifier))]), Field(d))
  {
    assert Lowering.FieldOf(s.symbols, id) == f;
    assert Lowering.GenerateExpression(s, Variable(id)) == Lowering.GenerateLocation(s, Ir.Location(id, None));
  }

  const Five := Ir.Block([], [AssignFive])

  lemma FiveIsGenerated(s: Lowering.Generator, s': Lowering.Generator)
    requires Lowering.Lookup(s.symbols, "p") == Some(FieldP()) && s.temporaries == 1 && s.fields == [] && s.code == []
    requires s' == s.(temporaries := 2, fields := [Temporary("$1")], code :=
      [Unary(Move, "$1", Literal(5)), Unary(Move, P, Field("$1"))])
    ensures Lowering.GenerateBlock(s, Five) == s'
  {
    Spellings();
    var inner := s.(symbols := s.symbols + [map[]]);
    assert inner.symbols[..|s.symbols|] == s.symbols;
    assert Lowering.Lookup(inner.symbols, "p") == Some(FieldP());
    hide Lowering.Lookup;
    var after := s'.(symbols := inner.symbols);
    assert Lowering.GenerateAssignment(inner, AssignFive.assignment) == after;
    hide Lowering.GenerateAssignment;
    assert [AssignFive][1..] == [];
    assert Lowering.GenerateFields(inner, []) == inner;
    assert Lowering.GenerateStatement(inner, AssignFive) == after;
    assert Lowering.GenerateStatements(after, []) == after;
    assert Lowering.GenerateStatements(inner, [AssignFive]) == after;
  }

  lemma IfIsGenerated(s0: Lowering.Generator, s1: Lowering.Generator, p: FieldDeclaration, c: FieldDeclaration)
    requires p == FieldP() && c == FieldC()
    requires Lowering.Lookup(s0.symbols, "p") == Some(p) && Lowering.Lookup(s0.symbols, "c") == Some(c)
    requires s0 == Lowering.Generator(0, 1, s0.symbols, [], [], [], map[], 0, [], [])
    requires var all := Blocks(Field("$0"), Field("$1"), Field(P), Field("$2"));
      s1 == Lowering.Generator(2, 3, s0.symbols, [], [], [0, 1], map[0 := all[0], 1 := all[1]], 2, [], [])
    ensures Lowering.GenerateStatement(s0, F.body.statements[0]) == s1
  {
    Spellings();
    var all := Blocks(Field("$0"), Field("$1"), Field(P), Field("$2"));
    var t1 := Lowering.Generator(1, 1, s0.symbols, [], [], [], map[], 0, [Temporary("$0")],
      [Unary(Move, "$0", Field(C))]);
    VariableIsGenerated(s0, "c", c);
    assert s0.fields + t1.fields == t1.fields && s0.code + t1.code == t1.code;
    hide Lowering.GenerateExpression, Lowering.GenerateBlock, Lowering.Lookup;
    assert Lowering.NewBlock(Lowering.NewBlock(t1).0).0 == t1.(nextBlock := 3);
    var t2 := Lowering.Generator(1, 3, s0.symbols, [], [], [0], map[0 := all[0]], 1, [], []);
    assert Lowering.Finish(t1.(nextBlock := 3), Branch(IfEqual, false, Field("$0"), Literal(0), 1, 2), 1) == t2;
    var t3 := t2.(temporaries := 2, fields := [Temporary("$1")], code :=
      [Unary(Move, "$1", Literal(5)), Unary(Move, P, Field("$1"))]);
    FiveIsGenerated(t2, t3);
    assert t2.finished[1 := all[1]] == s1.finished && t2.order + [1] == s1.order;
    assert Lowering.Finish(t3, Jump(2), 2) == s1;
    var statement := F.body.statements[0];
    assert statement == Ir.If(Variable("c"), Five, None);
    assert Lowering.GenerateStatement(s0, statement) == Lowering.GenerateIf(s0, statement);
    assert Lowering.GenerateIf(s0, statement) == s1;
  }

  lemma AddedPredecessors()
    ensures Lowering.AddPredecessor(map[], [1, 2], 0) == map[1 := [0], 2 := [0]]
    ensures Lowering.AddPredecessor(map[1 := [0], 2 := [0]], [2], 1) == map[1 := [0], 2 := [0, 1]]
    ensures Lowering.AddPredecessor(map[1 := [0], 2 := [0, 1]], [], 2) == map[1 := [0], 2 := [0, 1]]
    ensures Lowering.AddPredecessor(map[1 := [0], 2 := [0, 1]], [], 3) == map[1 := [0], 2 := [0, 1]]
  {
    assert [1, 2][1..] == [2] && [2][1..] == [];
    var none: map<BlockId, seq<BlockId>>, one: map<BlockId, seq<BlockId>> := map[], map[1 := [0]];
    assert Lowering.Listed(none, 1) + [0] == [0] && Lowering.Listed(one, 2) + [0] == [0];
    assert none[1 := Lowering.Listed(none, 1) + [0]] == one;
    assert one[2 := Lowering.Listed(one, 2) + [0]] == map[1 := [0], 2 := [0]];
    assert Lowering.AddPredecessor(none, [1, 2], 0) == Lowering.AddPredecessor(one, [2], 0);
    assert Lowering.AddPredecessor(one, [2], 0) == Lowering.AddPredecessor(map[1 := [0], 2 := [0]], [], 0);
    var two: map<BlockId, seq<BlockId>> := map[1 := [0], 2 := [0]];
    assert Lowering.Listed(two, 2) + [1] == [0, 1];
    assert two[2 := Lowering.Listed(two, 2) + [1]] == map[1 := [0], 2 := [0, 1]];
    assert Lowering.AddPredecessor(two, [2], 1) == Lowering.AddPredecessor(map[1 := [0], 2 := [0, 1]], [], 1);
  }

  lemma ListsAre(blocks: map<BlockId, Block>)
    requires blocks.Keys == {0, 1, 2, 3}
    requires Successors(blocks[0].terminal) == [1, 2] && Successors(blocks[1].terminal) == [2]
    requires Successors(blocks[2].terminal) == [] && Successors(blocks[3].terminal) == []
    ensures Lowering.PredecessorLists([0, 1, 2, 3], blocks) == map[1 := [0], 2 := [0, 1]]
  {
    assert [0, 1, 2, 3][..3] == [0, 1, 2] && [0, 1, 2][..2] == [0, 1] && [0, 1][..1] == [0] && [0][..0] == [];
    AddedPredecessors();
    hide Lowering.AddPredecessor;
    assert Lowering.PredecessorLists([], blocks) == map[];
    assert Lowering.PredecessorLists([0], blocks) == map[1 := [0], 2 := [0]];
    assert Lowering.PredecessorLists([0, 1], blocks) == map[1 := [0], 2 := [0, 1]];
    assert Lowering.PredecessorLists([0, 1, 2], blocks) == map[1 := [0], 2 := [0, 1]];
  }

  lemma PredecessorsAre()
    ensures Lowering.Assembled([0, 1, 2, 3], Generated.blocks) == Generated
  {
    ListsAre(Generated.blocks);
    hide Lowering.PredecessorLists;
    assert Lowering.Assembled([0, 1, 2, 3], Generated.blocks).predecessors == Generated.predecessors;
  }

  // ----- what the passes make of it -----

  lemma BodyWellFormed(w: Operand, x: Operand, y: Operand, z: Operand)
    ensures WellFormed(Body(w, x, y, z))
  {
    var g := Body(w, x, y, z);
    assert g.blocks.Keys == {0, 1, 2, 3};
    assert Successors(g.blocks[0].terminal) == [1, 2] && Successors(g.blocks[1].terminal) == [2];
    assert Successors(g.blocks[2].terminal) == [] && Successors(g.blocks[3].terminal) == [];
    hide Blocks;
    forall t, b | t in g.blocks ensures b in g.predecessors[t] <==> IsEdge(g, b, t) {
      assert t == 0 || t == 1 || t == 2 || t == 3;
      if b in g.blocks { assert b == 0 || b == 1 || b == 2 || b == 3; }
    }
  }

  /** `d` is the only place where `x` is written. */
  ghost predicate OnlyWriter(g: Graph, x: string, d: Position) {
    forall e: Position :: e.block in g.blocks && e.index < Length(g, e.block) && At(g, e).destination == x ==> e == d
  }

  lemma NeverReplaced(pass: Pass, g: Graph, u: Position, x: string)
    requires NeverWritten(g, x)
    ensures Rewritten(pass, g, u, Field(x)) == Field(x)
  {
    hide InRegion;
    assert forall d :: !IsReachingDefinition(g, x, u, d);
  }

  lemma FoldedHere(g: Graph, u: Position, x: string, d: Position)
    requires OnlyWriter(g, x, d) && IsReachingDefinition(g, x, u, d) && !Names.LooksGlobal(x)
    requires At(g, d).Unary? && At(g, d).unaryOp == Move
    ensures Rewritten(Folding, g, u, Field(x)) == if At(g, d).source.Literal? then At(g, d).source else Field(x)
  {
    hide InRegion;
    if At(g, d).source.Literal? { assert ConstantAt(g, x, u, At(g, d).source.value); }
    forall c | ConstantAt(g, x, u, c) ensures At(g, d).source == Literal(c) {
      assert At(g, d) == Unary(Move, x, Literal(c));
    }
  }

  lemma CopiedHere(g: Graph, u: Position, x: string, d: Position)
    requires OnlyWriter(g, x, d) && IsReachingDefinition(g, x, u, d) && !Names.LooksGlobal(x)
    requires At(g, d).Unary? && At(g, d).unaryOp == Move
    requires At(g, d).source.Field? ==> Stable(g, x, u, At(g, d).source)
    ensures Rewritten(Copying, g, u, Field(x)) == if At(g, d).source.Field? then At(g, d).source else Field(x)
  {
    hide InRegion, IsMutated;
    if At(g, d).source.Field? { assert CopyAt(g, x, u, At(g, d).source.name); }
    forall y | CopyAt(g, x, u, y) ensures At(g, d).source == Field(y) {
      assert At(g, d) == Unary(Move, x, Field(y));
    }
  }

  /** One point with one operand. */
  lemma PointRewritten(pass: Pass, g: Graph, u: Position, o: Operand, h: Graph)
    requires WellFormed(g) && Valid(g, u) && |OperandsAt(g, u)| == 1 && Rewritten(pass, g, u, OperandsAt(g, u)[0]) == o
    requires h == SetOperand(g, u, 0, o) && Closed(h)
    requires u.index < Length(g, u.block) ==> At(g, u).Unary? && At(g, u).unaryOp == Move
    ensures RewritePoint(pass, g, u) == Some(h)
  {
    hide Rewritten, PredecessorsAgree;
    SetOperandSameShape(g, u, 0, o);
    assert RewriteOperands(pass, h, u, 1) == h;
    assert RewriteOperands(pass, g, u, 0) == h;
    if u.index < Length(g, u.block) {
      assert Folded(At(h, u)) == Some(At(h, u));
      var block := h.blocks[u.block];
      assert block.assignments[u.index := At(h, u)] == block.assignments;
      assert SetAssignment(h, u, At(h, u)) == h;
    }
  }

  lemma PointWithout(pass: Pass, g: Graph, u: Position)
    requires WellFormed(g) && Valid(g, u) && OperandsAt(g, u) == [] && u.index == Length(g, u.block)
    ensures RewritePoint(pass, g, u) == Some(g)
  {
  }

  lemma Distinct()
    ensures !Names.LooksGlobal("$0") && !Names.LooksGlobal("$1") && !Names.LooksGlobal("$2") && !Names.LooksGlobal(P)
      && !Names.LooksGlobal(C)
    ensures "$0" != "$1" && "$0" != "$2" && "$1" != "$2" && P != C && P !in {"$0", "$1", "$2"}
      && C !in {"$0", "$1", "$2"}
  {
    assert "$0"[0] == '$' && "$1"[0] == '$' && "$2"[0] == '$' && P[1] == '@' && C[1] == '@';
    assert P[0] != '$' && C[0] != '$' && P[0] != C[0] && "$0"[1] != "$1"[1] && "$1"[1] != "$2"[1] && "$0"[1] != "$2"[1];
  }

  /** What is written where. */
  function Destination(e: Position): string {
    if e.block == 0 then "$0" else if e.block == 2 then "$2" else if e.index == 0 then "$1" else P
  }

  lemma Destinations(w: Operand, x: Operand, y: Operand, z: Operand, e: Position)
    requires var g := Body(w, x, y, z); e.block in g.blocks && e.index < Length(g, e.block)
    ensures At(Body(w, x, y, z), e).destination == Destination(e)
    ensures e in {Position(0, 0), Position(1, 0), Position(1, 1), Position(2, 0)}
  {
  }

  lemma Writers(w: Operand, x: Operand, y: Operand, z: Operand)
    ensures var g := Body(w, x, y, z);
      && OnlyWriter(g, "$0", Position(0, 0)) && OnlyWriter(g, "$1", Position(1, 0)) && OnlyWriter(g, P, Position(1, 1))
      && OnlyWriter(g, "$2", Position(2, 0)) && NeverWritten(g, C)
    ensures !Names.LooksGlobal("$0") && !Names.LooksGlobal("$1") && !Names.LooksGlobal("$2") && !Names.LooksGlobal(P)
      && !Names.LooksGlobal(C)
  {
    Distinct();
    hide Body, Names.LooksGlobal;
    var g := Body(w, x, y, z);
    forall e: Position | e.block in g.blocks && e.index < Length(g, e.block)
      ensures At(g, e).destination == Destination(e)
        && e in {Position(0, 0), Position(1, 0), Position(1, 1), Position(2, 0)}
    {
      Destinations(w, x, y, z, e);
    }
  }

  lemma Reaching(w: Operand, x: Operand, y: Operand, z: Operand)
    ensures var g := Body(w, x, y, z);
      && IsReachingDefinition(g, "$0", Position(0, 1), Position(0, 0))
      && IsReachingDefinition(g, "$1", Position(1, 1), Position(1, 0))
      && IsReachingDefinition(g, P, Position(2, 0), Position(1, 1))
      && IsReachingDefinition(g, "$2", Position(2, 1), Position(2, 0))
  {
    var g := Body(w, x, y, z);
    assert Follows(g, P, [2], Position(2, 0)) && [2][0] == 2;
    assert Successors(g.blocks[1].terminal) == [2];
    assert IsEdge(g, 1, 2) && EntryReaches(g, P, 2, Position(2, 0));
  }

  /** What is copied is not written between the copy and its use. */
  lemma StableSources(w: Operand, x: Operand, y: Operand, z: Operand)
    ensures var g := Body(w, x, y, z);
      && Stable(g, "$0", Position(0, 1), Field(C)) && Stable(g, P, Position(2, 0), Field("$1"))
        && Stable(g, "$2", Position(2, 1), Field("$1"))
  {
    Writers(w, x, y, z);
    var g := Body(w, x, y, z);
    assert forall q :: !(IsPassedWrite(g, "$0", Position(0, 1), q) && At(g, q).destination == C);
    var q := Position(1, 0);
    assert At(g, Position(1, 1)).destination == P && At(g, Position(2, 0)).destination == "$2";
    assert !Clear(g, P, 1, 1, 2) by { assert g.blocks[1].assignments[1].destination == P; }
    assert !IsPassedWrite(g, P, Position(2, 0), q);
    assert !EntryReaches(g, "$2", 2, Position(2, 1)) by { NotThroughWrite(g); }
    assert forall t :: IsEdge(g, 1, t) ==> t == 2;
    assert !IsPassedWrite(g, "$2", Position(2, 1), q);
  }

  lemma NotThroughWrite(g: Graph)
    requires 2 in g.blocks && Length(g, 2) == 1 && g.blocks[2].assignments[0].destination == "$2"
    ensures !EntryReaches(g, "$2", 2, Position(2, 1))
  {
    assert !Clear(g, "$2", 2, 0, 1);
  }

  /** Points that neither pass changes. */
  lemma UnchangedPoints(pass: Pass, w: Operand, x: Operand, y: Operand, z: Operand)
    ensures var g := Body(w, x, y, z);
      && WellFormed(g)
      && RewritePoint(pass, g, Position(0, 0)) == Some(g) && RewritePoint(pass, g, Position(1, 0)) == Some(g)
      && RewritePoint(pass, g, Position(1, 2)) == Some(g) && RewritePoint(pass, g, Position(3, 0)) == Some(g)
  {
    var g := Body(w, x, y, z);
    BodyWellFormed(w, x, y, z);
    Writers(w, x, y, z);
    hide Rewritten, PredecessorsAgree, RewritePoint, NeverWritten, OnlyWriter;
    NeverReplaced(pass, g, Position(0, 0), C);
    assert OperandsAt(g, Position(0, 0)) == [Field(C)] && OperandsAt(g, Position(1, 0)) == [Literal(5)];
    SetSameOperand(g, Position(0, 0), 0);
    PointRewritten(pass, g, Position(0, 0), Field(C), g);
    SetSameOperand(g, Position(1, 0), 0);
    assert Rewritten(pass, g, Position(1, 0), Literal(5)) == Literal(5) by { LiteralStays(pass, g, Position(1, 0), 5); }
    PointRewritten(pass, g, Position(1, 0), Literal(5), g);
    PointWithout(pass, g, Position(1, 2));
    PointWithout(pass, g, Position(3, 0));
  }

  lemma LiteralStays(pass: Pass, g: Graph, u: Position, v: Word)
    ensures Rewritten(pass, g, u, Literal(v)) == Literal(v)
  {
  }

  lemma TwoOperands(pass: Pass, g: Graph, u: Position, h: Graph)
    requires Closed(g) && Closed(h) && Valid(g, u) && Valid(h, u) && u.index == Length(g, u.block)
    requires |OperandsAt(g, u)| == 2 == |OperandsAt(h, u)|
    requires SetOperand(g, u, 0, Rewritten(pass, g, u, OperandsAt(g, u)[0])) == h
    requires Rewritten(pass, h, u, OperandsAt(h, u)[1]) == OperandsAt(h, u)[1]
    ensures RewritePoint(pass, g, u) == Some(h)
  {
    SetSameOperand(h, u, 1);
    hide Rewritten, SetOperand, OperandsAt;
    assert RewriteOperands(pass, h, u, 2) == h;
    assert RewriteOperands(pass, h, u, 1) == h;
    assert RewriteOperands(pass, g, u, 0) == h;
  }

  lemma SetBranch(w: Operand, x: Operand, y: Operand, z: Operand, w': Operand)
    ensures var g, h, u := Body(w, x, y, z), Body(w', x, y, z), Position(0, 1);
      && Valid(g, u) && Valid(h, u) && OperandsAt(g, u) == [w, Literal(0)] && OperandsAt(h, u) == [w', Literal(0)]
      && SetOperand(g, u, 0, w') == h && Length(g, 0) == 1
  {
    var g, h, u := Body(w, x, y, z), Body(w', x, y, z), Position(0, 1);
    assert SetOperand(g, u, 0, w').blocks == h.blocks;
  }

  /** The branch at the end of the first block: its second operand is a literal. */
  lemma BranchRewritten(pass: Pass, w: Operand, x: Operand, y: Operand, z: Operand, w': Operand)
    requires Rewritten(pass, Body(w, x, y, z), Position(0, 1), w) == w'
    ensures WellFormed(Body(w, x, y, z)) && RewritePoint(pass, Body(w, x, y, z), Position(0, 1))
      == Some(Body(w', x, y, z))
  {
    var g, h, u := Body(w, x, y, z), Body(w', x, y, z), Position(0, 1);
    BodyWellFormed(w, x, y, z);
    BodyWellFormed(w', x, y, z);
    LiteralStays(pass, h, u, 0);
    SetBranch(w, x, y, z, w');
    hide Rewritten, PredecessorsAgree, IsEdge, Body, SetOperand, OperandsAt, RewritePoint;
    TwoOperands(pass, g, u, h);
  }

  /** The three other points with an operand to replace. */
  lemma SetStore(w: Operand, x: Operand, y: Operand, z: Operand, x': Operand)
    ensures var g, u := Body(w, x, y, z), Position(1, 1);
      && Valid(g, u) && OperandsAt(g, u) == [x] && SetOperand(g, u, 0, x') == Body(w, x', y, z)
      && u.index < Length(g, u.block) && At(g, u).Unary? && At(g, u).unaryOp == Move
  {
    var g, h, u := Body(w, x, y, z), Body(w, x', y, z), Position(1, 1);
    assert g.blocks[1].assignments[1 := Unary(Move, P, x')] == h.blocks[1].assignments;
    assert SetOperand(g, u, 0, x').blocks == h.blocks;
  }

  lemma StoreRewritten(pass: Pass, w: Operand, x: Operand, y: Operand, z: Operand, x': Operand)
    requires Rewritten(pass, Body(w, x, y, z), Position(1, 1), x) == x'
    ensures WellFormed(Body(w, x, y, z)) && RewritePoint(pass, Body(w, x, y, z), Position(1, 1))
      == Some(Body(w, x', y, z))
  {
    BodyWellFormed(w, x, y, z);
    BodyWellFormed(w, x', y, z);
    SetStore(w, x, y, z, x');
    hide Rewritten, PredecessorsAgree, IsEdge, RewritePoint, Body, SetOperand, OperandsAt, At;
    PointRewritten(pass, Body(w, x, y, z), Position(1, 1), x', Body(w, x', y, z));
  }

  lemma SetRead(w: Operand, x: Operand, y: Operand, z: Operand, y': Operand)
    ensures var g, u := Body(w, x, y, z), Position(2, 0);
      && Valid(g, u) && OperandsAt(g, u) == [y] && SetOperand(g, u, 0, y') == Body(w, x, y', z)
      && u.index < Length(g, u.block) && At(g, u).Unary? && At(g, u).unaryOp == Move
  {
    var g, h, u := Body(w, x, y, z), Body(w, x, y', z), Position(2, 0);
    assert g.blocks[2].assignments[0 := Unary(Move, "$2", y')] == h.blocks[2].assignments;
    assert SetOperand(g, u, 0, y').blocks == h.blocks;
  }

  lemma ReadRewritten(pass: Pass, w: Operand, x: Operand, y: Operand, z: Operand, y': Operand)
    requires Rewritten(pass, Body(w, x, y, z), Position(2, 0), y) == y'
    ensures WellFormed(Body(w, x, y, z)) && RewritePoint(pass, Body(w, x, y, z), Position(2, 0))
      == Some(Body(w, x, y', z))
  {
    BodyWellFormed(w, x, y, z);
    BodyWellFormed(w, x, y', z);
    SetRead(w, x, y, z, y');
    hide Rewritten, PredecessorsAgree, IsEdge, RewritePoint, Body, SetOperand, OperandsAt, At;
    PointRewritten(pass, Body(w, x, y, z), Position(2, 0), y', Body(w, x, y', z));
  }

  lemma SetReturn(w: Operand, x: Operand, y: Operand, z: Operand, z': Operand)
    ensures var g, u := Body(w, x, y, z), Position(2, 1);
      && Valid(g, u) && OperandsAt(g, u) == [z] && SetOperand(g, u, 0, z') == Body(w, x, y, z') && Length(g, 2) == 1
  {
    var g, u := Body(w, x, y, z), Position(2, 1);
    assert SetOperand(g, u, 0, z').blocks == Body(w, x, y, z').blocks;
  }

  lemma ReturnRewritten(pass: Pass, w: Operand, x: Operand, y: Operand, z: Operand, z': Operand)
    requires Rewritten(pass, Body(w, x, y, z), Position(2, 1), z) == z'
    ensures WellFormed(Body(w, x, y, z)) && RewritePoint(pass, Body(w, x, y, z), Position(2, 1))
      == Some(Body(w, x, y, z'))
  {
    var g, h := Body(w, x, y, z), Body(w, x, y, z');
    BodyWellFormed(w, x, y, z);
    BodyWellFormed(w, x, y, z');
    SetReturn(w, x, y, z, z');
    hide Rewritten, PredecessorsAgree, IsEdge, RewritePoint, Body, SetOperand, OperandsAt;
    PointRewritten(pass, g, Position(2, 1), z', h);
  }

  lemma Lengths(w: Operand, x: Operand, y: Operand, z: Operand)
    ensures var g := Body(w, x, y, z);
      && g.order == [0, 1, 2, 3] && g.blocks.Keys == {0, 1, 2, 3}
      && Length(g, 0) == 1 && Length(g, 1) == 2 && Length(g, 2) == 1 && Length(g, 3) == 0
  {
  }

  lemma TwoPoints(pass: Pass, g: Graph, h: Graph, k: Graph, b: BlockId)
    requires WellFormed(g) && WellFormed(h) && WellFormed(k) && b in g.blocks && b in h.blocks && b in k.blocks
    requires Length(g, b) == Length(h, b) == Length(k, b) == 1
    requires RewritePoint(pass, g, Position(b, 0)) == Some(h) && RewritePoint(pass, h, Position(b, 1)) == Some(k)
    ensures RewriteBlock(pass, g, b, 0) == Some(k)
  {
    hide RewritePoint, PredecessorsAgree, IsEdge;
    assert RewriteBlock(pass, k, b, 2) == Some(k);
    assert RewriteBlock(pass, h, b, 1) == Some(k);
  }

  lemma ThreePoints(pass: Pass, g: Graph, h: Graph, b: BlockId)
    requires WellFormed(g) && WellFormed(h) && b in g.blocks && b in h.blocks && Length(g, b) == Length(h, b) == 2
    requires RewritePoint(pass, g, Position(b, 0)) == Some(g) && RewritePoint(pass, g, Position(b, 1)) == Some(h)
    requires RewritePoint(pass, h, Position(b, 2)) == Some(h)
    ensures RewriteBlock(pass, g, b, 0) == Some(h)
  {
    hide RewritePoint, PredecessorsAgree, IsEdge;
    assert RewriteBlock(pass, h, b, 3) == Some(h);
    assert RewriteBlock(pass, h, b, 2) == Some(h);
    assert RewriteBlock(pass, g, b, 1) == Some(h);
  }

  lemma OnePoint(pass: Pass, g: Graph, b: BlockId)
    requires WellFormed(g) && b in g.blocks && Length(g, b) == 0 && RewritePoint(pass, g, Position(b, 0)) == Some(g)
    ensures RewriteBlock(pass, g, b, 0) == Some(g)
  {
    hide RewritePoint, PredecessorsAgree, IsEdge;
    assert RewriteBlock(pass, g, b, 1) == Some(g);
  }

  /** The pass as a whole, from what it does at the four points. */
  lemma PassRewrites(pass: Pass, w: Operand, x: Operand, y: Operand, z: Operand, w': Operand, x': Operand,
                     y': Operand, z': Operand)
    requires Rewritten(pass, Body(w, x, y, z), Position(0, 1), w) == w'
    requires Rewritten(pass, Body(w', x, y, z), Position(1, 1), x) == x'
    requires Rewritten(pass, Body(w', x', y, z), Position(2, 0), y) == y'
    requires Rewritten(pass, Body(w', x', y', z), Position(2, 1), z) == z'
    ensures WellFormed(Body(w, x, y, z)) && WellFormed(Body(w', x', y', z'))
    ensures RewriteGraph(pass, Body(w, x, y, z), 0) == Some(Body(w', x', y', z'))
  {
    var g0, g1, g2, g3, g4 := Body(w, x, y, z), Body(w', x, y, z), Body(w', x', y, z), Body(w', x', y', z),
      Body(w', x', y', z');
    UnchangedPoints(pass, w, x, y, z);
    UnchangedPoints(pass, w', x, y, z);
    UnchangedPoints(pass, w', x', y, z);
    UnchangedPoints(pass, w', x', y', z');
    BranchRewritten(pass, w, x, y, z, w');
    StoreRewritten(pass, w', x, y, z, x');
    ReadRewritten(pass, w', x', y, z, y');
    ReturnRewritten(pass, w', x', y', z, z');
    Lengths(w, x, y, z);
    Lengths(w', x, y, z);
    Lengths(w', x', y, z);
    Lengths(w', x', y', z);
    Lengths(w', x', y', z');
    hide Rewritten, RewritePoint, RewriteBlock, WellFormed, Body;
    TwoPoints(pass, g0, g0, g1, 0);
    ThreePoints(pass, g1, g2, 1);
    TwoPoints(pass, g2, g3, g4, 2);
    OnePoint(pass, g4, 3);
    FourBlocks(pass, g0, g1, g2, g4);
  }

  lemma FourBlocks(pass: Pass, g0: Graph, g1: Graph, g2: Graph, g4: Graph)
    requires WellFormed(g0) && WellFormed(g1) && WellFormed(g2) && WellFormed(g4)
    requires g0.order == g1.order == g2.order == g4.order == [0, 1, 2, 3]
    requires RewriteBlock(pass, g0, 0, 0) == Some(g1) && RewriteBlock(pass, g1, 1, 0) == Some(g2)
    requires RewriteBlock(pass, g2, 2, 0) == Some(g4) && RewriteBlock(pass, g4, 3, 0) == Some(g4)
    ensures RewriteGraph(pass, g0, 0) == Some(g4)
  {
    hide RewriteBlock, PredecessorsAgree, Closed;
    assert RewriteGraph(pass, g4, 4) == Some(g4);
    assert RewriteGraph(pass, g4, 3) == Some(g4);
    assert RewriteGraph(pass, g2, 2) == Some(g4);
    assert RewriteGraph(pass, g1, 1) == Some(g4);
  }

  const FoldedBody := Body(Field("$0"), Literal(5), Literal(5), Literal(5))

  const CopiedBody := Body(Field(C), Field("$1"), Field("$1"), Field("$1"))

  lemma FoldingGives()
    ensures WellFormed(Generated) && WellFormed(FoldedBody) && RewriteGraph(Folding, Generated, 0) == Some(FoldedBody)
  {
    var w, x, y, z := Field("$0"), Field("$1"), Field(P), Field("$2");
    hide Rewritten, InRegion, OnlyWriter, NeverWritten, Names.LooksGlobal, RewriteGraph, WellFormed;
    Writers(w, x, y, z);
    Reaching(w, x, y, z);
    FoldedHere(Body(w, x, y, z), Position(0, 1), "$0", Position(0, 0));
    FoldedHere(Body(w, x, y, z), Position(1, 1), "$1", Position(1, 0));
    Writers(w, Literal(5), y, z);
    Reaching(w, Literal(5), y, z);
    FoldedHere(Body(w, Literal(5), y, z), Position(2, 0), P, Position(1, 1));
    Writers(w, Literal(5), Literal(5), z);
    Reaching(w, Literal(5), Literal(5), z);
    FoldedHere(Body(w, Literal(5), Literal(5), z), Position(2, 1), "$2", Position(2, 0));
    PassRewrites(Folding, w, x, y, z, w, Literal(5), Literal(5), Literal(5));
  }

  lemma CopyingGives()
    ensures WellFormed(Generated) && WellFormed(CopiedBody) && RewriteGraph(Copying, Generated, 0) == Some(CopiedBody)
  {
    var w, x, y, z := Field("$0"), Field("$1"), Field(P), Field("$2");
    hide Rewritten, InRegion, OnlyWriter, NeverWritten, Names.LooksGlobal, RewriteGraph, WellFormed, Stable;
    Writers(w, x, y, z);
    Reaching(w, x, y, z);
    StableSources(w, x, y, z);
    CopiedHere(Body(w, x, y, z), Position(0, 1), "$0", Position(0, 0));
    Writers(Field(C), x, y, z);
    Reaching(Field(C), x, y, z);
    StableSources(Field(C), x, y, z);
    CopiedHere(Body(Field(C), x, y, z), Position(1, 1), "$1", Position(1, 0));
    CopiedHere(Body(Field(C), x, y, z), Position(2, 0), P, Position(1, 1));
    Writers(Field(C), x, x, z);
    Reaching(Field(C), x, x, z);
    StableSources(Field(C), x, x, z);
    CopiedHere(Body(Field(C), x, x, z), Position(2, 1), "$2", Position(2, 0));
    PassRewrites(Copying, w, x, y, z, Field(C), x, x, x);
  }

  // ----- the changed run -----

  /** Called as `f(0, false)`, with 7 where the second temporary lies. */
  function Entered(world: World): State {
    State(map[Cell(P, 0) := 0, Cell(C, 0) := 0, Cell("$1", 0) := 7], world)
  }

  lemma SkippingRuns(ctx: Context, w: Operand, x: Operand, y: Operand, z: Operand, world: World)
    requires ctx.globals == {} && (w == Field("$0") || w == Field(C)) && WellFormed(Body(w, x, y, z))
    ensures var st := Entered(world);
      var st1 := Write(ctx, st, "$0", 0, 0);
      var st2 := Write(ctx, st1, "$2", 0, Eval(ctx, st1, y));
      Run(ctx, Body(w, x, y, z), st, 1) == Returned(Eval(ctx, st2, z), world)
  {
    var g, st := Body(w, x, y, z), Entered(world);
    var st1 := Write(ctx, st, "$0", 0, 0);
    var st2 := Write(ctx, st1, "$2", 0, Eval(ctx, st1, y));
    assert Exec(ctx, At(g, Position(0, 0)), st) == Next(st1);
    assert Eval(ctx, st1, w) == 0;
    assert Chosen(ctx, g.blocks[0].terminal, st1) == 2;
    assert Exec(ctx, At(g, Position(2, 0)), st1) == Next(st2);
    assert RunFrom(ctx, g, 2, 1, st2, 0) == Returned(Eval(ctx, st2, z), world);
    assert RunFrom(ctx, g, 2, 0, st1, 0) == Returned(Eval(ctx, st2, z), world);
    assert RunFrom(ctx, g, 0, 1, st1, 1) == RunFrom(ctx, g, 2, 0, st1, 0);
  }

  /** Called with 0, the method returns 0. After constant folding it returns 5; after copy propagation
      it returns whatever lies where a temporary that was never written would be. */
  lemma PassesChangeAssignedParameters(ctx: Context, world: World)
    requires ctx.globals == {}
    ensures Lowering.GenerateMethod(map[], F, 0, 0) == Generated
    ensures WellFormed(Generated) && WellFormed(FoldedBody) && WellFormed(CopiedBody)
    ensures RewriteGraph(Folding, Generated, 0) == Some(FoldedBody) && RewriteGraph(Copying, Generated, 0)
      == Some(CopiedBody)
    ensures Run(ctx, Generated, Entered(world), 1) == Returned(0, world)
    ensures Run(ctx, FoldedBody, Entered(world), 1) == Returned(5, world)
    ensures Run(ctx, CopiedBody, Entered(world), 1) == Returned(7, world)
    ensures !SafeFrom(Folding, Generated, 0) && !SafeFrom(Copying, Generated, 0)
  {
    MethodIsGenerated();
    FoldingGives();
    CopyingGives();
    ThreeRuns(ctx, world);
    hide WellFormed, RewriteGraph, Run, SafeFrom, Lowering.GenerateMethod;
    if SafeFrom(Folding, Generated, 0) { PassPreservesRuns(Folding, Generated, 0, ctx, Entered(world), 1); }
    if SafeFrom(Copying, Generated, 0) { PassPreservesRuns(Copying, Generated, 0, ctx, Entered(world), 1); }
  }

  lemma ThreeRuns(ctx: Context, world: World)
    requires ctx.globals == {} && WellFormed(Generated) && WellFormed(FoldedBody) && WellFormed(CopiedBody)
    ensures Run(ctx, Generated, Entered(world), 1) == Returned(0, world)
    ensures Run(ctx, FoldedBody, Entered(world), 1) == Returned(5, world)
    ensures Run(ctx, CopiedBody, Entered(world), 1) == Returned(7, world)
  {
    hide WellFormed, RunFrom;
    SkippingRuns(ctx, Field("$0"), Field("$1"), Field(P), Field("$2"), world);
    SkippingRuns(ctx, Field("$0"), Literal(5), Literal(5), Literal(5), world);
    SkippingRuns(ctx, Field(C), Field("$1"), Field("$1"), Field("$1"), world);
    assert "$0"[1] != "$1"[1] && "$1"[1] != "$2"[1] && "$0"[0] != P[0] && "$2"[0] != P[0];
  }
}
