/** When the compiler itself divides by zero: constant folding computes a division whose operands it knows, also
    one that traps. */
module FoldingHazard {
  import opened Words
  import opened Worlds
  import opened Llir
  import opened ReachingDefinitions
  import opened Rewriting
  import opened OperandPasses
  import opened Programs
  import opened Compilation
  import Checker
  import Lowering
  import MethodLowering
  import Names
  import Optimizations
  import Ir

  predicate Divides(a: Assignment) {
    a.Binary? && (a.binaryOp == Divide || a.binaryOp == Modulo)
  }

  ghost predicate NoDivisions(g: Graph) {
    forall b, i :: b in g.blocks && 0 <= i < Length(g, b) ==> !Divides(g.blocks[b].assignments[i])
  }

  lemma SetOperandDivides(g: Graph, u: Position, k: nat, o: Operand)
    requires NoDivisions(g) && Closed(g) && Valid(g, u) && k < |OperandsAt(g, u)|
    ensures NoDivisions(SetOperand(g, u, k, o))
  {
  }

  lemma {:induction false} OperandsDivide(pass: Pass, g: Graph, u: Position, k: nat)
    requires NoDivisions(g) && Closed(g) && Valid(g, u) && k <= |OperandsAt(g, u)|
    ensures NoDivisions(RewriteOperands(pass, g, u, k))
    decreases |OperandsAt(g, u)| - k
  {
    hide NoDivisions, Rewritten;
    if k < |OperandsAt(g, u)| {
      var o := Rewritten(pass, g, u, OperandsAt(g, u)[k]);
      SetOperandSameShape(g, u, k, o);
      SetOperandDivides(g, u, k, o);
      OperandsDivide(pass, SetOperand(g, u, k, o), u, k + 1);
    }
  }

  lemma FoldsUndivided(a: Assignment)
    requires !Divides(a)
    ensures Folded(a).Some? && !Divides(Folded(a).value) && SameNames(a, Folded(a).value)
  {
  }

  lemma PointFolds(pass: Pass, g: Graph, u: Position)
    requires NoDivisions(g) && Closed(g) && Valid(g, u)
    ensures RewritePoint(pass, g, u).Some? && NoDivisions(RewritePoint(pass, g, u).value)
  {
    OperandsDivide(pass, g, u, 0);
    RewriteOperandsSameShape(pass, g, u, 0);
    hide RewriteOperands, ApplyUnary, ApplyBinary, Closed;
    var g' := RewriteOperands(pass, g, u, 0);
    if pass.Folding? && u.index < Length(g, u.block) {
      FoldsUndivided(At(g', u));
      assert !Divides(At(g', u));
      assert Folded(At(g', u)).Some? && !Divides(Folded(At(g', u)).value);
    }
  }

  lemma {:induction false} BlockFolds(pass: Pass, g: Graph, b: BlockId, i: nat)
    requires NoDivisions(g) && Closed(g) && b in g.blocks && i <= Length(g, b) + 1
    ensures RewriteBlock(pass, g, b, i).Some? && NoDivisions(RewriteBlock(pass, g, b, i).value)
    decreases Length(g, b) + 1 - i
  {
    hide NoDivisions, RewritePoint;
    if i < Length(g, b) + 1 {
      RewritePointSameShape(pass, g, Position(b, i));
      PointFolds(pass, g, Position(b, i));
      BlockFolds(pass, RewritePoint(pass, g, Position(b, i)).value, b, i + 1);
    }
  }

  /** A method without division or remainder is always folded to the end. */
  lemma {:induction false} WithoutDivisionsFolds(pass: Pass, g: Graph, j: nat)
    requires WellFormed(g) && NoDivisions(g) && j <= |g.order|
    ensures RewriteGraph(pass, g, j).Some?
    decreases |g.order| - j
  {
    hide NoDivisions, RewriteBlock;
    if j < |g.order| {
      RewriteBlockSameShape(pass, g, g.order[j], 0);
      BlockFolds(pass, g, g.order[j], 0);
      SameShapeWellFormed(g, RewriteBlock(pass, g, g.order[j], 0).value);
      WithoutDivisionsFolds(pass, RewriteBlock(pass, g, g.order[j], 0).value, j + 1);
    }
  }

  // ----- when it does -----

  /** Folding puts `c` in place of `o` where it is read at `u`, or finds it there. */
  ghost predicate KnownAt(g: Graph, u: Position, o: Operand, c: Word) {
    o == Literal(c) || (o.Field? && !Names.LooksGlobal(o.name) && ConstantAt(g, o.name, u, c))
  }

  /** A division at `u` whose two operands are known and that would trap. */
  ghost predicate TrapsAt(g: Graph, u: Position)
    requires Valid(g, u)
  {
    && u.index < Length(g, u.block) && Divides(At(g, u))
    && exists l, r :: KnownAt(g, u, At(g, u).left, l) && KnownAt(g, u, At(g, u).right, r) && DivisionTraps(l, r)
  }

  lemma RewrittenIsKnown(g: Graph, u: Position, o: Operand, c: Word)
    ensures Rewritten(Folding, g, u, o) == Literal(c) <==> KnownAt(g, u, o, c)
  {
    if o.Field? && !Names.LooksGlobal(o.name) {
      forall c' | ConstantAt(g, o.name, u, c') && ConstantAt(g, o.name, u, c) ensures c' == c {
        var d :| IsReachingDefinition(g, o.name, u, d);
      }
    }
  }

  /** Replacing an operand of an assignment that is no move changes no constant. */
  lemma KnownStays(g: Graph, u: Position, o: Operand, o': Operand, c: Word)
    requires Closed(g) && Valid(g, u) && u.index < Length(g, u.block) && At(g, u).Binary?
    ensures KnownAt(SetOperand(g, u, 0, o'), u, o, c) <==> KnownAt(g, u, o, c)
  {
    var g' := SetOperand(g, u, 0, o');
    SetOperandSameShape(g, u, 0, o');
    if o.Field? {
      forall d: Position ensures IsReachingDefinition(g', o.name, u, d) <==> IsReachingDefinition(g, o.name, u, d) {
        SameShapeInRegion(g, g', o.name, After(d), u);
      }
      hide InRegion;
      forall d: Position | d.block in g.blocks && d.index < Length(g, d.block)
        ensures At(g', d) == Unary(Move, o.name, Literal(c)) <==> At(g, d) == Unary(Move, o.name, Literal(c)) {
        assert d != u ==> At(g', d) == At(g, d);
      }
    }
  }

  /** The two operands of a binary assignment, one after the other. */
  lemma BothRewritten(g: Graph, u: Position)
    requires Closed(g) && Valid(g, u) && u.index < Length(g, u.block) && At(g, u).Binary?
    ensures var h := RewriteOperands(Folding, g, u, 0);
      var l := Rewritten(Folding, g, u, At(g, u).left);
      && SameShape(g, h) && At(h, u).Binary? && At(h, u).binaryOp == At(g, u).binaryOp
      && At(h, u).left == l && At(h, u).right == Rewritten(Folding, SetOperand(g, u, 0, l), u, At(g, u).right)
  {
    hide Rewritten, SameShape;
    RewriteOperandsSameShape(Folding, g, u, 0);
    var l := Rewritten(Folding, g, u, At(g, u).left);
    var g1 := SetOperand(g, u, 0, l);
    SetOperandSameShape(g, u, 0, l);
    assert OperandsAt(g, u) == [At(g, u).left, At(g, u).right] && OperandsAt(g1, u) == [l, At(g, u).right];
    var g2 := SetOperand(g1, u, 1, Rewritten(Folding, g1, u, At(g, u).right));
    assert RewriteOperands(Folding, g2, u, 2) == g2;
    assert RewriteOperands(Folding, g1, u, 1) == g2;
  }

  lemma BinaryFolds(a: Assignment)
    requires a.Binary?
    ensures Folded(a).None? <==>
      a.left.Literal? && a.right.Literal? && Divides(a) && DivisionTraps(a.left.value, a.right.value)
  {
    hide Wrap, TruncatedQuotient, TruncatedRemainder, DivisionTraps;
  }

  lemma {:induction false} StaysUnary(g: Graph, u: Position, k: nat)
    requires Closed(g) && Valid(g, u) && u.index < Length(g, u.block) && k <= |OperandsAt(g, u)|
    requires !At(g, u).Binary?
    ensures var h := RewriteOperands(Folding, g, u, k); SameShape(g, h) && !At(h, u).Binary?
    decreases |OperandsAt(g, u)| - k
  {
    hide Rewritten, SameShape;
    RewriteOperandsSameShape(Folding, g, u, k);
    if k < |OperandsAt(g, u)| {
      var o := Rewritten(Folding, g, u, OperandsAt(g, u)[k]);
      SetOperandSameShape(g, u, k, o);
      SameShapeClosed(g, SetOperand(g, u, k, o), u);
      assert At(SetOperand(g, u, k, o), u) == WithOperand(At(g, u), k, o);
      StaysUnary(SetOperand(g, u, k, o), u, k + 1);
    }
  }

  /** One point: folding divides by zero there if and only if it knows both operands of a division that traps. */
  lemma PointStopsExactly(g: Graph, u: Position)
    requires Closed(g) && Valid(g, u)
    ensures RewritePoint(Folding, g, u).None? <==> TrapsAt(g, u)
  {
    hide Rewritten, InRegion;
    if u.index < Length(g, u.block) && At(g, u).Binary? {
      BothRewritten(g, u);
      var a := At(g, u);
      var first := Rewritten(Folding, g, u, a.left);
      forall c ensures first == Literal(c) <==> KnownAt(g, u, a.left, c) { RewrittenIsKnown(g, u, a.left, c); }
      var g' := SetOperand(g, u, 0, first);
      forall c ensures Rewritten(Folding, g', u, a.right) == Literal(c) <==> KnownAt(g, u, a.right, c) {
        RewrittenIsKnown(g', u, a.right, c);
        KnownStays(g, u, a.right, first, c);
      }
      hide KnownAt, RewriteOperands, SetOperand, SameShape;
      BinaryFolds(At(RewriteOperands(Folding, g, u, 0), u));
    } else if u.index < Length(g, u.block) {
      StaysUnary(g, u, 0);
    }
  }

  ghost predicate StopsInBlock(g: Graph, b: BlockId, i: nat)
    requires Closed(g) && b in g.blocks && i <= Length(g, b) + 1
    decreases Length(g, b) + 1 - i
  {
    i <= Length(g, b) &&
    (RewritePointSameShape(Folding, g, Position(b, i));
    || TrapsAt(g, Position(b, i))
    || (RewritePoint(Folding, g, Position(b, i)).Some?
      && StopsInBlock(RewritePoint(Folding, g, Position(b, i)).value, b, i + 1)))
  }

  /** From layout position `j` on, the pass comes to a division whose operands it knows and that traps. */
  ghost predicate StopsFrom(g: Graph, j: nat)
    requires WellFormed(g) && j <= |g.order|
    decreases |g.order| - j
  {
    j < |g.order| &&
    (RewriteBlockSameShape(Folding, g, g.order[j], 0);
    || StopsInBlock(g, g.order[j], 0)
    || match RewriteBlock(Folding, g, g.order[j], 0)
       case None => false
       case Some(g') =>
         SameShapeWellFormed(g, g');
         StopsFrom(g', j + 1))
  }

  lemma {:induction false} BlockStopsExactly(g: Graph, b: BlockId, i: nat)
    requires Closed(g) && b in g.blocks && i <= Length(g, b) + 1
    ensures RewriteBlock(Folding, g, b, i).None? <==> StopsInBlock(g, b, i)
    decreases Length(g, b) + 1 - i
  {
    hide RewritePoint, TrapsAt;
    if i <= Length(g, b) {
      PointStopsExactly(g, Position(b, i));
      RewritePointSameShape(Folding, g, Position(b, i));
      match RewritePoint(Folding, g, Position(b, i))
      case None =>
      case Some(g') => BlockStopsExactly(g', b, i + 1);
    }
  }

  /** The compiler divides by zero while folding if and only if the pass comes to a division whose operands it
      knows and that traps. */
  lemma {:induction false} FoldingStopsExactly(g: Graph, j: nat)
    requires WellFormed(g) && j <= |g.order|
    ensures RewriteGraph(Folding, g, j).None? <==> StopsFrom(g, j)
    decreases |g.order| - j
  {
    hide RewriteBlock, StopsInBlock;
    if j < |g.order| {
      BlockStopsExactly(g, g.order[j], 0);
      RewriteBlockSameShape(Folding, g, g.order[j], 0);
      match RewriteBlock(Folding, g, g.order[j], 0)
      case None =>
      case Some(g') =>
        SameShapeWellFormed(g, g');
        FoldingStopsExactly(g', j + 1);
    }
  }

  // ----- `int x; void main() { x = 1 / 0; }` -----

  const X := Ir.Field(Ir.Int, false, false, "x", 1, None, false, false)

  function Number(n: nat): Ir.Expression {
    Ir.Constant(Ir.Literal(Ir.IntLiteral, false, n))
  }

  const Quotient := Ir.Binary(Ir.Over, Number(1), Number(0))

  const Division := Ir.Assignment(Ir.Location("x", None), Ir.Set, Some(Quotient))

  const Main := Ir.Method(Ir.Void, "main", [], Ir.Block([], [Ir.Assign(Division)]))

  const P := Ir.Program([], [X], [Main])

  lemma DivisionChecked(env: Checker.Environment)
    requires env.policy == Checker.AsWritten && env.fixed == {} && |env.scopes| == 2 && env.scopes[1] == map[]
    requires env.scopes[0] == map["x" := X]
    ensures Checker.CheckStatements(env, Main.body.statements) == Checker.Checked(Main.body.statements, true)
  {
    assert env.scopes[..1] == [map["x" := X]];
    assert Checker.Find(env.scopes[..1], "x") == Some(0);
    assert Checker.Find(env.scopes, "x") == Some(0);
    assert Main.body.statements[1..] == [];
    assert Checker.CheckStatements(env, []) == Checker.Checked([], true);
    assert Checker.CheckExpression(env, Number(1)) == Checker.Typed(Number(1), Checker.Number, true);
    assert Checker.CheckExpression(env, Number(0)) == Checker.Typed(Number(0), Checker.Number, true);
    assert Checker.CheckExpression(env, Quotient) == Checker.Typed(Quotient, Checker.Number, true);
    assert Checker.CheckAssignment(env, Division) == Checker.Checked(Division, true);
    assert Checker.CheckStatement(env, Ir.Assign(Division)) == Checker.Checked(Ir.Assign(Division), true);
    assert [Ir.Assign(Division)] + [] == [Ir.Assign(Division)];
  }

  lemma FieldsChecked(env: Checker.Environment)
    requires env.scopes != []
    ensures var clash := Checker.Redeclared(env.methods, env.scopes, "x");
      Checker.CheckFields(env, [X])
      == Checker.CheckedFields(if clash then env.scopes else Checker.AddToScope(env.scopes, X), [X],
           !clash && Checker.DeclarationOk(env.policy, X))
    ensures Checker.CheckFields(env, []) == Checker.CheckedFields(env.scopes, [], true)
  {
    assert [X][..0] == [];
  }

  lemma IsAccepted()
    ensures Checker.CheckProgram(P, Checker.AsWritten) == Checker.Checked(P, true)
  {
    var start := Checker.Environment(map[], [map[]], Ir.Void, 0, Checker.AsWritten, {});
    FieldsChecked(start);
    assert start.scopes[0 := map["x" := X]] == [map["x" := X]];
    var env := start.(scopes := [map["x" := X]]);
    assert Checker.GlobalEnvironment(P, Checker.AsWritten)
      == (env, Checker.CheckedFields(env.scopes, [X], true), true);
    var env' := env.(methods := map["main" := Checker.SignatureOf(Main)]);
    assert Checker.DeclareMethod(env.methods, env.scopes, "main", Checker.SignatureOf(Main)) == (env'.methods, true);
    var inner := env'.(scopes := env.scopes + [map[]]);
    FieldsChecked(inner);
    DivisionChecked(inner);
    assert Checker.CheckMethod(env, Main) == (env', Checker.Checked(Main, true));
    hide Checker.CheckMethod, Checker.GlobalEnvironment;
    assert [Main][..0] == [];
    var none: seq<Ir.Method> := [];
    assert Checker.CheckMethods(env, none) == (env, Checker.Checked(none, true));
    assert none + [Main] == [Main];
    assert Checker.CheckMethods(env, [Main]) == (env', Checker.Checked([Main], true));
    assert Checker.SignatureOf(Main) == Checker.Own(Ir.Void, []);
  }

  // ----- what the generator makes of it -----

  const FieldX := FieldDeclaration("x", false, [0])

  function Temporary(name: string): FieldDeclaration {
    FieldDeclaration(name, false, [0])
  }

  const Code := [Unary(Move, "$0", Literal(1)), Unary(Move, "$1", Literal(0)),
                 Assignment.Binary(Divide, "$2", Field("$0"), Field("$1")), Unary(Move, "x", Field("$2"))]

  const Generated :=
    Graph([0], map[0 := Block([Temporary("$0"), Temporary("$1"), Temporary("$2")], Code, Return(Literal(0)))],
          map[0 := []])

  lemma Table()
    ensures GlobalSymbols(P.fields) == map["x" := FieldX]
  {
    assert Lowering.FieldValues(X) == [0];
    assert Lowering.MakeField(X, 0) == FieldX;
    assert [X][..0] == [];
    var empty: Lowering.SymbolTables := [map[]];
    assert Lowering.DeclareAll(empty, []) == empty;
    assert Lowering.DeclareAll(empty, [X]) == [map["x" := FieldX]];
  }

  lemma ConstantGenerated(s: Lowering.Generator, n: nat)
    requires n < 2
    ensures var d := Names.TemporaryName('$', s.temporaries);
      Lowering.GenerateExpression(s, Number(n))
      == (s.(temporaries := s.temporaries + 1, fields := s.fields + [Temporary(d)],
             code := s.code + [Unary(Move, d, Literal(n))]), Field(d))
  {
    hide Lowering.GenerateShortCircuit, Lowering.GenerateCall, Lowering.GenerateLocation, Names.TemporaryName;
    assert Lowering.LiteralToInt64(Ir.Literal(Ir.IntLiteral, false, n)) == n;
  }

  lemma TemporaryNames()
    ensures Names.TemporaryName('$', 0) == "$0" && Names.TemporaryName('$', 1) == "$1"
      && Names.TemporaryName('$', 2) == "$2"
  {
  }

  lemma QuotientGenerated(s0: Lowering.Generator, s3: Lowering.Generator)
    requires s0 == Lowering.Generator(0, 1, s0.symbols, [], [], [], map[], 0, [], [])
    requires s3 == s0.(temporaries := 3, fields := Generated.blocks[0].fields, code := Code[..3])
    ensures Lowering.GenerateExpression(s0, Quotient) == (s3, Field("$2"))
  {
    TemporaryNames();
    hide Names.TemporaryName;
    var s1 := s0.(temporaries := 1, fields := s3.fields[..1], code := Code[..1]);
    var s2 := s0.(temporaries := 2, fields := s3.fields[..2], code := Code[..2]);
    ConstantGenerated(s0, 1);
    assert s0.fields + [Temporary("$0")] == s1.fields && s0.code + [Code[0]] == s1.code;
    ConstantGenerated(s1, 0);
    assert s1.fields + [Temporary("$1")] == s2.fields && s1.code + [Code[1]] == s2.code;
    assert s2.fields + [Temporary("$2")] == s3.fields && s2.code + [Code[2]] == s3.code;
  }

  lemma BodyGenerated() returns (s: Lowering.Generator)
    ensures s == Lowering.Generator(3, 1, s.symbols, [], [], [], map[], 0, Generated.blocks[0].fields, Code)
    ensures Lowering.GenerateBody(map["x" := FieldX], Main, 0, 0) == s
  {
    hide Lowering.GenerateExpression;
    var symbols: Lowering.SymbolTables := [map["x" := FieldX], map[]];
    assert symbols[..1] == [map["x" := FieldX]];
    assert Lowering.Lookup(symbols[..1], "x") == Some(FieldX);
    assert Lowering.FieldOf(symbols, "x") == FieldX;
    var s0 := Lowering.Generator(0, 1, symbols, [], [], [], map[], 0, [], []);
    assert Lowering.StartMethod(map["x" := FieldX], Main, 0, 0) == s0;
    var s3 := s0.(temporaries := 3, fields := Generated.blocks[0].fields, code := Code[..3]);
    s := s3.(code := Code);
    QuotientGenerated(s0, s3);
    assert s3.code + [Code[3]] == s.code;
    assert Lowering.GenerateAssignment(s0, Division) == s;
    assert [Ir.Assign(Division)][1..] == [];
    assert Lowering.GenerateStatement(s0, Ir.Assign(Division)) == s;
    assert Lowering.GenerateStatements(s, []) == s;
  }

  lemma MainGenerated()
    ensures Lowering.GenerateMethod(map["x" := FieldX], Main, 0, 0) == Generated
  {
    hide Lowering.GenerateBody;
    var s := BodyGenerated();
    assert Lowering.Blocks(s, Return(Literal(0))) == Generated.blocks;
    assert s.order + [0] == [0] && [0][..0] == [];
    var none: map<BlockId, seq<BlockId>> := map[];
    assert Lowering.PredecessorLists([], Generated.blocks) == none;
    assert Lowering.PredecessorLists([0], Generated.blocks) == none;
  }

  lemma ProgramGenerated()
    ensures GenerateProgram(P).methods == map["main" := Method([], Generated)]
  {
    Table();
    MainGenerated();
    hide Lowering.GenerateBody, Lowering.GenerateMethod;
    assert [Main][1..] == [];
    assert MethodLowering.Parameters(Main.arguments) == [];
    var table, end := map["x" := FieldX], Lowering.GenerateBody(map["x" := FieldX], Main, 0, 0);
    assert GenerateMethods(table, [], end.temporaries, end.nextBlock) == map[];
    assert GenerateMethods(table, [Main], 0, 0) == map["main" := Method([], Generated)];
  }

  // ----- what folding makes of it -----

  lemma GeneratedWellFormed()
    ensures WellFormed(Generated)
  {
    assert Generated.blocks.Keys == {0};
  }

  /** A literal is the only value that each of the first two temporaries ever gets. */
  lemma OperandIsKnown(k: nat)
    requires k < 2
    ensures KnownAt(Generated, Position(0, 2), Field(Code[k].destination), Code[k].source.value)
  {
    var g, u, x := Generated, Position(0, 2), Code[k].destination;
    assert !Names.LooksGlobal(x) by { assert x[0] == '$'; }
    assert "$0"[1] != "$1"[1] && "$0"[1] != "$2"[1] && "$1"[1] != "$2"[1] && "x"[0] != "$0"[0] && "x"[0] != "$1"[0];
    assert IsReachingDefinition(g, x, u, Position(0, k));
    hide InRegion;
    forall d | IsReachingDefinition(g, x, u, d) ensures d == Position(0, k) {
      assert Code[d.index].destination == x;
    }
  }

  lemma DivisionIsKnown()
    ensures TrapsAt(Generated, Position(0, 2))
  {
    hide KnownAt;
    OperandIsKnown(0);
    OperandIsKnown(1);
  }

  /** Folding leaves a move of a literal as it is. */
  lemma MoveStays(i: nat)
    requires i < 2 && WellFormed(Generated)
    ensures RewritePoint(Folding, Generated, Position(0, i)) == Some(Generated)
  {
    var g, u := Generated, Position(0, i);
    SetSameOperand(g, u, 0);
    assert OperandsAt(g, u) == [Literal(if i == 0 then 1 else 0)];
    assert RewriteOperands(Folding, g, u, 1) == g;
    assert RewriteOperands(Folding, g, u, 0) == g;
    assert Folded(At(g, u)) == Some(At(g, u));
    assert g.blocks[0].assignments[i := At(g, u)] == g.blocks[0].assignments;
    assert SetAssignment(g, u, At(g, u)) == g;
  }

  /** The checker accepts the program; with folding there is no optimized program. */
  lemma FoldingDividesByZero(flags: Optimizations.Flags, p': Program)
    requires flags.fold
    ensures Checker.CheckProgram(P, Checker.AsWritten) == Checker.Checked(P, true)
    ensures GenerateProgram(P).methods == map["main" := Method([], Generated)] && WellFormed(Generated)
    ensures RewriteGraph(Folding, Generated, 0) == None
    ensures WellFormedProgram(GenerateProgram(P)) && !Optimizations.OptimizedProgram(flags, GenerateProgram(P), p')
  {
    IsAccepted();
    ProgramGenerated();
    GeneratedWellFormed();
    DivisionIsKnown();
    hide TrapsAt, RewritePoint, WellFormed, Checker.CheckProgram, GenerateProgram;
    var g := Generated;
    MoveStays(0);
    MoveStays(1);
    assert StopsInBlock(g, 0, 2);
    assert StopsInBlock(g, 0, 1);
    assert StopsInBlock(g, 0, 0);
    assert StopsFrom(g, 0);
    FoldingStopsExactly(g, 0);
    assert GenerateProgram(P).methods["main"].graph == g;
  }
}
