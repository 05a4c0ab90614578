/** A program with a method called `exit`: the exits that the compiler puts into the code call that method.
    `int a[1]; void exit(int c) { } void main() { a[5] = 5; }`. */
module ExitHazard {
  import opened Words
  import opened Worlds
  import opened Llir
  import opened Programs
  import opened Compilation
  import opened MachinePrograms
  import opened Machine
  import opened CodeGeneration
  import opened FrameLayout
  import opened Selection
  import opened LinearCode
  import opened MachineMethods
  import opened AsRead
  import Checker
  import CheckerSoundness
  import DeadCode
  import GraphNames
  import Rewriting
  import Lowering
  import MethodLowering
  import Names
  import Optimizations
  import Ir

  const A := Ir.Field(Ir.Int, true, false, "a", 1, None, false, false)

  function Number(n: nat): Ir.Expression {
    Ir.Constant(Ir.Literal(Ir.IntLiteral, false, n))
  }

  const Write := Ir.Assignment(Ir.Location("a", Some(Number(5))), Ir.Set, Some(Number(5)))

  const ExitMethod := Ir.Method(Ir.Void, "exit", [Ir.Field(Ir.Int, false, false, "c", 1, None, false, false)],
    Ir.Block([], []))

  const Main := Ir.Method(Ir.Void, "main", [], Ir.Block([], [Ir.Assign(Write)]))

  const P := Ir.Program([], [A], [ExitMethod, Main])

  const NoPasses := Optimizations.Flags(false, false, false)

  // ----- the checker accepts it -----

  lemma IsAsRead()
    ensures ProgramAsRead(P)
  {
    assert [Ir.Assign(Write)][1..] == [];
    assert StatementAsRead(Ir.Assign(Write)) && StatementsAsRead([Ir.Assign(Write)]);
    assert MethodAsRead(ExitMethod) && MethodAsRead(Main);
  }

  lemma FieldsChecked(env: Checker.Environment, f: Ir.Field)
    requires env.scopes != []
    ensures var clash := Checker.Redeclared(env.methods, env.scopes, f.identifier);
      Checker.CheckFields(env, [f])
      == Checker.CheckedFields(if clash then env.scopes else Checker.AddToScope(env.scopes, Checker.Completed(f)),
           [Checker.Completed(f)], !clash && Checker.DeclarationOk(env.policy, f))
    ensures Checker.CheckFields(env, []) == Checker.CheckedFields(env.scopes, [], true)
  {
    assert [f][..0] == [];
  }

  lemma WriteChecked(env: Checker.Environment)
    requires env.policy == Checker.AsWritten && env.fixed == {} && |env.scopes| == 2 && env.scopes[1] == map[]
    requires env.scopes[0] == map["a" := A]
    ensures Checker.CheckStatements(env, [Ir.Assign(Write)]) == Checker.Checked([Ir.Assign(Write)], true)
  {
    assert env.scopes[..1] == [map["a" := A]];
    assert Checker.Find(env.scopes[..1], "a") == Some(0);
    assert Checker.Find(env.scopes, "a") == Some(0);
    assert [Ir.Assign(Write)][1..] == [];
    assert Checker.CheckStatements(env, []) == Checker.Checked([], true);
    assert Checker.CheckExpression(env, Number(5)) == Checker.Typed(Number(5), Checker.Number, true);
    assert Checker.CheckAssignment(env, Write) == Checker.Checked(Write, true);
    assert Checker.CheckStatement(env, Ir.Assign(Write)) == Checker.Checked(Ir.Assign(Write), true);
    assert [Ir.Assign(Write)] + [] == [Ir.Assign(Write)];
  }

  lemma IsAccepted()
    ensures Checker.CheckProgram(P, Checker.AsWritten) == Checker.Checked(P, true)
  {
    var start := Checker.Environment(map[], [map[]], Ir.Void, 0, Checker.AsWritten, {});
    FieldsChecked(start, A);
    assert start.scopes[0 := map["a" := A]] == [map["a" := A]];
    var env := start.(scopes := [map["a" := A]]);
    assert Checker.GlobalEnvironment(P, Checker.AsWritten)
      == (env, Checker.CheckedFields(env.scopes, [A], true), true);
    ExitChecked(env);
    var env' := env.(methods := map["exit" := Checker.SignatureOf(ExitMethod)]);
    MainChecked(env');
    hide Checker.CheckMethod, Checker.GlobalEnvironment;
    assert [ExitMethod, Main][..1] == [ExitMethod] && [ExitMethod][..0] == [];
    var none: seq<Ir.Method> := [];
    assert Checker.CheckMethods(env, none) == (env, Checker.Checked(none, true));
    assert none + [ExitMethod] == [ExitMethod] && [ExitMethod] + [Main] == [ExitMethod, Main];
    assert Checker.CheckMethods(env, [ExitMethod]) == (env', Checker.Checked([ExitMethod], true));
    var env'' := env'.(methods := env'.methods["main" := Checker.SignatureOf(Main)]);
    assert Checker.CheckMethods(env, [ExitMethod, Main]) == (env'', Checker.Checked([ExitMethod, Main], true));
    assert Checker.SignatureOf(Main) == Checker.Own(Ir.Void, []);
  }

  lemma ExitChecked(env: Checker.Environment)
    requires env == Checker.Environment(map[], [map["a" := A]], Ir.Void, 0, Checker.AsWritten, {})
    ensures Checker.CheckMethod(env, ExitMethod)
      == (env.(methods := map["exit" := Checker.SignatureOf(ExitMethod)]), Checker.Checked(ExitMethod, true))
  {
    var c := ExitMethod.arguments[0];
    var env' := env.(methods := map["exit" := Checker.SignatureOf(ExitMethod)]);
    var inner := env'.(scopes := env.scopes + [map[]]);
    FieldsChecked(inner, c);
    FieldsChecked(inner.(scopes := Checker.AddToScope(inner.scopes, c)), c);
    assert Checker.DeclareMethod(env.methods, env.scopes, "exit", Checker.SignatureOf(ExitMethod))
      == (env'.methods, true);
  }

  lemma MainChecked(env: Checker.Environment)
    requires env == Checker.Environment(map["exit" := Checker.SignatureOf(ExitMethod)], [map["a" := A]], Ir.Void, 0,
      Checker.AsWritten, {})
    ensures Checker.CheckMethod(env, Main)
      == (env.(methods := env.methods["main" := Checker.SignatureOf(Main)]), Checker.Checked(Main, true))
  {
    var env' := env.(methods := env.methods["main" := Checker.SignatureOf(Main)]);
    assert Checker.DeclareMethod(env.methods, env.scopes, "main", Checker.SignatureOf(Main)) == (env'.methods, true);
    var inner := env'.(scopes := env.scopes + [map[]]);
    FieldsChecked(inner, A);
    WriteChecked(inner);
  }

  // ----- what it means -----

  lemma NothingStored(world: World)
    ensures StartWorld(P, "main", world) == world
  {
    var fields := GlobalDeclarations([A]);
    assert fields[..0] == [] && fields[0].values == [0] && [0][..0] == [];
    assert WithValues(world.globals, "a", [0]) == world.globals;
    assert WithGlobals(world.globals, []) == world.globals;
  }

  lemma WriteExits(ctx: Ir.Context, world: World, fuel: nat)
    requires ctx.globals == map["a" := Ir.GlobalInfo(true, 1)]
    ensures Ir.RunMethod(ctx, Main, [], world, fuel) == Some(Exited(-1, world))
  {
    var frames: seq<Ir.Frame> := [map[]];
    assert frames[..0] == [];
    assert Ir.Resolve([], "a").None?;
    assert Ir.Resolve(frames, "a").None?;
    assert Ir.ExecAssignment(ctx, Write, frames, world) == Ir.Halted(Exited(-1, world));
    assert Ir.BindParameters([], []) == map[] && Ir.OpenScope(map[], []) == map[];
    assert Ir.ExecAll(ctx, Main.body.statements, frames, world, fuel) == Ir.Halted(Exited(-1, world));
  }

  lemma SourceExits(env: Environment, depth: nat, world: World)
    requires depth > 0
    ensures SourceCall(P, env, true, depth, "main", [], world) == Some(Exited(-1, world))
  {
    hide Ir.RunMethod, StartWorld;
    NothingStored(world);
    assert [A][..0] == [];
    assert GlobalInfos([A]) == map["a" := Ir.GlobalInfo(true, 1)];
    var ctx := Ir.Context(GlobalInfos([A]), SourceOracle(P, env, true, depth - 1));
    assert FindMethod(P.methods[1..], "main") == Some(Main);
    assert FindMethod(P.methods, "main") == Some(Main);
    WriteExits(ctx, world, 0);
    assert Settles(ctx, Main, [], world, 0);
    MethodBehaviourIs(ctx, Main, [], world, 0);
  }

  // ----- what the generator makes of it -----

  const FieldA := FieldDeclaration("a", true, [0])

  function Temporary(name: string): FieldDeclaration {
    FieldDeclaration(name, false, [0])
  }

  function MainBlocks(): map<BlockId, Block> {
    map[1 := Block([Temporary("$0")], [Unary(Move, "$0", Literal(5))],
                   Branch(IfLess, true, Field("$0"), Literal(1), 2, 3)),
        2 := Block([], [], Exit(-1)),
        3 := Block([Temporary("$1")], [Unary(Move, "$1", Literal(5)), ArrayUpdate("a", Field("$0"), Field("$1"))],
                   Return(Literal(0)))]
  }

  lemma Table()
    ensures GlobalSymbols(P.fields) == map["a" := FieldA]
    ensures GlobalDeclarations(P.fields) == [FieldA]
  {
    assert [A][..0] == [];
    assert Lowering.FieldValues(A) == [0];
    assert Lowering.MakeField(A, 0) == FieldA;
    var empty: Lowering.SymbolTables := [map[]];
    assert Lowering.DeclareAll(empty, []) == empty;
    assert Lowering.DeclareAll(empty, [A]) == [map["a" := FieldA]];
  }

  lemma ConstantGenerated(s: Lowering.Generator)
    ensures var d := Names.TemporaryName('$', s.temporaries);
      Lowering.GenerateExpression(s, Number(5))
      == (s.(temporaries := s.temporaries + 1, fields := s.fields + [Temporary(d)],
             code := s.code + [Unary(Move, d, Literal(5))]), Field(d))
  {
    hide Lowering.GenerateShortCircuit, Lowering.GenerateCall, Lowering.GenerateLocation, Names.TemporaryName;
    assert Lowering.LiteralToInt64(Ir.Literal(Ir.IntLiteral, false, 5)) == 5;
  }

  lemma MainGenerated()
    ensures Lowering.GenerateMethod(map["a" := FieldA], Main, 0, 1).order == [1, 2, 3]
    ensures Lowering.GenerateMethod(map["a" := FieldA], Main, 0, 1).blocks == MainBlocks()
  {
    var all := MainBlocks();
    assert Names.TemporaryName('$', 0) == "$0" && Names.TemporaryName('$', 1) == "$1";
    var symbols: Lowering.SymbolTables := [map["a" := FieldA], map[]];
    assert symbols[..1] == [map["a" := FieldA]];
    assert Lowering.Lookup(symbols[..1], "a") == Some(FieldA);
    assert Lowering.FieldOf(symbols, "a") == FieldA;
    var s0 := Lowering.Generator(0, 2, symbols, [], [], [], map[], 1, [], []);
    assert Lowering.StartMethod(map["a" := FieldA], Main, 0, 1) == s0;
    var s1 := s0.(temporaries := 1, fields := [Temporary("$0")], code := [Unary(Move, "$0", Literal(5))]);
    ConstantGenerated(s0);
    assert s0.fields + s1.fields == s1.fields && s0.code + s1.code == s1.code;
    var s2 := Lowering.Generator(1, 4, symbols, [], [], [1, 2], map[1 := all[1], 2 := all[2]], 3, [], []);
    CheckGenerated(s1, s2);
    var s3 := s2.(temporaries := 2, fields := [Temporary("$1")], code := [Unary(Move, "$1", Literal(5))]);
    ConstantGenerated(s2);
    assert s2.fields + s3.fields == s3.fields && s2.code + s3.code == s3.code;
    var s4 := s3.(code := all[3].assignments);
    hide Lowering.GenerateExpression, Lowering.GenerateBoundsCheck, Lowering.PredecessorLists;
    assert s3.code + [ArrayUpdate("a", Field("$0"), Field("$1"))] == s4.code;
    assert Lowering.GenerateAssignment(s0, Write) == s4;
    assert [Ir.Assign(Write)][1..] == [];
    assert Lowering.GenerateStatement(s0, Ir.Assign(Write)) == s4;
    assert Lowering.GenerateStatements(s4, []) == s4;
    assert Lowering.GenerateBody(map["a" := FieldA], Main, 0, 1) == s4;
    assert Lowering.Blocks(s4, Return(Literal(0))) == all;
    assert s4.order + [3] == [1, 2, 3];
  }

  lemma CheckGenerated(s: Lowering.Generator, s': Lowering.Generator)
    requires s == Lowering.Generator(1, 2, s.symbols, [], [], [], map[], 1, [Temporary("$0")],
      [Unary(Move, "$0", Literal(5))])
    requires s' == Lowering.Generator(1, 4, s.symbols, [], [], [1, 2],
      map[1 := MainBlocks()[1], 2 := MainBlocks()[2]], 3, [], [])
    ensures Lowering.GenerateBoundsCheck(s, Field("$0"), 1) == s'
  {
    var all := MainBlocks();
    var s1 := Lowering.Generator(1, 4, s.symbols, [], [], [1], map[1 := all[1]], 2, [], []);
    assert Lowering.Finish(s.(nextBlock := 4), Branch(IfLess, true, Field("$0"), Literal(1), 2, 3), 2) == s1;
    assert s1.finished[2 := all[2]] == s'.finished && [1] + [2] == [1, 2];
    assert Lowering.Finish(s1, Exit(-1), 3) == s';
  }

  lemma ExitGenerated()
    ensures Lowering.GenerateBody(map["a" := FieldA], ExitMethod, 0, 0).temporaries == 0
      && Lowering.GenerateBody(map["a" := FieldA], ExitMethod, 0, 0).nextBlock == 1
    ensures Lowering.GenerateMethod(map["a" := FieldA], ExitMethod, 0, 0).order == [0]
    ensures Lowering.GenerateMethod(map["a" := FieldA], ExitMethod, 0, 0).blocks
      == map[0 := Block([], [], Return(Literal(0)))]
  {
  }

  function Generated(): Program {
    Program([FieldA], map[
      "exit" := Method(MethodLowering.Parameters(ExitMethod.arguments),
        Lowering.GenerateMethod(map["a" := FieldA], ExitMethod, 0, 0)),
      "main" := Method([], Lowering.GenerateMethod(map["a" := FieldA], Main, 0, 1))])
  }

  lemma ProgramGenerated()
    ensures GenerateProgram(P) == Generated()
  {
    Table();
    ExitGenerated();
    hide Lowering.GenerateBody, Lowering.GenerateMethod;
    var table := map["a" := FieldA];
    assert [ExitMethod, Main][1..] == [Main] && [Main][1..] == [];
    assert MethodLowering.Parameters(Main.arguments) == [];
    var rest := GenerateMethods(table, [Main], 0, 1);
    assert GenerateMethods(table, [], Lowering.GenerateBody(table, Main, 0, 1).temporaries,
      Lowering.GenerateBody(table, Main, 0, 1).nextBlock) == map[];
    assert rest == map["main" := Generated().methods["main"]];
  }

  // ----- it compiles -----

  ghost predicate MethodFits(m: Method) {
    && SlotsFit(MethodFields(m))
    && forall f :: f in [FieldA] + LocalFields(m.graph.order, m.graph.blocks) ==> 8 * |f.values| < TWO_63
  }

  lemma MainFits()
    ensures MethodFits(Method([], Lowering.GenerateMethod(map["a" := FieldA], Main, 0, 1)))
  {
    MainGenerated();
    hide SlotsFit, Lowering.GenerateMethod;
    var m := Method([], Lowering.GenerateMethod(map["a" := FieldA], Main, 0, 1));
    MainFields(m.graph.blocks);
    GrowingLengthsFit(MethodFields(m));
  }

  lemma ExitFits()
    ensures MethodFits(Method(MethodLowering.Parameters(ExitMethod.arguments),
      Lowering.GenerateMethod(map["a" := FieldA], ExitMethod, 0, 0)))
  {
    ExitGenerated();
    hide SlotsFit, Lowering.GenerateMethod;
    var m := Method(MethodLowering.Parameters(ExitMethod.arguments),
      Lowering.GenerateMethod(map["a" := FieldA], ExitMethod, 0, 0));
    ExitFields(m.graph.blocks);
    GrowingLengthsFit(MethodFields(m));
  }

  lemma FramesFit()
    ensures FitsFrames(Generated())
  {
    hide SlotsFit, Lowering.GenerateMethod, LocalFields, MethodFields;
    MainFits();
    ExitFits();
  }

  lemma MainFields(blocks: map<BlockId, Block>)
    requires blocks.Keys == {1, 2, 3} && blocks[1].fields == [Temporary("$0")] && blocks[2].fields == []
    requires blocks[3].fields == [Temporary("$1")]
    ensures LocalFields([1, 2, 3], blocks) == [Temporary("$0"), Temporary("$1")]
  {
    assert [1, 2, 3][..2] == [1, 2] && [1, 2][..1] == [1] && [1][..0] == [];
    assert LocalFields([1], blocks) == [Temporary("$0")];
    assert LocalFields([1, 2], blocks) == [Temporary("$0")];
  }

  lemma ExitFields(blocks: map<BlockId, Block>)
    requires blocks == map[0 := Block([], [], Return(Literal(0)))]
    ensures LocalFields([0], blocks) == []
  {
    assert [0][..0] == [];
  }

  lemma NothingOptimized(p: Program)
    requires WellFormedProgram(p)
    ensures Optimizations.OptimizedProgram(NoPasses, p, p)
  {
    forall n | n in p.methods
      ensures Optimizations.Optimized(NoPasses, p.globals, p.methods[n].graph, p.methods[n].graph)
    {
      var g := p.methods[n].graph;
      assert Optimizations.AfterElimination(false, p.globals, g, g);
    }
  }

  lemma Compiles()
    ensures Compiled(P, NoPasses, Generated())
  {
    hide Optimizations.OptimizedProgram, Optimizations.OptimizableProgram, FitsFrames, Accepted, GenerateMethods,
      Checker.CheckProgram, Generated, WellFormedProgram;
    IsAsRead();
    IsAccepted();
    CheckerSoundness.CheckerGuarantees(P);
    ProgramGenerated();
    FramesFit();
    FixedIsOptimizable(P, NoPasses);
    OptimizableIsWellFormed(NoPasses, Generated());
    NothingOptimized(Generated());
  }

  // ----- what the machine does -----

  /** Storing through an unchecked index writes wherever the index leads. */
  lemma StrayWriteRuns(ctx: Context, mc: MachineContext, l: Layout, st: State, m: MachineState, name: string,
                       index: Operand, value: Operand) returns (m': MachineState)
    requires LayoutOk(ctx, l) && Related(ctx, l, st, m) && CleanOperands(ctx, l, [index, value], false)
    requires name in ctx.globals && name in ctx.lengths
    requires -TWO_63 <= 8 * Eval(ctx, st, index) < TWO_63
    ensures RunStraight(mc, AssignmentCode(l.offsets, ArrayUpdate(name, index, value)), m) == Continue(m')
    ensures Related(ctx, l, Llir.Write(ctx, st, name, Eval(ctx, st, index), Eval(ctx, st, value)), m')
      && m'.stack == m.stack
  {
    hide RunStraight, Related, Load, Known, LoadArray, LayoutOk;
    assert [index, value][0] == index && [index, value][1] == value;
    var i, v := Eval(ctx, st, index), Eval(ctx, st, value);
    var store := Load(l.offsets, value, R11) + [StoreIndirect(R11, R10)];
    ArrayBase(ctx, mc, l, st, m, name);
    var m1 := SetReg(m, R10, ElementAt(ctx, l, name, 0));
    RelatedKept(ctx, l, st, m, m1);
    LoadRuns(ctx, mc, l, st, m1, index, R11);
    var m2 := SetReg(m1, R11, Plain(i));
    StraightConcatenation(mc, LoadArray(l.offsets, name, R10), Load(l.offsets, index, R11)
      + ([Scale(R11), AddTo(R11, R10)] + store), m);
    StraightConcatenation(mc, Load(l.offsets, index, R11), [Scale(R11), AddTo(R11, R10)] + store, m1);
    var m3 := AddressSum(ctx, mc, l, m2, name, i, store);
    RelatedKept(ctx, l, st, m, m3);
    LoadRuns(ctx, mc, l, st, m3, value, R11);
    var m4 := SetReg(m3, R11, Plain(v));
    StraightConcatenation(mc, Load(l.offsets, value, R11), [StoreIndirect(R11, R10)], m3);
    StraightOne(mc, StoreIndirect(R11, R10), m4);
    WriteGlobal(ctx, l, st, m4, name, i, v);
    m' := m4.(world := m4.world.(globals := m4.world.globals[Cell(name, i) := v]));
  }

  ghost predicate RunsMain(e: Emission) {
    && Emitted(e) && e.g.order == [1, 2, 3] && e.g.blocks == MainBlocks()
    && e.ctx.globals == {"a"} && "a" in e.ctx.lengths
    && forall w :: e.mc.call("exit", [Argument.Number(-1)], w) == Returned(0, w)
  }

  function AfterIndex(e: Emission, st: State): State {
    Llir.Write(e.ctx, st, "$0", 0, 5)
  }

  /** The index is computed, the check fails, and the exit is reached. */
  lemma IndexRuns(e: Emission, st: State, m: MachineState) returns (m': MachineState)
    requires RunsMain(e) && Related(e.ctx, e.l, st, m) && m.stack == 0 - e.l.size
    ensures BlockStart(e, 0) < |Code(e)| && BlockStart(e, 1) < |Code(e)|
    ensures ToLabel(e.mc, Code(e), BlockStart(e, 0) + 1, m) == Arrived(2, BlockStart(e, 1) + 1, m')
    ensures Related(e.ctx, e.l, AfterIndex(e, st), m') && m'.stack == m.stack
  {
    hide Emitted, Related, BlockStart, Code, RestOfBlock, ToLabel, AssignmentCode;
    var block := MainBlocks()[1];
    BlockEntered(e, 0);
    var pc := BlockStart(e, 0) + 1;
    var m1 := AssignmentInside(e, 0, 0, pc, st, m);
    var pc1 := pc + |AssignmentCode(e.l.offsets, block.assignments[0])|;
    var target, m2 := BranchRuns(e, 0, pc1, AfterIndex(e, st), m1);
    assert Eval(e.ctx, AfterIndex(e, st), Field("$0")) == 5;
    assert Chosen(e.ctx, block.terminal, AfterIndex(e, st)) == 2;
    m' := m2;
  }

  /** The exit returns, and control falls into the block that the check guards. */
  lemma ExitReturns(e: Emission, st: State, m: MachineState) returns (m': MachineState)
    requires RunsMain(e) && Related(e.ctx, e.l, st, m) && m.stack == 0 - e.l.size
    ensures BlockStart(e, 1) < |Code(e)| && BlockStart(e, 2) < |Code(e)|
    ensures ToLabel(e.mc, Code(e), BlockStart(e, 1) + 1, m) == Arrived(3, BlockStart(e, 2) + 1, m')
    ensures Related(e.ctx, e.l, st, m') && m'.stack == m.stack
  {
    hide Emitted, Related, BlockStart, Code, RestOfBlock, ToLabel;
    BlockEntered(e, 1);
    m' := ExitRuns(e, 1, BlockStart(e, 1) + 1, st, m);
    BlockEndsSomewhere(e, 1, m');
    BlockEntered(e, 2);
  }

  function AfterStore(e: Emission, st: State): State {
    Llir.Write(e.ctx, Llir.Write(e.ctx, st, "$1", 0, 5), "a", 5, 5)
  }

  /** The guarded block writes outside the array, and the method returns. */
  lemma StoreRuns(e: Emission, st: State, m: MachineState)
    requires RunsMain(e) && Related(e.ctx, e.l, st, m) && m.stack == 0 - e.l.size && Eval(e.ctx, st, Field("$0")) == 5
    ensures BlockStart(e, 2) < |Code(e)|
    ensures ToLabel(e.mc, Code(e), BlockStart(e, 2) + 1, m) == Ended(Returned(0, AfterStore(e, st).world))
  {
    hide Emitted, Related, BlockStart, Code, RestOfBlock, ToLabel, AssignmentCode;
    var block := MainBlocks()[3];
    BlockEntered(e, 2);
    var pc := BlockStart(e, 2) + 1;
    var m1 := AssignmentInside(e, 2, 0, pc, st, m);
    var st1 := Llir.Write(e.ctx, st, "$1", 0, 5);
    var pc1 := pc + |AssignmentCode(e.l.offsets, block.assignments[0])|;
    var m2 := StrayInside(e, pc1, st1, m1);
    var pc2 := pc1 + |AssignmentCode(e.l.offsets, block.assignments[1])|;
    var _ := AssignmentInside(e, 2, 1, pc1, st1, m1);
    ReturnRuns(e, 2, pc2, AfterStore(e, st), m2);
  }

  lemma StrayInside(e: Emission, pc: nat, st: State, m: MachineState) returns (m': MachineState)
    requires RunsMain(e) && RestOfBlock(e, 2, 1, pc) && Related(e.ctx, e.l, st, m) && m.stack == 0 - e.l.size
    requires Eval(e.ctx, st, Field("$0")) == 5 && Eval(e.ctx, st, Field("$1")) == 5
    ensures var pc' := pc + |AssignmentCode(e.l.offsets, MainBlocks()[3].assignments[1])|;
      && pc <= pc' <= |Code(e)|
      && ToLabel(e.mc, Code(e), pc, m) == ToLabel(e.mc, Code(e), pc', m')
    ensures Related(e.ctx, e.l, Llir.Write(e.ctx, st, "a", 5, 5), m') && m'.stack == m.stack
  {
    hide Related, BlockStart, Code, ToLabel, AssignmentCode, LayoutOk, FallsThrough, Closed, PredecessorsAgree,
      TerminalCode, RunStraight;
    var block := MainBlocks()[3];
    var a := block.assignments[1];
    var piece := AssignmentCode(e.l.offsets, a);
    assert block.assignments[1..][1..] == [] && block.assignments[1..][0] == a;
    assert AssignmentsCode(e.l.offsets, []) == [];
    assert AssignmentsCode(e.l.offsets, block.assignments[1..]) == piece + [];
    assert piece + [] == piece;
    CodeAtParts(Code(e), pc, piece, TerminalAt(e, 2));
    AssignmentStraight(e.l.offsets, a);
    StraightInside(e.mc, Code(e), pc, piece, m);
    assert CleanAssignment(e.ctx, e.l, e.g.blocks[3].assignments[1]);
    assert Rewriting.Operands(a) == [Field("$0"), Field("$1")];
    m' := StrayWriteRuns(e.ctx, e.mc, e.l, st, m, "a", Field("$0"), Field("$1"));
  }

  /** From the first block to the end. */
  lemma BlocksRun(e: Emission, st: State, m: MachineState)
    requires RunsMain(e) && Related(e.ctx, e.l, st, m) && m.stack == 0 - e.l.size
    ensures BlockStart(e, 0) < |Code(e)|
    ensures RunCode(e.mc, Code(e), BlockStart(e, 0) + 1, m, 2)
      == Returned(0, st.world.(globals := st.world.globals[Cell("a", 5) := 5]))
  {
    hide Emitted, Related, BlockStart, Code, ToLabel;
    var m1 := IndexRuns(e, st, m);
    var m2 := ExitReturns(e, AfterIndex(e, st), m1);
    WorldAfter(e, st);
    StoreRuns(e, AfterIndex(e, st), m2);
    var code := Code(e);
    assert RunCode(e.mc, code, BlockStart(e, 2) + 1, m2, 0) == Returned(0, AfterStore(e, AfterIndex(e, st)).world);
    assert RunCode(e.mc, code, BlockStart(e, 1) + 1, m1, 1) == RunCode(e.mc, code, BlockStart(e, 2) + 1, m2, 0);
  }

  lemma WorldAfter(e: Emission, st: State)
    requires RunsMain(e)
    ensures Eval(e.ctx, AfterIndex(e, st), Field("$0")) == 5
    ensures AfterStore(e, AfterIndex(e, st)).world == st.world.(globals := st.world.globals[Cell("a", 5) := 5])
  {
  }

  // ----- all together -----

  /** The program's own `exit` returns. */
  lemma OwnExitReturns(env: MachineEnvironment, depth: nat, code: Word, world: World)
    requires depth > 0
    ensures MachineCall(EmitProgram(MethodNames(P.methods), Generated(), false), env, depth, "exit",
      [Argument.Number(code)], world) == Returned(0, world)
  {
    hide Compiled, Generated, MethodBehaviour, CodeBehaviour, MethodCode, EntryState, EmitMethods, Layable, OffsetsOk,
      Labels, ExitsEnd;
    var p' := Generated();
    var file := EmitProgram(MethodNames(P.methods), p', false);
    Compiles();
    AllLayable(P, NoPasses, p');
    var offsets := EmittedMethod(map[], p'.globals, MethodNames(P.methods), p'.methods, false, "exit")
      by { NothingAllocated(p'.globals); }
    MethodsCompiled(P, NoPasses, p', "exit");
    var src := Ir.Context(GlobalInfos(P.fields), (c, a, w) => None);
    ExitHasNoExit(MachineOracle(file, env, depth - 1));
    ExitBehaves(src, code, world);
    MethodCompiled(P, NoPasses, p', false, env, "exit", [Argument.Number(code)], world, src,
      MachineOracle(file, env, depth - 1), offsets);
  }

  lemma ExitHasNoExit(call: Oracle)
    ensures ExitsEnd(Generated().methods["exit"].graph, call) && "exit" in Generated().methods
  {
    ExitGenerated();
  }

  lemma ExitBehaves(ctx: Ir.Context, code: Word, world: World)
    ensures FindMethod(P.methods, "exit") == Some(ExitMethod) && StartWorld(P, "exit", world) == world
    ensures MethodBehaviour(ctx, ExitMethod, [Argument.Number(code)], world) == Some(Returned(0, world))
  {
    assert Ir.RunMethod(ctx, ExitMethod, [Argument.Number(code)], world, 0) == Some(Returned(0, world));
    assert Settles(ctx, ExitMethod, [Argument.Number(code)], world, 0);
    MethodBehaviourIs(ctx, ExitMethod, [Argument.Number(code)], world, 0);
  }

  /** What the machine theorem's proof establishes of the emission of any compiled method. */
  lemma MainIsEmitted(offsets: Offsets, mc: MachineContext)
    requires OffsetsOk([FieldA], offsets)
    ensures "main" in Generated().methods
    ensures var m := Generated().methods["main"];
      EmissionOk(ContextOf([FieldA], m.graph, mc.call), mc, offsets, [FieldA], m)
  {
    hide GraphNames.Emittable, Layable, OffsetsOk, Compiled, Lengths, LocalFields, Lowering.GenerateMethod;
    Compiles();
    assert FindMethod(P.methods[1..], "main") == Some(Main);
    assert FindMethod(P.methods, "main") == Some(Main);
    CompiledMethodEmits(P, NoPasses, Generated(), "main");
  }

  lemma MainEmitted(offsets: Offsets, mc: MachineContext) returns (e: Emission, ctx: Context)
    requires OffsetsOk([FieldA], offsets) && forall w :: mc.call("exit", [Argument.Number(-1)], w) == Returned(0, w)
    ensures "main" in Generated().methods
    ensures var m := Generated().methods["main"];
      && EmissionOk(ctx, mc, offsets, [FieldA], m) && m.arguments == []
      && e == EmissionOf(ctx, mc, offsets, [FieldA], "main", m, false)
    ensures RunsMain(e)
  {
    MainIsEmitted(offsets, mc);
    MainGenerated();
    hide EmissionOk, OffsetsOk, Emitted, LayoutOf, LayoutOk, WellFormed, Lengths, LocalFields, Code, MethodCode,
      BlockStart, CodeAt, AllStraight, Prologue, Lowering.GenerateMethod;
    var m := Generated().methods["main"];
    ctx := ContextOf([FieldA], m.graph, mc.call);
    e := EmissionOf(ctx, mc, offsets, [FieldA], "main", m, false);
    EmissionIsOk(ctx, mc, offsets, [FieldA], "main", m, false);
    OneGlobal();
    var fields := [FieldA] + LocalFields(m.graph.order, m.graph.blocks);
    assert fields[0] == FieldA;
    LengthsCover(fields, FieldA);
  }

  lemma OneGlobal()
    ensures DeadCode.GlobalNames([FieldA]) == {"a"}
  {
    assert [FieldA][0].identifier == "a";
  }

  /** The emitted `main`, from its first instruction to its first block. */
  lemma MainEntered(offsets: Offsets, mc: MachineContext, e: Emission, ctx: Context, m: Method, m0: MachineState)
    returns (st: State, m1: MachineState)
    requires m.arguments == [] && EmissionOk(ctx, mc, offsets, [FieldA], m) && AtEntry([], m0)
    requires e == EmissionOf(ctx, mc, offsets, [FieldA], "main", m, false)
    ensures Emitted(e) && |e.g.order| > 0 && BlockStart(e, 0) < |Code(e)|
      && Code(e) == MethodCode(offsets, [FieldA], "main", m, false)
    ensures ToLabel(mc, Code(e), 0, m0) == Arrived(e.g.order[0], BlockStart(e, 0) + 1, m1)
    ensures Related(e.ctx, e.l, st, m1) && m1.stack == 0 - e.l.size && st.world == m0.world
  {
    hide GraphNames.Emittable, EmissionOk, LayoutOf, MethodCode, AtEntry, ToLabel, RunStraight, Emitted, Code,
      BlockStart, WithGlobals, Prologue, Related, LayoutOk, WellFormed, OffsetsOk;
    EmissionIsOk(ctx, mc, offsets, [FieldA], "main", m, false);
    EmissionLayable(ctx, mc, offsets, [FieldA], m);
    LayoutIsOk([FieldA], offsets, m, mc.call);
    m1 := PrologueRuns(ctx, mc, e.l, [], [FieldA], [], m0);
    NothingWritten(m0.world);
    st := State(Bind(Leftover(e.l, m0.frame), [], []), m0.world);
    StraightInside(mc, Code(e), 0, e.prologue, m0);
    FallsInto(e, 0, m1);
  }

  lemma MainRuns(offsets: Offsets, mc: MachineContext, m0: MachineState)
    requires OffsetsOk([FieldA], offsets) && forall w :: mc.call("exit", [Argument.Number(-1)], w) == Returned(0, w)
    requires AtEntry([], m0)
    ensures "main" in Generated().methods
    ensures CodeBehaviour(mc, MethodCode(offsets, [FieldA], "main", Generated().methods["main"], false), m0)
      == Returned(0, m0.world.(globals := m0.world.globals[Cell("a", 5) := 5]))
  {
    var e, ctx := MainEmitted(offsets, mc);
    hide EmissionOk, LayoutOf, MethodCode, AtEntry, ToLabel, Emitted, Code, BlockStart, Related, CodeBehaviour,
      OffsetsOk, Generated;
    var st, m1 := MainEntered(offsets, mc, e, ctx, Generated().methods["main"], m0);
    BlocksRun(e, st, m1);
    assert RunCode(mc, Code(e), 0, m0, 3) == RunCode(mc, Code(e), BlockStart(e, 0) + 1, m1, 2);
    assert CodeEnds(mc, Code(e), m0, 3);
    CodeBehaviourIs(mc, Code(e), m0, 3);
  }

  lemma NothingWritten(world: World)
    ensures WithGlobals(world.globals, [FieldA]) == world.globals
  {
    assert [FieldA][..0] == [] && [0][..0] == [];
    assert WithValues(world.globals, "a", [0]) == world.globals;
  }

  /** The structured program exits with `code` and changes nothing; the emitted code returns and has changed
      `cell`. */
  ghost predicate ExitMissed(p: Ir.Program, p': Program, env: Environment, machine: MachineEnvironment, depth: nat,
                             world: World, code: Word, cell: Cell, v: Word) {
    && SourceCall(p, env, true, depth, "main", [], world) == Some(Exited(code, world))
    && MachineCall(EmitProgram(MethodNames(p.methods), p', false), machine, depth, "main", [], world)
       == Returned(0, world.(globals := world.globals[cell := v]))
  }

  /** Accepted by the checker and compiled, with a call of `exit` that does not reach the library. */
  ghost predicate WronglyLinked(p: Ir.Program, p': Program) {
    && Checker.CheckProgram(p, Checker.AsWritten) == Checker.Checked(p, true)
    && Compiled(p, NoPasses, p') && HasExits(p') && !Linkable(p, p')
  }

  lemma AcceptedButUnlinkable()
    ensures WronglyLinked(P, Generated())
  {
    hide Compiled, Generated, Checker.CheckProgram, HasExits, Linkable;
    IsAccepted();
    Compiles();
    ExitPossible();
  }

  /** The checker accepts the program and everything the compiler relies on besides its names holds
      (`AcceptedButUnlinkable`); the structured program exits with -1; the emitted code calls the program's
      own `exit`, writes outside the array and returns. */
  lemma OwnExitIsCalled(env: Environment, machine: MachineEnvironment, depth: nat, world: World)
    requires depth >= 2 && env.imports == machine.imports
    ensures ExitMissed(P, Generated(), env, machine, depth, world, -1, Cell("a", 5), 5)
  {
    hide Compiled, Generated, CodeBehaviour, MethodCode, EntryState, EmitMethods, Layable, OffsetsOk, Labels,
      Checker.CheckProgram, SourceCall;
    var p' := Generated();
    var file := EmitProgram(MethodNames(P.methods), p', false);
    Compiles();
    SourceExits(env, depth, world);
    ExitPossible();
    AllLayable(P, NoPasses, p');
    var offsets := EmittedMethod(map[], p'.globals, MethodNames(P.methods), p'.methods, false, "main")
      by { NothingAllocated(p'.globals); }
    MethodsCompiled(P, NoPasses, p', "main");
    var oracle := MachineOracle(file, machine, depth - 1);
    forall w ensures oracle("exit", [Argument.Number(-1)], w) == Returned(0, w) {
      OwnExitReturns(machine, depth - 1, -1, w);
    }
    EntryIsEntry(machine, "main", [], world);
    MainRuns(offsets, MachineContext(oracle, machine.clobber), EntryState(machine, "main", [], world));
  }

  lemma ExitPossible()
    ensures HasExits(Generated()) && !Linkable(P, Generated()) && Generated().globals == [FieldA]
    ensures FindMethod(P.methods, "main").Some?
  {
    MainGenerated();
    assert Generated().methods["main"].graph.blocks[2].terminal.Exit?;
    assert FindMethod(P.methods, "exit") == Some(ExitMethod);
    assert FindMethod(P.methods[1..], "main") == Some(Main);
  }
}
