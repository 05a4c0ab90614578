/** The compiler's main theorem: the emitted machine code of a whole program does what the
    structured program does. */
module MachinePrograms {
  import opened Words
  import opened Worlds
  import opened Llir
  import opened Machine
  import opened CodeGeneration
  import opened FrameLayout
  import opened Selection
  import opened LinearCode
  import opened Programs
  import opened DeadCode
  import opened GraphNames
  import opened MachineMethods
  import opened Compilation
  import opened MethodLowering
  import opened GeneratedMethods
  import opened Avoidance
  import GeneratedGraphs
  import Journeys
  import Lowering
  import Names
  import Optimizations
  import Rewriting
  import SoundGeneration
  import Ir

  // ----- one method -----

  ghost predicate EmissionOk(ctx: Context, mc: MachineContext, offsets: Offsets, globals: seq<FieldDeclaration>,
                             m: Method) {
    && Emittable(Origin(globals, GlobalNames(m.arguments)), m.graph)
    && Layable(globals, m) && OffsetsOk(globals, offsets)
    && ctx == ContextOf(globals, m.graph, mc.call)
  }

  lemma NamesAreKnown(ctx: Context, mc: MachineContext, offsets: Offsets, globals: seq<FieldDeclaration>, m: Method,
                      n: string)
    requires EmissionOk(ctx, mc, offsets, globals, m) && NamedIn(globals, GlobalNames(m.arguments), m.graph, n)
    ensures Known(ctx, LayoutOf(offsets, m), n)
  {
    hide SlotsFit, GraphNamed, FallsThrough, Closed, PredecessorsAgree, Allocate, FrameSize, LocalFields;
    var fields := MethodFields(m);
    LongestCovers(fields);
    if n in GlobalNames(m.arguments) {
      var k :| 0 <= k < |m.arguments| && m.arguments[k].identifier == n;
      assert m.arguments[k] in fields;
    } else if n !in GlobalNames(globals) {
      var b :| b in m.graph.blocks && n in GlobalNames(m.graph.blocks[b].fields);
      var declared := m.graph.blocks[b].fields;
      var k :| 0 <= k < |declared| && declared[k].identifier == n;
      LocalFieldsMember(m.graph.order, m.graph.blocks, b, declared[k]);
      assert declared[k] in fields;
    }
  }

  lemma GraphIsClean(ctx: Context, mc: MachineContext, offsets: Offsets, globals: seq<FieldDeclaration>, m: Method)
    requires EmissionOk(ctx, mc, offsets, globals, m)
    ensures CleanGraph(ctx, LayoutOf(offsets, m), m.graph)
  {
    hide Layable, FallsThrough, Closed, PredecessorsAgree, LayoutOf, NamedIn, GeneratedGraphs.FieldsOk, Known;
    var l, g, w := LayoutOf(offsets, m), m.graph, Origin(globals, GlobalNames(m.arguments));
    forall n | NamedIn(globals, GlobalNames(m.arguments), g, n)
      ensures Known(ctx, l, n) { NamesAreKnown(ctx, mc, offsets, globals, m, n); }
    forall b, i | b in g.blocks && 0 <= i < |g.blocks[b].assignments|
      ensures CleanAssignment(ctx, l, g.blocks[b].assignments[i]) {
      var u := Position(b, i);
      assert Rewriting.OperandsAt(g, u) == Rewriting.Operands(g.blocks[b].assignments[i]);
      assert PointNamed(w, g, u);
      forall k | 0 <= k < |Rewriting.Operands(g.blocks[b].assignments[i])|
        ensures OperandNamed(w, g, Rewriting.Operands(g.blocks[b].assignments[i])[k],
          g.blocks[b].assignments[i].Call?) {}
    }
    forall b | b in g.blocks ensures CleanOperands(ctx, l, Rewriting.TerminalOperands(g.blocks[b].terminal), false) {
      var u := Position(b, |g.blocks[b].assignments|);
      assert Rewriting.OperandsAt(g, u) == Rewriting.TerminalOperands(g.blocks[b].terminal);
      assert PointNamed(w, g, u);
      forall k | 0 <= k < |Rewriting.TerminalOperands(g.blocks[b].terminal)|
        ensures OperandNamed(w, g, Rewriting.TerminalOperands(g.blocks[b].terminal)[k], false) {}
    }
  }

  lemma {:induction false} ParametersStraight(offsets: Offsets, parameters: seq<FieldDeclaration>)
    ensures AllStraight(ParametersCode(offsets, parameters))
  {
    if parameters != [] { ParametersStraight(offsets, parameters[..|parameters| - 1]); }
  }

  lemma {:induction false} GlobalStraight(name: string, values: seq<Word>)
    ensures AllStraight(GlobalCode(name, values))
  {
    if values != [] { GlobalStraight(name, values[..|values| - 1]); }
  }

  lemma {:induction false} GlobalsStraight(globals: seq<FieldDeclaration>)
    ensures AllStraight(GlobalsCode(globals))
  {
    if globals != [] {
      var f := globals[|globals| - 1];
      GlobalsStraight(globals[..|globals| - 1]);
      GlobalStraight(f.identifier, f.values);
    }
  }

  lemma PrologueStraight(offsets: Offsets, parameters: seq<FieldDeclaration>, size: nat,
                         initialized: seq<FieldDeclaration>)
    ensures AllStraight(Prologue(offsets, parameters, size, initialized))
  {
    ParametersStraight(offsets, parameters);
    GlobalsStraight(initialized);
    hide ParametersCode, GlobalsCode;
    PiecesStraight(ParametersCode(offsets, parameters), GlobalsCode(initialized));
    PiecesStraight([PushBase, EnterFrame, GrowStack(size)], ParametersCode(offsets, parameters)
      + GlobalsCode(initialized));
  }

  /** Only `main` sets the globals. */
  function Initialized(globals: seq<FieldDeclaration>, name: string): seq<FieldDeclaration> {
    if name == "main" then globals else []
  }

  function EntryLocals(offsets: Offsets, m: Method, arguments: seq<Argument>, frame: map<int, Value>): Store {
    Bind(Leftover(LayoutOf(offsets, m), frame), m.arguments, arguments)
  }

  /** The code of a method, from its first instruction, does what its blocks do. */
  lemma MethodCodeRuns(ctx: Context, mc: MachineContext, offsets: Offsets, globals: seq<FieldDeclaration>,
                       name: string, m: Method, peephole: bool, arguments: seq<Argument>, m0: MachineState, fuel: nat)
    requires EmissionOk(ctx, mc, offsets, globals, m) && ExitsEnd(m.graph, mc.call)
    requires AtEntry(arguments, m0) && AllNumbers(arguments) && |arguments| == |m.arguments|
    ensures var st := State(EntryLocals(offsets, m, arguments, m0.frame),
                            m0.world.(globals := WithGlobals(m0.world.globals, Initialized(globals, name))));
            var code, entry := MethodCode(offsets, globals, name, m, peephole), Entry(m.graph);
            InStep(Run(ctx, m.graph, st, fuel), [entry] + Visited(ctx, m.graph, entry, 0, st, fuel),
                   RunCode(mc, code, 0, m0, fuel + 1), Visits(mc, code, 0, m0, fuel + 1))
  {
    hide EmissionOk, LayoutOf, Initialized, MethodCode, AllNumbers, AtEntry, ToLabel, RunFrom, RunStraight, Emitted,
      Code, BlockStart, WithGlobals, Prologue, Related, LayoutOk, WellFormed, Visited, InStep, ExitsEnd;
    var e := EmissionOf(ctx, mc, offsets, globals, name, m, peephole);
    EmissionIsOk(ctx, mc, offsets, globals, name, m, peephole);
    var l, initialized := LayoutOf(offsets, m), Initialized(globals, name);
    LayoutIsOk(globals, offsets, m, mc.call) by { EmissionLayable(ctx, mc, offsets, globals, m); }
    ParametersPlaced(ctx, mc, offsets, globals, m);
    var st := State(EntryLocals(offsets, m, arguments, m0.frame),
      m0.world.(globals := WithGlobals(m0.world.globals, initialized)));
    var m1 := PrologueRuns(ctx, mc, l, m.arguments, initialized, arguments, m0);
    StraightInside(mc, Code(e), 0, e.prologue, m0);
    FallsInto(e, 0, m1);
    Entered(e, 0, st, m1, fuel);
  }

  function EmissionOf(ctx: Context, mc: MachineContext, offsets: Offsets, globals: seq<FieldDeclaration>,
                      name: string, m: Method, peephole: bool): Emission {
    var l := LayoutOf(offsets, m);
    Emission(ctx, mc, l, m.graph, Prologue(l.offsets, m.arguments, l.size, Initialized(globals, name)), peephole)
  }

  lemma EmissionLayable(ctx: Context, mc: MachineContext, offsets: Offsets, globals: seq<FieldDeclaration>, m: Method)
    requires EmissionOk(ctx, mc, offsets, globals, m)
    ensures Layable(globals, m) && OffsetsOk(globals, offsets) && ctx == ContextOf(globals, m.graph, mc.call)
      && WellFormed(m.graph)
  {
  }

  lemma EmissionIsOk(ctx: Context, mc: MachineContext, offsets: Offsets, globals: seq<FieldDeclaration>,
                     name: string, m: Method, peephole: bool)
    requires EmissionOk(ctx, mc, offsets, globals, m)
    ensures var e := EmissionOf(ctx, mc, offsets, globals, name, m, peephole);
      && Emitted(e) && LayoutOk(ctx, e.l) && WellFormed(e.g) && |e.g.order| > 0
      && Code(e) == MethodCode(offsets, globals, name, m, peephole)
      && CodeAt(Code(e), 0, e.prologue) && AllStraight(e.prologue) && BlockStart(e, 0) == |e.prologue|
  {
    hide LayoutOk, GraphNamed, FallsThrough, Closed, PredecessorsAgree, CleanGraph, AllStraight, Layable, OffsetsOk,
      Prologue, BodyCode, LayoutOf;
    var e := EmissionOf(ctx, mc, offsets, globals, name, m, peephole);
    LayoutIsOk(globals, offsets, m, mc.call);
    GraphIsClean(ctx, mc, offsets, globals, m);
    PrologueStraight(e.l.offsets, m.arguments, e.l.size, Initialized(globals, name));
    SameCode(offsets, globals, name, m, peephole);
    assert Code(e)[0..|e.prologue|] == e.prologue;
    FirstStart(e);
  }

  lemma FirstStart(e: Emission)
    requires Emitted(e)
    ensures BlockStart(e, 0) == |e.prologue|
  {
  }

  lemma SameCode(offsets: Offsets, globals: seq<FieldDeclaration>, name: string, m: Method, peephole: bool)
    ensures var l := LayoutOf(offsets, m);
      MethodCode(offsets, globals, name, m, peephole)
      == Prologue(l.offsets, m.arguments, l.size, Initialized(globals, name))
        + BodyCode(l.offsets, m.graph.order, m.graph.blocks, peephole)
  {
  }

  lemma ParametersPlaced(ctx: Context, mc: MachineContext, offsets: Offsets, globals: seq<FieldDeclaration>, m: Method)
    requires EmissionOk(ctx, mc, offsets, globals, m)
    ensures forall i :: 0 <= i < |m.arguments| ==> m.arguments[i].identifier in LayoutOf(offsets, m).lengths
  {
    hide Allocate, FrameSize;
    LongestCovers(MethodFields(m));
    forall i | 0 <= i < |m.arguments| ensures m.arguments[i].identifier in LayoutOf(offsets, m).lengths {
      assert m.arguments[i] in MethodFields(m);
    }
  }

  // ----- behaviour of code -----

  lemma {:induction false} CodeFuel(mc: MachineContext, code: seq<Instruction>, pc: nat, m: MachineState, fuel: nat,
                                    more: nat)
    requires pc <= |code| && fuel <= more && RunCode(mc, code, pc, m, fuel) != Diverged
    ensures RunCode(mc, code, pc, m, more) == RunCode(mc, code, pc, m, fuel)
    decreases fuel
  {
    hide ToLabel;
    match ToLabel(mc, code, pc, m)
    case Ended(_) =>
    case Arrived(_, pc', m') => CodeFuel(mc, code, pc', m', fuel - 1, more - 1);
  }

  ghost predicate CodeEnds(mc: MachineContext, code: seq<Instruction>, m: MachineState, fuel: nat) {
    RunCode(mc, code, 0, m, fuel) != Diverged
  }

  ghost function CodeBehaviour(mc: MachineContext, code: seq<Instruction>, m: MachineState): Outcome {
    if exists fuel: nat :: CodeEnds(mc, code, m, fuel) then
      var fuel: nat :| CodeEnds(mc, code, m, fuel);
      RunCode(mc, code, 0, m, fuel)
    else
      Diverged
  }

  lemma CodeBehaviourIs(mc: MachineContext, code: seq<Instruction>, m: MachineState, fuel: nat)
    requires CodeEnds(mc, code, m, fuel)
    ensures CodeBehaviour(mc, code, m) == RunCode(mc, code, 0, m, fuel)
  {
    hide RunCode;
    var other: nat :| CodeEnds(mc, code, m, other) && CodeBehaviour(mc, code, m) == RunCode(mc, code, 0, m, other);
    if other <= fuel {
      CodeFuel(mc, code, 0, m, other, fuel);
    } else {
      CodeFuel(mc, code, 0, m, fuel, other);
    }
  }

  /** In step at every fuel is the same behaviour. */
  lemma CodeRefines(ctx: Context, g: Graph, st: State, mc: MachineContext, code: seq<Instruction>, m: MachineState)
    requires WellFormed(g)
    requires forall fuel: nat :: SameUnlessTrapped(Run(ctx, g, st, fuel), RunCode(mc, code, 0, m, fuel + 1))
    ensures SameUnlessTrapped(Behaviour(ctx, g, st), CodeBehaviour(mc, code, m))
  {
    hide RunCode, Run, WellFormed;
    if fuel: nat :| Llir.Ends(ctx, g, st, fuel) {
      BehaviourIs(ctx, g, st, fuel);
      assert SameUnlessTrapped(Run(ctx, g, st, fuel), RunCode(mc, code, 0, m, fuel + 1));
      if !Undefined(Run(ctx, g, st, fuel)) {
        assert CodeEnds(mc, code, m, fuel + 1);
        CodeBehaviourIs(mc, code, m, fuel + 1);
      }
    } else {
      forall fuel: nat ensures !CodeEnds(mc, code, m, fuel) {
        assert !Llir.Ends(ctx, g, st, fuel);
        assert SameUnlessTrapped(Run(ctx, g, st, fuel), RunCode(mc, code, 0, m, fuel + 1));
        if CodeEnds(mc, code, m, fuel) { CodeFuel(mc, code, 0, m, fuel, fuel + 1); }
      }
    }
  }

  // ----- machine programs -----

  /** What emitted code cannot see: imported functions, what calls leave in registers, and what a
      register or the memory below the stack happens to hold. */
  datatype MachineEnvironment = MachineEnvironment(
    imports: Oracle,
    clobber: (string, World) -> map<Register, Value>,
    registers: (string, World) -> map<Register, Value>,
    memory: (string, World) -> map<int, Word>)

  /** The emitted file: the code of each method, and every other label that it defines. */
  datatype MachineProgram = MachineProgram(text: map<string, seq<Instruction>>, labels: set<string>)

  /** Arguments as the caller leaves them: six registers, then upwards from the return address. */
  function PlaceArguments(m: MachineState, arguments: seq<Argument>): MachineState {
    if arguments == [] then m
    else
      var i := |arguments| - 1;
      var before := PlaceArguments(m, arguments[..i]);
      if i < 6 then SetReg(before, IntegerArguments[i], ArgumentValue(arguments[i]))
      else SetSlot(before, 8 * (i - 6) + 16, ArgumentValue(arguments[i]))
  }

  function EntryState(env: MachineEnvironment, callee: string, arguments: seq<Argument>, world: World): MachineState {
    var memory := env.memory(callee, world);
    PlaceArguments(MachineState(env.registers(callee, world), map k | k in memory && k < 0 :: Plain(memory[k]),
      CallerBase, 8, (0, 0), world), arguments)
  }

  lemma {:induction false} ArgumentsArePlaced(m: MachineState, arguments: seq<Argument>)
    requires m.stack == 8 && m.base == CallerBase && forall k :: k in m.frame && k < 0 ==> m.frame[k].Plain?
    ensures AtEntry(arguments, PlaceArguments(m, arguments)) && PlaceArguments(m, arguments).world == m.world
  {
    if arguments != [] {
      var n := |arguments| - 1;
      var before, after := PlaceArguments(m, arguments[..n]), PlaceArguments(m, arguments);
      ArgumentsArePlaced(m, arguments[..n]);
      forall i | 0 <= i < |arguments| ensures IncomingValue(after, i) == ArgumentValue(arguments[i]) {
        if i < n {
          assert IncomingValue(before, i) == ArgumentValue(arguments[..n][i]);
        }
      }
    }
  }

  ghost function MachineOracle(p: MachineProgram, env: MachineEnvironment, depth: nat): Oracle
    decreases depth, 1
  {
    (callee, arguments, world) => MachineCall(p, env, depth, callee, arguments, world)
  }

  /** A call of emitted code, with at most `depth` nested calls between the program's own methods. Any other
      label of the file hides the imported function of its name; what a call of it does is not said. */
  ghost function MachineCall(p: MachineProgram, env: MachineEnvironment, depth: nat,
                             callee: string, arguments: seq<Argument>, world: World): Outcome
    decreases depth, 0
  {
    if callee !in p.text then if callee in p.labels then Trapped else env.imports(callee, arguments, world)
    else if depth == 0 then Diverged
    else
      CodeBehaviour(MachineContext(MachineOracle(p, env, depth - 1), env.clobber), p.text[callee],
        EntryState(env, callee, arguments, world))
  }

  /** The text section: method after method, with one offsets table that only grows. */
  function EmitMethods(offsets: Offsets, globals: seq<FieldDeclaration>, names: seq<string>,
                       methods: map<string, Method>, peephole: bool): map<string, seq<Instruction>>
    decreases |names|
  {
    if names == [] then map[]
    else if names[0] !in methods then EmitMethods(offsets, globals, names[1..], methods, peephole)
    else
      var m := methods[names[0]];
      EmitMethods(Allocate(offsets, MethodFields(m)), globals, names[1..], methods, peephole)
        [names[0] := MethodCode(offsets, globals, names[0], m, peephole)]
  }

  function MethodNames(methods: seq<Ir.Method>): (names: seq<string>)
    ensures |names| == |methods| && forall i :: 0 <= i < |methods| ==> names[i] == methods[i].identifier
  {
    seq(|methods|, i requires 0 <= i < |methods| => methods[i].identifier)
  }

  /** The strings of the data section: each text passed to a call, once. */
  function Strings(p: Program): set<string> {
    set n, b, i, k | n in p.methods && b in p.methods[n].graph.blocks
      && 0 <= i < |p.methods[n].graph.blocks[b].assignments|
      && p.methods[n].graph.blocks[b].assignments[i].Call?
      && 0 <= k < |p.methods[n].graph.blocks[b].assignments[i].arguments|
      && p.methods[n].graph.blocks[b].assignments[i].arguments[k].Text?
      :: p.methods[n].graph.blocks[b].assignments[i].arguments[k].text
  }

  function BlockLabelName(b: BlockId): string {
    "block_" + Names.Decimal(b)
  }

  function StringLabelName(k: nat): string {
    "string_" + Names.Decimal(k)
  }

  /** The labels the emitted file defines besides its methods: globals, blocks, and strings numbered from 1. */
  function Labels(p: Program): set<string> {
    GlobalNames(p.globals)
    + (set n, b | n in p.methods && b in p.methods[n].graph.blocks :: BlockLabelName(b))
    + set k | 1 <= k <= |Strings(p)| :: StringLabelName(k)
  }

  function EmitProgram(names: seq<string>, p: Program, peephole: bool): MachineProgram {
    MachineProgram(EmitMethods(map[], p.globals, names, p.methods, peephole), Labels(p))
  }

  lemma {:induction false} EmittedMethod(offsets: Offsets, globals: seq<FieldDeclaration>, names: seq<string>,
                                         methods: map<string, Method>, peephole: bool, name: string)
    returns (before: Offsets)
    requires OffsetsOk(globals, offsets)
    requires forall n :: n in methods ==> Layable(globals, methods[n])
    ensures name in EmitMethods(offsets, globals, names, methods, peephole) <==> name in names && name in methods
    ensures name in names && name in methods ==>
      OffsetsOk(globals, before)
      && EmitMethods(offsets, globals, names, methods, peephole)[name]
        == MethodCode(before, globals, name, methods[name], peephole)
    decreases |names|
  {
    hide MethodCode, Layable, Allocate, MethodFields;
    before := offsets;
    if names != [] && names[0] in methods {
      OffsetsStayOk(globals, offsets, methods[names[0]]);
      if names[0] != name {
        before := EmittedMethod(Allocate(offsets, MethodFields(methods[names[0]])), globals, names[1..], methods,
          peephole, name);
      }
    } else if names != [] {
      before := EmittedMethod(offsets, globals, names[1..], methods, peephole, name);
    }
  }

  lemma OffsetsStayOk(globals: seq<FieldDeclaration>, offsets: Offsets, m: Method)
    requires OffsetsOk(globals, offsets) && Layable(globals, m)
    ensures OffsetsOk(globals, Allocate(offsets, MethodFields(m)))
  {
    hide Allocate, MethodFields, SlotsFit;
    forall n | n in GlobalNames(globals) ensures !IsLocal(Allocate(offsets, MethodFields(m)), n) {
      AllocateElsewhere(MethodFields(m), offsets, n);
    }
  }

  // ----- what the frame layout needs of the source -----

  /** Room for every name of every method, and objects that fit the address space. */
  ghost predicate FitsFrames(p: Program) {
    forall n :: n in p.methods ==>
      && SlotsFit(MethodFields(p.methods[n]))
      && forall f :: f in p.globals + LocalFields(p.methods[n].graph.order, p.methods[n].graph.blocks) ==>
           8 * |f.values| < TWO_63
  }

  lemma {:induction false} LocalFieldsFrom(order: seq<BlockId>, blocks: map<BlockId, Block>, f: FieldDeclaration)
    returns (b: BlockId)
    requires f in LocalFields(order, blocks)
    ensures b in blocks && f in blocks[b].fields
  {
    var front, last := order[..|order| - 1], order[|order| - 1];
    if f in LocalFields(front, blocks) { b := LocalFieldsFrom(front, blocks, f); } else { b := last; }
  }

  lemma MethodIsLayable(globals: seq<FieldDeclaration>, fields: seq<Ir.Field>, m: Method)
    requires m.arguments == Parameters(fields) && ArgumentFields(fields)
    requires GraphNamed(Origin(globals, GlobalNames(m.arguments)), m.graph)
    requires forall n :: n in GlobalNames(globals) ==> Names.ValidIdentifier(n)
    requires SlotsFit(MethodFields(m))
    requires forall f :: f in globals + LocalFields(m.graph.order, m.graph.blocks) ==> 8 * |f.values| < TWO_63
    ensures Layable(globals, m)
  {
    hide SlotsFit, LocalFields;
    forall f | f in MethodFields(m) ensures GeneratedGraphs.FieldOk(f) {
      if f in m.arguments {
        var i :| 0 <= i < |m.arguments| && m.arguments[i] == f;
        assert fields[i] in fields && f == Lowering.MakeField(fields[i], 1);
        SoundGeneration.LocalFieldOk(fields[i], 1);
      } else {
        var b := LocalFieldsFrom(m.graph.order, m.graph.blocks, f);
        assert GeneratedGraphs.FieldsOk(m.graph.blocks[b].fields);
      }
    }
  }

  // ----- the compiler -----

  /** What the compiler was given, and what the generator and the optimizer made of it. */
  ghost predicate Compiled(p: Ir.Program, flags: Optimizations.Flags, p': Program) {
    && Accepted(p, Free) && FitsFrames(GenerateProgram(p))
    && Optimizations.OptimizableProgram(flags, GenerateProgram(p))
      && Optimizations.OptimizedProgram(flags, GenerateProgram(p), p')
  }

  // ----- symbols -----

  predicate HasExits(p: Program) {
    exists n, b :: n in p.methods && b in p.methods[n].graph.blocks && p.methods[n].graph.blocks[b].terminal.Exit?
  }

  /** The library's `exit` ends the process. */
  ghost predicate ExitEnds(imports: Oracle) {
    forall code: Word, w :: imports("exit", [Number(code)], w) == Exited(code, w)
  }

  /** What the linker needs of the program's names: where the code may have to end the process, no method and
      no global is called `exit`; and the program calls no function that is spelled like one of its labels. */
  predicate Linkable(p: Ir.Program, p': Program) {
    && (HasExits(p') ==> FindMethod(p.methods, "exit").None? && "exit" !in GlobalNames(p'.globals))
    && ProgramAvoids(Labels(p'), p)
  }

  ghost predicate CallEnds(p: MachineProgram, env: MachineEnvironment, depth: nat, code: Word, w: World) {
    MachineCall(p, env, depth, "exit", [Number(code)], w) == Exited(code, w)
  }

  /** No call of this function ends the process. */
  ghost predicate NeverExits(call: Oracle) {
    forall callee, arguments, w :: !call(callee, arguments, w).Exited?
  }

  lemma {:induction false} NoExitToLabel(mc: MachineContext, code: seq<Instruction>, pc: nat, m: MachineState)
    requires pc <= |code| && NeverExits(mc.call)
    ensures var r := ToLabel(mc, code, pc, m); r.Ended? ==> !r.outcome.Exited?
    decreases |code| - pc
  {
    hide Find, Holds;
    if pc < |code| && !code[pc].BlockLabel? && !code[pc].JumpTo? {
      if code[pc].JumpIf? {
        NoExitToLabel(mc, code, pc + 1, m);
      } else {
        NoExitStep(mc, code[pc], m);
        hide Step;
        if Step(mc, code[pc], m).Continue? { NoExitToLabel(mc, code, pc + 1, Step(mc, code[pc], m).state); }
      }
    }
  }

  lemma NoExitStep(mc: MachineContext, i: Instruction, m: MachineState)
    requires NeverExits(mc.call)
    ensures Step(mc, i, m).Halt? ==> !Step(mc, i, m).outcome.Exited?
  {
    hide TruncatedQuotient, TruncatedRemainder, Wrap, Unsigned, OutgoingArguments;
  }

  lemma {:induction false} NoExitRun(mc: MachineContext, code: seq<Instruction>, pc: nat, m: MachineState, fuel: nat)
    requires pc <= |code| && NeverExits(mc.call)
    ensures !RunCode(mc, code, pc, m, fuel).Exited?
    decreases fuel
  {
    hide ToLabel, NeverExits;
    NoExitToLabel(mc, code, pc, m);
    match ToLabel(mc, code, pc, m)
    case Ended(_) =>
    case Arrived(_, pc', m') => if fuel > 0 { NoExitRun(mc, code, pc', m', fuel - 1); }
  }

  /** Where `exit` is hidden and no other imported function ends the process, no call does. */
  lemma {:induction false} NoExitCall(p: MachineProgram, env: MachineEnvironment, depth: nat, callee: string,
                                      arguments: seq<Argument>, world: World)
    requires "exit" in p.text || "exit" in p.labels
    requires forall f, a, w :: f != "exit" ==> !env.imports(f, a, w).Exited?
    ensures !MachineCall(p, env, depth, callee, arguments, world).Exited?
    decreases depth
  {
    hide RunCode, EntryState;
    if callee in p.text && depth > 0 {
      var mc := MachineContext(MachineOracle(p, env, depth - 1), env.clobber);
      var m := EntryState(env, callee, arguments, world);
      assert NeverExits(mc.call) by {
        forall f, a, w ensures !mc.call(f, a, w).Exited? { NoExitCall(p, env, depth - 1, f, a, w); }
      }
      if fuel: nat :| CodeEnds(mc, p.text[callee], m, fuel) {
        CodeBehaviourIs(mc, p.text[callee], m, fuel);
        NoExitRun(mc, p.text[callee], 0, m, fuel);
      }
    }
  }

  /** A library whose `exit` ends the process and whose other functions return. */
  function QuietLibrary(): Oracle {
    (f: string, arguments: seq<Argument>, w: World) =>
      if f == "exit" && |arguments| == 1 && arguments[0].Number? then Exited(arguments[0].value, w) else Returned(0, w)
  }

  /** Whatever the depth, the code and the world: `call exit` ends the process with every library whose `exit`
      does so if and only if `exit` is neither a method nor another label of the program. */
  lemma ExitLinked(p: MachineProgram, depth: nat, code: Word, w: World)
    ensures "exit" !in p.text && "exit" !in p.labels
      <==> forall env: MachineEnvironment :: ExitEnds(env.imports) ==> CallEnds(p, env, depth, code, w)
  {
    if "exit" in p.text || "exit" in p.labels {
      var env := MachineEnvironment(QuietLibrary(), (f, w) => map[], (f, w) => map[], (f, w) => map[]);
      NoExitCall(p, env, depth, "exit", [Number(code)], w);
      assert ExitEnds(env.imports) && !CallEnds(p, env, depth, code, w);
    }
  }

  /** No label but a global is spelled `exit`. */
  lemma ExitIsNoLabel(p: Program)
    ensures "exit" in Labels(p) <==> "exit" in GlobalNames(p.globals)
  {
    forall b ensures BlockLabelName(b) != "exit" { assert BlockLabelName(b)[0] == 'b'; }
    forall k ensures StringLabelName(k) != "exit" { assert StringLabelName(k)[0] == 's'; }
  }

  lemma ExitsLinked(p': Program, code: MachineProgram, env: MachineEnvironment, depth: nat, name: string)
    requires name in p'.methods && (HasExits(p') ==> "exit" !in code.text && "exit" !in code.labels)
    requires HasExits(p') ==> ExitEnds(env.imports)
    ensures ExitsEnd(p'.methods[name].graph, MachineOracle(code, env, depth))
  {
    var g := p'.methods[name].graph;
    forall b, w | b in g.blocks && g.blocks[b].terminal.Exit?
      ensures MachineOracle(code, env, depth)("exit", [Number(g.blocks[b].terminal.code)], w)
        == Exited(g.blocks[b].terminal.code, w) {
      assert HasExits(p');
      ExitLinked(code, depth, g.blocks[b].terminal.code, w);
      assert CallEnds(code, env, depth, g.blocks[b].terminal.code, w);
    }
  }

  lemma CompiledMethod(p: Ir.Program, flags: Optimizations.Flags, p': Program, name: string) returns (t: nat, b: nat)
    requires Compiled(p, flags, p') && FindMethod(p.methods, name).Some?
    ensures var m, w := FindMethod(p.methods, name).value, GenerateProgram(p);
      && m in p.methods && name in w.methods && name in p'.methods && p'.globals == w.globals
      && Optimizations.OptimizableProgram(flags, w) && WellFormedProgram(w)
      && w.methods[name] == Method(Parameters(m.arguments), Lowering.GenerateMethod(GlobalSymbols(p.fields), m, t, b))
      && p'.methods[name].arguments == Parameters(m.arguments)
      && Optimizations.Optimized(flags, w.globals, w.methods[name].graph, p'.methods[name].graph)
      && Lowering.ScopedMethod(GlobalSymbols(p.fields), m, {})
  {
    hide Lowering.ScopedMethod, Lowering.GenerateMethod, GenerateMethods, ParameterNames, Optimizations.Optimized,
      WellFormed, Optimizations.OptimizableProgram;
    t, b := GeneratedMethodFound(GlobalSymbols(p.fields), p.methods, 0, 0, name);
    OptimizableIsWellFormed(flags, GenerateProgram(p));
  }

  lemma OptimizableIsWellFormed(flags: Optimizations.Flags, p: Program)
    requires Optimizations.OptimizableProgram(flags, p)
    ensures WellFormedProgram(p)
  {
    hide WellFormed;
  }

  lemma ParameterNamesAgree(m: Ir.Method)
    ensures ParameterNames(m) == GlobalNames(Parameters(m.arguments))
  {
    hide Names.FieldName;
    forall n | n in ParameterNames(m) ensures n in GlobalNames(Parameters(m.arguments)) {
      var f :| f in m.arguments && n == Names.FieldName(f.identifier, 1);
      var i :| 0 <= i < |m.arguments| && m.arguments[i] == f;
      assert Parameters(m.arguments)[i].identifier == n;
    }
  }

  /** The emitted method is one the code generator can lay out and emit. */
  lemma CompiledMethodEmits(p: Ir.Program, flags: Optimizations.Flags, p': Program, name: string)
    requires Compiled(p, flags, p') && name in p'.methods && FindMethod(p.methods, name).Some?
    ensures Emittable(Origin(p'.globals, GlobalNames(p'.methods[name].arguments)), p'.methods[name].graph)
    ensures Layable(p'.globals, p'.methods[name])
    ensures LocalFields(p'.methods[name].graph.order, p'.methods[name].graph.blocks)
         == LocalFields(GenerateProgram(p).methods[name].graph.order, GenerateProgram(p).methods[name].graph.blocks)
  {
    hide GraphNamed, FallsThrough, WellFormed, Lowering.GenerateMethod, ParameterNames, GenerateMethods, SlotsFit,
      Names.ValidIdentifier, Lowering.ScopedMethod, Optimizations.Optimized, LocalFields;
    var t, b := CompiledMethod(p, flags, p', name);
    var m, g, g' := FindMethod(p.methods, name).value, GenerateProgram(p).methods[name].graph, p'.methods[name].graph;
    var globals := GlobalDeclarations(p.fields);
    var rules := GeneratedGraphs.Rules(globals, ParameterNames(m), {});
    GlobalsMatch(p.fields);
    GeneratedEmittable(rules, GlobalSymbols(p.fields), m, t, b);
    ParameterNamesAgree(m);
    OptimizedEmittable(Origin(globals, ParameterNames(m)), flags, g, g');
    Optimizations.OptimizedWellFormed(flags, globals, g, g');
    ArgumentsDeclared(GlobalSymbols(p.fields), m);
    MethodIsLayable(globals, m.arguments, p'.methods[name]);
  }

  lemma ArgumentsDeclared(table: map<string, FieldDeclaration>, m: Ir.Method)
    requires Lowering.ScopedMethod(table, m, {})
    ensures ArgumentFields(m.arguments)
  {
    DeclaredFields(table, m, {});
  }

  lemma AllLayable(p: Ir.Program, flags: Optimizations.Flags, p': Program)
    requires Compiled(p, flags, p')
    ensures forall n :: n in p'.methods ==> Layable(p'.globals, p'.methods[n])
  {
    hide Layable, Emittable, LocalFields, GenerateMethods, ParameterNames, Optimizations.Optimized,
      WellFormedProgram, FitsFrames;
    forall n | n in p'.methods ensures Layable(p'.globals, p'.methods[n]) {
      var t, b := GeneratedMethodFound(GlobalSymbols(p.fields), p.methods, 0, 0, n);
      CompiledMethodEmits(p, flags, p', n);
    }
  }

  /** A call outside the source's knowledge goes to the machine; otherwise it does what the source says. */
  function Adjusted(src: Ir.CallOracle, machine: Oracle): Oracle {
    (c, a, w) => match src(c, a, w) case Some(o) => o case None => machine(c, a, w)
  }

  /** One method: its source, calling source methods, against its code, calling emitted code. */
  lemma MethodCompiled(p: Ir.Program, flags: Optimizations.Flags, p': Program, peephole: bool,
                       env: MachineEnvironment, callee: string, arguments: seq<Argument>, world: World,
                       src: Ir.Context, machine: Oracle, offsets: Offsets)
    requires Compiled(p, flags, p') && FindMethod(p.methods, callee).Some? && callee in p'.methods
    requires src.globals == GlobalInfos(p.fields) && OffsetsOk(p'.globals, offsets)
    requires ExitsEnd(p'.methods[callee].graph, machine)
    requires forall c, a, w :: src.call(c, a, w).Some? ==> SameUnlessTrapped(src.call(c, a, w).value, machine(c, a, w))
    requires |arguments| == |FindMethod(p.methods, callee).value.arguments| && AllNumbers(arguments)
    ensures var r := MethodBehaviour(src, FindMethod(p.methods, callee).value, arguments, StartWorld(p, callee, world));
            var code := MethodCode(offsets, p'.globals, callee, p'.methods[callee], peephole);
            r.Some? ==>
              SameUnlessTrapped(r.value, CodeBehaviour(MachineContext(machine, env.clobber), code,
                EntryState(env, callee, arguments, world)))
  {
    hide GenerateMethods, ParameterNames, Lowering.ScopedMethod, Lowering.GenerateMethod, GraphNamed, FallsThrough,
      Optimizations.Optimized, WellFormed, Optimizations.OptimizableProgram, MethodBehaviour, Behaviour,
      CodeBehaviour, MethodCode, RunCode, Layable, OffsetsOk, FitsFrames, WellFormedProgram, Bind, Leftover,
      LayoutOf, AtEntry, LocalFields, Lengths, WithGlobals, ExitsEnd;
    var m, m' := FindMethod(p.methods, callee).value, p'.methods[callee];
    var t, b := CompiledMethod(p, flags, p', callee);
    CompiledMethodEmits(p, flags, p', callee);
    var g, g', globals := GenerateProgram(p).methods[callee].graph, m'.graph, p'.globals;
    var m0 := EntryState(env, callee, arguments, world);
    EntryIsEntry(env, callee, arguments, world);
    var st := State(EntryLocals(offsets, m', arguments, m0.frame), StartWorld(p, callee, world));
    var l := Adjusted(src.call, machine);
    SourceToBlocks(p, callee, m, t, b, src, l, arguments, st, Leftover(LayoutOf(offsets, m'), m0.frame));
    BlocksToOptimized(p, flags, p', callee, l, machine, st) by { AdjustedRefines(src.call, machine); }
    var mc := MachineContext(machine, env.clobber);
    OptimizedToCode(ContextOf(globals, g', machine), mc, offsets, globals, callee, m', peephole, arguments, m0, st) by {
      StartWorldIs(p, callee, globals, world);
    }
  }

  lemma EntryIsEntry(env: MachineEnvironment, callee: string, arguments: seq<Argument>, world: World)
    ensures AtEntry(arguments, EntryState(env, callee, arguments, world))
      && EntryState(env, callee, arguments, world).world == world
  {
    var memory := env.memory(callee, world);
    var start := MachineState(env.registers(callee, world), map k | k in memory && k < 0 :: Plain(memory[k]),
      CallerBase, 8, (0, 0), world);
    ArgumentsArePlaced(start, arguments);
  }

  lemma StartWorldIs(p: Ir.Program, callee: string, globals: seq<FieldDeclaration>, world: World)
    requires FindMethod(p.methods, callee).Some? && globals == GlobalDeclarations(p.fields)
    ensures StartWorld(p, callee, world) == world.(globals := WithGlobals(world.globals, Initialized(globals, callee)))
  {
  }

  lemma AdjustedRefines(src: Ir.CallOracle, machine: Oracle)
    requires forall c, a, w :: src(c, a, w).Some? ==> SameUnlessTrapped(src(c, a, w).value, machine(c, a, w))
    ensures forall c, a, w :: SameUnlessTrapped(Adjusted(src, machine)(c, a, w), machine(c, a, w))
  {
  }

  /** From the structured method to its blocks. */
  lemma SourceToBlocks(p: Ir.Program, callee: string, m: Ir.Method, t: nat, b: nat, src: Ir.Context, l: Oracle,
                       arguments: seq<Argument>, st: State, frame: Store)
    requires Accepted(p, Free) && WellFormedProgram(GenerateProgram(p))
    requires m in p.methods && callee in GenerateProgram(p).methods && |arguments| == |m.arguments|
    requires GenerateProgram(p).methods[callee].graph == Lowering.GenerateMethod(GlobalSymbols(p.fields), m, t, b)
    requires src.globals == GlobalInfos(p.fields)
    requires forall c, a, w :: src.call(c, a, w).Some? ==> l(c, a, w) == src.call(c, a, w).value
    requires st.locals == Bind(frame, Parameters(m.arguments), arguments)
    ensures var g := GenerateProgram(p).methods[callee].graph;
            var o := MethodBehaviour(src, m, arguments, st.world);
            o.Some? ==> o.value.Strayed? || Behaviour(ContextOf(GlobalDeclarations(p.fields), g, l), g, st) == o.value
  {
    hide GenerateMethods, Lowering.GenerateMethod, Lowering.ScopedMethod, WellFormed, MethodBehaviour, Behaviour,
      Bind, LocalFields, Lengths;
    var g, globals := GenerateProgram(p).methods[callee].graph, GlobalDeclarations(p.fields);
    var x := Journeys.Setting(src, ContextOf(globals, g, l), g);
    GlobalsMatch(p.fields);
    ContextRanged(x, p.fields);
    MethodPreserved(x, GlobalSymbols(p.fields), m, {}, t, b, arguments, st.world, frame);
  }

  /** From the blocks to the optimized blocks, with the machine's calls. */
  lemma BlocksToOptimized(p: Ir.Program, flags: Optimizations.Flags, p': Program, callee: string, l: Oracle,
                          machine: Oracle, st: State)
    requires Compiled(p, flags, p') && callee in p'.methods && callee in GenerateProgram(p).methods
    requires Optimizations.OptimizableProgram(flags, GenerateProgram(p)) && p'.globals == GlobalDeclarations(p.fields)
    requires Optimizations.Optimized(flags, p'.globals, GenerateProgram(p).methods[callee].graph,
      p'.methods[callee].graph)
    requires WellFormed(p'.methods[callee].graph)
    requires forall c, a, w :: SameUnlessTrapped(l(c, a, w), machine(c, a, w))
    ensures var g, g' := GenerateProgram(p).methods[callee].graph, p'.methods[callee].graph;
            SameUnlessTrapped(Behaviour(ContextOf(p'.globals, g, l), g, st),
              Behaviour(ContextOf(p'.globals, g', machine), g', st))
  {
    hide GenerateMethods, WellFormed, Behaviour, LocalFields, Lengths, Optimizations.Optimized, FitsFrames, Accepted,
      Optimizations.Optimizable, Optimizations.OptimizedProgram;
    var g, g', globals := GenerateProgram(p).methods[callee].graph, p'.methods[callee].graph, p'.globals;
    Optimizations.OptimizedMethodPreserved(flags, globals, g, g', ContextOf(globals, g, l),
      ContextOf(globals, g, machine), st);
    Optimizations.OptimizedKeepsContext(flags, globals, g, g', machine);
  }

  /** From the optimized blocks to the code. */
  lemma OptimizedToCode(ctx: Context, mc: MachineContext, offsets: Offsets, globals: seq<FieldDeclaration>,
                        name: string, m: Method, peephole: bool, arguments: seq<Argument>, m0: MachineState,
                        st: State)
    requires EmissionOk(ctx, mc, offsets, globals, m) && ExitsEnd(m.graph, mc.call)
    requires AtEntry(arguments, m0) && AllNumbers(arguments) && |arguments| == |m.arguments|
    requires st == State(EntryLocals(offsets, m, arguments, m0.frame),
                         m0.world.(globals := WithGlobals(m0.world.globals, Initialized(globals, name))))
    ensures SameUnlessTrapped(Behaviour(ctx, m.graph, st),
      CodeBehaviour(mc, MethodCode(offsets, globals, name, m, peephole), m0))
  {
    EmissionLayable(ctx, mc, offsets, globals, m);
    hide EmissionOk, MethodCode, RunCode, Run, WellFormed, Behaviour, CodeBehaviour, EntryLocals, AtEntry,
      WithGlobals, ContextOf, Layable, ExitsEnd, Visited, Visits;
    forall fuel: nat ensures SameUnlessTrapped(Run(ctx, m.graph, st, fuel),
      RunCode(mc, MethodCode(offsets, globals, name, m, peephole), 0, m0, fuel + 1)) {
      MethodCodeRuns(ctx, mc, offsets, globals, name, m, peephole, arguments, m0, fuel);
    }
    CodeRefines(ctx, m.graph, st, mc, MethodCode(offsets, globals, name, m, peephole), m0);
  }

  /** The imported functions as the linker finds them: a label of the program hides the function it is
      spelled like. */
  function Relinked(imports: Oracle, labels: set<string>): Oracle {
    (callee, arguments, world) => if callee in labels then Trapped else imports(callee, arguments, world)
  }

  /** The emitted code does what the structured program does with the functions the linker finds. */
  lemma {:induction false} CompiledCalls(p: Ir.Program, flags: Optimizations.Flags, p': Program, peephole: bool,
                                         env: Environment, machine: MachineEnvironment, depth: nat, callee: string,
                                         arguments: seq<Argument>, world: World)
    requires Compiled(p, flags, p') && Linkable(p, p') && (HasExits(p') ==> ExitEnds(machine.imports))
    requires env.imports == Relinked(machine.imports, Labels(p'))
    ensures match SourceCall(p, env, true, depth, callee, arguments, world)
            case None => true
            case Some(o) =>
              SameUnlessTrapped(o, MachineCall(EmitProgram(MethodNames(p.methods), p', peephole), machine, depth,
                callee, arguments, world))
    decreases depth
  {
    hide GenerateMethods, Accepted, FitsFrames, MethodBehaviour, CodeBehaviour, MethodCode, Layable, EmitMethods,
      Optimizations.OptimizedProgram, WellFormedProgram, OffsetsOk, EntryState, Labels, HasExits, ExitEnds, ExitsEnd;
    var code := EmitProgram(MethodNames(p.methods), p', peephole);
    var found := FindMethod(p.methods, callee);
    AllLayable(p, flags, p');
    var offsets := EmittedMethod(map[], p'.globals, MethodNames(p.methods), p'.methods, peephole, callee)
      by { NothingAllocated(p'.globals); }
    MethodsCompiled(p, flags, p', callee);
    if found.Some? && depth > 0 && |found.value.arguments| == |arguments| && AllNumbers(arguments) {
      var src := Ir.Context(GlobalInfos(p.fields), SourceOracle(p, env, true, depth - 1));
      var oracle := MachineOracle(code, machine, depth - 1);
      forall c, a, w | src.call(c, a, w).Some? ensures SameUnlessTrapped(src.call(c, a, w).value, oracle(c, a, w)) {
        CompiledCalls(p, flags, p', peephole, env, machine, depth - 1, c, a, w);
      }
      ExitsCompiled(p, flags, p', peephole);
      ExitsLinked(p', code, machine, depth - 1, callee);
      MethodCompiled(p, flags, p', peephole, machine, callee, arguments, world, src, oracle, offsets);
    }
  }

  /** In the emitted program, too, `exit` is the library's. */
  lemma ExitsCompiled(p: Ir.Program, flags: Optimizations.Flags, p': Program, peephole: bool)
    requires Compiled(p, flags, p') && Linkable(p, p')
    ensures var code := EmitProgram(MethodNames(p.methods), p', peephole);
      HasExits(p') ==> "exit" !in code.text && "exit" !in code.labels
  {
    hide GenerateMethods, Accepted, FitsFrames, Layable, EmitMethods, Optimizations.OptimizedProgram,
      WellFormedProgram, OffsetsOk, HasExits, ProgramAvoids, Labels;
    AllLayable(p, flags, p');
    MethodsCompiled(p, flags, p', "exit");
    ExitIsNoLabel(p');
    var offsets := EmittedMethod(map[], p'.globals, MethodNames(p.methods), p'.methods, peephole, "exit")
      by { NothingAllocated(p'.globals); }
  }

  /** The compiler preserves meaning: for every accepted program that can be linked, every subset of the
      optimizer's passes, with and without the peephole, every imported library, every stack content and
      every call, the emitted code makes the same calls, leaves the same globals and ends the same way as
      the structured program, unless that traps or goes wrong. */
  lemma CompilerPreservesPrograms(p: Ir.Program, flags: Optimizations.Flags, p': Program, peephole: bool,
                                  env: Environment, machine: MachineEnvironment, depth: nat, callee: string,
                                  arguments: seq<Argument>, world: World)
    requires Compiled(p, flags, p') && Linkable(p, p') && callee !in Labels(p')
    requires env.imports == machine.imports && (HasExits(p') ==> ExitEnds(machine.imports))
    ensures match SourceCall(p, env, true, depth, callee, arguments, world)
            case None => true
            case Some(o) =>
              SameUnlessTrapped(o, MachineCall(EmitProgram(MethodNames(p.methods), p', peephole), machine, depth,
                callee, arguments, world))
  {
    hide Compiled, SourceCall, MachineCall, EmitProgram, MethodNames, Labels, ProgramAvoids, HasExits, ExitEnds;
    var linked := env.(imports := Relinked(machine.imports, Labels(p')));
    CompiledCalls(p, flags, p', peephole, linked, machine, depth, callee, arguments, world);
    UncalledImports(p, Labels(p'), env, linked, true, depth, callee, arguments, world);
  }

  lemma NothingAllocated(globals: seq<FieldDeclaration>)
    ensures OffsetsOk(globals, map[])
  {
  }

  /** The same methods, by name, at every stage. */
  lemma MethodsCompiled(p: Ir.Program, flags: Optimizations.Flags, p': Program, name: string)
    requires Compiled(p, flags, p')
    ensures FindMethod(p.methods, name).Some? <==> name in p'.methods
    ensures FindMethod(p.methods, name).Some? ==> name in MethodNames(p.methods)
  {
    hide GenerateMethods, Accepted, FitsFrames, WellFormedProgram, Optimizations.Optimized, FindMethod;
    var t, b := GeneratedMethodFound(GlobalSymbols(p.fields), p.methods, 0, 0, name);
    NameFound(p.methods, name);
  }

  lemma {:induction false} NameFound(methods: seq<Ir.Method>, name: string)
    ensures FindMethod(methods, name).Some? ==> name in MethodNames(methods)
  {
    if methods != [] {
      assert MethodNames(methods)[0] == methods[0].identifier;
      if methods[0].identifier != name {
        NameFound(methods[1..], name);
        assert MethodNames(methods)[1..] == MethodNames(methods[1..]);
      }
    }
  }
}
