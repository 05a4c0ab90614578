/** Whole programs: the structured program, what the generator makes of it, and what the optimizer
    makes of that, do the same. */
module Compilation {
  import opened Words
  import opened Worlds
  import opened Llir
  import opened Names
  import opened Lowering
  import opened LoweringStructure
  import opened Matching
  import opened Journeys
  import opened Programs
  import opened GeneratedGraphs
  import opened GeneratedMethods
  import opened MethodLowering
  import DeadCode
  import ExpressionLowering
  import Optimizations
  import Ir
  import IrFuel

  // ----- the structured program -----

  function FindMethod(methods: seq<Ir.Method>, identifier: string): Option<Ir.Method> {
    if methods == [] then None
    else if methods[0].identifier == identifier then Some(methods[0])
    else FindMethod(methods[1..], identifier)
  }

  function GlobalInfos(fields: seq<Ir.Field>): map<string, Ir.GlobalInfo> {
    if fields == [] then map[]
    else
      var f := fields[|fields| - 1];
      GlobalInfos(fields[..|fields| - 1])[f.identifier := Ir.GlobalInfo(f.isArray, f.length)]
  }

  ghost predicate Settles(ctx: Ir.Context, m: Ir.Method, arguments: seq<Argument>, world: World, fuel: nat)
    requires |m.arguments| == |arguments|
  {
    Ir.RunMethod(ctx, m, arguments, world, fuel) != Some(Diverged)
  }

  /** What a structured method does when its loops get all the rounds they need. */
  ghost function MethodBehaviour(ctx: Ir.Context, m: Ir.Method, arguments: seq<Argument>, world: World): Option<Outcome>
    requires |m.arguments| == |arguments|
  {
    if exists fuel: nat :: Settles(ctx, m, arguments, world, fuel) then
      var fuel: nat :| Settles(ctx, m, arguments, world, fuel);
      Ir.RunMethod(ctx, m, arguments, world, fuel)
    else
      Some(Diverged)
  }

  /** The behaviour is the outcome of any run that needs no more rounds. */
  lemma MethodBehaviourIs(ctx: Ir.Context, m: Ir.Method, arguments: seq<Argument>, world: World, fuel: nat)
    requires |m.arguments| == |arguments| && Settles(ctx, m, arguments, world, fuel)
    ensures MethodBehaviour(ctx, m, arguments, world) == Ir.RunMethod(ctx, m, arguments, world, fuel)
  {
    assert exists n: nat :: Settles(ctx, m, arguments, world, n);
    var other: nat :| Settles(ctx, m, arguments, world, other)
      && MethodBehaviour(ctx, m, arguments, world) == Ir.RunMethod(ctx, m, arguments, world, other);
    if other <= fuel {
      IrFuel.MethodFuel(ctx, m, arguments, world, other, fuel);
    } else {
      IrFuel.MethodFuel(ctx, m, arguments, world, fuel, other);
    }
  }

  function GlobalDeclarations(fields: seq<Ir.Field>): (r: seq<FieldDeclaration>)
    ensures |r| == |fields|
    ensures forall i :: 0 <= i < |fields| ==> r[i] == MakeField(fields[i], 0)
  {
    seq(|fields|, i requires 0 <= i < |fields| => MakeField(fields[i], 0))
  }

  /** Entering `main` gives the globals their values. */
  function StartWorld(p: Ir.Program, callee: string, world: World): World {
    if callee == "main" && FindMethod(p.methods, callee).Some? then
      world.(globals := WithGlobals(world.globals, GlobalDeclarations(p.fields)))
    else world
  }

  ghost function SourceOracle(p: Ir.Program, env: Environment, resets: bool, depth: nat): Ir.CallOracle
    decreases depth, 1
  {
    (callee, arguments, world) => SourceCall(p, env, resets, depth, callee, arguments, world)
  }

  /** A call in the structured program, with at most `depth` nested calls between its own methods;
      `None` when the run goes wrong: strings are for imported functions only. With `resets`, every
      entry to `main` gives the globals their initial values, as the emitted code does; without, none does. */
  ghost function SourceCall(p: Ir.Program, env: Environment, resets: bool, depth: nat,
                            callee: string, arguments: seq<Argument>, world: World): Option<Outcome>
    decreases depth, 0
  {
    match FindMethod(p.methods, callee)
    case None => Some(env.imports(callee, arguments, world))
    case Some(m) =>
      if depth == 0 then Some(Diverged)
      else if |m.arguments| != |arguments| || !AllNumbers(arguments) then None
      else
        MethodBehaviour(Ir.Context(GlobalInfos(p.fields), SourceOracle(p, env, resets, depth - 1)), m, arguments,
                        if resets then StartWorld(p, callee, world) else world)
  }

  // ----- the generated program -----

  function GlobalSymbols(fields: seq<Ir.Field>): map<string, FieldDeclaration> {
    DeclareAll([map[]], fields)[0]
  }

  /** One method after another: temporaries and blocks are numbered throughout the program. */
  function GenerateMethods(table: map<string, FieldDeclaration>, methods: seq<Ir.Method>, temporaries: nat,
                           nextBlock: nat): map<string, Method>
  {
    if methods == [] then map[]
    else
      var m := methods[0];
      var s := GenerateBody(table, m, temporaries, nextBlock);
      GenerateMethods(table, methods[1..], s.temporaries, s.nextBlock)
        [m.identifier := Method(Parameters(m.arguments), GenerateMethod(table, m, temporaries, nextBlock))]
  }

  function GenerateProgram(p: Ir.Program): Program {
    Program(GlobalDeclarations(p.fields), GenerateMethods(GlobalSymbols(p.fields), p.methods, 0, 0))
  }

  /** No name is kept from being assigned. */
  function Free(m: Ir.Method): set<string> {
    {}
  }

  /** What the checker guarantees of a program. `fixed` says which names a method may not assign. */
  ghost predicate Accepted(p: Ir.Program, fixed: Ir.Method -> set<string>) {
    && ScopedFields(p.fields)
    && forall m :: m in p.methods ==>
         fixed(m) <= ParameterNames(m) && ScopedMethod(GlobalSymbols(p.fields), m, fixed(m))
  }

  lemma {:induction false} GeneratedMethodFound(table: map<string, FieldDeclaration>, methods: seq<Ir.Method>,
                                                temporaries: nat, nextBlock: nat, identifier: string)
    returns (t: nat, b: nat)
    ensures match FindMethod(methods, identifier)
            case None => identifier !in GenerateMethods(table, methods, temporaries, nextBlock)
            case Some(m) =>
              && m in methods
              && identifier in GenerateMethods(table, methods, temporaries, nextBlock)
              && GenerateMethods(table, methods, temporaries, nextBlock)[identifier]
                 == Method(Parameters(m.arguments), GenerateMethod(table, m, t, b))
  {
    hide GenerateBody, GenerateMethod;
    t, b := temporaries, nextBlock;
    if methods != [] && methods[0].identifier != identifier {
      var s := GenerateBody(table, methods[0], temporaries, nextBlock);
      t, b := GeneratedMethodFound(table, methods[1..], s.temporaries, s.nextBlock, identifier);
    }
  }

  // ----- globals -----

  lemma {:induction false} GlobalsMatch(fields: seq<Ir.Field>)
    requires forall f :: f in fields ==> ValidIdentifier(f.identifier) && Ir.WellDeclared(f)
    ensures ShapedGlobals(GlobalSymbols(fields), GlobalInfos(fields))
    ensures DeadCode.GlobalNames(GlobalDeclarations(fields)) == GlobalInfos(fields).Keys
    ensures GlobalTable(GlobalDeclarations(fields), GlobalSymbols(fields))
    ensures forall id :: id in GlobalInfos(fields) ==> ValidIdentifier(id)
  {
    hide ValidIdentifier, Ir.WellDeclared, DeadCode.GlobalNames;
    NoGlobalNames();
    if fields != [] {
      var front, f := fields[..|fields| - 1], fields[|fields| - 1];
      GlobalsMatch(front);
      WellDeclaredLength(f);
      var all := GlobalDeclarations(fields);
      assert all == GlobalDeclarations(front) + [MakeField(f, 0)];
      GlobalNamesStep(GlobalDeclarations(front), MakeField(f, 0));
      assert GlobalSymbols(fields) == GlobalSymbols(front)[f.identifier := MakeField(f, 0)];
    }
  }

  lemma NoGlobalNames()
    ensures DeadCode.GlobalNames([]) == {}
  {
  }

  lemma WellDeclaredLength(f: Ir.Field)
    ensures Ir.WellDeclared(f) ==> f.length < TWO_63
  {
  }

  lemma GlobalNamesStep(globals: seq<FieldDeclaration>, f: FieldDeclaration)
    ensures DeadCode.GlobalNames(globals + [f]) == DeadCode.GlobalNames(globals) + {f.identifier}
  {
    var all := globals + [f];
    forall n | n in DeadCode.GlobalNames(globals) + {f.identifier} ensures n in DeadCode.GlobalNames(all) {
      if n == f.identifier {
        assert all[|globals|].identifier == n;
      } else {
        var k :| 0 <= k < |globals| && globals[k].identifier == n;
        assert all[k].identifier == n;
      }
    }
  }

  // ----- lowering preserves whole programs -----

  lemma GeneratedProgramSound(p: Ir.Program, fixed: Ir.Method -> set<string>)
    requires Accepted(p, fixed)
    ensures WellFormedProgram(GenerateProgram(p))
    ensures var p' := GenerateProgram(p);
      && (forall n :: n in DeadCode.GlobalNames(p'.globals) ==> LooksGlobal(n))
      && forall n :: n in p'.methods ==>
           && DeadCode.ArraysDeclared(p'.globals, p'.methods[n].graph)
           && ((forall m :: m in p.methods ==> fixed(m) == ParameterNames(m))
             ==> Rewriting.DefinitelyAssigned(p'.methods[n].graph))
  {
    hide ScopedMethod, GenerateMethod, ValidIdentifier, LooksGlobal, GenerateMethods, ParameterNames;
    var table, globals := GlobalSymbols(p.fields), GlobalDeclarations(p.fields);
    var p' := GenerateProgram(p);
    GlobalsMatch(p.fields);
    forall n | n in p'.methods
      ensures WellFormed(p'.methods[n].graph) && DeadCode.ArraysDeclared(globals, p'.methods[n].graph)
      ensures (forall m :: m in p.methods ==> fixed(m) == ParameterNames(m))
        ==> Rewriting.DefinitelyAssigned(p'.methods[n].graph)
    {
      var t, b := GeneratedMethodFound(table, p.methods, 0, 0, n);
      var m := FindMethod(p.methods, n).value;
      GeneratedMethodSound(Rules(globals, ParameterNames(m), fixed(m)), table, m, t, b);
    }
    forall n | n in DeadCode.GlobalNames(globals) ensures LooksGlobal(n) { ValidLooksGlobal(n); }
  }

  lemma FreeIsAccepted(p: Ir.Program, fixed: Ir.Method -> set<string>)
    requires Accepted(p, fixed)
    ensures Accepted(p, Free)
  {
    hide ScopedMethod, ScopedFields, ParameterNames;
    forall m | m in p.methods ensures ScopedMethod(GlobalSymbols(p.fields), m, {}) {
      MethodAllowsMore(GlobalSymbols(p.fields), m, fixed(m), {});
    }
  }

  /** The optimizer may be run on a program that assigns no parameter; on any program, if neither
      folding nor propagation is asked for. */
  lemma FixedIsOptimizable(p: Ir.Program, flags: Optimizations.Flags)
    requires Accepted(p, if flags.fold || flags.propagate then ParameterNames else Free)
    ensures Accepted(p, Free) && Optimizations.OptimizableProgram(flags, GenerateProgram(p))
  {
    hide Accepted, GenerateProgram, ParameterNames, WellFormed, DeadCode.ArraysDeclared,
      Rewriting.DefinitelyAssigned, LooksGlobal, Optimizations.SafePasses, DeadCode.GlobalNames;
    var p' := GenerateProgram(p);
    var fixed := if flags.fold || flags.propagate then ParameterNames else Free;
    FreeIsAccepted(p, fixed);
    GeneratedProgramSound(p, fixed);
    forall n | n in p'.methods ensures Optimizations.Optimizable(flags, p'.globals, p'.methods[n].graph) {
      Optimizations.AssignedIsOptimizable(flags, p'.globals, p'.methods[n].graph);
    }
  }

  lemma ValidLooksGlobal(n: string)
    ensures ValidIdentifier(n) ==> LooksGlobal(n)
  {
  }

  /** Lowering preserves whole programs: every call that does not go wrong has the outcome, the
      world and the calls it has in the structured program. */
  lemma {:induction false} LoweringPreservesPrograms(p: Ir.Program, fixed: Ir.Method -> set<string>, env: Environment,
                                                     depth: nat, callee: string, arguments: seq<Argument>,
                                                     world: World)
    requires Accepted(p, fixed)
    ensures WellFormedProgram(GenerateProgram(p))
    ensures var o := SourceCall(p, env, false, depth, callee, arguments, world);
      o.Some? ==> o.value.Strayed? || CallAt(GenerateProgram(p), env, depth, callee, arguments, world) == o.value
    decreases depth
  {
    hide ScopedMethod, GenerateMethod, ValidIdentifier, GenerateMethods, Ir.RunMethod, WellFormed, Lengths, LocalFields;
    GeneratedProgramSound(p, fixed);
    var table, p' := GlobalSymbols(p.fields), GenerateProgram(p);
    var t, b := GeneratedMethodFound(table, p.methods, 0, 0, callee);
    var found := FindMethod(p.methods, callee);
    if found.Some? && depth > 0 && |found.value.arguments| == |arguments| {
      var m := found.value;
      var src := Ir.Context(GlobalInfos(p.fields), SourceOracle(p, env, false, depth - 1));
      var ctx := ContextOf(p'.globals, p'.methods[callee].graph, OracleAt(p', env, depth - 1));
      var x := Setting(src, ctx, p'.methods[callee].graph);
      GlobalsMatch(p.fields);
      ContextRanged(x, p.fields);
      forall c, a, w
        ensures src.call(c, a, w).Some? && !src.call(c, a, w).value.Strayed? ==>
          ctx.call(c, a, w) == src.call(c, a, w).value {
        LoweringPreservesPrograms(p, fixed, env, depth - 1, c, a, w);
      }
      MethodPreserved(x, table, m, fixed(m), t, b, arguments, world, env.frame(callee, world));
    }
  }

  /** The context of a method knows the arrays of the method and of the program. */
  lemma ContextRanged(x: Setting, fields: seq<Ir.Field>)
    requires x.ctx == ContextOf(GlobalDeclarations(fields), x.g, x.ctx.call) && WellFormed(x.g)
    ensures Ranged(x.ctx, [GlobalSymbols(fields)]) && ExpressionLowering.ArraysRanged(x)
  {
    hide Lengths, LocalFields, DeclareAll, Closed, PredecessorsAgree;
    var globals := GlobalDeclarations(fields);
    var all := globals + LocalFields(x.g.order, x.g.blocks);
    forall b, k | b in x.g.blocks && 0 <= k < |x.g.blocks[b].fields|
      ensures FieldRanged(x.ctx, x.g.blocks[b].fields[k]) {
      var f := x.g.blocks[b].fields[k];
      LocalFieldsMember(x.g.order, x.g.blocks, b, f);
      assert f in all;
      if f.isArray { LengthsCover(all, f); }
    }
    forall id | id in GlobalSymbols(fields) ensures FieldRanged(x.ctx, GlobalSymbols(fields)[id]) {
      GlobalDeclared(fields, id);
      var f := GlobalSymbols(fields)[id];
      assert f in all;
      if f.isArray { LengthsCover(all, f); }
    }
  }

  lemma {:induction false} GlobalDeclared(fields: seq<Ir.Field>, id: string)
    requires id in GlobalSymbols(fields)
    ensures GlobalSymbols(fields)[id] in GlobalDeclarations(fields)
  {
    hide MakeField;
    var f, front := fields[|fields| - 1], fields[..|fields| - 1];
    assert GlobalDeclarations(fields) == GlobalDeclarations(front) + [MakeField(f, 0)];
    if id != f.identifier { GlobalDeclared(front, id); }
  }

  /** The same for one method, over all its runs. */
  lemma MethodPreserved(x: Setting, table: map<string, FieldDeclaration>, m: Ir.Method, fixed: set<string>, t: nat,
                        b: nat, arguments: seq<Argument>, world: World, frame: Store)
    requires RunsGenerated(x, table, m, fixed, t, b) && |arguments| == |m.arguments|
    ensures var o := MethodBehaviour(x.src, m, arguments, world);
      o.Some? ==>
        o.value.Strayed?
          || Behaviour(x.ctx, x.g, State(Bind(frame, Parameters(m.arguments), arguments), world)) == o.value
  {
    hide ScopedMethod, GenerateMethod, WellFormed, SameWorldView, ShapedGlobals, Ranged,
      ExpressionLowering.ArraysRanged, Ir.RunMethod, Run, Parameters, Bind;
    var st := State(Bind(frame, Parameters(m.arguments), arguments), world);
    if exists n: nat :: Settles(x.src, m, arguments, world, n) {
      var n: nat :| Settles(x.src, m, arguments, world, n) && MethodBehaviour(x.src, m, arguments, world)
        == Ir.RunMethod(x.src, m, arguments, world, n);
      var fuel := MethodRuns(x, table, m, fixed, t, b, arguments, world, frame, n);
      if MethodBehaviour(x.src, m, arguments, world).Some?
        && !MethodBehaviour(x.src, m, arguments, world).value.Strayed? {
        assert Llir.Ends(x.ctx, x.g, st, fuel);
        BehaviourIs(x.ctx, x.g, st, fuel);
      }
    } else {
      forall n: nat ensures !Llir.Ends(x.ctx, x.g, st, n) {
        assert !Settles(x.src, m, arguments, world, n);
        var fuel := MethodRuns(x, table, m, fixed, t, b, arguments, world, frame, n);
      }
    }
  }

  // ----- the whole middle end -----

  /** Generating and then optimizing, with any subset of the passes whose replacements are safe: every
      call does what it does in the structured program, unless it traps or strays there. */
  lemma CompilationPreservesPrograms(p: Ir.Program, flags: Optimizations.Flags, p': Program, env: Environment,
                                     depth: nat, callee: string, arguments: seq<Argument>, world: World)
    requires Accepted(p, Free) && Optimizations.OptimizableProgram(flags, GenerateProgram(p))
    requires Optimizations.OptimizedProgram(flags, GenerateProgram(p), p')
    ensures WellFormedProgram(p')
    ensures match SourceCall(p, env, false, depth, callee, arguments, world)
            case None => true
            case Some(o) => DeadCode.SameUnlessTrapped(o, CallAt(p', env, depth, callee, arguments, world))
  {
    hide GenerateMethods, ScopedMethod, SourceCall, CallAt, Optimizations.Optimizable, Optimizations.Optimized;
    Optimizations.OptimizedProgramWellFormed(flags, GenerateProgram(p), p');
    LoweringPreservesPrograms(p, Free, env, depth, callee, arguments, world);
    Optimizations.OptimizerPreservesPrograms(flags, GenerateProgram(p), p', env, depth, callee, arguments, world);
  }
}
