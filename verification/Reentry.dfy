/** Calling `main` again: the emitted code gives the globals their initial values on every entry to
    `main`, the language on none. When the two differ, and what a program needs so that they do not. */
module Reentry {
  import opened Words
  import opened Worlds
  import opened Llir
  import opened Names
  import opened Programs
  import opened Compilation
  import opened Avoidance
  import Lowering
  import Ir

  // ----- resetting the globals -----

  predicate AllZero(values: seq<Word>) {
    forall i :: 0 <= i < |values| ==> values[i] == 0
  }

  /** Every global starts at 0, which is what memory holds anyway. */
  predicate StartsAtZero(fields: seq<Ir.Field>) {
    forall i :: 0 <= i < |fields| ==> AllZero(Lowering.FieldValues(fields[i]))
  }

  /** Giving the globals their values changes no memory exactly when all those values are 0. */
  lemma ResettingIsHarmless(fields: seq<Ir.Field>)
    ensures StartsAtZero(fields) <==> forall store :: WithGlobals(store, GlobalDeclarations(fields)) == store
  {
    if StartsAtZero(fields) {
      forall store ensures WithGlobals(store, GlobalDeclarations(fields))
        == store { ZeroChangesNothing(fields, store); }
    } else {
      SomethingIsWritten(fields);
      assert WithGlobals(map[], GlobalDeclarations(fields)) != map[];
    }
  }

  lemma {:induction false} ZeroChangesNothing(fields: seq<Ir.Field>, store: Store)
    requires StartsAtZero(fields)
    ensures WithGlobals(store, GlobalDeclarations(fields)) == store
  {
    if fields != [] {
      var n := |fields| - 1;
      ZeroChangesNothing(fields[..n], store);
      assert GlobalDeclarations(fields[..n]) == GlobalDeclarations(fields)[..n];
      ZeroValues(store, FieldName(fields[n].identifier, 0), Lowering.FieldValues(fields[n]));
    }
  }

  lemma {:induction false} ZeroValues(store: Store, name: string, values: seq<Word>)
    ensures AllZero(values) ==> WithValues(store, name, values) == store
    ensures store.Keys <= WithValues(store, name, values).Keys
    ensures !AllZero(values) ==> WithValues(store, name, values).Keys != {}
  {
    if values != [] {
      var n := |values| - 1;
      ZeroValues(store, name, values[..n]);
      if values[n] != 0 { assert Cell(name, n) in WithValues(store, name, values); }
    }
  }

  lemma {:induction false} SomethingIsWritten(fields: seq<Ir.Field>)
    requires !StartsAtZero(fields)
    ensures WithGlobals(map[], GlobalDeclarations(fields)).Keys != {}
  {
    var n := |fields| - 1;
    var before := WithGlobals(map[], GlobalDeclarations(fields[..n]));
    assert GlobalDeclarations(fields[..n]) == GlobalDeclarations(fields)[..n];
    ZeroValues(before, FieldName(fields[n].identifier, 0), Lowering.FieldValues(fields[n]));
    if !StartsAtZero(fields[..n]) { SomethingIsWritten(fields[..n]); }
  }

  // ----- when calling `main` again does no harm -----

  lemma NothingReset(p: Ir.Program, world: World)
    requires StartsAtZero(p.fields)
    ensures StartWorld(p, "main", world) == world
  {
    ZeroChangesNothing(p.fields, world.globals);
  }

  /** If no method calls `main`, or every global starts at 0, resetting the globals on every entry to
      `main` is the same as giving them their values once, before the first call. */
  lemma {:induction false} ReentryIsHarmless(p: Ir.Program, env: Environment, depth: nat, callee: string,
                                             arguments: seq<Argument>, world: World)
    requires ProgramAvoids({"main"}, p) || StartsAtZero(p.fields)
    ensures SourceCall(p, env, true, depth, callee, arguments, world)
         == SourceCall(p, env, false, depth, callee, arguments, StartWorld(p, callee, world))
    decreases depth
  {
    hide MethodBehaviour, WithGlobals, StatementsAvoid, StartsAtZero;
    var found := FindMethod(p.methods, callee);
    if found.Some? && depth > 0 && |found.value.arguments| == |arguments| {
      var plain := Ir.Context(GlobalInfos(p.fields), SourceOracle(p, env, false, depth - 1));
      var resetting := Ir.Context(GlobalInfos(p.fields), SourceOracle(p, env, true, depth - 1));
      forall c, a, w ensures resetting.call(c, a, w) == plain.call(c, a, StartWorld(p, c, w)) {
        ReentryIsHarmless(p, env, depth - 1, c, a, w);
      }
      FoundMethod(p.methods, callee);
      if StartsAtZero(p.fields) {
        forall a, w ensures resetting.call("main", a, w) == plain.call("main", a, w) { NothingReset(p, w); }
      }
      assert SameElsewhere({"main"}, plain, resetting);
      BehaviourSame({"main"}, plain, resetting, found.value, arguments, StartWorld(p, callee, world));
    }
  }

  // ----- when it does -----

  /** `int g = 1;` */
  const G := Ir.Field(Ir.Int, false, false, "g", 1, Some([Ir.Literal(Ir.IntLiteral, false, 1)]), false, false)

  function Number(n: nat): Ir.Expression {
    Ir.Constant(Ir.Literal(Ir.IntLiteral, false, n))
  }

  const InG := Ir.Location("g", None)

  const Again := Ir.Block([], [Ir.Assign(Ir.Assignment(InG, Ir.Set, Some(Number(2)))),
    Ir.CallStatement(Ir.MethodCall("main", []))])

  /** `void main() { if (g == 1) { g = 2; main(); } }` */
  const Main := Ir.Method(Ir.Void, "main", [],
    Ir.Block([], [Ir.If(Ir.Binary(Ir.EqualTo, Ir.At(InG), Number(1)), Again, None)]))

  const CallsMain := Ir.Program([], [G], [Main])

  function WithG(world: World, v: Word): World {
    world.(globals := world.globals[Cell("g", 0) := v])
  }

  lemma AgainRuns(ctx: Ir.Context, world: World, fuel: nat)
    requires ctx.globals == map["g" := Ir.GlobalInfo(false, 1)]
    ensures Ir.ExecBlock(ctx, Again, [map[]], world, fuel)
      == match ctx.call("main", [], WithG(world, 2))
         case None => Ir.Failed
         case Some(Returned(_, w)) => Ir.Normal([map[]], w)
         case Some(o) => Ir.Halted(o)
  {
    var frames: seq<Ir.Frame> := [map[]] + [map[]];
    assert frames[..1] == [map[]] && frames[..1][..0] == [];
    assert Ir.Resolve([], "g").None?;
    assert Ir.Resolve(frames[..1], "g").None?;
    assert Ir.Resolve(frames, "g").None?;
    var call := Ir.MethodCall("main", []);
    assert Ir.EvalList(ctx, [], frames, WithG(world, 2)) == Ir.Values([], WithG(world, 2));
    assert Again.statements[1..] == [Ir.CallStatement(call)] && Again.statements[1..][1..] == [];
    var after := Ir.ExecCall(ctx, call, frames, WithG(world, 2));
    assert Ir.ExecAll(ctx, [Ir.CallStatement(call)], frames, WithG(world, 2), fuel) == after;
    assert Ir.Exec(ctx, Again.statements[0], frames, world, fuel) == Ir.Normal(frames, WithG(world, 2));
    assert Ir.OpenScope(map[], []) == map[];
  }

  lemma MainRuns(ctx: Ir.Context, world: World, fuel: nat)
    requires ctx.globals == map["g" := Ir.GlobalInfo(false, 1)]
    ensures Ir.RunMethod(ctx, Main, [], world, fuel)
      == if Get(world.globals, Cell("g", 0)) != 1 then Some(Returned(0, world))
         else
           match ctx.call("main", [], WithG(world, 2))
           case None => None
           case Some(Returned(_, w)) => Some(Returned(0, w))
           case Some(o) => Some(o)
  {
    AgainRuns(ctx, world, fuel);
    hide Ir.ExecBlock;
    var frames: seq<Ir.Frame> := [map[]];
    assert frames[..0] == [];
    assert Ir.Resolve([], "g").None?;
    assert Ir.Resolve(frames, "g").None?;
    var condition := Ir.Binary(Ir.EqualTo, Ir.At(InG), Number(1));
    assert Ir.Eval(ctx, condition, frames, world) == Ir.Value(FromBool(Get(world.globals, Cell("g", 0)) == 1), world);
    var statements := Main.body.statements;
    assert statements[1..] == [];
    assert Ir.BindParameters([], []) == map[] && Ir.OpenScope(map[], []) == map[];
    var ifs := Ir.Exec(ctx, statements[0], frames, world, fuel);
    assert ifs == if Get(world.globals, Cell("g", 0)) == 1 then Ir.ExecBlock(ctx, Again, frames, world, fuel)
      else Ir.Normal(frames, world);
    assert Ir.ExecAll(ctx, statements, frames, world, fuel) == ifs;
  }

  lemma MainBehaves(env: Environment, resets: bool, depth: nat, world: World)
    requires depth > 0
    ensures var entered := if resets then WithG(world, 1) else world;
      SourceCall(CallsMain, env, resets, depth, "main", [], world)
      == if Get(entered.globals, Cell("g", 0)) != 1 then Some(Returned(0, entered))
         else
           match SourceCall(CallsMain, env, resets, depth - 1, "main", [], WithG(entered, 2))
           case None => None
           case Some(Returned(_, w)) => Some(Returned(0, w))
           case Some(o) => Some(o)
  {
    var ctx := Ir.Context(GlobalInfos(CallsMain.fields), SourceOracle(CallsMain, env, resets, depth - 1));
    assert [G][..0] == [] && GlobalInfos([G]) == map["g" := Ir.GlobalInfo(false, 1)];
    StartsAtOne(world);
    var entered := if resets then WithG(world, 1) else world;
    hide MethodBehaviour, Ir.RunMethod, StartWorld;
    forall fuel: nat ensures Ir.RunMethod(ctx, Main, [], entered, fuel) == Ir.RunMethod(ctx, Main, [], entered, 0) {
      MainRuns(ctx, entered, fuel);
      MainRuns(ctx, entered, 0);
    }
    MainRuns(ctx, entered, 0);
    OneOutcome(ctx, entered);
  }

  lemma OneOutcome(ctx: Ir.Context, world: World)
    requires forall fuel: nat :: Ir.RunMethod(ctx, Main, [], world, fuel) == Ir.RunMethod(ctx, Main, [], world, 0)
    ensures MethodBehaviour(ctx, Main, [], world) == Ir.RunMethod(ctx, Main, [], world, 0)
  {
    hide Ir.RunMethod;
    if Settles(ctx, Main, [], world, 0) {
      MethodBehaviourIs(ctx, Main, [], world, 0);
    } else {
      forall fuel: nat ensures !Settles(ctx, Main, [], world, fuel) {
        assert Ir.RunMethod(ctx, Main, [], world, fuel) == Ir.RunMethod(ctx, Main, [], world, 0);
      }
    }
  }

  lemma StartsAtOne(world: World)
    ensures StartWorld(CallsMain, "main", world) == WithG(world, 1)
  {
    var fields := GlobalDeclarations([G]);
    assert fields[..0] == [] && fields[0].values == [1] && [1][..0] == [];
    assert fields[0].identifier == "g";
    assert WithValues(world.globals, "g", [1]) == world.globals[Cell("g", 0) := 1] by {
      assert WithValues(world.globals, "g", []) == world.globals;
    }
    assert WithGlobals(world.globals, []) == world.globals;
  }

  /** The program starts with `g == 1` and, in the language, ends with `g == 2`; with the globals reset
      on every entry to `main` it calls itself for ever. */
  lemma {:induction false} ReentryDiffers(env: Environment, depth: nat, world: World)
    ensures depth >= 2 ==>
      SourceCall(CallsMain, env, false, depth, "main", [], StartWorld(CallsMain, "main", world))
        == Some(Returned(0, WithG(world, 2)))
    ensures SourceCall(CallsMain, env, true, depth, "main", [], world) == Some(Diverged)
    ensures !ProgramAvoids({"main"}, CallsMain) && !StartsAtZero(CallsMain.fields)
    decreases depth
  {
    hide SourceCall;
    StartsAtOne(world);
    assert depth == 0 ==> SourceCall(CallsMain, env, true, 0, "main", [], world) == Some(Diverged)
      by { NoDepth(env, true, world); }
    if depth > 0 {
      MainBehaves(env, true, depth, world);
      ReentryDiffers(env, depth - 1, WithG(WithG(world, 1), 2));
      MainBehaves(env, false, depth, WithG(world, 1));
      if depth >= 2 {
        MainBehaves(env, false, depth - 1, WithG(WithG(world, 1), 2));
        assert WithG(WithG(world, 1), 2) == WithG(world, 2);
      }
    }
    assert Main in CallsMain.methods;
    NotHarmless();
  }

  lemma NoDepth(env: Environment, resets: bool, world: World)
    ensures SourceCall(CallsMain, env, resets, 0, "main", [], world) == Some(Diverged)
  {
  }

  lemma NotHarmless()
    ensures !StatementsAvoid({"main"}, Main.body.statements) && !StartsAtZero([G])
  {
    assert Lowering.FieldValues(G)[0] == 1;
    assert !AllZero(Lowering.FieldValues([G][0]));
    var rest := Again.statements[1..];
    assert rest[0] == Ir.CallStatement(Ir.MethodCall("main", []));
    assert !StatementAvoids({"main"}, rest[0]);
    assert !StatementsAvoid({"main"}, rest);
    assert !StatementsAvoid({"main"}, Again.statements);
    assert !StatementAvoids({"main"}, Main.body.statements[0]);
  }
}
