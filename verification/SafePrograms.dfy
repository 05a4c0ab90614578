/** Whole programs that the checker accepts do not go wrong: a run ends, traps on a divide error,
    strays outside an array, or goes on; it never misuses a value. */
module SafePrograms {
  import opened Words
  import opened Worlds
  import opened Names
  import opened Checker
  import opened AsRead
  import opened TypeSoundness
  import opened Compilation
  import Programs
  import opened MethodLowering
  import Lowering
  import CheckerSoundness
  import Ir

  // ----- methods -----

  /** Declarations only touch the innermost scope. */
  lemma {:induction false} BelowKept(env: Environment, fields: seq<Ir.Field>)
    requires env.scopes != []
    ensures CheckFields(env, fields).scopes[..|env.scopes| - 1] == env.scopes[..|env.scopes| - 1]
  {
    hide DeclarationOk, Redeclared, Completed;
    if fields != [] { BelowKept(env, fields[..|fields| - 1]); }
  }

  lemma {:induction false} ParametersFit(env: Environment, parameters: seq<Ir.Field>, arguments: seq<Argument>)
    requires env.scopes != [] && env.scopes[|env.scopes| - 1] == map[] && CheckFields(env, parameters).ok
    requires forall f :: f in parameters ==> ParameterAsRead(f)
    requires |arguments| == |parameters|
    requires forall i :: 0 <= i < |arguments| ==>
      arguments[i].Number? && Fits(parameters[i].baseType, arguments[i].value)
    ensures var r := CheckFields(env, parameters);
      && r.fields == parameters
      && FrameFits(r.scopes[|env.scopes| - 1], Ir.BindParameters(parameters, arguments))
        && ScopeSettled(r.scopes[|env.scopes| - 1])
  {
    hide DeclarationOk, Fits, ParameterAsRead, VariableFits, Settled, Completed, Redeclared, FrameFits, ScopeSettled,
      AddToScope;
    if parameters == [] {
      EmptyFits(env, []);
    } else {
      var n := |parameters| - 1;
      var front, f := parameters[..n], parameters[n];
      ParametersFit(env, front, arguments[..n]);
      assert f in parameters;
      ParameterFits(f, arguments[n].value);
      FrameGrows(CheckFields(env, front).scopes, Ir.BindParameters(front, arguments[..n]), f,
        Ir.Variable(false, [arguments[n].value]));
      assert parameters == front + [f];
    }
  }

  lemma FrameGrows(scopes: Scopes, frame: Ir.Frame, f: Ir.Field, v: Ir.Variable)
    requires scopes != [] && FrameFits(scopes[|scopes| - 1], frame) && ScopeSettled(scopes[|scopes| - 1])
    requires Settled(f) && VariableFits(f, v)
    ensures var scope := AddToScope(scopes, f)[|scopes| - 1];
      FrameFits(scope, frame[f.identifier := v]) && ScopeSettled(scope)
  {
    hide Settled, VariableFits;
  }

  lemma ParameterFits(f: Ir.Field, v: Word)
    requires ParameterAsRead(f) && Fits(f.baseType, v)
    ensures Completed(f) == f && Settled(f) && VariableFits(f, Ir.Variable(false, [v]))
  {
  }

  lemma {:induction false} MethodFits(env: Environment, ctx: Ir.Context, m: Ir.Method, arguments: seq<Argument>,
                                      world: World, fuel: nat)
    requires |env.scopes| == 1 && env.loopDepth == 0 && MethodAsRead(m) && CheckMethod(env, m).1.ok
    requires WellTyped(CheckMethod(env, m).0, ctx) && WorldFits(env.scopes[0], world)
    requires ArgumentsFit(SignatureOf(m).parameters, arguments)
    ensures CheckMethod(env, m).1.value.arguments == m.arguments
    ensures OutcomeFits(env.scopes[0], m.returnType, Ir.RunMethod(ctx, CheckMethod(env, m).1.value, arguments, world,
      fuel))
  {
    hide WorldFits, CheckFields, CheckStatements, CallsFit, GlobalsFit, Ir.ExecAll, Ir.OpenScope, Ir.BindParameters,
      FrameFits, ScalarParameters, StatementsAsRead, FieldsAsRead, Fits;
    var (env', checked) := CheckMethod(env, m);
    var inner := env'.(scopes := env.scopes + [map[]], fixed := FixedNames(env.policy, m));
    ParametersFit(inner, m.arguments, arguments);
    BelowKept(inner, m.arguments);
    var parameters := CheckFields(inner, m.arguments);
    var body := inner.(scopes := parameters.scopes);
    var bound := Ir.BindParameters(m.arguments, arguments);
    FieldsFit(body, m.body.fields, bound);
    var fields := CheckFields(body, m.body.fields);
    var last := body.(scopes := fields.scopes);
    var frame := Ir.OpenScope(bound, fields.fields);
    assert last.scopes[..1] == env.scopes && last.scopes[0] == env.scopes[0] by {
      assert body.scopes[..1] == inner.scopes[..1] == env.scopes;
      assert last.scopes[0] == last.scopes[..1][0];
    }
    assert ScopesSettled(last.scopes);
    assert FramesFit(last.scopes, [frame]);
    StatementsFit(last, ctx, m.body.statements, [frame], world, fuel);
    VoidFits();
    var m' := checked.value;
    assert m'.arguments == m.arguments && m'.body.fields == fields.fields && m'.returnType == m.returnType;
    assert m'.body.statements == CheckStatements(last, m.body.statements).value;
    assert StatusFits(last, Ir.ExecAll(ctx, m'.body.statements, [frame], world, fuel));
  }

  lemma VoidFits()
    ensures Fits(Ir.Void, 0)
  {
  }

  // ----- the methods of an accepted program -----

  ghost predicate Within(methods: map<string, Signature>, all: map<string, Signature>) {
    forall id :: id in methods ==> id in all && all[id] == methods[id]
  }

  /** `m'` is what the checker made of a method, with the methods it knew then among `all`. */
  ghost predicate CheckedAs(global: Environment, all: map<string, Signature>, e: Environment, m: Ir.Method,
                            m': Ir.Method) {
    && e.scopes == global.scopes && e.policy == global.policy && e.loopDepth == 0 && e.scopes != [] && MethodAsRead(m)
    && CheckMethod(e, m).1 == Checked(m', true) && Within(CheckMethod(e, m).0.methods, all)
    && (forall f :: f in m.arguments ==> !f.isArray) && ScalarParameters(CheckMethod(e, m).0.methods)
  }

  ghost predicate MethodChecked(global: Environment, all: map<string, Signature>, m': Ir.Method) {
    exists e, m :: CheckedAs(global, all, e, m, m')
  }

  /** Every name in the table is an import or the one method of that name, with its signature. */
  ghost predicate TableExact(imported: map<string, Signature>, all: map<string, Signature>, methods: seq<Ir.Method>) {
    && (forall id :: id in all ==>
          match FindMethod(methods, id)
          case None => id in imported && all[id] == imported[id]
          case Some(m) => id !in imported && all[id] == SignatureOf(m))
    && forall id :: FindMethod(methods, id).Some? ==> id in all
  }

  lemma {:induction false} FindLast(methods: seq<Ir.Method>, m: Ir.Method, id: string)
    ensures FindMethod(methods + [m], id)
         == if FindMethod(methods, id).Some? then FindMethod(methods, id) else if m.identifier == id then Some(m)
           else None
  {
    if methods != [] {
      assert (methods + [m])[1..] == methods[1..] + [m];
      FindLast(methods[1..], m, id);
    } else {
      assert [m][1..] == [];
    }
  }

  lemma {:induction false} MethodsChecked(env: Environment, methods: seq<Ir.Method>)
    requires |env.scopes| == 1 && env.loopDepth == 0 && ScalarParameters(env.methods)
    requires (forall m :: m in methods ==> MethodAsRead(m)) && CheckMethods(env, methods).1.ok
    ensures var (env', r) := CheckMethods(env, methods);
      && env'.loopDepth == 0 && Within(env.methods, env'.methods) && ScalarParameters(env'.methods)
      && (forall m :: m in r.value ==> MethodChecked(env, env'.methods, m))
      && TableExact(env.methods, env'.methods, r.value)
  {
    hide CheckMethod, SignatureOf, MethodAsRead, ScalarParameters, CheckedAs;
    if methods != [] {
      var n := |methods| - 1;
      var front, m := methods[..n], methods[n];
      MethodsChecked(env, front);
      var (env1, r1) := CheckMethods(env, front);
      var (env2, checked) := CheckMethod(env1, m);
      NewMethod(env1, m);
      forall m' | m' in r1.value ensures MethodChecked(env, env2.methods, m') {
        var e, m0 :| CheckedAs(env, env1.methods, e, m0, m');
        CheckedLater(env, env1.methods, env2.methods, e, m0, m');
      }
      CheckedNow(env, env1, m);
      forall id ensures FindMethod(r1.value + [checked.value], id)
        == if FindMethod(r1.value, id).Some? then FindMethod(r1.value, id) else if m.identifier == id then
          Some(checked.value) else None
      {
        FindLast(r1.value, checked.value, id);
      }
    }
  }

  lemma NewMethod(env: Environment, m: Ir.Method)
    requires env.scopes != [] && CheckMethod(env, m).1.ok && MethodAsRead(m) && ScalarParameters(env.methods)
    ensures var (env', checked) := CheckMethod(env, m);
      && checked.value.identifier == m.identifier && env'.loopDepth == env.loopDepth
      && m.identifier !in env.methods && env'.methods == env.methods[m.identifier := SignatureOf(m)]
      && SignatureOf(checked.value) == SignatureOf(m) && ScalarParameters(env'.methods)
      && forall f :: f in m.arguments ==> !f.isArray
  {
    hide CheckFields, CheckStatements;
    CheckerSoundness.SignatureScalar(env, m);
    var inner := CheckMethod(env, m).0.(scopes := env.scopes + [map[]], fixed := FixedNames(env.policy, m));
    var checked := CheckMethod(env, m).1.value;
    FieldsComplete(inner, m.arguments);
    forall i | 0 <= i < |m.arguments| ensures checked.arguments[i] == m.arguments[i] {
      assert m.arguments[i] in m.arguments;
    }
  }

  lemma {:induction false} FieldsComplete(env: Environment, fields: seq<Ir.Field>)
    requires env.scopes != []
    ensures forall i :: 0 <= i < |fields| ==> CheckFields(env, fields).fields[i] == Completed(fields[i])
  {
    hide Completed, DeclarationOk, Redeclared;
    if fields != [] { FieldsComplete(env, fields[..|fields| - 1]); }
  }

  lemma CheckedNow(global: Environment, env: Environment, m: Ir.Method)
    requires |env.scopes| == 1 && env.scopes == global.scopes && env.policy == global.policy && env.loopDepth == 0
    requires MethodAsRead(m) && CheckMethod(env, m).1.ok && ScalarParameters(env.methods)
    ensures MethodChecked(global, CheckMethod(env, m).0.methods, CheckMethod(env, m).1.value)
  {
    hide CheckMethod;
    NewMethod(env, m);
    assert CheckedAs(global, CheckMethod(env, m).0.methods, env, m, CheckMethod(env, m).1.value);
  }

  lemma CheckedLater(global: Environment, all: map<string, Signature>, all': map<string, Signature>, e: Environment,
                     m: Ir.Method, m': Ir.Method)
    requires CheckedAs(global, all, e, m, m') && Within(all, all')
    ensures MethodChecked(global, all', m')
  {
    hide CheckMethod, MethodAsRead;
    assert CheckedAs(global, all', e, m, m');
  }

  // ----- globals -----

  lemma {:induction false} GlobalsSettled(env: Environment, fields: seq<Ir.Field>)
    requires env.scopes == [map[]] && FieldsAsRead(fields) && CheckFields(env, fields).ok && env.policy.plain
    ensures var r := CheckFields(env, fields);
      ScopeSettled(r.scopes[0]) && GlobalsFit(r.scopes[0], GlobalInfos(r.fields))
  {
    hide DeclarationOk, FieldAsRead, Completed, Settled;
    if fields != [] {
      var n := |fields| - 1;
      GlobalsSettled(env, fields[..n]);
      var r0, r := CheckFields(env, fields[..n]), CheckFields(env, fields);
      assert fields[n] in fields;
      FieldFits(env.policy, fields[n]);
      CompletedKeeps(fields[n]);
      assert r.fields[..n] == r0.fields;
    }
  }

  /** Each global is in the table, with initial values of its type. */
  ghost predicate GlobalsListed(scope: map<string, Ir.Field>, fields: seq<Ir.Field>) {
    forall f :: f in fields ==>
      f.identifier in scope && scope[f.identifier] == f && AllFit(f.baseType, Lowering.FieldValues(f))
  }

  lemma {:induction false} GlobalsAreListed(env: Environment, fields: seq<Ir.Field>)
    requires env.scopes == [map[]] && FieldsAsRead(fields) && CheckFields(env, fields).ok && env.policy.plain
    ensures var r := CheckFields(env, fields); GlobalsListed(r.scopes[0], r.fields)
  {
    hide DeclarationOk, FieldAsRead, Completed, AllFit, Lowering.FieldValues;
    if fields != [] {
      var n := |fields| - 1;
      GlobalsAreListed(env, fields[..n]);
      assert fields[n] in fields;
      CompletedKeeps(fields[n]);
      InitialFit(env.policy, fields[n]);
    }
  }

  lemma InitialFit(policy: Policy, f: Ir.Field)
    requires FieldAsRead(f) && DeclarationOk(policy, f) && policy.plain
    ensures AllFit(f.baseType, Lowering.FieldValues(Completed(f))) && Completed(f).baseType == f.baseType
  {
    FieldFits(policy, f);
    var f' := Completed(f);
    forall i | 0 <= i < f'.length ensures Fits(f.baseType, Lowering.FieldValues(f')[i]) {
      assert Lowering.FieldValues(f')[i] == Ir.InitialValues(f')[i] by {
        if f'.initializer.Some? {
          assert f'.initializer.value[i] in f'.initializer.value;
          Lowering.LiteralToInt64Exact(f'.initializer.value[i]);
        }
      }
    }
  }

  /** Giving the globals their initial values keeps the booleans booleans. */
  lemma {:induction false} StartFits(globals: map<string, Ir.Field>, fields: seq<Ir.Field>, world: World)
    requires GlobalsListed(globals, fields) && WorldFits(globals, world)
    ensures WorldFits(globals, world.(globals := Programs.WithGlobals(world.globals, GlobalDeclarations(fields))))
  {
    hide Lowering.FieldValues, Programs.WithValues, Fits;
    var all := GlobalDeclarations(fields);
    if fields != [] {
      var n := |fields| - 1;
      var front, f := fields[..n], fields[n];
      StartFits(globals, front, world);
      assert GlobalDeclarations(front) == all[..n];
      var before := world.(globals := Programs.WithGlobals(world.globals, GlobalDeclarations(front)));
      forall id, i: nat | id in globals && i < globals[id].length
        ensures Fits(globals[id].baseType,
          Get(Programs.WithValues(before.globals, f.identifier, Lowering.FieldValues(f)), Cell(id, i)))
      {
        ValueOrBefore(before.globals, f.identifier, Lowering.FieldValues(f), Cell(id, i));
        assert Fits(globals[id].baseType, Get(before.globals, Cell(id, i)));
      }
    }
  }

  lemma {:induction false} ValueOrBefore(store: Store, name: string, values: seq<Word>, c: Cell)
    ensures var v := Get(Programs.WithValues(store, name, values), c);
      v == Get(store, c) || (c.name == name && 0 <= c.index < |values| && v == values[c.index])
  {
    if values != [] { ValueOrBefore(store, name, values[..|values| - 1], c); }
  }

  // ----- programs -----

  /** Imported functions leave boolean globals boolean. */
  ghost predicate ImportsKeep(globals: map<string, Ir.Field>, imports: Oracle) {
    forall callee, arguments, w {:trigger imports(callee, arguments, w)} ::
      WorldFits(globals, w) && imports(callee, arguments, w).Returned? ==>
        WorldFits(globals, imports(callee, arguments, w).world)
  }

  lemma {:induction false} ImportsOnly(imports: seq<string>)
    ensures forall id :: id in CheckImports(imports).0 ==> CheckImports(imports).0[id] == Imported
  {
    if imports != [] { ImportsOnly(imports[..|imports| - 1]); }
  }

  /** What acceptance says about the parts. */
  lemma PartsChecked(p: Ir.Program, policy: Policy)
    requires ProgramAsRead(p) && policy.plain && CheckProgram(p, policy).ok
    ensures var env, p' := GlobalEnvironment(p, policy).0, CheckProgram(p, policy).value;
      var all := CheckMethods(env, p.methods).0.methods;
      && |env.scopes| == 1 && env.loopDepth == 0 && env.policy == policy
      && ScopeSettled(env.scopes[0]) && GlobalsFit(env.scopes[0], GlobalInfos(p'.fields))
      && GlobalsListed(env.scopes[0], p'.fields)
      && (forall id :: id in env.methods ==> env.methods[id] == Imported)
      && (forall m :: m in p'.methods ==> MethodChecked(env, all, m))
      && TableExact(env.methods, all, p'.methods) && MainOk(all)
  {
    hide CheckMethods, CheckFields, FieldsAsRead, MethodAsRead, ScopeSettled, GlobalsFit, MethodChecked, TableExact,
      GlobalsListed;
    ImportsOnly(p.imports);
    var start := Environment(CheckImports(p.imports).0, [map[]], Ir.Void, 0, policy, {});
    GlobalsSettled(start, p.fields);
    GlobalsAreListed(start, p.fields);
    MethodsChecked(GlobalEnvironment(p, policy).0, p.methods);
  }

  function Globals(p: Ir.Program, policy: Policy): map<string, Ir.Field> {
    GlobalEnvironment(p, policy).0.scopes[0]
  }

  function AllMethods(p: Ir.Program, policy: Policy): map<string, Signature> {
    CheckMethods(GlobalEnvironment(p, policy).0, p.methods).0.methods
  }

  /** Type safety: called with arguments of its parameter types, on a world whose boolean globals are
      boolean, nothing in an accepted program goes wrong, and what it returns and leaves behind fits. */
  lemma {:induction false} CallsAreSafe(p: Ir.Program, policy: Policy, env: Programs.Environment, resets: bool,
                                        depth: nat, callee: string, arguments: seq<Argument>, world: World)
    requires ProgramAsRead(p) && policy.plain && CheckProgram(p, policy).ok
    requires ImportsKeep(Globals(p, policy), env.imports) && WorldFits(Globals(p, policy), world)
    requires callee in AllMethods(p, policy)
    requires var s := AllMethods(p, policy)[callee]; s.Own? ==> ArgumentsFit(s.parameters, arguments)
    ensures var s := AllMethods(p, policy)[callee];
      OutcomeFits(Globals(p, policy), if s.Own? then s.returnType else Ir.Int,
                  SourceCall(CheckProgram(p, policy).value, env, resets, depth, callee, arguments, world))
    decreases depth
  {
    hide CheckMethods, GlobalEnvironment, WorldFits, MethodChecked, ScopeSettled, GlobalsFit, MethodBehaviour,
      ProgramAsRead, CheckProgram;
    PartsChecked(p, policy);
    var globals, all, p' := Globals(p, policy), AllMethods(p, policy), CheckProgram(p, policy).value;
    var found := FindMethod(p'.methods, callee);
    if found.Some? && depth > 0 {
      var src := Ir.Context(GlobalInfos(p'.fields), SourceOracle(p', env, resets, depth - 1));
      forall name | name in all ensures CallFits(globals, src.call, name, all[name]) {
        forall a, w | WorldFits(globals, w) && (all[name].Own? ==> ArgumentsFit(all[name].parameters, a))
          ensures OutcomeFits(globals, if all[name].Own? then all[name].returnType else Ir.Int, src.call(name, a, w))
        {
          CallsAreSafe(p, policy, env, resets, depth - 1, name, a, w);
        }
      }
      assert CallsFit(globals, src.call, all);
      FoundIn(p'.methods, callee);
      StartFits(globals, p'.fields, world);
      var entered := if resets then StartWorld(p', callee, world) else world;
      BehaviourFits(GlobalEnvironment(p, policy).0, all, src, found.value, arguments, entered);
    }
  }

  lemma {:induction false} FoundIn(methods: seq<Ir.Method>, id: string)
    ensures FindMethod(methods, id).Some? ==> FindMethod(methods, id).value in methods
  {
    if methods != [] && methods[0].identifier != id { FoundIn(methods[1..], id); }
  }

  lemma BehaviourFits(global: Environment, all: map<string, Signature>, ctx: Ir.Context, m: Ir.Method,
                      arguments: seq<Argument>, world: World)
    requires |global.scopes| == 1 && ScopeSettled(global.scopes[0]) && GlobalsFit(global.scopes[0], ctx.globals)
    requires CallsFit(global.scopes[0], ctx.call, all) && global.policy.plain && MainOk(all)
    requires MethodChecked(global, all, m) && ArgumentsFit(SignatureOf(m).parameters, arguments)
      && WorldFits(global.scopes[0], world)
    ensures |arguments| == |m.arguments|
    ensures OutcomeFits(global.scopes[0], m.returnType, MethodBehaviour(ctx, m, arguments, world))
  {
    hide CheckMethod, MethodAsRead, WorldFits, ScopeSettled, GlobalsFit, CallFits, ScalarParameters;
    var e, m0 :| CheckedAs(global, all, e, m0, m);
    var env' := CheckMethod(e, m0).0;
    assert CallsFit(global.scopes[0], ctx.call, env'.methods);
    assert WellTyped(env', ctx);
    SameSignature(e, m0);
    forall fuel: nat ensures OutcomeFits(global.scopes[0], m.returnType, Ir.RunMethod(ctx, m, arguments, world, fuel)) {
      MethodFits(e, ctx, m0, arguments, world, fuel);
    }
  }

  lemma SameSignature(e: Environment, m: Ir.Method)
    requires e.scopes != [] && MethodAsRead(m) && CheckMethod(e, m).1.ok
    ensures var m' := CheckMethod(e, m).1.value; m'.arguments == m.arguments && m'.returnType == m.returnType
  {
    hide CheckFields, CheckStatements;
    var inner := CheckMethod(e, m).0.(scopes := e.scopes + [map[]], fixed := FixedNames(e.policy, m));
    FieldsComplete(inner, m.arguments);
    forall i | 0 <= i < |m.arguments| ensures CheckMethod(e, m).1.value.arguments[i] == m.arguments[i] {
      assert m.arguments[i] in m.arguments;
    }
  }

  /** An accepted program never goes wrong: started in any memory whose booleans are boolean, such as
      zeroed memory, `main` ends, traps, strays outside an array or goes on. */
  lemma AcceptedProgramsAreSafe(p: Ir.Program, policy: Policy, env: Programs.Environment, resets: bool, depth: nat,
                                world: World)
    requires ProgramAsRead(p) && policy.plain && CheckProgram(p, policy).ok
    requires ImportsKeep(Globals(p, policy), env.imports)
      && (world.globals == map[] || WorldFits(Globals(p, policy), world))
    ensures var p' := CheckProgram(p, policy).value;
      FindMethod(p'.methods, "main").Some? && SourceCall(p', env, resets, depth, "main", [], world).Some?
  {
    if world.globals == map[] { ZeroedMemoryFits(Globals(p, policy), world); }
    hide CheckMethods, GlobalEnvironment, WorldFits, MethodChecked, ScopeSettled, GlobalsFit, ProgramAsRead,
      SourceCall, CheckProgram;
    PartsChecked(p, policy);
    CallsAreSafe(p, policy, env, resets, depth, "main", [], world);
  }

  lemma ZeroedMemoryFits(globals: map<string, Ir.Field>, world: World)
    requires world.globals == map[]
    ensures WorldFits(globals, world)
  {
  }
}
