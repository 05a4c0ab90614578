/** Calls that a program's text does not contain: what they would do makes no difference. */
module Avoidance {
  import opened Words
  import opened Worlds
  import opened Programs
  import opened Compilation
  import Ir

  predicate ExpressionAvoids(names: set<string>, e: Ir.Expression)
    decreases e
  {
    match e
    case Binary(_, l, r) => ExpressionAvoids(names, l) && ExpressionAvoids(names, r)
    case Not(o) => ExpressionAvoids(names, o)
    case Negate(o) => ExpressionAvoids(names, o)
    case Length(_, _) => true
    case Invoke(call) => CallAvoids(names, call)
    case Constant(_) => true
    case At(location) => LocationAvoids(names, location)
  }

  predicate LocationAvoids(names: set<string>, location: Ir.Location)
    decreases location
  {
    location.index.Some? ==> ExpressionAvoids(names, location.index.value)
  }

  predicate CallAvoids(names: set<string>, call: Ir.MethodCall)
    decreases call
  {
    call.identifier !in names && ArgumentsAvoid(names, call.arguments)
  }

  predicate ArgumentsAvoid(names: set<string>, arguments: seq<Ir.CallArgument>)
    decreases arguments
  {
    arguments == [] || (ArgumentAvoids(names, arguments[0]) && ArgumentsAvoid(names, arguments[1..]))
  }

  predicate ArgumentAvoids(names: set<string>, a: Ir.CallArgument)
    decreases a
  {
    a.ValueArgument? ==> ExpressionAvoids(names, a.expression)
  }

  predicate AssignmentAvoids(names: set<string>, a: Ir.Assignment) {
    LocationAvoids(names, a.location) && (a.expression.Some? ==> ExpressionAvoids(names, a.expression.value))
  }

  predicate UpdateAvoids(names: set<string>, u: Ir.ForUpdate) {
    match u
    case UpdateAssignment(a) => AssignmentAvoids(names, a)
    case UpdateCall(call) => CallAvoids(names, call)
  }

  predicate StatementAvoids(names: set<string>, s: Ir.Statement)
    decreases s
  {
    match s
    case Assign(a) => AssignmentAvoids(names, a)
    case CallStatement(call) => CallAvoids(names, call)
    case If(c, ifBlock, elseBlock) =>
      && ExpressionAvoids(names, c) && StatementsAvoid(names, ifBlock.statements)
      && (elseBlock.Some? ==> StatementsAvoid(names, elseBlock.value.statements))
    case For(initial, c, u, body) =>
      AssignmentAvoids(names, initial) && ExpressionAvoids(names, c) && UpdateAvoids(names, u)
        && StatementsAvoid(names, body.statements)
    case While(c, body) => ExpressionAvoids(names, c) && StatementsAvoid(names, body.statements)
    case Return(value) => value.Some? ==> ExpressionAvoids(names, value.value)
    case Break => true
    case Continue => true
  }

  predicate StatementsAvoid(names: set<string>, statements: seq<Ir.Statement>)
    decreases statements
  {
    statements == [] || (StatementAvoids(names, statements[0]) && StatementsAvoid(names, statements[1..]))
  }

  predicate ProgramAvoids(names: set<string>, p: Ir.Program) {
    forall m :: m in p.methods ==> StatementsAvoid(names, m.body.statements)
  }

  /** The contexts differ at most in what calls of `names` do. */
  ghost predicate SameElsewhere(names: set<string>, ctx: Ir.Context, ctx': Ir.Context) {
    ctx'.globals == ctx.globals && forall callee, a, w :: callee !in names ==>
      ctx'.call(callee, a, w) == ctx.call(callee, a, w)
  }

  ghost predicate SameAt(names: set<string>, ctx: Ir.Context, ctx': Ir.Context) {
    forall callee, a, w :: callee in names ==> ctx'.call(callee, a, w) == ctx.call(callee, a, w)
  }

  lemma SameBindings(names: set<string>, ctx: Ir.Context, ctx': Ir.Context, frames: seq<Ir.Frame>, world: World,
                     id: string)
    requires SameElsewhere(names, ctx, ctx')
    ensures Ir.Bound(ctx', frames, id) == Ir.Bound(ctx, frames, id)
  {
  }

  lemma {:induction false} EvalSame(names: set<string>, ctx: Ir.Context, ctx': Ir.Context, e: Ir.Expression,
                                    frames: seq<Ir.Frame>, world: World)
    requires SameElsewhere(names, ctx, ctx') && (ExpressionAvoids(names, e) || SameAt(names, ctx, ctx'))
    ensures Ir.Eval(ctx', e, frames, world) == Ir.Eval(ctx, e, frames, world)
    decreases e, 1
  {
    hide SameElsewhere, SameAt, Ir.Bound, Ir.Operate, Ir.Perform, LocationAvoids, CallAvoids;
    match e
    case Binary(op, l, r) =>
      EvalSame(names, ctx, ctx', l, frames, world);
      var first := Ir.Eval(ctx, l, frames, world);
      if first.Value? { EvalSame(names, ctx, ctx', r, frames, first.world); }
    case Not(o) => EvalSame(names, ctx, ctx', o, frames, world);
    case Negate(o) => EvalSame(names, ctx, ctx', o, frames, world);
    case Length(id, _) => SameBindings(names, ctx, ctx', frames, world, id);
    case Invoke(call) => PerformSame(names, ctx, ctx', call, frames, world);
    case Constant(_) =>
    case At(location) => LocationSame(names, ctx, ctx', location, frames, world);
  }

  lemma {:induction false} LocationSame(names: set<string>, ctx: Ir.Context, ctx': Ir.Context, location: Ir.Location,
                                        frames: seq<Ir.Frame>, world: World)
    requires SameElsewhere(names, ctx, ctx') && (LocationAvoids(names, location) || SameAt(names, ctx, ctx'))
    ensures Ir.Eval(ctx', Ir.At(location), frames, world) == Ir.Eval(ctx, Ir.At(location), frames, world)
    decreases location
  {
    hide SameElsewhere, SameAt, ExpressionAvoids, Ir.Bound;
    SameBindings(names, ctx, ctx', frames, world, location.identifier);
    if location.index.Some? { EvalSame(names, ctx, ctx', location.index.value, frames, world); }
  }

  lemma {:induction false} PerformSame(names: set<string>, ctx: Ir.Context, ctx': Ir.Context, call: Ir.MethodCall,
                                       frames: seq<Ir.Frame>, world: World)
    requires SameElsewhere(names, ctx, ctx') && (CallAvoids(names, call) || SameAt(names, ctx, ctx'))
    ensures Ir.Perform(ctx', call, frames, world) == Ir.Perform(ctx, call, frames, world)
    decreases call
  {
    hide ArgumentsAvoid, Ir.EvalList;
    ListSame(names, ctx, ctx', call.arguments, frames, world);
  }

  lemma {:induction false} ListSame(names: set<string>, ctx: Ir.Context, ctx': Ir.Context,
                                    arguments: seq<Ir.CallArgument>, frames: seq<Ir.Frame>, world: World)
    requires SameElsewhere(names, ctx, ctx') && (ArgumentsAvoid(names, arguments) || SameAt(names, ctx, ctx'))
    ensures Ir.EvalList(ctx', arguments, frames, world) == Ir.EvalList(ctx, arguments, frames, world)
    decreases arguments
  {
    hide SameElsewhere, SameAt, ArgumentAvoids, Ir.EvalCallArgument;
    if arguments != [] {
      ArgumentSame(names, ctx, ctx', arguments[0], frames, world);
      var first := Ir.EvalCallArgument(ctx, arguments[0], frames, world);
      if first.Values? { ListSame(names, ctx, ctx', arguments[1..], frames, first.world); }
    }
  }

  lemma {:induction false} ArgumentSame(names: set<string>, ctx: Ir.Context, ctx': Ir.Context, a: Ir.CallArgument,
                                        frames: seq<Ir.Frame>, world: World)
    requires SameElsewhere(names, ctx, ctx') && (ArgumentAvoids(names, a) || SameAt(names, ctx, ctx'))
    ensures Ir.EvalCallArgument(ctx', a, frames, world) == Ir.EvalCallArgument(ctx, a, frames, world)
    decreases a
  {
    hide SameElsewhere, SameAt, ExpressionAvoids, Ir.Eval;
    if a.ValueArgument? { EvalSame(names, ctx, ctx', a.expression, frames, world); }
  }

  lemma AssignmentSame(names: set<string>, ctx: Ir.Context, ctx': Ir.Context, a: Ir.Assignment, frames: seq<Ir.Frame>,
                       world: World)
    requires SameElsewhere(names, ctx, ctx') && (AssignmentAvoids(names, a) || SameAt(names, ctx, ctx'))
    ensures Ir.ExecAssignment(ctx', a, frames, world) == Ir.ExecAssignment(ctx, a, frames, world)
  {
    hide SameElsewhere, SameAt, ExpressionAvoids, Ir.Bound, Ir.Eval, Ir.StoreResult;
    var id := a.location.identifier;
    SameBindings(names, ctx, ctx', frames, world, id);
    if a.location.index.None? {
      if Ir.InBounds(Ir.Bound(ctx, frames, id), 0) { StoreSame(names, ctx, ctx', a, 0, frames, world); }
    } else {
      EvalSame(names, ctx, ctx', a.location.index.value, frames, world);
      var r := Ir.Eval(ctx, a.location.index.value, frames, world);
      if r.Value? && Ir.InBounds(Ir.Bound(ctx, frames, id),
        r.word) { StoreSame(names, ctx, ctx', a, r.word, frames, r.world); }
    }
  }

  lemma StoreSame(names: set<string>, ctx: Ir.Context, ctx': Ir.Context, a: Ir.Assignment, i: nat,
                  frames: seq<Ir.Frame>, world: World)
    requires SameElsewhere(names, ctx, ctx') && (AssignmentAvoids(names, a) || SameAt(names, ctx, ctx'))
    requires Ir.InBounds(Ir.Bound(ctx, frames, a.location.identifier), i)
    ensures Ir.InBounds(Ir.Bound(ctx', frames, a.location.identifier), i)
    ensures Ir.StoreResult(ctx', a, i, frames, world) == Ir.StoreResult(ctx, a, i, frames, world)
  {
    hide SameElsewhere, SameAt, ExpressionAvoids, Ir.Bound, Ir.Eval, Ir.Operate;
    SameBindings(names, ctx, ctx', frames, world, a.location.identifier);
    if a.expression.Some? { EvalSame(names, ctx, ctx', a.expression.value, frames, world); }
  }

  lemma UpdateSame(names: set<string>, ctx: Ir.Context, ctx': Ir.Context, u: Ir.ForUpdate, frames: seq<Ir.Frame>,
                   world: World)
    requires SameElsewhere(names, ctx, ctx') && (UpdateAvoids(names, u) || SameAt(names, ctx, ctx'))
    ensures Ir.ExecUpdate(ctx', u, frames, world) == Ir.ExecUpdate(ctx, u, frames, world)
  {
    hide SameElsewhere, SameAt, AssignmentAvoids, CallAvoids, Ir.ExecAssignment, Ir.Perform;
    match u
    case UpdateAssignment(a) => AssignmentSame(names, ctx, ctx', a, frames, world);
    case UpdateCall(call) => PerformSame(names, ctx, ctx', call, frames, world);
  }

  lemma {:induction false} ExecSame(names: set<string>, ctx: Ir.Context, ctx': Ir.Context, s: Ir.Statement,
                                    frames: seq<Ir.Frame>, world: World, fuel: nat)
    requires SameElsewhere(names, ctx, ctx') && (StatementAvoids(names, s) || SameAt(names, ctx, ctx'))
    ensures Ir.Exec(ctx', s, frames, world, fuel) == Ir.Exec(ctx, s, frames, world, fuel)
    decreases fuel, s, 0
  {
    hide SameElsewhere, SameAt, AssignmentAvoids, CallAvoids, ExpressionAvoids, UpdateAvoids, Ir.ExecAssignment,
      Ir.Perform, Ir.Eval, Ir.Loop, Ir.ExecAll;
    match s
    case Assign(a) => AssignmentSame(names, ctx, ctx', a, frames, world);
    case CallStatement(call) => PerformSame(names, ctx, ctx', call, frames, world);
    case If(c, ifBlock, elseBlock) =>
      EvalSame(names, ctx, ctx', c, frames, world);
      var r := Ir.Eval(ctx, c, frames, world);
      if r.Value? {
        AllSame(names, ctx, ctx', ifBlock.statements, frames + [Ir.OpenScope(map[], ifBlock.fields)], r.world, fuel);
        if elseBlock.Some? {
          var other := elseBlock.value;
          AllSame(names, ctx, ctx', other.statements, frames + [Ir.OpenScope(map[], other.fields)], r.world, fuel);
        }
      }
    case For(initial, c, u, body) =>
      AssignmentSame(names, ctx, ctx', initial, frames, world);
      var r := Ir.ExecAssignment(ctx, initial, frames, world);
      if r.Normal? { LoopSame(names, ctx, ctx', c, Some(u), body, r.frames, r.world, fuel); }
    case While(c, body) => LoopSame(names, ctx, ctx', c, None, body, frames, world, fuel);
    case Return(value) =>
      if value.Some? { EvalSame(names, ctx, ctx', value.value, frames, world); }
    case Break =>
    case Continue =>
  }

  lemma {:induction false} LoopSame(names: set<string>, ctx: Ir.Context, ctx': Ir.Context, c: Ir.Expression,
                                    u: Option<Ir.ForUpdate>, body: Ir.Block, frames: seq<Ir.Frame>, world: World,
                                    fuel: nat)
    requires SameElsewhere(names, ctx, ctx') && (ExpressionAvoids(names, c) || SameAt(names, ctx, ctx'))
      && ((u.Some? ==> UpdateAvoids(names, u.value)) || SameAt(names, ctx, ctx'))
    requires (StatementsAvoid(names, body.statements) || SameAt(names, ctx, ctx'))
    ensures Ir.Loop(ctx', c, u, body, frames, world, fuel) == Ir.Loop(ctx, c, u, body, frames, world, fuel)
    decreases fuel, body, 1
  {
    hide SameElsewhere, SameAt, ExpressionAvoids, UpdateAvoids, StatementsAvoid, Ir.Eval, Ir.ExecAll, Ir.ExecUpdate;
    EvalSame(names, ctx, ctx', c, frames, world);
    var r := Ir.Eval(ctx, c, frames, world);
    if r.Value? && Ir.IsBool(r.word) && r.word != 0 && fuel > 0 {
      AllSame(names, ctx, ctx', body.statements, frames + [Ir.OpenScope(map[], body.fields)], r.world, fuel - 1);
      var after := Ir.ExecBlock(ctx, body, frames, r.world, fuel - 1);
      if after.Normal? || after.Continued? {
        if u.None? {
          LoopSame(names, ctx, ctx', c, u, body, after.frames, after.world, fuel - 1);
        } else {
          UpdateSame(names, ctx, ctx', u.value, after.frames, after.world);
          var r' := Ir.ExecUpdate(ctx, u.value, after.frames, after.world);
          if r'.Normal? { LoopSame(names, ctx, ctx', c, u, body, r'.frames, r'.world, fuel - 1); }
        }
      }
    }
  }

  lemma {:induction false} AllSame(names: set<string>, ctx: Ir.Context, ctx': Ir.Context, statements: seq<Ir.Statement>,
                                   frames: seq<Ir.Frame>, world: World, fuel: nat)
    requires SameElsewhere(names, ctx, ctx') && (StatementsAvoid(names, statements) || SameAt(names, ctx, ctx'))
    ensures Ir.ExecAll(ctx', statements, frames, world, fuel) == Ir.ExecAll(ctx, statements, frames, world, fuel)
    decreases fuel, statements, 0
  {
    hide SameElsewhere, SameAt, StatementAvoids, Ir.Exec;
    if statements != [] {
      ExecSame(names, ctx, ctx', statements[0], frames, world, fuel);
      var r := Ir.Exec(ctx, statements[0], frames, world, fuel);
      if r.Normal? { AllSame(names, ctx, ctx', statements[1..], r.frames, r.world, fuel); }
    }
  }

  lemma BehaviourSame(names: set<string>, ctx: Ir.Context, ctx': Ir.Context, m: Ir.Method, arguments: seq<Argument>,
                      world: World)
    requires SameElsewhere(names, ctx, ctx') && (StatementsAvoid(names, m.body.statements) || SameAt(names, ctx, ctx'))
      && |m.arguments| == |arguments|
    ensures MethodBehaviour(ctx', m, arguments, world) == MethodBehaviour(ctx, m, arguments, world)
  {
    hide SameElsewhere, SameAt, StatementsAvoid, MethodBehaviour;
    forall fuel: nat ensures Ir.RunMethod(ctx', m, arguments, world, fuel)
      == Ir.RunMethod(ctx, m, arguments, world, fuel) {
      AllSame(names, ctx, ctx', m.body.statements,
        [Ir.OpenScope(Ir.BindParameters(m.arguments, arguments), m.body.fields)], world, fuel);
    }
    SameRuns(ctx, ctx', m, arguments, world);
  }

  lemma SameRuns(ctx: Ir.Context, ctx': Ir.Context, m: Ir.Method, arguments: seq<Argument>, world: World)
    requires |m.arguments| == |arguments|
    requires forall fuel: nat ::
      Ir.RunMethod(ctx', m, arguments, world, fuel) == Ir.RunMethod(ctx, m, arguments, world, fuel)
    ensures MethodBehaviour(ctx', m, arguments, world) == MethodBehaviour(ctx, m, arguments, world)
  {
    hide Ir.RunMethod;
    if fuel: nat :| Settles(ctx, m, arguments, world, fuel) {
      assert Settles(ctx', m, arguments, world, fuel);
      MethodBehaviourIs(ctx, m, arguments, world, fuel);
      MethodBehaviourIs(ctx', m, arguments, world, fuel);
    } else {
      forall fuel: nat ensures !Settles(ctx', m, arguments, world,
        fuel) { assert !Settles(ctx, m, arguments, world, fuel); }
    }
  }

  // ----- whole programs -----

  lemma {:induction false} FoundMethod(methods: seq<Ir.Method>, id: string)
    ensures FindMethod(methods, id).Some? ==> FindMethod(methods, id).value in methods
  {
    if methods != [] && methods[0].identifier != id { FoundMethod(methods[1..], id); }
  }

  /** A library that differs only in functions the program never calls makes no difference. */
  lemma {:induction false} UncalledImports(p: Ir.Program, names: set<string>, env: Environment, env': Environment,
                                           resets: bool, depth: nat, callee: string, arguments: seq<Argument>,
                                           world: World)
    requires ProgramAvoids(names, p) && callee !in names
    requires forall c, a, w :: c !in names ==> env'.imports(c, a, w) == env.imports(c, a, w)
    ensures SourceCall(p, env', resets, depth, callee, arguments, world)
         == SourceCall(p, env, resets, depth, callee, arguments, world)
    decreases depth
  {
    hide MethodBehaviour, StatementsAvoid, StartWorld;
    var found := FindMethod(p.methods, callee);
    if found.Some? && depth > 0 && |found.value.arguments| == |arguments| {
      FoundMethod(p.methods, callee);
      var ctx := Ir.Context(GlobalInfos(p.fields), SourceOracle(p, env, resets, depth - 1));
      var ctx' := Ir.Context(GlobalInfos(p.fields), SourceOracle(p, env', resets, depth - 1));
      forall c, a, w | c !in names ensures ctx'.call(c, a, w) == ctx.call(c, a, w) {
        UncalledImports(p, names, env, env', resets, depth - 1, c, a, w);
      }
      BehaviourSame(names, ctx, ctx', found.value, arguments,
        if resets then StartWorld(p, callee, world) else world);
    }
  }
}
