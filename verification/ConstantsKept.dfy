/** In an accepted program every constant, global or local, holds the value it was declared with in every state of
    every run. */
module ConstantsKept {
  import opened Words
  import opened Worlds
  import opened Checker
  import opened AsRead
  import opened TypeSoundness
  import opened SafePrograms
  import opened Compilation
  import opened MethodLowering
  import Lowering
  import MachineMethods
  import Programs
  import Ir

  // ----- states that hold the constants -----

  /** The value an element is declared with. */
  function Declared(f: Ir.Field, i: nat): Word {
    if f.initializer.Some? && i < |f.initializer.value| && Ir.LiteralInRange(f.initializer.value[i])
    then Ir.LiteralValue(f.initializer.value[i]) else 0
  }

  predicate VariableHeld(f: Ir.Field, v: Ir.Variable) {
    f.constant ==> forall i :: 0 <= i < |v.values| ==> v.values[i] == Declared(f, i)
  }

  ghost predicate FrameHolds(scope: map<string, Ir.Field>, frame: Ir.Frame) {
    forall id :: id in scope && id in frame ==> VariableHeld(scope[id], frame[id])
  }

  ghost predicate FramesHold(scopes: Scopes, frames: seq<Ir.Frame>) {
    |scopes| == |frames| + 1 && forall k :: 0 <= k < |frames| ==> FrameHolds(scopes[k + 1], frames[k])
  }

  ghost predicate WorldHolds(globals: map<string, Ir.Field>, world: World) {
    forall id, i: nat :: id in globals && globals[id].constant && i < globals[id].length
      ==> Get(world.globals, Cell(id, i)) == Declared(globals[id], i)
  }

  /** The state fits its types and holds the constants. */
  ghost predicate Holds(env: Environment, frames: seq<Ir.Frame>, world: World)
    requires env.scopes != []
  {
    StateFits(env, frames, world) && FramesHold(env.scopes, frames) && WorldHolds(env.scopes[0], world)
  }

  /** Where a run ends and somebody sees the globals, the constants are held. */
  ghost predicate OutcomeHolds(globals: map<string, Ir.Field>, o: Outcome) {
    o.Returned? || o.Exited? ==> WorldHolds(globals, o.world)
  }

  /** Calls from a world that holds the constants, with arguments of the right types, keep them. */
  ghost predicate CallHolds(globals: map<string, Ir.Field>, call: Ir.CallOracle, callee: string, signature: Signature) {
    forall arguments, w {:trigger call(callee, arguments, w)} ::
      WorldFits(globals, w) && WorldHolds(globals, w)
      && (signature.Own? ==> ArgumentsFit(signature.parameters, arguments)) && call(callee, arguments, w).Some?
      ==> OutcomeHolds(globals, call(callee, arguments, w).value)
  }

  ghost predicate CallsHold(globals: map<string, Ir.Field>, call: Ir.CallOracle, methods: map<string, Signature>) {
    forall callee :: callee in methods ==> CallHolds(globals, call, callee, methods[callee])
  }

  ghost predicate Guarded(env: Environment, ctx: Ir.Context) {
    WellTyped(env, ctx) && CallsHold(env.scopes[0], ctx.call, env.methods)
  }

  // ----- expressions -----

  ghost predicate ResultHolds(globals: map<string, Ir.Field>, r: Ir.Result) {
    match r
    case Value(_, w) => WorldHolds(globals, w)
    case Halt(o) => OutcomeHolds(globals, o)
    case Wrong => true
  }

  ghost predicate ListHolds(globals: map<string, Ir.Field>, r: Ir.ListResult) {
    match r
    case Values(_, w) => WorldHolds(globals, w)
    case HaltList(o) => OutcomeHolds(globals, o)
    case WrongList => true
  }

  /** A constant is read as the value it was declared with. */
  lemma ConstantRead(env: Environment, ctx: Ir.Context, frames: seq<Ir.Frame>, world: World, identifier: string,
                     i: nat)
    requires Guarded(env, ctx) && Holds(env, frames, world)
    requires Found(env.scopes, identifier).Some? && i < Found(env.scopes, identifier).value.length
    requires Found(env.scopes, identifier).value.constant
    ensures Ir.InBounds(Ir.Bound(ctx, frames, identifier), i)
    ensures Ir.Fetch(ctx, frames, world, identifier, i) == Declared(Found(env.scopes, identifier).value, i)
  {
    hide CallsFit, CallsHold, ScopesSettled, Fits, Declared, WorldFits;
    BindingFound(env, ctx, frames, world, identifier);
    var k := Find(env.scopes, identifier).value;
    if k > 0 {
      assert FrameFits(env.scopes[k], frames[k - 1]) && FrameHolds(env.scopes[k], frames[k - 1]);
      assert VariableFits(env.scopes[k][identifier], frames[k - 1][identifier]);
      assert VariableHeld(env.scopes[k][identifier], frames[k - 1][identifier]);
    }
  }

  lemma {:induction false} EvalHolds(env: Environment, ctx: Ir.Context, e: Ir.Expression, frames: seq<Ir.Frame>,
                                     world: World)
    requires Guarded(env, ctx) && Holds(env, frames, world)
    requires ExpressionAsRead(e) && CheckExpression(env, e).ok && !CheckExpression(env, e).dataType.isArray
    ensures ResultHolds(env.scopes[0], Ir.Eval(ctx, CheckExpression(env, e).expression, frames, world))
    decreases e, 1
  {
    hide Guarded, FramesFit, FramesHold, WorldFits, WorldHolds, CheckCall, CheckLocation, LiteralAsRead, LiteralOk,
      Ir.LiteralInRange, Ir.Operate, Ir.Bound;
    match e
    case Binary(op, l, r) => BinaryHolds(env, ctx, op, l, r, frames, world);
    case Not(o) => EvalHolds(env, ctx, o, frames, world);
    case Negate(o) => EvalHolds(env, ctx, o, frames, world);
    case Length(_, _) =>
    case Invoke(call) => PerformHolds(env, ctx, call, frames, world);
    case Constant(_) =>
    case At(location) => AtHolds(env, ctx, location, frames, world);
  }

  lemma {:induction false} BinaryHolds(env: Environment, ctx: Ir.Context, op: Ir.BinaryOperator, l: Ir.Expression,
                                       r: Ir.Expression, frames: seq<Ir.Frame>, world: World)
    requires Guarded(env, ctx) && Holds(env, frames, world)
    requires ExpressionAsRead(l) && ExpressionAsRead(r) && CheckExpression(env, Ir.Binary(op, l, r)).ok
    ensures ResultHolds(env.scopes[0], Ir.Eval(ctx, CheckExpression(env, Ir.Binary(op, l, r)).expression, frames,
      world))
    decreases Ir.Binary(op, l, r), 0
  {
    hide WellTyped, CallsHold, FramesFit, FramesHold, WorldFits, WorldHolds, Ir.Operate;
    var left, right := CheckExpression(env, l), CheckExpression(env, r);
    assert !left.dataType.isArray && !right.dataType.isArray;
    EvalFits(env, ctx, l, frames, world);
    EvalHolds(env, ctx, l, frames, world);
    var first := Ir.Eval(ctx, left.expression, frames, world);
    if first.Value? { EvalHolds(env, ctx, r, frames, first.world); }
  }

  lemma {:induction false} AtHolds(env: Environment, ctx: Ir.Context, location: Ir.Location, frames: seq<Ir.Frame>,
                                   world: World)
    requires Guarded(env, ctx) && Holds(env, frames, world)
    requires LocationAsRead(location) && CheckLocation(env, location).ok
    ensures ResultHolds(env.scopes[0], Ir.Eval(ctx, Ir.At(CheckLocation(env, location).location), frames, world))
    decreases location
  {
    hide Guarded, FramesFit, FramesHold, WorldFits, WorldHolds, CheckExpression, Ir.Bound, Ir.Fetch;
    if location.index.Some? { EvalHolds(env, ctx, location.index.value, frames, world); }
  }

  lemma {:induction false} PerformHolds(env: Environment, ctx: Ir.Context, call: Ir.MethodCall,
                                        frames: seq<Ir.Frame>, world: World)
    requires Guarded(env, ctx) && Holds(env, frames, world) && CallAsRead(call) && CheckCall(env, call).ok
    ensures ResultHolds(env.scopes[0], Ir.Perform(ctx, CheckCall(env, call).call, frames, world))
    decreases call
  {
    hide FramesFit, FramesHold, WorldFits, WorldHolds, CheckArguments, ScopesSettled, GlobalsFit, CallsFit, CallHolds,
      ArgumentsFit;
    var signature := env.methods[call.identifier];
    var parameters := if signature.Own? then Some(signature.parameters) else None;
    ArgumentsEvalFit(env, ctx, call.arguments, parameters, frames, world);
    ArgumentsHold(env, ctx, call.arguments, parameters, frames, world);
    match Ir.EvalList(ctx, CheckArguments(env, call.arguments, parameters).value, frames, world)
    case Values(arguments, w) => CallHoldsHere(env, ctx, call.identifier, arguments, w);
    case _ =>
  }

  lemma CallHoldsHere(env: Environment, ctx: Ir.Context, callee: string, arguments: seq<Argument>, w: World)
    requires env.scopes != [] && CallsHold(env.scopes[0], ctx.call, env.methods) && callee in env.methods
    requires WorldFits(env.scopes[0], w) && WorldHolds(env.scopes[0], w)
    requires env.methods[callee].Own? ==> ArgumentsFit(env.methods[callee].parameters, arguments)
    ensures ctx.call(callee, arguments, w).Some?
      ==> OutcomeHolds(env.scopes[0], ctx.call(callee, arguments, w).value)
  {
    hide WorldFits, WorldHolds, ArgumentsFit, OutcomeHolds;
    assert CallHolds(env.scopes[0], ctx.call, callee, env.methods[callee]);
  }

  lemma {:induction false} ArgumentsHold(env: Environment, ctx: Ir.Context, arguments: seq<Ir.CallArgument>,
                                         parameters: Option<seq<DataType>>, frames: seq<Ir.Frame>, world: World)
    requires Guarded(env, ctx) && Holds(env, frames, world) && ArgumentsAsRead(arguments)
    requires parameters.Some? ==> |parameters.value| == |arguments| && forall t :: t in parameters.value ==> !t.isArray
    requires CheckArguments(env, arguments, parameters).ok
    ensures ListHolds(env.scopes[0], Ir.EvalList(ctx, CheckArguments(env, arguments, parameters).value, frames,
      world))
    decreases arguments
  {
    hide WellTyped, CallsHold, FramesFit, FramesHold, WorldFits, WorldHolds, CheckArgument, Ir.EvalCallArgument,
      ArgumentsFit, OutcomeHolds;
    if arguments != [] {
      var parameter := if parameters.Some? then Some(parameters.value[0]) else None;
      var more := if parameters.Some? then Some(parameters.value[1..]) else None;
      var first := CheckArgument(env, arguments[0], parameter);
      var rest := CheckArguments(env, arguments[1..], more);
      assert ([first.value] + rest.value)[1..] == rest.value;
      ArgumentEvalFits(env, ctx, arguments[0], parameter, frames, world);
      ArgumentHolds(env, ctx, arguments[0], parameter, frames, world);
      match Ir.EvalCallArgument(ctx, first.value, frames, world)
      case Values(_, w) => ArgumentsHold(env, ctx, arguments[1..], more, frames, w);
      case _ =>
    }
  }

  lemma {:induction false} ArgumentHolds(env: Environment, ctx: Ir.Context, a: Ir.CallArgument,
                                         parameter: Option<DataType>, frames: seq<Ir.Frame>, world: World)
    requires Guarded(env, ctx) && Holds(env, frames, world) && ArgumentAsRead(a)
    requires (parameter.Some? ==> !parameter.value.isArray) && CheckArgument(env, a, parameter).ok
    ensures ListHolds(env.scopes[0], Ir.EvalCallArgument(ctx, CheckArgument(env, a, parameter).value, frames, world))
    decreases a
  {
    TypedPolicy(env, ctx);
    hide WellTyped, CallsHold, FramesFit, FramesHold, WorldFits, WorldHolds, CheckExpression, OutcomeHolds;
    if a.ValueArgument? { EvalHolds(env, ctx, a.expression, frames, world); }
  }

  // ----- statements -----

  ghost predicate StatusHolds(env: Environment, s: Ir.Status)
    requires env.scopes != []
  {
    match s
    case Normal(frames, w) => FramesHold(env.scopes, frames) && WorldHolds(env.scopes[0], w)
    case Broke(frames, w) => FramesHold(env.scopes, frames) && WorldHolds(env.scopes[0], w)
    case Continued(frames, w) => FramesHold(env.scopes, frames) && WorldHolds(env.scopes[0], w)
    case Finished(_, w) => WorldHolds(env.scopes[0], w)
    case Halted(o) => OutcomeHolds(env.scopes[0], o)
    case OutOfFuel => true
    case Failed => true
  }

  /** A store to what is not constant. */
  lemma PutHolds(env: Environment, ctx: Ir.Context, frames: seq<Ir.Frame>, world: World, identifier: string, i: nat,
                 v: Word)
    requires Guarded(env, ctx) && Holds(env, frames, world)
    requires Found(env.scopes, identifier).Some? && !Found(env.scopes, identifier).value.constant
    requires i < Found(env.scopes, identifier).value.length
    ensures Ir.InBounds(Ir.Bound(ctx, frames, identifier), i)
    ensures FramesHold(env.scopes, Ir.PutFrames(ctx, frames, identifier, i, v))
      && WorldHolds(env.scopes[0], Ir.PutWorld(ctx, frames, world, identifier, i, v))
  {
    FetchFits(env, ctx, frames, world, identifier, i);
    BindingFound(env, ctx, frames, world, identifier);
    var k := Find(env.scopes, identifier).value;
    hide WellTyped, CallsHold, StateFits, Find, FramesHold, WorldHolds, Ir.Bound, TypeOfField;
    if k > 0 {
      var variable := frames[k - 1][identifier];
      PutLocalHolds(env.scopes, frames, k, identifier, variable.(values := variable.values[i := v]));
    } else {
      PutGlobalHolds(env.scopes[0], world, identifier, i, v);
    }
  }

  lemma PutLocalHolds(scopes: Scopes, frames: seq<Ir.Frame>, k: nat, identifier: string, changed: Ir.Variable)
    requires FramesHold(scopes, frames) && 0 < k < |scopes| && identifier in scopes[k]
      && !scopes[k][identifier].constant
    ensures FramesHold(scopes, frames[k - 1 := frames[k - 1][identifier := changed]])
  {
    var frames' := frames[k - 1 := frames[k - 1][identifier := changed]];
    forall j | 0 <= j < |frames'| ensures FrameHolds(scopes[j + 1], frames'[j]) {
      assert FrameHolds(scopes[j + 1], frames[j]);
    }
  }

  lemma PutGlobalHolds(globals: map<string, Ir.Field>, world: World, identifier: string, i: nat, v: Word)
    requires WorldHolds(globals, world) && identifier in globals && !globals[identifier].constant
    ensures WorldHolds(globals, world.(globals := world.globals[Cell(identifier, i) := v]))
  {
    hide Declared;
  }

  lemma {:induction false} AssignmentHolds(env: Environment, ctx: Ir.Context, a: Ir.Assignment,
                                           frames: seq<Ir.Frame>, world: World)
    requires Guarded(env, ctx) && Holds(env, frames, world) && AssignmentAsRead(a) && CheckAssignment(env, a).ok
    ensures StatusHolds(env, Ir.ExecAssignment(ctx, CheckAssignment(env, a).value, frames, world))
  {
    var id := a.location.identifier;
    var at := CheckLocation(env, a.location);
    BindingSettled(env, ctx, frames, world, id);
    hide WellTyped, CallsHold, FramesFit, FramesHold, WorldFits, WorldHolds, CheckExpression, Ir.Bound, Ir.StoreResult;
    if a.location.index.None? {
      StoreHolds(env, ctx, a, 0, frames, world);
    } else {
      EvalFits(env, ctx, a.location.index.value, frames, world);
      EvalHolds(env, ctx, a.location.index.value, frames, world);
      match Ir.Eval(ctx, at.location.index.value, frames, world)
      case Value(i, w) =>
        if 0 <= i < Found(env.scopes, id).value.length { StoreHolds(env, ctx, a, i, frames, w); }
      case _ =>
    }
  }

  lemma {:induction false} StoreHolds(env: Environment, ctx: Ir.Context, a: Ir.Assignment, i: nat,
                                      frames: seq<Ir.Frame>, world: World)
    requires Guarded(env, ctx) && Holds(env, frames, world) && AssignmentAsRead(a) && CheckAssignment(env, a).ok
    requires i < Found(env.scopes, a.location.identifier).value.length
    ensures Ir.InBounds(Ir.Bound(ctx, frames, a.location.identifier), i)
    ensures StatusHolds(env, Ir.StoreResult(ctx, CheckAssignment(env, a).value, i, frames, world))
  {
    var id := a.location.identifier;
    hide WellTyped, CallsHold, FramesFit, FramesHold, WorldFits, WorldHolds, CheckExpression, Ir.Bound, Ir.PutFrames,
      Ir.PutWorld, Ir.Fetch, Ir.Operate;
    PutHolds(env, ctx, frames, world, id, i, 1);
    var after := world;
    if a.expression.Some? {
      EvalFits(env, ctx, a.expression.value, frames, world);
      EvalHolds(env, ctx, a.expression.value, frames, world);
      var r := Ir.Eval(ctx, CheckExpression(env, a.expression.value).expression, frames, world);
      if r.Value? { after := r.world; }
    }
    forall v: Word
      ensures FramesHold(env.scopes, Ir.PutFrames(ctx, frames, id, i, v))
        && WorldHolds(env.scopes[0], Ir.PutWorld(ctx, frames, after, id, i, v))
    {
      PutHolds(env, ctx, frames, after, id, i, v);
    }
  }

  lemma UpdateHolds(env: Environment, ctx: Ir.Context, u: Ir.ForUpdate, frames: seq<Ir.Frame>, world: World)
    requires Guarded(env, ctx) && Holds(env, frames, world) && UpdateAsRead(u) && CheckUpdate(env, u).ok
    ensures StatusHolds(env, Ir.ExecUpdate(ctx, CheckUpdate(env, u).value, frames, world))
  {
    hide WellTyped, CallsHold, FramesFit, FramesHold, WorldFits, WorldHolds, CheckAssignment, CheckCall,
      Ir.ExecAssignment, Ir.Perform, OutcomeHolds;
    match u
    case UpdateAssignment(a) => AssignmentHolds(env, ctx, a, frames, world);
    case UpdateCall(call) => PerformHolds(env, ctx, call, frames, world);
  }

  lemma {:induction false} ExecHolds(env: Environment, ctx: Ir.Context, s: Ir.Statement, frames: seq<Ir.Frame>,
                                     world: World, fuel: nat)
    requires Guarded(env, ctx) && Holds(env, frames, world) && StatementAsRead(s) && CheckStatement(env, s).ok
    ensures StatusHolds(env, Ir.Exec(ctx, CheckStatement(env, s).value, frames, world, fuel))
    decreases fuel, s, 0
  {
    hide WellTyped, CallsHold, FramesFit, FramesHold, WorldFits, WorldHolds, CheckAssignment, CheckCall, CheckCondition,
      CheckUpdate, CheckBlock, CheckExpression, Ir.ExecAssignment, Ir.ExecBlock, Ir.Loop, Ir.Perform, Ir.Eval,
      OutcomeHolds;
    match s
    case Assign(a) => AssignmentHolds(env, ctx, a, frames, world);
    case CallStatement(call) => PerformHolds(env, ctx, call, frames, world);
    case If(c, ifBlock, elseBlock) =>
      ConditionFits(env, ctx, c, frames, world);
      ConditionHolds(env, ctx, c, frames, world);
      var r := Ir.Eval(ctx, CheckCondition(env, c).value, frames, world);
      if r.Value? {
        if r.word == 1 {
          BlockHolds(env, ctx, ifBlock, frames, r.world, fuel);
        } else if elseBlock.Some? {
          BlockHolds(env, ctx, elseBlock.value, frames, r.world, fuel);
        }
      }
    case For(initial, c, u, body) =>
      LoopGuarded(env, ctx);
      AssignmentFits(InLoop(env), ctx, initial, frames, world);
      AssignmentHolds(InLoop(env), ctx, initial, frames, world);
      var r := Ir.ExecAssignment(ctx, CheckAssignment(InLoop(env), initial).value, frames, world);
      if r.Normal? { LoopHolds(env, ctx, c, Some(u), body, r.frames, r.world, fuel); }
    case While(c, body) => LoopHolds(env, ctx, c, None, body, frames, world, fuel);
    case Return(value) =>
      if value.Some? { EvalHolds(env, ctx, value.value, frames, world); }
    case Break =>
    case Continue =>
  }

  lemma LoopGuarded(env: Environment, ctx: Ir.Context)
    requires Guarded(env, ctx)
    ensures Guarded(InLoop(env), ctx)
  {
    hide WellTyped, CallsHold;
    LoopTyped(env, ctx);
  }

  lemma ConditionHolds(env: Environment, ctx: Ir.Context, e: Ir.Expression, frames: seq<Ir.Frame>, world: World)
    requires Guarded(env, ctx) && Holds(env, frames, world) && ExpressionAsRead(e) && CheckCondition(env, e).ok
    ensures ResultHolds(env.scopes[0], Ir.Eval(ctx, CheckCondition(env, e).value, frames, world))
  {
    hide WellTyped, CallsHold, FramesFit, FramesHold, WorldFits, WorldHolds, CheckExpression;
    EvalHolds(env, ctx, e, frames, world);
  }

  lemma {:induction false} LoopHolds(env: Environment, ctx: Ir.Context, c: Ir.Expression, u: Option<Ir.ForUpdate>,
                                     body: Ir.Block, frames: seq<Ir.Frame>, world: World, fuel: nat)
    requires Guarded(env, ctx) && Holds(env, frames, world)
    requires ExpressionAsRead(c) && (u.Some? ==> UpdateAsRead(u.value)) && BlockAsRead(body)
    requires CheckCondition(InLoop(env), c).ok && (u.Some? ==> CheckUpdate(InLoop(env), u.value).ok)
      && CheckBlock(InLoop(env), body).ok
    ensures StatusHolds(env, Ir.Loop(ctx, CheckCondition(InLoop(env), c).value, CheckedUpdate(InLoop(env), u),
      CheckBlock(InLoop(env), body).value, frames, world, fuel))
    decreases fuel, body, 1
  {
    hide WellTyped, CallsHold, FramesFit, FramesHold, WorldFits, WorldHolds, CheckCondition, CheckUpdate, CheckBlock,
      Ir.ExecBlock, Ir.ExecUpdate, Ir.Eval, OutcomeHolds;
    LoopGuarded(env, ctx);
    ConditionFits(InLoop(env), ctx, c, frames, world);
    ConditionHolds(InLoop(env), ctx, c, frames, world);
    var condition, block := CheckCondition(InLoop(env), c).value, CheckBlock(InLoop(env), body).value;
    match Ir.Eval(ctx, condition, frames, world)
    case Value(v, w) =>
      if v != 0 && fuel > 0 {
        BlockFits(InLoop(env), ctx, body, frames, w, fuel - 1);
        BlockHolds(InLoop(env), ctx, body, frames, w, fuel - 1);
        var r := Ir.ExecBlock(ctx, block, frames, w, fuel - 1);
        if r.Normal? || r.Continued? {
          if u.None? {
            LoopHolds(env, ctx, c, u, body, r.frames, r.world, fuel - 1);
          } else {
            UpdateFits(InLoop(env), ctx, u.value, r.frames, r.world);
            UpdateHolds(InLoop(env), ctx, u.value, r.frames, r.world);
            var r' := Ir.ExecUpdate(ctx, CheckUpdate(InLoop(env), u.value).value, r.frames, r.world);
            if r'.Normal? { LoopHolds(env, ctx, c, u, body, r'.frames, r'.world, fuel - 1); }
          }
        }
      }
    case _ =>
  }

  lemma {:induction false} BlockHolds(env: Environment, ctx: Ir.Context, b: Ir.Block, frames: seq<Ir.Frame>,
                                      world: World, fuel: nat)
    requires Guarded(env, ctx) && Holds(env, frames, world) && BlockAsRead(b) && CheckBlock(env, b).ok
    ensures StatusHolds(env, Ir.ExecBlock(ctx, CheckBlock(env, b).value, frames, world, fuel))
    decreases fuel, b, 0
  {
    hide WorldFits, WorldHolds, CheckFields, CheckStatements, CallsFit, CallsHold, GlobalsFit, Ir.ExecAll,
      Ir.OpenScope, FrameFits, FrameHolds, ScalarParameters, StatementsAsRead, FieldsAsRead;
    var entered := env.(scopes := env.scopes + [map[]]);
    var declared := CheckFields(entered, b.fields);
    var inner := env.(scopes := declared.scopes);
    EmptyFits(env, frames);
    EmptyHolds();
    FieldsFit(entered, b.fields, map[]);
    FieldsHold(entered, b.fields, map[]);
    var all := frames + [Ir.OpenScope(map[], declared.fields)];
    assert ScopesSettled(inner.scopes);
    assert inner.scopes[0] == env.scopes[0];
    assert FramesFit(inner.scopes, all);
    assert FramesHold(inner.scopes, all);
    StatementsHold(inner, ctx, b.statements, all, world, fuel);
    assert inner.scopes[..|env.scopes|] == env.scopes;
    CloseHolds(env, inner, Ir.ExecAll(ctx, CheckStatements(inner, b.statements).value, all, world, fuel));
  }

  lemma EmptyHolds()
    ensures FrameHolds(map[], map[])
  {
  }

  lemma CloseHolds(env: Environment, inner: Environment, r: Ir.Status)
    requires env.scopes != [] && |inner.scopes| == |env.scopes| + 1 && inner.scopes[..|env.scopes|] == env.scopes
    requires StatusHolds(inner, r)
    ensures StatusHolds(env, Ir.CloseScope(r))
  {
    hide WorldHolds, FrameHolds, OutcomeHolds;
    assert inner.scopes[0] == env.scopes[0];
    assert forall k :: 0 <= k < |env.scopes| ==> inner.scopes[k] == env.scopes[k];
  }

  /** On entry to a scope its constants hold what they are declared with. */
  lemma {:induction false} FieldsHold(env: Environment, fields: seq<Ir.Field>, frame: Ir.Frame)
    requires env.scopes != [] && FieldsAsRead(fields) && CheckFields(env, fields).ok && env.policy.plain
    requires FrameHolds(env.scopes[|env.scopes| - 1], frame)
    ensures var r := CheckFields(env, fields);
      FrameHolds(r.scopes[|env.scopes| - 1], Ir.OpenScope(frame, r.fields))
  {
    hide DeclarationOk, FieldAsRead, Completed, VariableHeld, Redeclared, Ir.WellDeclared, Ir.InitialValues;
    if fields != [] {
      var front, f := fields[..|fields| - 1], fields[|fields| - 1];
      FieldsHold(env, front, frame);
      var r0, r := CheckFields(env, front), CheckFields(env, fields);
      assert f in fields;
      FieldHolds(env.policy, f);
      assert r.fields[..|r0.fields|] == r0.fields;
    }
  }

  lemma FieldHolds(policy: Policy, f: Ir.Field)
    requires FieldAsRead(f) && DeclarationOk(policy, f) && policy.plain
    ensures var f' := Completed(f);
      Ir.WellDeclared(f') && VariableHeld(f', Ir.Variable(f'.isArray, Ir.InitialValues(f')))
  {
    FieldFits(policy, f);
    var f' := Completed(f);
    forall i | 0 <= i < f'.length ensures Ir.InitialValues(f')[i] == Declared(f', i) {
      if f'.initializer.Some? { assert f'.initializer.value[i] in f'.initializer.value; }
    }
  }

  lemma {:induction false} StatementsHold(env: Environment, ctx: Ir.Context, statements: seq<Ir.Statement>,
                                          frames: seq<Ir.Frame>, world: World, fuel: nat)
    requires Guarded(env, ctx) && Holds(env, frames, world) && StatementsAsRead(statements)
      && CheckStatements(env, statements).ok
    ensures StatusHolds(env, Ir.ExecAll(ctx, CheckStatements(env, statements).value, frames, world, fuel))
    decreases fuel, statements, 0
  {
    hide WellTyped, CallsHold, FramesFit, FramesHold, WorldFits, WorldHolds, CheckStatement, StatementAsRead, Ir.Exec,
      OutcomeHolds;
    if statements != [] {
      var first, rest := CheckStatement(env, statements[0]), CheckStatements(env, statements[1..]);
      assert ([first.value] + rest.value)[1..] == rest.value;
      ExecFits(env, ctx, statements[0], frames, world, fuel);
      ExecHolds(env, ctx, statements[0], frames, world, fuel);
      match Ir.Exec(ctx, first.value, frames, world, fuel)
      case Normal(frames', w) => StatementsHold(env, ctx, statements[1..], frames', w, fuel);
      case _ =>
    }
  }

  // ----- methods -----

  /** A parameter is not constant. */
  lemma {:induction false} ParametersHold(env: Environment, parameters: seq<Ir.Field>, arguments: seq<Argument>)
    requires env.scopes != [] && env.scopes[|env.scopes| - 1] == map[] && CheckFields(env, parameters).ok
    requires (forall f :: f in parameters ==> ParameterAsRead(f)) && |arguments| == |parameters|
    ensures FrameHolds(CheckFields(env, parameters).scopes[|env.scopes| - 1],
      Ir.BindParameters(parameters, arguments))
  {
    hide Redeclared;
    if parameters != [] {
      var n := |parameters| - 1;
      ParametersHold(env, parameters[..n], arguments[..n]);
      assert parameters[n] in parameters;
    }
  }

  lemma {:induction false} MethodHolds(env: Environment, ctx: Ir.Context, m: Ir.Method, arguments: seq<Argument>,
                                       world: World, fuel: nat)
    requires |env.scopes| == 1 && env.loopDepth == 0 && MethodAsRead(m) && CheckMethod(env, m).1.ok
    requires Guarded(CheckMethod(env, m).0, ctx) && WorldFits(env.scopes[0], world) && WorldHolds(env.scopes[0], world)
    requires ArgumentsFit(SignatureOf(m).parameters, arguments)
    ensures CheckMethod(env, m).1.value.arguments == m.arguments
    ensures var r := Ir.RunMethod(ctx, CheckMethod(env, m).1.value, arguments, world, fuel);
      r.Some? ==> OutcomeHolds(env.scopes[0], r.value)
  {
    hide WorldFits, WorldHolds, CheckFields, CheckStatements, CallsFit, CallsHold, GlobalsFit, Ir.ExecAll, Ir.OpenScope,
      Ir.BindParameters, FrameFits, FrameHolds, ScalarParameters, StatementsAsRead, FieldsAsRead, Fits;
    var (env', checked) := CheckMethod(env, m);
    var inner := env'.(scopes := env.scopes + [map[]], fixed := FixedNames(env.policy, m));
    ParametersFit(inner, m.arguments, arguments);
    ParametersHold(inner, m.arguments, arguments);
    BelowKept(inner, m.arguments);
    var parameters := CheckFields(inner, m.arguments);
    var body := inner.(scopes := parameters.scopes);
    var bound := Ir.BindParameters(m.arguments, arguments);
    FieldsFit(body, m.body.fields, bound);
    FieldsHold(body, m.body.fields, bound);
    var fields := CheckFields(body, m.body.fields);
    var last := body.(scopes := fields.scopes);
    var frame := Ir.OpenScope(bound, fields.fields);
    assert last.scopes[..1] == env.scopes && last.scopes[0] == env.scopes[0] by {
      assert body.scopes[..1] == inner.scopes[..1] == env.scopes;
      assert last.scopes[0] == last.scopes[..1][0];
    }
    assert ScopesSettled(last.scopes);
    assert FramesFit(last.scopes, [frame]);
    assert FramesHold(last.scopes, [frame]);
    StatementsHold(last, ctx, m.body.statements, [frame], world, fuel);
    var m' := checked.value;
    assert m'.arguments == m.arguments && m'.body.fields == fields.fields;
    assert m'.body.statements == CheckStatements(last, m.body.statements).value;
    assert StatusHolds(last, Ir.ExecAll(ctx, m'.body.statements, [frame], world, fuel));
  }

  lemma BehaviourHolds(global: Environment, all: map<string, Signature>, ctx: Ir.Context, m: Ir.Method,
                       arguments: seq<Argument>, world: World)
    requires |global.scopes| == 1 && ScopeSettled(global.scopes[0]) && GlobalsFit(global.scopes[0], ctx.globals)
    requires CallsFit(global.scopes[0], ctx.call, all) && CallsHold(global.scopes[0], ctx.call, all)
    requires global.policy.plain && MainOk(all) && MethodChecked(global, all, m)
    requires |arguments| == |m.arguments| && ArgumentsFit(SignatureOf(m).parameters, arguments)
    requires WorldFits(global.scopes[0], world) && WorldHolds(global.scopes[0], world)
    ensures var r := MethodBehaviour(ctx, m, arguments, world); r.Some? ==> OutcomeHolds(global.scopes[0], r.value)
  {
    hide CheckMethod, MethodAsRead, WorldFits, WorldHolds, ScopeSettled, GlobalsFit, CallFits, CallHolds,
      ScalarParameters, OutcomeHolds;
    var e, m0 :| CheckedAs(global, all, e, m0, m);
    var env' := CheckMethod(e, m0).0;
    assert CallsFit(global.scopes[0], ctx.call, env'.methods);
    assert CallsHold(global.scopes[0], ctx.call, env'.methods);
    assert Guarded(env', ctx);
    SameSignature(e, m0);
    assert OutcomeHolds(global.scopes[0], Diverged) by { NoWorld(global.scopes[0]); }
    forall fuel: nat
      ensures var r := Ir.RunMethod(ctx, m, arguments, world, fuel);
        r.Some? ==> OutcomeHolds(global.scopes[0], r.value)
    {
      MethodHolds(e, ctx, m0, arguments, world, fuel);
    }
  }

  lemma NoWorld(globals: map<string, Ir.Field>)
    ensures OutcomeHolds(globals, Diverged)
  {
  }

  // ----- programs -----

  /** Before `main` sets the globals: zeroed memory, or memory in which they were set before. */
  ghost predicate Startable(globals: map<string, Ir.Field>, world: World) {
    forall id, i: nat :: id in globals && globals[id].constant && i < globals[id].length ==>
      Get(world.globals, Cell(id, i)) == 0 || Get(world.globals, Cell(id, i)) == Declared(globals[id], i)
  }

  predicate AsDeclared(f: Ir.Field) {
    forall i: nat :: i < f.length ==> Lowering.FieldValues(f)[i] == Declared(f, i)
  }

  lemma ElementStarted(globals: map<string, Ir.Field>, store: Store, f: Ir.Field, id: string, i: nat)
    requires id in globals && i < globals[id].length && AsDeclared(f)
    requires f.identifier in globals && globals[f.identifier] == f
    requires Get(store, Cell(id, i)) == 0 || Get(store, Cell(id, i)) == Declared(globals[id], i)
    ensures var v := Get(Programs.WithValues(store, f.identifier, Lowering.FieldValues(f)), Cell(id, i));
      if f.identifier == id then v == Declared(f, i) else v == Get(store, Cell(id, i))
  {
    hide Declared, Programs.WithValues;
    var values := Lowering.FieldValues(f);
    ValueOrBefore(store, f.identifier, values, Cell(id, i));
    if f.identifier == id {
      assert values[i] == Declared(f, i);
      if Get(store, Cell(id, i)) == 0 { MachineMethods.ValuesInitialized(store, f.identifier, values, i); }
    }
  }

  /** An element of a declaration among `fields` gets its value; others stay as they are. */
  lemma {:induction false} ElementStarts(globals: map<string, Ir.Field>, fields: seq<Ir.Field>, world: World,
                                         id: string, i: nat)
    requires GlobalsListed(globals, fields) && (forall f :: f in fields ==> AsDeclared(f))
    requires id in globals && i < globals[id].length
    requires Get(world.globals, Cell(id, i)) == 0 || Get(world.globals, Cell(id, i)) == Declared(globals[id], i)
    ensures var v := Get(Programs.WithGlobals(world.globals, GlobalDeclarations(fields)), Cell(id, i));
      if exists f :: f in fields && f.identifier == id then v == Declared(globals[id], i)
      else v == Get(world.globals, Cell(id, i))
  {
    hide Lowering.FieldValues, Programs.WithValues, Declared, AsDeclared, AllFit;
    if fields != [] {
      var n := |fields| - 1;
      var front, f := fields[..n], fields[n];
      ElementStarts(globals, front, world, id, i);
      assert GlobalDeclarations(front) == GlobalDeclarations(fields)[..n];
      ElementStarted(globals, Programs.WithGlobals(world.globals, GlobalDeclarations(front)), f, id, i);
      assert forall g :: g in fields ==> g in front || g == f;
    }
  }

  /** Every name of the table is one of the declarations. */
  lemma {:induction false} GlobalsCovered(env: Environment, fields: seq<Ir.Field>)
    requires env.scopes == [map[]] && FieldsAsRead(fields) && CheckFields(env, fields).ok && env.policy.plain
    ensures var r := CheckFields(env, fields);
      && (forall id :: id in r.scopes[0] ==> r.scopes[0][id] in r.fields && r.scopes[0][id].identifier == id)
      && forall f :: f in r.fields ==> AsDeclared(f)
  {
    hide DeclarationOk, FieldAsRead, Completed, AsDeclared, Redeclared;
    if fields != [] {
      var n := |fields| - 1;
      GlobalsCovered(env, fields[..n]);
      assert fields[n] in fields;
      CompletedKeeps(fields[n]);
      FieldDeclared(env.policy, fields[n]);
    }
  }

  lemma FieldDeclared(policy: Policy, f: Ir.Field)
    requires FieldAsRead(f) && DeclarationOk(policy, f) && policy.plain
    ensures AsDeclared(Completed(f))
  {
    FieldHolds(policy, f);
    var f' := Completed(f);
    forall i: nat | i < f'.length ensures Lowering.FieldValues(f')[i] == Declared(f', i) {
      if f'.initializer.Some? {
        assert f'.initializer.value[i] in f'.initializer.value;
        Lowering.LiteralToInt64Exact(f'.initializer.value[i]);
      }
    }
  }

  /** Setting the globals gives every element its declared value that was zero or had it before. */
  lemma GlobalStarts(p: Ir.Program, policy: Policy, world: World, id: string, i: nat)
    requires ProgramAsRead(p) && policy.plain && CheckProgram(p, policy).ok
    requires id in Globals(p, policy) && i < Globals(p, policy)[id].length
    requires Get(world.globals, Cell(id, i)) in {0, Declared(Globals(p, policy)[id], i)}
    ensures var declarations := GlobalDeclarations(CheckProgram(p, policy).value.fields);
      Get(Programs.WithGlobals(world.globals, declarations), Cell(id, i)) == Declared(Globals(p, policy)[id], i)
  {
    hide CheckMethods, CheckFields, FieldsAsRead, MethodAsRead, GlobalsListed, Declared, AsDeclared;
    var start := Environment(CheckImports(p.imports).0, [map[]], Ir.Void, 0, policy, {});
    GlobalsAreListed(start, p.fields);
    GlobalsCovered(start, p.fields);
    ElementStarts(Globals(p, policy), CheckProgram(p, policy).value.fields, world, id, i);
  }

  /** Entering `main` gives the constants their values. */
  lemma MainStarts(p: Ir.Program, policy: Policy, world: World)
    requires ProgramAsRead(p) && policy.plain && CheckProgram(p, policy).ok && Startable(Globals(p, policy), world)
    ensures var declarations := GlobalDeclarations(CheckProgram(p, policy).value.fields);
      WorldHolds(Globals(p, policy), world.(globals := Programs.WithGlobals(world.globals, declarations)))
  {
    hide ProgramAsRead, CheckProgram, Globals, Declared;
    forall id, i: nat | id in Globals(p, policy) && Globals(p, policy)[id].constant && i < Globals(p, policy)[id].length
      ensures var declarations := GlobalDeclarations(CheckProgram(p, policy).value.fields);
        Get(Programs.WithGlobals(world.globals, declarations), Cell(id, i)) == Declared(Globals(p, policy)[id], i)
    {
      GlobalStarts(p, policy, world, id, i);
    }
  }

  /** Imported functions leave the constants of the program alone. */
  ghost predicate ImportsHold(globals: map<string, Ir.Field>, imports: Oracle) {
    forall callee, arguments, w {:trigger imports(callee, arguments, w)} ::
      WorldFits(globals, w) && WorldHolds(globals, w) ==> OutcomeHolds(globals, imports(callee, arguments, w))
  }

  /** Any call, nested to any depth, in any accepted program: however it ends, every constant global still holds the
      value it was declared with. */
  lemma {:induction false} ConstantsAreKept(p: Ir.Program, policy: Policy, env: Programs.Environment, resets: bool,
                                            depth: nat, callee: string, arguments: seq<Argument>, world: World)
    requires ProgramAsRead(p) && policy.plain && CheckProgram(p, policy).ok
    requires ImportsKeep(Globals(p, policy), env.imports) && WorldFits(Globals(p, policy), world)
    requires ImportsHold(Globals(p, policy), env.imports)
    requires if resets && callee == "main" then Startable(Globals(p, policy), world)
      else WorldHolds(Globals(p, policy), world)
    requires callee in AllMethods(p, policy)
    requires var s := AllMethods(p, policy)[callee]; s.Own? ==> ArgumentsFit(s.parameters, arguments)
    ensures var r := SourceCall(CheckProgram(p, policy).value, env, resets, depth, callee, arguments, world);
      r.Some? ==> OutcomeHolds(Globals(p, policy), r.value)
    decreases depth
  {
    hide CheckMethods, GlobalEnvironment, WorldFits, WorldHolds, Startable, MethodChecked, ScopeSettled, GlobalsFit,
      MethodBehaviour, ProgramAsRead, CheckProgram;
    PartsChecked(p, policy);
    var globals, all, p' := Globals(p, policy), AllMethods(p, policy), CheckProgram(p, policy).value;
    var found := FindMethod(p'.methods, callee);
    if found.Some? && depth > 0 {
      var src := Ir.Context(GlobalInfos(p'.fields), SourceOracle(p', env, resets, depth - 1));
      forall name | name in all
        ensures CallFits(globals, src.call, name, all[name]) && CallHolds(globals, src.call, name, all[name])
      {
        forall a, w | WorldFits(globals, w) && (all[name].Own? ==> ArgumentsFit(all[name].parameters, a))
          ensures OutcomeFits(globals, if all[name].Own? then all[name].returnType else Ir.Int, src.call(name, a, w))
          ensures WorldHolds(globals, w) && src.call(name, a, w).Some?
            ==> OutcomeHolds(globals, src.call(name, a, w).value)
        {
          CallsAreSafe(p, policy, env, resets, depth - 1, name, a, w);
          if WorldHolds(globals, w) {
            HeldIsStartable(globals, w);
            ConstantsAreKept(p, policy, env, resets, depth - 1, name, a, w);
          }
        }
      }
      assert CallsFit(globals, src.call, all);
      assert CallsHold(globals, src.call, all);
      FoundIn(p'.methods, callee);
      StartFits(globals, p'.fields, world);
      if resets && callee == "main" { MainStarts(p, policy, world); }
      var entered := if resets then StartWorld(p', callee, world) else world;
      BehaviourFits(GlobalEnvironment(p, policy).0, all, src, found.value, arguments, entered);
      BehaviourHolds(GlobalEnvironment(p, policy).0, all, src, found.value, arguments, entered);
    }
  }

  lemma HeldIsStartable(globals: map<string, Ir.Field>, world: World)
    requires WorldHolds(globals, world)
    ensures Startable(globals, world)
  {
  }
}
