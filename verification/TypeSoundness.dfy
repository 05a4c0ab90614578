/** Accepted programs do not go wrong: what the checker's types promise, every run keeps. */
module TypeSoundness {
  import opened Words
  import opened Worlds
  import opened Names
  import opened Checker
  import opened AsRead
  import CheckerSoundness
  import Ir

  // ----- values fit types -----

  predicate Fits(t: Ir.Type, w: Word) {
    t == Ir.Bool ==> Ir.IsBool(w)
  }

  predicate AllFit(t: Ir.Type, values: seq<Word>) {
    forall i :: 0 <= i < |values| ==> Fits(t, values[i])
  }

  predicate VariableFits(f: Ir.Field, v: Ir.Variable) {
    v.isArray == f.isArray && |v.values| == f.length && AllFit(f.baseType, v.values)
  }

  ghost predicate FrameFits(scope: map<string, Ir.Field>, frame: Ir.Frame) {
    frame.Keys == scope.Keys && forall id :: id in scope ==> VariableFits(scope[id], frame[id])
  }

  /** The boolean globals are booleans. */
  ghost predicate WorldFits(globals: map<string, Ir.Field>, world: World) {
    forall id, i: nat :: id in globals && i < globals[id].length
      ==> Fits(globals[id].baseType, Get(world.globals, Cell(id, i)))
  }

  ghost predicate GlobalsFit(globals: map<string, Ir.Field>, infos: map<string, Ir.GlobalInfo>) {
    infos.Keys == globals.Keys && forall id :: id in globals ==>
      infos[id] == Ir.GlobalInfo(globals[id].isArray, globals[id].length)
  }

  /** As declarations are once they are checked. */
  predicate Settled(f: Ir.Field) {
    0 < f.length < TWO_63 && (!f.isArray ==> f.length == 1) && !f.open
  }

  ghost predicate ScopeSettled(scope: map<string, Ir.Field>) {
    forall id :: id in scope ==> Settled(scope[id])
  }

  ghost predicate ScopesSettled(scopes: Scopes) {
    scopes != [] && forall k :: 0 <= k < |scopes| ==> ScopeSettled(scopes[k])
  }

  ghost predicate FramesFit(scopes: Scopes, frames: seq<Ir.Frame>) {
    |scopes| == |frames| + 1 && forall k :: 0 <= k < |frames| ==> FrameFits(scopes[k + 1], frames[k])
  }

  predicate ArgumentsFit(parameters: seq<DataType>, arguments: seq<Argument>) {
    && |arguments| == |parameters|
    && forall i :: 0 <= i < |arguments| ==> arguments[i].Number? && Fits(parameters[i].base, arguments[i].value)
  }

  /** A call does not go wrong, and what comes back fits. */
  ghost predicate OutcomeFits(globals: map<string, Ir.Field>, t: Ir.Type, r: Option<Outcome>) {
    && r.Some?
    && (r.value.Returned? ==> WorldFits(globals, r.value.world) && Fits(t, r.value.value))
  }

  ghost predicate CallFits(globals: map<string, Ir.Field>, call: Ir.CallOracle, callee: string, signature: Signature) {
    forall arguments, w {:trigger call(callee, arguments, w)} :: WorldFits(globals, w) ==>
      match signature
      case Imported => OutcomeFits(globals, Ir.Int, call(callee, arguments, w))
      case Own(t, parameters) => ArgumentsFit(parameters, arguments) ==>
        OutcomeFits(globals, t, call(callee, arguments, w))
  }

  ghost predicate CallsFit(globals: map<string, Ir.Field>, call: Ir.CallOracle, methods: map<string, Signature>) {
    forall callee :: callee in methods ==> CallFits(globals, call, callee, methods[callee])
  }

  /** The context and the scopes a piece of the program is checked in. */
  ghost predicate WellTyped(env: Environment, ctx: Ir.Context) {
    && env.scopes != [] && ScopesSettled(env.scopes) && GlobalsFit(env.scopes[0], ctx.globals)
      && CallsFit(env.scopes[0], ctx.call, env.methods)
    && env.policy.plain
    && ScalarParameters(env.methods)
  }

  ghost predicate StateFits(env: Environment, frames: seq<Ir.Frame>, world: World)
    requires env.scopes != []
  {
    FramesFit(env.scopes, frames) && WorldFits(env.scopes[0], world)
  }

  // ----- variables -----

  /** An identifier is bound to what the checker found. */
  lemma {:induction false} BoundAsFound(scopes: Scopes, ctx: Ir.Context, frames: seq<Ir.Frame>, identifier: string)
    requires scopes != [] && GlobalsFit(scopes[0], ctx.globals) && FramesFit(scopes, frames)
    ensures match Find(scopes, identifier)
            case None => Ir.Bound(ctx, frames, identifier).Unbound?
            case Some(k) =>
              var f := scopes[k][identifier];
              Ir.Bound(ctx, frames, identifier) ==
                if k == 0 then Ir.GlobalBinding(f.isArray, f.length) else Ir.LocalBinding(k - 1, f.isArray, f.length)
  {
    ResolveAsFound(scopes, frames, identifier);
    var r := Ir.Resolve(frames, identifier);
    if r.Some? { assert FrameFits(scopes[r.value + 1], frames[r.value]); }
  }

  lemma {:induction false} ResolveAsFound(scopes: Scopes, frames: seq<Ir.Frame>, identifier: string)
    requires FramesFit(scopes, frames)
    ensures match Ir.Resolve(frames, identifier)
            case Some(k) => Find(scopes, identifier) == Some(k + 1)
            case None => Find(scopes, identifier) == if identifier in scopes[0] then Some(0) else None
  {
    forall k | 0 <= k < |frames| ensures identifier in scopes[k + 1] <==> identifier in frames[k] {
      assert FrameFits(scopes[k + 1], frames[k]);
    }
    hide Ir.Resolve, Find, FramesFit, FrameFits;
    match Ir.Resolve(frames, identifier)
    case Some(k) =>
      assert identifier in scopes[k + 1];
      forall j | k + 1 < j < |scopes| ensures identifier !in scopes[j] { assert identifier !in frames[j - 1]; }
    case None =>
      forall j | 0 < j < |scopes| ensures identifier !in scopes[j] { assert identifier !in frames[j - 1]; }
  }

  lemma FetchFits(env: Environment, ctx: Ir.Context, frames: seq<Ir.Frame>, world: World, identifier: string, i: nat)
    requires WellTyped(env, ctx) && StateFits(env, frames, world)
    requires Find(env.scopes, identifier).Some? && i < Found(env.scopes, identifier).value.length
    ensures Ir.InBounds(Ir.Bound(ctx, frames, identifier), i)
    ensures Fits(Found(env.scopes, identifier).value.baseType, Ir.Fetch(ctx, frames, world, identifier, i))
  {
    hide CallsFit, ScopesSettled, Fits;
    BoundAsFound(env.scopes, ctx, frames, identifier);
    var k := Find(env.scopes, identifier).value;
    if k > 0 {
      assert FrameFits(env.scopes[k], frames[k - 1]);
      assert VariableFits(env.scopes[k][identifier], frames[k - 1][identifier]);
    }
  }

  lemma PutFits(env: Environment, ctx: Ir.Context, frames: seq<Ir.Frame>, world: World, identifier: string, i: nat,
                v: Word)
    requires WellTyped(env, ctx) && StateFits(env, frames, world)
    requires Find(env.scopes, identifier).Some? && i < Found(env.scopes, identifier).value.length
    requires Fits(Found(env.scopes, identifier).value.baseType, v)
    ensures Ir.InBounds(Ir.Bound(ctx, frames, identifier), i)
    ensures StateFits(env, Ir.PutFrames(ctx, frames, identifier, i, v),
      Ir.PutWorld(ctx, frames, world, identifier, i, v))
  {
    BindingFound(env, ctx, frames, world, identifier);
    var k := Find(env.scopes, identifier).value;
    hide WellTyped, Fits, Find, FramesFit, WorldFits, Ir.Bound;
    if k > 0 {
      PutLocalFits(env.scopes, frames, k, identifier, i, v);
    } else {
      PutGlobalFits(env.scopes[0], world, identifier, i, v);
    }
  }

  lemma BindingFound(env: Environment, ctx: Ir.Context, frames: seq<Ir.Frame>, world: World, identifier: string)
    requires WellTyped(env, ctx) && StateFits(env, frames, world) && Find(env.scopes, identifier).Some?
    ensures var k := Find(env.scopes, identifier).value;
      var f := env.scopes[k][identifier];
      && |env.scopes| == |frames| + 1
      && Ir.Bound(ctx, frames, identifier) ==
           if k == 0 then Ir.GlobalBinding(f.isArray, f.length) else Ir.LocalBinding(k - 1, f.isArray, f.length)
  {
    hide CallsFit, ScopesSettled, WorldFits;
    BoundAsFound(env.scopes, ctx, frames, identifier);
  }

  lemma PutLocalFits(scopes: Scopes, frames: seq<Ir.Frame>, k: nat, identifier: string, i: nat, v: Word)
    requires FramesFit(scopes, frames) && 0 < k < |scopes| && identifier in scopes[k]
      && i < scopes[k][identifier].length
    requires Fits(scopes[k][identifier].baseType, v)
    ensures identifier in frames[k - 1] && i < |frames[k - 1][identifier].values|
    ensures var old_ := frames[k - 1][identifier];
      FramesFit(scopes, frames[k - 1 := frames[k - 1][identifier := old_.(values := old_.values[i := v])]])
  {
    hide Fits;
    assert FrameFits(scopes[k], frames[k - 1]);
    assert VariableFits(scopes[k][identifier], frames[k - 1][identifier]);
    var old_ := frames[k - 1][identifier];
    var changed := old_.(values := old_.values[i := v]);
    assert VariableFits(scopes[k][identifier], changed);
    hide VariableFits;
    var frames' := frames[k - 1 := frames[k - 1][identifier := changed]];
    forall j | 0 <= j < |frames'| ensures FrameFits(scopes[j + 1], frames'[j]) {
      assert FrameFits(scopes[j + 1], frames[j]);
    }
  }

  lemma PutGlobalFits(globals: map<string, Ir.Field>, world: World, identifier: string, i: nat, v: Word)
    requires WorldFits(globals, world) && identifier in globals && Fits(globals[identifier].baseType, v)
    ensures WorldFits(globals, world.(globals := world.globals[Cell(identifier, i) := v]))
  {
    hide Fits;
  }

  // ----- expressions -----

  ghost predicate ResultFits(globals: map<string, Ir.Field>, t: Ir.Type, r: Ir.Result) {
    match r
    case Value(v, w) => Fits(t, v) && WorldFits(globals, w)
    case Halt(o) => !o.Returned?
    case Wrong => false
  }

  lemma OperateFits(op: Ir.BinaryOperator, l: Word, r: Word)
    requires op != Ir.Or && op != Ir.And
    ensures Ir.Operate(op, l, r).Some? ==> Fits(ResultType(op).base, Ir.Operate(op, l, r).value)
  {
  }

  lemma LiteralFits(policy: Policy, l: Ir.Literal)
    requires LiteralAsRead(l) && LiteralOk(policy, l) && policy.plain
    ensures Ir.LiteralInRange(l) && Fits(LiteralType(l).base, Ir.LiteralValue(l))
  {
  }

  lemma {:induction false} EvalFits(env: Environment, ctx: Ir.Context, e: Ir.Expression, frames: seq<Ir.Frame>,
                                    world: World)
    requires WellTyped(env, ctx) && StateFits(env, frames, world)
    requires ExpressionAsRead(e) && CheckExpression(env, e).ok && !CheckExpression(env, e).dataType.isArray
    ensures ResultFits(env.scopes[0], CheckExpression(env, e).dataType.base,
      Ir.Eval(ctx, CheckExpression(env, e).expression, frames, world))
    decreases e, 1
  {
    hide WellTyped, FramesFit, WorldFits, CheckCall, CheckLocation, LiteralAsRead, LiteralOk, Ir.LiteralInRange,
      Ir.Operate, Ir.Bound;
    match e
    case Binary(op, l, r) => BinaryFits(env, ctx, op, l, r, frames, world);
    case Not(o) => EvalFits(env, ctx, o, frames, world);
    case Negate(o) => EvalFits(env, ctx, o, frames, world);
    case Length(id, _) => LengthFits(env, ctx, id, frames, world);
    case Invoke(call) => PerformFits(env, ctx, call, frames, world);
    case Constant(l) => LiteralFits(env.policy, l) by { assert env.policy.plain by { TypedPolicy(env, ctx); } }
    case At(location) => AtFits(env, ctx, location, frames, world);
  }

  lemma TypedPolicy(env: Environment, ctx: Ir.Context)
    requires WellTyped(env, ctx)
    ensures env.policy.plain
  {
  }

  /** `len` of an array is the length it was declared with. */
  lemma LengthFits(env: Environment, ctx: Ir.Context, id: string, frames: seq<Ir.Frame>, world: World)
    requires WellTyped(env, ctx) && StateFits(env, frames, world) && Found(env.scopes, id).Some?
      && Found(env.scopes, id).value.isArray
    ensures var f := Found(env.scopes, id).value;
      Ir.Eval(ctx, Ir.Length(id, KeptLength(f)), frames, world) == Ir.Value(f.length, world)
  {
    hide CallsFit, WorldFits;
    BoundAsFound(env.scopes, ctx, frames, id);
    var k := Find(env.scopes, id).value;
    assert ScopeSettled(env.scopes[k]);
    assert Settled(env.scopes[k][id]);
  }

  lemma {:induction false} BinaryFits(env: Environment, ctx: Ir.Context, op: Ir.BinaryOperator, l: Ir.Expression,
                                      r: Ir.Expression, frames: seq<Ir.Frame>, world: World)
    requires WellTyped(env, ctx) && StateFits(env, frames, world)
    requires ExpressionAsRead(l) && ExpressionAsRead(r) && CheckExpression(env, Ir.Binary(op, l, r)).ok
    ensures ResultFits(env.scopes[0], ResultType(op).base,
                       Ir.Eval(ctx, CheckExpression(env, Ir.Binary(op, l, r)).expression, frames, world))
    decreases Ir.Binary(op, l, r), 0
  {
    hide WellTyped, FramesFit, WorldFits, Ir.Operate;
    var left, right := CheckExpression(env, l), CheckExpression(env, r);
    assert !left.dataType.isArray && !right.dataType.isArray;
    EvalFits(env, ctx, l, frames, world);
    var first := Ir.Eval(ctx, left.expression, frames, world);
    if first.Value? {
      EvalFits(env, ctx, r, frames, first.world);
      if op != Ir.Or && op != Ir.And {
        var second := Ir.Eval(ctx, right.expression, frames, first.world);
        if second.Value? { OperateFits(op, first.word, second.word); }
      }
    }
  }

  lemma {:induction false} AtFits(env: Environment, ctx: Ir.Context, location: Ir.Location, frames: seq<Ir.Frame>,
                                  world: World)
    requires WellTyped(env, ctx) && StateFits(env, frames, world)
    requires LocationAsRead(location) && CheckLocation(env, location).ok
      && !CheckLocation(env, location).dataType.isArray
    ensures ResultFits(env.scopes[0], CheckLocation(env, location).dataType.base,
                       Ir.Eval(ctx, Ir.At(CheckLocation(env, location).location), frames, world))
    decreases location
  {
    var f, k := Found(env.scopes, location.identifier).value, Find(env.scopes, location.identifier).value;
    BindingSettled(env, ctx, frames, world, location.identifier);
    hide WellTyped, FramesFit, WorldFits, CheckExpression, Ir.Bound, Ir.Fetch, Fits;
    if location.index.None? {
      FetchFits(env, ctx, frames, world, location.identifier, 0);
    } else {
      EvalFits(env, ctx, location.index.value, frames, world);
      match Ir.Eval(ctx, CheckExpression(env, location.index.value).expression, frames, world)
      case Value(i, w) =>
        if 0 <= i < f.length { FetchFits(env, ctx, frames, w, location.identifier, i); }
      case _ =>
    }
  }

  lemma BindingSettled(env: Environment, ctx: Ir.Context, frames: seq<Ir.Frame>, world: World, identifier: string)
    requires WellTyped(env, ctx) && StateFits(env, frames, world) && Found(env.scopes, identifier).Some?
    ensures var f, b := Found(env.scopes, identifier).value, Ir.Bound(ctx, frames, identifier);
      Settled(f) && !b.Unbound? && b.isArray == f.isArray && b.length == f.length
  {
    hide CallsFit, WorldFits;
    BoundAsFound(env.scopes, ctx, frames, identifier);
    assert ScopeSettled(env.scopes[Find(env.scopes, identifier).value]);
  }

  lemma {:induction false} PerformFits(env: Environment, ctx: Ir.Context, call: Ir.MethodCall, frames: seq<Ir.Frame>,
                                       world: World)
    requires WellTyped(env, ctx) && StateFits(env, frames, world) && CallAsRead(call) && CheckCall(env, call).ok
    ensures ResultFits(env.scopes[0], CheckCall(env, call).returnType,
      Ir.Perform(ctx, CheckCall(env, call).call, frames, world))
    decreases call
  {
    hide FramesFit, WorldFits, CheckArguments, ScopesSettled, GlobalsFit, CallsFit, CallFits, Fits;
    var signature := env.methods[call.identifier];
    var parameters := if signature.Own? then Some(signature.parameters) else None;
    ArgumentsEvalFit(env, ctx, call.arguments, parameters, frames, world);
    match Ir.EvalList(ctx, CheckArguments(env, call.arguments, parameters).value, frames, world)
    case Values(arguments, w) => CallFitsHere(env, ctx, call.identifier, arguments, w);
    case _ =>
  }

  lemma CallFitsHere(env: Environment, ctx: Ir.Context, callee: string, arguments: seq<Argument>, w: World)
    requires env.scopes != [] && CallsFit(env.scopes[0], ctx.call, env.methods) && WorldFits(env.scopes[0], w)
    requires callee in env.methods
    requires env.methods[callee].Own? ==> ArgumentsFit(env.methods[callee].parameters, arguments)
    ensures OutcomeFits(env.scopes[0], if env.methods[callee].Own? then env.methods[callee].returnType else Ir.Int,
      ctx.call(callee, arguments, w))
  {
    hide WorldFits, ArgumentsFit, OutcomeFits;
    assert CallFits(env.scopes[0], ctx.call, callee, env.methods[callee]);
  }

  ghost predicate ListFits(globals: map<string, Ir.Field>, parameters: Option<seq<DataType>>, r: Ir.ListResult) {
    match r
    case Values(arguments, w) => WorldFits(globals, w)
      && (parameters.Some? ==> ArgumentsFit(parameters.value, arguments))
    case HaltList(o) => !o.Returned?
    case WrongList => false
  }

  lemma {:induction false} ArgumentsEvalFit(env: Environment, ctx: Ir.Context, arguments: seq<Ir.CallArgument>,
                                            parameters: Option<seq<DataType>>, frames: seq<Ir.Frame>, world: World)
    requires WellTyped(env, ctx) && StateFits(env, frames, world) && ArgumentsAsRead(arguments)
    requires parameters.Some? ==> |parameters.value| == |arguments| && forall t :: t in parameters.value ==> !t.isArray
    requires CheckArguments(env, arguments, parameters).ok
    ensures ListFits(env.scopes[0], parameters, Ir.EvalList(ctx, CheckArguments(env, arguments, parameters).value,
      frames, world))
    decreases arguments
  {
    hide WellTyped, FramesFit, WorldFits, CheckArgument, Fits, Ir.EvalCallArgument;
    if arguments != [] {
      var parameter := if parameters.Some? then Some(parameters.value[0]) else None;
      var more := if parameters.Some? then Some(parameters.value[1..]) else None;
      var first := CheckArgument(env, arguments[0], parameter);
      var rest := CheckArguments(env, arguments[1..], more);
      assert ([first.value] + rest.value)[1..] == rest.value;
      ArgumentEvalFits(env, ctx, arguments[0], parameter, frames, world);
      match Ir.EvalCallArgument(ctx, first.value, frames, world)
      case Values(_, w) => ArgumentsEvalFit(env, ctx, arguments[1..], more, frames, w);
      case _ =>
    }
  }

  lemma {:induction false} ArgumentEvalFits(env: Environment, ctx: Ir.Context, a: Ir.CallArgument,
                                            parameter: Option<DataType>, frames: seq<Ir.Frame>, world: World)
    requires WellTyped(env, ctx) && StateFits(env, frames, world) && ArgumentAsRead(a)
    requires (parameter.Some? ==> !parameter.value.isArray) && CheckArgument(env, a, parameter).ok
    ensures var r := Ir.EvalCallArgument(ctx, CheckArgument(env, a, parameter).value, frames, world);
      && ListFits(env.scopes[0], if parameter.Some? then Some([parameter.value]) else None, r)
      && (r.Values? ==> |r.arguments| == 1)
    decreases a
  {
    TypedPolicy(env, ctx);
    hide WellTyped, FramesFit, WorldFits, CheckExpression;
    if a.ValueArgument? { EvalFits(env, ctx, a.expression, frames, world); }
  }

  // ----- statements -----

  /** After a statement: where the run goes on, the state fits; where it ends, the value does. */
  ghost predicate StatusFits(env: Environment, s: Ir.Status)
    requires env.scopes != []
  {
    match s
    case Normal(frames, w) => StateFits(env, frames, w)
    case Broke(frames, w) => StateFits(env, frames, w) && env.loopDepth > 0
    case Continued(frames, w) => StateFits(env, frames, w) && env.loopDepth > 0
    case Finished(v, w) => WorldFits(env.scopes[0], w) && Fits(env.returnType, v)
    case Halted(o) => !o.Returned?
    case OutOfFuel => true
    case Failed => false
  }

  lemma {:induction false} AssignmentFits(env: Environment, ctx: Ir.Context, a: Ir.Assignment, frames: seq<Ir.Frame>,
                                          world: World)
    requires WellTyped(env, ctx) && StateFits(env, frames, world) && AssignmentAsRead(a) && CheckAssignment(env, a).ok
    ensures var r := Ir.ExecAssignment(ctx, CheckAssignment(env, a).value, frames, world);
      StatusFits(env, r) && (r.Normal? || r.Halted?)
  {
    var id := a.location.identifier;
    var at := CheckLocation(env, a.location);
    BindingSettled(env, ctx, frames, world, id);
    hide WellTyped, FramesFit, WorldFits, CheckExpression, Ir.Bound, Fits, Ir.StoreResult;
    if a.location.index.None? {
      StoreFits(env, ctx, a, 0, frames, world);
    } else {
      EvalFits(env, ctx, a.location.index.value, frames, world);
      match Ir.Eval(ctx, at.location.index.value, frames, world)
      case Value(i, w) =>
        if 0 <= i < Found(env.scopes, id).value.length { StoreFits(env, ctx, a, i, frames, w); }
      case _ =>
    }
  }

  lemma {:induction false} StoreFits(env: Environment, ctx: Ir.Context, a: Ir.Assignment, i: nat,
                                     frames: seq<Ir.Frame>, world: World)
    requires WellTyped(env, ctx) && StateFits(env, frames, world) && AssignmentAsRead(a) && CheckAssignment(env, a).ok
    requires i < Found(env.scopes, a.location.identifier).value.length
    ensures Ir.InBounds(Ir.Bound(ctx, frames, a.location.identifier), i)
    ensures var r := Ir.StoreResult(ctx, CheckAssignment(env, a).value, i, frames, world);
      StatusFits(env, r) && (r.Normal? || r.Halted?)
  {
    var id := a.location.identifier;
    hide WellTyped, FramesFit, WorldFits, CheckExpression, Ir.Bound, Ir.PutFrames, Ir.PutWorld, Ir.Fetch, Ir.Operate,
      Settled, FieldName, Found, Fits, ScopesSettled;
    BindingSettled(env, ctx, frames, world, id);
    if a.expression.None? {
      StoreValueFits(env, ctx, a, i, frames, world, 1);
    } else {
      EvalFits(env, ctx, a.expression.value, frames, world);
      match Ir.Eval(ctx, CheckExpression(env, a.expression.value).expression, frames, world)
      case Value(v, w) => StoreValueFits(env, ctx, a, i, frames, w, v);
      case _ =>
    }
  }

  /** What is stored has the type of what it is stored in. */
  lemma StoreValueFits(env: Environment, ctx: Ir.Context, a: Ir.Assignment, i: nat, frames: seq<Ir.Frame>,
                       world: World, v: Word)
    requires WellTyped(env, ctx) && StateFits(env, frames, world) && AssignmentAsRead(a) && CheckAssignment(env, a).ok
    requires i < Found(env.scopes, a.location.identifier).value.length
    requires a.op == Ir.Set ==> Fits(Found(env.scopes, a.location.identifier).value.baseType, v)
    ensures var id := a.location.identifier;
      && Ir.InBounds(Ir.Bound(ctx, frames, id), i)
      && (a.op == Ir.Set ==> StateFits(env, Ir.PutFrames(ctx, frames, id, i, v),
        Ir.PutWorld(ctx, frames, world, id, i, v)))
      && (a.op != Ir.Set ==>
            var r := Ir.Operate(Ir.Compound(a.op), Ir.Fetch(ctx, frames, world, id, i), v);
            r.Some? ==> StateFits(env, Ir.PutFrames(ctx, frames, id, i, r.value),
              Ir.PutWorld(ctx, frames, world, id, i, r.value)))
  {
    hide WellTyped, FramesFit, WorldFits, CheckExpression, Ir.Bound, Ir.PutFrames, Ir.PutWorld, Ir.Fetch, Ir.Operate;
    var id := a.location.identifier;
    FetchFits(env, ctx, frames, world, id, i);
    if a.op == Ir.Set {
      PutFits(env, ctx, frames, world, id, i, v);
    } else {
      var r := Ir.Operate(Ir.Compound(a.op), Ir.Fetch(ctx, frames, world, id, i), v);
      if r.Some? { PutFits(env, ctx, frames, world, id, i, r.value); }
    }
  }

  lemma UpdateFits(env: Environment, ctx: Ir.Context, u: Ir.ForUpdate, frames: seq<Ir.Frame>, world: World)
    requires WellTyped(env, ctx) && StateFits(env, frames, world) && UpdateAsRead(u) && CheckUpdate(env, u).ok
    ensures var r := Ir.ExecUpdate(ctx, CheckUpdate(env, u).value, frames, world);
      StatusFits(env, r) && (r.Normal? || r.Halted?)
  {
    hide WellTyped, FramesFit, WorldFits, CheckAssignment, CheckCall, Ir.ExecAssignment, Ir.Perform;
    match u
    case UpdateAssignment(a) => AssignmentFits(env, ctx, a, frames, world);
    case UpdateCall(call) => PerformFits(env, ctx, call, frames, world);
  }

  lemma ConditionFits(env: Environment, ctx: Ir.Context, e: Ir.Expression, frames: seq<Ir.Frame>, world: World)
    requires WellTyped(env, ctx) && StateFits(env, frames, world) && ExpressionAsRead(e) && CheckCondition(env, e).ok
    ensures ResultFits(env.scopes[0], Ir.Bool, Ir.Eval(ctx, CheckCondition(env, e).value, frames, world))
  {
    hide WellTyped, FramesFit, WorldFits, CheckExpression;
    EvalFits(env, ctx, e, frames, world);
  }

  lemma {:induction false} ExecFits(env: Environment, ctx: Ir.Context, s: Ir.Statement, frames: seq<Ir.Frame>,
                                    world: World, fuel: nat)
    requires WellTyped(env, ctx) && StateFits(env, frames, world) && StatementAsRead(s) && CheckStatement(env, s).ok
    ensures StatusFits(env, Ir.Exec(ctx, CheckStatement(env, s).value, frames, world, fuel))
    decreases fuel, s, 0
  {
    hide WellTyped, FramesFit, WorldFits, CheckAssignment, CheckCall, CheckCondition, CheckUpdate, CheckBlock,
      CheckExpression, Ir.ExecAssignment, Ir.ExecBlock, Ir.Loop, Ir.Perform, Ir.Eval;
    match s
    case Assign(a) => AssignmentFits(env, ctx, a, frames, world);
    case CallStatement(call) => PerformFits(env, ctx, call, frames, world);
    case If(c, ifBlock, elseBlock) =>
      ConditionFits(env, ctx, c, frames, world);
      var r := Ir.Eval(ctx, CheckCondition(env, c).value, frames, world);
      if r.Value? {
        if r.word == 1 {
          BlockFits(env, ctx, ifBlock, frames, r.world, fuel);
        } else if elseBlock.Some? {
          BlockFits(env, ctx, elseBlock.value, frames, r.world, fuel);
        }
      }
    case For(initial, c, u, body) =>
      LoopTyped(env, ctx);
      AssignmentFits(InLoop(env), ctx, initial, frames, world);
      var r := Ir.ExecAssignment(ctx, CheckAssignment(InLoop(env), initial).value, frames, world);
      if r.Normal? { LoopFits(env, ctx, c, Some(u), body, r.frames, r.world, fuel); }
    case While(c, body) => LoopFits(env, ctx, c, None, body, frames, world, fuel);
    case Return(value) =>
      if value.Some? { EvalFits(env, ctx, value.value, frames, world); }
    case Break =>
    case Continue =>
  }

  lemma LoopTyped(env: Environment, ctx: Ir.Context)
    requires WellTyped(env, ctx)
    ensures WellTyped(InLoop(env), ctx)
  {
    hide ScopesSettled, CallsFit, GlobalsFit;
  }

  function CheckedUpdate(env: Environment, u: Option<Ir.ForUpdate>): Option<Ir.ForUpdate> {
    if u.None? then None else Some(CheckUpdate(env, u.value).value)
  }

  /** A loop leaves its breaks and continues behind. */
  lemma {:induction false} LoopFits(env: Environment, ctx: Ir.Context, c: Ir.Expression, u: Option<Ir.ForUpdate>,
                                    body: Ir.Block, frames: seq<Ir.Frame>, world: World, fuel: nat)
    requires WellTyped(env, ctx) && StateFits(env, frames, world)
    requires ExpressionAsRead(c) && (u.Some? ==> UpdateAsRead(u.value)) && BlockAsRead(body)
    requires CheckCondition(InLoop(env), c).ok && (u.Some? ==> CheckUpdate(InLoop(env), u.value).ok)
      && CheckBlock(InLoop(env), body).ok
    ensures var r := Ir.Loop(ctx, CheckCondition(InLoop(env), c).value, CheckedUpdate(InLoop(env), u),
      CheckBlock(InLoop(env), body).value,
                             frames, world, fuel);
      StatusFits(env, r) && !r.Broke? && !r.Continued?
    decreases fuel, body, 1
  {
    hide WellTyped, FramesFit, WorldFits, CheckCondition, CheckUpdate, CheckBlock, Ir.ExecBlock, Ir.ExecUpdate, Ir.Eval;
    LoopTyped(env, ctx);
    ConditionFits(InLoop(env), ctx, c, frames, world);
    var condition, block := CheckCondition(InLoop(env), c).value, CheckBlock(InLoop(env), body).value;
    match Ir.Eval(ctx, condition, frames, world)
    case Value(v, w) =>
      if v != 0 && fuel > 0 {
        BlockFits(InLoop(env), ctx, body, frames, w, fuel - 1);
        var r := Ir.ExecBlock(ctx, block, frames, w, fuel - 1);
        if r.Normal? || r.Continued? {
          if u.None? {
            LoopFits(env, ctx, c, u, body, r.frames, r.world, fuel - 1);
          } else {
            UpdateFits(InLoop(env), ctx, u.value, r.frames, r.world);
            var r' := Ir.ExecUpdate(ctx, CheckUpdate(InLoop(env), u.value).value, r.frames, r.world);
            if r'.Normal? { LoopFits(env, ctx, c, u, body, r'.frames, r'.world, fuel - 1); }
          }
        }
      }
    case _ =>
  }

  lemma {:induction false} BlockFits(env: Environment, ctx: Ir.Context, b: Ir.Block, frames: seq<Ir.Frame>,
                                     world: World, fuel: nat)
    requires WellTyped(env, ctx) && StateFits(env, frames, world) && BlockAsRead(b) && CheckBlock(env, b).ok
    ensures StatusFits(env, Ir.ExecBlock(ctx, CheckBlock(env, b).value, frames, world, fuel))
    decreases fuel, b, 0
  {
    hide WorldFits, CheckFields, CheckStatements, CallsFit, GlobalsFit, Ir.ExecAll, Ir.OpenScope, FrameFits,
      ScalarParameters, StatementsAsRead, FieldsAsRead;
    var entered := env.(scopes := env.scopes + [map[]]);
    var declared := CheckFields(entered, b.fields);
    var inner := env.(scopes := declared.scopes);
    EmptyFits(env, frames);
    FieldsFit(entered, b.fields, map[]);
    var all := frames + [Ir.OpenScope(map[], declared.fields)];
    assert ScopesSettled(inner.scopes);
    assert FramesFit(inner.scopes, all);
    assert inner.scopes[0] == env.scopes[0];
    StatementsFit(inner, ctx, b.statements, all, world, fuel);
    assert inner.scopes[..|env.scopes|] == env.scopes;
    CloseFits(env, inner, Ir.ExecAll(ctx, CheckStatements(inner, b.statements).value, all, world, fuel));
  }

  lemma EmptyFits(env: Environment, frames: seq<Ir.Frame>)
    ensures FrameFits(map[], map[]) && ScopeSettled(map[])
  {
  }

  lemma CloseFits(env: Environment, inner: Environment, r: Ir.Status)
    requires env.scopes != [] && |inner.scopes| == |env.scopes| + 1 && inner.scopes[..|env.scopes|] == env.scopes
    requires inner.loopDepth == env.loopDepth && inner.returnType == env.returnType
    requires StatusFits(inner, r)
    ensures StatusFits(env, Ir.CloseScope(r))
  {
    hide WorldFits, FrameFits;
    assert inner.scopes[0] == env.scopes[0];
    assert forall k :: 0 <= k < |env.scopes| ==> inner.scopes[k] == env.scopes[k];
  }

  /** Declared fields have initial values of their types. */
  lemma {:induction false} FieldsFit(env: Environment, fields: seq<Ir.Field>, frame: Ir.Frame)
    requires env.scopes != [] && FieldsAsRead(fields) && CheckFields(env, fields).ok && env.policy.plain
    requires var scope := env.scopes[|env.scopes| - 1]; FrameFits(scope, frame) && ScopeSettled(scope)
    ensures var r := CheckFields(env, fields);
      && r.scopes[..|env.scopes| - 1] == env.scopes[..|env.scopes| - 1]
      && FrameFits(r.scopes[|env.scopes| - 1], Ir.OpenScope(frame, r.fields))
        && ScopeSettled(r.scopes[|env.scopes| - 1])
  {
    hide DeclarationOk, FieldAsRead, Ir.InitialValues, Ir.WellDeclared, Completed, Settled, VariableFits;
    if fields != [] {
      var front, f := fields[..|fields| - 1], fields[|fields| - 1];
      FieldsFit(env, front, frame);
      var r0, r := CheckFields(env, front), CheckFields(env, fields);
      assert f in fields;
      FieldFits(env.policy, f);
      CompletedKeeps(f);
      assert r.fields[..|r0.fields|] == r0.fields;
    }
  }

  lemma CompletedKeeps(f: Ir.Field)
    ensures Completed(f).identifier == f.identifier && Completed(f).isArray == f.isArray
  {
  }

  lemma FieldFits(policy: Policy, f: Ir.Field)
    requires FieldAsRead(f) && DeclarationOk(policy, f) && policy.plain
    ensures Ir.WellDeclared(Completed(f)) && Settled(Completed(f))
    ensures VariableFits(Completed(f), Ir.Variable(f.isArray, Ir.InitialValues(Completed(f))))
  {
    CheckerSoundness.DeclarationAccepted(policy, f);
    hide LiteralAsRead, LiteralOk, Ir.LiteralInRange;
    if f.initializer.Some? {
      var literals := f.initializer.value;
      forall i | 0 <= i < |literals| ensures Ir.LiteralInRange(literals[i])
        && Fits(f.baseType, Ir.LiteralValue(literals[i])) {
        assert literals[i] in literals;
        LiteralFits(policy, literals[i]);
      }
    }
  }

  lemma {:induction false} StatementsFit(env: Environment, ctx: Ir.Context, statements: seq<Ir.Statement>,
                                         frames: seq<Ir.Frame>, world: World, fuel: nat)
    requires WellTyped(env, ctx) && StateFits(env, frames, world) && StatementsAsRead(statements)
      && CheckStatements(env, statements).ok
    ensures StatusFits(env, Ir.ExecAll(ctx, CheckStatements(env, statements).value, frames, world, fuel))
    decreases fuel, statements, 0
  {
    hide WellTyped, FramesFit, WorldFits, CheckStatement, StatementAsRead, Ir.Exec;
    if statements != [] {
      var first, rest := CheckStatement(env, statements[0]), CheckStatements(env, statements[1..]);
      assert ([first.value] + rest.value)[1..] == rest.value;
      ExecFits(env, ctx, statements[0], frames, world, fuel);
      match Ir.Exec(ctx, first.value, frames, world, fuel)
      case Normal(frames', w) => StatementsFit(env, ctx, statements[1..], frames', w, fuel);
      case _ =>
    }
  }
}
