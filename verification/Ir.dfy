/** The structured intermediate representation and a direct, scoped semantics for it. */
module Ir {
  import opened Words
  import opened Worlds

  // ----- trees -----

  datatype Type = Void | Bool | Int

  datatype LiteralKind = BoolLiteral | CharLiteral | IntLiteral

  /** A magnitude and a sign; `value` is at most 2^63, and 2^63 only under a minus. */
  datatype Literal = Literal(kind: LiteralKind, negate: bool, value: nat)

  datatype BinaryOperator =
    | Or | And
    | EqualTo | NotEqualTo | LessThan | LessOrEqual | GreaterOrEqual | GreaterThan
    | Plus | Minus | Times | Over | Modulus

  datatype Expression =
    | Binary(op: BinaryOperator, left: Expression, right: Expression)
    | Not(operand: Expression)
    | Negate(operand: Expression)
    | Length(identifier: string, length: Word)
    | Invoke(call: MethodCall)
    | Constant(literal: Literal)
    | At(location: Location)

  datatype Location = Location(identifier: string, index: Option<Expression>)

  datatype MethodCall = MethodCall(identifier: string, arguments: seq<CallArgument>)

  datatype CallArgument = StringArgument(text: string) | ValueArgument(expression: Expression)

  datatype AssignOperator = Set | AddTo | SubtractFrom | MultiplyBy | DivideBy | ReduceBy | Increment | Decrement

  /** `x = e`, `x += e`, `x++`: an increment or decrement has no expression. */
  datatype Assignment = Assignment(location: Location, op: AssignOperator, expression: Option<Expression>)

  datatype ForUpdate = UpdateAssignment(assignment: Assignment) | UpdateCall(call: MethodCall)

  datatype Statement =
    | Assign(assignment: Assignment)
    | CallStatement(call: MethodCall)
    | If(condition: Expression, ifBlock: Block, elseBlock: Option<Block>)
    | For(initial: Assignment, condition: Expression, update: ForUpdate, body: Block)
    | While(condition: Expression, body: Block)
    | Return(value: Option<Expression>)
    | Break
    | Continue

  /** `length` is 1 for a scalar. `open` is an array declared with empty brackets, whose length is
      then that of its initializer; `braced` is an initializer in braces. */
  datatype Field = Field(baseType: Type, isArray: bool, constant: bool, identifier: string,
                         length: nat, initializer: Option<seq<Literal>>, open: bool, braced: bool)

  datatype Block = Block(fields: seq<Field>, statements: seq<Statement>)

  datatype Method = Method(returnType: Type, identifier: string, arguments: seq<Field>, body: Block)

  datatype Program = Program(imports: seq<string>, fields: seq<Field>, methods: seq<Method>)

  // ----- values -----

  predicate LiteralInRange(l: Literal) {
    if l.negate then l.value <= TWO_63 else l.value < TWO_63
  }

  /** The integer a literal denotes. */
  function LiteralValue(l: Literal): Word
    requires LiteralInRange(l)
  {
    if l.negate then -(l.value as int) else l.value
  }

  /** Declared the way the checker leaves a declaration: one length, an initializer that fills it. */
  predicate WellDeclared(f: Field) {
    && (!f.isArray ==> f.length == 1)
    && 0 < f.length < TWO_63
    && (f.initializer.Some? ==>
          |f.initializer.value| == f.length && forall l :: l in f.initializer.value ==> LiteralInRange(l))
  }

  /** What a field holds on entry to its scope. */
  function InitialValues(f: Field): (values: seq<Word>)
    requires WellDeclared(f)
    ensures |values| == f.length
  {
    seq(f.length, i requires 0 <= i < f.length =>
      if f.initializer.Some? then LiteralValue(f.initializer.value[i]) else 0)
  }

  datatype Variable = Variable(isArray: bool, values: seq<Word>)

  /** The variables of one scope. */
  type Frame = map<string, Variable>

  /** How a global is declared: its words live in the world. */
  datatype GlobalInfo = GlobalInfo(isArray: bool, length: nat)

  /** How a call behaves; `None` is a run that goes wrong. */
  type CallOracle = (string, seq<Argument>, World) -> Option<Outcome>

  datatype Context = Context(globals: map<string, GlobalInfo>, call: CallOracle)

  /** The innermost scope that declares `identifier`. */
  function Resolve(frames: seq<Frame>, identifier: string): (r: Option<nat>)
    ensures r.Some? ==> r.value < |frames| && identifier in frames[r.value]
    ensures r.Some? ==> forall k :: r.value < k < |frames| ==> identifier !in frames[k]
    ensures r.None? ==> forall k :: 0 <= k < |frames| ==> identifier !in frames[k]
  {
    if frames == [] then None
    else if identifier in frames[|frames| - 1] then Some(|frames| - 1)
    else Resolve(frames[..|frames| - 1], identifier)
  }

  datatype Binding = LocalBinding(level: nat, isArray: bool, length: nat) | GlobalBinding(isArray: bool, length: nat) |
      Unbound

  function Bound(ctx: Context, frames: seq<Frame>, identifier: string): Binding {
    match Resolve(frames, identifier)
    case Some(k) => LocalBinding(k, frames[k][identifier].isArray, |frames[k][identifier].values|)
    case None =>
      if identifier in ctx.globals then GlobalBinding(ctx.globals[identifier].isArray, ctx.globals[identifier].length)
      else Unbound
  }

  predicate InBounds(b: Binding, i: int) {
    !b.Unbound? && 0 <= i < b.length
  }

  function Fetch(ctx: Context, frames: seq<Frame>, world: World, identifier: string, i: nat): Word
    requires InBounds(Bound(ctx, frames, identifier), i)
  {
    var b := Bound(ctx, frames, identifier);
    if b.LocalBinding? then frames[b.level][identifier].values[i] else Get(world.globals, Cell(identifier, i))
  }

  function PutFrames(ctx: Context, frames: seq<Frame>, identifier: string, i: nat, v: Word): (frames': seq<Frame>)
    requires InBounds(Bound(ctx, frames, identifier), i)
    ensures |frames'| == |frames|
  {
    var b := Bound(ctx, frames, identifier);
    if b.LocalBinding? then
      var variable := frames[b.level][identifier];
      frames[b.level := frames[b.level][identifier := variable.(values := variable.values[i := v])]]
    else frames
  }

  function PutWorld(ctx: Context, frames: seq<Frame>, world: World, identifier: string, i: nat, v: Word): World
    requires InBounds(Bound(ctx, frames, identifier), i)
  {
    if Bound(ctx, frames, identifier).LocalBinding? then world
    else world.(globals := world.globals[Cell(identifier, i) := v])
  }

  // ----- expressions -----

  /** `Wrong`: a run the checker or the modelling assumptions rule out. */
  datatype Result = Value(word: Word, world: World) | Halt(outcome: Outcome) | Wrong

  datatype ListResult = Values(arguments: seq<Argument>, world: World) | HaltList(outcome: Outcome) | WrongList

  /** Operators that evaluate both sides. `None` is a divide error. */
  function Operate(op: BinaryOperator, l: Word, r: Word): Option<Word>
    requires op != Or && op != And
  {
    match op
    case EqualTo => Some(FromBool(l == r))
    case NotEqualTo => Some(FromBool(l != r))
    case LessThan => Some(FromBool(l < r))
    case LessOrEqual => Some(FromBool(l <= r))
    case GreaterOrEqual => Some(FromBool(l >= r))
    case GreaterThan => Some(FromBool(l > r))
    case Plus => Some(Wrap(l + r))
    case Minus => Some(Wrap(l - r))
    case Times => Some(Wrap(l * r))
    case Over => if DivisionTraps(l, r) then None else Some(Wrap(TruncatedQuotient(l, r)))
    case Modulus => if DivisionTraps(l, r) then None else Some(Wrap(TruncatedRemainder(l, r)))
  }

  predicate IsBool(w: Word) {
    w == 0 || w == 1
  }

  /** Left to right, with short circuit. A divide error traps; reading outside an array strays. */
  function Eval(ctx: Context, e: Expression, frames: seq<Frame>, world: World): Result
    decreases e
  {
    match e
    case Binary(op, l, r) => (
      match Eval(ctx, l, frames, world)
      case Value(lv, lw) =>
        if op == Or || op == And then
          if !IsBool(lv) then Wrong
          else if (op == Or && lv == 1) || (op == And && lv == 0) then Value(lv, lw)
          else
            match Eval(ctx, r, frames, lw)
            case Value(rv, rw) => if IsBool(rv) then Value(rv, rw) else Wrong
            case other => other
        else (
          match Eval(ctx, r, frames, lw)
          case Value(rv, rw) => (
            match Operate(op, lv, rv)
            case Some(v) => Value(v, rw)
            case None => Halt(Trapped))
          case other => other)
      case other => other)
    case Not(o) => (
      match Eval(ctx, o, frames, world)
      case Value(v, w) => if IsBool(v) then Value(1 - v, w) else Wrong
      case other => other)
    case Negate(o) => (
      match Eval(ctx, o, frames, world)
      case Value(v, w) => Value(Wrap(-(v as int)), w)
      case other => other)
    case Length(identifier, length) =>
      var b := Bound(ctx, frames, identifier);
      if !b.Unbound? && b.isArray && b.length == length then Value(length, world) else Wrong
    case Invoke(call) => Perform(ctx, call, frames, world)
    case Constant(l) => if LiteralInRange(l) then Value(LiteralValue(l), world) else Wrong
    case At(location) =>
      var b := Bound(ctx, frames, location.identifier);
      match location.index
      case None =>
        if InBounds(b, 0) && !b.isArray then Value(Fetch(ctx, frames, world, location.identifier, 0), world) else Wrong
      case Some(index) =>
        match Eval(ctx, index, frames, world)
        case Value(i, w) =>
          if b.Unbound? || !b.isArray then Wrong
          else if InBounds(b, i) then Value(Fetch(ctx, frames, w, location.identifier, i), w)
          else Halt(Strayed)
        case other => other
  }

  function Perform(ctx: Context, call: MethodCall, frames: seq<Frame>, world: World): Result
    decreases call
  {
    match EvalList(ctx, call.arguments, frames, world)
    case HaltList(o) => Halt(o)
    case WrongList => Wrong
    case Values(arguments, w) =>
      match ctx.call(call.identifier, arguments, w)
      case None => Wrong
      case Some(Returned(v, w')) => Value(v, w')
      case Some(o) => Halt(o)
  }

  function EvalList(ctx: Context, arguments: seq<CallArgument>, frames: seq<Frame>, world: World): ListResult
    decreases arguments
  {
    if arguments == [] then Values([], world)
    else
      match EvalCallArgument(ctx, arguments[0], frames, world)
      case Values(first, w) => (
        match EvalList(ctx, arguments[1..], frames, w)
        case Values(rest, w') => Values(first + rest, w')
        case other => other)
      case other => other
  }

  /** One argument, as a list of one. */
  function EvalCallArgument(ctx: Context, argument: CallArgument, frames: seq<Frame>, world: World): ListResult
    decreases argument
  {
    match argument
    case StringArgument(text) => Values([Address(text)], world)
    case ValueArgument(e) =>
      match Eval(ctx, e, frames, world)
      case Value(v, w) => Values([Number(v)], w)
      case Halt(o) => HaltList(o)
      case Wrong => WrongList
  }

  // ----- statements -----

  datatype Status =
    | Normal(frames: seq<Frame>, world: World)
    | Broke(frames: seq<Frame>, world: World)
    | Continued(frames: seq<Frame>, world: World)
    | Finished(value: Word, world: World)
    | Halted(outcome: Outcome)
    | Failed
    | OutOfFuel

  /** The operator a compound assignment applies. */
  function Compound(op: AssignOperator): BinaryOperator
    requires op != Set
  {
    match op
    case AddTo => Plus
    case SubtractFrom => Minus
    case MultiplyBy => Times
    case DivideBy => Over
    case ReduceBy => Modulus
    case Increment => Plus
    case Decrement => Minus
  }

  /** Index first, then its bounds check, then the right-hand side, and the old value last. A write
      out of bounds exits with -1. */
  function ExecAssignment(ctx: Context, a: Assignment, frames: seq<Frame>, world: World): Status {
    var id := a.location.identifier;
    var b := Bound(ctx, frames, id);
    if b.Unbound? then Failed
    else
      match a.location.index
      case None => if b.isArray || b.length != 1 then Failed else StoreResult(ctx, a, 0, frames, world)
      case Some(index) =>
        if !b.isArray then Failed
        else
          match Eval(ctx, index, frames, world)
          case Halt(o) => Halted(o)
          case Wrong => Failed
          case Value(i, w) => if InBounds(b, i) then StoreResult(ctx, a, i, frames, w) else Halted(Exited(-1, w))
  }

  /** The right-hand side, the operator and the store, once the element is known. */
  function StoreResult(ctx: Context, a: Assignment, i: nat, frames: seq<Frame>, world: World): Status
    requires InBounds(Bound(ctx, frames, a.location.identifier), i)
  {
    var id := a.location.identifier;
    var rhs := if a.expression.None? then Value(1, world) else Eval(ctx, a.expression.value, frames, world);
    match rhs
    case Halt(o) => Halted(o)
    case Wrong => Failed
    case Value(v, w) =>
      if a.op == Set then Normal(PutFrames(ctx, frames, id, i, v), PutWorld(ctx, frames, w, id, i, v))
      else
        match Operate(Compound(a.op), Fetch(ctx, frames, w, id, i), v)
        case None => Halted(Trapped)
        case Some(v') => Normal(PutFrames(ctx, frames, id, i, v'), PutWorld(ctx, frames, w, id, i, v'))
  }

  /** The state after element `i` of a variable was set to `v`. */
  function Stored(ctx: Context, identifier: string, i: nat, v: Word, frames: seq<Frame>, world: World): Status
    requires InBounds(Bound(ctx, frames, identifier), i)
  {
    Normal(PutFrames(ctx, frames, identifier, i, v), PutWorld(ctx, frames, world, identifier, i, v))
  }

  /** The location is element `i`, once its index was evaluated. */
  predicate Locates(ctx: Context, location: Location, i: nat, frames: seq<Frame>, world: World, after: World) {
    var b := Bound(ctx, frames, location.identifier);
    match location.index
    case None => !b.Unbound? && !b.isArray && b.length == 1 && i == 0 && after == world
    case Some(index) =>
      !b.Unbound? && b.isArray && i < b.length && i < TWO_63 && Eval(ctx, index, frames, world) == Value(i, after)
  }

  /** What each assignment stores: the right-hand side is `v`, the element held `u` when it was evaluated. A division
      stores the quotient rounded toward zero or the remainder, and traps exactly if there is none. */
  lemma AssignmentStores(ctx: Context, a: Assignment, i: nat, u: Word, v: Word, frames: seq<Frame>, world: World,
                         located: World, w: World, q: Word, m: Word)
    requires Locates(ctx, a.location, i, frames, world, located)
    requires if a.expression.Some? then Eval(ctx, a.expression.value, frames, located) == Value(v, w)
      else v == 1 && w == located
    requires u == Fetch(ctx, frames, w, a.location.identifier, i)
    ensures var id, result := a.location.identifier, ExecAssignment(ctx, a, frames, world);
      match a.op
      case Set => result == Stored(ctx, id, i, v, frames, w)
      case AddTo => result == Stored(ctx, id, i, Wrap(u + v), frames, w)
      case SubtractFrom => result == Stored(ctx, id, i, Wrap(u - v), frames, w)
      case MultiplyBy => result == Stored(ctx, id, i, Wrap(u * v), frames, w)
      case DivideBy =>
        && (Divided(u, v, q, m) ==> result == Stored(ctx, id, i, q, frames, w))
        && (result == Halted(Trapped) <==> v == 0 || (u == -TWO_63 && v == -1))
      case ReduceBy =>
        && (Divided(u, v, q, m) ==> result == Stored(ctx, id, i, m, frames, w))
        && (result == Halted(Trapped) <==> v == 0 || (u == -TWO_63 && v == -1))
      case Increment => a.expression.None? ==> result == Stored(ctx, id, i, Wrap(u + 1), frames, w)
      case Decrement => a.expression.None? ==> result == Stored(ctx, id, i, Wrap(u - 1), frames, w)
  {
    LocatedElement(ctx, a, i, frames, world, located);
    if a.op != Set { CompoundComputes(a.op, u, v, q, m); }
    hide Divided, PutFrames, PutWorld, Eval, Bound, Fetch, Operate, Compound, ExecAssignment, Wrap;
  }

  lemma LocatedElement(ctx: Context, a: Assignment, i: nat, frames: seq<Frame>, world: World, located: World)
    requires Locates(ctx, a.location, i, frames, world, located)
    ensures InBounds(Bound(ctx, frames, a.location.identifier), i)
    ensures ExecAssignment(ctx, a, frames, world) == StoreResult(ctx, a, i, frames, located)
  {
  }

  lemma CompoundComputes(op: AssignOperator, u: Word, v: Word, q: Word, m: Word)
    requires op != Set
    ensures var result := Operate(Compound(op), u, v);
      match op
      case AddTo => result == Some(Wrap(u + v))
      case SubtractFrom => result == Some(Wrap(u - v))
      case MultiplyBy => result == Some(Wrap(u * v))
      case DivideBy =>
        (Divided(u, v, q, m) ==> result == Some(q)) && (result == None <==> v == 0 || (u == -TWO_63 && v == -1))
      case ReduceBy =>
        (Divided(u, v, q, m) ==> result == Some(m)) && (result == None <==> v == 0 || (u == -TWO_63 && v == -1))
      case Increment => result == Some(Wrap(u + v))
      case Decrement => result == Some(Wrap(u - v))
  {
    if Divided(u, v, q, m) { DividedOnce(u, v, q, m); QuotientFits(u, v, q, m); }
    hide TruncatedQuotient, TruncatedRemainder, Divided;
  }

  function ExecCall(ctx: Context, call: MethodCall, frames: seq<Frame>, world: World): Status {
    match Perform(ctx, call, frames, world)
    case Value(_, w) => Normal(frames, w)
    case Halt(o) => Halted(o)
    case Wrong => Failed
  }

  function ExecUpdate(ctx: Context, u: ForUpdate, frames: seq<Frame>, world: World): Status {
    match u
    case UpdateAssignment(a) => ExecAssignment(ctx, a, frames, world)
    case UpdateCall(call) => ExecCall(ctx, call, frames, world)
  }

  /** `fuel` bounds the iterations of each loop. */
  function Exec(ctx: Context, s: Statement, frames: seq<Frame>, world: World, fuel: nat): Status
    decreases fuel, s, 0
  {
    match s
    case Assign(a) => ExecAssignment(ctx, a, frames, world)
    case CallStatement(call) => ExecCall(ctx, call, frames, world)
    case If(condition, ifBlock, elseBlock) => (
      match Eval(ctx, condition, frames, world)
      case Halt(o) => Halted(o)
      case Wrong => Failed
      case Value(v, w) =>
        if !IsBool(v) then Failed
        else if v == 1 then ExecBlock(ctx, ifBlock, frames, w, fuel)
        else if elseBlock.Some? then ExecBlock(ctx, elseBlock.value, frames, w, fuel)
        else Normal(frames, w))
    case For(initial, condition, update, body) => (
      match ExecAssignment(ctx, initial, frames, world)
      case Normal(frames', w) => Loop(ctx, condition, Some(update), body, frames', w, fuel)
      case other => other)
    case While(condition, body) => Loop(ctx, condition, None, body, frames, world, fuel)
    case Return(None) => Finished(0, world)
    case Return(Some(e)) => (
      match Eval(ctx, e, frames, world)
      case Halt(o) => Halted(o)
      case Wrong => Failed
      case Value(v, w) => Finished(v, w))
    case Break => Broke(frames, world)
    case Continue => Continued(frames, world)
  }

  /** `continue` still runs the update of a `for`. */
  function Loop(ctx: Context, condition: Expression, update: Option<ForUpdate>, body: Block,
                frames: seq<Frame>, world: World, fuel: nat): Status
    decreases fuel, body, 2
  {
    match Eval(ctx, condition, frames, world)
    case Halt(o) => Halted(o)
    case Wrong => Failed
    case Value(v, w) =>
      if !IsBool(v) then Failed
      else if v == 0 then Normal(frames, w)
      else if fuel == 0 then OutOfFuel
      else
        match ExecBlock(ctx, body, frames, w, fuel - 1)
        case Broke(frames', w') => Normal(frames', w')
        case Normal(frames', w') => NextRound(ctx, condition, update, body, frames', w', fuel)
        case Continued(frames', w') => NextRound(ctx, condition, update, body, frames', w', fuel)
        case other => other
  }

  function NextRound(ctx: Context, condition: Expression, update: Option<ForUpdate>, body: Block,
                     frames: seq<Frame>, world: World, fuel: nat): Status
    requires fuel > 0
    decreases fuel, body, 1
  {
    match update
    case None => Loop(ctx, condition, update, body, frames, world, fuel - 1)
    case Some(u) =>
      match ExecUpdate(ctx, u, frames, world)
      case Normal(frames', w) => Loop(ctx, condition, update, body, frames', w, fuel - 1)
      case other => other
  }

  /** A fresh scope: every field starts at its initial values, on every entry. */
  function OpenScope(frame: Frame, fields: seq<Field>): Frame {
    if fields == [] then frame
    else
      var f := fields[|fields| - 1];
      OpenScope(frame, fields[..|fields| - 1])
        [f.identifier := Variable(f.isArray, if WellDeclared(f) then InitialValues(f) else [])]
  }

  function CloseScope(r: Status): Status {
    match r
    case Normal(frames, w) => if frames == [] then Failed else Normal(frames[..|frames| - 1], w)
    case Broke(frames, w) => if frames == [] then Failed else Broke(frames[..|frames| - 1], w)
    case Continued(frames, w) => if frames == [] then Failed else Continued(frames[..|frames| - 1], w)
    case other => other
  }

  function ExecBlock(ctx: Context, b: Block, frames: seq<Frame>, world: World, fuel: nat): Status
    decreases fuel, b, 0
  {
    CloseScope(ExecAll(ctx, b.statements, frames + [OpenScope(map[], b.fields)], world, fuel))
  }

  function ExecAll(ctx: Context, statements: seq<Statement>, frames: seq<Frame>, world: World, fuel: nat): Status
    decreases fuel, statements, 0
  {
    if statements == [] then Normal(frames, world)
    else
      match Exec(ctx, statements[0], frames, world, fuel)
      case Normal(frames', w) => ExecAll(ctx, statements[1..], frames', w, fuel)
      case other => other
  }

  // ----- methods -----

  /** Arguments become the variables of the method's own scope; a string never gets here. */
  function BindParameters(parameters: seq<Field>, arguments: seq<Argument>): Frame
    requires |parameters| == |arguments|
  {
    if parameters == [] then map[]
    else
      var n := |parameters| - 1;
      var v := if arguments[n].Number? then arguments[n].value else 0;
      BindParameters(parameters[..n], arguments[..n])[parameters[n].identifier := Variable(false, [v])]
  }

  /** Falling off the end returns 0 from a void method and exits with -2 from any other. `None`: wrong. */
  function RunMethod(ctx: Context, m: Method, arguments: seq<Argument>, world: World, fuel: nat): Option<Outcome>
    requires |m.arguments| == |arguments|
  {
    var frame := OpenScope(BindParameters(m.arguments, arguments), m.body.fields);
    match ExecAll(ctx, m.body.statements, [frame], world, fuel)
    case Normal(_, w) => Some(if m.returnType == Void then Returned(0, w) else Exited(-2, w))
    case Finished(v, w) => Some(Returned(v, w))
    case Halted(o) => Some(o)
    case OutOfFuel => Some(Diverged)
    case _ => None
  }
}
