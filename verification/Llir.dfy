/** The low-level intermediate representation: blocks of assignments ending in a terminal, and
    what it means to run them. Block pointers are block ids. */
module Llir {
  import opened Words
  import opened Worlds
  import Names

  type BlockId = nat

  datatype Operand = Field(name: string) | Literal(value: Word) | Text(text: string)

  datatype UnaryOperator = Move | Negate | Not

  datatype BinaryOperator =
    | Add | Subtract | Multiply | Divide | Modulo
    | Greater | GreaterEqual | Less | LessEqual | Equal | NotEqual

  datatype Assignment =
    | Unary(unaryOp: UnaryOperator, destination: string, source: Operand)
    | Binary(binaryOp: BinaryOperator, destination: string, left: Operand, right: Operand)
    | ArrayUpdate(destination: string, updateIndex: Operand, updateValue: Operand)
    | ArrayAccess(destination: string, accessIndex: Operand, accessArray: string)
    | Call(destination: string, callee: string, arguments: seq<Operand>)

  datatype Comparison =
    | IfEqual | IfNotEqual | IfLess | IfLessEqual | IfGreater | IfGreaterEqual

  /** A branch goes to `falseBlock` when its comparison HOLDS and falls through to `trueBlock`
      when it does not. */
  datatype Terminal =
    | Unknown
    | Branch(comparison: Comparison, isUnsigned: bool, left: Operand, right: Operand,
             trueBlock: BlockId, falseBlock: BlockId)
    | Jump(target: BlockId)
    | Return(source: Operand)
    | Exit(code: Word)

  datatype FieldDeclaration = FieldDeclaration(identifier: string, isArray: bool, values: seq<Word>)

  datatype Block = Block(fields: seq<FieldDeclaration>, assignments: seq<Assignment>, terminal: Terminal)

  /** A method body: the layout order of its blocks, the blocks themselves, and each block's
      predecessor list. */
  datatype Graph = Graph(order: seq<BlockId>, blocks: map<BlockId, Block>,
                         predecessors: map<BlockId, seq<BlockId>>)

  datatype Position = Position(block: BlockId, index: nat)

  function Successors(t: Terminal): seq<BlockId> {
    match t
    case Branch(_, _, _, _, trueBlock, falseBlock) => [trueBlock, falseBlock]
    case Jump(target) => [target]
    case _ => []
  }

  /** Every terminal is set and stays inside the method. */
  ghost predicate Closed(g: Graph) {
    forall b :: b in g.blocks ==>
      && !g.blocks[b].terminal.Unknown?
      && forall t :: t in Successors(g.blocks[b].terminal) ==> t in g.blocks
  }

  ghost predicate IsEdge(g: Graph, b: BlockId, t: BlockId) {
    b in g.blocks && t in Successors(g.blocks[b].terminal)
  }

  /** Predecessor lists name exactly the sources of edges. */
  ghost predicate PredecessorsAgree(g: Graph) {
    && g.predecessors.Keys == g.blocks.Keys
    && forall t, b :: t in g.blocks ==> (b in g.predecessors[t] <==> IsEdge(g, b, t))
  }

  ghost predicate WellFormed(g: Graph) {
    && |g.order| > 0
    && (forall b :: b in g.order <==> b in g.blocks)
    && Closed(g)
    && PredecessorsAgree(g)
  }

  /** Each block is laid out once, a branch right before the block it falls through to. */
  ghost predicate FallsThrough(g: Graph) {
    && (forall i, j :: 0 <= i < j < |g.order| ==> g.order[i] != g.order[j])
    && forall i :: 0 <= i < |g.order| && g.order[i] in g.blocks && g.blocks[g.order[i]].terminal.Branch? ==>
         i + 1 < |g.order| && g.order[i + 1] == g.blocks[g.order[i]].terminal.trueBlock
  }

  function Entry(g: Graph): BlockId
    requires |g.order| > 0
  {
    g.order[0]
  }

  predicate Valid(g: Graph, u: Position) {
    u.block in g.blocks && u.index <= |g.blocks[u.block].assignments|
  }

  // ----- running -----

  /** The names that live in the world, how long each array is, and what calls do. */
  datatype Context = Context(globals: set<string>, lengths: map<string, nat>, call: Oracle)

  datatype State = State(locals: Store, world: World)

  datatype Effect = Next(state: State) | Stop(outcome: Outcome)

  /** Global names are the ones the optimizer takes for global. */
  ghost predicate GlobalsLookGlobal(ctx: Context) {
    forall n :: n in ctx.globals ==> Names.LooksGlobal(n)
  }

  function Read(ctx: Context, st: State, name: string, index: int): Word {
    if name in ctx.globals then Get(st.world.globals, Cell(name, index))
    else Get(st.locals, Cell(name, index))
  }

  function Write(ctx: Context, st: State, name: string, index: int, v: Word): State {
    if name in ctx.globals then st.(world := st.world.(globals := st.world.globals[Cell(name, index) := v]))
    else st.(locals := st.locals[Cell(name, index) := v])
  }

  /** A string operand only ever occurs as a call argument; anywhere else it reads as 0. */
  function Eval(ctx: Context, st: State, o: Operand): Word {
    match o
    case Field(name) => Read(ctx, st, name, 0)
    case Literal(value) => value
    case Text(_) => 0
  }

  function EvalArgument(ctx: Context, st: State, o: Operand): Argument {
    match o
    case Text(text) => Address(text)
    case _ => Number(Eval(ctx, st, o))
  }

  function EvalArguments(ctx: Context, st: State, os: seq<Operand>): seq<Argument> {
    seq(|os|, i requires 0 <= i < |os| => EvalArgument(ctx, st, os[i]))
  }

  function ApplyUnary(op: UnaryOperator, v: Word): Word {
    match op
    case Move => v
    case Negate => Wrap(-(v as int))
    case Not => FromBool(v == 0)
  }

  /** `None` is the processor's divide error. */
  function ApplyBinary(op: BinaryOperator, l: Word, r: Word): Option<Word> {
    match op
    case Add => Some(Wrap(l + r))
    case Subtract => Some(Wrap(l - r))
    case Multiply => Some(Wrap(l * r))
    case Divide => if DivisionTraps(l, r) then None else Some(Wrap(TruncatedQuotient(l, r)))
    case Modulo => if DivisionTraps(l, r) then None else Some(Wrap(TruncatedRemainder(l, r)))
    case Greater => Some(FromBool(l > r))
    case GreaterEqual => Some(FromBool(l >= r))
    case Less => Some(FromBool(l < r))
    case LessEqual => Some(FromBool(l <= r))
    case Equal => Some(FromBool(l == r))
    case NotEqual => Some(FromBool(l != r))
  }

  /** `v` is what the operator makes of `l` and `r` in 64-bit arithmetic. A division whose quotient no
      word holds makes nothing. */
  ghost predicate Computes(op: BinaryOperator, l: Word, r: Word, v: Word) {
    match op
    case Add => (v - (l + r)) % TWO_64 == 0
    case Subtract => (v - (l - r)) % TWO_64 == 0
    case Multiply => (v - l * r) % TWO_64 == 0
    case Divide => exists m :: Divided(l, r, v, m)
    case Modulo => exists q: Word :: Divided(l, r, q, v)
    case Greater => v == if l > r then 1 else 0
    case GreaterEqual => v == if l >= r then 1 else 0
    case Less => v == if l < r then 1 else 0
    case LessEqual => v == if l <= r then 1 else 0
    case Equal => v == if l == r then 1 else 0
    case NotEqual => v == if l != r then 1 else 0
  }

  ghost predicate ComputesUnary(op: UnaryOperator, v: Word, r: Word) {
    match op
    case Move => r == v
    case Negate => (r + v) % TWO_64 == 0
    case Not => r == if v == 0 then 1 else 0
  }

  lemma ApplyBinaryComputes(op: BinaryOperator, l: Word, r: Word, v: Word)
    ensures ApplyBinary(op, l, r) == Some(v) <==> Computes(op, l, r, v)
  {
    if op == Divide || op == Modulo {
      TrapsExactly(l, r);
      if r != 0 { TruncationDivides(l, r); QuotientFits(l, r, TruncatedQuotient(l, r), TruncatedRemainder(l, r)); }
      hide TruncatedQuotient, TruncatedRemainder, Divided;
      forall q: Word, m | Divided(l, r, q, m)
        ensures r != 0 && q == TruncatedQuotient(l, r) && m == TruncatedRemainder(l, r)
      {
        DividedOnce(l, r, q, m);
      }
    } else {
      hide DivisionTraps, TruncatedQuotient, TruncatedRemainder;
      WrapOnce(l + r, v);
      WrapOnce(l - r, v);
      WrapOnce(l * r, v);
      hide Wrap;
    }
  }

  lemma ApplyUnaryComputes(op: UnaryOperator, v: Word, r: Word)
    ensures ApplyUnary(op, v) == r <==> ComputesUnary(op, v, r)
  {
    WrapOnce(-(v as int), r);
  }

  lemma WrapOnce(x: int, v: Word)
    ensures Wrap(x) == v <==> (v - x) % TWO_64 == 0
  {
  }

  predicate Compare(c: Comparison, l: int, r: int) {
    match c
    case IfEqual => l == r
    case IfNotEqual => l != r
    case IfLess => l < r
    case IfLessEqual => l <= r
    case IfGreater => l > r
    case IfGreaterEqual => l >= r
  }

  predicate Holds(c: Comparison, isUnsigned: bool, l: Word, r: Word) {
    if isUnsigned then Compare(c, Unsigned(l), Unsigned(r)) else Compare(c, l, r)
  }

  predicate InRange(ctx: Context, name: string, i: int) {
    name in ctx.lengths && 0 <= i < ctx.lengths[name]
  }

  /** Reaching outside an array is not a behaviour of the program: it counts as a trap. */
  function Exec(ctx: Context, a: Assignment, st: State): Effect {
    match a
    case Unary(op, d, s) => Next(Write(ctx, st, d, 0, ApplyUnary(op, Eval(ctx, st, s))))
    case Binary(op, d, l, r) => (
      match ApplyBinary(op, Eval(ctx, st, l), Eval(ctx, st, r))
      case None => Stop(Trapped)
      case Some(v) => Next(Write(ctx, st, d, 0, v)))
    case ArrayUpdate(d, i, v) =>
      if InRange(ctx, d, Eval(ctx, st, i)) then Next(Write(ctx, st, d, Eval(ctx, st, i), Eval(ctx, st, v)))
      else Stop(Trapped)
    case ArrayAccess(d, i, a) =>
      if InRange(ctx, a, Eval(ctx, st, i)) then Next(Write(ctx, st, d, 0, Read(ctx, st, a, Eval(ctx, st, i))))
      else Stop(Trapped)
    case Call(d, callee, arguments) => (
      match ctx.call(callee, EvalArguments(ctx, st, arguments), st.world)
      case Returned(v, w) => Next(Write(ctx, st.(world := w), d, 0, v))
      case o => Stop(o))
  }

  /** The block a branch selects. */
  function Chosen(ctx: Context, t: Terminal, st: State): BlockId
    requires t.Branch?
  {
    if Holds(t.comparison, t.isUnsigned, Eval(ctx, st, t.left), Eval(ctx, st, t.right))
    then t.falseBlock else t.trueBlock
  }

  /** Runs from assignment `i` of block `b`; `fuel` bounds the number of block transfers. */
  ghost function RunFrom(ctx: Context, g: Graph, b: BlockId, i: nat, st: State, fuel: nat): Outcome
    requires Closed(g) && b in g.blocks && i <= |g.blocks[b].assignments|
    decreases fuel, |g.blocks[b].assignments| - i
  {
    var block := g.blocks[b];
    if i < |block.assignments| then
      match Exec(ctx, block.assignments[i], st)
      case Next(st') => RunFrom(ctx, g, b, i + 1, st', fuel)
      case Stop(o) => o
    else
      match block.terminal
      case Jump(t) => if fuel == 0 then Diverged else RunFrom(ctx, g, t, 0, st, fuel - 1)
      case Branch(_, _, _, _, _, _) =>
        if fuel == 0 then Diverged else RunFrom(ctx, g, Chosen(ctx, block.terminal, st), 0, st, fuel - 1)
      case Return(o) => Returned(Eval(ctx, st, o), st.world)
      case Exit(code) => Exited(code, st.world)
      case Unknown => Trapped
  }

  /** The blocks that run enters after `b`, in order. */
  ghost function Visited(ctx: Context, g: Graph, b: BlockId, i: nat, st: State, fuel: nat): seq<BlockId>
    requires Closed(g) && b in g.blocks && i <= |g.blocks[b].assignments|
    decreases fuel, |g.blocks[b].assignments| - i
  {
    var block := g.blocks[b];
    if i < |block.assignments| then
      match Exec(ctx, block.assignments[i], st)
      case Next(st') => Visited(ctx, g, b, i + 1, st', fuel)
      case Stop(_) => []
    else if fuel == 0 || Successors(block.terminal) == [] then []
    else
      var next := if block.terminal.Jump? then block.terminal.target else Chosen(ctx, block.terminal, st);
      [next] + Visited(ctx, g, next, 0, st, fuel - 1)
  }

  ghost function Run(ctx: Context, g: Graph, st: State, fuel: nat): Outcome
    requires WellFormed(g)
  {
    RunFrom(ctx, g, Entry(g), 0, st, fuel)
  }

  /** More fuel never changes an outcome that was reached. */
  lemma {:induction false} FuelMonotone(ctx: Context, g: Graph, b: BlockId, i: nat, st: State, fuel: nat, more: nat)
    requires Closed(g) && b in g.blocks && i <= |g.blocks[b].assignments|
    requires fuel <= more
    requires RunFrom(ctx, g, b, i, st, fuel) != Diverged
    ensures RunFrom(ctx, g, b, i, st, more) == RunFrom(ctx, g, b, i, st, fuel)
    decreases fuel, |g.blocks[b].assignments| - i
  {
    var block := g.blocks[b];
    if i < |block.assignments| {
      match Exec(ctx, block.assignments[i], st)
      case Next(st') => FuelMonotone(ctx, g, b, i + 1, st', fuel, more);
      case Stop(_) =>
    } else {
      match block.terminal
      case Jump(t) => FuelMonotone(ctx, g, t, 0, st, fuel - 1, more - 1);
      case Branch(_, _, _, _, _, _) =>
        FuelMonotone(ctx, g, Chosen(ctx, block.terminal, st), 0, st, fuel - 1, more - 1);
      case _ =>
    }
  }

  ghost predicate Ends(ctx: Context, g: Graph, st: State, fuel: nat)
    requires WellFormed(g)
  {
    Run(ctx, g, st, fuel) != Diverged
  }

  /** What a method body does when it is given all the time it needs. */
  ghost function Behaviour(ctx: Context, g: Graph, st: State): Outcome
    requires WellFormed(g)
  {
    if exists fuel: nat :: Ends(ctx, g, st, fuel) then
      var fuel: nat :| Ends(ctx, g, st, fuel);
      Run(ctx, g, st, fuel)
    else
      Diverged
  }

  /** The behaviour is the outcome of any run that ends. */
  lemma BehaviourIs(ctx: Context, g: Graph, st: State, fuel: nat)
    requires WellFormed(g) && Ends(ctx, g, st, fuel)
    ensures Behaviour(ctx, g, st) == Run(ctx, g, st, fuel)
  {
    var other: nat :| Ends(ctx, g, st, other) && Behaviour(ctx, g, st) == Run(ctx, g, st, other);
    assert Ends(ctx, g, st, other);
    if other <= fuel {
      FuelMonotone(ctx, g, Entry(g), 0, st, other, fuel);
    } else {
      FuelMonotone(ctx, g, Entry(g), 0, st, fuel, other);
    }
  }
}
