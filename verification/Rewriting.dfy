/** Replacing one operand by the value every reaching definition moved into it, and why no run can
    tell: the argument shared by constant folding and copy propagation. */
module Rewriting {
  import opened Words
  import opened Worlds
  import opened Llir
  import opened ReachingDefinitions
  import Names

  // ----- operand slots -----

  /** The operands an assignment reads, in the order the passes visit them. */
  function Operands(a: Assignment): seq<Operand> {
    match a
    case Unary(_, _, s) => [s]
    case Binary(_, _, l, r) => [l, r]
    case ArrayUpdate(_, i, v) => [i, v]
    case ArrayAccess(_, i, _) => [i]
    case Call(_, _, arguments) => arguments
  }

  function WithOperand(a: Assignment, k: nat, o: Operand): (a': Assignment)
    requires k < |Operands(a)|
    ensures Operands(a') == Operands(a)[k := o] && SameNames(a, a')
  {
    match a
    case Unary(_, _, _) => a.(source := o)
    case Binary(_, _, _, _) => if k == 0 then a.(left := o) else a.(right := o)
    case ArrayUpdate(_, _, _) => if k == 0 then a.(updateIndex := o) else a.(updateValue := o)
    case ArrayAccess(_, _, _) => a.(accessIndex := o)
    case Call(_, _, arguments) => a.(arguments := arguments[k := o])
  }

  function TerminalOperands(t: Terminal): seq<Operand> {
    match t
    case Branch(_, _, l, r, _, _) => [l, r]
    case Return(s) => [s]
    case _ => []
  }

  function WithTerminalOperand(t: Terminal, k: nat, o: Operand): (t': Terminal)
    requires k < |TerminalOperands(t)|
    ensures TerminalOperands(t') == TerminalOperands(t)[k := o]
    ensures Successors(t') == Successors(t) && !t'.Unknown?
  {
    match t
    case Branch(_, _, _, _, _, _) => if k == 0 then t.(left := o) else t.(right := o)
    case Return(_) => Return(o)
  }

  /** The operands read at a point; the point after the last assignment is the terminal. */
  function OperandsAt(g: Graph, u: Position): seq<Operand>
    requires Valid(g, u)
  {
    if u.index < Length(g, u.block) then Operands(At(g, u)) else TerminalOperands(g.blocks[u.block].terminal)
  }

  function SetAssignment(g: Graph, u: Position, a: Assignment): Graph
    requires u.block in g.blocks && u.index < Length(g, u.block)
  {
    var block := g.blocks[u.block];
    g.(blocks := g.blocks[u.block := block.(assignments := block.assignments[u.index := a])])
  }

  function SetTerminal(g: Graph, b: BlockId, t: Terminal): Graph
    requires b in g.blocks
  {
    g.(blocks := g.blocks[b := g.blocks[b].(terminal := t)])
  }

  function SetOperand(g: Graph, u: Position, k: nat, o: Operand): Graph
    requires Valid(g, u) && k < |OperandsAt(g, u)|
  {
    if u.index < Length(g, u.block) then SetAssignment(g, u, WithOperand(At(g, u), k, o))
    else SetTerminal(g, u.block, WithTerminalOperand(g.blocks[u.block].terminal, k, o))
  }

  // ----- graphs that differ only in what they read -----

  /** Same name written and, for an array read, same array. */
  predicate SameNames(a: Assignment, a': Assignment) {
    && a'.destination == a.destination
    && a'.ArrayAccess? == a.ArrayAccess?
    && (a.ArrayAccess? ==> a'.accessArray == a.accessArray)
  }

  /** Same blocks, edges and written names. */
  ghost predicate SameShape(g: Graph, g': Graph) {
    && g.order == g'.order && g.predecessors == g'.predecessors && g.blocks.Keys == g'.blocks.Keys
    && forall b :: b in g.blocks ==>
         && g'.blocks[b].fields == g.blocks[b].fields
         && Length(g', b) == Length(g, b)
         && (forall i :: 0 <= i < Length(g, b) ==>
               SameNames(g.blocks[b].assignments[i], g'.blocks[b].assignments[i]))
         && Successors(g'.blocks[b].terminal) == Successors(g.blocks[b].terminal)
         && g'.blocks[b].terminal.Unknown? == g.blocks[b].terminal.Unknown?
  }

  lemma SameShapeReflexive(g: Graph)
    ensures SameShape(g, g)
  {
  }

  lemma SameShapeTransitive(g0: Graph, g1: Graph, g2: Graph)
    requires SameShape(g0, g1) && SameShape(g1, g2)
    ensures SameShape(g0, g2) && g2.order == g0.order && g2.blocks.Keys == g0.blocks.Keys
  {
    forall b | b in g0.blocks ensures
         && g2.blocks[b].fields == g0.blocks[b].fields
         && Length(g2, b) == Length(g0, b)
         && (forall i :: 0 <= i < Length(g0, b) ==>
               SameNames(g0.blocks[b].assignments[i], g2.blocks[b].assignments[i]))
         && Successors(g2.blocks[b].terminal) == Successors(g0.blocks[b].terminal)
         && g2.blocks[b].terminal.Unknown? == g0.blocks[b].terminal.Unknown?
    {
      assert b in g1.blocks;
    }
  }

  lemma SameShapeWellFormed(g: Graph, g': Graph)
    requires SameShape(g, g') && WellFormed(g)
    ensures WellFormed(g')
  {
    forall b | b in g'.blocks ensures b in g.blocks {}
    forall t, b | t in g'.blocks ensures b in g'.predecessors[t] <==> IsEdge(g', b, t) {
      assert IsEdge(g, b, t) <==> IsEdge(g', b, t);
    }
  }

  lemma SameShapeClosed(g: Graph, g': Graph, u: Position)
    requires SameShape(g, g') && Closed(g) && Valid(g, u)
    ensures Closed(g') && Valid(g', u)
  {
    forall b | b in g'.blocks ensures b in g.blocks {}
  }

  lemma {:induction false} SameShapeFollows(g: Graph, g': Graph, x: string, path: seq<BlockId>, u: Position)
    requires SameShape(g, g') && Follows(g, x, path, u)
    ensures Follows(g', x, path, u)
    decreases |path|
  {
    if |path| == 1 {
      assert Clear(g', x, u.block, 0, u.index);
    } else {
      SameShapeFollows(g, g', x, path[1..], u);
      assert Clear(g', x, path[0], 0, Length(g', path[0]));
    }
  }

  lemma SameShapeInRegionOneWay(g: Graph, g': Graph, x: string, p: Position, u: Position)
    requires SameShape(g, g') && InRegion(g, x, p, u)
    ensures InRegion(g', x, p, u)
  {
    if p.block == u.block && p.index <= u.index && Clear(g, x, p.block, p.index, u.index) {
      assert Clear(g', x, p.block, p.index, u.index);
    } else {
      assert Clear(g', x, p.block, p.index, Length(g', p.block));
      var t :| IsEdge(g, p.block, t) && EntryReaches(g, x, t, u);
      var path :| Follows(g, x, path, u) && path[0] == t;
      SameShapeFollows(g, g', x, path, u);
      assert IsEdge(g', p.block, t);
    }
  }

  lemma SameShapeSymmetric(g: Graph, g': Graph)
    requires SameShape(g, g')
    ensures SameShape(g', g)
  {
    forall b | b in g'.blocks ensures b in g.blocks {}
  }

  /** Definition-free paths depend on the shape alone. */
  lemma SameShapeInRegion(g: Graph, g': Graph, x: string, p: Position, u: Position)
    requires SameShape(g, g')
    ensures InRegion(g, x, p, u) <==> InRegion(g', x, p, u)
  {
    SameShapeSymmetric(g, g');
    if InRegion(g, x, p, u) { SameShapeInRegionOneWay(g, g', x, p, u); }
    if InRegion(g', x, p, u) { SameShapeInRegionOneWay(g', g, x, p, u); }
  }

  lemma SetAssignmentSameShape(g: Graph, u: Position, a: Assignment)
    requires u.block in g.blocks && u.index < Length(g, u.block)
    requires SameNames(At(g, u), a)
    ensures SameShape(g, SetAssignment(g, u, a))
  {
  }

  lemma SetOperandSameShape(g: Graph, u: Position, k: nat, o: Operand)
    requires Valid(g, u) && k < |OperandsAt(g, u)|
    requires Closed(g)
    ensures SameShape(g, SetOperand(g, u, k, o))
    ensures OperandsAt(SetOperand(g, u, k, o), u) == OperandsAt(g, u)[k := o]
  {
  }

  // ----- definitely assigned -----

  ghost predicate NeverWritten(g: Graph, x: string) {
    forall d: Position :: d.block in g.blocks && d.index < Length(g, d.block) ==> At(g, d).destination != x
  }

  function EntryPosition(g: Graph): Position
    requires |g.order| > 0
  {
    Position(Entry(g), 0)
  }

  /** Every path from the method's entry to `u` writes `x`. */
  ghost predicate AlwaysWritten(g: Graph, x: string, u: Position)
    requires |g.order| > 0
  {
    !InRegion(g, x, EntryPosition(g), u)
  }

  ghost predicate ReadIsAssigned(g: Graph, u: Position, o: Operand)
    requires |g.order| > 0
  {
    o.Field? && !Names.LooksGlobal(o.name) ==> NeverWritten(g, o.name) || AlwaysWritten(g, o.name, u)
  }

  /** Each local that is read is either a parameter the method never assigns, or has been written
      on every path that leads to the read. */
  ghost predicate DefinitelyAssigned(g: Graph)
    requires |g.order| > 0
  {
    forall u, k :: Valid(g, u) && 0 <= k < |OperandsAt(g, u)| ==> ReadIsAssigned(g, u, OperandsAt(g, u)[k])
  }

  lemma SameShapeReadIsAssigned(g: Graph, g': Graph, u: Position, o: Operand)
    requires SameShape(g, g') && |g.order| > 0
    requires ReadIsAssigned(g, u, o)
    ensures ReadIsAssigned(g', u, o)
  {
    if o.Field? && !Names.LooksGlobal(o.name) {
      SameShapeInRegion(g, g', o.name, EntryPosition(g), u);
      if NeverWritten(g, o.name) {
        forall d: Position | d.block in g'.blocks && d.index < Length(g', d.block)
          ensures At(g', d).destination != o.name
        {
          assert At(g, d).destination != o.name;
        }
      }
    }
  }

  // ----- the replacement argument -----

  /** Some definition of `x` reaches `u`, and every one that does is `x = o`. */
  ghost predicate AllDefine(g: Graph, x: string, u: Position, o: Operand) {
    && (exists d :: IsReachingDefinition(g, x, u, d))
    && (forall d :: IsReachingDefinition(g, x, u, d) ==> At(g, d) == Unary(Move, x, o))
  }

  /** The same, asked of a list of definitions: what the two passes test. */
  ghost predicate AllMove(g: Graph, definitions: seq<Position>, o: Operand) {
    && definitions != []
    && forall d :: d in definitions ==> IsMove(g, d, o)
  }

  predicate IsMove(g: Graph, d: Position, o: Operand) {
    && d.block in g.blocks && d.index < Length(g, d.block)
    && At(g, d).Unary? && At(g, d).unaryOp == Move && At(g, d).source == o
  }

  lemma AllMoveDecides(g: Graph, x: string, u: Position, definitions: seq<Position>, o: Operand)
    requires forall d :: d in definitions <==> IsReachingDefinition(g, x, u, d)
    ensures AllMove(g, definitions, o) <==> AllDefine(g, x, u, o)
  {
    if AllMove(g, definitions, o) {
      assert definitions[0] in definitions;
    }
    if AllDefine(g, x, u, o) {
      var d :| IsReachingDefinition(g, x, u, d);
      assert d in definitions;
    }
  }

  /** `o` keeps its value between those definitions and the use. */
  ghost predicate Stable(g: Graph, x: string, u: Position, o: Operand) {
    && !o.Text?
    && (o.Field? ==> !Names.LooksGlobal(o.name) && !IsMutated(g, x, u, o.name))
  }

  /** On the definition-free stretch before `u`, `x` and `o` have the same value. */
  ghost predicate Agree(ctx: Context, g: Graph, x: string, o: Operand, u: Position, p: Position, st: State) {
    InRegion(g, x, p, u) ==> Eval(ctx, st, Field(x)) == Eval(ctx, st, o)
  }

  lemma AgreeStep(ctx: Context, g: Graph, x: string, o: Operand, u: Position, p: Position, st: State, st': State)
    requires GlobalsLookGlobal(ctx) && !Names.LooksGlobal(x)
    requires p.block in g.blocks && p.index < Length(g, p.block)
    requires AllDefine(g, x, u, o) && Stable(g, x, u, o)
    requires Agree(ctx, g, x, o, u, p, st)
    requires Exec(ctx, At(g, p), st) == Next(st')
    ensures Agree(ctx, g, x, o, u, After(p), st')
  {
    if InRegion(g, x, After(p), u) {
      var a := At(g, p);
      if a.destination == x {
        assert IsReachingDefinition(g, x, u, p);
        assert a == Unary(Move, x, o);
        hide InRegion, IsMutated;
      } else {
        assert IsPassedWrite(g, x, u, p);
        assert InRegion(g, x, p, u) by { BeforeWrite(g, x, p, u); }
        assert IsMutated(g, x, u, a.destination);
        hide InRegion, IsMutated, AllDefine;
        WriteElsewhere(ctx, a, x, o, st, st');
      }
    }
  }

  lemma BeforeWrite(g: Graph, x: string, p: Position, u: Position)
    requires p.block in g.blocks && p.index < Length(g, p.block) && At(g, p).destination != x
      && InRegion(g, x, After(p), u)
    ensures InRegion(g, x, p, u)
  {
  }

  /** An assignment to another local leaves both values as they are. */
  lemma WriteElsewhere(ctx: Context, a: Assignment, x: string, o: Operand, st: State, st': State)
    requires GlobalsLookGlobal(ctx) && !Names.LooksGlobal(x) && a.destination != x && Exec(ctx, a, st) == Next(st')
    requires !o.Text? && (o.Field? ==> !Names.LooksGlobal(o.name) && a.destination != o.name)
    ensures Eval(ctx, st', Field(x)) == Eval(ctx, st, Field(x)) && Eval(ctx, st', o) == Eval(ctx, st, o)
  {
  }

  lemma AgreeEdge(ctx: Context, g: Graph, x: string, o: Operand, u: Position, b: BlockId, t: BlockId, st: State)
    requires Valid(g, u) && IsEdge(g, b, t)
    requires Agree(ctx, g, x, o, u, Position(b, Length(g, b)), st)
    ensures Agree(ctx, g, x, o, u, Position(t, 0), st)
  {
    EntryReachesInRegion(g, x, t, u);
  }

  /** Operands that evaluate alike are interchangeable in an assignment. */
  lemma ExecWithOperand(ctx: Context, a: Assignment, k: nat, o: Operand, st: State)
    requires k < |Operands(a)|
    requires Operands(a)[k].Field? && !o.Text? && Eval(ctx, st, o) == Eval(ctx, st, Operands(a)[k])
    ensures Exec(ctx, WithOperand(a, k, o), st) == Exec(ctx, a, st)
  {
    if a.Call? {
      assert EvalArguments(ctx, st, a.arguments[k := o]) == EvalArguments(ctx, st, a.arguments);
    }
  }

  /** At every point, the rewritten graph does the same step as the original. */
  lemma SetOperandStep(ctx: Context, g: Graph, u: Position, k: nat, x: string, o: Operand, p: Position, st: State)
    requires Closed(g) && Valid(g, u) && k < |OperandsAt(g, u)|
    requires OperandsAt(g, u)[k] == Field(x) && !o.Text?
    requires Valid(g, p)
    requires p == u ==> Eval(ctx, st, Field(x)) == Eval(ctx, st, o)
    ensures var g' := SetOperand(g, u, k, o);
      && g'.blocks.Keys == g.blocks.Keys && Length(g', p.block) == Length(g, p.block)
      && (p.index < Length(g, p.block) ==> Exec(ctx, At(g', p), st) == Exec(ctx, At(g, p), st))
      && (p.index == Length(g, p.block)
        ==> SameTransfer(ctx, g.blocks[p.block].terminal, g'.blocks[p.block].terminal, st))
  {
    if p == u && p.index < Length(g, p.block) {
      ExecWithOperand(ctx, At(g, p), k, o, st);
    }
  }

  /** Two terminals that send `st` to the same place. */
  ghost predicate SameTransfer(ctx: Context, t: Terminal, t': Terminal, st: State) {
    match t
    case Branch(_, _, _, _, _, _) => t'.Branch? && Chosen(ctx, t', st) == Chosen(ctx, t, st)
    case Return(o) => t'.Return? && Eval(ctx, st, t'.source) == Eval(ctx, st, o)
    case _ => t' == t
  }

  lemma AgreeAtUse(ctx: Context, g: Graph, x: string, o: Operand, u: Position, st: State, p: Position)
    requires Valid(g, u) && Agree(ctx, g, x, o, u, p, st) && Stable(g, x, u, o)
    ensures p == u ==> Eval(ctx, st, Field(x)) == Eval(ctx, st, o)
    ensures !o.Text?
  {
  }

  lemma {:induction false} SetOperandRuns(ctx: Context, g: Graph, u: Position, k: nat, x: string, o: Operand,
                                          b: BlockId, i: nat, st: State, fuel: nat)
    requires GlobalsLookGlobal(ctx) && Closed(g) && Valid(g, u) && k < |OperandsAt(g, u)|
    requires OperandsAt(g, u)[k] == Field(x) && !Names.LooksGlobal(x)
    requires AllDefine(g, x, u, o) && Stable(g, x, u, o)
    requires Valid(g, Position(b, i))
    requires Agree(ctx, g, x, o, u, Position(b, i), st)
    requires Closed(SetOperand(g, u, k, o)) && Valid(SetOperand(g, u, k, o), Position(b, i))
    ensures RunFrom(ctx, SetOperand(g, u, k, o), b, i, st, fuel) == RunFrom(ctx, g, b, i, st, fuel)
    decreases fuel, Length(g, b) - i
  {
    hide Agree, AllDefine, Stable, SetOperand, Exec, Eval;
    var p := Position(b, i);
    AgreeAtUse(ctx, g, x, o, u, st, p);
    SetOperandStep(ctx, g, u, k, x, o, p, st);
    if i < Length(g, b) {
      match Exec(ctx, At(g, p), st)
      case Stop(_) =>
      case Next(st') =>
        AgreeStep(ctx, g, x, o, u, p, st, st');
        SetOperandRuns(ctx, g, u, k, x, o, b, i + 1, st', fuel);
    } else if fuel > 0 {
      match g.blocks[b].terminal
      case Jump(t) =>
        AgreeEdge(ctx, g, x, o, u, b, t, st);
        SetOperandRuns(ctx, g, u, k, x, o, t, 0, st, fuel - 1);
      case Branch(_, _, _, _, _, _) =>
        var t := Chosen(ctx, g.blocks[b].terminal, st);
        AgreeEdge(ctx, g, x, o, u, b, t, st);
        SetOperandRuns(ctx, g, u, k, x, o, t, 0, st, fuel - 1);
      case _ =>
    }
  }

  /** Assignments that do the same in every state are interchangeable. */
  lemma {:induction false} SetAssignmentRuns(ctx: Context, g: Graph, u: Position, a: Assignment,
                                             b: BlockId, i: nat, st: State, fuel: nat)
    requires Closed(g) && u.block in g.blocks && u.index < Length(g, u.block)
    requires a.destination == At(g, u).destination
    requires forall s :: Exec(ctx, a, s) == Exec(ctx, At(g, u), s)
    requires Valid(g, Position(b, i))
    ensures RunFrom(ctx, SetAssignment(g, u, a), b, i, st, fuel) == RunFrom(ctx, g, b, i, st, fuel)
    decreases fuel, Length(g, b) - i
  {
    var g' := SetAssignment(g, u, a);
    var p := Position(b, i);
    if i < Length(g, b) {
      assert Exec(ctx, At(g', p), st) == Exec(ctx, At(g, p), st);
      match Exec(ctx, At(g, p), st)
      case Stop(_) =>
      case Next(st') => SetAssignmentRuns(ctx, g, u, a, b, i + 1, st', fuel);
    } else {
      match g.blocks[b].terminal
      case Jump(t) =>
        if fuel > 0 { SetAssignmentRuns(ctx, g, u, a, t, 0, st, fuel - 1); }
      case Branch(_, _, _, _, _, _) =>
        if fuel > 0 { SetAssignmentRuns(ctx, g, u, a, Chosen(ctx, g.blocks[b].terminal, st), 0, st, fuel - 1); }
      case _ =>
    }
  }
}
