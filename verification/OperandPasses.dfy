/** Constant folding and copy propagation as functions on graphs, and the proof that they keep the
    outcome of every run. */
module OperandPasses {
  import opened Words
  import opened Worlds
  import opened Llir
  import opened ReachingDefinitions
  import opened Rewriting
  import Names

  datatype Pass = Folding | Copying

  ghost predicate ConstantAt(g: Graph, x: string, u: Position, c: Word) {
    AllDefine(g, x, u, Literal(c))
  }

  ghost predicate CopyAt(g: Graph, x: string, u: Position, y: string) {
    AllDefine(g, x, u, Field(y)) && Stable(g, x, u, Field(y))
  }

  /** What `optimize_operand` puts in place of operand `o` read at `u`. */
  ghost function Rewritten(pass: Pass, g: Graph, u: Position, o: Operand): Operand {
    if !o.Field? || Names.LooksGlobal(o.name) then o
    else
      match pass
      case Folding =>
        if exists c :: ConstantAt(g, o.name, u, c) then
          var c :| ConstantAt(g, o.name, u, c);
          Literal(c)
        else o
      case Copying =>
        if exists y :: CopyAt(g, o.name, u, y) then
          var y :| CopyAt(g, o.name, u, y);
          Field(y)
        else o
  }

  /** Operand slots `k`, `k + 1`, ... of the point `u`, in turn. */
  ghost function RewriteOperands(pass: Pass, g: Graph, u: Position, k: nat): Graph
    requires Closed(g) && Valid(g, u) && k <= |OperandsAt(g, u)|
    decreases |OperandsAt(g, u)| - k
  {
    if k == |OperandsAt(g, u)| then g
    else
      var o := Rewritten(pass, g, u, OperandsAt(g, u)[k]);
      SetOperandSameShape(g, u, k, o);
      RewriteOperands(pass, SetOperand(g, u, k, o), u, k + 1)
  }

  /** `optimize_unary_operation` and `optimize_binary_operation` after their operands: an operation
      on literals becomes a move of its result. `None`: the compiler itself divides by zero. */
  function Folded(a: Assignment): Option<Assignment> {
    match a
    case Unary(op, d, Literal(v)) => Some(Unary(Move, d, Literal(ApplyUnary(op, v))))
    case Binary(op, d, Literal(l), Literal(r)) => (
      match ApplyBinary(op, l, r)
      case None => None
      case Some(v) => Some(Unary(Move, d, Literal(v))))
    case _ => Some(a)
  }

  /** Folding, operator by operator: two literals become the one word the operation makes of them, and the
      compiler divides by zero if there is none. Every other assignment is left as it is. */
  lemma FoldedExactly(a: Assignment, v: Word)
    ensures a.Binary? && a.left.Literal? && a.right.Literal? ==>
      && (Folded(a) == Some(Unary(Move, a.destination, Literal(v)))
          <==> Computes(a.binaryOp, a.left.value, a.right.value, v))
      && (Folded(a).None? <==> forall r :: !Computes(a.binaryOp, a.left.value, a.right.value, r))
    ensures a.Unary? && a.source.Literal? ==>
      && (Folded(a) == Some(Unary(Move, a.destination, Literal(v))) <==> ComputesUnary(a.unaryOp, a.source.value, v))
      && Folded(a).Some?
    ensures !(a.Binary? && a.left.Literal? && a.right.Literal?) && !(a.Unary? && a.source.Literal?) ==>
      Folded(a) == Some(a)
  {
    hide ApplyBinary, ApplyUnary, Computes, ComputesUnary;
    match a
    case Binary(op, _, Literal(l), Literal(r)) =>
      forall v: Word ensures ApplyBinary(op, l, r) == Some(v) <==> Computes(op, l, r, v) {
        ApplyBinaryComputes(op, l, r, v);
      }
    case Unary(op, _, Literal(x)) => ApplyUnaryComputes(op, x, v);
    case _ =>
  }

  /** `optimize_assignment` or `optimize_terminal` at one point. */
  ghost function RewritePoint(pass: Pass, g: Graph, u: Position): Option<Graph>
    requires Closed(g) && Valid(g, u)
  {
    var g' := RewriteOperands(pass, g, u, 0);
    RewriteOperandsSameShape(pass, g, u, 0);
    if pass.Copying? || u.index == Length(g, u.block) then Some(g')
    else
      match Folded(At(g', u))
      case None => None
      case Some(a) => Some(SetAssignment(g', u, a))
  }

  /** The rest of a block from point `i` on, its terminal last. */
  ghost function RewriteBlock(pass: Pass, g: Graph, b: BlockId, i: nat): Option<Graph>
    requires Closed(g) && b in g.blocks && i <= Length(g, b) + 1
    decreases Length(g, b) + 1 - i
  {
    if i == Length(g, b) + 1 then Some(g)
    else
      RewritePointSameShape(pass, g, Position(b, i));
      match RewritePoint(pass, g, Position(b, i))
      case None => None
      case Some(g') => RewriteBlock(pass, g', b, i + 1)
  }

  /** The blocks from layout position `j` on. */
  ghost function RewriteGraph(pass: Pass, g: Graph, j: nat): Option<Graph>
    requires WellFormed(g) && j <= |g.order|
    decreases |g.order| - j
  {
    if j == |g.order| then Some(g)
    else
      RewriteBlockSameShape(pass, g, g.order[j], 0);
      match RewriteBlock(pass, g, g.order[j], 0)
      case None => None
      case Some(g') =>
        SameShapeWellFormed(g, g');
        RewriteGraph(pass, g', j + 1)
  }

  // ----- what makes a pass safe -----

  /** The operand is left as it is, or every path from the method's entry to `u` writes its name. The
      search records assignments only, so on a path without one it knows nothing of the value. */
  ghost predicate SafeOperand(pass: Pass, g: Graph, u: Position, o: Operand)
    requires |g.order| > 0
  {
    Rewritten(pass, g, u, o) == o || AlwaysWritten(g, o.name, u)
  }

  ghost predicate SafeOperands(pass: Pass, g: Graph, u: Position, k: nat)
    requires Closed(g) && |g.order| > 0 && Valid(g, u) && k <= |OperandsAt(g, u)|
    decreases |OperandsAt(g, u)| - k
  {
    k == |OperandsAt(g, u)| ||
    var o := Rewritten(pass, g, u, OperandsAt(g, u)[k]);
    SetOperandSameShape(g, u, k, o);
    SafeOperand(pass, g, u, OperandsAt(g, u)[k]) && SafeOperands(pass, SetOperand(g, u, k, o), u, k + 1)
  }

  ghost predicate SafeBlock(pass: Pass, g: Graph, b: BlockId, i: nat)
    requires Closed(g) && |g.order| > 0 && b in g.blocks && i <= Length(g, b) + 1
    decreases Length(g, b) + 1 - i
  {
    i == Length(g, b) + 1 ||
    (RewritePointSameShape(pass, g, Position(b, i));
    && SafeOperands(pass, g, Position(b, i), 0)
    && (RewritePoint(pass, g, Position(b, i)).Some?
      ==> SafeBlock(pass, RewritePoint(pass, g, Position(b, i)).value, b, i + 1)))
  }

  /** Every replacement the pass makes, from layout position `j` on, is of a name that is written on
      every path to the place where it is read. */
  ghost predicate SafeFrom(pass: Pass, g: Graph, j: nat)
    requires WellFormed(g) && j <= |g.order|
    decreases |g.order| - j
  {
    j == |g.order| ||
    (RewriteBlockSameShape(pass, g, g.order[j], 0);
    && SafeBlock(pass, g, g.order[j], 0)
    && match RewriteBlock(pass, g, g.order[j], 0)
       case None => true
       case Some(g') =>
         SameShapeWellFormed(g, g');
         SafeFrom(pass, g', j + 1))
  }

  // ----- shape -----

  lemma {:induction false} RewriteOperandsSameShape(pass: Pass, g: Graph, u: Position, k: nat)
    requires Closed(g) && Valid(g, u) && k <= |OperandsAt(g, u)|
    ensures SameShape(g, RewriteOperands(pass, g, u, k))
    decreases |OperandsAt(g, u)| - k
  {
    SameShapeReflexive(g);
    if k < |OperandsAt(g, u)| {
      var o := Rewritten(pass, g, u, OperandsAt(g, u)[k]);
      var g' := SetOperand(g, u, k, o);
      SetOperandSameShape(g, u, k, o);
      SameShapeClosed(g, g', u);
      hide SameShape, Rewritten, SetOperand, Closed;
      RewriteOperandsSameShape(pass, g', u, k + 1);
      SameShapeTransitive(g, g', RewriteOperands(pass, g', u, k + 1));
    }
  }

  lemma RewritePointSameShape(pass: Pass, g: Graph, u: Position)
    requires Closed(g) && Valid(g, u)
    ensures RewritePoint(pass, g, u).Some? ==> SameShape(g, RewritePoint(pass, g, u).value)
    ensures RewritePoint(pass, g, u).Some? ==>
      var h := RewritePoint(pass, g, u).value;
      Closed(h) && h.blocks.Keys == g.blocks.Keys && h.order == g.order && Length(h, u.block) == Length(g, u.block)
  {
    RewriteOperandsSameShape(pass, g, u, 0);
    var g' := RewriteOperands(pass, g, u, 0);
    if pass.Folding? && u.index < Length(g, u.block) && Folded(At(g', u)).Some? {
      SetAssignmentSameShape(g', u, Folded(At(g', u)).value);
      SameShapeTransitive(g, g', SetAssignment(g', u, Folded(At(g', u)).value));
    }
    if RewritePoint(pass, g, u).Some? {
      var h := RewritePoint(pass, g, u).value;
      forall b | b in h.blocks ensures !h.blocks[b].terminal.Unknown? &&
        forall t :: t in Successors(h.blocks[b].terminal) ==> t in h.blocks
      {
        assert b in g.blocks;
      }
    }
  }

  lemma {:induction false} RewriteBlockSameShape(pass: Pass, g: Graph, b: BlockId, i: nat)
    requires Closed(g) && b in g.blocks && i <= Length(g, b) + 1
    ensures RewriteBlock(pass, g, b, i).Some? ==>
      var h := RewriteBlock(pass, g, b, i).value;
      SameShape(g, h) && h.order == g.order
    decreases Length(g, b) + 1 - i
  {
    hide SameShape, RewritePoint;
    SameShapeReflexive(g);
    if i < Length(g, b) + 1 {
      RewritePointSameShape(pass, g, Position(b, i));
      match RewritePoint(pass, g, Position(b, i))
      case None =>
      case Some(g') =>
        RewriteBlockSameShape(pass, g', b, i + 1);
        match RewriteBlock(pass, g', b, i + 1)
        case None =>
        case Some(g'') => SameShapeTransitive(g, g', g'');
    }
  }

  /** One turn of the loop over a block. */
  lemma RewriteBlockUnfolds(pass: Pass, g: Graph, b: BlockId, i: nat)
    requires WellFormed(g) && b in g.blocks && i <= Length(g, b)
    ensures RewritePoint(pass, g, Position(b, i)).None? ==> RewriteBlock(pass, g, b, i).None?
    ensures RewritePoint(pass, g, Position(b, i)).Some? ==>
              var g' := RewritePoint(pass, g, Position(b, i)).value;
              && WellFormed(g') && g'.blocks.Keys == g.blocks.Keys && Length(g', b) == Length(g, b)
              && RewriteBlock(pass, g, b, i) == RewriteBlock(pass, g', b, i + 1)
  {
    RewritePointSameShape(pass, g, Position(b, i));
    if RewritePoint(pass, g, Position(b, i)).Some? {
      SameShapeWellFormed(g, RewritePoint(pass, g, Position(b, i)).value);
    }
  }

  /** One turn of the loop over a method. */
  lemma RewriteGraphUnfolds(pass: Pass, g: Graph, j: nat)
    requires WellFormed(g) && j < |g.order|
    ensures RewriteBlock(pass, g, g.order[j], 0).None? ==> RewriteGraph(pass, g, j).None?
    ensures RewriteBlock(pass, g, g.order[j], 0).Some? ==>
              var g' := RewriteBlock(pass, g, g.order[j], 0).value;
              && WellFormed(g') && g'.order == g.order
              && RewriteGraph(pass, g, j) == RewriteGraph(pass, g', j + 1)
  {
    RewriteBlockSameShape(pass, g, g.order[j], 0);
    if RewriteBlock(pass, g, g.order[j], 0).Some? {
      SameShapeWellFormed(g, RewriteBlock(pass, g, g.order[j], 0).value);
    }
  }

  // ----- copies of assigned variables are assigned -----

  /** The last write to `x` below `hi`. */
  lemma LastWriteIndex(g: Graph, x: string, b: BlockId, hi: nat) returns (i: nat)
    requires b in g.blocks && hi <= Length(g, b) && !Clear(g, x, b, 0, hi)
    ensures i < hi && At(g, Position(b, i)).destination == x && Clear(g, x, b, i + 1, hi)
  {
    i := hi - 1;
    while At(g, Position(b, i)).destination != x
      invariant i < hi && Clear(g, x, b, i + 1, hi)
      decreases i
    {
      if i == 0 { assert Clear(g, x, b, 0, hi); }
      i := i - 1;
    }
  }

  /** A `y`-free path that is not `x`-free leads, `y`-free, to some reaching definition of `x`. */
  lemma {:induction false} LastWriteOnPath(g: Graph, x: string, y: string, path: seq<BlockId>, u: Position)
    returns (d: Position)
    requires Valid(g, u) && Follows(g, y, path, u)
    requires !InRegion(g, x, Position(path[0], 0), u)
    ensures IsReachingDefinition(g, x, u, d)
    ensures InRegion(g, y, Position(path[0], 0), d)
    decreases |path|
  {
    if |path| == 1 {
      var i := LastWriteIndex(g, x, u.block, u.index);
      d := Position(u.block, i);
      assert Clear(g, y, u.block, 0, i);
    } else if !InRegion(g, x, Position(path[1], 0), u) {
      assert path[1..][0] == path[1];
      d := LastWriteOnPath(g, x, y, path[1..], u);
      EntryReachesInRegion(g, y, path[1], d);
      assert ExitReaches(g, y, path[0], d);
    } else {
      EntryReachesInRegion(g, x, path[1], u);
      assert ExitReaches(g, x, path[0], u);
      var i := LastWriteIndex(g, x, path[0], Length(g, path[0]));
      d := Position(path[0], i);
      assert Clear(g, y, path[0], 0, i);
    }
  }

  /** Propagating a copy never makes a method read a variable that may be unassigned. */
  lemma CopySourceIsAssigned(g: Graph, x: string, y: string, u: Position)
    requires WellFormed(g) && DefinitelyAssigned(g) && Valid(g, u)
    requires !Names.LooksGlobal(x) && ReadIsAssigned(g, u, Field(x))
    requires CopyAt(g, x, u, y)
    ensures ReadIsAssigned(g, u, Field(y))
  {
    if InRegion(g, y, EntryPosition(g), u) {
      var d0 :| IsReachingDefinition(g, x, u, d0);
      assert !NeverWritten(g, x) by { assert At(g, d0).destination == x; }
      EntryReachesInRegion(g, y, Entry(g), u);
      var path :| Follows(g, y, path, u) && path[0] == Entry(g);
      var d := LastWriteOnPath(g, x, y, path, u);
      assert OperandsAt(g, d)[0] == Field(y);
      assert ReadIsAssigned(g, d, OperandsAt(g, d)[0]);
    }
  }

  // ----- one operand -----

  lemma SetOperandAssigned(g: Graph, u: Position, k: nat, o: Operand)
    requires WellFormed(g) && DefinitelyAssigned(g) && Valid(g, u) && k < |OperandsAt(g, u)|
    requires ReadIsAssigned(g, u, o)
    ensures WellFormed(SetOperand(g, u, k, o)) && DefinitelyAssigned(SetOperand(g, u, k, o))
  {
    var g' := SetOperand(g, u, k, o);
    SetOperandSameShape(g, u, k, o);
    SameShapeWellFormed(g, g');
    forall v, j | Valid(g', v) && 0 <= j < |OperandsAt(g', v)| ensures ReadIsAssigned(g', v, OperandsAt(g', v)[j]) {
      assert Valid(g, v);
      if v == u {
        if j == k {
          SameShapeReadIsAssigned(g, g', v, o);
        } else {
          assert ReadIsAssigned(g, v, OperandsAt(g, v)[j]);
          SameShapeReadIsAssigned(g, g', v, OperandsAt(g, v)[j]);
        }
      } else {
        assert OperandsAt(g', v) == OperandsAt(g, v);
        assert ReadIsAssigned(g, v, OperandsAt(g, v)[j]);
        SameShapeReadIsAssigned(g, g', v, OperandsAt(g, v)[j]);
      }
    }
  }

  lemma SetSameOperand(g: Graph, u: Position, k: nat)
    requires Valid(g, u) && k < |OperandsAt(g, u)|
    ensures SetOperand(g, u, k, OperandsAt(g, u)[k]) == g
  {
    var o := OperandsAt(g, u)[k];
    var block := g.blocks[u.block];
    if u.index < Length(g, u.block) {
      var a := block.assignments[u.index];
      if a.Call? { assert a.arguments[k := o] == a.arguments; }
      assert WithOperand(a, k, o) == a;
      assert block.assignments[u.index := a] == block.assignments;
    }
    assert g.blocks[u.block := block] == g.blocks;
  }

  /** One `optimize_operand` keeps the graph well formed and every local assigned before it is read. */
  lemma RewriteOperandKeeps(pass: Pass, g: Graph, u: Position, k: nat)
    requires WellFormed(g) && DefinitelyAssigned(g) && Valid(g, u) && k < |OperandsAt(g, u)|
    ensures var g' := SetOperand(g, u, k, Rewritten(pass, g, u, OperandsAt(g, u)[k]));
      WellFormed(g') && DefinitelyAssigned(g')
    ensures SafeOperand(pass, g, u, OperandsAt(g, u)[k])
  {
    var o := OperandsAt(g, u)[k];
    assert ReadIsAssigned(g, u, o);
    var o' := Rewritten(pass, g, u, o);
    if o' != o {
      assert AllDefine(g, o.name, u, o');
      var d :| IsReachingDefinition(g, o.name, u, d);
      assert !NeverWritten(g, o.name) by { assert At(g, d).destination == o.name; }
    }
    if pass.Copying? && o' != o {
      CopySourceIsAssigned(g, o.name, o'.name, u);
    }
    SetOperandAssigned(g, u, k, o');
  }

  /** One `optimize_operand` leaves every run unchanged. */
  lemma RewriteOperandRuns(pass: Pass, g: Graph, u: Position, k: nat, ctx: Context, st: State, fuel: nat)
    requires WellFormed(g) && Valid(g, u) && k < |OperandsAt(g, u)| && SafeOperand(pass, g, u, OperandsAt(g, u)[k])
    requires GlobalsLookGlobal(ctx)
    ensures var g' := SetOperand(g, u, k, Rewritten(pass, g, u, OperandsAt(g, u)[k]));
      WellFormed(g') && Run(ctx, g', st, fuel) == Run(ctx, g, st, fuel)
  {
    var o := OperandsAt(g, u)[k];
    var o' := Rewritten(pass, g, u, o);
    SetOperandSameShape(g, u, k, o');
    SameShapeWellFormed(g, SetOperand(g, u, k, o'));
    if o' == o {
      SetSameOperand(g, u, k);
    } else {
      var x := o.name;
      assert AllDefine(g, x, u, o') && Stable(g, x, u, o');
      SetOperandRuns(ctx, g, u, k, x, o', Entry(g), 0, st, fuel);
    }
  }

  // ----- one point -----

  lemma {:induction false} RewriteOperandsKeep(pass: Pass, g: Graph, u: Position, k: nat)
    requires WellFormed(g) && DefinitelyAssigned(g) && Valid(g, u) && k <= |OperandsAt(g, u)|
    ensures WellFormed(RewriteOperands(pass, g, u, k)) && DefinitelyAssigned(RewriteOperands(pass, g, u, k))
    ensures SafeOperands(pass, g, u, k)
    decreases |OperandsAt(g, u)| - k
  {
    hide DefinitelyAssigned, SetOperand, Rewritten, SafeOperand;
    if k < |OperandsAt(g, u)| {
      var o := Rewritten(pass, g, u, OperandsAt(g, u)[k]);
      SetOperandSameShape(g, u, k, o);
      RewriteOperandKeeps(pass, g, u, k);
      RewriteOperandsKeep(pass, SetOperand(g, u, k, o), u, k + 1);
    }
  }

  lemma {:induction false} RewriteOperandsRuns(pass: Pass, g: Graph, u: Position, k: nat, ctx: Context, st: State,
                                               fuel: nat)
    requires WellFormed(g) && Valid(g, u) && k <= |OperandsAt(g, u)| && SafeOperands(pass, g, u, k)
    requires GlobalsLookGlobal(ctx)
    requires WellFormed(RewriteOperands(pass, g, u, k))
    ensures Run(ctx, RewriteOperands(pass, g, u, k), st, fuel) == Run(ctx, g, st, fuel)
    decreases |OperandsAt(g, u)| - k
  {
    hide SetOperand, Rewritten, SafeOperand;
    if k < |OperandsAt(g, u)| {
      var o := Rewritten(pass, g, u, OperandsAt(g, u)[k]);
      SetOperandSameShape(g, u, k, o);
      RewriteOperandRuns(pass, g, u, k, ctx, st, fuel);
      RewriteOperandsRuns(pass, SetOperand(g, u, k, o), u, k + 1, ctx, st, fuel);
    }
  }

  /** A folded operation computes at compile time what it computed at run time. */
  lemma FoldedExec(ctx: Context, a: Assignment, st: State)
    ensures Folded(a).Some? ==> Exec(ctx, Folded(a).value, st) == Exec(ctx, a, st)
    ensures Folded(a).None? ==> Exec(ctx, a, st) == Stop(Trapped)
  {
  }

  lemma SetAssignmentAssigned(g: Graph, u: Position, a: Assignment)
    requires WellFormed(g) && DefinitelyAssigned(g) && u.block in g.blocks && u.index < Length(g, u.block)
    requires SameNames(At(g, u), a)
    requires forall k :: 0 <= k < |Operands(a)| ==> Operands(a)[k] in Operands(At(g, u)) || !Operands(a)[k].Field?
    ensures WellFormed(SetAssignment(g, u, a)) && DefinitelyAssigned(SetAssignment(g, u, a))
  {
    var g' := SetAssignment(g, u, a);
    SetAssignmentSameShape(g, u, a);
    SameShapeWellFormed(g, g');
    forall v, j | Valid(g', v) && 0 <= j < |OperandsAt(g', v)| ensures ReadIsAssigned(g', v, OperandsAt(g', v)[j]) {
      assert Valid(g, v);
      var o := OperandsAt(g', v)[j];
      if o.Field? {
        var i :| 0 <= i < |OperandsAt(g, v)| && OperandsAt(g, v)[i] == o;
        assert ReadIsAssigned(g, v, OperandsAt(g, v)[i]);
        SameShapeReadIsAssigned(g, g', v, o);
      }
    }
  }

  lemma RewritePointKeeps(pass: Pass, g: Graph, u: Position)
    requires WellFormed(g) && DefinitelyAssigned(g) && Valid(g, u)
    ensures RewritePoint(pass, g, u).Some? ==>
      WellFormed(RewritePoint(pass, g, u).value) && DefinitelyAssigned(RewritePoint(pass, g, u).value)
    ensures SafeOperands(pass, g, u, 0)
  {
    hide DefinitelyAssigned, RewriteOperands, SafeOperands;
    RewriteOperandsKeep(pass, g, u, 0);
    RewriteOperandsSameShape(pass, g, u, 0);
    var g' := RewriteOperands(pass, g, u, 0);
    if pass.Folding? && u.index < Length(g, u.block) && Folded(At(g', u)).Some? {
      var a := Folded(At(g', u)).value;
      SetAssignmentAssigned(g', u, a);
    }
  }

  lemma FoldedSameName(a: Assignment)
    ensures Folded(a).Some? ==> Folded(a).value.destination == a.destination
  {
  }

  lemma RewritePointRuns(pass: Pass, g: Graph, u: Position, ctx: Context, st: State, fuel: nat)
    requires WellFormed(g) && Valid(g, u) && SafeOperands(pass, g, u, 0) && GlobalsLookGlobal(ctx)
    requires RewritePoint(pass, g, u).Some? && WellFormed(RewritePoint(pass, g, u).value)
    ensures Run(ctx, RewritePoint(pass, g, u).value, st, fuel) == Run(ctx, g, st, fuel)
  {
    hide RewriteOperands, SafeOperands, RunFrom, Folded, Exec, PredecessorsAgree;
    RewriteOperandsSameShape(pass, g, u, 0);
    SameShapeWellFormed(g, RewriteOperands(pass, g, u, 0));
    RewriteOperandsRuns(pass, g, u, 0, ctx, st, fuel);
    var g' := RewriteOperands(pass, g, u, 0);
    if pass.Folding? && u.index < Length(g, u.block) {
      var a := Folded(At(g', u)).value;
      forall s ensures Exec(ctx, a, s) == Exec(ctx, At(g', u), s) { FoldedExec(ctx, At(g', u), s); }
      FoldedSameName(At(g', u));
      SetAssignmentRuns(ctx, g', u, a, Entry(g'), 0, st, fuel);
    }
  }

  // ----- the whole pass -----

  lemma {:induction false} RewriteBlockKeeps(pass: Pass, g: Graph, b: BlockId, i: nat)
    requires WellFormed(g) && DefinitelyAssigned(g) && b in g.blocks && i <= Length(g, b) + 1
    ensures RewriteBlock(pass, g, b, i).Some? ==>
      WellFormed(RewriteBlock(pass, g, b, i).value) && DefinitelyAssigned(RewriteBlock(pass, g, b, i).value)
    ensures SafeBlock(pass, g, b, i)
    decreases Length(g, b) + 1 - i
  {
    hide DefinitelyAssigned, RewritePoint, SafeOperands;
    if i < Length(g, b) + 1 {
      RewritePointSameShape(pass, g, Position(b, i));
      RewritePointKeeps(pass, g, Position(b, i));
      match RewritePoint(pass, g, Position(b, i))
      case None =>
      case Some(g') => RewriteBlockKeeps(pass, g', b, i + 1);
    }
  }

  lemma {:induction false} RewriteBlockRuns(pass: Pass, g: Graph, b: BlockId, i: nat, ctx: Context, st: State,
                                            fuel: nat)
    requires WellFormed(g) && b in g.blocks && i <= Length(g, b) + 1 && SafeBlock(pass, g, b, i)
    requires GlobalsLookGlobal(ctx)
    requires RewriteBlock(pass, g, b, i).Some? && WellFormed(RewriteBlock(pass, g, b, i).value)
    ensures Run(ctx, RewriteBlock(pass, g, b, i).value, st, fuel) == Run(ctx, g, st, fuel)
    decreases Length(g, b) + 1 - i
  {
    hide RewritePoint, SafeOperands;
    if i < Length(g, b) + 1 {
      RewritePointSameShape(pass, g, Position(b, i));
      SameShapeWellFormed(g, RewritePoint(pass, g, Position(b, i)).value);
      RewritePointRuns(pass, g, Position(b, i), ctx, st, fuel);
      RewriteBlockRuns(pass, RewritePoint(pass, g, Position(b, i)).value, b, i + 1, ctx, st, fuel);
    }
  }

  /** A finished pass changes nothing but what is read. */
  lemma {:induction false} RewriteGraphKeeps(pass: Pass, g: Graph, j: nat)
    requires WellFormed(g) && j <= |g.order|
    ensures RewriteGraph(pass, g, j).Some? ==>
      var g' := RewriteGraph(pass, g, j).value;
      SameShape(g, g') && WellFormed(g')
    decreases |g.order| - j
  {
    hide RewriteBlock, SameShape, PredecessorsAgree;
    SameShapeReflexive(g);
    if j < |g.order| {
      RewriteGraphUnfolds(pass, g, j);
      RewriteBlockSameShape(pass, g, g.order[j], 0);
      match RewriteBlock(pass, g, g.order[j], 0)
      case None =>
      case Some(g') =>
        RewriteGraphKeeps(pass, g', j + 1);
        match RewriteGraph(pass, g', j + 1)
        case None =>
        case Some(g'') => SameShapeTransitive(g, g', g'');
    }
  }

  /** Where each local is never assigned or assigned before it is read, every replacement is safe, and
      the finished pass leaves it so. */
  lemma {:induction false} AssignedIsSafe(pass: Pass, g: Graph, j: nat)
    requires WellFormed(g) && DefinitelyAssigned(g) && j <= |g.order|
    ensures SafeFrom(pass, g, j)
    ensures RewriteGraph(pass, g, j).Some? ==>
      var g' := RewriteGraph(pass, g, j).value;
      WellFormed(g') && DefinitelyAssigned(g')
    decreases |g.order| - j
  {
    hide DefinitelyAssigned, RewriteBlock, SafeBlock;
    if j < |g.order| {
      RewriteBlockSameShape(pass, g, g.order[j], 0);
      RewriteBlockKeeps(pass, g, g.order[j], 0);
      match RewriteBlock(pass, g, g.order[j], 0)
      case None =>
      case Some(g') => AssignedIsSafe(pass, g', j + 1);
    }
  }

  /** Constant folding and copy propagation preserve meaning wherever each replacement is safe: with any
      callees, from any state and with any fuel, the rewritten method ends exactly as the original does. */
  lemma {:induction false} PassPreservesRuns(pass: Pass, g: Graph, j: nat, ctx: Context, st: State, fuel: nat)
    requires WellFormed(g) && j <= |g.order| && SafeFrom(pass, g, j)
    requires GlobalsLookGlobal(ctx)
    requires RewriteGraph(pass, g, j).Some? && WellFormed(RewriteGraph(pass, g, j).value)
    ensures Run(ctx, RewriteGraph(pass, g, j).value, st, fuel) == Run(ctx, g, st, fuel)
    decreases |g.order| - j
  {
    hide RewriteBlock, SafeBlock;
    if j < |g.order| {
      RewriteBlockSameShape(pass, g, g.order[j], 0);
      SameShapeWellFormed(g, RewriteBlock(pass, g, g.order[j], 0).value);
      RewriteBlockRuns(pass, g, g.order[j], 0, ctx, st, fuel);
      PassPreservesRuns(pass, RewriteBlock(pass, g, g.order[j], 0).value, j + 1, ctx, st, fuel);
    }
  }
}
