/** What folding and propagation do to a method: which operands they replace and by what, and that they come to
    every operand. */
module PassEffects {
  import opened Words
  import opened Worlds
  import opened Llir
  import opened ReachingDefinitions
  import opened Rewriting
  import opened OperandPasses
  import Names

  // ----- one operand -----

  /** Folding puts a literal in place of a local exactly if some assignment reaches the use and each one that does
      moves that literal into it. */
  lemma FoldingReplaces(g: Graph, u: Position, x: string, c: Word)
    ensures Rewritten(Folding, g, u, Field(x)) == Literal(c) <==>
      && !Names.LooksGlobal(x)
      && (exists d :: IsReachingDefinition(g, x, u, d))
      && forall d :: IsReachingDefinition(g, x, u, d) ==> At(g, d) == Unary(Move, x, Literal(c))
  {
    ConstantIs(g, x, u, c);
    hide InRegion, Names.LooksGlobal;
    forall c' | ConstantAt(g, x, u, c') && ConstantAt(g, x, u, c) ensures c' == c {
      var d :| IsReachingDefinition(g, x, u, d);
    }
  }

  lemma ConstantIs(g: Graph, x: string, u: Position, c: Word)
    ensures ConstantAt(g, x, u, c) <==>
      && (exists d :: IsReachingDefinition(g, x, u, d))
      && forall d :: IsReachingDefinition(g, x, u, d) ==> At(g, d) == Unary(Move, x, Literal(c))
  {
  }

  /** Some assignment between an assignment to `x` and its use at `u` writes `y`. */
  ghost predicate WrittenBetween(g: Graph, x: string, u: Position, y: string) {
    exists q: Position :: q.block in g.blocks && q.index < Length(g, q.block)
                          && At(g, q).destination == y && InRegion(g, x, After(q), u)
  }

  /** Propagation puts another name in place of a local exactly if that is a local too, some assignment reaches the
      use, each one that does copies it, and nothing writes it between such a copy and the use. */
  lemma CopyingReplaces(g: Graph, u: Position, x: string, y: string)
    requires y != x
    ensures Rewritten(Copying, g, u, Field(x)) == Field(y) <==>
      && !Names.LooksGlobal(x) && !Names.LooksGlobal(y)
      && (exists d :: IsReachingDefinition(g, x, u, d))
      && (forall d :: IsReachingDefinition(g, x, u, d) ==> At(g, d) == Unary(Move, x, Field(y)))
      && !WrittenBetween(g, x, u, y)
  {
    hide InRegion, Names.LooksGlobal;
    forall y' | CopyAt(g, x, u, y') && CopyAt(g, x, u, y) ensures y' == y {
      var d :| IsReachingDefinition(g, x, u, d);
    }
    MutatedIsWritten(g, x, u, y);
    CopyIs(g, x, u, y);
    hide IsMutated, WrittenBetween;
  }

  lemma CopyIs(g: Graph, x: string, u: Position, y: string)
    ensures CopyAt(g, x, u, y) <==>
      && (exists d :: IsReachingDefinition(g, x, u, d))
      && (forall d :: IsReachingDefinition(g, x, u, d) ==> At(g, d) == Unary(Move, x, Field(y)))
      && !Names.LooksGlobal(y) && !IsMutated(g, x, u, y)
  {
    hide IsMutated, Names.LooksGlobal;
  }

  lemma MutatedIsWritten(g: Graph, x: string, u: Position, y: string)
    requires y != x
    ensures IsMutated(g, x, u, y) <==> WrittenBetween(g, x, u, y)
  {
    hide InRegion;
    if WrittenBetween(g, x, u, y) {
      var q: Position :| q.block in g.blocks && q.index < Length(g, q.block) && At(g, q).destination == y
                         && InRegion(g, x, After(q), u);
      assert IsPassedWrite(g, x, u, q);
    }
  }

  /** Literals, strings and globals are left alone, and a local is replaced by nothing else. */
  lemma NothingElseReplaced(pass: Pass, g: Graph, u: Position, o: Operand)
    ensures !o.Field? || Names.LooksGlobal(o.name) ==> Rewritten(pass, g, u, o) == o
    ensures Rewritten(pass, g, u, o) == o || (if pass.Folding? then Rewritten(pass, g, u, o).Literal?
      else Rewritten(pass, g, u, o).Field?)
  {
    hide ConstantAt, CopyAt;
  }

  // ----- every operand -----

  /** There is nothing to do at `u`: no operand is replaced and nothing is folded. */
  ghost predicate Idle(pass: Pass, g: Graph, u: Position)
    requires Valid(g, u)
  {
    && (forall k :: 0 <= k < |OperandsAt(g, u)| ==> Rewritten(pass, g, u, OperandsAt(g, u)[k]) == OperandsAt(g, u)[k])
    && (pass.Folding? && u.index < Length(g, u.block) ==> Folded(At(g, u)) == Some(At(g, u)))
  }

  ghost predicate SamePoint(g: Graph, g': Graph, v: Position) {
    && Valid(g, v) && Valid(g', v) && Length(g, v.block) == Length(g', v.block)
    && if v.index < Length(g, v.block) then At(g', v) == At(g, v)
       else g'.blocks[v.block].terminal == g.blocks[v.block].terminal
  }

  lemma SameEverywhere(g: Graph, g': Graph)
    requires SameShape(g, g') && forall v :: Valid(g, v) ==> SamePoint(g, g', v)
    ensures g' == g
  {
    forall b | b in g.blocks ensures g'.blocks[b] == g.blocks[b] {
      assert SamePoint(g, g', Position(b, Length(g, b)));
      forall i | 0 <= i < Length(g, b) ensures g'.blocks[b].assignments[i] == g.blocks[b].assignments[i] {
        assert SamePoint(g, g', Position(b, i));
      }
      assert g'.blocks[b].assignments == g.blocks[b].assignments;
    }
    assert g'.blocks == g.blocks;
  }

  lemma SamePointReflexive(g: Graph, v: Position)
    requires Valid(g, v)
    ensures SamePoint(g, g, v)
  {
  }

  lemma SamePointTransitive(g: Graph, h: Graph, k: Graph, v: Position)
    requires SamePoint(g, h, v) && SamePoint(h, k, v)
    ensures SamePoint(g, k, v)
  {
  }

  /** The operands from `k` on: other points stay. */
  lemma {:induction false} OtherPoints(pass: Pass, g: Graph, u: Position, k: nat, v: Position)
    requires Closed(g) && Valid(g, u) && k <= |OperandsAt(g, u)| && Valid(g, v) && v != u
    ensures SamePoint(g, RewriteOperands(pass, g, u, k), v)
    decreases |OperandsAt(g, u)| - k
  {
    if k == |OperandsAt(g, u)| {
      assert RewriteOperands(pass, g, u, k) == g;
    } else {
      var g' := OneOperand(pass, g, u, k, v);
      hide SameShape, Rewritten, SetOperand, Closed, SamePoint, OperandsAt, RewriteOperands;
      SamePointValid(g, g', v);
      OtherPoints(pass, g', u, k + 1, v);
      SamePointTransitive(g, g', RewriteOperands(pass, g', u, k + 1), v);
    }
  }

  lemma SamePointValid(g: Graph, g': Graph, v: Position)
    requires SamePoint(g, g', v)
    ensures Valid(g, v) && Valid(g', v)
  {
  }

  /** The operands from `k` on: earlier operands stay. */
  lemma {:induction false} EarlierOperands(pass: Pass, g: Graph, u: Position, k: nat, j: nat)
    requires Closed(g) && Valid(g, u) && j < k <= |OperandsAt(g, u)|
    ensures var h := RewriteOperands(pass, g, u, k);
      Valid(h, u) && |OperandsAt(h, u)| == |OperandsAt(g, u)| && OperandsAt(h, u)[j] == OperandsAt(g, u)[j]
    decreases |OperandsAt(g, u)| - k
  {
    if k == |OperandsAt(g, u)| {
      assert RewriteOperands(pass, g, u, k) == g;
    } else {
      var g' := OneOperand(pass, g, u, k, u);
      hide SameShape, Rewritten, SetOperand, Closed, SamePoint, OperandsAt, RewriteOperands;
      EarlierOperands(pass, g', u, k + 1, j);
    }
  }

  ghost predicate IdleFrom(pass: Pass, g: Graph, u: Position, k: nat)
    requires Valid(g, u) && k <= |OperandsAt(g, u)|
  {
    forall j :: k <= j < |OperandsAt(g, u)| ==> Rewritten(pass, g, u, OperandsAt(g, u)[j]) == OperandsAt(g, u)[j]
  }

  /** Nothing changes exactly if none of these operands is replaced. */
  lemma {:induction false} OperandsIdle(pass: Pass, g: Graph, u: Position, k: nat)
    requires Closed(g) && Valid(g, u) && k <= |OperandsAt(g, u)|
    ensures RewriteOperands(pass, g, u, k) == g <==> IdleFrom(pass, g, u, k)
    decreases |OperandsAt(g, u)| - k
  {
    if k == |OperandsAt(g, u)| {
      assert RewriteOperands(pass, g, u, k) == g;
    } else {
      var g' := OneOperand(pass, g, u, k, u);
      hide SameShape, Rewritten, SetOperand, Closed, SamePoint, Valid, OperandsAt, RewriteOperands;
      EarlierOperands(pass, g', u, k + 1, k);
      if g' == g { OperandsIdle(pass, g, u, k + 1); }
    }
  }

  /** One operand: nothing else changes, and nothing at all exactly if it is not replaced. */
  lemma OneOperand(pass: Pass, g: Graph, u: Position, k: nat, v: Position) returns (g': Graph)
    requires Closed(g) && Valid(g, u) && k < |OperandsAt(g, u)| && Valid(g, v)
    ensures Closed(g') && Valid(g', u) && (v != u ==> SamePoint(g, g', v))
    ensures OperandsAt(g', u) == OperandsAt(g, u)[k := Rewritten(pass, g, u, OperandsAt(g, u)[k])]
    ensures RewriteOperands(pass, g, u, k) == RewriteOperands(pass, g', u, k + 1)
    ensures Rewritten(pass, g, u, OperandsAt(g, u)[k]) == OperandsAt(g, u)[k] ==> g' == g
  {
    var o := Rewritten(pass, g, u, OperandsAt(g, u)[k]);
    g' := SetOperand(g, u, k, o);
    SetOperandSameShape(g, u, k, o);
    SameShapeClosed(g, g', u);
    if v != u { OnePointSet(g, u, k, o, v); }
    SetSameOperand(g, u, k);
    hide SameShape, Rewritten, SetOperand, Closed, SamePoint, Valid, OperandsAt;
  }

  lemma OnePointSet(g: Graph, u: Position, k: nat, o: Operand, v: Position)
    requires Valid(g, u) && k < |OperandsAt(g, u)| && Valid(g, v) && v != u
    ensures SamePoint(g, SetOperand(g, u, k, o), v)
  {
  }

  lemma OneAssignmentSet(g: Graph, u: Position, a: Assignment, v: Position)
    requires u.block in g.blocks && u.index < Length(g, u.block) && Valid(g, v)
    ensures v != u ==> SamePoint(g, SetAssignment(g, u, a), v)
    ensures At(SetAssignment(g, u, a), u) == a
    ensures a == At(g, u) ==> SetAssignment(g, u, a) == g
  {
    if a == At(g, u) {
      var block := g.blocks[u.block];
      assert block.assignments[u.index := a] == block.assignments;
      assert g.blocks[u.block := block] == g.blocks;
    }
  }

  /** What folding makes of an assignment either is the assignment or a move of a literal that it was not. */
  lemma FoldedOrNot(a: Assignment)
    requires Folded(a).Some?
    ensures var f := Folded(a).value; f == a || (f.Unary? && f.source.Literal?)
  {
  }

  /** One point: nothing else changes, and nothing at all exactly if there is nothing to do. */
  lemma PointIdle(pass: Pass, g: Graph, u: Position)
    requires Closed(g) && Valid(g, u)
    ensures RewritePoint(pass, g, u) == Some(g) <==> Idle(pass, g, u)
  {
    OperandsIdle(pass, g, u, 0);
    RewriteOperandsSameShape(pass, g, u, 0);
    var g' := RewriteOperands(pass, g, u, 0);
    if pass.Folding? && u.index < Length(g, u.block) && Folded(At(g', u)).Some? {
      OneAssignmentSet(g', u, Folded(At(g', u)).value, u);
      FoldedOrNot(At(g', u));
      LiteralsStay(pass, g, u);
      hide RewriteOperands, SetAssignment, Folded, SameShape, Closed, Rewritten;
    }
  }

  lemma LiteralsStay(pass: Pass, g: Graph, u: Position)
    requires Valid(g, u)
    ensures u.index < Length(g, u.block) && At(g, u).Unary? && At(g, u).source.Literal? ==> IdleFrom(pass, g, u, 0)
  {
  }

  lemma PointElsewhere(pass: Pass, g: Graph, u: Position, v: Position)
    requires Closed(g) && Valid(g, u) && Valid(g, v) && v != u && RewritePoint(pass, g, u).Some?
    ensures SamePoint(g, RewritePoint(pass, g, u).value, v)
  {
    OtherPoints(pass, g, u, 0, v);
    RewriteOperandsSameShape(pass, g, u, 0);
    var g' := RewriteOperands(pass, g, u, 0);
    SamePointValid(g, g', v);
    if pass.Folding? && u.index < Length(g, u.block) {
      var a := Folded(At(g', u)).value;
      OneAssignmentSet(g', u, a, v);
      hide RewriteOperands, SetAssignment, Folded, SameShape, SamePoint;
      SamePointTransitive(g, g', SetAssignment(g', u, a), v);
    }
  }

  // ----- blocks and methods -----

  /** Nothing to do in a block from point `i` on. */
  ghost predicate IdleBlock(pass: Pass, g: Graph, b: BlockId, i: nat)
    requires b in g.blocks
  {
    forall k :: i <= k <= Length(g, b) ==> Idle(pass, g, Position(b, k))
  }

  lemma {:induction false} BlockElsewhere(pass: Pass, g: Graph, b: BlockId, i: nat, v: Position)
    requires Closed(g) && b in g.blocks && i <= Length(g, b) + 1 && RewriteBlock(pass, g, b, i).Some?
    requires Valid(g, v) && (v.block != b || v.index < i)
    ensures SamePoint(g, RewriteBlock(pass, g, b, i).value, v)
    decreases Length(g, b) + 1 - i
  {
    if i < Length(g, b) + 1 {
      var u := Position(b, i);
      RewritePointSameShape(pass, g, u);
      PointElsewhere(pass, g, u, v);
      hide RewritePoint, SameShape, SamePoint, Closed;
      var g' := RewritePoint(pass, g, u).value;
      SamePointValid(g, g', v);
      BlockElsewhere(pass, g', b, i + 1, v);
      SamePointTransitive(g, g', RewriteBlock(pass, g', b, i + 1).value, v);
    }
  }

  /** If a block is as it was in the end, it was so after its first point. */
  lemma BlockBack(pass: Pass, g: Graph, b: BlockId, i: nat)
    requires Closed(g) && b in g.blocks && i <= Length(g, b) && RewriteBlock(pass, g, b, i) == Some(g)
    ensures RewritePoint(pass, g, Position(b, i)) == Some(g)
  {
    var u := Position(b, i);
    RewritePointSameShape(pass, g, u);
    var g' := RewritePoint(pass, g, u).value;
    hide RewritePoint, SameShape, SamePoint, Closed;
    forall v | Valid(g, v) ensures SamePoint(g, g', v) {
      if v == u {
        BlockElsewhere(pass, g', b, i + 1, v);
        SamePointBack(g, g', v);
      } else {
        PointElsewhere(pass, g, u, v);
      }
    }
    hide RewriteBlock;
    SameEverywhere(g, g');
  }

  lemma {:induction false} BlockIdle(pass: Pass, g: Graph, b: BlockId, i: nat)
    requires Closed(g) && b in g.blocks && i <= Length(g, b) + 1
    ensures RewriteBlock(pass, g, b, i) == Some(g) <==> IdleBlock(pass, g, b, i)
    decreases Length(g, b) + 1 - i
  {
    hide RewritePoint, SameShape, Closed, Idle;
    if i < Length(g, b) + 1 {
      var u := Position(b, i);
      PointIdle(pass, g, u);
      if RewriteBlock(pass, g, b, i) == Some(g) { BlockBack(pass, g, b, i); }
      if RewritePoint(pass, g, u) == Some(g) {
        BlockIdle(pass, g, b, i + 1);
        IdleBlockStep(pass, g, b, i);
      }
    }
  }

  lemma IdleBlockStep(pass: Pass, g: Graph, b: BlockId, i: nat)
    requires b in g.blocks && i <= Length(g, b)
    ensures IdleBlock(pass, g, b, i) <==> Idle(pass, g, Position(b, i)) && IdleBlock(pass, g, b, i + 1)
  {
    hide Idle;
  }

  lemma SamePointBack(g: Graph, g': Graph, v: Position)
    requires SamePoint(g', g, v)
    ensures SamePoint(g, g', v)
  {
  }

  /** There is nothing to do in the method: no operand can be replaced and nothing can be folded, anywhere. */
  ghost predicate NothingToDo(pass: Pass, g: Graph) {
    forall u :: Valid(g, u) ==> Idle(pass, g, u)
  }

  ghost predicate IdleBlocks(pass: Pass, g: Graph, j: nat)
    requires WellFormed(g)
  {
    forall k :: j <= k < |g.order| ==> g.order[k] in g.blocks && IdleBlock(pass, g, g.order[k], 0)
  }

  lemma {:induction false} GraphElsewhere(pass: Pass, g: Graph, j: nat, v: Position)
    requires WellFormed(g) && j <= |g.order| && RewriteGraph(pass, g, j).Some?
    requires Valid(g, v) && v.block !in g.order[j..]
    ensures SamePoint(g, RewriteGraph(pass, g, j).value, v)
    decreases |g.order| - j
  {
    hide RewriteBlock, PredecessorsAgree, Closed;
    if j == |g.order| {
      SamePointReflexive(g, v);
    } else {
      hide SamePoint, Valid;
      RewriteGraphUnfolds(pass, g, j);
      BlockElsewhere(pass, g, g.order[j], 0, v);
      var g' := RewriteBlock(pass, g, g.order[j], 0).value;
      SamePointValid(g, g', v);
      assert g.order[j..][1..] == g.order[j + 1..];
      GraphElsewhere(pass, g', j + 1, v);
      SamePointTransitive(g, g', RewriteGraph(pass, g', j + 1).value, v);
    }
  }

  lemma GraphBack(pass: Pass, g: Graph, j: nat)
    requires WellFormed(g) && FallsThrough(g) && j < |g.order| && RewriteGraph(pass, g, j) == Some(g)
    ensures RewriteBlock(pass, g, g.order[j], 0) == Some(g)
  {
    var b := g.order[j];
    RewriteGraphUnfolds(pass, g, j);
    RewriteBlockSameShape(pass, g, b, 0);
    var g' := RewriteBlock(pass, g, b, 0).value;
    hide RewriteBlock, SameShape, SamePoint, WellFormed, FallsThrough, Valid;
    forall v | Valid(g, v) ensures SamePoint(g, g', v) {
      if v.block == b {
        BlockLater(g, g', j, v);
        GraphElsewhere(pass, g', j + 1, v);
        SamePointBack(g, g', v);
      } else {
        BlockElsewhere(pass, g, b, 0, v);
      }
    }
    hide RewriteGraph;
    SameEverywhere(g, g');
  }

  lemma {:induction false} GraphIdle(pass: Pass, g: Graph, j: nat)
    requires WellFormed(g) && FallsThrough(g) && j <= |g.order|
    ensures RewriteGraph(pass, g, j) == Some(g) <==> IdleBlocks(pass, g, j)
    decreases |g.order| - j
  {
    hide RewriteBlock, PredecessorsAgree, Closed, IdleBlock, FallsThrough;
    if j < |g.order| {
      var b := g.order[j];
      BlockIdle(pass, g, b, 0);
      if RewriteGraph(pass, g, j) == Some(g) { GraphBack(pass, g, j); }
      if RewriteBlock(pass, g, b, 0) == Some(g) {
        RewriteGraphUnfolds(pass, g, j);
        GraphIdle(pass, g, j + 1);
      }
      IdleBlocksStep(pass, g, j);
    }
  }

  lemma IdleBlocksStep(pass: Pass, g: Graph, j: nat)
    requires WellFormed(g) && j < |g.order|
    ensures IdleBlocks(pass, g, j) <==> IdleBlock(pass, g, g.order[j], 0) && IdleBlocks(pass, g, j + 1)
  {
    hide IdleBlock;
  }

  lemma BlockLater(g: Graph, g': Graph, j: nat, v: Position)
    requires SameShape(g, g') && FallsThrough(g) && j < |g.order| && Valid(g, v) && v.block == g.order[j]
    ensures Valid(g', v) && v.block !in g'.order[j + 1..]
  {
  }

  /** A finished pass leaves a method as it is exactly if there is nothing to do anywhere in it: every operand of
      every assignment and of every terminal is looked at, and every assignment that can be folded is. */
  lemma UnchangedExactly(pass: Pass, g: Graph)
    requires WellFormed(g) && FallsThrough(g)
    ensures RewriteGraph(pass, g, 0) == Some(g) <==> NothingToDo(pass, g)
  {
    GraphIdle(pass, g, 0);
    hide Idle, RewriteGraph, PredecessorsAgree, Closed, FallsThrough;
    if IdleBlocks(pass, g, 0) {
      forall u | Valid(g, u) ensures Idle(pass, g, u) {
        var k :| 0 <= k < |g.order| && g.order[k] == u.block;
        assert IdleBlock(pass, g, g.order[k], 0);
        assert u == Position(u.block, u.index);
      }
    }
  }
}
