/** `cp.c`: copy propagation, step by step on a method object. */
module CopyPropagation {
  import opened Words
  import opened Worlds
  import opened Llir
  import opened LlirMethods
  import opened ReachingDefinitions
  import opened Rewriting
  import opened OperandPasses
  import Names

  /** The definitions all copy `y`, a local that nothing in between overwrites. */
  ghost predicate AllCopy(g: Graph, definitions: seq<Position>, mutated: set<string>, y: string) {
    AllMove(g, definitions, Field(y)) && !Names.LooksGlobal(y) && y !in mutated
  }

  /** `can_propagate_copy`. */
  method CanPropagateCopy(g: Graph, definitions: seq<Position>, mutated: set<string>)
    returns (identifier: Option<string>)
    requires forall d :: d in definitions ==> d.block in g.blocks && d.index < Length(g, d.block)
    ensures identifier.Some? ==> AllCopy(g, definitions, mutated, identifier.value)
    ensures identifier.None? ==> forall y :: !AllCopy(g, definitions, mutated, y)
  {
    if |definitions| == 0 {
      return None;
    }
    var field := "";
    for i := 0 to |definitions|
      invariant forall j :: 0 <= j < i ==> IsMove(g, definitions[j], Field(field))
      invariant i > 0 ==> !Names.LooksGlobal(field)
    {
      assert definitions[0] in definitions && definitions[i] in definitions;
      var assignment := g.blocks[definitions[i].block].assignments[definitions[i].index];
      if !(assignment.Unary? && assignment.unaryOp == Move) || !assignment.source.Field? {
        return None;
      }
      if Names.LooksGlobal(assignment.source.name) {
        return None;
      }
      if i == 0 {
        field := assignment.source.name;
      } else if field != assignment.source.name {
        assert IsMove(g, definitions[0], Field(field));
        return None;
      }
    }
    if field in mutated {
      assert definitions[0] in definitions;
      return None;
    }
    return Some(field);
  }

  /** The definitions and the mutated names decide the replacement. */
  lemma CopyDecided(g: Graph, u: Position, x: string, definitions: seq<Position>, mutated: set<string>,
                    identifier: Option<string>)
    requires !Names.LooksGlobal(x)
    requires forall d :: d in definitions <==> IsReachingDefinition(g, x, u, d)
    requires forall n :: n in mutated <==> IsMutated(g, x, u, n)
    requires identifier.Some? ==> AllCopy(g, definitions, mutated, identifier.value)
    requires identifier.None? ==> forall y :: !AllCopy(g, definitions, mutated, y)
    ensures Rewritten(Copying, g, u, Field(x)) == if identifier.Some? then Field(identifier.value) else Field(x)
  {
    forall y ensures CopyAt(g, x, u, y) <==> AllCopy(g, definitions, mutated, y) {
      AllMoveDecides(g, x, u, definitions, Field(y));
    }
    if identifier.Some? {
      assert CopyAt(g, x, u, identifier.value);
      assert definitions[0] in definitions;
      forall y | CopyAt(g, x, u, y) ensures y == identifier.value {
        assert IsMove(g, definitions[0], Field(y));
      }
    }
  }

  /** `optimize_operand`. */
  method OptimizeOperand(m: LlirMethod, u: Position, k: nat)
    requires WellFormed(m.Value()) && Valid(m.Value(), u) && k < |OperandsAt(m.Value(), u)|
    modifies m`blocks
    ensures m.Value() == SetOperand(old(m.Value()), u, k,
      Rewritten(Copying, old(m.Value()), u, old(OperandsAt(m.Value(), u)[k])))
  {
    ghost var g := m.Value();
    var operand := OperandsAt(m.Value(), u)[k];
    SetSameOperand(g, u, k);
    if !operand.Field? || Names.LooksGlobal(operand.name) {
      return;
    }
    var search := new DefinitionSearch();
    search.FindDefinitions(m.Value(), u, operand.name);
    var identifier := CanPropagateCopy(m.Value(), search.definitions, search.mutated);
    CopyDecided(g, u, operand.name, search.definitions, search.mutated, identifier);
    if identifier.Some? {
      m.StoreOperand(u, k, Field(identifier.value));
    }
  }

  /** `optimize_assignment` and `optimize_terminal`: every operand of the point in turn. */
  method OptimizePoint(m: LlirMethod, u: Position)
    requires WellFormed(m.Value()) && Valid(m.Value(), u)
    modifies m`blocks
    ensures RewritePoint(Copying, old(m.Value()), u) == Some(m.Value())
  {
    ghost var g := m.Value();
    var k := 0;
    while k < |OperandsAt(m.Value(), u)|
      invariant WellFormed(m.Value()) && Valid(m.Value(), u) && k <= |OperandsAt(m.Value(), u)|
      invariant RewriteOperands(Copying, m.Value(), u, k) == RewriteOperands(Copying, g, u, 0)
      decreases |OperandsAt(m.Value(), u)| - k
    {
      ghost var before := m.Value();
      SetOperandSameShape(before, u, k, Rewritten(Copying, before, u, OperandsAt(before, u)[k]));
      OptimizeOperand(m, u, k);
      SameShapeWellFormed(before, m.Value());
      k := k + 1;
    }
  }

  /** `iterate_block` with these callbacks. */
  method OptimizeBlock(m: LlirMethod, b: BlockId)
    requires WellFormed(m.Value()) && b in m.blocks
    modifies m`blocks
    ensures RewriteBlock(Copying, old(m.Value()), b, 0) == Some(m.Value())
  {
    hide RewritePoint, PredecessorsAgree;
    ghost var target := RewriteBlock(Copying, m.Value(), b, 0);
    ghost var g := m.Value();
    var i := 0;
    while i <= |m.blocks[b].assignments|
      invariant m.Value() == g
      invariant WellFormed(g) && b in g.blocks && i <= Length(g, b) + 1
      invariant RewriteBlock(Copying, g, b, i) == target
      decreases Length(g, b) + 1 - i
    {
      RewriteBlockUnfolds(Copying, g, b, i);
      OptimizePoint(m, Position(b, i));
      g := m.Value();
      i := i + 1;
    }
  }

  /** `optimization_copy_propagation` on one method. */
  method Optimize(m: LlirMethod)
    requires WellFormed(m.Value())
    modifies m`blocks
    ensures RewriteGraph(Copying, old(m.Value()), 0) == Some(m.Value())
  {
    ghost var target := RewriteGraph(Copying, m.Value(), 0);
    ghost var g := m.Value();
    var j := 0;
    while j < |m.order|
      invariant m.Value() == g
      invariant WellFormed(g) && j <= |g.order|
      invariant RewriteGraph(Copying, g, j) == target
      decreases |g.order| - j
    {
      RewriteGraphUnfolds(Copying, g, j);
      assert m.order[j] in g.order;
      OptimizeBlock(m, m.order[j]);
      g := m.Value();
      j := j + 1;
    }
  }
}
