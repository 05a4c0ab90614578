/** `cf.c`: constant folding, step by step on a method object. */
module ConstantFolding {
  import opened Words
  import opened Worlds
  import opened Llir
  import opened LlirMethods
  import opened ReachingDefinitions
  import opened Rewriting
  import opened OperandPasses
  import Names

  /** `all_definitions_are_constant`. */
  method AllDefinitionsAreConstant(g: Graph, definitions: seq<Position>) returns (constant: Option<Word>)
    requires forall d :: d in definitions ==> d.block in g.blocks && d.index < Length(g, d.block)
    ensures constant.Some? ==> AllMove(g, definitions, Literal(constant.value))
    ensures constant.None? ==> forall c :: !AllMove(g, definitions, Literal(c))
  {
    if |definitions| == 0 {
      return None;
    }
    var initializer: Word := 0;
    for i := 0 to |definitions|
      invariant forall j :: 0 <= j < i ==> IsMove(g, definitions[j], Literal(initializer))
    {
      assert definitions[0] in definitions && definitions[i] in definitions;
      var assignment := g.blocks[definitions[i].block].assignments[definitions[i].index];
      if !(assignment.Unary? && assignment.unaryOp == Move) || !assignment.source.Literal? {
        return None;
      }
      if i == 0 {
        initializer := assignment.source.value;
      } else if assignment.source.value != initializer {
        assert IsMove(g, definitions[0], Literal(initializer));
        return None;
      }
    }
    return Some(initializer);
  }

  /** The set of definitions decides the replacement. */
  lemma FoldingDecided(g: Graph, u: Position, x: string, definitions: seq<Position>, constant: Option<Word>)
    requires !Names.LooksGlobal(x)
    requires forall d :: d in definitions <==> IsReachingDefinition(g, x, u, d)
    requires constant.Some? ==> AllMove(g, definitions, Literal(constant.value))
    requires constant.None? ==> forall c :: !AllMove(g, definitions, Literal(c))
    ensures Rewritten(Folding, g, u, Field(x)) == if constant.Some? then Literal(constant.value) else Field(x)
  {
    forall c: Word ensures ConstantAt(g, x, u, c) <==> AllMove(g, definitions, Literal(c)) {
      AllMoveDecides(g, x, u, definitions, Literal(c));
    }
    if constant.Some? {
      assert ConstantAt(g, x, u, constant.value);
      assert definitions[0] in definitions;
      forall c | ConstantAt(g, x, u, c) ensures c == constant.value {
        assert IsMove(g, definitions[0], Literal(c));
      }
    }
  }

  /** `optimize_operand`. */
  method OptimizeOperand(m: LlirMethod, u: Position, k: nat)
    requires WellFormed(m.Value()) && Valid(m.Value(), u) && k < |OperandsAt(m.Value(), u)|
    modifies m`blocks
    ensures m.Value() == SetOperand(old(m.Value()), u, k,
      Rewritten(Folding, old(m.Value()), u, old(OperandsAt(m.Value(), u)[k])))
  {
    ghost var g := m.Value();
    var operand := OperandsAt(m.Value(), u)[k];
    SetSameOperand(g, u, k);
    if !operand.Field? || Names.LooksGlobal(operand.name) {
      return;
    }
    var search := new DefinitionSearch();
    search.FindDefinitions(m.Value(), u, operand.name);
    var constant := AllDefinitionsAreConstant(m.Value(), search.definitions);
    FoldingDecided(g, u, operand.name, search.definitions, constant);
    if constant.Some? {
      m.StoreOperand(u, k, Literal(constant.value));
    }
  }

  /** The operand loop of `optimize_assignment` and `optimize_terminal`. */
  method OptimizeOperands(m: LlirMethod, u: Position)
    requires WellFormed(m.Value()) && Valid(m.Value(), u)
    modifies m`blocks
    ensures m.Value() == RewriteOperands(Folding, old(m.Value()), u, 0)
  {
    ghost var g := m.Value();
    var k := 0;
    while k < |OperandsAt(m.Value(), u)|
      invariant WellFormed(m.Value()) && Valid(m.Value(), u) && k <= |OperandsAt(m.Value(), u)|
      invariant RewriteOperands(Folding, m.Value(), u, k) == RewriteOperands(Folding, g, u, 0)
      decreases |OperandsAt(m.Value(), u)| - k
    {
      ghost var before := m.Value();
      SetOperandSameShape(before, u, k, Rewritten(Folding, before, u, OperandsAt(before, u)[k]));
      OptimizeOperand(m, u, k);
      SameShapeWellFormed(before, m.Value());
      k := k + 1;
    }
  }

  /** `optimize_assignment` and `optimize_terminal`: every operand of the point, then the fold. */
  method OptimizePoint(m: LlirMethod, u: Position) returns (ok: bool)
    requires WellFormed(m.Value()) && Valid(m.Value(), u)
    modifies m`blocks
    ensures RewritePoint(Folding, old(m.Value()), u) == if ok then Some(m.Value()) else None
  {
    RewriteOperandsSameShape(Folding, m.Value(), u, 0);
    OptimizeOperands(m, u);
    if u.index < |m.blocks[u.block].assignments| {
      var folded := Folded(m.blocks[u.block].assignments[u.index]);
      if folded.None? {
        return false;
      }
      m.StoreAssignment(u, folded.value);
    }
    return true;
  }

  /** `iterate_block` with these callbacks. */
  method OptimizeBlock(m: LlirMethod, b: BlockId) returns (ok: bool)
    requires WellFormed(m.Value()) && b in m.blocks
    modifies m`blocks
    ensures RewriteBlock(Folding, old(m.Value()), b, 0) == if ok then Some(m.Value()) else None
  {
    hide RewritePoint;
    ghost var target := RewriteBlock(Folding, m.Value(), b, 0);
    ghost var g := m.Value();
    var i := 0;
    while i <= |m.blocks[b].assignments|
      invariant m.Value() == g
      invariant WellFormed(g) && b in g.blocks && i <= Length(g, b) + 1
      invariant RewriteBlock(Folding, g, b, i) == target
      decreases Length(g, b) + 1 - i
    {
      RewriteBlockUnfolds(Folding, g, b, i);
      ok := OptimizePoint(m, Position(b, i));
      if !ok {
        return false;
      }
      g := m.Value();
      i := i + 1;
    }
    return true;
  }

  /** `optimization_constant_folding` on one method; `ok` is false when the compiler itself would
      have divided by zero. */
  method Optimize(m: LlirMethod) returns (ok: bool)
    requires WellFormed(m.Value())
    modifies m`blocks
    ensures RewriteGraph(Folding, old(m.Value()), 0) == if ok then Some(m.Value()) else None
  {
    ghost var target := RewriteGraph(Folding, m.Value(), 0);
    ghost var g := m.Value();
    var j := 0;
    while j < |m.order|
      invariant m.Value() == g
      invariant WellFormed(g) && j <= |g.order|
      invariant RewriteGraph(Folding, g, j) == target
      decreases |g.order| - j
    {
      RewriteGraphUnfolds(Folding, g, j);
      assert m.order[j] in g.order;
      ok := OptimizeBlock(m, m.order[j]);
      if !ok {
        return false;
      }
      g := m.Value();
      j := j + 1;
    }
    return true;
  }
}
