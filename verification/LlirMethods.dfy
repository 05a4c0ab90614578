/** A method under optimization: the object whose blocks the passes overwrite in place. */
module LlirMethods {
  import opened Worlds
  import opened Llir
  import opened ReachingDefinitions
  import opened Rewriting

  class LlirMethod {
    const identifier: string
    const arguments: seq<FieldDeclaration>
    var order: seq<BlockId>
    var blocks: map<BlockId, Block>
    var predecessors: map<BlockId, seq<BlockId>>

    constructor (identifier: string, arguments: seq<FieldDeclaration>, g: Graph)
      ensures this.identifier == identifier && this.arguments == arguments && Value() == g
    {
      this.identifier, this.arguments := identifier, arguments;
      order, blocks, predecessors := g.order, g.blocks, g.predecessors;
    }

    function Value(): Graph
      reads this
    {
      Graph(order, blocks, predecessors)
    }

    /** `*operand = ...` through a pointer into an assignment or a terminal. */
    method StoreOperand(u: Position, k: nat, o: Operand)
      requires Valid(Value(), u) && k < |OperandsAt(Value(), u)|
      modifies this`blocks
      ensures Value() == SetOperand(old(Value()), u, k, o)
    {
      var block := blocks[u.block];
      if u.index < |block.assignments| {
        var a := WithOperand(block.assignments[u.index], k, o);
        blocks := blocks[u.block := block.(assignments := block.assignments[u.index := a])];
      } else {
        blocks := blocks[u.block := block.(terminal := WithTerminalOperand(block.terminal, k, o))];
      }
    }

    /** `g_array_remove_index` on a block's assignments. */
    method RemoveAssignment(b: BlockId, i: nat)
      requires b in blocks && i < |blocks[b].assignments|
      modifies this`blocks
      ensures blocks == old(blocks)[b := old(blocks[b]).(assignments :=
        old(blocks[b].assignments)[..i] + old(blocks[b].assignments)[i + 1..])]
    {
      var block := blocks[b];
      blocks := blocks[b := block.(assignments := block.assignments[..i] + block.assignments[i + 1..])];
    }

    /** Overwrites the fields of one assignment. */
    method StoreAssignment(u: Position, a: Assignment)
      requires u.block in blocks && u.index < |blocks[u.block].assignments|
      modifies this`blocks
      ensures Value() == SetAssignment(old(Value()), u, a)
    {
      var block := blocks[u.block];
      blocks := blocks[u.block := block.(assignments := block.assignments[u.index := a])];
    }
  }
}
