/** What the peephole does to the emitted code: it drops the jumps to the next instruction, and nothing else. */
module Peephole {
  import opened Words
  import opened Llir
  import opened Machine
  import opened CodeGeneration
  import opened LinearCode

  /** The code without its jumps to the label that comes next. */
  function WithoutIdleJumps(code: seq<Instruction>): seq<Instruction> {
    if code == [] then []
    else if code[0].JumpTo? && |code| > 1 && code[1] == BlockLabel(code[0].block) then WithoutIdleJumps(code[1..])
    else [code[0]] + WithoutIdleJumps(code[1..])
  }

  /** The targets of the unconditional jumps of a piece of code, in order. */
  function JumpTargets(code: seq<Instruction>): seq<BlockId> {
    if code == [] then []
    else (if code[0].JumpTo? then [code[0].block] else []) + JumpTargets(code[1..])
  }

  /** The targets of the blocks that end in a jump, in layout order. */
  function BlockJumps(order: seq<BlockId>, blocks: map<BlockId, Block>): seq<BlockId> {
    if order == [] then []
    else
      (if order[0] in blocks && blocks[order[0]].terminal.Jump? then [blocks[order[0]].terminal.target] else [])
      + BlockJumps(order[1..], blocks)
  }

  ghost predicate NoJumps(code: seq<Instruction>) {
    forall i :: 0 <= i < |code| ==> !code[i].JumpTo?
  }

  lemma {:induction false} JumplessPrefix(first: seq<Instruction>, second: seq<Instruction>)
    requires NoJumps(first)
    ensures WithoutIdleJumps(first + second) == first + WithoutIdleJumps(second)
    ensures JumpTargets(first + second) == JumpTargets(second)
  {
    if first == [] {
      assert first + second == second;
    } else {
      assert (first + second)[0] == first[0] && (first + second)[1..] == first[1..] + second;
      JumplessPrefix(first[1..], second);
      assert first == [first[0]] + first[1..];
    }
  }

  lemma StraightHasNoJumps(code: seq<Instruction>)
    requires AllStraight(code)
    ensures NoJumps(code)
  {
  }

  /** The label and the assignments of a block, and what its terminal adds before a jump. */
  function BlockFront(offsets: Offsets, b: BlockId, block: Block): seq<Instruction> {
    [BlockLabel(b)] + (AssignmentsCode(offsets, block.assignments)
      + if block.terminal.Jump? then [] else TerminalCode(offsets, block.terminal, None, false))
  }

  lemma FrontHasNoJumps(offsets: Offsets, b: BlockId, block: Block)
    ensures NoJumps(BlockFront(offsets, b, block))
  {
    hide AssignmentsCode;
    AssignmentsStraight(offsets, block.assignments);
    StraightHasNoJumps(AssignmentsCode(offsets, block.assignments));
    if !block.terminal.Jump? { TerminalJumps(offsets, block.terminal); }
  }

  lemma TerminalJumps(offsets: Offsets, t: Terminal)
    requires !t.Jump?
    ensures NoJumps(TerminalCode(offsets, t, None, false))
  {
  }

  lemma BlockIsFront(offsets: Offsets, b: BlockId, block: Block, next: Option<BlockId>, peephole: bool)
    ensures BlockCode(offsets, b, block, next, peephole) == BlockFront(offsets, b, block)
      + if block.terminal.Jump? && !(peephole && next == Some(block.terminal.target)) then
          [JumpTo(block.terminal.target)] else []
  {
    hide AssignmentsCode;
    assert forall a: seq<Instruction> :: a + [] == a;
  }

  /** What follows a block starts with the label of the next one. */
  lemma NextLabel(offsets: Offsets, order: seq<BlockId>, blocks: map<BlockId, Block>, peephole: bool)
    requires forall b :: b in order ==> b in blocks
    ensures var code := BodyCode(offsets, order, blocks, peephole);
      if order == [] then code == [] else code != [] && code[0] == BlockLabel(order[0])
  {
    if order != [] {
      var next := if |order| > 1 then Some(order[1]) else None;
      BlockIsFront(offsets, order[0], blocks[order[0]], next, peephole);
    }
  }

  /** A piece without jumps, perhaps one jump, and code that starts with the label of `next` or is empty. */
  lemma JumpDropped(front: seq<Instruction>, jump: Option<BlockId>, code: seq<Instruction>, next: Option<BlockId>)
    requires NoJumps(front) && if next.None? then code == [] else code != [] && code[0] == BlockLabel(next.value)
    ensures var all := front + (if jump.Some? then [JumpTo(jump.value)] else []) + code;
      && WithoutIdleJumps(all) == front + (if jump.Some? && next != jump then [JumpTo(jump.value)] else [])
           + WithoutIdleJumps(code)
      && JumpTargets(all) == (if jump.Some? then [jump.value] else []) + JumpTargets(code)
  {
    var middle := if jump.Some? then [JumpTo(jump.value)] else [];
    assert front + middle + code == front + (middle + code);
    JumplessPrefix(front, middle + code);
    if jump.Some? {
      assert (middle + code)[0] == JumpTo(jump.value) && (middle + code)[1..] == code;
    } else {
      assert middle + code == code;
    }
  }

  /** With the peephole on, the code of a method's body is the code with the peephole off without its jumps to the
      next instruction; and with the peephole off, every block that ends in a jump has its jump. */
  lemma {:induction false} PeepholeIsExact(offsets: Offsets, order: seq<BlockId>, blocks: map<BlockId, Block>)
    requires forall b :: b in order ==> b in blocks
    ensures BodyCode(offsets, order, blocks, true) == WithoutIdleJumps(BodyCode(offsets, order, blocks, false))
    ensures JumpTargets(BodyCode(offsets, order, blocks, false)) == BlockJumps(order, blocks)
  {
    hide BlockCode, NoJumps, WithoutIdleJumps, JumpTargets, BlockFront;
    if order == [] {
      NothingToDrop();
    } else {
      var b, rest := order[0], order[1..];
      var block, next := blocks[b], if |order| > 1 then Some(order[1]) else None;
      var jump := if block.terminal.Jump? then Some(block.terminal.target) else None;
      PeepholeIsExact(offsets, rest, blocks);
      NextLabel(offsets, rest, blocks, false);
      BlockIsFront(offsets, b, block, next, true);
      BlockIsFront(offsets, b, block, next, false);
      FrontHasNoJumps(offsets, b, block);
      JumpDropped(BlockFront(offsets, b, block), jump, BodyCode(offsets, rest, blocks, false), next);
    }
  }

  lemma NothingToDrop()
    ensures WithoutIdleJumps([]) == [] && JumpTargets([]) == []
  {
  }
}
