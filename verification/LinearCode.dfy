/** The linear code of a method: where blocks stand, falling through, and the run of the whole body. */
module LinearCode {
  import opened Words
  import opened Worlds
  import opened Llir
  import opened Machine
  import opened CodeGeneration
  import opened Selection
  import opened Rewriting
  import opened DeadCode

  ghost predicate AllStraight(code: seq<Instruction>) {
    forall k :: 0 <= k < |code| ==> IsStraight(code[k])
  }

  lemma {:induction false} ArgumentsStraight(offsets: Offsets, os: seq<Operand>)
    ensures AllStraight(ArgumentsCode(offsets, os))
  {
    if os != [] { ArgumentsStraight(offsets, os[..|os| - 1]); }
  }

  lemma AssignmentStraight(offsets: Offsets, a: Assignment)
    ensures AllStraight(AssignmentCode(offsets, a))
  {
    hide Operation, Load, Save, LoadArray, AllStraight, CallCode;
    forall o: Operand, to ensures AllStraight(Load(offsets, o, to)) { LoadStraight(offsets, o, to); }
    forall n: string, r ensures AllStraight(Save(offsets, n, r))
      && AllStraight(LoadArray(offsets, n, r)) { SaveStraight(offsets, n, r); }
    OperationsStraight();
    match a
    case Unary(op, d, s) =>
      PiecesStraight(UnaryOperation(op), Save(offsets, d, UnaryResultRegister(op)));
      PiecesStraight(Load(offsets, s, R10), UnaryOperation(op) + Save(offsets, d, UnaryResultRegister(op)));
    case Binary(op, d, l, r) =>
      var save := Save(offsets, d, ResultRegister(op));
      PiecesStraight(Operation(op), save);
      PiecesStraight(Load(offsets, r, R11), Operation(op) + save);
      PiecesStraight(Load(offsets, l, R10), Load(offsets, r, R11) + (Operation(op) + save));
    case ArrayAccess(d, i, name) =>
      var rest := [Scale(R11), AddTo(R11, R10), LoadIndirect(R10, R11)] + Save(offsets, d, R11);
      PiecesStraight([Scale(R11), AddTo(R11, R10), LoadIndirect(R10, R11)], Save(offsets, d, R11));
      PiecesStraight(Load(offsets, i, R11), rest);
      PiecesStraight(LoadArray(offsets, name, R10), Load(offsets, i, R11) + rest);
    case ArrayUpdate(d, i, v) =>
      var rest := [Scale(R11), AddTo(R11, R10)] + (Load(offsets, v, R11) + [StoreIndirect(R11, R10)]);
      PiecesStraight(Load(offsets, v, R11), [StoreIndirect(R11, R10)]);
      PiecesStraight([Scale(R11), AddTo(R11, R10)], Load(offsets, v, R11) + [StoreIndirect(R11, R10)]);
      PiecesStraight(Load(offsets, i, R11), rest);
      PiecesStraight(LoadArray(offsets, d, R10), Load(offsets, i, R11) + rest);
    case Call(d, callee, os) => CallStraight(offsets, d, callee, os);
  }

  lemma SaveStraight(offsets: Offsets, n: string, r: Register)
    ensures AllStraight(Save(offsets, n, r)) && AllStraight(LoadArray(offsets, n, r))
  {
  }

  lemma OperationsStraight()
    ensures forall op :: AllStraight(Operation(op))
    ensures forall op :: AllStraight(UnaryOperation(op))
    ensures AllStraight([Scale(R11), AddTo(R11, R10), LoadIndirect(R10, R11)])
      && AllStraight([Scale(R11), AddTo(R11, R10)])
    ensures AllStraight([StoreIndirect(R11, R10)])
  {
  }

  lemma CallStraight(offsets: Offsets, d: string, callee: string, os: seq<Operand>)
    ensures AllStraight(CallCode(offsets, d, callee, os))
  {
    ArgumentsStraight(offsets, os);
    hide ArgumentsCode;
    var tail := (if |os| > 6 then [ShrinkStack(ExtraStack(|os|))] else []) + Save(offsets, d, Rax);
    PiecesStraight([MoveImmediate(0, Rax), CallMethod(callee, |os|)], tail);
    PiecesStraight(ArgumentsCode(offsets, os), [MoveImmediate(0, Rax), CallMethod(callee, |os|)] + tail);
  }

  lemma PiecesStraight(first: seq<Instruction>, second: seq<Instruction>)
    requires AllStraight(first) && AllStraight(second)
    ensures AllStraight(first + second)
  {
  }

  /** `piece` stands at `pc`. */
  ghost predicate CodeAt(code: seq<Instruction>, pc: nat, piece: seq<Instruction>) {
    pc + |piece| <= |code| && code[pc..pc + |piece|] == piece
  }

  lemma CodeAtParts(code: seq<Instruction>, pc: nat, first: seq<Instruction>, second: seq<Instruction>)
    ensures CodeAt(code, pc, first + second) <==> CodeAt(code, pc, first) && CodeAt(code, pc + |first|, second)
  {
    if CodeAt(code, pc, first + second) {
      var piece := code[pc..pc + |first + second|];
      assert piece[..|first|] == first && piece[|first|..] == second;
      assert code[pc..pc + |first|] == piece[..|first|];
      assert code[pc + |first|..pc + |first| + |second|] == piece[|first|..];
    }
    if CodeAt(code, pc, first) && CodeAt(code, pc + |first|, second) {
      assert code[pc..pc + |first + second|] == code[pc..pc + |first|] + code[pc + |first|..pc + |first| + |second|];
    }
  }

  /** Straight-line code runs to its end, wherever it stands. */
  lemma {:induction false} StraightInside(mc: MachineContext, code: seq<Instruction>, pc: nat,
                                          piece: seq<Instruction>, m: MachineState)
    requires CodeAt(code, pc, piece) && AllStraight(piece)
    ensures ToLabel(mc, code, pc, m) ==
            var r := RunStraight(mc, piece, m);
            if r.Continue? then ToLabel(mc, code, pc + |piece|, r.state) else Ended(r.outcome)
    decreases |piece|
  {
    hide Step, AtLabel;
    if piece != [] {
      assert code[pc] == piece[0] && IsStraight(piece[0]);
      assert piece == [piece[0]] + piece[1..];
      CodeAtParts(code, pc, [piece[0]], piece[1..]);
      match Step(mc, piece[0], m)
      case Continue(m') => StraightInside(mc, code, pc + 1, piece[1..], m');
      case Halt(_) =>
    }
  }

  // ----- where blocks stand -----

  function NextBlock(order: seq<BlockId>, j: nat): Option<BlockId> {
    if j + 1 < |order| then Some(order[j + 1]) else None
  }

  /** Where block `j` of the layout starts. */
  function StartOf(offsets: Offsets, order: seq<BlockId>, blocks: map<BlockId, Block>, peephole: bool, j: nat): nat
    requires j <= |order| && forall b :: b in order ==> b in blocks
  {
    if j == 0 then 0
    else |BlockCode(offsets, order[0], blocks[order[0]], NextBlock(order, 0), peephole)|
         + StartOf(offsets, order[1..], blocks, peephole, j - 1)
  }

  lemma {:induction false} BlockStands(offsets: Offsets, order: seq<BlockId>, blocks: map<BlockId, Block>,
                                       peephole: bool, j: nat)
    requires j < |order| && forall b :: b in order ==> b in blocks
    ensures var code := BlockCode(offsets, order[j], blocks[order[j]], NextBlock(order, j), peephole);
      && CodeAt(BodyCode(offsets, order, blocks, peephole), StartOf(offsets, order, blocks, peephole, j), code)
      && StartOf(offsets, order, blocks, peephole, j + 1) == StartOf(offsets, order, blocks, peephole, j) + |code|
  {
    hide BlockCode, CodeAt;
    var first := BlockCode(offsets, order[0], blocks[order[0]], NextBlock(order, 0), peephole);
    var rest := BodyCode(offsets, order[1..], blocks, peephole);
    assert order[0] in order;
    assert BodyCode(offsets, order, blocks, peephole) == first + rest;
    assert StartOf(offsets, order[1..], blocks, peephole, 0) == 0;
    assert StartOf(offsets, order, blocks, peephole, j + 1)
      == |first| + StartOf(offsets, order[1..], blocks, peephole, j);
    assert StartOf(offsets, order, blocks, peephole, j) == if j == 0 then 0
      else |first| + StartOf(offsets, order[1..], blocks, peephole, j - 1);
    hide BodyCode, StartOf;
    if j == 0 {
      CodeInFront(first, rest);
    } else {
      BlockStands(offsets, order[1..], blocks, peephole, j - 1);
      assert order[1..][j - 1] == order[j] && NextBlock(order[1..], j - 1) == NextBlock(order, j);
      var code := BlockCode(offsets, order[j], blocks[order[j]], NextBlock(order, j), peephole);
      CodeBehind(first, rest, StartOf(offsets, order[1..], blocks, peephole, j - 1), code);
    }
  }

  lemma CodeInFront(first: seq<Instruction>, rest: seq<Instruction>)
    ensures CodeAt(first + rest, 0, first)
  {
    assert (first + rest)[0..|first|] == first;
  }

  lemma CodeBehind(first: seq<Instruction>, rest: seq<Instruction>, at: nat, piece: seq<Instruction>)
    requires CodeAt(rest, at, piece)
    ensures CodeAt(first + rest, |first| + at, piece)
  {
    assert (first + rest)[|first| + at..|first| + at + |piece|] == rest[at..at + |piece|];
  }

  /** No label of `b` in this piece. */
  ghost predicate Unlabelled(code: seq<Instruction>, b: BlockId) {
    forall k :: 0 <= k < |code| ==> code[k] != BlockLabel(b)
  }

  lemma {:induction false} FindBehind(first: seq<Instruction>, second: seq<Instruction>, b: BlockId)
    requires Unlabelled(first, b)
    ensures Find(first + second, b) == match Find(second, b) case None => None case Some(k) => Some(|first| + k)
  {
    if first == [] {
      assert first + second == second;
    } else {
      assert (first + second)[1..] == first[1..] + second;
      assert (first + second)[0] == first[0];
      FindBehind(first[1..], second, b);
    }
  }

  lemma {:induction false} AssignmentsStraight(offsets: Offsets, code: seq<Assignment>)
    ensures AllStraight(AssignmentsCode(offsets, code))
  {
    if code != [] {
      AssignmentStraight(offsets, code[0]);
      AssignmentsStraight(offsets, code[1..]);
    }
  }

  lemma BlockUnlabelled(offsets: Offsets, b: BlockId, block: Block, next: Option<BlockId>, peephole: bool,
                        other: BlockId)
    requires other != b
    ensures Unlabelled(BlockCode(offsets, b, block, next, peephole), other)
  {
    AssignmentsStraight(offsets, block.assignments);
    TerminalUnlabelled(offsets, block.terminal, next, peephole, other);
    hide AssignmentsCode, TerminalCode;
    var code := BlockCode(offsets, b, block, next, peephole);
    forall k | 0 <= k < |code| ensures code[k] != BlockLabel(other) {
      if 0 < k <= |AssignmentsCode(offsets, block.assignments)| {
        assert code[k] == AssignmentsCode(offsets, block.assignments)[k - 1];
      }
    }
  }

  lemma TerminalUnlabelled(offsets: Offsets, t: Terminal, next: Option<BlockId>, peephole: bool, b: BlockId)
    ensures Unlabelled(TerminalCode(offsets, t, next, peephole), b)
  {
  }

  lemma FoundAtOnce(first: seq<Instruction>, rest: seq<Instruction>, b: BlockId)
    requires first != [] && first[0] == BlockLabel(b)
    ensures Find(first + rest, b) == Some(0)
  {
    assert (first + rest)[0] == first[0];
  }

  /** A jump finds its block. */
  lemma FirstBlock(offsets: Offsets, order: seq<BlockId>, blocks: map<BlockId, Block>, peephole: bool, j: nat)
    requires j < |order| && forall b :: b in order ==> b in blocks
    ensures order[0] in order
    ensures var first := BlockCode(offsets, order[0], blocks[order[0]], NextBlock(order, 0), peephole);
      && BodyCode(offsets, order, blocks, peephole) == first + BodyCode(offsets, order[1..], blocks, peephole)
      && first != [] && first[0] == BlockLabel(order[0])
      && StartOf(offsets, order, blocks, peephole, j)
         == if j == 0 then 0 else |first| + StartOf(offsets, order[1..], blocks, peephole, j - 1)
  {
    hide TerminalCode, AssignmentsCode;
  }

  lemma {:induction false} BlockFound(offsets: Offsets, order: seq<BlockId>, blocks: map<BlockId, Block>,
                                      peephole: bool, j: nat)
    requires j < |order| && forall b :: b in order ==> b in blocks
    requires forall i, k :: 0 <= i < k < |order| ==> order[i] != order[k]
    ensures Find(BodyCode(offsets, order, blocks, peephole), order[j])
      == Some(StartOf(offsets, order, blocks, peephole, j))
  {
    hide TerminalCode, AssignmentsCode, Unlabelled, Find, BodyCode, BlockCode, StartOf;
    var first := BlockCode(offsets, order[0], blocks[order[0]], NextBlock(order, 0), peephole);
    var rest := BodyCode(offsets, order[1..], blocks, peephole);
    assert order[0] in order;
    FirstBlock(offsets, order, blocks, peephole, j);
    if j == 0 {
      FoundAtOnce(first, rest, order[0]);
    } else {
      BlockUnlabelled(offsets, order[0], blocks[order[0]], NextBlock(order, 0), peephole, order[j]);
      FindBehind(first, rest, order[j]);
      BlockFound(offsets, order[1..], blocks, peephole, j - 1);
    }
  }

  // ----- running -----

  /** Everything the run of a method body depends on. */
  datatype Emission = Emission(ctx: Context, mc: MachineContext, l: Layout, g: Graph, prologue: seq<Instruction>,
      peephole: bool)

  ghost predicate CleanGraph(ctx: Context, l: Layout, g: Graph) {
    && (forall b, i :: b in g.blocks && 0 <= i < |g.blocks[b].assignments| ==>
         CleanAssignment(ctx, l, g.blocks[b].assignments[i]))
    && forall b :: b in g.blocks ==> CleanOperands(ctx, l, TerminalOperands(g.blocks[b].terminal), false)
  }

  ghost predicate Emitted(e: Emission) {
    && WellFormed(e.g) && FallsThrough(e.g) && LayoutOk(e.ctx, e.l) && CleanGraph(e.ctx, e.l, e.g)
    && e.mc.call == e.ctx.call
    && AllStraight(e.prologue)
  }

  function Code(e: Emission): seq<Instruction> {
    e.prologue + BodyCode(e.l.offsets, e.g.order, e.g.blocks, e.peephole)
  }

  function BlockStart(e: Emission, j: nat): nat
    requires j <= |e.g.order| && forall b :: b in e.g.order ==> b in e.g.blocks
  {
    |e.prologue| + StartOf(e.l.offsets, e.g.order, e.g.blocks, e.peephole, j)
  }

  function TerminalAt(e: Emission, j: nat): seq<Instruction>
    requires j < |e.g.order| && e.g.order[j] in e.g.blocks
  {
    TerminalCode(e.l.offsets, e.g.blocks[e.g.order[j]].terminal, NextBlock(e.g.order, j), e.peephole)
  }

  /** The code at `pc` is the rest of block `j` from assignment `i` on, and the next block follows. */
  ghost predicate RestOfBlock(e: Emission, j: nat, i: nat, pc: nat)
    requires Emitted(e) && j < |e.g.order|
  {
    var block := e.g.blocks[e.g.order[j]];
    && i <= |block.assignments|
    && CodeAt(Code(e), pc, AssignmentsCode(e.l.offsets, block.assignments[i..]) + TerminalAt(e, j))
    && pc + |AssignmentsCode(e.l.offsets, block.assignments[i..]) + TerminalAt(e, j)| == BlockStart(e, j + 1)
  }

  lemma BlockEntered(e: Emission, j: nat)
    requires Emitted(e) && j < |e.g.order|
    ensures BlockStart(e, j) < |Code(e)| && Code(e)[BlockStart(e, j)] == BlockLabel(e.g.order[j])
    ensures RestOfBlock(e, j, 0, BlockStart(e, j) + 1)
  {
    hide AssignmentsCode, TerminalCode, LayoutOk, CleanGraph, FallsThrough, Closed, PredecessorsAgree, BodyCode,
      StartOf;
    var offsets, order, blocks := e.l.offsets, e.g.order, e.g.blocks;
    BlockStands(offsets, order, blocks, e.peephole, j);
    var body := BodyCode(offsets, order, blocks, e.peephole);
    var block := blocks[order[j]];
    var code := BlockCode(offsets, order[j], block, NextBlock(order, j), e.peephole);
    var start := StartOf(offsets, order, blocks, e.peephole, j);
    assert Code(e)[|e.prologue| + start..|e.prologue| + start + |code|] == body[start..start + |code|];
    assert CodeAt(Code(e), BlockStart(e, j), code);
    var rest := AssignmentsCode(offsets, block.assignments) + TerminalAt(e, j);
    assert code == [BlockLabel(order[j])] + rest;
    CodeAtParts(Code(e), BlockStart(e, j), [BlockLabel(order[j])], rest);
    assert block.assignments[0..] == block.assignments;
    assert code[0] == BlockLabel(order[j]);
  }

  lemma JumpArrives(e: Emission, j: nat, m: MachineState)
    requires Emitted(e) && j < |e.g.order|
    ensures BlockStart(e, j) < |Code(e)|
    ensures AtLabel(Code(e), e.g.order[j], m) == Arrived(e.g.order[j], BlockStart(e, j) + 1, m)
  {
    hide Code, Find, RestOfBlock, StartOf, LayoutOk, CleanGraph, AllStraight, Closed, PredecessorsAgree,
      FallsThrough;
    BlockEntered(e, j);
    BlockLocated(e, j);
    hide Emitted, BlockStart;
  }

  lemma BlockLocated(e: Emission, j: nat)
    requires Emitted(e) && j < |e.g.order|
    ensures e.g.order[j] in e.g.blocks
    ensures Find(Code(e), e.g.order[j]) == Some(BlockStart(e, j))
  {
    hide BodyCode, StartOf, Find, LayoutOk, CleanGraph, Closed, PredecessorsAgree, AllStraight;
    EmittedUnlabelled(e, e.g.order[j]);
    EmittedOrder(e);
    BlockFound(e.l.offsets, e.g.order, e.g.blocks, e.peephole, j);
    FindBehind(e.prologue, BodyCode(e.l.offsets, e.g.order, e.g.blocks, e.peephole), e.g.order[j]);
  }

  lemma EmittedUnlabelled(e: Emission, b: BlockId)
    requires Emitted(e)
    ensures Unlabelled(e.prologue, b)
  {
    hide LayoutOk, CleanGraph, Closed, PredecessorsAgree;
  }

  lemma EmittedOrder(e: Emission)
    requires Emitted(e)
    ensures forall b :: b in e.g.order <==> b in e.g.blocks
    ensures forall i, k :: 0 <= i < k < |e.g.order| ==> e.g.order[i] != e.g.order[k]
  {
  }

  lemma FallsInto(e: Emission, j: nat, m: MachineState)
    requires Emitted(e) && j < |e.g.order|
    ensures BlockStart(e, j) < |Code(e)|
    ensures ToLabel(e.mc, Code(e), BlockStart(e, j), m) == Arrived(e.g.order[j], BlockStart(e, j) + 1, m)
  {
    BlockEntered(e, j);
    hide LayoutOk, CleanGraph, Closed, PredecessorsAgree, BodyCode, StartOf;
  }

  lemma AssignmentPlaced(e: Emission, j: nat, i: nat, pc: nat)
    requires Emitted(e) && j < |e.g.order| && RestOfBlock(e, j, i, pc) && i < |e.g.blocks[e.g.order[j]].assignments|
    ensures var a := e.g.blocks[e.g.order[j]].assignments[i];
            var piece := AssignmentCode(e.l.offsets, a);
      && CodeAt(Code(e), pc, piece) && AllStraight(piece) && CleanAssignment(e.ctx, e.l, a)
      && RestOfBlock(e, j, i + 1, pc + |piece|)
  {
    hide LayoutOk, FallsThrough, Code, AssignmentCode, TerminalCode, BlockStart, CleanAssignment, Closed,
      PredecessorsAgree;
    var block := e.g.blocks[e.g.order[j]];
    var a := block.assignments[i];
    var piece := AssignmentCode(e.l.offsets, a);
    var rest := AssignmentsCode(e.l.offsets, block.assignments[i + 1..]);
    assert block.assignments[i..][1..] == block.assignments[i + 1..] && block.assignments[i..][0] == a;
    assert AssignmentsCode(e.l.offsets, block.assignments[i..]) == piece + rest;
    assert (piece + rest) + TerminalAt(e, j) == piece + (rest + TerminalAt(e, j));
    CodeAtParts(Code(e), pc, piece, rest + TerminalAt(e, j));
    AssignmentStraight(e.l.offsets, a);
  }

  lemma AssignmentInside(e: Emission, j: nat, i: nat, pc: nat, st: State, m: MachineState)
    returns (m': MachineState)
    requires Emitted(e) && j < |e.g.order| && RestOfBlock(e, j, i, pc) && i < |e.g.blocks[e.g.order[j]].assignments|
    requires Related(e.ctx, e.l, st, m) && m.stack == 0 - e.l.size
    ensures var a := e.g.blocks[e.g.order[j]].assignments[i];
            var pc' := pc + |AssignmentCode(e.l.offsets, a)|;
      && pc <= pc' <= |Code(e)| && RestOfBlock(e, j, i + 1, pc')
      && match Exec(e.ctx, a, st)
         case Next(st') =>
           && ToLabel(e.mc, Code(e), pc, m) == ToLabel(e.mc, Code(e), pc', m')
           && Related(e.ctx, e.l, st', m') && m'.stack == m.stack
         case Stop(o) => o == Trapped || ToLabel(e.mc, Code(e), pc, m) == Ended(o)
  {
    hide Related, LayoutOk, FallsThrough, Code, AssignmentCode, TerminalCode, RunStraight, BlockStart, ToLabel,
      CleanAssignment, Closed, PredecessorsAgree, AssignmentsCode, AllStraight;
    AssignmentPlaced(e, j, i, pc);
    var a := e.g.blocks[e.g.order[j]].assignments[i];
    var piece := AssignmentCode(e.l.offsets, a);
    StraightInside(e.mc, Code(e), pc, piece, m);
    AssignmentRuns(e.ctx, e.mc, e.l, st, m, a);
    var r := RunStraight(e.mc, piece, m);
    m' := if r.Continue? then r.state else m;
  }

  /** Some position of the layout holds each block. */
  lemma LayoutPosition(e: Emission, b: BlockId) returns (j: nat)
    requires Emitted(e) && b in e.g.blocks
    ensures j < |e.g.order| && e.g.order[j] == b
  {
    assert b in e.g.order;
    j :| 0 <= j < |e.g.order| && e.g.order[j] == b;
  }

  /** The code from `pc` on enters block `j` of the layout. */
  ghost predicate Enters(e: Emission, j: nat, pc: nat, m: MachineState, m': MachineState) {
    && Emitted(e) && j < |e.g.order| && pc <= |Code(e)| && BlockStart(e, j) < |Code(e)|
    && ToLabel(e.mc, Code(e), pc, m) == Arrived(e.g.order[j], BlockStart(e, j) + 1, m')
  }

  lemma JumpTarget(e: Emission, j: nat)
    requires Emitted(e) && j < |e.g.order| && e.g.blocks[e.g.order[j]].terminal.Jump?
    ensures e.g.blocks[e.g.order[j]].terminal.target in e.g.blocks
  {
    var t := e.g.blocks[e.g.order[j]].terminal;
    assert t.target in Successors(t);
  }

  lemma JumpRuns(e: Emission, j: nat, pc: nat, m: MachineState) returns (target: nat)
    requires Emitted(e) && j < |e.g.order| && e.g.blocks[e.g.order[j]].terminal.Jump?
    requires RestOfBlock(e, j, |e.g.blocks[e.g.order[j]].assignments|, pc)
    ensures Enters(e, target, pc, m, m) && e.g.order[target] == e.g.blocks[e.g.order[j]].terminal.target
  {
    hide Emitted, BlockStart, Code, AtLabel;
    EmittedOrder(e);
    JumpTarget(e, j);
    var t := e.g.blocks[e.g.order[j]].terminal;
    if e.peephole && NextBlock(e.g.order, j) == Some(t.target) {
      target := j + 1;
      FallsInto(e, target, m);
    } else {
      target := LayoutPosition(e, t.target);
      assert Code(e)[pc] == JumpTo(t.target);
      JumpArrives(e, target, m);
    }
  }

  lemma BranchRuns(e: Emission, j: nat, pc: nat, st: State, m: MachineState)
    returns (target: nat, m': MachineState)
    requires Emitted(e) && j < |e.g.order| && e.g.blocks[e.g.order[j]].terminal.Branch?
    requires RestOfBlock(e, j, |e.g.blocks[e.g.order[j]].assignments|, pc)
    requires Related(e.ctx, e.l, st, m)
    ensures Enters(e, target, pc, m, m')
    ensures e.g.order[target] == Chosen(e.ctx, e.g.blocks[e.g.order[j]].terminal, st)
    ensures Related(e.ctx, e.l, st, m') && m'.stack == m.stack
  {
    hide LayoutOk, FallsThrough, PredecessorsAgree, BlockStart, Code, Related, RunStraight, Load, Closed, ToLabel,
      Known;
    var t := e.g.blocks[e.g.order[j]].terminal;
    BranchTargets(e, j);
    m' := ComparisonRuns(e, st, m, t.left, t.right);
    var straight := ComparisonCode(e, t.left, t.right);
    hide ComparisonCode, CodeAt, RestOfBlock, Enters, Emitted;
    BranchCode(e, j, pc);
    BranchStraight(e, t.left, t.right);
    StraightInside(e.mc, Code(e), pc, straight, m);
    var at := pc + |straight|;
    target := JumpIfRuns(e, j, at, t, m');
  }

  /** The code of a branch: the comparison, the conditional jump, and the next block. */
  lemma BranchCode(e: Emission, j: nat, pc: nat)
    requires Emitted(e) && j < |e.g.order| && e.g.blocks[e.g.order[j]].terminal.Branch?
    requires RestOfBlock(e, j, |e.g.blocks[e.g.order[j]].assignments|, pc)
    ensures var t := e.g.blocks[e.g.order[j]].terminal;
      var straight := ComparisonCode(e, t.left, t.right);
      var at := pc + |straight|;
      && CodeAt(Code(e), pc, straight) && at < |Code(e)| && at + 1 == BlockStart(e, j + 1)
      && Code(e)[at] == JumpIf(t.comparison, t.isUnsigned, t.falseBlock)
  {
    hide FallsThrough, PredecessorsAgree, BlockStart, Code, Closed, Load;
    var t := e.g.blocks[e.g.order[j]].terminal;
    var straight := ComparisonCode(e, t.left, t.right);
    var jump := [JumpIf(t.comparison, t.isUnsigned, t.falseBlock)];
    assert TerminalAt(e, j) == straight + jump;
    CodeAtParts(Code(e), pc, straight, jump);
    assert Code(e)[pc + |straight|] == jump[0];
  }

  function ComparisonCode(e: Emission, left: Operand, right: Operand): seq<Instruction> {
    Load(e.l.offsets, left, R11) + (Load(e.l.offsets, right, R10) + [CompareWith(R10, R11)])
  }

  lemma ComparisonRuns(e: Emission, st: State, m: MachineState, left: Operand, right: Operand)
    returns (m': MachineState)
    requires LayoutOk(e.ctx, e.l) && Related(e.ctx, e.l, st, m) && CleanOperands(e.ctx, e.l, [left, right], false)
    ensures RunStraight(e.mc, ComparisonCode(e, left, right), m) == Continue(m')
    ensures Related(e.ctx, e.l, st, m') && m'.stack == m.stack && m'.compared
      == (Eval(e.ctx, st, left), Eval(e.ctx, st, right))
  {
    hide LayoutOk, Related, RunStraight, Load, Known;
    assert [left, right][0] == left && [left, right][1] == right;
    var l, r := Eval(e.ctx, st, left), Eval(e.ctx, st, right);
    LoadRuns(e.ctx, e.mc, e.l, st, m, left, R11);
    var m1 := SetReg(m, R11, Plain(l));
    LoadRuns(e.ctx, e.mc, e.l, st, m1, right, R10);
    var m2 := SetReg(m1, R10, Plain(r));
    m' := m2.(compared := (l, r));
    RelatedKept(e.ctx, e.l, st, m2, m');
    StraightConcatenation(e.mc, Load(e.l.offsets, left, R11), Load(e.l.offsets, right, R10) + [CompareWith(R10, R11)],
      m);
    StraightConcatenation(e.mc, Load(e.l.offsets, right, R10), [CompareWith(R10, R11)], m1);
    StraightOne(e.mc, CompareWith(R10, R11), m2);
  }

  lemma BranchStraight(e: Emission, left: Operand, right: Operand)
    ensures AllStraight(ComparisonCode(e, left, right))
  {
  }

  lemma BranchTargets(e: Emission, j: nat)
    requires Emitted(e) && j < |e.g.order| && e.g.blocks[e.g.order[j]].terminal.Branch?
    ensures var t := e.g.blocks[e.g.order[j]].terminal;
      && t.trueBlock in e.g.blocks && t.falseBlock in e.g.blocks
      && j + 1 < |e.g.order| && e.g.order[j + 1] == t.trueBlock
  {
    var t := e.g.blocks[e.g.order[j]].terminal;
    assert t.trueBlock in Successors(t) && t.falseBlock in Successors(t);
  }

  /** Taken, the conditional jump goes to the false block; not taken, the code falls into the true one. */
  lemma JumpIfRuns(e: Emission, j: nat, at: nat, t: Terminal, m: MachineState) returns (target: nat)
    requires Emitted(e) && j < |e.g.order| && t.Branch? && t == e.g.blocks[e.g.order[j]].terminal
    requires at < |Code(e)| && Code(e)[at] == JumpIf(t.comparison, t.isUnsigned, t.falseBlock)
    requires at + 1 == BlockStart(e, j + 1)
    ensures Enters(e, target, at, m, m)
    ensures e.g.order[target] == if Holds(t.comparison, t.isUnsigned, m.compared.0, m.compared.1) then t.falseBlock
      else t.trueBlock
  {
    hide Emitted, BlockStart, Code, Holds, AtLabel;
    EmittedOrder(e);
    BranchTargets(e, j);
    if Holds(t.comparison, t.isUnsigned, m.compared.0, m.compared.1) {
      target := LayoutPosition(e, t.falseBlock);
      JumpArrives(e, target, m);
    } else {
      target := j + 1;
      FallsInto(e, target, m);
    }
  }

  lemma ReturnRuns(e: Emission, j: nat, pc: nat, st: State, m: MachineState)
    requires Emitted(e) && j < |e.g.order| && e.g.blocks[e.g.order[j]].terminal.Return?
    requires RestOfBlock(e, j, |e.g.blocks[e.g.order[j]].assignments|, pc)
    requires Related(e.ctx, e.l, st, m)
    ensures pc <= |Code(e)|
    ensures ToLabel(e.mc, Code(e), pc, m)
         == Ended(Returned(Eval(e.ctx, st, e.g.blocks[e.g.order[j]].terminal.source), st.world))
  {
    hide FallsThrough, PredecessorsAgree, BlockStart, Code, RunStraight, Closed, ToLabel, LayoutOk, Related, Load,
      Known;
    var t := e.g.blocks[e.g.order[j]].terminal;
    assert TerminalOperands(t)[0] == t.source;
    var v := Eval(e.ctx, st, t.source);
    var load, leave := Load(e.l.offsets, t.source, Rax), [LeaveFrame, PopBase, ReturnToCaller];
    LoadRuns(e.ctx, e.mc, e.l, st, m, t.source, Rax);
    RelatedReturns(e, st, SetReg(m, Rax, Plain(v)), v);
    StraightConcatenation(e.mc, load, leave, m);
    LoadStraight(e.l.offsets, t.source, Rax);
    PiecesStraight(load, leave);
    StraightInside(e.mc, Code(e), pc, load + leave, m);
  }

  lemma LoadStraight(offsets: Offsets, o: Operand, to: Register)
    ensures AllStraight(Load(offsets, o, to))
  {
  }

  /** The frame is left, the caller's base is back, and the return address is on top of the stack. */
  lemma RelatedReturns(e: Emission, st: State, m: MachineState, v: Word)
    requires Related(e.ctx, e.l, st, m) && Reg(m, Rax) == Plain(v)
    ensures RunStraight(e.mc, [LeaveFrame, PopBase, ReturnToCaller], m) == Halt(Returned(v, st.world))
  {
    hide RunStraight, HoldsLocals, Step;
    var m2 := m.(stack := 0);
    var m3 := m2.(base := CallerBase, stack := 8);
    LeaveSteps(e.mc, m, v);
    assert [LeaveFrame, PopBase, ReturnToCaller] == [LeaveFrame] + ([PopBase] + [ReturnToCaller]);
    StraightCons(e.mc, LeaveFrame, [PopBase] + [ReturnToCaller], m);
    StraightCons(e.mc, PopBase, [ReturnToCaller], m2);
    StraightOne(e.mc, ReturnToCaller, m3);
  }

  lemma LeaveSteps(mc: MachineContext, m: MachineState, v: Word)
    requires m.base == Pointer(Frame, 0) && Slot(m, 0) == CallerBase && Reg(m, Rax) == Plain(v)
    ensures Step(mc, LeaveFrame, m) == Continue(m.(stack := 0))
    ensures Step(mc, PopBase, m.(stack := 0)) == Continue(m.(base := CallerBase, stack := 8))
    ensures Step(mc, ReturnToCaller, m.(base := CallerBase, stack := 8)) == Halt(Returned(v, m.world))
  {
  }

  /** The exit of a block: `call exit` is a call like any other, and if it returns, control goes on with
      the next block of the layout or off the method's end. */
  lemma ExitRuns(e: Emission, j: nat, pc: nat, st: State, m: MachineState) returns (m': MachineState)
    requires Emitted(e) && j < |e.g.order| && e.g.blocks[e.g.order[j]].terminal.Exit?
    requires RestOfBlock(e, j, |e.g.blocks[e.g.order[j]].assignments|, pc)
    requires Related(e.ctx, e.l, st, m) && m.stack == 0 - e.l.size
    ensures pc <= |Code(e)| && BlockStart(e, j + 1) <= |Code(e)|
    ensures var o := e.mc.call("exit", [Number(e.g.blocks[e.g.order[j]].terminal.code)], st.world);
      if o.Returned? then
        && ToLabel(e.mc, Code(e), pc, m) == ToLabel(e.mc, Code(e), BlockStart(e, j + 1), m')
        && Related(e.ctx, e.l, st.(world := o.world), m') && m'.stack == m.stack
      else ToLabel(e.mc, Code(e), pc, m) == Ended(o)
  {
    hide FallsThrough, PredecessorsAgree, BlockStart, Code, RunStraight, Closed, ToLabel, CleanGraph, LayoutOk,
      Related;
    var block := e.g.blocks[e.g.order[j]];
    var code := block.terminal.code;
    assert block.assignments[|block.assignments|..] == [];
    assert TerminalAt(e, j) == [MoveImmediate(code, Rdi), CallMethod("exit", 1)];
    StraightInside(e.mc, Code(e), pc, [MoveImmediate(code, Rdi), CallMethod("exit", 1)], m);
    var r := ExitCalled(e, st, m, code);
    m' := if r.Continue? then r.state else m;
  }

  /** The two instructions of an exit. */
  lemma ExitCalled(e: Emission, st: State, m: MachineState, code: Word) returns (r: MachineEffect)
    requires LayoutOk(e.ctx, e.l) && e.mc.call == e.ctx.call
    requires Related(e.ctx, e.l, st, m) && m.stack == 0 - e.l.size
    ensures r == RunStraight(e.mc, [MoveImmediate(code, Rdi), CallMethod("exit", 1)], m)
    ensures var o := e.mc.call("exit", [Number(code)], st.world);
      if o.Returned? then
        r.Continue? && Related(e.ctx, e.l, st.(world := o.world), r.state) && r.state.stack == m.stack
      else r == Halt(o)
  {
    hide RunStraight, LayoutOk, Related, PerformCall;
    var m1 := SetReg(m, Rdi, Plain(code));
    RelatedKept(e.ctx, e.l, st, m, m1);
    assert OutgoingValue(m1, 0) == Plain(code);
    assert EvalArguments(e.ctx, st, [Literal(code)]) == [Number(code)];
    PerformedCall(e.ctx, e.mc, e.l, st, m1, "exit", [Literal(code)]);
    assert [MoveImmediate(code, Rdi), CallMethod("exit", 1)] == [MoveImmediate(code, Rdi)] + [CallMethod("exit", 1)];
    StraightCons(e.mc, MoveImmediate(code, Rdi), [CallMethod("exit", 1)], m);
    StraightOne(e.mc, CallMethod("exit", 1), m1);
    r := PerformCall(e.mc, m1, "exit", 1);
  }

  /** One exit is right if and only if the function the symbol `exit` stands for ends the process. */
  lemma ExitIsRight(e: Emission, j: nat, pc: nat, st: State, m: MachineState)
    requires Emitted(e) && j < |e.g.order| && e.g.blocks[e.g.order[j]].terminal.Exit?
    requires RestOfBlock(e, j, |e.g.blocks[e.g.order[j]].assignments|, pc)
    requires Related(e.ctx, e.l, st, m) && m.stack == 0 - e.l.size
    ensures pc <= |Code(e)|
    ensures var code := e.g.blocks[e.g.order[j]].terminal.code;
      ToLabel(e.mc, Code(e), pc, m) == Ended(Exited(code, st.world))
      <==> e.mc.call("exit", [Number(code)], st.world) == Exited(code, st.world)
  {
    var code := e.g.blocks[e.g.order[j]].terminal.code;
    hide Emitted, RestOfBlock, BlockStart, Code, Related, ToLabel;
    var m' := ExitRuns(e, j, pc, st, m);
    if e.mc.call("exit", [Number(code)], st.world).Returned? { BlockEndsSomewhere(e, j, m'); }
  }

  /** Behind a block stands the next one, or nothing. */
  lemma TextEnds(e: Emission)
    requires Emitted(e)
    ensures BlockStart(e, |e.g.order|) == |Code(e)|
  {
    hide LayoutOk, CleanGraph, Closed, PredecessorsAgree, FallsThrough, BodyCode, StartOf;
    BodyEnds(e.l.offsets, e.g.order, e.g.blocks, e.peephole);
  }

  lemma BlockEndsSomewhere(e: Emission, j: nat, m: MachineState)
    requires Emitted(e) && j < |e.g.order|
    ensures BlockStart(e, j + 1) <= |Code(e)|
    ensures ToLabel(e.mc, Code(e), BlockStart(e, j + 1), m)
         == if j + 1 < |e.g.order| then Arrived(e.g.order[j + 1], BlockStart(e, j + 1) + 1, m) else Ended(Trapped)
  {
    hide LayoutOk, CleanGraph, Closed, PredecessorsAgree, FallsThrough, AllStraight, Code, BlockStart;
    if j + 1 < |e.g.order| {
      FallsInto(e, j + 1, m);
    } else {
      TextEnds(e);
    }
  }

  lemma {:induction false} BodyEnds(offsets: Offsets, order: seq<BlockId>, blocks: map<BlockId, Block>, peephole: bool)
    requires forall b :: b in order ==> b in blocks
    ensures StartOf(offsets, order, blocks, peephole, |order|) == |BodyCode(offsets, order, blocks, peephole)|
  {
    hide BlockCode;
    if order != [] {
      assert order[0] in order;
      BodyEnds(offsets, order[1..], blocks, peephole);
    }
  }

  /** Every exit of the method ends the process. */
  ghost predicate ExitsEnd(g: Graph, call: Oracle) {
    forall b, w :: b in g.blocks && g.blocks[b].terminal.Exit? ==>
      call("exit", [Number(g.blocks[b].terminal.code)], w) == Exited(g.blocks[b].terminal.code, w)
  }

  lemma BlockTerminated(e: Emission, j: nat)
    requires Emitted(e) && j < |e.g.order|
    ensures !e.g.blocks[e.g.order[j]].terminal.Unknown?
  {
  }

  /** The code enters the blocks that the blocks enter, in the same order, and ends as they end; a run that
      traps there is followed up to the trap. */
  ghost predicate InStep(outcome: Outcome, visited: seq<BlockId>, outcome': Outcome, visited': seq<BlockId>) {
    SameUnlessTrapped(outcome, outcome') && visited <= visited' && (!Undefined(outcome) ==> visited == visited')
  }

  lemma StepFurther(b: BlockId, outcome: Outcome, visited: seq<BlockId>, outcome': Outcome, visited': seq<BlockId>)
    requires InStep(outcome, visited, outcome', visited')
    ensures InStep(outcome, [b] + visited, outcome', [b] + visited')
  {
  }

  /** The rest of a block, and all that follows: the code does what the blocks do, visiting the same blocks
      in the same order. */
  lemma {:induction false} BodyRuns(e: Emission, j: nat, i: nat, pc: nat, st: State, m: MachineState, fuel: nat)
    requires Emitted(e) && j < |e.g.order| && RestOfBlock(e, j, i, pc) && ExitsEnd(e.g, e.mc.call)
    requires Related(e.ctx, e.l, st, m) && m.stack == 0 - e.l.size
    ensures pc <= |Code(e)|
    ensures InStep(RunFrom(e.ctx, e.g, e.g.order[j], i, st, fuel), Visited(e.ctx, e.g, e.g.order[j], i, st, fuel),
                   RunCode(e.mc, Code(e), pc, m, fuel), Visits(e.mc, Code(e), pc, m, fuel))
    decreases fuel, |e.g.blocks[e.g.order[j]].assignments| - i + 1
  {
    hide Related, LayoutOk, CleanGraph, FallsThrough, Code, AssignmentCode, TerminalCode, RunStraight, BlockStart,
      ToLabel, PredecessorsAgree, Exec, AssignmentsCode, Eval, ExitsEnd;
    var block := e.g.blocks[e.g.order[j]];
    if i < |block.assignments| {
      var a := block.assignments[i];
      var m' := AssignmentInside(e, j, i, pc, st, m);
      if Exec(e.ctx, a, st).Next? {
        var pc' := pc + |AssignmentCode(e.l.offsets, a)|;
        BodyRuns(e, j, i + 1, pc', Exec(e.ctx, a, st).state, m', fuel);
        SameArrival(e.mc, Code(e), pc, m, pc', m', fuel);
      }
    } else {
      BlockTerminated(e, j);
      TerminalRuns(e, j, pc, st, m, fuel);
    }
  }

  lemma SameArrival(mc: MachineContext, code: seq<Instruction>, pc: nat, m: MachineState, pc': nat, m': MachineState,
                    fuel: nat)
    requires pc <= |code| && pc' <= |code| && ToLabel(mc, code, pc, m) == ToLabel(mc, code, pc', m')
    ensures RunCode(mc, code, pc, m, fuel) == RunCode(mc, code, pc', m', fuel)
    ensures Visits(mc, code, pc, m, fuel) == Visits(mc, code, pc', m', fuel)
  {
    hide ToLabel;
  }

  /** The end of a block, and all that follows. */
  lemma {:induction false} TerminalRuns(e: Emission, j: nat, pc: nat, st: State, m: MachineState, fuel: nat)
    requires Emitted(e) && j < |e.g.order| && ExitsEnd(e.g, e.mc.call)
    requires RestOfBlock(e, j, |e.g.blocks[e.g.order[j]].assignments|, pc)
    requires Related(e.ctx, e.l, st, m) && m.stack == 0 - e.l.size
    ensures pc <= |Code(e)|
    ensures var n := |e.g.blocks[e.g.order[j]].assignments|;
      InStep(RunFrom(e.ctx, e.g, e.g.order[j], n, st, fuel), Visited(e.ctx, e.g, e.g.order[j], n, st, fuel),
             RunCode(e.mc, Code(e), pc, m, fuel), Visits(e.mc, Code(e), pc, m, fuel))
    decreases fuel, 0
  {
    hide Related, LayoutOk, CleanGraph, FallsThrough, Code, TerminalCode, RunStraight, BlockStart, ToLabel,
      PredecessorsAgree, AssignmentsCode, Eval, RestOfBlock, Chosen;
    var block := e.g.blocks[e.g.order[j]];
    BlockTerminated(e, j);
    match block.terminal
    case Jump(_) =>
      var target := JumpRuns(e, j, pc, m);
      if fuel > 0 { Entered(e, target, st, m, fuel - 1); }
    case Branch(_, _, _, _, _, _) =>
      var target, m' := BranchRuns(e, j, pc, st, m);
      if fuel > 0 { Entered(e, target, st, m', fuel - 1); }
    case Return(_) => ReturnRuns(e, j, pc, st, m);
    case Exit(_) => ExitIsRight(e, j, pc, st, m);
  }

  lemma {:induction false} Entered(e: Emission, j: nat, st: State, m: MachineState, fuel: nat)
    requires Emitted(e) && j < |e.g.order| && ExitsEnd(e.g, e.mc.call)
    requires Related(e.ctx, e.l, st, m) && m.stack == 0 - e.l.size
    ensures BlockStart(e, j) < |Code(e)| && e.g.order[j] in e.g.blocks
    ensures var b := e.g.order[j];
      InStep(RunFrom(e.ctx, e.g, b, 0, st, fuel), [b] + Visited(e.ctx, e.g, b, 0, st, fuel),
             RunCode(e.mc, Code(e), BlockStart(e, j) + 1, m, fuel),
             [b] + Visits(e.mc, Code(e), BlockStart(e, j) + 1, m, fuel))
    decreases fuel, |e.g.blocks[e.g.order[j]].assignments| + 3
  {
    BlockRuns(e, j, st, m, fuel);
    hide Emitted, BlockStart, Code, RunCode, RunFrom, Visits, Visited, InStep;
    var b, pc := e.g.order[j], BlockStart(e, j) + 1;
    StepFurther(b, RunFrom(e.ctx, e.g, b, 0, st, fuel), Visited(e.ctx, e.g, b, 0, st, fuel),
      RunCode(e.mc, Code(e), pc, m, fuel), Visits(e.mc, Code(e), pc, m, fuel));
  }

  /** A block from its start. */
  lemma {:induction false} BlockRuns(e: Emission, j: nat, st: State, m: MachineState, fuel: nat)
    requires Emitted(e) && j < |e.g.order| && ExitsEnd(e.g, e.mc.call)
    requires Related(e.ctx, e.l, st, m) && m.stack == 0 - e.l.size
    ensures BlockStart(e, j) < |Code(e)| && e.g.order[j] in e.g.blocks
    ensures var b, pc := e.g.order[j], BlockStart(e, j) + 1;
      InStep(RunFrom(e.ctx, e.g, b, 0, st, fuel), Visited(e.ctx, e.g, b, 0, st, fuel),
             RunCode(e.mc, Code(e), pc, m, fuel), Visits(e.mc, Code(e), pc, m, fuel))
    decreases fuel, |e.g.blocks[e.g.order[j]].assignments| + 2
  {
    hide Related, LayoutOk, CleanGraph, FallsThrough, Code, BlockStart, RunCode, RunFrom, Closed, PredecessorsAgree,
      RestOfBlock, Visits, Visited, ExitsEnd, InStep;
    BlockEntered(e, j);
    BodyRuns(e, j, 0, BlockStart(e, j) + 1, st, m, fuel);
  }
}
