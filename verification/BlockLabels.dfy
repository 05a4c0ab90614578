/** Block labels of all methods stand in one text section: no number is used twice, so a jump that is resolved
    within its method is resolved rightly. */
module BlockLabels {
  import opened Words
  import opened Llir
  import opened Machine
  import opened CodeGeneration
  import opened Programs
  import opened Compilation
  import opened GeneratedMethods
  import opened BlockNumbers
  import opened LinearCode
  import opened MachineMethods
  import opened MachinePrograms
  import GraphNames
  import Lowering
  import Optimizations
  import Ir

  /** No block number occurs in two methods. */
  ghost predicate DisjointBlocks(methods: map<string, Method>) {
    forall n, k, b :: n in methods && k in methods && b in methods[n].graph.blocks && b in methods[k].graph.blocks ==>
      n == k
  }

  lemma {:induction false} MethodsNumbered(table: map<string, FieldDeclaration>, methods: seq<Ir.Method>,
                                           temporaries: nat, nextBlock: nat)
    ensures var made := GenerateMethods(table, methods, temporaries, nextBlock);
      && (forall n, b :: n in made && b in made[n].graph.blocks ==> nextBlock <= b)
      && DisjointBlocks(made)
  {
    hide Lowering.GenerateBody, Lowering.GenerateMethod;
    if methods != [] {
      var s := Lowering.GenerateBody(table, methods[0], temporaries, nextBlock);
      MethodBlocksNumbered(table, methods[0], temporaries, nextBlock);
      MethodsNumbered(table, methods[1..], s.temporaries, s.nextBlock);
    }
  }

  /** No block number occurs in two methods, neither as generated nor after any passes. */
  lemma BlocksDisjoint(p: Ir.Program, flags: Optimizations.Flags, p': Program)
    requires Optimizations.OptimizableProgram(flags, GenerateProgram(p))
    requires Optimizations.OptimizedProgram(flags, GenerateProgram(p), p')
    ensures DisjointBlocks(GenerateProgram(p).methods) && DisjointBlocks(p'.methods)
  {
    hide GenerateMethods, WellFormed, Optimizations.Optimized, Optimizations.Optimizable;
    var w := GenerateProgram(p);
    MethodsNumbered(GlobalSymbols(p.fields), p.methods, 0, 0);
    forall n | n in w.methods ensures p'.methods[n].graph.blocks.Keys == w.methods[n].graph.blocks.Keys {
      GraphNames.OptimizedSkeleton(flags, w.globals, w.methods[n].graph, p'.methods[n].graph);
    }
  }

  // ----- labels in the text section -----

  /** A label of a method's body is one of its blocks, and the one that a jump finds. */
  lemma {:induction false} LabelOfBody(offsets: Offsets, order: seq<BlockId>, blocks: map<BlockId, Block>,
                                       peephole: bool, b: BlockId, k: nat)
    requires forall c :: c in order ==> c in blocks
    requires forall i, j :: 0 <= i < j < |order| ==> order[i] != order[j]
    requires k < |BodyCode(offsets, order, blocks, peephole)|
    requires BodyCode(offsets, order, blocks, peephole)[k] == BlockLabel(b)
    ensures b in order && Find(BodyCode(offsets, order, blocks, peephole), b) == Some(k)
  {
    hide BlockCode, Unlabelled;
    assert order != [];
    var first := BlockCode(offsets, order[0], blocks[order[0]], NextBlock(order, 0), peephole);
    var rest := BodyCode(offsets, order[1..], blocks, peephole);
    FirstBlock(offsets, order, blocks, peephole, 0);
    if k < |first| {
      assert first[k] == BlockLabel(b);
      LabelOfBlock(offsets, order[0], blocks[order[0]], NextBlock(order, 0), peephole, b, k);
      FoundAtOnce(first, rest, b);
    } else {
      LabelOfBody(offsets, order[1..], blocks, peephole, b, k - |first|);
      var j :| 0 <= j < |order[1..]| && order[1..][j] == b;
      assert order[j + 1] == b && order[0] != b;
      BlockUnlabelled(offsets, order[0], blocks[order[0]], NextBlock(order, 0), peephole, b);
      FindBehind(first, rest, b);
    }
  }

  /** The code of a block holds its own label, at its start, and no other. */
  lemma LabelOfBlock(offsets: Offsets, b: BlockId, block: Block, next: Option<BlockId>, peephole: bool, c: BlockId,
                     k: nat)
    requires k < |BlockCode(offsets, b, block, next, peephole)|
    requires BlockCode(offsets, b, block, next, peephole)[k] == BlockLabel(c)
    ensures c == b && k == 0
  {
    AssignmentsStraight(offsets, block.assignments);
    TerminalUnlabelled(offsets, block.terminal, next, peephole, c);
    hide AssignmentsCode, TerminalCode;
    var code := BlockCode(offsets, b, block, next, peephole);
    forall i | 0 < i < |code| ensures code[i] != BlockLabel(c) {
      if i <= |AssignmentsCode(offsets, block.assignments)| {
        assert code[i] == AssignmentsCode(offsets, block.assignments)[i - 1];
      }
    }
  }

  /** The same behind straight-line code. */
  lemma LabelBehind(first: seq<Instruction>, offsets: Offsets, g: Graph, peephole: bool, b: BlockId, k: nat)
    requires AllStraight(first) && WellFormed(g) && FallsThrough(g)
    requires var code := first + BodyCode(offsets, g.order, g.blocks, peephole);
      k < |code| && code[k] == BlockLabel(b)
    ensures b in g.blocks && Find(first + BodyCode(offsets, g.order, g.blocks, peephole), b) == Some(k)
  {
    hide BodyCode, Closed, PredecessorsAgree, Find;
    var body := BodyCode(offsets, g.order, g.blocks, peephole);
    forall i | 0 <= i < |first| ensures first[i] != BlockLabel(b) { assert IsStraight(first[i]); }
    FindBehind(first, body, b);
    assert body[k - |first|] == BlockLabel(b);
    LabelOfBody(offsets, g.order, g.blocks, peephole, b, k - |first|);
  }

  /** A label of a method's code is one of its blocks, and stands there only once. */
  lemma LabelOfMethod(offsets: Offsets, globals: seq<FieldDeclaration>, name: string, m: Method, peephole: bool,
                      b: BlockId, k: nat)
    requires WellFormed(m.graph) && FallsThrough(m.graph)
    requires k < |MethodCode(offsets, globals, name, m, peephole)|
    requires MethodCode(offsets, globals, name, m, peephole)[k] == BlockLabel(b)
    ensures b in m.graph.blocks && Find(MethodCode(offsets, globals, name, m, peephole), b) == Some(k)
  {
    hide MethodCode, WellFormed, FallsThrough, Find, Prologue, BodyCode, LayoutOf, AllStraight;
    var l := LayoutOf(offsets, m);
    var first := Prologue(l.offsets, m.arguments, l.size, Initialized(globals, name));
    SameCode(offsets, globals, name, m, peephole);
    PrologueStraight(l.offsets, m.arguments, l.size, Initialized(globals, name));
    LabelBehind(first, l.offsets, m.graph, peephole, b, k);
  }

  /** Everywhere in the text section, a block's label stands at one place only: in the code of the one method
      that has the block. */
  lemma LabelsAreUnique(p: Ir.Program, flags: Optimizations.Flags, p': Program, peephole: bool, n: string, i: nat,
                        k: string, j: nat, b: BlockId)
    requires Compiled(p, flags, p')
    requires var text := EmitProgram(MethodNames(p.methods), p', peephole).text;
      && n in text && i < |text[n]| && text[n][i] == BlockLabel(b)
      && k in text && j < |text[k]| && text[k][j] == BlockLabel(b)
    ensures n == k && i == j && n in p'.methods && b in p'.methods[n].graph.blocks
  {
    LabelOfEmitted(p, flags, p', peephole, n, i, b);
    LabelOfEmitted(p, flags, p', peephole, k, j, b);
    hide Accepted, FitsFrames, EmitProgram, GenerateMethods, Optimizations.Optimized, Optimizations.Optimizable;
    BlocksDisjoint(p, flags, p');
  }

  lemma LabelOfEmitted(p: Ir.Program, flags: Optimizations.Flags, p': Program, peephole: bool, n: string, i: nat,
                       b: BlockId)
    requires Compiled(p, flags, p')
    requires var text := EmitProgram(MethodNames(p.methods), p', peephole).text;
      n in text && i < |text[n]| && text[n][i] == BlockLabel(b)
    ensures n in p'.methods && b in p'.methods[n].graph.blocks
    ensures Find(EmitProgram(MethodNames(p.methods), p', peephole).text[n], b) == Some(i)
  {
    hide Compiled, MethodCode, EmitMethods, Layable, OffsetsOk, Labels, WellFormed, FallsThrough, Find;
    AllLayable(p, flags, p');
    var offsets := EmittedMethod(map[], p'.globals, MethodNames(p.methods), p'.methods, peephole, n)
      by { NothingAllocated(p'.globals); }
    MethodsCompiled(p, flags, p', n);
    CompiledMethodEmits(p, flags, p', n);
    LabelOfMethod(offsets, p'.globals, n, p'.methods[n], peephole, b, i);
  }
}
