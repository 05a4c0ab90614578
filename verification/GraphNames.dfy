/** Every name a method uses has a declaration, and strings are only passed on: true of generated
    methods and kept by every pass, as is the layout that lets branches fall through. */
module GraphNames {
  import opened Words
  import opened Worlds
  import opened Llir
  import opened ReachingDefinitions
  import opened Rewriting
  import opened OperandPasses
  import opened DeadCode
  import opened GeneratedGraphs
  import opened GeneratedMethods
  import Lowering
  import MethodLowering
  import Optimizations
  import Ir

  ghost predicate NamedIn(globals: seq<FieldDeclaration>, parameters: set<string>, g: Graph, n: string) {
    n in GlobalNames(globals) || n in parameters || exists b :: b in g.blocks && n in GlobalNames(g.blocks[b].fields)
  }

  /** Where a method's names come from. */
  datatype Origin = Origin(globals: seq<FieldDeclaration>, parameters: set<string>)

  ghost predicate OperandNamed(w: Origin, g: Graph, o: Operand, strings: bool) {
    (o.Field? ==> NamedIn(w.globals, w.parameters, g, o.name)) && (o.Text? ==> strings)
  }

  ghost predicate OperandsNamed(w: Origin, g: Graph, os: seq<Operand>, strings: bool) {
    forall k :: 0 <= k < |os| ==> OperandNamed(w, g, os[k], strings)
  }

  ghost predicate PointNamed(w: Origin, g: Graph, u: Position)
    requires Valid(g, u)
  {
    && OperandsNamed(w, g, OperandsAt(g, u), u.index < Length(g, u.block) && At(g, u).Call?)
    && (u.index < Length(g, u.block) ==> NamedIn(w.globals, w.parameters, g, At(g, u).destination))
  }

  ghost predicate GraphNamed(w: Origin, g: Graph) {
    && (forall u :: Valid(g, u) ==> PointNamed(w, g, u))
    && forall b :: b in g.blocks ==> FieldsOk(g.blocks[b].fields)
  }

  // ----- passes -----

  lemma SameShapeNamed(w: Origin, g: Graph, g': Graph, n: string)
    requires SameShape(g, g')
    ensures NamedIn(w.globals, w.parameters, g, n) <==> NamedIn(w.globals, w.parameters, g', n)
  {
    if b :| b in g.blocks && n in GlobalNames(g.blocks[b].fields) { assert b in g'.blocks; }
    if b :| b in g'.blocks && n in GlobalNames(g'.blocks[b].fields) { assert b in g.blocks; }
  }

  lemma OperandNamedElsewhere(w: Origin, g: Graph, g': Graph, o: Operand, strings: bool)
    requires SameShape(g, g') && OperandNamed(w, g, o, strings)
    ensures OperandNamed(w, g', o, strings)
  {
    if o.Field? { SameShapeNamed(w, g, g', o.name); }
  }

  /** What a pass puts in place of an operand is an operand of the method already, or a literal. */
  lemma RewrittenNamed(w: Origin, pass: Pass, g: Graph, u: Position, o: Operand, strings: bool)
    requires GraphNamed(w, g) && OperandNamed(w, g, o, strings)
    ensures OperandNamed(w, g, Rewritten(pass, g, u, o), strings)
  {
    hide NamedIn, FieldsOk;
    var o' := Rewritten(pass, g, u, o);
    if o' != o && o'.Field? {
      assert AllDefine(g, o.name, u, o');
      var d :| IsReachingDefinition(g, o.name, u, d);
      assert At(g, d) == Unary(Move, o.name, o');
      assert Valid(g, d) && PointNamed(w, g, d);
      assert OperandsAt(g, d)[0] == o';
    }
  }

  lemma SetOperandNamed(w: Origin, g: Graph, u: Position, k: nat, o: Operand)
    requires GraphNamed(w, g) && Closed(g) && Valid(g, u) && k < |OperandsAt(g, u)|
    requires OperandNamed(w, g, o, u.index < Length(g, u.block) && At(g, u).Call?)
    ensures GraphNamed(w, SetOperand(g, u, k, o))
  {
    hide NamedIn, FieldsOk;
    var g' := SetOperand(g, u, k, o);
    SetOperandSameShape(g, u, k, o);
    forall v | Valid(g', v) ensures PointNamed(w, g', v) {
      assert Valid(g, v) && PointNamed(w, g, v);
      SetOperandElsewhere(g, u, k, o, v);
      forall j | 0 <= j < |OperandsAt(g', v)|
        ensures OperandNamed(w, g', OperandsAt(g', v)[j], v.index < Length(g', v.block) && At(g', v).Call?)
      {
        var strings := v.index < Length(g, v.block) && At(g, v).Call?;
        OperandNamedElsewhere(w, g, g', OperandsAt(g', v)[j], strings);
      }
      if v.index < Length(g, v.block) { SameShapeNamed(w, g, g', At(g, v).destination); }
    }
    forall b | b in g'.blocks ensures FieldsOk(g'.blocks[b].fields) { assert b in g.blocks; }
  }

  /** Replacing an operand keeps the other points, and the kind of its own. */
  lemma SetOperandElsewhere(g: Graph, u: Position, k: nat, o: Operand, v: Position)
    requires Closed(g) && Valid(g, u) && k < |OperandsAt(g, u)| && Valid(g, v) && Valid(SetOperand(g, u, k, o), v)
    ensures var g' := SetOperand(g, u, k, o);
      && Length(g', v.block) == Length(g, v.block)
      && OperandsAt(g', v) == (if v == u then OperandsAt(g, v)[k := o] else OperandsAt(g, v))
      && (v.index < Length(g, v.block) ==>
           At(g', v).Call? == At(g, v).Call? && At(g', v).destination == At(g, v).destination)
  {
  }

  lemma {:induction false} RewriteOperandsNamed(w: Origin, pass: Pass, g: Graph, u: Position, k: nat)
    requires GraphNamed(w, g) && Closed(g) && Valid(g, u) && k <= |OperandsAt(g, u)|
    ensures GraphNamed(w, RewriteOperands(pass, g, u, k))
    decreases |OperandsAt(g, u)| - k
  {
    hide NamedIn, FieldsOk, SetOperand, Rewritten;
    if k < |OperandsAt(g, u)| {
      var o := OperandsAt(g, u)[k];
      assert PointNamed(w, g, u);
      RewrittenNamed(w, pass, g, u, o, u.index < Length(g, u.block) && At(g, u).Call?);
      SetOperandSameShape(g, u, k, Rewritten(pass, g, u, o));
      SetOperandNamed(w, g, u, k, Rewritten(pass, g, u, o));
      RewriteOperandsNamed(w, pass, SetOperand(g, u, k, Rewritten(pass, g, u, o)), u, k + 1);
    }
  }

  /** A folded operation reads literals only. */
  lemma SetFoldedNamed(w: Origin, g: Graph, u: Position, a: Assignment)
    requires GraphNamed(w, g) && Closed(g) && u.block in g.blocks && u.index < Length(g, u.block)
    requires SameNames(At(g, u), a) && (a == At(g, u) || (a.Unary? && a.source.Literal?))
    ensures GraphNamed(w, SetAssignment(g, u, a))
  {
    hide NamedIn, FieldsOk;
    var g' := SetAssignment(g, u, a);
    SetAssignmentSameShape(g, u, a);
    forall v | Valid(g', v) ensures PointNamed(w, g', v) {
      assert Valid(g, v) && PointNamed(w, g, v);
      var strings := v.index < Length(g', v.block) && At(g', v).Call?;
      forall j | 0 <= j < |OperandsAt(g', v)| ensures OperandNamed(w, g', OperandsAt(g', v)[j], strings) {
        if v != u || a == At(g, u) { OperandNamedElsewhere(w, g, g', OperandsAt(g, v)[j], strings); }
      }
      if v.index < Length(g, v.block) { SameShapeNamed(w, g, g', At(g, v).destination); }
    }
    forall b | b in g'.blocks ensures FieldsOk(g'.blocks[b].fields) { assert b in g.blocks; }
  }

  lemma RewritePointNamed(w: Origin, pass: Pass, g: Graph, u: Position)
    requires GraphNamed(w, g) && Closed(g) && Valid(g, u)
    ensures RewritePoint(pass, g, u).Some? ==> GraphNamed(w, RewritePoint(pass, g, u).value)
  {
    hide GraphNamed, RewriteOperands;
    RewriteOperandsNamed(w, pass, g, u, 0);
    RewriteOperandsSameShape(pass, g, u, 0);
    RewritePointSameShape(pass, g, u);
    var g' := RewriteOperands(pass, g, u, 0);
    if pass.Folding? && u.index < Length(g, u.block) && Folded(At(g', u)).Some? {
      ClosedElsewhere(g, g');
      SetFoldedNamed(w, g', u, Folded(At(g', u)).value);
    }
  }

  lemma ClosedElsewhere(g: Graph, g': Graph)
    requires SameShape(g, g') && Closed(g)
    ensures Closed(g')
  {
    forall b | b in g'.blocks ensures b in g.blocks {}
  }

  lemma {:induction false} RewriteBlockNamed(w: Origin, pass: Pass, g: Graph, b: BlockId, i: nat)
    requires GraphNamed(w, g) && Closed(g) && b in g.blocks && i <= Length(g, b) + 1
    ensures RewriteBlock(pass, g, b, i).Some? ==> GraphNamed(w, RewriteBlock(pass, g, b, i).value)
    decreases Length(g, b) + 1 - i
  {
    hide GraphNamed, RewritePoint;
    if i < Length(g, b) + 1 {
      RewritePointSameShape(pass, g, Position(b, i));
      RewritePointNamed(w, pass, g, Position(b, i));
      match RewritePoint(pass, g, Position(b, i))
      case None =>
      case Some(g') => RewriteBlockNamed(w, pass, g', b, i + 1);
    }
  }

  lemma {:induction false} RewriteGraphNamed(w: Origin, pass: Pass, g: Graph, j: nat)
    requires GraphNamed(w, g) && WellFormed(g) && j <= |g.order|
    ensures RewriteGraph(pass, g, j).Some? ==> GraphNamed(w, RewriteGraph(pass, g, j).value)
    decreases |g.order| - j
  {
    hide GraphNamed, RewriteBlock;
    if j < |g.order| {
      RewriteBlockSameShape(pass, g, g.order[j], 0);
      RewriteBlockNamed(w, pass, g, g.order[j], 0);
      match RewriteBlock(pass, g, g.order[j], 0)
      case None =>
      case Some(g') =>
        SameShapeWellFormed(g, g');
        RewriteGraphNamed(w, pass, g', j + 1);
    }
  }

  lemma PrunedNamed(w: Origin, live: set<string>, g: Graph)
    requires GraphNamed(w, g)
    ensures GraphNamed(w, Pruned(live, g))
  {
    hide FieldsOk, NamedIn, Kept;
    var g' := Pruned(live, g);
    forall v | Valid(g', v) ensures PointNamed(w, g', v) {
      var all := g.blocks[v.block].assignments;
      KeepMembers(live, all);
      var u := Position(v.block, |all|);
      if v.index < Length(g', v.block) {
        assert At(g', v) in all;
        var i :| 0 <= i < |all| && all[i] == At(g', v);
        u := Position(v.block, i);
        assert At(g, u) == At(g', v);
      }
      assert Valid(g, u) && PointNamed(w, g, u);
      PrunedNames(w, live, g);
      assert OperandsAt(g, u) == OperandsAt(g', v);
    }
    forall b | b in g'.blocks ensures FieldsOk(g'.blocks[b].fields) { assert b in g.blocks; }
  }

  lemma PrunedNames(w: Origin, live: set<string>, g: Graph)
    ensures forall n :: NamedIn(w.globals, w.parameters, g, n) ==> NamedIn(w.globals, w.parameters, Pruned(live, g), n)
  {
    forall n | NamedIn(w.globals, w.parameters, g, n) ensures NamedIn(w.globals, w.parameters, Pruned(live, g), n) {
      if b :| b in g.blocks && n in GlobalNames(g.blocks[b].fields) { assert b in Pruned(live, g).blocks; }
    }
  }

  // ----- layout -----

  lemma SameShapeFallsThrough(g: Graph, g': Graph)
    requires SameShape(g, g') && FallsThrough(g)
    ensures FallsThrough(g')
  {
    forall i | 0 <= i < |g'.order| && g'.order[i] in g'.blocks && g'.blocks[g'.order[i]].terminal.Branch?
      ensures i + 1 < |g'.order| && g'.order[i + 1] == g'.blocks[g'.order[i]].terminal.trueBlock
    {
      var t, t' := g.blocks[g.order[i]].terminal, g'.blocks[g'.order[i]].terminal;
      assert |Successors(t')| == 2 && Successors(t')[0] == t'.trueBlock;
      assert t.Branch? && Successors(t)[0] == t.trueBlock;
    }
  }

  lemma PrunedFallsThrough(live: set<string>, g: Graph)
    requires FallsThrough(g)
    ensures FallsThrough(Pruned(live, g))
  {
  }

  // ----- the whole optimizer -----

  /** What the code generator relies on in a method body. */
  ghost predicate Emittable(w: Origin, g: Graph) {
    WellFormed(g) && FallsThrough(g) && GraphNamed(w, g)
  }

  /** The same blocks in the same order, with the same edges and the same predecessor lists. */
  ghost predicate SameSkeleton(g: Graph, g': Graph) {
    && g'.order == g.order && g'.blocks.Keys == g.blocks.Keys && g'.predecessors == g.predecessors
    && forall b :: b in g.blocks ==> Successors(g'.blocks[b].terminal) == Successors(g.blocks[b].terminal)
  }

  lemma SameSkeletonExact(g: Graph, g': Graph)
    requires SameSkeleton(g, g') && PredecessorsExact(g)
    ensures PredecessorsExact(g')
  {
  }

  lemma PassKeepsEmittable(w: Origin, pass: Pass, enabled: bool, g: Graph, g': Graph)
    requires Emittable(w, g) && Optimizations.After(pass, enabled, g, g')
    ensures Emittable(w, g')
  {
    hide GraphNamed, FallsThrough;
    RewriteGraphNamed(w, pass, g, 0);
    RewriteGraphKeeps(pass, g, 0);
    if enabled { SameShapeFallsThrough(g, g'); }
  }

  /** No pass moves, adds or removes a block or an edge. */
  lemma PassSkeleton(pass: Pass, enabled: bool, g: Graph, g': Graph)
    requires WellFormed(g) && Optimizations.After(pass, enabled, g, g')
    ensures SameSkeleton(g, g')
  {
    hide RewriteGraph, Closed, PredecessorsAgree;
    RewriteGraphKeeps(pass, g, 0);
  }

  lemma OptimizedSkeleton(flags: Optimizations.Flags, globals: seq<FieldDeclaration>, g: Graph, g': Graph)
    requires WellFormed(g) && Optimizations.Optimized(flags, globals, g, g')
    ensures SameSkeleton(g, g')
  {
    hide RewriteGraph, WellFormed, IsLiveSet, Least, Optimizations.After;
    var g1, g2 :|
      && Optimizations.After(Folding, flags.fold, g, g1)
      && WellFormed(g1) && Optimizations.After(Copying, flags.propagate, g1, g2)
      && Optimizations.AfterElimination(flags.eliminate, globals, g2, g');
    PassSkeleton(Folding, flags.fold, g, g1);
    PassSkeleton(Copying, flags.propagate, g1, g2);
  }

  /** Any subset of the passes keeps what the code generator relies on, the order of the blocks, and their
      predecessor lists as exact as they were. */
  lemma OptimizedEmittable(w: Origin, flags: Optimizations.Flags, g: Graph, g': Graph)
    requires Emittable(w, g) && ArraysDeclared(w.globals, g) && Optimizations.Optimized(flags, w.globals, g, g')
    ensures Emittable(w, g') && SameSkeleton(g, g')
    ensures PredecessorsExact(g) ==> PredecessorsExact(g')
  {
    hide GraphNamed, FallsThrough, WellFormed, ArraysDeclared, PredecessorsExact;
    var g1, g2 :|
      && Optimizations.After(Folding, flags.fold, g, g1)
      && WellFormed(g1) && Optimizations.After(Copying, flags.propagate, g1, g2)
      && Optimizations.AfterElimination(flags.eliminate, w.globals, g2, g');
    Optimizations.PassKeeps(Folding, flags.fold, w.globals, g, g1);
    PassKeepsEmittable(w, Folding, flags.fold, g, g1);
    Optimizations.PassKeeps(Copying, flags.propagate, w.globals, g1, g2);
    PassKeepsEmittable(w, Copying, flags.propagate, g1, g2);
    if flags.eliminate {
      var live :| IsLiveSet(w.globals, g2, live) && Least(w.globals, g2, live) && g' == Pruned(live, g2);
      PrunedWellFormed(live, g2);
      PrunedNamed(w, live, g2);
      PrunedFallsThrough(live, g2);
    }
    OptimizedSkeleton(flags, w.globals, g, g');
    if PredecessorsExact(g) { SameSkeletonExact(g, g'); }
  }

  // ----- generated methods -----

  lemma NamedStays(rules: Rules, s: Lowering.Generator, t: Terminal, g: Graph, n: string)
    requires Named(rules, s, n) && g.blocks == Lowering.Blocks(s, t) && s.current !in s.finished
    ensures NamedIn(rules.globals, rules.parameters, g, n)
  {
    if n in GlobalNames(s.fields) {
      assert s.current in g.blocks && n in GlobalNames(g.blocks[s.current].fields);
    } else if n !in GlobalNames(rules.globals) && n !in rules.parameters {
      var b :| b in s.finished && n in GlobalNames(s.finished[b].fields);
      assert b in g.blocks && n in GlobalNames(g.blocks[b].fields);
    }
  }

  lemma FinishedNamed(rules: Rules, s: Lowering.Generator, plan: Plan, t: Terminal, g: Graph)
    requires NamesKnown(rules, s) && PlanNamed(rules, s, plan) && s.current !in s.finished
    requires g.blocks == Lowering.Blocks(s, t) && Certificate(rules.fixed, plan, g) && Closed(g)
    ensures GraphNamed(Origin(rules.globals, rules.parameters), g)
  {
    var w := Origin(rules.globals, rules.parameters);
    forall u | Valid(g, u) ensures PointNamed(w, g, u) {
      PointFinished(rules, s, plan, t, g, u);
    }
  }

  lemma PointFinished(rules: Rules, s: Lowering.Generator, plan: Plan, t: Terminal, g: Graph, u: Position)
    requires NamesKnown(rules, s) && PlanNamed(rules, s, plan) && s.current !in s.finished
    requires g.blocks == Lowering.Blocks(s, t) && Certificate(rules.fixed, plan, g) && Closed(g) && Valid(g, u)
    ensures PointNamed(Origin(rules.globals, rules.parameters), g, u)
  {
    hide NamedIn, Named, Declared, CodeOk, FieldsOk, Closed;
    var w := Origin(rules.globals, rules.parameters);
    var code := g.blocks[u.block].assignments;
    assert NamesOk(rules, s, code);
    assert BlockOk(rules.fixed, plan, g.blocks[u.block], plan[u.block]);
    if u.index < |code| {
      assert AssignmentNamed(rules, s, code[u.index]);
      NamedStays(rules, s, t, g, code[u.index].destination);
    }
    forall k | 0 <= k < |OperandsAt(g, u)|
      ensures OperandNamed(w, g, OperandsAt(g, u)[k], u.index < Length(g, u.block) && At(g, u).Call?)
    {
      var o := OperandsAt(g, u)[k];
      if o.Field? {
        ReadIsPlanned(rules.fixed, plan, g, u, k);
        if o.name in Written(code[..u.index]) {
          var i :| 0 <= i < |code[..u.index]| && code[..u.index][i].destination == o.name;
          assert AssignmentNamed(rules, s, code[i]);
        }
        NamedStays(rules, s, t, g, o.name);
      }
    }
  }

  /** Every method the checker accepts is generated in a form the code generator can emit. */
  lemma GeneratedEmittable(rules: Rules, table: map<string, FieldDeclaration>, m: Ir.Method, temporaries: nat,
                           nextBlock: nat)
    requires GlobalTable(rules.globals, table) && Lowering.ScopedMethod(table, m, rules.fixed)
    requires rules.fixed <= ParameterNames(m) == rules.parameters
    ensures Emittable(Origin(rules.globals, rules.parameters),
      Lowering.GenerateMethod(table, m, temporaries, nextBlock))
  {
    hide Lowering.ScopedMethod, Lowering.GenerateBody, NamesKnown, PlanNamed, CodeOk, Lowering.PredecessorLists,
      ParameterNames, GraphNamed, FallsThrough, EntryNames, WrittenBeforeRead, Rewriting.DefinitelyAssigned,
      PredecessorsExact;
    var g := Lowering.GenerateMethod(table, m, temporaries, nextBlock);
    GeneratedMethodSound(rules, table, m, temporaries, nextBlock);
    var plan := BodySound(rules, table, m, temporaries, nextBlock);
    var s0, s := MethodLowering.BeforeBody(table, m, temporaries, nextBlock),
      Lowering.GenerateBody(table, m, temporaries, nextBlock);
    var p0: Plan := map[nextBlock := EntryNames(rules.globals, m)];
    FinishedBlocks(rules, s0, p0, s, plan, Lowering.LastTerminal(m));
    SameBlocks(rules.fixed, plan, Graph(g.order, g.blocks, map[]), g);
    FinishedNamed(rules, s, plan, Lowering.LastTerminal(m), g);
  }
}
