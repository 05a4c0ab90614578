/** `optimization_apply`: the passes in sequence, and their effect on whole programs. */
module Optimizations {
  import opened Words
  import opened Worlds
  import opened Llir
  import opened LlirMethods
  import opened Rewriting
  import opened OperandPasses
  import opened DeadCode
  import opened Programs
  import ConstantFolding
  import CopyPropagation
  import Names

  datatype Flags = Flags(fold: bool, propagate: bool, eliminate: bool)

  /** What one flagged pass over operands makes of a graph. */
  ghost predicate After(pass: Pass, enabled: bool, g: Graph, g': Graph)
    requires WellFormed(g)
  {
    if enabled then RewriteGraph(pass, g, 0) == Some(g') else g' == g
  }

  ghost predicate AfterElimination(enabled: bool, globals: seq<FieldDeclaration>, g: Graph, g': Graph) {
    if enabled then exists live :: IsLiveSet(globals, g, live) && Least(globals, g, live) && g' == Pruned(live, g)
    else g' == g
  }

  /** `g'` is what `optimization_apply` leaves of a method body `g`. */
  ghost predicate Optimized(flags: Flags, globals: seq<FieldDeclaration>, g: Graph, g': Graph)
    requires WellFormed(g)
  {
    exists g1, g2 ::
      && After(Folding, flags.fold, g, g1)
      && WellFormed(g1) && After(Copying, flags.propagate, g1, g2)
      && AfterElimination(flags.eliminate, globals, g2, g')
  }

  /** `optimization_apply` on one method; false when folding divides by zero at compile time. */
  method Apply(flags: Flags, globals: seq<FieldDeclaration>, m: LlirMethod) returns (ok: bool)
    requires WellFormed(m.Value())
    modifies m`blocks
    ensures ok ==> Optimized(flags, globals, old(m.Value()), m.Value())
    ensures !ok ==> flags.fold && RewriteGraph(Folding, old(m.Value()), 0).None?
  {
    ok := true;
    ghost var g := m.Value();
    RewriteGraphKeeps(Folding, g, 0);
    if flags.fold {
      ok := ConstantFolding.Optimize(m);
      if !ok {
        return;
      }
    }
    ghost var g1 := m.Value();
    RewriteGraphKeeps(Copying, g1, 0);
    if flags.propagate {
      CopyPropagation.Optimize(m);
    }
    ghost var g2 := m.Value();
    if flags.eliminate {
      ghost var live := DeadCode.Optimize(globals, m);
    }
    assert After(Folding, flags.fold, g, g1) && WellFormed(g1) && After(Copying, flags.propagate, g1, g2);
  }

  // ----- one method -----

  /** Every replacement that the enabled passes make is safe. */
  ghost predicate SafePasses(flags: Flags, g: Graph)
    requires WellFormed(g)
  {
    && (flags.fold ==> SafeFrom(Folding, g, 0))
    && (flags.propagate ==> forall g1 :: After(Folding, flags.fold, g, g1) && WellFormed(g1) ==>
         SafeFrom(Copying, g1, 0))
  }

  /** What the optimizer relies on in a method body. */
  ghost predicate Optimizable(flags: Flags, globals: seq<FieldDeclaration>, g: Graph) {
    WellFormed(g) && ArraysDeclared(globals, g) && SafePasses(flags, g)
  }

  /** It is enough that every local is never assigned or assigned before it is read; without folding
      and propagation, nothing is needed. */
  lemma AssignedIsOptimizable(flags: Flags, globals: seq<FieldDeclaration>, g: Graph)
    requires WellFormed(g) && ArraysDeclared(globals, g)
    requires (flags.fold || flags.propagate) ==> DefinitelyAssigned(g)
    ensures Optimizable(flags, globals, g)
  {
    hide DefinitelyAssigned, SafeFrom, ArraysDeclared;
    if flags.fold || flags.propagate {
      AssignedIsSafe(Folding, g, 0);
      forall g1 | After(Folding, flags.fold, g, g1) && WellFormed(g1) ensures SafeFrom(Copying, g1, 0) {
        AssignedIsSafe(Copying, g1, 0);
      }
    }
  }

  lemma SameShapeArrays(globals: seq<FieldDeclaration>, g: Graph, g': Graph)
    requires SameShape(g, g') && ArraysDeclared(globals, g)
    ensures ArraysDeclared(globals, g')
  {
    forall b, i | b in g'.blocks && 0 <= i < |g'.blocks[b].assignments| && g'.blocks[b].assignments[i].ArrayAccess?
      ensures g'.blocks[b].assignments[i].accessArray in GlobalNames(globals)
        || exists c :: c in g'.blocks && g'.blocks[b].assignments[i].accessArray in ArrayNames(g'.blocks[c].fields)
    {
      assert SameNames(g.blocks[b].assignments[i], g'.blocks[b].assignments[i]);
      var name := g.blocks[b].assignments[i].accessArray;
      if name !in GlobalNames(globals) {
        var c :| c in g.blocks && name in ArrayNames(g.blocks[c].fields);
        assert c in g'.blocks && name in ArrayNames(g'.blocks[c].fields);
      }
    }
  }

  lemma PassKeeps(pass: Pass, enabled: bool, globals: seq<FieldDeclaration>, g: Graph, g': Graph)
    requires WellFormed(g) && ArraysDeclared(globals, g) && After(pass, enabled, g, g')
    ensures WellFormed(g') && ArraysDeclared(globals, g')
    ensures g'.order == g.order && LocalFields(g'.order, g'.blocks) == LocalFields(g.order, g.blocks)
  {
    hide RewriteGraph, LocalFields, ArraysDeclared;
    if enabled {
      RewriteGraphKeeps(pass, g, 0);
      SameShapeArrays(globals, g, g');
      SameLocalFields(g.order, g.blocks, g'.blocks);
    }
  }

  /** Any subset of the passes keeps a method body well formed and its declarations as they are. */
  lemma OptimizedWellFormed(flags: Flags, globals: seq<FieldDeclaration>, g: Graph, g': Graph)
    requires WellFormed(g) && ArraysDeclared(globals, g) && Optimized(flags, globals, g, g')
    ensures WellFormed(g') && LocalFields(g'.order, g'.blocks) == LocalFields(g.order, g.blocks)
  {
    hide WellFormed, LocalFields, ArraysDeclared, After;
    var g1, g2 :|
      && After(Folding, flags.fold, g, g1)
      && WellFormed(g1) && After(Copying, flags.propagate, g1, g2)
      && AfterElimination(flags.eliminate, globals, g2, g');
    PassKeeps(Folding, flags.fold, globals, g, g1);
    PassKeeps(Copying, flags.propagate, globals, g1, g2);
    EliminationKeeps(flags.eliminate, globals, g2, g');
  }

  lemma EliminationKeeps(enabled: bool, globals: seq<FieldDeclaration>, g: Graph, g': Graph)
    requires WellFormed(g) && AfterElimination(enabled, globals, g, g')
    ensures WellFormed(g') && LocalFields(g'.order, g'.blocks) == LocalFields(g.order, g.blocks)
  {
    if enabled {
      var live :| IsLiveSet(globals, g, live) && Least(globals, g, live) && g' == Pruned(live, g);
      PrunedWellFormed(live, g);
      SameLocalFields(g.order, g.blocks, g'.blocks);
    }
  }

  /** Any subset of the passes keeps every run's outcome, traps aside. */
  lemma OptimizedPreservesRuns(flags: Flags, globals: seq<FieldDeclaration>, g: Graph, g': Graph,
                               ctx: Context, st: State, fuel: nat)
    requires Optimizable(flags, globals, g) && Optimized(flags, globals, g, g') && WellFormed(g')
    requires ctx.globals == GlobalNames(globals) && GlobalsLookGlobal(ctx)
    ensures SameUnlessTrapped(Run(ctx, g, st, fuel), Run(ctx, g', st, fuel))
  {
    hide WellFormed, ArraysDeclared, SafeFrom, RewriteGraph, RunFrom;
    var g1, g2 :|
      && After(Folding, flags.fold, g, g1)
      && WellFormed(g1) && After(Copying, flags.propagate, g1, g2)
      && AfterElimination(flags.eliminate, globals, g2, g');
    PassKeeps(Folding, flags.fold, globals, g, g1);
    if flags.fold { PassPreservesRuns(Folding, g, 0, ctx, st, fuel); }
    PassKeeps(Copying, flags.propagate, globals, g1, g2);
    if flags.propagate { PassPreservesRuns(Copying, g1, 0, ctx, st, fuel); }
    if flags.eliminate {
      var live :| IsLiveSet(globals, g2, live) && Least(globals, g2, live) && g' == Pruned(live, g2);
      PrunedPreservesRuns(globals, live, g2, ctx, st, fuel);
    }
  }

  /** No pass touches the declarations, so the arrays keep their lengths. */
  lemma OptimizedKeepsContext(flags: Flags, globals: seq<FieldDeclaration>, g: Graph, g': Graph, call: Oracle)
    requires Optimizable(flags, globals, g) && Optimized(flags, globals, g, g')
    ensures ContextOf(globals, g', call) == ContextOf(globals, g, call)
  {
    hide WellFormed, ArraysDeclared, Optimized, SafePasses, LocalFields, Lengths;
    OptimizedWellFormed(flags, globals, g, g');
  }

  // ----- the whole program -----

  ghost predicate OptimizableProgram(flags: Flags, p: Program) {
    && WellFormedProgram(p)
    && (forall n :: n in GlobalNames(p.globals) ==> Names.LooksGlobal(n))
    && forall n :: n in p.methods ==> Optimizable(flags, p.globals, p.methods[n].graph)
  }

  /** Every method of `p'` is the optimized method of `p`. */
  ghost predicate OptimizedProgram(flags: Flags, p: Program, p': Program)
    requires WellFormedProgram(p)
  {
    && p'.globals == p.globals && p'.methods.Keys == p.methods.Keys
    && forall n :: n in p.methods ==>
         && p'.methods[n].arguments == p.methods[n].arguments
         && Optimized(flags, p.globals, p.methods[n].graph, p'.methods[n].graph)
  }

  lemma OptimizedProgramWellFormed(flags: Flags, p: Program, p': Program)
    requires OptimizableProgram(flags, p) && OptimizedProgram(flags, p, p')
    ensures WellFormedProgram(p')
  {
    forall n | n in p'.methods ensures WellFormed(p'.methods[n].graph) {
      OptimizedWellFormed(flags, p.globals, p.methods[n].graph, p'.methods[n].graph);
    }
  }

  /** The optimized body, calling optimized methods. */
  lemma OptimizedMethodPreserved(flags: Flags, globals: seq<FieldDeclaration>, g: Graph, g': Graph, ctx: Context,
                                 ctx': Context, st: State)
    requires Optimizable(flags, globals, g) && Optimized(flags, globals, g, g') && WellFormed(g')
    requires ctx.globals == GlobalNames(globals) && GlobalsLookGlobal(ctx) && CallsRefine(ctx, ctx')
    ensures SameUnlessTrapped(Behaviour(ctx, g, st), Behaviour(ctx', g', st))
  {
    forall fuel: nat ensures SameUnlessTrapped(Run(ctx, g, st, fuel), Run(ctx', g', st, fuel)) {
      CalleesRefine(ctx, ctx', g, Entry(g), 0, st, fuel);
      OptimizedPreservesRuns(flags, globals, g, g', ctx', st, fuel);
    }
    BehaviourRefines(ctx, g, ctx', g', st);
  }

  /** The optimizer preserves whole programs: for every subset of passes, every imported library and
      every call, the optimized program does what the original does, unless the original traps. */
  lemma {:induction false} OptimizerPreservesPrograms(flags: Flags, p: Program, p': Program, env: Environment,
                                                      depth: nat, callee: string, arguments: seq<Argument>,
                                                      world: World)
    requires OptimizableProgram(flags, p) && OptimizedProgram(flags, p, p') && WellFormedProgram(p')
    ensures SameUnlessTrapped(CallAt(p, env, depth, callee, arguments, world),
                              CallAt(p', env, depth, callee, arguments, world))
    decreases depth
  {
    hide Optimizable, Optimized, WellFormed;
    if callee in p.methods && depth > 0 {
      var g, g' := p.methods[callee].graph, p'.methods[callee].graph;
      var ctx := ContextOf(p.globals, g, OracleAt(p, env, depth - 1));
      var ctx' := ContextOf(p.globals, g, OracleAt(p', env, depth - 1));
      OptimizedKeepsContext(flags, p.globals, g, g', ctx'.call);
      forall c, a, w ensures SameUnlessTrapped(ctx.call(c, a, w), ctx'.call(c, a, w)) {
        OptimizerPreservesPrograms(flags, p, p', env, depth - 1, c, a, w);
      }
      var st := State(Bind(env.frame(callee, world), p.methods[callee].arguments, arguments), world);
      OptimizedMethodPreserved(flags, p.globals, g, g', ctx, ctx', st);
    }
  }
}
