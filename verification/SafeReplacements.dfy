/** When the guard of the two operand passes is exact: a replacement is safe if and only if no way through the
    method, whatever its branches decide, tells the old operand from the new one. */
module SafeReplacements {
  import opened Words
  import opened Worlds
  import opened Llir
  import opened ReachingDefinitions
  import opened Rewriting
  import opened OperandPasses
  import Names

  /** An edge after another from `path[0]` to the block of `u`. */
  ghost predicate IsPath(g: Graph, path: seq<BlockId>, u: Position) {
    && |path| > 0
    && if |path| == 1 then path[0] == u.block
       else IsEdge(g, path[0], path[1]) && IsPath(g, path[1..], u)
  }

  /** An assignment that stops the run is passed over. */
  function Passed(ctx: Context, a: Assignment, st: State): State {
    match Exec(ctx, a, st)
    case Next(st') => st'
    case Stop(_) => st
  }

  /** Assignments `i` up to `hi` of a block. */
  function Through(ctx: Context, g: Graph, b: BlockId, i: nat, hi: nat, st: State): State
    requires b in g.blocks && i <= hi <= Length(g, b)
    decreases hi - i
  {
    if i == hi then st else Through(ctx, g, b, i + 1, hi, Passed(ctx, At(g, Position(b, i)), st))
  }

  /** The state in which `u` is reached when control enters `path[0]` and takes this path, whatever the
      branches on it say. */
  ghost function Along(ctx: Context, g: Graph, path: seq<BlockId>, u: Position, st: State): State
    requires Valid(g, u) && IsPath(g, path, u)
  {
    if |path| == 1 then Through(ctx, g, u.block, 0, u.index, st)
    else Along(ctx, g, path[1..], u, Through(ctx, g, path[0], 0, Length(g, path[0]), st))
  }

  // ----- a safe replacement agrees on every path -----

  lemma PassedAgrees(ctx: Context, g: Graph, x: string, o: Operand, u: Position, p: Position, st: State)
    requires GlobalsLookGlobal(ctx) && !Names.LooksGlobal(x)
    requires p.block in g.blocks && p.index < Length(g, p.block)
    requires AllDefine(g, x, u, o) && Stable(g, x, u, o) && Agree(ctx, g, x, o, u, p, st)
    ensures Agree(ctx, g, x, o, u, After(p), Passed(ctx, At(g, p), st))
  {
    hide AllDefine, Stable, Agree;
    match Exec(ctx, At(g, p), st)
    case Next(st') => AgreeStep(ctx, g, x, o, u, p, st, st');
    case Stop(_) => StopAgrees(ctx, g, x, o, u, p, st);
  }

  /** The definitions themselves never stop a run. */
  lemma StopAgrees(ctx: Context, g: Graph, x: string, o: Operand, u: Position, p: Position, st: State)
    requires p.block in g.blocks && p.index < Length(g, p.block)
    requires AllDefine(g, x, u, o) && Agree(ctx, g, x, o, u, p, st) && Exec(ctx, At(g, p), st).Stop?
    ensures Agree(ctx, g, x, o, u, After(p), st)
  {
    if InRegion(g, x, After(p), u) {
      if At(g, p).destination == x {
        assert IsReachingDefinition(g, x, u, p);
      } else {
        BeforeWrite(g, x, p, u);
      }
    }
  }

  lemma {:induction false} ThroughAgrees(ctx: Context, g: Graph, x: string, o: Operand, u: Position, b: BlockId,
                                         i: nat, hi: nat, st: State)
    requires GlobalsLookGlobal(ctx) && !Names.LooksGlobal(x)
    requires b in g.blocks && i <= hi <= Length(g, b)
    requires AllDefine(g, x, u, o) && Stable(g, x, u, o) && Agree(ctx, g, x, o, u, Position(b, i), st)
    ensures Agree(ctx, g, x, o, u, Position(b, hi), Through(ctx, g, b, i, hi, st))
    decreases hi - i
  {
    hide AllDefine, Stable, Agree, Passed;
    if i < hi {
      PassedAgrees(ctx, g, x, o, u, Position(b, i), st);
      ThroughAgrees(ctx, g, x, o, u, b, i + 1, hi, Passed(ctx, At(g, Position(b, i)), st));
    }
  }

  lemma {:induction false} AlongAgrees(ctx: Context, g: Graph, x: string, o: Operand, u: Position,
                                       path: seq<BlockId>, st: State)
    requires GlobalsLookGlobal(ctx) && !Names.LooksGlobal(x) && Valid(g, u) && IsPath(g, path, u)
    requires AllDefine(g, x, u, o) && Stable(g, x, u, o) && Agree(ctx, g, x, o, u, Position(path[0], 0), st)
    ensures Eval(ctx, Along(ctx, g, path, u, st), Field(x)) == Eval(ctx, Along(ctx, g, path, u, st), o)
    decreases |path|
  {
    hide AllDefine, Stable, Agree, Through;
    if |path| == 1 {
      ThroughAgrees(ctx, g, x, o, u, u.block, 0, u.index, st);
      AgreeAtUse(ctx, g, x, o, u, Through(ctx, g, u.block, 0, u.index, st), u);
    } else {
      ThroughAgrees(ctx, g, x, o, u, path[0], 0, Length(g, path[0]), st);
      AgreeEdge(ctx, g, x, o, u, path[0], path[1], Through(ctx, g, path[0], 0, Length(g, path[0]), st));
      AlongAgrees(ctx, g, x, o, u, path[1..], Through(ctx, g, path[0], 0, Length(g, path[0]), st));
    }
  }

  // ----- an unsafe one is told apart on some path -----

  /** Nothing on a path without a write to `x` changes `x` or the operand that was put in its place. */
  lemma {:induction false} ThroughKeeps(ctx: Context, g: Graph, x: string, o: Operand, u: Position, b: BlockId,
                                        i: nat, hi: nat, st: State)
    requires GlobalsLookGlobal(ctx) && !Names.LooksGlobal(x) && Stable(g, x, u, o)
    requires b in g.blocks && i <= hi <= Length(g, b) && Clear(g, x, b, i, hi) && InRegion(g, x, Position(b, hi), u)
    ensures var st' := Through(ctx, g, b, i, hi, st);
      Eval(ctx, st', Field(x)) == Eval(ctx, st, Field(x)) && Eval(ctx, st', o) == Eval(ctx, st, o)
    decreases hi - i
  {
    hide InRegion, Eval, Exec;
    if i < hi {
      var p := Position(b, i);
      RegionReachesBack(g, x, b, i + 1, hi, u);
      assert IsPassedWrite(g, x, u, p);
      assert IsMutated(g, x, u, At(g, p).destination);
      var st' := Passed(ctx, At(g, p), st);
      if Exec(ctx, At(g, p), st).Next? { WriteElsewhere(ctx, At(g, p), x, o, st, st'); }
      ThroughKeeps(ctx, g, x, o, u, b, i + 1, hi, st');
    }
  }

  lemma RegionReachesBack(g: Graph, x: string, b: BlockId, i: nat, hi: nat, u: Position)
    requires b in g.blocks && i <= hi <= Length(g, b) && Clear(g, x, b, i, hi) && InRegion(g, x, Position(b, hi), u)
    ensures InRegion(g, x, Position(b, i), u)
  {
  }

  lemma {:induction false} AlongKeeps(ctx: Context, g: Graph, x: string, o: Operand, u: Position, path: seq<BlockId>,
                                      st: State)
    requires GlobalsLookGlobal(ctx) && !Names.LooksGlobal(x) && Stable(g, x, u, o)
    requires Valid(g, u) && Follows(g, x, path, u)
    ensures IsPath(g, path, u)
    ensures var st' := Along(ctx, g, path, u, st);
      Eval(ctx, st', Field(x)) == Eval(ctx, st, Field(x)) && Eval(ctx, st', o) == Eval(ctx, st, o)
    decreases |path|
  {
    hide Stable, Eval, Through, InRegion;
    if |path| == 1 {
      assert InRegion(g, x, u, u) by { HereIsInRegion(g, x, u); }
      ThroughKeeps(ctx, g, x, o, u, u.block, 0, u.index, st);
    } else {
      var n := Length(g, path[0]);
      assert EntryReaches(g, x, path[1], u) by { assert path[1..][0] == path[1]; }
      EndIsInRegion(g, x, path[0], u);
      ThroughKeeps(ctx, g, x, o, u, path[0], 0, n, st);
      AlongKeeps(ctx, g, x, o, u, path[1..], Through(ctx, g, path[0], 0, n, st));
    }
  }

  lemma HereIsInRegion(g: Graph, x: string, u: Position)
    requires Valid(g, u)
    ensures InRegion(g, x, u, u)
  {
  }

  lemma EndIsInRegion(g: Graph, x: string, b: BlockId, u: Position)
    requires b in g.blocks && ExitReaches(g, x, b, u)
    ensures InRegion(g, x, Position(b, Length(g, b)), u)
  {
  }

  // ----- both -----

  /** Two operands that no path from the method's entry tells apart at `u`, whatever it starts from. */
  ghost predicate Indistinguishable(ctx: Context, g: Graph, u: Position, o: Operand, o': Operand)
    requires Valid(g, u) && |g.order| > 0
  {
    forall path, st :: IsPath(g, path, u) && path[0] == Entry(g) ==>
      Eval(ctx, Along(ctx, g, path, u, st), o) == Eval(ctx, Along(ctx, g, path, u, st), o')
  }

  /** What a pass puts in place of a name is what all its reaching definitions move there, and keeps. */
  lemma RewrittenDefines(pass: Pass, g: Graph, u: Position, o: Operand)
    requires Rewritten(pass, g, u, o) != o
    ensures o.Field? && !Names.LooksGlobal(o.name)
    ensures AllDefine(g, o.name, u, Rewritten(pass, g, u, o)) && Stable(g, o.name, u, Rewritten(pass, g, u, o))
  {
  }

  /** A state in which two different operands, the first of them a local, have different values. */
  lemma Different(ctx: Context, x: string, o: Operand) returns (st: State)
    requires GlobalsLookGlobal(ctx) && !Names.LooksGlobal(x) && o != Field(x) && !o.Text?
    requires o.Field? ==> !Names.LooksGlobal(o.name)
    ensures Eval(ctx, st, Field(x)) != Eval(ctx, st, o)
  {
    var v := if o.Literal? && o.value == 1 then 0 else 1;
    st := State(map[Cell(x, 0) := v], World(map[], []));
  }

  /** A replacement is safe exactly if no path from the entry, with free choice at every branch and from
      any state, tells the operand from what replaces it. */
  lemma SafeExactly(pass: Pass, ctx: Context, g: Graph, u: Position, o: Operand)
    requires WellFormed(g) && Valid(g, u) && GlobalsLookGlobal(ctx)
    ensures SafeOperand(pass, g, u, o) <==> Indistinguishable(ctx, g, u, o, Rewritten(pass, g, u, o))
  {
    hide AllDefine, Stable, Eval, Along, Closed, PredecessorsAgree, Rewritten;
    var o' := Rewritten(pass, g, u, o);
    if o' != o {
      RewrittenDefines(pass, g, u, o);
      if AlwaysWritten(g, o.name, u) {
        forall path, st | IsPath(g, path, u) && path[0] == Entry(g)
          ensures Eval(ctx, Along(ctx, g, path, u, st), o) == Eval(ctx, Along(ctx, g, path, u, st), o') {
          AlongAgrees(ctx, g, o.name, o', u, path, st);
        }
      } else {
        EntryReachesInRegion(g, o.name, Entry(g), u);
        var path :| Follows(g, o.name, path, u) && path[0] == Entry(g);
        assert !o'.Text? && (o'.Field? ==> !Names.LooksGlobal(o'.name)) by { StableIsLocal(g, o.name, u, o'); }
        var st := Different(ctx, o.name, o');
        AlongKeeps(ctx, g, o.name, o', u, path, st);
      }
    }
  }

  lemma StableIsLocal(g: Graph, x: string, u: Position, o: Operand)
    requires Stable(g, x, u, o)
    ensures !o.Text? && (o.Field? ==> !Names.LooksGlobal(o.name))
  {
  }
}
