/** More rounds for the loops never change a structured run that needed no more. */
module IrFuel {
  import opened Words
  import opened Worlds
  import opened Ir

  lemma {:induction false} StatementFuel(ctx: Context, s: Statement, frames: seq<Frame>, world: World, n: nat, m: nat)
    requires n <= m && !Exec(ctx, s, frames, world, n).OutOfFuel?
    ensures Exec(ctx, s, frames, world, m) == Exec(ctx, s, frames, world, n)
    decreases n, s, 0
  {
    hide Eval, ExecAssignment, ExecCall, ExecBlock, Loop;
    match s
    case If(condition, ifBlock, elseBlock) =>
      var r := Eval(ctx, condition, frames, world);
      if r.Value? && r.word == 1 { BlockFuel(ctx, ifBlock, frames, r.world, n, m); }
      if r.Value? && r.word == 0 && elseBlock.Some? { BlockFuel(ctx, elseBlock.value, frames, r.world, n, m); }
    case For(initial, condition, update, body) =>
      var r := ExecAssignment(ctx, initial, frames, world);
      if r.Normal? { LoopFuel(ctx, condition, Some(update), body, r.frames, r.world, n, m); }
    case While(condition, body) => LoopFuel(ctx, condition, None, body, frames, world, n, m);
    case _ =>
  }

  lemma {:induction false} LoopFuel(ctx: Context, condition: Expression, update: Option<ForUpdate>, body: Block,
                                    frames: seq<Frame>, world: World, n: nat, m: nat)
    requires n <= m && !Loop(ctx, condition, update, body, frames, world, n).OutOfFuel?
    ensures Loop(ctx, condition, update, body, frames, world, m) == Loop(ctx, condition, update, body, frames, world, n)
    decreases n, body, 2
  {
    hide Eval, ExecBlock, NextRound;
    match Eval(ctx, condition, frames, world)
    case Value(v, w) =>
      if v == 1 {
        BlockFuel(ctx, body, frames, w, n - 1, m - 1);
        match ExecBlock(ctx, body, frames, w, n - 1)
        case Normal(frames', w') => RoundFuel(ctx, condition, update, body, frames', w', n, m);
        case Continued(frames', w') => RoundFuel(ctx, condition, update, body, frames', w', n, m);
        case _ =>
      }
    case _ =>
  }

  lemma {:induction false} RoundFuel(ctx: Context, condition: Expression, update: Option<ForUpdate>, body: Block,
                                     frames: seq<Frame>, world: World, n: nat, m: nat)
    requires 0 < n <= m && !NextRound(ctx, condition, update, body, frames, world, n).OutOfFuel?
    ensures NextRound(ctx, condition, update, body, frames, world, m)
      == NextRound(ctx, condition, update, body, frames, world, n)
    decreases n, body, 1
  {
    hide ExecUpdate, Loop;
    match update
    case None => LoopFuel(ctx, condition, update, body, frames, world, n - 1, m - 1);
    case Some(u) =>
      match ExecUpdate(ctx, u, frames, world)
      case Normal(frames', w) => LoopFuel(ctx, condition, update, body, frames', w, n - 1, m - 1);
      case _ =>
  }

  lemma {:induction false} BlockFuel(ctx: Context, b: Block, frames: seq<Frame>, world: World, n: nat, m: nat)
    requires n <= m && !ExecBlock(ctx, b, frames, world, n).OutOfFuel?
    ensures ExecBlock(ctx, b, frames, world, m) == ExecBlock(ctx, b, frames, world, n)
    decreases n, b, 0
  {
    hide ExecAll;
    StatementsFuel(ctx, b.statements, frames + [OpenScope(map[], b.fields)], world, n, m);
  }

  lemma {:induction false} StatementsFuel(ctx: Context, statements: seq<Statement>, frames: seq<Frame>, world: World,
                                          n: nat, m: nat)
    requires n <= m && !ExecAll(ctx, statements, frames, world, n).OutOfFuel?
    ensures ExecAll(ctx, statements, frames, world, m) == ExecAll(ctx, statements, frames, world, n)
    decreases n, statements, 0
  {
    hide Exec;
    if statements != [] {
      StatementFuel(ctx, statements[0], frames, world, n, m);
      match Exec(ctx, statements[0], frames, world, n)
      case Normal(frames', w) => StatementsFuel(ctx, statements[1..], frames', w, n, m);
      case _ =>
    }
  }

  /** A method has at most one outcome. */
  lemma MethodFuel(ctx: Context, m: Method, arguments: seq<Argument>, world: World, n: nat, more: nat)
    requires |m.arguments| == |arguments| && n <= more && RunMethod(ctx, m, arguments, world, n) != Some(Diverged)
    ensures RunMethod(ctx, m, arguments, world, more) == RunMethod(ctx, m, arguments, world, n)
  {
    hide ExecAll;
    StatementsFuel(ctx, m.body.statements, [OpenScope(BindParameters(m.arguments, arguments), m.body.fields)], world, n,
      more);
  }
}
