/** Lowering preserves meaning, control flow: scopes, branches, loops, `break`, `continue` and
    `return` lead where the structured semantics goes. */
module BlockLowering {
  import opened Words
  import opened Worlds
  import opened Llir
  import opened Names
  import opened Lowering
  import opened LoweringStructure
  import opened Matching
  import opened Journeys
  import opened ExpressionLowering
  import opened StatementLowering
  import opened ScopeLowering
  import Ir

  lemma {:induction false} StatementRuns(x: Setting, s: Generator, stmt: Ir.Statement, inLoop: bool,
                                         fixed: set<string>, frames: seq<Ir.Frame>, st: State, n: nat)
    returns (st': State)
    requires Agrees(x, s.symbols, frames, st) && Wf(s) && Completes(x.g, GenerateStatement(s, stmt))
    requires s.symbols != [] && ScopedStatement(s.symbols, stmt, inLoop, fixed)
    ensures Follows(x, Here(s), st, Ir.Exec(x.src, stmt, frames, st.world, n), s.symbols,
      ExitsOf(s, GenerateStatement(s, stmt)), n, st')
    decreases n, stmt, 1
  {
    hide Leads, Completes, Shaped, Stored, SameWorldView, Ranged, ArraysRanged, GenerateExpression,
      GenerateAssignment, GenerateCall, Grows, Untouched, Ir.Eval, Ir.ExecAssignment, Ir.Perform, Ir.Loop;
    match stmt
    case Assign(a) => st' := AssignmentRuns(x, s, a, frames, st);
    case CallStatement(call) => st' := CallRuns(x, s, call, frames, st);
    case If(_, _, _) => st' := IfRuns(x, s, stmt, inLoop, fixed, frames, st, n);
    case For(_, _, _, _) => st' := ForRuns(x, s, stmt, inLoop, fixed, frames, st, n);
    case While(_, _) => st' := WhileRuns(x, s, stmt, inLoop, fixed, frames, st, n);
    case Return(value) => st' := ReturnRuns(x, s, value, frames, st);
    case Break =>
      st' := st;
      JumpLeads(x, NewBlock(s).0, Top(s.breaks), s.nextBlock, st);
      assert Here(NewBlock(s).0) == Here(s);
    case Continue =>
      st' := st;
      JumpLeads(x, NewBlock(s).0, Top(s.continues), s.nextBlock, st);
      assert Here(NewBlock(s).0) == Here(s);
  }

  lemma ReturnRuns(x: Setting, s: Generator, value: Option<Ir.Expression>, frames: seq<Ir.Frame>, st: State)
    returns (st': State)
    requires Agrees(x, s.symbols, frames, st) && Wf(s) && Completes(x.g, GenerateStatement(s, Ir.Return(value)))
    ensures match Ir.Exec(x.src, Ir.Return(value), frames, st.world, 0)
            case Finished(v, w) => Leads(x, Here(s), st, Ends(Returned(v, w)))
            case Halted(o) => Leads(x, Here(s), st, Ends(o))
            case Failed => true
            case _ => false
  {
    hide Leads, Completes, Shaped, Stored, SameWorldView, Ranged, ArraysRanged, GenerateExpression, Grows, Untouched,
      Ir.Eval;
    st' := st;
    var (s1, source) := if value.None? then (s, Literal(0)) else GenerateExpression(s, value.value);
    if value.Some? { ExpressionAdvances(s, value.value); }
    var ready := NewBlock(s1).0;
    ReturnLeads(x, ready, source, s1.nextBlock, st);
    assert Here(ready) == Here(s1);
    NewBlockCompletes(x.g, s1);
    if value.Some? {
      st' := ExpressionRuns(x, s, value.value, frames, st);
      match Ir.Eval(x.src, value.value, frames, st.world)
      case Value(v, w) =>
        ReturnLeads(x, ready, source, s1.nextBlock, st');
        Then(x, Here(s), st, Here(s1), st', Ends(Returned(v, w)));
      case _ =>
    }
  }

  lemma NewBlockCompletes(g: Graph, s: Generator)
    ensures Completes(g, NewBlock(s).0) == Completes(g, s)
  {
  }

  // ----- scopes -----

  lemma {:induction false} StatementsRun(x: Setting, s: Generator, statements: seq<Ir.Statement>, inLoop: bool,
                                         fixed: set<string>, frames: seq<Ir.Frame>, st: State, n: nat)
    returns (st': State)
    requires Agrees(x, s.symbols, frames, st) && Wf(s) && Completes(x.g, GenerateStatements(s, statements))
    requires s.symbols != [] && ScopedStatements(s.symbols, statements, inLoop, fixed)
    ensures Follows(x, Here(s), st, Ir.ExecAll(x.src, statements, frames, st.world, n), s.symbols,
                    ExitsOf(s, GenerateStatements(s, statements)), n, st')
    decreases n, statements, 1
  {
    hide Leads, Completes, Shaped, Stored, SameWorldView, Ranged, ArraysRanged, GenerateStatement, Grows, Untouched,
      Ir.Exec, Wf, ScopedStatement;
    st' := st;
    if statements == [] {
      CompletesMeansClosed(x, s);
      Stay(x, Here(s), st);
    } else {
      var s1 := GenerateStatement(s, statements[0]);
      StatementAdvances(s, statements[0]);
      StatementsAdvance(s1, statements[1..]);
      CompletesEarlier(x.g, s1, GenerateStatements(s, statements));
      st' := StatementRuns(x, s, statements[0], inLoop, fixed, frames, st, n);
      var r := Ir.Exec(x.src, statements[0], frames, st.world, n);
      if r.Normal? {
        var st1 := st';
        st' := StatementsRun(x, s1, statements[1..], inLoop, fixed, r.frames, st1, n);
        FollowsAfter(x, Here(s), st, Here(s1), st1, Ir.ExecAll(x.src, statements[1..], r.frames, r.world, n), s.symbols,
                     ExitsOf(s, GenerateStatements(s, statements)), n, st');
      }
    }
  }

  lemma {:induction false} BlockRuns(x: Setting, s: Generator, b: Ir.Block, inLoop: bool, fixed: set<string>,
                                     frames: seq<Ir.Frame>, st: State, n: nat) returns (st': State)
    requires Agrees(x, s.symbols, frames, st) && Wf(s) && Completes(x.g, GenerateBlock(s, b))
    requires ScopedBlock(s.symbols, b, inLoop, fixed)
    ensures Follows(x, Here(s), st, Ir.ExecBlock(x.src, b, frames, st.world, n), s.symbols,
      ExitsOf(s, GenerateBlock(s, b)), n, st')
    decreases n, b, 1
  {
    hide Leads, Completes, Shaped, Stored, SameWorldView, Ranged, ArraysRanged, GenerateStatements, GenerateFields,
      Grows, Untouched, Ir.ExecAll, Wf, ScopedStatements, ValidIdentifier, Ir.WellDeclared;
    var s1 := s.(symbols := s.symbols + [map[]]);
    var s2 := GenerateFields(s1, b.fields);
    var s3 := GenerateStatements(s2, b.statements);
    AdvancesReflexive(s);
    ScopeChangeAdvances(s, s, s1);
    FieldsAdvance(s1, b.fields);
    StatementsAdvance(s2, b.statements);
    SymbolsDoNotMatter(x.g, s3, s.symbols);
    CompletesEarlier(x.g, s2, s3);
    ShapedLength(x.src, s.symbols, frames);
    EmptyScope(x.src, s.symbols, frames, st.locals);
    EmptyScopeRanged(x.ctx, s.symbols);
    SymbolsDoNotMatter(x.g, s1, s.symbols);
    st' := FieldsRun(x, s1, b.fields, frames, map[], st);
    var st2 := st';
    var inner := frames + [Ir.OpenScope(map[], b.fields)];
    st' := StatementsRun(x, s2, b.statements, inLoop, fixed, inner, st2, n);
    var r := Ir.ExecAll(x.src, b.statements, inner, st.world, n);
    FollowsAfter(x, Here(s), st, Here(s2), st2, r, s2.symbols, ExitsOf(s2, s3), n, st');
    LeaveScope(x, Here(s), st, r, s.symbols, b.fields, ExitsOf(s2, s3), n, st');
  }

  lemma SymbolsDoNotMatter(g: Graph, s: Generator, symbols: SymbolTables)
    ensures Completes(g, s.(symbols := symbols)) == Completes(g, s)
  {
  }

  lemma EmptyScope(src: Ir.Context, symbols: SymbolTables, frames: seq<Ir.Frame>, locals: Store)
    requires Shaped(src, symbols, frames) && Stored(frames, locals)
    ensures Shaped(src, symbols + [map[]], frames + [map[]]) && Stored(frames + [map[]], locals)
  {
    hide ShapedVariable, StoredVariable;
    var symbols', frames' := symbols + [map[]], frames + [map[]];
    forall k | 0 <= k < |frames'| ensures ShapedFrame(symbols'[k + 1], k + 1, frames'[k])
      && StoredFrame(k + 1, frames'[k], locals) {
      if k < |frames| {
        assert ShapedFrame(symbols[k + 1], k + 1, frames[k]);
        assert StoredFrame(k + 1, frames[k], locals);
      }
    }
  }

  lemma EmptyScopeRanged(ctx: Context, symbols: SymbolTables)
    requires Ranged(ctx, symbols)
    ensures Ranged(ctx, symbols + [map[]])
  {
  }

  /** Forgetting the innermost scope. */
  lemma InnerScopeGone(x: Setting, symbols: SymbolTables, fields: seq<Ir.Field>, frames: seq<Ir.Frame>, st: State,
                       w: World)
    requires Settled(x, DeclareAll(symbols + [map[]], fields), frames, st, w) && symbols != []
    ensures frames != [] && Settled(x, symbols, frames[..|frames| - 1], st, w)
  {
    hide ShapedVariable, ShapedGlobals, StoredVariable, SameWorldView, ArraysRanged, FieldRanged;
    var symbols' := DeclareAll(symbols + [map[]], fields);
    DeclareAllKeepsOuter(symbols + [map[]], fields);
    assert |symbols'| == |symbols| + 1 == |frames| + 1;
    forall k | 0 <= k < |frames| - 1 ensures ShapedFrame(symbols[k + 1], k + 1, frames[k])
      && StoredFrame(k + 1, frames[k], st.locals) {
      assert ShapedFrame(symbols'[k + 1], k + 1, frames[k]);
    }
    forall k | 0 <= k < |symbols| ensures symbols'[k] == symbols[k] {
      assert symbols'[..|symbols|][k] == (symbols + [map[]])[..|symbols|][k];
    }
  }

  lemma {:induction false} DeclareAllKeepsOuter(symbols: SymbolTables, fields: seq<Ir.Field>)
    requires symbols != []
    ensures DeclareAll(symbols, fields)[..|symbols| - 1] == symbols[..|symbols| - 1]
  {
    hide MakeField;
    if fields != [] { DeclareAllKeepsOuter(symbols, fields[..|fields| - 1]); }
  }

  lemma LeaveScope(x: Setting, p: Position, st: State, r: Ir.Status, symbols: SymbolTables, fields: seq<Ir.Field>,
                   exits: Exits, n: nat, st': State)
    requires Follows(x, p, st, r, DeclareAll(symbols + [map[]], fields), exits, n, st') && symbols != []
    ensures Follows(x, p, st, Ir.CloseScope(r), symbols, exits, n, st')
  {
    hide Leads, Settled, DeclareAll;
    match r
    case Normal(frames, w) => InnerScopeGone(x, symbols, fields, frames, st', w);
    case Broke(frames, w) => InnerScopeGone(x, symbols, fields, frames, st', w);
    case Continued(frames, w) => InnerScopeGone(x, symbols, fields, frames, st', w);
    case _ =>
  }

  // ----- branches -----

  /** Falling off the end of a block that jumps on. */
  lemma FollowsJump(x: Setting, p: Position, st: State, r: Ir.Status, symbols: SymbolTables, exits: Exits, n: nat,
                    st': State, s: Generator, target: BlockId, b: BlockId)
    requires Follows(x, p, st, r, symbols, exits, n, st') && exits.next == Here(s)
    requires Completes(x.g, Finish(s, Jump(target), b)) && s.current !in s.finished
    ensures Follows(x, p, st, r, symbols, exits.(next := Position(target, 0)), n, st')
  {
    hide Leads, Settled, Completes;
    if r.Normal? {
      JumpLeads(x, s, target, b, st');
      Then(x, p, st, Here(s), st', Arrives(Position(target, 0), st'));
    }
  }

  lemma {:induction false} IfRuns(x: Setting, s: Generator, stmt: Ir.Statement, inLoop: bool, fixed: set<string>,
                                  frames: seq<Ir.Frame>, st: State, n: nat) returns (st': State)
    requires stmt.If?
    requires Agrees(x, s.symbols, frames, st) && Wf(s) && Completes(x.g, GenerateIf(s, stmt))
    requires s.symbols != [] && ScopedStatement(s.symbols, stmt, inLoop, fixed)
    ensures Follows(x, Here(s), st, Ir.Exec(x.src, stmt, frames, st.world, n), s.symbols,
      ExitsOf(s, GenerateIf(s, stmt)), n, st')
    decreases n, stmt, 0
  {
    hide Leads, Completes, Shaped, Stored, SameWorldView, Ranged, ArraysRanged, GenerateExpression, GenerateBlock,
      Grows, Untouched, Ir.Eval, Ir.ExecBlock, ScopedBlock, TemporariesKept, OperandBelow;
    ExpressionAdvances(s, stmt.condition);
    var (s1, value) := GenerateExpression(s, stmt.condition);
    var s2, trueBlock, falseBlock := BranchAdvances(s, s1, IfEqual, false, value, Literal(0));
    var ready := NewBlock(NewBlock(s1).0).0;
    var t := SkipIfZero(value, trueBlock, falseBlock);
    assert s2 == Finish(ready, t, trueBlock);
    IfCompletes(x.g, s, s2, falseBlock, stmt);
    BranchLeads(x, ready, t, trueBlock, st);
    NewBlockCompletes(x.g, s1);
    NewBlockCompletes(x.g, NewBlock(s1).0);
    assert Here(ready) == Here(s1) && Here(s2) == Position(trueBlock, 0);
    st' := ExpressionRuns(x, s, stmt.condition, frames, st);
    var r := Ir.Eval(x.src, stmt.condition, frames, st.world);
    if r.Value? && Ir.IsBool(r.word) {
      var st1 := st';
      BranchLeads(x, ready, t, trueBlock, st1);
      Then(x, Here(s), st, Here(s1), st1, Arrives(Position(Chosen(x.ctx, t, st1), 0), st1));
      st' := ArmsRun(x, s, s2, falseBlock, stmt, r.word == 1, inLoop, fixed, frames, st1, n);
      FollowsAfter(x, Here(s), st, Position(Chosen(x.ctx, t, st1), 0), st1,
        ArmsResult(x.src, stmt, r.word == 1, frames, st1.world, n),
                   s.symbols, ExitsOf(s, GenerateIf(s, stmt)), n, st');
    }
  }

  function ArmsResult(src: Ir.Context, stmt: Ir.Statement, holds: bool, frames: seq<Ir.Frame>, w: World, n: nat)
    : Ir.Status
    requires stmt.If?
  {
    if holds then Ir.ExecBlock(src, stmt.ifBlock, frames, w, n)
    else if stmt.elseBlock.Some? then Ir.ExecBlock(src, stmt.elseBlock.value, frames, w, n)
    else Ir.Normal(frames, w)
  }

  /** The generator after both arms, from where the first one starts. */
  function Arms(s: Generator, falseBlock: BlockId, stmt: Ir.Statement): Generator
    requires stmt.If?
  {
    var s1 := GenerateBlock(s, stmt.ifBlock);
    match stmt.elseBlock
    case None => Finish(s1, Jump(falseBlock), falseBlock)
    case Some(other) =>
      var s2 := Finish(NewBlock(s1).0, Jump(s1.nextBlock), falseBlock);
      Finish(GenerateBlock(s2, other), Jump(s1.nextBlock), s1.nextBlock)
  }

  lemma IfCompletes(g: Graph, s0: Generator, s: Generator, falseBlock: BlockId, stmt: Ir.Statement)
    requires stmt.If? && Advances(s0, s) && Pending(s, falseBlock) && falseBlock >= s0.nextBlock
      && Completes(g, Arms(s, falseBlock, stmt))
    ensures Completes(g, s)
    ensures Wf(GenerateBlock(s, stmt.ifBlock))
    ensures stmt.elseBlock.Some? ==>
      var s1 := GenerateBlock(s, stmt.ifBlock);
      var s2 := Finish(NewBlock(s1).0, Jump(s1.nextBlock), falseBlock);
      && Wf(s2) && SameScope(s, s2) && Wf(GenerateBlock(s2, stmt.elseBlock.value))
      && Completes(g, s2) && Completes(g, GenerateBlock(s2, stmt.elseBlock.value))
    ensures Completes(g, GenerateBlock(s, stmt.ifBlock))
  {
    hide GenerateBlock, Completes, Grows;
    BlockAdvances(s, stmt.ifBlock);
    var s1 := GenerateBlock(s, stmt.ifBlock);
    AdvancesTransitive(s0, s, s1);
    match stmt.elseBlock
    case None =>
      FinishAdvances(s0, s1, Jump(falseBlock), falseBlock);
      CompletesEarlier(g, s1, Finish(s1, Jump(falseBlock), falseBlock));
      CompletesEarlier(g, s, s1);
    case Some(other) =>
      NewBlockAdvances(s0, s1);
      var end := s1.nextBlock;
      var s2 := Finish(NewBlock(s1).0, Jump(end), falseBlock);
      FinishAdvances(s0, NewBlock(s1).0, Jump(end), falseBlock);
      BlockAdvances(s2, other);
      var s3 := GenerateBlock(s2, other);
      AdvancesTransitive(s0, s2, s3);
      FinishAdvances(s0, s3, Jump(end), end);
      CompletesEarlier(g, s3, Finish(s3, Jump(end), end));
      CompletesEarlier(g, s2, s3);
      CompletesEarlier(g, NewBlock(s1).0, s2);
      CompletesEarlier(g, s1, NewBlock(s1).0);
      CompletesEarlier(g, s, s1);
  }

  lemma {:induction false} ArmsRun(x: Setting, s0: Generator, s: Generator, falseBlock: BlockId, stmt: Ir.Statement,
                                   holds: bool, inLoop: bool, fixed: set<string>, frames: seq<Ir.Frame>, st: State,
                                   n: nat) returns (st': State)
    requires stmt.If? && SameScope(s0, s)
    requires Advances(s0, s) && Pending(s, falseBlock) && falseBlock >= s0.nextBlock
      && Completes(x.g, Arms(s, falseBlock, stmt))
    requires Agrees(x, s.symbols, frames, st) && s.symbols != [] && s.code == []
    requires ScopedBlock(s.symbols, stmt.ifBlock, inLoop, fixed)
    requires stmt.elseBlock.Some? ==> ScopedBlock(s.symbols, stmt.elseBlock.value, inLoop, fixed)
    ensures Follows(x, Position(if holds then s.current else falseBlock, 0), st,
      ArmsResult(x.src, stmt, holds, frames, st.world, n), s.symbols,
                    ExitsOf(s, Arms(s, falseBlock, stmt)), n, st')
    decreases n, stmt, 0, 0
  {
    hide Leads, Completes, Shaped, Stored, SameWorldView, Ranged, ArraysRanged, GenerateBlock, Grows, Untouched,
      Ir.ExecBlock, ScopedBlock;
    IfCompletes(x.g, s0, s, falseBlock, stmt);
    var s1 := GenerateBlock(s, stmt.ifBlock);
    st' := st;
    if holds {
      st' := BlockRuns(x, s, stmt.ifBlock, inLoop, fixed, frames, st, n);
      var r := Ir.ExecBlock(x.src, stmt.ifBlock, frames, st.world, n);
      match stmt.elseBlock
      case None => FollowsJump(x, Here(s), st, r, s.symbols, ExitsOf(s, s1), n, st', s1, falseBlock, falseBlock);
      case Some(_) => FollowsJump(x, Here(s), st, r, s.symbols, ExitsOf(s, NewBlock(s1).0), n, st', NewBlock(s1).0,
        s1.nextBlock, falseBlock);
    } else {
      match stmt.elseBlock
      case None =>
        CompletesMeansClosed(x, Arms(s, falseBlock, stmt));
        Stay(x, Position(falseBlock, 0), st);
      case Some(other) =>
        var s2 := Finish(NewBlock(s1).0, Jump(s1.nextBlock), falseBlock);
        st' := BlockRuns(x, s2, other, inLoop, fixed, frames, st, n);
        FollowsJump(x, Here(s2), st, Ir.ExecBlock(x.src, other, frames, st.world, n), s.symbols,
          ExitsOf(s2, GenerateBlock(s2, other)), n, st',
                    GenerateBlock(s2, other), s1.nextBlock, s1.nextBlock);
    }
  }

  // ----- loops -----

  /** The code of a loop, from its condition to the end of its last block, is all there. */
  ghost predicate LoopCode(x: Setting, o: Generator, condition: Ir.Expression, update: Option<Ir.ForUpdate>,
                           body: Ir.Block, loopBlock: BlockId, endBlock: BlockId, next: BlockId) {
    var (s1, value) := GenerateExpression(o, condition);
    var s2 := Finish(s1, SkipIfZero(value, loopBlock, endBlock), loopBlock);
    var s3 := GenerateBlock(s2, body);
    && o.symbols != [] && o.code == []
    && Wf(o) && Wf(s1) && Wf(s2) && Wf(s3) && SameScope(o, s2)
    && Completes(x.g, s1) && Completes(x.g, s2) && Completes(x.g, s3)
    && Top(o.breaks) == endBlock && Top(o.continues) == next
    && match update
       case None => next == o.current && Completes(x.g, Finish(s3, Jump(o.current), endBlock))
       case Some(u) =>
         var s4 := Finish(s3, Jump(next), next);
         var s5 := GenerateUpdate(s4, u);
         && Wf(s4) && Wf(s5) && SameScope(o, s4)
         && Completes(x.g, s4) && Completes(x.g, s5) && Completes(x.g, Finish(s5, Jump(o.current), endBlock))
  }

  lemma LoopCodeHead(x: Setting, o: Generator, condition: Ir.Expression, update: Option<Ir.ForUpdate>, body: Ir.Block,
                     loopBlock: BlockId, endBlock: BlockId, next: BlockId)
    requires LoopCode(x, o, condition, update, body, loopBlock, endBlock, next)
    ensures var (s1, value) := GenerateExpression(o, condition);
            && Wf(o) && s1.current !in s1.finished && Completes(x.g, s1)
            && Completes(x.g, Finish(s1, SkipIfZero(value, loopBlock, endBlock), loopBlock))
  {
    hide GenerateExpression, Completes, GenerateBlock;
  }

  /** One evaluation of the condition, and whatever follows from it. */
  lemma {:induction false} LoopRuns(x: Setting, o: Generator, condition: Ir.Expression, update: Option<Ir.ForUpdate>,
                                    body: Ir.Block, fixed: set<string>, loopBlock: BlockId, endBlock: BlockId,
                                    next: BlockId, exits: Exits, frames: seq<Ir.Frame>, st: State, n: nat)
    returns (st': State)
    requires LoopCode(x, o, condition, update, body, loopBlock, endBlock, next)
    requires Agrees(x, o.symbols, frames, st) && ScopedBlock(o.symbols, body, true, fixed) && exits.next
      == Position(endBlock, 0)
    ensures Follows(x, Here(o), st, Ir.Loop(x.src, condition, update, body, frames, st.world, n), o.symbols, exits, n,
      st')
    decreases n, body, 4
  {
    hide Leads, Completes, Shaped, Stored, SameWorldView, Ranged, ArraysRanged, GenerateExpression, GenerateBlock,
      GenerateUpdate, Ir.Eval, Ir.ExecBlock, Ir.NextRound, ScopedBlock, TemporariesKept, OperandBelow;
    LoopCodeHead(x, o, condition, update, body, loopBlock, endBlock, next);
    hide LoopCode, Wf;
    var (s1, value) := GenerateExpression(o, condition);
    st' := ExpressionRuns(x, o, condition, frames, st);
    var r := Ir.Eval(x.src, condition, frames, st.world);
    if r.Value? && Ir.IsBool(r.word) {
      var st1 := st';
      st' := ChoiceRuns(x, o, condition, update, body, fixed, loopBlock, endBlock, next, exits, frames, st1, r.word, n);
      FollowsAfter(x, Here(o), st, Here(s1), st1, ChoiceResult(x.src, condition, update, body, frames, r.world, r.word,
        n), o.symbols, exits, n, st');
    }
  }

  /** What a loop does once its condition has its value. */
  function ChoiceResult(src: Ir.Context, condition: Ir.Expression, update: Option<Ir.ForUpdate>, body: Ir.Block,
                        frames: seq<Ir.Frame>, world: World, v: Word, n: nat): Ir.Status
  {
    if v == 0 then Ir.Normal(frames, world) else if n == 0 then Ir.OutOfFuel
      else RoundResult(src, condition, update, body, frames, world, n)
  }

  lemma {:induction false} ChoiceRuns(x: Setting, o: Generator, condition: Ir.Expression,
                                      update: Option<Ir.ForUpdate>, body: Ir.Block, fixed: set<string>,
                                      loopBlock: BlockId, endBlock: BlockId, next: BlockId, exits: Exits,
                                      frames: seq<Ir.Frame>, st: State, v: Word, n: nat) returns (st': State)
    requires LoopCode(x, o, condition, update, body, loopBlock, endBlock, next)
    requires Agrees(x, o.symbols, frames, st) && ScopedBlock(o.symbols, body, true, fixed) && exits.next
      == Position(endBlock, 0)
    requires Ir.IsBool(v) && Eval(x.ctx, st, GenerateExpression(o, condition).1) == v
    ensures Follows(x, Here(GenerateExpression(o, condition).0), st,
      ChoiceResult(x.src, condition, update, body, frames, st.world, v, n),
                    o.symbols, exits, n, st')
    decreases n, body, 3, 1
  {
    hide Leads, Completes, Shaped, Stored, SameWorldView, Ranged, ArraysRanged, GenerateExpression, GenerateBlock,
      GenerateUpdate, Ir.ExecBlock, Ir.NextRound, ScopedBlock, TemporariesKept, OperandBelow, RoundResult;
    LoopCodeHead(x, o, condition, update, body, loopBlock, endBlock, next);
    hide LoopCode, Wf;
    var (s1, value) := GenerateExpression(o, condition);
    var t := SkipIfZero(value, loopBlock, endBlock);
    st' := st;
    BranchLeads(x, s1, t, loopBlock, st);
    if v != 0 && n > 0 {
      st' := RoundRuns(x, o, condition, update, body, fixed, loopBlock, endBlock, next, exits, frames, st, n);
      var result := RoundResult(x.src, condition, update, body, frames, st.world, n);
      if result.OutOfFuel? {
        BranchSpins(x, s1, t, loopBlock, st, n - 1);
      } else {
        SpinsIrrelevant(x, Position(loopBlock, 0), st, result, o.symbols, exits, n - 1, n, st');
        FollowsAfter(x, Here(s1), st, Position(loopBlock, 0), st, result, o.symbols, exits, n, st');
      }
    }
  }

  lemma SpinsIrrelevant(x: Setting, p: Position, st: State, r: Ir.Status, symbols: SymbolTables, exits: Exits,
                        n: nat, m: nat, st': State)
    requires Follows(x, p, st, r, symbols, exits, n, st') && !r.OutOfFuel?
    ensures Follows(x, p, st, r, symbols, exits, m, st')
  {
  }

  /** What a loop does once its condition has held. */
  function RoundResult(src: Ir.Context, condition: Ir.Expression, update: Option<Ir.ForUpdate>, body: Ir.Block,
                       frames: seq<Ir.Frame>, world: World, n: nat): Ir.Status
    requires n > 0
  {
    match Ir.ExecBlock(src, body, frames, world, n - 1)
    case Broke(frames', w') => Ir.Normal(frames', w')
    case Normal(frames', w') => Ir.NextRound(src, condition, update, body, frames', w', n)
    case Continued(frames', w') => Ir.NextRound(src, condition, update, body, frames', w', n)
    case other => other
  }

  lemma {:induction false} RoundRuns(x: Setting, o: Generator, condition: Ir.Expression,
                                     update: Option<Ir.ForUpdate>, body: Ir.Block, fixed: set<string>,
                                     loopBlock: BlockId, endBlock: BlockId, next: BlockId, exits: Exits,
                                     frames: seq<Ir.Frame>, st: State, n: nat) returns (st': State)
    requires LoopCode(x, o, condition, update, body, loopBlock, endBlock, next) && n > 0
    requires Agrees(x, o.symbols, frames, st) && ScopedBlock(o.symbols, body, true, fixed) && exits.next
      == Position(endBlock, 0)
    ensures Follows(x, Position(loopBlock, 0), st, RoundResult(x.src, condition, update, body, frames, st.world, n),
      o.symbols, exits, n - 1, st')
    decreases n, body, 3, 0
  {
    hide Leads, Completes, Shaped, Stored, SameWorldView, Ranged, ArraysRanged, GenerateExpression, GenerateBlock,
      GenerateUpdate, Ir.ExecBlock, Ir.NextRound, ScopedBlock;
    var (s1, value) := GenerateExpression(o, condition);
    var s2 := Finish(s1, SkipIfZero(value, loopBlock, endBlock), loopBlock);
    var s3 := GenerateBlock(s2, body);
    st' := BlockRuns(x, s2, body, true, fixed, frames, st, n - 1);
    var r := Ir.ExecBlock(x.src, body, frames, st.world, n - 1);
    if r.Normal? || r.Continued? {
      var st1 := st';
      FollowsJump(x, Here(s2), st, r, o.symbols, ExitsOf(s2, s3), n - 1, st1, s3, next, if update.None? then endBlock
        else next);
      st' := NextRuns(x, o, condition, update, body, fixed, loopBlock, endBlock, next, exits, r.frames, st1, n);
      FollowsAfter(x, Here(s2), st, Position(next, 0), st1,
        Ir.NextRound(x.src, condition, update, body, r.frames, r.world, n), o.symbols,
                   exits, n - 1, st');
    }
  }

  lemma {:induction false} NextRuns(x: Setting, o: Generator, condition: Ir.Expression, update: Option<Ir.ForUpdate>,
                                    body: Ir.Block, fixed: set<string>, loopBlock: BlockId, endBlock: BlockId,
                                    next: BlockId, exits: Exits, frames: seq<Ir.Frame>, st: State, n: nat)
    returns (st': State)
    requires LoopCode(x, o, condition, update, body, loopBlock, endBlock, next) && n > 0
    requires Agrees(x, o.symbols, frames, st) && ScopedBlock(o.symbols, body, true, fixed) && exits.next
      == Position(endBlock, 0)
    ensures Follows(x, Position(next, 0), st, Ir.NextRound(x.src, condition, update, body, frames, st.world, n),
      o.symbols, exits, n - 1, st')
    decreases n, body, 2
  {
    hide Leads, Completes, Shaped, Stored, SameWorldView, Ranged, ArraysRanged, GenerateExpression, GenerateBlock,
      GenerateUpdate, Ir.Loop, Ir.ExecUpdate, ScopedBlock;
    match update
    case None => st' := LoopRuns(x, o, condition, update, body, fixed, loopBlock, endBlock, next, exits, frames, st,
      n - 1);
    case Some(u) =>
      var (s1, value) := GenerateExpression(o, condition);
      var s3 := GenerateBlock(Finish(s1, SkipIfZero(value, loopBlock, endBlock), loopBlock), body);
      var s4 := Finish(s3, Jump(next), next);
      var s5 := GenerateUpdate(s4, u);
      st' := UpdateRuns(x, s4, u, frames, st);
      var r := Ir.ExecUpdate(x.src, u, frames, st.world);
      if r.Normal? {
        var st1 := st';
        JumpLeads(x, s5, o.current, endBlock, st1);
        Then(x, Here(s4), st, Here(s5), st1, Arrives(Here(o), st1));
        st' := LoopRuns(x, o, condition, update, body, fixed, loopBlock, endBlock, next, exits, r.frames, st1, n - 1);
        FollowsAfter(x, Here(s4), st, Here(o), st1, Ir.Loop(x.src, condition, update, body, r.frames, r.world, n - 1),
          o.symbols,
                     exits, n - 1, st');
      }
  }

  lemma {:induction false} WhileRuns(x: Setting, s: Generator, stmt: Ir.Statement, inLoop: bool, fixed: set<string>,
                                     frames: seq<Ir.Frame>, st: State, n: nat) returns (st': State)
    requires stmt.While?
    requires Agrees(x, s.symbols, frames, st) && Wf(s) && Completes(x.g, GenerateWhile(s, stmt))
    requires s.symbols != [] && ScopedStatement(s.symbols, stmt, inLoop, fixed)
    ensures Follows(x, Here(s), st, Ir.Exec(x.src, stmt, frames, st.world, n), s.symbols,
      ExitsOf(s, GenerateWhile(s, stmt)), n, st')
    decreases n, stmt, 0
  {
    hide Leads, Completes, Shaped, Stored, SameWorldView, Ranged, ArraysRanged, GenerateExpression, GenerateBlock,
      Ir.Loop, ScopedBlock, LoopCode, ScopedExpression;
    var b := s.nextBlock;
    WhileCompletes(x, s, stmt);
    JumpLeads(x, PushLoop(s.(nextBlock := b + 3), b + 2, b), b, b, st);
    var exits := ExitsOf(s, GenerateWhile(s, stmt));
    st' := LoopRuns(x, OpenWhile(s), stmt.condition, None, stmt.body, fixed, b + 1, b + 2, b, exits, frames, st, n);
    FollowsAfter(x, Here(s), st, Position(b, 0), st, Ir.Loop(x.src, stmt.condition, None, stmt.body, frames, st.world,
      n), s.symbols,
                 exits, n, st');
  }

  /** The states of a `while`, each growing into the next. */
  ghost predicate WhileChain(s: Generator, stmt: Ir.Statement)
    requires stmt.While?
  {
    var b, o := s.nextBlock, OpenWhile(s);
    var (s1, value) := GenerateExpression(o, stmt.condition);
    var s2 := Finish(s1, SkipIfZero(value, b + 1, b + 2), b + 1);
    var s3 := GenerateBlock(s2, stmt.body);
    && Grows(s, o) && Grows(o, s1) && Grows(s1, s2) && Grows(s2, s3) && Grows(s3, Finish(s3, Jump(b), b + 2))
    && Wf(o) && Wf(s1) && Wf(s2) && Wf(s3) && SameScope(o, s2)
  }

  lemma {:induction false} WhileGrows(s: Generator, stmt: Ir.Statement)
    requires stmt.While? && Wf(s)
    ensures WhileChain(s, stmt)
  {
    hide GenerateExpression, GenerateBlock, Grows, Wf, Untouched;
    var b, o := s.nextBlock, OpenWhile(s);
    AdvancesReflexive(s);
    OpenWhileAdvances(s, s);
    RoundAdvances(s, o, stmt.condition, stmt.body, b + 1, b + 2, b + 2);
    ExpressionAdvances(o, stmt.condition);
    var (s1, value) := GenerateExpression(o, stmt.condition);
    var s3 := GenerateBlock(Finish(s1, SkipIfZero(value, b + 1, b + 2), b + 1), stmt.body);
    FinishAdvances(s, s3, Jump(b), b + 2);
  }

  lemma {:induction false} WhileCompletes(x: Setting, s: Generator, stmt: Ir.Statement)
    requires stmt.While? && Wf(s) && s.symbols != [] && Completes(x.g, GenerateWhile(s, stmt))
    ensures LoopCode(x, OpenWhile(s), stmt.condition, None, stmt.body, s.nextBlock + 1, s.nextBlock + 2, s.nextBlock)
    ensures Completes(x.g, OpenWhile(s)) && Completes(x.g, s)
  {
    hide Completes, GenerateExpression, GenerateBlock, Grows, Wf, Untouched;
    var b, o := s.nextBlock, OpenWhile(s);
    WhileGrows(s, stmt);
    var (s1, value) := GenerateExpression(o, stmt.condition);
    var s2 := Finish(s1, SkipIfZero(value, b + 1, b + 2), b + 1);
    var s3 := GenerateBlock(s2, stmt.body);
    var s4 := Finish(s3, Jump(b), b + 2);
    LoopsDoNotMatter(x.g, s4);
    CompletesEarlier(x.g, s3, s4);
    CompletesEarlier(x.g, s2, s3);
    CompletesEarlier(x.g, s1, s2);
    CompletesEarlier(x.g, o, s1);
    CompletesEarlier(x.g, s, o);
  }

  lemma LoopsDoNotMatter(g: Graph, s: Generator)
    ensures Completes(g, PopLoop(s)) == Completes(g, s)
  {
  }

  lemma {:induction false} ForRuns(x: Setting, s: Generator, stmt: Ir.Statement, inLoop: bool, fixed: set<string>,
                                   frames: seq<Ir.Frame>, st: State, n: nat) returns (st': State)
    requires stmt.For?
    requires Agrees(x, s.symbols, frames, st) && Wf(s) && Completes(x.g, GenerateFor(s, stmt))
    requires s.symbols != [] && ScopedStatement(s.symbols, stmt, inLoop, fixed)
    ensures Follows(x, Here(s), st, Ir.Exec(x.src, stmt, frames, st.world, n), s.symbols,
      ExitsOf(s, GenerateFor(s, stmt)), n, st')
    decreases n, stmt, 0
  {
    hide Leads, Completes, Shaped, Stored, SameWorldView, Ranged, ArraysRanged, GenerateExpression, GenerateBlock,
      GenerateAssignment, GenerateUpdate, Ir.Loop, ScopedBlock, LoopCode, Ir.ExecAssignment, ScopedExpression,
      ScopedAssignment, ScopedUpdate;
    AssignmentAdvances(s, stmt.initial);
    var s1 := GenerateAssignment(s, stmt.initial);
    var b := s1.nextBlock;
    ForCompletes(x, s, stmt);
    var exits := ExitsOf(s, GenerateFor(s, stmt));
    st' := AssignmentRuns(x, s, stmt.initial, frames, st);
    var r := Ir.ExecAssignment(x.src, stmt.initial, frames, st.world);
    if r.Normal? {
      var st1 := st';
      JumpLeads(x, PushLoop(s1.(nextBlock := b + 4), b + 3, b + 2), b, b, st1);
      Then(x, Here(s), st, Here(s1), st1, Arrives(Position(b, 0), st1));
      st' := LoopRuns(x, OpenFor(s1), stmt.condition, Some(stmt.update), stmt.body, fixed, b + 1, b + 3, b + 2, exits,
        r.frames, st1, n);
      FollowsAfter(x, Here(s), st, Position(b, 0), st1,
                   Ir.Loop(x.src, stmt.condition, Some(stmt.update), stmt.body, r.frames, r.world, n), s.symbols, exits,
                     n, st');
    }
  }

  /** The states of a `for`, each growing into the next. */
  ghost predicate ForChain(s0: Generator, stmt: Ir.Statement)
    requires stmt.For?
  {
    var b, o := s0.nextBlock, OpenFor(s0);
    var (s1, value) := GenerateExpression(o, stmt.condition);
    var s2 := Finish(s1, SkipIfZero(value, b + 1, b + 3), b + 1);
    var s3 := GenerateBlock(s2, stmt.body);
    var s4 := Finish(s3, Jump(b + 2), b + 2);
    var s5 := GenerateUpdate(s4, stmt.update);
    var s6 := Finish(s5, Jump(b), b + 3);
    && Grows(s0, o) && Grows(o, s1) && Grows(s1, s2) && Grows(s2, s3) && Grows(s3, s4) && Grows(s4, s5) && Grows(s5, s6)
    && Wf(o) && Wf(s1) && Wf(s2) && Wf(s3) && Wf(s4) && Wf(s5) && SameScope(o, s2) && SameScope(o, s4)
  }

  lemma {:induction false} ForGrows(s0: Generator, stmt: Ir.Statement)
    requires stmt.For? && Wf(s0)
    ensures ForChain(s0, stmt)
  {
    hide GenerateExpression, GenerateBlock, GenerateUpdate, Grows, Wf, Untouched;
    var b, o := s0.nextBlock, OpenFor(s0);
    AdvancesReflexive(s0);
    OpenForAdvances(s0, s0);
    RoundAdvances(s0, o, stmt.condition, stmt.body, b + 1, b + 3, b + 2);
    ExpressionAdvances(o, stmt.condition);
    var (s1, value) := GenerateExpression(o, stmt.condition);
    var s3 := GenerateBlock(Finish(s1, SkipIfZero(value, b + 1, b + 3), b + 1), stmt.body);
    ForTailAdvances(s0, s3, stmt.update, b);
  }

  lemma {:induction false} ForCompletes(x: Setting, s: Generator, stmt: Ir.Statement)
    requires stmt.For? && Wf(s) && s.symbols != [] && Completes(x.g, GenerateFor(s, stmt))
    ensures var s1 := GenerateAssignment(s, stmt.initial);
            var b := s1.nextBlock;
            && LoopCode(x, OpenFor(s1), stmt.condition, Some(stmt.update), stmt.body, b + 1, b + 3, b + 2)
            && Completes(x.g, OpenFor(s1)) && Completes(x.g, s1)
  {
    hide Completes, GenerateExpression, GenerateBlock, GenerateAssignment, GenerateUpdate, Grows, Wf, Untouched;
    AssignmentAdvances(s, stmt.initial);
    var s0 := GenerateAssignment(s, stmt.initial);
    ForGrows(s0, stmt);
    var b, o := s0.nextBlock, OpenFor(s0);
    var (s1, value) := GenerateExpression(o, stmt.condition);
    var s2 := Finish(s1, SkipIfZero(value, b + 1, b + 3), b + 1);
    var s3 := GenerateBlock(s2, stmt.body);
    var s4 := Finish(s3, Jump(b + 2), b + 2);
    var s5 := GenerateUpdate(s4, stmt.update);
    var s6 := Finish(s5, Jump(b), b + 3);
    LoopsDoNotMatter(x.g, s6);
    CompletesEarlier(x.g, s5, s6);
    CompletesEarlier(x.g, s4, s5);
    CompletesEarlier(x.g, s3, s4);
    CompletesEarlier(x.g, s2, s3);
    CompletesEarlier(x.g, s1, s2);
    CompletesEarlier(x.g, o, s1);
    CompletesEarlier(x.g, s0, o);
  }
}
