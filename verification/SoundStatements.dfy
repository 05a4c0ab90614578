/** Statements, scopes, loops and methods are generated soundly; the finished graph is well formed,
    definitely assigned and declares every array it reads. */
module SoundStatements {
  import opened Words
  import opened Worlds
  import opened Llir
  import opened Names
  import opened Lowering
  import opened LoweringStructure
  import opened Rewriting
  import opened GeneratedGraphs
  import opened SoundGeneration
  import Ir

  /** Where `break` and `continue` lead, nothing is taken for written that is not. */
  ghost predicate TargetsOk(targets: seq<BlockId>, s: Generator, plan: Plan) {
    forall i :: 0 <= i < |targets| ==> targets[i] in plan && plan[targets[i]] <= Available(s, plan)
  }

  ghost predicate Placed(rules: Rules, s: Generator, plan: Plan, inLoop: bool) {
    && Prepared(rules, s, plan) && |s.symbols| >= 2
    && TargetsOk(s.breaks, s, plan) && TargetsOk(s.continues, s, plan)
    && (inLoop ==> s.breaks != [] && s.continues != [])
  }

  lemma TargetsLater(rules: Rules, targets: seq<BlockId>, s: Generator, plan: Plan, s': Generator, plan': Plan,
                     waiting: set<BlockId>)
    requires TargetsOk(targets, s, plan) && Extends(rules, s, plan, s', plan', waiting)
    ensures TargetsOk(targets, s', plan')
  {
    hide Sound, Wf, Untouched, Closing, Grows, Available;
  }

  lemma PlacedLater(rules: Rules, s: Generator, plan: Plan, s': Generator, plan': Plan, waiting: set<BlockId>,
                    inLoop: bool)
    requires Placed(rules, s, plan, inLoop) && Extends(rules, s, plan, s', plan', waiting) && SameScope(s, s')
    ensures Placed(rules, s', plan', inLoop)
  {
    hide Prepared, TargetsOk, Extends;
    PreparedLater(rules, s, plan, s', plan', waiting);
    TargetsLater(rules, s.breaks, s, plan, s', plan', waiting);
    TargetsLater(rules, s.continues, s, plan, s', plan', waiting);
  }

  lemma {:induction false} StatementSound(rules: Rules, s: Generator, plan: Plan, stmt: Ir.Statement, inLoop: bool)
    returns (plan': Plan)
    requires Placed(rules, s, plan, inLoop) && ScopedStatement(s.symbols, stmt, inLoop, rules.fixed)
    ensures Extends(rules, s, plan, GenerateStatement(s, stmt), plan', {})
    decreases stmt, 1
  {
    hide Extends, Sound, Visible, FixedParameters, GenerateAssignment, GenerateCall, GenerateIf, GenerateFor,
      GenerateWhile, GenerateExpression, Available, ScopedBlock;
    match stmt
    case Assign(a) => plan' := AssignmentSound(rules, s, plan, a);
    case CallStatement(call) => plan' := CallSound(rules, s, plan, call);
    case If(_, _, _) => plan' := IfSound(rules, s, plan, stmt, inLoop);
    case For(_, _, _, _) => plan' := ForSound(rules, s, plan, stmt, inLoop);
    case While(_, _) => plan' := WhileSound(rules, s, plan, stmt, inLoop);
    case Return(value) =>
      var (s1, source) := if value.None? then (s, Literal(0)) else GenerateExpression(s, value.value);
      plan' := plan;
      ExtendsReflexive(rules, s, plan);
      if value.Some? { plan' := ExpressionSound(rules, s, plan, value.value); }
      plan' := EndSound(rules, s, plan, s1, plan', Terminal.Return(source));
    case Break =>
      ExtendsReflexive(rules, s, plan);
      plan' := EndSound(rules, s, plan, s, plan, Jump(Top(s.breaks)));
    case Continue =>
      ExtendsReflexive(rules, s, plan);
      plan' := EndSound(rules, s, plan, s, plan, Jump(Top(s.continues)));
  }

  /** The block after a statement that ends its own: nothing leads there. */
  lemma EndSound(rules: Rules, s0: Generator, p0: Plan, s: Generator, plan: Plan, t: Terminal) returns (plan': Plan)
    requires Extends(rules, s0, p0, s, plan, {}) && !t.Branch? && TerminalOk(plan, t, Available(s, plan))
    ensures Extends(rules, s0, p0, GenerateEnd(s, t), plan', {})
  {
    hide Sound, Grows, Wf, Untouched, Closing, Available;
    NewBlockSound(rules, s0, p0, s, plan, Available(s, plan), {});
    var n := s.nextBlock;
    plan' := plan[n := Available(s, plan)];
    FinishSound(rules, s0, p0, NewBlock(s).0, plan', t, n, {} + {n});
    ClosingOnly(rules, s0, p0, GenerateEnd(s, t), plan', {} + {n} - {n}, {});
  }

  // ----- scopes -----

  lemma {:induction false} StatementsSound(rules: Rules, s: Generator, plan: Plan, statements: seq<Ir.Statement>,
                                           inLoop: bool) returns (plan': Plan)
    requires Placed(rules, s, plan, inLoop) && ScopedStatements(s.symbols, statements, inLoop, rules.fixed)
    ensures Extends(rules, s, plan, GenerateStatements(s, statements), plan', {})
    decreases statements, 1
  {
    hide Extends, Sound, Visible, FixedParameters, GenerateStatement, ScopedStatement, Wf, Grows, Untouched, TargetsOk;
    if statements == [] {
      plan' := plan;
      ExtendsReflexive(rules, s, plan);
    } else {
      var s1 := GenerateStatement(s, statements[0]);
      SoundIsWf(rules, s, plan);
      StatementAdvances(s, statements[0]);
      var p1 := StatementSound(rules, s, plan, statements[0], inLoop);
      PlacedLater(rules, s, plan, s1, p1, {}, inLoop);
      plan' := StatementsSound(rules, s1, p1, statements[1..], inLoop);
      ExtendsTransitive(rules, s, plan, s1, p1, GenerateStatements(s1, statements[1..]), plan', {});
    }
  }

  lemma SoundIsWf(rules: Rules, s: Generator, plan: Plan)
    requires Sound(rules, s, plan)
    ensures Wf(s)
  {
  }

  lemma {:induction false} BlockSound(rules: Rules, s: Generator, plan: Plan, b: Ir.Block, inLoop: bool)
    returns (plan': Plan)
    requires Placed(rules, s, plan, inLoop) && ScopedBlock(s.symbols, b, inLoop, rules.fixed)
    ensures Extends(rules, s, plan, GenerateBlock(s, b), plan', {})
    decreases b, 1
  {
    hide Extends, Sound, Visible, FixedParameters, GenerateStatements, GenerateFields, ScopedStatements, Wf, Grows,
      Untouched, TargetsOk, Available, DeclareAll;
    var s1 := s.(symbols := s.symbols + [map[]]);
    var s2 := GenerateFields(s1, b.fields);
    var s3 := GenerateStatements(s2, b.statements);
    SoundIsWf(rules, s, plan);
    ExtendsReflexive(rules, s, plan);
    AdvancesReflexive(s);
    ScopeChangeAdvances(s, s, s1);
    QuietStepSound(rules, s, plan, s, plan, s1, {});
    VisibleLater(rules, s.symbols, s, plan, s1, plan, {});
    EmptyTableVisible(rules, s.symbols, s1, plan);
    ExtendsToSound(rules, s, plan, s1, plan);
    InnerFieldsFree(rules.fixed, b.fields, |s1.symbols| - 1);
    assert ScopedFields(b.fields);
    FieldsSound(rules, s1, plan, b.fields);
    FieldsAdvance(s1, b.fields);
    TargetsLater(rules, s.breaks, s, plan, s1, plan, {});
    TargetsLater(rules, s.continues, s, plan, s1, plan, {});
    TargetsLater(rules, s.breaks, s1, plan, s2, plan, {});
    TargetsLater(rules, s.continues, s1, plan, s2, plan, {});
    ExtendsTransitive(rules, s, plan, s1, plan, s2, plan, {});
    plan' := StatementsSound(rules, s2, plan, b.statements, inLoop);
    ExtendsTransitive(rules, s, plan, s2, plan, s3, plan', {});
    CloseSound(rules, s, plan, s3, plan', s.symbols);
  }

  lemma CloseSound(rules: Rules, s0: Generator, p0: Plan, s: Generator, plan: Plan, symbols: SymbolTables)
    requires Extends(rules, s0, p0, s, plan, {})
    ensures Extends(rules, s0, p0, s.(symbols := symbols), plan, {})
  {
    hide Sound, Wf, Grows, Untouched, Available;
    ScopeChangeAdvances(s0, s, s.(symbols := symbols));
    QuietStepSound(rules, s0, p0, s, plan, s.(symbols := symbols), {});
  }

  lemma EmptyTableVisible(rules: Rules, symbols: SymbolTables, s: Generator, plan: Plan)
    requires Visible(rules, symbols, s, plan)
    ensures Visible(rules, symbols + [map[]], s, plan)
  {
    hide FieldVisible;
  }

  lemma InnerFieldsFree(fixed: set<string>, fields: seq<Ir.Field>, level: nat)
    requires FixedParameters(fixed) && ScopedFields(fields) && level != 1
    ensures NamesFree(fields, level, fixed)
  {
    hide FieldName, ValidIdentifier, FixedParameters;
    forall f | f in fields
      ensures FieldName(f.identifier, level) !in fixed { InnerNamesFree(fixed, f.identifier, level); }
  }

  // ----- branches and loops -----

  lemma {:induction false} IfSound(rules: Rules, s: Generator, plan: Plan, stmt: Ir.Statement, inLoop: bool)
    returns (plan': Plan)
    requires stmt.If? && Placed(rules, s, plan, inLoop) && ScopedStatement(s.symbols, stmt, inLoop, rules.fixed)
    ensures Extends(rules, s, plan, GenerateIf(s, stmt), plan', {})
    decreases stmt, 0
  {
    hide Sound, Visible, FixedParameters, GenerateExpression, GenerateBlock, ScopedBlock, Wf, Grows, Available,
      TargetsOk, Closing;
    SoundIsWf(rules, s, plan);
    ExpressionAdvances(s, stmt.condition);
    var (s1, value) := GenerateExpression(s, stmt.condition);
    var p1 := ExpressionSound(rules, s, plan, stmt.condition);
    var f := s1.nextBlock + 1;
    var names := Available(s1, p1);
    var p2 := BranchSound(rules, s, plan, s1, p1, IfEqual, false, value, Literal(0), {});
    var s2 := Branched(s1, IfEqual, false, value, Literal(0));
    var waiting := {f};
    assert {} + {f} == waiting;
    PlacedLater(rules, s, plan, s2, p2, waiting, inLoop);
    BlockAdvances(s2, stmt.ifBlock);
    var s3 := GenerateBlock(s2, stmt.ifBlock);
    var p3 := BlockSound(rules, s2, p2, stmt.ifBlock, inLoop);
    ExtendsTransitive(rules, s, plan, s2, p2, s3, p3, waiting);
    match stmt.elseBlock
    case None =>
      plan' := p3;
      FinishSound(rules, s, plan, s3, p3, Jump(f), f, waiting);
      ClosingOnly(rules, s, plan, Finish(s3, Jump(f), f), p3, waiting - {f}, {});
    case Some(other) =>
      plan' := ElseSound(rules, s, plan, s3, p3, f, names, other, inLoop);
  }

  lemma {:induction false} ElseSound(rules: Rules, s0: Generator, p0: Plan, s: Generator, plan: Plan, f: BlockId,
                                     names: set<string>, other: Ir.Block, inLoop: bool) returns (plan': Plan)
    requires Placed(rules, s0, p0, inLoop) && SameScope(s0, s) && ScopedBlock(s.symbols, other, inLoop, rules.fixed)
    requires Extends(rules, s0, p0, s, plan, {f}) && Pending(s, f) && f >= s0.nextBlock && f in plan && plan[f] == names
    requires Available(s0, p0) <= names <= Available(s, plan)
    ensures var s1 := Finish(NewBlock(s).0, Jump(s.nextBlock), f);
            Extends(rules, s0, p0, Finish(GenerateBlock(s1, other), Jump(s.nextBlock), s.nextBlock), plan', {})
    decreases other, 2
  {
    hide Sound, Visible, FixedParameters, GenerateBlock, ScopedBlock, Wf, Grows, Available, TargetsOk, Closing;
    var end := s.nextBlock;
    NewBlockSound(rules, s0, p0, s, plan, names, {f});
    var p1 := plan[end := names];
    var s1 := Finish(NewBlock(s).0, Jump(end), f);
    FinishSound(rules, s0, p0, NewBlock(s).0, p1, Jump(end), f, {f} + {end});
    ClosingOnly(rules, s0, p0, s1, p1, {f} + {end} - {f}, {end});
    PlacedLater(rules, s0, p0, s1, p1, {end}, inLoop);
    assert Pending(s1, end);
    BlockAdvances(s1, other);
    var s2 := GenerateBlock(s1, other);
    plan' := BlockSound(rules, s1, p1, other, inLoop);
    ExtendsTransitive(rules, s0, p0, s1, p1, s2, plan', {end});
    FinishSound(rules, s0, p0, s2, plan', Jump(end), end, {end});
    ClosingOnly(rules, s0, p0, Finish(s2, Jump(end), end), plan', {end} - {end}, {});
  }

  /** Inside a loop, `break` and `continue` have targets that were planned when the loop began. */
  lemma PlacedInLoop(rules: Rules, s0: Generator, p0: Plan, s: Generator, plan: Plan, e: BlockId, c: BlockId,
                     waiting: set<BlockId>, inLoop: bool)
    requires Placed(rules, s0, p0, inLoop) && Extends(rules, s0, p0, s, plan, waiting) && s.symbols == s0.symbols
    requires s.breaks == s0.breaks + [e] && s.continues == s0.continues + [c]
    requires e in plan && c in plan && plan[e] == plan[c] == Available(s0, p0)
    ensures Placed(rules, s, plan, true)
  {
    hide Prepared, Sound, Advances, SamePlan, Closing, Available;
    PreparedLater(rules, s0, p0, s, plan, waiting);
    TargetsLater(rules, s0.breaks, s0, p0, s, plan, waiting);
    TargetsLater(rules, s0.continues, s0, p0, s, plan, waiting);
  }

  lemma {:induction false} RoundSound(rules: Rules, s0: Generator, p0: Plan, o: Generator, plan: Plan,
                                      condition: Ir.Expression, body: Ir.Block, l: BlockId, e: BlockId, c: BlockId,
                                      waiting: set<BlockId>, inLoop: bool) returns (plan': Plan)
    requires Placed(rules, s0, p0, inLoop) && Extends(rules, s0, p0, o, plan, waiting)
    requires ScopedExpression(s0.symbols, condition) && ScopedBlock(s0.symbols, body, true, rules.fixed)
    requires o.symbols == s0.symbols && o.breaks == s0.breaks + [e] && o.continues == s0.continues + [c]
    requires Pending(o, l) && Pending(o, e) && l != e && l >= s0.nextBlock
    requires l in plan && e in plan && c in plan && plan[l] == plan[e] == plan[c] == Available(s0, p0)
    ensures var (s1, value) := GenerateExpression(o, condition);
            var s3 := GenerateBlock(Finish(s1, SkipIfZero(value, l, e), l), body);
            Extends(rules, s0, p0, s3, plan', waiting - {l}) && SamePlan(plan, plan')
    decreases body, 2, 0
  {
    hide Sound, Visible, FixedParameters, GenerateExpression, GenerateBlock, ScopedBlock, ScopedExpression, Wf,
      Grows, Available, TargetsOk, Closing;
    PreparedLater(rules, s0, p0, o, plan, waiting);
    SoundIsWf(rules, o, plan);
    ExpressionAdvances(o, condition);
    var (s1, value) := GenerateExpression(o, condition);
    var p1 := ExpressionSound(rules, o, plan, condition);
    ExtendsTransitive(rules, s0, p0, o, plan, s1, p1, waiting);
    var t := SkipIfZero(value, l, e);
    var s2 := Finish(s1, t, l);
    FinishSound(rules, s0, p0, s1, p1, t, l, waiting);
    PlacedInLoop(rules, s0, p0, s2, p1, e, c, waiting - {l}, inLoop);
    var s3 := GenerateBlock(s2, body);
    plan' := BlockSound(rules, s2, p1, body, true);
    ExtendsTransitive(rules, s0, p0, s2, p1, s3, plan', waiting - {l});
  }

  lemma OpenWhileSound(rules: Rules, s: Generator, plan: Plan) returns (plan': Plan)
    requires Sound(rules, s, plan)
    ensures var b, names := s.nextBlock, Available(s, plan);
      && plan' == plan[b := names][b + 1 := names][b + 2 := names]
      && Extends(rules, s, plan, OpenWhile(s), plan', {b + 1, b + 2})
  {
    hide Sound, Wf, Grows, Available, Closing;
    var b, names := s.nextBlock, Available(s, plan);
    ExtendsReflexive(rules, s, plan);
    NewBlockSound(rules, s, plan, s, plan, names, {});
    var s1, p1 := NewBlock(s).0, plan[b := names];
    NewBlockSound(rules, s, plan, s1, p1, names, {} + {b});
    var s2, p2 := NewBlock(s1).0, p1[b + 1 := names];
    NewBlockSound(rules, s, plan, s2, p2, names, {} + {b} + {b + 1});
    var s3, p3 := NewBlock(s2).0, p2[b + 2 := names];
    plan' := p3;
    OpenedSound(rules, s, plan, s3, plan', b, b + 2, b, {} + {b} + {b + 1} + {b + 2}, {b + 1, b + 2});
  }

  /** The loop stacks are pushed and the condition block entered. */
  lemma OpenedSound(rules: Rules, s0: Generator, p0: Plan, s: Generator, plan: Plan, b: BlockId, e: BlockId, c: BlockId,
                    waiting: set<BlockId>, waiting': set<BlockId>)
    requires Extends(rules, s0, p0, s, plan, waiting) && Pending(s, b) && b >= s0.nextBlock && b in plan
    requires plan[b] == Available(s0, p0) && waiting - {b} == waiting'
    ensures Extends(rules, s0, p0, Finish(PushLoop(s, e, c), Jump(b), b), plan, waiting')
  {
    hide Sound, Wf, Grows, Available, Closing;
    ScopeChangeAdvances(s0, s, PushLoop(s, e, c));
    QuietStepSound(rules, s0, p0, s, plan, PushLoop(s, e, c), waiting);
    FinishSound(rules, s0, p0, PushLoop(s, e, c), plan, Jump(b), b, waiting);
  }

  lemma OpenForSound(rules: Rules, s: Generator, plan: Plan) returns (plan': Plan)
    requires Sound(rules, s, plan)
    ensures var b, names := s.nextBlock, Available(s, plan);
      && plan' == plan[b := names][b + 1 := names][b + 2 := names][b + 3 := names]
      && Extends(rules, s, plan, OpenFor(s), plan', {b + 1, b + 2, b + 3})
  {
    hide Sound, Wf, Grows, Available, Closing;
    var b, names := s.nextBlock, Available(s, plan);
    ExtendsReflexive(rules, s, plan);
    NewBlockSound(rules, s, plan, s, plan, names, {});
    var s1, p1 := NewBlock(s).0, plan[b := names];
    NewBlockSound(rules, s, plan, s1, p1, names, {} + {b});
    var s2, p2 := NewBlock(s1).0, p1[b + 1 := names];
    NewBlockSound(rules, s, plan, s2, p2, names, {} + {b} + {b + 1});
    var s3, p3 := NewBlock(s2).0, p2[b + 2 := names];
    NewBlockSound(rules, s, plan, s3, p3, names, {} + {b} + {b + 1} + {b + 2});
    var s4, p4 := NewBlock(s3).0, p3[b + 3 := names];
    plan' := p4;
    OpenedSound(rules, s, plan, s4, plan', b, b + 3, b + 2, {} + {b} + {b + 1} + {b + 2} + {b + 3},
      {b + 1, b + 2, b + 3});
  }

  lemma {:induction false} WhileSound(rules: Rules, s: Generator, plan: Plan, stmt: Ir.Statement, inLoop: bool)
    returns (plan': Plan)
    requires stmt.While? && Placed(rules, s, plan, inLoop) && ScopedStatement(s.symbols, stmt, inLoop, rules.fixed)
    ensures Extends(rules, s, plan, GenerateWhile(s, stmt), plan', {})
    decreases stmt, 0
  {
    hide Sound, Visible, FixedParameters, GenerateExpression, GenerateBlock, ScopedBlock, ScopedExpression, Wf,
      Grows, Available, TargetsOk, Closing, Round, GenerateWhile;
    var b := s.nextBlock;
    SoundIsWf(rules, s, plan);
    AdvancesReflexive(s);
    OpenWhileAdvances(s, s);
    var p1 := OpenWhileSound(rules, s, plan);
    var o := OpenWhile(s);
    plan' := RoundPlaced(rules, s, plan, o, p1, stmt.condition, stmt.body, b + 1, b + 2, b, b + 2, {b + 1, b + 2},
      inLoop);
    LoopEndSound(rules, s, plan, Round(o, stmt.condition, stmt.body, b + 1, b + 2), plan', b, b + 2,
      {b + 1, b + 2} - {b + 1});
    WhileIsRound(s, stmt);
  }

  lemma WhileIsRound(s: Generator, stmt: Ir.Statement)
    requires stmt.While?
    ensures var b := s.nextBlock;
      GenerateWhile(s, stmt)
        == PopLoop(Finish(Round(OpenWhile(s), stmt.condition, stmt.body, b + 1, b + 2), Jump(b), b + 2))
  {
    hide GenerateExpression, GenerateBlock, SkipIfZero, OpenWhile;
  }

  /** Condition and body of a loop. */
  function Round(o: Generator, condition: Ir.Expression, body: Ir.Block, l: BlockId, e: BlockId): Generator {
    var (s1, value) := GenerateExpression(o, condition);
    GenerateBlock(Finish(s1, SkipIfZero(value, l, e), l), body)
  }

  lemma {:induction false} RoundPlaced(rules: Rules, s0: Generator, p0: Plan, o: Generator, plan: Plan,
                                       condition: Ir.Expression, body: Ir.Block, l: BlockId, e: BlockId, c: BlockId,
                                       other: BlockId, waiting: set<BlockId>, inLoop: bool) returns (plan': Plan)
    requires Placed(rules, s0, p0, inLoop) && Extends(rules, s0, p0, o, plan, waiting)
    requires ScopedExpression(s0.symbols, condition) && ScopedBlock(s0.symbols, body, true, rules.fixed)
    requires o.symbols == s0.symbols && o.breaks == s0.breaks + [e] && o.continues == s0.continues + [c]
    requires Pending(o, l) && Pending(o, e) && Pending(o, other) && l != e && l != other && l >= s0.nextBlock
    requires l in plan && e in plan && c in plan && plan[l] == plan[e] == plan[c] == Available(s0, p0)
    ensures var s := Round(o, condition, body, l, e);
      && Extends(rules, s0, p0, s, plan', waiting - {l}) && SamePlan(plan, plan') && SameScope(o, s)
      && Pending(s, e) && Pending(s, other)
    decreases body, 2, 1
  {
    plan' := RoundSound(rules, s0, p0, o, plan, condition, body, l, e, c, waiting, inLoop);
    assert Advances(s0, o);
    hide Sound, Visible, FixedParameters, GenerateExpression, GenerateBlock, ScopedBlock, ScopedExpression, Wf,
      Grows, Available, TargetsOk, Closing;
    RoundAdvances(s0, o, condition, body, l, e, other);
  }

  /** Back to the condition, and on after the loop. */
  lemma LoopEndSound(rules: Rules, s0: Generator, p0: Plan, s: Generator, plan: Plan, b: BlockId, e: BlockId,
                     waiting: set<BlockId>)
    requires Extends(rules, s0, p0, s, plan, waiting) && Pending(s, e) && e >= s0.nextBlock && waiting == {e}
    requires b in plan && e in plan && plan[b] == plan[e] == Available(s0, p0)
    ensures Extends(rules, s0, p0, PopLoop(Finish(s, Jump(b), e)), plan, {})
  {
    hide Sound, Wf, Grows, Available, Closing;
    var s1 := Finish(s, Jump(b), e);
    FinishSound(rules, s0, p0, s, plan, Jump(b), e, waiting);
    ClosingOnly(rules, s0, p0, s1, plan, waiting - {e}, {});
    ScopeChangeAdvances(s0, s1, PopLoop(s1));
    QuietStepSound(rules, s0, p0, s1, plan, PopLoop(s1), {});
  }

  lemma {:induction false} ForSound(rules: Rules, s: Generator, plan: Plan, stmt: Ir.Statement, inLoop: bool)
    returns (plan': Plan)
    requires stmt.For? && Placed(rules, s, plan, inLoop) && ScopedStatement(s.symbols, stmt, inLoop, rules.fixed)
    ensures Extends(rules, s, plan, GenerateFor(s, stmt), plan', {})
    decreases stmt, 0
  {
    hide Sound, Visible, FixedParameters, GenerateExpression, GenerateBlock, ScopedBlock, ScopedExpression, Wf,
      Grows, Available, TargetsOk, Closing, GenerateAssignment, GenerateUpdate, ScopedUpdate, ScopedAssignment,
      SamePlan;
    SoundIsWf(rules, s, plan);
    AssignmentAdvances(s, stmt.initial);
    var s0 := GenerateAssignment(s, stmt.initial);
    var p0 := AssignmentSound(rules, s, plan, stmt.initial);
    PlacedLater(rules, s, plan, s0, p0, {}, inLoop);
    plan' := ForLoopSound(rules, s0, p0, stmt, inLoop);
    ExtendsTransitive(rules, s, plan, s0, p0, GenerateFor(s, stmt), plan', {});
  }

  /** A `for` after its initial assignment. */
  function ForLoop(s: Generator, stmt: Ir.Statement): Generator
    requires stmt.For?
  {
    var b := s.nextBlock;
    var (s2, value) := GenerateExpression(OpenFor(s), stmt.condition);
    var s3 := GenerateBlock(Finish(s2, SkipIfZero(value, b + 1, b + 3), b + 1), stmt.body);
    var s4 := GenerateUpdate(Finish(s3, Jump(b + 2), b + 2), stmt.update);
    PopLoop(Finish(s4, Jump(b), b + 3))
  }

  lemma {:induction false} ForLoopSound(rules: Rules, s: Generator, plan: Plan, stmt: Ir.Statement, inLoop: bool)
    returns (plan': Plan)
    requires stmt.For? && Placed(rules, s, plan, inLoop) && ScopedStatement(s.symbols, stmt, inLoop, rules.fixed)
    ensures Extends(rules, s, plan, ForLoop(s, stmt), plan', {})
    decreases stmt.body, 3
  {
    hide Sound, Visible, FixedParameters, GenerateExpression, GenerateBlock, ScopedBlock, ScopedExpression, Wf,
      Grows, Available, TargetsOk, Closing, GenerateAssignment, GenerateUpdate, ScopedUpdate, ScopedAssignment,
      SkipIfZero, Round, ForLoop;
    var b := s.nextBlock;
    SoundIsWf(rules, s, plan);
    AdvancesReflexive(s);
    OpenForAdvances(s, s);
    var p1 := OpenForSound(rules, s, plan);
    var o := OpenFor(s);
    var p3 := RoundPlaced(rules, s, plan, o, p1, stmt.condition, stmt.body, b + 1, b + 3, b + 2, b + 2,
      {b + 1, b + 2, b + 3}, inLoop);
    var s3 := Round(o, stmt.condition, stmt.body, b + 1, b + 3);
    plan' := ForTailSound(rules, s, plan, s3, p3, stmt.update, b, {b + 1, b + 2, b + 3} - {b + 1});
    ForIsRound(s, stmt);
  }

  lemma ForIsRound(s: Generator, stmt: Ir.Statement)
    requires stmt.For?
    ensures var b := s.nextBlock;
      var s3 := Round(OpenFor(s), stmt.condition, stmt.body, b + 1, b + 3);
      ForLoop(s, stmt) == PopLoop(Finish(GenerateUpdate(Finish(s3, Jump(b + 2), b + 2), stmt.update), Jump(b), b + 3))
  {
    hide GenerateExpression, GenerateBlock, SkipIfZero, OpenFor, GenerateUpdate;
  }

  lemma ForTailSound(rules: Rules, s0: Generator, p0: Plan, s: Generator, plan: Plan, update: Ir.ForUpdate,
                     b: BlockId, waiting: set<BlockId>) returns (plan': Plan)
    requires Prepared(rules, s0, p0) && ScopedUpdate(s0.symbols, update, rules.fixed) && s.symbols == s0.symbols
    requires Extends(rules, s0, p0, s, plan, waiting) && Pending(s, b + 2) && Pending(s, b + 3) && b >= s0.nextBlock
    requires waiting == {b + 2, b + 3}
    requires b in plan && b + 2 in plan && b + 3 in plan && plan[b] == plan[b + 2] == plan[b + 3] == Available(s0, p0)
    ensures Extends(rules, s0, p0,
      PopLoop(Finish(GenerateUpdate(Finish(s, Jump(b + 2), b + 2), update), Jump(b), b + 3)), plan', {})
  {
    hide Sound, Wf, Grows, Available, Closing, GenerateUpdate, ScopedUpdate, Visible, FixedParameters;
    var s1 := Finish(s, Jump(b + 2), b + 2);
    FinishSound(rules, s0, p0, s, plan, Jump(b + 2), b + 2, waiting);
    ClosingOnly(rules, s0, p0, s1, plan, waiting - {b + 2}, {b + 3});
    PreparedLater(rules, s0, p0, s1, plan, {b + 3});
    SoundIsWf(rules, s1, plan);
    UpdateAdvances(s1, update);
    assert Pending(s1, b + 3);
    plan' := UpdateSound(rules, s1, plan, update);
    ExtendsTransitive(rules, s0, p0, s1, plan, GenerateUpdate(s1, update), plan', {b + 3});
    LoopEndSound(rules, s0, p0, GenerateUpdate(s1, update), plan', b, b + 3, {b + 3});
  }
}
