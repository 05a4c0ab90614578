/** Every block the generator numbers is appended to its method, and it numbers them in a row. */
module BlockNumbers {
  import opened Words
  import opened Llir
  import opened Lowering
  import opened LoweringStructure
  import MethodLowering
  import Ir

  /** Of the blocks numbered since `first`, each is finished, current or still waiting to become current. */
  ghost predicate Accounted(first: BlockId, s: Generator, waiting: set<BlockId>) {
    && first <= s.current && first <= s.nextBlock
    && (forall b :: b in s.finished ==> first <= b)
    && forall b :: first <= b < s.nextBlock ==> b in s.finished || b == s.current || b in waiting
  }

  lemma NewBlockAccounted(first: BlockId, s: Generator, waiting: set<BlockId>)
    requires Accounted(first, s, waiting)
    ensures Accounted(first, NewBlock(s).0, waiting + {s.nextBlock})
  {
  }

  /** A block that becomes current waits no more. */
  lemma FinishAccounted(first: BlockId, s: Generator, t: Terminal, b: BlockId, waiting: set<BlockId>)
    requires Accounted(first, s, waiting + {b}) && first <= b
    ensures Accounted(first, Finish(s, t, b), waiting)
  {
  }

  /** Two new blocks and a branch to them; the second waits. */
  lemma BranchAccounted(first: BlockId, s: Generator, t: Terminal, waiting: set<BlockId>)
    requires Accounted(first, s, waiting)
    ensures Accounted(first, Finish(NewBlock(NewBlock(s).0).0, t, s.nextBlock), waiting + {s.nextBlock + 1})
    ensures first <= s.nextBlock + 1
  {
    NewBlockAccounted(first, s, waiting);
    NewBlockAccounted(first, NewBlock(s).0, waiting + {s.nextBlock});
    assert waiting + {s.nextBlock} + {s.nextBlock + 1} == waiting + {s.nextBlock + 1} + {s.nextBlock};
    FinishAccounted(first, NewBlock(NewBlock(s).0).0, t, s.nextBlock, waiting + {s.nextBlock + 1});
  }

  // ----- expressions -----

  lemma {:induction false} ExpressionAccounted(first: BlockId, s: Generator, e: Ir.Expression, waiting: set<BlockId>)
    requires Accounted(first, s, waiting)
    ensures Accounted(first, GenerateExpression(s, e).0, waiting)
    decreases e, 1
  {
    match e
    case Binary(op, l, r) =>
      if op == Ir.Or || op == Ir.And {
        ShortCircuitAccounted(first, s, e, waiting);
      } else {
        ExpressionAccounted(first, s, l, waiting);
        ExpressionAccounted(first, GenerateExpression(s, l).0, r, waiting);
      }
    case Not(o) => ExpressionAccounted(first, s, o, waiting);
    case Negate(o) => ExpressionAccounted(first, s, o, waiting);
    case Length(_, _) =>
    case Invoke(call) => CallAccounted(first, s, call, waiting);
    case Constant(_) =>
    case At(location) => LocationAccounted(first, s, location, waiting);
  }

  lemma {:induction false} LocationAccounted(first: BlockId, s: Generator, location: Ir.Location,
                                             waiting: set<BlockId>)
    requires Accounted(first, s, waiting)
    ensures Accounted(first, GenerateLocation(s, location).0, waiting)
    decreases location, 1
  {
    if location.index.Some? { ExpressionAccounted(first, NewTemporary(s, '$').0, location.index.value, waiting); }
  }

  lemma {:induction false} CallAccounted(first: BlockId, s: Generator, call: Ir.MethodCall, waiting: set<BlockId>)
    requires Accounted(first, s, waiting)
    ensures Accounted(first, GenerateCall(s, call).0, waiting)
    decreases call, 1
  {
    ArgumentsAccounted(first, NewTemporary(s, '$').0, call.arguments, waiting);
  }

  lemma {:induction false} ArgumentsAccounted(first: BlockId, s: Generator, arguments: seq<Ir.CallArgument>,
                                              waiting: set<BlockId>)
    requires Accounted(first, s, waiting)
    ensures Accounted(first, GenerateArguments(s, arguments).0, waiting)
    decreases arguments, 1
  {
    if arguments != [] {
      ArgumentAccounted(first, s, arguments[0], waiting);
      ArgumentsAccounted(first, GenerateArgument(s, arguments[0]).0, arguments[1..], waiting);
    }
  }

  lemma {:induction false} ArgumentAccounted(first: BlockId, s: Generator, a: Ir.CallArgument, waiting: set<BlockId>)
    requires Accounted(first, s, waiting)
    ensures Accounted(first, GenerateArgument(s, a).0, waiting)
    decreases a, 1
  {
    if a.ValueArgument? { ExpressionAccounted(first, s, a.expression, waiting); }
  }

  lemma {:induction false} ShortCircuitAccounted(first: BlockId, s: Generator, e: Ir.Expression,
                                                 waiting: set<BlockId>)
    requires Accounted(first, s, waiting) && e.Binary? && (e.op == Ir.Or || e.op == Ir.And)
    ensures Accounted(first, GenerateShortCircuit(s, e).0, waiting)
    decreases e, 0
  {
    hide GenerateExpression;
    var (s1, d) := NewTemporary(s, '#');
    ExpressionAccounted(first, s1, e.left, waiting);
    var (s2, left) := GenerateExpression(s1, e.left);
    var s3 := Append(s2, Unary(Move, d, left));
    assert Accounted(first, s3, waiting);
    var n := s3.nextBlock;
    var t := Branch(if e.op == Ir.Or then IfEqual else IfNotEqual, false, left, Literal(1), n, n + 1);
    BranchAccounted(first, s3, t, waiting);
    var s6 := Finish(NewBlock(NewBlock(s3).0).0, t, n);
    ExpressionAccounted(first, s6, e.right, waiting + {n + 1});
    var (s7, right) := GenerateExpression(s6, e.right);
    FinishAccounted(first, Append(s7, Unary(Move, d, right)), Jump(n + 1), n + 1, waiting);
  }

  // ----- fields and assignments -----

  lemma {:induction false} ElementsAccounted(first: BlockId, s: Generator, name: string, values: seq<Word>,
                                             waiting: set<BlockId>)
    requires Accounted(first, s, waiting)
    ensures Accounted(first, InitializeElements(s, name, values), waiting)
  {
    if values != [] { ElementsAccounted(first, s, name, values[..|values| - 1], waiting); }
  }

  lemma {:induction false} FieldsAccounted(first: BlockId, s: Generator, fields: seq<Ir.Field>, waiting: set<BlockId>)
    requires Accounted(first, s, waiting)
    ensures Accounted(first, GenerateFields(s, fields), waiting)
  {
    hide InitializeElements, MakeField, Declare;
    if fields != [] {
      var f := fields[|fields| - 1];
      FieldsAccounted(first, s, fields[..|fields| - 1], waiting);
      var s1 := GenerateFields(s, fields[..|fields| - 1]);
      var field := MakeField(f, if s1.symbols == [] then 0 else |s1.symbols| - 1);
      ElementsAccounted(first, AddField(s1.(symbols := Declare(s1.symbols, f)), field), field.identifier,
        field.values, waiting);
    }
  }

  lemma IndexAccounted(first: BlockId, s: Generator, location: Ir.Location, waiting: set<BlockId>)
    requires Accounted(first, s, waiting)
    ensures Accounted(first, GenerateIndex(s, location).0, waiting)
  {
    if location.index.Some? {
      ExpressionAccounted(first, s, location.index.value, waiting);
      var (s1, index) := GenerateExpression(s, location.index.value);
      CheckAccounted(first, s1, index, |FieldOf(s.symbols, location.identifier).values|, waiting);
    }
  }

  lemma CheckAccounted(first: BlockId, s: Generator, index: Operand, length: nat, waiting: set<BlockId>)
    requires Accounted(first, s, waiting)
    ensures Accounted(first, GenerateBoundsCheck(s, index, length), waiting)
  {
    var n := s.nextBlock;
    var t := Branch(IfLess, true, index, Literal(Wrap(length)), n, n + 1);
    BranchAccounted(first, s, t, waiting);
    FinishAccounted(first, Finish(NewBlock(NewBlock(s).0).0, t, n), Exit(-1), n + 1, waiting);
  }

  lemma AssignmentAccounted(first: BlockId, s: Generator, a: Ir.Assignment, waiting: set<BlockId>)
    requires Accounted(first, s, waiting)
    ensures Accounted(first, GenerateAssignment(s, a), waiting)
  {
    hide GenerateExpression;
    IndexAccounted(first, s, a.location, waiting);
    hide GenerateIndex;
    if a.expression.Some? {
      ExpressionAccounted(first, GenerateIndex(s, a.location).0, a.expression.value, waiting);
    }
  }

  lemma UpdateAccounted(first: BlockId, s: Generator, u: Ir.ForUpdate, waiting: set<BlockId>)
    requires Accounted(first, s, waiting)
    ensures Accounted(first, GenerateUpdate(s, u), waiting)
  {
    match u
    case UpdateAssignment(a) => AssignmentAccounted(first, s, a, waiting);
    case UpdateCall(call) => CallAccounted(first, s, call, waiting);
  }

  // ----- statements -----

  lemma {:induction false} StatementAccounted(first: BlockId, s: Generator, stmt: Ir.Statement, waiting: set<BlockId>)
    requires Accounted(first, s, waiting)
    ensures Accounted(first, GenerateStatement(s, stmt), waiting)
    decreases stmt, 1
  {
    hide Accounted, GenerateExpression, GenerateAssignment, GenerateCall, GenerateIf, GenerateFor, GenerateWhile,
      GenerateEnd;
    match stmt
    case Assign(a) => AssignmentAccounted(first, s, a, waiting);
    case CallStatement(call) => CallAccounted(first, s, call, waiting);
    case If(_, _, _) => IfAccounted(first, s, stmt, waiting);
    case For(_, _, _, _) => ForAccounted(first, s, stmt, waiting);
    case While(_, _) => WhileAccounted(first, s, stmt, waiting);
    case Return(None) => EndAccounted(first, s, Terminal.Return(Literal(0)), waiting);
    case Return(Some(e)) =>
      ExpressionAccounted(first, s, e, waiting);
      var (s1, source) := GenerateExpression(s, e);
      EndAccounted(first, s1, Terminal.Return(source), waiting);
    case Break => EndAccounted(first, s, Jump(Top(s.breaks)), waiting);
    case Continue => EndAccounted(first, s, Jump(Top(s.continues)), waiting);
  }

  lemma EndAccounted(first: BlockId, s: Generator, t: Terminal, waiting: set<BlockId>)
    requires Accounted(first, s, waiting)
    ensures Accounted(first, GenerateEnd(s, t), waiting)
  {
    NewBlockAccounted(first, s, waiting);
    FinishAccounted(first, NewBlock(s).0, t, s.nextBlock, waiting);
  }

  lemma {:induction false} IfAccounted(first: BlockId, s: Generator, stmt: Ir.Statement, waiting: set<BlockId>)
    requires Accounted(first, s, waiting) && stmt.If?
    ensures Accounted(first, GenerateIf(s, stmt), waiting)
    decreases stmt, 0
  {
    hide Accounted, GenerateExpression, GenerateBlock;
    ExpressionAccounted(first, s, stmt.condition, waiting);
    var (s1, value) := GenerateExpression(s, stmt.condition);
    var n := s1.nextBlock;
    var t := SkipIfZero(value, n, n + 1);
    BranchAccounted(first, s1, t, waiting);
    var s4 := Finish(NewBlock(NewBlock(s1).0).0, t, n);
    BlockAccounted(first, s4, stmt.ifBlock, waiting + {n + 1});
    var s5 := GenerateBlock(s4, stmt.ifBlock);
    match stmt.elseBlock
    case None => FinishAccounted(first, s5, Jump(n + 1), n + 1, waiting);
    case Some(other) =>
      var (s6, end) := NewBlock(s5);
      NewBlockAccounted(first, s5, waiting + {n + 1});
      EndIsLater(first, s5, waiting + {n + 1});
      assert waiting + {n + 1} + {end} == waiting + {end} + {n + 1};
      FinishAccounted(first, s6, Jump(end), n + 1, waiting + {end});
      var s7 := Finish(s6, Jump(end), n + 1);
      BlockAccounted(first, s7, other, waiting + {end});
      FinishAccounted(first, GenerateBlock(s7, other), Jump(end), end, waiting);
  }

  lemma EndIsLater(first: BlockId, s: Generator, waiting: set<BlockId>)
    requires Accounted(first, s, waiting)
    ensures first <= s.nextBlock
  {
  }

  lemma OpenForAccounted(first: BlockId, s: Generator, waiting: set<BlockId>)
    requires Accounted(first, s, waiting)
    ensures var n := s.nextBlock;
      first <= n && Accounted(first, OpenFor(s), waiting + {n + 3} + {n + 2} + {n + 1})
  {
  }

  lemma OpenWhileAccounted(first: BlockId, s: Generator, waiting: set<BlockId>)
    requires Accounted(first, s, waiting)
    ensures var n := s.nextBlock;
      first <= n && Accounted(first, OpenWhile(s), waiting + {n + 2} + {n + 1})
  {
  }

  /** Condition in the current block, body in `loopBlock`. */
  lemma {:induction false} RoundAccounted(first: BlockId, s: Generator, condition: Ir.Expression, body: Ir.Block,
                                          loopBlock: BlockId, endBlock: BlockId, waiting: set<BlockId>)
    requires Accounted(first, s, waiting + {loopBlock}) && first <= loopBlock
    ensures var (s1, value) := GenerateExpression(s, condition);
      Accounted(first, GenerateBlock(Finish(s1, SkipIfZero(value, loopBlock, endBlock), loopBlock), body), waiting)
    decreases body, 2
  {
    hide Accounted, GenerateExpression, GenerateBlock;
    ExpressionAccounted(first, s, condition, waiting + {loopBlock});
    var (s1, value) := GenerateExpression(s, condition);
    var t := SkipIfZero(value, loopBlock, endBlock);
    FinishAccounted(first, s1, t, loopBlock, waiting);
    BlockAccounted(first, Finish(s1, t, loopBlock), body, waiting);
  }

  lemma {:induction false} ForAccounted(first: BlockId, s: Generator, stmt: Ir.Statement, waiting: set<BlockId>)
    requires Accounted(first, s, waiting) && stmt.For?
    ensures Accounted(first, GenerateFor(s, stmt), waiting)
    decreases stmt, 0
  {
    hide Accounted, GenerateExpression, GenerateBlock, GenerateAssignment, GenerateUpdate, OpenFor, SkipIfZero;
    AssignmentAccounted(first, s, stmt.initial, waiting);
    var s1 := GenerateAssignment(s, stmt.initial);
    var n := s1.nextBlock;
    OpenForAccounted(first, s1, waiting);
    RoundAccounted(first, OpenFor(s1), stmt.condition, stmt.body, n + 1, n + 3, waiting + {n + 3} + {n + 2});
    var (s2, value) := GenerateExpression(OpenFor(s1), stmt.condition);
    var s3 := GenerateBlock(Finish(s2, SkipIfZero(value, n + 1, n + 3), n + 1), stmt.body);
    FinishAccounted(first, s3, Jump(n + 2), n + 2, waiting + {n + 3});
    var s4 := Finish(s3, Jump(n + 2), n + 2);
    UpdateAccounted(first, s4, stmt.update, waiting + {n + 3});
    FinishAccounted(first, GenerateUpdate(s4, stmt.update), Jump(n), n + 3, waiting);
    LoopPopped(first, Finish(GenerateUpdate(s4, stmt.update), Jump(n), n + 3), waiting);
  }

  lemma LoopPopped(first: BlockId, s: Generator, waiting: set<BlockId>)
    requires Accounted(first, s, waiting)
    ensures Accounted(first, PopLoop(s), waiting)
  {
  }

  lemma {:induction false} WhileAccounted(first: BlockId, s: Generator, stmt: Ir.Statement, waiting: set<BlockId>)
    requires Accounted(first, s, waiting) && stmt.While?
    ensures Accounted(first, GenerateWhile(s, stmt), waiting)
    decreases stmt, 0
  {
    hide Accounted, GenerateExpression, GenerateBlock, OpenWhile, SkipIfZero;
    var n := s.nextBlock;
    OpenWhileAccounted(first, s, waiting);
    RoundAccounted(first, OpenWhile(s), stmt.condition, stmt.body, n + 1, n + 2, waiting + {n + 2});
    var (s1, value) := GenerateExpression(OpenWhile(s), stmt.condition);
    var s2 := GenerateBlock(Finish(s1, SkipIfZero(value, n + 1, n + 2), n + 1), stmt.body);
    FinishAccounted(first, s2, Jump(n), n + 2, waiting);
    LoopPopped(first, Finish(s2, Jump(n), n + 2), waiting);
  }

  lemma ScopeChanged(first: BlockId, s: Generator, symbols: SymbolTables, waiting: set<BlockId>)
    requires Accounted(first, s, waiting)
    ensures Accounted(first, s.(symbols := symbols), waiting)
  {
  }

  lemma {:induction false} BlockAccounted(first: BlockId, s: Generator, b: Ir.Block, waiting: set<BlockId>)
    requires Accounted(first, s, waiting)
    ensures Accounted(first, GenerateBlock(s, b), waiting)
    decreases b, 1
  {
    hide Accounted, GenerateFields, GenerateStatements;
    ScopeChanged(first, s, s.symbols + [map[]], waiting);
    var s1 := s.(symbols := s.symbols + [map[]]);
    FieldsAccounted(first, s1, b.fields, waiting);
    StatementsAccounted(first, GenerateFields(s1, b.fields), b.statements, waiting);
    ScopeChanged(first, GenerateStatements(GenerateFields(s1, b.fields), b.statements), s.symbols, waiting);
  }

  lemma {:induction false} StatementsAccounted(first: BlockId, s: Generator, statements: seq<Ir.Statement>,
                                               waiting: set<BlockId>)
    requires Accounted(first, s, waiting)
    ensures Accounted(first, GenerateStatements(s, statements), waiting)
    decreases statements, 1
  {
    hide Accounted, GenerateStatement;
    if statements != [] {
      StatementAccounted(first, s, statements[0], waiting);
      StatementsAccounted(first, GenerateStatement(s, statements[0]), statements[1..], waiting);
    }
  }

  // ----- methods -----

  /** A method's blocks are exactly the ones numbered while it was generated. */
  lemma MethodBlocksNumbered(table: map<string, FieldDeclaration>, m: Ir.Method, temporaries: nat, nextBlock: nat)
    ensures var end := GenerateBody(table, m, temporaries, nextBlock).nextBlock;
      && nextBlock < end
      && forall b :: b in GenerateMethod(table, m, temporaries, nextBlock).blocks <==> nextBlock <= b < end
  {
    hide GenerateFields, GenerateStatements, Grows, PredecessorLists;
    var s0 := MethodLowering.BeforeBody(table, m, temporaries, nextBlock);
    FieldsAccounted(nextBlock, s0, m.body.fields, {});
    FieldsAdvance(s0, m.body.fields);
    var s1 := StartMethod(table, m, temporaries, nextBlock);
    StatementsAccounted(nextBlock, s1, m.body.statements, {});
    StatementsAdvance(s1, m.body.statements);
    var s := GenerateBody(table, m, temporaries, nextBlock);
    assert GenerateMethod(table, m, temporaries, nextBlock).blocks.Keys == s.finished.Keys + {s.current};
  }
}
