/** What every step of the generator keeps: finished blocks stay as they are, the current block only
    grows, and blocks created for later stay empty until they become current. */
module LoweringStructure {
  import opened Words
  import opened Llir
  import opened Lowering
  import Ir

  /** Created, but neither finished nor current. */
  ghost predicate Pending(s: Generator, b: BlockId) {
    b < s.nextBlock && b !in s.finished && b != s.current
  }

  ghost predicate Wf(s: Generator) {
    && s.current < s.nextBlock && s.current !in s.finished
    && (forall b :: b in s.finished ==> b < s.nextBlock)
    && (forall b :: b in s.order <==> b in s.finished)
  }

  /** Nothing generated so far is lost or changed. */
  ghost predicate Grows(s: Generator, s': Generator) {
    && s.order + [s.current] <= s'.order + [s'.current]
    && (forall b :: b in s.finished ==> b in s'.finished && s'.finished[b] == s.finished[b])
    && (if s'.current == s.current then s.code <= s'.code && s.fields <= s'.fields
        else
          && s.current in s'.finished
          && s.code <= s'.finished[s.current].assignments && s.fields <= s'.finished[s.current].fields)
  }

  ghost predicate Untouched(s: Generator, s': Generator) {
    forall b :: Pending(s, b) ==> Pending(s', b)
  }

  ghost predicate Advances(s: Generator, s': Generator) {
    Wf(s') && s.temporaries <= s'.temporaries && s.nextBlock <= s'.nextBlock && Grows(s, s') && Untouched(s, s')
  }

  ghost predicate SameScope(s: Generator, s': Generator) {
    s'.symbols == s.symbols && s'.breaks == s.breaks && s'.continues == s.continues
  }

  lemma AdvancesReflexive(s: Generator)
    requires Wf(s)
    ensures Advances(s, s) && Grows(s, s)
  {
  }

  lemma GrowsTransitive(s0: Generator, s1: Generator, s2: Generator)
    requires Wf(s1) && Wf(s2) && Grows(s0, s1) && Grows(s1, s2)
    ensures Grows(s0, s2)
  {
    var layout := s1.order + [s1.current];
    assert (s2.order + [s2.current])[..|s0.order| + 1] == layout[..|s0.order| + 1];
    if s0.current == s1.current {
      var after := if s2.current == s1.current then s2.code else s2.finished[s1.current].assignments;
      assert after[..|s0.code|] == s1.code[..|s0.code|];
      var after' := if s2.current == s1.current then s2.fields else s2.finished[s1.current].fields;
      assert after'[..|s0.fields|] == s1.fields[..|s0.fields|];
    }
  }

  lemma AdvancesTransitive(s0: Generator, s1: Generator, s2: Generator)
    requires Advances(s0, s1) && Advances(s1, s2)
    ensures Advances(s0, s2)
  {
    GrowsTransitive(s0, s1, s2);
  }

  // ----- small steps, each seen from where the construct started -----

  lemma AppendAdvances(s0: Generator, s: Generator, a: Assignment)
    requires Advances(s0, s)
    ensures Advances(s0, Append(s, a)) && Grows(s, Append(s, a))
  {
    GrowsTransitive(s0, s, Append(s, a));
  }

  lemma AddFieldAdvances(s0: Generator, s: Generator, f: FieldDeclaration)
    requires Advances(s0, s)
    ensures Advances(s0, AddField(s, f)) && Grows(s, AddField(s, f))
  {
    GrowsTransitive(s0, s, AddField(s, f));
  }

  lemma NewTemporaryAdvances(s0: Generator, s: Generator, prefix: char)
    requires Advances(s0, s)
    ensures Advances(s0, NewTemporary(s, prefix).0) && Grows(s, NewTemporary(s, prefix).0)
  {
    GrowsTransitive(s0, s, NewTemporary(s, prefix).0);
  }

  lemma NewBlockAdvances(s0: Generator, s: Generator)
    requires Advances(s0, s)
    ensures Advances(s0, NewBlock(s).0) && Grows(s, NewBlock(s).0)
    ensures Pending(NewBlock(s).0, s.nextBlock) && s.nextBlock >= s0.nextBlock
  {
    GrowsTransitive(s0, s, NewBlock(s).0);
  }

  /** A block created along the way may become current: to the outside nothing pending changed. */
  lemma FinishAdvances(s0: Generator, s: Generator, t: Terminal, b: BlockId)
    requires Advances(s0, s) && Pending(s, b) && b >= s0.nextBlock
    ensures Advances(s0, Finish(s, t, b)) && Grows(s, Finish(s, t, b))
  {
    GrowsTransitive(s0, s, Finish(s, t, b));
  }

  /** Scopes and loop stacks are not part of the structure. */
  lemma ScopeChangeAdvances(s0: Generator, s: Generator, s': Generator)
    requires Advances(s0, s)
    requires s' == s.(symbols := s'.symbols, breaks := s'.breaks, continues := s'.continues)
    ensures Advances(s0, s') && Grows(s, s') && Grows(s', s)
  {
    GrowsTransitive(s0, s, s');
  }

  lemma TemporaryAndAppend(s0: Generator, s: Generator, prefix: char, a: Assignment)
    requires Advances(s0, s)
    ensures Advances(s0, Append(NewTemporary(s, prefix).0, a))
  {
    NewTemporaryAdvances(s0, s, prefix);
    AppendAdvances(s0, NewTemporary(s, prefix).0, a);
  }

  // ----- expressions -----

  lemma {:induction false} ExpressionAdvances(s: Generator, e: Ir.Expression)
    requires Wf(s)
    ensures Advances(s, GenerateExpression(s, e).0) && SameScope(s, GenerateExpression(s, e).0)
    decreases e, 1
  {
    AdvancesReflexive(s);
    match e
    case Binary(op, l, r) =>
      if op == Ir.Or || op == Ir.And {
        ShortCircuitAdvances(s, e);
      } else {
        ExpressionAdvances(s, l);
        var (s1, left) := GenerateExpression(s, l);
        ExpressionAdvances(s1, r);
        var (s2, right) := GenerateExpression(s1, r);
        AdvancesTransitive(s, s1, s2);
        TemporaryAndAppend(s, s2, '$', Assignment.Binary(ToAssignment(op), NewTemporary(s2, '$').1, left, right));
      }
    case Not(o) =>
      ExpressionAdvances(s, o);
      var (s1, source) := GenerateExpression(s, o);
      TemporaryAndAppend(s, s1, '$', Unary(UnaryOperator.Not, NewTemporary(s1, '$').1, source));
    case Negate(o) =>
      ExpressionAdvances(s, o);
      var (s1, source) := GenerateExpression(s, o);
      TemporaryAndAppend(s, s1, '$', Unary(UnaryOperator.Negate, NewTemporary(s1, '$').1, source));
    case Length(_, length) => TemporaryAndAppend(s, s, '$', Unary(Move, NewTemporary(s, '$').1, Literal(length)));
    case Invoke(call) => CallAdvances(s, call);
    case Constant(l) => TemporaryAndAppend(s, s, '$', Unary(Move, NewTemporary(s, '$').1, Literal(LiteralToInt64(l))));
    case At(location) => LocationAdvances(s, location);
  }

  lemma {:induction false} LocationAdvances(s: Generator, location: Ir.Location)
    requires Wf(s)
    ensures Advances(s, GenerateLocation(s, location).0) && SameScope(s, GenerateLocation(s, location).0)
    decreases location, 1
  {
    var field := FieldOf(s.symbols, location.identifier);
    var (s1, d) := NewTemporary(s, '$');
    AdvancesReflexive(s);
    NewTemporaryAdvances(s, s, '$');
    AppendAdvances(s, s1, Unary(Move, d, Field(field.identifier)));
    if location.index.Some? {
      ExpressionAdvances(s1, location.index.value);
      var (s2, index) := GenerateExpression(s1, location.index.value);
      AdvancesTransitive(s, s1, s2);
      AppendAdvances(s, s2, ArrayAccess(d, index, field.identifier));
    }
  }

  lemma {:induction false} CallAdvances(s: Generator, call: Ir.MethodCall)
    requires Wf(s)
    ensures Advances(s, GenerateCall(s, call).0) && SameScope(s, GenerateCall(s, call).0)
    decreases call, 1
  {
    var (s1, d) := NewTemporary(s, '$');
    AdvancesReflexive(s);
    NewTemporaryAdvances(s, s, '$');
    ArgumentsAdvance(s1, call.arguments);
    var (s2, arguments) := GenerateArguments(s1, call.arguments);
    AdvancesTransitive(s, s1, s2);
    AppendAdvances(s, s2, Call(d, call.identifier, arguments));
  }

  lemma {:induction false} ArgumentsAdvance(s: Generator, arguments: seq<Ir.CallArgument>)
    requires Wf(s)
    ensures Advances(s, GenerateArguments(s, arguments).0) && SameScope(s, GenerateArguments(s, arguments).0)
    decreases arguments, 1
  {
    AdvancesReflexive(s);
    if arguments != [] {
      ArgumentAdvances(s, arguments[0]);
      var s1 := GenerateArgument(s, arguments[0]).0;
      ArgumentsAdvance(s1, arguments[1..]);
      AdvancesTransitive(s, s1, GenerateArguments(s1, arguments[1..]).0);
    }
  }

  lemma {:induction false} ArgumentAdvances(s: Generator, argument: Ir.CallArgument)
    requires Wf(s)
    ensures Advances(s, GenerateArgument(s, argument).0) && SameScope(s, GenerateArgument(s, argument).0)
    decreases argument, 1
  {
    match argument
    case StringArgument(_) => AdvancesReflexive(s);
    case ValueArgument(e) => ExpressionAdvances(s, e);
  }

  lemma {:induction false} ShortCircuitAdvances(s: Generator, e: Ir.Expression)
    requires Wf(s) && e.Binary? && (e.op == Ir.Or || e.op == Ir.And)
    ensures Advances(s, GenerateShortCircuit(s, e).0) && SameScope(s, GenerateShortCircuit(s, e).0)
    decreases e, 0
  {
    hide Grows, Wf;
    var (s1, d) := NewTemporary(s, '#');
    AdvancesReflexive(s);
    NewTemporaryAdvances(s, s, '#');
    ExpressionAdvances(s1, e.left);
    var (s2, left) := GenerateExpression(s1, e.left);
    AdvancesTransitive(s, s1, s2);
    var s3 := Append(s2, Unary(Move, d, left));
    AppendAdvances(s, s2, Unary(Move, d, left));
    var s4, trueBlock, falseBlock := BranchAdvances(s, s3, if e.op == Ir.Or then IfEqual else IfNotEqual, false, left,
      Literal(1));
    ExpressionAdvances(s4, e.right);
    var (s5, right) := GenerateExpression(s4, e.right);
    AdvancesTransitive(s, s4, s5);
    AppendAdvances(s, s5, Unary(Move, d, right));
    FinishAdvances(s, Append(s5, Unary(Move, d, right)), Jump(falseBlock), falseBlock);
  }

  /** Two new blocks and a branch between them; the first becomes current, the second waits. */
  lemma BranchAdvances(s0: Generator, s: Generator, c: Comparison, isUnsigned: bool, l: Operand, r: Operand)
    returns (s': Generator, trueBlock: BlockId, falseBlock: BlockId)
    requires Advances(s0, s)
    ensures trueBlock == s.nextBlock && falseBlock == s.nextBlock + 1
    ensures s' == Finish(NewBlock(NewBlock(s).0).0, Branch(c, isUnsigned, l, r, trueBlock, falseBlock), trueBlock)
    ensures Advances(s0, s') && Grows(s, s') && SameScope(s, s')
    ensures Pending(s', falseBlock) && falseBlock >= s0.nextBlock
  {
    var (s1, t) := NewBlock(s);
    var (s2, f) := NewBlock(s1);
    NewBlockAdvances(s0, s);
    NewBlockAdvances(s0, s1);
    trueBlock, falseBlock := t, f;
    var branch := Branch(c, isUnsigned, l, r, trueBlock, falseBlock);
    s' := Finish(s2, branch, trueBlock);
    FinishAdvances(s0, s2, branch, trueBlock);
    AdvancesReflexive(s);
  }

  // ----- fields and assignments -----

  lemma {:induction false} InitializeElementsAdvances(s: Generator, name: string, values: seq<Word>)
    requires Wf(s)
    ensures Advances(s, InitializeElements(s, name, values)) && SameScope(s, InitializeElements(s, name, values))
  {
    if values == [] {
      AdvancesReflexive(s);
    } else {
      var n := |values| - 1;
      InitializeElementsAdvances(s, name, values[..n]);
      AppendAdvances(s, InitializeElements(s, name, values[..n]),
        ArrayUpdate(name, Literal(Wrap(n)), Literal(values[n])));
    }
  }

  lemma FieldAdvances(s: Generator, f: Ir.Field)
    requires Wf(s)
    ensures var s' := GenerateField(s, f);
      Advances(s, s') && s'.symbols == Declare(s.symbols, f) && s'.breaks == s.breaks && s'.continues == s.continues
  {
    var field := MakeField(f, if s.symbols == [] then 0 else |s.symbols| - 1);
    var s1 := s.(symbols := Declare(s.symbols, f));
    AdvancesReflexive(s);
    ScopeChangeAdvances(s, s, s1);
    AddFieldAdvances(s, s1, field);
    var s2 := AddField(s1, field);
    if field.isArray {
      InitializeElementsAdvances(s2, field.identifier, field.values);
      AdvancesTransitive(s, s2, InitializeField(s2, field));
    } else {
      AppendAdvances(s, s2, Unary(Move, field.identifier, Literal(if field.values == [] then 0 else field.values[0])));
    }
  }

  lemma {:induction false} FieldsAdvance(s: Generator, fields: seq<Ir.Field>)
    requires Wf(s)
    ensures var s' := GenerateFields(s, fields);
      Advances(s, s') && s'.symbols == DeclareAll(s.symbols, fields) && s'.breaks == s.breaks && s'.continues
        == s.continues
  {
    if fields == [] {
      AdvancesReflexive(s);
    } else {
      var front := fields[..|fields| - 1];
      FieldsAdvance(s, front);
      var s1 := GenerateFields(s, front);
      FieldAdvances(s1, fields[|fields| - 1]);
      AdvancesTransitive(s, s1, GenerateField(s1, fields[|fields| - 1]));
    }
  }

  lemma BoundsCheckAdvances(s0: Generator, s: Generator, index: Operand, length: nat)
    requires Advances(s0, s)
    ensures var s' := GenerateBoundsCheck(s, index, length); Advances(s0, s') && SameScope(s, s')
  {
    hide Grows, Wf;
    var s1, trueBlock, falseBlock := BranchAdvances(s0, s, IfLess, true, index, Literal(Wrap(length)));
    FinishAdvances(s0, s1, Exit(-1), falseBlock);
  }

  lemma IndexAdvances(s: Generator, location: Ir.Location)
    requires Wf(s)
    ensures Advances(s, GenerateIndex(s, location).0) && SameScope(s, GenerateIndex(s, location).0)
  {
    AdvancesReflexive(s);
    if location.index.Some? {
      ExpressionAdvances(s, location.index.value);
      var (s1, index) := GenerateExpression(s, location.index.value);
      BoundsCheckAdvances(s, s1, index, |FieldOf(s.symbols, location.identifier).values|);
    }
  }

  lemma StoreAdvances(s0: Generator, s: Generator, location: Ir.Location, destination: string, index: Operand,
                      source: Operand)
    requires Advances(s0, s)
    ensures var s' := GenerateStore(s, location, destination, index, source); Advances(s0, s') && SameScope(s, s')
  {
    AppendAdvances(s0, s, ArrayUpdate(destination, index, source));
    AppendAdvances(s0, s, Unary(Move, destination, source));
  }

  lemma AssignmentAdvances(s: Generator, a: Ir.Assignment)
    requires Wf(s)
    ensures Advances(s, GenerateAssignment(s, a)) && SameScope(s, GenerateAssignment(s, a))
  {
    var destination := FieldOf(s.symbols, a.location.identifier).identifier;
    IndexAdvances(s, a.location);
    var (s1, index) := GenerateIndex(s, a.location);
    var (s2, source) := if a.expression.None? then (s1, Literal(1)) else GenerateExpression(s1, a.expression.value);
    if a.expression.Some? {
      ExpressionAdvances(s1, a.expression.value);
      AdvancesTransitive(s, s1, s2);
    }
    if a.op == Ir.Set {
      StoreAdvances(s, s2, a.location, destination, index, source);
    } else {
      var (s3, old_) := NewTemporary(s2, '$');
      var read := if a.location.index.Some? then ArrayAccess(old_, index, destination)
        else Unary(Move, old_, Field(destination));
      TemporaryAndAppend(s, s2, '$', read);
      var s4 := Append(s3, read);
      var (s5, d) := NewTemporary(s4, '$');
      var compute := Assignment.Binary(ToAssignment(Ir.Compound(a.op)), d, Field(old_), source);
      TemporaryAndAppend(s, s4, '$', compute);
      StoreAdvances(s, Append(s5, compute), a.location, destination, index, Field(d));
    }
  }

  lemma UpdateAdvances(s: Generator, u: Ir.ForUpdate)
    requires Wf(s)
    ensures Advances(s, GenerateUpdate(s, u)) && SameScope(s, GenerateUpdate(s, u))
  {
    match u
    case UpdateAssignment(a) => AssignmentAdvances(s, a);
    case UpdateCall(call) => CallAdvances(s, call);
  }

  // ----- statements -----

  lemma {:induction false} StatementAdvances(s: Generator, stmt: Ir.Statement)
    requires Wf(s)
    ensures Advances(s, GenerateStatement(s, stmt)) && SameScope(s, GenerateStatement(s, stmt))
    decreases stmt, 1
  {
    AdvancesReflexive(s);
    match stmt
    case Assign(a) => AssignmentAdvances(s, a);
    case CallStatement(call) => CallAdvances(s, call);
    case If(_, _, _) => IfAdvances(s, stmt);
    case For(_, _, _, _) => ForAdvances(s, stmt);
    case While(_, _) => WhileAdvances(s, stmt);
    case Return(value) =>
      if value.Some? {
        ExpressionAdvances(s, value.value);
        var (s1, source) := GenerateExpression(s, value.value);
        EndAdvances(s, s1, Terminal.Return(source));
      } else {
        EndAdvances(s, s, Terminal.Return(Literal(0)));
      }
    case Break => EndAdvances(s, s, Jump(Top(s.breaks)));
    case Continue => EndAdvances(s, s, Jump(Top(s.continues)));
  }

  lemma EndAdvances(s0: Generator, s: Generator, t: Terminal)
    requires Advances(s0, s)
    ensures Advances(s0, GenerateEnd(s, t)) && Grows(s, GenerateEnd(s, t)) && SameScope(s, GenerateEnd(s, t))
  {
    AdvancesReflexive(s);
    NewBlockAdvances(s0, s);
    NewBlockAdvances(s, s);
    FinishAdvances(s0, NewBlock(s).0, t, s.nextBlock);
    FinishAdvances(s, NewBlock(s).0, t, s.nextBlock);
  }

  lemma {:induction false} IfAdvances(s: Generator, stmt: Ir.Statement)
    requires Wf(s) && stmt.If?
    ensures Advances(s, GenerateIf(s, stmt)) && SameScope(s, GenerateIf(s, stmt))
    decreases stmt, 0
  {
    hide Grows, Wf;
    ExpressionAdvances(s, stmt.condition);
    var (s1, value) := GenerateExpression(s, stmt.condition);
    var s2, trueBlock, falseBlock := BranchAdvances(s, s1, IfEqual, false, value, Literal(0));
    BlockAdvances(s2, stmt.ifBlock);
    var s3 := GenerateBlock(s2, stmt.ifBlock);
    AdvancesTransitive(s, s2, s3);
    match stmt.elseBlock
    case None => FinishAdvances(s, s3, Jump(falseBlock), falseBlock);
    case Some(other) =>
      var (s4, endBlock) := NewBlock(s3);
      NewBlockAdvances(s, s3);
      var s5 := Finish(s4, Jump(endBlock), falseBlock);
      FinishAdvances(s, s4, Jump(endBlock), falseBlock);
      assert Pending(s5, endBlock);
      BlockAdvances(s5, other);
      var s6 := GenerateBlock(s5, other);
      AdvancesTransitive(s, s5, s6);
      FinishAdvances(s, s6, Jump(endBlock), endBlock);
  }

  /** The blocks of a loop are created and its condition block is entered. */
  lemma OpenForAdvances(s0: Generator, s: Generator)
    requires Advances(s0, s)
    ensures var n, s' := s.nextBlock, OpenFor(s);
      && Advances(s0, s') && Grows(s, s') && s0.nextBlock <= n
      && Pending(s', n + 1) && Pending(s', n + 2) && Pending(s', n + 3)
  {
    var n := s.nextBlock;
    var s4 := s.(nextBlock := n + 4);
    assert Advances(s0, s4) by {
      assert Grows(s, s4);
      GrowsTransitive(s0, s, s4);
    }
    ScopeChangeAdvances(s0, s4, PushLoop(s4, n + 3, n + 2));
    FinishAdvances(s0, PushLoop(s4, n + 3, n + 2), Jump(n), n);
    assert Grows(s, OpenFor(s));
  }

  lemma OpenWhileAdvances(s0: Generator, s: Generator)
    requires Advances(s0, s)
    ensures var n, s' := s.nextBlock, OpenWhile(s);
      && Advances(s0, s') && Grows(s, s') && s0.nextBlock <= n
      && Pending(s', n + 1) && Pending(s', n + 2)
  {
    var n := s.nextBlock;
    var s3 := s.(nextBlock := n + 3);
    assert Advances(s0, s3) by {
      assert Grows(s, s3);
      GrowsTransitive(s0, s, s3);
    }
    ScopeChangeAdvances(s0, s3, PushLoop(s3, n + 2, n));
    FinishAdvances(s0, PushLoop(s3, n + 2, n), Jump(n), n);
    assert Grows(s, OpenWhile(s));
  }

  /** Condition in the current block, body in `loopBlock`. */
  lemma {:induction false} RoundAdvances(s0: Generator, s: Generator, condition: Ir.Expression, body: Ir.Block,
                                         loopBlock: BlockId, endBlock: BlockId, other: BlockId)
    requires Advances(s0, s)
    requires Pending(s, loopBlock) && loopBlock >= s0.nextBlock
    requires Pending(s, endBlock) && endBlock != loopBlock && Pending(s, other) && other != loopBlock
    ensures var s1 := GenerateExpression(s, condition).0;
            var s2 := Finish(s1, SkipIfZero(GenerateExpression(s, condition).1, loopBlock, endBlock), loopBlock);
            var s3 := GenerateBlock(s2, body);
            && Advances(s0, s1) && Advances(s0, s2) && Advances(s0, s3) && SameScope(s, s3)
            && Grows(s2, s3) && Grows(s1, s2) && Grows(s, s1)
            && Pending(s3, endBlock) && Pending(s3, other)
    decreases body, 2
  {
    ExpressionAdvances(s, condition);
    var (s1, value) := GenerateExpression(s, condition);
    AdvancesTransitive(s0, s, s1);
    var t := SkipIfZero(value, loopBlock, endBlock);
    var s2 := Finish(s1, t, loopBlock);
    FinishAdvances(s0, s1, t, loopBlock);
    assert Pending(s2, endBlock) && Pending(s2, other);
    BlockAdvances(s2, body);
    AdvancesTransitive(s0, s2, GenerateBlock(s2, body));
  }

  lemma {:induction false} ForAdvances(s: Generator, stmt: Ir.Statement)
    requires Wf(s) && stmt.For?
    ensures Advances(s, GenerateFor(s, stmt)) && SameScope(s, GenerateFor(s, stmt))
    decreases stmt, 0
  {
    hide Grows, Wf, GenerateExpression, GenerateBlock, GenerateAssignment, GenerateUpdate, Untouched, SkipIfZero;
    AssignmentAdvances(s, stmt.initial);
    var s1 := GenerateAssignment(s, stmt.initial);
    var n := s1.nextBlock;
    OpenForAdvances(s, s1);
    RoundAdvances(s, OpenFor(s1), stmt.condition, stmt.body, n + 1, n + 3, n + 2);
    var (s2, value) := GenerateExpression(OpenFor(s1), stmt.condition);
    var s3 := GenerateBlock(Finish(s2, SkipIfZero(value, n + 1, n + 3), n + 1), stmt.body);
    ForTailAdvances(s, s3, stmt.update, n);
  }

  lemma ForTailAdvances(s0: Generator, s: Generator, update: Ir.ForUpdate, n: BlockId)
    requires Advances(s0, s) && Pending(s, n + 2) && Pending(s, n + 3) && n >= s0.nextBlock
    ensures var s1 := Finish(s, Jump(n + 2), n + 2);
            var s2 := GenerateUpdate(s1, update);
            var s3 := Finish(s2, Jump(n), n + 3);
            && Advances(s0, PopLoop(s3)) && Grows(s3, PopLoop(s3)) && Grows(s2, s3) && Grows(s1, s2) && Grows(s, s1)
            && Advances(s0, s1) && Advances(s0, s2) && Advances(s0, s3) && SameScope(s, s3)
  {
    var s1 := Finish(s, Jump(n + 2), n + 2);
    FinishAdvances(s0, s, Jump(n + 2), n + 2);
    assert Pending(s1, n + 3);
    UpdateAdvances(s1, update);
    var s2 := GenerateUpdate(s1, update);
    AdvancesTransitive(s0, s1, s2);
    FinishAdvances(s0, s2, Jump(n), n + 3);
    ScopeChangeAdvances(s0, Finish(s2, Jump(n), n + 3), PopLoop(Finish(s2, Jump(n), n + 3)));
  }

  lemma {:induction false} WhileAdvances(s: Generator, stmt: Ir.Statement)
    requires Wf(s) && stmt.While?
    ensures Advances(s, GenerateWhile(s, stmt)) && SameScope(s, GenerateWhile(s, stmt))
    decreases stmt, 0
  {
    hide Grows, Wf, GenerateExpression, GenerateBlock, GenerateAssignment, GenerateUpdate;
    AdvancesReflexive(s);
    var n := s.nextBlock;
    OpenWhileAdvances(s, s);
    RoundAdvances(s, OpenWhile(s), stmt.condition, stmt.body, n + 1, n + 2, n + 2);
    var (s1, value) := GenerateExpression(OpenWhile(s), stmt.condition);
    var s2 := GenerateBlock(Finish(s1, SkipIfZero(value, n + 1, n + 2), n + 1), stmt.body);
    FinishAdvances(s, s2, Jump(n), n + 2);
    ScopeChangeAdvances(s, Finish(s2, Jump(n), n + 2), PopLoop(Finish(s2, Jump(n), n + 2)));
  }

  lemma {:induction false} BlockAdvances(s: Generator, b: Ir.Block)
    requires Wf(s)
    ensures Advances(s, GenerateBlock(s, b)) && SameScope(s, GenerateBlock(s, b))
    decreases b, 1
  {
    var s1 := s.(symbols := s.symbols + [map[]]);
    AdvancesReflexive(s);
    ScopeChangeAdvances(s, s, s1);
    FieldsAdvance(s1, b.fields);
    var s2 := GenerateFields(s1, b.fields);
    AdvancesTransitive(s, s1, s2);
    StatementsAdvance(s2, b.statements);
    var s3 := GenerateStatements(s2, b.statements);
    AdvancesTransitive(s, s2, s3);
    ScopeChangeAdvances(s, s3, s3.(symbols := s.symbols));
  }

  lemma {:induction false} StatementsAdvance(s: Generator, statements: seq<Ir.Statement>)
    requires Wf(s)
    ensures Advances(s, GenerateStatements(s, statements)) && SameScope(s, GenerateStatements(s, statements))
    decreases statements, 1
  {
    AdvancesReflexive(s);
    if statements != [] {
      var s1 := GenerateStatement(s, statements[0]);
      StatementAdvances(s, statements[0]);
      StatementsAdvance(s1, statements[1..]);
      AdvancesTransitive(s, s1, GenerateStatements(s1, statements[1..]));
    }
  }
}
