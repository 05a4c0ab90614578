/** Lowering preserves meaning, expressions: running the generated assignments and blocks computes
    what the structured semantics computes. */
module ExpressionLowering {
  import opened Words
  import opened Worlds
  import opened Llir
  import opened Names
  import opened Lowering
  import opened LoweringStructure
  import opened Matching
  import opened Journeys
  import Ir

  /** The tables describe the scopes and the locals hold their variables. */
  ghost predicate Agrees(x: Setting, symbols: SymbolTables, frames: seq<Ir.Frame>, st: State) {
    && SameWorldView(x.src, x.ctx) && Shaped(x.src, symbols, frames) && Stored(frames, st.locals)
    && Ranged(x.ctx, symbols) && ArraysRanged(x)
  }

  /** The context knows every array the method declares. */
  ghost predicate ArraysRanged(x: Setting) {
    forall b, k :: b in x.g.blocks && 0 <= k < |x.g.blocks[b].fields| ==> FieldRanged(x.ctx, x.g.blocks[b].fields[k])
  }

  /** Between temporaries `n` and `n'`, value `v` was computed into operand `o`; nothing else changed. */
  ghost predicate Computed(x: Setting, n: nat, n': nat, o: Operand, frames: seq<Ir.Frame>, st: State, st': State,
                           v: Word, w: World) {
    && st'.world == w
    && Stored(frames, st'.locals)
    && o.Field? && OperandBelow(o, n') && Eval(x.ctx, st', o) == v
    && TemporariesKept(n, st.locals, st'.locals)
  }

  /** Running from `s` either arrives at `s'` with the result, or ends the same way. */
  ghost predicate Simulates(x: Setting, s: Generator, s': Generator, o: Operand, frames: seq<Ir.Frame>,
                            st: State, r: Ir.Result, st': State) {
    match r
    case Value(v, w) =>
      && Leads(x, Here(s), st, Arrives(Here(s'), st'))
      && Computed(x, s.temporaries, s'.temporaries, o, frames, st, st', v, w)
    case Halt(outcome) => Leads(x, Here(s), st, Ends(outcome))
    case Wrong => true
  }

  ghost predicate ArgumentsComputed(x: Setting, n: nat, n': nat, os: seq<Operand>, frames: seq<Ir.Frame>,
                                    st: State, st': State, values: seq<Argument>, w: World) {
    && st'.world == w
    && Stored(frames, st'.locals)
    && |os| == |values|
    && (forall i :: 0 <= i < |os| ==> OperandBelow(os[i], n') && EvalArgument(x.ctx, st', os[i]) == values[i])
    && TemporariesKept(n, st.locals, st'.locals)
  }

  ghost predicate SimulatesList(x: Setting, s: Generator, s': Generator, os: seq<Operand>, frames: seq<Ir.Frame>,
                                st: State, r: Ir.ListResult, st': State) {
    match r
    case Values(values, w) =>
      && Leads(x, Here(s), st, Arrives(Here(s'), st'))
      && ArgumentsComputed(x, s.temporaries, s'.temporaries, os, frames, st, st', values, w)
    case HaltList(outcome) => Leads(x, Here(s), st, Ends(outcome))
    case WrongList => true
  }

  /** The assignment that puts the result into a temporary taken since `s0`. */
  lemma TailRuns(x: Setting, s0: Generator, s: Generator, m: nat, prefix: char, a: Assignment, frames: seq<Ir.Frame>,
                 st0: State, st: State, v: Word, w: World) returns (st': State)
    requires IsTemporaryPrefix(prefix) && s0.temporaries <= m < s.temporaries
    requires Completes(x.g, Append(s, a))
    requires Agrees(x, s.symbols, frames, st) && TemporariesKept(s0.temporaries, st0.locals, st.locals)
    requires Leads(x, Here(s0), st0, Arrives(Here(s), st))
    requires Exec(x.ctx, a, st) == Next(Write(x.ctx, st.(world := w), TemporaryName(prefix, m), 0, v))
    ensures Leads(x, Here(s0), st0, Arrives(Here(Append(s, a)), st'))
    ensures Computed(x, s0.temporaries, s.temporaries, Field(TemporaryName(prefix, m)), frames, st0, st', v, w)
    ensures st' == Write(x.ctx, st.(world := w), TemporaryName(prefix, m), 0, v)
  {
    hide Ranged, ArraysRanged, Leads, Shaped, Stored, TemporaryName, Completes, TemporariesKept, OperandBelow,
      SameWorldView, Eval;
    AppendLeads(x, s, a, st);
    WriteTemporary(x.src, x.ctx, s.symbols, frames, st.(world := w), prefix, m, v);
    st' := Write(x.ctx, st.(world := w), TemporaryName(prefix, m), 0, v);
    KeptTransitive(s0.temporaries, m, st0.locals, st.locals, st'.locals);
    BelowLater(Field(TemporaryName(prefix, m)), m + 1, s.temporaries);
    Then(x, Here(s0), st0, Here(s), st, Arrives(Here(Append(s, a)), st'));
  }

  lemma StopRuns(x: Setting, s0: Generator, s: Generator, a: Assignment, st0: State, st: State, o: Outcome)
    requires Completes(x.g, Append(s, a))
    requires Leads(x, Here(s0), st0, Arrives(Here(s), st))
    requires Exec(x.ctx, a, st) == Stop(o)
    ensures Leads(x, Here(s0), st0, Ends(o))
  {
    hide Leads, Completes;
    AppendLeads(x, s, a, st);
    Then(x, Here(s0), st0, Here(s), st, Ends(o));
  }

  lemma OperatorsAgree(op: Ir.BinaryOperator, l: Word, r: Word)
    requires op != Ir.Or && op != Ir.And
    ensures ApplyBinary(ToAssignment(op), l, r) == Ir.Operate(op, l, r)
  {
  }

  lemma {:induction false} ExpressionRuns(x: Setting, s: Generator, e: Ir.Expression, frames: seq<Ir.Frame>,
                                          st: State) returns (st': State)
    requires Agrees(x, s.symbols, frames, st) && Wf(s) && Completes(x.g, GenerateExpression(s, e).0)
    ensures var (s', o) := GenerateExpression(s, e); Simulates(x, s, s', o, frames, st,
      Ir.Eval(x.src, e, frames, st.world), st')
    decreases e, 1
  {
    hide Ranged, ArraysRanged, Leads, Shaped, Stored, TemporaryName, Completes, Computed, Wf, Grows, Untouched,
      ApplyBinary, Ir.Operate;
    match e
    case Binary(op, l, r) =>
      if op == Ir.Or || op == Ir.And {
        st' := ShortCircuitRuns(x, s, e, frames, st);
      } else {
        st' := BinaryRuns(x, s, e, frames, st);
      }
    case Not(o) =>
      st' := UnaryRuns(x, s, o, UnaryOperator.Not, frames, st);
    case Negate(o) =>
      st' := UnaryRuns(x, s, o, UnaryOperator.Negate, frames, st);
    case Length(_, length) =>
      st' := ConstantRuns(x, s, length, frames, st);
    case Invoke(call) =>
      st' := CallRuns(x, s, call, frames, st);
    case Constant(l) =>
      st' := ConstantRuns(x, s, LiteralToInt64(l), frames, st);
      if Ir.LiteralInRange(l) { LiteralToInt64Exact(l); }
    case At(location) =>
      st' := LocationRuns(x, s, location, frames, st);
  }

  /** The state at the end of the generated code is complete only if every earlier one is. */
  lemma ExpressionCompletes(g: Graph, s: Generator, e: Ir.Expression)
    requires Wf(s) && Completes(g, GenerateExpression(s, e).0)
    ensures Completes(g, s)
  {
    hide GenerateExpression, Completes, Wf, Grows, Untouched;
    ExpressionAdvances(s, e);
    CompletesEarlier(g, s, GenerateExpression(s, e).0);
  }

  function UnaryResult(op: UnaryOperator, r: Ir.Result): Ir.Result {
    match r
    case Value(v, w) => Ir.Value(ApplyUnary(op, v), w)
    case other => other
  }

  lemma {:induction false} UnaryRuns(x: Setting, s: Generator, e: Ir.Expression, op: UnaryOperator,
                                     frames: seq<Ir.Frame>, st: State) returns (st': State)
    requires Agrees(x, s.symbols, frames, st) && Wf(s)
    requires var (s1, o) := GenerateExpression(s, e); var (s2, d) := NewTemporary(s1, '$');
             Completes(x.g, Append(s2, Unary(op, d, o)))
    ensures var (s1, o) := GenerateExpression(s, e); var (s2, d) := NewTemporary(s1, '$');
            Simulates(x, s, Append(s2, Unary(op, d, o)), Field(d), frames, st,
              UnaryResult(op, Ir.Eval(x.src, e, frames, st.world)), st')
    decreases e, 2
  {
    hide Ranged, ArraysRanged, Leads, Shaped, Stored, TemporaryName, Wf, Grows, Untouched, GenerateExpression,
      Ir.Eval, TemporariesKept, OperandBelow;
    var (s1, o) := GenerateExpression(s, e);
    var (s2, d) := NewTemporary(s1, '$');
    var a := Unary(op, d, o);
    AppendLeads(x, s2, a, st);
    ExpressionAdvances(s, e);
    st' := ExpressionRuns(x, s, e, frames, st);
    match Ir.Eval(x.src, e, frames, st.world)
    case Value(v, w) =>
      st' := TailRuns(x, s, s2, s1.temporaries, '$', a, frames, st, st', ApplyUnary(op, v), w);
    case _ =>
  }

  lemma {:induction false} ConstantRuns(x: Setting, s: Generator, v: Word, frames: seq<Ir.Frame>, st: State)
    returns (st': State)
    requires Agrees(x, s.symbols, frames, st)
    requires var (s1, d) := NewTemporary(s, '$'); Completes(x.g, Append(s1, Unary(Move, d, Literal(v))))
    ensures var (s1, d) := NewTemporary(s, '$');
            Simulates(x, s, Append(s1, Unary(Move, d, Literal(v))), Field(d), frames, st, Ir.Value(v, st.world), st')
  {
    hide Ranged, ArraysRanged, Leads, Shaped, Stored, TemporaryName, TemporariesKept, OperandBelow;
    var (s1, d) := NewTemporary(s, '$');
    var a := Unary(Move, d, Literal(v));
    AppendLeads(x, s1, a, st);
    Stay(x, Here(s), st);
    KeptReflexive(s.temporaries, st.locals);
    st' := TailRuns(x, s, s1, s.temporaries, '$', a, frames, st, st, v, st.world);
  }

  lemma KeptReflexive(n: nat, locals: Store)
    ensures TemporariesKept(n, locals, locals)
  {
  }

  lemma {:induction false} BinaryRuns(x: Setting, s: Generator, e: Ir.Expression, frames: seq<Ir.Frame>, st: State)
    returns (st': State)
    requires e.Binary? && e.op != Ir.Or && e.op != Ir.And
    requires Agrees(x, s.symbols, frames, st) && Wf(s) && Completes(x.g, GenerateExpression(s, e).0)
    ensures var (s', o) := GenerateExpression(s, e); Simulates(x, s, s', o, frames, st,
      Ir.Eval(x.src, e, frames, st.world), st')
    decreases e, 0
  {
    var (s1, left) := GenerateExpression(s, e.left);
    var (s2, right) := GenerateExpression(s1, e.right);
    var (s3, d) := NewTemporary(s2, '$');
    var a := Assignment.Binary(ToAssignment(e.op), d, left, right);
    assert GenerateExpression(s, e) == (Append(s3, a), Field(d));
    hide Ranged, ArraysRanged, Leads, Shaped, Stored, TemporaryName, Wf, Grows, Untouched, GenerateExpression,
      TemporariesKept, OperandBelow, ApplyBinary, Ir.Operate;
    hide SameWorldView;
    AppendLeads(x, s3, a, st);
    ExpressionAdvances(s, e.left);
    ExpressionCompletes(x.g, s1, e.right);
    st' := ExpressionRuns(x, s, e.left, frames, st);
    var r := Ir.Eval(x.src, e.left, frames, st.world);
    if r.Value? {
      var st1 := st';
      st' := ExpressionRuns(x, s1, e.right, frames, st1);
      ExpressionAdvances(s1, e.right);
      match Ir.Eval(x.src, e.right, frames, r.world)
      case Value(rv, w) =>
        OperandKept(x.src, x.ctx, left, s1.temporaries, st1, st');
        OperatorsAgree(e.op, r.word, rv);
        KeptTransitive(s.temporaries, s1.temporaries, st.locals, st1.locals, st'.locals);
        Then(x, Here(s), st, Here(s1), st1, Arrives(Here(s2), st'));
        if ApplyBinary(ToAssignment(e.op), r.word, rv).Some? {
          st' := TailRuns(x, s, s3, s2.temporaries, '$', a, frames, st, st',
            ApplyBinary(ToAssignment(e.op), r.word, rv).value, w);
        } else {
          StopRuns(x, s, s3, a, st, st', Trapped);
        }
      case Halt(o) => Then(x, Here(s), st, Here(s1), st1, Ends(o));
      case Wrong =>
    }
  }

  lemma {:induction false} LocationRuns(x: Setting, s: Generator, location: Ir.Location, frames: seq<Ir.Frame>,
                                        st: State) returns (st': State)
    requires Agrees(x, s.symbols, frames, st) && Wf(s) && Completes(x.g, GenerateLocation(s, location).0)
    ensures var (s', o) := GenerateLocation(s, location);
            Simulates(x, s, s', o, frames, st, Ir.Eval(x.src, Ir.At(location), frames, st.world), st')
    decreases location
  {
    hide Ranged, ArraysRanged, Leads, Shaped, Stored, TemporaryName, Wf, Grows, Untouched, GenerateExpression,
      TemporariesKept, OperandBelow;
    hide Ir.Bound, Ir.Fetch, FieldOf, SameWorldView;
    var field := FieldOf(s.symbols, location.identifier);
    var (s1, d) := NewTemporary(s, '$');
    KeptReflexive(s.temporaries, st.locals);
    var b := Ir.Bound(x.src, frames, location.identifier);
    st' := st;
    if location.index.None? {
      var a := Unary(Move, d, Field(field.identifier));
      AppendLeads(x, s1, a, st);
      Stay(x, Here(s), st);
      if Ir.InBounds(b, 0) && !b.isArray {
        ReadMatches(x.src, x.ctx, s.symbols, frames, st, location.identifier, 0);
        st' := TailRuns(x, s, s1, s.temporaries, '$', a, frames, st, st,
                        Ir.Fetch(x.src, frames, st.world, location.identifier, 0), st.world);
      }
    } else {
      var (s2, index) := GenerateExpression(s1, location.index.value);
      var a := ArrayAccess(d, index, field.identifier);
      TemporaryStep(x, s, '$', frames, st);
      AppendLeads(x, s2, a, st);
      ExpressionCompletes(x.g, s1, location.index.value);
      ExpressionAdvances(s1, location.index.value);
      st' := ExpressionRuns(x, s1, location.index.value, frames, st);
      match Ir.Eval(x.src, location.index.value, frames, st.world)
      case Value(i, w) =>
        if b.Unbound? || !b.isArray {
        } else if Ir.InBounds(b, i) {
          ReadMatches(x.src, x.ctx, s.symbols, frames, st', location.identifier, i);
          BoundRanged(x.src, x.ctx, s.symbols, frames, location.identifier, i);
          KeptTransitive(s.temporaries, s1.temporaries, st.locals, st.locals, st'.locals);
          st' := TailRuns(x, s, s2, s.temporaries, '$', a, frames, st, st',
            Ir.Fetch(x.src, frames, w, location.identifier, i), w);
        } else {
          StrayLeads(x, s, st);
        }
      case _ =>
    }
  }

  /** Taking a temporary generates no code. */
  lemma TemporaryStep(x: Setting, s: Generator, prefix: char, frames: seq<Ir.Frame>, st: State)
    requires Wf(s)
    ensures Wf(NewTemporary(s, prefix).0) && Here(NewTemporary(s, prefix).0) == Here(s)
    ensures Completes(x.g, NewTemporary(s, prefix).0) ==> Completes(x.g, s)
    ensures TemporariesKept(s.temporaries + 1, st.locals, st.locals)
  {
  }

  lemma {:induction false} CallRuns(x: Setting, s: Generator, call: Ir.MethodCall, frames: seq<Ir.Frame>, st: State)
    returns (st': State)
    requires Agrees(x, s.symbols, frames, st) && Wf(s) && Completes(x.g, GenerateCall(s, call).0)
    ensures var (s', o) := GenerateCall(s, call);
            Simulates(x, s, s', o, frames, st, Ir.Perform(x.src, call, frames, st.world), st')
    decreases call
  {
    hide Ranged, ArraysRanged, Leads, Shaped, Stored, TemporaryName, Wf, Grows, Untouched, GenerateArguments,
      TemporariesKept, OperandBelow, Ir.EvalList;
    var (s1, d) := NewTemporary(s, '$');
    var (s2, os) := GenerateArguments(s1, call.arguments);
    var a := Call(d, call.identifier, os);
    TemporaryStep(x, s, '$', frames, st);
    AppendLeads(x, s2, a, st);
    ArgumentsAdvance(s1, call.arguments);
    st' := ArgumentsRun(x, s1, call.arguments, frames, st);
    var r := Ir.EvalList(x.src, call.arguments, frames, st.world);
    if r.Values? {
      assert EvalArguments(x.ctx, st', os) == r.arguments;
      KeptTransitive(s.temporaries, s1.temporaries, st.locals, st.locals, st'.locals);
      match x.src.call(call.identifier, r.arguments, r.world)
      case None =>
      case Some(Returned(v, w)) => st' := TailRuns(x, s, s2, s.temporaries, '$', a, frames, st, st', v, w);
      case Some(Strayed) =>
        CompletesEarlier(x.g, s1, s2);
        StrayLeads(x, s, st);
      case Some(o) => StopRuns(x, s, s2, a, st, st', o);
    }
  }

  lemma {:induction false} ArgumentsRun(x: Setting, s: Generator, arguments: seq<Ir.CallArgument>,
                                        frames: seq<Ir.Frame>, st: State) returns (st': State)
    requires Agrees(x, s.symbols, frames, st) && Wf(s) && Completes(x.g, GenerateArguments(s, arguments).0)
    ensures var (s', os) := GenerateArguments(s, arguments);
            SimulatesList(x, s, s', os, frames, st, Ir.EvalList(x.src, arguments, frames, st.world), st')
    decreases arguments
  {
    hide Ranged, ArraysRanged, Leads, Shaped, Stored, TemporaryName, Wf, Grows, Untouched, GenerateArgument,
      TemporariesKept, OperandBelow, Ir.EvalCallArgument;
    if arguments == [] {
      st' := st;
      Stay(x, Here(s), st);
      KeptReflexive(s.temporaries, st.locals);
    } else {
      var (s1, first) := GenerateArgument(s, arguments[0]);
      var (s2, rest) := GenerateArguments(s1, arguments[1..]);
      ArgumentAdvances(s, arguments[0]);
      ArgumentsAdvance(s1, arguments[1..]);
      CompletesEarlier(x.g, s1, s2);
      st' := ArgumentRuns(x, s, arguments[0], frames, st);
      var r := Ir.EvalCallArgument(x.src, arguments[0], frames, st.world);
      if r.Values? {
        var st1 := st';
        st' := ArgumentsRun(x, s1, arguments[1..], frames, st1);
        match Ir.EvalList(x.src, arguments[1..], frames, r.world)
        case Values(values, w) =>
          Then(x, Here(s), st, Here(s1), st1, Arrives(Here(s2), st'));
          ArgumentsTogether(x, s.temporaries, s1.temporaries, s2.temporaries, first, rest, frames, st, st1, st',
            r.arguments, values, r.world, w);
        case HaltList(o) => Then(x, Here(s), st, Here(s1), st1, Ends(o));
        case WrongList =>
      }
    }
  }

  /** Later arguments leave the earlier ones as they are. */
  lemma ArgumentsTogether(x: Setting, n: nat, n1: nat, n2: nat, first: Operand, rest: seq<Operand>,
                          frames: seq<Ir.Frame>, st: State, st1: State, st2: State, value: seq<Argument>,
                          values: seq<Argument>, w1: World, w2: World)
    requires SameWorldView(x.src, x.ctx) && n <= n1 <= n2
    requires ArgumentsComputed(x, n, n1, [first], frames, st, st1, value, w1)
    requires ArgumentsComputed(x, n1, n2, rest, frames, st1, st2, values, w2)
    ensures ArgumentsComputed(x, n, n2, [first] + rest, frames, st, st2, value + values, w2)
  {
    hide SameWorldView, Stored, TemporaryName, TemporariesKept, OperandBelow;
    var os := [first];
    assert EvalArgument(x.ctx, st1, os[0]) == value[0] && OperandBelow(os[0], n1);
    OperandKept(x.src, x.ctx, first, n1, st1, st2);
    KeptTransitive(n, n1, st.locals, st1.locals, st2.locals);
    BelowLater(first, n1, n2);
  }

  lemma {:induction false} ArgumentRuns(x: Setting, s: Generator, argument: Ir.CallArgument, frames: seq<Ir.Frame>,
                                        st: State) returns (st': State)
    requires Agrees(x, s.symbols, frames, st) && Wf(s) && Completes(x.g, GenerateArgument(s, argument).0)
    ensures var (s', o) := GenerateArgument(s, argument);
            SimulatesList(x, s, s', [o], frames, st, Ir.EvalCallArgument(x.src, argument, frames, st.world), st')
    decreases argument
  {
    hide Ranged, ArraysRanged, Leads, Shaped, Stored, TemporaryName, Wf, Grows, Untouched, TemporariesKept,
      GenerateExpression, Ir.Eval;
    match argument
    case StringArgument(_) =>
      st' := st;
      Stay(x, Here(s), st);
      KeptReflexive(s.temporaries, st.locals);
    case ValueArgument(e) =>
      st' := ExpressionRuns(x, s, e, frames, st);
  }

  lemma {:induction false} ShortCircuitRuns(x: Setting, s: Generator, e: Ir.Expression, frames: seq<Ir.Frame>,
                                            st: State) returns (st': State)
    requires e.Binary? && (e.op == Ir.Or || e.op == Ir.And)
    requires Agrees(x, s.symbols, frames, st) && Wf(s) && Completes(x.g, GenerateShortCircuit(s, e).0)
    ensures var (s', o) := GenerateShortCircuit(s, e); Simulates(x, s, s', o, frames, st,
      Ir.Eval(x.src, e, frames, st.world), st')
    decreases e, 0
  {
    hide Ranged, ArraysRanged, Leads, Shaped, Stored, TemporaryName, Wf, Grows, Untouched, GenerateExpression,
      TemporariesKept, OperandBelow, SameWorldView, Completes;
    var (s1, d) := NewTemporary(s, '#');
    var (s2, left) := GenerateExpression(s1, e.left);
    var move := Unary(Move, d, left);
    var s3 := Append(s2, move);
    var n := s3.nextBlock;
    var t := Branch(if e.op == Ir.Or then IfEqual else IfNotEqual, false, left, Literal(1), n, n + 1);
    var ready := NewBlock(NewBlock(s3).0).0;
    var s4 := Finish(ready, t, n);
    TemporaryStep(x, s, '#', frames, st);
    ExpressionAdvances(s1, e.left);
    ShortCircuitParts(x.g, s2, move, t, e.right, s.temporaries);
    st' := ExpressionRuns(x, s1, e.left, frames, st);
    var r := Ir.Eval(x.src, e.left, frames, st.world);
    if r.Value? && Ir.IsBool(r.word) {
      KeptTransitive(s.temporaries, s1.temporaries, st.locals, st.locals, st'.locals);
      var before := st';
      st' := TailRuns(x, s, s2, s.temporaries, '#', move, frames, st, before, r.word, r.world);
      TemporaryIsNotGlobal(x.src, x.ctx, '#', s.temporaries);
      MovedOperand(x, left, before, d, r.word);
      assert Here(ready) == Here(s3);
      BranchLeads(x, ready, t, n, st');
      Then(x, Here(s), st, Here(s3), st', Arrives(Position(Chosen(x.ctx, t, st'), 0), st'));
      if (e.op == Ir.Or) == (r.word == 1) {
        var s' := GenerateShortCircuit(s, e).0;
        ExpressionAdvances(s4, e.right);
        assert Here(s') == Position(n + 1, 0);
        BelowLater(Field(d), s2.temporaries, s'.temporaries);
      } else {
        st' := RightRuns(x, s, s4, e.right, s.temporaries, n + 1, frames, st, st');
      }
    }
  }

  /** Moving an operand's value leaves the operand's own value as it was. */
  lemma MovedOperand(x: Setting, o: Operand, st: State, d: string, v: Word)
    requires d !in x.ctx.globals && o.Field? && Eval(x.ctx, st, o) == v
    ensures Eval(x.ctx, Write(x.ctx, st, d, 0, v), o) == v
  {
  }

  lemma ShortCircuitParts(g: Graph, s: Generator, a: Assignment, t: Terminal, right: Ir.Expression, m: nat)
    requires Wf(s) && t.Branch? && t.trueBlock == s.nextBlock && t.falseBlock == s.nextBlock + 1
    requires var ready := NewBlock(NewBlock(Append(s, a)).0).0;
             var (s1, o) := GenerateExpression(Finish(ready, t, s.nextBlock), right);
             Completes(g, Finish(Append(s1, Unary(Move, TemporaryName('#', m), o)), Jump(s.nextBlock + 1),
               s.nextBlock + 1))
    ensures var ready := NewBlock(NewBlock(Append(s, a)).0).0;
            && ready.current !in ready.finished && Wf(Finish(ready, t, s.nextBlock))
              && Completes(g, Finish(ready, t, s.nextBlock))
            && Completes(g, Append(s, a)) && Completes(g, s)
  {
    hide GenerateExpression, TemporaryName, Grows, Untouched, Closed;
    var ready := NewBlock(NewBlock(Append(s, a)).0).0;
    var s0 := Finish(ready, t, s.nextBlock);
    ExpressionAdvances(s0, right);
    var (s1, o) := GenerateExpression(s0, right);
    assert Completes(g, s1);
    ExpressionCompletes(g, s0, right);
    assert Completes(g, ready);
  }

  /** The right operand goes to the same temporary, and on to where the short cut leads. */
  lemma {:induction false} RightRuns(x: Setting, s0: Generator, s: Generator, e: Ir.Expression, m: nat, next: BlockId,
                                     frames: seq<Ir.Frame>, st0: State, st: State) returns (st': State)
    requires Agrees(x, s.symbols, frames, st) && Wf(s) && s0.temporaries <= m < s.temporaries
    requires TemporariesKept(s0.temporaries, st0.locals, st.locals)
    requires Leads(x, Here(s0), st0, Arrives(Here(s), st))
    requires var (s1, o) := GenerateExpression(s, e);
             Completes(x.g, Finish(Append(s1, Unary(Move, TemporaryName('#', m), o)), Jump(next), next))
    ensures var (s1, o) := GenerateExpression(s, e);
            Simulates(x, s0, Finish(Append(s1, Unary(Move, TemporaryName('#', m), o)), Jump(next), next),
              Field(TemporaryName('#', m)),
                      frames, st0, Ir.Eval(x.src, e, frames, st.world), st')
    decreases e, 2
  {
    hide Ranged, ArraysRanged, Leads, Shaped, Stored, TemporaryName, Grows, Untouched, GenerateExpression,
      TemporariesKept, OperandBelow, SameWorldView, Completes;
    hide Ir.Eval;
    var (s1, o) := GenerateExpression(s, e);
    var move := Unary(Move, TemporaryName('#', m), o);
    var s2 := Append(s1, move);
    ExpressionAdvances(s, e);
    JumpLeads(x, s2, next, next, st);
    AppendLeads(x, s1, move, st);
    st' := ExpressionRuns(x, s, e, frames, st);
    match Ir.Eval(x.src, e, frames, st.world)
    case Value(v, w) =>
      Then(x, Here(s0), st0, Here(s), st, Arrives(Here(s1), st'));
      KeptTransitive(s0.temporaries, s.temporaries, st0.locals, st.locals, st'.locals);
      st' := TailRuns(x, s0, s1, m, '#', move, frames, st0, st', v, w);
      JumpLeads(x, s2, next, next, st');
      Then(x, Here(s0), st0, Here(s2), st', Arrives(Position(next, 0), st'));
    case Halt(outcome) => Then(x, Here(s0), st0, Here(s), st, Ends(outcome));
    case Wrong =>
  }
}
