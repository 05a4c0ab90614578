/** Each construct of the language is generated soundly: by induction over the structured program. */
module SoundGeneration {
  import opened Words
  import opened Worlds
  import opened Llir
  import opened Names
  import opened Lowering
  import opened LoweringStructure
  import opened Rewriting
  import opened GeneratedGraphs
  import DeadCode
  import Ir

  // ----- what the symbol tables promise -----

  ghost predicate FieldVisible(rules: Rules, f: FieldDeclaration, s: Generator, plan: Plan) {
    && Named(rules, s, f.identifier) && f.identifier in Available(s, plan)
    && (f.isArray ==> Declared(rules.globals, s, f.identifier))
  }

  /** Every variable in scope has been initialized, every array in scope declared. */
  ghost predicate Visible(rules: Rules, symbols: SymbolTables, s: Generator, plan: Plan) {
    forall k, id :: 0 <= k < |symbols| && id in symbols[k] ==> FieldVisible(rules, symbols[k][id], s, plan)
  }

  lemma {:induction false} LookupVisible(rules: Rules, symbols: SymbolTables, s: Generator, plan: Plan,
                                         identifier: string)
    requires Visible(rules, symbols, s, plan) && Lookup(symbols, identifier).Some?
    ensures FieldVisible(rules, FieldOf(symbols, identifier), s, plan)
    decreases |symbols|
  {
    hide FieldVisible;
    if identifier !in symbols[|symbols| - 1] {
      LookupVisible(rules, symbols[..|symbols| - 1], s, plan, identifier);
    }
  }

  lemma VisibleLater(rules: Rules, symbols: SymbolTables, s: Generator, plan: Plan, s': Generator, plan': Plan,
                     waiting: set<BlockId>)
    requires Visible(rules, symbols, s, plan) && Extends(rules, s, plan, s', plan', waiting)
    ensures Visible(rules, symbols, s', plan')
  {
    hide Sound, Wf, Untouched, Closing, SamePlan, Declared, Named, Grows, Available;
    forall k, id | 0 <= k < |symbols| && id in symbols[k] ensures FieldVisible(rules, symbols[k][id], s', plan') {
      assert FieldVisible(rules, symbols[k][id], s, plan);
      NamedLater(rules, s, s', symbols[k][id].identifier);
      if symbols[k][id].isArray { DeclaredLater(rules.globals, s, s', symbols[k][id].identifier); }
    }
  }

  /** Only parameters are fixed. */
  ghost predicate FixedParameters(fixed: set<string>) {
    forall n :: n in fixed ==> exists id :: ValidIdentifier(id) && n == FieldName(id, 1)
  }

  lemma TemporariesFree(fixed: set<string>, prefix: char, n: nat)
    requires FixedParameters(fixed) && (prefix == '$' || prefix == '#')
    ensures TemporaryName(prefix, n) !in fixed
  {
    hide FieldName, TemporaryName, ValidIdentifier;
    if TemporaryName(prefix, n) in fixed {
      var id :| ValidIdentifier(id) && TemporaryName(prefix, n) == FieldName(id, 1);
      TemporaryNameFresh(prefix, n, id, 1);
    }
  }

  lemma InnerNamesFree(fixed: set<string>, identifier: string, level: nat)
    requires FixedParameters(fixed) && ValidIdentifier(identifier) && level != 1
    ensures FieldName(identifier, level) !in fixed
  {
    hide FieldName, ValidIdentifier;
    if FieldName(identifier, level) in fixed {
      var id :| ValidIdentifier(id) && FieldName(identifier, level) == FieldName(id, 1);
      FieldNameInjective(identifier, level, id, 1);
    }
  }

  lemma NamedThrough(rules: Rules, s: Generator, plan: Plan, s': Generator, plan': Plan, waiting: set<BlockId>,
                     name: string)
    requires Extends(rules, s, plan, s', plan', waiting) && Named(rules, s, name)
    ensures Named(rules, s', name)
  {
    NamedLater(rules, s, s', name);
  }

  lemma AppendKeepsNames(rules: Rules, s: Generator, a: Assignment, name: string)
    requires Named(rules, s, name)
    ensures Named(rules, Append(s, a), name)
  {
  }

  lemma VisibleNamed(rules: Rules, f: FieldDeclaration, s: Generator, plan: Plan)
    requires FieldVisible(rules, f, s, plan)
    ensures Named(rules, s, f.identifier)
  {
  }

  // ----- compound steps -----

  ghost predicate OperandReady(o: Operand, s: Generator, plan: Plan) {
    !o.Text? && (o.Field? ==> o.name in Available(s, plan))
  }

  lemma TemporarySound(rules: Rules, s0: Generator, p0: Plan, s: Generator, plan: Plan, prefix: char,
                       waiting: set<BlockId>)
    requires Extends(rules, s0, p0, s, plan, waiting) && (prefix == '$' || prefix == '#')
    ensures Extends(rules, s0, p0, NewTemporary(s, prefix).0, plan, waiting)
    ensures Available(NewTemporary(s, prefix).0, plan) == Available(s, plan)
    ensures Named(rules, NewTemporary(s, prefix).0, NewTemporary(s, prefix).1)
  {
    TemporaryNamed(rules, s, prefix);
    hide Sound, Untouched, Closing, SamePlan, Available, Grows, Named, FieldOk;
    NewTemporaryAdvances(s0, s, prefix);
    QuietStepSound(rules, s0, p0, s, plan, NewTemporary(s, prefix).0, waiting);
  }

  /** A temporary is declared where it is taken, and is no global. */
  lemma TemporaryNamed(rules: Rules, s: Generator, prefix: char)
    requires prefix == '$' || prefix == '#'
    ensures var (s', name) := NewTemporary(s, prefix); Named(rules, s', name) && FieldOk(s'.fields[|s.fields|])
  {
    var (s', name) := NewTemporary(s, prefix);
    assert s'.fields[|s.fields|].identifier == name;
    assert name in DeadCode.GlobalNames(s'.fields);
    assert name[0] == prefix;
  }

  /** An assignment to a temporary, with operands that are ready. */
  lemma ResultSound(rules: Rules, s0: Generator, p0: Plan, s: Generator, plan: Plan, prefix: char, n: nat,
                    a: Assignment, waiting: set<BlockId>)
    requires FixedParameters(rules.fixed) && (prefix == '$' || prefix == '#')
    requires Extends(rules, s0, p0, s, plan, waiting)
    requires a.destination == TemporaryName(prefix, n) && OperandsIn(Operands(a), Available(s, plan))
    requires AssignmentNamed(rules, s, a)
    ensures Extends(rules, s0, p0, Append(s, a), plan, waiting)
    ensures Available(Append(s, a), plan) == Available(s, plan) + {a.destination}
  {
    hide Sound, Grows, Wf, Untouched, Closing, SamePlan, Available, TemporaryName, FixedParameters, Extends,
      AssignmentNamed;
    TemporariesFree(rules.fixed, prefix, n);
    AppendSound(rules, s0, p0, s, plan, a, waiting);
  }

  lemma SoundWf(rules: Rules, s: Generator, plan: Plan)
    requires Sound(rules, s, plan)
    ensures Wf(s)
  {
  }

  function Branched(s: Generator, c: Comparison, isUnsigned: bool, l: Operand, r: Operand): Generator {
    var n := s.nextBlock;
    Finish(NewBlock(NewBlock(s).0).0, Branch(c, isUnsigned, l, r, n, n + 1), n)
  }

  /** Two new blocks that may use all that is available, and a branch to them. */
  lemma BranchSound(rules: Rules, s0: Generator, p0: Plan, s: Generator, plan: Plan, c: Comparison, isUnsigned: bool,
                    l: Operand, r: Operand, waiting: set<BlockId>) returns (plan': Plan)
    requires Extends(rules, s0, p0, s, plan, waiting) && OperandReady(l, s, plan) && OperandReady(r, s, plan)
    ensures Extends(rules, s0, p0, Branched(s, c, isUnsigned, l, r), plan', waiting + {s.nextBlock + 1})
    ensures Available(Branched(s, c, isUnsigned, l, r), plan') == Available(s, plan)
    ensures Pending(Branched(s, c, isUnsigned, l, r), s.nextBlock + 1) && s.nextBlock + 1 >= s0.nextBlock
    ensures s.nextBlock + 1 in plan' && plan'[s.nextBlock + 1] == Available(s, plan) && SamePlan(plan, plan')
    ensures forall n :: Named(rules, s, n) ==> Named(rules, Branched(s, c, isUnsigned, l, r), n)
  {
    hide Sound, Grows, Wf, Untouched, Available, Closing, Named;
    var n, names := s.nextBlock, Available(s, plan);
    NewBlockSound(rules, s0, p0, s, plan, names, waiting);
    var s1, p1 := NewBlock(s).0, plan[n := names];
    NewBlockSound(rules, s0, p0, s1, p1, names, waiting + {n});
    var s2, p2 := NewBlock(s1).0, p1[n + 1 := names];
    var t := Branch(c, isUnsigned, l, r, n, n + 1);
    assert p2[n] == names;
    FinishSound(rules, s0, p0, s2, p2, t, n, waiting + {n} + {n + 1});
    ClosingOnly(rules, s0, p0, Finish(s2, t, n), p2, waiting + {n} + {n + 1} - {n}, waiting + {n + 1});
    forall name | Named(rules, s, name) ensures Named(rules, Branched(s, c, isUnsigned, l, r), name) {
      AdvancesReflexive(s) by { SoundWf(rules, s, plan); }
      var s3, tb, fb := BranchAdvances(s, s, c, isUnsigned, l, r);
      NamedLater(rules, s, s3, name);
    }
    plan' := p2;
  }

  lemma ClosingOnly(rules: Rules, s: Generator, plan: Plan, s': Generator, plan': Plan, waiting: set<BlockId>,
                    waiting': set<BlockId>)
    requires Extends(rules, s, plan, s', plan', waiting) && waiting <= waiting'
    ensures Extends(rules, s, plan, s', plan', waiting')
  {
    hide Sound, Grows, Wf, Untouched, Available, SamePlan;
  }

  // ----- expressions -----

  ghost predicate Prepared(rules: Rules, s: Generator, plan: Plan) {
    Sound(rules, s, plan) && Visible(rules, s.symbols, s, plan) && FixedParameters(rules.fixed)
  }

  lemma PreparedLater(rules: Rules, s: Generator, plan: Plan, s': Generator, plan': Plan, waiting: set<BlockId>)
    requires Prepared(rules, s, plan) && Extends(rules, s, plan, s', plan', waiting) && s'.symbols == s.symbols
    ensures Prepared(rules, s', plan')
  {
    hide Sound, Visible, FixedParameters, Grows, Wf, Untouched, Available, SamePlan, Closing;
    VisibleLater(rules, s.symbols, s, plan, s', plan', waiting);
  }

  lemma {:induction false} ExpressionSound(rules: Rules, s: Generator, plan: Plan, e: Ir.Expression)
    returns (plan': Plan)
    requires Prepared(rules, s, plan) && ScopedExpression(s.symbols, e)
    ensures var (s', o) := GenerateExpression(s, e);
            Extends(rules, s, plan, s', plan', {}) && o.Field? && OperandReady(o, s', plan') && s'.symbols == s.symbols
    decreases e, 2
  {
    hide Sound, Visible, FixedParameters, Grows, Wf, Untouched, Available, SamePlan, Closing, Advances, TemporaryName;
    match e
    case Binary(op, l, r) =>
      if op == Ir.Or || op == Ir.And {
        plan' := ShortCircuitSound(rules, s, plan, e);
      } else {
        plan' := BinarySound(rules, s, plan, e);
      }
    case Not(o) => plan' := UnarySound(rules, s, plan, o, UnaryOperator.Not);
    case Negate(o) => plan' := UnarySound(rules, s, plan, o, UnaryOperator.Negate);
    case Length(_, length) => plan' := ConstantSound(rules, s, plan, length);
    case Invoke(call) => plan' := CallSound(rules, s, plan, call);
    case Constant(l) => plan' := ConstantSound(rules, s, plan, LiteralToInt64(l));
    case At(location) => plan' := LocationSound(rules, s, plan, location);
  }

  lemma {:induction false} UnarySound(rules: Rules, s: Generator, plan: Plan, e: Ir.Expression, op: UnaryOperator)
    returns (plan': Plan)
    requires Prepared(rules, s, plan) && ScopedExpression(s.symbols, e)
    ensures var (s1, o) := GenerateExpression(s, e);
            var (s2, d) := NewTemporary(s1, '$');
            var s' := Append(s2, Unary(op, d, o));
            Extends(rules, s, plan, s', plan', {}) && OperandReady(Field(d), s', plan') && s'.symbols == s.symbols
    decreases e, 3
  {
    hide Sound, Visible, FixedParameters, Grows, Wf, Untouched, Available, SamePlan, Closing, Advances,
      TemporaryName, GenerateExpression, Extends;
    var (s1, o) := GenerateExpression(s, e);
    var (s2, d) := NewTemporary(s1, '$');
    plan' := ExpressionSound(rules, s, plan, e);
    TemporarySound(rules, s, plan, s1, plan', '$', {});
    ResultSound(rules, s, plan, s2, plan', '$', s1.temporaries, Unary(op, d, o), {});
  }

  lemma {:induction false} ConstantSound(rules: Rules, s: Generator, plan: Plan, v: Word) returns (plan': Plan)
    requires Prepared(rules, s, plan)
    ensures var (s1, d) := NewTemporary(s, '$');
            var s' := Append(s1, Unary(Move, d, Literal(v)));
            Extends(rules, s, plan, s', plan', {}) && OperandReady(Field(d), s', plan') && s'.symbols == s.symbols
  {
    hide Sound, Visible, FixedParameters, Grows, Wf, Untouched, Available, SamePlan, Closing, Advances,
      TemporaryName, Extends;
    plan' := plan;
    var (s1, d) := NewTemporary(s, '$');
    ExtendsReflexive(rules, s, plan);
    TemporarySound(rules, s, plan, s, plan, '$', {});
    ResultSound(rules, s, plan, s1, plan, '$', s.temporaries, Unary(Move, d, Literal(v)), {});
  }

  /** Two operands, one after the other: both are there at the end. */
  lemma {:induction false} OperandsSound(rules: Rules, s: Generator, plan: Plan, parent: Ir.Expression,
                                         l: Ir.Expression, r: Ir.Expression) returns (plan': Plan)
    requires l < parent && r < parent
    requires Prepared(rules, s, plan) && ScopedExpression(s.symbols, l) && ScopedExpression(s.symbols, r)
    ensures var (s1, left) := GenerateExpression(s, l);
            var (s2, right) := GenerateExpression(s1, r);
      && Extends(rules, s, plan, s2, plan', {}) && s2.symbols == s.symbols
      && OperandReady(left, s2, plan') && OperandReady(right, s2, plan')
    decreases parent, 0
  {
    hide Sound, Visible, FixedParameters, Grows, Wf, Untouched, Available, SamePlan, Closing, GenerateExpression;
    var (s1, left) := GenerateExpression(s, l);
    var (s2, right) := GenerateExpression(s1, r);
    var p1 := ExpressionSound(rules, s, plan, l);
    PreparedLater(rules, s, plan, s1, p1, {});
    plan' := ExpressionSound(rules, s1, p1, r);
    assert OperandReady(left, s2, plan');
    ExtendsTransitive(rules, s, plan, s1, p1, s2, plan', {});
  }

  lemma {:induction false} BinarySound(rules: Rules, s: Generator, plan: Plan, e: Ir.Expression) returns (plan': Plan)
    requires e.Binary? && e.op != Ir.Or && e.op != Ir.And
    requires Prepared(rules, s, plan) && ScopedExpression(s.symbols, e)
    ensures var (s', o) := GenerateExpression(s, e);
            Extends(rules, s, plan, s', plan', {}) && o.Field? && OperandReady(o, s', plan') && s'.symbols == s.symbols
    decreases e, 1
  {
    var (s1, left) := GenerateExpression(s, e.left);
    var (s2, right) := GenerateExpression(s1, e.right);
    var (s3, d) := NewTemporary(s2, '$');
    var a := Assignment.Binary(ToAssignment(e.op), d, left, right);
    assert GenerateExpression(s, e) == (Append(s3, a), Field(d));
    hide Sound, Visible, FixedParameters, Grows, Wf, Untouched, Available, SamePlan, Closing, Advances,
      TemporaryName, GenerateExpression;
    plan' := OperandsSound(rules, s, plan, e, e.left, e.right);
    TemporarySound(rules, s, plan, s2, plan', '$', {});
    ResultSound(rules, s, plan, s3, plan', '$', s2.temporaries, a, {});
  }

  lemma {:induction false} LocationSound(rules: Rules, s: Generator, plan: Plan, location: Ir.Location)
    returns (plan': Plan)
    requires Prepared(rules, s, plan) && ScopedLocation(s.symbols, location)
    ensures var (s', o) := GenerateLocation(s, location);
            Extends(rules, s, plan, s', plan', {}) && o.Field? && OperandReady(o, s', plan') && s'.symbols == s.symbols
    decreases location
  {
    hide Sound, Visible, FixedParameters, Grows, Wf, Untouched, Available, SamePlan, Closing, Advances,
      TemporaryName, GenerateExpression, Lookup, FieldOf, Declared;
    var field := FieldOf(s.symbols, location.identifier);
    LookupVisible(rules, s.symbols, s, plan, location.identifier);
    var (s1, d) := NewTemporary(s, '$');
    ExtendsReflexive(rules, s, plan);
    TemporarySound(rules, s, plan, s, plan, '$', {});
    if location.index.None? {
      plan' := plan;
      ResultSound(rules, s, plan, s1, plan, '$', s.temporaries, Unary(Move, d, Field(field.identifier)), {});
    } else {
      PreparedLater(rules, s, plan, s1, plan, {});
      var (s2, index) := GenerateExpression(s1, location.index.value);
      plan' := ExpressionSound(rules, s1, plan, location.index.value);
      ExtendsTransitive(rules, s, plan, s1, plan, s2, plan', {});
      FieldVisibleLater(rules, field, s, plan, s2, plan', {});
      NamedThrough(rules, s1, plan, s2, plan', {}, d);
      ResultSound(rules, s, plan, s2, plan', '$', s.temporaries, ArrayAccess(d, index, field.identifier), {});
    }
  }

  lemma FieldVisibleLater(rules: Rules, f: FieldDeclaration, s: Generator, plan: Plan, s': Generator, plan': Plan,
                          waiting: set<BlockId>)
    requires FieldVisible(rules, f, s, plan) && Extends(rules, s, plan, s', plan', waiting)
    ensures FieldVisible(rules, f, s', plan')
  {
    hide Sound, Wf, Untouched, Closing, SamePlan, Declared, Named, Grows, Available;
    NamedLater(rules, s, s', f.identifier);
    if f.isArray { DeclaredLater(rules.globals, s, s', f.identifier); }
  }

  lemma {:induction false} CallSound(rules: Rules, s: Generator, plan: Plan, call: Ir.MethodCall) returns (plan': Plan)
    requires Prepared(rules, s, plan) && ScopedCall(s.symbols, call)
    ensures var (s', o) := GenerateCall(s, call);
            Extends(rules, s, plan, s', plan', {}) && o.Field? && OperandReady(o, s', plan') && s'.symbols == s.symbols
    decreases call
  {
    hide Sound, Visible, FixedParameters, Grows, Wf, Untouched, Available, SamePlan, Closing, Advances,
      TemporaryName, GenerateArguments;
    var (s1, d) := NewTemporary(s, '$');
    var (s2, os) := GenerateArguments(s1, call.arguments);
    ExtendsReflexive(rules, s, plan);
    TemporarySound(rules, s, plan, s, plan, '$', {});
    PreparedLater(rules, s, plan, s1, plan, {});
    plan' := ArgumentsSound(rules, s1, plan, call.arguments);
    ExtendsTransitive(rules, s, plan, s1, plan, s2, plan', {});
    NamedThrough(rules, s1, plan, s2, plan', {}, d);
    ResultSound(rules, s, plan, s2, plan', '$', s.temporaries, Call(d, call.identifier, os), {});
  }

  lemma {:induction false} ArgumentsSound(rules: Rules, s: Generator, plan: Plan, arguments: seq<Ir.CallArgument>)
    returns (plan': Plan)
    requires Prepared(rules, s, plan) && ScopedArguments(s.symbols, arguments)
    ensures var (s', os) := GenerateArguments(s, arguments);
            Extends(rules, s, plan, s', plan', {}) && OperandsIn(os, Available(s', plan')) && s'.symbols == s.symbols
    decreases arguments
  {
    hide Sound, Visible, FixedParameters, Grows, Wf, Untouched, Available, SamePlan, Closing, Advances,
      GenerateArgument;
    if arguments == [] {
      plan' := plan;
      ExtendsReflexive(rules, s, plan);
    } else {
      var (s1, first) := GenerateArgument(s, arguments[0]);
      var (s2, rest) := GenerateArguments(s1, arguments[1..]);
      var p1 := ArgumentSound(rules, s, plan, arguments[0]);
      PreparedLater(rules, s, plan, s1, p1, {});
      plan' := ArgumentsSound(rules, s1, p1, arguments[1..]);
      ExtendsTransitive(rules, s, plan, s1, p1, s2, plan', {});
    }
  }

  lemma {:induction false} ArgumentSound(rules: Rules, s: Generator, plan: Plan, argument: Ir.CallArgument)
    returns (plan': Plan)
    requires Prepared(rules, s, plan) && ScopedArgument(s.symbols, argument)
    ensures var (s', o) := GenerateArgument(s, argument);
            Extends(rules, s, plan, s', plan', {}) && OperandsIn([o], Available(s', plan')) && s'.symbols == s.symbols
    decreases argument
  {
    hide Sound, Visible, FixedParameters, Grows, Wf, Untouched, Available, SamePlan, Closing, Advances, Extends,
      GenerateExpression;
    match argument
    case StringArgument(_) =>
      plan' := plan;
      ExtendsReflexive(rules, s, plan);
    case ValueArgument(e) => plan' := ExpressionSound(rules, s, plan, e);
  }

  lemma {:induction false} ShortCircuitSound(rules: Rules, s: Generator, plan: Plan, e: Ir.Expression)
    returns (plan': Plan)
    requires e.Binary? && (e.op == Ir.Or || e.op == Ir.And)
    requires Prepared(rules, s, plan) && ScopedExpression(s.symbols, e)
    ensures var (s', o) := GenerateShortCircuit(s, e);
            Extends(rules, s, plan, s', plan', {}) && o.Field? && OperandReady(o, s', plan') && s'.symbols == s.symbols
    decreases e, 0
  {
    hide Sound, Visible, FixedParameters, Grows, Wf, Available, Closing, TemporaryName, GenerateExpression;
    var (s1, d) := NewTemporary(s, '#');
    ExtendsReflexive(rules, s, plan);
    TemporarySound(rules, s, plan, s, plan, '#', {});
    PreparedLater(rules, s, plan, s1, plan, {});
    var (s2, left) := GenerateExpression(s1, e.left);
    var p2 := ExpressionSound(rules, s1, plan, e.left);
    ExtendsTransitive(rules, s, plan, s1, plan, s2, p2, {});
    var s3 := Append(s2, Unary(Move, d, left));
    NamedThrough(rules, s1, plan, s2, p2, {}, d);
    ResultSound(rules, s, plan, s2, p2, '#', s.temporaries, Unary(Move, d, left), {});
    AppendKeepsNames(rules, s2, Unary(Move, d, left), d);
    var n := s3.nextBlock;
    var c := if e.op == Ir.Or then IfEqual else IfNotEqual;
    var p3 := BranchSound(rules, s, plan, s3, p2, c, false, left, Literal(1), {});
    var s4 := Branched(s3, c, false, left, Literal(1));
    PreparedLater(rules, s, plan, s4, p3, {} + {n + 1});
    var (s5, right) := GenerateExpression(s4, e.right);
    plan' := ExpressionSound(rules, s4, p3, e.right);
    ExtendsTransitive(rules, s, plan, s4, p3, s5, plan', {} + {n + 1});
    var s6 := Append(s5, Unary(Move, d, right));
    NamedThrough(rules, s4, p3, s5, plan', {}, d);
    ResultSound(rules, s, plan, s5, plan', '#', s.temporaries, Unary(Move, d, right), {} + {n + 1});
    FinishSound(rules, s, plan, s6, plan', Jump(n + 1), n + 1, {} + {n + 1});
    ClosingOnly(rules, s, plan, Finish(s6, Jump(n + 1), n + 1), plan', {} + {n + 1} - {n + 1}, {});
  }

  // ----- fields and assignments -----

  lemma {:induction false} ElementsSound(rules: Rules, s: Generator, plan: Plan, name: string, values: seq<Word>)
    requires Sound(rules, s, plan) && name !in rules.fixed && Named(rules, s, name)
    ensures var s' := InitializeElements(s, name, values); Extends(rules, s, plan, s', plan, {}) && Grows(s, s')
    ensures values != [] ==> name in Available(InitializeElements(s, name, values), plan)
  {
    hide Sound, Grows, Wf, Untouched, Available, SamePlan, Closing;
    if values == [] {
      ExtendsReflexive(rules, s, plan);
    } else {
      var n := |values| - 1;
      ElementsSound(rules, s, plan, name, values[..n]);
      NamedLater(rules, s, InitializeElements(s, name, values[..n]), name);
      AppendSound(rules, s, plan, InitializeElements(s, name, values[..n]), plan,
        ArrayUpdate(name, Literal(Wrap(n)), Literal(values[n])), {});
    }
  }

  lemma FieldSound(rules: Rules, s: Generator, plan: Plan, f: Ir.Field)
    requires |s.symbols| >= 2 && Prepared(rules, s, plan) && FieldName(f.identifier, |s.symbols| - 1) !in rules.fixed
    requires ValidIdentifier(f.identifier) && Ir.WellDeclared(f)
    ensures Extends(rules, s, plan, GenerateField(s, f), plan, {}) && Prepared(rules, GenerateField(s, f), plan)
  {
    FieldAdvances(s, f);
    LocalFieldOk(f, |s.symbols| - 1);
    hide Sound, Grows, Wf, Untouched, Closing, FieldName, Visible, FixedParameters, SamePlan, Advances, FieldVisible,
      Available, FieldOk;
    var field := MakeField(f, |s.symbols| - 1);
    var s1 := s.(symbols := Declare(s.symbols, f));
    var s2 := AddField(s1, field);
    ExtendsReflexive(rules, s, plan);
    AdvancesReflexive(s);
    ScopeChangeAdvances(s, s, s1);
    AddFieldAdvances(s, s1, field);
    assert Extends(rules, s, plan, s2, plan, {}) by {
      QuietStepSound(rules, s, plan, s, plan, s1, {});
      QuietStepSound(rules, s, plan, s1, plan, s2, {});
    }
    hide Extends;
    InitializationSound(rules, s, plan, s1, field);
    VisibleLater(rules, s.symbols, s, plan, InitializeField(s2, field), plan, {});
    DeclareVisible(rules, s.symbols, f, InitializeField(s2, field), plan);
    ExtendsToSound(rules, s, plan, InitializeField(s2, field), plan);
  }

  lemma ExtendsToSound(rules: Rules, s: Generator, plan: Plan, s': Generator, plan': Plan)
    requires Extends(rules, s, plan, s', plan', {})
    ensures Sound(rules, s', plan')
  {
  }

  /** The declaration just added is initialized, and then visible. */
  lemma InitializationSound(rules: Rules, s0: Generator, plan: Plan, s: Generator, field: FieldDeclaration)
    requires Extends(rules, s0, plan, AddField(s, field), plan, {}) && field.identifier !in rules.fixed
      && field.values != []
    ensures var s' := InitializeField(AddField(s, field), field);
            Extends(rules, s0, plan, s', plan, {}) && FieldVisible(rules, field, s', plan)
  {
    FieldNamed(rules, s, field);
    hide Sound, Grows, Wf, Untouched, Closing, SamePlan, Available, Declared, Named;
    var s2 := AddField(s, field);
    var s3 := InitializeField(s2, field);
    if field.isArray {
      ArrayFieldDeclared(rules.globals, s, field);
      ElementsSound(rules, s2, plan, field.identifier, field.values);
      ExtendsTransitive(rules, s0, plan, s2, plan, s3, plan, {});
      DeclaredLater(rules.globals, s2, s3, field.identifier);
      NamedLater(rules, s2, s3, field.identifier);
    } else {
      AppendSound(rules, s0, plan, s2, plan,
        Unary(Move, field.identifier, Literal(if field.values == [] then 0 else field.values[0])), {});
      AppendAdvances(s0, s2, Unary(Move, field.identifier, Literal(if field.values == [] then 0 else field.values[0])));
      NamedLater(rules, s2, s3, field.identifier);
    }
  }

  lemma LocalFieldOk(f: Ir.Field, level: nat)
    requires ValidIdentifier(f.identifier) && Ir.WellDeclared(f) && level > 0
    ensures FieldOk(MakeField(f, level))
  {
    FieldNameMarker(f.identifier, level);
    assert FieldName(f.identifier, level)[|f.identifier|] == '@';
  }

  lemma FieldNamed(rules: Rules, s: Generator, field: FieldDeclaration)
    ensures Named(rules, AddField(s, field), field.identifier)
  {
    var s' := AddField(s, field);
    assert s'.fields[|s.fields|] == field;
    assert field.identifier in DeadCode.GlobalNames(s'.fields);
  }

  lemma ArrayFieldDeclared(globals: seq<FieldDeclaration>, s: Generator, field: FieldDeclaration)
    requires field.isArray
    ensures Declared(globals, AddField(s, field), field.identifier)
  {
    var s' := AddField(s, field);
    assert s'.fields[|s.fields|] == field;
    assert field.identifier in DeadCode.ArrayNames(s'.fields);
  }

  lemma DeclareVisible(rules: Rules, symbols: SymbolTables, f: Ir.Field, s: Generator, plan: Plan)
    requires symbols != [] && Visible(rules, symbols, s, plan)
      && FieldVisible(rules, MakeField(f, |symbols| - 1), s, plan)
    ensures Visible(rules, Declare(symbols, f), s, plan)
  {
    hide FieldVisible;
  }

  ghost predicate NamesFree(fields: seq<Ir.Field>, level: nat, fixed: set<string>) {
    forall f :: f in fields ==> FieldName(f.identifier, level) !in fixed
  }

  lemma {:induction false} FieldsSound(rules: Rules, s: Generator, plan: Plan, fields: seq<Ir.Field>)
    requires |s.symbols| >= 2 && Prepared(rules, s, plan) && NamesFree(fields, |s.symbols| - 1, rules.fixed)
    requires forall f :: f in fields ==> ValidIdentifier(f.identifier) && Ir.WellDeclared(f)
    ensures Extends(rules, s, plan, GenerateFields(s, fields), plan, {})
      && Prepared(rules, GenerateFields(s, fields), plan)
  {
    hide Grows, Untouched, Closing, FieldName, Prepared, GenerateField, ValidIdentifier, Ir.WellDeclared;
    if fields == [] {
      assert Sound(rules, s, plan) by { PreparedIsSound(rules, s, plan); }
      ExtendsReflexive(rules, s, plan);
    } else {
      var front, f := fields[..|fields| - 1], fields[|fields| - 1];
      FieldsSound(rules, s, plan, front);
      PreparedIsSound(rules, s, plan);
      FieldsAdvance(s, front);
      var s1 := GenerateFields(s, front);
      FieldSound(rules, s1, plan, f);
      hide Extends, Wf, Sound;
      ExtendsTransitive(rules, s, plan, s1, plan, GenerateField(s1, f), plan, {});
    }
  }

  lemma PreparedIsSound(rules: Rules, s: Generator, plan: Plan)
    requires Prepared(rules, s, plan)
    ensures Sound(rules, s, plan)
  {
  }

  lemma BoundsCheckSound(rules: Rules, s: Generator, plan: Plan, index: Operand, length: nat) returns (plan': Plan)
    requires Sound(rules, s, plan) && OperandReady(index, s, plan)
    ensures Extends(rules, s, plan, GenerateBoundsCheck(s, index, length), plan', {}) && SamePlan(plan, plan')
  {
    hide Sound, Grows, Wf, Untouched, Available, Closing;
    var n := s.nextBlock;
    ExtendsReflexive(rules, s, plan);
    plan' := BranchSound(rules, s, plan, s, plan, IfLess, true, index, Literal(Wrap(length)), {});
    var s1 := Branched(s, IfLess, true, index, Literal(Wrap(length)));
    FinishSound(rules, s, plan, s1, plan', Exit(-1), n + 1, {} + {n + 1});
    ClosingOnly(rules, s, plan, Finish(s1, Exit(-1), n + 1), plan', {} + {n + 1} - {n + 1}, {});
  }

  lemma IndexSound(rules: Rules, s: Generator, plan: Plan, location: Ir.Location) returns (plan': Plan)
    requires Prepared(rules, s, plan) && ScopedLocation(s.symbols, location)
    ensures var (s', index) := GenerateIndex(s, location);
            Extends(rules, s, plan, s', plan', {}) && OperandReady(index, s', plan') && s'.symbols == s.symbols
  {
    hide Sound, Grows, Wf, Untouched, Available, Closing, SamePlan, Visible, FixedParameters, GenerateExpression;
    if location.index.None? {
      plan' := plan;
      ExtendsReflexive(rules, s, plan);
    } else {
      var (s1, index) := GenerateExpression(s, location.index.value);
      var p1 := ExpressionSound(rules, s, plan, location.index.value);
      var length := |FieldOf(s.symbols, location.identifier).values|;
      plan' := BoundsCheckSound(rules, s1, p1, index, length);
      ExtendsTransitive(rules, s, plan, s1, p1, GenerateBoundsCheck(s1, index, length), plan', {});
    }
  }

  lemma StoreSound(rules: Rules, s0: Generator, p0: Plan, s: Generator, plan: Plan, location: Ir.Location,
                   destination: string, index: Operand, source: Operand)
    requires Extends(rules, s0, p0, s, plan, {}) && destination !in rules.fixed && Named(rules, s, destination)
    requires OperandReady(index, s, plan) && OperandReady(source, s, plan)
    ensures var s' := GenerateStore(s, location, destination, index, source);
            Extends(rules, s0, p0, s', plan, {}) && s'.symbols == s.symbols
  {
    hide Sound, Grows, Wf, Untouched, Available, Closing, SamePlan, Extends;
    AppendSound(rules, s0, p0, s, plan, if location.index.Some? then ArrayUpdate(destination, index, source)
      else Unary(Move, destination, source), {});
  }

  lemma AssignmentSound(rules: Rules, s: Generator, plan: Plan, a: Ir.Assignment) returns (plan': Plan)
    requires Prepared(rules, s, plan) && ScopedAssignment(s.symbols, a, rules.fixed)
    ensures Extends(rules, s, plan, GenerateAssignment(s, a), plan', {}) && GenerateAssignment(s, a).symbols
      == s.symbols
  {
    hide Sound, Grows, Wf, Untouched, Available, Closing, SamePlan, Visible, FixedParameters, GenerateExpression,
      GenerateIndex, GenerateStore, Lookup, FieldOf, FieldVisible;
    var field := FieldOf(s.symbols, a.location.identifier);
    var (s1, index) := GenerateIndex(s, a.location);
    var p1 := IndexSound(rules, s, plan, a.location);
    PreparedLater(rules, s, plan, s1, p1, {});
    var (s2, source) := if a.expression.None? then (s1, Literal(1)) else GenerateExpression(s1, a.expression.value);
    if a.expression.None? {
      plan' := p1;
      ExtendsReflexive(rules, s1, p1);
    } else {
      plan' := ExpressionSound(rules, s1, p1, a.expression.value);
    }
    assert OperandReady(index, s2, plan');
    ExtendsTransitive(rules, s, plan, s1, p1, s2, plan', {});
    LookupVisible(rules, s.symbols, s, plan, a.location.identifier);
    FieldVisibleLater(rules, field, s, plan, s2, plan', {});
    VisibleNamed(rules, field, s2, plan');
    if a.op == Ir.Set {
      StoreSound(rules, s, plan, s2, plan', a.location, field.identifier, index, source);
    } else {
      CompoundSound(rules, s, plan, s2, plan', a, field, index, source);
    }
  }

  lemma CompoundSound(rules: Rules, s0: Generator, p0: Plan, s: Generator, plan: Plan, a: Ir.Assignment,
                      field: FieldDeclaration, index: Operand, source: Operand)
    requires a.op != Ir.Set && FixedParameters(rules.fixed)
    requires Extends(rules, s0, p0, s, plan, {}) && FieldVisible(rules, field, s, plan)
      && field.identifier !in rules.fixed
    requires OperandReady(index, s, plan) && OperandReady(source, s, plan) && (a.location.index.Some? ==> field.isArray)
    ensures var (s3, old_) := NewTemporary(s, '$');
            var s4 := Append(s3, if a.location.index.Some? then ArrayAccess(old_, index, field.identifier)
                                 else Unary(Move, old_, Field(field.identifier)));
            var (s5, d) := NewTemporary(s4, '$');
            var s6 := Append(s5, Assignment.Binary(ToAssignment(Ir.Compound(a.op)), d, Field(old_), source));
            var s' := GenerateStore(s6, a.location, field.identifier, index, Field(d));
            Extends(rules, s0, p0, s', plan, {}) && s'.symbols == s.symbols
  {
    hide Sound, Grows, Wf, Untouched, Available, Closing, SamePlan, FixedParameters, GenerateStore, TemporaryName,
      Extends;
    var (s3, old_) := NewTemporary(s, '$');
    var read := if a.location.index.Some? then ArrayAccess(old_, index, field.identifier)
      else Unary(Move, old_, Field(field.identifier));
    var s4 := Append(s3, read);
    var (s5, d) := NewTemporary(s4, '$');
    var compute := Assignment.Binary(ToAssignment(Ir.Compound(a.op)), d, Field(old_), source);
    TemporarySound(rules, s0, p0, s, plan, '$', {});
    if field.isArray { SameDeclarations(rules.globals, s, '$', field.identifier); }
    ResultSound(rules, s0, p0, s3, plan, '$', s.temporaries, read, {});
    TemporarySound(rules, s0, p0, s4, plan, '$', {});
    ResultSound(rules, s0, p0, s5, plan, '$', s4.temporaries, compute, {});
    NamedAfter(rules, s, read, compute, field.identifier);
    StoreSound(rules, s0, p0, Append(s5, compute), plan, a.location, field.identifier, index, Field(d));
  }

  lemma NamedAfter(rules: Rules, s: Generator, a: Assignment, b: Assignment, name: string)
    requires Named(rules, s, name)
    ensures Named(rules, NewTemporary(s, '$').0, name)
    ensures Named(rules, Append(NewTemporary(Append(NewTemporary(s, '$').0, a), '$').0, b), name)
  {
    var s1 := NewTemporary(s, '$').0;
    var s2 := Append(NewTemporary(Append(s1, a), '$').0, b);
    if name in DeadCode.GlobalNames(s.fields) {
      var k :| 0 <= k < |s.fields| && s.fields[k].identifier == name;
      assert s1.fields[k] == s.fields[k] && s2.fields[k] == s.fields[k];
      assert name in DeadCode.GlobalNames(s1.fields) && name in DeadCode.GlobalNames(s2.fields);
    }
  }

  lemma SameDeclarations(globals: seq<FieldDeclaration>, s: Generator, prefix: char, name: string)
    requires Declared(globals, s, name)
    ensures Declared(globals, NewTemporary(s, prefix).0, name)
  {
    var s' := NewTemporary(s, prefix).0;
    if name in DeadCode.ArrayNames(s.fields) {
      var k :| 0 <= k < |s.fields| && s.fields[k].isArray && s.fields[k].identifier == name;
      assert s'.fields[k] == s.fields[k];
    }
  }

  lemma UpdateSound(rules: Rules, s: Generator, plan: Plan, u: Ir.ForUpdate) returns (plan': Plan)
    requires Prepared(rules, s, plan) && ScopedUpdate(s.symbols, u, rules.fixed)
    ensures Extends(rules, s, plan, GenerateUpdate(s, u), plan', {}) && GenerateUpdate(s, u).symbols == s.symbols
  {
    hide Sound, Visible, FixedParameters, Extends, GenerateAssignment, GenerateCall;
    match u
    case UpdateAssignment(a) => plan' := AssignmentSound(rules, s, plan, a);
    case UpdateCall(call) => plan' := CallSound(rules, s, plan, call);
  }
}
