/** How often temporaries are written: a `$` temporary by exactly one assignment of its method, a `#`
    temporary, which joins the two sides of a short circuit, by exactly two. */
module Temporaries {
  import opened Words
  import opened Llir
  import opened Names
  import opened Lowering
  import opened LoweringStructure
  import MethodLowering
  import Ir

  // ----- counting writes -----

  function WritesOf(code: seq<Assignment>, name: string): nat {
    if code == [] then 0
    else WritesOf(code[..|code| - 1], name) + if code[|code| - 1].destination == name then 1 else 0
  }

  function WritesIn(order: seq<BlockId>, blocks: map<BlockId, Block>, name: string): nat {
    if order == [] then 0
    else
      var b := order[|order| - 1];
      WritesIn(order[..|order| - 1], blocks, name) + if b in blocks then WritesOf(blocks[b].assignments, name) else 0
  }

  /** By everything generated so far. */
  function Writes(s: Generator, name: string): nat {
    WritesIn(s.order, s.finished, name) + WritesOf(s.code, name)
  }

  lemma {:induction false} WritesElsewhere(order: seq<BlockId>, blocks: map<BlockId, Block>, b: BlockId,
                                           block: Block, name: string)
    requires b !in order
    ensures WritesIn(order, blocks[b := block], name) == WritesIn(order, blocks, name)
  {
    if order != [] {
      assert order[|order| - 1] in order;
      WritesElsewhere(order[..|order| - 1], blocks, b, block, name);
    }
  }

  lemma AppendWrites(s: Generator, a: Assignment, name: string)
    ensures Writes(Append(s, a), name) == Writes(s, name) + if a.destination == name then 1 else 0
  {
    assert (s.code + [a])[..|s.code|] == s.code;
  }

  lemma FinishWrites(s: Generator, t: Terminal, b: BlockId, name: string)
    requires Wf(s)
    ensures Writes(Finish(s, t, b), name) == Writes(s, name)
  {
    var block := Block(s.fields, s.code, t);
    assert (s.order + [s.current])[..|s.order|] == s.order;
    WritesElsewhere(s.order, s.finished, s.current, block, name);
  }

  // ----- names -----

  /** Not the name of a temporary. */
  predicate Ordinary(name: string) {
    name == "" || (name[0] != '$' && name[0] != '#')
  }

  lemma FieldsAreOrdinary(identifier: string, level: nat)
    requires ValidIdentifier(identifier)
    ensures Ordinary(FieldName(identifier, level))
  {
    assert FieldName(identifier, level)[0] == identifier[0];
  }

  lemma TemporariesDiffer(p: char, j: nat, q: char, k: nat)
    ensures TemporaryName(p, j) == TemporaryName(q, k) <==> p == q && j == k
  {
    if TemporaryName(p, j) == TemporaryName(q, k) {
      assert TemporaryName(p, j)[1..] == Decimal(j) && TemporaryName(q, k)[1..] == Decimal(k);
      assert TemporaryName(p, j)[0] == p && TemporaryName(q, k)[0] == q;
      DecimalInjective(j, k);
    }
  }

  ghost predicate SymbolsOrdinary(symbols: SymbolTables) {
    forall k, id :: 0 <= k < |symbols| && id in symbols[k] ==> Ordinary(symbols[k][id].identifier)
  }

  lemma {:induction false} LookupOrdinary(symbols: SymbolTables, identifier: string)
    requires SymbolsOrdinary(symbols) && Lookup(symbols, identifier).Some?
    ensures Ordinary(FieldOf(symbols, identifier).identifier)
    decreases |symbols|
  {
    hide Ordinary;
    if identifier !in symbols[|symbols| - 1] { LookupOrdinary(symbols[..|symbols| - 1], identifier); }
  }

  // ----- what a piece of code adds -----

  /** Between the two, temporary `k` was written as a temporary created in between has to be, or not at all. */
  ghost predicate TallyAt(s: Generator, s': Generator, k: nat) {
    var dollar := Writes(s', TemporaryName('$', k)) - Writes(s, TemporaryName('$', k));
    var hash := Writes(s', TemporaryName('#', k)) - Writes(s, TemporaryName('#', k));
    if s.temporaries <= k < s'.temporaries then (dollar == 1 && hash == 0) || (dollar == 0 && hash == 2)
    else dollar == 0 && hash == 0
  }

  ghost predicate Tally(s: Generator, s': Generator) {
    s.temporaries <= s'.temporaries && forall k: nat :: TallyAt(s, s', k)
  }

  lemma TallyTransitive(s0: Generator, s1: Generator, s2: Generator)
    requires Tally(s0, s1) && Tally(s1, s2)
    ensures Tally(s0, s2)
  {
    hide Writes, TemporaryName;
    forall k: nat ensures TallyAt(s0, s2, k) {
      assert TallyAt(s0, s1, k) && TallyAt(s1, s2, k);
    }
  }

  /** Nothing was written and no temporary created. */
  lemma Quiet(s: Generator, s': Generator)
    requires s'.temporaries == s.temporaries && s'.order == s.order && s'.finished == s.finished && s'.code == s.code
    ensures Tally(s, s')
  {
    hide TemporaryName;
  }

  lemma FinishTally(s: Generator, t: Terminal, b: BlockId)
    requires Wf(s)
    ensures Tally(s, Finish(s, t, b))
  {
    hide Writes, TemporaryName;
    forall k: nat ensures TallyAt(s, Finish(s, t, b), k) {
      FinishWrites(s, t, b, TemporaryName('$', k));
      FinishWrites(s, t, b, TemporaryName('#', k));
    }
  }

  lemma AppendOrdinary(s: Generator, a: Assignment)
    requires Ordinary(a.destination)
    ensures Tally(s, Append(s, a))
  {
    hide Writes, TemporaryName;
    forall k: nat ensures TallyAt(s, Append(s, a), k) {
      AppendWrites(s, a, TemporaryName('$', k));
      AppendWrites(s, a, TemporaryName('#', k));
      StartsWithPrefix('$', k);
      StartsWithPrefix('#', k);
    }
  }

  lemma StartsWithPrefix(prefix: char, k: nat)
    ensures TemporaryName(prefix, k) != "" && TemporaryName(prefix, k)[0] == prefix
  {
  }

  /** The temporary taken first is written last. */
  lemma DollarTally(s: Generator, s': Generator, a: Assignment)
    requires Tally(NewTemporary(s, '$').0, s') && a.destination == TemporaryName('$', s.temporaries)
    ensures Tally(s, Append(s', a))
  {
    var s1 := NewTemporary(s, '$').0;
    forall name ensures Writes(s1, name) == Writes(s, name) {}
    hide Writes, TemporaryName;
    forall k: nat ensures TallyAt(s, Append(s', a), k) {
      assert TallyAt(s1, s', k);
      AppendWrites(s', a, TemporaryName('$', k));
      AppendWrites(s', a, TemporaryName('#', k));
      TemporariesDiffer('$', s.temporaries, '$', k);
      TemporariesDiffer('$', s.temporaries, '#', k);
    }
  }

  /** A temporary that is written twice, with more code before and between. */
  lemma HashTally(s: Generator, s1: Generator, s2: Generator, a: Assignment, a': Assignment)
    requires Tally(NewTemporary(s, '#').0, s1) && Tally(Append(s1, a), s2)
    requires a.destination == a'.destination == TemporaryName('#', s.temporaries)
    ensures Tally(s, Append(s2, a'))
  {
    var s0 := NewTemporary(s, '#').0;
    forall name ensures Writes(s0, name) == Writes(s, name) {}
    hide Writes, TemporaryName;
    forall k: nat ensures TallyAt(s, Append(s2, a'), k) {
      assert TallyAt(s0, s1, k) && TallyAt(Append(s1, a), s2, k);
      AppendWrites(s1, a, TemporaryName('$', k));
      AppendWrites(s1, a, TemporaryName('#', k));
      AppendWrites(s2, a', TemporaryName('$', k));
      AppendWrites(s2, a', TemporaryName('#', k));
      TemporariesDiffer('#', s.temporaries, '$', k);
      TemporariesDiffer('#', s.temporaries, '#', k);
    }
  }

  // ----- expressions -----

  lemma TemporaryTally(s: Generator, a: Assignment)
    requires a.destination == TemporaryName('$', s.temporaries)
    ensures Tally(s, Append(NewTemporary(s, '$').0, a))
  {
    Quiet(NewTemporary(s, '$').0, NewTemporary(s, '$').0);
    DollarTally(s, NewTemporary(s, '$').0, a);
  }

  lemma {:induction false} ExpressionTally(s: Generator, e: Ir.Expression)
    requires Wf(s)
    ensures Tally(s, GenerateExpression(s, e).0)
    decreases e, 1
  {
    hide Tally, TemporaryName, Wf, GenerateLocation, GenerateCall, GenerateShortCircuit;
    match e
    case Binary(op, l, r) =>
      if op == Ir.Or || op == Ir.And {
        ShortCircuitTally(s, e);
      } else {
        var (s1, left) := GenerateExpression(s, l);
        ExpressionTally(s, l);
        ExpressionAdvances(s, l);
        assert Wf(s1) by { AdvancesIsWf(s, s1); }
        var (s2, right) := GenerateExpression(s1, r);
        ExpressionTally(s1, r);
        TallyTransitive(s, s1, s2);
        var a := Assignment.Binary(ToAssignment(op), TemporaryName('$', s2.temporaries), left, right);
        TemporaryTally(s2, a);
        TallyTransitive(s, s2, Append(NewTemporary(s2, '$').0, a));
      }
    case Not(o) => UnaryTally(s, o, UnaryOperator.Not);
    case Negate(o) => UnaryTally(s, o, UnaryOperator.Negate);
    case Length(_, length) => TemporaryTally(s, Unary(Move, TemporaryName('$', s.temporaries), Literal(length)));
    case Invoke(call) => CallTally(s, call);
    case Constant(l) => TemporaryTally(s, Unary(Move, TemporaryName('$', s.temporaries), Literal(LiteralToInt64(l))));
    case At(location) => LocationTally(s, location);
  }

  lemma AdvancesIsWf(s: Generator, s': Generator)
    requires Advances(s, s')
    ensures Wf(s')
  {
  }

  lemma {:induction false} UnaryTally(s: Generator, o: Ir.Expression, op: UnaryOperator)
    requires Wf(s)
    ensures var (s1, source) := GenerateExpression(s, o);
      Tally(s, Append(NewTemporary(s1, '$').0, Unary(op, TemporaryName('$', s1.temporaries), source)))
    decreases o, 2
  {
    hide Tally, TemporaryName, Wf, GenerateExpression;
    var (s1, source) := GenerateExpression(s, o);
    ExpressionTally(s, o);
    var a := Unary(op, TemporaryName('$', s1.temporaries), source);
    TemporaryTally(s1, a);
    TallyTransitive(s, s1, Append(NewTemporary(s1, '$').0, a));
  }

  lemma {:induction false} LocationTally(s: Generator, location: Ir.Location)
    requires Wf(s)
    ensures Tally(s, GenerateLocation(s, location).0)
    decreases location
  {
    hide Tally, TemporaryName, Wf, GenerateExpression;
    var field := FieldOf(s.symbols, location.identifier);
    var (s1, d) := NewTemporary(s, '$');
    if location.index.None? {
      TemporaryTally(s, Unary(Move, d, Field(field.identifier)));
    } else {
      var (s2, index) := GenerateExpression(s1, location.index.value);
      assert Wf(s1) by { TemporaryWf(s); }
      ExpressionTally(s1, location.index.value);
      DollarTally(s, s2, ArrayAccess(d, index, field.identifier));
    }
  }

  lemma TemporaryWf(s: Generator)
    requires Wf(s)
    ensures Wf(NewTemporary(s, '$').0) && Wf(NewTemporary(s, '#').0)
  {
  }

  lemma {:induction false} CallTally(s: Generator, call: Ir.MethodCall)
    requires Wf(s)
    ensures Tally(s, GenerateCall(s, call).0)
    decreases call
  {
    hide Tally, TemporaryName, Wf, GenerateArguments;
    var (s1, d) := NewTemporary(s, '$');
    assert Wf(s1) by { TemporaryWf(s); }
    var (s2, arguments) := GenerateArguments(s1, call.arguments);
    ArgumentsTally(s1, call.arguments);
    DollarTally(s, s2, Call(d, call.identifier, arguments));
  }

  lemma {:induction false} ArgumentsTally(s: Generator, arguments: seq<Ir.CallArgument>)
    requires Wf(s)
    ensures Tally(s, GenerateArguments(s, arguments).0)
    decreases arguments
  {
    hide Tally, Wf, GenerateArgument;
    Quiet(s, s);
    if arguments != [] {
      var (s1, first) := GenerateArgument(s, arguments[0]);
      ArgumentTally(s, arguments[0]);
      ArgumentAdvances(s, arguments[0]);
      assert Wf(s1) by { AdvancesIsWf(s, s1); }
      ArgumentsTally(s1, arguments[1..]);
      TallyTransitive(s, s1, GenerateArguments(s1, arguments[1..]).0);
    }
  }

  lemma {:induction false} ArgumentTally(s: Generator, a: Ir.CallArgument)
    requires Wf(s)
    ensures Tally(s, GenerateArgument(s, a).0)
    decreases a
  {
    hide Tally, Wf, GenerateExpression;
    Quiet(s, s);
    if a.ValueArgument? { ExpressionTally(s, a.expression); }
  }

  lemma {:induction false} ShortCircuitTally(s: Generator, e: Ir.Expression)
    requires Wf(s) && e.Binary? && (e.op == Ir.Or || e.op == Ir.And)
    ensures Tally(s, GenerateShortCircuit(s, e).0)
    decreases e, 0
  {
    hide Tally, TemporaryName, Wf, GenerateExpression, Advances;
    var (s1, d) := NewTemporary(s, '#');
    assert Wf(s1) by { TemporaryWf(s); }
    var (s2, left) := GenerateExpression(s1, e.left);
    ExpressionTally(s1, e.left);
    ExpressionAdvances(s1, e.left);
    var a := Unary(Move, d, left);
    var s3 := Append(s2, a);
    var ready := s3.(nextBlock := s3.nextBlock + 2);
    var t := Branch(if e.op == Ir.Or then IfEqual else IfNotEqual, false, left, Literal(1), s3.nextBlock, s3.nextBlock
      + 1);
    var s6 := Finish(ready, t, s3.nextBlock);
    assert Wf(ready) && Wf(s6) by { BranchWf(s1, s2, a, t); }
    Quiet(s3, ready);
    FinishTally(ready, t, s3.nextBlock);
    TallyTransitive(s3, ready, s6);
    var (s7, right) := GenerateExpression(s6, e.right);
    ExpressionTally(s6, e.right);
    ExpressionAdvances(s6, e.right);
    TallyTransitive(s3, s6, s7);
    var a' := Unary(Move, d, right);
    HashTally(s, s2, s7, a, a');
    assert Wf(Append(s7, a')) by { AppendWf(s6, s7, a'); }
    FinishTally(Append(s7, a'), Jump(s3.nextBlock + 1), s3.nextBlock + 1);
    TallyTransitive(s, Append(s7, a'), Finish(Append(s7, a'), Jump(s3.nextBlock + 1), s3.nextBlock + 1));
  }

  lemma AppendWf(s: Generator, s': Generator, a: Assignment)
    requires Advances(s, s')
    ensures Wf(Append(s', a))
  {
  }

  lemma BranchWf(s: Generator, s': Generator, a: Assignment, t: Terminal)
    requires Advances(s, s')
    ensures var s3 := Append(s', a);
      var ready := s3.(nextBlock := s3.nextBlock + 2);
      Wf(ready) && Wf(Finish(ready, t, s3.nextBlock))
  {
  }

  // ----- declarations and assignments -----

  lemma {:induction false} ElementsTally(s: Generator, name: string, values: seq<Word>)
    requires Ordinary(name)
    ensures Tally(s, InitializeElements(s, name, values))
  {
    hide Tally, Ordinary;
    Quiet(s, s);
    if values != [] {
      var n := |values| - 1;
      var s1 := InitializeElements(s, name, values[..n]);
      ElementsTally(s, name, values[..n]);
      AppendOrdinary(s1, ArrayUpdate(name, Literal(Wrap(n)), Literal(values[n])));
      TallyTransitive(s, s1, InitializeElements(s, name, values));
    }
  }

  lemma FieldTally(s: Generator, f: Ir.Field)
    requires Wf(s) && ValidIdentifier(f.identifier)
    ensures Tally(s, GenerateField(s, f))
  {
    hide Tally, Ordinary, InitializeElements, FieldName;
    var level := if s.symbols == [] then 0 else |s.symbols| - 1;
    var field := MakeField(f, level);
    FieldsAreOrdinary(f.identifier, level);
    var s1 := AddField(s.(symbols := Declare(s.symbols, f)), field);
    Quiet(s, s1);
    if field.isArray {
      ElementsTally(s1, field.identifier, field.values);
    } else {
      AppendOrdinary(s1, Unary(Move, field.identifier, Literal(if field.values == [] then 0 else field.values[0])));
    }
    TallyTransitive(s, s1, InitializeField(s1, field));
  }

  lemma DeclareOrdinary(symbols: SymbolTables, f: Ir.Field)
    requires SymbolsOrdinary(symbols) && ValidIdentifier(f.identifier)
    ensures SymbolsOrdinary(Declare(symbols, f))
  {
    hide Ordinary, FieldName;
    if symbols != [] { FieldsAreOrdinary(f.identifier, |symbols| - 1); }
  }

  lemma {:induction false} DeclareAllOrdinary(symbols: SymbolTables, fields: seq<Ir.Field>)
    requires SymbolsOrdinary(symbols) && forall f :: f in fields ==> ValidIdentifier(f.identifier)
    ensures SymbolsOrdinary(DeclareAll(symbols, fields))
  {
    hide SymbolsOrdinary, ValidIdentifier;
    if fields != [] {
      DeclareAllOrdinary(symbols, fields[..|fields| - 1]);
      DeclareOrdinary(DeclareAll(symbols, fields[..|fields| - 1]), fields[|fields| - 1]);
    }
  }

  lemma {:induction false} FieldsTally(s: Generator, fields: seq<Ir.Field>)
    requires Wf(s) && forall f :: f in fields ==> ValidIdentifier(f.identifier)
    ensures Tally(s, GenerateFields(s, fields))
  {
    hide Tally, Wf, ValidIdentifier, GenerateField;
    Quiet(s, s);
    if fields != [] {
      var front, f := fields[..|fields| - 1], fields[|fields| - 1];
      FieldsTally(s, front);
      FieldsAdvance(s, front);
      var s1 := GenerateFields(s, front);
      assert Wf(s1) by { AdvancesIsWf(s, s1); }
      FieldTally(s1, f);
      TallyTransitive(s, s1, GenerateField(s1, f));
    }
  }

  lemma BoundsCheckTally(s: Generator, index: Operand, length: nat)
    requires Wf(s)
    ensures Tally(s, GenerateBoundsCheck(s, index, length)) && Wf(GenerateBoundsCheck(s, index, length))
  {
    hide Tally;
    var ready := s.(nextBlock := s.nextBlock + 2);
    var s3 := Finish(ready, Branch(IfLess, true, index, Literal(Wrap(length)), s.nextBlock, s.nextBlock + 1),
      s.nextBlock);
    Quiet(s, ready);
    FinishTally(ready, Branch(IfLess, true, index, Literal(Wrap(length)), s.nextBlock, s.nextBlock + 1), s.nextBlock);
    TallyTransitive(s, ready, s3);
    FinishTally(s3, Exit(-1), s.nextBlock + 1);
    TallyTransitive(s, s3, Finish(s3, Exit(-1), s.nextBlock + 1));
  }

  lemma IndexTally(s: Generator, location: Ir.Location)
    requires Wf(s)
    ensures Tally(s, GenerateIndex(s, location).0) && Wf(GenerateIndex(s, location).0)
  {
    hide Tally, Wf, GenerateExpression, GenerateBoundsCheck;
    Quiet(s, s);
    if location.index.Some? {
      var (s1, index) := GenerateExpression(s, location.index.value);
      ExpressionTally(s, location.index.value);
      ExpressionAdvances(s, location.index.value);
      assert Wf(s1) by { AdvancesIsWf(s, s1); }
      var length := |FieldOf(s.symbols, location.identifier).values|;
      BoundsCheckTally(s1, index, length);
      TallyTransitive(s, s1, GenerateBoundsCheck(s1, index, length));
    }
  }

  lemma StoreTally(s0: Generator, s: Generator, location: Ir.Location, destination: string, index: Operand,
                   source: Operand)
    requires Tally(s0, s) && Ordinary(destination)
    ensures Tally(s0, GenerateStore(s, location, destination, index, source))
  {
    hide Tally, Ordinary;
    var a := if location.index.Some? then ArrayUpdate(destination, index, source) else Unary(Move, destination, source);
    AppendOrdinary(s, a);
    TallyTransitive(s0, s, Append(s, a));
  }

  lemma AssignmentTally(s: Generator, a: Ir.Assignment)
    requires Wf(s) && SymbolsOrdinary(s.symbols) && ScopedAssignment(s.symbols, a, {})
    ensures Tally(s, GenerateAssignment(s, a))
  {
    LookupOrdinary(s.symbols, a.location.identifier);
    hide Tally, Wf, Ordinary, GenerateExpression, GenerateIndex, GenerateStore, TemporaryName, FieldOf, SymbolsOrdinary;
    var destination := FieldOf(s.symbols, a.location.identifier).identifier;
    var (s1, index) := GenerateIndex(s, a.location);
    IndexTally(s, a.location);
    var (s2, source) := if a.expression.None? then (s1, Literal(1)) else GenerateExpression(s1, a.expression.value);
    assert Tally(s, s2) by {
      if a.expression.Some? {
        ExpressionTally(s1, a.expression.value);
        TallyTransitive(s, s1, s2);
      }
    }
    if a.op == Ir.Set {
      StoreTally(s, s2, a.location, destination, index, source);
    } else {
      var (s3, old_) := NewTemporary(s2, '$');
      var read := if a.location.index.Some? then ArrayAccess(old_, index, destination)
        else Unary(Move, old_, Field(destination));
      TemporaryTally(s2, read);
      var s4 := Append(s3, read);
      TallyTransitive(s, s2, s4);
      var (s5, d) := NewTemporary(s4, '$');
      var compute := Assignment.Binary(ToAssignment(Ir.Compound(a.op)), d, Field(old_), source);
      TemporaryTally(s4, compute);
      TallyTransitive(s, s4, Append(s5, compute));
      StoreTally(s, Append(s5, compute), a.location, destination, index, Field(d));
    }
  }

  lemma UpdateTally(s: Generator, u: Ir.ForUpdate)
    requires Wf(s) && SymbolsOrdinary(s.symbols) && ScopedUpdate(s.symbols, u, {})
    ensures Tally(s, GenerateUpdate(s, u))
  {
    hide Tally, Wf, SymbolsOrdinary, GenerateAssignment, GenerateCall, ScopedAssignment;
    match u
    case UpdateAssignment(a) => AssignmentTally(s, a);
    case UpdateCall(call) => CallTally(s, call);
  }

  // ----- statements -----

  /** One more step after a tally: finishing the block. */
  lemma ThenFinish(s0: Generator, s: Generator, t: Terminal, b: BlockId)
    requires Tally(s0, s) && Wf(s)
    ensures Tally(s0, Finish(s, t, b))
  {
    hide Tally;
    FinishTally(s, t, b);
    TallyTransitive(s0, s, Finish(s, t, b));
  }

  /** One more step: block ids, scopes and loop stacks. */
  lemma ThenQuiet(s0: Generator, s: Generator, s': Generator)
    requires Tally(s0, s)
    requires s' == s.(nextBlock := s'.nextBlock, symbols := s'.symbols, breaks := s'.breaks, continues := s'.continues)
    ensures Tally(s0, s')
  {
    hide Tally;
    Quiet(s, s');
    TallyTransitive(s0, s, s');
  }

  lemma {:induction false} StatementTally(s: Generator, stmt: Ir.Statement, inLoop: bool)
    requires Wf(s) && s.symbols != [] && SymbolsOrdinary(s.symbols) && ScopedStatement(s.symbols, stmt, inLoop, {})
    ensures Tally(s, GenerateStatement(s, stmt))
    decreases stmt, 1
  {
    hide Tally, SymbolsOrdinary, GenerateAssignment, GenerateCall, GenerateIf, GenerateFor, GenerateWhile,
      GenerateExpression, ScopedAssignment, ScopedCall, ScopedExpression, ScopedBlock, ScopedUpdate;
    match stmt
    case Assign(a) => AssignmentTally(s, a);
    case CallStatement(call) => CallTally(s, call);
    case If(_, _, _) => IfTally(s, stmt, inLoop);
    case For(_, _, _, _) => ForTally(s, stmt);
    case While(_, _) => WhileTally(s, stmt);
    case Return(value) =>
      Quiet(s, s);
      if value.Some? {
        ExpressionTally(s, value.value);
        ExpressionAdvances(s, value.value);
        EndTally(s, GenerateExpression(s, value.value).0, Terminal.Return(GenerateExpression(s, value.value).1));
      } else {
        EndTally(s, s, Terminal.Return(Literal(0)));
      }
    case Break =>
      Quiet(s, s);
      EndTally(s, s, Jump(Top(s.breaks)));
    case Continue =>
      Quiet(s, s);
      EndTally(s, s, Jump(Top(s.continues)));
  }

  lemma EndTally(s0: Generator, s: Generator, t: Terminal)
    requires Tally(s0, s) && Wf(s)
    ensures Tally(s0, GenerateEnd(s, t))
  {
    hide Tally;
    var s1 := s.(nextBlock := s.nextBlock + 1);
    ThenQuiet(s0, s, s1);
    ThenFinish(s0, s1, t, s.nextBlock);
  }

  /** A condition, and the branch into the block it guards. */
  lemma GuardTally(s0: Generator, s: Generator, condition: Ir.Expression, extra: nat, trueBlock: BlockId,
                   falseBlock: BlockId)
    requires Tally(s0, s) && Wf(s)
    ensures var (s1, value) := GenerateExpression(s, condition);
      var s2 := s1.(nextBlock := s1.nextBlock + extra);
      && Wf(s1) && SameScope(s, s1) && s1.nextBlock >= s.nextBlock
        && Tally(s0, Finish(s2, SkipIfZero(value, trueBlock, falseBlock), trueBlock))
  {
    hide Tally, GenerateExpression;
    var (s1, value) := GenerateExpression(s, condition);
    ExpressionTally(s, condition);
    ExpressionAdvances(s, condition);
    TallyTransitive(s0, s, s1);
    var s2 := s1.(nextBlock := s1.nextBlock + extra);
    ThenQuiet(s0, s1, s2);
    ThenFinish(s0, s2, SkipIfZero(value, trueBlock, falseBlock), trueBlock);
  }

  lemma {:induction false} IfTally(s: Generator, stmt: Ir.Statement, inLoop: bool)
    requires stmt.If? && Wf(s) && s.symbols != [] && SymbolsOrdinary(s.symbols)
      && ScopedStatement(s.symbols, stmt, inLoop, {})
    ensures Tally(s, GenerateIf(s, stmt))
    decreases stmt, 0
  {
    hide Tally, SymbolsOrdinary, GenerateExpression, GenerateBlock, ScopedExpression, ScopedBlock, Grows, Untouched;
    var (s1, value) := GenerateExpression(s, stmt.condition);
    var n := s1.nextBlock;
    Quiet(s, s);
    GuardTally(s, s, stmt.condition, 2, n, n + 1);
    var s4 := Finish(s1.(nextBlock := n + 2), SkipIfZero(value, n, n + 1), n);
    assert NewBlock(NewBlock(s1).0).0 == s1.(nextBlock := n + 2);
    BlockTally(s4, stmt.ifBlock, inLoop);
    BlockAdvances(s4, stmt.ifBlock);
    var s5 := GenerateBlock(s4, stmt.ifBlock);
    TallyTransitive(s, s4, s5);
    match stmt.elseBlock
    case None => ThenFinish(s, s5, Jump(n + 1), n + 1);
    case Some(other) =>
      assert Pending(s4, n + 1);
      assert Pending(s5, n + 1) by { StaysPending(s4, s5, n + 1); }
      ElseTally(s, s5, other, n + 1, inLoop);
  }

  /** The other block of an `if`: it starts in the block `falseBlock`, and both ends jump on to a new block. */
  lemma {:induction false} ElseTally(s0: Generator, s: Generator, other: Ir.Block, falseBlock: BlockId, inLoop: bool)
    requires Tally(s0, s) && Wf(s) && Pending(s, falseBlock)
    requires s.symbols != [] && SymbolsOrdinary(s.symbols) && ScopedBlock(s.symbols, other, inLoop, {})
    ensures var end := s.nextBlock;
            var s1 := Finish(NewBlock(s).0, Jump(end), falseBlock);
            Tally(s0, Finish(GenerateBlock(s1, other), Jump(end), end))
    decreases other, 2
  {
    hide Tally, SymbolsOrdinary, GenerateBlock, ScopedBlock, Grows, Untouched;
    var end := s.nextBlock;
    var s1 := NewBlock(s).0;
    ThenQuiet(s0, s, s1);
    ThenFinish(s0, s1, Jump(end), falseBlock);
    var s2 := Finish(s1, Jump(end), falseBlock);
    BlockTally(s2, other, inLoop);
    BlockAdvances(s2, other);
    var s3 := GenerateBlock(s2, other);
    TallyTransitive(s0, s2, s3);
    ThenFinish(s0, s3, Jump(end), end);
  }

  lemma StaysPending(s: Generator, s': Generator, b: BlockId)
    requires Advances(s, s') && Pending(s, b)
    ensures Pending(s', b)
  {
  }

  /** One round of a loop, from its condition block to the end of its body. */
  lemma {:induction false} RoundTally(s0: Generator, s: Generator, condition: Ir.Expression, body: Ir.Block,
                                      loopBlock: BlockId, endBlock: BlockId)
    requires Tally(s0, s) && Wf(s) && s.symbols != [] && SymbolsOrdinary(s.symbols)
      && ScopedBlock(s.symbols, body, true, {})
    requires Pending(s, loopBlock)
    ensures var (s1, value) := GenerateExpression(s, condition);
      var s3 := GenerateBlock(Finish(s1, SkipIfZero(value, loopBlock, endBlock), loopBlock), body);
      Tally(s0, s3) && Wf(s3) && SameScope(s, s3)
    decreases body, 2
  {
    hide Tally, SymbolsOrdinary, GenerateExpression, GenerateBlock, ScopedBlock, Grows;
    var (s1, value) := GenerateExpression(s, condition);
    ExpressionAdvances(s, condition);
    GuardTally(s0, s, condition, 0, loopBlock, endBlock);
    assert s1.(nextBlock := s1.nextBlock + 0) == s1;
    var s2 := Finish(s1, SkipIfZero(value, loopBlock, endBlock), loopBlock);
    assert Pending(s1, loopBlock);
    BlockTally(s2, body, true);
    BlockAdvances(s2, body);
    TallyTransitive(s0, s2, GenerateBlock(s2, body));
  }

  lemma {:induction false} ForTally(s: Generator, stmt: Ir.Statement)
    requires stmt.For? && Wf(s) && s.symbols != [] && SymbolsOrdinary(s.symbols)
      && ScopedStatement(s.symbols, stmt, true, {})
    ensures Tally(s, GenerateFor(s, stmt))
    decreases stmt, 0
  {
    hide Tally, SymbolsOrdinary, GenerateExpression, GenerateBlock, GenerateAssignment, GenerateUpdate,
      ScopedExpression, ScopedBlock, ScopedAssignment, ScopedUpdate, Grows, Untouched;
    AssignmentTally(s, stmt.initial);
    AssignmentAdvances(s, stmt.initial);
    var s1 := GenerateAssignment(s, stmt.initial);
    var n := s1.nextBlock;
    var ready := PushLoop(s1.(nextBlock := n + 4), n + 3, n + 2);
    ThenQuiet(s, s1, ready);
    ThenFinish(s, ready, Jump(n), n);
    OpenForAdvances(s1, s1) by { AdvancesReflexive(s1); }
    RoundTally(s, OpenFor(s1), stmt.condition, stmt.body, n + 1, n + 3);
    var (s2, value) := GenerateExpression(OpenFor(s1), stmt.condition);
    var s3 := GenerateBlock(Finish(s2, SkipIfZero(value, n + 1, n + 3), n + 1), stmt.body);
    RoundPending(s1, OpenFor(s1), stmt.condition, stmt.body, n);
    ForTailTally(s, s3, stmt.update, n);
  }

  /** The update block waits while the condition and the body are generated. */
  lemma RoundPending(s: Generator, o: Generator, condition: Ir.Expression, body: Ir.Block, n: BlockId)
    requires Advances(s, o) && n >= s.nextBlock && Pending(o, n + 1) && Pending(o, n + 2) && Pending(o, n + 3)
    ensures var (s2, value) := GenerateExpression(o, condition);
      Pending(GenerateBlock(Finish(s2, SkipIfZero(value, n + 1, n + 3), n + 1), body), n + 2)
  {
    hide GenerateExpression, GenerateBlock, Advances, Pending, Grows, SkipIfZero, Finish, Untouched, Wf;
    RoundAdvances(s, o, condition, body, n + 1, n + 3, n + 2);
  }

  lemma ForTailTally(s0: Generator, s: Generator, update: Ir.ForUpdate, n: BlockId)
    requires Tally(s0, s) && Wf(s) && Pending(s, n + 2) && SymbolsOrdinary(s.symbols)
      && ScopedUpdate(s.symbols, update, {})
    ensures Tally(s0, PopLoop(Finish(GenerateUpdate(Finish(s, Jump(n + 2), n + 2), update), Jump(n), n + 3)))
  {
    hide Tally, SymbolsOrdinary, GenerateUpdate, ScopedUpdate, Grows, Untouched;
    var s1 := Finish(s, Jump(n + 2), n + 2);
    ThenFinish(s0, s, Jump(n + 2), n + 2);
    UpdateTally(s1, update);
    UpdateAdvances(s1, update);
    var s2 := GenerateUpdate(s1, update);
    TallyTransitive(s0, s1, s2);
    ThenFinish(s0, s2, Jump(n), n + 3);
    ThenQuiet(s0, Finish(s2, Jump(n), n + 3), PopLoop(Finish(s2, Jump(n), n + 3)));
  }

  lemma {:induction false} WhileTally(s: Generator, stmt: Ir.Statement)
    requires stmt.While? && Wf(s) && s.symbols != [] && SymbolsOrdinary(s.symbols)
      && ScopedStatement(s.symbols, stmt, true, {})
    ensures Tally(s, GenerateWhile(s, stmt))
    decreases stmt, 0
  {
    hide Tally, SymbolsOrdinary, GenerateExpression, GenerateBlock, ScopedExpression, ScopedBlock, Grows, Untouched;
    var n := s.nextBlock;
    var ready := PushLoop(s.(nextBlock := n + 3), n + 2, n);
    Quiet(s, ready);
    ThenFinish(s, ready, Jump(n), n);
    AdvancesReflexive(s);
    OpenWhileAdvances(s, s);
    RoundTally(s, OpenWhile(s), stmt.condition, stmt.body, n + 1, n + 2);
    var (s1, value) := GenerateExpression(OpenWhile(s), stmt.condition);
    var s2 := GenerateBlock(Finish(s1, SkipIfZero(value, n + 1, n + 2), n + 1), stmt.body);
    ThenFinish(s, s2, Jump(n), n + 2);
    ThenQuiet(s, Finish(s2, Jump(n), n + 2), PopLoop(Finish(s2, Jump(n), n + 2)));
  }

  lemma {:induction false} BlockTally(s: Generator, b: Ir.Block, inLoop: bool)
    requires Wf(s) && SymbolsOrdinary(s.symbols) && ScopedBlock(s.symbols, b, inLoop, {})
    ensures Tally(s, GenerateBlock(s, b))
    decreases b, 1
  {
    hide Tally, GenerateFields, GenerateStatements, ScopedStatements, Grows, Untouched, ValidIdentifier,
      Ir.WellDeclared, DeclareAll;
    var s1 := s.(symbols := s.symbols + [map[]]);
    Quiet(s, s1);
    FieldsTally(s1, b.fields);
    FieldsAdvance(s1, b.fields);
    var s2 := GenerateFields(s1, b.fields);
    TallyTransitive(s, s1, s2);
    DeclareAllOrdinary(s1.symbols, b.fields);
    hide SymbolsOrdinary;
    StatementsTally(s2, b.statements, inLoop);
    var s3 := GenerateStatements(s2, b.statements);
    TallyTransitive(s, s2, s3);
    ThenQuiet(s, s3, s3.(symbols := s.symbols));
  }

  lemma {:induction false} StatementsTally(s: Generator, statements: seq<Ir.Statement>, inLoop: bool)
    requires Wf(s) && s.symbols != [] && SymbolsOrdinary(s.symbols)
      && ScopedStatements(s.symbols, statements, inLoop, {})
    ensures Tally(s, GenerateStatements(s, statements))
    decreases statements
  {
    hide Tally, SymbolsOrdinary, GenerateStatement, ScopedStatement, Grows, Untouched;
    Quiet(s, s);
    if statements != [] {
      StatementTally(s, statements[0], inLoop);
      StatementAdvances(s, statements[0]);
      var s1 := GenerateStatement(s, statements[0]);
      StatementsTally(s1, statements[1..], inLoop);
      TallyTransitive(s, s1, GenerateStatements(s1, statements[1..]));
    }
  }

  // ----- methods -----

  /** Of the temporaries a method takes, each `$` is written by exactly one assignment of its graph and
      each `#` by exactly two; no other temporary is written at all. */
  ghost predicate WrittenOnceOrTwice(g: Graph, first: nat, last: nat) {
    forall k: nat ::
      var dollar, hash := WritesIn(g.order, g.blocks, TemporaryName('$', k)),
        WritesIn(g.order, g.blocks, TemporaryName('#', k));
      if first <= k < last then (dollar == 1 && hash == 0) || (dollar == 0 && hash == 2) else dollar == 0 && hash == 0
  }

  lemma TemporariesWritten(globals: map<string, FieldDeclaration>, m: Ir.Method, temporaries: nat, nextBlock: nat)
    requires ScopedMethod(globals, m, {}) && forall id :: id in globals ==> Ordinary(globals[id].identifier)
    ensures WrittenOnceOrTwice(GenerateMethod(globals, m, temporaries, nextBlock), temporaries,
                               GenerateBody(globals, m, temporaries, nextBlock).temporaries)
  {
    hide GenerateFields, GenerateStatements, ScopedStatements, Grows, Untouched, ValidIdentifier, Ir.WellDeclared,
      DeclareAll, Tally, TemporaryName, PredecessorLists, Ordinary;
    var s0 := MethodLowering.BeforeBody(globals, m, temporaries, nextBlock);
    var fields := m.arguments + m.body.fields;
    assert forall f :: f in m.arguments ==> f in fields;
    assert forall f :: f in m.body.fields ==> f in fields;
    assert SymbolsOrdinary([globals, map[]]);
    DeclareAllOrdinary([globals, map[]], m.arguments);
    DeclareAllOrdinary([globals, map[]], fields);
    FieldsTally(s0, m.body.fields);
    FieldsAdvance(s0, m.body.fields);
    DeclareAllConcatenation([globals, map[]], m.arguments, m.body.fields);
    var s1 := StartMethod(globals, m, temporaries, nextBlock);
    StatementsTally(s1, m.body.statements, false);
    StatementsAdvance(s1, m.body.statements);
    var s2 := GenerateBody(globals, m, temporaries, nextBlock);
    TallyTransitive(s0, s1, s2);
    FinishedCounts(s0, s2, LastTerminal(m), GenerateMethod(globals, m, temporaries, nextBlock));
  }

  lemma FinishedCounts(s0: Generator, s: Generator, t: Terminal, g: Graph)
    requires Tally(s0, s) && Wf(s) && s0.order == [] && s0.code == []
    requires g.order == s.order + [s.current] && g.blocks == Blocks(s, t)
    ensures WrittenOnceOrTwice(g, s0.temporaries, s.temporaries)
  {
    forall name ensures WritesIn(g.order, g.blocks, name) == Writes(s, name) && Writes(s0, name) == 0 {
      FinishWrites(s, t, s.current, name);
    }
    hide Writes, WritesIn, TemporaryName;
    forall k: nat ensures
      var dollar, hash := WritesIn(g.order, g.blocks, TemporaryName('$', k)),
        WritesIn(g.order, g.blocks, TemporaryName('#', k));
      if s0.temporaries <= k < s.temporaries then (dollar == 1 && hash == 0)
        || (dollar == 0 && hash == 2) else dollar == 0 && hash == 0
    {
      assert TallyAt(s0, s, k);
    }
  }
}
