/** Lowering of the structured representation into blocks, as functions from generator state to
    generator state. */
module Lowering {
  import opened Words
  import opened Worlds
  import opened Llir
  import opened Names
  import Ir

  type SymbolTables = seq<map<string, FieldDeclaration>>

  /** `struct llir_generator`, for the method being generated. `order` and `finished` are the blocks
      already appended to the method; `fields` and `code` are the content of the current block. Ids
      below `nextBlock` that are neither finished nor current belong to blocks that are still empty. */
  datatype Generator = Generator(
    temporaries: nat,
    nextBlock: nat,
    symbols: SymbolTables,
    breaks: seq<BlockId>,
    continues: seq<BlockId>,
    order: seq<BlockId>,
    finished: map<BlockId, Block>,
    current: BlockId,
    fields: seq<FieldDeclaration>,
    code: seq<Assignment>)

  // ----- symbol table -----

  /** `symbol_table_get`: innermost table first. */
  function Lookup(symbols: SymbolTables, identifier: string): Option<FieldDeclaration> {
    if symbols == [] then None
    else if identifier in symbols[|symbols| - 1] then Some(symbols[|symbols| - 1][identifier])
    else Lookup(symbols[..|symbols| - 1], identifier)
  }

  /** The field an identifier stands for. The generator asserts that there is one; without one this
      is a scalar of the same name. */
  function FieldOf(symbols: SymbolTables, identifier: string): FieldDeclaration {
    var field := Lookup(symbols, identifier);
    if field.Some? then field.value else FieldDeclaration(identifier, false, [0])
  }

  /** `symbol_table_set` in the innermost table. */
  function Insert(symbols: SymbolTables, identifier: string, field: FieldDeclaration): (symbols': SymbolTables)
    requires symbols != []
    ensures |symbols'| == |symbols|
  {
    symbols[|symbols| - 1 := symbols[|symbols| - 1][identifier := field]]
  }

  // ----- what the checker guarantees to the generator -----

  predicate ScopedExpression(symbols: SymbolTables, e: Ir.Expression)
    decreases e
  {
    match e
    case Binary(_, l, r) => ScopedExpression(symbols, l) && ScopedExpression(symbols, r)
    case Not(o) => ScopedExpression(symbols, o)
    case Negate(o) => ScopedExpression(symbols, o)
    case Length(_, _) => true
    case Invoke(call) => ScopedCall(symbols, call)
    case Constant(l) => Ir.LiteralInRange(l)
    case At(location) => ScopedLocation(symbols, location)
  }

  predicate ScopedLocation(symbols: SymbolTables, location: Ir.Location)
    decreases location
  {
    && Lookup(symbols, location.identifier).Some?
    && (location.index.Some? ==> FieldOf(symbols, location.identifier).isArray)
    && (location.index.Some? ==> ScopedExpression(symbols, location.index.value))
  }

  predicate ScopedCall(symbols: SymbolTables, call: Ir.MethodCall)
    decreases call
  {
    ScopedArguments(symbols, call.arguments)
  }

  predicate ScopedArguments(symbols: SymbolTables, arguments: seq<Ir.CallArgument>)
    decreases arguments
  {
    arguments == [] || (ScopedArgument(symbols, arguments[0]) && ScopedArguments(symbols, arguments[1..]))
  }

  predicate ScopedArgument(symbols: SymbolTables, argument: Ir.CallArgument)
    decreases argument
  {
    argument.ValueArgument? ==> ScopedExpression(symbols, argument.expression)
  }

  /** `fixed`: names that are not assigned. */
  predicate ScopedAssignment(symbols: SymbolTables, a: Ir.Assignment, fixed: set<string>) {
    && ScopedLocation(symbols, a.location)
    && FieldOf(symbols, a.location.identifier).identifier !in fixed
    && (a.expression.Some? ==> ScopedExpression(symbols, a.expression.value))
  }

  predicate ScopedUpdate(symbols: SymbolTables, u: Ir.ForUpdate, fixed: set<string>) {
    match u
    case UpdateAssignment(a) => ScopedAssignment(symbols, a, fixed)
    case UpdateCall(call) => ScopedCall(symbols, call)
  }

  /** Declarations of one scope: well formed, with valid and distinct identifiers. */
  predicate ScopedFields(fields: seq<Ir.Field>) {
    && (forall f :: f in fields ==> ValidIdentifier(f.identifier) && Ir.WellDeclared(f))
    && forall i, j :: 0 <= i < j < |fields| ==> fields[i].identifier != fields[j].identifier
  }

  /** `inLoop`: whether a `break` or `continue` has somewhere to go. */
  predicate ScopedStatement(symbols: SymbolTables, s: Ir.Statement, inLoop: bool, fixed: set<string>)
    requires symbols != []
    decreases s
  {
    match s
    case Assign(a) => ScopedAssignment(symbols, a, fixed)
    case CallStatement(call) => ScopedCall(symbols, call)
    case If(condition, ifBlock, elseBlock) =>
      && ScopedExpression(symbols, condition)
      && ScopedBlock(symbols, ifBlock, inLoop, fixed)
      && (elseBlock.Some? ==> ScopedBlock(symbols, elseBlock.value, inLoop, fixed))
    case For(initial, condition, update, body) =>
      && ScopedAssignment(symbols, initial, fixed)
      && ScopedExpression(symbols, condition)
      && ScopedUpdate(symbols, update, fixed)
      && ScopedBlock(symbols, body, true, fixed)
    case While(condition, body) => ScopedExpression(symbols, condition) && ScopedBlock(symbols, body, true, fixed)
    case Return(value) => value.Some? ==> ScopedExpression(symbols, value.value)
    case Break => inLoop
    case Continue => inLoop
  }

  predicate ScopedBlock(symbols: SymbolTables, b: Ir.Block, inLoop: bool, fixed: set<string>)
    decreases b
  {
    && ScopedFields(b.fields)
    && ScopedStatements(DeclareAll(symbols + [map[]], b.fields), b.statements, inLoop, fixed)
  }

  predicate ScopedStatements(symbols: SymbolTables, statements: seq<Ir.Statement>, inLoop: bool, fixed: set<string>)
    requires symbols != []
    decreases statements
  {
    statements == []
    || (ScopedStatement(symbols, statements[0], inLoop, fixed)
      && ScopedStatements(symbols, statements[1..], inLoop, fixed))
  }

  // ----- small steps of the generator -----

  /** `llir_block_add_assignment` on the current block. */
  function Append(s: Generator, a: Assignment): Generator {
    s.(code := s.code + [a])
  }

  /** `llir_block_add_field` on the current block. */
  function AddField(s: Generator, f: FieldDeclaration): Generator {
    s.(fields := s.fields + [f])
  }

  /** `new_temporary`: a fresh name, declared as a field of the current block. */
  function NewTemporary(s: Generator, prefix: char): (Generator, string) {
    var name := TemporaryName(prefix, s.temporaries);
    (s.(temporaries := s.temporaries + 1, fields := s.fields + [FieldDeclaration(name, false, [0])]), name)
  }

  function NewBlock(s: Generator): (Generator, BlockId) {
    (s.(nextBlock := s.nextBlock + 1), s.nextBlock)
  }

  /** `llir_block_set_terminal` and `next_block`: the current block is finished, `b` takes its place. */
  function Finish(s: Generator, t: Terminal, b: BlockId): Generator {
    s.(order := s.order + [s.current],
       finished := s.finished[s.current := Block(s.fields, s.code, t)],
       current := b, fields := [], code := [])
  }

  /** `literal_to_int64`: the magnitude 2^63 is already its own negation. */
  function LiteralToInt64(l: Ir.Literal): Word {
    var actuallyNegate := l.negate && l.value != TWO_63;
    var signed := Wrap(l.value);
    if actuallyNegate then Wrap(-(signed as int)) else signed
  }

  lemma LiteralToInt64Exact(l: Ir.Literal)
    requires Ir.LiteralInRange(l)
    ensures LiteralToInt64(l) == Ir.LiteralValue(l)
  {
  }

  // ----- expressions -----

  function ToAssignment(op: Ir.BinaryOperator): BinaryOperator
    requires op != Ir.Or && op != Ir.And
  {
    match op
    case EqualTo => Equal
    case NotEqualTo => NotEqual
    case LessThan => Less
    case LessOrEqual => LessEqual
    case GreaterOrEqual => GreaterEqual
    case GreaterThan => Greater
    case Plus => Add
    case Minus => Subtract
    case Times => Multiply
    case Over => Divide
    case Modulus => Modulo
  }

  function GenerateExpression(s: Generator, e: Ir.Expression): (r: (Generator, Operand))
    decreases e, 1
  {
    match e
    case Binary(op, l, r) =>
      if op == Ir.Or || op == Ir.And then GenerateShortCircuit(s, e)
      else
        var (s1, left) := GenerateExpression(s, l);
        var (s2, right) := GenerateExpression(s1, r);
        var (s3, d) := NewTemporary(s2, '$');
        (Append(s3, Assignment.Binary(ToAssignment(op), d, left, right)), Field(d))
    case Not(o) =>
      var (s1, source) := GenerateExpression(s, o);
      var (s2, d) := NewTemporary(s1, '$');
      (Append(s2, Unary(UnaryOperator.Not, d, source)), Field(d))
    case Negate(o) =>
      var (s1, source) := GenerateExpression(s, o);
      var (s2, d) := NewTemporary(s1, '$');
      (Append(s2, Unary(UnaryOperator.Negate, d, source)), Field(d))
    case Length(_, length) =>
      var (s1, d) := NewTemporary(s, '$');
      (Append(s1, Unary(Move, d, Literal(length))), Field(d))
    case Invoke(call) => GenerateCall(s, call)
    case Constant(l) =>
      var (s1, d) := NewTemporary(s, '$');
      (Append(s1, Unary(Move, d, Literal(LiteralToInt64(l)))), Field(d))
    case At(location) => GenerateLocation(s, location)
  }

  function GenerateLocation(s: Generator, location: Ir.Location): (r: (Generator, Operand))
    decreases location
  {
    var field := FieldOf(s.symbols, location.identifier);
    var (s1, d) := NewTemporary(s, '$');
    if location.index.None? then (Append(s1, Unary(Move, d, Field(field.identifier))), Field(d))
    else
      var (s2, index) := GenerateExpression(s1, location.index.value);
      (Append(s2, ArrayAccess(d, index, field.identifier)), Field(d))
  }

  /** The destination is allocated first, then the arguments are evaluated left to right. */
  function GenerateCall(s: Generator, call: Ir.MethodCall): (r: (Generator, Operand))
    decreases call
  {
    var (s1, d) := NewTemporary(s, '$');
    var (s2, arguments) := GenerateArguments(s1, call.arguments);
    (Append(s2, Call(d, call.identifier, arguments)), Field(d))
  }

  function GenerateArguments(s: Generator, arguments: seq<Ir.CallArgument>): (r: (Generator, seq<Operand>))
    decreases arguments
  {
    if arguments == [] then (s, [])
    else
      var (s1, first) := GenerateArgument(s, arguments[0]);
      var (s2, rest) := GenerateArguments(s1, arguments[1..]);
      (s2, [first] + rest)
  }

  function GenerateArgument(s: Generator, argument: Ir.CallArgument): (r: (Generator, Operand))
    decreases argument
  {
    match argument
    case StringArgument(text) => (s, Text(text))
    case ValueArgument(e) => GenerateExpression(s, e)
  }

  /** The comparison that skips the right operand: jump when an `||` is already 1, or when an `&&`
      is not 1. */
  function GenerateShortCircuit(s: Generator, e: Ir.Expression): (r: (Generator, Operand))
    requires e.Binary? && (e.op == Ir.Or || e.op == Ir.And)
    decreases e, 0
  {
    var (s1, d) := NewTemporary(s, '#');
    var (s2, left) := GenerateExpression(s1, e.left);
    var s3 := Append(s2, Unary(Move, d, left));
    var (s4, trueBlock) := NewBlock(s3);
    var (s5, falseBlock) := NewBlock(s4);
    var comparison := if e.op == Ir.Or then IfEqual else IfNotEqual;
    var s6 := Finish(s5, Branch(comparison, false, left, Literal(1), trueBlock, falseBlock), trueBlock);
    var (s7, right) := GenerateExpression(s6, e.right);
    var s8 := Append(s7, Unary(Move, d, right));
    (Finish(s8, Jump(falseBlock), falseBlock), Field(d))
  }

  // ----- fields -----

  /** `get_field_initializer` over zeroed values. */
  function FieldValues(f: Ir.Field): seq<Word> {
    seq(f.length, i requires 0 <= i < f.length =>
      if f.initializer.Some? && i < |f.initializer.value| then LiteralToInt64(f.initializer.value[i]) else 0)
  }

  /** `generate_field`: the name carries the scope level. */
  function MakeField(f: Ir.Field, level: nat): FieldDeclaration {
    FieldDeclaration(FieldName(f.identifier, level), f.isArray, FieldValues(f))
  }

  function Declare(symbols: SymbolTables, f: Ir.Field): SymbolTables {
    if symbols == [] then symbols else Insert(symbols, f.identifier, MakeField(f, |symbols| - 1))
  }

  function DeclareAll(symbols: SymbolTables, fields: seq<Ir.Field>): (symbols': SymbolTables)
    ensures |symbols'| == |symbols|
  {
    if fields == [] then symbols
    else Declare(DeclareAll(symbols, fields[..|fields| - 1]), fields[|fields| - 1])
  }

  /** `generate_field_initialization` of an array, element by element. */
  function InitializeElements(s: Generator, name: string, values: seq<Word>): Generator {
    if values == [] then s
    else
      var n := |values| - 1;
      Append(InitializeElements(s, name, values[..n]), ArrayUpdate(name, Literal(Wrap(n)), Literal(values[n])))
  }

  function InitializeField(s: Generator, field: FieldDeclaration): Generator {
    if field.isArray then InitializeElements(s, field.identifier, field.values)
    else Append(s, Unary(Move, field.identifier, Literal(if field.values == [] then 0 else field.values[0])))
  }

  function GenerateField(s: Generator, f: Ir.Field): Generator {
    var field := MakeField(f, if s.symbols == [] then 0 else |s.symbols| - 1);
    InitializeField(AddField(s.(symbols := Declare(s.symbols, f)), field), field)
  }

  function GenerateFields(s: Generator, fields: seq<Ir.Field>): Generator {
    if fields == [] then s else GenerateField(GenerateFields(s, fields[..|fields| - 1]), fields[|fields| - 1])
  }

  // ----- statements -----

  /** `generate_bounds_check`: one unsigned comparison, and exit -1 on the fall-through side. */
  function GenerateBoundsCheck(s: Generator, index: Operand, length: nat): Generator {
    var (s1, trueBlock) := NewBlock(s);
    var (s2, falseBlock) := NewBlock(s1);
    var s3 := Finish(s2, Branch(IfLess, true, index, Literal(Wrap(length)), trueBlock, falseBlock), trueBlock);
    Finish(s3, Exit(-1), falseBlock)
  }

  /** The index of an assigned element and its check; a scalar needs neither. */
  function GenerateIndex(s: Generator, location: Ir.Location): (r: (Generator, Operand))
  {
    var field := FieldOf(s.symbols, location.identifier);
    if location.index.None? then (s, Literal(0))
    else
      var (s1, index) := GenerateExpression(s, location.index.value);
      (GenerateBoundsCheck(s1, index, |field.values|), index)
  }

  function GenerateStore(s: Generator, location: Ir.Location, destination: string, index: Operand, source: Operand)
    : Generator {
    if location.index.Some? then Append(s, ArrayUpdate(destination, index, source))
    else Append(s, Unary(Move, destination, source))
  }

  /** `generate_assignment`: a compound assignment reads the old value after its right-hand side. */
  function GenerateAssignment(s: Generator, a: Ir.Assignment): Generator {
    var destination := FieldOf(s.symbols, a.location.identifier).identifier;
    var (s1, index) := GenerateIndex(s, a.location);
    var (s2, source) := if a.expression.None? then (s1, Literal(1)) else GenerateExpression(s1, a.expression.value);
    if a.op == Ir.Set then GenerateStore(s2, a.location, destination, index, source)
    else
      var (s3, old_) := NewTemporary(s2, '$');
      var s4 := Append(s3, if a.location.index.Some? then ArrayAccess(old_, index, destination)
                           else Unary(Move, old_, Field(destination)));
      var (s5, d) := NewTemporary(s4, '$');
      var s6 := Append(s5, Assignment.Binary(ToAssignment(Ir.Compound(a.op)), d, Field(old_), source));
      GenerateStore(s6, a.location, destination, index, Field(d))
  }

  /** Which operation of the blocks stands for which operator of the language. */
  const Operations: map<Ir.BinaryOperator, BinaryOperator> := map[
    Ir.EqualTo := Equal, Ir.NotEqualTo := NotEqual, Ir.LessThan := Less, Ir.LessOrEqual := LessEqual,
    Ir.GreaterOrEqual := GreaterEqual, Ir.GreaterThan := Greater, Ir.Plus := Add, Ir.Minus := Subtract,
    Ir.Times := Multiply, Ir.Over := Divide, Ir.Modulus := Modulo]

  const CompoundOperations: map<Ir.AssignOperator, BinaryOperator> := map[
    Ir.AddTo := Add, Ir.SubtractFrom := Subtract, Ir.MultiplyBy := Multiply, Ir.DivideBy := Divide,
    Ir.ReduceBy := Modulo, Ir.Increment := Add, Ir.Decrement := Subtract]

  lemma OperationsListed(op: Ir.BinaryOperator, compound: Ir.AssignOperator)
    ensures op != Ir.Or && op != Ir.And ==> op in Operations && ToAssignment(op) == Operations[op]
    ensures compound != Ir.Set ==>
      compound in CompoundOperations && ToAssignment(Ir.Compound(compound)) == CompoundOperations[compound]
  {
  }

  /** A binary expression ends in its own operation on the operands of its two sides. */
  lemma BinaryCode(s: Generator, e: Ir.Expression)
    requires e.Binary? && e.op != Ir.Or && e.op != Ir.And
    ensures var (s1, left) := GenerateExpression(s, e.left);
      var (s2, right) := GenerateExpression(s1, e.right);
      var d := TemporaryName('$', s2.temporaries);
      && e.op in Operations && GenerateExpression(s, e).1 == Field(d)
      && GenerateExpression(s, e).0.code == s2.code + [Assignment.Binary(Operations[e.op], d, left, right)]
  {
    OperationsListed(e.op, Ir.Set);
    hide Operations, ToAssignment, TemporaryName;
  }

  /** A compound assignment ends in reading the old value, its own operation on that and the right-hand side, and
      the store of the result. */
  lemma CompoundCode(s: Generator, a: Ir.Assignment)
    requires a.op != Ir.Set
    ensures var destination := FieldOf(s.symbols, a.location.identifier).identifier;
      var (s1, index) := GenerateIndex(s, a.location);
      var (s2, source) := if a.expression.None? then (s1, Literal(1)) else GenerateExpression(s1, a.expression.value);
      var old_, d := TemporaryName('$', s2.temporaries), TemporaryName('$', s2.temporaries + 1);
      && a.op in CompoundOperations
      && GenerateAssignment(s, a).code == s2.code
          + (if a.location.index.None?
             then [Unary(Move, old_, Field(destination)),
                   Assignment.Binary(CompoundOperations[a.op], d, Field(old_), source),
                   Unary(Move, destination, Field(d))]
             else [ArrayAccess(old_, index, destination),
                   Assignment.Binary(CompoundOperations[a.op], d, Field(old_), source),
                   ArrayUpdate(destination, index, Field(d))])
  {
    OperationsListed(Ir.Or, a.op);
    hide CompoundOperations, ToAssignment, TemporaryName, GenerateExpression, GenerateIndex;
  }

  function GenerateUpdate(s: Generator, u: Ir.ForUpdate): Generator {
    match u
    case UpdateAssignment(a) => GenerateAssignment(s, a)
    case UpdateCall(call) => GenerateCall(s, call).0
  }

  function Top(ids: seq<BlockId>): BlockId {
    if ids == [] then 0 else ids[|ids| - 1]
  }

  function Drop(ids: seq<BlockId>): seq<BlockId> {
    if ids == [] then [] else ids[..|ids| - 1]
  }

  function PushLoop(s: Generator, breakBlock: BlockId, continueBlock: BlockId): Generator {
    s.(breaks := s.breaks + [breakBlock], continues := s.continues + [continueBlock])
  }

  function PopLoop(s: Generator): Generator {
    s.(breaks := Drop(s.breaks), continues := Drop(s.continues))
  }

  /** A branch whose comparison with 0 leads past the block. */
  function SkipIfZero(condition: Operand, trueBlock: BlockId, falseBlock: BlockId): Terminal {
    Branch(IfEqual, false, condition, Literal(0), trueBlock, falseBlock)
  }

  function GenerateStatement(s: Generator, stmt: Ir.Statement): (s': Generator)
    decreases stmt, 1
  {
    match stmt
    case Assign(a) => GenerateAssignment(s, a)
    case CallStatement(call) => GenerateCall(s, call).0
    case If(_, _, _) => GenerateIf(s, stmt)
    case For(_, _, _, _) => GenerateFor(s, stmt)
    case While(_, _) => GenerateWhile(s, stmt)
    case Return(value) =>
      var (s1, source) := if value.None? then (s, Literal(0)) else GenerateExpression(s, value.value);
      GenerateEnd(s1, Terminal.Return(source))
    case Break => GenerateEnd(s, Jump(Top(s.breaks)))
    case Continue => GenerateEnd(s, Jump(Top(s.continues)))
  }

  function GenerateIf(s: Generator, stmt: Ir.Statement): (s': Generator)
    requires stmt.If?
    decreases stmt, 0
  {
    var (s1, value) := GenerateExpression(s, stmt.condition);
    var (s2, trueBlock) := NewBlock(s1);
    var (s3, falseBlock) := NewBlock(s2);
    var s4 := Finish(s3, SkipIfZero(value, trueBlock, falseBlock), trueBlock);
    var s5 := GenerateBlock(s4, stmt.ifBlock);
    match stmt.elseBlock
    case None => Finish(s5, Jump(falseBlock), falseBlock)
    case Some(other) =>
      var (s6, endBlock) := NewBlock(s5);
      var s7 := Finish(s6, Jump(endBlock), falseBlock);
      var s8 := GenerateBlock(s7, other);
      Finish(s8, Jump(endBlock), endBlock)
  }

  /** The four blocks of a `for`, in the order of their ids: condition, body, update, end. */
  function OpenFor(s: Generator): Generator {
    var (s1, conditionBlock) := NewBlock(s);
    var (s2, loopBlock) := NewBlock(s1);
    var (s3, updateBlock) := NewBlock(s2);
    var (s4, endBlock) := NewBlock(s3);
    Finish(PushLoop(s4, endBlock, updateBlock), Jump(conditionBlock), conditionBlock)
  }

  /** The three blocks of a `while`: condition, body, end. */
  function OpenWhile(s: Generator): Generator {
    var (s1, conditionBlock) := NewBlock(s);
    var (s2, loopBlock) := NewBlock(s1);
    var (s3, endBlock) := NewBlock(s2);
    Finish(PushLoop(s3, endBlock, conditionBlock), Jump(conditionBlock), conditionBlock)
  }

  function GenerateFor(s: Generator, stmt: Ir.Statement): (s': Generator)
    requires stmt.For?
    decreases stmt, 0
  {
    var s1 := GenerateAssignment(s, stmt.initial);
    var conditionBlock, loopBlock, updateBlock, endBlock := s1.nextBlock, s1.nextBlock + 1, s1.nextBlock + 2,
      s1.nextBlock + 3;
    var (s2, value) := GenerateExpression(OpenFor(s1), stmt.condition);
    var s3 := GenerateBlock(Finish(s2, SkipIfZero(value, loopBlock, endBlock), loopBlock), stmt.body);
    var s4 := GenerateUpdate(Finish(s3, Jump(updateBlock), updateBlock), stmt.update);
    PopLoop(Finish(s4, Jump(conditionBlock), endBlock))
  }

  function GenerateWhile(s: Generator, stmt: Ir.Statement): (s': Generator)
    requires stmt.While?
    decreases stmt, 0
  {
    var conditionBlock, loopBlock, endBlock := s.nextBlock, s.nextBlock + 1, s.nextBlock + 2;
    var (s1, value) := GenerateExpression(OpenWhile(s), stmt.condition);
    var s2 := GenerateBlock(Finish(s1, SkipIfZero(value, loopBlock, endBlock), loopBlock), stmt.body);
    PopLoop(Finish(s2, Jump(conditionBlock), endBlock))
  }

  /** Ends the block; whatever follows goes to a block nothing leads to. */
  function GenerateEnd(s: Generator, t: Terminal): Generator {
    var (s1, next) := NewBlock(s);
    Finish(s1, t, next)
  }

  /** `generate_block` in a new scope. */
  function GenerateBlock(s: Generator, b: Ir.Block): (s': Generator)
    decreases b, 0
  {
    var s1 := s.(symbols := s.symbols + [map[]]);
    var s2 := GenerateFields(s1, b.fields);
    var s3 := GenerateStatements(s2, b.statements);
    s3.(symbols := s.symbols)
  }

  function GenerateStatements(s: Generator, statements: seq<Ir.Statement>): (s': Generator)
    decreases statements
  {
    if statements == [] then s
    else GenerateStatements(GenerateStatement(s, statements[0]), statements[1..])
  }

  // ----- methods -----

  predicate ScopedMethod(globals: map<string, FieldDeclaration>, m: Ir.Method, fixed: set<string>) {
    && (forall f :: f in m.arguments ==> !f.isArray && f.initializer.None?)
    && ScopedFields(m.arguments + m.body.fields)
    && ScopedStatements(DeclareAll([globals, map[]], m.arguments + m.body.fields), m.body.statements, false, fixed)
  }

  /** `generate_method`: the parameters and the body's own fields share scope level 1. */
  function StartMethod(globals: map<string, FieldDeclaration>, m: Ir.Method, temporaries: nat, nextBlock: nat)
    : Generator {
    var s := Generator(temporaries, nextBlock + 1, DeclareAll([globals, map[]], m.arguments),
                       [], [], [], map[], nextBlock, [], []);
    GenerateFields(s, m.body.fields)
  }

  /** The last block returns 0 from a void method; from any other, reaching it exits with -2. */
  function LastTerminal(m: Ir.Method): Terminal {
    if m.returnType == Ir.Void then Terminal.Return(Literal(0)) else Exit(-2)
  }

  function GenerateBody(globals: map<string, FieldDeclaration>, m: Ir.Method, temporaries: nat, nextBlock: nat)
    : Generator {
    GenerateStatements(StartMethod(globals, m, temporaries, nextBlock), m.body.statements)
  }

  /** A block's predecessor array; it is empty until the block becomes a target. */
  function Listed(predecessors: map<BlockId, seq<BlockId>>, b: BlockId): seq<BlockId> {
    if b in predecessors then predecessors[b] else []
  }

  /** `llir_block_set_terminal` appends the block to the array of every target, in order. */
  function AddPredecessor(predecessors: map<BlockId, seq<BlockId>>, targets: seq<BlockId>, b: BlockId)
    : map<BlockId, seq<BlockId>>
    decreases targets
  {
    if targets == [] then predecessors
    else AddPredecessor(predecessors[targets[0] := Listed(predecessors, targets[0]) + [b]], targets[1..], b)
  }

  /** The predecessor arrays after the terminals of `order` were set one by one. */
  function PredecessorLists(order: seq<BlockId>, blocks: map<BlockId, Block>): map<BlockId, seq<BlockId>>
  {
    if order == [] then map[]
    else
      var last := order[|order| - 1];
      AddPredecessor(PredecessorLists(order[..|order| - 1], blocks), if last in blocks then
        Successors(blocks[last].terminal) else [], last)
  }

  /** The method made of these blocks. */
  function Assembled(order: seq<BlockId>, blocks: map<BlockId, Block>): Graph {
    var predecessors := PredecessorLists(order, blocks);
    Graph(order, blocks, map b | b in blocks :: Listed(predecessors, b))
  }

  function Blocks(s: Generator, t: Terminal): map<BlockId, Block> {
    s.finished[s.current := Block(s.fields, s.code, t)]
  }

  function GenerateMethod(globals: map<string, FieldDeclaration>, m: Ir.Method, temporaries: nat, nextBlock: nat)
    : Graph {
    var s := GenerateBody(globals, m, temporaries, nextBlock);
    Assembled(s.order + [s.current], Blocks(s, LastTerminal(m)))
  }

  lemma {:induction false} DeclareAllConcatenation(symbols: SymbolTables, first: seq<Ir.Field>, second: seq<Ir.Field>)
    ensures DeclareAll(symbols, first + second) == DeclareAll(DeclareAll(symbols, first), second)
  {
    if second == [] {
      assert first + second == first;
    } else {
      var front := second[..|second| - 1];
      assert (first + second)[..|first + second| - 1] == first + front;
      DeclareAllConcatenation(symbols, first, front);
    }
  }

  // ----- allowing more names to be assigned -----

  lemma {:induction false} StatementAllowsMore(symbols: SymbolTables, s: Ir.Statement, inLoop: bool,
                                               fixed: set<string>, fewer: set<string>)
    requires symbols != [] && fewer <= fixed && ScopedStatement(symbols, s, inLoop, fixed)
    ensures ScopedStatement(symbols, s, inLoop, fewer)
    decreases s
  {
    hide ScopedExpression, ScopedLocation, ScopedBlock;
    match s
    case If(_, ifBlock, elseBlock) =>
      BlockAllowsMore(symbols, ifBlock, inLoop, fixed, fewer);
      if elseBlock.Some? { BlockAllowsMore(symbols, elseBlock.value, inLoop, fixed, fewer); }
    case For(_, _, _, body) => BlockAllowsMore(symbols, body, true, fixed, fewer);
    case While(_, body) => BlockAllowsMore(symbols, body, true, fixed, fewer);
    case _ =>
  }

  lemma {:induction false} BlockAllowsMore(symbols: SymbolTables, b: Ir.Block, inLoop: bool, fixed: set<string>,
                                           fewer: set<string>)
    requires fewer <= fixed && ScopedBlock(symbols, b, inLoop, fixed)
    ensures ScopedBlock(symbols, b, inLoop, fewer)
    decreases b
  {
    hide ScopedStatements, ScopedFields;
    StatementsAllowMore(DeclareAll(symbols + [map[]], b.fields), b.statements, inLoop, fixed, fewer);
  }

  lemma {:induction false} StatementsAllowMore(symbols: SymbolTables, statements: seq<Ir.Statement>, inLoop: bool,
                                               fixed: set<string>, fewer: set<string>)
    requires symbols != [] && fewer <= fixed && ScopedStatements(symbols, statements, inLoop, fixed)
    ensures ScopedStatements(symbols, statements, inLoop, fewer)
    decreases statements
  {
    hide ScopedStatement;
    if statements != [] {
      StatementAllowsMore(symbols, statements[0], inLoop, fixed, fewer);
      StatementsAllowMore(symbols, statements[1..], inLoop, fixed, fewer);
    }
  }

  lemma MethodAllowsMore(globals: map<string, FieldDeclaration>, m: Ir.Method, fixed: set<string>, fewer: set<string>)
    requires fewer <= fixed && ScopedMethod(globals, m, fixed)
    ensures ScopedMethod(globals, m, fewer)
  {
    hide ScopedStatements, ScopedFields;
    StatementsAllowMore(DeclareAll([globals, map[]], m.arguments + m.body.fields), m.body.statements, false, fixed,
      fewer);
  }
}
