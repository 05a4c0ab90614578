/** Linearizing and rebuilding undo each other, for whole programs: the readers consume exactly the
    stream of every tree of the shape the parser produces and rebuild what the tree says. */
module ProgramMeaning {
  import opened Words
  import opened Names
  import opened Ast
  import opened ExpressionSyntax
  import opened IrBuilding
  import opened ExpressionMeaning
  import opened WrittenLiterals
  import Ir

  // ----- trees of the shape the parser produces -----

  datatype LiteralSyntaxOf = Written(negated: bool, token: Token)

  datatype BracketSyntax = NoBrackets | Brackets(length: Token) | EmptyBrackets

  datatype InitializerSyntax = Single(literal: LiteralSyntaxOf) | Braced(literals: seq<LiteralSyntaxOf>)

  datatype DeclaratorSyntax = DeclaratorSyntax(identifier: string, brackets: BracketSyntax,
      initializer: Option<InitializerSyntax>)

  datatype FieldSyntax = FieldSyntax(constant: bool, base: Ir.Type, declarators: seq<DeclaratorSyntax>)

  datatype AssignmentSyntax = AssignmentSyntax(target: string, index: Option<Syntax>, how: Ir.AssignOperator,
      value: Option<Syntax>)

  datatype UpdateSyntax = AssignUpdate(assignment: AssignmentSyntax) |
      CallUpdate(callee: string, arguments: seq<ArgumentSyntax>)

  datatype StatementSyntax =
    | AssignWritten(assignment: AssignmentSyntax)
    | CallWritten(callee: string, arguments: seq<ArgumentSyntax>)
    | IfWritten(condition: Syntax, ifBlock: BlockSyntax, elseBlock: Option<BlockSyntax>)
    | ForWritten(variable: string, initial: Syntax, condition: Syntax, update: UpdateSyntax, body: BlockSyntax)
    | WhileWritten(condition: Syntax, body: BlockSyntax)
    | ReturnWritten(value: Option<Syntax>)
    | BreakWritten
    | ContinueWritten

  datatype BlockSyntax = BlockSyntax(fields: seq<FieldSyntax>, statements: seq<StatementSyntax>)

  datatype ParameterSyntax = ParameterSyntax(base: Ir.Type, identifier: string)

  datatype MethodSyntax = MethodSyntax(returnType: Ir.Type, identifier: string, parameters: seq<ParameterSyntax>,
      body: BlockSyntax)

  datatype ProgramSyntax = ProgramSyntax(imports: seq<string>, fields: seq<FieldSyntax>, methods: seq<MethodSyntax>)

  // ----- their trees -----

  function IdentifierTree(id: string): Node {
    Leaf(IdentifierNode, Identifier(id))
  }

  function TypeTree(t: Ir.Type): Node {
    if t == Ir.Void then Leaf(VoidNode, NoToken) else Leaf(DataTypeNode, TypeName(t))
  }

  function LiteralTrees(ls: seq<LiteralSyntaxOf>): seq<Node> {
    if ls == [] then [] else [LiteralTree(ls[0].negated, ls[0].token)] + LiteralTrees(ls[1..])
  }

  function InitializerTree(i: InitializerSyntax): Node {
    match i
    case Single(l) => Inner(InitializerNode, [LiteralTree(l.negated, l.token)])
    case Braced(ls) => Inner(InitializerNode, [Inner(ArrayLiteral, LiteralTrees(ls))])
  }

  function DeclaratorTree(d: DeclaratorSyntax): Node {
    Inner(FieldIdentifier,
      [IdentifierTree(d.identifier)]
      + (BracketTrees(d.brackets)
         + (if d.initializer.Some? then [InitializerTree(d.initializer.value)] else [])))
  }

  function DeclaratorTrees(ds: seq<DeclaratorSyntax>): seq<Node> {
    if ds == [] then [] else [DeclaratorTree(ds[0])] + DeclaratorTrees(ds[1..])
  }

  function FieldTree(f: FieldSyntax): Node {
    Inner(FieldNode, (if f.constant then [Inner(ConstNode, [])] else [])
      + ([TypeTree(f.base)] + DeclaratorTrees(f.declarators)))
  }

  function FieldTrees(fs: seq<FieldSyntax>): seq<Node> {
    if fs == [] then [] else [FieldTree(fs[0])] + FieldTrees(fs[1..])
  }

  function AssignmentTree(a: AssignmentSyntax): Node {
    Inner(AssignmentNode,
      [LocationTree(a.target, a.index), Leaf(AssignOperatorNode, Assigning(a.how))]
      + if a.value.Some? then [Tree(a.value.value)] else [])
  }

  function UpdateTree(u: UpdateSyntax): Node {
    Inner(ForUpdateNode,
      [match u
       case AssignUpdate(a) => AssignmentTree(a)
       case CallUpdate(id, arguments) => CallTree(id, arguments)])
  }

  function StatementTree(s: StatementSyntax): Node
    decreases s
  {
    Inner(StatementNode,
      [match s
       case AssignWritten(a) => AssignmentTree(a)
       case CallWritten(id, arguments) => CallTree(id, arguments)
       case IfWritten(c, b, None) => Inner(IfNode, [Tree(c), BlockTree(b)])
       case IfWritten(c, b, Some(other)) => Inner(IfNode, [Tree(c), BlockTree(b), BlockTree(other)])
       case ForWritten(id, i, c, u, b) => Inner(ForNode,
         [IdentifierTree(id), Tree(i), Tree(c), UpdateTree(u), BlockTree(b)])
       case WhileWritten(c, b) => Inner(WhileNode, [Tree(c), BlockTree(b)])
       case ReturnWritten(v) => Inner(ReturnNode, if v.Some? then [Tree(v.value)] else [])
       case BreakWritten => Inner(BreakNode, [])
       case ContinueWritten => Inner(ContinueNode, [])])
  }

  function BlockTree(b: BlockSyntax): Node
    decreases b
  {
    Inner(BlockNode, FieldTrees(b.fields) + StatementTrees(b.statements))
  }

  function StatementTrees(ss: seq<StatementSyntax>): seq<Node>
    decreases ss
  {
    if ss == [] then [] else [StatementTree(ss[0])] + StatementTrees(ss[1..])
  }

  function ParameterTrees(ps: seq<ParameterSyntax>): seq<Node> {
    if ps == [] then []
    else [Inner(MethodArgument, [TypeTree(ps[0].base), IdentifierTree(ps[0].identifier)])] + ParameterTrees(ps[1..])
  }

  function MethodTree(m: MethodSyntax): Node {
    Inner(MethodNode, [TypeTree(m.returnType), IdentifierTree(m.identifier)]
      + (ParameterTrees(m.parameters) + [BlockTree(m.body)]))
  }

  function MethodTrees(ms: seq<MethodSyntax>): seq<Node> {
    if ms == [] then [] else [MethodTree(ms[0])] + MethodTrees(ms[1..])
  }

  function ImportTrees(ids: seq<string>): seq<Node> {
    if ids == [] then [] else [Inner(ImportNode, [IdentifierTree(ids[0])])] + ImportTrees(ids[1..])
  }

  function ProgramTree(p: ProgramSyntax): Node {
    Inner(ProgramNode, ImportTrees(p.imports) + (FieldTrees(p.fields) + MethodTrees(p.methods)))
  }

  // ----- what can be read: literals as the scanner lets them through, declared names likewise -----

  predicate LiteralsReadable(ls: seq<LiteralSyntaxOf>) {
    forall i :: 0 <= i < |ls| ==> LiteralReadable(ls[i].negated, ls[i].token)
  }

  predicate InitializerReadable(i: InitializerSyntax) {
    match i
    case Single(l) => LiteralReadable(l.negated, l.token)
    case Braced(ls) => LiteralsReadable(ls) && |ls| < TWO_63
  }

  predicate DeclaratorReadable(d: DeclaratorSyntax) {
    && ValidIdentifier(d.identifier)
    && (d.brackets.Brackets? ==> IntegerMeaning(false, d.brackets.length).Some?)
    && (d.initializer.Some? ==> InitializerReadable(d.initializer.value))
  }

  predicate FieldReadable(f: FieldSyntax) {
    f.base != Ir.Void && forall i :: 0 <= i < |f.declarators| ==> DeclaratorReadable(f.declarators[i])
  }

  predicate FieldsReadable(fs: seq<FieldSyntax>) {
    forall i :: 0 <= i < |fs| ==> FieldReadable(fs[i])
  }

  predicate AssignmentReadable(a: AssignmentSyntax) {
    && (a.index.Some? ==> Readable(a.index.value))
    && (a.value.Some? ==> Readable(a.value.value))
    && (a.value.None? <==> a.how == Ir.Increment || a.how == Ir.Decrement)
  }

  predicate UpdateReadable(u: UpdateSyntax) {
    match u
    case AssignUpdate(a) => AssignmentReadable(a)
    case CallUpdate(_, arguments) => ReadableAll(arguments)
  }

  predicate StatementReadable(s: StatementSyntax)
    decreases s
  {
    match s
    case AssignWritten(a) => AssignmentReadable(a)
    case CallWritten(_, arguments) => ReadableAll(arguments)
    case IfWritten(c, b, other) => Readable(c) && BlockReadable(b) && (other.Some? ==> BlockReadable(other.value))
    case ForWritten(_, i, c, u, b) => Readable(i) && Readable(c) && UpdateReadable(u) && BlockReadable(b)
    case WhileWritten(c, b) => Readable(c) && BlockReadable(b)
    case ReturnWritten(v) => v.Some? ==> Readable(v.value)
    case BreakWritten => true
    case ContinueWritten => true
  }

  predicate BlockReadable(b: BlockSyntax)
    decreases b
  {
    FieldsReadable(b.fields) && StatementsReadable(b.statements)
  }

  predicate StatementsReadable(ss: seq<StatementSyntax>)
    decreases ss
  {
    ss == [] || (StatementReadable(ss[0]) && StatementsReadable(ss[1..]))
  }

  predicate ProgramReadable(p: ProgramSyntax) {
    && FieldsReadable(p.fields)
    && forall i :: 0 <= i < |p.methods| ==> MethodReadable(p.methods[i])
  }

  predicate MethodReadable(m: MethodSyntax) {
    BlockReadable(m.body) && forall i :: 0 <= i < |m.parameters| ==>
      m.parameters[i].base != Ir.Void && ValidIdentifier(m.parameters[i].identifier)
  }

  // ----- what is meant -----

  function LiteralMeanings(ls: seq<LiteralSyntaxOf>): seq<Ir.Literal> {
    if ls == [] then [] else [LiteralMeaning(ls[0].negated, ls[0].token)] + LiteralMeanings(ls[1..])
  }

  function LengthMeaning(b: BracketSyntax): nat {
    match b
    case NoBrackets => 1
    case Brackets(t) => if IntegerMeaning(false, t).Some? then IntegerMeaning(false, t).value else 0
    case EmptyBrackets => 0
  }

  function DeclaratorMeaning(constant: bool, base: Ir.Type, d: DeclaratorSyntax): Ir.Field {
    Ir.Field(base, !d.brackets.NoBrackets?, constant, d.identifier, LengthMeaning(d.brackets),
      (match d.initializer
       case None => None
       case Some(Single(l)) => Some([LiteralMeaning(l.negated, l.token)])
       case Some(Braced(ls)) => Some(LiteralMeanings(ls))),
      d.brackets.EmptyBrackets?, d.initializer.Some? && d.initializer.value.Braced?)
  }

  function DeclaratorMeanings(constant: bool, base: Ir.Type, ds: seq<DeclaratorSyntax>): seq<Ir.Field> {
    if ds == [] then [] else [DeclaratorMeaning(constant, base, ds[0])] + DeclaratorMeanings(constant, base, ds[1..])
  }

  function FieldMeanings(fs: seq<FieldSyntax>): seq<Ir.Field> {
    if fs == [] then [] else DeclaratorMeanings(fs[0].constant, fs[0].base, fs[0].declarators) + FieldMeanings(fs[1..])
  }

  function AssignmentMeaning(a: AssignmentSyntax): Ir.Assignment {
    Ir.Assignment(LocationMeaning(a.target, a.index), a.how, if a.value.None? then None
      else Some(Meaning(a.value.value)))
  }

  function UpdateMeaning(u: UpdateSyntax): Ir.ForUpdate {
    match u
    case AssignUpdate(a) => Ir.UpdateAssignment(AssignmentMeaning(a))
    case CallUpdate(id, arguments) => Ir.UpdateCall(Ir.MethodCall(id, ArgumentMeanings(arguments)))
  }

  function StatementMeaning(s: StatementSyntax): Ir.Statement
    decreases s
  {
    match s
    case AssignWritten(a) => Ir.Assign(AssignmentMeaning(a))
    case CallWritten(id, arguments) => Ir.CallStatement(Ir.MethodCall(id, ArgumentMeanings(arguments)))
    case IfWritten(c, b, None) => Ir.If(Meaning(c), BlockMeaning(b), None)
    case IfWritten(c, b, Some(other)) => Ir.If(Meaning(c), BlockMeaning(b), Some(BlockMeaning(other)))
    case ForWritten(id, i, c, u, b) =>
      Ir.For(Ir.Assignment(Ir.Location(id, None), Ir.Set, Some(Meaning(i))), Meaning(c), UpdateMeaning(u),
        BlockMeaning(b))
    case WhileWritten(c, b) => Ir.While(Meaning(c), BlockMeaning(b))
    case ReturnWritten(v) => Ir.Return(if v.None? then None else Some(Meaning(v.value)))
    case BreakWritten => Ir.Break
    case ContinueWritten => Ir.Continue
  }

  function BlockMeaning(b: BlockSyntax): Ir.Block
    decreases b
  {
    Ir.Block(FieldMeanings(b.fields), StatementMeanings(b.statements))
  }

  function StatementMeanings(ss: seq<StatementSyntax>): seq<Ir.Statement>
    decreases ss
  {
    if ss == [] then [] else [StatementMeaning(ss[0])] + StatementMeanings(ss[1..])
  }

  function ParameterMeanings(ps: seq<ParameterSyntax>): seq<Ir.Field> {
    if ps == [] then []
    else [Ir.Field(ps[0].base, false, false, ps[0].identifier, 1, None, false, false)] + ParameterMeanings(ps[1..])
  }

  function MethodMeaning(m: MethodSyntax): Ir.Method {
    Ir.Method(m.returnType, m.identifier, ParameterMeanings(m.parameters), BlockMeaning(m.body))
  }

  function MethodMeanings(ms: seq<MethodSyntax>): seq<Ir.Method> {
    if ms == [] then [] else [MethodMeaning(ms[0])] + MethodMeanings(ms[1..])
  }

  function ProgramMeaning(p: ProgramSyntax): Ir.Program {
    Ir.Program(p.imports, FieldMeanings(p.fields), MethodMeanings(p.methods))
  }

  // ----- fields -----

  lemma TypeRead(t: Ir.Type, rest: Stream)
    ensures ReadType(StreamOf(TypeTree(t), rest)) == Some((t, rest))
    ensures !Starts(StreamOf(TypeTree(t), rest), ConstNode)
  {
    hide StreamOf;
    StreamLeaf(if t == Ir.Void then VoidNode else DataTypeNode, if t == Ir.Void then NoToken else TypeName(t), rest);
  }

  lemma {:induction false} LiteralsRead(ls: seq<LiteralSyntaxOf>, rest: Stream)
    requires LiteralsReadable(ls) && !Starts(rest, LiteralNode)
    ensures ReadLiterals(StreamOfAll(LiteralTrees(ls), rest)) == Some((LiteralMeanings(ls), rest))
  {
    hide StreamOf, StreamOfAll, ReadLiteral, LiteralReadable;
    if ls == [] {
      StreamAllNone(rest);
    } else {
      StreamAllCons(LiteralTree(ls[0].negated, ls[0].token), LiteralTrees(ls[1..]), rest);
      LiteralsRead(ls[1..], rest);
      LiteralRead(ls[0].negated, ls[0].token, StreamOfAll(LiteralTrees(ls[1..]), rest));
    }
  }

  lemma InitializerRead(i: InitializerSyntax, d: Declarator, rest: Stream)
    requires InitializerReadable(i) && !Starts(rest, LiteralNode)
    ensures Starts(StreamOf(InitializerTree(i), rest), InitializerNode)
    ensures ReadInitializer(StreamOf(InitializerTree(i), rest), d)
      == Some((d.(initializer :=
        Some(match i case Single(l) => [LiteralMeaning(l.negated, l.token)] case Braced(ls) => LiteralMeanings(ls)),
                  braced := i.Braced?), rest))
  {
    hide StreamOf, StreamOfAll, ReadLiterals, LiteralTree, LiteralTrees, LiteralMeaning, LiteralReadable;
    match i
    case Single(l) =>
      var ls := [l];
      assert LiteralsReadable(ls);
      LiteralsRead(ls, rest);
      OneLiteral(l);
      StreamInner(InitializerNode, [LiteralTree(l.negated, l.token)], rest);
      StreamAllOne(LiteralTree(l.negated, l.token), rest);
      LiteralRead(l.negated, l.token, rest);
    case Braced(ls) =>
      var inner := Inner(ArrayLiteral, LiteralTrees(ls));
      StreamInner(InitializerNode, [inner], rest);
      StreamAllOne(inner, rest);
      StreamInner(ArrayLiteral, LiteralTrees(ls), rest);
      var s := StreamOf(InitializerTree(i), rest);
      assert s[2..] == s[1..][1..];
      LiteralsRead(ls, rest);
  }

  lemma OneLiteral(l: LiteralSyntaxOf)
    ensures LiteralTrees([l]) == [LiteralTree(l.negated, l.token)] && LiteralMeanings([l])
      == [LiteralMeaning(l.negated, l.token)]
  {
    assert [l][1..] == [];
  }

  /** What may follow a declaration: another one, a statement, a method, or an end. */
  predicate AfterField(rest: Stream) {
    && !Starts(rest, LiteralNode) && !Starts(rest, InitializerNode) && !Starts(rest, IntLiteralNode)
      && !Starts(rest, EmptyArrayLength)
  }

  function BracketTrees(b: BracketSyntax): seq<Node> {
    match b
    case NoBrackets => []
    case Brackets(t) => [Leaf(IntLiteralNode, t)]
    case EmptyBrackets => [Inner(EmptyArrayLength, [])]
  }

  lemma LengthRead(b: BracketSyntax, rest: Stream)
    requires (b.Brackets? ==> IntegerMeaning(false, b.length).Some?) && !Starts(rest, IntLiteralNode)
      && !Starts(rest, EmptyArrayLength)
    ensures ReadLength(StreamOfAll(BracketTrees(b), rest))
      == Some((Declarator(!b.NoBrackets?, LengthMeaning(b), b.EmptyBrackets?, None, false), rest))
  {
    hide StreamOf, StreamOfAll, IntegerOf;
    match b
    case NoBrackets => StreamAllNone(rest);
    case Brackets(t) =>
      IntegerRead(t, false);
      hide IntegerMeaning;
      StreamAllOne(Leaf(IntLiteralNode, t), rest);
      StreamLeaf(IntLiteralNode, t, rest);
    case EmptyBrackets =>
      StreamAllOne(Inner(EmptyArrayLength, []), rest);
      StreamLeaf(EmptyArrayLength, NoToken, rest);
  }

  lemma DeclaratorRead(constant: bool, base: Ir.Type, d: DeclaratorSyntax, rest: Stream)
    requires DeclaratorReadable(d) && AfterField(rest)
    ensures Starts(StreamOf(DeclaratorTree(d), rest), FieldIdentifier)
    ensures ReadField(StreamOf(DeclaratorTree(d), rest), constant, base)
      == Some((DeclaratorMeaning(constant, base, d), rest))
  {
    hide StreamOf, StreamOfAll, ReadInitializer, InitializerTree, InitializerReadable, LiteralMeaning,
      LiteralMeanings, IntegerMeaning, ReadLength, LengthMeaning, BracketTrees;
    var id := IdentifierTree(d.identifier);
    var initializer := if d.initializer.Some? then [InitializerTree(d.initializer.value)] else [];
    StreamInner(FieldIdentifier, [id] + (BracketTrees(d.brackets) + initializer), rest);
    StreamAllCons(id, BracketTrees(d.brackets) + initializer, rest);
    IdentifierRead(d.identifier, StreamOfAll(BracketTrees(d.brackets) + initializer, rest));
    StreamAllConcat(BracketTrees(d.brackets), initializer, rest);
    LastOfDeclarator(d, rest);
    LengthRead(d.brackets, StreamOfAll(initializer, rest));
  }

  /** The initializer, if there is one. */
  lemma LastOfDeclarator(d: DeclaratorSyntax, rest: Stream)
    requires DeclaratorReadable(d) && AfterField(rest)
    ensures var last := StreamOfAll(if d.initializer.Some? then [InitializerTree(d.initializer.value)] else [], rest);
      && !Starts(last, IntLiteralNode) && !Starts(last, EmptyArrayLength)
      && forall x :: ReadInitializer(last, x) == Some((
           (match d.initializer
            case None => x
            case Some(Single(l)) => x.(initializer := Some([LiteralMeaning(l.negated, l.token)]), braced := false)
            case Some(Braced(ls)) => x.(initializer := Some(LiteralMeanings(ls)), braced := true)), rest))
  {
    hide StreamOf, StreamOfAll, InitializerTree, InitializerReadable, LiteralMeaning, LiteralMeanings;
    match d.initializer
    case None =>
      StreamAllNone(rest);
      forall x ensures ReadInitializer(rest, x) == Some((x, rest)) {
      }
    case Some(i) =>
      StreamAllOne(InitializerTree(i), rest);
      forall x ensures ReadInitializer(StreamOf(InitializerTree(i), rest), x)
        == Some((x.(initializer :=
          Some(match i case Single(l) => [LiteralMeaning(l.negated, l.token)] case Braced(ls) => LiteralMeanings(ls)),
                    braced := i.Braced?), rest))
      {
        InitializerRead(i, x, rest);
      }
      InitializerRead(i, Declarator(false, 1, false, None, false), rest);
  }

  lemma {:induction false} DeclaratorsRead(constant: bool, base: Ir.Type, ds: seq<DeclaratorSyntax>, rest: Stream)
    requires (forall i :: 0 <= i < |ds| ==> DeclaratorReadable(ds[i])) && AfterField(rest)
      && !Starts(rest, FieldIdentifier)
    ensures AfterField(StreamOfAll(DeclaratorTrees(ds), rest))
    ensures ReadFieldIdentifiers(StreamOfAll(DeclaratorTrees(ds), rest), constant, base)
      == Some((DeclaratorMeanings(constant, base, ds), rest))
  {
    hide StreamOf, StreamOfAll, ReadField, DeclaratorTree, DeclaratorMeaning, DeclaratorReadable;
    if ds == [] {
      StreamAllNone(rest);
    } else {
      StreamAllCons(DeclaratorTree(ds[0]), DeclaratorTrees(ds[1..]), rest);
      DeclaratorsRead(constant, base, ds[1..], rest);
      DeclaratorRead(constant, base, ds[0], StreamOfAll(DeclaratorTrees(ds[1..]), rest));
    }
  }

  lemma FieldStream(f: FieldSyntax, rest: Stream)
    ensures var s := StreamOf(FieldTree(f), rest);
      && Starts(s, FieldNode)
      && (f.constant <==> Starts(s[1..], ConstNode))
      && (if f.constant then s[2..] else s[1..])
        == StreamOf(TypeTree(f.base), StreamOfAll(DeclaratorTrees(f.declarators), rest))
  {
    hide StreamOf, StreamOfAll, DeclaratorTrees, TypeTree;
    var tail := [TypeTree(f.base)] + DeclaratorTrees(f.declarators);
    StreamAllCons(TypeTree(f.base), DeclaratorTrees(f.declarators), rest);
    TypeRead(f.base, StreamOfAll(DeclaratorTrees(f.declarators), rest));
    if f.constant {
      StreamInner(FieldNode, [Inner(ConstNode, [])] + tail, rest);
      StreamAllCons(Inner(ConstNode, []), tail, rest);
      StreamLeaf(ConstNode, NoToken, StreamOfAll(tail, rest));
      var s := StreamOf(FieldTree(f), rest);
      assert s[2..] == s[1..][1..];
    } else {
      assert [] + tail == tail;
      StreamInner(FieldNode, tail, rest);
    }
  }

  lemma {:induction false} FieldsRead(fs: seq<FieldSyntax>, rest: Stream)
    requires FieldsReadable(fs) && AfterField(rest) && !Starts(rest, FieldIdentifier) && !Starts(rest, FieldNode)
    ensures var s := StreamOfAll(FieldTrees(fs), rest);
      AfterField(s) && !Starts(s, FieldIdentifier) && ReadFields(s) == Some((FieldMeanings(fs), rest))
  {
    hide StreamOf, StreamOfAll, ReadType, ReadFieldIdentifiers, FieldTree, DeclaratorTrees, DeclaratorMeanings,
      DeclaratorReadable, TypeTree;
    if fs == [] {
      StreamAllNone(rest);
    } else {
      var f, more := fs[0], StreamOfAll(FieldTrees(fs[1..]), rest);
      StreamAllCons(FieldTree(f), FieldTrees(fs[1..]), rest);
      FieldsRead(fs[1..], rest);
      assert FieldReadable(f);
      FieldStream(f, more);
      TypeRead(f.base, StreamOfAll(DeclaratorTrees(f.declarators), more));
      DeclaratorsRead(f.constant, f.base, f.declarators, more);
    }
  }

  // ----- statements -----

  /** What may follow a statement: another one, or the end of the block. */
  predicate AfterStatement(rest: Stream) {
    && !Starts(rest, LocationIndex) && !Starts(rest, BlockNode) && !Starts(rest, ExpressionNode)
  }

  lemma AssignmentRead(a: AssignmentSyntax, rest: Stream)
    requires AssignmentReadable(a) && !Starts(rest, LocationIndex)
    ensures ReadAssignment(StreamOf(AssignmentTree(a), rest)) == Some((AssignmentMeaning(a), rest))
    ensures Starts(StreamOf(AssignmentTree(a), rest), AssignmentNode)
  {
    hide StreamOf, StreamOfAll, ReadLocation, ReadExpression, LocationTree, LocationMeaning, Tree, Meaning, Readable;
    var location, leaf := LocationTree(a.target, a.index), Leaf(AssignOperatorNode, Assigning(a.how));
    var last := if a.value.Some? then [Tree(a.value.value)] else [];
    StreamInner(AssignmentNode, [location, leaf] + last, rest);
    StreamAllConcat([location, leaf], last, rest);
    var after := StreamOfAll(last, rest);
    StreamAllTwo(location, leaf, after);
    StreamLeaf(AssignOperatorNode, Assigning(a.how), after);
    LocationRead(a.target, a.index, StreamOf(leaf, after));
    if a.value.Some? {
      StreamAllOne(Tree(a.value.value), rest);
      ExpressionRead(a.value.value, rest);
    } else {
      StreamAllNone(rest);
    }
  }

  lemma UpdateRead(u: UpdateSyntax, rest: Stream)
    requires UpdateReadable(u) && !Starts(rest, LocationIndex)
    ensures ReadForUpdate(StreamOf(UpdateTree(u), rest)) == Some((UpdateMeaning(u), rest))
    ensures Starts(StreamOf(UpdateTree(u), rest), ForUpdateNode)
  {
    hide StreamOf, StreamOfAll, ReadAssignment, ReadCall, AssignmentTree, AssignmentReadable, AssignmentMeaning,
      CallTree, ReadableAll;
    match u
    case AssignUpdate(a) =>
      StreamInner(ForUpdateNode, [AssignmentTree(a)], rest);
      StreamAllOne(AssignmentTree(a), rest);
      AssignmentRead(a, rest);
    case CallUpdate(id, arguments) =>
      StreamInner(ForUpdateNode, [CallTree(id, arguments)], rest);
      StreamAllOne(CallTree(id, arguments), rest);
      CallRead(id, arguments, rest);
  }

  /** A statement has one child, whose stream follows the statement's entry. */
  lemma StatementStream(child: Node, rest: Stream)
    ensures var s := StreamOf(Inner(StatementNode, [child]), rest);
      && |s| >= 2 && Starts(s, StatementNode) && s[1..] == StreamOf(child, rest)
      && s[1].kind == child.kind && s[2..] == StreamOf(child, rest)[1..]
  {
    StreamInner(StatementNode, [child], rest);
    StreamAllOne(child, rest);
    var s := StreamOf(Inner(StatementNode, [child]), rest);
    assert s[2..] == s[1..][1..] && s[1] == s[1..][0];
  }

  lemma BlockStream(b: BlockSyntax, rest: Stream)
    ensures var s := StreamOf(BlockTree(b), rest);
      && Starts(s, BlockNode)
      && s[1..] == StreamOfAll(FieldTrees(b.fields),
        StreamOfAll(StatementTrees(b.statements), [Entry(BlockEnd, NoToken)] + rest))
  {
    hide StreamOfAll, FieldTrees, StatementTrees;
    StreamAllConcat(FieldTrees(b.fields), StatementTrees(b.statements), [Entry(BlockEnd, NoToken)] + rest);
  }

  lemma {:induction false} StatementRead(s: StatementSyntax, rest: Stream)
    requires StatementReadable(s) && AfterStatement(rest)
    ensures ReadStatement(StreamOf(StatementTree(s), rest)) == Some((StatementMeaning(s), rest))
    ensures Starts(StreamOf(StatementTree(s), rest), StatementNode)
    decreases s, 1
  {
    hide StreamOf, StreamOfAll, ReadStatement, ReadCall, ReadAssignment, BlockTree, BlockMeaning, BlockReadable,
      AssignmentTree, AssignmentMeaning, AssignmentReadable, UpdateTree, UpdateMeaning, UpdateReadable, CallTree,
      Tree, Meaning, Readable, ReadableAll, ArgumentMeanings;
    match s
    case AssignWritten(a) =>
      PlainRead(AssignmentTree(a), rest);
      AssignmentRead(a, rest);
      AssignmentTreeKind(a);
    case CallWritten(id, arguments) =>
      PlainRead(CallTree(id, arguments), rest);
      CallRead(id, arguments, rest);
      CallTreeKind(id, arguments);
    case IfWritten(c, b, other) =>
      IfRead(c, b, other, rest);
      assert other.Some? ==>
        [Tree(c), BlockTree(b)] + [BlockTree(other.value)] == [Tree(c), BlockTree(b), BlockTree(other.value)];
      assert other.None? ==> [Tree(c), BlockTree(b)] + [] == [Tree(c), BlockTree(b)];
    case ForWritten(id, i, c, u, b) => ForRead(id, i, c, u, b, rest);
    case WhileWritten(c, b) =>
      WhileRead(c, b, rest);
    case ReturnWritten(v) =>
      ReturnRead(v, rest);
    case BreakWritten =>
      PlainRead(Inner(BreakNode, []), rest);
      StreamLeaf(BreakNode, NoToken, rest);
    case ContinueWritten =>
      PlainRead(Inner(ContinueNode, []), rest);
      StreamLeaf(ContinueNode, NoToken, rest);
  }

  /** Statements that are one piece: the reader goes by the kind of the child. */
  lemma PlainRead(child: Node, rest: Stream)
    ensures var s, inner := StreamOf(Inner(StatementNode, [child]), rest), StreamOf(child, rest);
      && Starts(s, StatementNode)
      && (child.kind == BreakNode ==> ReadStatement(s) == Some((Ir.Break, inner[1..])))
      && (child.kind == ContinueNode ==> ReadStatement(s) == Some((Ir.Continue, inner[1..])))
      && (child.kind == CallNode && ReadCall(inner).Some? ==>
            ReadStatement(s) == Some((Ir.CallStatement(ReadCall(inner).value.0), ReadCall(inner).value.1)))
      && (child.kind == AssignmentNode && ReadAssignment(inner).Some? ==>
            ReadStatement(s) == Some((Ir.Assign(ReadAssignment(inner).value.0), ReadAssignment(inner).value.1)))
  {
    hide StreamOf, StreamOfAll, ReadCall, ReadAssignment;
    StatementStream(child, rest);
  }

  lemma {:induction false} WhileRead(c: Syntax, b: BlockSyntax, rest: Stream)
    requires Readable(c) && BlockReadable(b)
    ensures var s := StreamOf(Inner(StatementNode, [Inner(WhileNode, [Tree(c), BlockTree(b)])]), rest);
      ReadStatement(s) == Some((Ir.While(Meaning(c), BlockMeaning(b)), rest)) && Starts(s, StatementNode)
    decreases WhileWritten(c, b), 0
  {
    hide StreamOf, StreamOfAll, ReadBlock, ReadExpression, BlockTree, BlockMeaning, BlockReadable, Tree, Meaning,
      Readable;
    StatementStream(Inner(WhileNode, [Tree(c), BlockTree(b)]), rest);
    StreamInner(WhileNode, [Tree(c), BlockTree(b)], rest);
    StreamAllTwo(Tree(c), BlockTree(b), rest);
    BlockRead(b, rest);
    ExpressionRead(c, StreamOf(BlockTree(b), rest));
  }

  lemma ReturnRead(v: Option<Syntax>, rest: Stream)
    requires (v.Some? ==> Readable(v.value)) && AfterStatement(rest)
    ensures var s := StreamOf(Inner(StatementNode, [Inner(ReturnNode, if v.Some? then [Tree(v.value)] else [])]), rest);
      ReadStatement(s) == Some((Ir.Return(if v.None? then None else Some(Meaning(v.value))), rest))
        && Starts(s, StatementNode)
  {
    hide StreamOf, StreamOfAll, ReadExpression, Tree, Meaning, Readable;
    var children := if v.Some? then [Tree(v.value)] else [];
    StatementStream(Inner(ReturnNode, children), rest);
    StreamInner(ReturnNode, children, rest);
    if v.Some? {
      StreamAllOne(Tree(v.value), rest);
      ExpressionTreeStarts(v.value, rest);
      ExpressionRead(v.value, rest);
    } else {
      StreamAllNone(rest);
    }
  }

  lemma AssignmentTreeKind(a: AssignmentSyntax)
    ensures AssignmentTree(a).kind == AssignmentNode
  {
  }

  lemma CallTreeKind(id: string, arguments: seq<ArgumentSyntax>)
    ensures CallTree(id, arguments).kind == CallNode
  {
  }

  lemma {:induction false} IfRead(c: Syntax, b: BlockSyntax, other: Option<BlockSyntax>, rest: Stream)
    requires Readable(c) && BlockReadable(b) && (other.Some? ==> BlockReadable(other.value)) && AfterStatement(rest)
    ensures var children := [Tree(c), BlockTree(b)] + (if other.Some? then [BlockTree(other.value)] else []);
      var s := StreamOf(Inner(StatementNode, [Inner(IfNode, children)]), rest);
      && Starts(s, StatementNode)
      && ReadStatement(s) == Some((Ir.If(Meaning(c), BlockMeaning(b), if other.Some? then
        Some(BlockMeaning(other.value)) else None), rest))
    decreases IfWritten(c, b, other), 0
  {
    hide StreamOf, StreamOfAll, ReadBlock, ReadExpression, BlockTree, BlockMeaning, BlockReadable, Tree, Meaning,
      Readable;
    var last := if other.Some? then [BlockTree(other.value)] else [];
    StatementStream(Inner(IfNode, [Tree(c), BlockTree(b)] + last), rest);
    StreamInner(IfNode, [Tree(c), BlockTree(b)] + last, rest);
    StreamAllConcat([Tree(c), BlockTree(b)], last, rest);
    var after := StreamOfAll(last, rest);
    StreamAllTwo(Tree(c), BlockTree(b), after);
    BlockRead(b, after);
    ExpressionRead(c, StreamOf(BlockTree(b), after));
    if other.Some? {
      StreamAllOne(BlockTree(other.value), rest);
      BlockRead(other.value, rest);
    } else {
      StreamAllNone(rest);
    }
  }

  lemma {:induction false} ForRead(id: string, i: Syntax, c: Syntax, u: UpdateSyntax, b: BlockSyntax, rest: Stream)
    requires Readable(i) && Readable(c) && UpdateReadable(u) && BlockReadable(b) && AfterStatement(rest)
    ensures var s := StreamOf(Inner(StatementNode,
      [Inner(ForNode, [IdentifierTree(id), Tree(i), Tree(c), UpdateTree(u), BlockTree(b)])]), rest);
      && Starts(s, StatementNode)
      && ReadStatement(s) == Some((Ir.For(Ir.Assignment(Ir.Location(id, None), Ir.Set, Some(Meaning(i))), Meaning(c),
        UpdateMeaning(u), BlockMeaning(b)), rest))
    decreases ForWritten(id, i, c, u, b), 0
  {
    hide StreamOf, StreamOfAll, ReadBlock, ReadExpression, ReadForUpdate, BlockTree, BlockMeaning, BlockReadable,
      Tree, Meaning, Readable, UpdateTree, UpdateMeaning, UpdateReadable;
    StatementStream(Inner(ForNode, [IdentifierTree(id), Tree(i), Tree(c), UpdateTree(u), BlockTree(b)]), rest);
    StreamInner(ForNode, [IdentifierTree(id), Tree(i), Tree(c), UpdateTree(u), BlockTree(b)], rest);
    var body := StreamOf(BlockTree(b), rest);
    var update := StreamOf(UpdateTree(u), body);
    var condition := StreamOf(Tree(c), update);
    assert [IdentifierTree(id), Tree(i), Tree(c), UpdateTree(u), BlockTree(b)]
      == [IdentifierTree(id), Tree(i)] + ([Tree(c), UpdateTree(u)] + [BlockTree(b)]);
    StreamAllConcat([IdentifierTree(id), Tree(i)], [Tree(c), UpdateTree(u)] + [BlockTree(b)], rest);
    StreamAllConcat([Tree(c), UpdateTree(u)], [BlockTree(b)], rest);
    StreamAllOne(BlockTree(b), rest);
    StreamAllTwo(Tree(c), UpdateTree(u), body);
    StreamAllTwo(IdentifierTree(id), Tree(i), condition);
    IdentifierRead(id, StreamOf(Tree(i), condition));
    BlockRead(b, rest);
    UpdateRead(u, body);
    ExpressionTreeStarts(c, update);
    ExpressionRead(c, update);
    ExpressionRead(i, condition);
  }

  /** A block's end marker is consumed with it, so nothing is asked of what follows. */
  lemma {:induction false} BlockRead(b: BlockSyntax, rest: Stream)
    requires BlockReadable(b)
    ensures ReadBlock(StreamOf(BlockTree(b), rest)) == Some((BlockMeaning(b), rest))
    ensures Starts(StreamOf(BlockTree(b), rest), BlockNode)
    decreases b, 1
  {
    hide StreamOf, StreamOfAll, ReadFields, ReadStatements, FieldTrees, StatementTrees, BlockTree, FieldMeanings,
      StatementMeanings, FieldsReadable, StatementsReadable;
    BlockStream(b, rest);
    var end := [Entry(BlockEnd, NoToken)] + rest;
    StatementsRead(b.statements, rest);
    FieldsRead(b.fields, StreamOfAll(StatementTrees(b.statements), end));
    assert end[1..] == rest;
  }

  lemma {:induction false} StatementsRead(ss: seq<StatementSyntax>, rest: Stream)
    requires StatementsReadable(ss)
    ensures var end := [Entry(BlockEnd, NoToken)] + rest; var s := StreamOfAll(StatementTrees(ss), end);
      && ReadStatements(s) == Some((StatementMeanings(ss), end))
      && (Starts(s, StatementNode) || Starts(s, BlockEnd))
    decreases ss
  {
    hide StreamOf, StreamOfAll, ReadStatement, StatementTree, StatementMeaning, StatementReadable;
    var end := [Entry(BlockEnd, NoToken)] + rest;
    if ss == [] {
      StreamAllNone(end);
    } else {
      StreamAllCons(StatementTree(ss[0]), StatementTrees(ss[1..]), end);
      StatementsRead(ss[1..], rest);
      StatementRead(ss[0], StreamOfAll(StatementTrees(ss[1..]), end));
    }
  }

  // ----- methods and programs -----

  lemma {:induction false} ParametersRead(ps: seq<ParameterSyntax>, rest: Stream)
    requires !Starts(rest, MethodArgument)
    ensures ReadParameters(StreamOfAll(ParameterTrees(ps), rest)) == Some((ParameterMeanings(ps), rest))
  {
    hide StreamOf, StreamOfAll, ReadType, TypeTree;
    if ps == [] {
      StreamAllNone(rest);
    } else {
      var base, id := TypeTree(ps[0].base), IdentifierTree(ps[0].identifier);
      var more := StreamOfAll(ParameterTrees(ps[1..]), rest);
      StreamAllCons(Inner(MethodArgument, [base, id]), ParameterTrees(ps[1..]), rest);
      StreamInner(MethodArgument, [base, id], more);
      StreamAllTwo(base, id, more);
      TypeRead(ps[0].base, StreamOf(id, more));
      IdentifierRead(ps[0].identifier, more);
      ParametersRead(ps[1..], rest);
    }
  }

  lemma MethodRead(m: MethodSyntax, rest: Stream)
    requires MethodReadable(m)
    ensures ReadMethod(StreamOf(MethodTree(m), rest)) == Some((MethodMeaning(m), rest))
    ensures Starts(StreamOf(MethodTree(m), rest), MethodNode)
  {
    hide StreamOf, StreamOfAll, ReadType, TypeTree, ReadParameters, ParameterTrees, ParameterMeanings, ReadBlock,
      BlockTree, BlockMeaning, BlockReadable;
    var returnType, id := TypeTree(m.returnType), IdentifierTree(m.identifier);
    var tail := ParameterTrees(m.parameters) + [BlockTree(m.body)];
    StreamInner(MethodNode, [returnType, id] + tail, rest);
    StreamAllConcat([returnType, id], tail, rest);
    var after := StreamOfAll(tail, rest);
    StreamAllTwo(returnType, id, after);
    StreamAllConcat(ParameterTrees(m.parameters), [BlockTree(m.body)], rest);
    StreamAllOne(BlockTree(m.body), rest);
    TypeRead(m.returnType, StreamOf(id, after));
    IdentifierRead(m.identifier, after);
    BlockRead(m.body, rest);
    ParametersRead(m.parameters, StreamOf(BlockTree(m.body), rest));
  }

  lemma {:induction false} MethodsRead(ms: seq<MethodSyntax>, rest: Stream)
    requires (forall i :: 0 <= i < |ms| ==> MethodReadable(ms[i])) && Starts(rest, ProgramEnd)
    ensures var s := StreamOfAll(MethodTrees(ms), rest);
      && ReadMethods(s) == Some((MethodMeanings(ms), rest))
      && (Starts(s, MethodNode) || Starts(s, ProgramEnd))
  {
    hide StreamOf, StreamOfAll, ReadMethod, MethodTree, MethodMeaning, MethodReadable;
    if ms == [] {
      StreamAllNone(rest);
    } else {
      StreamAllCons(MethodTree(ms[0]), MethodTrees(ms[1..]), rest);
      MethodsRead(ms[1..], rest);
      MethodRead(ms[0], StreamOfAll(MethodTrees(ms[1..]), rest));
    }
  }

  lemma {:induction false} ImportsRead(ids: seq<string>, rest: Stream)
    requires !Starts(rest, ImportNode)
    ensures ReadImports(StreamOfAll(ImportTrees(ids), rest)) == Some((ids, rest))
  {
    hide StreamOf, StreamOfAll;
    if ids == [] {
      StreamAllNone(rest);
    } else {
      var id, more := IdentifierTree(ids[0]), StreamOfAll(ImportTrees(ids[1..]), rest);
      StreamAllCons(Inner(ImportNode, [id]), ImportTrees(ids[1..]), rest);
      StreamInner(ImportNode, [id], more);
      StreamAllOne(id, more);
      IdentifierRead(ids[0], more);
      ImportsRead(ids[1..], rest);
      assert ids == [ids[0]] + ids[1..];
    }
  }

  lemma FieldsStart(fs: seq<FieldSyntax>, rest: Stream)
    ensures var s := StreamOfAll(FieldTrees(fs), rest); Starts(s, FieldNode) || s == rest
  {
    hide StreamOf, StreamOfAll, FieldTree;
    if fs == [] {
      StreamAllNone(rest);
    } else {
      StreamAllCons(FieldTree(fs[0]), FieldTrees(fs[1..]), rest);
      FieldStream(fs[0], StreamOfAll(FieldTrees(fs[1..]), rest));
    }
  }

  /** Rebuilding undoes linearizing: the readers consume exactly the stream of a program of the shape
      the parser produces, up to its end marker, and rebuild what was written. */
  lemma ProgramRead(p: ProgramSyntax, rest: Stream)
    requires ProgramReadable(p)
    ensures ReadProgram(Linear(ProgramTree(p)) + rest) == Some((ProgramMeaning(p), [Entry(ProgramEnd, NoToken)] + rest))
  {
    hide StreamOfAll, ReadImports, ReadFields, ReadMethods, ImportTrees, FieldTrees, MethodTrees, FieldMeanings,
      MethodMeanings, Linear;
    StreamIsLinear(ProgramTree(p), rest);
    var end := [Entry(ProgramEnd, NoToken)] + rest;
    var methods := StreamOfAll(MethodTrees(p.methods), end);
    var fields := StreamOfAll(FieldTrees(p.fields), methods);
    StreamAllConcat(ImportTrees(p.imports), FieldTrees(p.fields) + MethodTrees(p.methods), end);
    StreamAllConcat(FieldTrees(p.fields), MethodTrees(p.methods), end);
    MethodsRead(p.methods, end);
    FieldsRead(p.fields, methods);
    FieldsStart(p.fields, methods);
    ImportsRead(p.imports, fields);
  }
}
