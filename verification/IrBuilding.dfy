/** Reading the structured representation back from the preorder stream: the readers see one entry at
    a time and, apart from programs, blocks and calls, no end marker. */
module IrBuilding {
  import opened Words
  import opened Ast
  import opened Literals
  import Ir

  type Stream = seq<Entry>

  /** What was read and what is left; `None` where an assertion of the reader fails. */
  type Read<T> = Option<(T, Stream)>

  function PeekKind(s: Stream): Option<Kind> {
    if s == [] then None else Some(s[0].kind)
  }

  predicate Starts(s: Stream, kind: Kind) {
    PeekKind(s) == Some(kind)
  }

  // ----- leaves -----

  function ReadIdentifier(s: Stream): (r: Read<string>)
    ensures r.Some? ==> |r.value.1| < |s|
  {
    if Starts(s, IdentifierNode) && s[0].token.Identifier? then Some((s[0].token.name, s[1..])) else None
  }

  /** `ir_int_literal_from_ast`: `0x` is skipped, and the limit is one more under a minus. */
  function IntegerOf(t: Token, negate: bool): Option<nat> {
    match t
    case Decimal(text) => if AreDigits(text, 10) then Some(ReadInteger(text, Limit(negate), 10)) else None
    case Hexadecimal(text) =>
      if |text| >= 2 && AreDigits(text[2..], 16) then Some(ReadInteger(text[2..], Limit(negate), 16)) else None
    case _ => None
  }

  /** `ir_char_literal_from_ast`, quotes included. */
  function CharacterOf(text: string): Option<nat> {
    if |text| < 3 then None
    else if text[1] != '\\' then Some(text[1] as nat)
    else
      match text[2]
      case '\"' => Some('\"' as nat)
      case '\'' => Some('\'' as nat)
      case '\\' => Some('\\' as nat)
      case 't' => Some('\t' as nat)
      case 'n' => Some('\n' as nat)
      case _ => None
  }

  function ReadLiteral(s: Stream): (r: Read<Ir.Literal>)
    ensures r.Some? ==> |r.value.1| < |s|
  {
    if !Starts(s, LiteralNode) then None
    else
      var negate := Starts(s[1..], LiteralNegation);
      var rest := if negate then s[2..] else s[1..];
      if rest == [] then None
      else
        match LiteralOf(rest[0], negate)
        case None => None
        case Some(l) => Some((l, rest[1..]))
  }

  function LiteralOf(e: Entry, negate: bool): Option<Ir.Literal> {
    match e.kind
    case IntLiteralNode => (
      match IntegerOf(e.token, negate)
      case Some(v) => Some(Ir.Literal(Ir.IntLiteral, negate, v))
      case None => None)
    case BoolLiteralNode =>
      if e.token == True || e.token == False then
        Some(Ir.Literal(Ir.BoolLiteral, negate, if e.token == True then 1 else 0)) else None
    case CharLiteralNode => (
      match if e.token.Character? then CharacterOf(e.token.text) else None
      case Some(v) => Some(Ir.Literal(Ir.CharLiteral, negate, v))
      case None => None)
    case _ => None
  }

  // ----- expressions -----

  /** The operands of a binary expression, with the operator in between. */
  function ReadBinary(s: Stream): (r: Read<Ir.Expression>)
    ensures r.Some? ==> |r.value.1| < |s|
    decreases |s|, 1
  {
    match ReadExpression(s)
    case None => None
    case Some((left, rest)) =>
      if rest == [] || !rest[0].token.Operator? then None
      else
        match ReadExpression(rest[1..])
        case None => None
        case Some((right, rest')) => Some((Ir.Binary(rest[0].token.op, left, right), rest'))
  }

  function ReadExpression(s: Stream): (r: Read<Ir.Expression>)
    ensures r.Some? ==> |r.value.1| < |s|
    decreases |s|, 0
  {
    if !Starts(s, ExpressionNode) || |s| < 2 then None
    else
      match s[1].kind
      case BinaryNode => ReadBinary(s[2..])
      case NotNode => (
        match ReadExpression(s[2..])
        case None => None
        case Some((e, rest)) => Some((Ir.Not(e), rest)))
      case NegateNode => (
        match ReadExpression(s[2..])
        case None => None
        case Some((e, rest)) => Some((Ir.Negate(e), rest)))
      case LenNode => (
        match ReadIdentifier(s[2..])
        case None => None
        case Some((id, rest)) => Some((Ir.Length(id, 1), rest)))
      case CallNode => (
        match ReadCall(s[1..])
        case None => None
        case Some((call, rest)) => Some((Ir.Invoke(call), rest)))
      case LiteralNode => (
        match ReadLiteral(s[1..])
        case None => None
        case Some((l, rest)) => Some((Ir.Constant(l), rest)))
      case LocationNode => (
        match ReadLocation(s[1..])
        case None => None
        case Some((location, rest)) => Some((Ir.At(location), rest)))
      case _ => None
  }

  function ReadLocation(s: Stream): (r: Read<Ir.Location>)
    ensures r.Some? ==> |r.value.1| < |s|
    decreases |s|
  {
    if !Starts(s, LocationNode) then None
    else
      match ReadIdentifier(s[1..])
      case None => None
      case Some((id, rest)) =>
        if !Starts(rest, LocationIndex) then Some((Ir.Location(id, None), rest))
        else
          match ReadExpression(rest[1..])
          case None => None
          case Some((index, rest')) => Some((Ir.Location(id, Some(index)), rest'))
  }

  function ReadCall(s: Stream): (r: Read<Ir.MethodCall>)
    ensures r.Some? ==> |r.value.1| < |s|
    decreases |s|
  {
    if !Starts(s, CallNode) then None
    else
      match ReadIdentifier(s[1..])
      case None => None
      case Some((id, rest)) =>
        match ReadArguments(rest)
        case None => None
        case Some((arguments, rest')) => Some((Ir.MethodCall(id, arguments), rest'))
  }

  /** Arguments up to and including the end marker of the call. */
  function ReadArguments(s: Stream): (r: Read<seq<Ir.CallArgument>>)
    ensures r.Some? ==> |r.value.1| < |s|
    decreases |s|
  {
    if Starts(s, CallEnd) then Some(([], s[1..]))
    else
      match ReadArgument(s)
      case None => None
      case Some((a, rest)) =>
        match ReadArguments(rest)
        case None => None
        case Some((arguments, rest')) => Some(([a] + arguments, rest'))
  }

  function ReadArgument(s: Stream): (r: Read<Ir.CallArgument>)
    ensures r.Some? ==> |r.value.1| < |s|
    decreases |s|, 0
  {
    if !Starts(s, CallArgumentNode) || |s| < 2 then None
    else if s[1].kind == StringLiteralNode then
      if s[1].token.StringToken? then Some((Ir.StringArgument(s[1].token.text), s[2..])) else None
    else
      match ReadExpression(s[1..])
      case None => None
      case Some((e, rest)) => Some((Ir.ValueArgument(e), rest))
  }

  // ----- fields -----

  function ReadType(s: Stream): (r: Read<Ir.Type>)
    ensures r.Some? ==> |r.value.1| < |s|
  {
    if Starts(s, VoidNode) then Some((Ir.Void, s[1..]))
    else if Starts(s, DataTypeNode) && s[0].token.TypeName? && s[0].token.base != Ir.Void then
      Some((s[0].token.base, s[1..]))
    else None
  }

  function ReadLiterals(s: Stream): (r: Read<seq<Ir.Literal>>)
    ensures r.Some? ==> |r.value.1| <= |s|
    decreases |s|
  {
    if !Starts(s, LiteralNode) then Some(([], s))
    else
      match ReadLiteral(s)
      case None => None
      case Some((l, rest)) =>
        match ReadLiterals(rest)
        case None => None
        case Some((ls, rest')) => Some(([l] + ls, rest'))
  }

  /** What the brackets and the initializer of a declaration say. */
  datatype Declarator = Declarator(isArray: bool, length: nat, open: bool, initializer: Option<seq<Ir.Literal>>,
      braced: bool)

  function ReadLength(s: Stream): (r: Read<Declarator>)
    ensures r.Some? ==> |r.value.1| <= |s|
  {
    if Starts(s, IntLiteralNode) then
      match IntegerOf(s[0].token, false)
      case None => None
      case Some(n) => Some((Declarator(true, n, false, None, false), s[1..]))
    else if Starts(s, EmptyArrayLength) then Some((Declarator(true, 0, true, None, false), s[1..]))
    else Some((Declarator(false, 1, false, None, false), s))
  }

  function ReadInitializer(s: Stream, d: Declarator): (r: Read<Declarator>)
    ensures r.Some? ==> |r.value.1| <= |s|
  {
    if !Starts(s, InitializerNode) then Some((d, s))
    else
      var braced := Starts(s[1..], ArrayLiteral);
      match ReadLiterals(if braced then s[2..] else s[1..])
      case None => None
      case Some((ls, rest)) => Some((d.(initializer := Some(ls), braced := braced), rest))
  }

  function ReadField(s: Stream, constant: bool, base: Ir.Type): (r: Read<Ir.Field>)
    ensures r.Some? ==> |r.value.1| < |s|
  {
    if !Starts(s, FieldIdentifier) then None
    else
      match ReadIdentifier(s[1..])
      case None => None
      case Some((id, rest)) =>
        match ReadLength(rest)
        case None => None
        case Some((d, rest')) =>
          match ReadInitializer(rest', d)
          case None => None
          case Some((d', rest'')) =>
            Some((Ir.Field(base, d'.isArray, constant, id, d'.length, d'.initializer, d'.open, d'.braced), rest''))
  }

  function ReadFieldIdentifiers(s: Stream, constant: bool, base: Ir.Type): (r: Read<seq<Ir.Field>>)
    ensures r.Some? ==> |r.value.1| <= |s|
    decreases |s|
  {
    if !Starts(s, FieldIdentifier) then Some(([], s))
    else
      match ReadField(s, constant, base)
      case None => None
      case Some((f, rest)) =>
        match ReadFieldIdentifiers(rest, constant, base)
        case None => None
        case Some((fs, rest')) => Some(([f] + fs, rest'))
  }

  /** `iterate_fields`, for as long as declarations follow. */
  function ReadFields(s: Stream): (r: Read<seq<Ir.Field>>)
    ensures r.Some? ==> |r.value.1| <= |s|
    decreases |s|
  {
    if !Starts(s, FieldNode) then Some(([], s))
    else
      var constant := Starts(s[1..], ConstNode);
      match ReadType(if constant then s[2..] else s[1..])
      case None => None
      case Some((base, rest)) =>
        match ReadFieldIdentifiers(rest, constant, base)
        case None => None
        case Some((fs, rest')) =>
          match ReadFields(rest')
          case None => None
          case Some((more, rest'')) => Some((fs + more, rest''))
  }

  // ----- statements -----

  function ReadAssignment(s: Stream): (r: Read<Ir.Assignment>)
    ensures r.Some? ==> |r.value.1| < |s|
  {
    if !Starts(s, AssignmentNode) then None
    else
      match ReadLocation(s[1..])
      case None => None
      case Some((location, rest)) =>
        if rest == [] || !rest[0].token.Assigning? then None
        else
          var how := rest[0].token.how;
          if how == Ir.Increment || how == Ir.Decrement then Some((Ir.Assignment(location, how, None), rest[1..]))
          else
            match ReadExpression(rest[1..])
            case None => None
            case Some((e, rest')) => Some((Ir.Assignment(location, how, Some(e)), rest'))
  }

  function ReadForUpdate(s: Stream): (r: Read<Ir.ForUpdate>)
    ensures r.Some? ==> |r.value.1| < |s|
  {
    if !Starts(s, ForUpdateNode) then None
    else if Starts(s[1..], CallNode) then
      match ReadCall(s[1..])
      case None => None
      case Some((call, rest)) => Some((Ir.UpdateCall(call), rest))
    else
      match ReadAssignment(s[1..])
      case None => None
      case Some((a, rest)) => Some((Ir.UpdateAssignment(a), rest))
  }

  function ReadStatement(s: Stream): (r: Read<Ir.Statement>)
    ensures r.Some? ==> |r.value.1| < |s|
    decreases |s|, 0
  {
    if !Starts(s, StatementNode) || |s| < 2 then None
    else
      match s[1].kind
      case IfNode => ReadIf(s[2..])
      case ForNode => ReadFor(s[2..])
      case WhileNode => (
        match ReadExpression(s[2..])
        case None => None
        case Some((condition, rest)) =>
          match ReadBlock(rest)
          case None => None
          case Some((body, rest')) => Some((Ir.While(condition, body), rest')))
      case ReturnNode =>
        if !Starts(s[2..], ExpressionNode) then Some((Ir.Return(None), s[2..]))
        else (
          match ReadExpression(s[2..])
          case None => None
          case Some((e, rest)) => Some((Ir.Return(Some(e)), rest)))
      case BreakNode => Some((Ir.Break, s[2..]))
      case ContinueNode => Some((Ir.Continue, s[2..]))
      case CallNode => (
        match ReadCall(s[1..])
        case None => None
        case Some((call, rest)) => Some((Ir.CallStatement(call), rest)))
      case AssignmentNode => (
        match ReadAssignment(s[1..])
        case None => None
        case Some((a, rest)) => Some((Ir.Assign(a), rest)))
      case _ => None
  }

  function ReadIf(s: Stream): (r: Read<Ir.Statement>)
    ensures r.Some? ==> |r.value.1| < |s|
    decreases |s|, 1
  {
    match ReadExpression(s)
    case None => None
    case Some((condition, rest)) =>
      match ReadBlock(rest)
      case None => None
      case Some((ifBlock, rest')) =>
        if !Starts(rest', BlockNode) then Some((Ir.If(condition, ifBlock, None), rest'))
        else
          match ReadBlock(rest')
          case None => None
          case Some((elseBlock, rest'')) => Some((Ir.If(condition, ifBlock, Some(elseBlock)), rest''))
  }

  function ReadFor(s: Stream): (r: Read<Ir.Statement>)
    ensures r.Some? ==> |r.value.1| < |s|
    decreases |s|, 1
  {
    match ReadIdentifier(s)
    case None => None
    case Some((id, s1)) =>
      match ReadExpression(s1)
      case None => None
      case Some((initial, s2)) =>
        match ReadExpression(s2)
        case None => None
        case Some((condition, s3)) =>
          match ReadForUpdate(s3)
          case None => None
          case Some((update, s4)) =>
            match ReadBlock(s4)
            case None => None
            case Some((body, s5)) =>
              Some((Ir.For(Ir.Assignment(Ir.Location(id, None), Ir.Set, Some(initial)), condition, update, body), s5))
  }

  function ReadBlock(s: Stream): (r: Read<Ir.Block>)
    ensures r.Some? ==> |r.value.1| < |s|
    decreases |s|, 0
  {
    if !Starts(s, BlockNode) then None
    else
      match ReadFields(s[1..])
      case None => None
      case Some((fields, rest)) =>
        match ReadStatements(rest)
        case None => None
        case Some((statements, rest')) =>
          if Starts(rest', BlockEnd) then Some((Ir.Block(fields, statements), rest'[1..])) else None
  }

  function ReadStatements(s: Stream): (r: Read<seq<Ir.Statement>>)
    ensures r.Some? ==> |r.value.1| <= |s|
    decreases |s|, 1
  {
    if !Starts(s, StatementNode) then Some(([], s))
    else
      match ReadStatement(s)
      case None => None
      case Some((stmt, rest)) =>
        match ReadStatements(rest)
        case None => None
        case Some((stmts, rest')) => Some(([stmt] + stmts, rest'))
  }

  // ----- methods and programs -----

  function ReadParameters(s: Stream): (r: Read<seq<Ir.Field>>)
    ensures r.Some? ==> |r.value.1| <= |s|
    decreases |s|
  {
    if !Starts(s, MethodArgument) then Some(([], s))
    else
      match ReadType(s[1..])
      case None => None
      case Some((base, rest)) =>
        match ReadIdentifier(rest)
        case None => None
        case Some((id, rest')) =>
          match ReadParameters(rest')
          case None => None
          case Some((more, rest'')) => Some(([Ir.Field(base, false, false, id, 1, None, false, false)] + more, rest''))
  }

  function ReadMethod(s: Stream): (r: Read<Ir.Method>)
    ensures r.Some? ==> |r.value.1| < |s|
  {
    if !Starts(s, MethodNode) then None
    else
      match ReadType(s[1..])
      case None => None
      case Some((returnType, s1)) =>
        match ReadIdentifier(s1)
        case None => None
        case Some((id, s2)) =>
          match ReadParameters(s2)
          case None => None
          case Some((parameters, s3)) =>
            match ReadBlock(s3)
            case None => None
            case Some((body, s4)) => Some((Ir.Method(returnType, id, parameters, body), s4))
  }

  function ReadImports(s: Stream): (r: Read<seq<string>>)
    ensures r.Some? ==> |r.value.1| <= |s|
    decreases |s|
  {
    if !Starts(s, ImportNode) then Some(([], s))
    else
      match ReadIdentifier(s[1..])
      case None => None
      case Some((id, rest)) =>
        match ReadImports(rest)
        case None => None
        case Some((more, rest')) => Some(([id] + more, rest'))
  }

  function ReadMethods(s: Stream): (r: Read<seq<Ir.Method>>)
    ensures r.Some? ==> |r.value.1| <= |s|
    decreases |s|
  {
    if !Starts(s, MethodNode) then Some(([], s))
    else
      match ReadMethod(s)
      case None => None
      case Some((m, rest)) =>
        match ReadMethods(rest)
        case None => None
        case Some((more, rest')) => Some(([m] + more, rest'))
  }

  function ReadProgram(s: Stream): Read<Ir.Program> {
    if !Starts(s, ProgramNode) then None
    else
      match ReadImports(s[1..])
      case None => None
      case Some((imports, s1)) =>
        match ReadFields(s1)
        case None => None
        case Some((fields, s2)) =>
          match ReadMethods(s2)
          case None => None
          case Some((methods, s3)) =>
            if Starts(s3, ProgramEnd) then Some((Ir.Program(imports, fields, methods), s3)) else None
  }
}
