/** The rules of the language, stated without the checker: which declarations are visible where, which expressions are
    integers and which are booleans, and which statements, methods and programs are legal. */
module Legality {
  import opened Words
  import Ir

  // ----- what is visible -----

  /** The declarations of one scope. */
  type Declarations = seq<Ir.Field>

  /** At a place in a program: the imported functions and the methods that may be called there (those written before,
      and the one around), the scopes around, innermost last, the type to return, and whether a loop is around. */
  datatype Place = Place(imports: seq<string>, methods: seq<Ir.Method>, scopes: seq<Declarations>,
                         returnType: Ir.Type, inLoop: bool)

  ghost predicate Declares(fields: Declarations, identifier: string) {
    exists i :: 0 <= i < |fields| && fields[i].identifier == identifier
  }

  /** `identifier` means the declaration `f`: no scope further in declares it. */
  ghost predicate Means(scopes: seq<Declarations>, identifier: string, f: Ir.Field) {
    && f.identifier == identifier
    && exists k :: 0 <= k < |scopes| && f in scopes[k]
                   && forall m :: k < m < |scopes| ==> !Declares(scopes[m], identifier)
  }

  ghost predicate MeansNothing(scopes: seq<Declarations>, identifier: string) {
    forall k :: 0 <= k < |scopes| ==> !Declares(scopes[k], identifier)
  }

  /** A call of `identifier` is a call of an imported function, or of the method `m`: a field hides both. */
  ghost predicate CallsImport(p: Place, identifier: string) {
    MeansNothing(p.scopes, identifier) && identifier in p.imports
  }

  ghost predicate CallsMethod(p: Place, identifier: string, m: Ir.Method) {
    MeansNothing(p.scopes, identifier) && m in p.methods && m.identifier == identifier
  }

  // ----- expressions -----

  const ArithmeticOperators := {Ir.Plus, Ir.Minus, Ir.Times, Ir.Over, Ir.Modulus}
  const Relations := {Ir.LessThan, Ir.LessOrEqual, Ir.GreaterOrEqual, Ir.GreaterThan}
  const Equalities := {Ir.EqualTo, Ir.NotEqualTo}
  const Connectives := {Ir.Or, Ir.And}

  /** A literal that fits: one that overflows was marked by the reader. */
  predicate IntLiteral(l: Ir.Literal) {
    l.kind == Ir.CharLiteral || (l.kind == Ir.IntLiteral && l.value != 0xFFFF_FFFF_FFFF_FFFF)
  }

  ghost predicate IsInt(p: Place, e: Ir.Expression)
    decreases e, 1
  {
    match e
    case Binary(op, l, r) => op in ArithmeticOperators && IsInt(p, l) && IsInt(p, r)
    case Not(_) => false
    case Negate(o) => IsInt(p, o)
    case Length(identifier, _) => exists f :: Means(p.scopes, identifier, f) && f.isArray
    case Invoke(call) => IsCall(p, call, Ir.Int)
    case Constant(l) => IntLiteral(l)
    case At(location) => IsElement(p, location, Ir.Int)
  }

  ghost predicate IsBool(p: Place, e: Ir.Expression)
    decreases e, 1
  {
    match e
    case Binary(op, l, r) =>
      || (op in Connectives && IsBool(p, l) && IsBool(p, r))
      || (op in Relations && IsInt(p, l) && IsInt(p, r))
      || (op in Equalities && ((IsInt(p, l) && IsInt(p, r)) || (IsBool(p, l) && IsBool(p, r))))
    case Not(o) => IsBool(p, o)
    case Negate(_) => false
    case Length(_, _) => false
    case Invoke(call) => IsCall(p, call, Ir.Bool)
    case Constant(l) => l.kind == Ir.BoolLiteral
    case At(location) => IsElement(p, location, Ir.Bool)
  }

  /** An expression of type `t`; nothing has type void. */
  ghost predicate HasType(p: Place, e: Ir.Expression, t: Ir.Type)
    decreases e, 2
  {
    match t
    case Int => IsInt(p, e)
    case Bool => IsBool(p, e)
    case Void => false
  }

  /** An array as a whole, which only an imported function takes. */
  ghost predicate IsWholeArray(p: Place, e: Ir.Expression) {
    e.At? && e.location.index.None? && exists f :: Means(p.scopes, e.location.identifier, f) && f.isArray
  }

  /** A scalar by its name, or an array with an integer index, of base type `t`. */
  ghost predicate IsElement(p: Place, location: Ir.Location, t: Ir.Type)
    decreases location, 0
  {
    && (exists f :: Means(p.scopes, location.identifier, f) && f.baseType == t && f.isArray == location.index.Some?)
    && (location.index.Some? ==> IsInt(p, location.index.value))
  }

  /** A call that gives a value of type `t`: of an imported function, which gives an integer, or of a method. */
  ghost predicate IsCall(p: Place, call: Ir.MethodCall, t: Ir.Type)
    decreases call, 1
  {
    || (CallsImport(p, call.identifier) && t == Ir.Int && AreImportArguments(p, call.arguments))
    || exists m ::
         CallsMethod(p, call.identifier, m) && m.returnType == t && AreArguments(p, call.arguments, m.arguments)
  }

  /** An imported function takes strings and values of any type. */
  ghost predicate AreImportArguments(p: Place, arguments: seq<Ir.CallArgument>)
    decreases arguments, 0
  {
    forall i :: 0 <= i < |arguments| ==> IsImportArgument(p, arguments[i])
  }

  ghost predicate IsImportArgument(p: Place, a: Ir.CallArgument)
    decreases a, 0
  {
    a.StringArgument? || IsInt(p, a.expression) || IsBool(p, a.expression) || IsWholeArray(p, a.expression)
  }

  /** A method takes one value for each parameter, of its type. */
  ghost predicate AreArguments(p: Place, arguments: seq<Ir.CallArgument>, parameters: seq<Ir.Field>)
    decreases arguments, 0
  {
    && |arguments| == |parameters|
    && forall i :: 0 <= i < |arguments| ==> IsArgument(p, arguments[i], parameters[i].baseType)
  }

  ghost predicate IsArgument(p: Place, a: Ir.CallArgument, t: Ir.Type)
    decreases a, 0
  {
    a.ValueArgument? && HasType(p, a.expression, t)
  }

  // ----- declarations -----

  predicate LiteralHasType(l: Ir.Literal, t: Ir.Type) {
    if t == Ir.Bool then l.kind == Ir.BoolLiteral else IntLiteral(l)
  }

  /** No length is given: the brackets are empty, or what is in them overflowed. */
  predicate NoLength(f: Ir.Field) {
    f.open || f.length == 0xFFFF_FFFF_FFFF_FFFF
  }

  /** With an initializer: at least one literal, all of the base type, in braces exactly for an array, which then has no
      length of its own. Without: an array has a length other than 0, and nothing is constant. */
  predicate LegalDeclaration(f: Ir.Field) {
    match f.initializer
    case Some(literals) =>
      && literals != [] && (forall l :: l in literals ==> LiteralHasType(l, f.baseType))
      && f.braced == f.isArray && (f.isArray ==> NoLength(f))
    case None => !f.constant && (f.isArray ==> !NoLength(f) && f.length > 0)
  }

  ghost predicate DistinctFields(fields: Declarations) {
    forall i, j :: 0 <= i < j < |fields| ==> fields[i].identifier != fields[j].identifier
  }

  ghost predicate LegalScope(fields: Declarations) {
    DistinctFields(fields) && forall f :: f in fields ==> LegalDeclaration(f)
  }

  // ----- statements -----

  /** Stores to a scalar or an element that is not constant, whose type the right-hand side has; with an operator it
      is an integer. */
  ghost predicate LegalAssignment(p: Place, a: Ir.Assignment) {
    exists t ::
      && IsElement(p, a.location, t)
      && (forall f :: Means(p.scopes, a.location.identifier, f) ==> !f.constant)
      && (a.op != Ir.Set ==> t == Ir.Int)
      && (a.expression.Some? ==> HasType(p, a.expression.value, t))
  }

  ghost predicate LegalCall(p: Place, call: Ir.MethodCall) {
    exists t :: IsCall(p, call, t)
  }

  ghost predicate LegalUpdate(p: Place, u: Ir.ForUpdate) {
    match u
    case UpdateAssignment(a) => LegalAssignment(p, a)
    case UpdateCall(call) => LegalCall(p, call)
  }

  ghost predicate LegalStatement(p: Place, s: Ir.Statement)
    decreases s, 1
  {
    match s
    case Assign(a) => LegalAssignment(p, a)
    case CallStatement(call) => LegalCall(p, call)
    case If(condition, ifBlock, None) => IsBool(p, condition) && LegalBlock(p, ifBlock)
    case If(condition, ifBlock, Some(elseBlock)) =>
      IsBool(p, condition) && LegalBlock(p, ifBlock) && LegalBlock(p, elseBlock)
    case For(initial, condition, update, body) =>
      var inside := p.(inLoop := true);
      LegalAssignment(inside, initial) && IsBool(inside, condition) && LegalUpdate(inside, update)
      && LegalBlock(inside, body)
    case While(condition, body) => IsBool(p.(inLoop := true), condition) && LegalBlock(p.(inLoop := true), body)
    case Return(None) => p.returnType == Ir.Void
    case Return(Some(e)) => HasType(p, e, p.returnType)
    case Break => p.inLoop
    case Continue => p.inLoop
  }

  ghost predicate LegalBlock(p: Place, b: Ir.Block)
    decreases b, 0
  {
    LegalScope(b.fields) && LegalStatements(p.(scopes := p.scopes + [b.fields]), b.statements)
  }

  ghost predicate LegalStatements(p: Place, statements: seq<Ir.Statement>)
    decreases statements, 0
  {
    forall i :: 0 <= i < |statements| ==> LegalStatement(p, statements[i])
  }

  // ----- programs -----

  /** The parameters share a scope with the fields of the body. */
  ghost predicate LegalMethod(p: Place, m: Ir.Method) {
    && LegalScope(m.arguments + m.body.fields)
    && LegalStatements(p.(scopes := p.scopes + [m.arguments + m.body.fields], returnType := m.returnType),
                       m.body.statements)
  }

  /** Where method `i` stands: it may call itself and what comes before it. */
  function MethodPlace(p: Ir.Program, i: nat): Place
    requires i < |p.methods|
  {
    Place(p.imports, p.methods[..i + 1], [p.fields], Ir.Void, false)
  }

  ghost predicate DistinctNames(p: Ir.Program) {
    && (forall i, j :: 0 <= i < j < |p.imports| ==> p.imports[i] != p.imports[j])
    && (forall i, j :: 0 <= i < j < |p.methods| ==> p.methods[i].identifier != p.methods[j].identifier)
    && (forall i :: 0 <= i < |p.methods| ==> p.methods[i].identifier !in p.imports)
    && (forall i :: 0 <= i < |p.methods| ==> !Declares(p.fields, p.methods[i].identifier))
    && (forall i :: 0 <= i < |p.fields| ==> p.fields[i].identifier !in p.imports)
  }

  /** A legal program: names are declared once, every declaration and method is legal, and there is a `main` that takes
      nothing and returns nothing. */
  ghost predicate LegalProgram(p: Ir.Program) {
    && DistinctNames(p) && LegalScope(p.fields)
    && (forall i :: 0 <= i < |p.methods| ==> LegalMethod(MethodPlace(p, i), p.methods[i]))
    && exists i :: 0 <= i < |p.methods| && p.methods[i].identifier == "main" && p.methods[i].returnType == Ir.Void
                   && p.methods[i].arguments == []
  }
}
