/** The checker: scopes, types and loops. Each function gives what the checker makes of a piece of the
    program, the lengths it fills in included, and whether it reports nothing. */
module Checker {
  import opened Words
  import opened Names
  import opened Literals
  import Ir

  datatype DataType = DataType(base: Ir.Type, isArray: bool)

  const Nothing := DataType(Ir.Void, false)
  const Truth := DataType(Ir.Bool, false)
  const Number := DataType(Ir.Int, false)

  /** What the method table knows. An imported function takes anything and returns an int. */
  datatype Signature = Imported | Own(returnType: Ir.Type, parameters: seq<DataType>)

  /** Tables of fields, innermost last; each has the one before it as parent. */
  type Scopes = seq<map<string, Ir.Field>>

  /** What could be demanded beyond what the checker demands, which is neither: that no boolean literal
      has a minus and no array goes to an imported function as a whole; that no parameter is assigned. */
  datatype Policy = Policy(plain: bool, fixedParameters: bool)

  const AsWritten := Policy(false, false)

  /** `fixed`: field names that may not be assigned. */
  datatype Environment = Environment(
    methods: map<string, Signature>,
    scopes: Scopes,
    returnType: Ir.Type,
    loopDepth: nat,
    policy: Policy,
    fixed: set<string>)

  datatype Checked<T> = Checked(value: T, ok: bool)

  // ----- tables -----

  /** `fields_table_get`, climbing: the level of the innermost table that has the identifier. */
  function Find(scopes: Scopes, identifier: string): (r: Option<nat>)
    ensures r.Some? ==> r.value < |scopes| && identifier in scopes[r.value]
    ensures r.Some? ==> forall k :: r.value < k < |scopes| ==> identifier !in scopes[k]
    ensures r.None? ==> forall k :: 0 <= k < |scopes| ==> identifier !in scopes[k]
  {
    if scopes == [] then None
    else if identifier in scopes[|scopes| - 1] then Some(|scopes| - 1)
    else Find(scopes[..|scopes| - 1], identifier)
  }

  function Found(scopes: Scopes, identifier: string): (r: Option<Ir.Field>)
    ensures r.Some? <==> Find(scopes, identifier).Some?
  {
    match Find(scopes, identifier)
    case None => None
    case Some(k) => Some(scopes[k][identifier])
  }

  function TypeOfField(f: Ir.Field): DataType {
    DataType(f.baseType, f.isArray)
  }

  // ----- literals and expressions -----

  function LiteralType(l: Ir.Literal): DataType {
    if l.kind == Ir.BoolLiteral then Truth else Number
  }

  /** The reader leaves the sentinel where a literal overflows. */
  predicate LiteralOk(policy: Policy, l: Ir.Literal) {
    && (l.kind == Ir.IntLiteral ==> l.value != SENTINEL)
    && (policy.plain && l.kind == Ir.BoolLiteral ==> !l.negate)
  }

  datatype Typed = Typed(expression: Ir.Expression, dataType: DataType, ok: bool)

  datatype TypedLocation = TypedLocation(location: Ir.Location, dataType: DataType, constant: bool, ok: bool)

  datatype TypedCall = TypedCall(call: Ir.MethodCall, returnType: Ir.Type, ok: bool)

  predicate OperandsFit(op: Ir.BinaryOperator, left: DataType, right: DataType) {
    match op
    case Or => left == Truth && right == Truth
    case And => left == Truth && right == Truth
    case EqualTo => !left.isArray && !right.isArray && left == right
    case NotEqualTo => !left.isArray && !right.isArray && left == right
    case _ => left == Number && right == Number
  }

  function ResultType(op: Ir.BinaryOperator): DataType {
    match op
    case Plus => Number
    case Minus => Number
    case Times => Number
    case Over => Number
    case Modulus => Number
    case _ => Truth
  }

  /** A declared length as the 64-bit integer it is kept in: -1 where there is none. */
  function KeptLength(f: Ir.Field): Word {
    if !f.open && f.length < TWO_63 then f.length else -1
  }

  function CheckExpression(env: Environment, e: Ir.Expression): Typed
    decreases e
  {
    match e
    case Binary(op, l, r) =>
      var left, right := CheckExpression(env, l), CheckExpression(env, r);
      Typed(Ir.Binary(op, left.expression, right.expression), ResultType(op),
            left.ok && right.ok && OperandsFit(op, left.dataType, right.dataType))
    case Not(o) =>
      var operand := CheckExpression(env, o);
      Typed(Ir.Not(operand.expression), Truth, operand.ok && operand.dataType == Truth)
    case Negate(o) =>
      var operand := CheckExpression(env, o);
      Typed(Ir.Negate(operand.expression), Number, operand.ok && operand.dataType == Number)
    case Length(id, _) => (
      match Found(env.scopes, id)
      case None => Typed(e, Number, false)
      case Some(f) => if f.isArray then Typed(Ir.Length(id, KeptLength(f)), Number, true) else Typed(e, Number, false))
    case Invoke(call) =>
      var called := CheckCall(env, call);
      Typed(Ir.Invoke(called.call), DataType(called.returnType, false), called.ok && called.returnType != Ir.Void)
    case Constant(l) => Typed(e, LiteralType(l), LiteralOk(env.policy, l))
    case At(location) =>
      var at := CheckLocation(env, location);
      Typed(Ir.At(at.location), at.dataType, at.ok)
  }

  function CheckLocation(env: Environment, location: Ir.Location): TypedLocation
    decreases location
  {
    match Found(env.scopes, location.identifier)
    case None => TypedLocation(location, Nothing, false, false)
    case Some(f) =>
      if location.index.None? then TypedLocation(location, TypeOfField(f), f.constant, true)
      else
        var index := CheckExpression(env, location.index.value);
        TypedLocation(Ir.Location(location.identifier, Some(index.expression)), DataType(f.baseType, false), f.constant,
                      f.isArray && index.ok && index.dataType == Number)
  }

  /** A field hides every method of its name. */
  function CheckCall(env: Environment, call: Ir.MethodCall): TypedCall
    decreases call
  {
    if Find(env.scopes, call.identifier).Some? || call.identifier !in env.methods then TypedCall(call, Ir.Void, false)
    else
      match env.methods[call.identifier]
      case Imported =>
        var arguments := CheckArguments(env, call.arguments, None);
        TypedCall(Ir.MethodCall(call.identifier, arguments.value), Ir.Int, arguments.ok)
      case Own(returnType, parameters) =>
        if |parameters| != |call.arguments| then TypedCall(call, returnType, false)
        else
          var arguments := CheckArguments(env, call.arguments, Some(parameters));
          TypedCall(Ir.MethodCall(call.identifier, arguments.value), returnType,
                    arguments.ok)
  }

  /** `parameters` of an own method; `None` for an imported function. */
  function CheckArguments(env: Environment, arguments: seq<Ir.CallArgument>, parameters: Option<seq<DataType>>)
    : (r: Checked<seq<Ir.CallArgument>>)
    requires parameters.Some? ==> |parameters.value| == |arguments|
    ensures |r.value| == |arguments|
    decreases arguments
  {
    if arguments == [] then Checked([], true)
    else
      var first := CheckArgument(env, arguments[0], if parameters.Some? then Some(parameters.value[0]) else None);
      var rest := CheckArguments(env, arguments[1..], if parameters.Some? then Some(parameters.value[1..]) else None);
      Checked([first.value] + rest.value, first.ok && rest.ok)
  }

  function CheckArgument(env: Environment, a: Ir.CallArgument, parameter: Option<DataType>): Checked<Ir.CallArgument>
    decreases a
  {
    match a
    case StringArgument(_) => Checked(a, parameter.None?)
    case ValueArgument(e) =>
      var t := CheckExpression(env, e);
      Checked(Ir.ValueArgument(t.expression),
              && t.ok
              && (parameter.Some? ==> t.dataType == parameter.value)
              && (parameter.None? && env.policy.plain ==> !t.dataType.isArray))
  }

  // ----- declarations -----

  /** Neither brackets nor a literal that could be read say how long the array is. */
  predicate LengthOpen(f: Ir.Field) {
    f.open || f.length == SENTINEL
  }

  predicate InitializerOk(policy: Policy, f: Ir.Field, literals: seq<Ir.Literal>) {
    && DataType(if literals == [] then Ir.Void else LiteralType(literals[0]).base, f.braced) == TypeOfField(f)
    && (forall i :: 0 <= i < |literals| ==>
         LiteralOk(policy, literals[i]) && LiteralType(literals[i]) == LiteralType(literals[0]))
    && (f.isArray && f.braced ==> LengthOpen(f))
  }

  predicate DeclarationOk(policy: Policy, f: Ir.Field) {
    match f.initializer
    case Some(literals) => InitializerOk(policy, f, literals)
    case None => (f.isArray ==> !LengthOpen(f) && f.length != 0) && !f.constant
  }

  /** An initializer decides the length. */
  function Completed(f: Ir.Field): Ir.Field {
    if f.initializer.Some? then f.(length := |f.initializer.value|, open := false) else f
  }

  /** Declared in this scope already or, at the outermost level, as a method. */
  predicate Redeclared(methods: map<string, Signature>, scopes: Scopes, identifier: string)
    requires scopes != []
  {
    identifier in scopes[|scopes| - 1] || (|scopes| == 1 && identifier in methods)
  }

  datatype CheckedFields = CheckedFields(scopes: Scopes, fields: seq<Ir.Field>, ok: bool)

  function CheckFields(env: Environment, fields: seq<Ir.Field>): (r: CheckedFields)
    requires env.scopes != []
    ensures |r.scopes| == |env.scopes| && |r.fields| == |fields|
  {
    if fields == [] then CheckedFields(env.scopes, [], true)
    else
      var front, f := CheckFields(env, fields[..|fields| - 1]), fields[|fields| - 1];
      var clash := Redeclared(env.methods, front.scopes, f.identifier);
      CheckedFields(if clash then front.scopes else AddToScope(front.scopes, Completed(f)),
                    front.fields + [Completed(f)],
                    front.ok && !clash && DeclarationOk(env.policy, f))
  }

  function AddToScope(scopes: Scopes, f: Ir.Field): (r: Scopes)
    requires scopes != []
    ensures |r| == |scopes|
  {
    scopes[|scopes| - 1 := scopes[|scopes| - 1][f.identifier := f]]
  }

  // ----- statements -----

  function CheckAssignment(env: Environment, a: Ir.Assignment): Checked<Ir.Assignment> {
    var at := CheckLocation(env, a.location);
    var place := Find(env.scopes, a.location.identifier);
    var assignable := !at.constant && !at.dataType.isArray && (a.op != Ir.Set ==> at.dataType == Number)
      && (place.Some? ==> FieldName(a.location.identifier, place.value) !in env.fixed);
    match a.expression
    case None => Checked(a.(location := at.location), at.ok && assignable)
    case Some(e) =>
      var t := CheckExpression(env, e);
      Checked(Ir.Assignment(at.location, a.op, Some(t.expression)), at.ok && assignable && t.ok && t.dataType
        == at.dataType)
  }

  function CheckUpdate(env: Environment, u: Ir.ForUpdate): Checked<Ir.ForUpdate> {
    match u
    case UpdateAssignment(a) =>
      var checked := CheckAssignment(env, a);
      Checked(Ir.UpdateAssignment(checked.value), checked.ok)
    case UpdateCall(call) =>
      var called := CheckCall(env, call);
      Checked(Ir.UpdateCall(called.call), called.ok)
  }

  function CheckCondition(env: Environment, e: Ir.Expression): Checked<Ir.Expression> {
    var t := CheckExpression(env, e);
    Checked(t.expression, t.ok && t.dataType == Truth)
  }

  function InLoop(env: Environment): Environment {
    env.(loopDepth := env.loopDepth + 1)
  }

  function CheckStatement(env: Environment, s: Ir.Statement): Checked<Ir.Statement>
    decreases s
  {
    match s
    case Assign(a) =>
      var checked := CheckAssignment(env, a);
      Checked(Ir.Assign(checked.value), checked.ok)
    case CallStatement(call) =>
      var called := CheckCall(env, call);
      Checked(Ir.CallStatement(called.call), called.ok)
    case If(c, ifBlock, None) =>
      var condition, first := CheckCondition(env, c), CheckBlock(env, ifBlock);
      Checked(Ir.If(condition.value, first.value, None), condition.ok && first.ok)
    case If(c, ifBlock, Some(elseBlock)) =>
      var condition, first, second := CheckCondition(env, c), CheckBlock(env, ifBlock), CheckBlock(env, elseBlock);
      Checked(Ir.If(condition.value, first.value, Some(second.value)), condition.ok && first.ok && second.ok)
    case For(initial, c, u, body) =>
      var inner := InLoop(env);
      var start, condition := CheckAssignment(inner, initial), CheckCondition(inner, c);
      var update, block := CheckUpdate(inner, u), CheckBlock(inner, body);
      Checked(Ir.For(start.value, condition.value, update.value, block.value), start.ok && condition.ok && update.ok
        && block.ok)
    case While(c, body) =>
      var condition, block := CheckCondition(InLoop(env), c), CheckBlock(InLoop(env), body);
      Checked(Ir.While(condition.value, block.value), condition.ok && block.ok)
    case Return(None) => Checked(s, env.returnType == Ir.Void)
    case Return(Some(e)) =>
      var t := CheckExpression(env, e);
      Checked(Ir.Return(Some(t.expression)), t.ok && t.dataType == DataType(env.returnType, false))
    case Break => Checked(s, env.loopDepth > 0)
    case Continue => Checked(s, env.loopDepth > 0)
  }

  function CheckBlock(env: Environment, b: Ir.Block): Checked<Ir.Block>
    decreases b
  {
    var declared := CheckFields(env.(scopes := env.scopes + [map[]]), b.fields);
    var statements := CheckStatements(env.(scopes := declared.scopes), b.statements);
    Checked(Ir.Block(declared.fields, statements.value), declared.ok && statements.ok)
  }

  function CheckStatements(env: Environment, statements: seq<Ir.Statement>): (r: Checked<seq<Ir.Statement>>)
    ensures |r.value| == |statements|
    decreases statements
  {
    if statements == [] then Checked([], true)
    else
      var first, rest := CheckStatement(env, statements[0]), CheckStatements(env, statements[1..]);
      Checked([first.value] + rest.value, first.ok && rest.ok)
  }

  // ----- methods and programs -----

  /** No parameter of an own method is an array. */
  ghost predicate ScalarParameters(methods: map<string, Signature>) {
    forall id :: id in methods && methods[id].Own? ==> forall t :: t in methods[id].parameters ==> !t.isArray
  }

  function SignatureOf(m: Ir.Method): Signature {
    Own(m.returnType, seq(|m.arguments|, i requires 0 <= i < |m.arguments| => TypeOfField(m.arguments[i])))
  }

  /** `declare_method`. */
  function DeclareMethod(methods: map<string, Signature>, scopes: Scopes, identifier: string, signature: Signature)
    : (r: (map<string, Signature>, bool))
    requires scopes != []
  {
    if identifier in methods || identifier in scopes[|scopes| - 1] then (methods, false)
      else (methods[identifier := signature], true)
  }

  /** The names of the parameters, as fields of level 1. */
  function FixedNames(policy: Policy, m: Ir.Method): set<string> {
    if policy.fixedParameters then set f | f in m.arguments :: FieldName(f.identifier, 1) else {}
  }

  /** The method is declared before its body is checked, so it can call itself, and it shares one
      scope between its parameters and the body's own fields. */
  function CheckMethod(env: Environment, m: Ir.Method): (r: (Environment, Checked<Ir.Method>))
    requires env.scopes != []
    ensures r.0.scopes == env.scopes && r.0.policy == env.policy
  {
    var (methods, isNew) := DeclareMethod(env.methods, env.scopes, m.identifier, SignatureOf(m));
    var env' := env.(methods := methods, returnType := m.returnType);
    var inner := env'.(scopes := env.scopes + [map[]], fixed := FixedNames(env.policy, m));
    var parameters := CheckFields(inner, m.arguments);
    var fields := CheckFields(inner.(scopes := parameters.scopes), m.body.fields);
    var statements := CheckStatements(inner.(scopes := fields.scopes), m.body.statements);
    (env', Checked(Ir.Method(m.returnType, m.identifier, parameters.fields, Ir.Block(fields.fields, statements.value)),
                   isNew && parameters.ok && fields.ok && statements.ok))
  }

  function CheckImports(imports: seq<string>): (map<string, Signature>, bool) {
    if imports == [] then (map[], true)
    else
      var (methods, ok) := CheckImports(imports[..|imports| - 1]);
      var (methods', isNew) := DeclareMethod(methods, [map[]], imports[|imports| - 1], Imported);
      (methods', ok && isNew)
  }

  function CheckMethods(env: Environment, methods: seq<Ir.Method>): (r: (Environment, Checked<seq<Ir.Method>>))
    requires env.scopes != []
    ensures r.0.scopes == env.scopes && r.0.policy == env.policy && |r.1.value| == |methods|
  {
    if methods == [] then (env, Checked([], true))
    else
      var (env', front) := CheckMethods(env, methods[..|methods| - 1]);
      var (env'', last) := CheckMethod(env', methods[|methods| - 1]);
      (env'', Checked(front.value + [last.value], front.ok && last.ok))
  }

  /** `main` is the program's own, takes nothing and returns nothing. */
  predicate MainOk(methods: map<string, Signature>) {
    "main" in methods && methods["main"] == Own(Ir.Void, [])
  }

  /** After the imports and the global fields. */
  function GlobalEnvironment(p: Ir.Program, policy: Policy): (Environment, CheckedFields, bool) {
    var (methods, isNew) := CheckImports(p.imports);
    var start := Environment(methods, [map[]], Ir.Void, 0, policy, {});
    var fields := CheckFields(start, p.fields);
    (start.(scopes := fields.scopes), fields, isNew)
  }

  function CheckProgram(p: Ir.Program, policy: Policy): Checked<Ir.Program> {
    var (env, fields, isNew) := GlobalEnvironment(p, policy);
    var (env', methods) := CheckMethods(env, p.methods);
    Checked(Ir.Program(p.imports, fields.fields, methods.value), isNew && fields.ok && methods.ok
      && MainOk(env'.methods))
  }
}
