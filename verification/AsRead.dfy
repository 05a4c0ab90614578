/** What the reader can leave in a program: literals within their limits or the sentinel, lengths
    likewise, names of the scanner's making. */
module AsRead {
  import opened Words
  import opened Names
  import opened Literals
  import Ir

  predicate LiteralAsRead(l: Ir.Literal) {
    && (Ir.LiteralInRange(l) || (l.kind == Ir.IntLiteral && l.value == SENTINEL))
    && (l.kind == Ir.BoolLiteral ==> l.value <= 1)
  }

  /** Without braces there is exactly one literal; a scalar has length 1; nothing has type void. */
  predicate FieldAsRead(f: Ir.Field) {
    && ValidIdentifier(f.identifier)
    && f.baseType != Ir.Void
    && (if f.isArray then f.length < TWO_63 || f.length == SENTINEL else f.length == 1 && !f.open)
    && (f.initializer.Some? ==>
          && |f.initializer.value| < TWO_63
          && (!f.braced ==> |f.initializer.value| == 1)
          && forall l :: l in f.initializer.value ==> LiteralAsRead(l))
  }

  predicate FieldsAsRead(fields: seq<Ir.Field>) {
    forall f :: f in fields ==> FieldAsRead(f)
  }

  predicate ParameterAsRead(f: Ir.Field) {
    FieldAsRead(f) && !f.isArray && f.initializer.None?
  }

  predicate ExpressionAsRead(e: Ir.Expression)
    decreases e
  {
    match e
    case Binary(_, l, r) => ExpressionAsRead(l) && ExpressionAsRead(r)
    case Not(o) => ExpressionAsRead(o)
    case Negate(o) => ExpressionAsRead(o)
    case Length(_, _) => true
    case Invoke(call) => CallAsRead(call)
    case Constant(l) => LiteralAsRead(l)
    case At(location) => LocationAsRead(location)
  }

  predicate LocationAsRead(location: Ir.Location)
    decreases location
  {
    location.index.Some? ==> ExpressionAsRead(location.index.value)
  }

  predicate CallAsRead(call: Ir.MethodCall)
    decreases call
  {
    ArgumentsAsRead(call.arguments)
  }

  predicate ArgumentsAsRead(arguments: seq<Ir.CallArgument>)
    decreases arguments
  {
    arguments == [] || (ArgumentAsRead(arguments[0]) && ArgumentsAsRead(arguments[1..]))
  }

  predicate ArgumentAsRead(a: Ir.CallArgument)
    decreases a
  {
    a.ValueArgument? ==> ExpressionAsRead(a.expression)
  }

  predicate AssignmentAsRead(a: Ir.Assignment) {
    LocationAsRead(a.location) && (a.expression.Some? ==> ExpressionAsRead(a.expression.value))
    && (a.expression.None? ==> a.op != Ir.Set)
  }

  predicate UpdateAsRead(u: Ir.ForUpdate) {
    match u
    case UpdateAssignment(a) => AssignmentAsRead(a)
    case UpdateCall(call) => CallAsRead(call)
  }

  predicate StatementAsRead(s: Ir.Statement)
    decreases s
  {
    match s
    case Assign(a) => AssignmentAsRead(a)
    case CallStatement(call) => CallAsRead(call)
    case If(c, ifBlock, elseBlock) =>
      ExpressionAsRead(c) && BlockAsRead(ifBlock) && (elseBlock.Some? ==> BlockAsRead(elseBlock.value))
    case For(initial, c, u, body) => AssignmentAsRead(initial) && ExpressionAsRead(c) && UpdateAsRead(u)
      && BlockAsRead(body)
    case While(c, body) => ExpressionAsRead(c) && BlockAsRead(body)
    case Return(value) => value.Some? ==> ExpressionAsRead(value.value)
    case Break => true
    case Continue => true
  }

  predicate BlockAsRead(b: Ir.Block)
    decreases b
  {
    FieldsAsRead(b.fields) && StatementsAsRead(b.statements)
  }

  predicate StatementsAsRead(statements: seq<Ir.Statement>)
    decreases statements
  {
    statements == [] || (StatementAsRead(statements[0]) && StatementsAsRead(statements[1..]))
  }

  predicate MethodAsRead(m: Ir.Method) {
    (forall f :: f in m.arguments ==> ParameterAsRead(f)) && BlockAsRead(m.body)
  }

  predicate ProgramAsRead(p: Ir.Program) {
    FieldsAsRead(p.fields) && forall m :: m in p.methods ==> MethodAsRead(m)
  }
}
