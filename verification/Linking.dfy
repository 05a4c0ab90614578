/** What an accepted program calls, and what its names must not be for the emitted file to be linked as meant. */
module Linking {
  import opened Words
  import opened Checker
  import opened Avoidance
  import Programs
  import opened MachinePrograms
  import Compilation
  import DeadCode
  import Ir

  // ----- an accepted program calls only what it declares -----

  /** None of these names is declared as a method or an import. */
  predicate Undeclared(env: Environment, names: set<string>) {
    names !! env.methods.Keys
  }

  lemma {:induction false} CheckedExpressionAvoids(env: Environment, names: set<string>, e: Ir.Expression)
    requires CheckExpression(env, e).ok && Undeclared(env, names)
    ensures ExpressionAvoids(names, CheckExpression(env, e).expression)
    decreases e
  {
    hide Undeclared, OperandsFit, LocationAvoids, CallAvoids, CheckLocation, CheckCall;
    match e
    case Binary(_, l, r) =>
      CheckedExpressionAvoids(env, names, l);
      CheckedExpressionAvoids(env, names, r);
    case Not(o) => CheckedExpressionAvoids(env, names, o);
    case Negate(o) => CheckedExpressionAvoids(env, names, o);
    case Length(_, _) =>
    case Invoke(call) => CheckedCallAvoids(env, names, call);
    case Constant(_) =>
    case At(location) => CheckedLocationAvoids(env, names, location);
  }

  lemma {:induction false} CheckedLocationAvoids(env: Environment, names: set<string>, location: Ir.Location)
    requires CheckLocation(env, location).ok && Undeclared(env, names)
    ensures LocationAvoids(names, CheckLocation(env, location).location)
    decreases location
  {
    hide Undeclared, ExpressionAvoids, CheckExpression;
    if location.index.Some? { CheckedExpressionAvoids(env, names, location.index.value); }
  }

  lemma {:induction false} CheckedCallAvoids(env: Environment, names: set<string>, call: Ir.MethodCall)
    requires CheckCall(env, call).ok && Undeclared(env, names)
    ensures CallAvoids(names, CheckCall(env, call).call)
    decreases call
  {
    hide ArgumentsAvoid, CheckArguments;
    match env.methods[call.identifier]
    case Imported => CheckedArgumentsAvoid(env, names, call.arguments, None);
    case Own(_, parameters) => CheckedArgumentsAvoid(env, names, call.arguments, Some(parameters));
  }

  lemma {:induction false} CheckedArgumentsAvoid(env: Environment, names: set<string>,
                                                 arguments: seq<Ir.CallArgument>, parameters: Option<seq<DataType>>)
    requires parameters.Some? ==> |parameters.value| == |arguments|
    requires CheckArguments(env, arguments, parameters).ok && Undeclared(env, names)
    ensures ArgumentsAvoid(names, CheckArguments(env, arguments, parameters).value)
    decreases arguments
  {
    hide Undeclared, ArgumentAvoids, CheckArgument;
    if arguments != [] {
      var parameter := if parameters.Some? then Some(parameters.value[0]) else None;
      var others := if parameters.Some? then Some(parameters.value[1..]) else None;
      CheckedArgumentAvoids(env, names, arguments[0], parameter);
      CheckedArgumentsAvoid(env, names, arguments[1..], others);
      var first, rest := CheckArgument(env, arguments[0], parameter), CheckArguments(env, arguments[1..], others);
      assert ([first.value] + rest.value)[1..] == rest.value;
    }
  }

  lemma {:induction false} CheckedArgumentAvoids(env: Environment, names: set<string>, a: Ir.CallArgument,
                                                 parameter: Option<DataType>)
    requires CheckArgument(env, a, parameter).ok && Undeclared(env, names)
    ensures ArgumentAvoids(names, CheckArgument(env, a, parameter).value)
    decreases a
  {
    hide Undeclared, ExpressionAvoids, CheckExpression;
    if a.ValueArgument? { CheckedExpressionAvoids(env, names, a.expression); }
  }

  lemma CheckedAssignmentAvoids(env: Environment, names: set<string>, a: Ir.Assignment)
    requires CheckAssignment(env, a).ok && Undeclared(env, names)
    ensures AssignmentAvoids(names, CheckAssignment(env, a).value)
  {
    hide Undeclared, ExpressionAvoids, LocationAvoids, CheckExpression, CheckLocation;
    CheckedLocationAvoids(env, names, a.location);
    if a.expression.Some? { CheckedExpressionAvoids(env, names, a.expression.value); }
  }

  lemma CheckedUpdateAvoids(env: Environment, names: set<string>, u: Ir.ForUpdate)
    requires CheckUpdate(env, u).ok && Undeclared(env, names)
    ensures UpdateAvoids(names, CheckUpdate(env, u).value)
  {
    hide Undeclared, AssignmentAvoids, CallAvoids, CheckAssignment, CheckCall;
    match u
    case UpdateAssignment(a) => CheckedAssignmentAvoids(env, names, a);
    case UpdateCall(call) => CheckedCallAvoids(env, names, call);
  }

  lemma {:induction false} CheckedStatementAvoids(env: Environment, names: set<string>, s: Ir.Statement)
    requires CheckStatement(env, s).ok && Undeclared(env, names)
    ensures StatementAvoids(names, CheckStatement(env, s).value)
    decreases s
  {
    hide AssignmentAvoids, CallAvoids, ExpressionAvoids, UpdateAvoids, StatementsAvoid, CheckAssignment, CheckCall,
      CheckExpression, CheckUpdate, CheckBlock;
    match s
    case Assign(a) => CheckedAssignmentAvoids(env, names, a);
    case CallStatement(call) => CheckedCallAvoids(env, names, call);
    case If(c, ifBlock, elseBlock) =>
      CheckedExpressionAvoids(env, names, c);
      CheckedBlockAvoids(env, names, ifBlock);
      if elseBlock.Some? { CheckedBlockAvoids(env, names, elseBlock.value); }
    case For(initial, c, u, body) =>
      CheckedAssignmentAvoids(InLoop(env), names, initial);
      CheckedExpressionAvoids(InLoop(env), names, c);
      CheckedUpdateAvoids(InLoop(env), names, u);
      CheckedBlockAvoids(InLoop(env), names, body);
    case While(c, body) =>
      CheckedExpressionAvoids(InLoop(env), names, c);
      CheckedBlockAvoids(InLoop(env), names, body);
    case Return(value) =>
      if value.Some? { CheckedExpressionAvoids(env, names, value.value); }
    case Break =>
    case Continue =>
  }

  lemma {:induction false} CheckedBlockAvoids(env: Environment, names: set<string>, b: Ir.Block)
    requires CheckBlock(env, b).ok && Undeclared(env, names)
    ensures StatementsAvoid(names, CheckBlock(env, b).value.statements)
    decreases b
  {
    hide StatementsAvoid, CheckStatements, CheckFields;
    var declared := CheckFields(env.(scopes := env.scopes + [map[]]), b.fields);
    CheckedStatementsAvoid(env.(scopes := declared.scopes), names, b.statements);
  }

  lemma {:induction false} CheckedStatementsAvoid(env: Environment, names: set<string>, statements: seq<Ir.Statement>)
    requires CheckStatements(env, statements).ok && Undeclared(env, names)
    ensures StatementsAvoid(names, CheckStatements(env, statements).value)
    decreases statements
  {
    hide Undeclared, StatementAvoids, CheckStatement;
    if statements != [] {
      CheckedStatementAvoids(env, names, statements[0]);
      CheckedStatementsAvoid(env, names, statements[1..]);
      var first, rest := CheckStatement(env, statements[0]), CheckStatements(env, statements[1..]);
      assert ([first.value] + rest.value)[1..] == rest.value;
    }
  }

  // ----- what a program declares -----

  function MethodIdentifiers(methods: seq<Ir.Method>): set<string> {
    set m | m in methods :: m.identifier
  }

  lemma {:induction false} ImportsDeclared(imports: seq<string>)
    ensures CheckImports(imports).0.Keys == set i | i in imports
  {
    if imports != [] {
      var n := |imports| - 1;
      ImportsDeclared(imports[..n]);
      assert imports == imports[..n] + [imports[n]];
    }
  }

  /** A method's name is new, and none of the global fields has it. */
  lemma MethodDeclared(env: Environment, names: set<string>, m: Ir.Method)
    requires env.scopes != [] && CheckMethod(env, m).1.ok && Undeclared(CheckMethod(env, m).0, names)
    ensures var (env', checked) := CheckMethod(env, m);
      && env'.methods.Keys == env.methods.Keys + {m.identifier} && checked.value.identifier == m.identifier
      && m.identifier !in env.scopes[|env.scopes| - 1]
      && StatementsAvoid(names, checked.value.body.statements)
  {
    hide CheckStatements, CheckFields, StatementsAvoid, FixedNames;
    var (methods, isNew) := DeclareMethod(env.methods, env.scopes, m.identifier, SignatureOf(m));
    var env' := env.(methods := methods, returnType := m.returnType);
    var inner := env'.(scopes := env.scopes + [map[]], fixed := FixedNames(env.policy, m));
    var parameters := CheckFields(inner, m.arguments);
    var fields := CheckFields(inner.(scopes := parameters.scopes), m.body.fields);
    CheckedStatementsAvoid(inner.(scopes := fields.scopes), names, m.body.statements);
  }

  lemma {:induction false} MethodsDeclared(env: Environment, names: set<string>, methods: seq<Ir.Method>)
    requires env.scopes != [] && CheckMethods(env, methods).1.ok && Undeclared(CheckMethods(env, methods).0, names)
    ensures var (env', checked) := CheckMethods(env, methods);
      && env'.methods.Keys == env.methods.Keys + MethodIdentifiers(checked.value)
      && (env'.methods.Keys - env.methods.Keys) !! env.scopes[|env.scopes| - 1].Keys
      && forall m :: m in checked.value ==> StatementsAvoid(names, m.body.statements)
  {
    hide CheckMethod, StatementsAvoid;
    if methods != [] {
      var n := |methods| - 1;
      var (env', front) := CheckMethods(env, methods[..n]);
      MethodDeclared(env', names, methods[n]);
      MethodsDeclared(env, names, methods[..n]);
      var last := CheckMethod(env', methods[n]).1.value;
      assert MethodIdentifiers(front.value + [last]) == MethodIdentifiers(front.value) + {last.identifier};
    }
  }

  /** The outermost scope holds exactly the global fields, and none of them is an import. */
  lemma {:induction false} FieldsDeclared(env: Environment, fields: seq<Ir.Field>)
    requires |env.scopes| == 1 && CheckFields(env, fields).ok
    ensures var checked := CheckFields(env, fields);
      && checked.scopes[0].Keys == env.scopes[0].Keys + (set f | f in checked.fields :: f.identifier)
      && (checked.scopes[0].Keys - env.scopes[0].Keys) !! env.methods.Keys
  {
    if fields != [] {
      var n := |fields| - 1;
      FieldsDeclared(env, fields[..n]);
      var front := CheckFields(env, fields[..n]);
      assert forall f :: f in front.fields + [Completed(fields[n])] <==> f in front.fields || f == Completed(fields[n]);
    }
  }

  // ----- the linker's view -----

  /** Of an accepted program, what its names must not be: `exit`, where the code may have to end the
      process, and the label of a block or of a string. A global and a method never share a name. */
  ghost predicate SymbolsDistinct(p: Ir.Program, p': Programs.Program) {
    && (HasExits(p') ==>
          "exit" !in MethodIdentifiers(p.methods) && "exit" !in DeadCode.GlobalNames(p'.globals))
    && (Labels(p') - DeadCode.GlobalNames(p'.globals)) !! ((set i | i in p.imports) + MethodIdentifiers(p.methods))
  }

  lemma GlobalIdentifiers(fields: seq<Ir.Field>)
    ensures DeadCode.GlobalNames(Compilation.GlobalDeclarations(fields)) == set f | f in fields :: f.identifier
  {
    var declared := Compilation.GlobalDeclarations(fields);
    forall i | 0 <= i < |fields| ensures declared[i].identifier == fields[i].identifier {}
  }

  lemma {:induction false} NotFound(methods: seq<Ir.Method>, id: string)
    ensures Compilation.FindMethod(methods, id).None? <==> id !in MethodIdentifiers(methods)
  {
    if methods != [] { NotFound(methods[1..], id); }
  }

  /** An accepted program whose symbols are distinct in this sense can be linked: it calls only what it
      declares, and declares no method or import under the name of a global. */
  lemma CheckedIsLinkable(p: Ir.Program, p': Programs.Program)
    requires CheckProgram(p, AsWritten).ok && SymbolsDistinct(CheckProgram(p, AsWritten).value, p')
    requires p'.globals == Compilation.GlobalDeclarations(CheckProgram(p, AsWritten).value.fields)
    ensures Linkable(CheckProgram(p, AsWritten).value, p') && "main" !in Labels(p')
  {
    hide CheckMethods, CheckFields, Labels, HasExits, StatementsAvoid;
    var q := CheckProgram(p, AsWritten).value;
    var (env, fields, isNew) := GlobalEnvironment(p, AsWritten);
    var names := Labels(p');
    GlobalIdentifiers(q.fields);
    NotFound(q.methods, "exit");
    ImportsDeclared(p.imports);
    FieldsDeclared(Environment(CheckImports(p.imports).0, [map[]], Ir.Void, 0, AsWritten, {}), p.fields);
    MethodsDeclared(env, {}, p.methods);
    assert Undeclared(CheckMethods(env, p.methods).0, names);
    MethodsDeclared(env, names, p.methods);
  }
}
