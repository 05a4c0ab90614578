/** What the checker guarantees to the generator: everything the generator asserts. */
module CheckerSoundness {
  import opened Words
  import opened Worlds
  import opened Names
  import opened Llir
  import opened Lowering
  import opened Checker
  import opened AsRead
  import opened Compilation
  import opened GeneratedMethods
  import Ir

  /** The generator's tables, level by level, say what the checker's scopes say. */
  ghost predicate Described(symbols: SymbolTables, scopes: Scopes) {
    && |symbols| == |scopes|
    && forall k :: 0 <= k < |scopes| ==> DescribedScope(symbols[k], scopes[k], k)
  }

  ghost predicate DescribedScope(table: map<string, FieldDeclaration>, scope: map<string, Ir.Field>, level: nat) {
    && table.Keys == scope.Keys
    && forall id :: id in scope ==> scope[id].identifier == id && table[id] == MakeField(scope[id], level)
  }

  /** Every location resolves to the field that the checker found, under the same shadowing. */
  lemma {:induction false} LookupFinds(symbols: SymbolTables, scopes: Scopes, identifier: string)
    requires Described(symbols, scopes)
    ensures match Find(scopes, identifier)
            case None => Lookup(symbols, identifier).None?
            case Some(k) => Lookup(symbols, identifier) == Some(MakeField(scopes[k][identifier], k))
    decreases |scopes|
  {
    hide MakeField;
    if scopes != [] {
      var last := |scopes| - 1;
      assert DescribedScope(symbols[last], scopes[last], last);
      if identifier !in scopes[last] {
        LookupFinds(symbols[..last], scopes[..last], identifier);
      }
    }
  }

  /** The same, with the checker's own rules, and with a set of names that may not be assigned. */
  function Lax(env: Environment): Environment {
    env.(policy := AsWritten, fixed := {})
  }

  function Strict(env: Environment, fixed: set<string>): Environment {
    env.(fixed := fixed)
  }

  /** Acceptance under the stricter policy means being in scope; it is the same if nothing else is demanded. */
  predicate Exact(env: Environment, scoped: bool, ok: bool) {
    (ok ==> scoped) && (scoped && !env.policy.plain ==> ok)
  }

  ghost predicate Ready(env: Environment, symbols: SymbolTables) {
    Described(symbols, env.scopes) && symbols != [] && ScalarParameters(env.methods)
  }

  lemma LiteralChecked(policy: Policy, l: Ir.Literal)
    requires LiteralAsRead(l) && LiteralOk(policy, l)
    ensures Ir.LiteralInRange(l)
  {
  }

  /** An expression the checker accepts is one the generator can take. */
  lemma {:induction false} ExpressionAccepted(env: Environment, symbols: SymbolTables, fixed: set<string>,
                                              e: Ir.Expression)
    requires Ready(env, symbols) && ExpressionAsRead(e)
    ensures var lax, strict := CheckExpression(Lax(env), e), CheckExpression(Strict(env, fixed), e);
      lax.ok ==>
        && strict.expression == lax.expression && strict.dataType == lax.dataType
        && Exact(env, ScopedExpression(symbols, lax.expression), strict.ok)
    decreases e, 1
  {
    hide Described, ScalarParameters, MakeField, ScopedLocation, ScopedCall, CheckLocation, CheckCall,
      Ir.LiteralInRange, LiteralAsRead, LiteralOk;
    match e
    case Binary(op, l, r) =>
      ExpressionAccepted(env, symbols, fixed, l);
      ExpressionAccepted(env, symbols, fixed, r);
    case Not(o) => ExpressionAccepted(env, symbols, fixed, o);
    case Negate(o) => ExpressionAccepted(env, symbols, fixed, o);
    case Length(id, _) => LookupFinds(symbols, env.scopes, id);
    case Invoke(call) => CallAccepted(env, symbols, fixed, call);
    case Constant(l) =>
      SameLiterals(env, fixed, l);
      if LiteralOk(Lax(env).policy, l) { LiteralChecked(Lax(env).policy, l); }
    case At(location) => LocationAccepted(env, symbols, fixed, location);
  }

  lemma SameLiterals(env: Environment, fixed: set<string>, l: Ir.Literal)
    ensures Exact(env, LiteralOk(Lax(env).policy, l), LiteralOk(Strict(env, fixed).policy, l))
  {
  }

  lemma {:induction false} LocationAccepted(env: Environment, symbols: SymbolTables, fixed: set<string>,
                                            location: Ir.Location)
    requires Ready(env, symbols) && LocationAsRead(location)
    ensures var lax, strict := CheckLocation(Lax(env), location), CheckLocation(Strict(env, fixed), location);
      lax.ok ==>
        && strict.location == lax.location && strict.dataType == lax.dataType && strict.constant == lax.constant
        && lax.location.identifier == location.identifier && Find(env.scopes, location.identifier).Some?
        && Exact(env, ScopedLocation(symbols, lax.location), strict.ok)
    decreases location
  {
    hide Described, ScalarParameters, CheckExpression, ScopedExpression, ExpressionAsRead;
    LookupFinds(symbols, env.scopes, location.identifier);
    if location.index.Some? {
      ExpressionAccepted(env, symbols, fixed, location.index.value);
    }
  }

  lemma {:induction false} CallAccepted(env: Environment, symbols: SymbolTables, fixed: set<string>,
                                        call: Ir.MethodCall)
    requires Ready(env, symbols) && CallAsRead(call)
    ensures var lax, strict := CheckCall(Lax(env), call), CheckCall(Strict(env, fixed), call);
      lax.ok ==>
        && strict.call == lax.call && strict.returnType == lax.returnType
        && Exact(env, ScopedCall(symbols, lax.call), strict.ok)
    decreases call
  {
    hide Described, CheckArguments, ScopedArguments, ArgumentsAsRead, Find;
    if call.identifier in env.methods {
      var signature := env.methods[call.identifier];
      match signature
      case Imported => ArgumentsAccepted(env, symbols, fixed, call.arguments, None);
      case Own(_, parameters) =>
        if |parameters| == |call.arguments| {
          ArgumentsAccepted(env, symbols, fixed, call.arguments, Some(parameters));
        }
    }
  }

  lemma {:induction false} ArgumentsAccepted(env: Environment, symbols: SymbolTables, fixed: set<string>,
                                             arguments: seq<Ir.CallArgument>, parameters: Option<seq<DataType>>)
    requires Ready(env, symbols) && ArgumentsAsRead(arguments)
    requires parameters.Some? ==> |parameters.value| == |arguments| && forall t :: t in parameters.value ==> !t.isArray
    ensures var lax, strict := CheckArguments(Lax(env), arguments, parameters),
      CheckArguments(Strict(env, fixed), arguments, parameters);
      lax.ok ==> strict.value == lax.value && Exact(env, ScopedArguments(symbols, lax.value), strict.ok)
    decreases arguments
  {
    hide Described, ScalarParameters, CheckArgument, ScopedArgument, ArgumentAsRead;
    if arguments != [] {
      ArgumentAccepted(env, symbols, fixed, arguments[0], if parameters.Some? then Some(parameters.value[0]) else None);
      ArgumentsAccepted(env, symbols, fixed, arguments[1..], if parameters.Some? then Some(parameters.value[1..])
        else None);
    }
  }

  lemma {:induction false} ArgumentAccepted(env: Environment, symbols: SymbolTables, fixed: set<string>,
                                            a: Ir.CallArgument, parameter: Option<DataType>)
    requires Ready(env, symbols) && ArgumentAsRead(a) && (parameter.Some? ==> !parameter.value.isArray)
    ensures var lax, strict := CheckArgument(Lax(env), a, parameter), CheckArgument(Strict(env, fixed), a, parameter);
      lax.ok ==> strict.value == lax.value && Exact(env, ScopedArgument(symbols, lax.value), strict.ok)
    decreases a
  {
    hide Described, ScalarParameters, CheckExpression, ScopedExpression, ExpressionAsRead;
    if a.ValueArgument? { ExpressionAccepted(env, symbols, fixed, a.expression); }
  }

  // ----- declarations -----

  function Identifiers(fields: seq<Ir.Field>): set<string> {
    set f | f in fields :: f.identifier
  }

  lemma DeclarationAccepted(policy: Policy, f: Ir.Field)
    requires FieldAsRead(f) && DeclarationOk(policy, f)
    ensures ValidIdentifier(Completed(f).identifier) && Ir.WellDeclared(Completed(f))
  {
    hide ValidIdentifier, Ir.LiteralInRange, LiteralAsRead, LiteralOk;
    if f.initializer.Some? {
      var literals := f.initializer.value;
      if |literals| == 0 {
        assert false;
      }
      forall l | l in literals ensures Ir.LiteralInRange(l) {
        var i :| 0 <= i < |literals| && literals[i] == l;
        LiteralChecked(policy, literals[i]);
      }
    }
  }

  /** The declarations of one scope are what the generator needs, and both tables grow alike. */
  lemma {:induction false} FieldsAccepted(env: Environment, symbols: SymbolTables, fields: seq<Ir.Field>,
                                          before: seq<Ir.Field>)
    requires env.scopes != [] && Described(symbols, env.scopes) && FieldsAsRead(fields) && CheckFields(env, fields).ok
    requires ScopedFields(before) && env.scopes[|env.scopes| - 1].Keys == Identifiers(before)
    ensures var r := CheckFields(env, fields);
      && Described(DeclareAll(symbols, r.fields), r.scopes)
      && r.scopes[|r.scopes| - 1].Keys == Identifiers(before + r.fields)
      && ScopedFields(before + r.fields)
      && |r.fields| == |fields| && forall i :: 0 <= i < |fields| ==> r.fields[i] == Completed(fields[i])
  {
    hide MakeField, ValidIdentifier, Ir.WellDeclared, FieldAsRead, DeclarationOk, Described, Identifiers,
      ScopedFields, Declare, Completed, AddToScope;
    if fields == [] {
      assert before + [] == before;
    } else {
      var front, f := fields[..|fields| - 1], fields[|fields| - 1];
      FieldsAccepted(env, symbols, front, before);
      var r0, r := CheckFields(env, front), CheckFields(env, fields);
      assert f in fields;
      DeclarationAccepted(env.policy, f);
      var done := before + r0.fields;
      assert before + r.fields == done + [Completed(f)];
      assert r.fields[..|r0.fields|] == r0.fields;
      DescribedAdd(DeclareAll(symbols, r0.fields), r0.scopes, Completed(f));
      assert DeclareAll(symbols, r.fields) == Declare(DeclareAll(symbols, r0.fields), Completed(f));
      assert f.identifier !in Identifiers(done) && Completed(f).identifier == f.identifier by { CompletedName(f); }
      ScopedMore(done, Completed(f));
    }
  }

  lemma CompletedName(f: Ir.Field)
    ensures Completed(f).identifier == f.identifier
  {
  }

  lemma ScopedMore(fields: seq<Ir.Field>, f: Ir.Field)
    requires ScopedFields(fields) && ValidIdentifier(f.identifier) && Ir.WellDeclared(f)
    requires f.identifier !in Identifiers(fields)
    ensures ScopedFields(fields + [f])
    ensures Identifiers(fields + [f]) == Identifiers(fields) + {f.identifier}
  {
    hide ValidIdentifier, Ir.WellDeclared;
    forall i | 0 <= i < |fields| ensures fields[i].identifier != f.identifier { assert fields[i] in fields; }
    assert f in fields + [f];
    forall g | g in fields ensures g in fields + [f] {
      var i :| 0 <= i < |fields| && fields[i] == g;
      assert (fields + [f])[i] == g;
    }
  }

  lemma DescribedAdd(symbols: SymbolTables, scopes: Scopes, f: Ir.Field)
    requires Described(symbols, scopes) && scopes != []
    ensures Described(Declare(symbols, f), AddToScope(scopes, f))
    ensures AddToScope(scopes, f)[|scopes| - 1].Keys == scopes[|scopes| - 1].Keys + {f.identifier}
  {
    hide MakeField;
    var last := |scopes| - 1;
    assert DescribedScope(symbols[last], scopes[last], last);
  }

  /** Demands on arguments and assignments do not matter to declarations. */
  lemma {:induction false} FieldsAlike(env: Environment, fixed: set<string>, fields: seq<Ir.Field>)
    requires env.scopes != []
    ensures var lax, strict := CheckFields(Lax(env), fields), CheckFields(Strict(env, fixed), fields);
      strict.scopes == lax.scopes && strict.fields == lax.fields && Exact(env, lax.ok, strict.ok)
  {
    hide DeclarationOk, Redeclared, Completed;
    if fields != [] {
      FieldsAlike(env, fixed, fields[..|fields| - 1]);
      DeclarationAlike(env, fixed, fields[|fields| - 1]);
    }
  }

  lemma DeclarationAlike(env: Environment, fixed: set<string>, f: Ir.Field)
    ensures Exact(env, DeclarationOk(Lax(env).policy, f), DeclarationOk(Strict(env, fixed).policy, f))
  {
  }

  // ----- statements -----

  lemma AssignmentAccepted(env: Environment, symbols: SymbolTables, fixed: set<string>, a: Ir.Assignment)
    requires Ready(env, symbols) && AssignmentAsRead(a)
    ensures var lax, strict := CheckAssignment(Lax(env), a), CheckAssignment(Strict(env, fixed), a);
      lax.ok ==> strict.value == lax.value && Exact(env, ScopedAssignment(symbols, lax.value, fixed), strict.ok)
  {
    hide ScalarParameters, CheckExpression, ScopedExpression, ExpressionAsRead, CheckLocation, ScopedLocation,
      LocationAsRead, FieldName;
    LocationAccepted(env, symbols, fixed, a.location);
    LookupFinds(symbols, env.scopes, a.location.identifier);
    var place := Find(env.scopes, a.location.identifier);
    if place.Some? {
      assert DescribedScope(symbols[place.value], env.scopes[place.value], place.value);
    }
    if a.expression.Some? { ExpressionAccepted(env, symbols, fixed, a.expression.value); }
  }

  lemma UpdateAccepted(env: Environment, symbols: SymbolTables, fixed: set<string>, u: Ir.ForUpdate)
    requires Ready(env, symbols) && UpdateAsRead(u)
    ensures var lax, strict := CheckUpdate(Lax(env), u), CheckUpdate(Strict(env, fixed), u);
      lax.ok ==> strict.value == lax.value && Exact(env, ScopedUpdate(symbols, lax.value, fixed), strict.ok)
  {
    hide Described, ScalarParameters, CheckAssignment, CheckCall, ScopedAssignment, ScopedCall, AssignmentAsRead,
      CallAsRead;
    match u
    case UpdateAssignment(a) => AssignmentAccepted(env, symbols, fixed, a);
    case UpdateCall(call) => CallAccepted(env, symbols, fixed, call);
  }

  lemma ConditionAccepted(env: Environment, symbols: SymbolTables, fixed: set<string>, e: Ir.Expression)
    requires Ready(env, symbols) && ExpressionAsRead(e)
    ensures var lax, strict := CheckCondition(Lax(env), e), CheckCondition(Strict(env, fixed), e);
      lax.ok ==> strict.value == lax.value && Exact(env, ScopedExpression(symbols, lax.value), strict.ok)
  {
    hide Described, ScalarParameters, CheckExpression, ScopedExpression, ExpressionAsRead;
    ExpressionAccepted(env, symbols, fixed, e);
  }

  /** What is to be shown of a statement and of a block. */
  ghost predicate StatementAgrees(env: Environment, symbols: SymbolTables, fixed: set<string>, s: Ir.Statement)
    requires symbols != []
  {
    var lax, strict := CheckStatement(Lax(env), s), CheckStatement(Strict(env, fixed), s);
    lax.ok ==>
      strict.value == lax.value && Exact(env, ScopedStatement(symbols, lax.value, env.loopDepth > 0, fixed), strict.ok)
  }

  ghost predicate BlockAgrees(env: Environment, symbols: SymbolTables, fixed: set<string>, b: Ir.Block) {
    var lax, strict := CheckBlock(Lax(env), b), CheckBlock(Strict(env, fixed), b);
    lax.ok ==>
      strict.value == lax.value && Exact(env, ScopedBlock(symbols, lax.value, env.loopDepth > 0, fixed), strict.ok)
  }

  lemma {:induction false} StatementAccepted(env: Environment, symbols: SymbolTables, fixed: set<string>,
                                             s: Ir.Statement)
    requires Ready(env, symbols) && StatementAsRead(s)
    ensures StatementAgrees(env, symbols, fixed, s)
    decreases s
  {
    hide Described, ScalarParameters, CheckAssignment, CheckCall, CheckUpdate, CheckCondition, CheckBlock,
      CheckExpression, ScopedAssignment, ScopedCall, ScopedUpdate, ScopedBlock, ScopedExpression, AssignmentAsRead,
      CallAsRead, UpdateAsRead, BlockAsRead, ExpressionAsRead;
    match s
    case Assign(a) => AssignmentAccepted(env, symbols, fixed, a);
    case CallStatement(call) => CallAccepted(env, symbols, fixed, call);
    case If(c, ifBlock, elseBlock) =>
      ConditionAccepted(env, symbols, fixed, c);
      BlockAccepted(env, symbols, fixed, ifBlock);
      if elseBlock.Some? { BlockAccepted(env, symbols, fixed, elseBlock.value); }
    case For(initial, c, u, body) =>
      LoopEnvironments(env, fixed);
      AssignmentAccepted(InLoop(env), symbols, fixed, initial);
      ConditionAccepted(InLoop(env), symbols, fixed, c);
      UpdateAccepted(InLoop(env), symbols, fixed, u);
      BlockAccepted(InLoop(env), symbols, fixed, body);
    case While(c, body) =>
      LoopEnvironments(env, fixed);
      ConditionAccepted(InLoop(env), symbols, fixed, c);
      BlockAccepted(InLoop(env), symbols, fixed, body);
    case Return(value) =>
      if value.Some? { ExpressionAccepted(env, symbols, fixed, value.value); }
    case Break =>
    case Continue =>
  }

  lemma LoopEnvironments(env: Environment, fixed: set<string>)
    ensures Lax(InLoop(env)) == InLoop(Lax(env)) && Strict(InLoop(env), fixed) == InLoop(Strict(env, fixed))
  {
  }

  lemma {:induction false} BlockAccepted(env: Environment, symbols: SymbolTables, fixed: set<string>, b: Ir.Block)
    requires Ready(env, symbols) && BlockAsRead(b)
    ensures BlockAgrees(env, symbols, fixed, b)
    decreases b
  {
    hide ScalarParameters, CheckStatements, CheckFields, ScopedStatements, ScopedFields, FieldsAsRead,
      StatementsAsRead, DeclareAll;
    var inner := env.(scopes := env.scopes + [map[]]);
    FieldsAlike(inner, fixed, b.fields);
    assert Lax(inner) == Lax(env).(scopes := env.scopes + [map[]]) && Strict(inner, fixed)
      == Strict(env, fixed).(scopes := env.scopes + [map[]]);
    var declared := CheckFields(Lax(inner), b.fields);
    if declared.ok {
      EmptyScope(symbols, env.scopes);
      FieldsAccepted(Lax(inner), symbols + [map[]], b.fields, []);
      assert [] + declared.fields == declared.fields;
      var body := env.(scopes := declared.scopes);
      var symbols' := DeclareAll(symbols + [map[]], declared.fields);
      StatementsAccepted(body, symbols', fixed, b.statements);
      assert Lax(body) == Lax(env).(scopes := declared.scopes) && Strict(body, fixed)
        == Strict(env, fixed).(scopes := declared.scopes);
    }
  }

  lemma EmptyScope(symbols: SymbolTables, scopes: Scopes)
    requires Described(symbols, scopes)
    ensures Described(symbols + [map[]], scopes + [map[]]) && ScopedFields([])
    ensures Identifiers([]) == {}
  {
    hide MakeField;
  }

  lemma {:induction false} StatementsAccepted(env: Environment, symbols: SymbolTables, fixed: set<string>,
                                              statements: seq<Ir.Statement>)
    requires Ready(env, symbols) && StatementsAsRead(statements)
    ensures var lax, strict := CheckStatements(Lax(env), statements), CheckStatements(Strict(env, fixed), statements);
      lax.ok ==>
        strict.value == lax.value
          && Exact(env, ScopedStatements(symbols, lax.value, env.loopDepth > 0, fixed), strict.ok)
    decreases statements
  {
    hide Described, ScalarParameters, CheckStatement, ScopedStatement, StatementAsRead;
    if statements != [] {
      StatementAccepted(env, symbols, fixed, statements[0]);
      StatementsAccepted(env, symbols, fixed, statements[1..]);
    }
  }

  // ----- methods and programs -----

  /** The parameters and the body's own fields share a scope. */
  lemma {:induction false} MethodAccepted(env: Environment, globals: map<string, FieldDeclaration>, m: Ir.Method)
    requires Ready(env, [globals]) && |env.scopes| == 1 && env.loopDepth == 0 && env.fixed == {} && MethodAsRead(m)
    ensures var ((laxEnv, lax), (strictEnv, strict)) := (CheckMethod(Lax(env), m), CheckMethod(env, m));
      && laxEnv == Lax(strictEnv) && ScalarParameters(strictEnv.methods) && strictEnv.loopDepth == 0 && strictEnv.fixed
        == {}
      && (lax.ok ==>
           strict.value == lax.value
             && Exact(env, ScopedMethod(globals, lax.value, FixedNames(env.policy, lax.value)), strict.ok))
  {
    hide CheckStatements, CheckFields, ScopedStatements, ScopedFields, FieldsAsRead, StatementsAsRead, DeclareAll,
      Described, Completed;
    SignatureScalar(env, m);
    var fixed := FixedNames(env.policy, m);
    var (env', strict) := CheckMethod(env, m);
    var (_, lax) := CheckMethod(Lax(env), m);
    var inner := env'.(scopes := env.scopes + [map[]], fixed := fixed);
    assert Strict(inner, fixed) == inner && Lax(inner) == Lax(env').(scopes := env.scopes + [map[]]);
    FieldsAlike(inner, fixed, m.arguments);
    var parameters := CheckFields(inner, m.arguments);
    var body := inner.(scopes := parameters.scopes);
    assert Strict(body, fixed) == body && Lax(body) == Lax(inner).(scopes := parameters.scopes);
    FieldsAlike(body, fixed, m.body.fields);
    var fields := CheckFields(body, m.body.fields);
    var last := body.(scopes := fields.scopes);
    assert Strict(last, fixed) == last && Lax(last) == Lax(body).(scopes := fields.scopes);
    if lax.ok {
      var symbols := [globals] + [map[]];
      EmptyScope([globals], env.scopes);
      ParametersAsRead(m);
      FieldsAccepted(Lax(inner), symbols, m.arguments, []);
      assert [] + parameters.fields == parameters.fields;
      FieldsAccepted(Lax(body), DeclareAll(symbols, parameters.fields), m.body.fields, parameters.fields);
      DeclareAllConcatenation(symbols, parameters.fields, fields.fields);
      var symbols' := DeclareAll(symbols, parameters.fields + fields.fields);
      StatementsAccepted(last, symbols', fixed, m.body.statements);
      assert symbols == [globals, map[]];
      ParametersStay(m.arguments, parameters.fields);
      SameFixedNames(env.policy, m, lax.value);
    }
  }

  lemma SignatureScalar(env: Environment, m: Ir.Method)
    requires env.scopes != [] && ScalarParameters(env.methods) && MethodAsRead(m)
    ensures ScalarParameters(CheckMethod(env, m).0.methods)
  {
    hide CheckStatements, CheckFields;
    forall t | t in SignatureOf(m).parameters ensures !t.isArray {
      var i :| 0 <= i < |m.arguments| && t == TypeOfField(m.arguments[i]);
      assert m.arguments[i] in m.arguments;
    }
  }

  lemma ParametersAsRead(m: Ir.Method)
    requires MethodAsRead(m)
    ensures FieldsAsRead(m.arguments) && BlockAsRead(m.body) && FieldsAsRead(m.body.fields)
      && StatementsAsRead(m.body.statements)
    ensures forall f :: f in m.arguments ==> !f.isArray && f.initializer.None?
  {
  }

  lemma ParametersStay(parameters: seq<Ir.Field>, checked: seq<Ir.Field>)
    requires forall f :: f in parameters ==> !f.isArray && f.initializer.None?
    requires |checked| == |parameters| && forall i :: 0 <= i < |parameters| ==> checked[i] == Completed(parameters[i])
    ensures checked == parameters
  {
    forall i | 0 <= i < |parameters| ensures checked[i] == parameters[i] { assert parameters[i] in parameters; }
  }

  lemma SameFixedNames(policy: Policy, m: Ir.Method, m': Ir.Method)
    requires m'.arguments == m.arguments
    ensures FixedNames(policy, m') == FixedNames(policy, m)
  {
  }

  ghost predicate AllScoped(globals: map<string, FieldDeclaration>, methods: seq<Ir.Method>, policy: Policy) {
    forall m :: m in methods ==> ScopedMethod(globals, m, FixedNames(policy, m))
  }

  lemma {:induction false} MethodsAccepted(env: Environment, globals: map<string, FieldDeclaration>,
                                           methods: seq<Ir.Method>)
    requires Ready(env, [globals]) && |env.scopes| == 1 && env.loopDepth == 0 && env.fixed == {}
    requires forall m :: m in methods ==> MethodAsRead(m)
    ensures var ((laxEnv, lax), (strictEnv, strict)) := (CheckMethods(Lax(env), methods), CheckMethods(env, methods));
      && laxEnv == Lax(strictEnv) && ScalarParameters(strictEnv.methods) && strictEnv.loopDepth == 0 && strictEnv.fixed
        == {}
      && (lax.ok ==> strict.value == lax.value && Exact(env, AllScoped(globals, lax.value, env.policy), strict.ok))
  {
    hide CheckMethod, ScopedMethod, FixedNames, MethodAsRead, Described, ScalarParameters;
    if methods != [] {
      var front := methods[..|methods| - 1];
      MethodsAccepted(env, globals, front);
      var (env', _) := CheckMethods(env, front);
      MethodAccepted(env', globals, methods[|methods| - 1]);
    }
  }

  /** Which names each method may not assign. */
  function Fixed(policy: Policy): Ir.Method -> set<string> {
    (m: Ir.Method) => FixedNames(policy, m)
  }

  lemma {:induction false} ImportsScalar(imports: seq<string>)
    ensures ScalarParameters(CheckImports(imports).0)
  {
    if imports != [] { ImportsScalar(imports[..|imports| - 1]); }
  }

  lemma GlobalsAccepted(p: Ir.Program, policy: Policy)
    requires ProgramAsRead(p)
    ensures var ((laxEnv, laxFields, laxFresh), (env, fields, isNew)) :=
      (GlobalEnvironment(p, AsWritten), GlobalEnvironment(p, policy));
      && laxEnv == Lax(env) && isNew == laxFresh && fields.fields == laxFields.fields
        && Exact(env, laxFields.ok, fields.ok)
      && env.loopDepth == 0 && env.fixed == {} && env.policy == policy && |env.scopes| == 1
      && (laxFields.ok ==> Ready(env, [GlobalSymbols(fields.fields)]) && ScopedFields(fields.fields))
  {
    hide CheckFields, ScopedFields, DeclareAll, FieldsAsRead, Described, Completed, ScalarParameters;
    ImportsScalar(p.imports);
    var (methods, _) := CheckImports(p.imports);
    var start := Environment(methods, [map[]], Ir.Void, 0, policy, {});
    FieldsAlike(start, {}, p.fields);
    assert Strict(start, {}) == start;
    var fields := CheckFields(start, p.fields);
    if CheckFields(Lax(start), p.fields).ok {
      var noSymbols: SymbolTables, noScopes: Scopes := [], [];
      NothingDescribed(noSymbols, noScopes);
      EmptyScope(noSymbols, noScopes);
      assert noSymbols + [map[]] == [map[]] && noScopes + [map[]] == [map[]];
      FieldsAccepted(Lax(start), [map[]], p.fields, []);
      assert [] + fields.fields == fields.fields;
      assert [GlobalSymbols(fields.fields)] == DeclareAll([map[]], fields.fields);
    }
  }

  lemma NothingDescribed(symbols: SymbolTables, scopes: Scopes)
    requires symbols == [] && scopes == []
    ensures Described(symbols, scopes)
  {
  }

  /** An accepted program never trips an assertion of the generator: every location resolves to a
      declared field, and to an array where it is indexed, declarations in one scope are distinct,
      lengths and literals are in range, and every break and continue is inside a loop. */
  lemma CheckerGuarantees(p: Ir.Program)
    requires ProgramAsRead(p) && CheckProgram(p, AsWritten).ok
    ensures Accepted(CheckProgram(p, AsWritten).value, Free)
  {
    hide CheckProgram, ScopedMethod, FixedNames, ScopedFields;
    CheckerDecides(p, AsWritten);
    var p' := CheckProgram(p, AsWritten).value;
    forall m | m in p'.methods ensures FixedNames(AsWritten, m) == {} { NothingFixed(m); }
  }

  lemma NothingFixed(m: Ir.Method)
    ensures FixedNames(AsWritten, m) == {}
  {
  }

  /** Of an accepted program, the checker with assignments to parameters forbidden accepts exactly
      those that assign no parameter. */
  lemma CheckerDecides(p: Ir.Program, policy: Policy)
    requires ProgramAsRead(p) && CheckProgram(p, AsWritten).ok
    ensures var p' := CheckProgram(p, AsWritten).value;
      && CheckProgram(p, policy).value == p'
      && (CheckProgram(p, policy).ok ==> Accepted(p', Fixed(policy)))
      && (Accepted(p', Fixed(policy)) && !policy.plain ==> CheckProgram(p, policy).ok)
  {
    hide CheckMethods, GlobalEnvironment, ScopedFields, ScopedMethod, Described, ScalarParameters, GlobalSymbols,
      FieldsAsRead, MethodAsRead;
    GlobalsAccepted(p, policy);
    var (env, fields, isNew) := GlobalEnvironment(p, policy);
    MethodsAccepted(env, GlobalSymbols(fields.fields), p.methods);
    var p' := CheckProgram(p, AsWritten).value;
    forall m | m in p'.methods ensures FixedNames(policy, m) <= ParameterNames(m) { FixedAreParameters(policy, m); }
  }

  lemma FixedAreParameters(policy: Policy, m: Ir.Method)
    ensures FixedNames(policy, m) <= ParameterNames(m)
    ensures policy.fixedParameters ==> FixedNames(policy, m) == ParameterNames(m)
  {
  }
}
