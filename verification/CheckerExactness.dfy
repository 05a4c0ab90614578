/** The checker decides legality: it accepts exactly the legal programs. */
module CheckerExactness {
  import opened Words
  import opened Checker
  import opened Legality
  import opened AsRead
  import Ir

  // ----- tables and declarations -----

  /** What the checker looks at in a field is what was declared. */
  predicate Alike(f: Ir.Field, f': Ir.Field) {
    f'.baseType == f.baseType && f'.isArray == f.isArray && f'.constant == f.constant
  }

  ghost predicate ScopeMatches(scope: map<string, Ir.Field>, fields: Declarations) {
    && DistinctFields(fields)
    && (forall f :: f in fields ==> f.baseType != Ir.Void && f.identifier in scope && Alike(f, scope[f.identifier]))
    && (forall id :: id in scope ==> Legality.Declares(fields, id))
  }

  ghost predicate ScopesMatch(scopes: Scopes, declared: seq<Declarations>) {
    |scopes| == |declared| && forall k :: 0 <= k < |scopes| ==> ScopeMatches(scopes[k], declared[k])
  }

  ghost predicate MethodsMatch(known: map<string, Signature>, imports: seq<string>, methods: seq<Ir.Method>) {
    && (forall id :: id in imports <==> id in known && known[id] == Imported)
    && (forall m :: m in methods ==>
          m.identifier in known && known[m.identifier] == SignatureOf(m) && forall f :: f in m.arguments ==> !f.isArray)
    && (forall id :: id in known && known[id].Own? ==> exists m :: m in methods && m.identifier == id)
  }

  ghost predicate Matches(env: Environment, p: Place) {
    && ScopesMatch(env.scopes, p.scopes) && MethodsMatch(env.methods, p.imports, p.methods)
    && env.returnType == p.returnType && (env.loopDepth > 0 <==> p.inLoop)
    && env.policy == AsWritten && env.fixed == {}
  }

  lemma DeclaredIn(scope: map<string, Ir.Field>, fields: Declarations, id: string)
    requires ScopeMatches(scope, fields)
    ensures id in scope <==> Legality.Declares(fields, id)
  {
    if Legality.Declares(fields, id) {
      var i :| 0 <= i < |fields| && fields[i].identifier == id;
      assert fields[i] in fields;
    }
  }

  /** Climbing the tables finds what the identifier means, and nothing exactly where it means nothing. */
  lemma FindMeans(scopes: Scopes, declared: seq<Declarations>, id: string)
    requires ScopesMatch(scopes, declared)
    ensures Find(scopes, id).None? <==> MeansNothing(declared, id)
    ensures Found(scopes, id).None? ==> forall f :: !Means(declared, id, f)
    ensures Found(scopes, id).Some? ==> exists f :: Means(declared, id, f)
    ensures Found(scopes, id).Some? ==>
      forall f :: Means(declared, id, f) ==> f.baseType != Ir.Void && Alike(f, Found(scopes, id).value)
  {
    hide ScopeMatches;
    forall k | 0 <= k < |scopes| ensures id in scopes[k] <==> Legality.Declares(declared[k], id) {
      DeclaredIn(scopes[k], declared[k], id);
    }
    match Find(scopes, id)
    case None => NothingMeant(declared, id);
    case Some(k) =>
      var i :| 0 <= i < |declared[k]| && declared[k][i].identifier == id;
      assert Means(declared, id, declared[k][i]);
      forall f | Means(declared, id, f) ensures f.baseType != Ir.Void && Alike(f, scopes[k][id]) {
        var n :| 0 <= n < |declared| && f in declared[n]
          && forall m :: n < m < |declared| ==> !Legality.Declares(declared[m], id);
        MemberDeclares(declared[n], f);
        assert n == k;
        MemberAlike(scopes[k], declared[k], f);
      }
  }

  lemma NothingMeant(declared: seq<Declarations>, id: string)
    requires forall k :: 0 <= k < |declared| ==> !Legality.Declares(declared[k], id)
    ensures MeansNothing(declared, id) && forall f :: !Means(declared, id, f)
  {
  }

  lemma MemberDeclares(fields: Declarations, f: Ir.Field)
    requires f in fields
    ensures Legality.Declares(fields, f.identifier)
  {
  }

  lemma MemberAlike(scope: map<string, Ir.Field>, fields: Declarations, f: Ir.Field)
    requires ScopeMatches(scope, fields) && f in fields
    ensures f.identifier in scope && f.baseType != Ir.Void && Alike(f, scope[f.identifier])
  {
  }

  // ----- expressions -----

  /** The checker's type of an expression is the one it has. */
  ghost predicate Agrees(t: Typed, p: Place, e: Ir.Expression) {
    && (t.ok && t.dataType == Number <==> IsInt(p, e))
    && (t.ok && t.dataType == Truth <==> IsBool(p, e))
    && (t.ok && t.dataType.isArray <==> IsWholeArray(p, e))
    && (t.ok ==> t.dataType == Number || t.dataType == Truth || t.dataType.isArray)
  }

  ghost predicate AgreesLocation(t: TypedLocation, p: Place, location: Ir.Location) {
    && (t.ok && t.dataType == Number <==> IsElement(p, location, Ir.Int))
    && (t.ok && t.dataType == Truth <==> IsElement(p, location, Ir.Bool))
    && (t.ok && t.dataType.isArray <==> IsWholeArray(p, Ir.At(location)))
    && (t.ok ==> t.dataType == Number || t.dataType == Truth || t.dataType.isArray)
    && !IsElement(p, location, Ir.Void)
    && (t.ok ==> (t.constant <==> !forall f :: Means(p.scopes, location.identifier, f) ==> !f.constant))
  }

  ghost predicate AgreesCall(t: TypedCall, p: Place, call: Ir.MethodCall) {
    forall r :: t.ok && t.returnType == r <==> IsCall(p, call, r)
  }

  lemma {:induction false} ExpressionLegal(env: Environment, p: Place, e: Ir.Expression)
    requires Matches(env, p)
    ensures Agrees(CheckExpression(env, e), p, e)
    decreases e, 1
  {
    hide Matches;
    match e
    case Binary(_, l, r) =>
      ExpressionLegal(env, p, l);
      ExpressionLegal(env, p, r);
      BinaryLegal(env, p, e);
    case Not(o) => ExpressionLegal(env, p, o);
    case Negate(o) => ExpressionLegal(env, p, o);
    case Length(id, _) => LengthLegal(env, p, e);
    case Invoke(call) =>
      CallLegal(env, p, call);
      InvokeLegal(env, p, call);
    case Constant(l) => ConstantLegal(env, p, e);
    case At(location) => LocationLegal(env, p, location);
  }

  lemma BinaryLegal(env: Environment, p: Place, e: Ir.Expression)
    requires e.Binary?
    requires Agrees(CheckExpression(env, e.left), p, e.left) && Agrees(CheckExpression(env, e.right), p, e.right)
    ensures Agrees(CheckExpression(env, e), p, e)
  {
    var left, right := CheckExpression(env, e.left), CheckExpression(env, e.right);
    assert CheckExpression(env, e).ok <==> left.ok && right.ok && OperandsFit(e.op, left.dataType, right.dataType);
    assert CheckExpression(env, e).dataType == ResultType(e.op);
    hide CheckExpression, OperandsFit, ResultType, IsWholeArray;
    OperandsLegal(e.op, left.dataType, right.dataType);
  }

  /** What the operators take and give. */
  lemma OperandsLegal(op: Ir.BinaryOperator, left: DataType, right: DataType)
    ensures op in ArithmeticOperators || op in Relations || op in Equalities || op in Connectives
    ensures op in ArithmeticOperators <==> ResultType(op) == Number
    ensures op in Relations || op in Equalities || op in Connectives <==> ResultType(op) == Truth
    ensures op in ArithmeticOperators || op in Relations ==>
      op !in Equalities && op !in Connectives && (OperandsFit(op, left, right) <==> left == Number && right == Number)
    ensures op in Connectives ==>
      op !in Equalities && (OperandsFit(op, left, right) <==> left == Truth && right == Truth)
    ensures op in Equalities ==> (OperandsFit(op, left, right) <==> !left.isArray && !right.isArray && left == right)
    ensures op in Relations ==> op !in ArithmeticOperators
  {
  }

  lemma InvokeLegal(env: Environment, p: Place, call: Ir.MethodCall)
    requires AgreesCall(CheckCall(env, call), p, call)
    ensures Agrees(CheckExpression(env, Ir.Invoke(call)), p, Ir.Invoke(call))
  {
    var t := CheckCall(env, call);
    assert t.ok && t.returnType == Ir.Int <==> IsCall(p, call, Ir.Int);
    assert t.ok && t.returnType == Ir.Bool <==> IsCall(p, call, Ir.Bool);
    hide CheckCall, IsCall;
  }

  lemma LengthLegal(env: Environment, p: Place, e: Ir.Expression)
    requires e.Length? && Matches(env, p)
    ensures Agrees(CheckExpression(env, e), p, e)
  {
    FindMeans(env.scopes, p.scopes, e.identifier);
    hide Find, Found, Means, MeansNothing, ScopesMatch, MethodsMatch;
  }

  lemma ConstantLegal(env: Environment, p: Place, e: Ir.Expression)
    requires e.Constant? && Matches(env, p)
    ensures Agrees(CheckExpression(env, e), p, e)
  {
  }

  lemma {:induction false} LocationLegal(env: Environment, p: Place, location: Ir.Location)
    requires Matches(env, p)
    ensures AgreesLocation(CheckLocation(env, location), p, location)
    decreases location, 0
  {
    hide CheckLocation, AgreesLocation, FoundMeans, Agrees;
    FieldMeans(env, p, location.identifier);
    if location.index.Some? {
      ExpressionLegal(env, p, location.index.value);
      IndexedLegal(env, p, location);
    } else {
      NamedLegal(env, p, location);
    }
  }

  /** What `FindMeans` says of the found field. */
  ghost predicate FoundMeans(found: Option<Ir.Field>, declared: seq<Declarations>, id: string) {
    match found
    case None => forall f :: !Means(declared, id, f)
    case Some(f') =>
      && (exists f :: Means(declared, id, f))
      && (forall f :: Means(declared, id, f) ==> f.baseType != Ir.Void && Alike(f, f'))
  }

  lemma FieldMeans(env: Environment, p: Place, id: string)
    requires Matches(env, p)
    ensures FoundMeans(Found(env.scopes, id), p.scopes, id)
  {
    FindMeans(env.scopes, p.scopes, id);
    hide Find, Found, Means, MeansNothing, ScopesMatch, MethodsMatch;
  }

  lemma NamedLegal(env: Environment, p: Place, location: Ir.Location)
    requires location.index.None? && FoundMeans(Found(env.scopes, location.identifier), p.scopes, location.identifier)
    ensures AgreesLocation(CheckLocation(env, location), p, location)
  {
    hide Found, Means;
  }

  lemma IndexedLegal(env: Environment, p: Place, location: Ir.Location)
    requires location.index.Some? && FoundMeans(Found(env.scopes, location.identifier), p.scopes, location.identifier)
    requires Agrees(CheckExpression(env, location.index.value), p, location.index.value)
    ensures AgreesLocation(CheckLocation(env, location), p, location)
  {
    hide Found, Means, CheckExpression, IsInt, IsBool;
  }

  // ----- calls -----

  lemma {:induction false} ImportArgumentLegal(env: Environment, p: Place, a: Ir.CallArgument)
    requires Matches(env, p)
    ensures CheckArgument(env, a, None).ok <==> IsImportArgument(p, a)
    decreases a, 1
  {
    hide ScopesMatch, MethodsMatch;
    if a.ValueArgument? {
      ExpressionLegal(env, p, a.expression);
      hide CheckExpression, IsInt, IsBool, IsWholeArray;
    }
  }

  lemma {:induction false} ImportArgumentsLegal(env: Environment, p: Place, arguments: seq<Ir.CallArgument>)
    requires Matches(env, p)
    ensures CheckArguments(env, arguments, None).ok <==> AreImportArguments(p, arguments)
    decreases arguments, 1
  {
    hide Matches, CheckArgument, IsImportArgument;
    if arguments != [] {
      ImportArgumentLegal(env, p, arguments[0]);
      ImportArgumentsLegal(env, p, arguments[1..]);
      FirstImportArgument(p, arguments);
    }
  }

  lemma FirstImportArgument(p: Place, arguments: seq<Ir.CallArgument>)
    requires arguments != []
    ensures AreImportArguments(p, arguments)
      <==> IsImportArgument(p, arguments[0]) && AreImportArguments(p, arguments[1..])
  {
    hide IsImportArgument;
    if IsImportArgument(p, arguments[0]) && AreImportArguments(p, arguments[1..]) {
      forall i | 0 <= i < |arguments| ensures IsImportArgument(p, arguments[i]) {
        if i > 0 { assert arguments[1..][i - 1] == arguments[i]; }
      }
    }
  }

  lemma {:induction false} ArgumentLegal(env: Environment, p: Place, a: Ir.CallArgument, f: Ir.Field)
    requires Matches(env, p) && !f.isArray
    ensures CheckArgument(env, a, Some(TypeOfField(f))).ok <==> IsArgument(p, a, f.baseType)
    decreases a, 1
  {
    hide Matches;
    if a.ValueArgument? {
      ExpressionLegal(env, p, a.expression);
      hide CheckExpression, IsInt, IsBool, IsWholeArray;
    }
  }

  function TypesOf(fields: seq<Ir.Field>): seq<DataType> {
    seq(|fields|, i requires 0 <= i < |fields| => TypeOfField(fields[i]))
  }

  lemma {:induction false} ArgumentsLegal(env: Environment, p: Place, arguments: seq<Ir.CallArgument>,
                                          parameters: seq<Ir.Field>)
    requires Matches(env, p) && |arguments| == |parameters| && forall f :: f in parameters ==> !f.isArray
    ensures CheckArguments(env, arguments, Some(TypesOf(parameters))).ok <==> AreArguments(p, arguments, parameters)
    decreases arguments, 1
  {
    hide Matches, CheckArgument, IsArgument;
    if arguments != [] {
      ArgumentLegal(env, p, arguments[0], parameters[0]);
      ArgumentsLegal(env, p, arguments[1..], parameters[1..]);
      assert TypesOf(parameters)[1..] == TypesOf(parameters[1..]);
      FirstArgument(p, arguments, parameters);
    }
  }

  lemma FirstArgument(p: Place, arguments: seq<Ir.CallArgument>, parameters: seq<Ir.Field>)
    requires arguments != [] && |arguments| == |parameters|
    ensures AreArguments(p, arguments, parameters) <==>
      IsArgument(p, arguments[0], parameters[0].baseType) && AreArguments(p, arguments[1..], parameters[1..])
  {
    hide IsArgument;
    if IsArgument(p, arguments[0], parameters[0].baseType) && AreArguments(p, arguments[1..], parameters[1..]) {
      forall i | 0 <= i < |arguments| ensures IsArgument(p, arguments[i], parameters[i].baseType) {
        if i > 0 { assert arguments[1..][i - 1] == arguments[i] && parameters[1..][i - 1] == parameters[i]; }
      }
    }
  }

  /** Where a method is called, every method of the name has its signature, and the checker looks at nothing else. */
  lemma {:induction false} OwnCallLegal(env: Environment, p: Place, call: Ir.MethodCall, m: Ir.Method)
    requires Matches(env, p) && CallsMethod(p, call.identifier, m) && Find(env.scopes, call.identifier).None?
    ensures AgreesCall(CheckCall(env, call), p, call)
    decreases call, 0
  {
    hide ScopesMatch;
    if |m.arguments| == |call.arguments| { ArgumentsLegal(env, p, call.arguments, m.arguments); }
    assert SignatureOf(m).parameters == TypesOf(m.arguments);
    hide CheckArguments, Find, MeansNothing;
    var t := CheckCall(env, call);
    forall r ensures t.ok && t.returnType == r <==> IsCall(p, call, r) {
      forall m' | CallsMethod(p, call.identifier, m')
        ensures m'.returnType == m.returnType && TypesOf(m'.arguments) == TypesOf(m.arguments)
        ensures AreArguments(p, call.arguments, m'.arguments) <==> AreArguments(p, call.arguments, m.arguments)
      {
        assert TypesOf(m'.arguments) == SignatureOf(m').parameters;
        SameArguments(p, call.arguments, m.arguments, m'.arguments);
      }
      hide AreArguments, AreImportArguments;
    }
  }

  lemma SameArguments(p: Place, arguments: seq<Ir.CallArgument>, first: seq<Ir.Field>, second: seq<Ir.Field>)
    requires TypesOf(first) == TypesOf(second)
    ensures AreArguments(p, arguments, first) <==> AreArguments(p, arguments, second)
  {
    hide IsArgument;
    assert |first| == |second| by { assert |TypesOf(first)| == |first| && |TypesOf(second)| == |second|; }
    forall i | 0 <= i < |first| ensures first[i].baseType == second[i].baseType {
      assert TypesOf(first)[i] == TypesOf(second)[i];
    }
  }

  lemma {:induction false} CallLegal(env: Environment, p: Place, call: Ir.MethodCall)
    requires Matches(env, p)
    ensures AgreesCall(CheckCall(env, call), p, call)
    decreases call, 1
  {
    FindMeans(env.scopes, p.scopes, call.identifier);
    hide ScopesMatch, Find, Found, MeansNothing, Means;
    if Find(env.scopes, call.identifier).None? && call.identifier in env.methods {
      if env.methods[call.identifier].Own? {
        var m :| m in p.methods && m.identifier == call.identifier;
        OwnCallLegal(env, p, call, m);
      } else {
        ImportArgumentsLegal(env, p, call.arguments);
        hide CheckArguments, AreImportArguments, AreArguments;
        assert forall m :: !CallsMethod(p, call.identifier, m);
      }
    } else {
      assert forall m :: !CallsMethod(p, call.identifier, m);
      hide AreImportArguments, AreArguments;
    }
  }

  // ----- declarations -----

  lemma DeclarationLegal(f: Ir.Field)
    requires f.baseType != Ir.Void
    ensures DeclarationOk(AsWritten, f) <==> LegalDeclaration(f)
  {
    match f.initializer
    case None =>
    case Some(literals) =>
      forall l: Ir.Literal ensures LiteralHasType(l, f.baseType) <==>
        LiteralOk(AsWritten, l) && LiteralType(l).base == f.baseType { }
      hide LiteralHasType, LiteralOk, LiteralType;
      if literals != [] && InitializerOk(AsWritten, f, literals) {
        forall l | l in literals ensures LiteralHasType(l, f.baseType) { }
      }
      if LegalDeclaration(f) {
        assert literals[0] in literals;
        forall i | 0 <= i < |literals|
          ensures LiteralOk(AsWritten, literals[i]) && LiteralType(literals[i]) == LiteralType(literals[0])
        {
          assert literals[i] in literals;
          OneBase(literals[i], literals[0]);
        }
        OneBase(literals[0], literals[0]);
      }
  }

  lemma OneBase(l: Ir.Literal, k: Ir.Literal)
    ensures LiteralType(l).base == LiteralType(k).base ==> LiteralType(l) == LiteralType(k)
    ensures !LiteralType(l).isArray
  {
  }

  /** More fields in a scope that has `front` already. */
  ghost predicate LegalFields(env: Environment, front: Declarations, fields: seq<Ir.Field>) {
    && DistinctFields(front + fields)
    && forall f :: f in fields ==> LegalDeclaration(f) && (|env.scopes| == 1 ==> f.identifier !in env.methods)
  }

  lemma {:induction false} FieldsLegal(env: Environment, declared: seq<Declarations>, fields: seq<Ir.Field>)
    requires declared != [] && ScopesMatch(env.scopes, declared) && env.policy == AsWritten
    requires forall f :: f in fields ==> f.baseType != Ir.Void
    ensures var r, front := CheckFields(env, fields), declared[|declared| - 1];
      && (r.ok <==> LegalFields(env, front, fields))
      && (r.ok ==> ScopesMatch(r.scopes, declared[|declared| - 1 := front + fields]))
  {
    var d := |declared| - 1;
    var front := declared[d];
    if fields == [] {
      assert front + fields == front && declared[d := front] == declared;
      assert ScopeMatches(env.scopes[d], front);
    } else {
      var n := |fields| - 1;
      hide DeclarationOk, LegalDeclaration, ScopeMatches, DistinctFields;
      FieldsLegal(env, declared, fields[..n]);
      DeclarationLegal(fields[n]);
      var before := CheckFields(env, fields[..n]);
      assert front + fields == (front + fields[..n]) + [fields[n]];
      LegalFieldsStep(env, front, fields);
      if before.ok {
        var known := front + fields[..n];
        assert declared[d := known][d] == known;
        assert ScopeMatches(before.scopes[d], known);
        DeclaredIn(before.scopes[d], known, fields[n].identifier);
        if !Legality.Declares(known, fields[n].identifier) {
          FieldAdded(before.scopes[d], known, fields[n]);
          assert declared[d := known][d := known + [fields[n]]] == declared[d := known + [fields[n]]];
        }
      }
    }
  }

  lemma LegalFieldsStep(env: Environment, front: Declarations, fields: seq<Ir.Field>)
    requires fields != []
    ensures var n := |fields| - 1; var f := fields[n];
      LegalFields(env, front, fields) <==>
        && LegalFields(env, front, fields[..n]) && LegalDeclaration(f)
        && (|env.scopes| == 1 ==> f.identifier !in env.methods)
        && !Legality.Declares(front + fields[..n], f.identifier)
  {
    hide LegalDeclaration;
    var n := |fields| - 1;
    assert fields == fields[..n] + [fields[n]];
    DistinctStep(front + fields[..n], fields[n]);
    assert front + fields == (front + fields[..n]) + [fields[n]];
    hide DistinctFields, Legality.Declares;
  }

  lemma DistinctStep(fields: Declarations, f: Ir.Field)
    ensures DistinctFields(fields + [f]) <==> DistinctFields(fields) && !Legality.Declares(fields, f.identifier)
  {
    var all := fields + [f];
    if DistinctFields(all) {
      forall i, j | 0 <= i < j < |fields| ensures fields[i].identifier != fields[j].identifier {
        assert all[i].identifier != all[j].identifier;
      }
      forall i | 0 <= i < |fields| ensures fields[i].identifier != f.identifier {
        assert all[i].identifier != all[|fields|].identifier;
      }
    }
  }

  lemma FieldAdded(scope: map<string, Ir.Field>, fields: Declarations, f: Ir.Field)
    requires ScopeMatches(scope, fields) && !Legality.Declares(fields, f.identifier) && f.baseType != Ir.Void
    ensures ScopeMatches(scope[f.identifier := Completed(f)], fields + [f])
  {
    DistinctStep(fields, f);
    hide DistinctFields;
    var all := fields + [f];
    forall id | id in scope[f.identifier := Completed(f)] ensures Legality.Declares(all, id) {
      if id == f.identifier {
        assert all[|fields|].identifier == id;
      } else {
        var i :| 0 <= i < |fields| && fields[i].identifier == id;
        assert all[i].identifier == id;
      }
    }
    forall g | g in all
      ensures g.baseType != Ir.Void && g.identifier in scope[f.identifier := Completed(f)]
      ensures Alike(g, scope[f.identifier := Completed(f)][g.identifier])
    {
      if g in fields { MemberDeclares(fields, g); }
    }
  }

  // ----- statements -----

  lemma AssignmentLegal(env: Environment, p: Place, a: Ir.Assignment)
    requires Matches(env, p)
    ensures CheckAssignment(env, a).ok <==> LegalAssignment(p, a)
  {
    LocationLegal(env, p, a.location);
    FindMeans(env.scopes, p.scopes, a.location.identifier);
    if a.expression.Some? { ExpressionLegal(env, p, a.expression.value); }
    AssignmentTypes(env, p, a);
  }

  lemma AssignmentTypes(env: Environment, p: Place, a: Ir.Assignment)
    requires env.fixed == {} && AgreesLocation(CheckLocation(env, a.location), p, a.location)
    requires a.expression.Some? ==> Agrees(CheckExpression(env, a.expression.value), p, a.expression.value)
    ensures CheckAssignment(env, a).ok <==> LegalAssignment(p, a)
  {
    hide CheckLocation, CheckExpression, IsElement, IsInt, IsBool, IsWholeArray, Find, Means;
    if CheckAssignment(env, a).ok {
      assert IsElement(p, a.location, CheckLocation(env, a.location).dataType.base);
    }
    if LegalAssignment(p, a) {
      var t :| IsElement(p, a.location, t) && (a.op != Ir.Set ==> t == Ir.Int)
        && (a.expression.Some? ==> HasType(p, a.expression.value, t));
      match t
      case Int =>
      case Bool =>
      case Void =>
    }
  }

  lemma CallStatementLegal(env: Environment, p: Place, call: Ir.MethodCall)
    requires Matches(env, p)
    ensures CheckCall(env, call).ok <==> LegalCall(p, call)
  {
    CallLegal(env, p, call);
    hide CheckCall, IsCall;
    var t := CheckCall(env, call);
    assert t.ok ==> IsCall(p, call, t.returnType);
  }

  lemma UpdateLegal(env: Environment, p: Place, u: Ir.ForUpdate)
    requires Matches(env, p)
    ensures CheckUpdate(env, u).ok <==> LegalUpdate(p, u)
  {
    hide Matches;
    match u
    case UpdateAssignment(a) => AssignmentLegal(env, p, a);
    case UpdateCall(call) => CallStatementLegal(env, p, call);
  }

  lemma ConditionLegal(env: Environment, p: Place, e: Ir.Expression)
    requires Matches(env, p)
    ensures CheckCondition(env, e).ok <==> IsBool(p, e)
  {
    ExpressionLegal(env, p, e);
    hide CheckExpression, IsInt, IsBool, IsWholeArray;
  }

  lemma ReturnLegal(env: Environment, p: Place, e: Ir.Expression)
    requires Matches(env, p)
    ensures CheckStatement(env, Ir.Return(Some(e))).ok <==> LegalStatement(p, Ir.Return(Some(e)))
  {
    ExpressionLegal(env, p, e);
    hide CheckExpression, IsInt, IsBool, IsWholeArray;
  }

  lemma LoopEntered(env: Environment, p: Place)
    requires Matches(env, p)
    ensures Matches(InLoop(env), p.(inLoop := true))
  {
  }

  lemma {:induction false} StatementLegal(env: Environment, p: Place, s: Ir.Statement)
    requires Matches(env, p) && env.scopes != [] && StatementAsRead(s)
    ensures CheckStatement(env, s).ok <==> LegalStatement(p, s)
    decreases s, 1
  {
    LoopEntered(env, p);
    hide LegalAssignment, LegalCall, CheckAssignment, CheckCall, CheckCondition, CheckUpdate, LegalUpdate,
      CheckExpression, HasType, ExpressionAsRead, AssignmentAsRead, CallAsRead, UpdateAsRead, ScopesMatch, MethodsMatch;
    match s
    case Assign(a) => AssignmentLegal(env, p, a);
    case CallStatement(call) => CallStatementLegal(env, p, call);
    case If(c, ifBlock, elseBlock) =>
      ConditionLegal(env, p, c);
      BlockLegal(env, p, ifBlock);
      if elseBlock.Some? { BlockLegal(env, p, elseBlock.value); }
    case For(initial, c, u, body) =>
      var inner, inside := InLoop(env), p.(inLoop := true);
      AssignmentLegal(inner, inside, initial);
      ConditionLegal(inner, inside, c);
      UpdateLegal(inner, inside, u);
      BlockLegal(inner, inside, body);
    case While(c, body) =>
      var inner, inside := InLoop(env), p.(inLoop := true);
      ConditionLegal(inner, inside, c);
      BlockLegal(inner, inside, body);
    case Return(None) =>
    case Return(Some(e)) => ReturnLegal(env, p, e);
    case Break =>
    case Continue =>
  }

  lemma EmptyScope(env: Environment, p: Place)
    requires Matches(env, p)
    ensures ScopesMatch(env.scopes + [map[]], p.scopes + [[]])
  {
    assert ScopeMatches(map[], []);
  }

  lemma {:induction false} BlockLegal(env: Environment, p: Place, b: Ir.Block)
    requires Matches(env, p) && env.scopes != [] && BlockAsRead(b)
    ensures CheckBlock(env, b).ok <==> LegalBlock(p, b)
    decreases b, 0
  {
    hide LegalStatements, CheckStatements, ScopesMatch, MethodsMatch, StatementsAsRead, DistinctFields,
      LegalDeclaration, CheckFields;
    EmptyScope(env, p);
    var inner := env.(scopes := env.scopes + [map[]]);
    FieldsLegal(inner, p.scopes + [[]], b.fields);
    assert [] + b.fields == b.fields;
    var declared := CheckFields(inner, b.fields);
    assert (p.scopes + [[]])[|p.scopes| := b.fields] == p.scopes + [b.fields];
    if declared.ok {
      StatementsLegal(env.(scopes := declared.scopes), p.(scopes := p.scopes + [b.fields]), b.statements);
    }
  }

  lemma {:induction false} StatementsLegal(env: Environment, p: Place, statements: seq<Ir.Statement>)
    requires Matches(env, p) && env.scopes != [] && StatementsAsRead(statements)
    ensures CheckStatements(env, statements).ok <==> LegalStatements(p, statements)
    decreases statements, 1
  {
    hide Matches, CheckStatement, LegalStatement, StatementAsRead;
    if statements != [] {
      StatementLegal(env, p, statements[0]);
      StatementsLegal(env, p, statements[1..]);
      FirstStatement(p, statements);
    }
  }

  lemma FirstStatement(p: Place, statements: seq<Ir.Statement>)
    requires statements != []
    ensures LegalStatements(p, statements)
      <==> LegalStatement(p, statements[0]) && LegalStatements(p, statements[1..])
  {
    hide LegalStatement;
    if LegalStatement(p, statements[0]) && LegalStatements(p, statements[1..]) {
      forall i | 0 <= i < |statements| ensures LegalStatement(p, statements[i]) {
        if i > 0 { assert statements[1..][i - 1] == statements[i]; }
      }
    }
  }

  // ----- methods -----

  /** A method is declared before its body is checked. */
  lemma MethodDeclared(known: map<string, Signature>, imports: seq<string>, methods: seq<Ir.Method>, m: Ir.Method)
    requires MethodsMatch(known, imports, methods) && m.identifier !in known
    requires forall f :: f in m.arguments ==> !f.isArray
    ensures MethodsMatch(known[m.identifier := SignatureOf(m)], imports, methods + [m])
  {
    var known', all := known[m.identifier := SignatureOf(m)], methods + [m];
    forall id | id in known' && known'[id].Own? ensures exists m :: m in all && m.identifier == id {
      if id == m.identifier {
        assert m in all;
      } else {
        var other :| other in methods && other.identifier == id;
        assert other in all;
      }
    }
  }

  /** What is known of the globals and the methods before method `i`. */
  ghost predicate KnownBefore(env: Environment, p: Ir.Program, i: nat)
    requires i <= |p.methods|
  {
    && ScopesMatch(env.scopes, [p.fields]) && MethodsMatch(env.methods, p.imports, p.methods[..i])
    && env.loopDepth == 0 && env.policy == AsWritten && env.fixed == {}
  }

  /** The name of method `i` is new. */
  ghost predicate NewName(p: Ir.Program, i: nat)
    requires i < |p.methods|
  {
    var name := p.methods[i].identifier;
    name !in p.imports && !Legality.Declares(p.fields, name)
    && forall j :: 0 <= j < i ==> p.methods[j].identifier != name
  }

  lemma NewNameChecked(env: Environment, p: Ir.Program, i: nat)
    requires i < |p.methods| && KnownBefore(env, p, i)
    ensures NewName(p, i)
       <==> DeclareMethod(env.methods, env.scopes, p.methods[i].identifier, SignatureOf(p.methods[i])).1
  {
    var name, before := p.methods[i].identifier, p.methods[..i];
    DeclaredIn(env.scopes[0], p.fields, name);
    hide ScopeMatches;
    if name in env.methods && env.methods[name].Own? {
      var m :| m in before && m.identifier == name;
      var j :| 0 <= j < i && before[j] == m;
      assert p.methods[j].identifier == name;
    }
    forall j | 0 <= j < i ensures p.methods[j].identifier in env.methods { assert before[j] in before; }
  }

  lemma {:induction false} MethodLegal(env: Environment, p: Ir.Program, i: nat)
    requires i < |p.methods| && KnownBefore(env, p, i) && MethodAsRead(p.methods[i])
    ensures var (env', r) := CheckMethod(env, p.methods[i]);
      && (r.ok <==> NewName(p, i) && LegalMethod(MethodPlace(p, i), p.methods[i]))
      && (r.ok ==> KnownBefore(env', p, i + 1))
  {
    var m, place := p.methods[i], MethodPlace(p, i);
    NewNameChecked(env, p, i);
    hide ScopeMatches, NewName, LegalDeclaration, DistinctFields, LegalStatements, CheckStatements, CheckFields,
      StatementsAsRead;
    if DeclareMethod(env.methods, env.scopes, m.identifier, SignatureOf(m)).1 {
      var known := env.methods[m.identifier := SignatureOf(m)];
      MethodDeclared(env.methods, p.imports, p.methods[..i], m);
      assert p.methods[..i] + [m] == p.methods[..i + 1];
      hide MethodsMatch;
      var inner := env.(methods := known, returnType := m.returnType, scopes := env.scopes + [map[]]);
      BodyLegal(inner, place.(returnType := m.returnType), m);
    }
  }

  /** The parameters and the body, in a scope of their own. */
  lemma {:induction false} BodyLegal(inner: Environment, p: Place, m: Ir.Method)
    requires |inner.scopes| == 2 && Matches(inner.(scopes := inner.scopes[..1]), p) && inner.scopes[1] == map[]
    requires MethodAsRead(m)
    ensures var parameters := CheckFields(inner, m.arguments);
      var fields := CheckFields(inner.(scopes := parameters.scopes), m.body.fields);
      var statements := CheckStatements(inner.(scopes := fields.scopes), m.body.statements);
      parameters.ok && fields.ok && statements.ok <==>
        && LegalScope(m.arguments + m.body.fields)
        && LegalStatements(p.(scopes := p.scopes + [m.arguments + m.body.fields]), m.body.statements)
  {
    hide LegalDeclaration, LegalStatements, CheckStatements, StatementsAsRead, CheckFields, ScopesMatch, MethodsMatch,
      DistinctFields;
    var all := m.arguments + m.body.fields;
    EmptyScope(inner.(scopes := inner.scopes[..1]), p);
    assert inner.scopes[..1] + [map[]] == inner.scopes;
    assert |p.scopes| == 1 by { OneScope(inner.scopes[..1], p.scopes); }
    FieldsLegal(inner, p.scopes + [[]], m.arguments);
    var parameters := CheckFields(inner, m.arguments);
    assert [] + m.arguments == m.arguments;
    assert (p.scopes + [[]])[1 := m.arguments] == p.scopes + [m.arguments];
    TogetherLegal(inner, m.arguments, m.body.fields);
    if parameters.ok {
      var next := inner.(scopes := parameters.scopes);
      FieldsLegal(next, p.scopes + [m.arguments], m.body.fields);
      var fields := CheckFields(next, m.body.fields);
      assert (p.scopes + [m.arguments])[1 := all] == p.scopes + [all];
      if fields.ok {
        StatementsLegal(inner.(scopes := fields.scopes), p.(scopes := p.scopes + [all]), m.body.statements);
      }
    }
  }

  lemma OneScope(scopes: Scopes, declared: seq<Declarations>)
    requires ScopesMatch(scopes, declared)
    ensures |declared| == |scopes|
  {
  }

  lemma TogetherLegal(env: Environment, first: Declarations, second: Declarations)
    requires |env.scopes| == 2
    ensures LegalScope(first + second) <==> LegalFields(env, [], first) && LegalFields(env, first, second)
  {
    hide LegalDeclaration;
    var all := first + second;
    assert [] + first == first;
    if DistinctFields(all) {
      forall i, j | 0 <= i < j < |first| ensures first[i].identifier != first[j].identifier {
        assert all[i].identifier != all[j].identifier;
      }
    }
    assert forall f :: f in all <==> f in first || f in second;
  }

  // ----- programs -----

  lemma {:induction false} ImportsLegal(imports: seq<string>)
    ensures var (methods, ok) := CheckImports(imports);
      && (ok <==> forall i, j :: 0 <= i < j < |imports| ==> imports[i] != imports[j])
      && MethodsMatch(methods, imports, [])
  {
    if imports != [] {
      var n := |imports| - 1;
      ImportsLegal(imports[..n]);
      assert imports == imports[..n] + [imports[n]];
      var methods := CheckImports(imports[..n]).0;
      assert imports[n] in methods <==> imports[n] in imports[..n];
      if forall i, j :: 0 <= i < j < n ==> imports[..n][i] != imports[..n][j] {
        assert forall i, j :: 0 <= i < j < n ==> imports[i] != imports[j];
      }
    }
  }

  /** The first `n` methods. */
  ghost predicate LegalMethods(p: Ir.Program, n: nat)
    requires n <= |p.methods|
  {
    forall i :: 0 <= i < n ==> NewName(p, i) && LegalMethod(MethodPlace(p, i), p.methods[i])
  }

  lemma {:induction false} MethodsLegal(env: Environment, p: Ir.Program, n: nat)
    requires n <= |p.methods| && KnownBefore(env, p, 0) && env.scopes != []
    requires forall m :: m in p.methods ==> MethodAsRead(m)
    ensures var (env', r) := CheckMethods(env, p.methods[..n]);
      (r.ok <==> LegalMethods(p, n)) && (r.ok ==> KnownBefore(env', p, n))
  {
    hide KnownBefore, NewName, LegalMethod, MethodAsRead, CheckMethod, Matches;
    if n == 0 {
      assert p.methods[..0] == [];
    } else {
      MethodsLegal(env, p, n - 1);
      assert p.methods[..n][..n - 1] == p.methods[..n - 1];
      var (env', front) := CheckMethods(env, p.methods[..n - 1]);
      if front.ok { MethodLegal(env', p, n - 1); }
      assert LegalMethods(p, n) ==> LegalMethods(p, n - 1);
    }
  }

  ghost predicate HasMain(p: Ir.Program) {
    exists i :: 0 <= i < |p.methods| && p.methods[i].identifier == "main" && p.methods[i].returnType == Ir.Void
                && p.methods[i].arguments == []
  }

  lemma MainLegal(known: map<string, Signature>, p: Ir.Program)
    requires MethodsMatch(known, p.imports, p.methods)
    requires forall i, j :: 0 <= i < j < |p.methods| ==> p.methods[i].identifier != p.methods[j].identifier
    ensures MainOk(known) <==> HasMain(p)
  {
    if MainOk(known) {
      var m :| m in p.methods && m.identifier == "main";
      var i :| 0 <= i < |p.methods| && p.methods[i] == m;
      assert |SignatureOf(m).parameters| == |m.arguments|;
    }
    if HasMain(p) {
      var i :| 0 <= i < |p.methods| && p.methods[i].identifier == "main" && p.methods[i].returnType == Ir.Void
        && p.methods[i].arguments == [];
      assert p.methods[i] in p.methods;
      assert SignatureOf(p.methods[i]).parameters == [];
    }
  }

  /** Every name is new where it is declared exactly if all names are distinct. */
  lemma NewNames(p: Ir.Program)
    ensures (forall i :: 0 <= i < |p.methods| ==> NewName(p, i)) <==>
      && (forall i, j :: 0 <= i < j < |p.methods| ==> p.methods[i].identifier != p.methods[j].identifier)
      && (forall i :: 0 <= i < |p.methods| ==> p.methods[i].identifier !in p.imports)
      && (forall i :: 0 <= i < |p.methods| ==> !Legality.Declares(p.fields, p.methods[i].identifier))
  {
    if forall i :: 0 <= i < |p.methods| ==> NewName(p, i) {
      forall i, j | 0 <= i < j < |p.methods| ensures p.methods[i].identifier != p.methods[j].identifier {
        assert NewName(p, j);
      }
      forall i | 0 <= i < |p.methods|
        ensures p.methods[i].identifier !in p.imports && !Legality.Declares(p.fields, p.methods[i].identifier)
      {
        assert NewName(p, i);
      }
    }
  }

  lemma NothingDeclared()
    ensures ScopesMatch([map[]], [[]])
  {
    assert ScopeMatches(map[], []);
  }

  /** The global fields after the imports. */
  lemma GlobalsLegal(p: Ir.Program)
    requires FieldsAsRead(p.fields)
    ensures var (env, fields, isNew) := GlobalEnvironment(p, AsWritten);
      && env.scopes != []
      && (isNew <==> DistinctImports(p)) && (fields.ok <==> LegalGlobals(p))
      && (fields.ok ==> KnownBefore(env, p, 0))
  {
    hide LegalDeclaration, ScopesMatch, CheckFields, CheckImports, DistinctFields;
    ImportsLegal(p.imports);
    var methods := CheckImports(p.imports).0;
    var start := Environment(methods, [map[]], Ir.Void, 0, AsWritten, {});
    NothingDeclared();
    assert forall id :: id in methods <==> id in p.imports;
    FieldsLegal(start, [[]], p.fields);
    assert [] + p.fields == p.fields && [[]][0 := p.fields] == [p.fields] && p.methods[..0] == [];
  }

  ghost predicate DistinctImports(p: Ir.Program) {
    forall i, j :: 0 <= i < j < |p.imports| ==> p.imports[i] != p.imports[j]
  }

  ghost predicate LegalGlobals(p: Ir.Program) {
    LegalScope(p.fields) && forall i :: 0 <= i < |p.fields| ==> p.fields[i].identifier !in p.imports
  }

  /** Legality in the order in which the checker looks. */
  lemma LegalInOrder(p: Ir.Program)
    ensures LegalProgram(p) <==> DistinctImports(p) && LegalGlobals(p) && LegalMethods(p, |p.methods|) && HasMain(p)
    ensures LegalMethods(p, |p.methods|) ==>
      forall i, j :: 0 <= i < j < |p.methods| ==> p.methods[i].identifier != p.methods[j].identifier
  {
    NewNames(p);
    hide NewName, LegalMethod, LegalScope;
    if LegalMethods(p, |p.methods|) {
      forall i | 0 <= i < |p.methods| ensures NewName(p, i) { }
    }
  }

  lemma AllKnown(env: Environment, p: Ir.Program)
    requires KnownBefore(env, p, |p.methods|)
    ensures MethodsMatch(env.methods, p.imports, p.methods)
  {
    assert p.methods[..|p.methods|] == p.methods;
  }

  /** The checker accepts exactly the legal programs. */
  lemma AcceptsExactly(p: Ir.Program)
    requires ProgramAsRead(p)
    ensures CheckProgram(p, AsWritten).ok <==> LegalProgram(p)
  {
    hide GlobalEnvironment, CheckMethods, LegalProgram, LegalMethods, LegalGlobals, DistinctImports, HasMain,
      KnownBefore, MethodAsRead, FieldsAsRead, MethodsMatch, MainOk;
    LegalInOrder(p);
    GlobalsLegal(p);
    var (env, fields, isNew) := GlobalEnvironment(p, AsWritten);
    if fields.ok && isNew {
      MethodsLegal(env, p, |p.methods|);
      assert p.methods[..|p.methods|] == p.methods;
      var (env', methods) := CheckMethods(env, p.methods);
      if methods.ok {
        AllKnown(env', p);
        MainLegal(env'.methods, p);
      }
    }
  }
}
