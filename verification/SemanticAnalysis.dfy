/** The checker as it runs: tables linked to their parents, a stack of scopes and an error flag, updated
    while it walks the program, refining the functions of `Checker`. */
module SemanticAnalysis {
  import opened Words
  import opened Names
  import opened Checker
  import Ir
  import Literals

  /** A table of fields; a lookup that finds nothing climbs to the parent. */
  class FieldsTable {
    var parent: FieldsTable?
    var table: map<string, Ir.Field>
    /** From the outermost table to this one. */
    ghost var chain: seq<FieldsTable>

    constructor ()
      ensures parent == null && table == map[] && chain == [this]
    {
      parent, table := null, map[];
      chain := [this];
    }

    ghost predicate Linked()
      reads this`chain, chain`chain, chain`parent
    {
      chain != [] && chain[|chain| - 1] == this && AllLinked(chain)
    }

    method SetParent(fields: FieldsTable)
      requires fields.Linked() && this !in fields.chain
      modifies this
      ensures parent == fields && table == old(table) && chain == fields.chain + [this] && Linked()
    {
      ghost var before := fields.chain;
      ghost var n := |before|;
      assert before[n - 1] == fields && fields != this;
      assert forall i :: 0 <= i < n ==> before[i] != this;
      parent := fields;
      chain := before + [this];
      assert AllLinked(before);
      forall i | 0 <= i <= n ensures LinkedAt(chain, i) {
        assert i > 0 ==> chain[i - 1] == before[i - 1];
        if i < n { assert LinkedAt(before, i) && chain[i] == before[i] && before[..i + 1] == chain[..i + 1]; }
      }
    }

    method Add(identifier: string, field: Ir.Field)
      modifies this`table
      ensures table == old(table)[identifier := field]
    {
      table := table[identifier := field];
    }

    /** `fields_table_get`. */
    method Get(identifier: string, climb: bool) returns (r: Option<Ir.Field>)
      requires Linked()
      ensures climb ==> r == Found(ScopesOf(chain), identifier)
      ensures !climb ==> r == if identifier in table then Some(table[identifier]) else None
    {
      if !climb {
        return if identifier in table then Some(table[identifier]) else None;
      }
      hide Found, Find, ScopesOf;
      var current: FieldsTable := this;
      ghost var n := |chain| - 1;
      assert chain[..n + 1] == chain;
      while identifier !in current.table
        invariant 0 <= n < |chain| && current == chain[n]
        invariant Found(ScopesOf(chain), identifier) == Found(ScopesOf(chain[..n + 1]), identifier)
        decreases n
      {
        ScopesStep(chain, n);
        FoundBelow(ScopesOf(chain[..n]), current.table, identifier);
        assert LinkedAt(chain, n);
        if current.parent == null {
          assert Found(ScopesOf(chain[..0]), identifier) == None by { NothingFound(chain[..0], identifier); }
          return None;
        }
        assert chain[..n - 1 + 1] == chain[..n];
        n := n - 1;
        current := current.parent;
      }
      ScopesStep(chain, n);
      FoundHere(ScopesOf(chain[..n]), current.table, identifier);
      return Some(current.table[identifier]);
    }
  }

  /** Each table knows the tables before it. */
  ghost predicate AllLinked(tables: seq<FieldsTable>)
    reads tables`chain, tables`parent
  {
    forall i :: 0 <= i < |tables| ==> LinkedAt(tables, i)
  }

  ghost predicate LinkedAt(tables: seq<FieldsTable>, i: nat)
    requires i < |tables|
    reads tables`chain, tables`parent
  {
    tables[i].chain == tables[..i + 1]
      && (if i == 0 then tables[i].parent == null else tables[i].parent == tables[i - 1])
  }

  ghost function ScopesOf(tables: seq<FieldsTable>): (r: Scopes)
    reads tables`table
  {
    if tables == [] then [] else ScopesOf(tables[..|tables| - 1]) + [tables[|tables| - 1].table]
  }

  lemma {:induction false} ScopesLength(tables: seq<FieldsTable>)
    ensures |ScopesOf(tables)| == |tables|
    ensures forall i :: 0 <= i < |tables| ==> ScopesOf(tables)[i] == tables[i].table
  {
    if tables != [] { ScopesLength(tables[..|tables| - 1]); }
  }

  lemma ScopesStep(tables: seq<FieldsTable>, n: nat)
    requires n < |tables|
    ensures ScopesOf(tables[..n + 1]) == ScopesOf(tables[..n]) + [tables[n].table]
  {
    assert tables[..n + 1][..n] == tables[..n];
  }

  lemma FoundBelow(scopes: Scopes, table: map<string, Ir.Field>, identifier: string)
    requires identifier !in table
    ensures Found(scopes + [table], identifier) == Found(scopes, identifier)
  {
    assert (scopes + [table])[..|scopes|] == scopes;
  }

  lemma NothingFound(tables: seq<FieldsTable>, identifier: string)
    requires tables == []
    ensures Found(ScopesOf(tables), identifier) == None
  {
  }

  lemma FoundHere(scopes: Scopes, table: map<string, Ir.Field>, identifier: string)
    requires identifier in table
    ensures Found(scopes + [table], identifier) == Some(table[identifier])
  {
  }

  /** Declaring in the innermost table leaves the others as they are. */
  twostate lemma OnlyLastChanged(tables: seq<FieldsTable>)
    requires tables != [] && forall i :: 0 <= i < |tables| - 1 ==> tables[i].table == old(tables[i].table)
    ensures |old(ScopesOf(tables))| == |tables| && ScopesOf(tables)
      == old(ScopesOf(tables))[|tables| - 1 := tables[|tables| - 1].table]
  {
    ScopesLength(tables);
    OldScopesLength(tables);
  }

  twostate lemma OldScopesLength(tables: seq<FieldsTable>)
    ensures |old(ScopesOf(tables))| == |tables|
    ensures forall i :: 0 <= i < |tables| ==> old(ScopesOf(tables))[i] == old(tables[i].table)
    decreases |tables|
  {
    if tables != [] { OldScopesLength(tables[..|tables| - 1]); }
  }

  class Semantics {
    var error: bool
    var methodsTable: map<string, Signature>
    var fieldsTableStack: seq<FieldsTable>
    var currentReturnType: Ir.Type
    var loopDepth: nat

    constructor ()
      ensures !error && methodsTable == map[] && fieldsTableStack == [] && loopDepth == 0
    {
      error, methodsTable, fieldsTableStack, currentReturnType, loopDepth := false, map[], [], Ir.Void, 0;
    }

    ghost predicate Valid()
      reads this`fieldsTableStack, fieldsTableStack`chain, fieldsTableStack`parent
    {
      fieldsTableStack != [] && AllLinked(fieldsTableStack)
    }

    /** What the functions of `Checker` see. */
    ghost function Env(): Environment
      reads this`methodsTable, this`fieldsTableStack, this`currentReturnType, this`loopDepth, fieldsTableStack`table
    {
      Environment(methodsTable, ScopesOf(fieldsTableStack), currentReturnType, loopDepth, AsWritten, {})
    }

    method SemanticError()
      modifies this`error
      ensures error
    {
      error := true;
    }

    function CurrentScope(): FieldsTable
      requires fieldsTableStack != []
      reads this`fieldsTableStack
    {
      fieldsTableStack[|fieldsTableStack| - 1]
    }

    lemma CurrentIsLinked()
      requires Valid()
      ensures CurrentScope().Linked() && CurrentScope().chain == fieldsTableStack
    {
      assert LinkedAt(fieldsTableStack, |fieldsTableStack| - 1);
      assert fieldsTableStack[..|fieldsTableStack|] == fieldsTableStack;
    }

    /** `get_field_declaration`. */
    method GetFieldDeclaration(identifier: string) returns (r: Option<Ir.Field>)
      requires Valid()
      modifies this`error
      ensures r == Found(Env().scopes, identifier) && error == (old(error) || r.None?)
    {
      CurrentIsLinked();
      r := CurrentScope().Get(identifier, true);
      if r.None? {
        SemanticError();
      }
    }

    /** `get_method_declaration`. */
    method GetMethodDeclaration(identifier: string) returns (r: Option<Signature>)
      requires Valid()
      modifies this`error
      ensures r.Some? <==> Find(Env().scopes, identifier).None? && identifier in methodsTable
      ensures r.Some? ==> r.value == methodsTable[identifier]
      ensures error == (old(error) || r.None?)
    {
      CurrentIsLinked();
      var field := CurrentScope().Get(identifier, true);
      if field.Some? {
        SemanticError();
        return None;
      }
      if identifier !in methodsTable {
        SemanticError();
        return None;
      }
      return Some(methodsTable[identifier]);
    }

    // ----- expressions -----

    method AnalyzeLiteral(l: Ir.Literal) returns (t: DataType)
      modifies this`error
      ensures t == LiteralType(l) && error == (old(error) || !LiteralOk(AsWritten, l))
    {
      if l.kind == Ir.IntLiteral {
        if l.value == Literals.SENTINEL {
          SemanticError();
        }
      }
      t := if l.kind == Ir.BoolLiteral then Truth else Number;
    }

    method AnalyzeExpression(e: Ir.Expression) returns (e': Ir.Expression, t: DataType)
      requires Valid()
      modifies this`error
      ensures var c := CheckExpression(Env(), e);
        e' == c.expression && t == c.dataType && error == (old(error) || !c.ok)
      decreases e, 1
    {
      match e
      case Binary(_, _, _) => e', t := AnalyzeBinaryExpression(e);
      case Not(o) =>
        var o';
        o', t := AnalyzeExpression(o);
        if t != Truth {
          SemanticError();
        }
        e', t := Ir.Not(o'), Truth;
      case Negate(o) =>
        var o';
        o', t := AnalyzeExpression(o);
        if t != Number {
          SemanticError();
        }
        e', t := Ir.Negate(o'), Number;
      case Length(id, _) =>
        var field := GetFieldDeclaration(id);
        e', t := e, Number;
        if field.Some? {
          if field.value.isArray {
            e' := Ir.Length(id, KeptLength(field.value));
          } else {
            SemanticError();
          }
        }
      case Invoke(call) =>
        var call', returnType := AnalyzeMethodCall(call);
        if returnType == Ir.Void {
          SemanticError();
        }
        e', t := Ir.Invoke(call'), DataType(returnType, false);
      case Constant(l) =>
        t := AnalyzeLiteral(l);
        e' := e;
      case At(location) =>
        var location', constant;
        location', t, constant := AnalyzeLocation(location);
        e' := Ir.At(location');
    }

    method AnalyzeBinaryExpression(e: Ir.Expression) returns (e': Ir.Expression, t: DataType)
      requires Valid() && e.Binary?
      modifies this`error
      ensures var c := CheckExpression(Env(), e);
        e' == c.expression && t == c.dataType && error == (old(error) || !c.ok)
      decreases e, 0
    {
      hide Find, ScopesOf, AllLinked;
      var left, leftType := AnalyzeExpression(e.left);
      var right, rightType := AnalyzeExpression(e.right);
      if e.op.Plus? || e.op.Minus? || e.op.Times? || e.op.Over? || e.op.Modulus?
         || e.op.LessThan? || e.op.LessOrEqual? || e.op.GreaterOrEqual? || e.op.GreaterThan? {
        if leftType != Number || rightType != Number {
          SemanticError();
        }
      } else if e.op.Or? || e.op.And? {
        if leftType != Truth || rightType != Truth {
          SemanticError();
        }
      } else {
        if leftType.isArray || rightType.isArray {
          SemanticError();
        }
        if leftType != rightType {
          SemanticError();
        }
      }
      e' := Ir.Binary(e.op, left, right);
      t := if e.op.Plus? || e.op.Minus? || e.op.Times? || e.op.Over? || e.op.Modulus? then Number else Truth;
    }

    method AnalyzeLocation(location: Ir.Location) returns (location': Ir.Location, t: DataType, constant: bool)
      requires Valid()
      modifies this`error
      ensures var c := CheckLocation(Env(), location);
        location' == c.location && t == c.dataType && constant == c.constant && error == (old(error) || !c.ok)
      decreases location
    {
      hide CheckExpression, Find, ScopesOf, AllLinked;
      var field := GetFieldDeclaration(location.identifier);
      if field.None? {
        return location, Nothing, false;
      }
      location', t, constant := location, TypeOfField(field.value), field.value.constant;
      if location.index.Some? {
        if t.isArray {
          t := t.(isArray := false);
        } else {
          SemanticError();
        }
        var index, indexType := AnalyzeExpression(location.index.value);
        if indexType != Number {
          SemanticError();
        }
        location' := Ir.Location(location.identifier, Some(index));
      }
    }

    method AnalyzeMethodCall(call: Ir.MethodCall) returns (call': Ir.MethodCall, returnType: Ir.Type)
      requires Valid()
      modifies this`error
      ensures var c := CheckCall(Env(), call);
        call' == c.call && returnType == c.returnType && error == (old(error) || !c.ok)
      decreases call
    {
      var found := GetMethodDeclaration(call.identifier);
      if found.None? {
        return call, Ir.Void;
      }
      match found.value
      case Imported =>
        var arguments := AnalyzeArguments(call.arguments, None);
        return Ir.MethodCall(call.identifier, arguments), Ir.Int;
      case Own(t, parameters) =>
        if |parameters| != |call.arguments| {
          SemanticError();
          return call, t;
        }
        var arguments := AnalyzeArguments(call.arguments, Some(parameters));
        return Ir.MethodCall(call.identifier, arguments), t;
    }

    /** The two loops over the arguments of `analyze_method_call`. */
    method AnalyzeArguments(arguments: seq<Ir.CallArgument>, parameters: Option<seq<DataType>>)
      returns (r: seq<Ir.CallArgument>)
      requires Valid() && (parameters.Some? ==> |parameters.value| == |arguments|)
      modifies this`error
      ensures var c := CheckArguments(Env(), arguments, parameters); r == c.value && error == (old(error) || !c.ok)
      decreases arguments
    {
      hide CheckArgument, CheckArguments, Env, Valid;
      r := [];
      var i := 0;
      ghost var env := Env();
      ghost var checked := CheckArguments(env, arguments, parameters);
      assert arguments[0..] == arguments && Rest(parameters, 0) == parameters;
      while i < |arguments|
        invariant 0 <= i <= |arguments| && env == Env() && Valid()
        invariant var rest := CheckArguments(env, arguments[i..], Rest(parameters, i));
          checked.value == r + rest.value && (old(error) || !checked.ok) == (error || !rest.ok)
      {
        var parameter := if parameters.Some? then Some(parameters.value[i]) else None;
        ArgumentsUnfold(env, arguments, parameters, i);
        var a := AnalyzeArgument(arguments[i], parameter);
        r := r + [a];
        i := i + 1;
      }
      assert CheckArguments(env, arguments[i..], Rest(parameters, i)) == Checked([], true)
        by { NoArguments(env, arguments[i..], Rest(parameters, i)); }
    }

    static lemma NoArguments(env: Environment, arguments: seq<Ir.CallArgument>, parameters: Option<seq<DataType>>)
      requires arguments == [] && (parameters.Some? ==> parameters.value == [])
      ensures CheckArguments(env, arguments, parameters) == Checked([], true)
    {
    }

    static lemma ArgumentsUnfold(env: Environment, arguments: seq<Ir.CallArgument>,
                                 parameters: Option<seq<DataType>>, i: nat)
      requires i < |arguments| && (parameters.Some? ==> |parameters.value| == |arguments|)
      ensures var first := CheckArgument(env, arguments[i], if parameters.Some? then Some(parameters.value[i])
        else None);
        var rest := CheckArguments(env, arguments[i + 1..], Rest(parameters, i + 1));
        CheckArguments(env, arguments[i..], Rest(parameters, i)) == Checked([first.value] + rest.value, first.ok
          && rest.ok)
    {
      assert arguments[i..][1..] == arguments[i + 1..];
      assert parameters.Some? ==> parameters.value[i..][1..] == parameters.value[i + 1..];
    }

    static function Rest(parameters: Option<seq<DataType>>, i: nat): Option<seq<DataType>>
      requires parameters.Some? ==> i <= |parameters.value|
    {
      if parameters.Some? then Some(parameters.value[i..]) else None
    }

    /** `analyze_method_call_argument` and `analyze_imported_method_call_argument`. */
    method AnalyzeArgument(a: Ir.CallArgument, parameter: Option<DataType>) returns (a': Ir.CallArgument)
      requires Valid()
      modifies this`error
      ensures var c := CheckArgument(Env(), a, parameter); a' == c.value && error == (old(error) || !c.ok)
      decreases a
    {
      match a
      case StringArgument(_) =>
        if parameter.Some? {
          SemanticError();
        }
        a' := a;
      case ValueArgument(e) =>
        var e', t := AnalyzeExpression(e);
        if parameter.Some? && t != parameter.value {
          SemanticError();
        }
        a' := Ir.ValueArgument(e');
    }

    // ----- declarations -----

    /** `declare_field`. */
    method DeclareField(field: Ir.Field) returns (added: bool)
      requires Valid()
      modifies this`error, CurrentScope()`table
      ensures Valid() && Env() == old(Env()).(scopes := Env().scopes) && old(Env().scopes) != []
      ensures added == !Redeclared(methodsTable, old(Env().scopes), field.identifier) && error == (old(error) || !added)
      ensures Env().scopes == if added then AddToScope(old(Env().scopes), field) else old(Env().scopes)
    {
      CurrentIsLinked();
      ScopesLength(fieldsTableStack);
      hide ScopesOf;
      var scope := CurrentScope();
      var isGlobal := scope.parent == null;
      assert LinkedAt(fieldsTableStack, |fieldsTableStack| - 1);
      var present := scope.Get(field.identifier, false);
      added := present.None? && !(isGlobal && field.identifier in methodsTable);
      if added {
        label Before:
        TablesDistinct(fieldsTableStack);
        scope.Add(field.identifier, field);
        OnlyLastChanged@Before(fieldsTableStack);
      } else {
        SemanticError();
      }
    }

    /** `analyze_initializer`. */
    method AnalyzeInitializer(literals: seq<Ir.Literal>, braced: bool) returns (t: DataType)
      modifies this`error
      ensures t == DataType(if literals == [] then Ir.Void else LiteralType(literals[0]).base, braced)
      ensures error == (old(error) ||
        !forall i :: 0 <= i < |literals| ==>
          LiteralOk(AsWritten, literals[i]) && LiteralType(literals[i]) == LiteralType(literals[0]))
    {
      t := Nothing;
      for i := 0 to |literals|
        invariant t == if i == 0 then Nothing else LiteralType(literals[0])
        invariant error == (old(error) ||
          !forall j :: 0 <= j < i ==>
            LiteralOk(AsWritten, literals[j]) && LiteralType(literals[j]) == LiteralType(literals[0]))
      {
        var literalType := AnalyzeLiteral(literals[i]);
        if t == Nothing {
          t := literalType;
        } else if literalType != t {
          SemanticError();
        }
      }
      if braced {
        t := DataType(t.base, true);
      }
    }

    /** `analyze_field`. The table holds the declaration itself, so it sees the length it ends up with. */
    method AnalyzeField(f: Ir.Field) returns (f': Ir.Field)
      requires Valid()
      modifies this`error, CurrentScope()`table
      ensures Valid() && Env() == old(Env()).(scopes := Env().scopes) && old(Env().scopes) != []
      ensures var clash := Redeclared(methodsTable, old(Env().scopes), f.identifier);
        && Env().scopes == (if clash then old(Env().scopes) else AddToScope(old(Env().scopes), Completed(f)))
        && error == (old(error) || clash || !DeclarationOk(AsWritten, f))
      ensures f' == Completed(f)
    {
      ScopesLength(fieldsTableStack);
      hide ScopesOf, AllLinked, AddToScope;
      f' := f;
      if f.initializer.Some? {
        f' := f.(length := |f.initializer.value|, open := false);
      }
      var added := DeclareField(f');
      if f.initializer.Some? {
        var initializerType := AnalyzeInitializer(f.initializer.value, f.braced);
        if initializerType != TypeOfField(f) {
          SemanticError();
        }
        if f.isArray && f.braced && !LengthOpen(f) {
          SemanticError();
        }
      } else {
        if f.isArray && LengthOpen(f) {
          SemanticError();
        } else if f.isArray && f.length == 0 {
          SemanticError();
        }
        if f.constant {
          SemanticError();
        }
      }
    }

    method AnalyzeFields(fields: seq<Ir.Field>) returns (fields': seq<Ir.Field>)
      requires Valid()
      modifies this`error, CurrentScope()`table
      ensures Valid() && old(Env().scopes) != []
      ensures var c := CheckFields(old(Env()), fields);
        Env() == old(Env()).(scopes := c.scopes) && fields' == c.fields && error == (old(error) || !c.ok)
    {
      hide Redeclared, AddToScope, DeclarationOk, Completed;
      ScopesLength(fieldsTableStack);
      fields' := [];
      assert fields[..0] == [];
      for i := 0 to |fields|
        invariant Valid()
        invariant var c := CheckFields(old(Env()), fields[..i]);
          Env() == old(Env()).(scopes := c.scopes) && fields' == c.fields && error == (old(error) || !c.ok)
      {
        assert fields[..i + 1][..i] == fields[..i];
        var f := AnalyzeField(fields[i]);
        fields' := fields' + [f];
      }
      assert fields[..|fields|] == fields;
    }

    // ----- statements -----

    method AnalyzeAssignment(a: Ir.Assignment) returns (a': Ir.Assignment)
      requires Valid()
      modifies this`error
      ensures var c := CheckAssignment(Env(), a); a' == c.value && error == (old(error) || !c.ok)
    {
      hide CheckLocation, CheckExpression, Find, ScopesOf, AllLinked, FieldName;
      var location, locationType, constant := AnalyzeLocation(a.location);
      if constant {
        SemanticError();
      }
      if locationType.isArray {
        SemanticError();
      }
      if a.op != Ir.Set && locationType != Number {
        SemanticError();
      }
      a' := a.(location := location);
      if a.expression.Some? {
        var e, t := AnalyzeExpression(a.expression.value);
        if t != locationType {
          SemanticError();
        }
        a' := Ir.Assignment(location, a.op, Some(e));
      }
    }

    method AnalyzeForUpdate(u: Ir.ForUpdate) returns (u': Ir.ForUpdate)
      requires Valid()
      modifies this`error
      ensures var c := CheckUpdate(Env(), u); u' == c.value && error == (old(error) || !c.ok)
    {
      hide CheckAssignment, CheckCall;
      match u
      case UpdateAssignment(a) =>
        var a' := AnalyzeAssignment(a);
        u' := Ir.UpdateAssignment(a');
      case UpdateCall(call) =>
        var call', t := AnalyzeMethodCall(call);
        u' := Ir.UpdateCall(call');
    }

    method AnalyzeCondition(e: Ir.Expression) returns (e': Ir.Expression)
      requires Valid()
      modifies this`error
      ensures var c := CheckCondition(Env(), e); e' == c.value && error == (old(error) || !c.ok)
    {
      hide CheckExpression;
      var t;
      e', t := AnalyzeExpression(e);
      if t != Truth {
        SemanticError();
      }
    }

    method AnalyzeStatement(s: Ir.Statement) returns (s': Ir.Statement)
      requires Valid()
      modifies this`error, this`fieldsTableStack, this`loopDepth
      ensures Valid() && fieldsTableStack == old(fieldsTableStack) && Env() == old(Env())
      ensures var c := CheckStatement(Env(), s); s' == c.value && error == (old(error) || !c.ok)
      decreases s, 1
    {
      hide CheckAssignment, CheckCall, CheckExpression, ScopesOf, AllLinked;
      match s
      case Assign(a) =>
        var a' := AnalyzeAssignment(a);
        s' := Ir.Assign(a');
      case CallStatement(call) =>
        var call', t := AnalyzeMethodCall(call);
        s' := Ir.CallStatement(call');
      case If(_, _, _) => s' := AnalyzeIfStatement(s);
      case For(_, _, _, _) => s' := AnalyzeForStatement(s);
      case While(_, _) => s' := AnalyzeWhileStatement(s);
      case Return(value) =>
        var t := Nothing;
        s' := s;
        if value.Some? {
          var e;
          e, t := AnalyzeExpression(value.value);
          s' := Ir.Return(Some(e));
        }
        if t != DataType(currentReturnType, false) {
          SemanticError();
        }
      case Break =>
        if loopDepth == 0 {
          SemanticError();
        }
        s' := s;
      case Continue =>
        if loopDepth == 0 {
          SemanticError();
        }
        s' := s;
    }

    method AnalyzeIfStatement(s: Ir.Statement) returns (s': Ir.Statement)
      requires Valid() && s.If?
      modifies this`error, this`fieldsTableStack, this`loopDepth
      ensures Valid() && fieldsTableStack == old(fieldsTableStack) && Env() == old(Env())
      ensures var c := CheckStatement(Env(), s); s' == c.value && error == (old(error) || !c.ok)
      decreases s, 0
    {
      hide CheckCondition, CheckBlock, ScopesOf, AllLinked;
      var condition := AnalyzeCondition(s.condition);
      var ifBlock := AnalyzeBlock(s.ifBlock);
      s' := Ir.If(condition, ifBlock, None);
      if s.elseBlock.Some? {
        var elseBlock := AnalyzeBlock(s.elseBlock.value);
        s' := Ir.If(condition, ifBlock, Some(elseBlock));
      }
    }

    method AnalyzeWhileStatement(s: Ir.Statement) returns (s': Ir.Statement)
      requires Valid() && s.While?
      modifies this`error, this`fieldsTableStack, this`loopDepth
      ensures Valid() && fieldsTableStack == old(fieldsTableStack) && Env() == old(Env())
      ensures var c := CheckStatement(Env(), s); s' == c.value && error == (old(error) || !c.ok)
      decreases s, 0
    {
      hide CheckCondition, CheckBlock, ScopesOf, AllLinked;
      loopDepth := loopDepth + 1;
      assert Env() == InLoop(old(Env()));
      var condition := AnalyzeCondition(s.condition);
      var body := AnalyzeBlock(s.body);
      loopDepth := loopDepth - 1;
      s' := Ir.While(condition, body);
    }

    method AnalyzeForStatement(s: Ir.Statement) returns (s': Ir.Statement)
      requires Valid() && s.For?
      modifies this`error, this`fieldsTableStack, this`loopDepth
      ensures Valid() && fieldsTableStack == old(fieldsTableStack) && Env() == old(Env())
      ensures var c := CheckStatement(Env(), s); s' == c.value && error == (old(error) || !c.ok)
      decreases s, 0
    {
      hide CheckAssignment, CheckUpdate, CheckCondition, CheckBlock, ScopesOf, AllLinked;
      loopDepth := loopDepth + 1;
      assert Env() == InLoop(old(Env()));
      var initial := AnalyzeAssignment(s.initial);
      var condition := AnalyzeCondition(s.condition);
      var update := AnalyzeForUpdate(s.update);
      var body := AnalyzeBlock(s.body);
      loopDepth := loopDepth - 1;
      s' := Ir.For(initial, condition, update, body);
    }

    /** A table for the block, linked to the scope around it. */
    method PushScope()
      requires Valid()
      modifies this`fieldsTableStack
      ensures Valid() && |fieldsTableStack| == |old(fieldsTableStack)| + 1
      ensures fieldsTableStack[..|old(fieldsTableStack)|] == old(fieldsTableStack) && fresh(CurrentScope())
      ensures Env() == old(Env()).(scopes := old(Env().scopes) + [map[]])
    {
      CurrentIsLinked();
      ghost var stack := fieldsTableStack;
      var table := new FieldsTable();
      table.SetParent(CurrentScope());
      fieldsTableStack := fieldsTableStack + [table];
      assert fieldsTableStack == table.chain;
      assert fieldsTableStack[..|stack|] == stack;
    }

    method PopScope()
      requires |fieldsTableStack| >= 2 && Valid()
      modifies this`fieldsTableStack
      ensures Valid() && fieldsTableStack == old(fieldsTableStack)[..|old(fieldsTableStack)| - 1]
    {
      ghost var stack := fieldsTableStack;
      fieldsTableStack := fieldsTableStack[..|fieldsTableStack| - 1];
      forall i | 0 <= i < |fieldsTableStack| ensures LinkedAt(fieldsTableStack, i) {
        assert LinkedAt(stack, i) && stack[..i + 1] == fieldsTableStack[..i + 1];
      }
    }

    /** `analyze_block` without fields from outside. */
    method AnalyzeBlock(b: Ir.Block) returns (b': Ir.Block)
      requires Valid()
      modifies this`error, this`fieldsTableStack, this`loopDepth
      ensures Valid() && fieldsTableStack == old(fieldsTableStack) && Env() == old(Env())
      ensures var c := CheckBlock(Env(), b); b' == c.value && error == (old(error) || !c.ok)
      decreases b
    {
      hide CheckFields, CheckStatements;
      PushScope();
      var fields := AnalyzeFields(b.fields);
      var statements := AnalyzeStatements(b.statements);
      PopScope();
      b' := Ir.Block(fields, statements);
    }

    method AnalyzeStatements(statements: seq<Ir.Statement>) returns (statements': seq<Ir.Statement>)
      requires Valid()
      modifies this`error, this`fieldsTableStack, this`loopDepth
      ensures Valid() && fieldsTableStack == old(fieldsTableStack) && Env() == old(Env())
      ensures var c := CheckStatements(Env(), statements); statements' == c.value && error == (old(error) || !c.ok)
      decreases statements
    {
      hide CheckStatement, CheckStatements, Env, Valid;
      statements' := [];
      ghost var env := Env();
      ghost var checked := CheckStatements(env, statements);
      var i := 0;
      assert statements[0..] == statements;
      while i < |statements|
        invariant 0 <= i <= |statements| && env == Env() && Valid() && fieldsTableStack == old(fieldsTableStack)
        invariant var rest := CheckStatements(env, statements[i..]);
          checked.value == statements' + rest.value && (old(error) || !checked.ok) == (error || !rest.ok)
      {
        StatementsUnfold(env, statements, i);
        var s := AnalyzeStatement(statements[i]);
        statements' := statements' + [s];
        i := i + 1;
      }
      assert CheckStatements(env, statements[i..]) == Checked([], true) by { NoStatements(env, statements[i..]); }
    }

    static lemma NoStatements(env: Environment, statements: seq<Ir.Statement>)
      requires statements == []
      ensures CheckStatements(env, statements) == Checked([], true)
    {
    }

    static lemma StatementsUnfold(env: Environment, statements: seq<Ir.Statement>, i: nat)
      requires i < |statements|
      ensures var first, rest := CheckStatement(env, statements[i]), CheckStatements(env, statements[i + 1..]);
        CheckStatements(env, statements[i..]) == Checked([first.value] + rest.value, first.ok && rest.ok)
    {
      assert statements[i..][1..] == statements[i + 1..];
    }

    // ----- methods and programs -----

    /** `declare_method`, in the outermost scope. */
    method DeclareMethod(identifier: string, signature: Signature) returns (added: bool)
      requires Valid() && |fieldsTableStack| == 1
      modifies this`error, this`methodsTable
      ensures Valid() && Env().scopes == old(Env().scopes) != []
      ensures (methodsTable, added) == Checker.DeclareMethod(old(methodsTable), Env().scopes, identifier, signature)
      ensures error == (old(error) || !added)
    {
      CurrentIsLinked();
      ScopesLength(fieldsTableStack);
      var field := CurrentScope().Get(identifier, false);
      added := identifier !in methodsTable && field.None?;
      if added {
        methodsTable := methodsTable[identifier := signature];
      } else {
        SemanticError();
      }
    }

    method AnalyzeMethod(m: Ir.Method) returns (m': Ir.Method)
      requires Valid() && |fieldsTableStack| == 1
      modifies this
      ensures Valid() && fieldsTableStack == old(fieldsTableStack) && old(Env().scopes) != []
      ensures var (env, c) := CheckMethod(old(Env()).(policy := AsWritten), m);
        Env() == env.(fixed := {}) && m' == c.value && error == (old(error) || !c.ok)
    {
      hide CheckFields, CheckStatements;
      ScopesLength(fieldsTableStack);
      var added := DeclareMethod(m.identifier, SignatureOf(m));
      currentReturnType := m.returnType;
      PushScope();
      var parameters := AnalyzeFields(m.arguments);
      var fields := AnalyzeFields(m.body.fields);
      var statements := AnalyzeStatements(m.body.statements);
      PopScope();
      m' := Ir.Method(m.returnType, m.identifier, parameters, Ir.Block(fields, statements));
    }

    method AnalyzeImports(imports: seq<string>)
      requires Valid() && |fieldsTableStack| == 1 && Env().scopes == [map[]] && methodsTable == map[]
      modifies this`error, this`methodsTable
      ensures Valid() && Env() == old(Env()).(methods := methodsTable)
      ensures (methodsTable, error) == (CheckImports(imports).0, old(error) || !CheckImports(imports).1)
    {
      assert imports[..0] == [];
      for i := 0 to |imports|
        invariant Valid() && Env() == old(Env()).(methods := methodsTable)
        invariant (methodsTable, error) == (CheckImports(imports[..i]).0, old(error) || !CheckImports(imports[..i]).1)
      {
        assert imports[..i + 1][..i] == imports[..i];
        var added := DeclareMethod(imports[i], Imported);
      }
      assert imports[..|imports|] == imports;
    }

    method AnalyzeMethods(methods: seq<Ir.Method>) returns (methods': seq<Ir.Method>)
      requires Valid() && |fieldsTableStack| == 1
      modifies this
      ensures Valid() && fieldsTableStack == old(fieldsTableStack) && old(Env().scopes) != []
      ensures var (env, c) := CheckMethods(old(Env()), methods);
        Env() == env && methods' == c.value && error == (old(error) || !c.ok)
    {
      hide CheckMethod;
      ScopesLength(fieldsTableStack);
      methods' := [];
      assert methods[..0] == [];
      for i := 0 to |methods|
        invariant Valid() && fieldsTableStack == old(fieldsTableStack)
        invariant var (env, c) := CheckMethods(old(Env()), methods[..i]);
          Env() == env && methods' == c.value && error == (old(error) || !c.ok)
      {
        assert methods[..i + 1][..i] == methods[..i];
        KeepsPolicy(Env(), methods[i]);
        var m := AnalyzeMethod(methods[i]);
        methods' := methods' + [m];
      }
      assert methods[..|methods|] == methods;
    }

    static lemma KeepsPolicy(env: Environment, m: Ir.Method)
      requires env.scopes != [] && env.policy == AsWritten && env.fixed == {}
      ensures CheckMethod(env, m).0.fixed == {} && CheckMethod(env, m).0.policy == AsWritten
    {
    }

    /** What `analyze_program` asks of `main`. */
    method AnalyzeMain()
      modifies this`error
      ensures error == (old(error) || !MainOk(methodsTable))
    {
      if "main" !in methodsTable {
        SemanticError();
      } else if methodsTable["main"].Imported? {
        SemanticError();
      } else if methodsTable["main"].returnType != Ir.Void {
        SemanticError();
      } else if |methodsTable["main"].parameters| > 0 {
        SemanticError();
      }
    }

    /** `semantics_analyze` after the program was read back. */
    method AnalyzeProgram(p: Ir.Program) returns (p': Ir.Program)
      modifies this
      ensures var c := CheckProgram(p, AsWritten); p' == c.value && error == !c.ok
    {
      hide CheckFields, CheckMethods, CheckImports;
      error, methodsTable, currentReturnType, loopDepth := false, map[], Ir.Void, 0;
      var table := new FieldsTable();
      fieldsTableStack := [table];
      assert fieldsTableStack[..1] == [table] && fieldsTableStack[..0] == [];
      assert LinkedAt(fieldsTableStack, 0);
      assert ScopesOf(fieldsTableStack) == [map[]];
      AnalyzeImports(p.imports);
      var fields := AnalyzeFields(p.fields);
      var methods := AnalyzeMethods(p.methods);
      AnalyzeMain();
      fieldsTableStack := [];
      p' := Ir.Program(p.imports, fields, methods);
    }
  }

  lemma TablesDistinct(tables: seq<FieldsTable>)
    requires AllLinked(tables)
    ensures forall i, j :: 0 <= i < j < |tables| ==> tables[i] != tables[j]
  {
    forall i, j | 0 <= i < j < |tables| ensures tables[i] != tables[j] {
      assert LinkedAt(tables, i) && LinkedAt(tables, j);
      assert |tables[..i + 1]| != |tables[..j + 1]|;
    }
  }
}
