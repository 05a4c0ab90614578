/** Reading the structured representation back as it is done: a cursor over the nodes that every reader
    advances, on streams that trip none of its assertions, refining the functions of `IrBuilding`. */
module IrBuilders {
  import opened Words
  import opened Ast
  import opened Literals
  import opened IrBuilding
  import Ir

  class IrBuilder {
    /** What the cursor has not passed yet. */
    var nodes: Stream

    constructor (nodes: Stream)
      ensures this.nodes == nodes
    {
      this.nodes := nodes;
    }

    method NextNode() returns (node: Entry)
      requires nodes != []
      modifies this
      ensures node == old(nodes)[0] && nodes == old(nodes)[1..]
    {
      node := nodes[0];
      nodes := nodes[1..];
    }

    /** The kind of the next node, as `peek_node` shows it. */
    predicate Next(kind: Kind)
      reads this
    {
      Starts(nodes, kind)
    }

    // ----- leaves -----

    method IdentifierFromAst() returns (id: string)
      requires ReadIdentifier(nodes).Some?
      modifies this
      ensures ReadIdentifier(old(nodes)) == Some((id, nodes))
    {
      var node := NextNode();
      assert node.kind == IdentifierNode;
      id := node.token.name;
    }

    /** `ir_data_type_from_ast`. */
    method DataTypeFromAst() returns (t: Ir.Type)
      requires ReadType(nodes).Some?
      modifies this
      ensures ReadType(old(nodes)) == Some((t, nodes))
    {
      var node := NextNode();
      assert node.kind == VoidNode || node.kind == DataTypeNode;
      t := if node.kind == VoidNode then Ir.Void else node.token.base;
    }

    /** `ir_int_literal_from_ast`. */
    method IntLiteralFromAst(negate: bool) returns (value: nat)
      requires nodes != [] && IntegerOf(nodes[0].token, negate).Some?
      modifies this
      ensures IntegerOf(old(nodes)[0].token, negate) == Some(value) && nodes == old(nodes)[1..]
    {
      var node := NextNode();
      var hex := node.token.Hexadecimal?;
      var source := node.token.text;
      value := StringToInt(if hex then source[2..] else source, Limit(negate), if hex then 16 else 10);
    }

    /** `ir_literal_new`. */
    method NewLiteral() returns (l: Ir.Literal)
      requires ReadLiteral(nodes).Some?
      modifies this
      ensures ReadLiteral(old(nodes)) == Some((l, nodes))
    {
      var node := NextNode();
      assert node.kind == LiteralNode;
      var negate := false;
      if Next(LiteralNegation) {
        negate := true;
        var minus := NextNode();
      }
      if Next(IntLiteralNode) {
        var value := IntLiteralFromAst(negate);
        l := Ir.Literal(Ir.IntLiteral, negate, value);
      } else {
        var leaf := NextNode();
        assert leaf.kind == BoolLiteralNode || leaf.kind == CharLiteralNode;
        l := if leaf.kind == BoolLiteralNode then Ir.Literal(Ir.BoolLiteral, negate, if leaf.token == True then 1
          else 0)
             else Ir.Literal(Ir.CharLiteral, negate, CharacterOf(leaf.token.text).value);
      }
    }

    // ----- expressions -----

    /** `ir_expression_new`. */
    method NewExpression() returns (e: Ir.Expression)
      requires ReadExpression(nodes).Some?
      modifies this
      ensures ReadExpression(old(nodes)) == Some((e, nodes))
      decreases |nodes|, 0
    {
      hide ReadLiteral, ReadCall, ReadLocation, ReadBinary, ReadIdentifier;
      ghost var start := nodes;
      var node := NextNode();
      assert node.kind == ExpressionNode;
      assert nodes[1..] == start[2..] && nodes[0] == start[1];
      match nodes[0].kind
      case BinaryNode => e := NewBinaryExpression();
      case NotNode =>
        var not_ := NextNode();
        e := NewExpression();
        e := Ir.Not(e);
      case NegateNode =>
        var minus := NextNode();
        e := NewExpression();
        e := Ir.Negate(e);
      case LenNode =>
        var len := NextNode();
        var id := IdentifierFromAst();
        e := Ir.Length(id, 1);
      case CallNode =>
        var call := NewMethodCall();
        e := Ir.Invoke(call);
      case LiteralNode =>
        var l := NewLiteral();
        e := Ir.Constant(l);
      case LocationNode =>
        var location := NewLocation();
        e := Ir.At(location);
    }

    /** `ir_binary_expression_new`. */
    method NewBinaryExpression() returns (e: Ir.Expression)
      requires Next(BinaryNode) && ReadBinary(nodes[1..]).Some?
      modifies this
      ensures ReadBinary(old(nodes)[1..]) == Some((e, nodes))
      decreases |nodes|, 1
    {
      hide ReadExpression;
      var node := NextNode();
      var left := NewExpression();
      var op := NextNode();
      var right := NewExpression();
      e := Ir.Binary(op.token.op, left, right);
    }

    /** `ir_location_new`. */
    method NewLocation() returns (location: Ir.Location)
      requires ReadLocation(nodes).Some?
      modifies this
      ensures ReadLocation(old(nodes)) == Some((location, nodes))
      decreases |nodes|, 0
    {
      hide ReadExpression, ReadIdentifier;
      var node := NextNode();
      assert node.kind == LocationNode;
      var id := IdentifierFromAst();
      location := Ir.Location(id, None);
      if Next(LocationIndex) {
        var bracket := NextNode();
        var index := NewExpression();
        location := Ir.Location(id, Some(index));
      }
    }

    /** `ir_method_call_new`. */
    method NewMethodCall() returns (call: Ir.MethodCall)
      requires ReadCall(nodes).Some?
      modifies this
      ensures ReadCall(old(nodes)) == Some((call, nodes))
      decreases |nodes|, 0
    {
      hide ReadArgument, ReadIdentifier;
      var node := NextNode();
      assert node.kind == CallNode;
      var id := IdentifierFromAst();
      var arguments: seq<Ir.CallArgument> := [];
      ghost var all := ReadArguments(nodes).value;
      while !Next(CallEnd)
        invariant |nodes| < |old(nodes)|
        invariant ReadArguments(nodes).Some?
        invariant all.0 == arguments + ReadArguments(nodes).value.0 && all.1 == ReadArguments(nodes).value.1
        decreases |nodes|
      {
        ghost var before := nodes;
        var a := NewMethodCallArgument();
        assert ReadArguments(before).value.0 == [a] + ReadArguments(nodes).value.0;
        arguments := arguments + [a];
      }
      assert arguments + [] == arguments;
      var end := NextNode();
      assert end.kind == CallEnd;
      call := Ir.MethodCall(id, arguments);
    }

    /** `ir_method_call_argument_new`. */
    method NewMethodCallArgument() returns (a: Ir.CallArgument)
      requires ReadArgument(nodes).Some?
      modifies this
      ensures ReadArgument(old(nodes)) == Some((a, nodes))
      decreases |nodes|, 0
    {
      hide ReadExpression;
      ghost var start := nodes;
      var node := NextNode();
      assert node.kind == CallArgumentNode;
      assert nodes[1..] == start[2..] && nodes[0] == start[1];
      if Next(StringLiteralNode) {
        var text := NextNode();
        a := Ir.StringArgument(text.token.text);
      } else {
        var e := NewExpression();
        a := Ir.ValueArgument(e);
      }
    }

    // ----- fields -----

    /** `ir_initializer_new`. */
    method NewInitializer() returns (literals: seq<Ir.Literal>, braced: bool)
      requires Next(InitializerNode) && ReadInitializer(nodes, Declarator(false, 1, false, None, false)).Some?
      modifies this
      ensures forall d ::
        ReadInitializer(old(nodes), d) == Some((d.(initializer := Some(literals), braced := braced), nodes))
    {
      hide ReadLiteral;
      ghost var start := nodes;
      var node := NextNode();
      assert nodes == start[1..];
      braced := Next(ArrayLiteral);
      if braced {
        var bracket := NextNode();
        assert nodes == start[2..];
      }
      literals := [];
      ghost var all := ReadLiterals(nodes).value;
      while Next(LiteralNode)
        invariant ReadLiterals(nodes).Some?
        invariant all.0 == literals + ReadLiterals(nodes).value.0 && all.1 == ReadLiterals(nodes).value.1
        decreases |nodes|
      {
        ghost var before := nodes;
        var l := NewLiteral();
        assert ReadLiterals(before).value.0 == [l] + ReadLiterals(nodes).value.0;
        literals := literals + [l];
      }
      assert literals + [] == literals;
    }

    /** `ir_field_new`. */
    method NewField(constant: bool, base: Ir.Type) returns (f: Ir.Field)
      requires ReadField(nodes, constant, base).Some?
      modifies this
      ensures ReadField(old(nodes), constant, base) == Some((f, nodes))
    {
      hide ReadIdentifier, ReadInitializer, IntegerOf;
      var node := NextNode();
      assert node.kind == FieldIdentifier;
      var id := IdentifierFromAst();
      f := Ir.Field(base, false, constant, id, 1, None, false, false);
      ghost var d := ReadLength(nodes).value.0;
      if Next(IntLiteralNode) {
        var length := IntLiteralFromAst(false);
        f := f.(isArray := true, length := length);
      } else if Next(EmptyArrayLength) {
        f := f.(isArray := true, length := 0, open := true);
        var brackets := NextNode();
      }
      assert (f.isArray, f.length, f.open) == (d.isArray, d.length, d.open);
      if Next(InitializerNode) {
        InitializerAlike(nodes, d, Declarator(false, 1, false, None, false));
        var literals, braced := NewInitializer();
        f := f.(initializer := Some(literals), braced := braced);
      } else {
        NoInitializer(nodes, d);
      }
    }

    static lemma InitializerAlike(s: Stream, d: Declarator, d': Declarator)
      ensures ReadInitializer(s, d).Some? ==> ReadInitializer(s, d').Some?
    {
    }

    static lemma NoInitializer(s: Stream, d: Declarator)
      requires !Starts(s, InitializerNode)
      ensures ReadInitializer(s, d) == Some((d, s))
    {
    }

    /** The two loops of `iterate_fields` and of its callers: every declaration that follows. */
    method IterateFields() returns (fields: seq<Ir.Field>)
      requires ReadFields(nodes).Some?
      modifies this
      ensures ReadFields(old(nodes)) == Some((fields, nodes))
    {
      hide ReadFieldIdentifiers, ReadType;
      fields := [];
      ghost var all := ReadFields(nodes).value;
      while Next(FieldNode)
        invariant ReadFields(nodes).Some?
        invariant all.0 == fields + ReadFields(nodes).value.0 && all.1 == ReadFields(nodes).value.1
        decreases |nodes|
      {
        ghost var before := nodes;
        var node := NextNode();
        var constant := Next(ConstNode);
        if constant {
          var const_ := NextNode();
          assert nodes == before[2..];
        }
        var base := DataTypeFromAst();
        var more := FieldIdentifiers(constant, base);
        assert ReadFields(before).value.0 == more + ReadFields(nodes).value.0;
        fields := fields + more;
      }
      assert fields + [] == fields;
    }

    method FieldIdentifiers(constant: bool, base: Ir.Type) returns (fields: seq<Ir.Field>)
      requires ReadFieldIdentifiers(nodes, constant, base).Some?
      modifies this
      ensures ReadFieldIdentifiers(old(nodes), constant, base) == Some((fields, nodes))
    {
      hide ReadField;
      fields := [];
      ghost var all := ReadFieldIdentifiers(nodes, constant, base).value;
      while Next(FieldIdentifier)
        invariant ReadFieldIdentifiers(nodes, constant, base).Some?
        invariant var rest := ReadFieldIdentifiers(nodes, constant, base).value;
          all.0 == fields + rest.0 && all.1 == rest.1
        decreases |nodes|
      {
        ghost var before := nodes;
        var f := NewField(constant, base);
        assert ReadFieldIdentifiers(before, constant, base).value.0
          == [f] + ReadFieldIdentifiers(nodes, constant, base).value.0;
        fields := fields + [f];
      }
      assert fields + [] == fields;
    }

    // ----- statements -----

    /** `ir_assignment_new`. */
    method NewAssignment() returns (a: Ir.Assignment)
      requires ReadAssignment(nodes).Some?
      modifies this
      ensures ReadAssignment(old(nodes)) == Some((a, nodes))
    {
      hide ReadLocation, ReadExpression;
      var node := NextNode();
      assert node.kind == AssignmentNode;
      var location := NewLocation();
      var op := NextNode();
      a := Ir.Assignment(location, op.token.how, None);
      if op.token.how != Ir.Increment && op.token.how != Ir.Decrement {
        var e := NewExpression();
        a := a.(expression := Some(e));
      }
    }

    /** `ir_for_update_new`. */
    method NewForUpdate() returns (u: Ir.ForUpdate)
      requires ReadForUpdate(nodes).Some?
      modifies this
      ensures ReadForUpdate(old(nodes)) == Some((u, nodes))
    {
      hide ReadCall, ReadAssignment;
      var node := NextNode();
      assert node.kind == ForUpdateNode;
      if Next(CallNode) {
        var call := NewMethodCall();
        u := Ir.UpdateCall(call);
      } else {
        var a := NewAssignment();
        u := Ir.UpdateAssignment(a);
      }
    }

    /** `ir_statement_new`. */
    method NewStatement() returns (s: Ir.Statement)
      requires ReadStatement(nodes).Some?
      modifies this
      ensures ReadStatement(old(nodes)) == Some((s, nodes))
      decreases |nodes|, 0
    {
      hide ReadIf, ReadFor, ReadExpression, ReadBlock, ReadCall, ReadAssignment;
      ghost var start := nodes;
      var node := NextNode();
      assert node.kind == StatementNode;
      assert nodes[1..] == start[2..] && nodes[0] == start[1];
      match nodes[0].kind
      case IfNode => s := NewIfStatement();
      case ForNode => s := NewForStatement();
      case WhileNode =>
        var while_ := NextNode();
        var condition := NewExpression();
        var body := NewBlock();
        s := Ir.While(condition, body);
      case ReturnNode =>
        var return_ := NextNode();
        s := Ir.Return(None);
        if Next(ExpressionNode) {
          var e := NewExpression();
          s := Ir.Return(Some(e));
        }
      case BreakNode =>
        var break_ := NextNode();
        s := Ir.Break;
      case ContinueNode =>
        var continue_ := NextNode();
        s := Ir.Continue;
      case CallNode =>
        var call := NewMethodCall();
        s := Ir.CallStatement(call);
      case AssignmentNode =>
        var a := NewAssignment();
        s := Ir.Assign(a);
    }

    /** `ir_if_statement_new`. */
    method NewIfStatement() returns (s: Ir.Statement)
      requires Next(IfNode) && ReadIf(nodes[1..]).Some?
      modifies this
      ensures ReadIf(old(nodes)[1..]) == Some((s, nodes))
      decreases |nodes|, 1
    {
      hide ReadExpression, ReadBlock;
      var node := NextNode();
      var condition := NewExpression();
      var ifBlock := NewBlock();
      s := Ir.If(condition, ifBlock, None);
      if Next(BlockNode) {
        var elseBlock := NewBlock();
        s := Ir.If(condition, ifBlock, Some(elseBlock));
      }
    }

    /** `ir_for_statement_new`. */
    method NewForStatement() returns (s: Ir.Statement)
      requires Next(ForNode) && ReadFor(nodes[1..]).Some?
      modifies this
      ensures ReadFor(old(nodes)[1..]) == Some((s, nodes))
      decreases |nodes|, 1
    {
      hide ReadExpression, ReadBlock, ReadForUpdate, ReadIdentifier;
      var node := NextNode();
      var id := IdentifierFromAst();
      var initial := NewExpression();
      var condition := NewExpression();
      var update := NewForUpdate();
      var body := NewBlock();
      s := Ir.For(Ir.Assignment(Ir.Location(id, None), Ir.Set, Some(initial)), condition, update, body);
    }

    /** `ir_block_new`. */
    method NewBlock() returns (b: Ir.Block)
      requires ReadBlock(nodes).Some?
      modifies this
      ensures ReadBlock(old(nodes)) == Some((b, nodes))
      decreases |nodes|, 0
    {
      hide ReadFields, ReadStatement;
      var node := NextNode();
      assert node.kind == BlockNode;
      var fields := IterateFields();
      var statements: seq<Ir.Statement> := [];
      ghost var all := ReadStatements(nodes).value;
      while Next(StatementNode)
        invariant |nodes| < |old(nodes)|
        invariant ReadStatements(nodes).Some?
        invariant all.0 == statements + ReadStatements(nodes).value.0 && all.1 == ReadStatements(nodes).value.1
        decreases |nodes|
      {
        ghost var before := nodes;
        var s := NewStatement();
        assert ReadStatements(before).value.0 == [s] + ReadStatements(nodes).value.0;
        statements := statements + [s];
      }
      assert statements + [] == statements;
      var end := NextNode();
      assert end.kind == BlockEnd;
      b := Ir.Block(fields, statements);
    }

    // ----- methods and programs -----

    /** `ir_method_new`, with its loop over the parameters. */
    method NewMethod() returns (m: Ir.Method)
      requires ReadMethod(nodes).Some?
      modifies this
      ensures ReadMethod(old(nodes)) == Some((m, nodes))
    {
      hide ReadBlock, ReadType, ReadIdentifier;
      var node := NextNode();
      assert node.kind == MethodNode;
      var returnType := DataTypeFromAst();
      var id := IdentifierFromAst();
      var parameters: seq<Ir.Field> := [];
      ghost var all := ReadParameters(nodes).value;
      while Next(MethodArgument)
        invariant ReadParameters(nodes).Some?
        invariant all.0 == parameters + ReadParameters(nodes).value.0 && all.1 == ReadParameters(nodes).value.1
        decreases |nodes|
      {
        ghost var before := nodes;
        var argument := NextNode();
        var base := DataTypeFromAst();
        var name := IdentifierFromAst();
        var f := Ir.Field(base, false, false, name, 1, None, false, false);
        assert ReadParameters(before).value.0 == [f] + ReadParameters(nodes).value.0;
        parameters := parameters + [f];
      }
      assert parameters + [] == parameters;
      var body := NewBlock();
      m := Ir.Method(returnType, id, parameters, body);
    }

    /** The loop over the imports, each read by `ir_method_new_from_import`. */
    method Imports() returns (imports: seq<string>)
      requires ReadImports(nodes).Some?
      modifies this
      ensures ReadImports(old(nodes)) == Some((imports, nodes))
    {
      hide ReadIdentifier;
      imports := [];
      ghost var all := ReadImports(nodes).value;
      while Next(ImportNode)
        invariant ReadImports(nodes).Some?
        invariant all.0 == imports + ReadImports(nodes).value.0 && all.1 == ReadImports(nodes).value.1
        decreases |nodes|
      {
        ghost var before := nodes;
        var node := NextNode();
        var id := IdentifierFromAst();
        assert ReadImports(before).value.0 == [id] + ReadImports(nodes).value.0;
        imports := imports + [id];
      }
      assert imports + [] == imports;
    }

    method Methods() returns (methods: seq<Ir.Method>)
      requires ReadMethods(nodes).Some?
      modifies this
      ensures ReadMethods(old(nodes)) == Some((methods, nodes))
    {
      hide ReadMethod;
      methods := [];
      ghost var all := ReadMethods(nodes).value;
      while Next(MethodNode)
        invariant ReadMethods(nodes).Some?
        invariant all.0 == methods + ReadMethods(nodes).value.0 && all.1 == ReadMethods(nodes).value.1
        decreases |nodes|
      {
        ghost var before := nodes;
        var m := NewMethod();
        assert ReadMethods(before).value.0 == [m] + ReadMethods(nodes).value.0;
        methods := methods + [m];
      }
      assert methods + [] == methods;
    }

    /** `ir_program_new`. */
    method NewProgram() returns (p: Ir.Program)
      requires ReadProgram(nodes).Some?
      modifies this
      ensures ReadProgram(old(nodes)) == Some((p, nodes))
    {
      hide ReadImports, ReadFields, ReadMethods;
      var node := NextNode();
      assert node.kind == ProgramNode;
      var imports := Imports();
      var fields := IterateFields();
      var methods := Methods();
      assert Next(ProgramEnd);
      p := Ir.Program(imports, fields, methods);
    }
  }
}
