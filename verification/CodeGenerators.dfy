/** The code generator as it runs: one object whose offsets table is filled method by method and
    whose output only grows, refining the functions of `CodeGeneration`. */
module CodeGenerators {
  import opened Words
  import opened Worlds
  import opened Llir
  import opened Machine
  import opened CodeGeneration
  import opened Programs
  import opened LinearCode
  import MachinePrograms
  import FrameLayout

  class CodeGenerator {
    const pinholeOptimize: bool
    var offsets: Offsets
    var output: seq<Instruction>

    constructor (pinholeOptimize: bool)
      ensures this.pinholeOptimize == pinholeOptimize && offsets == map[] && output == []
    {
      this.pinholeOptimize := pinholeOptimize;
      offsets, output := map[], [];
    }

    method Emit(code: seq<Instruction>)
      modifies this`output
      ensures output == old(output) + code
    {
      output := output + code;
    }

    // ----- operands -----

    method LoadToRegister(o: Operand, to: Register)
      modifies this`output
      ensures output == old(output) + Load(offsets, o, to)
    {
      match o
      case Literal(v) => Emit([MoveImmediate(v, to)]);
      case Field(name) =>
        var offset := if name in offsets then offsets[name] else 0;
        if offset != 0 {
          Emit([LoadSlot(offset, to)]);
        } else {
          Emit([LoadSymbol(name, to)]);
        }
      case Text(text) => Emit([AddressOfString(text, to)]);
    }

    method LoadArrayToRegister(name: string, to: Register)
      modifies this`output
      ensures output == old(output) + LoadArray(offsets, name, to)
    {
      var offset := if name in offsets then offsets[name] else 0;
      if offset != 0 {
        Emit([AddressOfSlot(offset, to)]);
      } else {
        Emit([AddressOfSymbol(name, to)]);
      }
    }

    method StoreFromRegister(name: string, from: Register)
      modifies this`output
      ensures output == old(output) + Save(offsets, name, from)
    {
      var offset := if name in offsets then offsets[name] else 0;
      if offset != 0 {
        Emit([StoreSlot(from, offset)]);
      } else {
        Emit([StoreSymbol(from, name)]);
      }
    }

    // ----- assignments -----

    method GenerateMethodCall(destination: string, callee: string, arguments: seq<Operand>)
      modifies this`output
      ensures output == old(output) + CallCode(offsets, destination, callee, arguments)
    {
      hide Load, Save, ArgumentsCode, ExtraStack;
      var count := |arguments|;
      var extra := ExtraStack(count);
      var grow := if count > 6 then [GrowStack(extra)] else [];
      var shrink := if count > 6 then [ShrinkStack(extra)] else [];
      var call := [MoveImmediate(0, Rax), CallMethod(callee, count)];
      Emit(grow);
      GenerateCallArguments(arguments);
      Emit(call);
      Emit(shrink);
      StoreFromRegister(destination, Rax);
      Regroup(old(output), grow, ArgumentsCode(offsets, arguments), call, shrink, Save(offsets, destination, Rax));
    }

    method GenerateCallArguments(arguments: seq<Operand>)
      modifies this`output
      ensures output == old(output) + ArgumentsCode(offsets, arguments)
    {
      hide Load;
      var i := 0;
      while i < |arguments|
        invariant 0 <= i <= |arguments|
        invariant output == old(output) + ArgumentsCode(offsets, arguments[..i])
      {
        assert arguments[..i + 1][..i] == arguments[..i];
        if i < 6 {
          LoadToRegister(arguments[i], ArgumentRegister(i));
        } else {
          LoadToRegister(arguments[i], R10);
          Emit([StoreOutgoing(R10, 8 * (i - 6))]);
        }
        i := i + 1;
      }
      assert arguments[..i] == arguments;
    }

    method GenerateAssignment(a: Assignment)
      modifies this`output
      ensures output == old(output) + AssignmentCode(offsets, a)
    {
      hide Load, Save, LoadArray, Operation, UnaryOperation, CallCode;
      assert forall s: seq<Instruction> :: [] + s == s;
      match a
      case Unary(op, d, s) =>
        LoadToRegister(s, R10);
        Emit(UnaryOperation(op));
        StoreFromRegister(d, UnaryResultRegister(op));
        Regroup(old(output), [], [], Load(offsets, s, R10), UnaryOperation(op),
          Save(offsets, d, UnaryResultRegister(op)));
      case Binary(op, d, l, r) =>
        LoadToRegister(l, R10);
        LoadToRegister(r, R11);
        Emit(Operation(op));
        StoreFromRegister(d, ResultRegister(op));
        Regroup(old(output), [], Load(offsets, l, R10), Load(offsets, r, R11), Operation(op),
          Save(offsets, d, ResultRegister(op)));
      case ArrayAccess(d, i, name) =>
        LoadArrayToRegister(name, R10);
        LoadToRegister(i, R11);
        Emit([Scale(R11), AddTo(R11, R10), LoadIndirect(R10, R11)]);
        StoreFromRegister(d, R11);
        Regroup(old(output), [], LoadArray(offsets, name, R10), Load(offsets, i, R11),
                [Scale(R11), AddTo(R11, R10), LoadIndirect(R10, R11)], Save(offsets, d, R11));
      case ArrayUpdate(d, i, v) =>
        LoadArrayToRegister(d, R10);
        LoadToRegister(i, R11);
        Emit([Scale(R11), AddTo(R11, R10)]);
        LoadToRegister(v, R11);
        Emit([StoreIndirect(R11, R10)]);
        Regroup(old(output), LoadArray(offsets, d, R10), Load(offsets, i, R11), [Scale(R11), AddTo(R11, R10)],
          Load(offsets, v, R11),
                [StoreIndirect(R11, R10)]);
      case Call(d, callee, arguments) => GenerateMethodCall(d, callee, arguments);
    }

    // ----- terminals -----

    method GenerateTerminal(t: Terminal, next: Option<BlockId>)
      requires !t.Unknown?
      modifies this`output
      ensures output == old(output) + TerminalCode(offsets, t, next, pinholeOptimize)
    {
      hide Load;
      match t
      case Jump(target) =>
        if pinholeOptimize && next == Some(target) {
          return;
        }
        Emit([JumpTo(target)]);
      case Branch(c, isUnsigned, l, r, _, falseBlock) =>
        LoadToRegister(l, R11);
        LoadToRegister(r, R10);
        Emit([CompareWith(R10, R11), JumpIf(c, isUnsigned, falseBlock)]);
      case Return(source) =>
        LoadToRegister(source, Rax);
        Emit([LeaveFrame, PopBase, ReturnToCaller]);
      case Exit(code) => Emit([MoveImmediate(code, Rdi), CallMethod("exit", 1)]);
    }

    // ----- methods -----

    /** `generate_stack_allocation`. */
    method GenerateStackAllocation(m: Method)
      modifies this
      ensures offsets == Allocate(old(offsets), MethodFields(m))
      ensures output == old(output) + [GrowStack(FrameSize(MethodFields(m)))]
    {
      hide Allocate, FrameBytes, LocalFields;
      var stackSize := 0;
      ghost var fields: seq<FieldDeclaration> := [];
      NothingLaidOut(offsets);
      var i := 0;
      while i < |m.arguments|
        invariant 0 <= i <= |m.arguments| && output == old(output)
        invariant fields == m.arguments[..i] && offsets == Allocate(old(offsets), fields) && stackSize
          == FrameBytes(fields)
      {
        OneMore(old(offsets), fields, m.arguments[i]);
        stackSize := stackSize + 8 * |m.arguments[i].values|;
        offsets := offsets[m.arguments[i].identifier := stackSize];
        fields := fields + [m.arguments[i]];
        i := i + 1;
      }
      var j := 0;
      var order, blocks := m.graph.order, m.graph.blocks;
      NoLocalFields(blocks);
      while j < |order|
        invariant 0 <= j <= |order| && output == old(output)
        invariant fields == m.arguments + LocalFields(order[..j], blocks)
        invariant offsets == Allocate(old(offsets), fields) && stackSize == FrameBytes(fields)
      {
        MoreLocalFields(order, blocks, j);
        if order[j] in blocks {
          stackSize := AllocateBlock(old(offsets), fields, stackSize, blocks[order[j]].fields);
          fields := fields + blocks[order[j]].fields;
        }
        j := j + 1;
      }
      assert order[..j] == order;
      if stackSize % 16 != 0 {
        stackSize := stackSize + 8;
      }
      Emit([GrowStack(stackSize)]);
    }

    method AllocateBlock(ghost start: Offsets, ghost fields: seq<FieldDeclaration>, size: nat,
                         declared: seq<FieldDeclaration>) returns (stackSize: nat)
      requires offsets == Allocate(start, fields) && size == FrameBytes(fields)
      modifies this`offsets
      ensures offsets == Allocate(start, fields + declared) && stackSize == FrameBytes(fields + declared)
    {
      hide Allocate, FrameBytes;
      stackSize := size;
      var k := 0;
      assert fields + declared[..0] == fields;
      while k < |declared|
        invariant 0 <= k <= |declared|
        invariant offsets == Allocate(start, fields + declared[..k]) && stackSize == FrameBytes(fields + declared[..k])
      {
        OneMore(start, fields + declared[..k], declared[k]);
        assert fields + declared[..k + 1] == (fields + declared[..k]) + [declared[k]];
        stackSize := stackSize + 8 * |declared[k].values|;
        offsets := offsets[declared[k].identifier := stackSize];
        k := k + 1;
      }
      assert declared[..k] == declared;
    }

    /** `generate_method_arguments`: every parameter has a slot by now. */
    method GenerateMethodArguments(parameters: seq<FieldDeclaration>)
      requires forall i :: 0 <= i < |parameters| ==> IsLocal(offsets, parameters[i].identifier)
      modifies this`output
      ensures output == old(output) + ParametersCode(offsets, parameters)
    {
      var i := 0;
      while i < |parameters|
        invariant 0 <= i <= |parameters|
        invariant output == old(output) + ParametersCode(offsets, parameters[..i])
      {
        assert parameters[..i + 1][..i] == parameters[..i];
        var offset := offsets[parameters[i].identifier];
        assert offset != 0;
        if i < 6 {
          Emit([StoreSlot(ArgumentRegister(i), offset)]);
        } else {
          Emit([LoadIncoming(8 * (i - 6) + 16, R10)]);
          Emit([StoreSlot(R10, offset)]);
        }
        i := i + 1;
      }
      assert parameters[..i] == parameters;
    }

    method GenerateGlobalFieldInitialization(field: FieldDeclaration)
      modifies this`output
      ensures output == old(output) + GlobalCode(field.identifier, field.values)
    {
      var i := 0;
      while i < |field.values|
        invariant 0 <= i <= |field.values|
        invariant output == old(output) + GlobalCode(field.identifier, field.values[..i])
      {
        assert field.values[..i + 1][..i] == field.values[..i];
        if field.values[i] != 0 {
          Emit([StoreSymbolAt(field.values[i], field.identifier, i)]);
        }
        i := i + 1;
      }
      assert field.values[..i] == field.values;
    }

    method GenerateGlobals(globals: seq<FieldDeclaration>)
      modifies this`output
      ensures output == old(output) + GlobalsCode(globals)
    {
      var i := 0;
      while i < |globals|
        invariant 0 <= i <= |globals|
        invariant output == old(output) + GlobalsCode(globals[..i])
      {
        assert globals[..i + 1][..i] == globals[..i];
        GenerateGlobalFieldInitialization(globals[i]);
        i := i + 1;
      }
      assert globals[..i] == globals;
    }

    /** `generate_method_declaration`. */
    method GenerateMethodDeclaration(globals: seq<FieldDeclaration>, name: string, m: Method)
      requires forall f :: f in MethodFields(m) ==> |f.values| > 0
      modifies this
      ensures offsets == Allocate(old(offsets), MethodFields(m))
      ensures output == old(output)
        + Prologue(offsets, m.arguments, FrameSize(MethodFields(m)), if name == "main" then globals else [])
    {
      hide Allocate, ParametersCode, GlobalsCode, FrameSize;
      Emit([PushBase]);
      Emit([EnterFrame]);
      GenerateStackAllocation(m);
      ParametersLocal(old(offsets), m);
      GenerateMethodArguments(m.arguments);
      if name != "main" {
        NoGlobals();
        return;
      }
      GenerateGlobals(globals);
    }

    /** `generate_method_body`. */
    method GenerateMethodBody(g: Graph)
      requires WellFormed(g)
      modifies this`output
      ensures output == old(output) + BodyCode(offsets, g.order, g.blocks, pinholeOptimize)
    {
      hide BlockCode, Closed, PredecessorsAgree;
      var i := 0;
      assert g.order[i..] == g.order;
      ghost var start := output;
      while i < |g.order|
        invariant 0 <= i <= |g.order|
        invariant start + BodyCode(offsets, g.order, g.blocks, pinholeOptimize)
          == output + BodyCode(offsets, g.order[i..], g.blocks, pinholeOptimize)
      {
        var b := g.order[i];
        assert b in g.order;
        ghost var rest := g.order[i..];
        assert rest[1..] == g.order[i + 1..] && rest[0] == b && (|rest| > 1 ==> rest[1] == g.order[i + 1]);
        var next := if i + 1 < |g.order| then Some(g.order[i + 1]) else None;
        BlockEnds(g, b);
        ghost var before := output;
        GenerateBlock(b, g.blocks[b], next);
        assert before + (BlockCode(offsets, b, g.blocks[b], next, pinholeOptimize)
          + BodyCode(offsets, rest[1..], g.blocks, pinholeOptimize))
            == output + BodyCode(offsets, rest[1..], g.blocks, pinholeOptimize);
        i := i + 1;
      }
      assert g.order[i..] == [];
    }

    method GenerateBlock(b: BlockId, block: Block, next: Option<BlockId>)
      requires !block.terminal.Unknown?
      modifies this`output
      ensures output == old(output) + BlockCode(offsets, b, block, next, pinholeOptimize)
    {
      hide AssignmentCode, TerminalCode;
      Emit([BlockLabel(b)]);
      ghost var start := output;
      var j := 0;
      assert block.assignments[j..] == block.assignments;
      while j < |block.assignments|
        invariant 0 <= j <= |block.assignments|
        invariant start + AssignmentsCode(offsets, block.assignments)
          == output + AssignmentsCode(offsets, block.assignments[j..])
      {
        assert block.assignments[j..][1..] == block.assignments[j + 1..];
        GenerateAssignment(block.assignments[j]);
        j := j + 1;
      }
      assert block.assignments[j..] == [];
      assert output == start + AssignmentsCode(offsets, block.assignments);
      ghost var code := AssignmentsCode(offsets, block.assignments);
      hide AssignmentsCode;
      GenerateTerminal(block.terminal, next);
      ghost var tail := TerminalCode(offsets, block.terminal, next, pinholeOptimize);
      assert output == old(output) + ([BlockLabel(b)] + (code + tail));
    }

    /** The code of one method, and the offsets it leaves for the next. */
    method GenerateMethod(globals: seq<FieldDeclaration>, name: string, m: Method) returns (code: seq<Instruction>)
      requires WellFormed(m.graph) && forall f :: f in MethodFields(m) ==> |f.values| > 0
      modifies this
      ensures code == MethodCode(old(offsets), globals, name, m, pinholeOptimize)
      ensures offsets == Allocate(old(offsets), MethodFields(m)) && output == old(output) + code
    {
      hide BodyCode, Prologue, WellFormed, Allocate;
      ghost var start := output;
      var before := |output|;
      GenerateMethodDeclaration(globals, name, m);
      GenerateMethodBody(m.graph);
      code := output[before..];
      assert output == start + code;
    }

    /** `generate_text_section`: all methods, in order. */
    method GenerateTextSection(p: Program, names: seq<string>) returns (code: map<string, seq<Instruction>>)
      requires forall n :: n in p.methods ==>
        WellFormed(p.methods[n].graph) && forall f :: f in MethodFields(p.methods[n]) ==> |f.values| > 0
      requires forall n :: n in names ==> n in p.methods
      requires offsets == map[]
      requires forall i, j :: 0 <= i < j < |names| ==> names[i] != names[j]
      modifies this
      ensures code == MachinePrograms.EmitProgram(names, p, pinholeOptimize).text
    {
      hide WellFormed, MethodCode, Allocate, MethodFields, MachinePrograms.EmitMethods;
      code := map[];
      var i := 0;
      assert names[i..] == names;
      while i < |names|
        invariant 0 <= i <= |names|
        invariant code.Keys == set k | 0 <= k < i :: names[k]
        invariant MachinePrograms.EmitMethods(map[], p.globals, names, p.methods, pinholeOptimize)
               == MachinePrograms.EmitMethods(offsets, p.globals, names[i..], p.methods, pinholeOptimize) + code
      {
        var name := names[i];
        assert name in names;
        NextEmitted(offsets, p, names, i, pinholeOptimize, code);
        var emitted := GenerateMethod(p.globals, name, p.methods[name]);
        code := code[name := emitted];
        i := i + 1;
      }
      assert names[i..] == [];
      NoneLeft(offsets, p, pinholeOptimize);
    }
  }

  lemma NextEmitted(offsets: Offsets, p: Program, names: seq<string>, i: nat, peephole: bool,
                    code: map<string, seq<Instruction>>)
    requires i < |names| && names[i] in p.methods && names[i] !in code
    ensures var m := p.methods[names[i]];
      MachinePrograms.EmitMethods(offsets, p.globals, names[i..], p.methods, peephole) + code
      == MachinePrograms.EmitMethods(Allocate(offsets, MethodFields(m)), p.globals, names[i + 1..], p.methods, peephole)
         + code[names[i] := MethodCode(offsets, p.globals, names[i], m, peephole)]
  {
    hide MethodCode, Allocate, MethodFields;
    assert names[i..][0] == names[i] && names[i..][1..] == names[i + 1..];
  }

  lemma NoneLeft(offsets: Offsets, p: Program, peephole: bool)
    ensures MachinePrograms.EmitMethods(offsets, p.globals, [], p.methods, peephole) == map[]
  {
  }

  lemma Regroup(start: seq<Instruction>, a: seq<Instruction>, b: seq<Instruction>, c: seq<Instruction>,
                d: seq<Instruction>, e: seq<Instruction>)
    ensures ((((start + a) + b) + c) + d) + e == start + (a + (b + (c + (d + e))))
    ensures start + [] == start
  {
  }

  lemma NothingLaidOut(offsets: Offsets)
    ensures Allocate(offsets, []) == offsets && FrameBytes([]) == 0
  {
  }

  lemma OneMore(offsets: Offsets, fields: seq<FieldDeclaration>, f: FieldDeclaration)
    ensures FrameBytes(fields + [f]) == FrameBytes(fields) + 8 * |f.values|
    ensures Allocate(offsets, fields + [f]) == Allocate(offsets, fields)[f.identifier := FrameBytes(fields + [f])]
  {
    assert (fields + [f])[..|fields|] == fields;
  }

  lemma NoLocalFields(blocks: map<BlockId, Block>)
    ensures LocalFields([], blocks) == []
  {
  }

  lemma MoreLocalFields(order: seq<BlockId>, blocks: map<BlockId, Block>, j: nat)
    requires j < |order|
    ensures LocalFields(order[..j + 1], blocks)
         == LocalFields(order[..j], blocks) + if order[j] in blocks then blocks[order[j]].fields else []
  {
    assert order[..j + 1][..j] == order[..j];
  }

  lemma NoGlobals()
    ensures GlobalsCode([]) == []
  {
  }

  lemma BlockEnds(g: Graph, b: BlockId)
    requires Closed(g) && b in g.blocks
    ensures !g.blocks[b].terminal.Unknown?
  {
  }

  lemma ParametersLocal(offsets: Offsets, m: Method)
    requires forall f :: f in MethodFields(m) ==> |f.values| > 0
    ensures forall i :: 0 <= i < |m.arguments| ==>
      IsLocal(Allocate(offsets, MethodFields(m)), m.arguments[i].identifier)
  {
    hide Allocate, LocalFields, FrameBytes;
    forall i | 0 <= i < |m.arguments| ensures IsLocal(Allocate(offsets, MethodFields(m)), m.arguments[i].identifier) {
      var f := m.arguments[i];
      assert f == MethodFields(m)[i] && f in MethodFields(m);
      FrameLayout.InsideFrame(MethodFields(m), offsets, f);
    }
  }
}
