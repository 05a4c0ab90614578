/** The generator as it runs: one object whose counters, loop stacks, symbol table and current block
    are updated statement by statement, refining the functions of `Lowering`. */
module LlirGenerators {
  import opened Words
  import opened Worlds
  import opened Llir
  import opened Names
  import opened Lowering
  import opened LoweringStructure
  import opened LlirMethods
  import opened MethodLowering
  import opened Programs
  import opened Compilation
  import Ir

  /** A stack of tables; lookup starts from the innermost. */
  class SymbolTable {
    var tables: SymbolTables

    constructor ()
      ensures tables == [map[]]
    {
      tables := [map[]];
    }

    method Set(identifier: string, field: FieldDeclaration)
      requires tables != []
      modifies this
      ensures tables == Insert(old(tables), identifier, field)
    {
      var last := |tables| - 1;
      tables := tables[last := tables[last][identifier := field]];
    }

    method Get(identifier: string) returns (r: Option<FieldDeclaration>)
      ensures r == Lookup(tables, identifier)
    {
      var i := |tables|;
      assert tables[..i] == tables;
      while i > 0
        invariant 0 <= i <= |tables|
        invariant Lookup(tables, identifier) == Lookup(tables[..i], identifier)
      {
        i := i - 1;
        assert tables[..i + 1][..i] == tables[..i];
        if identifier in tables[i] {
          return Some(tables[i][identifier]);
        }
      }
      return None;
    }

    method PushScope()
      modifies this
      ensures tables == old(tables) + [map[]]
    {
      tables := tables + [map[]];
    }

    method PopScope()
      requires tables != []
      modifies this
      ensures tables == old(tables)[..|old(tables)| - 1]
    {
      tables := tables[..|tables| - 1];
    }
  }

  class LlirGenerator {
    var temporaryCounter: nat
    var blockCounter: nat
    const symbolTable: SymbolTable
    var breakBlocks: seq<BlockId>
    var continueBlocks: seq<BlockId>

    // the current method
    var order: seq<BlockId>
    var finished: map<BlockId, Block>
    var predecessors: map<BlockId, seq<BlockId>>

    // the current block
    var currentBlock: BlockId
    var fields: seq<FieldDeclaration>
    var assignments: seq<Assignment>
    var terminal: Terminal

    function Value(): Generator
      reads this, symbolTable
    {
      Generator(temporaryCounter, blockCounter, symbolTable.tables, breakBlocks, continueBlocks, order, finished,
                currentBlock, fields, assignments)
    }

    /** Predecessor arrays are up to date with the terminals set so far. */
    ghost predicate Valid()
      reads this, symbolTable
    {
      Wf(Value()) && predecessors == PredecessorLists(order, finished)
    }

    constructor ()
      ensures fresh(symbolTable) && symbolTable.tables == [map[]]
      ensures temporaryCounter == 0 && blockCounter == 0 && breakBlocks == [] && continueBlocks == []
    {
      temporaryCounter, blockCounter, breakBlocks, continueBlocks := 0, 0, [], [];
      symbolTable := new SymbolTable();
      order, finished, predecessors := [], map[], map[];
      currentBlock, fields, assignments, terminal := 0, [], [], Unknown;
    }

    // ----- small steps -----

    method AddAssignment(a: Assignment)
      requires Valid()
      modifies this`assignments
      ensures Valid() && Value() == Append(old(Value()), a) && Untouched(old(Value()), Value())
    {
      assignments := assignments + [a];
    }

    method NewTemporary(prefix: char) returns (name: string)
      requires Valid()
      modifies this`temporaryCounter, this`fields
      ensures Valid() && (Value(), name) == Lowering.NewTemporary(old(Value()), prefix)
      ensures Untouched(old(Value()), Value())
    {
      name := TemporaryName(prefix, temporaryCounter);
      temporaryCounter := temporaryCounter + 1;
      fields := fields + [FieldDeclaration(name, false, [0])];
    }

    method NewBlock() returns (b: BlockId)
      requires Valid()
      modifies this`blockCounter
      ensures Valid() && (Value(), b) == Lowering.NewBlock(old(Value()))
      ensures Pending(Value(), b) && !Pending(old(Value()), b) && Untouched(old(Value()), Value())
    {
      b := blockCounter;
      blockCounter := blockCounter + 1;
    }

    /** `llir_block_set_terminal`: the current block joins its targets' predecessor arrays. */
    method SetTerminal(t: Terminal)
      modifies this`terminal, this`predecessors
      ensures terminal == t && predecessors == AddPredecessor(old(predecessors), Successors(t), currentBlock)
    {
      terminal := t;
      var targets := Successors(t);
      var i := 0;
      while i < |targets|
        invariant 0 <= i <= |targets| && terminal == t
        invariant AddPredecessor(old(predecessors), targets, currentBlock)
          == AddPredecessor(predecessors, targets[i..], currentBlock)
      {
        predecessors := predecessors[targets[i] := Listed(predecessors, targets[i]) + [currentBlock]];
        i := i + 1;
      }
    }

    /** `next_block`: the current block is appended to the method, `b` takes its place. */
    method NextBlock(b: BlockId)
      requires Wf(Value()) && Pending(Value(), b)
      requires predecessors == AddPredecessor(PredecessorLists(order, finished), Successors(terminal), currentBlock)
      modifies this`order, this`finished, this`currentBlock, this`fields, this`assignments
      ensures Valid() && Value() == Finish(old(Value()), terminal, b)
    {
      hide Wf, PredecessorLists, AddPredecessor, Pending, Finish;
      ghost var s, lists := Value(), PredecessorLists(order, finished);
      FinishWf(s, terminal, b);
      FinishParts(s, terminal, b);
      PredecessorsAfter(order, finished, currentBlock, Block(fields, assignments, terminal));
      order := order + [currentBlock];
      finished := finished[currentBlock := Block(fields, assignments, terminal)];
      currentBlock, fields, assignments := b, [], [];
      hide Finish;
    }

    /** A terminal and then the next block, as they always come. */
    method FinishBlock(t: Terminal, b: BlockId)
      requires Valid() && Pending(Value(), b)
      modifies this`order, this`finished, this`predecessors, this`currentBlock, this`fields, this`assignments,
      this`terminal
      ensures Valid() && Value() == Finish(old(Value()), t, b)
      ensures forall p :: Pending(old(Value()), p) && p != b ==> Pending(Value(), p)
    {
      ghost var s := Value();
      SetTerminal(t);
      assert Value() == s;
      hide Wf, PredecessorLists, AddPredecessor;
      NextBlock(b);
    }

    // ----- expressions -----

    method GenerateExpression(e: Ir.Expression) returns (o: Operand)
      requires Valid() && ScopedExpression(symbolTable.tables, e)
      modifies this
      ensures Valid() && (Value(), o) == Lowering.GenerateExpression(old(Value()), e)
      decreases e, 1
    {
      hide Wf, PredecessorLists, Append, Lowering.NewTemporary;
      ghost var s := Value();
      match e
      case Binary(op, l, r) =>
        if op == Ir.Or || op == Ir.And {
          o := GenerateShortCircuit(e);
        } else {
          ExpressionAdvances(s, l);
          var left := GenerateExpression(l);
          var right := GenerateExpression(r);
          var d := NewTemporary('$');
          AddAssignment(Assignment.Binary(ToAssignment(op), d, left, right));
          o := Field(d);
        }
      case Not(operand) =>
        var source := GenerateExpression(operand);
        var d := NewTemporary('$');
        AddAssignment(Unary(UnaryOperator.Not, d, source));
        o := Field(d);
      case Negate(operand) =>
        var source := GenerateExpression(operand);
        var d := NewTemporary('$');
        AddAssignment(Unary(UnaryOperator.Negate, d, source));
        o := Field(d);
      case Length(_, length) =>
        var d := NewTemporary('$');
        AddAssignment(Unary(Move, d, Literal(length)));
        o := Field(d);
      case Invoke(call) => o := GenerateCall(call);
      case Constant(l) =>
        assert l.value <= TWO_63;
        var d := NewTemporary('$');
        AddAssignment(Unary(Move, d, Literal(LiteralToInt64(l))));
        o := Field(d);
      case At(location) => o := GenerateLocation(location);
    }

    method GenerateLocation(location: Ir.Location) returns (o: Operand)
      requires Valid() && ScopedLocation(symbolTable.tables, location)
      modifies this
      ensures Valid() && (Value(), o) == Lowering.GenerateLocation(old(Value()), location)
      decreases location
    {
      hide Wf, PredecessorLists, Append, Lookup, Lowering.GenerateExpression;
      var field := symbolTable.Get(location.identifier);
      assert field.Some?;
      var d := NewTemporary('$');
      if location.index.None? {
        AddAssignment(Unary(Move, d, Field(field.value.identifier)));
      } else {
        var index := GenerateExpression(location.index.value);
        AddAssignment(ArrayAccess(d, index, field.value.identifier));
      }
      o := Field(d);
    }

    method GenerateCall(call: Ir.MethodCall) returns (o: Operand)
      requires Valid() && ScopedCall(symbolTable.tables, call)
      modifies this
      ensures Valid() && (Value(), o) == Lowering.GenerateCall(old(Value()), call)
      decreases call
    {
      hide Wf, PredecessorLists, Append, Lowering.GenerateArguments, ScopedArguments;
      var d := NewTemporary('$');
      var arguments := GenerateArguments(call.arguments);
      AddAssignment(Call(d, call.identifier, arguments));
      o := Field(d);
    }

    method GenerateArguments(all: seq<Ir.CallArgument>) returns (arguments: seq<Operand>)
      requires Valid() && ScopedArguments(symbolTable.tables, all)
      modifies this
      ensures Valid() && (Value(), arguments) == Lowering.GenerateArguments(old(Value()), all)
      decreases all
    {
      hide Wf, PredecessorLists, ScopedArgument, Lowering.GenerateArgument, Grows;
      ghost var s := Value();
      arguments := [];
      var i := 0;
      assert all[i..] == all && arguments + Lowering.GenerateArguments(s, all).1
        == Lowering.GenerateArguments(s, all).1;
      while i < |all|
        invariant 0 <= i <= |all|
        invariant Valid() && symbolTable.tables == s.symbols
        invariant ScopedArguments(symbolTable.tables, all[i..])
        invariant var (s2, rest) := Lowering.GenerateArguments(Value(), all[i..]);
          Lowering.GenerateArguments(s, all) == (s2, arguments + rest)
      {
        assert all[i..][1..] == all[i + 1..];
        ArgumentAdvances(Value(), all[i]);
        var operand := GenerateArgument(all[i]);
        ghost var rest := Lowering.GenerateArguments(Value(), all[i + 1..]).1;
        assert arguments + ([operand] + rest) == (arguments + [operand]) + rest;
        arguments := arguments + [operand];
        i := i + 1;
      }
      assert all[i..] == [] && arguments + [] == arguments;
    }

    method GenerateArgument(argument: Ir.CallArgument) returns (o: Operand)
      requires Valid() && ScopedArgument(symbolTable.tables, argument)
      modifies this
      ensures Valid() && (Value(), o) == Lowering.GenerateArgument(old(Value()), argument)
      decreases argument
    {
      hide Wf, PredecessorLists, Lowering.GenerateExpression, ScopedExpression;
      match argument
      case StringArgument(text) => o := Text(text);
      case ValueArgument(e) => o := GenerateExpression(e);
    }

    method GenerateShortCircuit(e: Ir.Expression) returns (o: Operand)
      requires e.Binary? && (e.op == Ir.Or || e.op == Ir.And)
      requires Valid() && ScopedExpression(symbolTable.tables, e)
      modifies this
      ensures Valid() && (Value(), o) == Lowering.GenerateShortCircuit(old(Value()), e)
      decreases e, 0
    {
      hide Wf, Grows, PredecessorLists, Lowering.GenerateExpression, Append, Finish, Lowering.NewTemporary, Pending;
      var d := NewTemporary('#');
      ExpressionAdvances(Value(), e.left);
      var left := GenerateExpression(e.left);
      AddAssignment(Unary(Move, d, left));
      var trueBlock := NewBlock();
      var falseBlock := NewBlock();
      FinishBlock(Branch(if e.op == Ir.Or then IfEqual else IfNotEqual, false, left, Literal(1), trueBlock, falseBlock),
        trueBlock);
      ExpressionAdvances(Value(), e.right);
      var right := GenerateExpression(e.right);
      AddAssignment(Unary(Move, d, right));
      FinishBlock(Jump(falseBlock), falseBlock);
      o := Field(d);
    }

    // ----- fields -----

    method GenerateField(f: Ir.Field) returns (field: FieldDeclaration)
      requires symbolTable.tables != []
      modifies symbolTable
      ensures symbolTable.tables == Declare(old(symbolTable.tables), f)
      ensures field == MakeField(f, |old(symbolTable.tables)| - 1)
    {
      field := MakeField(f, |symbolTable.tables| - 1);
      symbolTable.Set(f.identifier, field);
    }

    method GenerateFieldInitialization(field: FieldDeclaration)
      requires Valid() && (!field.isArray ==> |field.values| == 1)
      modifies this`assignments
      ensures Valid() && Value() == InitializeField(old(Value()), field)
    {
      hide Wf, PredecessorLists;
      if !field.isArray {
        AddAssignment(Unary(Move, field.identifier, Literal(field.values[0])));
        return;
      }
      ghost var s := Value();
      var i := 0;
      while i < |field.values|
        invariant 0 <= i <= |field.values|
        invariant Valid() && Value() == InitializeElements(s, field.identifier, field.values[..i])
      {
        assert field.values[..i + 1][..i] == field.values[..i];
        AddAssignment(ArrayUpdate(field.identifier, Literal(Wrap(i)), Literal(field.values[i])));
        i := i + 1;
      }
      assert field.values[..i] == field.values;
    }

    // ----- statements -----

    method GenerateBoundsCheck(index: Operand, length: nat)
      requires Valid()
      modifies this
      ensures Valid() && Value() == Lowering.GenerateBoundsCheck(old(Value()), index, length)
    {
      hide Wf, PredecessorLists, Finish, Pending;
      var trueBlock := NewBlock();
      var falseBlock := NewBlock();
      FinishBlock(Branch(IfLess, true, index, Literal(Wrap(length)), trueBlock, falseBlock), trueBlock);
      FinishBlock(Exit(-1), falseBlock);
    }

    /** The index of the assigned element, checked. */
    method GenerateIndex(location: Ir.Location, field: FieldDeclaration) returns (index: Operand)
      requires Valid() && ScopedLocation(symbolTable.tables, location)
        && Lookup(symbolTable.tables, location.identifier) == Some(field)
      modifies this
      ensures Valid() && (Value(), index) == Lowering.GenerateIndex(old(Value()), location)
    {
      hide Wf, PredecessorLists, Lowering.GenerateExpression, Lowering.GenerateBoundsCheck;
      index := Literal(0);
      if location.index.Some? {
        index := GenerateExpression(location.index.value);
        GenerateBoundsCheck(index, |field.values|);
      }
    }

    method GenerateAssignment(a: Ir.Assignment)
      requires Valid() && ScopedAssignment(symbolTable.tables, a, {})
      modifies this
      ensures Valid() && Value() == Lowering.GenerateAssignment(old(Value()), a)
    {
      hide Wf, Grows, PredecessorLists, Lookup, Lowering.GenerateExpression, Lowering.GenerateIndex, Append,
        Lowering.NewTemporary;
      var field := symbolTable.Get(a.location.identifier);
      assert field.Some?;
      var destination := field.value.identifier;
      IndexAdvances(Value(), a.location);
      var index := GenerateIndex(a.location, field.value);
      var source := Literal(1);
      if a.expression.Some? {
        source := GenerateExpression(a.expression.value);
      }
      if a.op != Ir.Set {
        var previous := NewTemporary('$');
        AddAssignment(if a.location.index.Some? then ArrayAccess(previous, index, destination)
          else Unary(Move, previous, Field(destination)));
        var d := NewTemporary('$');
        AddAssignment(Assignment.Binary(ToAssignment(Ir.Compound(a.op)), d, Field(previous), source));
        source := Field(d);
      }
      AddAssignment(if a.location.index.Some? then ArrayUpdate(destination, index, source)
        else Unary(Move, destination, source));
    }

    method GenerateUpdate(u: Ir.ForUpdate)
      requires Valid() && ScopedUpdate(symbolTable.tables, u, {})
      modifies this
      ensures Valid() && Value() == Lowering.GenerateUpdate(old(Value()), u)
    {
      hide Wf, PredecessorLists, Lowering.GenerateAssignment, Lowering.GenerateCall;
      match u
      case UpdateAssignment(a) => GenerateAssignment(a);
      case UpdateCall(call) => var ignored := GenerateCall(call);
    }

    method PushLoop(breakBlock: BlockId, continueBlock: BlockId)
      requires Valid()
      modifies this`breakBlocks, this`continueBlocks
      ensures Valid() && Value() == Lowering.PushLoop(old(Value()), breakBlock, continueBlock)
      ensures Untouched(old(Value()), Value())
    {
      breakBlocks := breakBlocks + [breakBlock];
      continueBlocks := continueBlocks + [continueBlock];
    }

    method PopLoop()
      requires Valid()
      requires breakBlocks != [] && continueBlocks != []
      modifies this`breakBlocks, this`continueBlocks
      ensures Valid() && Value() == Lowering.PopLoop(old(Value()))
    {
      breakBlocks := breakBlocks[..|breakBlocks| - 1];
      continueBlocks := continueBlocks[..|continueBlocks| - 1];
    }

    method GenerateStatement(stmt: Ir.Statement, ghost inLoop: bool)
      requires Valid() && symbolTable.tables != [] && ScopedStatement(symbolTable.tables, stmt, inLoop, {})
      requires inLoop ==> breakBlocks != [] && continueBlocks != []
      modifies this, symbolTable
      ensures Valid() && Value() == Lowering.GenerateStatement(old(Value()), stmt)
      decreases stmt, 1
    {
      hide Wf, PredecessorLists, Lowering.GenerateAssignment, Lowering.GenerateCall, Lowering.GenerateExpression,
        Lowering.GenerateIf, Lowering.GenerateFor, Lowering.GenerateWhile, Finish, Pending;
      match stmt
      case Assign(a) => GenerateAssignment(a);
      case CallStatement(call) => var ignored := GenerateCall(call);
      case If(_, _, _) => GenerateIf(stmt, inLoop);
      case For(_, _, _, _) => GenerateFor(stmt);
      case While(_, _) => GenerateWhile(stmt);
      case Return(value) =>
        var source := Literal(0);
        if value.Some? {
          source := GenerateExpression(value.value);
        }
        var next := NewBlock();
        FinishBlock(Terminal.Return(source), next);
      case Break =>
        assert |breakBlocks| > 0;
        var target := breakBlocks[|breakBlocks| - 1];
        var next := NewBlock();
        FinishBlock(Jump(target), next);
      case Continue =>
        assert |continueBlocks| > 0;
        var target := continueBlocks[|continueBlocks| - 1];
        var next := NewBlock();
        FinishBlock(Jump(target), next);
    }

    method GenerateIf(stmt: Ir.Statement, ghost inLoop: bool)
      requires stmt.If?
      requires Valid() && symbolTable.tables != [] && ScopedStatement(symbolTable.tables, stmt, inLoop, {})
      requires inLoop ==> breakBlocks != [] && continueBlocks != []
      modifies this, symbolTable
      ensures Valid() && Value() == Lowering.GenerateIf(old(Value()), stmt)
      decreases stmt, 0
    {
      hide Wf, Grows, PredecessorLists, Lowering.GenerateExpression, Lowering.GenerateBlock, Finish, Pending,
        ScopedBlock;
      ExpressionAdvances(Value(), stmt.condition);
      var value := GenerateExpression(stmt.condition);
      var trueBlock := NewBlock();
      var falseBlock := NewBlock();
      ghost var ready := Value();
      FinishBlock(SkipIfZero(value, trueBlock, falseBlock), trueBlock);
      FinishScope(ready, SkipIfZero(value, trueBlock, falseBlock), trueBlock);
      BlockAdvances(Value(), stmt.ifBlock);
      GenerateBlock(stmt.ifBlock, true, inLoop);
      match stmt.elseBlock
      case None => FinishBlock(Jump(falseBlock), falseBlock);
      case Some(other) =>
        var endBlock := NewBlock();
        ready := Value();
        FinishBlock(Jump(endBlock), falseBlock);
        FinishScope(ready, Jump(endBlock), falseBlock);
        BlockAdvances(Value(), other);
        GenerateBlock(other, true, inLoop);
        FinishBlock(Jump(endBlock), endBlock);
    }

    /** The four blocks of a `for`, its loop stack entries, and the way into the condition. */
    method OpenFor() returns (conditionBlock: BlockId, loopBlock: BlockId, updateBlock: BlockId, endBlock: BlockId)
      requires Valid()
      modifies this
      ensures Valid() && Value() == Lowering.OpenFor(old(Value())) && symbolTable.tables == old(symbolTable.tables)
      ensures breakBlocks == old(breakBlocks) + [endBlock] && continueBlocks == old(continueBlocks) + [updateBlock]
      ensures Pending(Value(), loopBlock) && Pending(Value(), updateBlock) && Pending(Value(), endBlock)
      ensures conditionBlock == old(blockCounter) && loopBlock == conditionBlock + 1 && updateBlock == loopBlock + 1
        && endBlock == updateBlock + 1
    {
      hide Wf, PredecessorLists, Finish, Pending;
      conditionBlock := NewBlock();
      loopBlock := NewBlock();
      updateBlock := NewBlock();
      endBlock := NewBlock();
      PushLoop(endBlock, updateBlock);
      FinishScope(Value(), Jump(conditionBlock), conditionBlock);
      FinishBlock(Jump(conditionBlock), conditionBlock);
    }

    method OpenWhile() returns (conditionBlock: BlockId, loopBlock: BlockId, endBlock: BlockId)
      requires Valid()
      modifies this
      ensures Valid() && Value() == Lowering.OpenWhile(old(Value())) && symbolTable.tables == old(symbolTable.tables)
      ensures breakBlocks == old(breakBlocks) + [endBlock] && continueBlocks == old(continueBlocks) + [conditionBlock]
      ensures Pending(Value(), loopBlock) && Pending(Value(), endBlock)
      ensures conditionBlock == old(blockCounter) && loopBlock == conditionBlock + 1 && endBlock == loopBlock + 1
    {
      hide Wf, PredecessorLists, Finish, Pending;
      conditionBlock := NewBlock();
      loopBlock := NewBlock();
      endBlock := NewBlock();
      PushLoop(endBlock, conditionBlock);
      FinishScope(Value(), Jump(conditionBlock), conditionBlock);
      FinishBlock(Jump(conditionBlock), conditionBlock);
    }

    method GenerateFor(stmt: Ir.Statement)
      requires stmt.For?
      requires Valid() && symbolTable.tables != [] && ScopedStatement(symbolTable.tables, stmt, true, {})
      modifies this, symbolTable
      ensures Valid() && Value() == Lowering.GenerateFor(old(Value()), stmt)
      decreases stmt, 0
    {
      hide Wf, Grows, PredecessorLists, Lowering.GenerateExpression, Lowering.GenerateBlock, Finish, Pending,
        ScopedBlock, Lowering.GenerateAssignment, Lowering.GenerateUpdate, ScopedAssignment, ScopedUpdate,
        ScopedExpression, Lowering.OpenFor;
      AssignmentAdvances(Value(), stmt.initial);
      GenerateAssignment(stmt.initial);
      var conditionBlock, loopBlock, updateBlock, endBlock := OpenFor();
      GenerateRound(stmt.condition, stmt.body, loopBlock, endBlock, updateBlock);
      GenerateForEnd(stmt.update, conditionBlock, updateBlock, endBlock);
    }

    /** The update block, the way back to the condition, and on after the loop. */
    method GenerateForEnd(update: Ir.ForUpdate, conditionBlock: BlockId, updateBlock: BlockId, endBlock: BlockId)
      requires Valid() && ScopedUpdate(symbolTable.tables, update, {})
      requires Pending(Value(), updateBlock) && Pending(Value(), endBlock) && updateBlock != endBlock
      requires breakBlocks != [] && continueBlocks != []
      modifies this
      ensures Valid()
      ensures var s := Lowering.GenerateUpdate(Finish(old(Value()), Jump(updateBlock), updateBlock), update);
              Value() == Lowering.PopLoop(Finish(s, Jump(conditionBlock), endBlock))
    {
      hide Wf, Grows, PredecessorLists, Finish, Pending, Lowering.GenerateUpdate, ScopedUpdate;
      ghost var ready := Value();
      FinishBlock(Jump(updateBlock), updateBlock);
      FinishScope(ready, Jump(updateBlock), updateBlock);
      UpdateAdvances(Value(), update);
      GenerateUpdate(update);
      ready := Value();
      FinishBlock(Jump(conditionBlock), endBlock);
      FinishScope(ready, Jump(conditionBlock), endBlock);
      PopLoop();
    }

    /** The condition in the current block, the body in `loopBlock`. */
    method GenerateRound(condition: Ir.Expression, body: Ir.Block, loopBlock: BlockId, endBlock: BlockId,
                         ghost other: BlockId)
      requires Valid() && symbolTable.tables != []
      requires ScopedExpression(symbolTable.tables, condition) && ScopedBlock(symbolTable.tables, body, true, {})
      requires breakBlocks != [] && continueBlocks != []
      requires Pending(Value(), loopBlock) && Pending(Value(), endBlock) && Pending(Value(), other)
      requires loopBlock != endBlock && loopBlock != other
      modifies this, symbolTable
      ensures Valid() && SameScope(old(Value()), Value())
      ensures var (s1, value) := Lowering.GenerateExpression(old(Value()), condition);
              Value() == Lowering.GenerateBlock(Finish(s1, SkipIfZero(value, loopBlock, endBlock), loopBlock), body)
      ensures Pending(Value(), endBlock) && Pending(Value(), other)
      decreases body, 1
    {
      hide Wf, Grows, PredecessorLists, Lowering.GenerateExpression, Lowering.GenerateBlock, Finish, Pending,
        ScopedBlock, ScopedExpression;
      ExpressionAdvances(Value(), condition);
      var value := GenerateExpression(condition);
      ghost var ready := Value();
      FinishBlock(SkipIfZero(value, loopBlock, endBlock), loopBlock);
      FinishScope(ready, SkipIfZero(value, loopBlock, endBlock), loopBlock);
      BlockAdvances(Value(), body);
      GenerateBlock(body, true, true);
    }

    method GenerateWhile(stmt: Ir.Statement)
      requires stmt.While?
      requires Valid() && symbolTable.tables != [] && ScopedStatement(symbolTable.tables, stmt, true, {})
      modifies this, symbolTable
      ensures Valid() && Value() == Lowering.GenerateWhile(old(Value()), stmt)
      decreases stmt, 0
    {
      hide Wf, Grows, PredecessorLists, Lowering.GenerateExpression, Lowering.GenerateBlock, Finish, Pending,
        ScopedBlock, ScopedExpression, Lowering.OpenWhile;
      var conditionBlock, loopBlock, endBlock := OpenWhile();
      GenerateRound(stmt.condition, stmt.body, loopBlock, endBlock, endBlock);
      ghost var ready := Value();
      FinishBlock(Jump(conditionBlock), endBlock);
      FinishScope(ready, Jump(conditionBlock), endBlock);
      PopLoop();
    }

    /** `generate_block`: the body of a method shares the scope of its parameters. */
    method GenerateBlock(b: Ir.Block, newScope: bool, ghost inLoop: bool)
      requires Valid() && symbolTable.tables != []
      requires if newScope then ScopedBlock(symbolTable.tables, b, inLoop, {})
               else ScopedStatements(DeclareAll(symbolTable.tables, b.fields), b.statements, inLoop, {})
                    && forall f :: f in b.fields ==> Ir.WellDeclared(f)
      requires inLoop ==> breakBlocks != [] && continueBlocks != []
      modifies this, symbolTable
      ensures Valid()
      ensures Value() == if newScope then Lowering.GenerateBlock(old(Value()), b)
                         else GenerateStatements(GenerateFields(old(Value()), b.fields), b.statements)
      decreases b, 0
    {
      hide Wf, Grows, PredecessorLists, Lowering.GenerateStatement, Lowering.GenerateField, ScopedStatement,
        ValidIdentifier, Ir.WellDeclared;
      ghost var s := Value();
      if newScope {
        symbolTable.PushScope();
      }
      ghost var s1 := Value();
      AdvancesReflexive(s);
      ScopeChangeAdvances(s, s, s1);
      GenerateLocals(b.fields);
      FieldsAdvance(s1, b.fields);
      var i := 0;
      ghost var s2 := Value();
      StatementsAdvance(s2, b.statements);
      assert b.statements[i..] == b.statements;
      while i < |b.statements|
        invariant 0 <= i <= |b.statements|
        invariant Valid() && symbolTable.tables != [] && SameScope(s2, Value())
        invariant ScopedStatements(symbolTable.tables, b.statements[i..], inLoop, {})
        invariant GenerateStatements(s2, b.statements) == GenerateStatements(Value(), b.statements[i..])
      {
        assert b.statements[i..][1..] == b.statements[i + 1..];
        StatementAdvances(Value(), b.statements[i]);
        GenerateStatement(b.statements[i], inLoop);
        i := i + 1;
      }
      assert b.statements[i..] == [];
      if newScope {
        PoppedScope(s.symbols, b.fields);
        ScopeKeepsWf(Value(), s.symbols, fields);
        symbolTable.PopScope();
      }
    }

    method GenerateLocal(f: Ir.Field)
      requires Valid() && symbolTable.tables != [] && Ir.WellDeclared(f)
      modifies this, symbolTable
      ensures Valid() && Value() == Lowering.GenerateField(old(Value()), f) && symbolTable.tables != []
    {
      hide Wf, PredecessorLists;
      ghost var before := Value();
      var field := GenerateField(f);
      fields := fields + [field];
      ScopeKeepsWf(before, symbolTable.tables, fields);
      assert Value() == AddField(before.(symbols := Declare(before.symbols, f)), field);
      ghost var s := Value();
      GenerateFieldInitialization(field);
      InitializeFieldScope(s, field);
    }

    method GenerateLocals(locals: seq<Ir.Field>)
      requires Valid() && symbolTable.tables != [] && forall f :: f in locals ==> Ir.WellDeclared(f)
      modifies this, symbolTable
      ensures Valid() && Value() == GenerateFields(old(Value()), locals)
    {
      hide Wf, PredecessorLists, AddField, Declare, InitializeField, Ir.WellDeclared;
      ghost var s := Value();
      var i := 0;
      while i < |locals|
        invariant 0 <= i <= |locals|
        invariant Valid() && symbolTable.tables != [] && Value() == GenerateFields(s, locals[..i])
      {
        assert locals[..i + 1][..i] == locals[..i];
        assert locals[i] in locals;
        GenerateLocal(locals[i]);
        i := i + 1;
      }
      assert locals[..i] == locals;
    }

    // ----- methods -----

    /** `generate_method`: the parameters and the body share one scope. */
    method GenerateMethod(m: Ir.Method) returns (r: LlirMethod)
      requires |symbolTable.tables| == 1 && ScopedMethod(symbolTable.tables[0], m, {})
      requires breakBlocks == [] && continueBlocks == []
      modifies this, symbolTable
      ensures fresh(r) && r.identifier == m.identifier && r.arguments == Parameters(m.arguments)
      ensures r.Value() == Lowering.GenerateMethod(old(symbolTable.tables)[0], m, old(temporaryCounter),
        old(blockCounter))
      ensures symbolTable.tables == old(symbolTable.tables) && breakBlocks == [] && continueBlocks == []
      ensures var s := GenerateBody(old(symbolTable.tables)[0], m, old(temporaryCounter), old(blockCounter));
              temporaryCounter == s.temporaries && blockCounter == s.nextBlock
    {
      hide Lowering.GenerateStatements, GenerateFields, ScopedStatements, ValidIdentifier, Ir.WellDeclared,
        AddPredecessor;
      ghost var globals, temporaries, nextBlock := symbolTable.tables[0], temporaryCounter, blockCounter;
      assert symbolTable.tables == [globals];
      var arguments := OpenMethod(m, globals);
      DeclareAllConcatenation([globals, map[]], m.arguments, m.body.fields);
      BodyDeclared(m);
      GenerateBlock(m.body, false, false);
      ghost var s := Value();
      assert s == GenerateBody(globals, m, temporaries, nextBlock);
      BodyScope(globals, m, temporaries, nextBlock);
      SetTerminal(LastTerminal(m));
      hide Wf, PredecessorLists;
      r := CloseMethod(m.identifier, arguments, LastTerminal(m));
      symbolTable.PopScope();
    }

    /** A new scope with the parameters, and the first block. */
    method OpenMethod(m: Ir.Method, ghost globals: map<string, FieldDeclaration>)
      returns (arguments: seq<FieldDeclaration>)
      requires symbolTable.tables == [globals] && breakBlocks == [] && continueBlocks == []
      modifies this, symbolTable
      ensures Valid() && Value() == BeforeBody(globals, m, old(temporaryCounter), old(blockCounter))
      ensures arguments == Parameters(m.arguments)
    {
      hide Wf, PredecessorLists, DeclareAll, Parameters;
      BeforeBodyWf(globals, m, temporaryCounter, blockCounter);
      symbolTable.PushScope();
      assert symbolTable.tables == [globals, map[]];
      arguments := GenerateParameters(m.arguments);
      order, finished, predecessors := [], map[], map[];
      currentBlock, fields, assignments := blockCounter, [], [];
      blockCounter := blockCounter + 1;
    }

    method GenerateParameters(parameters: seq<Ir.Field>) returns (arguments: seq<FieldDeclaration>)
      requires |symbolTable.tables| == 2
      modifies symbolTable
      ensures symbolTable.tables == DeclareAll(old(symbolTable.tables), parameters) && arguments
        == Parameters(parameters)
    {
      arguments := [];
      var i := 0;
      while i < |parameters|
        invariant 0 <= i <= |parameters|
        invariant |symbolTable.tables| == 2 && symbolTable.tables
          == DeclareAll(old(symbolTable.tables), parameters[..i])
        invariant arguments == Parameters(parameters[..i])
      {
        assert parameters[..i + 1][..i] == parameters[..i];
        var field := GenerateField(parameters[i]);
        arguments := arguments + [field];
        i := i + 1;
      }
      assert parameters[..i] == parameters;
    }

    /** The last block joins the method, and the method is complete. */
    method CloseMethod(identifier: string, arguments: seq<FieldDeclaration>, t: Terminal) returns (r: LlirMethod)
      requires Wf(Value()) && terminal == t
      requires predecessors == AddPredecessor(PredecessorLists(order, finished), Successors(t), currentBlock)
      ensures fresh(r) && r.identifier == identifier && r.arguments == arguments
      ensures r.Value() == Assembled(order + [currentBlock], Blocks(Value(), t))
    {
      WfCurrent(Value());
      hide Wf, PredecessorLists, AddPredecessor;
      var last := Block(fields, assignments, terminal);
      PredecessorsAfter(order, finished, currentBlock, last);
      var blocks := finished[currentBlock := last];
      r := new LlirMethod(identifier, arguments, Graph(order + [currentBlock], blocks, map b | b in blocks ::
        Listed(predecessors, b)));
    }

    method GenerateGlobals(all: seq<Ir.Field>) returns (globals: seq<FieldDeclaration>)
      requires symbolTable.tables == [map[]]
      modifies symbolTable
      ensures symbolTable.tables == DeclareAll([map[]], all) && globals == GlobalDeclarations(all)
    {
      globals := [];
      var i := 0;
      while i < |all|
        invariant 0 <= i <= |all|
        invariant |symbolTable.tables| == 1 && symbolTable.tables == DeclareAll([map[]], all[..i])
        invariant globals == GlobalDeclarations(all[..i])
      {
        assert all[..i + 1][..i] == all[..i];
        var field := GenerateField(all[i]);
        globals := globals + [field];
        i := i + 1;
      }
      assert all[..i] == all;
    }

    /** `generate_llir`: the globals at level 0, then one method after another. */
    method GenerateLlir(p: Ir.Program) returns (globals: seq<FieldDeclaration>, methods: seq<LlirMethod>)
      requires symbolTable.tables == [map[]] && breakBlocks == [] && continueBlocks == []
      requires Accepted(p, Free)
      modifies this, symbolTable
      ensures Program(globals, Collected(Values(methods), map[])) == GenerateProgram(p)
    {
      hide ScopedMethod, Lowering.GenerateMethod, GenerateBody, ValidIdentifier, Ir.WellDeclared;
      temporaryCounter, blockCounter := 0, 0;
      globals := GenerateGlobals(p.fields);
      ghost var table := GlobalSymbols(p.fields);
      assert symbolTable.tables == [table];

      methods := [];
      var j := 0;
      assert p.methods[j..] == p.methods;
      while j < |p.methods|
        invariant 0 <= j <= |p.methods|
        invariant symbolTable.tables == [table] && breakBlocks == [] && continueBlocks == []
        invariant forall k :: 0 <= k < |methods| ==> allocated(methods[k])
        invariant GenerateMethods(table, p.methods, 0, 0)
               == Collected(Values(methods), GenerateMethods(table, p.methods[j..], temporaryCounter, blockCounter))
      {
        assert p.methods[j..][0] == p.methods[j] && p.methods[j..][1..] == p.methods[j + 1..];
        assert p.methods[j] in p.methods;
        ghost var values := Values(methods);
        var r := GenerateMethod(p.methods[j]);
        ghost var rest := GenerateMethods(table, p.methods[j + 1..], temporaryCounter, blockCounter);
        assert Values(methods) == values;
        CollectedLast(values, (r.identifier, Method(r.arguments, r.Value())), rest);
        methods := methods + [r];
        assert Values(methods) == values + [(r.identifier, Method(r.arguments, r.Value()))];
        j := j + 1;
      }
      assert p.methods[j..] == [];
    }
  }

  /** The methods as values. */
  function Values(methods: seq<LlirMethod>): (r: seq<(string, Method)>)
    reads methods
    ensures |r| == |methods|
  {
    if methods == [] then []
    else
      var m := methods[|methods| - 1];
      Values(methods[..|methods| - 1]) + [(m.identifier, Method(m.arguments, m.Value()))]
  }

  /** By name; of two methods of one name the first counts. */
  function Collected(values: seq<(string, Method)>, rest: map<string, Method>): map<string, Method> {
    if values == [] then rest else Collected(values[1..], rest)[values[0].0 := values[0].1]
  }

  lemma {:induction false} CollectedLast(values: seq<(string, Method)>, last: (string, Method),
                                         rest: map<string, Method>)
    ensures Collected(values + [last], rest) == Collected(values, rest[last.0 := last.1])
  {
    if values != [] {
      assert (values + [last])[1..] == values[1..] + [last];
      CollectedLast(values[1..], last, rest);
    }
  }

  lemma WfCurrent(s: Generator)
    requires Wf(s)
    ensures s.current !in s.order
  {
  }

  lemma BeforeBodyWf(globals: map<string, FieldDeclaration>, m: Ir.Method, temporaries: nat, nextBlock: nat)
    ensures Wf(BeforeBody(globals, m, temporaries, nextBlock)) && PredecessorLists([], map[]) == map[]
  {
  }

  lemma BodyDeclared(m: Ir.Method)
    requires ScopedFields(m.arguments + m.body.fields)
    ensures forall f :: f in m.body.fields ==> Ir.WellDeclared(f)
  {
    forall f | f in m.body.fields ensures Ir.WellDeclared(f) { assert f in m.arguments + m.body.fields; }
  }

  lemma BodyScope(globals: map<string, FieldDeclaration>, m: Ir.Method, temporaries: nat, nextBlock: nat)
    ensures var s := GenerateBody(globals, m, temporaries, nextBlock);
      && Wf(s) && |s.symbols| == 2 && s.symbols[0] == globals && s.breaks == [] && s.continues == []
  {
    hide Lowering.GenerateStatements, GenerateFields, Wf, Grows, Untouched, DeclareAll;
    var s0 := BeforeBody(globals, m, temporaries, nextBlock);
    BeforeBodyWf(globals, m, temporaries, nextBlock);
    FieldsAdvance(s0, m.body.fields);
    StatementsAdvance(StartMethod(globals, m, temporaries, nextBlock), m.body.statements);
    DeclareAllConcatenation([globals, map[]], m.arguments, m.body.fields);
    OuterTable(globals, m.arguments + m.body.fields);
  }

  lemma {:induction false} OuterTable(globals: map<string, FieldDeclaration>, fields: seq<Ir.Field>)
    ensures DeclareAll([globals, map[]], fields)[0] == globals
  {
    hide MakeField;
    if fields != [] { OuterTable(globals, fields[..|fields| - 1]); }
  }

  lemma {:induction false} InitializeElementsScope(s: Generator, name: string, values: seq<Word>)
    ensures SameScope(s, InitializeElements(s, name, values))
  {
    if values != [] { InitializeElementsScope(s, name, values[..|values| - 1]); }
  }

  lemma InitializeFieldScope(s: Generator, field: FieldDeclaration)
    ensures SameScope(s, InitializeField(s, field))
  {
    InitializeElementsScope(s, field.identifier, field.values);
  }

  lemma ScopeKeepsWf(s: Generator, symbols: SymbolTables, fields: seq<FieldDeclaration>)
    ensures Wf(s.(symbols := symbols, fields := fields)) == Wf(s)
  {
  }

  lemma FinishScope(s: Generator, t: Terminal, b: BlockId)
    ensures SameScope(s, Finish(s, t, b))
  {
  }

  lemma {:induction false} PoppedScope(symbols: SymbolTables, fields: seq<Ir.Field>)
    ensures DeclareAll(symbols + [map[]], fields)[..|symbols|] == symbols
  {
    hide MakeField;
    if fields != [] { PoppedScope(symbols, fields[..|fields| - 1]); }
  }

  lemma FinishParts(s: Generator, t: Terminal, b: BlockId)
    ensures var s' := Finish(s, t, b);
      && s'.order == s.order + [s.current] && s'.finished == s.finished[s.current := Block(s.fields, s.code, t)]
      && s' == Generator(s.temporaries, s.nextBlock, s.symbols, s.breaks, s.continues, s'.order, s'.finished, b, [], [])
  {
  }

  lemma FinishWf(s: Generator, t: Terminal, b: BlockId)
    requires Wf(s) && Pending(s, b)
    ensures Wf(Finish(s, t, b)) && s.current !in s.order
  {
  }

  lemma {:induction false} PredecessorsLocal(order: seq<BlockId>, blocks: map<BlockId, Block>, b: BlockId, block: Block)
    requires b !in order
    ensures PredecessorLists(order, blocks[b := block]) == PredecessorLists(order, blocks)
  {
    if order != [] { PredecessorsLocal(order[..|order| - 1], blocks, b, block); }
  }

  lemma PredecessorsAfter(order: seq<BlockId>, blocks: map<BlockId, Block>, b: BlockId, block: Block)
    requires b !in order
    ensures PredecessorLists(order + [b], blocks[b := block])
         == AddPredecessor(PredecessorLists(order, blocks), Successors(block.terminal), b)
  {
    PredecessorsLocal(order, blocks, b, block);
    assert (order + [b])[..|order|] == order;
  }
}
