/** The code generator as functions: frame layout, argument passing, instruction selection and the
    linear order of blocks. */
module CodeGeneration {
  import opened Words
  import opened Worlds
  import opened Llir
  import opened Machine
  import opened Programs

  /** `generator->offsets`: how far below the frame base a field starts. It is never cleared. */
  type Offsets = map<string, nat>

  /** The generator's test: no entry, or an entry of 0, means a global. */
  predicate IsLocal(offsets: Offsets, name: string) {
    name in offsets && offsets[name] != 0
  }

  // ----- operands -----

  /** `load_to_register`. */
  function Load(offsets: Offsets, o: Operand, to: Register): seq<Instruction> {
    match o
    case Literal(v) => [MoveImmediate(v, to)]
    case Field(name) => if IsLocal(offsets, name) then [LoadSlot(offsets[name], to)] else [LoadSymbol(name, to)]
    case Text(text) => [AddressOfString(text, to)]
  }

  /** `load_array_to_register`. */
  function LoadArray(offsets: Offsets, name: string, to: Register): seq<Instruction> {
    if IsLocal(offsets, name) then [AddressOfSlot(offsets[name], to)] else [AddressOfSymbol(name, to)]
  }

  /** `store_from_register`. */
  function Save(offsets: Offsets, name: string, from: Register): seq<Instruction> {
    if IsLocal(offsets, name) then [StoreSlot(from, offsets[name])] else [StoreSymbol(from, name)]
  }

  // ----- assignments -----

  /** From both operands in `%r10` and `%r11` to the result. */
  function Operation(op: BinaryOperator): seq<Instruction> {
    match op
    case Add => [AddTo(R11, R10)]
    case Subtract => [SubtractFrom(R11, R10)]
    case Multiply => [MultiplyBy(R11, R10)]
    case Divide => [MoveRegister(R10, Rax), SignExtendRax, DivideBy(R11)]
    case Modulo => [MoveRegister(R10, Rax), SignExtendRax, DivideBy(R11)]
    case Equal => [CompareWith(R11, R10), SetAl(IfEqual), LowBitOfAl, ExtendAlToEax, ExtendEaxToRax]
    case NotEqual => [CompareWith(R11, R10), SetAl(IfNotEqual), LowBitOfAl, ExtendAlToEax, ExtendEaxToRax]
    case Less => [CompareWith(R11, R10), SetAl(IfLess), LowBitOfAl, ExtendAlTo(R10)]
    case LessEqual => [CompareWith(R11, R10), SetAl(IfLessEqual), LowBitOfAl, ExtendAlTo(R10)]
    case GreaterEqual => [CompareWith(R11, R10), SetAl(IfGreaterEqual), LowBitOfAl, ExtendAlTo(R10)]
    case Greater => [CompareWith(R11, R10), SetAl(IfGreater), LowBitOfAl, ExtendAlTo(R10)]
  }

  function ResultRegister(op: BinaryOperator): Register {
    match op
    case Divide => Rax
    case Modulo => Rdx
    case Equal => Rax
    case NotEqual => Rax
    case _ => R10
  }

  function UnaryOperation(op: UnaryOperator): seq<Instruction> {
    match op
    case Move => []
    case Negate => [NegateIn(R10)]
    case Not => [CompareWithZero(R10), SetAl(IfNotEqual), FlipAl, LowBitOfAl, ExtendAlToEax, ExtendEaxToRax]
  }

  function UnaryResultRegister(op: UnaryOperator): Register {
    if op == Not then Rax else R10
  }

  /** How far the stack grows for the arguments beyond the sixth: a multiple of 16. */
  function ExtraStack(count: nat): nat {
    if count <= 6 then 0 else 8 * ((count - 6) + (count - 6) % 2)
  }

  /** `ARGUMENT_REGISTERS`. */
  function ArgumentRegister(i: nat): Register
    requires i < 6
  {
    if i == 0 then Rdi else if i == 1 then Rsi else if i == 2 then Rdx
    else if i == 3 then Rcx else if i == 4 then R8 else R9
  }

  /** Argument `i` goes to its register, or through `%r10` to its place above the stack pointer. */
  function ArgumentCode(offsets: Offsets, o: Operand, i: nat): seq<Instruction> {
    if i < 6 then Load(offsets, o, ArgumentRegister(i)) else Load(offsets, o, R10) + [StoreOutgoing(R10, 8 * (i - 6))]
  }

  function ArgumentsCode(offsets: Offsets, os: seq<Operand>): seq<Instruction> {
    if os == [] then []
    else ArgumentsCode(offsets, os[..|os| - 1]) + ArgumentCode(offsets, os[|os| - 1], |os| - 1)
  }

  /** `generate_method_call`. */
  function CallCode(offsets: Offsets, destination: string, callee: string, os: seq<Operand>): seq<Instruction> {
    (if |os| > 6 then [GrowStack(ExtraStack(|os|))] else [])
    + (ArgumentsCode(offsets, os)
       + ([MoveImmediate(0, Rax), CallMethod(callee, |os|)]
          + ((if |os| > 6 then [ShrinkStack(ExtraStack(|os|))] else []) + Save(offsets, destination, Rax))))
  }

  /** `generate_assignment`. */
  function AssignmentCode(offsets: Offsets, a: Assignment): seq<Instruction> {
    match a
    case Unary(op, d, s) => Load(offsets, s, R10) + (UnaryOperation(op) + Save(offsets, d, UnaryResultRegister(op)))
    case Binary(op, d, l, r) =>
      Load(offsets, l, R10) + (Load(offsets, r, R11) + (Operation(op) + Save(offsets, d, ResultRegister(op))))
    case ArrayAccess(d, i, array_) =>
      LoadArray(offsets, array_, R10) + (Load(offsets, i, R11)
        + ([Scale(R11), AddTo(R11, R10), LoadIndirect(R10, R11)] + Save(offsets, d, R11)))
    case ArrayUpdate(d, i, v) =>
      LoadArray(offsets, d, R10) + (Load(offsets, i, R11)
        + ([Scale(R11), AddTo(R11, R10)] + (Load(offsets, v, R11) + [StoreIndirect(R11, R10)])))
    case Call(d, callee, os) => CallCode(offsets, d, callee, os)
  }

  function AssignmentsCode(offsets: Offsets, code: seq<Assignment>): seq<Instruction> {
    if code == [] then [] else AssignmentCode(offsets, code[0]) + AssignmentsCode(offsets, code[1..])
  }

  // ----- terminals and blocks -----

  /** A branch emits only the jump taken when its comparison holds; a jump to the block that comes
      next is dropped when the peephole is on. */
  function TerminalCode(offsets: Offsets, t: Terminal, next: Option<BlockId>, peephole: bool): seq<Instruction> {
    match t
    case Jump(target) => if peephole && next == Some(target) then [] else [JumpTo(target)]
    case Branch(c, isUnsigned, l, r, _, falseBlock) =>
      Load(offsets, l, R11) + (Load(offsets, r, R10) + [CompareWith(R10, R11), JumpIf(c, isUnsigned, falseBlock)])
    case Return(source) => Load(offsets, source, Rax) + [LeaveFrame, PopBase, ReturnToCaller]
    case Exit(code) => [MoveImmediate(code, Rdi), CallMethod("exit", 1)]
    case Unknown => []
  }

  function BlockCode(offsets: Offsets, b: BlockId, block: Block, next: Option<BlockId>, peephole: bool)
    : seq<Instruction> {
    [BlockLabel(b)] + (AssignmentsCode(offsets, block.assignments) + TerminalCode(offsets, block.terminal, next,
      peephole))
  }

  /** `generate_method_body`: the blocks in layout order. */
  function BodyCode(offsets: Offsets, order: seq<BlockId>, blocks: map<BlockId, Block>, peephole: bool)
    : seq<Instruction>
  {
    if order == [] then []
    else if order[0] !in blocks then BodyCode(offsets, order[1..], blocks, peephole)
    else
      BlockCode(offsets, order[0], blocks[order[0]], if |order| > 1 then Some(order[1]) else None, peephole)
      + BodyCode(offsets, order[1..], blocks, peephole)
  }

  // ----- frame layout -----

  /** The bytes of the first fields: each field goes below the ones before it. */
  function FrameBytes(fields: seq<FieldDeclaration>): nat {
    if fields == [] then 0 else FrameBytes(fields[..|fields| - 1]) + 8 * |fields[|fields| - 1].values|
  }

  /** The offsets table after the fields were laid out one by one. */
  function Allocate(offsets: Offsets, fields: seq<FieldDeclaration>): Offsets {
    if fields == [] then offsets
    else Allocate(offsets, fields[..|fields| - 1])[fields[|fields| - 1].identifier := FrameBytes(fields)]
  }

  /** `generate_stack_allocation` rounds the frame up to a multiple of 16. */
  function FrameSize(fields: seq<FieldDeclaration>): nat {
    var bytes := FrameBytes(fields);
    if bytes % 16 != 0 then bytes + 8 else bytes
  }

  // ----- methods -----

  /** `generate_method_arguments`: each parameter goes from where the caller put it to its slot. */
  function ParameterCode(offsets: Offsets, parameter: FieldDeclaration, i: nat): seq<Instruction> {
    var slot := if parameter.identifier in offsets then offsets[parameter.identifier] else 0;
    if i < 6 then [StoreSlot(ArgumentRegister(i), slot)]
    else [LoadIncoming(8 * (i - 6) + 16, R10), StoreSlot(R10, slot)]
  }

  function ParametersCode(offsets: Offsets, parameters: seq<FieldDeclaration>): seq<Instruction> {
    if parameters == [] then []
    else ParametersCode(offsets, parameters[..|parameters| - 1]) + ParameterCode(offsets, parameters[|parameters| - 1],
      |parameters| - 1)
  }

  /** The values of a global that are not zero, element by element. */
  function GlobalCode(name: string, values: seq<Word>): seq<Instruction> {
    if values == [] then []
    else
      var n := |values| - 1;
      GlobalCode(name, values[..n]) + if values[n] == 0 then [] else [StoreSymbolAt(values[n], name, n)]
  }

  function GlobalsCode(globals: seq<FieldDeclaration>): seq<Instruction> {
    if globals == [] then []
    else
      var f := globals[|globals| - 1];
      GlobalsCode(globals[..|globals| - 1]) + GlobalCode(f.identifier, f.values)
  }

  /** `generate_method_declaration`; only `main` initializes the globals. */
  function Prologue(offsets: Offsets, parameters: seq<FieldDeclaration>, size: nat,
                    initialized: seq<FieldDeclaration>): seq<Instruction> {
    [PushBase, EnterFrame, GrowStack(size)] + (ParametersCode(offsets, parameters) + GlobalsCode(initialized))
  }

  function MethodFields(m: Method): seq<FieldDeclaration> {
    m.arguments + LocalFields(m.graph.order, m.graph.blocks)
  }

  /** The code of a method, given the offsets that earlier methods left behind. */
  function MethodCode(offsets: Offsets, globals: seq<FieldDeclaration>, name: string, m: Method, peephole: bool)
    : seq<Instruction> {
    var fields := MethodFields(m);
    var offsets' := Allocate(offsets, fields);
    Prologue(offsets', m.arguments, FrameSize(fields), if name == "main" then globals else [])
    + BodyCode(offsets', m.graph.order, m.graph.blocks, peephole)
  }
}
