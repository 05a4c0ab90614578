/** The part of x86-64 that the code generator emits: instructions, and a machine that runs them.
    Frame memory is addressed in bytes relative to the frame base; a global is a segment of its own. */
module Machine {
  import opened Words
  import opened Worlds
  import opened Llir

  datatype Register = Rax | Rdx | Rdi | Rsi | Rcx | R8 | R9 | R10 | R11

  datatype Segment = Frame | Symbol(name: string)

  /** What a register or a slot holds: a word, an address, or the base the caller left. */
  datatype Value = Plain(word: Word) | Pointer(segment: Segment, offset: int) | StringAt(text: string) | CallerBase

  datatype Instruction =
    | MoveImmediate(value: Word, to: Register)              // movq $value, %to
    | MoveRegister(from: Register, to: Register)            // movq %from, %to
    | LoadSlot(slot: nat, to: Register)                     // movq -slot(%rbp), %to
    | LoadSymbol(name: string, to: Register)                // movq name(%rip), %to
    | StoreSlot(from: Register, slot: nat)                  // movq %from, -slot(%rbp)
    | StoreSymbol(from: Register, name: string)             // movq %from, name(%rip)
    | StoreSymbolAt(value: Word, name: string, index: nat)  // movq $value, name+8*index(%rip)
    | AddressOfString(text: string, to: Register)           // leaq string(%rip), %to
    | AddressOfSlot(slot: nat, to: Register)                // leaq -slot(%rbp), %to
    | AddressOfSymbol(name: string, to: Register)           // leaq name(%rip), %to
    | LoadIndirect(address: Register, to: Register)         // movq 0(%address), %to
    | StoreIndirect(from: Register, address: Register)      // movq %from, 0(%address)
    | AddTo(from: Register, to: Register)                   // addq %from, %to
    | SubtractFrom(from: Register, to: Register)            // subq %from, %to
    | MultiplyBy(from: Register, to: Register)              // imulq %from, %to
    | Scale(to: Register)                                   // imulq $8, %to
    | NegateIn(to: Register)                                // negq %to
    | SignExtendRax                                         // cqto
    | DivideBy(divisor: Register)                           // idivq %divisor
    | CompareWith(right: Register, left: Register)          // cmpq %right, %left
    | CompareWithZero(left: Register)                       // cmpq $0, %left
    | SetAl(comparison: Comparison)                         // setCC %al
    | FlipAl                                                // xorb $-1, %al
    | LowBitOfAl                                            // andb $1, %al
    | ExtendAlToEax                                         // movzbl %al, %eax
    | ExtendEaxToRax                                        // cltq
    | ExtendAlTo(to: Register)                              // movzbq %al, %to
    | PushBase                                              // pushq %rbp
    | EnterFrame                                            // movq %rsp, %rbp
    | GrowStack(size: nat)                                  // subq $size, %rsp
    | ShrinkStack(size: nat)                                // addq $size, %rsp
    | LoadIncoming(place: nat, to: Register)                // movq place(%rbp), %to
    | StoreOutgoing(from: Register, place: nat)             // movq %from, place(%rsp)
    | CallMethod(callee: string, count: nat)                // call callee, with `count` arguments
    | LeaveFrame                                            // movq %rbp, %rsp
    | PopBase                                               // popq %rbp
    | ReturnToCaller                                        // ret
    | BlockLabel(block: BlockId)                            // block_N:
    | JumpTo(block: BlockId)                                // jmp block_N
    | JumpIf(comparison: Comparison, isUnsigned: bool, block: BlockId)

  /** `stack` and `base` are byte offsets from where this method's base register points once set. */
  datatype MachineState = MachineState(
    registers: map<Register, Value>,
    frame: map<int, Value>,
    base: Value,
    stack: int,
    compared: (Word, Word),
    world: World)

  /** `clobber` is what a callee leaves in the registers it need not preserve. */
  datatype MachineContext = MachineContext(call: Oracle, clobber: (string, World) -> map<Register, Value>)

  datatype MachineEffect = Continue(state: MachineState) | Halt(outcome: Outcome)

  /** Section 3.2.3 of the System V AMD64 ABI: where a callee finds the first six integer arguments. */
  const IntegerArguments: seq<Register> := [Rdi, Rsi, Rdx, Rcx, R8, R9]

  function Reg(m: MachineState, r: Register): Value {
    if r in m.registers then m.registers[r] else Plain(0)
  }

  function SetReg(m: MachineState, r: Register, v: Value): MachineState {
    m.(registers := m.registers[r := v])
  }

  function FrameAt(frame: map<int, Value>, at: int): Value {
    if at in frame then frame[at] else Plain(0)
  }

  function Slot(m: MachineState, at: int): Value {
    FrameAt(m.frame, at)
  }

  function SetSlot(m: MachineState, at: int, v: Value): MachineState {
    m.(frame := m.frame[at := v])
  }

  predicate HasBase(m: MachineState) {
    m.base.Pointer? && m.base.segment == Frame
  }

  /** A word operation: anything but words is outside what the generated code does. */
  function OnWords(m: MachineState, a: Value, b: Value, to: Register, f: (Word, Word) -> Word): MachineEffect {
    if a.Plain? && b.Plain? then Continue(SetReg(m, to, Plain(f(a.word, b.word)))) else Halt(Trapped)
  }

  /** The low byte of `%rax`. */
  function LowByte(v: Value): nat {
    if v.Plain? then Unsigned(v.word) % 256 else 0
  }

  function WithLowByte(v: Value, byte: nat): Value {
    if v.Plain? then Plain(Wrap(Unsigned(v.word) - Unsigned(v.word) % 256 + byte)) else Plain(Wrap(byte))
  }

  /** What `movq` through a pointer reads. */
  function ReadThrough(m: MachineState, p: Value): Option<Value> {
    if !p.Pointer? then None
    else
      match p.segment
      case Frame => Some(Slot(m, p.offset))
      case Symbol(name) => if p.offset % 8 == 0 then Some(Plain(Get(m.world.globals, Cell(name, p.offset / 8))))
        else None
  }

  function WriteThrough(m: MachineState, p: Value, v: Value): MachineEffect {
    if !p.Pointer? then Halt(Trapped)
    else
      match p.segment
      case Frame => Continue(SetSlot(m, p.offset, v))
      case Symbol(name) => if p.offset % 8 == 0 then WriteSymbol(m, name, p.offset / 8, v) else Halt(Trapped)
  }

  function WriteSymbol(m: MachineState, name: string, index: int, v: Value): MachineEffect {
    if v.Plain? then Continue(m.(world := m.world.(globals := m.world.globals[Cell(name, index) := v.word])))
      else Halt(Trapped)
  }

  /** An argument as a register or a slot holds it. */
  function ArgumentValue(a: Argument): Value {
    match a
    case Number(w) => Plain(w)
    case Address(text) => StringAt(text)
  }

  function ValueArgument(v: Value): Option<Argument> {
    match v
    case Plain(w) => Some(Number(w))
    case StringAt(text) => Some(Address(text))
    case _ => None
  }

  /** Where a callee looks for argument `i`: six registers, then the words above the stack pointer. */
  function OutgoingValue(m: MachineState, i: nat): Value {
    if i < 6 then Reg(m, IntegerArguments[i]) else Slot(m, m.stack + 8 * (i - 6))
  }

  function OutgoingArguments(m: MachineState, count: nat): Option<seq<Argument>> {
    if count == 0 then Some([])
    else
      match OutgoingArguments(m, count - 1)
      case None => None
      case Some(front) =>
        match ValueArgument(OutgoingValue(m, count - 1))
        case None => None
        case Some(a) => Some(front + [a])
  }

  /** A call. The stack pointer must be a multiple of 16 (section 3.2.2 of the System V AMD64 ABI);
      only what lies above the argument area survives below the frame. */
  function PerformCall(ctx: MachineContext, m: MachineState, callee: string, count: nat): MachineEffect {
    if m.stack % 16 != 0 then Halt(Trapped)
    else
      match OutgoingArguments(m, count)
      case None => Halt(Trapped)
      case Some(arguments) =>
        match ctx.call(callee, arguments, m.world)
        case Returned(v, w) =>
          var kept := m.stack + if count > 6 then 8 * (count - 6) else 0;
          Continue(m.(registers := ctx.clobber(callee, w)[Rax := Plain(v)], frame := map k | k in m.frame
            && k >= kept :: m.frame[k], world := w))
        case o => Halt(o)
  }

  /** One instruction that is neither a label nor a jump. */
  function Step(ctx: MachineContext, i: Instruction, m: MachineState): MachineEffect {
    match i
    case MoveImmediate(v, to) => Continue(SetReg(m, to, Plain(v)))
    case MoveRegister(from, to) => Continue(SetReg(m, to, Reg(m, from)))
    case LoadSlot(slot, to) => if HasBase(m) then Continue(SetReg(m, to, Slot(m, m.base.offset - slot)))
      else Halt(Trapped)
    case LoadSymbol(name, to) => Continue(SetReg(m, to, Plain(Get(m.world.globals, Cell(name, 0)))))
    case StoreSlot(from, slot) => if HasBase(m) then Continue(SetSlot(m, m.base.offset - slot, Reg(m, from)))
      else Halt(Trapped)
    case StoreSymbol(from, name) => WriteSymbol(m, name, 0, Reg(m, from))
    case StoreSymbolAt(v, name, index) => WriteSymbol(m, name, index, Plain(v))
    case AddressOfString(text, to) => Continue(SetReg(m, to, StringAt(text)))
    case AddressOfSlot(slot, to) => if HasBase(m) then Continue(SetReg(m, to, Pointer(Frame, m.base.offset - slot)))
      else Halt(Trapped)
    case AddressOfSymbol(name, to) => Continue(SetReg(m, to, Pointer(Symbol(name), 0)))
    case LoadIndirect(address, to) => (
      match ReadThrough(m, Reg(m, address))
      case Some(v) => Continue(SetReg(m, to, v))
      case None => Halt(Trapped))
    case StoreIndirect(from, address) => WriteThrough(m, Reg(m, address), Reg(m, from))
    case AddTo(from, to) =>
      var a, b := Reg(m, to), Reg(m, from);
      if a.Pointer? && b.Plain? then Continue(SetReg(m, to, a.(offset := a.offset + b.word)))
      else OnWords(m, a, b, to, (x: Word, y: Word) => Wrap(x + y))
    case SubtractFrom(from, to) => OnWords(m, Reg(m, to), Reg(m, from), to, (x: Word, y: Word) => Wrap(x - y))
    case MultiplyBy(from, to) => OnWords(m, Reg(m, to), Reg(m, from), to, (x: Word, y: Word) => Wrap(x * y))
    case Scale(to) => OnWords(m, Reg(m, to), Reg(m, to), to, (x: Word, y: Word) => Wrap(8 * x))
    case NegateIn(to) => OnWords(m, Reg(m, to), Reg(m, to), to, (x: Word, y: Word) => Wrap(-(x as int)))
    case SignExtendRax => OnWords(m, Reg(m, Rax), Reg(m, Rax), Rdx, (x: Word, y: Word) => if x < 0 then -1 else 0)
    case DivideBy(divisor) =>
      var low, high, d := Reg(m, Rax), Reg(m, Rdx), Reg(m, divisor);
      if !low.Plain? || !high.Plain? || !d.Plain? then Halt(Trapped)
      else
        var dividend := high.word * TWO_64 + Unsigned(low.word);
        if d.word == 0 then Halt(Trapped)
        else
          var q, r := TruncatedQuotient(dividend, d.word), TruncatedRemainder(dividend, d.word);
          if -TWO_63 <= q < TWO_63 then Continue(SetReg(SetReg(m, Rax, Plain(q)), Rdx, Plain(Wrap(r))))
            else Halt(Trapped)
    case CompareWith(right, left) =>
      var l, r := Reg(m, left), Reg(m, right);
      if l.Plain? && r.Plain? then Continue(m.(compared := (l.word, r.word))) else Halt(Trapped)
    case CompareWithZero(left) =>
      if Reg(m, left).Plain? then Continue(m.(compared := (Reg(m, left).word, 0))) else Halt(Trapped)
    case SetAl(c) =>
      Continue(SetReg(m, Rax, WithLowByte(Reg(m, Rax), if Holds(c, false, m.compared.0, m.compared.1) then 1 else 0)))
    case FlipAl => Continue(SetReg(m, Rax, WithLowByte(Reg(m, Rax), 255 - LowByte(Reg(m, Rax)))))
    case LowBitOfAl => Continue(SetReg(m, Rax, WithLowByte(Reg(m, Rax), LowByte(Reg(m, Rax)) % 2)))
    case ExtendAlToEax => Continue(SetReg(m, Rax, Plain(Wrap(LowByte(Reg(m, Rax))))))
    case ExtendEaxToRax =>
      OnWords(m, Reg(m, Rax), Reg(m, Rax), Rax,
              (x: Word, y: Word) => var low := Unsigned(x) % 0x1_0000_0000; Wrap(if low < 0x8000_0000 then low
                else low - 0x1_0000_0000))
    case ExtendAlTo(to) => Continue(SetReg(m, to, Plain(Wrap(LowByte(Reg(m, Rax))))))
    case PushBase => Continue(SetSlot(m, m.stack - 8, m.base).(stack := m.stack - 8))
    case EnterFrame => Continue(m.(base := Pointer(Frame, m.stack)))
    case GrowStack(size) => Continue(m.(stack := m.stack - size))
    case ShrinkStack(size) => Continue(m.(stack := m.stack + size))
    case LoadIncoming(place, to) => if HasBase(m) then Continue(SetReg(m, to, Slot(m, m.base.offset + place)))
      else Halt(Trapped)
    case StoreOutgoing(from, place) => Continue(SetSlot(m, m.stack + place, Reg(m, from)))
    case CallMethod(callee, count) => PerformCall(ctx, m, callee, count)
    case LeaveFrame => if HasBase(m) then Continue(m.(stack := m.base.offset)) else Halt(Trapped)
    case PopBase => Continue(m.(base := Slot(m, m.stack), stack := m.stack + 8))
    case ReturnToCaller =>
      // the return address is where the caller put it, and its base is back in place
      if m.stack == 8 && m.base == CallerBase && Reg(m, Rax).Plain? then Halt(Returned(Reg(m, Rax).word, m.world))
        else Halt(Trapped)
    case BlockLabel(_) => Continue(m)
    case JumpTo(_) => Halt(Trapped)
    case JumpIf(_, _, _) => Halt(Trapped)
  }

  predicate IsStraight(i: Instruction) {
    !i.BlockLabel? && !i.JumpTo? && !i.JumpIf?
  }

  /** A piece of code without labels and jumps, from its first to its last instruction. */
  function RunStraight(ctx: MachineContext, code: seq<Instruction>, m: MachineState): MachineEffect {
    if code == [] then Continue(m)
    else
      match Step(ctx, code[0], m)
      case Continue(m') => RunStraight(ctx, code[1..], m')
      case o => o
  }

  lemma {:induction false} StraightConcatenation(ctx: MachineContext, first: seq<Instruction>,
                                                 second: seq<Instruction>, m: MachineState)
    ensures RunStraight(ctx, first + second, m) ==
            match RunStraight(ctx, first, m)
            case Continue(m') => RunStraight(ctx, second, m')
            case o => o
  {
    if first == [] {
      assert first + second == second;
    } else {
      assert (first + second)[1..] == first[1..] + second;
      match Step(ctx, first[0], m)
      case Continue(m') => StraightConcatenation(ctx, first[1..], second, m');
      case _ =>
    }
  }

  /** Where a label stands. */
  function Find(code: seq<Instruction>, b: BlockId): (r: Option<nat>)
    ensures r.Some? ==> r.value < |code| && code[r.value] == BlockLabel(b)
  {
    if code == [] then None
    else if code[0] == BlockLabel(b) then Some(0)
    else
      match Find(code[1..], b)
      case Some(k) => Some(k + 1)
      case None => None
  }

  /** Control passes the label of a block and stands behind it, or the method ends before that. */
  datatype Arrival = Arrived(block: BlockId, pc: nat, state: MachineState) | Ended(outcome: Outcome)

  /** From instruction `pc` to the next label, whether control falls into it or jumps to it. */
  function ToLabel(ctx: MachineContext, code: seq<Instruction>, pc: nat, m: MachineState): (r: Arrival)
    requires pc <= |code|
    ensures r.Arrived? ==> r.pc <= |code|
    decreases |code| - pc
  {
    if pc == |code| then Ended(Trapped)
    else
      var i := code[pc];
      if i.BlockLabel? then Arrived(i.block, pc + 1, m)
      else if i.JumpTo? then AtLabel(code, i.block, m)
      else if i.JumpIf? then
        if Holds(i.comparison, i.isUnsigned, m.compared.0, m.compared.1) then AtLabel(code, i.block, m)
        else ToLabel(ctx, code, pc + 1, m)
      else
        match Step(ctx, i, m)
        case Continue(m') => ToLabel(ctx, code, pc + 1, m')
        case Halt(o) => Ended(o)
  }

  function AtLabel(code: seq<Instruction>, b: BlockId, m: MachineState): (r: Arrival)
    ensures r.Arrived? ==> r.pc <= |code|
  {
    match Find(code, b)
    case None => Ended(Trapped)
    case Some(k) => Arrived(b, k + 1, m)
  }

  /** Runs a method's code from instruction `pc`; `fuel` bounds the number of blocks entered. */
  function RunCode(ctx: MachineContext, code: seq<Instruction>, pc: nat, m: MachineState, fuel: nat): Outcome
    requires pc <= |code|
    decreases fuel
  {
    match ToLabel(ctx, code, pc, m)
    case Ended(o) => o
    case Arrived(_, pc', m') => if fuel == 0 then Diverged else RunCode(ctx, code, pc', m', fuel - 1)
  }

  /** The blocks that run enters, in order. */
  function Visits(ctx: MachineContext, code: seq<Instruction>, pc: nat, m: MachineState, fuel: nat): seq<BlockId>
    requires pc <= |code|
    decreases fuel
  {
    match ToLabel(ctx, code, pc, m)
    case Ended(_) => []
    case Arrived(b, pc', m') => if fuel == 0 then [] else [b] + Visits(ctx, code, pc', m', fuel - 1)
  }
}
