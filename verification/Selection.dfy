/** Instruction selection: the code of every assignment and terminal does in the machine what the
    low-level representation does, given slots that are kept apart. */
module Selection {
  import opened Words
  import opened Worlds
  import opened Llir
  import opened Machine
  import opened CodeGeneration
  import opened FrameLayout
  import opened Rewriting

  /** The names a method keeps in its frame, with their lengths in words. */
  datatype Layout = Layout(offsets: Offsets, lengths: map<string, nat>, size: nat)

  ghost predicate LocalOk(l: Layout, n: string) {
    && n in l.lengths && n in l.offsets
    && 0 < l.lengths[n] && 8 * l.lengths[n] <= l.offsets[n] <= l.size
  }

  ghost predicate LayoutOk(ctx: Context, l: Layout) {
    && l.size % 16 == 0
    && (forall n :: n in l.lengths ==> LocalOk(l, n) && n !in ctx.globals)
    && (forall n, k :: n in l.lengths && k in l.lengths && n != k ==>
         Apart(l.offsets[n], l.lengths[n], l.offsets[k], l.lengths[k]))
    && (forall n :: n in ctx.globals ==> !IsLocal(l.offsets, n))
    && forall n :: n in ctx.lengths ==>
         8 * ctx.lengths[n] < TWO_63 && (n in ctx.globals || (n in l.lengths && ctx.lengths[n] <= l.lengths[n]))
  }

  ghost predicate Known(ctx: Context, l: Layout, n: string) {
    n in l.lengths || n in ctx.globals
  }

  function SlotAt(l: Layout, n: string, i: int): int
    requires n in l.offsets
  {
    8 * i - l.offsets[n]
  }

  ghost predicate HoldsLocal(l: Layout, locals: Store, frame: map<int, Value>, n: string)
    requires n in l.lengths && n in l.offsets
  {
    forall i :: 0 <= i < l.lengths[n] ==> FrameAt(frame, SlotAt(l, n, i)) == Plain(Get(locals, Cell(n, i)))
  }

  ghost predicate HoldsLocals(l: Layout, locals: Store, frame: map<int, Value>) {
    forall n :: n in l.lengths ==> n in l.offsets && HoldsLocal(l, locals, frame, n)
  }

  /** The machine's frame and world are the state's. */
  ghost predicate Related(ctx: Context, l: Layout, st: State, m: MachineState) {
    && m.world == st.world
    && m.base == Pointer(Frame, 0)
    && FrameAt(m.frame, 0) == CallerBase
    && HoldsLocals(l, st.locals, m.frame)
  }

  /** Only registers and flags differ. */
  predicate SameMemory(m: MachineState, m': MachineState) {
    m'.frame == m.frame && m'.base == m.base && m'.stack == m.stack && m'.world == m.world
  }

  lemma RelatedKept(ctx: Context, l: Layout, st: State, m: MachineState, m': MachineState)
    requires Related(ctx, l, st, m) && SameMemory(m, m')
    ensures Related(ctx, l, st, m')
  {
  }

  lemma StraightCons(ctx: MachineContext, i: Instruction, rest: seq<Instruction>, m: MachineState)
    ensures RunStraight(ctx, [i] + rest, m) ==
            var effect := Step(ctx, i, m);
            if effect.Continue? then RunStraight(ctx, rest, effect.state) else effect
  {
    assert ([i] + rest)[1..] == rest;
  }

  lemma StraightOne(ctx: MachineContext, i: Instruction, m: MachineState)
    ensures RunStraight(ctx, [i], m) == Step(ctx, i, m)
  {
    assert [i][1..] == [];
  }

  /** What an operand evaluates to, as the machine holds it. */
  function OperandValue(ctx: Context, st: State, o: Operand): Value {
    match o
    case Text(text) => StringAt(text)
    case _ => Plain(Eval(ctx, st, o))
  }

  lemma LoadRuns(ctx: Context, mc: MachineContext, l: Layout, st: State, m: MachineState, o: Operand, to: Register)
    requires LayoutOk(ctx, l) && Related(ctx, l, st, m)
    requires o.Field? ==> Known(ctx, l, o.name)
    ensures RunStraight(mc, Load(l.offsets, o, to), m) == Continue(SetReg(m, to, OperandValue(ctx, st, o)))
    ensures Related(ctx, l, st, SetReg(m, to, OperandValue(ctx, st, o)))
  {
    StraightOne(mc, Load(l.offsets, o, to)[0], m);
    if o.Field? && o.name in l.lengths {
      assert LocalOk(l, o.name) && HoldsLocal(l, st.locals, m.frame, o.name);
      assert FrameAt(m.frame, SlotAt(l, o.name, 0)) == Plain(Get(st.locals, Cell(o.name, 0)));
    }
  }

  // ----- writing -----

  lemma WriteLocal(ctx: Context, l: Layout, st: State, m: MachineState, n: string, i: int, v: Word)
    requires LayoutOk(ctx, l) && Related(ctx, l, st, m) && n in l.lengths && 0 <= i < l.lengths[n]
    ensures n in l.offsets && Related(ctx, l, Write(ctx, st, n, i, v), SetSlot(m, SlotAt(l, n, i), Plain(v)))
  {
    assert LocalOk(l, n);
    var locals', frame' := st.locals[Cell(n, i) := v], m.frame[SlotAt(l, n, i) := Plain(v)];
    forall k | k in l.lengths ensures k in l.offsets && HoldsLocal(l, locals', frame', k) {
      assert LocalOk(l, k) && HoldsLocal(l, st.locals, m.frame, k);
      forall j | 0 <= j < l.lengths[k]
        ensures FrameAt(frame', SlotAt(l, k, j)) == Plain(Get(locals', Cell(k, j)))
      {
        if k != n { assert Apart(l.offsets[n], l.lengths[n], l.offsets[k], l.lengths[k]); }
      }
    }
  }

  lemma StoreRuns(ctx: Context, mc: MachineContext, l: Layout, st: State, m: MachineState, n: string, from: Register,
                  v: Word) returns (m': MachineState)
    requires LayoutOk(ctx, l) && Related(ctx, l, st, m) && Known(ctx, l, n) && Reg(m, from) == Plain(v)
    ensures RunStraight(mc, Save(l.offsets, n, from), m) == Continue(m')
    ensures Related(ctx, l, Write(ctx, st, n, 0, v), m') && m'.stack == m.stack
  {
    hide RunStraight, Apart;
    StraightOne(mc, Save(l.offsets, n, from)[0], m);
    if n in l.lengths {
      assert LocalOk(l, n);
      WriteLocal(ctx, l, st, m, n, 0, v);
      m' := SetSlot(m, SlotAt(l, n, 0), Plain(v));
    } else {
      m' := m.(world := m.world.(globals := m.world.globals[Cell(n, 0) := v]));
    }
  }

  // ----- operations -----

  lemma LowByteSet(v: Value, byte: nat)
    requires byte < 256
    ensures WithLowByte(v, byte).Plain? && LowByte(WithLowByte(v, byte)) == byte
  {
    if v.Plain? {
      var u := Unsigned(v.word) - Unsigned(v.word) % 256 + byte;
      assert 0 <= u < TWO_64;
      assert Unsigned(Wrap(u)) == u;
    }
  }

  /** `setCC %al` and `andb $1, %al` leave the truth of the comparison in the low byte. */
  lemma ComparisonByte(mc: MachineContext, m: MachineState, c: Comparison, rest: seq<Instruction>)
    returns (m': MachineState)
    ensures RunStraight(mc, [SetAl(c), LowBitOfAl] + rest, m) == RunStraight(mc, rest, m')
    ensures SameMemory(m, m') && LowByte(Reg(m', Rax)) == FromBool(Holds(c, false, m.compared.0, m.compared.1))
  {
    hide LowByte, WithLowByte, RunStraight, Holds;
    var bit := if Holds(c, false, m.compared.0, m.compared.1) then 1 else 0;
    LowByteSet(Reg(m, Rax), bit);
    var m1 := SetReg(m, Rax, WithLowByte(Reg(m, Rax), bit));
    LowByteSet(Reg(m1, Rax), bit);
    m' := SetReg(m1, Rax, WithLowByte(Reg(m1, Rax), bit));
    assert [SetAl(c), LowBitOfAl] + rest == [SetAl(c)] + ([LowBitOfAl] + rest);
    StraightCons(mc, SetAl(c), [LowBitOfAl] + rest, m);
    StraightCons(mc, LowBitOfAl, rest, m1);
  }

  /** `movzbl %al, %eax` and `cltq` widen a bit to a word. */
  lemma WidenRax(mc: MachineContext, m: MachineState, bit: nat) returns (m': MachineState)
    requires bit <= 1 && LowByte(Reg(m, Rax)) == bit
    ensures RunStraight(mc, [ExtendAlToEax, ExtendEaxToRax], m) == Continue(m')
    ensures SameMemory(m, m') && Reg(m', Rax) == Plain(bit)
  {
    hide RunStraight;
    var m1 := SetReg(m, Rax, Plain(Wrap(bit)));
    m' := SetReg(m1, Rax, Plain(bit));
    assert [ExtendAlToEax, ExtendEaxToRax] == [ExtendAlToEax] + [ExtendEaxToRax];
    StraightCons(mc, ExtendAlToEax, [ExtendEaxToRax], m);
    StraightOne(mc, ExtendEaxToRax, m1);
  }

  lemma ComparisonRuns(mc: MachineContext, m: MachineState, c: Comparison, l: Word, r: Word, wide: bool)
    returns (m': MachineState)
    requires Reg(m, R10) == Plain(l) && Reg(m, R11) == Plain(r)
    ensures var code := if wide then [CompareWith(R11, R10), SetAl(c), LowBitOfAl, ExtendAlToEax, ExtendEaxToRax]
                        else [CompareWith(R11, R10), SetAl(c), LowBitOfAl, ExtendAlTo(R10)];
            RunStraight(mc, code, m) == Continue(m')
    ensures SameMemory(m, m') && Reg(m', if wide then Rax else R10) == Plain(FromBool(Compare(c, l, r)))
  {
    hide RunStraight;
    var m1 := m.(compared := (l, r));
    var tail := if wide then [ExtendAlToEax, ExtendEaxToRax] else [ExtendAlTo(R10)];
    var m2 := ComparisonByte(mc, m1, c, tail);
    StraightCons(mc, CompareWith(R11, R10), [SetAl(c), LowBitOfAl] + tail, m);
    if wide {
      assert [CompareWith(R11, R10), SetAl(c), LowBitOfAl, ExtendAlToEax, ExtendEaxToRax] == [CompareWith(R11, R10)]
        + ([SetAl(c), LowBitOfAl] + tail);
      m' := WidenRax(mc, m2, FromBool(Compare(c, l, r)));
    } else {
      assert [CompareWith(R11, R10), SetAl(c), LowBitOfAl, ExtendAlTo(R10)] == [CompareWith(R11, R10)]
        + ([SetAl(c), LowBitOfAl] + tail);
      StraightOne(mc, ExtendAlTo(R10), m2);
      m' := SetReg(m2, R10, Plain(FromBool(Compare(c, l, r))));
    }
  }

  /** The divide instruction takes a 128-bit dividend; sign extension makes it the 64-bit one. */
  lemma SignExtended(l: Word)
    ensures (if l < 0 then -1 else 0) * TWO_64 + Unsigned(l) == l
  {
  }

  lemma HalfAtMost(a: nat, b: nat)
    requires b >= 2
    ensures 2 * (a / b) <= a
  {
    var q := a / b;
    assert a == q * b + a % b;
    assert q * b == 2 * q + q * (b - 2);
    assert q * (b - 2) >= 0;
  }

  lemma QuotientFits(l: Word, r: Word)
    requires r != 0
    ensures -TWO_63 <= TruncatedQuotient(l, r) < TWO_63 <==> !(l == -TWO_63 && r == -1)
  {
    var a, b, q := Abs(l), Abs(r), Abs(l) / Abs(r);
    if b == 1 {
      assert q == a;
    } else {
      HalfAtMost(a, b);
      assert 0 <= q && 2 * q <= a <= TWO_63;
    }
  }

  /** One `idivq`: the dividend is in the two registers of the pair, the divisor in `%r11`. */
  lemma DivideSteps(mc: MachineContext, m: MachineState, l: Word, r: Word)
    requires Reg(m, Rax) == Plain(l) && Reg(m, Rdx) == Plain(if l < 0 then -1 else 0) && Reg(m, R11) == Plain(r)
    ensures Step(mc, DivideBy(R11), m)
         == if DivisionTraps(l, r) then Halt(Trapped)
            else Continue(SetReg(SetReg(m, Rax, Plain(Wrap(TruncatedQuotient(l, r)))),
                                 Rdx, Plain(Wrap(TruncatedRemainder(l, r)))))
  {
    hide TruncatedQuotient, TruncatedRemainder;
    SignExtended(l);
    if r != 0 {
      QuotientFits(l, r);
    }
  }

  lemma DivisionRuns(mc: MachineContext, m: MachineState, l: Word, r: Word) returns (m': MachineState)
    requires Reg(m, R10) == Plain(l) && Reg(m, R11) == Plain(r)
    ensures RunStraight(mc, [MoveRegister(R10, Rax), SignExtendRax, DivideBy(R11)], m)
         == if DivisionTraps(l, r) then Halt(Trapped) else Continue(m')
    ensures !DivisionTraps(l, r) ==>
      && SameMemory(m, m')
      && Reg(m', Rax) == Plain(Wrap(TruncatedQuotient(l, r))) && Reg(m', Rdx) == Plain(Wrap(TruncatedRemainder(l, r)))
  {
    hide RunStraight, TruncatedQuotient, TruncatedRemainder, DivisionTraps, Wrap;
    var m1 := SetReg(m, Rax, Plain(l));
    var m2 := SetReg(m1, Rdx, Plain(if l < 0 then -1 else 0));
    assert [MoveRegister(R10, Rax), SignExtendRax, DivideBy(R11)] == [MoveRegister(R10, Rax)]
      + ([SignExtendRax] + [DivideBy(R11)]);
    StraightCons(mc, MoveRegister(R10, Rax), [SignExtendRax] + [DivideBy(R11)], m);
    StraightCons(mc, SignExtendRax, [DivideBy(R11)], m1);
    StraightOne(mc, DivideBy(R11), m2);
    DivideSteps(mc, m2, l, r);
    var result := RunStraight(mc, [MoveRegister(R10, Rax), SignExtendRax, DivideBy(R11)], m);
    m' := if result.Continue? then result.state else m;
  }

  lemma ArithmeticRuns(mc: MachineContext, m: MachineState, op: BinaryOperator, l: Word, r: Word)
    returns (m': MachineState)
    requires op == Add || op == Subtract || op == Multiply
    requires Reg(m, R10) == Plain(l) && Reg(m, R11) == Plain(r)
    ensures RunStraight(mc, Operation(op), m) == Continue(m') && SameMemory(m, m')
    ensures ApplyBinary(op, l, r).Some? && Reg(m', R10) == Plain(ApplyBinary(op, l, r).value)
  {
    hide RunStraight, Wrap, FromBool, TruncatedQuotient, TruncatedRemainder, DivisionTraps;
    StraightOne(mc, Operation(op)[0], m);
    m' := SetReg(m, R10, Plain(ApplyBinary(op, l, r).value));
  }

  lemma OperationRuns(mc: MachineContext, m: MachineState, op: BinaryOperator, l: Word, r: Word)
    returns (m': MachineState)
    requires Reg(m, R10) == Plain(l) && Reg(m, R11) == Plain(r)
    ensures match ApplyBinary(op, l, r)
            case None => RunStraight(mc, Operation(op), m) == Halt(Trapped)
            case Some(v) =>
              RunStraight(mc, Operation(op), m) == Continue(m') && SameMemory(m, m') && Reg(m', ResultRegister(op))
                == Plain(v)
  {
    hide RunStraight, DivisionTraps, TruncatedQuotient, TruncatedRemainder, SameMemory, Step;
    match op
    case Add => m' := ArithmeticRuns(mc, m, op, l, r);
    case Subtract => m' := ArithmeticRuns(mc, m, op, l, r);
    case Multiply => m' := ArithmeticRuns(mc, m, op, l, r);
    case Divide => m' := DivisionRuns(mc, m, l, r);
    case Modulo => m' := DivisionRuns(mc, m, l, r);
    case Equal => m' := ComparisonRuns(mc, m, IfEqual, l, r, true);
    case NotEqual => m' := ComparisonRuns(mc, m, IfNotEqual, l, r, true);
    case Less => m' := ComparisonRuns(mc, m, IfLess, l, r, false);
    case LessEqual => m' := ComparisonRuns(mc, m, IfLessEqual, l, r, false);
    case GreaterEqual => m' := ComparisonRuns(mc, m, IfGreaterEqual, l, r, false);
    case Greater => m' := ComparisonRuns(mc, m, IfGreater, l, r, false);
  }

  /** `xorb $-1, %al` and `andb $1, %al` turn a bit around. */
  lemma FlippedByte(mc: MachineContext, m: MachineState, bit: nat, rest: seq<Instruction>) returns (m': MachineState)
    requires bit <= 1 && LowByte(Reg(m, Rax)) == bit
    ensures RunStraight(mc, [FlipAl, LowBitOfAl] + rest, m) == RunStraight(mc, rest, m')
    ensures SameMemory(m, m') && LowByte(Reg(m', Rax)) == 1 - bit
  {
    hide LowByte, WithLowByte, RunStraight;
    var m1 := SetReg(m, Rax, WithLowByte(Reg(m, Rax), 255 - bit));
    LowByteSet(Reg(m, Rax), 255 - bit);
    LowByteSet(Reg(m1, Rax), 1 - bit);
    m' := SetReg(m1, Rax, WithLowByte(Reg(m1, Rax), 1 - bit));
    assert [FlipAl, LowBitOfAl] + rest == [FlipAl] + ([LowBitOfAl] + rest);
    StraightCons(mc, FlipAl, [LowBitOfAl] + rest, m);
    StraightCons(mc, LowBitOfAl, rest, m1);
  }

  /** Not: the low byte is flipped between the test and the mask. */
  lemma NotRuns(mc: MachineContext, m: MachineState, v: Word) returns (m': MachineState)
    requires Reg(m, R10) == Plain(v)
    ensures RunStraight(mc, UnaryOperation(UnaryOperator.Not), m) == Continue(m')
    ensures SameMemory(m, m') && Reg(m', Rax) == Plain(FromBool(v == 0))
  {
    hide RunStraight, LowByte, WithLowByte;
    var bit := if v != 0 then 1 else 0;
    var m1 := m.(compared := (v, 0));
    var m2 := SetReg(m1, Rax, WithLowByte(Reg(m1, Rax), bit));
    LowByteSet(Reg(m1, Rax), bit);
    var tail := [ExtendAlToEax, ExtendEaxToRax];
    assert UnaryOperation(UnaryOperator.Not) == [CompareWithZero(R10)]
      + ([SetAl(IfNotEqual)] + ([FlipAl, LowBitOfAl] + tail));
    StraightCons(mc, CompareWithZero(R10), [SetAl(IfNotEqual)] + ([FlipAl, LowBitOfAl] + tail), m);
    StraightCons(mc, SetAl(IfNotEqual), [FlipAl, LowBitOfAl] + tail, m1);
    var m3 := FlippedByte(mc, m2, bit, tail);
    m' := WidenRax(mc, m3, 1 - bit);
  }

  lemma UnaryRuns(mc: MachineContext, m: MachineState, op: UnaryOperator, v: Word) returns (m': MachineState)
    requires Reg(m, R10) == Plain(v)
    ensures RunStraight(mc, UnaryOperation(op), m) == Continue(m')
    ensures SameMemory(m, m') && Reg(m', UnaryResultRegister(op)) == Plain(ApplyUnary(op, v))
  {
    match op
    case Move => m' := m;
    case Negate =>
      StraightOne(mc, NegateIn(R10), m);
      m' := SetReg(m, R10, Plain(Wrap(-(v as int))));
    case Not => m' := NotRuns(mc, m, v);
  }

  // ----- assignments -----

  /** Names the method or the program declares; strings only where they are passed on. */
  ghost predicate CleanOperands(ctx: Context, l: Layout, os: seq<Operand>, strings: bool) {
    forall k :: 0 <= k < |os| ==> (os[k].Field? ==> Known(ctx, l, os[k].name)) && (os[k].Text? ==> strings)
  }

  ghost predicate CleanAssignment(ctx: Context, l: Layout, a: Assignment) {
    CleanOperands(ctx, l, Operands(a), a.Call?) && Known(ctx, l, a.destination)
  }

  /** The machine does what `effect` says, unless that is a trap. */
  ghost predicate Follows(ctx: Context, l: Layout, effect: Effect, r: MachineEffect, stack: int) {
    match effect
    case Next(st') => r.Continue? && Related(ctx, l, st', r.state) && r.state.stack == stack
    case Stop(o) => o == Trapped || r == Halt(o)
  }

  lemma UnaryAssignmentRuns(ctx: Context, mc: MachineContext, l: Layout, st: State, m: MachineState, a: Assignment)
    requires a.Unary? && LayoutOk(ctx, l) && Related(ctx, l, st, m) && CleanAssignment(ctx, l, a)
    ensures Follows(ctx, l, Exec(ctx, a, st), RunStraight(mc, AssignmentCode(l.offsets, a), m), m.stack)
  {
    hide RunStraight, LayoutOk, Related, Known, Load, Save, UnaryOperation;
    assert Operands(a)[0] == a.source;
    var v := Eval(ctx, st, a.source);
    LoadRuns(ctx, mc, l, st, m, a.source, R10);
    var m1 := SetReg(m, R10, Plain(v));
    var m2 := UnaryRuns(mc, m1, a.unaryOp, v);
    RelatedKept(ctx, l, st, m1, m2);
    var m3 := StoreRuns(ctx, mc, l, st, m2, a.destination, UnaryResultRegister(a.unaryOp), ApplyUnary(a.unaryOp, v));
    var save := Save(l.offsets, a.destination, UnaryResultRegister(a.unaryOp));
    StraightConcatenation(mc, Load(l.offsets, a.source, R10), UnaryOperation(a.unaryOp) + save, m);
    StraightConcatenation(mc, UnaryOperation(a.unaryOp), save, m1);
  }

  lemma BinaryAssignmentRuns(ctx: Context, mc: MachineContext, l: Layout, st: State, m: MachineState, a: Assignment)
    requires a.Binary? && LayoutOk(ctx, l) && Related(ctx, l, st, m) && CleanAssignment(ctx, l, a)
    ensures Follows(ctx, l, Exec(ctx, a, st), RunStraight(mc, AssignmentCode(l.offsets, a), m), m.stack)
  {
    hide RunStraight, LayoutOk, Related, Known, Load, Save, Operation, ApplyBinary;
    assert Operands(a)[0] == a.left && Operands(a)[1] == a.right;
    var v, w := Eval(ctx, st, a.left), Eval(ctx, st, a.right);
    LoadRuns(ctx, mc, l, st, m, a.left, R10);
    var m1 := SetReg(m, R10, Plain(v));
    LoadRuns(ctx, mc, l, st, m1, a.right, R11);
    var m2 := SetReg(m1, R11, Plain(w));
    var m3 := OperationRuns(mc, m2, a.binaryOp, v, w);
    var save := Save(l.offsets, a.destination, ResultRegister(a.binaryOp));
    StraightConcatenation(mc, Load(l.offsets, a.left, R10), Load(l.offsets, a.right, R11)
      + (Operation(a.binaryOp) + save), m);
    StraightConcatenation(mc, Load(l.offsets, a.right, R11), Operation(a.binaryOp) + save, m1);
    StraightConcatenation(mc, Operation(a.binaryOp), save, m2);
    if ApplyBinary(a.binaryOp, v, w).Some? {
      RelatedKept(ctx, l, st, m2, m3);
      var m4 := StoreRuns(ctx, mc, l, st, m3, a.destination, ResultRegister(a.binaryOp),
        ApplyBinary(a.binaryOp, v, w).value);
    }
  }

  /** Where element `i` of an array is. */
  function ElementAt(ctx: Context, l: Layout, name: string, i: int): Value
    requires name !in ctx.globals ==> name in l.offsets
  {
    if name in ctx.globals then Pointer(Symbol(name), 8 * i) else Pointer(Frame, SlotAt(l, name, i))
  }

  /** Base address, index scaled by 8, and their sum in `%r10`. */
  lemma ElementAddressRuns(ctx: Context, mc: MachineContext, l: Layout, st: State, m: MachineState, name: string,
                           index: Operand, i: Word, rest: seq<Instruction>) returns (m': MachineState)
    requires LayoutOk(ctx, l) && Related(ctx, l, st, m) && CleanOperands(ctx, l, [index], false)
    requires Eval(ctx, st, index) == i && InRange(ctx, name, i)
    ensures RunStraight(mc, LoadArray(l.offsets, name, R10)
      + (Load(l.offsets, index, R11) + ([Scale(R11), AddTo(R11, R10)] + rest)), m)
         == RunStraight(mc, rest, m')
    ensures name !in ctx.globals ==> name in l.offsets && name in l.lengths && i < l.lengths[name]
    ensures SameMemory(m, m') && Related(ctx, l, st, m') && Reg(m', R10) == ElementAt(ctx, l, name, i)
  {
    hide RunStraight, Related, Load, Known, LoadArray;
    assert [index][0] == index;
    ElementInside(ctx, l, name, i);
    hide LayoutOk;
    ArrayBase(ctx, mc, l, st, m, name);
    var m1 := SetReg(m, R10, ElementAt(ctx, l, name, 0));
    RelatedKept(ctx, l, st, m, m1);
    LoadRuns(ctx, mc, l, st, m1, index, R11);
    var m2 := SetReg(m1, R11, Plain(i));
    StraightConcatenation(mc, LoadArray(l.offsets, name, R10), Load(l.offsets, index, R11)
      + ([Scale(R11), AddTo(R11, R10)] + rest), m);
    StraightConcatenation(mc, Load(l.offsets, index, R11), [Scale(R11), AddTo(R11, R10)] + rest, m1);
    m' := AddressSum(ctx, mc, l, m2, name, i, rest);
    RelatedKept(ctx, l, st, m, m');
  }

  lemma ElementInside(ctx: Context, l: Layout, name: string, i: Word)
    requires LayoutOk(ctx, l) && InRange(ctx, name, i)
    ensures name !in ctx.globals ==> name in l.offsets && name in l.lengths && i < l.lengths[name]
    ensures Wrap(8 * i) == 8 * i
  {
    if name !in ctx.globals { assert LocalOk(l, name); }
  }

  lemma AddressSum(ctx: Context, mc: MachineContext, l: Layout, m: MachineState, name: string, i: Word,
                   rest: seq<Instruction>) returns (m': MachineState)
    requires name !in ctx.globals ==> name in l.offsets
    requires Reg(m, R10) == ElementAt(ctx, l, name, 0) && Reg(m, R11) == Plain(i) && Wrap(8 * i) == 8 * i
    ensures RunStraight(mc, [Scale(R11), AddTo(R11, R10)] + rest, m) == RunStraight(mc, rest, m')
    ensures SameMemory(m, m') && Reg(m', R10) == ElementAt(ctx, l, name, i)
  {
    hide RunStraight, Wrap;
    var m3 := SetReg(m, R11, Plain(8 * i));
    m' := SetReg(m3, R10, ElementAt(ctx, l, name, i));
    assert [Scale(R11), AddTo(R11, R10)] + rest == [Scale(R11)] + ([AddTo(R11, R10)] + rest);
    StraightCons(mc, Scale(R11), [AddTo(R11, R10)] + rest, m);
    StraightCons(mc, AddTo(R11, R10), rest, m3);
  }

  lemma ArrayBase(ctx: Context, mc: MachineContext, l: Layout, st: State, m: MachineState, name: string)
    requires LayoutOk(ctx, l) && Related(ctx, l, st, m) && name in ctx.lengths
    ensures name !in ctx.globals ==> name in l.offsets
    ensures RunStraight(mc, LoadArray(l.offsets, name, R10), m) == Continue(SetReg(m, R10, ElementAt(ctx, l, name, 0)))
  {
    if name !in ctx.globals { assert LocalOk(l, name); }
    StraightOne(mc, LoadArray(l.offsets, name, R10)[0], m);
  }

  lemma ElementRead(ctx: Context, l: Layout, st: State, m: MachineState, name: string, i: Word)
    requires Related(ctx, l, st, m) && InRange(ctx, name, i)
    requires name !in ctx.globals ==> name in l.offsets && name in l.lengths && i < l.lengths[name]
    requires Reg(m, R10) == ElementAt(ctx, l, name, i)
    ensures ReadThrough(m, Reg(m, R10)) == Some(Plain(Read(ctx, st, name, i)))
  {
    if name !in ctx.globals {
      assert HoldsLocal(l, st.locals, m.frame, name);
      assert FrameAt(m.frame, SlotAt(l, name, i)) == Plain(Read(ctx, st, name, i));
    }
  }

  /** The element addressed by `%r10` ends up in the destination. */
  lemma ElementSaved(ctx: Context, mc: MachineContext, l: Layout, st: State, m: MachineState, a: Assignment, i: Word)
    requires a.ArrayAccess? && LayoutOk(ctx, l) && Related(ctx, l, st, m) && CleanAssignment(ctx, l, a)
    requires InRange(ctx, a.accessArray, i)
    requires a.accessArray !in ctx.globals ==>
      a.accessArray in l.offsets && a.accessArray in l.lengths && i < l.lengths[a.accessArray]
    requires Reg(m, R10) == ElementAt(ctx, l, a.accessArray, i)
    ensures var save := Save(l.offsets, a.destination, R11);
      Follows(ctx, l, Next(Write(ctx, st, a.destination, 0, Read(ctx, st, a.accessArray, i))),
        RunStraight(mc, [LoadIndirect(R10, R11)] + save, m), m.stack)
  {
    hide RunStraight, LayoutOk, Known, Save, Related;
    var v := Read(ctx, st, a.accessArray, i);
    ElementRead(ctx, l, st, m, a.accessArray, i);
    var m2 := SetReg(m, R11, Plain(v));
    StraightCons(mc, LoadIndirect(R10, R11), Save(l.offsets, a.destination, R11), m);
    RelatedKept(ctx, l, st, m, m2);
    var m3 := StoreRuns(ctx, mc, l, st, m2, a.destination, R11, v);
  }

  lemma ArrayAccessRuns(ctx: Context, mc: MachineContext, l: Layout, st: State, m: MachineState, a: Assignment)
    requires a.ArrayAccess? && LayoutOk(ctx, l) && Related(ctx, l, st, m) && CleanAssignment(ctx, l, a)
    ensures Follows(ctx, l, Exec(ctx, a, st), RunStraight(mc, AssignmentCode(l.offsets, a), m), m.stack)
  {
    assert Operands(a) == [a.accessIndex];
    var i := Eval(ctx, st, a.accessIndex);
    if InRange(ctx, a.accessArray, i) {
      hide RunStraight, LayoutOk, Known, Load, Save, LoadArray, Related;
      var save := Save(l.offsets, a.destination, R11);
      var m1 := ElementAddressRuns(ctx, mc, l, st, m, a.accessArray, a.accessIndex, i, [LoadIndirect(R10, R11)] + save);
      assert [Scale(R11), AddTo(R11, R10), LoadIndirect(R10, R11)] + save == [Scale(R11), AddTo(R11, R10)]
        + ([LoadIndirect(R10, R11)] + save);
      ElementSaved(ctx, mc, l, st, m1, a, i);
    }
  }

  lemma ArrayUpdateRuns(ctx: Context, mc: MachineContext, l: Layout, st: State, m: MachineState, a: Assignment)
    requires a.ArrayUpdate? && LayoutOk(ctx, l) && Related(ctx, l, st, m) && CleanAssignment(ctx, l, a)
    ensures Follows(ctx, l, Exec(ctx, a, st), RunStraight(mc, AssignmentCode(l.offsets, a), m), m.stack)
  {
    assert Operands(a)[0] == a.updateIndex && Operands(a)[1] == a.updateValue;
    var i, v := Eval(ctx, st, a.updateIndex), Eval(ctx, st, a.updateValue);
    if InRange(ctx, a.destination, i) {
      hide RunStraight, LayoutOk, Known, Load, LoadArray, Related;
      var rest := Load(l.offsets, a.updateValue, R11) + [StoreIndirect(R11, R10)];
      var m1 := ElementAddressRuns(ctx, mc, l, st, m, a.destination, a.updateIndex, i, rest);
      LoadRuns(ctx, mc, l, st, m1, a.updateValue, R11);
      var m2 := SetReg(m1, R11, Plain(v));
      StraightConcatenation(mc, Load(l.offsets, a.updateValue, R11), [StoreIndirect(R11, R10)], m1);
      StraightOne(mc, StoreIndirect(R11, R10), m2);
      ElementWritten(ctx, mc, l, st, m2, a.destination, i, v);
    }
  }

  lemma ElementWritten(ctx: Context, mc: MachineContext, l: Layout, st: State, m: MachineState, name: string, i: Word,
                       v: Word)
    requires LayoutOk(ctx, l) && Related(ctx, l, st, m) && InRange(ctx, name, i)
    requires name !in ctx.globals ==> name in l.offsets && name in l.lengths && i < l.lengths[name]
    requires Reg(m, R10) == ElementAt(ctx, l, name, i) && Reg(m, R11) == Plain(v)
    ensures Follows(ctx, l, Next(Write(ctx, st, name, i, v)), Step(mc, StoreIndirect(R11, R10), m), m.stack)
  {
    hide LayoutOk, Related, Known;
    if name !in ctx.globals {
      WriteLocal(ctx, l, st, m, name, i, v);
    } else {
      WriteGlobal(ctx, l, st, m, name, i, v);
    }
  }

  lemma WriteGlobal(ctx: Context, l: Layout, st: State, m: MachineState, n: string, i: int, v: Word)
    requires Related(ctx, l, st, m) && n in ctx.globals
    ensures Related(ctx, l, Write(ctx, st, n, i, v), m.(world := m.world.(globals := m.world.globals[Cell(n, i) := v])))
  {
  }

  // ----- calls -----

  /** The first `k` arguments are where a callee looks for them. */
  ghost predicate Passed(ctx: Context, st: State, os: seq<Operand>, m: MachineState, k: nat)
    requires k <= |os|
  {
    forall i :: 0 <= i < k ==> OutgoingValue(m, i) == OperandValue(ctx, st, os[i])
  }

  lemma ArgumentRegisterIs(i: nat)
    requires i < 6
    ensures ArgumentRegister(i) == IntegerArguments[i]
  {
  }

  /** One more argument leaves the earlier ones and the frame alone. */
  lemma ArgumentRuns(ctx: Context, mc: MachineContext, l: Layout, st: State, m: MachineState, os: seq<Operand>,
                     k: nat) returns (m': MachineState)
    requires LayoutOk(ctx, l) && Related(ctx, l, st, m) && CleanOperands(ctx, l, os, true)
    requires k < |os| && Passed(ctx, st, os, m, k) && m.stack + ExtraStack(|os|) == 0 - l.size
    ensures RunStraight(mc, ArgumentCode(l.offsets, os[k], k), m) == Continue(m')
    ensures Related(ctx, l, st, m') && m'.stack == m.stack && Passed(ctx, st, os, m', k + 1)
  {
    hide LayoutOk, Related, RunStraight, Load, Known;
    var o, v := os[k], OperandValue(ctx, st, os[k]);
    if k < 6 {
      ArgumentRegisterIs(k);
      LoadRuns(ctx, mc, l, st, m, o, ArgumentRegister(k));
      m' := SetReg(m, IntegerArguments[k], v);
      forall i | 0 <= i < k ensures OutgoingValue(m', i) == OperandValue(ctx, st, os[i]) { }
    } else {
      LoadRuns(ctx, mc, l, st, m, o, R10);
      var m1 := SetReg(m, R10, v);
      m' := SetSlot(m1, m.stack + 8 * (k - 6), v);
      BelowFrame(ctx, l, st, m1, m.stack + 8 * (k - 6), v);
      StraightConcatenation(mc, Load(l.offsets, o, R10), [StoreOutgoing(R10, 8 * (k - 6))], m);
      StraightOne(mc, StoreOutgoing(R10, 8 * (k - 6)), m1);
      StackArgumentPassed(ctx, st, m, os, k, v);
    }
  }

  lemma StackArgumentPassed(ctx: Context, st: State, m: MachineState, os: seq<Operand>, k: nat, v: Value)
    requires 6 <= k < |os| && Passed(ctx, st, os, m, k) && v == OperandValue(ctx, st, os[k])
    ensures Passed(ctx, st, os, SetSlot(SetReg(m, R10, v), m.stack + 8 * (k - 6), v), k + 1)
  {
    hide OperandValue;
    var m' := SetSlot(SetReg(m, R10, v), m.stack + 8 * (k - 6), v);
    forall i | 0 <= i < k + 1 ensures OutgoingValue(m', i) == OperandValue(ctx, st, os[i]) {
      if i < k { assert OutgoingValue(m, i) == OperandValue(ctx, st, os[i]); }
    }
  }

  /** What lies below the frame is none of the method's slots. */
  lemma BelowFrame(ctx: Context, l: Layout, st: State, m: MachineState, at: int, v: Value)
    requires LayoutOk(ctx, l) && Related(ctx, l, st, m) && at < 0 - l.size
    ensures Related(ctx, l, st, SetSlot(m, at, v))
  {
    forall n | n in l.lengths ensures n in l.offsets && HoldsLocal(l, st.locals, m.frame[at := v], n) {
      assert LocalOk(l, n) && HoldsLocal(l, st.locals, m.frame, n);
    }
  }

  lemma {:induction false} ArgumentsRun(ctx: Context, mc: MachineContext, l: Layout, st: State, m: MachineState,
                                        os: seq<Operand>, k: nat) returns (m': MachineState)
    requires LayoutOk(ctx, l) && Related(ctx, l, st, m) && CleanOperands(ctx, l, os, true)
    requires k <= |os| && m.stack + ExtraStack(|os|) == 0 - l.size
    ensures RunStraight(mc, ArgumentsCode(l.offsets, os[..k]), m) == Continue(m')
    ensures Related(ctx, l, st, m') && m'.stack == m.stack && Passed(ctx, st, os, m', k)
    decreases k
  {
    hide LayoutOk, Related, CleanOperands, RunStraight, OperandValue, OutgoingValue, ArgumentCode;
    if k == 0 {
      m' := m;
      NothingRuns(mc, m);
    } else {
      var m1 := ArgumentsRun(ctx, mc, l, st, m, os, k - 1);
      m' := ArgumentRuns(ctx, mc, l, st, m1, os, k - 1);
      assert os[..k][..k - 1] == os[..k - 1] && os[..k][k - 1] == os[k - 1];
      StraightConcatenation(mc, ArgumentsCode(l.offsets, os[..k - 1]), ArgumentCode(l.offsets, os[k - 1], k - 1), m);
    }
  }

  lemma NothingRuns(mc: MachineContext, m: MachineState)
    ensures RunStraight(mc, [], m) == Continue(m)
  {
  }

  /** The callee receives the caller's operands, in order. */
  lemma {:induction false} ArgumentsReceived(ctx: Context, st: State, os: seq<Operand>, m: MachineState, k: nat)
    requires k <= |os| && Passed(ctx, st, os, m, k)
    ensures OutgoingArguments(m, k) == Some(EvalArguments(ctx, st, os)[..k])
  {
    if k > 0 {
      ArgumentsReceived(ctx, st, os, m, k - 1);
      assert OutgoingValue(m, k - 1) == OperandValue(ctx, st, os[k - 1]);
      var all := EvalArguments(ctx, st, os);
      assert all[..k] == all[..k - 1] + [EvalArgument(ctx, st, os[k - 1])];
    }
  }

  /** The arguments, register by register (section 3.2.3 of the System V AMD64 ABI): at the call, `%rdi`, `%rsi`,
      `%rdx`, `%rcx`, `%r8` and `%r9` hold the operands' values, every later one lies above the stack pointer, eight
      bytes apart, and `%rax` is 0, because no vector register is used. */
  lemma ArgumentsPassed(ctx: Context, mc: MachineContext, l: Layout, st: State, m: MachineState, os: seq<Operand>)
    returns (m': MachineState)
    requires LayoutOk(ctx, l) && Related(ctx, l, st, m) && CleanOperands(ctx, l, os, true)
    requires m.stack + ExtraStack(|os|) == 0 - l.size
    ensures RunStraight(mc, ArgumentsCode(l.offsets, os) + [MoveImmediate(0, Rax)], m) == Continue(m')
    ensures m'.stack == m.stack && Related(ctx, l, st, m')
    ensures var at := i requires 0 <= i < |os| => OperandValue(ctx, st, os[i]);
      && (|os| > 0 ==> Reg(m', Rdi) == at(0))
      && (|os| > 1 ==> Reg(m', Rsi) == at(1))
      && (|os| > 2 ==> Reg(m', Rdx) == at(2))
      && (|os| > 3 ==> Reg(m', Rcx) == at(3))
      && (|os| > 4 ==> Reg(m', R8) == at(4))
      && (|os| > 5 ==> Reg(m', R9) == at(5))
      && (forall i :: 6 <= i < |os| ==> Slot(m', m.stack + 8 * (i - 6)) == at(i))
      && Reg(m', Rax) == Plain(0)
  {
    hide RunStraight, Related, LayoutOk, ArgumentsCode;
    assert os[..|os|] == os;
    var m1 := ArgumentsRun(ctx, mc, l, st, m, os, |os|);
    m' := SetReg(m1, Rax, Plain(0));
    RelatedKept(ctx, l, st, m1, m');
    StraightConcatenation(mc, ArgumentsCode(l.offsets, os), [MoveImmediate(0, Rax)], m);
    StraightOne(mc, MoveImmediate(0, Rax), m1);
    forall i | 0 <= i < |os| ensures OutgoingValue(m', i) == OperandValue(ctx, st, os[i]) {
      assert OutgoingValue(m1, i) == OperandValue(ctx, st, os[i]);
    }
  }

  /** The smallest multiple of 16 with room for the arguments beyond the sixth. */
  lemma ExtraStackAligned(count: nat)
    ensures ExtraStack(count) % 16 == 0
    ensures var words := if count > 6 then count - 6 else 0; 8 * words <= ExtraStack(count) < 8 * words + 16
  {
    if count > 6 {
      var n := count - 6;
      assert (n + n % 2) % 2 == 0;
      var half := (n + n % 2) / 2;
      assert n + n % 2 == 2 * half;
      assert ExtraStack(count) == 16 * half;
    }
  }

  lemma CallAligned(ctx: Context, l: Layout, m: MachineState, count: nat)
    requires LayoutOk(ctx, l) && m.stack + ExtraStack(count) == 0 - l.size
    ensures m.stack % 16 == 0
  {
    hide ExtraStack, Apart, LocalOk;
    ExtraStackAligned(count);
  }

  lemma ExtraStackCovers(count: nat)
    ensures (if count > 6 then 8 * (count - 6) else 0) <= ExtraStack(count)
  {
  }

  /** A callee may use what lies below the frame. */
  lemma FrameKept(ctx: Context, l: Layout, locals: Store, frame: map<int, Value>, kept: int)
    requires LayoutOk(ctx, l) && HoldsLocals(l, locals, frame) && kept <= 0 - l.size
    ensures var frame' := map k | k in frame && k >= kept :: frame[k];
      HoldsLocals(l, locals, frame') && FrameAt(frame', 0) == FrameAt(frame, 0)
  {
    hide Apart;
    var frame' := map k | k in frame && k >= kept :: frame[k];
    forall n | n in l.lengths ensures n in l.offsets && HoldsLocal(l, locals, frame', n) {
      assert LocalOk(l, n) && HoldsLocal(l, locals, frame, n);
    }
  }

  /** The call itself: aligned, with the arguments in place, leaving the frame as it was. */
  lemma PerformedCall(ctx: Context, mc: MachineContext, l: Layout, st: State, m: MachineState, callee: string,
                      os: seq<Operand>)
    requires LayoutOk(ctx, l) && Related(ctx, l, st, m) && mc.call == ctx.call
    requires Passed(ctx, st, os, m, |os|) && m.stack + ExtraStack(|os|) == 0 - l.size
    ensures var r := PerformCall(mc, m, callee, |os|);
      match ctx.call(callee, EvalArguments(ctx, st, os), st.world)
      case Returned(v, w) =>
        r.Continue? && Related(ctx, l, st.(world := w), r.state) && r.state.stack == m.stack && Reg(r.state, Rax)
          == Plain(v)
      case o => r == Halt(o)
  {
    hide LocalOk, HoldsLocal, Apart, ArgumentValue, OutgoingArguments, Passed, ExtraStack;
    ArgumentsReceived(ctx, st, os, m, |os|);
    assert EvalArguments(ctx, st, os)[..|os|] == EvalArguments(ctx, st, os);
    CallAligned(ctx, l, m, |os|);
    match ctx.call(callee, EvalArguments(ctx, st, os), st.world)
    case Returned(v, w) =>
      var kept := m.stack + if |os| > 6 then 8 * (|os| - 6) else 0;
      var frame' := map k | k in m.frame && k >= kept :: m.frame[k];
      ExtraStackCovers(|os|);
      FrameKept(ctx, l, st.locals, m.frame, kept);
    case _ =>
  }

  lemma RelatedAnyStack(ctx: Context, l: Layout, st: State, m: MachineState, stack: int)
    requires Related(ctx, l, st, m)
    ensures Related(ctx, l, st, m.(stack := stack))
  {
  }

  /** The stack pointer moves down for the arguments beyond the sixth, and back. */
  lemma StackMoves(mc: MachineContext, m: MachineState, count: nat)
    ensures RunStraight(mc, if count > 6 then [GrowStack(ExtraStack(count))] else [], m)
         == Continue(m.(stack := m.stack - ExtraStack(count)))
    ensures RunStraight(mc, if count > 6 then [ShrinkStack(ExtraStack(count))] else [], m)
         == Continue(m.(stack := m.stack + ExtraStack(count)))
  {
    if count > 6 {
      StraightOne(mc, GrowStack(ExtraStack(count)), m);
      StraightOne(mc, ShrinkStack(ExtraStack(count)), m);
    }
  }

  lemma CallAssignmentRuns(ctx: Context, mc: MachineContext, l: Layout, st: State, m: MachineState, a: Assignment)
    requires a.Call? && LayoutOk(ctx, l) && Related(ctx, l, st, m) && CleanAssignment(ctx, l, a)
    requires mc.call == ctx.call && m.stack == 0 - l.size
    ensures Follows(ctx, l, Exec(ctx, a, st), RunStraight(mc, AssignmentCode(l.offsets, a), m), m.stack)
  {
    hide RunStraight, LayoutOk, Related, Known, Save, ArgumentsCode, Passed, PerformCall, ExtraStack;
    var os, count := a.arguments, |a.arguments|;
    var grow := if count > 6 then [GrowStack(ExtraStack(count))] else [];
    var shrink := if count > 6 then [ShrinkStack(ExtraStack(count))] else [];
    var save := Save(l.offsets, a.destination, Rax);
    var code := ArgumentsCode(l.offsets, os);
    var call := [MoveImmediate(0, Rax), CallMethod(a.callee, count)];
    assert os[..count] == os;
    var m1 := m.(stack := m.stack - ExtraStack(count));
    StackMoves(mc, m, count);
    RelatedAnyStack(ctx, l, st, m, m1.stack);
    var m2 := ArgumentsRun(ctx, mc, l, st, m1, os, count);
    StraightConcatenation(mc, grow, code + (call + (shrink + save)), m);
    StraightConcatenation(mc, code, call + (shrink + save), m1);
    StraightConcatenation(mc, call, shrink + save, m2);
    var r := CallRuns(ctx, mc, l, st, m2, a.callee, os);
    if r.Continue? {
      var m3, st' := r.state, st.(world := r.state.world);
      CalleeReturned(ctx, l, st, m2, a, r);
      var v := Reg(m3, Rax).word;
      var m4 := m3.(stack := m3.stack + ExtraStack(count));
      StackMoves(mc, m3, count);
      RelatedAnyStack(ctx, l, st', m3, m4.stack);
      StraightConcatenation(mc, shrink, save, m3);
      var m5 := StoreRuns(ctx, mc, l, st', m4, a.destination, Rax, v);
    }
  }

  ghost predicate CallResult(ctx: Context, l: Layout, st: State, m: MachineState, callee: string, os: seq<Operand>,
                             r: MachineEffect) {
    match ctx.call(callee, EvalArguments(ctx, st, os), st.world)
    case Returned(v, w) =>
      r.Continue? && Related(ctx, l, st.(world := w), r.state) && r.state.stack == m.stack && Reg(r.state, Rax)
        == Plain(v)
    case o => r == Halt(o)
  }

  lemma CallRuns(ctx: Context, mc: MachineContext, l: Layout, st: State, m: MachineState, callee: string,
                 os: seq<Operand>) returns (r: MachineEffect)
    requires LayoutOk(ctx, l) && Related(ctx, l, st, m) && mc.call == ctx.call
    requires Passed(ctx, st, os, m, |os|) && m.stack + ExtraStack(|os|) == 0 - l.size
    ensures r == RunStraight(mc, [MoveImmediate(0, Rax), CallMethod(callee, |os|)], m)
      && CallResult(ctx, l, st, m, callee, os, r)
  {
    hide RunStraight, LayoutOk, Related, PerformCall, ExtraStack;
    var m1 := SetReg(m, Rax, Plain(0));
    RelatedKept(ctx, l, st, m, m1);
    forall i | 0 <= i < |os| ensures OutgoingValue(m1, i) == OperandValue(ctx, st, os[i]) {
      assert OutgoingValue(m, i) == OperandValue(ctx, st, os[i]);
    }
    PerformedCall(ctx, mc, l, st, m1, callee, os);
    assert [MoveImmediate(0, Rax), CallMethod(callee, |os|)] == [MoveImmediate(0, Rax)] + [CallMethod(callee, |os|)];
    StraightCons(mc, MoveImmediate(0, Rax), [CallMethod(callee, |os|)], m);
    StraightOne(mc, CallMethod(callee, |os|), m1);
    r := PerformCall(mc, m1, callee, |os|);
  }

  lemma CalleeReturned(ctx: Context, l: Layout, st: State, m: MachineState, a: Assignment, r: MachineEffect)
    requires a.Call? && r.Continue? && CallResult(ctx, l, st, m, a.callee, a.arguments, r)
    ensures Reg(r.state, Rax).Plain? && Related(ctx, l, st.(world := r.state.world), r.state) && r.state.stack
      == m.stack
    ensures Exec(ctx, a, st) == Next(Write(ctx, st.(world := r.state.world), a.destination, 0, Reg(r.state, Rax).word))
  {
  }

  /** Every assignment is simulated. */
  lemma AssignmentRuns(ctx: Context, mc: MachineContext, l: Layout, st: State, m: MachineState, a: Assignment)
    requires LayoutOk(ctx, l) && Related(ctx, l, st, m) && CleanAssignment(ctx, l, a)
    requires mc.call == ctx.call && m.stack == 0 - l.size
    ensures Follows(ctx, l, Exec(ctx, a, st), RunStraight(mc, AssignmentCode(l.offsets, a), m), m.stack)
  {
    hide LayoutOk, Related, CleanAssignment, Exec, RunStraight, AssignmentCode, Follows;
    match a
    case Unary(_, _, _) => UnaryAssignmentRuns(ctx, mc, l, st, m, a);
    case Binary(_, _, _, _) => BinaryAssignmentRuns(ctx, mc, l, st, m, a);
    case ArrayAccess(_, _, _) => ArrayAccessRuns(ctx, mc, l, st, m, a);
    case ArrayUpdate(_, _, _) => ArrayUpdateRuns(ctx, mc, l, st, m, a);
    case Call(_, _, _) => CallAssignmentRuns(ctx, mc, l, st, m, a);
  }
}
