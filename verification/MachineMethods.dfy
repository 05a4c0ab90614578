/** The emitted code of a method: its frame is sound, its prologue puts every argument in its slot,
    and its run is the run of the method's blocks. */
module MachineMethods {
  import opened Words
  import opened Worlds
  import opened Llir
  import opened Machine
  import opened CodeGeneration
  import opened FrameLayout
  import opened Selection
  import opened LinearCode
  import opened Programs
  import opened DeadCode

  // ----- the layout of a method -----

  function LayoutOf(offsets: Offsets, m: Method): Layout {
    var fields := MethodFields(m);
    Layout(Allocate(offsets, fields), Longest(fields), FrameSize(fields))
  }

  lemma {:induction false} LengthsFrom(fields: seq<FieldDeclaration>, n: string) returns (f: FieldDeclaration)
    requires n in Lengths(fields)
    ensures f in fields && f.identifier == n && Lengths(fields)[n] == |f.values|
  {
    var front, last := fields[..|fields| - 1], fields[|fields| - 1];
    if n in Lengths(front) && Lengths(fields)[n] == Lengths(front)[n] { f := LengthsFrom(front, n); }
      else { f := last; }
  }

  /** What the frame layout asks of a method: room for every name, no name of a global, and objects
      that fit the address space. */
  ghost predicate Layable(globals: seq<FieldDeclaration>, m: Method) {
    && SlotsFit(MethodFields(m)) && (forall f :: f in MethodFields(m) ==> |f.values| > 0)
    && (forall f :: f in MethodFields(m) ==> f.identifier !in GlobalNames(globals))
    && forall f :: f in globals + LocalFields(m.graph.order, m.graph.blocks) ==> 8 * |f.values| < TWO_63
  }

  /** The table left by earlier methods holds no global. */
  ghost predicate OffsetsOk(globals: seq<FieldDeclaration>, offsets: Offsets) {
    forall n :: n in GlobalNames(globals) ==> !IsLocal(offsets, n)
  }

  lemma LayoutIsOk(globals: seq<FieldDeclaration>, offsets: Offsets, m: Method, call: Oracle)
    requires Layable(globals, m) && OffsetsOk(globals, offsets)
    ensures LayoutOk(ContextOf(globals, m.graph, call), LayoutOf(offsets, m))
  {
    var ctx, l, fields := ContextOf(globals, m.graph, call), LayoutOf(offsets, m), MethodFields(m);
    hide Allocate, Longest, Lengths, LocalFields, FrameSize, FrameBytes, SlotsFit, Apart;
    FrameSizeAligned(fields);
    LayoutIsSound(fields, offsets);
    forall n | n in l.lengths ensures LocalOk(l, n) && n !in ctx.globals {
      LocalLaidOut(globals, offsets, m, n);
    }
    forall n | n in ctx.globals ensures !IsLocal(l.offsets, n) {
      AllocateElsewhere(fields, offsets, n);
    }
    forall n | n in ctx.lengths ensures 8 * ctx.lengths[n] < TWO_63
      && (n in ctx.globals || (n in l.lengths && ctx.lengths[n] <= l.lengths[n])) {
      ArrayLaidOut(globals, offsets, m, n);
    }
  }

  lemma LocalLaidOut(globals: seq<FieldDeclaration>, offsets: Offsets, m: Method, n: string)
    requires Layable(globals, m) && n in LayoutOf(offsets, m).lengths
    ensures LocalOk(LayoutOf(offsets, m), n) && n !in GlobalNames(globals)
  {
    var fields := MethodFields(m);
    var f := LongestIs(fields, n);
    InsideFrame(fields, offsets, f);
    FrameSizeAligned(fields);
  }

  lemma ArrayLaidOut(globals: seq<FieldDeclaration>, offsets: Offsets, m: Method, n: string)
    requires Layable(globals, m) && n in Lengths(globals + LocalFields(m.graph.order, m.graph.blocks))
    ensures var lengths := Lengths(globals + LocalFields(m.graph.order, m.graph.blocks));
            var l := LayoutOf(offsets, m);
            8 * lengths[n] < TWO_63 && (n in GlobalNames(globals) || (n in l.lengths && lengths[n] <= l.lengths[n]))
  {
    hide Lengths, LocalFields;
    var locals := LocalFields(m.graph.order, m.graph.blocks);
    var f := LengthsFrom(globals + locals, n);
    if f in globals {
      var i :| 0 <= i < |globals| && globals[i] == f;
      assert globals[i].identifier == n;
    } else {
      assert f in locals && f in MethodFields(m);
      LongestCovers(MethodFields(m));
    }
  }

  // ----- entering a method -----

  /** Where the caller left argument `i`. */
  function IncomingValue(m: MachineState, i: nat): Value {
    if i < 6 then Reg(m, IntegerArguments[i]) else Slot(m, 8 * (i - 6) + 16)
  }

  ghost predicate Incoming(arguments: seq<Argument>, m: MachineState) {
    forall i :: 0 <= i < |arguments| ==> IncomingValue(m, i) == ArgumentValue(arguments[i])
  }

  /** At the first instruction of a method: the return address on top of the stack, the caller's base,
      the arguments in place, and words in the rest of the memory below. */
  ghost predicate AtEntry(arguments: seq<Argument>, m: MachineState) {
    && m.stack == 8 && m.base == CallerBase && Incoming(arguments, m)
    && forall k :: k in m.frame && k < 0 ==> m.frame[k].Plain?
  }

  /** What the slots of the new frame happen to hold. */
  function Leftover(l: Layout, frame: map<int, Value>): Store {
    map n, i | n in l.lengths && 0 <= i < l.lengths[n] && n in l.offsets ::
      Cell(n, i) := if FrameAt(frame, SlotAt(l, n, i)).Plain? then FrameAt(frame, SlotAt(l, n, i)).word else 0
  }

  lemma FrameEntered(ctx: Context, mc: MachineContext, l: Layout, arguments: seq<Argument>, m: MachineState)
    returns (m': MachineState)
    requires LayoutOk(ctx, l) && AtEntry(arguments, m)
    ensures RunStraight(mc, [PushBase, EnterFrame, GrowStack(l.size)], m) == Continue(m')
    ensures Related(ctx, l, State(Leftover(l, m.frame), m.world), m') && m'.stack == 0 - l.size
      && Incoming(arguments, m')
  {
    hide RunStraight, LayoutOk, Leftover, AtEntry, Incoming, HoldsLocals;
    var m1 := SetSlot(m, 0, CallerBase).(stack := 0);
    var m2 := m1.(base := Pointer(Frame, 0));
    m' := m2.(stack := 0 - l.size);
    EntrySteps(mc, l, arguments, m);
    assert [PushBase, EnterFrame, GrowStack(l.size)] == [PushBase] + ([EnterFrame] + [GrowStack(l.size)]);
    StraightCons(mc, PushBase, [EnterFrame] + [GrowStack(l.size)], m);
    StraightCons(mc, EnterFrame, [GrowStack(l.size)], m1);
    StraightOne(mc, GrowStack(l.size), m2);
    FrameFresh(ctx, l, arguments, m, m');
  }

  /** The three steps of entering a method. */
  lemma EntrySteps(mc: MachineContext, l: Layout, arguments: seq<Argument>, m: MachineState)
    requires AtEntry(arguments, m)
    ensures var m1 := SetSlot(m, 0, CallerBase).(stack := 0);
      var m2 := m1.(base := Pointer(Frame, 0));
      && Step(mc, PushBase, m) == Continue(m1) && Step(mc, EnterFrame, m1) == Continue(m2)
      && Step(mc, GrowStack(l.size), m2) == Continue(m2.(stack := 0 - l.size))
  {
  }

  /** What a fresh frame holds, and where the arguments still are. */
  lemma FrameFresh(ctx: Context, l: Layout, arguments: seq<Argument>, m: MachineState, m': MachineState)
    requires LayoutOk(ctx, l) && AtEntry(arguments, m)
    requires m' == SetSlot(m, 0, CallerBase).(base := Pointer(Frame, 0), stack := 0 - l.size)
    ensures Related(ctx, l, State(Leftover(l, m.frame), m.world), m') && Incoming(arguments, m')
  {
    hide LayoutOk, Leftover;
    LeftoverHeld(ctx, l, m.frame, m'.frame);
    hide HoldsLocals;
    forall i | 0 <= i < |arguments| ensures IncomingValue(m', i) == ArgumentValue(arguments[i]) {
      assert IncomingValue(m, i) == ArgumentValue(arguments[i]);
    }
  }

  lemma LeftoverHeld(ctx: Context, l: Layout, frame: map<int, Value>, frame': map<int, Value>)
    requires LayoutOk(ctx, l) && (forall k :: k in frame && k < 0 ==> frame[k].Plain?)
    requires forall k :: k < 0 ==> FrameAt(frame', k) == FrameAt(frame, k)
    ensures HoldsLocals(l, Leftover(l, frame), frame')
  {
    var locals := Leftover(l, frame);
    forall n | n in l.lengths ensures n in l.offsets && HoldsLocal(l, locals, frame', n) {
      assert LocalOk(l, n);
      forall i | 0 <= i < l.lengths[n] ensures FrameAt(frame', SlotAt(l, n, i)) == Plain(Get(locals, Cell(n, i))) {
        assert Cell(n, i) in locals;
      }
    }
  }

  lemma ParameterRuns(ctx: Context, mc: MachineContext, l: Layout, st: State, m: MachineState,
                      parameter: FieldDeclaration, arguments: seq<Argument>, i: nat) returns (m': MachineState)
    requires LayoutOk(ctx, l) && Related(ctx, l, st, m) && Incoming(arguments, m) && AllNumbers(arguments)
    requires i < |arguments| && parameter.identifier in l.lengths
    ensures RunStraight(mc, ParameterCode(l.offsets, parameter, i), m) == Continue(m')
    ensures m'.stack == m.stack && m'.world == m.world && Incoming(arguments, m')
    ensures Related(ctx, l, st.(locals := st.locals[Cell(parameter.identifier, 0) := arguments[i].value]), m')
  {
    var n, v := parameter.identifier, arguments[i].value;
    assert LocalOk(l, n);
    assert IncomingValue(m, i) == Plain(v);
    var m1 := if i < 6 then m else SetReg(m, R10, Plain(v));
    m' := SetSlot(m1, SlotAt(l, n, 0), Plain(v));
    hide RunStraight;
    ParameterStored(mc, l, m, n, i, v, parameter);
    forall k | 0 <= k < |arguments| ensures IncomingValue(m', k) == ArgumentValue(arguments[k]) {
      assert IncomingValue(m, k) == ArgumentValue(arguments[k]);
    }
    RelatedKept(ctx, l, st, m, m1);
    WriteLocal(ctx, l, st, m1, n, 0, v);
    assert Write(ctx, st, n, 0, v) == st.(locals := st.locals[Cell(n, 0) := v]);
  }

  lemma ParameterStored(mc: MachineContext, l: Layout, m: MachineState, n: string, i: nat, v: Word,
                        parameter: FieldDeclaration)
    requires n in l.offsets && parameter.identifier == n && IncomingValue(m, i) == Plain(v)
      && m.base == Pointer(Frame, 0)
    ensures RunStraight(mc, ParameterCode(l.offsets, parameter, i), m)
         == Continue(SetSlot(if i < 6 then m else SetReg(m, R10, Plain(v)), SlotAt(l, n, 0), Plain(v)))
  {
    hide RunStraight;
    if i < 6 {
      ArgumentRegisterIs(i);
      StraightOne(mc, StoreSlot(ArgumentRegister(i), l.offsets[n]), m);
    } else {
      var load, store := LoadIncoming(8 * (i - 6) + 16, R10), StoreSlot(R10, l.offsets[n]);
      assert [load, store] == [load] + [store];
      StraightCons(mc, load, [store], m);
      StraightOne(mc, store, SetReg(m, R10, Plain(v)));
    }
  }

  /** The callee's parameter slot `i` receives the caller's argument `i`, for any number of arguments. */
  lemma {:induction false} ParametersRun(ctx: Context, mc: MachineContext, l: Layout, leftover: Store,
                                         m: MachineState, parameters: seq<FieldDeclaration>,
                                         arguments: seq<Argument>, k: nat) returns (m': MachineState)
    requires LayoutOk(ctx, l) && Related(ctx, l, State(leftover, m.world), m) && Incoming(arguments, m)
      && AllNumbers(arguments)
    requires k <= |parameters| == |arguments| && forall i :: 0 <= i < |parameters| ==>
      parameters[i].identifier in l.lengths
    ensures RunStraight(mc, ParametersCode(l.offsets, parameters[..k]), m) == Continue(m')
    ensures m'.stack == m.stack && m'.world == m.world && Incoming(arguments, m')
    ensures Related(ctx, l, State(Bind(leftover, parameters[..k], arguments[..k]), m.world), m')
  {
    hide RunStraight, LayoutOk, Related, Incoming, ParameterCode;
    if k == 0 {
      m' := m;
      NothingRuns(mc, m);
    } else {
      var m1 := ParametersRun(ctx, mc, l, leftover, m, parameters, arguments, k - 1);
      var st := State(Bind(leftover, parameters[..k - 1], arguments[..k - 1]), m.world);
      m' := ParameterRuns(ctx, mc, l, st, m1, parameters[k - 1], arguments, k - 1);
      assert parameters[..k][..k - 1] == parameters[..k - 1] && arguments[..k][..k - 1] == arguments[..k - 1];
      BindLast(leftover, parameters[..k], arguments[..k]);
      StraightConcatenation(mc, ParametersCode(l.offsets, parameters[..k - 1]),
        ParameterCode(l.offsets, parameters[k - 1], k - 1), m);
    }
  }

  /** The parameters, register by register (section 3.2.3 of the System V AMD64 ABI): the slots of the first six
      receive what `%rdi`, `%rsi`, `%rdx`, `%rcx`, `%r8` and `%r9` held, and every later one the words above the
      return address and the caller's base, eight bytes apart. */
  lemma ParametersReceived(ctx: Context, mc: MachineContext, l: Layout, leftover: Store, m: MachineState,
                           parameters: seq<FieldDeclaration>, arguments: seq<Argument>) returns (m': MachineState)
    requires LayoutOk(ctx, l) && Related(ctx, l, State(leftover, m.world), m) && Incoming(arguments, m)
      && AllNumbers(arguments)
    requires |parameters| == |arguments| && forall i :: 0 <= i < |parameters| ==> parameters[i].identifier in l.lengths
    requires forall i, j :: 0 <= i < j < |parameters| ==> parameters[i].identifier != parameters[j].identifier
    ensures RunStraight(mc, ParametersCode(l.offsets, parameters), m) == Continue(m')
    ensures |parameters| > 0 ==> ParameterHolds(l, m', parameters[0].identifier, Reg(m, Rdi))
    ensures |parameters| > 1 ==> ParameterHolds(l, m', parameters[1].identifier, Reg(m, Rsi))
    ensures |parameters| > 2 ==> ParameterHolds(l, m', parameters[2].identifier, Reg(m, Rdx))
    ensures |parameters| > 3 ==> ParameterHolds(l, m', parameters[3].identifier, Reg(m, Rcx))
    ensures |parameters| > 4 ==> ParameterHolds(l, m', parameters[4].identifier, Reg(m, R8))
    ensures |parameters| > 5 ==> ParameterHolds(l, m', parameters[5].identifier, Reg(m, R9))
    ensures forall i :: 6 <= i < |parameters| ==>
      ParameterHolds(l, m', parameters[i].identifier, Slot(m, 16 + 8 * (i - 6)))
  {
    m' := ParametersRun(ctx, mc, l, leftover, m, parameters, arguments, |parameters|);
    assert parameters[..|parameters|] == parameters && arguments[..|arguments|] == arguments;
    var st := State(Bind(leftover, parameters, arguments), m.world);
    hide LayoutOk, Related, ParametersCode, RunStraight, ParameterHolds, IncomingValue, Bind;
    forall i | 0 <= i < |parameters| ensures ParameterHolds(l, m', parameters[i].identifier, IncomingValue(m, i)) {
      assert IncomingValue(m, i) == ArgumentValue(arguments[i]);
      BoundAt(leftover, parameters, arguments, i);
      LocalHeld(ctx, l, st, m', parameters[i].identifier);
    }
    IncomingPlaces(m);
  }

  /** The slot of a parameter holds this value. */
  ghost predicate ParameterHolds(l: Layout, m: MachineState, name: string, v: Value) {
    name in l.offsets && Slot(m, SlotAt(l, name, 0)) == v
  }

  lemma LocalHeld(ctx: Context, l: Layout, st: State, m: MachineState, name: string)
    requires LayoutOk(ctx, l) && Related(ctx, l, st, m) && name in l.lengths
    ensures ParameterHolds(l, m, name, Plain(Get(st.locals, Cell(name, 0))))
  {
    assert LocalOk(l, name) && HoldsLocal(l, st.locals, m.frame, name);
  }

  lemma IncomingPlaces(m: MachineState)
    ensures IncomingValue(m, 0) == Reg(m, Rdi) && IncomingValue(m, 1) == Reg(m, Rsi)
    ensures IncomingValue(m, 2) == Reg(m, Rdx) && IncomingValue(m, 3) == Reg(m, Rcx)
    ensures IncomingValue(m, 4) == Reg(m, R8) && IncomingValue(m, 5) == Reg(m, R9)
    ensures forall i :: i >= 6 ==> IncomingValue(m, i) == Slot(m, 16 + 8 * (i - 6))
  {
  }

  /** A parameter is bound to its own argument. */
  lemma {:induction false} BoundAt(frame: Store, parameters: seq<FieldDeclaration>, arguments: seq<Argument>, i: nat)
    requires i < |parameters| == |arguments| && arguments[i].Number?
    requires forall j, k :: 0 <= j < k < |parameters| ==> parameters[j].identifier != parameters[k].identifier
    ensures Get(Bind(frame, parameters, arguments), Cell(parameters[i].identifier, 0)) == arguments[i].value
    decreases |parameters|
  {
    var n := |parameters| - 1;
    BindLast(frame, parameters, arguments);
    if i < n { BoundAt(frame, parameters[..n], arguments[..n], i); }
  }

  // ----- initial values of globals -----

  /** In zeroed memory, every element ends up with its declared value. */
  lemma {:induction false} ValuesInitialized(globals: Store, name: string, values: seq<Word>, i: nat)
    requires i < |values| && Get(globals, Cell(name, i)) == 0
    ensures Get(WithValues(globals, name, values), Cell(name, i)) == values[i]
  {
    var n := |values| - 1;
    if i < n {
      ValuesInitialized(globals, name, values[..n], i);
    } else {
      ValuesElsewhere(globals, name, values[..n], Cell(name, i));
    }
  }

  lemma {:induction false} ValuesElsewhere(globals: Store, name: string, values: seq<Word>, c: Cell)
    requires c.name != name || !(0 <= c.index < |values|)
    ensures Get(WithValues(globals, name, values), c) == Get(globals, c)
  {
    if values != [] { ValuesElsewhere(globals, name, values[..|values| - 1], c); }
  }

  lemma {:induction false} GlobalRuns(mc: MachineContext, m: MachineState, name: string, values: seq<Word>)
    ensures RunStraight(mc, GlobalCode(name, values), m)
         == Continue(m.(world := m.world.(globals := WithValues(m.world.globals, name, values))))
  {
    hide RunStraight;
    if values == [] {
      NothingRuns(mc, m);
    } else {
      var n := |values| - 1;
      GlobalRuns(mc, m, name, values[..n]);
      var m1 := m.(world := m.world.(globals := WithValues(m.world.globals, name, values[..n])));
      var last := if values[n] == 0 then [] else [StoreSymbolAt(values[n], name, n)];
      StraightConcatenation(mc, GlobalCode(name, values[..n]), last, m);
      if values[n] == 0 { NothingRuns(mc, m1); } else { StraightOne(mc, StoreSymbolAt(values[n], name, n), m1); }
    }
  }

  lemma {:induction false} GlobalsRun(mc: MachineContext, m: MachineState, globals: seq<FieldDeclaration>)
    ensures RunStraight(mc, GlobalsCode(globals), m)
         == Continue(m.(world := m.world.(globals := WithGlobals(m.world.globals, globals))))
  {
    hide RunStraight, WithValues, GlobalCode;
    if globals == [] {
      NothingRuns(mc, m);
    } else {
      var f, front := globals[|globals| - 1], globals[..|globals| - 1];
      GlobalsRun(mc, m, front);
      var m1 := m.(world := m.world.(globals := WithGlobals(m.world.globals, front)));
      StraightConcatenation(mc, GlobalsCode(front), GlobalCode(f.identifier, f.values), m);
      GlobalRuns(mc, m1, f.identifier, f.values);
    }
  }

  lemma RelatedInNewWorld(ctx: Context, l: Layout, st: State, m: MachineState, w: World)
    requires Related(ctx, l, st, m)
    ensures Related(ctx, l, st.(world := w), m.(world := w))
  {
  }

  /** The whole prologue. */
  lemma PrologueRuns(ctx: Context, mc: MachineContext, l: Layout, parameters: seq<FieldDeclaration>,
                     initialized: seq<FieldDeclaration>, arguments: seq<Argument>, m: MachineState)
    returns (m': MachineState)
    requires LayoutOk(ctx, l) && AtEntry(arguments, m) && AllNumbers(arguments) && |parameters| == |arguments|
    requires forall i :: 0 <= i < |parameters| ==> parameters[i].identifier in l.lengths
    ensures RunStraight(mc, Prologue(l.offsets, parameters, l.size, initialized), m) == Continue(m')
    ensures m'.stack == 0 - l.size
    ensures Related(ctx, l, State(Bind(Leftover(l, m.frame), parameters, arguments),
                                  m.world.(globals := WithGlobals(m.world.globals, initialized))), m')
  {
    hide RunStraight, LayoutOk, Related, ParametersCode, GlobalsCode, WithGlobals, Leftover, Incoming;
    var m1 := FrameEntered(ctx, mc, l, arguments, m);
    EnteredWorld(mc, l.size, m, m1);
    var m2 := ParametersRun(ctx, mc, l, Leftover(l, m.frame), m1, parameters, arguments, |parameters|);
    assert parameters[..|parameters|] == parameters && arguments[..|arguments|] == arguments;
    GlobalsRun(mc, m2, initialized);
    m' := m2.(world := m2.world.(globals := WithGlobals(m2.world.globals, initialized)));
    RelatedInNewWorld(ctx, l, State(Bind(Leftover(l, m.frame), parameters, arguments), m.world), m2, m'.world);
    StraightConcatenation(mc, [PushBase, EnterFrame, GrowStack(l.size)], ParametersCode(l.offsets, parameters)
      + GlobalsCode(initialized), m);
    StraightConcatenation(mc, ParametersCode(l.offsets, parameters), GlobalsCode(initialized), m1);
  }

  lemma EnteredWorld(mc: MachineContext, size: nat, m: MachineState, m': MachineState)
    requires RunStraight(mc, [PushBase, EnterFrame, GrowStack(size)], m) == Continue(m')
    ensures m'.world == m.world
  {
    hide RunStraight;
    var m1 := SetSlot(m, m.stack - 8, m.base).(stack := m.stack - 8);
    var m2 := m1.(base := Pointer(Frame, m1.stack));
    assert [PushBase, EnterFrame, GrowStack(size)] == [PushBase] + ([EnterFrame] + [GrowStack(size)]);
    StraightCons(mc, PushBase, [EnterFrame] + [GrowStack(size)], m);
    StraightCons(mc, EnterFrame, [GrowStack(size)], m1);
    StraightOne(mc, GrowStack(size), m2);
  }
}
