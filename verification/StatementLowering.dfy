/** Lowering preserves meaning, statements: running the generated blocks goes where the structured
    semantics goes, through assignments, scopes, branches and loops. */
module StatementLowering {
  import opened Words
  import opened Worlds
  import opened Llir
  import opened Names
  import opened Lowering
  import opened LoweringStructure
  import opened Matching
  import opened Journeys
  import opened ExpressionLowering
  import Ir

  /** The scopes after a statement, as the tables and the locals have them. */
  ghost predicate Settled(x: Setting, symbols: SymbolTables, frames: seq<Ir.Frame>, st: State, w: World) {
    Agrees(x, symbols, frames, st) && st.world == w
  }

  /** Where a statement can continue: after it, at the loop's end, or at the loop's next round. */
  datatype Exits = Exits(next: Position, breaks: Position, continues: Position)

  /** Running from `p` follows the structured result `r`; an exhausted `fuel` shows as that many
      block transfers without an end. */
  ghost predicate Follows(x: Setting, p: Position, st: State, r: Ir.Status, symbols: SymbolTables, exits: Exits,
                          fuel: nat, st': State) {
    match r
    case Normal(frames, w) => Leads(x, p, st, Arrives(exits.next, st')) && Settled(x, symbols, frames, st', w)
    case Broke(frames, w) => Leads(x, p, st, Arrives(exits.breaks, st')) && Settled(x, symbols, frames, st', w)
    case Continued(frames, w) => Leads(x, p, st, Arrives(exits.continues, st')) && Settled(x, symbols, frames, st', w)
    case Finished(v, w) => Leads(x, p, st, Ends(Returned(v, w)))
    case Halted(o) => Leads(x, p, st, Ends(o))
    case Failed => true
    case OutOfFuel => Leads(x, p, st, Spins(fuel))
  }

  function ExitsOf(s: Generator, s': Generator): Exits {
    Exits(Here(s'), Position(Top(s.breaks), 0), Position(Top(s.continues), 0))
  }

  lemma FollowsAfter(x: Setting, p: Position, st: State, q: Position, st1: State, r: Ir.Status, symbols: SymbolTables,
                     exits: Exits, fuel: nat, st': State)
    requires Leads(x, p, st, Arrives(q, st1)) && Follows(x, q, st1, r, symbols, exits, fuel, st')
    ensures Follows(x, p, st, r, symbols, exits, fuel, st')
  {
    hide Leads, Settled;
    match r
    case Normal(_, _) => Then(x, p, st, q, st1, Arrives(exits.next, st'));
    case Broke(_, _) => Then(x, p, st, q, st1, Arrives(exits.breaks, st'));
    case Continued(_, _) => Then(x, p, st, q, st1, Arrives(exits.continues, st'));
    case Finished(v, w) => Then(x, p, st, q, st1, Ends(Returned(v, w)));
    case Halted(o) => Then(x, p, st, q, st1, Ends(o));
    case Failed =>
    case OutOfFuel => Then(x, p, st, q, st1, Spins(fuel));
  }

  /** Assignments and calls have one exit and no loop. */
  ghost predicate Performs(x: Setting, p: Position, st: State, r: Ir.Status, symbols: SymbolTables, next: Position,
                           st': State) {
    match r
    case Normal(frames, w) => Leads(x, p, st, Arrives(next, st')) && Settled(x, symbols, frames, st', w)
    case Halted(o) => Leads(x, p, st, Ends(o))
    case Failed => true
    case _ => false
  }

  lemma PerformsAfter(x: Setting, p: Position, st: State, q: Position, st1: State, r: Ir.Status, symbols: SymbolTables,
                      next: Position, st': State)
    requires Leads(x, p, st, Arrives(q, st1)) && Performs(x, q, st1, r, symbols, next, st')
    ensures Performs(x, p, st, r, symbols, next, st')
  {
    hide Leads, Settled;
    match r
    case Normal(_, _) => Then(x, p, st, q, st1, Arrives(next, st'));
    case Halted(o) => Then(x, p, st, q, st1, Ends(o));
    case Failed =>
  }

  // ----- assignments -----

  lemma StoreRuns(x: Setting, s: Generator, location: Ir.Location, index: Operand, source: Operand, i: nat, v: Word,
                  frames: seq<Ir.Frame>, st: State) returns (st': State)
    requires Agrees(x, s.symbols, frames, st) && Ir.InBounds(Ir.Bound(x.src, frames, location.identifier), i)
    requires if location.index.Some? then Eval(x.ctx, st, index) == i
      && Ir.Bound(x.src, frames, location.identifier).isArray else i == 0
    requires Eval(x.ctx, st, source) == v
    requires Completes(x.g, GenerateStore(s, location, FieldOf(s.symbols, location.identifier).identifier, index,
      source))
    ensures var s' := GenerateStore(s, location, FieldOf(s.symbols, location.identifier).identifier, index, source);
            && Completes(x.g, s)
            && Leads(x, Here(s), st, Arrives(Here(s'), st'))
            && Settled(x, s.symbols, Ir.PutFrames(x.src, frames, location.identifier, i, v), st',
                       Ir.PutWorld(x.src, frames, st.world, location.identifier, i, v))
  {
    hide Ranged, ArraysRanged, Leads, Shaped, Stored, Completes, FieldOf, Ir.Bound, Ir.PutFrames, Ir.PutWorld,
      SameWorldView;
    var d := FieldOf(s.symbols, location.identifier).identifier;
    if location.index.Some? { BoundRanged(x.src, x.ctx, s.symbols, frames, location.identifier, i); }
    AppendLeads(x, s, if location.index.Some? then ArrayUpdate(d, index, source) else Unary(Move, d, source), st);
    WriteMatches(x.src, x.ctx, s.symbols, frames, st, location.identifier, i, v);
    st' := Write(x.ctx, st, d, i, v);
  }

  /** What `StoreResult` does once the right-hand side is known. */
  function Combined(src: Ir.Context, a: Ir.Assignment, i: nat, v: Word, frames: seq<Ir.Frame>, w: World): Ir.Status
    requires Ir.InBounds(Ir.Bound(src, frames, a.location.identifier), i)
  {
    var id := a.location.identifier;
    if a.op == Ir.Set then Ir.Normal(Ir.PutFrames(src, frames, id, i, v), Ir.PutWorld(src, frames, w, id, i, v))
    else
      match Ir.Operate(Ir.Compound(a.op), Ir.Fetch(src, frames, w, id, i), v)
      case None => Ir.Halted(Trapped)
      case Some(v') => Ir.Normal(Ir.PutFrames(src, frames, id, i, v'), Ir.PutWorld(src, frames, w, id, i, v'))
  }

  /** The code after the right-hand side. */
  function Combine(s: Generator, a: Ir.Assignment, index: Operand, source: Operand): Generator {
    var destination := FieldOf(s.symbols, a.location.identifier).identifier;
    if a.op == Ir.Set then GenerateStore(s, a.location, destination, index, source)
    else
      var (s3, old_) := NewTemporary(s, '$');
      var s4 := Append(s3, if a.location.index.Some? then ArrayAccess(old_, index, destination)
                           else Unary(Move, old_, Field(destination)));
      var (s5, d) := NewTemporary(s4, '$');
      var s6 := Append(s5, Assignment.Binary(ToAssignment(Ir.Compound(a.op)), d, Field(old_), source));
      GenerateStore(s6, a.location, destination, index, Field(d))
  }

  lemma CombineRuns(x: Setting, s: Generator, a: Ir.Assignment, index: Operand, source: Operand, i: nat, v: Word,
                    frames: seq<Ir.Frame>, st: State) returns (st': State)
    requires Agrees(x, s.symbols, frames, st) && Ir.InBounds(Ir.Bound(x.src, frames, a.location.identifier), i)
    requires Wf(s) && Completes(x.g, Combine(s, a, index, source))
    requires OperandBelow(index, s.temporaries) && OperandBelow(source, s.temporaries) && Eval(x.ctx, st, source) == v
    requires if a.location.index.Some? then Eval(x.ctx, st, index) == i
      && Ir.Bound(x.src, frames, a.location.identifier).isArray else i == 0
    ensures Performs(x, Here(s), st, Combined(x.src, a, i, v, frames, st.world), s.symbols,
      Here(Combine(s, a, index, source)), st')
  {
    hide Ranged, ArraysRanged, Leads, Shaped, Stored, Completes, FieldOf, Ir.Bound, Ir.PutFrames, Ir.PutWorld,
      SameWorldView, Ir.Operate, ApplyBinary, TemporaryName, OperandBelow, Ir.Fetch, TemporariesKept;
    if a.op == Ir.Set {
      st' := StoreRuns(x, s, a.location, index, source, i, v, frames, st);
    } else {
      st' := CompoundRuns(x, s, a, index, source, i, v, frames, st);
    }
  }

  lemma CompoundRuns(x: Setting, s: Generator, a: Ir.Assignment, index: Operand, source: Operand, i: nat, v: Word,
                     frames: seq<Ir.Frame>, st: State) returns (st': State)
    requires a.op != Ir.Set
    requires Agrees(x, s.symbols, frames, st) && Ir.InBounds(Ir.Bound(x.src, frames, a.location.identifier), i)
    requires Wf(s) && Completes(x.g, Combine(s, a, index, source))
    requires OperandBelow(index, s.temporaries) && OperandBelow(source, s.temporaries) && Eval(x.ctx, st, source) == v
    requires if a.location.index.Some? then Eval(x.ctx, st, index) == i
      && Ir.Bound(x.src, frames, a.location.identifier).isArray else i == 0
    ensures Performs(x, Here(s), st, Combined(x.src, a, i, v, frames, st.world), s.symbols,
      Here(Combine(s, a, index, source)), st')
  {
    hide Ranged, ArraysRanged, Leads, Shaped, Stored, Completes, FieldOf, Ir.Bound, Ir.PutFrames, Ir.PutWorld,
      SameWorldView, Ir.Operate, ApplyBinary, TemporaryName, OperandBelow, Ir.Fetch, TemporariesKept, GenerateStore,
      Grows, Untouched, Wf;
    var destination := FieldOf(s.symbols, a.location.identifier).identifier;
    var (s3, old_) := NewTemporary(s, '$');
    var read := if a.location.index.Some? then ArrayAccess(old_, index, destination)
      else Unary(Move, old_, Field(destination));
    var s4 := Append(s3, read);
    var (s5, d) := NewTemporary(s4, '$');
    var op := Ir.Compound(a.op);
    var compute := Assignment.Binary(ToAssignment(op), d, Field(old_), source);
    var s6 := Append(s5, compute);
    var previous := Ir.Fetch(x.src, frames, st.world, a.location.identifier, i);
    StoreCompletes(x.g, s6, a.location, destination, index, Field(d));
    AppendLeads(x, s5, compute, st);
    assert Completes(x.g, s4) by { TemporaryStepHere(x, s4, '$'); }
    AppendLeads(x, s3, read, st);
    Stay(x, Here(s3), st);
    KeptReflexive(s.temporaries, st.locals);
    ReadMatches(x.src, x.ctx, s.symbols, frames, st, a.location.identifier, i);
    if a.location.index.Some? { BoundRanged(x.src, x.ctx, s.symbols, frames, a.location.identifier, i); }
    var st3 := TailRuns(x, s, s3, s.temporaries, '$', read, frames, st, st, previous, st.world);
    OperandKept(x.src, x.ctx, source, s.temporaries, st, st3);
    OperatorsAgree(op, previous, v);
    match Ir.Operate(op, previous, v)
    case None =>
      st' := st3;
      StopRuns(x, s, s5, compute, st, st3, Trapped);
    case Some(v') =>
      var st4 := TailRuns(x, s, s5, s4.temporaries, '$', compute, frames, st, st3, v', st.world);
      OperandKept(x.src, x.ctx, index, s.temporaries, st, st4);
      st' := StoreRuns(x, s6, a.location, index, Field(d), i, v', frames, st4);
      Then(x, Here(s), st, Here(s6), st4, Arrives(Here(Combine(s, a, index, source)), st'));
  }

  lemma TemporaryStepHere(x: Setting, s: Generator, prefix: char)
    ensures Here(NewTemporary(s, prefix).0) == Here(s)
      && (Completes(x.g, NewTemporary(s, prefix).0) ==> Completes(x.g, s))
  {
  }

  lemma StoreCompletes(g: Graph, s: Generator, location: Ir.Location, destination: string, index: Operand,
                       source: Operand)
    requires Completes(g, GenerateStore(s, location, destination, index, source))
    ensures Completes(g, s)
  {
    var s' := GenerateStore(s, location, destination, index, source);
    assert g.blocks[s.current].assignments[..|s.code|] == s'.code[..|s.code|];
  }

  /** The right-hand side, then the store. */
  lemma ResultRuns(x: Setting, s: Generator, a: Ir.Assignment, index: Operand, i: nat, frames: seq<Ir.Frame>,
                   st: State) returns (st': State)
    requires Agrees(x, s.symbols, frames, st) && Ir.InBounds(Ir.Bound(x.src, frames, a.location.identifier), i)
    requires Wf(s) && Completes(x.g, GenerateResult(s, a, index))
    requires OperandBelow(index, s.temporaries)
    requires if a.location.index.Some? then Eval(x.ctx, st, index) == i
      && Ir.Bound(x.src, frames, a.location.identifier).isArray else i == 0
    ensures Performs(x, Here(s), st, Ir.StoreResult(x.src, a, i, frames, st.world), s.symbols,
      Here(GenerateResult(s, a, index)), st')
  {
    hide Ranged, ArraysRanged, Leads, Shaped, Stored, Completes, FieldOf, Ir.Bound, Ir.PutFrames, Ir.PutWorld,
      SameWorldView, Ir.Operate, OperandBelow, Ir.Fetch, TemporariesKept, Combine, Grows, Untouched,
      GenerateExpression, Ir.Eval;
    LiteralBelow(1, s.temporaries);
    if a.expression.None? {
      st' := CombineRuns(x, s, a, index, Literal(1), i, 1, frames, st);
    } else {
      var (s1, source) := GenerateExpression(s, a.expression.value);
      ExpressionAdvances(s, a.expression.value);
      CombineCompletes(x.g, s1, a, index, source);
      st' := ExpressionRuns(x, s, a.expression.value, frames, st);
      match Ir.Eval(x.src, a.expression.value, frames, st.world)
      case Value(v, w) =>
        var st1 := st';
        OperandKept(x.src, x.ctx, index, s.temporaries, st, st1);
        BelowLater(index, s.temporaries, s1.temporaries);
        st' := CombineRuns(x, s1, a, index, source, i, v, frames, st1);
        PerformsAfter(x, Here(s), st, Here(s1), st1, Combined(x.src, a, i, v, frames, w), s.symbols,
          Here(GenerateResult(s, a, index)), st');
      case _ =>
    }
  }

  function GenerateResult(s: Generator, a: Ir.Assignment, index: Operand): Generator {
    var (s1, source) := if a.expression.None? then (s, Literal(1)) else GenerateExpression(s, a.expression.value);
    Combine(s1, a, index, source)
  }

  lemma CombineCompletes(g: Graph, s: Generator, a: Ir.Assignment, index: Operand, source: Operand)
    requires Completes(g, Combine(s, a, index, source)) && Wf(s)
    ensures Completes(g, s)
  {
    hide Completes, Grows, FieldOf, TemporaryName, Wf;
    var destination := FieldOf(s.symbols, a.location.identifier).identifier;
    AdvancesReflexive(s);
    if a.op == Ir.Set {
      StoreCompletes(g, s, a.location, destination, index, source);
    } else {
      var (s3, old_) := NewTemporary(s, '$');
      var read := if a.location.index.Some? then ArrayAccess(old_, index, destination)
        else Unary(Move, old_, Field(destination));
      var s4 := Append(s3, read);
      var (s5, d) := NewTemporary(s4, '$');
      var compute := Assignment.Binary(ToAssignment(Ir.Compound(a.op)), d, Field(old_), source);
      StoreCompletes(g, Append(s5, compute), a.location, destination, index, Field(d));
      TemporaryAndAppend(s, s, '$', read);
      TemporaryAndAppend(s, s4, '$', compute);
      CompletesEarlier(g, s, Append(s5, compute));
    }
  }

  /** One unsigned comparison tells whether the index is in range. */
  lemma BoundsCheckRuns(x: Setting, s: Generator, index: Operand, length: nat, i: Word, st: State)
    requires Wf(s) && Completes(x.g, GenerateBoundsCheck(s, index, length)) && length < TWO_63 && Eval(x.ctx, st, index)
      == i
    ensures Completes(x.g, s)
    ensures Leads(x, Here(s), st, if 0 <= i < length then Arrives(Here(GenerateBoundsCheck(s, index, length)), st)
                                  else Ends(Exited(-1, st.world)))
  {
    hide Leads, Grows, Untouched, Closed;
    var n := s.nextBlock;
    var ready := NewBlock(NewBlock(s).0).0;
    var t := Branch(IfLess, true, index, Literal(Wrap(length)), n, n + 1);
    var s1 := Finish(ready, t, n);
    ExitLeads(x, s1, -1, n + 1, st);
    BranchLeads(x, ready, t, n, st);
    assert Here(s1) == Position(n, 0) && Here(ready) == Here(s);
    if !(0 <= i < length) {
      Then(x, Here(s), st, Position(n, 0), st, Ends(Exited(-1, st.world)));
    }
  }

  lemma AssignmentRuns(x: Setting, s: Generator, a: Ir.Assignment, frames: seq<Ir.Frame>, st: State)
    returns (st': State)
    requires Agrees(x, s.symbols, frames, st) && Wf(s) && Completes(x.g, GenerateAssignment(s, a))
    ensures Performs(x, Here(s), st, Ir.ExecAssignment(x.src, a, frames, st.world), s.symbols,
      Here(GenerateAssignment(s, a)), st')
  {
    hide Ranged, ArraysRanged, Leads, Shaped, Stored, Completes, FieldOf, Ir.Bound, SameWorldView,
      GenerateBoundsCheck, OperandBelow, Ir.Fetch, TemporariesKept, GenerateExpression, Ir.Eval, Ir.StoreResult,
      Grows, Untouched, Settled;
    var field := FieldOf(s.symbols, a.location.identifier);
    var b := Ir.Bound(x.src, frames, a.location.identifier);
    FieldMatches(x.src, s.symbols, frames, a.location.identifier);
    var (s1, index) := GenerateIndex(s, a.location);
    st' := st;
    IndexAdvances(s, a.location);
    AssignmentSplits(s, a);
    if b.Unbound? || b.isArray != a.location.index.Some? {
    } else if a.location.index.None? {
      LiteralBelow(0, s.temporaries);
      if b.length == 1 { st' := ResultRuns(x, s, a, index, 0, frames, st); }
    } else {
      st' := ElementRuns(x, s, a, frames, st);
    }
  }

  /** Index, right-hand side, store: the destination is the same field throughout. */
  lemma AssignmentSplits(s: Generator, a: Ir.Assignment)
    requires Wf(s)
    ensures var (s1, index) := GenerateIndex(s, a.location); GenerateAssignment(s, a) == GenerateResult(s1, a, index)
  {
    hide Grows, Untouched, Wf, GenerateIndex, GenerateExpression, GenerateStore, FieldOf;
    IndexAdvances(s, a.location);
    var (s1, index) := GenerateIndex(s, a.location);
    if a.expression.Some? { ExpressionAdvances(s1, a.expression.value); }
  }

  lemma LiteralBelow(v: Word, n: nat)
    ensures OperandBelow(Literal(v), n)
  {
  }

  lemma ElementRuns(x: Setting, s: Generator, a: Ir.Assignment, frames: seq<Ir.Frame>, st: State) returns (st': State)
    requires Agrees(x, s.symbols, frames, st) && Wf(s) && Completes(x.g, GenerateAssignment(s, a))
    requires a.location.index.Some?
    requires var b := Ir.Bound(x.src, frames, a.location.identifier); !b.Unbound? && b.isArray
    ensures Performs(x, Here(s), st, Ir.ExecAssignment(x.src, a, frames, st.world), s.symbols,
      Here(GenerateAssignment(s, a)), st')
  {
    hide Ranged, ArraysRanged, Leads, Shaped, Stored, Completes, FieldOf, Ir.Bound, SameWorldView,
      GenerateBoundsCheck, OperandBelow, Ir.Fetch, TemporariesKept, GenerateExpression, Ir.Eval, Ir.StoreResult,
      Grows, Untouched, Settled, Combine;
    var e := a.location.index.value;
    var length := |FieldOf(s.symbols, a.location.identifier).values|;
    FieldMatches(x.src, s.symbols, frames, a.location.identifier);
    ExpressionAdvances(s, e);
    var (s1, index) := GenerateExpression(s, e);
    var s2 := GenerateBoundsCheck(s1, index, length);
    AdvancesReflexive(s1);
    BoundsCheckAdvances(s1, s1, index, length);
    AssignmentSplits(s, a);
    ResultCompletes(x.g, s2, a, index);
    BoundsCheckRuns(x, s1, index, length, Eval(x.ctx, st, index), st);
    st' := ExpressionRuns(x, s, e, frames, st);
    match Ir.Eval(x.src, e, frames, st.world)
    case Value(i, w) =>
      var st1 := st';
      BoundsCheckRuns(x, s1, index, length, i, st1);
      BelowLater(index, s1.temporaries, s2.temporaries);
      if 0 <= i < length {
        Then(x, Here(s), st, Here(s1), st1, Arrives(Here(s2), st1));
        st' := ResultRuns(x, s2, a, index, i, frames, st1);
        PerformsAfter(x, Here(s), st, Here(s2), st1, Ir.StoreResult(x.src, a, i, frames, w), s.symbols,
          Here(GenerateAssignment(s, a)), st');
      } else {
        Then(x, Here(s), st, Here(s1), st1, Ends(Exited(-1, w)));
      }
    case _ =>
  }

  lemma ResultCompletes(g: Graph, s: Generator, a: Ir.Assignment, index: Operand)
    requires Completes(g, GenerateResult(s, a, index)) && Wf(s)
    ensures Completes(g, s)
  {
    hide Completes, GenerateExpression, Combine, Grows, Untouched, Wf;
    if a.expression.None? {
      CombineCompletes(g, s, a, index, Literal(1));
    } else {
      var (s1, source) := GenerateExpression(s, a.expression.value);
      ExpressionAdvances(s, a.expression.value);
      CombineCompletes(g, s1, a, index, source);
      ExpressionCompletes(g, s, a.expression.value);
    }
  }

  lemma UpdateRuns(x: Setting, s: Generator, u: Ir.ForUpdate, frames: seq<Ir.Frame>, st: State) returns (st': State)
    requires Agrees(x, s.symbols, frames, st) && Wf(s) && Completes(x.g, GenerateUpdate(s, u))
    ensures Performs(x, Here(s), st, Ir.ExecUpdate(x.src, u, frames, st.world), s.symbols, Here(GenerateUpdate(s, u)),
      st')
  {
    hide Ranged, ArraysRanged, Leads, Shaped, Stored, Completes, Wf, GenerateAssignment, GenerateCall,
      Ir.ExecAssignment, Ir.Perform, SameWorldView;
    match u
    case UpdateAssignment(a) => st' := AssignmentRuns(x, s, a, frames, st);
    case UpdateCall(call) => st' := CallRuns(x, s, call, frames, st);
  }
}
