/** When the locals of a lowered method hold the variables of the structured program, and which
    writes keep it so. */
module Matching {
  import opened Words
  import opened Worlds
  import opened Llir
  import opened Names
  import opened Lowering
  import Ir

  /** The two sides have the same globals, and every call that neither goes wrong nor strays does the same. */
  ghost predicate SameWorldView(src: Ir.Context, ctx: Context) {
    && (forall callee, arguments, w ::
          src.call(callee, arguments, w).Some? && !src.call(callee, arguments, w).value.Strayed? ==>
            ctx.call(callee, arguments, w) == src.call(callee, arguments, w).value)
    && ctx.globals == src.globals.Keys
    && forall n :: n in ctx.globals ==> ValidIdentifier(n)
  }

  // ----- what the symbol tables say -----

  ghost predicate ShapedVariable(field: FieldDeclaration, identifier: string, level: nat, v: Ir.Variable) {
    && ValidIdentifier(identifier)
    && field.identifier == FieldName(identifier, level)
    && field.isArray == v.isArray && |field.values| == |v.values| < TWO_63
  }

  ghost predicate ShapedFrame(table: map<string, FieldDeclaration>, level: nat, frame: Ir.Frame) {
    && table.Keys == frame.Keys
    && forall id :: id in frame ==> ShapedVariable(table[id], id, level, frame[id])
  }

  ghost predicate ShapedGlobals(table: map<string, FieldDeclaration>, globals: map<string, Ir.GlobalInfo>) {
    && table.Keys == globals.Keys
    && forall id :: id in globals ==>
         table[id].identifier == id && table[id].isArray == globals[id].isArray
         && |table[id].values| == globals[id].length < TWO_63
  }

  /** The symbol tables describe the scopes. */
  ghost predicate Shaped(src: Ir.Context, symbols: SymbolTables, frames: seq<Ir.Frame>) {
    && |symbols| == |frames| + 1
    && ShapedGlobals(symbols[0], src.globals)
    && forall k :: 0 <= k < |frames| ==> ShapedFrame(symbols[k + 1], k + 1, frames[k])
  }

  /** The lowered context knows an array of this name, at least as long. */
  predicate FieldRanged(ctx: Context, f: FieldDeclaration) {
    f.isArray ==> f.identifier in ctx.lengths && |f.values| <= ctx.lengths[f.identifier]
  }

  ghost predicate Ranged(ctx: Context, symbols: SymbolTables) {
    forall k, id :: 0 <= k < |symbols| && id in symbols[k] ==> FieldRanged(ctx, symbols[k][id])
  }

  lemma {:induction false} LookupRanged(ctx: Context, symbols: SymbolTables, identifier: string)
    requires Ranged(ctx, symbols)
    ensures FieldRanged(ctx, FieldOf(symbols, identifier))
    decreases |symbols|
  {
    hide FieldRanged;
    if symbols == [] || identifier in symbols[|symbols| - 1] {
      ScalarRanged(ctx, FieldDeclaration(identifier, false, [0]));
    } else {
      LookupRanged(ctx, symbols[..|symbols| - 1], identifier);
    }
  }

  lemma ScalarRanged(ctx: Context, f: FieldDeclaration)
    requires !f.isArray
    ensures FieldRanged(ctx, f)
  {
  }

  /** What is in bounds in the structured program is in range in the lowered one. */
  lemma BoundRanged(src: Ir.Context, ctx: Context, symbols: SymbolTables, frames: seq<Ir.Frame>, identifier: string,
                    i: int)
    requires Shaped(src, symbols, frames) && Ranged(ctx, symbols)
    requires Ir.InBounds(Ir.Bound(src, frames, identifier), i) && Ir.Bound(src, frames, identifier).isArray
    ensures InRange(ctx, FieldOf(symbols, identifier).identifier, i)
  {
    hide Shaped, Ranged, Ir.Bound, FieldOf, ShapedVariable;
    FieldMatches(src, symbols, frames, identifier);
    LookupRanged(ctx, symbols, identifier);
  }

  // ----- what the locals hold -----

  ghost predicate StoredVariable(identifier: string, level: nat, values: seq<Word>, locals: Store) {
    forall i :: 0 <= i < |values| ==> Get(locals, Cell(FieldName(identifier, level), i)) == values[i]
  }

  ghost predicate StoredFrame(level: nat, frame: Ir.Frame, locals: Store) {
    forall id :: id in frame ==> StoredVariable(id, level, frame[id].values, locals)
  }

  /** Every variable's cells hold its values. */
  ghost predicate Stored(frames: seq<Ir.Frame>, locals: Store) {
    forall k :: 0 <= k < |frames| ==> StoredFrame(k + 1, frames[k], locals)
  }

  /** Lookup in the tables finds the field of the scope that the identifier resolves to. */
  lemma {:induction false} LookupMatches(src: Ir.Context, symbols: SymbolTables, frames: seq<Ir.Frame>,
                                         identifier: string)
    requires Shaped(src, symbols, frames)
    ensures Ir.Resolve(frames, identifier).Some? ==>
      var k := Ir.Resolve(frames, identifier).value;
      identifier in symbols[k + 1] && Lookup(symbols, identifier) == Some(symbols[k + 1][identifier])
    ensures Ir.Resolve(frames, identifier).None? && identifier in src.globals ==>
      Lookup(symbols, identifier) == Some(symbols[0][identifier])
    decreases |frames|
  {
    hide ShapedVariable;
    if frames == [] {
      assert symbols[..|symbols| - 1] == [];
    } else {
      var last := |frames| - 1;
      assert ShapedFrame(symbols[last + 1], last + 1, frames[last]);
      if identifier !in frames[last] {
        LookupMatches(src, symbols[..|symbols| - 1], frames[..last], identifier);
      }
    }
  }

  /** The field the generator uses is the variable's own, with its kind and length. */
  lemma FieldMatches(src: Ir.Context, symbols: SymbolTables, frames: seq<Ir.Frame>, identifier: string)
    requires Shaped(src, symbols, frames)
    ensures var b, field := Ir.Bound(src, frames, identifier), FieldOf(symbols, identifier);
      match b
      case LocalBinding(k, isArray, length) =>
        && k < |frames| && identifier in frames[k] && ShapedVariable(field, identifier, k + 1, frames[k][identifier])
        && isArray == field.isArray && length == |field.values| < TWO_63
      case GlobalBinding(isArray, length) =>
        && identifier in src.globals && field.identifier == identifier
        && isArray == field.isArray && length == |field.values| < TWO_63
      case Unbound => true
  {
    hide Lookup, Decimal, FieldName, ValidIdentifier;
    LookupMatches(src, symbols, frames, identifier);
    var r := Ir.Resolve(frames, identifier);
    if r.Some? {
      assert ShapedFrame(symbols[r.value + 1], r.value + 1, frames[r.value]);
    }
  }

  lemma LocalNameIsNotGlobal(src: Ir.Context, ctx: Context, identifier: string, level: nat)
    requires SameWorldView(src, ctx) && ValidIdentifier(identifier) && level > 0
    ensures FieldName(identifier, level) !in ctx.globals
  {
    FieldNameMarker(identifier, level);
    assert !ValidIdentifier(FieldName(identifier, level));
  }

  /** Reading a field reads the variable. */
  lemma ReadMatches(src: Ir.Context, ctx: Context, symbols: SymbolTables, frames: seq<Ir.Frame>, st: State,
                    identifier: string, i: nat)
    requires SameWorldView(src, ctx) && Shaped(src, symbols, frames) && Stored(frames, st.locals)
    requires Ir.InBounds(Ir.Bound(src, frames, identifier), i)
    ensures Read(ctx, st, FieldOf(symbols, identifier).identifier, i) == Ir.Fetch(src, frames, st.world, identifier, i)
  {
    hide Lookup, FieldOf, Ir.Resolve, Decimal, FieldName, Shaped, ShapedFrame, ShapedGlobals, ValidIdentifier;
    FieldMatches(src, symbols, frames, identifier);
    var b := Ir.Bound(src, frames, identifier);
    if b.LocalBinding? {
      LocalNameIsNotGlobal(src, ctx, identifier, b.level + 1);
      assert StoredFrame(b.level + 1, frames[b.level], st.locals);
      assert StoredVariable(identifier, b.level + 1, frames[b.level][identifier].values, st.locals);
    }
  }

  // ----- writing a variable -----

  /** Changing the element of a variable changes neither the scopes' shape nor any other variable. */
  lemma PutFramesShaped(src: Ir.Context, symbols: SymbolTables, frames: seq<Ir.Frame>, identifier: string, i: nat,
                        v: Word)
    requires Shaped(src, symbols, frames) && Ir.InBounds(Ir.Bound(src, frames, identifier), i)
    ensures Shaped(src, symbols, Ir.PutFrames(src, frames, identifier, i, v))
  {
    hide Decimal, FieldName, ValidIdentifier, Lookup, Ir.Resolve;
    var frames' := Ir.PutFrames(src, frames, identifier, i, v);
    forall k | 0 <= k < |frames| ensures ShapedFrame(symbols[k + 1], k + 1, frames'[k]) {
      assert ShapedFrame(symbols[k + 1], k + 1, frames[k]);
    }
  }

  lemma WriteVariableStored(identifier: string, level: nat, frame: Ir.Frame, locals: Store, i: nat, v: Word)
    requires identifier in frame && i < |frame[identifier].values|
    requires forall id :: id in frame ==> ValidIdentifier(id)
    requires StoredFrame(level, frame, locals)
    ensures StoredFrame(level, frame[identifier := frame[identifier].(values := frame[identifier].values[i := v])],
                        locals[Cell(FieldName(identifier, level), i) := v])
  {
    hide Decimal, FieldName, ValidIdentifier;
    var frame' := frame[identifier := frame[identifier].(values := frame[identifier].values[i := v])];
    var locals' := locals[Cell(FieldName(identifier, level), i) := v];
    forall id | id in frame' ensures StoredVariable(id, level, frame'[id].values, locals') {
      assert StoredVariable(id, level, frame[id].values, locals);
      if id != identifier {
        assert FieldName(id, level) != FieldName(identifier, level) by {
          if FieldName(id, level) == FieldName(identifier, level) { FieldNameInjective(id, level, identifier, level); }
        }
      }
    }
  }

  /** A cell of another level is none of this frame's. */
  lemma WriteElsewhere(level: nat, frame: Ir.Frame, locals: Store, identifier: string, other: nat, i: int, v: Word)
    requires ValidIdentifier(identifier) && forall id :: id in frame ==> ValidIdentifier(id)
    requires StoredFrame(level, frame, locals) && other != level
    ensures StoredFrame(level, frame, locals[Cell(FieldName(identifier, other), i) := v])
  {
    hide Decimal, FieldName, ValidIdentifier;
    var locals' := locals[Cell(FieldName(identifier, other), i) := v];
    forall id | id in frame ensures StoredVariable(id, level, frame[id].values, locals') {
      assert StoredVariable(id, level, frame[id].values, locals);
      if FieldName(id, level) == FieldName(identifier, other) { FieldNameInjective(id, level, identifier, other); }
    }
  }

  lemma FrameIdentifiersValid(src: Ir.Context, symbols: SymbolTables, frames: seq<Ir.Frame>, k: nat)
    requires Shaped(src, symbols, frames) && k < |frames|
    ensures forall id :: id in frames[k] ==> ValidIdentifier(id)
  {
    assert ShapedFrame(symbols[k + 1], k + 1, frames[k]);
    forall id | id in frames[k] ensures ValidIdentifier(id) {
      assert ShapedVariable(symbols[k + 1][id], id, k + 1, frames[k][id]);
    }
  }

  /** Writing the generated field is writing the variable. */
  lemma WriteMatches(src: Ir.Context, ctx: Context, symbols: SymbolTables, frames: seq<Ir.Frame>, st: State,
                     identifier: string, i: nat, v: Word)
    requires SameWorldView(src, ctx) && Shaped(src, symbols, frames) && Stored(frames, st.locals)
    requires Ir.InBounds(Ir.Bound(src, frames, identifier), i)
    ensures var st' := Write(ctx, st, FieldOf(symbols, identifier).identifier, i, v);
            var frames' := Ir.PutFrames(src, frames, identifier, i, v);
            && Shaped(src, symbols, frames') && Stored(frames', st'.locals)
            && st'.world == Ir.PutWorld(src, frames, st.world, identifier, i, v)
  {
    hide Lookup, FieldOf, Ir.Resolve, Decimal, FieldName, Shaped, ShapedFrame, ShapedGlobals, ValidIdentifier,
      StoredFrame;
    FieldMatches(src, symbols, frames, identifier);
    PutFramesShaped(src, symbols, frames, identifier, i, v);
    var b := Ir.Bound(src, frames, identifier);
    var st' := Write(ctx, st, FieldOf(symbols, identifier).identifier, i, v);
    var frames' := Ir.PutFrames(src, frames, identifier, i, v);
    if b.LocalBinding? {
      LocalNameIsNotGlobal(src, ctx, identifier, b.level + 1);
      forall k | 0 <= k < |frames| ensures StoredFrame(k + 1, frames'[k], st'.locals) {
        FrameIdentifiersValid(src, symbols, frames, k);
        if k == b.level {
          WriteVariableStored(identifier, k + 1, frames[k], st.locals, i, v);
        } else {
          WriteElsewhere(k + 1, frames[k], st.locals, identifier, b.level + 1, i, v);
        }
      }
    }
  }

  // ----- temporaries -----

  predicate IsTemporaryPrefix(p: char) {
    p == '$' || p == '#'
  }

  /** The operand stays readable: a literal, or a temporary numbered below `n`. */
  ghost predicate OperandBelow(o: Operand, n: nat) {
    match o
    case Field(name) => exists p, m: nat :: m < n && IsTemporaryPrefix(p) && name == TemporaryName(p, m)
    case _ => true
  }

  ghost predicate TemporariesKept(n: nat, locals: Store, locals': Store) {
    forall p, m: nat :: m < n && IsTemporaryPrefix(p) ==>
      Get(locals', Cell(TemporaryName(p, m), 0)) == Get(locals, Cell(TemporaryName(p, m), 0))
  }

  lemma TemporaryIsNotGlobal(src: Ir.Context, ctx: Context, prefix: char, n: nat)
    requires SameWorldView(src, ctx) && IsTemporaryPrefix(prefix)
    ensures TemporaryName(prefix, n) !in ctx.globals
  {
    assert TemporaryName(prefix, n)[0] == prefix;
    assert !ValidIdentifier(TemporaryName(prefix, n));
  }

  /** An operand evaluates the same while only later temporaries are written. */
  lemma OperandKept(src: Ir.Context, ctx: Context, o: Operand, n: nat, st: State, st': State)
    requires SameWorldView(src, ctx) && OperandBelow(o, n) && TemporariesKept(n, st.locals, st'.locals)
    ensures Eval(ctx, st', o) == Eval(ctx, st, o) && EvalArgument(ctx, st', o) == EvalArgument(ctx, st, o)
  {
    hide TemporaryName, Decimal, ValidIdentifier;
    if o.Field? {
      var p, m: nat :| m < n && IsTemporaryPrefix(p) && o.name == TemporaryName(p, m);
      TemporaryIsNotGlobal(src, ctx, p, m);
    }
  }

  lemma TemporaryIsNoVariable(src: Ir.Context, symbols: SymbolTables, frames: seq<Ir.Frame>, locals: Store,
                              prefix: char, n: nat, v: Word)
    requires Shaped(src, symbols, frames) && Stored(frames, locals) && IsTemporaryPrefix(prefix)
    ensures Stored(frames, locals[Cell(TemporaryName(prefix, n), 0) := v])
  {
    hide Shaped, TemporaryName, FieldName, Decimal, ValidIdentifier;
    var locals' := locals[Cell(TemporaryName(prefix, n), 0) := v];
    forall k | 0 <= k < |frames| ensures StoredFrame(k + 1, frames[k], locals') {
      FrameIdentifiersValid(src, symbols, frames, k);
      assert StoredFrame(k + 1, frames[k], locals);
      forall id | id in frames[k] ensures StoredVariable(id, k + 1, frames[k][id].values, locals') {
        assert StoredVariable(id, k + 1, frames[k][id].values, locals);
        TemporaryNameFresh(prefix, n, id, k + 1);
      }
    }
  }

  /** Writing a fresh temporary disturbs neither the variables nor the earlier temporaries. */
  lemma WriteTemporary(src: Ir.Context, ctx: Context, symbols: SymbolTables, frames: seq<Ir.Frame>, st: State,
                       prefix: char, n: nat, v: Word)
    requires SameWorldView(src, ctx) && Shaped(src, symbols, frames) && Stored(frames, st.locals)
      && IsTemporaryPrefix(prefix)
    ensures var st' := Write(ctx, st, TemporaryName(prefix, n), 0, v);
      && st'.world == st.world
      && Stored(frames, st'.locals)
      && TemporariesKept(n, st.locals, st'.locals)
      && Eval(ctx, st', Field(TemporaryName(prefix, n))) == v
      && OperandBelow(Field(TemporaryName(prefix, n)), n + 1)
  {
    hide Shaped, Stored, TemporaryName, Decimal, ValidIdentifier;
    TemporaryIsNotGlobal(src, ctx, prefix, n);
    TemporaryIsNoVariable(src, symbols, frames, st.locals, prefix, n, v);
    forall p, m: nat | m < n && IsTemporaryPrefix(p) ensures TemporaryName(p, m) != TemporaryName(prefix, n) {
      if TemporaryName(p, m) == TemporaryName(prefix, n) { TemporaryNameInjective(p, m, prefix, n); }
    }
  }

  lemma KeptTransitive(n: nat, m: nat, a: Store, b: Store, c: Store)
    requires n <= m && TemporariesKept(n, a, b) && TemporariesKept(m, b, c)
    ensures TemporariesKept(n, a, c)
  {
  }

  lemma BelowLater(o: Operand, n: nat, m: nat)
    requires OperandBelow(o, n) && n <= m
    ensures OperandBelow(o, m)
  {
  }
}
