/** Opening a scope: the generated initializations give every field its initial values. */
module ScopeLowering {
  import opened Words
  import opened Worlds
  import opened Llir
  import opened Names
  import opened Lowering
  import opened LoweringStructure
  import opened Matching
  import opened Journeys
  import opened ExpressionLowering
  import Ir

  /** Nothing but the cells of `name` differs. */
  ghost predicate OnlyWrites(name: string, locals: Store, locals': Store) {
    forall c: Cell :: c.name != name ==> Get(locals', c) == Get(locals, c)
  }

  /** Element by element, from the first to the last. */
  lemma {:induction false} ElementsRun(x: Setting, s: Generator, name: string, values: seq<Word>, st: State)
    returns (st': State)
    requires name !in x.ctx.globals && |values| < TWO_63
      && (values != [] ==> name in x.ctx.lengths && |values| <= x.ctx.lengths[name])
    requires Completes(x.g, InitializeElements(s, name, values))
    ensures Completes(x.g, s)
    ensures Leads(x, Here(s), st, Arrives(Here(InitializeElements(s, name, values)), st'))
    ensures forall i :: 0 <= i < |values| ==> Get(st'.locals, Cell(name, i)) == values[i]
    ensures st'.world == st.world && OnlyWrites(name, st.locals, st'.locals)
  {
    hide Leads, Completes;
    st' := st;
    if values == [] {
      CompletesMeansClosed(x, s);
      Stay(x, Here(s), st);
    } else {
      var n := |values| - 1;
      var s1 := InitializeElements(s, name, values[..n]);
      var a := ArrayUpdate(name, Literal(Wrap(n)), Literal(values[n]));
      AppendLeads(x, s1, a, st);
      st' := ElementsRun(x, s, name, values[..n], st);
      AppendLeads(x, s1, a, st');
      var before := st';
      st' := Write(x.ctx, before, name, n, values[n]);
      Then(x, Here(s), st, Here(s1), before, Arrives(Here(InitializeElements(s, name, values)), st'));
    }
  }

  lemma CompletesMeansClosed(x: Setting, s: Generator)
    requires Completes(x.g, s)
    ensures Closed(x.g) && Valid(x.g, Here(s))
  {
  }

  lemma FieldValuesAreInitial(f: Ir.Field)
    requires Ir.WellDeclared(f)
    ensures FieldValues(f) == Ir.InitialValues(f)
  {
    forall i | 0 <= i < f.length ensures FieldValues(f)[i] == Ir.InitialValues(f)[i] {
      if f.initializer.Some? { LiteralToInt64Exact(f.initializer.value[i]); }
    }
  }

  ghost predicate StoredExcept(identifier: string, level: nat, frame: Ir.Frame, locals: Store) {
    forall id :: id in frame && id != identifier ==> StoredVariable(id, level, frame[id].values, locals)
  }

  /** The cells of one name are written: the other variables keep theirs. */
  lemma OthersStored(src: Ir.Context, symbols: SymbolTables, frames: seq<Ir.Frame>, identifier: string,
                     locals: Store, locals': Store)
    requires symbols != [] && frames != [] && Shaped(src, symbols, frames) && Stored(frames, locals)
      && ValidIdentifier(identifier)
    requires OnlyWrites(FieldName(identifier, |frames|), locals, locals')
    ensures forall k :: 0 <= k < |frames| - 1 ==> StoredFrame(k + 1, frames[k], locals')
    ensures StoredExcept(identifier, |frames|, frames[|frames| - 1], locals')
  {
    hide Shaped, FieldName, ValidIdentifier;
    forall k, id | 0 <= k < |frames| && id in frames[k] && (k < |frames| - 1 || id != identifier)
      ensures StoredVariable(id, k + 1, frames[k][id].values, locals')
    {
      FrameIdentifiersValid(src, symbols, frames, k);
      assert StoredFrame(k + 1, frames[k], locals);
      assert StoredVariable(id, k + 1, frames[k][id].values, locals);
      assert FieldName(id, k + 1) != FieldName(identifier, |frames|) by {
        if FieldName(id, k + 1)
          == FieldName(identifier, |frames|) { FieldNameInjective(id, k + 1, identifier, |frames|); }
      }
    }
    forall k | 0 <= k < |frames| - 1 ensures StoredFrame(k + 1, frames[k], locals') {
      forall id | id in frames[k] ensures StoredVariable(id, k + 1, frames[k][id].values, locals') {
      }
    }
  }

  function WithVariable(frames: seq<Ir.Frame>, identifier: string, v: Ir.Variable): (frames': seq<Ir.Frame>)
    requires frames != []
    ensures |frames'| == |frames|
  {
    frames[|frames| - 1 := frames[|frames| - 1][identifier := v]]
  }

  lemma DeclareShaped(src: Ir.Context, symbols: SymbolTables, frames: seq<Ir.Frame>, f: Ir.Field, v: Ir.Variable)
    requires frames != [] && Shaped(src, symbols, frames)
    requires ValidIdentifier(f.identifier) && v.isArray == f.isArray && |v.values| == f.length < TWO_63
    ensures Shaped(src, Declare(symbols, f), WithVariable(frames, f.identifier, v))
  {
    hide FieldName, ValidIdentifier;
    var symbols', frames' := Declare(symbols, f), WithVariable(frames, f.identifier, v);
    forall k | 0 <= k < |frames| ensures ShapedFrame(symbols'[k + 1], k + 1, frames'[k]) {
      assert ShapedFrame(symbols[k + 1], k + 1, frames[k]);
    }
  }

  lemma FieldRuns(x: Setting, s: Generator, f: Ir.Field, frames: seq<Ir.Frame>, st: State) returns (st': State)
    requires frames != [] && Agrees(x, s.symbols, frames, st) && Completes(x.g, GenerateField(s, f))
    requires ValidIdentifier(f.identifier) && Ir.WellDeclared(f)
    ensures Completes(x.g, s)
    ensures Leads(x, Here(s), st, Arrives(Here(GenerateField(s, f)), st'))
    ensures st'.world == st.world
    ensures Agrees(x, Declare(s.symbols, f),
      WithVariable(frames, f.identifier, Ir.Variable(f.isArray, Ir.InitialValues(f))), st')
  {
    DeclareRanged(x, s, f);
    hide Leads, Shaped, FieldName, ValidIdentifier, Declare, Ranged, ArraysRanged;
    ShapedLength(x.src, s.symbols, frames);
    FieldValuesAreInitial(f);
    LocalNameIsNotGlobal(x.src, x.ctx, f.identifier, |frames|);
    var field := MakeField(f, |frames|);
    var s1 := AddField(s.(symbols := Declare(s.symbols, f)), field);
    if f.isArray {
      st' := ElementsRun(x, s1, field.identifier, field.values, st);
    } else {
      AppendLeads(x, s1, Unary(Move, field.identifier, Literal(field.values[0])), st);
      st' := Write(x.ctx, st, field.identifier, 0, field.values[0]);
    }
    DeclareShaped(x.src, s.symbols, frames, f, Ir.Variable(f.isArray, Ir.InitialValues(f)));
    OthersStored(x.src, s.symbols, frames, f.identifier, st.locals, st'.locals);
    WithVariableStored(frames, f, st'.locals);
  }

  lemma {:induction false} ElementsKeepFields(s: Generator, name: string, values: seq<Word>)
    ensures var s' := InitializeElements(s, name, values); s'.fields == s.fields && s'.current == s.current
  {
    if values != [] { ElementsKeepFields(s, name, values[..|values| - 1]); }
  }

  /** The declaration is part of the finished method, so the context knows its array. */
  lemma DeclareRanged(x: Setting, s: Generator, f: Ir.Field)
    requires s.symbols != [] && Ranged(x.ctx, s.symbols) && ArraysRanged(x) && Completes(x.g, GenerateField(s, f))
    ensures Ranged(x.ctx, Declare(s.symbols, f)) && FieldRanged(x.ctx, MakeField(f, |s.symbols| - 1))
  {
    hide FieldRanged, FieldName;
    var field := MakeField(f, |s.symbols| - 1);
    var s' := GenerateField(s, f);
    ElementsKeepFields(AddField(s.(symbols := Declare(s.symbols, f)), field), field.identifier, field.values);
    assert s'.fields[|s.fields|] == field;
    assert x.g.blocks[s'.current].fields[|s.fields|] == field;
  }

  lemma ShapedLength(src: Ir.Context, symbols: SymbolTables, frames: seq<Ir.Frame>)
    requires Shaped(src, symbols, frames)
    ensures |symbols| == |frames| + 1
  {
  }

  lemma WithVariableStored(frames: seq<Ir.Frame>, f: Ir.Field, locals: Store)
    requires frames != [] && Ir.WellDeclared(f)
    requires forall k :: 0 <= k < |frames| - 1 ==> StoredFrame(k + 1, frames[k], locals)
    requires StoredExcept(f.identifier, |frames|, frames[|frames| - 1], locals)
    requires StoredVariable(f.identifier, |frames|, Ir.InitialValues(f), locals)
    ensures Stored(WithVariable(frames, f.identifier, Ir.Variable(f.isArray, Ir.InitialValues(f))), locals)
  {
    hide Ir.WellDeclared, Ir.InitialValues, StoredVariable;
    var frames' := WithVariable(frames, f.identifier, Ir.Variable(f.isArray, Ir.InitialValues(f)));
    forall k | 0 <= k < |frames| ensures StoredFrame(k + 1, frames'[k], locals) {
    }
  }

  ghost predicate FieldsDeclarable(fields: seq<Ir.Field>) {
    forall f :: f in fields ==> ValidIdentifier(f.identifier) && Ir.WellDeclared(f)
  }

  /** All the fields of a scope that starts from `frame`. */
  lemma {:induction false} FieldsRun(x: Setting, s: Generator, fields: seq<Ir.Field>, outer: seq<Ir.Frame>,
                                     frame: Ir.Frame, st: State) returns (st': State)
    requires Agrees(x, s.symbols, outer + [frame], st) && Completes(x.g, GenerateFields(s, fields)) && Wf(s)
    requires FieldsDeclarable(fields)
    ensures Leads(x, Here(s), st, Arrives(Here(GenerateFields(s, fields)), st'))
    ensures st'.world == st.world
    ensures Agrees(x, DeclareAll(s.symbols, fields), outer + [Ir.OpenScope(frame, fields)], st')
  {
    hide Leads, Completes, Shaped, Stored, SameWorldView, Ranged, ArraysRanged, ValidIdentifier, Ir.WellDeclared,
      Ir.InitialValues, Declare, GenerateField, Grows, Untouched;
    st' := st;
    if fields == [] {
      CompletesMeansClosed(x, s);
      Stay(x, Here(s), st);
    } else {
      var front, f := fields[..|fields| - 1], fields[|fields| - 1];
      FieldsAdvance(s, front);
      var s1 := GenerateFields(s, front);
      var frames := outer + [Ir.OpenScope(frame, front)];
      FieldAdvances(s1, f);
      CompletesEarlier(x.g, s1, GenerateField(s1, f));
      st' := FieldsRun(x, s, front, outer, frame, st);
      var st1 := st';
      st' := FieldRuns(x, s1, f, frames, st1);
      assert WithVariable(frames, f.identifier, Ir.Variable(f.isArray, Ir.InitialValues(f)))
          == outer + [Ir.OpenScope(frame, fields)];
      Then(x, Here(s), st, Here(s1), st1, Arrives(Here(GenerateFields(s, fields)), st'));
    }
  }
}
