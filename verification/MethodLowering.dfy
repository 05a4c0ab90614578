/** Lowering preserves meaning, methods: from the call of a method to its end. */
module MethodLowering {
  import opened Words
  import opened Worlds
  import opened Llir
  import opened Names
  import opened Lowering
  import opened LoweringStructure
  import opened Matching
  import opened Journeys
  import opened ExpressionLowering
  import opened StatementLowering
  import opened ScopeLowering
  import opened BlockLowering
  import opened Programs
  import Ir

  /** The declarations of the parameters, at scope level 1. */
  function Parameters(arguments: seq<Ir.Field>): (r: seq<FieldDeclaration>)
    ensures |r| == |arguments|
    ensures forall i :: 0 <= i < |arguments| ==> r[i] == MakeField(arguments[i], 1)
  {
    seq(|arguments|, i requires 0 <= i < |arguments| => MakeField(arguments[i], 1))
  }

  predicate ArgumentFields(fields: seq<Ir.Field>) {
    forall f :: f in fields ==> !f.isArray && ValidIdentifier(f.identifier) && Ir.WellDeclared(f)
  }

  /** A callee's frame starts with every parameter holding its argument, whatever else it holds. */
  lemma {:induction false} ParametersBound(src: Ir.Context, globals: map<string, FieldDeclaration>,
                                           fields: seq<Ir.Field>, arguments: seq<Argument>, frame: Store)
    requires |fields| == |arguments| && ArgumentFields(fields) && ShapedGlobals(globals, src.globals)
    ensures Shaped(src, DeclareAll([globals, map[]], fields), [Ir.BindParameters(fields, arguments)])
    ensures Stored([Ir.BindParameters(fields, arguments)], Bind(frame, Parameters(fields), arguments))
  {
    hide ValidIdentifier, FieldName, ShapedGlobals, MakeField;
    if fields == [] {
      var frames := [Ir.BindParameters(fields, arguments)];
      assert ShapedFrame(map[], 1, frames[0]) && StoredFrame(1, frames[0], frame);
    } else {
      var n := |fields| - 1;
      var f, a := fields[n], arguments[n];
      ParametersBound(src, globals, fields[..n], arguments[..n], frame);
      var symbols, frames := DeclareAll([globals, map[]], fields[..n]),
        [Ir.BindParameters(fields[..n], arguments[..n])];
      BindLast(frame, Parameters(fields), arguments);
      assert Parameters(fields)[..n] == Parameters(fields[..n]);
      ParameterStored(src, symbols, frames, f, if a.Number? then a.value
        else 0, Bind(frame, Parameters(fields[..n]), arguments[..n]));
    }
  }

  lemma {:induction false} ParametersRanged(ctx: Context, globals: map<string, FieldDeclaration>, fields: seq<Ir.Field>)
    requires Ranged(ctx, [globals]) && forall f :: f in fields ==> !f.isArray
    ensures Ranged(ctx, DeclareAll([globals, map[]], fields))
  {
    hide FieldRanged;
    if fields == [] {
      assert [globals, map[]][0] == [globals][0];
    } else {
      var f := fields[|fields| - 1];
      ParametersRanged(ctx, globals, fields[..|fields| - 1]);
      ScalarRanged(ctx, MakeField(f, 1));
    }
  }

  lemma ParameterStored(src: Ir.Context, symbols: SymbolTables, frames: seq<Ir.Frame>, f: Ir.Field, v: Word,
                        locals: Store)
    requires |frames| == 1 && Shaped(src, symbols, frames) && Stored(frames, locals)
    requires ArgumentFields([f])
    ensures var frames' := [frames[0][f.identifier := Ir.Variable(false, [v])]];
            Shaped(src, Declare(symbols, f), frames')
            && Stored(frames', locals[Cell(MakeField(f, 1).identifier, 0) := v])
  {
    hide Shaped, ValidIdentifier, FieldName;
    assert f in [f];
    var locals' := locals[Cell(FieldName(f.identifier, 1), 0) := v];
    var frames' := WithVariable(frames, f.identifier, Ir.Variable(false, [v]));
    DeclareShaped(src, symbols, frames, f, Ir.Variable(false, [v]));
    ShapedLength(src, symbols, frames);
    OthersStored(src, symbols, frames, f.identifier, locals, locals');
    assert StoredFrame(1, frames'[0], locals');
    assert frames' == [frames[0][f.identifier := Ir.Variable(false, [v])]];
  }

  /** The setting in which a generated method runs. */
  ghost predicate RunsGenerated(x: Setting, globals: map<string, FieldDeclaration>, m: Ir.Method, fixed: set<string>,
                                temporaries: nat, nextBlock: nat) {
    && x.g == GenerateMethod(globals, m, temporaries, nextBlock) && WellFormed(x.g)
    && SameWorldView(x.src, x.ctx) && ShapedGlobals(globals, x.src.globals) && ScopedMethod(globals, m, fixed)
    && Ranged(x.ctx, [globals]) && ArraysRanged(x)
  }

  /** The generator before the body's own fields. */
  function BeforeBody(globals: map<string, FieldDeclaration>, m: Ir.Method, temporaries: nat, nextBlock: nat)
    : Generator {
    Generator(temporaries, nextBlock + 1, DeclareAll([globals, map[]], m.arguments), [], [], [], map[], nextBlock, [],
      [])
  }

  lemma GeneratedParts(x: Setting, globals: map<string, FieldDeclaration>, m: Ir.Method, temporaries: nat,
                       nextBlock: nat)
    requires Closed(x.g) && x.g == GenerateMethod(globals, m, temporaries, nextBlock) && |x.g.order| > 0
    ensures var s0, s1, s2 := BeforeBody(globals, m, temporaries, nextBlock),
      StartMethod(globals, m, temporaries, nextBlock),
                              GenerateBody(globals, m, temporaries, nextBlock);
      && Wf(s0) && Wf(s1) && Wf(s2)
      && Completes(x.g, s0) && Completes(x.g, s1) && Completes(x.g, s2)
      && s1.symbols == DeclareAll([globals, map[]], m.arguments + m.body.fields)
      && Entry(x.g) == nextBlock && SameScope(s1, s2)
      && x.g.blocks[s2.current] == Block(s2.fields, s2.code, LastTerminal(m))
  {
    hide Closed, GenerateStatements, GenerateFields, PredecessorLists;
    var s0, s1, s2 := BeforeBody(globals, m, temporaries, nextBlock), StartMethod(globals, m, temporaries, nextBlock),
                      GenerateBody(globals, m, temporaries, nextBlock);
    AdvancesReflexive(s0);
    FieldsAdvance(s0, m.body.fields);
    StatementsAdvance(s1, m.body.statements);
    AdvancesTransitive(s0, s1, s2);
    CompletesEarlier(x.g, s1, s2);
    CompletesEarlier(x.g, s0, s1);
    DeclareAllConcatenation([globals, map[]], m.arguments, m.body.fields);
    assert (s0.order + [s0.current])[0] == nextBlock;
  }

  /** What the code after the body makes of the body's result. */
  lemma BodyEnds(x: Setting, m: Ir.Method, s: Generator, p: Position, st: State, r: Ir.Status, symbols: SymbolTables,
                 exits: Exits, n: nat, st': State)
    requires Follows(x, p, st, r, symbols, exits, n, st') && exits.next == Here(s)
    requires Completes(x.g, s) && x.g.blocks[s.current] == Block(s.fields, s.code, LastTerminal(m))
    ensures r.Normal? ==> Leads(x, p, st, Ends(if m.returnType == Ir.Void then Returned(0, r.world)
      else Exited(-2, r.world)))
  {
    if r.Normal? {
      var o := if m.returnType == Ir.Void then Returned(0, r.world) else Exited(-2, r.world);
      assert LeadsIn(x, Here(s), st', Ends(o), 0);
      Then(x, p, st, Here(s), st', Ends(o));
    }
  }

  /** Running the generated blocks is running the method: the same outcome, and no outcome if there is none. */
  lemma MethodRuns(x: Setting, globals: map<string, FieldDeclaration>, m: Ir.Method, fixed: set<string>,
                   temporaries: nat, nextBlock: nat, arguments: seq<Argument>, world: World, frame: Store, n: nat)
    returns (fuel: nat)
    requires RunsGenerated(x, globals, m, fixed, temporaries, nextBlock) && |arguments| == |m.arguments|
    ensures var st := State(Bind(frame, Parameters(m.arguments), arguments), world);
      match Ir.RunMethod(x.src, m, arguments, world, n)
      case None => true
      case Some(Strayed) => true
      case Some(Diverged) => Run(x.ctx, x.g, st, n) == Diverged
      case Some(o) => Run(x.ctx, x.g, st, fuel) == o
  {
    hide Shaped, Stored, SameWorldView, Ranged, ArraysRanged, GenerateStatements, GenerateFields, PredecessorLists,
      Completes, Ir.ExecAll, ValidIdentifier, Ir.WellDeclared, ScopedStatements, Settled, DeclareAll, GenerateMethod;
    var st := State(Bind(frame, Parameters(m.arguments), arguments), world);
    var s0, s1, s2 := BeforeBody(globals, m, temporaries, nextBlock), StartMethod(globals, m, temporaries, nextBlock),
                      GenerateBody(globals, m, temporaries, nextBlock);
    GeneratedParts(x, globals, m, temporaries, nextBlock);
    DeclaredFields(globals, m, fixed);
    ParametersBound(x.src, globals, m.arguments, arguments, frame);
    ParametersRanged(x.ctx, globals, m.arguments);
    var bound := Ir.BindParameters(m.arguments, arguments);
    assert [] + [bound] == [bound];
    var st1 := FieldsRun(x, s0, m.body.fields, [], bound, st);
    var scope := [Ir.OpenScope(bound, m.body.fields)];
    assert [] + scope == scope;
    DeclareAllConcatenation([globals, map[]], m.arguments, m.body.fields);
    var st2 := StatementsRun(x, s1, m.body.statements, false, fixed, scope, st1, n);
    var r := Ir.ExecAll(x.src, m.body.statements, scope, world, n);
    FollowsAfter(x, Here(s0), st, Here(s1), st1, r, s1.symbols, ExitsOf(s1, s2), n, st2);
    BodyEnds(x, m, s2, Here(s0), st, r, s1.symbols, ExitsOf(s1, s2), n, st2);
    fuel := OutcomeReached(x, Here(s0), st, Ir.RunMethod(x.src, m, arguments, world, n), n);
  }

  lemma DeclaredFields(globals: map<string, FieldDeclaration>, m: Ir.Method, fixed: set<string>)
    requires ScopedMethod(globals, m, fixed)
    ensures ArgumentFields(m.arguments) && FieldsDeclarable(m.body.fields)
  {
    forall f | f in m.arguments ensures !f.isArray && ValidIdentifier(f.identifier) && Ir.WellDeclared(f) {
      assert f in m.arguments + m.body.fields;
    }
    forall f | f in m.body.fields ensures ValidIdentifier(f.identifier) && Ir.WellDeclared(f) {
      assert f in m.arguments + m.body.fields;
    }
  }

  /** Enough fuel for an outcome; or, without one, never enough. */
  lemma OutcomeReached(x: Setting, p: Position, st: State, r: Option<Outcome>, n: nat) returns (fuel: nat)
    requires Closed(x.g) && Valid(x.g, p)
    requires r.Some? ==> Leads(x, p, st, Ends(r.value)) || (r.value.Diverged? && Leads(x, p, st, Spins(n)))
    ensures match r
            case None => true
            case Some(Strayed) => true
            case Some(Diverged) => RunAt(x, p, st, n) == Diverged
            case Some(o) => RunAt(x, p, st, fuel) == o
  {
    fuel := 0;
    if r.Some? && !r.value.Strayed? && Leads(x, p, st, Ends(r.value)) {
      fuel :| LeadsIn(x, p, st, Ends(r.value), fuel);
      if r.value.Diverged? {
        assert RunAt(x, p, st, n + fuel) == Diverged;
        if RunAt(x, p, st, n) != Diverged { FuelMonotone(x.ctx, x.g, p.block, p.index, st, n, n + fuel); }
      } else {
        assert RunAt(x, p, st, fuel) == r.value;
      }
    }
  }
}
