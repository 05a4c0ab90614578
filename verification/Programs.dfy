/** Whole programs: methods calling methods, imported functions behind an oracle. */
module Programs {
  import opened Words
  import opened Worlds
  import opened Llir
  import opened DeadCode

  datatype Method = Method(arguments: seq<FieldDeclaration>, graph: Graph)

  datatype Program = Program(globals: seq<FieldDeclaration>, methods: map<string, Method>)

  /** What the program cannot see: the imported functions, and what a fresh stack frame happens to hold. */
  datatype Environment = Environment(imports: Oracle, frame: (string, World) -> Store)

  /** The declarations of a method's blocks, in layout order. */
  function LocalFields(order: seq<BlockId>, blocks: map<BlockId, Block>): seq<FieldDeclaration> {
    if order == [] then []
    else
      var last := order[|order| - 1];
      LocalFields(order[..|order| - 1], blocks) + if last in blocks then blocks[last].fields else []
  }

  /** How long each array is; of two arrays of one name, the longer. */
  function Lengths(fields: seq<FieldDeclaration>): map<string, nat> {
    if fields == [] then map[]
    else
      var f, shorter := fields[|fields| - 1], Lengths(fields[..|fields| - 1]);
      if !f.isArray || (f.identifier in shorter && shorter[f.identifier] >= |f.values|) then shorter
      else shorter[f.identifier := |f.values|]
  }

  lemma {:induction false} LengthsCover(fields: seq<FieldDeclaration>, f: FieldDeclaration)
    requires f in fields && f.isArray
    ensures f.identifier in Lengths(fields) && |f.values| <= Lengths(fields)[f.identifier]
  {
    var last, front := fields[|fields| - 1], fields[..|fields| - 1];
    if f in front {
      LengthsCover(front, f);
    }
  }

  lemma {:induction false} LocalFieldsMember(order: seq<BlockId>, blocks: map<BlockId, Block>, b: BlockId,
                                             f: FieldDeclaration)
    requires b in order && b in blocks && f in blocks[b].fields
    ensures f in LocalFields(order, blocks)
  {
    var last, front := order[|order| - 1], order[..|order| - 1];
    if b != last { LocalFieldsMember(front, blocks, b, f); }
  }

  /** The context in which method body `g` runs. */
  function ContextOf(globals: seq<FieldDeclaration>, g: Graph, call: Oracle): Context {
    Context(GlobalNames(globals), Lengths(globals + LocalFields(g.order, g.blocks)), call)
  }

  lemma {:induction false} SameLocalFields(order: seq<BlockId>, blocks: map<BlockId, Block>,
                                           blocks': map<BlockId, Block>)
    requires blocks.Keys == blocks'.Keys && forall b :: b in blocks ==> blocks'[b].fields == blocks[b].fields
    ensures LocalFields(order, blocks') == LocalFields(order, blocks)
  {
    if order != [] { SameLocalFields(order[..|order| - 1], blocks, blocks'); }
  }

  ghost predicate WellFormedProgram(p: Program) {
    forall n :: n in p.methods ==> WellFormed(p.methods[n].graph)
  }

  // ----- initial values of globals -----

  /** The store after the values that are not zero were written. */
  function WithValues(globals: Store, name: string, values: seq<Word>): Store {
    if values == [] then globals
    else
      var n := |values| - 1;
      var before := WithValues(globals, name, values[..n]);
      if values[n] == 0 then before else before[Cell(name, n) := values[n]]
  }

  function WithGlobals(store: Store, globals: seq<FieldDeclaration>): Store {
    if globals == [] then store
    else
      var f := globals[|globals| - 1];
      WithValues(WithGlobals(store, globals[..|globals| - 1]), f.identifier, f.values)
  }

  /** A string is only ever passed to an imported function. */
  predicate AllNumbers(arguments: seq<Argument>) {
    forall i :: 0 <= i < |arguments| ==> arguments[i].Number?
  }

  /** The frame of a callee: its parameters, in order, over whatever was there. A string never
      reaches a method of the program. */
  function Bind(frame: Store, parameters: seq<FieldDeclaration>, arguments: seq<Argument>): Store
    decreases |parameters|
  {
    if parameters == [] || arguments == [] then frame
    else
      var v := if arguments[0].Number? then arguments[0].value else 0;
      Bind(frame[Cell(parameters[0].identifier, 0) := v], parameters[1..], arguments[1..])
  }

  /** Binding is the same from the other end. */
  lemma {:induction false} BindLast(frame: Store, parameters: seq<FieldDeclaration>, arguments: seq<Argument>)
    requires |parameters| == |arguments| > 0
    ensures var n := |parameters| - 1;
            Bind(frame, parameters, arguments)
            == Bind(frame, parameters[..n], arguments[..n])
                 [Cell(parameters[n].identifier, 0) := if arguments[n].Number? then arguments[n].value else 0]
    decreases |parameters|
  {
    var n := |parameters| - 1;
    if n > 0 {
      var v := if arguments[0].Number? then arguments[0].value else 0;
      var frame' := frame[Cell(parameters[0].identifier, 0) := v];
      BindLast(frame', parameters[1..], arguments[1..]);
      assert parameters[1..][..n - 1] == parameters[..n][1..];
      assert arguments[1..][..n - 1] == arguments[..n][1..];
    }
  }

  ghost function OracleAt(p: Program, env: Environment, depth: nat): Oracle
    requires WellFormedProgram(p)
    decreases depth, 1
  {
    (callee, arguments, world) => CallAt(p, env, depth, callee, arguments, world)
  }

  /** A call, with at most `depth` nested calls between the program's own methods. */
  ghost function CallAt(p: Program, env: Environment, depth: nat,
                        callee: string, arguments: seq<Argument>, world: World): Outcome
    requires WellFormedProgram(p)
    decreases depth, 0
  {
    if callee !in p.methods then env.imports(callee, arguments, world)
    else if depth == 0 then Diverged
    else
      var ctx := ContextOf(p.globals, p.methods[callee].graph, OracleAt(p, env, depth - 1));
      var locals := Bind(env.frame(callee, world), p.methods[callee].arguments, arguments);
      Behaviour(ctx, p.methods[callee].graph, State(locals, world))
  }

  // ----- congruence -----

  ghost predicate CallsRefine(ctx: Context, ctx': Context) {
    && ctx.globals == ctx'.globals && ctx.lengths == ctx'.lengths
    && forall callee, arguments, world ::
         SameUnlessTrapped(ctx.call(callee, arguments, world), ctx'.call(callee, arguments, world))
  }

  /** Replacing callees by ones that do the same unless the originals trap. */
  lemma {:induction false} CalleesRefine(ctx: Context, ctx': Context, g: Graph, b: BlockId, i: nat, st: State,
                                         fuel: nat)
    requires CallsRefine(ctx, ctx')
    requires Closed(g) && b in g.blocks && i <= |g.blocks[b].assignments|
    ensures SameUnlessTrapped(RunFrom(ctx, g, b, i, st, fuel), RunFrom(ctx', g, b, i, st, fuel))
    decreases fuel, |g.blocks[b].assignments| - i
  {
    var block := g.blocks[b];
    if i < |block.assignments| {
      StepRefines(ctx, ctx', block.assignments[i], st);
      match Exec(ctx, block.assignments[i], st)
      case Stop(_) =>
      case Next(s) => CalleesRefine(ctx, ctx', g, b, i + 1, s, fuel);
    } else {
      var t := block.terminal;
      if fuel > 0 && (t.Jump? || t.Branch?) {
        assert t.Branch? ==> Chosen(ctx, t, st) == Chosen(ctx', t, st);
        CalleesRefine(ctx, ctx', g, if t.Jump? then t.target else Chosen(ctx, t, st), 0, st, fuel - 1);
      }
    }
  }

  lemma StepRefines(ctx: Context, ctx': Context, a: Assignment, st: State)
    requires CallsRefine(ctx, ctx')
    ensures (Exec(ctx, a, st).Stop? && Undefined(Exec(ctx, a, st).outcome)) || Exec(ctx', a, st) == Exec(ctx, a, st)
  {
    if a.Call? {
      assert EvalArguments(ctx, st, a.arguments) == EvalArguments(ctx', st, a.arguments) by {
        forall k | 0 <= k < |a.arguments|
          ensures EvalArgument(ctx, st, a.arguments[k]) == EvalArgument(ctx', st, a.arguments[k]) {}
      }
      var arguments := EvalArguments(ctx, st, a.arguments);
      assert SameUnlessTrapped(ctx.call(a.callee, arguments, st.world), ctx'.call(a.callee, arguments, st.world));
    }
  }

  /** Agreement at every fuel is agreement in behaviour. */
  lemma BehaviourRefines(ctx: Context, g: Graph, ctx': Context, g': Graph, st: State)
    requires WellFormed(g) && WellFormed(g')
    requires forall fuel: nat :: SameUnlessTrapped(Run(ctx, g, st, fuel), Run(ctx', g', st, fuel))
    ensures SameUnlessTrapped(Behaviour(ctx, g, st), Behaviour(ctx', g', st))
  {
    if fuel: nat :| Ends(ctx, g, st, fuel) {
      BehaviourIs(ctx, g, st, fuel);
      assert SameUnlessTrapped(Run(ctx, g, st, fuel), Run(ctx', g', st, fuel));
      if !Undefined(Run(ctx, g, st, fuel)) {
        assert Ends(ctx', g', st, fuel);
        BehaviourIs(ctx', g', st, fuel);
      }
    } else {
      forall fuel: nat ensures !Ends(ctx', g', st, fuel) {
        assert !Ends(ctx, g, st, fuel);
        assert SameUnlessTrapped(Run(ctx, g, st, fuel), Run(ctx', g', st, fuel));
      }
    }
  }
}
