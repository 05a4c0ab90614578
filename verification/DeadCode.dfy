/** `dce.c`: the live set of a method as a least fixed point, the pruning of assignments outside
    it, and why only a trapping division can tell. */
module DeadCode {
  import opened Words
  import opened Worlds
  import opened Llir
  import opened LlirMethods
  import opened ReachingDefinitions
  import opened Rewriting

  // ----- what the live set is -----

  function OperandNames(os: seq<Operand>): set<string> {
    set k | 0 <= k < |os| && os[k].Field? :: os[k].name
  }

  function GlobalNames(globals: seq<FieldDeclaration>): set<string> {
    set k | 0 <= k < |globals| :: globals[k].identifier
  }

  function ArrayNames(fields: seq<FieldDeclaration>): set<string> {
    set k | 0 <= k < |fields| && fields[k].isArray :: fields[k].identifier
  }

  function CallNames(a: Assignment): set<string> {
    if a.Call? then OperandNames(a.arguments) else {}
  }

  /** Names some block makes live by itself: its arrays, what it passes to calls, what its terminal reads. */
  ghost predicate BlockSeeds(block: Block, n: string) {
    || n in ArrayNames(block.fields)
    || n in OperandNames(TerminalOperands(block.terminal))
    || exists i :: 0 <= i < |block.assignments| && n in CallNames(block.assignments[i])
  }

  ghost predicate IsSeed(globals: seq<FieldDeclaration>, g: Graph, n: string) {
    n in GlobalNames(globals) || exists b :: b in g.blocks && BlockSeeds(g.blocks[b], n)
  }

  /** What an assignment with a live destination reads is live too. */
  ghost predicate ClosedFor(live: set<string>, a: Assignment) {
    a.destination in live ==> OperandNames(Operands(a)) <= live
  }

  ghost predicate ClosedUnderReads(g: Graph, live: set<string>) {
    forall b, i :: b in g.blocks && 0 <= i < |g.blocks[b].assignments| ==> ClosedFor(live, g.blocks[b].assignments[i])
  }

  ghost predicate Seeded(globals: seq<FieldDeclaration>, g: Graph, live: set<string>) {
    forall n :: IsSeed(globals, g, n) ==> n in live
  }

  /** Live sets are the seeded sets closed under reads; the live set is the least of them. */
  ghost predicate IsLiveSet(globals: seq<FieldDeclaration>, g: Graph, live: set<string>) {
    && Seeded(globals, g, live)
    && ClosedUnderReads(g, live)
  }

  ghost predicate Least(globals: seq<FieldDeclaration>, g: Graph, live: set<string>) {
    forall other: set<string> :: IsLiveSet(globals, g, other) ==> live <= other
  }

  // ----- computing it -----

  /** Every name the method reads, and every seed: what can ever become live. */
  ghost function Universe(globals: seq<FieldDeclaration>, g: Graph): set<string> {
    GlobalNames(globals)
    + (set b, n | b in g.blocks && n in ArrayNames(g.blocks[b].fields) :: n)
    + (set b, n | b in g.blocks && n in OperandNames(TerminalOperands(g.blocks[b].terminal)) :: n)
    + (set b, i, n | b in g.blocks && 0 <= i < |g.blocks[b].assignments|
                     && n in OperandNames(Operands(g.blocks[b].assignments[i])) :: n)
  }

  ghost predicate Below(globals: seq<FieldDeclaration>, g: Graph, live: set<string>) {
    live <= Universe(globals, g) && Least(globals, g, live)
  }

  lemma SameSize(a: set<string>, b: set<string>)
    requires a <= b && |a| == |b|
    ensures a == b
  {
    if !(b <= a) {
      var x :| x in b && x !in a;
      SubsetSize(a, b - {x});
    }
  }

  lemma {:induction false} SubsetSize(a: set<string>, b: set<string>)
    requires a <= b
    ensures |a| <= |b|
    decreases a
  {
    if a != {} {
      var x :| x in a;
      SubsetSize(a - {x}, b - {x});
    }
  }

  lemma BelowAddSeed(globals: seq<FieldDeclaration>, g: Graph, live: set<string>, names: set<string>)
    requires Below(globals, g, live)
    requires forall n :: n in names ==> IsSeed(globals, g, n)
    ensures Below(globals, g, live + names)
  {
    forall n | n in names ensures n in Universe(globals, g) {
      if n !in GlobalNames(globals) {
        var b :| b in g.blocks && BlockSeeds(g.blocks[b], n);
        if n !in ArrayNames(g.blocks[b].fields) && n !in OperandNames(TerminalOperands(g.blocks[b].terminal)) {
          var i :| 0 <= i < |g.blocks[b].assignments| && n in CallNames(g.blocks[b].assignments[i]);
          assert n in OperandNames(Operands(g.blocks[b].assignments[i]));
        }
      }
    }
  }

  lemma BelowAddBlock(globals: seq<FieldDeclaration>, g: Graph, before: set<string>, after: set<string>, b: BlockId)
    requires Below(globals, g, before) && b in g.blocks
    requires before <= after && forall n :: n in after <==> n in before || BlockSeeds(g.blocks[b], n)
    ensures Below(globals, g, after)
  {
    BelowAddSeed(globals, g, before, after - before);
    assert before + (after - before) == after;
  }

  lemma BelowAddReads(globals: seq<FieldDeclaration>, g: Graph, live: set<string>, b: BlockId, i: nat)
    requires Below(globals, g, live)
    requires b in g.blocks && i < |g.blocks[b].assignments| && g.blocks[b].assignments[i].destination in live
    ensures Below(globals, g, live + OperandNames(Operands(g.blocks[b].assignments[i])))
  {
    var names := OperandNames(Operands(g.blocks[b].assignments[i]));
    forall n | n in names ensures n in Universe(globals, g) {
      assert n in OperandNames(Operands(g.blocks[b].assignments[i]));
    }
    forall other: set<string> | IsLiveSet(globals, g, other) ensures live + names <= other {
      assert live <= other;
      assert ClosedFor(other, g.blocks[b].assignments[i]);
    }
  }

  /** The `live_set` table. */
  class LiveSet {
    var names: set<string>

    constructor ()
      ensures names == {}
    {
      names := {};
    }

    /** `add_live_variable_from_operand` on each operand of a list. */
    method AddOperands(operands: seq<Operand>)
      modifies this
      ensures names == old(names) + OperandNames(operands)
    {
      for k := 0 to |operands|
        invariant names == old(names) + OperandNames(operands[..k])
      {
        assert OperandNames(operands[..k + 1]) == OperandNames(operands[..k]) + OperandNames([operands[k]]) by {
          assert operands[..k + 1] == operands[..k] + [operands[k]];
          NamesOfConcatenation(operands[..k], [operands[k]]);
        }
        if operands[k].Field? {
          assert OperandNames([operands[k]]) == {operands[k].name} by { assert [operands[k]][0] == operands[k]; }
          names := names + {operands[k].name};
        }
      }
      assert operands[..|operands|] == operands;
    }

    /** `add_live_variables_from_globals`. */
    method AddGlobals(globals: seq<FieldDeclaration>)
      modifies this
      ensures names == old(names) + GlobalNames(globals)
    {
      for k := 0 to |globals|
        invariant names == old(names) + GlobalNames(globals[..k])
      {
        assert GlobalNames(globals[..k + 1]) == GlobalNames(globals[..k]) + {globals[k].identifier} by {
          forall n | n in GlobalNames(globals[..k + 1]) ensures n in GlobalNames(globals[..k])
            + {globals[k].identifier} {
            var j :| 0 <= j < k + 1 && globals[..k + 1][j].identifier == n;
            if j < k { assert globals[..k][j].identifier == n; }
          }
          forall n | n in GlobalNames(globals[..k]) ensures n in GlobalNames(globals[..k + 1]) {
            var j :| 0 <= j < k && globals[..k][j].identifier == n;
            assert globals[..k + 1][j].identifier == n;
          }
          assert globals[..k + 1][k].identifier == globals[k].identifier;
        }
        names := names + {globals[k].identifier};
      }
      assert globals[..|globals|] == globals;
    }

    /** The seeds of one block: `add_live_variables_from_fields`, `..._method_call_arguments` and
        `..._terminals`. */
    method AddBlockSeeds(block: Block)
      modifies this
      ensures old(names) <= names
      ensures forall n :: n in names <==> n in old(names) || BlockSeeds(block, n)
    {
      for k := 0 to |block.fields|
        invariant old(names) <= names
        invariant forall n :: n in names ==> n in old(names) || n in ArrayNames(block.fields)
        invariant forall j :: 0 <= j < k && block.fields[j].isArray ==> block.fields[j].identifier in names
      {
        if block.fields[k].isArray {
          names := names + {block.fields[k].identifier};
        }
      }
      for i := 0 to |block.assignments|
        invariant old(names) <= names && ArrayNames(block.fields) <= names
        invariant forall n :: n in names ==> n in old(names) || BlockSeeds(block, n)
        invariant forall j :: 0 <= j < i ==> CallNames(block.assignments[j]) <= names
      {
        if block.assignments[i].Call? {
          AddOperands(block.assignments[i].arguments);
        }
      }
      AddOperands(TerminalOperands(block.terminal));
    }

    /** One pass of the fixpoint loop over one block. */
    method SweepBlock(m: LlirMethod, b: BlockId, ghost globals: seq<FieldDeclaration>)
      requires b in m.blocks
      requires Below(globals, m.Value(), names)
      modifies this
      ensures Below(globals, m.Value(), names) && old(names) <= names
      ensures names == old(names) ==>
                forall i :: 0 <= i < |m.blocks[b].assignments| ==> ClosedFor(names, m.blocks[b].assignments[i])
    {
      var block := m.blocks[b];
      for i := 0 to |block.assignments|
        invariant Below(globals, m.Value(), names) && old(names) <= names
        invariant names == old(names) ==> forall j :: 0 <= j < i ==> ClosedFor(names, block.assignments[j])
      {
        var assignment := block.assignments[i];
        if assignment.destination in names {
          BelowAddReads(globals, m.Value(), names, b, i);
          label Before:
          AddOperands(Operands(assignment));
          assert names == old(names) ==> old@Before(names) == names;
        }
      }
    }

    /** `add_live_variables_from_assignments` over the whole method. */
    method Sweep(m: LlirMethod, ghost globals: seq<FieldDeclaration>)
      requires forall b :: b in m.order <==> b in m.blocks
      requires Below(globals, m.Value(), names)
      modifies this
      ensures Below(globals, m.Value(), names) && old(names) <= names
      ensures names == old(names) ==> ClosedUnderReads(m.Value(), names)
    {
      for j := 0 to |m.order|
        invariant Below(globals, m.Value(), names) && old(names) <= names
        invariant names == old(names) ==>
                    forall h, i :: 0 <= h < j && 0 <= i < |m.blocks[m.order[h]].assignments| ==>
                                     ClosedFor(names, m.blocks[m.order[h]].assignments[i])
      {
        label Before:
        SweepBlock(m, m.order[j], globals);
        assert names == old(names) ==> old@Before(names) == names;
      }
    }

    /** Everything that is live by itself. */
    method AddSeeds(globals: seq<FieldDeclaration>, m: LlirMethod)
      requires WellFormed(m.Value())
      requires names == {}
      modifies this
      ensures Below(globals, m.Value(), names) && Seeded(globals, m.Value(), names)
    {
      ghost var g := m.Value();
      BelowAddSeed(globals, g, {}, GlobalNames(globals));
      AddGlobals(globals);
      assert {} + GlobalNames(globals) == names;
      for j := 0 to |m.order|
        invariant Below(globals, g, names) && GlobalNames(globals) <= names
        invariant forall h, n :: 0 <= h < j && BlockSeeds(g.blocks[g.order[h]], n) ==> n in names
      {
        ghost var before := names;
        assert m.order[j] in g.order;
        AddBlockSeeds(m.blocks[m.order[j]]);
        BelowAddBlock(globals, g, before, names, m.order[j]);
      }
      forall b, n | b in g.blocks && BlockSeeds(g.blocks[b], n) ensures n in names {
        assert b in g.order;
      }
    }

    /** The whole computation: seeds, then sweeps until the size stops growing. */
    method Compute(globals: seq<FieldDeclaration>, m: LlirMethod)
      requires WellFormed(m.Value())
      modifies this
      ensures IsLiveSet(globals, m.Value(), names) && Least(globals, m.Value(), names)
    {
      ghost var g := m.Value();
      names := {};
      AddSeeds(globals, m);
      var previous := |names|;
      ghost var before := names;
      Sweep(m, globals);
      while |names| != previous
        invariant before <= names && previous == |before|
        invariant Below(globals, g, names) && Seeded(globals, g, names)
        invariant names == before ==> ClosedUnderReads(g, names)
        decreases Universe(globals, g) - before
      {
        SomethingNew(before, names);
        previous := |names|;
        before := names;
        Sweep(m, globals);
      }
      SameSize(before, names);
    }
  }

  lemma SomethingNew(a: set<string>, b: set<string>)
    requires a <= b && |a| != |b|
    ensures exists n :: n in b && n !in a
  {
    assert b == a + (b - a);
    assert b - a != {};
    var n :| n in b - a;
  }

  lemma NamesOfConcatenation(a: seq<Operand>, b: seq<Operand>)
    ensures OperandNames(a + b) == OperandNames(a) + OperandNames(b)
  {
    forall n | n in OperandNames(a + b) ensures n in OperandNames(a) + OperandNames(b) {
      var k :| 0 <= k < |a + b| && (a + b)[k] == Field(n);
      if k < |a| { assert a[k] == Field(n); } else { assert b[k - |a|] == Field(n); }
    }
    forall n | n in OperandNames(a) + OperandNames(b) ensures n in OperandNames(a + b) {
      if n in OperandNames(a) {
        var k :| 0 <= k < |a| && a[k] == Field(n);
        assert (a + b)[k] == Field(n);
      } else {
        var k :| 0 <= k < |b| && b[k] == Field(n);
        assert (a + b)[|a| + k] == Field(n);
      }
    }
  }

  // ----- pruning -----

  predicate Kept(live: set<string>, a: Assignment) {
    a.destination in live || a.Call?
  }

  /** The assignments that survive. */
  function Keep(live: set<string>, s: seq<Assignment>): seq<Assignment> {
    if s == [] then []
    else Keep(live, s[..|s| - 1]) + if Kept(live, s[|s| - 1]) then [s[|s| - 1]] else []
  }

  ghost function Pruned(live: set<string>, g: Graph): Graph {
    g.(blocks := map b | b in g.blocks :: g.blocks[b].(assignments := Keep(live, g.blocks[b].assignments)))
  }

  lemma KeepStep(live: set<string>, s: seq<Assignment>, i: nat)
    requires i < |s|
    ensures Keep(live, s[..i + 1]) == Keep(live, s[..i]) + if Kept(live, s[i]) then [s[i]] else []
  {
    assert s[..i + 1][..i] == s[..i];
  }

  lemma PruneStep(live: set<string>, all: seq<Assignment>, done: nat, current: seq<Assignment>)
    requires done < |all| && current == Keep(live, all[..done]) + all[done..]
    ensures var i := |Keep(live, all[..done])|;
      && i < |current| && current[i] == all[done]
      && if Kept(live, all[done]) then
           current == Keep(live, all[..done + 1]) + all[done + 1..] && |Keep(live, all[..done + 1])| == i + 1
         else
           current[..i] + current[i + 1..] == Keep(live, all[..done + 1]) + all[done + 1..]
           && |Keep(live, all[..done + 1])| == i
  {
    KeepStep(live, all, done);
    hide Keep, Kept;
    assert all[done..] == [all[done]] + all[done + 1..];
  }

  /** `prune_dead_variables` on one block: remove at the index, step back, go on. */
  method PruneBlock(m: LlirMethod, b: BlockId, live: set<string>)
    requires b in m.blocks
    modifies m`blocks
    ensures m.blocks == old(m.blocks)[b := old(m.blocks[b]).(assignments := Keep(live, old(m.blocks[b].assignments)))]
  {
    ghost var base, all := m.blocks, m.blocks[b].assignments;
    ghost var done, current := 0, all;
    var i := 0;
    assert all[0..] == all && all[..0] == [];
    assert base[b := base[b].(assignments := all)] == base;
    while i < |m.blocks[b].assignments|
      invariant m.blocks == base[b := base[b].(assignments := current)]
      invariant 0 <= done <= |all|
      invariant current == Keep(live, all[..done]) + all[done..]
      invariant i == |Keep(live, all[..done])|
      decreases |all| - done
    {
      PruneStep(live, all, done, current);
      if !Kept(live, m.blocks[b].assignments[i]) {
        m.RemoveAssignment(b, i);
        current := current[..i] + current[i + 1..];
      } else {
        i := i + 1;
      }
      done := done + 1;
    }
    assert done == |all| && all[..done] == all;
    assert current == Keep(live, all);
  }

  /** Blocks in `finished` are pruned, the others untouched. */
  ghost predicate PartlyPruned(live: set<string>, g: Graph, blocks: map<BlockId, Block>, finished: set<BlockId>) {
    && blocks.Keys == g.blocks.Keys
    && forall b :: b in g.blocks ==>
         blocks[b] == if b in finished then g.blocks[b].(assignments := Keep(live, g.blocks[b].assignments))
           else g.blocks[b]
  }

  lemma NothingPruned(live: set<string>, g: Graph)
    ensures PartlyPruned(live, g, g.blocks, {})
  {
  }

  lemma PartlyPrunedStep(live: set<string>, g: Graph, blocks: map<BlockId, Block>, finished: set<BlockId>, b: BlockId)
    requires PartlyPruned(live, g, blocks, finished) && b in g.blocks
    ensures b in blocks
    ensures PartlyPruned(live, g, blocks[b := blocks[b].(assignments := Keep(live, blocks[b].assignments))],
      finished + {b})
  {
    hide Keep;
    KeepTwice(live, g.blocks[b].assignments);
  }

  lemma AllPruned(live: set<string>, g: Graph, blocks: map<BlockId, Block>, finished: set<BlockId>)
    requires PartlyPruned(live, g, blocks, finished) && forall b :: b in g.blocks ==> b in finished
    ensures blocks == Pruned(live, g).blocks
  {
    hide Keep;
  }

  /** The last iteration of `dead_code_elimination_of_current_method`. */
  method PruneAll(m: LlirMethod, live: set<string>)
    requires WellFormed(m.Value())
    modifies m`blocks
    ensures m.Value() == Pruned(live, old(m.Value()))
  {
    hide Keep, Closed, PredecessorsAgree, PartlyPruned;
    ghost var g := m.Value();
    ghost var finished := {};
    NothingPruned(live, g);
    for j := 0 to |m.order|
      invariant PartlyPruned(live, g, m.blocks, finished)
      invariant forall h :: 0 <= h < j ==> g.order[h] in finished
    {
      var b := m.order[j];
      assert b in g.order;
      PartlyPrunedStep(live, g, m.blocks, finished, b);
      PruneBlock(m, b, live);
      finished := finished + {b};
    }
    forall b | b in g.blocks ensures b in finished { assert b in g.order; }
    AllPruned(live, g, m.blocks, finished);
  }

  /** `dead_code_elimination_of_current_method`. */
  method Optimize(globals: seq<FieldDeclaration>, m: LlirMethod) returns (ghost live: set<string>)
    requires WellFormed(m.Value())
    modifies m`blocks
    ensures IsLiveSet(globals, old(m.Value()), live) && Least(globals, old(m.Value()), live)
    ensures m.Value() == Pruned(live, old(m.Value()))
  {
    var liveSet := new LiveSet();
    liveSet.Compute(globals, m);
    live := liveSet.names;
    PruneAll(m, liveSet.names);
  }

  lemma {:induction false} KeepMembers(live: set<string>, s: seq<Assignment>)
    ensures forall a :: a in Keep(live, s) <==> a in s && Kept(live, a)
  {
    if s != [] {
      var front, last := s[..|s| - 1], s[|s| - 1];
      KeepMembers(live, front);
      assert s == front + [last];
    }
  }

  lemma {:induction false} KeepTwice(live: set<string>, s: seq<Assignment>)
    ensures Keep(live, Keep(live, s)) == Keep(live, s)
  {
    if s != [] {
      var front, last := s[..|s| - 1], s[|s| - 1];
      KeepTwice(live, front);
      if Kept(live, last) {
        assert Keep(live, s)[..|Keep(live, s)| - 1] == Keep(live, front);
      } else {
        assert Keep(live, s) == Keep(live, front);
      }
    }
  }

  /** Where assignment `i` of the original ends up. */
  lemma KeepAt(live: set<string>, all: seq<Assignment>, i: nat)
    requires i <= |all|
    ensures |Keep(live, all[..i])| <= |Keep(live, all)|
    ensures i < |all| && Kept(live, all[i]) ==>
      && |Keep(live, all[..i + 1])| == |Keep(live, all[..i])| + 1 <= |Keep(live, all)|
      && Keep(live, all)[|Keep(live, all[..i])|] == all[i]
    ensures i < |all| && !Kept(live, all[i]) ==> |Keep(live, all[..i + 1])| == |Keep(live, all[..i])|
  {
    assert all == all[..i] + all[i..];
    KeepSplit(live, all[..i], all[i..]);
    if i < |all| {
      assert all[..i + 1][..i] == all[..i];
      assert all == all[..i + 1] + all[i + 1..];
      KeepSplit(live, all[..i + 1], all[i + 1..]);
    }
  }

  lemma {:induction false} KeepSplit(live: set<string>, s: seq<Assignment>, t: seq<Assignment>)
    ensures Keep(live, s + t) == Keep(live, s) + Keep(live, t)
  {
    if t == [] {
      assert s + t == s;
    } else {
      var front, last := t[..|t| - 1], t[|t| - 1];
      assert (s + t)[..|s + t| - 1] == s + front;
      KeepSplit(live, s, front);
    }
  }

  // ----- preservation -----

  /** Every array that is read is a declared array of the program or of the method. */
  ghost predicate ArraysDeclared(globals: seq<FieldDeclaration>, g: Graph) {
    forall b, i :: b in g.blocks && 0 <= i < |g.blocks[b].assignments| && g.blocks[b].assignments[i].ArrayAccess? ==>
      g.blocks[b].assignments[i].accessArray in GlobalNames(globals)
      || exists c :: c in g.blocks && g.blocks[b].assignments[i].accessArray in ArrayNames(g.blocks[c].fields)
  }

  /** The two runs agree on the world and on everything live. */
  ghost predicate AgreeOn(live: set<string>, st: State, st': State) {
    && st.world == st'.world
    && forall n, i :: n in live ==> Get(st.locals, Cell(n, i)) == Get(st'.locals, Cell(n, i))
  }

  /** `o` trapped or strayed, or `o'` is the same. */
  ghost predicate SameUnlessTrapped(o: Outcome, o': Outcome) {
    Undefined(o) || o' == o
  }

  lemma AgreeEval(ctx: Context, live: set<string>, st: State, st': State, os: seq<Operand>)
    requires AgreeOn(live, st, st') && OperandNames(os) <= live
    ensures forall k :: 0 <= k < |os| ==> Eval(ctx, st, os[k]) == Eval(ctx, st', os[k])
    ensures EvalArguments(ctx, st, os) == EvalArguments(ctx, st', os)
  {
    forall k | 0 <= k < |os|
      ensures Eval(ctx, st, os[k]) == Eval(ctx, st', os[k])
      ensures EvalArgument(ctx, st, os[k]) == EvalArgument(ctx, st', os[k])
    {
      if os[k].Field? { assert os[k].name in OperandNames(os); }
    }
  }

  /** A kept assignment does the same to agreeing states. */
  lemma KeptStep(ctx: Context, live: set<string>, a: Assignment, st: State, st': State)
    requires AgreeOn(live, st, st') && Kept(live, a) && OperandNames(Operands(a)) <= live
    requires a.ArrayAccess? ==> a.accessArray in live
    ensures match Exec(ctx, a, st)
            case Stop(o) => Exec(ctx, a, st') == Stop(o)
            case Next(s) => Exec(ctx, a, st').Next? && AgreeOn(live, s, Exec(ctx, a, st').state)
  {
    AgreeEval(ctx, live, st, st', Operands(a));
    match a
    case Unary(_, _, s) => assert Operands(a)[0] == s;
    case Binary(_, _, l, r) => assert Operands(a)[0] == l && Operands(a)[1] == r;
    case ArrayUpdate(_, i, v) => assert Operands(a)[0] == i && Operands(a)[1] == v;
    case ArrayAccess(_, i, _) => assert Operands(a)[0] == i;
    case Call(_, _, _) =>
  }

  /** A pruned assignment changes nothing live; at worst it traps. */
  lemma PrunedStep(ctx: Context, live: set<string>, a: Assignment, st: State, st': State)
    requires AgreeOn(live, st, st') && !Kept(live, a) && ctx.globals <= live
    ensures match Exec(ctx, a, st)
            case Stop(o) => o == Trapped
            case Next(s) => AgreeOn(live, s, st')
  {
  }

  lemma PrunedWellFormed(live: set<string>, g: Graph)
    requires WellFormed(g)
    ensures WellFormed(Pruned(live, g))
  {
    var g' := Pruned(live, g);
    forall t, b | t in g'.blocks ensures b in g'.predecessors[t] <==> IsEdge(g', b, t) {
      assert IsEdge(g, b, t) <==> IsEdge(g', b, t);
    }
  }

  /** Where point `i` of a block ends up in the pruned block. */
  ghost function NewIndex(live: set<string>, all: seq<Assignment>, i: nat): (j: nat)
    requires i <= |all|
    ensures j <= |Keep(live, all)|
  {
    KeepAt(live, all, i);
    |Keep(live, all[..i])|
  }

  lemma NewIndexEnds(live: set<string>, all: seq<Assignment>)
    ensures NewIndex(live, all, 0) == 0
    ensures NewIndex(live, all, |all|) == |Keep(live, all)|
  {
    assert all[..0] == [] && all[..|all|] == all;
  }

  ghost predicate IsPruned(live: set<string>, g: Graph, g': Graph) {
    && g'.blocks.Keys == g.blocks.Keys
    && forall b :: b in g.blocks ==>
         g'.blocks[b].assignments == Keep(live, g.blocks[b].assignments) && g'.blocks[b].terminal
           == g.blocks[b].terminal
  }

  /** Everything a kept assignment or a terminal reads is live. */
  ghost predicate Covers(live: set<string>, g: Graph) {
    && (forall b, i :: b in g.blocks && 0 <= i < |g.blocks[b].assignments| ==>
         Covered(live, g.blocks[b].assignments[i]))
    && (forall b :: b in g.blocks ==> OperandNames(TerminalOperands(g.blocks[b].terminal)) <= live)
  }

  ghost predicate Covered(live: set<string>, a: Assignment) {
    Kept(live, a) ==> OperandNames(Operands(a)) <= live && (a.ArrayAccess? ==> a.accessArray in live)
  }

  lemma LiveSetCovers(globals: seq<FieldDeclaration>, live: set<string>, g: Graph)
    requires IsLiveSet(globals, g, live) && ArraysDeclared(globals, g)
    ensures Covers(live, g)
  {
    forall b, i | b in g.blocks && 0 <= i < |g.blocks[b].assignments|
      ensures Covered(live, g.blocks[b].assignments[i]) {
      if Kept(live, g.blocks[b].assignments[i]) {
        KeptReadsLive(globals, live, g, b, i);
      }
    }
    forall b | b in g.blocks ensures OperandNames(TerminalOperands(g.blocks[b].terminal)) <= live {
      TerminalReadsLive(globals, live, g, b);
    }
  }

  /** Original and pruned method stay in step, block by block, agreeing on the live set. */
  lemma {:induction false} PrunedRuns(live: set<string>, g: Graph, g': Graph, ctx: Context,
                                      b: BlockId, i: nat, st: State, st': State, fuel: nat)
    requires Closed(g) && Closed(g') && Covers(live, g) && IsPruned(live, g, g')
    requires ctx.globals <= live
    requires b in g.blocks && i <= Length(g, b)
    requires AgreeOn(live, st, st')
    ensures SameUnlessTrapped(RunFrom(ctx, g, b, i, st, fuel),
                              RunFrom(ctx, g', b, NewIndex(live, g.blocks[b].assignments, i), st', fuel))
    decreases fuel, Length(g, b) - i
  {
    hide Covers, Covered, Exec, AgreeOn, OperandNames, Operands, Kept, Closed, Eval, Keep;
    var all := g.blocks[b].assignments;
    if i < |all| {
      var a := all[i];
      KeepAt(live, all, i);
      CoversAt(live, g, b, i);
      if Kept(live, a) {
        KeptStep(ctx, live, a, st, st');
        match Exec(ctx, a, st)
        case Stop(_) =>
        case Next(s) =>
          PrunedRuns(live, g, g', ctx, b, i + 1, s, Exec(ctx, a, st').state, fuel);
      } else {
        PrunedStep(ctx, live, a, st, st');
        match Exec(ctx, a, st)
        case Stop(_) =>
        case Next(s) => PrunedRuns(live, g, g', ctx, b, i + 1, s, st', fuel);
      }
    } else {
      NewIndexEnds(live, all);
      TerminalAgrees(live, g, ctx, b, st, st');
      var t := g.blocks[b].terminal;
      if fuel > 0 && (t.Jump? || t.Branch?) {
        var next := if t.Jump? then t.target else Chosen(ctx, t, st);
        TargetsInside(g, b);
        assert next in Successors(t);
        NewIndexEnds(live, g.blocks[next].assignments);
        PrunedRuns(live, g, g', ctx, next, 0, st, st', fuel - 1);
      }
    }
  }

  lemma CoversAt(live: set<string>, g: Graph, b: BlockId, i: nat)
    requires Covers(live, g) && b in g.blocks && i < |g.blocks[b].assignments|
    ensures var a := g.blocks[b].assignments[i];
            Kept(live, a) ==> OperandNames(Operands(a)) <= live && (a.ArrayAccess? ==> a.accessArray in live)
  {
    assert Covered(live, g.blocks[b].assignments[i]);
  }

  lemma TargetsInside(g: Graph, b: BlockId)
    requires Closed(g) && b in g.blocks
    ensures forall t :: t in Successors(g.blocks[b].terminal) ==> t in g.blocks
  {
  }

  lemma TerminalAgrees(live: set<string>, g: Graph, ctx: Context, b: BlockId, st: State, st': State)
    requires Covers(live, g) && b in g.blocks && AgreeOn(live, st, st')
    ensures var t := g.blocks[b].terminal;
      && (t.Branch? ==> Chosen(ctx, t, st) == Chosen(ctx, t, st'))
      && (t.Return? ==> Eval(ctx, st, t.source) == Eval(ctx, st', t.source))
      && st.world == st'.world
  {
    var t := g.blocks[b].terminal;
    AgreeEval(ctx, live, st, st', TerminalOperands(t));
    if t.Branch? {
      assert TerminalOperands(t)[0] == t.left && TerminalOperands(t)[1] == t.right;
    } else if t.Return? {
      assert TerminalOperands(t)[0] == t.source;
    }
  }

  lemma SeedsAreLive(globals: seq<FieldDeclaration>, live: set<string>, g: Graph, ctx: Context)
    requires Seeded(globals, g, live) && ctx.globals == GlobalNames(globals)
    ensures ctx.globals <= live
  {
    forall n | n in ctx.globals ensures n in live { assert IsSeed(globals, g, n); }
  }

  lemma KeptReadsLive(globals: seq<FieldDeclaration>, live: set<string>, g: Graph, b: BlockId, i: nat)
    requires IsLiveSet(globals, g, live) && ArraysDeclared(globals, g)
    requires b in g.blocks && i < Length(g, b) && Kept(live, g.blocks[b].assignments[i])
    ensures OperandNames(Operands(g.blocks[b].assignments[i])) <= live
    ensures g.blocks[b].assignments[i].ArrayAccess? ==> g.blocks[b].assignments[i].accessArray in live
  {
    var a := g.blocks[b].assignments[i];
    assert ClosedFor(live, a);
    if a.Call? {
      forall n | n in CallNames(a)
        ensures n in live { assert BlockSeeds(g.blocks[b], n); assert IsSeed(globals, g, n); }
    }
    if a.ArrayAccess? {
      assert IsSeed(globals, g, a.accessArray) by {
        if a.accessArray !in GlobalNames(globals) {
          var c :| c in g.blocks && a.accessArray in ArrayNames(g.blocks[c].fields);
          assert BlockSeeds(g.blocks[c], a.accessArray);
        }
      }
    }
  }

  lemma TerminalReadsLive(globals: seq<FieldDeclaration>, live: set<string>, g: Graph, b: BlockId)
    requires Seeded(globals, g, live) && b in g.blocks
    ensures OperandNames(TerminalOperands(g.blocks[b].terminal)) <= live
  {
    forall n | n in OperandNames(TerminalOperands(g.blocks[b].terminal)) ensures n in live {
      assert BlockSeeds(g.blocks[b], n);
      assert IsSeed(globals, g, n);
    }
  }

  /** Dead code elimination preserves meaning: unless the original traps, the pruned method ends
      the same way, having made the same calls and left the same globals and arrays. */
  lemma PrunedPreservesRuns(globals: seq<FieldDeclaration>, live: set<string>, g: Graph, ctx: Context, st: State,
                            fuel: nat)
    requires WellFormed(g) && IsLiveSet(globals, g, live) && ArraysDeclared(globals, g)
    requires ctx.globals == GlobalNames(globals)
    ensures WellFormed(Pruned(live, g))
    ensures SameUnlessTrapped(Run(ctx, g, st, fuel), Run(ctx, Pruned(live, g), st, fuel))
  {
    PrunedWellFormed(live, g);
    NewIndexEnds(live, g.blocks[Entry(g)].assignments);
    LiveSetCovers(globals, live, g);
    SeedsAreLive(globals, live, g, ctx);
    PrunedRuns(live, g, Pruned(live, g), ctx, Entry(g), 0, st, st, fuel);
  }

  /** A second elimination removes nothing: the pruned method has the same least live set, and
      every assignment left is kept by it. */
  lemma PruningIsIdempotent(globals: seq<FieldDeclaration>, live: set<string>, g: Graph)
    requires IsLiveSet(globals, g, live) && Least(globals, g, live)
    ensures IsLiveSet(globals, Pruned(live, g), live) && Least(globals, Pruned(live, g), live)
    ensures Pruned(live, Pruned(live, g)) == Pruned(live, g)
  {
    var g' := Pruned(live, g);
    forall b | b in g.blocks
      ensures Keep(live, g'.blocks[b].assignments) == g'.blocks[b].assignments
      ensures forall n :: BlockSeeds(g.blocks[b], n) <==> BlockSeeds(g'.blocks[b], n)
    {
      KeepTwice(live, g.blocks[b].assignments);
      KeepMembers(live, g.blocks[b].assignments);
      PrunedSeeds(live, g.blocks[b]);
    }
    assert Pruned(live, g').blocks == g'.blocks;
    forall n ensures IsSeed(globals, g, n) <==> IsSeed(globals, g', n) {
      if IsSeed(globals, g, n) && n !in GlobalNames(globals) {
        var b :| b in g.blocks && BlockSeeds(g.blocks[b], n);
        assert b in g'.blocks && BlockSeeds(g'.blocks[b], n);
      }
    }
    forall b, i | b in g'.blocks && 0 <= i < |g'.blocks[b].assignments|
      ensures ClosedFor(live, g'.blocks[b].assignments[i])
    {
      KeepMembers(live, g.blocks[b].assignments);
      assert g'.blocks[b].assignments[i] in g.blocks[b].assignments;
    }
    forall other: set<string> | IsLiveSet(globals, g', other) ensures live <= other {
      var both := live * other;
      forall b, i | b in g.blocks && 0 <= i < |g.blocks[b].assignments|
        ensures ClosedFor(both, g.blocks[b].assignments[i]) {
        var a := g.blocks[b].assignments[i];
        if a.destination in both {
          KeepMembers(live, g.blocks[b].assignments);
          assert a in g'.blocks[b].assignments;
          assert ClosedFor(live, a) && ClosedFor(other, a);
        }
      }
      assert IsLiveSet(globals, g, both);
    }
  }

  lemma PrunedSeeds(live: set<string>, block: Block)
    ensures var block' := block.(assignments := Keep(live, block.assignments));
            forall n :: BlockSeeds(block, n) <==> BlockSeeds(block', n)
  {
    var block' := block.(assignments := Keep(live, block.assignments));
    KeepMembers(live, block.assignments);
    forall n ensures BlockSeeds(block, n) <==> BlockSeeds(block', n) {
      if i :| 0 <= i < |block.assignments| && n in CallNames(block.assignments[i]) {
        assert block.assignments[i] in block'.assignments;
        var j :| 0 <= j < |block'.assignments| && block'.assignments[j] == block.assignments[i];
      }
      if j :| 0 <= j < |block'.assignments| && n in CallNames(block'.assignments[j]) {
        assert block'.assignments[j] in block.assignments;
        var i :| 0 <= i < |block.assignments| && block.assignments[i] == block'.assignments[j];
      }
    }
  }
}
