/** What dead code elimination removes, said without its live set: the assignments whose destination nothing
    needs. */
module DeadCodeEffects {
  import opened Words
  import opened Worlds
  import opened Llir
  import opened ReachingDefinitions
  import opened Rewriting
  import opened DeadCode

  // ----- needing a name -----

  /** The operation takes the value of `n`. */
  predicate Takes(a: Assignment, n: string) {
    match a
    case Unary(_, _, source) => source == Field(n)
    case Binary(_, _, left, right) => left == Field(n) || right == Field(n)
    case ArrayUpdate(_, index, value) => index == Field(n) || value == Field(n)
    case ArrayAccess(_, index, _) => index == Field(n)
    case Call(_, _, arguments) => Field(n) in arguments
  }

  predicate Decides(t: Terminal, n: string) {
    match t
    case Branch(_, _, left, right, _, _) => left == Field(n) || right == Field(n)
    case Return(source) => source == Field(n)
    case _ => false
  }

  ghost predicate Declares(fields: seq<FieldDeclaration>, n: string) {
    exists i :: 0 <= i < |fields| && fields[i].identifier == n
  }

  ghost predicate DeclaresArray(fields: seq<FieldDeclaration>, n: string) {
    exists i :: 0 <= i < |fields| && fields[i].isArray && fields[i].identifier == n
  }

  ghost predicate Passes(assignments: seq<Assignment>, n: string) {
    exists i :: 0 <= i < |assignments| && assignments[i].Call? && Takes(assignments[i], n)
  }

  /** Needed by itself: a global, an array, an argument of a call, or what a branch or a return looks at. */
  ghost predicate Observed(globals: seq<FieldDeclaration>, g: Graph, n: string) {
    || Declares(globals, n)
    || exists b :: b in g.blocks && ObservedIn(g.blocks[b], n)
  }

  ghost predicate ObservedIn(block: Block, n: string) {
    DeclaresArray(block.fields, n) || Passes(block.assignments, n) || Decides(block.terminal, n)
  }

  /** Some assignment to `n` takes the value of `m`. */
  ghost predicate Feeds(g: Graph, m: string, n: string) {
    exists b, i :: b in g.blocks && 0 <= i < |g.blocks[b].assignments|
      && g.blocks[b].assignments[i].destination == n && Takes(g.blocks[b].assignments[i], m)
  }

  /** `chain` leads from a name that is observed to the last name, each feeding the one before it. */
  ghost predicate IsChain(globals: seq<FieldDeclaration>, g: Graph, chain: seq<string>) {
    && chain != []
    && Observed(globals, g, chain[0])
    && forall k :: 0 <= k < |chain| - 1 ==> Feeds(g, chain[k + 1], chain[k])
  }

  ghost predicate Needed(globals: seq<FieldDeclaration>, g: Graph, n: string) {
    exists chain :: IsChain(globals, g, chain) && chain[|chain| - 1] == n
  }

  // ----- the live set holds exactly what is needed -----

  lemma TakesIsOperand(a: Assignment, n: string)
    ensures Takes(a, n) <==> n in OperandNames(Operands(a))
    ensures a.Call? && Takes(a, n) <==> n in CallNames(a)
  {
    var os := Operands(a);
    if Takes(a, n) {
      assert Field(n) in os by {
        match a
        case Unary(_, _, _) => assert os[0] == Field(n);
        case Binary(_, _, l, _) => assert os[if l == Field(n) then 0 else 1] == Field(n);
        case ArrayUpdate(_, i, _) => assert os[if i == Field(n) then 0 else 1] == Field(n);
        case ArrayAccess(_, _, _) => assert os[0] == Field(n);
        case Call(_, _, _) =>
      }
      var k :| 0 <= k < |os| && os[k] == Field(n);
      assert os[k].Field? && os[k].name == n;
    }
    if n in OperandNames(os) {
      var k :| 0 <= k < |os| && os[k].Field? && os[k].name == n;
      assert os[k] == Field(n);
    }
  }

  lemma DecidesIsOperand(t: Terminal, n: string)
    ensures Decides(t, n) <==> n in OperandNames(TerminalOperands(t))
  {
    var os := TerminalOperands(t);
    if Decides(t, n) {
      var k := if os[0] == Field(n) then 0 else 1;
      assert os[k].Field? && os[k].name == n;
    }
    if n in OperandNames(os) {
      var k :| 0 <= k < |os| && os[k].Field? && os[k].name == n;
      assert os[k] == Field(n);
    }
  }

  lemma ObservedIsSeed(globals: seq<FieldDeclaration>, g: Graph, n: string)
    ensures Observed(globals, g, n) <==> IsSeed(globals, g, n)
  {
    assert Declares(globals, n) <==> n in GlobalNames(globals);
    forall b | b in g.blocks ensures ObservedIn(g.blocks[b], n) <==> BlockSeeds(g.blocks[b], n) {
      ObservedIsBlockSeed(g.blocks[b], n);
    }
    hide ObservedIn, BlockSeeds, Declares, GlobalNames;
  }

  lemma ObservedIsBlockSeed(block: Block, n: string)
    ensures ObservedIn(block, n) <==> BlockSeeds(block, n)
  {
    assert DeclaresArray(block.fields, n) <==> n in ArrayNames(block.fields);
    DecidesIsOperand(block.terminal, n);
    forall i | 0 <= i < |block.assignments|
      ensures block.assignments[i].Call? && Takes(block.assignments[i], n) <==> n in CallNames(block.assignments[i])
    {
      TakesIsOperand(block.assignments[i], n);
    }
    hide DeclaresArray, ArrayNames, Decides, Takes, CallNames, OperandNames, TerminalOperands;
  }

  lemma {:induction false} ChainIsLive(globals: seq<FieldDeclaration>, g: Graph, live: set<string>, chain: seq<string>)
    requires IsLiveSet(globals, g, live) && IsChain(globals, g, chain)
    ensures chain[|chain| - 1] in live
  {
    var n := |chain| - 1;
    if n == 0 {
      ObservedIsSeed(globals, g, chain[0]);
    } else {
      hide Observed, Feeds;
      assert IsChain(globals, g, chain[..n]) by {
        forall k | 0 <= k < n - 1 ensures Feeds(g, chain[..n][k + 1], chain[..n][k]) { }
      }
      ChainIsLive(globals, g, live, chain[..n]);
      FedIsLive(globals, g, live, chain[n], chain[n - 1]);
    }
  }

  lemma FedIsLive(globals: seq<FieldDeclaration>, g: Graph, live: set<string>, m: string, n: string)
    requires ClosedUnderReads(g, live) && n in live && Feeds(g, m, n)
    ensures m in live
  {
    var b, i :| b in g.blocks && 0 <= i < |g.blocks[b].assignments|
      && g.blocks[b].assignments[i].destination == n && Takes(g.blocks[b].assignments[i], m);
    assert ClosedFor(live, g.blocks[b].assignments[i]);
    TakesIsOperand(g.blocks[b].assignments[i], m);
  }

  lemma NeededGrows(globals: seq<FieldDeclaration>, g: Graph, m: string, n: string)
    requires Needed(globals, g, n) && Feeds(g, m, n)
    ensures Needed(globals, g, m)
  {
    hide Observed, Feeds;
    var chain :| IsChain(globals, g, chain) && chain[|chain| - 1] == n;
    var longer := chain + [m];
    forall k | 0 <= k < |longer| - 1 ensures Feeds(g, longer[k + 1], longer[k]) {
      if k < |chain| - 1 { assert Feeds(g, chain[k + 1], chain[k]); }
    }
    assert IsChain(globals, g, longer) && longer[|longer| - 1] == m;
  }

  lemma ObservedIsNeeded(globals: seq<FieldDeclaration>, g: Graph, n: string)
    requires Observed(globals, g, n)
    ensures Needed(globals, g, n)
  {
    hide Observed;
    assert IsChain(globals, g, [n]) && [n][0] == n;
  }

  /** The live set that elimination computes holds exactly the names that are needed. */
  lemma LeastIsNeeded(globals: seq<FieldDeclaration>, g: Graph, live: set<string>, n: string)
    requires IsLiveSet(globals, g, live) && Least(globals, g, live)
    ensures n in live <==> Needed(globals, g, n)
  {
    if Needed(globals, g, n) {
      var chain :| IsChain(globals, g, chain) && chain[|chain| - 1] == n;
      ChainIsLive(globals, g, live, chain);
    }
    var needed := set m | m in live && Needed(globals, g, m);
    NeededIsLiveSet(globals, g, live, needed);
    assert live <= needed;
  }

  lemma NeededIsLiveSet(globals: seq<FieldDeclaration>, g: Graph, live: set<string>, needed: set<string>)
    requires IsLiveSet(globals, g, live) && needed == set m | m in live && Needed(globals, g, m)
    ensures IsLiveSet(globals, g, needed)
  {
    hide Needed, Observed, IsSeed;
    forall m | IsSeed(globals, g, m) ensures m in needed {
      ObservedIsSeed(globals, g, m);
      ObservedIsNeeded(globals, g, m);
    }
    forall b, i | b in g.blocks && 0 <= i < |g.blocks[b].assignments|
      ensures ClosedFor(needed, g.blocks[b].assignments[i])
    {
      var a := g.blocks[b].assignments[i];
      assert ClosedFor(live, a);
      if a.destination in needed {
        forall m | m in OperandNames(Operands(a)) ensures m in needed {
          TakesIsOperand(a, m);
          assert Feeds(g, m, a.destination);
          NeededGrows(globals, g, m, a.destination);
        }
      }
    }
  }

  // ----- what is removed -----

  /** `places` are the indices, in order, of the assignments that are calls or have a needed destination, and `kept`
      is what stands at them. */
  ghost predicate KeptAt(globals: seq<FieldDeclaration>, g: Graph, all: seq<Assignment>, kept: seq<Assignment>,
                         places: seq<nat>) {
    && |places| == |kept|
    && (forall i :: 0 <= i < |kept| ==> places[i] < |all| && kept[i] == all[places[i]])
    && (forall i, j :: 0 <= i < j < |places| ==> places[i] < places[j])
    && (forall k :: 0 <= k < |all| ==> (k in places <==> all[k].Call? || Needed(globals, g, all[k].destination)))
  }

  lemma {:induction false} KeepsNeeded(globals: seq<FieldDeclaration>, g: Graph, live: set<string>,
                                       all: seq<Assignment>)
    returns (places: seq<nat>)
    requires forall n :: n in live <==> Needed(globals, g, n)
    ensures KeptAt(globals, g, all, Keep(live, all), places)
  {
    if all == [] {
      places := [];
    } else {
      hide Needed, KeptAt;
      var n := |all| - 1;
      var front := KeepsNeeded(globals, g, live, all[..n]);
      places := if Kept(live, all[n]) then front + [n] else front;
      KeptFurther(globals, g, live, all, Keep(live, all[..n]), front);
    }
  }

  /** One assignment more. */
  lemma KeptFurther(globals: seq<FieldDeclaration>, g: Graph, live: set<string>, all: seq<Assignment>,
                    kept: seq<Assignment>, front: seq<nat>)
    requires (forall n :: n in live <==> Needed(globals, g, n)) && all != []
    requires KeptAt(globals, g, all[..|all| - 1], kept, front)
    ensures var n := |all| - 1;
      if Kept(live, all[n]) then KeptAt(globals, g, all, kept + [all[n]], front + [n])
      else KeptAt(globals, g, all, kept + [], front)
  {
    hide Needed;
    var n := |all| - 1;
    assert kept + [] == kept;
    var places := if Kept(live, all[n]) then front + [n] else front;
    forall k | 0 <= k < |all| ensures k in places <==> all[k].Call? || Needed(globals, g, all[k].destination) {
      if k < n {
        assert all[..n][k] == all[k];
        assert k in places <==> k in front;
      } else {
        forall i | 0 <= i < |front| ensures front[i] != n { }
      }
    }
    if Kept(live, all[n]) {
      assert forall i, j :: 0 <= i < j < |places| ==> places[i] < places[j];
    }
  }

  /** Elimination by the least live set: in every block exactly the calls and the assignments to names that are needed
      stay, in order; declarations, terminals and layout are as they were. */
  lemma EliminationIsExact(globals: seq<FieldDeclaration>, g: Graph, live: set<string>, b: BlockId)
    returns (places: seq<nat>)
    requires IsLiveSet(globals, g, live) && Least(globals, g, live) && b in g.blocks
    ensures var h := Pruned(live, g);
      && h.order == g.order && h.predecessors == g.predecessors && h.blocks.Keys == g.blocks.Keys
      && h.blocks[b].fields == g.blocks[b].fields && h.blocks[b].terminal == g.blocks[b].terminal
      && KeptAt(globals, g, g.blocks[b].assignments, h.blocks[b].assignments, places)
  {
    forall n ensures n in live <==> Needed(globals, g, n) { LeastIsNeeded(globals, g, live, n); }
    places := KeepsNeeded(globals, g, live, g.blocks[b].assignments);
  }
}
