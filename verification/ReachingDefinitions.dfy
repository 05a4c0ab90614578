/** Which assignments to a name can be the last one before a use, and the backward search with one
    shared visited set that the optimizer runs to find them. */
module ReachingDefinitions {
  import opened Worlds
  import opened Llir

  function Length(g: Graph, b: BlockId): nat
    requires b in g.blocks
  {
    |g.blocks[b].assignments|
  }

  function At(g: Graph, p: Position): Assignment
    requires p.block in g.blocks && p.index < Length(g, p.block)
  {
    g.blocks[p.block].assignments[p.index]
  }

  /** No assignment of `b` from `lo` up to `hi` writes `x`. */
  ghost predicate Clear(g: Graph, x: string, b: BlockId, lo: nat, hi: nat) {
    && b in g.blocks
    && hi <= Length(g, b)
    && forall i :: lo <= i < hi ==> g.blocks[b].assignments[i].destination != x
  }

  /** Entering `path[0]` and following `path` arrives at `u` without passing a write to `x`. */
  ghost predicate Follows(g: Graph, x: string, path: seq<BlockId>, u: Position) {
    && |path| > 0
    && if |path| == 1 then
         path[0] == u.block && Clear(g, x, u.block, 0, u.index)
       else
         && path[0] in g.blocks
         && Clear(g, x, path[0], 0, Length(g, path[0]))
         && IsEdge(g, path[0], path[1])
         && Follows(g, x, path[1..], u)
  }

  ghost predicate EntryReaches(g: Graph, x: string, b: BlockId, u: Position) {
    exists path :: Follows(g, x, path, u) && path[0] == b
  }

  ghost predicate ExitReaches(g: Graph, x: string, b: BlockId, u: Position) {
    exists t :: IsEdge(g, b, t) && EntryReaches(g, x, t, u)
  }

  /** From point `p`, some path reaches `u` without passing a write to `x`. */
  ghost predicate InRegion(g: Graph, x: string, p: Position, u: Position) {
    || (p.block == u.block && p.index <= u.index && Clear(g, x, p.block, p.index, u.index))
    || (p.block in g.blocks && Clear(g, x, p.block, p.index, Length(g, p.block)) && ExitReaches(g, x, p.block, u))
  }

  function After(p: Position): Position {
    p.(index := p.index + 1)
  }

  /** `d` writes `x` and can be the last write before `u`. */
  ghost predicate IsReachingDefinition(g: Graph, x: string, u: Position, d: Position) {
    && d.block in g.blocks && d.index < Length(g, d.block)
    && At(g, d).destination == x
    && InRegion(g, x, After(d), u)
  }

  /** `q` writes something other than `x` on a definition-free path to `u`. */
  ghost predicate IsPassedWrite(g: Graph, x: string, u: Position, q: Position) {
    && q.block in g.blocks && q.index < Length(g, q.block)
    && At(g, q).destination != x
    && InRegion(g, x, After(q), u)
  }

  ghost predicate IsMutated(g: Graph, x: string, u: Position, n: string) {
    exists q :: IsPassedWrite(g, x, u, q) && At(g, q).destination == n
  }

  lemma EntryReachesInRegion(g: Graph, x: string, b: BlockId, u: Position)
    requires u.block in g.blocks && u.index <= Length(g, u.block)
    ensures EntryReaches(g, x, b, u) <==> InRegion(g, x, Position(b, 0), u)
  {
    if EntryReaches(g, x, b, u) {
      var path :| Follows(g, x, path, u) && path[0] == b;
      if |path| > 1 {
        assert EntryReaches(g, x, path[1], u) by { assert path[1..][0] == path[1]; }
      }
    }
    if InRegion(g, x, Position(b, 0), u) {
      if b == u.block && Clear(g, x, b, 0, u.index) {
        assert Follows(g, x, [b], u);
      } else {
        var t :| IsEdge(g, b, t) && EntryReaches(g, x, t, u);
        var path :| Follows(g, x, path, u) && path[0] == t;
        assert ([b] + path)[1..] == path;
        assert Follows(g, x, [b] + path, u);
      }
    }
  }

  // ----- the search -----

  /** What a scan of block `b` below `count` has to have recorded. */
  ghost predicate Scanned(g: Graph, x: string, b: BlockId, count: nat,
                          visited: set<BlockId>, definitions: seq<Position>, mutated: set<string>)
    requires PredecessorsAgree(g)
  {
    && b in g.blocks && count <= Length(g, b)
    && (forall i :: 0 <= i < count && Clear(g, x, b, i + 1, count) ==>
          if g.blocks[b].assignments[i].destination == x then Position(b, i) in definitions
          else g.blocks[b].assignments[i].destination in mutated)
    && (Clear(g, x, b, 0, count) ==> forall p :: p in g.predecessors[b] ==> p in visited)
  }

  ghost predicate Sound(g: Graph, x: string, u: Position,
                        visited: set<BlockId>, definitions: seq<Position>, mutated: set<string>)
  {
    && (forall v :: v in visited ==> v in g.blocks && ExitReaches(g, x, v, u))
    && (forall d :: d in definitions ==> IsReachingDefinition(g, x, u, d))
    && (forall n :: n in mutated ==> IsMutated(g, x, u, n))
  }

  /** Every block of `blocks` has been scanned to its end. */
  ghost predicate AllScanned(g: Graph, x: string, blocks: set<BlockId>,
                             visited: set<BlockId>, definitions: seq<Position>, mutated: set<string>)
    requires PredecessorsAgree(g)
  {
    forall v :: v in blocks ==> v in g.blocks && Scanned(g, x, v, Length(g, v), visited, definitions, mutated)
  }

  lemma ScannedGrows(g: Graph, x: string, blocks: set<BlockId>,
                     visited: set<BlockId>, definitions: seq<Position>, mutated: set<string>,
                     visited': set<BlockId>, definitions': seq<Position>, mutated': set<string>)
    requires PredecessorsAgree(g)
    requires AllScanned(g, x, blocks, visited, definitions, mutated)
    requires visited <= visited' && mutated <= mutated' && forall d :: d in definitions ==> d in definitions'
    ensures AllScanned(g, x, blocks, visited', definitions', mutated')
  {
  }

  /** One assignment further back, the region goes on unless `x` is written. */
  lemma StepBack(g: Graph, x: string, p: Position, u: Position)
    requires p.block in g.blocks && p.index < Length(g, p.block)
    requires InRegion(g, x, Position(p.block, p.index + 1), u)
    ensures InRegion(g, x, After(p), u)
    ensures At(g, p).destination != x ==> InRegion(g, x, p, u)
  {
    assert After(p) == Position(p.block, p.index + 1);
  }

  /** The search state of `find_definitions`: the tables that every recursive call shares. */
  class DefinitionSearch {
    var visited: set<BlockId>
    var definitions: seq<Position>
    var mutated: set<string>

    constructor ()
      ensures visited == {} && definitions == [] && mutated == {}
    {
      visited, definitions, mutated := {}, [], {};
    }

    /** The first half of `find_definition_in_block`: walk backwards below `count`. */
    method ScanBackwards(g: Graph, b: BlockId, count: nat, x: string, ghost u: Position) returns (found: bool)
      requires PredecessorsAgree(g) && Valid(g, u)
      requires b in g.blocks && count <= Length(g, b)
      requires InRegion(g, x, Position(b, count), u)
      requires Sound(g, x, u, visited, definitions, mutated)
      modifies this
      ensures Sound(g, x, u, visited, definitions, mutated)
      ensures visited == old(visited) && old(mutated) <= mutated
      ensures forall d :: d in old(definitions) ==> d in definitions
      ensures found <==> !Clear(g, x, b, 0, count)
      ensures found ==> Scanned(g, x, b, count, visited, definitions, mutated)
      ensures !found ==> InRegion(g, x, Position(b, 0), u)
      ensures !found ==> forall k :: 0 <= k < count ==> g.blocks[b].assignments[k].destination in mutated
    {
      hide InRegion, ExitReaches, EntryReaches, IsEdge;
      var i := count;
      while i > 0
        invariant 0 <= i <= count
        invariant Clear(g, x, b, i, count)
        invariant visited == old(visited) && definitions == old(definitions) && old(mutated) <= mutated
        invariant forall k :: i <= k < count ==> g.blocks[b].assignments[k].destination in mutated
        invariant InRegion(g, x, Position(b, i), u)
        invariant Sound(g, x, u, visited, definitions, mutated)
      {
        i := i - 1;
        ghost var p := Position(b, i);
        StepBack(g, x, p, u);
        var assignment := g.blocks[b].assignments[i];
        if assignment.destination == x {
          assert IsReachingDefinition(g, x, u, p);
          definitions := definitions + [Position(b, i)];
          return true;
        }
        assert IsPassedWrite(g, x, u, p);
        mutated := mutated + {assignment.destination};
      }
      return false;
    }

    /** `find_definition_in_block`, looking at the assignments below `count`. */
    method FindInBlock(g: Graph, b: BlockId, count: nat, x: string, ghost u: Position)
      requires PredecessorsAgree(g) && Valid(g, u)
      requires b in g.blocks && count <= Length(g, b)
      requires InRegion(g, x, Position(b, count), u)
      requires Sound(g, x, u, visited, definitions, mutated)
      modifies this
      ensures Sound(g, x, u, visited, definitions, mutated)
      ensures old(visited) <= visited && old(mutated) <= mutated
      ensures forall d :: d in old(definitions) ==> d in definitions
      ensures Scanned(g, x, b, count, visited, definitions, mutated)
      ensures AllScanned(g, x, visited - old(visited), visited, definitions, mutated)
      decreases g.blocks.Keys - visited
    {
      var found := ScanBackwards(g, b, count, x, u);
      if found {
        return;
      }

      var predecessors := g.predecessors[b];
      label Scan:
      for k := 0 to |predecessors|
        invariant old(visited) <= visited && old@Scan(mutated) <= mutated
        invariant forall d :: d in old@Scan(definitions) ==> d in definitions
        invariant forall j :: 0 <= j < k ==> predecessors[j] in visited
        invariant Sound(g, x, u, visited, definitions, mutated)
        invariant AllScanned(g, x, visited - old(visited), visited, definitions, mutated)
      {
        var predecessor := predecessors[k];
        if predecessor in visited {
          continue;
        }
        assert IsEdge(g, predecessor, b);
        EntryReachesInRegion(g, x, b, u);
        label Before:
        visited := visited + {predecessor};
        FindInBlock(g, predecessor, |g.blocks[predecessor].assignments|, x, u);
        ScannedGrows(g, x, old@Before(visited) - old(visited),
                     old@Before(visited), old@Before(definitions), old@Before(mutated),
                     visited, definitions, mutated);
      }
    }

    /** `find_definitions`: exactly the definitions reaching the use, and exactly the other names
        written on the definition-free paths in between. */
    method FindDefinitions(g: Graph, u: Position, x: string)
      requires PredecessorsAgree(g) && Valid(g, u)
      modifies this
      ensures forall d :: d in definitions <==> IsReachingDefinition(g, x, u, d)
      ensures forall n :: n in mutated <==> IsMutated(g, x, u, n)
    {
      visited, definitions, mutated := {}, [], {};
      FindInBlock(g, u.block, u.index, x, u);
      assert visited - {} == visited;
      SearchIsComplete(g, x, u, visited, definitions, mutated);
    }
  }

  /** Once every visited block is scanned, every block on a definition-free path was visited. */
  lemma {:induction false} PathIsVisited(g: Graph, x: string, u: Position, path: seq<BlockId>,
                      visited: set<BlockId>, definitions: seq<Position>, mutated: set<string>)
    requires PredecessorsAgree(g) && Valid(g, u)
    requires Scanned(g, x, u.block, u.index, visited, definitions, mutated)
    requires AllScanned(g, x, visited, visited, definitions, mutated)
    requires Follows(g, x, path, u)
    ensures forall p :: IsEdge(g, p, path[0]) ==> p in visited
    decreases |path|
  {
    if |path| > 1 {
      PathIsVisited(g, x, u, path[1..], visited, definitions, mutated);
      assert path[0] in visited;
    }
  }

  lemma SearchIsComplete(g: Graph, x: string, u: Position,
                         visited: set<BlockId>, definitions: seq<Position>, mutated: set<string>)
    requires PredecessorsAgree(g) && Valid(g, u)
    requires Scanned(g, x, u.block, u.index, visited, definitions, mutated)
    requires AllScanned(g, x, visited, visited, definitions, mutated)
    ensures forall d :: IsReachingDefinition(g, x, u, d) ==> d in definitions
    ensures forall n :: IsMutated(g, x, u, n) ==> n in mutated
  {
    forall b | ExitReaches(g, x, b, u) ensures b in visited {
      var t :| IsEdge(g, b, t) && EntryReaches(g, x, t, u);
      var path :| Follows(g, x, path, u) && path[0] == t;
      PathIsVisited(g, x, u, path, visited, definitions, mutated);
    }
  }
}
