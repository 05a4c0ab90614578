/** The finished method: a well-formed graph whose predecessor lists are its edges, laid out so that
    branches fall through, and, when it assigns no parameter, assigned before read on every path. */
module GeneratedMethods {
  import opened Words
  import opened Worlds
  import opened Llir
  import opened Names
  import opened Lowering
  import opened LoweringStructure
  import opened ReachingDefinitions
  import opened Rewriting
  import opened GeneratedGraphs
  import opened SoundGeneration
  import opened SoundStatements
  import opened MethodLowering
  import opened BlockNumbers
  import DeadCode
  import Ir

  // ----- predecessor lists -----

  lemma {:induction false} AddPredecessorCounts(predecessors: map<BlockId, seq<BlockId>>, targets: seq<BlockId>,
                                                b: BlockId, t: BlockId, c: BlockId)
    ensures multiset(Listed(AddPredecessor(predecessors, targets, b), t))[c]
         == multiset(Listed(predecessors, t))[c] + if c == b then multiset(targets)[t] else 0
    decreases targets
  {
    if targets != [] {
      var first := targets[0];
      var next := predecessors[first := Listed(predecessors, first) + [b]];
      assert targets == [first] + targets[1..];
      AddPredecessorCounts(next, targets[1..], b, t, c);
    }
  }

  /** How often `t` is a target of `b`, when `b` is laid out. */
  function EdgeCount(order: seq<BlockId>, blocks: map<BlockId, Block>, b: BlockId, t: BlockId): nat {
    if b in order && b in blocks then multiset(Successors(blocks[b].terminal))[t] else 0
  }

  /** The predecessor lists are exactly the multiset of edges. */
  lemma {:induction false} PredecessorListsExact(order: seq<BlockId>, blocks: map<BlockId, Block>, t: BlockId,
                                                 b: BlockId)
    requires forall c :: c in order ==> c in blocks
    requires forall i, j :: 0 <= i < j < |order| ==> order[i] != order[j]
    ensures multiset(Listed(PredecessorLists(order, blocks), t))[b] == EdgeCount(order, blocks, b, t)
  {
    hide AddPredecessor, Successors;
    if order != [] {
      var front, last := order[..|order| - 1], order[|order| - 1];
      assert order == front + [last] && last !in front;
      PredecessorListsExact(front, blocks, t, b);
      AddPredecessorCounts(PredecessorLists(front, blocks), Successors(blocks[last].terminal), last, t, b);
    }
  }

  lemma ListedIsCounted(s: seq<BlockId>, b: BlockId)
    ensures b in s <==> multiset(s)[b] > 0
  {
  }

  // ----- assigned before read -----

  /** Every block keeps the plan. */
  ghost predicate Certificate(fixed: set<string>, plan: Plan, g: Graph) {
    forall b :: b in g.blocks ==> b in plan && BlockOk(fixed, plan, g.blocks[b], plan[b])
  }

  lemma NotWritten(g: Graph, x: string, b: BlockId, n: nat)
    requires Clear(g, x, b, 0, n)
    ensures x !in Written(g.blocks[b].assignments[..n])
  {
  }

  /** A path without a write to `x` never reaches a point where `x` was planned to be written. */
  lemma {:induction false} PathMisses(fixed: set<string>, plan: Plan, g: Graph, x: string, path: seq<BlockId>,
                                      u: Position)
    requires Certificate(fixed, plan, g) && Closed(g) && Follows(g, x, path, u)
    requires path[0] in plan && x !in plan[path[0]]
    ensures u.block in g.blocks && u.block in plan && u.index <= Length(g, u.block)
    ensures x !in plan[u.block] + Written(g.blocks[u.block].assignments[..u.index])
    decreases |path|
  {
    hide CodeOk;
    if |path| == 1 {
      NotWritten(g, x, u.block, u.index);
    } else {
      var b := path[0];
      NotWritten(g, x, b, Length(g, b));
      assert g.blocks[b].assignments[..Length(g, b)] == g.blocks[b].assignments;
      assert BlockOk(fixed, plan, g.blocks[b], plan[b]);
      PathMisses(fixed, plan, g, x, path[1..], u);
    }
  }

  lemma FixedNeverWritten(fixed: set<string>, plan: Plan, g: Graph, x: string)
    requires Certificate(fixed, plan, g) && x in fixed
    ensures NeverWritten(g, x)
  {
    forall d: Position | d.block in g.blocks && d.index < Length(g, d.block) ensures At(g, d).destination != x {
      assert BlockOk(fixed, plan, g.blocks[d.block], plan[d.block]);
      assert AssignmentOk(fixed, At(g, d), plan[d.block] + Written(g.blocks[d.block].assignments[..d.index]));
    }
  }

  lemma ReadIsPlanned(fixed: set<string>, plan: Plan, g: Graph, u: Position, k: nat)
    requires Certificate(fixed, plan, g) && Closed(g) && Valid(g, u) && k < |OperandsAt(g, u)|
      && OperandsAt(g, u)[k].Field?
    ensures u.block in plan && OperandsAt(g, u)[k].name in plan[u.block]
      + Written(g.blocks[u.block].assignments[..u.index])
  {
    var block := g.blocks[u.block];
    assert BlockOk(fixed, plan, block, plan[u.block]);
    if u.index < |block.assignments| {
      assert AssignmentOk(fixed, block.assignments[u.index], plan[u.block] + Written(block.assignments[..u.index]));
    } else {
      assert block.assignments[..u.index] == block.assignments;
    }
  }

  /** A plan whose entry promises only globals and fixed names proves definite assignment. */
  lemma CertificateAssigns(fixed: set<string>, plan: Plan, g: Graph)
    requires Certificate(fixed, plan, g) && Closed(g) && |g.order| > 0 && Entry(g) in g.blocks && Entry(g) in plan
    requires forall n :: n in plan[Entry(g)] ==> LooksGlobal(n) || n in fixed
    ensures DefinitelyAssigned(g)
  {
    hide Certificate, LooksGlobal;
    forall u, k | Valid(g, u) && 0 <= k < |OperandsAt(g, u)| ensures ReadIsAssigned(g, u, OperandsAt(g, u)[k]) {
      var o := OperandsAt(g, u)[k];
      if o.Field? && !LooksGlobal(o.name) {
        ReadIsPlanned(fixed, plan, g, u, k);
        if o.name in plan[Entry(g)] {
          FixedNeverWritten(fixed, plan, g, o.name);
        } else if InRegion(g, o.name, EntryPosition(g), u) {
          EntryReachesInRegion(g, o.name, Entry(g), u);
          var path :| Follows(g, o.name, path, u) && path[0] == Entry(g);
          PathMisses(fixed, plan, g, o.name, path, u);
        }
      }
    }
  }

  /** Every read, of a local, a parameter or a temporary of either kind, is of a name in `entry` or of one
      that every path from the method's entry writes. */
  ghost predicate WrittenBeforeRead(g: Graph, entry: set<string>)
    requires |g.order| > 0
  {
    forall u, k :: Valid(g, u) && 0 <= k < |OperandsAt(g, u)| && OperandsAt(g, u)[k].Field? ==>
      OperandsAt(g, u)[k].name in entry || AlwaysWritten(g, OperandsAt(g, u)[k].name, u)
  }

  lemma CertificateWrites(fixed: set<string>, plan: Plan, g: Graph)
    requires Certificate(fixed, plan, g) && Closed(g) && |g.order| > 0 && Entry(g) in g.blocks && Entry(g) in plan
    ensures WrittenBeforeRead(g, plan[Entry(g)])
  {
    hide Certificate;
    forall u, k | Valid(g, u) && 0 <= k < |OperandsAt(g, u)| && OperandsAt(g, u)[k].Field?
      ensures OperandsAt(g, u)[k].name in plan[Entry(g)] || AlwaysWritten(g, OperandsAt(g, u)[k].name, u)
    {
      var x := OperandsAt(g, u)[k].name;
      ReadIsPlanned(fixed, plan, g, u, k);
      if x !in plan[Entry(g)] && InRegion(g, x, EntryPosition(g), u) {
        EntryReachesInRegion(g, x, Entry(g), u);
        var path :| Follows(g, x, path, u) && path[0] == Entry(g);
        PathMisses(fixed, plan, g, x, path, u);
      }
    }
  }

  // ----- the method -----

  function ParameterNames(m: Ir.Method): (names: set<string>)
    ensures forall f :: f in m.arguments ==> FieldName(f.identifier, 1) in names
  {
    set f | f in m.arguments :: FieldName(f.identifier, 1)
  }

  /** The table of level 0 holds the program's globals under their own names. */
  ghost predicate GlobalTable(globals: seq<FieldDeclaration>, table: map<string, FieldDeclaration>) {
    && (forall id :: id in table ==> table[id].identifier in DeadCode.GlobalNames(globals))
    && forall n :: n in DeadCode.GlobalNames(globals) ==> ValidIdentifier(n)
  }

  lemma ParametersFixed(m: Ir.Method, fixed: set<string>)
    requires forall f :: f in m.arguments ==> ValidIdentifier(f.identifier)
    requires fixed <= ParameterNames(m)
    ensures FixedParameters(fixed)
  {
    forall n | n in fixed ensures exists id :: ValidIdentifier(id) && n == FieldName(id, 1) {
      var f :| f in m.arguments && n == FieldName(f.identifier, 1);
      assert ValidIdentifier(f.identifier);
    }
  }

  lemma BodyFieldsFree(m: Ir.Method, fixed: set<string>)
    requires ScopedFields(m.arguments + m.body.fields) && fixed <= ParameterNames(m)
    ensures NamesFree(m.body.fields, 1, fixed)
  {
    hide FieldName, ValidIdentifier;
    var all := m.arguments + m.body.fields;
    forall f | f in m.body.fields ensures FieldName(f.identifier, 1) !in fixed {
      if FieldName(f.identifier, 1) in fixed {
        var a :| a in m.arguments && FieldName(f.identifier, 1) == FieldName(a.identifier, 1);
        var i :| 0 <= i < |m.arguments| && m.arguments[i] == a;
        var j :| 0 <= j < |m.body.fields| && m.body.fields[j] == f;
        assert all[i] == a && all[|m.arguments| + j] == f;
        FieldNameInjective(f.identifier, 1, a.identifier, 1);
      }
    }
  }

  function EntryNames(globals: seq<FieldDeclaration>, m: Ir.Method): set<string> {
    DeadCode.GlobalNames(globals) + ParameterNames(m)
  }

  lemma {:induction false} ParametersVisible(rules: Rules, table: map<string, FieldDeclaration>, m: Ir.Method,
                                             n: nat, s: Generator, plan: Plan)
    requires GlobalTable(rules.globals, table) && s.current in plan && EntryNames(rules.globals, m) <= plan[s.current]
    requires rules.parameters == ParameterNames(m)
    requires n <= |m.arguments| && forall f :: f in m.arguments ==> !f.isArray
    ensures Visible(rules, DeclareAll([table, map[]], m.arguments[..n]), s, plan)
  {
    hide FieldName;
    if n > 0 {
      ParametersVisible(rules, table, m, n - 1, s, plan);
      assert m.arguments[..n][..n - 1] == m.arguments[..n - 1];
      var f := m.arguments[n - 1];
      assert f in m.arguments;
      DeclareVisible(rules, DeclareAll([table, map[]], m.arguments[..n - 1]), f, s, plan);
    }
  }

  /** The whole body is generated soundly. */
  lemma BodySound(rules: Rules, table: map<string, FieldDeclaration>, m: Ir.Method, temporaries: nat, nextBlock: nat)
    returns (plan: Plan)
    requires GlobalTable(rules.globals, table) && ScopedMethod(table, m, rules.fixed)
      && rules.fixed <= ParameterNames(m) == rules.parameters
    ensures var s0, s := BeforeBody(table, m, temporaries, nextBlock), GenerateBody(table, m, temporaries, nextBlock);
            Extends(rules, s0, map[nextBlock := EntryNames(rules.globals, m)], s, plan, {})
  {
    hide GeneratedGraphs.Sound, Visible, GenerateStatements, GenerateFields, FixedParameters, EntryNames,
      ScopedStatements, DeclareAll, FieldName, ValidIdentifier, Extends, ParameterNames, Available, Ir.WellDeclared,
      NamesFree, Grows, Wf, Untouched;
    var s0, s1 := BeforeBody(table, m, temporaries, nextBlock), StartMethod(table, m, temporaries, nextBlock);
    var start: Plan := map[nextBlock := EntryNames(rules.globals, m)];
    StartPrepared(rules, table, m, temporaries, nextBlock);
    BodyFieldsFree(m, rules.fixed);
    assert forall f :: f in m.body.fields ==> f in m.arguments + m.body.fields;
    FieldsSound(rules, s0, start, m.body.fields);
    SoundIsWf(rules, s0, start);
    FieldsAdvance(s0, m.body.fields);
    DeclareAllConcatenation([table, map[]], m.arguments, m.body.fields);
    plan := StatementsSound(rules, s1, start, m.body.statements, false);
    ExtendsTransitive(rules, s0, start, s1, start, GenerateBody(table, m, temporaries, nextBlock), plan, {});
  }

  lemma StartPrepared(rules: Rules, table: map<string, FieldDeclaration>, m: Ir.Method, temporaries: nat,
                      nextBlock: nat)
    requires GlobalTable(rules.globals, table) && ScopedMethod(table, m, rules.fixed)
      && rules.fixed <= ParameterNames(m) == rules.parameters
    ensures Prepared(rules, BeforeBody(table, m, temporaries, nextBlock),
      map[nextBlock := EntryNames(rules.globals, m)])
  {
    hide ScopedStatements, DeclareAll, FieldName, ValidIdentifier, ParameterNames, FixedParameters, Visible;
    var s0 := BeforeBody(table, m, temporaries, nextBlock);
    var start: Plan := map[nextBlock := EntryNames(rules.globals, m)];
    assert m.arguments[..|m.arguments|] == m.arguments;
    ParametersVisible(rules, table, m, |m.arguments|, s0, start);
    assert forall f :: f in m.arguments ==> f in m.arguments + m.body.fields;
    ParametersFixed(m, rules.fixed);
  }

  /** Predecessor lists are the multiset of edges. */
  ghost predicate PredecessorsExact(g: Graph) {
    && g.predecessors.Keys == g.blocks.Keys
    && forall t, b :: t in g.blocks && b in g.blocks ==>
         multiset(g.predecessors[t])[b] == multiset(Successors(g.blocks[b].terminal))[t]
  }

  lemma FinishedCertificate(fixed: set<string>, s: Generator, plan: Plan, t: Terminal)
    requires Planned(fixed, s, plan) && !t.Unknown? && Successors(t) == []
    requires TerminalOperands(t) == [] || TerminalOperands(t) == [Literal(0)]
    ensures Certificate(fixed, plan, Graph(s.order + [s.current], Blocks(s, t), map[]))
  {
    hide CodeOk;
  }

  lemma FinishedClosed(fixed: set<string>, s0: Generator, p0: Plan, s: Generator, plan: Plan, g: Graph)
    requires Certificate(fixed, plan, g) && Grows(s0, s) && Closing(p0, s, plan, {}) && p0.Keys == {s0.current}
    requires g.blocks.Keys == s.finished.Keys + {s.current}
    ensures Closed(g)
  {
    hide CodeOk, Grows;
    assert s0.current in g.blocks by { StartRemains(s0, s); }
    forall b | b in g.blocks
      ensures !g.blocks[b].terminal.Unknown? && forall t :: t in Successors(g.blocks[b].terminal) ==> t in g.blocks {
      assert BlockOk(fixed, plan, g.blocks[b], plan[b]);
    }
  }

  lemma StartRemains(s0: Generator, s: Generator)
    requires Grows(s0, s)
    ensures s0.current in s.finished || s0.current == s.current
    ensures s0.order == [] ==> (s.order + [s.current])[0] == s0.current
  {
    assert (s0.order + [s0.current])[|s0.order|] == s0.current;
  }

  lemma FinishedLayout(s: Generator, t: Terminal)
    requires Wf(s) && LaidOut(s.order, s.finished, s.current) && !t.Branch?
    ensures FallsThrough(Graph(s.order + [s.current], Blocks(s, t), map[]))
    ensures forall b :: b in s.order + [s.current] <==> b in Blocks(s, t)
  {
    var order, blocks := s.order + [s.current], Blocks(s, t);
    forall i | 0 <= i < |s.order| ensures order[i] == s.order[i] && s.order[i] != s.current
      && s.order[i] in s.finished {
      assert s.order[i] in s.order;
    }
    forall i | 0 <= i < |order| && blocks[order[i]].terminal.Branch?
      ensures i + 1 < |order| && order[i + 1] == blocks[order[i]].terminal.trueBlock
    {
      if i < |s.order| {
        assert blocks[order[i]] == s.finished[s.order[i]];
        assert s.finished[s.order[i]].terminal.trueBlock == if i + 1 < |s.order| then s.order[i + 1] else s.current;
      }
    }
  }

  lemma FinishedBlocks(rules: Rules, s0: Generator, p0: Plan, s: Generator, plan: Plan, t: Terminal)
    requires Extends(rules, s0, p0, s, plan, {}) && p0.Keys == {s0.current} && !t.Unknown? && !t.Branch? && !t.Jump?
    requires TerminalOperands(t) == [] || TerminalOperands(t) == [Literal(0)]
    requires s0.order == []
    ensures var g := Graph(s.order + [s.current], Blocks(s, t), map[]);
      && Certificate(rules.fixed, plan, g) && Closed(g) && FallsThrough(g)
      && (forall b :: b in g.order <==> b in g.blocks)
      && g.order[0] == s0.current && s0.current in g.blocks
      && s0.current in plan && plan[s0.current] == p0[s0.current]
  {
    hide Planned, LaidOut, Grows, Certificate, Closing, Untouched, Available, NamesKnown, PlanNamed, Closed,
      FallsThrough, Wf;
    FinishedCertificate(rules.fixed, s, plan, t);
    FinishedClosed(rules.fixed, s0, p0, s, plan, Graph(s.order + [s.current], Blocks(s, t), map[]));
    FinishedLayout(s, t);
    StartRemains(s0, s);
  }

  lemma FinishedArrays(rules: Rules, s: Generator, t: Terminal, g: Graph)
    requires NamesKnown(rules, s) && g.blocks == Blocks(s, t) && s.current !in s.finished
    ensures DeadCode.ArraysDeclared(rules.globals, g)
  {
    forall b, i | b in g.blocks && 0 <= i < |g.blocks[b].assignments| && g.blocks[b].assignments[i].ArrayAccess?
      ensures g.blocks[b].assignments[i].accessArray in DeadCode.GlobalNames(rules.globals)
        || exists c ::
             c in g.blocks && g.blocks[b].assignments[i].accessArray in DeadCode.ArrayNames(g.blocks[c].fields)
    {
      var name := g.blocks[b].assignments[i].accessArray;
      assert AssignmentNamed(rules, s, g.blocks[b].assignments[i]);
      assert Declared(rules.globals, s, name);
      if name in DeadCode.ArrayNames(s.fields) {
        assert name in DeadCode.ArrayNames(g.blocks[s.current].fields);
      } else if name !in DeadCode.GlobalNames(rules.globals) {
        var c :| c in s.finished && name in DeadCode.ArrayNames(s.finished[c].fields);
        assert name in DeadCode.ArrayNames(g.blocks[c].fields);
      }
    }
  }

  /** The blocks are the ones numbered from `first` on, below `end`: none that was created is missing. */
  ghost predicate Numbered(g: Graph, first: BlockId, end: BlockId) {
    first < end && forall b :: b in g.blocks <==> first <= b < end
  }

  /** The graph is well formed, and a plan of what is written before each block certifies it. */
  lemma GraphCertified(rules: Rules, table: map<string, FieldDeclaration>, m: Ir.Method, temporaries: nat,
                       nextBlock: nat) returns (plan: Plan)
    requires GlobalTable(rules.globals, table) && ScopedMethod(table, m, rules.fixed)
      && rules.fixed <= ParameterNames(m) == rules.parameters
    ensures var g := GenerateMethod(table, m, temporaries, nextBlock);
      && WellFormed(g) && FallsThrough(g) && PredecessorsExact(g) && DeadCode.ArraysDeclared(rules.globals, g)
      && Entry(g) == nextBlock && Certificate(rules.fixed, plan, g)
      && nextBlock in plan && plan[nextBlock] == EntryNames(rules.globals, m)
  {
    hide FallsThrough, DeadCode.ArraysDeclared, Closed, Certificate, Untouched, Grows, ScopedMethod, GenerateBody,
      NamesKnown, PlanNamed, CodeOk, PredecessorLists, ParameterNames, EntryNames;
    var g := GenerateMethod(table, m, temporaries, nextBlock);
    plan := BodySound(rules, table, m, temporaries, nextBlock);
    var s0, s := BeforeBody(table, m, temporaries, nextBlock), GenerateBody(table, m, temporaries, nextBlock);
    var p0: Plan := map[nextBlock := EntryNames(rules.globals, m)];
    FinishedBlocks(rules, s0, p0, s, plan, LastTerminal(m));
    SameBlocks(rules.fixed, plan, Graph(g.order, g.blocks, map[]), g);
    AssembledExact(g.order, g.blocks);
    FinishedArrays(rules, s, LastTerminal(m), g);
    ExactAgrees(g);
  }

  lemma GeneratedGraphSound(rules: Rules, table: map<string, FieldDeclaration>, m: Ir.Method, temporaries: nat,
                            nextBlock: nat)
    requires GlobalTable(rules.globals, table) && ScopedMethod(table, m, rules.fixed)
      && rules.fixed <= ParameterNames(m) == rules.parameters
    ensures var g := GenerateMethod(table, m, temporaries, nextBlock);
      && WellFormed(g) && FallsThrough(g) && PredecessorsExact(g) && DeadCode.ArraysDeclared(rules.globals, g)
      && Entry(g) == nextBlock
      && WrittenBeforeRead(g, EntryNames(rules.globals, m))
      && (rules.fixed == ParameterNames(m) ==> DefinitelyAssigned(g))
  {
    hide WrittenBeforeRead, FallsThrough, DeadCode.ArraysDeclared, Closed, Certificate, ScopedMethod,
      PredecessorsExact, PredecessorsAgree, GenerateMethod, ParameterNames, EntryNames, DefinitelyAssigned;
    var g := GenerateMethod(table, m, temporaries, nextBlock);
    var plan := GraphCertified(rules, table, m, temporaries, nextBlock);
    CertificateWrites(rules.fixed, plan, g);
    if rules.fixed == ParameterNames(m) {
      EntryPromises(rules.globals, m);
      CertificateAssigns(rules.fixed, plan, g);
    }
  }

  /** Everything the later stages rely on, for every method the checker accepts. */
  lemma GeneratedMethodSound(rules: Rules, table: map<string, FieldDeclaration>, m: Ir.Method, temporaries: nat,
                             nextBlock: nat)
    requires GlobalTable(rules.globals, table) && ScopedMethod(table, m, rules.fixed)
      && rules.fixed <= ParameterNames(m) == rules.parameters
    ensures var g := GenerateMethod(table, m, temporaries, nextBlock);
      && WellFormed(g) && FallsThrough(g) && PredecessorsExact(g) && DeadCode.ArraysDeclared(rules.globals, g)
      && Numbered(g, nextBlock, GenerateBody(table, m, temporaries, nextBlock).nextBlock) && Entry(g) == nextBlock
      && WrittenBeforeRead(g, EntryNames(rules.globals, m))
      && (rules.fixed == ParameterNames(m) ==> DefinitelyAssigned(g))
  {
    hide WrittenBeforeRead, FallsThrough, DeadCode.ArraysDeclared, Closed, ScopedMethod, GenerateBody, GenerateMethod,
      ParameterNames, DefinitelyAssigned, PredecessorsExact, PredecessorsAgree, EntryNames, GlobalTable;
    GeneratedGraphSound(rules, table, m, temporaries, nextBlock);
    MethodBlocksNumbered(table, m, temporaries, nextBlock);
  }

  lemma AssembledExact(order: seq<BlockId>, blocks: map<BlockId, Block>)
    requires forall c :: c in order ==> c in blocks
    requires forall i, j :: 0 <= i < j < |order| ==> order[i] != order[j]
    ensures var g := Assembled(order, blocks);
      && g.predecessors.Keys == blocks.Keys
      && forall t, b :: t in blocks ==> multiset(g.predecessors[t])[b] == EdgeCount(order, blocks, b, t)
  {
    hide PredecessorLists, EdgeCount, Listed;
    forall t, b | t in blocks ensures multiset(Assembled(order, blocks).predecessors[t])[b]
      == EdgeCount(order, blocks, b, t) {
      PredecessorListsExact(order, blocks, t, b);
    }
  }

  lemma SameBlocks(fixed: set<string>, plan: Plan, g: Graph, g': Graph)
    requires g'.order == g.order && g'.blocks == g.blocks
    ensures Certificate(fixed, plan, g) ==> Certificate(fixed, plan, g')
    ensures Closed(g) ==> Closed(g')
    ensures FallsThrough(g) ==> FallsThrough(g')
  {
  }

  lemma ExactAgrees(g: Graph)
    requires Closed(g) && |g.order| > 0 && (forall b :: b in g.order <==> b in g.blocks)
    requires g.predecessors.Keys == g.blocks.Keys
    requires forall t, b :: t in g.blocks ==> multiset(g.predecessors[t])[b] == EdgeCount(g.order, g.blocks, b, t)
    ensures WellFormed(g) && PredecessorsExact(g)
  {
    forall t, b | t in g.blocks ensures b in g.predecessors[t] <==> IsEdge(g, b, t) {
      ListedIsCounted(g.predecessors[t], b);
      if b in g.blocks { ListedIsCounted(Successors(g.blocks[b].terminal), t); }
    }
  }

  lemma EntryPromises(globals: seq<FieldDeclaration>, m: Ir.Method)
    requires forall n :: n in DeadCode.GlobalNames(globals) ==> ValidIdentifier(n)
    ensures forall n :: n in EntryNames(globals, m) ==> LooksGlobal(n) || n in ParameterNames(m)
  {
  }
}
