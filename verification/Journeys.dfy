/** Pieces of runs through a finished method, from one point to the next, and how generated code
    sits inside the finished method. */
module Journeys {
  import opened Worlds
  import opened Llir
  import opened Lowering
  import opened LoweringStructure
  import Ir

  /** The structured context, the lowered one, and the finished method. */
  datatype Setting = Setting(src: Ir.Context, ctx: Context, g: Graph)

  /** Where a piece of a run gets to: a point in the method, the end of the run, or nowhere
      within `fuel` block transfers. A run that strays may end in any way. */
  datatype Arrival = Arrives(at: Position, state: State) | Ends(outcome: Outcome) | Spins(fuel: nat)

  ghost function RunAt(x: Setting, p: Position, st: State, fuel: nat): Outcome
    requires Closed(x.g) && Valid(x.g, p)
  {
    RunFrom(x.ctx, x.g, p.block, p.index, st, fuel)
  }

  ghost predicate LeadsIn(x: Setting, p: Position, st: State, a: Arrival, steps: nat)
    requires Closed(x.g) && Valid(x.g, p)
  {
    match a
    case Arrives(q, st') => Valid(x.g, q) && forall fuel: nat :: RunAt(x, p, st, fuel + steps) == RunAt(x, q, st', fuel)
    case Ends(o) => o.Strayed? || forall fuel: nat :: fuel >= steps ==> RunAt(x, p, st, fuel) == o
    case Spins(n) => RunAt(x, p, st, n) == Diverged
  }

  /** Running from `p` in `st` gets to `a`. */
  ghost predicate Leads(x: Setting, p: Position, st: State, a: Arrival) {
    && Closed(x.g) && Valid(x.g, p)
    && exists steps: nat :: LeadsIn(x, p, st, a, steps)
  }

  lemma Stay(x: Setting, p: Position, st: State)
    requires Closed(x.g) && Valid(x.g, p)
    ensures Leads(x, p, st, Arrives(p, st))
  {
    assert LeadsIn(x, p, st, Arrives(p, st), 0);
  }

  /** One piece after another. */
  lemma Then(x: Setting, p: Position, st: State, q: Position, st1: State, a: Arrival)
    requires Leads(x, p, st, Arrives(q, st1)) && Leads(x, q, st1, a)
    ensures Leads(x, p, st, a)
  {
    var k: nat :| LeadsIn(x, p, st, Arrives(q, st1), k);
    var m: nat :| LeadsIn(x, q, st1, a, m);
    match a
    case Arrives(r, st2) =>
      forall fuel: nat ensures RunAt(x, p, st, fuel + (k + m)) == RunAt(x, r, st2, fuel) {
        assert RunAt(x, p, st, (fuel + m) + k) == RunAt(x, q, st1, fuel + m);
        assert fuel + (k + m) == (fuel + m) + k;
      }
      assert LeadsIn(x, p, st, a, k + m);
    case Ends(o) =>
      forall fuel: nat | !o.Strayed? && fuel >= k + m ensures RunAt(x, p, st, fuel) == o {
        assert RunAt(x, p, st, (fuel - k) + k) == RunAt(x, q, st1, fuel - k);
      }
      assert LeadsIn(x, p, st, a, k + m);
    case Spins(n) =>
      assert RunAt(x, p, st, n + k) == RunAt(x, q, st1, n);
      assert RunAt(x, q, st1, n) == Diverged;
      if RunAt(x, p, st, n) != Diverged { FuelMonotone(x.ctx, x.g, p.block, p.index, st, n, n + k); }
      assert LeadsIn(x, p, st, a, 0);
  }

  // ----- a finished method contains what was generated -----

  /** `g` continues what generator state `s` has produced so far. */
  ghost predicate Completes(g: Graph, s: Generator) {
    && Closed(g)
    && (forall b :: b in s.finished ==> b in g.blocks && g.blocks[b] == s.finished[b])
    && s.current in g.blocks && s.code <= g.blocks[s.current].assignments && s.fields <= g.blocks[s.current].fields
  }

  lemma CompletesEarlier(g: Graph, s: Generator, s': Generator)
    requires Grows(s, s') && Completes(g, s')
    ensures Completes(g, s)
  {
    if s'.current == s.current {
      assert g.blocks[s.current].assignments[..|s.code|] == s'.code[..|s.code|];
      assert g.blocks[s.current].fields[..|s.fields|] == s'.fields[..|s.fields|];
    }
  }

  /** The point generation has reached. */
  function Here(s: Generator): Position {
    Position(s.current, |s.code|)
  }

  /** An appended assignment is the next one to run. */
  lemma AppendLeads(x: Setting, s: Generator, a: Assignment, st: State)
    requires Completes(x.g, Append(s, a))
    ensures Completes(x.g, s)
    ensures match Exec(x.ctx, a, st)
            case Next(st') => Leads(x, Here(s), st, Arrives(Here(Append(s, a)), st'))
            case Stop(o) => Leads(x, Here(s), st, Ends(o))
  {
    var s' := Append(s, a);
    var all := x.g.blocks[s.current].assignments;
    assert s.code <= all by { assert all[..|s.code|] == s'.code[..|s.code|]; }
    assert all[|s.code|] == s'.code[|s.code|] == a;
    match Exec(x.ctx, a, st)
    case Next(st') => assert LeadsIn(x, Here(s), st, Arrives(Here(s'), st'), 0);
    case Stop(o) => assert LeadsIn(x, Here(s), st, Ends(o), 0);
  }

  /** Nothing is asked of a run that strays. */
  lemma StrayLeads(x: Setting, s: Generator, st: State)
    requires Completes(x.g, s)
    ensures Leads(x, Here(s), st, Ends(Strayed))
  {
    assert LeadsIn(x, Here(s), st, Ends(Strayed), 0);
  }

  lemma FinishedBlock(x: Setting, s: Generator, t: Terminal, b: BlockId)
    requires Completes(x.g, Finish(s, t, b)) && s.current !in s.finished
    ensures Completes(x.g, s)
    ensures x.g.blocks[s.current].terminal == t && x.g.blocks[s.current].assignments == s.code
    ensures forall c :: c in Successors(t) ==> c in x.g.blocks
  {
    assert Finish(s, t, b).finished[s.current] == Block(s.fields, s.code, t);
    assert forall c :: c in s.finished ==> c in Finish(s, t, b).finished;
  }

  lemma JumpLeads(x: Setting, s: Generator, target: BlockId, b: BlockId, st: State)
    requires Completes(x.g, Finish(s, Jump(target), b)) && s.current !in s.finished
    ensures Completes(x.g, s)
    ensures Leads(x, Here(s), st, Arrives(Position(target, 0), st))
  {
    FinishedBlock(x, s, Jump(target), b);
    assert target in Successors(Jump(target));
    assert LeadsIn(x, Here(s), st, Arrives(Position(target, 0), st), 1);
  }

  lemma BranchLeads(x: Setting, s: Generator, t: Terminal, b: BlockId, st: State)
    requires t.Branch? && Completes(x.g, Finish(s, t, b)) && s.current !in s.finished
    ensures Completes(x.g, s)
    ensures Leads(x, Here(s), st, Arrives(Position(Chosen(x.ctx, t, st), 0), st))
    ensures Leads(x, Here(s), st, Spins(0))
  {
    FinishedBlock(x, s, t, b);
    assert Chosen(x.ctx, t, st) in Successors(t);
    assert LeadsIn(x, Here(s), st, Arrives(Position(Chosen(x.ctx, t, st), 0), st), 1);
    assert LeadsIn(x, Here(s), st, Spins(0), 0);
  }

  /** Taking a branch costs one transfer. */
  lemma BranchSpins(x: Setting, s: Generator, t: Terminal, b: BlockId, st: State, n: nat)
    requires t.Branch? && Completes(x.g, Finish(s, t, b)) && s.current !in s.finished
    requires Leads(x, Position(Chosen(x.ctx, t, st), 0), st, Spins(n))
    ensures Completes(x.g, s)
    ensures Leads(x, Here(s), st, Spins(n + 1))
  {
    FinishedBlock(x, s, t, b);
    assert LeadsIn(x, Here(s), st, Spins(n + 1), 0);
  }

  lemma ReturnLeads(x: Setting, s: Generator, o: Operand, b: BlockId, st: State)
    requires Completes(x.g, Finish(s, Return(o), b)) && s.current !in s.finished
    ensures Completes(x.g, s)
    ensures Leads(x, Here(s), st, Ends(Returned(Eval(x.ctx, st, o), st.world)))
  {
    FinishedBlock(x, s, Return(o), b);
    assert LeadsIn(x, Here(s), st, Ends(Returned(Eval(x.ctx, st, o), st.world)), 0);
  }

  lemma ExitLeads(x: Setting, s: Generator, code: int, b: BlockId, st: State)
    requires -0x8000_0000_0000_0000 <= code < 0x8000_0000_0000_0000
    requires Completes(x.g, Finish(s, Exit(code), b)) && s.current !in s.finished
    ensures Completes(x.g, s)
    ensures Leads(x, Here(s), st, Ends(Exited(code, st.world)))
  {
    FinishedBlock(x, s, Exit(code), b);
    assert LeadsIn(x, Here(s), st, Ends(Exited(code, st.world)), 0);
  }
}
