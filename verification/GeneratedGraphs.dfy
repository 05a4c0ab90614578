/** What the generator guarantees of its output: every block gets exactly one terminal, every target
    exists, a branch is followed by its true block, every name is written before it is read. */
module GeneratedGraphs {
  import opened Words
  import opened Worlds
  import opened Llir
  import opened Names
  import opened Lowering
  import opened LoweringStructure
  import opened Rewriting
  import opened DeadCode

  /** For every block created so far, names that are written on every way there. */
  type Plan = map<BlockId, set<string>>

  function Written(code: seq<Assignment>): set<string> {
    set i | 0 <= i < |code| :: code[i].destination
  }

  /** The names written on every way to where generation stands. */
  function Available(s: Generator, plan: Plan): set<string> {
    (if s.current in plan then plan[s.current] else {}) + Written(s.code)
  }

  predicate OperandsIn(os: seq<Operand>, names: set<string>) {
    forall k :: 0 <= k < |os| && os[k].Field? ==> os[k].name in names
  }

  /** Reads what is available, writes nothing fixed. */
  predicate AssignmentOk(fixed: set<string>, a: Assignment, available: set<string>) {
    OperandsIn(Operands(a), available) && a.destination !in fixed
  }

  predicate CodeOk(fixed: set<string>, code: seq<Assignment>, start: set<string>) {
    forall i :: 0 <= i < |code| ==> AssignmentOk(fixed, code[i], start + Written(code[..i]))
  }

  predicate NoStrings(os: seq<Operand>) {
    forall k :: 0 <= k < |os| ==> !os[k].Text?
  }

  predicate TerminalOk(plan: Plan, t: Terminal, available: set<string>) {
    && !t.Unknown? && NoStrings(TerminalOperands(t))
    && OperandsIn(TerminalOperands(t), available)
    && forall b :: b in Successors(t) ==> b in plan && plan[b] <= available
  }

  predicate BlockOk(fixed: set<string>, plan: Plan, block: Block, start: set<string>) {
    CodeOk(fixed, block.assignments, start) && TerminalOk(plan, block.terminal, start + Written(block.assignments))
  }

  ghost predicate Planned(fixed: set<string>, s: Generator, plan: Plan) {
    && s.current in plan
    && CodeOk(fixed, s.code, plan[s.current])
    && (forall b :: b in plan ==> b < s.nextBlock)
    && forall b :: b in s.finished ==> b in plan && BlockOk(fixed, plan, s.finished[b], plan[b])
  }

  /** Each finished block appears once, and right before its true block if it branches. */
  ghost predicate LaidOut(order: seq<BlockId>, finished: map<BlockId, Block>, current: BlockId) {
    && (forall i, j :: 0 <= i < j < |order| ==> order[i] != order[j])
    && forall i :: 0 <= i < |order| && order[i] in finished && finished[order[i]].terminal.Branch? ==>
         finished[order[i]].terminal.trueBlock == if i + 1 < |order| then order[i + 1] else current
  }

  /** An array of the program, or one that some block declares. */
  ghost predicate Declared(globals: seq<FieldDeclaration>, s: Generator, name: string) {
    || name in GlobalNames(globals)
    || name in ArrayNames(s.fields)
    || exists b :: b in s.finished && name in ArrayNames(s.finished[b].fields)
  }

  /** The program's globals, the method's parameters, and the names the method must not assign. */
  datatype Rules = Rules(globals: seq<FieldDeclaration>, parameters: set<string>, fixed: set<string>)

  /** A global, a parameter, or a name that some block declares. */
  ghost predicate Named(rules: Rules, s: Generator, name: string) {
    || name in GlobalNames(rules.globals)
    || name in rules.parameters
    || name in GlobalNames(s.fields)
    || exists b :: b in s.finished && name in GlobalNames(s.finished[b].fields)
  }

  /** Arrays that are read and names that are written have declarations; strings are only passed on. */
  ghost predicate NamesOk(rules: Rules, s: Generator, code: seq<Assignment>) {
    forall i :: 0 <= i < |code| ==> AssignmentNamed(rules, s, code[i])
  }

  ghost predicate AssignmentNamed(rules: Rules, s: Generator, a: Assignment) {
    && (a.ArrayAccess? ==> Declared(rules.globals, s, a.accessArray))
    && Named(rules, s, a.destination)
    && (!a.Call? ==> NoStrings(Operands(a)))
  }

  /** A block declares no global, and nothing without a value. */
  predicate FieldOk(f: FieldDeclaration) {
    !ValidIdentifier(f.identifier) && |f.values| > 0
  }

  predicate FieldsOk(fields: seq<FieldDeclaration>) {
    forall k :: 0 <= k < |fields| ==> FieldOk(fields[k])
  }

  ghost predicate NamesKnown(rules: Rules, s: Generator) {
    && NamesOk(rules, s, s.code) && FieldsOk(s.fields)
    && forall b :: b in s.finished ==> NamesOk(rules, s, s.finished[b].assignments) && FieldsOk(s.finished[b].fields)
  }

  /** Only declared names are planned to be written. */
  ghost predicate PlanNamed(rules: Rules, s: Generator, plan: Plan) {
    forall b, n :: b in plan && n in plan[b] ==> Named(rules, s, n)
  }

  ghost predicate Sound(rules: Rules, s: Generator, plan: Plan) {
    && Wf(s) && Planned(rules.fixed, s, plan) && LaidOut(s.order, s.finished, s.current)
    && NamesKnown(rules, s) && PlanNamed(rules, s, plan)
  }

  ghost predicate SamePlan(plan: Plan, plan': Plan) {
    forall b :: b in plan ==> b in plan' && plan'[b] == plan[b]
  }

  /** Every block planned since is finished, current, or in `waiting`. */
  ghost predicate Closing(plan: Plan, s': Generator, plan': Plan, waiting: set<BlockId>) {
    forall b :: b in plan' && b !in plan ==> b in s'.finished || b == s'.current || b in waiting
  }

  /** From `s` generation got soundly to `s'`, with what was available still available. */
  ghost predicate Extends(rules: Rules, s: Generator, plan: Plan, s': Generator, plan': Plan, waiting: set<BlockId>) {
    && Advances(s, s') && Sound(rules, s', plan')
    && SamePlan(plan, plan') && Available(s, plan) <= Available(s', plan')
    && Closing(plan, s', plan', waiting)
  }

  lemma ExtendsReflexive(rules: Rules, s: Generator, plan: Plan)
    requires Sound(rules, s, plan)
    ensures Extends(rules, s, plan, s, plan, {})
  {
    AdvancesReflexive(s);
  }

  lemma ExtendsTransitive(rules: Rules, s0: Generator, p0: Plan, s1: Generator, p1: Plan, s2: Generator, p2: Plan,
                          waiting: set<BlockId>)
    requires Extends(rules, s0, p0, s1, p1, waiting) && Extends(rules, s1, p1, s2, p2, {})
    ensures Extends(rules, s0, p0, s2, p2, waiting)
  {
    hide Sound, Wf, Untouched, Available;
    assert Grows(s1, s2);
    forall b | b in p2 && b !in p0 ensures b in s2.finished || b == s2.current || b in waiting {
      if b in p1 {
        assert b in s1.finished || b == s1.current || b in waiting;
      }
    }
    hide Grows;
    AdvancesTransitive(s0, s1, s2);
  }

  // ----- arrays stay declared -----

  lemma DeclaredLater(globals: seq<FieldDeclaration>, s: Generator, s': Generator, name: string)
    requires Grows(s, s') && Declared(globals, s, name)
    ensures Declared(globals, s', name)
  {
    if name in ArrayNames(s.fields) {
      var k :| 0 <= k < |s.fields| && s.fields[k].isArray && s.fields[k].identifier == name;
      var fields := if s'.current == s.current then s'.fields else s'.finished[s.current].fields;
      assert s.fields[k] == fields[k];
      assert name in ArrayNames(fields);
    } else if name !in GlobalNames(globals) {
      var b :| b in s.finished && name in ArrayNames(s.finished[b].fields);
      assert b in s'.finished;
    }
  }

  lemma NamedLater(rules: Rules, s: Generator, s': Generator, name: string)
    requires Grows(s, s') && Named(rules, s, name)
    ensures Named(rules, s', name)
  {
    if name in GlobalNames(s.fields) {
      var k :| 0 <= k < |s.fields| && s.fields[k].identifier == name;
      var fields := if s'.current == s.current then s'.fields else s'.finished[s.current].fields;
      assert s.fields[k] == fields[k];
      assert name in GlobalNames(fields);
    } else if name !in GlobalNames(rules.globals) && name !in rules.parameters {
      var b :| b in s.finished && name in GlobalNames(s.finished[b].fields);
      assert b in s'.finished;
    }
  }

  lemma NamesOkLater(rules: Rules, s: Generator, s': Generator, code: seq<Assignment>)
    requires Grows(s, s') && NamesOk(rules, s, code)
    ensures NamesOk(rules, s', code)
  {
    hide Grows, Declared, Named, NoStrings;
    forall i | 0 <= i < |code| ensures AssignmentNamed(rules, s', code[i]) {
      assert AssignmentNamed(rules, s, code[i]);
      NamedLater(rules, s, s', code[i].destination);
      if code[i].ArrayAccess? { DeclaredLater(rules.globals, s, s', code[i].accessArray); }
    }
  }

  /** A step that finishes no block. */
  lemma NamesKnownStep(rules: Rules, s: Generator, s': Generator)
    requires NamesKnown(rules, s) && Grows(s, s')
    requires forall b :: b in s'.finished ==> b in s.finished && s'.finished[b] == s.finished[b]
    requires NamesOk(rules, s', s'.code) && FieldsOk(s'.fields)
    ensures NamesKnown(rules, s')
  {
    hide Grows, NamesOk, FieldsOk;
    forall b | b in s'.finished ensures NamesOk(rules, s', s'.finished[b].assignments)
      && FieldsOk(s'.finished[b].fields) {
      NamesOkLater(rules, s, s', s.finished[b].assignments);
    }
  }

  lemma PlanNamedLater(rules: Rules, s: Generator, s': Generator, plan: Plan)
    requires PlanNamed(rules, s, plan) && Grows(s, s')
    ensures PlanNamed(rules, s', plan)
  {
    hide Grows, Named;
    forall b, n | b in plan && n in plan[b] ensures Named(rules, s', n) { NamedLater(rules, s, s', n); }
  }

  /** What is available is declared. */
  lemma AvailableNamed(rules: Rules, s: Generator, plan: Plan, n: string)
    requires PlanNamed(rules, s, plan) && NamesOk(rules, s, s.code) && n in Available(s, plan)
    ensures Named(rules, s, n)
  {
    hide Named, Declared, NoStrings;
    if n in Written(s.code) {
      var i :| 0 <= i < |s.code| && s.code[i].destination == n;
      assert AssignmentNamed(rules, s, s.code[i]);
    }
  }

  // ----- small steps -----

  lemma AppendSound(rules: Rules, s0: Generator, p0: Plan, s: Generator, plan: Plan, a: Assignment,
                    waiting: set<BlockId>)
    requires Extends(rules, s0, p0, s, plan, waiting)
    requires AssignmentOk(rules.fixed, a, Available(s, plan))
    requires AssignmentNamed(rules, s, a)
    ensures Extends(rules, s0, p0, Append(s, a), plan, waiting)
    ensures Available(Append(s, a), plan) == Available(s, plan) + {a.destination}
  {
    hide Grows, Wf, Untouched, AssignmentOk, TerminalOk, LaidOut, AssignmentNamed, FieldOk;
    var s' := Append(s, a);
    AppendAdvances(s0, s, a);
    AppendWritten(s.code, a);
    assert CodeOk(rules.fixed, s'.code, plan[s.current]) by {
      forall i | 0 <= i < |s'.code|
        ensures AssignmentOk(rules.fixed, s'.code[i], plan[s.current] + Written(s'.code[..i])) {
        assert s'.code[..i] == s.code[..i];
        if i == |s.code| { assert s.code[..i] == s.code; }
      }
    }
    assert NamesOk(rules, s', s'.code) by {
      AppendNamed(rules, s, a);
    }
    hide NamesOk, CodeOk;
    NamesKnownStep(rules, s, s');
    PlanNamedLater(rules, s, s', plan);
  }

  lemma AppendNamed(rules: Rules, s: Generator, a: Assignment)
    requires NamesOk(rules, s, s.code) && AssignmentNamed(rules, s, a) && Grows(s, Append(s, a))
    ensures NamesOk(rules, Append(s, a), Append(s, a).code)
  {
    hide AssignmentNamed, Grows;
    assert NamesOk(rules, s, s.code + [a]);
    NamesOkLater(rules, s, Append(s, a), s.code + [a]);
  }

  lemma AppendWritten(code: seq<Assignment>, a: Assignment)
    ensures Written(code + [a]) == Written(code) + {a.destination}
  {
    var code' := code + [a];
    forall n | n in Written(code) + {a.destination} ensures n in Written(code') {
      if n in Written(code) {
        var i :| 0 <= i < |code| && code[i].destination == n;
        assert code'[i].destination == n;
      } else {
        assert code'[|code|].destination == n;
      }
    }
  }

  /** Another field, another temporary, or another block id: the code stays as it is. */
  lemma QuietStepSound(rules: Rules, s0: Generator, p0: Plan, s: Generator, plan: Plan, s': Generator,
                       waiting: set<BlockId>)
    requires Extends(rules, s0, p0, s, plan, waiting) && Advances(s0, s') && Grows(s, s') && Wf(s')
    requires s' == s.(fields := s'.fields, temporaries := s'.temporaries, nextBlock := s'.nextBlock, symbols :=
      s'.symbols,
                      breaks := s'.breaks, continues := s'.continues)
    requires s.nextBlock <= s'.nextBlock && forall k :: |s.fields| <= k < |s'.fields| ==> FieldOk(s'.fields[k])
    ensures Extends(rules, s0, p0, s', plan, waiting) && Available(s', plan) == Available(s, plan)
  {
    assert FieldsOk(s'.fields) by { MoreFields(s, s'); }
    hide Grows, Wf, Untouched, CodeOk, TerminalOk, LaidOut, NamesOk, Advances, FieldsOk, PlanNamed;
    NamesOkLater(rules, s, s', s.code);
    NamesKnownStep(rules, s, s');
    PlanNamedLater(rules, s, s', plan);
  }

  lemma MoreFields(s: Generator, s': Generator)
    requires Grows(s, s') && s'.current == s.current && FieldsOk(s.fields)
    requires forall k :: |s.fields| <= k < |s'.fields| ==> FieldOk(s'.fields[k])
    ensures FieldsOk(s'.fields)
  {
    hide FieldOk;
    forall k | 0 <= k < |s'.fields| ensures FieldOk(s'.fields[k]) {
      if k < |s.fields| { assert s'.fields[k] == s.fields[k]; }
    }
  }

  /** A new block, planned to be reached with `names` written. */
  lemma NewBlockSound(rules: Rules, s0: Generator, p0: Plan, s: Generator, plan: Plan, names: set<string>,
                      waiting: set<BlockId>)
    requires Extends(rules, s0, p0, s, plan, waiting) && names <= Available(s, plan)
    ensures Extends(rules, s0, p0, NewBlock(s).0, plan[s.nextBlock := names], waiting + {s.nextBlock})
    ensures Available(NewBlock(s).0, plan[s.nextBlock := names]) == Available(s, plan)
    ensures Pending(NewBlock(s).0, s.nextBlock) && s.nextBlock >= s0.nextBlock && s.nextBlock !in plan
  {
    NewBlockAdvances(s0, s);
    hide Grows, Untouched, LaidOut, NamesKnown, PlanNamed, Written, CodeOk;
    NewBlockPlanned(rules.fixed, s, plan, names);
    NewBlockNames(rules, s, plan, names);
  }

  lemma NewBlockPlanned(fixed: set<string>, s: Generator, plan: Plan, names: set<string>)
    requires Planned(fixed, s, plan) && Wf(s)
    ensures Planned(fixed, NewBlock(s).0, plan[s.nextBlock := names])
  {
    hide CodeOk, Written;
    var s', plan' := NewBlock(s).0, plan[s.nextBlock := names];
    forall b | b in s'.finished ensures b in plan' && BlockOk(fixed, plan', s'.finished[b], plan'[b]) {
      assert BlockOk(fixed, plan, s.finished[b], plan[b]);
    }
  }

  lemma NewBlockNames(rules: Rules, s: Generator, plan: Plan, names: set<string>)
    requires NamesKnown(rules, s) && PlanNamed(rules, s, plan) && names <= Available(s, plan) && Grows(s, NewBlock(s).0)
    ensures NamesKnown(rules, NewBlock(s).0) && PlanNamed(rules, NewBlock(s).0, plan[s.nextBlock := names])
  {
    hide Grows, Named, NamesOk, FieldsOk, Available;
    NamesOkLater(rules, s, NewBlock(s).0, s.code);
    NamesKnownStep(rules, s, NewBlock(s).0);
    forall n | n in names ensures Named(rules, s, n) { AvailableNamed(rules, s, plan, n); }
    PlanNamedLater(rules, s, NewBlock(s).0, plan[s.nextBlock := names]);
  }

  lemma FinishSound(rules: Rules, s0: Generator, p0: Plan, s: Generator, plan: Plan, t: Terminal, b: BlockId,
                    waiting: set<BlockId>)
    requires Extends(rules, s0, p0, s, plan, waiting)
    requires Pending(s, b) && b >= s0.nextBlock && b in plan
    requires TerminalOk(plan, t, Available(s, plan)) && (t.Branch? ==> t.trueBlock == b)
    requires Available(s0, p0) <= plan[b]
    ensures Extends(rules, s0, p0, Finish(s, t, b), plan, waiting - {b}) && Available(Finish(s, t, b), plan) == plan[b]
  {
    hide Grows, Untouched, LaidOut, Planned, NamesKnown, PlanNamed, Wf, TerminalOk, Written, Closing;
    CurrentUnfinished(s);
    FinishAdvances(s0, s, t, b);
    FinishLaidOut(s, t, b);
    FinishPlanned(rules.fixed, s, plan, t, b);
    FinishNames(rules, s, t, b);
    PlanNamedLater(rules, s, Finish(s, t, b), plan);
    FinishClosing(p0, s, plan, t, b, waiting);
  }

  lemma CurrentUnfinished(s: Generator)
    requires Wf(s)
    ensures s.current !in s.finished
  {
  }

  lemma FinishClosing(p0: Plan, s: Generator, plan: Plan, t: Terminal, b: BlockId, waiting: set<BlockId>)
    requires Closing(p0, s, plan, waiting)
    ensures Closing(p0, Finish(s, t, b), plan, waiting - {b})
  {
  }

  lemma FinishPlanned(fixed: set<string>, s: Generator, plan: Plan, t: Terminal, b: BlockId)
    requires s.current !in s.finished && Planned(fixed, s, plan) && b in plan && TerminalOk(plan, t, Available(s, plan))
    ensures Planned(fixed, Finish(s, t, b), plan) && Available(Finish(s, t, b), plan) == plan[b]
  {
    var s' := Finish(s, t, b);
    assert Written([]) == {};
    hide CodeOk, TerminalOk, Written;
    assert CodeOk(fixed, [], plan[b]) by { NothingIsFine(fixed, plan[b]); }
    assert BlockOk(fixed, plan, s'.finished[s.current], plan[s.current]);
  }

  lemma FinishNames(rules: Rules, s: Generator, t: Terminal, b: BlockId)
    requires NamesKnown(rules, s) && s.current !in s.finished && Grows(s, Finish(s, t, b))
    ensures NamesKnown(rules, Finish(s, t, b))
  {
    hide Grows, NamesOk, FieldsOk;
    var s' := Finish(s, t, b);
    forall c | c in s'.finished ensures NamesOk(rules, s', s'.finished[c].assignments)
      && FieldsOk(s'.finished[c].fields) {
      NamesOkLater(rules, s, s', if c == s.current then s.code else s.finished[c].assignments);
    }
    NoNames(rules, s');
  }

  lemma FinishLaidOut(s: Generator, t: Terminal, b: BlockId)
    requires Wf(s) && LaidOut(s.order, s.finished, s.current) && (t.Branch? ==> t.trueBlock == b)
    ensures var s' := Finish(s, t, b); LaidOut(s'.order, s'.finished, s'.current)
  {
    var s' := Finish(s, t, b);
    forall i | 0 <= i < |s.order| ensures s'.order[i] == s.order[i] && s.order[i] != s.current
      && s.order[i] in s.finished {
      assert s.order[i] in s.order;
    }
    forall i | 0 <= i < |s'.order| && s'.finished[s'.order[i]].terminal.Branch?
      ensures s'.finished[s'.order[i]].terminal.trueBlock == if i + 1 < |s'.order| then s'.order[i + 1] else b
    {
      if i < |s.order| {
        assert s'.finished[s'.order[i]] == s.finished[s.order[i]];
        assert s.finished[s.order[i]].terminal.trueBlock == if i + 1 < |s.order| then s.order[i + 1] else s.current;
      }
    }
  }

  lemma NothingIsFine(fixed: set<string>, start: set<string>)
    ensures CodeOk(fixed, [], start)
  {
  }

  lemma NoNames(rules: Rules, s: Generator)
    ensures NamesOk(rules, s, []) && FieldsOk([])
  {
  }
}
