/** From a written program to the machine: what is read satisfies what the checker relies on, and all
    stages together. */
module FrontEnd {
  import opened Words
  import opened Worlds
  import opened Names
  import opened Literals
  import opened ExpressionSyntax
  import opened IrBuilding
  import opened ExpressionMeaning
  import opened WrittenLiterals
  import opened ProgramMeaning
  import opened AsRead
  import Ast
  import Checker
  import CheckerSoundness
  import Compilation
  import DeadCode
  import Ir
  import Linking
  import MachinePrograms
  import Optimizations
  import Programs
  import SafePrograms
  import TypeSoundness

  // ----- what is read is as the checker expects it -----

  lemma LiteralIsAsRead(negated: bool, t: Ast.Token)
    requires LiteralReadable(negated, t)
    ensures LiteralAsRead(LiteralMeaning(negated, t))
  {
  }

  lemma {:induction false} LiteralsAreAsRead(ls: seq<LiteralSyntaxOf>)
    requires LiteralsReadable(ls)
    ensures |LiteralMeanings(ls)| == |ls| && forall l :: l in LiteralMeanings(ls) ==> LiteralAsRead(l)
  {
    hide LiteralReadable, LiteralAsRead, LiteralMeaning;
    if ls != [] {
      LiteralIsAsRead(ls[0].negated, ls[0].token);
      LiteralsAreAsRead(ls[1..]);
    }
  }

  lemma DeclaratorIsAsRead(constant: bool, base: Ir.Type, d: DeclaratorSyntax)
    requires DeclaratorReadable(d) && base != Ir.Void
    ensures FieldAsRead(DeclaratorMeaning(constant, base, d))
  {
    hide ValidIdentifier, LiteralAsRead, LiteralReadable, LiteralMeaning, LiteralMeanings;
    LengthInRange(d.brackets);
    if d.initializer.Some? {
      match d.initializer.value
      case Single(l) => LiteralIsAsRead(l.negated, l.token);
      case Braced(ls) => LiteralsAreAsRead(ls);
    }
  }

  lemma LengthInRange(b: BracketSyntax)
    ensures LengthMeaning(b) < TWO_63 || LengthMeaning(b) == SENTINEL
  {
  }

  lemma {:induction false} DeclaratorsAreAsRead(constant: bool, base: Ir.Type, ds: seq<DeclaratorSyntax>)
    requires (forall i :: 0 <= i < |ds| ==> DeclaratorReadable(ds[i])) && base != Ir.Void
    ensures FieldsAsRead(DeclaratorMeanings(constant, base, ds))
  {
    hide DeclaratorReadable, FieldAsRead, DeclaratorMeaning;
    if ds != [] {
      DeclaratorIsAsRead(constant, base, ds[0]);
      DeclaratorsAreAsRead(constant, base, ds[1..]);
    }
  }

  lemma {:induction false} FieldsAreAsRead(fs: seq<FieldSyntax>)
    requires FieldsReadable(fs)
    ensures FieldsAsRead(FieldMeanings(fs))
  {
    hide DeclaratorReadable, FieldAsRead, DeclaratorMeanings;
    if fs != [] {
      assert FieldReadable(fs[0]);
      DeclaratorsAreAsRead(fs[0].constant, fs[0].base, fs[0].declarators);
      FieldsAreAsRead(fs[1..]);
    }
  }

  lemma {:induction false} ExpressionIsAsRead(e: Syntax)
    requires Readable(e)
    ensures ExpressionAsRead(Meaning(e))
    decreases e
  {
    hide LiteralReadable, LiteralAsRead, LiteralMeaning;
    match e
    case BinarySyntax(_, l, r) =>
      ExpressionIsAsRead(l);
      ExpressionIsAsRead(r);
    case NotSyntax(o) => ExpressionIsAsRead(o);
    case NegateSyntax(o) => ExpressionIsAsRead(o);
    case LenSyntax(_) =>
    case LiteralSyntax(negated, t) => LiteralIsAsRead(negated, t);
    case CallSyntax(_, arguments) => ArgumentsAreAsRead(arguments);
    case LocationSyntax(_, index) =>
      if index.Some? { ExpressionIsAsRead(index.value); }
    case ParenthesisSyntax(inner) => ExpressionIsAsRead(inner);
  }

  lemma {:induction false} ArgumentsAreAsRead(arguments: seq<ArgumentSyntax>)
    requires ReadableAll(arguments)
    ensures ArgumentsAsRead(ArgumentMeanings(arguments))
    decreases arguments
  {
    hide ArgumentAsRead, ArgumentMeaning, ReadableArgument;
    if arguments != [] {
      ArgumentIsAsRead(arguments[0]);
      ArgumentsAreAsRead(arguments[1..]);
      assert ([ArgumentMeaning(arguments[0])] + ArgumentMeanings(arguments[1..]))[1..]
        == ArgumentMeanings(arguments[1..]);
    }
  }

  lemma {:induction false} ArgumentIsAsRead(a: ArgumentSyntax)
    requires ReadableArgument(a)
    ensures ArgumentAsRead(ArgumentMeaning(a))
    decreases a
  {
    hide Readable, Meaning, ExpressionAsRead;
    if a.ValueSyntax? { ExpressionIsAsRead(a.value); }
  }

  lemma AssignmentIsAsRead(a: AssignmentSyntax)
    requires AssignmentReadable(a)
    ensures AssignmentAsRead(AssignmentMeaning(a))
  {
    hide Readable, Meaning, ExpressionAsRead;
    if a.index.Some? { ExpressionIsAsRead(a.index.value); }
    if a.value.Some? { ExpressionIsAsRead(a.value.value); }
  }

  lemma InitialIsAsRead(id: string, e: Syntax)
    requires Readable(e)
    ensures AssignmentAsRead(Ir.Assignment(Ir.Location(id, None), Ir.Set, Some(Meaning(e))))
  {
    ExpressionIsAsRead(e);
  }

  lemma UpdateIsAsRead(u: UpdateSyntax)
    requires UpdateReadable(u)
    ensures UpdateAsRead(UpdateMeaning(u))
  {
    hide AssignmentReadable, AssignmentMeaning, AssignmentAsRead, ReadableAll, ArgumentMeanings, ArgumentsAsRead;
    match u
    case AssignUpdate(a) => AssignmentIsAsRead(a);
    case CallUpdate(_, arguments) => ArgumentsAreAsRead(arguments);
  }

  lemma {:induction false} StatementIsAsRead(s: StatementSyntax)
    requires StatementReadable(s)
    ensures StatementAsRead(StatementMeaning(s))
    decreases s
  {
    hide Readable, Meaning, ExpressionAsRead, AssignmentReadable, AssignmentMeaning, AssignmentAsRead, ReadableAll,
      ArgumentMeanings, ArgumentsAsRead, BlockReadable, BlockMeaning, BlockAsRead, UpdateReadable, UpdateMeaning,
      UpdateAsRead;
    match s
    case AssignWritten(a) => AssignmentIsAsRead(a);
    case CallWritten(_, arguments) => ArgumentsAreAsRead(arguments);
    case IfWritten(c, b, other) =>
      ExpressionIsAsRead(c);
      BlockIsAsRead(b);
      if other.Some? { BlockIsAsRead(other.value); }
    case ForWritten(id, i, c, u, b) =>
      InitialIsAsRead(id, i);
      ExpressionIsAsRead(c);
      BlockIsAsRead(b);
      UpdateIsAsRead(u);
    case WhileWritten(c, b) =>
      ExpressionIsAsRead(c);
      BlockIsAsRead(b);
    case ReturnWritten(v) =>
      if v.Some? { ExpressionIsAsRead(v.value); }
    case BreakWritten =>
    case ContinueWritten =>
  }

  lemma {:induction false} BlockIsAsRead(b: BlockSyntax)
    requires BlockReadable(b)
    ensures BlockAsRead(BlockMeaning(b))
    decreases b
  {
    hide FieldsReadable, FieldsAsRead, FieldMeanings, StatementsReadable, StatementsAsRead, StatementMeanings;
    FieldsAreAsRead(b.fields);
    StatementsAreAsRead(b.statements);
  }

  lemma {:induction false} StatementsAreAsRead(ss: seq<StatementSyntax>)
    requires StatementsReadable(ss)
    ensures StatementsAsRead(StatementMeanings(ss))
    decreases ss
  {
    hide StatementReadable, StatementAsRead, StatementMeaning;
    if ss != [] {
      StatementIsAsRead(ss[0]);
      StatementsAreAsRead(ss[1..]);
      assert ([StatementMeaning(ss[0])] + StatementMeanings(ss[1..]))[1..] == StatementMeanings(ss[1..]);
    }
  }

  lemma {:induction false} ParametersAreAsRead(ps: seq<ParameterSyntax>)
    requires forall i :: 0 <= i < |ps| ==> ps[i].base != Ir.Void && ValidIdentifier(ps[i].identifier)
    ensures forall f :: f in ParameterMeanings(ps) ==> ParameterAsRead(f)
  {
    hide ValidIdentifier;
    if ps != [] { ParametersAreAsRead(ps[1..]); }
  }

  lemma {:induction false} MethodsAreAsRead(ms: seq<MethodSyntax>)
    requires forall i :: 0 <= i < |ms| ==> MethodReadable(ms[i])
    ensures forall m :: m in MethodMeanings(ms) ==> MethodAsRead(m)
  {
    hide BlockReadable, BlockMeaning, BlockAsRead, ParameterAsRead, ValidIdentifier;
    if ms != [] {
      assert MethodReadable(ms[0]);
      BlockIsAsRead(ms[0].body);
      ParametersAreAsRead(ms[0].parameters);
      assert MethodAsRead(MethodMeaning(ms[0]));
      hide MethodAsRead, MethodReadable;
      MethodsAreAsRead(ms[1..]);
    }
  }

  lemma ProgramIsAsRead(w: ProgramSyntax)
    requires ProgramReadable(w)
    ensures ProgramAsRead(ProgramMeaning.ProgramMeaning(w))
  {
    hide FieldsReadable, FieldsAsRead, FieldMeanings, MethodReadable, MethodAsRead, MethodMeanings;
    FieldsAreAsRead(w.fields);
    MethodsAreAsRead(w.methods);
  }

  // ----- all stages -----

  /** What the checker makes of a written program. */
  function Checked(w: ProgramSyntax): Ir.Program {
    Checker.CheckProgram(ProgramMeaning.ProgramMeaning(w), Checker.AsWritten).value
  }

  const Plain := Checker.Policy(true, false)

  /** The checker accepts it, and it has no negated boolean literal and hands no whole array to an import. */
  predicate Plainly(w: ProgramSyntax) {
    Checker.CheckProgram(ProgramMeaning.ProgramMeaning(w), Checker.AsWritten).ok
      && Checker.CheckProgram(ProgramMeaning.ProgramMeaning(w), Plain).ok
  }

  function BooleanGlobals(w: ProgramSyntax): map<string, Ir.Field> {
    SafePrograms.Globals(ProgramMeaning.ProgramMeaning(w), Plain)
  }

  /** Every name has room in its frame, the passes make only safe replacements, this is their result, and its
      symbols are distinct. */
  ghost predicate Optimized(w: ProgramSyntax, flags: Optimizations.Flags, optimized: Programs.Program) {
    var generated := Compilation.GenerateProgram(Checked(w));
    && MachinePrograms.FitsFrames(generated) && Optimizations.OptimizableProgram(flags, generated)
    && Optimizations.OptimizedProgram(flags, generated, optimized)
    && Linking.SymbolsDistinct(Checked(w), optimized)
  }

  function Emitted(w: ProgramSyntax, optimized: Programs.Program, peephole: bool): MachinePrograms.MachineProgram {
    MachinePrograms.EmitProgram(MachinePrograms.MethodNames(Checked(w).methods), optimized, peephole)
  }

  /** Running `main` in the machine is what running it as written is, and that never goes wrong. */
  ghost predicate RunsAsWritten(p: Ir.Program, code: MachinePrograms.MachineProgram, env: Programs.Environment,
                                machine: MachinePrograms.MachineEnvironment, depth: nat, world: World) {
    var o := Compilation.SourceCall(p, env, true, depth, "main", [], world);
    o.Some? && DeadCode.SameUnlessTrapped(o.value, MachinePrograms.MachineCall(code, machine, depth, "main", [], world))
  }

  /** What a parser would build for a written program is read back as what was written, and if the checker
      accepts that, no assertion of the generator trips. */
  lemma WrittenProgramsAreRead(w: ProgramSyntax, rest: Stream)
    requires ProgramReadable(w)
    ensures ReadProgram(Ast.Linear(ProgramTree(w)) + rest)
         == Some((ProgramMeaning.ProgramMeaning(w), [Ast.Entry(Ast.ProgramEnd, Ast.NoToken)] + rest))
    ensures Checker.CheckProgram(ProgramMeaning.ProgramMeaning(w), Checker.AsWritten).ok
      ==> Compilation.Accepted(Checked(w), Compilation.Free)
  {
    hide Ast.Linear, ReadProgram, ProgramReadable, ProgramAsRead, Checker.CheckProgram, Compilation.Accepted;
    var p := ProgramMeaning.ProgramMeaning(w);
    ProgramRead(w, rest);
    ProgramIsAsRead(w);
    if Checker.CheckProgram(p, Checker.AsWritten).ok { CheckerSoundness.CheckerGuarantees(p); }
  }

  /** Running the emitted `main` of an accepted program, with or without the peephole, in memory where
      booleans are boolean and with a library whose `exit` ends the process, does what the program as written
      says unless it divides by zero or reads outside an array; the program itself never goes wrong. */
  lemma WrittenProgramsCompile(w: ProgramSyntax, flags: Optimizations.Flags, optimized: Programs.Program,
                               peephole: bool, env: Programs.Environment, machine: MachinePrograms.MachineEnvironment,
                               depth: nat, world: World)
    requires ProgramReadable(w) && Plainly(w) && Optimized(w, flags, optimized)
    requires SafePrograms.ImportsKeep(BooleanGlobals(w), env.imports) && env.imports == machine.imports
    requires MachinePrograms.HasExits(optimized) ==> MachinePrograms.ExitEnds(machine.imports)
    requires world.globals == map[] || TypeSoundness.WorldFits(BooleanGlobals(w), world)
    ensures RunsAsWritten(Checked(w), Emitted(w, optimized, peephole), env, machine, depth, world)
  {
    hide ProgramReadable, ProgramAsRead, Checker.CheckProgram, MachinePrograms.FitsFrames,
      Optimizations.OptimizableProgram, Optimizations.OptimizedProgram, Compilation.SourceCall,
      MachinePrograms.MachineCall, Compilation.Accepted, MachinePrograms.EmitProgram, SafePrograms.Globals,
      TypeSoundness.WorldFits, MachinePrograms.HasExits, MachinePrograms.ExitEnds, MachinePrograms.Linkable,
      MachinePrograms.Labels, Linking.SymbolsDistinct;
    var p := ProgramMeaning.ProgramMeaning(w);
    ProgramIsAsRead(w);
    CheckerSoundness.CheckerGuarantees(p);
    CheckerSoundness.CheckerDecides(p, Plain);
    SafePrograms.AcceptedProgramsAreSafe(p, Plain, env, true, depth, world);
    GlobalsKept(w, flags, optimized);
    Linking.CheckedIsLinkable(p, optimized);
    MachinePrograms.CompilerPreservesPrograms(Checked(w), flags, optimized, peephole, env, machine, depth, "main", [],
      world);
  }

  lemma GlobalsKept(w: ProgramSyntax, flags: Optimizations.Flags, optimized: Programs.Program)
    requires Optimized(w, flags, optimized)
    ensures optimized.globals == Compilation.GlobalDeclarations(Checked(w).fields)
  {
  }
}
