# A verified model of the roast compiler

roast compiles Decaf, a small C-like language, to x86-64. This project models the compiler stage by
stage and proves that each stage, and all of them together, preserve what a program does.

The stages, from the file as written to the machine:

| stage | modules | source |
|---|---|---|
| words, worlds, names | `Words`, `Worlds`, `Names`, `Literals`, `WrittenLiterals` | `src/semantics/ir.c`, `src/assembly/llir.c` |
| expressions to trees | `ExpressionParser`, `ExpressionSyntax`, `ParserSoundness`, `Parsers` | `src/parser/parser.c` |
| trees to nodes and back | `Ast`, `IrBuilding`, `ExpressionMeaning`, `ProgramMeaning`, `IrBuilders` | `src/parser/ast.c`, `src/semantics/ir.c` |
| the language | `Ir`, `IrFuel` | `src/semantics/ir.h` |
| the checker | `Checker`, `AsRead`, `Legality`, `CheckerExactness`, `CheckerSoundness`, `TypeSoundness`, `SafePrograms`, `ConstantsKept`, `Linking`, `SemanticAnalysis` | `src/semantics/semantics.c`, `src/semantics/symbol_table.c` |
| blocks | `Llir`, `LlirMethods`, `Programs` | `src/assembly/llir.c` |
| lowering | `Lowering`, `LoweringStructure`, `Matching`, `Journeys`, `ExpressionLowering`, `StatementLowering`, `ScopeLowering`, `BlockLowering`, `MethodLowering`, `Compilation`, `LlirGenerators` | `src/assembly/llir_generator.c`, `src/assembly/symbol_table.c` |
| what lowering guarantees | `GeneratedGraphs`, `SoundGeneration`, `SoundStatements`, `GeneratedMethods`, `BlockNumbers`, `BlockLabels`, `Temporaries`, `GraphNames` | `src/assembly/llir_generator.c` |
| the optimizer | `ReachingDefinitions`, `Rewriting`, `OperandPasses`, `SafeReplacements`, `ConstantFolding`, `CopyPropagation`, `PassEffects`, `DeadCode`, `DeadCodeEffects`, `Optimizations`, `ParameterHazard`, `FoldingHazard` | `src/optimizations/` |
| the machine | `Machine`, `CodeGeneration`, `FrameLayout`, `FrameHazard`, `Selection`, `LinearCode`, `Peephole`, `MachineMethods`, `MachinePrograms`, `Avoidance`, `Reentry`, `ExitHazard`, `CodeGenerators` | `src/assembly/code_generator.c` |
| everything together | `FrontEnd` | `src/main.c` |

How programs run. All three languages (structured programs, blocks, instructions) have an executable
meaning over wrapped 64-bit words. A run ends in an `Outcome`: it returns a value, exits with a code,
traps in a divide instruction, strays (reads an array outside its bounds, which nothing checks) or
diverges. A `World` holds the globals and the trace of calls made to imported functions, which may do
anything to the globals. `None` means that a structured program goes wrong: it uses an undeclared name,
breaks outside a loop, or the like. "The same run" below always means the same outcome, with the same
trace and the same globals and global arrays. `SameUnlessTrapped(o, o')` is `o == o'` unless `o` is a
trap or a stray read. Calls nest to a `depth` that every theorem leaves free; deeper calls diverge.

How code that works in place is modelled. The passes, the generators, the parser, the tree readers and
the checker are classes and methods with loops, each proved equal to a specification function; the
theorems are about those functions.

## Where the code departs from the language

Six things the compiler does are not what the language says. Each has an input that shows it, and a
condition under which it does not happen.

- Folding and propagation count only assignments as definitions, not the value a parameter comes in
  with. `int f(int p, bool c) { if (c) { p = 5; } return p; }` called with 0 and false returns 5 after
  folding (`PassesChangeAssignedParameters`). The passes are right where each replacement they make is of
  a name that is written on every path to it (`SafeFrom`); a program that assigns no parameter always
  satisfies that (`FixedIsOptimizable`). A program compiled without those two passes is not restricted.
- Folding computes a division of known operands in the compiler, also one that traps: given
  `int x; void main() { x = 1 / 0; }`, which the checker accepts, the compiler itself divides by zero and there is
  no output (`FoldingDividesByZero`). It does so if and only if the pass comes to a division or remainder whose two
  operands are literals or have only moves of one literal as definitions, with a zero divisor or -2^63 over -1
  (`PointStopsExactly` at one place, `FoldingStopsExactly` for the whole pass); so never in a method that neither
  divides nor takes a remainder (`WithoutDivisionsFolds`).
- A failed bounds check, and falling off a method with a value, end the process by a plain `call exit`. A
  method may be called `exit` too, and then that method is called, returns, and control goes on:
  `int a[1]; void exit(int c) { } void main() { a[5] = 5; }` should exit with -1 but writes `a[5]` and returns
  (`OwnExitIsCalled`; `AcceptedButUnlinkable` shows that the checker and everything else accept it). One exit is
  right if and only if the call ends the process (`ExitIsRight`). At every depth of nested calls, the call does so
  with every library whose `exit` ends the process if and only if `exit` is neither a method nor another label of
  the file (`ExitLinked`); a method called `exit` may still call some other function that never returns. So the
  theorems about emitted code ask `Linkable`: no method and no global is called `exit` if the code may have to
  exit, and the program calls no function spelled like a label of the file (`block_N`, `string_N`, a global);
  the second half holds of every accepted program whose imports and methods are not spelled so
  (`CheckedIsLinkable`).
- Variables of sibling scopes share a spelling and so a stack slot, the last declaration's. In
  `void g(bool c) { if (c) { int x[2]; int y; } else { int x[1]; } }` the array's second word is `y`
  (`VariablesOverlap`). Slots are apart if and only if `SlotsFit` holds of the declarations
  (`LayoutIsSound`).
- The code of `main` stores the initial values other than 0 into the globals, also when `main` is called
  from inside the program. `int g = 1; void main() { if (g == 1) { g = 2; main(); } }` ends in the language and calls
  itself for ever when compiled (`ReentryDiffers`). The machine theorem says so: it takes the meaning in
  which every entry to `main` stores these values; that is the language's own meaning if no method calls
  `main` or every global starts at 0 (`ReentryIsHarmless`).
- An integer literal with many leading zeros is refused although its value is small
  (`LeadingZerosRejected`); a literal is accepted if and only if its value is in range and it has at most
  20 decimal or 16 hexadecimal digits (`LiteralDenotes`).

## Model

| member | source | states |
|---|---|---|
| MachinePrograms.CompilerPreservesPrograms | src/main.c:246-271 | For every accepted program (no restriction on parameters), every set of passes whose replacements are safe and that does not itself divide by zero, with and without the peephole, any imported library, any contents of stack memory, any call of any method with any arguments from any world: the emitted instructions make the same calls, leave the same globals and end as the structured program does, unless that goes wrong, traps or reads outside an array. `main` stores the initial values other than 0 at each entry. Needs `FitsFrames`: slots fit (exactly when they do not overlap) and no object of 2^63 bytes; `Linkable`: no method or global called `exit` if the code has an exit, no call of a function spelled like a label; and, if the code has an exit, a library whose `exit` ends the process |
| MachinePrograms.ExitLinked | src/assembly/code_generator.c:476-486 | At any one depth, with any one code and in any one world: `call exit` in the emitted program ends the process with the code passed, whatever library the program is linked to (as long as its `exit` ends the process), if and only if no method, global, block or string of the program is labelled `exit` |
| MachinePrograms.NoExitCall | src/assembly/code_generator.c:153-161 | If the program has a method or other label called `exit`, and no imported function of another name ends the process, then no call of any method at any depth ends the process: a failed check goes unnoticed |
| ExitHazard.OwnExitIsCalled | src/assembly/code_generator.c:476-486 | The program `int a[1]; void exit(int c) { } void main() { a[5] = 5; }` exits with -1; its emitted code, at every depth from 2 on, with any library and from any world, returns after storing 5 beyond the end of `a` |
| ExitHazard.AcceptedButUnlinkable | src/semantics/semantics.c:34-48 | The checker accepts that program, and it satisfies every demand of the compiler theorem except `Linkable` |
| Linking.CheckedIsLinkable | src/semantics/semantics.c:71-91 | An accepted program calls only its imports and methods and shadows none of them where it calls it: if none of them is spelled like another label of the file, and no method or global is called `exit` where the code may exit, then the program is linkable |
| FrontEnd.WrittenProgramsAreRead | src/semantics/semantics.c:657-696 | From the tree a parser would build for any written program, whatever follows it in the stream: the readers rebuild what was written and leave the end marker and the rest; and if the checker accepts that, everything the generator asserts holds |
| FrontEnd.WrittenProgramsCompile | src/main.c:246-271 | For a written program that the checker accepts, that hands no bare array to an import and negates no boolean literal, whose symbols are distinct, optimized by safe passes and laid out in frames that fit: running the emitted `main` in memory whose booleans are booleans, with a library whose `exit` ends the process, never goes wrong and does what the program says, traps and stray reads aside |
| Compilation.LoweringPreservesPrograms | src/assembly/llir_generator.c:747-770 | For every accepted program, whatever it does with its parameters and whether or not it calls `main`: a call of the generated blocks has exactly the outcome, trace and globals of the structured program (exit -1 on a write outside an array and -2 on falling off a method with a value included), unless the program goes wrong or strays; and all generated methods are well formed |
| Compilation.CompilationPreservesPrograms | src/main.c:246-271 | The same for the generated and then optimized blocks, for every set of passes that is `OptimizableProgram`, divide traps aside |
| Compilation.FixedIsOptimizable | src/optimizations/optimizations.c:6-14 | An accepted program may be optimized with any passes if it assigns no parameter, and without folding and propagation in any case |
| MethodLowering.MethodRuns | src/assembly/llir_generator.c:680-717 | One method over every number of loop rounds: some fuel gives the generated blocks the method's outcome, and if the method diverges so do the blocks, from frames holding anything besides the arguments |
| BlockLowering.StatementRuns | src/assembly/llir_generator.c:433-678 | Any statement, inside or outside a loop: the generated blocks, from the block current at its start, arrive where the statement's result says (after it, at the loop's break or continue target, or at the method's end) in a state that matches the structured one |
| ExpressionLowering.ExpressionRuns | src/assembly/llir_generator.c:160-369 | Any expression: the generated code, short circuits and calls included, leaves its value in the operand, makes its calls in order, and disturbs no variable and no earlier temporary |
| StatementLowering.BoundsCheckRuns | src/assembly/llir_generator.c:139-158 | One unsigned comparison sends negative and too large indices alike to the exit with -1, and every other index on |
| Ir.AssignmentStores | src/assembly/llir_generator.c:371-431 | What an assignment of the language means, operator by operator: with u in the element and v on the right it stores v, the wrapped u + v, u - v or u * v, the quotient or remainder of u by v rounded toward zero, u + 1 or u - 1; it traps exactly where u has no 64-bit quotient by v |
| Lowering.CompoundCode | src/assembly/llir_generator.c:407-431 | The blocks of a compound assignment end in reading the old value, exactly one operation (add for `+=` and `++`, subtract for `-=` and `--`, multiply, divide, modulo) on that and the right-hand side, and the store of its result |
| Lowering.BinaryCode | src/assembly/llir_generator.c:304-339 | A binary expression ends in the one operation listed for its operator, on the operands of its two sides in order |
| GeneratedMethods.GeneratedMethodSound | src/assembly/llir_generator.c:680-717 | Every accepted method becomes a graph that starts with the first block created and holds every block created for the method, from that number up to the counter's last value, and no other; each occurs once, each target is a block of the method, a branch's true block comes next, predecessor lists are exactly the multiset of edges, and every name read (locals, `$` and `#` temporaries alike) is a global, a parameter or written on every path from entry; with parameters never assigned, each name is never assigned or assigned before it is read |
| BlockNumbers.MethodBlocksNumbered | src/assembly/llir_generator.c:72-83 | For any method, accepted or not: a block is in the method's graph if and only if its number was taken from the counter while the method was generated, so no created block is lost and none is shared with another method |
| BlockLabels.BlocksDisjoint | src/assembly/llir_generator.c:747-770 | No block number occurs in two methods of a program, neither as generated nor after any passes |
| BlockLabels.LabelsAreUnique | src/assembly/code_generator.c:488-494 | In the whole emitted text a label `block_N` stands at one place of one method, the one whose block it is, so a jump may be resolved within its method |
| Temporaries.TemporariesWritten | src/assembly/llir_generator.c:48-70 | Over all blocks of an accepted method, each temporary number taken is a `$` name written by exactly one assignment or a `#` name written by exactly two, and no other temporary is written |
| LlirGenerators.LlirGenerator.GenerateLlir | src/assembly/llir_generator.c:747-770 | The generator with its current block, counters, loop stacks and symbol table computes the specified blocks of every accepted program; each lookup and each loop target it takes for granted is there |
| LlirGenerators.LlirGenerator.SetTerminal | src/assembly/llir.c:224-238 | Ending a block adds it to each target's predecessors, once per edge |
| LlirGenerators.SymbolTable.Get | src/assembly/symbol_table.c:25-39 | The innermost scope that knows the identifier decides |
| ReachingDefinitions.DefinitionSearch.FindDefinitions | src/optimizations/cp.c:3-47 | The backward search with one shared visited set ends on any graph, cyclic ones included, and returns exactly the assignments that reach the use along some path without another, and exactly the names written on such paths |
| OperandPasses.PassPreservesRuns | src/optimizations/cf.c:65-197 | Folding and propagation, over one forward pass whose later searches see what earlier steps rewrote: if every replacement made is of a name written on every path from entry (`SafeFrom`), the finished pass leaves every run from every state unchanged, for any callees. Assumes a well-formed graph and globals spelled as globals |
| PassEffects.FoldingReplaces | src/optimizations/cf.c:65-84 | Folding replaces a name at a use by the literal c if and only if the name is not spelled as a global, some definition reaches the use and every definition that does moves c |
| PassEffects.CopyingReplaces | src/optimizations/cp.c:49-98 | Propagation replaces the name x at a use by another name y if and only if neither is spelled as a global, some definition reaches the use, every definition that does copies y, and y is not written at a place from which a path without a definition of x leads to the use |
| PassEffects.NothingElseReplaced | src/optimizations/cp.c:79-98 | Literals, strings and names spelled as globals are left alone; folding puts only literals in place of a name, propagation only names |
| PassEffects.UnchangedExactly | src/optimizations/cf.c:144-278 | A finished pass leaves a method as it was if and only if there was nothing to do at any of its places: no operand of any assignment or terminal has a replacement and (for folding) nothing is left to compute, so no place is skipped |
| OperandPasses.FoldedExactly | src/optimizations/cf.c:112-163 | On literals folding gives exactly the value that arithmetic gives for the operator: wrapped sums, differences and products, quotient and remainder rounded toward zero (l = q * r + m, m smaller than r in magnitude and with the sign of l), comparisons as 0 or 1; none where there is no such value; all else is left alone |
| Words.TrapsExactly | src/optimizations/cf.c:122-125 | A division traps if and only if no 64-bit word is the quotient rounded toward zero |
| SafeReplacements.SafeExactly | src/optimizations/cf.c:65-84 | The guard is exact for one replacement: the name is written on every path from entry to the use if and only if no path from entry, with free choice at every branch and from any state, leaves the operand and what replaces it with different values |
| OperandPasses.AssignedIsSafe | src/optimizations/cp.c:79-98 | Where each local is never assigned or assigned before it is read, every replacement is safe, and the rewritten method is again such a method |
| FoldingHazard.PointStopsExactly | src/optimizations/cf.c:112-163 | At one place of any method, folding divides by zero in the compiler (or -2^63 by -1) if and only if a division or remainder stands there both of whose operands are literals or locals that only moves of one literal define, and these values trap |
| FoldingHazard.FoldingStopsExactly | src/optimizations/cf.c:274-278 | The pass over a method fails if and only if it comes to such a place |
| FoldingHazard.FoldingDividesByZero | src/optimizations/cf.c:122-125 | The checker accepts `int x; void main() { x = 1 / 0; }`; of its generated code folding has no result, so with folding there is no optimized program |
| FoldingHazard.WithoutDivisionsFolds | src/optimizations/cf.c:112-142 | A method that neither divides nor takes a remainder is always folded to the end: no division by zero happens in the compiler |
| OperandPasses.CopySourceIsAssigned | src/optimizations/cp.c:49-77 | In a method where each local is never assigned or assigned before it is read: if every definition that reaches a use copies the same unmutated name, that name is never assigned or assigned before the use |
| ConstantFolding.AllDefinitionsAreConstant | src/optimizations/cf.c:42-63 | Finds a constant exactly when there are definitions and all of them move that constant |
| ConstantFolding.Optimize | src/optimizations/cf.c:274-278 | The in-place pass computes the specified rewriting, and fails exactly when that divides by zero while folding |
| CopyPropagation.CanPropagateCopy | src/optimizations/cp.c:49-77 | Finds a name exactly when there are definitions, all of them copy it, it is not spelled as a global and it is not among the names mutated in between |
| CopyPropagation.Optimize | src/optimizations/cp.c:182-186 | The in-place pass computes the specified rewriting of the whole method, and never fails |
| ParameterHazard.PassesChangeAssignedParameters | src/optimizations/cf.c:29-40 | On the blocks generated for a method that assigns its parameter under a condition, the run that returned 0 returns 5 after folding and 7, the stale contents of a temporary, after propagation; the guard `SafeFrom` refuses both |
| DeadCode.LiveSet.Compute | src/optimizations/dce.c:395-425 | The fixpoint loop ends, with the names not yet live as measure, in the least set that holds the seeds and is closed under the operands of live assignments |
| DeadCode.PrunedPreservesRuns | src/optimizations/dce.c:248-264 | For any live set of a well-formed method whose arrays are declared: the pruned method is well formed, and every run that neither divides by zero nor leaves an array ends in the same way with the same calls, globals and arrays |
| DeadCode.PruningIsIdempotent | src/optimizations/dce.c:395-428 | After pruning by the least live set, that set is again the least, and pruning by it changes nothing |
| DeadCode.PruneBlock | src/optimizations/dce.c:248-256 | Removing at the index and stepping back keeps exactly the assignments to live names and the calls, in order |
| DeadCode.Optimize | src/optimizations/dce.c:396-428 | Elimination prunes the method by its least live set |
| DeadCodeEffects.LeastIsNeeded | src/optimizations/dce.c:395-425 | A name is in the least live set if and only if it is needed: it is a global, an array, an argument of a call or an operand of a terminal, or an assignment to a needed name reads it, over any number of steps |
| DeadCodeEffects.EliminationIsExact | src/optimizations/dce.c:248-264 | What elimination leaves of a block is exactly its calls and its assignments to needed names, in order, and its terminal; nothing else of the method changes |
| Optimizations.Apply | src/optimizations/optimizations.c:6-14 | Applies the chosen passes in the order fold, propagate, eliminate; stops only where folding itself divides by zero |
| Optimizations.OptimizedPreservesRuns | src/optimizations/optimizations.c:6-14 | Any subset of the passes with safe replacements keeps every run, traps aside |
| Optimizations.OptimizerPreservesPrograms | src/optimizations/optimizations.c:6-14 | Optimized methods calling optimized methods do what the originals did calling the originals, for every call at every depth, traps aside |
| Optimizations.AssignedIsOptimizable | src/optimizations/optimizations.c:6-14 | Elimination asks nothing of a method; folding and propagation are safe, one after the other, where each local is never assigned or assigned before it is read |
| GraphNames.OptimizedEmittable | src/optimizations/optimizations.c:6-14 | Any subset of the passes keeps the order and numbers of the blocks, their edges, the predecessor lists (exact if they were) and the fall-through, and the names that the code generator relies on |
| FrameLayout.LayoutIsSound | src/assembly/code_generator.c:84-117 | Distinct names have disjoint slots, each as long as the longest declaration of the name, if and only if, from the last declaration of any other name that comes earlier up to a name's own last declaration, enough words are declared for the name's longest declaration; nothing but the declarations decides it |
| FrameLayout.InsideFrame | src/assembly/code_generator.c:84-117 | Every declaration of every name lies inside the frame, whatever the lengths |
| FrameLayout.FrameSizeAligned | src/assembly/code_generator.c:113-116 | The frame is the smallest multiple of 16 bytes with room for all declared words |
| FrameLayout.GrowingLengthsFit | src/assembly/code_generator.c:84-117 | It is enough that a later declaration of a name is at least as long as every earlier one, so also that lengths are equal |
| FrameLayout.AllocateElsewhere | src/assembly/code_generator.c:84-111 | Names a method does not declare keep the slots earlier methods left in the table, which is never cleared |
| FrameHazard.VariablesOverlap | src/assembly/llir.c:308-323 | The fields of the blocks generated for a method with an array of length 2 and, in a sibling scope, one of length 1 under the same name do not fit; the first array's second word and another variable share an address |
| Selection.AssignmentRuns | src/assembly/code_generator.c:272-410 | For each of the assignments the emitted sequence leaves the wrapped 64-bit result in the destination and every other slot, global and array element as it was, with the stack pointer where it was; it traps only where the assignment does |
| Selection.CallAssignmentRuns | src/assembly/code_generator.c:235-270 | For any number of arguments the callee is called with the operands' values in order, at a 16-byte aligned stack pointer (section 3.2.2 of the System V AMD64 ABI), which is restored; the frame is untouched |
| Selection.ArgumentsReceived | src/assembly/code_generator.c:235-270 | A callee that reads its arguments by the convention gets exactly the operands' values in order |
| Selection.ArgumentsPassed | src/assembly/code_generator.c:235-270 | At the call `rdi`, `rsi`, `rdx`, `rcx`, `r8` and `r9` hold the values of operands 0 to 5, operand i from 6 on lies at the stack pointer + 8 * (i - 6), and `rax` is 0 (section 3.2.3 of the System V AMD64 ABI) |
| MachineMethods.ParametersRun | src/assembly/code_generator.c:119-140 | The callee's i-th parameter slot receives the caller's i-th argument, for any number of arguments |
| MachineMethods.ParametersReceived | src/assembly/code_generator.c:119-140 | Parameters 0 to 5 get what `rdi`, `rsi`, `rdx`, `rcx`, `r8` and `r9` held on entry, parameter i from 6 on what lay 16 + 8 * (i - 6) bytes above the base pointer |
| MachineMethods.PrologueRuns | src/assembly/code_generator.c:153-177 | After the prologue the frame holds the arguments, the stack pointer is at the frame's end and, in `main`, the globals hold their initial values |
| MachineMethods.ValuesInitialized | src/assembly/code_generator.c:142-151 | In zeroed memory, skipping zeros and storing only the other initial values gives every element of a global its declared value |
| LinearCode.JumpIfRuns | src/assembly/code_generator.c:412-458 | A branch emits one conditional jump: taken it goes to the false block, otherwise control falls into the true block |
| LinearCode.BodyRuns | src/assembly/code_generator.c:488-528 | From any point of any block, with or without the peephole, the emitted code enters the same blocks in the same order and ends the same way with the same fuel; where the blocks trap, the code has entered the same blocks up to there. Exits need a call of `exit` that ends the process |
| Peephole.PeepholeIsExact | src/assembly/code_generator.c:460-528 | With the peephole a method's code is its code without it, less exactly the jumps to the instruction that follows; without it every block that ends in a jump has its jump |
| LinearCode.ExitRuns | src/assembly/code_generator.c:476-486 | An exit calls `exit` with the code; if that returns, control goes on at the next block of the layout or past the method's end, with the frame as it was and the globals the call left |
| LinearCode.ExitIsRight | src/assembly/code_generator.c:476-486 | The code of an exit ends the process with that code in the world it started from if and only if the call of `exit` does |
| CodeGenerators.CodeGenerator.GenerateTextSection | src/assembly/code_generator.c:530-542 | Emits the specified code of every method in order, with one offsets table shared by all |
| CodeGenerators.CodeGenerator.GenerateStackAllocation | src/assembly/code_generator.c:84-117 | Lays out parameters, then block fields, keeping what the table held, and reserves the aligned frame |
| Reentry.ResettingIsHarmless | src/assembly/code_generator.c:169-176 | Storing the initial values other than 0 changes no memory, whatever it holds, if and only if all initial values are 0 |
| Reentry.ReentryIsHarmless | src/assembly/code_generator.c:169-176 | If no method calls `main`, or all globals start at 0, storing the initial values at each entry to `main` is the same as storing them once before the first call, for every call of every method |
| Reentry.ReentryDiffers | src/assembly/code_generator.c:169-176 | A program that satisfies neither ends in the language and diverges if each entry to `main` stores the initial values |
| Names.FieldNameInjective | src/assembly/llir.c:308-323 | Two scanner identifiers at two levels share a spelling only if identifier and level are equal |
| Names.LooksGlobalExactly | src/assembly/llir.c:356-366 | The optimizer's test on the spelling holds of a variable exactly at level 0; it fails for every `$` temporary and holds for every `#` one |
| Names.TemporaryNameFresh | src/assembly/llir_generator.c:48-60 | No temporary is spelled as a variable |
| Literals.StringToInt | src/semantics/ir.c:871-897 | The loop in 64-bit unsigned arithmetic returns the numeral's value, or the sentinel exactly when the value exceeds the limit or the leading digit's place does not fit 64 bits |
| Literals.LiteralDenotes | src/semantics/ir.c:899-914 | Any digits: the sentinel is avoided if and only if the value is in range (down to -2^63 under a minus) and there are at most 20 decimal or 16 hexadecimal digits; the generator then emits exactly the integer denoted |
| Literals.NoLeadingZero | src/semantics/ir.c:871-897 | Without a leading zero the sentinel means exactly that the value exceeds the limit, whatever the number of digits |
| Literals.LeadingZerosRejected | src/semantics/ir.c:871-897 | The value one written with 21 digits reads as the sentinel |
| WrittenLiterals.LiteralTokenRead | src/semantics/ir.c:916-970 | `true` is read as 1 and `false` as 0, a character as its own code, the escapes of the two quotes, the backslash, tab and newline as 34, 39, 92, 9 and 10, and a number as the base-10 or base-16 numeral of digits whose worths are listed |
| WrittenLiterals.IntegerRead | src/semantics/ir.c:861-914 | A decimal token means its base-10 numeral and a hexadecimal one the base-16 numeral of the text after `0x`; it reads as that number, or as the mark for none where the number is out of range or has too many digits |
| ExpressionSyntax.ParsingInvertsPrinting | src/parser/parser.c:379-624 | Any expression written with enough parentheses, anywhere in a token list and followed by a terminator or the end: parsing rebuilds its tree and consumes exactly its tokens, with parentheses needed as the layers of the grammar say: or, then and, then `== !=`, then `< <= >= >`, then `+ -`, then `* / %`, left-associative, unary operators tightest and each minus classified rightly |
| ExpressionSyntax.TwoOperators | src/parser/parser.c:55-69 | For operands that are not binary: `a o b o' c` and `a o' b o c` group o' first if o' is in a tighter layer, and to the left if both are in one layer, for all pairs of operators |
| ParserSoundness.ParsesExactly | src/parser/parser.c:379-624 | The converse too: up to a terminator or the end, the parser makes a tree of all of these tokens if and only if they are some expression written with enough parentheses and that is its tree; so the trees accepted are exactly those of the grammar |
| ExpressionSyntax.EveryTreeIsWritten | src/parser/parser.c:500-514 | Every expression tree can be written with enough parentheses |
| Parsers.Parser.ParseExpressionWithLength | src/parser/parser.c:601-619 | The parser with its cursor returns the specified tree and position on any tokens, and no tree exactly where the specification has none |
| Parsers.Parser.GetLowestPrecedenceIndex | src/parser/parser.c:434-453 | The result is one of the operators found, is in no tighter layer of the grammar than any of them and in a looser one than each to its right |
| Ast.Linearizer.Linearize | src/parser/ast.c:27-45 | Appends the preorder stream of the tree, with end markers only for programs, blocks and argument lists |
| ExpressionMeaning.FrontEndReadsExpressions | src/semantics/ir.c:632-767 | Parsing an expression, linearizing its tree and reading the nodes back yields the expression written and leaves the rest of the stream |
| ProgramMeaning.ProgramRead | src/semantics/ir.c:39-68 | For every program of the shape the parser produces, the readers consume exactly its stream, whatever follows, and rebuild the program written, with the literals' listed meanings, although only three kinds of node carry end markers |
| IrBuilders.IrBuilder.NewProgram | src/semantics/ir.c:39-68 | The readers with their node cursor compute the specified reading of any stream that has one |
| CheckerSoundness.CheckerGuarantees | src/semantics/semantics.c:657-696 | Every program the checker accepts, bare arrays to imports included, meets everything the generator asserts: each location resolves to a declared field, and to an array where indexed, names in one scope are distinct, lengths and literals are in range, break and continue are inside loops |
| CheckerExactness.AcceptsExactly | src/semantics/semantics.c:657-696 | The checker accepts a program if and only if it is legal by the rules of the language, stated without the checker: what each identifier means in its scopes, the type of each expression, distinct names, calls only of imports and of methods up to this one, no assignment to a constant, break and continue in loops, returns of the method's type, declarations with a length or a fitting initializer, a `main` without parameters |
| CheckerSoundness.CheckerDecides | src/semantics/semantics.c:399-429 | Of an accepted program, the checker that also forbids assigning parameters accepts exactly those that assign none |
| CheckerSoundness.LookupFinds | src/semantics/semantics.c:93-105 | Under any nesting and shadowing, the generator's symbol table resolves an identifier to the spelling of the very field the checker found, or both find none |
| SemanticAnalysis.Semantics.AnalyzeProgram | src/semantics/semantics.c:657-696 | The checker with its scope stack, loop depth and error flag reports an error exactly when the specification refuses the program, and leaves the lengths the specification gives |
| SemanticAnalysis.FieldsTable.Get | src/semantics/symbol_table.c:62-78 | Climbing the parent tables finds the innermost declaration; without climbing only this table is asked |
| SafePrograms.CallsAreSafe | src/semantics/semantics.c:320-359 | Type safety: in an accepted program without bare arrays to imports and negated boolean literals, called with arguments of its types in a world whose boolean globals are boolean, no method goes wrong, and its value and globals fit their types, if imports leave boolean globals boolean |
| SafePrograms.AcceptedProgramsAreSafe | src/semantics/semantics.c:657-696 | Such a program has a `main`, and running it never goes wrong at any depth |
| ConstantsKept.ConstantsAreKept | src/semantics/semantics.c:399-429 | Constants are constant: however a call in such a program ends, at any depth, every constant global still holds the value it was declared with, if it did before (or memory was zeroed before `main` set it) and imports leave constants alone |
| ConstantsKept.ExecHolds | src/semantics/semantics.c:399-429 | Any checked statement leaves every constant in scope, local or global, with the value it was declared with |
| ConstantsKept.ConstantRead | src/semantics/semantics.c:93-105 | In such a state, reading an element of a constant under any nesting and shadowing gives the value it was declared with |
| ConstantsKept.GlobalStarts | src/assembly/code_generator.c:169-176 | Setting the globals at the start of `main` gives each element of each global, in zeroed memory, the value it was declared with |
| TypeSoundness.ExecFits | src/semantics/semantics.c:517-581 | Any checked statement takes a well-typed state to a well-typed state and breaks or continues only in loops |

## Left out

- OperandPasses.PassPreservesRuns: the condition `SafeFrom` goes one way. For each replacement it is exact over all paths of the graph (`SafeExactly`), but whether a run takes a path depends on what the branches compute, which no test before the call decides; `PassesChangeAssignedParameters` has failing runs for both passes.
- FrameLayout.LayoutIsSound: slots of all names of a method are kept apart, also of names that are never in scope together, because propagation may carry a name out of its scope, where its slot must still hold its value; without propagation a weaker condition would do, which is not worked out.
- Reentry.ReentryIsHarmless: the condition goes one way, because a call of `main` in the program text may never be reached; the resetting itself is characterized by an if-and-only-if in `ResettingIsHarmless`.
- DeadCode.PrunedPreservesRuns: a run that traps in a division may go on after pruning, because the division may be removed; nothing is said about such runs.
- FoldingHazard.FoldingStopsExactly: what the pass knows at a place is said of the method as the earlier steps of the pass left it, as in the code; no condition on the method as generated is given.
- Selection.AssignmentRuns: reading an array outside its bounds counts as a trap in blocks, so what the machine then reads is not said.
- MachinePrograms.CompilerPreservesPrograms: nothing bounds the stack, calls deeper than `depth` count as divergence on both sides, and objects of 2^63 bytes are excluded. Files that define one symbol twice, which the assembler refuses, are not excluded but mean nothing.
- SafePrograms.CallsAreSafe: a whole array handed to an import and a negated boolean literal are accepted by the checker and lowered, but are not typed; the lowering theorems cover them.
- CheckerSoundness.CheckerGuarantees: about programs as the readers build them (`ProgramAsRead`), such as literal values below 2^64.
- ParserSoundness.ParsesExactly: of a syntax error it says that there is no tree; error messages and recovery are not modelled.
- Parsing of statements and declarations: the tree is taken as the parser builds it; only expressions are parsed from tokens.
- The scanner, which leaves tokenizing to a regular-expression library.
- Token positions and messages of errors in the checker, which carry no meaning.
- The trees the checker changes in place are returned as new values; the one change is an array's length.
- Block pointers are block numbers, and a block's instructions belong to its graph; temporaries are recorded with the block that takes them.
- The definition search is one class, although folding and propagation each have a copy; the copy of folding does not collect mutated names.
- Assembly text, symbol prefixes, the data section and immediate sizes: instructions are a datatype, strings are their own text, and of the data section only the labels it defines are modelled.
- Memory management, hash table and array containers, printing and option parsing.
- `src/assembly/ssa.c`, the tombstone code of `src/optimizations/dce.c` and the branch folding of `src/optimizations/cf.c`, which nothing calls.
- Imported functions are any function of name, arguments and world; they never change a caller's locals and never call back.
