# ToyC compiler: a verified model of its passes

ToyC is a small C subset with `int` variables, constants, functions, `if`, `while`, `break` and `continue`; the
compiler translates it to RV32IM assembly. This project models the compiler from the lexer to register allocation
and proves what its passes promise. Loops that update state are methods, objects with fields are classes, and each of
them is proved against a function or predicate whose own properties are proved as lemmas.

All passes work on one intermediate language with one meaning (`Ir.dfy`). A function is a list of blocks with phis,
instructions and a terminator; block 0 is the entry. A run is a sequence of blocks with registers, stack slots and a
world of globals and a trace of calls and accesses; `Run(f, params, callees, c, n)` is the state after `n` blocks, so
statements about all `n` are statements about all runs, also those that never end. Integers are 32 bits wide and wrap
around, and division is total as in section 7.2 of the RISC-V Unprivileged ISA, version 20191213. A source program
has a meaning of its own (`Ast.dfy`) in which a bound on loop passes separates calls that end from calls that do not.

What is proved, in the order of the pipeline:

- **Lexer and parser** (`Lexing`, `LexerClass`, `Syntax`, `Parsing`, `ParserClass`): the parser accepts exactly the
  texts of the grammar, each with its one tree; minimal parentheses are minimal and are read back.
- **Names, analysis and generation** (`Resolution`, `Standing`, `Shapes`, `Lookups`, `Sema`, `Conditions`, `Drafts`,
  `ExprGen`, `StmtGen`, `Placement`, `Wiring`, `Fitting`, `IrGen`, `Frontend`): the resolved tree says what the parsed
  one does, errors are reported exactly where they belong, int functions never fall off their end, and generated code
  is in single assignment form and returns exactly when the source does, with the same result and effects.
- **SSA construction** (`Graphs`, `Idoms`, `Dominators`, `Ssa`, `Renaming`, `Promotion`, `PhiPlacement`, `Rename`,
  `Cleanup`, `PromotedForm`, `Mem2Reg`): dominators and frontiers are exact, and promoting slots to registers
  preserves every run and gives strict SSA form.
- **Passes on SSA** (`SsaForm`, `Rewriting`, `Bits`, `CounterRange`, `Counters`, `Redundancy`, `Dropping`,
  `ErasedForm`, `Movable`, `Gvn`, `Hoisting`, `Loops`, `Licm`, `TailCalls`, `LoopedForm`) and **over modules**
  (`Effects`, `Numbers`, `Localize`, `Inlining`, `Inliner`, `InlinedForm`, `ModuleInliner`, `StaleSlots`, `Assigned`,
  `Blindness`): each preserves the runs, and each does all it set out to do; the inliner does where no inlined
  function sees what is in its slots at first.
- **All of it** (`Pipeline`, `Driver`, `Answers`): from the text of a file to the functions of its unit in SSA form,
  every pass leaving what the next one relies on, and the functions of a unit calling one another.
- **Back end** (`Machine`, `ParallelCopies`, `Lowering`, `Reading`, `Liveness`, `Colouring`): registers are given by
  what paths of a function may still read; and **use lists** (`UseLists`).

`dafny verify dfyconfig.toml` checks the whole project. `hide` in a proof, or in front of a clause, names definitions
that the proof, or the well-formedness of the clause, does without; it keeps verification short and changes nothing
that is stated.

Where the code does not do what one would expect, the model follows the code, a lemma gives an input, and another
lemma says exactly when it is well:

- The analysis does not visit what follows a statement that returns, but the generator comes to what follows
  `while (1) return 0;`. A use of a name there has no entry and the accepted function is refused
  (`Frontend.AcceptedButNotGenerated`, and `Frontend.FoundIffSkippedIsSilent` for when it is not); a `break` there
  takes the exit of a loop that is not there (`Sema.AcceptedButNotGenerable`, `Sema.CheckedIsGenerable`).
- The frontier of an entry that is branched to is missed (`Dominators.FrontierOfEntryIsMissed`,
  `Dominators.FrontiersExactIffEntryHasNoPredecessor`).
- A minus sign before a digit is part of the number except behind an operand, and a closing parenthesis counts as
  one, so not every list of tokens can be printed with spaces and read back (`Lexing.PrintedIsReadBack`).
- Over an edge, the liveness equations forget an incoming value that is itself a later phi of the block
  (`Liveness.LiveOverPhis`).
- The condition of a loop is evaluated again behind the body, with its names looked up again. A body without braces
  may be the declaration of a constant and capture one of them, so `int c = 1; { while (1 / c) const int c = 0; }` is
  rejected for a division by zero (`Conditions.CapturingIsRejected`, `Conditions.CapturingIsCleanOnce`). A function is
  accepted exactly if it would be with one evaluation and no condition faults behind its body
  (`Conditions.CleanIffCalm`), and that is so if no such body declares a constant that captures a name
  (`Conditions.UncapturedIsCalm`).
- A declaration without braces may be skipped while its name stays in scope, as in `if (a) int x = 1; return x;`. A call
  of its own then reads 0, but a copy of the function in a loop has one slot for all passes and reads what the pass
  before left there, so inlining changes the result (`StaleSlots.InliningChangesTheResult`,
  `Assigned.PeekingIsNotBlind`, `Blindness.PeekingIsNotBlind`). Inlining is right for functions that do not see what is
  in their slots at first (`Inlining.InliningPreservesMeaning`), generated code sees it exactly if the source does
  (`Blindness.BlindIffSourceIs`), and the source does not if every use of a variable lies behind an assignment to it
  (`Assigned.AssigningFirstIsBlind`), for instance if no branch and no loop body is itself the declaration of a
  variable (`Assigned.BracedAssignsFirst`).

## Model

| member | source | states |
|---|---|---|
| Dominators.Postorder | src/ir/mem2reg.cpp:59-85 | the depth-first search ends; its order is a postorder of all blocks, the entry last, and its tree reaches every block |
| Dominators.Intersect | src/ir/mem2reg.cpp:17-27 | the two-finger walk ends at the lowest block that the two chains share: its chain is the intersection of theirs |
| Dominators.Sweep | src/ir/mem2reg.cpp:91-105 | a sweep keeps the approximation from below; if it changes a parent then a rank rises, and if it changes none then every chain is exactly the set of dominators |
| Dominators.Iterate | src/ir/mem2reg.cpp:86-105 | the sweeps terminate, and then the chain of every block is exactly the set of its dominators |
| Dominators.RecordedIsFrontier | src/ir/mem2reg.cpp:118-133 | at every block but the entry, the runners record exactly the textbook dominance frontier |
| Dominators.FrontiersExactIffEntryHasNoPredecessor | src/ir/mem2reg.cpp:118-133 | the recorded frontiers are the textbook ones if and only if nothing branches to the entry |
| Dominators.FrontierOfEntryIsMissed | src/ir/mem2reg.cpp:118-133 | two blocks that branch to each other: fully analysed, yet the entry is in its own frontier and is not recorded |
| Dominators.DominatorTree.BuildCfg | src/ir/mem2reg.cpp:29-52 | successor and predecessor lists are those of the terminators |
| Dominators.DominatorTree.Analyze | src/ir/mem2reg.cpp:54-135 | afterwards the object holds the graph, a postorder, exact dominators, the children of the tree and the frontiers |
| PhiPlacement.LeastClosedIsPlaced | src/ir/mem2reg.cpp:171-193 | phi blocks closed under the frontiers are enough: at a block without a phi every predecessor leaves the value that the parent in the tree left |
| Mem2Reg.Mem2RegCtx.CollectPromotable | src/ir/mem2reg.cpp:155-169 | exactly the slots allocated in the entry block, each once |
| Mem2Reg.Mem2RegCtx.InsertPhi | src/ir/mem2reg.cpp:171-195 | the worklist ends with the least set of blocks closed under the frontier of the stores, one fresh phi each |
| Mem2Reg.Mem2RegCtx.RenameBlock | src/ir/mem2reg.cpp:218-270 | the walk of a subtree replaces every load of it by the value current there, fills the phis of its successors, and leaves the stacks as they were |
| Rename.StoredIsResolved | src/ir/mem2reg.cpp:236-246 | what a store pushes is the operand with all earlier replacements applied |
| Rename.NeverLoaded | src/ir/mem2reg.cpp:203-216 | no pushed value is ever the result of a promoted load, so replacing once is enough |
| Cleanup.ErasingIsClean | src/ir/mem2reg.cpp:272-310 | erasing accesses and then slots from the substituted code gives the specified clean code |
| Cleanup.ReorderIncoming | include/toyc/ir.h:222-237 | the incoming values follow the predecessor order, and every predecessor keeps its value |
| Cleanup.ReorderKeepsIncoming | include/toyc/ir.h:222-237 | reordered, a phi receives along every listed edge the value it received before |
| Mem2Reg.Mem2RegCtx.Cleanup | src/ir/mem2reg.cpp:272-320 | after erasing and normalising, the function is the promoted function of a sound setting |
| Promotion.PromotionPreservesRuns | src/ir/mem2reg.cpp:148-321 | for every sound setting the promoted function takes the same blocks, makes the same calls and global accesses and returns the same value, after any number of steps |
| Mem2Reg.PromoteSlots | src/ir/mem2reg.cpp:323-335 | the whole pass: the result is the promoted function for exactly the entry slots, is in strict SSA form, and runs like the original; no instruction of the result allocates, loads or stores a promoted slot |
| PromotedForm.PromotedIsStrict | src/ir/mem2reg.cpp:138-321 | the promoted function of every sound setting is in strict SSA form: one definition for every register, which dominates its uses, and a ready value for every phi on every edge |
| SsaForm.DefinitionsHold | include/toyc/ir.h:103-123 | in strict SSA form the equation of every pure definition holds at every point it dominates, in every run |
| Counters.FindAdvance | src/ir/optim.cpp:579-591 | finds the addition of a positive constant to the phi exactly when there is one |
| Counters.GuardedBy | src/ir/optim.cpp:596-611 | answers yes exactly if the comparison feeds a branch whose true target has one predecessor and dominates the addition |
| Counters.IsNonNegativeCounter | src/ir/optim.cpp:566-613 | answers yes exactly for the phis with a certificate of start, step, guard and guarded edge |
| CounterRange.CounterStaysInRange | src/ir/optim.cpp:557-613 | the value of a certified phi is never negative and below bound plus step (or still the start), at every point its block dominates, in every run |
| Bits.PowerOfTwoTest | src/ir/optim.cpp:75-88 | x & (x - 1) is 0 exactly for the powers of two |
| Bits.NonNegativeDivision | src/ir/optim.cpp:655-668 | for non-negative dividends shifting and masking are division and remainder by a power of two |
| CounterRange.ReductionIsExact | src/ir/optim.cpp:630-678 | a reducible division and its replacement do the same step in every state of every run |
| Counters.StrengthReduceDivRem | src/ir/optim.cpp:630-678 | the pass keeps strict SSA form and every run; every division by a power of two whose dividend is known not to be negative has become a shift or a mask, and nothing else has changed |
| Gvn.KeyMeans | src/ir/optim.cpp:190-205 | a key alone determines the value: flipped comparisons and sorted operands lose nothing |
| Gvn.EqualKeysAreRedundant | src/ir/optim.cpp:190-225 | of two definitions with equal keys the dominated one always has the value of the other |
| Redundancy.RedundantIsAlike | src/ir/ir.cpp:57-70 | replacing all uses of a redundant register changes no run |
| Redundancy.ReplacementIsStrict | src/ir/ir.cpp:57-70 | and keeps strict SSA form |
| Redundancy.ErasingPreservesRuns | src/ir/optim.cpp:21-40 | erasing unused pure instructions changes no run |
| Gvn.Numbering.NumberBlock | src/ir/optim.cpp:207-225 | within a block the table ends with the keys of exactly the surviving dominating definitions, replacements keep runs, form and graph, and everything outside the subtree of the block stays |
| Gvn.Numbering.Walk | src/ir/optim.cpp:207-225 | the walk of a subtree leaves no two surviving definitions of one key in it, one dominating the other, and the table as it was |
| Gvn.Number | src/ir/optim.cpp:1155-1164 | the pass keeps every run, strict SSA form and the graph; in the result no operation repeats one that comes before it on every path: no negation of one operand, no operator on the same operands, in either order for addition, multiplication and equality, and no mirrored comparison |
| Gvn.SameOperationSameKey | src/ir/optim.cpp:190-205 | operations that repeat each other have one key, whatever the order of addresses, because different operands have different addresses |
| Movable.ReplacingFreesNothing | src/ir/optim.cpp:207-219 | replacing a register by one with the same operation makes no operation movable out of a loop from which none was |
| ErasedForm.ErasedIsStrict | src/ir/optim.cpp:21-40 | erasing what nothing uses keeps strict SSA form, although all later places move |
| Hoisting.HoistedIsStrict | src/ir/optim.cpp:744-757 | moving a pure instruction to a dominating block where its operands are ready keeps strict SSA form |
| Hoisting.HoistingPreservesRuns | src/ir/optim.cpp:744-757 | and takes the same blocks with the same calls, accesses and result in every run |
| Loops.FindNaturalLoops | src/ir/optim.cpp:105-148 | every header of a back edge gets its natural loop, and its preheader exactly if it has one |
| Loops.PreheaderDominates | src/ir/optim.cpp:130-140 | preheader and header dominate every block of the loop |
| Loops.OutsideDominatesPreheader | src/ir/optim.cpp:701-708 | what dominates a block of the loop from outside dominates the preheader |
| Loops.NestedByPreheader | src/ir/optim.cpp:128-146 | a loop whose preheader lies in another loop lies in that loop |
| Licm.FindInvariant | src/ir/optim.cpp:688-715 | the search ends with every instruction that is invariant, in an order in which operands come first |
| Licm.Schedule | src/ir/optim.cpp:717-742 | the instructions are ordered so that each is ready when its turn comes |
| Licm.HoistLoop | src/ir/optim.cpp:686-760 | the loop keeps no instruction with all operands outside; runs, SSA form, graph and all loops are kept, and no other loop gains such an instruction |
| Licm.HoistInvariants | src/ir/optim.cpp:680-760 | for every order of the headers all runs are kept, every instruction comes from one that was there, and in the end no listed loop with a preheader has a unary or binary operation whose operands are all set outside |
| Licm.LoopIsSealed | src/ir/optim.cpp:686-700 | no block of a loop with a preheader dominates a block outside that dominates a block of the loop |
| TailCalls.FindSites | src/ir/optim.cpp:768-797 | exactly the blocks that end in a call of the function itself whose value, or nothing, is returned |
| TailCalls.TailRecursionIsLoop | src/ir/optim.cpp:762-832 | the loop returns a value and globals if and only if the recursion does, for every recursion depth, with all parameters updated at once |
| TailCalls.FunctionReturns | src/ir/optim.cpp:762-832 | the function returns, and with it the activation that it calls last, if and only if the recursion returns, when its other activations do what it does |
| TailCalls.EliminateTailRecursion | src/ir/optim.cpp:762-832 | the pass builds exactly the loop, or leaves a function without sites alone; afterwards no block returns the answer of a self-call with all its arguments |
| LoopedForm.LoopedIsStrict | src/ir/optim.cpp:762-832 | the loop is in strict SSA form: the phis of the parameters have a ready value on every edge |
| Effects.Direct | src/ir/optim.cpp:974-992 | the direct effects: globals touched, callees known and unknown |
| Effects.ClosureIsExact | src/ir/optim.cpp:994-1011 | a closed and justified summary is exactly what call chains may touch |
| Effects.Summarize | src/ir/optim.cpp:994-1011 | the rounds terminate, with the least transitive closure of the call graph |
| Localize.SparedIsUntouched | src/ir/optim.cpp:1028-1055 | a call whose summary spares a global neither reads nor writes it, to every depth |
| Localize.SparedIffNoChain | src/ir/optim.cpp:997-1049 | all callees of a function spare a global exactly if no chain of calls from it leads to a function that touches it or out of the program |
| Localize.LocalRun | src/ir/optim.cpp:1051-1102 | the function with one global in a slot stays in step with the original in every run |
| Localize.LocalizeAllIsSame | src/ir/optim.cpp:1013-1105 | with any list of spared globals localised the function returns the same value and leaves the same globals |
| Localize.AllAccesses | src/ir/optim.cpp:1051-1102 | with any list of globals localised, the accesses left to each are one load in the entry and one store before each return, and the accesses to the others are as before |
| Localize.LocalizedProgramAnswersAlike | src/ir/optim.cpp:963-1107 | so does the program in which every function is localised, calling each other |
| Localize.LocalizeGlobals | src/ir/optim.cpp:963-1107 | the pass over the program: every function answers every call as before; in every function each accessed global that no chain of calls from it may touch is loaded once in the entry and, if it is stored, stored once before each return, and the accesses to all other globals are the same block by block |
| IrGen.IRGenerator.AllocaInEntry | src/ir/irgen.cpp:19-29 | a fresh slot behind the allocas that begin the entry |
| IrGen.IRGenerator.VisitExpr | src/ir/irgen.cpp:207-271 | in every run the generated code arrives with the value and the effects of the expression; the error flag is set exactly if a use has no entry or no symbol |
| IrGen.IRGenerator.ShortCircuit | src/ir/irgen.cpp:273-299 | the same for the logical operators: the right operand is evaluated exactly if the left one does not decide |
| IrGen.IRGenerator.VisitStmt | src/ir/irgen.cpp:92-205 | the generated code ends as the statement does (normally, by break, continue or return, or never), with the same variables and world |
| IrGen.IRGenerator.VisitFuncDef | src/ir/irgen.cpp:73-90 | the error flag is set exactly if the generator comes to a use without entry or symbol or a constant without value; otherwise, whatever variables and slots hold at first, a run returns if and only if the source call returns, with the same result and effects; the function is always in strict single assignment form with all blocks reachable, and refers only to parameters and slots that it has |
| Fitting.FinishedIsWellFormed | src/ir/irgen.cpp:73-205 | a draft whose edges and definitions are placed below each other is a function with all blocks reachable, nothing branching to the entry, and every definition dominating its uses |
| Sema.Analyzer.EvalConst | src/sema/sema.cpp:447-589 | the cached evaluation returns exactly the compile-time value, and reports exactly the divisions by zero it comes to |
| Sema.ConstMeans | src/sema/sema.cpp:447-589 | a compile-time value is what the expression evaluates to in every state, without effects |
| Sema.PlainHasValue | src/sema/sema.cpp:447-589 | an expression over literals and known constants that divides by no zero has a compile-time value |
| Sema.BreaksAreFound | src/sema/sema.cpp:591-610 | an execution that ends in a break ends in one that was found |
| Sema.ReturnsIsSound | src/sema/sema.cpp:183-198 | a statement found to return never completes normally |
| Sema.CheckedIsSound | src/sema/sema.cpp:200-237 | in a checked statement no jump leaves the loops, and returns have the right kind, although skipped code was not checked |
| Sema.DefiniteReturn | src/sema/sema.cpp:174-177 | a call of an accepted int function that ends returns a value |
| Frontend.CompiledDefiniteReturn | src/sema/sema.cpp:174-177 | and so does every run of the code generated for it |
| Sema.Analyzer.AnalyzeExpr | src/sema/sema.cpp:324-436 | errors exactly for unresolved names, calls that do not fit and constant divisions by zero outside operands that are decided away; every use is recorded |
| Sema.Analyzer.AnalyzeStmt | src/sema/sema.cpp:183-322 | there is no new error exactly if some values of the constants make the statement clean, also where a condition is evaluated again behind its body; then the tables have exactly what was visited, and the flow is exactly the definite return |
| Sema.Analyzer.EvalAgain | src/sema/sema.cpp:294-305 | the second evaluation of a condition keeps the values that were found before and looks the other names up behind the body; it reports exactly the divisions by zero it comes to there |
| Conditions.CleanIffCalm | src/sema/sema.cpp:294-305 | a function is accepted if and only if it would be with one evaluation of every condition and no condition comes to a division by zero with its names looked up behind the body |
| Conditions.UncapturedIsCalm | src/sema/sema.cpp:294-305 | no condition does if no body without braces declares a constant that captures a name of its condition |
| Conditions.CapturingIsRejected | src/sema/sema.cpp:294-305 | a function whose loop `while (1 / c) const int c = 0;` stands behind `int c = 1;` in a block is rejected for a division by zero in a constant expression |
| Conditions.CapturingIsCleanOnce | src/sema/sema.cpp:294-305 | although nothing is wrong with it if the condition is evaluated once |
| Conditions.CapturingIsResolved | src/sema/sema.cpp:83-91 | that function is what its text stands for with all names resolved |
| Sema.Analyzer.AnalyzeFunc | src/sema/sema.cpp:152-181 | a function without errors is accepted, and every function that can be clean has none |
| Sema.SameStmt | src/sema/sema.cpp:254-270 | constants declared later change nothing for what was analysed |
| Sema.CheckedIsGenerable | src/sema/sema.cpp:186-196 | what was checked may be generated if and only if the code that was skipped and is still generated jumps only inside loops |
| Sema.AcceptedButNotGenerable | src/ir/irgen.cpp:192-194 | `while (1) return 0; break;` is accepted, and its generation would take the exit of a loop that is not there |
| Frontend.FoundIffSkippedIsSilent | src/ir/irgen.cpp:102-121 | after an analysis without errors the generator finds everything it looks up if and only if the code that was skipped and is still generated uses no name and declares no constant |
| Frontend.Generate | src/ir/irgen.cpp:301-321 | analysis and generation of a function: rejected exactly if no values of the constants make it clean; without meaning exactly if what was skipped jumps out of loops that are not there or code follows a closed block; refused exactly if what was skipped is not silent; and otherwise what is generated has the meaning of the source and is in single assignment form |
| Frontend.AcceptedButNotGenerated | src/ir/irgen.cpp:102-106 | `while (1) return 0; int y = 1; return y;` is accepted and not generated |
| Resolution.LookupIsInnermost | src/sema/sema.cpp:83-91 | a name stands for the entry of the innermost scope that has it, and for nothing exactly if no scope has it |
| Resolution.ResolvedIsTree | src/sema/sema.cpp:152-322 | all nodes and declarations of a resolved function have numbers of their own, as objects of the tree have, and as the analysis assumes |
| Standing.ResolvedStands | src/sema/sema.cpp:183-322 | a resolved statement stands for the parsed one: the same construct with the same parts in the same places, every name standing for the declaration of the innermost scope that has it there, and behind it the scopes that its declarations make |
| Standing.ResolvedExprStands | src/sema/sema.cpp:324-436 | a resolved expression has the operators, operands and arguments of the parsed one in their order, literals with their decimal value, and calls marked as fitting exactly if the name is a function with as many parameters and a result where one is needed |
| Standing.ResolvedFunctionStands | src/sema/sema.cpp:152-182 | so does a resolved function, with its parameters in a scope around the body and its own name around that |
| Standing.NumbersJoin | src/frontend/parser.cpp:57-59 | the value of a number is that of its digits in base ten |
| Resolution.InScopeIffDeclared | src/sema/sema.cpp:343-361 | a use is in scope for the analysis exactly if its name is declared, and not as a function |
| Resolution.ScopesAgree | src/sema/sema.cpp:254-289 | behind a statement the names stand for exactly what was in scope before and what the statement introduces |
| Resolution.ScopesAgreeInside | src/sema/sema.cpp:183-198 | where the analysis comes to a statement of a block, the names stand for exactly what it has in scope there |
| Pipeline.CallsKept | src/driver/compiler.cpp:33-42 | what runs like the code of a source function returns exactly when the source does |
| Pipeline.OptimizeOnce | src/ir/optim.cpp:1199-1207 | of the passes of a round those modelled here: runs are kept; every instruction of the result comes from one of the function with all reducible divisions reduced; no listed loop with a preheader has an operation that could be done before it; and no operation repeats an earlier one |
| Pipeline.Optimize | src/ir/optim.cpp:1195-1213 | any number of rounds keeps strict SSA form and every run, and each round does all that one round does |
| Pipeline.CompileOptimized | src/driver/compiler.cpp:21-44 | analysis, generation, SSA construction and rounds of the modelled passes on SSA: the fate of a function is exactly that of its generation, the code is strict SSA and returns exactly when the source does, with the same result and effects, and it is the code without optimisation after all rounds |
| Driver.EvalGlobal | src/sema/sema.cpp:116-150 | a global gets the value of its initialiser, unless its name is taken, its names are unknown, or it is not constant |
| Driver.BuildUnit | src/sema/sema.cpp:34-42 | the items make a unit one after the other, up to the first with which something is wrong |
| Driver.EveryFunctionIsMade | src/driver/compiler.cpp:21-44 | in a finished unit every function of the file has a source that stands for what was parsed, with nodes of their own numbers, and code in strict SSA form that has gone through all rounds and returns exactly when that source does, with the global constants that the others see |
| Driver.EveryNameStands | src/sema/sema.cpp:34-181 | in a finished unit every item has a name of its own that stands for what it declares, and every global constant and variable has the value that its initialiser has in every state |
| Driver.BuildIr | src/driver/compiler.cpp:65-95 | from the text: rejected exactly if it is no file of the grammar, a number does not fit, an item is wrong or there is no int main(); otherwise every function stands for what was parsed, is compiled with that meaning and optimised, and every name outside stands for its item |
| Answers.AnswersAlike | src/driver/compiler.cpp:21-44 | the functions of a unit call one another: to any depth of calls the source and the code answer every call alike |
| Answers.MainAnswersAlike | src/driver/compiler.cpp:21-44 | so `main` of a built unit returns exactly if its code does, with the same result, globals and effects |
| Inliner.IsInlineSafe | src/ir/inliner.cpp:76-106 | answers yes exactly if every block is terminated and every operand is a constant, a parameter, a global, a slot or set earlier in its own block |
| Inliner.BlockInLoop | src/ir/inliner.cpp:58-74 | answers yes exactly if the block can reach itself |
| Inliner.CloneBody | src/ir/inliner.cpp:246-272 | one pass in order never meets an operand without a copy, and gives the specified copies with fresh numbers |
| Inlining.InliningPreservesMeaning | src/ir/inliner.cpp:212-285 | for a callee that does not see what is in its slots at first, the caller with the body in place returns a value and globals if and only if the caller does whose calls of the callee all return |
| Inlining.CopyReturns | src/ir/inliner.cpp:212-285 | among callees that answer as the callee does whatever is in its slots, what the copy returns the caller returns |
| Inlining.CallerReturns | src/ir/inliner.cpp:212-285 | and what the caller returns with its calls returning from all slots, the copy returns |
| StaleSlots.InliningChangesTheResult | src/ir/inliner.cpp:223-232 | a loop in `main` around an eligible call of `if (a) int x = 1; return x;`: the caller returns 0, and with the copy, whose slot keeps the value of the pass before, it returns 1 instead |
| Inliner.InlinedCounts | src/ir/inliner.cpp:212-285 | the calls of the result are those of the caller, one less |
| Inliner.InlineCall | src/ir/inliner.cpp:212-285 | splitting, cloning and joining give the inlined function, again fit to be inlined into, with one call less |
| InlinedForm.InlinedIsPlain | src/ir/inliner.cpp:212-285 | the result has all that the pass relies on, so it can be copied into other functions |
| ModuleInliner.FindCall | src/ir/inliner.cpp:128-151 | a call that may be inlined, or none exactly if there is none |
| ModuleInliner.InlineInto | src/ir/inliner.cpp:112-126 | the loop ends, with no eligible call left; whatever the result returns the caller returned, and the other way round if the inlinable functions return; the result can be inlined again |
| ModuleInliner.InlineFunctions | src/ir/inliner.cpp:112-122 | the pass over a module, inlining what was inlined into: callees that answer as the old functions do answer as the new ones do, nothing new is returned, and nothing is lost if the functions that were inlined return; and function by function, no call that could be replaced when a function had its turn is left in it |
| Blindness.BlindIffSourceIs | src/ir/irgen.cpp:73-90 | what is generated for a function sees what is in its slots at first if and only if the source function sees what its variables hold at first |
| Blindness.GeneratedIsPlain | src/ir/irgen.cpp:73-205 | generated functions have all that the inliner relies on: parameters and slots that are there, single definitions, numbers below the next one, and only instructions that it can copy |
| Blindness.InlineGenerated | src/driver/compiler.cpp:33-37 | the functions of a unit generated and inlined into one another: if no int function of the source sees what its variables hold at first, every function returns only what its source gives, and all of it if the inlined functions return |
| Blindness.AssigningFirstIsEnough | src/driver/compiler.cpp:33-37 | that is so among all callees in a unit in whose int functions every use of a variable lies behind an assignment |
| Blindness.PeekingIsNotBlind | src/ir/inliner.cpp:223-232 | what is generated for `int f(int a) { if (a) int x = 1; return x; }` sees what is in its slots |
| Assigned.AssigningFirstIsBlind | src/sema/sema.cpp:271-285 | a call does not depend on what the variables hold at first if every use of a variable lies behind an assignment to it on all paths |
| Assigned.BracedAssignsFirst | src/frontend/parser.cpp:221-261 | and so it is in every accepted function in which no branch and no loop body is itself the declaration of a variable |
| Assigned.PeekingIsNotBlind | src/frontend/parser.cpp:221-261 | `int f(int a) { if (a) int x = 1; return x; }` is accepted and returns what `x` happens to hold |
| ParallelCopies.NothingReadyIsPermutation | src/codegen/codegen.cpp:679-700 | when no copy is ready every waiting copy reads a destination of another: the scratch register is free |
| ParallelCopies.Sequentialize | src/codegen/codegen.cpp:645-711 | the loop ends, and every destination receives what its source held before the first move |
| Lowering.ShiftedQuotient | src/codegen/codegen.cpp:311-338 | srai, srli, add and srai give the quotient truncated towards zero (RISC-V Unprivileged ISA 20191213, section 2.4) |
| Lowering.DivisionCodeIsExact | src/codegen/codegen.cpp:311-338 | the sequence leaves the quotient or remainder by 2^k in the destination, changes no other register but T1, and is encodable |
| Lowering.Rebuilt | src/codegen/codegen.cpp:1013-1023 | the upper 20 and the sign-corrected lower 12 bits rebuild the constant |
| Lowering.Materialize | src/codegen/codegen.cpp:1004-1024 | the code writes the constant and nothing else, with encodable fields, for all 2^32 constants |
| Liveness.LiveOverPhis | src/codegen/codegen.cpp:1334-1348 | over an edge a value stays live exactly if no phi sets it, or a phi takes it and no later phi of the block sets it |
| Liveness.Solve | src/codegen/codegen.cpp:1328-1362 | the rounds terminate at the least solution of the equations; it holds in front of and behind every block exactly the candidates from which some path leads to a read, by an instruction, a terminator or a phi over its edge, with nothing on the way that sets them |
| Liveness.LeastIsNeeded | src/codegen/codegen.cpp:1306-1362 | the least solution of the equations of use and definition sets is what paths through the function say |
| Colouring.BuildGraph | src/codegen/codegen.cpp:1365-1394 | the edges are exactly those of the live sets, and the crossing values exactly those live after a call; with the sets of the liveness analysis these are exactly the conflicts and crossings of paths |
| Colouring.ExactIsExactByPaths | src/codegen/codegen.cpp:1365-1394 | two candidates have an edge exactly if both are needed at one place, or one is set by an instruction or phi where the other is needed next; a candidate crosses a call exactly if some call does not set it and it is needed behind |
| Colouring.Allocate | src/codegen/codegen.cpp:1454-1481 | neighbours get different registers, crossing values only saved ones, a value goes without only if all its registers are taken, and gets one only if all that are tried before it are taken |
| Colouring.AllWellGiven | src/codegen/codegen.cpp:1365-1481 | from the graph of all conflicts: values in conflict have different registers, values needed across a call have S1 to S11, others also T3 to T6 or A0 to A7, and whatever would have come first, the own register of a parameter before all, is with a value in conflict |
| Colouring.PlanRegisters | src/codegen/codegen.cpp:1275-1481 | the whole planning, stated by paths through the function alone: values of which one is needed or set where a run may still read the other have different registers, what a run may read behind a call that does not set it has a saved one, and a value goes without a register, or without a better one, only if values in conflict have them |
| Parsing.TreeIsParsed | src/frontend/parser.cpp:308-456 | the tokens of every tree that fits a level are parsed back to it, leaving what follows |
| Parsing.ParsedFits | src/frontend/parser.cpp:308-456 | and whatever is parsed is the text of such a tree |
| Parsing.FromNameIsExpr | src/frontend/parser.cpp:265-286 | the path that has already read a name builds what the expression parser builds |
| Parsing.StmtIsParsed | src/frontend/parser.cpp:221-293 | statements likewise; an else belongs to the nearest if |
| Parsing.ParsedStmtFits | src/frontend/parser.cpp:221-293 | and every parsed statement is the text of one |
| Parsing.AcceptsExactlyTheGrammar | src/frontend/parser.cpp:61-112 | a token list is accepted with a unit if and only if it is a text of that unit |
| Parsing.GrammarIsUnambiguous | src/frontend/parser.cpp:61-112 | one text is a text of one unit only |
| Syntax.MinimalIsShortest | src/frontend/parser.cpp:308-456 | the text with the fewest parentheses is no longer than any other text of the tree |
| Parsing.RoundTrip | src/frontend/parser.cpp:308-456 | the text with the fewest parentheses of any expression is parsed back to it |
| Syntax.OperatorsAreSpelled | src/frontend/parser.cpp:308-402 | the infix and prefix operators have the spellings and the precedence of the language |
| ParserClass.Parser.ParseExpr | src/frontend/parser.cpp:308-314 | the class does what the specification does, and stops at the first error |
| ParserClass.Parser.ParseStmt | src/frontend/parser.cpp:221-293 | the same for statements |
| ParserClass.Parser.ParseCompUnit | src/frontend/parser.cpp:61-78 | no error exactly if the tokens are a text of a unit, and then that unit |
| LexerClass.Lexer.SkipWhitespaceAndComments | src/frontend/lexer.cpp:68-106 | skips exactly spaces and comments, and fails exactly at a comment that is not closed |
| Lexing.OnlySpacesAreSkipped | src/frontend/lexer.cpp:68-76 | exactly space, tab, line feed, vertical tab, form feed and carriage return are passed over one by one |
| LexerClass.Lexer.Next | src/frontend/lexer.cpp:147-277 | the next token by the longest match, a minus sign being part of a number exactly where no operand precedes |
| Lexing.PrintedIsReadBack | src/frontend/lexer.cpp:147-277 | tokens joined by spaces are read back if and only if each is printable behind the one before |
| Lexing.LexedIsPrintable | src/frontend/lexer.cpp:147-277 | what was lexed without error is printable |
| Lexing.Relex | src/frontend/lexer.cpp:147-277 | so joining the lexemes of a text by spaces and lexing again gives the same tokens |
| Driver.TextRoundTrip | src/frontend/lexer.cpp:147-277 | the spaced text of an expression is lexed and parsed back to it |
| UseLists.Value.RemoveUse | src/ir/ir.cpp:29-36 | the first record of the user goes, and no other |
| UseLists.Value.AddOperand | src/ir/ir.cpp:38-41 | records agree with operands before and after |
| UseLists.Value.SetOperand | src/ir/ir.cpp:43-55 | one record goes, one comes, the rest stay; records agree with operands |
| UseLists.Value.ReplaceAllUsesWith | src/ir/ir.cpp:57-70 | every operand that held the value holds the other, no use is left, and records agree with operands |
| UseLists.Value.AddIncoming | src/ir/ir.cpp:101-104 | a pair of value and block is added, and records agree |
| UseLists.Value.ReplaceIncomingBlock | include/toyc/ir.h:212-218 | exactly the entries for one block are renamed |
| UseLists.ValueFromUnique | include/toyc/ir.h:222-237 | the value looked up for a block that occurs once is the one beside it |
| UseLists.Value.ReorderIncoming | include/toyc/ir.h:222-237 | the blocks follow the order, each keeps its value, and records agree with operands |

## Left out

Parts of the compiler:

- Options, diagnostics' texts and positions, printers, the assembly writer and labels: text only.
- `constprop`, `algebraic_simplify`, `strength_reduce`, `dce` and `sccp`: local rewrites of single instructions.
- `cfs`: folding a branch keeps the phi entry of the removed edge (src/ir/optim.cpp:227-244), so the pass alone does
  not keep the form that the others need.
- `limited_inline` and the round limits of `run_optim`: bounds on growth.
- Frame layout, block layout, prologue and epilogue, direct compare branches, immediate operands, the stack copies of
  phis without a register, `plan_local_registers`, and the arguments of calls beyond the order of their moves.
- Use lists are proved for one class `Value` that stands for values, users and blocks; the passes themselves are
  modelled on functions as values, where replacing all uses is a function, and replaced numbers are not reused.

Simplifications of what is modelled:

- Lexer and parser: positions and messages are left out. The parser keeps the digits of a number; the conversion,
  which ends the source's parser with an exception where it overflows (src/frontend/parser.cpp:57-59), comes after it.
- Resolution: names are resolved by functions before the analysis instead of inside it, names in conditions of loops
  once for either evaluation; declarations of a name that is taken and calls that do not fit are marked, and the
  analysis reports those that it comes to.
- Answers.AnswersAlike: a call that needs more depth than there is, or that never returns, is answered with 0 and leaves
  the globals alone.
- Analysis: it stops at the first item with an error. Signed overflow of the host is wraparound.
- Sema.Analyzer.AnalyzeStmt: every declaration and every use is a node of its own and declares once, as objects of
  the tree are; `Resolution.ResolvedIsTree` shows it of what the parser reads.
- Generation: functions are generated one by one, each numbering its registers from 0; a call of a void function gives
  an i32 that nothing uses; where the source goes on with a null value after an error, the model goes on with the
  constant 0.
- IrGen.IRGenerator.VisitFuncDef: nothing at the top level of the body follows a statement that closes its block,
  because there the source appends code behind a terminator (src/ir/irgen.cpp:86); `Frontend.Generate` gives such a
  function the fate `Undefined`.
- Pipeline.OptimizeOnce: the loops are those of the headers that the round lists; the source takes all of them.
- Pipeline.CompileOptimized: without the passes that are left out; without localisation, inlining and tail calls, which
  change calls and accesses to globals, so that the code has the answers of the source but not its effects in order;
  and without the limit of ten rounds and the test whether something changed.
- Unterminated blocks return without a value, as the last block of a void function does.
- Mem2Reg.PromoteSlots: every block is reachable, the entry has no predecessor and the targets of a branch differ;
  slots read 0 until they are stored to; addresses occur only as the pointer of a load or store; the order of use
  lists is the order of blocks. Callees are a function of name, arguments and world.
- Counters and GVN: uses are found by scanning the function, and a reduced division keeps the number of its result.
  Addresses in keys are arbitrary, but different operands have different ones.
- Licm.HoistInvariants: the order of the loops is a parameter instead of the sort by size; the result holds for all
  orders. The loop found for a header that is its own latch may have too many blocks, but never has a preheader.
- TailCalls.FunctionReturns: callees always answer, so of the call in which an activation ends it is said apart that it
  comes back. Functions have no slots here, callees see only globals, and traces are not compared.
- Localisation: the entry is not branched to, every block is terminated, functions outside the program see only
  globals, and the order of the maps is a parameter. A call that is cut off by the bound on depth or steps answers 0.
- ModuleInliner.InlineFunctions: functions are as `InlinedForm.Plain` says, which `Blindness.GeneratedIsPlain` shows of
  generated ones; callees see only globals and answer alike whatever is in the slots of the functions, which follows
  for functions that do not see it. New numbers are fresh, not those of the source, and after inlining the code is not
  shown to be in single assignment form again.
- Assigned.AssigningFirstIsBlind: one direction, because whether a function sees a variable also depends on values;
  the exact condition is the one of `Blindness.BlindIffSourceIs`.
- ParallelCopies.Sequentialize: the destinations are distinct, as those of phis of one block are.
- Lowering.Materialize: without the pseudo-instruction `li`.
- Colouring.PlanRegisters: the order of the candidates is a parameter instead of their priority, and so is which values
  are candidates. What a phi receives does not count as read where a later phi of the block sets that value.
