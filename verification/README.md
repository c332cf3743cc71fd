# A verified model of the ToyC compiler

ToyC is a C subset (32-bit `int`, globals, constants, functions, `if`, `while`)
whose compiler parses a program, analyzes it, lowers it to a control-flow graph
over virtual registers, optionally optimizes it, allocates RISC-V registers and
emits RV32IM code. This project models each of these stages and proves that it
preserves meaning, and that their compositions do so from the source program to the
machine: the compiler without `-opt`, and an optimizing one made of those passes of
`-opt` that are sound.

## How it is built

Four languages, each with a meaning, carry every statement:

- **Source** (`Ast.dfy`): the grammar's trees. A name means the variable of that
  name that was declared last in the blocks around it. Only a block opens a scope,
  as the language definition says (doc/任务要求.md, line 123), so a declaration
  that is itself a branch or a loop body belongs to the block around it; passed
  over, it declares its variable without a value.
- **Annotated tree** (`Typed.dfy`): names are symbols, constants are marked.
- **IR** (`IR.dfy`): basic blocks over a virtual register file, globals, calls. A
  run is `Done`, `Undef` (a register read before it is written, no such function)
  or `Timeout`; one bound limits nested calls, another the blocks of each call.
- **Machine** (`RiscV.dfy`): RV32IM registers, word memory, globals, `call` and
  `ret`. A bad immediate, a misaligned access or a `ret` to a wrong address stops
  the machine, so a run that returns made none of them. Instruction meanings
  (`Alu.dfy`) follow the RISC-V Unprivileged ISA 20191213, chapter 7 for `mul`,
  `mulh`, `mulhu`, `div` and `rem`; source division truncates as in section 6.5.5
  of C11.

Where the compiler is a class that updates its fields (`Parser`, `Sema`, `IRGen`,
`OptCodeGen`) or a loop, the model is a class or a method with loop invariants,
proved equal to a specification function; the lemmas about meaning speak of that
function. What a stage accepts and what it achieves is stated beside its function
in the terms of its input alone: the grammar as a relation between tokens and trees
(`Grammar.dfy`), the faults a program may have (`WellFormed.dfy`), which value a
common subexpression takes over, what is hoisted and inlined, who gets a register,
what the emitted text does without (`Economy.dfy`). Pure helpers are functions. A
definition occurs once; each file holds the module of its name.

| stage | as it runs | specification | proofs |
|---|---|---|---|
| parser | ParserClass | Parse | Grammar, ParseProof |
| analysis | Analyzer | Sema | WellFormed, SemaProof, SemaProgram, Grounding, BareDeclarations |
| lowering | IRGenerator | Lower | LowerShape, LowerStages, LowerProof, LowerSim, LowerOnce |
| passes | Dce, Cse, Dominators, Hoist, Inliner, Optimizer | Inline, Sweeps and the same | Replacement, Inline, InlineLoops, Discipline, AfterLowering |
| liveness, colouring | Liveness, RegAlloc | the same | the same |
| code generation | BackEnd | CodeGen, ConstOps, Magic | InstProof, FrameProof, EntryExit, Params, EighthArgument, LayoutProof, BodyProof, Terminators, Simulation, Economy |
| whole compiler | Driver | EndToEnd | EndToEnd |

The two constants of a run appear as `d` (nested calls) and `k` (blocks or loop
iterations). "Refines" means: where the first run is `Done` the second is `Done`
with the same result, and where it is `Timeout` so is the second, within the same
bounds.

## Findings

What the models show of the code as it is; each has a proof.

- **Unsigned division by a constant** (src/codegen/OptCodeGen.cpp:46-57, 462-475).
  The search always stops at k = 0, and the multiplier is then too coarse for some
  dividends an `int` can hold: 2147483645 / 7 gives 306783378
  (`Magic.UnsignedSequenceFails`). `Magic.UnsignedSequenceDividesIff` says for
  which dividends it is right, `Magic.UnsignedSequenceDividesAllIff` for which
  divisors it always is: those whose signed search stops at p = 32. The comment at
  src/codegen/OptCodeGen.cpp:44-45 claims it for every d >= 3.
- **The eighth register argument** (src/codegen/OptCodeGen.cpp:100-103, 188-208).
  `storeOff` builds large addresses in a7, where the eighth argument arrives.
  `EighthArgument.EighthArrivesIff`: the argument reaches its place exactly if no
  save or spill slot stored before it has an offset beyond 12 bits.
- **Common subexpressions** (src/opt/Passes.cpp:522-618). Expressions are killed by
  their operands, not by their result: `Cse.OverwrittenResult` is a block on which
  the pass changes the result. Lowered code is never like it
  (`LowerOnce.CseAfterLowering`).
- **Recursion and inlining** (src/opt/Passes.cpp:53-57, 83-124). A function is not
  inlined into itself, but a one-block function that calls itself is inlined into its
  callers again in every sweep: `Sweeps.RecursionNeverEnds` is a program in which no
  number of sweeps removes the call. `Sweeps.NothingToInline` says when five sweeps do
  remove every such call. The comment calls the call graph without loops acyclic, but
  analysis enters all functions before any body and accepts forward calls
  (src/sema/Sema.cpp:67-111).
- **Declarations as branches** (src/parser/Parser.cpp:126-183,
  src/sema/Sema.cpp:146-166, src/ir/IRGen.cpp:144-151). `if (c) int x = 1;` is
  accepted and hides an outer `x` from there on even when `c` is 0
  (`BareDeclarations.BareBranchHides`). Under a condition that is constant the
  declaration is not lowered at all; `if (0) int x = 1; x = 7; return x;` should
  return 7, but its symbol keeps `irId` -1 (`BareDeclarations.RuledOutBranchFails`).
  `SemaProgram.AnalyzedReady`: every symbol that lowered code uses gets a register
  exactly if no lowered name means a declaration in a branch ruled out that way,
  which `Driver.CheckGrounded` computes.
- **Remainder by the constant 0 under `-opt`** (src/codegen/OptCodeGen.cpp:511-551,
  24-57). `x % 0` makes the compiler itself divide by zero in the search for the
  magic number; `x / 0` gets a plain `div`. `ConstOps.SearchSafeIff`: a constant makes
  a division of the search undefined exactly if it is 0 and the operation is a
  remainder. `Optimizer.NoCrashIn`: the functions without such an instruction are
  exactly those that the back end is modelled on.

## Model

| member | source | states |
|---|---|---|
| `EndToEnd.CompilerCorrect` | src/main.cpp:26-47 | Whole compiler without `-opt`: for every accepted program whose source run ends within d nested calls, its code, laid out as `Driver.ImageHosted` says and started with 16-aligned sp and room for d + 1 frames, returns `main`'s value in a0 with sp, callee-saved registers and memory above sp unchanged, and the globals as the source leaves them. Condition: no lowered name means a ruled-out declaration |
| `EndToEnd.ImageCorrect` | src/main.cpp:26-47 | The same for whatever passes lie between lowering and the back end, with or without `-opt`, as long as they keep the results of runs that return |
| `EndToEnd.SourceToIr` | src/ir/IRGen.cpp:63-110 | From source to the lowered IR: same value, related globals |
| `Optimizer.OptimizedCorrect` | src/main.cpp:26-47 | The optimizing compiler: what the source program ends with, its image after `Optimizer.CompileOptimized` ends with, under the same conditions |
| `Optimizer.CompileOptimized` | src/opt/Passes.cpp:902-953 | From the annotated program to the image with `-opt`: a module with the same runs, nothing dead, what `Optimizer.Optimize` says of each pass, and the emitted text of a valid and frugal allocation; `DivisionByZero` exactly when some instruction makes the compiler divide by zero |
| `Optimizer.Optimize` | src/opt/Passes.cpp:902-953 | The sound passes in their order: runs that return return the same, runs that diverge diverge, functions stay well formed, nothing dead is left. On the way, the module is what five sweeps of inlining leave, common subexpressions run until nothing changes or twelve times, and behind each hoisting no loop that a jump enters keeps what the pass is for, while the other instructions stay |
| `Optimizer.NoCrashIn` | src/codegen/OptCodeGen.cpp:494-551 | The functions with no instruction whose search divides by zero are exactly those the back end accepts |
| `Driver.Compile` | src/main.cpp:26-47 | On every token list that ends in Eof, as the lexer's do: a syntax error exactly when the tokens are no program of the grammar; a semantic error exactly when the program is not well formed, and then a fault that it has; otherwise code whose every function is the emitted text of a valid and frugal allocation; `NoRegister` stands for the code of programs that name a ruled-out declaration |
| `Driver.ImageHosted` | src/codegen/OptCodeGen.cpp:165-228 | The delivered image meets the premises of `CompilerCorrect` when its frames are below 2^31 and no large store precedes an eighth argument |
| `Magic.ComputeSignedMagic` | src/codegen/OptCodeGen.cpp:24-42 | The do/while search in `uint32_t` variables: no assignment leaves the range, and it returns the multiplier and shift of the least p in 32..62 with 2^p > anc * (ad - 2^p mod ad) |
| `Magic.SearchStep` | src/codegen/OptCodeGen.cpp:33-40 | One turn keeps q1 * anc + r1 = 2^p, r1 < anc, q2 * ad + r2 = 2^p, r2 < ad |
| `Magic.DoublingFits` | src/codegen/OptCodeGen.cpp:33-40 | While the search goes on, no doubling wraps |
| `Magic.LeastPIsLeast` | src/codegen/OptCodeGen.cpp:39-40 | The search ends at or before 62, at the least sufficient p |
| `Magic.MultiplierFacts` | src/codegen/OptCodeGen.cpp:40-41 | The multiplier is in 1..2^32 - 1, is not 2^31, and times the divisor's magnitude is 2^p + delta with 1 <= delta < magnitude |
| `Magic.SignedSequenceDivides` | src/codegen/OptCodeGen.cpp:478-491 | For every int32 n and every c that needs it, mulh, the conditional add or subtract, the arithmetic shift and the sign add give n / c truncated toward zero |
| `Magic.ComputeUnsignedMagic` | src/codegen/OptCodeGen.cpp:46-57 | For d >= 2 the search stops at k = 0 with the rounded-up quotient of 2^32 by d |
| `Magic.UnsignedExactIff` | src/codegen/OptCodeGen.cpp:462-475 | As the quotient of an int: mulhu gives n / d truncated exactly when n >= 0 and n * e < (d - n mod d) * 2^32, e being the multiplier's error |
| `Magic.UnsignedSequenceDividesIff` | src/codegen/OptCodeGen.cpp:462-475 | mulhu gives n / d exactly when n * e < (d - n mod d) * 2^32, e being the multiplier's error |
| `Magic.UnsignedSequenceDividesAllIff` | src/codegen/OptCodeGen.cpp:462-475 | It is right for every non-negative int exactly for the divisors whose signed search stops at p = 32 |
| `Magic.UnsignedSequenceFails` | src/codegen/OptCodeGen.cpp:462-475 | 2147483645 / 7 comes out one too large |
| `Magic.SearchDefinedIff` | src/codegen/OptCodeGen.cpp:24-57 | No division of `signedMagic` (by the magnitude, by anc) or `unsignedMagic` is by zero, exactly for arguments other than 0 |
| `Bits.ComputeLog2Exact` | src/codegen/OptCodeGen.cpp:16-19 | The shift loop computes `Log2Exact` |
| `Bits.Log2ExactCorrect` | src/codegen/OptCodeGen.cpp:16-19 | It answers k exactly on 2^k and -1 off the powers of two |
| `ConstOps.MulConstCorrect` | src/codegen/OptCodeGen.cpp:419-445 | The instructions for c * n leave the wrapped product in rd for every c, also when rd = ra, and change nothing besides rd and t6 |
| `ConstOps.Pow2BiasCorrect` | src/codegen/OptCodeGen.cpp:448-451 | t6 gets 2^k - 1 for a negative dividend and 0 otherwise |
| `ConstOps.MagicQuotientCorrect` | src/codegen/OptCodeGen.cpp:458-492 | The quotient by a general constant, with the magic number loaded or already in a register; with the unsigned hint for the dividends of `Magic.UnsignedExactIff` |
| `ConstOps.DivConstCorrect` | src/codegen/OptCodeGen.cpp:494-509 | Division by every constant but 0 (1, -1, INT_MIN, powers of two and their negatives, general), also in place, at the cost of t6 and a7 |
| `ConstOps.ModConstCorrect` | src/codegen/OptCodeGen.cpp:511-551 | Remainder likewise, at the cost of t6, a6 and a7 |
| `Economy.MulNeeded` | src/codegen/OptCodeGen.cpp:419-445 | The instructions for c * n contain a `mul` exactly if neither the magnitude of c nor a neighbour of it is a power of two |
| `Economy.QuotientNeeds` | src/codegen/OptCodeGen.cpp:494-509 | Those for n / c, c other than 0, contain no division, and a high product exactly if the magnitude of c is no power of two |
| `Economy.RemainderNeeds` | src/codegen/OptCodeGen.cpp:511-551 | So do those for n % c |
| `ConstOps.SearchSafeIff` | src/codegen/OptCodeGen.cpp:494-551 | A quotient or remainder by a constant reaches the search with a zero divisor exactly for a remainder by 0 |
| `Liveness.UseMeansReadFirst` | src/opt/RegAlloc.cpp:39-60 | The use set of a block holds exactly the registers that some position reads before any earlier one writes them |
| `Liveness.SolutionComplete` | src/opt/RegAlloc.cpp:62-82 | A solution of the equations contains every register that some path reads before writing |
| `Liveness.Analyze` | src/opt/RegAlloc.cpp:62-82 | The iteration ends, and a register is in liveIn of a block exactly when some path from its start reads it before any write |
| `RegAlloc.BuildInterference` | src/opt/RegAlloc.cpp:84-131 | Every definition interferes with what is live behind it (but a move's source), call results with what crosses the call, parameters with each other; and nothing else does: edges, crossings and move partners are exactly those the code gives cause for |
| `RegAlloc.Colour` | src/opt/RegAlloc.cpp:144-168 | Every register in turn gets the register of a partner if one is free, else the first free one of its pool, else a slot of its own; what crosses a call gets no caller-saved one; no slot stays empty |
| `RegAlloc.ColouringSafe` | src/opt/RegAlloc.cpp:84-168 | Such a colouring keeps every live value apart from every write, at every instruction, across calls and at entry |
| `RegAlloc.ForcedByGreed` | src/opt/RegAlloc.cpp:144-168 | Where every value was placed greedily, each value in memory conflicts with a holder of every register of its pool |
| `RegAlloc.AllocateRegisters` | src/opt/RegAlloc.cpp:23-175 | The whole allocator delivers a valid allocation. Values are placed by falling number of conflicts, each greedily, and a value is in memory only if values it conflicts with hold every register it may have (the callee-saved ones if it crosses a call, else all) |
| `Simulation.FuncSim` | src/codegen/OptCodeGen.cpp:165-346 | Allocation and code generation preserve meaning: a call that ends in the IR returns on the machine with the same value and globals, for every valid allocation, every module and any number of arguments |
| `Simulation.BlockStep` | src/codegen/OptCodeGen.cpp:230-308 | Started at its label with the places of its live-in registers agreeing with the register file, a block's text goes to the label of the successor that the block chooses, and there the places of all live registers agree again |
| `Simulation.BlockSim` | src/codegen/OptCodeGen.cpp:210-251 | From a block's label with its live-in registers in their places, the text returns what the run from that block returns |
| `InstProof.EmitPlainRuns` | src/codegen/OptCodeGen.cpp:310-416 | The text of an instruction other than a call puts its value in the destination's place and leaves every other place alone |
| `InstProof.EmitIntoA0Runs` | src/codegen/OptCodeGen.cpp:280-308 | The same with the result computed straight into a0 |
| `FrameProof.CallArgsRun` | src/codegen/OptCodeGen.cpp:553-566 | Arguments arrive in a0 to a7 and in the outgoing area, whatever places they come from; nothing above the area changes |
| `FrameProof.SurvivesCall` | src/opt/RegAlloc.cpp:133-168 | A value in a callee-saved register or in memory survives a call |
| `EntryExit.PrologueRuns` | src/codegen/OptCodeGen.cpp:188-195 | The prologue opens a 16-aligned frame of any size, saves ra and the callee-saved registers in disjoint slots, and keeps every argument |
| `EntryExit.EpilogueRuns` | src/codegen/OptCodeGen.cpp:253-262 | sp, ra and every callee-saved register come back, a0 and memory stay |
| `Params.ParamMovesRun` | src/codegen/OptCodeGen.cpp:196-208 | Every incoming parameter reaches its place; argument i >= 8 is read from the caller's outgoing slot |
| `Params.LargeStoreDestroysA7` | src/codegen/OptCodeGen.cpp:100-103 | A store leaves a7 alone if its offset fits 12 bits, and puts the address there otherwise |
| `EighthArgument.EighthArrivesIff` | src/codegen/OptCodeGen.cpp:188-208 | The eighth argument reaches its place, whatever its value, exactly if no store with a large offset comes before it is read |
| `Terminators.CompareMeans` | src/codegen/OptCodeGen.cpp:59-66 | `invertCmp` inverts each comparison, and the emitted conditions mean the comparisons |
| `Terminators.FusedBranchLeads` | src/codegen/OptCodeGen.cpp:265-296 | A comparison fused into the branch goes to the block that its value chooses, whichever target falls through |
| `Terminators.PlainBranchLeads` | src/codegen/OptCodeGen.cpp:280-296 | The same for a branch on a value |
| `Terminators.FusedNotLive` | src/codegen/OptCodeGen.cpp:232-246 | A comparison result that is read once, by the branch, is live nowhere behind it, so that leaving it uncomputed is sound |
| `Terminators.FusedReturn` | src/codegen/OptCodeGen.cpp:297-308 | A result computed straight into a0 is the one returned |
| `LayoutProof.BlockFound` | src/codegen/OptCodeGen.cpp:210-228 | The label of every laid-out block is found at its text |
| `LayoutProof.OrderClosed` | src/codegen/OptCodeGen.cpp:210-222 | The layout begins with the entry, has no block twice, and holds the successors of all its blocks |
| `LayoutProof.OrderReachable` | src/codegen/OptCodeGen.cpp:210-222 | A block is laid out exactly if some path from the entry reaches it; the numbers increase |
| `Economy.ComparisonFused` | src/codegen/OptCodeGen.cpp:230-251 | A block that ends in a comparison which only its branch reads has no instruction that puts the outcome into a register |
| `Economy.NoJumpToNext` | src/codegen/OptCodeGen.cpp:280-296 | No block ends in a jump to the one laid out behind it |
| `Economy.FrameTight` | src/codegen/OptCodeGen.cpp:170-183 | The frame is the least multiple of 16 with room for stack arguments, spilled values, saved registers and, off the leaves, ra |
| `Economy.MostIsMost` | src/codegen/OptCodeGen.cpp:170-176 | The room for stack arguments is what the longest call of the function takes |
| `BackEnd.OptCodeGen.EmitFunc` | src/codegen/OptCodeGen.cpp:165-228 | The class method appends exactly the specified text for a valid and frugal allocation |
| `BackEnd.OptCodeGen.Run` | src/codegen/OptCodeGen.cpp:74-88 | Every function of the module is emitted |
| `BackEnd.ComputeUseCounts` | src/codegen/OptCodeGen.cpp:145-163 | The counts are the numbers of reading operands |
| `BackEnd.ReachableBlocks` | src/codegen/OptCodeGen.cpp:210-222 | The worklist finds exactly the blocks that some path from the entry reaches |
| `WellFormed.AnalyzeExact` | src/sema/Sema.cpp:67-244 | Analysis accepts a program exactly if it has no fault: names declared, no assignment to a constant, constants and globals with constant initializers, no constant division by 0, calls of known functions with the right number of arguments, `break` and `continue` under a loop, functions defined once, one `int main()`. An error that it reports is a fault of the program, stated over the tree alone |
| `SemaProof.MarkSound` | src/sema/Sema.cpp:189-244 | An expression marked constant has its mark as value and no effect, in every environment, whatever calls occur in it |
| `SemaProof.FoldBinIs` | src/sema/Sema.cpp:33-55 | Folding, with its two special quotients, is the run-time arithmetic; None exactly on division by 0 |
| `SemaProof.LookupRel` | src/sema/Sema.cpp:16-30 | The scope stack resolves a name to the variable that the source means |
| `SemaProof.ExecSim` | src/sema/Sema.cpp:123-187 | A statement and its annotated form end the same way with related stores, also on `break`, `continue`, `return`, and with declarations as branches |
| `SemaProgram.AnalyzeCorrect` | src/sema/Sema.cpp:67-121 | An accepted program that ends with a value ends with it after analysis, with related globals |
| `SemaProgram.AnalyzedReady` | src/ir/IRGen.cpp:112-151 | A function of an accepted program meets what lowering needs, and all its used symbols get registers, exactly if it names no ruled-out declaration; function names are distinct |
| `BareDeclarations.BareBranchHides` | src/sema/Sema.cpp:146-166 | For all names and values: with braces the outer variable is returned, without them the program has no defined result; both are accepted |
| `BareDeclarations.RuledOutBranchFails` | src/ir/IRGen.cpp:144-151 | A family of accepted programs with a defined result whose assigned symbol never gets a register |
| `Analyzer.Sema.Analyze` | src/sema/Sema.cpp:67-111 | The class method computes the specified analysis, and so accepts exactly the well-formed programs and reports a fault of the others |
| `LowerShape.GenFuncWellFormed` | src/ir/IRGen.cpp:26-110 | Every created block is finished, operands and targets are in range, no edge enters the entry, for every nesting with dead code |
| `LowerSim.ExprSim` | src/ir/IRGen.cpp:193-247 | The code of an expression yields its value and effects, in registers of its own |
| `LowerSim.CondSim` | src/ir/IRGen.cpp:249-265 | The code of a condition ends at the true or the false target, with exactly the effects that short-circuit evaluation has |
| `LowerSim.StmtSim` | src/ir/IRGen.cpp:112-191 | The code of a statement ends where its flow says: behind it, at the loop's break or continue target, or returned |
| `LowerSim.FuncSim` | src/ir/IRGen.cpp:82-110 | Lowering preserves meaning: a call that ends in the tree ends in the IR with the same result and globals |
| `IRGenerator.IRGen.Generate` | src/ir/IRGen.cpp:63-80 | The class method computes the specified module |
| `LowerOnce.GenFuncDisciplined` | src/ir/IRGen.cpp:193-247 | In the whole function, the register of every operation, global load and call result has one definition, is not read by it, and is no parameter; only moves share destinations |
| `LowerOnce.CseAfterLowering` | src/opt/Passes.cpp:522-624 | CSE refines every run of every lowered program |
| `Cse.Cse` | src/opt/Passes.cpp:620-624 | Per block: where an earlier instruction has the same operation and operands and nothing between redefines, stores or passes an operand (for a load: stores the global, calls, or redefines, stores or passes its register), the later one becomes a move from the register of the first such instruction; every other one stays. Reports exactly whether anything changed |
| `Cse.CodeReuses` | src/opt/Passes.cpp:551-613 | The same of the specified code of any block |
| `Cse.CseRefines` | src/opt/Passes.cpp:522-618 | CSE refines every run where each expression's register is written once in its block and is not its own operand |
| `Cse.OverwrittenResult` | src/opt/Passes.cpp:522-618 | A block without that discipline on which the results differ |
| `Dce.DeadCodeElim` | src/opt/Passes.cpp:129-159 | The pass ends and computes the repeated sweep |
| `Dce.EliminateRefines` | src/opt/Passes.cpp:129-159 | Dead-code elimination refines every run of every module |
| `Dce.EliminateLeavesNothingDead` | src/opt/Passes.cpp:129-159 | Behind it every instruction other than a call or a store has a destination that something reads |
| `Dominators.ComputeDom` | src/opt/Passes.cpp:162-182 | The iteration ends, reports no false dominator, and exactly the dominators when all blocks are reachable |
| `Dominators.NaturalLoop` | src/opt/Passes.cpp:199-209 | The worklist finds the header and exactly the blocks that reach the back edge around it |
| `Dominators.LoopUnique` | src/opt/Passes.cpp:199-209 | A back edge has only one such loop |
| `Hoist.Preheader` | src/opt/Passes.cpp:211-218 | Finds the block whose jump is the only way into the loop, whenever there is one |
| `Hoist.SwapImproves` | src/opt/Passes.cpp:220-240 | Reading a constant from a register set in the preheader changes no run: every path into the loop passes the preheader |
| `Hoist.MagicSwap` | src/opt/Passes.cpp:833-898 | A hinted division reads exactly the number that code generation computes for its divisor and signedness |
| `Hoist.SettledIff` | src/opt/Passes.cpp:220-303 | The test of each pass is met exactly by the instructions described so |
| `Hoist.HoistPass` | src/opt/Passes.cpp:188-305 | Each of the three passes refines every run of every module when no edge enters block 0; when all blocks are reachable, no loop entered by a jump keeps a comparison with a constant other than 0, a division by a constant other than 0, -1 and the powers of two, or a division by multiplication without a register for its multiplier; all other instructions stay |
| `AfterLowering.HoistAfterLowering` | src/opt/Passes.cpp:188-305 | Refinement and nothing left to hoist, for every lowered function |
| `Inline.InlinedRuns` | src/opt/Passes.cpp:92-106 | Argument moves, renamed body and result move reproduce the call |
| `Inline.InlineAtReturns` | src/opt/Passes.cpp:83-117 | Inlining one call keeps the result of every run that returns |
| `InlineLoops.InlineAtLoops` | src/opt/Passes.cpp:83-117 | It keeps divergence: a run that ends within no bounds still ends within none |
| `Inline.WithInlinedShaped` | src/opt/Passes.cpp:83-117 | It keeps expression results written once in their block, and changes no edge |
| `Inliner.InlineFunctions` | src/opt/Passes.cpp:119-124 | All sweeps together keep returning and diverging runs, and compute the specified sweeps; no call is left to inline if no chain of calls of one-block functions has more than five calls (so that none is recursive), or if each such function stands before its callers |
| `Inliner.InlineSweep` | src/opt/Passes.cpp:83-117 | A sweep goes through the functions in order and replaces every call that may be inlined by its moves and copied body; it reports exactly whether there was one |
| `Sweeps.EligibleMeans` | src/opt/Passes.cpp:63-66 | The test is met exactly by a call, with as many arguments as parameters, of another function that is one block of at most 24 instructions ending in a return, and not `main` |
| `Sweeps.NothingToInline` | src/opt/Passes.cpp:119-124 | The condition for five sweeps to leave no such call |
| `Sweeps.OneSweep` | src/opt/Passes.cpp:119-124 | One sweep is enough where one-block functions stand before their callers |
| `Sweeps.RecursionNeverEnds` | src/opt/Passes.cpp:119-124 | A module with a recursive one-block function in which a call to inline is left after any number of sweeps |
| `AfterLowering.InlineAfterLowering` | src/opt/Passes.cpp:119-124 | The same for every lowered program |
| `AfterLowering.FuncHintless` | src/ir/IRGen.cpp:193-247 | Lowering gives no division a hint, which `cloneInst` relies on |
| `Replacement.ReplaceRefines` | src/opt/Passes.cpp:902-953 | To replace a function in a module it is enough that its body refines when the calls it makes do |
| `Grammar.ExprParsed` | src/parser/Parser.cpp:186-331 | At every level of precedence, tokens before one that cannot continue them are parsed as an expression tree exactly if the grammar relates them to it |
| `Grammar.ParenthesesParsed` | src/parser/Parser.cpp:307-312 | `( e )` is parsed as e at every level, for every e |
| `Grammar.StmtParsed` | src/parser/Parser.cpp:126-183 | Before a token other than `else`, tokens are parsed as a statement exactly if the grammar, with every `else` at the nearest `if`, relates them to it |
| `Grammar.ProgramParsed` | src/parser/Parser.cpp:30-103 | Parsing fails exactly on tokens that are no program; otherwise it gives the one tree that the grammar relates to them |
| `ParseProof.ExprRoundTrip` | src/parser/Parser.cpp:186-331 | The print of an expression at any level, parenthesised by precedence and associativity, is one of the grammar, parses back to it and stops just behind it |
| `ParseProof.StmtRoundTrip` | src/parser/Parser.cpp:106-183 | So does that of a statement whose every `else` belongs to the nearest `if` |
| `ParseProof.ModuleRoundTrip` | src/parser/Parser.cpp:30-103 | So does that of a program, read to the end of the file |
| `ParseProof.ParsedNoDangling` | src/parser/Parser.cpp:133-150 | The parser gives every `else` to the nearest `if` |
| `ParseProof.ReparseSame` | src/parser/Parser.cpp:30-183 | Every program that parses comes back from its own print |
| `ParserClass.Parser.ParseProgram` | src/parser/Parser.cpp:30-34 | The class method gives the program that the grammar relates to the tokens, and fails exactly if there is none; the cursor never passes Eof |

## Left out

- EndToEnd.CompilerCorrect: is about runs that end and return; programs that loop for ever, or that are undefined by C (division by 0, reading a variable without a value), are promised nothing. With unbounded recursion the machine's stack runs into other memory, so that no converse holds in general.
- EndToEnd.CompilerCorrect: asks that no lowered name means a declaration in a branch ruled out by a constant condition; `SemaProgram.AnalyzedReady` shows that this is exactly when all used symbols get registers.
- Driver.Compile: answers `NoRegister` where the compiler has no check and emits code for register -1; what that code does is not modelled.
- Names of globals and functions in the assembly: symbols are numbers here, while two globals of one name, or a global named like a function, pass analysis and give one label twice (src/codegen/OptCodeGen.cpp:134-141).
- Driver.ImageHosted: asks for frames below 2^31 bytes and, in functions of eight or more parameters, for small offsets before the eighth is read; `EighthArgument.EighthArrivesIff` shows that the latter is exact.
- Ast.Skip: after a loop whose test fails, a declaration that is itself the loop's body has no value in the source model, even if an iteration gave it one.
- Inliner.InlineFunctions: results and divergence are kept, bounds are not: an inlined call no longer counts as a nested call.
- Hoist.HoistPass: the claim that nothing is left to hoist is for functions all of whose blocks are reachable, which is where the dominator sets are exact.
- ConstOps.DivConstCorrect: with the unsigned hint, for the dividends on which the unsigned sequence is exact (`HintsTrue`); the hint itself comes from `markUnsignedDiv`, which marks too much (src/opt/Passes.cpp:781-827) and is not modelled.
- Cse.CseRefines: on other code than lowered code the discipline is a hypothesis.
- `copyProp`, `constProp`, `licm` and `peephole`: they preserve meaning only under conditions that the code does not check, so the `-opt` pipeline as a whole has no such theorem; `Optimizer.Optimize` is the pipeline without them and without the next line's passes.
- `constFold`, `jumpThreading`, `unreachableElim`: would add only one-branch facts.
- The naive back end, the lexer, error messages, line numbers and command-line handling.
- Assembly text, the data section and `%hi`/`%lo` addressing of globals: instructions are a datatype, a global access is one instruction that destroys its address register.
- RegAlloc.Colour: which partner's register is taken when several are free, and the order among values with equally many conflicts, are not fixed.
- WellFormed.AnalyzeExact: says that an error is a fault of the program, not which of several faults is reported; that is fixed by the specified analysis.
- Bit vectors of the analyses are sets; instruction lists are rebuilt as sequences, not edited in place.
