# Dytan, modelled and proved in Dafny

Dytan is a dynamic taint-analysis engine: it follows marks from input bytes through registers,
memory and branches of a running program. This project models its cores and proves what they keep
over every run.

| file | what it models |
|---|---|
| PostDominatorForest, PostDominance | the PostDominator forest as a value, and true post-domination over paths |
| RoutineChains | what a finished search over any routine says about post-domination |
| ControlCalls | where a routine gets its calls that push and pop branches |
| SearchExamples | two routines on which the search, and the calls placed after it, fall short |
| BasicBlock | BasicBlock objects on the heap, proved against the forest |
| ControlFlow, BlockBuilder, RoutineGraph | instructions, basic blocks and the three passes that build the graph |
| Bitset | 32-bit words and the packed bitset, proved against sets |
| TaintState, TaintRuns | the analysis calls as a pure machine, and properties of all its runs |
| RegisterBits, CallEffects | which bits registers name, and what each call does to a single place, mark by mark |
| TaintStore | the maps of heap bitsets and the scratch sets, proved against that machine |
| Handlers, Meanings, Transfers, Programs, Endings, OperandCalls | instruction handlers as emitters of calls, what instructions mean, that the calls amount to that, how handlers end, and their calls one by one |
| TaintGenerator | the mark generator |
| TaintWorld, TaintSources | everything that brings marks in or takes them out, as one machine and on the heap |
| ProfilingKeys, ProfiledStore, PrintedSets, ProfiledPrograms, RecordedKinds | profiling keys and their counts, the store with its profiling, what it prints, keys over whole programs, and which instructions record or leak |
| Monitors | system call observers, the table of open files, and the taint of reads |
| Collections, Division | sequences and positions in them, least elements, quotients and remainders |

`dafny verify dfyconfig.toml` checks everything.

How the code is read:

- Addresses are integers that do not wrap. Words of a bitset have 32 bits, as `size_t` has on the
  IA-32 target. `IMPLICIT` is on (dytan/include/dytan.h:105).
- `PostDominator` starts as null although the constructor does not set it
  (dytan/include/BasicBlock.H:57-64). `operator[]` on `postDominated` inserts a null entry, as in C++;
  on `branches`, `targets` and `addressMap`, where such an entry is never observed, it is a lookup.
  On `pendingSyscalls` it inserts zeros.
- The default observer of system calls starts as null, although its constructor does not set it
  (dytan/include/syscall_monitor.H:69-72).
- A pointer set is iterated in an order that is not fixed, so loops over one take its elements in any order.
- The address that Pin reports behind a routine's last instruction is a parameter of the routine, and is taken
  to be no flag (it becomes a block's address if the last instruction is a call).
- A failed assertion of the bitset code is a precondition, and every caller in the project is proved to
  meet it. `abort` is a result: handlers say how they end, a program stops at the first that aborts, and the
  store says which marks are illegal.
- Reading through a null pointer is a crash, and a result like `abort`.
- A state maps places (registers, bytes, branches, scratch sets) to marks. A place without an entry
  differs from one with no marks: clearing skips it, and a branch without an entry is not active.
- A handler is a function from an instruction to the calls it inserts. Whether memory is readable or
  writable, and its range, come with the instruction.
- Profiling by words asks for a word size above 0; with 0 every byte is printed.
- The path that an open was given is a parameter of its end. System calls have their IA-32 numbers.
- A tag's id stands for its decimal text, which is its key in `tagMap`.
- Where code and comment differ, the code counts: storing to AX, BX, CX or DX does update AH and AL and
  their like (dytan/dytan.cpp:528-616), although a comment says that it does not (dytan/dytan.cpp:382-386).

## Model

| member | source | states |
|---|---|---|
| PostDominatorForest.StepKeepsWellFormed | dytan/include/BasicBlock.H:248-270 | placeholders or not, one step keeps the forest: every parent got its place strictly before its child, so chains are acyclic and end at the return block, and a recorded descendant is always younger than the block that records it |
| PostDominatorForest.CommonIsEarlier | dytan/include/BasicBlock.H:206-216 | the new parent that a re-parenting finds is older than the block it takes |
| PostDominatorForest.AttachKeepsExact | dytan/include/BasicBlock.H:251-256 | first sight of a block keeps the non-null postDominated entries exactly the strict descendants |
| PostDominatorForest.ReparentMarks | dytan/include/BasicBlock.H:319-338 | which entries a re-parenting leaves non-null, block by block, in terms of the gap between the old and the new parent |
| PostDominatorForest.ReparentAbove | dytan/include/BasicBlock.H:259-266 | which strict ancestors every block has after a re-parenting |
| PostDominatorForest.ReparentKeepsExactIffHarmless | dytan/include/BasicBlock.H:258-267 | a re-parenting keeps the entries exact if and only if no null placeholder in the moved block's map names a block that a skipped ancestor still has below it |
| PostDominance.HarmlessRun | dytan/include/RoutineGraph.H:397-420 | in every run of harmless steps: entries are exactly the strict descendants, every true post-dominator (over all paths to the return block) is on the block's chain, and every parent link is backed by a path |
| PostDominance.ExactThroughoutIffHarmless | dytan/include/RoutineGraph.H:397-420 | over every run: the entries are exact in all states it goes through if and only if all its steps are harmless |
| PostDominatorForest.ReparentKeepsPristine | dytan/include/BasicBlock.H:258-267 | whatever null entries there are, moving one block leaves the entries of any block that was not looked for yet exactly its ancestors', and none of them null |
| PostDominance.TwoMeetingsCover | dytan/include/RoutineGraph.H:397-420 | in every run that meets no block a third time, harmful placeholders or not: no true post-dominator is missing from a chain, and every parent link is backed by a path |
| PostDominance.SettledThroughoutIffUndisturbed | dytan/include/BasicBlock.H:257-266 | over every such run: on all edges taken the source's parent stays on the chain of the target, if and only if no step moves a block past the parent of one that was met from it or from below it |
| RoutineChains.AtMostTwoSuccessors | dytan/include/RoutineGraph.H:261-379 | no block of any routine has more than two successors in the graph |
| RoutineChains.ChainsOfRoutine | dytan/include/RoutineGraph.H:55-76 | for every routine and every search over it, in whatever order it takes predecessors: chains miss no post-dominator; they hold nothing else, and the parents are the immediate post-dominators, if and only if they are stable; and stable they are if no step of the search disturbs an edge taken before |
| PostDominance.ImmediateIffStable | dytan/include/RoutineGraph.H:397-420 | under the same conditions the parents are exactly the immediate post-dominators if and only if the chains are stable |
| ControlCalls.Controlflow | dytan/dytan.cpp:1357-1429 | for every routine: the program crashes on a null post-dominator if and only if a conditional branch lies in a block from which the return block cannot be reached; else exactly the addresses of the conditional branches are pushed, each once, and the pops before each instruction are exactly the branches whose block has the parent that begins there |
| ControlCalls.PushedAreConditional | dytan/dytan.cpp:1371-1403 | what is pushed are the addresses of exactly the conditional branches, without repeats and in the order of their instructions |
| ControlCalls.PoppedWasPushed | dytan/dytan.cpp:1391-1424 | whatever is popped at an address was pushed, and is a conditional branch whose block has its parent there |
| ControlCalls.PoppedAtParent | dytan/dytan.cpp:1382-1424 | a pushed branch is popped before the first instruction of its block's parent and nowhere else; it is popped nowhere if and only if that parent is the return block |
| ControlCalls.PopsAreImmediate | dytan/dytan.cpp:1382-1424 | if the chains are stable, every branch is popped at the immediate post-dominator of its block |
| ControlCalls.EndlessCrashesIff | dytan/dytan.cpp:1371-1387 | a routine without a return instruction, its first one aside, crashes the program if and only if it has a conditional branch |
| ControlCalls.CanCrash | dytan/dytan.cpp:1382-1387 | a loop of three instructions with a conditional branch, and no way out, on which the program crashes |
| ControlCalls.JumpsDoNotCrash | dytan/dytan.cpp:1371-1373 | the same loop with an unconditional jump gets its calls without a crash |
| SearchExamples.BranchCanStayPushed | dytan/dytan.cpp:1371-1424 | a routine that gets its calls without a crash, one of whose conditional branches is pushed and popped nowhere |
| PostDominance.PlacedIffReaches | dytan/include/RoutineGraph.H:399-418 | a complete search gives a place to exactly the blocks from which the return block can be reached |
| RoutineGraphs.FinishedSearch | dytan/include/RoutineGraph.H:397-420 | after the search exactly the blocks that reach the return block were queued, each once, and exactly these, the return block aside, have a parent |
| PostDominance.ExactIffStable | dytan/include/RoutineGraph.H:397-420 | after a complete search that is harmless or meets no block a third time, chains are exactly the sets of post-dominators if and only if no edge leads to a block whose chain misses the source's parent |
| SearchExamples.ExactnessCanFail | dytan/include/BasicBlock.H:206-216 | a routine of six instructions and a search over its flow graph, in the order of its queue, after which the entries are not the descendants, because of a null entry that operator[] inserted |
| SearchExamples.ChainsCanBeTooLong | dytan/include/BasicBlock.H:257-266 | a routine of seven instructions and a search over its flow graph, in the order of its queue and harmless throughout, after which a chain holds a block that does not post-dominate and the chains are not stable, because a parent moved up after the block had settled |
| BasicBlocks.BasicBlock.GetCommonPostDominator | dytan/include/BasicBlock.H:206-216 | finds the lowest block of the chain that records the sibling, and leaves null entries at exactly the blocks it looked at in vain |
| BasicBlocks.BasicBlock.PassDownPostDominanceInfo | dytan/include/BasicBlock.H:289-296 | enters the new child into the maps of exactly this block and its ancestors |
| BasicBlocks.BasicBlock.DeleteDownPostDominanceInfo | dytan/include/BasicBlock.H:319-338 | erases the moved block and the keys of its map at exactly the blocks up to, not including, the new parent |
| BasicBlocks.BasicBlock.SetPostDominator | dytan/include/BasicBlock.H:178-181 | changes one parent link of the forest that the heap holds |
| BasicBlocks.BasicBlock.AddPredecessorAsPostDominated | dytan/include/BasicBlock.H:248-270 | the heap of blocks makes exactly the step of the value forest, attaching or re-parenting |
| ControlFlow.StepsAreEdges | dytan/include/RoutineGraph.H:162-259 | every step control can take stays inside a block or follows an edge of the graph, that of a first instruction which transfers control aside |
| ControlFlow.EdgesOfBlock | dytan/include/RoutineGraph.H:180-249 | the edges that leave a block are exactly the links of its last instruction |
| ControlFlow.FirstStepIffLinked | dytan/include/RoutineGraph.H:163-180 | a step of a first instruction which transfers control is covered if and only if it goes to the next instruction inside the block or the last instruction of the first block, which always exists, is linked to the same address |
| ControlFlow.FirstStepCanBeLost | dytan/include/RoutineGraph.H:163-180 | a routine of three instructions whose first one jumps to where no edge leads |
| ControlFlow.EdgesAreSteps | dytan/include/RoutineGraph.H:261-379 | every edge is a step of the last instruction of its block, apart from the extra edge of a branch that loops on itself and the one behind a control transfer that comes first |
| ControlFlow.EdgeIsStepIff | dytan/include/RoutineGraph.H:261-379 | an edge that leaves a block by its last instruction, if that is not the routine's first, is a step of it if and only if it is not the extra edge of a branch that loops on itself |
| ControlFlow.LoopHasExtraEdge | dytan/include/RoutineGraph.H:357-378 | a branch that loops on its own block always has an edge to the next address, and control never takes it |
| ControlFlow.FirstBlockOfOne | dytan/include/RoutineGraph.H:163-180 | a first block of one instruction flows to the next instruction and nowhere else, whatever that one instruction transfers control to |
| ControlFlow.LeaderIff | dytan/include/RoutineGraph.H:162-259 | an instruction starts a block if and only if it is the first, or is behind a control transfer that is not the first, or some control transfer leads to it |
| ControlFlow.BranchesAre | dytan/include/RoutineGraph.H:96-160 | the branch set of an instruction holds exactly the addresses it leads to and the flag of its kind |
| RoutineGraphs.RoutineGraph.Mapper | dytan/include/RoutineGraph.H:96-160 | what one instruction adds to branches and to targets, address by address |
| RoutineGraphs.RoutineGraph.MapAll | dytan/include/RoutineGraph.H:60-66 | after the first pass branches and targets hold exactly the sets of all instructions |
| RoutineGraphs.LeastTellsKind | dytan/include/RoutineGraph.H:268-357 | the smallest entry of a branch set is a flag exactly if the instruction is of the flag's kind, so BranchIns cannot mistake one kind for another |
| RoutineGraphs.RoutineGraph.GetBasicBlockAt | dytan/include/RoutineGraph.H:381-394 | returns the one block of an address, creating it only if there was none |
| RoutineGraphs.RoutineGraph.Branch | dytan/include/RoutineGraph.H:357-378 | a direct branch adds exactly its edges, the extra one of a self-loop included, to both sides of the graph |
| RoutineGraphs.RoutineGraph.Call | dytan/include/RoutineGraph.H:272-346 | a call or indirect call adds its edge by way of a node that stands for it: the caller leads to the node, the node to the fall-through block, and that block counts the caller as its predecessor |
| RoutineGraphs.RoutineGraph.BranchIns | dytan/include/RoutineGraph.H:261-379 | closing a block adds exactly the edges of the branch that ends it and maps the branch to the block |
| RoutineGraphs.RoutineGraph.BuildNext | dytan/include/RoutineGraph.H:180-249 | one turn of the loop keeps: instructions seen map to the block of their nearest leader, edges drawn are those of the instructions seen, and the open block is the right one |
| RoutineGraphs.RoutineGraph.BlockBuilder | dytan/include/RoutineGraph.H:162-259 | the finished graph: every instruction maps to the block that starts at the nearest leader at or before it; b is a predecessor of c iff b leads to c directly or through a call node |
| RoutineGraphs.RoutineGraph.TakePredecessors | dytan/include/RoutineGraph.H:399-412 | takes every predecessor once, in any order, queueing exactly those not placed before |
| RoutineGraphs.RoutineGraph.BuildPostDominanceTree | dytan/include/RoutineGraph.H:397-420 | terminates; makes a complete run in the order of a first-in first-out queue, in which no block is queued twice and no edge taken twice; the heap ends with the forest that this run grows |
| RoutineGraphs.RoutineGraph.InitializeRoutineInfo | dytan/include/RoutineGraph.H:55-76 | the three passes together: mapping, edge duality, and the forest that a finished search in queue order grows on the routine's own flow graph |
| Words.MaskIsShift | dytan/bitset.cpp:53-54 | the mask that the source shifts into place is the word with that bit alone |
| Words.SameBits | dytan/bitset.cpp:188-191 | a word is known by its bits |
| Bitsets.SameHeld | dytan/bitset.cpp:181-192 | words of one length stand for the same marks iff they agree word by word |
| Bitsets.Bitset.constructor | dytan/bitset.cpp:62-74 | a new set has no marks and zero padding |
| Bitsets.Bitset.Copy | dytan/bitset.cpp:76-82 | a copy in words of its own, with the same width and marks |
| Bitsets.Bitset.Reset | dytan/bitset.cpp:84-86 | removes all marks |
| Bitsets.Bitset.ClearBit | dytan/bitset.cpp:97-101 | removes exactly that mark and keeps the padding zero |
| Bitsets.Bitset.SetBit | dytan/bitset.cpp:103-107 | adds exactly that mark and keeps the padding zero |
| Bitsets.Bitset.SetBits | dytan/bitset.cpp:109-113 | copying into a set that may be wider gives the source's marks plus only those old marks that lie beyond the source's last word |
| Bitsets.Bitset.TestBit | dytan/bitset.cpp:115-119 | true iff the position is a mark |
| Bitsets.Bitset.ToggleBit | dytan/bitset.cpp:121-130 | flips that mark and no other |
| Bitsets.Bitset.Union | dytan/bitset.cpp:132-139 | the word loop computes set union, also if both operands are the same set |
| Bitsets.Bitset.Intersection | dytan/bitset.cpp:154-161 | the word loop computes set intersection |
| Bitsets.Bitset.Difference | dytan/bitset.cpp:163-170 | the word loop computes set difference |
| Bitsets.Bitset.SymmetricDifference | dytan/bitset.cpp:172-179 | the word loop computes symmetric difference |
| Bitsets.Bitset.Equal | dytan/bitset.cpp:181-192 | true iff same width and same marks |
| Bitsets.Bitset.IsSubset | dytan/bitset.cpp:194-203 | true iff every mark of the second set is in the first |
| Bitsets.Bitset.IsEmpty | dytan/bitset.cpp:205-212 | true iff there is no mark |
| Bitsets.Bitset.Population | dytan/bitset.cpp:214-223 | the number of marks |
| Bitsets.Bitset.Str | dytan/bitset.cpp:233-248 | a text of the set's width whose character p is '1' iff p is a mark |
| TaintStores.TaintStore.constructor | dytan/dytan.cpp:64-71 | an empty store with eight distinct scratch sets |
| TaintStores.TaintStore.ClearTaintSet | dytan/dytan.cpp:114-117 | makes the step ClearSet |
| TaintStores.TaintStore.TaintForRegister | dytan/dytan.cpp:120-134 | makes the step LoadReg: the scratch set gets the register's marks, or none if it has no entry |
| TaintStores.TaintStore.TaintForMemory | dytan/dytan.cpp:160-311 | makes the step LoadMem: union over the bytes and the registers that address them |
| TaintStores.TaintStore.SetTaintForRegister | dytan/dytan.cpp:317-660 | makes the step SetReg: the register and its listed parts get the union of the arguments and of control, nothing else changes, and all bitsets stay distinct and of one width; stack and frame pointer are skipped |
| TaintStores.TaintStore.ClearTaintForRegister | dytan/dytan.cpp:663-1025 | makes the step ClearReg: only entries that exist change, and they get control's marks |
| TaintStores.TaintStore.SetTaintForMemory | dytan/dytan.cpp:1030-1153 | makes the step SetMem: exactly the bytes of the range |
| TaintStores.TaintStore.ClearTaintForMemory | dytan/dytan.cpp:1156-1249 | makes the step ClearMem |
| TaintStores.TaintStore.PushControl | dytan/dytan.cpp:1253-1269 | makes the step PushControl: nothing without tainted flags, else the branch's marks grow by those of the flags |
| TaintStores.TaintStore.PopControl | dytan/dytan.cpp:1292-1326 | makes the step PopControl, stopping at the first branch that is not active |
| TaintStores.TaintStore.SetNewTaintForMemory | dytan/dytan.cpp:1452-1492 | false exactly on an illegal mark; else every byte of the range gets the mark in a bitset of its own |
| TaintStores.TaintStore.ClearTagsForByteRange | dytan/replace_functions.cpp:199-217 | terminates, and erases exactly the maximal run of tagged bytes from its address |
| TaintStores.TaintStore.PerformAll | dytan/dytan.cpp:114-1326 | over every sequence of calls the store goes through exactly the states of the pure run, up to the first illegal mark |
| TaintRuns.MarksAreIndependent | dytan/dytan.cpp:317-660 | for every sequence of data-flow calls, running on the restriction to any set of marks is restricting the run |
| TaintRuns.RunsDistribute | dytan/dytan.cpp:160-311 | for every sequence of data-flow calls, the run of the union of two states with the same entries is the union of the runs |
| TaintRuns.PushRestricted | dytan/dytan.cpp:1262-1268 | exactly when pushing a branch commutes with restriction: unless the flags are tainted, with none of the marks kept, and the branch is not active |
| TaintRuns.PopRestricted | dytan/dytan.cpp:1307-1326 | popping always commutes with restriction |
| TaintRuns.OnlyTargetsChange | dytan/dytan.cpp:381-630 | a call changes only the places it writes, and branches that it pops |
| TaintRuns.PartsApart | dytan/dytan.cpp:395-620 | registers of which neither lies within the other, bit by bit, share no place that a store reaches |
| RegisterBits.PartsAreWithin | dytan/dytan.cpp:388-620 | the lists of parts: q is listed for r if and only if it is another register whose bits all lie within r's, with the bit ranges of the sixteen general registers given on their own |
| TaintRuns.StoreReachesParts | dytan/dytan.cpp:395-630 | after a store to any register but ESP and EBP, it and every register whose bits lie within it read as what was stored, every other register as before, also one that the written register is a part of |
| CallEffects.SetRegEffect | dytan/dytan.cpp:317-660 | mark by mark: a register other than ESP and EBP, and what lies within it, carry exactly the marks of the arguments and of active branches; every other place is as before |
| CallEffects.ClearRegEffect | dytan/dytan.cpp:663-1025 | the same for clearing: only places with an entry, and exactly the marks of active branches |
| CallEffects.SetMemEffect | dytan/dytan.cpp:1030-1153 | exactly the bytes of the range carry exactly the marks of the arguments and of active branches |
| CallEffects.ClearMemEffect | dytan/dytan.cpp:1156-1249 | exactly the bytes of the range that have an entry carry exactly the marks of active branches |
| CallEffects.LoadRegEffect | dytan/dytan.cpp:120-134 | the scratch set carries exactly the register's marks |
| CallEffects.LoadMemEffect | dytan/dytan.cpp:160-311 | the scratch set carries exactly the marks of the bytes and of the valid base and index registers |
| CallEffects.ClearSetEffect | dytan/dytan.cpp:114-117 | the scratch set carries no mark, and no other place changes |
| CallEffects.NewTaintEffect | dytan/dytan.cpp:1452-1492 | exactly the bytes of the range carry exactly the mark |
| CallEffects.PushControlEffect | dytan/dytan.cpp:1253-1269 | with marks in the flags the branch gains exactly these, else nothing changes anywhere |
| TaintRuns.FrameStaysOut | dytan/dytan.cpp:322-325 | over every run the stack and frame pointers never get an entry |
| TaintRuns.MarksComeFromCalls | dytan/dytan.cpp:1452-1492 | over every run of calls each mark found anywhere was there at the start or came with a call |
| TaintRuns.PopsLongestPrefix | dytan/dytan.cpp:1307-1326 | popping removes exactly the longest prefix of its list whose branches are active and all different |
| TaintRuns.ControlIsHistory | dytan/dytan.cpp:1253-1326 | over every trace of states a branch is active iff it was pushed with tainted flags since it was last removed; its marks are the union of the flags' marks at those pushes and never empty |
| TaintRuns.RunControlIsHistory | dytan/dytan.cpp:1253-1326 | the same for the state that any sequence of calls ends in, which is what the heap store ends in |
| Handlers.RunsSimultaneously | dytan/instrument_functions.c:296-308 | loads into different scratch sets followed by stores of them transfer what was there before the instruction, whatever the stores overwrite |
| Transfers.AdcTransfers | dytan/instrument_functions.c:169-290 | destination and flags get destination, source, flags and control; when the handler gets to its end, and that otherwise nothing visible changes |
| Transfers.AddTransfers | dytan/instrument_functions.c:311-456 | destination and flags get destination, source and control, for every kind of operand |
| Transfers.CmpTransfers | dytan/instrument_functions.c:675-744 | flags alone get both operands and control |
| Transfers.DecTransfers | dytan/instrument_functions.c:914-951 | flags get the operand, which itself keeps its taint |
| Transfers.DivTransfers | dytan/instrument_functions.c:953-1033 | EAX and EDX with their parts get EAX, EDX, source and control; flags that have an entry get control alone; any other width aborts |
| Transfers.IdivTransfers | dytan/instrument_functions.c:1126-1205 | as for DIV, although the operands are loaded in another order |
| Transfers.LeaTransfers | dytan/instrument_functions.c:1360-1385 | the destination gets base and index registers, memory is not read |
| Transfers.MovTransfers | dytan/instrument_functions.c:1397-1479 | the destination gets the source and, in memory, the registers that address it |
| Transfers.MulTransfers | dytan/instrument_functions.c:1649-1723 | EAX, EDX and flags get EAX, source and control |
| Transfers.PopTransfers | dytan/instrument_functions.c:1784-1847 | the destination gets the bytes read, without the registers that address the stack |
| Transfers.PushTransfers | dytan/instrument_functions.c:1871-1916 | the bytes written get the operand and control |
| Transfers.SarTransfers | dytan/instrument_functions.c:1980-2066 | destination and flags get destination and count; a count in memory aborts |
| Transfers.TestTransfers | dytan/instrument_functions.c:2391-2448 | flags alone get both operands; a second operand in memory aborts |
| Transfers.XaddTransfers | dytan/instrument_functions.c:2450-2540 | destination and flags get the union, the source register gets the old destination |
| Transfers.XchgTransfers | dytan/instrument_functions.c:2542-2649 | both operands get the other's old taint; if the second cannot be written, only the first store happens |
| Transfers.XchgSwaps | dytan/instrument_functions.c:2596-2649 | two registers other than ESP and EBP that have no bit in common exchange their taint |
| Transfers.XorTransfers | dytan/instrument_functions.c:2651-2762 | as ADD, but a register with itself is reset to control where it has entries, while the flags still get its old taint |
| Transfers.PushPopRoundTrip | dytan/instrument_functions.c:1784-1916 | pushing r and popping the same bytes into q gives q exactly r's taint with control, if and only if the range is not empty or control covers r |
| Programs.HandlersAreRight | dytan/instrument_functions.c:169-2762 | all modelled handlers against one table of meanings |
| Endings.EmitsEnds | dytan/instrument_functions.c:169-2762 | kind by kind, on the operands: when a handler aborts the program, when it merely bails out, and when it gets to its end |
| OperandCalls.CallsAre | dytan/instrument_functions.c:169-2762 | kind by kind, on the operands: all the calls of a handler that gets to its end, in order, with what each loads, what it stores and whether it is profiled |
| Programs.ProgramsAreRight | dytan/instrument_functions.c:296-308 | for every sequence of instructions and every state, the calls of all handlers before the first instruction whose operands make one abort amount to the instructions' meanings in order; no scratch set carries anything from one to the next |
| Programs.ProgramsKeepMarksApart | dytan/dytan.cpp:317-660 | marks do not influence each other over whole programs |
| Programs.Execute | dytan/dytan.cpp:114-1249 | the heap store, running a program's calls, stops at exactly the first instruction whose operands make its handler abort and ends with the meaning of the program up to there |
| Generators.KthMark | dytan/include/taint_generator.h:62-74 | the k-th later mark is start + ((current - start + k) mod (max - start)) |
| Generators.SameMark | dytan/include/taint_generator.h:62-74 | two draws give the same mark iff they lie a multiple of max - start apart |
| Generators.RestartSeparates | dytan/dytan.cpp:1494-1497 | a fresh generator draws k marks and is restarted: no later mark in any run of draws and restarts is one of them, if and only if k < max - start |
| Generators.DrawsDifferIff | dytan/include/taint_generator.h:62-74 | in every run of draws and restarts from a fresh generator the marks drawn are all different if and only if there are no more of them than max - start |
| Generators.TaintGenerator.NextTaintMark | dytan/include/taint_generator.h:62-74 | returns the current mark and moves on as the value generator does |
| Generators.TaintGenerator.SetNewTaintStart | dytan/dytan.cpp:1494-1497 | the current mark becomes the start |
| TaintWorlds.NoMarkFromNowhere | dytan/dytan.cpp:1452-1492 | over every sequence of analysis calls, taggings, supplied marks, -1 draws, reads of both kinds, untaggings and new starts: each mark found anywhere was returned by the generator or supplied by the user, the marks returned are exactly the generator's in order, and all are below the sets' width |
| TaintWorlds.TagsAlike | dytan/replace_functions.cpp:58-152 | two ranges tagged with one id, whatever happens in between, get the same one mark |
| TaintWorlds.IdKeepsMark | dytan/replace_functions.cpp:90-120 | an id has one mark for the rest of any run |
| TaintWorlds.IdsAgree | dytan/replace_functions.cpp:98-104 | different ids got different draws, whatever else draws in between; without restarts they share a mark iff these lie a multiple of the period apart |
| TaintWorlds.IdsDiffer | dytan/replace_functions.cpp:130-136 | different ids have different marks, restarts included, as long as no more marks were drawn than the generator had left at first |
| TaintSources.Sources.AssignTagToByteRange | dytan/replace_functions.cpp:58-152 | pointer and memory tagging: the bytes get exactly the mark of the id, which is drawn only at its first use |
| TaintWorlds.TagThenClear | dytan/replace_functions.cpp:122-217 | tagging n bytes and clearing at their start gives the state back if and only if neither these bytes nor the one behind them had an entry |
| TaintSources.Sources.ActAll | dytan/replace_functions.cpp:58-217 | every sequence of actions on the heap objects goes through exactly the worlds of the pure machine, up to the first illegal mark |
| TaintSources.Sources.SetNewTaintForMemory | dytan/dytan.cpp:1452-1492 | -1 draws the next mark, any other legal number is used as it is, illegal ones abort |
| TaintWorlds.SupplyHolds | dytan/dytan.cpp:1452-1492 | the bytes of the range hold exactly the supplied mark, or for -1 the one mark drawn, and no other place changes |
| TaintWorlds.TagDraws | dytan/replace_functions.cpp:90-120 | the first use of an id draws one mark for it, any other use draws none |
| TaintWorlds.UntagHolds | dytan/replace_functions.cpp:199-217 | untagging removes a byte's entry if and only if it and all bytes from the start up to it have one |
| TaintWorlds.NewStartHolds | dytan/dytan.cpp:1494-1497 | a new start changes nothing but the mark that the generator comes back to |
| TaintSources.Sources.ReadPerByte | dytan/taint_source_path.cpp:96-121 | a read with positive result gives byte i the i-th next mark, and changes nothing otherwise |
| TaintWorlds.PaintedAt | dytan/taint_source_path.cpp:115-120 | byte i of such a read holds exactly the i-th mark that the generator returned for it |
| TaintWorlds.BytesAgree | dytan/taint_source_path.cpp:115-120 | after such a read every byte has one mark, and bytes i and j share it iff i and j are congruent modulo max - start |
| TaintWorlds.PaintedElsewhere | dytan/taint_source_path.cpp:115-120 | a read changes only the bytes of its buffer |
| TaintWorlds.ReadBytesHolds | dytan/taint_source_path.cpp:96-121 | a per-byte read that returned data draws one mark per byte, byte i holds exactly the i-th next one, and nothing else changes; else nothing changes at all |
| TaintSources.Sources.ReadPerRead | dytan/taint_source_path.cpp:142-166 | a read with positive result gives all its bytes the one next mark |
| TaintWorlds.ReadOnceHolds | dytan/taint_source_path.cpp:142-166 | a per-read read that returned data draws exactly one mark, every byte of the buffer holds exactly this one, and nothing else changes; else nothing changes at all |
| ProfilingKeys.KeyIsExact | dytan/dytan.cpp:366-379 | a key determines the ordered list of mark sets and the opcode, if the opcodes have no more digits than there are marks |
| ProfilingKeys.KeyReads | dytan/dytan.cpp:366-379 | block i of a key has '1' exactly at the marks of set i, and the digits behind the blocks have the opcode as their value |
| ProfilingKeys.ReadableIffShort | dytan/dytan.cpp:132-134 | keys with opcodes up to a bound can all be told apart if and only if the bound has no more digits than there are marks |
| ProfilingKeys.TooLongIsAmbiguous | dytan/dytan.cpp:366-379 | the smallest opcode that is too long gives the same key as another list with opcode 0 |
| ProfilingKeys.Profiler.Print | dytan/dytan.cpp:132-134 | appends the set's text to the pending key |
| ProfilingKeys.Profiler.Record | dytan/dytan.cpp:366-379 | counts the pending key with its opcode and starts a new one; profilingMap stays the histogram of all keys counted |
| ProfiledStores.ProfiledStore.SetTaintForRegister | dytan/dytan.cpp:317-379 | the store returns before it prints or records for the stack and frame pointer; else it prints the control sets, counts the key, and makes the step SetReg |
| ProfiledStores.ProfiledStore.PerformAll | dytan/dytan.cpp:120-1202 | over any run of calls the pending texts and the keys counted are exactly those of the pure profile of that run, and the counts add up to the number of profiled set and clear calls that were not skipped |
| ProfiledPrograms.KeysAreOwnIff | dytan/dytan.cpp:366-379 | over every program: the first key that an instruction records lists just its own operand and control sets if and only if no earlier instruction left texts behind since the last one that recorded; its other keys always do |
| RecordedKinds.RecordsIff | dytan/instrument_functions.c:169-2762 | for every modelled kind of instruction, the exact condition on its operands under which it records a key |
| RecordedKinds.LeaksIff | dytan/dytan.cpp:322-325 | an instruction leaves texts behind if and only if its operands keep it from recording and one of its loads finds something to print |
| RecordedKinds.ProfileIs | dytan/dytan.cpp:347-379 | a profiled store that is not skipped counts the sets pending followed by control's and empties the stream; a load adds what it prints; no other call does anything |
| PrintedSets.LoadMemPrints | dytan/dytan.cpp:185-245 | a load from memory prints the sets of exactly its bytes that have entries, in ascending order, with words only those that begin one, then the entry of the base register, then that of the index register |
| PrintedSets.ControlShownAre | dytan/dytan.cpp:347-359 | control's sets are those of all active branches, by ascending address |
| ProfiledPrograms.StackPointerLeaks | dytan/dytan.cpp:322-325 | after an ADD to the stack pointer the key of the next ADD lists the sets of both |
| ProfilingKeys.CountsAreExact | dytan/dytan.cpp:695-708 | with short opcodes the count of a key is the number of times just that list and opcode occurred |
| SyscallMonitors.SyscallMonitor.BeginSyscall | dytan/include/syscall_monitor.H:87-97 | the thread's pending arguments are those of its latest begin |
| SyscallMonitors.SyscallMonitor.EndSyscall | dytan/include/syscall_monitor.H:99-118 | calls each observer registered for the call once, in order, or else the default, with the latest begin's arguments completed by result and error |
| SyscallMonitors.SyscallMonitor.HandleAll | dytan/include/syscall_monitor.H:87-118 | for every interleaving of threads the observers hear exactly what the history calls for |
| SyscallMonitors.DueIs | dytan/include/syscall_monitor.H:99-118 | by positions in the history: at an end there is, in order, one delivery for each earlier AddObserver of that number; without any, one to the default set last, if one was set; with the thread's latest arguments, result and error |
| SyscallMonitors.DueInOrder | dytan/include/syscall_monitor.H:87-118 | events deliver in their order, and only ends deliver |
| SyscallMonitors.LatestIsLast | dytan/include/syscall_monitor.H:92-102 | the arguments delivered are those of the thread's last begin, or zeros if it began nothing |
| SyscallMonitors.OtherThreadsDoNotMatter | dytan/include/syscall_monitor.H:92-102 | events of other threads do not change what a thread's end delivers |
| PathMonitors.PathMonitor.OpenCallback | dytan/monitor_path.cpp:145-154 | only a successful open enters the descriptor table |
| PathMonitors.PathMonitor.CloseCallback | dytan/monitor_path.cpp:160-169 | only a successful close removes from it |
| PathMonitors.OpenAsIff | dytan/monitor_path.cpp:92-100 | by positions in the history: a descriptor is open as a path if and only if a successful open of the path returned it, after which no successful open returned it and no successful close closed it |
| PathMonitors.CalledAre | dytan/monitor_path.cpp:107-137 | by positions in the history: all callbacks of the path in order, else the one registered last for all files, else the default; nobody for a descriptor that is not open |
| PathMonitors.LastHeardDecides | dytan/taint_source_path.cpp:96-166 | if several are called for one read, the bytes hold what the last one puts there, one mark for all or one for each, and the marks drawn add up over all of them |
| PathMonitors.PathMonitor.NotifyForRead | dytan/monitor_path.cpp:107-137 | runs the tainters of a read on memory and generator: the path's observers in order, else the one for all, else the default |
| PathMonitors.PathMonitor.ReadCallback | dytan/monitor_path.cpp:174-184 | a read acts on memory and generator exactly as the history of opens, closes and registrations calls for, and does nothing for a descriptor that is not open |
| PathMonitors.ReadTaintsIff | dytan/monitor_path.cpp:107-184 | after any history: if the read returned data, its descriptor's latest successful open was not closed since, and the path is observed, or everything is with a callback, then each byte of the buffer holds one mark drawn for this read; otherwise memory and generator are unchanged |
| PathSources.PathSource.HandleAll | dytan/monitor_path.cpp:72-184 | for every interleaving of begins and ends of system calls, the file table and taint follow the calls as their threads began them |
| PathSources.EndOfRead | dytan/monitor_path.cpp:174-184 | at the end of a system call the buffer is newly marked if its thread had begun a read, that returned data, and the file is open and observed; at no other end or begin does memory or generator change |
| PathSources.FileIsOpenIff | dytan/monitor_path.cpp:145-169 | for every interleaving of the threads: a descriptor is open as a path if and only if an open of the path ended by returning it, and since then no open that ended returned it and no close of it ended with success |
| PathSources.LatestSeen | dytan/include/syscall_monitor.H:87-102 | at the end of a call its thread's last begin says what it was and with which arguments |

## Left out

- Exact immediate post-dominators: the one-pass search does not establish them. SearchExamples.ChainsCanBeTooLong shows a case, and RoutineChains.ChainsOfRoutine says exactly when its chains are the post-dominators.
- PostDominance.TwoMeetingsCover: says nothing of graphs in which a block has three or more successors, since no routine has such a block.
- immediatelyPostDominated: updated as in the source, but nothing is claimed about it, since a re-parenting erases from the wrong block (dytan/include/BasicBlock.H:261).
- endingAddress, isEntry, routineCalled, body and allBlocks: read by printers only.
- ControlFlow.StepsAreEdges: leaves out the step of a first instruction that transfers control, because BlockBuilder never looks whether the first one branches (dytan/include/RoutineGraph.H:163-180); ControlFlow.FirstStepIffLinked says when that step is covered.
- The deprecated dominance tree: unused, and it relies on fields that are never set.
- ControlCalls.Controlflow: routines of shared libraries, which get no calls, and the order in which one pop lists its branches are not modelled. Conditional branches are the direct ones that fall through.
- CMOVcc, CMPXCHG on memory, IMUL with more than one operand, SHLD and POPFD: their handlers do not do what their comments say.
- The other handlers (string, floating point, shifts like SAR, logic like XOR, and INC, which calls the one for DEC): they would repeat the same shapes.
- Trace, profiling-mark and assignment logs: output only.
- Freeing bitsets: memory is not reclaimed, a freed bitset is just no longer stored anywhere.
- ConstantTaintGenerator, which always returns one mark, and the choice of generator from the configuration.
- PathSources.PathSource: one path monitor for one system call monitor. The configuration can ask for several path sources, each with a table and callbacks of its own on the same system call monitor.
- Network monitor, network and function sources, configuration parser, IMA instrumentation, penumbra.cpp: plumbing, or an older duplicate.
- bitset_union_n and bitset_print: one calls bitset_union in a loop, the other prints.
