# uiCA, modelled in Dafny

uiCA predicts how many cycles one iteration of a basic block takes on recent Intel microarchitectures. It does so in two
ways: analytically, as the largest of several bounds, and by simulating the pipeline cycle by cycle. Both exist in Python
and in Rust, and the Rust version reads its instruction data from a binary file format, UIPack. This project models the
algorithms behind all three, in the form the code gives them (classes that change their fields, loops, recursive
functions), and proves what they are for.

**The dependency bound.** From the instructions of a loop a latency graph is built; the bound is the largest ratio of
latency to iterations over its cycles. `LatencyGraphSpec` says from the program alone which edges the graph must have and
what each costs, and `LatencyCorrections` when a latency is a cycle shorter or longer than in the table;
`LatencyGraphBuilder` builds exactly that graph. Its strongly connected components are found by two
versions of Tarjan's algorithm (`ExplicitTarjan`, `RecursiveTarjan`, both on the invariant of `TarjanSearch`), its largest
ratio by enumeration (`CycleEnumeration`) or by policy iteration (`PolicyEvaluation`, `PolicyPhase`, `PolicyIteration`).
`MaximumLatency` and `DependencyBound` put the parts together: the exact bound is the maximum over all closed walks, the
approximate one is never above it and falls short of it by at most the tolerance for each operand read. `AbstractValues`
is the symbolic evaluator that decides which memory operands have the same address; `AddressSoundness` gives the
instructions a semantics of their own, register widths included, and shows for which instruction forms its decisions are
right; `OrdinaryForms` shows it of the 64-bit moves, additions and subtractions that they are meant for.

**The other bounds.** `PortUsage` proves that no assignment of uops to ports beats the port bound, `PortAssignment` that
the best assignment attains the largest density of any set of ports (Hall's theorem with fractions), and `PortFamilies`
says exactly for which port sets the bound, which looks at pairs of sets only, is that optimum (`PortScaling` reduces the
numbers of uops to whole ones). `DecodeLimit` proves that
the period found by the decoder bound repeats for ever, and `DecoderGroups` that the simulated decoders need exactly that
many cycles. `PredecodeLimit` and `PredecodeCounts` do the predecoder bound.

**The pipeline.** The front end: cache blocks (`CacheBlocks`), predecoder, decoders, microcode sequencer (`MitePath`),
decoded stream buffer (`DsbPacking`, `Dsb`, with the blocks that fill it in `DsbPath`) and the grouping of uops
(`UopGrouping`); on either path every uop leaves it once and in program order. `DecoderStops`, `PredecoderTiming` and
`DsbBlocks` say what the decoders take, how long prefixes delay a block and which instructions share one. The renamer: renaming is a refinement of the sequential execution on values (`Renaming`), move elimination
counts the users of shared operands exactly (`MultiUse`) and never takes more slots than there are (`MoveElimination`),
and the class `Renamer` keeps both over whole runs; `SharedOperands` says which operands count as shared. The back end: the uops' table of events (`Uops`, `UopSteps`), the
scheduler, in which every uop is a token in exactly one place (`SchedulerTokens` to `Scheduler`), the reorder buffer, and
both together (`BackEnd`). `SchedulerTiming` says when and from where a uop is dispatched and finished, and
`SchedulerRuns` what fences, throughputs, the divider and port 4 come to over whole runs. `BackEndRuns` and `BackEndProgress` show that the back end never gets stuck: in every infinite
run of a program each issued uop is executed and retires, past ports, operands, fences, store forwarding, busy resources
and the uops before it. `RenamedProgram` derives from the renaming alone what the back end counts on, the order of
dependences and of store buffer entries, and `Core` joins renamer and back end, so that the same holds of every run on a
program; `StoreForwarding` says which store a load reads. `LatencySplit` splits an instruction's latency table into uops,
and `LatencyPaths` says what becomes of each latency.

**UIPack.** `StringTable`, `Fields`, `Blobs`, `PackHeader`, `PackRecords`, `PortLists` and `PackFile` specify writing and
reading; `BlobWriter`, `BlobCursor`, `PackWriter`, `PackEncoder` and `PackReader` are the writer and the reader as the
code has them and compute just that; `BlobLayout`, `PackLayout` and `FileLayout` say where every field lies in the bytes
and `BlobReading` which blobs are refused; `PackRoundTrip` proves that reading gives back what was written, `PackHeader` that a
file in which one byte is changed is refused, and `PackIndex` that the two ways to index a file agree, by
the names that `Mnemonics` writes out.

A state-changing method is proved against a specification function or predicate, and the properties of that specification
are lemmas. Numbers that the code keeps in floating point are `real` here. Ghost fields and ghost out-parameters record
what a run has done so far.

## Model

| member | source | states |
|---|---|---|
| LatencyGraphBuilder.GenerateLatencyGraph | rust/uica-core/src/analytical.rs:407-557 | For every list of instructions the graph built has exactly the edges of the loop, each with its cost and the iterations it takes, and the nodes are the operands read, instruction by instruction. |
| LatencyGraphSpec.NamedEdges | rust/uica-core/src/analytical.rs:407-557 | Which edges lead into a register or flag operand and what each costs, in terms of the program and its latency table alone: from each input of the last writer before it in the same iteration, or else of the last writer in the one before; it costs the table's latency for that pair, one cycle less for an address of a fast load, one more from an explicit use of the stack pointer to the same instruction an iteration later if the stack pointer was changed implicitly, and nothing for a move that may be eliminated; pairs without a latency have no edge. Both directions. |
| LatencyGraphSpec.MemoryEdges | rust/uica-core/src/analytical.rs:465-543 | The same for edges into memory operands: nothing from a register or flag or for a move that may be eliminated; from a memory operand the table's latency, one cycle less for a fast load. |
| LatencyCorrections.FastSaves | rust/uica-core/src/analytical.rs:490-521 | With and without fast pointer chasing a loop has the same edges, but those from an address of a fast load to what it loads cost exactly one cycle less with it, or two where the correction for the stack pointer would otherwise apply, which it replaces. |
| LatencyCorrections.StackPointerAddsOne | rust/uica-core/src/analytical.rs:510-520 | An explicit use of the stack pointer by the instruction that wrote it an iteration before costs exactly one cycle more if the stack pointer was last changed implicitly, and its latency otherwise. |
| LatencyCorrections.RspChangedExactly | rust/uica-core/src/analytical.rs:436-443 | The stack pointer counts as changed implicitly exactly if the last instruction that does anything with it, in the same iteration or else in the one before, changes it implicitly. |
| LatencyCorrections.ChasedExactly | rust/uica-core/src/analytical.rs:559-604 | A load is fast exactly if its displacement is between 0 and 2047, its base was really written by one of six kinds of load and by no 32-bit move on the way, and its index, if any, by an instruction without uops. |
| LatencyCorrections.WriterExactly | rust/uica-core/src/analytical.rs:606-629 | The instruction that really wrote a value is the end of the path through the moves that may be eliminated, exactly if that path does not run into itself or out of the program. |
| LatencyCorrections.MovesExactly | rust/uica-core/src/analytical.rs:631-651 | The path goes on from a move with the instruction that wrote the move's input last, in the same iteration or else in the one before. |
| LatencyGraphSpec.ReadIsRemembered | rust/uica-core/src/analytical.rs:465-543 | What an operand reads, memory operands included, is the last write under its key, and a write read in the same iteration comes from an earlier instruction. |
| LatencyGraphSpec.LoopEdgesSound | rust/uica-core/src/analytical.rs:407-557 | Every edge starts at an input of a producer, costs nothing or more, and stays within an iteration only if it goes forward in the program. |
| DependencyBound.LoopTakesTime | rust/uica-core/src/analytical.rs:653-681 | Every closed walk of the latency graph of any loop crosses an iteration boundary, so that all the ratios exist. |
| DependencyBound.ExactBound | rust/uica-core/src/analytical.rs:653-681 | For every loop the reported ratio is the largest ratio of a closed walk of its latency graph, and the reported edges are such a walk unless the ratio is zero. |
| DependencyBound.ApproximateBound | facile.py:242-363 | For every loop the reported ratio is that of a closed walk of the same graph, and no closed walk exceeds it by more than the tolerance for each of its edges. |
| DependencyBound.BoundsCompare | facile.py:293-363 | The ratio of policy iteration is at most the exact one and falls short of it by at most the tolerance times the number of operands that the loop reads. |
| DependencyBound.ExactBoundUnique | rust/uica-core/src/analytical.rs:653-681 | The exact bound does not depend on the order of the search: two results for one loop are equal. |
| CycleEnumeration.MaximumCycleRatio | rust/uica-core/src/analytical.rs:769-799 | The enumeration ends, reports the ratio of a closed walk, and no closed walk over the edges has a larger ratio, although walks longer than the component are cut off. |
| PolicyEvaluation.FindRatio | facile.py:294-318 | Evaluating a policy finds the best ratio of its cycles, and a node of the cycle that attains it. |
| PolicyIteration.MaximumCycleRatio | facile.py:293-349 | Policy iteration ends on every strongly connected part with its result the ratio of a closed walk, and no closed walk better by more than a tolerance for each of its edges. |
| ExplicitTarjan.FindStronglyConnectedComponents | facile.py:244-290 | The search with an explicit call stack lists every reachable node once, grouped by mutual reachability. |
| RecursiveTarjan.FindStronglyConnectedComponents | rust/uica-core/src/analytical.rs:687-767 | So does the recursive search. |
| MaximumLatency.ComputeMaximumLatency | rust/uica-core/src/analytical.rs:653-681 | On any graph, the largest ratio over its components is the largest of all its closed walks. |
| MaximumLatency.ApproximateMaximumLatency | facile.py:351-363 | The same for the search by policy iteration, within the tolerance. |
| AbstractValues.AbstractValueGenerator.GetForReg | utils.py:24-34 | The value of a register: looked up, or fresh according to the policy for initial values. |
| AbstractValues.AbstractValueGenerator.SetForCurrentInstr | utils.py:36-59 | The value an instruction leaves in an output, held back until the instruction ends; what the machine does in the forms it is meant for is `OrdinaryForms`. |
| OrdinaryForms.OrdinaryTaken | utils.py:36-59 | The 64-bit move, addition and subtraction of an immediate, increment and decrement, each by its machine operation, are taken for just what they do: n is added for ADD, taken off for SUB, one for INC and DEC. |
| OrdinaryForms.OrdinaryKeysSound | utils.py:11-59 | So over these forms, with any other instruction that writes a register anew, equal abstract addresses are equal addresses at every point of every run. |
| OrdinaryForms.SubThenAdd | utils.py:50-53 | Subtracting an amount and adding it again gives the old abstract value back. |
| OrdinaryForms.InitialValues | utils.py:24-34 | What the initial value of a register is under each policy. |
| AddressSoundness.EqualKeysMeanEqualAddresses | utils.py:11-59 | For instruction forms that write all 64 bits of what the generator takes them to write: at every point of every run, from every initial state that fits the policy, operands with equal abstract addresses have equal addresses. |
| AddressSoundness.KeysSoundExactly | utils.py:36-59 | For every set of instruction forms in which each form either shows by itself what it does or comes with a 64-bit move, a 64-bit increment and the 64-bit addition that it is taken for: equal abstract addresses mean equal addresses in all runs if and only if every form does what it is taken to do. Forms taken for copies, and all others that are not taken for additions, show it by themselves. |
| AddressSoundness.CopyBreaksKeys | utils.py:36-59 | A form that is taken for a copy and is none (zero-extended, sign-extended, only part of the register or anything else) lets equal abstract addresses stand for different ones, whatever other forms there are. |
| AddressSoundness.DifferencesSoundExactly | utils.py:36-59 | Registers differ by the difference of their abstract offsets in all runs if and only if every form does what it is taken to do: for any forms whose output may differ from their input, unless all registers are taken to be equal at first, and otherwise next to a 64-bit move and a 64-bit increment. |
| AddressSoundness.NarrowMoveBreaksKeys | utils.py:36-59 | A 32-bit move, which the generator takes for a copy, is not such a form: under every policy and with any other forms, a single one of them (MOV EAX, ESP) makes equal abstract addresses stand for different ones. |
| PortUsage.ComputePortUsageLimit | rust/uica-core/src/analytical.rs:81-123 | The reported number is the largest density of the union of two of the occurring port sets, or zero. |
| PortUsage.NoAssignmentBeatsLimit | facile.py:17-35 | However the uops are divided among their ports, some port receives at least as many as the limit says. |
| PortUsage.LimitReordered | facile.py:17-35 | The limit does not depend on the order of the instructions (that entries with equal ports may be merged is part of `ComputePortUsageLimit`). |
| PortAssignment.BestAssignment | facile.py:17-35 | Some division of the uops among their ports loads no port with more than the largest density of any set of ports. |
| PortAssignment.NoBetterAssignment | facile.py:17-35 | And every division loads some port with at least that. |
| PortFamilies.OptimalExactly | facile.py:30-35 | For given port sets the limit is the largest density of any set of ports for all numbers of uops if and only if the union of any sets linked by shared ports is the union of at most two of the sets; and for all whole numbers of uops under the same condition and only then. |
| PortFamilies.AttainedExactly | facile.py:30-35 | For given port sets some division attains the limit for all numbers of uops, or for all whole ones, under the same condition, and only then. |
| PortFamilies.ThreeSetsMissed | facile.py:30-35 | An instance: with the port sets 01, 02 and 03 the limit lies below the optimum for some whole numbers of uops. |
| DecodeLimit.ComputeDecoderLimit | rust/uica-core/src/analytical.rs:145-204 | The reported rate is that of a period, the stretch between two rounds that begin with the same decoder, and it is found whenever the rounds allowed exceed what one group can take. |
| DecodeLimit.RateIsExact | facile.py:85-117 | The period repeats for ever: each later stretch of the same length has as many decoding groups. |
| DecodeLimit.RateUnique | facile.py:85-117 | Whichever repeated starting decoder is found, the rate is the same: all periods of a run have one rate. |
| DecodeLimit.AtLeastSimpleLimit | facile.py:119-122 | With four decoders the rate is at least the simple bound: a quarter of the instructions, and the number that need the complex decoder. |
| Decoder.Decoders.Cycle | rust/uica-core/src/sim/decoder.rs:49-138 | A cycle of the decoders takes exactly the front of the queue that its limits allow, and leaves the rest. |
| DecoderStops.TakenExactly | uiCA.py:911-967 | A cycle of the decoders takes the instructions up to the first reason to stop: one that is not predecoded, that needs the complex decoder and is not first, that could fuse with a successor not yet there or in the last decoder, or the end of a group by microcode, branch, fusion or no decoder left. |
| DecoderGroups.CycleTakesGroup | uiCA.py:916-967 | On a ready queue a cycle decodes exactly one of the groups that the analytical bound counts. |
| DecoderGroups.DecodeCycles | uiCA.py:916-967 | So n cycles of the decoders decode n groups, in program order. |
| DecoderGroups.CyclesPerPeriod | facile.py:85-117 | From the period on, the simulated decoders decode a period's instructions in the number of cycles that the analytical bound counts for it, for bodies in which every instruction that does not end a group by itself leaves no more simple decoders available than there are and, if it uses microcode, goes to the complex decoder and leaves none. |
| DecoderGroups.UntameMiscounts | facile.py:85-117 | Each other instruction is part of a body for which the two differ: the bound reports one cycle an iteration, the decoders take two. |
| DecoderGroups.BoundExactly | facile.py:85-117 | For every set of instructions that has the plain one and the branch: bound and decoders agree on the cycles an iteration of every body made of them if and only if all of them are as `CyclesPerPeriod` asks. |
| DecoderGroups.CyclesOfDecoders | uiCA.py:916-967 | For any body, the cycles of the simulated decoders are those of the bound for the same body with simple decoders and microcode counted as the decoders do. |
| PredecodeLimit.ComputePredecLimit | facile.py:46-78 | The limit counts exactly the instructions that end in, or cross out of, each 16-byte block of the unrolled code. |
| PredecodeLimit.UnrolledCycles | facile.py:46-78 | Unrolled to whole blocks, every copy of every instruction is counted in exactly one block, and the predecoder needs a cycle for each block and for each five instructions. |
| PredecodeLimit.AtLeastSimple | facile.py:80-82 | The limit is at least the simple one, a sixteenth of the code's length and a fifth of its instructions. |
| PredecodeCounts.UnrolledLeast | facile.py:46-51 | Straight code is unrolled as often as it takes to fill whole 16-byte blocks, and no more often. |
| PredecodeCounts.BaseExactly | facile.py:54-55 | The first instruction lies at most 15 bytes before the first block, at the alignment of the code. |
| PredecodeCounts.CountsExactly | facile.py:56-71 | What is counted for a block: the instances that end in it, those whose opcode begins in it and that end elsewhere, and those whose opcode begins in it and that have a length-changing prefix. |
| PredecodeCounts.CyclesExactly | facile.py:73-78 | The cycles are the sum over the blocks of a cycle for each five instructions and three for each prefix, less what the block before hides, where the last block comes before the first. |
| CacheBlocks.CacheBlockGenerator.Next | rust/uica-core/src/sim/cache_blocks.rs:77-114 | Each block of an unrolled program is the next stretch of the program, all in one cache line, up to the first instruction after which the next one is in another line. |
| CacheBlocks.SplitKeepsOrder | rust/uica-core/src/sim/cache_blocks.rs:10-48 | The parts of a block, joined, are the block. |
| Predecoder.PreDecoder.Cycle | rust/uica-core/src/sim/predecoder.rs:42-130 | A cycle of the predecoder is exactly one step of its specification, and what is in blocks, set aside or in the queue stays the same stretch of the program. |
| PredecoderTiming.BlockDelayed | uiCA.py:998-1046 | The instructions at the front of a block leave the predecoder exactly so many cycles after the block is begun: three for each length-changing prefix in it, less the cycles after the first that the block before took; and they are as many as the width allows, up to the first that does not end in the block. |
| PredecoderTiming.FillsCounted | uiCA.py:1012-1038 | Each cycle that takes instructions of a block counts for it, from one on. |
| PredecoderTiming.LeftExactly | uiCA.py:1024-1036 | What is left of the block stays, and an instruction left alone that ends in the next block is set aside unless the width is used up and its opcode still lies in this one. |
| MitePath.FrontEnd.Cycle | uiCA.py:628-682 | A cycle of the legacy decode path adds exactly the next uops of the program: from the microcode sequencer if it is busy, and otherwise those of the group that the decoders take after the predecoder's step. |
| MitePath.MicrocodeSequencer.Cycle | rust/uica-core/src/sim/ms.rs:27-41 | Up to four uops leave the sequencer in order, none while it is stalled. |
| DsbPacking.GetDsbBlocks | rust/uica-core/src/sim/dsb.rs:170-258 | Instructions go into the last block while it has room for all that they need; for instructions that fit a block no block takes more than six slots or anything after microcode, and the uops stay in order. |
| DsbBlocks.BlockBegins | rust/uica-core/src/sim/dsb.rs:178-202 | An instruction begins a block exactly if it needs microcode, comes after microcode, or does not fit into what the instructions of the last block leave of six slots. |
| DsbBlocks.EntriesExactly | rust/uica-core/src/sim/dsb.rs:204-245 | What each entry of an instruction is: its slot, its uop, the microcode uops that come with the last of them, and the second slot of a large immediate. |
| Dsb.Dsb.Cycle | rust/uica-core/src/sim/dsb.rs:47-166 | A cycle of the buffer delivers the entries up to the first position in the first two blocks at which it has to stop, for one of the stated reasons, and at most as many as its width. |
| Dsb.BudgetExactly | rust/uica-core/src/sim/dsb.rs:113-160 | How many uops a cycle may deliver in all once its first block has delivered so many: a table for a block that was begun in the cycle, the rule for the end of a decode group, none in the same 32-byte line, and the whole width otherwise. |
| Dsb.SecondBlockExactly | uiCA.py:800-817 | With slots left, the second block is begun exactly if it does not end in microcode and is of the next instruction in memory, or the last instruction delivered ends a decode group. |
| Dsb.StopsOnce | uiCA.py:792-872 | There is only one position at which a cycle first has to stop. |
| Dsb.NothingLost | rust/uica-core/src/sim/dsb.rs:47-166 | What is delivered, what goes to the microcode sequencer and what stays are the uops of the queue, in order. |
| Dsb.Progresses | rust/uica-core/src/sim/dsb.rs:47-166 | With entries in its queue the buffer delivers something in every cycle. |
| DsbPath.FrontEnd.Cycle | uiCA.py:628-682 | The decoded stream buffer with the blocks that fill it: after every cycle of every run the uops appended to the queue behind it, those still with the microcode sequencer and those still in the buffer are, in this order, the uops of all instructions entered so far. |
| DsbPath.FrontEnd.AddNewCacheBlock | uiCA.py:707-727 | Entering a block packs it behind what is in the buffer and loses no uop. |
| UopGrouping.GenerateUops | uiCA.py:1833-1878 | The uops of an instruction, fused and laminated, are the same uops in order, in as many groups as there are retire slots and decoded uops. |
| UopGrouping.GroupedKeeps | uiCA.py:1833-1878 | Groups are never empty, and all but the last hold one uop or a pair that begins with a memory uop. |
| UopGrouping.FusedExactly | uiCA.py:1842-1853 | Two uops are fused exactly if the first can go to port 2, 3 or 7 and enough uops are left for the other retire slots. |
| UopGrouping.LaminatedExactly | uiCA.py:1855-1873 | And two fused uops are laminated exactly if the first is such a uop alone and enough fused uops are left. |
| UopGrouping.LastTakesTheRest | uiCA.py:1833-1878 | The last group takes more than one uop only if no pair was left apart before it. |
| UopGrouping.DeliveredExactly | uiCA.py:1833-1878 | Decoders and microcode deliver all groups of an instruction, except when it has neither kind of uop. |
| LatencySplit.SplitUops | uiCA.py:1716-1806 | The split of an instruction's latencies into uops is exactly its specification, whatever the table. |
| LatencySplit.WorstKept | uiCA.py:1716-1806 | Every input keeps its largest latency through the chain of uops if and only if the latency levels are no more than the uops. |
| LatencyPaths.PathsExactly | uiCA.py:1745-1806 | The longest path from any input to any output is the largest latency of that output from the inputs with the smallest worst latency, and further the difference of the worst latencies if there are more uops than smaller worst latencies. |
| LatencyPaths.SpareUops | uiCA.py:1790-1803 | Uops for which no inputs are left read all inputs and produce nothing. |
| LatencyPaths.WithoutInputs | uiCA.py:1762-1775 | With no inputs every output takes one cycle. |
| LatencySplit.ProducersFirst | uiCA.py:1716-1806 | A value passed within the instruction is produced by an earlier uop than the one that reads it. |
| LatencySplit.ThreeUopsExact | uiCA.py:1643-1704 | The special split into three uops keeps every latency from every input to every output exactly, and no dependence that is not in the table. |
| Renaming.RenamingRefines | uiCA.py:323-461 | Whatever the uops compute and whichever copying moves are eliminated: after any run every register is renamed to an operand that has the register's value in the sequential execution. |
| Renaming.RunsAgree | uiCA.py:323-461 | From the beginning of a program, for all initial registers, the renamed uops determine such values. |
| Renaming.EliminatedMoveExact | uiCA.py:324-352 | After an eliminated move the registers are right for all initial values if and only if the move copies all of its input. |
| MultiUse.CommitMove | uiCA.py:324-352 | Eliminating a move keeps the users of every shared operand exact. |
| MultiUse.CommitFresh | uiCA.py:437-461 | So does any other instruction, whose written registers leave their old operands. |
| MoveElimination.RecordKeeps | uiCA.py:262-310 | The number of moves eliminated in any window of the pipeline's length never exceeds the slots. |
| MoveElimination.SharedKeeps | uiCA.py:247-310 | In every run, whenever a cycle eliminates a move, its eliminated moves, those of the cycles before it within the pipeline's length and the shared operands recorded that long ago are together no more than the slots. |
| MoveElimination.WindowCounts | uiCA.py:267-276 | The moves of the window are the sum of those of the active cycles before within the pipeline's length. |
| Renamer.Renamer.DecideEliminations | uiCA.py:247-310 | A move is eliminated if and only if the moves of its class eliminated before it in the cycle, those of the previous active cycles within the pipeline's length and the shared operands recorded that length ago are together fewer than the slots. |
| Renamer.Renamer.Cycle | uiCA.py:247-482 | A cycle renames its uops one after the other, eliminates each move if and only if that sum is below the slots, leaves the users of shared operands and their recorded number as specified, and keeps users exact and windows within the slots. |
| SharedOperands.KeptExactly | uiCA.py:312-352 | After a cycle exactly those operands count as shared that some register is renamed to and that counted before or were given to a register by a move eliminated in the cycle; in a cycle that eliminates none, those that counted before need two registers. |
| SharedOperands.RecordedExactly | uiCA.py:465-480 | What is recorded for a cycle is their number. |
| Renamer.Renamer.RegistersAsExecuted | uiCA.py:213-482 | Between any two cycles of any run, every register is renamed to an operand that has the value the register has when all uops so far are executed one instruction after the other. |
| Uops.DataflowRespected | uiCA.py:157-177 | In every run a uop is dispatched only after each uop that it reads from, by at least the latency; the delay after issue has passed; and it is executed two cycles later or more. |
| SchedulerTiming.WrittenExactly | uiCA.py:157-177 | An operand is ready in the first cycle that is its latency after the dispatch of its uop and, for a load from the store buffer, four cycles after address and data of its entry. |
| SchedulerTiming.FinishExactly | uiCA.py:1227-1252 | A uop is finished in the first cycle that is two after its dispatch, not before its results, and after the throughput of its instruction, five cycles for a store address and one for store data. |
| Scheduler.Scheduler.constructor | uiCA.py:1099-1123 | An empty scheduler meets the invariant. |
| Scheduler.Scheduler.AddNewUops | uiCA.py:1340-1462 | New uops are bound to the ports chosen for them and enter the place that their operands call for; port usage and fences are kept. |
| Scheduler.Scheduler.CheckDependingUopsExecuted | uiCA.py:1464-1473 | A uop waits for a producer that has not been executed and whose result time is unknown, or is put among those not ready exactly if all its operands' ready cycles are known. |
| Scheduler.Scheduler.GetReadyForDispatchCycle | uiCA.py:1475-1496 | The cycle in which a uop becomes ready is the first one after the current in which the delay after issue has passed and the operands are ready, a cycle more if these become ready just then or one later; none exactly if some operand's ready cycle is unknown. |
| Scheduler.Scheduler.CheckUopReady | uiCA.py:1281-1338 | A uop becomes ready exactly if neither a fence nor its instruction's throughput holds it and all its operands are known. |
| SchedulerTiming.DispatchExactly | uiCA.py:1475-1496 | That cycle is the first one that is late enough, both directions. |
| SchedulerTiming.HeldExactly | uiCA.py:1281-1316 | Although its operands are known a uop is held back exactly if it begins a busy instruction or a fence whose turn has not come, or is an access after a pending fence. |
| Scheduler.Scheduler.ProcessNonReadyUops | uiCA.py:1269-1274 | The uops are looked at in order, and exactly those become ready and leave the list that neither fences nor busy instructions hold in their turn. |
| Scheduler.Scheduler.DispatchUops | uiCA.py:1144-1225 | Each port dispatches the oldest uop ready on it, or one for the divider when that is free, unless a store-data or 256-bit rule keeps it shut; at most one uop a port. |
| SchedulerTiming.ChosenExactly | uiCA.py:1190-1222 | A uop is dispatched exactly if some port that is not shut dispatches it. |
| SchedulerTiming.ChoiceExactly | uiCA.py:1193-1212 | And a port dispatches exactly the oldest of the uops ready on it, port 0 also of those for the divider when that is free, unless the port is blocked. |
| SchedulerTiming.ShutExactly | uiCA.py:1144-1188 | The ports that are shut are those of the next two rows. |
| SchedulerTiming.StorePortsExactly | uiCA.py:1147-1171 | Of ports 4 and 9 one is shut exactly if the oldest stores on them are known to go to different lines, and it is that of the younger. |
| SchedulerTiming.LoadPortsExactly | uiCA.py:1173-1188 | Of ports 2 and 3 one is shut exactly if 256-bit accesses are slow and one of the oldest loads on them is that wide, and it is that of the younger. |
| Scheduler.Scheduler.ProcessPendingUops | uiCA.py:1227-1256 | The uops whose results have become known are executed, each in the cycle in which it is finished, and wake exactly those that wait for them; those left are the ones whose results are unknown. |
| Scheduler.Scheduler.ProcessPendingFences | uiCA.py:1258-1267 | The oldest fence passes exactly when it has been executed. |
| Scheduler.Scheduler.Cycle | uiCA.py:1128-1142 | A cycle takes exactly the course that the queues and the chosen ports determine, from the uops due, the uop dispatched by each port and what this keeps busy, over the cycles in which uops are finished, to the uops made ready in their turn and the fences passed; and it keeps the invariant of all runs. |
| SchedulerRuns.AccessesWaitForFences | uiCA.py:1281-1316 | In every run of a program a load is dispatched only after every load fence before it has been executed, and a store only after every store fence. |
| SchedulerRuns.ThroughputRespected | uiCA.py:1318-1331 | In every run, after a uop that begins an instruction has become ready, none that begins the same instruction does until the throughput has passed. |
| SchedulerRuns.ThroughputPasses | uiCA.py:1276-1279 | And then the instruction is free again. |
| SchedulerRuns.DividerNext | uiCA.py:1190-1216 | From cycle to cycle the divider stays busy for the cycles of the divisions dispatched, one less each cycle. |
| SchedulerRuns.PortFourNext | uiCA.py:1216-1221 | Port 4 is busy in the cycle after a slow 256-bit store was dispatched on it, and in no other. |
| SchedulerProperties.OnePlace | uiCA.py:1098-1142 | In every state of every run an undispatched uop is in exactly one of the scheduler's queues, and a dispatched one in none. |
| SchedulerProperties.NoLostWakeup | uiCA.py:1464-1473 | A uop that waits for another waits for one that is still to be executed and is in the scheduler or pending, so it will be woken. |
| SchedulerProperties.CalendarAhead | uiCA.py:1312-1323 | Uops in the calendar are due in the cycle recorded for them, which has not passed. |
| SchedulerProperties.NonReadyKnows | uiCA.py:1269-1274 | A uop that is not ready although it waits for none knows the ready cycles of all its operands. |
| ReorderBuffer.ReorderBuffer.Cycle | rust/uica-core/src/sim/reorder_buffer.rs:38-99 | The longest finished front retires, up to the retire width, and new uops join at the end; the retired uops and the buffered ones are the issued ones in order. |
| ReorderBuffer.RetirableExactly | uiCA.py:1072-1088 | As many uops retire as have been executed in an earlier cycle, from the front on, up to the width. |
| ReorderBuffer.FewPerCycle | uiCA.py:1072-1088 | No cycle retires more uops than the retire width, in whole runs. |
| BackEnd.AcceptedExactly | uiCA.py:599-602 | All that is offered is issued if reorder buffer and scheduler both have room for the issue width, and nothing otherwise. |
| BackEnd.BackEnd.Cycle | uiCA.py:597-608 | Reorder buffer and scheduler together: uops are issued exactly if neither is full, the finished front retires, the scheduler takes its course on the uops just issued, and the invariants of both, the buffer's size included, hold again. |
| BackEndProgress.EveryUopRetires | uiCA.py:597-608 | In every infinite run of the back end every issued uop retires at some time. |
| BackEndProgress.EveryUopIsExecuted | uiCA.py:1128-1142 | And every uop that the scheduler takes over is dispatched and executed at some time, however fences (which may store themselves), stores and loads, throughputs and ports hold it back. |
| BackEndProgress.RoomAgain | uiCA.py:597-602 | And at any time there is later room again for more uops in reorder buffer and scheduler, if both are at least as large as the issue width. |
| BackEndRuns.CycleKeeps | uiCA.py:1285-1338 | Every cycle keeps the order in which uops depend on each other: producers come before their readers, pending fences are in program order, and the loads noted since the last fence that read from the store buffer come before all pending fences. |
| RenamedProgram.BatchRenamed | uiCA.py:353-461 | Renaming the uops of a cycle, whichever moves are eliminated: every operand of a uop is ready from the beginning or an output of an earlier uop that has a port, and every entry of the store buffer that a load can get has its address and its data stored by earlier uops. |
| RenamedProgram.RenamedOrderly | uiCA.py:353-399 | So the renamed uops of a program are always in the order on which the back end depends. |
| StoreForwarding.LoadReadsLatest | uiCA.py:356-399 | In every program a load reads from the store buffer exactly if some earlier uop stores to the same abstract address, and then from the latest of these. |
| StoreForwarding.DataGoesToLatest | uiCA.py:356-364 | And a uop that stores data stores it into the entry of the latest store address. |
| Core.Core.Cycle | uiCA.py:597-608 | Renamer and back end together: unless a buffer is full the uops that come next are renamed, and the back end goes through a cycle with what they have become. Nothing is asked but that they continue a program. |
| Core.TurnKeeps | uiCA.py:597-608 | Such a cycle is a cycle of the back end on a well-formed offer, and what is known of the uops stays what renaming the program so far makes of them. |
| Core.EveryRenamedUopRetires | uiCA.py:597-608 | In every infinite run of renamer and back end on a program, whatever ports are chosen, every renamed uop retires. |
| Core.EveryRenamedUopIsExecuted | uiCA.py:597-608 | And every renamed uop is executed. |
| Core.RenamedAgain | uiCA.py:597-602 | And uops are renamed again and again, so that a program gets through as a whole. |
| Checksum.Compute | rust/uica-data/src/uipack.rs:2033-2047 | The hash computed is that of FNV-1a, bit by bit: from 0xcbf29ce484222325 on, the state after each byte is the exclusive or of state and byte times 0x100000001b3 in 64 bits, the checksum's own bytes taken as zero. |
| Checksum.PublishedValues | rust/uica-data/src/uipack.rs:2033-2047 | It has the published values of the hash for nothing, for the letter a and for foobar. |
| Checksum.OneByteChangesHash | rust/uica-data/src/uipack.rs:2033-2047 | Changing any one byte changes the hash. |
| StringTable.StringTable.Intern | rust/uica-data/src/uipack.rs:1124-1137 | Interning returns the offset of the string, a new one only if it was not there, and refuses exactly when the section would overflow. |
| StringTable.InternAllValid | rust/uica-data/src/uipack.rs:1116-1148 | After any strings have been interned, each is read back at its offset, and earlier offsets still hold. |
| StringTable.NoSentinel | rust/uica-data/src/uipack.rs:1692-1717 | No interned string has the offset that stands for an absent string. |
| Blobs.OperandsRoundTrip | rust/uica-data/src/uipack.rs:1203-1304 | Decoding encoded operands gives them back. |
| Blobs.LatenciesRoundTrip | rust/uica-data/src/uipack.rs:1306-1403 | Decoding encoded latencies gives them back. |
| Blobs.VariantsRoundTrip | rust/uica-data/src/uipack.rs:1405-1599 | Decoding encoded variants gives them back. |
| Blobs.StringListRoundTrip | rust/uica-data/src/uipack.rs:1601-1626 | Decoding an encoded list of strings gives it back. |
| Blobs.StringMapRoundTrip | rust/uica-data/src/uipack.rs:1628-1666 | Decoding an encoded map of strings gives it back. |
| BlobWriter.EncodeOperandBlob | rust/uica-data/src/uipack.rs:1203-1247 | The writer's loop produces exactly the specified bytes, or refuses exactly when the specification does. |
| BlobWriter.EncodeVariantBlob | rust/uica-data/src/uipack.rs:1405-1450 | The same for variants. |
| BlobLayout.OperandBlob | rust/uica-data/src/uipack.rs:1203-1247 | Where every field of every operand lies in a blob, byte by byte, the lowest byte first. |
| BlobLayout.LatencyBlob | rust/uica-data/src/uipack.rs:1306-1329 | The same for latencies, 32 bytes each. |
| BlobLayout.VariantBlob | rust/uica-data/src/uipack.rs:1405-1450 | The same for variants and their ports, in the order of their names. |
| BlobLayout.StringListBlob | rust/uica-data/src/uipack.rs:1601-1612 | A list of strings in bytes: their number and their offsets. |
| BlobLayout.StringMapBlob | rust/uica-data/src/uipack.rs:1628-1642 | A map of strings in bytes: the number of entries and the entries in the order of their keys. |
| PackData.EntriesSorted | rust/uica-data/src/uipack.rs:1405-1450 | The entries of a map are written in the order of their keys. |
| PackData.LeqExactly | rust/uica-data/src/uipack.rs:1405-1450 | Which is byte by byte: the beginning of a string before the string, and otherwise the lower byte where they first differ. |
| BlobCursor.DecodeOperandBlob | rust/uica-data/src/uipack.rs:1249-1304 | The cursor's reading of any bytes, well-formed or not, is exactly the specified one. |
| BlobCursor.DecodeLatencyBlob | rust/uica-data/src/uipack.rs:1331-1403 | The same for latencies. |
| BlobCursor.DecodeVariantBlob | rust/uica-data/src/uipack.rs:1452-1599 | The same for variants. |
| BlobReading.LatencyReadExactly | rust/uica-data/src/uipack.rs:1331-1403 | Any bytes are read as a latency exactly if its operands are strings, it has no unknown bit and each value without its bit is zero, and then field by field. |
| BlobReading.VariantNumbersKnown | rust/uica-data/src/uipack.rs:1452-1599 | A variant with an unknown bit, or with a value that is not there and not zero, is refused. |
| BlobReading.VariantsCounted | rust/uica-data/src/uipack.rs:1452-1470 | Variants whose names are not all different are refused: there are as many as the blob says. |
| BlobReading.MapCounted | rust/uica-data/src/uipack.rs:1644-1666 | So are maps of strings with a key that occurs twice. |
| BlobReading.OperandBitsKnown | rust/uica-data/src/uipack.rs:1249-1304 | An operand with an unknown bit is refused. |
| BlobReading.PresenceKnown | rust/uica-data/src/uipack.rs:1249-1304 | A word that says whether a number is there is zero or one. |
| BlobStability.RawSame | rust/uica-data/src/uipack.rs:713-914 | What a record is encoded to does not change while more strings are interned. |
| PackHeader.HeaderRoundTrip | rust/uica-data/src/uipack.rs:1822-1840 | Reading a written header gives it back. |
| PackLayout.AcceptedExactly | rust/uica-data/src/uipack.rs:924-1040 | Which bytes are accepted as a file, field by field: magic, version 9, header size, checksum kind, length, sections within the file and aligned, and the checksum if it is verified. |
| PackLayout.HeaderWrittenAt | rust/uica-data/src/uipack.rs:1822-1840 | Where every field of a written header lies. |
| PackHeader.ChecksumIgnoresItself | rust/uica-data/src/uipack.rs:2033-2047 | The checksum does not depend on the checksum stored. |
| PackHeader.OneByteRejected | rust/uica-data/src/uipack.rs:924-1040 | A file that reads with its checksum verified no longer does after any one byte is changed. |
| PackRecords.RecordRoundTrip | rust/uica-data/src/uipack.rs:1860-1937 | Reading a written record entry gives it back. |
| PackLayout.RecordWrittenAt | rust/uica-data/src/uipack.rs:1860-1884 | Where every field of a written record lies. |
| PackRecords.BlobsRoundTrip | rust/uica-data/src/uipack.rs:452-531 | The blobs of a record, wherever they are put in the file, are found and decoded to the record's data. |
| PortLists.SplitJoin | rust/uica-data/src/uipack.rs:1842-1848 | A joined port list splits into the same list if and only if no name has a comma and the list is not that of one empty name. |
| PortLists.JoinedBytes | rust/uica-data/src/uipack.rs:713-727 | A joined list is the names with a comma between each two of them. |
| PackStrings.EncodesSmall | rust/uica-data/src/uipack.rs:1150-1201 | Once its strings have been interned, a record is refused only for its size. |
| PackEncoder.EncodeUiPack | rust/uica-data/src/uipack.rs:713-914 | Writing into one array, section by section and the checksum last, produces exactly the specified file, or refuses exactly when the specification does. |
| FileLayout.WrittenFile | rust/uica-data/src/uipack.rs:713-914 | What every written file has where: the header's fields, sections at multiples of eight, and for each instruction a record with its numbers, flags, strings, ports and blobs. |
| PackReader.LoadUiPack | rust/uica-data/src/uipack.rs:1042-1050 | Reading any bytes stays within them and gives exactly the specified result. |
| PackRoundTrip.Loads | rust/uica-data/src/uipack.rs:713-914 | Every written file is read, verified or not, to the same data, its port lists joined and split. |
| PackRoundTrip.RoundTrip | rust/uica-data/src/uipack.rs:713-914 | Reading a written file gives the data back if and only if its port lists can be joined and split. |
| PackIndex.ViewIndex.Build | rust/uica-data/src/uipack.rs:663-697 | Looking up any mnemonic or instruction form in the index over a file gives exactly the records that have it, in order; it is built unless some name cannot be read. |
| PackIndex.ScanExact | rust/uica-data/src/index.rs:12-51 | Scanning lists exactly the matching records, in increasing order. |
| PackIndex.NormalizationIdempotent | rust/uica-data/src/index.rs:53-62 | Normalizing a normalized mnemonic changes nothing. |
| Mnemonics.AliasExactly | rust/uica-data/src/index.rs:64-100 | A comparison with a condition in its name is known without the condition, JE as JZ, JNE as JNZ, CMOVNLE as CMOVG, SETZ as SETE, and every other mnemonic by its own name. |
| Mnemonics.FirstWordExactly | rust/uica-data/src/index.rs:53-60 | The word looked up is the first piece of the text between white space and opening parentheses. |
| Mnemonics.UpperExactly | rust/uica-data/src/index.rs:59-60 | In capital letters, those of ASCII. |
| Mnemonics.BeforeUnderscoreExactly | rust/uica-data/src/index.rs:102-104 | Of an instruction form, what comes before the first underscore. |
| PackIndex.IndexesAgree | rust/uica-data/src/index.rs:12-51 | For every mnemonic and instruction form, looking up the index over a written file and the index over the data it was written from gives the same records. |

## Left out

Where the model says less than the code does:

- Renaming.RenamingRefines: the same restriction as for `RunsAgree`.
- Renaming.RunsAgree: values are meant only for eliminated moves that copy all of their input. An eliminated 32-bit move clears the upper half of its output, which the shared operand does not show (`EliminatedMoveExact`).
- Renamer.Renamer.RegistersAsExecuted: the same. The flag that a 32-bit move was eliminated, which only serves fast pointer chasing, is not part of the class.
- Renamer.Renamer.Cycle: the uops of the cycle are given. How they are taken from the queue, the uops that merge registers, serializing instructions and fast pointer chasing are not modelled there; the entries of the store buffer are in `Core`.
- MultiUse.CommitMove: users are exact for moves that are a single uop, as `WellFormed` says of the uops that may be eliminated.
- AddressSoundness.KeysSoundExactly: a form that is taken for an addition and is none needs some company to show it: a 32-bit addition alone, for example, never lets equal addresses stand for different ones. The same holds for a move into part of a register when all registers are taken to be equal at first.
- AddressSoundness.DifferencesSoundExactly: the same for a form that only changes a register in place.
- PolicyIteration.MaximumCycleRatio: costs, ratios and tolerances are exact real numbers; with floating point neither the bound nor termination is shown.
- DependencyBound.ApproximateBound: policy iteration is the Python search, on the graph that the Rust builder specifies. The Python builder is not modelled separately.
- DependencyBound.ExactBound: integers do not overflow, and the order of nodes in the components, a sorted set in the code, is any order.
- LatencyGraphBuilder.GenerateLatencyGraph: operands are given with canonical register names; parsing them out of strings is not modelled.
- DecoderGroups.CyclesPerPeriod: for two decoders or more, and queues in which all instructions have been predecoded.
- UopGrouping.GenerateUops: needs at least as many uops as retire slots, as the code's indexing of its list does.
- UopGrouping.DeliveredExactly: an instruction with no uop from the decoders and none from microcode has one group that nothing delivers.
- DsbPacking.GetDsbBlocks: that blocks are within six slots is shown for instructions that need no more than six.
- CacheBlocks.CacheBlockGenerator.Next: only unrolled programs; in loop mode the code ends a block with the last instruction.
- MitePath.FrontEnd.Cycle: the queue behind it never fills up, and there is no change to or from the decoded stream buffer.
- DsbPath.FrontEnd.Cycle: the queue behind it never fills up, and there is no change to or from the legacy path.
- DsbPath.FrontEnd.AddNewCacheBlock: which blocks enter the buffer, and splitting them into halves of 32 bytes, is up to the caller.
- Scheduler.Scheduler.AddNewUops: which of its possible ports a new uop is bound to is an input.
- BackEndProgress.EveryUopRetires: on the order of the uops it asks `OfProgram`, which `Core` derives from the program. Port 0 exists and the retire width is not zero.
- Core.EveryRenamedUopRetires: a program is what `IsProgram` and `SoundUop` say, as `computeUopProperties` makes it: a uop loads, stores an address or stores data (uiCA.py:1556-1641), the uop that stores data directly follows the one that stores its address (uiCA.py:1612-1641), uops without ports write nothing (uiCA.py:1811-1813), loads, stores and fences are numbered in order (uiCA.py:68), and fences do not load: a load without a memory operand, which fences do not have, would fail in the renamer (uiCA.py:367). The abstract address of each access is given; `AbstractValues` computes it.
- Scheduler.Scheduler.Cycle: which port a new uop is bound to is an input, with the heuristics that choose it left out; the ready queues are sets with their oldest member in place of heaps, and resources are named by a datatype.
- BackEnd.BackEnd.Cycle: an offered uop reads from uops that have been issued or are offered before it, which `Core` derives from renaming; the listing of performance events is left out.
- Core.Core.Cycle: the uops that come next, how many of them, and their ports are given.
- PackReader.LoadUiPack: strings are bytes, not checked to be UTF-8; floating-point numbers are their bits; every error is the same `None`.
- PackIndex.NormalizationIdempotent: white space and upper case are those of ASCII.
- PortUsage.ComputePortUsageLimit: how often an eliminable move was really eliminated, and which instructions are fused with the one before, is in the given numbers.

Parts of the repository that are not modelled, most of them because they would only add easy members:

- The loop stream detector, the switch between decoded stream buffer and legacy path, and stack-synchronization uops.
- The rule that decides what may be in the decoded stream buffer (`canBeInDSB`).
- Latencies of loads and stores and register-merge uops (`adjustLatenciesAndAddMergeUops` and the rest of `computeUopProperties`).
- The scheduler's size bound.
- The issue, LSD and DSB bounds and the choice of the largest bound, which are one division or comparison each.
- Disassembly, the matching of instructions to records, and the tables of the microarchitectures.
- Command lines, reports, traces, HTML, the web interface and all input and output.
- The manifest and JSON forms of the instruction data.
