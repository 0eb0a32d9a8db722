# Verification of dis86, hydra and bsl

A Dafny 4.11 model of the parts of the repository where a mistake would be hardest to see, with proofs
about every input, every run or every reachable state. `dafny verify dfyconfig.toml` checks all of it.

## What is modelled

**Control-flow structuring** (`dis86/src/decompile/control_flow.rs`, `dis86/src/decompile/ast.rs`). The exits
of each block of a function are folded into nested loop and if bodies, laid out, labelled and printed.
`control_flow`, `ownership`, `dfs`, `first_cycle`, `structure`, `scopes` and `inference` hold the arena, the
simple-path search and the folding; `steps` what folding is, as a relation: one loop or if after the other,
each the one the source's search meets first or prefers, with all that lies on its cycles, its backedges and
its exits, at every depth. `names`, `arms`, `loop_entries` and `levels` are why the names in folded bodies
keep leading to the right element and why every arm runs straight to where its if goes on; `rings` the one
kind of arm that does not but goes round, and what becomes of it; `loop_free` graphs in which none of that can
go wrong. `enclosing` is what the bodies around an element offer as its successor; `progress`, `layout` and
`scheduling` are the choice of order and jumps and when it completes; `csyntax` the printed statements and
what running them does; `flow_tree`, `meaning` and `arena_tree` the laid out structure as a tree and why
printing it keeps the meaning; `emission` and `decompile` the flattening iterator, the printer that rebuilds
the nesting from it, labels on demand, and the whole run; `lost_entry` and `twin_ring` are two programs on
which it stops. A panic of the source is a run that does not complete (`ok` is false, or the value is `None`).
The main result is `Decompile.Build`: when a run completes, the printed program runs exactly the blocks that
the graph dictates under every sequence of branch outcomes, holds every live block's code exactly once, and
has its labels exactly where its gotos go. For every graph a run completes exactly when there is a first
block, no body of the folded structure has lost the element it is entered at (`KeepsEntries`), and in every
loop of it the ifs meet their joins (`MeetsJoins`): going through the loop's body member by member, what
encloses an if offers the same for the name its arm is left by as for the join. Both are conditions on the
folded structure alone, before anything is laid out. The second can only fail in a loop that was made of a
ring-shaped arm, so never when no block has both its exits to the same block. On the graph itself: a run
completes whenever no way leads from a block back to it and none leads to the first block, or all blocks can
be reached from that (`Orderly`).

**Native code calling the guest** (`hydra/src/exec.c`, `hydra/src/machine.c`, `hydra/src/callstubs.h`,
`hydra/src/machine.h`). `handoff` is the host thread and the hook threads, one atomic action at a time,
over per-context mutexes and condition variables. It shows that the copies of the machine never diverge,
which is why `hydra_calls`, `callstubs` and `hydra` may treat it as one: they model registers with 16-bit
wrap-around, guest memory, the pushed return addresses, their decoding, and a whole call through a stub.

**Searches and rewrites over the SSA form.** `pointer_search` is the memoised search for the pointer behind
an address. `block_ir`, `fuse`, `fuse_sites`, `fuse_passes` and `fuse_limits` are one block of SSA instructions over
byte memory, the three fusing passes, what they leave unfused, exactly when the third is right, and blocks on
which it is not.

**Discovery and reachability.** `addresses`, `discovery` and `discover` are the walk over instructions from
a work queue; `return_args` the reachability behind the inferred argument count.

**Text formats and intervals.** `trace_text`, `trace_format`, `trace_roundtrip`, `trace_reading`,
`trace_accepts` and `trace_io` are the trace writer in C and the trace reader in Rust, character by
character. `bsl_syntax` and `bsl_parser` are the configuration language. `range_set`, `regions` and
`coverage` are ranges of addresses and the bytes they account for.

## Where the code does not do what it is for

* Structuring can leave a loop body without its entry, and layout then panics. With blocks 0 -> 1, 1 -> 2 and
  2 -> 0 or 1, the loop holds all three; inside it the if at 2 takes block 0, where the loop is entered, into
  its arm (`LostEntry.NestedLoopsLoseEntry`, `LostEntry.BuildNestedLoops`). `Decompile.Build` says exactly
  when this happens.
* The arms of an if need not choose what the if chooses, though the source asserts that they do by construction.
  With 0 -> 7, 7 -> 0 or 1, 1 -> 4 either way, 2 -> 3 or 6, 3 -> 6, 4 -> 5 or 2, 5 -> 2 and 6 -> 4, all of them
  reachable, the search for loops folds 0 and 7 and does not see the ring of 4, 2 and 6 (`TwinRing.RingIsNotSeen`);
  the if at 1 takes it for its arm, and in the loop that the arm becomes the if at 4 is left for block 2 by a
  name that nothing offers there, while its join is offered (`TwinRing.ArmsDoNotMeet`, `TwinRing.BuildRing`).
  `Decompile.Build` has the exact condition.
* The search for loops starts at the block a body is entered at, not at the element that block was folded into.
  Once it was folded into a loop with another block, only that block's own exits are followed out of it, so a
  cycle further on can go unfolded, as in that program. `Steps.AcyclicFromLookup` says when none does.
* A near call from segment 0xFFFF or 0xF000 is never resumed (`HydraCalls.KeptSlotNamesContext`), and a
  return address that straddles the end of the stack segment is read back from somewhere else
  (`HydraCalls.ReadsBackIffFits`).
* Joining two 16-bit loads is right exactly when the two words still stand where the 32-bit load reads them
  (`Fuse.FusedRightIff`). The pass accepts blocks where they do not: when a call comes between the loads and
  the join, when the offset wraps, and when the load that runs first has the larger number
  (`FuseCounterexamples`). Blocks of the last kind are accepted by the pass, but the pipeline does not build them:
  of the instructions it inserts before others (`WriteVar16` and `Ref` at dis86/src/decompile/ir_build.rs:1493, 1571
  and 1586, `ReadVar32` at dis86/src/decompile/fuse.rs:125) none is a load.
* A trace event is not written at all when its name just fits the line buffer and what follows the name does
  not: a call whose name is 217 characters long, a return with 218, a native call with 8 arguments and 378 to
  466, a `leave` with result `jump_near` and 202 to 219 (`TraceRoundTrip.LostExactlyAtTheEdge` has every kind).

## Model

| member | source | states |
|---|---|---|
| Dfs.NextKeepsValid | dis86/src/decompile/control_flow.rs:519-573 | one step of the path search keeps its stack sound; when it reports the end, every exit of every simple path from the entry has been reported |
| Dfs.NextShrinks | dis86/src/decompile/control_flow.rs:539-573 | every step but the last shrinks one number, so the search over simple paths ends |
| Dfs.DFS.Next | dis86/src/decompile/control_flow.rs:519-573 | the step on the path, index and visited fields is the abstract step, and so is the reported action |
| Structure.FindLoop | dis86/src/decompile/control_flow.rs:589-619 | the first cycle target the depth-first search meets, exactly the sources of edges back to it and exactly the elements on cycles through it; nothing exactly when no simple path closes a cycle |
| Structure.FindLoopExits | dis86/src/decompile/control_flow.rs:576-587 | exactly the outside elements that simple paths of the body lead to |
| Structure.LoopHasNoSelfEdge | dis86/src/decompile/control_flow.rs:207-227 | a folded loop never has an edge to itself |
| Structure.LoopFoldShrinks | dis86/src/decompile/control_flow.rs:589-629 | folding a loop leaves fewer members, or as many of which fewer have an edge to themselves |
| Structure.InsertLoopOk | dis86/src/decompile/control_flow.rs:207-227 | folding a loop keeps every block in exactly one place and every name leading to the element that starts with the same block |
| Structure.InferLoop | dis86/src/decompile/control_flow.rs:589-629 | one loop is found and folded, or none is there and nothing changes |
| Structure.SequentiallyReaching | dis86/src/decompile/control_flow.rs:632-644 | the chain of single-exit members from source to destination if there is one, and nothing exactly when there is none |
| Structure.NormalizeIfArms | dis86/src/decompile/control_flow.rs:646-662 | no if for two empty or overlapping arms; otherwise which arm is the body and whether the condition is inverted |
| Structure.FindIf | dis86/src/decompile/control_flow.rs:664-715 | the if that is preferred to every other: one arm before two, then the lowest header, then the direct arm before the inverted one, or the lowest join; nothing exactly when no member heads an if |
| Structure.InsertIfOk | dis86/src/decompile/control_flow.rs:230-255 | folding an if keeps every block in exactly one place (header, then-arm or else-arm) and leaves fewer members |
| Structure.ReplaceByIf | dis86/src/decompile/control_flow.rs:193-255 | the arms and the header are members when they are removed, so the removal panics are unreachable |
| Inference.InferLoops | dis86/src/decompile/control_flow.rs:589-629 | loops are folded one by one until no simple path from the block the body is entered at closes a cycle (that raw block, as in the source, even when it was folded into a loop: what lies beyond its own exits is not seen); each was the first cycle met, and holds exactly what lies on cycles through its entry, its backedges, and as exits exactly where its blocks lead |
| Inference.InferIfs | dis86/src/decompile/control_flow.rs:864-864 | ifs are folded one by one until no member heads one, each the preferred one, from its header, its chains and their join |
| Steps.AcyclicFromLookup | dis86/src/decompile/control_flow.rs:589-619 | when what the entry was folded into leads nowhere that the entry block does not itself lead, no simple path from that element closes a cycle either |
| Steps.FoldsKeeps | dis86/src/decompile/control_flow.rs:860-885 | how a body was folded does not change by what is folded elsewhere later |
| Steps.BelowKeeps | dis86/src/decompile/control_flow.rs:866-884 | nor does how everything below an element was folded |
| Inference.InferStructure | dis86/src/decompile/control_flow.rs:860-885 | folding a body and all bodies below it ends, keeps the body's blocks, changes nothing outside its scope, and at every depth took exactly the folding steps of the source: first loop after loop, each a cycle of the graph with its exits, then if after if, until nothing is left |
| LoopEntries.NewLoopNotReached | dis86/src/decompile/control_flow.rs:207-227 | after a loop is folded no path closes a cycle at it: what would was folded with it |
| LoopEntries.OldStaysNotReached | dis86/src/decompile/control_flow.rs:207-227 | and later loop folds do not change that, so a folded loop is never the entry of the next |
| Arms.ArmRuns | dis86/src/decompile/control_flow.rs:631-644 | an arm made of a chain runs, by its own names, straight through all its members and out |
| Arms.ArmLeavesTied | dis86/src/decompile/control_flow.rs:717-750 | by whatever name an arm is left, the body it was cut from knows the join by it |
| Arms.RingRuns | dis86/src/decompile/control_flow.rs:631-662 | an arm whose chain comes back to where it starts, which takes a header with both exits to one element, goes round through all its members |
| Arms.StraightStays | dis86/src/decompile/control_flow.rs:874-879 | there is nothing to fold in an arm that runs straight |
| Rings.RingFolds | dis86/src/decompile/control_flow.rs:874-879 | an arm that goes round is folded into one loop of all its members, entered at the first, with the last as its backedge, and nothing else |
| Rings.RingBodyStays | dis86/src/decompile/control_flow.rs:873-873 | and in the body of that loop there is nothing to fold |
| Levels.FoldedBodyKnows | dis86/src/decompile/control_flow.rs:189-255 | in a folded body every name the arms below its members use for a join leads to the same element as the join |
| Progress.FoldedIsReady | dis86/src/decompile/control_flow.rs:980-1000 | at every depth of a structure folded as the source folds, every arm of an if runs straight to a known join, or is one loop made of a ring |
| Progress.FoldedMeets | dis86/src/decompile/control_flow.rs:980-1000 | without ifs whose header has both exits to one block, in every loop of such a structure the ifs meet their joins |
| Enclosing.AvailMeans | dis86/src/decompile/control_flow.rs:897-913 | an element offered by the enclosing bodies starts with the block asked for and is still to be laid out |
| Enclosing.AvailIsNearest | dis86/src/decompile/control_flow.rs:897-913 | what is offered is the element that the name leads to in the nearest enclosing body that still has it to lay out |
| Layout.ScheduleBlockOk | dis86/src/decompile/control_flow.rs:916-946 | the jump chosen for a block and the element laid out next cover each of its exits, and the false exit of two is tried first: if the enclosing bodies offer it, it comes next and the block jumps to its true exit; only otherwise does it go on to the true exit, and jump to either when neither is offered |
| Layout.FalseExitComesNext | dis86/src/decompile/control_flow.rs:930-936 | in a laid out body, what the false exit of a block leads to is never later than next; a block jumps to its false exit only when nothing later in the body and nothing around it is what that leads to |
| Enclosing.KnownMeets | dis86/src/decompile/control_flow.rs:897-913 | an if whose joins are known by the names its arms use is met: however an arm is left, down to the last member of the last arm, the enclosing bodies offer for it what they offer for the join |
| Layout.NeverStrays | dis86/src/decompile/control_flow.rs:1041-1056 | no member chooses a successor that is not left, so that panic is unreachable |
| Layout.ArmsAgree | dis86/src/decompile/control_flow.rs:980-1000 | both arms choose what the if chooses, so the asserts hold, exactly when the if is met by what encloses it |
| Scheduling.ScheduleBody | dis86/src/decompile/control_flow.rs:1041-1062 | a completed layout is a permutation of the members, starts at the entry, puts after each member what that member chose, each block and loop as its branch order demands of what is offered, and writes nothing but orders and jumps; it completes exactly when no body below lost its entry and the ifs below meet their joins where they are laid out |
| Scheduling.ScheduleIfstmt | dis86/src/decompile/control_flow.rs:980-1004 | both arms end where the if goes on, by falling through or by a goto; laying out the if completes exactly when both arms can be laid out and choose what the if chooses |
| Scheduling.ScheduleLoop | dis86/src/decompile/control_flow.rs:967-977 | a loop body never falls out of the loop |
| CSyntax.DoesOneThing | dis86/src/decompile/ast.rs:1283-1323 | a printed program does one thing only under given branch outcomes |
| FlowTree.EmitAllConserves | dis86/src/decompile/ast.rs:1325-1379 | printing keeps the blocks of the structure in order and prints labels before exactly the labelled ones |
| FlowTree.EmitAllGotos | dis86/src/decompile/ast.rs:1283-1323 | the gotos printed are exactly those the chosen jumps ask for |
| ArenaTree.TreeFits | dis86/src/decompile/control_flow.rs:916-1062 | in a laid out structure every edge of the graph is a goto to its block or leads to what is printed next |
| ArenaTree.TreeCovers | dis86/src/decompile/control_flow.rs:193-333 | the laid out structure holds each block of an element once |
| Meaning.NodeGood | dis86/src/decompile/ast.rs:1325-1379 | entered at its top, a printed element runs the graph from its first block |
| Meaning.NodeFinds | dis86/src/decompile/ast.rs:1077-1098 | entered at one of its labels, a printed element runs the graph from that block |
| Meaning.PrintedProgramFollowsGraph | dis86/src/decompile/ast.rs:1444-1476 | the printed program runs exactly the blocks of the graph for every sequence of branch outcomes |
| Emission.MakeLabel | dis86/src/decompile/ast.rs:1077-1098 | a jump target leads down to the block it starts with, by ever smaller ids, so the cyclic chain panic is unreachable |
| Emission.VisitStep | dis86/src/decompile/control_flow.rs:434-473 | taking the next element and pushing its parts is one step of the depth-first order with depths |
| Emission.ConvertBodyUntil | dis86/src/decompile/ast.rs:1448-1470 | from the flat sequence exactly the members of one body are taken, the then-arm ending where the else-arm starts, and printed as their nesting says |
| Decompile.ForestOk | dis86/src/decompile/control_flow.rs:399-406 | every laid out element is known to the printer with its parts, its label block and its jump targets |
| Decompile.LabelBlocksByDemand | dis86/src/decompile/control_flow.rs:1080-1129 | exactly the blocks that jump targets lead down to are marked, by the same descent as the printer's |
| Decompile.PrintedIsFaithful | dis86/src/decompile/ast.rs:1444-1476 | what fits the graph and labels what its jumps ask for is printed faithfully: meaning, blocks once, labels exactly at goto targets |
| Decompile.Build | dis86/src/decompile/ast.rs:1472-1476 | a completed run's program is faithful to the graph; for every graph a run completes exactly when there is a first block, no body of the folded structure lost its entry, and in every loop of it the ifs meet their joins; so it does for every graph without cycles in which nothing leads to the first block or every block can be reached from it |
| Decompile.NoCyclesNoLoops | dis86/src/decompile/control_flow.rs:860-885 | the structure of such a graph keeps its entries and has no loop whose ifs could miss their joins |
| LoopFree.FoldsToIfs | dis86/src/decompile/control_flow.rs:589-715 | a body of such blocks is folded into ifs alone, and what it is entered at is never taken into an arm |
| LoopFree.NothingStops | dis86/src/decompile/control_flow.rs:980-1062 | and below an element without loops no body loses its entry and every if meets its join |
| Decompile.JoinsAreMet | dis86/src/decompile/control_flow.rs:980-1000 | they do in every folded structure without an if whose header has both exits to one block |
| Decompile.Infer | dis86/src/decompile/control_flow.rs:399-401 | the structure this is about is the flat body of all live blocks, folded by the steps of the source at every depth |
| LostEntry.StaysLost | dis86/src/decompile/control_flow.rs:230-255 | a body that lost its entry to an if does not get it back |
| LostEntry.NestedLoopsLoseEntry | dis86/src/decompile/control_flow.rs:664-715 | every folded structure of the graph 0 -> 1, 1 -> 2, 2 -> 0 or 1 has lost an entry |
| LostEntry.BuildNestedLoops | dis86/src/decompile/control_flow.rs:1041-1043 | so that program is not decompiled |
| TwinRing.RingIsNotSeen | dis86/src/decompile/control_flow.rs:589-629 | in the eight blocks named above the search meets no cycle once 0 and 7 are folded, though 4, 2 and 6 go round |
| TwinRing.ArmsDoNotMeet | dis86/src/decompile/control_flow.rs:980-1000 | in every folded structure of that program some if does not meet its join |
| TwinRing.BuildRing | dis86/src/decompile/control_flow.rs:980-1000 | so that program is not decompiled either |
| Handoff.StepKeepsInv | hydra/src/exec.c:104-262 | every action of every thread keeps the allowed combinations of host, hook, mutex and context state |
| Handoff.ExclusiveAndHeard | hydra/src/exec.c:104-262 | in every interleaving one thread at a time runs guest-visible code, every signal finds its waiter, the host touches a context's machine only while its hook is not running, and the active context is the running hook |
| Handoff.CallerStaysActive | hydra/src/exec.c:78-86 | when a call's result reaches the host the active context is the one that called |
| Handoff.HandedOver | hydra/src/exec.c:152-168 | the protocol hands the machine over unchanged: only running code changes it |
| Handoff.NobodyHangs | hydra/src/exec.c:152-262 | when nobody runs, some thread can take its next step |
| Handoff.ProtocolMovesOn | hydra/src/exec.c:152-262 | at most twenty such steps lie between two pieces of running code |
| Handoff.NestedStep | hydra/src/exec.c:133-150 | with last-in-first-out resumption a new hook's context is its nesting depth, and exactly the contexts below the depth are in use |
| Handoff.BeginFailsOnlyWhenFull | hydra/src/exec.c:133-144 | acquisition fails exactly when all 1024 contexts are suspended |
| HydraCalls.ReadsBackIffFits | hydra/src/machine.c:25-29 | a pushed return address is read back from any memory exactly when its slot does not straddle the end of the stack segment |
| HydraCalls.KeptSlotNamesContext | hydra/src/exec.c:264-300 | returning through a kept slot is taken for its context, for near calls exactly outside segments 0xFFFF and 0xF000 |
| HydraCalls.ResumesIff | hydra/src/exec.c:264-300 | a return address is taken for a context exactly when that is active and either the address is FFFF with the id, or FF00 plus the id in a segment other than FFFF and F000, and the segment of the call unless it was relocatable |
| HydraCalls.ReturnResumesInnermost | hydra/src/machine.c:39-46 | the innermost hook gets control back with CS and IP as before its call and DX:AX as the callee left it |
| HydraCalls.CallRefused | hydra/src/machine.c:49-67 | a call is refused exactly when it is near and nested deeper than 256 hooks, or CS lies below the code |
| HydraCalls.CallGoesTo | hydra/src/machine.c:19-67 | a call goes, far, to the segment named plus the start of the code and, near, within its own segment, at the offset named, with SP lower by its return address and every other register as before; only its own frame is added |
| HydraCalls.CallWrites | hydra/src/machine.c:25-29 | what a call writes to memory, byte by byte, is its return address and nothing else: far, the id and FFFF with each word wrapping within the stack segment; near, FF00 plus the id at the linear address below SP |
| HydraCalls.RunIsNested | hydra/src/exec.c:133-168 | in every run the live contexts are exactly those below the nesting depth |
| HydraCalls.ReturnKeepsSlot | hydra/src/exec.c:264-300 | a callee that returns through its own return address, with its bytes untouched, finds there the id of the innermost waiting context |
| HydraCalls.ProperRunsKeepSlots | hydra/src/exec.c:133-300 | so a run whose callees return that way is a run in the sense of the next row: what it says of slots need not be supposed |
| HydraCalls.ResumedAsCalled | hydra/src/machine.c:19-80 | in every run a resumed call is the innermost one and finds CS, IP, SS, and SP when the callee restored it, as at the call |
| CallStubs.NearStubReachesTarget | hydra/src/machine.c:82-89 | a near stub reaches the linear address it names exactly when that lies within the current segment |
| CallStubs.CalleeStartsAt | hydra/src/machine.c:31-89 | the callee of a stub starts, far, at the segment and offset named, and near in the same segment, at the linear address named exactly when that lies within the segment |
| CallStubs.FarCalleeFindsArgs | hydra/src/callstubs.h:34-146 | the callee of a far stub finds each argument at its place above the return address |
| CallStubs.NearCalleeFindsArgs | hydra/src/callstubs.h:34-146 | so does that of a near stub |
| CallStubs.RemoveArgsMovesSlot | hydra/src/machine.h:311-317 | removing arguments moves the return address up over them, intact |
| CallStubs.StubIsNeutral | hydra/src/callstubs.h:49-146 | caller-pops and callee-pops stubs both leave SP as it was |
| CallStubs.StubRoundTrip | hydra/src/callstubs.h:34-146 | when a callee returns with SP at its return address and that address intact, its return is taken for its caller's, which finds CS, IP, SS and SP as before the stub and everything else, DX:AX included, as the callee left it |
| CallStubs.NestedStub | hydra/src/callstubs.h:34-146 | so it is in every run of events between the stub's call and its callee's return, however many hooks enter, call, are resumed and finish in between: the caller is the one resumed, all that entered have finished, and it finds CS, IP, SS and SP as before the stub; a stub among them starts its callee where it names |
| Hydra.Machine.CallStub | hydra/src/machine.c:19-89 | the stub run step by step, from its first push over the guest's return and its decoding to the result, does that for every callee, and gives the guest its registers at the address named |
| Hydra.Machine.PushArgs | hydra/src/machine.h:261-263 | the last argument is pushed first |
| PointerSearch.PlainFindsPathEnds | dis86/src/decompile/ast.rs:780-823 | the search without a memo finds exactly the origins at the ends of paths of at most 25 references, where a step goes from an instruction to any of its operands, only to the first of one that takes a half or a reference, and an end is a symbol of pointer kind or a read of one |
| PointerSearch.ExploredIsComplete | dis86/src/decompile/ast.rs:782-788 | once everything visited is explored, the search without a memo would find nothing more |
| PointerSearch.Search.Collect | dis86/src/decompile/ast.rs:780-823 | one exploration finds only what the plain search finds, and leaves everything it visited explored but what is still open |
| PointerSearch.Search.GuestPointerOrigin | dis86/src/decompile/ast.rs:773-778 | on every operand graph the memoised search gives the origin that ends every such path from the reference, if there is one and no other, and none otherwise, exploring each reference at most 25 times |
| Fuse.WritePairPreserves | dis86/src/decompile/fuse.rs:15-84 | two writes to the halves of a variable and one 32-bit write leave the same memory and results |
| Fuse.ReadPairPreserves | dis86/src/decompile/fuse.rs:97-150 | two reads of the halves of a variable are the halves of one 32-bit read |
| Fuse.LoadPairResult | dis86/src/decompile/fuse.rs:152-235 | one 32-bit load gives what two joined 16-bit loads give exactly when both words still stand where it reads |
| Fuse.FusedRightIff | dis86/src/decompile/fuse.rs:188-235 | a block in which accepted joins were replaced does what it did, in a given world and memory, exactly when at every replaced join the words still stood |
| Fuse.UnwrittenIff | dis86/src/decompile/fuse.rs:223-231 | with no write in between they stand unless the offset wraps, and then only if the words at both places happen to be the same |
| Fuse.EveryMemoryIffNoWrap | dis86/src/decompile/fuse.rs:223-231 | at one place, joining two loads is one load in every memory exactly when the offset does not wrap |
| Fuse.SafeSite | dis86/src/decompile/fuse.rs:201-221 | they stand if the loads were made in the order they run, nothing unseen by the pass stands in between, and the offset does not wrap |
| FuseSites.WriteSiteWasThere | dis86/src/decompile/fuse.rs:15-84 | fusing two writes makes no new pair of writes |
| FuseSites.ReadSiteWasThere | dis86/src/decompile/fuse.rs:97-150 | fusing two reads makes no new pair of reads, though it inserts an instruction |
| FusePasses.FindWritePair | dis86/src/decompile/fuse.rs:20-65 | a pair is found exactly when the write before is one of the other half of the same value |
| FusePasses.FindReadPair | dis86/src/decompile/fuse.rs:101-130 | a pair is found exactly when the read before is one of the low half of the same symbol |
| FusePasses.FindLoadPair | dis86/src/decompile/fuse.rs:152-219 | two loads are found exactly when the join is of loads two apart, their offsets computed here or in an earlier block, with no memory operation the pass looks for in between |
| FusePasses.IrBlock.FuseAdjacentWriteVars | dis86/src/decompile/fuse.rs:15-84 | the whole first pass preserves memory and results in every world, changes only pairs of writes to the two halves of one value, and leaves no two next to each other in either order |
| FusePasses.IrBlock.FuseAdjacentReadVars | dis86/src/decompile/fuse.rs:97-150 | so does the second for reads of the low and then the high half, and what it adds only reads |
| FusePasses.IrBlock.FuseMake32Loads | dis86/src/decompile/fuse.rs:188-235 | the third replaces only joins of loads two bytes apart with no access in between but calls and the like, and leaves none; it preserves memory and results in exactly the worlds and memories in which at every replaced join the words still stood |
| FuseCounterexamples.CallBreaksFusion | dis86/src/decompile/fuse.rs:207-219 | any call after the loads can make what the pass does wrong: calls are not among the operations it looks for |
| FuseCounterexamples.WrapBreaksFusion | dis86/src/decompile/fuse.rs:223-231 | so can an offset that wraps |
| FuseCounterexamples.LateLoadBreaksFusion | dis86/src/decompile/fuse.rs:207-219 | so can a write after a first load that has the larger number |
| Discovery.SeeIff | dis86/src/analyze/func_details.rs:161-182 | an instruction is read exactly where one is: outside declared data, in a region if there are any, its bytes before the end of segment and region and before the next data |
| Discovery.SeesWhatFollows | dis86/src/analyze/func_details.rs:214-332 | what the walk goes on to and queues is exactly what follows: the target of a branch that is code, also what comes after a conditional one, a far jump within the segment, the next instruction up to the end of the region, or of the segment or the annotated end, and whether CS was pushed just before |
| Discovery.WholeWalkIsUnique | dis86/src/analyze/workqueue.rs:17-27 | one order of looking at points, block by block, always going on at the lowest block start that waits, is the only one there is |
| Discovery.ClosedIsDiscovered | dis86/src/analyze/func_details.rs:141-332 | a closed set of reachable points without errors is the least one |
| Discover.WorkQueue.Insert | dis86/src/analyze/workqueue.rs:17-23 | an address is queued only when it is first discovered |
| Discover.WorkQueue.Pop | dis86/src/analyze/workqueue.rs:25-27 | the lowest queued address is taken |
| Discover.ReportOneMore | dis86/src/analyze/func_details.rs:182-267 | each instruction seen keeps the report exact |
| Discover.Build | dis86/src/analyze/func_details.rs:108-347 | success: the points looked at are exactly the reachable ones, in that one order; end, direct calls with their modes and the number of indirect calls are exact; the kind of the first return seen is reported, and each other kind once, in the order they are first seen; failure: the start is not acceptable or some reachable point is in error |
| Discover.DiscoveredBytesAreCode | dis86/src/analyze/func_details.rs:161-182 | no byte of a discovered instruction lies in declared data or outside the region of its first byte |
| ReturnArgs.ReachableRaw | dis86/src/app_infer.rs:236-264 | exactly the instructions reachable by fallthrough and static targets are marked |
| ReturnArgs.ImmIs | dis86/src/app_infer.rs:217-221 | twice the words a return pops is its last even immediate |
| ReturnArgs.RetImmArgs | dis86/src/app_infer.rs:208-231 | a count is inferred exactly when a return is reachable and in every reachable return the last even immediate is twice the count |
| TraceText.FieldsRead | dis86/src/trace.rs:322-333 | fields with different keys are read back as a map of exactly those fields |
| TraceRoundTrip.EventReads | dis86/src/trace.rs:94-174 | the words written for an event are read as that event |
| TraceRoundTrip.TraceRoundTrips | dis86/src/trace.rs:66-183 | parsing what any run wrote gives back the written events, each address resolved against the load segment in force |
| TraceReading.EventIsRead | dis86/src/trace.rs:390-396 | so it is for every kind of event and load segment, each name kept up to the length its line leaves for it |
| TraceReading.WrittenTraceReads | dis86/src/trace.rs:66-183 | parsing what any run wrote gives one event for each moment whose event was written, in order and of the same kind with the same values; an address at or above the load segment in force, outside the two windows of return addresses, is read relative to that segment, any other as none; the segment in force is the last that a written moment configured |
| TraceAccepts.EventIff | dis86/src/trace.rs:89-176 | which words the reader takes for an event, for every kind of event |
| TraceAccepts.HexIff | dis86/src/trace.rs:372-374 | a number is read exactly when at least one hexadecimal digit of either case, after a plus sign or not, stands for a value of 16 bits, and as that value |
| TraceAccepts.TrimIs | dis86/src/trace.rs:73-73 | trimming takes away the white space at both ends, and nothing else |
| TraceAccepts.WordsAre | dis86/src/trace.rs:97-99 | a line is its words with white space between them, and any at its ends |
| TraceAccepts.AcceptedIff | dis86/src/trace.rs:63-183 | any text is accepted exactly when its first line is the header and every other line is blank, a comment that is no second header and names no malformed load segment, or a known event with no key twice and with all its fields, each well formed |
| TraceRoundTrip.LostExactlyAtTheEdge | hydra/src/trace.c:237-416 | which lengths of name, result and argument list lose an event, for every kind of event; all others are written |
| TraceIo.TraceSink.EmitCodeLoad | hydra/src/trace.c:108-119 | the load segment is written when it is configured and new |
| TraceIo.TraceSink.Record | hydra/src/trace.c:268-416 | an event's line is put together in its buffer and written if it fits |
| TraceIo.Parse | dis86/src/trace.rs:66-183 | the reader's loop computes the parse that the round trip is about |
| BslSyntax.LexReads | bsl/src/bsl/bsl.c:57-111 | however a token is spelled and spaced, it is read back as itself |
| BslSyntax.RoundTrip | bsl/src/bsl/bsl.c:184-251 | any way of writing a tree down is parsed back to the tree |
| BslSyntax.ParsesIff | bsl/src/bsl/bsl.c:57-251 | a text is parsed to a tree exactly when it is one of the ways to write that tree down; every other text is refused |
| BslSyntax.EveryTreeCanBeWritten | bsl/src/bsl/bsl.c:80-97 | every tree without quotes and NULs has such a way |
| BslParser.Parser.Next | bsl/src/bsl/bsl.c:57-111 | the scanner's loops produce the next token |
| BslParser.Parser.ParseNode | bsl/src/bsl/bsl.c:226-237 | the recursive parser follows the grammar, failing exactly where it does |
| BslParser.ParseNew | bsl/src/bsl/bsl.c:239-251 | the parser succeeds with a tree exactly on the texts that write it |
| BslParser.PartsOfDotted | bsl/src/bsl/bsl.c:279-305 | a dotted key is cut into just the dot-free parts it was made of |
| BslParser.LookupIs | bsl/src/bsl/bsl.c:264-277 | the entry found has the key and no entry before it does; none is found exactly when no entry has it |
| BslParser.GetGeneric | bsl/src/bsl/bsl.c:264-305 | a value is found exactly when the dot-free parts that make up the key lead to it, each to the first entry that has it |
| Ranges.RangeSet.Insert | dis86/src/util/range_set.rs:13-42 | insertion adds exactly its range and keeps the ranges apart |
| Ranges.RangeSet.GapsWithin | dis86/src/util/range_set.rs:55-85 | the gaps are exactly what the set leaves out |
| Regions.EffectiveRegions | dis86/src/config.rs:126-148 | the merged regions are ordered, never touch, and hold the same addresses |
| Regions.CodeRegions | dis86/src/config.rs:286-307 | code is exactly what regions hold and declared data does not |
| Coverage.ForSpan | dis86/src/coverage.rs:31-65 | code, data and unknown bytes of a span are exact and add up to it |

## Left out

* Switch statements, jump tables, and the goto and case-block elements made for them: graphs here have at most two exits per block.
* The text of conditions and of a block's statements: a block's code is one statement that names it, and a condition is the outcome of the block it follows. A block without exits leaves the function.
* `infer_structure` and its callers iterate hash sets; the model visits members in any order, and picks the lowest where the source sorts.
* Trailing pruned blocks of a function do not occur.
* Spurious wake-ups, which the source does not loop against, and a machine reused after its guest terminated.
* `callstack.c` events, overlay paging, raw code snippets, interrupts and port access: they leave the calls as they are.
* The other blocks that a load's offset may come from are the instructions of their sums; that a value of an earlier block is what its instruction computes is a condition on the world. Constants do not overflow 16 bits.
* In `Hydra.Machine.CallStub` what the guest does between call and return is one function of registers and memory; `CallStubs.NestedStub` says the same of whole runs of events.
* The intrusive list of a block's instructions is an order of indices; inserting into it is inserting into that order.
* The decoder is a function from an address to an instruction; opcode tables and ModRM bytes are not modelled.
* `eprintln!` diagnostics, file handling, locking of the trace sink, the trace's counters, and what `analyze` derives from events.
* Growing and freeing of the configuration parser's nodes.
