# Proofs about mcc's optimiser and meow's build walk

A Dafny model of the middle and back end of `mcc`, the C compiler, and of the serial
build walk of `meow`, with proofs of what the passes promise. Run `dafny verify
dfyconfig.toml` to check it.

Control flow is shared: a graph of blocks with up to two successors, paths as sequences of
blocks, dominance over all paths (`Graph.dfy`). On it stand the two dominator fixpoints and
frontiers (`DomTree`, `Cfg`, `MirCfg`), the two depth-first orders (`Rpo`, `MirOrder`),
liveness (`Live`), branch facts (`ZeroVal`), jump threading (`SimplJmp`) and code placement
(`Gcm`, `GcmSched`). MIR functions with a small-step meaning (`Mir`) carry slot promotion
(`Promotion` says what the rewritten function means, `M2rSsa` that it is in SSA form, `Mem2Reg`,
`M2rPlace` and `M2rDriver` are the pass) and value numbering (`Gvn`, `GvnPass`), and `MirNames`
puts the two together. `ParMove` and `RegScan` are register
allocation; `Bytes`, `Alias`, `LoadElim`, `Blit` and `SlotFusion` are memory; `Words` and
`AssocCon` are constants with wrap-around; `BuildGraph` is `meow`.

Methods work on the state the C code works on, in the same order and with the same branches.
Each is proved against predicates and functions on values; the theorems are lemmas about those.
Facts that unfold at once stand at the end of each module.

What the passes need of their input is a precondition: strict SSA, an entry block without
predecessors, blocks named by reverse postorder number (`Rpo.RenumberedIsRpoNumbered` and
`Rpo.DomRenumbered` say that this loses nothing), distinct destinations of a parallel move.
Assertions of the source are preconditions too.

## Findings

Where the code does not do all that one could expect, the exact condition is proved.

- `opt/load.c:316`: after a shift right no mask is inserted when the shift and the width
  reach at least the slice's size, although the access may end before the slice does. Offset
  1, width 2, slice of 2 bytes: the upper byte is taken from the third byte of the stored
  register (`LoadElim.UnalignedHalfword`). The shifted word and the joined answer are right for
  all values exactly when the access is a whole word, starts no earlier than the slice, or ends
  no earlier (`LoadElim.ShiftClearsExactly`, `LoadElim.JoinedExactly`); natural alignment makes
  it so (`LoadElim.AlignedReachesEnd`).
- `opt/gcm.c:139-264`: instructions computed from constants only are never reached by the late
  phase. They stay in the start block even where a lower block of the same loop weight would do
  (`GcmSched.VisitedIff`, `GcmSched.ConstsStay`; an input is `GcmSched.ConstMovesUp`). The start
  block is the best choice exactly when every other candidate is heavier
  (`GcmSched.StartIsBest`).
- `mir/regalloc.c:413-446`: the comment on variadic functions promises that callee-saved
  registers stay unused. The hint is looked at before that test, and an interval gets such a
  register exactly when it is hinted at a free one (`RegScan.VarargChoice`; an input is
  `RegScan.HintedTakesSaved`). No interval is hinted today, and without such hints the promise
  holds (`RegScan.VarargClean`).
- `mir/mem2reg.c:159-192`: frontiers are filled at blocks with two predecessors or more, and the
  walk stops at the block's immediate dominator, which for the entry is itself. So the entry is
  never put in its own frontier, where every edge to it puts it by definition, and in another
  block's only if two or more edges lead to it (`MirCfg.OneEdgeBack`, `MirCfg.TwoEdgesBack`).
  The frontiers are right exactly when no edge leads to the entry (`MirCfg.WalkIsFrontier`,
  `MirCfg.MFn.FillFrontiers`), which promotion therefore asks for.
- `meow/src/engine/graph.c:411-501`: a failing run leaves its targets marked as being visited,
  so asking for one of them again fails without running anything (`BuildGraph.FailsAgain`,
  `BuildGraph.Builder.RunTarget`); a run succeeds exactly when, among others, nothing it needs
  is so marked.

## Model

| member | source | states |
|---|---|---|
| `Rpo.Orderer.FillRpo` | projects/mcc/src/opt/cfg.c:63-103 | the search leaves a reverse postorder: `rpo` lists exactly the reachable blocks, the start first, each other block after one of its predecessors, every edge goes forward in it or closes a loop, of two successors that can be reached from one block only the one in the heavier loop comes first, `id` is its inverse and -1 elsewhere; unreachable blocks are gone from the block list |
| `Rpo.RenumberedIsRpoNumbered` | projects/mcc/src/opt/cfg.c:83-103 | naming blocks by `id` gives a graph in which every block but the start has a predecessor with a smaller number |
| `Rpo.DomRenumbered` | projects/mcc/src/opt/cfg.c:83-103 | one block dominates another under the new names exactly when it did under the old ones, so results about numbered graphs hold of any graph |
| `MirOrder.BlkPost` | projects/mcc/src/mir/gvn.c:46-78 | the search with an explicit stack terminates and lists the reachable blocks once, the start last, closed under successors, each other block before one of its predecessors, and each successor of a block before it unless it leads back to it |
| `MirOrder.RpoOf` | projects/mcc/src/mir/mem2reg.c:530-545 | the reversed order with its index table is a reverse postorder in the same sense as the recursive search gives, edges against it closing loops |
| `CfgPass.Fn.Inter` | projects/mcc/src/opt/cfg.c:117-136 | the two-finger walk ends at the deepest common ancestor in the partial tree, whichever operand is missing |
| `CfgPass.Fn.FillDom` | projects/mcc/src/opt/cfg.c:138-171 | the fixpoint loop terminates on every numbered graph, and then a block lies on the idom chain of another exactly when every path from the start to the latter passes through it |
| `DomTree.ChainIsDominance` | projects/mcc/src/opt/cfg.c:138-171 | any tree that is sound, complete and unchanged by a pass has dominance for its chains; that the loop reaches such a tree is the contract of `CfgPass.Fn.FillDom` |
| `DomTree.StepKeepsProgress` | projects/mcc/src/opt/cfg.c:150-168 | replacing one block's link by the meet of its placed predecessors keeps the tree sound and everything the rest of the pass relies on |
| `DomTree.TreeStep` | projects/mcc/src/opt/cfg.c:145-170 | one block of a pass either makes the tree lighter or leaves it as it was at the start of the pass: the measure by which the loop terminates |
| `DomTree.MeetKeepsDominators` | projects/mcc/src/opt/cfg.c:117-136 | what dominates both blocks dominates the block `inter` returns |
| `CfgPass.Fn.StrictlyDominates` | projects/mcc/src/opt/cfg.c:173-182 | the walk up the idom chain answers strict dominance over paths |
| `CfgPass.Fn.Dominates` | projects/mcc/src/opt/cfg.c:184-188 | the query answers dominance over paths |
| `CfgPass.Fn.FillFron` | projects/mcc/src/opt/cfg.c:190-221 | a block is in the frontier of a exactly when a dominates one of its predecessors but does not strictly dominate it, and is listed once |
| `MirCfg.MFn.FillIdom` | projects/mcc/src/mir/gvn.c:102-136 | the fixpoint with the start linked to itself terminates; its chains are dominance and each depth is one more than the parent's |
| `MirCfg.MFn.Mdom` | projects/mcc/src/mir/gvn.c:138-147 | climbing to equal depth and comparing answers dominance over paths |
| `MirCfg.MFn.FillFrontiers` | projects/mcc/src/mir/mem2reg.c:159-192 | the walk from join points leaves, for any entry block, the frontiers except that the entry is never in its own and in another block's only when two or more edges lead to it; it gives every frontier exactly when no edge leads to the entry |
| `MirCfg.WalkIsFrontier` | projects/mcc/src/mir/mem2reg.c:159-192 | on every numbered graph what the walk leaves is the frontiers if and only if no edge leads to the entry |
| `MirCfg.OneEdgeBack` | projects/mcc/src/mir/mem2reg.c:172-180 | an input with one edge to the entry: two blocks have the entry in their frontier, and the walk leaves it in neither |
| `MirCfg.TwoEdgesBack` | projects/mcc/src/mir/mem2reg.c:172-180 | an input with two: the walk leaves the entry in the other block's frontier and still not in its own |
| `M2rPlace.Promotable` | projects/mcc/src/mir/mem2reg.c:239-285 | a type is returned exactly when the value has no aggregate description and every appearance of the address is a plain load or store of that one scalar type; none, exactly when there is no such type |
| `M2rPlace.CandidatesArePrivate` | projects/mcc/src/mir/mem2reg.c:239-310 | the escape test is sound: addresses of candidates reach nothing but their own accesses, which are of the whole slot and all of one type |
| `M2rPlace.SeedBlocks` | projects/mcc/src/mir/mem2reg.c:601-610 | the work list starts with exactly the blocks that store to the slot |
| `M2rPlace.PlacePhis` | projects/mcc/src/mir/mem2reg.c:611-628 | the work list loop gives a phi, once, to exactly the least set of blocks that holds the frontiers of the stores and of its own members |
| `Promotion.EdgeAgrees` | projects/mcc/src/mir/mem2reg.c:351-508 | on an edge into a block without a phi for the slot, the value at the end of the predecessor is the one the dominator tree gives, on every path including loops |
| `Promotion.NotRedefined` | projects/mcc/src/mir/mem2reg.c:350-508 | a value on a slot's stack is not defined again between its push and the point where it is used |
| `Promotion.LoadReadsLastStore` | projects/mcc/src/mir/mem2reg.c:397-420 | on every run, of any length, a removed load's copy has the load's type and copies a value that, at that width, is what the slot's memory gives when the load is reached |
| `Promotion.PromotionPreserves` | projects/mcc/src/mir/mem2reg.c:513-740 | the function with its slots in memory, each store cut to its type's width, and the rewritten one visit the same blocks for ever, with the same world and values, and every slot's current value is, at the slot's width, what memory holds |
| `Mem2Reg.Renamer.Rename` | projects/mcc/src/mir/mem2reg.c:350-508 | the walk with its per-slot stacks and unwinding work list rewrites every block as the dominator tree demands with one argument per edge; run as a probe it changes nothing and flags exactly the slots with an undefined read |
| `Mem2Reg.Renamer.Retract` | projects/mcc/src/mir/mem2reg.c:655-702 | dropping the flagged slots leaves exactly the unflagged ones and their phis |
| `Mem2Reg.ArgFound` | projects/mcc/src/mir/mem2reg.c:463-500 | a phi with complete arguments finds, for every predecessor, the slot's value at the end of it |
| `M2rDriver.StacksRestricted` | projects/mcc/src/mir/mem2reg.c:633-706 | dropping other slots changes no stack of a kept one: the probe and the real walk meet the same stacks |
| `M2rDriver.NothingUndefined` | projects/mcc/src/mir/mem2reg.c:337-344 | the slots left after the probe never meet the undefined case in the real walk |
| `M2rDriver.ColumnsLeast` | projects/mcc/src/mir/mem2reg.c:593-628 | no phi is placed that a set closed under frontiers could do without |
| `M2rDriver.PromotedIsEquivalent` | projects/mcc/src/mir/mem2reg.c:513-751 | the rewritten function is well formed and behaves as the original for every meaning of its opaque parts, every start and every length of run |
| `M2rDriver.Mmem2Reg` | projects/mcc/src/mir/mem2reg.c:513-751 | the whole pass: for a plan over exactly the promotable slots, with the least phi sets, it keeps exactly the slots without an undefined read, every phi has one argument for each incoming edge, behaviour is preserved, the result is again in strict SSA form, no operand mentions a kept slot, and each instruction of the old function is accounted for |
| `M2rSsa.PromotedAccounted` | projects/mcc/src/mir/mem2reg.c:397-460 | from the old function alone: each block holds, in order, what its instructions become; a load of a kept slot a copy to its result, a store of a constant a copy of the constant, both of the type the slot is accessed with; a store of a value nothing; any other instruction itself, only the allocas of kept slots missing |
| `M2rSsa.StackMade` | projects/mcc/src/mir/mem2reg.c:397-460 | whatever is on a slot's stack at a place, an operand stored earlier, a copied constant or a phi, is defined in the new function before that place |
| `M2rSsa.PromotedStrict` | projects/mcc/src/mir/mem2reg.c:38-40 | the explicit SSA invariant: old values, phis and copied constants each have one definition, never both an instruction and a phi, and it dominates every use and every phi argument's edge |
| `Gvn.NotDefinedHere` | projects/mcc/src/mir/gvn.c:286-317 | between a computation and any point it dominates, nothing defines its result or its operands again |
| `Gvn.EquationsStep` | projects/mcc/src/mir/gvn.c:286-317 | after every instruction all dominating pure computations still hold of the current values |
| `Gvn.EquationsEdge` | projects/mcc/src/mir/gvn.c:286-317 | and they hold after every edge, phis included, so also when a loop is entered again |
| `Gvn.ClassEqual` | projects/mcc/src/mir/gvn.c:229-239 | an eliminated result and its canonical value are equal wherever the eliminated instruction dominates |
| `Gvn.ReplacedUseEqual` | projects/mcc/src/mir/mir_util.c:275-303 | on any run of the original function a replaced operand and its replacement have the same value when the instruction is reached |
| `Gvn.NewInput` | projects/mcc/src/mir/gvn.c:286-317 | after forwarding, every value left has one definition, above all uses forwarded to it: the result is strict SSA and may be numbered again |
| `Gvn.NewIsForwarded` | projects/mcc/src/mir/mir_util.c:275-303 | said of the two functions instruction by instruction: a removed computation leaves a no-op, any other instruction keeps its operation, type, size, displacement and result, and each operand and phi argument is the old one or, if that was eliminated, its canonical value |
| `Gvn.GvnPreserves` | projects/mcc/src/mir/gvn.c:260-332 | the function before and after run in step for ever and agree on every value still computed |
| `GvnPass.NumbersTell` | projects/mcc/src/mir/gvn.c:172-194 | value numbers with their tags coincide exactly for operands that are the same value or the same constant, within the id ranges |
| `GvnPass.SignatureTells` | projects/mcc/src/mir/gvn.c:229-257 | an entry with the same operation, type and numbers performs the same computation |
| `GvnPass.Numbering.Find` | projects/mcc/src/mir/gvn.c:228-239 | the table search returns a matching entry in a dominating block, and none exactly when the bucket has none |
| `GvnPass.Mgvn` | projects/mcc/src/mir/gvn.c:260-332 | the pass replaces by equal dominating values only, preserves every run, keeps strict SSA form, changes nothing but forwarded operands and removed computations, and leaves no pure instruction below a dominating one with the same operation and operands |
| `MirNames.NamesPreserve` | projects/mcc/src/mir/build.c:52-67 | giving the values a pass made numbers of their own changes nothing a run of any length does |
| `MirNames.NumberingMayFollow` | projects/mcc/src/mir/passes.c:200-203 | promotion's result, its phis and copies numbered from the value counter, meets all that value numbering asks of its input |
| `MirNames.BothPasses` | projects/mcc/src/mir/passes.c:200-203 | promotion, numbering and value numbering in a row: the function with its slots in memory and the final one visit the same blocks, do the same to the world and agree on every old value that is left |
| `ParMove.Generator.PmGen` | projects/mcc/src/opt/rega.c:277-347 | the emitted copies and swaps, in execution order, leave every destination with the initial content of its source and every other location unchanged, for any mix of cycles, chains and fan-out; no move has two instructions, a copy has its move's class, a swap its move's base class, and it is wide just when a move on its cycle, or on the way into it from the first move that leads there, is |
| `ParMove.ClosedWide` | projects/mcc/src/opt/rega.c:281-294 | the width gathered on the way down the recursion is that of all moves the first one waits for: this is how many large instructions are emitted |
| `ParMove.Generator.PmRec` | projects/mcc/src/opt/rega.c:290-334 | the recursion handles exactly the chain it is called on, reporting the move a cycle closes on and the class wide enough to swap it |
| `RegScan.PoolBuild` | projects/mcc/src/mir/regalloc.c:266-300 | the two pools hold exactly the class's registers that are not global, reserved, scratch or taken by position-independent or thread-local code, split by callee-saved, in increasing order |
| `RegScan.FillFixed` | projects/mcc/src/mir/regalloc.c:336-383 | a position is in a register's list exactly when the ABI holds the register there: an operand, a waiting argument or the returned-structure pointer |
| `RegScan.ChoiceSuits` | projects/mcc/src/mir/regalloc.c:410-446 | whatever register is chosen is free, of the class, unoccupied over the interval and callee-saved if a call falls into it |
| `RegScan.Scanner.FindVictim` | projects/mcc/src/mir/regalloc.c:457-477 | the interval evicted suits the new one and lasts longest of those that do, beyond the new one's end |
| `RegScan.EvictStep` | projects/mcc/src/mir/regalloc.c:478-489 | handing the register over mid-scan keeps all promises of the scan, the evicted interval getting a slot of its own |
| `RegScan.SlotIsBelow` | projects/mcc/src/mir/regalloc.c:186-214 | a new spill slot lies wholly below everything given out before, aligned and as high as that allows, with the 4-byte and 8-byte cursors sharing one area |
| `RegScan.VarargChoice` | projects/mcc/src/mir/regalloc.c:413-446 | in a variadic function an interval is given a callee-saved register exactly when it is hinted at one of its class that is free over it |
| `RegScan.HintedTakesSaved` | projects/mcc/src/mir/regalloc.c:413-446 | an input: two free registers, the callee-saved one hinted and taken |
| `RegScan.VarargClean` | projects/mcc/src/mir/regalloc.c:434-446 | a variadic function in which no interval is hinted at a callee-saved register uses none, evictions included, and has no save area |
| `RegScan.WhySpilled` | projects/mcc/src/mir/regalloc.c:410-500 | an interval that is no phi slot ends without a register only if, when it started, every register it may hold belonged to a live interval (callee-saved ones apart in variadic functions) and no longer one of its class could yield, or if a shorter one of its class took its register later; the limit of 256 active intervals is never met |
| `RegScan.AloneInRegister` | projects/mcc/src/mir/regalloc.c:410-446 | in particular an interval that overlaps no other lives in a register if one may hold it |
| `RegScan.Allocate` | projects/mcc/src/mir/regalloc.c:328-528 | each interval ends in a register or a slot, never both; a register suits its interval, two intervals in one register do not overlap, slots are aligned, apart, inside the frame and below the saved registers; variadic functions keep callee-saved registers unused unless hinted; each interval is given the first register free for it, its hint before caller-saved before callee-saved ones and those by number, else that of the longest interval that can yield; the registers used are those given out, and the frame ends with the lowest slot |
| `Alias.MayIsOpen` | projects/mcc/src/opt/alias.c:30-84 | for accesses of any sizes and displacement the answer "may" is given only where both outcomes are possible at run time: accesses that start at one address, and accesses without a common byte |
| `LoadElim.Loader.Def` | projects/mcc/src/opt/load.c:211-337 | within a block, whatever `def` returns holds every wanted byte a real load would read and zero elsewhere in the slice, for any sequence of overlapping wider and narrower accesses; on failure the insertion log is as it was; it succeeds exactly when, going up, must-alias accesses to all wanted bytes are met before a definition of the base, a call that can reach the object or a may-alias store |
| `LoadElim.FindRest` | projects/mcc/src/opt/load.c:288-326 | the search for the bytes an access leaves over succeeds exactly when the whole search can |
| `LoadElim.Loader.Part` | projects/mcc/src/opt/load.c:304-317 | a mask is inserted exactly when some covered byte is not wanted or the access does not seem to reach the slice's end |
| `LoadElim.Loader.Serve` | projects/mcc/src/opt/load.c:291-331 | one must-alias access, shifted, masked and joined with what the recursive search finds for the rest, answers the whole mask |
| `LoadElim.ShiftClearsExactly` | projects/mcc/src/opt/load.c:304-317 | where no mask is inserted, the bytes the access does not cover are zero for every stored value exactly when the access is a whole word, starts no earlier than the slice, or covers the slice's end |
| `LoadElim.JoinedExactly` | projects/mcc/src/opt/load.c:304-331 | the answer handed back, joined with what is found for the rest, is right for every stored value and every rest exactly under that condition |
| `LoadElim.AlignedReachesEnd` | projects/mcc/src/opt/load.c:288-304 | natural alignment is enough: every must-alias access of a block of aligned accesses meets the condition |
| `LoadElim.UnalignedHalfword` | projects/mcc/src/opt/load.c:304-331 | an input that does not: a halfword stored one byte below the halfword loaded; the upper byte of the joined answer is a byte of the stored register that was never in memory, whatever the rest is |
| `Live.LiveInIs` | projects/mcc/src/opt/live.c:59-125 | walking a block backwards leaves exactly what is read before being defined in it, or is live at its end and not defined |
| `Live.LiveInStep` | projects/mcc/src/opt/live.c:3-20 | the path definition of liveness satisfies the block equation |
| `Live.SolutionHasPath` | projects/mcc/src/opt/live.c:39-131 | every solution of the equations contains everything that is live |
| `Live.SolutionExact` | projects/mcc/src/opt/live.c:39-131 | a solution that claims only live temporaries is liveness itself |
| `Live.Liveness.FillLive` | projects/mcc/src/opt/live.c:39-131 | the loop terminates; t is live into a block exactly when some path from its start reaches a use of t, or a phi use on the edge taken, with no definition before it; `gen` holds what occurs in the block, and the pressure of a class is the most of its temporaries that are live at one place of the block |
| `Live.PeakIs` | projects/mcc/src/opt/live.c:84-124 | no place in the block has more live temporaries of the class than reported, and one has as many, live being said of paths |
| `ZeroVal.Search.ReachesNotVia` | projects/mcc/src/opt/cfg.c:364-401 | the marking search answers whether a path exists that avoids the excluded block, and clears its marks |
| `ZeroVal.BranchDomLeaves` | projects/mcc/src/opt/gvn.c:310-321 | if the branch test accepts, the last visit to the branching block on every path leaves by the edge tested for |
| `ZeroVal.LeavesIsBranchDom` | projects/mcc/src/opt/gvn.c:310-321 | and it accepts whenever that is so |
| `ZeroVal.NotRevisited` | projects/mcc/src/opt/gvn.c:323-336 | after the last visit to a dominator, the blocks that dominate it are not visited again, so tested values are not recomputed |
| `ZeroVal.ComparedValue` | projects/mcc/src/opt/gvn.c:291-308 | through a compare with zero the outcome of the branch says whether the compared operand is zero |
| `ZeroVal.AnswerIsTrue` | projects/mcc/src/opt/gvn.c:338-362 | when an answer is given, on every run to the block the value is zero or not as answered, in the width asked for |
| `ZeroVal.ZeroValue` | projects/mcc/src/opt/gvn.c:338-362 | an answer comes from a dominating branch that decides it, and none is given only when no dominating branch decides it |
| `SimplJmp.Pass.UfFind` | projects/mcc/src/opt/cfg.c:313-324 | path compression terminates, keeps the links leading along empty blocks only and returns their root |
| `SimplJmp.RetSame` | projects/mcc/src/opt/cfg.c:326-345 | sending every plain return through one new block changes no sequence of events |
| `SimplJmp.ThreadedSame` | projects/mcc/src/opt/cfg.c:345-362 | a threaded graph shows the same events from every block, endless runs through empty blocks included |
| `SimplJmp.SimplJmp` | projects/mcc/src/opt/cfg.c:326-362 | the pass: same sequence of non-empty blocks from every block of the list, no way leads into an empty block that jumps elsewhere, no conditional jump has one target only, and the added block is the only one to return, every plain return having become a jump to it |
| `Gcm.FillDepth` | projects/mcc/src/opt/cfg.c:253-275 | depths are the lengths of the idom chains, in whatever order the blocks are listed |
| `Gcm.Lca` | projects/mcc/src/opt/cfg.c:277-294 | the deepest common dominator |
| `Gcm.BestBid` | projects/mcc/src/opt/gcm.c:112-135 | of the chain from the late block up to the early one, the block with the smallest loop weight, the lowest of those |
| `GcmSched.EarlyIsHigh` | projects/mcc/src/opt/gcm.c:34-74 | the early block dominates the block the instruction comes from |
| `GcmSched.EarlyBelowOperand` | projects/mcc/src/opt/gcm.c:60-74 | and is dominated by the early blocks of the operands |
| `GcmSched.EarlyIsHighest` | projects/mcc/src/opt/gcm.c:60-74 | and is above every block that lies below the operands' early blocks; what is pinned, and phis, keep their block |
| `GcmSched.LateIsMeet` | projects/mcc/src/opt/gcm.c:97-195 | the scan over the uses computes the deepest block above all uses that count: any block above them all is above it |
| `GcmSched.ChosenIsBest` | projects/mcc/src/opt/gcm.c:112-195 | an instruction the late phase places is in the best block between its early block and where its uses meet |
| `GcmSched.VisitedIff` | projects/mcc/src/opt/gcm.c:139-264 | the late phase comes to every needed temporary but those computed from constants only |
| `GcmSched.ConstsStay` | projects/mcc/src/opt/gcm.c:139-264 | those stay in their early block, which is the start block |
| `GcmSched.StartIsBest` | projects/mcc/src/opt/cfg.c:296-311 | the start block, the lightest, is the best choice for them exactly when every other block on the way to the use is heavier |
| `GcmSched.ConstMovesUp` | projects/mcc/src/opt/gcm.c:139-264 | an input where it is not: a value computed from constants in a block of the start block's weight is moved up in every schedule, although only its own block is best |
| `GcmSched.OperandAbove` | projects/mcc/src/opt/gcm.c:139-213 | operands are computed in a block that dominates the one the result is computed in, wherever both were moved |
| `GcmSched.PhiArgAbove` | projects/mcc/src/opt/gcm.c:216-232 | a phi that stays finds its arguments at the end of the blocks they come from |
| `GcmSched.JumpArgAbove` | projects/mcc/src/opt/gcm.c:234-243 | and so does the jump that ends a block |
| `GcmSched.Schedule` | projects/mcc/src/opt/gcm.c:432-452 | both phases over all blocks: operands, phi arguments and jump arguments above their readers, fixed instructions unmoved, the others best placed, dropped phis without a block |
| `SlotFusion.RovlapIsCommonPoint` | projects/mcc/src/opt/mem.c:123-127 | the range test is sharing a program point |
| `SlotFusion.RaddIsHull` | projects/mcc/src/opt/mem.c:129-138 | adding a range's ends gives the least range around both |
| `SlotFusion.Fuse` | projects/mcc/src/opt/mem.c:391-417 | slots with one representative have disjoint live ranges and are no larger than it, although the hull is compared first; and a slot stays apart only if each earlier group has a member in its way |
| `Blit.Emitter.Blit` | projects/mcc/src/opt/simpl.c:4-49 | the emitted chunk moves copy exactly the bytes, upwards or downwards by the sign, for every size and with or without 8-byte moves, in the fewest chunks |
| `Blit.FixedDirection` | projects/mcc/src/opt/mem.c:456-472 | the sign chosen for two places in one slot is one that makes the copy right, and equal places need no copy |
| `Blit.CopyInSlot` | projects/mcc/src/opt/mem.c:456-472 | the two together are a memmove: the destination holds the old source bytes and nothing else changes, whatever the overlap |
| `AssocCon.FoldIsValue` | projects/mcc/src/opt/fold.c:16-82 | a folded constant is the operation's value wherever the symbols are placed |
| `AssocCon.TruncRaw` | projects/mcc/src/opt/fold.c:62-73 | cutting 64-bit operands to 32 bits before or after add, sub, and, or and xor gives the same result |
| `AssocCon.SubIsAddNeg` | projects/mcc/src/opt/gvn.c:182-188 | subtracting a constant is adding its negation, the most negative one included |
| `AssocCon.RawIs` | projects/mcc/src/opt/fold.c:16-82 | the operations are those of machine words: bit by bit, and addition and subtraction modulo 2^64 |
| `AssocCon.FoldedWhen` | projects/mcc/src/opt/gvn.c:222-227 | two constants are merged unless a symbol is subtracted, meets another, or stands in a bitwise operation |
| `AssocCon.FoldedSum` | projects/mcc/src/opt/gvn.c:222-236 | the merged constant is the sum of the two, subtracted ones counted negative, modulo 2^64; it is subtracted as its absolute value exactly when it is a negative number of the class |
| `AssocCon.FoldedKeeps` | projects/mcc/src/opt/gvn.c:190-241 | the merged instruction computes what the old one did at its width, in every environment that holds the inner result, wide inner and narrow outer included |
| `AssocCon.Fn.NewCon` | projects/mcc/src/ir/ir_util.c:497-513 | the pool is searched from its second entry and grows only when the constant is not there |
| `AssocCon.Fn.AssocCon` | projects/mcc/src/opt/gvn.c:190-241 | one instruction is rewritten or nothing changes; the values that satisfy all instructions before and after are the same, operands stay listed as uses |
| `BuildGraph.TargetOutOfDate` | projects/meow/src/engine/graph.c:786-843 | out of date exactly when phony or without outputs, a needed file is missing, or some output is older than some prerequisite or than the epoch |
| `BuildGraph.Builder.RunTarget` | projects/meow/src/engine/graph.c:411-771 | serial runs terminate and succeed exactly when the target needs, through true conditions, no target being visited, none on a cycle and none with a failing fatal command; a target still being visited fails with nothing run; the log stays one in which no command runs twice, none before its target's dependencies and none after a fatal failure |
| `BuildGraph.FailsAgain` | projects/meow/src/engine/graph.c:411-501 | an input: a target whose command fails is asked for twice; the second request fails and runs nothing |
| `BuildGraph.AfterDeps` | projects/meow/src/engine/graph.c:483-501 | a command runs only after all known dependencies of its target are done |
| `BuildGraph.DoneIsFree` | projects/meow/src/engine/graph.c:411-423 | a target that is done needs nothing that is being visited, on a cycle or failing: finishing order is a topological order |

## Left out

Whole parts:

- Unreachable blocks of MIR functions: they are outside the numbering and not looked at.
- Allocation failure, fixed buffer sizes, arenas and the bitset words: sequences, sets and maps
  without bound stand for them. The 64 moves, 256 active intervals, 64 registers, 4096 buckets
  and 32-bit value numbers are kept.
- Floating point everywhere: only integer classes have a meaning; floating classes appear
  where registers are assigned or moved.
- `opt/fold.c` beyond add, sub, and, or and xor on numbers and symbol offsets.
- `opt/rega.c` beyond parallel moves (`doblk`, hints, edge copies), `spill.c`, `mreg_postra`.
- `mir/regalloc.c`: building the intervals; they arrive sorted, as `qsort` leaves them.
- `opt/load.c`: block copies as a source, unaligned accesses, floating casts, search across
  blocks with phis, and loads inserted where the search fails.
- `opt/alias.c`: how alias records are filled; `LoadElim` asks that records describe addresses.
- `opt/live.c`: calls and the global registers.
- `opt/gcm.c`: moving instructions (`gcmmove`, `schedblk`, `sink`) once blocks are chosen.
- `opt/mem.c`: computing live ranges in `coalesce`; slots arrive sorted by `scmp`.
- `opt/gvn.c` beyond constants and zero tests.
- `opt/cfg.c`: `loopiter` and `fillloop`; loop weights are a parameter.
- `graph.c` of meow: the forked parallel path and its locks; downloads and unpacking are
  commands among others; creating targets from patterns; progress counters and logs; the
  `error` callback run after a failing command; stored build state.
- The phi case of the width analysis in `opt/copy.c`, and `mir/combine.c`: a claim that they
  preserve meaning would not follow from the code.

Members that state less than one might read into them:

- M2rDriver.Mmem2Reg: a slot holds, and a typed copy gives, the low bytes of the type's width
  as a number that is not negative; floating values are bit patterns. New values are named by
  where they are made; `MirNames` numbers them.
- MirNames.BothPasses: copy propagation and block-local store forwarding, which `passes.c` runs
  between the two, are not part of this model. Any numbering without clashes is allowed, not
  only the order in which `mval_new` is called.
- GvnPass.Mgvn: a replacement scans the function where the source follows the use chains; both
  reach every operand, phi argument and terminator. The id ranges of values and constants are
  assumed small enough for the tags.
- LoadElim.Loader.Def: one block, naturally aligned integer accesses.
- AssocCon.Fn.AssocCon: use lists are indexed by the operand's number as in the source; when the
  inner first operand is a constant, the entry goes to the temporary of that number, if there is
  one.
- GcmSched.ChosenIsBest: phis that turn out unused are dropped block by block, so the uses that
  count are those of the phis present when the instruction was placed.
- Blit.Emitter.Blit: addresses are unbounded integers, and the class of address arithmetic is
  not part of this model.
- M2rSsa.PromotedAccounted: instructions have types, values have none; the type a new phi's
  value is made with is not modelled.
- Rpo.Orderer.FillRpo: where successors can be reached on other ways too, which of them is
  numbered first is not stated.
- MirOrder.BlkPost: neither is it here, where the first successor is searched first.
- BuildGraph.Builder.RunTarget: file times are those a target meets when it is examined, and
  which commands fail is fixed beforehand; each is asked for at most once in a run.
- SimplJmp.SimplJmp: blocks are named by their place in the list, the new return block last.
