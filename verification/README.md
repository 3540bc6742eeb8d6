# Verified models of the T2 runtime

A Dafny model of the Lua 5.1 runtime embedded in T2 (`misc/luabash/lua`), of its MD5 streaming code
(`misc/luabash/md5`) and of the package graph tool (`source/dependency.cc`), with proofs of what they are
for. `dafny verify dfyconfig.toml` checks all of it.

- **Collector** (`Gc*`). Objects are colours and references in a heap; linked lists are sequences, the
  sweep pointer is a position. The invariant covers all five phases. A run is any sequence of events:
  collector steps, full collections, allocations, stores with their barriers, upvalues, basic metatables,
  a change of the running thread, strings fixed, the string table resized. `GcObject` is the collector as a
  class whose loops update the lists; each method computes the state its specification gives.
- **Tables** (`Table*`, `LuaTable`). The class has the array part, the node part with `next` links and
  `lastfree`. The main position is an arbitrary function of key and size. `TableRun` replays whole runs
  against a finite map.
- **Expressions** (`Lua*`). `LuaCode` says what each code generation function makes of the function being
  compiled, with patch lists as sequences; `LuaFunc` threads the lists through the jump offsets and the
  `LuaGen*` methods refine `LuaCode` in place; `LuaDriver` is the recursive descent. `LuaVm` is the machine
  and `LuaCheck` the bytecode checker. `LuaText` and `LuaLoss` read off the text what generation
  does.
  `LuaGrammar` and `LuaMeaning` say outright how operators bind and what the machine returns for each.
- **Sorting** (`Quicksort`), **patterns** (`Patterns`, `Pattern*`), **precompiled chunks** (`Chunk*`, `Zio`,
  `Undump`, `DumpState`), **quoted strings** (`Quoted`), **MD5** (`Md5`), **package graph** (`Pkg*`).

Positions count from 0 in `Quicksort` and the pattern modules, from 1 in the sources. Errors the sources
raise are results (`ok`, `Err`, `Failed`, `failed`), not preconditions, unless said below.

## Findings

Where the code does not do what it is for, the model keeps the code and says exactly when it does.

- `misc/luabash/lua/lcode.c:547-550` and `:575-578`: where a literal makes generation jump always, jumps
  that were pending to that place with a value join the new jump, and from then on carry a wrong value.
  `((x or false) and true) or false` returns x instead of true (`LuaClash.WrongValue`). Control flow stays
  right, so `not` of the same expression is right (`LuaClash.NegationRight`). `LuaLoss.TextOkExact` gives the
  condition on the text that holds exactly when no such jump is closed into a register; then every run is
  right (`LuaLoss.TextReturnCorrect`). Where it fails, a run is still right if it does not take such a jump
  or the value carried happens to be the one due.
- `misc/luabash/lua/lcode.c:702-703`: a unary minus keeps a literal nil, true or false as a constant
  operand; the machine reads it as a register beyond the frame and the checker refuses the code
  (`LuaFits.AcceptedExactly`, `LuaFits.MinusTrueRefused`). The run still ends in an error, as it should (`LuaError.ErrorCorrect`).
- `misc/luabash/md5/md5.c:190-192`: where size_t has 64 bits, a piece of 2^29 bytes or more is counted as if
  the low word had overflowed even when it has not, and the padded length is wrong (`Md5.MiscountedPiece`,
  `Md5.TrailerRight`).
- `misc/luabash/lua/ldump.c:131`: a function without a source comes back from a dump with the source of its
  surroundings, so the round trip holds exactly for functions that all have one (`ChunkBack.RoundTrip`,
  `ChunkBack.NamelessGetsSource`).
- `misc/luabash/lua/lstrlib.c:182` and `:501-502`: the test for special characters does not look for `)` and
  stops at a zero byte. A pattern with one of them and nothing special before it goes to the plain search, which
  compares all of it, while as a pattern `)` is malformed and a zero ends the match
  (`PatternFind.ParenthesisDiffers`, `PatternFind.ZeroDiffers`). The two searches give the same if and only if
  what comes before does not occur in the string from the start position on (`PatternFind.SearchesAgree`); they
  agree on all strings exactly for the patterns without the two (`PatternFind.WordsAgree`).
- `misc/luabash/lua/lzio.h:22`: the count of unread bytes is decremented before it is looked at, so at the end
  of the stream it wraps and another call would read beyond the buffer. `Zio.Stream.Getc` can be called exactly
  as long as it has not given the end; the string reader never asks again after it (`Quoted.LexState.Next`).
- `misc/luabash/lua/llex.c:133`: a string printed with %q is read back unless its line ends bring the line
  number to the limit (`Quoted.RoundTrip`).
- `source/dependency.cc:281-289`: with a cycle among the packages some arrow does not cover a row that
  needs its package (`PkgLayout.ArrowsCoverDependents`, `PkgLayout.PairNotCovered`).

## Model

| member | source | states |
|---|---|---|
| GcMark.MarkShades | misc/luabash/lua/lgc.c:69-112 | shading an object: it and what it is sure to refer to become marked, nothing marked becomes white, containers wait in the gray list |
| GcMark.PropagateTri | misc/luabash/lua/lgc.c:277-320 | traversing the first gray object keeps the tri-colour invariant, the single-list discipline and what every object refers to, and unmarks nothing |
| GcMark.PropagateAllTri | misc/luabash/lua/lgc.c:323-327 | the loop over the gray list ends with the list empty, the invariant kept and nothing unmarked |
| GcMark.FieldsAre | misc/luabash/lua/lgc.c:69-112 | the values an object refers to, kind by kind: both values of the entries that are not empty, a stack up to its top, the slot of an open upvalue |
| GcState.RootsAre | misc/luabash/lua/lgc.c:499-545 | the roots are the main thread, the running one, the registry and the basic metatables |
| GcMark.TraversedStores | misc/luabash/lua/lgc.c:158-274 | after its traversal a table or a stack stores exactly the references that were marked: the keys of empty nodes and what lies above the top of a stack are cleared |
| GcMark.TraversedSameRefs | misc/luabash/lua/lgc.c:158-274 | traversing a table or a stack clears only what no reference is read from: every object refers to the same values as before |
| GcState.ReachableAlive | misc/luabash/lua/lgc.c:525-553 | in every state of the invariant an object that can be reached is not dead |
| GcState.AtomicMarksClosed | misc/luabash/lua/lgc.c:529-544 | the marking of the atomic step: afterwards marked objects refer to marked objects only, and the running thread and the basic metatables are marked |
| GcState.RemarkShades | misc/luabash/lua/lgc.c:515-522 | marking the values of gray open upvalues again only shades |
| GcCycle.MarkRootInv | misc/luabash/lua/lgc.c:501-512 | starting a cycle keeps the invariant and marks the main thread and the registry |
| GcCycle.PropagateInv | misc/luabash/lua/lgc.c:562-570 | a propagation step keeps the whole invariant: no black object refers to a white one, threads and open upvalues are never black |
| GcCycle.AtomicDead | misc/luabash/lua/lgc.c:545-551 | flipping the current white makes exactly the objects left unmarked dead |
| GcCycle.AtomicInv | misc/luabash/lua/lgc.c:525-553 | the atomic step, with the flip of the current white and the reset of both sweep positions, keeps the invariant and starts the sweep; no object that is not dead refers to a dead one |
| GcSweep.SweepWholeInv | misc/luabash/lua/lgc.c:407-428 | sweeping a whole bucket or a whole list of open upvalues keeps the invariant and leaves its members current white |
| GcSweep.PassedNotDead | misc/luabash/lua/lgc.c:407-428 | the part of the object list a chunked sweep has passed holds no dead object |
| GcStep.RecolorInv | misc/luabash/lua/lgc.c:695-709 | closing an upvalue that is not dead, with the colour it is given, keeps the invariant and every reference |
| GcStep.CloseUpvalsInv | misc/luabash/lua/lfunc.c:96-112 | closing the open upvalues of a thread down to a level keeps the invariant, every reachable object and its references; level 0 closes all |
| GcClose.CloseOneState | misc/luabash/lua/lfunc.c:99-111 | one turn of the loop: the first upvalue leaves its list and the ring, and is freed if it was dead, else owns the value of its slot and is linked in front of the objects |
| GcClose.CloseUpvalsExact | misc/luabash/lua/lfunc.c:96-112 | for every level exactly the upvalues at or above it are closed: those below stay in the list of the thread, in order; the lists of other threads and all other objects are as they were; the closed ones own the value their slot had and are linked, the dead ones are freed |
| GcCollect.SingleStepSafe | misc/luabash/lua/lgc.c:556-607 | every step of the five-phase collector keeps the invariant and frees or alters nothing that can be reached |
| GcFull.StepTerminates | misc/luabash/lua/lgc.c:556-607 | every step but the one that starts a cycle moves on to the next phase or shrinks a well-founded measure of the work left in its phase |
| GcFull.RunTo | misc/luabash/lua/lgc.c:649-657 | the loops of a full collection end in the phase they wait for, with the invariant |
| GcFull.ResetSweepInv | misc/luabash/lua/lgc.c:637-648 | cutting a mark phase short and sweeping everything keeps the invariant and all that can be reached |
| GcFull.PreservesBack | misc/luabash/lua/lgc.c:636-659 | a collection makes nothing reachable that was not |
| GcFull.FullGCExact | misc/luabash/lua/lgc.c:636-659 | a full collection, started in any state, ends in the pause phase; what is left is exactly the objects that could be reached and the fixed ones, all current white, the reachable ones referring to the same values |
| GcMutator.PutThreadInv | misc/luabash/lua/lgc.c:256-274 | a store into a stack or an open upvalue needs no barrier: threads are never black |
| GcMutator.StoreFieldInv | misc/luabash/lua/lgc.c:662-672 | a store into any other object but a table, followed by the forward barrier, keeps the invariant in every phase |
| GcMutator.StoreTableInv | misc/luabash/lua/lgc.c:675-683 | a store into a table, whatever it moves, followed by the back barriers for key and value, keeps the invariant in every phase |
| GcRun.Allocate | misc/luabash/lua/lgc.c:686-692 | a new object gets the current white and changes no other object |
| GcRun.AllocateInv | misc/luabash/lua/lgc.c:686-692 | allocation in the middle of any phase keeps the invariant; the new object is not dead |
| GcStrings.ResizeBuckets | misc/luabash/lua/lstring.c:22-47 | the rehash keeps exactly the strings there were, each in the bucket of its hash |
| GcStrings.ResizeInv | misc/luabash/lua/lstring.c:22-47 | resizing the string table outside the sweep of the strings keeps the invariant, in the middle of a cycle too |
| GcSafety.FindUpvalInv | misc/luabash/lua/lfunc.c:53-79 | looking for an upvalue keeps the invariant and gives out the only open upvalue of the slot, resurrecting one that was dead |
| GcSafety.OneUpvalPerSlot | misc/luabash/lua/lfunc.c:53-79 | a stack slot has at most one open upvalue |
| GcSafety.ResurrectInv | misc/luabash/lua/lstring.c:82-91 | giving a dead string found in the table the other white keeps the invariant |
| GcSafety.FixStringInv | misc/luabash/lua/lstring.h:24 | fixing a string keeps the invariant |
| GcSafety.ApplyInv | misc/luabash/lua/lgc.c:556-709 | every event keeps the invariant: collector steps, full collections, allocation, stores with their barriers, upvalues found and closed, basic metatables, change of the running thread, fixing strings, resizing the string table |
| GcSafety.ApplyFreesNothingReachable | misc/luabash/lua/lgc.c:407-428 | no event frees an object that can be reached |
| GcSafety.InitialInv | misc/luabash/lua/lstate.c:70-81 | the state a new universe starts in has the invariant |
| GcSafety.RunSafe | misc/luabash/lua/lgc.c:556-607 | safety over all runs: from any state of the invariant and after any sequence of events, no event frees an object that can be reached at that point |
| GcSafety.NewStateSafe | misc/luabash/lua/lstate.c:70-81 | the same for every run from a new universe with its globals, its registry and no basic metatable yet |
| GcSafety.BasicMtSet | misc/luabash/lua/lgc.c:493-498 | a basic metatable can be set in such a run and is a root from then on |
| GcObject.GlobalState.ReallyMarkObject | misc/luabash/lua/lgc.c:69-112 | marks an object as the specification does, in place |
| GcObject.GlobalState.TraverseTable | misc/luabash/lua/lgc.c:158-197 | marks the entries of a table from the ends and clears the keys of empty nodes |
| GcObject.GlobalState.TraverseProto | misc/luabash/lua/lgc.c:203-221 | marks what a prototype refers to |
| GcObject.GlobalState.TraverseClosure | misc/luabash/lua/lgc.c:224-238 | marks what a closure refers to |
| GcObject.GlobalState.TraverseStack | misc/luabash/lua/lgc.c:256-274 | marks a stack up to its top and clears the rest up to the limit |
| GcObject.GlobalState.PropagateMark | misc/luabash/lua/lgc.c:277-320 | pops the first gray object and traverses it; a thread goes to the list for the atomic step |
| GcObject.GlobalState.PropagateAllM | misc/luabash/lua/lgc.c:323-327 | empties the gray list |
| GcObject.GlobalState.MarkRootM | misc/luabash/lua/lgc.c:501-512 | starts a cycle |
| GcObject.GlobalState.RemarkUpvalsM | misc/luabash/lua/lgc.c:515-522 | marks the values of gray open upvalues again |
| GcObject.GlobalState.AtomicM | misc/luabash/lua/lgc.c:525-553 | the atomic step |
| GcObject.GlobalState.SweepMembers | misc/luabash/lua/lgc.c:407-428 | unlinks and frees the dead members of a list and whitens the others |
| GcObject.GlobalState.SweepBucket | misc/luabash/lua/lgc.c:571-580 | sweeps one bucket of the string table and moves on |
| GcObject.GlobalState.SweepCurrent | misc/luabash/lua/lgc.c:407-428 | one object of a chunked sweep |
| GcObject.GlobalState.SweepList | misc/luabash/lua/lgc.c:407-428 | at most the given number of objects of the list |
| GcObject.GlobalState.SingleStep | misc/luabash/lua/lgc.c:556-607 | one step: the specified state, the invariant kept, nothing reachable freed or altered |
| GcObject.GlobalState.FullGC | misc/luabash/lua/lgc.c:636-659 | a full collection: exactly the reachable and the fixed objects are left, all current white |
| GcObject.GlobalState.BarrierM | misc/luabash/lua/lgc.c:662-672 | the forward barrier |
| GcObject.GlobalState.BarrierBackM | misc/luabash/lua/lgc.c:675-683 | the backward barrier |
| GcObject.GlobalState.LinkUpval | misc/luabash/lua/lgc.c:695-709 | the colour of a closed upvalue |
| GcObject.GlobalState.ResizeStrings | misc/luabash/lua/lstring.c:22-47 | moves every string to its new bucket, in place |
| GcObject.GlobalState.FindUpvalM | misc/luabash/lua/lfunc.c:53-79 | finds or makes the open upvalue of a slot and keeps it the only one |
| GcObject.GlobalState.CloseM | misc/luabash/lua/lfunc.c:96-112 | closes exactly the upvalues of a thread at or above a level, with the values their slots had; those below, the lists of other threads and all other objects are as they were |
| TableSizes.CountInt | misc/luabash/lua/ltable.c:211-219 | counts an integer key in its slice |
| TableSizes.NumUseArray | misc/luabash/lua/ltable.c:222-244 | counts the values of the array part, in all and by slice |
| TableSizes.NumUseHash | misc/luabash/lua/ltable.c:247-260 | counts the values of the node part and adds its array indices to the slices |
| TableSizes.ComputeSizes | misc/luabash/lua/ltable.c:189-208 | finds the largest power of two n with more than n/2 of the slots 1..n in use, and how many keys go there |
| TableMap.UsedCounts | misc/luabash/lua/ltable.c:333-349 | the keys in use in both parts and the new key add up, in every slice and below every bound |
| TableMap.RehashRoom | misc/luabash/lua/ltable.c:333-349 | the size a rehash asks for the node part is exactly the number of keys, the new one included, that do not fit in the new array part |
| TableChains.FillFree | misc/luabash/lua/ltable.c:399-429 | filling an empty main position keeps the chains: acyclic, every key reachable from its main position, no key out of its place on another's chain head |
| TableChains.Overwrite | misc/luabash/lua/ltable.c:399-429 | writing over a key whose value is gone keeps the chains |
| TableChains.InsertBehind | misc/luabash/lua/ltable.c:418-423 | linking a new key behind the head of its chain keeps the chains |
| TableChains.Relocate | misc/luabash/lua/ltable.c:410-417 | moving a colliding key out of another's main position keeps the chains |
| TableChains.OnePredecessor | misc/luabash/lua/ltable.c:412 | a node has at most one predecessor, so the one the walk finds is the one to relink |
| LuaTable.Table.Find | misc/luabash/lua/ltable.c:435-489 | finds the slot of a key if there is one, in either part, and only then |
| LuaTable.Table.Get | misc/luabash/lua/ltable.c:469-489 | returns the value the table as a map has for the key |
| LuaTable.Table.GetFreePos | misc/luabash/lua/ltable.c:382-388 | fails only when every node has a key |
| LuaTable.Table.FindPrevious | misc/luabash/lua/ltable.c:412 | finds the predecessor of a node whose key is out of its place |
| LuaTable.Table.Relieve | misc/luabash/lua/ltable.c:402-424 | Brent's step: a slot for the new key, the same map, one node more in use |
| LuaTable.Table.NewKey | misc/luabash/lua/ltable.c:399-429 | gives a new key its slot without changing any value; a rehash is followed by no second one |
| LuaTable.Table.Place | misc/luabash/lua/ltable.c:494-517 | gives a key its slot, new or old, without changing any value; terminates |
| LuaTable.Table.Set | misc/luabash/lua/ltable.c:494-517 | an assignment changes the map at its key and nowhere else |
| LuaTable.Table.SetNodeVector | misc/luabash/lua/ltable.c:272-294 | an empty node vector of the next power of two, refused beyond 2^MAXBITS |
| LuaTable.Table.Resize | misc/luabash/lua/ltable.c:297-324 | rebuilding with other sizes, larger or smaller, keeps the map and never needs a rehash itself |
| LuaTable.Table.Rehash | misc/luabash/lua/ltable.c:333-349 | the array part gets its best size, the map is kept, and the key to be inserted has room |
| LuaTable.Table.LinearSearch | misc/luabash/lua/ltable.c:543-547 | finds a boundary by walking up |
| LuaTable.Table.BinarySearch | misc/luabash/lua/ltable.c:552-556 | finds a boundary between a present and an absent index |
| LuaTable.Table.UnboundSearch | misc/luabash/lua/ltable.c:532-557 | finds a boundary by doubling, with the walk as fallback |
| LuaTable.Table.GetN | misc/luabash/lua/ltable.c:560-576 | terminates and returns a boundary: 0 or a present index, with an absent one after it |
| TableRun.LiveKeysCount | misc/luabash/lua/ltable.c:222-260 | the counts of both parts are the number of keys with a value |
| TableRun.OverfullNeedsMany | misc/luabash/lua/ltable.c:272-294 | only a table of 2^26 assigned keys can overflow |
| TableRun.Replay | misc/luabash/lua/ltable.c:494-517 | a new table given any assignments answers every key with the last value assigned to it and its length with a boundary, whatever rehashes happened; fewer than 2^26 assignments always succeed |
| LuaParse.ParseSound | misc/luabash/lua/lparser.c:811-853 | what the priority-driven recursion parses is the text of the tree, grouped by the priorities, and it stops where it must |
| LuaParse.ParseComplete | misc/luabash/lua/lparser.c:811-853 | every tree grouped by the priorities is parsed from its text, whatever may follow |
| LuaParse.ParseRoundTrip | misc/luabash/lua/lparser.c:811-853 | the text of a grouped tree has that tree as its only reading |
| LuaGrammar.GroupedIs | misc/luabash/lua/lparser.c:809-843 | a tree is grouped by the priorities in a place with a limit if and only if it has the level of the place in a grammar with one level for each strength of operator |
| LuaGrammar.ParsesGrammar | misc/luabash/lua/lparser.c:809-853 | the parser of a whole expression gives exactly the trees of that grammar: or, and, comparisons, sums, products, unary operators, powers; all but powers associate to the left |
| LuaGrammar.TwoOperators | misc/luabash/lua/lparser.c:809-814 | for all operators p and q, which of the two trees a p b q c is parsed to, by classes of operators |
| LuaGrammar.UnaryFirst | misc/luabash/lua/lparser.c:821-836 | a unary operator takes a power and nothing weaker |
| LuaDriver.Parser.SimpleExp | misc/luabash/lua/lparser.c:667-775 | generates code for a literal, a local or an expression in parentheses |
| LuaDriver.Parser.SubExpr | misc/luabash/lua/lparser.c:828-853 | parses and generates in one pass: the code is that of the tree ParseSub gives for the text, which ParsesGrammar pins down, and nothing pending of others is touched |
| LuaDriver.Parser.Operation | misc/luabash/lua/lparser.c:841-850 | one operator of the loop with its second operand |
| LuaFunc.ListUnique | misc/luabash/lua/lcode.c:100-106 | the list threaded from a jump is finite and determined by the code |
| LuaFunc.ListLinked | misc/luabash/lua/lcode.c:185-196 | linking the end of one list to the head of a disjoint one gives the two lists in order |
| LuaFunc.FuncState.constructor | misc/luabash/lua/lparser.c:328-353 | a new function: no code, its parameters in the first registers |
| LuaFunc.FuncState.FixJump | misc/luabash/lua/lcode.c:80-87 | writes the offset, or records that it is out of range |
| LuaFunc.FuncState.Concat | misc/luabash/lua/lcode.c:185-196 | appends one list to another; no instruction outside the first list changes |
| LuaFunc.FuncState.PatchTestReg | misc/luabash/lua/lcode.c:131-141 | tells a test where to keep its value, or to keep none |
| LuaFunc.FuncState.NeedValue | misc/luabash/lua/lcode.c:122-128 | whether a jump of the list comes without a value |
| LuaFunc.FuncState.RemoveValues | misc/luabash/lua/lcode.c:144-147 | no test of the list keeps a value any more |
| LuaFunc.FuncState.PatchListAux | misc/luabash/lua/lcode.c:150-160 | every jump of the list gets its target, jumps with a value the other one; no other jump changes |
| LuaFunc.FuncState.DischargeJpc | misc/luabash/lua/lcode.c:163-166 | the pending jumps go to the present place |
| LuaFunc.FuncState.Code | misc/luabash/lua/lcode.c:797-809 | appends an instruction after sending the pending jumps to it |
| LuaFunc.FuncState.Jump | misc/luabash/lua/lcode.c:59-66 | a new jump, with the jumps that were pending on its list |
| LuaFunc.FuncState.PatchToHere | misc/luabash/lua/lcode.c:179-182 | the jumps of a list become pending |
| LuaFunc.FuncState.CondJump | misc/luabash/lua/lcode.c:74-77 | a test and its jump |
| LuaEmit.PatchListAuxAt | misc/luabash/lua/lcode.c:150-160 | patching a list: what every instruction of the code is afterwards |
| LuaEmit.DischargeRun | misc/luabash/lua/lcode.c:163-166 | giving the pending jumps their target changes no run |
| LuaEmit.EmitRun | misc/luabash/lua/lcode.c:797-809 | a run of the code with a new instruction is a run of the code before and then the instruction |
| LuaEmit.CondJumpRun | misc/luabash/lua/lcode.c:74-77 | a run of the code with a new test and jump leaves by the jump or goes on as the test says |
| LuaEmit.JumpRun | misc/luabash/lua/lcode.c:59-66 | a run that comes to a new jump leaves by it |
| LuaExec.ExecAppend | misc/luabash/lua/lvm.c:375-400 | code appended is run exactly where the code before it falls off its end |
| LuaExec.ExecPatch | misc/luabash/lua/lcode.c:150-160 | patching a list changes a run only where it leaves by a jump of the list: it goes on at the target |
| LuaClose.Discharge2RegMeans | misc/luabash/lua/lcode.c:343-379 | the value is put in the register, the jumps of the lists as they were |
| LuaClose.PatchBothRun | misc/luabash/lua/lcode.c:390-411 | runs that leave by either list arrive at the end with the right value in the register, other runs are unchanged |
| LuaReg.Exp2RegMeans | misc/luabash/lua/lcode.c:390-411 | whatever form the value and its jumps had, afterwards it is in the register |
| LuaOperand.Exp2AnyRegDenotes | misc/luabash/lua/lcode.c:422-433 | the value is in some register, its own or a new one |
| LuaOperand.Exp2RKDenotes | misc/luabash/lua/lcode.c:444-469 | the value is an operand, a register or a constant that fits |
| LuaCond.GoIfTrueGuard | misc/luabash/lua/lcode.c:539-564 | runs go on exactly when the value is true and otherwise leave by the false list; wrong only for a literal false where a value is pending |
| LuaCond.GoIfFalseGuard | misc/luabash/lua/lcode.c:567-591 | runs go on exactly when the value is false and otherwise leave by the true list; wrong only for a literal true where a value is pending |
| LuaOps.CodeNotDenotes | misc/luabash/lua/lcode.c:594-626 | the code of a negation computes the negation, with the lists exchanged and their values removed |
| LuaBinary.CodeMinusDenotes | misc/luabash/lua/lcode.c:697-710 | the code of a unary minus computes it |
| LuaBinary.CodeArithDenotes | misc/luabash/lua/lcode.c:661-678 | the code of an arithmetic operator computes it, folded or not, the operands put in place in either order |
| LuaBinary.CodeCompDenotes | misc/luabash/lua/lcode.c:681-694 | the code of a comparison computes it, the operands exchanged for the operators that have no instruction |
| LuaCompile.EvalFrame | misc/luabash/lua/lparser.c:828-853 | an expression looks at the active locals only |
| LuaCompile.CompileDenotes | misc/luabash/lua/lcode.c:343-789 | the code of an expression, in any context, computes its value; locals and registers in use are unchanged and the jumps of the context undisturbed |
| LuaReturn.ExpressionCorrect | misc/luabash/lua/lcode.c:343-789 | wherever a run comes to the start of an expression's code it comes to its end with the value in a register and every register in use as it was |
| LuaReturn.ExecRuns | misc/luabash/lua/lvm.c:375-760 | the machine follows the structured execution of the code to its end |
| LuaReturn.ReturnCorrect | misc/luabash/lua/lcode.c:343-789 | the code of `return e', run by the machine, returns the value of e and changes no parameter, if no value is lost in an unconditional jump |
| LuaGen.Discharge2Reg | misc/luabash/lua/lcode.c:343-379 | in place: the specified state, the threaded lists of the expression intact, no jump of others touched |
| LuaGen.CloseLists | misc/luabash/lua/lcode.c:395-409 | in place: both lists get their targets, the loads of booleans are generated when needed |
| LuaGen.Exp2Reg | misc/luabash/lua/lcode.c:390-411 | in place: the value goes to the register, both lists are closed |
| LuaGenOps.Exp2AnyReg | misc/luabash/lua/lcode.c:422-433 | in place: the value goes to some register |
| LuaGenOps.Exp2RK | misc/luabash/lua/lcode.c:444-469 | in place: the value becomes an operand |
| LuaGenCond.JumpOnCond | misc/luabash/lua/lcode.c:524-536 | in place: the test and its jump, a NOT just generated taken back |
| LuaGenCond.GoIfTrue | misc/luabash/lua/lcode.c:539-564 | in place: the jumps that leave are on the false list, the others pending |
| LuaGenCond.GoIfFalse | misc/luabash/lua/lcode.c:567-591 | in place: the jumps that leave are on the true list, the others pending |
| LuaGenBinary.CodeNot | misc/luabash/lua/lcode.c:594-626 | in place: the negation, the lists exchanged |
| LuaGenBinary.CodeArith | misc/luabash/lua/lcode.c:661-678 | in place: the arithmetic instruction or the folded number |
| LuaGenBinary.CodeComp | misc/luabash/lua/lcode.c:681-694 | in place: the comparison and its jump |
| LuaGenBinary.Prefix | misc/luabash/lua/lcode.c:697-715 | in place: a prefix operator |
| LuaGenBinary.Infix | misc/luabash/lua/lcode.c:718-742 | in place: what is done with the first operand before the second one |
| LuaGenBinary.Posfix | misc/luabash/lua/lcode.c:745-789 | in place: the operator over both operands |
| LuaOpen.ReturnClosed | misc/luabash/lua/lcode.c:59-196 | no jump of a finished function is left without a target |
| LuaReturn.FinishedCode | misc/luabash/lua/lparser.c:356-365 | the code of a function is that of its last statement followed by the final return |
| LuaOpen.CompileReturn | misc/luabash/lua/lparser.c:356-1266 | from tokens to the finished prototype with its final return in one pass, over lists threaded through the code: exactly the code of the tree the text has |
| LuaText.ReadRight | misc/luabash/lua/lcode.c:539-591 | a reading of the text alone tells the form generation leaves a value in, what its jumps carry, the constants entered and whether a value is pending |
| LuaLoss.WrongSince | misc/luabash/lua/lcode.c:547-578 | the jumps that come to carry a wrong value are new in the expression or were pending where it starts |
| LuaLoss.LossRight | misc/luabash/lua/lcode.c:343-789 | the reading tells which list holds a jump with a wrong value, and exactly where one is closed into a register for an operand |
| LuaLoss.TextOkExact | misc/luabash/lua/lcode.c:343-789 | the condition on the text holds if and only if generation closes no jump with a wrong value into a register, for an operand or for the result |
| LuaLoss.TextReturnCorrect | misc/luabash/lua/lcode.c:343-789 | for every expression whose text meets the condition, the machine returns the value of e and changes no parameter |
| LuaLoss.NoLiteralOk | misc/luabash/lua/lcode.c:547-578 | expressions without a literal or folded operand of `and' or `or' meet the condition |
| LuaClash.WrongValue | misc/luabash/lua/lcode.c:575-578 | for every value of the local x, the code of ((x or false) and true) or false returns the right value if and only if x is false, nil or true; the text does not meet the condition |
| LuaClash.NegationRight | misc/luabash/lua/lcode.c:594-626 | the negation of that expression meets the condition: of a wrong value only the truth is used |
| LuaError.CompileStops | misc/luabash/lua/lcode.c:343-789 | where the evaluation of an expression has no result, the run of its code stops with an error, wherever in the expression that is |
| LuaError.ErrorCorrect | misc/luabash/lua/lcode.c:343-789 | the code of `return e' ends in a run-time error whenever e has no value |
| LuaMeaning.ReturnBinary | misc/luabash/lua/lvm.c:472-572 | the machine run of `return l op r', for operands with values a and b: the six comparisons return the boolean of a < b, a <= b, a > b, a >= b, a == b or its negation, arithmetic its result, and order and arithmetic of what is no number ends in an error; `and' and `or' return an operand |
| LuaMeaning.ReturnShort | misc/luabash/lua/lvm.c:568-582 | `and' and `or' return the first operand without the second where it decides |
| LuaMeaning.ReturnStopped | misc/luabash/lua/lvm.c:472-572 | an operand that is needed and has no value ends the run in an error |
| LuaMeaning.ReturnUnary | misc/luabash/lua/lvm.c:496-511 | the machine run of `return not e' and `return -e' |
| LuaMeaning.ReturnLeaf | misc/luabash/lua/lvm.c:400-425 | the machine run of a literal, a local and an expression in parentheses |
| LuaMeaning.ReturnsMany | misc/luabash/lua/lvm.c:637-650 | RETURN gives the values of consecutive registers in order |
| LuaMeaning.ForLoopRuns | misc/luabash/lua/lvm.c:652-678 | a numeric loop starts its body with the initial value and then one step more each time, up or down, as long as the limit is not passed, and is then left |
| LuaMeaning.ForNotNumber | misc/luabash/lua/lvm.c:664-678 | a loop over what is no number is an error |
| LuaFits.CompileFits | misc/luabash/lua/lcode.c:199-226 | every generated instruction uses registers of the frame and constants that exist, and tests know their register unless their jump is open; the exceptions are those the text tells |
| LuaFits.AcceptedExactly | misc/luabash/lua/ldebug.c:468-470 | the checker accepts the generated code of `return e', if no limit was exceeded, if and only if no unary minus is given a literal nil, true or false as a constant |
| LuaFits.MinusTrueRefused | misc/luabash/lua/lcode.c:702-703 | `return -true': the code, which the checker refuses |
| LuaFits.GeneratedContained | misc/luabash/lua/ldebug.c:317-459 | so no run of generated code leaves the code, the frame or the constants |
| LuaCheck.SymbExec | misc/luabash/lua/ldebug.c:317-459 | without a traced register it accepts exactly the code whose every instruction passes its checks; with one it looks at the instructions that the forward jumps within the range lead to, and gives the last of them that changes the register, or the final return if there is none |
| LuaCheck.PassesExactly | misc/luabash/lua/ldebug.c:325-459 | an instruction passes if and only if its registers are in the frame, its constants exist and it stays inside the code |
| LuaCheck.WalkUnique | misc/luabash/lua/ldebug.c:317-459 | there is only one such sequence of instructions |
| LuaCheck.ChangesSound | misc/luabash/lua/ldebug.c:353-372 | a register that a step changes is one the instruction counts as changing, with two exceptions |
| LuaCheck.CheckCode | misc/luabash/lua/ldebug.c:468-470 | accepts exactly the code that passes all checks |
| LuaCheck.StepWrites | misc/luabash/lua/lvm.c:375-760 | an instruction writes no register but those it is counted to touch |
| LuaCheck.StepReads | misc/luabash/lua/lvm.c:375-760 | an instruction reads no register but those it is counted to touch |
| LuaCheck.CheckSound | misc/luabash/lua/ldebug.c:317-459 | no run of accepted code, from any instruction and any registers, leaves the code, touches a register outside the frame or reads a constant that does not exist |
| Quicksort.Median | misc/luabash/lua/ltablib.c:188-207 | puts the first, middle and last element in order |
| Quicksort.ScanUp | misc/luabash/lua/ltablib.c:216-220 | the scan upwards stops at an element not below the pivot, inside the range |
| Quicksort.ScanDown | misc/luabash/lua/ltablib.c:221-225 | the scan downwards stops at an element not above the pivot, inside the range |
| Quicksort.Partition | misc/luabash/lua/ltablib.c:209-234 | splits the range around the pivot by exchanges within it |
| Quicksort.Round | misc/luabash/lua/ltablib.c:185-244 | one round of the loop: the smaller part is sorted, the larger one is left to go on with |
| Quicksort.AuxSort | misc/luabash/lua/ltablib.c:184-245 | sorts a[l..u] in place, changes nothing outside, and nests no deeper than the logarithm of the size |
| Quicksort.Sort | misc/luabash/lua/ltablib.c:247-257 | the whole array ends as a sorted permutation, for any strict weak order |
| Quicksort.SortedUnique | misc/luabash/lua/ltablib.c:184-245 | a sorted permutation is unique up to elements the order does not tell apart |
| Patterns.BracketEndIs | misc/luabash/lua/lstrlib.c:201-222 | a bracket class ends at the first closing bracket that is neither its first character nor escaped; it is malformed only where there is none before the pattern ends |
| PatternMatch.MatchBracketClass | misc/luabash/lua/lstrlib.c:244-264 | whether a character is in a bracket class, ranges and complement included |
| PatternMatch.SingleMatch | misc/luabash/lua/lstrlib.c:267-277 | whether a character is in the class at the pattern position |
| PatternMatch.FindClassEnd | misc/luabash/lua/lstrlib.c:201-222 | the end of the class, or the error of a malformed pattern |
| PatternMatch.FindBalance | misc/luabash/lua/lstrlib.c:280-297 | the end of a balanced stretch, or none |
| PatternSpec.BalanceIs | misc/luabash/lua/lstrlib.c:280-297 | the end found is the only one a balanced stretch from there can have |
| PatternSpec.ExpandIs | misc/luabash/lua/lstrlib.c:300-312 | the greedy count covers exactly the stretches in the class |
| PatternMatch.MatchState.StartCapture | misc/luabash/lua/lstrlib.c:328-339 | opens a capture for the rest of the match and takes it back on failure |
| PatternMatch.MatchState.EndCapture | misc/luabash/lua/lstrlib.c:342-350 | closes the last open capture for the rest of the match and opens it again on failure |
| PatternMatch.MatchState.MatchCapture | misc/luabash/lua/lstrlib.c:353-361 | compares the text of a capture |
| PatternMatch.MatchState.MaxExpand | misc/luabash/lua/lstrlib.c:300-312 | longest first; captures as before on failure |
| PatternMatch.MatchState.MinExpand | misc/luabash/lua/lstrlib.c:315-325 | shortest first; captures as before on failure |
| PatternMatch.MatchState.Match | misc/luabash/lua/lstrlib.c:364-439 | in place: the result of the specified matcher; a failed match leaves the level and all captures below it as they were |
| PatternSpec.MatchRight | misc/luabash/lua/lstrlib.c:364-439 | the backtracking matcher is sound and complete for the declarative meaning of patterns: it returns a match exactly when there is one, and one of them |
| PatternOrder.MatchBest | misc/luabash/lua/lstrlib.c:300-439 | the match found is the best one: `*' and `+' take the longest stretch in the class from which the rest has a match, `-' the shortest, `?' the character if that leaves a match, at every item of the pattern |
| PatternOrder.MatchExact | misc/luabash/lua/lstrlib.c:300-439 | unless the pattern is malformed, a match is found if and only if it is the best one, which is unique |
| PatternClasses.ItemsBack | misc/luabash/lua/lstrlib.c:244-265 | the elements of a set in brackets are read back from their text |
| PatternClasses.SetMeans | misc/luabash/lua/lstrlib.c:244-265 | a set contains the characters of its elements, or after a caret exactly the others |
| PatternClasses.ClassMeans | misc/luabash/lua/lstrlib.c:225-275 | what a single class contains: any character, a letter class or its complement, or itself |
| PatternClasses.BeforeIs | misc/luabash/lua/lstrlib.c:386-394 | the character before a place, zero at the start |
| PatternFind.FindPattern | misc/luabash/lua/lstrlib.c:521-532 | the leftmost start at which the pattern matches and the best match there, or none, or the error of the first start that raises one |
| PatternFind.StartAtIs | misc/luabash/lua/lstrlib.c:36-40 | positions count from 1, negative ones from the end, and are cut off at both ends |
| PatternFind.SearchRight | misc/luabash/lua/lstrlib.c:521-532 | what the pattern search gives is the leftmost match, and none only where there is none |
| PatternFind.MemFind | misc/luabash/lua/lstrlib.c:443-462 | the first occurrence of a word |
| PatternFind.WordMatches | misc/luabash/lua/lstrlib.c:364-439 | a pattern without special characters matches itself and nothing else |
| PatternFind.WordSearch | misc/luabash/lua/lstrlib.c:501-509 | for a word the place the plain search finds is the leftmost match of the pattern |
| PatternFind.MatchToStop | misc/luabash/lua/lstrlib.c:364-439 | a pattern without special characters matches itself up to its first closing parenthesis, which is an error, or zero, which ends the match |
| PatternFind.SearchesAgree | misc/luabash/lua/lstrlib.c:501-509 | without special characters the plain search gives what the pattern search gives if and only if the part before the first closing parenthesis or zero does not occur, or there is none |
| PatternFind.WordsAgree | misc/luabash/lua/lstrlib.c:182-509 | among the patterns without special characters the words are exactly those for which the two searches agree on all strings |
| PatternFind.ParenthesisDiffers | misc/luabash/lua/lstrlib.c:501-509 | `)' in `)': found at once by the plain search, an error as a pattern |
| PatternFind.ZeroDiffers | misc/luabash/lua/lstrlib.c:501-509 | a pattern with a zero: not found by the plain search where the pattern search finds what is before the zero |
| PatternFind.StrFind | misc/luabash/lua/lstrlib.c:494-535 | the plain search or the pattern search as the source chooses; without an explicit request it is the result of the pattern search if and only if the two agree as above, and then the leftmost match |
| Chunk.DecodeEncode | misc/luabash/lua/ldump.c:45-53 | a number stored in the byte order of the machine is read back |
| ChunkBack.IntBack | misc/luabash/lua/lundump.c:60-66 | a dumped int that is not negative is read back |
| ChunkBack.StringBack | misc/luabash/lua/lundump.c:75-87 | a dumped string, zero bytes and absence included, is read back whatever follows |
| ChunkBack.ConstantBack | misc/luabash/lua/lundump.c:99-128 | a dumped constant is read back |
| ChunkBack.HeadBack | misc/luabash/lua/lundump.c:160-172 | everything before the nested functions is read back, the source taken from the surroundings when it was not dumped |
| ChunkBack.DebugBack | misc/luabash/lua/lundump.c:136-158 | the debug information is read back |
| ChunkBack.FunctionBack | misc/luabash/lua/lundump.c:160-177 | a dumped function tree is read back, its bytes and no more, exactly when the checker takes every function in it |
| ChunkBack.UndumpDump | misc/luabash/lua/lundump.c:191-205 | loading a dump gives the function up to the sources, or the refusal of the checker, and nothing else |
| ChunkBack.RoundTrip | misc/luabash/lua/lundump.c:191-205 | loading an unstripped dump gives the same function tree if and only if every function has a source |
| ChunkBack.NamelessGetsSource | misc/luabash/lua/ldump.c:131 | a function without a source inside one with a source comes back with that source |
| ChunkBack.StrippedRoundTrip | misc/luabash/lua/ldump.c:111-127 | loading a stripped dump gives the tree without sources and debug information |
| ChunkBack.ForeignChunk | misc/luabash/lua/lundump.c:179-186 | a chunk is refused for its header exactly when it comes from a machine that stores numbers another way |
| ChunkFormat.SampleBytes | misc/luabash/lua/ldump.c:55-150 | the bytes of the chunk of one function that has something everywhere, for both orders of bytes: the header, every field in its place, the tags of constants, the source of an inner function left out |
| ChunkFormat.FourBytesOf | misc/luabash/lua/ldump.c:42-45 | the four bytes of a number in both orders |
| ChunkFormat.CutOffRefused | misc/luabash/lua/lundump.c:50-58 | a chunk that is cut off anywhere is refused |
| ChunkFormat.NegativeRefused | misc/luabash/lua/lundump.c:60-66 | a negative int is refused |
| ChunkFormat.OtherTagRefused | misc/luabash/lua/lundump.c:99-126 | a constant with another tag is refused |
| ChunkFormat.OtherHeaderRefused | misc/luabash/lua/lundump.c:179-186 | a chunk with another header is refused whatever follows |
| DumpStates.DumpState.DumpBlock | misc/luabash/lua/ldump.c:29-37 | hands a block to the writer unless it has failed before |
| DumpStates.DumpState.WriteString | misc/luabash/lua/ldump.c:61-74 | writes a string or its absence |
| DumpStates.DumpState.WriteConstants | misc/luabash/lua/ldump.c:80-105 | writes the constants |
| DumpStates.DumpState.WriteDebug | misc/luabash/lua/ldump.c:111-127 | writes the debug information, none of it when stripping |
| DumpStates.DumpState.WriteFunction | misc/luabash/lua/ldump.c:129-141 | writes a function and the functions in it |
| DumpStates.DumpState.DumpChunk | misc/luabash/lua/ldump.c:153-164 | the writer gets the chunk, or a prefix of it up to its own failure |
| Zio.FlatConcat | misc/luabash/lua/lzio.c:21-32 | how bytes are split into non-empty chunks does not matter |
| Zio.Stream.Fill | misc/luabash/lua/lzio.c:21-32 | the first byte of the next chunk, or the end |
| Zio.Stream.Getc | misc/luabash/lua/lzio.h:22 | the next byte; or the end, and the count of unread bytes has wrapped: the stream must not be asked again |
| Zio.Stream.Lookahead | misc/luabash/lua/lzio.c:35-45 | the next byte without consuming it, or the end |
| Zio.Stream.Read | misc/luabash/lua/lzio.c:58-71 | the bytes asked for, across chunks, or all there are and how many are missing |
| Undump.LoadState.LoadBlock | misc/luabash/lua/lundump.c:47-51 | a block, or the error at the end of the stream |
| Undump.LoadState.ReadString | misc/luabash/lua/lundump.c:75-87 | a string as the bytes of the stream denote it |
| Undump.LoadState.ReadConstants | misc/luabash/lua/lundump.c:106-128 | the constants |
| Undump.LoadState.ReadDebug | misc/luabash/lua/lundump.c:136-158 | the debug information |
| Undump.LoadState.ReadFunction | misc/luabash/lua/lundump.c:160-177 | a function, its nested functions and the verdict of the checker |
| Undump.LoadState.UndumpChunk | misc/luabash/lua/lundump.c:191-205 | the result depends on the bytes of the stream only |
| Undump.LoadChunks | misc/luabash/lua/lundump.c:191-205 | loading through a reader of chunks is loading the bytes they hold |
| Undump.LoadSplitDump | misc/luabash/lua/lundump.c:191-205 | however the dump of a function with sources is split into non-empty chunks, loading gives the function, or the refusal of the checker |
| Md5.PaddingIs | misc/luabash/md5/md5.c:219-221 | one bit 1, then bits 0, and as few of them as make the length 56 bytes modulo 64, section 3.1 of RFC 1321 |
| Md5.LengthBack | misc/luabash/md5/md5.c:226 | the eight bytes, read with the lowest first, are the length in bits modulo 2^64, section 3.2 of RFC 1321 |
| Md5.PaddedIs | misc/luabash/md5/md5.c:206-230 | the padded message is the message, one bit 1, bits 0 and the length, a multiple of 64 bytes long |
| Md5.InitialWords | misc/luabash/md5/md5.c:58-61 | the initial words A to D are the bytes of section 3.3 of RFC 1321 |
| Md5.FoldAppend | misc/luabash/md5/md5.c:84-172 | the block function over whole blocks can be interrupted anywhere between blocks |
| Md5.HighExact | misc/luabash/md5/md5.c:190-192 | the high word of the count is right exactly when a piece is not miscounted; else it is one too high |
| Md5.MiscountedPiece | misc/luabash/md5/md5.c:190-192 | a first piece of 2^29 bytes is counted as 2^33 bits where size_t has 64 bits |
| Md5.Context.Transform | misc/luabash/md5/md5.c:76-173 | the block function over consecutive blocks |
| Md5.Context.Count | misc/luabash/md5/md5.c:190-192 | the bit count after a piece |
| Md5.Context.Update | misc/luabash/md5/md5.c:180-209 | adding a piece: the state, the count and the buffer are those of the longer message, whatever was buffered |
| Md5.Context.Final | misc/luabash/md5/md5.c:212-239 | the digest of the padded message with the count as it stands; the context is cleared |
| Md5.HighTotal | misc/luabash/md5/md5.c:190-192 | after any pieces the high word is too high by the number of miscounted pieces |
| Md5.TrailerRight | misc/luabash/md5/md5.c:190-192 | the length that ends the padded message is right if and only if the number of miscounted pieces is a multiple of 2^32 |
| Md5.NoneMiscounted | misc/luabash/md5/md5.c:190-192 | no piece below 2^29 bytes is miscounted, and none where size_t has 32 bits |
| Md5.Digest | misc/luabash/md5/md5.c:180-239 | the digest of any pieces: that of RFC 1321 whenever the length is right |
| Md5.DigestOfSplit | misc/luabash/md5/md5.c:180-239 | for pieces below 2^29 bytes the digest is that of RFC 1321, however the message is split |
| Quoted.AddQuoted | misc/luabash/lua/lstrlib.c:695-722 | the printed form of a string |
| Quoted.QuotedClean | misc/luabash/lua/lstrlib.c:695-722 | the printed form holds no zero byte, no carriage return and no line end that is not escaped |
| Quoted.PrintedByte | misc/luabash/lua/lstrlib.c:695-722 | what %q makes of each byte |
| Quoted.LetterEscapes | misc/luabash/lua/llex.c:287-310 | the seven letters after a backslash and the characters they stand for; other bytes stand for themselves |
| Quoted.DigitEscapes | misc/luabash/lua/llex.c:302-316 | three digits are a decimal number, refused above 255 |
| Quoted.LineEscapes | misc/luabash/lua/llex.c:298-299 | an escaped line end of one or two bytes is one line end |
| Quoted.RoundTrip | misc/luabash/lua/llex.c:276-329 | every printed string is read back, whatever follows it, if and only if the line number stays in range; else the error is that of too many lines |
| Quoted.LexState.IncLineNumber | misc/luabash/lua/llex.c:127-135 | skips one line end of one or two bytes and counts it |
| Quoted.LexState.ReadDecimal | misc/luabash/lua/llex.c:305-310 | up to three digits |
| Quoted.LexState.ReadString | misc/luabash/lua/llex.c:276-329 | in place: the string, the rest and the line the text denotes, or its error |
| Quoted.PrintAndRead | misc/luabash/lua/llex.c:276-329 | printing and reading back through any chunks gives the string, or the error of too many lines |
| PkgGraph.Graph.GetPriority | source/dependency.cc:45-66 | one memoised visit: finished packages keep their priority, the warnings are given for a reason, the visit ends on every graph |
| PkgGraph.Graph.HighestDependency | source/dependency.cc:59-63 | the loop over the dependencies of a package |
| PkgGraph.Graph.EvaluateRoot | source/dependency.cc:341 | the evaluation of the root on a fresh graph |
| PkgGraph.NeededPackages | source/dependency.cc:268-271 | exactly the packages the root needs have got a priority |
| PkgGraph.CircularWarning | source/dependency.cc:54-57 | the warning about a circular dependency is given if and only if the root needs a cycle |
| PkgGraph.MissingWarning | source/dependency.cc:48-51 | the warning about an unknown package is given if and only if the root needs one |
| PkgGraph.LongestPath | source/dependency.cc:45-66 | without a cycle the priority is the length of the longest dependency chain |
| PkgGraph.TopologicalOrder | source/dependency.cc:274 | the order by priority respects every dependency if and only if the root needs no cycle |
| PkgLayout.CompatibleArrows | source/dependency.cc:200-203 | two arrows can share a column exactly when no row is beside both |
| PkgLayout.Layout.Measure | source/dependency.cc:281-289 | every arrow ends at the last row below that needs its package |
| PkgLayout.Layout.FreeColumn | source/dependency.cc:295-312 | the lowest column in which no arrow above is met; the search ends |
| PkgLayout.Layout.Arrange | source/dependency.cc:292-314 | no two arrows that meet share a column, and every column left of one chosen was taken |
| PkgLayout.ColumnsUsed | source/dependency.cc:292-314 | the number of columns is exactly the largest number of arrows beside one row |
| PkgLayout.GreedyOptimal | source/dependency.cc:292-314 | no other placement that keeps meeting arrows apart needs fewer columns |
| PkgLayout.ArrowsCoverDependents | source/dependency.cc:281-289 | every arrow runs down past all rows that need its package if and only if the root needs no cycle |
| PkgLayout.PrintGraph | source/dependency.cc:264-314 | rows, arrows and columns from an evaluated graph, with the two results above |
| PkgGraph.PkgNode.AddDependency | source/dependency.cc:24 | a dependency is added behind the others |
| PkgGraph.Graph.AddPkg | source/dependency.cc:41 | a package replaces one of the same name |
| PkgLayout.PairNotCovered | source/dependency.cc:281-289 | two packages that need each other: the warning is given and some arrow misses a row, whatever the priorities |
| PkgLayout.PrintPair | source/dependency.cc:264-341 | the graph of the two, built, evaluated and printed |

## Left out

- Collector: weak tables, userdata with finalizers, the pause and step sizes and all byte accounting,
  reallocation of stacks and of the token buffer. Keys of empty table entries are not references.
- Collector: in the sweep of a dead thread the object is unlinked after its upvalues are closed, before it in
  the source; the two act on different objects.
- Collector: the step that ends the sweep may also shrink the string table; here that is an event of its own,
  possible after any step.
- Collector: the registry keeps the value it has in the first state.
- Collector: a store that changes the tag of an object is closing an upvalue, no other.
- Tables: keys nil and NaN raise errors in the source and are not keys here; floats are not keys.
- Tables: dead keys left by the collector, `luaH_next`, and the overflow of int arithmetic beyond 2^26 slots.
- LuaTable.Table.Set: does not say which assignments fail; a failure is "table overflow", which
  `TableRun.Replay` shows to need 2^26 assignments.
- Expressions: numbers are integers with an arbitrary arithmetic, so rounding, NaN and number formatting are
  not modelled; strings, globals, upvalues, calls, indexing, concatenation and the length operator are not.
- Expressions: the limit on nesting, line information and the packing of instructions into words.
- LuaCompile.CompileDenotes: only for values the evaluation gives; where it has none `LuaError.CompileStops`
  says what happens.
- LuaReturn.ReturnCorrect: stated under the condition on generation; `LuaLoss.TextReturnCorrect` states it
  under the condition on the text, which is equivalent.
- LuaOpen.CompileReturn: reports a limit exceeded at least where the specified generation exceeds one; the
  links of its threaded lists may exceed the range of an offset earlier.
- Checker and machine: calls, closures, tables, varargs, generic loops and open results are not in the
  instruction set; RETURN has a fixed number of values. FORLOOP reads a register that is not a number as the
  raw bits it has.
- Sorting: the error raised for an order function that is not a strict weak order.
- Quicksort.Sort: requires a strict weak order, as the manual asks of the order function.
- Patterns: the values of captures handed to the caller, `gmatch` and `gsub`; the character classes named by
  letters are an arbitrary predicate.
- Chunks: floating-point formats (a number is its eight bytes), failures of memory allocation. The checker is an
  arbitrary predicate there.
- MD5: the 64 steps of the block function, which is an arbitrary function; the formatting of digests. Inputs
  above 2^31 - 1 bytes, where the int index of the source overflows.
- Quoted strings: the limit on the size of the token buffer.
- Package graph: the parsing of cache files and the drawing of the rows. The sort of the source is a library
  call; any sort by priority stands for it.
