# Verified models of CppInterOp's algorithms and protocols

CppInterOp exposes Clang and the LLVM JIT to language bindings. Most of it forwards to those
libraries; this project models the parts that have algorithms and protocols of their own, and proves
what they are for. Clang and LLVM objects are replaced by small datatypes. Code that updates state is
modelled by classes and loops, each proved against a specification function or an invariant; the
results about all inputs and all runs are lemmas over those functions.

| files | what they model |
|---|---|
| `Wrappers`, `Ast` | values that may be missing; the function bodies that the two ownership analyses walk |
| `AllocSpec`, `AllocTraverser`, `AllocSoundness`, `AllocAcyclic`, `AllocPrecision`, `AllocLimits`, `AllocPrecisionLimits` | how a function allocates the pointer it returns |
| `Dealloc`, `DeallocRuns`, `DeallocMemo`, `DeallocCorrect`, `DeallocWays`, `DeallocBranches`, `DeallocRecursion`, `DeallocLimits`, `DeallocBranchLimits` | which parameters a function frees, and how |
| `VTableOverlay`, `OverlayProtocol` | per-object vtable overlays and their destruction hook |
| `SymbolIndex`, `LibrarySearch` | finding the library that has a symbol |
| `ExitRegistry`, `ExitInterleaving` | handlers of jitted code for quick exit and fork |
| `IrPasses` | binding weak globals to the process, one definer per weak thread_local |
| `ErrorOwnership` | reference-counted errors and boxes, and the duty to look at errors |
| `TraceLog` | the names in the reproducer log |
| `RecordLayout` | data members through anonymous records, field offsets through base classes |

## Main results

- **Allocation analysis.** The undo log at an `if`/`else` gives, at any nesting depth, the same facts as
  copying the state and joining pointwise, and the enclosing log can still undo the whole statement
  (`TraverseIf`). The answer is sound for every run on every call graph, recursion included: unless the
  pointer was found in a variable written through its address, the answer is wrong exactly for an allocated
  pointer that was read from a place the analysis does not follow (`AllocTypeSound`). Two conditions on the
  text of the functions that the pointer comes from rule out the one (`UnexposedSound`) and the other
  (`TrackedProgramCorrect`); programs outside them show that both happen (`OutParameterIsMissed`,
  `PassThroughIsMissed`). On acyclic call graphs memo table and early abort cannot be seen in the answer as
  long as no callee that returns no pointer is met twice (`MemoAndAbortInvisible`), and there the answer is
  also the best: an answer describes every run if and only if it is above the one given (`AnswerIsLeast`),
  for text without dead code in which an `if` with a branch that always returns stores nothing, unless the
  function ends there (`StoreBeforeReturnIsJoined` shows why).
- **Deallocation analysis.** Where no variable that counts as an entry value is written through its address or
  moved, marks are never invented (`MarksAreReal`, `TextCalmSuffices`); and wherever the variables that are
  stored, freed and passed resolve to what they hold, and nothing goes to unseen code by other ways than a
  direct call, each mark is the order-independent verdict on all frees of the entry value
  (`TidyMarksAreExact`). With branches and early returns, a run of a program is a run of straight-line code
  that unfolds it. Where the text on its way is tidy in that sense and the branches it leaves out do not
  change what names stand for, no free of a run is missed, even if a function goes a different way each time
  it is called (`FreesAreMarked`). Under the first condition, where in addition no code is dead and the
  branches of an `if` with an `else` leave the outer names alone, each mark stands for a free on some way
  (`BranchMarksAreReal`); and if all ways are tidy a mark is the verdict on all frees on all ways
  (`BranchMarksAreExact`). A function's calls of itself count for nothing (`RecursionCountsForNothing`).
  `DeallocLimits` and `DeallocBranchLimits` have a program for each way to fail.
- **VTable overlays.** What each slot dispatches to, that the four regions of a block tile it exactly, that
  destroying undoes creating, and over every run of creating, destroying and deleting: one callback at
  most, before the destructor (`DestructionProtocol`); from the start of a deletion to its end, whatever
  runs in between, the saved destructor survives and runs (`SavedDestructorRuns`); and the only access
  outside live memory there is (`FaultExactly`).
- **Symbol search.** The lazily built Bloom filter and hash set together answer membership
  (`ContainsSymbol`); the scan of a cyclic dependency graph ends, registers nothing twice, reaches what it
  registers along followed dependencies and leaves none of them behind (`HandleLib`); over all sequences of
  queries and loads the two lists stay duplicate-free and disjoint, gain only what was found from a searched
  directory, listed in the order of the search, lose only what was returned and loaded, and every answer is
  the first library in them whose file lists the symbol (`AnswerAll`).
- **Exit handlers.** Conservation under every interleaving (`HandlersConserved`), LIFO drains with the exact
  condition under which a drain clears its owner (`DrainIsLifo`, `DrainClearsIff`), exactly what can still
  start after a flush (`AfterFlush`), and the opposite orders around a fork (`ForkOrdersOppose`).
- **IR passes.** A variable and its guard stay on the same side (`GuardFollowsVariable`), a second run does
  nothing (`BindTwice`), one weak definer per thread_local (`OneWeakDefiner`).
- **Ownership.** The rule of ownership is stated without any counting: an object goes exactly when its last
  owner does. The reference-counting code follows it in every program, with every count the number of owners
  (`RunProgram`, `FreedWithLastOwner`), and an error shared from a Result outlives it (`SharedOutlives`); a program that has ended the life of all its carriers without an abort
  has freed all it owned and looked at every error (`AllGone`).
- **Trace log.** The log is defined as a function of the traced program; the tracer writes exactly that log
  (`Trace`), and in it each name used is declared exactly once, earlier (`TraceScoped`). Names stand one to one
  for the pointers handed out so far (`HandedOutAreNamed`), and a call's line uses those of its own arguments
  (`CallUsesItsArguments`).
- **Record layout.** The two-stack walk is the recursive flattening (`GetDatamembers`); the search without a
  visited set ends and adds up offsets along a real path, after those of the anonymous records around the
  field (`GetVariableOffset`), and agrees with the path computation where the path is unique (`OffsetsAgree`);
  that computation starts over at each virtual base (`OneStepFurther`).

## Where code and documentation differ, and other surprises

The model follows the code.

- include/CppInterOp/CppInterOp.h:79-80 says that the overlay's callback runs after the destructor; the code
  (lib/CppInterOp/CppInterOp.cpp:3114-3139) runs it before.
- An override of the deleting destructor's slot is displaced by the hook's wrapper and becomes the destructor
  that the wrapper calls.
- An overlay without a hook that is destroyed after its object writes to freed memory; with a hook it never
  does (`FaultExactly`).
- lib/CppInterOp/Tracing.h:539-540 says that nested calls still register handles; the destructor returns before
  that (lines 618-623).
- The allocation analysis memoises Unknown for a callee that does not return a pointer although it answers
  "none", so a second call is answered differently (`NonPointerCalleeIsNotMemoised`).
- Both analyses ignore writes through an address: `T* q = nullptr; create(&q); return q;` is answered "null"
  (`OutParameterIsMissed`), and `take(&p); delete p;` is marked whatever `p` then is (`TakenIsMarked`).
- The deallocation analysis marks a pointer that goes to a function without a body but not one that goes to a
  function pointer (`CallbackIsMissed`).
- It records an assignment before it looks at calls in the right side (`SelfAssignedCallIsMissed`), does not
  notice `+=` (`MovedPointerIsMarked`), and does not follow what a callee, placement new or a pointer to the
  parameter gives back or what one parameter gets from another (`HandedBackIsMissed`, `PlacedIsMissed`,
  `ThroughPointerIsMissed`, `ReassignedIsMissed`).
- It walks over one branch after the other with the same names: in `if (c) q = p; else delete q;` a free is
  marked that no run makes (`ElseSeesThen`), and in `if (c) p = nullptr; delete p;` one is missed
  (`BranchStoreIsMissed`).
- A null handler given to `at_quick_exit` ends a drain early (`DrainClearsIff`).
- A flush can return while another thread still holds one of the owner's handlers and starts it afterwards
  (`FlushCanMissAHeldHandler`); `AfterFlush` shows that these are exactly the ones.

## Model

Lines of lib/CppInterOp/CppInterOp.cpp unless another file is named.

| member | source | states |
|---|---|---|
| `AllocSpec.JoinIsLeastUpperBound` | lib/CppInterOp/CppInterOp.cpp:1955-1966 | join is the least upper bound of the flat lattice with Null below and Unknown above everything; commutative and associative |
| `AllocSpec.HandleExpr` | lib/CppInterOp/CppInterOp.cpp:2093-2174 | evaluation of an expression terminates on every call graph and only adds memo entries |
| `AllocSpec.Traverse` | lib/CppInterOp/CppInterOp.cpp:1972-2091 | the copy-and-join reference: the walk stops early only once the combined result is Unknown, and no fact of an outer variable is lost |
| `AllocSpec.Analyze` | lib/CppInterOp/CppInterOp.cpp:2178-2199 | analysis of a callee terminates on cyclic call graphs because each call first enters the memo table |
| `AllocSpec.ResultOnlyRises` | lib/CppInterOp/CppInterOp.cpp:2074-2091 | later returns only move the combined result up in the lattice |
| `AllocSpec.TraverseKeepsScope` | lib/CppInterOp/CppInterOp.cpp:2037-2072 | facts are kept for exactly the variables in scope |
| `AllocTraverser.AllocationTraverser.UndoOnVarMap` | lib/CppInterOp/CppInterOp.cpp:1967-1970 | every logged variable gets its logged value back, no other changes |
| `AllocTraverser.AllocationTraverser.JoinInto` | lib/CppInterOp/CppInterOp.cpp:1983-1985 | each listed variable is joined with its listed value, in whatever order the hash map yields them |
| `AllocTraverser.AllocationTraverser.Snapshot` | lib/CppInterOp/CppInterOp.cpp:1995-1998 | the values that the changed variables have at the end of the then branch |
| `AllocTraverser.AllocationTraverser.JoinElse` | lib/CppInterOp/CppInterOp.cpp:2008-2017 | variables changed in the else branch are joined with the other branch's value |
| `AllocTraverser.AllocationTraverser.Inform` | lib/CppInterOp/CppInterOp.cpp:2025-2031 | the enclosing log keeps its own entries and gains the nested ones it lacks |
| `AllocTraverser.ThenMerged` | lib/CppInterOp/CppInterOp.cpp:1981-1991 | joining only logged variables is the pointwise join with the state before the if |
| `AllocTraverser.ElseMerged` | lib/CppInterOp/CppInterOp.cpp:1994-2023 | undo, walk and the two join loops are the pointwise join of both branches, although variables changed in both are joined twice |
| `AllocTraverser.InformedUndo` | lib/CppInterOp/CppInterOp.cpp:1986-1988 | after informing it, the enclosing log still undoes to the same state |
| `AllocTraverser.AssignedUndo` | lib/CppInterOp/CppInterOp.cpp:2058-2063 | an assignment logged first can be undone exactly |
| `AllocTraverser.AllocationTraverser.MergeThen` | lib/CppInterOp/CppInterOp.cpp:1981-1991 | an if without else ends in the pointwise join and a log that undoes it |
| `AllocTraverser.AllocationTraverser.SwitchToElse` | lib/CppInterOp/CppInterOp.cpp:1994-2005 | the else branch starts from exactly the facts before the if |
| `AllocTraverser.AllocationTraverser.JoinBranches` | lib/CppInterOp/CppInterOp.cpp:2008-2023 | the two loops after the else branch join both branches for every outer variable |
| `AllocTraverser.AllocationTraverser.MergeElse` | lib/CppInterOp/CppInterOp.cpp:2008-2034 | an if with else ends in the pointwise join and a log that undoes it |
| `AllocTraverser.AllocationTraverser.TraverseIf` | lib/CppInterOp/CppInterOp.cpp:1972-2035 | at any nesting, the undo-log treatment equals copy, run both branches, join; the enclosing log undoes the whole if |
| `AllocTraverser.AllocationTraverser.LogOldValue` | lib/CppInterOp/CppInterOp.cpp:2058-2060 | only the first overwritten value of a branch is logged |
| `AllocTraverser.AllocationTraverser.TraverseSimple` | lib/CppInterOp/CppInterOp.cpp:2037-2091 | declarations, assignments and returns refine the reference walk and keep the log able to undo |
| `AllocTraverser.AllocationTraverser.TraverseStmt` | lib/CppInterOp/CppInterOp.cpp:1972-2091 | the walk of any statement refines the copy-and-join reference |
| `AllocTraverser.AllocationTraverser.HandleExprCode` | lib/CppInterOp/CppInterOp.cpp:2093-2174 | expressions evaluate as in the reference, with the shared memo table updated alike |
| `AllocTraverser.AnalyzeAllocType` | lib/CppInterOp/CppInterOp.cpp:2178-2199 | result and memo table are those of the reference; ends on every finite call graph |
| `AllocTraverser.GetAllocTypeCode` | lib/CppInterOp/CppInterOp.cpp:2201-2214 | the public answer is the reference answer; None for anything that is not a function |
| `AllocSoundness.ExprSound` | lib/CppInterOp/CppInterOp.cpp:2093-2174 | the fact of an expression describes its value in every run, or the value comes out of a skipped recursive call |
| `AllocSoundness.StmtSound` | lib/CppInterOp/CppInterOp.cpp:1972-2091 | along every path of a statement the facts describe the run's variables and the combined result its return value, except for what was written through an address |
| `AllocSoundness.IfSound` | lib/CppInterOp/CppInterOp.cpp:1972-2035 | whichever way a branch goes, the joined facts describe the run |
| `AllocSoundness.AnalyzeSummarizes` | lib/CppInterOp/CppInterOp.cpp:2178-2199 | the summary of a callee covers all its runs and the memo table stays true |
| `AllocSoundness.RootSound` | lib/CppInterOp/CppInterOp.cpp:2206-2210 | skipping recursive calls of the function asked about is sound, by induction on the depth of the run |
| `AllocSoundness.AllocTypeSound` | lib/CppInterOp/CppInterOp.cpp:2178-2214 | for every run on every call graph, unless the pointer was found in a variable written through its address, the answer is right if and only if the pointer is null, the answer is Unknown, or the pointer was followed or never allocated; annotated callees are taken at their word |
| `AllocSoundness.UnexposedSound` | lib/CppInterOp/CppInterOp.cpp:2141-2199 | where no stored or returned variable on the way has its address taken, that if-and-only-if holds for every run |
| `AllocSoundness.TrackedProgramCorrect` | lib/CppInterOp/CppInterOp.cpp:2141-2199 | if moreover stored and returned expressions on the way read no parameter, global or memory, the answer is right for every run; other functions do not matter |
| `AllocLimits.PassThroughIsMissed` | lib/CppInterOp/CppInterOp.cpp:2193-2194 | `id(new T)` returns a pointer from new and is answered "none" |
| `AllocLimits.OutParameterIsMissed` | lib/CppInterOp/CppInterOp.cpp:2046-2072 | `T* q = nullptr; create(&q); return q;` is answered "null" whatever `create` put there |
| `AllocAcyclic.PlainAbsorbs` | lib/CppInterOp/CppInterOp.cpp:2085-2089 | once the combined result is Unknown, walking on never changes it |
| `AllocAcyclic.StmtAgrees` | lib/CppInterOp/CppInterOp.cpp:1972-2091 | on acyclic graphs the memoised, aborting walk gives the result of the plain one |
| `AllocAcyclic.FuncAgrees` | lib/CppInterOp/CppInterOp.cpp:2111-2119 | a callee's answer and every new memo entry are those of an analysis from scratch |
| `AllocAcyclic.MemoAndAbortInvisible` | lib/CppInterOp/CppInterOp.cpp:2074-2214 | on acyclic call graphs, where the walk meets no callee twice that is analysed and returns no pointer, the public answer is that of the analysis without memo table and without abort |
| `AllocAcyclic.EvenProgramsQualify` | lib/CppInterOp/CppInterOp.cpp:2111-2119 | programs whose analysed callees all return pointers meet that condition |
| `AllocAcyclic.NonPointerCalleeIsNotMemoised` | lib/CppInterOp/CppInterOp.cpp:2111-2119 | a callee returning no pointer is answered "none" the first time and Unknown the second |
| `AllocPrecision.FactIsBest` | lib/CppInterOp/CppInterOp.cpp:2093-2174 | the fact of an expression is the least that covers what it can come to in runs, and it can come to something |
| `AllocPrecision.StmtBest` | lib/CppInterOp/CppInterOp.cpp:1972-2091 | the facts after a statement are the least that cover the environments runs can reach, and the combined result grows by no more than what runs can return |
| `AllocPrecision.JoinBest` | lib/CppInterOp/CppInterOp.cpp:1996-2035 | where both branches can fall out, the joined facts are the least that cover what either ends in |
| `AllocPrecision.FuncIsBest` | lib/CppInterOp/CppInterOp.cpp:2178-2199 | the summary of a function is the least that covers its results |
| `AllocPrecision.AnswerIsLeast` | lib/CppInterOp/CppInterOp.cpp:2178-2214 | on acyclic call graphs, for text without dead code in which an `if` with a branch that always returns stores nothing, unless the function ends there: an answer describes every run if and only if it is the public answer or above it |
| `AllocPrecisionLimits.StoreBeforeReturnIsJoined` | lib/CppInterOp/CppInterOp.cpp:1996-2006 | for a branch that stores and returns the answer is Unknown where "none" describes every run |
| `Dealloc.IndexOf` | lib/CppInterOp/CppInterOp.cpp:2315-2323 | a name resolves to the parameter of that name, or to none if there is none |
| `Dealloc.OutsideIsDeclared` | lib/CppInterOp/CppInterOp.cpp:2400-2405 | code that is not there is treated like a declaration without a body |
| `Dealloc.DeallocationTraverser.JoinVectorsCode` | lib/CppInterOp/CppInterOp.cpp:2243-2254 | the callee's marks are joined into the caller's, argument by argument |
| `Dealloc.DeallocationTraverser.VisitCallCode` | lib/CppInterOp/CppInterOp.cpp:2286-2313 | memo table and marks after a call, recursive calls skipped |
| `Dealloc.DeallocationTraverser.WalkStmtCode` | lib/CppInterOp/CppInterOp.cpp:2256-2284 | the mutable walk refines the functional one: names, marks and memo table |
| `Dealloc.AnalyzeDeallocType` | lib/CppInterOp/CppInterOp.cpp:2400-2423 | Opaque for a missing body, otherwise the marks of the walk; ends on every call graph |
| `Dealloc.GetDeallocTypeCode` | lib/CppInterOp/CppInterOp.cpp:2425-2439 | the public answer; false and an untouched vector when there is no function |
| `DeallocRuns.KindsAt` | lib/CppInterOp/CppInterOp.cpp:2366-2377 | all ways in which a run frees one entry value |
| `DeallocMemo.CombineIsUnion` | lib/CppInterOp/CppInterOp.cpp:2366-2377 | joining marks one by one gives the verdict on the set of all frees, so the order does not matter; unseen code gives Unknown |
| `DeallocMemo.JoinIsNote` | lib/CppInterOp/CppInterOp.cpp:2243-2254 | joining a callee's marks is collecting its frees through the arguments |
| `DeallocMemo.FuncMatches` | lib/CppInterOp/CppInterOp.cpp:2286-2313 | on acyclic graphs the memoised marks are the verdicts of the sets collected without memo table |
| `DeallocCorrect.FuncCovers` | lib/CppInterOp/CppInterOp.cpp:2315-2364 | the collected frees are frees of the run, indirect calls, memory and addresses included; on tidy text all of them |
| `DeallocCorrect.AssignRel` | lib/CppInterOp/CppInterOp.cpp:2331-2364 | after an assignment is recorded, names and run agree on every variable; before its right side is evaluated the names know less but nothing wrong |
| `DeallocCorrect.MarksAreReal` | lib/CppInterOp/CppInterOp.cpp:2400-2439 | where variables that resolve hold what they resolve to, a parameter is marked only if its entry value is really freed, and in the way the mark says; where moved pointers count, a pointer derived from it |
| `DeallocCorrect.TextCalmSuffices` | lib/CppInterOp/CppInterOp.cpp:2315-2364 | a condition on the text is enough for that in every run: no variable that resolves is stored, freed or passed while its address is taken, or moved |
| `DeallocCorrect.TidyMarksAreExact` | lib/CppInterOp/CppInterOp.cpp:2400-2439 | where what is stored, freed and passed resolves to what it holds, and nothing with an entry value goes to an indirect call or to unseen code through an address or another expression, each mark is the order-independent join of all frees of that value |
| `DeallocLimits.MovedPointerIsMarked` | lib/CppInterOp/CppInterOp.cpp:2265-2271 | a pointer moved with += is marked although its entry value is not freed |
| `DeallocLimits.SelfAssignedCallIsMissed` | lib/CppInterOp/CppInterOp.cpp:2265-2271 | the free of the old value in `q = g(q)` is missed |
| `DeallocLimits.HandedBackIsMissed` | lib/CppInterOp/CppInterOp.cpp:2387-2395 | `delete id(p)` is missed: what a callee hands back is not followed |
| `DeallocLimits.PlacedIsMissed` | lib/CppInterOp/CppInterOp.cpp:2387-2395 | `delete new (p) T` is missed |
| `DeallocLimits.ReassignedIsMissed` | lib/CppInterOp/CppInterOp.cpp:2336-2339 | a parameter given the entry value of another is not followed |
| `DeallocLimits.CallbackIsMissed` | lib/CppInterOp/CppInterOp.cpp:2291-2293 | `fp(p)` through a function pointer is not marked, in any run |
| `DeallocLimits.TakenIsMarked` | lib/CppInterOp/CppInterOp.cpp:2273-2284 | `take(&p); delete p;` is marked although the entry value need not be freed |
| `DeallocLimits.ThroughPointerIsMissed` | lib/CppInterOp/CppInterOp.cpp:2387-2395 | `T** q = &p; delete *q;` is not marked |
| `DeallocLimits.MakingIsTidy` | lib/CppInterOp/CppInterOp.cpp:2331-2364 | a callee that returns a local of its own does not stand in the way of exact marks |
| `DeallocWays.WaySame` | lib/CppInterOp/CppInterOp.cpp:2331-2364 | where a way through a body falls out, its names agree with those of the walk over all branches |
| `DeallocWays.WayWithin` | lib/CppInterOp/CppInterOp.cpp:2256-2284 | what is collected on a way through a statement is collected by the walk over all its branches |
| `DeallocWays.FuncWithin` | lib/CppInterOp/CppInterOp.cpp:2286-2313 | the same for a function and the functions it calls, each call with a way of its own |
| `DeallocWays.FreesAreMarked` | lib/CppInterOp/CppInterOp.cpp:2400-2439 | whatever branches a run takes, differently at each call if it likes, where its text is tidy and the branches it leaves out change no names: a way in which it frees an entry value is the mark of that parameter, or the mark is a contradiction |
| `DeallocBranches.FuncChoice` | lib/CppInterOp/CppInterOp.cpp:2286-2313 | for each collected way of freeing there is a choice of branches on which it is collected |
| `DeallocBranches.WayCalm` | lib/CppInterOp/CppInterOp.cpp:2315-2364 | the ways through calm text are calm |
| `DeallocBranches.BranchMarksAreReal` | lib/CppInterOp/CppInterOp.cpp:2400-2439 | a mark that names a way of freeing stands for a choice of branches that frees the entry value in that way, whatever the world; a contradiction for unseen code or for two ways; on calm text without dead code whose branches of an `if` with an `else` leave the outer names alone |
| `DeallocBranches.BranchMarksAreExact` | lib/CppInterOp/CppInterOp.cpp:2366-2377 | where all ways are tidy the mark is the verdict on the set of all frees on all ways |
| `DeallocBranchLimits.ElseSeesThen` | lib/CppInterOp/CppInterOp.cpp:2336-2339 | `if (c) q = p; else delete q;` is marked although no way through it frees the entry value |
| `DeallocBranchLimits.BranchStoreIsMissed` | lib/CppInterOp/CppInterOp.cpp:2331-2335 | `if (c) p = nullptr; delete p;` is not marked although the way that leaves the branch out frees it |
| `DeallocRecursion.CallCut` | lib/CppInterOp/CppInterOp.cpp:2295-2305 | a call back to a function that is being looked at leaves marks and memo table as they are |
| `DeallocRecursion.RecursionCountsForNothing` | lib/CppInterOp/CppInterOp.cpp:2286-2313 | the marks of a recursive function are those of the function with its calls of itself taken out |
| `VTableOverlay.LayoutIsExact` | include/CppInterOp/CppInterOp.h:48-64 | extras, hidden slot, ABI prefix and methods stay in bounds, never overlap and fill the block |
| `VTableOverlay.LastOverride` | lib/CppInterOp/CppInterOp.cpp:3183-3184 | of several overrides of a slot the last one wins |
| `VTableOverlay.ApplyOverrides` | lib/CppInterOp/CppInterOp.cpp:3183-3184 | in-place writes leave each slot with its last override or its old entry, and nothing before the methods changes |
| `VTableOverlay.BuildBlock` | lib/CppInterOp/CppInterOp.cpp:3175-3184 | the array built by zeroing, copying and overwriting is the specified block |
| `VTableOverlay.BlockWords` | lib/CppInterOp/CppInterOp.cpp:3049-3054 | what each region of a block holds |
| `VTableOverlay.OverlayDispatches` | lib/CppInterOp/CppInterOp.cpp:3183-3251 | each slot dispatches to its last override, else to the original entry; a hook takes the deleting destructor's slot and remembers what would have been there |
| `VTableOverlay.OverlayPrefix` | lib/CppInterOp/CppInterOp.cpp:3175-3181 | ABI prefix copied, hidden slot pointing home, extra slots null |
| `VTableOverlay.WordsCountedOut` | lib/CppInterOp/CppInterOp.cpp:3006-3015 | Itanium: type_info at -1 and offset-to-top at -2 unchanged, the way home at -3, extras below, the hook in slot 1; Microsoft: one word less, the hook in slot 0 |
| `VTableOverlay.OthersUntouched` | lib/CppInterOp/CppInterOp.cpp:3186-3189 | no other object sees a change |
| `VTableOverlay.DestroyUndoesInstall` | lib/CppInterOp/CppInterOp.cpp:3072-3085 | destroying restores the exact old vptr and memory, whatever was written to the overlay's block |
| `VTableOverlay.Heap.MakeVTableOverlay` | lib/CppInterOp/CppInterOp.cpp:3203-3254 | accepted exactly for a polymorphic class of simple layout with enough slots and all overrides in range; a refusal changes nothing |
| `VTableOverlay.Heap.ApplyVTableOverlay` | lib/CppInterOp/CppInterOp.cpp:3157-3251 | the new memory is the installed one: block, hook fields, vptr |
| `VTableOverlay.Heap.DestroyVTableOverlay` | lib/CppInterOp/CppInterOp.cpp:3256-3260 | restores the vptr unless the wrapper has started; deleting null does nothing |
| `OverlayProtocol.DeleteFinds` | lib/CppInterOp/CppInterOp.cpp:3123-3130 | deletion of a live object finds real code, or the wrapper and through the hidden slot the object's own live overlay |
| `OverlayProtocol.StepKeeps` | lib/CppInterOp/CppInterOp.cpp:3060-3139 | every step of a client or of a running wrapper keeps the invariant |
| `OverlayProtocol.RunKeeps` | lib/CppInterOp/CppInterOp.cpp:3060-3260 | the invariant holds in every reachable state |
| `OverlayProtocol.DestructionProtocol` | lib/CppInterOp/CppInterOp.cpp:3114-3139 | in every run the callback fires at most once, before the destructor; the destructor is the saved one; the vptr is never restored once the wrapper has started |
| `OverlayProtocol.HookAlwaysFires` | lib/CppInterOp/CppInterOp.cpp:3120-3139 | deleting an object with a hook always starts the callback and saves the displaced destructor on the wrapper's stack |
| `OverlayProtocol.DyingPersists` | lib/CppInterOp/CppInterOp.cpp:3131-3135 | whatever runs inside the callback, a dying object keeps the destructor saved for it |
| `OverlayProtocol.SavedDestructorRuns` | lib/CppInterOp/CppInterOp.cpp:3131-3139 | from the start of a deletion to its end the callback comes first and the displaced destructor runs, also if the overlay was destroyed in between |
| `OverlayProtocol.FaultExactly` | lib/CppInterOp/CppInterOp.cpp:3081-3085 | the only step that touches dead memory is destroying a hook-less overlay after its object |
| `OverlayProtocol.ExtraIsKept` | include/CppInterOp/CppInterOp.h:61-66 | what a client stores in an extra slot is found at the slot's place in front of the vtable, and no other slot changes |
| `SymbolIndex.HashRound` | lib/CppInterOp/DynamicLibraryManagerSymbol.cpp:69-74 | one wrapping 32-bit round is one round of the polynomial |
| `SymbolIndex.GNUHash` | lib/CppInterOp/DynamicLibraryManagerSymbol.cpp:69-74 | the hash is the base-33 polynomial modulo 2^32 |
| `SymbolIndex.Log2u` | lib/CppInterOp/DynamicLibraryManagerSymbol.cpp:76-78 | the floor of the binary logarithm |
| `SymbolIndex.AddHash` | lib/CppInterOp/DynamicLibraryManagerSymbol.cpp:105-121 | an added hash tests positive, and so does every earlier one |
| `SymbolIndex.LibraryPath.BuildBloomFilter` | lib/CppInterOp/DynamicLibraryManagerSymbol.cpp:854-985 | the filter has no false negative for the collected symbols and the hash set holds exactly them |
| `SymbolIndex.LibraryPath.MayExistSymbol` | lib/CppInterOp/DynamicLibraryManagerSymbol.cpp:182-188 | a negative answer is always right |
| `SymbolIndex.LibraryPath.ContainsSymbol` | lib/CppInterOp/DynamicLibraryManagerSymbol.cpp:988-1042 | behind the gate, filter and hash set answer membership in the symbol list, for every name and query order |
| `LibrarySearch.LibraryPaths.RegisterLib` | lib/CppInterOp/DynamicLibraryManagerSymbol.cpp:223-228 | appended to the list and the set, which stay in step and free of duplicates |
| `LibrarySearch.LibraryPaths.UnregisterLib` | lib/CppInterOp/DynamicLibraryManagerSymbol.cpp:230-237 | removed from both, the order of the rest kept; nothing for an unknown library |
| `LibrarySearch.FirstIn` | lib/CppInterOp/DynamicLibraryManagerSymbol.cpp:1248-1260 | the first library of the list that has the symbol |
| `LibrarySearch.SkipsUnlessStrays` | lib/CppInterOp/DynamicLibraryManagerSymbol.cpp:781-815 | the two heuristics together: dependencies are looked at exactly when RPATH or RUNPATH has an entry that is the path of no search directory |
| `LibrarySearch.ListMore` | lib/CppInterOp/DynamicLibraryManagerSymbol.cpp:827-845 | a file that is scanned later adds its libraries behind those of the earlier ones |
| `LibrarySearch.FirstContaining` | lib/CppInterOp/DynamicLibraryManagerSymbol.cpp:1248-1260 | asking each library's filter and hash set in turn, built on first use, finds the first library whose file lists the symbol |
| `LibrarySearch.ExploreOne` | lib/CppInterOp/DynamicLibraryManagerSymbol.cpp:818-822 | exploring one dependency keeps all earlier ones settled and reached from the start |
| `LibrarySearch.Dyld.HandleLib` | lib/CppInterOp/DynamicLibraryManagerSymbol.cpp:678-823 | ends on cyclic graphs, registers nothing twice; what is registered is fit, reached from the library along a path of followed dependencies, and all dependencies of each library that strays from the search paths are registered or ignored; an executable found in a directory adds nothing |
| `LibrarySearch.Dyld.Unregister` | lib/CppInterOp/DynamicLibraryManagerSymbol.cpp:741-747 | takes back exactly the registration of a position-independent executable |
| `LibrarySearch.Dyld.ScanDirectory` | lib/CppInterOp/DynamicLibraryManagerSymbol.cpp:827-845 | every entry of the directory is registered, ignored or such an executable; what is registered was reached from a file in a searched directory |
| `LibrarySearch.Dyld.ScanForLibraries` | lib/CppInterOp/DynamicLibraryManagerSymbol.cpp:619-852 | all directories of one kind are dealt with although each real path is read once; every newcomer is fit, settled and reached from a file in one of them; only the end of one list changes, and what is found from an earlier directory or entry is listed before what is found from a later one |
| `LibrarySearch.Dyld.DropLoaded` | lib/CppInterOp/DynamicLibraryManagerSymbol.cpp:1223-1245 | exactly the libraries handed out before and loaded now leave both lists, in order |
| `LibrarySearch.Dyld.Refresh` | lib/CppInterOp/DynamicLibraryManagerSymbol.cpp:1204-1245 | after the user scan, if due, and dropping: no listed library was returned and is loaded; all user directories are dealt with, or the lists only lost such libraries; newcomers come from user directories |
| `LibrarySearch.Dyld.AddSystem` | lib/CppInterOp/DynamicLibraryManagerSymbol.cpp:1267-1282 | the system scan, once: the user list stays, all system directories are dealt with, newcomers come from them |
| `LibrarySearch.Dyld.SearchLibrariesForSymbol` | lib/CppInterOp/DynamicLibraryManagerSymbol.cpp:1193-1304 | lists duplicate-free, disjoint and in step with their sets; what came into them is fit, settled and found from a searched directory, what left was returned and loaded; the answer is the first library of the user list, then of the system list, whose file lists the symbol |
| `LibrarySearch.AnswerAll` | lib/CppInterOp/DynamicLibraryManagerSymbol.cpp:1193-1304 | all of this over every sequence of queries and loads; so a returned library that is loaded later is not returned later |
| `ExitRegistry.LastOf` | lib/CppInterOp/CompatibilityGLIBC.h:142-152 | the newest entry of an owner, or of anyone for the null owner |
| `ExitRegistry.OfExactly` | lib/CppInterOp/CompatibilityGLIBC.h:142-152 | an owner's handlers are those registered for it; the null owner stands for all |
| `ExitRegistry.OthersKeepTheirOrder` | lib/CppInterOp/CompatibilityGLIBC.h:115-119 | dropping an owner's fork entries can be done piece by piece, and one entry goes or stays |
| `ExitRegistry.FlushKeepsForkOrder` | lib/CppInterOp/CompatibilityGLIBC.h:115-119 | fork entries of other owners stand in the same order after a flush, each where the entries kept before it put it |
| `ExitRegistry.DrainIsLifo` | lib/CppInterOp/CompatibilityGLIBC.h:110-127 | without null handlers a drain runs the owner's handlers last in first out and keeps the others in order |
| `ExitRegistry.DrainClearsIff` | lib/CppInterOp/CompatibilityGLIBC.h:112-114 | a drain clears its owner if and only if none of the owner's handlers but perhaps the oldest is null; it always runs the newest ones and loses at most the null one |
| `ExitRegistry.CalledIff` | lib/CppInterOp/CompatibilityGLIBC.h:163-176 | exactly the non-null members are called |
| `ExitRegistry.CallsInOrder` | lib/CppInterOp/CompatibilityGLIBC.h:167-176 | each entry is called once, in the order of registration |
| `ExitRegistry.JitGlibcHandlerRegistry.AddQuickExit` | lib/CppInterOp/CompatibilityGLIBC.h:86-96 | appended, or refused with nothing changed when the host hook cannot be installed |
| `ExitRegistry.JitGlibcHandlerRegistry.AddAtfork` | lib/CppInterOp/CompatibilityGLIBC.h:98-108 | appended, or the host's error with nothing changed |
| `ExitRegistry.JitGlibcHandlerRegistry.TakeLastQuickExit` | lib/CppInterOp/CompatibilityGLIBC.h:142-152 | takes exactly the newest entry of the owner |
| `ExitRegistry.JitGlibcHandlerRegistry.DrainLoop` | lib/CppInterOp/CompatibilityGLIBC.h:112-127 | the loop ends and does what the recursive drain says |
| `ExitRegistry.JitGlibcHandlerRegistry.FlushOwner` | lib/CppInterOp/CompatibilityGLIBC.h:112-120 | runs the owner's handlers in reverse order, removes the owner from both tables, keeps the others in order |
| `ExitRegistry.JitGlibcHandlerRegistry.RunAtforkPrepare` | lib/CppInterOp/CompatibilityGLIBC.h:157-166 | snapshots the table and calls the prepare handlers newest first |
| `ExitRegistry.JitGlibcHandlerRegistry.RunAtforkAfter` | lib/CppInterOp/CompatibilityGLIBC.h:167-176 | calls the parent or child handlers of the snapshot oldest first |
| `ExitRegistry.ForkOrdersOppose` | lib/CppInterOp/CompatibilityGLIBC.h:154-176 | for any entries, null members included: a later entry's prepare handler runs before an earlier one's, its parent and child handlers after; every non-null handler runs |
| `ExitInterleaving.RunConserves` | lib/CppInterOp/CompatibilityGLIBC.h:86-152 | under every interleaving each registration is pending, held by one thread or started once |
| `ExitInterleaving.HandlersConserved` | lib/CppInterOp/CompatibilityGLIBC.h:86-152 | as counts: registered is pending plus held plus started, and nothing is started twice |
| `ExitInterleaving.TakesNewest` | lib/CppInterOp/CompatibilityGLIBC.h:142-152 | in every reachable state the handler taken is the owner's newest pending one |
| `ExitInterleaving.AfterFlush` | lib/CppInterOp/CompatibilityGLIBC.h:110-114 | from the moment a flush finds nothing more to take, in any run, a handler of the owner can still start if and only if a thread holds it then |
| `ExitInterleaving.FlushCanMissAHeldHandler` | lib/CppInterOp/CompatibilityGLIBC.h:110-114 | a run in which a handler starts after its owner's flush has returned |
| `IrPasses.BoundIsInProcess` | lib/CppInterOp/Compatibility.h:658-688 | every demoted symbol is exported by the process |
| `IrPasses.BoundExactly` | lib/CppInterOp/Compatibility.h:663-687 | told by the fields of a global: bound are exactly the mutable weak definitions, not thread-local, that the process has and whose guard, if defined, it has too |
| `IrPasses.BoundBecomesDeclaration` | lib/CppInterOp/Compatibility.h:693-699 | what is bound ends as an external declaration without comdat, with default visibility and not dso_local; all else as it was |
| `IrPasses.GuardFollowsVariable` | lib/CppInterOp/Compatibility.h:669-688 | a variable and its module-defined guard are both bound or both kept |
| `IrPasses.DefinesAfter` | lib/CppInterOp/Compatibility.h:693-699 | after the pass the module defines exactly what it defined and did not bind |
| `IrPasses.SecondRunIsIdle` | lib/CppInterOp/Compatibility.h:654-691 | nothing is left to bind after one run |
| `IrPasses.IrModule.Check` | lib/CppInterOp/Compatibility.h:663-688 | which global is demoted, and its guard |
| `IrPasses.IrModule.CollectDemoted` | lib/CppInterOp/Compatibility.h:662-691 | exactly the bound globals are collected |
| `IrPasses.IrModule.UnbindAll` | lib/CppInterOp/Compatibility.h:693-699 | exactly the collected globals become plain external declarations |
| `IrPasses.KeptHas` | lib/CppInterOp/Compatibility.h:707-712 | kept are exactly the entries of a used list that name no demoted global |
| `IrPasses.KeptInOrder` | lib/CppInterOp/Compatibility.h:707-712 | and in their order: filtering can be done piece by piece |
| `IrPasses.UsedListsAfter` | lib/CppInterOp/Compatibility.h:702-722 | a used list goes only when all its entries go; other lists are not touched |
| `IrPasses.IrModule.FilterUsed` | lib/CppInterOp/Compatibility.h:702-723 | the used list keeps exactly the non-demoted entries in order and disappears when emptied |
| `IrPasses.IrModule.BindProcessWeakGlobals` | lib/CppInterOp/Compatibility.h:654-725 | globals and used lists afterwards; true exactly if something was bound; nothing changes off ELF |
| `IrPasses.IrModule.BindTwice` | lib/CppInterOp/Compatibility.h:654-725 | the second run returns false and leaves the module as the first one made it |
| `IrPasses.IrModule.DedupeWeakEmulatedTLS` | lib/CppInterOp/Compatibility.h:769-785 | one module: repeated weak thread_locals demoted, the set of definers grown |
| `IrPasses.DedupeIsExact` | lib/CppInterOp/Compatibility.h:769-785 | over all modules exactly the weak thread_locals defined before become available_externally without comdat; all else is unchanged |
| `IrPasses.DedupeByFields` | lib/CppInterOp/Compatibility.h:773-784 | told by the fields of two modules: the first is left alone, in the second exactly weak thread_local definitions can be demoted, and those the first defines weakly are |
| `IrPasses.OneWeakDefiner` | lib/CppInterOp/Compatibility.h:769-785 | over all modules each thread_local name has at most one weak definer |
| `ErrorOwnership.EncodingRoundTrips` | include/CppInterOp/Error.h:83-122 | every word is exactly one of Ok, inline and slice; statuses and addresses read back as encoded |
| `ErrorOwnership.StepOwners` | lib/CppInterOp/ErrorInternal.cpp:141-154 | every operation keeps: what has had an owner either has one, and exists, or has been freed |
| `ErrorOwnership.StepHandsOver` | include/CppInterOp/Error.h:173-196 | who owns a word after each operation: a copy and what is captured by sharing own what their source owns, a move hands the share over, an assignment gives up the left side's, nothing else changes hands |
| `ErrorOwnership.SharedOutlives` | include/CppInterOp/Error.h:316-322 | an error shared from a Result is alive after the Result has ended, without an abort, in the hands of the captured error |
| `ErrorOwnership.HandOverAnswered` | include/CppInterOp/Error.h:264-267 | copying or moving hands the duty to look over, so it has exactly one carrier |
| `ErrorOwnership.InspectAnswered` | include/CppInterOp/Error.h:298-334 | looking at an error discharges exactly that error |
| `ErrorOwnership.DestroyAnswered` | include/CppInterOp/Error.h:284-293 | a destruction that does not abort leaves every uninspected error with its carrier |
| `ErrorOwnership.StepAnswered` | include/CppInterOp/Error.h:252-405 | every operation that does not abort keeps: each error is inspected or has exactly one live carrier that answers for it |
| `ErrorOwnership.RunOk` | include/CppInterOp/Error.h:169-405 | both rules hold after every program |
| `ErrorOwnership.FreedWithLastOwner` | lib/CppInterOp/ErrorInternal.cpp:148-154 | in every program an operation frees exactly the objects whose last owner it takes away, and what is freed is never owned again |
| `ErrorOwnership.AllGone` | include/CppInterOp/Error.h:284-293 | after a program that ended the life of all its carriers, freed is exactly what was ever owned, and without an abort every error was inspected |
| `ErrorOwnership.OneAnswerable` | include/CppInterOp/Error.h:257-282 | through any chain of copies and moves at most one live carrier answers for an error, and exactly the uninspected ones have one |
| `ErrorOwnership.RetainCounted` | lib/CppInterOp/ErrorInternal.cpp:141-146 | retaining for a new owner keeps every count the number of owners; Ok and inline words touch no count |
| `ErrorOwnership.ReleaseCounted` | lib/CppInterOp/ErrorInternal.cpp:148-154 | releasing frees the object if and only if this was its last owner, and keeps every other count right |
| `ErrorOwnership.MoveCounted` | include/CppInterOp/Error.h:270-282 | moving a share changes no count |
| `ErrorOwnership.AssignInTwoSteps` | include/CppInterOp/Box.h:156-181 | releasing the old share before taking the new one frees nothing that the assignment keeps |
| `ErrorOwnership.Runtime.AllocSlice` | lib/CppInterOp/ErrorInternal.cpp:165-169 | a slice starts with count 0 and no owner |
| `ErrorOwnership.Runtime.WrapResult` | include/CppInterOp/Error.h:252-255 | a Result from an error takes a share and a new duty; from Ok neither |
| `ErrorOwnership.Runtime.AdoptObject` | include/CppInterOp/Box.h:225-232 | the payload enters with count 1, owned by the box |
| `ErrorOwnership.Runtime.CaptureError` | include/CppInterOp/Error.h:174-174 | a CapturedError takes a share of a slice and none of an inline error |
| `ErrorOwnership.Runtime.CopyFrom` | include/CppInterOp/Error.h:257-268 | copies share, the duty moves to the copy |
| `ErrorOwnership.Runtime.MoveFrom` | include/CppInterOp/Error.h:270-282 | share and duty move, counts stay |
| `ErrorOwnership.Runtime.AssignFrom` | include/CppInterOp/Box.h:156-181 | the old share is released, and its object freed with its last owner, the new one taken; self-assignment does nothing |
| `ErrorOwnership.Runtime.Inspect` | include/CppInterOp/Error.h:298-314 | the Result's error counts as looked at |
| `ErrorOwnership.Runtime.Share` | include/CppInterOp/Error.h:319-322 | looks at the error and adds an owner |
| `ErrorOwnership.Runtime.Destroy` | include/CppInterOp/Error.h:284-293 | aborts exactly for an uninspected error; frees exactly with the last owner |
| `ErrorOwnership.Runtime.Step` | include/CppInterOp/Error.h:169-405 | every operation of the counting code changes the whole state as the rule of ownership says, and every count stays the number of owners |
| `ErrorOwnership.RunProgram` | include/CppInterOp/Error.h:169-405 | the counting code takes every program to the state that the rule of ownership gives, with every count the number of owners |
| `TraceLog.AppendScoped` | lib/CppInterOp/Tracing.h:164-172 | when appending a line keeps the log well scoped |
| `TraceLog.AppendBlock` | lib/CppInterOp/Tracing.h:164-172 | when appending a block of declarations does |
| `TraceLog.RewriteScoped` | lib/CppInterOp/Tracing.h:173-177 | rewriting the placeholder in place keeps it so and adds one declaration |
| `TraceLog.OutsDeclared` | lib/CppInterOp/Tracing.h:587-591 | after the preamble every buffer handed out is declared once |
| `TraceLog.OutsNamedOk` | lib/CppInterOp/Tracing.h:664-665 | reading the OUT containers declares exactly the new elements, from declared buffers, while elements of the result still wait |
| `TraceLog.CompletedOk` | lib/CppInterOp/Tracing.h:629-659 | the completed line declares the result; the elements of a returned vector wait |
| `TraceLog.EnteredOk` | lib/CppInterOp/Tracing.h:566-599 | a call that begins keeps the log well scoped, with exactly the names given out declared |
| `TraceLog.LeftOk` | lib/CppInterOp/Tracing.h:601-678 | and so does a call that ends |
| `TraceLog.TraceScoped` | lib/CppInterOp/Tracing.h:546-714 | in every traced program, at every moment, each name used is declared exactly once, on an earlier line |
| `TraceLog.LogOnlyGrows` | lib/CppInterOp/Tracing.h:164-177 | what is in the log when no call is active is never changed by what follows |
| `TraceLog.HandedOutAreNamed` | lib/CppInterOp/Tracing.h:618-680 | exactly the non-null pointers that outermost calls have handed out have a name, each its own |
| `TraceLog.NamesStay` | lib/CppInterOp/Tracing.h:137-150 | a name stands for the same pointer for good |
| `TraceLog.CallUsesItsArguments` | lib/CppInterOp/Tracing.h:322-336 | the line of an outermost call uses exactly the names of its pointer arguments that were handed out before, and its containers' buffers |
| `TraceLog.TraceInfo.OutIndexFor` | lib/CppInterOp/Tracing.h:152-160 | a container seen before keeps its buffer, a new one gets the next |
| `TraceLog.TraceInfo.CaptureArgs` | lib/CppInterOp/Tracing.h:554-563 | the buffers of a call's containers, the new ones numbered consecutively |
| `TraceLog.TraceInfo.EmitPreamble` | lib/CppInterOp/Tracing.h:587-591 | one declaration for each new buffer, in order |
| `TraceLog.TraceInfo.Begin` | lib/CppInterOp/Tracing.h:566-599 | an outermost call appends its preamble and a line with its arguments' names; a nested one leaves the log |
| `TraceLog.TraceInfo.Register` | lib/CppInterOp/Tracing.h:121-142 | a pointer keeps its name; a new one gets the next |
| `TraceLog.TraceInfo.RegisterOut` | lib/CppInterOp/Tracing.h:272-291 | all non-null elements get names, each new one declared from the container's buffer |
| `TraceLog.TraceInfo.RegisterOuts` | lib/CppInterOp/Tracing.h:664-665 | the same for all containers of a call, in order |
| `TraceLog.TraceInfo.NameResult` | lib/CppInterOp/Tracing.h:629-654 | the names of the result and the declaration on the call's line |
| `TraceLog.TraceInfo.EmitRetDecls` | lib/CppInterOp/Tracing.h:667-675 | the new elements of the returned vector are declared from it |
| `TraceLog.TraceInfo.End` | lib/CppInterOp/Tracing.h:601-678 | the placeholder is completed and the declarations follow; a nested call changes nothing |
| `TraceLog.Trace` | lib/CppInterOp/Tracing.h:546-714 | the tracer writes exactly the log defined for the traced program, and it is well scoped |
| `RecordLayout.Advanced` | lib/CppInterOp/CppInterOp.cpp:3275-3300 | one turn of the loop emits a prefix of what is left and makes progress |
| `RecordLayout.GetDatamembers` | lib/CppInterOp/CppInterOp.cpp:3262-3303 | the two-stack walk appends the recursive in-order flattening of anonymous records |
| `RecordLayout.FlattenPieces` | lib/CppInterOp/CppInterOp.cpp:3262-3303 | the flattening piece by piece: order is kept, an anonymous record is replaced by what is in it, a using-declaration of a field counts as the field |
| `RecordLayout.Redirect` | lib/CppInterOp/CppInterOp.cpp:3485-3485 | reaching a base again from another class keeps every route back to the start intact |
| `RecordLayout.PushBases` | lib/CppInterOp/CppInterOp.cpp:3479-3493 | one class expanded: stops exactly when the target is a direct base, otherwise the remaining work shrinks |
| `RecordLayout.Search` | lib/CppInterOp/CppInterOp.cpp:3475-3494 | the search without a visited set ends on every acyclic hierarchy and finds the target if it can be reached |
| `RecordLayout.FindField` | lib/CppInterOp/CppInterOp.cpp:3456-3465 | the field through which an anonymous record is a member: the first of its type |
| `RecordLayout.LeaveAnonymous` | lib/CppInterOp/CppInterOp.cpp:3453-3467 | the loop ends at the enclosing class, with the offsets along the real nest of anonymous records added |
| `RecordLayout.Records.Nest` | lib/CppInterOp/CppInterOp.cpp:3453-3467 | the records around a field, from its class inwards, each an anonymous record of the one before |
| `RecordLayout.OffsetFromBase` | lib/CppInterOp/CppInterOp.cpp:3468-3507 | the part about base classes |
| `RecordLayout.GetVariableOffset` | lib/CppInterOp/CppInterOp.cpp:3449-3508 | an offset exactly if the class can be reached; it is field offset plus those of the anonymous records around the field plus base offsets along a real path |
| `RecordLayout.PathReaches` | lib/CppInterOp/CppInterOp.cpp:3495-3503 | a path of bases shows reachability |
| `RecordLayout.AfterLastVirtual` | lib/CppInterOp/CppInterOp.cpp:1493-1503 | the path behind its last virtual base |
| `RecordLayout.ComputeBaseOffset` | lib/CppInterOp/CppInterOp.cpp:1485-1527 | offset of the last virtual base plus the non-virtual offsets behind it |
| `RecordLayout.OneStepFurther` | lib/CppInterOp/CppInterOp.cpp:1485-1527 | one step more: a virtual base lies where the most derived class has it, whatever led there; any other base at its place in the class before it |
| `RecordLayout.BaseOffsetIsPathOffset` | lib/CppInterOp/CppInterOp.cpp:1505-1515 | without virtual bases the path computation adds up the offsets of the path |
| `RecordLayout.OffsetsAgree` | lib/CppInterOp/CppInterOp.cpp:1485-1527 | with one path only, search and path computation both give the offsets along it |

## Left out

- Allocation analysis: loops, `switch`, `?:`, `try`, condition variables and default arguments, whose bodies the code walks once without care for control flow; and assignment to variables that are neither parameters nor locals, which inserts an empty entry.
- Both analyses: references to variables, captures by lambdas and static locals, through which a variable changes unseen as through its address; assignments inside larger expressions; parts of allocation sizes and of placement new other than the address.
- Allocation analysis: attributes and annotations that state the allocation are trusted, as the code does; a run in which one is broken is not considered.
- AllocAcyclic.MemoAndAbortInvisible: a callee that is analysed, returns no pointer and is met twice is excluded, because for such programs the claim can fail (`NonPointerCalleeIsNotMemoised`); it can also hold by coincidence.
- DeallocCorrect.MarksAreReal: the condition on variables written through their address is there because the claim can fail without it (`TakenIsMarked`); with `+=` on pointers the free is only shown to be of a pointer derived from the entry value (`MovedPointerIsMarked`).
- AllocPrecision.AnswerIsLeast: recursive programs, for which only soundness is shown; the condition on the text is sufficient, and outside it the answer can be worse than need be (`StoreBeforeReturnIsJoined`).
- DeallocBranches.BranchMarksAreReal: the condition on branches is sufficient; outside it marks can be invented (`ElseSeesThen`), but need not be.
- DeallocWays.FreesAreMarked: frees in runs whose left-out branches change what a variable stands for can be missed (`BranchStoreIsMissed`), but need not be.
- DeallocCorrect.TidyMarksAreExact: the condition is sufficient; each way to break it has a program in `DeallocLimits` for which the mark is wrong, but a program that breaks it can still come out right by coincidence.
- Deallocation analysis: pointers stored into memory or globals and freed by others later; two parameters holding the same pointer are counted apart.
- Deallocation analysis: variables that are neither pointers nor records, which the code ignores, and operator calls.
- Overlays: more than one live overlay per object in the protocol, and the narrowing of an extra slot's index to `int`.
- Overlays: how reflection finds slots and vtable sizes; its results are inputs of a request.
- Symbol index: the floating-point size of the Bloom table (only that it is positive for a non-empty list), symbol lists of 2^32 entries and more, the reader of `.gnu.hash`, and the switches that turn filter or hash set off.
- LibrarySearch.Dyld.HandleLib: the order in which the dependencies of one file are registered among themselves.
- Library search: path resolution with its cache, object file parsing, and loading itself; what is loaded is an input of each query.
- Exit handlers: flushes that race with a fork in progress.
- IR passes: sections and types of rebuilt used lists.
- Errors: diagnostics, messages and producers; the lifetime of the value inside a Result; the abort of `value()` on an error; slices that are allocated and never wrapped, which leak.
- Trace log: the JitCall return hook, the dumping switch, regions started and stopped by the user, timers and the text of the lines.
- Record layout: static variables; virtual bases in the search.
- Atomicity of the reference counters is taken for granted; steps are whole operations.
- Wrapper source generation, reflection queries, template instantiation, overload resolution, the C API and the dispatch table are not modelled: they forward to Clang or depend on the compiler.
