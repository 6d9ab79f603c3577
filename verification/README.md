# Elamite: verified models of its runtime and compiler algorithms

Elamite is a statically typed language with indentation-delimited blocks and owned values. These
Dafny modules model seven of its algorithms, in the form the sources give them, and prove what the
sources and the documentation promise of them.

* **Generational heap** (`Graph`, `HeapState`, `HeapPool`, `HeapSnapshot`, `HeapRelease`,
  `HeapCollect`, `HeapMarks`, `HeapSteps`, `Heap`, `HeapRuns`): the multi-owner allocator with
  trial-deletion cycle collection. `Heap.Heap` is the library as a mutable object; `HeapRuns` proves,
  over every run, exact owner counts, that nothing reachable is freed, that stale references stay
  stale, and that in disciplined runs a collection leaves exactly the reachable objects. `RunLedger`
  says of every state which objects are suspected of lying on a cycle. Only storing a handle asks for
  discipline, and no more than it must: with honest `acyclic` flags candidates cover the unreachable
  throughout a run if and only if every store in it obeys (`DisciplineExactly`), and `SelfOwner`
  shows a program outside the discipline that leaks.
* **Move checker** (`MoveTree`, `MoveTypes`, `MoveCheck`, `MoveShape`, `MoveKernel`,
  `MoveConverge`, `MoveRun`, `MoveGuards`, `MoveCaptures`, `MovePieces`, `MoveExact`,
  `MoveChecker`): the definite-initialisation analysis. The state trees form a lattice with a unique
  pruned form, accepted loops converge by their second pass, and an accepted body uses no moved or
  uninitialised leaf in any run of any length, as long as match guards move nothing. That condition is needed: a failed guard passes control to the next arm
  (docs/ledger.md:379, src/ir/control_flow/lower.rs:762-791), but every arm is checked from the state
  before the first one (src/check/moves.rs:491-496), so what a guard moved is not missed there.
  `GuardsExactly` says that exactly the guards that move nothing are harmless. Captures outlive any
  number of calls (`CallsAreSafe`). Conversely, a plain body is refused only if it moves what may not
  be moved or some run goes wrong (`AcceptedExactly`); plain means without run-time indices and
  without statements that are never reached, and both are needed.
* **Parser** (`Syntax`, `Pratt`, `PrattSteps`, `PrattTrees`, `PrattRoundTrip`, `PrattLossless`,
  `PrattExact`, `PrattPrecedence`, `Statements`, `StatementTrees`, `StatementRoundTrip`,
  `StatementExact`, `Extents`, `Parser`): the grammar of expressions and types
  (`PrattExact.AcceptsExactly`) and that of statements, items and files
  (`StatementExact.FileExactly`) are accepted exactly, operators are grouped as the precedence list
  says, and the recovering parser keeps every token of every stream. Its termination has an
  exception: an item `unsafe mod` recurses forever, because classifying an item
  skips `unsafe` (src/parser.rs:344-346) while `parse_module` does not take it
  (src/parser.rs:364-372) and the item block then parses an item at the same place. `Extents` gives
  the places where items begin, and with them `Parser.ParseFile` says exactly when this happens:
  when an unsafe module stands where an item begins.
* **Layout** (`Layout`, `LayoutRules`, `LayoutRoundTrip`, `LayoutGroups`, `LayoutExact`, `Lexer`):
  the indentation engine balances every input and inverts a block printer, blank and comment lines and
  blocks inside delimiters included; of files without blocks or documentation inside delimiters it
  lets pass without a diagnostic nothing else (`LayoutExactly`).
* **Trait coherence** (`Coherence`): acceptance implies unique implementation selection. The
  documentation asks for a common concrete type; the overlap test is exact for it precisely where
  targets repeat no parameter (`LinearExactly`, `ConflictsExactly`), and in general treats every
  occurrence of a parameter as one of its own (`OverlapMeans`).
* **Match exhaustiveness** (`Exhaustiveness`, `MatchCheck`): a match is found exhaustive exactly
  when its unguarded arms claim every value (`MatchFound`), and it then handles every value, except
  that the coverage of record patterns with `..` is unsound (src/check/patterns.rs:680); `RestClaim`
  says exactly when it is right. A match draws no diagnostic when the description of what is missing
  stays silent (src/check/patterns.rs:81-88, 137-150), so behind an alias of a reference an
  inexhaustive match is accepted; `SilenceExactly` says for which types silence can be trusted. A
  match without arms draws none either.
* **Package resolution** (`Packages`): the depth-first resolver succeeds exactly on acyclic,
  complete graphs, and the order it yields puts dependencies first.

Each algorithm that works step by step is a class or a method with loops, proved against a function
of the old state; the properties are lemmas about those functions and invariants of runs.

## Model

| member | source | states |
|---|---|---|
| Heap.ClassIndexFor | experiments/genref/genref.c:124-137 | the class is the least power of two of at least 64 bytes that holds the request, and none exists exactly above the largest class |
| Heap.Heap.constructor | experiments/genref/genref.c:101-104 | the empty heap satisfies every invariant |
| Heap.Heap.StockFreeList | experiments/genref/genref.c:145-174 | carving a chunk keeps the pool partitioned, adds as many dead blocks as fit it, counts its bytes and changes no object |
| Heap.Heap.StockBlocks | experiments/genref/genref.c:164-173 | so many dead blocks are added and no object changes |
| Heap.Heap.StockBlock | experiments/genref/genref.c:164-173 | one carved block joins the free list of its class and nothing else changes |
| Heap.Heap.FreeBlock | experiments/genref/genref.c:176-189 | the block dies, its generation moves on, it heads the free list of its class, and one object fewer is live |
| Heap.Heap.ChildrenOf | experiments/genref/genref.c:197-218 | what the tracer reports: the live, current targets of the owning fields, with multiplicity |
| Heap.Heap.New | experiments/genref/genref.c:222-252 | a fresh object with one held owner and empty fields under a reference never handed out before; refused exactly without a type or above the largest class; a block is reused when one is free and a chunk reserved otherwise |
| Heap.Heap.AllocateIn | experiments/genref/genref.c:230-252 | the allocation once the class is known, with the counters it changes |
| Heap.Heap.TakeBlock | experiments/genref/genref.c:235-250 | the head of a free list becomes a live object and the next block the head |
| Heap.Heap.NoteCycleCandidate | experiments/genref/genref.c:256-266 | a traced object not flagged acyclic turns purple and is buffered once, and no other object does |
| Heap.Heap.ReleaseUnit | experiments/genref/genref.c:276-299 | one pending release: a decrement that notes a candidate, or a free that hands its children over |
| Heap.Heap.ReleaseHeader | experiments/genref/genref.c:270-300 | the whole cascade keeps exact counts, frees nothing any self-supporting set owns, and terminates |
| Heap.Heap.Clone | experiments/genref/genref.c:302-315 | one more owner and one more held unit, or an abort on a stale handle |
| Heap.Heap.Drop | experiments/genref/genref.c:317-334 | one held unit fewer; the survivors are the largest set in which everything is held or owned from inside; the new candidates are exactly the survivors that lost an owner, are traced, are not acyclic and were not buffered |
| Heap.Heap.FilterCandidates | experiments/genref/genref.c:402-417 | exactly the purple, current, live entries become roots and the buffer is emptied |
| Heap.Heap.Gather | experiments/genref/genref.c:419-436 | exactly what the roots reach turns gray, each with its owner count as trial count |
| Heap.Heap.SubtractEdges | experiments/genref/genref.c:442-444 | each child loses as many trial owners as it is listed |
| Heap.Heap.SubtractInternal | experiments/genref/genref.c:438-445 | each trial count drops by the number of edges from inside the subgraph |
| Heap.Heap.RestoreChildren | experiments/genref/genref.c:464-471 | children regain trial owners, turn black, and newly black ones wait |
| Heap.Heap.RestoreNode | experiments/genref/genref.c:461-472 | one restored node keeps the scan invariant |
| Heap.Heap.RestoreFrom | experiments/genref/genref.c:458-473 | everything an externally held node reaches goes back to black |
| Heap.Heap.ScanNode | experiments/genref/genref.c:452-480 | one popped node keeps the scan invariant |
| Heap.Heap.ScanRoot | experiments/genref/genref.c:449-481 | one root is decided and no gray child is forgotten |
| Heap.Heap.Scan | experiments/genref/genref.c:447-482 | white is exactly what nothing held from outside the subgraph reaches |
| Heap.Heap.ExternalEdges | experiments/genref/genref.c:484-497 | exactly the edges from white nodes to nodes that are not white |
| Heap.Heap.NotWhite | experiments/genref/genref.c:491-496 | the children outside the white group, with multiplicity |
| Heap.Heap.ReleaseExternals | experiments/genref/genref.c:506-508 | releasing the external edges frees nothing |
| Heap.Heap.FreeMember | experiments/genref/genref.c:509-517 | one member is freed if white and repainted if gray |
| Heap.Heap.FreeGroup | experiments/genref/genref.c:509-517 | exactly the white members are freed, and they are counted |
| Heap.Heap.MarkGarbage | experiments/genref/genref.c:419-482 | phases 2 to 4 leave white exactly the garbage of the candidate subgraph |
| Heap.Heap.ReclaimGarbage | experiments/genref/genref.c:484-519 | exactly the garbage dies and every other count stays exact |
| Heap.Heap.CollectCycles | experiments/genref/genref.c:393-527 | the whole collection: the objects freed, their number, what colours, flags and the candidate buffer hold afterwards, and every invariant kept |
| Heap.Heap.Try | experiments/genref/genref.c:340-358 | a checked dereference succeeds exactly when the remembered generation is live, and failures are counted |
| Heap.Heap.MoveInto | experiments/genref/graph_demo.c:48-55 | storing a handle in an empty field turns its held unit into an owning edge |
| Heap.Heap.TakeFrom | experiments/genref/genref.h:36-41 | emptying a field turns an owning edge into a held unit |
| Heap.Heap.AddEdge | experiments/genref/graph_demo.c:48-55 | storing a fresh clone adds one owning edge and holds what was held; a stale source or target is counted and changes nothing else |
| HeapPool.PoolFree | experiments/genref/genref.c:176-189 | freeing keeps the pool partitioned |
| HeapPool.PoolTake | experiments/genref/genref.c:235-250 | taking from a free list keeps the pool partitioned and yields a reference not in the allocation log |
| HeapPool.PoolStock | experiments/genref/genref.c:164-173 | stocking keeps the pool partitioned |
| HeapPool.OnOneFreeList | experiments/genref/genref.c:145-189 | a dead block is on exactly one free list, once, and it is its own class's |
| HeapRelease.LastOwner | experiments/genref/genref.c:286-298 | when the last unit goes, no handle holds and no field owns the object |
| HeapRelease.CascadeDecrement | experiments/genref/genref.c:282-285 | a decrement keeps counts exact over handles, edges and pending releases, and keeps candidates covering the unreachable |
| HeapRelease.CascadeFree | experiments/genref/genref.c:286-298 | a free hands its edges to the pending releases and keeps counts exact and the unreachable covered |
| HeapRelease.CascadeSkipsNothing | experiments/genref/genref.c:277-281 | every pending release is of a live object with owners, so the skip test never fires |
| HeapRelease.SupportedSurvives | experiments/genref/genref.c:286-298 | no object of a self-supporting set is freed |
| HeapRelease.CoveredWithout | experiments/genref/genref.c:256-266 | an object that lost one of several owners and is on no cycle needs no candidate to stay covered |
| HeapCollect.ScanExact | experiments/genref/genref.c:447-482 | no gray remains, black is what outside holders reach, white is the rest |
| HeapCollect.ScanWhiten | experiments/genref/genref.c:474-480 | whitening a node nothing holds keeps the scan invariant |
| HeapCollect.ScanRestore | experiments/genref/genref.c:461-472 | restoring a node keeps trial counts equal to outside owners plus edges from done nodes |
| HeapCollect.OuterNonNegative | experiments/genref/genref.c:438-445 | a trial count after subtraction is held units plus edges from outside the subgraph, never negative |
| HeapCollect.SurvivorKeepsOwner | experiments/genref/genref.c:484-508 | a survivor has more owners than edges from the garbage, so the external releases free nothing |
| HeapCollect.CountsCollected | experiments/genref/genref.c:499-519 | after the group is gone the owner counts of the survivors are exact |
| HeapCollect.GarbageIsUnreachable | experiments/genref/genref.c:447-519 | nothing a held handle reaches is garbage, whatever the candidates were |
| HeapCollect.GarbageIsEverything | experiments/genref/genref.c:419-519 | the garbage is every unreachable object exactly when the roots reach every unreachable object |
| HeapMarks.NoticedDecrement | experiments/genref/genref.c:256-285 | after a decrement the candidates added so far are still exactly the survivors that lost an owner, can lie on a cycle and were not buffered |
| HeapMarks.NoticedFree | experiments/genref/genref.c:286-298 | the same after a free |
| HeapMarks.RemarkedBy | experiments/genref/genref.c:393-527 | what each survivor is after a collection, and which candidates are left, from the heap before it alone |
| HeapSteps.CollectionMarks | experiments/genref/genref.c:402-519 | the phases of a collection together leave those colours, flags and candidates |
| HeapRuns.RunLedger | experiments/genref/genref.c:256-266 | in every state of every run an object is buffered or purple only if its type is traced and not acyclic, and the buffer names exactly the live buffered objects, each once |
| HeapRuns.NeverSuspected | experiments/genref/genref.h:128-129 | objects of types flagged acyclic or not traced are never purple, buffered or candidates |
| HeapSteps.MoveCoveredExactly | experiments/genref/graph_demo.c:48-55 | storing a handle keeps the unreachable covered exactly when what it makes unreachable is reached from a candidate |
| HeapSteps.CloneTracked | experiments/genref/genref.c:302-315 | cloning a handle keeps every unreachable object reached from a buffered purple candidate, whatever the program |
| HeapSteps.TakeTracked | experiments/genref/genref.h:36-41 | so does taking a handle out of a field |
| HeapRuns.Perform | experiments/genref/genref.h:80-126 | every library call performs one step of the run relation |
| HeapRuns.RunConsistent | experiments/genref/genref.c:222-527 | every state of every run has a partitioned pool, exact owner counts and no trial colours |
| HeapRuns.RunTracked | experiments/genref/genref.c:256-300 | in a disciplined run every unreachable object is reached from a buffered purple candidate |
| HeapRuns.DisciplineExactly | experiments/genref/genref.c:222-527 | with honest acyclic flags, candidates cover the unreachable in every state of a run exactly when every store in it obeys the discipline |
| HeapRuns.CompleteExactly | experiments/genref/genref.c:393-527 | a collection leaves exactly the reachable objects if and only if the candidates cover the unreachable ones |
| HeapRuns.CollectionComplete | experiments/genref/genref.h:121-128 | after a collection in a disciplined run the live objects are exactly those reachable from held handles |
| HeapRuns.ReachableSurvives | experiments/genref/genref.c:317-334 | no drop and no collection frees an object that a remaining handle reaches |
| HeapRuns.DeadForever | experiments/genref/genref.h:1-7 | a reference that went stale never becomes live again, however often its block is reused |
| HeapRuns.AllocationsDiffer | experiments/genref/genref.c:222-252 | no two allocations of a run hand out the same block and generation |
| HeapRuns.LoggedMeans | experiments/genref/genref.c:340-346 | a live reference was handed out, and one handed out and not live has an older generation |
| HeapRuns.SelfOwner | experiments/genref/genref.h:121-128 | the unconditional promise is false: an object whose only handle is moved into its own field outlives collection |
| MoveTree.SetMeaning | src/check/moves.rs:93-118 | setting a path changes exactly the paths at and below it |
| MoveTree.JoinMeaning | src/check/moves.rs:154-203 | the join of two trees is the pointwise join of what they say of every path |
| MoveTree.JoinPruned | src/check/moves.rs:173-203 | the join is pruned whatever its operands |
| MoveTree.PrunedUnique | src/check/moves.rs:173-203 | pruned trees that say the same of every path are equal |
| MoveTree.JoinCommutative | src/check/moves.rs:154-203 | join is commutative on arbitrary trees |
| MoveTree.JoinAssociative | src/check/moves.rs:154-203 | join is associative on arbitrary trees |
| MoveTree.JoinIdempotent | src/check/moves.rs:154-203 | joining a pruned tree with itself changes nothing |
| MoveTree.JoinNeverGrants | src/check/moves.rs:154-171 | a path is available in a join exactly when it is in both sides |
| MoveTypes.AvailableSound | src/check/moves.rs:958-1022 | a place reported available has every leaf available |
| MoveTypes.AvailableExactly | src/check/moves.rs:958-1022 | a place is available exactly when every leaf is and each entry for a run-time index stands in an array initialised as a whole with every leaf below it initialised |
| MoveTypes.AvailableExact | src/check/moves.rs:958-1022 | without dynamic entries a place is available exactly when every leaf is |
| MoveTypes.PlaceAvailableExact | src/check/moves.rs:933-956 | the same equivalence, run-time indices included, for a place inside a root, its path projected first |
| MoveTypes.DynamicEntryBlocks | src/check/moves.rs:958-1022 | so with an entry for a run-time index a place can be refused although every leaf is available |
| MoveTypes.RefillRestores | src/check/moves.rs:93-118 | refilling every part of a moved tuple, struct or array makes it available again, unless an entry for a run-time index stands in the way |
| MoveShape.CheckStmtOk | src/check/moves.rs:292-400 | checking a statement keeps states within the declared roots and types |
| MoveConverge.WhileConverges | src/check/moves.rs:402-437 | an accepted while body reaches a fixed head by its second pass, so the bound never decides |
| MoveConverge.ForConverges | src/check/moves.rs:439-477 | the same for a for loop |
| MoveConverge.StmtActs | src/check/moves.rs:292-400 | on one location an accepted statement acts by a kernel that does not depend on the state |
| MoveConverge.BlockActs | src/check/moves.rs:265-290 | the same for a block, with its breaks and continues |
| MoveRun.UsableHolds | src/check/moves.rs:933-956 | if the believed state makes a place available, every leaf of it holds a value in the run |
| MoveRun.ExprSafe | src/check/moves.rs:633-783 | an accepted expression never uses an empty leaf, and the checker's state still describes the run |
| MoveRun.StmtSafe | src/check/moves.rs:292-400 | the same for every statement and every choice of branches, arms and loop passes |
| MoveRun.BlockSafe | src/check/moves.rs:265-290 | the same for a block |
| MoveRun.WhileSafe | src/check/moves.rs:402-437 | the same for a while loop of any number of iterations |
| MoveRun.ForSafe | src/check/moves.rs:439-477 | the same for a for loop of any number of iterations |
| MoveRun.MatchSafe | src/check/moves.rs:479-509 | the same for a match, whichever arm the run ends up in |
| MoveRun.ArmsSafe | src/check/moves.rs:491-503 | the same for its arms, after any number of failed guards |
| MoveRun.StepSafe | src/check/moves.rs:511-572 | the same for a pattern, whichever alternative fits |
| MoveGuards.GuardsExactly | src/check/moves.rs:491-496 | a guard moves nothing exactly when every accepted match of the guard and a later use is safe |
| MoveGuards.GuardCounterexample | src/check/moves.rs:491-496 | the checker accepts a guard that moves a local which the next arm uses after the guard fails |
| MoveRun.AcceptedIsSafe | src/check/moves.rs:227-263 | a body checked without a diagnostic, whose guards move nothing, uses no moved or uninitialised leaf in any run |
| MoveCaptures.BlockReported | src/check/moves.rs:801-839 | whatever was moved before, exactly the moves of captures and out of indexed places are reported as such, at their spans, in every statement, reached or not |
| MoveCaptures.BlockVisited | src/check/moves.rs:801-839 | an accepted body moves no capture and nothing out of an indexed place, in any statement, reached or not |
| MoveCaptures.CapturesSurvive | src/check/moves.rs:808-819 | no run of an accepted body loses a capture |
| MoveCaptures.CallsAreSafe | src/check/moves.rs:808-819 | an accepted body is safe however often it is called, each call finding its captures as the last one left them |
| MovePieces.PieceFramed | src/check/moves.rs:227-263 | what a run does not need of its choices it leaves for what follows |
| MoveExact.UseExact | src/check/moves.rs:801-931 | a use no run objects to is not reported, and what is then not believed initialised is missing in some run |
| MoveExact.ExprExact | src/check/moves.rs:633-783 | the same for an expression |
| MoveExact.PatternExact | src/check/moves.rs:511-572 | the same for a pattern and its alternatives |
| MoveExact.StmtExactly | src/check/moves.rs:292-400 | the same for a statement, along every edge that leaves it |
| MoveExact.BlockExactly | src/check/moves.rs:265-290 | the same for a block |
| MoveExact.ArmsExactly | src/check/moves.rs:479-509 | the same for the arms of a match |
| MoveExact.WhilePassesExact | src/check/moves.rs:402-437 | the same for a while loop, after however many passes |
| MoveExact.ForPassesExact | src/check/moves.rs:439-477 | the same for a for loop |
| MoveExact.SafeIsAccepted | src/check/moves.rs:227-263 | completeness: a plain body that moves only what may be moved and goes wrong in no run is accepted |
| MoveExact.AcceptedExactly | src/check/moves.rs:227-263 | a plain body whose guards move nothing is accepted exactly when it moves only what may be moved and no run uses a moved or uninitialised leaf |
| MoveExact.UnreachedReported | src/check/moves.rs:265-290 | statements that are never reached are checked all the same, so a body that goes wrong in no run can be refused |
| MoveExact.IndexReported | src/check/moves.rs:958-1022 | so can one that writes through a run-time index |
| MoveChecker.MoveChecker.Report | src/check/moves.rs:1140-1144 | one diagnostic per span and reason, and nothing else changes |
| MoveChecker.MoveChecker.RequireAvailable | src/check/moves.rs:901-931 | reports exactly an unavailable place |
| MoveChecker.MoveChecker.MovePlace | src/check/moves.rs:801-839 | reports a capture, an indexed place or an unavailable one, and moves any other |
| MoveChecker.MoveChecker.ApplyUses | src/check/moves.rs:633-783 | the uses of one expression in order |
| MoveChecker.MoveChecker.VisitExpression | src/check/moves.rs:633-783 | the state and the reports of visiting an expression |
| MoveChecker.MoveChecker.VisitSequence | src/check/moves.rs:633-783 | operands are visited left to right |
| MoveChecker.MoveChecker.InitializeLocals | src/check/moves.rs:594-614 | the bindings of a pattern become initialised |
| MoveChecker.MoveChecker.ApplySteps | src/check/moves.rs:511-572 | what a pattern consumes and binds, in order |
| MoveChecker.MoveChecker.TakeStep | src/check/moves.rs:517-535 | one consumption, binding or choice of alternatives |
| MoveChecker.MoveChecker.ApplyAlternatives | src/check/moves.rs:525-537 | every alternative from the same state |
| MoveChecker.MoveChecker.CheckBlock | src/check/moves.rs:265-290 | the flow and reports of a block, and the unreachable rest checked from the state before it |
| MoveChecker.MoveChecker.CheckStatement | src/check/moves.rs:292-400 | the flow and reports of a statement |
| MoveChecker.MoveChecker.CheckAssign | src/check/moves.rs:308-321 | inputs, value, then the place is refilled |
| MoveChecker.MoveChecker.CheckIf | src/check/moves.rs:335-357 | both branches from the state after the condition, joined |
| MoveChecker.MoveChecker.CheckWhile | src/check/moves.rs:402-437 | the fixpoint loop, its cutoff, and the exit state |
| MoveChecker.MoveChecker.CheckFor | src/check/moves.rs:439-477 | the fixpoint loop with the binding initialised each pass |
| MoveChecker.MoveChecker.CheckMatch | src/check/moves.rs:479-509 | every arm, pattern then guard then body, from the state after the scrutinee, joined |
| MoveChecker.MoveChecker.CheckFunction | src/check/moves.rs:227-263 | exactly the moves that no state allows are reported as such, and nothing twice; if guards move nothing, an accepted body is safe in every run and in any number of calls, and of plain bodies exactly those are accepted that move only what may be moved and are safe in every run |
| Syntax.Push | src/syntax.rs:270-303 | a pushed child adds exactly its tokens |
| Pratt.Climb | src/parser.rs:1221-1268 | the loop never moves backwards and stays inside the stream |
| PrattLossless.BpLossless | src/parser.rs:1221-1268 | an expression tree holds exactly the tokens consumed, well formed or not |
| PrattLossless.TypeLossless | src/parser.rs:668-748 | the same for types |
| PrattRoundTrip.OperatorFollows | src/parser.rs:1221-1268 | an operator is never taken in by an operand that binds at least as tightly |
| PrattRoundTrip.ExprCompletes | src/parser.rs:1221-1323 | parsing the tokens of a well-formed tree reaches the loop with exactly that tree |
| PrattRoundTrip.OperandCompletes | src/parser.rs:1221-1323 | round trip: where the loop must stop, the parser returns exactly the tree, without a diagnostic |
| PrattRoundTrip.TypeCompletes | src/parser.rs:668-748 | round trip for types |
| PrattRoundTrip.ItemsComplete | src/parser.rs:1711-1726 | round trip for comma-separated lists |
| PrattExact.BpExact | src/parser.rs:1221-1268 | every error-free parse is a well-formed tree that the next token does not extend |
| PrattExact.PostfixOperand | src/parser.rs:1686-1769 | a postfix form follows only atoms, postfix forms and casts |
| PrattExact.TypeExact | src/parser.rs:668-748 | every error-free type parse is a well-formed type |
| PrattExact.AcceptsExactly | src/parser.rs:1221-1323 | the parser accepts a token range as a tree exactly when the tree respects the binding powers, has those leaves and ends there |
| PrattExact.Unambiguous | src/parser.rs:1782-1798 | two well-formed expressions with the same tokens are the same tree |
| PrattPrecedence.ChainGrouped | src/parser.rs:1782-1798 | a chain of binary operators of any length is grouped, at every depth, at the operator the precedence list applies last |
| PrattPrecedence.TwoOperators | src/parser.rs:1782-1798 | of two operators the second is applied last exactly when it stands in the level of the first or in a looser one |
| PrattPrecedence.PrefixThenBinary | docs/ledger.md:383 | a prefix operator binds tighter than any binary one |
| PrattPrecedence.PrefixThenCast | docs/ledger.md:383 | a cast applies to the operand with its prefix operator |
| PrattPrecedence.BinaryThenCast | docs/ledger.md:383 | a cast binds tighter than any binary operator before it |
| PrattPrecedence.CastThenBinary | docs/ledger.md:383 | and than any binary operator after it |
| PrattPrecedence.PrefixThenMember | docs/ledger.md:383 | a prefix operator applies to the member, not to what the member is of |
| StatementTrees.ListStep | src/parser.rs:581-608 | the lists of patterns, fields, names and parameters take the same step |
| StatementTrees.LoopStep | src/parser.rs:930-956 | so do the bodies of statements, arms, items and fields, the arms without a check for progress because they need none |
| StatementRoundTrip.PatternAt | src/parser.rs:1800-1895 | the tokens of a well-formed pattern are parsed to it, without a diagnostic |
| StatementRoundTrip.LineAt | src/parser.rs:1998-2006 | a line ends with its Newline, or where the block or the stream ends |
| StatementRoundTrip.StatementAt | src/parser.rs:972-1215 | the tokens of a well-formed statement are parsed to it, whichever form it has |
| StatementRoundTrip.LoopAt | src/parser.rs:930-956 | the same for everything inside a body |
| StatementRoundTrip.ItemAt | src/parser.rs:273-473 | the same for modules, structs and tests |
| StatementRoundTrip.FileCompletes | src/parser.rs:141-166 | round trip: the tokens of a well-formed file are parsed to it, without a diagnostic |
| StatementRoundTrip.FilesUnambiguous | src/parser.rs:141-166 | two well-formed files with the same tokens are the same tree |
| StatementExact.PatternExact | src/parser.rs:1800-1895 | a pattern parsed without a diagnostic is well formed |
| StatementExact.ListExact | src/parser.rs:1848-1855 | so is a list of patterns, fields, names or parameters |
| StatementExact.LineExact | src/parser.rs:1998-2006 | a line without a diagnostic ends in a Newline or where the block or the stream ends |
| StatementExact.StatementExactly | src/parser.rs:972-1215 | a statement parsed without a diagnostic has the form its first token announces, with the children of that form in order |
| StatementExact.LoopExact | src/parser.rs:930-956 | a body parsed without a diagnostic holds at least one part, each well formed |
| StatementExact.ItemExact | src/parser.rs:273-473 | an item parsed without a diagnostic is a well-formed module, struct or test |
| StatementExact.RecoveredLine | src/parser.rs:2008-2016 | recovery takes everything up to the first end of a line, and a Newline that ends it |
| StatementExact.FileExactly | src/parser.rs:141-166 | the grammar of files is accepted exactly: what is parsed without a diagnostic is a well-formed file, and the tokens of each are parsed to it without one |
| Parser.Parser.constructor | src/parser.rs:132-139 | an empty diagnostic list at position zero |
| Parser.Parser.Bump | src/parser.rs:2186-2194 | takes the current token, which is never the end of the stream |
| Parser.Parser.ErrorHere | src/parser.rs:2196-2199 | reports at the current token |
| Parser.Parser.ExpectToken | src/parser.rs:2130-2141 | takes the expected token or reports |
| Parser.Parser.EatToken | src/parser.rs:2143-2150 | takes the token if it is there |
| Parser.Parser.ParseExpression | src/parser.rs:1217-1219 | an expression of any level |
| Parser.Parser.ParseExpressionBp | src/parser.rs:1221-1268 | the loop computes the specified tree, position and diagnostics |
| Parser.Parser.ParsePrefixExpression | src/parser.rs:1270-1323 | the specified prefix form |
| Parser.Parser.ParseParenthesizedOrTuple | src/parser.rs:1535-1562 | parentheses or a tuple, told apart by a comma |
| Parser.Parser.ParsePostfixForm | src/parser.rs:1686-1769 | the specified postfix form |
| Parser.Parser.ParseBracketArguments | src/parser.rs:1728-1742 | bracket arguments, where a trailing comma is not a list end |
| Parser.Parser.ParseListEntry | src/parser.rs:1771-1780 | one argument, type or record field |
| Parser.Parser.ParseList | src/parser.rs:1711-1726 | a list that may be empty or end in a comma, as specified |
| Parser.Parser.ParseListRest | src/parser.rs:1542-1552 | the rest of a list after its first element, as specified |
| Parser.Parser.ParseTypeNode | src/parser.rs:668-748 | the specified type |
| Parser.Parser.ParseTupleType | src/parser.rs:717-732 | a tuple type |
| Parser.Parser.ParseSequence | src/parser.rs:697-716 | a slice or array type |
| Parser.Parser.ParseSequenceEnd | src/parser.rs:705-718 | the length and the closing bracket, and a marked element with a length reported |
| Parser.Parser.ParsePathType | src/parser.rs:733-747 | a path type and its arguments |
| Parser.Parser.ParseDotted | src/parser.rs:1901-1907 | the dotted part of a path |
| Parser.Parser.RecoverLine | src/parser.rs:2008-2016 | everything up to the end of the line, as specified, dropping no token |
| Parser.Parser.ExpectLineEnd | src/parser.rs:1998-2006 | the end of a statement or recovery, dropping no token |
| Parser.Parser.EatNewlines | src/parser.rs:2018-2022 | newlines are kept in the tree |
| Parser.Parser.ExpectBlockStart | src/parser.rs:958-970 | the three tokens that open a body, each taken or reported |
| Parser.Parser.ParsePattern | src/parser.rs:1800-1812 | the specified tree of a pattern, its position and diagnostics, holding exactly the tokens read |
| Parser.Parser.ParsePatternAtom | src/parser.rs:1814-1895 | the same for a pattern atom, with or without recovery |
| Parser.Parser.ParseNoPattern | src/parser.rs:1888-1895 | the same for what is no pattern |
| Parser.Parser.ParsePathPattern | src/parser.rs:1846-1888 | the same for variant and record patterns |
| Parser.Parser.ParsePatternList | src/parser.rs:1848-1855 | the same for pattern lists |
| Parser.Parser.ParsePatternField | src/parser.rs:1862-1880 | the same for pattern fields |
| Parser.Parser.ParseStatementBlock | src/parser.rs:930-956 | the same for the body of a statement |
| Parser.Parser.AddBlock | src/parser.rs:930-956 | a body as the last child of an open node |
| Parser.Parser.ParseStatement | src/parser.rs:972-998 | the same for every statement form |
| Parser.Parser.ParseLet | src/parser.rs:1000-1020 | the same for bindings |
| Parser.Parser.ParseBindingTuple | src/parser.rs:1022-1047 | the same for tuple bindings |
| Parser.Parser.ParseBinding | src/parser.rs:1026-1039 | the same for one name of a tuple |
| Parser.Parser.ParseReturn | src/parser.rs:1049-1062 | the same for returns |
| Parser.Parser.ParseSimpleStatement | src/parser.rs:1064-1069 | the same for one-word statements |
| Parser.Parser.ParseIf | src/parser.rs:1113-1128 | the same for if |
| Parser.Parser.ParseElse | src/parser.rs:1117-1125 | the same for else |
| Parser.Parser.ParseMatch | src/parser.rs:1130-1155 | the same for matches |
| Parser.Parser.ParseArms | src/parser.rs:1133-1153 | the arm loop, which has no progress check of its own, terminates with the specified tree |
| Parser.Parser.ParseMatchArm | src/parser.rs:1157-1171 | the same for an arm |
| Parser.Parser.ParseFor | src/parser.rs:1173-1181 | the same for for loops |
| Parser.Parser.ParseConditional | src/parser.rs:1183-1188 | the same for while loops |
| Parser.Parser.ParseUnsafeBlock | src/parser.rs:1190-1195 | the same for unsafe blocks |
| Parser.Parser.ParseExpressionOrAssignment | src/parser.rs:1197-1215 | the same for expression and assignment statements |
| Parser.Parser.ParseTest | src/parser.rs:572-579 | the same for test items |
| Parser.Parser.ParseField | src/parser.rs:877-887 | the same for fields |
| Parser.Parser.ParseGenericParameters | src/parser.rs:581-608 | the same for generic parameters |
| Parser.Parser.ParseGenericParameter | src/parser.rs:586-601 | the same for one parameter and its bounds |
| Parser.Parser.ParseDeriveList | src/parser.rs:610-625 | the same for derive lists |
| Parser.Parser.ClassifyItem | src/parser.rs:314-362 | an item is classified past newlines, `pub` and `unsafe` |
| Parser.Parser.ParseItem | src/parser.rs:273-312 | the specified tree of an item; with room on the stack it fails only where it has no end |
| Parser.Parser.ParseNoItem | src/parser.rs:304-310 | the same for a line that is no item |
| Parser.Parser.ParseModule | src/parser.rs:364-372 | the same for modules |
| Parser.Parser.ParseStruct | src/parser.rs:452-473 | the same for structs |
| Parser.Parser.ParseItemBlock | src/parser.rs:814-875 | the same for the members of a module or struct, with the same failures |
| Parser.Parser.ParseMember | src/parser.rs:825-870 | the same for one member |
| Parser.Parser.ParseFile | src/parser.rs:141-166 | a tree has exactly the tokens as leaves and is the specified one; nothing is reported exactly when the stream is a well-formed file, and then that file is returned; with room on the stack there is no tree exactly when an unsafe module stands where an item begins, and such a file gets none at any depth |
| Extents.ItemTrapped | src/parser.rs:273-372 | parsing an item never ends exactly when an item begins inside it with an unsafe module |
| Extents.MembersTrapped | src/parser.rs:814-875 | the same for the members of a module |
| Extents.FileTrapped | src/parser.rs:141-166 | the same for a file |
| Extents.ModuleEnds | src/parser.rs:364-372 | a module never ends exactly when its members never do, and takes a token if it ends |
| Extents.FileUnending | src/parser.rs:141-166 | parsing a file never ends exactly when an unsafe module stands where one of its items begins |
| Parser.UnsafeModuleOverflows | src/parser.rs:314-372 | totality is false of `unsafe mod`: whatever the stack, such a file is never parsed |
| LayoutRules.WidthMeans | src/lexer.rs:149-173 | a space is one column of indentation and a tab goes to the next column that is a multiple of four |
| LayoutRules.StepValid | src/lexer.rs:147-264 | every physical line keeps the indent stack 0, 4, 8, ... and as many open blocks as levels |
| LayoutRules.StreamBalanced | src/lexer.rs:96-125 | for every input no prefix closes more than it opened, everything is closed, and one Eof ends the stream |
| LayoutRoundTrip.LogicalRuns | src/lexer.rs:147-264 | a statement spread over continuation lines and open delimiters is one logical line |
| LayoutRoundTrip.HeaderDone | src/lexer.rs:241-254 | a header leaves its body to begin exactly one level deeper |
| LayoutRoundTrip.BodyDone | src/lexer.rs:317-348 | after a body the enclosing level is at rest one Dedent later |
| LayoutRoundTrip.BlankIgnored | src/lexer.rs:149-181 | blank and comment lines change nothing but the number of diagnostics, by one for each with a tab in its indentation |
| LayoutRoundTrip.StepReported | src/lexer.rs:142-264 | earlier diagnostics never influence what a line does |
| LayoutRoundTrip.LayoutInverts | src/lexer.rs:96-348 | a printed forest with blank and comment lines anywhere, however indented, is tokenised to exactly its brackets, with one diagnostic for each of those lines that has a tab in its indentation |
| LayoutGroups.MaskedStep | src/lexer.rs:181-263 | a line in a block inside delimiters is laid out as if no delimiter were open, and the block stays open |
| LayoutGroups.InsertRuns | src/lexer.rs:205-236 | a block inside delimiters is bracketed like any other, and the line after it that closes them goes on with the statement |
| LayoutGroups.LogicalDone | src/lexer.rs:147-264 | a statement with any number of blocks inside its delimiters is one logical line around them |
| LayoutGroups.GroupsInvert | src/lexer.rs:96-348 | a printed forest whose statements have blocks inside their delimiters is tokenised to exactly its brackets, blank and comment lines anywhere |
| LayoutExact.ReadLogical | src/lexer.rs:147-264 | the lines of a statement that draw no diagnostic are those of a statement that can be written, read up to the first line that does not continue it |
| LayoutExact.ReadForest | src/lexer.rs:266-348 | lines that draw no diagnostic are printed statements, level by level |
| LayoutExact.LayoutExactly | src/lexer.rs:96-348 | of files without blocks or documentation in delimiters, nothing is reported exactly for printed forests with blank and comment lines anywhere, none of them indented with a tab |
| Lexer.Lexer.constructor | src/lexer.rs:81-94 | the initial state |
| Lexer.Lexer.EmitToken | src/lexer.rs:135-140 | a token is appended |
| Lexer.Lexer.Error | src/lexer.rs:142-145 | a diagnostic is counted |
| Lexer.Lexer.MeasureIndentation | src/lexer.rs:149-173 | the width of the indentation, a tab moving to the next multiple of four and reported once a line |
| Lexer.Lexer.LexPhysicalLine | src/lexer.rs:147-264 | the specified step for one line |
| Lexer.Lexer.BeginPhysicalLine | src/lexer.rs:181-194 | a new statement or more of the active one |
| Lexer.Lexer.EndPhysicalLine | src/lexer.rs:215-263 | what ends a line |
| Lexer.Lexer.CloseGroups | src/lexer.rs:205-213 | groups whose delimiters closed are dropped |
| Lexer.Lexer.PrepareLogicalLine | src/lexer.rs:266-315 | continuation, block start or indentation change, as specified |
| Lexer.Lexer.ApplyIndentation | src/lexer.rs:317-348 | same level, error, or blocks closed, as specified |
| Lexer.Lexer.CloseBlocks | src/lexer.rs:340-347 | blocks deeper than the line are closed |
| Lexer.Lexer.LexLineTokens | src/lexer.rs:350-403 | the tokens of a line in order |
| Lexer.Lexer.HandleDelimiter | src/lexer.rs:901-950 | the open delimiters, and mismatches reported |
| Lexer.Lexer.Finishes | src/lexer.rs:952-992 | the stream is ended and every block closed |
| Lexer.Lexer.LexLines | src/lexer.rs:96-125 | any lines give a balanced stream, a printed forest exactly its brackets, with blocks inside delimiters too, and of files without blocks or documentation in delimiters no other draws no diagnostic |
| Coherence.EqualIsCanonical | src/types/context.rs:405-436 | exact equality is equality with all aliases replaced |
| Coherence.MatchSound | src/traits.rs:716-879 | the bindings a match leaves make the pattern the type |
| Coherence.MatchComplete | src/traits.rs:716-879 | a type that is an instance of the pattern is matched |
| Coherence.MatchesExactly | src/traits.rs:716-879 | an implementation target matches a type exactly when the type is an instance of it |
| Coherence.CommonInstanceOverlaps | src/traits.rs:881-975 | two targets with a common instance overlap |
| Coherence.OverlapExactly | src/traits.rs:881-975 | targets that repeat no parameter overlap exactly when some concrete type is matched by both |
| Coherence.RepeatedOverlaps | src/traits.rs:881-975 | a target that repeats a parameter overlaps a concrete type that is no instance of it |
| Coherence.LinearExactly | src/traits.rs:881-975 | the overlap test is right about a target, against every target that repeats no parameter, exactly when it repeats none itself |
| Coherence.ConflictsExactly | src/traits.rs:660-714 | where no target repeats a parameter, the programs without conflicts are exactly those in which no concrete type has two implementations of a trait |
| Coherence.OverlapIsConservative | src/traits.rs:881-975 | two targets can overlap without a common instance |
| Coherence.OverlapMeans | src/traits.rs:881-975 | two targets overlap exactly when some concrete type is matched by both once every occurrence of a parameter may stand for a type of its own |
| Coherence.OrphanExactly | src/traits.rs:668-690 | an implementation is an orphan exactly when neither its trait nor the declaration of its target, aliases replaced, belongs to its package |
| Coherence.CheckCoherence | src/traits.rs:660-714 | exactly the orphans are reported, and exactly the pairs of an implementation and the first one kept that it conflicts with; nothing is reported exactly when no implementation is an orphan and no two conflict |
| Coherence.FindConflict | src/traits.rs:691-695 | finds the first conflicting implementation among those kept, if there is one |
| Coherence.UniqueSelection | src/traits.rs:1242-1250 | in an accepted program no type is matched by two implementations of one trait |
| Exhaustiveness.UnionCovers | src/check/coverage.rs:18-36 | a union covers no more than its sides |
| Exhaustiveness.CatchallCovers | src/check/coverage.rs:38-44 | a catch-all of a type covers every value of it, through dereferences |
| Exhaustiveness.CoveredMatches | src/check/patterns.rs:206-393 | what a pattern is recorded to cover, it matches |
| Exhaustiveness.ExhaustiveCovers | src/check/patterns.rs:91-129 | an exhaustive coverage covers every value of the type |
| MatchCheck.UnionExactly | src/check/coverage.rs:18-36 | a union of coverages that fit one type covers exactly what one of them covers |
| MatchCheck.CatchesExactly | src/check/patterns.rs:206-393 | a pattern is recorded as a catch-all exactly when it is one syntactically |
| MatchCheck.ClaimsExactly | src/check/patterns.rs:206-393 | the coverage recorded for a pattern covers exactly the values the pattern claims |
| MatchCheck.ArmsClaim | src/check/patterns.rs:21-90 | the accumulated coverage covers exactly what the unguarded arms claim |
| MatchCheck.FoundExactly | src/check/patterns.rs:91-129 | a coverage that fits the type is found exhaustive exactly when it covers every value |
| MatchCheck.MatchFound | src/check/patterns.rs:6-90 | a match is found exhaustive exactly when its unguarded arms claim every value |
| MatchCheck.EnumExactly | src/check/patterns.rs:112-150 | a match on an enum is found exhaustive exactly when an unguarded arm is a catch-all or each variant has an unguarded arm or alternative whose parts are catch-alls, and otherwise exactly the other variants are reported missing |
| MatchCheck.BoolExactly | src/check/patterns.rs:91-129 | the same for booleans and their two literals |
| MatchCheck.CheckMatch | src/check/patterns.rs:6-90 | a match is exhaustive exactly when its unguarded arms claim every value, and an arm unreachable exactly when an unguarded one before it is a catch-all or they are complete; an exhaustive match, or a silent one whose dereferences go through no alias, handles every value |
| Exhaustiveness.ArmsHandle | src/check/patterns.rs:21-90 | exhaustiveness soundness for the accumulated coverage |
| Exhaustiveness.FieldsExactly | src/check/patterns.rs:585-681 | named fields match all values exactly when each sub-pattern matches every value of its own field type, or some field has no value |
| Exhaustiveness.RestClaim | src/check/patterns.rs:656-680 | a struct pattern with `..` is always taken as exhaustive, which is right exactly when each sub-pattern matches every value of its own field type, or some field has no value |
| Exhaustiveness.RestVariantClaim | src/check/patterns.rs:585-681 | the same for a variant pattern with `..` and the values of its variant |
| Exhaustiveness.SureExactly | src/check/patterns.rs:206-393 | over inhabited types a pattern without alternatives matches every value exactly when a syntactic test says so |
| Exhaustiveness.DescribeExactly | src/check/patterns.rs:137-186 | an inexhaustive coverage draws no diagnostic exactly when it dereferences through an alias or what is matched is an enum without variants |
| Exhaustiveness.SilenceHandles | src/check/patterns.rs:81-88 | no missing-coverage diagnostic means every value is handled, where dereferences go through no alias |
| Exhaustiveness.SilenceExactly | src/check/patterns.rs:137-150 | for a type with a pattern that can fail, silence means handled, for every list of arms, exactly when the type hides no reference behind an alias |
| Exhaustiveness.AliasCounterexample | src/check/patterns.rs:95-110 | behind an alias of a reference an inexhaustive match draws no diagnostic |
| Exhaustiveness.RestCounterexample | src/check/patterns.rs:656-680 | so `{x: 5, ..}` alone is accepted as exhaustive though other values match no arm |
| Packages.OrderHasNoCycle | src/package.rs:489-539 | no finished package is on a cycle |
| Packages.Resolver.constructor | src/package.rs:392-400 | resolution starts from nothing |
| Packages.Resolver.ClosesCycle | src/package.rs:500-510 | a dependency found on the stack closes a cycle that the root reaches, and the path reported leads from the root to it and back |
| Packages.Resolver.ResolveRecursive | src/package.rs:489-539 | success finishes the package with the stack restored; failure means a reachable cycle or a reachable package without manifest |
| Packages.Resolver.Enter | src/package.rs:515-520 | a newly loaded package goes on the stack above the one that depends on it, and the stack stays a path of dependencies from the root |
| Packages.Resolver.Finish | src/package.rs:536-538 | the finished package follows all its dependencies |
| Packages.Resolve | src/package.rs:392-415 | success gives exactly the reachable packages, each alias leading where the manifest says, and no cycle; a cycle error names a path from the root that comes back to a member of itself |
| Packages.Orderer.constructor | src/package.rs:482-484 | nothing visited |
| Packages.Orderer.Visit | src/package.rs:465-480 | each package is output once, after its dependencies |
| Packages.DependencyOrder | src/package.rs:461-486 | every package exactly once, each dependency before its dependants |

## Left out

- Heap destructors: they are calls that change nothing here, as the header asks of them; their order is not modelled.
- Heap addresses: a block is named by an index into one sequence of headers, so pointer arithmetic and alignment do not appear; the header size is that of a 64-bit target.
- Heap counters and generations: unbounded, so wrap-around of the owner count and the generation is not modelled, nor is overflow of header plus payload size.
- Heap allocation failure of the C library, `gr_shutdown` and the reports: not modelled.
- Handles are linear, as the header demands: copying one without `gr_clone` is outside the model.
- HeapRuns.CollectionComplete: asks for disciplined runs with honest `acyclic` flags; `HeapRuns.CompleteExactly` and `HeapRuns.DisciplineExactly` say what happens without the discipline.
- Move checking of `defer`, `expect`, custom `Drop`, dereferenced places, vector and map indexing, and closure expressions: a closure's body is checked like any other, and what making the closure captures is not.
- MoveChecker.MoveChecker.RequireAvailable: use after move and use before initialisation are one reason, because availability does not depend on which it is; wording and the cause's span are not modelled.
- MoveChecker.MoveChecker.MovePlace: moves through dereferences and out of types with a custom `Drop` are not reported, because neither is part of the model's types.
- MoveChecker.MoveChecker.ApplyUses: the uses given are those that count; that the move or copy of an `&place` expression is skipped is left to whoever lists them.
- MoveTypes.AvailableExactly: arrays of length zero are excluded, because a zero-length array has no leaf and the source never asks about its elements.
- Functions, closures, attributes, documentation comments, imports, enums, traits, implementations, type aliases, macros, quotes, formatted strings, `defer` and `expect` in the parser: their tokens are not part of the token type, so the streams considered are those without them.
- Parser.Parser.ParseStatement: `defer` and `expect` statements are not among its forms, because their keywords are not tokens of the model.
- Parser.Parser.ClassifyItem: the heads it knows are those of the items modelled here.
- The parser runs under the owned-surface revision, where `[var T]` is a type.
- Lexer.Lexer.LexLineTokens: the tokens of a line are given.
- Character-level lexing, literal decoding, spans and message texts: a line's tokens are given, and diagnostics are counted.
- LayoutGroups.GroupsInvert: a block inside delimiters closes what it opens and is followed by a line that closes delimiters; documentation inside delimiters, but for that in such blocks, is not among the printed lines. `LayoutRules.StreamBalanced` covers the rest.
- LayoutExact.LayoutExactly: asks for files without blocks or documentation inside delimiters, because inside them the engine lets pass lines that are no statement, such as one that closes nothing after a block.
- MoveExact.AcceptedExactly: asks for plain bodies, in which no place has a run-time index, no statement stands where control never is and every choice of alternatives has one; without the first two it is false (`MoveExact.IndexReported`, `MoveExact.UnreachedReported`), and an empty choice is no pattern.
- Parser.Parser.ParseFile: what is built of streams that draw a diagnostic is specified by `Statements`, and stated apart from it only as far as losslessness, termination and `StatementExact.RecoveredLine` go.
- Coherence over function, trait-object, foreign, closure and never types, inference variables, bounds and derived implementations; a type is seen as an outer shape with children, and `match_type_pattern` returns its bindings instead of updating them.
- Exhaustiveness over generic nominal types and the redundancy warning, where the coverage is only a lower bound; binding names and field visibility.
- MatchCheck.CheckMatch: the soundness clauses ask that no record pattern with `..` names a field that can fail; the code does not check this, and without it they are false (`Exhaustiveness.RestClaim`).
- MoveRun.AcceptedIsSafe: asks that guards move nothing; the code does not check this, and without it the claim is false (`MoveGuards.GuardsExactly`).
- Package loading: manifests are a given table from directories to dependencies with distinct aliases, and the check of semantic revisions is left out.
- Packages.Orderer.Visit: the dependencies of one package are visited in any order, where the source uses the order of aliases.
- The borrow checker, typed lowering, the macro engine, type interning, the C backend, the formatter and the command line are not part of this model.
