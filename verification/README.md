# Proofs about the Vilan compiler's async inference and dev loop

A Dafny model of the parts of the repository where the work is in the interaction of many steps, with proofs
that hold for every input, schedule and run. `dafny verify dfyconfig.toml` checks all of it.

**Async inference** (`Async*.dfy`, `Iterates`, `Schedules`, `Weights`, `TraitSearch`). The pass that decides which
functions and closures suspend: a base fixpoint over call edges, in turn with a worklist of *instances* - a function
and which of its closure parameters are async. The analyzer's tables are finite maps; a key's parameters are a set.
The specification is `AsyncFixpoint`: the least set of (instance, member) flags closed under one step, and the least
async set over it. `AsyncFlow` reads what makes a call async off the tables, as chains of held values, and
`AsyncDerived` reads the least sets as what can be derived one fact at a time; both are proved to be what the pass
computes. A round of the worklist is the state machine of `AsyncRound`, in which any queued instance may be taken
next; `AsyncInfer` runs it off a stack, as the source does, the order in which a hash set pushes left open.
`AsyncIncremental` files the cold record and infers over it. `AsyncSchedule` says which schedules of a round end,
`AsyncTiers*` for which programs all of them do, and `AsyncRing*` is a program with one that does not.

**The call graph** (`CallGraphs`, `CallGraphShape`, `CallGraphCut`, `CallGraphReplay`, `CallGraphBuild`). The graph
filled in place, cut to the cold ids, and extended over the rest of a later program with the same cold part;
`CallGraphShape` says what a build lays out by the program's tables alone.

**The dev loop** (`LegOrder`, `DevLoop`, `DevServer`, `DevPage`, `HotSwap`, `HotSwapCells`, `HotSwapShim`,
`EventWire`, `EventReader`). The order legs compile in, the change classifier, the server and the page that follow
its decisions, the state-preserving swap in that page, and the events on the wire with a reader for them.

**Around them** (`JobSignals`, `EditApplier`, `EditText`, `ClosestName`, `NearName`, `Utf8`, `Base64`, `BuildStamp`).
The signal-forwarding protocol, the greedy edit applier on bytes and on UTF-8, the edit distance behind "did you
mean", and two encodings of the build script.

## Results worth knowing

- **Verdicts do not only rise.** crates/vilan-core/src/async_infer.rs:1798-1799 rests the termination of a
  worklist round on flags that only move from false to true. Line 1836 overwrites a verdict, and an evaluation
  whose callee's bits grew reads an instance not evaluated yet, so a verdict can fall back. `AsyncRing` is a
  program whose round has a run that never ends, every turn of it off the top of the stack
  (`AsyncRingForever.RoundRunsForever`). The run pushes the pairs of three keys in cyclic order. Tables with a
  seed each give such orders (crates/vilan-core/src/fx.rs:168-183); under the one constant seed a key's slot is
  the same in every table, so that, collisions aside, the pairs agree on one order. What holds on every schedule
  is soundness: verdicts stay below the least fixpoint, and a round that ends is exact.
- **When a round ends.** On a given schedule, from scratch or over a record, exactly when the schedule starves no
  queued instance (`AsyncSchedule.RoundEndsIffUnstarved`). On every schedule, within a bound, when the program is
  *tiered* (`AsyncTiersEnd.TieredRoundEnds`): its functions can be numbered so that a call that may name an
  instance leads to a lower number, or stays among those numbered 0 and passes on no closure that may still turn
  async. A program none of whose calls passes on a closure of its own body is tiered
  (`AsyncTiersScope.OwnClosuresKeptIsTiered`), and on tiered programs the pass ends as written
  (`AsyncTiersInfer.InferToEnd`). `AsyncRing`'s program is not tiered (`AsyncTiersScope.RingUntiered`). The
  condition is not necessary: that program, with `work` not async, ends on every schedule
  (`AsyncTiersScope.UntieredYetEnds`), since what an instance goes on to name depends on the verdicts it meets.
- **A function's callers are ordered by how the graph was built.** `extend` rebuilds the reverse edges (line 278)
  before it restores the node order (line 279). Everything else is the clean build's; the callers of a function
  are the same nodes as often, kept ones first, and in the build's order exactly when that already has the kept
  ones first (`CallGraphBuild.BuildTwice`).
- **The signal reader relies on the interrupt hook not returning.** With a hook that ends the process every
  signal strikes an unreaped child of the CLI (`JobSignals.SignalsStrikeTheChild`); were it to return, the
  registry would still name the reaped pid (`JobSignals.ReturningHookStrikesStrangers`).
- **A selection that moves is not a restart.** The node leg a session runs is chosen again each round
  (crates/vilan-cli/src/main.rs:2127-2130) and the classifier compares that leg's bundle with its own of the round
  before. Where the choice moves between rounds and no bundle does, the child of the leg chosen before runs on
  (`DevServer.SelectionMovesAlone`); `DevServer.RoundRunsCurrent` says exactly when a round leaves the chosen leg's
  current bundle running, and `DevServer.ServerFollows` that every round does under one choice.
- **The threshold of a suggestion counts bytes, the distance characters** (crates/vilan-core/src/closest_name.rs:64):
  the model keeps both (`NearName.NearIff`).

## Model

| member | source | states |
|---|---|---|
| AsyncProgram.AwaitsLift | crates/vilan-core/src/async_infer.rs:1640-1705 | a call's verdict in an instance survives growing the async set, the flags, the bits and the true instances, though it asks for its callee's exact bits: widening over bits is what makes the analysis monotone |
| AsyncProgram.SuspendsMono | crates/vilan-core/src/async_infer.rs:3540-3566 | outside any instance, a suspending call still suspends over a larger async set, and in the plain view where it did in the cold one |
| AsyncProgram.BitsMono | crates/vilan-core/src/async_infer.rs:3462-3495 | the parameters a call adapts grow with the async set, the flags and the bits, and from the cold view to the plain one |
| AsyncFlow.SuspendsIsReach | crates/vilan-core/src/async_infer.rs:868-933 | a call suspends exactly when it reaches a node of the async set - its callee, a dispatch candidate, or a closure its subject leads to - or a chain of at most five held values leads from its subject to a field typed async or a call of what returns an async closure, or the subject itself is a local typed async |
| AsyncFlow.BitsAreAdapted | crates/vilan-core/src/async_infer.rs:3462-3495 | a parameter is in a call's bits exactly when it is marked neither sync nor async, returns a value, and meets an argument that is an adapted parameter, async by its type, or - itself or held - a closure flagged or in the async set |
| AsyncFlow.MetIsNamed | crates/vilan-core/src/async_infer.rs:1665-1680 | the instance a call names is one of its callee with exactly the adapted parameters; it names none where it adapts none or the view leaves the callee out |
| AsyncFlow.AwaitsIsReach | crates/vilan-core/src/async_infer.rs:1640-1705 | inside an instance a call awaits exactly when the instance it names answers true, or it adapts nothing and suspends as outside any instance, or it goes through an adapted parameter or a local ever held a flagged closure of the instance |
| AsyncFixpoint.LeastIsLeast | crates/vilan-core/src/async_infer.rs:1803-1876 | the iterates from "in the async set" reach a closed set of (instance, member) flags inside every other closed one |
| AsyncFixpoint.LeastMono | crates/vilan-core/src/async_infer.rs:2380-2445 | the least flags grow with the async set, and the plain view's contain the cold view's |
| AsyncFixpoint.LeastAnswers | crates/vilan-core/src/async_infer.rs:1803-1876 | in the least flags a function of the async set answers true in every instance, and an instance with more async parameters answers true where one with fewer does |
| AsyncFixpoint.LeastAsyncClosed | crates/vilan-core/src/async_infer.rs:110-116 | the least async set exists: it holds the seeds, is closed under suspending calls and under what base instances flag, and is inside every such set |
| AsyncDerived.AsyncIsDerivable | crates/vilan-core/src/async_infer.rs:110-116 | a node is in the least async set, and a member in the least flags of an instance, exactly when it can be derived from the seeds one fact at a time, each by one call, one nesting or one base instance |
| AsyncDerived.SaturatedIsLeast | crates/vilan-core/src/async_infer.rs:186-193 | every derivation that can go no further holds exactly those facts, whatever order it took them in |
| AsyncBase.BaseFixpoint | crates/vilan-core/src/async_infer.rs:3498-3525 | the passes end with the least set over the start closed under suspending calls, in either view and whatever the node order: the nodes a path of calls leads from to the start or to a statically async call |
| AsyncBase.BaseIsBackwardReachability | crates/vilan-core/src/async_infer.rs:869-915 | a node is in the base fixpoint exactly when a path of calls leads from it to a seed or to a statically async call |
| AsyncComponent.ComponentIsNesting | crates/vilan-core/src/async_infer.rs:1565-1586 | over a forest of closures a component lists the root and its transitively nested closures, each once |
| AsyncEvaluate.EvaluateInstance | crates/vilan-core/src/async_infer.rs:1640-1705 | the passes, each over every call of every member, end with the evaluation's flags, the instances named and the reads logged |
| AsyncEvaluate.SettleSettles | crates/vilan-core/src/async_infer.rs:1640-1705 | an evaluation ends settled: an awaiting call's member is flagged, every instance a call names was met, and every read a verdict rests on was logged |
| AsyncEvaluate.EvaluationIsExact | crates/vilan-core/src/async_infer.rs:1640-1705 | against verdicts below a closed set of flags, an evaluation stays below it and leaves nothing unsettled |
| AsyncQuiet.QuietCall | crates/vilan-core/src/async_infer.rs:2447-2466 | while nothing logged as not async has moved, a call that owed the log its negative reads names the instance it named, and awaits only where it awaited, unless that instance's verdict moved |
| AsyncQuiet.ReadsLogCall | crates/vilan-core/src/async_infer.rs:2447-2466 | a log that holds a call's reads, in whatever order they were made, holds what its negative answers owe |
| AsyncRoundProof.StepKeepsInv | crates/vilan-core/src/async_infer.rs:1803-1876 | whichever queued instance is taken, every invariant of the round stands: verdicts below the least ones, instances off the queue settled while the async set stands, recorded answers quiet while served |
| AsyncRoundEnd.RoundExact | crates/vilan-core/src/async_infer.rs:1728-1882 | a round that ends without growing the async set answers every instance it holds or serves with exactly its value in the least flags, whatever the order and despite verdicts that fell back |
| AsyncRoundEnd.CombinedClosed | crates/vilan-core/src/async_infer.rs:2836-3010 | the live instances' last flags, the served ones' recorded flags and the least flags of the rest together are closed: the served and the walked fit |
| AsyncInfer.Turn | crates/vilan-core/src/async_infer.rs:1803-1876 | one pop: the top of the stack is evaluated and absorbed, what it queues is pushed above the rest |
| AsyncInfer.AdaptationWorklist | crates/vilan-core/src/async_infer.rs:1728-1882 | a round keeps the async set inside every outer-closed set over its start, and ended without growing it, is exact |
| AsyncInfer.Rounds | crates/vilan-core/src/async_infer.rs:186-193 | the loop of base fixpoint and round ends, if each round does, with the least async set and exact verdicts; the answer is one whatever the order |
| AsyncCold.SameAwaits | crates/vilan-core/src/async_infer.rs:2380-2445 | in the cold view two programs with one cold tree give a cold call one verdict |
| AsyncCold.SameLogged | crates/vilan-core/src/async_infer.rs:2447-2466 | a log that holds what a cold call owes in one holds what it owes in the other, held values being listed in any order, or is marked unrecordable |
| AsyncIncremental.RecordCarriesOver | crates/vilan-core/src/async_infer.rs:2469-2512 | a record valid for one program is valid for every program with its cold tree and cold seeds |
| AsyncIncremental.ColdBelow | crates/vilan-core/src/async_infer.rs:2529-2661 | the cold result is inside the full one |
| AsyncIncremental.ColdInstanceRecord | crates/vilan-core/src/async_infer.rs:2529-2661 | the cold run files a valid record: least settled set, settled verdicts, and every negative read of every cold instance |
| AsyncIncremental.Infer | crates/vilan-core/src/async_infer.rs:186-193 | from scratch, over a valid record, or from the cold base fixpoint alone, the pass ends, if each round does, with the least async set and the least verdict of every instance it answers - what can be derived, and nothing else - and answers every instance a module initializer names |
| AsyncIncremental.InferBothWays | crates/vilan-core/src/async_infer.rs:2836-3027 | an analysis over an earlier program's record has the async set of one from scratch, and agrees with it on every instance both answer |
| Schedules.EndsIffUnstarved | crates/vilan-core/src/async_infer.rs:1803-1876 | a lawful worklist whose verdicts may fall back ends exactly when its schedule starves no queued item |
| AsyncSchedule.RoundIsLawful | crates/vilan-core/src/async_infer.rs:1803-1876 | a round over an unchanging async set, from scratch or over a record, is lawful: an instance flagged by the n-th iterate answers true once all below it do and it is taken, or while it is served |
| AsyncSchedule.RoundEndsIffUnstarved | crates/vilan-core/src/async_infer.rs:1798-1876 | a round that adds nothing to the async set, from scratch or over a valid record, ends exactly when its schedule starves no queued instance |
| AsyncTiers.SteadyBits | crates/vilan-core/src/async_infer.rs:3462-3495 | a call that passes on no closure whose asyncness may change adapts the same parameters throughout a round, whatever its members' flags |
| AsyncTiers.EvaluationGrows | crates/vilan-core/src/async_infer.rs:1640-1705 | in the lowest tier an evaluation made later in the round flags every member an earlier one did |
| AsyncTiers.TieredStill | crates/vilan-core/src/async_infer.rs:186-193 | a tiered program stays so as the async set grows, in the cold view, and over a record that settled more |
| AsyncTiersRecord.RecordIsLeast | crates/vilan-core/src/async_infer.rs:2529-2661 | a valid record's verdicts are the least ones of its own world |
| AsyncTiersRecord.RecordedConfirmed | crates/vilan-core/src/async_infer.rs:2836-3010 | a recorded verdict of the lowest tier that was true is true when it is evaluated again over the recorded verdicts |
| AsyncTiersRound.StepKeepsTiers | crates/vilan-core/src/async_infer.rs:1803-1876 | whichever instance is taken, readers stay in tiers above what they read, and no true verdict of the lowest tier is lost |
| AsyncTiersEnd.PotentialFalls | crates/vilan-core/src/async_infer.rs:1803-1876 | every pop of a tiered program's round, from scratch or over a record, the async set growing or not, lowers one number |
| AsyncTiersEnd.TieredRoundEnds | crates/vilan-core/src/async_infer.rs:1798-1876 | so every schedule of it ends within a bound that the program and the tiers give |
| AsyncTiersInfer.WorklistToEnd | crates/vilan-core/src/async_infer.rs:1728-1882 | a tiered program's round, popped until its stack is empty, ends, and is exact if it did not grow the async set |
| AsyncTiersInfer.RoundsToEnd | crates/vilan-core/src/async_infer.rs:186-193 | and so does the loop of base fixpoint and round, with the least async set and exact verdicts |
| AsyncTiersInfer.RecordToEnd | crates/vilan-core/src/async_infer.rs:2529-2661 | the cold run of a program tiered in the cold view ends with a valid record |
| AsyncTiersInfer.InferToEnd | crates/vilan-core/src/async_infer.rs:156-193 | from scratch, over a valid record, or from the cold base fixpoint alone, the pass ends on a tiered program with the least async set and the least verdict of every instance it answers - what can be derived, and nothing else - and answers every instance a module initializer names |
| AsyncTiersInfer.InferBothWaysToEnd | crates/vilan-core/src/async_infer.rs:2836-3027 | on tiered programs with one cold tree the pass over the earlier one's record and the pass from scratch both end, with one async set, and agree on every instance both answer |
| AsyncTiersScope.OwnClosuresKeptIsTiered | crates/vilan-core/src/async_infer.rs:3462-3495 | a program none of whose calls passes to an adaptive parameter a closure of the caller's own component, or a local holding one, is tiered |
| AsyncTiersScope.RingUntiered | crates/vilan-core/src/async_infer.rs:1798-1799 | no numbering tiers AsyncRing's program, whatever is async at the start but its three closures `c` |
| AsyncTiersScope.InertRoundEnds | crates/vilan-core/src/async_infer.rs:1803-1876 | where nothing is async, every schedule of a round ends within one pop for each function, the program tiered or not |
| AsyncTiersScope.UntieredYetEnds | crates/vilan-core/src/async_infer.rs:1803-1876 | AsyncRing's program over an empty async set is such a one: tiers are sufficient, not necessary |
| AsyncRing.RingEvaluates | crates/vilan-core/src/async_infer.rs:1640-1705 | in a concrete program an instance awaits exactly when the one it names does, and it names the waiting one once the next in the ring awaits |
| AsyncRing.RingIsBaseClosed | crates/vilan-core/src/async_infer.rs:3498-3525 | outside any instance none of the program's bodies suspends: the base fixpoint leaves the async set as it is |
| AsyncRingRun.GoesOn | crates/vilan-core/src/async_infer.rs:1803-1876 | five instances that answer so have, from the round's opening state, one run that goes on at every turn, off the top of the stack |
| AsyncRingRun.BaseWaits | crates/vilan-core/src/async_infer.rs:1803-1876 | and what waits at the bottom of the stack is never taken |
| AsyncRingForever.RingOpens | crates/vilan-core/src/async_infer.rs:1728-1800 | the concrete program's round opens in that state |
| AsyncRingForever.RoundRunsForever | crates/vilan-core/src/async_infer.rs:1798-1799 | so that program's round has a run that never ends, in the sense of `RoundEndsIffUnstarved`: over an unchanging async set the base fixpoint leaves, every turn off the top of the stack, the instance the first initializer names queued for ever and never taken |
| AsyncMaterialize.Materialize | crates/vilan-core/src/async_infer.rs:3581-3610 | for any sequence of calls sharing one memo each verdict is what the first call of its dispatch record finds among its own candidates, false for a dispatch with no record, and the unmemoized one for the rest |
| AsyncMaterialize.AgreesUnlessStrays | crates/vilan-core/src/async_infer.rs:3581-3610 | the memoized verdict is the unmemoized one exactly unless an object call with no record has an async candidate or the record's first call answered otherwise; and it differs only where one of the two goes through an object |
| AsyncMaterialize.CallSuspendsMemoized | crates/vilan-core/src/async_infer.rs:3581-3610 | one call's verdict is its record's remembered one, or else its own and remembered; no other entry of the memo changes |
| TraitSearch.Saturate | crates/vilan-core/src/async_infer.rs:1131-1165 | the saturation ends, on cyclic supertraits too, with exactly the traits that reach a declaring one through traits that do not declare; none where no trait declares |
| TraitSearch.DeclaringTraitsInChain | crates/vilan-core/src/async_infer.rs:1422-1445 | the search ends with exactly the declaring traits so reached, each once |
| TraitSearch.SearchBothWays | crates/vilan-core/src/async_infer.rs:1131-1165 | a trait is in the saturated set exactly when the search from it finds something |
| CallGraphBuild.CallGraph.AddAll | crates/vilan-core/src/call_graph.rs:412-586 | the walk over what is admitted leaves the graph the specification describes: nodes, parents, children, awaits, initializers, const regions |
| CallGraphShape.WalkLaysOut | crates/vilan-core/src/call_graph.rs:412-617 | by the tables alone: the admitted functions with a body, then the admitted closures, each once in table order; a closure's parent is the last node whose body holds it; every body's walk under its id; an initializer under its binding; the regions are the bindings whose initializer is a const expression and the const expressions that initialize no binding |
| CallGraphShape.OneRegionEach | crates/vilan-core/src/call_graph.rs:541-558 | each const expression is walked under some region, and under one only unless two bindings share it as their initializer |
| CallGraphBuild.CallGraph.BuildReverseEdges | crates/vilan-core/src/call_graph.rs:628-640 | each callee's callers are the nodes that call it, once for each call, in node order |
| CallGraphShape.CallersCounted | crates/vilan-core/src/call_graph.rs:628-640 | a node is among a function's callers as often as it calls it by name, and no other node is |
| CallGraphShape.BuildLaysOut | crates/vilan-core/src/call_graph.rs:412-640 | the built graph is laid out so, reverse edges included |
| CallGraphBuild.CallGraph.Restricted | crates/vilan-core/src/call_graph.rs:214-268 | the cut holds exactly the kept ids' entries |
| CallGraphBuild.CallGraph.Extend | crates/vilan-core/src/call_graph.rs:275-307 | what is admitted is added and the build's order restored, the reverse edges keeping the order of addition |
| CallGraphBuild.CallGraph.RemapMinted | crates/vilan-core/src/call_graph.rs:350-364 | the call ids at or past the old base are moved onto the new one in every list, and nothing else changes |
| CallGraphReplay.RemapMoves | crates/vilan-core/src/call_graph.rs:350-364 | a call below the old base keeps its id, one at or past it is as far past the new base as it was past the old; targets, positions and the other fields stand |
| CallGraphReplay.RemapBack | crates/vilan-core/src/call_graph.rs:309-322 | renumbering back gives the graph again exactly when none of its calls has an id from the new base up to the old one |
| CallGraphBuild.BuildTwice | crates/vilan-core/src/context.rs:224-235 | a later program's graph built whole, or an earlier one's cut, renumbered and extended: one graph, with each function's callers the same multiset, kept ones first, and the same sequence exactly when the build's already has the kept ones first |
| CallGraphReplay.CutsAgree | crates/vilan-core/src/context.rs:199 | two programs with one kept part - its ids in one order, walked alike but for minted call ids - have, renumbered, one cut |
| CallGraphReplay.CutThenExtended | crates/vilan-core/src/context.rs:288-308 | so the earlier program's cut, renumbered and extended over the rest of the later one, equals the later one's build in every field and order, given a closure is kept exactly when the body it is in is |
| CallGraphCut.CutRejoins | crates/vilan-core/src/call_graph.rs:214-307 | a program's own cut extended over its rest is its build |
| CallGraphCut.ParentsRejoin | crates/vilan-core/src/call_graph.rs:590-617 | a closure's parent link survives, the last definer winning in both |
| CallGraphCut.RegionsInBuildOrder | crates/vilan-core/src/call_graph.rs:294-306 | the order `extend` restores is the one a build lays the const regions out in |
| CallGraphCut.KeptFirstStands | crates/vilan-core/src/call_graph.rs:275-279 | moving the kept nodes first changes nothing exactly when they already are |
| LegOrder.LegsInArtifactOrder | crates/vilan-cli/src/hmr.rs:835-861 | a permutation; a leg none of whose transitive producers is on a cycle follows its producers; the order is valid exactly when the relation is acyclic, and is then lexicographically the least valid order |
| LegOrder.TameIsReady | crates/vilan-cli/src/hmr.rs:843-855 | a stall never takes a leg whose producers, transitively, contain no cycle |
| LegOrder.TopologicalIsAcyclic | crates/vilan-cli/src/hmr.rs:829-834 | a relation with a cycle has no valid order |
| LegOrder.ValidDeclarationStands | crates/vilan-cli/src/hmr.rs:824-828 | where each leg reads only earlier ones the declaration order is kept |
| DevLoop.Classify | crates/vilan-cli/src/hmr.rs:918-1009 | a swap and a version bump exactly when some browser leg's bundle moved, appeared or vanished or its sheet appeared or vanished; a css push naming exactly the rewritten sheets, in order, when only texts moved; a restart exactly when the run server moved or vanished |
| DevLoop.SwapsIff | crates/vilan-cli/src/hmr.rs:918-1009 | past the first round a swap is asked for exactly when the set of browser legs' names, bundles and having a sheet is another |
| DevLoop.RewrittenIff | crates/vilan-cli/src/hmr.rs:956-963 | a css push names a leg's sheet exactly when that browser leg had one and has one and the text is another |
| DevServer.RunRound | crates/vilan-cli/src/main.rs:2127-2332 | the round's decision carried out: the child is replaced by the selected leg's bundle where a restart is asked for, and stands otherwise |
| DevServer.RestartsIff | crates/vilan-cli/src/hmr.rs:918-1009 | past the first round a restart is asked for exactly when the selected node leg's bundle is another than it was, or the leg appeared or vanished |
| DevServer.RoundRunsCurrent | crates/vilan-cli/src/main.rs:2127-2332 | a round leaves the selected leg's current bundle running exactly when it restarts or the leg now selected had, the round before, the bundle of the one selected then |
| DevServer.ServerFollows | crates/vilan-cli/src/main.rs:2285-2332 | over every run of rounds under one selection the child runs the selected leg's current bundle after each, and a round that leaves that bundle and the leg's presence alone starts nothing |
| DevServer.SelectionMovesAlone | crates/vilan-cli/src/main.rs:2127-2130 | a selection that moves while no bundle does leaves the leg selected before running |
| DevLoop.RewrittenNames | crates/vilan-cli/src/hmr.rs:956-963 | the css push names a sheet exactly when a browser leg of that name kept one and its text changed |
| DevLoop.PageConverges | crates/vilan-cli/src/hmr_shim.js:562-611 | a page in sync, handling the pushed events at any later time against what is served then, is in sync again whenever none is on its way: bundle, version, own sheet current or withdrawn, linked sheets current |
| DevLoop.DeliverKeepsInv | crates/vilan-cli/src/hmr_shim.js:646-687 | handling an event keeps, for every sheet and for the bundle, "right already or the last event on its way will make it so" |
| DevLoop.RoundKeepsInv | crates/vilan-cli/src/hmr.rs:918-1009 | and so does a round: what it pushes covers everything it changed |
| DevLoop.EqualVersionsEqualBundles | crates/vilan-cli/src/hmr.rs:889-909 | the channel's version never falls, and rounds with one version have one set of browser bundles |
| DevPage.Document.HandleEvent | crates/vilan-cli/src/hmr_shim.js:646-687 | the event's handling, in place, leaves the page the model's handling gives |
| DevPage.Document.ApplyFreshCss | crates/vilan-cli/src/hmr_shim.js:500-510 | a sheet lands where the document links it or it is the page's own: links disabled, one superseding style with the fresh text, every other sheet untouched |
| DevPage.Document.ReconcileSheets | crates/vilan-cli/src/hmr_shim.js:571-588 | every declared sheet applied in order, the page's own withdrawn when undeclared |
| DevPage.Document.WithdrawOwnSheet | crates/vilan-cli/src/hmr_shim.js:597-611 | the style removed and the links disabled |
| HotSwap.SwapsAreSerial | crates/vilan-cli/src/hmr_shim.js:154-233 | over any run from the page's load, a capture finds no import pending and exactly what the last evaluated bundle exposed; cleanups run once each in the order registered; bundles evaluate once each in the order requested |
| HotSwap.CleanupsRunFirst | crates/vilan-cli/src/hmr_shim.js:192-207 | every cleanup registered before a capture has run, once, when the swap is past its teardown |
| HotSwap.ValueCarriesOver | crates/vilan-cli/src/hmr_shim.js:168-187 | over any run of overlapping swaps whose bundles expose a key under one fingerprint, its getter answers at the end what it did at the start, unless the program itself wrote to the live cell |
| HotSwapCells.CaptureIsExact | crates/vilan-cli/src/hmr_shim.js:168-189 | a capture holds exactly the exposed bindings that are not lazy cells short of state 2, each under its fingerprint with the value its cell has |
| HotSwapCells.SwapCarriesCells | crates/vilan-cli/src/hmr_shim.js:72-139 | over any run across one swap, a lazy binding not yet forced at the capture is absent from the seed and the next bundle keeps the cell it built, thunk and all; a forced one comes out at state 2 with its value and no thunk; a signal keeps the new cell's subscribers |
| HotSwap.StepKeepsWorth | crates/vilan-cli/src/hmr_shim.js:68-142 | no capture, cleanup, clearing, adoption or resolution changes what a persisting binding is worth |
| HotSwap.Adopted | crates/vilan-cli/src/hmr_shim.js:72-129 | an adopting binding answers the captured value under a matching fingerprint, and is the thunk's own cell otherwise |
| HotSwap.StepKeepsInv | crates/vilan-cli/src/hmr_shim.js:160-233 | whatever happens next, the registry is what the bundle's statements so far exposed, and registered, run and pending cleanups, and requested, evaluated and waiting bundles, stay in step |
| HotSwapShim.Shim.AdoptBinding | crates/vilan-cli/src/hmr_shim.js:72-129 | the four adopting globals leave the state the event describes, and the cell they return is the one the binding holds |
| HotSwapShim.Shim.CaptureExposed | crates/vilan-cli/src/hmr_shim.js:169-188 | the loop over the registry captures every key whose getter answers and no other |
| HotSwapShim.Shim.PerformSwap | crates/vilan-cli/src/hmr_shim.js:168-218 | capture, every cleanup once, an empty registry, the import pending |
| HotSwapShim.SwapIsItsEvents | crates/vilan-cli/src/hmr_shim.js:168-218 | that method is the run of events: begin, each cleanup, clear |
| EventWire.EscapeJson | crates/vilan-cli/src/hmr.rs:403-421 | the loop appends each character's escape |
| EventWire.UnescapesBack | crates/vilan-cli/src/hmr.rs:403-421 | un-escaping as in section 7 of RFC 8259 gives every text back, and the escaped text has no control character |
| EventWire.QuotesAreEscaped | crates/vilan-cli/src/hmr.rs:403-421 | in a body that reads, a quote stands only after a backslash |
| EventWire.EventIsPrintable | crates/vilan-cli/src/hmr.rs:375-387 | an event is one line whatever its message and asset hold |
| EventWire.SwapIsPrintable | crates/vilan-cli/src/hmr.rs:390-401 | so is a swap event, whatever its sheets are called |
| EventReader.EventReads | crates/vilan-cli/src/hmr.rs:375-387 | an event, read as a JSON object, is its kind, its version, and the message and the asset it carries, each under its own name |
| EventReader.SwapReads | crates/vilan-cli/src/hmr.rs:390-401 | a swap event reads as its version and its sheets in order, the empty list included |
| EventWire.StreamSplits | crates/vilan-cli/src/hmr.rs:368-373 | a stream of frames of such payloads splits at its blank lines into exactly those payloads |
| JobSignals.SignalsStrikeTheChild | crates/vilan-cli/src/job.rs:369-414 | in every interleaving each signal the reader passes on, and each the grace period forces, strikes the child it is meant for, unreaped, pids being reused |
| JobSignals.SignalsHandledOnce | crates/vilan-cli/src/job.rs:369-414 | each signal read is handled once, in order: passed on, suppressed as delivered, or given to the hook; what was sent is what the outcomes say; a terminal's interrupt is never sent again |
| JobSignals.TerminalInterruptsStay | crates/vilan-cli/src/job.rs:369-414 | over every run: a suppressed signal has number 2 and came from the kernel; no such signal is sent; every other one read while a child is registered is sent to that child, once and in the order read; the grace period sends 9 |
| JobSignals.ReapedBeforeTheHook | crates/vilan-cli/src/job.rs:237-256 | in Exit mode the hook runs with the child reaped and the lock held, and from the signal on no step registers a child |
| JobSignals.StepKeepsInv | crates/vilan-cli/src/job.rs:88-146 | every step of either thread keeps the registered child unreaped until the reader reaps it under the lock, and each child reaped by one thread |
| JobSignals.ReturningHookStrikesStrangers | crates/vilan-cli/src/job.rs:393-400 | a hook that returns has a run in which a stranger is struck |
| EditApplier.ApplySpans | crates/vilan-cli/src/fix.rs:327-342 | the text is the substitution, all at once, of compatible edits - each the first listed at its span - and their number is the greatest over all compatible choices of in-bounds spans |
| EditText.SliceableIsWellFormed | crates/vilan-cli/src/fix.rs:327-342 | a span slices well-formed UTF-8 exactly when it is in bounds and leaves what is before it, in it and after it well-formed |
| EditText.SubstitutedIsWellFormed | crates/vilan-cli/src/fix.rs:327-342 | edits of well-formed text at such spans, with well-formed replacements, leave well-formed text |
| EditApplier.ApplyMovedPaths | crates/vilan-cli/src/fix.rs:348-363 | the same for the moved paths, on spans known to slice the text: at distinct spans, as a map's are, the edits made are a compatible choice of the greatest number |
| EditApplier.AcceptedAreMost | crates/vilan-cli/src/fix.rs:327-342 | no pairwise disjoint choice of sliceable spans is larger than the greedy one |
| EditApplier.AcceptedAreCompatible | crates/vilan-cli/src/fix.rs:327-342 | the greedy choice is itself one |
| EditApplier.SpliceStep | crates/vilan-cli/src/fix.rs:332-339 | asking the rewritten text whether a span slices it is asking the original, and splicing last to first is substituting |
| EditApplier.UntouchedStands | crates/vilan-cli/src/fix.rs:332-339 | a byte outside every edit stands, moved by the growth of the edits before it |
| EditApplier.EditStands | crates/vilan-cli/src/fix.rs:332-339 | an edit's text stands where its span was, moved likewise |
| EditApplier.LengthAccounted | crates/vilan-cli/src/fix.rs:332-339 | the length is the original's plus what the edits grow it by |
| ClosestName.EditDistance | crates/vilan-core/src/closest_name.rs:16-35 | two rows give the fewest single-character insertions, deletions and substitutions, anywhere in the string, that lead from one to the other |
| ClosestName.FewestEdits | crates/vilan-core/src/closest_name.rs:12-15 | that many edits suffice and no fewer do |
| ClosestName.ZeroIsEqual | crates/vilan-core/src/closest_name.rs:16-35 | the distance is zero exactly for equal strings |
| ClosestName.Symmetric | crates/vilan-core/src/closest_name.rs:16-35 | the distance is symmetric |
| ClosestName.Triangle | crates/vilan-core/src/closest_name.rs:16-35 | the distance satisfies the triangle inequality |
| ClosestName.FindClosest | crates/vilan-core/src/closest_name.rs:47-72 | the first of the nearest candidates other than the target and within the threshold, or none exactly when there is none |
| NearName.NearIff | crates/vilan-core/src/closest_name.rs:36-66 | a candidate is within the threshold exactly when it is another name and one edit away, or three times its distance is at most the UTF-8 bytes of one of the two |
| Base64.EncodeBytes | crates/vilan-core/build.rs:67-89 | the loop over three-byte groups encodes |
| Base64.DecodesBack | crates/vilan-core/build.rs:67-89 | a strict decoder for section 4 of RFC 4648 inverts the encoding, for every byte string |
| Base64.EncodesBack | crates/vilan-core/build.rs:67-89 | and accepts nothing else |
| Base64.EncodedLength | crates/vilan-core/build.rs:67-89 | four characters for every three bytes begun |
| Base64.PaddingIsLast | crates/vilan-core/build.rs:76-86 | padding stands exactly in the last places the bytes fall short of |
| BuildStamp.Feed | crates/vilan-core/build.rs:99-112 | the hasher is fed each file's frame in turn |
| BuildStamp.BytePlaces | crates/vilan-core/build.rs:99-112 | a length is fed least significant byte first: the byte at place i is that of the number without its i low bytes |
| BuildStamp.ParsesBack | crates/vilan-core/build.rs:99-112 | with NUL-free names and lengths below 2^64 the fed bytes parse back to the file list |
| BuildStamp.DistinctStreams | crates/vilan-core/build.rs:99-112 | so distinct lists feed distinct streams |

## Left out

- AsyncInfer.AdaptationWorklist: takes a budget of pops, and promises exactness when the stack empties within it; the source has no budget, and by `AsyncRingForever.RoundRunsForever` its round need not end. `AsyncTiersInfer.WorklistToEnd` is the loop without one, for tiered programs.
- AsyncInfer.Rounds: the same budget for each round; the outer loop itself is proved to end. `AsyncTiersInfer.RoundsToEnd` has none.
- AsyncIncremental.ColdInstanceRecord: the same; `AsyncTiersInfer.RecordToEnd` has none. The reads of the decisions pass are not in the record.
- AsyncIncremental.Infer: the same; `AsyncTiersInfer.InferToEnd` has none.
- AsyncIncremental.InferBothWays: the same; `AsyncTiersInfer.InferBothWaysToEnd` has none. The locality of a record - cold bodies name cold ids, their parameters are cold and unchanged, their cold held values are the same, in any order - is the hypothesis `AsyncCold.SameCold`.
- AsyncTiersEnd.TieredRoundEnds: sufficient, not necessary. Whether every schedule of an untiered program's round ends depends on the verdicts its runs reach: `AsyncTiersScope.UntieredYetEnds` and `AsyncRingForever.RoundRunsForever` are of one program, over two async sets.
- AsyncRingForever.RoundRunsForever: the order a set of readers is pushed in is left open, as it is with a seed for each table; whether some program's round never ends under the one constant seed is not settled.
- An evaluation's newly met instances join the round when it ends, not while it runs: within one evaluation they answer false either way.
- An instance's parameters are a set; the source sorts them.
- Held values, dispatch candidates and impl selection are given tables: the analyzer and type checker are not modelled.
- The decisions pass over a settled round, its diagnostics and call origins.
- CallGraphBuild.CallGraph.AddAll: takes what a walk of a body finds as given; the collector's descent over expressions is not modelled, and maps always written together under one id are one map.
- CallGraphReplay.CutThenExtended: that a cold body is walked alike in both programs is its hypothesis `SameKept`; when a record is filed or replayed, and the graph's queries, are not modelled.
- LegOrder.LegsInArtifactOrder: requires producers to be legs of the workspace; the source would index out of range.
- DevLoop.PageConverges: each event is handled before the next is, with successful fetches; overlapping fetches whose responses overtake one another, pages that join by the reconnect event, failed rounds and the error overlay are not modelled. Leg names are unique, a leg's kind is stable from one round to the next, and no round is without legs.
- DevServer.RunRound: the child is taken to start, and to run until it is replaced; a failed launch, a child that ends by itself and a failed compile are not modelled.
- DevPage.Document.HandleEvent: the sheets of a document are one entry for each sheet name, its links and style together; where a style is placed is not modelled.
- HotSwapShim.Shim.PerformSwap: carries out a swap with nothing else happening in it; cleanups and page code that act during a swap are the events of HotSwap.
- Scroll and focus, the user's own stash, object URLs; a failed import ends the page in the model, as the reload does.
- JobSignals.SignalsStrikeTheChild: does not cover `ManagedChild::kill`, which takes no lock; a child is waited for once; a full pipe, the timing of the grace period and Windows job objects are not modelled.
- BuildStamp.Feed: the directory walk and the hash itself.
- The watch loop's skip decision by content hash, HTTP routing and tokens, and the command line: one branch settles each.
