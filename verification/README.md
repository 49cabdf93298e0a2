# Verification of the flow engine

A flow is a graph of typed nodes. The compiler inlines templates into it and checks it, the worker walks the
compiled graph and commits every step twice (a claim, then a result), and a crashed run resumes from the rows it
left. This project models that path in Dafny and proves what it promises for every graph, every node behaviour,
every interleaving and every crash. The token pool, the rate limiter, the replay buffer, the stored form of
graphs and the reference path language are modelled beside it.

`dafny verify dfyconfig.toml` checks everything. A node's own `execute` is an arbitrary function of its resolved
inputs, its pinned account and its loop count, given as a parameter; so are the environment, the JSON serialisers,
UUID parsing and the template lookup. The word characters and digits of the reference patterns are a parameter too,
as is the cap on batch children. The theorems about paths hold for every choice that has the ASCII letters, digits
and the underscore, gives digits values below ten, and leaves out `.`, `[`, `]`, `-`, `:` and the newline: that is
so of Unicode's classes and of plain ASCII (`Paths.AsciiIsRegular`).

## How the files fit together

- `Base`, `JsonValues`, `Decimals`, `Ir`: options, JSON values with Python's equality and truthiness, decimal
  numerals, and the compiled graph that all the parts below share.
- `IterationKeys`, `Paths`, `References`, `IrCodec`: the encodings: step keys, paths, whole references, stored graphs.
- `Machine`: the interpreter as a step machine. A thread is one walk with its own result map; a fork holds one
  thread a branch; a step is the code between two store operations and names the thread that moves. `Lifting`
  moves runs of a part into runs of the whole.
- `Interpreter`: the same walk as the program has it, methods with loops over a mutable engine, two stores and
  result maps, proved to be a run of the machine.
- `Moves`, `Inputs`, `Routes`, `Items`: what a run does at each kind of step, said about JSON values, edges and rows
  and not in the interpreter's own helper functions: the loop head, the join, what a node is given, where its output
  sends the chain, which item a round of a fan-out takes. Each holds in every state of every run, at any depth.
- `LabelledWalks`: a run without forks, fan-outs and stops visits the nodes of the nested calls, along the edges that
  its outputs name.
- `StepRows`: the key of every chain is that of the items and labels that lead to it, so a step row has one visit.
- `Confluence`, `Schedules`: moves of different branches commute, hence every clean schedule of a fork ends alike.
  `ForkFailures`: which failures a fork can record when its branches do fail.
- `Budget`, `SafeWalk`, `AbortDrain`: the step budget and termination, lookups and revisits, stops inside forks.
- `Mirror`, `Raises`, `Rows`, `Following`, `Resume`: crashes. The resumed walk is matched, move by move and up to a
  common exception, by the walk that never crashed, as long as no node executes without a result that only an earlier
  attempt had. `LostReads` shows what such a read does, `Survival` that it is exactly what keeps an attempt from
  completing, and `CutPoints` gives a condition on the graph and the run row that rules it out.
- `Scenarios`, `CrashScenarios`, `CompileScenarios`: concrete flows, run from their entry, on which a promise fails;
  each shows that a condition of a theorem is needed.
- `Stores`, `Ownership`: the run row and the step table, and many executors and closers racing on one row.
- `Blocks`, `Inlining`, `Wiring`, `CycleCheck`, `Compiler`: flows with template calls as nested programs, the flat
  graph that replaces them, the depth-first cycle check, and the compiler's own loops. `CompiledFlows` carries the
  compiler's results into the interpreter.
- `CompiledForm`: what the compiled graph holds for each place of the nested calls, field by field, and that it holds
  nothing else. `Parameters`, `CompileChecks`: exactly which flows expand and compile.
- `TokenPool`, `TenantPools`: reference-counted client pools, as interleaved steps and as objects.
- `RateLimit`, `Replay`: two bounded structures, each compared with the structure that keeps everything.

## Where the code does not do what one might expect

Each of these but the last is a lemma; the theorems beside them carry the condition that rules it out.

- A resumed attempt starts with an empty result map. Whenever a node executes that is wired to a result its walk does
  not have, the run fails (`LostReads.MissingResultFailsTheRun`). A run that completes without a crash survives its
  crashes exactly if that does not happen in the attempt (`Survival.SurvivesExactly`). `CrashScenarios` has one
  flow for both sides: it fails when its executor dies before its second node has committed (`CrashFailsTheRun`), and
  it completes when the executor dies after that commit, because a committed step is replayed and reads nothing
  (`CommittedReadIsSurvived`).
- No read is ever lost if the run row names a cut point whenever an executor dies: from there on no node refers to a
  node before it or to one that a fan-out before it walks in its body (`CutPoints.CrashesAtCutPointsLeaveNoTrace`).
  References that stay behind the resume point are not enough by themselves, because a fan-out body's results
  outlive it (`CrashScenarios.BodyResultIsLost`).
- A run that is asked to stop can end FAILED without any node failing: an inner fork that an outer sibling's stop
  catches while its branches stand before different nodes does not converge (`Scenarios.StopFailsTheRun`). If no
  node fails, a stopped run completes exactly if it never joins a fork that has come to rest without an abort of its
  own and whose branches do not meet at one existing join, each with a result
  (`AbortDrain.AbortCompletesUnlessBadJoin`).
- When several branches of a fork fail, the schedule decides which failure is recorded, crash or no crash. A fork can
  record exactly the failures with which one of its branches can end alone (`ForkFailures.ForkFailsAsItsBranches`);
  `Scenarios.ScheduleDecidesTheFailure` is a flow that can record two.
- Items and fork labels that are empty or contain a colon, and items that read `fork` or `visitN`, share step rows
  with other paths, all of them (`IterationKeys.EveryOtherLevelCollides`).
- A call whose template has an exit cannot lead to another call, and a call's parameter cannot be wired to another
  call's output: both are rejected as dangling (`Inlining.CallToCallIsRejected`,
  `Wiring.CallOutputAsParamIsRejected`).
- A plain node and a call may have the same id. The duplicate check compares flat ids, so the flow compiles
  (`CompileScenarios.SharedIdCompiles`), and the edges of plain nodes to that id all skip the plain node
  (`Inlining.SharedIdHidesPlainNode`).
- Walking a path in two parts decodes a JSON string found half way, walking it in one go does not
  (`Paths.EmbeddedJsonNeedsTwoWalks`, with a serialiser that does so in `Paths.SomeCodecEmbeds`).
- A reader that reconnects after more than 500 further events misses those that have left the buffer in between;
  `Replay.ReconnectResumes` says which.
- A reference to the pseudo-node `vars` is kept by template expansion but rejected by `_resolve_input`; flow
  variables are reached only through the `{{vars.name}}` literal. The model follows the code.

## Model

| member | source | states |
|---|---|---|
| IterationKeys.KeysAreInjective | app/worker/runtime.py:202-204 | two paths of plain items, fork labels and revisit numbers share a stored key only if they are the same path, and only the empty path has the empty key |
| IterationKeys.PathOfKey | app/worker/runtime.py:202-204 | a stored key can be read back to the path it was composed from |
| IterationKeys.EveryOtherLevelCollides | app/worker/runtime.py:202-204 | every other level, be it an empty or colon-bearing item or label or an item that reads `fork` or `visitN`, occurs in two different paths with one key |
| StepRows.EveryChainIsKeyed | app/worker/runtime.py:713-761 | in every run, however branches interleave, the key of each chain is that of the items and fork labels that lead to it, item by item |
| StepRows.RowBelongsToOneVisit | app/worker/runtime.py:594-602 | two moments of any two runs that use one step row, with plain items and labels on the way, are at the same node, behind the same items and labels, in the same visit |
| Paths.GrammarIsExact | app/domain/flow_engine/path.py:18-40 | a text parses to a segment list exactly if it is a concatenation of `.name` and `[int]` texts that denote those segments |
| Paths.ParsePrinted | app/domain/flow_engine/path.py:18-40 | parsing the printed form of any printable segment list gives that list back |
| Paths.ParsePath | app/domain/flow_engine/path.py:23-40 | the loop over matches accepts and returns what the grammar says, and rejects gaps and leftover text |
| Paths.Search | app/domain/flow_engine/path.py:30-30 | the next match is the first position at which the segment pattern applies |
| Paths.ResolvePath | app/domain/flow_engine/path.py:43-87 | the loop over segments computes the walk over the decoded value, and fails exactly where that walk fails |
| Paths.PathSplits | app/domain/flow_engine/path.py:43-87 | walking p then q in one go is walking p, re-encoding the leaf and walking q, when the leaf is a container that the serialiser reads back, and fails otherwise, negative indices included |
| Paths.EmbeddedJsonNeedsTwoWalks | app/domain/flow_engine/path.py:83-86 | the converse fails: a string leaf that holds JSON is entered only by the second of two walks |
| IrCodec.RoundTrip | app/domain/flow_engine/repo.py:129-171 | decoding the stored form of any node, with children to any depth, gives the node back |
| IrCodec.OldRowReads | app/domain/flow_engine/repo.py:94-171 | a row of any earlier stage, with any of the later keys missing and any of its references stored without a path, decodes to the same node with the old defaults in exactly those places |
| IrCodec.InputRoundTrips | app/domain/flow_engine/repo.py:79-104 | every kind of input survives storing and reading |
| Stores.RunStore.Claim | app/domain/flow_engine/repo.py:445-463 | the row moves to RUNNING under the caller's name at the next version exactly if the version matched, with position and error as they were, and otherwise does not change |
| Stores.RunStore.Touch | app/domain/flow_engine/repo.py:465-493 | position, status and the first 2000 characters of the error, none for an empty one, are written at the next version exactly if the version matched |
| Stores.StepStore.ClaimStep | app/domain/flow_engine/repo.py:528-547 | a RUNNING row is inserted exactly if there was none; an existing row is never touched |
| Stores.StepStore.GetStep | app/domain/flow_engine/repo.py:549-569 | the row of the key, if any |
| Stores.StepStore.CompleteStep | app/domain/flow_engine/repo.py:571-592 | only the row of the key changes, to COMPLETED with this result, whatever its status was; without such a row nothing changes |
| Ownership.AlwaysInv | app/worker/runtime.py:361-422 | in every interleaving the log of wins counts the versions up, owners hold versions they won, and nobody is in a position to write a completed row |
| Ownership.EachVersionWonOnce | app/domain/flow_engine/repo.py:445-493 | each version is won by exactly one write, and the row moves with no other |
| Ownership.WinsAreWritten | app/domain/flow_engine/repo.py:445-493 | in every interleaving a step that wins the row found it in a state for that, a claim a run that is not completed, and an advance, an end, a failure or a close a running one, and leaves it saying what it came to say; every other step leaves the row alone |
| Ownership.OneOwner | app/worker/runtime.py:523-526 | at most one party owns the present version |
| Ownership.LosersNeverWrite | app/worker/runtime.py:588-593 | a party that has lost the row never writes it again, in any continuation |
| Ownership.CompletedIsForever | app/worker/arq_settings.py:301-317 | no interleaving of reads, claims, touches and closers ever changes a COMPLETED row, although neither write tests the status |
| Ownership.FailAbandonedRun | app/worker/arq_settings.py:301-317 | a run that is still running is failed where it stands, with the reason, and any other is left alone; unraced, this is what the two operations of a closer do |
| Ownership.NextInv | app/domain/triggers/firing.py:117-128 | every store operation of an executor, of a cancelled job and of the sweeper keeps the invariant |
| Interpreter.Engine.EnterNode | app/worker/runtime.py:575-598 | the loop head of the walk does what the machine's head step does: flag, lookup, join, budget, touch |
| Interpreter.Engine.RunNode | app/worker/runtime.py:902-994 | claiming, replaying or executing a node leaves the result and the step row the machine's two steps leave, so a node executes on what it is given (`Inputs.ExecutesOnWhatIsGiven`) |
| Interpreter.Engine.VisitNode | app/worker/runtime.py:604-649 | one iteration of the walk is a run of the machine from the claim to the choice of the next node |
| Interpreter.Engine.FollowRoute | app/worker/runtime.py:646-697 | goto, fork, fan-out and labelled edges lead where the machine leads, which is where the output says (`Routes.OutputsAreFollowed`) |
| Interpreter.Engine.RunChain | app/worker/runtime.py:529-698 | the whole loop, with everything it calls, is a run of the machine from its head to its end |
| Interpreter.Engine.RunFanoutBody | app/worker/runtime.py:713-761 | the loop over items is a run of the machine's fan-out, in one shared result map, so each round takes its item (`Items.RoundsTakeTheItems`) |
| Interpreter.Engine.RunOne | app/worker/runtime.py:806-837 | a branch walks on its own copy of the results and turns an abort into the flag |
| Interpreter.Engine.RunFork | app/worker/runtime.py:764-884 | the branches, run one by one, and the merge are one run of the machine's fork |
| Interpreter.Engine.MergeBranches | app/worker/runtime.py:860-884 | the merged join entry and the node after the join, or the failure, are those of the machine's join |
| Interpreter.ExecuteRun | app/worker/runtime.py:348-422 | an attempt is a run of the machine, without results, iteration, visits and account, from the node that the run row names or else the entry, on the rows it finds; the run row records its end: COMPLETED also after an abort, FAILED with step and cause, still RUNNING where it stood after any other exception; its writes into the row are the operations of one executor of `Ownership` |
| Interpreter.EveryInterleavingEndsAlike | app/worker/runtime.py:839-842 | where one order of the branches ends without failure, every interleaving that ends, ends in the same state |
| Interpreter.NodeSteps | app/worker/runtime.py:920-940 | claiming and executing a node in two machine steps equals the replay of a completed row or a fresh execution |
| Moves.MoveIsLocal | app/worker/runtime.py:764-884 | in every state of every run a move at any depth of forks and fan-outs is the move that one chain makes on its own, put back in its place; every other chain stays as it is |
| Moves.RaisedBranchMoves | app/worker/runtime.py:839-858 | an exception of a branch other than an abort takes the place of the fork around it, and nothing is written |
| Moves.HeadMoves | app/worker/runtime.py:575-598 | at its loop head every chain is over at its end, stops for a raised flag before anything else, fails at an unknown node, stops before a join if it is a branch, fails without budget, and otherwise counts and pays for the visit, and a top-level chain writes the node into the run row |
| Moves.ForkJoins | app/worker/runtime.py:860-884 | every fork at rest passes on an abort, fails unless all branches stopped before one node and each has a result, and otherwise gives that node each label with the last output of its branch, as one JSON text, and goes on along its "next" edge |
| Inputs.WiredAsGiven | app/worker/runtime.py:149-175 | each wired port is given the literal, the environment variable, the flow variable or the output port that it names, null for a port that the output lacks; a path finds the value it leads to in the JSON text held there, with containers as JSON text again, and nothing if it leads nowhere |
| Inputs.ExecutesOnWhatIsGiven | app/worker/runtime.py:902-994 | in every state of every run a node that executes is given exactly that from the results of its own chain, with the account of the chain and the number of earlier visits; the first declared port that cannot be read ends the step, and otherwise the outcome of `execute` is committed under the step's row |
| Routes.StepsAreClaimed | app/worker/runtime.py:913-939 | in every state of every run a step of an unknown type fails, a completed row is taken as the output, and otherwise the row is there and the node executes |
| Routes.OutputsAreFollowed | app/worker/runtime.py:646-697 | in every state of every run a committed output leads where it says: to a stop or a goto if it meets the node's stop condition, into a branch for each edge if it asks for a fork, into its items if it lists any, and else along the edge named under `__edge__`, or "next" without such a text |
| LabelledWalks.RunsFollowTheirLabels | app/worker/runtime.py:646-698 | in every run from the entry that does not fork, fan out, stop or fail, the nodes visited are those of the walk along the edges that their outputs name |
| LabelledWalks.CompiledFlowsFollowTheirLabels | app/worker/runtime.py:178-180 | in a compiled flow they are the names of the nested walk through the template calls along the same edges |
| Items.RoundsTakeTheItems | app/worker/runtime.py:732-761 | in every run of any graph a fan-out takes the items its output lists, one after the other; whenever its body is entered, the fan-out's result is its output with the item of the round at the port, and the body acts for the account that the item names if the port is `account_id` |
| Items.RoundsNodesGetTheItem | app/worker/runtime.py:742-743 | on a graph without loops every node that executes in a round, at any depth of forks and fan-outs inside it, and is wired to the item port, executes on the item of that round, or on what its path finds in it |
| Confluence.KeysDiffer | app/worker/runtime.py:816-816 | two branches of a fork with colon-free labels never touch the same step row |
| Confluence.ActSeparate | app/worker/runtime.py:797-837 | every move keeps the branches of every fork in disjoint key spaces |
| Confluence.MovesCommute | app/worker/runtime.py:797-837 | moves of two different threads commute, as long as no branch fails or aborts |
| Confluence.Diamond | app/worker/runtime.py:797-842 | two steps in either order lead to the same state of threads, rows, budget and flag |
| Confluence.BudgetLeft | app/worker/runtime.py:584-586 | a move under a larger budget is the same move |
| Schedules.MoveFirst | app/worker/runtime.py:839-842 | any step that is possible now can be brought to the front of a clean run without changing its end |
| Schedules.EveryScheduleConverges | app/worker/runtime.py:839-842 | any other schedule of a clean run is on its way to the same state |
| Schedules.CompleteRunsAgree | app/worker/runtime.py:839-842 | two complete clean runs have the same length and the same end |
| Schedules.BranchProjection | app/worker/runtime.py:806-837 | among its siblings a branch does exactly what it does alone |
| Schedules.BranchAtRest | app/worker/runtime.py:806-842 | in a fork at rest, however its branches were interleaved, each branch has ended exactly as it ends alone |
| Schedules.ForkIsScheduleIndependent | app/worker/runtime.py:764-884 | whatever the interleaving, the result map gains exactly the join entry, which gives each label the last output of its own branch run alone, and the walk goes on behind the join |
| Budget.VisitsWithinBudget | app/worker/runtime.py:584-586 | no run of any graph with any nodes, gotos and loops included, visits more nodes than the budget |
| Budget.MoveDecreases | app/worker/runtime.py:575-698 | every move decreases one natural number, in any interleaving |
| Budget.SomeoneCanMove | app/worker/runtime.py:839-842 | as long as the run has not ended, some thread can move |
| Budget.EveryAttemptStops | app/worker/runtime.py:570-586 | under every scheduler an attempt reaches its end after boundedly many moves |
| SafeWalk.LookupsNeverFail | app/worker/runtime.py:578-580 | on a closed graph no chain of any run stands before a node that does not exist |
| SafeWalk.NoNodeTwice | app/worker/runtime.py:595-596 | on a ranked graph no chain of any run enters a node twice, across fan-outs, forks and joins |
| CompiledFlows.CompiledFlowIsSafeToWalk | app/domain/flow_engine/compiler.py:50-110 | every run of a graph the compiler returns only looks up existing nodes and, without gotos and self-loops, enters none twice |
| CompiledFlows.CompiledFlowResumes | app/worker/runtime.py:381-422 | a compiled flow without gotos, self-loops and colons in labels ends, after every history of crashes that loses no read, as it does without them |
| CompiledFlows.CompiledFlowSurvivesExactly | app/worker/runtime.py:164-173 | its attempts complete if and only if the crash-free run does and the attempt loses no read |
| AbortDrain.AbortDrainsTheRun | app/worker/runtime.py:806-864 | from the move that raises the flag on: no node is entered at any depth, every entered node commits, and without nested forks the run can only end by the abort |
| AbortDrain.AbortAdmitsNothing | app/worker/runtime.py:576-577 | once the flag is up the rest of the run visits no node, in any branch at any depth |
| AbortDrain.EnteredNodesCommit | app/worker/runtime.py:806-811 | every node entered at any moment has committed its step when a run without failures ends |
| AbortDrain.AbortedRunEndsInAbort | app/worker/runtime.py:860-864 | with no fork inside a fork, an abort reaches the top whatever the interleaving |
| AbortDrain.AbortCompletesUnlessBadJoin | app/worker/runtime.py:860-884 | however forks nest, a stopped run in which no node fails ends by the abort if and only if it never joins a fork at rest that has no abort of its own and whose branches do not meet at one existing join, each with a result |
| AbortDrain.NestedForkFailsTheRun | app/worker/runtime.py:866-870 | an inner fork whose two branches stand before different nodes when the flag is raised fails the run |
| Scenarios.StopFailsTheRun | app/worker/runtime.py:866-870 | a flow of two nested forks that gets there from its entry: a node asks for the stop, no node fails, and the run ends FAILED |
| ForkFailures.ForkFailsAsItsBranches | app/worker/runtime.py:838-858 | moves of the branches of any fork can end it in a failure if and only if one branch alone can end in that failure, without a stop and within the budget: one failing branch leaves the schedule no choice, of several any may win |
| ForkFailures.BranchOnItsWay | app/worker/runtime.py:806-837 | as long as the fork is on its way, each branch has done what it does alone, even if others have failed |
| Scenarios.ScheduleDecidesTheFailure | app/worker/runtime.py:839-858 | two interleavings of one flow, without any crash, end with different failing steps |
| Resume.CrashesLeaveNoTrace | app/worker/runtime.py:381-422 | whatever the crashes between any two store operations, as long as no node executes without a result that only an earlier attempt had, an attempt that ends, ends as the run that never crashed (by itself, by a stop or by the same failure) and leaves exactly its step table; its rows are part of that table at every moment before |
| Survival.SurvivesExactly | app/worker/runtime.py:164-173 | after any crashes, and whatever reads earlier attempts lost, an attempt completes if and only if the crash-free run does and no node of the attempt executes while a port is wired to a result that an earlier attempt had and its walk lacks; and then it leaves the crash-free table |
| Survival.RowsAreAlwaysPart | app/worker/runtime.py:902-994 | whatever the crashes and the lost reads, at every moment the rows are a part of the crash-free table |
| LostReads.MissingResultFailsTheRun | app/worker/runtime.py:164-173 | in any attempt, at any depth and under any schedule, a node that executes while one of its ports is wired to a result the walk does not have fails the run |
| LostReads.NoRefBackLosesNone | app/worker/runtime.py:385-386 | if at every crash no node at or behind the resume node refers to a node that had a result, no read is lost |
| CutPoints.CrashesAtCutPointsLeaveNoTrace | app/worker/runtime.py:381-422 | a sufficient condition on the graph: if the run row names a cut point whenever an executor dies, every attempt that ends, ends as the crash-free run and leaves its step table |
| CutPoints.CutPointsSuffice | app/worker/runtime.py:381-386 | when the run row names a cut point, nothing at or behind it refers to a node the walk has a result of, since all of those lie before it or in the body of a fan-out before it |
| CrashScenarios.CrashFailsTheRun | app/worker/runtime.py:385-386 | a flow that completes without a crash and fails when an executor dies before its second node |
| CrashScenarios.CommittedReadIsSurvived | app/worker/runtime.py:931-936 | the same flow completes, with the same table, when the executor dies after the commit of its second node, whose reference still reaches back |
| CrashScenarios.BodyResultIsLost | app/worker/runtime.py:713-761 | the same for a flow whose references all stay behind the resume point, but meet the result of a fan-out body |
| Resume.LifeIsGuided | app/worker/runtime.py:348-404 | through every history of moves and crashes the attempt stays beside a point of the crash-free run |
| Resume.Follow | app/worker/runtime.py:931-940 | each move of a resumed attempt is matched by no, one or two moves of the crash-free run, or raises its exception |
| Following.FollowHit | app/worker/runtime.py:931-936 | finding a step completed leads where claiming and executing it leads |
| Mirror.AlikeMoves | app/worker/runtime.py:902-940 | two walks that differ only in results nobody reads make the same moves |
| Raises.RaiseAlike | app/worker/runtime.py:701-710 | the point at which one of two such walks stops or fails is the point at which the other does the same |
| Rows.StepOwned | app/worker/runtime.py:931-940 | a thread executing a node owns that node's row, which is not completed |
| Rows.RunGrows | app/domain/flow_engine/repo.py:528-592 | in a run of one executor no completed row ever changes and no row disappears |
| Compiler.ExpandComposites | app/domain/flow_engine/compiler.py:180-269 | expansion succeeds exactly if the nested program resolves and flattens, and returns its flat form, whose nodes `CompiledForm.FlatFields` describes |
| Compiler.InlineNodes | app/domain/flow_engine/compiler.py:226-258 | the loop over a template's nodes splices in every node or finds an unwired parameter |
| Compiler.CollectIds | app/domain/flow_engine/compiler.py:59-63 | filling the id table finds a duplicate exactly if there is one |
| Compiler.CompileNodes | app/domain/flow_engine/compiler.py:68-100 | every node compiles, or the loop stops at the first one that does not |
| Compiler.CompileBatch | app/domain/flow_engine/compiler.py:283-338 | the children of a batch compile exactly if they are few enough, have distinct ids, no edges, batchable types and inputs that compile; they are namespaced leaves |
| Compiler.CompileFlow | app/domain/flow_engine/compiler.py:50-110 | a flow compiles exactly if its expansion has distinct ids, an existing entry, compilable nodes and no cycle; a success leaves heights that all links go down from, and the graph that `CompiledForm.EveryPlaceIsCompiled` describes |
| Compiler.CompiledGraphIsClosed | app/domain/flow_engine/compiler.py:80-86 | in a compiled graph the entry and every edge and goto target exist |
| Compiler.CompiledGraphIsRanked | app/domain/flow_engine/compiler.py:370-395 | without gotos, self-loops and a node `vars`, the cycle check ranks the graph the interpreter walks |
| Compiler.CompilingPreservesWalks | app/domain/flow_engine/compiler.py:180-269 | a compiled flow walks, for every choice of labels, as its nested calls do |
| Compiler.CompilingPreservesWiring | app/domain/flow_engine/compiler.py:125-177 | every input of a compiled flow names the node and port that the nested input reads |
| CompiledForm.EveryPlaceIsCompiled | app/domain/flow_engine/compiler.py:68-100 | for every place of the nested calls the compiled graph holds a node with the type and account written there, with stop condition, timeout and children at the top level and without them inside a call, whose edges and error edge lead where the nested ones lead, and whose inputs deliver what the nested inputs read, at the path that was written |
| CompiledForm.EveryNodeIsOfAPlace | app/domain/flow_engine/compiler.py:195-269 | and it holds no other node |
| CompiledForm.FlatFields | app/domain/flow_engine/compiler.py:162-177 | the flat node of a place keeps type and account; its error edge is that of the plain node, or at an exit that of the call |
| CompiledForm.NodesAreCompiled | app/domain/flow_engine/compiler.py:341-359 | a compiled node carries what was written: literals, environment names, flow variables, references with the segments that their path spells, and batch leaves under the container's name |
| Parameters.ExpandsExactly | app/domain/flow_engine/compiler.py:138-145 | a nested flow expands if and only if every call wires each parameter that its template's nodes read or pass on |
| CompileChecks.ResolvedStands | app/domain/flow_engine/compiler.py:113-221 | resolution gives the nested program that the node list stands for, and fails exactly if there is none: an unreadable or unknown template id, a template inside itself, or more than ten levels |
| CompileChecks.CompilesExactly | app/domain/flow_engine/compiler.py:59-102 | a flat graph compiles if and only if its ids are distinct, its entry exists, every node has a known type with its required inputs and readable references to existing nodes, all targets exist, batches fit, and no way along edges and error edges is a loop |
| CompileChecks.CyclesAreLoops | app/domain/flow_engine/compiler.py:370-395 | the graph that is searched for cycles has one exactly if the flow has a loop of edges and error edges, links to oneself and to `vars` aside |
| Inlining.InliningPreservesWalks | app/domain/flow_engine/compiler.py:226-269 | the flat walk from the redirected entry is the namespaced walk of calling each template and following the caller's edges at its exits, at any depth |
| Inlining.FlatNodeOf | app/domain/flow_engine/compiler.py:226-269 | every place of the nested calls has its flat node, whose edges take the steps of the nested walk |
| Inlining.CallToCallIsRejected | app/domain/flow_engine/compiler.py:229-237 | an edge from a call to a call keeps the id of a call that is gone and is rejected |
| Inlining.SharedIdHidesPlainNode | app/domain/flow_engine/compiler.py:59-63 | a plain node that shares its id with a call is in the flat graph, and the edges to it lead into the call |
| CompileScenarios.SharedIdCompiles | app/domain/flow_engine/compiler.py:50-110 | a flow with such an id expands and compiles, with the plain node in it and its edge leading into the call |
| Wiring.InliningPreservesWiring | app/domain/flow_engine/compiler.py:125-177 | parameters read what the caller wired in the caller's scope, declared outputs read the inner port behind them, and references read siblings, at any depth |
| References.ParsePrinted | app/domain/flow_engine/compiler.py:37-37 | reading the printed form of a reference gives its node id, port and path back |
| References.PatternIsExact | app/domain/flow_engine/compiler.py:37-37 | the pattern accepts a text exactly if it is a printed reference, with or without one newline behind it, and takes it apart into that reference |
| References.PathIsReadBack | app/domain/flow_engine/compiler.py:341-359 | the path of a printed reference parses to its segments |
| References.RewritingText | app/domain/flow_engine/compiler.py:125-136 | moving the text of any reference into the caller's name space and reading it is reading it and renaming the node |
| References.RedirectingText | app/domain/flow_engine/compiler.py:148-159 | redirecting the text of any reference through the table of declared outputs and reading it is reading it and replacing node and port |
| Wiring.CallOutputAsParamIsRejected | app/domain/flow_engine/compiler.py:267-267 | only plain siblings have outputs redirected: a parameter wired to another call's output is rejected |
| CycleCheck.Search.Visit | app/domain/flow_engine/compiler.py:383-392 | a visit either blackens the node and everything behind it or has found a cycle, and always terminates |
| CycleCheck.Search.Acyclic | app/domain/flow_engine/compiler.py:394-395 | the search succeeds if and only if there is no cycle of edges and error links, self-loops and `vars` aside |
| CycleCheck.NoCycleFromHeights | app/domain/flow_engine/compiler.py:370-395 | heights that every link goes down from leave no room for a cycle |
| CycleCheck.BackEdge | app/domain/flow_engine/compiler.py:386-387 | meeting a grey node exhibits a cycle on the stack |
| TokenPool.NoUseAfterClose | app/domain/account/pool.py:142-152 | in every interleaving an entry's count is the number of tasks inside it, and neither a task inside nor the cache holds a closed entry |
| TokenPool.RetiredEntriesCloseOnce | app/domain/account/pool.py:146-167 | an entry is closed at most once, only when retired and without leases; one that is retired without leases is closed or has exactly one task about to close it |
| TokenPool.RetiredForGood | app/domain/account/pool.py:154-167 | a retired entry is never cached again and takes no new lease, and a close is final |
| TokenPool.StepKeepsInv | app/domain/account/pool.py:197-211 | every lock-guarded step keeps counts, cache and pending closes in agreement |
| TenantPools.Pool.LeaseOrMiss | app/domain/account/pool.py:205-211 | a cached entry is counted in the same step that reads it |
| TenantPools.Pool.Publish | app/domain/account/pool.py:207-211 | a built entry is cached and leased in one step |
| TenantPools.Pool.Leave | app/domain/account/pool.py:147-152 | leaving uncounts; the caller must close exactly if it was the last one in a retired entry, and then nobody is inside |
| TenantPools.Pool.Invalidate | app/domain/account/pool.py:159-167 | the entry leaves the cache retired, and is the caller's to close exactly if nobody holds it |
| TenantPools.Pool.CloseEntry | app/domain/account/pool.py:70-84 | whenever an entry is closed it is the first time, it is retired, nobody is inside and the cache does not know it |
| RateLimit.Middleware.Call | app/bot/middleware/rate_limit.py:54-73 | every event is decided as the full history decides it: dropped, throttled or handled, and handled events are recorded |
| RateLimit.Middleware.Admit | app/bot/middleware/rate_limit.py:75-103 | an event is dropped exactly if its user has no live hit and the live users fill the table; otherwise the deque holds exactly the live hits |
| RateLimit.Middleware.EvictExpired | app/bot/middleware/rate_limit.py:105-110 | the sweep leaves exactly the users with a live hit in the full history |
| RateLimit.Middleware.DropExpired | app/bot/middleware/rate_limit.py:81-89 | popping from the front leaves exactly the live hits, and an empty deque leaves the table |
| RateLimit.WindowIsBounded | app/bot/middleware/rate_limit.py:68-72 | no closed interval of the window's length holds more than max_events handled events of one user |
| RateLimit.LiveLater | app/bot/middleware/rate_limit.py:83-84 | dropping expired hits never changes a later count |
| Replay.Buffer.Push | app/domain/flow_engine/events.py:139-139 | a push keeps the buffer the newest part of the history |
| Replay.Buffer.Trim | app/domain/flow_engine/events.py:140-140 | a trim cuts off nothing a reader is owed |
| Replay.Buffer.Replay | app/domain/flow_engine/events.py:154-168 | at any moment between the publishers' steps a reader is sent what the full history owes it |
| Replay.StoredServesOwed | app/domain/flow_engine/events.py:139-168 | after any interleaving of any publishers' pushes and trims the stored list serves what the full history owes |
| Replay.ReconnectResumes | app/domain/flow_engine/events.py:133-168 | a reader that reconnects with the id of its last event, while publishers go on, gets every event once and in order, apart from exactly those that have left the buffer in between |

## Left out

- Resume.CrashesLeaveNoTrace: leaves out runs that end by an exception from inside a fork whose branches are still on
  their way, because siblings are then cut off or drained at a point that depends on the schedule, with or without
  crashes.
- CutPoints.CrashesAtCutPointsLeaveNoTrace: leaves out the same runs; `Scenarios.ScheduleDecidesTheFailure` shows that
  they have no one end to agree with.
- CompiledFlows.CompiledFlowResumes: leaves out the same runs.
- Survival.SurvivesExactly: assumes that references are wired to ports their reader's type declares, because those
  are read before it executes; it leaves out the same runs.
- CompiledFlows.CompiledFlowSurvivesExactly: leaves out the same.
- Retries of a run that has been marked FAILED, which start at the failing step.
- Interpreter.ExecuteRun: models an executor that nobody races; races on the run row are in `Ownership`, and step
  claims of two executors at once are not modelled.
- AbortDrain.AbortedRunEndsInAbort: assumes that no fork runs inside another, because nested forks break it.
- Inlining.InliningPreservesWalks: assumes ids without colons and no id used twice in one node list, because a plain
  node and a call may share an id unnoticed.
- CompiledForm.EveryPlaceIsCompiled: assumes the same, error targets without colons, and no node called `vars`.
- CompiledForm.EveryNodeIsOfAPlace: assumes the same.
- LabelledWalks.RunsFollowTheirLabels: leaves out runs that fork, fan out, stop or fail; where a single output leads is
  said of every run by `Routes.OutputsAreFollowed`.
- LabelledWalks.CompiledFlowsFollowTheirLabels: leaves out the same runs.
- Items.RoundsNodesGetTheItem: assumes a graph whose edges go down, because a body that leads back to its own fan-out
  node overwrites the item.
- IterationKeys.KeysAreInjective: assumes plain items and labels, because other items do collide.
- Stores.RunStore.Claim: follows the database, which also sets the status; the in-memory store of the dry run only
  counts the version up.
- Stores.StepStore.CompleteStep: follows the database update, which changes nothing without a row; the in-memory store
  raises there.
- `create_if_absent`: one insert under a unique constraint.
- `claim_step` and the `get_step` after a lost claim are one step of the machine; no other step writes that row in
  between.
- A completed step row without a result, which no modelled operation produces.
- Step timeouts, the testnet market swap, a missing flow graph and a missing run: single branches around the walk.
- Traces, run events, task events and logging, which never affect a run.
- The texts of error messages, and which of several failing branches a task group reports first.
- Dictionary order: edges, inputs and JSON objects are maps, so the order of keys in encoded JSON is the serialiser's.
- The texts `{{vars.name}}` and `{{param.name}}`: a literal comes already told apart by them.
- Template outputs whose `output_port` is not of the documented form `node.port`.
- The execution of batch children by the batch node, and floating-point JSON numbers beyond real arithmetic.
- Python's limit on the length of digit strings that `int` reads, and its recursion limit, at which the cycle search
  (one call a node) rejects a very long acyclic chain with an exception that is no CompileError.
- Type errors of the decoder on malformed rows, which appear as one failure.
- Real locks, clocks and cancellation in the token pool; the model lets builds of one tenant overlap, which the lock
  prevents.
- Live events after the replay, buffer expiry, and errors of Redis while publishing.
- SQL, the queue, the bot framework and the marketplace client: each store call is one atomic operation with its
  conflict rule.
