# UbixOS build tools: a verified model

This project models the parts of the UbixOS tree whose behaviour is hardest to see from the code:
bmake, the make that UbixOS ships and builds itself with (`contrib/bmake-20240212`), and two small
native tools. Every claim below is a theorem about all inputs, all runs or all reachable states.

| files | what they model | main results |
|---|---|---|
| `BuildGraph`, `BuildRules`, `BuildOrder`, `ScheduleState`, `ScheduleSteps`, `ScanTrace`, `Scheduler`, `WaitEdges` | the parallel build: queue, counted dependencies, `::` cohorts, `.ORDER`, `.WAIT`, sequence number | one invariant kept by every step; the build ends on every graph; what it makes is the least solution of three rules on the graph, whatever the order of the jobs, and that is what can be numbered in order; a `.WAIT` is done only after everything before it, and a node is started only after a scan that no `.WAIT` before it held up |
| `JobTokens` | the job-token protocol between many makes | tokens are conserved; never more than N jobs while nobody aborts, and after that never more than N besides those that exited makes left running; abort tokens persist |
| `CompatState`, `Compat` | the compat-mode build, a depth-first walk that marks shared nodes | ends on every graph; exactly which nodes are given up; cycles are reported exactly when there are some; what -k, -q and -t do to every node |
| `Conditionals`, `Guards`, `MakefileReader` | `.if`/`.for` reading as a stream, and the include-guard optimisation | the stream reader has the meaning of the nested tree; exactly which files are recognised as guarded, and when leaving one out equals reading it |
| `CondExpr`, `CondParser` | the recursive-descent evaluator for conditions | it accepts exactly the grammar and evaluates exactly what short-circuit evaluation does; the grammar is unambiguous |
| `Glob` | `Str_Match` with its two shortcuts | same answer as the plain recursive definition |
| `Braces`, `DirExpand` | csh-style brace expansion | in-order words of the brace tree, or nothing if a brace is not closed |
| `Output`, `JobOutput` | line buffering of a child's output | nothing is added, and exactly which newlines are lost, however the output is split into reads |
| `HashTable`, `HashIteration` | the growing hash table, its iterator, and purging while iterating | refines a finite map; every entry is visited once; purging leaves exactly the absolute paths |
| `Format` | the UbixFS image formatter | from the image alone, a file is read back as far as it got blocks, and exactly which lists of files fit; chains are disjoint |
| `Division` | 64-bit division on a 32-bit machine | quotient and remainder, with no bit lost in the shifts |

Code that changes state step by step is a class with that state; each method is tied to a value
(`Now()`, `Contents()`) or to a function of the old state, and the theorems are lemmas about these.
What the model cannot see (exit statuses, whether a file is out of date, values of variables, sizes
of reads, the order in which jobs end, addresses from the allocator) is a parameter or an arbitrary
choice, so that the theorems hold for all of it.

Places where the code does something other than one might expect, each with its exact condition:

- `.ORDER: o a` together with `a: o` leaves `a` unmade although there is no cycle:
  `OrderThroughItself`, `OrderedSourceIsNeverBuilt`. With `.ORDER`, everything is made just when
  there are numberings of "looked at" and "made" that follow the edges: `AllMadeExactly`.
- A build that aborts may run more than N jobs at once, because a make that reads an abort token
  exits without waiting for its jobs: `OneJobTooMany`, and the bound that remains, `JobLimit`.
- Compat mode gives a target up if one of its dependencies failed, or was given up *after* the
  target was entered. A dependency that had been given up before is ignored, and the target's
  commands are run (`GivenUpIsIgnored`);
  `InvOutcome` and `CompatMakeAll` state the exact condition.
- The include-guard optimisation changes the meaning of some files with `.for` bodies that are not
  balanced in their conditionals: `UnbalancedLoopIsNotSkipped`, and exactly which, `SkippingIsReading`.
- A line of output that fills the buffer exactly loses its newline: `LineEndIsLost`, and exactly when,
  `ReadKeepsLines`; exactly which newlines are missing, `OutputExactly`.
- A file that the formatter finds no room for is cut short on the image without a word, because the
  rest goes to the directory's first block: `FileReads`, and exactly when, `ReadBackExactly`.
- A signed quotient is right except for the one that does not fit: `Division.DivMod`.

## Model

| member | source | states |
|---|---|---|
| BuildGraph.MissingZero | contrib/bmake-20240212/make.c:750-760 | a counter of missing entries is zero just when every entry of the list is in the set |
| BuildGraph.MissingAdd | contrib/bmake-20240212/make.c:696-706 | finishing one more node lowers the number of missing entries by its multiplicity in the list |
| BuildGraph.NothingMissing | contrib/bmake-20240212/make.c:1055-1068 | no child edge is missing just when all children with all their `::` instances are done |
| BuildRules.LeastIsClosed | contrib/bmake-20240212/make.c:951-1099 | the nodes that every solution of the scheduling rules contains are themselves a solution, so the least one |
| BuildRules.WaitOnlyDelays | contrib/bmake-20240212/make.c:951-1007 | a `.WAIT` can only shrink what the rules reach, and changes nothing in a graph without `.WAIT` |
| BuildRules.AcyclicBuildsMain | contrib/bmake-20240212/make.c:1469-1472 | without cycles, failures and effective `.ORDER` edges the rules reach the root |
| BuildRules.OrderThroughItself | contrib/bmake-20240212/make.c:612-629 | a target whose `.ORDER` predecessor can be reached only through the target is never made |
| BuildRules.OrderedSourceIsWellFormed | contrib/bmake-20240212/make.c:612-629 | the three-node example of this is a proper, acyclic graph |
| BuildRules.OrderedSourceIsNeverBuilt | contrib/bmake-20240212/make.c:612-629 | its target is in no build, whatever the jobs do |
| BuildOrder.MadeIsForced | contrib/bmake-20240212/make.c:951-1099 | what is numbered as made, after its children and `.ORDER` predecessors and after it was looked at, is in every solution of the rules |
| BuildOrder.LookedIsForced | contrib/bmake-20240212/make.c:951-1007 | so is what is numbered as looked at, after a parent and that parent's `.ORDER` predecessors |
| BuildOrder.NumberAll | contrib/bmake-20240212/make.c:951-1099 | there are numberings of exactly the nodes that the rules reach and make |
| BuildOrder.NumberedExactly | contrib/bmake-20240212/make.c:951-1099 | the rules look at a node, or make it, if and only if some numbering in order contains it |
| BuildOrder.AllMadeExactly | contrib/bmake-20240212/make.c:612-629 | everything looked at is made if and only if all that the root depends on can be numbered in order, `.ORDER` included |
| ScheduleState.ScheduleStep | contrib/bmake-20240212/make.c:951-996 | moving a node that is not ready to REQUESTED or DEFERRED as `.ORDER` demands keeps the queue, the node, the history and the reachability invariants |
| ScheduleState.StartStep | contrib/bmake-20240212/make.c:1070-1077 | starting a node without missing children keeps them, so nothing starts before what it depends on |
| ScheduleState.FinishStep | contrib/bmake-20240212/job.c:1218-1234 | finishing a started node keeps them, and a finished node is one that the rules make |
| ScheduleSteps.StartedStep | contrib/bmake-20240212/make.c:1070-1077 | starting the head of the queue keeps the invariant and shrinks the set of nodes not yet started |
| ScheduleSteps.FinishedStep | contrib/bmake-20240212/job.c:1218-1234 | before the parents are told, the counters are those of the state without the finished node |
| ScheduleSteps.StateOfNode | contrib/bmake-20240212/make.h:223-259 | in every reachable state: REQUESTED just when on the queue, once; past it only with all children done; `.ORDER` predecessors done before REQUESTED; counters equal the missing edges |
| ScheduleSteps.StartedInOrder | contrib/bmake-20240212/make.c:1070-1077 | in every run a node is started at most once, after all its children with their instances and its `.ORDER` predecessors have finished |
| ScheduleSteps.ExhaustedIsClosed | contrib/bmake-20240212/make.c:1469-1472 | with an empty queue and no job, no scheduling rule is left to apply: no node is forgotten |
| ScheduleSteps.ExhaustedOutcome | contrib/bmake-20240212/make.c:1425-1490 | what is then made lies between the least solutions with and without `.WAIT`, and is the least solution if there is no `.WAIT` |
| ScheduleSteps.AcyclicOutcome | contrib/bmake-20240212/make.c:1425-1490 | on an acyclic graph of plain dependencies with successful jobs the root and all its children are MADE or UPTODATE |
| ScheduleSteps.OrderedOutcome | contrib/bmake-20240212/make.c:1425-1490 | without `.WAIT` a build ends with just the nodes made that can be numbered in order, and with all that it looked at just when everything the root depends on can |
| ScheduleSteps.OutcomeIsUnique | contrib/bmake-20240212/make.c:1425-1490 | two builds of one graph make the same nodes, whatever the order of the jobs |
| Scheduler.Build.IsWaitingForOrder | contrib/bmake-20240212/make.c:612-629 | true just when some `.ORDER` predecessor that is to be remade is not done |
| Scheduler.Build.Request | contrib/bmake-20240212/make.c:929-996 | the node is on the queue once and REQUESTED, before the given entry or at a random place |
| Scheduler.Build.MakeBuildChild | contrib/bmake-20240212/make.c:951-996 | the node is looked at with its `::` instances, and nothing else changes; it is DEFERRED only if `.ORDER` holds it back; the caller is told to stop just when it is a `.WAIT` that was not yet queued, is past `.ORDER` and has unmade children |
| Scheduler.Build.MakeBuildCohorts | contrib/bmake-20240212/make.c:983-989 | all `::` instances of a requested node have been looked at, and nothing else has |
| Scheduler.Build.MakeChildren | contrib/bmake-20240212/make.c:998-1007 | the children are looked at up to the first `.WAIT` that holds up the others, judged by the state before, and no further; they are queued before the rest of the queue |
| Scheduler.Build.ScheduleOrderSuccessors | contrib/bmake-20240212/make.c:633-646 | afterwards no `.ORDER` successor is DEFERRED without a reason; only successors and instances are looked at; `doneOrder` is set for those that were deferred |
| Scheduler.Build.MakeUpdate | contrib/bmake-20240212/make.c:668-808 | turns the invariant as of before the node was done into the invariant as of after it; counters are exact and no wakeup is lost |
| Scheduler.Build.CountInstance | contrib/bmake-20240212/make.c:692-707 | the cohort counter of the first instance is exact; its two internal errors cannot occur |
| Scheduler.Build.NotifyParents | contrib/bmake-20240212/make.c:712-805 | each parent is counted down once per edge, and is on the queue again if that was due |
| Scheduler.Build.NotifyParent | contrib/bmake-20240212/make.c:713-805 | one parent: counted down just when the child with all its instances is done, never below zero, and queued again, at the end, just when that was the last child, a `.WAIT`, or one held back by `.ORDER` |
| Scheduler.Build.TellParent | contrib/bmake-20240212/make.c:712-805 | one round of the loop over the parents: one more of them has been told |
| Scheduler.Build.constructor | contrib/bmake-20240212/make.c:1340-1403 | the state after the root node was scheduled satisfies the invariant |
| Scheduler.Build.Examine | contrib/bmake-20240212/make.c:1031-1092 | taking the first node off the queue keeps the invariant, the trace of scans and the count of tokens, and makes progress in the lexicographic measure; the internal error cannot occur |
| Scheduler.Build.ScanNode | contrib/bmake-20240212/make.c:1055-1068 | a node with unmade children is deferred and its list scanned; the scan is recorded with the state it found |
| Scheduler.Build.UpdateFinished | contrib/bmake-20240212/make.c:1078-1091 | a node that was just done is entered into the history, and its neighbours are told |
| Scheduler.Build.StartNode | contrib/bmake-20240212/make.c:1070-1092 | whatever becomes of the node, the invariant holds again, and its token is kept, given back or left to the job |
| Scheduler.Build.JobFinish | contrib/bmake-20240212/job.c:1161-1246 | a job that ends, well or not, keeps the invariant and gives its token back |
| Scheduler.Build.TokenWithdraw | contrib/bmake-20240212/job.c:2853-2901 | a make never has more tokens than it may have jobs, and gets one if it has none |
| Scheduler.Build.MakeStartJobs | contrib/bmake-20240212/make.c:1016-1099 | ends on every graph; every running job has a token of its own, so there are never more than -j allows; an idle make empties the queue or starts something |
| Scheduler.Build.MakeRun | contrib/bmake-20240212/make.c:1469-1472 | the main loop ends on every graph with nothing queued or running and with exactly the outcome of the rules, and every node looked at or started was found by a recorded scan |
| ScheduleSteps.HeldUpBefore | contrib/bmake-20240212/make.c:951-1007 | whether a `.WAIT` holds up the rest of a list is not changed by looking at what stands before it |
| ScanTrace.TraceScan | contrib/bmake-20240212/make.c:998-1007 | recording a scan accounts for every node that it looked at |
| ScanTrace.NotLookedAt | contrib/bmake-20240212/make.c:991-995 | in every state of a build, a node that each scan so far found behind a `.WAIT` that held it up is untouched with all its instances, and not started |
| ScanTrace.StartedAfterScan | contrib/bmake-20240212/make.c:991-1007 | in every run a node is started only after a scan that got to it, at which, for every `.WAIT` before it, all that the `.WAIT` depends on had finished, or the `.WAIT` was queued already, or `.ORDER` held it back |
| WaitEdges.WaitIsAfterSiblings | contrib/bmake-20240212/make.c:1336-1403 | in every reachable state of a build of the graph that the preprocessing leaves, a `.WAIT` that is done has all its earlier siblings, with their instances, done |
| WaitEdges.EdgeAdded | contrib/bmake-20240212/make.c:1333-1335 | an added edge, recorded at both its ends, leaves a proper graph |
| WaitEdges.WaitProcessor.constructor | contrib/bmake-20240212/make.c:1373-1375 | nothing is dealt with yet |
| WaitEdges.WaitProcessor.AddChild | contrib/bmake-20240212/make.c:1333-1335 | the graph with exactly one more edge is proper |
| WaitEdges.WaitProcessor.AddWaitDependency | contrib/bmake-20240212/make.c:1319-1337 | the list of the `.WAIT` grows by exactly what stands between it and the one before it, and no other list changes |
| WaitEdges.WaitProcessor.ExamineChildren | contrib/bmake-20240212/make.c:1390-1399 | every list of the graph grows by exactly the links due for this list, and the other children are to be examined |
| WaitEdges.WaitProcessor.ProcessWait | contrib/bmake-20240212/make.c:1373-1402 | every node that the root reaches is dealt with and its `.WAIT` nodes linked, in a proper graph, by edges to siblings since the previous `.WAIT` alone; the loop ends on every graph, cyclic or not |
| WaitEdges.ListsAreGrown | contrib/bmake-20240212/make.c:1390-1399 | growing by the links due means that all `.WAIT` nodes of the list are linked and that each new edge is one of those |
| WaitEdges.AcyclicExactly | contrib/bmake-20240212/make.c:1373-1402 | the graph that is left has a numbering just when that numbering fits the graph before and puts every `.WAIT` above its earlier siblings |
| WaitEdges.OnlyWalkedAreNeeded | contrib/bmake-20240212/make.c:1373-1402 | a build looks only at nodes that were dealt with |
| JobTokens.StepInv | contrib/bmake-20240212/job.c:2766-2901 | every step of every process, an exit that leaves jobs running included, keeps the accounts, the tree of processes, the number of tokens and the abort tokens |
| JobTokens.RunInv | contrib/bmake-20240212/job.c:2798-2831 | so does every interleaving, from the state that the root make sets up |
| JobTokens.TokensAreConserved | contrib/bmake-20240212/job.c:2766-2901 | while nobody aborts, tokens in the pipe, in flight and withdrawn add up to N-1 |
| JobTokens.JobLimit | contrib/bmake-20240212/job.c:2766-2901 | over all makes at most N jobs run at once, not counting those that exited makes left running; while nobody aborts there are none of these |
| JobTokens.LimitIsReached | contrib/bmake-20240212/job.c:2834-2901 | a make does reach as many jobs as there are tokens, or as it may start |
| JobTokens.OneJobTooMany | contrib/bmake-20240212/job.c:2877-2890 | a run with three tokens, two makes that leave after a failure and a root that goes on, in which four jobs run at once |
| JobTokens.JobAccounting | contrib/bmake-20240212/job.c:2834-2901 | the running count is the number of jobs plus the token in hand, never negative, and a started job always finds a slot |
| JobTokens.AbortTokenStays | contrib/bmake-20240212/job.c:2766-2779 | once an abort token was deposited there is one in the pipe, or about to be written, forever |
| JobTokens.DoomedStartsNothing | contrib/bmake-20240212/job.c:2877-2890 | a process that has read an abort token starts no further job |
| JobTokens.IdleMakeObtainsToken | contrib/bmake-20240212/job.c:2853-2901 | a make without jobs gets a token, also from an empty pipe, unless the first token tells it to abort, and leaves the pipe with the same tokens |
| JobTokens.ReturnsToken | contrib/bmake-20240212/job.c:1209-1242 | exactly the jobs that are not special return their token when they end |
| CompatState.EnterStep | contrib/bmake-20240212/compat.c:516-518 | entering an unmade node keeps the invariant of the walk and everything below it on the path |
| CompatState.LeaveStep | contrib/bmake-20240212/compat.c:525-612 | leaving a node, given up if told so and only then, keeps the invariant for the shorter path, and its parent has seen it |
| CompatState.ReenterStep | contrib/bmake-20240212/compat.c:624-628 | meeting a node of the path again keeps the invariant and dooms every node from it to the top |
| CompatState.PathIsCycle | contrib/bmake-20240212/compat.c:624-628 | every such node really lies on a cycle of dependencies |
| CompatState.TellStep | contrib/bmake-20240212/compat.c:673-678 | telling a parent about a failed dependency keeps the invariant |
| CompatState.MeetLeft | contrib/bmake-20240212/compat.c:629-641 | a dependency that was made, or given up, needs nothing more: if it matters, the parent has been told |
| CompatState.ReadyToRun | contrib/bmake-20240212/compat.c:530-580 | a node that was not told otherwise depends on nothing that is unmade, being made or failed |
| CompatState.InvIsSafe | contrib/bmake-20240212/compat.c:428-438 | at every moment, no commands were run twice, nor before what they depend on was settled |
| CompatState.InvOutcome | contrib/bmake-20240212/compat.c:662-685 | after the walk: only needed nodes were entered, re-entered paths are given up and lie on cycles, and a node is given up if and only if a dependency failed or was given up after the node was entered |
| CompatState.GivenUpIsIgnored | contrib/bmake-20240212/compat.c:628-641 | four nodes for which the second parent of a dependency that was given up is not told, and runs its commands after that |
| CompatState.CycleIsMet | contrib/bmake-20240212/compat.c:624-628 | every cycle of dependencies that the walk could reach has a node that was given up without running |
| CompatState.NothingGivenUp | contrib/bmake-20240212/compat.c:644-661 | without a failure and without a cycle every visited node is MADE or UPTODATE |
| CompatState.FlagsLeave | contrib/bmake-20240212/compat.c:539-612 | leaving a node as its fate says keeps what the flags promise, or gives a reason to end the process |
| CompatState.FlagsAtEnd | contrib/bmake-20240212/compat.c:539-612 | after the walk: which nodes had their commands run, that they failed just where a node is in error for it, and what -k, -q and -t exclude |
| Compat.CompatBuild.constructor | contrib/bmake-20240212/compat.c:714-737 | nothing is made yet, and the invariant holds |
| Compat.CompatBuild.RunCommands | contrib/bmake-20240212/compat.c:428-438 | may be called only when everything the node depends on is settled |
| Compat.CompatBuild.Examine | contrib/bmake-20240212/compat.c:539-589 | a node that is examined ends the process, has its commands run and is MADE, UPTODATE or in error exactly as -q, -t and its fate say |
| Compat.CompatBuild.Decide | contrib/bmake-20240212/compat.c:525-589 | a node is given up if it was told so and only then; commands are run only for a node whose dependencies are settled; with -q an out-of-date node ends the process |
| Compat.CompatBuild.FinishNode | contrib/bmake-20240212/compat.c:525-612 | the end of a node keeps the invariant; the process ends only with -q on an out-of-date node or, without -k, on a failure |
| Compat.CompatBuild.MakeUnmade | contrib/bmake-20240212/compat.c:503-612 | an unmade node is made or given up, the invariant is kept, and what was finished stays as it is |
| Compat.CompatBuild.MakeOther | contrib/bmake-20240212/compat.c:614-642 | the node has been seen by its parent, and a cycle is recorded with its path |
| Compat.CompatBuild.MakeNodes | contrib/bmake-20240212/compat.c:485-501 | all nodes of the list with their `::` instances have been seen |
| Compat.CompatBuild.MakeNode | contrib/bmake-20240212/compat.c:662-680 | the node itself has been made, told of or met, before its `::` instances |
| Compat.CompatBuild.CompatMake | contrib/bmake-20240212/compat.c:662-685 | the same for one node; the recursion ends on every graph, cyclic or not |
| Compat.CompatBuild.MakeTargets | contrib/bmake-20240212/compat.c:731-752 | `.BEGIN` and then all targets are made or given up, unless the process has a reason to end |
| Compat.CompatBuild.CompatMakeAll | contrib/bmake-20240212/compat.c:714-769 | the error node is the first target that failed, or `.END`; if a target failed, only what the targets and `.BEGIN` lead to was entered; every node ends as -k, -q, -t and its fate say; the process ends early only for an out-of-date node with -q, a failure without -k, or a failed `.BEGIN` |
| Conditionals.RunAppend | contrib/bmake-20240212/parse.c:2610-2657 | reading a text is reading its parts one after the other |
| Conditionals.OuterConditionalsKept | contrib/bmake-20240212/cond.c:1236-1246 | for any text, the conditionals around a file are never touched and are what is left at its end |
| Conditionals.SkipBlock | contrib/bmake-20240212/parse.c:2557-2566 | in an irrelevant branch a block delivers no line and evaluates no condition |
| Conditionals.DeadBranches | contrib/bmake-20240212/cond.c:1100-1143 | once a branch was taken, or none can be, the rest of the conditional does nothing |
| Conditionals.OneBranchOnly | contrib/bmake-20240212/cond.c:1092-1143 | in any text, nested or not, nothing is read after the branch that was taken up to the `.endif` |
| Conditionals.CollectBlock | contrib/bmake-20240212/parse.c:2568-2598 | in the body of a loop a block is only collected |
| Conditionals.ReadBranch | contrib/bmake-20240212/cond.c:1163-1174 | a branch is read just when its condition is true, the later ones just when it is false, none on an error |
| Conditionals.ReadBlock | contrib/bmake-20240212/parse.c:2610-2657 | for every nested block, exactly the events of the tree, in order |
| Conditionals.FileMeaning | contrib/bmake-20240212/cond.c:1023-1174 | the same for a whole file, which leaves everything else as it was |
| Guards.GuardExplained | contrib/bmake-20240212/parse.c:2610-2657 | the guard state always describes the text read so far |
| Guards.DoneIsGuarded | contrib/bmake-20240212/parse.c:2798-2813 | a file that ends with its guard recognised is one conditional around all of its text |
| Guards.RecognizedExactly | contrib/bmake-20240212/parse.c:2610-2657 | with loop bodies that are balanced, a file is recognised as guarded if and only if one conditional encloses all of its lines and its loops are closed, whatever stands inside |
| Guards.GuardedTextIsSkipped | contrib/bmake-20240212/cond.c:1192-1234 | such a text does nothing but evaluate its guard when the guard is false |
| Guards.ReadingIsQuiet | contrib/bmake-20240212/parse.c:2557-2598 | reading a text with its first condition false evaluates that and does nothing else if and only if the text skips quietly, a property of the lines alone |
| Guards.SkippingIsReading | contrib/bmake-20240212/parse.c:1228-1244 | leaving out a file that was once recognised as guarded, by any reader, while its guard variable is defined equals reading it if and only if its text skips quietly |
| Guards.BalancedSkipsQuietly | contrib/bmake-20240212/parse.c:2568-2598 | every guarded file whose loop bodies are balanced in conditionals does |
| Guards.UnbalancedLoopIsNotSkipped | contrib/bmake-20240212/parse.c:2568-2598 | with unbalanced loop bodies that is false: a file whose second reading delivers a line |
| MakefileReader.IncludedFile.constructor | contrib/bmake-20240212/parse.c:2160-2193 | a file starts at the depth of the conditionals around it |
| MakefileReader.IncludedFile.EvalCondition | contrib/bmake-20240212/cond.c:1163-1174 | evaluating a condition sets the state of the innermost conditional |
| MakefileReader.IncludedFile.CondEvalLine | contrib/bmake-20240212/cond.c:1023-1174 | one directive changes conditionals, trace and guard as the step function says, with the guard ruled out by an `.else` of the outermost conditional and completed by its `.endif` |
| MakefileReader.IncludedFile.SkipIrrelevantBranches | contrib/bmake-20240212/parse.c:2557-2566 | stops in the next relevant branch, or at the end of the file, in the state of the reader there |
| MakefileReader.IncludedFile.ParseForLoop | contrib/bmake-20240212/parse.c:2568-2598 | a loop is collected up to its own `.endfor` and run |
| MakefileReader.IncludedFile.DecideGuard | contrib/bmake-20240212/parse.c:2634-2642 | the first line decides whether there may be a guard |
| MakefileReader.IncludedFile.HandleDirective | contrib/bmake-20240212/parse.c:2633-2655 | a directive in a relevant branch, in terms of the step function |
| MakefileReader.IncludedFile.ReadLine | contrib/bmake-20240212/parse.c:2616-2655 | one line in a relevant branch: delivered, dealt with, or the end of the file |
| MakefileReader.IncludedFile.ReadHighLevelLine | contrib/bmake-20240212/parse.c:2610-2657 | returns the next line that the reader delivers, having delivered none before it, or the end of the file with none left |
| MakefileReader.IncludedFile.ReadFile | contrib/bmake-20240212/parse.c:2932-2964 | the file object ends in the state of the reader run over all lines, and in the guard state of the guard machine |
| MakefileReader.RememberedExactly | contrib/bmake-20240212/parse.c:2806-2813 | the guard of a file is remembered if and only if the file is guarded and its loops are closed |
| MakefileReader.Parser.ReadIncluded | contrib/bmake-20240212/parse.c:1256-1297 | conditionals, trace and guards after reading a file |
| MakefileReader.Parser.IncludeFile | contrib/bmake-20240212/parse.c:1228-1297 | a file that is read has the effect of the reader run over it, and its guard is remembered just when it has one; one that is left out has none, which is the effect of reading it, but for the guard's evaluation, if and only if its text skips quietly |
| CondExpr.TermAccepted | contrib/bmake-20240212/cond.c:846-869 | every term is read as one, negated as often as it says, or only skipped when it does not matter |
| CondExpr.AndAccepted | contrib/bmake-20240212/cond.c:874-890 | the same for conjunctions; what follows is left pushed back |
| CondExpr.OrAccepted | contrib/bmake-20240212/cond.c:895-911 | the same for disjunctions |
| CondExpr.TermSound | contrib/bmake-20240212/cond.c:846-869 | what was read without an error is the text of a term |
| CondExpr.AndSound | contrib/bmake-20240212/cond.c:874-890 | or of a conjunction that no '&&' follows |
| CondExpr.OrSound | contrib/bmake-20240212/cond.c:895-911 | or of a disjunction that neither operator follows |
| CondExpr.GrammarIsEvaluated | contrib/bmake-20240212/cond.c:918-945 | a condition of the grammar gets the value, and evaluates the leaves, of left-to-right short-circuit evaluation |
| CondExpr.OnlyGrammarIsEvaluated | contrib/bmake-20240212/cond.c:97-109 | a condition that gets a value follows the grammar |
| CondExpr.EvaluatedIffGrammar | contrib/bmake-20240212/cond.c:918-945 | both directions: a value just when the text follows the grammar and no evaluated leaf is malformed |
| CondExpr.OrUnique | contrib/bmake-20240212/cond.c:97-109 | a text has at most one reading in the grammar |
| CondParsing.CondParser.NextToken | contrib/bmake-20240212/cond.c:756-822 | the pushed-back token, or the next one; a leaf is evaluated only if asked for |
| CondParsing.CondParser.Skip | contrib/bmake-20240212/cond.c:825-838 | takes the token or leaves it pushed back |
| CondParsing.CondParser.Term | contrib/bmake-20240212/cond.c:846-869 | the loop over '!' and the parenthesis agree with the recursive definition |
| CondParsing.CondParser.And | contrib/bmake-20240212/cond.c:874-890 | the loop with its flag agrees with the recursive definition |
| CondParsing.CondParser.Or | contrib/bmake-20240212/cond.c:895-911 | the loop with its flag agrees with the recursive definition |
| CondParsing.CondEvalExpression | contrib/bmake-20240212/cond.c:918-945 | short-circuit value and leaves for a text of the grammar, an error for any other |
| Glob.LeftmostSegment | contrib/bmake-20240212/str.c:393-404 | keeping only the leftmost place of a segment before an asterisk loses no match |
| Glob.SkipTo | contrib/bmake-20240212/str.c:382-388 | skipping to the first character of a segment loses no match |
| Glob.JumpToEnd | contrib/bmake-20240212/str.c:405-408 | the last segment need only be tried at the end of the string |
| Glob.TooLong | contrib/bmake-20240212/str.c:336-338 | a segment that runs out of string here does so further right |
| Glob.MatchList | contrib/bmake-20240212/str.c:343-378 | membership in a character list, with ranges and negation, and where the list ends |
| Glob.MatchItem | contrib/bmake-20240212/str.c:333-391 | whether a character fits an item, where the next item starts, and which error is reported |
| Glob.MatchFixed | contrib/bmake-20240212/str.c:333-417 | one attempt at a fixed place decides the match, matches its segment, or leaves a place further right as good |
| Glob.StrMatch | contrib/bmake-20240212/str.c:325-417 | the same answer as the recursive definition, for every string and every pattern with proper lists; no error is reported if all lists are closed, and one is for an unclosed list without the first character |
| Braces.PiecesCover | contrib/bmake-20240212/dir.c:696-710 | the pieces that are cut off partition the text up to the matching brace |
| Braces.WordIsSkipped | contrib/bmake-20240212/dir.c:676-710 | both scans pass over a nested word as a whole |
| Braces.TreeExpands | contrib/bmake-20240212/dir.c:756-797 | a properly nested word expands to the words of its tree in order, each looked up if it has other wildcards |
| Braces.UnbalancedExpands | contrib/bmake-20240212/dir.c:764-769 | a word with a brace that is not closed, anywhere, expands to nothing |
| Braces.Expansion | contrib/bmake-20240212/dir.c:756-797 | both together: a word has a tree just when its braces are balanced |
| DirExpand.ClosingBrace | contrib/bmake-20240212/dir.c:676-690 | the loop finds the matching brace |
| DirExpand.SeparatorComma | contrib/bmake-20240212/dir.c:696-710 | the loop finds the end of the piece |
| DirExpand.ContainsWildcard | contrib/bmake-20240212/dir.c:712-725 | true just when one of the four characters occurs |
| DirExpand.CopyPiece | contrib/bmake-20240212/dir.c:727-738 | copying by length yields the piece and what follows the group |
| DirExpand.SearchPathExpand | contrib/bmake-20240212/dir.c:876-890 | appends exactly the expansion to the list; the recursion ends because opening braces become fewer |
| DirExpand.ExpandPiece | contrib/bmake-20240212/dir.c:783-793 | appends exactly what one piece stands for |
| DirExpand.DirExpandCurly | contrib/bmake-20240212/dir.c:756-797 | appends exactly the expansion, piece by piece |
| DirExpand.ExpandWord | contrib/bmake-20240212/dir.c:740-755 | the list for a whole word, in terms of its tree |
| Output.CollectVisible | contrib/bmake-20240212/job.c:1865-1940 | one read moves text from the buffer to the output without losing anything but newlines |
| Output.CollectSqueezed | contrib/bmake-20240212/job.c:1865-1940 | if the buffer does not overflow, one read keeps the non-empty lines |
| Output.CollectExactly | contrib/bmake-20240212/job.c:1865-1940 | one read adds nothing to the text, and drops only a newline that comes first, alone, with the buffer empty |
| Output.ReadKeepsLines | contrib/bmake-20240212/job.c:1884-1926 | a read keeps the non-empty lines if and only if its only newline does not come first, with the buffer empty, in the middle of a line of output |
| JobOutput.LinesAreKept | contrib/bmake-20240212/job.c:1820-1951 | so they are kept by every row of reads without such a read, overlong lines included |
| JobOutput.OutputIsKept | contrib/bmake-20240212/job.c:1820-1951 | for every split into reads: the buffer is never full between reads, text printed plus buffered is the text read but for newlines and with NULs as spaces, and without overlong lines the non-empty lines are the same |
| JobOutput.OutputExactly | contrib/bmake-20240212/job.c:1820-1951 | for every split into reads, text printed plus buffered is, character by character, the text read with NULs as spaces, less the newlines dropped that way; the buffer holds no newline, and without overlong lines only whole lines are printed |
| JobOutput.NothingDropped | contrib/bmake-20240212/job.c:1820-1951 | if no read drops a newline, that is the text itself |
| JobOutput.NewlinesCounted | contrib/bmake-20240212/job.c:1820-1951 | newlines printed plus newlines dropped are the newlines read |
| JobOutput.LineEndIsLost | contrib/bmake-20240212/job.c:1873-1883 | a line that fills the buffer exactly loses its newline |
| JobOutput.Job.constructor | contrib/bmake-20240212/job.h:172-175 | an empty buffer |
| JobOutput.Job.Read | contrib/bmake-20240212/job.c:1835-1845 | any number of bytes that fits, taken from the pipe in order |
| JobOutput.Job.ReplaceNuls | contrib/bmake-20240212/job.c:1859-1862 | NULs of the new bytes become spaces |
| JobOutput.Job.FindNewline | contrib/bmake-20240212/job.c:1864-1871 | the last newline among the new bytes |
| JobOutput.Job.Print | contrib/bmake-20240212/job.c:1884-1939 | prints up to the newline or the end, and moves the rest to the front |
| JobOutput.Job.ReadChunk | contrib/bmake-20240212/job.c:1835-1857 | the end of file stands for a newline if there is something left |
| JobOutput.Job.Absorb | contrib/bmake-20240212/job.c:1859-1940 | buffer and output are those of the longer row of reads; the end of file empties the buffer |
| JobOutput.Job.CollectOutput | contrib/bmake-20240212/job.c:1820-1951 | everything read has been received in order; with finish it stops only at the end of file or when there is nothing yet, and after the end of file the buffer is empty |
| HashTables.HashString | contrib/bmake-20240212/hash.c:86-98 | the loop computes the hash modulo 2^32 |
| HashTables.MaskIsIndex | contrib/bmake-20240212/hash.c:125-125 | in a table with a power of two of buckets, masking the hash finds the bucket of its remainder |
| HashTables.FindInChain | contrib/bmake-20240212/hash.c:127-133 | finds the entry with hash and key, or there is none in the chain |
| HashTables.FoundInBucket | contrib/bmake-20240212/hash.c:113-137 | what is not in its bucket is not in the table |
| HashTables.PushLayout | contrib/bmake-20240212/hash.c:268-272 | a new entry at the head of its bucket keeps the layout, for the map with one more key |
| HashTables.RemoveLayout | contrib/bmake-20240212/hash.c:287-302 | removing an entry keeps it, for the map with one key less |
| HashTables.MoveStep | contrib/bmake-20240212/hash.c:225-233 | moving one entry to its new bucket keeps all entries in exactly one of the two tables |
| HashTables.Moved | contrib/bmake-20240212/hash.c:225-240 | when all have been moved, the larger table holds the same map |
| HashTables.Unlink | contrib/bmake-20240212/hash.c:290-301 | the one link that leads to the entry is made to lead past it |
| HashTables.HashTable.constructor | contrib/bmake-20240212/hash.c:140-153 | an empty map in 16 buckets |
| HashTables.HashTable.Find | contrib/bmake-20240212/hash.c:113-137 | the entry of the map for the key, or null just when there is none |
| HashTables.HashTable.FindValue | contrib/bmake-20240212/hash.c:190-195 | the value in the map, or null |
| HashTables.HashTable.MoveChain | contrib/bmake-20240212/hash.c:225-233 | relinks one old chain into the new buckets |
| HashTables.HashTable.Enlarge | contrib/bmake-20240212/hash.c:212-243 | twice as many buckets, still a power of two, the same map |
| HashTables.HashTable.CreateEntry | contrib/bmake-20240212/hash.c:249-277 | the entry for the key, new just when there was none; the number of entries stays exact and within three per bucket, and the table grows just when it is full |
| HashTables.HashTable.Set | contrib/bmake-20240212/hash.c:279-284 | the map with the key set |
| HashTables.HashTable.DeleteEntry | contrib/bmake-20240212/hash.c:287-302 | the map without the key of the entry |
| HashIteration.EveryEntryOnce | contrib/bmake-20240212/hash.c:308-326 | a walk from the start visits exactly the entries, each once |
| HashIteration.HashIter.Next | contrib/bmake-20240212/hash.c:308-326 | returns the first of what remains, or null when nothing does |
| HashIteration.WalkGoesOn | contrib/bmake-20240212/main.c:1984-2004 | deleting the entry before the current one does not disturb the walk |
| HashIteration.PurgeRelative | contrib/bmake-20240212/main.c:1984-2004 | leaves exactly the absolute keys, with their values |
| Format.ReadLinked | tools/format.c:129-141 | following a file's links on the image gives the bytes of its blocks, and zeros after the last |
| Format.FileReads | tools/format.c:119-154 | reading the image through the partition information, the directory and the links gives back the file as far as it got blocks, and zero at the first byte that did not fit |
| Format.ChainIsRange | tools/format.c:42-54 | the chain of a file is a run of blocks that ends with -1 |
| Format.ChainsDisjoint | tools/format.c:99-154 | the chains of two files have no block in common and avoid blocks 0 to 3 |
| Format.OneReadExactly | tools/format.c:119-154 | a file that got the blocks its bytes fill reads back, and one without zeros only then |
| Format.ReadBackExactly | tools/format.c:118-154 | the same for the whole list: it reads back if all files fit, and, if they have no zeros, only then |
| Format.TablesStay | tools/format.c:162-167 | the directory and the table overwrite neither each other, nor a file, nor the partition information |
| Format.Formatter.constructor | tools/format.c:66-117 | the table with the directory in blocks 0 to 3 and all others free, and the partition information on the image |
| Format.Formatter.FindFreeBlock | tools/format.c:42-54 | the first free block, taken and linked, or 0 and nothing changed |
| Format.Formatter.CopyByte | tools/format.c:130-141 | one byte, with a new block just when the last one is full, or in block 0 when there is none |
| Format.Formatter.Pad | tools/format.c:142-146 | filling up the sector stays inside the last block |
| Format.Formatter.CopyFile | tools/format.c:120-146 | the file gets as many blocks as it asks for or as there are, is stored and linked that far, and no earlier block but 0 has changed |
| Format.Formatter.WriteFile | tools/format.c:119-154 | one more file is on the image and in the directory, and all earlier ones still are |
| Format.Formatter.WriteDirectory | tools/format.c:162-164 | the directory is on the image, and nothing outside its four blocks has changed |
| Format.Formatter.WriteTable | tools/format.c:165-167 | the table is on the image, and nothing outside its sectors has changed |
| Format.Formatter.Format | tools/format.c:118-167 | every file of the list reads back from the image alone just as far as its blocks go, and the whole list under the exact condition, a full table included |
| Division.OneBit | tools/libgcc32.c:40-46 | one round of long division keeps quotient and remainder of the bits seen so far |
| Division.ShiftFits | tools/libgcc32.c:41-41 | the shifted remainder never loses a bit |
| Division.LongDivision | tools/libgcc32.c:39-49 | quotient and remainder for every nonzero divisor |
| Division.UDivMod | tools/libgcc32.c:14-50 | n = q*d + r with r < d on all three paths, and the documented result for zero |
| Division.TruncatedUnique | tools/libgcc32.c:66-80 | truncating division (section 6.5.5 of ISO/IEC 9899:2011) has one result |
| Division.DivMod | tools/libgcc32.c:66-80 | truncating signed division with the sign of the remainder following n, for all operands but the one pair whose quotient does not fit |

## Left out

- Variables, suffix rules, modification times, archives and meta mode: their decisions are parameters.
- Processes, signals and temporary files: only exit statuses, tokens and bytes are seen.
- `.MADE` and `.DEFAULT` in the parallel build, `.STALE`, `-q` and aborting builds there.
- Expanding `.USE` before a build: the graph is fixed, with links recorded at both ends and `::` instances without parents of their own; `::` targets named on the command line, which the source rejects with an internal error, are not covered.
- The sequence number of the parallel build is unbounded; the source wraps it around.
- Scheduler.Build.MakeRun: with `.WAIT` nodes the outcome is bounded from both sides but not fixed, because a queued `.WAIT` node lets later siblings pass.
- Restarting jobs after an abort, and the csh and ksh output filters.
- The order in which compat mode makes targets with `-dr`, which is random between `.WAIT` nodes; the model follows the list order.
- JobTokens.TokensAreConserved: only as long as nobody aborts; afterwards tokens may be lost, and what remains is the bound of `JobLimit`.
- Splitting lines into directives and text, and the syntax of a single comparison or function call: a line or a leaf is taken as classified.
- Guards.SkippingIsReading: variable guards only; a target guard is taken as met when the node exists, which is not the same as its condition. Diagnostics are ignored.
- Glob.StrMatch: for patterns with a list that is cut short in the middle of a range, only the memory safety of the scan is stated; of the errors, only when none is reported and when the first list is.
- HashTables.HashTable.CreateEntry: freeing memory and the longest-chain statistic are not modelled.
- Format.Formatter.Format: at most 55 files, which is what the directory's memory holds, on an image that 31 bits address; the source checks neither. Names, dates and permissions are arbitrary bytes.
- Division.DivMod: negating the smallest number, which ISO C leaves undefined, wraps around.
- The other programs of the tree (kernel, libraries, shells and wrappers) would only add easier members.
