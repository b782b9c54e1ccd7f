# Verified model of leanr's checking, building, printing and naming cores

leanr is a Lean 4 toolchain written in Rust. This project models the parts of it whose correctness is a theorem rather
than a matter of reading one branch, and proves those theorems:

- **Parallel kernel check** (`Tasks`, `Scheduler`, `SchedulerInvariant`, `SchedulerTheorems`, `SchedulerVerdicts`,
  `SchedulerJoin`, `DepGraph`, `EndToEnd`). Workers share a mutex-guarded queue, a condition variable, atomic counters and flags. The
  pool is a sequentially consistent transition system with one program counter per worker; one step is one critical
  section or one atomic access, so the counters are decremented outside the lock and before the push, as in the code.
  One inductive invariant gives safety in every reachable state, the absence of lost wake-ups, termination over every
  schedule, and an exact answer when the pool has joined: it is decided by the graph and the kernel's verdicts alone. The task builder is proved against a description of the
  grouping read off the table alone, and both together give the end-to-end statement: whatever a constant mentions is
  admitted before the constant is checked, and the final count is a function of the table.
- **Build pool, waves, import graph** (`Counters`, `Pool`, `PoolInvariant`, `PoolJoin`, `PoolOutcomes`, `Waves`,
  `ImportGraph`). The pool has a single lock but notifies after dropping it; what it answers is decided by the
  dependencies and the jobs' outcomes. The waves are proved to be longest-dependency-chain levels.
- **Merkle fingerprints** (`ByteOrder`, `Fingerprint`). Equality of fingerprints is equality of environments and of
  everything behind two modules, across workspaces.
- **Pretty-printer** (`Layout`, `LayoutLaws`). The explicit-stack machine prints what a printer prints that decides each
  group once.
- **Metavariable collection** (`MVars`, `Collector`). Termination and closure on every graph, order up to cycles.
- **Expressions** (`ExprData`, `ExprEq`). The packed word, and both equalities under the recursion budget.
- **Names, terms, constants** (`Names`, `NameStore`, `Resolve`, `TermStore`, `Environment`, `HalfAdmission`). Two-region
  hash-consing, name algebra and resolution, promotion, read-only resolution, and admission with an exact account of
  what fits into the store.
- **Parser descriptions** (`Descr`). The interpreter is the inverse of an encoder of parsers as descriptions.
- **Content-addressed cache** (`Cache`, `CacheWriters`). Writers that lock, test, fill a temporary sibling and rename it
  are proved to amount to atomic steps while a collector removes blobs without any lock; the store, the remote tier and
  the build job are stated over those steps, with other workers' steps in between.

Code that works by changing things step by step is modelled by methods with loops or by classes with `modifies` clauses;
code made of expressions is modelled by functions. Locks, atomics and condition variables are steps of state machines.
A hash is a function parameter; collision-freedom is assumed only of the byte streams the two workspaces in question
feed it, so the assumption can be met.

## What turned out not to hold

- The task blamed for a dependency cycle is documented as a member of the cycle (`crates/leanr_check/src/schedule.rs`,
  line 597). It is one if and only if the first task, in id order, that has a name and reaches a cycle or a dangling id
  lies on a cycle (`SchedulerJoin.BlameExact`); the graph alone decides it, whatever the schedule. It need not:
  `SchedulerJoin.BlameOffCycle` gives a graph and a run.
- Making a name private and stripping it again gives the stripped name if and only if the main module's name has only
  string components (`Names.StripMake`); the same condition decides whether making it twice is making it once
  (`Names.MakeTwice`).
- "Distinct modules never share a fingerprint" (`crates/leanr_build/src/fingerprint.rs`, lines 7-9) is false: what is
  hashed is the displayed name, and `A.B` and `«A.B»` are displayed alike, so two byte-identical modules of these names
  share one under every hash (`Fingerprint.SharedFingerprint`). Names are displayed alike if and only if they agree after
  cutting every component at its dots (`ByteOrder.RenderExact`), and the promise holds for a list of module names,
  whatever the modules contain, if and only if no two of them do (`Fingerprint.PromiseExact`).
- The cached loose-variable range is vouched for (below the cap) if and only if no variable index plus one in the term,
  loose or bound, reaches the cap; at the cap it is the true range only if that is the cap itself
  (`ExprData.WordIsRight`).
- `add_decl_in` leaves the constants unchanged on a check failure, as documented (`crates/leanr_kernel/src/env.rs`, lines
  523-525). A failure for lack of room is not covered: it leaves them unchanged if and only if the declaration does not
  fit or its first survivor does not; if the first survivor fits and a later one does not, those inserted so far stay
  (`Environment.Env.AddDeclIn` for survivors with new names, with a run in `HalfAdmission.Stays`). What fits is counted
  in the distinct subterms that are not in the store yet (`TermStore.Promote`).

## Model

| member | source | states |
|---|---|---|
| `Digraph.ReverseAdjacency` | crates/leanr_check/src/schedule.rs:97-107 | the reverse adjacency lists every dependent once per occurrence, in order, and skips ids that name no task |
| `Digraph.DependentsExact` | crates/leanr_check/src/schedule.rs:97-107 | those lists hold exactly the occurrences of an id in dependency lists, each once |
| `SchedulerInvariant.InitInv` | crates/leanr_check/src/schedule.rs:90-142 | the invariant holds when the workers start, for any graph, forged ones included, and any number of jobs |
| `SchedulerInvariant.StepInv` | crates/leanr_check/src/schedule.rs:225-308 | every step of every worker, with any kernel verdict, keeps counters exact, tasks in exactly one place, admission, order, the tally and the failure slot |
| `SchedulerInvariant.WakeInv` | crates/leanr_check/src/schedule.rs:251 | so does a wake-up nobody asked for |
| `SchedulerTheorems.NoUnderflow` | crates/leanr_check/src/schedule.rs:273-278 | in every reachable state a decrement finds a positive counter no larger than the task's dependency list |
| `SchedulerTheorems.RunsAtMostOnce` | crates/leanr_check/src/schedule.rs:233-253 | a task is queued at most once, popped at most once, never again after it was popped, and run by one worker |
| `SchedulerTheorems.StartsAfterDependencies` | crates/leanr_check/src/schedule.rs:255-288 | a task that has been popped has all dependencies checked with every admitted flag set, and its view sees the quotient flag if it depends on the quotient task |
| `SchedulerTheorems.AdmittedWasAccepted` | crates/leanr_kernel/src/checked.rs:33-38 | in every reachable state an admitted name belongs to a task whose check is over and was not a failure |
| `SchedulerTheorems.OneWay` | crates/leanr_check/src/schedule.rs:233-298 | flags are never cleared, the failure slot is written once, counts never fall, and tasks are popped in the order in which they were queued |
| `SchedulerTheorems.QuotWasAccepted` | crates/leanr_check/src/schedule.rs:310-331 | the quotient flag is set only after the task that publishes it was accepted, and no check sees it earlier |
| `SchedulerTheorems.ProgressOnce` | crates/leanr_check/src/schedule.rs:279-290 | a step counts at most one finished task; exactly if it does, one worker, the one whose task is then done, goes on to call `progress` with the new count |
| `SchedulerTheorems.NoLostWakeup` | crates/leanr_check/src/schedule.rs:239-251 | a parked worker that has not been notified faces an empty queue while some other worker holds a task |
| `SchedulerTheorems.SomeWorkerCanStep` | crates/leanr_check/src/schedule.rs:225-308 | until every worker has returned, some worker can take a step |
| `SchedulerTheorems.StepLowers` | crates/leanr_check/src/schedule.rs:225-308 | every step but a spurious wake-up lowers a well-founded measure, so productive steps are bounded |
| `SchedulerVerdicts.VerdictsDecide` | crates/leanr_check/src/schedule.rs:255-308 | along every run under given verdicts: what is past its check was accepted, what was dropped was rejected, the recorded failure is that of a rejected task, and each admitted name belongs to an accepted one |
| `SchedulerVerdicts.CancelStops` | crates/leanr_check/src/schedule.rs:225-253 | once the pool is cancelled at most one more task is taken, and none unless a worker held the lock already |
| `SchedulerJoin.JoinExact` | crates/leanr_check/src/schedule.rs:144-174 | after a join without failure, all tasks are done if and only if the graph is acyclic and closed; otherwise some counter is positive; if done, the tally is the total and every flag is set |
| `SchedulerJoin.BlockedReaches` | crates/leanr_check/src/schedule.rs:148-169 | a task left blocked waits, directly or through others, for a cycle or for an id that names no task |
| `SchedulerJoin.PoppedIsNotDoomed` | crates/leanr_check/src/schedule.rs:100-107 | in any state, a task that was ever popped reaches neither a cycle nor an id that names no task |
| `SchedulerJoin.PendingIsDoomed` | crates/leanr_check/src/schedule.rs:148-169 | after a join without failure a counter is positive if and only if its task reaches a cycle or an id that names no task, whatever the schedule was |
| `SchedulerJoin.FailureIsReal` | crates/leanr_check/src/schedule.rs:144-147 | a recorded failure is that of a task that was popped and never completed |
| `SchedulerJoin.FailsExactly` | crates/leanr_check/src/schedule.rs:144-174 | after the join, a failure is recorded if and only if the kernel rejects some task that reaches neither a cycle nor a dangling id; if all tasks are done, all were accepted |
| `SchedulerJoin.FailedAlone` | crates/leanr_check/src/schedule.rs:144-174 | the reported task was rejected and everything it waits for was accepted |
| `SchedulerJoin.StuckDecl` | crates/leanr_check/src/schedule.rs:599-611 | the blamed name is the first admitted name of the first pending task that has one |
| `SchedulerJoin.BlameExact` | crates/leanr_check/src/schedule.rs:597-611 | the blamed task is the first one with a name that reaches a cycle or a dangling id, a matter of the graph alone; it is a member of a cycle if and only if that one is |
| `SchedulerJoin.BlameOffCycle` | crates/leanr_check/src/schedule.rs:597-611 | a graph and a run whose blamed task lies on no cycle |
| `SchedulerJoin.CheckParallel` | crates/leanr_check/src/schedule.rs:73-174 | over every schedule and all verdicts the pool joins; it answers a failure exactly if the kernel rejects some task that reaches neither a cycle nor a dangling id, always of a rejected task whose dependencies were accepted; `Checked`, with the exact count, if and only if the graph is acyclic and closed and every verdict is favourable; otherwise the blamed name is the one the graph determines, or no task that cannot start has a name |
| `DepGraph.GatherBlock` | crates/leanr_check/src/graph.rs:70-82 | succeeds exactly when every listed member is an inductive, and concatenates their constructors |
| `DepGraph.MakeTask` | crates/leanr_check/src/graph.rs:67-154 | an inductive block lists exactly its members' constructors, as often as they do; for a well-formed table the new task stands for exactly the group of the name that opened it |
| `DepGraph.ListingsExact` | crates/leanr_check/src/graph.rs:70-98 | a name is listed by a block if and only if some member is an inductive that has it as a constructor |
| `DepGraph.Pass1` | crates/leanr_check/src/graph.rs:56-155 | every claimed name lies in the admits of its task; for a well-formed table pass 1 succeeds and claims whole groups, one task each |
| `DepGraph.Pass1b` | crates/leanr_check/src/graph.rs:163-174 | afterwards every name has a task; for a well-formed table the names are partitioned among the tasks |
| `DepGraph.ResolveBlock` | crates/leanr_check/src/graph.rs:247-274 | a stray constructor or recursor goes to the task that owns the inductive it names, if any does; otherwise the error names the missing one |
| `DepGraph.BlockOfStray` | crates/leanr_check/src/graph.rs:247-274 | on a well-formed table that is the task of its own group |
| `DepGraph.Pass2` | crates/leanr_check/src/graph.rs:180-212 | succeeds exactly when every mentioned name is owned; the edges are exactly the mentions across tasks, each once |
| `DepGraph.Pass2b` | crates/leanr_check/src/graph.rs:214-233 | adds exactly the missing edge from the quotient task to `Eq`, and cannot fail |
| `DepGraph.BuildGraph` | crates/leanr_check/src/graph.rs:45-244 | a successful build covers every name with edges that are exact, duplicate-free and never to itself; each block admits its members and lists exactly their constructors, each as often as the members do; on a well-formed table it succeeds and partitions |
| `EndToEnd.CheckedConstants.Admit` | crates/leanr_kernel/src/checked.rs:72-76 | sets the flag of a name of the table, ignores any other |
| `EndToEnd.CheckedConstants.Get` | crates/leanr_kernel/src/checked.rs:52-57 | answers exactly for the admitted names of the table |
| `EndToEnd.CheckedConstants.Follow` | crates/leanr_kernel/src/checked.rs:72-76 | the flags of the table stay those of the pool, restricted to the table, through every worker step |
| `EndToEnd.CheckedConstants.Consult` | crates/leanr_check/src/schedule.rs:310-331 | what a running check finds for a constant its names mention: always a table constant of another task, never an unaccepted one, and on a well-formed table exactly those of other tasks |
| `EndToEnd.UsesAreAdmitted` | crates/leanr_check/src/schedule.rs:310-331 | while a task runs, each constant its names mention is in the same task or already admitted and visible through the gate, quotient constants with the quotient flag |
| `EndToEnd.OwnNamesAreHidden` | crates/leanr_check/src/schedule.rs:310-331 | while a task runs none of its own names is visible |
| `EndToEnd.QuotInitIsBlind` | crates/leanr_check/src/schedule.rs:310-331 | the task that initialises quotients is checked with the quotient flag unset |
| `EndToEnd.EqBeforeQuot` | crates/leanr_check/src/graph.rs:214-233 | quotient initialisation runs only after `Eq` is admitted, unless both are one task |
| `EndToEnd.OneTaskPerGroup` | crates/leanr_check/src/graph.rs:56-57 | in a well-formed table two names share a task exactly when the table groups them, and each name is admitted by one task only |
| `EndToEnd.CountIsUnits` | crates/leanr_check/src/schedule.rs:590-595 | the tally over all tasks is one per group plus one per quotient constant, read off the table |
| `EndToEnd.CheckTable` | crates/leanr_check/src/schedule.rs:73-174 | build and check together, under any verdicts: a failure is answered exactly when some task that reaches no cycle is rejected, and names a rejected one; no name is admitted but by an accepted task; success exactly if the task graph is acyclic and every verdict is favourable, and then all names are admitted, in an order in which everything mentioned comes first, with the table's count; on a well-formed table a cycle always gets a name, the one the graph determines |
| `Counters.CloseOne` | crates/leanr_build/src/pool.rs:96-101 | decrementing the dependents of a finished item leaves every counter equal to its open dependencies and pushes exactly those that reach zero, once |
| `Counters.SettleLoop` | crates/leanr_build/src/pool.rs:96-101 | the loop computes those counters and that list |
| `Pool.Workers` | crates/leanr_build/src/pool.rs:67 | at least one worker, and the smaller of `jobs.max(1)` and `total.max(1)` |
| `PoolInvariant.InitInv` | crates/leanr_build/src/pool.rs:49-69 | the pool's invariant holds at the start |
| `PoolInvariant.StepInv` | crates/leanr_build/src/pool.rs:69-116 | every critical section, notification and callback keeps it, whatever the job's outcome |
| `PoolJoin.StartedAfterAll` | crates/leanr_build/src/pool.rs:77-101 | everything a started item depends on, at any distance, has succeeded |
| `PoolJoin.RunningIsActive` | crates/leanr_build/src/pool.rs:77-89 | a job in flight belongs to exactly one worker |
| `PoolJoin.NoDependentOfFailure` | crates/leanr_build/src/pool.rs:106-114 | nothing that depends on a failed item is ever started |
| `PoolJoin.NoOvertaking` | crates/leanr_build/src/pool.rs:81-101 | first ready, first started: along every run an item is never started before one that stood ahead of it in the queue |
| `PoolJoin.Bounded` | crates/leanr_build/src/pool.rs:67-101 | counters never go negative and at most `jobs.max(1)` jobs are in flight |
| `PoolJoin.WaitingIsSafe` | crates/leanr_build/src/pool.rs:81-113 | a parked worker has nothing to take and a job in flight, or a notification is on its way |
| `PoolJoin.StepLowers` | crates/leanr_build/src/pool.rs:69-116 | every step but a spurious wake-up lowers a well-founded measure |
| `PoolJoin.JoinExact` | crates/leanr_build/src/pool.rs:119-123 | without a failure all items are done exactly when the dependencies are acyclic |
| `PoolJoin.CallsExact` | crates/leanr_build/src/pool.rs:94-104 | each count from one to the number done is handed to exactly one callback, with the item that finished at that count |
| `PoolOutcomes.OutcomesDecide` | crates/leanr_build/src/pool.rs:92-113 | an item is done only if its job succeeded, failed only if it did not |
| `PoolOutcomes.StartedIsSound` | crates/leanr_build/src/pool.rs:77-101 | an item that was ever started reaches no cycle |
| `PoolOutcomes.FailureStops` | crates/leanr_build/src/pool.rs:74-80 | once a failure is recorded nothing more is started |
| `PoolOutcomes.JoinDecided` | crates/leanr_build/src/pool.rs:119-123 | after the join a failure is recorded exactly if the job of some item that reaches no cycle fails; without one, exactly the items that reach no cycle are done, each with a successful job |
| `PoolOutcomes.FailedAlone` | crates/leanr_build/src/pool.rs:106-114 | the reported item's job failed and those of everything it depends on, at any distance, succeeded |
| `PoolOutcomes.RunPool` | crates/leanr_build/src/pool.rs:43-124 | over every schedule and all outcomes: an error exactly if the job of some item that reaches no cycle fails, and then of an item whose job failed; otherwise exactly the items that reach no cycle are done; `Ok(total)` if and only if the dependencies are acyclic and every job succeeds; the callbacks are told each completion once |
| `Waves.WaveIsChainLength` | crates/leanr_build/src/graph.rs:265-285 | the wave of a module is the length of its longest dependency chain |
| `Waves.Round` | crates/leanr_build/src/graph.rs:273-284 | closing a wave keeps counters exact and frees exactly what became free |
| `Waves.WitnessCycle` | crates/leanr_build/src/graph.rs:286-310 | the walk among leftover modules never lacks a next step and ends within as many steps as there are modules, in a closed walk of dependency edges |
| `Waves.TopoWaves` | crates/leanr_build/src/graph.rs:256-312 | succeeds exactly on acyclic graphs with sorted waves that partition all ids by longest chain; otherwise returns a genuine cycle |
| `ImportGraph.ChunkingIsFair` | crates/leanr_build/src/graph.rs:104-110 | the chunks concatenate to the round and number at most `parallelism.max(1)` |
| `ImportGraph.Classify` | crates/leanr_build/src/graph.rs:153-173 | fails if and only if some name of the frontier is in neither workspace nor toolchain, and then names the least such name; otherwise every name is scanned already, external, or listed for scanning |
| `ImportGraph.RoundKeeps` | crates/leanr_build/src/graph.rs:152-219 | a round keeps: what is scanned is needed, and what it imports is scanned, external or queued, however often a module is listed |
| `ImportGraph.Tabulate` | crates/leanr_build/src/graph.rs:221-250 | nodes ascending by name, the index their inverse, each with its own header's imports, flags and implicit `Init`; dependencies sorted, unique and exactly the imports that are nodes |
| `ImportGraph.BuildGraph` | crates/leanr_build/src/graph.rs:136-251 | terminates; the nodes are the least set holding the resolved seeds and closed under resolved imports, implicit `Init` included; every import is a node or toolchain-external |
| `ByteOrder.PutAllInjective` | crates/leanr_build/src/fingerprint.rs:31-37 | a stream of length-prefixed fields determines the fields and their number |
| `ByteOrder.LittleEndianValue` | crates/leanr_build/src/fingerprint.rs:31-37 | the length prefix is the number itself, least significant byte first |
| `ByteOrder.SortExact` | crates/leanr_build/src/fingerprint.rs:138 | sorted lists are equal exactly when the lists are permutations of each other |
| `ByteOrder.RenderExact` | crates/leanr_build/src/modules.rs:80-84 | two names are displayed alike if and only if they agree after cutting every component at its dots |
| `ByteOrder.RenderInjective` | crates/leanr_build/src/modules.rs:80-84 | display tells dot-free names apart; a dot-free name is displayed like exactly the names it is the pieces of |
| `ByteOrder.DottedHasTwin` | crates/leanr_build/src/modules.rs:80-84 | every name with a dot in a component is displayed like another name |
| `ByteOrder.RenderAmbiguous` | crates/leanr_build/src/modules.rs:80-84 | a two-component name and a one-component name that display alike |
| `Fingerprint.ProvenanceInjective` | crates/leanr_build/src/fingerprint.rs:63-86 | the tagged bytes determine revision or declared inputs |
| `Fingerprint.ImportStringInjective` | crates/leanr_build/src/fingerprint.rs:127-137 | name, zero byte and fixed-width fingerprint can be told apart whatever the name contains |
| `Fingerprint.StreamInjective` | crates/leanr_build/src/fingerprint.rs:39-61 | the hashed stream determines environment, name up to display, provenance, source, setup and import list, and is determined by them |
| `Fingerprint.HashModule` | crates/leanr_build/src/fingerprint.rs:39-61 | feeding the hasher field by field hashes that stream |
| `Fingerprint.FingerprintExact` | crates/leanr_build/src/fingerprint.rs:102-154 | for two modules of any two workspaces: equal fingerprints exactly when the environments and, recursively, the import trees are equal, names counting by their pieces between dots |
| `Fingerprint.DistinctModulesDiffer` | crates/leanr_build/src/fingerprint.rs:1-11 | two modules of a workspace share a fingerprint if and only if their names have the same pieces and everything else that is hashed agrees |
| `Fingerprint.PromiseExact` | crates/leanr_build/src/fingerprint.rs:7-9 | no workspace with given module names holds two modules that share a fingerprint if and only if no two of the names have the same pieces |
| `Fingerprint.SharedFingerprint` | crates/leanr_build/src/fingerprint.rs:7-9 | two modules of different names share a fingerprint under every hash |
| `Fingerprint.FingerprintAll` | crates/leanr_build/src/fingerprint.rs:102-154 | with topological waves every lookup succeeds and every module gets the recursively defined fingerprint |
| `Fingerprint.FingerprintWorkspace` | crates/leanr_build/src/fingerprint.rs:102-154 | waves and fingerprints together, on any closed module graph |
| `Layout.Fits` | crates/leanr_fmt/src/doc.rs:53-73 | true exactly when the document has no hard line break and its flat form is no wider than what remains |
| `Layout.Layout` | crates/leanr_fmt/src/doc.rs:75-120 | the machine prints what the reference prints, in which a group decided flat is flat all the way down |
| `LayoutLaws.FlatGroupOneLine` | crates/leanr_fmt/src/doc.rs:112-116 | a group whose flat form has no break and fits is printed as that form on one line within the width; text of a group that ends up on one line within the width is the flat form |
| `LayoutLaws.ColumnTracks` | crates/leanr_fmt/src/doc.rs:75-120 | the column the machine compares with the width is the true column of the printed text |
| `LayoutLaws.InkConserved` | crates/leanr_fmt/src/doc.rs:75-120 | the width moves white space only: all other characters are those of the flat form, in order |
| `LayoutLaws.NestIndents` | crates/leanr_fmt/src/doc.rs:99-106 | a nest without groups indents every line after the first by its amount, and changes nothing else |
| `MVars.Traverse` | crates/leanr_elab/src/unassigned.rs:30-71 | skipping marked and mvar-free terms loses nothing and keeps first-occurrence order |
| `MVars.CollectMVars` | crates/leanr_elab/src/unassigned.rs:28-89 | keeps what is out, adds what the term mentions, closes over delayed-assignment pendings, adds nothing else, each once |
| `MVars.GetMVars` | crates/leanr_elab/src/unassigned.rs:22-26 | exactly the least set that holds what the term mentions and is closed under pendings, each once |
| `MVars.MentionsExact` | crates/leanr_elab/src/unassigned.rs:30-71 | what a term mentions is exactly the metavariables that occur in it |
| `MVars.AddNewNext` | crates/leanr_elab/src/unassigned.rs:30-71 | each new mention is appended where it first occurs, and no other |
| `Collector.Collect` | crates/leanr_elab/src/auto_bound.rs:309-360 | terminates on every finite graph; the additions are unassigned, new, declared, needed, closed under dependencies, and each comes after its dependencies unless they depend on it; an error names a needed undeclared metavariable |
| `Collector.CollectedKeepsGood` | crates/leanr_elab/src/auto_bound.rs:303-360 | across calls sharing one result, closure is kept on every graph and dependency order on every acyclic one |
| `Collector.AddAutoBoundImplicits` | crates/leanr_elab/src/auto_bound.rs:243-285 | the autos come in discovery order, each after the unassigned metavariables of its type, and no metavariable is there but between the auto before it and the auto whose type needs it; then the explicit binders, none of which an auto's type mentions; an undeclared metavariable that is reported is one that an auto's type needs, a reported dependency or missing declaration is there |
| `ExprData.PackLossless` | crates/leanr_kernel/src/expr.rs:186-287 | unpacking gives back every field, up to the high half of the hash and the capped range |
| `ExprData.WordIsRight` | crates/leanr_kernel/src/expr.rs:429-526 | for every term: the range is below the cap if and only if no variable index plus one reaches it, and then exact; otherwise it is stuck at the cap, and equal to the true range only if that is the cap; depth is the height cut at 255; flags are what occurs |
| `ExprData.RangeExact` | crates/leanr_kernel/src/expr.rs:429-526 | the true range the word is compared with is one more than the largest loose variable |
| `ExprData.HeightExact` | crates/leanr_kernel/src/expr.rs:456-526 | the height is one more than that of the highest part |
| `ExprData.FlagsExact` | crates/leanr_kernel/src/expr.rs:456-526 | each flag says whether such a leaf occurs anywhere in the term |
| `ExprEq.PackedIsBlind` | crates/leanr_kernel/src/expr.rs:453-526 | no packed word depends on binder names or infos, for any mixer and any leaf hashes |
| `ExprEq.WordIgnoresBinders` | crates/leanr_kernel/src/expr.rs:774-793 | terms equal up to binder names and infos have equal words, so the fast reject never rejects an equal pair |
| `ExprEq.RecGuard.LevelEq` | crates/leanr_kernel/src/level.rs:134-164 | decides equality of levels, restores the budget, and fails only if both levels are deeper than what is left |
| `ExprEq.RecGuard.EqImpl` | crates/leanr_kernel/src/expr.rs:794-956 | every `Ok` is right, the guard's depth is restored on every exit, and `DeepRecursion` is impossible while either term fits the remaining budget |
| `ExprEq.RecGuard.StructuralEq` | crates/leanr_kernel/src/expr.rs:758-764 | decides identity of terms from the smart constructors |
| `ExprEq.RecGuard.AlphaEq` | crates/leanr_kernel/src/expr.rs:790-792 | decides equality of the terms with binder names, binder infos and let names blanked |
| `ExprEq.BlankedAlike` | crates/leanr_kernel/src/expr.rs:790-792 | binder-blind equality is identity of the blanked terms |
| `ExprEq.GetAppFn` | crates/leanr_kernel/src/expr.rs:960-966 | the head of the spine |
| `ExprEq.MkAppSpine` | crates/leanr_kernel/src/expr.rs:989-995 | applies the arguments first to last |
| `ExprEq.GetAppArgs` | crates/leanr_kernel/src/expr.rs:960-977 | head and arguments rebuild the very same expression |
| `ExprEq.SpineRoundTrip` | crates/leanr_kernel/src/expr.rs:960-995 | a spine has one head and one argument list |
| `Names.ReplacePrefixLaws` | crates/leanr_elab/src/names.rs:361-386 | replacing p by q in p ++ s gives q ++ s and can be undone; without the prefix nothing changes |
| `Names.PrefixIsComplement` | crates/leanr_elab/src/names.rs:288-304 | the prefix test decides whether the complement exists |
| `Names.SuffixIsComplement` | crates/leanr_elab/src/names.rs:306-354 | so does the suffix test |
| `Names.OnePrivatePrefix` | crates/leanr_elab/src/names.rs:147-164 | a name has at most one private prefix |
| `Names.StripMake` | crates/leanr_elab/src/names.rs:166-211 | stripping after making gives the stripped original if and only if the main module's components are all strings |
| `Names.MakeTwice` | crates/leanr_elab/src/names.rs:196-211 | making a private name twice is making it once, under exactly the same condition |
| `NameStore.DenoteInjective` | crates/leanr_elab/src/names.rs:1-8 | ids are equal exactly when the names are, across both regions |
| `NameStore.Store.Intern` | crates/leanr_elab/src/names.rs:251-262 | the persistent row if there is one, else the scratch row, else a new one; earlier ids keep their names |
| `NameStore.Store.Append` | crates/leanr_elab/src/names.rs:226-249 | the id of the concatenated name |
| `NameStore.Store.IsPrefixOf` | crates/leanr_elab/src/names.rs:285-304 | comparing ids along the parents decides the prefix test on names |
| `NameStore.Store.IsSuffixOf` | crates/leanr_elab/src/names.rs:306-354 | decides the suffix test on names |
| `NameStore.Store.Replace` | crates/leanr_elab/src/names.rs:356-386 | the id of the name with its prefix replaced |
| `NameStore.Store.PrivateToUserName` | crates/leanr_elab/src/names.rs:166-194 | the id of the stripped name |
| `NameStore.Store.MkPrivateName` | crates/leanr_elab/src/names.rs:196-211 | the id of the private name |
| `Resolve.UsingNamespace` | crates/leanr_elab/src/resolve.rs:313-338 | the innermost enclosing namespace with a hit, stopping at a numeric component |
| `Resolve.OpenDecls` | crates/leanr_elab/src/resolve.rs:370-407 | each open declaration's hits in front of what is there |
| `Resolve.ResolveGlobalName` | crates/leanr_elab/src/resolve.rs:228-268 | what the longest prefix with any candidate means, each once, the rest as fields; empty exactly when no prefix means anything; the lemmas below say of that what is found |
| `Resolve.NamespaceFinds` | crates/leanr_elab/src/resolve.rs:238-338 | the innermost enclosing namespace in which the identifier is declared, private or aliased decides: all of that is found, with no fields and nothing else; a protected name too unless the identifier is a single component |
| `Resolve.RootFinds` | crates/leanr_elab/src/resolve.rs:348-368 | `_root_.n` with `n` declared and no namespace hit is `n` and nothing else |
| `Resolve.DeclaredFinds` | crates/leanr_elab/src/resolve.rs:348-368 | so is a declared name of several components |
| `Resolve.OpenFinds` | crates/leanr_elab/src/resolve.rs:375-407 | outside namespaces, what the identifier means in an opened one is found, a protected name too unless the identifier is a single component, or excepted |
| `Resolve.ExplicitFinds` | crates/leanr_elab/src/resolve.rs:375-407 | so is the target of an explicit open, protected or not |
| `Resolve.BelowExplicitFinds` | crates/leanr_elab/src/resolve.rs:375-407 | and a declared name below that target |
| `Resolve.RestAreFields` | crates/leanr_elab/src/resolve.rs:228-268 | when nothing longer than a prefix means anything, the identifier means what the prefix does, the components left over counted as further fields |
| `Resolve.ResolvesJustified` | crates/leanr_elab/src/resolve.rs:228-407 | all candidates carry the same field count, are distinct, and are declared, an alias target or the target of an explicit open |
| `Resolve.NamespaceHitIsPure` | crates/leanr_elab/src/resolve.rs:238-257 | a namespace hit is never mixed with root, open or alias candidates |
| `Resolve.ProtectedNeedsQualification` | crates/leanr_elab/src/resolve.rs:228-407 | one component resolves to a protected name if and only if an explicit `open` leads to it, it is the private name of an unprotected, undeclared candidate, or it is that component itself at the root |
| `Resolve.ProtectedIsHidden` | crates/leanr_elab/src/resolve.rs:273-297 | a protected name of several components is not found by one component when nothing is private to the module and no `open` names a constant |
| `TermStore.DenoteInjective` | crates/leanr_kernel/src/env.rs:626-639 | in a hash-consed store equal ids are equal terms |
| `TermStore.Lookup` | crates/leanr_kernel/src/env.rs:626-667 | the read-only leaf hits exactly when the term is interned in the persistent region, with its own id |
| `TermStore.Promote` | crates/leanr_kernel/src/env.rs:612-624 | appending what is missing gives a persistent id of the same term and keeps the persistent region closed and duplicate-free; it succeeds if and only if the distinct missing subterms fit, and then exactly they are added |
| `TermStore.PromoteAll` | crates/leanr_kernel/src/env.rs:612-624 | the same for a list of terms, what they share counted once |
| `Environment.FieldsDetermine` | crates/leanr_kernel/src/env.rs:705-802 | the field walk skips no id of any kind of constant |
| `Environment.Resolve` | crates/leanr_kernel/src/env.rs:904-928 | a result exactly when every term of the constant is interned; it means the same, all in persistent ids |
| `Environment.ResolveAndCompare` | crates/leanr_check/src/schedule.rs:522-579 | accepts exactly when every regenerated constant means what some decoded constant means, and names that one |
| `Environment.AcceptedAt` | crates/leanr_check/src/schedule.rs:522-579 | each accepted name is that of a decoded constant that means what the regenerated one means |
| `Environment.PromoteInfo` | crates/leanr_kernel/src/env.rs:804-818 | the promoted constant means the same in persistent ids; promotion succeeds if and only if what is missing fits |
| `Environment.Env.AddCore` | crates/leanr_kernel/src/env.rs:557-582 | inserts one constant under its promoted name if and only if it fits; what was there keeps its meaning |
| `Environment.Env.AddDeclIn` | crates/leanr_kernel/src/env.rs:538-555 | the outcome is decided by what fits and by the kernel, asked about the very same terms; the constants are the old ones with the first survivors inserted in order, each with its meaning: all of them on success, none when the check fails, those that fitted when the store fills up |
| `Environment.SensesAt` | crates/leanr_kernel/src/env.rs:549-551 | each inserted constant means what its survivor means |
| `Environment.InsertedLast` | crates/leanr_kernel/src/env.rs:578-582 | under an inserted name is the last constant inserted under it |
| `Environment.OthersKept` | crates/leanr_kernel/src/env.rs:578-582 | under any other name nothing changes |
| `HalfAdmission.Stays` | crates/leanr_kernel/src/env.rs:538-555 | a run that fails for lack of room and leaves one of two survivors in the constants; the kernel hands back the persistent ids it was asked with and one row of its own |
| `Descr.Cx.Interpret` | crates/leanr_grammar/src/descr.rs:86-247 | an `Ok` is the full inlining, an error means there is none, and its reason is there: a malformed part, an unknown or misused alias, a constant that is no parser, or a cycle; `visiting` is restored on every exit |
| `Descr.Cx.InterpretDecl` | crates/leanr_grammar/src/descr.rs:66-81 | the same for a constant; raw parsers, other types and non-definitions are skipped, each for its reason |
| `Descr.CycleNeverInlines` | crates/leanr_grammar/src/descr.rs:150-161 | nothing on a reference cycle has a full inlining |
| `Descr.InlineIsAcyclic` | crates/leanr_grammar/src/descr.rs:150-161 | a description with a full inlining reaches no reference cycle |
| `Descr.InterpretConstant` | crates/leanr_grammar/src/descr.rs:33-46 | terminates on every finite table; succeeds exactly when there is a full inlining, is leading or trailing as its type says, and then no reference cycle is reachable; the reason for an error is reachable from the constant |
| `Descr.DescribeReads` | crates/leanr_grammar/src/descr.rs:83-247 | reading back the description of a parser gives that parser, for every kind of parser |
| `Descr.ReadIsExpressible` | crates/leanr_grammar/src/descr.rs:83-247 | whatever is read can be described |
| `Descr.InterpretDescribed` | crates/leanr_grammar/src/descr.rs:33-81 | a constant that describes a parser is interpreted as that parser, leading or trailing by its type |
| `Descr.PlainReads` | crates/leanr_grammar/src/descr.rs:83-247 | trimming symbols and dropping transparent aliases first makes no difference |
| `Descr.UnfoldReads` | crates/leanr_grammar/src/descr.rs:150-161 | putting a parser constant's description in place of references to it makes no difference |
| `Cache.SoundAlways` | crates/leanr_build/src/cache.rs:30-62 | over every sequence of atomic writes and removals, blobs hash to their names |
| `CacheWriters.PublishedIsWhole` | crates/leanr_build/src/cache.rs:47-62 | over every interleaving of writers, crashes and lock-free removals, every published file is complete and is what its name says |
| `CacheWriters.OneHolder` | crates/leanr_build/src/cache.rs:50-51 | two writers of one path are never both between lock and unlock |
| `CacheWriters.WritersDeliver` | crates/leanr_build/src/cache.rs:47-62 | unless its blob is collected, the file is there when its writer is about to unlock, and a manifest that may replace one has |
| `CacheWriters.SomeWriterCanMove` | crates/leanr_build/src/cache.rs:50-51 | while a writer is not gone some writer can move |
| `CacheWriters.RunIsAtomic` | crates/leanr_build/src/cache.rs:47-62 | what is published after any interleaving is what a sequence of atomic steps makes, one for each rename and removal |
| `Cache.BlobStays` | crates/leanr_build/src/cache.rs:47-62 | a blob that is not removed is never rewritten |
| `Cache.ManifestStays` | crates/leanr_build/src/cache.rs:110-117 | a manifest that no remote replaces: only a verified insert changes it |
| `Cache.HitSurvives` | crates/leanr_build/src/cache.rs:119-143 | after a hit, with no collection of its blobs, materialising later finds bytes that hash to what the manifest says |
| `Cache.UncollectedIsPresent` | crates/leanr_build/src/cache.rs:136-142 | blobs that are there and not collected are found one by one whatever else happens in between |
| `Cache.CollectedIsAbsent` | crates/leanr_build/src/compile.rs:225-229 | a blob collected just before it is linked makes materialising fail although the lookup hit |
| `Cache.LinkedIsSound` | crates/leanr_build/src/cache.rs:163-181 | whenever its slot was linked, each destination hashes to what the manifest says |
| `Cache.LocalStore.LookupAmid` | crates/leanr_build/src/cache.rs:119-143 | with others at work, hits exactly when each blob is there when it is tested, and otherwise gives up at the first that is not |
| `Cache.PrimedStays` | crates/leanr_build/src/compile.rs:206-236 | a fitting hit stays one through other workers' steps |
| `Cache.Collect` | crates/leanr_build/src/cache.rs:266-297 | removes the shortest oldest-first prefix that brings the store under the cap; kept plus freed is the total |
| `Cache.LocalStore.Insert` | crates/leanr_build/src/cache.rs:89-108 | puts each blob in order, then the manifest, which always wins; the next lookup answers it |
| `Cache.StoppedAnywhere` | crates/leanr_build/src/cache.rs:110-113 | what the order is for: a writer of blobs and then the manifest may be stopped anywhere; what hit before still hits, and no manifest is left dangling that was not so before |
| `Cache.WovenInsert` | crates/leanr_build/src/cache.rs:89-108 | with other workers' steps before each of its own, an insert makes the next lookup answer its manifest unless one of its blobs is collected meanwhile |
| `Cache.WovenEntry` | crates/leanr_build/src/cache.rs:110-117 | the same for any writer of blobs and then a manifest: the blobs are there and some manifest is under the fingerprint |
| `Cache.LocalStore.Fetch` | crates/leanr_build/src/remote.rs:136-256 | hits if and only if the breaker has not tripped, a well-formed manifest with valid keys is served and every blob of it is there or served with bytes that hash to its key, and then counts the distinct new blobs; trips if and only if the manifest or the first blob that cannot be had fails in transport; whatever it comes to, every blob it stores was served under a key of the served manifest and hashes to that key; never replaces a manifest, changes none unless it hits |
| `Cache.LocalStore.Materialize` | crates/leanr_build/src/cache.rs:145-183 | with others at work, succeeds exactly on matching arity with each blob there at its turn, and writes each slot's blob to its destination and nothing else |
| `Cache.LocalStore.BuildModule` | crates/leanr_build/src/compile.rs:174-265 | with others at work between the steps: what the lookups answered, locally and after a fetch, decides; a fitting manifest is materialised or, exactly if one of its blobs is collected before its turn, the job fails; without one, with one of wrong arity or order, or under `force`, the compiler decides; a built module has the compiled artifacts under its fingerprint and the next build hits; a failed job leaves no artifact; what is materialised has exactly the module's artifacts in their order |
| `Cache.LocalStore.RebuiltOnce` | crates/leanr_build/src/compile.rs:206-236 | a manifest that does not fit is rebuilt once: the first build runs the compiler, and after any friendly steps of other workers the second one answers from the cache, with files that hash like the compiled ones unless another insert replaced them |
| `Cache.LocalStore.Gc` | crates/leanr_build/src/cache.rs:266-297 | the same over the blobs of the store |

## Left out

- Scheduler: weak memory ordering; steps are sequentially consistent, which the acquire and release orderings of the source are there to justify. Worker panics and poisoned mutexes are not modelled.
- Scheduler: the kernel check is an oracle with one verdict for each task, which runs at most once; it fails or admits exactly the names of its task; the comparison of regenerated constants it performs is modelled separately in `Environment`. The count of skipped unsafe and partial declarations is a filter over the table and is not modelled.
- SchedulerJoin.CheckParallel: after the blame loop finds no name the source falls back to other names; only the absence of a name is reported here. Spurious wake-ups are bounded by a parameter so that runs are finite.
- DepGraph: rendering names in error messages and timing output. The lookup of `Eq` by displayed name is a parameter.
- Pool: items out of range, which the source indexes with and callers exclude, are a precondition.
- Waves: module names in the reported cycle; ids stand for them.
- ImportGraph: file reading and header scanning are a table of headers or read errors. A frontier is a set of entries taken in the order of names; which importer is named when several import the same unresolved name is not determined. Name resolution over library roots is part of the table.
- Fingerprint: the JSON serialisation of setup inputs and declared inputs is a byte string; unreadable source files are not modelled. Byte strings are shorter than half the address space.
- Layout: widths beyond the signed machine word. The source's indentation addition panics in debug builds where the model, like release builds, wraps.
- MVars: `instantiate_mvars` is applied beforehand; its own errors are not modelled.
- Collector.Collect: the list of visited metavariables is a set, since the source only tests membership.
- ExprData: the mixer and the leaf hashes are arbitrary functions; guards inside level flags and level hashing are not modelled. Metadata maps and literals are compared as opaque values, including the pointer comparison of syntax values.
- ExprEq: pointer equality is a shortcut that may be taken for equal values only. The explicit-stack destructor is not modelled.
- NameStore: string and numeral pools; components are held by value. Running out of row ids is not modelled.
- Resolve: works on component lists rather than ids, which `NameStore` relates; local names, auxiliary recursors and `resolve_namespace` are not modelled.
- TermStore: names, levels and expressions share one table of rows; the recursion guard of the rebuild is not modelled.
- Environment: the kernel is a function from the promoted declaration to a verdict; quotient and inductive admission and name checks live inside it. The flag that quotients are initialised is not part of this environment.
- Descr: decoding application spines into constructor trees, interning of node kinds, and the alias table's contents.
- Cache: which file-system error occurred, permissions, and time stamps beyond an age; a writer that fails or dies is one that stops, leaving its temporary file. `verify` and the deep variant only report.
- Cache.LocalStore.BuildModule: other workers' steps come between the accesses of lookups and of materialising; inside an insert they enter through `WovenInsert`, inside a fetch only through `WovenEntry` for the steps it has taken. A compiler run is its outcome.
- The application elaborator, coercions, error text, the header scanner, configuration parsing, the command line, subprocesses, HTTP and compression.
