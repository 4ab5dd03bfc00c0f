# Aether: a verified model of its decision logic

Aether watches the processes of a host as a graph, compiles alert rules to native code, analyses metric series,
groups and tracks findings, sends them to sinks, and lets a human approve what agents want to do. A Python
orchestrator in the same repository runs development sprints over a dependency graph. This project models the
logic of these parts in Dafny and proves what it promises. `dafny verify dfyconfig.toml` checks everything.

- **Rule compiler** (`Ast`, `Ir`, `Codegen`): a small SSA machine with the C layout of the process record, the
  emitters over a mutable function builder, and the theorem that compiled code computes what a rule means. Operator
  semantics for floats follow section 5.11 of IEEE 754-2019. The narrowing of 64-bit literals to 32 bits is an
  arbitrary function applied on both sides; integer literals are masked to the field's width as `iconst` does.
- **Parser and printer** (`Lexer`, `Grammar`, `Parser`, `Printer`, `ParseErrors`): the cursor-based parser equals
  functions over token positions; a printer is its inverse in both directions; errors and spans are true of the input.
- **Type checker** (`Types`): decides a typing judgement, and relates to what the code generator accepts.
- **Rule runtime** (`Runtime`, `RuleHistories`, `RuleNamesakes`, `RuleReloads`, `Clocks`): timers for conditions held
  continuously, over whole histories of checks and over series of evaluations, each with the rules then in force.
- **Sprint orchestrator** (`Executor`, `ExecutorSafety`, `ExecutorConfluence`, `ExecutorProgress`,
  `ExecutorTermination`, `ExecutorFairness`, `ExecutorShutdown`, `ExecutorLoops`): a state machine of dispatcher, workers, state file,
  stops, crashes and resumes, interleaved at every shared access; and the loops as written, over in-place records.
  Safety, confluence and fair termination hold with any interleaving, so also with those the state lock allows; where
  a schedule is constructed, no state file is written while the dispatcher scans (`Executor.Blocked`).
- **Analyzers** (`Sums`, `Series`, `Trend`, `TrendSamples`, `Correlation`, `Anomaly`): over exact reals, with the square root a
  parameter of which only its defining property is used.
- **Findings** (`Diagnostics`, `KeyedList`, `Correlator`, `Engine`, `Upsert`): grouping, carrying from tick to tick,
  and the capped list of the terminal.
- **Output pipeline** (`Pipeline`, `PipelineLoss`), **world graph** (`Graph`) and **approval queue** (`Arbiter`).

Clock readings, ids, the outcome of attempts and the stop flag are parameters. Maps and lists the original mutates
are fields that methods reassign; each such method is proved against a function of the old state, and the promises
are theorems about that function over whole runs.

## What the code does that its documentation does not say

- Compiled integer comparisons are signed although pid and memory size are unsigned; the exact condition under which
  they are true to the rule is proved (`Codegen.PidComparedTrulyExactly`, `Codegen.MemoryComparedTrulyExactly`).
- The checker and the code generator accept different conditions (`Types.CheckedNotCompiled`,
  `Types.CompiledNotChecked`); `rules/default.aether` uses fields the checker does not know.
- The parser reads an identifier spelled `process` before a dot like the keyword; round trips are stated up to that
  (`Printer.Normal`), which is the identity for a lexer that gives keywords priority.
- Duration rules with one name share a timer, and then fire too early or not at all; distinct names are exactly what
  prevents it (`RuleNamesakes.NamesDecide`, `RuleNamesakes.FiresKillAtOnce`). The tracker outlives a reload of the
  rules, so an edited rule goes on from the timer of its earlier version; when it keeps its meaning all the same is
  decided by `RuleReloads.ReloadsKeepExactly`.
- A finding that every sink refuses still silences its key for the dedup window (`PipelineLoss.SilencedByRefused`).
- A predicted time of 2^64 seconds or more is a panic (`Trend.TimeToThreshold`).
- A sprint stopped early can report success with pending tasks (`ExecutorTermination.StopReportsSuccess`; with
  no stop requested it never does: `ExecutorTermination.UnstoppedExitTellsTheTruth`), a merged but unsaved task is run again after a crash
  (`ExecutorSafety.MergedThenForgotten`), and cyclic dependencies are not detected: the run then waits, and acyclicity
  is exactly what lets it finish in every case (`ExecutorTermination.FinishesExactly`).
- A closure that changes a pid breaks the graph's index (`Graph.WorldGraph.UpdateProcess` gives the condition).
- In the causal pass a finding goes on pairing after it is marked used, so causal pairs may share their first
  finding (`Correlator.GroupsOverlapExactly`, `Correlator.LatencyPairsTwice`); the confidence filter at the end is
  without effect.

## Model

| member | source | states |
|---|---|---|
| Codegen.GenerateRule | crates/aether-script/src/codegen.rs:72-96 | succeeds exactly when the rule's condition, a duration around it or not, is in the compilable fragment and there is an action; the emitted code, run in any process state, returns (1, action, pid, severity) of the first action where the condition holds and zeros where it does not; otherwise the error is true of the leftmost comparison that does not compile, or says that there is no action |
| Codegen.PeelingKeepsMeaning | crates/aether-script/src/ast.rs:34-41 | taking the outer duration off changes neither what is accepted nor what the condition means in one state |
| Codegen.FailsOnBadLeaf | crates/aether-script/src/codegen.rs:203-358 | generation fails exactly where some comparison is not accepted, and the error is true of the leftmost such |
| Codegen.NarrowedLiteral | crates/aether-script/src/codegen.rs:334-358 | a literal that does not fit 32 bits is compared by the one signed 32-bit number that differs from it by a multiple of 2^32 |
| Codegen.FloatsComparedTruly | crates/aether-script/src/codegen.rs:372-382 | floats compare as numbers with the infinities at the ends; against NaN only `!=` holds |
| Codegen.RuleCorrect | crates/aether-script/src/codegen.rs:72-96 | the whole straight-line function, run on the IR machine in any state, never gets stuck and stores exactly the rule's outcome in the four result words |
| Codegen.ConditionCorrect | crates/aether-script/src/codegen.rs:276-331 | every accepted condition runs to its end, leaves all earlier SSA values alone and ends in exactly 1 where the condition holds and 0 where it does not; eager band, bor and bxor agree with and, or and not |
| Codegen.BothCorrect | crates/aether-script/src/codegen.rs:281-296 | evaluating both sides of a connective, left then right, yields both truth values as 0 or 1 with nothing disturbed |
| Codegen.LeafCorrect | crates/aether-script/src/codegen.rs:308-358 | a comparison loads its field, defines the literal and ends in the truth value of the source comparison, NaN and the literal's narrowing included |
| Codegen.CompilesExactly | crates/aether-script/src/codegen.rs:276-358 | code generation succeeds exactly on conditions whose leaves compare a known process field with a literal of that field's class, wherever it is emitted |
| Codegen.FieldTableMatchesLayout | crates/aether-script/src/codegen.rs:203-220 | every offset and type in the table is the one the C layout gives that field, so a load yields the named field in every state |
| Codegen.ComparisonTables | crates/aether-script/src/codegen.rs:361-382 | for every operator the integer and the float condition code mean what the operator means, unordered operands included |
| Codegen.ReturnCorrect | crates/aether-script/src/codegen.rs:225-249 | the epilogue writes match flag, action, pid and severity, each masked by the match flag, and returns |
| Codegen.PidComparedTrulyExactly | crates/aether-script/src/codegen.rs:361-370 | the signed comparison of the unsigned pid agrees with the rule, for every operator and every literal that fits, if and only if the pid's top bit is clear |
| Codegen.MemoryComparedTrulyExactly | crates/aether-script/src/codegen.rs:361-370 | the same for the 64-bit memory size: true to the rule for all operators and literals if and only if the top bit is clear |
| Codegen.HugeMemoryMissed | crates/aether-script/src/codegen.rs:361-370 | a concrete failure: a rule `mem_bytes > 0` compiles and is silent at 2^63 bytes |
| Codegen.EmitCondition | crates/aether-script/src/codegen.rs:276-305 | the recursive emitter appends exactly the code whose meaning is proved, and fails exactly where that code does not exist |
| Codegen.EmitReturn | crates/aether-script/src/codegen.rs:225-249 | the emitter appends exactly the epilogue proved correct, in that order |
| Ir.RunConcat | crates/aether-script/src/codegen.rs:72-96 | running code in two pieces is running it in one, so emitters compose |
| Parser.ParseTokens | crates/aether-script/src/parser.rs:36-48 | the imperative parser with its cursor and error list computes, for every token list, the result of the grammar functions; no index leaves the tokens and every loop ends |
| Parser.Parser.ParseRuleFile | crates/aether-script/src/parser.rs:113-122 | the top loop consumes tokens in every iteration, through recovery if need be, and collects the rules and errors of all attempts in order |
| Parser.Parser.ParseCondition | crates/aether-script/src/parser.rs:174-202 | one condition with its optional duration, or exactly one error at the place it was noticed |
| Parser.Parser.ParseNot | crates/aether-script/src/parser.rs:226-234 | chains of the word `not`, by recursion on what is left of the tokens |
| Parser.Parser.ParseAction | crates/aether-script/src/parser.rs:362-385 | one action with its message and severity, or exactly one error |
| Parser.Parser.RecoverToRule | crates/aether-script/src/parser.rs:102-109 | recovery stops at the next `rule` keyword or the end, skipping none |
| Printer.RoundTrip | crates/aether-script/src/parser.rs:36-48 | every canonical rule file, printed to tokens and parsed, comes back up to spans |
| Printer.ParseThenPrint | crates/aether-script/src/parser.rs:36-48 | whatever parses without error is canonical and prints to exactly the tokens it came from |
| Printer.AcceptsExactly | crates/aether-script/src/parser.rs:36-48 | the parser accepts a token list if and only if it is the printed form of a canonical file |
| Printer.ParseThenPrintPlain | crates/aether-script/src/parser.rs:36-48 | on tokens in which no identifier spells `process`, whatever parses prints to exactly the tokens given |
| Printer.PrintIsInjective | crates/aether-script/src/parser.rs:126-234 | two canonical files with the same tokens are the same up to spans: the grammar is unambiguous |
| Printer.AndForward | crates/aether-script/src/parser.rs:216-224 | parsing a printed left-nested conjunction brings the loop of `parse_and` to its end with the whole conjunction in hand |
| Printer.OrBackward | crates/aether-script/src/parser.rs:206-214 | a parsed disjunction is left-nested over conjunctions and prints to the tokens consumed |
| Printer.RuleBackward | crates/aether-script/src/parser.rs:126-170 | a parsed rule is canonical, has an action and prints to the tokens consumed |
| Grammar.AttemptsCover | crates/aether-script/src/parser.rs:102-122 | rule attempts go strictly forward and every `rule` keyword of the input starts one: none is swallowed by an attempt or skipped by recovery |
| Grammar.OneErrorPerFailure | crates/aether-script/src/parser.rs:113-122 | each failed attempt contributes exactly one error and each other attempt exactly one rule |
| ParseErrors.ErrorsTellTheTruth | crates/aether-script/src/parser.rs:56-100 | every error of a file stands, with the span of the token there or of the end of the input, at a place where its message is true: what it found is there and what it expected is not; no two errors stand at one place, and they come in order |
| ParseErrors.SpansCoverRules | crates/aether-script/src/parser.rs:126-170 | every parsed rule has the span from its `rule` keyword to its closing brace, and the rules follow one another |
| ParseErrors.TokensAreRead | crates/aether-script/src/parser.rs:236-385 | operator, severity, literal and action tokens are read as what they are named after |
| Types.Check | crates/aether-script/src/types.rs:146-156 | a file is accepted exactly when every rule is well typed; otherwise every error of every rule is returned, in order |
| Types.CheckerDecidesTyping | crates/aether-script/src/types.rs:165-223 | the checker reports nothing on a condition if and only if the typing judgement holds at every leaf |
| Types.LeafDecided | crates/aether-script/src/types.rs:183-223 | a comparison is accepted exactly when both sides have types of one kind and order is asked of numbers and durations only |
| Types.CompatibleIsSameKind | crates/aether-script/src/types.rs:52-70 | compatibility of types is the equivalence `of one kind` |
| Types.FileTyped | crates/aether-script/src/types.rs:146-163 | the error list of a file is empty if and only if all its rules are typed, messages of actions included |
| Types.OneErrorPerBadLeaf | crates/aether-script/src/types.rs:165-240 | a condition gets one error for each ill-typed comparison, from left to right, and each is true of its comparison: an unknown object or field is unknown, an operand said to be out of order or of another kind is |
| Types.ActionFault | crates/aether-script/src/types.rs:242-260 | an action gets an error exactly if its message is empty, and the one for its kind |
| Types.SharedExactly | crates/aether-script/src/types.rs:116-223 | a condition both type-checks and lies in the compilable fragment if and only if every leaf compares a process field known to both tables with a literal of its own number class |
| Types.BothAcceptExactly | crates/aether-script/src/codegen.rs:203-358 | the checker and the code generator both accept a condition if and only if all its leaves are such shared leaves, so each accepted condition over shared leaves compiles |
| Types.CheckedNotCompiled | crates/aether-script/src/codegen.rs:334-358 | an integer against a percentage field passes the checker and does not compile |
| Types.CompiledNotChecked | crates/aether-script/src/types.rs:92-123 | the process state against an integer compiles and does not pass the checker |
| Runtime.DurationTracker.CheckDuration | crates/aether-script/src/runtime.rs:52-68 | one check updates the timer of its key only and fires as the specification of one check says |
| Runtime.OneExactly | crates/aether-script/src/runtime.rs:52-147 | a plain rule fires exactly when its condition holds and leaves the timers alone; a duration rule stops its timer when the condition fails, starts it unless it runs when the condition holds, and fires exactly if it has run for the number of seconds asked for |
| Runtime.FiresExactly | crates/aether-script/src/runtime.rs:52-68 | over every history of checks, a check fires if and only if it is true and the time since the first true check after its key's last false one is at least the required time |
| Runtime.TimerMeansLastMet | crates/aether-script/src/runtime.rs:52-68 | a key has a running timer if and only if its last check was true, whatever other keys did |
| Runtime.TimerOfStreak | crates/aether-script/src/runtime.rs:52-68 | the timer holds the start reading of the first check of the current streak |
| Runtime.ElapsedIsDifference | crates/aether-script/src/runtime.rs:52-68 | under a clock that never goes back the saturating difference is the true one |
| Runtime.EvaluationExtendsHistory | crates/aether-script/src/runtime.rs:116-147 | evaluating a rule set after any history of checks extends that history by the set's own checks, in rule order |
| Runtime.CompiledRuleSet.Evaluate | crates/aether-script/src/runtime.rs:116-147 | with its own tracker a compiled set returns the actions its source rules call for: the same function of state, timers and clock as with a caller's tracker |
| Runtime.CompiledRuleSet.EvaluateWithTracker | crates/aether-script/src/runtime.rs:162-194 | the same function of state, timers and clock, on the caller's tracker |
| Runtime.CompileRules | crates/aether-script/src/runtime.rs:91-107 | a set compiles exactly when every rule does; otherwise the first failing rule's error is returned |
| RuleNamesakes.NamesDecide | crates/aether-script/src/runtime.rs:52-147 | without a reload, for duration rules that ask for some time in a condition that can hold: over every series of evaluations of any number of processes, under a clock that never goes back, every rule fires exactly on its own condition, if and only if the names of the duration rules are distinct |
| RuleHistories.FiresOnOwnCondition | crates/aether-script/src/runtime.rs:52-147 | without a reload, a duration rule that shares its name with no other fires in an evaluation if and only if its own condition holds and has held, in every evaluation of that process, for at least the required time; nothing is asked of the other rules |
| RuleHistories.FiresOnName | crates/aether-script/src/engine.rs:107-132 | across reloads, the one duration rule of a name fires in an evaluation if and only if the rules that went by the name have held, in every evaluation of that process that had one, for at least the time the present rule asks |
| RuleHistories.FiresIfFollowed | crates/aether-script/src/engine.rs:107-132 | where each earlier version held exactly when the present rule would have, and the rule would have held wherever a set in between lacked it, it fires exactly on its own condition |
| RuleReloads.ReloadsKeepExactly | crates/aether-script/src/hot_reload.rs:103-118 | a rule that asks for some time fires truly to its own condition over every series of evaluations in which given rule sets are in force in turn, if and only if, for every process it can hold for, each earlier set had its name with an agreeing condition, or had it not, and then no set before did or the condition always holds |
| RuleReloads.StartsOver | crates/aether-script/src/engine.rs:107-132 | for any two versions and a state that only the later one holds in: a series in which the time since the earlier version held nothing is not counted, and the rule stays silent |
| RuleReloads.InheritsTime | crates/aether-script/src/engine.rs:107-132 | for any two versions and a state that only the earlier one holds in: a series in which the rule fires at once on the earlier version's time |
| RuleReloads.RunsOnUnseen | crates/aether-script/src/engine.rs:107-132 | a timer runs on while the rule is not loaded: put back, it fires though its condition failed in between |
| RuleHistories.TimerIsNamed | crates/aether-script/src/runtime.rs:52-147 | if each set in force has at most one duration rule of a name, the shared timer map holds, for any process, exactly the timer those rules alone would keep, whatever the other rules do |
| RuleHistories.FiringIsReported | crates/aether-script/src/runtime.rs:116-147 | an evaluation reports the actions of the rules that fire, in rule order |
| RuleNamesakes.FiresTooEarly | crates/aether-script/src/runtime.rs:52-68 | a rule whose namesake's condition also holds can fire at the first evaluation its own condition ever held in |
| RuleNamesakes.NeverFires | crates/aether-script/src/runtime.rs:52-68 | a rule whose namesake's condition is false does not fire though its own condition held long enough |
| RuleNamesakes.NamesakeLendsTime | crates/aether-script/src/runtime.rs:52-147 | for any two namesakes: time gathered while only the second held lets the first fire at once when its condition first holds |
| RuleNamesakes.FiresKillAtOnce | crates/aether-script/src/runtime.rs:52-147 | a concrete input: a rule that asks for 60 seconds fires its kill action (which then waits in the approval queue) at the first evaluation its condition held in |
| RuleNamesakes.NamesakeSilences | crates/aether-script/src/runtime.rs:52-147 | a concrete shape of the opposite: while the second of two namesakes does not hold, the first starts afresh in each evaluation and stays silent |
| ExecutorSafety.StepInv | tools/orchestrator/executor.py:365-476 | every step of dispatcher, worker, stop or crash-and-resume keeps the invariant of the whole machine |
| ExecutorSafety.RunSafe | tools/orchestrator/executor.py:393-476 | in every state of every run, stops, crashes and resumes included: what ran had all its known dependencies passed, what was skipped had one failed or skipped, no two workers hold one task, nothing held is queued and nothing is queued twice, and no task exceeds three attempts |
| ExecutorSafety.FinalStays | tools/orchestrator/executor.py:426-463 | passed, failed and skipped are never left: on disk through any number of crashes, in memory within a session |
| ExecutorSafety.EnqueuedOnce | tools/orchestrator/executor.py:438-455 | between two crashes no task is put on the queue twice |
| ExecutorSafety.CrashKeepsExactly | tools/orchestrator/state.py:153-158 | a finished task survives a crash and resume if and only if its status had been written |
| ExecutorSafety.MergedThenForgotten | tools/orchestrator/executor.py:323-331 | a concrete run: a crash between merge and save sends a passed task back to pending |
| ExecutorSafety.OnlyUnsavedIsLost | tools/orchestrator/executor.py:252-358 | over every run, crashes included, the status of a finished task is in the state file unless a worker stands right before writing it; a crash while no worker does loses no finished task |
| ExecutorSafety.DepsExactly | tools/orchestrator/executor.py:440-447 | a task waits for all tasks of the sprint whose ids it lists, and is broken by one of them failed or skipped |
| ExecutorShutdown.SavesExactly | tools/orchestrator/executor.py:252-455 | the state file is written, whole, when an attempt begins, a task ends or is skipped, and when a stop is seen; no other step touches it |
| ExecutorShutdown.AtWorkIsMarked | tools/orchestrator/executor.py:252-265 | over every run, a task whose agent is at work is marked running in the state file with its attempt number |
| ExecutorShutdown.NothingStartsAfterStop | tools/orchestrator/executor.py:365-378 | once a stop is requested, no worker starts another task until the run is entered again |
| ExecutorShutdown.PoolCanStop | tools/orchestrator/executor.py:463-468 | over every run, when the dispatcher has exited the queue holds a sentinel for every worker not yet stopped, and never more than one for each worker |
| ExecutorConfluence.Confluent | tools/orchestrator/executor.py:393-476 | over an acyclic sprint, any two finished sessions with the same outcomes end in the same statuses and the same return value, whatever the interleaving and the number of workers |
| ExecutorConfluence.Deterministic | tools/orchestrator/executor.py:426-463 | at any moment of any session, stopped or not, a decided task has the one status the dependency graph and the outcomes dictate |
| ExecutorConfluence.FinishedSprint | tools/orchestrator/executor.py:440-455 | in a finished sprint a task is skipped if and only if a known dependency failed or was skipped, and otherwise passed if one of its three attempts could be merged and failed if not |
| ExecutorConfluence.OutcomeExactly | tools/orchestrator/executor.py:232-346 | a task left to itself passes exactly if a worktree is made and one of three attempts is merged with nothing but missing changes, failed tests or renewed conflicts before it; otherwise it fails |
| ExecutorTermination.Progress | tools/orchestrator/executor.py:426-463 | in every state of every run on an acyclic sprint, crashes and resumes included, in which no stop was requested since the run was last entered: while a task is undecided some enabled sequence of steps, respecting the state lock, lowers the work left, whatever the outside answers |
| ExecutorTermination.CanFinish | tools/orchestrator/executor.py:426-476 | from every such state, fresh or resumed, the run can be played to the regular exit with every task decided |
| ExecutorTermination.RunGood | tools/orchestrator/executor.py:393-476 | in every such state nothing admitted is lost, no sentinel is out early and the pool is up |
| ExecutorFairness.FairRunsFinish | tools/orchestrator/executor.py:393-476 | every infinite run on an acyclic sprint without stop or crash, under any schedule that neglects neither the dispatcher nor a worker with something to do, reaches the regular exit with every task decided, and then reports success exactly when every task passed |
| ExecutorTermination.FinishesExactly | tools/orchestrator/executor.py:426-463 | a new sprint can be finished whatever the outside world answers if and only if its dependencies are acyclic |
| ExecutorProgress.StepLowers | tools/orchestrator/executor.py:232-463 | no step outside a crash adds work, and each step that moves a task on removes some |
| ExecutorProgress.WorkIsBounded | tools/orchestrator/executor.py:252-358 | a crash-free session moves tasks on at most thirteen times per task, however long it runs |
| ExecutorProgress.PoolIsNonEmpty | tools/orchestrator/executor.py:406-408 | the pool has a worker for each pending task without listed dependencies, but at least one and at most four |
| ExecutorTermination.CycleNeverRuns | tools/orchestrator/executor.py:426-463 | over every run, stops, crashes and resumes included, tasks that wait for each other are never begun: each stays pending, or is skipped, and skipped only after a task outside the set on which one inside depends failed or was skipped; until then the run is not done |
| ExecutorTermination.RankOrCycle | tools/orchestrator/executor.py:440-447 | every sprint either has acyclic dependencies or a non-empty set of tasks that wait for each other |
| ExecutorTermination.RegularExitTellsTheTruth | tools/orchestrator/executor.py:457-476 | over every run, stops, crashes and resumes included: at the regular exit every task is decided and the value returned is true exactly when every task passed |
| ExecutorTermination.UnstoppedExitTellsTheTruth | tools/orchestrator/executor.py:426-476 | over every run, crashes and resumes included: at any exit with no stop requested the value returned is true exactly when every task passed |
| ExecutorTermination.StopExitTellsTheTruthExactly | tools/orchestrator/executor.py:429-476 | the exit a stop request takes is taken with the request pending; there the value, as computed from any statuses, tells whether every task passed if and only if every task is decided or some task failed or was skipped; a false report of success has a task pending or running |
| ExecutorTermination.StopReportsSuccess | tools/orchestrator/executor.py:429-476 | every sprint with a task in it has a run that is stopped before anything starts and exits with success and every task pending |
| ExecutorLoops.SweepIsDispatching | tools/orchestrator/executor.py:436-455 | one pass of the dispatcher's loop is a sequence of dispatcher steps of the machine |
| ExecutorLoops.ViewSweepIsDispatching | tools/orchestrator/executor.py:436-455 | the pass over the task records, which have no pool, is that same sequence of steps beside any pool, in every state a run without a stop request can be in |
| ExecutorLoops.SweepIgnoresPool | tools/orchestrator/executor.py:436-455 | a pass neither looks at the pool and the stop flag nor changes them |
| ExecutorLoops.SweepSettles | tools/orchestrator/executor.py:436-455 | a pass admits exactly the open tasks whose dependencies have passed and skips those whose dependencies were broken when it began |
| ExecutorLoops.Orchestrator.ScanTasks | tools/orchestrator/executor.py:436-455 | the loop over the task records, with statuses, queue and state file updated in place, does exactly that pass |
| ExecutorLoops.Orchestrator.ExecuteTask | tools/orchestrator/executor.py:232-358 | the retry loop makes attempts until one is merged, times out or cannot be repeated, a stop is seen, or three were made; the record then has the number of the last one and is passed if that was merged, running if a stop was seen, failed otherwise; no other record changed |
| ExecutorLoops.Orchestrator.RecoverCrashed | tools/orchestrator/state.py:153-158 | recovery turns running into pending and touches nothing else |
| Trend.LinearRegression | crates/aether-analyze/src/analyzers/trend.rs:113-148 | no line has a smaller sum of squared residuals; with two different x values no other line is as good and the residual sum is the variation of y times (1 - r-squared); r-squared lies in [0, 1] |
| Trend.FitIsBest | crates/aether-analyze/src/analyzers/trend.rs:136-147 | the residual of any line exceeds that of the fitted one by a sum of squares, zero only for the same line |
| Trend.VerticalFitIsBest | crates/aether-analyze/src/analyzers/trend.rs:132-134 | with a single x value the horizontal line through the mean is as good as any |
| Trend.CentredSums | crates/aether-analyze/src/analyzers/trend.rs:123-130 | the accumulation loop computes the three centred sums |
| Trend.Classify | crates/aether-analyze/src/analyzers/trend.rs:45-80 | a spike is reported exactly when the last value exceeds the mean by more than three standard deviations, which takes at least eleven points; growth and decline exactly when the optimal line moves by a thousandth of the mean per second and misses the points by less than half their variation; oscillation never |
| Trend.TimeToThreshold | crates/aether-analyze/src/analyzers/trend.rs:33-42 | there is an outcome other than none exactly when the metric is below the threshold and its optimal line rises; then a time after which the slope arrives at the threshold, or, exactly if 2^64 seconds of the slope do not go past it, the panic of the conversion |
| Series.WindowedExactly | crates/aether-analyze/src/analyzers/trend.rs:84-97 | the window keeps, in order, exactly the samples no more than the window older than the latest |
| TrendSamples.PointsExactly | crates/aether-analyze/src/analyzers/trend.rs:84-106 | of samples in time order the window yields one point each with its value, the first at time zero and any two as far apart as the samples were taken |
| TrendSamples.LinearSamples | crates/aether-analyze/src/analyzers/trend.rs:45-148 | samples in time order on a line get exactly its slope, and count as growing or declining exactly if the slope is up or down by at least a thousandth of the mean per second |
| TrendSamples.LinearApproach | crates/aether-analyze/src/analyzers/trend.rs:33-42 | such samples approach a threshold exactly if the slope is up and the last value below it |
| TrendSamples.LoneJumpSpikes | crates/aether-analyze/src/analyzers/trend.rs:45-64 | values of which only the last differs end in a spike exactly if there are at least eleven of them |
| Sums.CauchySchwarz | crates/aether-analyze/src/analyzers/correlation.rs:35-51 | the square of a dot product is at most the product of the two sums of squares |
| Sums.Samuelson | crates/aether-analyze/src/analyzers/anomaly.rs:135-143 | among n numbers that sum to zero, n times each square is at most n - 1 times the sum of squares |
| Sums.DeviationBound | crates/aether-analyze/src/analyzers/anomaly.rs:19-43 | any sample's squared deviation is at most n - 1 population variances |
| Sums.ThreeSigmaNeedsEleven | crates/aether-analyze/src/analyzers/trend.rs:45-64 | more than three standard deviations above the mean takes at least eleven samples |
| Sums.LoneJumpExceedsExactly | crates/aether-analyze/src/analyzers/trend.rs:45-64 | eleven is sharp: a lone jump after k equal samples exceeds three standard deviations if and only if the window has at least eleven samples |
| Correlation.Pearson | crates/aether-analyze/src/analyzers/correlation.rs:24-52 | the coefficient lies in [-1, 1]; its square times both variations is the squared covariance sum, and its sign that sum's; zero when one side does not vary |
| Correlation.AlignSamples | crates/aether-analyze/src/analyzers/correlation.rs:101-130 | exactly the samples with a partner in the window are paired, in order, each with the nearest one, the later on ties |
| Correlation.Correlate | crates/aether-analyze/src/analyzers/correlation.rs:24-52 | the Pearson coefficient of the aligned pairs |
| Anomaly.ZScore | crates/aether-analyze/src/analyzers/anomaly.rs:22-37 | z times the standard deviation is the last value's distance from the mean, zero for values that hardly vary, and z squared never exceeds n - 1 |
| Anomaly.IsOutlierZScore | crates/aether-analyze/src/analyzers/anomaly.rs:40-43 | flags exactly the last values more than the threshold of standard deviations from the mean; three sigma takes at least eleven samples |
| Anomaly.ComputeStddev | crates/aether-analyze/src/analyzers/anomaly.rs:135-143 | the non-negative number whose square is the population variance, zero below two values |
| Pipeline.OutputPipeline.DispatchOne | crates/aether-output/src/pipeline.rs:40-102 | one dispatch updates the dedup and rate maps and hands out the finding as the specification of one dispatch says |
| Pipeline.ForgettingIsInvisible | crates/aether-output/src/pipeline.rs:40-102 | though only the last pass per key and pruned delivery times are kept, every dispatch of every run under a non-decreasing clock is decided as if the whole past were at hand |
| Pipeline.RateBound | crates/aether-output/src/pipeline.rs:72-88 | over every run no more dispatches than the limit reach a sink in any half-open 60 seconds |
| Pipeline.PassesExactly | crates/aether-output/src/pipeline.rs:47-60 | a dispatch passes dedup if and only if every earlier passed dispatch with its target and category lies at least the window back |
| Pipeline.DeliveredExactly | crates/aether-output/src/pipeline.rs:67-99 | a sink receives a dispatch if and only if it passed dedup, the finding is severe enough (a Critical sink takes only Critical ones, a Warning sink all but Info, an Info sink all) and fewer dispatches than the limit reached the sink in the 60 seconds before; the sinks are served in their order, each once |
| PipelineLoss.NothingLostExactly | crates/aether-output/src/pipeline.rs:47-99 | under a clock that never goes back no finding is ever dropped as a duplicate that a sink would have taken and no sink got of its key within the window, if and only if the window is zero, the limit is zero or there are no sinks |
| PipelineLoss.SilencedByRefused | crates/aether-output/src/pipeline.rs:47-60 | for every other configuration a run in which a finding that all sinks refuse silences the next of its key |
| PipelineLoss.NothingLostWhenDelivered | crates/aether-output/src/pipeline.rs:47-99 | in any run in which every finding that passed the check reached a sink, nothing is lost |
| Pipeline.RecentTwice | crates/aether-output/src/pipeline.rs:79-80 | pruning at one moment never changes what pruning at a later moment leaves |
| Pipeline.Retain | crates/aether-output/src/pipeline.rs:79-80 | the in-place retain keeps exactly the recent timestamps, in order |
| Correlator.Correlate | crates/aether-analyze/src/analyzers/correlator.rs:40-127 | the three greedy passes, the early return and the confidence filter together yield the groups specified pass by pass |
| Correlator.GroupsAreSound | crates/aether-analyze/src/analyzers/correlator.rs:40-127 | every group has at least two strictly increasing positions, all within 60 s of its first and with a fitting cause and confidence; two groups share nothing but, if both are causal, a first position; a finding is marked used exactly when it is in some group |
| Correlator.UngroupedAreFarApart | crates/aether-analyze/src/analyzers/correlator.rs:99-122 | two findings left in no group are more than 60 s apart |
| Correlator.PassesAreMaximal | crates/aether-analyze/src/analyzers/correlator.rs:48-122 | the groups come causal, compound, temporal; of any two findings a pattern joins one is in a causal pair, of any two that form a compound issue one is in a causal or compound group, and each gathered group took all it could |
| Correlator.GroupsOverlapExactly | crates/aether-analyze/src/analyzers/correlator.rs:48-67 | said of the findings alone: call a finding a leader if no earlier leader is joined to it by a pattern; two groups share a finding if and only if some leader is joined to two later findings that no earlier leader is joined to |
| Correlator.UsedIsClaimed | crates/aether-analyze/src/analyzers/correlator.rs:48-67 | when the causal pass reaches a position, a finding from there on is marked used exactly when an earlier leader is joined to it |
| Correlator.LatencyPairsTwice | crates/aether-analyze/src/analyzers/correlator.rs:48-67 | a concrete overlap: latency beside a memory leak and heavy disk I/O gives two pairs that share the latency finding |
| Correlator.PatternFromExactly | crates/aether-analyze/src/analyzers/correlator.rs:161-175 | a scan of the table finds nothing exactly when no entry joins the two categories, and otherwise an entry's cause |
| Correlator.PatternsExactly | crates/aether-analyze/src/analyzers/correlator.rs:161-234 | two findings are joined exactly if they lie at most 60 seconds apart and one is, in the table of nine, the known cause of the other; no two patterns compete |
| Correlator.MatchesExactly | crates/aether-analyze/src/analyzers/correlator.rs:131-138 | the window is 60 seconds either way, and a compound issue is different trouble with one target within it |
| Correlator.AllConfident | crates/aether-analyze/src/analyzers/correlator.rs:124 | the confidence filter never removes a group |
| Correlator.FewFindings | crates/aether-analyze/src/analyzers/correlator.rs:41-43 | the early return agrees with the passes |
| Correlator.CauseIsSymmetric | crates/aether-analyze/src/analyzers/correlator.rs:161-175 | whether and how two findings are joined by a pattern does not depend on their order |
| Correlator.FindCausalPattern | crates/aether-analyze/src/analyzers/correlator.rs:161-175 | the scan of the table returns the first pattern joining the pair within the time window |
| Correlator.CausalPassSound | crates/aether-analyze/src/analyzers/correlator.rs:48-67 | the causal pass, in which a finding goes on pairing after it is used, keeps groups sound and leaves no joined pair of free findings |
| Graph.WorldGraph.AddProcess | crates/aether-core/src/graph.rs:29-38 | the process map gains or replaces exactly this pid, connections stay, a known pid keeps its index, and the index stays a bijection onto live nodes |
| Graph.WorldGraph.RemoveProcess | crates/aether-core/src/graph.rs:41-48 | the process map loses exactly this pid and the connections exactly those touching it |
| Graph.WorldGraph.UpdateProcess | crates/aether-core/src/graph.rs:51-55 | the graph stays consistent if and only if the closure keeps the pid of a process it is applied to, and then exactly that process changes |
| Graph.WorldGraph.AddConnection | crates/aether-core/src/graph.rs:59-68 | an edge is added, last, exactly when both pids are known |
| Graph.WorldGraph.FindByPid | crates/aether-core/src/graph.rs:71-73 | the lookup agrees with the plain map |
| Graph.WorldGraph.ApplySnapshot | crates/aether-core/src/graph.rs:136-170 | afterwards the processes are the snapshot's last-wins map and the connections exactly its edges with both ends present, whatever was there before; surviving processes keep their index |
| Graph.UntouchedAvoids | crates/aether-core/src/graph.rs:41-48 | removing the edges at a node index is removing the connections at its pid |
| Graph.AvoidingExactly | crates/aether-core/src/graph.rs:41-48 | removing a process removes exactly the connections at it, as often as they are there |
| Graph.AvoidingConcat | crates/aether-core/src/graph.rs:41-48 | and the other connections keep their order |
| Graph.EveryRunCoherent | crates/aether-core/src/graph.rs:29-170 | after every sequence of operations whose updates keep pids, processes are filed under their own pid and every connection joins two known processes |
| Graph.LastWinsExactly | crates/aether-core/src/graph.rs:137-138 | in the collected map a pid's process is the one at its last position |
| Graph.ResolvedExactly | crates/aether-core/src/graph.rs:165-169 | each snapshot edge becomes a connection as often as it is listed if it has a destination and both ends are known, and never otherwise |
| Graph.ResolvedConcat | crates/aether-core/src/graph.rs:165-169 | they come in the order of the list |
| Graph.SnapshotRoundTrip | crates/aether-core/src/graph.rs:136-170 | a coherent state whose connections describe themselves, listed as a snapshot and applied to any graph, comes back unchanged |
| Engine.DiagnosticEngine.Absorb | crates/aether-analyze/src/engine.rs:232-258 | a tick leaves the active list specified and severity counts that are right and sum to its length |
| Engine.TickExactly | crates/aether-analyze/src/engine.rs:232-252 | after a tick the keys are distinct and exactly the new ones; an entry keeps all of the old one (or of the first new one) but takes evidence, severity and recommendation from the last new one with its key |
| Engine.TicksExactly | crates/aether-analyze/src/engine.rs:232-252 | over every run of ticks an entry's identity, summary and detection time are those of the finding that began its key's unbroken streak, and its evidence, severity and recommendation those of the last finding |
| Engine.CountExactly | crates/aether-analyze/src/engine.rs:383-399 | a severity count is the number of positions with that severity |
| Diagnostics.KeyTellsBoth | crates/aether-analyze/src/engine.rs:413-415 | two findings are the same issue exactly if target and category agree |
| Diagnostics.RankOrders | crates/aether-core/src/models.rs:136-145 | Info is below Warning and Warning below Critical |
| Engine.RetainedExactly | crates/aether-analyze/src/engine.rs:233-237 | resolving keeps exactly the entries whose key is among the new ones, as they were |
| Engine.DiagnosticEngine.UpdateSeverityCounts | crates/aether-analyze/src/engine.rs:383-399 | each counter is the number of active findings of its severity, and together they are all of them |
| KeyedList.MergeExactly | crates/aether-analyze/src/engine.rs:239-252 | the merge loop, told without the loop: old entries stay in place and take up the last new one of their key, followed by the new keys in order of first appearance |
| Upsert.DiagnosticList.UpsertDiagnostics | crates/aether-terminal/src/main.rs:1091-1109 | the in-place upsert, stable sort and drain leave the merged list, capped |
| Upsert.CapKeepsWorst | crates/aether-terminal/src/main.rs:1104-1108 | kept and evicted together are the list as a multiset; 200 stay, or all, untouched, when there are no more; nothing kept is less severe than anything evicted, and of equal severity the earlier positions go; keys stay distinct |
| Upsert.UpsertExactly | crates/aether-terminal/src/main.rs:1094-1103 | before the cap every key of either list is there once, with the last new finding of the key or else the old one; the capped list has distinct keys and at most 200 entries |
| Upsert.RunStaysCapped | crates/aether-terminal/src/main.rs:1091-1109 | over every run of batches the list has distinct keys and at most 200 entries |
| Upsert.SortedIsStable | crates/aether-terminal/src/main.rs:1105 | findings of equal severity keep their order in the sorted list |
| Upsert.SortedPermutes | crates/aether-terminal/src/main.rs:1105 | sorting loses and adds nothing |
| Arbiter.ArbiterQueue.Approve | crates/aether-core/src/arbiter.rs:51-61 | the first pending entry with the id moves to the end of the history as approved and its action is returned, or an error and no change |
| Arbiter.ArbiterQueue.Deny | crates/aether-core/src/arbiter.rs:64-73 | the first pending entry with the id moves to the end of the history as denied, or an error and no change |
| Arbiter.ArbiterQueue.DrainApproved | crates/aether-core/src/arbiter.rs:78-90 | the approved actions are returned in history order and exactly the denied entries remain, in order |
| Arbiter.DrainInOrder | crates/aether-core/src/arbiter.rs:78-90 | a drain takes the approved entries out where they stand, in their order, and the rest keep theirs |
| Arbiter.ArbiterQueue.Submit | crates/aether-core/src/arbiter.rs:110-124 | the action enters last among the pending with the pid a kill or an inspection names, and 0 for a restart or a script |
| Arbiter.Executor.Tick | crates/aether-terminal/src/main.rs:304-326 | a tick of the executor runs exactly the drained actions, in order |
| Arbiter.EveryEntryInItsPlace | crates/aether-core/src/arbiter.rs:37-90 | over every run with fresh ids each entry is once in exactly the one place its fate (read off the operations alone) tells: pending, approved, denied or drained; denied entries are never drained |
| Arbiter.DrainsFollowApprovals | crates/aether-core/src/arbiter.rs:51-90 | what was drained followed by what is approved and waiting is what was approved, once each in order of approval |
| Arbiter.ExecutedInOrder | crates/aether-terminal/src/main.rs:304-326 | an executor that ran what was drained has, after its next tick, run exactly the approved actions in order of approval |

## Left out

- Cranelift itself: instruction selection, register allocation, JIT memory, function-pointer calls and the separate
  verifier pass; the machine interprets only the instructions the generator emits.
- The lexer: parsing starts from tokens. Error texts are structured values; their wording is not modelled, nor is
  the wording of correlation causes, of recommendation notes and of skip reasons.
- Rounding of floating-point arithmetic in the analyzers, and subtraction of a window that reaches before the
  clock's origin.
- The interquartile, percentile and change-point analyses, `find_correlated`, `interpret` and `correlation_note`:
  they would add only easy members.
- Concurrent `dispatch` calls: the pipeline's claims are for dispatches one after another. Delivery to a sink is
  the list of sinks chosen; sending, its failures and the debug formatting of dedup keys are not modelled.
- Locks, channels and asynchronous scheduling of the Rust parts: their critical sections are single method calls.
- In the orchestrator: git, agents, prompts, events, log files, quota waits and error strings; the state file is
  written in one step; task ids are assumed distinct and workers do not die of uncaught exceptions.
- The watcher that reloads rules and its debouncing: a reload is a change of the rule set between two evaluations. The
  forwarder that puts a rule's action into the approval queue as a script is not modelled.
- Ids of submitted actions are parameters; that they are never handed out twice is a premise of the theorems on runs.
- Iteration order of the graph's edges: a ghost list records the order of insertion instead.
- The rule engine, recommendation generator, PromQL parser, probes, discovery, storage, network and user interface:
  findings and metric samples are arbitrary inputs.
- Wrap-around of 32-bit counters (statistics of the engine), which would take four thousand million findings.
