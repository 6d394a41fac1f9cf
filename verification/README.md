# Verified models of the course's concurrent and algorithmic programs

This project models the six parts of the repository whose behaviour is hard to see from reading one function,
and proves what they guarantee. `dafny verify dfyconfig.toml` checks it.

**The airport ring** (`AirportRing`, `AirportInvariants`, `AirportSafety`, `AirportProgress`, `AirportLosses`,
`AirportRunways`, `AirportRounding`, `AirportProcesses`, `CPool`, `CPoolBounds`, `CPoolProgress`,
`CPoolProcesses`). Ground control, the radio relay and air control exchange SIGUSR1 and SIGUSR2 while a pool of
controller threads shares two try-locked runways, one state lock and several unlocked reads. The model is a
transition system with one step per shared read, write, lock operation, `kill` and handler start; each process
has one pending bit per signal, because standard signals do not queue (section 2.4.1 of POSIX.1-2017, System
Interfaces). The number of threads, the limits and the batch size are parameters. The Python pool re-checks
`planes` under the lock and is exact; the C pool does not and may overshoot, by a bound that is reached; when it
can is an if-and-only-if. The ring's own defect is exhibited as well: signals can merge, and when too many
planes are lost the pool never finishes; for which configurations that cannot happen is exact, too.

**The scanning kernel of cpplint.py** (`Brackets`, `Matchers`, `MatcherTheorems`, `MatcherInverse`,
`MatcherInvariance`, `AngleTokens`, `AngleWords`, `AngleMatching`, `Preprocessor`, `PreprocessorTexts`,
`NestingStates`, `Nolint`, `LintRuns`, `BlockViews`, `ParallelRuns`, `LineOrder`, `LookAheads`, `Suppressions`).
The forward and the backward bracket matcher, the independent matcher `_GetTextInside`, the preprocessor stack
that saves and restores the nesting stack, and the table of NOLINT suppressions. From ( [ { the heuristics for
angle brackets never change what the matchers find; from `<` and `>` what they find is characterised exactly.
cpplint parses some lines ahead of their turn. A suppression for one line that this loses is always found again,
but a BEGIN or END parsed ahead can change what the blocks cover: a file is given, and it is proved for which
patterns of look-ahead no file can go wrong. The regular-expression tests are arbitrary predicates, except that
a match of `operator` forces the characters it consists of.

**The RLE codec** (`Rle`): round trip, canonical form, optimality.

**The prime work queue** (`Primality`, `Powers`, `PrimeWitness`, `PrimeQueue`, `PrimeQueueOutcomes`,
`PrimeProcesses`): one producer, a bounded FIFO queue, any number of workers, one pill per worker (the program
starts two). What goes wrong is part of the result: a number -1 in the input is a pill, and trial division
overflows for some large numbers, one of which is proved to be prime.

**Merge sort and median** (`MergeSort`, `MergeSortTheorems`, `MergeSortCost`, `Medians`): the in-place code
against the stable sort, with its exact worst case.

**The ticket office** (`TicketOffice`, `TicketLedger`, `TicketProcesses`): shared memory, a mutex, and a log of
fixed size that is safe only because tickets are conserved.

`Division` holds a few facts about quotients and multiples. Fields and loops are modelled as classes and
methods, each tied by its `ensures` to a function on values; the results about runs are lemmas about those
functions.

Where code and comment disagree, the model follows the code. The comment at
P1/PP1/air_control_c/src/functions.c:96-97 speaks of one signal to ground control, but lines 98-99 signal radio
and ground; the comment at P1/PP1/ground_control/src/main.c:28-32 makes the signal depend on the number of
waiting planes, but lines 34-36 ignore it.

## Model

| member | source | states |
|---|---|---|
| `AirportInvariants.StepKeepsInv` | P1/PP1/air_control_py/main.py:57-123 | every step of every process (each shared read, write, lock operation, `kill` and handler start) keeps the ring invariant: exact lock ownership, counters agreeing inside the critical section, every plane and takeoff signal accounted for, nobody leaving early |
| `AirportInvariants.ReachableInv` | P1/PP1/air_control_py/main.py:63-123 | the invariant holds in every state any interleaving of any length reaches, for any number of controllers |
| `AirportInvariants.WorkerKeepsInv` | P1/PP1/air_control_py/main.py:67-123 | a controller thread keeps the invariant although it tests `total_takeoffs` and `planes` without the lock |
| `AirportInvariants.HandlerKeepsInv` | P1/PP1/air_control_py/main.py:57-60 | the SIGUSR2 handler keeps the invariant, its load and store being separate steps under the lock |
| `AirportInvariants.SignalsKeepInv` | P1/PP1/radio/src/main.c:14-27 | relaying a signal keeps the invariant whether the signal arrives, merges into a pending one or hits a dead process |
| `AirportInvariants.AdmitKeepsInv` | P1/PP1/ground_control/src/main.c:38-41 | admitting a batch keeps the invariant; supply is never exceeded |
| `AirportSafety.AroundTheRing` | P1/PP1/air_control_py/main.py:57-107 | ground.takeoffs <= radio.takeoffs <= total_takeoffs <= planes + total_takeoffs <= radio.planes <= ground.planes <= supply in every reachable state, each hop charged with its pending signal; ground's `traffic` is never negative |
| `AirportSafety.PlanesAreConserved` | P1/PP1/radio/src/main.c:20-23 | every plane ground released is at exactly one place of the ring, has taken off, or was lost to a merged signal: an equation, not a bound |
| `AirportSafety.TrafficCounts` | P1/PP1/ground_control/src/main.c:33-33 | the traffic the timer computes is the planes on their way, waiting, lost or taking off, and the takeoffs ground control has not heard of |
| `AirportSafety.PoolCounters` | P1/PP1/air_control_py/main.py:86-107 | planes >= 0; planes + total_takeoffs (+1 while a takeoff is half recorded) = batch * handler runs; with `state_lock` free, takeoffs = total_takeoffs mod batch and total_takeoffs / batch signals were sent |
| `AirportSafety.MutualExclusion` | P1/PP1/air_control_py/main.py:76-86 | each of the three locks has at most one controller inside, and it is the recorded holder |
| `AirportSafety.AtMostTwoAirborne` | P1/PP1/air_control_py/main.py:76-116 | never are three controllers between acquiring and releasing a runway |
| `AirportRunways.TakesSecond` | P1/PP1/air_control_py/main.py:76-79 | a controller that finds runway one taken and runway two free holds runway two after its two tries |
| `AirportRunways.TwoOnRunwaysIff` | P1/PP1/air_control_py/main.py:75-116 | the bound of two is tight: some run has two controllers between acquire and release if and only if there are two and a plane is ever released |
| `AirportSafety.ReleasedByHolder` | P1/PP1/air_control_py/main.py:86-116 | a held lock changes only by becoming free, and only by a step of its holder |
| `AirportSafety.LeavingMeansLossless` | P1/PP1/air_control_py/main.py:67-67 | whenever a controller has left its loop: total_takeoffs = supply, planes = 0, radio.planes = ground.planes = supply, no SIGUSR2 pending or being handled anywhere, none ever lost |
| `AirportSafety.StopIsPassedOn` | P1/PP1/radio/src/main.c:29-39 | a controller that has left has told radio to stop, and a radio that has stopped has told ground control |
| `AirportSafety.ExitTestPasses` | P1/PP1/air_control_py/main.py:119-123 | the second test of the limit never fails, so every controller that leaves sends SIGTERM |
| `AirportSafety.LossMeansNobodyLeaves` | P1/PP1/air_control_py/main.py:119-123 | once merged SIGUSR2 have lost so many planes that the limit is out of reach (one is enough when limit and supply are equal), no controller leaves its loop in any continuation of the run |
| `AirportSafety.LeavingTakesPlanes` | P1/PP1/air_control_py/main.py:67-67 | for any limit and supply: a controller that has left its loop implies limit <= total_takeoffs <= supply - planes lost |
| `AirportSafety.RadioStopsComplete` | P1/PP1/radio/src/main.c:29-39 | when radio can stop on SIGTERM its plane count is complete; its takeoff count never exceeds the supply |
| `AirportSafety.LossIsPossible` | P1/PP1/radio/src/main.c:20-23 | some run loses planes to a merged SIGUSR2 if and only if the supply is at least two batches |
| `AirportSafety.PlaneLossIff` | P1/PP1/ground_control/src/main.c:38-41 | a SIGUSR2 is lost exactly when the one before it is still pending or radio has stopped |
| `AirportSafety.TakeoffLossIff` | P1/PP1/radio/src/main.c:14-18 | a SIGUSR1 is lost exactly when the one before it is still pending or its target has stopped |
| `AirportProgress.NoDeadlock` | P1/PP1/air_control_py/main.py:67-123 | in every reachable state each unfinished controller can step or waits for `state_lock`, whose holder can step |
| `AirportProgress.HelpfulCloser` | P1/PP1/air_control_py/main.py:67-123 | from every state with enough planes left the chosen step is enabled, loses no plane and brings the end strictly closer (lexicographic measure) |
| `AirportProgress.HelpfulHears` | P1/PP1/radio/src/main.c:14-18 | and while radio runs that step loses no announcement of takeoffs |
| `AirportProgress.Finish` | P1/PP1/air_control_py/main.py:119-123 | a finite schedule, built from that measure, to all controllers done, every lock free, radio and ground control stopped; if radio was alive, ground control ends up knowing every whole batch of takeoffs not lost before |
| `AirportProgress.WholeRun` | P1/PP1/radio/src/main.c:29-39 | with limit and supply equal, some run of the whole ring stops everywhere with planes, takeoffs and all four counts at the supply |
| `AirportProgress.CanFinishIff` | P1/PP1/air_control_py/main.py:67-123 | for any limit and supply: from a reachable state the whole ring can still come to its end, radio and ground control stopped, if and only if limit <= supply - planes lost so far |
| `AirportProgress.CanFinishIffNothingLost` | P1/PP1/air_control_py/main.py:67-123 | with limit and supply equal, as the programs have them: if and only if no SIGUSR2 was lost so far |
| `AirportLosses.OneBatchSurvives` | P1/PP1/radio/src/main.c:20-23 | however many SIGUSR2 merge or hit a dead process, at least one batch of the planes released is never lost |
| `AirportLosses.AllButOneLost` | P1/PP1/ground_control/src/main.c:34-41 | and that is all one can be sure of: some run loses every batch but one |
| `AirportLosses.CanAlwaysFinishIff` | P1/PP1/air_control_py/main.py:67-123 | for every configuration: each reachable state can still finish if and only if the supply reaches the limit and so does a single batch (the programs' 20 and 5 do not) |
| `AirportRounding.RunsAsRounded` | P1/PP1/ground_control/src/main.c:38-41 | a supply that is not a whole number of batches reaches exactly the states of the supply rounded up, so all results above hold for that one |
| `AirportRounding.SupplyIsKeptIff` | P1/PP1/ground_control/src/main.c:38-41 | ground control releases less than one batch too much, and never exceeds the supply if and only if it is a whole number of batches |
| `AirportProcesses.GroundControl.Traffic` | P1/PP1/ground_control/src/main.c:27-43 | the handler on ground's fields is the run timer, admit and, when it sends, announce of the ring, its signal delivered; it sends exactly when fewer than the limit were released |
| `AirportProcesses.GroundControl.SigHandler1` | P1/PP1/ground_control/src/main.c:126-130 | a caught SIGUSR1 is the ring's counting step |
| `AirportProcesses.RadioRelay.SigHandler1` | P1/PP1/radio/src/main.c:14-18 | counting and relaying a takeoff batch: the run of the ring's two steps, with the SIGUSR1 it returns delivered to ground |
| `AirportProcesses.RadioRelay.SigHandler2` | P1/PP1/radio/src/main.c:20-27 | counting and relaying a plane batch likewise, with the SIGUSR2 to air control; the warning comes at the latest when ten planes wait there |
| `AirportProcesses.AirControl.Sigusr2Handler` | P1/PP1/air_control_py/main.py:57-60 | with the lock free, the method is the run of the handler's five steps, from taking the signal to giving the lock back |
| `AirportProcesses.AirControl.Takeoff` | P1/PP1/air_control_py/main.py:86-107 | atomicity: the critical section with the re-check is the run of the controller's steps from taking the lock to giving it back, its signal delivered; planes + total is conserved and radio is signalled exactly at every batch-th takeoff |
| `CPoolProcesses.AirControl.Takeoff` | P1/PP1/air_control_c/src/functions.c:87-103 | atomicity of the section without the re-check against the steps of the C pool, with both signals, to radio and to ground |
| `CPoolProcesses.AirControl.SigHandler2` | P1/PP1/air_control_c/src/functions.c:53-58 | the C handler is the C pool's delivery step |
| `CPool.WorkKeepsInv` | P1/PP1/air_control_c/src/functions.c:61-121 | every step of a controller keeps the C pool's invariant: exact ownership of the state lock and of both runways, exact batches, one SIGTERM for each controller that has left, and one possible overshoot per thread past each of the two unlocked tests |
| `CPoolBounds.BoundedOvershoot` | P1/PP1/air_control_c/src/functions.c:66-71 | total_takeoffs <= limit + N - 1 and planes >= 1 - N for N threads |
| `CPoolBounds.BatchesExact` | P1/PP1/air_control_c/src/functions.c:94-101 | with `state_lock` free: takeoffs = total mod batch, and radio and ground each got total / batch signals (so ground, which also hears the radio, counts twice); the exit test at line 116 always succeeds |
| `CPoolBounds.OvershootIsReached` | P1/PP1/air_control_c/src/functions.c:66-112 | when ground control sends at most k batches, some run reaches both bounds at once if and only if the limit is a whole number of batches and k batches reach it, as configured |
| `CPoolBounds.OvershootsIff` | P1/PP1/air_control_c/src/functions.c:66-71 | with at most k batches, for any limit and batch size: the pool can exceed its limit if and only if k >= 1, there are two controllers or more, and batch * k + N - 1 > limit |
| `CPoolBounds.GoesNegativeIff` | P1/PP1/air_control_c/src/functions.c:67-67 | with at most k batches, `planes` can go below zero if and only if k >= 1, there are two controllers or more, and batch < limit + N - 1 |
| `CPoolBounds.TotalIsReachedIff` | P1/PP1/air_control_c/src/functions.c:66-90 | with at most k batches, limit + N - 1 takeoffs are attained if and only if batch * k >= limit |
| `CPoolBounds.AllBalances` | P1/PP1/air_control_c/src/functions.c:53-90 | conservation: planes waiting, in the air and counted add up to the batches that the handler of the run has taken |
| `CPoolBounds.AsConfigured` | P1/PP1/air_control_c/src/functions.c:66-112 | five threads, limit 20: at most 24 takeoffs, at least -4 planes, and both are reached with the 20 planes that ground control sends |
| `CPoolProgress.RunwaysAreExclusive` | P1/PP1/air_control_c/src/functions.c:73-112 | each runway has at most one controller between acquire and release, the recorded holder |
| `CPoolProgress.AtMostTwoAirborne` | P1/PP1/air_control_c/src/functions.c:73-112 | never are three controllers on runways |
| `CPoolProgress.TakesSecond` | P1/PP1/air_control_c/src/functions.c:73-78 | a controller that finds runway one taken and runway two free holds runway two after its two tries |
| `CPoolProgress.TwoOnRunwaysIff` | P1/PP1/air_control_c/src/functions.c:73-112 | with at most k batches, two controllers can be on runways at once if and only if there are two and k >= 1 |
| `CPoolProgress.NoDeadlock` | P1/PP1/air_control_c/src/functions.c:66-121 | each unfinished controller can step or waits for `state_lock`, whose holder can step |
| `CPoolProgress.CanFinish` | P1/PP1/air_control_c/src/functions.c:66-121 | while batches keep coming, every reachable state can still finish: all controllers done, every lock free, one SIGTERM from each |
| `CPoolProgress.FinishesIff` | P1/PP1/air_control_c/src/functions.c:66-121 | with at most k batches the pool can finish if and only if k >= 1 and batch * k + N - 1 >= limit: up to N - 1 takeoffs can be made with planes that do not exist |
| `Matchers.FindEndOfExpressionInLine` | PP2/test/cpplint.py:2230-2305 | the loop computes the recursive specification of the forward matcher, branch by branch |
| `Matchers.CloseExpression` | PP2/test/cpplint.py:2308-2349 | resumes that matcher line by line; failure is reported as the source does |
| `Matchers.FindStartOfExpressionInLine` | PP2/test/cpplint.py:2352-2429 | the backward loop computes its specification, including the `->`, `>=`, `operator>` look-behind |
| `Matchers.ReverseCloseExpression` | PP2/test/cpplint.py:2432-2467 | resumes it line by line towards the start of the file |
| `Matchers.GetTextInside` | PP2/test/cpplint.py:5885-5905 | the expected-closer loop: the interior, or nothing |
| `Matchers.DropAngles` | PP2/test/cpplint.py:2267-2268 | popping angle entries leaves a prefix of the stack that no longer ends in one |
| `MatcherTheorems.EndInLineScans` | PP2/test/cpplint.py:2243-2305 | with its angle entries erased, the forward stack evolves like a plain bracket scanner through every `<`, `>`, `;` and `operator` branch |
| `MatcherTheorems.StartInLineScans` | PP2/test/cpplint.py:2368-2429 | the backward matcher is the same scanner run on the mirrored text |
| `MatcherInverse.CloseFindsPairs` | PP2/test/cpplint.py:2308-2349 | from an opener the place returned is the one just past `e` exactly when the text between, brackets only, is a primitive balanced word |
| `MatcherInverse.ReverseFindsPairs` | PP2/test/cpplint.py:2432-2467 | from a closer likewise, backwards |
| `MatcherInverse.MatchersAreInverse` | PP2/test/cpplint.py:2308-2467 | CloseExpression at (l, p) gives (l', e) if and only if ReverseCloseExpression at (l', e-1) gives (l, p), over any lines and characters |
| `MatcherInverse.CloseInFile` | PP2/test/cpplint.py:2333-2349 | a place that is returned is a place in the file |
| `MatcherInverse.ReverseInFile` | PP2/test/cpplint.py:2452-2467 | likewise backwards |
| `MatcherInvariance.CloseSeesBracketsOnly` | PP2/test/cpplint.py:2243-2305 | two files with the same brackets at the same places get the same answer, whatever else differs, the regex tests included |
| `MatcherInvariance.ReverseSeesBracketsOnly` | PP2/test/cpplint.py:2368-2429 | likewise backwards |
| `MatcherInvariance.AngleErasure` | PP2/test/cpplint.py:2256-2301 | replacing every `<`, `>` and `;` by a neutral character changes no position found, in either direction |
| `MatcherInvariance.MatchersAgree` | PP2/test/cpplint.py:5885-5905 | `_GetTextInside` ends where FindEndOfExpressionInLine ends, and gives nothing exactly when that one mismatches or stays open |
| `AngleTokens.EndInLineFollows` | PP2/test/cpplint.py:2243-2305 | with `<` pending, a line is read like this: outside brackets angle brackets are counted, a `;` or a stray closer ends the search, inside brackets only brackets matter |
| `AngleTokens.StartInLineFollows` | PP2/test/cpplint.py:2368-2429 | likewise backwards with `>` pending, `->`, ` >= `, `operator>` and `<<` being passed over |
| `AngleWords.PartnerIff` | PP2/test/cpplint.py:2249-2301 | the partner so found is the first `>` before which the brackets balance, the angle brackets outside them nest, and no statement ends |
| `AngleMatching.CloseFindsAngles` | PP2/test/cpplint.py:2308-2349 | over any lines: CloseExpression from a `<` that starts a template argument list returns exactly the place past that `>`, or fails if there is none |
| `AngleMatching.ReverseFindsAngles` | PP2/test/cpplint.py:2432-2467 | ReverseCloseExpression from a `>` likewise, in the backward reading |
| `AngleMatching.AnglesAreInverse` | PP2/test/cpplint.py:2308-2467 | on every file whose angle brackets are no operators the two matchers invert each other from any `<` and any `>` |
| `AngleMatching.OperatorsAreOneWay` | PP2/test/cpplint.py:2377-2383 | a line with ` >= ` on which they do not |
| `Brackets.ScanFindsPrimitive` | PP2/test/cpplint.py:2243-2305 | the scanner closes after n characters exactly when those form, brackets only, one primitive word of the grammar |
| `Brackets.BalancedMirror` | PP2/test/cpplint.py:2352-2429 | balanced words are closed under mirroring, which is what makes scanning backwards sound |
| `Preprocessor.BranchesInvisible` | PP2/test/cpplint.py:3387-3441 | for every well-nested text, deleting all branches but the first leaves nesting stack and preprocessor stack as they were |
| `Preprocessor.RunText` | PP2/test/cpplint.py:3387-3441 | a well-nested text acts on the nesting stack through its first branches only and leaves the preprocessor stack untouched |
| `Preprocessor.RunOthers` | PP2/test/cpplint.py:3412-3423 | any number of further branches changes nothing that the matching #endif does not undo |
| `Preprocessor.BranchesIndependent` | PP2/test/cpplint.py:3422-3423 | inside any branch at any depth the nesting stack is what first branches before it and the lines of the branch itself make of it |
| `PreprocessorTexts.AnyText` | PP2/test/cpplint.py:3387-3441 | for any sequence of lines, well nested or not: stray #else and #endif change nothing, and the nesting stack at the end is what the branches open there make of it |
| `NestingStates.NestingState.UpdatePreprocessor` | PP2/test/cpplint.py:3387-3441 | on the real stacks of shared, mutable blocks the method does what the value model does: its deep copies keep checkpoints apart from the live stack |
| `NestingStates.NestingState.BeginIf` | PP2/test/cpplint.py:3408-3411 | pushes a checkpoint that later changes of the stack do not reach |
| `NestingStates.NestingState.SaveBeforeElse` | PP2/test/cpplint.py:3415-3420 | remembers the stack at the first #else only |
| `NestingStates.NestingState.RestoreBeforeIf` | PP2/test/cpplint.py:3422-3423 | goes back to the stack before the #if, keeping the checkpoint usable for the next #elif |
| `NestingStates.NestingState.EndIf` | PP2/test/cpplint.py:3427-3441 | keeps the first branch's stack and drops the checkpoint |
| `NestingStates.NestingState.CountOpenParentheses` | PP2/test/cpplint.py:3447-3453 | updates the innermost block in place and reaches no checkpoint |
| `NestingStates.NestingState.Push` | PP2/test/cpplint.py:3655-3655 | adds a new innermost block and reaches no checkpoint |
| `NestingStates.NestingState.Pop` | PP2/test/cpplint.py:3443-3445 | removes the innermost block and reaches no checkpoint |
| `NestingStates.DeepCopy` | PP2/test/cpplint.py:3411-3411 | a copy with equal contents and only new blocks |
| `Nolint.TableExact` | PP2/test/cpplint.py:1013-1045 | for every history of directives, in any order: the table covers exactly the lines that some directive covers in that order and does not lose, a directive being lost where the open block swallowed it and then ended too early |
| `Nolint.ExactIff` | PP2/test/cpplint.py:1013-1045 | for every history, the table is exact for all categories and lines if and only if every line swallowed by the open block and past its END is covered by a directive that is not lost |
| `Nolint.MetAgainExact` | PP2/test/cpplint.py:1137-1185 | a condition on the directives alone: the answer for a line is what the history says when each directive for it that reaches past the next END is met again later |
| `Nolint.TameExact` | PP2/test/cpplint.py:1030-1040 | no line is lost from what a history says, in the order given, when no END comes before a line suppressed since its BEGIN |
| `Nolint.InOrderExact` | PP2/test/cpplint.py:1030-1040 | in particular for directives in line order, nested BEGINs included |
| `Nolint.StoredOnce` | PP2/test/cpplint.py:1177-1183 | a directive changes the list of a category as one call would, in whatever order and how often its categories come |
| `Nolint.UnnestedStart` | PP2/test/cpplint.py:1030-1034 | without nesting, the open block starts at its own BEGIN |
| `Nolint.OutOfOrderLoses` | PP2/test/cpplint.py:1013-1016 | run on a concrete history out of order, the table loses a suppression |
| `LintRuns.RunIsExact` | PP2/test/cpplint.py:7429-7453 | for every file, header guard and look-ahead: for every line its main loop has reached, the table answers what the directives say in the order in which cpplint parsed them; no suppression for one line stays lost |
| `LintRuns.AskedAheadExact` | PP2/test/cpplint.py:5125-5130 | likewise for the closing brace that CheckTrailingSemicolon reports on, asked right after that line was parsed ahead |
| `LineOrder.RunFollowsLines` | PP2/test/cpplint.py:7429-7453 | for every file: when no BEGIN or END is parsed ahead of another one (but the one in the line before it, parsed together with it), every line the main loop has reached is suppressed exactly as the file says read line by line |
| `LineOrder.InTurnFollowsLines` | PP2/test/cpplint.py:5125-5128 | in particular when no BEGIN or END is parsed before its own turn at all |
| `LookAheads.FollowsIffNear` | PP2/test/cpplint.py:5114-5130 | for a given pattern of closing braces looked at and a header guard that reads at most one line: every file is answered as it says line by line if and only if each of these braces is at most two lines below its opening brace and the guard reads no line below the first |
| `LookAheads.SpoiledIsWrong` | PP2/test/cpplint.py:1030-1040 | a closing brace three lines below or more always spoils some file: a BEGIN read with it joins the block that is open now |
| `LookAheads.JoiningIsWrong` | PP2/test/cpplint.py:2685-2685 | and so does a header guard that reads its #endif below the first line |
| `LookAheads.EndReadAhead` | PP2/test/cpplint.py:5127-5128 | a concrete file: an END read ahead suppresses a line that is in no block of the file |
| `LineOrder.LinesAreExact` | PP2/test/cpplint.py:1137-1185 | read line by line, the table itself answers what every file says, so the order of parsing alone is to blame |
| `BlockViews.ViewExact` | PP2/test/cpplint.py:1013-1045 | what a history of any order says about a line, as a fold over the directives |
| `LintRuns.TurnMeetsAgain` | PP2/test/cpplint.py:5125-5128 | what CheckTrailingSemicolon parses too far ahead is parsed again, in the same turn or in a later one |
| `LintRuns.LostAndFound` | PP2/test/cpplint.py:5127-5128 | a run that really happens: a suppression further on is lost in the middle of it, and back once its line is reached |
| `Suppressions.Check` | PP2/test/cpplint.py:1137-1185 | for any history at all the objects answer what the value model reports, hence what the directives mean where the condition above holds; also where an unclosed block started |
| `Suppressions.ErrorSuppressions.IsSuppressed` | PP2/test/cpplint.py:1042-1045 | looks up own and general ranges: true exactly when the table covers the line |
| `Suppressions.ErrorSuppressions.StartBlockSuppression` | PP2/test/cpplint.py:1030-1034 | opens a block or joins the open one; the range object is shared between categories |
| `Suppressions.ErrorSuppressions.EndBlockSuppression` | PP2/test/cpplint.py:1036-1040 | shrinks the shared range in place: at once in the list of every category that has it, on any line |
| `Suppressions.ErrorSuppressions.AddSuppression` | PP2/test/cpplint.py:1013-1016 | appends the range exactly when the last one does not contain it |
| `Suppressions.ErrorSuppressions.AddLineSuppression` | PP2/test/cpplint.py:1026-1028 | stores or drops the range of one line |
| `Suppressions.ErrorSuppressions.AddGlobalSuppression` | PP2/test/cpplint.py:1022-1024 | stores or drops the range of the whole file |
| `Suppressions.ErrorSuppressions.Process` | PP2/test/cpplint.py:1137-1185 | one directive with any number of categories, on any line; what it complains about does not keep it from acting |
| `Suppressions.ErrorSuppressions.Clear` | PP2/test/cpplint.py:1051-1054 | an empty table |
| `Rle.CompressRLE` | Section5/H1/src/main.c:64-93 | the read loop writes the specified encoding and returns its exact size; the one-byte counter never wraps |
| `Rle.DecompressRLE` | Section5/H1/src/main.c:111-130 | the pair loop writes the specified decoding; its size is exact, or -1 on an odd byte with the complete pairs written |
| `Rle.RoundTrip` | Section5/H1/src/main.c:64-126 | decompress(compress(x)) = x for every byte string |
| `Rle.EncodeDecode` | Section5/H1/src/main.c:64-126 | compress(decompress(p)) = p for every canonical p |
| `Rle.OutputsAreCanonical` | Section5/H1/src/main.c:74-89 | a string is an output of CompressRLE if and only if its counts are at least 1 and a pair followed by the same byte has count 255 |
| `Rle.EncodedLength` | Section5/H1/src/main.c:74-92 | the length is twice the sum over maximal runs of ceil(length / 255) |
| `Rle.NoFewerPairs` | Section5/H1/src/main.c:114-126 | whatever decodes to a string, zero counts and split runs included, has at least that many pairs |
| `Rle.Optimal` | Section5/H1/src/main.c:64-93 | no string that decodes to x is shorter than compress(x) |
| `Primality.IsPrime` | Section2/L3/worker/src/main.c:13-20 | trial division agrees with the definition of primality for every integer; the last `i` at which the loop test is evaluated is known |
| `Primality.OverflowFree` | Section2/L3/worker/src/main.c:16-16 | for signed 64-bit numbers `i*i` stays in range if and only if the number is below 3037000499 squared or has a divisor up to 3037000499 |
| `PrimeQueue.StepKeepsInv` | Section2/L3/worker/src/main.c:38-57 | every send, receive and test keeps: messages leave in sending order, none lost or duplicated; stopped workers = pills taken; reported primes + primes under test = primes taken |
| `PrimeQueue.ReachableInv` | Section2/L3/main_program/src/main.c:64-89 | that invariant over all interleavings, any number of workers and any capacity |
| `PrimeQueueOutcomes.EveryRunEnds` | Section2/L3/main_program/src/main.c:64-92 | every run has at most 3 * (numbers + workers) steps; a finished one has exactly 3 * numbers + 2 * workers |
| `PrimeQueueOutcomes.StuckMeansStopped` | Section2/L3/worker/src/main.c:38-52 | the processes block each other exactly when all workers stopped and nothing is left or the queue is full |
| `PrimeQueueOutcomes.OneOutcome` | Section2/L3/worker/src/main.c:38-57 | all runs that can go no further took the same messages and reported the same numbers, whatever the interleaving |
| `PrimeQueueOutcomes.LeftBehind` | Section2/L3/main_program/src/main.c:80-89 | once all workers stopped, as many pills are left behind as the input had numbers equal to -1 |
| `PrimeQueueOutcomes.ExactlyOnce` | Section2/L3/worker/src/main.c:38-57 | in a finished run every message was taken once, by one worker; each worker took one pill, last; the reported numbers are the primes of the input with multiplicity |
| `PrimeQueueOutcomes.WorkersShareOut` | Section2/L3/worker/src/main.c:39-46 | what the workers took, added up, is what left the queue |
| `PrimeQueueOutcomes.StuckIsFinished` | Section2/L3/main_program/src/main.c:91-92 | a run that can go no further has finished if and only if -1 is not in the input |
| `PrimeQueueOutcomes.CanFinishIff` | Section2/L3/main_program/src/main.c:64-92 | the work can be finished at all if and only if -1 is not in the input |
| `PrimeProcesses.Producer.SendAll` | Section2/L3/main_program/src/main.c:64-89 | the two send loops, run until done or until the queue is full, take send steps of the model and lose nothing |
| `PrimeProcesses.Worker` | Section2/L3/worker/src/main.c:38-57 | the receive loop, run until a pill or an empty queue, takes receive and test steps of the model; it stops exactly when a pill was in the queue |
| `PrimeWitness.OverflowHappens` | Section2/L3/worker/src/main.c:16-16 | it does overflow: 9223372036032687667 is prime, a signed 64-bit value, and makes the loop test square a number past INT64_MAX |
| `PrimeWitness.DivisorsAreLarge` | Section2/L3/worker/src/main.c:16-16 | the certificate: modulo any divisor of that number a certain element has 3^20 different powers, so no divisor is up to 3037000499 |
| `Powers.OrderBoundsModulus` | Section2/L3/worker/src/main.c:16-16 | the step behind it: an element of order 3^t needs a modulus of at least 3^t |
| `MergeSort.Merge` | Section1/L1/src/functions.c:6-37 | in place, between untouched neighbours: the merged halves, with the number of comparisons |
| `MergeSort.MergeHeads` | Section1/L1/src/functions.c:21-28 | the comparing loop; on equal keys the left element goes first |
| `MergeSort.CopyRest` | Section1/L1/src/functions.c:31-32 | copies what is left of a half |
| `MergeSort.MergeSortRange` | Section1/L1/src/functions.c:40-49 | sorts [left, right] and leaves everything outside untouched; the number of comparisons is that of the specification |
| `MergeSort.SortArray` | Section1/L1/src/functions.c:52-54 | sorts the first `size` elements, empty arrays included |
| `MergeSort.CalculateMedian` | Section1/L1/src/functions.c:59-67 | the middle element or the mean of the two middle ones |
| `MergeSortTheorems.SortIsTheStableSort` | Section1/L1/src/functions.c:6-49 | the result is the only sorted sequence in which elements with equal keys keep their order |
| `MergeSortTheorems.SortPermutes` | Section1/L1/src/functions.c:6-49 | the result is a permutation of the input |
| `MergeSortTheorems.MergeStable` | Section1/L1/src/functions.c:23-27 | merging keeps equal keys in order, left half first |
| `MergeSortCost.MergeCostBound` | Section1/L1/src/functions.c:22-28 | one merge compares at most n - 1 times and at least as often as the smaller half is long |
| `MergeSortCost.AtMostNLogN` | Section1/L1/src/functions.c:40-49 | at most n * ceil(log2 n) - 2^ceil(log2 n) + 1 comparisons, hence at most n * ceil(log2 n) |
| `MergeSortCost.WorstCostClosed` | Section1/L1/src/functions.c:42-45 | that closed form is the exact solution of the ceil/floor recurrence |
| `MergeSortCost.CeilLogExact` | Section1/L1/src/functions.c:42-45 | the logarithm used is the rounded-up base-2 logarithm |
| `MergeSortCost.BoundIsReached` | Section1/L1/src/functions.c:40-49 | for every size some input needs exactly that many comparisons |
| `Medians.MedianHalves` | Section1/L1/src/functions.c:59-67 | at least half of the unsorted elements are at most the median and at least half are at least it |
| `Medians.MedianNegates` | Section1/L1/src/functions.c:59-67 | for every input, negating all numbers negates the median, so for an even size it leans to neither middle element |
| `Medians.MedianShifts` | Section1/L1/src/functions.c:59-67 | for every input, adding d to all numbers adds d to the median |
| `Medians.MedianInTheMiddle` | Section1/L1/src/functions.c:62-63 | it is equally far from both middle elements of the sorted array |
| `Medians.MedianOfPermuted` | Section1/L1/src/functions.c:59-67 | inputs with the same numbers in any order have the same median |
| `TicketOffice.TicketsAreConserved` | Section3/H1/buyer/src/functions.c:64-90 | over any interleaving of any number of buyers: available + sum(log[0..transactions]) = 100, every log write is in bounds, every report satisfies transactions <= 100 - available <= 5 * transactions |
| `TicketOffice.StepKeepsInv` | Section3/H1/buyer/src/functions.c:64-90 | every attempt, poll and report keeps the invariant behind that |
| `TicketLedger.EveryRunAsTold` | Section3/H1/buyer/src/functions.c:64-90 | told from the events of a run alone: the log is the list of the granted requests in order, the tickets left are 100 less their sum, every report says what was left and how many purchases there were, exactly the buyers who came when nothing was left have gone, and the office closes exactly at its fifth empty poll |
| `TicketLedger.EverybodyGoesHomeIff` | Section3/H1/ticket_office/src/main.c:28-45 | the office can close with everybody gone if and only if there is a buyer |
| `TicketOffice.RoomForSale` | Section3/H1/buyer/src/functions.c:75-78 | conservation alone leaves room in the log whenever a sale goes through |
| `TicketOffice.TransactionBounds` | Section3/H1/ticket_office/src/functions.c:56-60 | transactions <= tickets sold, and <= 5 times that the other way when no purchase exceeded 5 |
| `TicketOffice.LogSurvivesIff` | Section3/H1/buyer/src/functions.c:34-38 | for any set of requests: the log survives every sequence of purchases of these sizes if and only if all of them are positive; no upper limit is needed |
| `TicketOffice.NothingOverruns` | Section3/H1/buyer/src/functions.c:34-38 | the input that overruns it: 101 purchases of nothing |
| `TicketOffice.NeverReset` | Section3/H1/ticket_office/src/main.c:35-42 | along any run tickets never come back and `sold_out_count` never falls |
| `TicketOffice.ClosedMeansSoldOut` | Section3/H1/ticket_office/src/main.c:35-45 | the office closes only when everything is sold, with 20 to 100 transactions, after four or five SOLD OUT reports |
| `TicketOffice.BuyersLeaveWhenSoldOut` | Section3/H1/buyer/src/functions.c:69-73 | a buyer has left only if no ticket is left |
| `TicketOffice.RunToClosing` | Section3/H1/ticket_office/src/main.c:28-45 | from every reachable state with a buyer some schedule closes the office |
| `TicketOffice.ClosesIff` | Section3/H1/ticket_office/src/main.c:28-45 | the office can close if and only if there is a buyer |
| `TicketOffice.SinglesFillLog` | Section3/H1/buyer/src/functions.c:75-78 | the log is as small as it can be: every fill level up to all 100 entries is reached |
| `TicketProcesses.SharedMemory.InitializeSharedMemory` | Section3/H1/ticket_office/src/functions.c:40-53 | sets the struct, whatever it held, to 100 tickets, no transactions, a zeroed log |
| `TicketProcesses.SharedMemory.BuyTickets` | Section3/H1/buyer/src/functions.c:31-52 | for any request, positive or not, whenever the write it makes is inside the log: a granted request takes that many tickets and logs that number in the next entry, a refused one changes nothing; that is the model's sale, and a positive request keeps the struct conserved |
| `TicketProcesses.SharedMemory.BuyerTurn` | Section3/H1/buyer/src/functions.c:64-90 | one turn of the buyer's loop: leaves exactly when nothing is left, takes and logs exactly the number asked for when that many are left, and changes nothing otherwise; that is the model's attempt |
| `TicketProcesses.SharedMemory.TicketReport` | Section3/H1/ticket_office/src/functions.c:56-69 | the locked snapshot: transactions <= 100 - tickets, and SOLD OUT exactly when the log adds up to 100 |
| `TicketProcesses.OfficeLoop.PollTurn` | Section3/H1/ticket_office/src/main.c:31-42 | one poll is the model's poll, the break included |

## Left out

- AirportSafety.LeavingMeansLossless: takes a takeoff limit not below the supply, where the programs have both at 20; below it controllers may leave while planes still wait, and LeavingTakesPlanes says what still holds.
- AirportSafety.RadioStopsComplete: the same condition as for leaving; nothing is said about the number of takeoffs radio prints, because a pending SIGUSR1 can lose against SIGTERM.
- CPool.WorkKeepsInv: `planes += 5` of the handler and each counter update under the lock are one step each, and memory is sequentially consistent; in C the unlocked accesses are data races.
- TicketProcesses.SharedMemory.BuyTickets: the C code would write outside the log where the precondition fails; NothingOverruns has such a run. Nothing in the source calls it.
- LintRuns.RunIsExact: exact against what the directives say in the order in which they were parsed, which need not be what the file says line by line (EndReadAhead); LineOrder and LookAheads treat that. Lines ahead of the main loop other than the one asked about at once may be answered wrongly, as LostAndFound shows. The header guard is taken to read the same comment on a line as the main loop, although it reads the lines with raw strings removed.
- Nolint.TameExact: likewise exact against the order given.
- LookAheads.FollowsIffNear: for all files read with one pattern of look-ahead; for a single file RunFollowsLines gives a sufficient condition. A header guard of the wrong name reads its #ifndef line, too; for two lines there is that sufficient condition only.
- PrimeProcesses.Worker: runs alone until it blocks; interleavings with the others are covered by the transition system.
- PrimeProcesses.Producer.SendAll: likewise.
- Airport: startup before the three pids are stored, re-entrant delivery of SIGUSR2 inside the Python handler, CPython's own flag between kernel and handler, and the exit of the air process.
- Airport: timers and sleeps are free scheduling choices; printing, shared-memory set-up and clean-up are not modelled.
- AngleMatching.AnglesAreInverse: for files whose angle brackets are operators for neither matcher; OperatorsAreOneWay has a line on which they disagree.
- AngleMatching.CloseFindsAngles: a `<` that is the second half of `<<` or follows `operator`, taken as a start, is passed over by the matcher and not treated.
- AngleMatching.ReverseFindsAngles: likewise a `>` that belongs to `->`, ` >= ` or `operator>`.
- cpplint: everything a directive line does to the nesting stack besides UpdatePreprocessor, the rest of the linter, its error reports, and the parsing of NOLINT comments into type and categories.
- RLE: files that cannot be opened, write errors, and sizes past a signed 64-bit value.
- Prime queue: message formatting and parsing, and errors of the queue calls.
- Merge sort: `int` overflow of the median's sum and of index arithmetic, failing allocation, and CalculateMean.
- Ticket office: set-up and removal of the shared memory, attaching, printing and sleeping, and buyers that lock the mutex after the office destroyed it; critical sections are single steps.
- Horse race, homework H2, exam data processors, decoders and ciphers, floating-point programs and curses programs: unsynchronised or too simple to add a hard claim.
