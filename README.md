# BetterHostedServices: the supervised runner and the periodic scheduler

This project models the core of BetterHostedServices, a .NET library of hosted services, and
proves properties of that model. The core has three parts.

- **`CriticalBackgroundService`** (`supervision.dfy`, module `Supervision`) runs one
  long-lived unit of work, the subclass's `ExecuteAsync`.
  - If the work faults before it first suspends, the fault is handed straight back to the
    caller of `StartAsync`.
  - If it faults later, a continuation registered with the stopping token reports it through
    `OnError`, which is meant to shut the application down.
  - `StopAsync` cancels the stopping token, then waits for the work or for the stop deadline.
    It never rethrows the work's exception.
  - `Dispose` cancels the token.

  The module has three layers:
  - pure step functions over a `Runner` value (`Started`, `Complete`, `Stopped`, `Disposed`);
  - lemmas over arbitrary event traces: the invariant is preserved, each task is escalated at
    most once, cancellation silences escalation, and the stop conditions hold;
  - a `class` whose methods update the fields as the C# object does. Each method is proved
    equal to its step function.
- **`PeriodicTaskRunnerBackgroundService`** (`periodic.dfy`, module `Periodic`) is a supervised
  work unit.
  - First it probes its task factory. If the factory cannot resolve the task type, it logs a
    critical message and throws.
  - Then it loops until the stopping token is cancelled. Each pass obtains a fresh periodic
    task and awaits it. An exception is logged and then, depending on the failure mode, sent
    to `OnError` (CrashApplication) or logged as a warning (RetryLater). A delay follows.

  `ExecuteAsync` is a method with the source's `while` loop. It is proved equal to the
  specification function `Execute`, and the lemmas about `Execute` state what the loop does:
  counts of each kind of step, their order, and how the loop ends.
- **The test doubles** (`test_classes.dfy`, module `TestClasses`):
  - `SingletonStateHolder` is a class with a one-shot "called five times" signal;
  - three periodic tasks with fixed behaviours;
  - the scenarios that the integration tests run with them.

`tasks.dfy` (module `Tasks`) holds the shared values: how a .NET task ends (`Ok`,
`Fault(message)`, `Cancelled`) and a task handle's status.

How each source concept is modelled:

- **Suspension** is a `Launch`. It says how a subclass's `ExecuteAsync` hands control back:
  - it returned a completed, faulted or cancelled task;
  - it returned a task that is still running (`Pending`);
  - a non-async method threw before it returned any task (`ThrowsBeforeTask`).

  A running task later ends through a `CompleteEvent`. Its continuation runs as part of that
  step.
- **The stopping token as the loop sees it**: never cancelled, cancelled before the loop test
  of iteration `k`, or cancelled while iteration `k` runs. In the last case that iteration's
  `Task.Delay` ends cancelled.
- **The task factory**: whether it can resolve the type, and the outcome of each task it hands
  out, in order.
- **`PeriodicTaskFailureMode`** is a `newtype` over `int` with `CrashApplication = 1` and
  `RetryLater = 5`. The loop tests the two values with two independent `if`s, so any other
  value of the enum only logs the error.

Where the code and its documentation differ, the model follows the code:

- The comment on `CrashApplication` (`src/PeriodicTaskFailureMode.cs:8-12`) describes the
  application crashing. The loop itself does not stop after `OnError`: with an injected
  `OnError` that returns, the next iteration still runs (`Periodic.CrashApplicationKeepsLooping`).
- `catch (Exception)` also catches the `TaskCanceledException` of a periodic task that honours
  the stopping token. Under CrashApplication, stopping during an execution therefore calls
  `OnError` (`Periodic.TaskCancellationIsEscalated`).
- `OnError` in `src/CriticalBackgroundService.cs:22-27` calls `Environment.Exit`, and the base
  class in this revision has only a parameterless constructor. Yet
  `PeriodicTaskRunnerBackgroundService` and the test services pass an `IApplicationEnder` to
  `base(...)`, and the tests override `OnError` to call `ShutDownApplication`. The model
  follows that revision: `OnError` is an injected callback that records the escalation, and
  "shutdown requested" means it has been called at least once.
- A non-async `ExecuteAsync` that throws (`ImmediatelyCrashingCriticalBackgroundService`)
  makes `StartAsync` throw before `_executingTask` is assigned. The runner then counts as
  never started, and a later `StopAsync` returns at once.

## Model

| member | source | states |
|---|---|---|
| Supervision.Started | src/CriticalBackgroundService.cs:33-42 | the returned task becomes `_executingTask` and is appended to the tasks, with earlier tasks unchanged; it is still running exactly when the work suspended; a throwing `ExecuteAsync` leaves the runner unchanged; the token and the escalations are untouched |
| Supervision.StartResult | src/CriticalBackgroundService.cs:38-56 | `StartAsync` succeeds when the work suspended; otherwise the caller sees the completed task's own outcome, or the exception thrown before any task existed |
| Supervision.Complete | src/CriticalBackgroundService.cs:47-53 | completing task `i` sets its status and changes no other task, the handle or the token |
| Supervision.CompleteEscalation | src/CriticalBackgroundService.cs:47-53 | completing task `i` adds one `OnError` call for `i` exactly when it faulted before the token was cancelled, and none for any other task |
| Supervision.Stopped | src/CriticalBackgroundService.cs:63-75 | `StopAsync` cancels the token exactly when the runner was started, and changes nothing else |
| Supervision.Disposed | src/CriticalBackgroundService.cs:83-86 | `Dispose` cancels the token and changes nothing else |
| Supervision.ApplyPreservesInv | src/CriticalBackgroundService.cs:33-86 | every operation keeps the invariant: the handle names a task, each task is escalated at most once, and only completed tasks are escalated |
| Supervision.RunPreservesInv | src/CriticalBackgroundService.cs:33-86 | the invariant holds after any valid sequence of starts, completions, stops and disposals |
| Supervision.SyncStartReturnsTask | src/CriticalBackgroundService.cs:38-42 | a task that completed before `StartAsync` inspected it is returned as is: its status is the outcome the caller observes |
| Supervision.CompletedTaskIsFinal | src/CriticalBackgroundService.cs:47-53 | a completed task never changes again, and no further `OnError` call is made for it, on any trace |
| Supervision.SyncStartNeverEscalates | src/CriticalBackgroundService.cs:38-53 | a task that completed synchronously never reaches `OnError`, whatever happens afterwards |
| Supervision.PendingTaskEscalation | src/CriticalBackgroundService.cs:44-53 | a task still running when `StartAsync` returned reaches `OnError` exactly once if it faults before the token is cancelled, and never otherwise, on any later trace |
| Supervision.CancellationSilencesEscalation | src/CriticalBackgroundService.cs:47-53 | once the token is cancelled it stays cancelled, and no further `OnError` call happens |
| Supervision.StopBeforeFaultIsSilent | src/CriticalBackgroundService.cs:71-75 | a `StopAsync` or `Dispose` before a running task faults keeps that fault away from `OnError` |
| Supervision.StopCompleted | src/CriticalBackgroundService.cs:78-79 | the `Task.WhenAny` wait is over when there was no task to wait for, the deadline has fired, or the awaited task has completed with any outcome (its properties are the `Stop…` lemmas below) |
| Supervision.StopResult | src/CriticalBackgroundService.cs:78-79 | awaiting `StopAsync` yields nothing while the wait goes on and success once it is over, since `Task.WhenAny` never rethrows the finished task's exception |
| Supervision.StopWithoutStart | src/CriticalBackgroundService.cs:65-69 | `StopAsync` on a runner that was never started changes nothing and finishes at once |
| Supervision.StopWaitsForWorkOrDeadline | src/CriticalBackgroundService.cs:71-80 | on a started runner, `StopAsync` cancels the token and finishes exactly when the awaited task has completed or the deadline has fired |
| Supervision.StopFinishesWhenWorkCompletes | src/CriticalBackgroundService.cs:78-79 | a stop waiting on a running task is not finished, and it finishes successfully once that task completes with any outcome |
| Supervision.StopCompletionIsStable | src/CriticalBackgroundService.cs:78-79 | a finished stop stays finished on every later trace |
| Supervision.DisposeIsIdempotent | src/CriticalBackgroundService.cs:83-86 | a second `Dispose` changes nothing, and a stop after a disposal leaves the token cancelled |
| Supervision.CriticalBackgroundService.constructor | src/CriticalBackgroundService.cs:11-12 | a new service has no task, no handle, an uncancelled token and no escalations |
| Supervision.CriticalBackgroundService.OnError | src/CriticalBackgroundService.cs:22-27 | the injected callback as the continuation calls it (for a completed task not escalated before) records the escalation, keeps the invariant and changes nothing else |
| Supervision.CriticalBackgroundService.ShutdownRequested | tests/IntegrationUtils/ApplicationEnderMock.cs:5-6 | the test ender's `ShutDownRequested` flag: set once `OnError` has been called at least once |
| Supervision.CriticalBackgroundService.StartAsync | src/CriticalBackgroundService.cs:33-57 | the new state is `Started` of the old one, the result is `StartResult`, and the invariant is kept |
| Supervision.CriticalBackgroundService.CompleteTask | src/CriticalBackgroundService.cs:47-53 | the new state is `Complete` of the old one, and the invariant is kept |
| Supervision.CriticalBackgroundService.StopAsync | src/CriticalBackgroundService.cs:63-81 | the new state is `Stopped` of the old one, and the task returned for the wait is the one the handle named at the call |
| Supervision.CriticalBackgroundService.Dispose | src/CriticalBackgroundService.cs:83-86 | the new state is `Disposed` of the old one, and the invariant is kept |
| Periodic.PeriodicTaskRunnerBackgroundService.constructor | src/PeriodicTaskRunnerBackgroundService.cs:30-41 | the task type, failure mode and interval are the ones given |
| Periodic.PeriodicTaskRunnerBackgroundService.TryIteration | src/PeriodicTaskRunnerBackgroundService.cs:59-77 | the `try`/`catch` of one pass: obtain a task, await it, and on an exception log it, then call `OnError` under CrashApplication and warn under RetryLater |
| Periodic.PeriodicTaskRunnerBackgroundService.Iteration | src/PeriodicTaskRunnerBackgroundService.cs:57-80 | one pass of the loop body, delay included |
| Periodic.PeriodicTaskRunnerBackgroundService.ExecuteAsync | src/PeriodicTaskRunnerBackgroundService.cs:47-81 | the probe and the `while` loop produce exactly the trace `Execute` specifies |
| Periodic.FailureSteps | src/PeriodicTaskRunnerBackgroundService.cs:64-77 | the `catch` block: nothing for a success; for an exception an error log, then an `OnError` call under CrashApplication and a warning at the configured interval under RetryLater, tested by two independent `if`s (counted by `FailureCounts`) |
| Periodic.Loop | src/PeriodicTaskRunnerBackgroundService.cs:57-80 | the `while` loop from iteration `k`: the loop test, then one pass with the next task's outcome, whose delay either completes and the loop goes on or is cancelled and ends it (characterised by `LoopOutcomes` and `LoopEnding`) |
| Periodic.Execute | src/PeriodicTaskRunnerBackgroundService.cs:47-81 | the whole `ExecuteAsync`: the probe's critical log and throw, or the steps of every pass of the loop and how the loop ends (characterised by `ProbeFailureRunsNothing` and `ExecuteAfterProbe`) |
| Periodic.AsLaunch | src/PeriodicTaskRunnerBackgroundService.cs:49-80 | how the scheduler's task looks to `StartAsync` at src/CriticalBackgroundService.cs:36-42: faulted synchronously by the probe, completed when the first loop test sees the cancellation, and running otherwise, since the first delay suspends unless the token is already cancelled (tied to `Execute` by `LaunchAgreesWithExecute`) |
| Periodic.IterationSteps | src/PeriodicTaskRunnerBackgroundService.cs:59-79 | one pass of the loop body: obtain a task, execute it, the `catch` block's steps for its outcome, then the delay at the configured interval, completed or cancelled (counted by `IterationCount`, ordered by `IterationOrdered`) |
| Periodic.FinalOutcome | src/PeriodicTaskRunnerBackgroundService.cs:47-81 | how `ExecuteAsync`'s task ends: faulted by the probe's throw at line 54, completed when the loop test at line 57 exits, cancelled when the `TaskCanceledException` of the delay at line 79 escapes, and not yet ended while the loop runs |
| Periodic.StartedIterations | src/PeriodicTaskRunnerBackgroundService.cs:57-80 | the number of iterations started is at most the number of tasks handed out, no more than the iteration at which the loop test sees the cancellation, and at most one past the iteration whose delay is cancelled |
| Periodic.LoopOutcomes | src/PeriodicTaskRunnerBackgroundService.cs:57-80 | the loop starts exactly the iterations up to `StartedIterations`, each executing the next task the factory hands out |
| Periodic.LoopEnding | src/PeriodicTaskRunnerBackgroundService.cs:57-80 | the loop ends as `ExpectedEnding` says: a cancellation seen by the loop test ends it normally, a cancelled delay ends it cancelled; every delay but the last completes, and the last is cancelled exactly when the loop ends cancelled |
| Periodic.FailureCounts | src/PeriodicTaskRunnerBackgroundService.cs:64-77 | the catch block does nothing for a success, and for an exception logs one error, then calls `OnError` once under CrashApplication and warns once under RetryLater |
| Periodic.IterationCount | src/PeriodicTaskRunnerBackgroundService.cs:59-79 | each pass makes one factory call, one execution step (which carries the fault when `GetPeriodicTask` itself throws) and one delay, plus what the catch block does |
| Periodic.StepsCounts | src/PeriodicTaskRunnerBackgroundService.cs:57-80 | over any sequence of passes: factory calls, execution steps and delays each equal the number of passes; error logs equal the failed passes; `OnError` calls equal the failed passes under CrashApplication and are zero otherwise; warnings equal the failed passes under RetryLater and are zero otherwise |
| Periodic.IterationOrdered | src/PeriodicTaskRunnerBackgroundService.cs:59-79 | within a pass, a task is executed right after it is obtained, and the pass ends with its delay at the configured interval |
| Periodic.StepsOrdered | src/PeriodicTaskRunnerBackgroundService.cs:57-80 | across passes, every iteration after the first starts only after the previous delay completed, and every delay and warning uses the configured interval |
| Periodic.ProbeFailureRunsNothing | src/PeriodicTaskRunnerBackgroundService.cs:51-55 | an unresolvable task type ends `ExecuteAsync` with the "didn't registered in container" exception before any task is obtained, executed, escalated or delayed, whatever the failure mode |
| Periodic.ExecuteAfterProbe | src/PeriodicTaskRunnerBackgroundService.cs:57-80 | after a successful probe, `ExecuteAsync` logs nothing critical; it obtains a task, records one execution step and delays once per started iteration; it escalates or warns per failed iteration as the mode says; the steps are ordered; it ends as `ExpectedEnding` says, and never faulted: no periodic task's exception escapes the loop (only the delay's cancellation can end it by an exception) |
| Periodic.CrashApplicationKeepsLooping | src/PeriodicTaskRunnerBackgroundService.cs:68-71 | under CrashApplication, two failing tasks are both obtained and both escalated: the loop goes on after `OnError` |
| Periodic.TaskCancellationIsEscalated | src/PeriodicTaskRunnerBackgroundService.cs:64-71 | a periodic task cancelled by the stopping token is caught like any exception and, under CrashApplication, sent to `OnError` before the cancelled delay ends the loop |
| Periodic.UnnamedModeOnlyLogs | src/PeriodicTaskRunnerBackgroundService.cs:64-77 | a failure mode other than the two named values logs each failure and neither escalates nor warns |
| Periodic.SupervisedProbeFailure | src/PeriodicTaskRunnerBackgroundService.cs:49-55 | under the supervising runner, a probe failure is the result of `StartAsync` and never reaches `OnError` |
| Periodic.SupervisedLoopNeverFaults | src/PeriodicTaskRunnerBackgroundService.cs:57-80 | after a successful probe, with the scheduler's token being the runner's own, `StartAsync` succeeds; if the token was already cancelled the method finishes at once; otherwise the runner's continuation never calls `OnError` for the scheduler's own task |
| Periodic.LaunchAgreesWithExecute | src/PeriodicTaskRunnerBackgroundService.cs:47-81 | `AsLaunch`, the launch `StartAsync` sees, agrees with `Execute`: a completed launch belongs to an execution that ended before any delay with the outcome `StartAsync` reports; a pending launch belongs to an execution that reaches its first delay before it ends |
| Periodic.SupervisedOnErrorCalls | src/PeriodicTaskRunnerBackgroundService.cs:64-71 | counting both the loop's own `OnError` calls and the runner continuation's calls for the scheduler's task, a supervised scheduler calls `OnError` once per failed iteration under CrashApplication and never under any other mode |
| TestClasses.SingletonStateHolder.constructor | tests/IntegrationUtils/PeriodicTaskTestClasses.cs:36-39 | a new holder has count zero and an incomplete signal |
| TestClasses.SingletonStateHolder.Call | tests/IntegrationUtils/PeriodicTaskTestClasses.cs:41-48 | one call is one step of `Called`: the count rises by one, and the signal completes once the count reaches five |
| TestClasses.Called | tests/IntegrationUtils/PeriodicTaskTestClasses.cs:41-48 | one `Call` on the holder's state: the count rises by one and `TrySetResult` completes the signal once the count reaches five (characterised by `CalledTimesEffect`) |
| TestClasses.Awaited | src/PeriodicTaskRunnerBackgroundService.cs:62 | what `await periodicTask.ExecuteAsync(stoppingToken)` yields: the completed task's outcome, the later outcome of a suspended task, or the exception thrown before any task existed |
| TestClasses.CalledTimesEffect | tests/IntegrationUtils/PeriodicTaskTestClasses.cs:41-48 | `n` calls add exactly `n`, and the signal is complete afterwards exactly when it already was or the count reached five |
| TestClasses.SignalLatches | tests/IntegrationUtils/PeriodicTaskTestClasses.cs:44-47 | a completed signal stays complete under further calls |
| TestClasses.FreshHolderSignal | tests/IntegrationUtils/PeriodicTaskTestClasses.cs:36-48 | on a fresh holder the count equals the number of calls, and the signal is complete exactly from the fifth call on |
| TestClasses.CrashingPeriodicTask | tests/IntegrationUtils/PeriodicTaskTestClasses.cs:7-13 | with a live token the task suspends and then faults with "oh no"; with a cancelled token it ends cancelled; it never succeeds |
| TestClasses.TestPeriodicTask | tests/IntegrationUtils/PeriodicTaskTestClasses.cs:29-32 | the task is returned completed and succeeds |
| TestClasses.IncrementingThenCrashingPeriodicTask.constructor | tests/IntegrationUtils/PeriodicTaskTestClasses.cs:20 | the task keeps the shared holder it is given |
| TestClasses.IncrementingThenCrashingPeriodicTask.ExecuteAsync | tests/IntegrationUtils/PeriodicTaskTestClasses.cs:22-26 | each execution calls the holder once and then throws "oh no" before any task exists |
| TestClasses.RetryLaterScenario | tests/PeriodicTasksTest.cs:35-54 | five fresh `IncrementingThenCrashingPeriodicTask` executions on one shared holder bring its count to exactly five and its signal to completion, and under RetryLater the scheduler given their outcomes makes five factory calls, five executions and five warnings and no `OnError` call |
| TestClasses.RetryLaterCounts | tests/PeriodicTasksTest.cs:35-54 | under RetryLater, five failing tasks are five factory calls, five executions and five warnings, and no `OnError` call |
| TestClasses.CrashApplicationScenario | tests/PeriodicTasksTest.cs:15-33 | under CrashApplication, `StartAsync` succeeds, and the first `CrashingPeriodicTask` fault is logged and then sent to `OnError` exactly once, which requests the shutdown |
| TestClasses.ImmediatelyCrashingScenario | tests/HostedServices/CriticalBackgroundServices.cs:9-20 | an `ExecuteAsync` that throws at once makes `StartAsync` fail with "Crash right away", requests no shutdown, and leaves nothing for `StopAsync` to wait for |
| TestClasses.YieldingThenCrashingScenario | tests/HostedServices/CriticalBackgroundServices.cs:22-39 | a service that yields and then throws starts successfully, and its fault requests the shutdown |

## Left out

- Time: `TimeSpan` intervals are positive integers of milliseconds (`Periodic.Interval`).
  Waiting for time to pass and the 5-second test timeouts are not modelled. A delay counts
  as a suspension point, which it is for a positive interval on a token that is not yet
  cancelled.
- Periodic.ExecuteAfterProbe: holds only for positive intervals. With an interval below -1 ms
  (or beyond `Task.Delay`'s maximum) the first `Task.Delay` throws `ArgumentOutOfRangeException`
  outside the `try`, so `ExecuteAsync` does end by an escaped exception; with -1 ms the first
  delay never ends; with 0 ms it completes at once and never suspends.
- Periodic.SupervisedLoopNeverFaults: holds only for positive intervals. With an invalid
  interval the scheduler's own task faults at its first delay, synchronously when every
  periodic task completes synchronously, so `StartAsync` would fail; with a zero interval and
  synchronous periodic tasks `StartAsync` never returns. `AsLaunch` assumes a positive interval
  for the same reason.
- Scheduling: a task's completion and its continuation are one atomic step. Races between a
  completing task, a concurrent `Cancel` and the continuation's scheduling are not modelled.
  Neither is the `cancellationToken` parameter of `StartAsync`. Nor is a `StopAsync` or
  `Dispose` that cancels the token while `StartAsync` still runs the scheduler's synchronous
  part: `Task.Delay` on that cancelled token does not suspend, so `StartAsync` would hand back
  the cancelled task, whereas `Periodic.AsLaunch` reports a running one (for example with one
  produced task and a cancellation during iteration 0).
- Exceptions thrown by callbacks registered on the stopping token, which `Cancel` would
  rethrow into `StopAsync`, are not modelled.
- Dependency injection: scopes, `IServiceProvider`, `IPeriodicTaskFactory` and
  `IServiceCollectionExtensions` are reduced to the factory's `canResolve` flag and the
  sequence of task outcomes. An exception thrown by `GetPeriodicTask` counts as that
  iteration's fault, since it is raised inside the same `try`. Such an iteration is recorded
  as a `GotTask` step followed by an `Executed` step carrying that fault, although no periodic
  task ran; the model has no separate step for a failing factory.
- Logging is recorded only as steps in the trace. Message templates, exception objects and
  `Console` output are not modelled.
- `Environment.Exit` is not modelled, and neither are the application-ender classes or
  `HostedServiceWrapper`. `OnError` is the injected callback described above.
- The ASP.NET test project, controllers and `TestHostedService` are not part of this model.
  The same goes for the random-delay `CountingPeriodicTask` and the regular
  `BackgroundService` tests.
- Periodic.Execute: the factory hands out finitely many tasks, so the loop is modelled only up
  to that horizon. Past it, the trace ends `StillRunning`.
- TestClasses.SingletonStateHolder.Call: the count is an unbounded integer. The source's
  `int` would wrap after 2^31 - 1 calls, which no test comes near.
- TestClasses.RetryLaterScenario: models only the first five iterations the test waits for,
  with a token that is not cancelled. The five tasks are executed before the scheduler runs
  and their outcomes are handed to it, so the interleaving of the holder's calls with the
  scheduler's other steps is not modelled.
- TestClasses.CrashApplicationScenario: models only the first iteration, with a token that is
  not cancelled.
