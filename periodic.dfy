/** `PeriodicTaskRunnerBackgroundService`: a supervised work unit whose `ExecuteAsync` probes
    the task factory once, then repeatedly obtains a fresh periodic task, runs it, applies the
    failure mode to its exception and waits, until the stopping token is cancelled. */
module Periodic {
  import opened Tasks
  import Supervision

  /** `PeriodicTaskFailureMode` is an enum backed by `int`: the two named members are 1 and 5,
      and the loop tests for each of them separately. */
  newtype FailureMode = int

  const CrashApplication: FailureMode := 1
  const RetryLater: FailureMode := 5

  /** `timeBetweenTasks` in milliseconds. Only positive intervals are modelled: with them the
      first `Task.Delay` on a live token suspends the method (see the "Left out" notes for the others). */
  newtype Interval = i: int | i > 0 witness 1

  /** The task factory: what `CanResolvePeriodicTask` answers, and the outcome of executing each
      task that `GetPeriodicTask` hands out, in order. An exception thrown by `GetPeriodicTask`
      itself is that iteration's fault, since it is raised inside the same `try`. */
  datatype TaskFactory = TaskFactory(canResolve: bool, produced: seq<Outcome>)

  /** When the stopping token is cancelled, as the loop sees it: never; just before the loop
      test of iteration `k`; or while iteration `k`'s task or delay is running, in which case
      that iteration's `Task.Delay` ends cancelled. */
  datatype Cancellation = NotRequested | BeforeIteration(k: nat) | DuringIteration(k: nat)

  /** What `ExecuteAsync` does, in order. */
  datatype Step =
    | LoggedCritical(message: string)            // LogCritical before the probe failure
    | GotTask                                    // one GetPeriodicTask call
    | Executed(outcome: Outcome)                 // the task was awaited and ended so
    | LoggedError(error: Outcome)                // LogError in the catch block
    | CalledOnError(error: Outcome)              // OnError, under CrashApplication
    | LoggedWarning(error: Outcome, retryIn: Interval) // LogWarning, under RetryLater
    | Delayed(interval: Interval, completed: bool)    // Task.Delay with the stopping token

  /** How `ExecuteAsync`'s task ends, if it has ended when the factory's outcomes run out. */
  datatype Ending =
    | ProbeFailed(message: string) // InvalidOperationException before the first await
    | LoopExited                   // the loop test saw the cancellation: ran to completion
    | DelayCancelled               // the delay threw: the task is cancelled
    | StillRunning                 // the loop goes on beyond the modelled outcomes

  datatype Trace = Trace(steps: seq<Step>, ending: Ending)

  /** One started iteration as the loop's control flow sees it: the outcome of the task it
      obtained, and whether its delay ran to the end. */
  datatype Pass = Pass(outcome: Outcome, delayCompleted: bool)

  /** The iterations the loop starts, and how it ends. The failure mode and the interval do not
      enter into either: the catch block never leaves the loop. */
  datatype LoopRun = LoopRun(passes: seq<Pass>, ending: Ending)

  datatype Kind = Critical | FactoryCall | Execution | ErrorLog | OnErrorCall | Warning | Delay

  function KindOf(s: Step): Kind
  {
    match s
    case LoggedCritical(_) => Critical
    case GotTask => FactoryCall
    case Executed(_) => Execution
    case LoggedError(_) => ErrorLog
    case CalledOnError(_) => OnErrorCall
    case LoggedWarning(_, _) => Warning
    case Delayed(_, _) => Delay
  }

  /** The number of steps of one kind. */
  function Count(steps: seq<Step>, kind: Kind): nat
  {
    if steps == [] then 0
    else (if KindOf(steps[0]) == kind then 1 else 0) + Count(steps[1..], kind)
  }

  lemma {:induction false} CountAppend(a: seq<Step>, b: seq<Step>, kind: Kind)
    ensures Count(a + b, kind) == Count(a, kind) + Count(b, kind)
  {
    if a == [] {
      assert a + b == b;
    } else {
      assert (a + b)[0] == a[0];
      assert (a + b)[1..] == a[1..] + b;
      CountAppend(a[1..], b, kind);
    }
  }

  /** The number of outcomes that are not a successful completion. */
  function Failures(s: seq<Outcome>): nat
  {
    if s == [] then 0 else (if s[0] != Ok then 1 else 0) + Failures(s[1..])
  }

  function NotRegistered(taskType: string): string
  {
    taskType + " didn't registered in container"
  }

  /** The catch block: every exception is logged, then escalated under CrashApplication and
      logged as a warning under RetryLater. */
  function FailureSteps(mode: FailureMode, interval: Interval, o: Outcome): seq<Step>
  {
    if o == Ok then []
    else if mode == CrashApplication then [LoggedError(o), CalledOnError(o)]
    else if mode == RetryLater then [LoggedError(o), LoggedWarning(o, interval)]
    else [LoggedError(o)]
  }

  /** One pass of the loop body: get a task, execute it, handle its exception, delay. */
  function IterationSteps(mode: FailureMode, interval: Interval, o: Outcome, delayCompleted: bool): seq<Step>
  {
    [GotTask, Executed(o)] + FailureSteps(mode, interval, o) + [Delayed(interval, delayCompleted)]
  }

  /** The steps of a sequence of passes, one iteration after the other. */
  function Steps(mode: FailureMode, interval: Interval, ps: seq<Pass>): seq<Step>
  {
    if ps == [] then []
    else IterationSteps(mode, interval, ps[0].outcome, ps[0].delayCompleted) + Steps(mode, interval, ps[1..])
  }

  function Outcomes(ps: seq<Pass>): (os: seq<Outcome>)
    ensures |os| == |ps|
  {
    if ps == [] then [] else [ps[0].outcome] + Outcomes(ps[1..])
  }

  /** The loop from iteration `k` on: the loop test, then one pass of the body, whose delay
      either completes (and the loop goes on) or is cancelled (and the exception ends it). */
  function Loop(produced: seq<Outcome>, cancel: Cancellation, k: nat): LoopRun
    requires k <= |produced|
    decreases |produced| - k
  {
    if cancel == BeforeIteration(k) then LoopRun([], LoopExited)
    else if k == |produced| then LoopRun([], StillRunning)
    else if cancel == DuringIteration(k) then LoopRun([Pass(produced[k], false)], DelayCancelled)
    else
      var rest := Loop(produced, cancel, k + 1);
      LoopRun([Pass(produced[k], true)] + rest.passes, rest.ending)
  }

  /** The whole of `ExecuteAsync`: the probe, then the loop. */
  function Execute(mode: FailureMode, interval: Interval, taskType: string, factory: TaskFactory, cancel: Cancellation): Trace
  {
    if !factory.canResolve then
      Trace([LoggedCritical(NotRegistered(taskType))], ProbeFailed(NotRegistered(taskType)))
    else
      var run := Loop(factory.produced, cancel, 0);
      Trace(Steps(mode, interval, run.passes), run.ending)
  }

  /** Iteration `k` is one the loop gets to: the cancellation has not been observed earlier. */
  predicate Reachable(produced: seq<Outcome>, cancel: Cancellation, k: nat)
  {
    && k <= |produced|
    && (cancel.BeforeIteration? ==> k <= cancel.k)
    && (cancel.DuringIteration? ==> k <= cancel.k)
  }

  /** The number of iterations the loop starts, stated independently of the loop: all of the
      outcomes when nothing is cancelled, none from the iteration whose loop test sees the
      cancellation, and none after an iteration whose delay is cancelled. */
  function StartedIterations(produced: seq<Outcome>, cancel: Cancellation): (n: nat)
    ensures n <= |produced|
    ensures cancel.BeforeIteration? ==> n <= cancel.k
    ensures cancel.DuringIteration? ==> n <= cancel.k + 1
  {
    match cancel
    case NotRequested => |produced|
    case BeforeIteration(c) => if c < |produced| then c else |produced|
    case DuringIteration(c) => if c + 1 < |produced| then c + 1 else |produced|
  }

  /** How the loop ends, stated independently of the loop. */
  function ExpectedEnding(produced: seq<Outcome>, cancel: Cancellation): Ending
  {
    match cancel
    case NotRequested => StillRunning
    case BeforeIteration(c) => if c <= |produced| then LoopExited else StillRunning
    case DuringIteration(c) => if c < |produced| then DelayCancelled else StillRunning
  }

  /** The loop from a reachable iteration `k` starts exactly the iterations from `k` up to
      `StartedIterations`, each with the task the factory hands out for it. */
  lemma {:induction false} LoopOutcomes(produced: seq<Outcome>, cancel: Cancellation, k: nat)
    requires Reachable(produced, cancel, k)
    ensures k <= StartedIterations(produced, cancel)
    ensures Outcomes(Loop(produced, cancel, k).passes) == produced[k..StartedIterations(produced, cancel)]
    decreases |produced| - k
  {
    var n := StartedIterations(produced, cancel);
    if cancel == BeforeIteration(k) || k == |produced| {
      assert n == k;
    } else if cancel == DuringIteration(k) {
      assert n == k + 1;
      assert [Pass(produced[k], false)][1..] == [];
    } else {
      var rest := Loop(produced, cancel, k + 1).passes;
      LoopOutcomes(produced, cancel, k + 1);
      var ps := [Pass(produced[k], true)] + rest;
      assert ps[0] == Pass(produced[k], true) && ps[1..] == rest;
      assert produced[k..n] == [produced[k]] + produced[k + 1..n];
    }
  }

  /** How the loop ends from a reachable iteration `k`, and the passes' delays: every delay but
      the last completes, and the last one is cancelled exactly when the loop ends cancelled. */
  lemma {:induction false} LoopEnding(produced: seq<Outcome>, cancel: Cancellation, k: nat)
    requires Reachable(produced, cancel, k)
    ensures var r := Loop(produced, cancel, k);
            && r.ending == ExpectedEnding(produced, cancel)
            && (forall j :: 0 <= j < |r.passes| - 1 ==> r.passes[j].delayCompleted)
            && (r.ending == DelayCancelled <==> r.passes != [] && !r.passes[|r.passes| - 1].delayCompleted)
    decreases |produced| - k
  {
    if cancel == BeforeIteration(k) || k == |produced| || cancel == DuringIteration(k) {
    } else {
      LoopEnding(produced, cancel, k + 1);
      var rest := Loop(produced, cancel, k + 1).passes;
      var ps := [Pass(produced[k], true)] + rest;
      assert forall j :: 0 < j < |ps| ==> ps[j] == rest[j - 1];
    }
  }

  lemma CountSingleton(x: Step, kind: Kind)
    ensures Count([x], kind) == if KindOf(x) == kind then 1 else 0
  {
    assert [x][1..] == [];
  }

  /** How many steps of one kind the catch block takes for one outcome. */
  function CatchCount(mode: FailureMode, o: Outcome, kind: Kind): nat
  {
    if o == Ok then 0
    else
      (if kind == ErrorLog then 1 else 0)
      + (if kind == OnErrorCall && mode == CrashApplication then 1 else 0)
      + (if kind == Warning && mode == RetryLater then 1 else 0)
  }

  /** What the catch block does for one outcome, counted. */
  lemma FailureCounts(mode: FailureMode, interval: Interval, o: Outcome, kind: Kind)
    ensures Count(FailureSteps(mode, interval, o), kind) == CatchCount(mode, o, kind)
  {
    if o != Ok {
      var e: seq<Step> := [LoggedError(o)];
      CountSingleton(LoggedError(o), kind);
      if mode == CrashApplication {
        CountAppend(e, [CalledOnError(o)], kind);
        CountSingleton(CalledOnError(o), kind);
      } else if mode == RetryLater {
        CountAppend(e, [LoggedWarning(o, interval)], kind);
        CountSingleton(LoggedWarning(o, interval), kind);
      }
    }
  }

  /** One iteration, counted: one factory call, one execution, one delay, and the catch block. */
  lemma IterationCount(mode: FailureMode, interval: Interval, o: Outcome, done: bool, kind: Kind)
    ensures Count(IterationSteps(mode, interval, o, done), kind)
         == (if kind == FactoryCall || kind == Execution || kind == Delay then 1 else 0)
          + Count(FailureSteps(mode, interval, o), kind)
  {
    var head: seq<Step> := [GotTask, Executed(o)];
    var fail := FailureSteps(mode, interval, o);
    assert head == [GotTask] + [Executed(o)];
    CountAppend([GotTask], [Executed(o)], kind);
    CountSingleton(GotTask, kind);
    CountSingleton(Executed(o), kind);
    CountSingleton(Delayed(interval, done), kind);
    CountAppend(head, fail, kind);
    CountAppend(head + fail, [Delayed(interval, done)], kind);
  }

  /** The steps of a sequence of passes, counted: one factory call, one execution and one delay
      per pass; one error log per failed pass; one `OnError` call per failed pass under
      CrashApplication and none otherwise; one warning per failed pass under RetryLater and
      none otherwise. */
  lemma {:induction false} StepsCounts(mode: FailureMode, interval: Interval, ps: seq<Pass>)
    ensures var s := Steps(mode, interval, ps);
            var f := Failures(Outcomes(ps));
            && Count(s, Critical) == 0
            && Count(s, FactoryCall) == |ps| && Count(s, Execution) == |ps| && Count(s, Delay) == |ps|
            && Count(s, ErrorLog) == f
            && Count(s, OnErrorCall) == (if mode == CrashApplication then f else 0)
            && Count(s, Warning) == (if mode == RetryLater then f else 0)
  {
    if ps != [] {
      var it := IterationSteps(mode, interval, ps[0].outcome, ps[0].delayCompleted);
      var rest := Steps(mode, interval, ps[1..]);
      StepsCounts(mode, interval, ps[1..]);
      forall kind: Kind
        ensures Count(it + rest, kind)
             == (if kind == FactoryCall || kind == Execution || kind == Delay then 1 else 0)
              + Count(FailureSteps(mode, interval, ps[0].outcome), kind) + Count(rest, kind)
      {
        CountAppend(it, rest, kind);
        IterationCount(mode, interval, ps[0].outcome, ps[0].delayCompleted, kind);
      }
      forall kind: Kind
        ensures Count(FailureSteps(mode, interval, ps[0].outcome), kind) == CatchCount(mode, ps[0].outcome, kind)
      {
        FailureCounts(mode, interval, ps[0].outcome, kind);
      }
      var os := Outcomes(ps);
      assert os[0] == ps[0].outcome && os[1..] == Outcomes(ps[1..]);
    }
  }

  lemma {:induction false} StepsAppend(mode: FailureMode, interval: Interval, a: seq<Pass>, b: seq<Pass>)
    ensures Steps(mode, interval, a + b) == Steps(mode, interval, a) + Steps(mode, interval, b)
  {
    if a == [] {
      assert a + b == b;
    } else {
      assert (a + b)[0] == a[0];
      assert (a + b)[1..] == a[1..] + b;
      StepsAppend(mode, interval, a[1..], b);
      var it := IterationSteps(mode, interval, a[0].outcome, a[0].delayCompleted);
      assert it + (Steps(mode, interval, a[1..]) + Steps(mode, interval, b))
          == (it + Steps(mode, interval, a[1..])) + Steps(mode, interval, b);
    }
  }

  lemma StepsSnoc(mode: FailureMode, interval: Interval, ps: seq<Pass>, p: Pass)
    ensures Steps(mode, interval, ps + [p]) == Steps(mode, interval, ps) + IterationSteps(mode, interval, p.outcome, p.delayCompleted)
  {
    StepsAppend(mode, interval, ps, [p]);
    assert [p][1..] == [];
  }

  /** The loop at an iteration whose delay is cancelled: that pass, and the cancellation. */
  lemma LoopLast(produced: seq<Outcome>, cancel: Cancellation, k: nat)
    requires k < |produced| && cancel == DuringIteration(k)
    ensures Loop(produced, cancel, k) == LoopRun([Pass(produced[k], false)], DelayCancelled)
  {
  }

  /** The loop at an iteration whose delay completes: that pass, then the loop from the next one. */
  lemma LoopNext(produced: seq<Outcome>, cancel: Cancellation, k: nat, before: seq<Pass>)
    requires k < |produced| && cancel != BeforeIteration(k) && cancel != DuringIteration(k)
    ensures var rest := Loop(produced, cancel, k + 1);
            var here := Loop(produced, cancel, k);
            && before + here.passes == (before + [Pass(produced[k], true)]) + rest.passes
            && here.ending == rest.ending
  {
    var rest := Loop(produced, cancel, k + 1).passes;
    assert before + ([Pass(produced[k], true)] + rest) == (before + [Pass(produced[k], true)]) + rest;
  }

  /** The order of the steps: a task is executed right after it is obtained, an iteration other
      than the first starts only after the previous delay completed, and every delay and
      warning uses the interval fixed at construction. */
  ghost predicate Ordered(steps: seq<Step>, interval: Interval)
  {
    && (forall j :: 0 <= j < |steps| && steps[j].Executed? ==> 0 < j && steps[j - 1] == GotTask)
    && (forall j :: 0 < j < |steps| && steps[j] == GotTask ==> steps[j - 1] == Delayed(interval, true))
    && (forall j :: 0 <= j < |steps| && steps[j].Delayed? ==> steps[j].interval == interval)
    && (forall j :: 0 <= j < |steps| && steps[j].LoggedWarning? ==> steps[j].retryIn == interval)
  }

  lemma IterationOrdered(mode: FailureMode, interval: Interval, o: Outcome, done: bool)
    ensures var s := IterationSteps(mode, interval, o, done);
            Ordered(s, interval) && s[0] == GotTask && s[|s| - 1] == Delayed(interval, done)
  {
    var s := IterationSteps(mode, interval, o, done);
    var fail := FailureSteps(mode, interval, o);
    assert s == [GotTask, Executed(o)] + fail + [Delayed(interval, done)];
    assert forall j :: 0 <= j < |fail| ==>
      && !fail[j].GotTask? && !fail[j].Executed? && !fail[j].Delayed?
      && (fail[j].LoggedWarning? ==> fail[j].retryIn == interval);
    assert forall j :: 2 <= j < 2 + |fail| ==> s[j] == fail[j - 2];
  }

  lemma OrderedConcat(a: seq<Step>, b: seq<Step>, interval: Interval)
    requires Ordered(a, interval) && Ordered(b, interval)
    requires b != [] ==> b[0] == GotTask && a != [] && a[|a| - 1] == Delayed(interval, true)
    ensures Ordered(a + b, interval)
  {
    var s := a + b;
    assert forall j :: |a| <= j < |s| ==> s[j] == b[j - |a|];
  }

  /** Passes whose delays all complete but perhaps the last one's give ordered steps. */
  lemma {:induction false} StepsOrdered(mode: FailureMode, interval: Interval, ps: seq<Pass>)
    requires forall j :: 0 <= j < |ps| - 1 ==> ps[j].delayCompleted
    ensures var s := Steps(mode, interval, ps);
            Ordered(s, interval) && (ps != [] ==> s != [] && s[0] == GotTask)
  {
    if ps != [] {
      var it := IterationSteps(mode, interval, ps[0].outcome, ps[0].delayCompleted);
      assert forall j :: 0 <= j < |ps[1..]| - 1 ==> ps[1..][j] == ps[j + 1];
      IterationOrdered(mode, interval, ps[0].outcome, ps[0].delayCompleted);
      StepsOrdered(mode, interval, ps[1..]);
      OrderedConcat(it, Steps(mode, interval, ps[1..]), interval);
    }
  }

  /** A factory that cannot resolve the task type makes `ExecuteAsync` throw before it obtains
      any task or runs any iteration, whatever the failure mode. */
  lemma ProbeFailureRunsNothing(mode: FailureMode, interval: Interval, taskType: string, factory: TaskFactory, cancel: Cancellation)
    requires !factory.canResolve
    ensures var t := Execute(mode, interval, taskType, factory, cancel);
            && t.ending == ProbeFailed(NotRegistered(taskType))
            && Count(t.steps, FactoryCall) == 0 && Count(t.steps, Execution) == 0
            && Count(t.steps, OnErrorCall) == 0 && Count(t.steps, Delay) == 0
  {
  }

  /** After a successful probe: what `ExecuteAsync` does, counted and ordered, and how it ends.
      No exception of a periodic task ever escapes the loop. */
  lemma ExecuteAfterProbe(mode: FailureMode, interval: Interval, taskType: string, factory: TaskFactory, cancel: Cancellation)
    requires factory.canResolve
    ensures var t := Execute(mode, interval, taskType, factory, cancel);
            var n := StartedIterations(factory.produced, cancel);
            var f := Failures(factory.produced[..n]);
            && Count(t.steps, Critical) == 0
            && Count(t.steps, FactoryCall) == n && Count(t.steps, Execution) == n
            && Count(t.steps, Delay) == n
            && Count(t.steps, ErrorLog) == f
            && Count(t.steps, OnErrorCall) == (if mode == CrashApplication then f else 0)
            && Count(t.steps, Warning) == (if mode == RetryLater then f else 0)
            && Ordered(t.steps, interval)
            && t.ending == ExpectedEnding(factory.produced, cancel)
            && !t.ending.ProbeFailed?
  {
    var run := Loop(factory.produced, cancel, 0);
    var n := StartedIterations(factory.produced, cancel);
    LoopOutcomes(factory.produced, cancel, 0);
    LoopEnding(factory.produced, cancel, 0);
    StepsCounts(mode, interval, run.passes);
    StepsOrdered(mode, interval, run.passes);
    assert factory.produced[0..n] == factory.produced[..n];
  }

  /** Under CrashApplication the loop does not stop after `OnError`: with the injected callback
      every failed iteration is escalated and the next one still starts. */
  lemma CrashApplicationKeepsLooping(interval: Interval, taskType: string, m: string)
    ensures var t := Execute(CrashApplication, interval, taskType, TaskFactory(true, [Fault(m), Fault(m)]), NotRequested);
            Count(t.steps, FactoryCall) == 2 && Count(t.steps, OnErrorCall) == 2
  {
    var produced := [Fault(m), Fault(m)];
    ExecuteAfterProbe(CrashApplication, interval, taskType, TaskFactory(true, produced), NotRequested);
    assert StartedIterations(produced, NotRequested) == 2;
    assert produced[..2] == produced;
    assert produced[1..] == [Fault(m)];
    assert [Fault(m)][1..] == [];
    assert Failures([Fault(m)]) == 1;
    assert Failures(produced) == 2;
  }

  /** The catch block also catches the cancellation of a periodic task that honours the stopping
      token, so under CrashApplication a stop during an execution calls `OnError`. */
  lemma TaskCancellationIsEscalated(interval: Interval, taskType: string)
    ensures Execute(CrashApplication, interval, taskType, TaskFactory(true, [Cancelled]), DuringIteration(0))
         == Trace([GotTask, Executed(Cancelled), LoggedError(Cancelled), CalledOnError(Cancelled),
                   Delayed(interval, false)], DelayCancelled)
  {
    var ps := [Pass(Cancelled, false)];
    assert Loop([Cancelled], DuringIteration(0), 0) == LoopRun(ps, DelayCancelled);
    assert ps[1..] == [];
    assert Steps(CrashApplication, interval, ps) == IterationSteps(CrashApplication, interval, Cancelled, false) + [];
    assert FailureSteps(CrashApplication, interval, Cancelled) == [LoggedError(Cancelled), CalledOnError(Cancelled)];
  }

  /** A failure mode other than the two named members only logs the error. */
  lemma UnnamedModeOnlyLogs(mode: FailureMode, interval: Interval, taskType: string, factory: TaskFactory, cancel: Cancellation)
    requires factory.canResolve && mode != CrashApplication && mode != RetryLater
    ensures var t := Execute(mode, interval, taskType, factory, cancel);
            && Count(t.steps, OnErrorCall) == 0 && Count(t.steps, Warning) == 0
            && Count(t.steps, ErrorLog) == Failures(factory.produced[..StartedIterations(factory.produced, cancel)])
  {
    ExecuteAfterProbe(mode, interval, taskType, factory, cancel);
  }

  /** How the scheduler looks to the runner that supervises it: the probe failure is thrown
      before the first await (a faulted task), a token already cancelled at the first loop test
      lets the method run to completion at once, and otherwise the first delay suspends it (a delay on a token that is still live; a
      cancellation racing the synchronous part of `StartAsync` is not modelled). */
  function AsLaunch(taskType: string, factory: TaskFactory, cancel: Cancellation): Supervision.Launch
  {
    if !factory.canResolve then Supervision.SyncFault(NotRegistered(taskType))
    else if cancel == BeforeIteration(0) then Supervision.SyncOk
    else Supervision.Pending
  }

  /** The outcome of `ExecuteAsync`'s task, once it has one. */
  function FinalOutcome(e: Ending): Option<Outcome>
  {
    match e
    case ProbeFailed(m) => Some(Fault(m))
    case LoopExited => Some(Ok)
    case DelayCancelled => Some(Cancelled)
    case StillRunning => None
  }

  /** A probe failure reaches the host as the result of `StartAsync`, and never reaches
      `OnError`, whatever happens to the runner afterwards. */
  lemma SupervisedProbeFailure(r: Supervision.Runner, taskType: string, factory: TaskFactory, cancel: Cancellation, es: seq<Supervision.Event>)
    requires Supervision.Inv(r) && !factory.canResolve
    requires Supervision.ValidTrace(Supervision.Started(r, AsLaunch(taskType, factory, cancel)), es)
    ensures Supervision.StartResult(AsLaunch(taskType, factory, cancel)) == Fault(NotRegistered(taskType))
    ensures Supervision.EscalationsOf(
              Supervision.Run(Supervision.Started(r, AsLaunch(taskType, factory, cancel)), es).escalations,
              |r.tasks|) == 0
  {
    Supervision.SyncStartNeverEscalates(r, AsLaunch(taskType, factory, cancel), es);
  }

  /** After a successful probe the scheduler's own task never faults: `StartAsync` succeeds, and
      the runner's continuation never calls `OnError` for it, so every escalation comes from the
      failure-mode dispatch inside the loop. The scheduler's token is the runner's own, so a
      runner whose token is already cancelled is seen by the first loop test. */
  lemma SupervisedLoopNeverFaults(r: Supervision.Runner, mode: FailureMode, interval: Interval, taskType: string,
                                  factory: TaskFactory, cancel: Cancellation)
    requires Supervision.Inv(r) && factory.canResolve
    requires r.cancelled ==> cancel == BeforeIteration(0)
    ensures var launch := AsLaunch(taskType, factory, cancel);
            var t := Execute(mode, interval, taskType, factory, cancel);
            && Supervision.StartResult(launch) == Ok
            && (launch.SyncOk? ==> t == Trace([], LoopExited))
            && (launch.Pending? && FinalOutcome(t.ending).Some? ==>
                  var s := Supervision.Started(r, launch);
                  Supervision.CanComplete(s, |r.tasks|)
                  && Supervision.Complete(s, |r.tasks|, FinalOutcome(t.ending).value).escalations == r.escalations)
  {
    ExecuteAfterProbe(mode, interval, taskType, factory, cancel);
  }

  /** `AsLaunch` agrees with the execution it stands for: a launch that hands back a completed
      task belongs to an execution that has ended without reaching a delay, with the outcome
      `StartAsync` reports; a launch that hands back a running task belongs to one that reaches
      its first delay before it ends, which a positive interval suspends unless the token is
      already cancelled. */
  lemma LaunchAgreesWithExecute(mode: FailureMode, interval: Interval, taskType: string,
                                factory: TaskFactory, cancel: Cancellation)
    ensures var launch := AsLaunch(taskType, factory, cancel);
            var t := Execute(mode, interval, taskType, factory, cancel);
            && (!launch.Pending? ==>
                  Count(t.steps, Delay) == 0 && FinalOutcome(t.ending) == Some(Supervision.StartResult(launch)))
            && (launch.Pending? && factory.produced != [] ==> Count(t.steps, Delay) >= 1)
            && (launch.Pending? && FinalOutcome(t.ending).Some? ==> Count(t.steps, Delay) >= 1)
  {
    if !factory.canResolve {
      ProbeFailureRunsNothing(mode, interval, taskType, factory, cancel);
    } else {
      ExecuteAfterProbe(mode, interval, taskType, factory, cancel);
      if cancel == BeforeIteration(0) {
        Supervision.InitialInv();
        SupervisedLoopNeverFaults(Supervision.Initial, mode, interval, taskType, factory, cancel);
      }
    }
  }

  /** Every call of `OnError` a supervised scheduler causes, wherever it is made from: the calls
      inside the loop plus those of the runner's continuation for the scheduler's own task. The
      latter are none, so the total is one per failed iteration under CrashApplication and none
      under any other mode. The scheduler's token is the runner's own, as above. */
  lemma SupervisedOnErrorCalls(r: Supervision.Runner, mode: FailureMode, interval: Interval, taskType: string,
                               factory: TaskFactory, cancel: Cancellation)
    requires Supervision.Inv(r) && factory.canResolve
    requires r.cancelled ==> cancel == BeforeIteration(0)
    ensures var launch := AsLaunch(taskType, factory, cancel);
            var t := Execute(mode, interval, taskType, factory, cancel);
            var s := Supervision.Started(r, launch);
            var byContinuation :=
              if launch.Pending? && FinalOutcome(t.ending).Some? && Supervision.CanComplete(s, |r.tasks|)
              then Supervision.EscalationsOf(Supervision.Complete(s, |r.tasks|, FinalOutcome(t.ending).value).escalations, |r.tasks|)
              else 0;
            var failed := Failures(factory.produced[..StartedIterations(factory.produced, cancel)]);
            Count(t.steps, OnErrorCall) + byContinuation == (if mode == CrashApplication then failed else 0)
  {
    ExecuteAfterProbe(mode, interval, taskType, factory, cancel);
    SupervisedLoopNeverFaults(r, mode, interval, taskType, factory, cancel);
    assert Supervision.EscalationsOf(r.escalations, |r.tasks|) == 0;
  }

  /** The service as the object it is in the source: the failure mode and the interval are
      `readonly` fields set by the constructor, and `ExecuteAsync` only reads them. */
  class PeriodicTaskRunnerBackgroundService {
    const taskType: string
    const failureMode: FailureMode
    const timeBetweenTasks: Interval

    constructor (taskType: string, failureMode: FailureMode, timeBetweenTasks: Interval)
      ensures this.taskType == taskType
      ensures this.failureMode == failureMode && this.timeBetweenTasks == timeBetweenTasks
    {
      this.taskType := taskType;
      this.failureMode := failureMode;
      this.timeBetweenTasks := timeBetweenTasks;
    }

    /** The `try` block of one iteration and its `catch`: obtain a task, await it, and handle
        its exception according to the failure mode. */
    method TryIteration(outcome: Outcome) returns (steps: seq<Step>)
      ensures steps == [GotTask, Executed(outcome)] + FailureSteps(failureMode, timeBetweenTasks, outcome)
    {
      steps := [GotTask, Executed(outcome)];
      if outcome != Ok {
        steps := steps + [LoggedError(outcome)];
        if failureMode == CrashApplication {
          steps := steps + [CalledOnError(outcome)];
        }
        if failureMode == RetryLater {
          steps := steps + [LoggedWarning(outcome, timeBetweenTasks)];
        }
      }
    }

    /** One pass of the loop body: the `try`/`catch`, then the delay before the next pass. */
    method Iteration(outcome: Outcome, delayCompleted: bool) returns (steps: seq<Step>)
      ensures steps == IterationSteps(failureMode, timeBetweenTasks, outcome, delayCompleted)
    {
      steps := TryIteration(outcome);
      steps := steps + [Delayed(timeBetweenTasks, delayCompleted)];
    }

    method ExecuteAsync(factory: TaskFactory, cancel: Cancellation) returns (trace: Trace)
      ensures trace == Execute(failureMode, timeBetweenTasks, taskType, factory, cancel)
    {
      if !factory.canResolve {
        var message := NotRegistered(taskType);
        return Trace([LoggedCritical(message)], ProbeFailed(message));
      }
      ghost var run := Loop(factory.produced, cancel, 0);
      ghost var passes: seq<Pass> := [];
      var steps: seq<Step> := [];
      var k := 0;
      assert passes + run.passes == run.passes;
      while cancel != BeforeIteration(k)
        invariant Reachable(factory.produced, cancel, k)
        invariant var rest := Loop(factory.produced, cancel, k); run == LoopRun(passes + rest.passes, rest.ending)
        invariant steps == Steps(failureMode, timeBetweenTasks, passes)
        decreases |factory.produced| - k
      {
        if k == |factory.produced| {
          // the modelled outcomes are used up; the loop is still running
          assert passes + [] == passes;
          return Trace(steps, StillRunning);
        }
        var delayCompleted := cancel != DuringIteration(k);
        var iteration := Iteration(factory.produced[k], delayCompleted);
        ghost var pass := Pass(factory.produced[k], delayCompleted);
        StepsSnoc(failureMode, timeBetweenTasks, passes, pass);
        if !delayCompleted {
          LoopLast(factory.produced, cancel, k);
          return Trace(steps + iteration, DelayCancelled);
        }
        LoopNext(factory.produced, cancel, k, passes);
        steps := steps + iteration;
        passes := passes + [pass];
        k := k + 1;
      }
      assert passes + [] == passes;
      trace := Trace(steps, LoopExited);
    }
  }
}
