/** The test doubles of the repository's test suite: the shared call counter with its one-shot
    "called five times" signal, three periodic tasks with fixed behaviours, and the scenarios
    the integration tests drive with them. */
module TestClasses {
  import opened Tasks
  import Supervision
  import Periodic

  const OhNo := "oh no"

  /** The state of `SingletonStateHolder`: the call count, and whether the `CalledFiveTimes`
      task has been completed. */
  datatype HolderState = HolderState(count: int, calledFiveTimes: bool)

  const FreshHolder := HolderState(0, false)

  /** One `Call`: the count goes up by one, and `TrySetResult` completes the signal once the
      count reaches five; on a signal that is already complete it does nothing. */
  function Called(h: HolderState): HolderState
  {
    var count := h.count + 1;
    HolderState(count, h.calledFiveTimes || count >= 5)
  }

  function CalledTimes(h: HolderState, n: nat): HolderState
  {
    if n == 0 then h else Called(CalledTimes(h, n - 1))
  }

  /** `n` calls add exactly `n` to the count, and the signal is complete afterwards exactly when
      it already was or some call brought the count to five or more. */
  lemma {:induction false} CalledTimesEffect(h: HolderState, n: nat)
    ensures CalledTimes(h, n).count == h.count + n
    ensures CalledTimes(h, n).calledFiveTimes == (h.calledFiveTimes || (n > 0 && h.count + n >= 5))
  {
    if n > 0 {
      CalledTimesEffect(h, n - 1);
    }
  }

  /** Once complete, the signal stays complete under any further calls. */
  lemma SignalLatches(h: HolderState, n: nat)
    requires h.calledFiveTimes
    ensures CalledTimes(h, n).calledFiveTimes
  {
    CalledTimesEffect(h, n);
  }

  /** On a fresh holder the signal is incomplete after fewer than five calls and complete from
      the fifth call on. */
  lemma FreshHolderSignal(n: nat)
    ensures CalledTimes(FreshHolder, n).count == n
    ensures CalledTimes(FreshHolder, n).calledFiveTimes <==> n >= 5
  {
    CalledTimesEffect(FreshHolder, n);
  }

  class SingletonStateHolder {
    var count: int
    var calledFiveTimes: bool

    function State(): HolderState
      reads this
    {
      HolderState(count, calledFiveTimes)
    }

    constructor ()
      ensures State() == FreshHolder
    {
      count, calledFiveTimes := 0, false;
    }

    method Call()
      modifies this
      ensures State() == Called(old(State()))
    {
      count := count + 1;
      if count >= 5 {
        calledFiveTimes := true;
      }
    }
  }

  /** A work unit as the code that awaits it sees it: how it hands back control, and, if it
      suspended, how it ends later. */
  datatype WorkUnit = WorkUnit(launch: Supervision.Launch, later: Outcome)

  /** What `await` of the work unit yields; an exception thrown before any task is returned is
      raised at the same `await` expression. */
  function Awaited(w: WorkUnit): Outcome
  {
    match w.launch
    case SyncOk => Ok
    case SyncFault(m) => Fault(m)
    case SyncCancelled => Cancelled
    case Pending => w.later
    case ThrowsBeforeTask(m) => Fault(m)
  }

  /** The stopping token as a work unit sees it. */
  datatype TokenState = Live | CancelledBeforeStart | CancelledWhileSuspended

  /** `CrashingPeriodicTask`: `Task.Delay(50, token)` to yield, then throw. A token cancelled
      beforehand makes the delay a cancelled task that is awaited at once; one cancelled during
      the delay ends the task cancelled after it has suspended. */
  function CrashingPeriodicTask(token: TokenState): (w: WorkUnit)
    ensures token == Live ==> w.launch.Pending? && Awaited(w) == Fault(OhNo)
    ensures token != Live ==> Awaited(w) == Cancelled
    ensures Awaited(w) != Ok
  {
    match token
    case Live => WorkUnit(Supervision.Pending, Fault(OhNo))
    case CancelledBeforeStart => WorkUnit(Supervision.SyncCancelled, Cancelled)
    case CancelledWhileSuspended => WorkUnit(Supervision.Pending, Cancelled)
  }

  /** `TestPeriodicTask`: returns a completed task. */
  function TestPeriodicTask(): (w: WorkUnit)
    ensures w.launch.SyncOk? && Awaited(w) == Ok
  {
    WorkUnit(Supervision.SyncOk, Ok)
  }

  /** `IncrementingThenCrashingPeriodicTask`: a non-async method that calls the shared holder
      once and then throws, before any task exists. */
  class IncrementingThenCrashingPeriodicTask {
    const holder: SingletonStateHolder

    constructor (holder: SingletonStateHolder)
      ensures this.holder == holder
    {
      this.holder := holder;
    }

    method ExecuteAsync() returns (w: WorkUnit)
      modifies holder
      ensures holder.State() == Called(old(holder.State()))
      ensures w.launch == Supervision.ThrowsBeforeTask(OhNo) && Awaited(w) == Fault(OhNo)
    {
      holder.Call();
      w := WorkUnit(Supervision.ThrowsBeforeTask(OhNo), Fault(OhNo));
    }
  }

  /** The retry test: under RetryLater with `IncrementingThenCrashingPeriodicTask`, each of the
      first five iterations gets a fresh task, which calls the shared holder once and fails;
      after them the holder's signal is complete, only warnings were logged and `OnError` was
      never called, so no shutdown was requested. The tasks are run first and their outcomes
      handed to the scheduler as its factory's. */
  method RetryLaterScenario() returns (trace: Periodic.Trace, count: int, calledFiveTimes: bool)
    ensures count == 5 && calledFiveTimes
    ensures Periodic.Count(trace.steps, Periodic.FactoryCall) == 5
    ensures Periodic.Count(trace.steps, Periodic.Execution) == 5
    ensures Periodic.Count(trace.steps, Periodic.Warning) == 5
    ensures Periodic.Count(trace.steps, Periodic.OnErrorCall) == 0
  {
    var holder := new SingletonStateHolder();
    var produced: seq<Outcome> := [];
    while |produced| < 5
      invariant |produced| <= 5
      invariant holder.State() == CalledTimes(FreshHolder, |produced|)
      invariant forall j :: 0 <= j < |produced| ==> produced[j] == Fault(OhNo)
    {
      var task := new IncrementingThenCrashingPeriodicTask(holder);
      var w := task.ExecuteAsync();
      produced := produced + [Awaited(w)];
    }
    var service := new Periodic.PeriodicTaskRunnerBackgroundService(
      "IncrementingThenCrashingPeriodicTask", Periodic.RetryLater, 50);
    trace := service.ExecuteAsync(Periodic.TaskFactory(true, produced), Periodic.NotRequested);
    RetryLaterCounts(produced);
    FreshHolderSignal(5);
    count, calledFiveTimes := holder.count, holder.calledFiveTimes;
  }

  /** The counts of the retry test, for five failing tasks. */
  lemma RetryLaterCounts(produced: seq<Outcome>)
    requires |produced| == 5 && forall j :: 0 <= j < 5 ==> produced[j] == Fault(OhNo)
    ensures var t := Periodic.Execute(Periodic.RetryLater, 50, "IncrementingThenCrashingPeriodicTask",
                                      Periodic.TaskFactory(true, produced), Periodic.NotRequested);
            && Periodic.Count(t.steps, Periodic.FactoryCall) == 5 && Periodic.Count(t.steps, Periodic.Execution) == 5
            && Periodic.Count(t.steps, Periodic.Warning) == 5
            && Periodic.Count(t.steps, Periodic.OnErrorCall) == 0
  {
    Periodic.ExecuteAfterProbe(Periodic.RetryLater, 50, "IncrementingThenCrashingPeriodicTask",
                               Periodic.TaskFactory(true, produced), Periodic.NotRequested);
    AllFail(produced);
    assert produced[..5] == produced;
  }

  lemma {:induction false} AllFail(s: seq<Outcome>)
    requires forall j :: 0 <= j < |s| ==> s[j] != Ok
    ensures Periodic.Failures(s) == |s|
  {
    if s != [] {
      AllFail(s[1..]);
    }
  }

  /** The crash test: under CrashApplication the scheduler starts without a fault (its first
      delay suspends it), and the fault of the first `CrashingPeriodicTask` is escalated
      through `OnError`, which requests the shutdown, right after it is logged. */
  lemma CrashApplicationScenario()
    ensures var factory := Periodic.TaskFactory(true, [Awaited(CrashingPeriodicTask(Live))]);
            var t := Periodic.Execute(Periodic.CrashApplication, 1000, "CrashingPeriodicTask", factory, Periodic.NotRequested);
            && Supervision.StartResult(Periodic.AsLaunch("CrashingPeriodicTask", factory, Periodic.NotRequested)) == Ok
            && t.steps[..4] == [Periodic.GotTask, Periodic.Executed(Fault(OhNo)),
                                Periodic.LoggedError(Fault(OhNo)), Periodic.CalledOnError(Fault(OhNo))]
            && Periodic.Count(t.steps, Periodic.OnErrorCall) == 1
  {
    var ps := [Periodic.Pass(Fault(OhNo), true)];
    assert Periodic.Loop([Fault(OhNo)], Periodic.NotRequested, 0).passes == ps;
    assert ps[1..] == [];
    OnePassEscalation(Periodic.CrashApplication, 1000, ps[0]);
    assert Periodic.Steps(Periodic.CrashApplication, 1000, ps)
        == Periodic.IterationSteps(Periodic.CrashApplication, 1000, Fault(OhNo), true) + [];
  }

  /** A single pass calls `OnError` exactly when its task failed under CrashApplication. */
  lemma OnePassEscalation(mode: Periodic.FailureMode, interval: Periodic.Interval, p: Periodic.Pass)
    ensures Periodic.Count(Periodic.Steps(mode, interval, [p]), Periodic.OnErrorCall)
            == if mode == Periodic.CrashApplication && p.outcome != Ok then 1 else 0
  {
    Periodic.StepsCounts(mode, interval, [p]);
    assert [p][1..] == [];
    assert Periodic.Outcomes([p]) == [p.outcome];
    assert [p.outcome][1..] == [];
  }

  /** `ImmediatelyCrashingCriticalBackgroundService`: its `ExecuteAsync` throws before returning
      a task, so `StartAsync` raises that exception, `OnError` is not called, and the runner
      does not count as started: a later `StopAsync` has nothing to wait for. */
  method ImmediatelyCrashingScenario() returns (startResult: Outcome, shutdownRequested: bool, awaited: Option<nat>)
    ensures startResult == Fault("Crash right away")
    ensures !shutdownRequested
    ensures awaited == None
  {
    var service := new Supervision.CriticalBackgroundService();
    startResult := service.StartAsync(Supervision.ThrowsBeforeTask("Crash right away"));
    shutdownRequested := service.ShutdownRequested();
    awaited := service.StopAsync();
  }

  /** `YieldingAndThenCrashingCriticalBackgroundService`: it yields, so `StartAsync` succeeds;
      the fault after the yield reaches `OnError`, which requests the shutdown. */
  method YieldingThenCrashingScenario() returns (startResult: Outcome, shutdownRequested: bool)
    ensures startResult == Ok
    ensures shutdownRequested
  {
    var service := new Supervision.CriticalBackgroundService();
    startResult := service.StartAsync(Supervision.Pending);
    service.CompleteTask(0, Fault("Crash after yielding"));
    shutdownRequested := service.ShutdownRequested();
  }
}
