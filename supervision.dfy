/** The supervised-task lifecycle of `CriticalBackgroundService`: start one execution, hand a
    fault that happens before the first suspension straight back to the caller, escalate a
    later fault through `OnError` unless the stopping token was cancelled first, and stop by
    cancelling and waiting for the work or the stop deadline. */
module Supervision {
  import opened Tasks

  /** What the subclass's `ExecuteAsync` has done by the time it hands control back. */
  datatype Launch =
    | SyncOk                            // returned a task that has already run to completion
    | SyncFault(message: string)        // an async method that threw before its first await: a faulted task
    | SyncCancelled                     // returned a task that is already cancelled
    | Pending                           // suspended at least once: the returned task is still running
    | ThrowsBeforeTask(message: string) // a non-async method that throws: no task is returned at all

  /** One call of `OnError` made by the continuation attached to task number `task`. (A
      subclass may call `OnError` itself as well; the periodic scheduler's own calls are steps of
      its trace.) */
  datatype Escalation = Escalation(task: nat, message: string)

  /** The runner's state. `tasks` holds every task `ExecuteAsync` has returned, oldest first,
      `executing` is `_executingTask` (an index into `tasks`), `cancelled` is the state of
      `_stoppingCts`, and `escalations` records the continuation's calls of the injected
      `OnError`. */
  datatype Runner = Runner(
    tasks: seq<Status>,
    executing: Option<nat>,
    cancelled: bool,
    escalations: seq<Escalation>)

  const Initial := Runner([], None, false, [])

  /** The status of the task a launch returns. */
  function InitialStatus(launch: Launch): Status
    requires !launch.ThrowsBeforeTask?
  {
    match launch
    case SyncOk => Completed(Ok)
    case SyncFault(m) => Completed(Fault(m))
    case SyncCancelled => Completed(Cancelled)
    case Pending => Running
  }

  /** The state after `StartAsync`: the returned task is stored as `_executingTask` before
      `IsCompleted` is inspected; a throwing `ExecuteAsync` leaves everything as it was. */
  function Started(r: Runner, launch: Launch): (r': Runner)
    ensures r'.cancelled == r.cancelled && r'.escalations == r.escalations
    ensures launch.ThrowsBeforeTask? ==> r' == r
    ensures !launch.ThrowsBeforeTask? ==>
      && |r'.tasks| == |r.tasks| + 1 && r'.tasks[..|r.tasks|] == r.tasks
      && r'.executing == Some(|r.tasks|)
      && (r'.tasks[|r.tasks|].Running? <==> launch.Pending?)
  {
    if launch.ThrowsBeforeTask? then r
    else r.(tasks := r.tasks + [InitialStatus(launch)], executing := Some(|r.tasks|))
  }

  /** What the caller of `StartAsync` observes when it awaits the result. */
  function StartResult(launch: Launch): (o: Outcome)
    ensures launch.Pending? ==> o == Ok
    ensures launch.ThrowsBeforeTask? ==> o == Fault(launch.message)
    ensures !launch.Pending? && !launch.ThrowsBeforeTask? ==> Completed(o) == InitialStatus(launch)
  {
    match launch
    case SyncOk => Ok
    case SyncFault(m) => Fault(m)
    case SyncCancelled => Cancelled
    case Pending => Ok
    case ThrowsBeforeTask(m) => Fault(m)
  }

  predicate CanComplete(r: Runner, i: nat)
  {
    i < |r.tasks| && r.tasks[i].Running?
  }

  /** A running task ends with outcome `o`; its continuation, registered with the stopping
      token, runs only if that token is not cancelled, and calls `OnError` only when the task
      carries an exception. */
  function Complete(r: Runner, i: nat, o: Outcome): (r': Runner)
    requires CanComplete(r, i)
    ensures r'.executing == r.executing && r'.cancelled == r.cancelled
    ensures |r'.tasks| == |r.tasks| && r'.tasks[i] == Completed(o)
    ensures forall j :: 0 <= j < |r.tasks| && j != i ==> r'.tasks[j] == r.tasks[j]
  {
    r.(tasks := r.tasks[i := Completed(o)],
       escalations := if o.Fault? && !r.cancelled then r.escalations + [Escalation(i, o.message)]
                      else r.escalations)
  }

  /** The state after `StopAsync`: a never-started runner is left alone, otherwise the
      stopping token is cancelled. */
  function Stopped(r: Runner): (r': Runner)
    ensures r'.tasks == r.tasks && r'.executing == r.executing && r'.escalations == r.escalations
    ensures r'.cancelled == (r.cancelled || r.executing.Some?)
  {
    if r.executing.None? then r else r.(cancelled := true)
  }

  /** The task `StopAsync` waits for, if any: the execution handle at the time of the call. */
  function StopAwaits(r: Runner): Option<nat>
  {
    r.executing
  }

  /** Whether a `StopAsync` that awaits `awaited` has finished: at once when there is nothing to
      await, otherwise when the awaited task has completed or the deadline token has fired. */
  predicate StopCompleted(r: Runner, awaited: Option<nat>, deadlineFired: bool)
  {
    match awaited
    case None => true
    case Some(i) => deadlineFired || (i < |r.tasks| && r.tasks[i].Completed?)
  }

  /** What awaiting `StopAsync` yields: nothing while it is still waiting, and success once it
      has finished. The success is unconditional because `Task.WhenAny` completes with the task
      that finished first and never rethrows that task's exception. */
  function StopResult(r: Runner, awaited: Option<nat>, deadlineFired: bool): Option<Outcome>
  {
    if StopCompleted(r, awaited, deadlineFired) then Some(Ok) else None
  }

  /** The state after `Dispose`: the stopping token is cancelled. */
  function Disposed(r: Runner): (r': Runner)
    ensures r'.cancelled
    ensures r'.tasks == r.tasks && r'.executing == r.executing && r'.escalations == r.escalations
  {
    r.(cancelled := true)
  }

  /** Everything that can happen to a runner, one step at a time. */
  datatype Event =
    | StartEvent(launch: Launch)
    | CompleteEvent(task: nat, outcome: Outcome)
    | StopEvent
    | DisposeEvent

  /** Only a running task can complete. */
  predicate Enabled(r: Runner, e: Event)
  {
    e.CompleteEvent? ==> CanComplete(r, e.task)
  }

  function Apply(r: Runner, e: Event): Runner
    requires Enabled(r, e)
  {
    match e
    case StartEvent(launch) => Started(r, launch)
    case CompleteEvent(i, o) => Complete(r, i, o)
    case StopEvent => Stopped(r)
    case DisposeEvent => Disposed(r)
  }

  predicate ValidTrace(r: Runner, es: seq<Event>)
    decreases |es|
  {
    es == [] || (Enabled(r, es[0]) && ValidTrace(Apply(r, es[0]), es[1..]))
  }

  function Run(r: Runner, es: seq<Event>): Runner
    requires ValidTrace(r, es)
    decreases |es|
  {
    if es == [] then r else Run(Apply(r, es[0]), es[1..])
  }

  /** How many times `OnError` was called for task `i`. */
  function EscalationsOf(log: seq<Escalation>, i: nat): nat
  {
    if log == [] then 0
    else EscalationsOf(log[..|log| - 1], i) + (if log[|log| - 1].task == i then 1 else 0)
  }

  lemma EscalationsOfAppend(log: seq<Escalation>, e: Escalation, i: nat)
    ensures EscalationsOf(log + [e], i) == EscalationsOf(log, i) + (if e.task == i then 1 else 0)
  {
    assert (log + [e])[..|log|] == log;
  }

  /** The runner's invariant: the handle names a task, every task is escalated at most once,
      and only a completed task has been escalated. */
  ghost predicate Inv(r: Runner)
  {
    && (r.executing.Some? ==> r.executing.value < |r.tasks|)
    && (forall i: nat :: EscalationsOf(r.escalations, i) <= 1)
    && (forall i: nat :: EscalationsOf(r.escalations, i) > 0 ==> i < |r.tasks| && r.tasks[i].Completed?)
  }

  lemma InitialInv()
    ensures Inv(Initial)
  {
  }

  /** Completing task `i` adds one `OnError` call for `i` exactly when it faulted while the
      stopping token was not cancelled, and none for any other task. */
  lemma CompleteEscalation(r: Runner, i: nat, o: Outcome, j: nat)
    requires CanComplete(r, i)
    ensures EscalationsOf(Complete(r, i, o).escalations, j)
         == EscalationsOf(r.escalations, j) + (if j == i && o.Fault? && !r.cancelled then 1 else 0)
  {
    if o.Fault? && !r.cancelled {
      EscalationsOfAppend(r.escalations, Escalation(i, o.message), j);
    }
  }

  lemma ApplyPreservesInv(r: Runner, e: Event)
    requires Inv(r) && Enabled(r, e)
    ensures Inv(Apply(r, e))
  {
    match e
    case StartEvent(launch) =>
    case CompleteEvent(i, o) =>
      var r' := Complete(r, i, o);
      forall j: nat
        ensures EscalationsOf(r'.escalations, j) <= 1
        ensures EscalationsOf(r'.escalations, j) > 0 ==> j < |r'.tasks| && r'.tasks[j].Completed?
      {
        CompleteEscalation(r, i, o, j);
      }
    case StopEvent =>
    case DisposeEvent =>
  }

  lemma {:induction false} RunPreservesInv(r: Runner, es: seq<Event>)
    requires Inv(r) && ValidTrace(r, es)
    ensures Inv(Run(r, es))
    decreases |es|
  {
    if es != [] {
      ApplyPreservesInv(r, es[0]);
      RunPreservesInv(Apply(r, es[0]), es[1..]);
    }
  }

  /** A launch that completed before `StartAsync` inspected it is handed back as that very
      task: the caller observes the task's own outcome. */
  lemma SyncStartReturnsTask(r: Runner, launch: Launch)
    requires !launch.Pending? && !launch.ThrowsBeforeTask?
    ensures Started(r, launch).tasks[|r.tasks|] == Completed(StartResult(launch))
    ensures Started(r, launch).executing == Some(|r.tasks|)
  {
  }

  /** A completed task never changes again, and nothing more is escalated for it. */
  lemma {:induction false} CompletedTaskIsFinal(r: Runner, es: seq<Event>, i: nat)
    requires ValidTrace(r, es) && i < |r.tasks| && r.tasks[i].Completed?
    ensures i < |Run(r, es).tasks| && Run(r, es).tasks[i] == r.tasks[i]
    ensures EscalationsOf(Run(r, es).escalations, i) == EscalationsOf(r.escalations, i)
    decreases |es|
  {
    if es != [] {
      var r1 := Apply(r, es[0]);
      match es[0] {
        case StartEvent(launch) =>
          if !launch.ThrowsBeforeTask? {
            assert r1.tasks[i] == r1.tasks[..|r.tasks|][i];
          }
        case CompleteEvent(k, o) =>
          CompleteEscalation(r, k, o, i);
        case StopEvent =>
        case DisposeEvent =>
      }
      CompletedTaskIsFinal(r1, es[1..], i);
    }
  }

  /** A task that completed before `StartAsync` looked at it never reaches `OnError`, whatever
      happens afterwards. */
  lemma SyncStartNeverEscalates(r: Runner, launch: Launch, es: seq<Event>)
    requires Inv(r) && !launch.Pending? && !launch.ThrowsBeforeTask?
    requires ValidTrace(Started(r, launch), es)
    ensures EscalationsOf(Run(Started(r, launch), es).escalations, |r.tasks|) == 0
  {
    var r1 := Started(r, launch);
    assert EscalationsOf(r.escalations, |r.tasks|) == 0;
    CompletedTaskIsFinal(r1, es, |r.tasks|);
  }

  /** A task that was still running when `StartAsync` returned reaches `OnError` exactly once
      if it faults while the stopping token is not cancelled, and never otherwise (it ran to
      completion, it was cancelled, or the token was cancelled first). */
  lemma PendingTaskEscalation(r: Runner, i: nat, o: Outcome, es: seq<Event>)
    requires Inv(r) && CanComplete(r, i)
    requires ValidTrace(Complete(r, i, o), es)
    ensures EscalationsOf(Run(Complete(r, i, o), es).escalations, i)
         == if o.Fault? && !r.cancelled then 1 else 0
  {
    CompleteEscalation(r, i, o, i);
    assert EscalationsOf(r.escalations, i) == 0;
    CompletedTaskIsFinal(Complete(r, i, o), es, i);
  }

  /** Cancellation is monotone, and once the stopping token is cancelled no continuation calls
      `OnError` any more. */
  lemma {:induction false} CancellationSilencesEscalation(r: Runner, es: seq<Event>)
    requires r.cancelled && ValidTrace(r, es)
    ensures Run(r, es).cancelled
    ensures Run(r, es).escalations == r.escalations
    decreases |es|
  {
    if es != [] {
      CancellationSilencesEscalation(Apply(r, es[0]), es[1..]);
    }
  }

  /** `StopAsync` or `Dispose` before a running task faults keeps that fault away from
      `OnError`. */
  lemma StopBeforeFaultIsSilent(r: Runner, i: nat, m: string, viaDispose: bool)
    requires r.executing.Some? && CanComplete(r, i)
    ensures var stopped := if viaDispose then Disposed(r) else Stopped(r);
            Complete(stopped, i, Fault(m)).escalations == r.escalations
  {
  }

  /** `StopAsync` on a runner that was never started changes nothing and finishes at once. */
  lemma StopWithoutStart(r: Runner, deadlineFired: bool)
    requires r.executing.None?
    ensures Stopped(r) == r
    ensures StopResult(Stopped(r), StopAwaits(r), deadlineFired) == Some(Ok)
  {
  }

  /** `StopAsync` on a started runner cancels the stopping token and then finishes exactly when
      the awaited task has completed or the deadline has fired. */
  lemma StopWaitsForWorkOrDeadline(r: Runner, deadlineFired: bool)
    requires Inv(r) && r.executing.Some?
    ensures Stopped(r).cancelled
    ensures StopCompleted(Stopped(r), StopAwaits(r), deadlineFired)
        <==> deadlineFired || r.tasks[r.executing.value].Completed?
  {
  }

  /** A running task awaited by `StopAsync` that then completes, with any outcome, lets the stop
      finish before the deadline. */
  lemma StopFinishesWhenWorkCompletes(r: Runner, i: nat, o: Outcome)
    requires CanComplete(r, i)
    ensures !StopCompleted(r, Some(i), false)
    ensures StopCompleted(Complete(r, i, o), Some(i), false)
    ensures StopResult(Complete(r, i, o), Some(i), false) == Some(Ok)
  {
  }

  /** Once a stop has finished it stays finished, whatever happens afterwards. */
  lemma StopCompletionIsStable(r: Runner, awaited: Option<nat>, deadlineFired: bool, es: seq<Event>)
    requires ValidTrace(r, es) && StopCompleted(r, awaited, deadlineFired)
    ensures StopCompleted(Run(r, es), awaited, deadlineFired)
  {
    if awaited.Some? && !deadlineFired {
      CompletedTaskIsFinal(r, es, awaited.value);
    }
  }

  /** `Dispose` always leaves the token cancelled, and a second call changes nothing. */
  lemma DisposeIsIdempotent(r: Runner)
    ensures Disposed(Disposed(r)) == Disposed(r)
    ensures Stopped(Disposed(r)).cancelled == Disposed(r).cancelled
  {
  }

  /** The runner as the object it is in the source: `StartAsync`, `StopAsync` and `Dispose`
      update its fields, and the continuation of a running task is the `CompleteTask` step. */
  class CriticalBackgroundService {
    var tasks: seq<Status>
    var executingTask: Option<nat>
    var stoppingCancelled: bool
    var escalations: seq<Escalation>

    function Model(): Runner
      reads this
    {
      Runner(tasks, executingTask, stoppingCancelled, escalations)
    }

    ghost predicate Valid()
      reads this
    {
      Inv(Model())
    }

    constructor ()
      ensures Valid() && Model() == Initial
    {
      tasks, executingTask, stoppingCancelled, escalations := [], None, false, [];
    }

    /** The injected escalation callback as the continuation calls it: once, for a task that
        has completed and has not been escalated before. It records the fault (a test double's
        `ShutDownApplication`). */
    method OnError(e: Escalation)
      requires Valid()
      requires e.task < |tasks| && tasks[e.task].Completed? && EscalationsOf(escalations, e.task) == 0
      modifies this
      ensures Valid()
      ensures escalations == old(escalations) + [e]
      ensures tasks == old(tasks) && executingTask == old(executingTask)
      ensures stoppingCancelled == old(stoppingCancelled)
    {
      forall i: nat
        ensures EscalationsOf(escalations + [e], i) == EscalationsOf(escalations, i) + (if e.task == i then 1 else 0)
      {
        EscalationsOfAppend(escalations, e, i);
      }
      escalations := escalations + [e];
    }

    function ShutdownRequested(): bool
      reads this
    {
      |escalations| > 0
    }

    method StartAsync(launch: Launch) returns (result: Outcome)
      requires Valid()
      modifies this
      ensures Valid()
      ensures Model() == Started(old(Model()), launch)
      ensures result == StartResult(launch)
    {
      if launch.ThrowsBeforeTask? {
        // the exception leaves StartAsync before _executingTask is assigned
        return Fault(launch.message);
      }
      tasks := tasks + [InitialStatus(launch)];
      executingTask := Some(|tasks| - 1);
      var status := tasks[|tasks| - 1];
      if status.Completed? {
        return status.outcome;
      }
      // a continuation is now attached to the running task (see CompleteTask)
      result := Ok;
    }

    /** The running task `i` ends with `o`, and its continuation runs unless the stopping
        token has been cancelled. */
    method CompleteTask(i: nat, o: Outcome)
      requires Valid() && CanComplete(Model(), i)
      modifies this
      ensures Valid()
      ensures Model() == Complete(old(Model()), i, o)
    {
      ApplyPreservesInv(Model(), CompleteEvent(i, o));
      tasks := tasks[i := Completed(o)];
      if !stoppingCancelled && o.Fault? {
        OnError(Escalation(i, o.message));
      }
    }

    /** Returns the task the stop waits for; `StopCompleted` says when the wait is over. */
    method StopAsync() returns (awaited: Option<nat>)
      requires Valid()
      modifies this
      ensures Valid()
      ensures Model() == Stopped(old(Model()))
      ensures awaited == StopAwaits(old(Model()))
    {
      if executingTask.None? {
        return None;
      }
      stoppingCancelled := true;
      awaited := executingTask;
    }

    method Dispose()
      requires Valid()
      modifies this
      ensures Valid()
      ensures Model() == Disposed(old(Model()))
    {
      stoppingCancelled := true;
    }
  }
}
