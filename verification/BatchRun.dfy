/** The runner as mutable state: a semaphore counter, an array of tasks cancelled in place, and the
    parent coroutine. Each method is one stretch of code between two suspension points and
    is proved to be exactly one transition of `BatchRunner`. */
module BatchRun {
  import opened Wrappers
  import opened BatchRunner
  import opened BatchHistory
  import opened BatchTheorems

  class BoundedRun<!I, T(!new), E(!new)> {
    const batch: Batch<I, T>
    const tasks: array<Task<T, E>>
    var free: nat
    var started: seq<nat>
    var log: seq<nat>
    var seen: nat
    var gather: Gather<E>
    var gatherCancelled: bool
    var mustCancel: bool
    var drainCancelled: bool
    var parent: Parent<T, E>

    function View(): State<T, E>
      reads this, tasks
    {
      State(tasks[..], free, started, log, seen, gather, gatherCancelled, mustCancel, drainCancelled, parent)
    }

    constructor (batch: Batch<I, T>)
      ensures View() == Init(batch) && this.batch == batch && fresh(tasks)
    {
      this.batch := batch;
      tasks := new Task<T, E>[|batch.items|](_ => Task(NotStarted, false));
      free, started, log, seen := batch.concurrency, [], [], 0;
      gatherCancelled, mustCancel, drainCancelled := false, false, false;
      gather := if batch.items == [] then Complete else Open;
      parent := if batch.items == [] then Returned([]) else Gathering;
    }

    /** First step of a task: through the semaphore and into the worker, or into the queue. */
    method StartTask(i: nat, queue: bool)
      requires Enabled(batch, View(), if queue then Enqueue(i) else Acquire(i))
      modifies this, tasks
      ensures View() == Next(batch, old(View()), if queue then Enqueue(i) else Acquire(i))
    {
      if queue {
        tasks[i] := tasks[i].(phase := Waiting);
      } else {
        free := free - 1;
        tasks[i] := tasks[i].(phase := Running);
        started := started + [i];
      }
    }

    method GrantPermit(i: nat)
      requires Enabled(batch, View(), Grant(i))
      modifies this, tasks
      ensures View() == Next(batch, old(View()), Grant(i))
    {
      free := free - 1;
      tasks[i] := tasks[i].(phase := Granted);
    }

    /** A granted task resumes inside the semaphore and calls its worker. */
    method EnterWorker(i: nat)
      requires Enabled(batch, View(), Enter(i))
      modifies this, tasks
      ensures View() == Next(batch, old(View()), Enter(i))
    {
      tasks[i] := tasks[i].(phase := Running);
      started := started + [i];
    }

    /** The cancellation is raised into a task still in front of its worker. */
    method UnwindTask(i: nat)
      requires Enabled(batch, View(), Unwind(i))
      modifies this, tasks
      ensures View() == Next(batch, old(View()), Unwind(i))
      ensures tasks[..] == old(tasks[..])[i := Task(Finished(Raised(CancelledError)), false)]
      ensures free == old(free) + (if old(tasks[i].phase.Granted?) then 1 else 0) && log == old(log) + [i]
    {
      if tasks[i].phase.Granted? {
        free := free + 1;
      }
      tasks[i] := Task(Finished(Raised(CancelledError)), false);
      log := log + [i];
    }

    /** The worker ended, one way or another, and the semaphore is released. */
    method FinishWorker(i: nat, outcome: Outcome<T, E>)
      requires Enabled(batch, View(), Finish(i, outcome))
      modifies this, tasks
      ensures View() == Next(batch, old(View()), Finish(i, outcome))
      ensures tasks[..] == old(tasks[..])[i := Task(Finished(outcome), false)]
      ensures free == old(free) + 1 && log == old(log) + [i] && parent == old(parent)
    {
      free := free + 1;
      tasks[i] := Task(Finished(outcome), false);
      log := log + [i];
    }

    method TellGather()
      requires Enabled(batch, View(), Callback)
      modifies this
      ensures View() == Next(batch, old(View()), Callback)
    {
      var outcome := tasks[log[seen]].phase.outcome;
      seen := seen + 1;
      if outcome.Raised? {
        gather := Failed(outcome.exc);
      } else if seen == tasks.Length {
        gather := if gatherCancelled then Failed(CancelledError) else Complete;
      }
    }

    /** `for task in tasks: task.cancel()`, with no suspension point inside. */
    method CancelTasks()
      modifies tasks
      ensures tasks[..] == CancelAll(old(tasks[..]))
    {
      for i := 0 to tasks.Length
        invariant forall j :: 0 <= j < i ==> tasks[j] == CancelAll(old(tasks[..]))[j]
        invariant forall j :: i <= j < tasks.Length ==> tasks[j] == old(tasks[j])
      {
        if !tasks[i].phase.Finished? {
          tasks[i] := tasks[i].(cancelling := true);
        }
      }
    }

    method WakeParent()
      requires Enabled(batch, View(), ResumeParent)
      modifies this, tasks
      ensures View() == Next(batch, old(View()), ResumeParent)
    {
      if parent.Draining? {
        parent := RaisedOut(if drainCancelled then CancelledError else parent.exc);
      } else if mustCancel || gather.Failed? {
        CancelTasks();
        parent := Draining(if mustCancel then CancelledError else gather.exc);
      } else {
        parent := Returned(Values(tasks[..]));
      }
    }

    method CancelByCaller()
      requires Enabled(batch, View(), CancelCaller)
      modifies this, tasks
      ensures View() == Next(batch, old(View()), CancelCaller)
    {
      if parent.Draining? {
        drainCancelled := true;
      } else if gather.Open? && !AllFinished(tasks[..]) {
        CancelTasks();
        gatherCancelled := true;
      } else {
        mustCancel := true;
      }
    }

    method Perform(a: Action<T, E>)
      requires Enabled(batch, View(), a)
      modifies this, tasks
      ensures View() == Next(batch, old(View()), a)
    {
      match a
      case Acquire(i) => StartTask(i, false);
      case Enqueue(i) => StartTask(i, true);
      case Grant(i) => GrantPermit(i);
      case Enter(i) => EnterWorker(i);
      case Unwind(i) => UnwindTask(i);
      case Finish(i, o) => FinishWorker(i, o);
      case Callback => TellGather();
      case ResumeParent => WakeParent();
      case CancelCaller => CancelByCaller();
    }
  }

  /** `_run_bounded` under any event loop: whatever possible action `schedule` picks next, the
      call ends. It returns what each item's worker returned, in item order, or with nothing left
      running raises what the first worker to raise raised - or its caller's cancellation. */
  method RunBounded<I, T(!new), E(!new)>(batch: Batch<I, T>, schedule: State<T, E> -> Action<T, E>)
    returns (end: State<T, E>, ghost acts: seq<Action<T, E>>)
    requires forall s :: Inv(batch, s) && !Final(s) ==> Enabled(batch, s, schedule(s))
    ensures Reachable(batch, acts, end) && Final(end)
    ensures end.parent.Returned? ==>
              && |end.parent.results| == |batch.items| && NoneRaised(acts) && CancelCaller !in acts
              && (forall i :: 0 <= i < |batch.items| ==> batch.answers(batch.items[i], end.parent.results[i]))
              && (forall i: nat, v :: i < |batch.items| ==>
                    (Finish(i, Value(v)) in acts <==> v == end.parent.results[i]))
    ensures end.parent.RaisedOut? ==>
              && AllFinished(end.tasks) && end.free == batch.concurrency && LogOk(end)
              && (FirstFailure(end.tasks, end.log) == Some(end.parent.exc)
                  || (end.parent.exc == CancelledError && CancelCaller in acts))
              && (FirstToRaise(acts, end.parent.exc) || (end.parent.exc == CancelledError && CancelCaller in acts))
  {
    var run := new BoundedRun<I, T, E>(batch);
    ghost var start := Init<I, T, E>(batch);
    acts := [];
    InitInv<I, T, E>(batch);
    while !run.parent.Returned? && !run.parent.RaisedOut?
      invariant fresh(run) && fresh(run.tasks) && run.batch == batch
      invariant Reachable(batch, acts, run.View()) && Inv(batch, run.View())
      decreases Measure(run.View())
    {
      ghost var before := run.View();
      var a := schedule(run.View());
      StepInv(batch, before, a);
      MeasureNat(batch, before);
      StepDecreases(batch, before, a);
      LeadsOn(batch, start, acts, before, a);
      run.Perform(a);
      acts := acts + [a];
    }
    end := run.View();
    if end.parent.Returned? {
      ReturnsInOrder(batch, acts, end);
    } else {
      RaisesFirstFailure(batch, acts, end);
    }
  }
}
