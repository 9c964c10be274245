/** The bounded batch runner as a transition system: one task per item behind a shared
    semaphore, a parent waiting in `gather` that on the first failure cancels every task,
    drains them all and re-raises. Workers, the event loop and the caller are environment:
    any enabled action may happen next. */
module BatchRunner {
  import opened Wrappers

  const CONCURRENT_REQUESTS: nat := 10

  datatype Exception<+E> = Error(error: E) | CancelledError

  datatype Outcome<+T, +E> = Value(value: T) | Raised(exc: Exception<E>)

  /** `Granted` holds a permit handed over by a release but has not resumed yet. */
  datatype Phase<+T, +E> = NotStarted | Waiting | Granted | Running | Finished(outcome: Outcome<T, E>)

  /** `cancelling`: `cancel()` was called on it before it ended. */
  datatype Task<+T, +E> = Task(phase: Phase<T, E>, cancelling: bool)

  /** The future returned by the first `gather`. */
  datatype Gather<+E> = Open | Complete | Failed(exc: Exception<E>)

  datatype Parent<+T, +E> =
    | Gathering
    | Draining(exc: Exception<E>)
    | Returned(results: seq<T>)
    | RaisedOut(exc: Exception<E>)

  datatype State<+T, +E> = State(
    tasks: seq<Task<T, E>>,
    free: nat,                // permits in the semaphore
    started: seq<nat>,        // items whose worker was called, in call order
    log: seq<nat>,            // tasks that ended, in completion order
    seen: nat,                // completions `gather` has been told about
    gather: Gather<E>,
    gatherCancelled: bool,    // the caller was cancelled while `gather` was open
    mustCancel: bool,         // the caller was cancelled after its future was settled
    drainCancelled: bool,     // the caller was cancelled while draining
    parent: Parent<T, E>)

  /** `answers(item, value)`: the worker may return `value` for `item`. */
  datatype Batch<!I, !T> = Batch(items: seq<I>, concurrency: nat, answers: (I, T) -> bool)

  datatype Action<+T, +E> =
    | Acquire(i: nat)                          // takes a free permit and calls its worker at once
    | Enqueue(i: nat)                          // suspends on the semaphore
    | Grant(i: nat)                            // a free permit is handed to a queued task
    | Enter(i: nat)                            // a granted task resumes and calls its worker
    | Unwind(i: nat)                           // a cancelled task ends before calling its worker
    | Finish(i: nat, outcome: Outcome<T, E>)   // a worker ends and its permit is released
    | Callback                                 // `gather` learns of the next completion
    | ResumeParent
    | CancelCaller

  // ---------- the transitions ----------

  function Init<I, T, E>(b: Batch<I, T>): State<T, E> {
    State(seq(|b.items|, i => Task(NotStarted, false)), b.concurrency, [], [], 0,
          if b.items == [] then Complete else Open, false, false, false,
          if b.items == [] then Returned([]) else Gathering)
  }

  predicate Before(phase: Phase) { phase.NotStarted? || phase.Waiting? || phase.Granted? }

  predicate Holds(phase: Phase) { phase.Granted? || phase.Running? }

  predicate AllFinished(tasks: seq<Task>) {
    forall i :: 0 <= i < |tasks| ==> tasks[i].phase.Finished?
  }

  predicate AllValues(tasks: seq<Task>) {
    forall i :: 0 <= i < |tasks| ==> tasks[i].phase.Finished? && tasks[i].phase.outcome.Value?
  }

  predicate Enabled<I, T, E>(b: Batch<I, T>, s: State<T, E>, a: Action<T, E>) {
    match a
    case Acquire(i) => i < |s.tasks| && s.tasks[i] == Task(NotStarted, false) && s.free > 0
    case Enqueue(i) => i < |s.tasks| && s.tasks[i] == Task(NotStarted, false)
    case Grant(i) => i < |s.tasks| && s.tasks[i] == Task(Waiting, false) && s.free > 0
    case Enter(i) => i < |s.tasks| && s.tasks[i] == Task(Granted, false)
    case Unwind(i) => i < |s.tasks| && Before(s.tasks[i].phase) && s.tasks[i].cancelling
    case Finish(i, o) =>
      && i < |s.tasks| && i < |b.items| && s.tasks[i].phase.Running?
      && (o.Value? ==> b.answers(b.items[i], o.value))
    case Callback =>
      && s.gather.Open? && s.seen < |s.log|
      && s.log[s.seen] < |s.tasks| && s.tasks[s.log[s.seen]].phase.Finished?
    case ResumeParent =>
      // the results of a complete gather are always there; NeverStuck relies on it
      || (s.parent.Gathering? && !s.gather.Open? && (s.gather.Complete? ==> AllValues(s.tasks)))
      || (s.parent.Draining? && AllFinished(s.tasks))
    case CancelCaller =>
      || (s.parent.Gathering? && if s.gather.Open? && !AllFinished(s.tasks) then !s.gatherCancelled else !s.mustCancel)
      || (s.parent.Draining? && !s.drainCancelled)
  }

  function SetPhase<T, E>(s: State<T, E>, i: nat, phase: Phase<T, E>): State<T, E>
    requires i < |s.tasks|
  {
    s.(tasks := s.tasks[i := s.tasks[i].(phase := phase)])
  }

  function End<T, E>(s: State<T, E>, i: nat, outcome: Outcome<T, E>, released: nat): State<T, E>
    requires i < |s.tasks|
  {
    s.(tasks := s.tasks[i := Task(Finished(outcome), false)], free := s.free + released, log := s.log + [i])
  }

  /** `task.cancel()` for every task; a finished one ignores it. */
  function CancelAll<T, E>(tasks: seq<Task<T, E>>): (cancelled: seq<Task<T, E>>)
    ensures |cancelled| == |tasks|
    ensures forall i :: 0 <= i < |tasks| ==>
              cancelled[i] == Task(tasks[i].phase, tasks[i].cancelling || !tasks[i].phase.Finished?)
  {
    seq(|tasks|, i requires 0 <= i < |tasks| =>
      Task(tasks[i].phase, tasks[i].cancelling || !tasks[i].phase.Finished?))
  }

  function Values<T, E>(tasks: seq<Task<T, E>>): (values: seq<T>)
    requires AllValues(tasks)
    ensures |values| == |tasks|
    ensures forall i :: 0 <= i < |tasks| ==> tasks[i].phase.outcome == Value(values[i])
  {
    seq(|tasks|, i requires 0 <= i < |tasks| => tasks[i].phase.outcome.value)
  }

  /** `gather`'s callback for the next completion. */
  function Told<T, E>(s: State<T, E>): State<T, E>
    requires s.seen < |s.log| && s.log[s.seen] < |s.tasks| && s.tasks[s.log[s.seen]].phase.Finished?
  {
    var outcome := s.tasks[s.log[s.seen]].phase.outcome;
    var told := s.(seen := s.seen + 1);
    if outcome.Raised? then told.(gather := Failed(outcome.exc))
    else if told.seen != |s.tasks| then told
    else told.(gather := if s.gatherCancelled then Failed(CancelledError) else Complete)
  }

  /** The parent resumes: it returns, or cancels and drains, or re-raises. */
  function Resumed<T, E>(s: State<T, E>): State<T, E>
    requires s.parent.Draining? || s.mustCancel || s.gather.Failed? || AllValues(s.tasks)
  {
    if s.parent.Draining? then
      s.(parent := RaisedOut(if s.drainCancelled then CancelledError else s.parent.exc))
    else if s.mustCancel || s.gather.Failed? then
      s.(tasks := CancelAll(s.tasks), parent := Draining(if s.mustCancel then CancelledError else s.gather.exc))
    else
      s.(parent := Returned(Values(s.tasks)))
  }

  function CallerCancels<T, E>(s: State<T, E>): State<T, E> {
    if s.parent.Draining? then s.(drainCancelled := true)
    else if s.gather.Open? && !AllFinished(s.tasks) then
      s.(tasks := CancelAll(s.tasks), gatherCancelled := true)
    else s.(mustCancel := true)
  }

  function Next<I, T, E>(b: Batch<I, T>, s: State<T, E>, a: Action<T, E>): State<T, E>
    requires Enabled(b, s, a)
  {
    match a
    case Acquire(i) => SetPhase(s, i, Running).(free := s.free - 1, started := s.started + [i])
    case Enqueue(i) => SetPhase(s, i, Waiting)
    case Grant(i) => SetPhase(s, i, Granted).(free := s.free - 1)
    case Enter(i) => SetPhase(s, i, Running).(started := s.started + [i])
    case Unwind(i) => End(s, i, Raised(CancelledError), if s.tasks[i].phase.Granted? then 1 else 0)
    case Finish(i, o) => End(s, i, o, 1)
    case Callback => Told(s)
    case ResumeParent => Resumed(s)
    case CancelCaller => CallerCancels(s)
  }

  /** `s'` is where the actions `acts` lead from `s`. */
  ghost predicate Leads<I, T, E(!new)>(b: Batch<I, T>, s: State<T, E>, acts: seq<Action<T, E>>, s': State<T, E>)
    decreases |acts|
  {
    if acts == [] then s == s' else Enabled(b, s, acts[0]) && Leads(b, Next(b, s, acts[0]), acts[1..], s')
  }

  // ---------- what every step keeps ----------

  /** Permits held by tasks. */
  ghost function Held<T, E>(tasks: seq<Task<T, E>>): nat {
    if tasks == [] then 0
    else Held(tasks[..|tasks| - 1]) + if Holds(tasks[|tasks| - 1].phase) then 1 else 0
  }

  /** The first exception in completion order. */
  ghost function FirstFailure<T, E>(tasks: seq<Task<T, E>>, log: seq<nat>): Option<Exception<E>>
    requires forall k :: 0 <= k < |log| ==> log[k] < |tasks| && tasks[log[k]].phase.Finished?
  {
    if log == [] then None
    else
      var earlier := FirstFailure(tasks, log[..|log| - 1]);
      var last := tasks[log[|log| - 1]].phase.outcome;
      if earlier.Some? || last.Value? then earlier else Some(last.exc)
  }

  ghost predicate Distinct(s: seq<nat>) {
    forall j, k :: 0 <= j < k < |s| ==> s[j] != s[k]
  }

  ghost predicate TasksOk<I, T, E>(b: Batch<I, T>, s: State<T, E>) {
    && |s.tasks| == |b.items|
    && s.free + Held(s.tasks) == b.concurrency
  }

  /** The log lists each finished task once. */
  ghost predicate LogOk<T, E>(s: State<T, E>) {
    && s.seen <= |s.log|
    && Distinct(s.log)
    && (forall k :: 0 <= k < |s.log| ==> s.log[k] < |s.tasks| && s.tasks[s.log[k]].phase.Finished?)
    && (forall i :: 0 <= i < |s.tasks| && s.tasks[i].phase.Finished? ==> i in s.log)
  }

  /** A worker is called at most once, before its task can produce anything of its own. */
  ghost predicate StartsOk<I, T, E>(b: Batch<I, T>, s: State<T, E>) {
    && |s.tasks| == |b.items|
    && Distinct(s.started)
    && (forall k :: 0 <= k < |s.started| ==> s.started[k] < |s.tasks|)
    && (forall i :: 0 <= i < |s.tasks| ==>
          match s.tasks[i].phase
          case Running => i in s.started
          case Finished(Value(v)) => i in s.started && b.answers(b.items[i], v)
          case Finished(Raised(Error(_))) => i in s.started
          case Finished(Raised(CancelledError)) => true
          case _ => i !in s.started)
  }

  /** Cancellation reaches every unfinished task or none. */
  ghost predicate CancelOk<T, E>(s: State<T, E>) {
    forall i :: 0 <= i < |s.tasks| ==>
      s.tasks[i].cancelling == (!s.tasks[i].phase.Finished? && CancelSent(s))
  }

  /** The cancel loop has run, or the caller's cancellation was passed on by `gather`. */
  predicate CancelSent<T, E>(s: State<T, E>) {
    s.gatherCancelled || s.parent.Draining? || s.parent.RaisedOut?
  }

  ghost predicate GatherOk<T, E>(s: State<T, E>) {
    && LogOk(s)
    && var failure := FirstFailure(s.tasks, s.log[..s.seen]);
       match s.gather
       case Open => failure == None && s.parent.Gathering? && s.seen < |s.tasks|
       case Complete => failure == None && s.seen == |s.tasks| && !s.gatherCancelled
       case Failed(x) =>
         || failure == Some(x)
         || (failure == None && s.gatherCancelled && x == CancelledError && s.seen == |s.tasks|)
  }

  /** What the parent will raise: the exception it caught, unless the caller was cancelled. */
  ghost predicate Reason<T, E>(s: State<T, E>, x: Exception<E>) {
    if s.mustCancel then x == CancelledError else s.gather == Failed(x)
  }

  ghost predicate ParentOk<T, E>(s: State<T, E>) {
    match s.parent
    case Gathering => !s.drainCancelled
    case Draining(x) => Reason(s, x)
    case Returned(results) =>
      && !s.gather.Open? && !s.mustCancel && !s.drainCancelled && s.gather.Complete?
      && AllValues(s.tasks) && results == Values(s.tasks)
    case RaisedOut(x) => AllFinished(s.tasks) && if s.drainCancelled then x == CancelledError else Reason(s, x)
  }

  ghost predicate Inv<I, T, E>(b: Batch<I, T>, s: State<T, E>) {
    TasksOk(b, s) && StartsOk(b, s) && CancelOk(s) && GatherOk(s) && ParentOk(s)
  }

  // ---------- the invariant is kept ----------

  lemma {:induction false} HeldUpdate<T, E>(tasks: seq<Task<T, E>>, i: nat, t: Task<T, E>)
    requires i < |tasks|
    ensures Held(tasks[i := t]) + (if Holds(tasks[i].phase) then 1 else 0)
         == Held(tasks) + (if Holds(t.phase) then 1 else 0)
  {
    var n := |tasks| - 1;
    if i < n {
      HeldUpdate(tasks[..n], i, t);
      assert tasks[i := t][..n] == tasks[..n][i := t];
    } else {
      assert tasks[i := t][..n] == tasks[..n];
    }
  }

  lemma {:induction false} HeldByPhase<T, E>(a: seq<Task<T, E>>, c: seq<Task<T, E>>)
    requires |a| == |c| && forall i :: 0 <= i < |a| ==> a[i].phase == c[i].phase
    ensures Held(a) == Held(c)
  {
    if a != [] {
      HeldByPhase(a[..|a| - 1], c[..|c| - 1]);
    }
  }

  lemma {:induction false} HeldNone<T, E>(tasks: seq<Task<T, E>>)
    requires forall i :: 0 <= i < |tasks| ==> !Holds(tasks[i].phase)
    ensures Held(tasks) == 0
  {
    if tasks != [] {
      HeldNone(tasks[..|tasks| - 1]);
    }
  }

  /** Completions already logged keep their outcome. */
  lemma {:induction false} FirstFailureKept<T, E>(before: seq<Task<T, E>>, after: seq<Task<T, E>>, log: seq<nat>)
    requires |before| == |after|
    requires forall k :: 0 <= k < |log| ==> log[k] < |before| && before[log[k]].phase.Finished?
    requires forall k :: 0 <= k < |log| ==> after[log[k]].phase == before[log[k]].phase
    ensures FirstFailure(after, log) == FirstFailure(before, log)
  {
    if log != [] {
      FirstFailureKept(before, after, log[..|log| - 1]);
    }
  }

  lemma InitInv<I, T, E>(b: Batch<I, T>)
    ensures Inv(b, Init<I, T, E>(b))
  {
    HeldNone(Init<I, T, E>(b).tasks);
  }

  // ---------- steps of a task ----------

  predicate IsControl(a: Action) { a.Callback? || a.ResumeParent? || a.CancelCaller? }

  /** How far a task still has to go. */
  function Rank(phase: Phase): nat {
    match phase
    case NotStarted => 4
    case Waiting => 3
    case Granted => 2
    case Running => 1
    case Finished(_) => 0
  }

  /** What all steps of task `i` have in common: it moves on, alone, and its permit with it; its
      worker is called at most on the way to `Running`, its end is logged. */
  ghost predicate Changes<I, T, E>(b: Batch<I, T>, s: State<T, E>, s': State<T, E>, i: nat) {
    && i < |s.tasks| == |s'.tasks|
    && s' == s.(tasks := s'.tasks, free := s'.free, started := s'.started, log := s'.log)
    && var before, after := s.tasks[i], s'.tasks[i];
       && s'.tasks == s.tasks[i := after]
       && Rank(after.phase) < Rank(before.phase)
       && s'.free + (if Holds(after.phase) then 1 else 0) == s.free + (if Holds(before.phase) then 1 else 0)
       && s'.started == s.started + (if after.phase.Running? then [i] else [])
       && s'.log == s.log + (if after.phase.Finished? then [i] else [])
       && after.cancelling == (before.cancelling && !after.phase.Finished?)
       && match after.phase
          case Finished(Value(v)) => before.phase.Running? && i < |b.items| && b.answers(b.items[i], v)
          case Finished(Raised(Error(_))) => before.phase.Running?
          case _ => true
  }

  lemma MoveStep<I, T, E>(b: Batch<I, T>, s: State<T, E>, a: Action<T, E>)
    requires Enabled(b, s, a) && (a.Acquire? || a.Enqueue? || a.Grant? || a.Enter?)
    ensures Changes(b, s, Next(b, s, a), a.i)
  {
  }

  lemma EndStep<I, T, E>(b: Batch<I, T>, s: State<T, E>, a: Action<T, E>)
    requires Enabled(b, s, a) && (a.Unwind? || a.Finish?)
    ensures Changes(b, s, Next(b, s, a), a.i)
  {
  }

  lemma TaskStep<I, T, E>(b: Batch<I, T>, s: State<T, E>, a: Action<T, E>)
    requires Enabled(b, s, a) && !IsControl(a)
    ensures Changes(b, s, Next(b, s, a), a.i)
  {
    if a.Unwind? || a.Finish? {
      EndStep(b, s, a);
    } else {
      MoveStep(b, s, a);
    }
  }

  lemma ChangeTasks<I, T, E>(b: Batch<I, T>, s: State<T, E>, s': State<T, E>, i: nat)
    requires TasksOk(b, s) && Changes(b, s, s', i)
    ensures TasksOk(b, s')
  {
    HeldUpdate(s.tasks, i, s'.tasks[i]);
  }

  lemma ChangeStarts<I, T, E>(b: Batch<I, T>, s: State<T, E>, s': State<T, E>, i: nat)
    requires StartsOk(b, s) && Changes(b, s, s', i)
    ensures StartsOk(b, s')
  {
    assert s'.tasks[i].phase.Running? ==> i !in s.started;
  }

  lemma ChangeLog<I, T, E>(b: Batch<I, T>, s: State<T, E>, s': State<T, E>, i: nat)
    requires LogOk(s) && Changes(b, s, s', i)
    ensures LogOk(s')
  {
    assert i !in s.log;
    forall j | 0 <= j < |s'.tasks| && s'.tasks[j].phase.Finished?
      ensures j in s'.log
    {
      assert j == i || j in s.log;
    }
  }

  lemma ChangeGather<I, T, E>(b: Batch<I, T>, s: State<T, E>, s': State<T, E>, i: nat)
    requires GatherOk(s) && Changes(b, s, s', i)
    ensures GatherOk(s')
  {
    ChangeLog(b, s, s', i);
    assert s'.log[..s'.seen] == s.log[..s.seen];
    FirstFailureKept(s.tasks, s'.tasks, s.log[..s.seen]);
  }

  lemma TaskStepInv<I, T, E>(b: Batch<I, T>, s: State<T, E>, s': State<T, E>, i: nat)
    requires Inv(b, s) && Changes(b, s, s', i)
    ensures Inv(b, s')
  {
    ChangeTasks(b, s, s', i);
    ChangeStarts(b, s, s', i);
    ChangeGather(b, s, s', i);
    assert !AllFinished(s.tasks);
  }

  // ---------- steps of the parent ----------

  /** The parent's steps change no phase. */
  ghost predicate SamePhases<T, E>(s: State<T, E>, s': State<T, E>) {
    && |s'.tasks| == |s.tasks| && s'.free == s.free && s'.started == s.started && s'.log == s.log
    && forall i :: 0 <= i < |s.tasks| ==> s'.tasks[i].phase == s.tasks[i].phase
  }

  lemma ControlStep<I, T, E>(b: Batch<I, T>, s: State<T, E>, a: Action<T, E>)
    requires Enabled(b, s, a) && IsControl(a)
    ensures SamePhases(s, Next(b, s, a))
  {
  }

  lemma SamePhasesOk<I, T, E>(b: Batch<I, T>, s: State<T, E>, s': State<T, E>)
    requires TasksOk(b, s) && StartsOk(b, s) && SamePhases(s, s')
    ensures TasksOk(b, s') && StartsOk(b, s')
  {
    HeldByPhase(s.tasks, s'.tasks);
  }

  /** Steps that tell `gather` nothing leave what it knows alone. */
  lemma SameFailures<T, E>(s: State<T, E>, s': State<T, E>)
    requires LogOk(s) && SamePhases(s, s') && s'.seen == s.seen
    ensures LogOk(s') && FirstFailure(s'.tasks, s'.log[..s'.seen]) == FirstFailure(s.tasks, s.log[..s.seen])
  {
    FirstFailureKept(s.tasks, s'.tasks, s.log[..s.seen]);
  }

  /** One more completion extends the failures seen by its own. */
  lemma FirstFailureNext<T, E>(s: State<T, E>)
    requires LogOk(s) && s.seen < |s.log|
    ensures var earlier := FirstFailure(s.tasks, s.log[..s.seen]);
            var outcome := s.tasks[s.log[s.seen]].phase.outcome;
            FirstFailure(s.tasks, s.log[..s.seen + 1])
              == if earlier.Some? || outcome.Value? then earlier else Some(outcome.exc)
  {
    assert s.log[..s.seen + 1][..s.seen] == s.log[..s.seen];
  }

  lemma ToldInv<T, E>(s: State<T, E>)
    requires CancelOk(s) && GatherOk(s) && ParentOk(s) && s.gather.Open? && s.seen < |s.log|
    ensures CancelOk(Told(s)) && GatherOk(Told(s)) && ParentOk(Told(s))
  {
    FirstFailureNext(s);
    assert LogOk(Told(s));
  }

  lemma ResumedInv<T, E>(s: State<T, E>)
    requires CancelOk(s) && GatherOk(s) && ParentOk(s)
    requires if s.parent.Draining? then AllFinished(s.tasks)
             else s.parent.Gathering? && !s.gather.Open? && (s.gather.Complete? ==> AllValues(s.tasks))
    ensures CancelOk(Resumed(s)) && GatherOk(Resumed(s)) && ParentOk(Resumed(s))
  {
    SameFailures(s, Resumed(s));
  }

  lemma CallerCancelsInv<T, E>(s: State<T, E>)
    requires CancelOk(s) && GatherOk(s) && ParentOk(s) && (s.parent.Gathering? || s.parent.Draining?)
    ensures CancelOk(CallerCancels(s)) && GatherOk(CallerCancels(s)) && ParentOk(CallerCancels(s))
  {
    SameFailures(s, CallerCancels(s));
  }

  lemma StepInv<I, T, E>(b: Batch<I, T>, s: State<T, E>, a: Action<T, E>)
    requires Inv(b, s) && Enabled(b, s, a)
    ensures Inv(b, Next(b, s, a))
  {
    if !IsControl(a) {
      TaskStep(b, s, a);
      TaskStepInv(b, s, Next(b, s, a), a.i);
    } else {
      ControlStep(b, s, a);
      SamePhasesOk(b, s, Next(b, s, a));
      if a.Callback? {
        ToldInv(s);
      } else if a.ResumeParent? {
        ResumedInv(s);
      } else {
        CallerCancelsInv(s);
      }
    }
  }

  lemma {:induction false} RunInv<I, T, E(!new)>(
    b: Batch<I, T>, s: State<T, E>, acts: seq<Action<T, E>>, s': State<T, E>)
    requires Inv(b, s) && Leads(b, s, acts, s')
    ensures Inv(b, s')
    decreases |acts|
  {
    if acts != [] {
      StepInv(b, s, acts[0]);
      RunInv(b, Next(b, s, acts[0]), acts[1..], s');
    }
  }
}
