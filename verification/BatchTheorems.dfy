/** What holds of every run of the bounded batch runner, in every interleaving and for any
    number of items. */
module BatchTheorems {
  import opened Wrappers
  import opened BatchRunner
  import opened BatchHistory

  // ---------- permits ----------

  ghost function InFlight<T, E>(tasks: seq<Task<T, E>>): set<nat> {
    set i: nat | i < |tasks| && tasks[i].phase.Running?
  }

  lemma {:induction false} InFlightHeld<T, E>(tasks: seq<Task<T, E>>)
    ensures |InFlight(tasks)| <= Held(tasks)
  {
    if tasks == [] {
      assert InFlight(tasks) == {};
    } else {
      var n := |tasks| - 1;
      InFlightHeld(tasks[..n]);
      assert InFlight(tasks) == InFlight(tasks[..n]) + if tasks[n].phase.Running? then {n} else {};
    }
  }

  /** The workers called but not ended are those of the running tasks. */
  lemma BusyWorkers<I, T(!new), E(!new)>(b: Batch<I, T>, acts: seq<Action<T, E>>, s: State<T, E>)
    requires Reachable(b, acts, s)
    ensures (set i | i in Starts(acts) && i !in Ends(acts)) == InFlight(s.tasks)
  {
    ReachableInv(b, acts, s);
    Recorded(b, acts, s);
    forall i: nat
      ensures i in Starts(acts) && i !in Ends(acts) <==> i in InFlight(s.tasks)
    {
      assert i in s.started ==> i < |s.tasks|;
      assert i < |s.tasks| ==> (s.tasks[i].phase.Finished? <==> i in s.log);
    }
  }

  /** No permit is lost or invented, so there are never more than `concurrency` workers called
      but not ended. */
  lemma PermitConservation<I, T(!new), E(!new)>(b: Batch<I, T>, acts: seq<Action<T, E>>, s: State<T, E>)
    requires Reachable(b, acts, s)
    ensures s.free + Held(s.tasks) == b.concurrency
    ensures |set i | i in Starts(acts) && i !in Ends(acts)| <= b.concurrency
    ensures |InFlight(s.tasks)| <= b.concurrency
  {
    ReachableInv(b, acts, s);
    BusyWorkers(b, acts, s);
    InFlightHeld(s.tasks);
  }

  // ---------- failure and cancellation ----------

  lemma StepAfterCancel<I, T, E>(b: Batch<I, T>, s: State<T, E>, a: Action<T, E>)
    requires CancelOk(s) && CancelSent(s) && Enabled(b, s, a)
    ensures CancelSent(Next(b, s, a)) && Next(b, s, a).started == s.started
  {
  }

  lemma {:induction false} NoStartsAfterCancel<I, T, E(!new)>(
    b: Batch<I, T>, s: State<T, E>, acts: seq<Action<T, E>>, s': State<T, E>)
    requires Inv(b, s) && CancelSent(s) && Leads(b, s, acts, s')
    ensures CancelSent(s') && s'.started == s.started
    decreases |acts|
  {
    if acts != [] {
      StepInv(b, s, acts[0]);
      StepAfterCancel(b, s, acts[0]);
      NoStartsAfterCancel(b, Next(b, s, acts[0]), acts[1..], s');
    }
  }

  lemma {:induction false} StartsStay<T, E>(upTo: seq<Action<T, E>>, later: seq<Action<T, E>>)
    ensures Starts(upTo) <= Starts(upTo + later)
    ensures |Starts(upTo + later)| == |Starts(upTo)| ==> forall a :: a in later ==> !a.Acquire? && !a.Enter?
    decreases |later|
  {
    if later == [] {
      assert upTo + later == upTo;
    } else {
      var n := |later| - 1;
      assert (upTo + later)[..|upTo + later| - 1] == upTo + later[..n];
      StartsStay(upTo, later[..n]);
    }
  }

  /** Once the cancel loop has run (or the caller's cancellation was passed on), no worker
      that had not been called ever is, although unwinding tasks keep returning permits; and
      every task that has not ended has been cancelled. */
  lemma FailureDrain<I, T(!new), E(!new)>(
    b: Batch<I, T>, upTo: seq<Action<T, E>>, s: State<T, E>, later: seq<Action<T, E>>, s': State<T, E>)
    requires Reachable(b, upTo, s) && Leads(b, s, later, s')
    requires s.gatherCancelled || s.parent.Draining? || s.parent.RaisedOut?
    ensures s'.started == s.started
    ensures forall a :: a in later ==> !a.Acquire? && !a.Enter?
    ensures forall i :: 0 <= i < |s'.tasks| ==> s'.tasks[i].phase.Finished? || s'.tasks[i].cancelling
  {
    var init := Init<I, T, E>(b);
    ReachableInv(b, upTo, s);
    NoStartsAfterCancel(b, s, later, s');
    LeadsJoin(b, init, upTo, s, later, s');
    ReachableInv(b, upTo + later, s');
    Recorded(b, upTo, s);
    Recorded(b, upTo + later, s');
    StartsStay(upTo, later);
  }

  /** Nor is anybody cancelled before. */
  lemma {:induction false} NobodyCancelledBefore<I, T, E(!new)>(
    b: Batch<I, T>, acts: seq<Action<T, E>>, s: State<T, E>)
    requires Reachable(b, acts, s) && !s.gatherCancelled && (s.parent.Gathering? || s.parent.Returned?)
    ensures forall i :: 0 <= i < |s.tasks| ==> !s.tasks[i].cancelling
    ensures forall a :: a in acts ==> !a.Unwind?
    decreases |acts|
  {
    ReachableInv(b, acts, s);
    if acts != [] {
      var n := |acts| - 1;
      var mid := LastStep(b, Init<I, T, E>(b), acts, s);
      ReachableInv(b, acts[..n], mid);
      if CancelSent(mid) {
        StepAfterCancel(b, mid, acts[n]);
      }
      NobodyCancelledBefore(b, acts[..n], mid);
      assert acts == acts[..n] + [acts[n]];
    }
  }

  /** As soon as `gather` has been told of every completion so far and one of them was a failure,
      the parent can only cancel every task that has not ended, and wait for them. */
  lemma FailsFast<I, T(!new), E(!new)>(b: Batch<I, T>, acts: seq<Action<T, E>>, s: State<T, E>)
    requires Reachable(b, acts, s) && s.parent.Gathering? && s.seen == |s.log| && !NoneRaised(acts)
    ensures Enabled(b, s, ResumeParent)
    ensures var s' := Next(b, s, ResumeParent);
            && s'.parent.Draining? && !Enabled(b, s', Callback)
            && forall i :: 0 <= i < |s'.tasks| ==> s'.tasks[i].phase.Finished? || s'.tasks[i].cancelling
  {
    ReachableInv(b, acts, s);
    FirstFailureOf(b, acts, s);
    FirstEndMeans(acts);
    assert s.log[..s.seen] == s.log;
  }

  predicate CallerCancelled<T, E>(s: State<T, E>) {
    s.gatherCancelled || s.mustCancel || s.drainCancelled
  }

  lemma {:induction false} CallerCancelledOnlyByCaller<I, T, E(!new)>(
    b: Batch<I, T>, s: State<T, E>, acts: seq<Action<T, E>>, s': State<T, E>)
    requires Leads(b, s, acts, s') && CallerCancelled(s') && !CallerCancelled(s)
    ensures CancelCaller in acts
    decreases |acts|
  {
    if acts[0] != CancelCaller {
      CallerCancelledOnlyByCaller(b, Next(b, s, acts[0]), acts[1..], s');
    }
  }

  lemma {:induction false} LeadsOn<I, T, E(!new)>(
    b: Batch<I, T>, s: State<T, E>, acts: seq<Action<T, E>>, s': State<T, E>, a: Action<T, E>)
    requires Leads(b, s, acts, s') && Enabled(b, s', a)
    ensures Leads(b, s, acts + [a], Next(b, s', a))
    decreases |acts|
  {
    if acts == [] {
      assert (acts + [a])[1..] == [];
    } else {
      LeadsOn(b, Next(b, s, acts[0]), acts[1..], s', a);
      assert (acts + [a])[1..] == acts[1..] + [a];
    }
  }

  lemma {:induction false} LeadsJoin<I, T, E(!new)>(
    b: Batch<I, T>, s: State<T, E>, first: seq<Action<T, E>>, mid: State<T, E>, second: seq<Action<T, E>>,
    s': State<T, E>)
    requires Leads(b, s, first, mid) && Leads(b, mid, second, s')
    ensures Leads(b, s, first + second, s')
    decreases |first|
  {
    if first == [] {
      assert first + second == second;
    } else {
      assert (first + second)[0] == first[0] && (first + second)[1..] == first[1..] + second;
      LeadsJoin(b, Next(b, s, first[0]), first[1..], mid, second, s');
    }
  }

  lemma {:induction false} CallerCancelledStays<I, T, E(!new)>(
    b: Batch<I, T>, s: State<T, E>, acts: seq<Action<T, E>>, s': State<T, E>)
    requires Leads(b, s, acts, s') && (CallerCancelled(s) || CancelCaller in acts)
    ensures CallerCancelled(s')
    ensures s.mustCancel || s.drainCancelled ==> s'.mustCancel || s'.drainCancelled
    decreases |acts|
  {
    if acts != [] {
      CallerCancelledStays(b, Next(b, s, acts[0]), acts[1..], s');
    }
  }

  /** A call whose caller was cancelled never returns results; it raises that cancellation if it
      came when `gather` was settled already or the tasks were being drained. If it came earlier
      it was passed on at once to every task that had not ended. */
  lemma CancelledCallRaises<I, T(!new), E(!new)>(
    b: Batch<I, T>, upTo: seq<Action<T, E>>, s: State<T, E>, later: seq<Action<T, E>>, s': State<T, E>)
    requires Reachable(b, upTo, s) && Enabled(b, s, CancelCaller) && Leads(b, Next(b, s, CancelCaller), later, s')
    ensures !s'.parent.Returned?
    ensures !s.gather.Open? && s'.parent.RaisedOut? ==> s'.parent.exc == CancelledError
    ensures s.gather.Open? || s.parent.Draining? ==>
              && (forall a :: a in later ==> !a.Acquire? && !a.Enter?)
              && (forall i :: 0 <= i < |s'.tasks| ==> s'.tasks[i].phase.Finished? || s'.tasks[i].cancelling)
  {
    var s1 := Next(b, s, CancelCaller);
    ReachableInv(b, upTo, s);
    StepInv(b, s, CancelCaller);
    RunInv(b, s1, later, s');
    CallerCancelledStays(b, s1, later, s');
    if CancelSent(s1) {
      LeadsOn(b, Init<I, T, E>(b), upTo, s, CancelCaller);
      FailureDrain(b, upTo + [CancelCaller], s1, later, s');
    } else if s.gather.Open? {
      NothingLeft(b, s1, later, s');
    }
  }

  lemma {:induction false} NothingLeft<I, T, E(!new)>(
    b: Batch<I, T>, s: State<T, E>, acts: seq<Action<T, E>>, s': State<T, E>)
    requires Leads(b, s, acts, s') && AllFinished(s.tasks)
    ensures AllFinished(s'.tasks) && forall a :: a in acts ==> IsControl(a)
    decreases |acts|
  {
    if acts != [] {
      NothingLeft(b, Next(b, s, acts[0]), acts[1..], s');
    }
  }

  /** Left alone by its caller, a call cancels no task before its first failure. */
  lemma {:induction false} Undisturbed<I, T(!new), E(!new)>(
    b: Batch<I, T>, acts: seq<Action<T, E>>, s: State<T, E>)
    requires Reachable(b, acts, s) && CancelCaller !in acts && FirstEnd(acts).Some?
    ensures FirstToRaise(acts, FirstEnd(acts).value)
    decreases |acts|
  {
    var n := |acts| - 1;
    var init := Init<I, T, E>(b);
    var mid := LastStep(b, init, acts, s);
    if FirstEnd(acts[..n]).Some? {
      Undisturbed(b, acts[..n], mid);
      RaisesLater(acts, FirstEnd(acts).value);
    } else if acts[n].Finish? {
      FirstEndMeans(acts[..n]);
      assert RaisesAt(acts, n, FirstEnd(acts).value);
    } else {
      ReachableInv(b, acts[..n], mid);
      FirstFailureOf(b, acts[..n], mid);
      if CallerCancelled(mid) {
        CallerCancelledOnlyByCaller(b, init, acts[..n], mid);
      }
      FirstFailureStays(mid.tasks, mid.log, mid.seen);
    }
  }

  lemma {:induction false} FirstFailureStays<T, E>(tasks: seq<Task<T, E>>, log: seq<nat>, n: nat)
    requires forall k :: 0 <= k < |log| ==> log[k] < |tasks| && tasks[log[k]].phase.Finished?
    requires n <= |log| && FirstFailure(tasks, log[..n]).Some?
    ensures FirstFailure(tasks, log) == FirstFailure(tasks, log[..n])
    decreases |log|
  {
    if n < |log| {
      var init := log[..|log| - 1];
      assert init[..n] == log[..n];
      FirstFailureStays(tasks, init, n);
    } else {
      assert log[..n] == log;
    }
  }

  lemma {:induction false} NoFailureNoRaise<T, E>(tasks: seq<Task<T, E>>, log: seq<nat>)
    requires forall k :: 0 <= k < |log| ==> log[k] < |tasks| && tasks[log[k]].phase.Finished?
    ensures FirstFailure(tasks, log) == None <==> forall i :: i in log ==> tasks[i].phase.outcome.Value?
  {
    if log != [] {
      var init, last := log[..|log| - 1], log[|log| - 1];
      NoFailureNoRaise(tasks, init);
      assert log == init + [last];
    }
  }

  /** A raising call raises when every task has ended and every permit is back. What it
      raises is what the first worker to raise raised, or the caller's own cancellation. */
  lemma RaisesFirstFailure<I, T(!new), E(!new)>(b: Batch<I, T>, acts: seq<Action<T, E>>, s: State<T, E>)
    requires Reachable(b, acts, s) && s.parent.RaisedOut?
    ensures AllFinished(s.tasks) && LogOk(s) && s.free == b.concurrency
    ensures FirstFailure(s.tasks, s.log) == Some(s.parent.exc)
         || (s.parent.exc == CancelledError && CancelCaller in acts)
    ensures FirstToRaise(acts, s.parent.exc) || (s.parent.exc == CancelledError && CancelCaller in acts)
  {
    ReachableInv(b, acts, s);
    HeldNone(s.tasks);
    FirstFailureOf(b, acts, s);
    if FirstFailure(s.tasks, s.log[..s.seen]) == Some(s.parent.exc) {
      FirstFailureStays(s.tasks, s.log, s.seen);
      FirstEndMeans(acts);
      if CancelCaller !in acts {
        Undisturbed(b, acts, s);
      }
    } else {
      CallerCancelledOnlyByCaller(b, Init<I, T, E>(b), acts, s);
    }
  }

  /** A returning call called every worker exactly once, and its i-th result is what the
      worker returned for the i-th item, whatever the completion order was. */
  lemma ReturnsInOrder<I, T(!new), E(!new)>(b: Batch<I, T>, acts: seq<Action<T, E>>, s: State<T, E>)
    requires Reachable(b, acts, s) && s.parent.Returned?
    ensures |s.parent.results| == |b.items| == |s.tasks|
    ensures forall i :: 0 <= i < |b.items| ==>
              b.answers(b.items[i], s.parent.results[i]) && s.tasks[i].phase == Finished(Value(s.parent.results[i]))
    ensures forall i: nat, v :: i < |b.items| ==> (Finish(i, Value(v)) in acts <==> v == s.parent.results[i])
    ensures Distinct(Starts(acts)) && forall i: nat :: i in Starts(acts) <==> i < |b.items|
    ensures NoneRaised(acts) && CancelCaller !in acts && s.free == b.concurrency
  {
    ReachableInv(b, acts, s);
    Recorded(b, acts, s);
    HeldNone(s.tasks);
    forall i: nat, v | i < |b.items|
      ensures Finish(i, Value(v)) in acts <==> v == s.parent.results[i]
    {
      assert s.tasks[i].phase == Finished(Value(v)) <==> EndedWith(acts, i, Value(v));
    }
    forall k | 0 <= k < |acts| && acts[k].Finish?
      ensures acts[k].outcome.Value?
    {
      FinishedItem(b, acts, s, k);
      assert EndedWith(acts, acts[k].i, acts[k].outcome);
    }
    if CancelCaller in acts {
      CallerCancelledStays(b, Init<I, T, E>(b), acts, s);
    }
  }

  /** Left alone by its caller, an ended call returned if no worker failed and raised if one
      did. */
  lemma ReturnsUnlessFailure<I, T(!new), E(!new)>(b: Batch<I, T>, acts: seq<Action<T, E>>, s: State<T, E>)
    requires Reachable(b, acts, s) && CancelCaller !in acts
    requires s.parent.Returned? || s.parent.RaisedOut?
    ensures AllFinished(s.tasks)
    ensures s.parent.Returned? <==> AllValues(s.tasks)
    ensures s.parent.Returned? <==> NoneRaised(acts)
  {
    ReachableInv(b, acts, s);
    if s.parent.RaisedOut? {
      RaisesFirstFailure(b, acts, s);
      NoFailureNoRaise(s.tasks, s.log);
    } else {
      ReturnsInOrder(b, acts, s);
    }
  }

  // ---------- termination ----------

  predicate Final<T, E>(s: State<T, E>) { s.parent.Returned? || s.parent.RaisedOut? }

  ghost function Ranks<T, E>(tasks: seq<Task<T, E>>): nat {
    if tasks == [] then 0 else Ranks(tasks[..|tasks| - 1]) + Rank(tasks[|tasks| - 1].phase)
  }

  ghost function Flag(raised: bool): nat { if raised then 0 else 1 }

  ghost function Measure<T, E>(s: State<T, E>): int {
    Ranks(s.tasks) + (|s.tasks| - s.seen)
    + Flag(s.gatherCancelled) + Flag(s.mustCancel) + Flag(s.drainCancelled)
    + match s.parent case Gathering => 2 case Draining(_) => 1 case _ => 0
  }

  lemma {:induction false} RanksUpdate<T, E>(tasks: seq<Task<T, E>>, i: nat, t: Task<T, E>)
    requires i < |tasks|
    ensures Ranks(tasks[i := t]) == Ranks(tasks) - Rank(tasks[i].phase) + Rank(t.phase)
  {
    var n := |tasks| - 1;
    if i < n {
      RanksUpdate(tasks[..n], i, t);
      assert tasks[i := t][..n] == tasks[..n][i := t];
    } else {
      assert tasks[i := t][..n] == tasks[..n];
    }
  }

  lemma {:induction false} RanksByPhase<T, E>(a: seq<Task<T, E>>, c: seq<Task<T, E>>)
    requires |a| == |c| && forall i :: 0 <= i < |a| ==> a[i].phase == c[i].phase
    ensures Ranks(a) == Ranks(c)
  {
    if a != [] {
      RanksByPhase(a[..|a| - 1], c[..|c| - 1]);
    }
  }

  lemma {:induction false} RanksBound<T, E>(tasks: seq<Task<T, E>>)
    ensures Ranks(tasks) <= 4 * |tasks|
  {
    if tasks != [] {
      RanksBound(tasks[..|tasks| - 1]);
    }
  }

  lemma ChangeDecreases<I, T, E>(b: Batch<I, T>, s: State<T, E>, s': State<T, E>, i: nat)
    requires Changes(b, s, s', i)
    ensures Measure(s') < Measure(s)
  {
    RanksUpdate(s.tasks, i, s'.tasks[i]);
  }

  lemma ControlDecreases<I, T, E>(b: Batch<I, T>, s: State<T, E>, a: Action<T, E>)
    requires Enabled(b, s, a) && IsControl(a)
    ensures Measure(Next(b, s, a)) < Measure(s)
  {
    ControlStep(b, s, a);
    RanksByPhase(s.tasks, Next(b, s, a).tasks);
  }

  lemma StepDecreases<I, T, E>(b: Batch<I, T>, s: State<T, E>, a: Action<T, E>)
    requires Enabled(b, s, a)
    ensures Measure(Next(b, s, a)) < Measure(s)
  {
    if IsControl(a) {
      ControlDecreases(b, s, a);
    } else {
      TaskStep(b, s, a);
      ChangeDecreases(b, s, Next(b, s, a), a.i);
    }
  }

  lemma {:induction false} RunLength<I, T, E(!new)>(
    b: Batch<I, T>, s: State<T, E>, acts: seq<Action<T, E>>, s': State<T, E>)
    requires Leads(b, s, acts, s')
    ensures |acts| <= Measure(s) - Measure(s')
    decreases |acts|
  {
    if acts != [] {
      StepDecreases(b, s, acts[0]);
      RunLength(b, Next(b, s, acts[0]), acts[1..], s');
    }
  }

  /** The log lists distinct tasks, so it never gets longer than there are tasks. */
  lemma LogBound<T, E>(s: State<T, E>)
    requires LogOk(s)
    ensures |s.log| <= |s.tasks|
    ensures AllFinished(s.tasks) ==> |s.log| == |s.tasks|
  {
    var listed := set k | 0 <= k < |s.log| :: s.log[k];
    DistinctSize(s.log);
    SubsetSize(listed, Below(|s.tasks|));
    if AllFinished(s.tasks) {
      forall i | i in Below(|s.tasks|)
        ensures i in listed
      {
        assert i in s.log;
      }
      SubsetSize(Below(|s.tasks|), listed);
    }
  }

  ghost function Below(n: nat): (s: set<nat>)
    ensures |s| == n && forall i: nat :: i in s <==> i < n
  {
    if n == 0 then {} else Below(n - 1) + {n - 1}
  }

  lemma {:induction false} DistinctSize(s: seq<nat>)
    requires Distinct(s)
    ensures |set k | 0 <= k < |s| :: s[k]| == |s|
  {
    if s != [] {
      var n := |s| - 1;
      DistinctSize(s[..n]);
      assert (set k | 0 <= k < |s| :: s[k]) == (set k | 0 <= k < n :: s[..n][k]) + {s[n]};
    }
  }

  lemma {:induction false} SubsetSize<A>(a: set<A>, c: set<A>)
    requires a <= c
    ensures |a| <= |c|
  {
    if a != {} {
      var x :| x in a;
      SubsetSize(a - {x}, c - {x});
    }
  }

  lemma MeasureNat<I, T, E>(b: Batch<I, T>, s: State<T, E>)
    requires Inv(b, s)
    ensures Measure(s) >= 0
  {
    LogBound(s);
  }

  /** Every run, however the caller cancels, takes at most `5 * items + 5` steps. */
  lemma RunsAreBounded<I, T, E(!new)>(b: Batch<I, T>, acts: seq<Action<T, E>>, s: State<T, E>)
    requires Reachable(b, acts, s)
    ensures |acts| <= 5 * |b.items| + 5
  {
    ReachableInv(b, acts, s);
    LogBound(s);
    RunLength(b, Init<I, T, E>(b), acts, s);
    RanksBound(Init<I, T, E>(b).tasks);
  }

  // ---------- progress ----------

  /** Nothing but a cancellation by the caller could ever happen again. */
  ghost predicate Stuck<I, T(!new), E(!new)>(b: Batch<I, T>, s: State<T, E>) {
    !Final(s) && forall a :: Enabled(b, s, a) ==> a == CancelCaller
  }

  lemma {:induction false} SomeHolder<T, E>(tasks: seq<Task<T, E>>) returns (i: nat)
    requires Held(tasks) > 0
    ensures i < |tasks| && Holds(tasks[i].phase)
  {
    var n := |tasks| - 1;
    if Holds(tasks[n].phase) {
      i := n;
    } else {
      i := SomeHolder(tasks[..n]);
    }
  }

  /** An unfinished task can move by itself, or waits for one that can. */
  lemma TaskMoves<I, T, E>(b: Batch<I, T>, s: State<T, E>, i: nat) returns (a: Action<T, E>)
    requires Inv(b, s) && b.concurrency >= 1
    requires i < |s.tasks| && !s.tasks[i].phase.Finished?
    ensures Enabled(b, s, a) && a != CancelCaller
    ensures a.Finish? ==> a.outcome == Raised(CancelledError)
  {
    var j := i;
    if s.tasks[i] == Task(Waiting, false) && s.free == 0 {
      j := SomeHolder(s.tasks);
    }
    var t := s.tasks[j];
    if t.phase.Running? {
      a := Finish(j, Raised(CancelledError));
    } else if t.cancelling {
      a := Unwind(j);
    } else if t.phase.NotStarted? {
      a := Enqueue(j);
    } else if t.phase.Waiting? {
      a := Grant(j);
    } else {
      a := Enter(j);
    }
  }

  lemma NeverStuck<I, T(!new), E(!new)>(b: Batch<I, T>, s: State<T, E>)
    requires Inv(b, s) && b.concurrency >= 1
    ensures !Stuck(b, s)
  {
    if !Final(s) {
      if i: nat :| i < |s.tasks| && !s.tasks[i].phase.Finished? {
        var a := TaskMoves(b, s, i);
        assert Enabled(b, s, a);
      } else {
        LogBound(s);
        if s.gather.Open? {
          assert Enabled(b, s, Callback);
        } else {
          if s.gather.Complete? {
            assert s.log[..s.seen] == s.log;
            NoFailureNoRaise(s.tasks, s.log);
          }
          assert Enabled(b, s, ResumeParent);
        }
      }
    }
  }

  /** With no permit at all the first `k` tasks end up queued. */
  ghost function Queued<I, T, E>(b: Batch<I, T>, k: nat): State<T, E> {
    Init<I, T, E>(b).(tasks := seq(|b.items|, i => Task(if i < k then Waiting else NotStarted, false)))
  }

  lemma {:induction false} QueueAll<I, T, E(!new)>(b: Batch<I, T>, k: nat) returns (acts: seq<Action<T, E>>)
    requires k <= |b.items|
    ensures Reachable(b, acts, Queued<I, T, E>(b, k))
  {
    if k == 0 {
      acts := [];
      assert Queued<I, T, E>(b, 0).tasks == Init<I, T, E>(b).tasks;
    } else {
      acts := QueueAll(b, k - 1);
      var s := Queued<I, T, E>(b, k - 1);
      LeadsOn(b, Init<I, T, E>(b), acts, s, Enqueue(k - 1));
      assert Next(b, s, Enqueue(k - 1)).tasks == Queued<I, T, E>(b, k).tasks;
      acts := acts + [Enqueue(k - 1)];
    }
  }

  /** The call always ends by itself exactly when it may run at least one worker or has
      nothing to do: with the bound above, every maximal run returns or raises. */
  lemma EndsIffPermits<I, T(!new), E(!new)>(b: Batch<I, T>)
    ensures (forall acts: seq<Action<T, E>>, s :: Reachable(b, acts, s) ==> !Stuck(b, s))
       <==> b.concurrency >= 1 || b.items == []
  {
    if b.concurrency >= 1 || b.items == [] {
      forall acts: seq<Action<T, E>>, s | Reachable(b, acts, s)
        ensures !Stuck(b, s)
      {
        ReachableInv(b, acts, s);
        if b.concurrency >= 1 {
          NeverStuck(b, s);
        } else {
          StaysReturned(b, Init<I, T, E>(b), acts, s);
        }
      }
    } else {
      var acts := QueueAll<I, T, E>(b, |b.items|);
      var s := Queued<I, T, E>(b, |b.items|);
      assert Reachable(b, acts, s);
      assert !s.tasks[0].phase.Finished?;
      assert Stuck(b, s);
    }
  }

  lemma StaysReturned<I, T, E(!new)>(b: Batch<I, T>, s: State<T, E>, acts: seq<Action<T, E>>, s': State<T, E>)
    requires Leads(b, s, acts, s') && s.tasks == [] && s.parent.Returned? && s.gather.Complete?
    ensures s' == s
  {
  }
}
