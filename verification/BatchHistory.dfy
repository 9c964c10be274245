/** What the actions of a run say about the state it leads to: who was called, who ended and how,
    and whose failure came first. None of it mentions a transition. */
module BatchHistory {
  import opened Wrappers
  import opened BatchRunner

  /** `s` is reachable: some run from the initial state ends there. */
  ghost predicate Reachable<I, T, E(!new)>(b: Batch<I, T>, acts: seq<Action<T, E>>, s: State<T, E>) {
    Leads(b, Init<I, T, E>(b), acts, s)
  }

  lemma ReachableInv<I, T, E(!new)>(b: Batch<I, T>, acts: seq<Action<T, E>>, s: State<T, E>)
    requires Reachable(b, acts, s)
    ensures Inv(b, s)
  {
    InitInv<I, T, E>(b);
    RunInv(b, Init<I, T, E>(b), acts, s);
  }

  lemma {:induction false} LastStep<I, T, E(!new)>(
    b: Batch<I, T>, s: State<T, E>, acts: seq<Action<T, E>>, s': State<T, E>)
    returns (mid: State<T, E>)
    requires Leads(b, s, acts, s') && acts != []
    ensures Leads(b, s, acts[..|acts| - 1], mid)
    ensures Enabled(b, mid, acts[|acts| - 1]) && s' == Next(b, mid, acts[|acts| - 1])
    decreases |acts|
  {
    var n := |acts| - 1;
    if n == 0 {
      mid := s;
    } else {
      mid := LastStep(b, Next(b, s, acts[0]), acts[1..], s');
      assert acts[..n][1..] == acts[1..][..n - 1];
    }
  }

  // ---------- who was called, and who ended how ----------

  /** The items whose worker is called, in order. */
  ghost function Starts<T, E>(acts: seq<Action<T, E>>): seq<nat> {
    if acts == [] then []
    else
      Starts(acts[..|acts| - 1])
      + match acts[|acts| - 1] case Acquire(i) => [i] case Enter(i) => [i] case _ => []
  }

  /** The tasks that end, in order. */
  ghost function Ends<T, E>(acts: seq<Action<T, E>>): seq<nat> {
    if acts == [] then []
    else
      Ends(acts[..|acts| - 1])
      + match acts[|acts| - 1] case Finish(i, _) => [i] case Unwind(i) => [i] case _ => []
  }

  /** Task `i` ended with `o`: with what its worker did, or cancelled before it had one. */
  ghost predicate EndedWith<T, E>(acts: seq<Action<T, E>>, i: nat, o: Outcome<T, E>) {
    Finish(i, o) in acts || (Unwind(i) in acts && o == Raised(CancelledError))
  }

  ghost predicate OutcomesOf<T(!new), E(!new)>(acts: seq<Action<T, E>>, tasks: seq<Task<T, E>>) {
    forall i: nat, o :: i < |tasks| ==> (tasks[i].phase == Finished(o) <==> EndedWith(acts, i, o))
  }

  lemma OutcomeStep<I, T(!new), E(!new)>(
    b: Batch<I, T>, s: State<T, E>, acts: seq<Action<T, E>>, a: Action<T, E>)
    requires Enabled(b, s, a) && OutcomesOf(acts, s.tasks)
    ensures OutcomesOf(acts + [a], Next(b, s, a).tasks)
  {
    var s' := Next(b, s, a);
    forall i: nat, o | i < |s'.tasks|
      ensures s'.tasks[i].phase == Finished(o) <==> EndedWith(acts + [a], i, o)
    {
      assert s.tasks[i].phase == Finished(o) <==> EndedWith(acts, i, o);
      assert forall x :: x in acts + [a] <==> x in acts || x == a;
    }
  }

  lemma LogStep<I, T, E>(b: Batch<I, T>, s: State<T, E>, acts: seq<Action<T, E>>, a: Action<T, E>)
    requires Enabled(b, s, a) && s.started == Starts(acts) && s.log == Ends(acts)
    ensures Next(b, s, a).started == Starts(acts + [a]) && Next(b, s, a).log == Ends(acts + [a])
  {
    assert (acts + [a])[..|acts|] == acts;
  }

  /** The state records the run: workers called, tasks ended, and what each ended with. */
  lemma {:induction false} Recorded<I, T(!new), E(!new)>(b: Batch<I, T>, acts: seq<Action<T, E>>, s: State<T, E>)
    requires Reachable(b, acts, s)
    ensures s.started == Starts(acts) && s.log == Ends(acts) && OutcomesOf(acts, s.tasks)
    decreases |acts|
  {
    if acts != [] {
      var n := |acts| - 1;
      assert acts == acts[..n] + [acts[n]];
      var mid := LastStep(b, Init<I, T, E>(b), acts, s);
      Recorded(b, acts[..n], mid);
      LogStep(b, mid, acts[..n], acts[n]);
      OutcomeStep(b, mid, acts[..n], acts[n]);
    }
  }

  lemma {:induction false} FinishedItem<I, T, E(!new)>(
    b: Batch<I, T>, acts: seq<Action<T, E>>, s: State<T, E>, k: nat)
    requires Reachable(b, acts, s) && k < |acts| && acts[k].Finish?
    ensures acts[k].i < |b.items| == |s.tasks|
    decreases |acts|
  {
    var n := |acts| - 1;
    ReachableInv(b, acts, s);
    var mid := LastStep(b, Init<I, T, E>(b), acts, s);
    if k < n {
      FinishedItem(b, acts[..n], mid, k);
    }
  }

  // ---------- the first failure ----------

  ghost predicate NoneRaised<T, E>(acts: seq<Action<T, E>>) {
    forall k :: 0 <= k < |acts| && acts[k].Finish? ==> acts[k].outcome.Value?
  }

  /** `x` is what the first worker to raise raised. */
  ghost predicate FirstToRaise<T, E>(acts: seq<Action<T, E>>, x: Exception<E>) {
    exists k :: 0 <= k < |acts| && RaisesAt(acts, k, x)
  }

  ghost predicate RaisesAt<T, E>(acts: seq<Action<T, E>>, k: nat, x: Exception<E>)
    requires k < |acts|
  {
    acts[k].Finish? && acts[k].outcome == Raised(x) && NoneRaised(acts[..k])
  }

  /** The same with tasks that were cancelled before they had a worker. */
  ghost function FirstEnd<T, E>(acts: seq<Action<T, E>>): Option<Exception<E>> {
    if acts == [] then None
    else
      var earlier := FirstEnd(acts[..|acts| - 1]);
      match acts[|acts| - 1]
      case Finish(_, Raised(x)) => if earlier.Some? then earlier else Some(x)
      case Unwind(_) => if earlier.Some? then earlier else Some(CancelledError)
      case _ => earlier
  }

  lemma RaisesLater<T, E>(acts: seq<Action<T, E>>, x: Exception<E>)
    requires acts != [] && FirstToRaise(acts[..|acts| - 1], x)
    ensures FirstToRaise(acts, x)
  {
    var init := acts[..|acts| - 1];
    var k :| 0 <= k < |init| && RaisesAt(init, k, x);
    assert init[..k] == acts[..k];
    assert RaisesAt(acts, k, x);
  }

  lemma {:induction false} FirstEndMeans<T, E>(acts: seq<Action<T, E>>)
    ensures FirstEnd(acts) == None ==> NoneRaised(acts)
    ensures FirstEnd(acts).Some? ==>
              FirstEnd(acts).value == CancelledError || FirstToRaise(acts, FirstEnd(acts).value)
  {
    if acts != [] {
      var n := |acts| - 1;
      FirstEndMeans(acts[..n]);
      if FirstEnd(acts[..n]).Some? {
        if FirstEnd(acts).value != CancelledError {
          RaisesLater(acts, FirstEnd(acts).value);
        }
      } else if FirstEnd(acts).Some? && acts[n].Finish? {
        assert RaisesAt(acts, n, FirstEnd(acts).value);
      }
    }
  }

  lemma {:induction false} FirstFailureOf<I, T(!new), E(!new)>(
    b: Batch<I, T>, acts: seq<Action<T, E>>, s: State<T, E>)
    requires Reachable(b, acts, s)
    ensures LogOk(s) && FirstFailure(s.tasks, s.log) == FirstEnd(acts)
    decreases |acts|
  {
    ReachableInv(b, acts, s);
    if acts != [] {
      var n := |acts| - 1;
      var mid := LastStep(b, Init<I, T, E>(b), acts, s);
      ReachableInv(b, acts[..n], mid);
      FirstFailureOf(b, acts[..n], mid);
      FailureStep(b, mid, acts[n]);
    }
  }

  /** A task's end adds its failure behind the earlier ones. */
  lemma FailureAdded<I, T, E>(b: Batch<I, T>, s: State<T, E>, s': State<T, E>, i: nat)
    requires LogOk(s) && LogOk(s') && Changes(b, s, s', i)
    ensures var earlier, phase := FirstFailure(s.tasks, s.log), s'.tasks[i].phase;
            FirstFailure(s'.tasks, s'.log)
              == if earlier.None? && phase.Finished? && phase.outcome.Raised? then Some(phase.outcome.exc) else earlier
  {
    FirstFailureKept(s.tasks, s'.tasks, s.log);
    if s'.log != s.log {
      assert s'.log[..|s.log|] == s.log;
    }
  }

  lemma FailureUnchanged<I, T, E>(b: Batch<I, T>, s: State<T, E>, a: Action<T, E>)
    requires LogOk(s) && Enabled(b, s, a) && IsControl(a)
    ensures LogOk(Next(b, s, a))
    ensures FirstFailure(Next(b, s, a).tasks, Next(b, s, a).log) == FirstFailure(s.tasks, s.log)
  {
    ControlStep(b, s, a);
    FirstFailureKept(s.tasks, Next(b, s, a).tasks, s.log);
  }

  lemma FailureStep<I, T, E>(b: Batch<I, T>, s: State<T, E>, a: Action<T, E>)
    requires LogOk(s) && Enabled(b, s, a)
    ensures LogOk(Next(b, s, a))
    ensures var earlier := FirstFailure(s.tasks, s.log);
            FirstFailure(Next(b, s, a).tasks, Next(b, s, a).log)
              == match a
                 case Finish(_, Raised(x)) => if earlier.Some? then earlier else Some(x)
                 case Unwind(_) => if earlier.Some? then earlier else Some(CancelledError)
                 case _ => earlier
  {
    var s' := Next(b, s, a);
    if IsControl(a) {
      FailureUnchanged(b, s, a);
    } else {
      TaskStep(b, s, a);
      ChangeLog(b, s, s', a.i);
      FailureAdded(b, s, s', a.i);
    }
  }
}
