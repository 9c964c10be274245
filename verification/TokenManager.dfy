/** The token manager as the mutable object it is: each method is the code between two suspension
    points. `Valid()` is the protocol's invariant, kept by all of them, and `Drive` runs them under
    any event loop. */
module TokenManagers {
  import opened Wrappers
  import opened TokenProtocol
  import opened TokenHistory
  import opened TokenTheorems

  class TokenManager {
    var authorization: Option<string>
    var expiresIn: int
    var inflight: Option<nat>        // the newest `_do_refresh` task
    var refreshRequested: bool       // the event
    var loop: Loop                   // the background task
    var tasks: seq<Fetch>
    var waiters: seq<Caller>
    var now: nat                     // logical time
    var requests: seq<nat>
    var wakes: nat

    function View(): State
      reads this
    {
      State(authorization, expiresIn, inflight, refreshRequested, loop, tasks, waiters, now, requests, wakes)
    }

    ghost predicate Valid()
      reads this
    {
      Inv(View())
    }

    constructor ()
      ensures Valid() && View() == INIT
      ensures authorization == None && expiresIn == 600 && !refreshRequested && loop.NotSpawned?
    {
      authorization, expiresIn, inflight, refreshRequested := None, DEFAULT_TOKEN_LIFETIME, None, false;
      loop, tasks, waiters := NotSpawned, [], [];
      now, requests, wakes := 0, [], 0;
      new;
      InitInv();
    }

    method RefreshIntervalNow() returns (interval: int)
      ensures interval >= 5 && 2 * expiresIn < 3 * interval + 3
      ensures interval > 5 ==> 3 * interval <= 2 * expiresIn
      ensures interval < expiresIn <==> expiresIn > 5
    {
      interval := expiresIn * 2 / 3;
      if interval < MIN_REFRESH_INTERVAL {
        interval := MIN_REFRESH_INTERVAL;
      }
    }

    predicate TaskDone(task: nat)
      reads this
    {
      task < |tasks| && tasks[task].result.Some?
    }

    /** `refresh_now` up to its `await`: whatever `task` it awaits has not ended, all older ones
        have, and a new one is started only if none was in flight. */
    method StartOrJoin() returns (task: nat)
      requires SingleFlight(View())
      modifies this`tasks, this`inflight
      ensures View() == Join(old(View()))
      ensures inflight == Some(task) && task == |tasks| - 1 && !TaskDone(task)
      ensures forall f :: 0 <= f < task ==> TaskDone(f)
      ensures |tasks| == old(|tasks|) + if old(Fetching(View())) then 0 else 1
    {
      if inflight == None || TaskDone(inflight.value) {
        inflight := Some(|tasks|);
        tasks := tasks + [Fetch(now, false, None)];
      }
      task := inflight.value;
      JoinFlight(old(View()));
    }

    method RefreshNow()
      requires Valid()
      modifies this
      ensures View() == Next(old(View()), Call) && Valid()
      ensures waiters == old(waiters) + [Joined(|tasks| - 1, old(now))] && !TaskDone(|tasks| - 1)
    {
      ghost var next := Next(View(), Call);
      JoinsNewest(View(), Call);
      var task := StartOrJoin();
      waiters := waiters + [Joined(task, now)];
      now := now + 1;
      assert View() == next;
    }

    /** `get_authorization_header` up to its `await`: the header of the newest token without
        touching anything, or - only before the first token - a call of `refresh_now`. */
    method GetAuthorizationHeader() returns (header: Option<string>)
      requires Valid()
      modifies this
      ensures Valid() && View() == if header.Some? then old(View()) else Next(old(View()), Call)
      ensures header.Some? <==> LastToken(old(tasks)).Some?
      ensures header.Some? ==>
                var h, token := header.value, LastToken(old(tasks)).value;
                && |h| == |token.tokenType| + 1 + |token.accessToken|
                && h[..|token.tokenType|] == token.tokenType && h[|token.tokenType|] == ' '
                && h[|token.tokenType| + 1..] == token.accessToken
    {
      header := authorization;
      if header == None {
        RefreshNow();
      }
    }

    /** The rest of it, once `refresh_now` came back normally: its assertion holds. */
    method HeaderAfterRefresh(caller: nat) returns (header: string)
      requires Valid()
      requires caller < |waiters| && waiters[caller].Left? && waiters[caller].outcome.Fetched?
      ensures authorization == Some(header) && LastToken(tasks).Some?
      ensures var token := LastToken(tasks).value;
              && |header| == |token.tokenType| + 1 + |token.accessToken|
              && header[..|token.tokenType|] == token.tokenType && header[|token.tokenType|] == ' '
              && header[|token.tokenType| + 1..] == token.accessToken
    {
      SuccessLeavesToken(tasks, waiters[caller].fetch);
      assert authorization.Some?;
      header := authorization.value;
    }

    /** The end of `_do_refresh`: the cache becomes the token that arrived, or stays as it was;
        either way every request made so far has now been followed by the end of a fetch. */
    method EndRefresh(outcome: Outcome)
      requires Valid() && Enabled(View(), EndFetch(outcome))
      modifies this
      ensures View() == Next(old(View()), EndFetch(outcome)) && Valid()
      ensures tasks[..|tasks| - 1] == old(tasks[..|tasks| - 1]) && inflight == old(inflight)
      ensures tasks[|tasks| - 1].result == Some(Ended(old(now), outcome))
      ensures outcome.Fetched? ==> authorization == Some(Header(outcome.token)) && expiresIn == outcome.token.expiresIn
      ensures !outcome.Fetched? ==> authorization == old(authorization) && expiresIn == old(expiresIn)
      ensures !Fetching(View()) && forall t :: t in requests ==> Served(View(), t)
    {
      ghost var next := Next(View(), EndFetch(outcome));
      StepInv(View(), EndFetch(outcome));
      forall t | t in requests
        ensures Served(Next(View(), EndFetch(outcome)), t)
      {
        EndServes(View(), outcome, t);
      }
      var task := inflight.value;
      tasks := tasks[task := tasks[task].(result := Some(Ended(now, outcome)))];
      if outcome.Fetched? {
        authorization := Some(Header(outcome.token));
        expiresIn := outcome.token.expiresIn;
      }
      now := now + 1;
      assert View() == next;
    }

    method ResumeWaiter(caller: nat)
      requires Valid() && Enabled(View(), Deliver(caller))
      modifies this
      ensures View() == Next(old(View()), Deliver(caller)) && Valid()
      ensures waiters[caller].Left? && waiters[caller].outcome == tasks[waiters[caller].fetch].result.value.outcome
    {
      ghost var next := Next(View(), Deliver(caller));
      StepInv(View(), Deliver(caller));
      var k := waiters[caller];
      waiters := waiters[caller := Left(k.fetch, k.since, now, tasks[k.fetch].result.value.outcome, false)];
      now := now + 1;
      assert View() == next;
    }

    method CancelTask(task: nat)
      requires task < |tasks|
      modifies this`tasks
      ensures View() == CancelFetch(old(View()), task)
    {
      if !TaskDone(task) {
        tasks := tasks[task := tasks[task].(cancelling := true)];
      }
    }

    /** Cancelling a waiter cancels what it awaits, for everybody - the loop included. */
    method CancelWaiter(caller: nat)
      requires Valid() && Enabled(View(), CancelCaller(caller))
      modifies this
      ensures View() == Next(old(View()), CancelCaller(caller)) && Valid()
      ensures var fetch := old(waiters[caller].fetch);
              if old(TaskDone(fetch)) then
                waiters[caller].Left? && waiters[caller].outcome == Cancelled && tasks == old(tasks)
              else
                && waiters == old(waiters) && tasks[fetch].cancelling
                && forall o :: Enabled(View(), EndFetch(o)) ==> o == Cancelled
      ensures Lost(View()) <==> old(Lost(View())) || old(WaitsForFetch(View()) && waiters[caller].fetch == loop.fetch)
    {
      ghost var next := Next(View(), CancelCaller(caller));
      StepInv(View(), CancelCaller(caller));
      LostStep(View(), CancelCaller(caller));
      var k := waiters[caller];
      if TaskDone(k.fetch) {
        waiters := waiters[caller := Left(k.fetch, k.since, now, Cancelled, true)];
      } else {
        CancelTask(k.fetch);
      }
      now := now + 1;
      assert View() == next;
    }

    method Request()
      requires Valid()
      modifies this
      ensures View() == Next(old(View()), RequestRefresh) && Valid()
      ensures refreshRequested && requests == old(requests) + [old(now)]
    {
      ghost var next := Next(View(), RequestRefresh);
      StepInv(View(), RequestRefresh);
      refreshRequested := true;
      requests := requests + [now];
      now := now + 1;
      assert View() == next;
    }

    method SpawnRefresh()
      requires Valid() && Enabled(View(), Spawn)
      modifies this
      ensures View() == Next(old(View()), Spawn) && Valid()
      ensures loop == Waiting && tasks == old(tasks)
    {
      ghost var next := Next(View(), Spawn);
      StepInv(View(), Spawn);
      loop := Waiting;
      now := now + 1;
      assert View() == next;
    }

    /** The loop calls `refresh_now`. */
    method AwaitRefresh()
      requires SingleFlight(View())
      modifies this`tasks, this`inflight, this`loop, this`now
      ensures inflight.Some?
      ensures View() == Join(old(View())).(loop := Awaiting(inflight.value), now := old(now) + 1)
    {
      var task := StartOrJoin();
      loop := Awaiting(task);
      now := now + 1;
    }

    /** A turn of `_refresh_loop` ended by the event, up to its next `await`: the request is taken
        off, and the fetch the loop goes on to wait for will end after it. */
    method LoopWoken()
      requires Valid() && Enabled(View(), LoopWake)
      modifies this
      ensures View() == Next(old(View()), LoopWake) && Valid()
      ensures !refreshRequested && WaitsForFetch(View()) && (Lost(View()) <==> old(JoinsDyingFetch(View())))
    {
      ghost var next := Next(View(), LoopWake);
      JoinsNewest(View(), LoopWake);
      refreshRequested := false;
      wakes := wakes + 1;
      FlightFrame(old(View()), View());
      AwaitRefresh();
      assert View() == next;
    }

    /** A turn ended by the interval: a request racing it is kept for the next wait. */
    method LoopTimedOut()
      requires Valid() && Enabled(View(), LoopTimeout)
      modifies this
      ensures View() == Next(old(View()), LoopTimeout) && Valid()
      ensures refreshRequested == old(refreshRequested)
      ensures WaitsForFetch(View()) && (Lost(View()) <==> old(JoinsDyingFetch(View())))
    {
      ghost var next := Next(View(), LoopTimeout);
      JoinsNewest(View(), LoopTimeout);
      AwaitRefresh();
      assert View() == next;
    }

    /** The loop goes on after a token or a `RociaDbError`, and ends with anything else. */
    method LoopResumed()
      requires Valid() && Enabled(View(), LoopResume)
      modifies this
      ensures View() == Next(old(View()), LoopResume) && Valid()
      ensures if old(Lost(View())) then loop == Stopped else loop == Waiting
    {
      ghost var next := Next(View(), LoopResume);
      StepInv(View(), LoopResume);
      LostStep(View(), LoopResume);
      match tasks[loop.fetch].result.value.outcome {
        case Fetched(_) => loop := Waiting;
        case AuthFailure => loop := Waiting;
        case OtherFailure => loop := Stopped;
        case Cancelled => loop := Stopped;
      }
      now := now + 1;
      assert View() == next;
    }

    /** `TokenRefreshHandle.aclose` up to its `await`: a loop that waits for a fetch passes its
        cancellation on to that fetch, which from now on can only end as cancelled. */
    method CloseLoop()
      requires Valid() && Enabled(View(), Close)
      modifies this
      ensures View() == Next(old(View()), Close) && Valid()
      ensures Lost(View()) && authorization == old(authorization) && expiresIn == old(expiresIn)
      ensures if old(WaitsForFetch(View())) then
                && loop == old(loop) && tasks[loop.fetch].cancelling && !TaskDone(loop.fetch)
                && forall o :: Enabled(View(), EndFetch(o)) ==> o == Cancelled
              else loop == Stopped && tasks == old(tasks)
    {
      ghost var next := Next(View(), Close);
      StepInv(View(), Close);
      LostStep(View(), Close);
      if loop.Waiting? || TaskDone(loop.fetch) {
        loop := Stopped;
      } else {
        CancelTask(loop.fetch);
      }
      now := now + 1;
      assert View() == next;
    }

    method Perform(a: Action)
      requires Valid() && Enabled(View(), a)
      modifies this
      ensures View() == Next(old(View()), a) && Valid()
    {
      match a
      case Call => RefreshNow();
      case Deliver(c) => ResumeWaiter(c);
      case CancelCaller(c) => CancelWaiter(c);
      case EndFetch(o) => EndRefresh(o);
      case RequestRefresh => Request();
      case Spawn => SpawnRefresh();
      case LoopWake => LoopWoken();
      case LoopTimeout => LoopTimedOut();
      case LoopResume => LoopResumed();
      case Close => CloseLoop();
    }
  }

  /** The object's first `steps` steps under any event loop: whatever possible action `schedule`
      picks, its cache is that of the newest token, fetches follow one another, and the loop is
      lost exactly if one of the four fatal steps was among them. */
  method Drive(schedule: State -> Action, steps: nat) returns (end: State, ghost acts: seq<Action>)
    requires forall s :: Inv(s) ==> Enabled(s, schedule(s))
    ensures |acts| == steps && Reachable(acts, end) && LastToken(end.fetches) == Newest(acts)
    ensures CacheOk(end) && OneAfterAnother(end.fetches) && end.wakes <= |end.requests|
    ensures Lost(end) <==> WasHit(INIT, acts, end)
  {
    var manager := new TokenManager();
    acts := [];
    for n := 0 to steps
      invariant fresh(manager) && manager.Valid()
      invariant |acts| == n && Reachable(acts, manager.View())
    {
      var a := schedule(manager.View());
      LeadsOn(INIT, acts, manager.View(), a);
      manager.Perform(a);
      acts := acts + [a];
    }
    end := manager.View();
    LoopSurvivesFailures(acts, end);
    Recorded(acts, end);
  }

  lemma {:induction false} LeadsOn(s: State, acts: seq<Action>, s': State, a: Action)
    requires Leads(s, acts, s') && Enabled(s', a)
    ensures Leads(s, acts + [a], Next(s', a))
    decreases |acts|
  {
    if acts == [] {
      assert (acts + [a])[1..] == [];
    } else {
      LeadsOn(Next(s, acts[0]), acts[1..], s', a);
      assert (acts + [a])[1..] == acts[1..] + [a];
    }
  }
}
