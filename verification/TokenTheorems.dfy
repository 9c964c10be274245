/** What holds of every run of the token manager, whatever its callers, its refresh loop and
    the identity provider do. */
module TokenTheorems {
  import opened Wrappers
  import opened TokenProtocol
  import opened TokenHistory

  // ---------- one fetch at a time, shared ----------

  /** Two fetches never overlap: the older one had ended before the newer one was started, and
      so at most one is ever unfinished. */
  lemma OneFetchAtATime(acts: seq<Action>, s: State, f: nat, g: nat)
    requires Reachable(acts, s) && f < g < |s.fetches|
    ensures s.fetches[f].result.Some? && s.fetches[f].result.value.at < s.fetches[g].start
  {
    ReachableInv(acts, s);
    assert s.fetches[f].result.Some? by {
      assert s.fetches[g].start < s.now;
    }
  }

  /** A finished call was told the outcome of one fetch that ran while it waited, the same for
      every caller of that fetch - or it was itself cancelled once that fetch had ended. */
  lemma CallersShareOutcome(acts: seq<Action>, s: State, c: nat, d: nat)
    requires Reachable(acts, s) && c < |s.callers| && d < |s.callers|
    requires s.callers[c].Left? && s.callers[d].Left? && s.callers[c].fetch == s.callers[d].fetch
    ensures var k := s.callers[c];
            && k.fetch < |s.fetches| && s.fetches[k.fetch].result.Some?
            && s.fetches[k.fetch].start <= k.since < s.fetches[k.fetch].result.value.at < k.at
            && (k.outcome == s.fetches[k.fetch].result.value.outcome || (k.own && k.outcome == Cancelled))
    ensures !s.callers[c].own && !s.callers[d].own ==> s.callers[c].outcome == s.callers[d].outcome
  {
    ReachableInv(acts, s);
  }

  /** Which outcome that is: the one the provider gave at the first end of a fetch after the
      call. Only a caller cancelled by name is told something else, and then `Cancelled`. */
  lemma CallerTold(acts: seq<Action>, s: State, c: nat)
    requires Reachable(acts, s) && c < |s.callers| && s.callers[c].Left?
    ensures |s.callers| == Count(acts, Call)
    ensures var k := s.callers[c];
            && k.since < k.at < |acts| && acts[k.since] == Call
            && if k.own then acts[k.at] == CancelCaller(c) && k.outcome == Cancelled
               else acts[k.at] == Deliver(c) && exists j :: k.since < j < k.at && TellsCaller(acts, k, j)
  {
    ReachableInv(acts, s);
    Recorded(acts, s);
    Counted(acts, s);
    var k := s.callers[c];
    assert CallRuns(acts, c, k) && FetchRuns(acts, s.fetches[k.fetch]);
    if !k.own {
      assert TellsCaller(acts, k, s.fetches[k.fetch].result.value.at);
    }
  }

  ghost predicate TellsCaller(acts: seq<Action>, k: Caller, j: nat)
    requires k.Left? && j < |acts|
  {
    acts[j] == EndFetch(k.outcome) && NoEnd(acts, k.since, j)
  }

  // ---------- the cache ----------

  /** Only a successful fetch writes the cache, both fields at once. */
  lemma OnlySuccessWrites(s: State, a: Action)
    requires Enabled(s, a)
    requires Next(s, a).authorization != s.authorization || Next(s, a).expiresIn != s.expiresIn
    ensures a.EndFetch? && a.outcome.Fetched?
    ensures Next(s, a).authorization == Some(Header(a.outcome.token))
    ensures Next(s, a).expiresIn == a.outcome.token.expiresIn
  {
  }

  lemma {:induction false} HeaderStays(s: State, acts: seq<Action>, s': State)
    requires Leads(s, acts, s') && s.authorization.Some?
    ensures s'.authorization.Some?
    decreases |acts|
  {
    if acts != [] {
      HeaderStays(Next(s, acts[0]), acts[1..], s');
    }
  }

  lemma {:induction false} SuccessLeavesToken(fetches: seq<Fetch>, f: nat)
    requires f < |fetches| && fetches[f].result.Some? && fetches[f].result.value.outcome.Fetched?
    ensures LastToken(fetches).Some?
  {
    if f < |fetches| - 1 {
      SuccessLeavesToken(fetches[..|fetches| - 1], f);
    }
  }

  predicate BringsToken(a: Action) { a.EndFetch? && a.outcome.Fetched? }

  ghost predicate LastSuccess(acts: seq<Action>, j: nat)
    requires j < |acts|
  {
    BringsToken(acts[j]) && forall k :: j < k < |acts| ==> !BringsToken(acts[k])
  }

  lemma {:induction false} NewestMeans(acts: seq<Action>)
    ensures Newest(acts) == None <==> forall j :: 0 <= j < |acts| ==> !BringsToken(acts[j])
    ensures forall j :: 0 <= j < |acts| && LastSuccess(acts, j) ==> Newest(acts) == Some(acts[j].outcome.token)
  {
    if acts != [] {
      var n := |acts| - 1;
      NewestMeans(acts[..n]);
      forall j | 0 <= j < n && LastSuccess(acts, j)
        ensures Newest(acts) == Some(acts[j].outcome.token)
      {
        assert LastSuccess(acts[..n], j);
      }
    }
  }

  /** The cache is the header and lifetime of the most recent success, or None and 600 before
      any; so a caller whose `refresh_now` came back normally finds a header, and the
      assertion in `get_authorization_header` cannot fail. */
  lemma CacheHistory(acts: seq<Action>, s: State)
    requires Reachable(acts, s)
    ensures CacheOk(s)
    ensures (forall j :: 0 <= j < |acts| ==> !BringsToken(acts[j])) ==>
              s.authorization == None && s.expiresIn == DEFAULT_TOKEN_LIFETIME
    ensures forall j :: 0 <= j < |acts| && LastSuccess(acts, j) ==>
              && s.authorization == Some(Header(acts[j].outcome.token))
              && s.expiresIn == acts[j].outcome.token.expiresIn
    ensures forall c :: 0 <= c < |s.callers| && s.callers[c].Left? && s.callers[c].outcome.Fetched? ==>
              s.authorization.Some?
  {
    ReachableInv(acts, s);
    Recorded(acts, s);
    NewestMeans(acts);
    forall c | 0 <= c < |s.callers| && s.callers[c].Left? && s.callers[c].outcome.Fetched?
      ensures s.authorization.Some?
    {
      SuccessLeavesToken(s.fetches, s.callers[c].fetch);
    }
  }

  // ---------- no lost wake-up ----------

  /** How many turns of the loop and its fetch a request made at `t` still needs. */
  ghost function Distance(s: State, t: nat): nat {
    if Served(s, t) || !Alive(s) then 0
    else if s.loop.Awaiting? then if Done(s, s.loop.fetch) then 3 else 1
    else 2
  }

  /** The loop's own next move, or the end of the fetch it waits for. */
  predicate LoopTurn(s: State, a: Action) {
    match s.loop
    case Waiting => a.LoopWake? || a.LoopTimeout?
    case Awaiting(f) => if Done(s, f) then a.LoopResume? else a.EndFetch?
    case _ => false
  }

  lemma DistanceStep(s: State, a: Action, t: nat)
    requires Inv(s) && Enabled(s, a) && Alive(s) && t in s.requests
    ensures Distance(Next(s, a), t) <= Distance(s, t)
    ensures LoopTurn(s, a) && Distance(s, t) > 0 ==> Distance(Next(s, a), t) < Distance(s, t)
  {
    if Served(s, t) {
      ServedStays(s, a, t);
    } else if a.EndFetch? {
      EndServes(s, a.outcome, t);
    }
  }

  /** As long as a request is not served, the loop's next turn is possible. */
  lemma LoopCanTurn(s: State, t: nat) returns (a: Action)
    requires Inv(s) && Alive(s) && t in s.requests && !Served(s, t)
    ensures Enabled(s, a) && LoopTurn(s, a)
    ensures s.loop.Waiting? ==> s.requested && a == LoopWake
  {
    if s.loop.Waiting? {
      a := LoopWake;
    } else if Done(s, s.loop.fetch) {
      a := LoopResume;
    } else {
      var f := s.fetches[s.inflight.value];
      a := EndFetch(if f.cancelling then Cancelled else AuthFailure);
    }
  }

  /** Loop turns taken in a run. */
  ghost function Turns(s: State, acts: seq<Action>, s': State): nat
    requires Leads(s, acts, s')
    decreases |acts|
  {
    if acts == [] then 0
    else (if LoopTurn(s, acts[0]) then 1 else 0) + Turns(Next(s, acts[0]), acts[1..], s')
  }

  lemma StaysStopped(s: State, a: Action)
    requires Enabled(s, a) && s.loop.Stopped?
    ensures Next(s, a).loop.Stopped?
  {
  }

  lemma StaysSpawned(s: State, a: Action, t: nat)
    requires Enabled(s, a) && Alive(s) && t in s.requests
    ensures (Alive(Next(s, a)) || Next(s, a).loop.Stopped?) && t in Next(s, a).requests
  {
  }

  lemma {:induction false} TurnsServe(s: State, acts: seq<Action>, s': State, t: nat)
    requires Inv(s) && Leads(s, acts, s') && t in s.requests
    requires s.loop.Stopped? || (Alive(s) && Turns(s, acts, s') >= Distance(s, t))
    ensures Served(s', t) || s'.loop.Stopped?
    decreases |acts|
  {
    if acts != [] {
      StepInv(s, acts[0]);
      if s.loop.Stopped? {
        StaysStopped(s, acts[0]);
      } else {
        DistanceStep(s, acts[0], t);
        StaysSpawned(s, acts[0], t);
      }
      TurnsServe(Next(s, acts[0]), acts[1..], s', t);
    }
  }

  /** A request made while the loop lives - also during a fetch, or racing the timeout - is
      followed by the end of a fetch after at most three turns of the loop, unless the loop
      is stopped first. Anything may happen in between. */
  lemma NoLostWakeUp(upTo: seq<Action>, s: State, later: seq<Action>, s': State, t: nat)
    requires Reachable(upTo, s) && Leads(s, later, s')
    requires Alive(s) && t < |upTo| && upTo[t] == RequestRefresh && Turns(s, later, s') >= 3
    ensures Served(s', t) || s'.loop.Stopped?
    ensures s'.loop.Stopped? || exists j :: t < j < |upTo + later| && (upTo + later)[j].EndFetch?
  {
    ReachableInv(upTo, s);
    Recorded(upTo, s);
    TurnsServe(s, later, s', t);
    LeadsJoin(INIT, upTo, s, later, s');
    Recorded(upTo + later, s');
    if f :| 0 <= f < |s'.fetches| && s'.fetches[f].result.Some? && s'.fetches[f].result.value.at > t {
      assert FetchRuns(upTo + later, s'.fetches[f]);
    }
  }

  lemma {:induction false} LeadsJoin(s: State, first: seq<Action>, mid: State, second: seq<Action>, s': State)
    requires Leads(s, first, mid) && Leads(mid, second, s')
    ensures Leads(s, first + second, s')
    decreases |first|
  {
    if first == [] {
      assert first + second == second;
    } else {
      assert (first + second)[0] == first[0] && (first + second)[1..] == first[1..] + second;
      LeadsJoin(Next(s, first[0]), first[1..], mid, second, s');
    }
  }

  /** Only a turn the event brought about clears it: a request made during a fetch, or racing
      the timeout, is still there for the next wait. */
  lemma {:induction false} RequestSurvives(s: State, acts: seq<Action>, s': State)
    requires Leads(s, acts, s') && s.requested && LoopWake !in acts
    ensures s'.requested
    decreases |acts|
  {
    if acts != [] {
      RequestSurvives(Next(s, acts[0]), acts[1..], s');
    }
  }

  /** Requests may be merged but none wakes the loop twice. */
  lemma WakesBounded(acts: seq<Action>, s: State)
    requires Reachable(acts, s)
    ensures s.wakes <= |s.requests|
    ensures Count(acts, LoopWake) <= Count(acts, RequestRefresh)
  {
    ReachableInv(acts, s);
    Counted(acts, s);
  }

  // ---------- when the loop lives ----------

  /** The loop has stopped, or waits for a fetch it will not survive: one that somebody
      cancelled, or that ended with something other than a token or a `RociaDbError`. */
  predicate Lost(s: State) {
    || s.loop.Stopped?
    || (s.loop.Awaiting? && s.loop.fetch < |s.fetches|
        && var f := s.fetches[s.loop.fetch];
           f.cancelling || (f.result.Some? && !Survives(f.result.value.outcome)))
  }

  /** The loop waits for a fetch that has not ended. */
  predicate WaitsForFetch(s: State) { s.loop.Awaiting? && !Done(s, s.loop.fetch) }

  /** The four steps that cost the loop its life: closing it; cancelling a caller of the fetch
      it waits for; its own joining of a fetch somebody had cancelled; and a foreign exception
      out of the fetch it waits for. */
  predicate Hits(s: State, a: Action) {
    match a
    case Close => true
    case CancelCaller(c) => WaitsForFetch(s) && c < |s.callers| && s.callers[c].fetch == s.loop.fetch
    case LoopWake => JoinsDyingFetch(s)
    case LoopTimeout => JoinsDyingFetch(s)
    case EndFetch(o) => o == OtherFailure && WaitsForFetch(s)
    case _ => false
  }

  predicate JoinsDyingFetch(s: State) {
    Fetching(s) && s.inflight.value < |s.fetches| && s.fetches[s.inflight.value].cancelling
  }

  lemma LostStep(s: State, a: Action)
    requires Inv(s) && Enabled(s, a)
    ensures Lost(Next(s, a)) <==> Lost(s) || Hits(s, a)
  {
  }

  /** Some step of the run is one of the four. */
  ghost predicate WasHit(s: State, acts: seq<Action>, s': State)
    requires Leads(s, acts, s')
    decreases |acts|
  {
    acts != [] && (Hits(s, acts[0]) || WasHit(Next(s, acts[0]), acts[1..], s'))
  }

  lemma {:induction false} LostRun(s: State, acts: seq<Action>, s': State)
    requires Inv(s) && Leads(s, acts, s')
    ensures Lost(s') <==> Lost(s) || WasHit(s, acts, s')
    decreases |acts|
  {
    if acts != [] {
      LostStep(s, acts[0]);
      StepInv(s, acts[0]);
      LostRun(Next(s, acts[0]), acts[1..], s');
    }
  }

  lemma {:induction false} Spawned(s: State, acts: seq<Action>, s': State)
    requires Leads(s, acts, s') && (Spawn in acts || !s.loop.NotSpawned?)
    ensures !s'.loop.NotSpawned?
    decreases |acts|
  {
    if acts != [] {
      Spawned(Next(s, acts[0]), acts[1..], s');
    }
  }

  /** Closing the handle, cancelling somebody who waits for a fetch, or a fetch failing with
      something else than `RociaDbError`. */
  predicate Hostile(a: Action) {
    a.Close? || a.CancelCaller? || (a.EndFetch? && a.outcome.OtherFailure?)
  }

  /** Without any of those no fetch is ever cancelled. */
  ghost predicate NoneCancelled(s: State) {
    forall f :: 0 <= f < |s.fetches| ==> !s.fetches[f].cancelling
  }

  lemma HarmlessStep(s: State, a: Action)
    requires Enabled(s, a) && NoneCancelled(s) && !Hostile(a)
    ensures NoneCancelled(Next(s, a)) && !Hits(s, a)
  {
  }

  lemma {:induction false} HarmlessRun(s: State, acts: seq<Action>, s': State)
    requires Leads(s, acts, s') && NoneCancelled(s)
    requires forall a :: a in acts ==> !Hostile(a)
    ensures !WasHit(s, acts, s')
    decreases |acts|
  {
    if acts != [] {
      assert acts[0] in acts;
      HarmlessStep(s, acts[0]);
      HarmlessRun(Next(s, acts[0]), acts[1..], s');
    }
  }

  /** A spawned loop goes on refreshing exactly as long as none of the four steps has happened;
      in particular failed refreshes, in any number and order, never stop it. */
  lemma LoopSurvivesFailures(acts: seq<Action>, s: State)
    requires Reachable(acts, s)
    ensures Lost(s) <==> WasHit(INIT, acts, s)
    ensures Spawn in acts && !Lost(s) ==> Alive(s)
    ensures (forall a :: a in acts ==> !Hostile(a)) ==> !Lost(s)
  {
    InitInv();
    LostRun(INIT, acts, s);
    if Spawn in acts {
      Spawned(INIT, acts, s);
    }
    if forall a :: a in acts ==> !Hostile(a) {
      HarmlessRun(INIT, acts, s);
    }
  }

  /** What being lost means: the loop never waits again, and has stopped after its next two
      turns - the end of its fetch and its own resumption. One that is not lost resumes. */
  lemma {:induction false} LostForGood(s: State, acts: seq<Action>, s': State)
    requires Inv(s) && Leads(s, acts, s') && Lost(s)
    ensures Lost(s') && !s'.loop.Waiting?
    ensures Turns(s, acts, s') >= (if s.loop.Stopped? then 0 else if Done(s, s.loop.fetch) then 1 else 2) ==>
              s'.loop.Stopped?
    decreases |acts|
  {
    if acts != [] {
      var s1 := Next(s, acts[0]);
      LostStep(s, acts[0]);
      LostTurn(s, acts[0]);
      StepInv(s, acts[0]);
      LostForGood(s1, acts[1..], s');
    }
  }

  lemma LostTurn(s: State, a: Action)
    requires Inv(s) && Enabled(s, a) && Lost(s)
    ensures s.loop.Stopped? ==> Next(s, a).loop.Stopped?
    ensures s.loop.Awaiting? ==> Next(s, a).loop == s.loop || Next(s, a).loop.Stopped?
    ensures s.loop.Awaiting? && Done(s, s.loop.fetch) ==>
              Next(s, a).loop.Stopped? || (Done(Next(s, a), s.loop.fetch) && !LoopTurn(s, a))
    ensures s.loop.Awaiting? && LoopTurn(s, a) ==> Next(s, a).loop.Stopped? || Done(Next(s, a), s.loop.fetch)
  {
  }

  lemma UnlostResumes(s: State)
    requires Inv(s) && !Lost(s) && Enabled(s, LoopResume)
    ensures Next(s, LoopResume).loop.Waiting?
  {
  }

  lemma {:induction false} StaysCancelled(s: State, acts: seq<Action>, s': State, f: nat)
    requires Leads(s, acts, s') && f < |s.fetches| && s.fetches[f].cancelling
    ensures f < |s'.fetches| && s'.fetches[f].cancelling
    decreases |acts|
  {
    if acts != [] {
      StaysCancelled(Next(s, acts[0]), acts[1..], s', f);
    }
  }

  // ---------- what cancelling a fetch does ----------

  /** A cancelled fetch brings nobody anything: whoever waited for it is told `Cancelled`, and
      the cache stays as it was until a newer fetch is started. */
  lemma CancelledFetch(s: State, acts: seq<Action>, s': State, f: nat)
    requires Inv(s) && Leads(s, acts, s') && f < |s.fetches| && s.fetches[f].cancelling
    ensures Inv(s') && f < |s'.fetches|
    ensures s'.fetches[f].result.Some? ==> s'.fetches[f].result.value.outcome == Cancelled
    ensures forall c :: 0 <= c < |s'.callers| && s'.callers[c].fetch == f && s'.callers[c].Left? ==>
              s'.callers[c].outcome == Cancelled
    ensures |s'.fetches| == f + 1 ==> s'.authorization == s.authorization && s'.expiresIn == s.expiresIn
  {
    RunInv(s, acts, s');
    StaysCancelled(s, acts, s', f);
    FetchesGrow(s, acts, s');
    if |s'.fetches| == f + 1 {
      CacheUntilNewer(s, acts, s');
    }
  }

  lemma {:induction false} FetchesGrow(s: State, acts: seq<Action>, s': State)
    requires Leads(s, acts, s')
    ensures |s.fetches| <= |s'.fetches|
    decreases |acts|
  {
    if acts != [] {
      FetchesGrow(Next(s, acts[0]), acts[1..], s');
    }
  }

  lemma {:induction false} CacheUntilNewer(s: State, acts: seq<Action>, s': State)
    requires Inv(s) && Leads(s, acts, s') && |s.fetches| == |s'.fetches| > 0
    requires s.fetches[|s.fetches| - 1].cancelling
    ensures s'.authorization == s.authorization && s'.expiresIn == s.expiresIn
    decreases |acts|
  {
    if acts != [] {
      var s1 := Next(s, acts[0]);
      StepInv(s, acts[0]);
      FetchesGrow(s, [acts[0]], s1);
      FetchesGrow(s1, acts[1..], s');
      StaysCancelled(s, [acts[0]], s1, |s.fetches| - 1);
      CacheUntilNewer(s1, acts[1..], s');
    }
  }

  /** Closing the handle while the loop waits for a fetch cancels that fetch, for everybody. It
      can only end as cancelled, and the loop goes on waiting for that end and then stops. */
  lemma CloseCancelsFetch(upTo: seq<Action>, s: State, later: seq<Action>, s': State)
    requires Reachable(upTo, s) && WaitsForFetch(s) && Enabled(s, Close) && Leads(Next(s, Close), later, s')
    ensures var f, s1 := s.loop.fetch, Next(s, Close);
            && s1.loop == s.loop && f < |s1.fetches| && s1.fetches[f].cancelling && !Done(s1, f)
            && forall o :: Enabled(s1, EndFetch(o)) ==> o == Cancelled
    ensures var f := s.loop.fetch;
            && f < |s'.fetches| && (s'.loop == s.loop || s'.loop.Stopped?)
            && (Done(s', f) ==> s'.fetches[f].result.value.outcome == Cancelled)
            && (forall c :: 0 <= c < |s'.callers| && s'.callers[c].fetch == f && s'.callers[c].Left? ==>
                  s'.callers[c].outcome == Cancelled)
            && (|s'.fetches| == |s.fetches| ==>
                  s'.authorization == s.authorization && s'.expiresIn == s.expiresIn)
  {
    var s1 := Next(s, Close);
    ReachableInv(upTo, s);
    StepInv(s, Close);
    CancelledFetch(s1, later, s', s.loop.fetch);
    LostWaits(s1, later, s');
  }

  lemma {:induction false} LostWaits(s: State, acts: seq<Action>, s': State)
    requires Inv(s) && Leads(s, acts, s') && Lost(s)
    ensures s'.loop == s.loop || s'.loop.Stopped?
    decreases |acts|
  {
    if acts != [] {
      LostTurn(s, acts[0]);
      LostStep(s, acts[0]);
      StepInv(s, acts[0]);
      LostWaits(Next(s, acts[0]), acts[1..], s');
    }
  }

  /** The loop and its callers share one unshielded fetch. Once a single caller of it is
      cancelled, the loop is lost if it waits for that fetch already, and lost as soon as it
      joins it later - although nobody closed the handle and the provider never failed. */
  lemma CancelledCallerStopsLoop(upTo: seq<Action>, s: State, c: nat, later: seq<Action>, s': State)
    requires Reachable(upTo, s) && Enabled(s, CancelCaller(c)) && !Done(s, s.callers[c].fetch)
    requires Leads(Next(s, CancelCaller(c)), later, s')
    ensures s.loop == Awaiting(s.callers[c].fetch) ==> Lost(s') && !s'.loop.Waiting?
    ensures s'.loop == Awaiting(s.callers[c].fetch) ==> Lost(s')
  {
    var s1 := Next(s, CancelCaller(c));
    ReachableInv(upTo, s);
    StepInv(s, CancelCaller(c));
    StaysCancelled(s1, later, s', s.callers[c].fetch);
    if Lost(s1) {
      LostForGood(s1, later, s');
    }
  }

  /** Three steps lead there from any quiet moment, with the loop joining before or after. */
  lemma CancelledCallerExample(s: State)
    requires Inv(s) && s.loop.Waiting? && !Fetching(s)
    ensures var cancel := CancelCaller(|s.callers|);
            var both := Next(Next(s, LoopTimeout), Call);
            var alone := Next(s, Call);
            && Enabled(both, cancel) && Lost(Next(both, cancel))
            && Enabled(alone, cancel) && !Lost(Next(alone, cancel))
            && Enabled(Next(alone, cancel), LoopTimeout) && Lost(Next(Next(alone, cancel), LoopTimeout))
  {
    var s1 := Next(s, LoopTimeout);
    assert s1.loop == Awaiting(|s.fetches|) && Fetching(s1);
    var s2 := Next(s1, Call);
    assert s2.callers[|s.callers|].fetch == |s.fetches|;
    var t1 := Next(s, Call);
    assert t1.callers[|s.callers|].fetch == |s.fetches|;
  }

  /** Who calls `refresh_now` goes on to wait for the newest fetch, which has not ended. */
  lemma JoinsNewest(s: State, a: Action)
    requires Inv(s) && Enabled(s, a) && Joins(a)
    ensures var s' := Next(s, a);
            && Inv(s') && |s'.fetches| > 0 && !Done(s', |s'.fetches| - 1)
            && (if a.Call? then s'.callers == s.callers + [Joined(|s'.fetches| - 1, s.now)]
                else s'.loop == Awaiting(|s'.fetches| - 1) && (Lost(s') <==> JoinsDyingFetch(s)))
  {
    StepInv(s, a);
  }
}
