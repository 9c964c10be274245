/** What the actions of a run say about the state it leads to. Every action takes one unit of the
    logical time, so the times a state records are positions in the run. */
module TokenHistory {
  import opened Wrappers
  import opened TokenProtocol

  ghost predicate Reachable(acts: seq<Action>, s: State) { Leads(INIT, acts, s) }

  lemma ReachableInv(acts: seq<Action>, s: State)
    requires Reachable(acts, s)
    ensures Inv(s)
  {
    InitInv();
    RunInv(INIT, acts, s);
  }

  lemma {:induction false} LastStep(s: State, acts: seq<Action>, s': State) returns (mid: State)
    requires Leads(s, acts, s') && acts != []
    ensures Leads(s, acts[..|acts| - 1], mid)
    ensures Enabled(mid, acts[|acts| - 1]) && s' == Next(mid, acts[|acts| - 1])
    decreases |acts|
  {
    var n := |acts| - 1;
    if n == 0 {
      mid := s;
    } else {
      mid := LastStep(Next(s, acts[0]), acts[1..], s');
      assert acts[..n][1..] == acts[1..][..n - 1];
    }
  }

  /** No fetch ends strictly between two positions. */
  ghost predicate NoEnd(acts: seq<Action>, from: nat, to: nat) {
    forall j :: from < j < to && j < |acts| ==> !acts[j].EndFetch?
  }

  /** A fetch starts with somebody joining it and ends, as the provider says, with the first end
      of a fetch after that. */
  ghost predicate FetchRuns(acts: seq<Action>, f: Fetch) {
    && f.start < |acts| && Joins(acts[f.start])
    && match f.result
       case None => NoEnd(acts, f.start, |acts|)
       case Some(e) => f.start < e.at < |acts| && acts[e.at] == EndFetch(e.outcome) && NoEnd(acts, f.start, e.at)
  }

  /** A caller calls, and leaves when told or when cancelled. */
  ghost predicate CallRuns(acts: seq<Action>, c: nat, k: Caller) {
    && k.since < |acts| && acts[k.since] == Call
    && (k.Left? ==> k.at < |acts| && acts[k.at] == if k.own then CancelCaller(c) else Deliver(c))
  }

  ghost predicate FetchesRun(acts: seq<Action>, s: State) {
    forall f :: 0 <= f < |s.fetches| ==> FetchRuns(acts, s.fetches[f])
  }

  ghost predicate CallsRun(acts: seq<Action>, s: State) {
    forall c :: 0 <= c < |s.callers| ==> CallRuns(acts, c, s.callers[c])
  }

  ghost predicate RequestsRun(acts: seq<Action>, s: State) {
    forall t: nat :: t in s.requests <==> t < |acts| && acts[t] == RequestRefresh
  }

  ghost function Count(acts: seq<Action>, a: Action): nat {
    if acts == [] then 0 else Count(acts[..|acts| - 1], a) + if acts[|acts| - 1] == a then 1 else 0
  }

  /** The token of the last successful fetch of the run. */
  ghost function Newest(acts: seq<Action>): Option<Token> {
    if acts == [] then None
    else match acts[|acts| - 1] case EndFetch(Fetched(token)) => Some(token) case _ => Newest(acts[..|acts| - 1])
  }

  // ---------- the state records the run ----------

  lemma FetchStep(acts: seq<Action>, s: State, a: Action, f: nat)
    requires SingleFlight(s) && Enabled(s, a) && s.now == |acts|
    requires FetchesRun(acts, s) && f < |Next(s, a).fetches|
    ensures FetchRuns(acts + [a], Next(s, a).fetches[f])
  {
    if f < |s.fetches| {
      FetchKept(s, a, f);
    }
  }

  lemma CallStep(acts: seq<Action>, s: State, a: Action)
    requires Enabled(s, a) && s.now == |acts| && CallsRun(acts, s)
    ensures CallsRun(acts + [a], Next(s, a))
  {
  }

  lemma TokenStep(acts: seq<Action>, s: State, a: Action)
    requires SingleFlight(s) && Enabled(s, a) && LastToken(s.fetches) == Newest(acts)
    ensures LastToken(Next(s, a).fetches) == Newest(acts + [a])
  {
    assert (acts + [a])[..|acts|] == acts;
    if a.EndFetch? {
      NewestToken(s, s.fetches[s.inflight.value].(result := Some(Ended(s.now, a.outcome))));
    } else {
      SameToken(s, a);
    }
  }

  lemma RequestStep(acts: seq<Action>, s: State, a: Action)
    requires Enabled(s, a) && s.now == |acts| && RequestsRun(acts, s)
    ensures RequestsRun(acts + [a], Next(s, a))
  {
    if a.RequestRefresh? {
      assert Next(s, a).requests == s.requests + [|acts|];
    }
  }

  lemma FetchesStep(acts: seq<Action>, s: State, a: Action)
    requires SingleFlight(s) && Enabled(s, a) && s.now == |acts| && FetchesRun(acts, s)
    ensures FetchesRun(acts + [a], Next(s, a))
  {
    forall f | 0 <= f < |Next(s, a).fetches|
      ensures FetchRuns(acts + [a], Next(s, a).fetches[f])
    {
      FetchStep(acts, s, a, f);
    }
  }

  lemma RecordedStep(acts: seq<Action>, s: State, a: Action)
    requires Reachable(acts, s) && Enabled(s, a) && s.now == |acts|
    requires FetchesRun(acts, s) && CallsRun(acts, s) && RequestsRun(acts, s) && LastToken(s.fetches) == Newest(acts)
    ensures Next(s, a).now == |acts + [a]|
    ensures FetchesRun(acts + [a], Next(s, a)) && CallsRun(acts + [a], Next(s, a))
    ensures RequestsRun(acts + [a], Next(s, a)) && LastToken(Next(s, a).fetches) == Newest(acts + [a])
  {
    ReachableInv(acts, s);
    FetchesStep(acts, s, a);
    CallStep(acts, s, a);
    RequestStep(acts, s, a);
    TokenStep(acts, s, a);
  }

  lemma {:induction false} Recorded(acts: seq<Action>, s: State)
    requires Reachable(acts, s)
    ensures s.now == |acts|
    ensures FetchesRun(acts, s) && CallsRun(acts, s) && RequestsRun(acts, s)
    ensures LastToken(s.fetches) == Newest(acts)
    decreases |acts|
  {
    if acts != [] {
      var n := |acts| - 1;
      assert acts == acts[..n] + [acts[n]];
      var mid := LastStep(INIT, acts, s);
      Recorded(acts[..n], mid);
      RecordedStep(acts[..n], mid, acts[n]);
    }
  }

  /** Callers, requests and wake-ups are counted once each. */
  lemma {:induction false} Counted(acts: seq<Action>, s: State)
    requires Reachable(acts, s)
    ensures |s.callers| == Count(acts, Call)
    ensures |s.requests| == Count(acts, RequestRefresh) && s.wakes == Count(acts, LoopWake)
    decreases |acts|
  {
    if acts != [] {
      var mid := LastStep(INIT, acts, s);
      Counted(acts[..|acts| - 1], mid);
    }
  }
}
