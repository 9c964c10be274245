/** The token manager as a transition system: callers of `refresh_now`, the background refresh
    loop, and fetches answered by the identity provider, interleaved in any order. Every
    action takes one unit of the logical time `now`. */
module TokenProtocol {
  import opened Wrappers

  const DEFAULT_TOKEN_LIFETIME: int := 600
  const MIN_REFRESH_INTERVAL: int := 5

  datatype Token = Token(accessToken: string, tokenType: string, expiresIn: int)

  /** `AuthFailure` is any `RociaDbError`; `OtherFailure` any other exception. */
  datatype Outcome = Fetched(token: Token) | AuthFailure | OtherFailure | Cancelled

  datatype Ended = Ended(at: nat, outcome: Outcome)

  /** One `_do_refresh` task. */
  datatype Fetch = Fetch(start: nat, cancelling: bool, result: Option<Ended>)

  /** One `refresh_now` call: awaiting a fetch, or over with what it was told. `own` marks a
      caller cancelled after its fetch had already ended. */
  datatype Caller =
    | Joined(fetch: nat, since: nat)
    | Left(fetch: nat, since: nat, at: nat, outcome: Outcome, own: bool)

  datatype Loop = NotSpawned | Waiting | Awaiting(fetch: nat) | Stopped

  datatype State = State(
    authorization: Option<string>,
    expiresIn: int,
    inflight: Option<nat>,
    requested: bool,
    loop: Loop,
    fetches: seq<Fetch>,
    callers: seq<Caller>,
    now: nat,
    requests: seq<nat>,   // times of the `request_refresh` calls
    wakes: nat)           // loop turns entered because of the event

  datatype Action =
    | Call                       // a caller enters `refresh_now`
    | Deliver(caller: nat)       // a caller resumes after its fetch
    | CancelCaller(caller: nat)
    | EndFetch(outcome: Outcome)
    | RequestRefresh
    | Spawn
    | LoopWake                   // the event ends the loop's wait
    | LoopTimeout                // the interval ends the loop's wait
    | LoopResume                 // the loop resumes after its fetch
    | Close

  /** The token's type, one blank, the token. */
  function Header(token: Token): (header: string)
    ensures |header| == |token.tokenType| + 1 + |token.accessToken|
    ensures header[..|token.tokenType|] == token.tokenType && header[|token.tokenType|] == ' '
    ensures header[|token.tokenType| + 1..] == token.accessToken
  {
    token.tokenType + " " + token.accessToken
  }

  /** Two thirds of the lifetime, rounded down, but never below the floor; it leaves margin
      exactly for lifetimes above the floor. */
  function RefreshInterval(expiresIn: int): (interval: int)
    ensures interval >= MIN_REFRESH_INTERVAL && 2 * expiresIn < 3 * interval + 3
    ensures interval > MIN_REFRESH_INTERVAL ==> 3 * interval <= 2 * expiresIn
    ensures interval < expiresIn <==> expiresIn > MIN_REFRESH_INTERVAL
  {
    if expiresIn * 2 / 3 > MIN_REFRESH_INTERVAL then expiresIn * 2 / 3 else MIN_REFRESH_INTERVAL
  }

  const INIT: State := State(None, DEFAULT_TOKEN_LIFETIME, None, false, NotSpawned, [], [], 0, [], 0)

  predicate Done(s: State, f: nat) { f < |s.fetches| && s.fetches[f].result.Some? }

  predicate Fetching(s: State) { s.inflight.Some? && !Done(s, s.inflight.value) }

  predicate Enabled(s: State, a: Action) {
    match a
    case Call => true
    case Deliver(c) => c < |s.callers| && s.callers[c].Joined? && Done(s, s.callers[c].fetch)
    case CancelCaller(c) => c < |s.callers| && s.callers[c].Joined? && s.callers[c].fetch < |s.fetches|
    case EndFetch(o) =>
      && Fetching(s) && s.inflight.value < |s.fetches|
      && (s.fetches[s.inflight.value].cancelling <==> o == Cancelled)
    case RequestRefresh => true
    case Spawn => s.loop.NotSpawned?
    case LoopWake => s.loop.Waiting? && s.requested
    case LoopTimeout => s.loop.Waiting?
    case LoopResume => s.loop.Awaiting? && Done(s, s.loop.fetch)
    case Close => s.loop.Waiting? || (s.loop.Awaiting? && s.loop.fetch < |s.fetches|)
  }

  /** `refresh_now` up to its `await`: start a fetch unless one is in flight. */
  function Join(s: State): State {
    if Fetching(s) then s
    else s.(fetches := s.fetches + [Fetch(s.now, false, None)], inflight := Some(|s.fetches|))
  }

  function CancelFetch(s: State, f: nat): State
    requires f < |s.fetches|
  {
    if Done(s, f) then s else s.(fetches := s.fetches[f := s.fetches[f].(cancelling := true)])
  }

  /** An exception other than `RociaDbError` leaves the loop. */
  predicate Survives(o: Outcome) { o.Fetched? || o.AuthFailure? }

  function Act(s: State, a: Action): State
    requires Enabled(s, a)
  {
    match a
    case Call =>
      var j := Join(s);
      j.(callers := s.callers + [Joined(j.inflight.value, s.now)])
    case Deliver(c) =>
      var k := s.callers[c];
      s.(callers := s.callers[c := Left(k.fetch, k.since, s.now, s.fetches[k.fetch].result.value.outcome, false)])
    case CancelCaller(c) =>
      var k := s.callers[c];
      if Done(s, k.fetch) then s.(callers := s.callers[c := Left(k.fetch, k.since, s.now, Cancelled, true)])
      else CancelFetch(s, k.fetch)
    case EndFetch(o) =>
      var f := s.inflight.value;
      var ended := s.(fetches := s.fetches[f := s.fetches[f].(result := Some(Ended(s.now, o)))]);
      if o.Fetched? then ended.(authorization := Some(Header(o.token)), expiresIn := o.token.expiresIn)
      else ended
    case RequestRefresh => s.(requested := true, requests := s.requests + [s.now])
    case Spawn => s.(loop := Waiting)
    case LoopWake =>
      var j := Join(s.(requested := false));
      j.(loop := Awaiting(j.inflight.value), wakes := s.wakes + 1)
    case LoopTimeout =>
      var j := Join(s);
      j.(loop := Awaiting(j.inflight.value))
    case LoopResume =>
      s.(loop := if Survives(s.fetches[s.loop.fetch].result.value.outcome) then Waiting else Stopped)
    case Close =>
      if s.loop.Waiting? || Done(s, s.loop.fetch) then s.(loop := Stopped) else CancelFetch(s, s.loop.fetch)
  }

  function Next(s: State, a: Action): State
    requires Enabled(s, a)
  {
    Act(s, a).(now := s.now + 1)
  }

  ghost predicate Leads(s: State, acts: seq<Action>, s': State)
    decreases |acts|
  {
    if acts == [] then s == s' else Enabled(s, acts[0]) && Leads(Next(s, acts[0]), acts[1..], s')
  }

  // ---------- what every step keeps ----------

  /** The token of the most recent successful fetch. */
  ghost function LastToken(fetches: seq<Fetch>): Option<Token> {
    if fetches == [] then None
    else
      var last := fetches[|fetches| - 1].result;
      if last.Some? && last.value.outcome.Fetched? then Some(last.value.outcome.token)
      else LastToken(fetches[..|fetches| - 1])
  }

  /** Every fetch ended before the next one was started. */
  ghost predicate OneAfterAnother(fetches: seq<Fetch>) {
    forall f, g :: 0 <= f < g < |fetches| ==>
      fetches[f].result.Some? && fetches[f].result.value.at < fetches[g].start
  }

  /** At most the newest fetch is unfinished, and it is the one in flight. */
  ghost predicate SingleFlight(s: State) {
    && s.inflight == (if s.fetches == [] then None else Some(|s.fetches| - 1))
    && OneAfterAnother(s.fetches)
    && (forall f :: 0 <= f < |s.fetches| ==> s.fetches[f].start < s.now)
    && (forall f :: 0 <= f < |s.fetches| && s.fetches[f].result.Some? ==>
          && s.fetches[f].start < s.fetches[f].result.value.at < s.now
          && (s.fetches[f].cancelling <==> s.fetches[f].result.value.outcome == Cancelled))
  }

  /** The cache holds both fields of the most recent successful fetch. */
  ghost predicate CacheOk(s: State) {
    match LastToken(s.fetches)
    case None => s.authorization == None && s.expiresIn == DEFAULT_TOKEN_LIFETIME
    case Some(token) => s.authorization == Some(Header(token)) && s.expiresIn == token.expiresIn
  }

  /** A call overlaps the fetch it waits for, and is told that fetch's outcome. */
  ghost predicate CallerOk(s: State, k: Caller) {
    && k.fetch < |s.fetches|
    && var f := s.fetches[k.fetch];
       && f.start <= k.since < s.now
       && (f.result.Some? ==> k.since < f.result.value.at)
       && (k.Left? ==>
             && f.result.Some? && f.result.value.at < k.at < s.now
             && k.outcome == if k.own then Cancelled else f.result.value.outcome)
  }

  ghost predicate CallersOk(s: State) {
    forall c :: 0 <= c < |s.callers| ==> CallerOk(s, s.callers[c])
  }

  ghost predicate Served(s: State, t: nat) {
    exists f :: 0 <= f < |s.fetches| && s.fetches[f].result.Some? && s.fetches[f].result.value.at > t
  }

  /** The loop is spawned and has not stopped. */
  predicate Alive(s: State) { s.loop.Waiting? || s.loop.Awaiting? }

  /** The request made at `t` is not forgotten: the event is still set, a fetch has ended since,
      the loop waits for one that will - or nobody is left to serve it. */
  ghost predicate Remembered(s: State, t: nat) {
    s.requested || Served(s, t) || (s.loop.Awaiting? && !Done(s, s.loop.fetch)) || s.loop.Stopped?
  }

  /** What the loop's bookkeeping keeps. */
  ghost predicate RequestsOk(s: State) {
    && (s.loop.Awaiting? ==> s.loop.fetch < |s.fetches|)
    && s.wakes + (if s.requested then 1 else 0) <= |s.requests|
    && (forall r :: 0 <= r < |s.requests| ==> s.requests[r] < s.now)
    && (forall r :: 0 <= r < |s.requests| ==> Remembered(s, s.requests[r]))
  }

  ghost predicate Inv(s: State) {
    SingleFlight(s) && CacheOk(s) && CallersOk(s) && RequestsOk(s)
  }

  lemma InitInv()
    ensures Inv(INIT)
  {
  }

  predicate Joins(a: Action) { a.Call? || a.LoopWake? || a.LoopTimeout? }

  lemma JoinFlight(s: State)
    requires SingleFlight(s)
    ensures SingleFlight(Join(s).(now := s.now + 1))
  {
  }

  lemma OrderKept(before: seq<Fetch>, after: seq<Fetch>)
    requires OneAfterAnother(before) && |after| == |before|
    requires forall f :: 0 <= f < |before| ==>
               after[f].start == before[f].start && after[f].result == before[f].result
    ensures OneAfterAnother(after)
  {
    forall f, g | 0 <= f < g < |after|
      ensures after[f].result.Some? && after[f].result.value.at < after[g].start
    {
      assert after[f].result == before[f].result && after[g].start == before[g].start;
    }
  }

  lemma CancelFlight(s: State, f: nat)
    requires SingleFlight(s) && f < |s.fetches|
    ensures SingleFlight(CancelFetch(s, f).(now := s.now + 1))
  {
    OrderKept(s.fetches, CancelFetch(s, f).fetches);
  }

  lemma EndFlight(s: State, o: Outcome)
    requires SingleFlight(s) && Enabled(s, EndFetch(o))
    ensures SingleFlight(Next(s, EndFetch(o)))
  {
  }

  /** Only the list of fetches and the newest one matter to the fetches. */
  lemma FlightFrame(s: State, s': State)
    requires SingleFlight(s) && s'.fetches == s.fetches && s'.inflight == s.inflight && s'.now >= s.now
    ensures SingleFlight(s')
  {
  }

  lemma StepFlight(s: State, a: Action)
    requires SingleFlight(s) && Enabled(s, a)
    ensures SingleFlight(Next(s, a))
  {
    var s' := Next(s, a);
    if Joins(a) {
      JoinFlight(s);
      FlightFrame(Join(s).(now := s.now + 1), s');
    } else if a.EndFetch? {
      EndFlight(s, a.outcome);
    } else if a.CancelCaller? {
      CancelFlight(s, s.callers[a.caller].fetch);
      FlightFrame(CancelFetch(s, s.callers[a.caller].fetch).(now := s.now + 1), s');
    } else if a.Close? && s.loop.Awaiting? {
      CancelFlight(s, s.loop.fetch);
      FlightFrame(CancelFetch(s, s.loop.fetch).(now := s.now + 1), s');
    } else {
      FlightFrame(s, s');
    }
  }

  /** A fetch that has brought no token does not count. */
  lemma LastTokenSkips(fetches: seq<Fetch>, fetch: Fetch)
    requires fetch.result == None || !fetch.result.value.outcome.Fetched?
    ensures LastToken(fetches + [fetch]) == LastToken(fetches)
  {
    assert (fetches + [fetch])[..|fetches|] == fetches;
  }

  lemma JoinToken(s: State)
    ensures LastToken(Join(s).fetches) == LastToken(s.fetches)
  {
    LastTokenSkips(s.fetches, Fetch(s.now, false, None));
  }

  /** Replacing the newest fetch, which had no result yet. */
  lemma NewestToken(s: State, fetch: Fetch)
    requires SingleFlight(s) && Fetching(s)
    ensures LastToken(s.fetches[s.inflight.value := fetch])
         == if fetch.result.Some? && fetch.result.value.outcome.Fetched? then Some(fetch.result.value.outcome.token)
            else LastToken(s.fetches)
  {
    var f := s.inflight.value;
    assert s.fetches[f := fetch][..f] == s.fetches[..f];
  }

  lemma CancelToken(s: State, f: nat)
    requires SingleFlight(s) && f < |s.fetches|
    ensures LastToken(CancelFetch(s, f).fetches) == LastToken(s.fetches)
  {
    if !Done(s, f) {
      NewestToken(s, s.fetches[f].(cancelling := true));
    }
  }

  lemma EndCache(s: State, o: Outcome)
    requires SingleFlight(s) && CacheOk(s) && Enabled(s, EndFetch(o))
    ensures CacheOk(Next(s, EndFetch(o)))
  {
    NewestToken(s, s.fetches[s.inflight.value].(result := Some(Ended(s.now, o))));
  }

  lemma SameToken(s: State, a: Action)
    requires SingleFlight(s) && Enabled(s, a) && !a.EndFetch?
    ensures LastToken(Next(s, a).fetches) == LastToken(s.fetches)
  {
    if Joins(a) {
      JoinToken(s);
    } else if a.CancelCaller? {
      CancelToken(s, s.callers[a.caller].fetch);
    } else if a.Close? && s.loop.Awaiting? {
      CancelToken(s, s.loop.fetch);
    }
  }

  lemma SameCache(s: State, a: Action)
    requires Enabled(s, a) && !a.EndFetch?
    ensures Next(s, a).authorization == s.authorization && Next(s, a).expiresIn == s.expiresIn
  {
  }

  lemma StepCache(s: State, a: Action)
    requires SingleFlight(s) && CacheOk(s) && Enabled(s, a)
    ensures CacheOk(Next(s, a))
  {
    if a.EndFetch? {
      EndCache(s, a.outcome);
    } else {
      SameToken(s, a);
      SameCache(s, a);
    }
  }

  /** A fetch starts once, ends once, and ends no earlier than now. */
  lemma FetchKept(s: State, a: Action, f: nat)
    requires Enabled(s, a) && f < |s.fetches|
    ensures f < |Next(s, a).fetches|
    ensures var before, after := s.fetches[f], Next(s, a).fetches[f];
            && after.start == before.start
            && (before.result.Some? ==> after.result == before.result)
            && (before.result == None && after.result.Some? ==> after.result.value.at == s.now)
  {
  }

  lemma StepCaller(s: State, a: Action, c: nat)
    requires Enabled(s, a) && SingleFlight(s) && c < |s.callers| && CallerOk(s, s.callers[c])
    ensures c < |Next(s, a).callers| && CallerOk(Next(s, a), Next(s, a).callers[c])
  {
    FetchKept(s, a, s.callers[c].fetch);
  }

  lemma StepCallers(s: State, a: Action)
    requires SingleFlight(s) && CallersOk(s) && Enabled(s, a)
    ensures CallersOk(Next(s, a))
  {
    forall c | 0 <= c < |s.callers|
      ensures CallerOk(Next(s, a), Next(s, a).callers[c])
    {
      StepCaller(s, a, c);
    }
  }

  lemma ServedStays(s: State, a: Action, t: nat)
    requires SingleFlight(s) && Enabled(s, a) && Served(s, t)
    ensures Served(Next(s, a), t)
  {
    var f :| 0 <= f < |s.fetches| && s.fetches[f].result.Some? && s.fetches[f].result.value.at > t;
    assert Next(s, a).fetches[f].result == s.fetches[f].result;
  }

  lemma EndServes(s: State, o: Outcome, t: nat)
    requires SingleFlight(s) && Enabled(s, EndFetch(o)) && t < s.now
    ensures Served(Next(s, EndFetch(o)), t)
  {
    assert Next(s, EndFetch(o)).fetches[s.inflight.value].result == Some(Ended(s.now, o));
  }

  lemma RequestKept(s: State, a: Action, t: nat)
    requires SingleFlight(s) && Enabled(s, a) && t < s.now && Remembered(s, t)
    ensures Remembered(Next(s, a), t)
  {
    if Served(s, t) {
      ServedStays(s, a, t);
    } else if a.EndFetch? {
      EndServes(s, a.outcome, t);
    }
  }

  lemma StepRequests(s: State, a: Action)
    requires SingleFlight(s) && RequestsOk(s) && Enabled(s, a)
    ensures RequestsOk(Next(s, a))
  {
    forall r | 0 <= r < |s.requests|
      ensures Remembered(Next(s, a), s.requests[r])
    {
      RequestKept(s, a, s.requests[r]);
    }
  }

  lemma StepInv(s: State, a: Action)
    requires Inv(s) && Enabled(s, a)
    ensures Inv(Next(s, a))
  {
    StepFlight(s, a);
    StepCache(s, a);
    StepCallers(s, a);
    StepRequests(s, a);
  }

  lemma {:induction false} RunInv(s: State, acts: seq<Action>, s': State)
    requires Inv(s) && Leads(s, acts, s')
    ensures Inv(s')
    decreases |acts|
  {
    if acts != [] {
      StepInv(s, acts[0]);
      RunInv(Next(s, acts[0]), acts[1..], s');
    }
  }
}
