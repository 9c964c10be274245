/** The token protocol against a discrete clock: whether the cached token can ever expire
    while the refresh loop runs. Nobody is cancelled here and every fetch ends in a token or
    a `RociaDbError`. */
module TokenTiming {
  import opened TokenProtocol

  /** `interval` is fixed when the loop is spawned, `fetchMax` bounds a fetch, `spawnAge` the
      age of the token when the loop is spawned, and at most `failures` fetches fail in a row.
      Every token lives for `lifetime`. */
  datatype Config = Config(interval: nat, fetchMax: nat, spawnAge: nat, failures: nat, lifetime: int)

  /** The protocol with the clock readings that matter. `issued` is when the cached token was
      issued: some instant of the fetch that brought it. */
  datatype Timed = Timed(base: State, clock: nat, waitSince: nat, fetchSince: nat, issued: nat, failedRow: nat)

  datatype Event = Tick | Do(action: Action) | Renew(token: Token, issued: nat)

  /** Time passes unless something is due: the interval, the fetch's bound, the loop's resumption. */
  predicate MayTick(c: Config, t: Timed) {
    && (t.base.loop.Waiting? ==> t.clock < t.waitSince + c.interval)
    && (Fetching(t.base) ==> t.clock < t.fetchSince + c.fetchMax)
    && (t.base.loop.Awaiting? ==> !Done(t.base, t.base.loop.fetch))
  }

  predicate Possible(c: Config, t: Timed, e: Event) {
    match e
    case Tick => MayTick(c, t)
    case Renew(token, issued) => Enabled(t.base, EndFetch(Fetched(token))) && t.fetchSince <= issued <= t.clock
    case Do(a) =>
      && Enabled(t.base, a)
      && match a
         case LoopTimeout => t.clock >= t.waitSince + c.interval
         case EndFetch(o) => o == AuthFailure && t.failedRow < c.failures
         case CancelCaller(_) => false
         case Close => false
         case Spawn => false
         case _ => true
  }

  function Happen(c: Config, t: Timed, e: Event): Timed
    requires Possible(c, t, e)
  {
    match e
    case Tick => t.(clock := t.clock + 1)
    case Renew(token, issued) => t.(base := Next(t.base, EndFetch(Fetched(token))), issued := issued, failedRow := 0)
    case Do(a) =>
      var base := Next(t.base, a);
      var started := !Fetching(t.base) && Fetching(base);
      t.(base := base,
         fetchSince := if started then t.clock else t.fetchSince,
         waitSince := if a.LoopResume? then t.clock else t.waitSince,
         failedRow := if a.EndFetch? then t.failedRow + 1 else t.failedRow)
  }

  ghost predicate Path(c: Config, t: Timed, events: seq<Event>, t': Timed)
    decreases |events|
  {
    if events == [] then t == t' else Possible(c, t, events[0]) && Path(c, Happen(c, t, events[0]), events[1..], t')
  }

  /** `connect`: one fetch, then the loop. The clock starts when the token was issued. */
  ghost predicate Spawned(c: Config, t: Timed) {
    && (exists token :: t.base == Next(Next(Next(INIT, Call), EndFetch(Fetched(token))), Spawn))
    && t.clock == t.waitSince <= c.spawnAge
    && t.fetchSince == t.issued == 0 && t.failedRow == 0
  }

  predicate Expired(c: Config, t: Timed) { t.clock >= t.issued + c.lifetime }

  /** No run, however long, ever finds an expired token in the cache. */
  ghost predicate NeverExpires(c: Config) {
    forall t0, events, t :: Spawned(c, t0) && Path(c, t0, events, t) ==> !Expired(c, t)
  }

  // ---------- the bound holds in every run ----------

  function Max(a: nat, b: nat): nat { if a < b then b else a }

  /** Age of a token when the loop starts to wait, after `row` failed rounds. */
  function Age(c: Config, row: nat): nat {
    if row == 0 then Max(c.spawnAge, c.fetchMax) else Age(c, row - 1) + c.interval + c.fetchMax
  }

  lemma {:induction false} AgeClosed(c: Config, row: nat)
    ensures Age(c, row) == Max(c.spawnAge, c.fetchMax) + row * (c.interval + c.fetchMax)
  {
    if row > 0 {
      AgeClosed(c, row - 1);
      assert row * (c.interval + c.fetchMax) == (row - 1) * (c.interval + c.fetchMax) + (c.interval + c.fetchMax);
    }
  }

  lemma {:induction false} AgeGrows(c: Config, row: nat, more: nat)
    requires row <= more
    ensures Age(c, row) <= Age(c, more)
    decreases more
  {
    if row < more {
      AgeGrows(c, row, more - 1);
    }
  }

  ghost predicate TimedInv(c: Config, t: Timed) {
    && SingleFlight(t.base) && LoopOk(t.base)
    && (forall f :: 0 <= f < |t.base.fetches| ==> !t.base.fetches[f].cancelling)
    && (forall f :: 0 <= f < |t.base.fetches| && t.base.fetches[f].result.Some? ==>
          Survives(t.base.fetches[f].result.value.outcome))
    && t.failedRow <= c.failures
    && t.waitSince <= t.clock
    && t.waitSince - t.issued <= Age(c, t.failedRow)
    && (Fetching(t.base) ==> t.fetchSince <= t.clock <= t.fetchSince + c.fetchMax)
    && match t.base.loop
       case Waiting => t.clock <= t.waitSince + c.interval
       case Awaiting(f) =>
         if Done(t.base, f) then t.clock - t.issued <= Age(c, t.failedRow)
         else f == |t.base.fetches| - 1 && t.fetchSince <= t.waitSince + c.interval
       case _ => false
  }

  predicate LoopOk(s: State) {
    Alive(s) && (s.loop.Awaiting? ==> s.loop.fetch < |s.fetches|)
  }

  lemma CallKeeps(c: Config, t: Timed)
    requires TimedInv(c, t)
    ensures Possible(c, t, Do(Call)) && TimedInv(c, Happen(c, t, Do(Call)))
  {
    StepFlight(t.base, Call);
  }

  lemma LoopTurnKeeps(c: Config, t: Timed, a: Action)
    requires TimedInv(c, t) && Possible(c, t, Do(a)) && (a.LoopWake? || a.LoopTimeout?)
    ensures TimedInv(c, Happen(c, t, Do(a)))
  {
    StepFlight(t.base, a);
  }

  lemma FailureKeeps(c: Config, t: Timed)
    requires TimedInv(c, t) && Possible(c, t, Do(EndFetch(AuthFailure)))
    ensures TimedInv(c, Happen(c, t, Do(EndFetch(AuthFailure))))
  {
  }

  lemma RenewKeeps(c: Config, t: Timed, token: Token, issued: nat)
    requires TimedInv(c, t) && Possible(c, t, Renew(token, issued))
    ensures TimedInv(c, Happen(c, t, Renew(token, issued)))
  {
  }

  lemma OtherKeeps(c: Config, t: Timed, a: Action)
    requires TimedInv(c, t) && Possible(c, t, Do(a)) && !Joins(a) && !a.EndFetch?
    ensures TimedInv(c, Happen(c, t, Do(a)))
  {
  }

  lemma EventKeeps(c: Config, t: Timed, e: Event)
    requires TimedInv(c, t) && Possible(c, t, e)
    ensures TimedInv(c, Happen(c, t, e))
  {
    match e
    case Tick =>
    case Renew(token, issued) => RenewKeeps(c, t, token, issued);
    case Do(a) =>
      if a.Call? {
        CallKeeps(c, t);
      } else if a.LoopWake? || a.LoopTimeout? {
        LoopTurnKeeps(c, t, a);
      } else if a.EndFetch? {
        FailureKeeps(c, t);
      } else {
        OtherKeeps(c, t, a);
      }
  }

  lemma {:induction false} PathKeeps(c: Config, t: Timed, events: seq<Event>, t': Timed)
    requires TimedInv(c, t) && Path(c, t, events, t')
    ensures TimedInv(c, t')
    decreases |events|
  {
    if events != [] {
      EventKeeps(c, t, events[0]);
      PathKeeps(c, Happen(c, t, events[0]), events[1..], t');
    }
  }

  lemma SpawnedInv(c: Config, t: Timed)
    requires Spawned(c, t)
    ensures TimedInv(c, t)
  {
  }

  lemma TokenAge(c: Config, t: Timed)
    requires TimedInv(c, t)
    ensures t.clock - t.issued <= Age(c, c.failures + 1)
  {
    AgeGrows(c, t.failedRow, c.failures + 1);
    AgeGrows(c, t.failedRow + 1, c.failures + 1);
  }

  lemma FreshEnough(c: Config)
    requires Age(c, c.failures + 1) < c.lifetime
    ensures NeverExpires(c)
  {
    forall t0, events, t | Spawned(c, t0) && Path(c, t0, events, t)
      ensures !Expired(c, t)
    {
      SpawnedInv(c, t0);
      PathKeeps(c, t0, events, t);
      TokenAge(c, t);
    }
  }

  // ---------- and the bound is reached ----------

  lemma {:induction false} PathJoin(c: Config, t: Timed, first: seq<Event>, mid: Timed, second: seq<Event>, t': Timed)
    requires Path(c, t, first, mid) && Path(c, mid, second, t')
    ensures Path(c, t, first + second, t')
    decreases |first|
  {
    if first == [] {
      assert first + second == second;
    } else {
      PathJoin(c, Happen(c, t, first[0]), first[1..], mid, second, t');
      assert (first + second)[1..] == first[1..] + second;
    }
  }

  lemma Extend(c: Config, t: Timed, events: seq<Event>, t1: Timed, e: Event)
    returns (events': seq<Event>, t2: Timed)
    requires TimedInv(c, t1) && Path(c, t, events, t1) && Possible(c, t1, e)
    ensures t2 == Happen(c, t1, e) && TimedInv(c, t2) && Path(c, t, events', t2)
  {
    t2 := Happen(c, t1, e);
    EventKeeps(c, t1, e);
    assert [e][1..] == [];
    assert Path(c, t1, [e], t2);
    PathJoin(c, t, events, t1, [e], t2);
    events' := events + [e];
  }

  /** Time passes up to the next deadline. */
  lemma {:induction false} Ticks(c: Config, t: Timed, n: nat) returns (events: seq<Event>)
    requires n > 0 ==> MayTick(c, t)
    requires t.base.loop.Waiting? ==> t.clock + n <= t.waitSince + c.interval
    requires Fetching(t.base) ==> t.clock + n <= t.fetchSince + c.fetchMax
    ensures Path(c, t, events, t.(clock := t.clock + n))
    decreases n
  {
    if n == 0 {
      events := [];
    } else {
      var t1 := Happen(c, t, Tick);
      events := Ticks(c, t1, n - 1);
      assert ([Tick] + events)[1..] == events;
      events := [Tick] + events;
    }
  }

  /** The loop has just started to wait and nothing is being fetched. */
  ghost predicate Quiet(c: Config, t: Timed) {
    TimedInv(c, t) && t.base.loop.Waiting? && !Fetching(t.base) && t.waitSince == t.clock
  }

  /** The loop waits for a fetch that has used up all its time. */
  ghost predicate Overdue(c: Config, t: Timed) {
    && TimedInv(c, t) && t.base.loop.Awaiting? && !Done(t.base, t.base.loop.fetch)
    && t.clock == t.fetchSince + c.fetchMax
  }

  lemma WaitOut(c: Config, t: Timed) returns (events: seq<Event>, t': Timed)
    requires Quiet(c, t)
    ensures Path(c, t, events, t') && TimedInv(c, t')
    ensures t'.base.loop.Awaiting? && !Done(t'.base, t'.base.loop.fetch)
    ensures t' == t.(base := t'.base, clock := t.clock + c.interval, fetchSince := t.clock + c.interval)
  {
    var wait := Ticks(c, t, c.interval);
    var t1 := t.(clock := t.clock + c.interval);
    PathKeeps(c, t, wait, t1);
    events, t' := Extend(c, t, wait, t1, Do(LoopTimeout));
  }

  lemma WaitAndFetch(c: Config, t: Timed) returns (events: seq<Event>, t': Timed)
    requires Quiet(c, t)
    ensures Path(c, t, events, t') && Overdue(c, t')
    ensures t'.clock == t.clock + c.interval + c.fetchMax && t'.issued == t.issued && t'.failedRow == t.failedRow
  {
    var first, mid := WaitOut(c, t);
    var second := Ticks(c, mid, c.fetchMax);
    t' := mid.(clock := mid.clock + c.fetchMax);
    PathKeeps(c, mid, second, t');
    PathJoin(c, t, first, mid, second, t');
    events := first + second;
  }

  lemma FailedRound(c: Config, t: Timed) returns (events: seq<Event>, t': Timed)
    requires Quiet(c, t) && t.failedRow < c.failures
    ensures Path(c, t, events, t') && Quiet(c, t')
    ensures t'.clock == t.clock + c.interval + c.fetchMax && t'.issued == t.issued && t'.failedRow == t.failedRow + 1
  {
    events, t' := WaitAndFetch(c, t);
    events, t' := Extend(c, t, events, t', Do(EndFetch(AuthFailure)));
    events, t' := Extend(c, t, events, t', Do(LoopResume));
  }

  lemma RenewedRound(c: Config, t: Timed) returns (events: seq<Event>, t': Timed)
    requires Quiet(c, t)
    ensures Path(c, t, events, t') && Quiet(c, t')
    ensures t'.clock == t'.issued + c.fetchMax && t'.failedRow == 0
  {
    events, t' := WaitAndFetch(c, t);
    events, t' := Extend(c, t, events, t', Renew(Token("", "", 0), t'.fetchSince));
    events, t' := Extend(c, t, events, t', Do(LoopResume));
  }

  /** Failing as often as allowed and then fetching as slowly as allowed. */
  lemma {:induction false} AgeAll(c: Config, t: Timed) returns (events: seq<Event>, t': Timed)
    requires Quiet(c, t)
    ensures Path(c, t, events, t')
    ensures t'.issued == t.issued
    ensures t'.clock - t.clock == Age(c, c.failures + 1) - Age(c, t.failedRow)
    decreases c.failures - t.failedRow
  {
    if t.failedRow == c.failures {
      events, t' := WaitAndFetch(c, t);
    } else {
      var e1, t1 := FailedRound(c, t);
      events, t' := AgeAll(c, t1);
      PathJoin(c, t, e1, t1, events, t');
      events := e1 + events;
    }
  }

  lemma Spawning(c: Config) returns (t: Timed)
    ensures Spawned(c, t) && Quiet(c, t) && t.clock == t.issued + c.spawnAge
  {
    var token := Token("", "", 0);
    var base := Next(Next(Next(INIT, Call), EndFetch(Fetched(token))), Spawn);
    t := Timed(base, c.spawnAge, c.spawnAge, 0, 0, 0);
    SpawnedInv(c, t);
  }

  lemma OldestToken(c: Config) returns (t0: Timed, events: seq<Event>, t: Timed)
    ensures Spawned(c, t0) && Path(c, t0, events, t)
    ensures t.clock - t.issued == Age(c, c.failures + 1)
  {
    t0 := Spawning(c);
    if c.spawnAge >= c.fetchMax {
      events, t := AgeAll(c, t0);
    } else {
      var e1, t1 := RenewedRound(c, t0);
      events, t := AgeAll(c, t1);
      PathJoin(c, t0, e1, t1, events, t);
      events := e1 + events;
    }
  }

  /** The exact condition: the oldest the cached token can get is its age when the loop starts
      to wait, plus one interval and one fetch for every failed round and the one after. */
  lemma NeverExpiresIff(c: Config)
    ensures NeverExpires(c) <==>
            Max(c.spawnAge, c.fetchMax) + (c.failures + 1) * (c.interval + c.fetchMax) < c.lifetime
  {
    AgeClosed(c, c.failures + 1);
    if Age(c, c.failures + 1) < c.lifetime {
      FreshEnough(c);
    } else {
      var t0, events, t := OldestToken(c);
      assert Expired(c, t);
    }
  }

  /** The steps of the protocol in a timed run. */
  function Steps(events: seq<Event>): seq<Action> {
    if events == [] then []
    else
      (match events[0] case Tick => [] case Renew(token, _) => [EndFetch(Fetched(token))] case Do(a) => [a])
      + Steps(events[1..])
  }

  /** A timed run is a run of the protocol, and takes as long as it has ticks. */
  lemma {:induction false} TimedRun(c: Config, t: Timed, events: seq<Event>, t': Timed)
    requires Path(c, t, events, t')
    ensures Leads(t.base, Steps(events), t'.base)
    ensures t'.clock == t.clock + (|events| - |Steps(events)|)
    decreases |events|
  {
    if events != [] {
      var t1 := Happen(c, t, events[0]);
      TimedRun(c, t1, events[1..], t');
      if events[0] == Tick {
        assert Steps(events) == Steps(events[1..]) && t1.base == t.base;
      } else {
        var acts := Steps(events);
        assert acts[1..] == Steps(events[1..]) && t1.base == Next(t.base, acts[0]);
      }
    }
  }

  /** Whoever wants to call, resume or ask for a refresh may do so at any time. */
  lemma NobodyHeldUp(c: Config, t: Timed, a: Action)
    requires Enabled(t.base, a)
    requires a.Call? || a.Deliver? || a.RequestRefresh? || a.LoopWake? || a.LoopResume?
    ensures Possible(c, t, Do(a)) && Happen(c, t, Do(a)).base == Next(t.base, a)
  {
  }

  /** The deadlines never contradict each other: either time may pass, or an event that
      lifts the deadline standing in its way is possible. */
  lemma TimeGoesOn(c: Config, t: Timed) returns (e: Event)
    requires TimedInv(c, t)
    ensures Possible(c, t, e) && (e == Tick || e == Do(LoopTimeout) || e == Do(LoopResume) || e.Renew?)
    ensures e != Tick ==> !MayTick(c, t)
  {
    var loop := t.base.loop;
    if MayTick(c, t) {
      e := Tick;
    } else if loop.Awaiting? && Done(t.base, loop.fetch) {
      e := Do(LoopResume);
    } else if Fetching(t.base) && t.clock >= t.fetchSince + c.fetchMax {
      e := Renew(Token("", "", 0), t.clock);
    } else {
      e := Do(LoopTimeout);
    }
  }

  // ---------- the interval the client uses ----------

  const DEFAULT_CONNECT_TIMEOUT: nat := 10

  /** What a client has with a provider whose tokens live for `lifetime`. */
  function Client(lifetime: int, fetchMax: nat, spawnAge: nat, failures: nat): Config {
    Config(RefreshInterval(lifetime), fetchMax, spawnAge, failures, lifetime)
  }

  /** Fetches that never fail and take at most `d`, and a channel that `connect` waits for up to
      `w` after its first fetch, so that the loop is spawned with a token up to `d + w` old: safe
      exactly when the interval leaves room for two fetches and that wait - never, however fast
      they are, for lifetimes up to the five-second floor. */
  lemma ReliableProvider(lifetime: int, d: nat, w: nat)
    ensures NeverExpires(Client(lifetime, d, d + w, 0)) <==> RefreshInterval(lifetime) + 2 * d + w < lifetime
    ensures lifetime <= MIN_REFRESH_INTERVAL ==> !NeverExpires(Client(lifetime, d, d + w, 0))
    ensures lifetime > MIN_REFRESH_INTERVAL ==> NeverExpires(Client(lifetime, 0, 0, 0))
    ensures NeverExpires(Client(600, d, d + DEFAULT_CONNECT_TIMEOUT, 0)) <==> d < 95
  {
    NeverExpiresIff(Client(lifetime, d, d + w, 0));
    NeverExpiresIff(Client(lifetime, 0, 0, 0));
    NeverExpiresIff(Client(600, d, d + DEFAULT_CONNECT_TIMEOUT, 0));
  }

  /** One failed background refresh is already too many: the retry comes a whole interval
      later, after the token has expired. */
  lemma OneFailureIsTooMany(lifetime: int, d: nat, spawnAge: nat, failures: nat)
    requires failures >= 1
    ensures !NeverExpires(Client(lifetime, d, spawnAge, failures))
  {
    var c := Client(lifetime, d, spawnAge, failures);
    NeverExpiresIff(c);
    AgeClosed(c, failures + 1);
    AgeClosed(c, 2);
    AgeGrows(c, 2, failures + 1);
  }
}
