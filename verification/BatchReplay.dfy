/** Replaying a failed write batch against a server that deduplicates on request ids. A world
    is the current attempt of the batch runner plus the server; requests of interrupted
    attempts may still reach the server at any later time. */
module BatchReplay {
  import opened Wrappers
  import opened BatchRunner
  import opened BatchHistory
  import opened BatchTheorems

  /** A node or edge to write; `requestId` is its optional idempotency key. */
  datatype Item = Item(payload: string, requestId: Option<string>)

  /** The key a call carries: the item's own, or a new UUID for every attempt. */
  datatype Key = Explicit(id: string) | Generated(attempt: nat, item: nat)

  /** `used` holds the server's markers from before the first attempt. */
  datatype Setup = Setup(items: seq<Item>, used: set<Key>)

  datatype Request = Request(attempt: nat, item: nat)

  datatype World<+E> = World(
    attempt: nat,
    run: State<(), E>,
    sent: set<Request>,
    applied: seq<Request>,   // writes that took effect, in order
    markers: set<Key>)

  datatype Event<+E> = Local(action: Action<(), E>) | Serve(request: Request) | Replay

  function KeyOf(c: Setup, r: Request): Key
    requires r.item < |c.items|
  {
    match c.items[r.item].requestId
    case Some(id) => Explicit(id)
    case None => Generated(r.attempt, r.item)
  }

  function TheBatch(c: Setup): Batch<Item, ()> {
    Batch(c.items, CONCURRENT_REQUESTS, (item, value) => true)
  }

  function Start<E>(c: Setup): World<E> {
    World(0, Init<Item, (), E>(TheBatch(c)), {}, [], c.used)
  }

  /** A worker's call succeeds only after the server has a marker for its key. */
  predicate Possible<E>(c: Setup, w: World<E>, e: Event<E>) {
    match e
    case Local(a) =>
      && Enabled(TheBatch(c), w.run, a)
      && (a.Finish? && a.outcome.Value? ==> KeyOf(c, Request(w.attempt, a.i)) in w.markers)
    case Serve(r) => r in w.sent && r.item < |c.items|
    case Replay => w.run.parent.RaisedOut?
  }

  function Happen<E>(c: Setup, w: World<E>, e: Event<E>): World<E>
    requires Possible(c, w, e)
  {
    match e
    case Local(a) =>
      var run := Next(TheBatch(c), w.run, a);
      w.(run := run, sent := w.sent + set i | i in run.started :: Request(w.attempt, i))
    case Serve(r) =>
      if KeyOf(c, r) in w.markers then w
      else w.(applied := w.applied + [r], markers := w.markers + {KeyOf(c, r)})
    case Replay => w.(attempt := w.attempt + 1, run := Init(TheBatch(c)))
  }

  ghost predicate Path<E(!new)>(c: Setup, w: World<E>, events: seq<Event<E>>, w': World<E>)
    decreases |events|
  {
    if events == [] then w == w' else Possible(c, w, events[0]) && Path(c, Happen(c, w, events[0]), events[1..], w')
  }

  /** How often an item took effect. */
  ghost function Times(applied: seq<Request>, i: nat): nat {
    if applied == [] then 0
    else Times(applied[..|applied| - 1], i) + if applied[|applied| - 1].item == i then 1 else 0
  }

  /** Whatever attempts failed and however, after a successful one each item took effect
      exactly once. */
  ghost predicate ExactlyOnce<E(!new)>(c: Setup) {
    forall events: seq<Event<E>>, w ::
      Path(c, Start<E>(c), events, w) && w.run.parent.Returned? ==>
        forall i: nat :: i < |c.items| ==> Times(w.applied, i) == 1
  }

  /** What a caller can check before the first attempt. */
  predicate IdsExplicitAndDistinct(items: seq<Item>) {
    && (forall i :: 0 <= i < |items| ==> items[i].requestId.Some?)
    && (forall i, j :: 0 <= i < j < |items| ==> items[i].requestId != items[j].requestId)
  }

  // ---------- what every event keeps ----------

  ghost predicate ServerOk<E>(c: Setup, w: World<E>) {
    && (forall r :: r in w.sent ==> r.item < |c.items| && r.attempt <= w.attempt)
    && (forall k :: 0 <= k < |w.applied| ==> w.applied[k].item < |c.items| && KeyOf(c, w.applied[k]) in w.markers)
    && (forall k :: 0 <= k < |w.applied| ==> KeyOf(c, w.applied[k]) !in c.used)
    && (forall j, k :: 0 <= j < k < |w.applied| ==> KeyOf(c, w.applied[j]) != KeyOf(c, w.applied[k]))
    && (forall key :: key in w.markers && key !in c.used ==>
          exists k :: 0 <= k < |w.applied| && KeyOf(c, w.applied[k]) == key)
    && c.used <= w.markers
  }

  ghost predicate WorldInv<E>(c: Setup, w: World<E>) {
    && Inv(TheBatch(c), w.run)
    && ServerOk(c, w)
    && (forall i :: i in w.run.started ==> Request(w.attempt, i) in w.sent)
    && (forall i :: 0 <= i < |c.items| && w.run.tasks[i].phase.Finished? && w.run.tasks[i].phase.outcome.Value? ==>
          KeyOf(c, Request(w.attempt, i)) in w.markers)
  }

  lemma ValueOrigin<I, T, E>(b: Batch<I, T>, s: State<T, E>, a: Action<T, E>, i: nat)
    requires Enabled(b, s, a) && i < |s.tasks|
    requires Next(b, s, a).tasks[i].phase.Finished? && Next(b, s, a).tasks[i].phase.outcome.Value?
    ensures Next(b, s, a).tasks[i].phase == s.tasks[i].phase || a == Finish(i, Next(b, s, a).tasks[i].phase.outcome)
  {
  }

  lemma LocalKeeps<E>(c: Setup, w: World<E>, a: Action<(), E>)
    requires WorldInv(c, w) && Possible(c, w, Local(a))
    ensures WorldInv(c, Happen(c, w, Local(a)))
  {
    var b, w' := TheBatch(c), Happen(c, w, Local(a));
    StepInv(b, w.run, a);
    assert ServerOk(c, w') by {
      assert forall i :: i in w'.run.started ==> i < |c.items|;
    }
    forall i | 0 <= i < |c.items| && w'.run.tasks[i].phase.Finished? && w'.run.tasks[i].phase.outcome.Value?
      ensures KeyOf(c, Request(w.attempt, i)) in w'.markers
    {
      ValueOrigin(b, w.run, a, i);
    }
  }

  lemma ServeKeeps<E>(c: Setup, w: World<E>, r: Request)
    requires ServerOk(c, w) && Possible(c, w, Serve(r))
    ensures ServerOk(c, Happen(c, w, Serve(r))) && w.markers <= Happen(c, w, Serve(r)).markers
  {
    var w' := Happen(c, w, Serve(r));
    if KeyOf(c, r) !in w.markers {
      assert w'.applied[|w.applied|] == r;
      forall key | key in w'.markers && key !in c.used
        ensures exists k :: 0 <= k < |w'.applied| && KeyOf(c, w'.applied[k]) == key
      {
        if key != KeyOf(c, r) {
          var k :| 0 <= k < |w.applied| && KeyOf(c, w.applied[k]) == key;
          assert w'.applied[k] == w.applied[k];
        }
      }
    }
  }

  lemma EventKeeps<E>(c: Setup, w: World<E>, e: Event<E>)
    requires WorldInv(c, w) && Possible(c, w, e)
    ensures WorldInv(c, Happen(c, w, e))
  {
    match e
    case Local(a) => LocalKeeps(c, w, a);
    case Serve(r) => ServeKeeps(c, w, r);
    case Replay => InitInv<Item, (), E>(TheBatch(c));
  }

  lemma {:induction false} PathKeeps<E(!new)>(c: Setup, w: World<E>, events: seq<Event<E>>, w': World<E>)
    requires WorldInv(c, w) && Path(c, w, events, w')
    ensures WorldInv(c, w')
    decreases |events|
  {
    if events != [] {
      EventKeeps(c, w, events[0]);
      PathKeeps(c, Happen(c, w, events[0]), events[1..], w');
    }
  }

  lemma StartOk<E>(c: Setup)
    ensures WorldInv(c, Start<E>(c))
  {
    InitInv<Item, (), E>(TheBatch(c));
  }

  lemma {:induction false} SentStays<E(!new)>(c: Setup, w: World<E>, events: seq<Event<E>>, w': World<E>)
    requires Path(c, w, events, w')
    ensures w.sent <= w'.sent
    decreases |events|
  {
    if events != [] {
      SentStays(c, Happen(c, w, events[0]), events[1..], w');
    }
  }

  /** The request of any worker ever called may reach the server at any later time, in this
      attempt or during the ones after it. */
  lemma LateArrival<E(!new)>(
    c: Setup, upTo: seq<Event<E>>, w: World<E>, later: seq<Event<E>>, w': World<E>, i: nat)
    requires Path(c, Start<E>(c), upTo, w) && i in w.run.started && Path(c, w, later, w')
    ensures Possible(c, w', Serve(Request(w.attempt, i)))
  {
    StartOk<E>(c);
    PathKeeps(c, Start<E>(c), upTo, w);
    SentStays(c, w, later, w');
  }

  // ---------- counting ----------

  lemma {:induction false} TimesPositive(applied: seq<Request>, k: nat)
    requires k < |applied|
    ensures Times(applied, applied[k].item) >= 1
  {
    if k < |applied| - 1 {
      TimesPositive(applied[..|applied| - 1], k);
    }
  }

  lemma {:induction false} TimesZero(applied: seq<Request>, i: nat)
    requires forall k :: 0 <= k < |applied| ==> applied[k].item != i
    ensures Times(applied, i) == 0
  {
    if applied != [] {
      TimesZero(applied[..|applied| - 1], i);
    }
  }

  lemma {:induction false} TimesAtMostOnce(applied: seq<Request>, i: nat)
    requires forall j, k :: 0 <= j < k < |applied| && applied[j].item == i ==> applied[k].item != i
    ensures Times(applied, i) <= 1
  {
    if applied != [] {
      var init := applied[..|applied| - 1];
      if applied[|applied| - 1].item == i {
        TimesZero(init, i);
      } else {
        TimesAtMostOnce(init, i);
      }
    }
  }

  lemma {:induction false} TimesTwice(applied: seq<Request>, j: nat, k: nat)
    requires j < k < |applied| && applied[j].item == applied[k].item
    ensures Times(applied, applied[j].item) >= 2
  {
    var init := applied[..|applied| - 1];
    if k < |applied| - 1 {
      TimesTwice(init, j, k);
    } else {
      TimesPositive(init, j);
    }
  }

  /** Nothing is ever applied twice when ids are explicit and distinct, success or not. */
  lemma AtMostOnce<E(!new)>(c: Setup, events: seq<Event<E>>, w: World<E>, i: nat)
    requires IdsExplicitAndDistinct(c.items) && Path(c, Start<E>(c), events, w) && i < |c.items|
    ensures Times(w.applied, i) <= 1
  {
    StartOk<E>(c);
    PathKeeps(c, Start<E>(c), events, w);
    TimesAtMostOnce(w.applied, i);
  }

  /** A completed write left a trace at the server. */
  lemma Recorded<E>(c: Setup, w: World<E>, i: nat) returns (k: nat)
    requires WorldInv(c, w) && w.run.parent.Returned? && i < |c.items|
    requires KeyOf(c, Request(w.attempt, i)) !in c.used
    ensures k < |w.applied| && KeyOf(c, w.applied[k]) == KeyOf(c, Request(w.attempt, i))
  {
    assert w.run.tasks[i].phase.outcome.Value?;
    k :| 0 <= k < |w.applied| && KeyOf(c, w.applied[k]) == KeyOf(c, Request(w.attempt, i));
  }

  /** No key of this batch was spent before the first attempt. */
  ghost predicate KeysUnused(c: Setup) {
    forall r: Request :: r.item < |c.items| ==> KeyOf(c, r) !in c.used
  }

  lemma OwnKey(c: Setup, r: Request, i: nat, attempt: nat)
    requires IdsExplicitAndDistinct(c.items) && r.item < |c.items| && i < |c.items|
    requires KeyOf(c, r) == KeyOf(c, Request(attempt, i))
    ensures r.item == i
  {
  }

  lemma AllApplied<E>(c: Setup, w: World<E>, i: nat)
    requires KeysUnused(c) && IdsExplicitAndDistinct(c.items) && i < |c.items|
    requires WorldInv(c, w) && w.run.parent.Returned?
    ensures Times(w.applied, i) >= 1
  {
    var k := Recorded(c, w, i);
    OwnKey(c, w.applied[k], i, w.attempt);
    TimesPositive(w.applied, k);
  }

  lemma OnceAfterSuccess<E(!new)>(c: Setup, events: seq<Event<E>>, w: World<E>, i: nat)
    requires KeysUnused(c) && IdsExplicitAndDistinct(c.items) && i < |c.items|
    requires Path(c, Start<E>(c), events, w) && w.run.parent.Returned?
    ensures Times(w.applied, i) == 1
  {
    AtMostOnce(c, events, w, i);
    StartOk<E>(c);
    PathKeeps(c, Start<E>(c), events, w);
    AllApplied(c, w, i);
  }

  lemma ReplayIsExactlyOnce<E(!new)>(c: Setup)
    requires KeysUnused(c) && IdsExplicitAndDistinct(c.items)
    ensures ExactlyOnce<E>(c)
  {
    forall events: seq<Event<E>>, w, i: nat |
      Path(c, Start<E>(c), events, w) && w.run.parent.Returned? && i < |c.items|
      ensures Times(w.applied, i) == 1
    {
      OnceAfterSuccess(c, events, w, i);
    }
  }

  // ---------- the other half: without such ids some replay goes wrong ----------

  lemma {:induction false} PathJoin<E(!new)>(
    c: Setup, w: World<E>, first: seq<Event<E>>, mid: World<E>, second: seq<Event<E>>, w': World<E>)
    requires Path(c, w, first, mid) && Path(c, mid, second, w')
    ensures Path(c, w, first + second, w')
    decreases |first|
  {
    if first == [] {
      assert first + second == second;
    } else {
      PathJoin(c, Happen(c, w, first[0]), first[1..], mid, second, w');
      assert (first + second)[1..] == first[1..] + second;
    }
  }

  lemma PathOne<E(!new)>(c: Setup, w: World<E>, e: Event<E>)
    requires Possible(c, w, e)
    ensures Path(c, w, [e], Happen(c, w, e))
  {
  }

  /** Effects are never taken back. */
  lemma {:induction false} EffectsStay<E(!new)>(c: Setup, w: World<E>, events: seq<Event<E>>, w': World<E>)
    requires Path(c, w, events, w')
    ensures w.applied <= w'.applied
    decreases |events|
  {
    if events != [] {
      EffectsStay(c, Happen(c, w, events[0]), events[1..], w');
    }
  }

  /** So far nothing went wrong in this attempt. */
  ghost predicate Smooth<E>(s: State<(), E>) {
    && (s.parent.Gathering? || s.parent.Returned?)
    && !s.gatherCancelled && !s.mustCancel && !s.gather.Failed?
    && (forall i :: 0 <= i < |s.tasks| && s.tasks[i].phase.Finished? ==> s.tasks[i].phase.outcome.Value?)
  }

  lemma SmoothMove<E>(c: Setup, s: State<(), E>) returns (a: Action<(), E>)
    requires Inv(TheBatch(c), s) && Smooth(s) && !Final(s)
    ensures Enabled(TheBatch(c), s, a) && Smooth(Next(TheBatch(c), s, a))
    ensures a.Finish? ==> a.outcome == Value(())
  {
    if i: nat :| i < |s.tasks| && !s.tasks[i].phase.Finished? {
      a := TaskMoves(TheBatch(c), s, i);
      if a.Finish? {
        a := Finish(a.i, Value(()));
      }
    } else {
      LogBound(s);
      if s.gather.Open? {
        a := Callback;
      } else {
        a := ResumeParent;
      }
    }
  }

  /** An attempt in which nothing has gone wrong can be completed. */
  lemma {:induction false} Succeed<E(!new)>(c: Setup, w: World<E>) returns (events: seq<Event<E>>, w': World<E>)
    requires WorldInv(c, w) && Smooth(w.run)
    ensures Path(c, w, events, w') && w'.run.parent.Returned?
    decreases Measure(w.run)
  {
    MeasureNat(TheBatch(c), w.run);
    if Final(w.run) {
      return [], w;
    }
    var a := SmoothMove(c, w.run);
    var before, w1 := [], w;
    if a.Finish? {
      var r := Request(w.attempt, a.i);
      PathOne(c, w, Serve(r));
      EventKeeps(c, w, Serve(r));
      before, w1 := [Serve(r)], Happen(c, w, Serve(r));
    }
    PathOne(c, w1, Local(a));
    EventKeeps(c, w1, Local(a));
    StepDecreases(TheBatch(c), w.run, a);
    var w2 := Happen(c, w1, Local(a));
    events, w' := Succeed(c, w2);
    PathJoin(c, w1, [Local(a)], w2, events, w');
    PathJoin(c, w, before, w1, [Local(a)] + events, w');
    events := before + ([Local(a)] + events);
  }

  /** A draining attempt can end. */
  lemma {:induction false} DrainOut<E(!new)>(c: Setup, w: World<E>) returns (events: seq<Event<E>>, w': World<E>)
    requires WorldInv(c, w) && w.run.parent.Draining?
    ensures Path(c, w, events, w') && w'.run.parent.RaisedOut? && w'.attempt == w.attempt
    decreases Measure(w.run)
  {
    MeasureNat(TheBatch(c), w.run);
    var b := TheBatch(c);
    var a: Action<(), E> := ResumeParent;
    if i: nat :| i < |w.run.tasks| && !w.run.tasks[i].phase.Finished? {
      a := TaskMoves(b, w.run, i);
    }
    PathOne(c, w, Local(a));
    EventKeeps(c, w, Local(a));
    StepDecreases(b, w.run, a);
    var w1 := Happen(c, w, Local(a));
    if w1.run.parent.RaisedOut? {
      return [Local(a)], w1;
    }
    events, w' := DrainOut(c, w1);
    PathJoin(c, w, [Local(a)], w1, events, w');
    events := [Local(a)] + events;
  }

  lemma Extend<E(!new)>(c: Setup, w: World<E>, events: seq<Event<E>>, w1: World<E>, e: Event<E>)
    returns (events': seq<Event<E>>, w2: World<E>)
    requires WorldInv(c, w1) && Path(c, w, events, w1) && Possible(c, w1, e)
    ensures w2 == Happen(c, w1, e) && WorldInv(c, w2) && Path(c, w, events', w2)
  {
    w2 := Happen(c, w1, e);
    PathOne(c, w1, e);
    EventKeeps(c, w1, e);
    PathJoin(c, w, events, w1, [e], w2);
    events' := events + [e];
  }

  /** The server applies item `i`, whose key is generated, while its worker still runs. */
  lemma AppliedInFlight<E(!new)>(c: Setup, i: nat) returns (events: seq<Event<E>>, w: World<E>)
    requires KeysUnused(c) && i < |c.items| && c.items[i].requestId == None
    ensures WorldInv(c, w) && Path(c, Start<E>(c), events, w)
    ensures w.attempt == 0 && w.applied == [Request(0, i)]
    ensures w.run == Next(TheBatch(c), Init<Item, (), E>(TheBatch(c)), Acquire(i))
  {
    var start := Start<E>(c);
    StartOk<E>(c);
    var acquire: Event<E> := Local(Acquire(i));
    events, w := Extend(c, start, [], start, acquire);
    assert w.run.started == [i];
    assert KeyOf(c, Request(0, i)) !in c.used;
    events, w := Extend(c, start, events, w, Serve(Request(0, i)));
  }

  /** `gather` learns of a failed completion. */
  lemma LearnOfFailure<E(!new)>(c: Setup, w: World<E>) returns (w': World<E>)
    requires WorldInv(c, w) && w.run.parent.Gathering? && w.run.gather.Open? && w.run.seen < |w.run.log|
    requires w.run.tasks[w.run.log[w.run.seen]].phase.outcome.Raised?
    ensures WorldInv(c, w') && Path(c, w, [Local(Callback)], w')
    ensures w'.attempt == w.attempt && w'.run.parent.Gathering? && w'.run.gather.Failed?
  {
    var callback: Event<E> := Local(Callback);
    assert Possible(c, w, callback);
    w' := Happen(c, w, callback);
    PathOne(c, w, callback);
    EventKeeps(c, w, callback);
  }

  lemma FailureDrains<I, T, E>(b: Batch<I, T>, s: State<T, E>)
    requires s.parent.Gathering? && s.gather.Failed?
    ensures Enabled(b, s, ResumeParent) && Next(b, s, ResumeParent).parent.Draining?
  {
  }

  /** The parent wakes up on a failed completion and starts draining. */
  lemma CatchFailure<E(!new)>(c: Setup, w: World<E>) returns (events: seq<Event<E>>, w': World<E>)
    requires WorldInv(c, w) && w.run.parent.Gathering? && w.run.gather.Open? && w.run.seen < |w.run.log|
    requires w.run.tasks[w.run.log[w.run.seen]].phase.outcome.Raised?
    ensures WorldInv(c, w') && Path(c, w, events, w')
    ensures w'.attempt == w.attempt && w'.run.parent.Draining?
  {
    var resume: Event<E> := Local(ResumeParent);
    var w1 := LearnOfFailure(c, w);
    FailureDrains(TheBatch(c), w1.run);
    events, w' := Extend(c, w, [Local(Callback)], w1, resume);
  }

  /** The client sees that call fail, and starts over. */
  lemma FailAndReplay<E(!new)>(c: Setup, w: World<E>, i: nat) returns (events: seq<Event<E>>, w': World<E>)
    requires WorldInv(c, w) && i < |c.items|
    requires w.run == Next(TheBatch(c), Init<Item, (), E>(TheBatch(c)), Acquire(i))
    ensures WorldInv(c, w') && Path(c, w, events, w')
    ensures w'.attempt == w.attempt + 1 && w'.run == Init<Item, (), E>(TheBatch(c))
  {
    var fail: Event<E> := Local(Finish(i, Raised(CancelledError)));
    var e1, w1 := Extend(c, w, [], w, fail);
    assert w1.run.log == [i] && w1.run.seen == 0;
    var e2, w2 := CatchFailure(c, w1);
    PathJoin(c, w, e1, w1, e2, w2);
    var e3, w3 := DrainOut(c, w2);
    PathKeeps(c, w2, e3, w3);
    PathJoin(c, w, e1 + e2, w2, e3, w3);
    events, w' := Extend(c, w, e1 + e2 + e3, w3, Replay);
  }

  /** Attempts are only ever added. */
  lemma {:induction false} AttemptOnly<E(!new)>(c: Setup, w: World<E>, events: seq<Event<E>>, w': World<E>)
    requires Path(c, w, events, w')
    ensures w.attempt <= w'.attempt
    decreases |events|
  {
    if events != [] {
      AttemptOnly(c, Happen(c, w, events[0]), events[1..], w');
    }
  }

  /** A completed run from `w` keeps the effects of `w` and records item `i` under the key of
      a later or the same attempt. */
  lemma SucceedAndRecord<E(!new)>(c: Setup, w: World<E>, i: nat)
    returns (events: seq<Event<E>>, w': World<E>, k: nat)
    requires KeysUnused(c) && WorldInv(c, w) && Smooth(w.run) && i < |c.items|
    ensures Path(c, w, events, w') && WorldInv(c, w') && w'.run.parent.Returned?
    ensures w.applied <= w'.applied && w.attempt <= w'.attempt
    ensures k < |w'.applied| && KeyOf(c, w'.applied[k]) == KeyOf(c, Request(w'.attempt, i))
  {
    events, w' := Succeed(c, w);
    PathKeeps(c, w, events, w');
    EffectsStay(c, w, events, w');
    AttemptOnly(c, w, events, w');
    k := Recorded(c, w', i);
  }

  lemma Refutes<E(!new)>(c: Setup, events: seq<Event<E>>, w: World<E>, i: nat)
    requires Path(c, Start<E>(c), events, w) && w.run.parent.Returned?
    requires i < |c.items| && Times(w.applied, i) != 1
    ensures !ExactlyOnce<E>(c)
  {
  }

  lemma GeneratedIdAppliesTwice<E(!new)>(c: Setup, i: nat)
    requires KeysUnused(c) && i < |c.items| && c.items[i].requestId == None
    ensures !ExactlyOnce<E>(c)
  {
    var e1, w1 := AppliedInFlight<E>(c, i);
    var e2, w2 := FailAndReplay(c, w1, i);
    PathJoin(c, Start<E>(c), e1, w1, e2, w2);
    EffectsStay(c, w1, e2, w2);
    var e3, w3, k := SucceedAndRecord(c, w2, i);
    PathJoin(c, Start<E>(c), e1 + e2, w2, e3, w3);
    assert w3.applied[0] == Request(0, i) && w3.applied[k] == Request(w3.attempt, i);
    TimesTwice(w3.applied, 0, k);
    Refutes(c, e1 + e2 + e3, w3, i);
  }

  lemma SharedIdDropsOne<E(!new)>(c: Setup, i: nat, j: nat)
    requires KeysUnused(c) && i < j < |c.items|
    requires c.items[i].requestId.Some? && c.items[i].requestId == c.items[j].requestId
    ensures !ExactlyOnce<E>(c)
  {
    StartOk<E>(c);
    var events, w, k := SucceedAndRecord<E>(c, Start<E>(c), i);
    var other := if w.applied[k].item == i then j else i;
    NeverApplied(c, w, k, other);
    Refutes(c, events, w, other);
  }

  /** An item sharing its explicit id with an applied write of another item has no effect. */
  lemma NeverApplied<E>(c: Setup, w: World<E>, k: nat, i: nat)
    requires ServerOk(c, w) && k < |w.applied| && i < |c.items| && w.applied[k].item != i
    requires c.items[i].requestId.Some? && KeyOf(c, w.applied[k]) == KeyOf(c, Request(0, i))
    ensures Times(w.applied, i) == 0
  {
    assert forall r: Request :: r.item == i ==> KeyOf(c, r) == KeyOf(c, w.applied[k]);
    TimesZero(w.applied, i);
  }

  /** Replaying a failed batch is exactly-once precisely when every item carries its own
      explicit request id. A generated id is a new one on every attempt, so an interrupted
      write may be repeated; of two items sharing an id one is never written. */
  lemma ExactlyOnceIff<E(!new)>(c: Setup)
    requires KeysUnused(c)
    ensures ExactlyOnce<E>(c) <==> IdsExplicitAndDistinct(c.items)
  {
    if IdsExplicitAndDistinct(c.items) {
      ReplayIsExactlyOnce<E>(c);
    } else if i: nat :| i < |c.items| && c.items[i].requestId == None {
      GeneratedIdAppliesTwice<E>(c, i);
    } else {
      var i: nat, j: nat :| i < j < |c.items| && c.items[i].requestId == c.items[j].requestId;
      SharedIdDropsOne<E>(c, i, j);
    }
  }
}
