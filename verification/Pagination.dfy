/** The three cursor helpers every listing shares, and the page-following loop built on them. */
module Pagination {
  import opened Wrappers

  const DEFAULT_PAGE_SIZE: int := 20

  datatype PageRequest = PageRequest(limit: int, cursor: string)

  datatype Page<+T> = Page(items: seq<T>, nextCursor: Option<string>)

  /** The wire form of a page: the empty string stands for "no further page". */
  datatype Response<+T> = Response(items: seq<T>, nextCursor: string)

  datatype LimitError = BadLimit(limit: int)

  /** `cursor or ""`. */
  function Wire(cursor: Option<string>): string { if cursor.Some? then cursor.value else "" }

  function MakePageRequest(limit: Option<int>, cursor: Option<string>): (request: Result<PageRequest, LimitError>)
    ensures request.Failure? <==> limit.Some? && limit.value <= 0
    ensures request.Failure? ==> request.error == BadLimit(limit.value)
    ensures request.Success? ==> request.value.limit > 0
    ensures request.Success? ==> request.value.cursor == match cursor case Some(c) => c case None => ""
    ensures request.Success? ==> request.value.limit == if limit.Some? then limit.value else 20
  {
    if limit.Some? && limit.value <= 0 then Failure(BadLimit(limit.value))
    else Success(PageRequest(if limit.Some? then limit.value else DEFAULT_PAGE_SIZE, Wire(cursor)))
  }

  /** Undoes `Wire`, and never yields an empty cursor. */
  function OptionalCursor(cursor: string): (optional: Option<string>)
    ensures Wire(optional) == cursor && optional != Some("")
  {
    if cursor == "" then None else Some(cursor)
  }

  function NextPaginationCursor(current: Option<string>, next: Option<string>): Option<string> {
    if next == None || next == Some("") || next == current then None else next
  }

  /** A server: its answer to the k-th request, which may depend on time. */
  type Server<!T, !E> = (nat, PageRequest) -> Result<Response<T>, E>

  /** The page the k-th turn of the loop gets for `cursor`. */
  function PageAt<T, E>(serve: Server<T, E>, size: nat, k: nat, cursor: Option<string>): Result<Page<T>, E> {
    match serve(k, PageRequest(size, Wire(cursor)))
    case Success(r) => Success(Page(r.items, OptionalCursor(r.nextCursor)))
    case Failure(e) => Failure(e)
  }

  /** `cs` are the cursors of the first `|cs|` requests: none at first, then each page's own
      next cursor, present and different from the one just used. */
  ghost predicate IsChain<T, E>(serve: Server<T, E>, size: nat, cs: seq<Option<string>>) {
    && |cs| > 0 && cs[0] == None
    && forall k :: 0 <= k < |cs| - 1 ==> Follows(serve, size, k, cs[k], cs[k + 1])
  }

  predicate Follows<T, E>(serve: Server<T, E>, size: nat, k: nat, cursor: Option<string>, next: Option<string>) {
    && PageAt(serve, size, k, cursor).Success?
    && next == PageAt(serve, size, k, cursor).value.nextCursor
    && next.Some? && next != cursor
  }

  /** The last page carries no cursor, or the very one just used. */
  ghost predicate Stops<T, E>(serve: Server<T, E>, size: nat, cs: seq<Option<string>>) {
    && IsChain(serve, size, cs)
    && var last := PageAt(serve, size, |cs| - 1, cs[|cs| - 1]);
       last.Success? && (last.value.nextCursor == None || last.value.nextCursor == cs[|cs| - 1])
  }

  ghost predicate Fails<T, E>(serve: Server<T, E>, size: nat, cs: seq<Option<string>>) {
    IsChain(serve, size, cs) && PageAt(serve, size, |cs| - 1, cs[|cs| - 1]).Failure?
  }

  /** The items of all pages answering to these cursors, in order. */
  ghost function Listing<T, E>(serve: Server<T, E>, size: nat, cs: seq<Option<string>>): seq<T> {
    if cs == [] then []
    else
      var k := |cs| - 1;
      Listing(serve, size, cs[..k])
      + match PageAt(serve, size, k, cs[k]) case Success(page) => page.items case Failure(_) => []
  }

  // ---------- the chain is determined by the server ----------

  lemma ChainPrefix<T, E>(serve: Server<T, E>, size: nat, cs: seq<Option<string>>, n: nat)
    requires IsChain(serve, size, cs) && 0 < n <= |cs|
    ensures IsChain(serve, size, cs[..n])
  {
  }

  lemma {:induction false} ChainUnique<T, E>(
    serve: Server<T, E>, size: nat, a: seq<Option<string>>, b: seq<Option<string>>)
    requires IsChain(serve, size, a) && IsChain(serve, size, b) && |a| <= |b|
    ensures a == b[..|a|]
    decreases |a|
  {
    if |a| > 1 {
      var init := a[..|a| - 1];
      ChainPrefix(serve, size, a, |a| - 1);
      ChainUnique(serve, size, init, b);
      var k := |a| - 2;
      assert init[k] == b[k];
      assert Follows(serve, size, k, a[k], a[k + 1]) && Follows(serve, size, k, b[k], b[k + 1]);
      assert b[..|a|] == b[..|a| - 1] + [b[|a| - 1]];
    } else {
      assert a == [None];
    }
  }

  /** Nothing follows the last cursor of a loop that ended. */
  lemma EndIsLast<T, E>(serve: Server<T, E>, size: nat, end: seq<Option<string>>, cs: seq<Option<string>>)
    requires (Stops(serve, size, end) || Fails(serve, size, end)) && IsChain(serve, size, cs)
    ensures |cs| <= |end|
  {
    if |end| < |cs| {
      var last := |end| - 1;
      var follows := Follows(serve, size, last, cs[last], cs[last + 1]);
      ChainUnique(serve, size, end, cs);
      assert false;
    }
  }

  lemma EndUnique<T, E>(serve: Server<T, E>, size: nat, a: seq<Option<string>>, b: seq<Option<string>>)
    requires (Stops(serve, size, a) || Fails(serve, size, a)) && (Stops(serve, size, b) || Fails(serve, size, b))
    ensures a == b
  {
    EndIsLast(serve, size, a, b);
    EndIsLast(serve, size, b, a);
    ChainUnique(serve, size, a, b);
  }

  lemma LastChain<T, E>(serve: Server<T, E>, size: nat, cs: seq<Option<string>>)
    requires Stops(serve, size, cs) || Fails(serve, size, cs)
    ensures forall end :: Stops(serve, size, end) || Fails(serve, size, end) ==> end == cs
  {
    forall end | Stops(serve, size, end) || Fails(serve, size, end)
      ensures end == cs
    {
      EndUnique(serve, size, end, cs);
    }
  }

  lemma LongChain<T, E>(serve: Server<T, E>, size: nat, cs: seq<Option<string>>)
    requires IsChain(serve, size, cs)
    ensures forall end :: Stops(serve, size, end) || Fails(serve, size, end) ==> |cs| <= |end|
  {
    forall end | Stops(serve, size, end) || Fails(serve, size, end)
      ensures |cs| <= |end|
    {
      EndIsLast(serve, size, end, cs);
    }
  }

  // ---------- the loop ----------

  datatype Paging<+T, +E> =
    | Complete(items: seq<T>)
    | Raised(error: E)
    | StillPaging(items: seq<T>, cursor: Option<string>)

  /** Requests for the cursors `cs` in turn: `replies` are the successful answers to them, each
      of which but the last names the next cursor, a present one other than the one just used. */
  ghost predicate Visited<T, E>(
    serve: Server<T, E>, size: nat, cs: seq<Option<string>>, replies: seq<Response<T>>)
  {
    && |cs| > 0 && cs[0] == None && |cs| - 1 <= |replies| <= |cs|
    && (forall k :: 0 <= k < |replies| ==> Answers(serve, size, k, cs[k], Success(replies[k])))
    && (forall k :: 0 <= k < |cs| - 1 ==> NamesNext(cs, replies, k))
  }

  predicate NamesNext<T>(cs: seq<Option<string>>, replies: seq<Response<T>>, k: nat)
    requires k < |replies| && k + 1 < |cs|
  {
    replies[k].nextCursor != "" && cs[k + 1] == Some(replies[k].nextCursor) && cs[k + 1] != cs[k]
  }

  /** What the k-th request is answered; the first one, without a cursor, carries an empty one. */
  ghost predicate Answers<T, E>(
    serve: Server<T, E>, size: nat, k: nat, cursor: Option<string>, answer: Result<Response<T>, E>)
  {
    serve(k, PageRequest(size, match cursor case Some(c) => c case None => "")) == answer
  }

  ghost function Items<T>(replies: seq<Response<T>>): seq<T> {
    if replies == [] then [] else Items(replies[..|replies| - 1]) + replies[|replies| - 1].items
  }

  lemma ItemsMore<T>(replies: seq<Response<T>>, reply: Response<T>)
    ensures Items(replies + [reply]) == Items(replies) + reply.items
  {
    assert (replies + [reply])[..|replies|] == replies;
  }

  /** One more successful answer. */
  lemma VisitedReply<T, E>(
    serve: Server<T, E>, size: nat, cs: seq<Option<string>>, replies: seq<Response<T>>, reply: Response<T>)
    requires Visited(serve, size, cs, replies) && |replies| == |cs| - 1
    requires Answers(serve, size, |cs| - 1, cs[|cs| - 1], Success(reply))
    ensures Visited(serve, size, cs, replies + [reply])
  {
    var more := replies + [reply];
    forall k | 0 <= k < |cs| - 1
      ensures NamesNext(cs, more, k)
    {
      assert NamesNext(cs, replies, k);
    }
  }

  /** And the cursor it names. */
  lemma VisitedNext<T, E>(serve: Server<T, E>, size: nat, cs: seq<Option<string>>, replies: seq<Response<T>>)
    requires Visited(serve, size, cs, replies) && |replies| == |cs|
    requires var next := replies[|cs| - 1].nextCursor; next != "" && Some(next) != cs[|cs| - 1]
    ensures Visited(serve, size, cs + [Some(replies[|cs| - 1].nextCursor)], replies)
  {
    var longer := cs + [Some(replies[|cs| - 1].nextCursor)];
    forall k | 0 <= k < |cs|
      ensures NamesNext(longer, replies, k)
    {
      assert k < |cs| - 1 ==> NamesNext(cs, replies, k);
    }
  }

  /** The cursors asked for are the server's chain, and the items those of its listing. */
  lemma VisitedChain<T, E>(serve: Server<T, E>, size: nat, cs: seq<Option<string>>, replies: seq<Response<T>>)
    requires Visited(serve, size, cs, replies)
    ensures IsChain(serve, size, cs)
    ensures Listing(serve, size, cs[..|replies|]) == Items(replies)
  {
    forall k | 0 <= k < |cs| - 1
      ensures Follows(serve, size, k, cs[k], cs[k + 1])
    {
      assert Answers(serve, size, k, cs[k], Success(replies[k])) && NamesNext(cs, replies, k);
    }
    VisitedListing(serve, size, cs, replies, |replies|);
    assert replies[..|replies|] == replies;
  }

  lemma {:induction false} VisitedListing<T, E>(
    serve: Server<T, E>, size: nat, cs: seq<Option<string>>, replies: seq<Response<T>>, n: nat)
    requires Visited(serve, size, cs, replies) && n <= |replies|
    ensures Listing(serve, size, cs[..n]) == Items(replies[..n])
  {
    if n > 0 {
      VisitedListing(serve, size, cs, replies, n - 1);
      assert cs[..n][..n - 1] == cs[..n - 1] && replies[..n][..n - 1] == replies[..n - 1];
      assert Answers(serve, size, n - 1, cs[n - 1], Success(replies[n - 1]));
    }
  }

  lemma EndsComplete<T, E>(serve: Server<T, E>, size: nat, cs: seq<Option<string>>, replies: seq<Response<T>>)
    requires Visited(serve, size, cs, replies) && |replies| == |cs|
    requires var last := replies[|cs| - 1].nextCursor; last == "" || Some(last) == cs[|cs| - 1]
    ensures Stops(serve, size, cs) && Items(replies) == Listing(serve, size, cs)
    ensures forall end :: Stops(serve, size, end) || Fails(serve, size, end) ==> end == cs
  {
    VisitedChain(serve, size, cs, replies);
    assert cs[..|replies|] == cs;
    assert Answers(serve, size, |cs| - 1, cs[|cs| - 1], Success(replies[|cs| - 1]));
    LastChain(serve, size, cs);
  }

  lemma EndsFailed<T, E>(serve: Server<T, E>, size: nat, cs: seq<Option<string>>, replies: seq<Response<T>>, e: E)
    requires Visited(serve, size, cs, replies) && |replies| == |cs| - 1
    requires Answers(serve, size, |cs| - 1, cs[|cs| - 1], Failure(e))
    ensures Fails(serve, size, cs) && PageAt(serve, size, |cs| - 1, cs[|cs| - 1]) == Failure(e)
    ensures forall end :: Stops(serve, size, end) || Fails(serve, size, end) ==> end == cs
  {
    VisitedChain(serve, size, cs, replies);
    LastChain(serve, size, cs);
  }

  /** What the `while True` loop has done after at most `turns` turns, the cursors it used or is
      about to use, and the answers it got. It completes, with all their items in order, only
      when all requests succeeded and the last page names no other cursor; it raises the error
      of the first request that failed. */
  method FollowPages<T, E>(serve: Server<T, E>, size: nat, turns: nat)
    returns (paging: Paging<T, E>, cs: seq<Option<string>>, ghost replies: seq<Response<T>>)
    ensures Visited(serve, size, cs, replies) && |replies| == if paging.Complete? then |cs| else |cs| - 1
    ensures match paging
            case Complete(items) =>
              && |cs| <= turns && items == Items(replies)
              && var last := replies[|cs| - 1].nextCursor; last == "" || Some(last) == cs[|cs| - 1]
            case Raised(e) => |cs| <= turns && Answers(serve, size, |cs| - 1, cs[|cs| - 1], Failure(e))
            case StillPaging(items, cursor) => |cs| == turns + 1 && cursor == cs[turns] && items == Items(replies)
    ensures IsChain(serve, size, cs)
    ensures match paging
            case Complete(items) => Stops(serve, size, cs) && items == Listing(serve, size, cs)
            case Raised(e) => PageAt(serve, size, |cs| - 1, cs[|cs| - 1]) == Failure(e)
            case StillPaging(items, cursor) => items == Listing(serve, size, cs[..turns])
    ensures forall end :: Stops(serve, size, end) && |end| <= turns ==>
              cs == end && paging == Complete(Listing(serve, size, end))
    ensures forall end :: Fails(serve, size, end) && |end| <= turns ==>
              cs == end && paging == Raised(PageAt(serve, size, |end| - 1, end[|end| - 1]).error)
  {
    var items: seq<T> := [];
    var cursor: Option<string> := None;
    cs, replies := [None], [];
    for k := 0 to turns
      invariant |cs| == k + 1 == |replies| + 1 && Visited(serve, size, cs, replies)
      invariant cursor == cs[k] && items == Items(replies)
    {
      var response := serve(k, PageRequest(size, Wire(cursor)));
      if response.Failure? {
        EndsFailed(serve, size, cs, replies, response.error);
        return Raised(response.error), cs, replies;
      }
      var page := Page(response.value.items, OptionalCursor(response.value.nextCursor));
      items := items + page.items;
      ItemsMore(replies, response.value);
      VisitedReply(serve, size, cs, replies, response.value);
      replies := replies + [response.value];
      var next := NextPaginationCursor(cursor, page.nextCursor);
      if next == None {
        EndsComplete(serve, size, cs, replies);
        return Complete(items), cs, replies;
      }
      VisitedNext(serve, size, cs, replies);
      cursor, cs := next, cs + [next];
    }
    VisitedChain(serve, size, cs, replies);
    LongChain(serve, size, cs);
    paging := StillPaging(items, cursor);
  }

  // ---------- when the loop ends ----------

  /** The loop ends: some chain is its last. */
  ghost predicate Ends<T, E>(serve: Server<T, E>, size: nat) {
    exists cs :: Stops(serve, size, cs) || Fails(serve, size, cs)
  }

  /** The loop never ends: it makes any number of requests. */
  ghost predicate Diverges<T, E>(serve: Server<T, E>, size: nat) {
    forall n: nat :: MakesRequest(serve, size, n)
  }

  /** There is an n-th request, counting from 0. */
  ghost predicate MakesRequest<T, E>(serve: Server<T, E>, size: nat, n: nat) {
    exists cs :: |cs| == n + 1 && IsChain(serve, size, cs)
  }

  lemma {:induction false} ChainOrEnd<T, E>(serve: Server<T, E>, size: nat, n: nat) returns (cs: seq<Option<string>>)
    ensures IsChain(serve, size, cs) && |cs| <= n + 1
    ensures |cs| == n + 1 || Stops(serve, size, cs) || Fails(serve, size, cs)
  {
    if n == 0 {
      cs := [None];
    } else {
      cs := ChainOrEnd(serve, size, n - 1);
      if |cs| == n && !Stops(serve, size, cs) && !Fails(serve, size, cs) {
        cs := cs + [PageAt(serve, size, n - 1, cs[n - 1]).value.nextCursor];
      }
    }
  }

  /** The loop ends exactly when the cursor chain reaches an absent cursor, a cursor equal to
      its immediate predecessor, or a failing request; nothing else ever stops it. */
  lemma EndsIff<T, E>(serve: Server<T, E>, size: nat)
    ensures Ends(serve, size) <==> !Diverges(serve, size)
  {
    if Ends(serve, size) {
      var end :| Stops(serve, size, end) || Fails(serve, size, end);
      if MakesRequest(serve, size, |end|) {
        var longer :| |longer| == |end| + 1 && IsChain(serve, size, longer);
        EndIsLast(serve, size, end, longer);
      }
    } else {
      forall n: nat
        ensures MakesRequest(serve, size, n)
      {
        var cs := ChainOrEnd(serve, size, n);
      }
    }
  }

  // ---------- servers that answer by the cursor alone ----------

  ghost predicate Memoryless<T(!new), E(!new)>(serve: Server<T, E>) {
    forall j: nat, k: nat, r :: serve(j, r) == serve(k, r)
  }

  /** Some cursor is handed out twice - never at once, for that would have stopped the loop. */
  ghost predicate Revisits<T, E>(serve: Server<T, E>, size: nat) {
    exists cs, i: nat, j: nat :: IsChain(serve, size, cs) && i < j < |cs| && cs[i] == cs[j]
  }

  /** From a repeated cursor on, the chain goes round for ever. */
  lemma {:induction false} GoesRound<T(!new), E(!new)>(
    serve: Server<T, E>, size: nat, cs: seq<Option<string>>, i: nat, n: nat)
    returns (longer: seq<Option<string>>)
    requires Memoryless(serve) && IsChain(serve, size, cs) && i < |cs| - 1 && cs[i] == cs[|cs| - 1]
    ensures IsChain(serve, size, longer) && |longer| == |cs| + n
    ensures forall k :: |cs| - 1 <= k < |longer| ==> longer[k] == longer[k - (|cs| - 1 - i)]
  {
    if n == 0 {
      longer := cs;
    } else {
      var shorter := GoesRound(serve, size, cs, i, n - 1);
      var m := |shorter| - 1;
      var from := m - (|cs| - 1 - i);
      assert Follows(serve, size, from, shorter[from], shorter[from + 1]);
      assert PageAt(serve, size, m, shorter[m]) == PageAt(serve, size, from, shorter[from]);
      longer := shorter + [shorter[from + 1]];
      assert Follows(serve, size, m, longer[m], longer[m + 1]);
    }
  }

  /** The repeated-cursor guard looks one step back only: a longer cycle is followed for ever. */
  lemma RevisitDiverges<T(!new), E(!new)>(serve: Server<T, E>, size: nat)
    requires Memoryless(serve) && Revisits(serve, size)
    ensures Diverges(serve, size)
  {
    var cs, i: nat, j: nat :| IsChain(serve, size, cs) && i < j < |cs| && cs[i] == cs[j];
    ChainPrefix(serve, size, cs, j + 1);
    forall n: nat
      ensures MakesRequest(serve, size, n)
    {
      var longer := GoesRound(serve, size, cs[..j + 1], i, n);
      ChainPrefix(serve, size, longer, n + 1);
      assert |longer[..n + 1]| == n + 1;
    }
  }

  lemma {:induction false} Pigeonhole<A>(xs: seq<A>, holes: set<A>) returns (i: nat, j: nat)
    requires (forall k :: 0 <= k < |xs| ==> xs[k] in holes) && |xs| > |holes|
    ensures i < j < |xs| && xs[i] == xs[j]
    decreases |xs|
  {
    var n := |xs| - 1;
    if k: nat :| k < n && xs[k] == xs[n] {
      i, j := k, n;
    } else {
      i, j := Pigeonhole(xs[..n], holes - {xs[n]});
    }
  }

  /** Over finitely many cursors a server that answers by the cursor alone is followed to an
      end exactly when it never hands out the same cursor twice along the way. */
  lemma FiniteEndsIff<T(!new), E(!new)>(serve: Server<T, E>, size: nat, cursors: set<Option<string>>)
    requires Memoryless(serve)
    requires forall k: nat, c ::
        PageAt(serve, size, k, c).Success? ==> PageAt(serve, size, k, c).value.nextCursor in cursors
    ensures Ends(serve, size) <==> !Revisits(serve, size)
  {
    EndsIff(serve, size);
    if Revisits(serve, size) {
      RevisitDiverges(serve, size);
    } else if Diverges(serve, size) {
      var holes := cursors + {None};
      var n: nat := |holes|;
      assert MakesRequest(serve, size, n);
      var cs :| |cs| == n + 1 && IsChain(serve, size, cs);
      forall k | 0 <= k < |cs|
        ensures cs[k] in holes
      {
        assert k > 0 ==> Follows(serve, size, k - 1, cs[k - 1], cs[k]);
      }
      var i, j := Pigeonhole(cs, holes);
      assert Revisits(serve, size);
    }
  }

  /** A concrete such server: two cursors naming each other. */
  function PingPong(k: nat, request: PageRequest): Result<Response<int>, ()> {
    Success(Response([], if request.cursor == "a" then "b" else "a"))
  }

  lemma PingPongDiverges(size: nat)
    ensures Diverges(PingPong, size)
  {
    var cs := [None, Some("a"), Some("b"), Some("a")];
    assert Follows(PingPong, size, 0, cs[0], cs[1]);
    assert Follows(PingPong, size, 1, cs[1], cs[2]);
    assert Follows(PingPong, size, 2, cs[2], cs[3]);
    assert IsChain(PingPong, size, cs) && cs[1] == cs[3];
    RevisitDiverges(PingPong, size);
  }

  /** And one that never repeats itself: every cursor is longer than the one before. */
  function EverNew(k: nat, request: PageRequest): Result<Response<int>, ()> {
    Success(Response([], request.cursor + "a"))
  }

  lemma {:induction false} EverNewLength(size: nat, cs: seq<Option<string>>, k: nat)
    requires IsChain(EverNew, size, cs) && k < |cs|
    ensures |Wire(cs[k])| == k
  {
    if k > 0 {
      EverNewLength(size, cs, k - 1);
      assert Follows(EverNew, size, k - 1, cs[k - 1], cs[k]);
    }
  }

  /** Without finitely many cursors a chain need not revisit any to go on for ever. */
  lemma EverNewDiverges(size: nat)
    ensures Memoryless(EverNew) && !Revisits(EverNew, size)
    ensures Diverges(EverNew, size)
  {
    forall cs, i: nat, j: nat | IsChain(EverNew, size, cs) && i < j < |cs|
      ensures cs[i] != cs[j]
    {
      EverNewLength(size, cs, i);
      EverNewLength(size, cs, j);
    }
    EndsIff(EverNew, size);
  }

  // ---------- a server paging through an index ----------

  /** The entries a page may show: an index entry can outlive what it points to. */
  function Live<T>(index: seq<T>, live: T -> bool): seq<T> {
    if index == [] then []
    else Live(index[..|index| - 1], live) + if live(index[|index| - 1]) then [index[|index| - 1]] else []
  }

  lemma {:induction false} LiveConcat<T>(a: seq<T>, b: seq<T>, live: T -> bool)
    ensures Live(a + b, live) == Live(a, live) + Live(b, live)
    decreases |b|
  {
    if b == [] {
      assert a + b == a;
    } else {
      var init := b[..|b| - 1];
      assert (a + b)[..|a + b| - 1] == a + init;
      LiveConcat(a, init, live);
    }
  }

  /** Each entry as often as the index has it if it is live, and never otherwise. */
  lemma {:induction false} LiveCount<T>(index: seq<T>, live: T -> bool, x: T)
    ensures multiset(Live(index, live))[x] == if live(x) then multiset(index)[x] else 0
  {
    if index != [] {
      var init := index[..|index| - 1];
      LiveCount(init, live, x);
      assert index == init + [index[|index| - 1]];
    }
  }

  /** Where in the index the next page starts; at its end when there is none. */
  function Mark<T>(index: seq<T>, position: string -> nat, cursor: string): nat {
    if cursor == "" then |index| else position(cursor)
  }

  /** The page for cursor `c` shows the live entries from its position to that of its next
      cursor, which lies strictly behind. The page may be short or empty. */
  predicate PageAdvances<T(==), E>(
    serve: Server<T, E>, size: nat, index: seq<T>, position: string -> nat, live: T -> bool, k: nat, c: string)
  {
    var answer := serve(k, PageRequest(size, c));
    && answer.Success?
    && position(c) <= Mark(index, position, answer.value.nextCursor) <= |index|
    && (answer.value.nextCursor != "" ==> position(c) < position(answer.value.nextCursor))
    && answer.value.items == Live(index[position(c)..Mark(index, position, answer.value.nextCursor)], live)
  }

  ghost predicate Advances<T, E>(
    serve: Server<T, E>, size: nat, index: seq<T>, position: string -> nat, live: T -> bool)
  {
    && position("") == 0
    && forall k: nat, c :: position(c) <= |index| ==> PageAdvances(serve, size, index, position, live, k, c)
  }

  /** The pages before the last cursor of `cs` list exactly what lies before it. */
  ghost predicate Listed<T, E>(
    serve: Server<T, E>, size: nat, index: seq<T>, position: string -> nat, live: T -> bool, cs: seq<Option<string>>)
  {
    && IsChain(serve, size, cs)
    && var from := position(Wire(cs[|cs| - 1]));
       && |cs| - 1 <= from <= |index|
       && Listing(serve, size, cs[..|cs| - 1]) == Live(index[..from], live)
  }

  lemma PageListed<T, E>(
    serve: Server<T, E>, size: nat, index: seq<T>, position: string -> nat, live: T -> bool, cs: seq<Option<string>>)
    requires Listed(serve, size, index, position, live, cs)
    requires PageAdvances(serve, size, index, position, live, |cs| - 1, Wire(cs[|cs| - 1]))
    ensures var next := serve(|cs| - 1, PageRequest(size, Wire(cs[|cs| - 1]))).value.nextCursor;
            Listing(serve, size, cs) == Live(index[..Mark(index, position, next)], live)
  {
    var k := |cs| - 1;
    var answer := serve(k, PageRequest(size, Wire(cs[k])));
    var from, to := position(Wire(cs[k])), Mark(index, position, answer.value.nextCursor);
    assert index[..to] == index[..from] + index[from..to];
    LiveConcat(index[..from], index[from..to], live);
  }

  /** Following the chain from a cursor in the middle of the index to the end. */
  lemma {:induction false} WalkIndex<T, E>(
    serve: Server<T, E>, size: nat, index: seq<T>, position: string -> nat, live: T -> bool, cs: seq<Option<string>>)
    returns (all: seq<Option<string>>)
    requires Advances(serve, size, index, position, live) && Listed(serve, size, index, position, live, cs)
    ensures Stops(serve, size, all) && |all| <= |index| + 1
    ensures Listing(serve, size, all) == Live(index, live)
    decreases |index| - position(Wire(cs[|cs| - 1]))
  {
    var k := |cs| - 1;
    assert PageAdvances(serve, size, index, position, live, k, Wire(cs[k]));
    PageListed(serve, size, index, position, live, cs);
    var next := serve(k, PageRequest(size, Wire(cs[k]))).value.nextCursor;
    if next == "" {
      assert index[..|index|] == index;
      all := cs;
    } else {
      var longer := cs + [Some(next)];
      assert longer[..k + 1] == cs;
      assert Follows(serve, size, k, cs[k], Some(next));
      all := WalkIndex(serve, size, index, position, live, longer);
    }
  }

  /** Against an advancing server the loop ends after at most one page per index entry and one
      more, having listed each live entry exactly once, in index order. */
  lemma IndexListed<T, E>(
    serve: Server<T, E>, size: nat, index: seq<T>, position: string -> nat, live: T -> bool)
    returns (all: seq<Option<string>>)
    requires Advances(serve, size, index, position, live)
    ensures Stops(serve, size, all) && |all| <= |index| + 1
    ensures Listing(serve, size, all) == Live(index, live)
    ensures forall x :: multiset(Listing(serve, size, all))[x] == if live(x) then multiset(index)[x] else 0
    ensures forall cs :: Stops(serve, size, cs) ==> cs == all
  {
    var start: seq<Option<string>> := [None];
    assert start[..0] == [] && index[..0] == [];
    all := WalkIndex(serve, size, index, position, live, start);
    forall x
      ensures multiset(Listing(serve, size, all))[x] == if live(x) then multiset(index)[x] else 0
    {
      LiveCount(index, live, x);
    }
    forall cs | Stops(serve, size, cs)
      ensures cs == all
    {
      EndUnique(serve, size, cs, all);
    }
  }
}
