/** Neighbor hydration: all neighbor pages first, then one `GetNode` per neighbor through the
    bounded batch runner. */
module Hydration {
  import opened Wrappers
  import Pagination
  import opened BatchRunner
  import opened BatchHistory
  import opened BatchTheorems
  import BatchRun

  const HYDRATION_PAGE_SIZE: nat := 50

  datatype Neighbor = Neighbor(nodeId: string, edgeId: string)

  datatype NeighborNode<+V> = NeighborNode(nodeId: string, edgeId: string, value: V)

  /** `loads(id, value)`: fetching and decoding node `id` may yield `value`. */
  type Loader<!V> = (string, V) -> bool

  /** What the worker may build for a neighbor. */
  predicate HydratedAs<V>(loads: Loader<V>, neighbor: Neighbor, node: NeighborNode<V>) {
    node.nodeId == neighbor.nodeId && node.edgeId == neighbor.edgeId && loads(neighbor.nodeId, node.value)
  }

  function HydrationBatch<V>(neighbors: seq<Neighbor>, loads: Loader<V>): Batch<Neighbor, NeighborNode<V>> {
    Batch(neighbors, CONCURRENT_REQUESTS, (neighbor, node) => HydratedAs(loads, neighbor, node))
  }

  datatype Hydration<+V, +E> =
    | Hydrated(nodes: seq<NeighborNode<V>>)
    | PageFailed(error: E)
    | NodeFailed(exc: Exception<E>)
    | StillPaging

  /** An event loop: it picks what happens next in any unfinished batch. */
  type Schedule<!V, !E> = (seq<Neighbor>, State<NeighborNode<V>, E>) -> Action<NeighborNode<V>, E>

  /** What the batch over these neighbors did: its i-th node is what the worker called for the
      i-th neighbor built. */
  ghost predicate BatchReturned<V(!new), E(!new)>(
    neighbors: seq<Neighbor>, loads: Loader<V>, acts: seq<Action<NeighborNode<V>, E>>,
    end: State<NeighborNode<V>, E>, nodes: seq<NeighborNode<V>>)
  {
    && Reachable(HydrationBatch(neighbors, loads), acts, end) && end.parent == Returned(nodes)
    && |nodes| == |neighbors| && CancelCaller !in acts
    && forall i: nat :: i < |nodes| ==> Finish(i, Value(nodes[i])) in acts
  }

  /** What it raised: what the first worker to fail raised, or the caller's own cancellation,
      with nothing left running. */
  ghost predicate BatchRaised<V, E(!new)>(
    neighbors: seq<Neighbor>, loads: Loader<V>, acts: seq<Action<NeighborNode<V>, E>>,
    end: State<NeighborNode<V>, E>, exc: Exception<E>)
  {
    && Reachable(HydrationBatch(neighbors, loads), acts, end)
    && end.parent == RaisedOut(exc) && AllFinished(end.tasks) && LogOk(end)
    && (FirstFailure(end.tasks, end.log) == Some(exc) || (exc == CancelledError && CancelCaller in acts))
    && (FirstToRaise(acts, exc) || (exc == CancelledError && CancelCaller in acts))
  }

  /** Runs at most `turns` turns of the page loop and then the batch. A hydrated list matches
      the items of all neighbor pages position by position, whatever order nodes arrive in; a
      failure is that of the page request, or of the batch, that failed. */
  method HydrateNeighbors<V(!new), E(!new)>(
    serve: Pagination.Server<Neighbor, E>, turns: nat, loads: Loader<V>, schedule: Schedule<V, E>)
    returns (result: Hydration<V, E>, cs: seq<Option<string>>, ghost replies: seq<Pagination.Response<Neighbor>>)
    requires forall neighbors, s ::
               Inv(HydrationBatch(neighbors, loads), s) && !Final(s) ==>
                 Enabled(HydrationBatch(neighbors, loads), s, schedule(neighbors, s))
    ensures Pagination.Visited(serve, HYDRATION_PAGE_SIZE, cs, replies)
    ensures Pagination.IsChain(serve, HYDRATION_PAGE_SIZE, cs)
    ensures result.Hydrated? || result.NodeFailed? ==>
              && |replies| == |cs| && Pagination.Stops(serve, HYDRATION_PAGE_SIZE, cs)
              && (replies[|cs| - 1].nextCursor == "" || Some(replies[|cs| - 1].nextCursor) == cs[|cs| - 1])
              && Pagination.Items(replies) == Pagination.Listing(serve, HYDRATION_PAGE_SIZE, cs)
    ensures match result
            case Hydrated(nodes) =>
              var neighbors := Pagination.Items(replies);
              && |nodes| == |neighbors|
              && (forall i :: 0 <= i < |neighbors| ==>
                    && nodes[i].nodeId == neighbors[i].nodeId && nodes[i].edgeId == neighbors[i].edgeId
                    && loads(neighbors[i].nodeId, nodes[i].value))
              && exists acts: seq<Action<NeighborNode<V>, E>>, end :: BatchReturned(neighbors, loads, acts, end, nodes)
            case PageFailed(e) =>
              Pagination.Answers(serve, HYDRATION_PAGE_SIZE, |cs| - 1, cs[|cs| - 1], Failure(e))
            case NodeFailed(exc) =>
              exists acts, end :: BatchRaised(Pagination.Items(replies), loads, acts, end, exc)
            case StillPaging => |cs| == turns + 1
  {
    var paging: Pagination.Paging<Neighbor, E>;
    paging, cs, replies := Pagination.FollowPages(serve, HYDRATION_PAGE_SIZE, turns);
    match paging {
      case Raised(e) =>
        return PageFailed(e), cs, replies;
      case StillPaging(_, _) =>
        return StillPaging, cs, replies;
      case Complete(neighbors) =>
        var end, acts := BatchRun.RunBounded(HydrationBatch(neighbors, loads), s => schedule(neighbors, s));
        if end.parent.Returned? {
          assert BatchReturned(neighbors, loads, acts, end, end.parent.results);
          return Hydrated(end.parent.results), cs, replies;
        }
        assert BatchRaised(neighbors, loads, acts, end, end.parent.exc);
        result := NodeFailed(end.parent.exc);
    }
  }

  /** Against a server paging through a finite index, every completed batch over the visited
      pages has hydrated each live entry exactly once, in index order. */
  lemma HydratesIndex<V(!new), E(!new)>(
    serve: Pagination.Server<Neighbor, E>, index: seq<Neighbor>, position: string -> nat, live: Neighbor -> bool,
    loads: Loader<V>, cs: seq<Option<string>>,
    acts: seq<Action<NeighborNode<V>, E>>, end: State<NeighborNode<V>, E>)
    requires Pagination.Advances(serve, HYDRATION_PAGE_SIZE, index, position, live)
    requires Pagination.Stops(serve, HYDRATION_PAGE_SIZE, cs)
    requires Reachable(HydrationBatch(Pagination.Listing(serve, HYDRATION_PAGE_SIZE, cs), loads), acts, end)
    requires end.parent.Returned?
    ensures |end.parent.results| == |Pagination.Live(index, live)|
    ensures forall i :: 0 <= i < |end.parent.results| ==>
              var entry, node := Pagination.Live(index, live)[i], end.parent.results[i];
              node.nodeId == entry.nodeId && node.edgeId == entry.edgeId && loads(entry.nodeId, node.value)
  {
    var all := Pagination.IndexListed(serve, HYDRATION_PAGE_SIZE, index, position, live);
    assert cs == all;
    ReturnsInOrder(HydrationBatch(Pagination.Live(index, live), loads), acts, end);
  }
}
