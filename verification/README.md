# RociaDB Python SDK: verified model

A Dafny 4.11 model of the four algorithms inside the RociaDB Python SDK that are more than a
thin layer over gRPC, with proofs of what they keep in every run:

- **Bounded batch runner** (`BatchRunner`, `BatchHistory`, `BatchTheorems`, `BatchRun`): one asyncio task per
  item behind a semaphore, a parent waiting in `gather`, cancellation and draining on the first
  failure. `BatchRunner` is a transition system over all interleavings, including handed-over
  permits, completion callbacks that reach `gather` one by one, and cancellation of the caller at
  any moment. `BatchRun` is the same thing as mutable state (an array cancelled in place), each
  stretch between two suspension points proved to be one transition, plus a driver that runs
  under any scheduler.
- **Batch replay** (`BatchReplay`): attempts of that runner against a server that deduplicates on
  request ids, where requests of interrupted attempts may still arrive at any later time.
- **Token manager** (`TokenProtocol`, `TokenHistory`, `TokenTheorems`, `TokenManagers`,
  `TokenTiming`):
  single-flight fetch, cache, event-or-timeout refresh loop, all interleavings, callers being
  cancelled; the same as the mutable object it is, driven by any event loop; then the same
  protocol against a discrete clock with deadlines.
- **Upload chunkers** (`UploadWire`, `UploadChunker`): the in-memory slicer, the streaming
  re-chunker, the wire contract and the way back through a download.
- **Neighbor hydration** (`Pagination`, `Hydration`): the cursor loop over an arbitrary server,
  feeding the batch runner.

## Reading the model

Suspension is what asyncio makes of it: code between two `await`s is one step. A worker, a fetch,
the server, the scheduler and the caller are environment; whatever they may do is an enabled
step. A worker may end with a value, any exception, or a cancellation of its own, also after it
was cancelled. The batch model does not fix which queued task a permit goes to, nor whether a new
task may overtake the queue (Python versions differ); it allows all of these, so what is proved
holds for each.

What a run did is read off its actions - which workers were called and what each ended with, when
a fetch ended and how, what the server answered - and the theorems tie the states and results to
that, not to the state's own records (`BatchHistory`, `TokenHistory`, `Pagination.Visited`).

Assumptions: workers end; waiting for the second `gather` while draining is one step once every
task has ended; one refresh loop per token manager, as the client has; a cancelled fetch ends as
cancelled; dedup markers do not expire between attempts; UUIDs never collide, and no request id
of the batch was used before its first attempt; tenant and operation are the same for all items
of a batch and therefore left out of the key. In `TokenTiming` nobody is cancelled, every fetch
ends within its bound in a token or a `RociaDbError`, and every token has the same lifetime.

The page loop need not end, so `FollowPages` and `HydrateNeighbors` take the number of turns to
observe, any number; `EndsIff` says when the loop ends. A repeated cancellation of the caller
that changes nothing is not a step.

## Where the code and its own documentation differ

The model follows the code; each difference is a theorem.

- `put_nodes` calls replaying a failed batch safe also when request ids are left to their
  defaults (src/rociadb_sdk/graph.py:58-61). A default id is new on every attempt: replay is
  exactly-once if and only if all ids are explicit and distinct (`ExactlyOnceIff`).
- The refresh interval is said to leave margin so that the token never expires between two
  refreshes (src/rociadb_sdk/auth.py:109-112). `NeverExpiresIff` gives the exact condition. With
  fetches that never fail and take up to d, and a connect wait up to w, interval + 2 d + w must
  be below the lifetime (`ReliableProvider`): for 600-second tokens and the default ten-second
  wait that means fetches under 95 seconds, and no lifetime of five seconds or less is safe.
  After one failed background refresh no lifetime is (`OneFailureIsTooMany`).
- A failed background refresh is said to be retried on the next tick
  (src/rociadb_sdk/auth.py:151-153). A spawned loop lives if and only if none of four steps has
  happened: closing it, cancelling a caller of the unended fetch it waits for, its own joining
  of a fetch somebody has cancelled, and an exception other than `RociaDbError` out of the fetch
  it waits for (`LoopSurvivesFailures`, `LostForGood`). So failed refreshes never stop it, but
  one cancelled caller can, before or after the loop joins that caller's fetch
  (`CancelledCallerStopsLoop`, `CancelledCallerExample`).
- The repeated-cursor check is described as a guard against looping forever
  (src/rociadb_sdk/_pagination.py:48-49). It stops only on an immediate repeat. A server that
  answers by the cursor alone, out of finitely many, is followed forever exactly when a cursor
  comes back later (`FiniteEndsIff`, `PingPongDiverges`); one with ever new cursors is followed
  forever too (`EverNewDiverges`).
- `_rechunk_upload_requests` is said to buffer at most one outgoing chunk
  (src/rociadb_sdk/file.py:142-143). Less than a chunk is buffered between pieces, but a piece
  is buffered whole first: the bound holds if and only if no piece read reaches beyond the chunk
  it starts in (`BufferBoundIff`), and one piece of more than a chunk breaks it
  (`OversizedPiece`).

## Model

| member | source | states |
|---|---|---|
| BatchTheorems.PermitConservation | src/rociadb_sdk/client.py:66-72 | In every reachable state free permits plus permits held equal the concurrency, and no more workers than that have been called but not ended. |
| BatchTheorems.FailureDrain | src/rociadb_sdk/client.py:75-79 | Once the cancel loop has run, no action of any continuation calls a worker, although unwinding tasks return permits, and every task that has not ended is cancelled. |
| BatchTheorems.FailsFast | src/rociadb_sdk/client.py:73-77 | When `gather` knows all completions and one of them was a failure, the parent can only cancel every unfinished task and wait. |
| BatchTheorems.NobodyCancelledBefore | src/rociadb_sdk/client.py:73-79 | Before that, or a cancellation by the caller, no task is cancelled. |
| BatchTheorems.RaisesFirstFailure | src/rociadb_sdk/client.py:73-79 | A raising call raises with every task ended and every permit back; what it raises is the very exception of the first worker to end with one in the run, or the caller's own cancellation. |
| BatchTheorems.CancelledCallRaises | src/rociadb_sdk/client.py:73-79 | A call whose caller was cancelled never returns; the cancellation is what it raises if `gather` was settled, and otherwise reaches every unfinished task at once. |
| BatchTheorems.ReturnsInOrder | src/rociadb_sdk/client.py:72-80 | A returning call called every worker exactly once, none raised, and its i-th result is what the i-th item's worker returned in the run, for every completion order. |
| BatchTheorems.ReturnsUnlessFailure | src/rociadb_sdk/client.py:73-80 | Without a cancellation by the caller an ended call returned if and only if no worker of the run raised. |
| BatchTheorems.RunsAreBounded | src/rociadb_sdk/client.py:63-80 | Every run, before and after a failure, has at most 5 n + 5 steps for n items. |
| BatchTheorems.EndsIffPermits | src/rociadb_sdk/client.py:63-80 | No reachable unfinished state is stuck if and only if the concurrency is at least one or there are no items. |
| BatchHistory.Recorded | src/rociadb_sdk/client.py:66-72 | Workers called, tasks ended and their outcomes are those of the run's actions, in their order. |
| BatchRun.BoundedRun.constructor | src/rociadb_sdk/client.py:63-72 | All tasks not started, all permits free; an empty batch has already returned the empty list. |
| BatchRun.BoundedRun.StartTask | src/rociadb_sdk/client.py:68-70 | A task's first step is the transition into its worker or into the semaphore's queue. |
| BatchRun.BoundedRun.UnwindTask | src/rociadb_sdk/client.py:68-70 | A task cancelled before its worker was called ends cancelled and gives back a permit only if it had been handed one. |
| BatchRun.BoundedRun.FinishWorker | src/rociadb_sdk/client.py:68-70 | A worker's end, with any outcome, is recorded as it is, releases exactly its permit and is logged in completion order. |
| BatchRun.BoundedRun.CancelTasks | src/rociadb_sdk/client.py:76-77 | The in-place loop marks exactly the unfinished tasks. |
| BatchRun.BoundedRun.WakeParent | src/rociadb_sdk/client.py:73-80 | Resuming the parent returns the results, or cancels everything and drains, or re-raises. |
| BatchRun.RunBounded | src/rociadb_sdk/client.py:47-80 | Under any scheduler the call terminates in a reachable final state: it returns what each item's worker returned, in order, or, with nothing left running and every permit back, raises the exception of the first worker that raised or the caller's own cancellation. |
| BatchReplay.AtMostOnce | src/rociadb_sdk/types.py:72-76 | With explicit distinct ids no item takes effect twice at any moment of any sequence of attempts. |
| BatchReplay.LateArrival | src/rociadb_sdk/client.py:75-79 | A request once sent may reach the server at any later time, also during later attempts. |
| BatchReplay.ExactlyOnceIff | src/rociadb_sdk/graph.py:55-70 | Any number of failed attempts followed by a successful one makes each item take effect exactly once, in every run, if and only if all ids are explicit and distinct. |
| BatchReplay.GeneratedIdAppliesTwice | src/rociadb_sdk/graph.py:50 | A defaulted id is a new key on every attempt: some replay applies the item twice. |
| TokenTheorems.OneFetchAtATime | src/rociadb_sdk/auth.py:133-135 | In every interleaving of callers and loop, of two fetches the older one had ended before the newer one was started. |
| TokenTheorems.CallersShareOutcome | src/rociadb_sdk/auth.py:126-135 | Every finished call overlaps the one fetch whose outcome it was told, the same for all callers of that fetch. |
| TokenTheorems.CallerTold | src/rociadb_sdk/auth.py:133-135 | A finished call was told what the provider gave at the first end of a fetch after the call; only a caller cancelled by name is told `Cancelled` instead. |
| TokenTheorems.OnlySuccessWrites | src/rociadb_sdk/auth.py:137-140 | Only a fetch that brought a token changes the cache, and then both fields. |
| TokenTheorems.CacheHistory | src/rociadb_sdk/auth.py:103-124 | In every reachable state header and lifetime are those of the last token the run's fetches brought, None and 600 before any; after any normal `refresh_now` there is a header. |
| TokenTheorems.HeaderStays | src/rociadb_sdk/auth.py:92-96 | A cached header never becomes None again. |
| TokenTheorems.NoLostWakeUp | src/rociadb_sdk/auth.py:142-169 | A request made at any moment, with the loop alive, is followed in the run by the end of a fetch after at most three turns of the loop, whatever else happens, unless the loop stops. |
| TokenTheorems.LoopCanTurn | src/rociadb_sdk/auth.py:158-169 | While a request is unserved the loop's next turn is possible; if the loop waits, the event is still set. |
| TokenTheorems.RequestSurvives | src/rociadb_sdk/auth.py:160-165 | In every run the event stays set until a turn it brought about, so a request made during a fetch or racing the timeout reaches the next wait. |
| TokenTheorems.WakesBounded | src/rociadb_sdk/auth.py:160-165 | Event-driven turns of a run never exceed its requests. |
| TokenTheorems.LoopSurvivesFailures | src/rociadb_sdk/auth.py:158-169 | In every run the loop is lost if and only if one of four steps happened (close, a cancelled caller of its unended fetch, joining a cancelled fetch, a foreign exception from its fetch); otherwise a spawned loop lives, so failed refreshes never stop it. |
| TokenTheorems.LostForGood | src/rociadb_sdk/auth.py:158-169 | A lost loop never waits again, and has stopped after at most two more turns. |
| TokenTheorems.CancelledCallerStopsLoop | src/rociadb_sdk/auth.py:133-135 | Once a caller of an unended fetch is cancelled, the loop is lost in every continuation if it waits for that fetch, and as soon as it joins it later. |
| TokenTheorems.CancelledCallerExample | src/rociadb_sdk/auth.py:158-169 | From any quiet moment three steps lose the loop, with the loop joining the fetch before the cancellation or after it. |
| TokenTheorems.CancelledFetch | src/rociadb_sdk/auth.py:133-135 | A cancelled fetch can end only as cancelled, tells every caller `Cancelled`, and leaves the cache alone until a newer fetch is started. |
| TokenTheorems.CloseCancelsFetch | src/rociadb_sdk/auth.py:181-185 | Closing while the loop waits for a fetch cancels that fetch for everybody: no other end is possible, its callers are told `Cancelled`, and the loop waits for that end and stops. |
| TokenManagers.TokenManager.constructor | src/rociadb_sdk/auth.py:99-106 | Nothing cached, lifetime 600, no fetch, event clear; the invariant holds. |
| TokenManagers.TokenManager.RefreshIntervalNow | src/rociadb_sdk/auth.py:108-114 | At least five; above that, the largest integer up to two thirds of the last lifetime; below the lifetime if and only if that exceeds five. |
| TokenManagers.TokenManager.GetAuthorizationHeader | src/rociadb_sdk/auth.py:116-122 | The newest token's type, a blank and its access token, without touching anything; only before the first token the call joins or starts a fetch. |
| TokenManagers.TokenManager.HeaderAfterRefresh | src/rociadb_sdk/auth.py:123-124 | For a caller whose `refresh_now` came back normally the assertion holds, and the header is the newest token's type, a blank and its access token. |
| TokenManagers.TokenManager.StartOrJoin | src/rociadb_sdk/auth.py:133-135 | The awaited fetch has not ended and all older ones have; a new one is started only when none was in flight. |
| TokenManagers.TokenManager.EndRefresh | src/rociadb_sdk/auth.py:137-140 | An arrived token is stored with its lifetime, any other end leaves the cache alone; every request made so far has been served. |
| TokenManagers.TokenManager.CancelWaiter | src/rociadb_sdk/auth.py:133-135 | Cancelling a waiter cancels its unended fetch, which from then on can only end as cancelled, for everybody; the loop is lost thereby exactly if it waits for that fetch. |
| TokenManagers.TokenManager.LoopWoken | src/rociadb_sdk/auth.py:160-167 | The event branch clears the event; the loop goes on to wait for a fetch that will end after the request, and is lost exactly if that fetch was already cancelled. |
| TokenManagers.TokenManager.LoopTimedOut | src/rociadb_sdk/auth.py:160-167 | The timeout branch keeps the event for the next wait and goes on to the shared fetch; the loop is lost exactly if that was already cancelled. |
| TokenManagers.TokenManager.LoopResumed | src/rociadb_sdk/auth.py:166-169 | The loop waits again after a token or a `RociaDbError` and stops after anything else, that is exactly if it was lost. |
| TokenManagers.TokenManager.CloseLoop | src/rociadb_sdk/auth.py:181-185 | Closing stops a waiting loop; a loop that waits for a fetch goes on waiting, with that fetch cancelled and able to end only as such. The cache stays. |
| TokenManagers.Drive | src/rociadb_sdk/auth.py:83-169 | Under any event loop the object's first n steps form a run of the protocol, with the cache of the newest token, fetches one after another, no more wake-ups than requests, and the loop lost exactly by one of the four steps. |
| TokenTiming.NeverExpiresIff | src/rociadb_sdk/auth.py:108-114 | With at most k failures in a row, interval I, fetches within d and spawn age a, the cached token is unexpired in every state of every run if and only if max(a, d) + (k + 1) (I + d) is below the lifetime. |
| TokenTiming.TimeGoesOn | src/rociadb_sdk/auth.py:158-169 | The deadlines never block time: whatever stands in its way can happen. |
| TokenTiming.TimedRun | src/rociadb_sdk/auth.py:142-169 | A timed run is a run of the protocol. |
| TokenTiming.NobodyHeldUp | src/rociadb_sdk/auth.py:126-146 | Callers, requests and the woken loop are never held up by a deadline. |
| TokenTiming.ReliableProvider | src/rociadb_sdk/client.py:251-273 | With fetches of at most d that never fail and a channel wait of at most w before the loop is spawned, the client's interval is safe if and only if interval + 2 d + w is below the lifetime; for 600 seconds and the default wait if and only if d < 95, and never for lifetimes up to the floor. |
| TokenTiming.OneFailureIsTooMany | src/rociadb_sdk/auth.py:149-156 | If even one background refresh may fail, some run finds the token expired, for every lifetime. |
| UploadChunker.ChunkUploadRequests | src/rociadb_sdk/file.py:66-111 | The loop over slices yields exactly the i-th chunk as i-th message, metadata on the first only. |
| UploadChunker.Rechunker.BuildRequest | src/rociadb_sdk/file.py:160-174 | Only the first request carries the metadata. |
| UploadChunker.Rechunker.EmitChunk | src/rociadb_sdk/file.py:176-191 | A full chunk is emitted from the front of the buffer if and only if it still fits the declared size. |
| UploadChunker.Rechunker.Feed | src/rociadb_sdk/file.py:183-191 | Between pieces less than one chunk is buffered and everything read is written or buffered; it raises on the piece by which one chunk more than fits was read. At its largest the buffer holds the unfilled rest plus the whole piece. |
| UploadChunker.Rechunker.Finish | src/rociadb_sdk/file.py:193-202 | The end of the source gives success, overflow or shortfall as the bytes read compare with the declared size, after one last short message if anything is left or nothing was sent. |
| UploadChunker.RechunkUploadRequests | src/rociadb_sdk/file.py:131-202 | Emitted messages and outcome depend on the concatenated source only: success iff it totals the declared size, overflow iff it is longer, after exactly the whole chunks that fit, shortfall of the bytes read iff it is shorter, after the whole source. Reading stops at exactly the first piece that reaches the limit, and the buffer stays within one chunk iff every piece read fits the chunk it starts in. |
| UploadChunker.BufferBoundIff | src/rociadb_sdk/file.py:141-143 | For any pieces, the largest buffer is at most one chunk if and only if no piece reaches beyond the chunk it starts in. |
| UploadChunker.OversizedPiece | src/rociadb_sdk/file.py:183-184 | A first piece of more than one chunk is buffered in full, beyond the documented bound. |
| UploadChunker.RechunkEndless | src/rociadb_sdk/file.py:183-191 | An endless source of non-empty pieces is abandoned on the first piece that reaches (floor(size/C) + 1) C bytes, after exactly the whole chunks that fit the declared size. |
| UploadChunker.UploadBothWays | src/rociadb_sdk/file.py:66-202 | However data is cut into pieces, both chunkers emit the same messages field for field. |
| UploadChunker.EmittedPrefix | src/rociadb_sdk/file.py:145-149 | What is sent is a prefix of the source, never longer than declared, in full chunks but the last, metadata on the first message only; all of it unless the source is longer than declared, and then the whole chunks that fit. |
| UploadChunker.ChunkShape | src/rociadb_sdk/file.py:97-111 | max(1, ceil(n/C)) messages, all but the last full, the last non-empty for non-empty data. |
| UploadChunker.FewestMessages | src/rociadb_sdk/file.py:24-26 | No cut into chunks the server accepts has fewer messages. |
| UploadChunker.CompleteOnWire | src/rociadb_sdk/file.py:176-202 | The emitted messages make a complete upload exactly when the run succeeds, or overflows a declared size that is a positive multiple of the chunk size. |
| UploadChunker.ResolveChecksum | src/rociadb_sdk/file.py:52-63 | A resolved checksum is the supplied one or the digest and has 32 bytes; only a supplied one of another length is rejected. |
| UploadChunker.UploadFile | src/rociadb_sdk/file.py:228-239 | Accepted iff the size and a supplied checksum are valid, with the error of the first check that fails; the stream carries the caller's metadata, meets the wire contract, joins to the data and reads back as the data. |
| UploadChunker.UploadFileChunked | src/rociadb_sdk/file.py:264-276 | Validation first; then success, overflow or shortfall as the source compares with the declared size. A successful stream meets the wire contract and reads back as the source; a short one sends all of it. |
| UploadChunker.RoundTrip | src/rociadb_sdk/file.py:326-329 | Joining what the server reads back for a complete stream gives the uploaded data, and so does joining a download of the sent bytes cut in any other way. |
| Pagination.MakePageRequest | src/rociadb_sdk/_pagination.py:28-32 | Only a given non-positive limit is rejected; a request has the given limit, 20 without one, and the given cursor. |
| Pagination.FollowPages | src/rociadb_sdk/graph.py:314-339 | The loop asks for exactly the cursors the answers name; it completes only if every request succeeded and the last page names no other cursor, with the items of exactly those answers in order, and raises the error of the first request that failed. |
| Pagination.EndsIff | src/rociadb_sdk/_pagination.py:51-53 | The chain `FollowPages` follows either ends - at an absent cursor, an immediate repeat or a failing request - or makes any number of requests. |
| Pagination.RevisitDiverges | src/rociadb_sdk/_pagination.py:48-53 | A server that answers by the cursor alone and hands one out again later is followed forever. |
| Pagination.FiniteEndsIff | src/rociadb_sdk/_pagination.py:48-53 | Over finitely many cursors that is the only way not to end. |
| Pagination.PingPongDiverges | src/rociadb_sdk/_pagination.py:51-53 | Two cursors naming each other are such a server. |
| Pagination.EverNewDiverges | src/rociadb_sdk/_pagination.py:51-53 | A server that answers by the cursor alone and never repeats one is followed forever as well. |
| Pagination.IndexListed | src/rociadb_sdk/graph.py:314-339 | With strictly advancing cursors over a finite index the loop ends within one page per entry and one more, listing each live entry as often as the index holds it, in its order, despite short or empty pages. |
| Hydration.HydrateNeighbors | src/rociadb_sdk/graph.py:303-347 | A hydrated list comes only after all page requests succeeded and matches the items of all answers position by position in node id, edge id and loaded value, each node being what its neighbor's worker built; a failure is the failing request's error, or the first worker's in the batch over all pages (or the caller's cancellation). |
| Hydration.HydratesIndex | src/rociadb_sdk/graph.py:303-347 | Over an advancing server every completed batch has hydrated each live entry exactly once, in index order, with its own ids. |

## Left out

- gRPC channels, stubs, interceptors, TLS and generated protobuf code: a call is an environment step.
- `_fetch_token_sync` and the HTTP exchange (section 4.4 of RFC 6749): a fetch brings a token or a failure.
- SHA-256 (section 6.2 of FIPS 180-4): any function with 32-byte results.
- JSON encoding and decoding and caller decoders: the `loads` relation, or a worker failure.
- Protobuf integer ranges: sizes up to `MAX_FILE_BYTES` and the page size 50 are far inside them.
- Endpoint resolution, the builder, environment fallback, error classes: one-branch validation.
- Documents, tenants, listings, `stat_file`, deletes, `upload_file_raw`: field copying without state.
- `direction` in `_hydrate_neighbors`: it selects the RPC, and the server function stands for either one.
- Executor threads that outlive a cancelled fetch, and event-loop shutdown.
- Expiry of dedup markers: a replay after it is not covered.
- Timeliness of the scheduler: in the timed model the loop resumes at the instant its fetch ends.
- Tokens whose lifetime changes between fetches: the timed model takes one lifetime for all.
