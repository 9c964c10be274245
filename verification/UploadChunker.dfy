/** The two upload chunkers: a slicer over an in-memory buffer, and a streaming re-chunker
    over pieces of any size that checks a declared total as it goes. */
module UploadChunker {
  import opened Wrappers
  import opened UploadWire

  // ---------- the reference: which request is the i-th one ----------

  /** Offset of the i-th chunk. */
  function Offset(i: nat): nat { i * UPLOAD_CHUNK_BYTES }

  /** How many chunks are full once `n` bytes are known. */
  function FullChunks(n: nat): nat { n / UPLOAD_CHUNK_BYTES }

  /** Messages an `n`-byte file takes: its size in chunks rounded up, and one when empty. */
  function MessageCount(n: nat): nat {
    if n == 0 then 1 else (n + UPLOAD_CHUNK_BYTES - 1) / UPLOAD_CHUNK_BYTES
  }

  function Min(a: int, b: int): int { if a < b then a else b }

  function Max(a: nat, b: nat): nat { if a < b then b else a }

  function Request(meta: Metadata, data: bytes, i: nat): UploadRequest
    requires Offset(i) <= |data|
  {
    UploadRequest(if i == 0 then meta else BLANK, data[Offset(i)..Min(Offset(i + 1), |data|)])
  }

  /** The first `k` requests for `data`. */
  function Requests(meta: Metadata, data: bytes, k: nat): (requests: seq<UploadRequest>)
    requires k > 0 ==> Offset(k - 1) <= |data|
    ensures |requests| == k
    ensures forall i :: 0 <= i < k ==> requests[i] == Request(meta, data, i)
  {
    if k == 0 then [] else Requests(meta, data, k - 1) + [Request(meta, data, k - 1)]
  }

  lemma LastOffset(n: nat)
    ensures Offset(MessageCount(n) - 1) <= n <= Offset(MessageCount(n))
    ensures n > 0 ==> Offset(MessageCount(n) - 1) < n
  {
  }

  /** The whole stream for `data`. */
  function Chunked(meta: Metadata, data: bytes): (requests: seq<UploadRequest>)
  {
    LastOffset(|data|);
    Requests(meta, data, MessageCount(|data|))
  }

  datatype Outcome = Done | Overflow | Shortfall(written: nat)

  /** A generator's life: what it yielded, and how it ended. */
  datatype Run = Run(emitted: seq<UploadRequest>, outcome: Outcome)

  /** Full chunks that fit in the declared size; none fit in a negative one. */
  function Capacity(size: int): nat { if size < 0 then 0 else FullChunks(size) }

  /** The bytes they carry. */
  function WholeChunks(size: int): (n: nat)
    ensures size < 0 ==> n == 0
    ensures size >= 0 ==> n <= size < n + UPLOAD_CHUNK_BYTES && n % UPLOAD_CHUNK_BYTES == 0
  {
    Offset(Capacity(size))
  }

  /** Reading this many bytes is what makes the re-chunker give up. */
  function Limit(size: int): nat { Offset(Capacity(size) + 1) }

  /** The reference for the re-chunker: it depends on the source's bytes only, never on how
      they were split into pieces. */
  function Expected(meta: Metadata, data: bytes): Run {
    if |data| == meta.sizeBytes then Run(Chunked(meta, data), Done)
    else if |data| < meta.sizeBytes then Run(Chunked(meta, data), Shortfall(|data|))
    else Run(Requests(meta, data, Capacity(meta.sizeBytes)), Overflow)
  }

  // ---------- the in-memory chunker ----------

  method ChunkUploadRequests(meta: Metadata, data: bytes) returns (requests: seq<UploadRequest>)
    requires meta.sizeBytes == |data|
    ensures requests == Chunked(meta, data)
  {
    var sizeBytes := |data|;
    if sizeBytes == 0 {
      return [UploadRequest(meta, [])];
    }
    requests := [];
    var index, start := 0, 0;
    while start < sizeBytes
      invariant start == Offset(index) && index <= MessageCount(|data|)
      invariant index > 0 ==> Offset(index - 1) < |data|
      invariant start < sizeBytes <==> index < MessageCount(|data|)
      invariant requests == Requests(meta, data, index)
    {
      var end := Min(start + UPLOAD_CHUNK_BYTES, sizeBytes);
      if index == 0 {
        requests := requests + [UploadRequest(meta, data[start..end])];
      } else {
        requests := requests + [UploadRequest(BLANK, data[start..end])];
      }
      index, start := index + 1, start + UPLOAD_CHUNK_BYTES;
    }
  }

  // ---------- the streaming re-chunker ----------

  /** The first chunks do not change when more bytes arrive. */
  lemma {:induction false} RequestsOfPrefix(meta: Metadata, data: bytes, more: bytes, k: nat)
    requires Offset(k) <= |data|
    ensures Requests(meta, data + more, k) == Requests(meta, data, k)
  {
    if k > 0 {
      RequestsOfPrefix(meta, data, more, k - 1);
      assert (data + more)[Offset(k - 1)..Offset(k)] == data[Offset(k - 1)..Offset(k)];
    }
  }

  /** The loop state of the re-chunking generator. `emitted` is what it has yielded and
      `consumed` every byte it has read from its source. */
  class Rechunker {
    const meta: Metadata
    var buffer: bytes
    var totalWritten: nat
    var wroteAny: bool
    var first: bool
    var emitted: seq<UploadRequest>
    ghost var consumed: bytes
    ghost var peak: nat          // the most the buffer ever held

    /** Everything read is either written, as whole chunks, or still in the buffer. */
    ghost predicate Accounted()
      reads this
    {
      && totalWritten + |buffer| == |consumed|
      && buffer == consumed[totalWritten..]
      && totalWritten == Offset(|emitted|)
      && emitted == Requests(meta, consumed, |emitted|)
      && (wroteAny <==> totalWritten > 0)
      && (first <==> totalWritten == 0)
      && |emitted| <= Capacity(meta.sizeBytes)
    }

    /** Between two pieces less than one chunk is buffered. */
    ghost predicate Valid()
      reads this
    {
      Accounted() && |buffer| < UPLOAD_CHUNK_BYTES
    }

    constructor (meta: Metadata)
      ensures Valid() && this.meta == meta && consumed == [] && emitted == [] && peak == 0
    {
      this.meta, peak := meta, 0;
      buffer, totalWritten, wroteAny, first, emitted, consumed := [], 0, false, true, [], [];
    }

    method BuildRequest(piece: bytes) returns (request: UploadRequest)
      modifies this`first
      ensures request == UploadRequest(if old(first) then meta else BLANK, piece) && !first
    {
      if !first {
        return UploadRequest(BLANK, piece);
      }
      first := false;
      request := UploadRequest(meta, piece);
    }

    predicate PastTotal(pieceLen: nat)
      reads this
    {
      totalWritten + pieceLen > meta.sizeBytes
    }

    /** Emits one full chunk from the front of the buffer, or refuses it. */
    method EmitChunk() returns (ok: bool)
      requires Accounted() && |buffer| >= UPLOAD_CHUNK_BYTES
      modifies this
      ensures Accounted() && consumed == old(consumed) && peak == old(peak)
      ensures ok <==> old(|emitted|) < Capacity(meta.sizeBytes)
      ensures |emitted| == old(|emitted|) + if ok then 1 else 0
    {
      if PastTotal(UPLOAD_CHUNK_BYTES) {
        return false;
      }
      ghost var k := |emitted|;
      var out := buffer[..UPLOAD_CHUNK_BYTES];
      assert out == consumed[Offset(k)..Offset(k + 1)];
      buffer := buffer[UPLOAD_CHUNK_BYTES..];
      totalWritten := totalWritten + UPLOAD_CHUNK_BYTES;
      wroteAny := true;
      var request := BuildRequest(out);
      emitted := emitted + [request];
      ok := true;
    }

    /** A piece is appended to the buffer. */
    method Absorb(piece: bytes)
      requires Valid()
      modifies this
      ensures Accounted() && consumed == old(consumed) + piece
      ensures peak == Max(old(peak), old(|consumed|) % UPLOAD_CHUNK_BYTES + |piece|)
    {
      RequestsOfPrefix(meta, consumed, piece, |emitted|);
      buffer := buffer + piece;
      consumed := consumed + piece;
      peak := Max(peak, |buffer|);
    }

    /** One turn of the loop over the source: takes a piece and emits the chunks it fills.
        It raises on the piece by which one chunk more than fits has been read. */
    method Feed(piece: bytes) returns (ok: bool)
      requires Valid()
      modifies this
      ensures consumed == old(consumed) + piece
      ensures peak == Max(old(peak), old(|consumed|) % UPLOAD_CHUNK_BYTES + |piece|)
      ensures ok <==> |consumed| < Limit(meta.sizeBytes)
      ensures ok ==> Valid()
      ensures !ok ==> Expected(meta, consumed) == Run(emitted, Overflow)
    {
      Absorb(piece);
      ok := true;
      while |buffer| >= UPLOAD_CHUNK_BYTES
        invariant Accounted() && consumed == old(consumed) + piece
        invariant peak == Max(old(peak), old(|consumed|) % UPLOAD_CHUNK_BYTES + |piece|)
        decreases |buffer|
      {
        ok := EmitChunk();
        if !ok {
          return;
        }
      }
    }

    /** The loop over a finite source, up to the first piece that is refused. */
    method FeedAll(pieces: seq<bytes>) returns (ok: bool, ghost read: nat)
      requires Valid() && consumed == [] && peak == 0
      modifies this
      ensures read <= |pieces| && consumed == Join(pieces[..read]) && peak == Peak(pieces[..read])
      ensures read > 0 ==> |Join(pieces[..read - 1])| < Limit(meta.sizeBytes)
      ensures ok ==> Valid() && read == |pieces| && |consumed| < Limit(meta.sizeBytes)
      ensures !ok ==> |consumed| >= Limit(meta.sizeBytes) && Expected(meta, consumed) == Run(emitted, Overflow)
    {
      for i := 0 to |pieces|
        invariant Valid() && consumed == Join(pieces[..i]) && peak == Peak(pieces[..i])
        invariant |consumed| < Limit(meta.sizeBytes)
        invariant i > 0 ==> |Join(pieces[..i - 1])| < Limit(meta.sizeBytes)
      {
        OneMore(pieces, i);
        ok := Feed(pieces[i]);
        if !ok {
          return false, i + 1;
        }
      }
      ok, read := true, |pieces|;
    }

    /** What follows the loop: the last short chunk, then the shortfall check. */
    method Finish() returns (outcome: Outcome)
      requires Valid()
      modifies this
      ensures Run(emitted, outcome) == Expected(meta, consumed)
      ensures outcome == Overflow <==> |consumed| > meta.sizeBytes
      ensures outcome.Shortfall? <==> |consumed| < meta.sizeBytes
      ensures outcome.Shortfall? ==> outcome.written == |consumed|
      ensures |emitted| == old(|emitted|)
                + if outcome != Overflow && (old(buffer) != [] || old(|emitted|) == 0) then 1 else 0
      ensures consumed == old(consumed) && peak == old(peak)
    {
      LastOffset(|consumed|);
      if buffer != [] || !wroteAny {
        assert buffer == consumed[Offset(|emitted|)..|consumed|];
        assert |emitted| + 1 == MessageCount(|consumed|);
        if PastTotal(|buffer|) {
          return Overflow;
        }
        totalWritten := totalWritten + |buffer|;
        var request := BuildRequest(buffer);
        emitted := emitted + [request];
      }
      assert emitted == Chunked(meta, consumed);
      if totalWritten != meta.sizeBytes {
        return Shortfall(totalWritten);
      }
      outcome := Done;
    }
  }

  /** Once a source has overflowed, whatever it would still have produced is irrelevant. */
  lemma OverflowIsFinal(meta: Metadata, pieces: seq<bytes>, n: nat)
    requires n <= |pieces| && |Join(pieces[..n])| > meta.sizeBytes
    ensures Expected(meta, Join(pieces)) == Expected(meta, Join(pieces[..n]))
  {
    assert pieces == pieces[..n] + pieces[n..];
    JoinConcat(pieces[..n], pieces[n..]);
    RequestsOfPrefix(meta, Join(pieces[..n]), Join(pieces[n..]), Capacity(meta.sizeBytes));
  }

  /** The most the buffer holds while these pieces are read: before each one it holds what does
      not fill a chunk yet, after each one that and the piece. */
  ghost function Peak(pieces: seq<bytes>): nat {
    if pieces == [] then 0
    else
      var init, last := pieces[..|pieces| - 1], pieces[|pieces| - 1];
      Max(Peak(init), |Join(init)| % UPLOAD_CHUNK_BYTES + |last|)
  }

  lemma OneMore(pieces: seq<bytes>, i: nat)
    requires i < |pieces|
    ensures Join(pieces[..i + 1]) == Join(pieces[..i]) + pieces[i]
    ensures Peak(pieces[..i + 1]) == Max(Peak(pieces[..i]), |Join(pieces[..i])| % UPLOAD_CHUNK_BYTES + |pieces[i]|)
  {
    assert pieces[..i + 1][..i] == pieces[..i];
  }

  /** The i-th piece does not reach beyond the chunk it starts in. */
  ghost predicate PieceFits(pieces: seq<bytes>, i: nat)
    requires i < |pieces|
  {
    |Join(pieces[..i])| % UPLOAD_CHUNK_BYTES + |pieces[i]| <= UPLOAD_CHUNK_BYTES
  }

  ghost predicate PiecesFit(pieces: seq<bytes>) {
    forall i :: 0 <= i < |pieces| ==> PieceFits(pieces, i)
  }

  /** At most one outgoing chunk is buffered exactly when no piece crosses a chunk boundary. */
  lemma {:induction false} BufferBoundIff(pieces: seq<bytes>)
    ensures Peak(pieces) <= UPLOAD_CHUNK_BYTES <==> PiecesFit(pieces)
  {
    if pieces != [] {
      var n := |pieces| - 1;
      BufferBoundIff(pieces[..n]);
      forall i: nat | i < n
        ensures PieceFits(pieces[..n], i) == PieceFits(pieces, i)
      {
        assert pieces[..n][..i] == pieces[..i];
      }
      assert PiecesFit(pieces) <==> PiecesFit(pieces[..n]) && PieceFits(pieces, n);
    }
  }

  /** A first piece of more than one chunk is held in full. */
  lemma OversizedPiece(piece: bytes)
    requires |piece| > UPLOAD_CHUNK_BYTES
    ensures Peak([piece]) == |piece| > UPLOAD_CHUNK_BYTES
  {
    assert [piece][..0] == [];
  }

  /** The generator over a finite source. It reads all pieces, or stops at the first one that
      brings the bytes read to `Limit`; `peak` is the most its buffer held. */
  method RechunkUploadRequests(meta: Metadata, pieces: seq<bytes>) returns (run: Run, ghost read: nat, ghost peak: nat)
    ensures run == Expected(meta, Join(pieces))
    ensures run.outcome == Overflow <==> |Join(pieces)| > meta.sizeBytes
    ensures run.outcome.Shortfall? <==> |Join(pieces)| < meta.sizeBytes
    ensures run.outcome.Shortfall? ==> run.outcome.written == |Join(pieces)|
    ensures run.outcome != Overflow ==> Join(Chunks(run.emitted)) == Join(pieces)
    ensures run.outcome == Overflow ==> Join(Chunks(run.emitted)) == Join(pieces)[..WholeChunks(meta.sizeBytes)]
    ensures read <= |pieces|
    ensures read < |pieces| ==> Limit(meta.sizeBytes) <= |Join(pieces[..read])|
    ensures read > 0 ==> |Join(pieces[..read - 1])| < Limit(meta.sizeBytes)
    ensures peak == Peak(pieces[..read])
    ensures peak <= UPLOAD_CHUNK_BYTES <==> PiecesFit(pieces[..read])
  {
    var state := new Rechunker(meta);
    EmittedPrefix(meta, Join(pieces));
    var ok;
    ok, read := state.FeedAll(pieces);
    peak := state.peak;
    BufferBoundIff(pieces[..read]);
    if !ok {
      OverflowIsFinal(meta, pieces, read);
      return Run(state.emitted, Overflow), read, peak;
    }
    assert pieces[..|pieces|] == pieces;
    var outcome := state.Finish();
    run := Run(state.emitted, outcome);
  }

  // ---------- endless sources ----------

  /** The bytes of the first `k` pieces of a source that need not end. */
  ghost function Taken(source: nat -> bytes, k: nat): bytes {
    if k == 0 then [] else Taken(source, k - 1) + source(k - 1)
  }

  /** A source that never ends, but never yields an empty piece either, is abandoned after
      the first piece that brings the bytes read to `Limit`. */
  method RechunkEndless(meta: Metadata, source: nat -> bytes) returns (run: Run, pieces: nat)
    requires forall i: nat :: source(i) != []
    ensures pieces > 0 && |Taken(source, pieces - 1)| < Limit(meta.sizeBytes) <= |Taken(source, pieces)|
    ensures run.outcome == Overflow && run == Expected(meta, Taken(source, pieces))
    ensures Join(Chunks(run.emitted)) == Taken(source, pieces)[..WholeChunks(meta.sizeBytes)]
  {
    var state := new Rechunker(meta);
    pieces := 0;
    while true
      invariant fresh(state) && state.Valid() && state.meta == meta
      invariant state.consumed == Taken(source, pieces)
      invariant |state.consumed| < Limit(meta.sizeBytes)
      decreases Limit(meta.sizeBytes) - |state.consumed|
    {
      var ok := state.Feed(source(pieces));
      pieces := pieces + 1;
      if !ok {
        EmittedPrefix(meta, Taken(source, pieces));
        return Run(state.emitted, Overflow), pieces;
      }
    }
  }

  // ---------- what the emitted stream is worth ----------

  lemma {:induction false} RequestsJoin(meta: Metadata, data: bytes, k: nat)
    requires k > 0 ==> Offset(k - 1) <= |data|
    ensures Join(Chunks(Requests(meta, data, k))) == data[..Min(Offset(k), |data|)]
  {
    if k > 0 {
      RequestsJoin(meta, data, k - 1);
      var last := Request(meta, data, k - 1).chunk;
      assert Join(Chunks(Requests(meta, data, k))) == Join(Chunks(Requests(meta, data, k - 1))) + last by {
        assert Chunks(Requests(meta, data, k))[..k - 1] == Chunks(Requests(meta, data, k - 1));
      }
      assert data[..Min(Offset(k), |data|)] == data[..Offset(k - 1)] + last;
    }
  }

  /** What is sent is always a prefix of the source and never more than was declared: all of
      the source unless it is longer than declared, and then exactly the whole chunks that fit. */
  lemma EmittedPrefix(meta: Metadata, data: bytes)
    ensures var run := Expected(meta, data);
            var sent := Join(Chunks(run.emitted));
            && sent <= data
            && (run.outcome == Overflow <==> |data| > meta.sizeBytes)
            && (run.outcome != Overflow ==> sent == data && |sent| <= meta.sizeBytes)
            && (run.outcome == Overflow ==> sent == data[..WholeChunks(meta.sizeBytes)])
            && (meta.sizeBytes >= 0 ==> |sent| <= meta.sizeBytes)
  {
    LastOffset(|data|);
    var run := Expected(meta, data);
    RequestsJoin(meta, data, |run.emitted|);
  }

  /** It goes out in full chunks but for the last message, with the metadata on the first only. */
  lemma EmittedShape(meta: Metadata, data: bytes)
    ensures var requests := Expected(meta, data).emitted;
            && (forall i :: 0 <= i < |requests| - 1 ==> |requests[i].chunk| == UPLOAD_CHUNK_BYTES)
            && (|requests| > 1 ==> requests[|requests| - 1].chunk != [])
            && (forall i :: 0 <= i < |requests| ==>
                  && |requests[i].chunk| <= UPLOAD_CHUNK_BYTES
                  && requests[i].meta == if i == 0 then meta else Metadata("", "", "", 0, "", [], ""))
  {
    ChunkShape(meta, data);
  }

  /** Message count and chunk lengths of a complete stream. */
  lemma ChunkShape(meta: Metadata, data: bytes)
    ensures var requests := Chunked(meta, data);
            var last := |requests| - 1;
            && |requests| == MessageCount(|data|) >= 1
            && (forall i :: 0 <= i < last ==> |requests[i].chunk| == UPLOAD_CHUNK_BYTES)
            && |requests[last].chunk| <= UPLOAD_CHUNK_BYTES
            && (data != [] ==> requests[last].chunk != [])
            && (forall i :: 0 <= i <= last ==>
                  requests[i].meta == if i == 0 then meta else Metadata("", "", "", 0, "", [], ""))
  {
  }

  /** No way of cutting a file into messages the server accepts takes fewer messages. */
  lemma {:induction false} FewestMessages(chunks: seq<bytes>)
    requires |chunks| > 0
    requires forall i :: 0 <= i < |chunks| ==> |chunks[i]| <= UPLOAD_CHUNK_BYTES
    ensures MessageCount(|Join(chunks)|) <= |chunks|
  {
    if |chunks| == 1 {
      JoinSingle(chunks[0]);
      assert chunks == [chunks[0]];
    } else {
      FewestMessages(chunks[..|chunks| - 1]);
    }
  }

  /** Which emitted streams would pass for a complete file on the wire: those of successful
      runs, and those of a run that overflows a declared size that is a positive multiple of
      the chunk size - there the overflow shows only once the declared bytes are all sent. */
  lemma CompleteOnWire(meta: Metadata, data: bytes)
    requires |meta.checksum| == CHECKSUM_LEN && meta.sizeBytes <= MAX_FILE_BYTES
    ensures var run := Expected(meta, data);
            WireContract(run.emitted) <==>
            || run.outcome == Done
            || (run.outcome == Overflow && meta.sizeBytes > 0 && meta.sizeBytes % UPLOAD_CHUNK_BYTES == 0)
  {
    EmittedPrefix(meta, data);
    LastOffset(|data|);
  }

  // ---------- the public upload and download calls ----------

  datatype ValidationError = FileTooLarge(sizeBytes: int) | BadChecksum(length: nat)

  function ValidateFileSize(sizeBytes: int): Option<ValidationError> {
    if sizeBytes > MAX_FILE_BYTES then Some(FileTooLarge(sizeBytes)) else None
  }

  function RequireChecksumLen(checksum: bytes): Option<ValidationError> {
    if |checksum| != CHECKSUM_LEN then Some(BadChecksum(|checksum|)) else None
  }

  /** `sha256` stands for the digest of section 6.2 of FIPS 180-4. */
  function ResolveChecksum(checksum: Option<bytes>, data: bytes, sha256: bytes -> bytes)
    : (resolved: Result<bytes, ValidationError>)
    requires forall d :: |sha256(d)| == CHECKSUM_LEN
    ensures resolved.Success? ==> |resolved.value| == CHECKSUM_LEN
    ensures resolved.Success? ==> resolved.value == if checksum.Some? then checksum.value else sha256(data)
    ensures resolved.Failure? <==> checksum.Some? && |checksum.value| != CHECKSUM_LEN
  {
    match checksum
    case None => Success(sha256(data))
    case Some(c) => if RequireChecksumLen(c).Some? then Failure(RequireChecksumLen(c).value) else Success(c)
  }

  /** The bytes a download delivers for a stream the server accepted. */
  function Stored(requests: seq<UploadRequest>): bytes
    requires WireContract(requests)
  {
    Join(ReadBack(Chunks(requests), requests[0].meta.sizeBytes))
  }

  /** `upload_file`: validation, then the stream handed to the `Upload` call. */
  method UploadFile(
    tenantId: string, bucket: string, fileId: string, data: bytes, contentType: string,
    checksum: Option<bytes>, requestId: string, sha256: bytes -> bytes)
    returns (result: Result<seq<UploadRequest>, ValidationError>)
    requires forall d :: |sha256(d)| == CHECKSUM_LEN
    ensures result.Success? <==> |data| <= 5 * 1024 * 1024 * 1024 && (checksum.Some? ==> |checksum.value| == 32)
    ensures |data| > MAX_FILE_BYTES ==> result == Failure(FileTooLarge(|data|))
    ensures |data| <= MAX_FILE_BYTES && checksum.Some? && |checksum.value| != CHECKSUM_LEN ==>
              result == Failure(BadChecksum(|checksum.value|))
    ensures result.Success? ==>
              var digest := if checksum.Some? then checksum.value else sha256(data);
              && result.value
                 == Chunked(Metadata(tenantId, bucket, fileId, |data|, contentType, digest, requestId), data)
              && WireContract(result.value) && Stored(result.value) == data
              && Join(Chunks(result.value)) == data
              && result.value[0].meta == Metadata(tenantId, bucket, fileId, |data|, contentType, digest, requestId)
  {
    var tooLarge := ValidateFileSize(|data|);
    if tooLarge.Some? {
      return Failure(tooLarge.value);
    }
    var resolved := ResolveChecksum(checksum, data, sha256);
    if resolved.Failure? {
      return Failure(resolved.error);
    }
    var meta := Metadata(tenantId, bucket, fileId, |data|, contentType, resolved.value, requestId);
    var requests := ChunkUploadRequests(meta, data);
    RoundTrip(meta, data);
    EmittedPrefix(meta, data);
    result := Success(requests);
  }

  /** `upload_file_chunked`: the caller declares the size and the checksum up front. */
  method UploadFileChunked(meta: Metadata, pieces: seq<bytes>) returns (result: Result<Run, ValidationError>)
    ensures result.Success? <==> meta.sizeBytes <= MAX_FILE_BYTES && |meta.checksum| == CHECKSUM_LEN
    ensures meta.sizeBytes > MAX_FILE_BYTES ==> result == Failure(FileTooLarge(meta.sizeBytes))
    ensures result.Success? ==> result.value == Expected(meta, Join(pieces))
    ensures meta.sizeBytes <= MAX_FILE_BYTES && |meta.checksum| != CHECKSUM_LEN ==>
              result == Failure(BadChecksum(|meta.checksum|))
    ensures result.Success? ==> (result.value.outcome == Done <==> |Join(pieces)| == meta.sizeBytes)
    ensures result.Success? ==> (result.value.outcome == Overflow <==> |Join(pieces)| > meta.sizeBytes)
    ensures result.Success? && |Join(pieces)| < meta.sizeBytes ==>
              && result.value.outcome == Shortfall(|Join(pieces)|)
              && Join(Chunks(result.value.emitted)) == Join(pieces)
    ensures result.Success? && result.value.outcome == Done ==>
              WireContract(result.value.emitted) && Stored(result.value.emitted) == Join(pieces)
  {
    var tooLarge, badChecksum := ValidateFileSize(meta.sizeBytes), RequireChecksumLen(meta.checksum);
    if tooLarge.Some? {
      return Failure(tooLarge.value);
    }
    if badChecksum.Some? {
      return Failure(badChecksum.value);
    }
    var run, read, peak := RechunkUploadRequests(meta, pieces);
    if run.outcome == Done {
      RoundTrip(meta, Join(pieces));
    }
    result := Success(run);
  }

  /** Joining what the server reads back restores the file, and so does joining a download cut
      in any other way from the bytes that were sent. */
  lemma RoundTrip(meta: Metadata, data: bytes)
    requires |meta.checksum| == CHECKSUM_LEN && meta.sizeBytes == |data| <= MAX_FILE_BYTES
    ensures WireContract(Chunked(meta, data)) && Stored(Chunked(meta, data)) == data
    ensures forall pieces :: Join(pieces) == Join(Chunks(Chunked(meta, data))) ==> Join(pieces) == data
  {
    CompleteOnWire(meta, data);
    EmittedPrefix(meta, data);
    ReadBackComplete(Chunks(Chunked(meta, data)));
  }

  /** The streaming re-chunker refines the in-memory one: however the data is cut into
      pieces, both calls put the same messages on the wire. */
  method UploadBothWays(meta: Metadata, data: bytes, pieces: seq<bytes>)
    returns (whole: seq<UploadRequest>, streamed: Run)
    requires meta.sizeBytes == |data| && Join(pieces) == data
    ensures streamed == Run(whole, Done)
  {
    whole := ChunkUploadRequests(meta, data);
    ghost var read, peak;
    streamed, read, peak := RechunkUploadRequests(meta, pieces);
  }
}
