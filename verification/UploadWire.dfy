/** The upload wire format: one message type whose metadata travels on the first message
    only, the contract the server checks, and the way it stores and reads a file back. */
module UploadWire {

  newtype byte = x: int | 0 <= x < 256
  type bytes = seq<byte>

  const UPLOAD_CHUNK_BYTES: nat := 1_048_576
  const CHECKSUM_LEN: nat := 32
  const MAX_FILE_BYTES: nat := 5 * 1024 * 1024 * 1024

  /** Every field of an upload message except `chunk`. */
  datatype Metadata = Metadata(
    tenantId: string,
    bucket: string,
    fileId: string,
    sizeBytes: int,
    contentType: string,
    checksum: bytes,
    requestId: string)

  /** What the protobuf message holds when only `chunk` is set. */
  const BLANK: Metadata := Metadata("", "", "", 0, "", [], "")

  datatype UploadRequest = UploadRequest(meta: Metadata, chunk: bytes)

  /** `b"".join(pieces)`. */
  function Join(pieces: seq<bytes>): bytes {
    if |pieces| == 0 then [] else Join(pieces[..|pieces| - 1]) + pieces[|pieces| - 1]
  }

  function Chunks(requests: seq<UploadRequest>): (chunks: seq<bytes>)
    ensures |chunks| == |requests|
    ensures forall i :: 0 <= i < |requests| ==> chunks[i] == requests[i].chunk
  {
    seq(|requests|, i requires 0 <= i < |requests| => requests[i].chunk)
  }

  /** The server's acceptance rule for one complete `Upload` stream. */
  predicate WireContract(requests: seq<UploadRequest>) {
    && |requests| > 0
    && |requests[0].meta.checksum| == CHECKSUM_LEN
    && requests[0].meta.sizeBytes <= MAX_FILE_BYTES
    && (forall i :: 0 < i < |requests| ==> requests[i].meta == BLANK)
    && (forall i :: 0 <= i < |requests| ==> |requests[i].chunk| <= UPLOAD_CHUNK_BYTES)
    && |Join(Chunks(requests))| == requests[0].meta.sizeBytes
  }

  /** The server keeps chunks verbatim and, on download, reads them back in order until it
      has collected `size` bytes. */
  function ReadBack(chunks: seq<bytes>, size: int): seq<bytes>
    decreases |chunks|
  {
    if size <= 0 || |chunks| == 0 then [] else [chunks[0]] + ReadBack(chunks[1..], size - |chunks[0]|)
  }

  lemma {:induction false} JoinConcat(a: seq<bytes>, b: seq<bytes>)
    ensures Join(a + b) == Join(a) + Join(b)
    decreases |b|
  {
    if |b| == 0 {
      assert a + b == a;
    } else {
      var init, last := b[..|b| - 1], b[|b| - 1];
      assert (a + b)[..|a + b| - 1] == a + init;
      JoinConcat(a, init);
    }
  }

  lemma JoinSingle(a: bytes)
    ensures Join([a]) == a
  {
  }

  /** Reading back a file whose recorded size is what its chunks add up to loses nothing,
      even when trailing chunks are empty and so never read. */
  lemma {:induction false} ReadBackComplete(chunks: seq<bytes>)
    ensures Join(ReadBack(chunks, |Join(chunks)|)) == Join(chunks)
    decreases |chunks|
  {
    if |chunks| == 0 || Join(chunks) == [] {
    } else {
      var head, tail := chunks[0], chunks[1..];
      assert chunks == [head] + tail;
      JoinConcat([head], tail);
      JoinSingle(head);
      var rest := ReadBack(tail, |Join(tail)|);
      assert ReadBack(chunks, |Join(chunks)|) == [head] + rest;
      JoinConcat([head], rest);
      ReadBackComplete(tail);
    }
  }
}
