/** The container-log messages an agent and the central app exchange, and the
    numbered chunk series one upload consists of. */
module Wire {

  newtype byte = x: int | 0 <= x < 256
  type Bytes = seq<byte>

  datatype Option<+T> = None | Some(value: T)

  /** The most gzip bytes one chunk message carries. */
  const CHUNK_SIZE: nat := 16384

  /** The part of a capture's description that decides anything downstream. */
  datatype Meta = Meta(instanceId: string, reason: string, linesRequested: int, linesKept: int)

  datatype Chunk = Chunk(
    uploadId: string,
    fetchId: string, // "" unless the series answers a live log request
    seqNo: int,
    data: Bytes,
    meta: Option<Meta>,
    final: bool,
    totalBytes: int,
    sha: string,
    error: string)

  datatype Ack = Ack(uploadId: string, stored: bool)

  function Min(a: int, b: int): (m: int)
    ensures m <= a && m <= b && (m == a || m == b)
  {
    if a <= b then a else b
  }

  /** How many chunks a body of n bytes is cut into; an empty body still takes one. */
  function ChunkCount(n: nat): (c: nat)
    ensures c >= 1
    ensures (c - 1) * CHUNK_SIZE <= n <= c * CHUNK_SIZE
    ensures n > 0 ==> (c - 1) * CHUNK_SIZE < n
  {
    if n == 0 then 1 else (n - 1) / CHUNK_SIZE + 1
  }

  /** What the first k chunks of body hold together. */
  function Prefix(body: Bytes, k: nat): (p: Bytes) {
    body[..Min(k * CHUNK_SIZE, |body|)]
  }

  function Piece(body: Bytes, k: nat): (p: Bytes)
    requires k < ChunkCount(|body|)
    ensures |p| <= CHUNK_SIZE
    ensures Prefix(body, k) + p == Prefix(body, k + 1)
  {
    body[k * CHUNK_SIZE..Min((k + 1) * CHUNK_SIZE, |body|)]
  }

  /** One upload as its agent means it: who sends what under which id. */
  datatype Upload = Upload(uploadId: string, fetchId: string, meta: Meta, body: Bytes, sha: string)
  {
    function Count(): (c: nat)
      ensures c >= 1
    {
      ChunkCount(|body|)
    }

    function At(k: nat): (c: Chunk)
      requires k < Count()
    {
      var last := k + 1 == Count();
      Chunk(uploadId, fetchId, k, Piece(body, k), if k == 0 then Some(meta) else None,
            last, if last then |body| else 0, if last then sha else "", "")
    }

    function Series(): (s: seq<Chunk>)
      ensures |s| == Count()
    {
      seq(Count(), k requires 0 <= k < Count() => At(k))
    }
  }

  function Data(chunks: seq<Chunk>): Bytes {
    if chunks == [] then [] else Data(chunks[..|chunks| - 1]) + chunks[|chunks| - 1].data
  }

  /** What a series promises whoever reassembles it: numbered from 0 without gaps, the
      description on the first chunk only, exactly one final chunk and that one last, no
      chunk over the size limit, and the data put together is the body. */
  ghost predicate WellFormedSeries(s: seq<Chunk>, u: Upload) {
    && |s| >= 1
    && (forall k :: 0 <= k < |s| ==>
          && s[k].seqNo == k
          && s[k].uploadId == u.uploadId
          && s[k].fetchId == u.fetchId
          && s[k].meta == (if k == 0 then Some(u.meta) else None)
          && |s[k].data| <= CHUNK_SIZE
          && (s[k].final <==> k == |s| - 1))
    && s[|s| - 1].totalBytes == |u.body|
    && s[|s| - 1].sha == u.sha
    && Data(s) == u.body
  }

  lemma {:induction false} DataOfPrefix(u: Upload, k: nat)
    requires k <= u.Count()
    ensures Data(u.Series()[..k]) == Prefix(u.body, k)
  {
    if k > 0 {
      DataOfPrefix(u, k - 1);
      assert u.Series()[..k][..k - 1] == u.Series()[..k - 1];
    }
  }

  lemma SeriesIsWellFormed(u: Upload)
    ensures WellFormedSeries(u.Series(), u)
  {
    DataOfPrefix(u, u.Count());
    assert u.Series()[..u.Count()] == u.Series();
  }

  lemma PrefixIsWhole(body: Bytes, k: nat)
    requires k >= ChunkCount(|body|)
    ensures Prefix(body, k) == body
  {
    assert k * CHUNK_SIZE >= ChunkCount(|body|) * CHUNK_SIZE;
  }
}
