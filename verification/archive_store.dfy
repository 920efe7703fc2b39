/** What happens to a fully received upload: verification, the archive table and its
    idempotent insert, the confirmation, and the answer to a live request. */
module ArchiveStore {
  import opened Wire
  import opened LogReceiver
  import Text

  const MAX_UNCOMPRESSED: nat := 67108864 // 64 MiB

  /** The hash, and what a gzip body expands to (None when it is not valid gzip). */
  datatype Codec = Codec(hash: Bytes -> string, gzip: Bytes -> Bytes, gunzip: Bytes -> Option<Bytes>)

  datatype Job = Job(upload: Partial, totalBytes: int, sha: string)

  datatype Row = Row(uploadId: string, nodeId: string, instanceId: Option<string>, linesKept: nat, size: nat, gz: Bytes)

  /** How the database write goes: it may fail before or after the row is in. */
  datatype Write = WriteOk | WriteFails | WriteReplyLost

  predicate Intact(c: Codec, j: Job) {
    |j.upload.buf| == j.totalBytes && Text.Lower(c.hash(j.upload.buf)) == Text.Lower(j.sha)
  }

  predicate Storable(c: Codec, j: Job) {
    Intact(c, j) && match c.gunzip(j.upload.buf) case None => false case Some(log) => |log| <= MAX_UNCOMPRESSED
  }

  /** The row for an upload. The node is the connection's, and an instance that belongs to
      another node is not linked. */
  function Describe(u: Partial, size: nat, instances: map<string, string>): (r: Row)
    ensures r.uploadId == u.uploadId && r.nodeId == u.nodeId && r.gz == u.buf
    ensures r.instanceId == Some(u.meta.instanceId) <==> u.meta.instanceId in instances && instances[u.meta.instanceId] == u.nodeId
    ensures r.instanceId.Some? ==> r.instanceId.value == u.meta.instanceId
    ensures r.size == size && r.linesKept >= u.meta.linesKept && (r.linesKept == u.meta.linesKept || r.linesKept == 0)
  {
    var id := u.meta.instanceId;
    Row(u.uploadId, u.nodeId, if id in instances && instances[id] == u.nodeId then Some(id) else None,
        if u.meta.linesKept > 0 then u.meta.linesKept else 0, size, u.buf)
  }

  /** Insert unless the upload id is already stored. */
  function Created(rows: map<string, Row>, row: Row): map<string, Row> {
    if row.uploadId in rows then rows else rows[row.uploadId := row]
  }

  /** The table after finishing a job, and whether the agent is told it is stored. */
  function Finished(c: Codec, rows: map<string, Row>, j: Job, write: Write,
      instances: map<string, string>): (map<string, Row>, bool) {
    if !Storable(c, j) || write == WriteFails then (rows, false)
    else (Created(rows, Describe(j.upload, |c.gunzip(j.upload.buf).value|, instances)), write == WriteOk)
  }

  function LiveAnswer(c: Codec, j: Job): LiveResult {
    if !Storable(c, j) then Damaged else LiveText(j.upload, c.gunzip(j.upload.buf).value)
  }

  /** What the agent announced with the last chunk is what arrived, and it is the gzip of this log. */
  predicate Arrived(c: Codec, j: Job, log: Bytes) {
    && |j.upload.buf| == j.totalBytes
    && Text.Lower(j.sha) == Text.Lower(c.hash(j.upload.buf))
    && c.gunzip(j.upload.buf) == Some(log)
  }

  /** A live request is handed the log exactly when it arrived as announced and is not too large;
      else it is told that the reply was damaged. */
  lemma LiveAnswerIff(c: Codec, j: Job)
    ensures forall u, log :: LiveAnswer(c, j) == LiveText(u, log) <==> u == j.upload && Arrived(c, j, log) && |log| <= 67108864
    ensures LiveAnswer(c, j) != Damaged <==> exists log :: Arrived(c, j, log) && |log| <= 67108864
  {
    if LiveAnswer(c, j) != Damaged {
      assert Arrived(c, j, c.gunzip(j.upload.buf).value);
    }
  }

  class Archives {
    const codec: Codec
    var rows: map<string, Row>
    var acks: seq<(string, Ack)>

    constructor (codec: Codec)
      ensures this.codec == codec && rows == map[] && acks == []
    {
      this.codec := codec;
      rows, acks := map[], [];
    }

    /** A retry of an upload already stored changes nothing and succeeds. */
    method Create(row: Row, write: Write) returns (ok: bool)
      modifies this`rows
      ensures ok <==> write == WriteOk
      ensures write == WriteFails ==> rows == old(rows)
      ensures write != WriteFails ==> row.uploadId in rows && rows == old(rows)[row.uploadId := rows[row.uploadId]]
      ensures row.uploadId in old(rows) ==> rows == old(rows)
      ensures write != WriteFails && row.uploadId !in old(rows) ==> rows[row.uploadId] == row
    {
      if write == WriteFails {
        return false;
      }
      if row.uploadId !in rows {
        rows := rows[row.uploadId := row];
      }
      ok := write == WriteOk;
    }

    /** Exactly one confirmation is sent. It says stored exactly when what was announced arrived,
        is a log of at most 64 MiB, and the write was answered; then its row is there. */
    method Finish(j: Job, write: Write, instances: map<string, string>)
      modifies this`rows, this`acks
      ensures var (rows', stored) := Finished(codec, old(rows), j, write, instances);
              && rows == rows'
              && acks == old(acks) + [(j.upload.nodeId, Ack(j.upload.uploadId, stored))]
      ensures |acks| == |old(acks)| + 1 && acks[..|old(acks)|] == old(acks)
      ensures acks[|acks| - 1].0 == j.upload.nodeId && acks[|acks| - 1].1.uploadId == j.upload.uploadId
      ensures acks[|acks| - 1].1.stored <==> write == WriteOk && exists log :: Arrived(codec, j, log) && |log| <= 67108864
      ensures rows != old(rows) ==> write != WriteFails && exists log :: Arrived(codec, j, log) && |log| <= 67108864
      ensures write != WriteFails && (exists log :: Arrived(codec, j, log) && |log| <= 67108864) ==>
                j.upload.uploadId in rows && rows == old(rows)[j.upload.uploadId := rows[j.upload.uploadId]]
      ensures j.upload.uploadId in rows && j.upload.uploadId !in old(rows) ==>
                var row := rows[j.upload.uploadId];
                && row.nodeId == j.upload.nodeId && row.gz == j.upload.buf && Arrived(codec, j, codec.gunzip(row.gz).value)
                && row.size == |codec.gunzip(row.gz).value|
                && (row.instanceId == Some(j.upload.meta.instanceId) <==>
                      j.upload.meta.instanceId in instances && instances[j.upload.meta.instanceId] == j.upload.nodeId)
    {
      if !Intact(codec, j) {
        acks := acks + [(j.upload.nodeId, Ack(j.upload.uploadId, false))];
        return;
      }
      var log := codec.gunzip(j.upload.buf);
      assert log.Some? ==> Arrived(codec, j, log.value);
      if log == None || |log.value| > MAX_UNCOMPRESSED {
        acks := acks + [(j.upload.nodeId, Ack(j.upload.uploadId, false))];
        return;
      }
      var ok := Create(Describe(j.upload, |log.value|, instances), write);
      acks := acks + [(j.upload.nodeId, Ack(j.upload.uploadId, ok))];
    }
  }
}
