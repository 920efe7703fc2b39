/** What the archive is for when nothing goes wrong: a log that can be stored is, the agent is
    told so, and its container goes; a live log reaches its request. */
module ArchiveProgress {
  import opened Wire
  import opened LogSender
  import opened LogReceiver
  import opened LogReceiverRuns
  import opened ArchiveStore
  import opened ArchiveProtocol
  import ArchiveSafety

  /** A log that gzip brings back, of a size that may be stored. */
  predicate Recoverable(c: Codec, log: Bytes) {
    c.gunzip(c.gzip(log)) == Some(log) && |log| <= 67108864
  }

  /** What the archive promises for a log once it is stored: a row with its gzip bytes, for its
      node, and a confirmation that says so. */
  predicate StoredAndConfirmed(c: Codec, s: State, nodeId: string, uploadId: string, log: Bytes) {
    && uploadId in s.rows && uploadId in s.inserted
    && s.inserted[uploadId].row.gz == c.gzip(log) && s.inserted[uploadId].row.nodeId == nodeId
    && (nodeId, Ack(uploadId, true)) in s.acks
  }

  /** A transmission put together whole, and a write that is answered. */
  lemma FinishStores(c: ArchiveProtocol.Config, s: State, jobId: nat, instances: map<string, string>)
    requires ArchiveSafety.Inv(c, s) && jobId in s.jobs && s.jobs[jobId].upload.uploadId in s.sends
    requires Recoverable(c.codec, s.sends[s.jobs[jobId].upload.uploadId].log)
    ensures var id := s.jobs[jobId].upload.uploadId;
            var t := Do(c, s, Finish(jobId, WriteOk, instances));
            && t.tasks == s.tasks && t.sends == s.sends
            && StoredAndConfirmed(c.codec, t, s.sends[id].nodeId, id, s.sends[id].log)
  {
    var j := s.jobs[jobId];
    var id := j.upload.uploadId;
    ArchiveSafety.JobIsKnown(c, s, jobId);
    assert ArchiveSafety.GoodTransmission(c, id, s.sends[id]);
    assert Finished(c.codec, s.rows, j, WriteOk, instances).1;
    ArchiveSafety.DoKeepsInv(c, s, Finish(jobId, WriteOk, instances));
    hide ArchiveSafety.Inv;
    RowsAreGood(c, Do(c, s, Finish(jobId, WriteOk, instances)), id);
  }

  lemma RowsAreGood(c: ArchiveProtocol.Config, s: State, id: string)
    requires ArchiveSafety.Inv(c, s) && id in s.sends && id in s.rows
    ensures id in s.inserted && s.inserted[id].row.gz == s.sends[id].upload.body && s.inserted[id].row.nodeId == s.sends[id].nodeId
  {
    assert ArchiveSafety.GoodRow(s.sends[id], s.inserted[id].row);
  }

  lemma Go(c: ArchiveProtocol.Config, steps: seq<ArchiveProtocol.Step>, step: ArchiveProtocol.Step)
    requires Enabled(c, ArchiveProtocol.Run(c, INITIAL, steps), step)
    ensures ArchiveProtocol.Run(c, INITIAL, steps + [step]) == Do(c, ArchiveProtocol.Run(c, INITIAL, steps), step)
  {
    hide Do, Enabled;
    assert (steps + [step])[..|steps|] == steps;
  }

  /** A stored confirmation that reaches a waiting task ends it as stored. */
  lemma ConfirmationEnds(c: ArchiveProtocol.Config, s: State, tid: nat, id: string)
    requires InPhase(s, tid, Waiting) && s.tasks[tid].slot == None && s.tasks[tid].uploadId == id
    requires (s.tasks[tid].nodeId, Ack(id, true)) in s.acks
    ensures var arrives := AckArrives(tid, Ack(id, true));
            && Enabled(c, s, arrives) && Enabled(c, Do(c, s, arrives), ReadAck(tid))
            && var t := Do(c, Do(c, s, arrives), ReadAck(tid));
               && InPhase(t, tid, Over(ArchiveStored)) && Enabled(c, t, Remove(tid))
               && t.tasks[tid].capture == s.tasks[tid].capture
               && t.rows == s.rows && t.inserted == s.inserted && t.acks == s.acks
  {
  }

  lemma WaitingIsCarried(c: ArchiveProtocol.Config, s: State, tid: nat)
    requires ArchiveSafety.Inv(c, s) && InPhase(s, tid, Waiting)
    ensures ArchiveSafety.Carried(s.sends, s.tasks[tid])
  {
    assert ArchiveSafety.GoodTask(s.sends, s.inserted.Keys, s.acks, s.tasks[tid]);
  }

  /** In every run: when a transmission has been put together whole and its agent still waits, an
      answered write stores it, and reading the confirmation ends the task as stored, so that its
      container may go. */
  lemma RebuiltLogIsStored(c: ArchiveProtocol.Config, steps: seq<ArchiveProtocol.Step>, tid: nat, jobId: nat,
      instances: map<string, string>)
    requires var s := ArchiveProtocol.Run(c, INITIAL, steps);
             && jobId in s.jobs && s.jobs[jobId].upload.uploadId in s.sends
             && Recoverable(c.codec, s.sends[s.jobs[jobId].upload.uploadId].log)
             && InPhase(s, tid, Waiting) && s.tasks[tid].slot == None
             && s.tasks[tid].uploadId == s.jobs[jobId].upload.uploadId
    ensures var s := ArchiveProtocol.Run(c, INITIAL, steps);
            var id := s.tasks[tid].uploadId;
            var t := ArchiveProtocol.Run(c, INITIAL, steps + [Finish(jobId, WriteOk, instances), AckArrives(tid, Ack(id, true)), ReadAck(tid)]);
            && InPhase(t, tid, Over(ArchiveStored)) && Enabled(c, t, Remove(tid))
            && t.tasks[tid].capture == Some(Captured(s.sends[id].log))
            && StoredAndConfirmed(c.codec, t, s.tasks[tid].nodeId, id, s.sends[id].log)
  {
    var s := ArchiveProtocol.Run(c, INITIAL, steps);
    var id := s.tasks[tid].uploadId;
    ArchiveSafety.EveryRunKeepsInv(c, steps);
    WaitingIsCarried(c, s, tid);
    FinishStores(c, s, jobId, instances);
    hide ArchiveProtocol.Run, Recoverable, ArchiveSafety.Inv, ArchiveSafety.Carried, Do;
    var finish, arrives, read := Finish(jobId, WriteOk, instances), AckArrives(tid, Ack(id, true)), ReadAck(tid);
    ConfirmationEnds(c, Do(c, s, finish), tid, id);
    GoThrice(c, steps, finish, arrives, read);
  }

  lemma GoThrice(c: ArchiveProtocol.Config, steps: seq<ArchiveProtocol.Step>, x: ArchiveProtocol.Step, y: ArchiveProtocol.Step,
      z: ArchiveProtocol.Step)
    requires var s := ArchiveProtocol.Run(c, INITIAL, steps);
             Enabled(c, s, x) && Enabled(c, Do(c, s, x), y) && Enabled(c, Do(c, Do(c, s, x), y), z)
    ensures var s := ArchiveProtocol.Run(c, INITIAL, steps);
            ArchiveProtocol.Run(c, INITIAL, steps + [x, y, z]) == Do(c, Do(c, Do(c, s, x), y), z)
  {
    hide ArchiveProtocol.Run, Do, Enabled;
    Go(c, steps, x);
    Go(c, steps + [x], y);
    Go(c, steps + [x] + [y], z);
    assert steps + [x] + [y] + [z] == steps + [x, y, z];
  }

  // --- A whole archive, from any reachable state ---

  /** One archive: who archives what, and when and under which numbers it arrives. */
  datatype Plan = Plan(tid: nat, nodeId: string, instanceId: string, caller: Caller, log: Bytes,
                       uploadId: string, meta: Meta, now: int, jobId: nat)

  function UploadOf(c: Codec, p: Plan): Upload {
    Upload(p.uploadId, "", p.meta, c.gzip(p.log), c.hash(c.gzip(p.log)))
  }

  /** Nothing stands in its way. */
  ghost predicate Feasible(c: ArchiveProtocol.Config, s: State, p: Plan) {
    && Enabled(c, s, Begin(p.tid, p.nodeId, p.instanceId, p.caller))
    && ValidUploadId(p.uploadId) && p.uploadId !in s.sends && p.uploadId !in s.foreign
    && Recoverable(c.codec, p.log) && |c.codec.gzip(p.log)| <= MAX_COMPRESSED
    && |OfNode(Sweep(s.table.uploads, p.now), p.nodeId)| < MAX_UPLOADS_PER_NODE
    && p.jobId !in s.jobs
  }

  /** k of its chunks are sent and have arrived. */
  ghost predicate Underway(c: ArchiveProtocol.Config, s: State, p: Plan, k: nat) {
    var u := UploadOf(c.codec, p);
    && p.tid in s.tasks && p.uploadId in s.sends
    && s.tasks[p.tid] == Task(p.nodeId, p.instanceId, p.caller, if k == u.Count() then Waiting else Sending,
                              Some(Captured(p.log)), p.uploadId, None)
    && s.sends[p.uploadId] == Transmission(p.nodeId, p.log, u, k, k)
    && (k == 0 ==> |OfNode(Sweep(s.table.uploads, p.now), p.nodeId)| < MAX_UPLOADS_PER_NODE)
    && if k == u.Count() then p.jobId in s.jobs && s.jobs[p.jobId].upload.uploadId == p.uploadId
       else p.jobId !in s.jobs && TrackedAs(s.table.uploads, p.nodeId, u, k, true, p.now)
  }

  lemma Started(c: ArchiveProtocol.Config, steps: seq<ArchiveProtocol.Step>, p: Plan) returns (more: seq<ArchiveProtocol.Step>)
    requires Feasible(c, ArchiveProtocol.Run(c, INITIAL, steps), p)
    ensures steps <= more && Underway(c, ArchiveProtocol.Run(c, INITIAL, more), p, 0)
  {
    var s := ArchiveProtocol.Run(c, INITIAL, steps);
    ArchiveSafety.EveryRunKeepsInv(c, steps);
    UnknownHasNoUpload(c, s, p.nodeId, p.uploadId);
    hide ArchiveProtocol.Run, ArchiveSafety.Inv, Underway, Do;
    var begin, observe := Begin(p.tid, p.nodeId, p.instanceId, p.caller), Observe(p.tid, Captured(p.log), p.uploadId, p.meta);
    BegunAndCaptured(c, s, p);
    hide Enabled;
    Go(c, steps, begin);
    Go(c, steps + [begin], observe);
    more := steps + [begin] + [observe];
  }

  lemma BegunAndCaptured(c: ArchiveProtocol.Config, s: State, p: Plan)
    requires Feasible(c, s, p) && (p.nodeId, p.uploadId) !in s.table.uploads
    ensures var begin, observe := Begin(p.tid, p.nodeId, p.instanceId, p.caller), Observe(p.tid, Captured(p.log), p.uploadId, p.meta);
            && Enabled(c, s, begin) && Enabled(c, Do(c, s, begin), observe)
            && Underway(c, Do(c, Do(c, s, begin), observe), p, 0)
  {
    hide Recoverable, OfNode, Sweep, ValidUploadId;
  }

  lemma UnknownHasNoUpload(c: ArchiveProtocol.Config, s: State, nodeId: string, id: string)
    requires ArchiveSafety.Inv(c, s) && id !in s.sends && id !in s.foreign
    ensures (nodeId, id) !in s.table.uploads
  {
    assert ArchiveSafety.IdsKnown(s) && (nodeId, id).1 == id;
  }

  /** The receiver's side of chunk k. */
  lemma ChunkTaken(t: Table, nodeId: string, u: Upload, k: nat, now: int)
    requires u.fetchId == "" && ValidUploadId(u.uploadId) && k < u.Count() && |u.body| <= MAX_COMPRESSED
    requires TrackedAs(t.uploads, nodeId, u, k, true, now)
    requires k == 0 ==> |OfNode(Sweep(t.uploads, now), nodeId)| < MAX_UPLOADS_PER_NODE
    ensures var (t', r) := Handle(t, nodeId, u.At(k), now);
            if k + 1 == u.Count() then r.Complete? && r.upload.uploadId == u.uploadId
            else r == Buffered && TrackedAs(t'.uploads, nodeId, u, k + 1, true, now)
  {
    NextChunk(t.uploads, nodeId, u, k, true, now, now);
    OwnChunk(t, nodeId, u.At(k), now);
  }

  lemma OneMoreChunk(c: ArchiveProtocol.Config, steps: seq<ArchiveProtocol.Step>, p: Plan, k: nat)
    returns (more: seq<ArchiveProtocol.Step>)
    requires Underway(c, ArchiveProtocol.Run(c, INITIAL, steps), p, k) && k < UploadOf(c.codec, p).Count()
    requires ValidUploadId(p.uploadId) && |c.codec.gzip(p.log)| <= MAX_COMPRESSED
    ensures steps <= more && Underway(c, ArchiveProtocol.Run(c, INITIAL, more), p, k + 1)
  {
    hide ArchiveProtocol.Run, OfNode, Sweep, Handle, TrackedAs;
    var s := ArchiveProtocol.Run(c, INITIAL, steps);
    var u := UploadOf(c.codec, p);
    var send, arrive := SendNext(p.tid), Arrive(p.uploadId, k, p.now, p.jobId);
    ChunkTaken(s.table, p.nodeId, u, k, p.now);
    Go(c, steps, send);
    Go(c, steps + [send], arrive);
    more := steps + [send] + [arrive];
  }

  lemma {:induction false} AllChunks(c: ArchiveProtocol.Config, steps: seq<ArchiveProtocol.Step>, p: Plan, k: nat)
    returns (more: seq<ArchiveProtocol.Step>)
    requires Underway(c, ArchiveProtocol.Run(c, INITIAL, steps), p, k) && k <= UploadOf(c.codec, p).Count()
    requires ValidUploadId(p.uploadId) && |c.codec.gzip(p.log)| <= MAX_COMPRESSED
    ensures steps <= more && Underway(c, ArchiveProtocol.Run(c, INITIAL, more), p, UploadOf(c.codec, p).Count())
    decreases UploadOf(c.codec, p).Count() - k
  {
    hide Underway, ArchiveProtocol.Run;
    more := steps;
    if k < UploadOf(c.codec, p).Count() {
      more := OneMoreChunk(c, steps, p, k);
      more := AllChunks(c, more, p, k + 1);
    }
  }

  /** From every reachable state in which nothing stands in its way an archive can go on to its end:
      the log is stored and confirmed, and the container removed. */
  lemma EveryGoodLogCanBeStored(c: ArchiveProtocol.Config, steps: seq<ArchiveProtocol.Step>, p: Plan,
      instances: map<string, string>) returns (more: seq<ArchiveProtocol.Step>)
    requires Feasible(c, ArchiveProtocol.Run(c, INITIAL, steps), p)
    ensures steps <= more
    ensures var t := ArchiveProtocol.Run(c, INITIAL, more);
            && InPhase(t, p.tid, Removed) && t.tasks[p.tid].capture == Some(Captured(p.log))
            && StoredAndConfirmed(c.codec, t, p.nodeId, p.uploadId, p.log)
  {
    hide ArchiveProtocol.Run, OfNode, Sweep, Recoverable, TrackedAs;
    more := Started(c, steps, p);
    more := AllChunks(c, more, p, 0);
    var finish, arrives, read := Finish(p.jobId, WriteOk, instances), AckArrives(p.tid, Ack(p.uploadId, true)), ReadAck(p.tid);
    RebuiltLogIsStored(c, more, p.tid, p.jobId, instances);
    var before := more + [finish, arrives, read];
    Go(c, before, Remove(p.tid));
    more := before + [Remove(p.tid)];
  }

  // --- Live logs ---

  /** A complete reply of a live request ends in its answer: the log, exactly when it arrived as
      announced and is not too large, and otherwise that it was damaged; nothing is stored and no
      confirmation sent. A request that has its answer, or is another node's, is not touched. */
  lemma LiveLogIsHanded(c: ArchiveProtocol.Config, s: State, jobId: nat, write: ArchiveStore.Write, instances: map<string, string>)
    requires jobId in s.jobs && s.jobs[jobId].upload.fetchId != ""
    ensures var j := s.jobs[jobId];
            var f := j.upload.fetchId;
            var t := Do(c, s, Finish(jobId, write, instances));
            && t.rows == s.rows && t.inserted == s.inserted && t.acks == s.acks
            && (forall g :: g in s.table.live && g != f ==> g in t.table.live && t.table.live[g] == s.table.live[g])
            && (f in s.table.live && s.table.live[f].nodeId == j.upload.nodeId && s.table.live[f].answer == None ==>
                  && f in t.table.live
                  && (forall log :: Arrived(c.codec, j, log) && |log| <= 67108864 ==> t.table.live[f].answer == Some(LiveText(j.upload, log)))
                  && ((forall log :: Arrived(c.codec, j, log) ==> |log| > 67108864) ==> t.table.live[f].answer == Some(Damaged)))
            && (f in s.table.live && (s.table.live[f].nodeId != j.upload.nodeId || s.table.live[f].answer.Some?) ==> t.table.live == s.table.live)
  {
    LiveAnswerIff(c.codec, s.jobs[jobId]);
    hide LiveAnswer, Arrived;
  }
}
