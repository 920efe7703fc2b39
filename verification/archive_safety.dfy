/** No container is removed by the archive path without a stored log. */
module ArchiveSafety {
  import opened Wire
  import opened LogSender
  import opened LogReceiver
  import opened ArchiveStore
  import opened ArchiveProtocol

  type Sends = map<string, Transmission>

  // --- The invariant, one part per component ---

  /** Every upload id in use is a transmission's or a foreign one, never both. */
  ghost predicate IdsKnown(s: State) {
    var known := s.sends.Keys + s.foreign;
    && s.sends.Keys !! s.foreign
    && (forall k :: k in s.table.uploads ==> k.1 in known)
    && (forall j :: j in s.jobs ==> s.jobs[j].upload.uploadId in known)
    && s.rows.Keys <= s.inserted.Keys <= known
    && (forall a :: a in s.acks ==> a.1.uploadId in known)
  }

  predicate GoodTransmission(c: Config, id: string, tr: Transmission) {
    && ValidUploadId(id)
    && tr.upload.uploadId == id && tr.upload.fetchId == ""
    && tr.upload.body == c.codec.gzip(tr.log) && tr.upload.sha == c.codec.hash(tr.upload.body)
    && tr.sent <= tr.upload.Count() && tr.next <= tr.sent
  }

  ghost predicate SendsGood(c: Config, sends: Sends) {
    forall id :: id in sends ==> GoodTransmission(c, id, sends[id])
  }

  ghost predicate Filed(uploads: map<Key, Partial>) {
    forall k :: k in uploads ==> uploads[k].nodeId == k.0 && uploads[k].uploadId == k.1
  }

  /** What the table holds of a transmission is a prefix of its body. */
  predicate GoodPartial(tr: Transmission, k: Key, u: Partial) {
    && k == (tr.nodeId, tr.upload.uploadId)
    && u.nodeId == k.0 && u.uploadId == k.1 && u.fetchId == ""
    && 1 <= u.next && u.buf == Prefix(tr.upload.body, u.next)
  }

  ghost predicate PartialsGood(sends: Sends, uploads: map<Key, Partial>) {
    forall k :: k in uploads && k.1 in sends ==> GoodPartial(sends[k.1], k, uploads[k])
  }

  predicate GoodJob(tr: Transmission, j: Job) {
    && j.upload.nodeId == tr.nodeId && j.upload.uploadId == tr.upload.uploadId && j.upload.fetchId == ""
    && j.upload.buf == tr.upload.body && j.totalBytes == |tr.upload.body| && j.sha == tr.upload.sha
  }

  ghost predicate JobsGood(sends: Sends, jobs: map<nat, Job>) {
    forall j :: j in jobs && jobs[j].upload.uploadId in sends ==> GoodJob(sends[jobs[j].upload.uploadId], jobs[j])
  }

  predicate GoodRow(tr: Transmission, r: Row) {
    r.nodeId == tr.nodeId && r.gz == tr.upload.body
  }

  ghost predicate RowsGood(sends: Sends, inserted: map<string, Insertion>) {
    forall id :: id in inserted && id in sends ==> GoodRow(sends[id], inserted[id].row)
  }

  /** A stored confirmation of a transmission is sent only once its row is in. */
  ghost predicate AcksHonest(sends: Sends, stored: set<string>, acks: set<(string, Ack)>) {
    forall a :: a in acks && a.1.stored && a.1.uploadId in sends ==> a.1.uploadId in stored
  }

  predicate Carried(sends: Sends, t: Task) {
    t.uploadId in sends && sends[t.uploadId].nodeId == t.nodeId && t.capture == Some(Captured(sends[t.uploadId].log))
  }

  predicate GoodTask(sends: Sends, stored: set<string>, acks: set<(string, Ack)>, t: Task) {
    && (t.phase in {Sending, Waiting, Over(ArchiveStored)} ==> Carried(sends, t))
    && (t.slot.Some? ==> (t.nodeId, t.slot.value) in acks && t.slot.value.uploadId == t.uploadId)
    && (t.phase == Over(ArchiveStored) ==> t.uploadId in stored)
    && (t.phase == Over(ArchiveNothing) ==> t.capture == Some(NothingToCapture))
  }

  ghost predicate TasksGood(sends: Sends, stored: set<string>, acks: set<(string, Ack)>, tasks: map<nat, Task>) {
    forall tid :: tid in tasks ==> GoodTask(sends, stored, acks, tasks[tid])
  }

  predicate Holds(t: Task, p: (string, string)) {
    t.Active() && (t.nodeId, t.instanceId) == p
  }

  /** The archiving set is exactly the instances of active tasks, one task each. */
  ghost predicate OneArchivePerInstance(tasks: map<nat, Task>, archiving: set<(string, string)>) {
    && (forall tid :: tid in tasks && tasks[tid].Active() ==> (tasks[tid].nodeId, tasks[tid].instanceId) in archiving)
    && (forall a, b :: a in tasks && b in tasks && a != b && tasks[a].Active() && tasks[b].Active() ==>
          (tasks[a].nodeId, tasks[a].instanceId) != (tasks[b].nodeId, tasks[b].instanceId))
    && (forall p :: p in archiving ==> exists tid :: tid in tasks && Holds(tasks[tid], p))
  }

  /** What each removal rests on; rows of a transmission never change, so it stays. */
  ghost predicate RemovalsGood(sends: Sends, stored: set<string>, removals: set<Task>) {
    forall t :: t in removals ==> t.capture == Some(NothingToCapture) || (Carried(sends, t) && t.uploadId in stored)
  }

  ghost predicate Inv(c: Config, s: State) {
    && IdsKnown(s)
    && SendsGood(c, s.sends)
    && Filed(s.table.uploads)
    && PartialsGood(s.sends, s.table.uploads)
    && JobsGood(s.sends, s.jobs)
    && RowsGood(s.sends, s.inserted)
    && AcksHonest(s.sends, s.inserted.Keys, s.acks)
    && TasksGood(s.sends, s.inserted.Keys, s.acks, s.tasks)
    && OneArchivePerInstance(s.tasks, s.archiving)
    && RemovalsGood(s.sends, s.inserted.Keys, s.removals)
  }

  // --- Chunks ---

  /** A chunk of a transmission keeps the table a prefix, and completes it only whole. */
  lemma HonestChunk(tr: Transmission, t: Table, k: nat, now: int)
    requires ValidUploadId(tr.upload.uploadId) && tr.upload.fetchId == "" && k < tr.upload.Count()
    requires var key := (tr.nodeId, tr.upload.uploadId);
             key in t.uploads ==> GoodPartial(tr, key, t.uploads[key])
    ensures var key := (tr.nodeId, tr.upload.uploadId);
            var (t', r) := Handle(t, tr.nodeId, tr.upload.At(k), now);
            && (key in t'.uploads ==> GoodPartial(tr, key, t'.uploads[key]))
            && (r.Complete? ==> GoodJob(tr, Job(r.upload, r.totalBytes, r.sha)))
            && !r.LiveFailed?
  {
    assert Prefix(tr.upload.body, k) + tr.upload.At(k).data == Prefix(tr.upload.body, k + 1);
    assert Prefix(tr.upload.body, 0) == [];
    if k + 1 == tr.upload.Count() {
      PrefixIsWhole(tr.upload.body, k + 1);
    }
  }

  /** Whatever a chunk does, other uploads are kept as they were or dropped, and what
      completes carries the chunk's own node and id. */
  lemma ChunkFrame(t: Table, nodeId: string, chunk: Chunk, now: int)
    requires Filed(t.uploads)
    ensures var (t', r) := Handle(t, nodeId, chunk, now);
            && (forall k :: k in t'.uploads && k != (nodeId, chunk.uploadId) ==>
                  k in t.uploads && t'.uploads[k] == t.uploads[k])
            && Filed(t'.uploads)
            && (r.Complete? ==> r.upload.nodeId == nodeId && r.upload.uploadId == chunk.uploadId)
  {
  }

  lemma ReceiveKeepsInv(c: Config, s: State, nodeId: string, chunk: Chunk, now: int, jobId: nat, k: nat)
    requires Inv(c, s) && chunk.uploadId in s.sends.Keys + s.foreign && jobId !in s.jobs
    requires chunk.uploadId in s.sends ==>
               var tr := s.sends[chunk.uploadId];
               nodeId == tr.nodeId && k < tr.upload.Count() && chunk == tr.upload.At(k)
    ensures Inv(c, Receive(s, nodeId, chunk, now, jobId))
  {
    var (t', r) := Handle(s.table, nodeId, chunk, now);
    ChunkFrame(s.table, nodeId, chunk, now);
    if chunk.uploadId in s.sends {
      HonestChunk(s.sends[chunk.uploadId], s.table, k, now);
    }
    ReceivedKeepsInv(c, s, nodeId, chunk, jobId, t', r);
  }

  /** The bookkeeping around a chunk, given only what is known of its effect. */
  lemma ReceivedKeepsInv(c: Config, s: State, nodeId: string, chunk: Chunk, jobId: nat, t': Table, r: Reaction)
    requires Inv(c, s) && chunk.uploadId in s.sends.Keys + s.foreign && jobId !in s.jobs
    requires Filed(t'.uploads)
    requires forall k :: k in t'.uploads && k != (nodeId, chunk.uploadId) ==> k in s.table.uploads && t'.uploads[k] == s.table.uploads[k]
    requires r.Complete? ==> r.upload.uploadId == chunk.uploadId
    requires chunk.uploadId in s.sends ==>
               var tr := s.sends[chunk.uploadId];
               var key := (nodeId, chunk.uploadId);
               && (key in t'.uploads ==> GoodPartial(tr, key, t'.uploads[key]))
               && (r.Complete? ==> GoodJob(tr, Job(r.upload, r.totalBytes, r.sha)))
    ensures Inv(c, match r
                   case Rejected(_) => s.(table := t', acks := s.acks + {(nodeId, Ack(chunk.uploadId, false))})
                   case Complete(u, total, sha) => s.(table := t', jobs := s.jobs[jobId := Job(u, total, sha)])
                   case _ => s.(table := t'))
  {
    var s1 := s.(table := t');
    assert IdsKnown(s1);
    assert PartialsGood(s1.sends, s1.table.uploads);
    assert Inv(c, s1);
    match r
    case Rejected(_) =>
      AckKeepsInv(c, s1, nodeId, Ack(chunk.uploadId, false));
    case Complete(u, total, sha) =>
      var s2 := s1.(jobs := s.jobs[jobId := Job(u, total, sha)]);
      assert IdsKnown(s2);
      assert JobsGood(s2.sends, s2.jobs);
    case _ =>
  }

  lemma AckKeepsInv(c: Config, s: State, nodeId: string, ack: Ack)
    requires Inv(c, s) && ack.uploadId in s.sends.Keys + s.foreign
    requires ack.stored && ack.uploadId in s.sends ==> ack.uploadId in s.inserted
    ensures Inv(c, s.(acks := s.acks + {(nodeId, ack)}))
  {
    var s' := s.(acks := s.acks + {(nodeId, ack)});
    assert IdsKnown(s');
    TasksFrame(s.sends, s.sends, s.inserted.Keys, s.inserted.Keys, s.acks, s'.acks, s.tasks);
  }

  predicate SameUpload(a: Transmission, b: Transmission) {
    a.nodeId == b.nodeId && a.log == b.log && a.upload == b.upload
  }

  ghost predicate Extends(sends: Sends, sends': Sends) {
    forall id :: id in sends ==> id in sends' && SameUpload(sends[id], sends'[id])
  }

  lemma TasksFrame(sends: Sends, sends': Sends, stored: set<string>, stored': set<string>,
                   acks: set<(string, Ack)>, acks': set<(string, Ack)>, tasks: map<nat, Task>)
    requires TasksGood(sends, stored, acks, tasks)
    requires Extends(sends, sends') && stored <= stored' && acks <= acks'
    ensures TasksGood(sends', stored', acks', tasks)
  {
    forall tid | tid in tasks ensures GoodTask(sends', stored', acks', tasks[tid]) {
      assert GoodTask(sends, stored, acks, tasks[tid]);
    }
  }

  lemma RemovalsFrame(sends: Sends, sends': Sends, stored: set<string>, stored': set<string>, removals: set<Task>)
    requires RemovalsGood(sends, stored, removals)
    requires Extends(sends, sends') && stored <= stored'
    ensures RemovalsGood(sends', stored', removals)
  {
  }

  /** A row inserted for a known upload, good if it is a transmission's. */
  lemma InsertKeepsInv(c: Config, s: State, row: Row, u: Partial)
    requires Inv(c, s) && row.uploadId in s.sends.Keys + s.foreign
    requires row.uploadId in s.sends ==> GoodRow(s.sends[row.uploadId], row)
    ensures Inv(c, s.(rows := s.rows[row.uploadId := row], inserted := s.inserted[row.uploadId := Insertion(row, u)]))
  {
    var s' := s.(rows := s.rows[row.uploadId := row], inserted := s.inserted[row.uploadId := Insertion(row, u)]);
    assert IdsKnown(s');
    assert s'.inserted.Keys == s.inserted.Keys + {row.uploadId};
    TasksFrame(s.sends, s.sends, s.inserted.Keys, s'.inserted.Keys, s.acks, s.acks, s.tasks);
    RemovalsFrame(s.sends, s.sends, s.inserted.Keys, s'.inserted.Keys, s.removals);
  }

  lemma JobsLeft(c: Config, s: State, jobId: nat)
    requires Inv(c, s)
    ensures Inv(c, s.(jobs := s.jobs - {jobId}))
  {
    assert IdsKnown(s.(jobs := s.jobs - {jobId}));
  }

  lemma FinishKeepsInv(c: Config, s: State, jobId: nat, write: Write, instances: map<string, string>)
    requires Inv(c, s) && jobId in s.jobs
    ensures Inv(c, FinishJob(c, s, jobId, write, instances))
  {
    var j := s.jobs[jobId];
    var s1 := s.(jobs := s.jobs - {jobId});
    JobsLeft(c, s, jobId);
    JobIsKnown(c, s, jobId);
    hide Inv, GoodJob, Finished;
    if j.upload.fetchId == "" {
      StoreKeepsInv(c, s1, j, write, instances);
    } else {
      var live := Deliver(s.table.live, j.upload.fetchId, j.upload.nodeId, LiveAnswer(c.codec, j));
      TableOnlyKeepsInv(c, s1, s.table.(live := live));
    }
  }

  lemma JobIsKnown(c: Config, s: State, jobId: nat)
    requires Inv(c, s) && jobId in s.jobs
    ensures var j := s.jobs[jobId];
            && j.upload.uploadId in s.sends.Keys + s.foreign
            && (j.upload.uploadId in s.sends ==> GoodJob(s.sends[j.upload.uploadId], j))
  {
  }

  /** Storing a good job and confirming it. */
  lemma StoreKeepsInv(c: Config, s: State, j: Job, write: Write, instances: map<string, string>)
    requires Inv(c, s) && j.upload.uploadId in s.sends.Keys + s.foreign
    requires j.upload.uploadId in s.sends ==> GoodJob(s.sends[j.upload.uploadId], j)
    ensures var (rows', stored) := Finished(c.codec, s.rows, j, write, instances);
            var id := j.upload.uploadId;
            Inv(c, s.(rows := rows',
                inserted := if id in rows' && id !in s.rows then s.inserted[id := Insertion(rows'[id], j.upload)] else s.inserted,
                acks := s.acks + {(j.upload.nodeId, Ack(id, stored))}))
  {
    var (rows', stored) := Finished(c.codec, s.rows, j, write, instances);
    var id := j.upload.uploadId;
    if id in rows' && id !in s.rows {
      InsertKeepsInv(c, s, rows'[id], j.upload);
      AckKeepsInv(c, s.(rows := rows', inserted := s.inserted[id := Insertion(rows'[id], j.upload)]), j.upload.nodeId, Ack(id, stored));
    } else {
      assert rows' == s.rows;
      AckKeepsInv(c, s, j.upload.nodeId, Ack(id, stored));
    }
  }

  lemma TableOnlyKeepsInv(c: Config, s: State, table: Table)
    requires Inv(c, s) && (table.uploads == s.table.uploads || table.uploads == map[])
    ensures Inv(c, s.(table := table))
  {
    assert IdsKnown(s.(table := table));
  }

  // --- Tasks ---

  /** Replacing a task, whether or not it ends. */
  lemma UpdateKeepsOneArchive(tasks: map<nat, Task>, archiving: set<(string, string)>, tid: nat, t: Task)
    requires tid in tasks && t.nodeId == tasks[tid].nodeId && t.instanceId == tasks[tid].instanceId
    requires t.Active() ==> tasks[tid].Active()
    requires OneArchivePerInstance(tasks, archiving)
    ensures OneArchivePerInstance(
              tasks[tid := t],
              if t.Active() == tasks[tid].Active() then archiving else archiving - {(t.nodeId, t.instanceId)})
  {
    var tasks' := tasks[tid := t];
    var archiving' := if t.Active() == tasks[tid].Active() then archiving else archiving - {(t.nodeId, t.instanceId)};
    forall p | p in archiving' ensures exists i :: i in tasks' && Holds(tasks'[i], p) {
      var i :| i in tasks && Holds(tasks[i], p);
      assert i in tasks' && Holds(tasks'[i], p);
    }
  }

  lemma UpdateKeepsInv(c: Config, s: State, tid: nat, t: Task)
    requires Inv(c, s) && tid in s.tasks
    requires t.nodeId == s.tasks[tid].nodeId && t.instanceId == s.tasks[tid].instanceId
    requires t.Active() ==> s.tasks[tid].Active()
    requires GoodTask(s.sends, s.inserted.Keys, s.acks, t)
    ensures Inv(c, SetTask(s, tid, t))
  {
    UpdateKeepsOneArchive(s.tasks, s.archiving, tid, t);
  }

  lemma BeginKeepsInv(c: Config, s: State, tid: nat, nodeId: string, instanceId: string, caller: Caller)
    requires Inv(c, s) && Enabled(c, s, Begin(tid, nodeId, instanceId, caller))
    ensures Inv(c, Do(c, s, Begin(tid, nodeId, instanceId, caller)))
  {
    var s' := Do(c, s, Begin(tid, nodeId, instanceId, caller));
    forall p | p in s'.archiving ensures exists t :: t in s'.tasks && Holds(s'.tasks[t], p) {
      if p in s.archiving {
        var t :| t in s.tasks && Holds(s.tasks[t], p);
        assert t in s'.tasks && Holds(s'.tasks[t], p);
      } else {
        assert tid in s'.tasks && Holds(s'.tasks[tid], p);
      }
    }
  }

  lemma ExtendSends(c: Config, s: State, id: string, tr: Transmission)
    requires Inv(c, s) && id !in s.foreign && GoodTransmission(c, id, tr)
    requires id in s.sends ==> SameUpload(s.sends[id], tr)
    ensures Inv(c, s.(sends := s.sends[id := tr]))
  {
    var sends' := s.sends[id := tr];
    var s' := s.(sends := sends');
    assert Extends(s.sends, sends');
    assert IdsKnown(s') by {
      assert s.sends.Keys + s.foreign <= sends'.Keys + s.foreign;
    }
    TasksFrame(s.sends, sends', s.inserted.Keys, s.inserted.Keys, s.acks, s.acks, s.tasks);
    RemovalsFrame(s.sends, sends', s.inserted.Keys, s.inserted.Keys, s.removals);
    assert PartialsGood(sends', s.table.uploads);
  }

  lemma ObserveKeepsInv(c: Config, s: State, tid: nat, capture: Capture, uploadId: string, meta: Meta)
    requires Inv(c, s) && Enabled(c, s, Observe(tid, capture, uploadId, meta))
    ensures Inv(c, Do(c, s, Observe(tid, capture, uploadId, meta)))
  {
    var t := s.tasks[tid].(capture := Some(capture));
    match capture
    case NothingToCapture => UpdateKeepsInv(c, s, tid, t.(phase := Over(ArchiveNothing)));
    case CaptureError => UpdateKeepsInv(c, s, tid, t.(phase := Over(ArchiveFailed)));
    case Captured(log) =>
      var gz := c.codec.gzip(log);
      var tr := Transmission(t.nodeId, log, Upload(uploadId, "", meta, gz, c.codec.hash(gz)), 0, 0);
      ExtendSends(c, s, uploadId, tr);
      UpdateKeepsInv(c, s.(sends := s.sends[uploadId := tr]), tid, t.(phase := Sending, uploadId := uploadId, slot := None));
  }

  lemma SentOneMore(c: Config, s: State, id: string)
    requires Inv(c, s) && id in s.sends && s.sends[id].sent < s.sends[id].upload.Count()
    ensures Inv(c, s.(sends := s.sends[id := s.sends[id].(sent := s.sends[id].sent + 1)]))
  {
    assert GoodTransmission(c, id, s.sends[id]);
    ExtendSends(c, s, id, s.sends[id].(sent := s.sends[id].sent + 1));
  }

  lemma PassedOver(c: Config, s: State, id: string, k: nat)
    requires Inv(c, s) && id in s.sends && k < s.sends[id].sent
    ensures Inv(c, s.(sends := s.sends[id := s.sends[id].(next := k + 1)]))
  {
    assert GoodTransmission(c, id, s.sends[id]);
    ExtendSends(c, s, id, s.sends[id].(next := k + 1));
  }

  lemma SendKeepsInv(c: Config, s: State, tid: nat)
    requires Inv(c, s) && Enabled(c, s, SendNext(tid))
    ensures Inv(c, Do(c, s, SendNext(tid)))
  {
    hide Inv;
    var id := s.tasks[tid].uploadId;
    var tr := s.sends[id];
    var s1 := s.(sends := s.sends[id := tr.(sent := tr.sent + 1)]);
    SentOneMore(c, s, id);
    if tr.sent + 1 == tr.upload.Count() {
      PhaseKeepsInv(c, s1, tid, Waiting);
    }
  }

  lemma PhaseKeepsInv(c: Config, s: State, tid: nat, phase: Phase)
    requires Inv(c, s) && tid in s.tasks && s.tasks[tid].Active()
    requires GoodTask(s.sends, s.inserted.Keys, s.acks, s.tasks[tid]) ==>
               GoodTask(s.sends, s.inserted.Keys, s.acks, s.tasks[tid].(phase := phase))
    ensures Inv(c, WithPhase(s, tid, phase))
  {
    assert GoodTask(s.sends, s.inserted.Keys, s.acks, s.tasks[tid]);
    UpdateKeepsInv(c, s, tid, s.tasks[tid].(phase := phase));
  }

  lemma TransmissionId(c: Config, s: State, id: string)
    requires Inv(c, s) && id in s.sends
    ensures s.sends[id].upload.uploadId == id
  {
    assert GoodTransmission(c, id, s.sends[id]);
  }

  lemma ArriveKeepsInv(c: Config, s: State, id: string, k: nat, now: int, jobId: nat)
    requires Inv(c, s) && Enabled(c, s, Arrive(id, k, now, jobId))
    ensures Inv(c, Do(c, s, Arrive(id, k, now, jobId)))
  {
    hide Inv;
    var tr := s.sends[id];
    assert tr.upload.uploadId == id by { TransmissionId(c, s, id); }
    PassedOver(c, s, id, k);
    ReceiveKeepsInv(c, s.(sends := s.sends[id := tr.(next := k + 1)]), tr.nodeId, tr.upload.At(k), now, jobId, k);
  }

  lemma ForeignKeepsInv(c: Config, s: State, nodeId: string, chunk: Chunk, now: int, jobId: nat)
    requires Inv(c, s) && Enabled(c, s, ForeignChunk(nodeId, chunk, now, jobId))
    ensures Inv(c, Do(c, s, ForeignChunk(nodeId, chunk, now, jobId)))
  {
    var s1 := s.(foreign := s.foreign + {chunk.uploadId});
    assert IdsKnown(s1);
    ReceiveKeepsInv(c, s1, nodeId, chunk, now, jobId, 0);
  }

  lemma RestartKeepsOneArchive(s: State, nodeId: string)
    requires OneArchivePerInstance(s.tasks, s.archiving)
    ensures OneArchivePerInstance(Restarted(s, nodeId).tasks, Restarted(s, nodeId).archiving)
  {
    var s' := Restarted(s, nodeId);
    forall p | p in s'.archiving ensures exists t :: t in s'.tasks && Holds(s'.tasks[t], p) {
      var t :| t in s.tasks && Holds(s.tasks[t], p);
      assert t in s'.tasks && Holds(s'.tasks[t], p);
    }
  }

  lemma RestartKeepsTasks(s: State, nodeId: string)
    requires TasksGood(s.sends, s.inserted.Keys, s.acks, s.tasks)
    ensures TasksGood(s.sends, s.inserted.Keys, s.acks, Restarted(s, nodeId).tasks)
  {
    forall tid | tid in s.tasks ensures GoodTask(s.sends, s.inserted.Keys, s.acks, Restarted(s, nodeId).tasks[tid]) {
      assert GoodTask(s.sends, s.inserted.Keys, s.acks, s.tasks[tid]);
    }
  }

  lemma RestartKeepsInv(c: Config, s: State, nodeId: string)
    requires Inv(c, s)
    ensures Inv(c, Restarted(s, nodeId))
  {
    hide OneArchivePerInstance, TasksGood;
    RestartKeepsOneArchive(s, nodeId);
    RestartKeepsTasks(s, nodeId);
  }

  lemma RemoveKeepsInv(c: Config, s: State, tid: nat)
    requires Inv(c, s) && Enabled(c, s, Remove(tid))
    ensures Inv(c, Do(c, s, Remove(tid)))
  {
    var t := s.tasks[tid];
    assert GoodTask(s.sends, s.inserted.Keys, s.acks, t);
    var s1 := s.(removals := s.removals + {t});
    assert RemovalsGood(s1.sends, s1.inserted.Keys, s1.removals);
    UpdateKeepsInv(c, s1, tid, t.(phase := Removed));
  }

  lemma ReadAckKeepsInv(c: Config, s: State, tid: nat)
    requires Inv(c, s) && Enabled(c, s, ReadAck(tid))
    ensures Inv(c, Do(c, s, ReadAck(tid)))
  {
    PhaseKeepsInv(c, s, tid, if s.tasks[tid].slot.value.stored then Over(ArchiveStored) else Over(ArchiveFailed));
  }

  lemma FailKeepsInv(c: Config, s: State, tid: nat)
    requires Inv(c, s) && tid in s.tasks && s.tasks[tid].Active()
    ensures Inv(c, WithPhase(s, tid, Over(ArchiveFailed)))
  {
    hide Inv;
    PhaseKeepsInv(c, s, tid, Over(ArchiveFailed));
  }

  lemma AckArrivesKeepsInv(c: Config, s: State, tid: nat, ack: Ack)
    requires Inv(c, s) && Enabled(c, s, AckArrives(tid, ack))
    ensures Inv(c, Do(c, s, AckArrives(tid, ack)))
  {
    assert GoodTask(s.sends, s.inserted.Keys, s.acks, s.tasks[tid]);
    hide Inv;
    UpdateKeepsInv(c, s, tid, s.tasks[tid].(slot := Put(s.tasks[tid].slot, ack)));
  }

  lemma ExpireKeepsInv(c: Config, s: State, id: string)
    requires Inv(c, s)
    ensures Inv(c, s.(rows := s.rows - {id}))
  {
  }

  lemma DoKeepsInv(c: Config, s: State, step: Step)
    requires Inv(c, s) && Enabled(c, s, step)
    ensures Inv(c, Do(c, s, step))
  {
    hide Inv;
    match step
    case Begin(tid, nodeId, instanceId, caller) => BeginKeepsInv(c, s, tid, nodeId, instanceId, caller);
    case Observe(tid, capture, uploadId, meta) => ObserveKeepsInv(c, s, tid, capture, uploadId, meta);
    case SendNext(tid) => SendKeepsInv(c, s, tid);
    case SendError(tid) => FailKeepsInv(c, s, tid);
    case Arrive(id, k, now, jobId) => ArriveKeepsInv(c, s, id, k, now, jobId);
    case ForeignChunk(nodeId, chunk, now, jobId) => ForeignKeepsInv(c, s, nodeId, chunk, now, jobId);
    case Finish(jobId, write, instances) => FinishKeepsInv(c, s, jobId, write, instances);
    case AckArrives(tid, ack) => AckArrivesKeepsInv(c, s, tid, ack);
    case ReadAck(tid) => ReadAckKeepsInv(c, s, tid);
    case GiveUp(tid) => FailKeepsInv(c, s, tid);
    case Remove(tid) => RemoveKeepsInv(c, s, tid);
    case OpenRequest(fetchId, nodeId) => TableOnlyKeepsInv(c, s, OpenLive(s.table, fetchId, nodeId));
    case CloseRequest(fetchId) => TableOnlyKeepsInv(c, s, CloseLive(s.table, fetchId));
    case Expire(id) => ExpireKeepsInv(c, s, id);
    case AgentRestart(nodeId) => RestartKeepsInv(c, s, nodeId);
    case ServerRestart =>
      JobsGone(c, s);
      TableOnlyKeepsInv(c, s.(jobs := map[]), Table(map[], map[]));
  }

  lemma JobsGone(c: Config, s: State)
    requires Inv(c, s)
    ensures Inv(c, s.(jobs := map[]))
  {
  }

  lemma {:induction false} EveryRunKeepsInv(c: Config, steps: seq<Step>)
    ensures Inv(c, Run(c, INITIAL, steps))
  {
    if steps != [] {
      var s := Run(c, INITIAL, steps[..|steps| - 1]);
      var step := steps[|steps| - 1];
      EveryRunKeepsInv(c, steps[..|steps| - 1]);
      if Enabled(c, s, step) {
        DoKeepsInv(c, s, step);
      }
    }
  }

  // --- What the protocol is for ---

  /** A removal is justified by a capture that found nothing, or by a row with exactly the
      captured log's gzip bytes, inserted for that node under that upload id. */
  predicate Justified(c: Config, s: State, t: Task) {
    || t.capture == Some(NothingToCapture)
    || (&& t.capture.Some? && t.capture.value.Captured?
        && t.uploadId in s.inserted
        && s.inserted[t.uploadId].row.gz == c.codec.gzip(t.capture.value.log)
        && s.inserted[t.uploadId].row.nodeId == t.nodeId)
  }

  /** In every run - chunks lost, late, repeated or reordered, uploads swept, jobs and
      agents lost to restarts, database writes failing before or after they take effect,
      confirmations lost or repeated, rows expiring - each container the archive path
      removed had nothing left to capture, or had its captured log inserted, byte for byte,
      for its own node under its own upload id. */
  lemma NoContainerRemovedWithoutItsLog(c: Config, steps: seq<Step>, t: Task)
    requires t in Run(c, INITIAL, steps).removals
    ensures Justified(c, Run(c, INITIAL, steps), t)
  {
    EveryRunKeepsInv(c, steps);
  }

  /** In every reachable state an instance has at most one archive in progress. */
  lemma AtMostOneArchivePerInstance(c: Config, steps: seq<Step>, a: nat, b: nat)
    requires var tasks := Run(c, INITIAL, steps).tasks;
             && a in tasks && b in tasks && tasks[a].Active() && tasks[b].Active()
             && (tasks[a].nodeId, tasks[a].instanceId) == (tasks[b].nodeId, tasks[b].instanceId)
    ensures a == b
  {
    EveryRunKeepsInv(c, steps);
  }
}
