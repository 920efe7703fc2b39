/** When the network keeps each series in order, every confirmation the central app sends
    for one upload says the same, and an upload once dropped is never stored. */
module ArchiveAgreement {
  import opened Wire
  import opened LogSender
  import opened LogReceiver
  import opened ArchiveStore
  import opened ArchiveProtocol
  import ArchiveSafety

  ghost predicate NoJob(jobs: map<nat, Job>, id: string) {
    forall j :: j in jobs ==> jobs[j].upload.uploadId != id
  }

  ghost predicate NoAck(acks: set<(string, Ack)>, id: string) {
    forall a :: a in acks ==> a.1.uploadId != id
  }

  /** Where one transmission stands: untouched, being reassembled, being finished, stored
      or refused, or dropped - and never in two of these at once. */
  ghost predicate Track(tr: Transmission, uploads: map<Key, Partial>, jobs: map<nat, Job>,
                        acks: set<(string, Ack)>, stored: set<string>)
  {
    var id := tr.upload.uploadId;
    var key := (tr.nodeId, id);
    && (key in uploads ==> uploads[key].next == tr.next && NoJob(jobs, id) && NoAck(acks, id))
    && (tr.next == 0 ==> key !in uploads && NoAck(acks, id))
    && (forall a, b :: a in jobs && b in jobs && jobs[a].upload.uploadId == id && jobs[b].upload.uploadId == id ==> a == b)
    && (tr.next < tr.upload.Count() ==> NoJob(jobs, id) && id !in stored)
    && (!NoJob(jobs, id) ==> NoAck(acks, id) && key !in uploads && id !in stored)
    && (forall a :: a in acks && a.1.uploadId == id && a.1.stored ==> tr.next == tr.upload.Count())
    && (forall a, b :: a in acks && b in acks && a.1.uploadId == id && b.1.uploadId == id ==> a.1.stored == b.1.stored)
  }

  ghost predicate Tracked(s: State, id: string) {
    id in s.sends ==> Track(s.sends[id], s.table.uploads, s.jobs, s.acks, s.inserted.Keys)
  }

  ghost predicate AllTracked(s: State) {
    forall id :: id in s.sends ==> Tracked(s, id)
  }

  // --- What one step does to one transmission ---

  /** Enough of s' agrees with s that id stands where it stood, or was swept. */
  lemma TrackFrame(s: State, s': State, id: string)
    requires id in s.sends && id in s'.sends && Tracked(s, id)
    requires s'.sends[id].nodeId == s.sends[id].nodeId && s'.sends[id].upload == s.sends[id].upload
    requires s'.sends[id].upload.uploadId == id && s'.sends[id].next == s.sends[id].next
    requires var key := (s.sends[id].nodeId, id);
             key in s'.table.uploads ==> key in s.table.uploads && s'.table.uploads[key] == s.table.uploads[key]
    requires forall j :: j in s'.jobs && s'.jobs[j].upload.uploadId == id ==> j in s.jobs && s.jobs[j] == s'.jobs[j]
    requires forall a: (string, Ack) :: a.1.uploadId == id ==> (a in s'.acks <==> a in s.acks)
    requires id in s'.inserted <==> id in s.inserted
    ensures Tracked(s', id)
  {
    if !NoJob(s'.jobs, id) {
      assert !NoJob(s.jobs, id);
    }
  }

  /** The effect of chunk k on its own upload. */
  lemma OwnEffect(tr: Transmission, t: Table, k: nat, now: int)
    requires ArchiveSafety.Filed(t.uploads)
    requires ValidUploadId(tr.upload.uploadId) && tr.upload.fetchId == "" && k < tr.upload.Count()
    ensures var key := (tr.nodeId, tr.upload.uploadId);
            var (t', r) := Handle(t, tr.nodeId, tr.upload.At(k), now);
            match r
            case Rejected(_) => key !in t'.uploads
            case Buffered => key in t'.uploads && t'.uploads[key].next == k + 1
            case Complete(u, _, _) => key !in t'.uploads && k + 1 == tr.upload.Count() && u.uploadId == tr.upload.uploadId
            case _ => false
  {
    ArchiveSafety.ChunkFrame(t, tr.nodeId, tr.upload.At(k), now);
  }

  lemma TrackReceived(s: State, id: string, k: nat, jobId: nat, t': Table, r: Reaction)
    requires id in s.sends && Tracked(s, id) && s.sends[id].upload.uploadId == id
    requires s.sends[id].next <= k < s.sends[id].upload.Count()
    requires var key := (s.sends[id].nodeId, id);
             match r
             case Rejected(_) => key !in t'.uploads
             case Buffered => key in t'.uploads && t'.uploads[key].next == k + 1
             case Complete(u, _, _) => key !in t'.uploads && k + 1 == s.sends[id].upload.Count() && u.uploadId == id
             case _ => false
    requires !r.Rejected? ==> NoAck(s.acks, id)
    ensures var s1 := s.(sends := s.sends[id := s.sends[id].(next := k + 1)]);
            Tracked(match r
                    case Rejected(_) => s1.(table := t', acks := s.acks + {(s.sends[id].nodeId, Ack(id, false))})
                    case Complete(u, total, sha) => s1.(table := t', jobs := s.jobs[jobId := Job(u, total, sha)])
                    case _ => s1.(table := t'), id)
  {
  }

  /** The next chunk of a transmission, kept in order. */
  lemma TrackArrive(s: State, id: string, k: nat, now: int, jobId: nat)
    requires id in s.sends && Tracked(s, id) && jobId !in s.jobs
    requires ArchiveSafety.Filed(s.table.uploads)
    requires ValidUploadId(id) && s.sends[id].upload.uploadId == id && s.sends[id].upload.fetchId == ""
    requires s.sends[id].next <= k < s.sends[id].upload.Count()
    ensures var tr := s.sends[id];
            Tracked(Receive(s.(sends := s.sends[id := tr.(next := k + 1)]), tr.nodeId, tr.upload.At(k), now, jobId), id)
  {
    var tr := s.sends[id];
    var (t', r) := Handle(s.table, tr.nodeId, tr.upload.At(k), now);
    OwnEffect(tr, s.table, k, now);
    if !r.Rejected? {
      Unrefused(tr, s.table, k, now);
    }
    TrackReceived(s, id, k, jobId, t', r);
  }

  /** A chunk that is not refused finds its upload in the table, or begins it. */
  lemma Unrefused(tr: Transmission, t: Table, k: nat, now: int)
    requires ValidUploadId(tr.upload.uploadId) && tr.upload.fetchId == "" && k < tr.upload.Count()
    requires !Handle(t, tr.nodeId, tr.upload.At(k), now).1.Rejected?
    ensures k == 0 || (tr.nodeId, tr.upload.uploadId) in t.uploads
  {
  }

  lemma TrackFinish(c: Config, s: State, jobId: nat, write: Write, instances: map<string, string>, id: string)
    requires id in s.sends && Tracked(s, id) && jobId in s.jobs && s.sends[id].upload.uploadId == id
    requires s.sends[id].next <= s.sends[id].upload.Count()
    requires ArchiveSafety.JobsGood(s.sends, s.jobs)
    requires s.rows.Keys <= s.inserted.Keys
    ensures Tracked(FinishJob(c, s, jobId, write, instances), id)
  {
    var j := s.jobs[jobId];
    var s' := FinishJob(c, s, jobId, write, instances);
    if j.upload.uploadId != id {
      TrackFrame(s, s', id);
    } else {
      assert ArchiveSafety.GoodJob(s.sends[id], j);
      assert NoJob(s'.jobs, id);
      assert !NoJob(s.jobs, id);
    }
  }

  /** A chunk of some other upload. */
  lemma TrackOtherChunk(s: State, nodeId: string, chunk: Chunk, now: int, jobId: nat, id: string)
    requires id in s.sends && Tracked(s, id) && id != chunk.uploadId && s.sends[id].upload.uploadId == id
    requires ArchiveSafety.Filed(s.table.uploads)
    ensures Tracked(Receive(s, nodeId, chunk, now, jobId), id)
  {
    ArchiveSafety.ChunkFrame(s.table, nodeId, chunk, now);
    ReceivedElsewhere(s, nodeId, chunk, jobId, id, Handle(s.table, nodeId, chunk, now).0, Handle(s.table, nodeId, chunk, now).1);
  }

  lemma ReceivedElsewhere(s: State, nodeId: string, chunk: Chunk, jobId: nat, id: string, t': Table, r: Reaction)
    requires id in s.sends && Tracked(s, id) && id != chunk.uploadId && s.sends[id].upload.uploadId == id
    requires forall k :: k in t'.uploads && k != (nodeId, chunk.uploadId) ==> k in s.table.uploads && t'.uploads[k] == s.table.uploads[k]
    requires r.Complete? ==> r.upload.uploadId == chunk.uploadId
    ensures Tracked(match r
                    case Rejected(_) => s.(table := t', acks := s.acks + {(nodeId, Ack(chunk.uploadId, false))})
                    case Complete(u, total, sha) => s.(table := t', jobs := s.jobs[jobId := Job(u, total, sha)])
                    case _ => s.(table := t'), id)
  {
  }

  // --- All transmissions, over whole runs ---

  lemma ReceiveSends(s: State, nodeId: string, chunk: Chunk, now: int, jobId: nat)
    ensures Receive(s, nodeId, chunk, now, jobId).sends == s.sends
  {
    hide Handle;
  }

  lemma DoArrive(c: Config, s: State, id: string, k: nat, now: int, jobId: nat)
    requires Enabled(c, s, Arrive(id, k, now, jobId))
    ensures var tr := s.sends[id];
            Do(c, s, Arrive(id, k, now, jobId)) ==
              Receive(s.(sends := s.sends[id := tr.(next := k + 1)]), tr.nodeId, tr.upload.At(k), now, jobId)
  {
    hide Receive;
  }

  lemma AllOfThem(s: State, id: string)
    requires id in s.sends ==> Tracked(s, id)
    requires forall other :: other in s.sends && other != id ==> Tracked(s, other)
    ensures AllTracked(s)
  {
  }

  lemma ArriveKeepsTracks(c: Config, s: State, id: string, k: nat, now: int, jobId: nat)
    requires ArchiveSafety.Inv(c, s) && AllTracked(s) && c.ordered
    requires Enabled(c, s, Arrive(id, k, now, jobId))
    ensures AllTracked(Do(c, s, Arrive(id, k, now, jobId)))
  {
    SendsAreGood(c, s);
    var tr := s.sends[id];
    assert ArchiveSafety.GoodTransmission(c, id, tr);
    assert Tracked(s, id);
    hide Handle, Receive, Tracked, AllTracked, Do, ArchiveSafety.Inv, ArchiveSafety.SendsGood, ArchiveSafety.Filed;
    DoArrive(c, s, id, k, now, jobId);
    TrackArrive(s, id, k, now, jobId);
    ArriveElsewhere(c, s, id, k, now, jobId);
    ReceiveSends(s.(sends := s.sends[id := tr.(next := k + 1)]), tr.nodeId, tr.upload.At(k), now, jobId);
    AllOfThem(Do(c, s, Arrive(id, k, now, jobId)), id);
  }

  /** A chunk leaves every other transmission where it was. */
  lemma OthersTracked(c: Config, s: State, nodeId: string, chunk: Chunk, now: int, jobId: nat)
    requires ArchiveSafety.SendsGood(c, s.sends) && ArchiveSafety.Filed(s.table.uploads)
    requires forall id :: id in s.sends && id != chunk.uploadId ==> Tracked(s, id)
    ensures forall id :: id in s.sends && id != chunk.uploadId ==> Tracked(Receive(s, nodeId, chunk, now, jobId), id)
  {
    hide Handle, Receive, Tracked;
    forall id | id in s.sends && id != chunk.uploadId ensures Tracked(Receive(s, nodeId, chunk, now, jobId), id) {
      assert ArchiveSafety.GoodTransmission(c, id, s.sends[id]);
      TrackOtherChunk(s, nodeId, chunk, now, jobId, id);
    }
  }

  lemma Bumped(c: Config, s: State, id: string, k: nat)
    requires ArchiveSafety.SendsGood(c, s.sends) && AllTracked(s) && id in s.sends && k < s.sends[id].sent
    ensures var s1 := s.(sends := s.sends[id := s.sends[id].(next := k + 1)]);
            && ArchiveSafety.SendsGood(c, s1.sends)
            && forall other :: other in s.sends && other != id ==> Tracked(s1, other)
  {
    var s1 := s.(sends := s.sends[id := s.sends[id].(next := k + 1)]);
    forall other | other in s.sends && other != id ensures Tracked(s1, other) {
      assert Tracked(s, other);
    }
    assert ArchiveSafety.GoodTransmission(c, id, s.sends[id]);
  }

  lemma ArriveElsewhere(c: Config, s: State, id: string, k: nat, now: int, jobId: nat)
    requires ArchiveSafety.SendsGood(c, s.sends) && ArchiveSafety.Filed(s.table.uploads) && AllTracked(s)
    requires Enabled(c, s, Arrive(id, k, now, jobId))
    ensures forall other :: other in s.sends && other != id ==> Tracked(Do(c, s, Arrive(id, k, now, jobId)), other)
  {
    hide Handle, Receive, Tracked;
    var tr := s.sends[id];
    assert ArchiveSafety.GoodTransmission(c, id, tr);
    Bumped(c, s, id, k);
    OthersTracked(c, s.(sends := s.sends[id := tr.(next := k + 1)]), tr.nodeId, tr.upload.At(k), now, jobId);
  }

  lemma ForeignKeepsTracks(c: Config, s: State, nodeId: string, chunk: Chunk, now: int, jobId: nat)
    requires ArchiveSafety.Inv(c, s) && AllTracked(s)
    requires Enabled(c, s, ForeignChunk(nodeId, chunk, now, jobId))
    ensures AllTracked(Do(c, s, ForeignChunk(nodeId, chunk, now, jobId)))
  {
    hide Handle, Receive, ArchiveSafety.Inv;
    var s1 := s.(foreign := s.foreign + {chunk.uploadId});
    SendsAreGood(c, s);
    assert forall id :: id in s.sends ==> Tracked(s, id) && Tracked(s1, id);
    ReceiveSends(s1, nodeId, chunk, now, jobId);
    OthersTracked(c, s1, nodeId, chunk, now, jobId);
  }

  lemma FinishKeepsTracks(c: Config, s: State, jobId: nat, write: Write, instances: map<string, string>)
    requires ArchiveSafety.Inv(c, s) && AllTracked(s) && Enabled(c, s, Finish(jobId, write, instances))
    ensures AllTracked(Do(c, s, Finish(jobId, write, instances)))
  {
    forall id | id in s.sends ensures Tracked(FinishJob(c, s, jobId, write, instances), id) {
      assert ArchiveSafety.GoodTransmission(c, id, s.sends[id]);
      assert Tracked(s, id);
      TrackFinish(c, s, jobId, write, instances, id);
    }
  }

  /** A transmission that has only just begun. */
  lemma FreshTrack(c: Config, s: State, tr: Transmission)
    requires ArchiveSafety.Inv(c, s)
    requires tr.next == 0 && tr.upload.uploadId !in s.sends.Keys + s.foreign
    ensures Track(tr, s.table.uploads, s.jobs, s.acks, s.inserted.Keys)
  {
    assert ArchiveSafety.IdsKnown(s);
  }

  lemma ObserveKeepsTracks(c: Config, s: State, tid: nat, capture: Capture, uploadId: string, meta: Meta)
    requires ArchiveSafety.Inv(c, s) && AllTracked(s)
    requires Enabled(c, s, Observe(tid, capture, uploadId, meta))
    ensures AllTracked(Do(c, s, Observe(tid, capture, uploadId, meta)))
  {
    var s' := Do(c, s, Observe(tid, capture, uploadId, meta));
    forall id | id in s'.sends ensures Tracked(s', id) {
      if id in s.sends {
        assert Tracked(s, id);
      } else {
        FreshTrack(c, s, s'.sends[id]);
      }
    }
  }

  /** What a step that neither brings a chunk, finishes a job nor begins an upload leaves
      alone, or at most drops. */
  ghost predicate QuietEffect(s: State, s': State) {
    && s'.sends.Keys == s.sends.Keys
    && (forall id :: id in s.sends ==>
          && s'.sends[id].nodeId == s.sends[id].nodeId && s'.sends[id].upload == s.sends[id].upload
          && s'.sends[id].next == s.sends[id].next)
    && (forall k :: k in s'.table.uploads ==> k in s.table.uploads && s'.table.uploads[k] == s.table.uploads[k])
    && (forall j :: j in s'.jobs ==> j in s.jobs && s'.jobs[j] == s.jobs[j])
    && s'.acks == s.acks && s'.inserted == s.inserted
  }

  lemma QuietBegin(c: Config, s: State, step: Step)
    requires Enabled(c, s, step) && step.Begin?
    ensures QuietEffect(s, Do(c, s, step))
  {
  }

  lemma QuietSend(c: Config, s: State, step: Step)
    requires Enabled(c, s, step) && step.SendNext?
    ensures QuietEffect(s, Do(c, s, step))
  {
    hide QuietEffect;
    OneMoreSent(s, Do(c, s, step), s.tasks[step.tid].uploadId);
  }

  lemma OneMoreSent(s: State, s': State, id: string)
    requires id in s.sends && s'.sends == s.sends[id := s.sends[id].(sent := s.sends[id].sent + 1)]
    requires s'.table == s.table && s'.jobs == s.jobs && s'.acks == s.acks && s'.inserted == s.inserted
    ensures QuietEffect(s, s')
  {
  }

  lemma QuietError(c: Config, s: State, step: Step)
    requires Enabled(c, s, step) && step.SendError?
    ensures QuietEffect(s, Do(c, s, step))
  {
  }

  lemma QuietAck(c: Config, s: State, step: Step)
    requires Enabled(c, s, step) && step.AckArrives?
    ensures QuietEffect(s, Do(c, s, step))
  {
  }

  lemma QuietRead(c: Config, s: State, step: Step)
    requires Enabled(c, s, step) && step.ReadAck?
    ensures QuietEffect(s, Do(c, s, step))
  {
  }

  lemma QuietGiveUp(c: Config, s: State, step: Step)
    requires Enabled(c, s, step) && step.GiveUp?
    ensures QuietEffect(s, Do(c, s, step))
  {
  }

  lemma QuietRemove(c: Config, s: State, step: Step)
    requires Enabled(c, s, step) && step.Remove?
    ensures QuietEffect(s, Do(c, s, step))
  {
  }

  lemma QuietOpen(c: Config, s: State, step: Step)
    requires Enabled(c, s, step) && step.OpenRequest?
    ensures QuietEffect(s, Do(c, s, step))
  {
  }

  lemma QuietClose(c: Config, s: State, step: Step)
    requires Enabled(c, s, step) && step.CloseRequest?
    ensures QuietEffect(s, Do(c, s, step))
  {
  }

  lemma QuietExpire(c: Config, s: State, step: Step)
    requires Enabled(c, s, step) && step.Expire?
    ensures QuietEffect(s, Do(c, s, step))
  {
  }

  lemma QuietAgentRestart(c: Config, s: State, step: Step)
    requires Enabled(c, s, step) && step.AgentRestart?
    ensures QuietEffect(s, Do(c, s, step))
  {
  }

  lemma QuietServerRestart(c: Config, s: State, step: Step)
    requires Enabled(c, s, step) && step.ServerRestart?
    ensures QuietEffect(s, Do(c, s, step))
  {
  }

  lemma QuietStep(c: Config, s: State, step: Step)
    requires Enabled(c, s, step)
    requires !step.Arrive? && !step.ForeignChunk? && !step.Finish? && !step.Observe?
    ensures QuietEffect(s, Do(c, s, step))
  {
    hide QuietEffect, Do, Enabled;
    match step
    case Begin(_, _, _, _) => QuietBegin(c, s, step);
    case SendNext(_) => QuietSend(c, s, step);
    case SendError(_) => QuietError(c, s, step);
    case AckArrives(_, _) => QuietAck(c, s, step);
    case ReadAck(_) => QuietRead(c, s, step);
    case GiveUp(_) => QuietGiveUp(c, s, step);
    case Remove(_) => QuietRemove(c, s, step);
    case OpenRequest(_, _) => QuietOpen(c, s, step);
    case CloseRequest(_) => QuietClose(c, s, step);
    case Expire(_) => QuietExpire(c, s, step);
    case AgentRestart(_) => QuietAgentRestart(c, s, step);
    case ServerRestart => QuietServerRestart(c, s, step);
  }

  lemma QuietKeepsTracks(c: Config, s: State, s': State)
    requires ArchiveSafety.SendsGood(c, s.sends) && AllTracked(s) && QuietEffect(s, s')
    ensures AllTracked(s')
  {
    forall id | id in s'.sends ensures Tracked(s', id) {
      assert ArchiveSafety.GoodTransmission(c, id, s.sends[id]);
      assert Tracked(s, id);
      TrackFrame(s, s', id);
    }
  }

  lemma DoKeepsTracks(c: Config, s: State, step: Step)
    requires ArchiveSafety.Inv(c, s) && AllTracked(s) && c.ordered && Enabled(c, s, step)
    ensures AllTracked(Do(c, s, step))
  {
    hide ArchiveSafety.Inv, AllTracked, QuietEffect, Do;
    match step
    case Arrive(id, k, now, jobId) => ArriveKeepsTracks(c, s, id, k, now, jobId);
    case ForeignChunk(nodeId, chunk, now, jobId) => ForeignKeepsTracks(c, s, nodeId, chunk, now, jobId);
    case Finish(jobId, write, instances) => FinishKeepsTracks(c, s, jobId, write, instances);
    case Observe(tid, capture, uploadId, meta) => ObserveKeepsTracks(c, s, tid, capture, uploadId, meta);
    case _ =>
      QuietStep(c, s, step);
      SendsAreGood(c, s);
      QuietKeepsTracks(c, s, Do(c, s, step));
  }

  lemma SendsAreGood(c: Config, s: State)
    requires ArchiveSafety.Inv(c, s)
    ensures ArchiveSafety.SendsGood(c, s.sends) && ArchiveSafety.Filed(s.table.uploads)
  {
  }

  lemma {:induction false} EveryRunIsTracked(c: Config, steps: seq<Step>)
    requires c.ordered
    ensures AllTracked(Run(c, INITIAL, steps))
  {
    if steps != [] {
      var s := Run(c, INITIAL, steps[..|steps| - 1]);
      var step := steps[|steps| - 1];
      EveryRunIsTracked(c, steps[..|steps| - 1]);
      ArchiveSafety.EveryRunKeepsInv(c, steps[..|steps| - 1]);
      if Enabled(c, s, step) {
        DoKeepsTracks(c, s, step);
      }
    }
  }

  /** All confirmations the central app ever sends for one upload agree. */
  lemma AllConfirmationsAgree(c: Config, steps: seq<Step>, a: (string, Ack), b: (string, Ack))
    requires c.ordered
    requires var s := Run(c, INITIAL, steps);
             a in s.acks && b in s.acks && a.1.uploadId == b.1.uploadId && a.1.uploadId in s.sends
    ensures a.1.stored == b.1.stored
  {
    var s := Run(c, INITIAL, steps);
    EveryRunIsTracked(c, steps);
    ArchiveSafety.EveryRunKeepsInv(c, steps);
    SendsAreGood(c, s);
    assert ArchiveSafety.GoodTransmission(c, a.1.uploadId, s.sends[a.1.uploadId]);
    assert Tracked(s, a.1.uploadId);
  }

  /** Some of the upload has arrived, but the central app holds none of it any more: it
      was refused, swept, or lost in a restart, and not stored. */
  ghost predicate Dropped(s: State, id: string) {
    && id in s.sends && s.sends[id].next > 0
    && (s.sends[id].nodeId, id) !in s.table.uploads
    && NoJob(s.jobs, id)
    && id !in s.inserted
  }

  /** A chunk that begins no upload for id leaves id dropped. */
  lemma DroppedByChunk(s: State, nodeId: string, chunk: Chunk, now: int, jobId: nat, id: string)
    requires Dropped(s, id) && ArchiveSafety.Filed(s.table.uploads)
    requires chunk.uploadId == id ==> Handle(s.table, nodeId, chunk, now).1.Rejected?
    requires chunk.uploadId == id && nodeId == s.sends[id].nodeId ==>
               (nodeId, id) !in Handle(s.table, nodeId, chunk, now).0.uploads
    ensures Dropped(Receive(s, nodeId, chunk, now, jobId), id)
  {
    ArchiveSafety.ChunkFrame(s.table, nodeId, chunk, now);
    var (t', r) := Handle(s.table, nodeId, chunk, now);
    hide Handle, ArchiveSafety.Filed;
    DroppedByReaction(s, nodeId, chunk, jobId, id, t', r);
  }

  lemma DroppedByReaction(s: State, nodeId: string, chunk: Chunk, jobId: nat, id: string, t': Table, r: Reaction)
    requires Dropped(s, id) && (chunk.uploadId == id ==> r.Rejected?)
    requires chunk.uploadId == id && nodeId == s.sends[id].nodeId ==> (nodeId, id) !in t'.uploads
    requires forall k :: k in t'.uploads && k != (nodeId, chunk.uploadId) ==> k in s.table.uploads
    requires r.Complete? ==> r.upload.uploadId == chunk.uploadId
    ensures Dropped(match r
                    case Rejected(_) => s.(table := t', acks := s.acks + {(nodeId, Ack(chunk.uploadId, false))})
                    case Complete(u, total, sha) => s.(table := t', jobs := s.jobs[jobId := Job(u, total, sha)])
                    case _ => s.(table := t'), id)
  {
  }

  lemma DroppedByArrive(c: Config, s: State, uploadId: string, k: nat, now: int, jobId: nat, id: string)
    requires c.ordered && ArchiveSafety.SendsGood(c, s.sends) && ArchiveSafety.Filed(s.table.uploads)
    requires Dropped(s, id) && Enabled(c, s, Arrive(uploadId, k, now, jobId))
    ensures Dropped(Do(c, s, Arrive(uploadId, k, now, jobId)), id)
  {
    hide Handle, Receive;
    var tr := s.sends[uploadId];
    assert ArchiveSafety.GoodTransmission(c, uploadId, tr);
    if uploadId == id {
      OwnEffect(tr, s.table, k, now);
      if !Handle(s.table, tr.nodeId, tr.upload.At(k), now).1.Rejected? {
        Unrefused(tr, s.table, k, now);
      }
    }
    var s1 := s.(sends := s.sends[uploadId := tr.(next := k + 1)]);
    assert Dropped(s1, id);
    DroppedByChunk(s1, tr.nodeId, tr.upload.At(k), now, jobId, id);
  }

  lemma DroppedQuietly(s: State, s': State, id: string)
    requires Dropped(s, id) && QuietEffect(s, s')
    ensures Dropped(s', id)
  {
  }

  lemma DroppedByForeign(c: Config, s: State, step: Step, id: string)
    requires ArchiveSafety.Filed(s.table.uploads)
    requires Dropped(s, id) && Enabled(c, s, step) && step.ForeignChunk?
    ensures Dropped(Do(c, s, step), id)
  {
    var s1 := s.(foreign := s.foreign + {step.chunk.uploadId});
    assert Dropped(s1, id);
    hide Handle, Receive;
    DroppedByChunk(s1, step.nodeId, step.chunk, step.now, step.jobId, id);
  }

  lemma DroppedByFinish(c: Config, s: State, step: Step, id: string)
    requires Dropped(s, id) && Enabled(c, s, step) && step.Finish?
    ensures Dropped(Do(c, s, step), id)
  {
    assert s.jobs[step.jobId].upload.uploadId != id;
  }

  lemma DroppedByObserve(c: Config, s: State, step: Step, id: string)
    requires Dropped(s, id) && Enabled(c, s, step) && step.Observe?
    ensures Dropped(Do(c, s, step), id)
  {
  }

  lemma DroppedStays(c: Config, s: State, step: Step, id: string)
    requires c.ordered && ArchiveSafety.Inv(c, s) && Dropped(s, id)
    ensures Dropped(Apply(c, s, step), id)
  {
    hide Dropped, Do, QuietEffect, ArchiveSafety.Inv;
    if Enabled(c, s, step) {
      SendsAreGood(c, s);
      match step
      case Arrive(uploadId, k, now, jobId) => DroppedByArrive(c, s, uploadId, k, now, jobId, id);
      case ForeignChunk(_, _, _, _) => DroppedByForeign(c, s, step, id);
      case Finish(_, _, _) => DroppedByFinish(c, s, step, id);
      case Observe(_, _, _, _) => DroppedByObserve(c, s, step, id);
      case _ =>
        QuietStep(c, s, step);
        DroppedQuietly(s, Do(c, s, step), id);
    }
  }

  /** After any refusal or sweep no later chunk of that series can be stored, however the
      run goes on. */
  lemma {:induction false} DroppedIsNeverStored(c: Config, steps: seq<Step>, more: seq<Step>, id: string)
    requires c.ordered && Dropped(Run(c, INITIAL, steps), id)
    ensures Dropped(Run(c, INITIAL, steps + more), id)
  {
    if more == [] {
      assert steps + more == steps;
    } else {
      var before := steps + more[..|more| - 1];
      DroppedIsNeverStored(c, steps, more[..|more| - 1], id);
      ArchiveSafety.EveryRunKeepsInv(c, before);
      assert (steps + more)[..|steps + more| - 1] == before;
      DroppedStays(c, Run(c, INITIAL, before), more[|more| - 1], id);
    }
  }

  // --- What leads there ---

  /** A chunk of a series that is rejected leaves its upload dropped, whichever chunk it is. */
  lemma RejectedIsDropped(c: Config, steps: seq<Step>, id: string, k: nat, now: int, jobId: nat)
    requires c.ordered && Enabled(c, Run(c, INITIAL, steps), Arrive(id, k, now, jobId))
    requires var s := Run(c, INITIAL, steps);
             Handle(s.table, s.sends[id].nodeId, s.sends[id].upload.At(k), now).1.Rejected?
    ensures Dropped(Run(c, INITIAL, steps + [Arrive(id, k, now, jobId)]), id)
  {
    hide Run, Handle, ArchiveSafety.Inv;
    var s, step := Run(c, INITIAL, steps), Arrive(id, k, now, jobId);
    EveryRunIsTracked(c, steps);
    ArchiveSafety.EveryRunKeepsInv(c, steps);
    SendsAreGood(c, s);
    var tr := s.sends[id];
    assert Tracked(s, id);
    assert ArchiveSafety.GoodTransmission(c, id, tr);
    OwnEffect(tr, s.table, k, now);
    OneMoreStep(c, steps, step);
  }

  lemma OneMoreStep(c: Config, steps: seq<Step>, step: Step)
    ensures Run(c, INITIAL, steps + [step]) == Apply(c, Run(c, INITIAL, steps), step)
  {
    assert (steps + [step])[..|steps|] == steps;
  }

  /** An upload begun and not complete that the table no longer holds, after a sweep, a restart or
      a rejection, is dropped. */
  lemma LostIsDropped(c: Config, steps: seq<Step>, id: string)
    requires c.ordered
    requires var s := Run(c, INITIAL, steps);
             id in s.sends && 0 < s.sends[id].next < s.sends[id].upload.Count() && (s.sends[id].nodeId, id) !in s.table.uploads
    ensures Dropped(Run(c, INITIAL, steps), id)
  {
    hide Run;
    var s := Run(c, INITIAL, steps);
    EveryRunIsTracked(c, steps);
    ArchiveSafety.EveryRunKeepsInv(c, steps);
    SendsAreGood(c, s);
    assert ArchiveSafety.GoodTransmission(c, id, s.sends[id]);
    assert Tracked(s, id);
  }

  /** After a sweep or restart took an unfinished upload, or any of its chunks was rejected, it is
      not stored however the run goes on. */
  lemma LostIsNeverStored(c: Config, steps: seq<Step>, more: seq<Step>, id: string)
    requires c.ordered
    requires var s := Run(c, INITIAL, steps);
             && id in s.sends && (s.sends[id].nodeId, id) !in s.table.uploads
             && (|| 0 < s.sends[id].next < s.sends[id].upload.Count()
                 || (steps != [] && steps[|steps| - 1].Arrive? && steps[|steps| - 1].uploadId == id
                     && RejectedAt(c, steps[..|steps| - 1], steps[|steps| - 1])))
    ensures id !in Run(c, INITIAL, steps + more).inserted
  {
    hide Run, Handle;
    var s := Run(c, INITIAL, steps);
    if 0 < s.sends[id].next < s.sends[id].upload.Count() {
      LostIsDropped(c, steps, id);
    } else {
      var step := steps[|steps| - 1];
      assert steps == steps[..|steps| - 1] + [step];
      RejectedIsDropped(c, steps[..|steps| - 1], id, step.k, step.now, step.jobId);
    }
    DroppedIsNeverStored(c, steps, more, id);
  }

  /** The step brings a chunk of an upload that the central app rejects. */
  predicate RejectedAt(c: Config, before: seq<Step>, step: Step) {
    && step.Arrive? && Enabled(c, Run(c, INITIAL, before), step)
    && var s := Run(c, INITIAL, before);
       Handle(s.table, s.sends[step.uploadId].nodeId, s.sends[step.uploadId].upload.At(step.k), step.now).1.Rejected?
  }
}
