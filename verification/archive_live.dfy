/** Live log requests and the archive share the chunk path but never mix. */
module ArchiveLive {
  import opened Wire
  import opened LogReceiver
  import opened LogSender
  import opened ArchiveStore
  import opened ArchiveProtocol

  /** The log a live request was handed came from its own node, for it. */
  predicate AnswerIsOwn(fetchId: string, f: LiveFetch) {
    f.answer.Some? && f.answer.value.LiveText? ==>
      f.answer.value.upload.fetchId == fetchId && f.answer.value.upload.nodeId == f.nodeId
  }

  /** No stored row came from a live answer, and every live answer is its request's own. */
  ghost predicate Apart(s: State) {
    && (forall id :: id in s.inserted ==> s.inserted[id].upload.fetchId == "")
    && (forall id :: id in s.rows ==> id in s.inserted && s.rows[id] == s.inserted[id].row)
    && (forall f :: f in s.table.live ==> AnswerIsOwn(f, s.table.live[f]))
  }

  lemma HandleKeepsAnswers(t: Table, nodeId: string, chunk: Chunk, now: int)
    requires forall f :: f in t.live ==> AnswerIsOwn(f, t.live[f])
    ensures forall f :: f in Handle(t, nodeId, chunk, now).0.live ==> AnswerIsOwn(f, Handle(t, nodeId, chunk, now).0.live[f])
  {
  }

  lemma ChunkKeepsApart(c: Config, s: State, step: Step)
    requires Apart(s) && Enabled(c, s, step) && (step.Arrive? || step.ForeignChunk?)
    ensures Apart(Do(c, s, step))
  {
    hide Handle, Receive;
    match step
    case Arrive(id, k, now, jobId) =>
      var tr := s.sends[id];
      HandleKeepsAnswers(s.table, tr.nodeId, tr.upload.At(k), now);
      ReceiveKeepsApart(s.(sends := s.sends[id := tr.(next := k + 1)]), tr.nodeId, tr.upload.At(k), now, jobId);
    case ForeignChunk(nodeId, chunk, now, jobId) =>
      HandleKeepsAnswers(s.table, nodeId, chunk, now);
      ReceiveKeepsApart(s.(foreign := s.foreign + {chunk.uploadId}), nodeId, chunk, now, jobId);
  }

  lemma FinishKeepsApart(c: Config, s: State, step: Step)
    requires Apart(s) && Enabled(c, s, step) && step.Finish?
    ensures Apart(Do(c, s, step))
  {
    var j := s.jobs[step.jobId];
    if j.upload.fetchId != "" {
      DeliverKeepsOwn(s.table.live, j.upload.fetchId, j.upload.nodeId, LiveAnswer(c.codec, j));
    }
    hide AnswerIsOwn, Deliver;
  }

  lemma DeliverKeepsOwn(live: map<string, LiveFetch>, fetchId: string, nodeId: string, res: LiveResult)
    requires forall f :: f in live ==> AnswerIsOwn(f, live[f])
    requires res.LiveText? ==> res.upload.fetchId == fetchId && res.upload.nodeId == nodeId
    ensures forall f :: f in Deliver(live, fetchId, nodeId, res) ==> AnswerIsOwn(f, Deliver(live, fetchId, nodeId, res)[f])
  {
  }

  lemma TableStepKeepsApart(c: Config, s: State, step: Step)
    requires Apart(s) && Enabled(c, s, step)
    requires step.OpenRequest? || step.CloseRequest? || step.Expire? || step.ServerRestart?
    ensures Apart(Do(c, s, step))
  {
  }

  lemma TaskStepKeepsApart(c: Config, s: State, step: Step)
    requires Apart(s) && Enabled(c, s, step)
    requires step.Begin? || step.Observe? || step.SendNext? || step.SendError? || step.AckArrives? || step.ReadAck?
             || step.GiveUp? || step.Remove? || step.AgentRestart?
    ensures Apart(Do(c, s, step))
  {
    hide Apart, AnswerIsOwn;
    hide Do, Enabled;
    if step.Begin? || step.SendNext? {
      SendingFrame(c, s, step);
    } else if step.Observe? {
      CaptureFrame(c, s, step);
    } else {
      EndingFrame(c, s, step);
    }
    ApartFrame(s, Do(c, s, step));
  }

  lemma SendingFrame(c: Config, s: State, step: Step)
    requires Enabled(c, s, step) && (step.Begin? || step.SendNext?)
    ensures var s' := Do(c, s, step); s'.table == s.table && s'.rows == s.rows && s'.inserted == s.inserted
  {
  }

  lemma CaptureFrame(c: Config, s: State, step: Step)
    requires Enabled(c, s, step) && step.Observe?
    ensures var s' := Do(c, s, step); s'.table == s.table && s'.rows == s.rows && s'.inserted == s.inserted
  {
    ObservedFrame(c, s, step.tid, step.capture, step.uploadId, step.meta);
    hide Observed;
  }

  lemma ObservedFrame(c: Config, s: State, tid: nat, capture: Capture, uploadId: string, meta: Meta)
    requires tid in s.tasks
    ensures var s' := Observed(c, s, tid, capture, uploadId, meta); s'.table == s.table && s'.rows == s.rows && s'.inserted == s.inserted
  {
  }

  lemma EndingFrame(c: Config, s: State, step: Step)
    requires Enabled(c, s, step) && (step.AckArrives? || step.ReadAck? || step.SendError? || step.GiveUp? || step.Remove? || step.AgentRestart?)
    ensures var s' := Do(c, s, step); s'.table == s.table && s'.rows == s.rows && s'.inserted == s.inserted
  {
  }

  lemma ApartFrame(s: State, s': State)
    requires Apart(s) && s'.table == s.table && s'.rows == s.rows && s'.inserted == s.inserted
    ensures Apart(s')
  {
  }

  lemma DoKeepsApart(c: Config, s: State, step: Step)
    requires Apart(s) && Enabled(c, s, step)
    ensures Apart(Do(c, s, step))
  {
    hide Apart, Do, Enabled;
    if step.Arrive? || step.ForeignChunk? {
      ChunkKeepsApart(c, s, step);
    } else if step.Finish? {
      FinishKeepsApart(c, s, step);
    } else if step.OpenRequest? || step.CloseRequest? || step.Expire? || step.ServerRestart? {
      TableStepKeepsApart(c, s, step);
    } else {
      TaskStepKeepsApart(c, s, step);
    }
  }

  lemma ReceiveKeepsApart(s: State, nodeId: string, chunk: Chunk, now: int, jobId: nat)
    requires Apart(s)
    requires forall f :: f in Handle(s.table, nodeId, chunk, now).0.live ==>
                           AnswerIsOwn(f, Handle(s.table, nodeId, chunk, now).0.live[f])
    ensures Apart(Receive(s, nodeId, chunk, now, jobId))
  {
    hide Handle, AnswerIsOwn, Apart;
    var s' := s.(table := Handle(s.table, nodeId, chunk, now).0);
    TableKeepsApart(s, s'.table);
    ApartFrame(s', Receive(s, nodeId, chunk, now, jobId));
  }

  lemma TableKeepsApart(s: State, table: Table)
    requires Apart(s) && forall f :: f in table.live ==> AnswerIsOwn(f, table.live[f])
    ensures Apart(s.(table := table))
  {
  }

  /** In every run, an upload opened with a fetch id never reaches the archive table, and
      its log is handed only to the request of that id, sent to that node. */
  lemma {:induction false} LiveAndArchiveNeverMix(c: Config, steps: seq<Step>)
    ensures Apart(Run(c, INITIAL, steps))
  {
    if steps != [] {
      var s := Run(c, INITIAL, steps[..|steps| - 1]);
      LiveAndArchiveNeverMix(c, steps[..|steps| - 1]);
      if Enabled(c, s, steps[|steps| - 1]) {
        DoKeepsApart(c, s, steps[|steps| - 1]);
      }
    }
  }
}
