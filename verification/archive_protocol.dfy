/** The whole container log archive as a state machine: any number of agents archiving
    any number of instances, a network that drops and delays, and the central app. */
module ArchiveProtocol {
  import opened Wire
  import opened LogSender
  import opened LogReceiver
  import opened ArchiveStore

  /** `ordered` says whether the network keeps one series in order (as a WebSocket does,
      losing chunks at most); without it chunks may also be repeated and reordered. */
  datatype Config = Config(codec: Codec, ordered: bool)

  /** Which caller archives: one that also clears an instance with nothing left to
      capture, or the stale-container cleanup, which does not. */
  datatype Caller = ArchiveAndRemove | RemoveStale

  datatype Phase = Capturing | Sending | Waiting | Over(outcome: Outcome) | Removed | Lost

  datatype Task = Task(nodeId: string, instanceId: string, caller: Caller, phase: Phase,
                       capture: Option<Capture>, uploadId: string, slot: Slot)
  {
    predicate Active() {
      phase in {Capturing, Sending, Waiting}
    }
  }

  /** One upload on the network: what the agent means to send, how many chunks it has
      sent, and the first chunk the network has not yet passed over. */
  datatype Transmission = Transmission(nodeId: string, log: Bytes, upload: Upload, sent: nat, next: nat)

  /** A row as it was inserted, and the upload it came from. */
  datatype Insertion = Insertion(row: Row, upload: Partial)

  datatype State = State(
    table: Table,
    jobs: map<nat, Job>,
    rows: map<string, Row>,
    inserted: map<string, Insertion>, // every row ever inserted, whatever retention does later
    acks: set<(string, Ack)>,     // every confirmation ever sent, and to which node
    tasks: map<nat, Task>,
    archiving: set<(string, string)>,
    sends: map<string, Transmission>,
    foreign: set<string>,         // upload ids anyone else has used
    removals: set<Task>)

  const INITIAL := State(Table(map[], map[]), map[], map[], map[], {}, map[], {}, map[], {}, {})

  datatype Step =
    | Begin(tid: nat, nodeId: string, instanceId: string, caller: Caller)
    | Observe(tid: nat, capture: Capture, uploadId: string, meta: Meta)
    | SendNext(tid: nat)
    | SendError(tid: nat)
    | Arrive(uploadId: string, k: nat, now: int, jobId: nat)
    | ForeignChunk(nodeId: string, chunk: Chunk, now: int, jobId: nat)
    | Finish(jobId: nat, write: Write, instances: map<string, string>)
    | AckArrives(tid: nat, ack: Ack)
    | ReadAck(tid: nat)
    | GiveUp(tid: nat)
    | Remove(tid: nat)
    | OpenRequest(fetchId: string, nodeId: string)
    | CloseRequest(fetchId: string)
    | Expire(uploadId: string)
    | AgentRestart(nodeId: string)
    | ServerRestart

  /** Replaces a task; one that ends gives its instance back. */
  function SetTask(s: State, tid: nat, t: Task): State
    requires tid in s.tasks
  {
    s.(tasks := s.tasks[tid := t],
    archiving := if s.tasks[tid].Active() && !t.Active() then s.archiving - {(t.nodeId, t.instanceId)} else s.archiving)
  }

  function WithPhase(s: State, tid: nat, phase: Phase): State
    requires tid in s.tasks
  {
    SetTask(s, tid, s.tasks[tid].(phase := phase))
  }

  function Observed(c: Config, s: State, tid: nat, capture: Capture, uploadId: string, meta: Meta): State
    requires tid in s.tasks
  {
    var t := s.tasks[tid].(capture := Some(capture));
    match capture
    case NothingToCapture => SetTask(s, tid, t.(phase := Over(ArchiveNothing)))
    case CaptureError => SetTask(s, tid, t.(phase := Over(ArchiveFailed)))
    case Captured(log) =>
      var gz := c.codec.gzip(log);
      var tr := Transmission(t.nodeId, log, Upload(uploadId, "", meta, gz, c.codec.hash(gz)), 0, 0);
      SetTask(s.(sends := s.sends[uploadId := tr]), tid, t.(phase := Sending, uploadId := uploadId, slot := None))
  }

  /** The central app takes one chunk. */
  function Receive(s: State, nodeId: string, chunk: Chunk, now: int, jobId: nat): State {
    var (table', r) := Handle(s.table, nodeId, chunk, now);
    var s' := s.(table := table');
    match r
    case Rejected(_) => s'.(acks := s.acks + {(nodeId, Ack(chunk.uploadId, false))})
    case Complete(u, total, sha) => s'.(jobs := s.jobs[jobId := Job(u, total, sha)])
    case _ => s'
  }

  function FinishJob(c: Config, s: State, jobId: nat, write: Write, instances: map<string, string>): State
    requires jobId in s.jobs
  {
    var j := s.jobs[jobId];
    var s' := s.(jobs := s.jobs - {jobId});
    if j.upload.fetchId != "" then
      s'.(table := s.table.(live := Deliver(s.table.live, j.upload.fetchId, j.upload.nodeId, LiveAnswer(c.codec, j))))
    else
      var (rows', stored) := Finished(c.codec, s.rows, j, write, instances);
      var id := j.upload.uploadId;
      s'.(rows := rows',
      inserted := if id in rows' && id !in s.rows then s.inserted[id := Insertion(rows'[id], j.upload)] else s.inserted,
      acks := s.acks + {(j.upload.nodeId, Ack(id, stored))})
  }

  function Restarted(s: State, nodeId: string): State {
    s.(tasks := map tid | tid in s.tasks ::
                  if s.tasks[tid].nodeId == nodeId && s.tasks[tid].phase != Removed then s.tasks[tid].(phase := Lost)
                  else s.tasks[tid],
    archiving := set p | p in s.archiving && p.0 != nodeId)
  }

  predicate InPhase(s: State, tid: nat, p: Phase) {
    tid in s.tasks && s.tasks[tid].phase == p
  }

  /** When a step can happen. */
  predicate Enabled(c: Config, s: State, step: Step) {
    match step
    case Begin(tid, nodeId, instanceId, _) => tid !in s.tasks && (nodeId, instanceId) !in s.archiving
    case Observe(tid, _, uploadId, _) =>
      InPhase(s, tid, Capturing) && ValidUploadId(uploadId) && uploadId !in s.sends && uploadId !in s.foreign
    case SendNext(tid) =>
      && InPhase(s, tid, Sending) && s.tasks[tid].uploadId in s.sends
      && s.sends[s.tasks[tid].uploadId].sent < s.sends[s.tasks[tid].uploadId].upload.Count()
    case SendError(tid) => InPhase(s, tid, Sending)
    case Arrive(id, k, _, jobId) =>
      && id in s.sends && k < s.sends[id].sent && k < s.sends[id].upload.Count()
      && (c.ordered ==> k >= s.sends[id].next) && jobId !in s.jobs
    case ForeignChunk(_, chunk, _, jobId) => chunk.uploadId !in s.sends && jobId !in s.jobs
    case Finish(jobId, _, _) => jobId in s.jobs
    case AckArrives(tid, ack) =>
      && (InPhase(s, tid, Sending) || InPhase(s, tid, Waiting))
      && (s.tasks[tid].nodeId, ack) in s.acks && ack.uploadId == s.tasks[tid].uploadId
    case ReadAck(tid) => InPhase(s, tid, Waiting) && s.tasks[tid].slot.Some?
    case GiveUp(tid) => InPhase(s, tid, Waiting)
    case Remove(tid) =>
      || InPhase(s, tid, Over(ArchiveStored))
      || (InPhase(s, tid, Over(ArchiveNothing)) && s.tasks[tid].caller == ArchiveAndRemove)
    case OpenRequest(fetchId, _) => fetchId !in s.table.live
    case _ => true
  }

  function Do(c: Config, s: State, step: Step): State
    requires Enabled(c, s, step)
  {
    match step
    case Begin(tid, nodeId, instanceId, caller) =>
      s.(tasks := s.tasks[tid := Task(nodeId, instanceId, caller, Capturing, None, "", None)],
      archiving := s.archiving + {(nodeId, instanceId)})
    case Observe(tid, capture, uploadId, meta) => Observed(c, s, tid, capture, uploadId, meta)
    case SendNext(tid) =>
      var id := s.tasks[tid].uploadId;
      var tr := s.sends[id];
      var s1 := s.(sends := s.sends[id := tr.(sent := tr.sent + 1)]);
      if tr.sent + 1 == tr.upload.Count() then WithPhase(s1, tid, Waiting) else s1
    case SendError(tid) => WithPhase(s, tid, Over(ArchiveFailed))
    case Arrive(id, k, now, jobId) =>
      var tr := s.sends[id];
      Receive(s.(sends := s.sends[id := tr.(next := k + 1)]), tr.nodeId, tr.upload.At(k), now, jobId)
    case ForeignChunk(nodeId, chunk, now, jobId) =>
      Receive(s.(foreign := s.foreign + {chunk.uploadId}), nodeId, chunk, now, jobId)
    case Finish(jobId, write, instances) => FinishJob(c, s, jobId, write, instances)
    case AckArrives(tid, ack) => SetTask(s, tid, s.tasks[tid].(slot := Put(s.tasks[tid].slot, ack)))
    case ReadAck(tid) =>
      WithPhase(s, tid, if s.tasks[tid].slot.value.stored then Over(ArchiveStored) else Over(ArchiveFailed))
    case GiveUp(tid) => WithPhase(s, tid, Over(ArchiveFailed))
    case Remove(tid) =>
      SetTask(s.(removals := s.removals + {s.tasks[tid]}), tid, s.tasks[tid].(phase := Removed))
    case OpenRequest(fetchId, nodeId) => s.(table := OpenLive(s.table, fetchId, nodeId))
    case CloseRequest(fetchId) => s.(table := CloseLive(s.table, fetchId))
    case Expire(id) => s.(rows := s.rows - {id})
    case AgentRestart(nodeId) => Restarted(s, nodeId)
    case ServerRestart => s.(table := Table(map[], map[]), jobs := map[])
  }

  function Apply(c: Config, s: State, step: Step): State {
    if Enabled(c, s, step) then Do(c, s, step) else s
  }

  function Run(c: Config, s: State, steps: seq<Step>): State {
    if steps == [] then s else Apply(c, Run(c, s, steps[..|steps| - 1]), steps[|steps| - 1])
  }
}
