/** The central app's reassembly of interleaved chunk series: the table of unfinished
    uploads, the live log requests waiting for an answer, and what one chunk does to them. */
module LogReceiver {
  import opened Wire

  const MAX_COMPRESSED: nat := 16777216 // 16 MiB
  const MAX_UPLOADS_PER_NODE: nat := 4
  const IDLE_TIMEOUT: nat := 120 // seconds
  const MAX_LIVE: nat := 8
  const MAX_LIVE_PER_NODE: nat := 2

  /** An upload is filed under its node and its upload id. */
  type Key = (string, string)

  datatype Partial = Partial(
    nodeId: string, uploadId: string, fetchId: string, meta: Meta,
    next: nat, buf: Bytes, lastSeen: int)

  /** Why a chunk breaks its upload's rules. */
  datatype Fault =
    | NoFault
    | UploadRestarted
    | NoDescription
    | TooManyUploads
    | UnknownUpload
    | OutOfOrder
    | LogTooLarge
    | ChunkTooLarge

  /** What a waiting live request is handed: the node's log, the node's own reason for
      having none, or that the reply was not valid. */
  datatype LiveResult = LiveText(upload: Partial, text: Bytes) | AgentError(message: string) | BadReply(fault: Fault) | Damaged

  /** A live request: the node it was sent to and its one-slot answer channel. */
  datatype LiveFetch = LiveFetch(nodeId: string, answer: Option<LiveResult>)

  datatype Table = Table(uploads: map<Key, Partial>, live: map<string, LiveFetch>)

  /** What follows a chunk once the table's lock is released. */
  datatype Reaction =
    | Ignored
    | Buffered
    | Rejected(fault: Fault)          // answered with a not-stored confirmation
    | LiveFailed(result: LiveResult)  // handed to the live request
    | Complete(upload: Partial, totalBytes: int, sha: string)

  predicate IdChar(c: char) {
    'A' <= c <= 'Z' || 'a' <= c <= 'z' || '0' <= c <= '9' || c == '_' || c == '-'
  }

  predicate ValidUploadId(id: string) {
    8 <= |id| <= 64 && forall i :: 0 <= i < |id| ==> IdChar(id[i])
  }

  // --- Specification of the table's operations ---

  function Sweep(uploads: map<Key, Partial>, now: int): map<Key, Partial> {
    map k | k in uploads && uploads[k].lastSeen >= now - IDLE_TIMEOUT :: uploads[k]
  }

  function OfNode(uploads: map<Key, Partial>, nodeId: string): set<Key> {
    set k | k in uploads && uploads[k].nodeId == nodeId
  }

  function LiveOf(live: map<string, LiveFetch>, nodeId: string): set<string> {
    set f | f in live && live[f].nodeId == nodeId
  }

  lemma OneMoreUpload(uploads: map<Key, Partial>, k: Key, nodeId: string)
    requires k in uploads
    ensures |OfNode(uploads, nodeId)| == |OfNode(uploads - {k}, nodeId)| + if uploads[k].nodeId == nodeId then 1 else 0
  {
    assert OfNode(uploads, nodeId) == OfNode(uploads - {k}, nodeId) + if uploads[k].nodeId == nodeId then {k} else {};
  }

  lemma OneMoreLive(live: map<string, LiveFetch>, f: string, nodeId: string)
    requires f in live
    ensures |LiveOf(live, nodeId)| == |LiveOf(live - {f}, nodeId)| + if live[f].nodeId == nodeId then 1 else 0
  {
    assert LiveOf(live, nodeId) == LiveOf(live - {f}, nodeId) + if live[f].nodeId == nodeId then {f} else {};
  }

  function Deliver(live: map<string, LiveFetch>, fetchId: string, nodeId: string,
      res: LiveResult): map<string, LiveFetch> {
    if fetchId in live && live[fetchId].nodeId == nodeId && live[fetchId].answer == None
    then live[fetchId := live[fetchId].(answer := Some(res))]
    else live
  }

  /** Whether someone is still waiting for this live answer from this node. */
  predicate Awaited(live: map<string, LiveFetch>, nodeId: string, chunk: Chunk) {
    && chunk.fetchId in live
    && live[chunk.fetchId].nodeId == nodeId
    && chunk.uploadId == chunk.fetchId
  }

  function FaultOf(uploads: map<Key, Partial>, nodeId: string, chunk: Chunk): Fault {
    var key := (nodeId, chunk.uploadId);
    var have := if key in uploads then |uploads[key].buf| else 0;
    if chunk.seqNo == 0 && key in uploads then UploadRestarted
    else if chunk.seqNo == 0 && chunk.meta == None then NoDescription
    else if chunk.seqNo == 0 && |OfNode(uploads, nodeId)| >= MAX_UPLOADS_PER_NODE then TooManyUploads
    else if chunk.seqNo != 0 && key !in uploads then UnknownUpload
    else if chunk.seqNo != 0 && chunk.seqNo != uploads[key].next then OutOfOrder
    else if have + |chunk.data| > MAX_COMPRESSED then LogTooLarge
    else if |chunk.data| > CHUNK_SIZE then ChunkTooLarge
    else NoFault
  }

  function Appended(uploads: map<Key, Partial>, nodeId: string, chunk: Chunk, now: int): Partial
    requires FaultOf(uploads, nodeId, chunk) == NoFault
  {
    var key := (nodeId, chunk.uploadId);
    var u := if key in uploads then uploads[key]
             else Partial(nodeId, chunk.uploadId, chunk.fetchId, chunk.meta.value, 0, [], now);
    u.(buf := u.buf + chunk.data, next := u.next + 1, lastSeen := now)
  }

  function Accept(t: Table, nodeId: string, chunk: Chunk, now: int): (Table, Reaction) {
    var key := (nodeId, chunk.uploadId);
    var fault := FaultOf(t.uploads, nodeId, chunk);
    if fault != NoFault then
      var t' := t.(uploads := t.uploads - {key});
      if chunk.fetchId != "" then
        (t'.(live := Deliver(t.live, chunk.fetchId, nodeId, BadReply(fault))), LiveFailed(BadReply(fault)))
      else
        (t', Rejected(fault))
    else
      var u := Appended(t.uploads, nodeId, chunk, now);
      if chunk.final then (t.(uploads := t.uploads - {key}), Complete(u, chunk.totalBytes, chunk.sha))
      else (t.(uploads := t.uploads[key := u]), Buffered)
  }

  function Handle(t: Table, nodeId: string, chunk: Chunk, now: int): (Table, Reaction) {
    if !ValidUploadId(chunk.uploadId) then (t, Ignored)
    else
      var swept := t.(uploads := Sweep(t.uploads, now));
      if chunk.fetchId != "" && !Awaited(t.live, nodeId, chunk) then (swept, Ignored)
      else if chunk.fetchId != "" && chunk.error != "" then
        (swept.(live := Deliver(t.live, chunk.fetchId, nodeId, AgentError(chunk.error))), LiveFailed(AgentError(chunk.error)))
      else Accept(swept, nodeId, chunk, now)
  }

  /** A live request is admitted only under both limits. */
  predicate LiveAdmitted(t: Table, nodeId: string) {
    |t.live| < MAX_LIVE && |LiveOf(t.live, nodeId)| < MAX_LIVE_PER_NODE
  }

  function OpenLive(t: Table, fetchId: string, nodeId: string): Table {
    if LiveAdmitted(t, nodeId) then t.(live := t.live[fetchId := LiveFetch(nodeId, None)]) else t
  }

  function CloseLive(t: Table, fetchId: string): Table {
    t.(live := t.live - {fetchId})
  }

  /** What becomes of a chunk for a live request. One for nobody, and one that carries the agent's
      own error, touches no upload but by the sweep; the error is handed to the request. */
  lemma LiveChunk(t: Table, nodeId: string, chunk: Chunk, now: int)
    requires ValidUploadId(chunk.uploadId) && chunk.fetchId != ""
    ensures var (t', r) := Handle(t, nodeId, chunk, now);
            var asked := chunk.fetchId in t.live && t.live[chunk.fetchId].nodeId == nodeId && chunk.uploadId == chunk.fetchId;
            && (!asked <==> r == Ignored)
            && (!asked ==> t'.live == t.live)
            && (!asked || chunk.error != "" ==>
                  forall k :: k in t'.uploads <==> k in t.uploads && now - t.uploads[k].lastSeen <= 120)
            && (!asked || chunk.error != "" ==> forall k :: k in t'.uploads ==> t'.uploads[k] == t.uploads[k])
            && (asked && chunk.error != "" <==> r == LiveFailed(AgentError(chunk.error)))
  {
  }

  /** Who learns of a chunk that ends in failure: the agent for the archive, whose upload is gone;
      else its live request and no other, unless it has its answer. */
  lemma FailureIsTold(t: Table, nodeId: string, chunk: Chunk, now: int)
    ensures var (t', r) := Handle(t, nodeId, chunk, now);
            && t'.live.Keys == t.live.Keys
            && (forall f :: f in t.live && (f != chunk.fetchId || !r.LiveFailed?) ==> t'.live[f] == t.live[f])
            && (r.LiveFailed? ==> chunk.fetchId in t.live && t.live[chunk.fetchId].nodeId == nodeId && t'.live[chunk.fetchId].nodeId == nodeId
                                  && t'.live[chunk.fetchId].answer == if t.live[chunk.fetchId].answer == None then Some(r.result) else t.live[chunk.fetchId].answer)
            && (r.Rejected? ==> chunk.fetchId == "" && (nodeId, chunk.uploadId) !in t'.uploads)
            && (!ValidUploadId(chunk.uploadId) ==> r == Ignored && t' == t)
  {
  }

  // --- The service ---

  class Service {
    var uploads: map<Key, Partial>
    var live: map<string, LiveFetch>

    constructor ()
      ensures State() == Table(map[], map[])
    {
      uploads, live := map[], map[];
    }

    function State(): Table
      reads this
    {
      Table(uploads, live)
    }

    method SweepLocked(now: int)
      modifies this`uploads
      ensures uploads == Sweep(old(uploads), now)
    {
      var todo := uploads.Keys;
      while todo != {}
        invariant todo <= old(uploads).Keys
        invariant uploads == map k | k in old(uploads) &&
                                     (k in todo || old(uploads)[k].lastSeen >= now - IDLE_TIMEOUT) :: old(uploads)[k]
        decreases todo
      {
        var k :| k in todo;
        todo := todo - {k};
        if uploads[k].lastSeen < now - IDLE_TIMEOUT {
          uploads := uploads - {k};
        }
      }
    }

    method CountForNodeLocked(nodeId: string) returns (n: nat)
      ensures n == |OfNode(uploads, nodeId)|
    {
      n := 0;
      var todo := uploads.Keys;
      ghost var left := uploads;
      while todo != {}
        invariant todo == left.Keys && (forall k :: k in left ==> k in uploads && left[k] == uploads[k])
        invariant n + |OfNode(left, nodeId)| == |OfNode(uploads, nodeId)|
        decreases todo
      {
        hide OfNode;
        var k :| k in todo;
        todo := todo - {k};
        OneMoreUpload(left, k, nodeId);
        left := left - {k};
        if uploads[k].nodeId == nodeId {
          n := n + 1;
        }
      }
      assert OfNode(left, nodeId) == {};
    }

    method DeliverLive(fetchId: string, nodeId: string, res: LiveResult)
      modifies this`live
      ensures live == Deliver(old(live), fetchId, nodeId, res)
    {
      if fetchId !in live || live[fetchId].nodeId != nodeId {
        return;
      }
      if live[fetchId].answer == None {
        live := live[fetchId := live[fetchId].(answer := Some(res))];
      }
    }

    method HandleChunk(nodeId: string, chunk: Chunk, now: int) returns (r: Reaction)
      modifies this
      ensures (State(), r) == Handle(old(State()), nodeId, chunk, now)
    {
      if !ValidUploadId(chunk.uploadId) {
        return Ignored;
      }
      var key := (nodeId, chunk.uploadId);
      SweepLocked(now);
      if chunk.fetchId != "" {
        if chunk.fetchId !in live || live[chunk.fetchId].nodeId != nodeId || chunk.uploadId != chunk.fetchId {
          return Ignored;
        }
        if chunk.error != "" {
          DeliverLive(chunk.fetchId, nodeId, AgentError(chunk.error));
          return LiveFailed(AgentError(chunk.error));
        }
      }
      ghost var swept := uploads;
      var reject := NoFault;
      if chunk.seqNo == 0 {
        if key in uploads {
          reject := UploadRestarted;
        } else if chunk.meta == None {
          reject := NoDescription;
        } else {
          var n := CountForNodeLocked(nodeId);
          if n >= MAX_UPLOADS_PER_NODE {
            reject := TooManyUploads;
          } else {
            uploads := uploads[key := Partial(nodeId, chunk.uploadId, chunk.fetchId, chunk.meta.value, 0, [], now)];
          }
        }
      } else if key !in uploads {
        reject := UnknownUpload;
      } else if chunk.seqNo != uploads[key].next {
        reject := OutOfOrder;
      }
      if reject == NoFault && |uploads[key].buf| + |chunk.data| > MAX_COMPRESSED {
        reject := LogTooLarge;
      }
      if reject == NoFault && |chunk.data| > CHUNK_SIZE {
        reject := ChunkTooLarge;
      }
      assert reject == FaultOf(swept, nodeId, chunk);
      if reject != NoFault {
        uploads := uploads - {key};
        assert uploads == swept - {key};
        if chunk.fetchId != "" {
          DeliverLive(chunk.fetchId, nodeId, BadReply(reject));
          return LiveFailed(BadReply(reject));
        }
        return Rejected(reject);
      }
      var u := uploads[key];
      u := u.(buf := u.buf + chunk.data, next := u.next + 1, lastSeen := now);
      uploads := uploads[key := u];
      assert u == Appended(swept, nodeId, chunk, now);
      if !chunk.final {
        assert uploads == swept[key := u];
        return Buffered;
      }
      uploads := uploads - {key};
      assert uploads == swept - {key};
      r := Complete(u, chunk.totalBytes, chunk.sha);
    }

    /** Admits a live request, or reports that too many are in flight. */
    method BeginLive(fetchId: string, nodeId: string) returns (ok: bool)
      requires fetchId !in live
      modifies this`live
      ensures ok <==> |old(live)| < 8 && |set f | f in old(live) && old(live)[f].nodeId == nodeId| < 2
      ensures live == if ok then old(live)[fetchId := LiveFetch(nodeId, None)] else old(live)
      ensures State() == OpenLive(old(State()), fetchId, nodeId)
    {
      var perNode := 0;
      var todo := live.Keys;
      ghost var all, left := live, live;
      while todo != {}
        invariant live == all && todo == left.Keys && (forall f :: f in left ==> f in all && left[f] == all[f])
        invariant perNode + |LiveOf(left, nodeId)| == |LiveOf(all, nodeId)|
        decreases todo
      {
        hide LiveOf;
        var f :| f in todo;
        todo := todo - {f};
        OneMoreLive(left, f, nodeId);
        left := left - {f};
        if live[f].nodeId == nodeId {
          perNode := perNode + 1;
        }
      }
      assert LiveOf(left, nodeId) == {};
      hide LiveOf;
      if |live| >= MAX_LIVE || perNode >= MAX_LIVE_PER_NODE {
        return false;
      }
      live := live[fetchId := LiveFetch(nodeId, None)];
      ok := true;
    }

    method EndLive(fetchId: string)
      modifies this`live
      ensures State() == CloseLive(old(State()), fetchId)
    {
      live := live - {fetchId};
    }
  }

  lemma NoSlashAfterNode(nodeId: string, id: string, k: nat)
    requires ValidUploadId(id) && |nodeId| < k < |nodeId| + 1 + |id|
    ensures (nodeId + "/" + id)[k] != '/'
  {
    assert (nodeId + "/" + id)[k] == id[k - |nodeId| - 1];
  }

  /** The running program files an upload under one piece of text, node + "/" + id. For
      ids of the accepted form two different uploads never share that text. */
  lemma KeyTextIsInjective(n1: string, id1: string, n2: string, id2: string)
    requires ValidUploadId(id1) && ValidUploadId(id2)
    requires n1 + "/" + id1 == n2 + "/" + id2
    ensures n1 == n2 && id1 == id2
  {
    var s := n1 + "/" + id1;
    assert s[|n1|] == '/';
    assert (n2 + "/" + id2)[|n2|] == '/';
    assert |n2| <= |n1| by {
      if |n2| > |n1| { NoSlashAfterNode(n1, id1, |n2|); }
    }
    assert |n1| <= |n2| by {
      if |n1| > |n2| { NoSlashAfterNode(n2, id2, |n1|); }
    }
    assert n1 == s[..|n1|] && n2 == s[..|n2|];
    assert id1 == s[|n1| + 1..] && id2 == s[|n2| + 1..];
  }
}
