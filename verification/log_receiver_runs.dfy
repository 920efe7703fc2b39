/** What holds of the upload table over whole runs, whatever the nodes send, and when
    exactly a series interleaved with anything else is put back together. */
module LogReceiverRuns {
  import opened Wire
  import opened LogReceiver

  datatype Event =
    | Deliver(nodeId: string, chunk: Chunk, now: int)
    | Open(fetchId: string, nodeId: string)
    | Close(fetchId: string)

  function Step(t: Table, e: Event): (Table, Reaction) {
    match e
    case Deliver(nodeId, chunk, now) => Handle(t, nodeId, chunk, now)
    case Open(fetchId, nodeId) => (if fetchId in t.live then t else OpenLive(t, fetchId, nodeId), Ignored)
    case Close(fetchId) => (CloseLive(t, fetchId), Ignored)
  }

  function Run(t: Table, es: seq<Event>): Table {
    if es == [] then t else Step(Run(t, es[..|es| - 1]), es[|es| - 1]).0
  }

  predicate For(e: Event, key: Key) {
    e.Deliver? && (e.nodeId, e.chunk.uploadId) == key
  }

  // --- Bounds ---

  /** An upload in the table: filed under its own node and id, within the size limit,
      with no more data than its chunks can have brought. */
  predicate BoundedPartial(k: Key, u: Partial) {
    && u.nodeId == k.0 && u.uploadId == k.1
    && u.next >= 1
    && |u.buf| <= MAX_COMPRESSED
    && |u.buf| <= u.next * CHUNK_SIZE
    && (u.fetchId != "" ==> u.fetchId == u.uploadId)
  }

  ghost predicate Bounded(t: Table) {
    && (forall k :: k in t.uploads ==> BoundedPartial(k, t.uploads[k]))
    && (forall n :: |OfNode(t.uploads, n)| <= MAX_UPLOADS_PER_NODE)
    && |t.live| <= MAX_LIVE
    && (forall n :: |LiveOf(t.live, n)| <= MAX_LIVE_PER_NODE)
  }

  lemma SmallerSet<T>(a: set<T>, b: set<T>)
    requires a <= b
    ensures |a| <= |b|
  {
    assert b == a + (b - a);
  }

  lemma FewerUploads(a: map<Key, Partial>, b: map<Key, Partial>, nodeId: string)
    requires forall k :: k in a ==> k in b && a[k].nodeId == b[k].nodeId
    ensures |OfNode(a, nodeId)| <= |OfNode(b, nodeId)|
  {
    SmallerSet(OfNode(a, nodeId), OfNode(b, nodeId));
  }

  lemma SameLiveOwners(a: map<string, LiveFetch>, b: map<string, LiveFetch>, nodeId: string)
    requires forall f :: f in a ==> f in b && a[f].nodeId == b[f].nodeId
    ensures |LiveOf(a, nodeId)| <= |LiveOf(b, nodeId)|
  {
    SmallerSet(LiveOf(a, nodeId), LiveOf(b, nodeId));
  }

  /** A chunk changes the uploads in one of four ways. */
  lemma HandleUploads(t: Table, nodeId: string, chunk: Chunk, now: int)
    ensures var key := (nodeId, chunk.uploadId);
            var swept := Sweep(t.uploads, now);
            var uploads' := Handle(t, nodeId, chunk, now).0.uploads;
            || uploads' == t.uploads
            || uploads' == swept
            || uploads' == swept - {key}
            || (FaultOf(swept, nodeId, chunk) == NoFault && uploads' == swept[key := Appended(swept, nodeId, chunk, now)])
  {
  }

  lemma HandleKeepsCounts(t: Table, nodeId: string, chunk: Chunk, now: int, n: string)
    requires Bounded(t)
    ensures |OfNode(Handle(t, nodeId, chunk, now).0.uploads, n)| <= MAX_UPLOADS_PER_NODE
  {
    var swept := Sweep(t.uploads, now);
    var uploads' := Handle(t, nodeId, chunk, now).0.uploads;
    var key := (nodeId, chunk.uploadId);
    HandleUploads(t, nodeId, chunk, now);
    hide Handle;
    FewerUploads(swept, t.uploads, n);
    if forall k :: k in uploads' ==> k in t.uploads && uploads'[k].nodeId == t.uploads[k].nodeId {
      FewerUploads(uploads', t.uploads, n);
    } else {
      AddedUpload(swept, key, Appended(swept, nodeId, chunk, now), n);
    }
  }

  lemma AddedUpload(uploads: map<Key, Partial>, key: Key, u: Partial, n: string)
    requires key !in uploads
    ensures |OfNode(uploads[key := u], n)| == |OfNode(uploads, n)| + (if u.nodeId == n then 1 else 0)
  {
    if u.nodeId == n {
      assert OfNode(uploads[key := u], n) == OfNode(uploads, n) + {key};
    } else {
      assert OfNode(uploads[key := u], n) == OfNode(uploads, n);
    }
  }

  lemma HandleKeepsPartials(t: Table, nodeId: string, chunk: Chunk, now: int)
    requires forall k :: k in t.uploads ==> BoundedPartial(k, t.uploads[k])
    ensures forall k :: k in Handle(t, nodeId, chunk, now).0.uploads ==>
                          BoundedPartial(k, Handle(t, nodeId, chunk, now).0.uploads[k])
  {
  }

  lemma HandleKeepsOwners(t: Table, nodeId: string, chunk: Chunk, now: int)
    ensures var live' := Handle(t, nodeId, chunk, now).0.live;
            live'.Keys == t.live.Keys && forall f :: f in live' ==> live'[f].nodeId == t.live[f].nodeId
  {
  }

  lemma HandleKeepsBounds(t: Table, nodeId: string, chunk: Chunk, now: int)
    requires Bounded(t)
    ensures Bounded(Handle(t, nodeId, chunk, now).0)
  {
    hide Handle;
    var t' := Handle(t, nodeId, chunk, now).0;
    HandleKeepsPartials(t, nodeId, chunk, now);
    HandleKeepsOwners(t, nodeId, chunk, now);
    forall n ensures |OfNode(t'.uploads, n)| <= MAX_UPLOADS_PER_NODE && |LiveOf(t'.live, n)| <= MAX_LIVE_PER_NODE {
      HandleKeepsCounts(t, nodeId, chunk, now, n);
      SameLiveOwners(t'.live, t.live, n);
    }
    assert |t'.live| == |t'.live.Keys| == |t.live.Keys| == |t.live|;
  }

  lemma AddedLive(live: map<string, LiveFetch>, fetchId: string, f: LiveFetch, n: string)
    requires fetchId !in live
    ensures |LiveOf(live[fetchId := f], n)| == |LiveOf(live, n)| + (if f.nodeId == n then 1 else 0)
    ensures |live[fetchId := f]| == |live| + 1
  {
    if f.nodeId == n {
      assert LiveOf(live[fetchId := f], n) == LiveOf(live, n) + {fetchId};
    } else {
      assert LiveOf(live[fetchId := f], n) == LiveOf(live, n);
    }
  }

  lemma OpenKeepsBounds(t: Table, fetchId: string, nodeId: string)
    requires Bounded(t) && fetchId !in t.live
    ensures Bounded(OpenLive(t, fetchId, nodeId))
  {
    hide LiveOf;
    var live' := OpenLive(t, fetchId, nodeId).live;
    if LiveAdmitted(t, nodeId) {
      forall n ensures |LiveOf(live', n)| <= MAX_LIVE_PER_NODE && |live'| <= MAX_LIVE {
        AddedLive(t.live, fetchId, LiveFetch(nodeId, None), n);
      }
      AddedLive(t.live, fetchId, LiveFetch(nodeId, None), nodeId);
    }
  }

  lemma CloseKeepsBounds(t: Table, fetchId: string)
    requires Bounded(t)
    ensures Bounded(CloseLive(t, fetchId))
  {
    var t' := CloseLive(t, fetchId);
    SmallerSet(t'.live.Keys, t.live.Keys);
    assert |t'.live| == |t'.live.Keys| && |t.live| == |t.live.Keys|;
    forall n ensures |LiveOf(t'.live, n)| <= MAX_LIVE_PER_NODE {
      SameLiveOwners(t'.live, t.live, n);
    }
  }

  /** In every reachable state: at most 4 unfinished uploads a node, none over 16 MiB, at
      most 8 live requests and 2 a node. */
  lemma {:induction false} EveryRunIsBounded(es: seq<Event>)
    ensures Bounded(Run(Table(map[], map[]), es))
  {
    if es == [] {
      assert forall n :: OfNode(map[], n) == {} && LiveOf(map[], n) == {};
    } else {
      var t := Run(Table(map[], map[]), es[..|es| - 1]);
      EveryRunIsBounded(es[..|es| - 1]);
      match es[|es| - 1]
      case Deliver(nodeId, chunk, now) => HandleKeepsBounds(t, nodeId, chunk, now);
      case Open(fetchId, nodeId) => if fetchId !in t.live { OpenKeepsBounds(t, fetchId, nodeId); }
      case Close(fetchId) => CloseKeepsBounds(t, fetchId);
    }
  }

  // --- A buffer is exactly its chunks, in order ---

  function Gather(es: seq<Event>, idx: seq<nat>): Bytes
    requires forall j :: 0 <= j < |idx| ==> idx[j] < |es| && es[idx[j]].Deliver?
  {
    if idx == [] then [] else Gather(es, idx[..|idx| - 1]) + es[idx[|idx| - 1]].chunk.data
  }

  /** The events at idx are deliveries of k's chunks 0, 1, 2, ..., in the order of the run. */
  ghost predicate ChunksOf(es: seq<Event>, k: Key, idx: seq<nat>) {
    && (forall j :: 0 <= j < |idx| ==> idx[j] < |es| && es[idx[j]].Deliver?)
    && (forall i, j :: 0 <= i < j < |idx| ==> idx[i] < idx[j])
    && (forall j :: 0 <= j < |idx| ==>
          && es[idx[j]].nodeId == k.0
          && es[idx[j]].chunk.uploadId == k.1
          && es[idx[j]].chunk.seqNo == j)
  }

  ghost predicate BuiltFrom(es: seq<Event>, k: Key, u: Partial) {
    exists idx: seq<nat> :: |idx| == u.next && ChunksOf(es, k, idx) && Gather(es, idx) == u.buf
  }

  lemma {:induction false} GatherExtends(es: seq<Event>, e: Event, k: Key, idx: seq<nat>)
    requires ChunksOf(es, k, idx)
    ensures ChunksOf(es + [e], k, idx)
    ensures Gather(es + [e], idx) == Gather(es, idx)
  {
    if idx != [] {
      GatherExtends(es, e, k, idx[..|idx| - 1]);
    }
  }

  lemma BuiltFromExtends(es: seq<Event>, e: Event, k: Key, u: Partial)
    requires BuiltFrom(es, k, u)
    ensures BuiltFrom(es + [e], k, u)
  {
    var idx: seq<nat> :| |idx| == u.next && ChunksOf(es, k, idx) && Gather(es, idx) == u.buf;
    GatherExtends(es, e, k, idx);
  }

  /** One more accepted chunk. */
  lemma BuiltFromAppend(es: seq<Event>, e: Event, k: Key, u: Partial, u': Partial)
    requires (u.next == 0 && u.buf == []) || BuiltFrom(es, k, u)
    requires e.Deliver? && (e.nodeId, e.chunk.uploadId) == k && e.chunk.seqNo == u.next
    requires u'.next == u.next + 1 && u'.buf == u.buf + e.chunk.data
    ensures BuiltFrom(es + [e], k, u')
  {
    var idx: seq<nat> := [];
    if !(u.next == 0 && u.buf == []) {
      idx :| |idx| == u.next && ChunksOf(es, k, idx) && Gather(es, idx) == u.buf;
    }
    GatherExtends(es, e, k, idx);
    ChunkAdded(es, e, k, idx);
    hide ChunksOf, Gather;
    assert |idx + [|es|]| == u'.next;
  }

  lemma ChunkAdded(es: seq<Event>, e: Event, k: Key, idx: seq<nat>)
    requires ChunksOf(es, k, idx) && Gather(es + [e], idx) == Gather(es, idx)
    requires e.Deliver? && (e.nodeId, e.chunk.uploadId) == k && e.chunk.seqNo == |idx|
    ensures ChunksOf(es + [e], k, idx + [|es|])
    ensures Gather(es + [e], idx + [|es|]) == Gather(es, idx) + e.chunk.data
  {
    var idx' := idx + [|es|];
    assert idx'[..|idx|] == idx;
  }

  /** In every reachable state each buffer is the data of chunks 0 to next-1 of that
      upload, each delivered by its own node, in order; nothing else ever gets in. */
  lemma {:induction false} EveryBufferIsItsChunks(es: seq<Event>, k: Key)
    requires k in Run(Table(map[], map[]), es).uploads
    ensures BuiltFrom(es, k, Run(Table(map[], map[]), es).uploads[k])
  {
    var pre, e := es[..|es| - 1], es[|es| - 1];
    var t := Run(Table(map[], map[]), pre);
    var u := Run(Table(map[], map[]), es).uploads[k];
    assert es == pre + [e];
    if k in t.uploads {
      EveryBufferIsItsChunks(pre, k);
    }
    if k in t.uploads && t.uploads[k] == u {
      BuiltFromExtends(pre, e, k, u);
    } else {
      Changed(t, e, k);
      BuiltFromAppend(pre, e, k, if e.chunk.seqNo == 0 then u.(next := 0, buf := []) else t.uploads[k], u);
    }
  }

  /** An upload that a step leaves in the table changed has just taken its next chunk. */
  lemma Changed(t: Table, e: Event, k: Key)
    requires k in Step(t, e).0.uploads && (k in t.uploads ==> t.uploads[k] != Step(t, e).0.uploads[k])
    ensures For(e, k)
    ensures var u := Step(t, e).0.uploads[k];
            if e.chunk.seqNo == 0
            then u.next == 1 && u.buf == e.chunk.data
            else && k in t.uploads && e.chunk.seqNo == t.uploads[k].next
                 && u.next == t.uploads[k].next + 1 && u.buf == t.uploads[k].buf + e.chunk.data
  {
    if e.Deliver? {
      HandleUploads(t, e.nodeId, e.chunk, e.now);
    }
  }

  // --- When an interleaved series is rebuilt ---

  function Before(es: seq<Event>): seq<Event>
    requires es != []
  {
    es[..|es| - 1]
  }

  function Last(es: seq<Event>): Event
    requires es != []
  {
    es[|es| - 1]
  }

  /** How many of key's chunks have been delivered, and when the latest was. */
  function Hits(es: seq<Event>, key: Key): nat {
    if es == [] then 0 else Hits(Before(es), key) + (if For(Last(es), key) then 1 else 0)
  }

  function LastTime(es: seq<Event>, key: Key): int {
    if es == [] then 0 else if For(Last(es), key) then Last(es).now else LastTime(Before(es), key)
  }

  /** es brings u's chunks from nodeId in order, among any other events. */
  ghost predicate Carries(es: seq<Event>, nodeId: string, u: Upload) {
    es != [] ==>
      && Carries(Before(es), nodeId, u)
      && (For(Last(es), (nodeId, u.uploadId)) ==>
            var k := Hits(Before(es), (nodeId, u.uploadId));
            k < u.Count() && Last(es).chunk == u.At(k))
  }

  /** The node has an upload slot free when the first chunk arrives. */
  ghost predicate SlotFree(t: Table, es: seq<Event>, key: Key) {
    es != [] ==>
      && SlotFree(t, Before(es), key)
      && (For(Last(es), key) && Hits(Before(es), key) == 0 ==>
            |OfNode(Sweep(Run(t, Before(es)).uploads, Last(es).now), key.0)| < MAX_UPLOADS_PER_NODE)
  }

  /** No chunk - its own or anyone's - arrives so late that the sweep it sets off finds
      this upload idle. */
  ghost predicate NeverIdle(es: seq<Event>, key: Key) {
    es != [] ==>
      && NeverIdle(Before(es), key)
      && (Last(es).Deliver? && ValidUploadId(Last(es).chunk.uploadId) && Hits(Before(es), key) > 0 ==>
            Last(es).now - LastTime(Before(es), key) <= IDLE_TIMEOUT)
  }

  /** The receiver listens: the upload is for the archive, or whenever one of its chunks arrives its
      live request is still open. */
  ghost predicate HeardOut(t: Table, es: seq<Event>, nodeId: string, u: Upload) {
    u.fetchId != "" && es != [] ==>
      && HeardOut(t, Before(es), nodeId, u)
      && (For(Last(es), (nodeId, u.uploadId)) ==> Awaited(Run(t, Before(es)).live, nodeId, Last(es).chunk))
  }

  ghost predicate Healthy(t: Table, es: seq<Event>, key: Key) {
    SlotFree(t, es, key) && NeverIdle(es, key)
  }

  function Reassembled(nodeId: string, u: Upload, k: nat, at: int): Partial {
    Partial(nodeId, u.uploadId, u.fetchId, u.meta, k, Prefix(u.body, k), at)
  }

  /** The upload after k of its chunks: in the table with exactly their data while alive,
      otherwise gone. */
  ghost predicate TrackedAs(uploads: map<Key, Partial>, nodeId: string, u: Upload, k: nat, alive: bool, at: int) {
    var key := (nodeId, u.uploadId);
    if k > 0 && alive && |Prefix(u.body, k)| <= MAX_COMPRESSED
    then key in uploads && uploads[key] == Reassembled(nodeId, u, k, at)
    else key !in uploads
  }

  /** What a chunk that is heard does to its own upload. */
  lemma OwnChunk(t: Table, nodeId: string, chunk: Chunk, now: int)
    requires ValidUploadId(chunk.uploadId)
    requires chunk.fetchId == "" || (Awaited(t.live, nodeId, chunk) && chunk.error == "")
    ensures var key := (nodeId, chunk.uploadId);
            var swept := Sweep(t.uploads, now);
            var (t', r) := Handle(t, nodeId, chunk, now);
            var fault := FaultOf(swept, nodeId, chunk);
            if fault != NoFault then key !in t'.uploads && r == if chunk.fetchId == "" then Rejected(fault) else LiveFailed(BadReply(fault))
            else if chunk.final then r == Complete(Appended(swept, nodeId, chunk, now), chunk.totalBytes, chunk.sha)
            else key in t'.uploads && t'.uploads[key] == Appended(swept, nodeId, chunk, now)
  {
  }

  /** Any event that is not a chunk of key's upload leaves it alone or sweeps it. */
  lemma OtherEvent(t: Table, e: Event, key: Key)
    requires !For(e, key)
    ensures var uploads' := Step(t, e).0.uploads;
            if key in t.uploads
               && (e.Deliver? && ValidUploadId(e.chunk.uploadId) ==> e.now - t.uploads[key].lastSeen <= IDLE_TIMEOUT)
            then key in uploads' && uploads'[key] == t.uploads[key]
            else key !in uploads'
  {
    if e.Deliver? {
      HandleUploads(t, e.nodeId, e.chunk, e.now);
    }
  }

  lemma FirstChunk(swept: map<Key, Partial>, nodeId: string, u: Upload, now: int)
    requires (nodeId, u.uploadId) !in swept
    ensures FaultOf(swept, nodeId, u.At(0)) == NoFault <==>
              |OfNode(swept, nodeId)| < MAX_UPLOADS_PER_NODE && |Prefix(u.body, 1)| <= MAX_COMPRESSED
    ensures FaultOf(swept, nodeId, u.At(0)) == NoFault ==>
              Appended(swept, nodeId, u.At(0), now) == Reassembled(nodeId, u, 1, now)
  {
    assert Prefix(u.body, 0) + u.At(0).data == Prefix(u.body, 1);
  }

  lemma LaterChunk(swept: map<Key, Partial>, nodeId: string, u: Upload, k: nat, now: int)
    requires 0 < k < u.Count()
    requires (nodeId, u.uploadId) in swept ==>
               swept[(nodeId, u.uploadId)] == Reassembled(nodeId, u, k, swept[(nodeId, u.uploadId)].lastSeen)
    ensures FaultOf(swept, nodeId, u.At(k)) == NoFault <==>
              (nodeId, u.uploadId) in swept && |Prefix(u.body, k + 1)| <= MAX_COMPRESSED
    ensures FaultOf(swept, nodeId, u.At(k)) == NoFault ==>
              Appended(swept, nodeId, u.At(k), now) == Reassembled(nodeId, u, k + 1, now)
  {
    assert Prefix(u.body, k) + u.At(k).data == Prefix(u.body, k + 1);
  }

  /** Whether chunk k is accepted, given whether the upload has lived so far. */
  lemma NextChunk(before: map<Key, Partial>, nodeId: string, u: Upload, k: nat, alive: bool, at: int, now: int)
    requires k < u.Count()
    requires TrackedAs(before, nodeId, u, k, alive, at)
    ensures var swept := Sweep(before, now);
            var still := if k == 0 then |OfNode(swept, nodeId)| < MAX_UPLOADS_PER_NODE
                         else alive && now - at <= IDLE_TIMEOUT;
            if still && |Prefix(u.body, k + 1)| <= MAX_COMPRESSED
            then FaultOf(swept, nodeId, u.At(k)) == NoFault
                 && Appended(swept, nodeId, u.At(k), now) == Reassembled(nodeId, u, k + 1, now)
            else FaultOf(swept, nodeId, u.At(k)) != NoFault
  {
    var swept := Sweep(before, now);
    assert |Prefix(u.body, k)| <= |Prefix(u.body, k + 1)|;
    if k == 0 {
      FirstChunk(swept, nodeId, u, now);
    } else {
      LaterChunk(swept, nodeId, u, k, now);
    }
  }

  lemma {:induction false} HealthyUntilFirst(t: Table, es: seq<Event>, key: Key)
    requires Hits(es, key) == 0
    ensures Healthy(t, es, key)
  {
    if es != [] {
      HealthyUntilFirst(t, Before(es), key);
    }
  }

  /** The state of the upload after any part of the run in which it is not finished. */
  lemma {:induction false} Tracked(t: Table, es: seq<Event>, nodeId: string, u: Upload)
    requires ValidUploadId(u.uploadId) && HeardOut(t, es, nodeId, u)
    requires (nodeId, u.uploadId) !in t.uploads
    requires Carries(es, nodeId, u) && Hits(es, (nodeId, u.uploadId)) < u.Count()
    ensures var key := (nodeId, u.uploadId);
            TrackedAs(Run(t, es).uploads, nodeId, u, Hits(es, key), Healthy(t, es, key), LastTime(es, key))
  {
    if es != [] {
      var key := (nodeId, u.uploadId);
      var pre, e := Before(es), Last(es);
      Tracked(t, pre, nodeId, u);
      if Hits(pre, key) == 0 {
        HealthyUntilFirst(t, pre, key);
      }
      if For(e, key) {
        NextChunk(Run(t, pre).uploads, nodeId, u, Hits(pre, key), Healthy(t, pre, key), LastTime(pre, key), e.now);
        OwnChunk(Run(t, pre), nodeId, e.chunk, e.now);
      } else {
        OtherEvent(Run(t, pre), e, key);
      }
    }
  }

  /** A series delivered whole and in order, interleaved in any way with other nodes' and
      other uploads' chunks and with live requests, is answered by a complete upload - and
      then with exactly the original bytes - if and only if the node had a free slot when
      it began, its size is within the limit, and no sweep found it idle. Otherwise its
      last chunk is rejected, or the live request it is for told that the reply was bad. */
  lemma SeriesIsRebuiltExactlyWhen(t: Table, es: seq<Event>, nodeId: string, u: Upload)
    requires ValidUploadId(u.uploadId) && HeardOut(t, es, nodeId, u)
    requires (nodeId, u.uploadId) !in t.uploads
    requires es != [] && Carries(es, nodeId, u)
    requires For(Last(es), (nodeId, u.uploadId)) && Hits(es, (nodeId, u.uploadId)) == u.Count()
    ensures var r := Step(Run(t, Before(es)), Last(es)).1;
            if SlotFree(t, es, (nodeId, u.uploadId)) && NeverIdle(es, (nodeId, u.uploadId)) && |u.body| <= MAX_COMPRESSED
            then r == Complete(Partial(nodeId, u.uploadId, u.fetchId, u.meta, u.Count(), u.body, Last(es).now), |u.body|, u.sha)
            else if u.fetchId == "" then r.Rejected? else r.LiveFailed? && r.result.BadReply?
  {
    var key := (nodeId, u.uploadId);
    var pre, e := Before(es), Last(es);
    Tracked(t, pre, nodeId, u);
    if Hits(pre, key) == 0 {
      HealthyUntilFirst(t, pre, key);
    }
    NextChunk(Run(t, pre).uploads, nodeId, u, Hits(pre, key), Healthy(t, pre, key), LastTime(pre, key), e.now);
    OwnChunk(Run(t, pre), nodeId, e.chunk, e.now);
    PrefixIsWhole(u.body, u.Count());
  }
}
