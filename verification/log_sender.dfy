/** The agent's side of the container log archive: one archive per instance at a time,
    one-slot channels for confirmations, the chunk loop, and the outcome that decides
    whether a container may be removed. */
module LogSender {
  import opened Wire

  datatype Outcome = ArchiveStored | ArchiveNothing | ArchiveFailed | ArchiveBusy

  /** What the runtime answers a capture with. */
  datatype Capture = NothingToCapture | CaptureError | Captured(log: Bytes)

  /** A one-slot channel: only the first confirmation put in is kept. */
  type Slot = Option<Ack>

  function Put(slot: Slot, ack: Ack): Slot {
    if slot == None then Some(ack) else slot
  }

  /** How the wait for a confirmation ended. */
  datatype Wait = Confirmed | TimedOut | Cancelled

  class Conn {
    var archiving: set<string>
    var waiters: map<string, Slot>
    var wire: seq<Chunk>

    constructor ()
      ensures archiving == {} && waiters == map[] && wire == []
    {
      archiving, waiters, wire := {}, map[], [];
    }

    method BeginArchive(instanceId: string) returns (ok: bool)
      modifies this`archiving
      ensures ok <==> instanceId !in old(archiving)
      ensures archiving == old(archiving) + {instanceId}
    {
      if instanceId in archiving {
        return false;
      }
      archiving := archiving + {instanceId};
      ok := true;
    }

    method EndArchive(instanceId: string)
      modifies this`archiving
      ensures archiving == old(archiving) - {instanceId}
    {
      archiving := archiving - {instanceId};
    }

    method RegisterArchiveWait(uploadId: string)
      modifies this`waiters
      ensures waiters == old(waiters)[uploadId := None]
    {
      waiters := waiters[uploadId := None];
    }

    method UnregisterArchiveWait(uploadId: string)
      modifies this`waiters
      ensures waiters == old(waiters) - {uploadId}
    {
      waiters := waiters - {uploadId};
    }

    /** Never blocks: a confirmation nobody waits for, and every one after the first, is
        dropped. */
    method DeliverArchiveAck(ack: Ack)
      modifies this`waiters
      ensures waiters.Keys == old(waiters).Keys
      ensures forall id :: id in waiters && id != ack.uploadId ==> waiters[id] == old(waiters)[id]
      ensures ack.uploadId in waiters ==>
                waiters[ack.uploadId] == Put(old(waiters)[ack.uploadId], ack)
    {
      if ack.uploadId !in waiters {
        return;
      }
      if waiters[ack.uploadId] == None {
        waiters := waiters[ack.uploadId := Some(ack)];
      }
    }

    /** Writes u's series to the wire in order. `sendOk(k)` says whether the k-th write
        goes through; the first one that does not ends the loop. */
    method SendLogChunks(u: Upload, sendOk: nat -> bool) returns (ok: bool)
      modifies this`wire
      ensures ok <==> forall k: nat :: k < u.Count() ==> sendOk(k)
      ensures ok ==> wire == old(wire) + u.Series()
      ensures !ok ==> exists k: nat :: k < u.Count() && !sendOk(k) && wire == old(wire) + u.Series()[..k]
    {
      var seqNo, off := 0, 0;
      while true
        invariant 0 <= seqNo < u.Count() && off == seqNo * CHUNK_SIZE
        invariant wire == old(wire) + u.Series()[..seqNo]
        invariant forall k :: 0 <= k < seqNo ==> sendOk(k)
        decreases u.Count() - seqNo
      {
        var end := off + CHUNK_SIZE;
        if end > |u.body| {
          end := |u.body|;
        }
        var chunk := Chunk(u.uploadId, u.fetchId, seqNo, u.body[off..end], None, false, 0, "", "");
        if seqNo == 0 {
          chunk := chunk.(meta := Some(u.meta));
        }
        var last := end == |u.body|;
        if last {
          chunk := chunk.(final := true, totalBytes := |u.body|, sha := u.sha);
        }
        assert chunk == u.Series()[seqNo];
        if !sendOk(seqNo) {
          return false;
        }
        assert u.Series()[..seqNo] + [chunk] == u.Series()[..seqNo + 1];
        wire := wire + [chunk];
        if last {
          assert u.Series()[..seqNo + 1] == u.Series();
          return true;
        }
        seqNo, off := seqNo + 1, end;
      }
    }

    /** One archive attempt. The environment's choices are its arguments: what the capture
        returned, which writes went through, and the confirmation (if any) that arrives
        before `wait` ends. Whatever happens, the instance and the waiter are given back. */
    method ArchiveInstanceLines(
      instanceId: string, capture: Capture, u: Upload, sendOk: nat -> bool, arrives: Slot, wait: Wait)
      returns (outcome: Outcome)
      requires u.fetchId == ""
      requires u.uploadId !in waiters
      requires arrives.Some? ==> arrives.value.uploadId == u.uploadId
      requires wait == Confirmed ==> arrives.Some?
      modifies this
      ensures archiving == old(archiving) && waiters == old(waiters)
      ensures outcome == ArchiveBusy <==> instanceId in old(archiving)
      ensures outcome == ArchiveNothing <==> instanceId !in old(archiving) && capture == NothingToCapture
      ensures outcome == ArchiveStored <==>
                && instanceId !in old(archiving) && capture.Captured?
                && (forall k: nat :: k < u.Count() ==> sendOk(k))
                && wait == Confirmed && arrives.value.stored
      ensures outcome == ArchiveStored ==> wire == old(wire) + u.Series()
      ensures outcome in {ArchiveBusy, ArchiveNothing} || !capture.Captured? ==> wire == old(wire)
      ensures exists k: nat :: k <= u.Count() && wire == old(wire) + u.Series()[..k]
    {
      assert u.Series()[..0] == [] && u.Series()[..u.Count()] == u.Series();
      assert wire == old(wire) + u.Series()[..0];
      var begun := BeginArchive(instanceId);
      if !begun {
        return ArchiveBusy;
      }
      outcome := ArchiveFailed;
      if capture == NothingToCapture {
        outcome := ArchiveNothing;
      } else if capture.Captured? {
        RegisterArchiveWait(u.uploadId);
        var sent := SendLogChunks(u, sendOk);
        if sent {
          if arrives.Some? {
            DeliverArchiveAck(arrives.value);
          }
          if wait == Confirmed && waiters[u.uploadId].value.stored {
            outcome := ArchiveStored;
          }
        }
        UnregisterArchiveWait(u.uploadId);
      }
      EndArchive(instanceId);
    }
  }

  /** Of any confirmations delivered to a waiting archive, it reads the first. */
  function PutAll(slot: Slot, acks: seq<Ack>): Slot
    decreases acks
  {
    if acks == [] then slot else PutAll(Put(slot, acks[0]), acks[1..])
  }

  lemma {:induction false} FirstAckWins(acks: seq<Ack>)
    requires acks != []
    ensures PutAll(None, acks) == Some(acks[0])
  {
    FullSlotStays(acks[0], acks[1..]);
  }

  lemma {:induction false} FullSlotStays(a: Ack, acks: seq<Ack>)
    ensures PutAll(Some(a), acks) == Some(a)
  {
    if acks != [] {
      FullSlotStays(a, acks[1..]);
    }
  }
}
