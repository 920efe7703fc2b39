/** The queue of mail waiting to go, and one delivery pass over it. Times are in seconds. */
module MailQueue {
  import opened Wire

  type Id = string

  const BATCH_SIZE: nat := 5
  const LEASE: nat := 300
  const SEND_TIMEOUT: nat := 30
  const MAX_ATTEMPTS: nat := 6
  const MAX_AGE: nat := 86400
  const RETENTION: nat := 2592000
  const BACKOFF: seq<nat> := [60, 300, 1800, 7200, 21600]

  datatype Status = Pending | Sent | Failed

  datatype Email = Email(status: Status, attempts: nat, nextAt: nat, createdAt: nat)

  type Rows = map<Id, Email>

  /** What the relay said: accepted, refused for good, or not now. */
  datatype Answer = Accepted | Permanent | Transient

  /** The wait after the nth failed attempt; later ones wait as long as the last. */
  function Wait(attempts: nat): nat
    requires attempts >= 1
  {
    BACKOFF[Min(attempts, |BACKOFF|) - 1]
  }

  predicate Due(e: Email, now: nat) {
    e.status == Pending && e.nextAt <= now
  }

  function DueIds(rows: Rows, now: nat): set<Id> {
    set id | id in rows && Due(rows[id], now)
  }

  function Claimed(e: Email, now: nat): Email {
    e.(attempts := e.attempts + 1, nextAt := now + LEASE)
  }

  function ClaimedAll(rows: Rows, picked: seq<Id>, now: nat): Rows {
    map id | id in rows :: if id in picked then Claimed(rows[id], now) else rows[id]
  }

  /** The row once the outcome of its claim, made as the given attempt, is written down. */
  function Recorded(e: Email, attempt: nat, answer: Answer, now: nat): Email
    requires attempt >= 1
  {
    if answer == Accepted then e.(status := Sent)
    else if e.status != Pending then e
    else if answer == Permanent || attempt >= MAX_ATTEMPTS then e.(status := Failed)
    else e.(nextAt := now + Wait(attempt))
  }

  function FailedOld(rows: Rows, cutoff: int): Rows {
    map id | id in rows :: if rows[id].status == Pending && rows[id].createdAt < cutoff then rows[id].(status := Failed) else rows[id]
  }

  function Purged(rows: Rows, cutoff: int): Rows {
    map id | id in rows && (rows[id].status == Pending || rows[id].createdAt >= cutoff) :: rows[id]
  }

  /** The oldest of the due rows, at most limit of them, each once. */
  ghost predicate OldestFirst(rows: Rows, due: set<Id>, picked: seq<Id>, limit: nat) {
    && (forall i :: 0 <= i < |picked| ==> picked[i] in due && picked[i] in rows)
    && (forall i, j :: 0 <= i < j < |picked| ==> picked[i] != picked[j])
    && (|picked| == limit || forall d :: d in due ==> d in picked) && |picked| <= limit
    && (forall i, d :: 0 <= i < |picked| && d in due && d in rows && d !in picked ==> rows[picked[i]].createdAt <= rows[d].createdAt)
  }

  method Oldest(rows: Rows, ids: set<Id>) returns (oldest: Id)
    requires ids != {} && ids <= rows.Keys
    ensures oldest in ids
    ensures forall d :: d in ids ==> rows[oldest].createdAt <= rows[d].createdAt
  {
    oldest :| oldest in ids;
    var rest := ids - {oldest};
    while rest != {}
      invariant rest <= ids && oldest in ids - rest
      invariant forall d :: d in ids - rest ==> rows[oldest].createdAt <= rows[d].createdAt
    {
      var d :| d in rest;
      rest := rest - {d};
      if rows[d].createdAt < rows[oldest].createdAt {
        oldest := d;
      }
    }
  }

  /** How one claimed email fared: the relay's answer, when the outcome was to be written, and
      whether the write went through. */
  datatype Fate = Fate(answer: Answer, at: nat, written: bool)

  /** The rows after the served emails' outcomes were written, those whose write went through. */
  ghost predicate AllDelivered(before: Rows, after: Rows, served: seq<Id>, fates: Id -> Fate) {
    && after.Keys == before.Keys
    && forall id :: id in after ==>
         if id in served && fates(id).written && before[id].attempts >= 1
         then after[id] == Recorded(before[id], before[id].attempts, fates(id).answer, fates(id).at)
         else after[id] == before[id]
  }

  /** How a claim goes: it may fail before it takes effect, or only its answer may be lost. */
  datatype Claiming = ClaimWorks | ClaimFails | ClaimReplyLost

  class Worker {
    var rows: Rows

    constructor ()
      ensures rows == map[]
    {
      rows := map[];
    }

    method Claim(limit: nat, now: nat) returns (picked: seq<Id>)
      modifies this
      ensures OldestFirst(old(rows), DueIds(old(rows), now), picked, limit)
      ensures rows == ClaimedAll(old(rows), picked, now)
      ensures rows.Keys == old(rows).Keys
      ensures forall id :: id in rows ==>
                rows[id] == if id in picked then old(rows)[id].(attempts := old(rows)[id].attempts + 1, nextAt := now + 300) else old(rows)[id]
      ensures forall id :: id in picked ==> id in old(rows) && old(rows)[id].status == Pending && old(rows)[id].nextAt <= now
      ensures forall other :: other in old(rows) && Due(old(rows)[other], now) && other !in picked ==>
                |picked| == limit && forall id :: id in picked ==> old(rows)[id].createdAt <= old(rows)[other].createdAt
    {
      picked := [];
      var due := DueIds(rows, now);
      var left := due;
      while left != {} && |picked| < limit
        invariant rows == old(rows) && left <= due && |picked| <= limit
        invariant forall d :: d in due ==> (d in picked <==> d !in left)
        invariant OldestFirst(rows, due - left, picked, |picked|)
        invariant forall i, d :: 0 <= i < |picked| && d in left ==> rows[picked[i]].createdAt <= rows[d].createdAt
      {
        var id := Oldest(rows, left);
        left := left - {id};
        picked := picked + [id];
      }
      rows := ClaimedAll(rows, picked, now);
    }

    method MarkSent(id: Id)
      modifies this
      ensures rows == if id in old(rows) then old(rows)[id := old(rows)[id].(status := Sent)] else old(rows)
    {
      if id in rows {
        rows := rows[id := rows[id].(status := Sent)];
      }
    }

    method MarkRetry(id: Id, next: nat)
      modifies this
      ensures rows == if id in old(rows) && old(rows)[id].status == Pending then old(rows)[id := old(rows)[id].(nextAt := next)] else old(rows)
    {
      if id in rows && rows[id].status == Pending {
        rows := rows[id := rows[id].(nextAt := next)];
      }
    }

    method MarkFailed(id: Id)
      modifies this
      ensures rows == if id in old(rows) && old(rows)[id].status == Pending then old(rows)[id := old(rows)[id].(status := Failed)] else old(rows)
    {
      if id in rows && rows[id].status == Pending {
        rows := rows[id := rows[id].(status := Failed)];
      }
    }

    method FailOlderThan(cutoff: int) returns (n: nat)
      modifies this
      ensures rows == FailedOld(old(rows), cutoff)
      ensures rows.Keys == old(rows).Keys
      ensures forall id :: id in rows ==>
                rows[id] == if old(rows)[id].status == Pending && old(rows)[id].createdAt < cutoff then old(rows)[id].(status := Failed) else old(rows)[id]
      ensures n == |set id | id in old(rows) && old(rows)[id].status == Pending && old(rows)[id].createdAt < cutoff|
    {
      n := |set id | id in rows && rows[id].status == Pending && rows[id].createdAt < cutoff|;
      rows := FailedOld(rows, cutoff);
    }

    method DeleteOlderThan(cutoff: int)
      modifies this
      ensures rows == Purged(old(rows), cutoff)
      ensures forall id :: id in old(rows) ==> (id in rows <==> old(rows)[id].status == Pending || old(rows)[id].createdAt >= cutoff)
      ensures forall id :: id in rows ==> id in old(rows) && rows[id] == old(rows)[id]
    {
      rows := Purged(rows, cutoff);
    }

    /** Record how one claimed email fared; a write that fails leaves the row under its lease. */
    method Deliver(id: Id, attempt: nat, fate: Fate)
      requires attempt >= 1
      modifies this
      ensures rows == if id in old(rows) && fate.written then old(rows)[id := Recorded(old(rows)[id], attempt, fate.answer, fate.at)] else old(rows)
      ensures !fate.written || id !in old(rows) ==> rows == old(rows)
      ensures rows.Keys == old(rows).Keys && forall other :: other in rows && other != id ==> rows[other] == old(rows)[other]
      ensures id in old(rows) && fate.written && fate.answer == Accepted ==> rows[id] == old(rows)[id].(status := Sent)
      ensures id in old(rows) && fate.written && old(rows)[id].status == Pending && (fate.answer == Permanent || (fate.answer == Transient && attempt >= 6)) ==>
                rows[id] == old(rows)[id].(status := Failed)
      ensures id in old(rows) && fate.written && old(rows)[id].status == Pending && fate.answer == Transient && attempt < 6 ==>
                rows[id] == old(rows)[id].(nextAt := fate.at + [60, 300, 1800, 7200, 21600][attempt - 1])
      ensures id in old(rows) && fate.answer != Accepted && old(rows)[id].status != Pending ==> rows == old(rows)
    {
      if id in rows {
        assert rows[id := rows[id]] == rows;
      }
      if !fate.written {
        return;
      }
      if fate.answer == Accepted {
        MarkSent(id);
      } else if fate.answer == Permanent {
        MarkFailed(id);
      } else if attempt >= MAX_ATTEMPTS {
        MarkFailed(id);
      } else {
        var wait := BACKOFF[Min(attempt, |BACKOFF|) - 1];
        MarkRetry(id, fate.at + wait);
      }
    }

    /** The loop of a pass over what it claimed, stopped by a shutdown before number `stop`. */
    method DeliverAll(picked: seq<Id>, fates: Id -> Fate, stop: nat)
      requires forall i, j :: 0 <= i < j < |picked| ==> picked[i] != picked[j]
      requires forall id :: id in picked && id in rows ==> rows[id].attempts >= 1
      modifies this
      ensures AllDelivered(old(rows), rows, picked[..Min(stop, |picked|)], fates)
    {
      hide Recorded;
      ghost var claimed := rows;
      var i := 0;
      while i < |picked| && i < stop
        invariant 0 <= i <= |picked| && i <= Min(stop, |picked|)
        invariant AllDelivered(claimed, rows, picked[..i], fates)
      {
        var id := picked[i];
        assert picked[..i + 1] == picked[..i] + [id];
        assert id !in picked[..i];
        if id in rows {
          Deliver(id, rows[id].attempts, fates(id));
        }
        i := i + 1;
      }
      assert i == Min(stop, |picked|);
    }

    /** One delivery pass: mail over a day old is given up on, then what is due is claimed, oldest
        first, and each outcome reached before a shutdown is recorded on that email's row alone. A
        pass that cannot read the settings, give up on old mail or claim ends there with an error;
        when only the answer to the claim is lost, what it took stays leased. */
    method ProcessOnce(now: nat, enabled: Option<bool>, sweeps: bool, claim: Claiming, fates: Id -> Fate, stop: nat)
      returns (ok: bool, picked: seq<Id>)
      modifies this
      ensures ok <==> enabled.Some? && sweeps && (enabled.value ==> claim == ClaimWorks)
      ensures enabled == None || !sweeps ==> rows == old(rows)
      ensures enabled.Some? && sweeps && (!enabled.value || claim == ClaimFails) ==> rows == FailedOld(old(rows), now - MAX_AGE)
      ensures enabled == Some(true) && sweeps && claim != ClaimFails ==>
                var kept := FailedOld(old(rows), now - MAX_AGE);
                && OldestFirst(kept, DueIds(kept, now), picked, BATCH_SIZE)
                && AllDelivered(ClaimedAll(kept, picked, now), rows,
                                if ok then picked[..Min(stop, |picked|)] else [], fates)
    {
      hide Recorded;
      ok, picked := false, [];
      if enabled == None || !sweeps {
        return;
      }
      var gaveUp := FailOlderThan(now - MAX_AGE);
      if !enabled.value {
        return true, [];
      }
      if claim == ClaimFails {
        return;
      }
      picked := Claim(BATCH_SIZE, now);
      if claim == ClaimReplyLost {
        return;
      }
      DeliverAll(picked, fates, stop);
      ok := true;
    }
  }
}
