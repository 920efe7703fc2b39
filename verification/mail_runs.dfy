/** Delivery passes of any number of servers over one queue, step by step against a clock. */
module MailRuns {
  import opened Wire
  import opened MailQueue

  /** The longest, in whole seconds, that a pass may take over anything but the send itself for a
      full batch still to fit inside the lease. */
  const BOOKKEEPING: nat := 14

  /** What a pass is doing with the email it is at. */
  datatype Stage = Waiting | Sending | Recording(answer: Answer)

  datatype Claim = Claim(id: Id, attempt: nat)

  /** A pass under way: what it claimed and has not dealt with, and since when it has been at
      its present stage. */
  datatype Pass = Pass(claimedAt: nat, todo: seq<Claim>, stage: Stage, since: nat)

  datatype State = State(
    slow: nat, // how long a pass takes, at most, over anything but the send itself
    now: nat,
    rows: Rows,
    passes: map<nat, Pass>,
    used: set<Id>, // every id ever queued
    taken: map<Id, nat>, // claims
    sends: map<Id, nat>, // tries at the relay
    accepted: map<Id, nat>, // tries the relay accepted
    losses: map<Id, nat>) // claims whose outcome was never written

  datatype Step =
    | Enqueue(id: Id)
    | Tick(d: nat)
    | Take(p: nat, picked: seq<Id>)
    | Send(p: nat)
    | Hear(p: nat, answer: Answer)
    | Record(p: nat, written: bool)
    | Crash(p: nat) // or a shutdown
    | FailOld
    | Purge

  function Initial(slow: nat): State {
    State(slow, 0, map[], map[], {}, map[], map[], map[], map[])
  }

  const INITIAL := Initial(BOOKKEEPING)

  function Count(m: map<Id, nat>, id: Id): nat {
    if id in m then m[id] else 0
  }

  function Bump(m: map<Id, nat>, id: Id): map<Id, nat> {
    m[id := Count(m, id) + 1]
  }

  predicate Holds(p: Pass, id: Id) {
    exists i :: 0 <= i < |p.todo| && p.todo[i].id == id
  }

  function BumpHeld(m: map<Id, nat>, p: Pass): map<Id, nat> {
    map id | id in m.Keys + (set c | c in p.todo :: c.id) :: Count(m, id) + if Holds(p, id) then 1 else 0
  }

  function BumpPicked(m: map<Id, nat>, picked: seq<Id>): map<Id, nat> {
    map id | id in m.Keys + (set i | i in picked) :: Count(m, id) + if id in picked then 1 else 0
  }

  /** When a pass must have moved on to its next stage. */
  function Deadline(p: Pass, slow: nat): nat {
    p.since + if p.stage.Sending? then SEND_TIMEOUT else slow
  }

  /** How long a pass takes, at most, over n emails. */
  function Span(n: nat, slow: nat): nat {
    n * (2 * slow + SEND_TIMEOUT)
  }

  predicate Enabled(s: State, step: Step) {
    match step
    case Enqueue(id) => id !in s.used
    case Tick(d) => forall p :: p in s.passes ==> s.now + d <= Deadline(s.passes[p], s.slow)
    case Take(p, picked) =>
      && p !in s.passes && 0 < |picked| <= BATCH_SIZE
      && (forall i :: 0 <= i < |picked| ==> picked[i] in DueIds(s.rows, s.now))
      && (forall i, j :: 0 <= i < j < |picked| ==> picked[i] != picked[j])
    case Send(p) => p in s.passes && s.passes[p].stage.Waiting? && s.passes[p].todo != []
    case Hear(p, _) => p in s.passes && s.passes[p].stage.Sending? && s.passes[p].todo != []
    case Record(p, _) =>
      && p in s.passes && s.passes[p].stage.Recording?
      && s.passes[p].todo != [] && s.passes[p].todo[0].attempt >= 1
    case Crash(p) => p in s.passes
    case FailOld => true
    case Purge => true
  }

  function AfterRecord(s: State, p: nat): map<nat, Pass>
    requires p in s.passes && s.passes[p].todo != []
  {
    var pass := s.passes[p];
    if |pass.todo| == 1 then s.passes - {p}
    else s.passes[p := Pass(pass.claimedAt, pass.todo[1..], Waiting, s.now)]
  }

  function Apply(s: State, step: Step): State
    requires Enabled(s, step)
  {
    match step
    case Enqueue(id) => s.(rows := s.rows[id := Email(Pending, 0, s.now, s.now)], used := s.used + {id})
    case Tick(d) => s.(now := s.now + d)
    case Take(p, picked) =>
      s.(rows := ClaimedAll(s.rows, picked, s.now),
         passes := s.passes[p := Pass(s.now, Claims(s.rows, picked), Waiting, s.now)],
         taken := BumpPicked(s.taken, picked))
    case Send(p) =>
      var pass := s.passes[p];
      s.(passes := s.passes[p := pass.(stage := Sending, since := s.now)], sends := Bump(s.sends, pass.todo[0].id))
    case Hear(p, answer) =>
      var pass := s.passes[p];
      s.(passes := s.passes[p := pass.(stage := Recording(answer), since := s.now)],
         accepted := if answer == Accepted then Bump(s.accepted, pass.todo[0].id) else s.accepted)
    case Record(p, written) =>
      var pass, c := s.passes[p], s.passes[p].todo[0];
      if !written then s.(passes := AfterRecord(s, p), losses := Bump(s.losses, c.id))
      else
        s.(passes := AfterRecord(s, p),
           rows := if c.id in s.rows then s.rows[c.id := Recorded(s.rows[c.id], c.attempt, pass.stage.answer, s.now)] else s.rows)
    case Crash(p) => s.(passes := s.passes - {p}, losses := BumpHeld(s.losses, s.passes[p]))
    case FailOld => s.(rows := FailedOld(s.rows, s.now - MAX_AGE))
    case Purge => s.(rows := Purged(s.rows, s.now - RETENTION))
  }

  function Claims(rows: Rows, picked: seq<Id>): (cs: seq<Claim>)
    requires forall i :: 0 <= i < |picked| ==> picked[i] in rows
  {
    seq(|picked|, i requires 0 <= i < |picked| => Claim(picked[i], rows[picked[i]].attempts + 1))
  }

  predicate Possible(steps: seq<Step>, s: State)
    decreases |steps|, 0
  {
    steps != [] ==> Possible(steps[..|steps| - 1], s) && Enabled(Run(steps[..|steps| - 1], s), steps[|steps| - 1])
  }

  function Run(steps: seq<Step>, s: State): State
    requires Possible(steps, s)
    decreases |steps|, 1
  {
    if steps == [] then s else Apply(Run(steps[..|steps| - 1], s), steps[|steps| - 1])
  }

  // --- What every step keeps ---

  /** A pass is on time: it has taken no longer over each email than it may. */
  predicate OnTime(p: Pass, now: nat, slow: nat) {
    && 1 <= |p.todo| <= BATCH_SIZE
    && p.since <= p.claimedAt + Span(BATCH_SIZE - |p.todo|, slow)
                  + (match p.stage case Waiting => 0 case Sending => slow case Recording(_) => slow + SEND_TIMEOUT)
    && p.since <= now <= Deadline(p, slow)
  }

  predicate DistinctTodo(p: Pass) {
    forall i, j :: 0 <= i < j < |p.todo| ==> p.todo[i].id != p.todo[j].id
  }

  /** What a pass knows of the row of an email it holds, if the row is still there. */
  predicate Leased(rows: Rows, claimedAt: nat, c: Claim) {
    && c.attempt >= 1
    && (c.id in rows ==>
          && rows[c.id].attempts == c.attempt && rows[c.id].status != Sent
          && (rows[c.id].status == Pending ==> rows[c.id].nextAt == claimedAt + LEASE))
  }

  predicate PassOk(s: State, p: Pass) {
    && OnTime(p, s.now, s.slow) && DistinctTodo(p)
    && forall i :: 0 <= i < |p.todo| ==> p.todo[i].id in s.used && Leased(s.rows, p.claimedAt, p.todo[i])
  }

  ghost predicate Disjoint(s: State) {
    forall p, q, id :: p in s.passes && q in s.passes && Holds(s.passes[p], id) && Holds(s.passes[q], id) ==> p == q
  }

  ghost predicate PassesOk(s: State) {
    && s.slow <= BOOKKEEPING
    && (forall p :: p in s.passes ==> PassOk(s, s.passes[p]))
    && (forall id :: id in s.rows ==> id in s.used)
  }

  lemma OnTimeIsWithinTheSpan(p: Pass, now: nat, slow: nat)
    requires OnTime(p, now, slow)
    ensures now <= p.claimedAt + Span(BATCH_SIZE, slow)
  {
    SpanMore(BATCH_SIZE - |p.todo|, slow);
    SpanGrows(BATCH_SIZE - |p.todo| + 1, BATCH_SIZE, slow);
  }

  lemma SpanMore(n: nat, slow: nat)
    ensures Span(n + 1, slow) == Span(n, slow) + 2 * slow + SEND_TIMEOUT
  {
  }

  lemma SpanGrows(m: nat, n: nat, slow: nat)
    requires m <= n
    ensures Span(m, slow) <= Span(n, slow)
  {
  }

  /** A pass whose bookkeeping is quick enough is done with its whole batch before the lease is up. */
  lemma OnTimeIsWithinTheLease(p: Pass, now: nat, slow: nat)
    requires OnTime(p, now, slow) && slow <= BOOKKEEPING
    ensures now < p.claimedAt + LEASE
  {
    OnTimeIsWithinTheSpan(p, now, slow);
  }

  /** An email a pass holds is not due, so no other pass can take it. */
  lemma HeldIsNotDue(s: State, p: nat, id: Id)
    requires PassesOk(s) && p in s.passes && Holds(s.passes[p], id)
    ensures id !in DueIds(s.rows, s.now) && id in s.used
  {
    var pass := s.passes[p];
    assert PassOk(s, pass);
    var i :| 0 <= i < |pass.todo| && pass.todo[i].id == id;
    assert Leased(s.rows, pass.claimedAt, pass.todo[i]);
    OnTimeIsWithinTheLease(pass, s.now, s.slow);
  }

  /** A step that leaves a pass's todo and timing alone, and its rows leased, keeps it. */
  lemma PassKept(s: State, t: State, p: Pass)
    requires PassOk(s, p) && s.used <= t.used && t.slow == s.slow && OnTime(p, t.now, t.slow)
    requires forall i :: 0 <= i < |p.todo| ==> Leased(t.rows, p.claimedAt, p.todo[i])
    ensures PassOk(t, p)
  {
  }

  lemma TickKeeps(s: State, d: nat)
    requires PassesOk(s) && Disjoint(s) && Enabled(s, Tick(d))
    ensures PassesOk(Apply(s, Tick(d))) && Disjoint(Apply(s, Tick(d)))
  {
    var t := Apply(s, Tick(d));
    forall p | p in t.passes ensures PassOk(t, t.passes[p]) {
      assert PassOk(s, s.passes[p]);
      PassKept(s, t, s.passes[p]);
    }
  }

  lemma EnqueueKeeps(s: State, id: Id)
    requires PassesOk(s) && Disjoint(s) && Enabled(s, Enqueue(id))
    ensures PassesOk(Apply(s, Enqueue(id))) && Disjoint(Apply(s, Enqueue(id)))
  {
    var t := Apply(s, Enqueue(id));
    forall p | p in t.passes ensures PassOk(t, t.passes[p]) {
      var pass := s.passes[p];
      assert PassOk(s, pass);
      forall i | 0 <= i < |pass.todo| ensures Leased(t.rows, pass.claimedAt, pass.todo[i]) {
        assert pass.todo[i].id in s.used;
      }
      PassKept(s, t, pass);
    }
  }

  /** Giving up on old mail and removing old records only take rows out of `pending` or away. */
  lemma SweepKeeps(s: State, rows: Rows)
    requires PassesOk(s) && Disjoint(s)
    requires forall id :: id in rows ==> id in s.rows && (rows[id] == s.rows[id] || rows[id] == s.rows[id].(status := Failed))
    ensures PassesOk(s.(rows := rows)) && Disjoint(s.(rows := rows))
  {
    var t := s.(rows := rows);
    forall p | p in t.passes ensures PassOk(t, t.passes[p]) {
      var pass := s.passes[p];
      assert PassOk(s, pass);
      forall i | 0 <= i < |pass.todo| ensures Leased(t.rows, pass.claimedAt, pass.todo[i]) {
        assert Leased(s.rows, pass.claimedAt, pass.todo[i]);
      }
      PassKept(s, t, pass);
    }
  }

  lemma TakeKeeps(s: State, p: nat, picked: seq<Id>)
    requires PassesOk(s) && Disjoint(s) && Enabled(s, Take(p, picked))
    ensures PassesOk(Apply(s, Take(p, picked))) && Disjoint(Apply(s, Take(p, picked)))
  {
    hide OnTime, DueIds;
    var t := Apply(s, Take(p, picked));
    TakeFacts(s, picked);
    var mine := t.passes[p];
    forall q | q in t.passes ensures PassOk(t, t.passes[q]) {
      var pass := t.passes[q];
      if q != p {
        assert PassOk(s, pass);
        forall i | 0 <= i < |pass.todo| ensures Leased(t.rows, pass.claimedAt, pass.todo[i]) {
          assert Leased(s.rows, pass.claimedAt, pass.todo[i]) && Holds(pass, pass.todo[i].id);
          HeldIsNotDue(s, q, pass.todo[i].id);
        }
        PassKept(s, t, pass);
      } else {
        NewPassOnTime(mine, s.now, s.slow);
      }
    }
    forall q, r, id | q in t.passes && r in t.passes && Holds(t.passes[q], id) && Holds(t.passes[r], id) ensures q == r {
      if q != p {
        HeldIsNotDue(s, q, id);
      }
      if r != p {
        HeldIsNotDue(s, r, id);
      }
    }
  }

  lemma NewPassOnTime(p: Pass, now: nat, slow: nat)
    requires 1 <= |p.todo| <= BATCH_SIZE && p.claimedAt == p.since == now && p.stage == Waiting
    ensures OnTime(p, now, slow)
  {
  }

  lemma TakeFacts(s: State, picked: seq<Id>)
    requires forall i :: 0 <= i < |picked| ==> picked[i] in DueIds(s.rows, s.now)
    ensures forall i :: 0 <= i < |picked| ==> picked[i] in s.rows && picked[i] in picked && Due(s.rows[picked[i]], s.now)
    ensures forall id :: id in picked ==> id in DueIds(s.rows, s.now)
  {
  }

  /** A pass moving to its next stage in time, with the same emails. */
  lemma StageKeeps(s: State, p: nat, stage: Stage, t: State)
    requires PassesOk(s) && Disjoint(s) && p in s.passes
    requires t.passes == s.passes[p := s.passes[p].(stage := stage, since := s.now)]
    requires t.rows == s.rows && t.now == s.now && t.used == s.used && t.slow == s.slow
    requires (s.passes[p].stage == Waiting && stage == Sending) || (s.passes[p].stage == Sending && stage.Recording?)
    ensures PassesOk(t) && Disjoint(t)
  {
    forall q | q in t.passes ensures PassOk(t, t.passes[q]) {
      assert PassOk(s, s.passes[q]);
      if q != p {
        PassKept(s, t, s.passes[q]);
      }
    }
    forall q, id | q in t.passes && Holds(t.passes[q], id) ensures Holds(s.passes[q], id) {
      var i :| 0 <= i < |t.passes[q].todo| && t.passes[q].todo[i].id == id;
      assert s.passes[q].todo[i].id == id;
    }
  }

  /** A pass done with its first email, whose row may have changed, or gone altogether. */
  lemma PassOverKeeps(s: State, p: nat, t: State)
    requires PassesOk(s) && Disjoint(s) && p in s.passes && s.passes[p].stage.Recording? && s.passes[p].todo != []
    requires t.passes == AfterRecord(s, p) || t.passes == s.passes - {p}
    requires t.now == s.now && t.used == s.used && t.slow == s.slow && t.rows.Keys == s.rows.Keys
    requires forall id :: id in s.rows && id != s.passes[p].todo[0].id ==> t.rows[id] == s.rows[id]
    ensures PassesOk(t) && Disjoint(t)
  {
    var first := s.passes[p].todo[0].id;
    assert Holds(s.passes[p], first);
    assert PassOk(s, s.passes[p]);
    forall q | q in t.passes ensures PassOk(t, t.passes[q]) {
      var pass := s.passes[q];
      assert PassOk(s, pass);
      if q != p {
        forall i | 0 <= i < |pass.todo| ensures Leased(t.rows, pass.claimedAt, pass.todo[i]) {
          assert Leased(s.rows, pass.claimedAt, pass.todo[i]) && Holds(pass, pass.todo[i].id);
        }
        PassKept(s, t, pass);
      } else {
        NextInPass(s, pass, t);
      }
    }
    forall q, id | q in t.passes && Holds(t.passes[q], id) ensures Holds(s.passes[q], id) {
      var i :| 0 <= i < |t.passes[q].todo| && t.passes[q].todo[i].id == id;
      assert s.passes[q].todo[if q == p then i + 1 else i].id == id;
    }
  }

  lemma NextInPass(s: State, p: Pass, t: State)
    requires PassOk(s, p) && p.stage.Recording? && |p.todo| > 1
    requires t.now == s.now && t.used == s.used && t.slow == s.slow && t.rows.Keys == s.rows.Keys
    requires forall id :: id in s.rows && id != p.todo[0].id ==> t.rows[id] == s.rows[id]
    ensures PassOk(t, Pass(p.claimedAt, p.todo[1..], Waiting, s.now))
  {
    var next := Pass(p.claimedAt, p.todo[1..], Waiting, s.now);
    SpanMore(BATCH_SIZE - |p.todo|, s.slow);
    forall i | 0 <= i < |next.todo| ensures next.todo[i].id in t.used && Leased(t.rows, next.claimedAt, next.todo[i]) {
      assert next.todo[i] == p.todo[i + 1] && Leased(s.rows, p.claimedAt, p.todo[i + 1]);
    }
  }

  lemma CrashKeeps(s: State, p: nat)
    requires PassesOk(s) && Disjoint(s) && p in s.passes
    ensures PassesOk(Apply(s, Crash(p))) && Disjoint(Apply(s, Crash(p)))
  {
    var t := Apply(s, Crash(p));
    forall q | q in t.passes ensures PassOk(t, t.passes[q]) {
      assert PassOk(s, s.passes[q]);
      PassKept(s, t, s.passes[q]);
    }
  }

  lemma StepKeepsPasses(s: State, step: Step)
    requires PassesOk(s) && Disjoint(s) && Enabled(s, step)
    ensures PassesOk(Apply(s, step)) && Disjoint(Apply(s, step))
  {
    hide PassesOk, Disjoint;
    var t := Apply(s, step);
    match step
    case Enqueue(id) => EnqueueKeeps(s, id);
    case Tick(d) => TickKeeps(s, d);
    case Take(p, picked) => TakeKeeps(s, p, picked);
    case Send(p) => StageKeeps(s, p, Sending, t);
    case Hear(p, answer) => StageKeeps(s, p, Recording(answer), t);
    case Record(p, _) => PassOverKeeps(s, p, t);
    case Crash(p) => CrashKeeps(s, p);
    case FailOld => SweepKeeps(s, t.rows);
    case Purge => SweepKeeps(s, t.rows);
  }

  /** In every run of passes that are quick enough, no email is with two passes, let alone being
      sent by two, at once. */
  lemma {:induction false} NeverSentByTwo(steps: seq<Step>, slow: nat)
    requires Possible(steps, Initial(slow)) && slow <= BOOKKEEPING
    ensures PassesOk(Run(steps, Initial(slow))) && Disjoint(Run(steps, Initial(slow)))
    decreases |steps|
  {
    hide PassesOk, Disjoint, Apply;
    if steps == [] {
      assert PassesOk(Initial(slow)) && Disjoint(Initial(slow)) by { InitialPasses(slow); }
    } else {
      NeverSentByTwo(steps[..|steps| - 1], slow);
      StepKeepsPasses(Run(steps[..|steps| - 1], Initial(slow)), steps[|steps| - 1]);
    }
  }

  lemma InitialPasses(slow: nat)
    requires slow <= BOOKKEEPING
    ensures PassesOk(Initial(slow)) && Disjoint(Initial(slow))
  {
  }
}
