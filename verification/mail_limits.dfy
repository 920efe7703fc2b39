/** How slow a pass and how late a claim may be before the queue's promises fail: the bounds are exact. */
module MailLimits {
  import opened Wire
  import opened MailQueue
  import opened MailRuns
  import opened MailCounts
  import opened MailEnds
  import opened MailSchedule

  /** The email every run here is about; the rest of each batch are others, with longer ids. */
  const MINE: Id := "a"

  function Other(n: nat): (id: Id)
    ensures |id| == n + 2
  {
    seq(n + 2, i => 'a')
  }

  ghost predicate ShortIds(s: State, m: nat) {
    forall id :: id in s.used ==> |id| < m + 2
  }

  /** A run so far: possible, with my email never late. */
  ghost predicate Going(steps: seq<Step>, slow: nat, late: nat) {
    Possible(steps, Initial(slow)) && Prompt(steps, slow, MINE, late)
  }

  lemma Go(steps: seq<Step>, step: Step, slow: nat, late: nat)
    requires Going(steps, slow, late) && Enabled(Run(steps, Initial(slow)), step)
    requires NotLate(Apply(Run(steps, Initial(slow)), step), MINE, late)
    ensures Going(steps + [step], slow, late)
    ensures Run(steps + [step], Initial(slow)) == Apply(Run(steps, Initial(slow)), step)
  {
    OneMore(steps, step, Initial(slow));
    assert (steps + [step])[..|steps|] == steps;
  }

  // --- A pass at work ---

  /** One pass, at work on a batch that ends with my email; at most m other emails so far. */
  ghost predicate Working(s: State, slow: nat, p: Pass, e: Email, m: nat) {
    && s.slow == slow && s.passes == map[0 := p]
    && p.todo != [] && p.todo[|p.todo| - 1].id == MINE
    && (forall i :: 0 <= i < |p.todo| ==> p.todo[i].attempt >= 1)
    && (forall i :: 0 <= i < |p.todo| - 1 ==> p.todo[i].id != MINE)
    && MINE in s.rows && s.rows[MINE] == e
    && ShortIds(s, m) && Count(s.losses, MINE) == 0
  }

  lemma WorkingIsNotLate(s: State, slow: nat, p: Pass, e: Email, m: nat, late: nat)
    requires Working(s, slow, p, e, m)
    ensures NotLate(s, MINE, late)
  {
    assert Holds(s.passes[0], MINE);
  }

  lemma WorkTick(steps: seq<Step>, slow: nat, late: nat, p: Pass, e: Email, m: nat, d: nat) returns (more: seq<Step>)
    requires Going(steps, slow, late) && Working(Run(steps, Initial(slow)), slow, p, e, m)
    requires Run(steps, Initial(slow)).now + d <= Deadline(p, slow)
    ensures Going(more, slow, late) && Working(Run(more, Initial(slow)), slow, p, e, m)
    ensures Run(more, Initial(slow)).now == Run(steps, Initial(slow)).now + d
  {
    hide Run, Possible, Prompt, NotLate;
    var t := Apply(Run(steps, Initial(slow)), Tick(d));
    WorkingIsNotLate(t, slow, p, e, m, late);
    Go(steps, Tick(d), slow, late);
    more := steps + [Tick(d)];
  }

  lemma WorkSend(steps: seq<Step>, slow: nat, late: nat, p: Pass, e: Email, m: nat) returns (more: seq<Step>)
    requires Going(steps, slow, late) && Working(Run(steps, Initial(slow)), slow, p, e, m) && p.stage == Waiting
    ensures Going(more, slow, late) && Run(more, Initial(slow)).now == Run(steps, Initial(slow)).now
    ensures Working(Run(more, Initial(slow)), slow, p.(stage := Sending, since := Run(steps, Initial(slow)).now), e, m)
  {
    hide Run, Possible, Prompt, NotLate;
    var s := Run(steps, Initial(slow));
    var t := Apply(s, Send(0));
    assert t.passes == map[0 := p.(stage := Sending, since := s.now)];
    WorkingIsNotLate(t, slow, p.(stage := Sending, since := s.now), e, m, late);
    Go(steps, Send(0), slow, late);
    more := steps + [Send(0)];
  }

  lemma WorkHear(steps: seq<Step>, slow: nat, late: nat, p: Pass, e: Email, m: nat, answer: Answer) returns (more: seq<Step>)
    requires Going(steps, slow, late) && Working(Run(steps, Initial(slow)), slow, p, e, m) && p.stage == Sending
    ensures Going(more, slow, late) && Run(more, Initial(slow)).now == Run(steps, Initial(slow)).now
    ensures Working(Run(more, Initial(slow)), slow, p.(stage := Recording(answer), since := Run(steps, Initial(slow)).now), e, m)
  {
    hide Run, Possible, Prompt, NotLate;
    var s := Run(steps, Initial(slow));
    var t := Apply(s, Hear(0, answer));
    assert t.passes == map[0 := p.(stage := Recording(answer), since := s.now)];
    WorkingIsNotLate(t, slow, p.(stage := Recording(answer), since := s.now), e, m, late);
    Go(steps, Hear(0, answer), slow, late);
    more := steps + [Hear(0, answer)];
  }

  /** The pass is done with an email that is not mine. */
  lemma WorkRecord(steps: seq<Step>, slow: nat, late: nat, p: Pass, e: Email, m: nat) returns (more: seq<Step>)
    requires Going(steps, slow, late) && Working(Run(steps, Initial(slow)), slow, p, e, m) && p.stage.Recording? && |p.todo| > 1
    ensures Going(more, slow, late) && Run(more, Initial(slow)).now == Run(steps, Initial(slow)).now
    ensures Working(Run(more, Initial(slow)), slow, Pass(p.claimedAt, p.todo[1..], Waiting, Run(steps, Initial(slow)).now), e, m)
  {
    hide Run, Possible, Prompt, NotLate, Wait;
    var s := Run(steps, Initial(slow));
    var t := Apply(s, Record(0, true));
    var next := Pass(p.claimedAt, p.todo[1..], Waiting, s.now);
    assert t.passes == map[0 := next];
    assert next.todo[|next.todo| - 1] == p.todo[|p.todo| - 1];
    WorkingIsNotLate(t, slow, next, e, m, late);
    Go(steps, Record(0, true), slow, late);
    more := steps + [Record(0, true)];
  }

  /** One email of the batch as slowly as a pass may go that takes b over its bookkeeping, up to
      the end of writing the answer down. */
  lemma Serve(steps: seq<Step>, slow: nat, b: nat, late: nat, p: Pass, e: Email, m: nat, answer: Answer)
    returns (more: seq<Step>, q: Pass)
    requires Going(steps, slow, late) && Working(Run(steps, Initial(slow)), slow, p, e, m)
    requires b <= slow && p.stage == Waiting && p.since == Run(steps, Initial(slow)).now
    ensures Going(more, slow, late) && Working(Run(more, Initial(slow)), slow, q, e, m)
    ensures q.claimedAt == p.claimedAt && q.todo == p.todo && q.stage == Recording(answer)
    ensures Run(more, Initial(slow)).now == Run(steps, Initial(slow)).now + Span(1, b)
  {
    hide Run, Possible, Prompt, Working;
    more := WorkTick(steps, slow, late, p, e, m, b);
    q := p.(stage := Sending, since := Run(more, Initial(slow)).now);
    more := WorkSend(more, slow, late, p, e, m);
    more := WorkTick(more, slow, late, q, e, m, SEND_TIMEOUT);
    var at := Run(more, Initial(slow)).now;
    more := WorkHear(more, slow, late, q, e, m, answer);
    q := q.(stage := Recording(answer), since := at);
    more := WorkTick(more, slow, late, q, e, m, b);
  }

  /** The whole batch so, up to my email, the last of it. */
  lemma {:induction false} ServeAll(steps: seq<Step>, slow: nat, b: nat, late: nat, p: Pass, e: Email, m: nat)
    returns (more: seq<Step>, q: Pass)
    requires Going(steps, slow, late) && Working(Run(steps, Initial(slow)), slow, p, e, m)
    requires b <= slow && p.stage == Waiting && p.since == Run(steps, Initial(slow)).now && p.todo != []
    ensures Going(more, slow, late) && Working(Run(more, Initial(slow)), slow, q, e, m)
    ensures q.todo == [p.todo[|p.todo| - 1]] && q.stage == Recording(Transient)
    ensures Run(more, Initial(slow)).now == Run(steps, Initial(slow)).now + Span(|p.todo|, b)
    decreases |p.todo|
  {
    hide Run, Possible, Prompt, Working;
    var todo := p.todo;
    if |todo| == 1 {
      more, q := Serve(steps, slow, b, late, p, e, m, Transient);
    } else {
      more, q := Serve(steps, slow, b, late, p, e, m, Accepted);
      var at := Run(more, Initial(slow)).now;
      more := WorkRecord(more, slow, late, q, e, m);
      more, q := ServeAll(more, slow, b, late, Pass(q.claimedAt, todo[1..], Waiting, at), e, m);
      SpanMore(|todo| - 1, b);
    }
  }

  // --- Before a pass ---

  /** No pass at work, and my email, tried n times, is next to be tried at t. */
  ghost predicate Idle(s: State, slow: nat, n: nat, t: nat, m: nat) {
    && s.slow == slow && s.passes == map[] && s.now <= t
    && MINE in s.rows && s.rows[MINE] == Email(Pending, n, t, 0)
    && ShortIds(s, m) && Count(s.losses, MINE) == 0
  }

  /** k others that are due as well by then. */
  ghost predicate OthersDue(s: State, m: nat, k: nat, t: nat) {
    forall i :: m <= i < m + k ==> Other(i) in s.rows && Due(s.rows[Other(i)], t)
  }

  lemma QueueOthers(steps: seq<Step>, slow: nat, late: nat, n: nat, t: nat, m: nat, k: nat) returns (more: seq<Step>)
    requires Going(steps, slow, late) && Idle(Run(steps, Initial(slow)), slow, n, t, m)
    ensures Going(more, slow, late) && Idle(Run(more, Initial(slow)), slow, n, t, m + k)
    ensures OthersDue(Run(more, Initial(slow)), m, k, t) && Run(more, Initial(slow)).now == Run(steps, Initial(slow)).now
  {
    hide Run, Possible, Prompt;
    if k == 0 {
      more := steps;
    } else {
      more := QueueOthers(steps, slow, late, n, t, m, k - 1);
      var s := Run(more, Initial(slow));
      var id := Other(m + k - 1);
      assert id !in s.used && id != MINE;
      Go(more, Enqueue(id), slow, late);
      more := more + [Enqueue(id)];
    }
  }

  /** Four others and mine. */
  function Batch(m: nat): (picked: seq<Id>)
    ensures |picked| == BATCH_SIZE && picked[BATCH_SIZE - 1] == MINE
  {
    [Other(m), Other(m + 1), Other(m + 2), Other(m + 3), MINE]
  }

  lemma BatchIsDue(s: State, m: nat)
    requires OthersDue(s, m, 4, s.now) && MINE in s.rows && Due(s.rows[MINE], s.now)
    ensures forall i :: 0 <= i < BATCH_SIZE ==> Batch(m)[i] in DueIds(s.rows, s.now)
    ensures forall i, j :: 0 <= i < j < BATCH_SIZE ==> Batch(m)[i] != Batch(m)[j]
  {
    assert forall i :: m <= i < m + 4 ==> Other(i) in DueIds(s.rows, s.now);
    assert forall i :: 0 <= i < 4 ==> Batch(m)[i] == Other(m + i) && |Batch(m)[i]| == m + i + 2;
  }

  lemma TakeBatch(steps: seq<Step>, slow: nat, late: nat, n: nat, t: nat, m: nat) returns (more: seq<Step>, p: Pass)
    requires Going(steps, slow, late) && MINE in Run(steps, Initial(slow)).rows
    requires var s := Run(steps, Initial(slow));
             && s.slow == slow && s.passes == map[] && t <= s.now && s.rows[MINE] == Email(Pending, n, t, 0)
             && ShortIds(s, m + 4) && Count(s.losses, MINE) == 0 && OthersDue(s, m, 4, s.now)
    ensures Going(more, slow, late) && Run(more, Initial(slow)).now == Run(steps, Initial(slow)).now
    ensures p.claimedAt == p.since == Run(steps, Initial(slow)).now && p.stage == Waiting && |p.todo| == BATCH_SIZE
    ensures p.todo[BATCH_SIZE - 1] == Claim(MINE, n + 1)
    ensures Working(Run(more, Initial(slow)), slow, p, Email(Pending, n + 1, p.since + LEASE, 0), m + 4)
  {
    hide Run, Possible, Prompt, NotLate, Batch, DueIds, OthersDue;
    var s := Run(steps, Initial(slow));
    var picked := Batch(m);
    BatchIsDue(s, m);
    TakeFacts(s, picked);
    var step := Take(0, picked);
    var t := Apply(s, step);
    p := t.passes[0];
    assert t.passes == map[0 := p];
    assert forall i :: 0 <= i < |picked| ==> p.todo[i] == Claim(picked[i], s.rows[picked[i]].attempts + 1);
    assert MINE in picked;
    WorkingIsNotLate(t, slow, p, Email(Pending, n + 1, s.now + LEASE, 0), m + 4, late);
    Go(steps, step, slow, late);
    more := steps + [step];
  }

  /** A try as late as may be, last in a batch as slow as may be, up to the end of writing down
      that the relay did not take it. */
  lemma TryLate(steps: seq<Step>, slow: nat, b: nat, late: nat, n: nat, t: nat, m: nat) returns (more: seq<Step>, p: Pass)
    requires Going(steps, slow, late) && Idle(Run(steps, Initial(slow)), slow, n, t, m) && b <= slow
    ensures Going(more, slow, late) && p.todo == [Claim(MINE, n + 1)] && p.stage == Recording(Transient)
    ensures Working(Run(more, Initial(slow)), slow, p, Email(Pending, n + 1, t + late + LEASE, 0), m + 4)
    ensures Run(more, Initial(slow)).now == t + late + Span(BATCH_SIZE, b)
  {
    hide Run, Possible, Prompt, Working, Span;
    more := QueueOthers(steps, slow, late, n, t, m, 4);
    var s := Run(more, Initial(slow));
    var step := Tick(t + late - s.now);
    Go(more, step, slow, late);
    more := more + [step];
    more, p := TakeBatch(more, slow, late, n, t, m);
    more, p := ServeAll(more, slow, b, late, p, Email(Pending, n + 1, t + late + LEASE, 0), m + 4);
  }

  // --- Slow passes ---

  lemma Queued(slow: nat, late: nat) returns (steps: seq<Step>)
    ensures Going(steps, slow, late) && Idle(Run(steps, Initial(slow)), slow, 0, 0, 0)
  {
    var s0 := Initial(slow);
    assert Going([], slow, late) && Run([], s0) == s0;
    hide Run, Possible, Prompt;
    Go([], Enqueue(MINE), slow, late);
    steps := [] + [Enqueue(MINE)];
  }

  /** A pass one second slower than allowed still has its last email when its lease is up, and
      another pass takes it. */
  lemma TooSlowOverlaps(slow: nat) returns (steps: seq<Step>)
    requires slow > BOOKKEEPING
    ensures Possible(steps, Initial(slow)) && !Disjoint(Run(steps, Initial(slow)))
  {
    hide Run, Possible, Prompt, NotLate;
    steps := Queued(slow, 0);
    var p: Pass;
    steps, p := TryLate(steps, slow, BOOKKEEPING + 1, 0, 0, 0, 0);
    var s := Run(steps, Initial(slow));
    assert MINE in DueIds(s.rows, s.now);
    OneMore(steps, Take(1, [MINE]), Initial(slow));
    steps := steps + [Take(1, [MINE])];
    var t := Run(steps, Initial(slow));
    assert t.passes[0] == p && p.todo[0].id == MINE && t.passes[1].todo[0].id == MINE;
    assert Holds(t.passes[0], MINE) && Holds(t.passes[1], MINE);
  }

  /** No email is ever with two passes at once, in any run, exactly when a pass takes at most 14
      seconds over anything but the send itself. */
  lemma NeverByTwoIff(slow: nat)
    ensures (forall steps :: Possible(steps, Initial(slow)) ==> Disjoint(Run(steps, Initial(slow)))) <==> slow <= BOOKKEEPING
  {
    hide Disjoint, Run, Possible;
    if slow <= BOOKKEEPING {
      forall steps | Possible(steps, Initial(slow)) ensures Disjoint(Run(steps, Initial(slow))) {
        NeverSentByTwo(steps, slow);
      }
    } else {
      var steps := TooSlowOverlaps(slow);
    }
  }

  // --- Late claims ---

  /** The first n tries, each as late and as slow as may be. */
  lemma {:induction false} LateTries(slow: nat, late: nat, n: nat) returns (steps: seq<Step>)
    requires n < MAX_ATTEMPTS
    ensures Going(steps, slow, late) && Idle(Run(steps, Initial(slow)), slow, n, Slack(n, late, slow), 4 * n)
  {
    hide Run, Possible, Prompt, Span, Wait;
    if n == 0 {
      steps := Queued(slow, late);
    } else {
      hide Idle;
      steps := LateTries(slow, late, n - 1);
      steps := GoneWrong(steps, slow, late, n - 1, Slack(n - 1, late, slow), 4 * (n - 1));
    }
  }

  lemma GoneWrong(steps: seq<Step>, slow: nat, late: nat, n: nat, t: nat, m: nat) returns (more: seq<Step>)
    requires Going(steps, slow, late) && Idle(Run(steps, Initial(slow)), slow, n, t, m) && n + 1 < MAX_ATTEMPTS
    ensures Going(more, slow, late)
    ensures Idle(Run(more, Initial(slow)), slow, n + 1, t + late + Span(BATCH_SIZE, slow) + Wait(n + 1), m + 4)
  {
    hide Run, Possible, Prompt, Span, Wait;
    var p: Pass;
    more, p := TryLate(steps, slow, slow, late, n, t, m);
    var step := Record(0, true);
    var next := Apply(Run(more, Initial(slow)), step);
    assert next.passes == map[];
    Go(more, step, slow, late);
    more := more + [step];
  }

  /** Where six tries do not fit into a day, the sixth can still be under way when the email is
      over a day old, and giving up on old mail takes it. */
  lemma TooLateIsGivenUp(slow: nat, late: nat) returns (steps: seq<Step>)
    requires !FitsInADay(late, slow)
    ensures Going(steps, slow, late) && Pended(Run(steps, Initial(slow)).rows, MINE)
    ensures !Pended(Apply(Run(steps, Initial(slow)), FailOld).rows, MINE)
  {
    hide Run, Possible, Prompt, Slack, Span;
    steps := LateTries(slow, late, MAX_ATTEMPTS - 1);
    var p: Pass;
    steps, p := TryLate(steps, slow, slow, late, MAX_ATTEMPTS - 1, Slack(MAX_ATTEMPTS - 1, late, slow), 4 * (MAX_ATTEMPTS - 1));
  }

  /** An email of which no outcome is lost and that is never left due for more than `late` seconds
      is never given up on for its age, in any run, exactly when six tries so late fit into a day;
      with passes as slow as the lease allows, when `late` is at most 8950. */
  lemma NeverTooOldIff(slow: nat, late: nat)
    requires slow <= BOOKKEEPING
    ensures (forall steps, id ::
               Possible(steps, Initial(slow)) && Prompt(steps, slow, id, late) && Pended(Run(steps, Initial(slow)).rows, id) ==>
                 Pended(Apply(Run(steps, Initial(slow)), FailOld).rows, id))
            <==> 6 * (late + Span(BATCH_SIZE, slow)) + 30960 <= MAX_AGE
    ensures slow == BOOKKEEPING ==> (6 * (late + Span(BATCH_SIZE, slow)) + 30960 <= MAX_AGE <==> late <= 8950)
  {
    FitsInADayWhen(late, slow);
    hide Run, Possible, Prompt, Slack, Span, FitsInADay;
    if FitsInADay(late, slow) {
      forall steps, id | Possible(steps, Initial(slow)) && Prompt(steps, slow, id, late) && Pended(Run(steps, Initial(slow)).rows, id)
        ensures Pended(Apply(Run(steps, Initial(slow)), FailOld).rows, id)
      {
        TriesBeforeTheCutoff(steps, slow, id, late);
      }
    } else {
      var steps := TooLateIsGivenUp(slow, late);
    }
  }
}
