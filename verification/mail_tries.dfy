/** How often an email can really be tried: the bound over runs is reached. */
module MailTries {
  import opened Wire
  import opened MailQueue
  import opened MailRuns
  import opened MailCounts
  import opened MailEnds

  /** The email waits, due, with no pass at work: tried n times, accepted k times, l outcomes lost. */
  ghost predicate Waits(s: State, n: nat, k: nat, l: nat) {
    && s.passes == map[] && "a" in s.used
    && s.rows.Keys == {"a"} && s.rows["a"] == Email(Pending, n, s.rows["a"].nextAt, 0) && s.rows["a"].nextAt <= s.now
    && Counts(s, n, k, l)
  }

  ghost predicate Counts(s: State, n: nat, k: nat, l: nat) {
    Count(s.sends, "a") == n && Count(s.accepted, "a") == k && Count(s.losses, "a") == l
  }

  /** The relay has answered one more try, and the pass is about to write it down. */
  ghost predicate Heard(s: State, now: nat, n: nat, k: nat, l: nat, answer: Answer) {
    && s.now == now && "a" in s.used
    && s.rows == map["a" := Email(Pending, n, now + LEASE, 0)]
    && s.passes == map[0 := Pass(now, [Claim("a", n)], Recording(answer), now)]
    && Counts(s, n, k, l)
  }

  /** Every claim in the run comes right after giving up on mail over a day old, as in a pass. */
  predicate SweepsFirst(steps: seq<Step>) {
    forall i :: 0 <= i < |steps| && steps[i].Take? ==> i > 0 && steps[i - 1] == FailOld
  }

  /** The pass has claimed the email and is about to send it. */
  ghost predicate Ready(s: State, now: nat, n: nat, k: nat, l: nat) {
    && s.now == now && "a" in s.used
    && s.rows == map["a" := Email(Pending, n + 1, now + LEASE, 0)]
    && s.passes == map[0 := Pass(now, [Claim("a", n + 1)], Waiting, now)]
    && Counts(s, n, k, l)
  }

  /** While the email is not over a day old a pass would first give up on old mail, and leaves it. */
  lemma ClaimOnce(steps: seq<Step>, n: nat, k: nat, l: nat, sweeping: bool) returns (more: seq<Step>)
    requires Possible(steps, INITIAL) && Waits(Run(steps, INITIAL), n, k, l)
    requires sweeping ==> SweepsFirst(steps) && Run(steps, INITIAL).now <= MAX_AGE
    ensures Possible(more, INITIAL) && (sweeping ==> SweepsFirst(more))
    ensures Ready(Run(more, INITIAL), Run(steps, INITIAL).now, n, k, l)
  {
    hide Run, Possible, SweepsFirst, Counts;
    var s := Run(steps, INITIAL);
    more := steps;
    if sweeping {
      OneMore(more, FailOld, INITIAL);
      SweepsMore(more, FailOld);
      more := more + [FailOld];
      assert FailedOld(s.rows, s.now - MAX_AGE) == s.rows;
    }
    assert Run(more, INITIAL) == s;
    assert "a" in DueIds(s.rows, s.now);
    OneMore(more, Take(0, ["a"]), INITIAL);
    SweepsMore(more, Take(0, ["a"]));
    more := more + [Take(0, ["a"])];
    Taken(s, Run(more, INITIAL), n);
    assert Counts(Run(more, INITIAL), n, k, l) by { SameCounts(s, Run(more, INITIAL), n, k, l); }
  }

  lemma SameCounts(s: State, t: State, n: nat, k: nat, l: nat)
    requires t.sends == s.sends && t.accepted == s.accepted && t.losses == s.losses
    ensures Counts(t, n, k, l) <==> Counts(s, n, k, l)
  {
  }

  /** One more try, up to its answer. */
  lemma TryOnce(steps: seq<Step>, n: nat, k: nat, l: nat, answer: Answer, sweeping: bool) returns (more: seq<Step>)
    requires Possible(steps, INITIAL) && Waits(Run(steps, INITIAL), n, k, l)
    requires sweeping ==> SweepsFirst(steps) && Run(steps, INITIAL).now <= MAX_AGE
    ensures Possible(more, INITIAL) && (sweeping ==> SweepsFirst(more))
    ensures Heard(Run(more, INITIAL), Run(steps, INITIAL).now, n + 1, if answer == Accepted then k + 1 else k, l, answer)
  {
    hide Run, Possible, SweepsFirst, Waits;
    more := ClaimOnce(steps, n, k, l, sweeping);
    OneMore(more, Send(0), INITIAL);
    SweepsMore(more, Send(0));
    more := more + [Send(0)];
    OneMore(more, Hear(0, answer), INITIAL);
    SweepsMore(more, Hear(0, answer));
    more := more + [Hear(0, answer)];
  }

  lemma Taken(s: State, t: State, n: nat)
    requires s.passes == map[] && s.rows.Keys == {"a"} && s.rows["a"] == Email(Pending, n, s.rows["a"].nextAt, 0) && s.rows["a"].nextAt <= s.now
    requires Enabled(s, Take(0, ["a"])) && t == Apply(s, Take(0, ["a"]))
    ensures t.rows == map["a" := Email(Pending, n + 1, s.now + LEASE, 0)]
    ensures t.passes == map[0 := Pass(s.now, [Claim("a", n + 1)], Waiting, s.now)]
    ensures t == s.(rows := t.rows, passes := t.passes, taken := t.taken)
  {
    assert "a" in ["a"];
    assert Claims(s.rows, ["a"]) == [Claim("a", n + 1)];
  }

  lemma SweepsMore(steps: seq<Step>, step: Step)
    ensures SweepsFirst(steps) && (step.Take? ==> steps != [] && steps[|steps| - 1] == FailOld) ==> SweepsFirst(steps + [step])
  {
    var more := steps + [step];
    assert forall i :: 0 <= i < |steps| ==> more[i] == steps[i];
  }

  /** A try the relay puts off, up to the next one. */
  lemma PutOff(steps: seq<Step>, n: nat, sweeping: bool) returns (more: seq<Step>)
    requires n + 1 < MAX_ATTEMPTS
    requires Possible(steps, INITIAL) && Waits(Run(steps, INITIAL), n, 0, 0)
    requires sweeping ==> SweepsFirst(steps) && Run(steps, INITIAL).now <= MAX_AGE
    ensures Possible(more, INITIAL) && (sweeping ==> SweepsFirst(more)) && Waits(Run(more, INITIAL), n + 1, 0, 0)
    ensures Run(more, INITIAL).now == Run(steps, INITIAL).now + Wait(n + 1)
  {
    hide Run, Possible, SweepsFirst, Wait;
    more := TryOnce(steps, n, 0, 0, Transient, sweeping);
    OneMore(more, Record(0, true), INITIAL);
    SweepsMore(more, Record(0, true));
    more := more + [Record(0, true)];
    assert Run(more, INITIAL).passes == map[];
    OneMore(more, Tick(Wait(n + 1)), INITIAL);
    SweepsMore(more, Tick(Wait(n + 1)));
    more := more + [Tick(Wait(n + 1))];
  }

  /** A try whose outcome, an acceptance, is lost, up to the end of its lease. */
  lemma LoseOne(steps: seq<Step>, n: nat, k: nat, l: nat, sweeping: bool) returns (more: seq<Step>)
    requires Possible(steps, INITIAL) && Waits(Run(steps, INITIAL), n, k, l)
    requires sweeping ==> SweepsFirst(steps) && Run(steps, INITIAL).now <= MAX_AGE
    ensures Possible(more, INITIAL) && (sweeping ==> SweepsFirst(more)) && Waits(Run(more, INITIAL), n + 1, k + 1, l + 1)
    ensures Run(more, INITIAL).now == Run(steps, INITIAL).now + LEASE
  {
    hide Run, Possible, SweepsFirst;
    more := TryOnce(steps, n, k, l, Accepted, sweeping);
    OneMore(more, Record(0, false), INITIAL);
    SweepsMore(more, Record(0, false));
    more := more + [Record(0, false)];
    assert Run(more, INITIAL).passes == map[];
    OneMore(more, Tick(LEASE), INITIAL);
    SweepsMore(more, Tick(LEASE));
    more := more + [Tick(LEASE)];
  }

  /** The waits before the first n retries. */
  function TotalWait(n: nat): nat {
    if n == 0 then 0 else TotalWait(n - 1) + Wait(n)
  }

  lemma {:induction false} PutOffTimes(n: nat, sweeping: bool) returns (steps: seq<Step>)
    requires n < MAX_ATTEMPTS
    ensures Possible(steps, INITIAL) && (sweeping ==> SweepsFirst(steps)) && Waits(Run(steps, INITIAL), n, 0, 0)
    ensures Run(steps, INITIAL).now == TotalWait(n)
  {
    if n == 0 {
      assert Possible([], INITIAL) && Run([], INITIAL) == INITIAL;
      OneMore([], Enqueue("a"), INITIAL);
      steps := [] + [Enqueue("a")];
    } else {
      hide Run, Possible, SweepsFirst, Wait, Waits;
      steps := PutOffTimes(n - 1, sweeping);
      TotalWaitIsShort(n - 1);
      steps := PutOff(steps, n - 1, sweeping);
    }
  }

  lemma TotalWaitIsShort(n: nat)
    requires n < MAX_ATTEMPTS
    ensures TotalWait(n) <= 30960
    ensures n == MAX_ATTEMPTS - 1 ==> TotalWait(n) == 30960
  {
    assert TotalWait(1) == 60;
    assert TotalWait(2) == 360;
    assert TotalWait(3) == 2160;
    assert TotalWait(4) == 9360;
    assert TotalWait(5) == 30960;
  }

  lemma {:induction false} LoseTimes(l: nat, sweeping: bool) returns (steps: seq<Step>)
    requires sweeping ==> 30960 + l * LEASE <= MAX_AGE
    ensures Possible(steps, INITIAL) && (sweeping ==> SweepsFirst(steps)) && Waits(Run(steps, INITIAL), MAX_ATTEMPTS - 1 + l, l, l)
    ensures Run(steps, INITIAL).now == 30960 + l * LEASE
  {
    hide Run, Possible, SweepsFirst, Waits;
    if l == 0 {
      TotalWaitIsShort(MAX_ATTEMPTS - 1);
      steps := PutOffTimes(MAX_ATTEMPTS - 1, sweeping);
    } else {
      steps := LoseTimes(l - 1, sweeping);
      steps := LoseOne(steps, MAX_ATTEMPTS - 1 + l - 1, l - 1, l - 1, sweeping);
    }
  }

  /** The bounds on tries and acceptances are reached: for any number l of lost outcomes there is a
      run with just these, 6 + l tries and 1 + l acceptances; for up to 184 of them there is one in
      which every pass gives up on day-old mail first. */
  lemma BoundsAreReached(l: nat, sweeping: bool) returns (steps: seq<Step>)
    requires sweeping ==> l <= 184
    ensures Possible(steps, INITIAL) && (sweeping ==> SweepsFirst(steps))
    ensures Counts(Run(steps, INITIAL), MAX_ATTEMPTS + l, 1 + l, l)
  {
    hide Run, Possible, SweepsFirst;
    steps := LoseTimes(l, sweeping);
    steps := TryOnce(steps, MAX_ATTEMPTS - 1 + l, l, l, Accepted, sweeping);
  }

  /** In every run with at most l lost outcomes of it an email is tried at most six times, exactly
      when l is zero; one lost outcome is enough for a seventh try. */
  lemma SixTriesIff(l: nat)
    ensures (forall steps, id :: Possible(steps, INITIAL) && Count(Run(steps, INITIAL).losses, id) <= l ==>
               Count(Run(steps, INITIAL).sends, id) <= MAX_ATTEMPTS) <==> l == 0
  {
    hide Run, Possible;
    if l == 0 {
      forall steps, id | Possible(steps, INITIAL) && Count(Run(steps, INITIAL).losses, id) <= l
        ensures Count(Run(steps, INITIAL).sends, id) <= MAX_ATTEMPTS
      {
        TriesAreBounded(steps, BOOKKEEPING, id);
      }
    } else {
      var steps := BoundsAreReached(1, true);
      assert Count(Run(steps, INITIAL).losses, "a") <= l && Count(Run(steps, INITIAL).sends, "a") > MAX_ATTEMPTS;
    }
  }

  /** Likewise an email is accepted by the relay at most once in all of them exactly when l is zero. */
  lemma AcceptedOnceIff(l: nat)
    ensures (forall steps, id :: Possible(steps, INITIAL) && Count(Run(steps, INITIAL).losses, id) <= l ==>
               Count(Run(steps, INITIAL).accepted, id) <= 1) <==> l == 0
  {
    hide Run, Possible;
    if l == 0 {
      forall steps, id | Possible(steps, INITIAL) && Count(Run(steps, INITIAL).losses, id) <= l
        ensures Count(Run(steps, INITIAL).accepted, id) <= 1
      {
        TriesAreBounded(steps, BOOKKEEPING, id);
      }
    } else {
      var steps := BoundsAreReached(1, true);
      assert Count(Run(steps, INITIAL).losses, "a") <= l && Count(Run(steps, INITIAL).accepted, "a") > 1;
    }
  }
}
