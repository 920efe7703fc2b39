/** How an email's stay in the queue can end. */
module MailEnds {
  import opened Wire
  import opened MailQueue
  import opened MailRuns
  import opened MailCounts

  /** What one step can do to a row: a pending one is never removed, a failed one becomes sent
      exactly when a pass that had the relay accept it writes that down; a sent one stays until it
      is purged. */
  lemma StepOnRow(s: State, step: Step, id: Id)
    requires Enabled(s, step) && id in s.rows && id in s.used
    ensures var t := Apply(s, step);
            && (s.rows[id].status == Pending ==> id in t.rows)
            && (s.rows[id].status == Sent && id in t.rows ==> t.rows[id].status == Sent)
            && (s.rows[id].status == Failed ==>
                  && ((id in t.rows && t.rows[id].status != Failed) <==>
                        step.Record? && step.written && Confirmed(s.passes[step.p], id))
                  && (id in t.rows ==> t.rows[id].status != Pending))
            && (id !in t.rows <==> step.Purge? && s.rows[id].status != Pending && s.rows[id].createdAt + 2592000 < s.now)
  {
    hide Wait;
  }

  /** Once sent, an email is sent, or its old record gone, in every state that can follow: nothing
      sends it again and its id is never queued again. */
  lemma {:induction false} SentIsFinal(steps: seq<Step>, s: State, id: Id)
    requires Possible(steps, s) && id in s.used && Gone(s.rows, id)
    ensures id in Run(steps, s).used && Gone(Run(steps, s).rows, id)
    decreases |steps|
  {
    hide Apply, Enabled;
    if steps != [] {
      var before := Run(steps[..|steps| - 1], s);
      SentIsFinal(steps[..|steps| - 1], s, id);
      GoneStays(before, steps[|steps| - 1], id);
    }
  }

  lemma GoneStays(s: State, step: Step, id: Id)
    requires Enabled(s, step) && id in s.used && Gone(s.rows, id)
    ensures id in Apply(s, step).used && Gone(Apply(s, step).rows, id)
  {
    hide Wait;
    if id in s.rows {
      StepOnRow(s, step, id);
    }
  }

  /** An email that is not pending and that no pass holds is never claimed while that lasts. */
  lemma GivenUpIsNotTaken(s: State, step: Step, id: Id)
    requires Enabled(s, step) && GivenUp(s, id)
    ensures Count(Apply(s, step).taken, id) == Count(s.taken, id) && (step.Take? ==> id !in step.picked)
  {
    hide Wait;
    if step.Take? {
      TakeFacts(s, step.picked);
    }
  }

  /** Once a pass has written down that the relay refused an email for good, or that it did not take
      its sixth try, the email is given up on, never claimed and never tried again. */
  lemma {:induction false} RefusedIsNeverTriedAgain(s: State, p: nat, steps: seq<Step>, id: Id)
    requires Sound(s) && Enabled(s, Record(p, true)) && s.passes[p].todo[0].id == id && Pended(s.rows, id)
    requires s.passes[p].stage == Recording(Permanent) || (s.passes[p].stage == Recording(Transient) && s.passes[p].todo[0].attempt >= 6)
    requires Possible(steps, Apply(s, Record(p, true)))
    ensures var t := Run(steps, Apply(s, Record(p, true)));
            && Count(t.taken, id) == Count(s.taken, id) && Count(t.sends, id) == Count(s.sends, id)
            && (id in t.rows ==> t.rows[id].status == Failed)
            && Sound(t) && GivenUp(t, id) && !InHand(t, id)
    decreases |steps|
  {
    hide PassesOk, Disjoint, GivenUp, Apply, Enabled, InHand, Pended;
    var first := Apply(s, Record(p, true));
    if steps == [] {
      RefusalGivesUp(s, p, id);
    } else {
      var before, step := Run(steps[..|steps| - 1], first), steps[|steps| - 1];
      RefusedIsNeverTriedAgain(s, p, steps[..|steps| - 1], id);
      StepKeepsPasses(before, step);
      GivenUpStays(before, step, id);
      GivenUpIsNotTaken(before, step, id);
      NotInHandNotSent(before, step, id);
      GivenUpMeans(Apply(before, step), id);
    }
  }

  lemma GivenUpMeans(s: State, id: Id)
    requires GivenUp(s, id)
    ensures id in s.rows ==> s.rows[id].status == Failed
  {
  }

  lemma NotInHandNotSent(s: State, step: Step, id: Id)
    requires Enabled(s, step) && !InHand(s, id) && (step.Take? ==> id !in step.picked)
    ensures Count(Apply(s, step).sends, id) == Count(s.sends, id) && !InHand(Apply(s, step), id)
  {
    var t := Apply(s, step);
    forall q | q in t.passes ensures !Holds(t.passes[q], id) {
      if Holds(t.passes[q], id) {
        HeldBefore(s, step, q, id);
      }
    }
    if step.Send? {
      HeadIsHeld(s.passes[step.p]);
    }
    hide Holds, Wait;
  }

  lemma HeadIsHeld(p: Pass)
    requires p.todo != []
    ensures Holds(p, p.todo[0].id)
  {
  }

  lemma RefusalGivesUp(s: State, p: nat, id: Id)
    requires Sound(s) && Enabled(s, Record(p, true)) && s.passes[p].todo[0].id == id && Pended(s.rows, id)
    requires s.passes[p].stage == Recording(Permanent) || (s.passes[p].stage == Recording(Transient) && s.passes[p].todo[0].attempt >= 6)
    ensures var t := Apply(s, Record(p, true));
            && Sound(t) && GivenUp(t, id) && !InHand(t, id)
            && id in t.rows && t.rows[id].status == Failed
            && t.taken == s.taken && t.sends == s.sends
  {
    var t := Apply(s, Record(p, true));
    StepKeepsPasses(s, Record(p, true));
    assert PassOk(s, s.passes[p]);
    TodoAfter(s, p, id);
    forall q | q in t.passes ensures !Holds(t.passes[q], id) {
      if q != p {
        OnlyOne(s, p, q, id);
      }
    }
    hide Holds, Wait, PassesOk, Disjoint, AfterRecord, PassOk;
  }

  /** The pass has nothing left to do about the email but to write down that it did not go. */
  predicate Refused(p: Pass, id: Id) {
    p.todo != [] && p.todo[0].id == id && p.stage.Recording? && p.stage.answer != Accepted
  }

  /** Some pass holds the email and may still have the relay accept it, or write that it did. */
  ghost predicate MayStillGo(s: State, id: Id) {
    exists p :: p in s.passes && Holds(s.passes[p], id) && !Refused(s.passes[p], id)
  }

  ghost predicate GivenUp(s: State, id: Id) {
    id in s.used && !MayStillGo(s, id) && (id in s.rows ==> s.rows[id].status == Failed)
  }

  /** An email given up on that no pass may still send stays given up on, or its old record is
      purged, in every state that can follow. */
  lemma {:induction false} GivenUpIsFinal(steps: seq<Step>, s: State, id: Id)
    requires Possible(steps, s) && Sound(s) && GivenUp(s, id)
    ensures Sound(Run(steps, s)) && GivenUp(Run(steps, s), id)
    decreases |steps|
  {
    hide Apply, Enabled, GivenUp, PassesOk, Disjoint;
    if steps != [] {
      var before := Run(steps[..|steps| - 1], s);
      GivenUpIsFinal(steps[..|steps| - 1], s, id);
      GivenUpStays(before, steps[|steps| - 1], id);
      StepKeepsPasses(before, steps[|steps| - 1]);
    }
  }

  lemma GivenUpStays(s: State, step: Step, id: Id)
    requires Enabled(s, step) && Sound(s) && GivenUp(s, id)
    ensures GivenUp(Apply(s, step), id)
  {
    hide Wait, Disjoint;
    var t := Apply(s, step);
    forall q | q in t.passes && Holds(t.passes[q], id) ensures Refused(t.passes[q], id) {
      HeldBefore(s, step, q, id);
      assert PassOk(s, s.passes[q]);
      RefusedStays(s, step, q, id);
    }
    if id in s.rows {
      StepOnRow(s, step, id);
    }
  }

  lemma RefusedStays(s: State, step: Step, q: nat, id: Id)
    requires Enabled(s, step) && q in s.passes && Refused(s.passes[q], id) && DistinctTodo(s.passes[q])
    requires q in Apply(s, step).passes && Holds(Apply(s, step).passes[q], id)
    ensures Refused(Apply(s, step).passes[q], id)
  {
    hide Wait;
    if step.Record? && step.p == q {
      TodoAfter(s, q, id);
    }
  }

  /** A failed email becomes sent in some continuation exactly when a pass may still send it. */
  lemma FailedBecomesSentIff(s: State, id: Id)
    requires Sound(s) && id in s.rows && s.rows[id].status == Failed
    ensures MayStillGo(s, id) <==>
              exists steps :: Possible(steps, s) && id in Run(steps, s).rows && Run(steps, s).rows[id].status == Sent
  {
    if MayStillGo(s, id) {
      var p :| p in s.passes && Holds(s.passes[p], id) && !Refused(s.passes[p], id);
      assert PassOk(s, s.passes[p]);
      assert Possible([], s) && Run([], s) == s;
      var steps := GoesAfterAll([], s, p, id);
    } else {
      forall steps | Possible(steps, s) && id in Run(steps, s).rows ensures Run(steps, s).rows[id].status != Sent {
        GivenUpIsFinal(steps, s, id);
      }
    }
  }

  /** Carry on with the pass, the relay accepting everything, until the email is written sent. */
  lemma GoesAfterAll(prefix: seq<Step>, s: State, p: nat, id: Id) returns (steps: seq<Step>)
    requires Possible(prefix, s)
    requires var c := Run(prefix, s);
             && p in c.passes && Holds(c.passes[p], id) && !Refused(c.passes[p], id) && id in c.rows
             && forall i :: 0 <= i < |c.passes[p].todo| ==> c.passes[p].todo[i].attempt >= 1
    ensures Possible(steps, s) && id in Run(steps, s).rows && Run(steps, s).rows[id].status == Sent
    decreases |Run(prefix, s).passes[p].todo|, match Run(prefix, s).passes[p].stage case Waiting => 2 case Sending => 1 case Recording(_) => 0
  {
    hide Run, Possible, Apply, Enabled;
    var c := Run(prefix, s);
    var step := NextStep(c.passes[p], p);
    GoesOn(c, p, id);
    OneMore(prefix, step, s);
    if step.Record? && c.passes[p].todo[0].id == id {
      steps := prefix + [step];
    } else {
      steps := GoesAfterAll(prefix + [step], s, p, id);
    }
  }

  function NextStep(pass: Pass, p: nat): Step {
    match pass.stage case Waiting => Send(p) case Sending => Hear(p, Accepted) case Recording(_) => Record(p, true)
  }

  /** The next step of a pass that holds the email brings it closer to being sent, or sends it. */
  lemma GoesOn(c: State, p: nat, id: Id)
    requires p in c.passes && Holds(c.passes[p], id) && !Refused(c.passes[p], id) && id in c.rows
    requires forall i :: 0 <= i < |c.passes[p].todo| ==> c.passes[p].todo[i].attempt >= 1
    ensures var step := NextStep(c.passes[p], p);
            && Enabled(c, step) && id in Apply(c, step).rows
            && (step.Record? && c.passes[p].todo[0].id == id ==> Apply(c, step).rows[id].status == Sent)
            && (!(step.Record? && c.passes[p].todo[0].id == id) ==>
                  var d := Apply(c, step);
                  && p in d.passes && Holds(d.passes[p], id) && !Refused(d.passes[p], id)
                  && d.passes[p].todo == (if step.Record? then c.passes[p].todo[1..] else c.passes[p].todo)
                  && d.passes[p].stage == if step.Send? then Sending else if step.Hear? then Recording(Accepted) else Waiting)
  {
    hide Wait;
    var pass := c.passes[p];
    var i :| 0 <= i < |pass.todo| && pass.todo[i].id == id;
    var step := NextStep(pass, p);
    var d := Apply(c, step);
    if !step.Record? {
      assert d.passes[p].todo[i].id == id;
    } else if pass.todo[0].id != id {
      assert d.passes[p].todo == pass.todo[1..] && pass.todo[1..][i - 1].id == id;
    }
  }

  /** A pass holds nothing it did not hold before, but what was due when it claimed. */
  lemma HeldBefore(s: State, step: Step, q: nat, id: Id)
    requires Enabled(s, step) && q in Apply(s, step).passes && Holds(Apply(s, step).passes[q], id)
    ensures (q in s.passes && Holds(s.passes[q], id)) || (step.Take? && step.p == q && id in step.picked && id in DueIds(s.rows, s.now))
  {
    var pass := Apply(s, step).passes[q];
    var i :| 0 <= i < |pass.todo| && pass.todo[i].id == id;
    if step.Take? && step.p == q {
      assert step.picked[i] == id;
    } else {
      TodoBefore(s, step, q);
      hide Apply, Enabled;
      var todo := s.passes[q].todo;
      assert todo[if pass.todo == todo then i else i + 1].id == id;
    }
  }

  /** A pass that goes on has the batch it had, or all but the first of it. */
  lemma TodoBefore(s: State, step: Step, q: nat)
    requires Enabled(s, step) && q in Apply(s, step).passes && !(step.Take? && step.p == q)
    ensures q in s.passes
    ensures var before, after := s.passes[q].todo, Apply(s, step).passes[q].todo;
            after == before || (before != [] && after == before[1..])
  {
    hide Wait, DueIds, FailedOld, Purged;
  }

  // --- `failed` is not final ---

  const LATE: nat := MAX_AGE - 10

  /** A day-old email is claimed just in time, given up on while the relay is taking it, and then
      recorded as sent after all. */
  const OVERTAKEN: seq<Step> := [
    Enqueue("a"), Tick(LATE), Take(0, ["a"]), Send(0), Tick(20), FailOld, Hear(0, Accepted), Record(0, true)
  ]

  lemma OneMore(steps: seq<Step>, step: Step, s: State)
    requires Possible(steps, s) && Enabled(Run(steps, s), step)
    ensures Possible(steps + [step], s) && Run(steps + [step], s) == Apply(Run(steps, s), step)
  {
    assert (steps + [step])[..|steps|] == steps;
  }

  lemma SentCanOverwriteFailed()
    ensures Possible(OVERTAKEN[..6], INITIAL) && Possible(OVERTAKEN, INITIAL)
    ensures var s := Run(OVERTAKEN[..6], INITIAL); "a" in s.rows && s.rows["a"].status == Failed
    ensures var s := Run(OVERTAKEN, INITIAL); "a" in s.rows && s.rows["a"].status == Sent
  {
    hide Run, Possible;
    var s6 := UntilFailed();
    OneMore(OVERTAKEN[..6], Hear(0, Accepted), INITIAL);
    assert OVERTAKEN[..7] == OVERTAKEN[..6] + [Hear(0, Accepted)];
    var s7 := Run(OVERTAKEN[..7], INITIAL);
    assert s7.rows == s6.rows && s7.passes[0].todo == [Claim("a", 1)];
    OneMore(OVERTAKEN[..7], Record(0, true), INITIAL);
    assert OVERTAKEN == OVERTAKEN[..7] + [Record(0, true)];
  }

  lemma UntilDayOld() returns (s5: State)
    ensures Possible(OVERTAKEN[..5], INITIAL) && s5 == Run(OVERTAKEN[..5], INITIAL)
    ensures s5.now == LATE + 20 && s5.rows == map["a" := Email(Pending, 1, LATE + LEASE, 0)]
    ensures s5.passes == map[0 := Pass(LATE, [Claim("a", 1)], Sending, LATE)]
  {
    hide Run, Possible;
    var s4 := UntilSend();
    OneMore(OVERTAKEN[..4], Tick(20), INITIAL);
    assert OVERTAKEN[..5] == OVERTAKEN[..4] + [Tick(20)];
    s5 := s4.(now := LATE + 20);
  }

  lemma UntilFailed() returns (s6: State)
    ensures Possible(OVERTAKEN[..6], INITIAL) && s6 == Run(OVERTAKEN[..6], INITIAL)
    ensures s6.rows == map["a" := Email(Failed, 1, LATE + LEASE, 0)]
    ensures s6.passes == map[0 := Pass(LATE, [Claim("a", 1)], Sending, LATE)]
  {
    hide Run, Possible;
    var s5 := UntilDayOld();
    OneMore(OVERTAKEN[..5], FailOld, INITIAL);
    assert OVERTAKEN[..6] == OVERTAKEN[..5] + [FailOld];
    s6 := Run(OVERTAKEN[..6], INITIAL);
    assert FailedOld(s5.rows, 10) == map["a" := Email(Failed, 1, LATE + LEASE, 0)];
  }

  lemma UntilLate() returns (s2: State)
    ensures Possible(OVERTAKEN[..2], INITIAL) && s2 == Run(OVERTAKEN[..2], INITIAL)
    ensures s2.now == LATE && s2.rows == map["a" := Email(Pending, 0, 0, 0)] && s2.passes == map[]
  {
    assert Possible([], INITIAL) && Run([], INITIAL) == INITIAL;
    hide Run, Possible;
    OneMore([], Enqueue("a"), INITIAL);
    assert OVERTAKEN[..1] == [] + [Enqueue("a")];
    var s1 := Run(OVERTAKEN[..1], INITIAL);
    assert s1.rows == map["a" := Email(Pending, 0, 0, 0)] && s1.passes == map[];
    OneMore(OVERTAKEN[..1], Tick(LATE), INITIAL);
    assert OVERTAKEN[..2] == OVERTAKEN[..1] + [Tick(LATE)];
    s2 := Run(OVERTAKEN[..2], INITIAL);
    assert s2 == s1.(now := LATE);
  }

  lemma UntilTaken() returns (s3: State)
    ensures Possible(OVERTAKEN[..3], INITIAL) && s3 == Run(OVERTAKEN[..3], INITIAL)
    ensures s3.now == LATE && s3.rows == map["a" := Email(Pending, 1, LATE + LEASE, 0)]
    ensures s3.passes == map[0 := Pass(LATE, [Claim("a", 1)], Waiting, LATE)]
  {
    hide Run, Possible;
    var s2 := UntilLate();
    assert "a" in DueIds(s2.rows, s2.now);
    OneMore(OVERTAKEN[..2], Take(0, ["a"]), INITIAL);
    assert OVERTAKEN[..3] == OVERTAKEN[..2] + [Take(0, ["a"])];
    s3 := Run(OVERTAKEN[..3], INITIAL);
    assert Claims(s2.rows, ["a"]) == [Claim("a", 1)];
    assert s3.passes == map[0 := Pass(LATE, [Claim("a", 1)], Waiting, LATE)];
  }

  lemma UntilSend() returns (s4: State)
    ensures Possible(OVERTAKEN[..4], INITIAL) && s4 == Run(OVERTAKEN[..4], INITIAL)
    ensures s4.now == LATE && s4.rows == map["a" := Email(Pending, 1, LATE + LEASE, 0)]
    ensures s4.passes == map[0 := Pass(LATE, [Claim("a", 1)], Sending, LATE)]
  {
    hide Run, Possible;
    var s3 := UntilTaken();
    OneMore(OVERTAKEN[..3], Send(0), INITIAL);
    assert OVERTAKEN[..4] == OVERTAKEN[..3] + [Send(0)];
    s4 := Run(OVERTAKEN[..4], INITIAL);
  }
}
