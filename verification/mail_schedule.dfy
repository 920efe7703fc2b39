/** When the tries of an email happen, and how late they may be for all to fit into a day. */
module MailSchedule {
  import opened Wire
  import opened MailQueue
  import opened MailRuns
  import opened MailCounts

  /** The most time from an email's queueing to its being due again after n tries that each
      started at most `late` seconds after it was due, in passes at most so slow. */
  function Slack(n: nat, late: nat, slow: nat): nat {
    if n == 0 then 0 else Slack(n - 1, late, slow) + late + Span(BATCH_SIZE, slow) + Wait(n)
  }

  lemma {:induction false} SlackGrows(m: nat, n: nat, late: nat, slow: nat)
    requires m <= n
    ensures Slack(m, late, slow) <= Slack(n, late, slow)
    decreases n
  {
    hide Wait;
    if m < n {
      SlackGrows(m, n - 1, late, slow);
    }
  }

  /** No outcome of this email was lost, and while it waits it is not left due for longer. */
  ghost predicate NotLate(s: State, id: Id, late: nat) {
    && Count(s.losses, id) == 0
    && (Pended(s.rows, id) && !InHand(s, id) ==> s.now <= s.rows[id].nextAt + late)
  }

  /** That in every state of the run. */
  ghost predicate Prompt(steps: seq<Step>, slow: nat, id: Id, late: nat)
    requires Possible(steps, Initial(slow))
    decreases |steps|
  {
    NotLate(Run(steps, Initial(slow)), id, late) && (steps != [] ==> Prompt(steps[..|steps| - 1], slow, id, late))
  }

  /** Where a pending email is in its schedule; a held one has its lease for next try. */
  ghost predicate OnSchedule(s: State, id: Id, late: nat) {
    Pended(s.rows, id) ==>
      var e := s.rows[id];
      if InHand(s, id) then e.attempts >= 1 && e.nextAt <= e.createdAt + Slack(e.attempts - 1, late, s.slow) + late + LEASE
      else e.nextAt <= e.createdAt + Slack(e.attempts, late, s.slow)
  }

  /** A step that neither claims the email nor ends its claim. */
  lemma QuietKeepsSchedule(s: State, t: State, id: Id, late: nat)
    requires OnSchedule(s, id, late) && (InHand(t, id) <==> InHand(s, id)) && t.slow == s.slow
    requires Pended(t.rows, id) ==> id in s.rows && t.rows[id] == s.rows[id]
    ensures OnSchedule(t, id, late)
  {
  }

  /** Only a claim brings an email into a pass, and only the end of its claim takes it out. */
  lemma InHandAfter(s: State, step: Step, id: Id)
    requires Sound(s) && Enabled(s, step)
    ensures var t := Apply(s, step);
            && (step.Take? ==> (InHand(t, id) <==> InHand(s, id) || id in step.picked))
            && (step.Record? ==> (InHand(t, id) <==> InHand(s, id) && s.passes[step.p].todo[0].id != id))
            && (!step.Take? && !step.Record? && !step.Crash? ==> (InHand(t, id) <==> InHand(s, id)))
            && (step.Crash? ==> (InHand(t, id) <==> InHand(s, id) && !Holds(s.passes[step.p], id)))
  {
    hide Wait, PassesOk, InHand, Holds;
    var t := Apply(s, step);
    match step
    case Take(p, picked) => TakeBrings(s, p, picked, id);
    case Record(p, _) => RecordReleases(s, p, t, id);
    case Crash(p) => CrashReleases(s, p, t, id);
    case Send(p) => SameTodo(s, t, id);
    case Hear(p, _) => SameTodo(s, t, id);
    case Enqueue(_) => SameTodo(s, t, id);
    case Tick(_) => SameTodo(s, t, id);
    case FailOld => SameTodo(s, t, id);
    case Purge => SameTodo(s, t, id);
  }

  lemma TakeBrings(s: State, p: nat, picked: seq<Id>, id: Id)
    requires Enabled(s, Take(p, picked))
    ensures InHand(Apply(s, Take(p, picked)), id) <==> InHand(s, id) || id in picked
  {
    hide DueIds, Due;
    TakeFacts(s, picked);
    var t := Apply(s, Take(p, picked));
    assert forall q :: q in s.passes ==> q in t.passes && t.passes[q] == s.passes[q];
    assert forall i :: 0 <= i < |picked| ==> t.passes[p].todo[i].id == picked[i];
    if id in picked {
      var i :| 0 <= i < |picked| && picked[i] == id;
      assert Holds(t.passes[p], id);
    }
  }

  lemma CrashReleases(s: State, p: nat, t: State, id: Id)
    requires Disjoint(s) && p in s.passes && t.passes == s.passes - {p}
    ensures InHand(t, id) <==> InHand(s, id) && !Holds(s.passes[p], id)
  {
    OthersNot(s, p, id);
    hide Holds, Disjoint;
    assert forall q :: q in t.passes ==> t.passes[q] == s.passes[q];
  }

  lemma RecordReleases(s: State, p: nat, t: State, id: Id)
    requires Sound(s) && p in s.passes && s.passes[p].todo != [] && t.passes == AfterRecord(s, p)
    ensures InHand(t, id) <==> InHand(s, id) && s.passes[p].todo[0].id != id
  {
    PassIsDistinct(s, p);
    TodoAfter(s, p, id);
    OthersNot(s, p, id);
    hide Holds, PassesOk, Disjoint;
    assert forall q :: q != p ==> (q in t.passes <==> q in s.passes) && (q in s.passes ==> t.passes[q] == s.passes[q]);
    if InHand(s, id) && s.passes[p].todo[0].id != id {
      var q :| q in s.passes && Holds(s.passes[q], id);
      assert q in t.passes && Holds(t.passes[q], id);
    }
  }

  lemma PassIsDistinct(s: State, p: nat)
    requires PassesOk(s) && p in s.passes
    ensures DistinctTodo(s.passes[p])
  {
    assert PassOk(s, s.passes[p]);
  }

  lemma SameTodo(s: State, t: State, id: Id)
    requires s.passes.Keys == t.passes.Keys && forall q :: q in s.passes ==> t.passes[q].todo == s.passes[q].todo
    ensures InHand(t, id) <==> InHand(s, id)
  {
    assert forall q :: q in s.passes ==> (Holds(t.passes[q], id) <==> Holds(s.passes[q], id));
  }

  lemma OthersNot(s: State, p: nat, id: Id)
    requires Disjoint(s) && p in s.passes
    ensures Holds(s.passes[p], id) ==> forall q :: q in s.passes && q != p ==> !Holds(s.passes[q], id)
  {
  }

  /** A claim of an email that was not left due for too long. */
  lemma TakeKeepsSchedule(s: State, p: nat, picked: seq<Id>, id: Id, late: nat)
    requires Sound(s) && Enabled(s, Take(p, picked)) && OnSchedule(s, id, late) && NotLate(s, id, late) && id in picked
    ensures OnSchedule(Apply(s, Take(p, picked)), id, late)
  {
    hide PassesOk, Disjoint, Holds;
    TakeFacts(s, picked);
    InHandAfter(s, Take(p, picked), id);
    if InHand(s, id) {
      var q :| q in s.passes && Holds(s.passes[q], id);
      HeldIsNotDue(s, q, id);
    }
  }

  /** The outcome of a claim written within its lease. */
  lemma RecordKeepsSchedule(s: State, p: nat, id: Id, late: nat)
    requires Sound(s) && Enabled(s, Record(p, true)) && OnSchedule(s, id, late) && s.passes[p].todo[0].id == id
    ensures OnSchedule(Apply(s, Record(p, true)), id, late)
  {
    var pass := s.passes[p];
    assert PassOk(s, pass) && Leased(s.rows, pass.claimedAt, pass.todo[0]);
    OnTimeIsWithinTheSpan(pass, s.now, s.slow);
    InHandAfter(s, Record(p, true), id);
    assert Holds(pass, id);
    hide PassesOk, Disjoint, PassOk, Holds, Wait, AfterRecord, Span;
    var a := pass.todo[0].attempt;
    assert Slack(a, late, s.slow) == Slack(a - 1, late, s.slow) + late + Span(BATCH_SIZE, s.slow) + Wait(a);
  }

  lemma LossesCount(s: State, p: nat, id: Id)
    requires Enabled(s, Record(p, false)) && s.passes[p].todo[0].id == id
    ensures Count(Apply(s, Record(p, false)).losses, id) > 0
  {
  }

  lemma StepKeepsSchedule(s: State, step: Step, id: Id, late: nat)
    requires Sound(s) && Enabled(s, step) && OnSchedule(s, id, late) && NotLate(s, id, late)
    requires Count(Apply(s, step).losses, id) == 0
    ensures OnSchedule(Apply(s, step), id, late)
  {
    hide PassesOk, Disjoint, OnSchedule, InHand, NotLate, Apply;
    if step.Take? && id in step.picked {
      TakeKeepsSchedule(s, step.p, step.picked, id, late);
    } else if step.Record? && s.passes[step.p].todo[0].id == id {
      LossesCount(s, step.p, id);
      assert step == Record(step.p, true);
      RecordKeepsSchedule(s, step.p, id, late);
    } else if step.Enqueue? && step.id == id {
      NewIsOnSchedule(s, id, late);
    } else {
      OthersKeepSchedule(s, step, id, late);
    }
  }

  /** Steps that neither claim the email, nor end its claim, nor queue it. */
  lemma OthersKeepSchedule(s: State, step: Step, id: Id, late: nat)
    requires Sound(s) && Enabled(s, step) && OnSchedule(s, id, late) && Count(Apply(s, step).losses, id) == 0
    requires step.Take? ==> id !in step.picked
    requires step.Record? ==> s.passes[step.p].todo[0].id != id
    requires step.Enqueue? ==> step.id != id
    ensures OnSchedule(Apply(s, step), id, late)
  {
    InHandAfter(s, step, id);
    if step.Crash? {
      BumpHeldCount(s.losses, s.passes[step.p], id);
    }
    hide PassesOk, Disjoint, Holds, Wait, OnSchedule, InHand, DueIds, BumpHeld, BumpPicked, Claims, AfterRecord;
    QuietKeepsSchedule(s, Apply(s, step), id, late);
  }

  lemma NewIsOnSchedule(s: State, id: Id, late: nat)
    requires Sound(s) && Enabled(s, Enqueue(id))
    ensures OnSchedule(Apply(s, Enqueue(id)), id, late)
  {
    hide Disjoint;
    forall q | q in s.passes && Holds(s.passes[q], id) ensures false {
      HeldIsNotDue(s, q, id);
    }
  }

  lemma {:induction false} PromptRunsAreOnSchedule(steps: seq<Step>, slow: nat, id: Id, late: nat)
    requires Possible(steps, Initial(slow)) && slow <= BOOKKEEPING && Prompt(steps, slow, id, late)
    ensures OnSchedule(Run(steps, Initial(slow)), id, late) && Run(steps, Initial(slow)).slow == slow
    decreases |steps|
  {
    hide PassesOk, Disjoint, OnSchedule, Apply;
    if steps == [] {
      assert OnSchedule(Initial(slow), id, late) by { InitialOnSchedule(slow, id, late); }
    } else {
      var init := steps[..|steps| - 1];
      PromptRunsAreOnSchedule(init, slow, id, late);
      NeverSentByTwo(init, slow);
      assert NotLate(Run(init, Initial(slow)), id, late);
      StepKeepsSchedule(Run(init, Initial(slow)), steps[|steps| - 1], id, late);
      SlowStays(Run(init, Initial(slow)), steps[|steps| - 1]);
    }
  }

  lemma SlowStays(s: State, step: Step)
    requires Enabled(s, step)
    ensures Apply(s, step).slow == s.slow
  {
  }

  lemma InitialOnSchedule(slow: nat, id: Id, late: nat)
    ensures OnSchedule(Initial(slow), id, late)
  {
  }

  /** Six tries so late, in passes so slow, fit into a day. */
  predicate FitsInADay(late: nat, slow: nat) {
    Slack(MAX_ATTEMPTS - 1, late, slow) + late + Span(BATCH_SIZE, slow) <= MAX_AGE
  }

  /** In every run in which no outcome of an email is lost and it is never left due for more than
      `late` seconds, it is tried and settled before it is over a day old, if six tries so late fit
      into a day; so it is never given up on for its age. */
  lemma TriesBeforeTheCutoff(steps: seq<Step>, slow: nat, id: Id, late: nat)
    requires Possible(steps, Initial(slow)) && slow <= BOOKKEEPING && Prompt(steps, slow, id, late) && FitsInADay(late, slow)
    ensures var s := Run(steps, Initial(slow));
            Pended(s.rows, id) ==> s.now <= s.rows[id].createdAt + MAX_AGE && Pended(Apply(s, FailOld).rows, id)
  {
    var s := Run(steps, Initial(slow));
    PromptRunsAreOnSchedule(steps, slow, id, late);
    NeverSentByTwo(steps, slow);
    EveryRunCounts(steps, slow, id);
    PromptIsNotLate(steps, slow, id, late);
    hide Run, Possible, Prompt;
    if Pended(s.rows, id) {
      ScheduledBeforeTheCutoff(s, id, late);
      hide PassesOk, Disjoint, Counted, OnSchedule;
      assert Pended(Apply(s, FailOld).rows, id);
    }
  }

  lemma PromptIsNotLate(steps: seq<Step>, slow: nat, id: Id, late: nat)
    requires Possible(steps, Initial(slow)) && Prompt(steps, slow, id, late)
    ensures NotLate(Run(steps, Initial(slow)), id, late)
  {
  }

  lemma ScheduledBeforeTheCutoff(s: State, id: Id, late: nat)
    requires PassesOk(s) && OnSchedule(s, id, late) && NotLate(s, id, late) && Counted(s, id) && FitsInADay(late, s.slow)
    requires Pended(s.rows, id)
    ensures s.now <= s.rows[id].createdAt + MAX_AGE
  {
    hide Slack, Wait, Span, PassesOk, Holds;
    var a := s.rows[id].attempts;
    if InHand(s, id) {
      var p :| p in s.passes && Holds(s.passes[p], id);
      HeldWithinTheSpan(s, p, id);
      SlackGrows(a - 1, MAX_ATTEMPTS - 1, late, s.slow);
    } else {
      SlackGrows(a, MAX_ATTEMPTS - 1, late, s.slow);
    }
  }

  /** A pending email in a pass was claimed a lease before its next try, and is soon settled. */
  lemma HeldWithinTheSpan(s: State, p: nat, id: Id)
    requires PassesOk(s) && p in s.passes && Holds(s.passes[p], id) && Pended(s.rows, id)
    ensures s.now + LEASE <= s.rows[id].nextAt + Span(BATCH_SIZE, s.slow)
  {
    var pass := s.passes[p];
    assert PassOk(s, pass);
    var i :| 0 <= i < |pass.todo| && pass.todo[i].id == id;
    assert Leased(s.rows, pass.claimedAt, pass.todo[i]);
    OnTimeIsWithinTheSpan(pass, s.now, s.slow);
  }

  /** How late that is: at the longest allowed bookkeeping, 8950 seconds at every try. */
  lemma FitsInADayWhen(late: nat, slow: nat)
    ensures FitsInADay(late, slow) <==> 6 * (late + Span(BATCH_SIZE, slow)) + 30960 <= MAX_AGE
    ensures FitsInADay(late, BOOKKEEPING) <==> late <= 8950
  {
    SlackIs(late, slow);
    SlackIs(late, BOOKKEEPING);
  }

  lemma SlackIs(late: nat, slow: nat)
    ensures Slack(MAX_ATTEMPTS - 1, late, slow) == 5 * (late + Span(BATCH_SIZE, slow)) + 30960
  {
    var each := late + Span(BATCH_SIZE, slow);
    assert Slack(1, late, slow) == each + 60;
    assert Slack(2, late, slow) == 2 * each + 360;
    assert Slack(3, late, slow) == 3 * each + 2160;
    assert Slack(4, late, slow) == 4 * each + 9360;
    assert Slack(5, late, slow) == 5 * each + 30960;
  }
}
