/** How often an email is tried and accepted, over whole runs of the mail queue. */
module MailCounts {
  import opened Wire
  import opened MailQueue
  import opened MailRuns

  /** What the passes are doing with one email. */
  datatype View = Free | Held(unsent: bool, confirmed: bool)

  /** In a pass that holds the email: it has not gone to the relay yet; the relay accepted it
      and that is not written down yet. */
  predicate Unsent(p: Pass, id: Id)
    requires p.todo != []
  {
    p.stage == Waiting || p.todo[0].id != id
  }

  predicate Confirmed(p: Pass, id: Id)
    requires p.todo != []
  {
    p.stage == Recording(Accepted) && p.todo[0].id == id
  }

  ghost predicate InHand(s: State, id: Id) {
    exists p :: p in s.passes && Holds(s.passes[p], id)
  }

  ghost function ViewOf(s: State, id: Id): View {
    if InHand(s, id) then
      var p :| p in s.passes && Holds(s.passes[p], id);
      Held(Unsent(s.passes[p], id), Confirmed(s.passes[p], id))
    else Free
  }

  lemma ViewIs(s: State, p: nat, id: Id)
    requires Disjoint(s) && p in s.passes && Holds(s.passes[p], id)
    ensures ViewOf(s, id) == Held(Unsent(s.passes[p], id), Confirmed(s.passes[p], id))
  {
  }

  /** Passes other than p are as they were, so an email p has nothing to do with is too. */
  lemma ViewSame(s: State, t: State, p: nat, id: Id)
    requires Disjoint(s) && Disjoint(t)
    requires forall q :: q != p ==> (q in s.passes <==> q in t.passes) && (q in s.passes ==> s.passes[q] == t.passes[q])
    requires p in s.passes ==> !Holds(s.passes[p], id)
    requires p in t.passes ==> !Holds(t.passes[p], id)
    ensures ViewOf(t, id) == ViewOf(s, id)
  {
    hide Holds;
    assert forall q :: q in t.passes && Holds(t.passes[q], id) ==> q in s.passes && Holds(s.passes[q], id);
    if InHand(s, id) {
      var q :| q in s.passes && Holds(s.passes[q], id);
      ViewIs(s, q, id);
      ViewIs(t, q, id);
    }
  }

  predicate Pended(rows: Rows, id: Id) {
    id in rows && rows[id].status == Pending
  }

  predicate Gone(rows: Rows, id: Id) {
    id !in rows || rows[id].status == Sent
  }

  predicate Ok(rows: Rows, id: Id, used: bool, view: View, taken: nat, sends: nat, accepted: nat, losses: nat) {
    && sends + (if view.Held? && view.unsent then 1 else 0) <= taken
    && taken <= losses + MAX_ATTEMPTS - (if view.Free? && Pended(rows, id) then 1 else 0)
    && accepted <= losses + (if view.Held? then (if view.confirmed then 1 else 0) else if Gone(rows, id) then 1 else 0)
    && (id in rows ==> used && rows[id].attempts == taken)
    && (!used ==> accepted == taken == 0)
  }

  ghost predicate Counted(s: State, id: Id) {
    Ok(s.rows, id, id in s.used, ViewOf(s, id), Count(s.taken, id), Count(s.sends, id), Count(s.accepted, id), Count(s.losses, id))
  }

  ghost predicate Sound(s: State) {
    PassesOk(s) && Disjoint(s)
  }

  /** Steps that leave every pass alone. */
  lemma QuietKeepsCount(s: State, t: State, id: Id)
    requires Sound(s) && Counted(s, id) && t.passes == s.passes && t.used >= s.used && t.rows.Keys <= t.used
    requires t.taken == s.taken && t.sends == s.sends && t.accepted == s.accepted && t.losses == s.losses
    requires id in s.used && id in t.rows ==>
               && id in s.rows
               && (t.rows[id] == s.rows[id] || (t.rows[id] == s.rows[id].(status := Failed) && s.rows[id].status == Pending))
    requires id in s.rows && id !in t.rows ==> s.rows[id].status != Pending
    requires id !in s.used && id in t.rows ==> t.rows[id].attempts == 0 && t.rows[id].status == Pending
    ensures Counted(t, id)
  {
    assert InHand(t, id) <==> InHand(s, id);
    if InHand(s, id) {
      var q :| q in s.passes && Holds(s.passes[q], id);
      ViewIs(s, q, id);
      ViewIs(t, q, id);
      HeldIsNotDue(s, q, id);
    }
  }

  lemma TakeKeepsCount(s: State, p: nat, picked: seq<Id>, id: Id)
    requires Sound(s) && Counted(s, id) && Enabled(s, Take(p, picked))
    ensures Counted(Apply(s, Take(p, picked)), id)
  {
    hide PassesOk, Disjoint, DueIds, Ok;
    var t := Apply(s, Take(p, picked));
    TakeKeeps(s, p, picked);
    TakeFacts(s, picked);
    if id in picked {
      var i :| 0 <= i < |picked| && picked[i] == id;
      assert t.passes[p].todo[i].id == id;
      assert Holds(t.passes[p], id);
      ViewIs(t, p, id);
      forall q | q in s.passes ensures !Holds(s.passes[q], id) {
        if Holds(s.passes[q], id) {
          HeldIsNotDue(s, q, id);
        }
      }
      TakeCount(s, p, picked, id, t);
    } else {
      ViewSame(s, t, p, id);
      SameCount(s, t, id);
    }
  }

  lemma TakeCount(s: State, p: nat, picked: seq<Id>, id: Id, t: State)
    requires Enabled(s, Take(p, picked)) && t == Apply(s, Take(p, picked)) && Counted(s, id)
    requires id in picked && id in s.rows && Due(s.rows[id], s.now)
    requires ViewOf(s, id) == Free && ViewOf(t, id) == Held(true, false)
    ensures Counted(t, id)
  {
    hide ViewOf, DueIds, Claims;
  }

  lemma SameCount(s: State, t: State, id: Id)
    requires Counted(s, id) && t.used == s.used && ViewOf(t, id) == ViewOf(s, id)
    requires (id in t.rows <==> id in s.rows) && (id in s.rows ==> t.rows[id] == s.rows[id])
    requires Count(t.taken, id) == Count(s.taken, id) && Count(t.sends, id) == Count(s.sends, id)
    requires Count(t.accepted, id) == Count(s.accepted, id) && Count(t.losses, id) == Count(s.losses, id)
    ensures Counted(t, id)
  {
    hide ViewOf;
  }

  /** p's pass only moves on to its next stage. */
  lemma StageKeepsCount(s: State, step: Step, p: nat, id: Id)
    requires Sound(s) && Counted(s, id) && Enabled(s, step)
    requires step == Send(p) || (step.Hear? && step.p == p)
    ensures Counted(Apply(s, step), id)
  {
    var t := Apply(s, step);
    StepKeepsPasses(s, step);
    hide PassesOk, Disjoint, Ok;
    var before, after := s.passes[p], t.passes[p];
    assert after.todo == before.todo;
    if Holds(before, id) {
      assert Holds(after, id);
      ViewIs(s, p, id);
      ViewIs(t, p, id);
      HeldIsNotDue(s, p, id);
      StageCount(s, step, p, id, t);
    } else {
      ViewSame(s, t, p, id);
      assert before.todo[0].id != id;
      assert Count(t.sends, id) == Count(s.sends, id) && Count(t.accepted, id) == Count(s.accepted, id);
    }
  }

  lemma StageCount(s: State, step: Step, p: nat, id: Id, t: State)
    requires Enabled(s, step) && t == Apply(s, step) && Counted(s, id)
    requires step == Send(p) || (step.Hear? && step.p == p)
    requires ViewOf(s, id) == Held(Unsent(s.passes[p], id), Confirmed(s.passes[p], id))
    requires ViewOf(t, id) == Held(Unsent(t.passes[p], id), Confirmed(t.passes[p], id)) && id in s.used
    ensures Counted(t, id)
  {
    hide ViewOf;
    var before, after := s.passes[p], t.passes[p];
    assert after.todo == before.todo && !Confirmed(before, id) && t.rows == s.rows && t.used == s.used;
    if step.Send? {
      assert Unsent(before, id) && !Confirmed(after, id);
      assert Count(t.sends, id) == Count(s.sends, id) + if before.todo[0].id == id then 1 else 0;
    } else {
      assert Unsent(after, id) == Unsent(before, id);
      assert Count(t.accepted, id) == Count(s.accepted, id) + if Confirmed(after, id) then 1 else 0;
    }
  }

  lemma RecordKeepsCount(s: State, p: nat, written: bool, id: Id)
    requires Sound(s) && Counted(s, id) && Enabled(s, Record(p, written))
    ensures Counted(Apply(s, Record(p, written)), id)
  {
    var t := Apply(s, Record(p, written));
    var pass := s.passes[p];
    PassOverKeeps(s, p, t);
    assert PassOk(s, pass) && Leased(s.rows, pass.claimedAt, pass.todo[0]);
    TodoAfter(s, p, id);
    hide PassesOk, Disjoint, PassOk, Holds;
    if pass.todo[0].id == id {
      ViewIs(s, p, id);
      forall q | q in t.passes && q != p ensures !Holds(t.passes[q], id) {
        OnlyOne(s, p, q, id);
      }
      RecordCount(s, p, written, id, t);
    } else if Holds(pass, id) {
      ViewIs(s, p, id);
      ViewIs(t, p, id);
    } else {
      ViewSame(s, t, p, id);
    }
  }

  lemma OnlyOne(s: State, p: nat, q: nat, id: Id)
    requires Disjoint(s) && p in s.passes && q in s.passes && Holds(s.passes[p], id) && p != q
    ensures !Holds(s.passes[q], id)
  {
  }

  /** The first email leaves the pass, the others stay, and nothing is sent yet. */
  lemma TodoAfter(s: State, p: nat, id: Id)
    requires p in s.passes && s.passes[p].todo != [] && DistinctTodo(s.passes[p])
    ensures var m := AfterRecord(s, p);
            && (id == s.passes[p].todo[0].id ==> Holds(s.passes[p], id) && (p in m ==> !Holds(m[p], id)))
            && (id != s.passes[p].todo[0].id ==>
                  && (Holds(s.passes[p], id) <==> p in m && Holds(m[p], id))
                  && (Holds(s.passes[p], id) ==> m[p].stage == Waiting && m[p].todo != []))
  {
    var pass, m := s.passes[p], AfterRecord(s, p);
    assert pass.todo[0].id == id ==> Holds(pass, id);
    if p in m {
      assert forall i :: 0 <= i < |m[p].todo| ==> m[p].todo[i] == pass.todo[i + 1];
      forall i | 1 <= i < |pass.todo| && pass.todo[i].id == id ensures Holds(m[p], id) {
        assert m[p].todo[i - 1].id == id;
      }
    }
  }

  lemma RecordCount(s: State, p: nat, written: bool, id: Id, t: State)
    requires Enabled(s, Record(p, written)) && t == Apply(s, Record(p, written)) && Counted(s, id)
    requires s.passes[p].todo[0].id == id && Leased(s.rows, s.passes[p].claimedAt, s.passes[p].todo[0])
    requires ViewOf(s, id) == Held(Unsent(s.passes[p], id), Confirmed(s.passes[p], id)) && ViewOf(t, id) == Free
    ensures Counted(t, id)
  {
    hide ViewOf, Wait, AfterRecord;
  }

  lemma CrashKeepsCount(s: State, p: nat, id: Id)
    requires Sound(s) && Counted(s, id) && Enabled(s, Crash(p))
    ensures Counted(Apply(s, Crash(p)), id)
  {
    var t := Apply(s, Crash(p));
    CrashKeeps(s, p);
    BumpHeldCount(s.losses, s.passes[p], id);
    hide PassesOk, Disjoint, Holds;
    if Holds(s.passes[p], id) {
      ViewIs(s, p, id);
      forall q | q in t.passes ensures !Holds(t.passes[q], id) {
        OnlyOne(s, p, q, id);
      }
    } else {
      ViewSame(s, t, p, id);
    }
  }

  lemma BumpHeldCount(m: map<Id, nat>, p: Pass, id: Id)
    ensures Count(BumpHeld(m, p), id) == Count(m, id) + if Holds(p, id) then 1 else 0
  {
    if Holds(p, id) {
      var i :| 0 <= i < |p.todo| && p.todo[i].id == id;
      assert p.todo[i] in p.todo;
    }
  }

  lemma StepKeepsCount(s: State, step: Step, id: Id)
    requires Sound(s) && Counted(s, id) && Enabled(s, step)
    ensures Counted(Apply(s, step), id)
  {
    hide PassesOk, Disjoint, Counted;
    var t := Apply(s, step);
    match step
    case Take(p, picked) => TakeKeepsCount(s, p, picked, id);
    case Send(p) => StageKeepsCount(s, step, p, id);
    case Hear(p, _) => StageKeepsCount(s, step, p, id);
    case Record(p, written) => RecordKeepsCount(s, p, written, id);
    case Crash(p) => CrashKeepsCount(s, p, id);
    case Enqueue(_) => RowsAreUsed(s); QuietKeepsCount(s, t, id);
    case Tick(_) => RowsAreUsed(s); QuietKeepsCount(s, t, id);
    case FailOld => RowsAreUsed(s); QuietKeepsCount(s, t, id);
    case Purge => RowsAreUsed(s); QuietKeepsCount(s, t, id);
  }

  lemma RowsAreUsed(s: State)
    requires PassesOk(s)
    ensures s.rows.Keys <= s.used
  {
  }

  lemma {:induction false} EveryRunCounts(steps: seq<Step>, slow: nat, id: Id)
    requires Possible(steps, Initial(slow)) && slow <= BOOKKEEPING
    ensures Counted(Run(steps, Initial(slow)), id)
    decreases |steps|
  {
    hide PassesOk, Disjoint, Counted, Apply;
    if steps == [] {
      assert Counted(Initial(slow), id) by { InitialCounted(slow, id); }
    } else {
      EveryRunCounts(steps[..|steps| - 1], slow, id);
      NeverSentByTwo(steps[..|steps| - 1], slow);
      StepKeepsCount(Run(steps[..|steps| - 1], Initial(slow)), steps[|steps| - 1], id);
    }
  }

  lemma InitialCounted(slow: nat, id: Id)
    ensures Counted(Initial(slow), id)
  {
  }

  /** In every run, an email is tried at most six times, and accepted by the relay at most once,
      plus once for each claim whose outcome was lost to a crash, a shutdown or a failed write. */
  lemma TriesAreBounded(steps: seq<Step>, slow: nat, id: Id)
    requires Possible(steps, Initial(slow)) && slow <= BOOKKEEPING
    ensures var s := Run(steps, Initial(slow));
            && Count(s.sends, id) <= MAX_ATTEMPTS + Count(s.losses, id)
            && Count(s.accepted, id) <= 1 + Count(s.losses, id)
            && (id in s.rows ==> s.rows[id].attempts <= MAX_ATTEMPTS + Count(s.losses, id) && Count(s.sends, id) <= s.rows[id].attempts)
  {
    EveryRunCounts(steps, slow, id);
  }
}
