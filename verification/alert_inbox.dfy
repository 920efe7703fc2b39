/** The in-app inbox: raising alerts, and each person's read and dismissed marks. */
module AlertInbox {
  import opened Wire
  import opened Text
  import opened Audience
  import LikePattern

  datatype Resolution = Open | Cleared | Closed(closer: Option<Id>)

  datatype Alert = Alert(severity: Severity, title: string, key: Option<string>, occurrences: nat, raisedAt: nat, resolution: Resolution)

  /** A missing row means unread and not dismissed. */
  datatype Marks = Marks(readAt: Option<nat>, dismissedAt: Option<nat>)

  datatype Inbox = Inbox(tables: Tables, alerts: map<Id, Alert>, marks: map<(Id, Id), Marks>)

  function MarksOf(s: Inbox, alert: Id, user: Id): Marks {
    if (alert, user) in s.marks then s.marks[(alert, user)] else Marks(None, None)
  }

  function WithMarks(s: Inbox, alert: Id, user: Id, m: Marks): Inbox {
    s.(marks := s.marks[(alert, user) := m])
  }

  predicate Visible(s: Inbox, v: Viewer, alert: Id) {
    && alert in s.alerts
    && Addressed(s.tables, alert, v)
    && (v.user.Some? ==> MarksOf(s, alert, v.user.value).dismissedAt == None)
  }

  /** The unread view: open, visible, and not read by this viewer. */
  function Unread(s: Inbox, v: Viewer): set<Id> {
    set a | a in s.alerts && Visible(s, v, a) && s.alerts[a].resolution == Open
            && (v.user.Some? ==> MarksOf(s, a, v.user.value).readAt == None)
  }

  function CountUnread(s: Inbox, v: Viewer): nat {
    if v.user.None? then 0 else |Unread(s, v)|
  }

  /** At most one open alert per dedupe key, as the partial unique index has it. */
  ghost predicate OneOpenPerKey(s: Inbox) {
    forall a, b :: a in s.alerts && b in s.alerts && HoldsKey(s.alerts[a]) && s.alerts[a].key == s.alerts[b].key && HoldsKey(s.alerts[b]) ==> a == b
  }

  predicate HoldsKey(a: Alert) {
    a.key.Some? && a.resolution == Open
  }

  /** Nothing anyone sees of the read, dismissed and resolved state differs. */
  ghost predicate SameFlags(s: Inbox, t: Inbox) {
    && s.tables == t.tables && s.alerts == t.alerts
    && forall a, u :: SameMarks(MarksOf(s, a, u), MarksOf(t, a, u))
  }

  predicate SameMarks(m: Marks, n: Marks) {
    (m.readAt.Some? <==> n.readAt.Some?) && (m.dismissedAt.Some? <==> n.dismissedAt.Some?)
  }

  datatype Outcome = NotFound | NotPermitted | Unchanged | Changed | AuditFailed | AuditAndRevertFailed

  datatype NewAlert = NewAlert(severity: Severity, title: string, key: Option<string>, audiences: set<Audience>)

  datatype Raised = Refused | Created(alert: Id) | Repeated(alert: Id, escalated: bool)

  predicate Known(t: Tables, a: Audience) {
    match a
    case ToUser(u) => u in t.users
    case ToGroup(g) => g in t.groups
    case ToTier(_) => true
  }

  function Address(t: Tables, alert: Id, audiences: set<Audience>): Tables {
    t.(audiences := t.audiences + set a | a in audiences :: Addressee(alert, a))
  }

  function Repeat(s: Inbox, id: Id, n: NewAlert, now: nat): Inbox
    requires id in s.alerts
  {
    var a := s.alerts[id];
    var escalated := n.severity.Rank() > a.severity.Rank();
    Inbox(Address(s.tables, id, n.audiences),
          s.alerts[id := a.(severity := n.severity, title := n.title, occurrences := a.occurrences + 1, raisedAt := now)],
          if escalated then map k | k in s.marks :: if k.0 == id then s.marks[k].(readAt := None) else s.marks[k] else s.marks)
  }

  function Create(s: Inbox, id: Id, n: NewAlert, now: nat): Inbox {
    Inbox(Address(s.tables, id, n.audiences), s.alerts[id := Alert(n.severity, n.title, n.key, 1, now, Open)], s.marks)
  }

  /** An alert that someone raises. */
  datatype Raising = Raising(n: NewAlert, newId: Id, now: nat)

  predicate Acceptable(s: Inbox, n: NewAlert) {
    forall a :: a in n.audiences ==> Known(s.tables, a)
  }

  predicate Holder(s: Inbox, id: Id, key: Option<string>) {
    id in s.alerts && HoldsKey(s.alerts[id]) && s.alerts[id].key == key
  }

  /** The inbox once it is raised: refused, one more occurrence, or new. */
  ghost function AfterRaise(s: Inbox, m: Raising): Inbox {
    if !Acceptable(s, m.n) then s
    else if exists id :: Holder(s, id, m.n.key) then
      var id :| Holder(s, id, m.n.key);
      Repeat(s, id, m.n, m.now)
    else Create(s, m.newId, m.n, m.now)
  }

  ghost function AfterAny(s: Inbox, m: Option<Raising>): Inbox {
    if m == None then s else AfterRaise(s, m.value)
  }

  /** Raising m puts an open alert under the key of this one, which is closed. */
  predicate TakesKey(s: Inbox, id: Id, m: Raising)
    requires id in s.alerts
  {
    Acceptable(s, m.n) && m.n.key.Some? && m.n.key == s.alerts[id].key
  }

  function Resolved(s: Inbox, id: Id, r: Resolution): Inbox
    requires id in s.alerts
  {
    s.(alerts := s.alerts[id := s.alerts[id].(resolution := r)])
  }

  function ClearedAll(s: Inbox, ids: set<Id>): Inbox {
    s.(alerts := map a | a in s.alerts :: if a in ids then s.alerts[a].(resolution := Cleared) else s.alerts[a])
  }

  /** Another open alert has the key of this one. */
  predicate KeyTaken(s: Inbox, id: Id)
    requires id in s.alerts
  {
    exists b :: b in s.alerts && b != id && HoldsKey(s.alerts[b]) && s.alerts[b].key == s.alerts[id].key
  }

  predicate MayResolve(s: Inbox, v: Viewer, alert: Id) {
    || v.tier == Admin // the SuperAdmin views as an Admin without a user id
    || (v.user.Some? && (set a | a in s.tables.audiences && a.alert == alert :: a.audience) == {ToUser(v.user.value)})
  }

  class Alerts {
    var inbox: Inbox

    constructor (tables: Tables)
      ensures inbox == Inbox(tables, map[], map[])
    {
      inbox := Inbox(tables, map[], map[]);
    }

    /** Record an alert, or one more occurrence of the open alert with its key. */
    method Raise(n: NewAlert, newId: Id, now: nat) returns (r: Raised)
      requires OneOpenPerKey(inbox) && newId !in inbox.alerts
      modifies this
      ensures OneOpenPerKey(inbox)
      ensures r.Refused? <==>
                exists a :: a in n.audiences && ((a.ToUser? && a.user !in old(inbox).tables.users) || (a.ToGroup? && a.group !in old(inbox).tables.groups))
      ensures r.Refused? ==> inbox == old(inbox)
      ensures r.Created? ==>
                && r.alert == newId && inbox == Create(old(inbox), newId, n, now)
                && forall x :: x in old(inbox).alerts && old(inbox).alerts[x].resolution == Open && n.key.Some? ==> old(inbox).alerts[x].key != n.key
      ensures r.Repeated? ==>
                && r.alert in old(inbox).alerts && n.key.Some? && n.key == old(inbox).alerts[r.alert].key && old(inbox).alerts[r.alert].resolution == Open
                && inbox == Repeat(old(inbox), r.alert, n, now)
                && r.escalated == (n.severity.Rank() > old(inbox).alerts[r.alert].severity.Rank())
      ensures inbox == AfterRaise(old(inbox), Raising(n, newId, now))
    {
      if exists a :: a in n.audiences && !Known(inbox.tables, a) {
        return Refused;
      }
      if id: Id :| id in inbox.alerts && HoldsKey(inbox.alerts[id]) && inbox.alerts[id].key == n.key {
        var escalated := n.severity.Rank() > inbox.alerts[id].severity.Rank();
        RaiseRepeats(inbox, id, Raising(n, newId, now));
        inbox := Repeat(inbox, id, n, now);
        r := Repeated(id, escalated);
      } else {
        inbox := Create(inbox, newId, n, now);
        r := Created(newId);
      }
    }

    method ResolveByDedupeKey(key: string) returns (closed: set<Id>)
      requires OneOpenPerKey(inbox)
      modifies this
      ensures OneOpenPerKey(inbox) && |closed| <= 1
      ensures closed == set a | a in old(inbox).alerts && HoldsKey(old(inbox).alerts[a]) && old(inbox).alerts[a].key == Some(key)
      ensures inbox == ClearedAll(old(inbox), closed)
    {
      closed := set a | a in inbox.alerts && HoldsKey(inbox.alerts[a]) && inbox.alerts[a].key == Some(key);
      AtMostOne(closed);
      inbox := ClearedAll(inbox, closed);
    }

    /** Close every open alert whose key starts with prefix, taken literally, and is not in keep. */
    method ResolveByKeyPrefixExcept(prefix: string, keep: set<string>) returns (closed: set<Id>)
      requires OneOpenPerKey(inbox)
      modifies this
      ensures OneOpenPerKey(inbox)
      ensures closed == set a | a in old(inbox).alerts && HoldsKey(old(inbox).alerts[a])
                                && HasPrefix(old(inbox).alerts[a].key.value, prefix) && old(inbox).alerts[a].key.value !in keep
      ensures inbox == ClearedAll(old(inbox), closed)
    {
      var pattern := LikePattern.Escape(prefix) + "%";
      forall key: string ensures LikePattern.Like(key, pattern) <==> HasPrefix(key, prefix) {
        LikePattern.EscapedPrefixIsLiteral(key, prefix);
      }
      closed := set a | a in inbox.alerts && HoldsKey(inbox.alerts[a])
                        && LikePattern.Like(inbox.alerts[a].key.value, pattern) && inbox.alerts[a].key.value !in keep;
      inbox := ClearedAll(inbox, closed);
    }

    method MarkRead(v: Viewer, id: Id, now: nat, audited: bool, reverted: bool) returns (r: Outcome)
      modifies this
      ensures r == (if !Visible(old(inbox), v, id) then NotFound
                    else if v.user.None? || MarksOf(old(inbox), id, v.user.value).readAt.Some? then Unchanged
                    else if audited then Changed
                    else if reverted then AuditFailed
                    else AuditAndRevertFailed)
      ensures r == Changed || r == AuditAndRevertFailed ==>
                v.user.Some? && inbox == WithMarks(old(inbox), id, v.user.value, MarksOf(old(inbox), id, v.user.value).(readAt := Some(now)))
      ensures r != Changed && r != AuditAndRevertFailed ==> SameFlags(inbox, old(inbox))
      ensures r == Unchanged ==> v.user.Some? ==> MarksOf(old(inbox), id, v.user.value).readAt.Some?
      ensures r == AuditFailed || r == AuditAndRevertFailed ==> !audited && (r == AuditFailed <==> reverted)
    {
      if !Visible(inbox, v, id) {
        return NotFound;
      }
      if v.user.None? || MarksOf(inbox, id, v.user.value).readAt.Some? {
        return Unchanged;
      }
      var before := MarksOf(inbox, id, v.user.value);
      inbox := WithMarks(inbox, id, v.user.value, before.(readAt := Some(now)));
      if audited {
        return Changed;
      }
      if !reverted {
        return AuditAndRevertFailed;
      }
      inbox := WithMarks(inbox, id, v.user.value, MarksOf(inbox, id, v.user.value).(readAt := None));
      r := AuditFailed;
    }

    /** The revert marks the alert read again, but at the time of the revert. */
    method MarkUnread(v: Viewer, id: Id, now: nat, audited: bool, reverted: bool) returns (r: Outcome)
      modifies this
      ensures r == (if !Visible(old(inbox), v, id) then NotFound
                    else if v.user.None? || MarksOf(old(inbox), id, v.user.value).readAt.None? then Unchanged
                    else if audited then Changed
                    else if reverted then AuditFailed
                    else AuditAndRevertFailed)
      ensures r == Changed || r == AuditAndRevertFailed ==>
                v.user.Some? && inbox == WithMarks(old(inbox), id, v.user.value, MarksOf(old(inbox), id, v.user.value).(readAt := None))
      ensures r != Changed && r != AuditAndRevertFailed ==> SameFlags(inbox, old(inbox))
      ensures r == AuditFailed ==> v.user.Some? && MarksOf(inbox, id, v.user.value).readAt == Some(now)
      ensures r == Unchanged ==> v.user.Some? ==> MarksOf(old(inbox), id, v.user.value).readAt.None?
      ensures r == AuditFailed || r == AuditAndRevertFailed ==> !audited && (r == AuditFailed <==> reverted)
    {
      if !Visible(inbox, v, id) {
        return NotFound;
      }
      if v.user.None? || MarksOf(inbox, id, v.user.value).readAt.None? {
        return Unchanged;
      }
      var before := MarksOf(inbox, id, v.user.value);
      inbox := WithMarks(inbox, id, v.user.value, before.(readAt := None));
      if audited {
        return Changed;
      }
      if !reverted {
        return AuditAndRevertFailed;
      }
      inbox := WithMarks(inbox, id, v.user.value, MarksOf(inbox, id, v.user.value).(readAt := Some(now)));
      r := AuditFailed;
    }

    method Dismiss(v: Viewer, id: Id, now: nat, audited: bool, reverted: bool) returns (r: Outcome)
      modifies this
      ensures r == (if !Visible(old(inbox), v, id) then NotFound
                    else if v.user.None? then Unchanged
                    else if audited then Changed
                    else if reverted then AuditFailed
                    else AuditAndRevertFailed)
      ensures r == Changed || r == AuditAndRevertFailed ==>
                v.user.Some? && inbox == WithMarks(old(inbox), id, v.user.value, MarksOf(old(inbox), id, v.user.value).(dismissedAt := Some(now)))
      ensures r != Changed && r != AuditAndRevertFailed ==> SameFlags(inbox, old(inbox))
      ensures r == Unchanged ==> v.user.None?
      ensures r == AuditFailed || r == AuditAndRevertFailed ==> !audited && (r == AuditFailed <==> reverted)
    {
      if !Visible(inbox, v, id) {
        return NotFound;
      }
      if v.user.None? {
        return Unchanged;
      }
      var before := MarksOf(inbox, id, v.user.value);
      inbox := WithMarks(inbox, id, v.user.value, before.(dismissedAt := Some(now)));
      if audited {
        return Changed;
      }
      if !reverted {
        return AuditAndRevertFailed;
      }
      inbox := WithMarks(inbox, id, v.user.value, MarksOf(inbox, id, v.user.value).(dismissedAt := None));
      r := AuditFailed;
    }

    /** Everything in the viewer's unread view, as one change with one audit entry. On a failed
        audit the marks are taken back one by one, each of which may fail. */
    method MarkAllRead(v: Viewer, now: nat, audited: bool, reverts: Id -> bool) returns (r: Outcome, n: nat)
      modifies this
      ensures r == (if CountUnread(old(inbox), v) == 0 then Unchanged
                    else if audited then Changed
                    else if forall a :: a in Unread(old(inbox), v) ==> reverts(a) then AuditFailed
                    else AuditAndRevertFailed)
      ensures n == if r == Changed then CountUnread(old(inbox), v) else 0
      ensures r == Unchanged ==> inbox == old(inbox)
      ensures r == Changed ==> v.user.Some? && inbox == MarkedRead(old(inbox), v.user.value, now, Unread(old(inbox), v), Unread(old(inbox), v))
      ensures SameFlags(inbox, old(inbox)) <==> r in {Unchanged, AuditFailed}
    {
      hide MarkedRead, SameFlags, Visible;
      r, n := Unchanged, 0;
      if v.user.None? || |Unread(inbox, v)| == 0 {
        assert SameFlags(inbox, inbox) by { SameFlagsSelf(inbox); }
        return;
      }
      var u := v.user.value;
      var ids := Unread(inbox, v);
      ghost var start := inbox;
      inbox := MarkedRead(inbox, u, now, ids, ids);
      MarkedFlags(start, u, now, ids, ids, v);
      if audited {
        return Changed, |ids|;
      }
      var failed := TakeBack(u, now, ids, reverts, start);
      MarkedFlags(start, u, now, failed, ids, v);
      if failed == {} {
        assert forall a :: a in ids && !reverts(a) ==> a in failed;
        r := AuditFailed;
      } else {
        assert exists a :: a in ids && !reverts(a);
        r := AuditAndRevertFailed;
      }
    }

    /** The revert loop of MarkAllRead; `failed` are the marks that could not be taken back. */
    method TakeBack(u: Id, now: nat, ids: set<Id>, reverts: Id -> bool, ghost start: Inbox) returns (failed: set<Id>)
      requires inbox == MarkedRead(start, u, now, ids, ids)
      modifies this
      ensures failed == set a | a in ids && !reverts(a)
      ensures inbox == MarkedRead(start, u, now, failed, ids)
    {
      hide MarkedRead, WithMarks, MarksOf;
      var todo := ids;
      failed := {};
      assert todo + failed == ids;
      while todo != {}
        invariant todo <= ids && failed <= ids - todo
        invariant forall a :: a in ids - todo ==> (a in failed <==> !reverts(a))
        invariant inbox == MarkedRead(start, u, now, todo + failed, ids)
      {
        var id :| id in todo;
        if reverts(id) {
          UnmarkOne(start, u, now, todo + failed, ids, id);
          assert todo + failed - {id} == (todo - {id}) + failed;
          inbox := WithMarks(inbox, id, u, MarksOf(inbox, id, u).(readAt := None));
        } else {
          assert todo + failed == (todo - {id}) + (failed + {id});
          failed := failed + {id};
        }
        todo := todo - {id};
      }
      assert todo + failed == failed && ids - todo == ids;
    }

    /** Close an alert for everyone: an Admin, or the only person it is addressed to. Someone may
        raise another one before a failed audit is reverted; if that takes the key, the revert
        fails, else it is as if the alert had never been closed. */
    method ResolveAlert(v: Viewer, id: Id, audited: bool, meanwhile: Option<Raising>, reverted: bool) returns (r: Outcome)
      requires OneOpenPerKey(inbox) && (meanwhile.Some? ==> meanwhile.value.newId !in inbox.alerts)
      modifies this
      ensures OneOpenPerKey(inbox)
      ensures r.NotFound? <==> !Visible(old(inbox), v, id)
      ensures r.NotPermitted? <==> Visible(old(inbox), v, id) && !MayResolve(old(inbox), v, id)
      ensures r == Unchanged <==> Visible(old(inbox), v, id) && MayResolve(old(inbox), v, id) && old(inbox).alerts[id].resolution != Open
      ensures r.NotFound? || r.NotPermitted? || r.Unchanged? ==> inbox == old(inbox)
      ensures r.Changed? || r.AuditFailed? || r.AuditAndRevertFailed? ==> id in old(inbox).alerts && (r.Changed? <==> audited)
      ensures r == Changed ==> inbox == Resolved(old(inbox), id, Closed(v.user))
      ensures r == AuditFailed ==> inbox == AfterAny(old(inbox), meanwhile)
      ensures r == AuditAndRevertFailed ==> inbox == AfterAny(Resolved(old(inbox), id, Closed(v.user)), meanwhile)
      ensures r == AuditFailed || r == AuditAndRevertFailed ==>
                (r == AuditFailed <==> reverted && !(meanwhile.Some? && TakesKey(old(inbox), id, meanwhile.value)))
    {
      if !Visible(inbox, v, id) {
        return NotFound;
      }
      if !MayResolve(inbox, v, id) {
        return NotPermitted;
      }
      ghost var before := inbox;
      if inbox.alerts[id].resolution != Open {
        return Unchanged;
      }
      inbox := Resolved(inbox, id, Closed(v.user));
      if audited {
        return Changed;
      }
      if meanwhile.Some? {
        var raised := Raise(meanwhile.value.n, meanwhile.value.newId, meanwhile.value.now);
      }
      ghost var between := inbox;
      KeyTakenMeanwhile(before, id, v.user, meanwhile);
      if !reverted {
        return AuditAndRevertFailed;
      }
      var ok := Reopen(id);
      if !ok {
        return AuditAndRevertFailed;
      }
      AsIfNeverClosed(before, id, v.user, meanwhile);
      r := AuditFailed;
    }

    /** Undo a resolution. The unique index refuses it exactly when the alert's key is by now held
        by another open alert. */
    method Reopen(id: Id) returns (ok: bool)
      requires OneOpenPerKey(inbox) && id in inbox.alerts
      modifies this
      ensures OneOpenPerKey(inbox)
      ensures ok <==> !KeyTaken(old(inbox), id)
      ensures inbox == if ok then Resolved(old(inbox), id, Open) else old(inbox)
    {
      if KeyTaken(inbox, id) {
        return false;
      }
      inbox := Resolved(inbox, id, Open);
      ok := true;
    }
  }

  lemma RaiseRepeats(s: Inbox, id: Id, m: Raising)
    requires OneOpenPerKey(s) && Acceptable(s, m.n) && Holder(s, id, m.n.key)
    ensures AfterRaise(s, m) == Repeat(s, id, m.n, m.now)
  {
    hide Repeat, Acceptable;
    var b :| Holder(s, b, m.n.key) && AfterRaise(s, m) == Repeat(s, b, m.n, m.now);
  }

  lemma RaiseCreates(s: Inbox, m: Raising)
    requires Acceptable(s, m.n) && !exists b :: Holder(s, b, m.n.key)
    ensures AfterRaise(s, m) == Create(s, m.newId, m.n, m.now)
  {
  }

  /** Closing an alert leaves the other holders of keys, and takes it out of them. */
  lemma CloseLeavesHolders(s: Inbox, id: Id, closer: Option<Id>, b: Id, key: Option<string>)
    requires id in s.alerts
    ensures Holder(Resolved(s, id, Closed(closer)), b, key) <==> b != id && Holder(s, b, key)
  {
  }

  lemma RepeatLeavesHolders(s: Inbox, id: Id, b: Id, n: NewAlert, now: nat, x: Id, key: Option<string>)
    requires id in s.alerts && Holder(s, b, n.key) && id != b
    ensures Holder(Repeat(s, b, n, now), x, key) <==> Holder(s, x, key)
    ensures id in Repeat(s, b, n, now).alerts && Repeat(s, b, n, now).alerts[id] == s.alerts[id]
  {
  }

  lemma CreateAddsHolder(s: Inbox, id: Id, newId: Id, n: NewAlert, now: nat, x: Id, key: Option<string>)
    requires id in s.alerts && newId !in s.alerts
    ensures Holder(Create(s, newId, n, now), x, key) <==> Holder(s, x, key) || (x == newId && key.Some? && n.key == key)
    ensures id in Create(s, newId, n, now).alerts && Create(s, newId, n, now).alerts[id] == s.alerts[id]
  {
  }

  lemma KeyTakenIs(s: Inbox, id: Id)
    requires id in s.alerts
    ensures KeyTaken(s, id) <==> exists b :: b != id && Holder(s, b, s.alerts[id].key)
  {
    if KeyTaken(s, id) {
      var b :| b in s.alerts && b != id && HoldsKey(s.alerts[b]) && s.alerts[b].key == s.alerts[id].key;
      assert Holder(s, b, s.alerts[id].key);
    }
  }

  /** After a close and whatever was raised since, another open alert has the key exactly when
      what was raised took it. */
  lemma KeyTakenMeanwhile(s: Inbox, id: Id, closer: Option<Id>, m: Option<Raising>)
    requires OneOpenPerKey(s) && id in s.alerts && s.alerts[id].resolution == Open
    requires m.Some? ==> m.value.newId !in s.alerts
    ensures var t := AfterAny(Resolved(s, id, Closed(closer)), m);
            id in t.alerts && (KeyTaken(t, id) <==> m.Some? && TakesKey(s, id, m.value))
  {
    var c, key := Resolved(s, id, Closed(closer)), s.alerts[id].key;
    var t := AfterAny(c, m);
    forall b, k ensures Holder(c, b, k) <==> b != id && Holder(s, b, k) {
      CloseLeavesHolders(s, id, closer, b, k);
    }
    assert c.alerts[id].key == key && forall b :: Holder(s, b, key) ==> b == id;
    assert OneOpenPerKey(c);
    hide OneOpenPerKey, Holder, KeyTaken, Repeat, Create, HoldsKey;
    if m.Some? && Acceptable(c, m.value.n) {
      var n, now := m.value.n, m.value.now;
      if b :| Holder(c, b, n.key) {
        RaiseRepeats(c, b, m.value);
        forall x ensures Holder(t, x, key) <==> Holder(c, x, key) {
          RepeatLeavesHolders(c, id, b, n, now, x, key);
        }
        RepeatLeavesHolders(c, id, b, n, now, id, key);
      } else {
        RaiseCreates(c, m.value);
        forall x ensures Holder(t, x, key) <==> Holder(c, x, key) || (x == m.value.newId && key.Some? && n.key == key) {
          CreateAddsHolder(c, id, m.value.newId, n, now, x, key);
        }
        CreateAddsHolder(c, id, m.value.newId, n, now, id, key);
        assert Holder(t, m.value.newId, key) <==> key.Some? && n.key == key;
      }
    }
    assert id in t.alerts && t.alerts[id].key == key;
    KeyTakenIs(t, id);
  }

  lemma CloseThenRepeat(s: Inbox, id: Id, closer: Option<Id>, b: Id, n: NewAlert, now: nat)
    requires id in s.alerts && b in s.alerts && id != b && s.alerts[id].resolution == Open
    ensures var t := Repeat(Resolved(s, id, Closed(closer)), b, n, now);
            id in t.alerts && Resolved(t, id, Open) == Repeat(s, b, n, now)
  {
    assert Resolved(Repeat(Resolved(s, id, Closed(closer)), b, n, now), id, Open).alerts == Repeat(s, b, n, now).alerts;
  }

  lemma CloseThenCreate(s: Inbox, id: Id, closer: Option<Id>, newId: Id, n: NewAlert, now: nat)
    requires id in s.alerts && newId !in s.alerts && s.alerts[id].resolution == Open
    ensures var t := Create(Resolved(s, id, Closed(closer)), newId, n, now);
            id in t.alerts && Resolved(t, id, Open) == Create(s, newId, n, now)
  {
    assert Resolved(Create(Resolved(s, id, Closed(closer)), newId, n, now), id, Open).alerts == Create(s, newId, n, now).alerts;
  }

  lemma AsIfNeverClosed(s: Inbox, id: Id, closer: Option<Id>, m: Option<Raising>)
    requires OneOpenPerKey(s) && id in s.alerts && s.alerts[id].resolution == Open
    requires m.Some? ==> m.value.newId !in s.alerts && !TakesKey(s, id, m.value)
    ensures var t := AfterAny(Resolved(s, id, Closed(closer)), m);
            id in t.alerts && Resolved(t, id, Open) == AfterAny(s, m)
  {
    var c := Resolved(s, id, Closed(closer));
    assert Resolved(c, id, Open).alerts == s.alerts;
    if m.Some? && Acceptable(s, m.value.n) {
      var n, now := m.value.n, m.value.now;
      forall b ensures Holder(c, b, n.key) <==> b != id && Holder(s, b, n.key) {
        CloseLeavesHolders(s, id, closer, b, n.key);
      }
      assert !Holder(s, id, n.key) && OneOpenPerKey(c);
      assert forall b :: Holder(s, b, n.key) ==> b in s.alerts;
      hide OneOpenPerKey, Holder, Repeat, Create, Resolved;
      if b :| Holder(s, b, n.key) {
        RaiseRepeats(s, b, m.value);
        RaiseRepeats(c, b, m.value);
        CloseThenRepeat(s, id, closer, b, n, now);
      } else {
        RaiseCreates(s, m.value);
        RaiseCreates(c, m.value);
        CloseThenCreate(s, id, closer, m.value.newId, n, now);
      }
    }
  }

  lemma AtMostOne(ids: set<Id>)
    requires forall a, b :: a in ids && b in ids ==> a == b
    ensures |ids| <= 1
  {
    if ids != {} {
      var a :| a in ids;
      assert ids == {a};
    }
  }

  /** All of rows written for one user, read at `now` in the marked ones and unread in the rest. */
  function MarkedRead(s: Inbox, user: Id, now: nat, marked: set<Id>, rows: set<Id>): Inbox {
    s.(marks := map k | k in s.marks.Keys + set a | a in rows :: (a, user) ::
       if k.1 == user && k.0 in rows
       then MarksOf(s, k.0, user).(readAt := if k.0 in marked then Some(now) else None)
       else MarksOf(s, k.0, k.1))
  }

  lemma MarkedMarks(s: Inbox, user: Id, now: nat, marked: set<Id>, rows: set<Id>, a: Id, u: Id)
    ensures MarksOf(MarkedRead(s, user, now, marked, rows), a, u) ==
              if u == user && a in rows then MarksOf(s, a, u).(readAt := if a in marked then Some(now) else None) else MarksOf(s, a, u)
  {
    if u == user && a in rows {
      assert (a, user) in (set b | b in rows :: (b, user));
    }
  }

  lemma SameFlagsSelf(s: Inbox)
    ensures SameFlags(s, s)
  {
  }

  lemma UnmarkOne(s: Inbox, user: Id, now: nat, marked: set<Id>, rows: set<Id>, id: Id)
    requires id in rows
    ensures var t := MarkedRead(s, user, now, marked, rows);
            WithMarks(t, id, user, MarksOf(t, id, user).(readAt := None)) == MarkedRead(s, user, now, marked - {id}, rows)
  {
    var keys := s.marks.Keys + set a | a in rows :: (a, user);
    assert (id, user) in keys;
  }

  lemma MarkedFlags(s: Inbox, user: Id, now: nat, failed: set<Id>, rows: set<Id>, v: Viewer)
    requires v.user == Some(user) && rows == Unread(s, v) && failed <= rows
    ensures SameFlags(MarkedRead(s, user, now, failed, rows), s) <==> failed == {}
  {
    var t := MarkedRead(s, user, now, failed, rows);
    forall a, u ensures a !in failed || u != user ==> SameMarks(MarksOf(t, a, u), MarksOf(s, a, u)) {
      MarkedMarks(s, user, now, failed, rows, a, u);
    }
    if failed != {} {
      var a :| a in failed;
      MarkedMarks(s, user, now, failed, rows, a, user);
      assert !SameMarks(MarksOf(t, a, user), MarksOf(s, a, user));
    }
  }

  /** After marking all read the viewer's badge is 0, whatever a list had been limited to; nothing
      leaves or enters their inbox, and no other viewer's unread view changes. */
  lemma MarkAllReadEmptiesOneView(s: Inbox, v: Viewer, user: Id, now: nat, w: Viewer)
    requires v.user == Some(user)
    ensures var t := MarkedRead(s, user, now, Unread(s, v), Unread(s, v));
            && Unread(t, v) == {} && CountUnread(t, v) == 0
            && (forall a :: Visible(t, w, a) <==> Visible(s, w, a))
            && (w.user != v.user ==> Unread(t, w) == Unread(s, w))
  {
    var rows := Unread(s, v);
    var t := MarkedRead(s, user, now, rows, rows);
    forall a ensures a !in Unread(t, v) {
      MarkedMarks(s, user, now, rows, rows, a, user);
    }
    forall a
      ensures Visible(t, w, a) <==> Visible(s, w, a)
      ensures w.user != v.user ==> (a in Unread(t, w) <==> a in Unread(s, w))
    {
      if w.user.Some? {
        MarkedMarks(s, user, now, rows, rows, a, w.user.value);
      }
    }
    assert w.user != v.user ==> Unread(t, w) == Unread(s, w);
  }

  /** One person's mark on one alert changes nobody else's view. */
  lemma MarksArePersonal(s: Inbox, alert: Id, user: Id, m: Marks, w: Viewer)
    requires w.user != Some(user)
    ensures Unread(WithMarks(s, alert, user, m), w) == Unread(s, w)
    ensures forall a :: Visible(WithMarks(s, alert, user, m), w, a) <==> Visible(s, w, a)
  {
    var t := WithMarks(s, alert, user, m);
    assert forall a :: Visible(t, w, a) <==> Visible(s, w, a);
  }

  /** A repeat at a higher severity is unread again for everyone who sees it; one at the same or a
      lower severity stays read for those who read it. Either way a person who dismissed the
      alert keeps not seeing it, and everyone addressed before still is. */
  lemma RepeatReachesEveryone(s: Inbox, id: Id, n: NewAlert, now: nat, v: Viewer)
    requires id in s.alerts && s.alerts[id].resolution == Open
    ensures var t := Repeat(s, id, n, now);
            && (n.severity.Rank() > s.alerts[id].severity.Rank() ==> (id in Unread(t, v) <==> Visible(t, v, id)))
            && (n.severity.Rank() <= s.alerts[id].severity.Rank() ==>
                  (id in Unread(t, v) <==>
                     Visible(t, v, id) && (v.user.Some? ==> MarksOf(s, id, v.user.value).readAt == None)))
            && (Visible(t, v, id) <==>
                  && (Addressed(s.tables, id, v) || exists a :: a in n.audiences && Reaches(s.tables, a, v))
                  && (v.user.Some? ==> MarksOf(s, id, v.user.value).dismissedAt == None))
            && (forall other :: other != id ==>
                  && (Visible(t, v, other) <==> Visible(s, v, other))
                  && (other in Unread(t, v) <==> other in Unread(s, v)))
  {
    hide Reaches;
    var t := Repeat(s, id, n, now);
    forall a ensures Reaches(t.tables, a, v) <==> Reaches(s.tables, a, v) {
      ReachesIgnoresAudiences(s.tables, t.tables, a, v);
    }
    AddressedMore(s.tables, id, n.audiences, v);
  }

  /** A new alert is open, as it was raised, unread by everyone it is for, and addressed to exactly
      the audiences it names; nothing else about the inbox changes. */
  lemma RaisedIsAddressed(s: Inbox, id: Id, n: NewAlert, now: nat, v: Viewer)
    requires id !in s.alerts && (forall a :: a in s.tables.audiences ==> a.alert in s.alerts) && (forall k :: k in s.marks ==> k.0 in s.alerts)
    ensures var t := Create(s, id, n, now);
            && id in t.alerts && t.alerts[id] == Alert(n.severity, n.title, n.key, 1, now, Open)
            && (Visible(t, v, id) <==> exists a :: a in n.audiences && Reaches(s.tables, a, v))
            && (id in Unread(t, v) <==> Visible(t, v, id))
            && (forall other :: other in s.alerts ==> other in t.alerts && t.alerts[other] == s.alerts[other])
            && (forall other :: other != id ==> (Visible(t, v, other) <==> Visible(s, v, other)) && (other in Unread(t, v) <==> other in Unread(s, v)))
  {
    hide Reaches;
    AddressedMore(s.tables, id, n.audiences, v);
  }

  /** A repeat keeps the alert and counts one more; it shows what was raised last, and when. */
  lemma RepeatShowsTheLast(s: Inbox, id: Id, n: NewAlert, now: nat)
    requires id in s.alerts
    ensures var t := Repeat(s, id, n, now);
            && t.alerts.Keys == s.alerts.Keys && (forall other :: other in s.alerts && other != id ==> t.alerts[other] == s.alerts[other])
            && t.alerts[id] == Alert(n.severity, n.title, s.alerts[id].key, s.alerts[id].occurrences + 1, now, s.alerts[id].resolution)
            && (forall k :: k in s.marks && k.0 != id ==> k in t.marks && t.marks[k] == s.marks[k])
            && t.tables.users == s.tables.users && t.tables.groups == s.tables.groups
  {
  }

  /** A closed alert is in nobody's unread view, whoever or whatever closed it, stays visible to
      whom it was, and leaves every other alert as it was. */
  lemma ClosedIsUnreadForNobody(s: Inbox, ids: set<Id>, id: Id, r: Resolution, v: Viewer)
    requires ids <= s.alerts.Keys && id in s.alerts && r != Open
    ensures Unread(ClearedAll(s, ids), v) == Unread(s, v) - ids
    ensures Unread(Resolved(s, id, r), v) == Unread(s, v) - {id}
    ensures forall a :: Visible(ClearedAll(s, ids), v, a) <==> Visible(s, v, a)
    ensures forall a :: Visible(Resolved(s, id, r), v, a) <==> Visible(s, v, a)
    ensures forall a :: a in s.alerts ==> ClearedAll(s, ids).alerts[a] == if a in ids then s.alerts[a].(resolution := Cleared) else s.alerts[a]
    ensures id in Unread(Resolved(Resolved(s, id, r), id, Open), v) <==>
              Visible(s, v, id) && (v.user.Some? ==> MarksOf(s, id, v.user.value).readAt == None)
  {
    hide Addressed;
  }

  /** Resolving is for an Admin, and for a person who is the one addressee of the alert. */
  lemma MayResolveIff(s: Inbox, v: Viewer, alert: Id)
    ensures MayResolve(s, v, alert) <==>
              || v.tier == Admin
              || (&& v.user.Some? && Addressee(alert, ToUser(v.user.value)) in s.tables.audiences
                  && forall a :: a in s.tables.audiences && a.alert == alert ==> a == Addressee(alert, ToUser(v.user.value)))
  {
    var all := set a | a in s.tables.audiences && a.alert == alert :: a.audience;
    forall a | a in s.tables.audiences && a.alert == alert ensures a == Addressee(alert, a.audience) && a.audience in all {
    }
    if v.user.Some? && Addressee(alert, ToUser(v.user.value)) in s.tables.audiences
       && forall a :: a in s.tables.audiences && a.alert == alert ==> a == Addressee(alert, ToUser(v.user.value)) {
      assert all == {ToUser(v.user.value)};
    }
    if v.user.Some? && all == {ToUser(v.user.value)} {
      assert ToUser(v.user.value) in all;
    }
  }

  lemma ReachesIgnoresAudiences(t: Tables, t': Tables, a: Audience, v: Viewer)
    requires t' == t.(audiences := t'.audiences)
    ensures Reaches(t', a, v) <==> Reaches(t, a, v)
  {
  }

  lemma AddressedMore(t: Tables, id: Id, audiences: set<Audience>, v: Viewer)
    ensures Addressed(Address(t, id, audiences), id, v) <==> Addressed(t, id, v) || exists a :: a in audiences && Reaches(t, a, v)
    ensures forall other :: other != id ==> (Addressed(Address(t, id, audiences), other, v) <==> Addressed(t, other, v))
  {
    hide Reaches;
    var t' := Address(t, id, audiences);
    forall a ensures Reaches(t', a, v) <==> Reaches(t, a, v) {
      ReachesIgnoresAudiences(t, t', a, v);
    }
    forall a | a in audiences && Reaches(t, a, v) ensures Addressed(t', id, v) {
      assert Addressee(id, a) in t'.audiences;
    }
  }
}
