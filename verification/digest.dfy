/** Email about alerts: at once, or gathered into a digest that must lose nothing. */
module Digest {
  import opened Wire
  import opened Sorting
  import opened Audience
  import opened AlertInbox

  const MAX_LISTED: nat := 50
  const MAX_AGE: nat := 172800 // 48 hours, in seconds

  /** An alert waiting for a person's next digest, as it was when it was queued. */
  datatype Item = Item(severity: Severity, title: string, queuedAt: nat)

  /** Waiting items by (user, alert). */
  type Waiting = map<(Id, Id), Item>

  datatype Entry = Entry(alert: Id, severity: Severity, title: string, queuedAt: nat)

  datatype Mail =
    | AlertMail(to: Id, address: string, alert: Id, escalated: bool)
    | DigestMail(to: Id, address: string, mode: Delivery, listed: seq<Entry>, more: nat)

  // --- Worst first ---

  /** The worse comes first, and of two equally bad the one queued first. */
  predicate NotAfter(a: Entry, b: Entry) {
    a.severity.Rank() > b.severity.Rank() || (a.severity.Rank() == b.severity.Rank() && a.queuedAt <= b.queuedAt)
  }

  /** The stable sort the message is written in. */
  function WorstFirst(es: seq<Entry>): (r: seq<Entry>)
    ensures |r| == |es|
  {
    Sort((a, b) => NotAfter(a, b), es)
  }

  /** The sort rearranges, puts the worst and then the oldest first, and keeps ties as they came. */
  lemma WorstFirstIsAStableSort(es: seq<Entry>, tie: Entry)
    ensures multiset(WorstFirst(es)) == multiset(es)
    ensures Ordered((a, b) => NotAfter(a, b), WorstFirst(es))
    ensures Ties((a, b) => NotAfter(a, b), WorstFirst(es), tie) == Ties((a, b) => NotAfter(a, b), es, tie)
  {
    var leq := (a, b) => NotAfter(a, b);
    assert TotalOrder(leq);
    SortSorts(leq, es);
    SortIsStable(leq, es, tie);
  }

  /** The lines of the message: at most fifty alerts, and how many more there are. */
  method DigestMessage(entries: seq<Entry>) returns (listed: seq<Entry>, more: nat)
    ensures |listed| == Min(|entries|, MAX_LISTED) && listed == WorstFirst(entries)[..|listed|]
    ensures |listed| + more == |entries|
  {
    var sorted := WorstFirst(entries);
    listed, more := [], 0;
    var i := 0;
    while i < |sorted|
      invariant 0 <= i <= |sorted| && i <= MAX_LISTED
      invariant listed == sorted[..i] && more == 0
    {
      if i >= MAX_LISTED {
        more := |sorted| - MAX_LISTED;
        break;
      }
      listed := listed + [sorted[i]];
      i := i + 1;
    }
  }

  // --- What a digest should list ---

  /** Not resolved, and not dismissed by this person. */
  predicate StillOpen(s: Inbox, user: Id, alert: Id) {
    alert in s.alerts && s.alerts[alert].resolution == Open && MarksOf(s, alert, user).dismissedAt == None
  }

  predicate Worth(s: Inbox, w: Waiting, k: (Id, Id)) {
    k in w && k.0 in s.tables.users && StillOpen(s, k.0, k.1) && w[k].severity.Rank() >= s.tables.users[k.0].minSeverity.Rank()
  }

  predicate TakesDigest(s: Inbox, user: Id, mode: Delivery) {
    user in s.tables.users && s.tables.users[user].email.Some? && s.tables.users[user].delivery == mode
  }

  /** An item that a digest of this kind owes its person. */
  predicate Owed(s: Inbox, w: Waiting, k: (Id, Id), mode: Delivery) {
    Worth(s, w, k) && TakesDigest(s, k.0, mode)
  }

  /** Owed is: waiting, of an alert that is open and that this person has not dismissed, at least as
      severe as they ask for, and they have an address and want this kind of digest. */
  lemma OwedIff(s: Inbox, w: Waiting, user: Id, alert: Id, mode: Delivery)
    ensures Owed(s, w, (user, alert), mode) <==>
              && (user, alert) in w && user in s.tables.users && alert in s.alerts && s.alerts[alert].resolution == Open
              && ((alert, user) in s.marks ==> s.marks[(alert, user)].dismissedAt == None)
              && var u := s.tables.users[user];
                 u.email.Some? && u.delivery == mode && !(u.minSeverity.Rank() > w[(user, alert)].severity.Rank())
  {
  }

  ghost predicate OwedAny(s: Inbox, w: Waiting, user: Id, mode: Delivery) {
    exists a :: Owed(s, w, (user, a), mode)
  }

  function ItemEntry(k: (Id, Id), i: Item): Entry {
    Entry(k.1, i.severity, i.title, i.queuedAt)
  }

  /** Every waiting item of one person worth listing, each once. */
  ghost predicate EntriesOf(s: Inbox, w: Waiting, user: Id, es: seq<Entry>) {
    && (forall e :: e in es <==> (user, e.alert) in w && Worth(s, w, (user, e.alert)) && e == ItemEntry((user, e.alert), w[(user, e.alert)]))
    && (forall i, j :: 0 <= i < j < |es| ==> es[i].alert != es[j].alert)
  }

  /** A digest that tells its person, at the address they have, of every one of es. */
  ghost predicate Tells(m: Mail, t: Tables, user: Id, mode: Delivery, es: seq<Entry>) {
    && m.DigestMail? && m.to == user && m.mode == mode && es != []
    && user in t.users && t.users[user].email == Some(m.address)
    && |m.listed| == Min(|es|, MAX_LISTED) && m.listed == WorstFirst(es)[..|m.listed|] && |m.listed| + m.more == |es|
  }

  /** The email about an alert to one person, at the address they have. */
  predicate IsAlertMail(m: Mail, t: Tables, user: Id, alert: Id, escalated: bool) {
    user in t.users && t.users[user].email.Some? && m == AlertMail(user, t.users[user].email.value, alert, escalated)
  }

  /** What can go wrong around one person's digest. */
  datatype Luck = Luck(readUser: bool, readItems: bool, queued: bool, cleared: bool)

  /** The items of a person go exactly when they could be read and removed, and a digest that tells
      of them is queued if any of them is owed. */
  ghost predicate Clears(s: Inbox, w: Waiting, user: Id, mode: Delivery, luck: Luck) {
    luck.readUser && luck.readItems && luck.cleared && (luck.queued || !OwedAny(s, w, user, mode))
  }

  /** What a run that began with `start` has done about one person. */
  ghost predicate Served(s: Inbox, start: Waiting, w: Waiting, mode: Delivery, told: map<Id, seq<Entry>>, user: Id, luck: Luck) {
    && (user in told <==> luck.readUser && luck.readItems && luck.queued && OwedAny(s, start, user, mode))
    && (user in told ==> EntriesOf(s, start, user, told[user]))
    && (forall a :: (user, a) in w <==> (user, a) in start && !Clears(s, start, user, mode, luck))
  }

  /** So it is for each of these people before number `stop`, and for nobody else. */
  ghost predicate AllServed(s: Inbox, start: Waiting, w: Waiting, mode: Delivery, told: map<Id, seq<Entry>>, people: seq<Id>,
      luck: Id -> Luck, stop: nat)
  {
    && (forall i :: 0 <= i < |people| && i < stop ==> Served(s, start, w, mode, told, people[i], luck(people[i])))
    && (forall u :: u in told ==> u in people[..Min(stop, |people|)])
    && (forall k :: k in start && k.0 !in people[..Min(stop, |people|)] ==> k in w)
  }

  /** What a run starts from: no item over 48 hours old, if it could remove them. */
  function Recent(w: Waiting, now: nat, dropped: bool): Waiting {
    map k | k in w && (dropped ==> now <= w[k].queuedAt + 172800) :: w[k]
  }

  function Without(w: Waiting, user: Id): Waiting {
    map k | k in w && k.0 != user :: w[k]
  }

  predicate IsDigest(d: Delivery) {
    d == Hourly || d == Daily
  }

  class Notifier {
    var inbox: Inbox
    var waiting: Waiting
    var mails: seq<Mail>

    constructor (inbox: Inbox)
      ensures this.inbox == inbox && waiting == map[] && mails == []
    {
      this.inbox, waiting, mails := inbox, map[], [];
    }

    /** Everything waiting for one person, oldest first. */
    method PendingDigest(user: Id) returns (alerts: seq<Id>)
      ensures forall a :: a in alerts <==> (user, a) in waiting && a in inbox.alerts
      ensures forall i, j :: 0 <= i < j < |alerts| ==> alerts[i] != alerts[j]
      ensures forall i, j :: 0 <= i < j < |alerts| ==> waiting[(user, alerts[i])].queuedAt <= waiting[(user, alerts[j])].queuedAt
    {
      alerts := [];
      var left := set k | k in waiting && k.0 == user && k.1 in inbox.alerts;
      while left != {}
        invariant forall k :: k in left ==> k in waiting && k.0 == user && k.1 in inbox.alerts && k.1 !in alerts
        invariant forall a :: a in alerts ==> (user, a) in waiting && a in inbox.alerts
        invariant forall k :: k in waiting && k.0 == user && k.1 in inbox.alerts ==> k in left || k.1 in alerts
        invariant forall i, j :: 0 <= i < j < |alerts| ==> alerts[i] != alerts[j]
        invariant forall i, j :: 0 <= i < j < |alerts| ==> waiting[(user, alerts[i])].queuedAt <= waiting[(user, alerts[j])].queuedAt
        invariant forall i, k :: 0 <= i < |alerts| && k in left ==> waiting[(user, alerts[i])].queuedAt <= waiting[k].queuedAt
      {
        var k := OldestOf(left);
        left := left - {k};
        alerts := alerts + [k.1];
      }
      assert forall a :: (user, a) in waiting ==> (user, a).0 == user && (user, a).1 == a;
    }

    method OldestOf(ks: set<(Id, Id)>) returns (oldest: (Id, Id))
      requires ks != {} && ks <= waiting.Keys
      ensures oldest in ks && forall k :: k in ks ==> waiting[oldest].queuedAt <= waiting[k].queuedAt
    {
      oldest :| oldest in ks;
      var rest := ks - {oldest};
      while rest != {}
        invariant rest <= ks && oldest in ks
        invariant forall k :: k in ks - rest ==> waiting[oldest].queuedAt <= waiting[k].queuedAt
      {
        var k :| k in rest;
        rest := rest - {k};
        if waiting[k].queuedAt < waiting[oldest].queuedAt {
          oldest := k;
        }
      }
    }

    /** The items of one person worth listing, oldest first. */
    method Wanted(user: Id) returns (entries: seq<Entry>)
      requires user in inbox.tables.users
      ensures EntriesOf(inbox, waiting, user, entries)
    {
      var alerts := PendingDigest(user);
      entries := [];
      for i := 0 to |alerts|
        invariant forall e :: e in entries <==>
                    && e.alert in alerts[..i] && Worth(inbox, waiting, (user, e.alert))
                    && e == ItemEntry((user, e.alert), waiting[(user, e.alert)])
        invariant forall j, k :: 0 <= j < k < |entries| ==> entries[j].alert != entries[k].alert
      {
        var a := alerts[i];
        assert alerts[..i + 1] == alerts[..i] + [a] && a !in alerts[..i];
        if StillOpen(inbox, user, a) && waiting[(user, a)].severity.Rank() >= inbox.tables.users[user].minSeverity.Rank() {
          assert forall j :: 0 <= j < |entries| ==> entries[j] in entries;
          entries := entries + [ItemEntry((user, a), waiting[(user, a)])];
        }
      }
      assert alerts[..|alerts|] == alerts;
    }

    /** One person's digest, as one step. What they are owed leaves the waiting list only once a
        digest telling of all of it is queued; nobody else's items are touched. */
    method DigestFor(user: Id, mode: Delivery, luck: Luck) returns (ghost told: seq<Entry>)
      requires user in inbox.tables.users
      modifies this`waiting, this`mails
      ensures waiting == old(waiting) || waiting == Without(old(waiting), user)
      ensures mails == old(mails) || (|mails| == |old(mails)| + 1 && mails[..|old(mails)|] == old(mails)
                                      && EntriesOf(inbox, old(waiting), user, told) && Tells(mails[|old(mails)|], inbox.tables, user, mode, told))
      ensures mails != old(mails) <==> luck.readUser && luck.readItems && luck.queued && OwedAny(inbox, old(waiting), user, mode)
      ensures forall k :: k in waiting <==> k in old(waiting) && !(k.0 == user && Clears(inbox, old(waiting), user, mode, luck))
      ensures waiting != old(waiting) ==> mails != old(mails) || forall a :: !Owed(inbox, old(waiting), (user, a), mode)
    {
      told := [];
      if !luck.readUser || !luck.readItems {
        return;
      }
      var u := inbox.tables.users[user];
      var entries := Wanted(user);
      if entries == [] {
        forall a ensures !Worth(inbox, waiting, (user, a)) {
          assert Worth(inbox, waiting, (user, a)) ==> ItemEntry((user, a), waiting[(user, a)]) in entries;
        }
      } else {
        assert entries[0] in entries;
        assert Worth(inbox, waiting, (user, entries[0].alert));
      }
      if u.email.None? || u.delivery != mode || entries == [] {
        if luck.cleared {
          waiting := Without(waiting, user);
        }
        return;
      }
      var listed, more := DigestMessage(entries);
      if !luck.queued {
        return;
      }
      mails := mails + [DigestMail(user, u.email.value, mode, listed, more)];
      told := entries;
      if luck.cleared {
        waiting := Without(waiting, user);
      }
    }

    /** The people with items waiting whose choice is this kind of digest, each once. */
    method UsersWithDigestItems(mode: Delivery) returns (users: seq<Id>)
      ensures forall u :: u in users <==> u in inbox.tables.users && inbox.tables.users[u].delivery == mode && exists k :: k in waiting && k.0 == u
      ensures forall i, j :: 0 <= i < j < |users| ==> users[i] != users[j]
    {
      users := [];
      var left := set k | k in waiting && k.0 in inbox.tables.users && inbox.tables.users[k.0].delivery == mode :: k.0;
      ghost var all := left;
      while left != {}
        invariant left <= all && forall u :: u in users <==> u in all - left
        invariant forall i, j :: 0 <= i < j < |users| ==> users[i] != users[j]
      {
        var u :| u in left;
        assert u !in users;
        left := left - {u};
        users := users + [u];
      }
    }

    /** A whole digest run, stopped by a shutdown before person number `stop`; it ends with an error
        there, or where the settings or the people cannot be read. It sees to exactly the people with
        items waiting who chose this kind of digest: whoever is owed anything is told of all of it,
        and has nothing left waiting, as far as their own reads and writes go through. Whatever left
        the waiting list was over 48 hours old, or told of in a digest queued by this run, or not
        owed. */
    method RunDigest(mode: Delivery, now: nat, enabled: Option<bool>, dropped: bool, listed: bool, luck: Id -> Luck, stop: nat)
      returns (ok: bool, people: seq<Id>, ghost told: map<Id, seq<Entry>>)
      modifies this`waiting, this`mails
      ensures ok <==> IsDigest(mode) && enabled.Some? && (enabled.value ==> listed && |people| <= stop)
      ensures !IsDigest(mode) || enabled != Some(true) ==> waiting == old(waiting)
      ensures !IsDigest(mode) || enabled != Some(true) || !listed ==> people == [] && mails == old(mails)
      ensures Kept(old(waiting), waiting) && Queued(old(mails), mails, inbox.tables, mode, told)
      ensures forall k :: k in old(waiting) && k !in waiting ==>
                || old(waiting)[k].queuedAt + MAX_AGE < now
                || !Owed(inbox, old(waiting), k, mode)
                || (k.0 in told && ItemEntry(k, old(waiting)[k]) in told[k.0])
      ensures IsDigest(mode) && enabled == Some(true) ==>
                var start := Recent(old(waiting), now, dropped);
                && (listed ==> forall u :: u in people <==> u in inbox.tables.users && inbox.tables.users[u].delivery == mode && exists k :: k in start && k.0 == u)
                && AllServed(inbox, start, waiting, mode, told, people, luck, stop)
      ensures forall u :: u in told && luck(u).cleared ==> forall k :: k in waiting ==> k.0 != u
      ensures forall u :: u in told ==> exists k :: k in old(waiting) && k.0 == u
    {
      hide Tells, Owed, EntriesOf, OwedAny, Served, AllServed, Queued;
      people, told := [], map[];
      NothingTold(inbox, waiting, mails, mode, luck, stop);
      ok := false;
      if !IsDigest(mode) || enabled == None {
        return;
      }
      if !enabled.value {
        ok := true;
        return;
      }
      if dropped {
        waiting := map k | k in waiting && waiting[k].queuedAt + MAX_AGE >= now :: waiting[k];
      }
      ghost var start := waiting;
      assert start == Recent(old(waiting), now, dropped);
      NothingTold(inbox, start, mails, mode, luck, stop);
      OwedFromStart(inbox, old(waiting), start, mode);
      if !listed {
        return;
      }
      people := UsersWithDigestItems(mode);
      told := DigestAll(people, mode, luck, stop);
      AllServedMeans(inbox, start, waiting, mode, told, people, luck, stop);
      ok := |people| <= stop;
    }

    method DigestAll(users: seq<Id>, mode: Delivery, luck: Id -> Luck, stop: nat)
      returns (ghost told: map<Id, seq<Entry>>)
      requires forall u :: u in users ==> u in inbox.tables.users
      requires forall i, j :: 0 <= i < j < |users| ==> users[i] != users[j]
      modifies this`waiting, this`mails
      ensures Kept(old(waiting), waiting) && Queued(old(mails), mails, inbox.tables, mode, told)
      ensures Accounted(inbox, old(waiting), waiting, mode, told)
      ensures AllServed(inbox, old(waiting), waiting, mode, told, users, luck, stop)
    {
      hide Tells, Owed, OwedAny, EntriesOf, Kept, Queued, Accounted, Untouched, Without, Served, AllServed;
      told := map[];
      ghost var start := waiting;
      NothingYet(inbox, start, mails, mode);
      NothingTold(inbox, start, mails, mode, luck, stop);
      var n := 0;
      assert users[..n] == [];
      while n < |users| && n < stop
        invariant 0 <= n <= |users| && n <= stop
        invariant Kept(start, waiting) && AllServed(inbox, start, waiting, mode, told, users[..n], luck, stop)
        invariant Queued(old(mails), mails, inbox.tables, mode, told)
        invariant Accounted(inbox, start, waiting, mode, told)
      {
        var u := users[n];
        assert users[..n + 1] == users[..n] + [u] && u !in users[..n];
        ghost var before, had := waiting, mails;
        ghost var es := DigestFor(u, mode, luck(u));
        NobodyElse(inbox, start, before, mode, told, users[..n], luck, stop, u);
        StillAccounted(inbox, start, before, waiting, mode, told, users[..n], u, es, mails != had);
        OneMoreServed(inbox, start, before, waiting, mode, told, users[..n], u, luck, stop, es, mails != had);
        if mails != had {
          QueuedMore(old(mails), had, inbox.tables, mode, told, u, es, mails[|had|]);
          assert mails == had + [mails[|had|]];
          told := told[u := es];
        }
        n := n + 1;
      }
      AllAreServed(inbox, start, waiting, mode, told, users, n, luck, stop);
    }

    /** Tell the people an alert is addressed to, each in the way they chose. */
    method AlertRaised(alert: Id, escalated: bool, enabled: bool, now: nat, fails: Id -> bool)
      returns (ghost mailed: seq<Id>)
      requires alert in inbox.alerts
      modifies this`waiting, this`mails
      ensures !enabled ==> waiting == old(waiting) && mailed == []
      ensures enabled ==>
                var to := Recipients(inbox.tables, alert, inbox.alerts[alert].severity);
                && waiting == Added(inbox, old(waiting), alert, now, set u | u in to && !fails(u) && IsDigest(inbox.tables.users[u].delivery))
                && (forall u :: u in mailed <==> u in to && !fails(u) && inbox.tables.users[u].delivery == Immediate)
                && (forall i, j :: 0 <= i < j < |mailed| ==> mailed[i] != mailed[j])
      ensures |mails| == |old(mails)| + |mailed| && mails[..|old(mails)|] == old(mails)
      ensures forall i :: 0 <= i < |mailed| ==> IsAlertMail(mails[|old(mails)| + i], inbox.tables, mailed[i], alert, escalated)
    {
      hide Added, Merged, Recipients;
      mailed := [];
      AddedNobody(inbox, waiting, alert, now);
      if !enabled {
        return;
      }
      var to := Recipients(inbox.tables, alert, inbox.alerts[alert].severity);
      var a := inbox.alerts[alert];
      RecipientsHaveAddresses(inbox.tables, alert, a.severity);
      var left := to;
      ghost var added: set<Id> := {};
      while left != {}
        invariant left <= to
        invariant added == set u | u in to - left && !fails(u) && IsDigest(inbox.tables.users[u].delivery)
        invariant waiting == Added(inbox, old(waiting), alert, now, added)
        invariant forall u :: u in mailed <==> u in to - left && !fails(u) && inbox.tables.users[u].delivery == Immediate
        invariant forall i, j :: 0 <= i < j < |mailed| ==> mailed[i] != mailed[j]
        invariant |mails| == |old(mails)| + |mailed| && mails[..|old(mails)|] == old(mails)
        invariant forall i :: 0 <= i < |mailed| ==> IsAlertMail(mails[|old(mails)| + i], inbox.tables, mailed[i], alert, escalated)
      {
        var u :| u in left;
        left := left - {u};
        var r := inbox.tables.users[u];
        if !fails(u) {
          match r.delivery
          case Immediate =>
            mails := mails + [AlertMail(u, r.email.value, alert, escalated)];
            mailed := mailed + [u];
          case Hourly | Daily =>
            AddDigestItem(u, alert, a.severity, a.title, now);
            AddedOneMore(inbox, old(waiting), alert, now, added, u);
            added := added + {u};
          case Off =>
        }
      }
      assert to - left == to;
    }

    /** A repeat keeps its place and the higher of the severities. */
    method AddDigestItem(user: Id, alert: Id, severity: Severity, title: string, now: nat)
      modifies this`waiting
      ensures waiting == old(waiting)[(user, alert) := Merged(old(waiting), (user, alert), severity, title, now)]
    {
      waiting := waiting[(user, alert) := Merged(waiting, (user, alert), severity, title, now)];
    }

    /** Save how a person wants alert email. A failed audit puts the choice back, but not the
        waiting items that a move to off or immediate dropped. */
    method SetMyPreferences(user: Id, delivery: Delivery, minSeverity: Severity, audited: bool, reverted: bool)
      returns (ok: bool)
      requires user in inbox.tables.users
      modifies this`inbox, this`waiting
      ensures ok <==> audited || (delivery == old(inbox).tables.users[user].delivery && minSeverity == old(inbox).tables.users[user].minSeverity)
      ensures ok ==> inbox == WithChoice(old(inbox), user, delivery, minSeverity)
      ensures ok ==> waiting == if inbox == old(inbox) then old(waiting) else AfterChoice(old(waiting), user, delivery)
      ensures !ok && reverted ==>
                && inbox == old(inbox)
                && (waiting == old(waiting) <==> RevertKeepsItems(old(inbox), old(waiting), user, delivery))
      ensures !ok && !reverted ==>
                inbox == WithChoice(old(inbox), user, delivery, minSeverity) && waiting == AfterChoice(old(waiting), user, delivery)
    {
      var before := inbox.tables.users[user];
      WithChoiceSelf(inbox, user);
      if before.delivery == delivery && before.minSeverity == minSeverity {
        return true;
      }
      SetPreferences(user, delivery, minSeverity);
      if audited {
        return true;
      }
      if reverted {
        SetPreferences(user, before.delivery, before.minSeverity);
        RevertedChoice(old(inbox), user, delivery, minSeverity);
      }
      WithoutChanges(old(waiting), user);
      ok := false;
    }

    method SetPreferences(user: Id, delivery: Delivery, minSeverity: Severity)
      requires user in inbox.tables.users
      modifies this`inbox, this`waiting
      ensures inbox == WithChoice(old(inbox), user, delivery, minSeverity)
      ensures waiting == AfterChoice(old(waiting), user, delivery)
      ensures inbox.alerts == old(inbox).alerts && inbox.marks == old(inbox).marks && inbox.tables.users.Keys == old(inbox).tables.users.Keys
      ensures forall u :: u in inbox.tables.users ==>
                inbox.tables.users[u] == if u == user then old(inbox).tables.users[u].(delivery := delivery, minSeverity := minSeverity) else old(inbox).tables.users[u]
      ensures forall k :: k in waiting <==> k in old(waiting) && (k.0 != user || delivery == Hourly || delivery == Daily)
    {
      inbox := WithChoice(inbox, user, delivery, minSeverity);
      if delivery == Off || delivery == Immediate {
        waiting := Without(waiting, user);
      }
    }
  }

  // --- Adding to the waiting list ---

  function Merged(w: Waiting, k: (Id, Id), severity: Severity, title: string, now: nat): Item {
    if k in w then Item(if severity.Rank() > w[k].severity.Rank() then severity else w[k].severity, title, w[k].queuedAt)
    else Item(severity, title, now)
  }

  function Added(s: Inbox, w: Waiting, alert: Id, now: nat, users: set<Id>): Waiting
    requires alert in s.alerts
  {
    map k | k in w.Keys + (set u | u in users :: (u, alert)) ::
      if k.1 == alert && k.0 in users then Merged(w, k, s.alerts[alert].severity, s.alerts[alert].title, now) else w[k]
  }

  lemma RecipientsHaveAddresses(t: Tables, alert: Id, severity: Severity)
    ensures forall u :: u in Recipients(t, alert, severity) ==> u in t.users && t.users[u].email.Some? && t.users[u].delivery != Off
  {
  }

  lemma AddedNobody(s: Inbox, w: Waiting, alert: Id, now: nat)
    requires alert in s.alerts
    ensures Added(s, w, alert, now, {}) == w
  {
  }

  lemma AddedOneMore(s: Inbox, w: Waiting, alert: Id, now: nat, users: set<Id>, u: Id)
    requires alert in s.alerts && u !in users
    ensures var w' := Added(s, w, alert, now, users);
            w'[(u, alert) := Merged(w', (u, alert), s.alerts[alert].severity, s.alerts[alert].title, now)] == Added(s, w, alert, now, users + {u})
  {
    var w' := Added(s, w, alert, now, users);
    var all := Added(s, w, alert, now, users + {u});
    assert (u, alert) in w' <==> (u, alert) in w;
    assert (u, alert) in (set v | v in users + {u} :: (v, alert));
    forall v | v in users ensures (v, alert) in (set x | x in users + {u} :: (x, alert)) {
    }
  }

  /** A raised alert never lowers or delays what already waits, takes effect for those it is for and
      nobody else, and is owed to every digest reader it reaches. */
  lemma AddedIsOwed(s: Inbox, w: Waiting, alert: Id, now: nat, users: set<Id>, k: (Id, Id), mode: Delivery)
    requires alert in s.alerts && s.alerts[alert].resolution == Open
    requires users <= Recipients(s.tables, alert, s.alerts[alert].severity)
    ensures var w' := Added(s, w, alert, now, users);
            && (k in w ==> k in w' && w'[k].queuedAt == w[k].queuedAt && w'[k].severity.Rank() >= w[k].severity.Rank())
            && (k in w' <==> k in w || (k.1 == alert && k.0 in users))
            && (k in w && !(k.1 == alert && k.0 in users) ==> w'[k] == w[k])
            && (k.1 == alert && k.0 in users ==>
                  && w'[k].title == s.alerts[alert].title && w'[k].severity.Rank() >= s.alerts[alert].severity.Rank()
                  && (w'[k].severity == s.alerts[alert].severity || (k in w && w'[k].severity == w[k].severity))
                  && (k !in w ==> w'[k].queuedAt == now))
            && (Owed(s, w, k, mode) ==> Owed(s, w', k, mode))
            && (k.1 == alert && k.0 in users && s.tables.users[k.0].delivery == mode ==>
                  (Owed(s, w', k, mode) <==> MarksOf(s, alert, k.0).dismissedAt == None))
  {
    hide Addressed;
    var w' := Added(s, w, alert, now, users);
    if k.1 == alert && k.0 in users {
      assert k in (set u | u in users :: (u, alert));
    }
  }

  ghost predicate Kept(start: Waiting, w: Waiting) {
    forall k :: k in w ==> k in start && w[k] == start[k]
  }

  /** The run only added mail, a digest for each person told of anything. */
  ghost predicate Queued(before: seq<Mail>, after: seq<Mail>, t: Tables, mode: Delivery, told: map<Id, seq<Entry>>) {
    && |before| + |told| == |after| && after[..|before|] == before
    && forall u :: u in told ==> exists i :: |before| <= i < |after| && Tells(after[i], t, u, mode, told[u])
  }

  lemma QueuedMore(before: seq<Mail>, after: seq<Mail>, t: Tables, mode: Delivery, told: map<Id, seq<Entry>>, u: Id,
      es: seq<Entry>, m: Mail)
    requires Queued(before, after, t, mode, told) && u !in told && Tells(m, t, u, mode, es)
    ensures Queued(before, after + [m], t, mode, told[u := es])
  {
    hide Tells;
    var more, told' := after + [m], told[u := es];
    forall v | v in told' ensures exists i :: |before| <= i < |more| && Tells(more[i], t, v, mode, told'[v]) {
      if v == u {
        assert Tells(more[|after|], t, v, mode, told'[v]);
      } else {
        var i :| |before| <= i < |after| && Tells(after[i], t, v, mode, told[v]);
        assert Tells(more[i], t, v, mode, told'[v]);
      }
    }
  }

  /** Every item gone from the list was told of or not owed. */
  ghost predicate Accounted(s: Inbox, start: Waiting, w: Waiting, mode: Delivery, told: map<Id, seq<Entry>>) {
    forall k :: k in start && k !in w ==> !Owed(s, start, k, mode) || (k.0 in told && ItemEntry(k, start[k]) in told[k.0])
  }

  /** The items of people whose turn has not come are all there. */
  ghost predicate Untouched(start: Waiting, w: Waiting, done: seq<Id>) {
    forall k :: k in start && k.0 !in done ==> k in w
  }

  lemma NothingYet(s: Inbox, w: Waiting, mails: seq<Mail>, mode: Delivery)
    ensures Kept(w, w) && Untouched(w, w, []) && Accounted(s, w, w, mode, map[]) && Queued(mails, mails, s.tables, mode, map[])
  {
  }

  lemma StillAccounted(s: Inbox, start: Waiting, w: Waiting, after: Waiting, mode: Delivery,
      told: map<Id, seq<Entry>>, done: seq<Id>, u: Id, es: seq<Entry>, mailed: bool)
    requires Accounted(s, start, w, mode, told) && Kept(start, w) && u !in told
    requires Untouched(start, w, done) && u !in done
    requires after == w || after == Without(w, u)
    requires mailed ==> EntriesOf(s, w, u, es)
    requires after != w ==> mailed || forall a :: !Owed(s, w, (u, a), mode)
    ensures Accounted(s, start, after, mode, if mailed then told[u := es] else told)
    ensures Kept(start, after) && Untouched(start, after, done + [u])
  {
    SameForUser(s, start, w, u, mode);
    hide EntriesOf, Owed;
    var told' := if mailed then told[u := es] else told;
    forall k | k in start && k !in after && Owed(s, start, k, mode)
      ensures k.0 in told' && ItemEntry(k, start[k]) in told'[k.0]
    {
      if k.0 == u {
        assert k == (u, k.1) && k in w;
        assert Owed(s, w, (u, k.1), mode);
      } else {
        assert k !in w;
      }
    }
  }

  lemma ToldIsCleared(s: Inbox, start: Waiting, w: Waiting, mode: Delivery, told: map<Id, seq<Entry>>, u: Id, luck: Luck)
    requires Served(s, start, w, mode, told, u, luck)
    ensures u in told && luck.cleared ==> forall k :: k in w ==> k.0 != u
  {
    hide EntriesOf, OwedAny;
    assert forall k :: k in w && k.0 == u ==> k == (u, k.1);
  }

  lemma NothingTold(s: Inbox, w: Waiting, mails: seq<Mail>, mode: Delivery, luck: Id -> Luck, stop: nat)
    ensures AllServed(s, w, w, mode, map[], [], luck, stop) && Queued(mails, mails, s.tables, mode, map[])
  {
  }

  lemma AllServedMeans(s: Inbox, start: Waiting, w: Waiting, mode: Delivery, told: map<Id, seq<Entry>>, people: seq<Id>,
      luck: Id -> Luck, stop: nat)
    requires AllServed(s, start, w, mode, told, people, luck, stop)
    ensures forall u :: u in told ==> u in people
    ensures forall u :: u in told && luck(u).cleared ==> forall k :: k in w ==> k.0 != u
  {
    hide Served;
    forall u | u in told ensures u in people && (luck(u).cleared ==> forall k :: k in w ==> k.0 != u) {
      var i :| 0 <= i < Min(stop, |people|) && people[i] == u;
      ToldIsCleared(s, start, w, mode, told, u, luck(u));
    }
  }

  lemma NobodyElse(s: Inbox, start: Waiting, w: Waiting, mode: Delivery, told: map<Id, seq<Entry>>, done: seq<Id>,
      luck: Id -> Luck, stop: nat, u: Id)
    requires AllServed(s, start, w, mode, told, done, luck, stop) && |done| <= stop && u !in done
    ensures Untouched(start, w, done) && u !in told
  {
    assert done[..Min(stop, |done|)] == done;
  }

  lemma AllAreServed(s: Inbox, start: Waiting, w: Waiting, mode: Delivery, told: map<Id, seq<Entry>>, people: seq<Id>, n: nat,
      luck: Id -> Luck, stop: nat)
    requires n == Min(stop, |people|) && AllServed(s, start, w, mode, told, people[..n], luck, stop)
    ensures AllServed(s, start, w, mode, told, people, luck, stop)
  {
    hide Served;
    assert people[..n][..Min(stop, n)] == people[..n];
    assert forall i :: 0 <= i < n ==> people[..n][i] == people[i];
  }

  lemma OneMoreServed(s: Inbox, start: Waiting, w: Waiting, after: Waiting, mode: Delivery, told: map<Id, seq<Entry>>,
      done: seq<Id>, u: Id, luck: Id -> Luck, stop: nat, es: seq<Entry>, mailed: bool)
    requires AllServed(s, start, w, mode, told, done, luck, stop) && |done| < stop && u !in done && Kept(start, w)
    requires mailed <==> luck(u).readUser && luck(u).readItems && luck(u).queued && OwedAny(s, w, u, mode)
    requires mailed ==> EntriesOf(s, w, u, es)
    requires forall k :: k in after <==> k in w && !(k.0 == u && Clears(s, w, u, mode, luck(u)))
    ensures AllServed(s, start, after, mode, if mailed then told[u := es] else told, done + [u], luck, stop)
  {
    var told', more := if mailed then told[u := es] else told, done + [u];
    NobodyElse(s, start, w, mode, told, done, luck, stop, u);
    NowServed(s, start, w, after, mode, told, done, u, luck(u), es, mailed);
    assert done[..Min(stop, |done|)] == done && more[..Min(stop, |more|)] == more;
    hide Served, EntriesOf, OwedAny, Clears;
    forall i | 0 <= i < |more| && i < stop ensures Served(s, start, after, mode, told', more[i], luck(more[i])) {
      if i < |done| {
        assert more[i] == done[i];
        StillServed(s, start, w, after, mode, told, told', done[i], u, luck(done[i]));
      }
    }
  }

  lemma NowServed(s: Inbox, start: Waiting, w: Waiting, after: Waiting, mode: Delivery, told: map<Id, seq<Entry>>,
      done: seq<Id>, u: Id, luck: Luck, es: seq<Entry>, mailed: bool)
    requires Kept(start, w) && Untouched(start, w, done) && u !in done && u !in told
    requires mailed <==> luck.readUser && luck.readItems && luck.queued && OwedAny(s, w, u, mode)
    requires mailed ==> EntriesOf(s, w, u, es)
    requires forall k :: k in after <==> k in w && !(k.0 == u && Clears(s, w, u, mode, luck))
    ensures Served(s, start, after, mode, if mailed then told[u := es] else told, u, luck)
  {
    SameForUser(s, start, w, u, mode);
    forall a ensures (u, a) in w <==> (u, a) in start {
      assert (u, a).0 == u;
    }
    if mailed {
      SameEntries(s, start, w, u, es);
    }
    hide EntriesOf, Owed;
  }

  lemma SameEntries(s: Inbox, start: Waiting, w: Waiting, u: Id, es: seq<Entry>)
    requires EntriesOf(s, w, u, es) && Kept(start, w) && forall a :: (u, a) in w <==> (u, a) in start
    ensures EntriesOf(s, start, u, es)
  {
  }

  lemma StillServed(s: Inbox, start: Waiting, w: Waiting, after: Waiting, mode: Delivery, told: map<Id, seq<Entry>>,
      told': map<Id, seq<Entry>>, v: Id, u: Id, luck: Luck)
    requires Served(s, start, w, mode, told, v, luck) && v != u
    requires forall k: (Id, Id) :: k.0 != u ==> (k in after <==> k in w)
    requires (v in told' <==> v in told) && (v in told ==> told'[v] == told[v])
    ensures Served(s, start, after, mode, told', v, luck)
  {
    hide EntriesOf, OwedAny;
    assert forall a: Id :: (v, a).0 == v;
  }

  lemma OwedFromStart(s: Inbox, w: Waiting, start: Waiting, mode: Delivery)
    requires Kept(w, start)
    ensures forall k :: k in start ==> (Owed(s, start, k, mode) <==> Owed(s, w, k, mode))
  {
  }

  lemma SameForUser(s: Inbox, start: Waiting, w: Waiting, u: Id, mode: Delivery)
    requires forall k :: k in w ==> k in start && w[k] == start[k]
    requires forall k :: k in start && k.0 == u ==> k in w
    ensures forall a :: Owed(s, w, (u, a), mode) <==> Owed(s, start, (u, a), mode)
    ensures forall es :: EntriesOf(s, w, u, es) ==> forall a :: Owed(s, start, (u, a), mode) ==> ItemEntry((u, a), start[(u, a)]) in es
  {
    forall es, a | EntriesOf(s, w, u, es) && Owed(s, start, (u, a), mode) ensures ItemEntry((u, a), start[(u, a)]) in es {
      assert (u, a) in w;
      assert ItemEntry((u, a), w[(u, a)]).alert == a;
    }
  }

  // --- Changing one's mind ---

  function WithChoice(s: Inbox, user: Id, delivery: Delivery, minSeverity: Severity): Inbox
    requires user in s.tables.users
  {
    s.(tables := s.tables.(users := s.tables.users[user := s.tables.users[user].(delivery := delivery, minSeverity := minSeverity)]))
  }

  lemma WithChoiceSelf(s: Inbox, user: Id)
    requires user in s.tables.users
    ensures WithChoice(s, user, s.tables.users[user].delivery, s.tables.users[user].minSeverity) == s
  {
  }

  lemma RevertedChoice(s: Inbox, user: Id, delivery: Delivery, minSeverity: Severity)
    requires user in s.tables.users
    ensures var u := s.tables.users[user];
            WithChoice(WithChoice(s, user, delivery, minSeverity), user, u.delivery, u.minSeverity) == s
  {
  }

  lemma WithoutChanges(w: Waiting, user: Id)
    ensures Without(w, user) == w <==> forall k :: k in w ==> k.0 != user
    ensures Without(Without(w, user), user) == Without(w, user)
  {
  }

  /** What is left waiting once a person has chosen. */
  function AfterChoice(w: Waiting, user: Id, delivery: Delivery): Waiting {
    if IsDigest(delivery) then w else Without(w, user)
  }

  /** Putting the old choice back does not always put the waiting items back. */
  lemma RevertingCanLoseItems(user: Id, alert: Id, i: Item)
    ensures var w: Waiting := map[(user, alert) := i];
            AfterChoice(AfterChoice(w, user, Off), user, Hourly) == map[] != w
  {
    var w: Waiting := map[(user, alert) := i];
    assert (user, alert) in w;
    assert Without(w, user) == map[];
  }

  lemma RevertKeepsItemsIff(s: Inbox, w: Waiting, user: Id, delivery: Delivery)
    requires user in s.tables.users
    ensures AfterChoice(AfterChoice(w, user, delivery), user, s.tables.users[user].delivery) == w <==> RevertKeepsItems(s, w, user, delivery)
  {
    WithoutChanges(w, user);
  }

  /** A failed audit of a change of preferences keeps the waiting items exactly when the person had
      none, or both the old and the new choice are digests. */
  ghost predicate RevertKeepsItems(s: Inbox, w: Waiting, user: Id, delivery: Delivery)
    requires user in s.tables.users
  {
    (forall k :: k in w ==> k.0 != user) || (IsDigest(delivery) && IsDigest(s.tables.users[user].delivery))
  }
}
