/** One connection's silence tracker, shared by the goroutine that reads and the one that watches. */
module Liveness {
  import opened Wire

  const TIMEOUT: nat := 90

  datatype Track = Track(lastSeen: nat, unreachable: bool)

  predicate Stale(t: Track, now: nat) {
    !t.unreachable && now - t.lastSeen >= TIMEOUT
  }

  /** The tracker itself, under its lock. */
  class Tracker {
    var lastSeen: nat
    var unreachable: bool

    constructor (now: nat)
      ensures State() == Track(now, false)
    {
      lastSeen, unreachable := now, false;
    }

    function State(): Track
      reads this
    {
      Track(lastSeen, unreachable)
    }

    method RecordActivity(now: nat) returns (wasUnreachable: bool)
      modifies this
      ensures State() == Track(now, false) && wasUnreachable == old(unreachable)
    {
      lastSeen := now;
      wasUnreachable := unreachable;
      unreachable := false;
    }

    method MarkUnreachableIfStale(now: nat) returns (changed: bool)
      modifies this
      ensures changed <==> !old(unreachable) && now - old(lastSeen) >= 90
      ensures State() == Track(old(lastSeen), old(unreachable) || changed)
    {
      if unreachable || now - lastSeen < TIMEOUT {
        return false;
      }
      unreachable := true;
      changed := true;
    }
  }

  // --- The connection, step by step ---

  /** A change of the tracker's mind, when it happened and the last activity before it. */
  datatype Change = Unreachable(at: nat, silentSince: nat) | Recovered(at: nat)

  /** The write of the status after the nth change (0 is the connect), or of the disconnect. */
  datatype Write = Reported(n: nat) | Offline

  /** A goroutine: waiting, about to write the status after a change, or finished. */
  datatype Task = Waiting | Writing(n: nat) | Over

  datatype Conn = Conn(
    now: nat,
    track: Track,
    changes: seq<Change>,
    reader: Task,
    watcher: Task,
    writes: seq<Write>, // that went through, in order
    lost: set<nat>, // changes whose write failed
    closed: bool) // the offline write was tried

  datatype Step =
    | Tick(d: nat)
    | Receive // a message: recordActivity
    | WriteOnline(ok: bool)
    | Close // the read fails
    | Check // the ticker: markUnreachableIfStale
    | WriteUnreachable(ok: bool)
    | StopWatching
    | WriteOffline(ok: bool)

  /** Right after the handshake, the node written online. */
  function Connected(now: nat): Conn {
    Conn(now, Track(now, false), [], Waiting, Waiting, [Reported(0)], {}, false)
  }

  /** The cleanup cancels the watcher once the reader is done, and waits for it before its write. */
  predicate Enabled(c: Conn, step: Step) {
    match step
    case Tick(_) => true
    case Receive => c.reader == Waiting
    case WriteOnline(_) => c.reader.Writing?
    case Close => c.reader == Waiting
    case Check => c.watcher == Waiting
    case WriteUnreachable(_) => c.watcher.Writing?
    case StopWatching => c.watcher == Waiting && c.reader == Over
    case WriteOffline(_) => c.watcher == Over && c.reader == Over && !c.closed
  }

  function Written(c: Conn, n: nat, ok: bool): Conn {
    if ok then c.(writes := c.writes + [Reported(n)]) else c.(lost := c.lost + {n})
  }

  function Apply(c: Conn, step: Step): Conn
    requires Enabled(c, step)
  {
    match step
    case Tick(d) => c.(now := c.now + d)
    case Receive =>
      var t := c.(track := Track(c.now, false));
      if c.track.unreachable then t.(changes := c.changes + [Recovered(c.now)], reader := Writing(|c.changes| + 1)) else t
    case WriteOnline(ok) => Written(c, c.reader.n, ok).(reader := Waiting)
    case Close => c.(reader := Over)
    case Check =>
      if Stale(c.track, c.now)
      then c.(track := c.track.(unreachable := true),
              changes := c.changes + [Unreachable(c.now, c.track.lastSeen)],
              watcher := Writing(|c.changes| + 1))
      else c
    case WriteUnreachable(ok) => Written(c, c.watcher.n, ok).(watcher := Waiting)
    case StopWatching => c.(watcher := Over)
    case WriteOffline(ok) => c.(writes := if ok then c.writes + [Offline] else c.writes, closed := true)
  }

  predicate Possible(steps: seq<Step>, c: Conn)
    decreases |steps|, 0
  {
    steps != [] ==> Possible(steps[..|steps| - 1], c) && Enabled(Run(steps[..|steps| - 1], c), steps[|steps| - 1])
  }

  function Run(steps: seq<Step>, c: Conn): Conn
    requires Possible(steps, c)
    decreases |steps|, 1
  {
    if steps == [] then c else Apply(Run(steps[..|steps| - 1], c), steps[|steps| - 1])
  }

  // --- What every step keeps ---

  /** Unreachable and recovered take turns, beginning with unreachable, and the tracker is where
      the last of them put it. */
  ghost predicate Alternating(c: Conn) {
    && (forall i :: 0 <= i < |c.changes| ==> (c.changes[i].Unreachable? <==> i % 2 == 0))
    && (c.track.unreachable <==> |c.changes| % 2 == 1)
  }

  /** Each unreachable ends a silence of at least the timeout, which began no earlier than the
      recovery before it; times never run back. */
  ghost predicate Silences(c: Conn) {
    && c.track.lastSeen <= c.now
    && (forall i :: 0 <= i < |c.changes| && c.changes[i].Unreachable? ==>
          && c.changes[i].at <= c.now && c.changes[i].silentSince + TIMEOUT <= c.changes[i].at
          && (i > 0 ==> c.changes[i - 1].at <= c.changes[i].silentSince))
    && (forall i :: 0 <= i < |c.changes| && c.changes[i].Recovered? ==>
          c.changes[i].at <= c.track.lastSeen && (i > 0 ==> c.changes[i - 1].at <= c.changes[i].at))
  }

  /** The offline write, if it was made, was made by a connection that is over, and is the last. */
  ghost predicate OfflineIsLast(c: Conn) {
    && (c.watcher == Over ==> c.reader == Over)
    && (forall i :: 0 <= i < |c.writes| && c.writes[i] == Offline ==> i == |c.writes| - 1)
    && (Offline in c.writes ==> c.closed)
    && (c.closed ==> c.watcher == Over && c.reader == Over)
  }

  predicate Pending(c: Conn, n: nat) {
    c.reader == Writing(n) || c.watcher == Writing(n)
  }

  /** Every change so far is in exactly one place: written once, lost, or about to be written; what
      is about to be written is one of the last two changes, odd ones by the watcher. */
  ghost predicate AccountedFor(c: Conn) {
    && (c.reader.Writing? ==> c.reader.n % 2 == 0 && |c.changes| - 1 <= c.reader.n <= |c.changes|)
    && (c.watcher.Writing? ==> c.watcher.n % 2 == 1 && |c.changes| - 1 <= c.watcher.n <= |c.changes|)
    && (forall n: nat :: n <= |c.changes| <==> Reported(n) in c.writes || n in c.lost || Pending(c, n))
    && (forall n: nat :: Pending(c, n) ==> Reported(n) !in c.writes && n !in c.lost)
    && (forall n: nat :: n in c.lost ==> Reported(n) !in c.writes)
    && (forall i, j :: 0 <= i < j < |c.writes| ==> c.writes[i] != c.writes[j])
  }

  ghost predicate Inv(c: Conn) {
    Alternating(c) && Silences(c) && OfflineIsLast(c) && AccountedFor(c)
  }

  lemma StepKeepsTurns(c: Conn, step: Step)
    requires Alternating(c) && Silences(c) && Enabled(c, step)
    ensures Alternating(Apply(c, step)) && Silences(Apply(c, step))
  {
    hide Alternating, Silences;
    var d := Apply(c, step);
    if d.changes == c.changes {
      TurnsQuiet(c, d);
    } else if step.Receive? {
      TurnsRecovered(c, d);
    } else {
      TurnsUnreachable(c, d);
    }
  }

  lemma TurnsQuiet(c: Conn, d: Conn)
    requires Alternating(c) && Silences(c) && d.changes == c.changes && d.now >= c.now
    requires d.track == c.track || (!c.track.unreachable && d.track == Track(c.now, false))
    ensures Alternating(d) && Silences(d)
  {
  }

  lemma TurnsRecovered(c: Conn, d: Conn)
    requires Alternating(c) && Silences(c) && c.track.unreachable && d.now == c.now
    requires d.changes == c.changes + [Recovered(c.now)] && d.track == Track(c.now, false)
    ensures Alternating(d) && Silences(d)
  {
    hide Alternating, Silences;
    RecoveredTurn(c, d);
    RecoveredSilence(c, d);
  }

  lemma RecoveredTurn(c: Conn, d: Conn)
    requires Alternating(c) && Silences(c) && c.track.unreachable && d.now == c.now
    requires d.changes == c.changes + [Recovered(c.now)] && d.track == Track(c.now, false)
    ensures Alternating(d)
  {
    hide Silences;
    var n := |c.changes|;
    assert c.changes[n - 1].Unreachable?;
    assert forall i :: 0 <= i < n ==> d.changes[i] == c.changes[i];
  }

  lemma RecoveredSilence(c: Conn, d: Conn)
    requires Alternating(c) && Silences(c) && c.track.unreachable && d.now == c.now
    requires d.changes == c.changes + [Recovered(c.now)] && d.track == Track(c.now, false)
    ensures Silences(d)
  {
    var n := |c.changes|;
    assert c.changes[n - 1].Unreachable?;
    assert forall i :: 0 <= i < n ==> d.changes[i] == c.changes[i];
  }

  lemma TurnsUnreachable(c: Conn, d: Conn)
    requires Alternating(c) && Silences(c) && Stale(c.track, c.now) && d.now == c.now
    requires d.changes == c.changes + [Unreachable(c.now, c.track.lastSeen)] && d.track == c.track.(unreachable := true)
    ensures Alternating(d) && Silences(d)
  {
    hide Alternating, Silences;
    UnreachableTurn(c, d);
    UnreachableSilence(c, d);
  }

  lemma UnreachableTurn(c: Conn, d: Conn)
    requires Alternating(c) && Silences(c) && Stale(c.track, c.now) && d.now == c.now
    requires d.changes == c.changes + [Unreachable(c.now, c.track.lastSeen)] && d.track == c.track.(unreachable := true)
    ensures Alternating(d)
  {
    hide Silences;
    var n := |c.changes|;
    assert n > 0 ==> c.changes[n - 1].Recovered?;
    assert forall i :: 0 <= i < n ==> d.changes[i] == c.changes[i];
  }

  lemma UnreachableSilence(c: Conn, d: Conn)
    requires Alternating(c) && Silences(c) && Stale(c.track, c.now) && d.now == c.now
    requires d.changes == c.changes + [Unreachable(c.now, c.track.lastSeen)] && d.track == c.track.(unreachable := true)
    ensures Silences(d)
  {
    var n := |c.changes|;
    assert n > 0 ==> c.changes[n - 1].Recovered?;
    assert forall i :: 0 <= i < n ==> d.changes[i] == c.changes[i];
  }

  lemma StepKeepsWrites(c: Conn, step: Step)
    requires OfflineIsLast(c) && Enabled(c, step)
    ensures OfflineIsLast(Apply(c, step))
  {
  }

  lemma StepKeepsAccount(c: Conn, step: Step)
    requires Alternating(c) && OfflineIsLast(c) && AccountedFor(c) && Enabled(c, step)
    ensures AccountedFor(Apply(c, step))
  {
    hide Silences;
    var d := Apply(c, step);
    match step
    case WriteOnline(ok) => WritingKeepsAccount(c, d, c.reader.n, ok);
    case WriteUnreachable(ok) => WritingKeepsAccount(c, d, c.watcher.n, ok);
    case Receive => ChangeKeepsAccount(c, d);
    case Check => ChangeKeepsAccount(c, d);
    case WriteOffline(_) => assert forall n: nat :: Reported(n) in d.writes <==> Reported(n) in c.writes;
    case Tick(_) =>
    case Close =>
    case StopWatching =>
  }

  lemma WritingKeepsAccount(c: Conn, d: Conn, n: nat, ok: bool)
    requires AccountedFor(c) && d.changes == c.changes
    requires
      || (c.reader == Writing(n) && d.reader == Waiting && d.watcher == c.watcher)
      || (c.watcher == Writing(n) && d.watcher == Waiting && d.reader == c.reader)
    requires if ok then d.writes == c.writes + [Reported(n)] && d.lost == c.lost else d.writes == c.writes && d.lost == c.lost + {n}
    ensures AccountedFor(d)
  {
    assert Pending(c, n);
    forall m: nat ensures Reported(m) in d.writes <==> Reported(m) in c.writes || (ok && m == n) {
    }
    forall m: nat ensures Pending(d, m) <==> Pending(c, m) && m != n {
    }
  }

  /** A step that changes nothing but the tracker, or makes one change. */
  lemma ChangeKeepsAccount(c: Conn, d: Conn)
    requires AccountedFor(c) && d.writes == c.writes && d.lost == c.lost
    requires
      || (d.changes == c.changes && d.reader == c.reader && d.watcher == c.watcher)
      || (|d.changes| == |c.changes| + 1 && |d.changes| % 2 == 0 && c.reader == Waiting && d.reader == Writing(|d.changes|) && d.watcher == c.watcher)
      || (|d.changes| == |c.changes| + 1 && |d.changes| % 2 == 1 && c.watcher == Waiting && d.watcher == Writing(|d.changes|) && d.reader == c.reader)
    ensures AccountedFor(d)
  {
    if |d.changes| == |c.changes| + 1 {
      forall m: nat ensures Pending(d, m) <==> Pending(c, m) || m == |d.changes| {
      }
    }
  }

  /** In every interleaving of the two goroutines and the cleanup. */
  lemma {:induction false} EveryRunKeepsInv(steps: seq<Step>, now: nat)
    requires Possible(steps, Connected(now))
    ensures Inv(Run(steps, Connected(now)))
    decreases |steps|
  {
    hide Alternating, Silences, OfflineIsLast, AccountedFor, Apply;
    if steps == [] {
      ConnectedInv(now);
    } else {
      var before, step := Run(steps[..|steps| - 1], Connected(now)), steps[|steps| - 1];
      EveryRunKeepsInv(steps[..|steps| - 1], now);
      StepKeepsTurns(before, step);
      StepKeepsWrites(before, step);
      StepKeepsAccount(before, step);
    }
  }

  lemma ConnectedInv(now: nat)
    ensures Inv(Connected(now))
  {
  }

  // --- What that means ---

  /** In every run unreachable and recovered strictly alternate, and every unreachable ends its own
      silence: two of them are always more than the timeout apart. */
  lemma OneUnreachablePerSilence(steps: seq<Step>, now: nat, i: nat, j: nat)
    requires Possible(steps, Connected(now))
    requires i < j < |Run(steps, Connected(now)).changes|
    requires Run(steps, Connected(now)).changes[i].Unreachable? && Run(steps, Connected(now)).changes[j].Unreachable?
    ensures var changes := Run(steps, Connected(now)).changes;
            && changes[i].at <= changes[j].silentSince && changes[i].at + TIMEOUT <= changes[j].at
            && changes[i + 1].Recovered? && changes[j - 1].Recovered?
  {
    EveryRunKeepsInv(steps, now);
    TimesGrow(Run(steps, Connected(now)), i, j - 1);
  }

  lemma {:induction false} TimesGrow(c: Conn, i: nat, j: nat)
    requires Inv(c) && i <= j < |c.changes|
    ensures c.changes[i].at <= c.changes[j].at
    decreases j
  {
    hide AccountedFor, OfflineIsLast;
    if i < j {
      TimesGrow(c, i, j - 1);
      assert c.changes[j].Unreachable? || c.changes[j].Recovered?;
    }
  }

  /** The first check that finds a connection silent for 90 seconds reports it, once: the next one
      changes nothing, and the next message ends it. */
  lemma SilenceIsNoticed(c: Conn)
    requires Enabled(c, Check)
    ensures var d := Apply(c, Check);
            && (!c.track.unreachable && c.track.lastSeen + 90 <= c.now ==>
                  && d.changes == c.changes + [Unreachable(c.now, c.track.lastSeen)] && d.watcher == Writing(|d.changes|) && d.track.unreachable
                  && (Enabled(d, Receive) ==> var e := Apply(d, Receive);
                        e.changes == d.changes + [Recovered(d.now)] && e.reader == Writing(|e.changes|) && e.track == Track(d.now, false)))
            && (c.track.unreachable || c.now < c.track.lastSeen + 90 ==> d == c)
  {
  }

  /** Once the offline write is tried, nothing of this connection is ever written again; if it went
      through it is the last of the writes, and there is no other. */
  lemma NothingAfterOffline(steps: seq<Step>, now: nat, step: Step)
    requires Possible(steps, Connected(now)) && Enabled(Run(steps, Connected(now)), step)
    ensures var c := Run(steps, Connected(now));
            && (c.closed ==> Apply(c, step).writes == c.writes && Apply(c, step).closed)
            && (Offline in c.writes ==> c.closed && c.writes[|c.writes| - 1] == Offline && Offline !in c.writes[..|c.writes| - 1])
  {
    EveryRunKeepsInv(steps, now);
    var c := Run(steps, Connected(now));
    if Offline in c.writes {
      var i :| 0 <= i < |c.writes| && c.writes[i] == Offline;
      assert forall k :: 0 <= k < |c.writes| - 1 ==> c.writes[..|c.writes| - 1][k] == c.writes[k];
    }
  }

  /** What the database says after the writes so far. */
  predicate StoredUnreachable(c: Conn) {
    c.writes != [] && c.writes[|c.writes| - 1].Reported? && c.writes[|c.writes| - 1].n % 2 == 1
  }

  predicate SameTask(a: Write, b: Write) {
    a.Reported? && b.Reported? && a.n % 2 == b.n % 2
  }

  /** The writes of one goroutine, the odd ones the watcher's, come in the order of their changes;
      the first of all is that of the connect. */
  ghost predicate InTurn(c: Conn) {
    && c.writes != [] && c.writes[0] == Reported(0)
    && (forall i, j :: 0 <= i < j < |c.writes| && SameTask(c.writes[i], c.writes[j]) ==> c.writes[i].n < c.writes[j].n)
  }

  /** What is about to be written comes after all its goroutine has written. */
  lemma PendingIsNext(c: Conn, n: nat)
    requires AccountedFor(c) && Pending(c, n)
    ensures forall w :: w in c.writes && SameTask(w, Reported(n)) ==> w.n < n
  {
    forall w | w in c.writes && SameTask(w, Reported(n)) ensures w.n < n {
      assert Reported(w.n) in c.writes;
    }
  }

  lemma NextKeepsTurn(c: Conn, d: Conn, w: Write)
    requires InTurn(c) && d.writes == c.writes + [w]
    requires forall v :: v in c.writes && SameTask(v, w) ==> v.n < w.n
    ensures InTurn(d)
  {
    forall i, j | 0 <= i < j < |d.writes| && SameTask(d.writes[i], d.writes[j]) ensures d.writes[i].n < d.writes[j].n {
      assert d.writes[i] == c.writes[i] && c.writes[i] in c.writes;
    }
  }

  lemma StepKeepsInTurn(c: Conn, step: Step)
    requires AccountedFor(c) && InTurn(c) && Enabled(c, step)
    ensures InTurn(Apply(c, step))
  {
    var d := Apply(c, step);
    var n := if step.WriteOnline? then c.reader.n else if step.WriteUnreachable? then c.watcher.n else 0;
    if step.WriteOnline? || step.WriteUnreachable? {
      PendingIsNext(c, n);
    }
    hide AccountedFor, InTurn;
    if d.writes == c.writes {
      SameTurn(c, d);
    } else {
      NextKeepsTurn(c, d, if step.WriteOffline? then Offline else Reported(n));
    }
  }

  lemma SameTurn(c: Conn, d: Conn)
    requires InTurn(c) && d.writes == c.writes
    ensures InTurn(d)
  {
  }

  lemma InvAccounts(c: Conn)
    requires Inv(c)
    ensures AccountedFor(c)
  {
  }

  lemma {:induction false} EveryRunKeepsTurn(steps: seq<Step>, now: nat)
    requires Possible(steps, Connected(now))
    ensures InTurn(Run(steps, Connected(now)))
    decreases |steps|
  {
    hide Inv, Apply;
    if steps != [] {
      EveryRunKeepsTurn(steps[..|steps| - 1], now);
      EveryRunKeepsInv(steps[..|steps| - 1], now);
      InvAccounts(Run(steps[..|steps| - 1], Connected(now)));
      StepKeepsInTurn(Run(steps[..|steps| - 1], Connected(now)), steps[|steps| - 1]);
    }
  }

  /** The write that came last is that of the last change. */
  predicate LastIsLast(c: Conn) {
    c.writes != [] && c.writes[|c.writes| - 1] == Reported(|c.changes|)
  }

  /** The write that came last is by the goroutine that made the last change: the reader, which
      also counts for the connect, or the watcher. */
  predicate LastIsBySame(c: Conn) {
    c.writes != [] && SameTask(c.writes[|c.writes| - 1], Reported(|c.changes|))
  }

  /** With no write under way and the connection open, every change was written exactly once or its
      write failed. If the last change's write went through, the database agrees with the tracker
      exactly when that write was not overtaken: when it came last. If it failed, the two agree
      exactly when the write that came last is by the same goroutine. */
  lemma StoredAgreesIff(steps: seq<Step>, now: nat)
    requires Possible(steps, Connected(now))
    requires var c := Run(steps, Connected(now)); c.reader == Waiting && c.watcher == Waiting
    ensures var c := Run(steps, Connected(now));
            && (forall n: nat :: n <= |c.changes| <==> Reported(n) in c.writes || n in c.lost)
            && (forall n: nat :: n in c.lost ==> Reported(n) !in c.writes)
            && ((StoredUnreachable(c) <==> c.track.unreachable) <==>
                  if |c.changes| in c.lost then LastIsBySame(c) else LastIsLast(c))
  {
    EveryRunKeepsInv(steps, now);
    EveryRunKeepsTurn(steps, now);
    AtRest(Run(steps, Connected(now)));
  }

  lemma AtRest(c: Conn)
    requires Inv(c) && InTurn(c) && c.reader == Waiting && c.watcher == Waiting
    ensures forall n: nat :: n <= |c.changes| <==> Reported(n) in c.writes || n in c.lost
    ensures forall n: nat :: n in c.lost ==> Reported(n) !in c.writes
    ensures (StoredUnreachable(c) <==> c.track.unreachable) <==> if |c.changes| in c.lost then LastIsBySame(c) else LastIsLast(c)
  {
    hide Silences;
    var n, last := |c.changes|, c.writes[|c.writes| - 1];
    assert last in c.writes;
    assert last.Reported?;
    assert (StoredUnreachable(c) <==> c.track.unreachable) <==> LastIsBySame(c);
    if n !in c.lost {
      assert Reported(n) in c.writes;
      LastOfItsKind(c, n);
    }
  }

  /** If the last change was written, a later write of the same goroutine is impossible. */
  lemma LastOfItsKind(c: Conn, n: nat)
    requires InTurn(c) && n == |c.changes| && Reported(n) in c.writes && c.writes[|c.writes| - 1].Reported?
    requires c.writes[|c.writes| - 1].n <= n
    ensures LastIsBySame(c) <==> LastIsLast(c)
  {
    var i :| 0 <= i < |c.writes| && c.writes[i] == Reported(n);
  }

  // --- The lock does not order the writes ---

  lemma OneMore(steps: seq<Step>, step: Step, c: Conn)
    requires Possible(steps, c) && Enabled(Run(steps, c), step)
    ensures Possible(steps + [step], c) && Run(steps + [step], c) == Apply(Run(steps, c), step)
  {
    assert (steps + [step])[..|steps|] == steps;
  }

  /** A recovery during the unreachable write leaves a live node stored as unreachable. */
  lemma OvertakenWriteMisleads() returns (steps: seq<Step>)
    ensures Possible(steps, Connected(0))
    ensures var c := Run(steps, Connected(0));
            c.reader == Waiting && c.watcher == Waiting && c.lost == {} && !c.track.unreachable && StoredUnreachable(c)
  {
    var c := Connected(0);
    assert Possible([], c) && Run([], c) == c;
    hide Run, Possible;
    OneMore([], Tick(TIMEOUT), c);
    OneMore([] + [Tick(TIMEOUT)], Check, c);
    OneMore([] + [Tick(TIMEOUT)] + [Check], Receive, c);
    OneMore([] + [Tick(TIMEOUT)] + [Check] + [Receive], WriteOnline(true), c);
    OneMore([] + [Tick(TIMEOUT)] + [Check] + [Receive] + [WriteOnline(true)], WriteUnreachable(true), c);
    steps := [] + [Tick(TIMEOUT)] + [Check] + [Receive] + [WriteOnline(true)] + [WriteUnreachable(true)];
  }

  /** An unreachable write that fails leaves a silent node stored as online. */
  lemma LostWriteMisleads() returns (steps: seq<Step>)
    ensures Possible(steps, Connected(0))
    ensures var c := Run(steps, Connected(0));
            c.reader == Waiting && c.watcher == Waiting && c.lost == {1} && c.track.unreachable && !StoredUnreachable(c)
  {
    var c := Connected(0);
    assert Possible([], c) && Run([], c) == c;
    hide Run, Possible;
    OneMore([], Tick(TIMEOUT), c);
    OneMore([] + [Tick(TIMEOUT)], Check, c);
    OneMore([] + [Tick(TIMEOUT)] + [Check], WriteUnreachable(false), c);
    steps := [] + [Tick(TIMEOUT)] + [Check] + [WriteUnreachable(false)];
  }
}
