/** Listing the containers of a node in parts, and removing one that is stale. */
module StaleContainers {
  import opened Wire
  import opened LogSender

  const PART_SIZE: nat := 30
  const MAX_DETAIL: nat := 1000

  const MAX_ID: nat := 64
  const MAX_NAME: nat := 128
  const MAX_STATE: nat := 32

  datatype Container = Container(instanceId: string, containerId: string, name: string, state: string, labelled: bool)

  /** One message of the answer. */
  datatype Part = Part(number: nat, final: bool, containers: seq<Container>, truncated: bool, error: Bytes)

  function Together(parts: seq<Part>): seq<Container> {
    if parts == [] then [] else Together(parts[..|parts| - 1]) + parts[|parts| - 1].containers
  }

  /** What a listing promises its reader: numbered from 0, one final part and that one last, none
      too big, the mark of a shortened list on the final part alone, and together the list. */
  ghost predicate WellFormedListing(parts: seq<Part>, containers: seq<Container>, truncated: bool) {
    && parts != [] && Together(parts) == containers
    && forall i :: 0 <= i < |parts| ==>
         && parts[i].number == i && (parts[i].final <==> i == |parts| - 1)
         && |parts[i].containers| <= PART_SIZE && (i < |parts| - 1 ==> |parts[i].containers| == PART_SIZE)
         && parts[i].truncated == (truncated && parts[i].final) && parts[i].error == []
  }

  // --- What a container looks like on the wire ---

  predicate Printable(c: char) {
    ' ' <= c <= '~'
  }

  /** Printable ASCII, anything else a question mark, and no longer than max. */
  function Cleaned(s: string, max: nat): (r: string)
    ensures |r| <= max && |r| <= |s| && (|s| <= max ==> |r| == |s|)
    ensures forall i :: 0 <= i < |r| ==> r[i] == if s[i] < ' ' || s[i] > '~' then '?' else s[i]
  {
    seq(Min(|s|, max), i requires 0 <= i < Min(|s|, max) => if Printable(s[i]) then s[i] else '?')
  }

  function Wired(c: Container): Container {
    c.(containerId := Cleaned(c.containerId, MAX_ID), name := Cleaned(c.name, MAX_NAME), state := Cleaned(c.state, MAX_STATE))
  }

  function WiredAll(cs: seq<Container>): (ws: seq<Container>)
    ensures |ws| == |cs|
  {
    seq(|cs|, i requires 0 <= i < |cs| => Wired(cs[i]))
  }

  method WireText(s: string, max: nat) returns (r: string)
    ensures r == Cleaned(s, max)
  {
    r := "";
    for n := 0 to |s|
      invariant |r| == n && forall i :: 0 <= i < n ==> r[i] == if Printable(s[i]) then s[i] else '?'
    {
      r := r + [if Printable(s[n]) then s[n] else '?'];
    }
    if |r| > max {
      r := r[..max];
    }
  }

  method WireContainer(c: Container) returns (w: Container)
    ensures w == Wired(c)
  {
    var id := WireText(c.containerId, MAX_ID);
    var name := WireText(c.name, MAX_NAME);
    var state := WireText(c.state, MAX_STATE);
    w := c.(containerId := id, name := name, state := state);
  }

  /** Every part that goes out, or a single final one saying why there is no list. */
  method RunListContainers(listing: Option<(seq<Container>, bool)>, error: Bytes) returns (parts: seq<Part>)
    ensures listing.Some? ==> WellFormedListing(parts, WiredAll(listing.value.0), listing.value.1)
    ensures listing.Some? ==> |parts| == if listing.value.0 == [] then 1 else (|listing.value.0| - 1) / PART_SIZE + 1
    ensures listing.None? ==>
              exists reason: Bytes :: parts == [Part(0, true, [], false, reason)] && reason <= error && |reason| <= MAX_DETAIL
  {
    hide WiredAll, Wired, AllFull, WellFormedListing, Together;
    if listing.None? {
      var reason := Clip(error, MAX_DETAIL);
      return [Part(0, true, [], false, reason)];
    }
    var containers, truncated := listing.value.0, listing.value.1;
    ghost var wired := WiredAll(containers);
    parts := [];
    var off := 0;
    NoParts(wired);
    while true
      invariant off == |parts| * PART_SIZE <= |containers| && (parts != [] ==> off < |containers|)
      invariant AllFull(parts, wired[..off])
      decreases |containers| - off
    {
      var end := if off + PART_SIZE <= |containers| then off + PART_SIZE else |containers|;
      var last := end == |containers|;
      var ws := WirePart(containers, off, end);
      var part := Part(|parts|, last, ws, last && truncated, []);
      assert wired[..off] + wired[off..end] == wired[..end] && wired[..|wired|] == wired;
      if last {
        LastPart(parts, wired[..off], part, truncated);
        parts := parts + [part];
        return;
      }
      OneMorePart(parts, wired[..off], part);
      parts := parts + [part];
      off := end;
    }
  }

  /** Parts so far: numbered, full, none of them final, together the list. */
  ghost predicate AllFull(parts: seq<Part>, list: seq<Container>) {
    && Together(parts) == list
    && forall i :: 0 <= i < |parts| ==> parts[i] == Part(i, false, parts[i].containers, false, []) && |parts[i].containers| == PART_SIZE
  }

  lemma NoParts(wired: seq<Container>)
    ensures AllFull([], wired[..0])
  {
  }

  lemma OneMorePart(parts: seq<Part>, list: seq<Container>, part: Part)
    requires AllFull(parts, list) && part == Part(|parts|, false, part.containers, false, []) && |part.containers| == PART_SIZE
    ensures AllFull(parts + [part], list + part.containers)
  {
    assert (parts + [part])[..|parts|] == parts;
  }

  lemma LastPart(parts: seq<Part>, list: seq<Container>, part: Part, truncated: bool)
    requires AllFull(parts, list) && part == Part(|parts|, true, part.containers, truncated, []) && |part.containers| <= PART_SIZE
    ensures WellFormedListing(parts + [part], list + part.containers, truncated)
  {
    assert (parts + [part])[..|parts|] == parts;
  }

  method WirePart(containers: seq<Container>, off: nat, end: nat) returns (ws: seq<Container>)
    requires off <= end <= |containers|
    ensures ws == WiredAll(containers)[off..end]
  {
    ws := [];
    for i := off to end
      invariant ws == WiredAll(containers)[off..i]
    {
      var w := WireContainer(containers[i]);
      assert WiredAll(containers)[off..i + 1] == WiredAll(containers)[off..i] + [WiredAll(containers)[i]];
      ws := ws + [w];
    }
  }

  // --- Clipping text ---

  /** Not a continuation byte of a UTF-8 character. */
  predicate RuneStart(b: byte) {
    b < 128 || b >= 192
  }

  predicate Boundary(s: Bytes, n: nat) {
    n == 0 || n == |s| || (n < |s| && RuneStart(s[n]))
  }

  /** The longest beginning of at most max bytes that does not split a character. */
  method Clip(s: Bytes, max: nat) returns (r: Bytes)
    ensures r <= s && |r| <= max && Boundary(s, |r|)
    ensures forall m: nat :: |r| < m <= max && m <= |s| ==> !Boundary(s, m)
  {
    if |s| <= max {
      return s;
    }
    var n := max;
    while n > 0 && !RuneStart(s[n])
      invariant 0 <= n <= max
      invariant forall m: nat :: n < m <= max ==> !Boundary(s, m)
    {
      n := n - 1;
    }
    r := s[..n];
  }

  /** The bytes of one character: the first is not a continuation byte, the others are. */
  predicate IsRune(c: Bytes) {
    c != [] && !(128 <= c[0] < 192) && forall i :: 1 <= i < |c| ==> 128 <= c[i] < 192
  }

  function Text(chars: seq<Bytes>): Bytes {
    if chars == [] then [] else chars[0] + Text(chars[1..])
  }

  /** In a text a boundary is exactly an end of a character, so a clipped text is whole characters. */
  lemma {:induction false} BoundaryIff(chars: seq<Bytes>, n: nat)
    requires (forall c :: c in chars ==> IsRune(c)) && n <= |Text(chars)|
    ensures Boundary(Text(chars), n) <==> exists k :: 0 <= k <= |chars| && Text(chars)[..n] == Text(chars[..k])
    decreases |chars|
  {
    var s := Text(chars);
    if n == 0 {
      assert chars[..0] == [] && s[..0] == Text(chars[..0]);
    } else {
      var c, rest := chars[0], chars[1..];
      assert c in chars && forall d :: d in rest ==> d in chars;
      if n < |c| {
        assert s[n] == c[n];
        forall k | 0 <= k <= |chars| ensures s[..n] != Text(chars[..k]) {
          if k > 0 {
            assert chars[..k][0] == c;
          }
        }
      } else {
        BoundaryIff(rest, n - |c|);
        assert s == c + Text(rest) && s[..n] == c + Text(rest)[..n - |c|];
        assert n < |s| ==> s[n] == Text(rest)[n - |c|];
        if n == |c| && rest != [] {
          assert rest[0] in rest;
          assert Text(rest)[0] == rest[0][0];
        }
        BoundaryOfRest(chars, n);
      }
    }
  }

  lemma BoundaryOfRest(chars: seq<Bytes>, n: nat)
    requires chars != [] && chars[0] != [] && |chars[0]| <= n <= |Text(chars)|
    ensures (exists k :: 0 <= k <= |chars| && Text(chars)[..n] == Text(chars[..k])) <==>
              exists k :: 0 <= k <= |chars| - 1 && Text(chars[1..])[..n - |chars[0]|] == Text(chars[1..][..k])
  {
    var c, rest := chars[0], chars[1..];
    var s := Text(chars);
    assert s[..n] == c + Text(rest)[..n - |c|];
    forall k | 1 <= k <= |chars| ensures s[..n] == Text(chars[..k]) <==> Text(rest)[..n - |c|] == Text(rest[..k - 1]) {
      assert chars[..k][0] == c && chars[..k][1..] == rest[..k - 1];
      assert s[..n][|c|..] == Text(rest)[..n - |c|];
      assert (c + Text(rest[..k - 1]))[|c|..] == Text(rest[..k - 1]);
    }
    if k :| 0 <= k <= |chars| - 1 && Text(rest)[..n - |c|] == Text(rest[..k]) {
      assert s[..n] == Text(chars[..k + 1]);
    }
    if k :| 0 <= k <= |chars| && s[..n] == Text(chars[..k]) {
      assert k > 0;
      assert Text(rest)[..n - |c|] == Text(rest[..k - 1]);
    }
  }

  // --- Removing a stale container ---

  datatype Answer = Refused | Failed | Gone | Kept | Removed

  predicate IsHex(c: char) {
    '0' <= c <= '9' || 'a' <= c <= 'f' || 'A' <= c <= 'F'
  }

  /** A uuid in its text form. */
  predicate IsInstanceId(id: string) {
    |id| == 36 && forall i :: 0 <= i < 36 ==> if i in {8, 13, 18, 23} then id[i] == '-' else IsHex(id[i])
  }

  /** Five groups of hex digits of these lengths, with a dash between them. */
  ghost predicate IsUuid(id: string, a: string, b: string, c: string, d: string, e: string) {
    && id == a + "-" + b + "-" + c + "-" + d + "-" + e
    && |a| == 8 && |b| == 4 && |c| == 4 && |d| == 4 && |e| == 12
    && AllHex(a) && AllHex(b) && AllHex(c) && AllHex(d) && AllHex(e)
  }

  predicate AllHex(s: string) {
    forall i :: 0 <= i < |s| ==> IsHex(s[i])
  }

  lemma InstanceIdIff(id: string)
    ensures IsInstanceId(id) <==> exists a, b, c, d, e :: IsUuid(id, a, b, c, d, e)
  {
    if IsInstanceId(id) {
      var a, b, c, d, e := id[..8], id[9..13], id[14..18], id[19..23], id[24..];
      assert id == a + [id[8]] + b + [id[13]] + c + [id[18]] + d + [id[23]] + e;
      assert IsUuid(id, a, b, c, d, e);
    }
    forall a, b, c, d, e | IsUuid(id, a, b, c, d, e) ensures IsInstanceId(id) {
      UuidIsOne(id, a, b, c, d, e);
    }
  }

  lemma UuidIsOne(id: string, a: string, b: string, c: string, d: string, e: string)
    requires IsUuid(id, a, b, c, d, e)
    ensures IsInstanceId(id)
  {
    assert id[..8] == a && id[9..13] == b && id[14..18] == c && id[19..23] == d && id[24..] == e;
    forall i | 0 <= i < 36 ensures if i in {8, 13, 18, 23} then id[i] == '-' else IsHex(id[i]) {
      if i < 8 {
        assert id[i] == a[i];
      } else if 9 <= i < 13 {
        assert id[i] == b[i - 9];
      } else if 14 <= i < 18 {
        assert id[i] == c[i - 14];
      } else if 19 <= i < 23 {
        assert id[i] == d[i - 19];
      } else if 24 <= i {
        assert id[i] == e[i - 24];
      }
    }
  }

  predicate MayRemove(c: Container) {
    c.state == "exited" || (c.state in {"dead", "created"} && c.labelled)
  }

  /** The archive is attempted, and the runtime asked to remove, only once nothing speaks against
      it; `archived` and `asked` report whether that was reached. */
  method RemoveStale(id: string, lines: int, active: bool, listing: Option<seq<Container>>, archive: Outcome,
      removes: bool)
    returns (answer: Answer, archived: bool, asked: bool)
    ensures archived <==>
              && IsInstanceId(id) && lines >= 0 && !active && listing.Some?
              && exists i :: FirstWith(listing.value, id, i)
                             && var c := listing.value[i];
                                c.state == "exited" || ((c.state == "dead" || c.state == "created") && c.labelled)
    ensures asked <==> archived && archive == ArchiveStored
    ensures answer == Removed <==> asked && removes
    ensures answer == Kept <==> archived && archive == ArchiveFailed
    ensures answer == Gone <==>
              || (archived && archive == ArchiveNothing)
              || (&& IsInstanceId(id) && lines >= 0 && !active && listing.Some?
                  && forall c :: c in listing.value ==> c.instanceId != id)
    ensures answer == Failed <==>
              || (asked && !removes)
              || (archived && archive == ArchiveBusy)
              || (IsInstanceId(id) && lines >= 0 && !active && listing.None?)
  {
    answer, archived, asked := Refused, false, false;
    if !IsInstanceId(id) || lines < 0 || active {
      return;
    }
    if listing.None? {
      return Failed, false, false;
    }
    hide IsInstanceId, MayRemove;
    var i := 0;
    while i < |listing.value| && listing.value[i].instanceId != id
      invariant 0 <= i <= |listing.value| && forall j :: 0 <= j < i ==> listing.value[j].instanceId != id
    {
      i := i + 1;
    }
    if i == |listing.value| {
      return Gone, false, false;
    }
    assert FirstWith(listing.value, id, i) && listing.value[i] in listing.value;
    if !MayRemove(listing.value[i]) {
      return;
    }
    archived := true;
    match archive
    case ArchiveStored =>
      asked := true;
      answer := if removes then Removed else Failed;
    case ArchiveNothing => answer := Gone;
    case ArchiveBusy => answer := Failed;
    case ArchiveFailed => answer := Kept;
  }

  /** The container a listing gives for an instance: the first that names it. */
  predicate FirstWith(listing: seq<Container>, id: string, i: int) {
    0 <= i < |listing| && listing[i].instanceId == id && forall j :: 0 <= j < i ==> listing[j].instanceId != id
  }
}
