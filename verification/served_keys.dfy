/** Which grants offer a key to the peers that log in: exactly the live ones. */
module ServedKeys {
  import opened Text
  import opened Wire
  import opened AuthorizedKeys
  import opened PeerGrants
  import opened Sorting

  function EntryOf(g: Grant): Entry {
    Entry(g.transferId, g.destKey, g.destIps)
  }

  predicate FileLeq(a: string, b: string) {
    StringLeq(a + ".json", b + ".json")
  }

  lemma FilesAreOrdered(a: string, b: string, c: string)
    ensures FileLeq(a, b) || FileLeq(b, a)
    ensures FileLeq(a, b) && FileLeq(b, c) ==> FileLeq(a, c)
  {
    StringsAreOrdered(a + ".json", b + ".json", c + ".json");
  }

  /** Some file comes first. */
  lemma {:induction false} FirstFile(ids: set<string>) returns (first: string)
    requires ids != {}
    ensures first in ids && forall id :: id in ids ==> FileLeq(first, id)
  {
    hide FileLeq;
    var one :| one in ids;
    FilesAreOrdered(one, one, one);
    first := one;
    if ids != {one} {
      var next := FirstFile(ids - {one});
      FilesAreOrdered(one, next, next);
      first := if FileLeq(one, next) then one else next;
      forall id | id in ids && id != one ensures FileLeq(first, id) {
        FilesAreOrdered(one, next, id);
      }
    }
  }

  /** Every grant file that can be read as a live grant, each once, in the order of the file names. */
  method ActiveGrants(grants: GrantDir, used: UsedDir, now: int) returns (active: seq<Grant>)
    ensures forall g :: g in active <==> ReadGrant(grants, used, g.transferId, now) == Some(g)
    ensures forall i, j :: 0 <= i < j < |active| ==>
              active[i].transferId != active[j].transferId && FileLeq(active[i].transferId, active[j].transferId)
  {
    hide ValidTransferId, FileLeq;
    active := [];
    var left := grants.Keys;
    while left != {}
      invariant left <= grants.Keys
      invariant forall g :: g in active <==> g.transferId in grants.Keys - left && ReadGrant(grants, used, g.transferId, now) == Some(g)
      invariant forall i, j :: 0 <= i < j < |active| ==>
                  active[i].transferId != active[j].transferId && FileLeq(active[i].transferId, active[j].transferId)
      invariant forall i, id :: 0 <= i < |active| && id in left ==> FileLeq(active[i].transferId, id)
    {
      ghost var first := FirstFile(left);
      var id :| id in left && forall other :: other in left ==> FileLeq(id, other);
      left := left - {id};
      var read := ReadGrant(grants, used, id, now);
      if read.Some? {
        assert forall i :: 0 <= i < |active| ==> active[i] in active;
        active := active + [read.value];
      }
    }
  }

  /** What the login daemon is told: the lines of the live grants. */
  method PrintServedKeys(grants: GrantDir, used: UsedDir, user: string, now: int, canon: string -> Option<string>,
      writes: nat -> bool)
    returns (out: string, ok: bool, ghost lines: seq<string>)
    ensures ok <==> forall n: nat :: n < |lines| ==> writes(n)
    ensures ok ==> out == Printed(lines)
    ensures user != PEER_USER ==> lines == []
    ensures user == PEER_USER ==> forall l :: l in lines <==> exists id :: LineOf(grants, used, id, now, canon) == Some(l)
    ensures !ok ==> exists n: nat :: n < |lines| && out == Printed(lines[..n])
  {
    hide LineFor, Lines;
    var active := ActiveGrants(grants, used, now);
    var entries := [];
    for n := 0 to |active|
      invariant |entries| == n && forall i :: 0 <= i < n ==> entries[i] == EntryOf(active[i])
    {
      entries := entries + [EntryOf(active[n])];
    }
    out, ok := WriteAuthorizedKeys(entries, user, canon, writes);
    lines := if user == PEER_USER then Lines(entries, canon) else [];
    LinesAre(entries, canon);
    forall id, l | LineOf(grants, used, id, now, canon) == Some(l) ensures exists e :: e in entries && LineFor(e, canon) == Some(l) {
      var g := ReadGrant(grants, used, id, now).value;
      assert g in active;
      var i :| 0 <= i < |active| && active[i] == g;
      assert entries[i] in entries;
    }
    forall e | e in entries ensures LineFor(e, canon) == LineOf(grants, used, e.transferId, now, canon) {
      var i :| 0 <= i < |entries| && entries[i] == e;
      assert active[i] in active;
    }
  }

  /** The line of the grant filed under id, if it is live and its values are sound. */
  function LineOf(grants: GrantDir, used: UsedDir, id: string, now: int, canon: string -> Option<string>): Option<string> {
    var read := ReadGrant(grants, used, id, now);
    if read == None then None else LineFor(EntryOf(read.value), canon)
  }

  /** Reading the line back, it runs this transfer and no other. */
  predicate Offers(line: string, id: string) {
    ReadLine(line).Some? && ReadLine(line).value.1 == ForcedCommand(id)
  }

  /** A transfer is offered by the printed lines exactly when its grant is live and every value in
      it is sound; so a used, expired, unreadable or misfiled grant offers no key. */
  lemma OfferedExactlyWhenLive(grants: GrantDir, used: UsedDir, id: string, now: int, canon: string -> Option<string>, lines: seq<string>)
    requires SaneAddresses(canon)
    requires forall l :: l in lines <==> exists i :: LineOf(grants, used, i, now, canon) == Some(l)
    ensures (exists l :: l in lines && Offers(l, id)) <==> LineOf(grants, used, id, now, canon).Some?
    ensures id in used || id !in grants || grants[id] == None || grants[id].value.transferId != id || now >= grants[id].value.expiresAt
            ==> forall l :: l in lines ==> !Offers(l, id)
  {
    hide LineFor, ReadLine, ForcedCommand, ValidTransferId, SaneAddresses;
    forall i, l | LineOf(grants, used, i, now, canon) == Some(l) ensures Offers(l, id) <==> i == id {
      var e := EntryOf(ReadGrant(grants, used, i, now).value);
      NoGrantBreaksItsLine(e, canon);
      CommandNamesOne(i, id);
    }
  }

  lemma CommandNamesOne(a: string, b: string)
    ensures ForcedCommand(a) == ForcedCommand(b) <==> a == b
  {
    var p := AGENT_BINARY + " peer-serve ";
    assert ForcedCommand(a) == p + a && ForcedCommand(b) == p + b;
    assert (p + a)[|p|..] == a && (p + b)[|p|..] == b;
  }
}
