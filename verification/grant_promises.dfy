/** What an authorization is worth: its key is offered and its peer is served, and nobody else. */
module GrantPromises {
  import opened Text
  import opened Wire
  import opened SenderCommand
  import opened AuthorizedKeys
  import opened PeerGrants
  import opened ServedKeys

  /** The grant that a request leads to, if every value in it is acceptable. */
  ghost predicate Accepted(req: Request, canon: string -> Option<string>, dir: string, files: seq<string>, expiresAt: int, g: Grant) {
    && ValidTransferId(req.transferId) && ValidSSHPublicKey(req.destKey) && ParseDestIPs(req.destIpAddress, canon).Some?
    && g == Grant(req.transferId, req.destKey, ParseDestIPs(req.destIpAddress, canon).value, dir, files, expiresAt)
  }

  /** Until it expires or is used, an authorization has the node print a line that offers the
      request's own key, its own forced command and the request's addresses. */
  lemma AuthorizedIsOffered(grants: GrantDir, used: UsedDir, req: Request, canon: string -> Option<string>, g: Grant, now: int)
    requires SaneAddresses(canon) && Accepted(req, canon, g.modelDir, g.files, g.expiresAt, g)
    requires req.transferId in grants && grants[req.transferId] == Some(g) && req.transferId !in used && now < g.expiresAt
    ensures var line := LineOf(grants, used, req.transferId, now, canon);
            line.Some? && line.value == "restrict,from=\"" + Join(g.destIps, ',') + "\",command=\"" + "/opt/sparky/bin/sparky-agent" + " peer-serve " + req.transferId + "\" " + req.destKey + "\n"
            && ReadLine(line.value) == Some((Join(g.destIps, ','), ForcedCommand(req.transferId), req.destKey))
  {
    hide ValidTransferId, ValidSSHPublicKey, SaneAddresses, ReadLine, ForcedCommand;
    ParsedAddresses(req.destIpAddress, canon);
    AddressesReadBack(g.destIps, canon);
    NoGrantBreaksItsLine(EntryOf(g), canon);
    LineText(Join(g.destIps, ','), req.transferId, req.destKey);
    hide Line, Join;
  }

  lemma LineText(from: string, id: string, key: string)
    ensures Line(from, ForcedCommand(id), key) ==
              "restrict,from=\"" + from + "\",command=\"" + "/opt/sparky/bin/sparky-agent" + " peer-serve " + id + "\" " + key + "\n"
  {
    var a, b := "restrict,from=\"" + from + "\",command=\"", "/opt/sparky/bin/sparky-agent" + " peer-serve " + id;
    assert FROM + from + COMMAND == a && ForcedCommand(id) == b;
    assert a + b == a + "/opt/sparky/bin/sparky-agent" + " peer-serve " + id;
  }

  /** The first word of what follows it after a space. */
  lemma FirstField(w: string, rest: string)
    requires w != "" && All(w, NotSpace)
    ensures Fields(w + " " + rest) == [w] + Fields(rest)
  {
    var s := w + " " + rest;
    forall k | 0 <= k < |w| ensures NotSpace.Has(s[k]) {
      assert s[k] == w[k];
    }
    assert s[|w|] == ' ';
    RunEndIs(s, 0, NotSpace, |w|);
    hide RunEnd;
    assert s[..|w|] == w && s[|w|..] == " " + rest && (" " + rest)[1..] == rest;
  }

  lemma AddressIsAWord(p: string)
    requires p != "" && forall i :: 0 <= i < |p| ==> IpChar(p[i])
    ensures All(p, NotSpace)
  {
  }

  /** Until it expires or is used, an authorization serves a permitted command that comes from an
      address exactly when it is one of the request's, read canonically. */
  lemma AuthorizedIsServedTo(grants: GrantDir, used: UsedDir, req: Request, canon: string -> Option<string>, g: Grant,
      now: int, address: string, rest: string, command: string)
    requires SaneAddresses(canon) && Accepted(req, canon, g.modelDir, g.files, g.expiresAt, g)
    requires req.transferId in grants && grants[req.transferId] == Some(g) && req.transferId !in used && now < g.expiresAt
    requires HasPrefix(g.modelDir, "/") && (forall f :: f in g.files ==> SafeFileName(f)) && ParseSenderCommand(command).Some?
    requires address != "" && forall i :: 0 <= i < |address| ==> IpChar(address[i])
    ensures Approved(grants, used, req.transferId, command, address + " " + rest, now).Some? <==>
              exists p :: p in Split(req.destIpAddress, ',') && canon(p) == Some(address)
  {
    hide ValidTransferId, ValidSSHPublicKey, SaneAddresses, SafeFileName, ParseSenderCommand;
    AddressIsAWord(address);
    FirstField(address, rest);
    CanonAllMembers(Split(req.destIpAddress, ','), canon, address);
  }

  lemma CanonAllMembers(parts: seq<string>, canon: string -> Option<string>, address: string)
    requires CanonAll(parts, canon).Some?
    ensures address in CanonAll(parts, canon).value <==> exists p :: p in parts && canon(p) == Some(address)
  {
    var out := CanonAll(parts, canon).value;
    if address in out {
      var i :| 0 <= i < |out| && out[i] == address;
      assert parts[i] in parts;
    }
    if p :| p in parts && canon(p) == Some(address) {
      var i :| 0 <= i < |parts| && parts[i] == p;
      assert out[i] == address;
    }
  }

  /** A connection from any other address than the grant names is refused. */
  lemma OthersAreRefused(grants: GrantDir, used: UsedDir, id: string, command: string, connection: string, now: int)
    requires id in grants && grants[id].Some?
    requires Fields(connection) == [] || forall i :: 0 <= i < |grants[id].value.destIps| ==> grants[id].value.destIps[i] != Fields(connection)[0]
    ensures Approved(grants, used, id, command, connection, now) == None
  {
  }

  /** A clean-up leaves every grant that is readable and unexpired, and takes any other that it can;
      nothing it takes could ever be served again. */
  lemma SweepTakesNothingLive(grants: GrantDir, used: UsedDir, now: int, d: Disk, id: string, later: int)
    requires now <= later
    ensures id in SweptGrants(grants, now, d) <==>
              id in grants && ((grants[id].Some? && now < grants[id].value.expiresAt) || !d.removesGrant(id))
    ensures ReadGrant(SweptGrants(grants, now, d), used, id, later) == ReadGrant(grants, used, id, later)
  {
  }

  /** A marker goes exactly when it is older than the TTL and can be removed. */
  lemma OldMarkersGo(used: UsedDir, now: int, ttl: nat, d: Disk, id: string)
    ensures id in SweptMarkers(used, now, ttl, d) <==> id in used && (now <= used[id] + ttl || !d.removesMarker(id))
    ensures id in SweptMarkers(used, now, ttl, d) ==> SweptMarkers(used, now, ttl, d)[id] == used[id]
  {
  }

  /** A name that may be served is one path component that no option parser takes for an option and
      no shell splits; every name of letters, digits, '.', '_' and '-' is one that does not begin
      with '-' and does not stand for a directory. */
  lemma SafeNames(name: string)
    ensures SafeFileName(name) ==>
              && name != "" && name[0] != '-' && name != "." && name != ".."
              && forall i :: 0 <= i < |name| ==> name[i] !in {'/', '\\', ' ', '\n', '\'', '"', '`', '$', ';', '*', '?'}
    ensures 1 <= |name| <= 255 && name != "." && name != ".." && name[0] != '-'
            && (forall i :: 0 <= i < |name| ==> Alphanumeric(name[i]) || name[i] in {'.', '_', '-'})
            ==> SafeFileName(name)
  {
  }
}
