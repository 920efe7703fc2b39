/** Grant files and used-markers on the source node, and the forced command that consumes
    a grant. */
module PeerGrants {
  import opened Text
  import opened Wire
  import opened SenderCommand
  import opened AuthorizedKeys

  datatype Grant = Grant(
    transferId: string, destKey: string, destIps: seq<string>,
    modelDir: string, files: seq<string>, expiresAt: int)

  /** Grant files by name; None stands for a file that does not decode. */
  type GrantDir = map<string, Option<Grant>>

  /** Used-markers by name, with the time each was made. */
  type UsedDir = map<string, int>

  datatype Request = Request(transferId: string, destKey: string, destIpAddress: string, format: string)

  predicate FileChar(c: char) {
    Alphanumeric(c) || c in {'.', '_', '+', '=', ',', '@', '%', '-'}
  }

  predicate SafeFileName(name: string) {
    && 1 <= |name| <= 255 && name != "." && name != ".."
    && (Alphanumeric(name[0]) || name[0] == '.' || name[0] == '_')
    && forall i :: 0 <= i < |name| ==> FileChar(name[i])
  }

  /** The live grant under id: unmarked, readable, filed under its own id, unexpired. */
  function ReadGrant(grants: GrantDir, used: UsedDir, id: string, now: int): Option<Grant> {
    if !ValidTransferId(id) || id in used || id !in grants || grants[id] == None then None
    else
      var g := grants[id].value;
      if g.transferId != id || now >= g.expiresAt then None else Some(g)
  }

  function Unexpired(grants: GrantDir, now: int): GrantDir {
    map id | id in grants && grants[id].Some? && now < grants[id].value.expiresAt :: grants[id]
  }

  function Fresh(used: UsedDir, now: int, ttl: nat): UsedDir {
    map id | id in used && now - used[id] <= ttl :: used[id]
  }

  /** What the file system does during a clean-up: which directories can be listed, and which
      files can be removed. */
  datatype Disk = Disk(
    listed: bool, usedListed: bool,
    removesGrant: string -> bool, removesTemp: string -> bool, removesMarker: string -> bool)

  /** What is left: everything worth keeping, and what could not be removed. */
  function SweptGrants(grants: GrantDir, now: int, d: Disk): GrantDir {
    map id | id in grants && (id in Unexpired(grants, now) || !d.removesGrant(id)) :: grants[id]
  }

  function SweptMarkers(used: UsedDir, now: int, ttl: nat, d: Disk): UsedDir {
    map id | id in used && (id in Fresh(used, now, ttl) || !d.removesMarker(id)) :: used[id]
  }

  function SweptTemps(temps: set<string>, d: Disk): set<string> {
    set t | t in temps && !d.removesTemp(t)
  }

  /** What rsync is pointed at: the directory itself, or the named files inside it. */
  function Sources(g: Grant): seq<string> {
    if g.files == [] then ["."] else seq(|g.files|, i requires 0 <= i < |g.files| => "./" + g.files[i])
  }

  function Argv(options: seq<string>, g: Grant): seq<string> {
    ["rsync", "--server", "--sender"] + options + ["."] + Sources(g)
  }

  datatype Plan = Plan(argv: seq<string>, dir: string)

  predicate Absolute(path: string) {
    HasPrefix(path, "/")
  }

  /** Everything a forced command checks before it claims the grant. */
  function Approved(grants: GrantDir, used: UsedDir, id: string, command: string, connection: string,
      now: int): Option<Plan> {
    var read := ReadGrant(grants, used, id, now);
    if read == None then None
    else
      var g, fields, options := read.value, Fields(connection), ParseSenderCommand(command);
      if fields == [] || fields[0] !in g.destIps || options == None || !Absolute(g.modelDir) then None
      else if exists f :: f in g.files && !SafeFileName(f) then None
      else Some(Plan(Argv(options.value, g), g.modelDir))
  }

  /** A live, unused grant under this id names the peer that connects; the command is a permitted one;
      and what the grant serves is an absolute directory and safe names. */
  predicate MayServe(grants: GrantDir, used: UsedDir, id: string, command: string, connection: string, now: int) {
    && ValidTransferId(id) && id !in used && id in grants && grants[id].Some?
    && var g, from := grants[id].value, Fields(connection);
       && g.transferId == id && now < g.expiresAt
       && from != [] && (exists i :: 0 <= i < |g.destIps| && g.destIps[i] == from[0])
       && ParseSenderCommand(command).Some? && g.modelDir != "" && g.modelDir[0] == '/'
       && forall f :: f in g.files ==> SafeFileName(f)
  }

  lemma ApprovedIff(grants: GrantDir, used: UsedDir, id: string, command: string, connection: string, now: int)
    ensures var plan := Approved(grants, used, id, command, connection, now);
            && (plan.Some? <==> MayServe(grants, used, id, command, connection, now))
            && (plan.Some? ==> plan.value == Plan(Argv(ParseSenderCommand(command).value, grants[id].value), grants[id].value.modelDir))
  {
    hide ParseSenderCommand, Fields, ValidTransferId, SafeFileName;
    if id in grants && grants[id].Some? {
      AbsoluteIff(grants[id].value.modelDir);
    }
  }

  lemma AbsoluteIff(path: string)
    ensures Absolute(path) <==> path != "" && path[0] == '/'
  {
    assert path != "" ==> path[..1][0] == path[0];
  }

  lemma OneLess<K, V>(m: map<K, V>, k: K)
    requires k in m
    ensures |m - {k}| == |m| - 1
  {
    assert (m - {k}).Keys == m.Keys - {k};
    assert |m.Keys| == |m| && |(m - {k}).Keys| == |m - {k}|;
  }

  class GrantStore {
    const ttl: nat
    var grants: GrantDir
    var temps: set<string> // leftovers of interrupted grant writes
    var used: UsedDir

    constructor (ttl: nat)
      ensures this.ttl == ttl && grants == map[] && temps == {} && used == map[]
    {
      this.ttl := ttl;
      grants, temps, used := map[], {}, map[];
    }

    /** `source` is the directory and files the model resolves to, if it does; `written` says
        whether the file was made, which happens whole or not at all. */
    method Authorize(req: Request, canon: string -> Option<string>, source: Option<(string, seq<string>)>,
        now: int, written: bool)
      returns (ok: bool)
      modifies this`grants
      ensures ok <==>
                && ValidTransferId(req.transferId) && ValidSSHPublicKey(req.destKey)
                && ParseDestIPs(req.destIpAddress, canon).Some? && req.format in {"safetensors", "gguf"}
                && source.Some? && req.transferId !in old(grants) && written
      ensures !ok ==> grants == old(grants)
      ensures ok ==> grants == old(grants)[req.transferId := Some(Grant(
                       req.transferId, req.destKey, ParseDestIPs(req.destIpAddress, canon).value,
                       source.value.0, source.value.1, now + ttl))]
    {
      if !ValidTransferId(req.transferId) || !ValidSSHPublicKey(req.destKey) {
        return false;
      }
      var ips := ParseDestIPs(req.destIpAddress, canon);
      if ips == None || (req.format != "safetensors" && req.format != "gguf") || source == None {
        return false;
      }
      if req.transferId in grants || !written {
        return false;
      }
      var g := Grant(req.transferId, req.destKey, ips.value, source.value.0, source.value.1, now + ttl);
      grants := grants[req.transferId := Some(g)];
      ok := true;
    }

    /** Removes the grant, then its marker, and stops at a removal that fails; what is not there
        is no failure. */
    method Revoke(id: string, d: Disk) returns (ok: bool)
      modifies this`grants, this`used
      ensures ok <==> ValidTransferId(id) && (id in old(grants) ==> d.removesGrant(id)) && (id in old(used) ==> d.removesMarker(id))
      ensures ok ==> grants == old(grants) - {id} && used == old(used) - {id}
      ensures !ok ==> used == old(used) && (grants == old(grants) || (grants == old(grants) - {id} && id in old(used)))
    {
      if !ValidTransferId(id) || (id in grants && !d.removesGrant(id)) {
        return false;
      }
      grants := grants - {id};
      if id in used && !d.removesMarker(id) {
        assert id !in old(grants) ==> grants == old(grants);
        return false;
      }
      used := used - {id};
      ok := true;
    }

    method SweepGrants(now: int, d: Disk) returns (removed: nat)
      modifies this`grants
      ensures grants == SweptGrants(old(grants), now, d)
      ensures removed + |grants| == |old(grants)|
    {
      removed := 0;
      var todo := grants.Keys;
      while todo != {}
        invariant todo <= grants.Keys
        invariant grants == map id | id in old(grants) &&
                                     (id in todo || id in SweptGrants(old(grants), now, d)) :: old(grants)[id]
        invariant removed + |grants| == |old(grants)|
        decreases todo
      {
        var id :| id in todo;
        todo := todo - {id};
        if (grants[id] == None || now >= grants[id].value.expiresAt) && d.removesGrant(id) {
          OneLess(grants, id);
          grants := grants - {id};
          removed := removed + 1;
        }
      }
    }

    method SweepTemps(d: Disk) returns (removed: nat)
      modifies this`temps
      ensures temps == SweptTemps(old(temps), d)
      ensures removed + |temps| == |old(temps)|
    {
      removed := 0;
      var names := temps;
      while names != {}
        invariant names <= temps
        invariant temps == set t | t in old(temps) && (t in names || !d.removesTemp(t))
        invariant removed + |temps| == |old(temps)|
        decreases names
      {
        var t :| t in names;
        names := names - {t};
        if d.removesTemp(t) {
          temps := temps - {t};
          removed := removed + 1;
        }
      }
    }

    method SweepMarkers(now: int, d: Disk) returns (removed: nat)
      modifies this`used
      ensures used == SweptMarkers(old(used), now, ttl, d)
      ensures removed + |used| == |old(used)|
    {
      removed := 0;
      var marks := used.Keys;
      while marks != {}
        invariant marks <= used.Keys
        invariant used == map id | id in old(used) && (id in marks || id in SweptMarkers(old(used), now, ttl, d)) :: old(used)[id]
        invariant removed + |used| == |old(used)|
        decreases marks
      {
        var id :| id in marks;
        marks := marks - {id};
        if now - used[id] > ttl && d.removesMarker(id) {
          OneLess(used, id);
          used := used - {id};
          removed := removed + 1;
        }
      }
    }

    /** Removes expired and unreadable grants and leftover files, then markers older than the
        TTL, as far as it can list and remove them, and counts what it removed. */
    method SweepStale(now: int, d: Disk) returns (removed: nat, ok: bool)
      modifies this`grants, this`temps, this`used
      ensures ok == d.listed
      ensures grants == (if ok then SweptGrants(old(grants), now, d) else old(grants))
      ensures temps == (if ok then SweptTemps(old(temps), d) else old(temps))
      ensures used == (if ok && d.usedListed then SweptMarkers(old(used), now, ttl, d) else old(used))
      ensures removed + |grants| + |temps| + |used| == |old(grants)| + |old(temps)| + |old(used)|
    {
      removed, ok := 0, d.listed;
      if !ok {
        return;
      }
      var files := SweepGrants(now, d);
      var leftovers := SweepTemps(d);
      removed := files + leftovers;
      if d.usedListed {
        var markers := SweepMarkers(now, d);
        removed := removed + markers;
      }
    }

    /** The forced command: approves one connection of a named peer and consumes the grant, or
        changes nothing; `marked` says whether a marker that is not there yet can be made. */
    method PrepareServe(id: string, command: string, connection: string, now: int, marked: bool) returns (plan: Option<Plan>)
      modifies this`used
      ensures plan == if marked then Approved(grants, old(used), id, command, connection, now) else None
      ensures plan.Some? <==> marked && MayServe(grants, old(used), id, command, connection, now)
      ensures plan.Some? ==> plan.value == Plan(Argv(ParseSenderCommand(command).value, grants[id].value), grants[id].value.modelDir)
      ensures plan.Some? ==> used == old(used)[id := now] && id !in old(used)
      ensures plan == None ==> used == old(used)
      ensures plan.Some? ==> Approved(grants, used, id, command, connection, now) == None
    {
      ApprovedIff(grants, used, id, command, connection, now);
      hide MayServe, ParseSenderCommand, Fields, ValidTransferId, SafeFileName;
      var read := ReadGrant(grants, used, id, now);
      if read == None {
        return None;
      }
      var g := read.value;
      var fields := Fields(connection);
      if fields == [] || fields[0] !in g.destIps {
        return None;
      }
      var options := ParseSenderCommand(command);
      if options == None || !Absolute(g.modelDir) {
        return None;
      }
      var sources := ["."];
      if g.files != [] {
        sources := [];
        for i := 0 to |g.files|
          invariant |sources| == i
          invariant forall k :: 0 <= k < i ==> SafeFileName(g.files[k]) && sources[k] == "./" + g.files[k]
        {
          if !SafeFileName(g.files[i]) {
            return None;
          }
          sources := sources + ["./" + g.files[i]];
        }
      }
      assert sources == Sources(g);
      if !marked {
        return None;
      }
      used := used[id := now];
      plan := Some(Plan(["rsync", "--server", "--sender"] + options.value + ["."] + sources, g.modelDir));
    }
  }

  // --- What an approved command line is ---

  lemma {:induction false} SpacedAppends(a: seq<string>, b: seq<string>)
    ensures Spaced(a + b) == Spaced(a) + Spaced(b)
  {
    if a == [] {
      assert a + b == b;
    } else {
      SpacedAppends(a[1..], b);
      assert (a + b)[1..] == a[1..] + b;
    }
  }

  lemma TwoWords(a: string, b: string)
    ensures Spaced([a, b]) == " " + a + " " + b
  {
    assert [a, b][1..] == [b];
    assert Spaced([b]) == " " + b;
  }

  lemma PrefixWords()
    ensures PREFIX == "rsync" + (" " + "--server" + " " + "--sender") + " "
  {
  }

  lemma SuffixWords()
    ensures SUFFIX == " " + "." + " " + "."
  {
  }

  /** Serving a whole directory runs exactly the command the client asked for. */
  lemma WholeDirectoryRunsTheCommand(command: string, g: Grant)
    requires ParseSenderCommand(command).Some? && g.files == []
    ensures JoinWords(Argv(ParseSenderCommand(command).value, g)) == command
  {
    hide ParseSenderCommand, Spaced, JoinWords;
    var options := ParseSenderCommand(command).value;
    ParseLosesNothing(command);
    OptionsNotEmpty(command);
    TwoWords("--server", "--sender");
    TwoWords(".", ".");
    PrefixWords();
    SuffixWords();
    var first, last := ["--server", "--sender"], [".", "."];
    assert Argv(options, g) == ["rsync"] + (first + options + last);
    JoinOfCons("rsync", first + options + last);
    SpacedAppends(first + options, last);
    SpacedAppends(first, options);
    SpacedIsJoin(options);
    Regroup("rsync", Spaced(first), JoinWords(options), SUFFIX);
  }

  lemma SpacedIsJoin(words: seq<string>)
    requires words != []
    ensures Spaced(words) == " " + JoinWords(words)
  {
    assert " " + words[0] + Spaced(words[1..]) == " " + (words[0] + Spaced(words[1..]));
  }

  lemma Regroup(a: string, b: string, c: string, d: string)
    ensures a + ((b + (" " + c)) + d) == a + b + " " + c + d
  {
  }

  lemma OptionsNotEmpty(command: string)
    requires ParseSenderCommand(command).Some?
    ensures ParseSenderCommand(command).value != []
  {
  }

  /** No source of an approved plan can be read as an rsync option: each is "." or "./"
      and a safe name. */
  lemma SourcesAreNeverOptions(grants: GrantDir, used: UsedDir, id: string, command: string, connection: string,
      now: int, k: nat)
    requires Approved(grants, used, id, command, connection, now).Some?
    requires var argv := Approved(grants, used, id, command, connection, now).value.argv;
             3 + |ParseSenderCommand(command).value| <= k < |argv|
    ensures var argv := Approved(grants, used, id, command, connection, now).value.argv;
            var g := grants[id].value;
            && argv == ["rsync", "--server", "--sender"] + ParseSenderCommand(command).value + ["."] + Sources(g)
            && (argv[k] == "." || (exists f :: f in g.files && SafeFileName(f) && argv[k] == "./" + f))
            && argv[k][0] != '-'
  {
    hide ParseSenderCommand, SafeFileName;
    var argv := Approved(grants, used, id, command, connection, now).value.argv;
    var g := grants[id].value;
    var n := |ParseSenderCommand(command).value| + 4;
    if k >= n && g.files != [] {
      assert argv[k] == Sources(g)[k - n] == "./" + g.files[k - n];
      assert g.files[k - n] in g.files;
    }
  }
}
