/** The authorized_keys lines printed for unexpired grants, and the checks every value in
    them passes. */
module AuthorizedKeys {
  import opened Text
  import opened Wire

  const MAX_KEY: nat := 1024
  const MAX_DEST_IPS: nat := 16
  const KEY_TYPES := {"ssh-ed25519", "ssh-rsa", "ecdsa-sha2-nistp256", "ecdsa-sha2-nistp384", "ecdsa-sha2-nistp521"}
  const AGENT_BINARY := "/opt/sparky/bin/sparky-agent"
  const PEER_USER := "sparky-peer"

  predicate Alphanumeric(c: char) {
    'A' <= c <= 'Z' || 'a' <= c <= 'z' || '0' <= c <= '9'
  }

  predicate ValidTransferId(id: string) {
    1 <= |id| <= 64 && forall i :: 0 <= i < |id| ==> Alphanumeric(id[i]) || id[i] == '-'
  }

  predicate Base64Char(c: char) {
    Alphanumeric(c) || c == '+' || c == '/'
  }

  /** How many characters at the end of s are '='. */
  function Padding(s: string): (n: nat)
    ensures n <= |s|
  {
    if s != "" && s[|s| - 1] == '=' then Padding(s[..|s| - 1]) + 1 else 0
  }

  /** At least one base64 character, then at most three '='. */
  predicate Base64Body(s: string) {
    var n := Padding(s);
    n <= 3 && |s| > n && forall i :: 0 <= i < |s| - n ==> Base64Char(s[i])
  }

  predicate ValidSSHPublicKey(s: string) {
    && s != "" && |s| <= MAX_KEY
    && var i := IndexOf(s, ' ');
       i < |s| && s[..i] in KEY_TYPES && Base64Body(s[i + 1..])
  }

  /** A key is accepted exactly when it is a known type, a space, base64 text and perhaps padding,
      in at most 1024 characters. */
  lemma KeyForm(s: string)
    ensures ValidSSHPublicKey(s) <==> |s| <= 1024 && exists kind, body, n: nat :: IsKey(s, kind, body, n)
  {
    hide ValidSSHPublicKey, IsKey;
    if ValidSSHPublicKey(s) {
      var kind, body, n := KeyParts(s);
    }
    if |s| <= 1024 && exists kind, body, n: nat :: IsKey(s, kind, body, n) {
      var kind, body, n: nat :| IsKey(s, kind, body, n);
      KeyIsValid(s, kind, body, n);
    }
  }

  lemma KeyParts(s: string) returns (kind: string, body: string, n: nat)
    requires ValidSSHPublicKey(s)
    ensures |s| <= 1024 && IsKey(s, kind, body, n)
  {
    var i := IndexOf(s, ' ');
    var rest := s[i + 1..];
    kind, n := s[..i], Padding(rest);
    body := rest[..|rest| - n];
    TypesAre(kind);
    BodyParts(rest);
    hide Padding, IndexOf, KEY_TYPES, Equals, Base64Body, Base64Char;
    CutAtSpace(s, i, body, Equals(n));
  }

  lemma CutAtSpace(s: string, i: nat, body: string, end: string)
    requires i < |s| && s[i] == ' ' && s[i + 1..] == body + end
    ensures s == s[..i] + " " + body + end
  {
    assert s == s[..i] + [s[i]] + s[i + 1..];
    assert s[..i] + " " + (body + end) == s[..i] + " " + body + end;
  }

  lemma BodyParts(rest: string)
    requires Base64Body(rest)
    ensures var n := Padding(rest);
            && n <= 3 && rest == rest[..|rest| - n] + Equals(n) && rest[..|rest| - n] != ""
            && forall c :: c in rest[..|rest| - n] ==> Base64Char(c)
  {
    PaddingIsRun(rest);
    hide Padding, Equals;
  }

  lemma TypesAre(kind: string)
    requires kind in KEY_TYPES
    ensures kind == "ssh-ed25519" || kind == "ssh-rsa" || kind == "ecdsa-sha2-nistp256" || kind == "ecdsa-sha2-nistp384"
            || kind == "ecdsa-sha2-nistp521"
  {
  }

  function Equals(n: nat): (s: string)
    ensures |s| == n && forall i :: 0 <= i < n ==> s[i] == '='
  {
    seq(n, i => '=')
  }

  ghost predicate IsKey(s: string, kind: string, body: string, n: nat) {
    && s == kind + " " + body + Equals(n) && n <= 3
    && (kind == "ssh-ed25519" || kind == "ssh-rsa" || kind == "ecdsa-sha2-nistp256" || kind == "ecdsa-sha2-nistp384"
        || kind == "ecdsa-sha2-nistp521")
    && body != "" && forall c :: c in body ==> Base64Char(c)
  }

  lemma KeyIsValid(s: string, kind: string, body: string, n: nat)
    requires IsKey(s, kind, body, n) && |s| <= MAX_KEY
    ensures ValidSSHPublicKey(s)
  {
    hide Base64Body;
    assert ' ' !in kind;
    assert s[..|kind|] == kind && s[|kind|] == ' ' && s[|kind| + 1..] == body + Equals(n);
    forall i | 0 <= i < |kind| ensures s[i] != ' ' {
      assert s[i] == kind[i];
    }
    IndexOfIs(s, ' ', |kind|);
    assert forall k :: 0 <= k < |body| ==> body[k] in body;
    BodyOf(body, n);
  }

  lemma BodyOf(body: string, n: nat)
    requires body != "" && n <= 3 && forall i :: 0 <= i < |body| ==> Base64Char(body[i])
    ensures Base64Body(body + Equals(n))
  {
    PaddingOf(body, n);
  }

  lemma {:induction false} PaddingOf(body: string, n: nat)
    requires body != "" && body[|body| - 1] != '='
    ensures Padding(body + Equals(n)) == n
  {
    var s := body + Equals(n);
    if n > 0 {
      PaddingOf(body, n - 1);
      assert s[..|s| - 1] == body + Equals(n - 1);
    }
  }

  lemma {:induction false} PaddingIsRun(s: string)
    ensures s[|s| - Padding(s)..] == Equals(Padding(s))
  {
    if s != "" && s[|s| - 1] == '=' {
      var init, n := s[..|s| - 1], Padding(s[..|s| - 1]);
      PaddingIsRun(init);
      assert s[|s| - (n + 1)..] == init[|init| - n..] + "=";
      assert Equals(n) + "=" == Equals(n + 1);
    }
  }

  /** Characters of a printed IP address. */
  predicate IpChar(c: char) {
    '0' <= c <= '9' || 'a' <= c <= 'f' || c == ':' || c == '.'
  }

  /** What is relied on of the platform's address parser: it prints only address
      characters, and reads back what it prints. */
  ghost predicate SaneAddresses(canon: string -> Option<string>) {
    forall p: string :: canon(p).Some? ==>
                          && canon(p).value != "" && (forall i :: 0 <= i < |canon(p).value| ==> IpChar(canon(p).value[i]))
                          && canon(canon(p).value) == canon(p)
  }

  function CanonAll(parts: seq<string>, canon: string -> Option<string>): (out: Option<seq<string>>)
    ensures out.Some? ==> |out.value| == |parts| && forall i :: 0 <= i < |parts| ==> canon(parts[i]) == Some(out.value[i])
  {
    if parts == [] then Some([])
    else
      var rest := CanonAll(parts[1..], canon);
      if canon(parts[0]) == None || rest == None then None else Some([canon(parts[0]).value] + rest.value)
  }

  function ParseDestIPs(raw: string, canon: string -> Option<string>): Option<seq<string>> {
    if raw == "" || |Split(raw, ',')| > MAX_DEST_IPS then None else CanonAll(Split(raw, ','), canon)
  }

  /** A list of addresses is accepted exactly when there are at most 16 and each is one. */
  lemma {:induction false} CanonAllIff(parts: seq<string>, canon: string -> Option<string>)
    ensures CanonAll(parts, canon).Some? <==> forall p :: p in parts ==> canon(p).Some?
  {
    if parts != [] {
      CanonAllIff(parts[1..], canon);
      assert parts == [parts[0]] + parts[1..];
    }
  }

  lemma DestIPsIff(raw: string, canon: string -> Option<string>)
    ensures ParseDestIPs(raw, canon).Some? <==> raw != "" && |Split(raw, ',')| <= 16 && forall p :: p in Split(raw, ',') ==> canon(p).Some?
  {
    CanonAllIff(Split(raw, ','), canon);
  }

  // --- Lines ---

  datatype Entry = Entry(transferId: string, destKey: string, destIps: seq<string>)

  const FROM := "restrict,from=\""
  const COMMAND := "\",command=\""
  const KEY := "\" "

  function ForcedCommand(id: string): string {
    AGENT_BINARY + " peer-serve " + id
  }

  function Line(from: string, command: string, key: string): string {
    FROM + from + COMMAND + command + KEY + key + "\n"
  }

  /** The line for one grant, None if any of its values fails its check. */
  function LineFor(e: Entry, canon: string -> Option<string>): Option<string> {
    var ips := ParseDestIPs(Join(e.destIps, ','), canon);
    if !ValidSSHPublicKey(e.destKey) || !ValidTransferId(e.transferId) || ips == None then None
    else Some(Line(Join(ips.value, ','), ForcedCommand(e.transferId), e.destKey))
  }

  function Lines(es: seq<Entry>, canon: string -> Option<string>): seq<string> {
    if es == [] then []
    else Lines(es[..|es| - 1], canon) + (match LineFor(es[|es| - 1], canon) case None => [] case Some(l) => [l])
  }

  function Printed(lines: seq<string>): string {
    if lines == [] then "" else Printed(lines[..|lines| - 1]) + lines[|lines| - 1]
  }

  lemma OneMoreLine(es: seq<Entry>, n: nat, canon: string -> Option<string>)
    requires n < |es|
    ensures Printed(Lines(es[..n + 1], canon)) ==
              Printed(Lines(es[..n], canon)) + (match LineFor(es[n], canon) case None => "" case Some(l) => l)
    ensures |Lines(es[..n + 1], canon)| == |Lines(es[..n], canon)| + if LineFor(es[n], canon).Some? then 1 else 0
  {
    hide LineFor;
    assert es[..n + 1][..n] == es[..n];
    var before := Lines(es[..n], canon);
    if LineFor(es[n], canon).Some? {
      var line := LineFor(es[n], canon).value;
      assert (before + [line])[..|before|] == before;
    } else {
      assert before + [] == before;
    }
  }

  /** Prints the lines until one cannot be written; `writes` says which go through. */
  method WriteAuthorizedKeys(grants: seq<Entry>, user: string, canon: string -> Option<string>, writes: nat -> bool)
    returns (out: string, ok: bool)
    ensures user != PEER_USER ==> ok && out == ""
    ensures user == PEER_USER ==> (ok <==> forall n: nat :: n < |Lines(grants, canon)| ==> writes(n))
    ensures user == PEER_USER && ok ==> out == Printed(Lines(grants, canon))
    ensures !ok ==> exists n: nat :: n < |Lines(grants, canon)| && !writes(n) && out == Printed(Lines(grants, canon)[..n])
  {
    hide ParseDestIPs, ValidSSHPublicKey, ValidTransferId, Line, ForcedCommand, Lines, Printed;
    out, ok := "", true;
    if user != PEER_USER {
      return;
    }
    NothingPrinted(canon);
    var printed := 0;
    for n := 0 to |grants|
      invariant out == Printed(Lines(grants[..n], canon)) && printed == |Lines(grants[..n], canon)|
      invariant forall k: nat :: k < printed ==> writes(k)
    {
      OneMoreLine(grants, n, canon);
      LinesGrow(grants, n, canon);
      LinesGrow(grants, n + 1, canon);
      var g := grants[n];
      var ips := ParseDestIPs(Join(g.destIps, ','), canon);
      if ValidSSHPublicKey(g.destKey) && ValidTransferId(g.transferId) && ips.Some? {
        if !writes(printed) {
          return out, false;
        }
        out := out + Line(Join(ips.value, ','), ForcedCommand(g.transferId), g.destKey);
        printed := printed + 1;
      }
    }
    assert grants[..|grants|] == grants;
  }

  /** The lines of the first grants are the first lines. */
  lemma {:induction false} LinesGrow(es: seq<Entry>, n: nat, canon: string -> Option<string>)
    requires n <= |es|
    ensures |Lines(es[..n], canon)| <= |Lines(es, canon)|
    ensures Lines(es, canon)[..|Lines(es[..n], canon)|] == Lines(es[..n], canon)
  {
    if n == |es| {
      assert es[..n] == es;
    } else {
      LinesGrow(es[..|es| - 1], n, canon);
      assert es[..|es| - 1][..n] == es[..n];
    }
  }

  lemma {:induction false} LinesAre(es: seq<Entry>, canon: string -> Option<string>)
    ensures forall l :: l in Lines(es, canon) <==> exists e :: e in es && LineFor(e, canon) == Some(l)
  {
    hide LineFor;
    if es != [] {
      LinesAre(es[..|es| - 1], canon);
      assert es == es[..|es| - 1] + [es[|es| - 1]];
    }
  }

  lemma NothingPrinted(canon: string -> Option<string>)
    ensures Printed(Lines([], canon)) == "" && Lines([], canon) == []
  {
  }

  // --- Reading a line back, as sshd does ---

  /** Three values after three fixed texts: the first two end at the next quote, the last
      at the end of the line. */
  function ReadValues(line: string, a: string, b: string, c: string): Option<(string, string, string)> {
    if !HasPrefix(line, a) then None
    else
      var s1 := line[|a|..];
      var i := IndexOf(s1, '"');
      if !HasPrefix(s1[i..], b) then None
      else
        var s2 := s1[i..][|b|..];
        var j := IndexOf(s2, '"');
        if !HasPrefix(s2[j..], c) then None
        else
          var s3 := s2[j..][|c|..];
          Some((s1[..i], s2[..j], s3[..IndexOf(s3, '\n')]))
  }

  function ReadLine(line: string): Option<(string, string, string)> {
    ReadValues(line, FROM, COMMAND, KEY)
  }

  lemma ValuesReadBack(a: string, from: string, b: string, command: string, c: string, key: string)
    requires '"' !in from && '"' !in command && '\n' !in key
    requires b != "" && b[0] == '"' && c != "" && c[0] == '"'
    ensures ReadValues(a + from + b + command + c + key + "\n", a, b, c) == Some((from, command, key))
  {
    var s3 := key + "\n";
    var s2 := command + (c + s3);
    var s1 := from + (b + s2);
    assert a + from + b + command + c + key + "\n" == a + s1;
    DropPrefix(a, s1);
    CutAt(from, '"', b + s2);
    DropPrefix(b, s2);
    CutAt(command, '"', c + s3);
    DropPrefix(c, s3);
    CutAt(key, '\n', "\n");
  }

  lemma LineReadsBack(from: string, command: string, key: string)
    requires '"' !in from && '"' !in command && '\n' !in key
    ensures ReadLine(Line(from, command, key)) == Some((from, command, key))
  {
    hide ReadValues;
    ValuesReadBack(FROM, from, COMMAND, command, KEY, key);
  }

  // --- No value can break out of its place ---

  predicate Plain(s: string) {
    '"' !in s && '\n' !in s
  }

  lemma PlainParts(a: string, b: string)
    requires Plain(a) && Plain(b)
    ensures Plain(a + b)
  {
  }

  lemma {:induction false} PaddingIsEquals(s: string)
    ensures forall i :: |s| - Padding(s) <= i < |s| ==> s[i] == '='
  {
    if s != "" && s[|s| - 1] == '=' {
      PaddingIsEquals(s[..|s| - 1]);
    }
  }

  lemma TypeIsPlain(t: string)
    requires t in KEY_TYPES
    ensures Plain(t)
  {
    assert t == "ssh-ed25519" || t == "ssh-rsa"
           || t == "ecdsa-sha2-nistp256" || t == "ecdsa-sha2-nistp384" || t == "ecdsa-sha2-nistp521";
  }

  lemma BodyIsPlain(body: string)
    requires Base64Body(body)
    ensures Plain(body)
  {
    PaddingIsEquals(body);
    assert forall k :: 0 <= k < |body| ==> Base64Char(body[k]) || body[k] == '=';
  }

  lemma KeyIsPlain(s: string)
    requires ValidSSHPublicKey(s)
    ensures Plain(s)
  {
    hide Plain, Base64Body;
    var i := IndexOf(s, ' ');
    TypeIsPlain(s[..i]);
    BodyIsPlain(s[i + 1..]);
    OneSpaceIsPlain();
    PlainParts(s[..i], " ");
    PlainParts(s[..i] + " ", s[i + 1..]);
    assert s == s[..i] + " " + s[i + 1..];
  }

  lemma OneSpaceIsPlain()
    ensures Plain(" ")
  {
  }

  lemma {:induction false} JoinIsPlain(ips: seq<string>)
    requires forall p :: p in ips ==> Plain(p)
    ensures Plain(Join(ips, ','))
  {
    if |ips| > 1 {
      assert forall p :: p in ips[1..] ==> p in ips;
      JoinIsPlain(ips[1..]);
      PlainParts(ips[0], ",");
      PlainParts(ips[0] + ",", Join(ips[1..], ','));
    } else if |ips| == 1 {
      assert ips[0] in ips;
    }
  }

  /** Whatever a grant file holds, it yields no line or one line that sshd reads as exactly
      the grant's own addresses, forced command and key, in canonical form - and it ends at
      that line's only line break. */
  lemma NoGrantBreaksItsLine(e: Entry, canon: string -> Option<string>)
    requires SaneAddresses(canon) && LineFor(e, canon).Some?
    ensures var line := LineFor(e, canon).value;
            var ips := ParseDestIPs(Join(e.destIps, ','), canon).value;
            && ReadLine(line) == Some((Join(ips, ','), ForcedCommand(e.transferId), e.destKey))
            && ParseDestIPs(Join(ips, ','), canon) == Some(ips)
            && IndexOf(line, '\n') == |line| - 1
  {
    hide Line, ReadLine, ForcedCommand, ValidSSHPublicKey, ValidTransferId, Plain;
    var ips := ParseDestIPs(Join(e.destIps, ','), canon).value;
    ParsedAddresses(Join(e.destIps, ','), canon);
    JoinIsPlain(ips);
    KeyIsPlain(e.destKey);
    CommandIsPlain(e.transferId);
    PlainMeans(Join(ips, ','));
    PlainMeans(ForcedCommand(e.transferId));
    PlainMeans(e.destKey);
    LineReadsBack(Join(ips, ','), ForcedCommand(e.transferId), e.destKey);
    OneLineBreak(Join(ips, ','), ForcedCommand(e.transferId), e.destKey);
    AddressesReadBack(ips, canon);
  }

  lemma PlainMeans(s: string)
    requires Plain(s)
    ensures '"' !in s && '\n' !in s
  {
  }

  lemma ParsedAddresses(raw: string, canon: string -> Option<string>)
    requires SaneAddresses(canon) && ParseDestIPs(raw, canon).Some?
    ensures var ips := ParseDestIPs(raw, canon).value;
            && 1 <= |ips| <= MAX_DEST_IPS
            && forall p :: p in ips ==> Plain(p) && ',' !in p && p != "" && canon(p) == Some(p)
  {
    var ips := ParseDestIPs(raw, canon).value;
    forall p | p in ips ensures Plain(p) && ',' !in p && p != "" && canon(p) == Some(p) {
      var i :| 0 <= i < |ips| && ips[i] == p;
      assert canon(Split(raw, ',')[i]) == Some(p);
      assert forall k :: 0 <= k < |p| ==> IpChar(p[k]);
    }
  }

  lemma CommandIsPlain(id: string)
    requires ValidTransferId(id)
    ensures Plain(ForcedCommand(id))
  {
    assert Plain(id);
    assert Plain(AGENT_BINARY) && Plain(" peer-serve ");
    PlainParts(AGENT_BINARY, " peer-serve ");
    PlainParts(AGENT_BINARY + " peer-serve ", id);
  }

  lemma OneLineBreak(from: string, command: string, key: string)
    requires Plain(from) && Plain(command) && Plain(key)
    ensures IndexOf(Line(from, command, key), '\n') == |Line(from, command, key)| - 1
  {
    var line := Line(from, command, key);
    var text := FROM + from + COMMAND + command + KEY + key;
    assert line[..|line| - 1] == text;
    assert '\n' !in FROM && '\n' !in COMMAND && '\n' !in KEY;
    IndexOfIs(line, '\n', |line| - 1);
  }

  lemma AddressesReadBack(ips: seq<string>, canon: string -> Option<string>)
    requires 1 <= |ips| <= MAX_DEST_IPS
    requires forall p :: p in ips ==> ',' !in p && p != "" && canon(p) == Some(p)
    ensures ParseDestIPs(Join(ips, ','), canon) == Some(ips)
  {
    SplitOfJoin(ips, ',');
    CanonOfCanonical(ips, canon);
  }

  lemma {:induction false} CanonOfCanonical(ips: seq<string>, canon: string -> Option<string>)
    requires forall p :: p in ips ==> canon(p) == Some(p)
    ensures CanonAll(ips, canon) == Some(ips)
  {
    if ips != [] {
      assert ips[0] in ips && forall p :: p in ips[1..] ==> p in ips;
      CanonOfCanonical(ips[1..], canon);
      assert [ips[0]] + ips[1..] == ips;
    }
  }
}
