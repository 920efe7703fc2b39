/** The one command a peer may run on the source node, recognised and split into options. */
module SenderCommand {
  import opened Text
  import opened Wire

  const PREFIX := "rsync --server --sender "
  const SUFFIX := " . ."
  const MAX_COMMAND: nat := 160

  /** The character classes of the pattern, and what is not a space. */
  datatype Class = Flag | Capability | Digit | NotSpace {
    predicate Has(c: char) {
      match this
      case Flag => c in {'l', 'o', 'g', 'D', 't', 'p', 'r', 'z', 'v'}
      case Capability => 'A' <= c <= 'Z' || 'a' <= c <= 'z' || c == '.'
      case Digit => '0' <= c <= '9'
      case NotSpace => !IsSpace(c)
    }
  }

  /** White space as Unicode has it. */
  predicate IsSpace(c: char) {
    || c == ' ' || '\t' <= c <= '\r' || c == '\U{85}' || c == '\U{A0}' || c == '\U{1680}' || '\U{2000}' <= c <= '\U{200A}'
    || c == '\U{2028}' || c == '\U{2029}' || c == '\U{202F}' || c == '\U{205F}' || c == '\U{3000}'
  }

  predicate All(s: string, p: Class) {
    forall i :: 0 <= i < |s| ==> p.Has(s[i])
  }

  // --- The grammar ---

  /** "-" and at least one plain flag, then perhaps "e." and capability letters. */
  ghost predicate Cluster(s: string) {
    exists flags: string, caps: string ::
      && s == "-" + flags + caps
      && flags != "" && All(flags, Flag)
      && (caps == "" || (HasPrefix(caps, "e.") && All(caps[2..], Capability)))
  }

  predicate LongOption(s: string) {
    || s == "--safe-links"
    || (HasPrefix(s, "--timeout=") && 1 <= |s| - 10 <= 4 && All(s[10..], Digit))
  }

  /** Each word after one space. */
  function Spaced(words: seq<string>): string {
    if words == [] then "" else " " + words[0] + Spaced(words[1..])
  }

  ghost predicate SenderForm(cmd: string, cluster: string, opts: seq<string>) {
    && Cluster(cluster)
    && |opts| <= 2 && (forall o :: o in opts ==> LongOption(o))
    && cmd == PREFIX + cluster + Spaced(opts) + SUFFIX
  }

  // --- The matcher ---

  function RunEnd(s: string, i: nat, p: Class): (j: nat)
    requires i <= |s|
    ensures i <= j <= |s| && (forall k :: i <= k < j ==> p.Has(s[k])) && (j == |s| || !p.Has(s[j]))
    decreases |s| - i
  {
    if i < |s| && p.Has(s[i]) then RunEnd(s, i + 1, p) else i
  }

  function ClusterEnd(s: string, i: nat): (end: Option<nat>)
    requires i <= |s|
    ensures end.Some? ==> i < end.value <= |s|
  {
    if i < |s| && s[i] == '-' then
      var j := RunEnd(s, i + 1, Flag);
      if j == i + 1 then None
      else if j + 1 < |s| && s[j] == 'e' && s[j + 1] == '.' then Some(RunEnd(s, j + 2, Capability))
      else Some(j)
    else None
  }

  function OptionEnd(s: string, i: nat): (end: Option<nat>)
    requires i <= |s|
    ensures end.Some? ==> i < end.value <= |s|
  {
    if OccursAt(s, i, " --safe-links") then Some(i + 13)
    else if OccursAt(s, i, " --timeout=") then
      var j := RunEnd(s, i + 11, Digit);
      if 1 <= j - (i + 11) <= 4 then Some(j) else None
    else None
  }

  function OptionsEnd(s: string, i: nat, most: nat): (end: nat)
    requires i <= |s|
    ensures i <= end <= |s|
    decreases most
  {
    if most > 0 && OptionEnd(s, i).Some? then OptionsEnd(s, OptionEnd(s, i).value, most - 1) else i
  }

  function Fields(s: string): (fs: seq<string>)
    decreases |s|
  {
    if s == "" then []
    else if IsSpace(s[0]) then Fields(s[1..])
    else
      var j := RunEnd(s, 0, NotSpace);
      [s[..j]] + Fields(s[j..])
  }

  /** The options to hand to rsync, or None for a command that is not permitted. */
  function ParseSenderCommand(cmd: string): Option<seq<string>> {
    if |cmd| > MAX_COMMAND || !HasPrefix(cmd, PREFIX) || ClusterEnd(cmd, |PREFIX|) == None then None
    else
      var c := ClusterEnd(cmd, |PREFIX|).value;
      var e := OptionsEnd(cmd, c, 2);
      if cmd[e..] == SUFFIX then Some([cmd[|PREFIX|..c]] + Fields(cmd[c..e])) else None
  }

  // --- Scanning agrees with the grammar ---

  lemma {:induction false} RunEndIs(s: string, i: nat, p: Class, j: nat)
    requires i <= j <= |s| && (forall k :: i <= k < j ==> p.Has(s[k])) && (j == |s| || !p.Has(s[j]))
    ensures RunEnd(s, i, p) == j
    decreases j - i
  {
    if i < j {
      RunEndIs(s, i + 1, p, j);
    }
  }

  lemma ClusterEndSound(s: string, i: nat)
    requires i <= |s| && ClusterEnd(s, i).Some?
    ensures Cluster(s[i..ClusterEnd(s, i).value])
  {
    var end := ClusterEnd(s, i).value;
    var j := RunEnd(s, i + 1, Flag);
    var flags, caps := s[i + 1..j], s[j..end];
    assert s[i..end] == "-" + flags + caps;
    if j < end {
      assert caps[2..] == s[j + 2..end];
      assert caps[..2] == "e.";
    }
  }

  lemma FlagsEnd(s: string, i: nat, flags: string)
    requires i < |s| && s[i] == '-'
    requires flags != "" && All(flags, Flag) && OccursAt(s, i + 1, flags)
    requires i + 1 + |flags| < |s| && s[i + 1 + |flags|] in {' ', 'e'}
    ensures RunEnd(s, i + 1, Flag) == i + 1 + |flags|
    ensures s[i + 1 + |flags|] == ' ' ==> ClusterEnd(s, i) == Some(i + 1 + |flags|)
  {
    RunOf(s, i + 1, Flag, flags);
  }

  lemma CapabilitiesEnd(s: string, i: nat, j: nat, caps: string)
    requires i + 1 < j && i < |s| && s[i] == '-' && j + 2 + |caps| < |s|
    requires RunEnd(s, i + 1, Flag) == j
    requires s[j] == 'e' && s[j + 1] == '.' && All(caps, Capability) && OccursAt(s, j + 2, caps)
    requires s[j + 2 + |caps|] == ' '
    ensures ClusterEnd(s, i) == Some(j + 2 + |caps|)
  {
    RunOf(s, j + 2, Capability, caps);
  }

  lemma OccursFirst(s: string, i: nat, sub: string)
    requires OccursAt(s, i, sub) && sub != ""
    ensures s[i] == sub[0]
    ensures |sub| > 1 ==> s[i + 1] == sub[1]
  {
    var whole := s[i..i + |sub|];
    assert forall k :: 0 <= k < |whole| ==> whole[k] == s[i + k];
  }

  /** A cluster followed by a space is scanned whole. */
  lemma ClusterEndComplete(s: string, i: nat, cluster: string)
    requires OccursAt(s, i, cluster) && Cluster(cluster)
    requires i + |cluster| < |s| && s[i + |cluster|] == ' '
    ensures ClusterEnd(s, i) == Some(i + |cluster|)
  {
    hide ClusterEnd, RunEnd, All, OccursAt;
    var flags: string, caps: string :|
      && cluster == "-" + flags + caps
      && flags != "" && All(flags, Flag)
      && (caps == "" || (HasPrefix(caps, "e.") && All(caps[2..], Capability)));
    assert cluster == "-" + (flags + caps);
    OccursSplit(s, i, "-", flags + caps);
    OccursSplit(s, i + 1, flags, caps);
    OccursFirst(s, i, "-");
    ClusterParts(s, i, flags, caps);
  }

  lemma ClusterParts(s: string, i: nat, flags: string, caps: string)
    requires i < |s| && s[i] == '-' && flags != "" && All(flags, Flag)
    requires OccursAt(s, i + 1, flags) && OccursAt(s, i + 1 + |flags|, caps)
    requires caps == "" || (HasPrefix(caps, "e.") && All(caps[2..], Capability))
    requires i + 1 + |flags| + |caps| < |s| && s[i + 1 + |flags| + |caps|] == ' '
    ensures ClusterEnd(s, i) == Some(i + 1 + |flags| + |caps|)
  {
    hide ClusterEnd, RunEnd, All, OccursAt;
    var j := i + 1 + |flags|;
    if caps != "" {
      var tail := caps[2..];
      assert caps == "e." + tail;
      OccursFirst(s, j, caps);
      OccursSplit(s, j, "e.", tail);
      FlagsEnd(s, i, flags);
      CapabilitiesEnd(s, i, j, tail);
    } else {
      FlagsEnd(s, i, flags);
    }
  }

  /** A maximal run of one class. */
  lemma RunOf(s: string, i: nat, p: Class, run: string)
    requires OccursAt(s, i, run) && All(run, p)
    requires i + |run| == |s| || !p.Has(s[i + |run|])
    ensures RunEnd(s, i, p) == i + |run|
  {
    forall k | i <= k < i + |run| ensures p.Has(s[k]) {
      assert s[k] == s[i..i + |run|][k - i];
    }
    RunEndIs(s, i, p, i + |run|);
  }

  lemma OptionEndSound(s: string, i: nat)
    requires i <= |s| && OptionEnd(s, i).Some?
    ensures s[i] == ' ' && LongOption(s[i + 1..OptionEnd(s, i).value])
  {
    var end := OptionEnd(s, i).value;
    var o := s[i + 1..end];
    if OccursAt(s, i, " --safe-links") {
      assert o == s[i..i + 13][1..];
      assert o == "--safe-links";
    } else {
      assert s[i..i + 11] == " --timeout=";
      assert o[..10] == s[i..i + 11][1..] == "--timeout=";
      assert o[10..] == s[i + 11..end];
    }
  }

  lemma OptionEndComplete(s: string, i: nat, o: string)
    requires LongOption(o) && OccursAt(s, i, " " + o)
    requires i + 1 + |o| < |s| && s[i + 1 + |o|] == ' '
    ensures OptionEnd(s, i) == Some(i + 1 + |o|)
  {
    assert forall k :: 0 <= k < 1 + |o| ==> s[i + k] == (" " + o)[k];
    if o == "--safe-links" {
      assert s[i..i + 13] == " --safe-links";
    } else {
      assert s[i..i + 11] == (" " + o)[..11] == " " + o[..10];
      assert OccursAt(s, i, " --timeout=");
      assert s[i + 3] == 't';
      assert " --safe-links"[3] == 's';
      assert !OccursAt(s, i, " --safe-links");
      forall k | i + 11 <= k < i + 1 + |o| ensures Digit.Has(s[k]) {
        assert s[k] == s[i + (k - i)] == o[k - i - 1] == o[10..][k - i - 11];
      }
      RunEndIs(s, i + 11, Digit, i + 1 + |o|);
    }
  }

  /** What the scanned options are, as words. */
  lemma {:induction false} OptionsEndSound(s: string, i: nat, most: nat) returns (opts: seq<string>)
    requires i <= |s|
    ensures |opts| <= most && (forall o :: o in opts ==> LongOption(o))
    ensures s[i..OptionsEnd(s, i, most)] == Spaced(opts)
    decreases most
  {
    hide LongOption, OptionEnd;
    opts := [];
    if most > 0 && OptionEnd(s, i).Some? {
      var j := OptionEnd(s, i).value;
      OptionEndSound(s, i);
      var rest := OptionsEndSound(s, j, most - 1);
      opts := [s[i + 1..j]] + rest;
      assert opts[1..] == rest;
      assert s[i..OptionsEnd(s, i, most)] == [s[i]] + s[i + 1..j] + s[j..OptionsEnd(s, j, most - 1)];
    }
  }

  lemma NoOptionAtEnd(s: string, i: nat)
    requires i <= |s| && s[i..] == SUFFIX
    ensures OptionEnd(s, i) == None
  {
    assert s[i + 1] == s[i..][1] == '.';
    assert " --safe-links"[1] == '-' && " --timeout="[1] == '-';
  }

  lemma {:induction false} OptionsEndComplete(s: string, i: nat, most: nat, opts: seq<string>)
    requires |opts| <= most && (forall o :: o in opts ==> LongOption(o))
    requires i <= |s| && s[i..] == Spaced(opts) + SUFFIX
    ensures OptionsEnd(s, i, most) == i + |Spaced(opts)|
    decreases most
  {
    hide LongOption, OptionEnd;
    if opts == [] {
      NoOptionAtEnd(s, i);
    } else {
      var o := opts[0];
      var rest := Spaced(opts[1..]) + SUFFIX;
      assert s[i..] == (" " + o) + rest;
      assert OccursAt(s, i, " " + o) by {
        assert s[i..i + 1 + |o|] == s[i..][..1 + |o|];
      }
      var j := i + 1 + |o|;
      assert s[j..] == s[i..][1 + |o|..] == rest;
      assert s[j] == rest[0] == ' ';
      OptionEndComplete(s, i, o);
      OptionsEndComplete(s, j, most - 1, opts[1..]);
    }
  }

  lemma FieldThenRest(w: string, tail: string)
    requires w != "" && All(w, NotSpace) && (tail != "" ==> tail[0] == ' ')
    ensures Fields(" " + w + tail) == [w] + Fields(tail)
  {
    var s := w + tail;
    assert (" " + w + tail)[1..] == s;
    forall k | 0 <= k < |w| ensures NotSpace.Has(s[k]) {
      assert s[k] == w[k];
    }
    RunEndIs(s, 0, NotSpace, |w|);
    hide RunEnd;
    assert s[..|w|] == w && s[|w|..] == tail;
  }

  lemma {:induction false} FieldsOfSpaced(words: seq<string>)
    requires forall w :: w in words ==> w != "" && All(w, NotSpace)
    ensures Fields(Spaced(words)) == words
  {
    if words != [] {
      hide Fields, All;
      assert words[0] in words && forall v :: v in words[1..] ==> v in words;
      FieldThenRest(words[0], Spaced(words[1..]));
      FieldsOfSpaced(words[1..]);
    } else {
      assert Fields("") == [];
    }
  }

  lemma LongOptionIsAWord(o: string)
    requires LongOption(o)
    ensures o != "" && All(o, NotSpace)
  {
    if o != "--safe-links" {
      assert forall k :: 0 <= k < 10 ==> o[k] == "--timeout="[k];
      assert forall k :: 10 <= k < |o| ==> o[k] == o[10..][k - 10];
    }
  }

  // --- What the parser promises ---

  /** A command is accepted exactly when it has the one permitted form and length, and the
      options returned are the words of that form. */
  lemma ParseIsTheGrammar(cmd: string, cluster: string, opts: seq<string>)
    ensures |cmd| <= MAX_COMMAND && SenderForm(cmd, cluster, opts) <==>
              Cluster(cluster) && (forall o :: o in opts ==> LongOption(o))
              && ParseSenderCommand(cmd) == Some([cluster] + opts)
  {
    if |cmd| <= MAX_COMMAND && SenderForm(cmd, cluster, opts) {
      ParseComplete(cmd, cluster, opts);
    }
    if ParseSenderCommand(cmd) == Some([cluster] + opts) {
      var cluster', opts' := ParseSound(cmd);
      assert ([cluster] + opts)[0] == ([cluster'] + opts')[0];
      assert opts == ([cluster] + opts)[1..] == ([cluster'] + opts')[1..] == opts';
    }
  }

  lemma ParseComplete(cmd: string, cluster: string, opts: seq<string>)
    requires |cmd| <= MAX_COMMAND && SenderForm(cmd, cluster, opts)
    ensures ParseSenderCommand(cmd) == Some([cluster] + opts)
  {
    var n, c := |PREFIX|, |PREFIX| + |cluster|;
    var e := c + |Spaced(opts)|;
    PartsOf(cmd, PREFIX, cluster, Spaced(opts), SUFFIX);
    assert cmd[c] == cmd[c..][0] == ' ';
    ClusterEndComplete(cmd, n, cluster);
    OptionsEndComplete(cmd, c, 2, opts);
    forall o | o in opts ensures o != "" && All(o, NotSpace) { LongOptionIsAWord(o); }
    FieldsOfSpaced(opts);
  }

  lemma PartsOf(s: string, a: string, b: string, c: string, d: string)
    requires s == a + b + c + d
    ensures |s| == |a| + |b| + |c| + |d|
    ensures s[..|a|] == a && s[|a|..|a| + |b|] == b && s[|a| + |b|..|a| + |b| + |c|] == c && s[|a| + |b| + |c|..] == d
    ensures s[|a| + |b|..] == c + d
  {
  }

  lemma FourParts(s: string, a: nat, b: nat, c: nat)
    requires a <= b <= c <= |s|
    ensures s == s[..a] + s[a..b] + s[b..c] + s[c..]
  {
  }

  lemma ParseSound(cmd: string) returns (cluster: string, opts: seq<string>)
    requires ParseSenderCommand(cmd).Some?
    ensures |cmd| <= MAX_COMMAND && SenderForm(cmd, cluster, opts)
    ensures ParseSenderCommand(cmd) == Some([cluster] + opts)
  {
    var c := ClusterEnd(cmd, |PREFIX|).value;
    var e := OptionsEnd(cmd, c, 2);
    cluster := cmd[|PREFIX|..c];
    ClusterEndSound(cmd, |PREFIX|);
    opts := OptionsEndSound(cmd, c, 2);
    FourParts(cmd, |PREFIX|, c, e);
    forall o | o in opts ensures o != "" && All(o, NotSpace) { LongOptionIsAWord(o); }
    FieldsOfSpaced(opts);
  }

  function JoinWords(words: seq<string>): string {
    if words == [] then "" else words[0] + Spaced(words[1..])
  }

  lemma JoinOfCons(w: string, ws: seq<string>)
    ensures JoinWords([w] + ws) == w + Spaced(ws)
  {
    assert ([w] + ws)[1..] == ws;
  }

  /** Nothing of an accepted command is lost or added: joined back between the fixed
      beginning and end, the options are the command. */
  lemma ParseLosesNothing(cmd: string)
    requires ParseSenderCommand(cmd).Some?
    ensures PREFIX + JoinWords(ParseSenderCommand(cmd).value) + SUFFIX == cmd
  {
    hide ParseSenderCommand, Cluster, LongOption;
    var cluster, opts := ParseSound(cmd);
    JoinOfCons(cluster, opts);
    assert PREFIX + (cluster + Spaced(opts)) + SUFFIX == PREFIX + cluster + Spaced(opts) + SUFFIX;
  }
}
