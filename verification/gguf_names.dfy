/** What a weight file's name says: rsync leftovers, shards of a split model, quantization labels. */
module GgufNames {
  import opened Text
  import opened Wire

  const UNKNOWN := "UNKNOWN"

  // --- Character classes ---

  predicate IsDigit(c: char) {
    '0' <= c <= '9'
  }

  predicate IsAlnum(c: char) {
    'a' <= c <= 'z' || 'A' <= c <= 'Z' || IsDigit(c)
  }

  /** A letter or digit whatever its case; folding case brings in the long s and the kelvin sign. */
  predicate IsLabelChar(c: char) {
    IsAlnum(c) || c == '\U{17F}' || c == '\U{212A}'
  }

  predicate IsDelimiter(c: char) {
    c == '-' || c == '_' || c == '.'
  }

  predicate AllDigits(s: string) {
    forall i :: 0 <= i < |s| ==> IsDigit(s[i])
  }

  /** What `.+` matches: at least one character, none of them a line break. */
  predicate OneLine(s: string) {
    s != "" && '\n' !in s
  }

  // --- A leftover of an interrupted copy: ".<name>.gguf.XXXXXX" ---

  predicate IsRsyncTemp(name: string) {
    && |name| >= 8 && name[0] == '.' && name[|name| - 7] == '.'
    && (forall i :: |name| - 6 <= i < |name| ==> IsAlnum(name[i]))
    && var inner := name[1..|name| - 7];
       || (HasSuffix(inner, ".gguf") && OneLine(inner[..|inner| - 5]))
       || (HasSuffix(inner, ".safetensors") && OneLine(inner[..|inner| - 12]))
  }

  /** A name and what rsync puts around it. */
  ghost predicate IsTempOf(name: string, base: string, kind: string, mark: string) {
    && name == "." + base + kind + "." + mark
    && base != "" && '\n' !in base && (kind == ".gguf" || kind == ".safetensors")
    && |mark| == 6 && forall i :: 0 <= i < 6 ==> IsAlnum(mark[i])
  }

  lemma RsyncTempIff(name: string)
    ensures IsRsyncTemp(name) <==> exists base, kind, mark :: IsTempOf(name, base, kind, mark)
  {
    hide HasSuffix;
    if IsRsyncTemp(name) {
      var base, kind, mark := TempParts(name);
    }
    forall base, kind, mark | IsTempOf(name, base, kind, mark) ensures IsRsyncTemp(name) {
      TempIsFound(name, base, kind, mark);
    }
  }

  lemma TempParts(name: string) returns (base: string, kind: string, mark: string)
    requires IsRsyncTemp(name)
    ensures IsTempOf(name, base, kind, mark)
  {
    var n := |name|;
    var inner := name[1..n - 7];
    mark := name[n - 6..];
    assert name == "." + inner + "." + mark;
    if HasSuffix(inner, ".gguf") && OneLine(inner[..|inner| - 5]) {
      base, kind := inner[..|inner| - 5], ".gguf";
    } else {
      base, kind := inner[..|inner| - 12], ".safetensors";
    }
    assert inner == base + kind;
    assert "." + (base + kind) + "." + mark == "." + base + kind + "." + mark;
  }

  lemma TempIsFound(name: string, base: string, kind: string, mark: string)
    requires IsTempOf(name, base, kind, mark)
    ensures IsRsyncTemp(name)
  {
    var n := |name|;
    assert name[1..n - 7] == base + kind;
    assert name[n - 6..] == mark && name[n - 7] == '.';
    assert forall i :: n - 6 <= i < n ==> name[i] == mark[i - (n - 6)];
    assert (base + kind)[|base|..] == kind && (base + kind)[..|base|] == base;
  }

  // --- One part of a split model: "<base>-00001-of-00003.gguf" ---

  datatype Shard = Shard(base: string, index: string, count: string)

  function ShardOf(name: string): (shard: Option<Shard>)
    ensures shard.Some? ==> name == shard.value.base + "-" + shard.value.index + "-of-" + shard.value.count + ".gguf"
  {
    if |name| <= 20 then None
    else
      var n := |name| - 20;
      var base, index, count := name[..n], name[n + 1..n + 6], name[n + 10..n + 15];
      if OneLine(base) && name[n] == '-' && AllDigits(index) && name[n + 6..n + 10] == "-of-" && AllDigits(count) && name[n + 15..] == ".gguf"
      then
        assert name == name[..n] + [name[n]] + name[n + 1..n + 6] + name[n + 6..n + 10] + name[n + 10..n + 15] + name[n + 15..];
        Some(Shard(base, index, count))
      else None
  }

  /** The recogniser finds every name of that form, and only in that one way. */
  lemma ShardOfIsComplete(s: Shard)
    requires OneLine(s.base) && |s.index| == |s.count| == 5 && AllDigits(s.index) && AllDigits(s.count)
    ensures ShardOf(s.base + "-" + s.index + "-of-" + s.count + ".gguf") == Some(s)
  {
    var name := s.base + "-" + s.index + "-of-" + s.count + ".gguf";
    var n := |s.base|;
    assert |name| == n + 20;
    assert name[..n] == s.base && name[n] == '-' && name[n + 1..n + 6] == s.index;
    assert name[n + 6..n + 10] == "-of-" && name[n + 10..n + 15] == s.count && name[n + 15..] == ".gguf";
  }

  /** What groups a gguf file with the other parts of the same model. */
  function GroupKey(name: string): (key: string)
    requires HasSuffix(name, ".gguf")
    ensures HasPrefix(name, key)
  {
    var shard := ShardOf(name);
    if shard.Some? then
      var s := shard.value;
      assert name == s.base + ("-" + s.index + "-of-" + s.count + ".gguf");
      s.base
    else name[..|name| - 5]
  }

  /** All parts of a split model are grouped under its base name; any other file is on its own, under
      its name without the ending. */
  lemma ShardsAreGrouped(s: Shard, name: string)
    requires OneLine(s.base) && |s.index| == |s.count| == 5 && AllDigits(s.index) && AllDigits(s.count)
    requires HasSuffix(name, ".gguf")
    ensures var part := s.base + "-" + s.index + "-of-" + s.count + ".gguf"; HasSuffix(part, ".gguf") && GroupKey(part) == s.base
    ensures ShardOf(name).None? ==> GroupKey(name) + ".gguf" == name
  {
    ShardOfIsComplete(s);
    var part := s.base + "-" + s.index + "-of-" + s.count + ".gguf";
    assert part[|part| - 5..] == ".gguf";
    hide ShardOf;
    assert name == name[..|name| - 5] + name[|name| - 5..];
  }

  // --- The quantization label ---

  function LowerAt(s: string, i: nat): char
    requires i < |s|
  {
    LowerChar(s[i])
  }

  /** One of the fixed labels, whatever its case, at i. */
  predicate WordAt(s: string, i: nat, word: string) {
    i + |word| <= |s| && forall k :: 0 <= k < |word| ==> LowerAt(s, i + k) == word[k]
  }

  function RunOfLabelChars(s: string, i: nat): (j: nat)
    requires i <= |s|
    ensures i <= j <= |s| && (forall k :: i <= k < j ==> IsLabelChar(s[k])) && (j < |s| ==> !IsLabelChar(s[j]))
    decreases |s| - i
  {
    if i < |s| && IsLabelChar(s[i]) then RunOfLabelChars(s, i + 1) else i
  }

  predicate EndsAt(s: string, j: nat) {
    j == |s| || (j < |s| && IsDelimiter(s[j]))
  }

  /** From the end of "Q4" or of a "_K" after it, the farthest end that a delimiter follows. */
  function Extended(s: string, j: nat): (e: Option<nat>)
    requires j <= |s|
    ensures e.Some? ==> j <= e.value <= |s| && EndsAt(s, e.value)
    ensures e.None? <==> !EndsAt(s, j)
    decreases |s| - j
  {
    if j < |s| && s[j] == '_' && RunOfLabelChars(s, j + 1) > j + 1 && Extended(s, RunOfLabelChars(s, j + 1)).Some?
    then Extended(s, RunOfLabelChars(s, j + 1))
    else if EndsAt(s, j) then Some(j)
    else None
  }

  function QEnd(s: string, i: nat): Option<nat>
    requires i <= |s|
  {
    if i + 1 < |s| && WordAt(s, i, "q") && IsDigit(s[i + 1]) then Extended(s, i + 2)
    else if i + 2 < |s| && WordAt(s, i, "iq") && IsDigit(s[i + 2]) then Extended(s, i + 3)
    else None
  }

  predicate Word(s: string, i: nat, m: nat)
    requires m <= |s|
  {
    forall k :: i <= k < m ==> IsLabelChar(s[k])
  }

  /** Words of letters and digits ending at the given places, each after an underscore. */
  predicate Tail(s: string, j: nat, ends: seq<nat>)
    requires j <= |s|
    decreases |ends|
  {
    ends == [] || (j + 1 < ends[0] <= |s| && s[j] == '_' && Word(s, j + 1, ends[0]) && Tail(s, ends[0], ends[1..]))
  }

  function LastEnd(j: nat, ends: seq<nat>): nat {
    if ends == [] then j else ends[|ends| - 1]
  }

  /** The scan takes such a tail, and no tail that a delimiter or the end follows is longer. */
  lemma {:induction false} ExtendedIsATail(s: string, j: nat) returns (ends: seq<nat>)
    requires j <= |s|
    ensures Extended(s, j).Some? ==> Tail(s, j, ends) && LastEnd(j, ends) == Extended(s, j).value
    decreases |s| - j
  {
    ends := [];
    if j < |s| && s[j] == '_' && RunOfLabelChars(s, j + 1) > j + 1 && Extended(s, RunOfLabelChars(s, j + 1)).Some? {
      var r := RunOfLabelChars(s, j + 1);
      var rest := ExtendedIsATail(s, r);
      ends := [r] + rest;
      assert ends[1..] == rest;
    }
  }

  lemma {:induction false} ExtendedIsLongest(s: string, j: nat, ends: seq<nat>)
    requires j <= |s| && Tail(s, j, ends) && LastEnd(j, ends) <= |s| && EndsAt(s, LastEnd(j, ends))
    ensures Extended(s, j).Some? && LastEnd(j, ends) <= Extended(s, j).value
    decreases |ends|
  {
    if ends != [] {
      var r, m := RunOfLabelChars(s, j + 1), ends[0];
      if ends[1..] == [] {
        assert LastEnd(j, ends) == m;
      } else {
        assert LastEnd(m, ends[1..]) == LastEnd(j, ends) && s[m] == '_';
      }
      assert m == r;
      ExtendedIsLongest(s, m, ends[1..]);
    }
  }

  const WORDS: seq<string> := ["bf16", "fp16", "f16", "f32", "mxfp4", "nvfp4", "fp8"]

  function WordEnd(s: string, i: nat, n: nat): (e: Option<nat>)
    requires i <= |s| && n <= |WORDS|
    ensures e.Some? ==> i < e.value <= |s| && EndsAt(s, e.value)
    decreases |WORDS| - n
  {
    if n == |WORDS| then None
    else if WordAt(s, i, WORDS[n]) && EndsAt(s, i + |WORDS[n]|) then Some(i + |WORDS[n]|)
    else WordEnd(s, i, n + 1)
  }

  function LabelEnd(s: string, i: nat): (e: Option<nat>)
    requires i <= |s|
    ensures e.Some? ==> i < e.value <= |s| && EndsAt(s, e.value)
  {
    if QEnd(s, i).Some? then QEnd(s, i) else WordEnd(s, i, 0)
  }

  /** The text from i to e is a label: one of the fixed words, or "q" or "iq", a digit, and words of
      letters and digits joined to it by underscores; in whatever case. */
  ghost predicate IsLabel(s: string, i: nat, e: nat) {
    i < e <= |s| && (FixedLabel(Lower(s[i..e])) || exists p: nat, ends :: QLabel(s, i, e, p, ends))
  }

  predicate FixedLabel(word: string) {
    || word == "bf16" || word == "fp16" || word == "f16" || word == "f32" || word == "mxfp4" || word == "nvfp4" || word == "fp8"
  }

  ghost predicate QLabel(s: string, i: nat, e: nat, p: nat, ends: seq<nat>) {
    && i + p < |s| && (Lower(s[i..i + p]) == "q" || Lower(s[i..i + p]) == "iq") && '0' <= s[i + p] <= '9'
    && Tail(s, i + p + 1, ends) && LastEnd(i + p + 1, ends) == e
  }

  /** The scan finds a label at i exactly when there is one that a delimiter or the end follows. */
  lemma LabelEndIff(s: string, i: nat)
    requires i <= |s|
    ensures LabelEnd(s, i).Some? ==> IsLabel(s, i, LabelEnd(s, i).value) && EndsAt(s, LabelEnd(s, i).value)
    ensures (exists e: nat :: IsLabel(s, i, e) && EndsAt(s, e)) ==> LabelEnd(s, i).Some?
  {
    hide EndsAt, QEnd, Tail, LastEnd, Extended;
    if QEnd(s, i).Some? {
      QEndSound(s, i);
    } else if WordEnd(s, i, 0).Some? {
      WordEndSound(s, i, 0);
    }
    forall e: nat | IsLabel(s, i, e) && EndsAt(s, e) ensures LabelEnd(s, i).Some? {
      if FixedLabel(Lower(s[i..e])) {
        WordEndComplete(s, i, e);
      } else {
        var p: nat, ends :| QLabel(s, i, e, p, ends);
        QEndComplete(s, i, e, p, ends);
      }
    }
  }

  lemma WordIs(s: string, i: nat, word: string)
    ensures WordAt(s, i, word) <==> i + |word| <= |s| && Lower(s[i..i + |word|]) == word
  {
    if i + |word| <= |s| {
      var low := Lower(s[i..i + |word|]);
      forall k | 0 <= k < |word| ensures low[k] == LowerAt(s, i + k) {
      }
    }
  }

  lemma QEndSound(s: string, i: nat)
    requires i <= |s| && QEnd(s, i).Some?
    ensures var e := QEnd(s, i).value; i < e && e <= |s| && IsLabel(s, i, e) && EndsAt(s, e)
  {
    WordIs(s, i, "q");
    WordIs(s, i, "iq");
    var p := if i + 1 < |s| && WordAt(s, i, "q") && IsDigit(s[i + 1]) then 1 else 2;
    var ends := ExtendedIsATail(s, i + p + 1);
    hide Tail, Extended, WordAt;
    assert QLabel(s, i, QEnd(s, i).value, p, ends);
  }

  lemma QEndComplete(s: string, i: nat, e: nat, p: nat, ends: seq<nat>)
    requires i <= |s| && e <= |s| && QLabel(s, i, e, p, ends) && EndsAt(s, e)
    ensures QEnd(s, i).Some?
  {
    WordIs(s, i, "q");
    WordIs(s, i, "iq");
    ExtendedIsLongest(s, i + p + 1, ends);
    assert p == |Lower(s[i..i + p])|;
    hide Tail, Extended;
    if p == 2 {
      assert Lower(s[i..i + 2])[0] == LowerAt(s, i) && "iq"[0] == 'i' && "q"[0] == 'q';
    }
  }

  lemma {:induction false} WordEndSound(s: string, i: nat, n: nat)
    requires i <= |s| && n <= |WORDS| && WordEnd(s, i, n).Some?
    ensures FixedLabel(Lower(s[i..WordEnd(s, i, n).value]))
    decreases |WORDS| - n
  {
    hide EndsAt;
    WordIs(s, i, WORDS[n]);
    if !(WordAt(s, i, WORDS[n]) && EndsAt(s, i + |WORDS[n]|)) {
      WordEndSound(s, i, n + 1);
    }
  }

  lemma WordEndComplete(s: string, i: nat, e: nat)
    requires i < e <= |s| && FixedLabel(Lower(s[i..e])) && EndsAt(s, e)
    ensures WordEnd(s, i, 0).Some?
  {
    var word := Lower(s[i..e]);
    assert WORDS[0] == word || WORDS[1] == word || WORDS[2] == word || WORDS[3] == word || WORDS[4] == word || WORDS[5] == word || WORDS[6] == word;
    var n :| 0 <= n < |WORDS| && WORDS[n] == word;
    WordIs(s, i, word);
    WordEndFinds(s, i, 0, n);
  }

  lemma {:induction false} WordEndFinds(s: string, i: nat, n: nat, m: nat)
    requires i <= |s| && n <= m < |WORDS| && WordAt(s, i, WORDS[m]) && EndsAt(s, i + |WORDS[m]|)
    ensures WordEnd(s, i, n).Some?
    decreases m - n
  {
    hide EndsAt, WordAt;
    if n < m {
      WordEndFinds(s, i, n + 1, m);
    }
  }

  predicate StartsAt(s: string, i: nat) {
    i == 0 || (i <= |s| && IsDelimiter(s[i - 1]))
  }

  function FindLabel(s: string, i: nat): Option<string>
    requires i <= |s|
    decreases |s| - i
  {
    if StartsAt(s, i) && LabelEnd(s, i).Some? then Some(s[i..LabelEnd(s, i).value])
    else if i < |s| then FindLabel(s, i + 1)
    else None
  }

  /** The first label in a gguf base name, in the name's own case. */
  function QuantizationFromName(base: string): string {
    match FindLabel(base, 0)
    case Some(tag) => tag
    case None => UNKNOWN
  }

  /** A label stands in the name as it is, delimited on both sides, and is the first that does. */
  lemma {:induction false} LabelIsFirst(s: string, i: nat) returns (at: nat)
    requires i <= |s|
    ensures FindLabel(s, i).Some? ==>
              && i <= at && OccursAt(s, at, FindLabel(s, i).value) && FindLabel(s, i).value != ""
              && StartsAt(s, at) && EndsAt(s, at + |FindLabel(s, i).value|)
              && LabelEnd(s, at) == Some(at + |FindLabel(s, i).value|)
              && (forall j :: i <= j < at ==> !(StartsAt(s, j) && LabelEnd(s, j).Some?))
    ensures FindLabel(s, i).None? ==> forall j :: i <= j <= |s| ==> !(StartsAt(s, j) && LabelEnd(s, j).Some?)
    decreases |s| - i
  {
    hide LabelEnd, StartsAt, EndsAt;
    at := i;
    if !(StartsAt(s, i) && LabelEnd(s, i).Some?) && i < |s| {
      at := LabelIsFirst(s, i + 1);
    }
  }

  /** No label reads "UNKNOWN", which a delete would take for the whole directory. */
  lemma UnknownIsNoLabel(s: string)
    ensures FindLabel(s, 0) != Some(UNKNOWN)
  {
    var at := LabelIsFirst(s, 0);
    if FindLabel(s, 0).Some? {
      assert at < |s| ==> s[at..at + |FindLabel(s, 0).value|][0] == s[at];
      FirstLetter(s, at);
      assert LowerChar(UNKNOWN[0]) == 'u';
    }
  }

  lemma FirstLetter(s: string, i: nat)
    requires i <= |s|
    ensures LabelEnd(s, i).Some? ==> i < |s| && LowerAt(s, i) in {'q', 'i', 'b', 'f', 'm', 'n'}
  {
    if QEnd(s, i).None? {
      FirstLetterOfWord(s, i, 0);
    } else {
      assert LowerAt(s, i + 0) == "q"[0] || LowerAt(s, i + 0) == "iq"[0];
    }
  }

  lemma {:induction false} FirstLetterOfWord(s: string, i: nat, n: nat)
    requires i <= |s| && n <= |WORDS|
    ensures WordEnd(s, i, n).Some? ==> i < |s| && LowerAt(s, i) in {'b', 'f', 'm', 'n'}
    decreases |WORDS| - n
  {
    if n < |WORDS| {
      FirstLetterOfWord(s, i, n + 1);
      assert WORDS[n] != "" && WORDS[n][0] in {'b', 'f', 'm', 'n'};
      assert WordAt(s, i, WORDS[n]) ==> LowerAt(s, i + 0) == WORDS[n][0];
    }
  }

  /** The label found for a group is part of every file name in the group. */
  lemma LabelIsInEveryName(name: string, key: string)
    requires HasSuffix(name, ".gguf") && GroupKey(name) == key
    ensures QuantizationFromName(key) != UNKNOWN ==> Contains(name, QuantizationFromName(key))
  {
    var at := LabelIsFirst(key, 0);
    if FindLabel(key, 0).Some? {
      var tag := FindLabel(key, 0).value;
      assert key == name[0..|key|];
      SliceOfSlice(name, 0, |key|, at, at + |tag|);
      assert OccursAt(name, at, tag);
    }
  }
}
