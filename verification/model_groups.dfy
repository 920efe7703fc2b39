/** What one model directory holds: its files grouped into the copies a scan reports. */
module ModelGroups {
  import opened Text
  import opened Wire
  import opened GgufNames
  import opened Sorting

  /** A file of a size that may not be readable, a directory, or something else (a link, a device). */
  datatype Node = File(size: Option<nat>) | Dir(readable: bool, entries: seq<Entry>) | Other
  datatype Entry = Entry(name: string, node: Node)

  datatype Format = Gguf | Safetensors

  datatype Candidate = Candidate(modelRef: string, quantization: string, format: Format, sizeBytes: nat, fileName: string, incomplete: bool)

  predicate Hidden(name: string) {
    HasPrefix(name, ".")
  }

  predicate IsWeight(e: Entry) {
    e.node.File? && !Hidden(e.name) && (HasSuffix(e.name, ".gguf") || HasSuffix(e.name, ".safetensors"))
  }

  predicate HasWeights(entries: seq<Entry>) {
    exists e :: e in entries && IsWeight(e)
  }

  /** A gguf file that counts: visible, regular, of a size that can be read. */
  predicate Counts(e: Entry) {
    e.node.File? && e.node.size.Some? && !Hidden(e.name) && HasSuffix(e.name, ".gguf")
  }

  function KeyOf(e: Entry): string
    requires Counts(e)
  {
    GroupKey(e.name)
  }

  /** The groups in order of first appearance; a group's size; the file that stands for it. */
  function Keys(es: seq<Entry>): seq<string> {
    if es == [] then []
    else
      var init, last := Keys(es[..|es| - 1]), es[|es| - 1];
      if Counts(last) && KeyOf(last) !in init then init + [KeyOf(last)] else init
  }

  function GroupSize(es: seq<Entry>, key: string): nat {
    if es == [] then 0
    else
      var last := es[|es| - 1];
      GroupSize(es[..|es| - 1], key) + if Counts(last) && KeyOf(last) == key then last.node.size.value else 0
  }

  predicate IsFirstShard(name: string) {
    ShardOf(name).Some? && ShardOf(name).value.index == "00001"
  }

  function GroupFile(es: seq<Entry>, key: string): Option<string> {
    if es == [] then None
    else
      var before, last := GroupFile(es[..|es| - 1], key), es[|es| - 1];
      if Counts(last) && KeyOf(last) == key && (before == None || IsFirstShard(last.name)) then Some(last.name) else before
  }

  function TotalSize(es: seq<Entry>): nat {
    if es == [] then 0
    else
      var last := es[|es| - 1];
      TotalSize(es[..|es| - 1]) + if Counts(last) then last.node.size.value else 0
  }

  /** Everything of a repository copy but its gguf files and leftovers, however deep. */
  function RepoSize(d: Node, i: nat): nat
    requires d.Dir? && i <= |d.entries|
    decreases d, |d.entries| - i
  {
    if i == |d.entries| then 0
    else
      var e := d.entries[i];
      var size :=
        match e.node
        case File(Some(n)) => if HasSuffix(e.name, ".gguf") || IsRsyncTemp(e.name) then 0 else n
        case Dir(true, _) => RepoSize(e.node, 0)
        case _ => 0;
      size + RepoSize(d, i + 1)
  }

  predicate Leftover(es: seq<Entry>) {
    exists e :: e in es && e.node.File? && IsRsyncTemp(e.name)
  }

  predicate HasSafetensors(es: seq<Entry>) {
    exists e :: e in es && e.node.File? && !Hidden(e.name) && HasSuffix(e.name, ".safetensors")
  }

  function GgufCandidate(rel: string, es: seq<Entry>, key: string): Candidate {
    Candidate(rel, QuantizationFromName(key), Gguf, GroupSize(es, key),
              (match GroupFile(es, key) case Some(f) => f case None => ""), Leftover(es))
  }

  function GgufCandidates(rel: string, es: seq<Entry>, keys: seq<string>): (cs: seq<Candidate>)
    ensures |cs| == |keys|
  {
    seq(|keys|, i requires 0 <= i < |keys| => GgufCandidate(rel, es, keys[i]))
  }

  function SortedKeys(es: seq<Entry>): seq<string> {
    Sort((a, b) => StringLeq(a, b), Keys(es))
  }

  /** One whole-repository copy if there is a safetensors file, then one per group, A to Z. */
  function Candidates(rel: string, d: Node): seq<Candidate>
    requires d.Dir?
  {
    (if HasSafetensors(d.entries) then [Candidate(rel, "", Safetensors, RepoSize(d, 0), "", Leftover(d.entries))] else [])
    + GgufCandidates(rel, d.entries, SortedKeys(d.entries))
  }

  // --- Every file is counted in exactly one group ---

  lemma {:induction false} KeysAreTheGroups(es: seq<Entry>)
    ensures forall k :: k in Keys(es) <==> exists e :: e in es && Counts(e) && KeyOf(e) == k
    ensures forall i, j :: 0 <= i < j < |Keys(es)| ==> Keys(es)[i] != Keys(es)[j]
  {
    hide Counts, KeyOf;
    if es != [] {
      KeysAreTheGroups(es[..|es| - 1]);
      assert es == es[..|es| - 1] + [es[|es| - 1]];
    }
  }

  function SumSizes(cs: seq<Candidate>): nat {
    if cs == [] then 0 else cs[0].sizeBytes + SumSizes(cs[1..])
  }

  function SumGroups(es: seq<Entry>, keys: seq<string>): nat {
    if keys == [] then 0 else GroupSize(es, keys[0]) + SumGroups(es, keys[1..])
  }

  /** One more file adds its size to the sum over distinct groups once, if its group is there. */
  lemma {:induction false} SumGroupsMore(es: seq<Entry>, last: Entry, keys: seq<string>)
    requires forall i, j :: 0 <= i < j < |keys| ==> keys[i] != keys[j]
    ensures SumGroups(es + [last], keys) == SumGroups(es, keys) + if Counts(last) && KeyOf(last) in keys then last.node.size.value else 0
  {
    hide Counts, KeyOf;
    assert (es + [last])[..|es|] == es;
    if keys != [] {
      assert forall j :: 0 < j < |keys| ==> keys[j] == keys[1..][j - 1];
      assert keys[0] !in keys[1..];
      SumGroupsMore(es, last, keys[1..]);
      assert keys == [keys[0]] + keys[1..];
    }
  }

  lemma {:induction false} SumOfNothing(keys: seq<string>)
    ensures SumGroups([], keys) == 0
  {
    if keys != [] {
      SumOfNothing(keys[1..]);
    }
  }

  lemma {:induction false} SumGroupsIsTheTotal(es: seq<Entry>, keys: seq<string>)
    requires forall i, j :: 0 <= i < j < |keys| ==> keys[i] != keys[j]
    requires forall e :: e in es && Counts(e) ==> KeyOf(e) in keys
    ensures SumGroups(es, keys) == TotalSize(es)
  {
    hide Counts, KeyOf;
    if es == [] {
      SumOfNothing(keys);
    } else {
      var init, last := es[..|es| - 1], es[|es| - 1];
      assert es == init + [last];
      SumGroupsIsTheTotal(init, keys);
      SumGroupsMore(init, last, keys);
    }
  }

  lemma {:induction false} SumOfCandidates(rel: string, es: seq<Entry>, keys: seq<string>)
    ensures SumSizes(GgufCandidates(rel, es, keys)) == SumGroups(es, keys)
  {
    hide GgufCandidate;
    if keys != [] {
      SumOfCandidates(rel, es, keys[1..]);
      assert GgufCandidates(rel, es, keys)[1..] == GgufCandidates(rel, es, keys[1..]);
      GgufCandidateSize(rel, es, keys[0]);
    }
  }

  lemma GgufCandidateSize(rel: string, es: seq<Entry>, key: string)
    ensures GgufCandidate(rel, es, key).sizeBytes == GroupSize(es, key)
  {
  }

  lemma StringLeqIsTotal()
    ensures TotalOrder((a, b) => StringLeq(a, b))
  {
    forall a: string, b: string, c: string
      ensures StringLeq(a, b) || StringLeq(b, a)
      ensures StringLeq(a, b) && StringLeq(b, c) ==> StringLeq(a, c)
    {
      StringsAreOrdered(a, b, c);
    }
  }

  lemma {:induction false} DistinctStays(a: seq<string>, b: seq<string>)
    requires multiset(a) == multiset(b)
    requires forall i, j :: 0 <= i < j < |a| ==> a[i] != a[j]
    ensures forall i, j :: 0 <= i < j < |b| ==> b[i] != b[j]
  {
    forall x ensures multiset(a)[x] <= 1 {
      OnceEach(a, x);
    }
    forall i, j | 0 <= i < j < |b| ensures b[i] != b[j] {
      if b[i] == b[j] {
        TwiceIn(b, i, j);
      }
    }
  }

  lemma {:induction false} OnceEach(a: seq<string>, x: string)
    requires forall i, j :: 0 <= i < j < |a| ==> a[i] != a[j]
    ensures multiset(a)[x] <= 1
  {
    if a != [] {
      OnceEach(a[1..], x);
      assert a == [a[0]] + a[1..];
      assert multiset(a) == multiset{a[0]} + multiset(a[1..]);
      if a[0] == x {
        assert x !in a[1..];
        assert x !in multiset(a[1..]);
      }
    }
  }

  lemma TwiceIn(b: seq<string>, i: nat, j: nat)
    requires i < j < |b| && b[i] == b[j]
    ensures multiset(b)[b[i]] >= 2
  {
    assert b == b[..i] + [b[i]] + b[i + 1..j] + [b[j]] + b[j + 1..];
  }

  /** A visible regular file of readable size whose name ends in .gguf, of the group k. */
  predicate GgufOf(e: Entry, k: string) {
    e.node.File? && e.node.size.Some? && (e.name == "" || e.name[0] != '.') && HasSuffix(e.name, ".gguf") && GroupKey(e.name) == k
  }

  lemma HiddenIff(name: string)
    ensures Hidden(name) <==> name != "" && name[0] == '.'
  {
    assert name != "" ==> name[..1][0] == name[0] && |name[..1]| == 1;
  }

  lemma GgufOfIff(e: Entry, k: string)
    ensures GgufOf(e, k) <==> Counts(e) && KeyOf(e) == k
  {
    HiddenIff(e.name);
    hide GroupKey;
  }

  /** The entries of one group. */
  function OnlyOf(es: seq<Entry>, k: string): seq<Entry> {
    if es == [] then [] else OnlyOf(es[..|es| - 1], k) + if GgufOf(es[|es| - 1], k) then [es[|es| - 1]] else []
  }

  lemma {:induction false} SizeOfGroup(es: seq<Entry>, k: string)
    ensures GroupSize(es, k) == TotalSize(OnlyOf(es, k))
  {
    if es != [] {
      var last := es[|es| - 1];
      GgufOfIff(last, k);
      SizeOfGroup(es[..|es| - 1], k);
      var init := OnlyOf(es[..|es| - 1], k);
      hide Counts, KeyOf, GgufOf;
      assert (init + [last])[..|init|] == init;
      assert init + [] == init;
    }
  }

  // --- A repository copy ---

  /** Every regular file in the directory and the readable ones below it, from entry i on. */
  function Below(d: Node, i: nat): seq<Entry>
    requires d.Dir? && i <= |d.entries|
    decreases d, |d.entries| - i
  {
    if i == |d.entries| then []
    else
      var e := d.entries[i];
      (if e.node.File? then [e] else if e.node.Dir? && e.node.readable then Below(e.node, 0) else []) + Below(d, i + 1)
  }

  /** The sizes that can be read, but those of gguf files and leftovers. */
  function SumOthers(es: seq<Entry>): nat {
    if es == [] then 0
    else
      (if es[0].node.File? && es[0].node.size.Some? && !HasSuffix(es[0].name, ".gguf") && !IsRsyncTemp(es[0].name) then es[0].node.size.value else 0)
      + SumOthers(es[1..])
  }

  lemma {:induction false} SumOthersSplits(a: seq<Entry>, b: seq<Entry>)
    ensures SumOthers(a + b) == SumOthers(a) + SumOthers(b)
  {
    hide HasSuffix, IsRsyncTemp;
    if a == [] {
      assert a + b == b;
    } else {
      assert (a + b)[0] == a[0] && (a + b)[1..] == a[1..] + b;
      SumOthersSplits(a[1..], b);
    }
  }

  /** The size of a repository copy is that of all its other files, wherever in it they are. */
  lemma {:induction false} RepoSizeIsTheSum(d: Node, i: nat)
    requires d.Dir? && i <= |d.entries|
    ensures RepoSize(d, i) == SumOthers(Below(d, i))
    decreases d, |d.entries| - i
  {
    hide HasSuffix, IsRsyncTemp;
    if i < |d.entries| {
      var e := d.entries[i];
      RepoSizeIsTheSum(d, i + 1);
      var mine := if e.node.File? then [e] else if e.node.Dir? && e.node.readable then Below(e.node, 0) else [];
      SumOthersSplits(mine, Below(d, i + 1));
      if e.node.Dir? && e.node.readable {
        RepoSizeIsTheSum(e.node, 0);
      } else if e.node.File? {
        assert mine[1..] == [];
      }
    }
  }

  /** The gguf copies reported of a directory are its groups, one each, and together they are
      exactly as big as its gguf files: no shard is missed and none counted twice. */
  lemma GgufSizesAddUp(rel: string, d: Node)
    requires d.Dir?
    ensures var keys := SortedKeys(d.entries);
            && SumSizes(GgufCandidates(rel, d.entries, keys)) == TotalSize(d.entries)
            && (forall k :: k in keys <==> exists e :: e in d.entries && GgufOf(e, k))
            && (forall i, j :: 0 <= i < j < |keys| ==> keys[i] != keys[j])
            && (forall k :: GroupSize(d.entries, k) == TotalSize(OnlyOf(d.entries, k)))
  {
    forall e, k ensures GgufOf(e, k) <==> Counts(e) && KeyOf(e) == k {
      GgufOfIff(e, k);
    }
    forall k ensures GroupSize(d.entries, k) == TotalSize(OnlyOf(d.entries, k)) {
      SizeOfGroup(d.entries, k);
    }
    hide Counts, KeyOf, GgufOf;
    var es := d.entries;
    var keys := SortedKeys(es);
    StringLeqIsTotal();
    SortSorts((a, b) => StringLeq(a, b), Keys(es));
    KeysAreTheGroups(es);
    SameMembers(Keys(es), keys);
    DistinctStays(Keys(es), keys);
    SumGroupsIsTheTotal(es, keys);
    SumOfCandidates(rel, es, keys);
  }

  /** The file a copy is reported under belongs to its group, and is a first shard if it has one. */
  lemma {:induction false} GroupFileIsOfTheGroup(es: seq<Entry>, key: string)
    ensures GroupFile(es, key).Some? <==> exists e :: e in es && Counts(e) && KeyOf(e) == key
    ensures GroupFile(es, key).Some? ==> exists e :: e in es && Counts(e) && KeyOf(e) == key && e.name == GroupFile(es, key).value
    ensures (exists e :: e in es && Counts(e) && KeyOf(e) == key && IsFirstShard(e.name)) ==> IsFirstShard(GroupFile(es, key).value)
  {
    hide Counts, KeyOf, IsFirstShard;
    if es != [] {
      var init, last := es[..|es| - 1], es[|es| - 1];
      assert es == init + [last];
      GroupFileIsOfTheGroup(init, key);
    }
  }

  ghost predicate HasTemp(es: seq<Entry>) {
    exists e :: e in es && e.node.File? && exists base, kind, mark :: IsTempOf(e.name, base, kind, mark)
  }

  ghost predicate HasVisibleSafetensors(es: seq<Entry>) {
    exists e :: e in es && e.node.File? && (e.name == "" || e.name[0] != '.') && HasSuffix(e.name, ".safetensors")
  }

  ghost predicate IsGroup(es: seq<Entry>, k: string) {
    exists e :: e in es && GgufOf(e, k)
  }

  /** The copies of a model directory: one of the whole repository if it has a visible safetensors
      file, and one for each group; incomplete if an interrupted transfer left something behind. */
  lemma CandidatesAre(rel: string, d: Node, c: Candidate)
    requires d.Dir?
    ensures c in Candidates(rel, d) <==>
              && c.modelRef == rel && (c.incomplete <==> HasTemp(d.entries))
              && ((HasVisibleSafetensors(d.entries) && c == Candidate(rel, "", Safetensors, SumOthers(Below(d, 0)), "", c.incomplete))
                  || exists k :: IsGroup(d.entries, k) && IsCopyOf(rel, d.entries, k, c))
  {
    var es, keys := d.entries, SortedKeys(d.entries);
    GgufSizesAddUp(rel, d);
    RepoSizeIsTheSum(d, 0);
    LeftoverIff(es);
    SafetensorsIff(es);
    forall k ensures k in keys <==> IsGroup(es, k) {
    }
    forall k | k in keys ensures GroupFile(es, k).Some? {
      GroupOf(es, k);
    }
    hide SortedKeys, GroupFile, GroupSize, HasTemp, HasVisibleSafetensors, IsGroup, RepoSize, Below, SumOthers, Leftover, HasSafetensors;
    var first := if HasSafetensors(es) then [Candidate(rel, "", Safetensors, RepoSize(d, 0), "", Leftover(es))] else [];
    var rest := GgufCandidates(rel, es, keys);
    assert c in Candidates(rel, d) <==> c in first || c in rest;
    forall k | k in keys ensures GgufCandidate(rel, es, k) in rest {
      var i :| 0 <= i < |keys| && keys[i] == k;
      assert rest[i] == GgufCandidate(rel, es, k);
    }
    if c in rest {
      var i :| 0 <= i < |rest| && rest[i] == c;
      assert keys[i] in keys;
      assert IsCopyOf(rel, es, keys[i], c);
    }
  }

  ghost predicate IsCopyOf(rel: string, es: seq<Entry>, k: string, c: Candidate) {
    GroupFile(es, k).Some? && c == Candidate(rel, QuantizationFromName(k), Gguf, GroupSize(es, k), GroupFile(es, k).value, c.incomplete)
  }

  lemma GroupOf(es: seq<Entry>, k: string)
    requires IsGroup(es, k)
    ensures GroupFile(es, k).Some?
  {
    var e :| e in es && GgufOf(e, k);
    GgufOfIff(e, k);
    GroupFileIsOfTheGroup(es, k);
  }

  lemma LeftoverIff(es: seq<Entry>)
    ensures Leftover(es) <==> HasTemp(es)
  {
    forall e | e in es ensures IsRsyncTemp(e.name) <==> exists base, kind, mark :: IsTempOf(e.name, base, kind, mark) {
      RsyncTempIff(e.name);
    }
    hide IsRsyncTemp, IsTempOf;
  }

  lemma SafetensorsIff(es: seq<Entry>)
    ensures HasSafetensors(es) <==> HasVisibleSafetensors(es)
  {
    forall e | e in es ensures Hidden(e.name) <==> e.name != "" && e.name[0] == '.' {
      HiddenIff(e.name);
    }
    hide HasSuffix, Hidden;
  }

  /** The label of a reported copy, if one was recognised, is in the name of every file of it. */
  lemma LabelIsInEveryFile(e: Entry, key: string)
    requires Counts(e) && KeyOf(e) == key && QuantizationFromName(key) != UNKNOWN
    ensures Contains(e.name, QuantizationFromName(key)) && QuantizationFromName(key) != ""
  {
    LabelIsInEveryName(e.name, key);
    var at := LabelIsFirst(key, 0);
  }
}
