/** Walking the model storage for the model copies in it. */
module ModelScan {
  import opened Text
  import opened Wire
  import opened ModelPath
  import opened Sorting
  import opened ModelGroups
  import opened GgufNames

  const MAX_CANDIDATES: nat := 500
  const MAX_DEPTH: nat := 6

  /** The storage root, and which references can be shown and stored. */
  datatype Storage = Storage(root: string, printable: string -> bool)

  predicate ValidRef(s: Storage, rel: string) {
    && s.printable(rel)
    && Resolve(s.root, rel) == Some(CleanText(CleanText(s.root) + "/" + rel))
  }

  function Child(rel: string, name: string): string {
    if rel == "" then name else rel + "/" + name
  }

  predicate IsModel(rel: string, d: Node) {
    d.Dir? && d.readable && rel != "" && HasWeights(d.entries)
  }

  predicate IsWalked(e: Entry) {
    e.node.Dir? && !Hidden(e.name)
  }

  // --- All there is to find ---

  function FoundIn(s: Storage, rel: string, depth: nat, d: Node): seq<Candidate>
    requires depth <= MAX_DEPTH
    decreases MAX_DEPTH - depth, 1, 0
  {
    if !d.Dir? || !d.readable then []
    else if IsModel(rel, d) then (if ValidRef(s, rel) then Candidates(rel, d) else [])
    else if depth >= MAX_DEPTH then []
    else FoundAmong(s, rel, depth, d.entries)
  }

  function FoundAmong(s: Storage, rel: string, depth: nat, es: seq<Entry>): seq<Candidate>
    requires depth < MAX_DEPTH
    decreases MAX_DEPTH - depth, 0, |es|
  {
    if es == [] then []
    else
      (if IsWalked(es[0]) then FoundIn(s, Child(rel, es[0].name), depth + 1, es[0].node) else [])
      + FoundAmong(s, rel, depth, es[1..])
  }

  // --- All a walk looks at ---

  /** A walk asks whether the list is full before each entry of a directory it goes through, and
      before each copy it adds. */
  datatype Look = AtEntry | AtCandidate(c: Candidate)

  function LooksIn(s: Storage, rel: string, depth: nat, d: Node): seq<Look>
    requires depth <= MAX_DEPTH
    decreases MAX_DEPTH - depth, 1, 0
  {
    if !d.Dir? || !d.readable then []
    else if IsModel(rel, d) then (if ValidRef(s, rel) then AtAll(Candidates(rel, d)) else [])
    else if depth >= MAX_DEPTH then []
    else LooksAmong(s, rel, depth, d.entries)
  }

  function LooksAmong(s: Storage, rel: string, depth: nat, es: seq<Entry>): seq<Look>
    requires depth < MAX_DEPTH
    decreases MAX_DEPTH - depth, 0, |es|
  {
    if es == [] then []
    else LooksAt(s, rel, depth, es[0]) + LooksAmong(s, rel, depth, es[1..])
  }

  function LooksAt(s: Storage, rel: string, depth: nat, e: Entry): seq<Look>
    requires depth < MAX_DEPTH
    decreases MAX_DEPTH - depth, 0, 0
  {
    [AtEntry] + if IsWalked(e) then LooksIn(s, Child(rel, e.name), depth + 1, e.node) else []
  }

  function AtAll(cs: seq<Candidate>): seq<Look> {
    if cs == [] then [] else [AtCandidate(cs[0])] + AtAll(cs[1..])
  }

  function Picked(looks: seq<Look>): seq<Candidate> {
    if looks == [] then []
    else (if looks[0].AtCandidate? then [looks[0].c] else []) + Picked(looks[1..])
  }

  /** Something is looked at with at least 500 copies already in the list, n of them from before. */
  predicate LooksPast(n: nat, looks: seq<Look>)
    decreases |looks|
  {
    looks != [] && (n >= MAX_CANDIDATES || LooksPast(n + (if looks[0].AtCandidate? then 1 else 0), looks[1..]))
  }

  lemma {:induction false} PickedSplits(a: seq<Look>, b: seq<Look>)
    ensures Picked(a + b) == Picked(a) + Picked(b)
  {
    if a == [] {
      assert a + b == b;
    } else {
      assert (a + b)[0] == a[0] && (a + b)[1..] == a[1..] + b;
      PickedSplits(a[1..], b);
    }
  }

  lemma {:induction false} PastSplits(n: nat, a: seq<Look>, b: seq<Look>)
    ensures LooksPast(n, a + b) <==> LooksPast(n, a) || LooksPast(n + |Picked(a)|, b)
    decreases |a|
  {
    if a == [] {
      assert a + b == b;
    } else {
      assert (a + b)[0] == a[0] && (a + b)[1..] == a[1..] + b;
      PastSplits(n + (if a[0].AtCandidate? then 1 else 0), a[1..], b);
      if n >= MAX_CANDIDATES {
        assert a + b != [];
      }
    }
  }

  lemma {:induction false} PastAll(n: nat, cs: seq<Candidate>)
    requires n <= MAX_CANDIDATES
    ensures Picked(AtAll(cs)) == cs && (LooksPast(n, AtAll(cs)) <==> n + |cs| > MAX_CANDIDATES)
    decreases |cs|
  {
    if cs != [] {
      assert AtAll(cs)[1..] == AtAll(cs[1..]);
      if n < MAX_CANDIDATES {
        PastAll(n + 1, cs[1..]);
      } else {
        PastAll(n, cs[1..]);
      }
    }
  }

  /** The same, said of a place in the walk. */
  lemma {:induction false} LooksPastIff(n: nat, looks: seq<Look>)
    ensures LooksPast(n, looks) <==> exists k :: 0 <= k < |looks| && n + |Picked(looks[..k])| >= MAX_CANDIDATES
    decreases |looks|
  {
    if looks != [] {
      var one := if looks[0].AtCandidate? then 1 else 0;
      LooksPastIff(n + one, looks[1..]);
      forall k | 0 < k < |looks| ensures |Picked(looks[..k])| == one + |Picked(looks[1..][..k - 1])| {
        assert looks[..k][1..] == looks[1..][..k - 1];
      }
      if n >= MAX_CANDIDATES {
        assert |Picked(looks[..0])| == 0;
      } else if LooksPast(n + one, looks[1..]) {
        var k :| 0 <= k < |looks[1..]| && n + one + |Picked(looks[1..][..k])| >= MAX_CANDIDATES;
        assert |Picked(looks[..k + 1])| == one + |Picked(looks[1..][..k])|;
      } else {
        forall k | 0 <= k < |looks| ensures n + |Picked(looks[..k])| < MAX_CANDIDATES {
          if k > 0 {
            assert |Picked(looks[..k])| == one + |Picked(looks[1..][..k - 1])|;
          }
        }
      }
    }
  }

  /** The copies a walk looks at are all there are to find. */
  lemma {:induction false} PickedIsFound(s: Storage, rel: string, depth: nat, d: Node)
    requires depth <= MAX_DEPTH
    ensures Picked(LooksIn(s, rel, depth, d)) == FoundIn(s, rel, depth, d)
    decreases MAX_DEPTH - depth, 1, 0
  {
    hide IsModel, ValidRef, Candidates;
    if d.Dir? && d.readable {
      if IsModel(rel, d) {
        PastAll(0, Candidates(rel, d));
      } else if depth < MAX_DEPTH {
        PickedAmong(s, rel, depth, d.entries);
      }
    }
  }

  lemma {:induction false} PickedAmong(s: Storage, rel: string, depth: nat, es: seq<Entry>)
    requires depth < MAX_DEPTH
    ensures Picked(LooksAmong(s, rel, depth, es)) == FoundAmong(s, rel, depth, es)
    decreases MAX_DEPTH - depth, 0, |es|
  {
    hide IsWalked, Child, FoundIn, LooksIn;
    if es != [] {
      var e := es[0];
      var inner := if IsWalked(e) then LooksIn(s, Child(rel, e.name), depth + 1, e.node) else [];
      if IsWalked(e) {
        PickedIsFound(s, Child(rel, e.name), depth + 1, e.node);
      }
      PickedAmong(s, rel, depth, es[1..]);
      PickedSplits([AtEntry], inner);
      PickedSplits([AtEntry] + inner, LooksAmong(s, rel, depth, es[1..]));
      assert Picked([AtEntry]) == [];
    }
  }

  // --- The capped walk ---

  function Capped(cs: seq<Candidate>): seq<Candidate> {
    cs[..Min(|cs|, MAX_CANDIDATES)]
  }

  lemma CappedTwice(a: seq<Candidate>, b: seq<Candidate>)
    ensures Capped(Capped(a) + b) == Capped(a + b)
  {
  }

  class Scanner {
    const storage: Storage
    var out: seq<Candidate>
    var truncated: bool

    constructor (storage: Storage)
      ensures this.storage == storage && out == [] && !truncated
    {
      this.storage, out, truncated := storage, [], false;
    }

    /** The list is within its cap, and is full if it was cut short. */
    ghost predicate Valid()
      reads this
    {
      |out| <= MAX_CANDIDATES && (truncated ==> |out| == MAX_CANDIDATES)
    }

    method Full() returns (full: bool)
      requires Valid()
      modifies this`truncated
      ensures Valid() && full == (|out| == MAX_CANDIDATES)
      ensures truncated == (old(truncated) || full)
    {
      full := |out| >= MAX_CANDIDATES;
      if full {
        truncated := true;
      }
    }

    /** Add what one model directory holds, as far as there is room. */
    method AddModelDir(rel: string, d: Node)
      requires Valid() && d.Dir?
      modifies this`out, this`truncated
      ensures var found := if ValidRef(storage, rel) then Candidates(rel, d) else [];
              && Valid() && out == Capped(old(out) + found)
              && (truncated <==> old(truncated) || |old(out) + found| > MAX_CANDIDATES)
    {
      hide ValidRef, GgufCandidates, SortedKeys, Keys, RepoSize;
      if !ValidRef(storage, rel) {
        assert out + [] == out;
        return;
      }
      var es := d.entries;
      var names, sizes, first, hasSafetensors, incomplete := Group(es);
      ghost var whole := if hasSafetensors then [Candidate(rel, "", Safetensors, RepoSize(d, 0), "", incomplete)] else [];
      ghost var groups := GgufCandidates(rel, es, SortedKeys(es));
      ghost var before := out;
      if hasSafetensors {
        var full := Full();
        if !full {
          out := out + [Candidate(rel, "", Safetensors, RepoSize(d, 0), "", incomplete)];
        }
      }
      assert out == Capped(before + whole);
      SortIsStrings(es);
      AddGroups(rel, SortStrings(names), sizes, first, incomplete, es);
      CappedTwice(before + whole, groups);
      assert before + whole + groups == before + (whole + groups);
    }

    /** The loop over a directory's sorted groups. */
    method AddGroups(rel: string, sorted: seq<string>, sizes: map<string, nat>, first: map<string, string>,
        incomplete: bool, ghost es: seq<Entry>)
      requires Valid() && incomplete == Leftover(es)
      requires forall k :: k in sorted ==> k in sizes && k in first && sizes[k] == GroupSize(es, k) && GroupFile(es, k) == Some(first[k])
      modifies this`out, this`truncated
      ensures Valid() && out == Capped(old(out) + GgufCandidates(rel, es, sorted))
      ensures truncated <==> old(truncated) || |old(out)| + |sorted| > MAX_CANDIDATES
    {
      hide GroupSize, GroupFile, Leftover, QuantizationFromName;
      ghost var all := GgufCandidates(rel, es, sorted);
      var i := 0;
      while i < |sorted|
        invariant 0 <= i <= |sorted| && Valid() && truncated == old(truncated)
        invariant out == old(out) + all[..i]
      {
        var full := Full();
        if full {
          return;
        }
        var key := sorted[i];
        assert key in sorted && all[i] == GgufCandidate(rel, es, key);
        out := out + [Candidate(rel, QuantizationFromName(key), Gguf, sizes[key], first[key], incomplete)];
        assert all[..i + 1] == all[..i] + [all[i]];
        i := i + 1;
      }
      assert all[..i] == all;
    }

    /** The loop over a model directory's entries that sorts its files into groups. */
    static method Group(es: seq<Entry>)
      returns (names: seq<string>, sizes: map<string, nat>, first: map<string, string>, hasSafetensors: bool, incomplete: bool)
      ensures Grouped(es, names, sizes, first)
      ensures hasSafetensors == HasSafetensors(es) && incomplete == Leftover(es)
    {
      hide IsRsyncTemp, GroupKey, ShardOf, Grouped, HasSafetensors, Leftover, Keys, HasSuffix;
      names, sizes, first, hasSafetensors, incomplete := [], map[], map[], false, false;
      NothingGrouped();
      for n := 0 to |es|
        invariant Grouped(es[..n], names, sizes, first)
        invariant hasSafetensors == HasSafetensors(es[..n]) && incomplete == Leftover(es[..n])
      {
        var e := es[n];
        assert es[..n + 1] == es[..n] + [e];
        OneKind(e.name);
        FlagsMore(es[..n], e);
        if !Counts(e) {
          GroupSkip(es[..n], e, names, sizes, first);
        }
        if !e.node.File? {
          continue;
        }
        if IsRsyncTemp(e.name) {
          incomplete := true;
          continue;
        }
        if Hidden(e.name) {
          continue;
        }
        if HasSuffix(e.name, ".safetensors") {
          hasSafetensors := true;
        } else if HasSuffix(e.name, ".gguf") {
          if e.node.size.None? {
            continue;
          }
          var key := GroupKey(e.name);
          GroupAdd(es[..n], e, names, sizes, first);
          ghost var had := first;
          if key !in sizes {
            names := names + [key];
            first := first[key := e.name];
          }
          sizes := sizes[key := (if key in sizes then sizes[key] else 0) + e.node.size.value];
          if IsFirstShard(e.name) {
            first := first[key := e.name];
          }
          assert first == if key !in had || IsFirstShard(e.name) then had[key := e.name] else had;
        }
      }
      assert es[..|es|] == es;
    }

    method Walk(rel: string, depth: nat, d: Node)
      requires Valid() && depth <= MAX_DEPTH
      modifies this`out, this`truncated
      ensures Valid() && out == Capped(old(out) + Picked(LooksIn(storage, rel, depth, d)))
      ensures truncated <==> old(truncated) || LooksPast(|old(out)|, LooksIn(storage, rel, depth, d))
      decreases MAX_DEPTH - depth, 1
    {
      hide IsModel, ValidRef, Candidates, LooksAmong, AtAll;
      assert out + [] == out;
      if !d.Dir? || !d.readable {
        return;
      }
      if IsModel(rel, d) {
        PastAll(|out|, Candidates(rel, d));
        AddModelDir(rel, d);
        return;
      }
      if depth >= MAX_DEPTH {
        return;
      }
      WalkAll(rel, depth, d.entries);
    }

    /** The loop over the entries of a directory that is not a model. */
    method WalkAll(rel: string, depth: nat, es: seq<Entry>)
      requires Valid() && depth < MAX_DEPTH
      modifies this`out, this`truncated
      ensures Valid() && out == Capped(old(out) + Picked(LooksAmong(storage, rel, depth, es)))
      ensures truncated <==> old(truncated) || LooksPast(|old(out)|, LooksAmong(storage, rel, depth, es))
      decreases MAX_DEPTH - depth, 0
    {
      hide LooksIn, LooksAmong, LooksAt, IsWalked, Capped, Child, LooksPast, Picked;
      ghost var before := out;
      ghost var all := LooksAmong(storage, rel, depth, es);
      ghost var done: seq<Look> := [];
      NoLooks(before);
      assert es[0..] == es && [] + all == all;
      var i := 0;
      while i < |es|
        invariant 0 <= i <= |es| && Valid()
        invariant all == done + LooksAmong(storage, rel, depth, es[i..])
        invariant out == Capped(before + Picked(done))
        invariant truncated <==> old(truncated) || LooksPast(|before|, done)
      {
        ghost var rest := LooksAmong(storage, rel, depth, es[i + 1..]);
        var e := es[i];
        ghost var mine := LooksAt(storage, rel, depth, e);
        LooksAmongStep(storage, rel, depth, es, i);
        assert done + (mine + rest) == (done + mine) + rest;
        var full := Full();
        if full {
          FullAndMore(before, done, mine + rest);
          return;
        }
        if IsWalked(e) {
          Walk(Child(rel, e.name), depth + 1, e.node);
        }
        NotFullAndMore(before, done, storage, rel, depth, e);
        done := done + mine;
        i := i + 1;
      }
      LooksAmongStep(storage, rel, depth, es, i);
      assert done + [] == done;
    }
  }

  lemma NoLooks(before: seq<Candidate>)
    requires |before| <= MAX_CANDIDATES
    ensures Capped(before + Picked([])) == before && !LooksPast(|before|, [])
  {
    assert before + [] == before;
  }

  lemma CappedFull(a: seq<Candidate>, b: seq<Candidate>)
    ensures |Capped(a)| == MAX_CANDIDATES ==> |a| >= MAX_CANDIDATES && Capped(a + b) == Capped(a)
    ensures |Capped(a)| < MAX_CANDIDATES ==> Capped(a) == a
  {
  }

  lemma PastWhenFull(n: nat, more: seq<Look>)
    requires n >= MAX_CANDIDATES && more != []
    ensures LooksPast(n, more)
  {
  }

  /** With the list full there is something more to look at. */
  lemma FullAndMore(before: seq<Candidate>, done: seq<Look>, more: seq<Look>)
    requires |Capped(before + Picked(done))| == MAX_CANDIDATES && more != []
    ensures Capped(before + Picked(done + more)) == Capped(before + Picked(done)) && LooksPast(|before|, done + more)
  {
    hide Capped, Picked, LooksPast;
    PickedSplits(done, more);
    PastSplits(|before|, done, more);
    CappedFull(before + Picked(done), Picked(more));
    PastWhenFull(|before| + |Picked(done)|, more);
    assert before + (Picked(done) + Picked(more)) == (before + Picked(done)) + Picked(more);
  }

  lemma OneEntry(n: nat)
    ensures Picked([AtEntry]) == [] && (n < MAX_CANDIDATES ==> !LooksPast(n, [AtEntry]))
    ensures Picked([]) == [] && !LooksPast(n, [])
  {
    assert [AtEntry][1..] == [];
  }

  /** With the list not full, looking at an entry goes on as from here. */
  lemma NotFullAndMore(before: seq<Candidate>, done: seq<Look>, s: Storage, rel: string, depth: nat, e: Entry)
    requires depth < MAX_DEPTH && |Capped(before + Picked(done))| < MAX_CANDIDATES
    ensures var mine := LooksAt(s, rel, depth, e);
            var inner := if IsWalked(e) then LooksIn(s, Child(rel, e.name), depth + 1, e.node) else [];
            var out := Capped(before + Picked(done));
            && Capped(out + Picked(inner)) == Capped(before + Picked(done + mine))
            && (LooksPast(|before|, done) || LooksPast(|out|, inner) <==> LooksPast(|before|, done + mine))
            && (inner == [] ==> Capped(out + Picked(inner)) == out && !LooksPast(|out|, inner))
  {
    hide LooksIn, IsWalked, Child, Capped, Picked, LooksPast;
    var mine := LooksAt(s, rel, depth, e);
    var inner := if IsWalked(e) then LooksIn(s, Child(rel, e.name), depth + 1, e.node) else [];
    var out := before + Picked(done);
    CappedFull(out, []);
    PickedSplits(done, mine);
    PickedSplits([AtEntry], inner);
    PastSplits(|before|, done, mine);
    PastSplits(|out|, [AtEntry], inner);
    OneEntry(|out|);
    assert [] + Picked(inner) == Picked(inner);
    assert before + (Picked(done) + Picked(mine)) == out + Picked(inner);
    assert out + [] == out;
  }

  lemma LooksAmongStep(s: Storage, rel: string, depth: nat, es: seq<Entry>, i: nat)
    requires depth < MAX_DEPTH && i <= |es|
    ensures LooksAmong(s, rel, depth, es[i..]) ==
              if i == |es| then [] else LooksAt(s, rel, depth, es[i]) + LooksAmong(s, rel, depth, es[i + 1..])
    ensures i < |es| ==> LooksAt(s, rel, depth, es[i]) != []
  {
    hide LooksIn, IsWalked;
    if i < |es| {
      assert es[i..][0] == es[i] && es[i..][1..] == es[i + 1..];
    }
  }

  /** What the grouping loop has when it has seen es. */
  ghost predicate Grouped(es: seq<Entry>, names: seq<string>, sizes: map<string, nat>, first: map<string, string>) {
    && names == Keys(es)
    && (forall k :: k in sizes <==> k in names) && (forall k :: k in first <==> k in names)
    && (forall k :: k in names ==> sizes[k] == GroupSize(es, k) && GroupFile(es, k) == Some(first[k]))
    && (forall k :: k !in names ==> GroupSize(es, k) == 0 && GroupFile(es, k) == None)
  }

  lemma NothingGrouped()
    ensures Grouped([], [], map[], map[]) && !HasSafetensors([]) && !Leftover([])
  {
  }

  lemma GroupSkip(es: seq<Entry>, e: Entry, names: seq<string>, sizes: map<string, nat>, first: map<string, string>)
    requires Grouped(es, names, sizes, first) && !Counts(e)
    ensures Grouped(es + [e], names, sizes, first)
  {
    hide Counts, KeyOf;
    assert (es + [e])[..|es|] == es;
  }

  lemma GroupAdd(es: seq<Entry>, e: Entry, names: seq<string>, sizes: map<string, nat>, first: map<string, string>)
    requires Grouped(es, names, sizes, first) && Counts(e)
    ensures KeyOf(e) in first <==> KeyOf(e) in sizes
    ensures var key := KeyOf(e);
            Grouped(es + [e], if key in sizes then names else names + [key],
                    sizes[key := (if key in sizes then sizes[key] else 0) + e.node.size.value],
                    if key !in sizes || IsFirstShard(e.name) then first[key := e.name] else first)
  {
    GroupsUnfold(es, e);
    hide KeyOf, IsFirstShard, Keys, GroupSize, GroupFile, Counts;
    NamesGrow(es, es + [e], KeyOf(e), names, sizes, first);
    ValuesGrow(es, es + [e], e, KeyOf(e), names, sizes, first);
  }

  lemma NamesGrow(es: seq<Entry>, more: seq<Entry>, key: string, names: seq<string>, sizes: map<string, nat>, first: map<string, string>)
    requires Grouped(es, names, sizes, first)
    requires Keys(more) == if key in Keys(es) then Keys(es) else Keys(es) + [key]
    ensures (key in names <==> key in sizes) && (key in first <==> key in sizes)
    ensures Keys(more) == if key in sizes then names else names + [key]
  {
    hide Keys, GroupSize, GroupFile;
  }

  lemma ValuesGrow(es: seq<Entry>, more: seq<Entry>, e: Entry, key: string, names: seq<string>, sizes: map<string, nat>,
      first: map<string, string>)
    requires Grouped(es, names, sizes, first) && e.node.File? && e.node.size.Some?
    requires (key in names <==> key in sizes) && (key in first <==> key in sizes)
    requires Keys(more) == if key in sizes then names else names + [key]
    requires forall k :: GroupSize(more, k) == GroupSize(es, k) + if key == k then e.node.size.value else 0
    requires forall k :: GroupFile(more, k) ==
              if key == k && (GroupFile(es, k) == None || IsFirstShard(e.name)) then Some(e.name) else GroupFile(es, k)
    ensures Grouped(more, if key in sizes then names else names + [key],
                    sizes[key := (if key in sizes then sizes[key] else 0) + e.node.size.value],
                    if key !in sizes || IsFirstShard(e.name) then first[key := e.name] else first)
  {
    hide Keys, GroupSize, GroupFile, IsFirstShard;
    var names' := if key in sizes then names else names + [key];
    assert forall k :: k in names' <==> k in names || k == key;
  }

  /** What one more file that counts does to each part of the grouping. */
  lemma GroupsUnfold(es: seq<Entry>, e: Entry)
    requires Counts(e)
    ensures Keys(es + [e]) == if KeyOf(e) in Keys(es) then Keys(es) else Keys(es) + [KeyOf(e)]
    ensures forall k :: GroupSize(es + [e], k) == GroupSize(es, k) + if KeyOf(e) == k then e.node.size.value else 0
    ensures forall k :: GroupFile(es + [e], k) ==
              if KeyOf(e) == k && (GroupFile(es, k) == None || IsFirstShard(e.name)) then Some(e.name) else GroupFile(es, k)
  {
    hide KeyOf, IsFirstShard, Counts;
    assert (es + [e])[..|es|] == es;
  }

  lemma FlagsMore(es: seq<Entry>, e: Entry)
    ensures HasSafetensors(es + [e]) <==> HasSafetensors(es) || (e.node.File? && !Hidden(e.name) && HasSuffix(e.name, ".safetensors"))
    ensures Leftover(es + [e]) <==> Leftover(es) || (e.node.File? && IsRsyncTemp(e.name))
  {
    hide IsRsyncTemp, Hidden, HasSuffix;
    assert e in es + [e];
    assert forall x :: x in es + [e] <==> x in es || x == e;
  }

  function SortStrings(names: seq<string>): seq<string> {
    Sort((a, b) => StringLeq(a, b), names)
  }

  lemma SortIsStrings(es: seq<Entry>)
    ensures SortStrings(Keys(es)) == SortedKeys(es)
    ensures forall k :: k in SortStrings(Keys(es)) ==> k in Keys(es)
  {
    StringLeqIsTotal();
    SortSorts((a, b) => StringLeq(a, b), Keys(es));
    SameMembers(SortedKeys(es), Keys(es));
  }

  lemma OneKind(name: string)
    ensures !(HasSuffix(name, ".safetensors") && HasSuffix(name, ".gguf"))
    ensures IsRsyncTemp(name) ==> Hidden(name)
  {
    assert HasSuffix(name, ".gguf") ==> name[|name| - 5..][4] == name[|name| - 1];
    assert HasSuffix(name, ".safetensors") ==> name[|name| - 12..][11] == name[|name| - 1];
    assert ".gguf"[4] == 'f' && ".safetensors"[11] == 's';
    assert IsRsyncTemp(name) ==> name[..1] == ".";
  }

  // --- The result ---

  predicate CandidateLeq(a: Candidate, b: Candidate) {
    if a.modelRef != b.modelRef then StringLeq(a.modelRef, b.modelRef)
    else if a.format != b.format then a.format == Gguf
    else StringLeq(a.quantization, b.quantization)
  }

  lemma CandidateLeqIsTotal()
    ensures TotalOrder((a, b) => CandidateLeq(a, b))
  {
    hide StringLeq;
    forall a, b, c
      ensures CandidateLeq(a, b) || CandidateLeq(b, a)
      ensures CandidateLeq(a, b) && CandidateLeq(b, c) ==> CandidateLeq(a, c)
    {
      StringsAreOrdered(a.modelRef, b.modelRef, c.modelRef);
      StringsAreOrdered(b.modelRef, c.modelRef, a.modelRef);
      StringsAreOrdered(c.modelRef, b.modelRef, a.modelRef);
      StringsAreOrdered(a.quantization, b.quantization, c.quantization);
    }
  }

  /** By reference, then format, then quantization. */
  ghost predicate InOrder(cs: seq<Candidate>) {
    Ordered((a, b) => CandidateLeq(a, b), cs)
  }

  function SortCandidates(cs: seq<Candidate>): (sorted: seq<Candidate>)
    ensures |sorted| == |cs|
  {
    Sort((a, b) => CandidateLeq(a, b), cs)
  }

  lemma SortCandidatesSorts(cs: seq<Candidate>)
    ensures InOrder(SortCandidates(cs)) && multiset(SortCandidates(cs)) == multiset(cs)
  {
    CandidateLeqIsTotal();
    SortSorts((a, b) => CandidateLeq(a, b), cs);
  }

  datatype Result = Unusable | Scanned(candidates: seq<Candidate>, truncated: bool)

  /** At most 500 candidates, sorted: all there are, or as many as fit. The list says it was cut
      short exactly when, with 500 in it, the walk had anything more to look at, be it a copy or
      only an entry of a directory. An unusable root is the only error. */
  method Scan(storage: Storage, tree: Option<Node>) returns (r: Result)
    ensures r.Unusable? <==> tree == None || !tree.value.Dir? || !tree.value.readable
    ensures r.Scanned? ==> |r.candidates| <= MAX_CANDIDATES && InOrder(r.candidates)
    ensures r.Scanned? ==> multiset(r.candidates) == multiset(Capped(FoundIn(storage, "", 0, tree.value)))
    ensures r.Scanned? ==> (r.truncated <==> CutShort(LooksIn(storage, "", 0, tree.value)))
    ensures r.Scanned? && |FoundIn(storage, "", 0, tree.value)| > MAX_CANDIDATES ==> r.truncated
    ensures r.Scanned? && r.truncated ==> |r.candidates| == MAX_CANDIDATES
    ensures r.Scanned? && !r.truncated ==> multiset(r.candidates) == multiset(FoundIn(storage, "", 0, tree.value))
  {
    hide FoundIn, LooksIn, InOrder, SortCandidates, Capped, Picked, LooksPast;
    if tree == None || !tree.value.Dir? || !tree.value.readable {
      return Unusable;
    }
    var s := new Scanner(storage);
    s.Walk("", 0, tree.value);
    ghost var all := FoundIn(storage, "", 0, tree.value);
    PickedIsFound(storage, "", 0, tree.value);
    assert [] + all == all;
    LooksPastIff(0, LooksIn(storage, "", 0, tree.value));
    MoreIsCutShort(LooksIn(storage, "", 0, tree.value));
    SortCandidatesSorts(s.out);
    r := Scanned(SortCandidates(s.out), s.truncated);
  }

  /** Something comes after 500 copies. */
  ghost predicate CutShort(looks: seq<Look>) {
    exists k :: 0 <= k < |looks| && 0 + |Picked(looks[..k])| >= MAX_CANDIDATES
  }

  lemma MoreIsCutShort(looks: seq<Look>)
    ensures |Picked(looks)| > MAX_CANDIDATES ==> CutShort(looks)
    ensures |Picked(looks)| <= MAX_CANDIDATES ==> Capped(Picked(looks)) == Picked(looks)
    ensures CutShort(looks) ==> |Capped(Picked(looks))| == MAX_CANDIDATES
  {
    if |Picked(looks)| > MAX_CANDIDATES {
      var k := |looks| - 1;
      assert looks == looks[..k] + looks[k..];
      PickedSplits(looks[..k], looks[k..]);
      assert looks[k..][1..] == [];
      assert |Picked(looks[k..])| <= 1;
    }
    forall k | 0 <= k < |looks| ensures |Picked(looks[..k])| <= |Picked(looks)| {
      assert looks == looks[..k] + looks[k..];
      PickedSplits(looks[..k], looks[k..]);
    }
  }

  // --- A list that is cut short and complete ---

  /** A model directory with one weights file; they are named maa, mab and so on. */
  const ONE_COPY := Dir(true, [Entry("w.safetensors", File(Some(1)))])

  function Nth(i: nat): (name: string)
    requires i < MAX_CANDIDATES
    ensures Plain(name) && !Hidden(name)
  {
    var name := ['m', (97 + i / 26) as char, (97 + i % 26) as char];
    assert name[..1][0] == 'm';
    name
  }

  /** 500 of them, and one file more. */
  function FullRoot(): (d: Node)
    ensures d.Dir? && |d.entries| == MAX_CANDIDATES + 1
  {
    Dir(true, seq(MAX_CANDIDATES, i requires 0 <= i < MAX_CANDIDATES => Entry(Nth(i), ONE_COPY)) + [Entry("notes", File(Some(1)))])
  }

  lemma NamesDiffer(i: nat, j: nat)
    requires i < j <= MAX_CANDIDATES
    ensures FullRoot().entries[i].name != FullRoot().entries[j].name
  {
    RootEntry(i);
    RootEntry(j);
    if j < MAX_CANDIDATES {
      assert Nth(i)[1] == (97 + i / 26) as char && Nth(i)[2] == (97 + i % 26) as char;
      assert Nth(j)[1] == (97 + j / 26) as char && Nth(j)[2] == (97 + j % 26) as char;
    } else {
      assert |Nth(i)| == 3;
    }
  }

  lemma OneWeight()
    ensures var e := ONE_COPY.entries[0];
            ONE_COPY.entries == [e] && e.node.File? && !Hidden(e.name) && HasSuffix(e.name, ".safetensors") && IsWeight(e) && !Counts(e)
  {
    var name := ONE_COPY.entries[0].name;
    assert name[1..] == ".safetensors";
    assert name[..1][0] == 'w';
    OneKind(name);
  }

  lemma OneCopyEach(s: Storage, name: string)
    requires Plain(name) && s.printable(name)
    ensures |FoundIn(s, name, 1, ONE_COPY)| == 1
  {
    hide Hidden, HasSuffix;
    OneWeight();
    PlainIsValid(s, name);
    var e := ONE_COPY.entries[0];
    assert e in ONE_COPY.entries;
    assert Keys(ONE_COPY.entries) == [];
    assert SortedKeys(ONE_COPY.entries) == [];
    assert HasSafetensors(ONE_COPY.entries);
    hide RepoSize, Keys, HasSafetensors, ValidRef;
    assert |Candidates(name, ONE_COPY)| == 1;
  }

  lemma PlainIsValid(s: Storage, name: string)
    requires Plain(name) && s.printable(name)
    ensures ValidRef(s, name)
  {
    assert Join([name], '/') == name;
    PlainRefResolves(s.root, [name]);
    hide Clean, Parse;
  }

  lemma RootEntry(i: nat)
    requires i <= MAX_CANDIDATES
    ensures var e := FullRoot().entries[i];
            if i < MAX_CANDIDATES then e == Entry(Nth(i), ONE_COPY) && IsWalked(e) else !IsWalked(e)
  {
  }

  lemma {:induction false} FoundFrom(s: Storage, i: nat)
    requires i <= MAX_CANDIDATES && forall n :: s.printable(n)
    ensures |FoundAmong(s, "", 0, FullRoot().entries[i..])| == MAX_CANDIDATES - i
    decreases MAX_CANDIDATES - i
  {
    hide FoundIn, FullRoot, IsWalked;
    var es := FullRoot().entries;
    assert es[i..][0] == es[i] && es[i..][1..] == es[i + 1..];
    RootEntry(i);
    if i < MAX_CANDIDATES {
      assert Child("", Nth(i)) == Nth(i);
      OneCopyEach(s, Nth(i));
      FoundFrom(s, i + 1);
    } else {
      assert es[i + 1..] == [];
    }
  }

  lemma {:induction false} EndsAtAnEntry(s: Storage, rel: string, depth: nat, es: seq<Entry>)
    requires depth < MAX_DEPTH && es != [] && !IsWalked(es[|es| - 1])
    ensures var looks := LooksAmong(s, rel, depth, es); looks != [] && looks[|looks| - 1] == AtEntry
    decreases |es|
  {
    hide LooksIn;
    if |es| > 1 {
      EndsAtAnEntry(s, rel, depth, es[1..]);
    } else {
      assert LooksAmong(s, rel, depth, es[1..]) == [];
    }
  }

  lemma AnEntryLast(looks: seq<Look>)
    requires looks != [] && looks[|looks| - 1] == AtEntry && |Picked(looks)| >= MAX_CANDIDATES
    ensures CutShort(looks)
  {
    hide Picked;
    var k := |looks| - 1;
    assert looks == looks[..k] + [AtEntry];
    PickedSplits(looks[..k], [AtEntry]);
    OneEntry(0);
  }

  lemma FullRootIsWalked(s: Storage)
    ensures FoundIn(s, "", 0, FullRoot()) == FoundAmong(s, "", 0, FullRoot().entries[0..])
    ensures LooksIn(s, "", 0, FullRoot()) == LooksAmong(s, "", 0, FullRoot().entries)
  {
    hide FoundAmong, LooksAmong;
    assert FullRoot().entries[0..] == FullRoot().entries;
  }

  /** A storage with exactly 500 copies and a file beside them: the scan finds them all and says
      that its list was cut short. */
  lemma CompleteCanBeCutShort(s: Storage)
    requires forall n :: s.printable(n)
    ensures forall i, j :: 0 <= i < j < |FullRoot().entries| ==> FullRoot().entries[i].name != FullRoot().entries[j].name
    ensures |FoundIn(s, "", 0, FullRoot())| == MAX_CANDIDATES
    ensures Capped(FoundIn(s, "", 0, FullRoot())) == FoundIn(s, "", 0, FullRoot())
    ensures CutShort(LooksIn(s, "", 0, FullRoot()))
  {
    hide FoundIn, LooksIn, LooksAmong, FoundAmong, FullRoot, IsWalked, CutShort;
    FoundFrom(s, 0);
    FullRootIsWalked(s);
    RootEntry(MAX_CANDIDATES);
    PickedIsFound(s, "", 0, FullRoot());
    EndsAtAnEntry(s, "", 0, FullRoot().entries);
    AnEntryLast(LooksIn(s, "", 0, FullRoot()));
    forall i, j | 0 <= i < j < |FullRoot().entries| ensures FullRoot().entries[i].name != FullRoot().entries[j].name {
      NamesDiffer(i, j);
    }
  }

  // --- What is found, by path ---

  /** A readable directory other than the root with a visible weight file directly in it. */
  ghost predicate HoldsWeights(rel: string, d: Node) {
    && rel != "" && d.Dir? && d.readable
    && exists e :: e in d.entries && e.node.File? && (e.name == "" || e.name[0] != '.')
                   && (HasSuffix(e.name, ".gguf") || HasSuffix(e.name, ".safetensors"))
  }

  predicate ShownDir(e: Entry) {
    e.node.Dir? && (e.name == "" || e.name[0] != '.')
  }

  lemma ModelIff(rel: string, d: Node)
    ensures IsModel(rel, d) <==> HoldsWeights(rel, d)
  {
    if d.Dir? {
      forall e | e in d.entries ensures Hidden(e.name) <==> e.name != "" && e.name[0] == '.' {
        HiddenIff(e.name);
      }
    }
    hide Hidden, HasSuffix;
  }

  lemma WalkedIff(e: Entry)
    ensures IsWalked(e) <==> ShownDir(e)
  {
    HiddenIff(e.name);
  }

  /** The path leads from d to the model directory m: through visible directories that can be read
      and are not themselves models, no deeper than the limit. */
  ghost predicate Leads(rel: string, depth: nat, d: Node, path: seq<string>, m: Node)
    decreases |path|
  {
    && d.Dir? && d.readable
    && if path == [] then m == d && HoldsWeights(rel, d)
       else
         && !HoldsWeights(rel, d) && depth < 6
         && exists e :: e in d.entries && ShownDir(e) && e.name == path[0] && Leads(Child(rel, path[0]), depth + 1, e.node, path[1..], m)
  }

  function RefOf(rel: string, path: seq<string>): string
    decreases |path|
  {
    if path == [] then rel else RefOf(Child(rel, path[0]), path[1..])
  }

  ghost predicate Holds(s: Storage, ref: string, m: Node, c: Candidate) {
    m.Dir? && ValidRef(s, ref) && c in Candidates(ref, m)
  }

  lemma {:induction false} EverythingFoundIsThere(s: Storage, rel: string, depth: nat, d: Node, c: Candidate)
    returns (path: seq<string>, m: Node)
    requires depth <= MAX_DEPTH && c in FoundIn(s, rel, depth, d)
    ensures Leads(rel, depth, d, path, m) && Holds(s, RefOf(rel, path), m, c)
    decreases MAX_DEPTH - depth
  {
    ModelIff(rel, d);
    hide ValidRef, Candidates, HasWeights, Hidden, HoldsWeights, ShownDir, IsWalked;
    if IsModel(rel, d) {
      path, m := [], d;
    } else {
      var e := FoundAmongOne(s, rel, depth, d.entries, c);
      var rest: seq<string>;
      WalkedIff(e);
      rest, m := EverythingFoundIsThere(s, Child(rel, e.name), depth + 1, e.node, c);
      path := [e.name] + rest;
      assert path[0] == e.name && path[1..] == rest;
    }
  }

  lemma {:induction false} FoundAmongOne(s: Storage, rel: string, depth: nat, es: seq<Entry>, c: Candidate)
    returns (e: Entry)
    requires depth < MAX_DEPTH && c in FoundAmong(s, rel, depth, es)
    ensures e in es && IsWalked(e) && c in FoundIn(s, Child(rel, e.name), depth + 1, e.node)
    decreases |es|
  {
    hide FoundIn;
    if IsWalked(es[0]) && c in FoundIn(s, Child(rel, es[0].name), depth + 1, es[0].node) {
      e := es[0];
    } else {
      e := FoundAmongOne(s, rel, depth, es[1..], c);
    }
  }

  lemma {:induction false} EverythingThereIsFound(s: Storage, rel: string, depth: nat, d: Node, path: seq<string>,
      m: Node, c: Candidate)
    requires depth <= MAX_DEPTH && Leads(rel, depth, d, path, m) && Holds(s, RefOf(rel, path), m, c)
    ensures c in FoundIn(s, rel, depth, d)
    decreases |path|
  {
    ModelIff(rel, d);
    hide ValidRef, Candidates, HasWeights, Hidden, HoldsWeights, ShownDir, IsWalked;
    if path != [] {
      var e :| e in d.entries && ShownDir(e) && e.name == path[0] && Leads(Child(rel, path[0]), depth + 1, e.node, path[1..], m);
      WalkedIff(e);
      EverythingThereIsFound(s, Child(rel, path[0]), depth + 1, e.node, path[1..], m, c);
      FoundAmongAll(s, rel, depth, d.entries, e, c);
    }
  }

  lemma {:induction false} FoundAmongAll(s: Storage, rel: string, depth: nat, es: seq<Entry>, e: Entry, c: Candidate)
    requires depth < MAX_DEPTH && e in es && IsWalked(e) && c in FoundIn(s, Child(rel, e.name), depth + 1, e.node)
    ensures c in FoundAmong(s, rel, depth, es)
    decreases |es|
  {
    hide FoundIn;
    if e != es[0] {
      assert e in es[1..];
      FoundAmongAll(s, rel, depth, es[1..], e, c);
    }
  }

  /** A complete scan reports a copy exactly when some readable, visible directory at most six
      levels down, not inside another model directory and with a reference that can be shown,
      holds it. */
  lemma CompleteScanIsExact(s: Storage, tree: Node, all: seq<Candidate>, c: Candidate)
    requires multiset(all) == multiset(FoundIn(s, "", 0, tree))
    ensures c in all <==> exists path, m :: Leads("", 0, tree, path, m) && Holds(s, RefOf("", path), m, c)
  {
    hide FoundIn, Leads, Holds;
    SameMembers(all, FoundIn(s, "", 0, tree));
    if c in all {
      var path, m := EverythingFoundIsThere(s, "", 0, tree, c);
    }
    forall path, m | Leads("", 0, tree, path, m) && Holds(s, RefOf("", path), m, c) ensures c in all {
      EverythingThereIsFound(s, "", 0, tree, path, m, c);
    }
  }

  lemma {:induction false} RefIsTheJoin(rel: string, path: seq<string>)
    requires rel != ""
    ensures RefOf(rel, path) == Join([rel] + path, '/')
    decreases |path|
  {
    if path == [] {
      assert [rel] + path == [rel];
    } else {
      RefIsTheJoin(Child(rel, path[0]), path[1..]);
      assert ([rel] + path)[1..] == path;
      if path[1..] == [] {
        assert path == [path[0]];
        assert [Child(rel, path[0])] + path[1..] == [Child(rel, path[0])];
      } else {
        assert ([Child(rel, path[0])] + path[1..])[1..] == path[1..];
        assert rel + "/" + path[0] + ['/'] + Join(path[1..], '/') == rel + ['/'] + (path[0] + ['/'] + Join(path[1..], '/'));
      }
    }
  }

  /** The reference of a directory found by plain names resolves to that directory, so showing it
      is all that can make it invalid. */
  lemma WalkedRefsResolve(s: Storage, path: seq<string>)
    requires path != [] && forall n :: n in path ==> Plain(n)
    ensures Resolve(s.root, RefOf("", path)) == Some(Show(Path(Clean(Parse(s.root)).rooted, Clean(Parse(s.root)).parts + path)))
    ensures ValidRef(s, RefOf("", path)) <==> s.printable(RefOf("", path))
  {
    hide Resolve, Clean, Plain;
    assert path[0] in path;
    assert path[0] != "" by { PlainIsSomething(path[0]); }
    RefIsTheJoin(path[0], path[1..]);
    assert [path[0]] + path[1..] == path;
    assert RefOf("", path) == RefOf(path[0], path[1..]);
    PlainRefResolves(s.root, path);
    ResolvedIsTheJoin(s.root, RefOf("", path));
  }

  lemma PlainIsSomething(name: string)
    requires Plain(name)
    ensures name != ""
  {
  }

  lemma ResolvedIsTheJoin(root: string, rel: string)
    ensures Resolve(root, rel).Some? ==> Resolve(root, rel).value == CleanText(CleanText(root) + "/" + rel)
  {
  }
}
