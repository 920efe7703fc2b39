/** Deleting a model copy from the node's storage, by the label a scan or a download gave it. */
module DeleteModel {
  import opened Text
  import opened Wire
  import opened ModelPath
  import opened GgufNames
  import opened ModelGroups

  predicate WholeRepo(quantization: string, format: string) {
    format != "gguf" || quantization == "" || quantization == UNKNOWN
  }

  /** A file a delete of this quantization is to free. */
  predicate Goes(e: Entry, quantization: string) {
    !e.node.Dir? && Contains(e.name, quantization)
  }

  function Kept(es: seq<Entry>, quantization: string): (kept: seq<Entry>)
    ensures forall e :: e in kept <==> e in es && !Goes(e, quantization)
    ensures |kept| <= |es|
    ensures |kept| == |es| ==> kept == es && forall e :: e in es ==> !Goes(e, quantization)
  {
    if es == [] then []
    else
      var init := Kept(es[..|es| - 1], quantization);
      if Goes(es[|es| - 1], quantization) then init else init + [es[|es| - 1]]
  }

  /** Characters that make a directory path mean something else to a glob. */
  predicate HasGlobMeta(path: string) {
    exists c :: c in path && c in {'*', '?', '[', '\\'}
  }

  predicate AnyGguf(es: seq<Entry>) {
    exists e :: e in es && HasSuffix(e.name, ".gguf")
  }

  /** What `*.gguf` is found to match in the directory; a path with glob characters in it may be
      taken for other directories, which is what `elsewhere` stands for. */
  predicate GlobFinds(path: string, es: seq<Entry>, elsewhere: bool) {
    if HasGlobMeta(path) then elsewhere else AnyGguf(es)
  }

  /** The directory after a delete that nothing went wrong in, None once it is gone. */
  function AfterDelete(path: string, es: seq<Entry>, quantization: string, format: string,
      elsewhere: bool): Option<seq<Entry>> {
    if WholeRepo(quantization, format) then None
    else
      var kept := Kept(es, quantization);
      if kept == es then Some(es)
      else if GlobFinds(path, kept, elsewhere) then Some(kept)
      else None
  }

  function Updated(dirs: map<string, seq<Entry>>, path: string, es: Option<seq<Entry>>): map<string, seq<Entry>> {
    if es.Some? then dirs[path := es.value] else dirs - {path}
  }

  /** What can fail: examining or reading the directory, removing a file, removing the directory,
      which then leaves what `left` says. */
  datatype Luck = Luck(examined: bool, listed: bool, removes: string -> bool, cleared: bool, left: Entry -> bool, elsewhere: bool)

  /** What an interrupted removal of a directory leaves of it. */
  function Remains(es: seq<Entry>, left: Entry -> bool): (r: seq<Entry>)
    ensures forall e :: e in r <==> e in es && left(e)
  {
    if es == [] then []
    else Remains(es[..|es| - 1], left) + if left(es[|es| - 1]) then [es[|es| - 1]] else []
  }

  /** Nothing a delete needs fails: every file with the label in its name can be removed, and the
      directory too if it is to go. */
  ghost predicate Succeeds(es: seq<Entry>, path: string, quantization: string, format: string, luck: Luck) {
    && luck.examined
    && (AfterDelete(path, es, quantization, format, luck.elsewhere) == None ==> luck.cleared)
    && (!WholeRepo(quantization, format) ==> luck.listed && forall e :: e in es && Labelled(e, quantization) ==> luck.removes(e.name))
  }

  lemma NotLabelled(e: Entry, quantization: string)
    requires e.node.Dir? || !Contains(e.name, quantization)
    ensures !Labelled(e, quantization)
  {
  }

  lemma LabelledIff(e: Entry, quantization: string)
    ensures Goes(e, quantization) <==> Labelled(e, quantization)
  {
  }

  /** Anything but a directory that has the label in its name. */
  predicate Labelled(e: Entry, quantization: string) {
    (e.node.File? || e.node == Other) && Contains(e.name, quantization)
  }

  class Storage {
    const root: string
    var dirs: map<string, seq<Entry>> // the model directories by path

    constructor (root: string, dirs: map<string, seq<Entry>>)
      ensures this.root == root && this.dirs == dirs
    {
      this.root, this.dirs := root, dirs;
    }

    /** Success means the copy is gone, however it came to be; a failure may have freed some of its
        files, and nothing else is ever touched. */
    method RemoveModel(modelRef: string, quantization: string, format: string, luck: Luck) returns (ok: bool)
      modifies this
      ensures Resolve(root, modelRef) == None ==> !ok && dirs == old(dirs)
      ensures Resolve(root, modelRef).Some? && Resolve(root, modelRef).value !in old(dirs) ==> dirs == old(dirs) && (ok <==> luck.examined)
      ensures Resolve(root, modelRef).Some? && Resolve(root, modelRef).value in old(dirs) ==>
                && Outcome(old(dirs), dirs, Resolve(root, modelRef).value, quantization, format, luck, ok)
                && (ok <==> Succeeds(old(dirs)[Resolve(root, modelRef).value], Resolve(root, modelRef).value, quantization, format, luck))
    {
      hide Resolve, Contains, Goes, WholeRepo, GlobFinds, Kept, PartlyFreed, Remains, Labelled;
      var dir := Resolve(root, modelRef);
      if dir.Some? && dir.value in dirs {
        NothingFreed(dirs[dir.value], quantization);
      }
      if dir == None || !luck.examined {
        return false;
      }
      var path := dir.value;
      if path !in dirs {
        return true;
      }
      if WholeRepo(quantization, format) {
        dirs := if luck.cleared then dirs - {path} else dirs[path := Remains(dirs[path], luck.left)];
        return luck.cleared;
      }
      if !luck.listed {
        return false;
      }
      var removed: nat;
      removed, ok := RemoveFiles(path, quantization, luck.removes);
      PartlyFreedMeans(old(dirs)[path], dirs[path], quantization);
      if !ok || removed == 0 {
        return;
      }
      if !GlobFinds(path, dirs[path], luck.elsewhere) {
        dirs := if luck.cleared then dirs - {path} else dirs[path := Remains(dirs[path], luck.left)];
        return luck.cleared;
      }
    }

    /** The loop over the directory's entries, stopped by the first file that cannot be removed. */
    method RemoveFiles(path: string, quantization: string, removes: string -> bool) returns (removed: nat, ok: bool)
      requires path in dirs
      modifies this
      ensures path in dirs && dirs == old(dirs)[path := dirs[path]]
      ensures PartlyFreed(old(dirs)[path], dirs[path], quantization)
      ensures ok ==> dirs[path] == Kept(old(dirs)[path], quantization) && (removed == 0 <==> dirs[path] == old(dirs)[path])
      ensures ok <==> forall e :: e in old(dirs)[path] && Labelled(e, quantization) ==> removes(e.name)
    {
      hide Contains, Kept, PartlyFreed, Labelled;
      var entries := dirs[path];
      removed, ok := 0, true;
      NothingFreed(entries, quantization);
      assert Kept(entries[..0], quantization) + entries[0..] == entries;
      for i := 0 to |entries|
        invariant ok && path in dirs && dirs == old(dirs)[path := dirs[path]]
        invariant dirs[path] == Kept(entries[..i], quantization) + entries[i..]
        invariant removed == i - |Kept(entries[..i], quantization)|
        invariant PartlyFreed(entries, dirs[path], quantization)
        invariant forall j :: 0 <= j < i && Labelled(entries[j], quantization) ==> removes(entries[j].name)
      {
        var e := entries[i];
        LabelledIff(e, quantization);
        KeptOneMore(entries, i, quantization);
        if e.node.Dir? || !Contains(e.name, quantization) {
          NotLabelled(e, quantization);
          continue;
        }
        if !removes(e.name) {
          assert e in entries && Labelled(e, quantization);
          return removed, false;
        }
        dirs := dirs[path := Kept(entries[..i], quantization) + entries[i + 1..]];
        removed := removed + 1;
      }
      AllKept(entries, quantization);
    }
  }

  /** Only files that were to go are missing. */
  ghost predicate PartlyFreed(before: seq<Entry>, after: seq<Entry>, quantization: string) {
    && (forall e :: e in after ==> e in before)
    && (forall e :: e in before && e !in after ==> Goes(e, quantization))
  }

  /** How a delete can leave the directories. A failure leaves every other directory alone, and in
      this one takes only files that were to go, unless it was the removal of the whole directory
      that failed. */
  ghost predicate Outcome(before: map<string, seq<Entry>>, after: map<string, seq<Entry>>, path: string,
      quantization: string, format: string, luck: Luck, ok: bool)
    requires path in before
  {
    if ok then after == Updated(before, path, AfterDelete(path, before[path], quantization, format, luck.elsewhere))
    else
      && path in after && after == before[path := after[path]]
      && (forall e :: e in after[path] ==> e in before[path])
      && (luck.cleared ==> PartlyFreed(before[path], after[path], quantization) && (WholeRepo(quantization, format) ==> after == before))
      && (!luck.cleared ==> forall e :: e in before[path] && e !in after[path] ==> Goes(e, quantization) || !luck.left(e))
  }

  lemma PartlyFreedMeans(before: seq<Entry>, after: seq<Entry>, quantization: string)
    requires PartlyFreed(before, after, quantization)
    ensures forall e :: e in after ==> e in before
    ensures forall e :: e in before && e !in after ==> Goes(e, quantization)
  {
  }

  lemma NothingFreed(es: seq<Entry>, quantization: string)
    ensures PartlyFreed(es, es, quantization)
    ensures Kept(es[..0], quantization) == []
  {
  }

  lemma KeptOneMore(es: seq<Entry>, i: nat, quantization: string)
    requires i < |es|
    ensures Kept(es[..i + 1], quantization) == if Goes(es[i], quantization) then Kept(es[..i], quantization) else Kept(es[..i], quantization) + [es[i]]
    ensures !Goes(es[i], quantization) ==> Kept(es[..i + 1], quantization) + es[i + 1..] == Kept(es[..i], quantization) + es[i..]
    ensures PartlyFreed(es, Kept(es[..i + 1], quantization) + es[i + 1..], quantization)
  {
    hide Goes;
    assert es[..i + 1][..i] == es[..i] && es[..i + 1][i] == es[i];
    assert es[i..] == [es[i]] + es[i + 1..] && es == es[..i + 1] + es[i + 1..];
  }

  lemma AllKept(es: seq<Entry>, quantization: string)
    ensures es[..|es|] == es && Kept(es[..|es|], quantization) + es[|es|..] == Kept(es, quantization)
    ensures |es| - |Kept(es, quantization)| == 0 <==> Kept(es, quantization) == es
  {
    assert es[..|es|] == es;
  }

  // --- What a delete promises ---

  /** Deleting again changes nothing. */
  lemma DeletingTwiceIsDeletingOnce(path: string, es: seq<Entry>, quantization: string, format: string,
      elsewhere: bool, elsewhere': bool)
    ensures var once := AfterDelete(path, es, quantization, format, elsewhere);
            once.Some? ==> AfterDelete(path, once.value, quantization, format, elsewhere') == once
  {
    hide Goes;
    var kept := Kept(es, quantization);
    if |Kept(kept, quantization)| < |kept| {
      KeptTwice(es, quantization);
    }
    KeptTwice(es, quantization);
  }

  lemma {:induction false} KeptTwice(es: seq<Entry>, quantization: string)
    ensures Kept(Kept(es, quantization), quantization) == Kept(es, quantization)
  {
    hide Goes;
    if es != [] {
      var init, last := es[..|es| - 1], es[|es| - 1];
      KeptTwice(init, quantization);
      if !Goes(last, quantization) {
        var k := Kept(init, quantization) + [last];
        assert k[..|k| - 1] == Kept(init, quantization);
      }
    }
  }

  /** A delete frees the whole directory unless it names a gguf label. Then an entry survives exactly
      when no file in the directory has the label in its name, or when it is not itself such a file
      and some .gguf entry that is not is left. Under a path with glob characters the code asks a
      glob that may look elsewhere; its answer is taken as given. */
  lemma SurvivesIff(path: string, es: seq<Entry>, e: Entry, quantization: string, format: string, elsewhere: bool)
    requires e in es
    ensures var after := AfterDelete(path, es, quantization, format, elsewhere);
            (after.Some? && e in after.value) <==>
              && format == "gguf" && quantization != "" && quantization != "UNKNOWN"
              && (|| (forall x :: x in es ==> !Labelled(x, quantization))
                  || (&& !Labelled(e, quantization)
                      && if '*' in path || '?' in path || '[' in path || '\\' in path then elsewhere
                         else exists x :: x in es && HasSuffix(x.name, ".gguf") && !Labelled(x, quantization)))
  {
    assert HasGlobMeta(path) <==> '*' in path || '?' in path || '[' in path || '\\' in path;
    assert forall x :: Goes(x, quantization) <==> Labelled(x, quantization);
    hide Contains, HasSuffix, HasGlobMeta, Labelled, Goes;
    var kept := Kept(es, quantization);
    if forall x :: x in es ==> !Goes(x, quantization) {
      NothingGoes(es, quantization);
    } else if exists x :: x in kept && HasSuffix(x.name, ".gguf") {
      var x :| x in kept && HasSuffix(x.name, ".gguf");
    }
  }

  lemma {:induction false} NothingGoes(es: seq<Entry>, quantization: string)
    requires forall x :: x in es ==> !Goes(x, quantization)
    ensures Kept(es, quantization) == es
  {
    hide Goes;
    if es != [] {
      NothingGoes(es[..|es| - 1], quantization);
      assert es == es[..|es| - 1] + [es[|es| - 1]];
    }
  }

  /** A label a scan reported takes every file of its copy with it, in any directory: the next scan
      no longer finds the group. */
  lemma ReportedCopyIsGone(path: string, es: seq<Entry>, key: string, elsewhere: bool)
    requires key in Keys(es) && QuantizationFromName(key) != UNKNOWN
    ensures var q := QuantizationFromName(key);
            var after := AfterDelete(path, es, q, "gguf", elsewhere);
            && !WholeRepo(q, "gguf")
            && (forall e :: e in es && Counts(e) && KeyOf(e) == key ==> after == None || e !in after.value)
            && (after.Some? ==> key !in Keys(after.value))
  {
    hide Counts, KeyOf, QuantizationFromName, Contains;
    var q := QuantizationFromName(key);
    KeysAreTheGroups(es);
    forall e | e in es && Counts(e) && KeyOf(e) == key ensures Goes(e, q) && q != "" {
      LabelIsInEveryFile(e, key);
      CountsIsAFile(e);
    }
    KeysAreTheGroups(Kept(es, q));
    assert Kept(es, q) != es by {
      var e :| e in es && Counts(e) && KeyOf(e) == key;
      assert Goes(e, q);
    }
  }

  lemma CountsIsAFile(e: Entry)
    requires Counts(e)
    ensures e.node.File?
  {
  }

  // --- Siblings whose names contain the label ---

  lemma Q4KIsInQ4KM()
    ensures Contains("m-Q4_K.gguf", "Q4_K") && Contains("m-Q4_K_M.gguf", "Q4_K")
  {
    assert "m-Q4_K.gguf"[2..6] == "Q4_K" && "m-Q4_K_M.gguf"[2..6] == "Q4_K";
    assert OccursAt("m-Q4_K.gguf", 2, "Q4_K") && OccursAt("m-Q4_K_M.gguf", 2, "Q4_K");
  }

  /** Deleting "Q4_K" takes a sibling "Q4_K_M" with it, and the whole directory. */
  lemma DeletingOneLabelCanTakeAnother()
    ensures var es := [Entry("m-Q4_K.gguf", File(Some(1))), Entry("m-Q4_K_M.gguf", File(Some(1)))];
            forall path, elsewhere :: !HasGlobMeta(path) ==> AfterDelete(path, es, "Q4_K", "gguf", elsewhere) == None
  {
    var es := [Entry("m-Q4_K.gguf", File(Some(1))), Entry("m-Q4_K_M.gguf", File(Some(1)))];
    Q4KIsInQ4KM();
    hide Contains, HasGlobMeta;
    assert forall e :: e in es ==> Goes(e, "Q4_K");
    assert es[..0] == [] && es[..2] == es;
    KeptOneMore(es, 0, "Q4_K");
    KeptOneMore(es, 1, "Q4_K");
    assert "Q4_K" != UNKNOWN && "Q4_K" != "" by { assert |"Q4_K"| == 4 && |UNKNOWN| == 7; }
  }
}
