/** Turning a model reference from the network into a directory strictly inside the model storage. */
module ModelPath {
  import opened Text
  import opened Wire

  // --- Lexical cleaning ---

  /** A path as its components; a path from the root has `rooted`. */
  datatype Path = Path(rooted: bool, parts: seq<string>)

  function Parse(s: string): Path {
    Path(HasPrefix(s, "/"), Split(s, '/'))
  }

  function Push(rooted: bool, done: seq<string>, part: string): seq<string> {
    if part == "" || part == "." then done
    else if part != ".." then done + [part]
    else if done != [] && done[|done| - 1] != ".." then done[..|done| - 1]
    else if rooted then done
    else done + [".."]
  }

  function PushAll(rooted: bool, done: seq<string>, parts: seq<string>): seq<string>
    decreases |parts|
  {
    if parts == [] then done else PushAll(rooted, Push(rooted, done, parts[0]), parts[1..])
  }

  function Clean(p: Path): Path {
    Path(p.rooted, PushAll(p.rooted, [], p.parts))
  }

  function Show(p: Path): string {
    if p.rooted then "/" + Join(p.parts, '/')
    else if p.parts == [] then "."
    else Join(p.parts, '/')
  }

  function CleanText(s: string): string {
    Show(Clean(Parse(s)))
  }

  // --- Relative paths, and the check ---

  function Common(a: seq<string>, b: seq<string>): (k: nat)
    ensures k <= |a| && k <= |b| && a[..k] == b[..k]
    ensures k < |a| && k < |b| ==> a[k] != b[k]
    decreases |a|
  {
    if a == [] || b == [] || a[0] != b[0] then 0
    else
      var k := Common(a[1..], b[1..]);
      assert a[..k + 1] == [a[0]] + a[1..][..k] && b[..k + 1] == [b[0]] + b[1..][..k];
      k + 1
  }

  function Ups(n: nat): (ups: seq<string>)
    ensures |ups| == n && forall u :: u in ups ==> u == ".."
  {
    seq(n, _ => "..")
  }

  /** How to get from one cleaned path to another, or None when that cannot be told. */
  function Rel(base: Path, targ: Path): Option<string> {
    if base == targ then Some(".")
    else if base.rooted != targ.rooted then None
    else
      var to := TargetParts(targ);
      var k := Common(base.parts, to);
      if k < |base.parts| && base.parts[k] == ".." then None
      else Some(Join(Ups(|base.parts| - k) + to[k..], '/'))
  }

  function Resolve(root: string, modelRef: string): Option<string> {
    if modelRef == "" || HasPrefix(modelRef, "/") then None
    else
      var base := CleanText(root);
      var dir := CleanText(base + "/" + modelRef);
      var rel := Rel(Clean(Parse(base)), Clean(Parse(dir)));
      if GoesDown(rel) then Some(dir) else None
  }

  // --- Cleaned paths ---

  /** A component that names something. */
  predicate Plain(part: string) {
    part != "" && part != "." && part != ".." && '/' !in part
  }

  /** Every component names something, except that a path not from the root may begin with "..". */
  ghost predicate Cleaned(rooted: bool, parts: seq<string>) {
    && (forall p :: p in parts ==> Plain(p) || (p == ".." && !rooted))
    && (forall i, j :: 0 <= i < j < |parts| && parts[j] == ".." ==> parts[i] == "..")
  }

  lemma CleanedPart(rooted: bool, parts: seq<string>, part: string)
    requires Cleaned(rooted, parts) && part in parts
    ensures part != "" && part != "." && '/' !in part && (part == ".." || Plain(part)) && (rooted ==> Plain(part))
  {
    assert '/' !in "..";
  }

  lemma CleanedShorter(rooted: bool, parts: seq<string>)
    requires Cleaned(rooted, parts) && parts != []
    ensures Cleaned(rooted, parts[..|parts| - 1])
  {
    var p := parts[..|parts| - 1];
    assert forall i :: 0 <= i < |p| ==> p[i] == parts[i];
  }

  lemma PushKeeps(rooted: bool, done: seq<string>, part: string)
    requires Cleaned(rooted, done) && '/' !in part
    ensures Cleaned(rooted, Push(rooted, done, part))
  {
    if done != [] {
      CleanedShorter(rooted, done);
    }
    if part == ".." && done != [] && done[|done| - 1] == ".." {
      CleanedPart(rooted, done, "..");
    }
  }

  lemma {:induction false} PushAllKeeps(rooted: bool, done: seq<string>, parts: seq<string>)
    requires Cleaned(rooted, done) && forall p :: p in parts ==> '/' !in p
    ensures Cleaned(rooted, PushAll(rooted, done, parts))
    decreases |parts|
  {
    if parts != [] {
      PushKeeps(rooted, done, parts[0]);
      PushAllKeeps(rooted, Push(rooted, done, parts[0]), parts[1..]);
    }
  }

  lemma CleanIsClean(s: string)
    ensures Cleaned(Clean(Parse(s)).rooted, Clean(Parse(s)).parts)
  {
    SplitHasNoSeparator(s, '/');
    PushAllKeeps(Parse(s).rooted, [], Parse(s).parts);
  }

  lemma {:induction false} PushAllOfCleaned(rooted: bool, done: seq<string>, parts: seq<string>)
    requires Cleaned(rooted, done + parts)
    ensures PushAll(rooted, done, parts) == done + parts
    decreases |parts|
  {
    if parts == [] {
      assert done + parts == done;
    } else {
      var all := done + parts;
      assert all[|done|] == parts[0] && parts[0] in all;
      assert all == (done + [parts[0]]) + parts[1..];
      CleanedPart(rooted, all, parts[0]);
      if done != [] {
        assert all[|done| - 1] == done[|done| - 1];
      }
      assert Push(rooted, done, parts[0]) == done + [parts[0]];
      PushAllOfCleaned(rooted, done + [parts[0]], parts[1..]);
    }
  }

  lemma {:induction false} PushAllInTwo(rooted: bool, done: seq<string>, a: seq<string>, b: seq<string>)
    ensures PushAll(rooted, done, a + b) == PushAll(rooted, PushAll(rooted, done, a), b)
    decreases |a|
  {
    if a == [] {
      assert a + b == b;
    } else {
      assert (a + b)[0] == a[0] && (a + b)[1..] == a[1..] + b;
      PushAllInTwo(rooted, Push(rooted, done, a[0]), a[1..], b);
    }
  }

  lemma SplitHere(s: string, c: char)
    ensures var i := IndexOf(s, c); Split(s, c) == if i == |s| then [s] else [s[..i]] + Split(s[i + 1..], c)
  {
    hide IndexOf;
  }

  lemma {:induction false} SplitOfTwo(a: string, b: string, c: char)
    ensures Split(a + [c] + b, c) == Split(a, c) + Split(b, c)
    decreases |a|
  {
    hide Split, IndexOf;
    var s := a + [c] + b;
    var i := IndexOf(a, c);
    IndexOfTwo(a, b, c);
    SplitHere(s, c);
    SplitHere(a, c);
    if i == |a| {
      assert s[..i] == a && s[i + 1..] == b;
    } else {
      assert s[..i] == a[..i] && s[i + 1..] == a[i + 1..] + [c] + b;
      SplitOfTwo(a[i + 1..], b, c);
      assert [a[..i]] + (Split(a[i + 1..], c) + Split(b, c)) == [a[..i]] + Split(a[i + 1..], c) + Split(b, c);
    }
  }

  lemma IndexOfTwo(a: string, b: string, c: char)
    ensures IndexOf(a + [c] + b, c) == IndexOf(a, c)
  {
    var s, i := a + [c] + b, IndexOf(a, c);
    forall k | 0 <= k < i ensures s[..i][k] != c {
      assert s[k] == a[k];
    }
    IndexOfIs(s, c, i);
  }

  lemma SplitOfNothing(c: char)
    ensures Split("", c) == [""]
  {
    IndexOfIs("", c, 0);
  }

  /** Splitting a cleaned path's text leaves its components, with nothing but blanks beside them. */
  lemma SplitOfShown(p: Path)
    requires Cleaned(p.rooted, p.parts)
    ensures PushAll(p.rooted, [], Split(Show(p), '/')) == p.parts
    ensures Show(p) != "" && (HasPrefix(Show(p), "/") <==> p.rooted)
  {
    hide Split, Cleaned, Join;
    SplitOfJoined(p);
    if p.rooted {
      var j := Join(p.parts, '/');
      assert Show(p) == "" + ['/'] + j;
      SplitOfTwo("", j, '/');
      SplitOfNothing('/');
      assert ([""] + Split(j, '/'))[1..] == Split(j, '/');
    } else if p.parts == [] {
      SplitOfDot();
    } else {
      assert p.parts[0] in p.parts;
      CleanedPart(p.rooted, p.parts, p.parts[0]);
      JoinStarts(p.parts);
      assert p.parts[0][0] in p.parts[0];
    }
  }

  lemma SplitOfDot()
    ensures PushAll(false, [], Split(".", '/')) == [] && !HasPrefix(".", "/")
  {
    IndexOfIs(".", '/', 1);
    assert Split(".", '/') == ["."];
    assert ["."][1..] == [];
  }

  lemma SplitOfJoined(p: Path)
    requires Cleaned(p.rooted, p.parts)
    ensures PushAll(p.rooted, [], Split(Join(p.parts, '/'), '/')) == p.parts
  {
    if p.parts == [] {
      SplitOfNothing('/');
      assert [""][1..] == [];
    } else {
      forall q | q in p.parts ensures '/' !in q { CleanedPart(p.rooted, p.parts, q); }
      SplitOfJoin(p.parts, '/');
      assert [] + p.parts == p.parts;
      PushAllOfCleaned(p.rooted, [], p.parts);
    }
  }

  lemma JoinStarts(parts: seq<string>)
    requires parts != [] && parts[0] != ""
    ensures Join(parts, '/') != "" && Join(parts, '/')[0] == parts[0][0]
  {
  }

  /** Cleaning what was cleaned changes nothing. */
  lemma CleaningIsIdempotent(s: string)
    ensures Clean(Parse(CleanText(s))) == Clean(Parse(s)) && CleanText(CleanText(s)) == CleanText(s)
  {
    CleanIsClean(s);
    SplitOfShown(Clean(Parse(s)));
  }

  /** Joining goes on cleaning where the base left off. */
  lemma JoinParts(base: Path, modelRef: string)
    requires Cleaned(base.rooted, base.parts)
    ensures Clean(Parse(Show(base) + "/" + modelRef)) == Path(base.rooted, PushAll(base.rooted, base.parts, Split(modelRef, '/')))
  {
    SplitOfShown(base);
    SplitOfTwo(Show(base), modelRef, '/');
    assert Show(base) + "/" + modelRef == Show(base) + ['/'] + modelRef;
    assert (Show(base) + "/" + modelRef)[0] == Show(base)[0];
    PushAllInTwo(base.rooted, [], Split(Show(base), '/'), Split(modelRef, '/'));
  }

  /** The text of a relative path starts with ".." as its first component does. */
  lemma FirstUp(parts: seq<string>)
    requires parts != [] && forall p :: p in parts ==> '/' !in p
    ensures (Join(parts, '/') == ".." || HasPrefix(Join(parts, '/'), "../")) <==> parts[0] == ".."
    ensures Join(parts, '/') == "." <==> parts == ["."]
  {
    assert parts[0] in parts;
    if |parts| > 1 {
      FirstOfTwo(parts[0], Join(parts[1..], '/'));
    } else {
      assert parts == [parts[0]];
      NoSlashNoPrefix(parts[0]);
    }
  }

  lemma FirstOfTwo(p: string, rest: string)
    requires '/' !in p
    ensures var j := p + ['/'] + rest; (HasPrefix(j, "../") <==> p == "..") && j != ".." && j != "."
  {
    var j := p + ['/'] + rest;
    assert j[..|p|] == p && j[|p|] == '/' && '/' in j;
    IndexOfIs(j, '/', |p|);
    assert '/' !in ".." && '/' !in ".";
    if HasPrefix(j, "../") {
      assert j[..2] == j[..3][..2] == ".." && j[2] == j[..3][2] == '/';
      IndexOfIs(j, '/', 2);
    }
    if p == ".." {
      assert j[..3] == "../";
    }
  }

  lemma NoSlashNoPrefix(p: string)
    requires '/' !in p
    ensures !HasPrefix(p, "../")
  {
    assert |p| >= 3 ==> p[..3][2] == p[2] && p[2] in p && "../"[2] == '/';
  }

  // --- What is accepted ---

  /** The join has the root's components as a proper beginning, and does not go up right after. */
  predicate StrictlyInside(base: Path, dir: Path) {
    && dir.rooted == base.rooted
    && |base.parts| < |dir.parts|
    && dir.parts[..|base.parts|] == base.parts
    && dir.parts[|base.parts|] != ".."
  }

  function TargetParts(targ: Path): seq<string> {
    if !targ.rooted && targ.parts == [] then ["."] else targ.parts
  }

  predicate GoesDown(rel: Option<string>) {
    rel.Some? && rel.value != "." && rel.value != ".." && !HasPrefix(rel.value, "../")
  }

  lemma RelTells(base: Path, dir: Path)
    requires Cleaned(base.rooted, base.parts) && Cleaned(dir.rooted, dir.parts) && base.rooted == dir.rooted
    ensures GoesDown(Rel(base, dir)) <==> StrictlyInside(base, dir)
  {
    hide Cleaned, Join;
    if base != dir {
      var to := TargetParts(dir);
      var k := Common(base.parts, to);
      var parts := Ups(|base.parts| - k) + to[k..];
      forall q | q in base.parts ensures q != "." { CleanedPart(base.rooted, base.parts, q); }
      forall q | q in to ensures '/' !in q && (q == "." ==> to != dir.parts) {
        assert '/' !in ".";
        if to == dir.parts {
          CleanedPart(dir.rooted, dir.parts, q);
        }
      }
      if k < |base.parts| {
        assert !StrictlyInside(base, dir) by { LeavesBase(base, dir, k); }
        assert parts[0] == "..";
      } else {
        assert base.parts[..k] == base.parts && to[..k] == base.parts;
        assert to[..|to|] == to;
        assert base.parts != ["."] by { assert "." in ["."]; }
        assert to == dir.parts;
        assert parts == to[k..] && parts != [];
        assert parts[0] == to[k] && to[k] in to;
      }
      PartsHaveNoSlash(to, k, parts);
      FirstUp(parts);
    }
  }

  lemma LeavesBase(base: Path, dir: Path, k: nat)
    requires k == Common(base.parts, TargetParts(dir)) && k < |base.parts|
    ensures !StrictlyInside(base, dir)
  {
    assert |base.parts| < |dir.parts| ==> dir.parts[..|base.parts|][k] == dir.parts[k];
  }

  lemma PartsHaveNoSlash(to: seq<string>, k: nat, parts: seq<string>)
    requires k <= |to| && (forall q :: q in to ==> '/' !in q)
    requires forall p :: p in parts ==> p == ".." || p in to[k..]
    ensures forall p :: p in parts ==> '/' !in p
  {
    assert '/' !in "..";
    forall p | p in to[k..] ensures '/' !in p {
      assert p in to;
    }
  }

  /** A reference is accepted exactly when it is not empty, not absolute, and the cleaned join lies
      strictly inside the cleaned root; what is returned is that join. */
  lemma ResolvesIff(root: string, modelRef: string)
    ensures var base := Clean(Parse(root));
            var dir := Path(base.rooted, PushAll(base.rooted, base.parts, Split(modelRef, '/')));
            && (Resolve(root, modelRef).Some? <==> modelRef != "" && modelRef[0] != '/' && StrictlyInside(base, dir))
            && (Resolve(root, modelRef).Some? ==> Resolve(root, modelRef).value == Show(dir) && Clean(Parse(Show(dir))) == dir)
  {
    hide Clean, PushAll, Rel, Cleaned, StrictlyInside;
    var base := Clean(Parse(root));
    CleanIsClean(root);
    CleaningIsIdempotent(root);
    JoinParts(base, modelRef);
    var joined := CleanText(root) + "/" + modelRef;
    CleanIsClean(joined);
    CleaningIsIdempotent(joined);
    RelTells(base, Clean(Parse(joined)));
    assert modelRef != "" ==> (HasPrefix(modelRef, "/") <==> modelRef[0] == '/');
    assert Clean(Parse(root)).rooted == Parse(root).rooted && Clean(Parse(joined)).rooted == Parse(joined).rooted by {
      CleanKeepsRooted(Parse(root));
      CleanKeepsRooted(Parse(joined));
    }
  }

  lemma CleanKeepsRooted(p: Path)
    ensures Clean(p).rooted == p.rooted
  {
  }

  /** Under an absolute root the returned directory is below the root and nothing in it goes up. */
  lemma ResolvedIsBelowTheRoot(root: string, modelRef: string)
    requires HasPrefix(root, "/") && Resolve(root, modelRef).Some?
    ensures var base, dir := Clean(Parse(root)).parts, Clean(Parse(Resolve(root, modelRef).value)).parts;
            |base| < |dir| && dir[..|base|] == base && (forall i :: 0 <= i < |dir| ==> Plain(dir[i]))
  {
    ResolvesIff(root, modelRef);
    CleanIsClean(Resolve(root, modelRef).value);
  }

  /** A reference of plain names always resolves, to those names below the root. */
  lemma PlainRefResolves(root: string, names: seq<string>)
    requires names != [] && forall n :: n in names ==> Plain(n)
    ensures var base := Clean(Parse(root));
            Resolve(root, Join(names, '/')) == Some(Show(Path(base.rooted, base.parts + names)))
  {
    var base := Clean(Parse(root));
    CleanIsClean(root);
    SplitOfJoin(names, '/');
    PushPlain(base.rooted, base.parts, names);
    assert names[0] in names;
    JoinStarts(names);
    assert names[0][0] in names[0];
    ResolvesIff(root, Join(names, '/'));
    assert (base.parts + names)[..|base.parts|] == base.parts && (base.parts + names)[|base.parts|] == names[0];
  }

  lemma {:induction false} PushPlain(rooted: bool, done: seq<string>, names: seq<string>)
    requires forall n :: n in names ==> Plain(n)
    ensures PushAll(rooted, done, names) == done + names
    decreases |names|
  {
    if names == [] {
      assert done + names == done;
    } else {
      assert names[0] in names;
      PushPlain(rooted, done + [names[0]], names[1..]);
      assert (done + [names[0]]) + names[1..] == done + names;
    }
  }

  /** A reference that leaves the root and comes back is accepted all the same. */
  lemma LeavingAndReturningResolves(root: string, name: string)
    requires HasPrefix(root, "/") && Clean(Parse(root)).parts != [] && Plain(name)
    ensures var base := Clean(Parse(root)).parts;
            Resolve(root, Join(["..", base[|base| - 1], name], '/')) == Some(Show(Path(true, base + [name])))
  {
    var p := Clean(Parse(root));
    var base := p.parts;
    var last := base[|base| - 1];
    CleanIsClean(root);
    var names := ["..", last, name];
    assert '/' !in "..";
    assert last in base;
    SplitOfJoin(names, '/');
    assert names[1..] == [last, name] && names[1..][1..] == [name] && [name][1..] == [];
    assert Plain(last) && base == base[..|base| - 1] + [last];
    assert PushAll(true, base, names) == PushAll(true, base[..|base| - 1], names[1..]) == PushAll(true, base, [name]) == base + [name];
    JoinStarts(names);
    ResolvesIff(root, Join(names, '/'));
    assert (base + [name])[..|base|] == base;
  }
}
