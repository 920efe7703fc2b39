/** Text operations several modules share. Text is a sequence of bytes-as-characters. */
module Text {

  function LowerChar(c: char): char {
    if 'A' <= c <= 'Z' then (c as int + 32) as char else c
  }

  function Lower(s: string): (l: string)
    ensures |l| == |s|
  {
    seq(|s|, i requires 0 <= i < |s| => LowerChar(s[i]))
  }

  lemma LowerIsIdempotent(s: string)
    ensures Lower(Lower(s)) == Lower(s)
  {
  }

  predicate HasPrefix(s: string, p: string) {
    |p| <= |s| && s[..|p|] == p
  }

  predicate HasSuffix(s: string, p: string) {
    |p| <= |s| && s[|s| - |p|..] == p
  }

  predicate OccursAt(s: string, i: nat, sub: string) {
    i + |sub| <= |s| && s[i..i + |sub|] == sub
  }

  predicate Contains(s: string, sub: string) {
    exists i :: 0 <= i <= |s| && OccursAt(s, i, sub)
  }

  lemma OccursSplit(s: string, i: nat, a: string, b: string)
    requires OccursAt(s, i, a + b)
    ensures OccursAt(s, i, a) && OccursAt(s, i + |a|, b)
  {
    var whole := s[i..i + |a + b|];
    assert whole[..|a|] == a && whole[|a|..] == b;
    SliceOfSlice(s, i, i + |a + b|, 0, |a|);
    SliceOfSlice(s, i, i + |a + b|, |a|, |a| + |b|);
    assert whole[..|a|] == whole[0..|a|] && whole[|a|..] == whole[|a|..|a| + |b|];
  }

  lemma SliceOfSlice(s: string, a: nat, b: nat, c: nat, d: nat)
    requires a <= b <= |s| && c <= d <= b - a
    ensures s[a..b][c..d] == s[a + c..a + d]
  {
    var mid := s[a..b];
    assert forall i :: 0 <= i < |mid| ==> mid[i] == s[a + i];
    assert mid[c..d] == s[a + c..a + d];
  }

  // --- Splitting at a separator, and joining back ---

  function IndexOf(s: string, c: char): (i: nat)
    ensures i <= |s| && (forall k :: 0 <= k < i ==> s[k] != c) && (i < |s| ==> s[i] == c)
  {
    if s == "" || s[0] == c then 0 else IndexOf(s[1..], c) + 1
  }

  lemma IndexOfIs(s: string, c: char, i: nat)
    requires i <= |s| && c !in s[..i] && (i < |s| ==> s[i] == c)
    ensures IndexOf(s, c) == i
  {
    assert forall k :: 0 <= k < i ==> s[k] == s[..i][k];
  }

  lemma CutAt(a: string, c: char, b: string)
    requires c !in a && b != "" && b[0] == c
    ensures IndexOf(a + b, c) == |a| && (a + b)[..|a|] == a && (a + b)[|a|..] == b
  {
    assert (a + b)[..|a|] == a;
    IndexOfIs(a + b, c, |a|);
  }

  lemma DropPrefix(p: string, rest: string)
    ensures HasPrefix(p + rest, p) && (p + rest)[|p|..] == rest
  {
  }

  function Split(s: string, c: char): (parts: seq<string>)
    ensures parts != []
    decreases |s|
  {
    var i := IndexOf(s, c);
    if i == |s| then [s] else [s[..i]] + Split(s[i + 1..], c)
  }

  function Join(parts: seq<string>, c: char): string {
    if parts == [] then ""
    else if |parts| == 1 then parts[0]
    else parts[0] + [c] + Join(parts[1..], c)
  }

  lemma {:induction false} SplitOfJoin(parts: seq<string>, c: char)
    requires parts != [] && forall p :: p in parts ==> c !in p
    ensures Split(Join(parts, c), c) == parts
  {
    var s := Join(parts, c);
    if |parts| == 1 {
      assert s[..|s|] == s;
      IndexOfIs(s, c, |s|);
    } else {
      assert s[..|parts[0]|] == parts[0] && s[|parts[0]|] == c;
      IndexOfIs(s, c, |parts[0]|);
      assert s[|parts[0]| + 1..] == Join(parts[1..], c);
      SplitOfJoin(parts[1..], c);
    }
  }

  lemma {:induction false} SplitHasNoSeparator(s: string, c: char)
    ensures forall p :: p in Split(s, c) ==> c !in p
    decreases |s|
  {
    var i := IndexOf(s, c);
    if i < |s| {
      SplitHasNoSeparator(s[i + 1..], c);
    } else {
      assert s[..i] == s;
    }
  }
}
