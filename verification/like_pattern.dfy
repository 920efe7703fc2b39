/** SQL's LIKE with a backslash as escape character, and text made to match itself in it. */
module LikePattern {
  import opened Text

  predicate Like(s: string, pattern: string)
    decreases |pattern|
  {
    if pattern == "" then s == ""
    else if pattern[0] == '%' then exists k :: 0 <= k <= |s| && Like(s[k..], pattern[1..])
    else if pattern[0] == '_' then s != "" && Like(s[1..], pattern[1..])
    else if pattern[0] == '\\' then |pattern| >= 2 && s != "" && s[0] == pattern[1] && Like(s[1..], pattern[2..])
    else s != "" && s[0] == pattern[0] && Like(s[1..], pattern[1..])
  }

  function Escape(s: string): string {
    if s == "" then ""
    else (if s[0] in {'\\', '%', '_'} then ['\\', s[0]] else [s[0]]) + Escape(s[1..])
  }

  lemma AnythingMatchesPercent(s: string)
    ensures Like(s, "%")
  {
    assert s[|s|..] == "" && "%"[1..] == "";
    assert Like(s[|s|..], "%"[1..]);
  }

  /** Escaped text followed by % matches exactly what starts with the text, wildcards and all. */
  lemma {:induction false} EscapedPrefixIsLiteral(s: string, prefix: string)
    ensures Like(s, Escape(prefix) + "%") <==> HasPrefix(s, prefix)
  {
    if prefix == "" {
      assert Escape(prefix) + "%" == "%";
      AnythingMatchesPercent(s);
    } else {
      var c, rest := prefix[0], Escape(prefix[1..]) + "%";
      var pattern := Escape(prefix) + "%";
      if c in {'\\', '%', '_'} {
        assert pattern == ['\\', c] + rest;
        assert pattern[2..] == rest;
      } else {
        assert pattern == [c] + rest;
        assert pattern[1..] == rest;
      }
      if s != "" {
        EscapedPrefixIsLiteral(s[1..], prefix[1..]);
        assert prefix == [c] + prefix[1..] && s == [s[0]] + s[1..];
        assert |prefix| <= |s| ==> s[..|prefix|] == [s[0]] + s[1..][..|prefix| - 1];
      }
    }
  }
}
