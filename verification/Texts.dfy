/** Spaces around texts. */
module Texts {
  predicate IsSpace(c: char) {
    c in {'\t', '\n', '\U{B}', '\U{C}', '\r', ' ', '\U{85}', '\U{A0}', '\U{1680}',
          '\U{2028}', '\U{2029}', '\U{202F}', '\U{205F}', '\U{3000}'}
    || '\U{2000}' <= c <= '\U{200A}'
  }

  predicate IsBlank(s: string) {
    forall c | c in s :: IsSpace(c)
  }

  function TrimLeft(s: string): string {
    if s != [] && IsSpace(s[0]) then TrimLeft(s[1..]) else s
  }

  function TrimRight(s: string): string {
    if s != [] && IsSpace(s[|s| - 1]) then TrimRight(s[..|s| - 1]) else s
  }

  function TrimSpace(s: string): string {
    TrimRight(TrimLeft(s))
  }

  lemma {:induction false} LeftIsSuffix(s: string)
    ensures var t := TrimLeft(s);
            |t| <= |s| && t == s[|s| - |t|..] && IsBlank(s[..|s| - |t|]) && (t != [] ==> !IsSpace(t[0]))
  {
    if s != [] && IsSpace(s[0]) {
      LeftIsSuffix(s[1..]);
      var n := |s| - |TrimLeft(s)|;
      assert s[..n] == [s[0]] + s[1..][..n - 1];
      assert s[n..] == s[1..][n - 1..];
    }
    hide IsSpace;
  }

  lemma {:induction false} RightIsPrefix(s: string)
    ensures var t := TrimRight(s);
            |t| <= |s| && t == s[..|t|] && IsBlank(s[|t|..]) && (t != [] ==> !IsSpace(t[|t| - 1]))
  {
    if s != [] && IsSpace(s[|s| - 1]) {
      var front := s[..|s| - 1];
      RightIsPrefix(front);
      var n := |TrimRight(s)|;
      assert s[n..] == front[n..] + [s[|s| - 1]];
      assert s[..n] == front[..n];
    }
    hide IsSpace;
  }

  /** Trimming takes off the spaces at both ends, and nothing else. */
  lemma TrimmingIsExact(s: string) returns (left: string, right: string)
    ensures s == left + TrimSpace(s) + right && IsBlank(left) && IsBlank(right)
    ensures var t := TrimSpace(s); t != "" ==> !IsSpace(t[0]) && !IsSpace(t[|t| - 1])
  {
    var t := TrimLeft(s);
    LeftIsSuffix(s);
    RightIsPrefix(t);
    left, right := s[..|s| - |t|], t[|TrimRight(t)|..];
    assert s == left + t && t == TrimRight(t) + right;
    hide IsSpace, TrimLeft, TrimRight;
  }

  /** Only what is blank is trimmed away. */
  lemma BlankIsTrimmedAway(s: string)
    ensures TrimSpace(s) == "" <==> IsBlank(s)
  {
    var left, right := TrimmingIsExact(s);
    var t := TrimSpace(s);
    if t != "" {
      assert t[0] in s;
    }
    hide IsSpace, TrimSpace;
  }
}
