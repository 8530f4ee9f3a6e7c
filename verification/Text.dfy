/** The parts of Go's strings package the models share. */
module Text {

  /** White space as Unicode, and Go, define it. */
  predicate IsSpace(c: char) {
    || '\t' <= c <= '\r' || c == ' ' || c == '\U{0085}' || c == '\U{00A0}' || c == '\U{1680}'
    || '\U{2000}' <= c <= '\U{200A}' || c == '\U{2028}' || c == '\U{2029}' || c == '\U{202F}'
    || c == '\U{205F}' || c == '\U{3000}'
  }

  predicate IsBlank(s: string) {
    forall c | c in s :: IsSpace(c)
  }

  function TrimLeft(s: string): string {
    if s != "" && IsSpace(s[0]) then TrimLeft(s[1..]) else s
  }

  function TrimRight(s: string): string {
    if s != "" && IsSpace(s[|s| - 1]) then TrimRight(s[..|s| - 1]) else s
  }

  function TrimSpace(s: string): string {
    TrimRight(TrimLeft(s))
  }

  predicate Trimmed(s: string) {
    s == "" || (!IsSpace(s[0]) && !IsSpace(s[|s| - 1]))
  }

  /** What is left is trimmed, and only white space went. */
  lemma {:induction false} TrimLeftCuts(s: string) returns (left: string)
    ensures IsBlank(left) && s == left + TrimLeft(s)
    ensures TrimLeft(s) != "" ==> !IsSpace(TrimLeft(s)[0])
  {
    if s != "" && IsSpace(s[0]) {
      var rest := TrimLeftCuts(s[1..]);
      left := [s[0]] + rest;
      assert s == [s[0]] + s[1..];
    } else {
      left := "";
    }
  }

  lemma {:induction false} TrimRightCuts(s: string) returns (right: string)
    ensures IsBlank(right) && s == TrimRight(s) + right
    ensures TrimRight(s) != "" ==> !IsSpace(TrimRight(s)[|TrimRight(s)| - 1])
  {
    if s != "" && IsSpace(s[|s| - 1]) {
      var rest := TrimRightCuts(s[..|s| - 1]);
      right := rest + [s[|s| - 1]];
      assert s == s[..|s| - 1] + [s[|s| - 1]];
    } else {
      right := "";
    }
  }

  lemma TrimSpaceCuts(s: string) returns (left: string, right: string)
    ensures IsBlank(left) && IsBlank(right) && s == left + TrimSpace(s) + right && Trimmed(TrimSpace(s))
  {
    left := TrimLeftCuts(s);
    right := TrimRightCuts(TrimLeft(s));
    var t, u := TrimLeft(s), TrimSpace(s);
    assert u != "" ==> u[0] == t[0];
  }

  lemma TrimsToNothing(s: string)
    ensures TrimSpace(s) == "" <==> IsBlank(s)
  {
    var left, right := TrimSpaceCuts(s);
    var u := TrimSpace(s);
    if u != "" {
      assert s[|left|] == u[0];
    }
  }

  /** Where `c` first occurs in `s`; the length of `s` when it does not. */
  function IndexOf(s: string, c: char): (i: nat)
    ensures i <= |s| && c !in s[..i] && (i < |s| ==> s[i] == c)
  {
    if s == "" || s[0] == c then 0
    else
      var i := 1 + IndexOf(s[1..], c);
      assert s[..i] == [s[0]] + s[1..][..i - 1];
      i
  }

  /** A string splits in one way only at the first occurrence of a character. */
  lemma SplitUnique(c: char, a: string, b: string, x: string, y: string)
    requires c !in a && c !in x && a + [c] + b == x + [c] + y
    ensures a == x && b == y
  {
    var p := a + [c] + b;
    assert p == x + [c] + y;
    assert p[|a|] == c && p[|x|] == c;
    assert forall i | 0 <= i < |a| :: p[i] == a[i];
    assert forall i | 0 <= i < |x| :: p[i] == x[i];
    assert p[..|a|] == a && p[..|x|] == x;
    assert p[|a| + 1..] == b && p[|x| + 1..] == y;
  }
}
