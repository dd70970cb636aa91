/** Texts glued together with a separator, and taking them apart again. */
module Joined {
  import opened Common

  predicate ColonFree(s: string) {
    ':' !in s
  }

  /** `s.split(sep, 1)`; `None` when there is no separator. */
  function SplitOnce(s: string, sep: char): Option<(string, string)> {
    if s == "" then None
    else if s[0] == sep then Some(("", s[1..]))
    else
      var rest := SplitOnce(s[1..], sep);
      if rest.Some? then Some(([s[0]] + rest.value.0, rest.value.1)) else None
  }

  /** The split is at the first separator, whatever follows it. */
  lemma {:induction false} SplitOnceJoined(a: string, x: string, sep: char)
    requires sep !in a
    ensures SplitOnce(a + [sep] + x, sep) == Some((a, x))
  {
    var s := a + [sep] + x;
    if a == "" {
      assert s[1..] == x;
    } else {
      assert s[1..] == a[1..] + [sep] + x;
      SplitOnceJoined(a[1..], x, sep);
      assert [a[0]] + a[1..] == a;
    }
  }

  /** With no separator on the left, a joined pair can be taken apart at its first one. */
  lemma SplitAtFirst(a: string, x: string, b: string, y: string)
    requires ColonFree(a) && ColonFree(b) && a + ":" + x == b + ":" + y
    ensures a == b && x == y
  {
    SplitOnceJoined(a, x, ':');
    SplitOnceJoined(b, y, ':');
  }

  /** With none on the right, at its last one. */
  lemma SplitAtLast(a: string, x: string, b: string, y: string)
    requires ColonFree(x) && ColonFree(y) && a + ":" + x == b + ":" + y
    ensures a == b && x == y
  {
    var s := a + ":" + x;
    assert s[|a|] == ':' && s[|b|] == ':';
    assert forall i :: |a| < i < |s| ==> s[i] == x[i - |a| - 1];
    assert forall i :: |b| < i < |s| ==> s[i] == y[i - |b| - 1];
    assert a == s[..|a|] && b == s[..|b|];
    assert x == s[|a| + 1..] && y == s[|b| + 1..];
  }
}
