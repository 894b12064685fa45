/** Splitting text at the first occurrence of a separator. */
module Text {
  function FirstOf(s: string, c: char): nat {
    if s == "" || s[0] == c then 0 else 1 + FirstOf(s[1..], c)
  }

  lemma {:induction false} FirstOfAt(a: string, c: char, b: string)
    requires c !in a
    ensures FirstOf(a + [c] + b, c) == |a|
  {
    if a != "" {
      assert a[0] in a && (a + [c] + b)[1..] == a[1..] + [c] + b;
      FirstOfAt(a[1..], c, b);
    }
  }

  /** A joined text splits in one way at its first separator. */
  lemma SplitAt(a: string, b: string, d: string, e: string, c: char)
    requires c !in a && c !in d && a + [c] + b == d + [c] + e
    ensures a == d && b == e
  {
    FirstOfAt(a, c, b);
    FirstOfAt(d, c, e);
    assert a == (a + [c] + b)[..|a|] && d == (d + [c] + e)[..|d|];
    assert b == (a + [c] + b)[|a| + 1..] && e == (d + [c] + e)[|d| + 1..];
  }

  lemma DropPrefix(a: string, b: string, c: string)
    requires a + b == a + c
    ensures b == c
  {
    assert b == (a + b)[|a|..] && c == (a + c)[|a|..];
  }
}
