/** Two texts joined by a separator, and what follows when two such joints are the same text. */
module Joining {

  function Join(head: string, sep: char, tail: string): string {
    head + [sep] + tail
  }

  lemma SameHead(h1: string, t1: string, h2: string, t2: string, sep: char)
    requires Join(h1, sep, t1) == Join(h2, sep, t2) && |h1| == |h2|
    ensures h1 == h2 && t1 == t2
  {
    var s := Join(h1, sep, t1);
    assert s[..|h1|] == h1 && s[..|h2|] == h2;
    assert s[|h1| + 1..] == t1 && s[|h2| + 1..] == t2;
  }

  /** The longer head goes on behind the shorter one with the separator and a middle part. */
  lemma LongerHead(h1: string, t1: string, h2: string, t2: string, sep: char) returns (mid: string)
    requires Join(h1, sep, t1) == Join(h2, sep, t2) && |h1| < |h2|
    ensures h2 == Join(h1, sep, mid) && t1 == Join(mid, sep, t2)
    ensures h2[|h1|] == sep && |mid| < |t1| && t1[|mid|] == sep
  {
    mid := h2[|h1| + 1..];
    var s := Join(h1, sep, t1);
    forall i | 0 <= i < |h2| ensures s[i] == h2[i] {}
    assert h2[..|h1|] == h1 && h2[|h1|] == sep;
    assert h2 == Join(h1, sep, mid);
    JoinRegroup(h1, mid, t2, sep);
    SameHead(h1, t1, h1, Join(mid, sep, t2), sep);
  }

  lemma JoinRegroup(a: string, b: string, c: string, sep: char)
    ensures Join(Join(a, sep, b), sep, c) == Join(a, sep, Join(b, sep, c))
  {
  }

  lemma JoinTail(a: string, b: string, c: string, sep: char)
    ensures Join(a, sep, b + c) == Join(a, sep, b) + c
  {
  }

  lemma CutTail(a: string, b: string, tail: string)
    requires a + tail == b + tail
    ensures a == b
  {
    assert (a + tail)[..|a|] == a && (b + tail)[..|b|] == b;
  }
}
