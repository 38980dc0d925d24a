/** One sequence among another, in order: what is left after leaving some elements out. */
module Subsequence {

  ghost predicate Among<T>(s: seq<T>, t: seq<T>)
    decreases |t|
  {
    || s == []
    || (t != [] &&
        ((s[|s| - 1] == t[|t| - 1] && Among(s[..|s| - 1], t[..|t| - 1])) || Among(s, t[..|t| - 1])))
  }

  lemma {:induction false} AmongMore<T>(s: seq<T>, t: seq<T>, more: seq<T>)
    requires Among(s, t)
    ensures Among(s, t + more)
    decreases |more|
  {
    if more == [] {
      assert t + more == t;
    } else {
      var n := |more| - 1;
      AmongMore(s, t, more[..n]);
      assert (t + more)[..|t + more| - 1] == t + more[..n];
    }
  }

  lemma {:induction false} AmongConcat<T>(a: seq<T>, b: seq<T>, c: seq<T>, d: seq<T>)
    requires Among(a, b) && Among(c, d)
    ensures Among(a + c, b + d)
    decreases |d|
  {
    if c == [] {
      assert a + c == a;
      AmongMore(a, b, d);
    } else {
      var m, n := |c| - 1, |d| - 1;
      assert (b + d)[..|b + d| - 1] == b + d[..n] && (a + c)[..|a + c| - 1] == a + c[..m];
      if c[m] == d[n] && Among(c[..m], d[..n]) {
        AmongConcat(a, b, c[..m], d[..n]);
      } else {
        AmongConcat(a, b, c, d[..n]);
      }
    }
  }

  lemma AmongItself<T>(s: seq<T>)
    ensures Among(s, s)
  {
    if s != [] { AmongItself(s[..|s| - 1]); }
  }

  lemma InsertedBetween<T>(a: seq<T>, b: seq<T>, between: seq<T>, c: seq<T>, d: seq<T>)
    requires Among(a, b) && Among(c, d)
    ensures Among(a + c, b + between + d)
  {
    AmongMore(a, b, between);
    AmongConcat(a, b + between, c, d);
  }

  lemma AmongOneMore<T>(s: seq<T>, t: seq<T>, x: T)
    requires Among(s, t)
    ensures Among(s, t + [x]) && Among(s + [x], t + [x])
  {
    AmongMore(s, t, [x]);
    assert (s + [x])[..|s|] == s && (t + [x])[..|t|] == t;
  }
}
