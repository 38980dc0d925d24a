/** Texts tried, texts waiting behind them, and the texts accepted: when do they agree in order? */
module Overtaking {
  lemma CommonPrefix(a: seq<string>, b: seq<string>, c: seq<string>)
    ensures a + b == a + c <==> b == c
  {
    assert (a + b)[|a|..] == b && (a + c)[|a|..] == c;
  }

  lemma {:induction false} Rotation(s: seq<string>, x: string)
    ensures [x] + s == s + [x] <==> forall k | 0 <= k < |s| :: s[k] == x
  {
    if [x] + s == s + [x] && s != [] {
      assert s[0] == ([x] + s)[0];
      var t := s[1..];
      assert s == [x] + t;
      assert [x] + t == ([x] + s)[1..] == (s + [x])[1..] == t + [x];
      Rotation(t, x);
      forall k | 0 <= k < |s| ensures s[k] == x { if k > 0 { assert s[k] == t[k - 1]; } }
    } else if forall k | 0 <= k < |s| :: s[k] == x {
      forall k | 0 <= k < |s| + 1 ensures ([x] + s)[k] == (s + [x])[k] { }
    }
  }

  predicate Distinct(s: seq<string>) {
    forall i, j | 0 <= i < j < |s| :: s[i] != s[j]
  }

  lemma DistinctPrefix(s: seq<string>, t: string)
    requires Distinct(s + [t])
    ensures Distinct(s)
  {
    forall i, j | 0 <= i < j < |s| ensures s[i] != s[j] { assert (s + [t])[i] == s[i] && (s + [t])[j] == s[j]; }
  }

  lemma SameBehind(a: seq<string>, b: seq<string>, t: string)
    ensures a + [t] == b + [t] <==> a == b
  {
    assert (a + [t])[..|a|] == a && (b + [t])[..|b|] == b;
    assert a + [t] == b + [t] ==> |a| == |b|;
  }

  // The text goes behind the waiting ones.
  lemma Queued(tried: seq<string>, waiting: seq<string>, accepted: seq<string>, t: string)
    ensures tried + (waiting + [t]) == accepted + [t] <==> tried + waiting == accepted
    ensures multiset(tried) + multiset(waiting) == multiset(accepted) ==>
              multiset(tried) + multiset(waiting + [t]) == multiset(accepted + [t])
  {
    assert tried + (waiting + [t]) == tried + waiting + [t];
    SameBehind(tried + waiting, accepted, t);
  }

  // The text is tried at once: past the waiting ones, if there are any.
  lemma TriedAtOnce(tried: seq<string>, waiting: seq<string>, accepted: seq<string>, t: string)
    ensures waiting == [] ==> (tried + [t] + waiting == accepted + [t] <==> tried + waiting == accepted)
    ensures waiting != [] && Distinct(accepted + [t]) ==> tried + [t] + waiting != accepted + [t]
    ensures multiset(tried) + multiset(waiting) == multiset(accepted) ==>
              multiset(tried + [t]) + multiset(waiting) == multiset(accepted + [t])
  {
    if waiting == [] {
      assert tried + [t] + waiting == tried + [t] && tried + waiting == tried;
      SameBehind(tried, accepted, t);
    } else if tried + [t] + waiting == accepted + [t] {
      var all := accepted + [t];
      assert all[|tried|] == (tried + [t] + waiting)[|tried|] == t && all[|accepted|] == t;
      assert |tried| < |accepted|;
    }
  }

  // The first waiting text is tried.
  lemma FirstTried(tried: seq<string>, waiting: seq<string>)
    requires waiting != []
    ensures tried + [waiting[0]] + waiting[1..] == tried + waiting
    ensures multiset(tried + [waiting[0]]) + multiset(waiting[1..]) == multiset(tried) + multiset(waiting)
  {
    assert waiting == [waiting[0]] + waiting[1..];
  }
}
