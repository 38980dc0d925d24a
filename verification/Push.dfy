/** Choosing the few steps of one cycle that are pushed to the chat. */
module Push {
  import opened Supervisor

  const MAX_PUSH_PER_CYCLE: nat := 5

  // Where a thread first appears.
  function FirstSeen(steps: seq<MajorStep>, thread: string): (p: nat)
    ensures p <= |steps|
    ensures p < |steps| ==> steps[p].thread == thread
    ensures forall q | 0 <= q < p :: steps[q].thread != thread
    decreases |steps|
  {
    if steps == [] then 0
    else
      var n := |steps| - 1;
      var p := FirstSeen(steps[..n], thread);
      if p == n && steps[n].thread != thread then n + 1 else p
  }

  // Does step p stand for its thread rather than step q?
  predicate Preferred(steps: seq<MajorStep>, p: nat, q: nat)
    requires p < |steps| && q < |steps|
  {
    steps[q].thread == steps[p].thread ==>
      (steps[q].severity <= steps[p].severity && (q < p ==> steps[q].severity < steps[p].severity))
  }

  // Is step p the earliest, among the first n, of the highest severity its thread has there?
  predicate Highest(steps: seq<MajorStep>, n: nat, p: nat)
    requires n <= |steps|
  {
    p < n && forall q: nat | q < n :: Preferred(steps, p, q)
  }

  // Higher severity first; at equal severity, the thread seen first.
  predicate Outranks(steps: seq<MajorStep>, a: MajorStep, b: MajorStep) {
    a.severity > b.severity || (a.severity == b.severity && FirstSeen(steps, a.thread) < FirstSeen(steps, b.thread))
  }

  predicate Ranked(steps: seq<MajorStep>, chosen: seq<MajorStep>) {
    forall i, j | 0 <= i < j < |chosen| :: Outranks(steps, chosen[i], chosen[j])
  }

  // Is s such a step?
  ghost predicate HighestAmong(steps: seq<MajorStep>, n: nat, s: MajorStep)
    requires n <= |steps|
  {
    exists p: nat :: Highest(steps, n, p) && steps[p] == s
  }

  ghost predicate IsHighest(steps: seq<MajorStep>, s: MajorStep) {
    HighestAmong(steps, |steps|, s)
  }

  // What a push must hold: the highest step of each of the top threads.
  ghost predicate IsCoalesced(steps: seq<MajorStep>, chosen: seq<MajorStep>) {
    && |chosen| <= 5
    && (forall s | s in chosen :: IsHighest(steps, s))
    && Ranked(steps, chosen)
    && (forall s | IsHighest(steps, s) && s !in chosen ::
          |chosen| == 5 && forall c | c in chosen :: Outranks(steps, c, s))
  }

  // ---------- There is only one such push ----------

  lemma OneHighestPerThread(steps: seq<MajorStep>, a: MajorStep, b: MajorStep)
    requires IsHighest(steps, a) && IsHighest(steps, b) && a.thread == b.thread
    ensures a == b
  {
    var p: nat :| Highest(steps, |steps|, p) && steps[p] == a;
    var q: nat :| Highest(steps, |steps|, q) && steps[q] == b;
    assert Preferred(steps, p, q) && Preferred(steps, q, p);
  }

  // No thread is chosen twice.
  lemma ChosenThreadsDiffer(steps: seq<MajorStep>, chosen: seq<MajorStep>)
    requires IsCoalesced(steps, chosen)
    ensures forall i, j | 0 <= i < j < |chosen| :: chosen[i].thread != chosen[j].thread
  {
    forall i, j | 0 <= i < j < |chosen| ensures chosen[i].thread != chosen[j].thread {
      assert Outranks(steps, chosen[i], chosen[j]);
      if chosen[i].thread == chosen[j].thread {
        OneHighestPerThread(steps, chosen[i], chosen[j]);
      }
    }
  }

  // What stands at place k of one push cannot stand behind place k of another.
  lemma NotBehind(steps: seq<MajorStep>, a: seq<MajorStep>, b: seq<MajorStep>, k: nat)
    requires IsCoalesced(steps, a) && IsCoalesced(steps, b)
    requires k < |a| && k < |b| && a[..k] == b[..k] && a[k] != b[k]
    ensures Outranks(steps, a[k], b[k])
  {
    assert a[k] in a && b[k] in b;
    forall t | 0 <= t < k ensures a[t] != b[k] {
      assert a[t] == a[..k][t] == b[t];
      assert Outranks(steps, b[t], b[k]);
    }
    if b[k] in a {
      var j :| 0 <= j < |a| && a[j] == b[k];
      assert Outranks(steps, a[k], a[j]);
    }
  }

  lemma {:induction false} SameUpTo(steps: seq<MajorStep>, a: seq<MajorStep>, b: seq<MajorStep>, k: nat)
    requires IsCoalesced(steps, a) && IsCoalesced(steps, b) && k <= |a| && k <= |b|
    ensures a[..k] == b[..k]
  {
    if k > 0 {
      SameUpTo(steps, a, b, k - 1);
      if a[k - 1] != b[k - 1] {
        NotBehind(steps, a, b, k - 1);
        NotBehind(steps, b, a, k - 1);
      }
      assert a[..k] == a[..k - 1] + [a[k - 1]] && b[..k] == b[..k - 1] + [b[k - 1]];
    }
  }

  lemma NotShorter(steps: seq<MajorStep>, a: seq<MajorStep>, b: seq<MajorStep>)
    requires IsCoalesced(steps, a) && IsCoalesced(steps, b)
    ensures |a| <= |b|
  {
    if |b| < |a| {
      SameUpTo(steps, a, b, |b|);
      var extra := a[|b|];
      assert extra in a;
      forall j | 0 <= j < |b| ensures b[j] != extra {
        assert a[j] == a[..|b|][j] == b[j];
        assert Outranks(steps, a[j], extra);
      }
    }
  }

  // The description leaves no choice: it names one push for every list of steps.
  lemma PushIsUnique(steps: seq<MajorStep>, a: seq<MajorStep>, b: seq<MajorStep>)
    requires IsCoalesced(steps, a) && IsCoalesced(steps, b)
    ensures a == b
  {
    NotShorter(steps, a, b);
    NotShorter(steps, b, a);
    SameUpTo(steps, a, b, |a|);
    assert a[..|a|] == a && b[..|a|] == b;
  }

  // ---------- sorted(..., reverse=True) ----------

  // Puts x behind everything at least as severe.
  function Insert(x: MajorStep, sorted: seq<MajorStep>): seq<MajorStep> {
    if sorted == [] then [x]
    else
      var n := |sorted| - 1;
      if sorted[n].severity >= x.severity then sorted + [x] else Insert(x, sorted[..n]) + [sorted[n]]
  }

  function Sorted(s: seq<MajorStep>): seq<MajorStep> {
    if s == [] then []
    else
      var n := |s| - 1;
      Insert(s[n], Sorted(s[..n]))
  }

  lemma {:induction false} InsertKeepsRank(steps: seq<MajorStep>, x: MajorStep, sorted: seq<MajorStep>)
    requires Ranked(steps, sorted)
    requires forall s | s in sorted :: FirstSeen(steps, s.thread) < FirstSeen(steps, x.thread)
    ensures Ranked(steps, Insert(x, sorted))
    ensures forall s :: s in Insert(x, sorted) <==> s == x || s in sorted
    ensures |Insert(x, sorted)| == |sorted| + 1
    decreases |sorted|
  {
    if sorted != [] {
      var n := |sorted| - 1;
      assert sorted == sorted[..n] + [sorted[n]];
      if sorted[n].severity >= x.severity {
        forall i | 0 <= i < n ensures sorted[i].severity >= x.severity {
          assert Outranks(steps, sorted[i], sorted[n]);
        }
      } else {
        InsertKeepsRank(steps, x, sorted[..n]);
        var front := Insert(x, sorted[..n]);
        forall i | 0 <= i < |front| ensures Outranks(steps, front[i], sorted[n]) {
          assert front[i] in front;
        }
      }
    }
  }

  predicate InFirstSeenOrder(steps: seq<MajorStep>, best: seq<MajorStep>) {
    forall a, b | 0 <= a < b < |best| :: FirstSeen(steps, best[a].thread) < FirstSeen(steps, best[b].thread)
  }

  lemma {:induction false} SortedIsRanked(steps: seq<MajorStep>, best: seq<MajorStep>)
    requires InFirstSeenOrder(steps, best)
    ensures Ranked(steps, Sorted(best)) && |Sorted(best)| == |best|
    ensures forall s :: s in Sorted(best) <==> s in best
    decreases |best|
  {
    if best != [] {
      var n := |best| - 1;
      SortedIsRanked(steps, best[..n]);
      assert best == best[..n] + [best[n]];
      InsertKeepsRank(steps, best[n], Sorted(best[..n]));
    }
  }

  lemma {:induction false} RankedIsSorted(steps: seq<MajorStep>, chosen: seq<MajorStep>)
    requires Ranked(steps, chosen)
    ensures Sorted(chosen) == chosen
    decreases |chosen|
  {
    if chosen != [] {
      var n := |chosen| - 1;
      RankedIsSorted(steps, chosen[..n]);
      if n > 0 {
        assert Outranks(steps, chosen[n - 1], chosen[n]);
      }
      assert chosen == chosen[..n] + [chosen[n]];
    }
  }

  // ---------- coalesce ----------

  function Find(best: seq<MajorStep>, thread: string): (k: nat)
    ensures k <= |best|
    ensures k < |best| ==> best[k].thread == thread
    ensures forall a | 0 <= a < k :: best[a].thread != thread
  {
    if best == [] || best[0].thread == thread then 0
    else 1 + Find(best[1..], thread)
  }

  predicate Has(best: seq<MajorStep>, thread: string) {
    Find(best, thread) < |best|
  }

  // What the dict holds after the first n steps, in its order.
  ghost predicate Tabled(steps: seq<MajorStep>, n: nat, best: seq<MajorStep>)
    requires n <= |steps|
  {
    && (forall s | s in best :: HighestAmong(steps, n, s))
    && InFirstSeenOrder(steps, best)
    && (forall q | 0 <= q < n :: Has(best, steps[q].thread))
  }

  lemma StillHighest(steps: seq<MajorStep>, n: nat, s: MajorStep)
    requires n < |steps| && HighestAmong(steps, n, s)
    requires steps[n].thread == s.thread ==> steps[n].severity <= s.severity
    ensures HighestAmong(steps, n + 1, s)
  {
    var p: nat :| Highest(steps, n, p) && steps[p] == s;
    assert Highest(steps, n + 1, p);
  }

  lemma NowHighest(steps: seq<MajorStep>, n: nat)
    requires n < |steps|
    requires forall q | 0 <= q < n && steps[q].thread == steps[n].thread :: steps[q].severity < steps[n].severity
    ensures HighestAmong(steps, n + 1, steps[n])
  {
    forall q: nat | q < n + 1 ensures Preferred(steps, n, q) {
    }
    assert Highest(steps, n + 1, n);
  }

  lemma RaisesHighest(steps: seq<MajorStep>, n: nat, s: MajorStep)
    requires n < |steps| && HighestAmong(steps, n, s)
    requires steps[n].thread == s.thread && steps[n].severity > s.severity
    ensures HighestAmong(steps, n + 1, steps[n])
  {
    var p: nat :| Highest(steps, n, p) && steps[p] == s;
    forall q: nat | q < n && steps[q].thread == steps[n].thread ensures steps[q].severity < steps[n].severity {
      assert Preferred(steps, p, q);
    }
    NowHighest(steps, n);
  }

  lemma SeenBefore(steps: seq<MajorStep>, n: nat, s: MajorStep)
    requires n < |steps| && HighestAmong(steps, n, s)
    ensures FirstSeen(steps, s.thread) < n
  {
    var p: nat :| Highest(steps, n, p) && steps[p] == s;
  }

  lemma HasStays(best: seq<MajorStep>, more: seq<MajorStep>, thread: string)
    requires |best| <= |more| && forall a | 0 <= a < |best| :: more[a].thread == best[a].thread
    requires Has(best, thread)
    ensures Has(more, thread)
  {
    assert more[Find(best, thread)].thread == thread;
  }

  // Every thread of the first n + 1 steps is there, when those of the first n and the next one are.
  lemma AllThere(steps: seq<MajorStep>, n: nat, best: seq<MajorStep>, more: seq<MajorStep>)
    requires n < |steps| && forall q | 0 <= q < n :: Has(best, steps[q].thread)
    requires |best| <= |more| && forall a | 0 <= a < |best| :: more[a].thread == best[a].thread
    requires exists a :: 0 <= a < |more| && more[a].thread == steps[n].thread
    ensures forall q | 0 <= q < n + 1 :: Has(more, steps[q].thread)
  {
    forall q | 0 <= q < n + 1 ensures Has(more, steps[q].thread) {
      if q < n {
        HasStays(best, more, steps[q].thread);
      }
    }
  }

  lemma AddKeepsOrder(steps: seq<MajorStep>, n: nat, best: seq<MajorStep>)
    requires n < |steps| && InFirstSeenOrder(steps, best) && FirstSeen(steps, steps[n].thread) == n
    requires forall s | s in best :: FirstSeen(steps, s.thread) < n
    ensures InFirstSeenOrder(steps, best + [steps[n]])
  {
    forall a | 0 <= a < |best| ensures FirstSeen(steps, best[a].thread) < n { assert best[a] in best; }
  }

  lemma AddThread(steps: seq<MajorStep>, n: nat, best: seq<MajorStep>)
    requires n < |steps| && Tabled(steps, n, best) && !Has(best, steps[n].thread)
    ensures Tabled(steps, n + 1, best + [steps[n]])
  {
    var more := best + [steps[n]];
    forall q | 0 <= q < n ensures steps[q].thread != steps[n].thread { assert Has(best, steps[q].thread); }
    NowHighest(steps, n);
    forall s | s in best ensures HighestAmong(steps, n + 1, s) && FirstSeen(steps, s.thread) < n {
      SeenBefore(steps, n, s);
      StillHighest(steps, n, s);
    }
    AddKeepsOrder(steps, n, best);
    assert more[|best|] == steps[n];
    AllThere(steps, n, best, more);
  }

  // The entry of a thread already there is replaced or kept.
  lemma UpdateThread(steps: seq<MajorStep>, n: nat, best: seq<MajorStep>, k: nat, s: MajorStep)
    requires n < |steps| && Tabled(steps, n, best)
    requires k < |best| && best[k].thread == steps[n].thread
    requires s == if steps[n].severity > best[k].severity then steps[n] else best[k]
    ensures Tabled(steps, n + 1, best[k := s])
  {
    var more := best[k := s];
    NewEntryIsHighest(steps, n, best[k], s);
    forall x | x in more ensures HighestAmong(steps, n + 1, x) {
      var a :| 0 <= a < |more| && more[a] == x;
      if a != k {
        assert x in best && FirstSeen(steps, best[a].thread) != FirstSeen(steps, best[k].thread);
        StillHighest(steps, n, x);
      }
    }
    assert more[k].thread == steps[n].thread;
    AllThere(steps, n, best, more);
  }

  lemma NewEntryIsHighest(steps: seq<MajorStep>, n: nat, entry: MajorStep, s: MajorStep)
    requires n < |steps| && HighestAmong(steps, n, entry) && entry.thread == steps[n].thread
    requires s == if steps[n].severity > entry.severity then steps[n] else entry
    ensures HighestAmong(steps, n + 1, s)
  {
    if steps[n].severity > entry.severity {
      RaisesHighest(steps, n, entry);
    } else {
      StillHighest(steps, n, entry);
    }
  }

  lemma TabledTopIsCoalesced(steps: seq<MajorStep>, best: seq<MajorStep>, chosen: seq<MajorStep>)
    requires Tabled(steps, |steps|, best)
    requires chosen == if |Sorted(best)| <= MAX_PUSH_PER_CYCLE then Sorted(best) else Sorted(best)[..MAX_PUSH_PER_CYCLE]
    ensures IsCoalesced(steps, chosen)
  {
    SortedIsRanked(steps, best);
    var s := Sorted(best);
    forall x | x in chosen ensures IsHighest(steps, x) { assert x in s && x in best; }
    forall x | IsHighest(steps, x) && x !in chosen
      ensures |chosen| == MAX_PUSH_PER_CYCLE && forall c | c in chosen :: Outranks(steps, c, x)
    {
      HighestIsTabled(steps, best, x);
      var k :| 0 <= k < |s| && s[k] == x;
      assert k >= |chosen|;
    }
  }

  lemma HighestIsTabled(steps: seq<MajorStep>, best: seq<MajorStep>, x: MajorStep)
    requires Tabled(steps, |steps|, best) && IsHighest(steps, x)
    ensures x in best
  {
    var p: nat :| Highest(steps, |steps|, p) && steps[p] == x;
    assert Has(best, steps[p].thread);
    var own := best[Find(best, steps[p].thread)];
    assert own in best;
    OneHighestPerThread(steps, x, own);
  }

  method Coalesce(steps: seq<MajorStep>) returns (chosen: seq<MajorStep>)
    ensures IsCoalesced(steps, chosen)
  {
    var best: seq<MajorStep> := [];
    for i := 0 to |steps|
      invariant Tabled(steps, i, best)
    {
      var step := steps[i];
      var k := Find(best, step.thread);
      if k == |best| {
        AddThread(steps, i, best);
        best := best + [step];
      } else if step.severity > best[k].severity {
        UpdateThread(steps, i, best, k, step);
        best := best[k := step];
      } else {
        UpdateThread(steps, i, best, k, best[k]);
        assert best[k := best[k]] == best;
      }
    }
    var sorted := Sorted(best);
    chosen := if |sorted| <= MAX_PUSH_PER_CYCLE then sorted else sorted[..MAX_PUSH_PER_CYCLE];
    TabledTopIsCoalesced(steps, best, chosen);
  }
}
