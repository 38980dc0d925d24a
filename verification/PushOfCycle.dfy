/** What of a cycle's steps reaches the chat. */
module PushOfCycle {
  import opened Wrappers
  import opened Supervisor
  import opened SupervisorRuns
  import opened Push

  // NEEDS_INPUT before FINISHED before STARTED before STALLED.
  function Urgency(kind: Kind): nat {
    match kind
    case NeedsInput => 3
    case Finished => 2
    case Started => 1
    case Stalled => 0
  }

  predicate FitsItsKind(s: MajorStep) {
    s.severity in {SeverityFor(s.kind, "failed"), SeverityFor(s.kind, "completed")}
  }

  lemma {:induction false} PresentFit(prev: Snapshot, curr: Snapshot)
    ensures forall s | s in StepsIn(prev, curr) :: FitsItsKind(s)
    decreases |curr|
  {
    if curr != [] {
      var n := |curr| - 1;
      PresentFit(prev, curr[..n]);
    }
  }

  lemma {:induction false} GoneFit(prev: Snapshot, curr: Snapshot)
    ensures forall s | s in StepsGone(prev, curr) :: FitsItsKind(s)
    decreases |prev|
  {
    if prev != [] {
      var n := |prev| - 1;
      GoneFit(prev[..n], curr);
    }
  }

  lemma {:induction false} TwoStepsTwoReports(steps: seq<MajorStep>, p: nat, q: nat)
    requires p < q < |steps| && steps[p].thread == steps[q].thread
    ensures |Reports(steps, steps[p].thread)| >= 2
    decreases |steps|
  {
    var n, thread := |steps| - 1, steps[p].thread;
    if q < n {
      TwoStepsTwoReports(steps[..n], p, q);
    } else {
      OneStepOneReport(steps[..n], p);
    }
  }

  lemma {:induction false} OneStepOneReport(steps: seq<MajorStep>, p: nat)
    requires p < |steps|
    ensures |Reports(steps, steps[p].thread)| >= 1
    decreases |steps|
  {
    var n := |steps| - 1;
    if p < n {
      OneStepOneReport(steps[..n], p);
    }
  }

  // Each thread makes one step a cycle, so each step is the highest of its thread.
  lemma EveryStepIsHighest(prev: Snapshot, curr: Snapshot, s: MajorStep)
    requires Unique(prev) && Unique(curr) && s in Detected(prev, curr)
    ensures IsHighest(Detected(prev, curr), s)
  {
    var steps := Detected(prev, curr);
    var p: nat :| p < |steps| && steps[p] == s;
    OneReportPerCycle(prev, curr, s.thread);
    forall q: nat | q < |steps| ensures Preferred(steps, p, q) {
      if q != p && steps[q].thread == s.thread {
        TwoStepsTwoReports(steps, if p < q then p else q, if p < q then q else p);
      }
    }
    assert Highest(steps, |steps|, p);
  }

  // All steps of a cycle are pushed when they are five or fewer; and one that is
  // not gives way only to five at least as urgent.
  lemma OnlyMoreUrgentStepsCrowdOut(prev: Snapshot, curr: Snapshot, chosen: seq<MajorStep>, s: MajorStep)
    requires Unique(prev) && Unique(curr) && s in Detected(prev, curr)
    requires IsCoalesced(Detected(prev, curr), chosen) && s !in chosen
    ensures |chosen| == 5 && forall c | c in chosen :: Urgency(c.kind) >= Urgency(s.kind)
    ensures |Detected(prev, curr)| > 5
  {
    var steps := Detected(prev, curr);
    EveryStepIsHighest(prev, curr, s);
    PresentFit(prev, curr);
    GoneFit(prev, curr);
    forall c | c in chosen ensures c in steps && Urgency(c.kind) >= Urgency(s.kind) {
      assert Outranks(steps, c, s) && IsHighest(steps, c);
      assert FitsItsKind(s) && FitsItsKind(c);
    }
    ChosenThreadsDiffer(steps, chosen);
    MoreThanChosen(steps, chosen, s);
  }

  lemma MoreThanChosen(steps: seq<MajorStep>, chosen: seq<MajorStep>, s: MajorStep)
    requires s in steps && s !in chosen
    requires forall c | c in chosen :: c in steps
    requires forall i, j | 0 <= i < j < |chosen| :: chosen[i].thread != chosen[j].thread
    ensures |steps| > |chosen|
  {
    var a, b := set c | c in chosen, set c | c in steps;
    DistinctSize(chosen);
    SetSize(steps);
    assert a + {s} <= b;
    Subset(a + {s}, b);
  }

  lemma {:induction false} DistinctSize(chosen: seq<MajorStep>)
    requires forall i, j | 0 <= i < j < |chosen| :: chosen[i].thread != chosen[j].thread
    ensures |set c | c in chosen| == |chosen|
  {
    if chosen != [] {
      var n := |chosen| - 1;
      DistinctSize(chosen[..n]);
      assert chosen == chosen[..n] + [chosen[n]];
      assert (set c | c in chosen) == (set c | c in chosen[..n]) + {chosen[n]};
    }
  }

  lemma {:induction false} SetSize(steps: seq<MajorStep>)
    ensures |set c | c in steps| <= |steps|
  {
    if steps != [] {
      var n := |steps| - 1;
      SetSize(steps[..n]);
      assert steps == steps[..n] + [steps[n]];
      assert (set c | c in steps) == (set c | c in steps[..n]) + {steps[n]};
    }
  }

  lemma Subset<T>(a: set<T>, b: set<T>)
    requires a <= b
    ensures |a| <= |b|
  {
    assert b == a + (b - a);
  }
}
