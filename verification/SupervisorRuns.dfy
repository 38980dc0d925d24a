/** What is reported about one thread over any run of snapshots. */
module SupervisorRuns {
  import opened Wrappers
  import opened Supervisor
  import opened Subsequence

  predicate Unique(s: Snapshot) {
    forall i, j | 0 <= i < j < |s| :: s[i].thread != s[j].thread
  }

  predicate Present(s: Snapshot, thread: string) {
    Lookup(s, thread).Some?
  }

  // There, and not in a terminal status.
  predicate Live(s: Snapshot, thread: string) {
    Present(s, thread) && Lookup(s, thread).value.status !in {"completed", "failed", "stopped"}
  }

  predicate Waiting(s: Snapshot, thread: string) {
    Present(s, thread) && Lookup(s, thread).value.status == "waiting_approval"
  }

  // At work in both snapshots, with no event between them nor for ten minutes.
  predicate Silent(prev: Snapshot, curr: Snapshot, thread: string) {
    && Present(prev, thread) && Live(curr, thread) && !Waiting(curr, thread)
    && Lookup(prev, thread).value.lastEventAt == Lookup(curr, thread).value.lastEventAt
    && Lookup(curr, thread).value.age.Some? && Lookup(curr, thread).value.age.value >= 600
  }

  function Reports(steps: seq<MajorStep>, thread: string): seq<Kind> {
    if steps == [] then []
    else
      var n := |steps| - 1;
      if steps[n].thread == thread then Reports(steps[..n], thread) + [steps[n].kind] else Reports(steps[..n], thread)
  }

  lemma {:induction false} ReportsConcat(a: seq<MajorStep>, b: seq<MajorStep>, thread: string)
    ensures Reports(a + b, thread) == Reports(a, thread) + Reports(b, thread)
    decreases |b|
  {
    if b == [] {
      assert a + b == a;
    } else {
      var n := |b| - 1;
      assert (a + b)[..|a + b| - 1] == a + b[..n];
      ReportsConcat(a, b[..n], thread);
    }
  }

  // The kind of step one cycle shows of a thread, if any.
  function KindInCycle(prev: Snapshot, curr: Snapshot, thread: string): seq<Kind> {
    if Present(curr, thread) then
      (match KindOf(Lookup(curr, thread).value, Lookup(prev, thread)) case None => [] case Some(kind) => [kind])
    else if Live(prev, thread) then [Finished]
    else []
  }

  // A snapshot but for its last session: the same, except for that session's thread.
  lemma LookupButLast(snapshot: Snapshot, thread: string)
    requires Unique(snapshot) && snapshot != []
    ensures var n := |snapshot| - 1;
            && Unique(snapshot[..n])
            && Lookup(snapshot[..n], thread) == if snapshot[n].thread == thread then None else Lookup(snapshot, thread)
  {
    var n := |snapshot| - 1;
    assert forall x | x in snapshot[..n] :: x.thread != snapshot[n].thread;
  }

  lemma {:induction false} ReportsOfPresent(prev: Snapshot, curr: Snapshot, thread: string)
    requires Unique(curr)
    ensures Reports(StepsIn(prev, curr), thread) == if Present(curr, thread) then KindInCycle(prev, curr, thread) else []
    decreases |curr|
  {
    if curr != [] {
      var n := |curr| - 1;
      var before, s := curr[..n], curr[n];
      LookupButLast(curr, thread);
      ReportsOfPresent(prev, before, thread);
      ReportsConcat(StepsIn(prev, before), StepIn(prev, s), thread);
    }
  }

  lemma ReportsOfOneGone(s: Session, curr: Snapshot, thread: string)
    ensures Reports(VanishedStep(s, curr), thread) ==
            if s.thread == thread && s.status !in {"completed", "failed", "stopped"} && !Present(curr, thread) then [Finished] else []
  {
    var steps := VanishedStep(s, curr);
    if steps != [] {
      assert steps == [StepOf(s, Finished)] && steps[..0] == [];
      assert Reports(steps[..0], thread) == [];
    }
  }

  lemma {:induction false} ReportsOfGone(prev: Snapshot, curr: Snapshot, thread: string)
    requires Unique(prev)
    ensures Reports(StepsGone(prev, curr), thread) == if Live(prev, thread) && !Present(curr, thread) then [Finished] else []
    decreases |prev|
  {
    if prev != [] {
      var n := |prev| - 1;
      var before, s := prev[..n], prev[n];
      LookupButLast(prev, thread);
      ReportsOfGone(before, curr, thread);
      ReportsOfOneGone(s, curr, thread);
      assert StepsGone(prev, curr) == StepsGone(before, curr) + VanishedStep(s, curr);
      ReportsConcat(StepsGone(before, curr), VanishedStep(s, curr), thread);
    }
  }

  lemma ReportsOfCycle(prev: Snapshot, curr: Snapshot, thread: string)
    requires Unique(prev) && Unique(curr)
    ensures Reports(Detected(prev, curr), thread) == KindInCycle(prev, curr, thread)
  {
    ReportsConcat(StepsIn(prev, curr), StepsGone(prev, curr), thread);
    ReportsOfPresent(prev, curr, thread);
    ReportsOfGone(prev, curr, thread);
  }

  // At most one report a cycle and thread; which one is settled by presence and liveness.
  lemma OneReportPerCycle(prev: Snapshot, curr: Snapshot, thread: string)
    requires Unique(prev) && Unique(curr)
    ensures var reports := Reports(Detected(prev, curr), thread);
            && |reports| <= 1
            && (reports == [Started] <==> !Present(prev, thread) && Present(curr, thread))
            && (reports == [Finished] <==> Live(prev, thread) && !Live(curr, thread))
            && (reports == [NeedsInput] <==> Present(prev, thread) && !Waiting(prev, thread) && Waiting(curr, thread))
            && (reports == [Stalled] <==> Silent(prev, curr, thread))
  {
    ReportsOfCycle(prev, curr, thread);
    OneKind(KindInCycle(prev, curr, thread));
  }

  lemma OneKind(kinds: seq<Kind>)
    ensures |kinds| == 1 ==> kinds == [kinds[0]]
  {
  }

  // ---------- Runs ----------

  // The snapshot before the n-th; there is none before the first.
  function Before(run: seq<Snapshot>, n: nat): Snapshot
    requires n <= |run|
  {
    if n == 0 then [] else run[n - 1]
  }

  function Count(run: seq<Snapshot>, thread: string, kind: Kind): nat
    decreases |run|
  {
    if run == [] then 0
    else
      var n := |run| - 1;
      Count(run[..n], thread, kind)
      + if Reports(Detected(Before(run, n), run[n]), thread) == [kind] then 1 else 0
  }

  // How often the thread went from absent to present, and from not live to live.
  function Arrivals(run: seq<Snapshot>, thread: string): nat
    decreases |run|
  {
    if run == [] then 0
    else
      var n := |run| - 1;
      Arrivals(run[..n], thread) + if !Present(Before(run, n), thread) && Present(run[n], thread) then 1 else 0
  }

  function Awakenings(run: seq<Snapshot>, thread: string): nat
    decreases |run|
  {
    if run == [] then 0
    else
      var n := |run| - 1;
      Awakenings(run[..n], thread) + if !Live(Before(run, n), thread) && Live(run[n], thread) then 1 else 0
  }

  // How often the thread, already there, began to wait for approval.
  function Requests(run: seq<Snapshot>, thread: string): nat
    decreases |run|
  {
    if run == [] then 0
    else
      var n := |run| - 1;
      Requests(run[..n], thread)
      + if Present(Before(run, n), thread) && !Waiting(Before(run, n), thread) && Waiting(run[n], thread) then 1 else 0
  }

  // In how many cycles the thread was silent.
  function SilentCycles(run: seq<Snapshot>, thread: string): nat
    decreases |run|
  {
    if run == [] then 0
    else
      var n := |run| - 1;
      SilentCycles(run[..n], thread) + if Silent(Before(run, n), run[n], thread) then 1 else 0
  }

  predicate AllUnique(run: seq<Snapshot>) {
    forall i | 0 <= i < |run| :: Unique(run[i])
  }

  lemma AllUniqueBefore(run: seq<Snapshot>, n: nat)
    requires AllUnique(run) && n < |run|
    ensures AllUnique(run[..n]) && Unique(Before(run, n)) && Unique(run[n]) && Before(run[..n], n) == Before(run, n)
  {
  }

  lemma {:induction false} StartsAreArrivals(run: seq<Snapshot>, thread: string)
    requires AllUnique(run)
    ensures Count(run, thread, Started) == Arrivals(run, thread)
    decreases |run|
  {
    if run != [] {
      var n := |run| - 1;
      AllUniqueBefore(run, n);
      StartsAreArrivals(run[..n], thread);
      OneReportPerCycle(Before(run, n), run[n], thread);
    }
  }

  lemma {:induction false} FinishesAreSpells(run: seq<Snapshot>, thread: string)
    requires AllUnique(run)
    ensures Count(run, thread, Finished) + (if Live(Before(run, |run|), thread) then 1 else 0) == Awakenings(run, thread)
    decreases |run|
  {
    if run != [] {
      var n := |run| - 1;
      AllUniqueBefore(run, n);
      FinishesAreSpells(run[..n], thread);
      OneReportPerCycle(Before(run, n), run[n], thread);
    }
  }

  lemma {:induction false} NeedsAreRequests(run: seq<Snapshot>, thread: string)
    requires AllUnique(run)
    ensures Count(run, thread, NeedsInput) == Requests(run, thread)
    decreases |run|
  {
    if run != [] {
      var n := |run| - 1;
      AllUniqueBefore(run, n);
      NeedsAreRequests(run[..n], thread);
      OneReportPerCycle(Before(run, n), run[n], thread);
    }
  }

  lemma {:induction false} StallsAreSilentCycles(run: seq<Snapshot>, thread: string)
    requires AllUnique(run)
    ensures Count(run, thread, Stalled) == SilentCycles(run, thread)
    decreases |run|
  {
    if run != [] {
      var n := |run| - 1;
      AllUniqueBefore(run, n);
      StallsAreSilentCycles(run[..n], thread);
      OneReportPerCycle(Before(run, n), run[n], thread);
    }
  }

  // In every run, STARTED is reported once for each arrival, FINISHED once for each
  // spell of being live, except one still going on, and NEEDS_INPUT once for each
  // time the thread began to wait, except when it arrived waiting. STALLED is
  // reported not once a stall but in every cycle that it lasts.
  lemma ReportsBalance(run: seq<Snapshot>, thread: string)
    requires AllUnique(run)
    ensures Count(run, thread, Started) == Arrivals(run, thread)
    ensures Count(run, thread, Finished) + (if Live(Before(run, |run|), thread) then 1 else 0) == Awakenings(run, thread)
    ensures Count(run, thread, NeedsInput) == Requests(run, thread)
    ensures Count(run, thread, Stalled) == SilentCycles(run, thread)
  {
    StartsAreArrivals(run, thread);
    FinishesAreSpells(run, thread);
    NeedsAreRequests(run, thread);
    StallsAreSilentCycles(run, thread);
  }

  // ---------- A thread with one life ----------

  // Present in exactly the snapshots from to until, and once terminal always terminal.
  predicate OneLife(run: seq<Snapshot>, thread: string, from: nat, until: nat) {
    && from < until <= |run|
    && (forall i | 0 <= i < |run| :: Present(run[i], thread) <==> from <= i < until)
    && (forall i, j | from <= i < j < until :: Live(run[j], thread) ==> Live(run[i], thread))
  }

  lemma {:induction false} ArrivesOnce(run: seq<Snapshot>, thread: string, from: nat, until: nat, n: nat)
    requires OneLife(run, thread, from, until) && n <= |run|
    ensures Arrivals(run[..n], thread) == if n > from then 1 else 0
    ensures Awakenings(run[..n], thread) == if n > from && Live(run[from], thread) then 1 else 0
    decreases n
  {
    if n > 0 {
      var m := n - 1;
      ArrivesOnce(run, thread, from, until, m);
      assert run[..n][..m] == run[..m];
      assert m > 0 ==> (Present(run[m - 1], thread) <==> from <= m - 1 < until);
      assert Present(run[m], thread) <==> from <= m < until;
      assert from < m < until && Live(run[m], thread) ==> Live(run[m - 1], thread);
    }
  }

  // Such a thread is reported STARTED exactly once, and FINISHED exactly once if it
  // began live and is not live at the end, and otherwise never.
  lemma OneLifeOneStartOneFinish(run: seq<Snapshot>, thread: string, from: nat, until: nat)
    requires AllUnique(run) && OneLife(run, thread, from, until)
    ensures Count(run, thread, Started) == 1
    ensures Count(run, thread, Finished) == if Live(run[from], thread) && !Live(run[|run| - 1], thread) then 1 else 0
  {
    ReportsBalance(run, thread);
    ArrivesOnce(run, thread, from, until, |run|);
    assert run[..|run|] == run;
    var last := |run| - 1;
    assert Present(run[last], thread) <==> from <= last < until;
    assert from < last < until && Live(run[last], thread) ==> Live(run[from], thread);
  }

  // ---------- Severity ----------

  // A step of this thread with the severity of a failure.
  predicate ReportsFailure(steps: seq<MajorStep>, thread: string) {
    exists s | s in steps :: s.thread == thread && s.severity == 4
  }

  lemma FailureInEither(a: seq<MajorStep>, b: seq<MajorStep>, thread: string)
    ensures ReportsFailure(a + b, thread) <==> ReportsFailure(a, thread) || ReportsFailure(b, thread)
  {
    if ReportsFailure(a, thread) {
      var s :| s in a && s.thread == thread && s.severity == 4;
      assert s in a + b;
    }
    if ReportsFailure(b, thread) {
      var s :| s in b && s.thread == thread && s.severity == 4;
      assert s in a + b;
    }
  }

  // Live before, and seen to have failed now.
  predicate SeenToFail(prev: Snapshot, curr: Snapshot, thread: string) {
    Live(prev, thread) && Present(curr, thread) && Lookup(curr, thread).value.status == "failed"
  }

  lemma FailureInStep(prev: Snapshot, s: Session, thread: string)
    ensures ReportsFailure(StepIn(prev, s), thread) <==> s.thread == thread && Live(prev, thread) && s.status == "failed"
  {
    var steps := StepIn(prev, s);
    assert steps != [] ==> steps[0] in steps;
  }

  lemma {:induction false} FailureOfPresent(prev: Snapshot, curr: Snapshot, thread: string)
    requires Unique(curr)
    ensures ReportsFailure(StepsIn(prev, curr), thread) <==> SeenToFail(prev, curr, thread)
    decreases |curr|
  {
    if curr != [] {
      var n := |curr| - 1;
      LookupButLast(curr, thread);
      FailureOfPresent(prev, curr[..n], thread);
      FailureInEither(StepsIn(prev, curr[..n]), StepIn(prev, curr[n]), thread);
      FailureInStep(prev, curr[n], thread);
    }
  }

  lemma {:induction false} GoneNotFailed(prev: Snapshot, curr: Snapshot)
    ensures forall step | step in StepsGone(prev, curr) :: step.severity != 4
    decreases |prev|
  {
    if prev != [] {
      GoneNotFailed(prev[..|prev| - 1], curr);
    }
  }

  // The severity of a failure is reported of a thread if and only if it was live
  // before and is seen with the status failed now.
  lemma FailureIsReportedExactlyWhenSeen(prev: Snapshot, curr: Snapshot, thread: string)
    requires Unique(curr)
    ensures ReportsFailure(Detected(prev, curr), thread) <==> SeenToFail(prev, curr, thread)
  {
    FailureOfPresent(prev, curr, thread);
    GoneNotFailed(prev, curr);
    FailureInEither(StepsIn(prev, curr), StepsGone(prev, curr), thread);
  }

  predicate NoneTerminal(s: Snapshot) {
    forall x | x in s :: x.status !in {"completed", "failed", "stopped"}
  }

  lemma {:induction false} PresentNotFailed(prev: Snapshot, curr: Snapshot)
    requires NoneTerminal(curr)
    ensures forall step | step in StepsIn(prev, curr) :: step.severity != 4
    decreases |curr|
  {
    if curr != [] {
      PresentNotFailed(prev, curr[..|curr| - 1]);
      assert curr[|curr| - 1] in curr;
    }
  }

  // The fleet snapshot leaves out terminal threads, so a thread that failed is
  // never reported with that severity.
  lemma FailureLooksFinished(prev: Snapshot, curr: Snapshot)
    requires NoneTerminal(curr)
    ensures forall step | step in Detected(prev, curr) :: step.severity != 4
  {
    PresentNotFailed(prev, curr);
    GoneNotFailed(prev, curr);
  }

  // ---------- What a step says ----------

  // The step names the session's thread with its label, and the severity is that of
  // its kind, a failure having its own.
  predicate Describes(step: MajorStep, s: Session) {
    && step.thread == s.thread && step.caption == s.caption
    && step.severity == (match step.kind
                         case NeedsInput => 5
                         case Finished => if s.status == "failed" then 4 else 3
                         case Started => 2
                         case Stalled => 1)
  }

  predicate DescribesOneOf(step: MajorStep, sessions: Snapshot) {
    exists s | s in sessions :: Describes(step, s)
  }

  lemma MoreSessions(step: MajorStep, sessions: Snapshot, more: Snapshot)
    requires DescribesOneOf(step, sessions)
    ensures DescribesOneOf(step, sessions + more)
  {
    var s :| s in sessions && Describes(step, s);
    assert s in sessions + more;
  }

  lemma {:induction false} PresentDescribed(prev: Snapshot, curr: Snapshot)
    ensures forall step | step in StepsIn(prev, curr) :: DescribesOneOf(step, curr)
    decreases |curr|
  {
    if curr != [] {
      var n := |curr| - 1;
      PresentDescribed(prev, curr[..n]);
      assert curr == curr[..n] + [curr[n]];
      forall step | step in StepsIn(prev, curr) ensures DescribesOneOf(step, curr) {
        if step in StepsIn(prev, curr[..n]) {
          MoreSessions(step, curr[..n], [curr[n]]);
        } else {
          assert step in StepIn(prev, curr[n]) && Describes(step, curr[n]);
        }
      }
    }
  }

  lemma {:induction false} GoneDescribed(prev: Snapshot, curr: Snapshot)
    ensures forall step | step in StepsGone(prev, curr) :: DescribesOneOf(step, prev) && step.kind == Finished
    decreases |prev|
  {
    if prev != [] {
      var n := |prev| - 1;
      GoneDescribed(prev[..n], curr);
      assert prev == prev[..n] + [prev[n]];
      forall step | step in StepsGone(prev, curr) ensures DescribesOneOf(step, prev) && step.kind == Finished {
        if step in StepsGone(prev[..n], curr) {
          MoreSessions(step, prev[..n], [prev[n]]);
        } else {
          assert step in VanishedStep(prev[n], curr) && Describes(step, prev[n]);
        }
      }
    }
  }

  // Every step of a cycle carries the label of the session it is about, as last
  // seen, and the severity of its kind.
  lemma StepsDescribeTheirSessions(prev: Snapshot, curr: Snapshot, step: MajorStep)
    requires step in Detected(prev, curr)
    ensures DescribesOneOf(step, if Present(curr, step.thread) then curr else prev)
  {
    PresentDescribed(prev, curr);
    GoneDescribed(prev, curr);
    if step in StepsIn(prev, curr) {
      var s :| s in curr && Describes(step, s);
      assert Present(curr, step.thread);
    } else {
      GoneIsGone(prev, curr, step);
    }
  }

  lemma {:induction false} GoneIsGone(prev: Snapshot, curr: Snapshot, step: MajorStep)
    requires step in StepsGone(prev, curr)
    ensures !Present(curr, step.thread)
    decreases |prev|
  {
    var n := |prev| - 1;
    if step in StepsGone(prev[..n], curr) {
      GoneIsGone(prev[..n], curr, step);
    } else {
      assert step in VanishedStep(prev[n], curr);
    }
  }

  function ThreadsOf(steps: seq<MajorStep>): (threads: seq<string>)
    ensures |threads| == |steps| && forall i | 0 <= i < |steps| :: threads[i] == steps[i].thread
  {
    seq(|steps|, i requires 0 <= i < |steps| => steps[i].thread)
  }

  function ThreadsIn(sessions: Snapshot): (threads: seq<string>)
    ensures |threads| == |sessions| && forall i | 0 <= i < |sessions| :: threads[i] == sessions[i].thread
  {
    seq(|sessions|, i requires 0 <= i < |sessions| => sessions[i].thread)
  }

  lemma OneAmongOne(steps: seq<MajorStep>, s: Session)
    requires |steps| <= 1 && forall step | step in steps :: step.thread == s.thread
    ensures Among(ThreadsOf(steps), [s.thread])
  {
    if steps != [] {
      assert steps[0] in steps;
      assert ThreadsOf(steps) == [s.thread];
      AmongItself([s.thread]);
    }
  }

  lemma ThreadsConcat(a: seq<MajorStep>, b: seq<MajorStep>)
    ensures ThreadsOf(a + b) == ThreadsOf(a) + ThreadsOf(b)
  {
  }

  lemma MoreInOrder(before: seq<MajorStep>, added: seq<MajorStep>, after: seq<MajorStep>,
                    sessions: Snapshot, s: Session, more: Snapshot)
    requires Among(ThreadsOf(before), ThreadsIn(sessions))
    requires |added| <= 1 && forall step | step in added :: step.thread == s.thread
    requires after == before + added && more == sessions + [s]
    ensures Among(ThreadsOf(after), ThreadsIn(more))
  {
    OneAmongOne(added, s);
    AmongConcat(ThreadsOf(before), ThreadsIn(sessions), ThreadsOf(added), [s.thread]);
    ThreadsConcat(before, added);
    assert ThreadsIn(more) == ThreadsIn(sessions) + [s.thread];
  }

  lemma LastSession(sessions: Snapshot)
    requires sessions != []
    ensures sessions == sessions[..|sessions| - 1] + [sessions[|sessions| - 1]]
  {
  }

  lemma OneStepEach(prev: Snapshot, s: Session, curr: Snapshot)
    ensures |StepIn(prev, s)| <= 1 && forall step | step in StepIn(prev, s) :: step.thread == s.thread
    ensures |VanishedStep(s, curr)| <= 1 && forall step | step in VanishedStep(s, curr) :: step.thread == s.thread
  {
  }

  lemma {:induction false} PresentInOrder(prev: Snapshot, curr: Snapshot)
    ensures Among(ThreadsOf(StepsIn(prev, curr)), ThreadsIn(curr))
    decreases |curr|
  {
    if curr != [] {
      var n := |curr| - 1;
      var before, s := curr[..n], curr[n];
      PresentInOrder(prev, before);
      OneStepEach(prev, s, curr);
      LastSession(curr);
      MoreInOrder(StepsIn(prev, before), StepIn(prev, s), StepsIn(prev, curr), before, s, curr);
    }
  }

  lemma {:induction false} GoneInOrder(prev: Snapshot, curr: Snapshot)
    ensures Among(ThreadsOf(StepsGone(prev, curr)), ThreadsIn(prev))
    decreases |prev|
  {
    if prev != [] {
      var n := |prev| - 1;
      var before, s := prev[..n], prev[n];
      GoneInOrder(before, curr);
      OneStepEach(prev, s, curr);
      LastSession(prev);
      MoreInOrder(StepsGone(before, curr), VanishedStep(s, curr), StepsGone(prev, curr), before, s, prev);
    }
  }

  // The steps stand in the order of the sessions present, and then of those before.
  lemma StepsStandInOrder(prev: Snapshot, curr: Snapshot)
    ensures Among(ThreadsOf(Detected(prev, curr)), ThreadsIn(curr) + ThreadsIn(prev))
  {
    PresentInOrder(prev, curr);
    GoneInOrder(prev, curr);
    AmongConcat(ThreadsOf(StepsIn(prev, curr)), ThreadsIn(curr), ThreadsOf(StepsGone(prev, curr)), ThreadsIn(prev));
    ThreadsConcat(StepsIn(prev, curr), StepsGone(prev, curr));
  }
}
