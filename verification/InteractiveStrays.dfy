/**
 Processes that yield more results than they were given lines. The reader reports
 every result it reads before the stop; nothing asks which line it is about.
 */
module InteractiveStrays {
  import opened Wrappers
  import opened Interactive
  import opened InteractiveRuns

  // strays: readers holding a result that answers no line, stop already checked.
  datatype AnyWorld = AnyWorld(w: World, strays: set<nat>)

  datatype AnyStep =
    | Plain(step: Step)
    | StrayCheck(proc: nat)
    | StrayTell(proc: nat, isError: bool)

  predicate Possible(a: AnyWorld, step: AnyStep) {
    match step
    case Plain(s) => Allowed(a.w, s) && (s.CheckStep? || s.EofStep? ==> s.proc !in a.strays)
    case StrayCheck(p) => Reads(a.w, p) && p !in a.strays && !a.w.e.stopped
    case StrayTell(p, _) => p in a.strays
  }

  function Told(w: World, p: nat, isError: bool): World {
    w.(e := TellResult(w.e, isError), told := w.told + {p}, done := w.done + [Completion(None, isError)])
  }

  function NextAny(a: AnyWorld, step: AnyStep): AnyWorld
    requires Possible(a, step)
  {
    match step
    case Plain(s) => a.(w := Next(a.w, s))
    case StrayCheck(p) => a.(strays := a.strays + {p})
    case StrayTell(p, isError) => AnyWorld(Told(a.w, p, isError), a.strays - {p})
  }

  function RunAny(started: bool, steps: seq<AnyStep>): AnyWorld {
    if steps == [] then AnyWorld(Init(started), {})
    else
      var before := RunAny(started, steps[..|steps| - 1]);
      var step := steps[|steps| - 1];
      if Possible(before, step) then NextAny(before, step) else before
  }

  // The k-th completion is about the k-th line tried.
  predicate OwnLines(w: World) {
    forall k | 0 <= k < |w.done| :: w.done[k].line == Some(k)
  }

  predicate ReportsStrayAt(started: bool, steps: seq<AnyStep>, i: nat)
    requires i < |steps|
  {
    steps[i].StrayTell? && Possible(RunAny(started, steps[..i]), steps[i])
  }

  predicate NeverReportsStray(started: bool, steps: seq<AnyStep>) {
    forall i: nat | i < |steps| :: !ReportsStrayAt(started, steps, i)
  }

  lemma NeverReportsStrayOneMore(started: bool, steps: seq<AnyStep>, n: nat)
    requires |steps| == n + 1
    ensures NeverReportsStray(started, steps) <==>
              NeverReportsStray(started, steps[..n]) && !ReportsStrayAt(started, steps, n)
  {
    forall i: nat | i < n ensures ReportsStrayAt(started, steps[..n], i) == ReportsStrayAt(started, steps, i) {
      assert steps[..n][..i] == steps[..i];
    }
  }

  lemma DoneGrows(a: AnyWorld, step: AnyStep)
    requires Possible(a, step)
    ensures a.w.done <= NextAny(a, step).w.done
    ensures step.StrayTell? ==> !OwnLines(NextAny(a, step).w)
  {
    if step.StrayTell? {
      assert NextAny(a, step).w.done[|a.w.done|].line == None;
    }
  }

  lemma ShorterIsOwn(w: World, w': World)
    requires w.done <= w'.done && OwnLines(w')
    ensures OwnLines(w)
  {
    forall k | 0 <= k < |w.done| ensures w.done[k].line == Some(k) {
      assert w'.done[k] == w.done[k];
    }
  }

  // Over every run with any number of results: every completion is about its own
  // line exactly when no result that answers no line was read before the stop and
  // reported; until one is, all the guarantees of one result per line stand.
  lemma {:induction false} OwnLinesExactlyWhenNoResultStrays(started: bool, steps: seq<AnyStep>)
    ensures OwnLines(RunAny(started, steps).w) <==> NeverReportsStray(started, steps)
    ensures NeverReportsStray(started, steps) ==> Sound(RunAny(started, steps).w)
  {
    if steps != [] {
      var n := |steps| - 1;
      var before := RunAny(started, steps[..n]);
      OwnLinesExactlyWhenNoResultStrays(started, steps[..n]);
      NeverReportsStrayOneMore(started, steps, n);
      if Possible(before, steps[n]) {
        var after := NextAny(before, steps[n]);
        DoneGrows(before, steps[n]);
        if OwnLines(after.w) { ShorterIsOwn(before.w, after.w); }
        if steps[n].Plain? && Sound(before.w) { StepIsSound(before.w, steps[n].step); }
      }
    }
  }

  // The first stray result is counted as the answer to the line in flight exactly
  // when that line has none yet; else it is a completion too many. The line's own
  // answer, when it comes, is then the one too many.
  lemma StrayIsTakenForTheLineInFlight(w: World, p: nat, isError: bool)
    requires Sound(w)
    ensures var w' := Told(w, p, isError);
            && (|w'.done| <= |w'.attempted| <==> w.e.inFlight && w.told == {})
            && (w.checked != {} ==> forall q | q in w.checked ::
                  var late := Next(w', TellStep(q, isError));
                  |late.done| > |late.attempted| && late.done[|w'.done|].line == Some(|w.done|))
  {
    forall q | q in w.checked
      ensures FirstOwed(w.owed, q) == Some(|w.done|)
    {
      OneOwed(w.owed, q);
    }
  }

  // Such a run: the second result of the first line is read while the engine is
  // idle, reported once the next line is in flight, and ends that line's turn.
  lemma SecondResultEndsTheNextTurn(a: string, b: string, ok: Luck)
    requires ok == Luck(false, true, true)
    ensures var steps := [Plain(SendStep(a, ok)), Plain(CheckStep(0)), Plain(TellStep(0, false)),
                          Plain(AdvanceStep(0, ok)), StrayCheck(0), Plain(SendStep(b, ok)),
                          StrayTell(0, false), Plain(AdvanceStep(0, ok))];
            var w := RunAny(false, steps).w;
            && w.attempted == [a, b] && w.owed == [Owed(0, 1)] && !w.e.inFlight
            && w.done == [Completion(Some(0), false), Completion(None, false)]
  {
    var s5 := SecondResultIsRead(a, ok);
    var s6 := s5 + [Plain(SendStep(b, ok))];
    var s7 := s6 + [StrayTell(0, false)];
    RunOneMore(false, s5, Plain(SendStep(b, ok)));
    RunOneMore(false, s6, StrayTell(0, false));
    RunOneMore(false, s7, Plain(AdvanceStep(0, ok)));
    assert s7 + [Plain(AdvanceStep(0, ok))] ==
           [Plain(SendStep(a, ok)), Plain(CheckStep(0)), Plain(TellStep(0, false)),
            Plain(AdvanceStep(0, ok)), StrayCheck(0), Plain(SendStep(b, ok)),
            StrayTell(0, false), Plain(AdvanceStep(0, ok))];
  }

  // Up to there: the first line is answered and a second result of it is held.
  lemma SecondResultIsRead(a: string, ok: Luck) returns (s5: seq<AnyStep>)
    requires ok == Luck(false, true, true)
    ensures s5 == [Plain(SendStep(a, ok)), Plain(CheckStep(0)), Plain(TellStep(0, false)), Plain(AdvanceStep(0, ok)), StrayCheck(0)]
    ensures RunAny(false, s5) ==
            AnyWorld(World(Engine(Some(0), false, [], false, false, true, [Spawn(false, 0)], [a], [false]),
                           [a], [a], [], {}, {}, {}, [Completion(Some(0), false)]), {0})
  {
    var s1: seq<AnyStep> := [Plain(SendStep(a, ok))];
    var s2 := s1 + [Plain(CheckStep(0))];
    var s3 := s2 + [Plain(TellStep(0, false))];
    var s4 := s3 + [Plain(AdvanceStep(0, ok))];
    s5 := s4 + [StrayCheck(0)];
    RunOneMore(false, [], Plain(SendStep(a, ok)));
    assert [] + s1 == s1;
    RunOneMore(false, s1, Plain(CheckStep(0)));
    RunOneMore(false, s2, Plain(TellStep(0, false)));
    RunOneMore(false, s3, Plain(AdvanceStep(0, ok)));
    RunOneMore(false, s4, StrayCheck(0));
  }

  lemma RunOneMore(started: bool, steps: seq<AnyStep>, step: AnyStep)
    ensures var before := RunAny(started, steps);
            RunAny(started, steps + [step]) == if Possible(before, step) then NextAny(before, step) else before
  {
    assert (steps + [step])[..|steps|] == steps;
  }
}
