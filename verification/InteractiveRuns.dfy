/**
 An interactive engine with its callers and one reader thread per process. A
 reader that found a result passes three steps: it sees the engine not stopped,
 reports the completion, then takes the lock to write the next line.
 */
module InteractiveRuns {
  import opened Wrappers
  import opened Interactive
  import opened Overtaking

  // A line written to a process that has not answered it.
  datatype Owed = Owed(proc: nat, line: nat)

  // A completion, and the line its cause was about.
  datatype Completion = Completion(line: Option<nat>, isError: bool)

  datatype World = World(
    e: Engine,
    accepted: seq<string>,
    attempted: seq<string>,     // lines handed to _write_user_line
    owed: seq<Owed>,
    checked: set<nat>,          // readers holding a result, stop already checked
    told: set<nat>,             // readers that reported it and want the lock
    ended: set<nat>,
    done: seq<Completion>)

  datatype Step =
    | SendStep(text: string, luck: Luck)
    | CheckStep(proc: nat)
    | TellStep(proc: nat, isError: bool)
    | AdvanceStep(proc: nat, luck: Luck)
    | EofStep(proc: nat)
    | StopStep

  function Init(started: bool): World {
    World(Engine(None, false, [], false, false, started, [], [], []), [], [], [], {}, {}, {}, [])
  }

  // The first line a process still owes an answer to.
  function FirstOwed(owed: seq<Owed>, p: nat): (line: Option<nat>) {
    if owed == [] then None
    else if owed[0].proc == p then Some(owed[0].line)
    else FirstOwed(owed[1..], p)
  }

  function Answered(owed: seq<Owed>, p: nat): seq<Owed> {
    if owed == [] then []
    else if owed[0].proc == p then owed[1..]
    else [owed[0]] + Answered(owed[1..], p)
  }

  // A process whose output ended answers nothing any more.
  function Silenced(owed: seq<Owed>, p: nat): seq<Owed> {
    if owed == [] then []
    else if owed[0].proc == p then Silenced(owed[1..], p)
    else [owed[0]] + Silenced(owed[1..], p)
  }

  // Bookkeeping for one call of _write_user_line that takes the engine to e'.
  function Attempt(w: World, text: string, ok: bool, e': Engine): World {
    var line := |w.attempted|;
    var w' := w.(e := e', attempted := w.attempted + [text]);
    if ok && e'.proc.Some? then w'.(owed := w.owed + [Owed(e'.proc.value, line)])
    else w'.(done := w.done + [Completion(Some(line), true)])
  }

  predicate Reads(w: World, p: nat) {
    p < |w.e.spawns| && p !in w.ended && p !in w.checked && p !in w.told
  }

  // A process yields at most one result per line it was given.
  predicate Allowed(w: World, step: Step) {
    match step
    case CheckStep(p) => Reads(w, p) && FirstOwed(w.owed, p).Some? && !w.e.stopped
    case TellStep(p, _) => p in w.checked
    case AdvanceStep(p, _) => p in w.told
    case EofStep(p) => Reads(w, p)
    case _ => true
  }

  function Next(w: World, step: Step): World
    requires Allowed(w, step)
  {
    match step
    case SendStep(text, luck) =>
      var e' := Send(w.e, text, luck);
      if w.e.stopped then w.(e := e')
      else if w.e.inFlight then w.(e := e', accepted := w.accepted + [text])
      else Attempt(w.(accepted := w.accepted + [text]), text, WriteSucceeds(w.e.(respawned := false), luck), e')
    case CheckStep(p) => w.(checked := w.checked + {p})
    case TellStep(p, isError) =>
      w.(e := TellResult(w.e, isError), checked := w.checked - {p}, told := w.told + {p},
         owed := Answered(w.owed, p), done := w.done + [Completion(FirstOwed(w.owed, p), isError)])
    case AdvanceStep(p, luck) =>
      var e' := Advance(w.e, luck);
      var freed := w.(told := w.told - {p});
      if w.e.pending == [] then freed.(e := e')
      else Attempt(freed, w.e.pending[0], WriteSucceeds(w.e, luck), e')
    case EofStep(p) =>
      var told := if EofFails(w.e, p) then [Completion(FirstOwed(w.owed, p), true)] else [];
      w.(e := Eof(w.e, p), ended := w.ended + {p}, owed := Silenced(w.owed, p), done := w.done + told)
    case StopStep => w.(e := Stop(w.e))
  }

  function Run(w: World, steps: seq<Step>): World {
    if steps == [] then w
    else
      var before := Run(w, steps[..|steps| - 1]);
      var step := steps[|steps| - 1];
      if Allowed(before, step) then Next(before, step) else before
  }

  // ---------- The invariant ----------

  // The k-th completion is about the k-th line.
  ghost predicate Counted(w: World) {
    && |w.done| == |w.e.completions|
    && (forall k | 0 <= k < |w.done| :: w.done[k] == Completion(Some(k), w.e.completions[k]))
    && |w.attempted| == |w.done| + (if w.e.inFlight && w.told == {} then 1 else 0)
  }

  // The newest process owes the newest line; nothing else is owed to anyone.
  ghost predicate OwesOnlyTheLast(w: World) {
    && (w.owed != [] ==>
          && |w.owed| == 1
          && w.e.proc == Some(w.owed[0].proc)
          && w.owed[0].line + 1 == |w.attempted|
          && w.e.inFlight && w.told == {})
    && (!w.e.stopped && w.e.inFlight && w.told == {} ==> w.owed != [])
  }

  ghost predicate Below(s: set<nat>, n: nat) {
    forall p | p in s :: p < n
  }

  ghost predicate ReadersAreSound(w: World) {
    && Below(w.checked, |w.e.spawns|) && Below(w.told, |w.e.spawns|) && Below(w.ended, |w.e.spawns|)
    && (w.e.proc.Some? ==> w.e.proc.value < |w.e.spawns|)
    && (forall p | p in w.checked :: w.e.proc == Some(p) && w.owed != [] && p !in w.ended)
    && (forall p | p in w.told :: w.e.proc == Some(p) && w.e.inFlight && p !in w.ended)
  }

  ghost predicate ResumesAfterWriting(e: Engine) {
    && (e.written != [] ==> e.startedOnce)
    && (forall k | 0 <= k < |e.spawns| :: e.spawns[k].resume || e.spawns[k].linesBefore == 0)
  }

  ghost predicate Sound(w: World) {
    Counted(w) && OwesOnlyTheLast(w) && ReadersAreSound(w) && ResumesAfterWriting(w.e)
  }

  lemma WriteOutcome(e: Engine, text: string, luck: Luck)
    ensures var e' := WriteUserLine(e, text, luck);
            && e'.proc.Some? && |e.spawns| <= |e'.spawns|
            && ((e.proc.Some? ==> e.proc.value < |e.spawns|) ==> e'.proc.value < |e'.spawns|)
            && e'.stopped == e.stopped && e'.pending == e.pending
            && e'.inFlight == (e.inFlight && WriteSucceeds(e, luck))
            && e'.completions == e.completions + (if WriteSucceeds(e, luck) then [] else [true])
  {
  }

  lemma SpawnResumes(e: Engine, resume: bool)
    requires ResumesAfterWriting(e) && (resume || !e.startedOnce)
    ensures ResumesAfterWriting(DoSpawn(e, resume))
  {
  }

  lemma WriteResumes(e: Engine, text: string, luck: Luck)
    requires ResumesAfterWriting(e)
    ensures ResumesAfterWriting(WriteUserLine(e, text, luck))
  {
    SpawnResumes(e, e.startedOnce);
    var ready := if e.proc.None? || luck.dead then DoSpawn(e, e.startedOnce) else e;
    SpawnResumes(ready.(respawned := true), true);
  }

  lemma AttemptIsSound(w: World, e: Engine, text: string, luck: Luck)
    requires ResumesAfterWriting(e)
    requires Below(w.ended, |e.spawns|) && (e.proc.Some? ==> e.proc.value < |e.spawns|)
    requires e.inFlight && w.owed == [] && w.told == {} && w.checked == {}
    requires |w.attempted| == |w.done| == |e.completions|
    requires forall k | 0 <= k < |w.done| :: w.done[k] == Completion(Some(k), e.completions[k])
    ensures Sound(Attempt(w, text, WriteSucceeds(e, luck), WriteUserLine(e, text, luck)))
  {
    WriteOutcome(e, text, luck);
    WriteResumes(e, text, luck);
  }

  lemma OneOwed(owed: seq<Owed>, p: nat)
    requires |owed| == 1
    ensures FirstOwed(owed, p) == if owed[0].proc == p then Some(owed[0].line) else None
    ensures Answered(owed, p) == Silenced(owed, p) == if owed[0].proc == p then [] else owed
  {
    assert owed == [owed[0]];
    assert owed[1..] == [];
    assert Silenced(owed[1..], p) == [] && Answered(owed[1..], p) == [];
  }

  lemma StepIsSound(w: World, step: Step)
    requires Sound(w) && Allowed(w, step)
    ensures Sound(Next(w, step))
  {
    match step {
      case SendStep(text, luck) =>
        if !w.e.stopped && !w.e.inFlight {
          AttemptIsSound(w.(accepted := w.accepted + [text]), w.e.(inFlight := true, respawned := false), text, luck);
        }
      case CheckStep(p) =>
        if w.owed != [] { OneOwed(w.owed, p); }
      case TellStep(p, isError) =>
        TellIsSound(w, p, isError);
      case AdvanceStep(p, luck) =>
        AdvanceIsSound(w, p, luck);
      case EofStep(p) =>
        EofIsSound(w, p);
      case _ =>
    }
  }

  lemma TellIsSound(w: World, p: nat, isError: bool)
    requires Sound(w) && p in w.checked
    ensures Sound(Next(w, TellStep(p, isError)))
  {
    assert w.checked - {p} == {};
    OneOwed(w.owed, p);
  }

  lemma AdvanceIsSound(w: World, p: nat, luck: Luck)
    requires Sound(w) && p in w.told
    ensures Sound(Next(w, AdvanceStep(p, luck)))
  {
    assert w.told - {p} == {} && w.checked == {};
    if w.e.pending != [] {
      AttemptIsSound(w.(told := {}), w.e.(pending := w.e.pending[1..]), w.e.pending[0], luck);
    }
  }

  // An ending process fails exactly the line it owes, if it owes one.
  lemma EofIsSound(w: World, p: nat)
    requires Sound(w) && Reads(w, p)
    ensures Sound(Next(w, EofStep(p)))
    ensures EofFails(w.e, p) <==> !w.e.stopped && FirstOwed(w.owed, p).Some?
  {
    if w.owed != [] {
      OneOwed(w.owed, p);
    }
  }

  lemma {:induction false} RunIsSound(w: World, steps: seq<Step>)
    requires Sound(w)
    ensures Sound(Run(w, steps))
  {
    if steps != [] {
      var before := Run(w, steps[..|steps| - 1]);
      RunIsSound(w, steps[..|steps| - 1]);
      if Allowed(before, steps[|steps| - 1]) {
        StepIsSound(before, steps[|steps| - 1]);
      }
    }
  }

  // ---------- Main results ----------

  // Over every interleaving: the k-th completion is about the k-th line tried,
  // so a line completes at most once and in order; at most one line is
  // unanswered; and no --session-id spawn follows a successful write.
  lemma EveryLineCompletesOnce(started: bool, steps: seq<Step>)
    ensures var w := Run(Init(started), steps);
            && |w.done| == |w.e.completions|
            && (forall k | 0 <= k < |w.done| :: w.done[k] == Completion(Some(k), w.e.completions[k]))
            && |w.attempted| == |w.done| + (if w.e.inFlight && w.told == {} then 1 else 0)
            && |w.owed| <= 1
            && (forall k | 0 <= k < |w.e.spawns| :: w.e.spawns[k].resume || w.e.spawns[k].linesBefore == 0)
  {
    RunIsSound(Init(started), steps);
  }

  // Over every interleaving: the end of a process that was replaced, or that owes
  // nothing, completes nothing; the end of one that owes a line fails that line.
  lemma EofCompletesOnlyWhatIsOwed(started: bool, steps: seq<Step>, p: nat)
    ensures var w := Run(Init(started), steps);
            Allowed(w, EofStep(p)) ==>
              && Next(w, EofStep(p)).done == w.done +
                 (if !w.e.stopped && FirstOwed(w.owed, p).Some? then [Completion(FirstOwed(w.owed, p), true)] else [])
              && (w.e.proc != Some(p) ==> FirstOwed(w.owed, p).None?)
  {
    var w := Run(Init(started), steps);
    RunIsSound(Init(started), steps);
    if Allowed(w, EofStep(p)) {
      EofIsSound(w, p);
      if w.owed != [] { OneOwed(w.owed, p); }
    }
  }

  // ---------- Accepted texts ----------

  ghost predicate SameTexts(w: World) {
    multiset(w.attempted) + multiset(w.e.pending) == multiset(w.accepted)
  }

  predicate InOrder(w: World) {
    w.attempted + w.e.pending == w.accepted
  }

  // A text is sent to an idle engine in which others wait.
  predicate Overtakes(w: World, step: Step) {
    step.SendStep? && !w.e.stopped && !w.e.inFlight && w.e.pending != []
  }

  lemma SendTexts(w: World, text: string, luck: Luck)
    ensures var w' := Next(w, SendStep(text, luck));
            && (w.e.stopped ==> w' == w)
            && (!w.e.stopped ==> w'.accepted == w.accepted + [text])
            && (!w.e.stopped && w.e.inFlight ==> w'.attempted == w.attempted && w'.e.pending == w.e.pending + [text])
            && (!w.e.stopped && !w.e.inFlight ==> w'.attempted == w.attempted + [text] && w'.e.pending == w.e.pending)
  {
    WriteOutcome(w.e.(inFlight := true, respawned := false), text, luck);
  }

  lemma AdvanceTexts(w: World, p: nat, luck: Luck)
    requires p in w.told
    ensures var w' := Next(w, AdvanceStep(p, luck));
            && w'.accepted == w.accepted
            && (w.e.pending == [] ==> w'.attempted == w.attempted && w'.e.pending == [])
            && (w.e.pending != [] ==> w'.attempted == w.attempted + [w.e.pending[0]] && w'.e.pending == w.e.pending[1..])
  {
    if w.e.pending != [] { WriteOutcome(w.e.(pending := w.e.pending[1..]), w.e.pending[0], luck); }
  }

  lemma StepTexts(w: World, step: Step)
    requires Allowed(w, step)
    ensures var w' := Next(w, step);
            && (SameTexts(w) ==> SameTexts(w'))
            && (InOrder(w) && !Overtakes(w, step) ==> InOrder(w'))
            && (Distinct(w'.accepted) ==> Distinct(w.accepted) && (InOrder(w') <==> InOrder(w) && !Overtakes(w, step)))
  {
    match step {
      case SendStep(text, luck) =>
        SendTexts(w, text, luck);
        Queued(w.attempted, w.e.pending, w.accepted, text);
        TriedAtOnce(w.attempted, w.e.pending, w.accepted, text);
        if Distinct(w.accepted + [text]) { DistinctPrefix(w.accepted, text); }
      case AdvanceStep(p, luck) =>
        AdvanceTexts(w, p, luck);
        if w.e.pending != [] { FirstTried(w.attempted, w.e.pending); }
      case _ =>
    }
  }

  predicate OvertakesAt(started: bool, steps: seq<Step>, i: nat)
    requires i < |steps|
  {
    Overtakes(Run(Init(started), steps[..i]), steps[i])
  }

  predicate NeverOvertakes(started: bool, steps: seq<Step>) {
    forall i: nat | i < |steps| :: !OvertakesAt(started, steps, i)
  }

  lemma NeverOvertakesOneMore(started: bool, steps: seq<Step>, n: nat)
    requires |steps| == n + 1
    ensures NeverOvertakes(started, steps) <==> NeverOvertakes(started, steps[..n]) && !OvertakesAt(started, steps, n)
  {
    forall i: nat | i < n ensures OvertakesAt(started, steps[..n], i) == OvertakesAt(started, steps, i) {
      assert steps[..n][..i] == steps[..i];
    }
  }

  // Over every run: no accepted text is lost or invented; they are tried, and wait,
  // in the order accepted if no text was sent to an idle engine in which others
  // wait, and, when no two are the same, only if.
  lemma {:induction false} TextsInOrderExactlyWhenNoneOvertakes(started: bool, steps: seq<Step>)
    ensures var w := Run(Init(started), steps);
            && SameTexts(w)
            && (NeverOvertakes(started, steps) ==> InOrder(w))
            && (Distinct(w.accepted) ==> (InOrder(w) <==> NeverOvertakes(started, steps)))
  {
    if steps != [] {
      var n := |steps| - 1;
      var before := Run(Init(started), steps[..n]);
      TextsInOrderExactlyWhenNoneOvertakes(started, steps[..n]);
      NeverOvertakesOneMore(started, steps, n);
      if Allowed(before, steps[n]) {
        StepTexts(before, steps[n]);
      }
    }
  }

  // No turn in flight although texts wait.
  predicate Stranded(w: World) {
    !w.e.inFlight && w.e.pending != []
  }

  // A line fails while texts wait: its process ends, or it cannot be written.
  predicate FailsWaiting(w: World, step: Step) {
    || (step.EofStep? && EofFails(w.e, step.proc) && w.e.pending != [])
    || (step.AdvanceStep? && |w.e.pending| > 1 && !WriteSucceeds(w.e, step.luck))
  }

  lemma StrandsExactlyByFailing(w: World, step: Step)
    requires Sound(w) && Allowed(w, step) && !Stranded(w)
    ensures Stranded(Next(w, step)) <==> FailsWaiting(w, step)
  {
    match step {
      case SendStep(text, luck) =>
        WriteOutcome(w.e.(inFlight := true, respawned := false), text, luck);
      case AdvanceStep(p, luck) =>
        if w.e.pending != [] { WriteOutcome(w.e.(pending := w.e.pending[1..]), w.e.pending[0], luck); }
      case _ =>
    }
  }

  predicate FailsWaitingAt(started: bool, steps: seq<Step>, i: nat)
    requires i < |steps|
  {
    FailsWaiting(Run(Init(started), steps[..i]), steps[i])
  }

  lemma {:induction false} NeverStranded(started: bool, steps: seq<Step>)
    requires forall i: nat | i < |steps| :: !FailsWaitingAt(started, steps, i)
    ensures !Stranded(Run(Init(started), steps)) && NeverOvertakes(started, steps)
  {
    if steps != [] {
      var n := |steps| - 1;
      var before := Run(Init(started), steps[..n]);
      forall i: nat | i < n ensures !FailsWaitingAt(started, steps[..n], i) {
        assert !FailsWaitingAt(started, steps, i) && steps[..n][..i] == steps[..i];
      }
      assert !FailsWaitingAt(started, steps, n);
      NeverStranded(started, steps[..n]);
      NeverOvertakesOneMore(started, steps, n);
      RunIsSound(Init(started), steps[..n]);
      if Allowed(before, steps[n]) {
        StrandsExactlyByFailing(before, steps[n]);
      }
    }
  }

  // So in a run in which no line fails while texts wait, all are in order.
  lemma OrderKeptUntilALineFailsWaiting(started: bool, steps: seq<Step>)
    requires forall i: nat | i < |steps| :: !FailsWaitingAt(started, steps, i)
    ensures InOrder(Run(Init(started), steps))
  {
    NeverStranded(started, steps);
    TextsInOrderExactlyWhenNoneOvertakes(started, steps);
  }

  // ---------- Where the guarantees end ----------

  // After stop, lines are still written (and processes spawned) by a reader that
  // had reported a result before it saw the stop, exactly when texts are pending.
  lemma WritesAfterStop(w: World, step: Step)
    requires w.e.stopped && Allowed(w, step)
    ensures Next(w, step).attempted != w.attempted <==> step.AdvanceStep? && w.e.pending != []
    ensures Next(w, step).e.spawns != w.e.spawns ==>
              step.AdvanceStep? && w.e.pending != [] && (w.e.proc.None? || step.luck.dead || !step.luck.first)
    ensures Next(w, step).e.stopped && (step.SendStep? ==> Next(w, step) == w)
  {
  }

  lemma SpawnAfterStop(a: string, b: string, ok: Luck, late: Luck)
    requires ok == Luck(false, true, true) && late == Luck(true, true, true)
    ensures var w1 := Next(Next(Init(false), SendStep(a, ok)), SendStep(b, ok));
            Allowed(w1, CheckStep(0)) && Allowed(Next(w1, CheckStep(0)), TellStep(0, false)) &&
            var w2 := Next(Next(Next(w1, CheckStep(0)), TellStep(0, false)), StopStep);
            && w2.e.stopped && Allowed(w2, AdvanceStep(0, late))
            && |Next(w2, AdvanceStep(0, late)).e.spawns| == |w2.e.spawns| + 1
  {
  }

  // The end of a process fails the line in flight and leaves the pending ones
  // where they are: the next send overtakes them, unless they say the same.
  lemma SendKeepsOrderExactlyWhenNothingWaits(w: World, text: string, luck: Luck)
    requires !w.e.stopped && w.attempted + w.e.pending == w.accepted
    ensures var w' := Next(w, SendStep(text, luck));
            w'.attempted + w'.e.pending == w'.accepted
            <==> w.e.inFlight || forall k | 0 <= k < |w.e.pending| :: w.e.pending[k] == text
  {
    var w' := Next(w, SendStep(text, luck));
    var pending := w.e.pending;
    if w.e.inFlight {
      assert w'.attempted + w'.e.pending == w.attempted + pending + [text];
    } else {
      WriteOutcome(w.e.(inFlight := true, respawned := false), text, luck);
      Rotation(pending, text);
      assert w'.attempted + w'.e.pending == w.attempted + ([text] + pending);
      assert w'.accepted == w.attempted + (pending + [text]);
      CommonPrefix(w.attempted, [text] + pending, pending + [text]);
    }
  }

  lemma PendingIsOvertaken(a: string, b: string, c: string, ok: Luck)
    requires ok == Luck(false, true, true)
    ensures var w1 := Next(Next(Init(false), SendStep(a, ok)), SendStep(b, ok));
            Allowed(w1, EofStep(0)) &&
            var w2 := Next(Next(w1, EofStep(0)), SendStep(c, ok));
            w2.attempted == [a, c] && w2.e.pending == [b] && w2.accepted == [a, b, c]
  {
  }

  // ---------- Lines that are never answered ----------

  // Nothing is left that could complete the line in flight: no reader holds a
  // result, and its process has ended or the engine is stopped.
  ghost predicate Hangs(w: World) {
    && w.e.inFlight && w.told == {} && w.checked == {}
    && (w.e.stopped || (w.owed != [] && w.owed[0].proc in w.ended))
  }

  lemma HangingStays(w: World, step: Step)
    requires Sound(w) && Hangs(w) && Allowed(w, step)
    ensures Hangs(Next(w, step)) && Next(w, step).done == w.done
  {
    if w.owed != [] && (step.CheckStep? || step.EofStep?) {
      OneOwed(w.owed, step.proc);
    }
  }

  lemma {:induction false} HangsForGood(w: World, steps: seq<Step>)
    requires Sound(w) && Hangs(w)
    ensures Hangs(Run(w, steps)) && Run(w, steps).done == w.done
  {
    if steps != [] {
      var before, step := Run(w, steps[..|steps| - 1]), steps[|steps| - 1];
      HangsForGood(w, steps[..|steps| - 1]);
      RunIsSound(w, steps[..|steps| - 1]);
      if Allowed(before, step) { HangingStays(before, step); }
    }
  }

  lemma OneStep(w: World, step: Step)
    requires Allowed(w, step)
    ensures Run(w, [step]) == Next(w, step)
  {
    assert [step][..0] == [];
    assert Run(w, []) == w;
  }

  // The step that completes the line in flight while one can.
  lemma AnswerExists(w: World) returns (step: Step)
    requires Sound(w) && w.e.inFlight && w.told == {} && !Hangs(w)
    ensures Allowed(w, step) && |Next(w, step).done| == |w.done| + 1
  {
    if w.checked != {} {
      var p :| p in w.checked;
      step := TellStep(p, false);
    } else {
      step := EofStep(w.owed[0].proc);
    }
  }

  // Some continuation completes the line in flight exactly when a reader already
  // holds its result, or the engine is not stopped and the output of the
  // line's process has not ended. Otherwise the engine stays in flight for good.
  lemma LineCanCompleteExactlyWhenItsProcessSpeaks(w: World)
    requires Sound(w) && w.e.inFlight && w.told == {}
    ensures (exists steps :: |Run(w, steps).done| > |w.done|) <==>
              w.checked != {} || (!w.e.stopped && w.owed[0].proc !in w.ended)
    ensures w.checked == {} && (w.e.stopped || w.owed[0].proc in w.ended) ==>
              forall steps :: Run(w, steps).e.inFlight && Run(w, steps).done == w.done
  {
    if Hangs(w) {
      forall steps ensures Run(w, steps).e.inFlight && Run(w, steps).done == w.done {
        HangsForGood(w, steps);
      }
    } else {
      var step := AnswerExists(w);
      OneStep(w, step);
      assert |Run(w, [step]).done| > |w.done|;
    }
  }

  // Such a state is reached when a line is written to a process whose output has
  // ended but which still takes input.
  lemma LineWrittenAfterTheEndHangs(a: string, b: string, ok: Luck)
    requires ok == Luck(false, true, true)
    ensures var w1 := Next(Init(false), SendStep(a, ok));
            Allowed(w1, EofStep(0)) &&
            var w := Next(Next(w1, EofStep(0)), SendStep(b, ok));
            w.e.written == [a, b] && w.done == [Completion(Some(0), true)] && !w.e.stopped && Hangs(w)
  {
    var w1 := Next(Init(false), SendStep(a, ok));
    assert w1.owed == [Owed(0, 0)];
    OneOwed(w1.owed, 0);
    var w := Next(Next(w1, EofStep(0)), SendStep(b, ok));
    assert w.owed == [Owed(0, 1)] && 0 in w.ended;
  }
}
