/**
 A Codex engine with its callers and the reader threads of all its processes.
 The engine never says which turn it completes; here every turn, process and
 completion carries its number, so that completing the wrong one shows.
 */
module CodexRuns {
  import opened Wrappers
  import opened Codex
  import opened Overtaking

  // A turn reported complete because of turn cause's own process, or its failed spawn.
  datatype Completion = Completion(cause: nat, isError: bool)

  datatype World = World(
    e: Engine,
    accepted: seq<string>,       // texts taken by send before stop
    started: seq<string>,        // texts whose turn began, in order
    turnOf: seq<nat>,            // the turn each process was spawned for
    spoken: set<nat>,            // processes whose terminal event has been read
    ended: set<nat>,             // processes whose output has ended
    done: seq<Completion>,
    spawnFailed: bool)

  datatype Step =
    | SendStep(text: string, spawnOk: bool)
    | ThreadStartedStep(id: string)
    | TerminalStep(proc: nat, isError: bool, spawnOk: bool)
    | EofStep(proc: nat, spawnOk: bool)
    | StopStep

  function Init(sessionId: Option<string>): World {
    World(Engine(sessionId, false, [], false, None, false, [], []), [], [], [], {}, {}, [], false)
  }

  // Bookkeeping for a turn that begins with this text.
  function Began(w: World, text: string, spawnOk: bool): World {
    var turn := |w.started|;
    var w' := w.(started := w.started + [text]);
    if spawnOk then w'.(turnOf := w.turnOf + [turn])
    else w'.(done := w.done + [Completion(turn, true)], spawnFailed := true)
  }

  // Bookkeeping for a completion caused by process p.
  function Told(w: World, p: nat, isError: bool, spawnOk: bool): World
    requires p < |w.turnOf|
  {
    var w' := w.(done := w.done + [Completion(w.turnOf[p], isError)]);
    if w.e.pending == [] then w' else Began(w', w.e.pending[0], spawnOk)
  }

  // What the environment may do: a process speaks at most once, before it ends.
  predicate Allowed(w: World, step: Step) {
    match step
    case TerminalStep(p, _, _) => p < |w.turnOf| && p !in w.ended && p !in w.spoken
    case EofStep(p, _) => p < |w.turnOf| && p !in w.ended
    case _ => true
  }

  function Next(w: World, step: Step): World
    requires Allowed(w, step)
  {
    match step
    case SendStep(text, ok) =>
      var w' := w.(e := Send(w.e, text, ok));
      if w.e.stopped then w'
      else if w.e.inFlight then w'.(accepted := w.accepted + [text])
      else Began(w'.(accepted := w.accepted + [text]), text, ok)
    case ThreadStartedStep(id) => w.(e := ThreadStarted(w.e, id))
    case TerminalStep(p, isError, ok) => Terminal(w, p, isError, ok)
    case EofStep(p, ok) =>
      var w' := (if EofFails(w.e, p) then Told(w, p, true, ok) else w);
      w'.(e := Eof(w.e, p, ok), ended := w.ended + {p})
    case StopStep => w.(e := Stop(w.e))
  }

  // Also defined for a process that has spoken before, to say what goes wrong then.
  function Terminal(w: World, p: nat, isError: bool, ok: bool): World
    requires p < |w.turnOf|
  {
    var w' := if FinishIgnored(w.e) then w else Told(w, p, isError, ok);
    w'.(e := Finish(w.e, isError, ok), spoken := w.spoken + {p})
  }

  // Every run: steps the environment may not take are left out.
  function Run(w: World, steps: seq<Step>): World {
    if steps == [] then w
    else
      var before := Run(w, steps[..|steps| - 1]);
      var step := steps[|steps| - 1];
      if Allowed(before, step) then Next(before, step) else before
  }

  // ---------- The invariant ----------

  // A process that may still report its turn over.
  predicate Live(w: World, p: nat) {
    p < |w.turnOf| && p !in w.spoken && p !in w.ended
  }

  // Completions are numbered as turns are.
  ghost predicate Counted(w: World) {
    && |w.done| == |w.e.completions|
    && (forall k | 0 <= k < |w.done| :: w.done[k] == Completion(k, w.e.completions[k]))
    && |w.started| == |w.done| + (if w.e.inFlight then 1 else 0)
    && (w.e.inFlight ==> !w.e.finished)
  }

  // Only the newest process, working on the turn in flight, may still speak.
  ghost predicate Owned(w: World) {
    && |w.turnOf| == |w.e.spawned|
    && (forall p | p in w.spoken || p in w.ended :: p < |w.turnOf|)
    && (!w.e.stopped && w.e.inFlight ==> w.e.proc.Some? && Live(w, w.e.proc.value))
    && (!w.e.stopped ==> forall p: nat | Live(w, p) ::
          w.e.inFlight && w.e.proc == Some(p) && w.turnOf[p] == |w.started| - 1)
    && (!w.e.stopped ==> forall p | p in w.spoken :: w.turnOf[p] < |w.done|)
  }

  // No text is lost, and unless a spawn failed none overtakes another.
  ghost predicate InOrder(w: World) {
    && (!w.spawnFailed ==> w.started + w.e.pending == w.accepted && (w.e.inFlight || w.e.pending == []))
    && SameTexts(w.started, w.e.pending, w.accepted)
  }

  ghost predicate SameTexts(started: seq<string>, pending: seq<string>, accepted: seq<string>) {
    multiset(started) + multiset(pending) == multiset(accepted)
  }

  ghost predicate Sound(w: World) {
    Counted(w) && Owned(w) && InOrder(w)
  }

  lemma SendIsCounted(w: World, text: string, ok: bool)
    requires Counted(w)
    ensures Counted(Next(w, SendStep(text, ok)))
  {
  }

  lemma SendIsOwned(w: World, text: string, ok: bool)
    requires Counted(w) && Owned(w)
    ensures Owned(Next(w, SendStep(text, ok)))
  {
    var w' := Next(w, SendStep(text, ok));
    forall p: nat | Live(w', p) ensures Live(w, p) || p == |w.turnOf| { }
  }

  lemma OneMoreText(started: seq<string>, pending: seq<string>, accepted: seq<string>, x: string)
    requires SameTexts(started, pending, accepted)
    ensures SameTexts(started + [x], pending, accepted + [x])
    ensures SameTexts(started, pending + [x], accepted + [x])
  {
  }

  lemma NextText(started: seq<string>, pending: seq<string>, accepted: seq<string>)
    requires SameTexts(started, pending, accepted) && pending != []
    ensures SameTexts(started + [pending[0]], pending[1..], accepted)
  {
    assert pending == [pending[0]] + pending[1..];
  }

  lemma SendIsInOrder(w: World, text: string, ok: bool)
    requires InOrder(w)
    ensures InOrder(Next(w, SendStep(text, ok)))
  {
    var w' := Next(w, SendStep(text, ok));
    OneMoreText(w.started, w.e.pending, w.accepted, text);
    if !w.e.stopped {
      assert w'.accepted == w.accepted + [text];
      if w.e.inFlight {
        assert w'.e.pending == w.e.pending + [text] && w'.started == w.started;
        assert w.started + w.e.pending + [text] == w.started + w'.e.pending;
      } else {
        assert w'.e.pending == w.e.pending && w'.started == w.started + [text];
      }
    }
  }

  lemma TurnOverIsOwned(w: World, w': World, p: nat)
    requires Counted(w) && Owned(w) && !w.e.stopped && Live(w, p) && Counted(w')
    requires !w'.e.stopped && |w'.turnOf| == |w'.e.spawned|
    requires w'.spoken == w.spoken + {p} || w'.spoken == w.spoken
    requires w'.ended == w.ended + {p} || w'.ended == w.ended
    requires p in w'.spoken || p in w'.ended
    requires if w'.e.inFlight then w'.turnOf == w.turnOf + [|w.started|] && w'.e.proc == Some(|w.turnOf|) else w'.turnOf == w.turnOf
    requires |w.done| < |w'.done|
    requires w'.e.inFlight ==> |w'.started| == |w.started| + 1
    ensures Owned(w')
  {
    forall q: nat | Live(w', q) ensures q == |w.turnOf| {
      assert Live(w, q) || q == |w.turnOf|;
    }
  }

  lemma ToldIsInOrder(w: World, p: nat, isError: bool, ok: bool)
    requires InOrder(w) && w.e.inFlight && p < |w.turnOf|
    ensures InOrder(Told(w, p, isError, ok).(e := CompleteAndGoOn(w.e, isError, ok)))
  {
    var pending := w.e.pending;
    if pending != [] {
      NextText(w.started, pending, w.accepted);
      assert w.started + [pending[0]] + pending[1..] == w.started + pending;
    }
  }

  lemma ToldIsCounted(w: World, p: nat, isError: bool, ok: bool)
    requires Counted(w) && w.e.inFlight && p < |w.turnOf| && w.turnOf[p] == |w.started| - 1
    ensures Counted(Told(w, p, isError, ok).(e := CompleteAndGoOn(w.e, isError, ok)))
    ensures Counted(Told(w, p, isError, ok).(e := CompleteAndGoOn(w.e.(finished := true), isError, ok)))
  {
  }

  // The current process speaks: its turn is over, the next begins.
  lemma SpeakingIsSound(w: World, p: nat, isError: bool, ok: bool)
    requires Sound(w) && !w.e.stopped && Live(w, p)
    ensures Sound(Terminal(w, p, isError, ok))
  {
    var w' := Terminal(w, p, isError, ok);
    ToldIsCounted(w, p, isError, ok);
    assert Counted(w');
    ToldIsInOrder(w, p, isError, ok);
    assert InOrder(w');
    TurnOverIsOwned(w, w', p);
  }

  // The current process ends without having spoken.
  lemma EndingIsSound(w: World, p: nat, ok: bool)
    requires Sound(w) && !w.e.stopped && Live(w, p)
    ensures EofFails(w.e, p) && Sound(Next(w, EofStep(p, ok)))
  {
    var w' := Next(w, EofStep(p, ok));
    ToldIsCounted(w, p, true, ok);
    assert Counted(w');
    ToldIsInOrder(w, p, true, ok);
    assert InOrder(w');
    TurnOverIsOwned(w, w', p);
  }

  lemma SendIsSound(w: World, text: string, ok: bool)
    requires Sound(w)
    ensures Sound(Next(w, SendStep(text, ok)))
  {
    SendIsCounted(w, text, ok);
    SendIsOwned(w, text, ok);
    SendIsInOrder(w, text, ok);
  }

  lemma ThreadStartedIsSound(w: World, id: string)
    requires Sound(w)
    ensures Sound(Next(w, ThreadStartedStep(id)))
  {
    var w' := Next(w, ThreadStartedStep(id));
    forall p: nat ensures Live(w', p) == Live(w, p) { }
  }

  lemma StopIsSound(w: World)
    requires Sound(w)
    ensures Sound(Next(w, StopStep))
  {
    var w' := Next(w, StopStep);
    forall p: nat ensures Live(w', p) == Live(w, p) { }
  }

  // After stop a process may still speak; nothing is made of it.
  lemma LateSpeakingIsSound(w: World, p: nat, isError: bool, ok: bool)
    requires Sound(w) && w.e.stopped && p < |w.turnOf|
    ensures Sound(Terminal(w, p, isError, ok))
  {
    assert Terminal(w, p, isError, ok) == w.(spoken := w.spoken + {p});
  }

  // The end of a process that has spoken, or after stop, changes nothing else.
  lemma IdleEofIsSound(w: World, p: nat, ok: bool)
    requires Sound(w) && Allowed(w, EofStep(p, ok)) && (w.e.stopped || p in w.spoken)
    ensures Sound(Next(w, EofStep(p, ok)))
  {
    var w' := Next(w, EofStep(p, ok));
    if !w.e.stopped && w.e.inFlight { assert Live(w, w.e.proc.value); }
    assert !EofFails(w.e, p);
    assert w' == w.(ended := w.ended + {p});
    forall q: nat | Live(w', q) ensures Live(w, q) { }
  }

  lemma StepIsSound(w: World, step: Step)
    requires Sound(w) && Allowed(w, step)
    ensures Sound(Next(w, step))
  {
    match step {
      case SendStep(text, ok) => SendIsSound(w, text, ok);
      case ThreadStartedStep(id) => ThreadStartedIsSound(w, id);
      case TerminalStep(p, isError, ok) =>
        if w.e.stopped { LateSpeakingIsSound(w, p, isError, ok); } else { SpeakingIsSound(w, p, isError, ok); }
      case EofStep(p, ok) =>
        if w.e.stopped || p in w.spoken { IdleEofIsSound(w, p, ok); } else { EndingIsSound(w, p, ok); }
      case StopStep => StopIsSound(w);
    }
  }

  lemma {:induction false} RunIsSound(w: World, steps: seq<Step>)
    requires Sound(w)
    ensures Sound(Run(w, steps))
  {
    if steps != [] {
      var before := Run(w, steps[..|steps| - 1]);
      RunIsSound(w, steps[..|steps| - 1]);
      if Allowed(before, steps[|steps| - 1]) {
        StepIsSound(before, steps[|steps| - 1]);
      }
    }
  }

  // ---------- Main results ----------

  // Over every interleaving: the k-th completion is caused by the k-th turn, so
  // each turn completes at most once and in order; all turns but the one in
  // flight have completed; and no accepted text is lost or invented.
  lemma EveryTurnCompletesOnce(sessionId: Option<string>, steps: seq<Step>)
    ensures var w := Run(Init(sessionId), steps);
            && |w.e.completions| == |w.done| == |w.started| - (if w.e.inFlight then 1 else 0)
            && (forall k | 0 <= k < |w.done| :: w.done[k] == Completion(k, w.e.completions[k]))
            && SameTexts(w.started, w.e.pending, w.accepted)
            && (!w.spawnFailed ==> w.started + w.e.pending == w.accepted)
  {
    RunIsSound(Init(sessionId), steps);
  }

  // A text is sent to an idle engine in which others wait.
  predicate Overtakes(w: World, step: Step) {
    step.SendStep? && !w.e.stopped && !w.e.inFlight && w.e.pending != []
  }

  predicate TextsInOrder(w: World) {
    w.started + w.e.pending == w.accepted
  }

  // What a completion does to the texts: the first pending one is started.
  lemma CompletionTexts(w: World, step: Step)
    requires Sound(w) && Allowed(w, step) && (step.TerminalStep? || step.EofStep?)
    ensures var w' := Next(w, step);
            w'.accepted == w.accepted &&
            ((w'.started == w.started && w'.e.pending == w.e.pending)
             || (w.e.pending != [] && w'.started == w.started + [w.e.pending[0]] && w'.e.pending == w.e.pending[1..]))
  {
  }

  lemma StepTexts(w: World, step: Step)
    requires Sound(w) && Allowed(w, step)
    ensures var w' := Next(w, step);
            && (TextsInOrder(w) && !Overtakes(w, step) ==> TextsInOrder(w'))
            && (Distinct(w'.accepted) ==> Distinct(w.accepted) && (TextsInOrder(w') <==> TextsInOrder(w) && !Overtakes(w, step)))
  {
    match step {
      case SendStep(text, ok) =>
        Queued(w.started, w.e.pending, w.accepted, text);
        TriedAtOnce(w.started, w.e.pending, w.accepted, text);
        if Distinct(w.accepted + [text]) { DistinctPrefix(w.accepted, text); }
      case TerminalStep(_, _, _) =>
        CompletionTexts(w, step);
        if w.e.pending != [] { FirstTried(w.started, w.e.pending); }
      case EofStep(_, _) =>
        CompletionTexts(w, step);
        if w.e.pending != [] { FirstTried(w.started, w.e.pending); }
      case _ =>
    }
  }

  predicate OvertakesAt(sessionId: Option<string>, steps: seq<Step>, i: nat)
    requires i < |steps|
  {
    Overtakes(Run(Init(sessionId), steps[..i]), steps[i])
  }

  predicate NeverOvertakes(sessionId: Option<string>, steps: seq<Step>) {
    forall i: nat | i < |steps| :: !OvertakesAt(sessionId, steps, i)
  }

  lemma NeverOvertakesOneMore(sessionId: Option<string>, steps: seq<Step>, n: nat)
    requires |steps| == n + 1
    ensures NeverOvertakes(sessionId, steps) <==> NeverOvertakes(sessionId, steps[..n]) && !OvertakesAt(sessionId, steps, n)
  {
    forall i: nat | i < n ensures OvertakesAt(sessionId, steps[..n], i) == OvertakesAt(sessionId, steps, i) {
      assert steps[..n][..i] == steps[..i];
    }
  }

  // Over every run: texts are started, and wait, in the order accepted if none was
  // sent to an idle engine in which others wait, and, when no two are the same, only if.
  lemma {:induction false} TextsInOrderExactlyWhenNoneOvertakes(sessionId: Option<string>, steps: seq<Step>)
    ensures var w := Run(Init(sessionId), steps);
            && (NeverOvertakes(sessionId, steps) ==> TextsInOrder(w))
            && (Distinct(w.accepted) ==> (TextsInOrder(w) <==> NeverOvertakes(sessionId, steps)))
  {
    if steps != [] {
      var n := |steps| - 1;
      var before := Run(Init(sessionId), steps[..n]);
      TextsInOrderExactlyWhenNoneOvertakes(sessionId, steps[..n]);
      NeverOvertakesOneMore(sessionId, steps, n);
      RunIsSound(Init(sessionId), steps[..n]);
      if Allowed(before, steps[n]) {
        StepTexts(before, steps[n]);
      }
    }
  }

  // stop is for good: nothing started, completed or spawned after it.
  lemma {:induction false} NothingAfterStop(w: World, steps: seq<Step>)
    requires w.e.stopped
    ensures var w' := Run(w, steps);
            && w'.e.stopped
            && w'.done == w.done && w'.e.completions == w.e.completions
            && w'.started == w.started && w'.e.spawned == w.e.spawned
  {
    if steps != [] {
      NothingAfterStop(w, steps[..|steps| - 1]);
    }
  }

  // Once a thread id has been read every later spawn resumes a session.
  predicate Threaded(e: Engine) {
    e.sessionId.Some? && e.sessionId.value != ""
  }

  // Only resuming spawns were added.
  ghost predicate OnlyResumed(before: seq<Argv>, after: seq<Argv>) {
    && |before| <= |after| && after[..|before|] == before
    && forall k | |before| <= k < |after| :: after[k].Resume?
  }

  lemma StepResumes(w: World, step: Step)
    requires Threaded(w.e) && Allowed(w, step)
    ensures Threaded(Next(w, step).e)
    ensures OnlyResumed(w.e.spawned, Next(w, step).e.spawned)
  {
  }

  lemma {:induction false} SessionsAreResumed(w: World, steps: seq<Step>)
    requires Threaded(w.e)
    ensures Threaded(Run(w, steps).e)
    ensures OnlyResumed(w.e.spawned, Run(w, steps).e.spawned)
  {
    if steps != [] {
      var before, step := Run(w, steps[..|steps| - 1]), steps[|steps| - 1];
      SessionsAreResumed(w, steps[..|steps| - 1]);
      if Allowed(before, step) {
        StepResumes(before, step);
        OnlyResumedIsTransitive(w.e.spawned, before.e.spawned, Next(before, step).e.spawned);
      }
    }
  }

  lemma OnlyResumedIsTransitive(a: seq<Argv>, b: seq<Argv>, c: seq<Argv>)
    requires OnlyResumed(a, b) && OnlyResumed(b, c)
    ensures OnlyResumed(a, c)
  {
    assert c[..|a|] == b[..|a|];
    forall k | |a| <= k < |c| ensures c[k].Resume? {
      if k < |b| { assert c[k] == c[..|b|][k]; }
    }
  }

  // ---------- Where the guarantees end ----------

  // _finish does not ask whose event it is. A second terminal event from a
  // process is charged to another turn exactly when the guard lets it through.
  lemma SecondTerminalEventHitsAnotherTurn(w: World, p: nat, isError: bool, ok: bool)
    requires Sound(w) && p < |w.turnOf| && p in w.spoken
    ensures Counted(Terminal(w, p, isError, ok)) <==> FinishIgnored(w.e)
    ensures !FinishIgnored(w.e) ==> Terminal(w, p, isError, ok).done[|w.done|].cause < |w.done|
  {
    if !FinishIgnored(w.e) {
      assert Terminal(w, p, isError, ok).done[|w.done|] == Completion(w.turnOf[p], isError);
    } else {
      assert w.spoken + {p} == w.spoken;
    }
  }

  // Such a state is reached with two sends and one terminal event: the second
  // event of the first process completes the second turn, which its own process
  // is still working on.
  lemma SecondEventCompletesTheNextTurn(a: string, b: string, isError: bool)
    ensures var w := Next(Next(Init(None), SendStep(a, true)), SendStep(b, true));
            && Allowed(w, TerminalStep(0, isError, true))
            && var w1 := Next(w, TerminalStep(0, isError, true));
               var w2 := Terminal(w1, 0, isError, true);
               && !FinishIgnored(w1.e) && w1.e.inFlight && Live(w1, 1)
               && w2.done == [Completion(0, isError), Completion(0, isError)] && !w2.e.inFlight && Live(w2, 1)
  {
  }

  // After a failed spawn texts may be left pending with no turn in flight; the
  // next send overtakes them, unless they say the same.
  lemma SendKeepsOrderExactlyWhenNothingIsStranded(w: World, text: string, ok: bool)
    requires Sound(w) && !w.e.stopped && w.started + w.e.pending == w.accepted
    ensures var w' := Next(w, SendStep(text, ok));
            w'.started + w'.e.pending == w'.accepted
            <==> w.e.inFlight || forall k | 0 <= k < |w.e.pending| :: w.e.pending[k] == text
  {
    var w' := Next(w, SendStep(text, ok));
    var pending := w.e.pending;
    if w.e.inFlight {
      assert w'.started + w'.e.pending == w.started + pending + [text];
    } else {
      Rotation(pending, text);
      assert w'.started + w'.e.pending == w.started + ([text] + pending);
      assert w'.accepted == w.started + (pending + [text]);
      CommonPrefix(w.started, [text] + pending, pending + [text]);
    }
  }

  // Such a state is reached: the first process ends, and the spawn for the
  // second text fails while a third is waiting; the fourth goes before it.
  lemma StrandedTextIsOvertaken(a: string, b: string, c: string, d: string)
    ensures var w1 := Next(Init(None), SendStep(a, true));
            var w3 := Next(Next(w1, SendStep(b, true)), SendStep(c, true));
            Allowed(w3, EofStep(0, false)) &&
            var w := Next(Next(w3, EofStep(0, false)), SendStep(d, true));
            w.started == [a, b, d] && w.e.pending == [c] && w.accepted == [a, b, c, d]
  {
  }

  // ---------- Runs with any number of terminal events ----------

  // A process may speak as often as it likes until its output ends.
  predicate Possible(w: World, step: Step) {
    if step.TerminalStep? then step.proc < |w.turnOf| && step.proc !in w.ended else Allowed(w, step)
  }

  function NextAny(w: World, step: Step): World
    requires Possible(w, step)
  {
    if step.TerminalStep? then Terminal(w, step.proc, step.isError, step.spawnOk) else Next(w, step)
  }

  function RunAny(w: World, steps: seq<Step>): World {
    if steps == [] then w
    else
      var before := RunAny(w, steps[..|steps| - 1]);
      var step := steps[|steps| - 1];
      if Possible(before, step) then NextAny(before, step) else before
  }

  // An event of a process that has ended its turn already, let through by _finish.
  predicate Strays(w: World, step: Step) {
    step.TerminalStep? && Possible(w, step) && step.proc in w.spoken && !FinishIgnored(w.e)
  }

  // The k-th completion is charged to the process of the k-th turn.
  predicate OwnTurns(w: World) {
    forall k | 0 <= k < |w.done| :: w.done[k].cause == k
  }

  lemma RepeatIsIgnored(w: World, p: nat, isError: bool, ok: bool)
    requires p < |w.turnOf| && p in w.spoken && FinishIgnored(w.e)
    ensures Terminal(w, p, isError, ok) == w
  {
    assert w.spoken + {p} == w.spoken;
  }

  lemma NotStrayIsSound(w: World, step: Step)
    requires Sound(w) && Possible(w, step) && !Strays(w, step)
    ensures Sound(NextAny(w, step))
  {
    if step.TerminalStep? && step.proc in w.spoken {
      RepeatIsIgnored(w, step.proc, step.isError, step.spawnOk);
    } else {
      StepIsSound(w, step);
    }
  }

  lemma StrayIsCharged(w: World, step: Step)
    requires Sound(w) && Strays(w, step)
    ensures !OwnTurns(NextAny(w, step))
  {
    var w' := NextAny(w, step);
    SecondTerminalEventHitsAnotherTurn(w, step.proc, step.isError, step.spawnOk);
    assert |w.done| < |w'.done| && w'.done[|w.done|].cause < |w.done|;
  }

  lemma DoneGrows(w: World, step: Step)
    requires Possible(w, step)
    ensures w.done <= NextAny(w, step).done
  {
  }

  predicate StraysAt(sessionId: Option<string>, steps: seq<Step>, i: nat)
    requires i < |steps|
  {
    Strays(RunAny(Init(sessionId), steps[..i]), steps[i])
  }

  predicate NeverStrays(sessionId: Option<string>, steps: seq<Step>) {
    forall i: nat | i < |steps| :: !StraysAt(sessionId, steps, i)
  }

  lemma NeverStraysOneMore(sessionId: Option<string>, steps: seq<Step>, n: nat)
    requires |steps| == n + 1
    ensures NeverStrays(sessionId, steps) <==> NeverStrays(sessionId, steps[..n]) && !StraysAt(sessionId, steps, n)
  {
    forall i: nat | i < n ensures StraysAt(sessionId, steps[..n], i) == StraysAt(sessionId, steps, i) {
      assert steps[..n][..i] == steps[..i];
    }
  }

  // Over every run with any number of terminal events: every completion is charged
  // to its own turn exactly when no event of a process that had ended its turn
  // passed the guard of _finish.
  lemma {:induction false} OwnTurnsExactlyWhenNoEventStrays(sessionId: Option<string>, steps: seq<Step>)
    ensures OwnTurns(RunAny(Init(sessionId), steps)) <==> NeverStrays(sessionId, steps)
    ensures NeverStrays(sessionId, steps) ==> Sound(RunAny(Init(sessionId), steps))
  {
    if steps != [] {
      var n := |steps| - 1;
      var before := RunAny(Init(sessionId), steps[..n]);
      OwnTurnsExactlyWhenNoEventStrays(sessionId, steps[..n]);
      NeverStraysOneMore(sessionId, steps, n);
      if Possible(before, steps[n]) {
        DoneGrows(before, steps[n]);
        if NeverStrays(sessionId, steps[..n]) {
          if Strays(before, steps[n]) { StrayIsCharged(before, steps[n]); } else { NotStrayIsSound(before, steps[n]); }
        }
      }
    }
  }

  // What the run did last, of beginning turns and completing them, was to complete one
  // for an event, with no text waiting.
  predicate EndedByEvent(sessionId: Option<string>, steps: seq<Step>) {
    steps != [] &&
    var n := |steps| - 1;
    var before, after := RunAny(Init(sessionId), steps[..n]), RunAny(Init(sessionId), steps);
    if |after.started| > |before.started| then false
    else if |after.done| > |before.done| then steps[n].TerminalStep?
    else EndedByEvent(sessionId, steps[..n])
  }

  lemma GuardAfterStep(w: World, step: Step)
    requires Possible(w, step) && (w.e.inFlight ==> !w.e.finished)
    ensures var w' := NextAny(w, step);
            && (w'.e.inFlight ==> !w'.e.finished)
            && (w'.e.finished <==> if |w'.started| > |w.started| then false
                                   else if |w'.done| > |w.done| then step.TerminalStep?
                                   else w.e.finished)
  {
  }

  // Over every run with any number of terminal events: the guard of _finish holds
  // exactly when the engine is stopped, or has completed a turn for an event with no
  // text waiting, and begun and completed none since. So a second event is let
  // through while a turn is in flight, and while the engine idles after a process
  // that ended without a word or a spawn that failed.
  lemma GuardHoldsExactlyAfterAnEvent(sessionId: Option<string>, steps: seq<Step>)
    ensures var w := RunAny(Init(sessionId), steps);
            && (FinishIgnored(w.e) <==> w.e.stopped || EndedByEvent(sessionId, steps))
            && (EndedByEvent(sessionId, steps) ==> !w.e.inFlight)
  {
    GuardTold(sessionId, steps);
  }

  lemma {:induction false} GuardTold(sessionId: Option<string>, steps: seq<Step>)
    ensures var w := RunAny(Init(sessionId), steps);
            (w.e.finished <==> EndedByEvent(sessionId, steps)) && (w.e.inFlight ==> !w.e.finished)
  {
    if steps != [] {
      var n := |steps| - 1;
      var before := RunAny(Init(sessionId), steps[..n]);
      GuardTold(sessionId, steps[..n]);
      if Possible(before, steps[n]) { GuardAfterStep(before, steps[n]); }
    }
  }
}
