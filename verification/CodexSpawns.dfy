/**
 What each Codex process is given: the text of its turn, and the session known
 from what was bound and announced before it, told without the engine's fields.
 */
module CodexSpawns {
  import opened Wrappers
  import opened Codex
  import opened CodexRuns

  // The prompt is the last argument, the session to resume the one before it.
  function PromptOf(argv: Argv): string {
    match argv
    case FreshExec(text) => text
    case Resume(_, text) => text
  }

  function SessionOf(argv: Argv): Option<string> {
    match argv
    case FreshExec(_) => None
    case Resume(session, _) => Some(session)
  }

  // The last id announced in these steps that is not empty, or the one bound.
  function KnownId(bound: Option<string>, steps: seq<Step>): Option<string> {
    if steps == [] then NonEmpty(bound)
    else
      var last := steps[|steps| - 1];
      if last.ThreadStartedStep? && last.id != "" then Some(last.id) else KnownId(bound, steps[..|steps| - 1])
  }

  function NonEmpty(id: Option<string>): Option<string> {
    if id == Some("") then None else id
  }

  // Runs with one terminal event for each process, or with any number.
  function RunOf(any: bool, bound: Option<string>, steps: seq<Step>): World {
    if any then RunAny(Init(bound), steps) else Run(Init(bound), steps)
  }

  // The sessions known when the processes of a run were spawned.
  function SessionsGiven(any: bool, bound: Option<string>, steps: seq<Step>): seq<Option<string>> {
    if steps == [] then []
    else
      var n := |steps| - 1;
      SessionsGiven(any, bound, steps[..n])
      + if |RunOf(any, bound, steps).turnOf| > |RunOf(any, bound, steps[..n]).turnOf| then [KnownId(bound, steps[..n])] else []
  }

  ghost predicate Given(w: World, sessions: seq<Option<string>>) {
    && |w.e.spawned| == |w.turnOf| == |sessions|
    && (forall p | 0 <= p < |w.turnOf| :: w.turnOf[p] < |w.started|)
    && (forall p | 0 <= p < |w.turnOf| :: PromptOf(w.e.spawned[p]) == w.started[w.turnOf[p]])
    && (forall p | 0 <= p < |w.turnOf| :: SessionOf(w.e.spawned[p]) == sessions[p])
  }

  // At most one turn begins, and at most one process is spawned for it.
  ghost predicate BeginsOne(w: World, w': World, text: string) {
    && w'.started == w.started + [text]
    && ((w'.turnOf == w.turnOf && w'.e.spawned == w.e.spawned)
        || (&& w'.turnOf == w.turnOf + [|w.started|] && |w'.e.spawned| == |w.e.spawned| + 1
            && w'.e.spawned[..|w.e.spawned|] == w.e.spawned
            && PromptOf(w'.e.spawned[|w.e.spawned|]) == text
            && SessionOf(w'.e.spawned[|w.e.spawned|]) == NonEmpty(w.e.sessionId)))
  }

  ghost predicate BeginsNone(w: World, w': World) {
    w'.started == w.started && w'.turnOf == w.turnOf && w'.e.spawned == w.e.spawned
  }

  ghost predicate BeginsAtMostOne(w: World, w': World) {
    BeginsNone(w, w') || exists text :: BeginsOne(w, w', text)
  }

  lemma SendBegins(w: World, text: string, ok: bool)
    ensures BeginsAtMostOne(w, Next(w, SendStep(text, ok)))
  {
    if !w.e.stopped && !w.e.inFlight {
      assert BeginsOne(w, Next(w, SendStep(text, ok)), text);
    }
  }

  lemma TerminalBegins(w: World, p: nat, isError: bool, ok: bool)
    requires p < |w.turnOf|
    ensures BeginsAtMostOne(w, Terminal(w, p, isError, ok))
  {
    if !FinishIgnored(w.e) && w.e.pending != [] {
      assert BeginsOne(w, Terminal(w, p, isError, ok), w.e.pending[0]);
    }
  }

  lemma EofBegins(w: World, p: nat, ok: bool)
    requires Allowed(w, EofStep(p, ok))
    ensures BeginsAtMostOne(w, Next(w, EofStep(p, ok)))
  {
    if EofFails(w.e, p) && w.e.pending != [] {
      assert BeginsOne(w, Next(w, EofStep(p, ok)), w.e.pending[0]);
    }
  }

  lemma StepBegins(w: World, step: Step)
    requires Possible(w, step)
    ensures BeginsAtMostOne(w, NextAny(w, step))
  {
    match step {
      case SendStep(text, ok) => SendBegins(w, text, ok);
      case TerminalStep(p, isError, ok) => TerminalBegins(w, p, isError, ok);
      case EofStep(p, ok) => EofBegins(w, p, ok);
      case _ =>
    }
  }

  lemma StillGiven(w: World, w': World, sessions: seq<Option<string>>)
    requires Given(w, sessions) && BeginsAtMostOne(w, w')
    ensures Given(w', sessions + if |w'.turnOf| > |w.turnOf| then [NonEmpty(w.e.sessionId)] else [])
  {
    if BeginsNone(w, w') || w'.turnOf == w.turnOf {
      assert sessions + [] == sessions;
    } else {
      forall p | 0 <= p < |w.turnOf| ensures w'.e.spawned[p] == w.e.spawned[p] {
        assert w'.e.spawned[..|w.e.spawned|][p] == w.e.spawned[p];
      }
    }
  }

  lemma IdIsKnown(w: World, step: Step)
    requires Possible(w, step)
    ensures NonEmpty(NextAny(w, step).e.sessionId) ==
            if step.ThreadStartedStep? && step.id != "" then Some(step.id) else NonEmpty(w.e.sessionId)
  {
  }

  // The run and its last step: taken as any step, or left out.
  lemma LastStep(any: bool, bound: Option<string>, steps: seq<Step>, n: nat)
    requires |steps| == n + 1
    ensures var before := RunOf(any, bound, steps[..n]);
            if Possible(before, steps[n]) && (any || Allowed(before, steps[n]))
            then RunOf(any, bound, steps) == NextAny(before, steps[n])
            else RunOf(any, bound, steps) == before && !steps[n].ThreadStartedStep?
  {
  }

  lemma {:induction false} RunGives(any: bool, bound: Option<string>, steps: seq<Step>)
    ensures var w := RunOf(any, bound, steps);
            Given(w, SessionsGiven(any, bound, steps)) && NonEmpty(w.e.sessionId) == KnownId(bound, steps)
  {
    if steps != [] {
      var n := |steps| - 1;
      var before, w, sessions := RunOf(any, bound, steps[..n]), RunOf(any, bound, steps), SessionsGiven(any, bound, steps[..n]);
      RunGives(any, bound, steps[..n]);
      LastStep(any, bound, steps, n);
      if Possible(before, steps[n]) && (any || Allowed(before, steps[n])) {
        StepBegins(before, steps[n]);
        StillGiven(before, w, sessions);
        IdIsKnown(before, steps[n]);
      } else {
        assert sessions + [] == sessions;
      }
    }
  }

  // Over every run, with any number of terminal events or one for each process: a
  // process is given the text of its turn, and resumes the last session announced
  // or bound before it was spawned, or starts a fresh one when there is none.
  lemma ProcessesAreGivenTheirTurns(any: bool, bound: Option<string>, steps: seq<Step>)
    ensures var w, sessions := RunOf(any, bound, steps), SessionsGiven(any, bound, steps);
            && |w.e.spawned| == |w.turnOf| == |sessions|
            && forall p | 0 <= p < |w.turnOf| ::
                 && w.turnOf[p] < |w.started|
                 && w.e.spawned[p] == (match sessions[p]
                                       case None => FreshExec(w.started[w.turnOf[p]])
                                       case Some(id) => Resume(id, w.started[w.turnOf[p]]))
  {
    RunGives(any, bound, steps);
  }
}
