/**
 What the interactive engine writes and spawns, told from the lines handed to
 _write_user_line and their luck alone, without the engine's flags.
 */
module InteractiveWrites {
  import opened Wrappers
  import opened Subsequence
  import opened Interactive
  import opened InteractiveRuns

  // A line to be written; bySend if a send brought it, else a reader did.
  datatype Try = Try(text: string, luck: Luck, bySend: bool)

  // The lines tried in a run, one at most for each step.
  function Tries(started: bool, steps: seq<Step>): seq<Try> {
    if steps == [] then []
    else
      var n := |steps| - 1;
      Tries(started, steps[..n]) + TryOf(Run(Init(started), steps[..n]), steps[n])
  }

  function TryOf(w: World, step: Step): seq<Try> {
    if !Allowed(w, step) || |Next(w, step).attempted| <= |w.attempted| then []
    else if step.SendStep? then [Try(Next(w, step).attempted[|w.attempted|], step.luck, true)]
    else if step.AdvanceStep? then [Try(Next(w, step).attempted[|w.attempted|], step.luck, false)]
    else []
  }

  function Texts(tries: seq<Try>): (texts: seq<string>)
    ensures |texts| == |tries| && forall i | 0 <= i < |tries| :: texts[i] == tries[i].text
  {
    seq(|tries|, i requires 0 <= i < |tries| => tries[i].text)
  }

  // Since the last line that a send brought, no write has failed the first time.
  predicate NoneFailedSince(before: seq<Try>) {
    before == [] ||
    var last := before[|before| - 1];
    last.luck.first && (last.bySend || NoneFailedSince(before[..|before| - 1]))
  }

  // A respawn is left for this line: each send has one.
  predicate MayRespawn(before: seq<Try>, line: Try) {
    line.bySend || NoneFailedSince(before)
  }

  predicate Reaches(before: seq<Try>, line: Try) {
    line.luck.first || (line.luck.second && MayRespawn(before, line))
  }

  // The texts of the lines whose write went through, in order.
  function Written(tries: seq<Try>): seq<string> {
    if tries == [] then []
    else
      var before, last := tries[..|tries| - 1], tries[|tries| - 1];
      Written(before) + if Reaches(before, last) then [last.text] else []
  }

  // The session exists once it was hinted at or a line was written.
  predicate Exists(started: bool, before: seq<Try>) {
    started || Written(before) != []
  }

  // The processes spawned: for the first line, for each that finds its process
  // dead, and one more, resuming, for the first of a send whose write fails.
  function Spawned(started: bool, tries: seq<Try>): seq<Spawn> {
    if tries == [] then []
    else
      var before, last := tries[..|tries| - 1], tries[|tries| - 1];
      Spawned(started, before)
      + (if before == [] || last.luck.dead then [Spawn(Exists(started, before), |Written(before)|)] else [])
      + (if !last.luck.first && MayRespawn(before, last) then [Spawn(true, |Written(before)|)] else [])
  }

  predicate NewestIsCurrent(e: Engine) {
    e.proc == if e.spawns == [] then None else Some(|e.spawns| - 1)
  }

  // The engine's fields are what the tries come to.
  ghost predicate Follows(started: bool, w: World, tries: seq<Try>) {
    && w.attempted == Texts(tries)
    && w.e.written == Written(tries)
    && w.e.spawns == Spawned(started, tries)
    && (w.e.proc.None? <==> tries == [])
    && NewestIsCurrent(w.e)
    && (w.e.startedOnce <==> Exists(started, tries))
    && (w.e.respawned <==> !NoneFailedSince(tries))
  }

  lemma OneMoreTry(started: bool, tries: seq<Try>, line: Try)
    ensures var all, n := tries + [line], |Written(tries)|;
            && Written(all) == Written(tries) + (if Reaches(tries, line) then [line.text] else [])
            && Spawned(started, all) == Spawned(started, tries)
               + (if tries == [] || line.luck.dead then [Spawn(Exists(started, tries), n)] else [])
               + (if !line.luck.first && MayRespawn(tries, line) then [Spawn(true, n)] else [])
            && (NoneFailedSince(all) <==> line.luck.first && MayRespawn(tries, line))
  {
    var all := tries + [line];
    assert all[..|all| - 1] == tries && all[|all| - 1] == line;
  }

  lemma WriteEffects(e: Engine, text: string, luck: Luck)
    ensures var e', n := WriteUserLine(e, text, luck), |e.written|;
            && e'.written == e.written + (if WriteSucceeds(e, luck) then [text] else [])
            && e'.spawns == e.spawns
               + (if e.proc.None? || luck.dead then [Spawn(e.startedOnce, n)] else [])
               + (if !luck.first && !e.respawned then [Spawn(true, n)] else [])
            && (e'.startedOnce <==> e.startedOnce || WriteSucceeds(e, luck))
            && (e'.respawned <==> e.respawned || !luck.first)
            && e'.proc.Some?
            && (NewestIsCurrent(e) ==> NewestIsCurrent(e'))
  {
  }

  // One call of _write_user_line, with the flag as it finds it.
  lemma WriteFollows(started: bool, w: World, w': World, tries: seq<Try>, e: Engine, line: Try)
    requires Follows(started, w, tries)
    requires e.written == w.e.written && e.spawns == w.e.spawns && e.proc == w.e.proc && e.startedOnce == w.e.startedOnce
    requires e.respawned <==> !MayRespawn(tries, line)
    requires w'.attempted == w.attempted + [line.text] && w'.e == WriteUserLine(e, line.text, line.luck)
    ensures Follows(started, w', tries + [line])
  {
    TextsMore(tries, line);
    OneMoreTry(started, tries, line);
    WriteEffects(e, line.text, line.luck);
    assert WriteSucceeds(e, line.luck) == Reaches(tries, line);
  }

  lemma TextsMore(tries: seq<Try>, line: Try)
    ensures Texts(tries + [line]) == Texts(tries) + [line.text]
  {
  }

  lemma SendTries(w: World, text: string, luck: Luck)
    ensures TryOf(w, SendStep(text, luck)) == if w.e.stopped || w.e.inFlight then [] else [Try(text, luck, true)]
  {
    SendTexts(w, text, luck);
    if !w.e.stopped && !w.e.inFlight {
      assert Next(w, SendStep(text, luck)).attempted[|w.attempted|] == text;
    }
  }

  lemma AdvanceTries(w: World, p: nat, luck: Luck)
    requires p in w.told
    ensures TryOf(w, AdvanceStep(p, luck)) == if w.e.pending == [] then [] else [Try(w.e.pending[0], luck, false)]
  {
    AdvanceTexts(w, p, luck);
    if w.e.pending != [] {
      assert Next(w, AdvanceStep(p, luck)).attempted[|w.attempted|] == w.e.pending[0];
    }
  }

  lemma SendFollows(started: bool, w: World, tries: seq<Try>, text: string, luck: Luck)
    requires Follows(started, w, tries)
    ensures Follows(started, Next(w, SendStep(text, luck)), tries + TryOf(w, SendStep(text, luck)))
  {
    SendTries(w, text, luck);
    if w.e.stopped || w.e.inFlight {
      assert tries + TryOf(w, SendStep(text, luck)) == tries;
    } else {
      SendTexts(w, text, luck);
      WriteFollows(started, w, Next(w, SendStep(text, luck)), tries, w.e.(inFlight := true, respawned := false),
                   Try(text, luck, true));
    }
  }

  lemma AdvanceFollows(started: bool, w: World, tries: seq<Try>, p: nat, luck: Luck)
    requires Follows(started, w, tries) && p in w.told
    ensures Follows(started, Next(w, AdvanceStep(p, luck)), tries + TryOf(w, AdvanceStep(p, luck)))
  {
    AdvanceTries(w, p, luck);
    AdvanceTexts(w, p, luck);
    if w.e.pending == [] {
      assert tries + TryOf(w, AdvanceStep(p, luck)) == tries;
    } else {
      WriteFollows(started, w, Next(w, AdvanceStep(p, luck)), tries, w.e.(pending := w.e.pending[1..]),
                   Try(w.e.pending[0], luck, false));
    }
  }

  lemma OtherFollows(started: bool, w: World, tries: seq<Try>, step: Step)
    requires Follows(started, w, tries) && Allowed(w, step) && !step.SendStep? && !step.AdvanceStep?
    ensures TryOf(w, step) == [] && Follows(started, Next(w, step), tries)
  {
    var w' := Next(w, step);
    assert w'.attempted == w.attempted && w'.e.written == w.e.written && w'.e.spawns == w.e.spawns && w'.e.proc == w.e.proc;
    assert w'.e.startedOnce == w.e.startedOnce && w'.e.respawned == w.e.respawned;
  }

  // Over every run: the lines written are exactly those tried whose write went
  // through, in order; the processes spawned are those the luck asks for,
  // and the newest is the current one.
  lemma WrittenAreTheTriesThatWentThrough(started: bool, steps: seq<Step>)
    ensures var w, tries := Run(Init(started), steps), Tries(started, steps);
            && w.attempted == Texts(tries)
            && w.e.written == Written(tries) && w.e.spawns == Spawned(started, tries)
            && NewestIsCurrent(w.e)
  {
    RunFollows(started, steps);
  }

  lemma StepFollows(started: bool, w: World, tries: seq<Try>, step: Step)
    requires Follows(started, w, tries) && Allowed(w, step)
    ensures Follows(started, Next(w, step), tries + TryOf(w, step))
  {
    match step {
      case SendStep(text, luck) => SendFollows(started, w, tries, text, luck);
      case AdvanceStep(p, luck) => AdvanceFollows(started, w, tries, p, luck);
      case _ =>
        OtherFollows(started, w, tries, step);
        assert tries + TryOf(w, step) == tries;
    }
  }

  lemma {:induction false} RunFollows(started: bool, steps: seq<Step>)
    ensures Follows(started, Run(Init(started), steps), Tries(started, steps))
  {
    if steps != [] {
      var n := |steps| - 1;
      var before, tries := Run(Init(started), steps[..n]), Tries(started, steps[..n]);
      RunFollows(started, steps[..n]);
      if Allowed(before, steps[n]) {
        StepFollows(started, before, tries, steps[n]);
      } else {
        assert tries + TryOf(before, steps[n]) == tries;
      }
    }
  }

  lemma {:induction false} WrittenIsAmongTexts(tries: seq<Try>)
    ensures Among(Written(tries), Texts(tries))
  {
    if tries != [] {
      var n := |tries| - 1;
      WrittenIsAmongTexts(tries[..n]);
      TextsMore(tries[..n], tries[n]);
      assert tries == tries[..n] + [tries[n]];
      AmongOneMore(Written(tries[..n]), Texts(tries[..n]), tries[n].text);
      assert Written(tries[..n]) + [] == Written(tries[..n]);
    }
  }

  // So while no text overtakes another, what is written was accepted in that order.
  lemma WrittenInTheOrderAccepted(started: bool, steps: seq<Step>)
    requires NeverOvertakes(started, steps)
    ensures var w := Run(Init(started), steps); Among(w.e.written, w.accepted)
  {
    var w := Run(Init(started), steps);
    RunFollows(started, steps);
    WrittenIsAmongTexts(Tries(started, steps));
    TextsInOrderExactlyWhenNoneOvertakes(started, steps);
    AmongMore(w.e.written, w.attempted, w.e.pending);
  }
}
