/** How often the sender sends an event, crashes and stale senders included. */
module SenderRepeats {
  import opened Wrappers
  import opened OfflineQueue
  import opened Sender
  import opened SenderDisk
  import opened SenderLosses
  import SenderRuns

  // ---------- Copies of an event ----------

  function One(b: bool): nat {
    if b then 1 else 0
  }

  function Times(s: seq<Event>, e: Event): nat {
    multiset(s)[e]
  }

  // How often e was sent, or dropped as oversized.
  function Handled(w: World, e: Event): nat {
    Times(w.q.sent, e) + Times(w.q.dropped, e)
  }

  // e will be handled once more, if nothing goes wrong: it can be read from the
  // file, and in a drain it has not been handled yet.
  predicate Due(codec: Codec, w: World, e: Event) {
    if w.conn.Draining? then Held(w, e) || (e !in w.conn.buffered && Readable(codec, w, e)) else Readable(codec, w, e)
  }

  // e has left the incoming queue other than by a crash.
  predicate Emerged(w: World, e: Event) {
    e in w.written || e in w.q.sent
  }

  // e's whole encoding is appended.
  predicate Enters(codec: Codec, w: World, step: Step, e: Event)
    requires Enabled(codec, w, step)
  {
    Appends(codec, w, step) > 0 && w.q.incoming[0] == e && Appends(codec, w, step) >= |codec.encode(e)|
  }

  // A copy of e that was due, or enters, is lost.
  predicate Vanishes(codec: Codec, w: World, step: Step, e: Event) {
    && Enabled(codec, w, step) && (Due(codec, w, e) || Enters(codec, w, step, e))
    && (RunsOn(codec, w, step, e) || ForgetsIt(codec, w, step, e) || DropsIt(codec, w, step, e))
  }

  // A drain that has handled e dies while e's record is still in the file.
  predicate Revives(codec: Codec, w: World, step: Step, e: Event) {
    && Enabled(codec, w, step) && Dies(step) && w.conn.Draining?
    && e in w.conn.buffered && !Held(w, e) && Readable(codec, w, e)
    && !(Appends(codec, w, step) > 0 && EndsIn(codec, w, e))
  }

  // The step's balance of copies of e.
  ghost predicate Balances(codec: Codec, w: World, step: Step, w': World, e: Event) {
    Handled(w', e) + One(Due(codec, w', e)) + One(Vanishes(codec, w, step, e)) + One(Emerged(w, e))
    == Handled(w, e) + One(Due(codec, w, e)) + One(Revives(codec, w, step, e)) + One(Emerged(w', e))
  }

  lemma HandledOneMore(s: seq<Event>, x: Event, e: Event)
    ensures Times(s + [x], e) == Times(s, e) + One(x == e)
  {
  }

  // ---------- Each step ----------

  // The steps that append nothing, end no drain and kill no process.
  lemma NothingVanishesOrRevives(codec: Codec, w: World, step: Step, e: Event)
    requires Enabled(codec, w, step) && Appends(codec, w, step) == 0 && !Dies(step) && step != Ordinary(SenderRuns.DrainEnds)
    ensures !Vanishes(codec, w, step, e) && !Revives(codec, w, step, e)
  {
  }

  lemma ConnectKeepsDue(codec: Codec, w: World, e: Event)
    requires w.conn.Down?
    ensures Due(codec, Next(codec, w, Ordinary(SenderRuns.Connect)), e) == Due(codec, w, e)
  {
    var w' := Next(codec, w, Ordinary(SenderRuns.Connect));
    if w'.conn.Draining? { assert w'.conn.buffered[0..] == w'.conn.buffered; }
  }

  lemma ConnectBalances(codec: Codec, w: World, e: Event)
    requires w.conn.Down?
    ensures var step := Ordinary(SenderRuns.Connect); Balances(codec, w, step, Next(codec, w, step), e)
  {
    var step := Ordinary(SenderRuns.Connect);
    var w' := Next(codec, w, step);
    ConnectKeepsDue(codec, w, e);
    NothingVanishesOrRevives(codec, w, step, e);
    assert w'.q == w.q && w'.written == w.written;
  }

  lemma LiveSendBalances(codec: Codec, w: World, e: Event)
    requires Sound(codec, w) && Enabled(codec, w, Ordinary(SenderRuns.LiveSend(true)))
    ensures var step := Ordinary(SenderRuns.LiveSend(true)); Balances(codec, w, step, Next(codec, w, step), e)
  {
    NextIsNew(codec, w);
    HandledOneMore(w.q.sent, w.q.incoming[0], e);
  }

  lemma CrashBalances(codec: Codec, w: World, e: Event)
    requires Sound(codec, w)
    ensures Balances(codec, w, Crash, Next(codec, w, Crash), e)
  {
    if Held(w, e) { HeldIsBuffered(codec, w, e); }
  }

  lemma EmptyAppendBalances(codec: Codec, w: World, e: Event)
    requires codec.Lawful() && Sound(codec, w) && Enabled(codec, w, TornAppend(0))
    ensures Balances(codec, w, TornAppend(0), Next(codec, w, TornAppend(0)), e)
  {
    EmptyAppend(codec, w);
    CrashBalances(codec, w, e);
    assert codec.RecordIsALine(w.q.incoming[0]);
    assert Vanishes(codec, w, TornAppend(0), e) == Vanishes(codec, w, Crash, e);
    assert Revives(codec, w, TornAppend(0), e) == Revives(codec, w, Crash, e);
  }

  lemma HeldMovesOn(w: World, w': World, x: Event, e: Event)
    requires w.conn.Draining? && w.conn.next < |w.conn.buffered| && DrainIsSound(w)
    requires w'.conn.Draining? && w'.conn.buffered == w.conn.buffered && w'.conn.next == w.conn.next + 1
    requires x == w.conn.buffered[w.conn.next]
    ensures w'.conn.d.failed == w.conn.d.failed ==> (Held(w', e) <==> Held(w, e) && e != x)
    ensures w'.conn.d.failed == w.conn.d.failed + [x] ==> (Held(w', e) <==> Held(w, e))
    ensures Held(w, x)
  {
    var rest := w.conn.buffered[w.conn.next + 1..];
    assert w.conn.buffered[w.conn.next..] == [x] + rest;
    RestIsUntouched(w, rest, x);
    assert x in [x] + rest;
  }

  lemma DrainRoundHandles(codec: Codec, w: World, ok: bool, e: Event)
    requires Sound(codec, w) && Enabled(codec, w, Ordinary(SenderRuns.DrainStep(ok)))
    ensures var w' := Next(codec, w, Ordinary(SenderRuns.DrainStep(ok)));
            && Handled(w', e) + One(Held(w', e)) == Handled(w, e) + One(Held(w, e))
            && w'.conn.Draining? && w'.conn.buffered == w.conn.buffered && w'.q.text == w.q.text
            && (Held(w, e) || Handled(w', e) > Handled(w, e) ==> e in w.conn.buffered)
            && Emerged(w', e) == Emerged(w, e)
  {
    var w', x := Next(codec, w, Ordinary(SenderRuns.DrainStep(ok))), w.conn.buffered[w.conn.next];
    DrainRound(codec, w, ok);
    HeldMovesOn(w, w', x, e);
    HandledOneMore(w.q.sent, x, e);
    HandledOneMore(w.q.dropped, x, e);
    assert x in w.conn.buffered && x in w.written;
    if Held(w, e) { HeldIsBuffered(codec, w, e); }
  }

  lemma DrainRoundBalances(codec: Codec, w: World, ok: bool, e: Event)
    requires Sound(codec, w) && Enabled(codec, w, Ordinary(SenderRuns.DrainStep(ok)))
    ensures var step := Ordinary(SenderRuns.DrainStep(ok)); Balances(codec, w, step, Next(codec, w, step), e)
  {
    DrainRoundHandles(codec, w, ok, e);
    NothingVanishesOrRevives(codec, w, Ordinary(SenderRuns.DrainStep(ok)), e);
  }

  lemma DrainEndBalances(codec: Codec, w: World, e: Event)
    requires codec.Lawful() && Sound(codec, w) && Enabled(codec, w, Ordinary(SenderRuns.DrainEnds))
    ensures var step := Ordinary(SenderRuns.DrainEnds); Balances(codec, w, step, Next(codec, w, step), e)
  {
    DrainEndFor(codec, w, e);
    if Held(w, e) { HeldIsBuffered(codec, w, e); }
  }

  // What an appending step can lose: no drain ends with it.
  lemma AppendVanishes(codec: Codec, w: World, step: Step, e: Event)
    requires Enabled(codec, w, step) && Appends(codec, w, step) > 0
    ensures Vanishes(codec, w, step, e) <==>
              && (Due(codec, w, e) || Enters(codec, w, step, e))
              && (RunsOn(codec, w, step, e) || (Dies(step) && Held(w, e) && !Readable(codec, w, e)))
  {
    assert !ForgetsIt(codec, w, step, e);
  }

  lemma AppendDue(codec: Codec, w: World, step: Step, e: Event)
    requires codec.Lawful() && Sound(codec, w) && Enabled(codec, w, step) && Appends(codec, w, step) > 0
    requires e != w.q.incoming[0]
    ensures Due(codec, Next(codec, w, step), e) <==>
              if w.conn.Draining? && !Dies(step) then
                Held(w, e) || (e !in w.conn.buffered && Readable(codec, w, e) && !EndsIn(codec, w, e))
              else Readable(codec, w, e) && !EndsIn(codec, w, e)
  {
    AppendStep(codec, w, step);
    AppendFor(codec, w, step, e);
  }

  lemma AppendOfAnother(codec: Codec, w: World, step: Step, e: Event)
    requires codec.Lawful() && Sound(codec, w) && Enabled(codec, w, step) && Appends(codec, w, step) > 0
    requires e != w.q.incoming[0]
    ensures var w' := Next(codec, w, step);
            One(Due(codec, w', e)) + One(Vanishes(codec, w, step, e)) == One(Due(codec, w, e)) + One(Revives(codec, w, step, e))
  {
    AppendDue(codec, w, step, e);
    AppendVanishes(codec, w, step, e);
    if EndsIn(codec, w, e) { EndsInIsReadable(codec, w, e); }
    if Held(w, e) { HeldIsBuffered(codec, w, e); }
  }

  // The next incoming event is in no way in the file before its append.
  lemma NextIsNotDue(codec: Codec, w: World)
    requires codec.Lawful() && Sound(codec, w) && w.q.incoming != []
    ensures var e := w.q.incoming[0];
            !Emerged(w, e) && !Due(codec, w, e) && !Held(w, e) && !Readable(codec, w, e) && !EndsIn(codec, w, e)
  {
    NextIsNew(codec, w);
    if EndsIn(codec, w, w.q.incoming[0]) { EndsInIsReadable(codec, w, w.q.incoming[0]); }
  }

  lemma ItselfIsDue(codec: Codec, w: World, step: Step)
    requires codec.Lawful() && Sound(codec, w) && Enabled(codec, w, step) && Appends(codec, w, step) > 0
    ensures var w', e := Next(codec, w, step), w.q.incoming[0];
            && Emerged(w', e) == Enters(codec, w, step, e)
            && Due(codec, w', e) == (Enters(codec, w, step, e) && LineIsFinished(w))
  {
    var w', e := Next(codec, w, step), w.q.incoming[0];
    AppendStep(codec, w, step);
    AppendFor(codec, w, step, e);
    NextIsNotDue(codec, w);
    assert w'.conn.Draining? ==> w'.conn == w.conn && e !in w.conn.buffered;
  }

  lemma AppendOfItself(codec: Codec, w: World, step: Step)
    requires codec.Lawful() && Sound(codec, w) && Enabled(codec, w, step) && Appends(codec, w, step) > 0
    ensures var e := w.q.incoming[0];
            && !Revives(codec, w, step, e)
            && Vanishes(codec, w, step, e) == (Enters(codec, w, step, e) && !LineIsFinished(w))
  {
    NextIsNotDue(codec, w);
    AppendVanishes(codec, w, step, w.q.incoming[0]);
  }

  lemma AppendBalances(codec: Codec, w: World, step: Step, e: Event)
    requires codec.Lawful() && Sound(codec, w) && Enabled(codec, w, step) && Appends(codec, w, step) > 0
    ensures Balances(codec, w, step, Next(codec, w, step), e)
  {
    var w' := Next(codec, w, step);
    AppendStep(codec, w, step);
    assert w'.q.sent == w.q.sent && w'.q.dropped == w.q.dropped;
    if e == w.q.incoming[0] {
      NextIsNotDue(codec, w);
      ItselfIsDue(codec, w, step);
      AppendOfItself(codec, w, step);
    } else {
      AppendOfAnother(codec, w, step, e);
      assert Emerged(w', e) == Emerged(w, e);
    }
  }

  lemma StepBalances(codec: Codec, w: World, step: Step, e: Event)
    requires codec.Lawful() && Sound(codec, w) && Enabled(codec, w, step)
    ensures Balances(codec, w, step, Next(codec, w, step), e)
  {
    if step == TornAppend(0) {
      EmptyAppendBalances(codec, w, e);
    } else if Appends(codec, w, step) > 0 {
      AppendBalances(codec, w, step, e);
    } else if step.Crash? {
      CrashBalances(codec, w, e);
    } else {
      match step.step {
        case Connect => ConnectBalances(codec, w, e);
        case DrainStep(ok) => DrainRoundBalances(codec, w, ok, e);
        case DrainEnds => DrainEndBalances(codec, w, e);
        case LiveSend(_) => LiveSendBalances(codec, w, e);
        case _ =>
      }
    }
  }

  // ---------- Over every run ----------

  function Vanishings(codec: Codec, steps: seq<Step>, e: Event): nat {
    if steps == [] then 0
    else
      var n := |steps| - 1;
      Vanishings(codec, steps[..n], e) + One(Vanishes(codec, Run(codec, Init(), steps[..n]), steps[n], e))
  }

  function Revivals(codec: Codec, steps: seq<Step>, e: Event): nat {
    if steps == [] then 0
    else
      var n := |steps| - 1;
      Revivals(codec, steps[..n], e) + One(Revives(codec, Run(codec, Init(), steps[..n]), steps[n], e))
  }

  // Over every run: an event that has left the incoming queue was handled, or is
  // due, once, and once more for each drain that had handled it and died before
  // the file was rewritten, less the copies lost.
  lemma {:induction false} CopiesBalance(codec: Codec, steps: seq<Step>, e: Event)
    requires codec.Lawful()
    ensures var w := Run(codec, Init(), steps);
            Handled(w, e) + One(Due(codec, w, e)) + Vanishings(codec, steps, e)
            == One(Emerged(w, e)) + Revivals(codec, steps, e)
  {
    if steps == [] {
      assert Run(codec, Init(), steps) == Init();
    } else {
      var n := |steps| - 1;
      var before := Run(codec, Init(), steps[..n]);
      CopiesBalance(codec, steps[..n], e);
      RunIsSound(codec, steps[..n]);
      if Enabled(codec, before, steps[n]) {
        StepBalances(codec, before, steps[n], e);
      }
    }
  }

  // A step that vanishes a copy of an unsent event is one that loses it.
  lemma LosesIsVanishingUnsent(codec: Codec, w: World, step: Step, e: Event)
    requires codec.Lawful() && Sound(codec, w)
    ensures Loses(codec, w, step, e) <==> Unsent(w, e) && Vanishes(codec, w, step, e)
  {
    if Loses(codec, w, step, e) {
      if EndsIn(codec, w, e) { EndsInIsReadable(codec, w, e); }
      if w.conn.Draining? && e in w.conn.buffered {
        var i :| 0 <= i < |w.conn.buffered| && w.conn.buffered[i] == e;
        assert i >= w.conn.next ==> w.conn.buffered[w.conn.next..][i - w.conn.next] == e;
      }
    }
  }

  lemma TidyVanishesNothing(codec: Codec, w: World, step: Step, e: Event)
    requires Sound(codec, w) && Tidy(codec, w) && w.late == []
    ensures !Vanishes(codec, w, step, e)
  {
    TidyDropsNothing(codec, w, step, e);
    TidyForgetsOnlyLate(codec, w, step, e);
  }

  lemma {:induction false} NothingVanishes(codec: Codec, steps: seq<Step>, e: Event)
    requires codec.Lawful() && NeverTears(codec, steps)
    requires forall i: nat | i < |steps| :: CalmAt(codec, steps, i)
    ensures Vanishings(codec, steps, e) == 0
  {
    if steps != [] {
      var n := |steps| - 1;
      NeverTearsBefore(codec, steps, n);
      CalmBefore(codec, steps, n);
      NothingVanishes(codec, steps[..n], e);
      RunIsSound(codec, steps[..n]);
      RunIsTidy(codec, steps[..n]);
      CalmRunHasNothingLate(codec, steps[..n]);
      TidyVanishesNothing(codec, Run(codec, Init(), steps[..n]), steps[n], e);
    }
  }

  // With whole appends and no stale send during a drain the count is exact: once,
  // and once more for each drain that had handled the event and died.
  lemma HandledOncePlusOncePerDeadDrain(codec: Codec, steps: seq<Step>, e: Event)
    requires codec.Lawful() && NeverTears(codec, steps)
    requires forall i: nat | i < |steps| :: CalmAt(codec, steps, i)
    ensures var w := Run(codec, Init(), steps);
            Handled(w, e) + One(Due(codec, w, e)) == One(Emerged(w, e)) + Revivals(codec, steps, e)
  {
    CopiesBalance(codec, steps, e);
    NothingVanishes(codec, steps, e);
  }

  // ---------- A drain in which every send goes through ----------

  function Oversizes(s: seq<Event>): seq<Event> {
    if s == [] then []
    else
      var last := s[|s| - 1];
      var earlier := Oversizes(s[..|s| - 1]);
      if Oversized(last) then earlier + [last] else earlier
  }

  lemma {:induction false} GoodDrain(buffered: seq<Event>, n: nat)
    requires n <= |buffered|
    ensures DrainAll(buffered, _ => true, n) == Drain(SenderRuns.Fitting(buffered[..n]), [], Oversizes(buffered[..n]), false)
  {
    if n > 0 {
      var m := n - 1;
      GoodDrain(buffered, m);
      assert buffered[..n][..m] == buffered[..m] && buffered[..n][m] == buffered[m];
    }
  }

  // It sends every event the file holds that is small enough, once and in the
  // order of the file, drops the others, and leaves no event behind.
  lemma GoodDrainHandlesAll(codec: Codec, w: World)
    requires w.conn.Down?
    ensures var w', events := Run(codec, w, WholeDrain(codec, w, _ => true)), ReadAll(codec, w.q.text);
            && w'.q.sent == w.q.sent + SenderRuns.Fitting(events)
            && w'.q.dropped == w.q.dropped + Oversizes(events)
            && ReadAll(codec, w'.q.text) == [] && w'.conn.Live?
            && w'.q.text == if events == [] then w.q.text else None
  {
    var events := ReadAll(codec, w.q.text);
    WholeDrainIsDrainFile(codec, w, _ => true);
    GoodDrain(events, |events|);
    assert events[..|events|] == events;
  }

  lemma {:induction false} FittingOrOversized(s: seq<Event>, e: Event)
    ensures e in SenderRuns.Fitting(s) <==> e in s && !Oversized(e)
    ensures e in Oversizes(s) <==> e in s && Oversized(e)
  {
    if s != [] {
      FittingOrOversized(s[..|s| - 1], e);
      assert s == s[..|s| - 1] + [s[|s| - 1]];
    }
  }

  ghost predicate DropsOnlyOversized(w: World) {
    && (forall e | e in w.q.dropped :: Oversized(e))
    && (w.conn.Draining? ==> forall e | e in w.conn.d.dropped :: Oversized(e))
  }

  lemma StepDropsOnlyOversized(codec: Codec, w: World, step: Step)
    requires Enabled(codec, w, step) && DropsOnlyOversized(w)
    ensures DropsOnlyOversized(Next(codec, w, step))
  {
    if step.Ordinary? && step.step.DrainStep? {
      var d := DrainOne(w.conn.d, w.conn.buffered[w.conn.next], step.step.ok);
      forall e | e in d.dropped[|w.conn.d.dropped|..] ensures Oversized(e) { assert e in d.dropped; }
    } else {
      assert Next(codec, w, step).q.dropped == w.q.dropped;
    }
  }

  lemma {:induction false} DroppedAreOversized(codec: Codec, steps: seq<Step>)
    ensures DropsOnlyOversized(Run(codec, Init(), steps))
  {
    if steps != [] {
      var n := |steps| - 1;
      DroppedAreOversized(codec, steps[..n]);
      if Enabled(codec, Run(codec, Init(), steps[..n]), steps[n]) {
        StepDropsOnlyOversized(codec, Run(codec, Init(), steps[..n]), steps[n]);
      }
    }
  }

  // Over every run: once the connection is down, an event whose record was whole on
  // disk and that no step lost has been sent, or is sent by the next drain whose
  // sends go through, if it is small enough; else it is dropped.
  lemma WrittenIsDeliveredByTheNextGoodDrain(codec: Codec, steps: seq<Step>, e: Event)
    requires codec.Lawful() && WrittenIn(codec, steps, e) && Run(codec, Init(), steps).conn.Down?
    ensures var w := Run(codec, Init(), steps);
            var w' := Run(codec, w, WholeDrain(codec, w, _ => true));
            && (!EverLoses(codec, steps, e) <==> e in w'.q.sent || e in w'.q.dropped)
            && (e.bytes <= 1_000_000 ==> (!EverLoses(codec, steps, e) <==> e in w'.q.sent))
  {
    var w := Run(codec, Init(), steps);
    WrittenIsSafeExactlyWhenNothingLosesIt(codec, steps, e);
    GoodDrainHandlesAll(codec, w);
    FittingOrOversized(ReadAll(codec, w.q.text), e);
    DroppedAreOversized(codec, steps);
  }

  // One event, in the file, and no connection.
  function OnFile(codec: Codec, a: Event, sent: seq<Event>): World {
    World(Down, Queues(Some(Enqueued(codec, None, a)), [], sent, []), [a], [a], [])
  }

  // A drain has read it ...
  function HasReadIt(codec: Codec, a: Event, sent: seq<Event>): World {
    OnFile(codec, a, sent).(conn := Draining([a], 0, Drain([], [], [], false)))
  }

  // ... and sent it, and not yet rewritten the file.
  function HasSentIt(codec: Codec, a: Event, sent: seq<Event>): World {
    var w := HasReadIt(codec, a, sent);
    w.(conn := Draining([a], 1, Drain([a], [], [], false)), q := w.q.(sent := sent + [a]))
  }

  lemma DrainMoves(codec: Codec, a: Event, sent: seq<Event>)
    requires codec.Lawful() && !Oversized(a)
    ensures Moves(codec, OnFile(codec, a, sent), Ordinary(SenderRuns.Connect), HasReadIt(codec, a, sent))
    ensures Moves(codec, HasReadIt(codec, a, sent), Ordinary(SenderRuns.DrainStep(true)), HasSentIt(codec, a, sent))
    ensures Moves(codec, HasSentIt(codec, a, sent), Crash, OnFile(codec, a, sent + [a]))
  {
    EnqueueAppends(codec, None, a);
    assert [] + [a] == [a];
  }

  lemma DrainsAndDies(codec: Codec, before: seq<Step>, a: Event, sent: seq<Event>) returns (steps: seq<Step>)
    requires codec.Lawful() && !Oversized(a) && Reaches(codec, before, OnFile(codec, a, sent))
    ensures Reaches(codec, steps, OnFile(codec, a, sent + [a]))
    ensures steps == before + [Ordinary(SenderRuns.Connect), Ordinary(SenderRuns.DrainStep(true)), Crash]
  {
    DrainMoves(codec, a, sent);
    steps := Extend(codec, before, OnFile(codec, a, sent), Ordinary(SenderRuns.Connect), HasReadIt(codec, a, sent));
    steps := Extend(codec, steps, HasReadIt(codec, a, sent), Ordinary(SenderRuns.DrainStep(true)), HasSentIt(codec, a, sent));
    steps := Extend(codec, steps, HasSentIt(codec, a, sent), Crash, OnFile(codec, a, sent + [a]));
  }

  lemma StoresOne(codec: Codec, m: nat) returns (steps: seq<Step>)
    ensures Reaches(codec, steps, OnFile(codec, Event(0, m), []))
  {
    var a := Event(0, m);
    steps := Begin(codec, m);
    StoreIncoming(codec, Begun(a), a);
    assert [] + [a] == [a];
    steps := Extend(codec, steps, Begun(a), Ordinary(SenderRuns.LiveSend(false)), OnFile(codec, a, []));
  }

  // A drain sends its event and dies before it rewrites the file; the next drain
  // sends the event again.
  lemma DeadDrainSendsAgain(codec: Codec, m: nat) returns (steps: seq<Step>)
    requires codec.Lawful() && m <= MAX_EVENT_BYTES
    ensures Run(codec, Init(), steps).q.sent == [Event(0, m), Event(0, m)]
  {
    steps := StoresOne(codec, m);
    steps := DrainsAndDies(codec, steps, Event(0, m), []);
    assert [] + [Event(0, m)] == [Event(0, m)];
    steps := DrainsAndDies(codec, steps, Event(0, m), [Event(0, m)]);
  }
}
