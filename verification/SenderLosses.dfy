/** When the sender loses an event that was on disk, in the words of its history. */
module SenderLosses {
  import opened Wrappers
  import opened OfflineQueue
  import opened Sender
  import opened SenderDisk
  import SenderRuns

  // ---------- Runs in which every append is whole ----------

  // A crash inside an append that leaves part of a record behind.
  predicate Tears(codec: Codec, w: World, step: Step) {
    step.TornAppend? && w.q.incoming != [] && 0 < step.k < |Record(codec, w.q.incoming[0])|
  }

  predicate TearsAt(codec: Codec, steps: seq<Step>, i: nat)
    requires i < |steps|
  {
    Tears(codec, Run(codec, Init(), steps[..i]), steps[i])
  }

  predicate NeverTears(codec: Codec, steps: seq<Step>) {
    forall i: nat | i < |steps| :: !TearsAt(codec, steps, i)
  }

  lemma NeverTearsBefore(codec: Codec, steps: seq<Step>, n: nat)
    requires NeverTears(codec, steps) && n < |steps|
    ensures NeverTears(codec, steps[..n]) && !Tears(codec, Run(codec, Init(), steps[..n]), steps[n])
  {
    forall i: nat | i < n ensures !TearsAt(codec, steps[..n], i) {
      assert !TearsAt(codec, steps, i) && steps[..n][..i] == steps[..i];
    }
    assert !TearsAt(codec, steps, n);
  }

  // Then no line is ever left open, and a drain sees all the file held when it
  // began, the late events coming behind.
  ghost predicate Tidy(codec: Codec, w: World) {
    LineIsFinished(w) && (w.conn.Draining? ==> ReadAll(codec, w.q.text) == w.conn.buffered + w.late)
  }

  lemma TextIsTidy(codec: Codec, w: World, step: Step)
    requires codec.Lawful() && LineIsFinished(w) && Enabled(codec, w, step) && !Tears(codec, w, step)
    ensures LineIsFinished(Next(codec, w, step))
  {
    if step == Ordinary(SenderRuns.DrainEnds) {
      WriteAllIsLines(codec, w.conn.d.failed);
    } else if step.TornAppend? {
      TornEffect(codec, TextOf(w.q), w.q.incoming[0], step.k);
    }
  }

  lemma OneMoreLate(buffered: seq<Event>, late: seq<Event>, e: Event)
    ensures buffered + (late + [e]) == buffered + late + [e]
  {
  }

  lemma StaleSendIsTidy(codec: Codec, w: World)
    requires codec.Lawful() && Tidy(codec, w) && w.conn.Draining? && w.q.incoming != []
    ensures var w' := Next(codec, w, Ordinary(SenderRuns.StaleSend));
            w'.conn == w.conn && ReadAll(codec, w'.q.text) == w'.conn.buffered + w'.late
  {
    StoringOnEvents(codec, w);
    OneMoreLate(w.conn.buffered, w.late, w.q.incoming[0]);
  }

  // Any other step that begins or goes on with a drain leaves the file alone.
  lemma OtherDrainSteps(codec: Codec, w: World, step: Step)
    requires Enabled(codec, w, step) && step != Ordinary(SenderRuns.StaleSend) && Next(codec, w, step).conn.Draining?
    ensures var w' := Next(codec, w, step);
            && w'.q.text == w.q.text
            && (if step == Ordinary(SenderRuns.Connect) then w'.late == [] && w'.conn.buffered == ReadAll(codec, w.q.text)
                else w.conn.Draining? && w'.late == w.late && w'.conn.buffered == w.conn.buffered)
  {
  }

  lemma StepIsTidy(codec: Codec, w: World, step: Step)
    requires codec.Lawful() && Tidy(codec, w) && Enabled(codec, w, step) && !Tears(codec, w, step)
    ensures Tidy(codec, Next(codec, w, step))
  {
    TextIsTidy(codec, w, step);
    if Next(codec, w, step).conn.Draining? {
      if step == Ordinary(SenderRuns.StaleSend) {
        StaleSendIsTidy(codec, w);
      } else {
        OtherDrainSteps(codec, w, step);
      }
    }
  }

  lemma {:induction false} RunIsTidy(codec: Codec, steps: seq<Step>)
    requires codec.Lawful() && NeverTears(codec, steps)
    ensures Tidy(codec, Run(codec, Init(), steps))
  {
    if steps != [] {
      var n := |steps| - 1;
      NeverTearsBefore(codec, steps, n);
      RunIsTidy(codec, steps[..n]);
      if Enabled(codec, Run(codec, Init(), steps[..n]), steps[n]) {
        StepIsTidy(codec, Run(codec, Init(), steps[..n]), steps[n]);
      }
    }
  }

  lemma LateIsNotBuffered(buffered: seq<Event>, late: seq<Event>, e: Event)
    requires Distinct(buffered + late)
    ensures e in late <==> e in buffered + late && e !in buffered
  {
    forall i, j | 0 <= i < |buffered| && 0 <= j < |late| ensures buffered[i] != late[j] {
      assert (buffered + late)[i] == buffered[i] && (buffered + late)[|buffered| + j] == late[j];
    }
  }

  // In such a world the one way to lose an event is to end a drain with it late.
  predicate EndsDrainWithLate(w: World, step: Step, e: Event) {
    step == Ordinary(SenderRuns.DrainEnds) && w.conn.Draining? && w.conn.next == |w.conn.buffered| && Unsent(w, e) && e in w.late
  }

  lemma HeldIsBuffered(codec: Codec, w: World, e: Event)
    requires Sound(codec, w) && Held(w, e)
    ensures e in w.conn.buffered
  {
    if e !in w.conn.d.failed {
      assert e in w.conn.buffered[w.conn.next..];
    }
  }

  // What a drain holds can still be read from the file.
  lemma TidyDropsNothing(codec: Codec, w: World, step: Step, e: Event)
    requires Sound(codec, w) && Tidy(codec, w)
    ensures !DropsIt(codec, w, step, e)
  {
    if Held(w, e) { HeldIsBuffered(codec, w, e); }
  }

  lemma TidyForgetsOnlyLate(codec: Codec, w: World, step: Step, e: Event)
    requires Sound(codec, w) && Tidy(codec, w)
    ensures ForgetsIt(codec, w, step, e) <==> step == Ordinary(SenderRuns.DrainEnds) && w.conn.Draining? && e in w.late
  {
    if w.conn.Draining? { LateIsNotBuffered(w.conn.buffered, w.late, e); }
  }

  lemma TidyLosesOnlyLate(codec: Codec, w: World, step: Step, e: Event)
    requires Sound(codec, w) && Tidy(codec, w)
    ensures Loses(codec, w, step, e) <==> EndsDrainWithLate(w, step, e)
  {
    TidyDropsNothing(codec, w, step, e);
    TidyForgetsOnlyLate(codec, w, step, e);
    assert Enabled(codec, w, step) ==> !RunsOn(codec, w, step, e);
    assert Enabled(codec, w, Ordinary(SenderRuns.DrainEnds)) <==> w.conn.Draining? && w.conn.next == |w.conn.buffered|;
  }

  predicate EndsDrainWithLateAt(codec: Codec, steps: seq<Step>, i: nat, e: Event)
    requires i < |steps|
  {
    EndsDrainWithLate(Run(codec, Init(), steps[..i]), steps[i], e)
  }

  // With appends that are whole, crashes anywhere else and stale senders anywhere:
  // a written event is lost if and only if a stale sender appended it between a
  // drain's read of the file and that drain's rewrite of it.
  lemma LostExactlyBetweenReadAndRewrite(codec: Codec, steps: seq<Step>, e: Event)
    requires codec.Lawful() && NeverTears(codec, steps)
    ensures WrittenIn(codec, steps, e) ==>
              (SafeAfter(codec, steps, e) <==> forall i: nat | i < |steps| :: !EndsDrainWithLateAt(codec, steps, i, e))
  {
    WrittenIsSafeExactlyWhenNothingLosesIt(codec, steps, e);
    forall i: nat | i < |steps| ensures LosesAt(codec, steps, i, e) == EndsDrainWithLateAt(codec, steps, i, e) {
      LossInTidyRun(codec, steps, i, e);
    }
    LossSomewhere(codec, steps, e);
  }

  lemma LossSomewhere(codec: Codec, steps: seq<Step>, e: Event)
    ensures EverLoses(codec, steps, e) <==> exists i: nat :: i < |steps| && LosesAt(codec, steps, i, e)
  {
    var flags := Losses(codec, steps, e);
    if true in flags {
      var i :| 0 <= i < |flags| && flags[i];
      assert LosesAt(codec, steps, i, e);
    }
  }

  lemma NeverTearsUpTo(codec: Codec, steps: seq<Step>, n: nat)
    requires NeverTears(codec, steps) && n <= |steps|
    ensures NeverTears(codec, steps[..n])
  {
    if n < |steps| {
      NeverTearsBefore(codec, steps, n);
    } else {
      assert steps[..n] == steps;
    }
  }

  lemma LossInTidyRun(codec: Codec, steps: seq<Step>, i: nat, e: Event)
    requires codec.Lawful() && NeverTears(codec, steps) && i < |steps|
    ensures LosesAt(codec, steps, i, e) == EndsDrainWithLateAt(codec, steps, i, e)
  {
    NeverTearsUpTo(codec, steps, i);
    RunIsSound(codec, steps[..i]);
    RunIsTidy(codec, steps[..i]);
    TidyLosesOnlyLate(codec, Run(codec, Init(), steps[..i]), steps[i], e);
  }

  // ---------- Runs without stale sends ----------

  predicate NoStaleSends(steps: seq<Step>) {
    forall i | 0 <= i < |steps| :: steps[i] != Ordinary(SenderRuns.StaleSend)
  }

  // The drain under way read all that is in the file.
  ghost predicate DrainsAll(codec: Codec, w: World) {
    w.conn.Draining? ==> ReadAll(codec, w.q.text) == w.conn.buffered
  }

  lemma {:induction false} RunDrainsAll(codec: Codec, steps: seq<Step>)
    requires NoStaleSends(steps)
    ensures DrainsAll(codec, Run(codec, Init(), steps))
  {
    if steps != [] {
      var n := |steps| - 1;
      var before := Run(codec, Init(), steps[..n]);
      RunDrainsAll(codec, steps[..n]);
      if Enabled(codec, before, steps[n]) && Next(codec, before, steps[n]).conn.Draining? {
        OtherDrainSteps(codec, before, steps[n]);
      }
    }
  }

  // An append behind an open line, of e or behind e's own record.
  predicate RunsBehind(codec: Codec, w: World, step: Step, e: Event) {
    && Enabled(codec, w, step) && Unsent(w, e) && Appends(codec, w, step) > 0 && !LineIsFinished(w)
    && ((w.q.incoming[0] == e && Appends(codec, w, step) >= |codec.encode(e)|) || EndsIn(codec, w, e))
  }

  // One live sender appends only when no drain is under way.
  lemma LiveAppends(codec: Codec, w: World, step: Step, e: Event)
    requires Enabled(codec, w, step) && step != Ordinary(SenderRuns.StaleSend) && Appends(codec, w, step) > 0
    ensures !(Held(w, e) && !Dies(step))
  {
  }

  lemma DrainsAllLosesOnlyBehind(codec: Codec, w: World, step: Step, e: Event)
    requires step != Ordinary(SenderRuns.StaleSend) && Sound(codec, w) && DrainsAll(codec, w)
    ensures Loses(codec, w, step, e) <==> RunsBehind(codec, w, step, e)
  {
    if Held(w, e) { HeldIsBuffered(codec, w, e); }
    assert !DropsIt(codec, w, step, e) && !ForgetsIt(codec, w, step, e);
    if Enabled(codec, w, step) && Appends(codec, w, step) > 0 {
      LiveAppends(codec, w, step, e);
    }
  }

  predicate RunsBehindAt(codec: Codec, steps: seq<Step>, i: nat, e: Event)
    requires i < |steps|
  {
    RunsBehind(codec, Run(codec, Init(), steps[..i]), steps[i], e)
  }

  lemma LossWithoutStale(codec: Codec, steps: seq<Step>, i: nat, e: Event)
    requires codec.Lawful() && NoStaleSends(steps) && i < |steps|
    ensures LosesAt(codec, steps, i, e) == RunsBehindAt(codec, steps, i, e)
  {
    RunIsSound(codec, steps[..i]);
    RunDrainsAll(codec, steps[..i]);
    DrainsAllLosesOnlyBehind(codec, Run(codec, Init(), steps[..i]), steps[i], e);
  }

  // With crashes inside appends but one live sender: a written event is lost if and
  // only if its append ran on behind an open line, or another ran on behind it.
  lemma LostExactlyBehindAnOpenLine(codec: Codec, steps: seq<Step>, e: Event)
    requires codec.Lawful() && NoStaleSends(steps)
    ensures WrittenIn(codec, steps, e) ==>
              (SafeAfter(codec, steps, e) <==> forall i: nat | i < |steps| :: !RunsBehindAt(codec, steps, i, e))
  {
    WrittenIsSafeExactlyWhenNothingLosesIt(codec, steps, e);
    forall i: nat | i < |steps| ensures LosesAt(codec, steps, i, e) == RunsBehindAt(codec, steps, i, e) {
      LossWithoutStale(codec, steps, i, e);
    }
    LossSomewhere(codec, steps, e);
  }

  // ---------- Runs that lose nothing ----------

  predicate CalmAt(codec: Codec, steps: seq<Step>, i: nat)
    requires i < |steps|
  {
    !(steps[i] == Ordinary(SenderRuns.StaleSend) && Run(codec, Init(), steps[..i]).conn.Draining?)
  }

  lemma LateGrows(codec: Codec, w: World, step: Step)
    requires Enabled(codec, w, step) && w.late == []
    requires !(step == Ordinary(SenderRuns.StaleSend) && w.conn.Draining?)
    ensures Next(codec, w, step).late == []
  {
  }

  lemma CalmBefore(codec: Codec, steps: seq<Step>, n: nat)
    requires n <= |steps| && forall i: nat | i < |steps| :: CalmAt(codec, steps, i)
    ensures forall i: nat | i < n :: CalmAt(codec, steps[..n], i)
  {
    forall i: nat | i < n ensures CalmAt(codec, steps[..n], i) {
      assert CalmAt(codec, steps, i) && steps[..n][..i] == steps[..i];
    }
  }

  lemma {:induction false} CalmRunHasNothingLate(codec: Codec, steps: seq<Step>)
    requires forall i: nat | i < |steps| :: CalmAt(codec, steps, i)
    ensures Run(codec, Init(), steps).late == []
  {
    if steps != [] {
      var n := |steps| - 1;
      CalmBefore(codec, steps, n);
      CalmRunHasNothingLate(codec, steps[..n]);
      assert CalmAt(codec, steps, n);
      if Enabled(codec, Run(codec, Init(), steps[..n]), steps[n]) {
        LateGrows(codec, Run(codec, Init(), steps[..n]), steps[n]);
      }
    }
  }

  // With whole appends and no stale send during a drain, crashes anywhere else lose
  // nothing that reached the disk.
  lemma NothingOnDiskIsLost(codec: Codec, steps: seq<Step>, e: Event)
    requires codec.Lawful() && NeverTears(codec, steps)
    requires forall i: nat | i < |steps| :: CalmAt(codec, steps, i)
    ensures WrittenIn(codec, steps, e) ==> SafeAfter(codec, steps, e)
  {
    LostExactlyBetweenReadAndRewrite(codec, steps, e);
    forall i: nat | i < |steps| ensures !EndsDrainWithLateAt(codec, steps, i, e) {
      CalmBefore(codec, steps, i);
      CalmRunHasNothingLate(codec, steps[..i]);
    }
  }

  // ---------- Runs that lose an event ----------

  ghost predicate Moves(codec: Codec, w: World, step: Step, w': World) {
    Enabled(codec, w, step) && Next(codec, w, step) == w'
  }

  ghost predicate Reaches(codec: Codec, steps: seq<Step>, w: World) {
    Run(codec, Init(), steps) == w
  }

  lemma Extend(codec: Codec, steps: seq<Step>, w: World, step: Step, w': World) returns (more: seq<Step>)
    requires Reaches(codec, steps, w) && Moves(codec, w, step, w')
    ensures Reaches(codec, more, w')
    ensures more == steps + [step]
  {
    more := steps + [step];
    RunOneMore(codec, Init(), steps, step);
  }

  // One event accepted, and a connection with nothing to drain.
  function Begun(a: Event): World {
    World(Live(false), Queues(None, [a], [], []), [a], [], [])
  }

  lemma Begin(codec: Codec, m: nat) returns (steps: seq<Step>)
    ensures Reaches(codec, steps, Begun(Event(0, m)))
    ensures NoStaleSends(steps) && forall i | 0 <= i < |steps| :: !steps[i].TornAppend?
  {
    var accepted := World(Down, Queues(None, [Event(0, m)], [], []), [Event(0, m)], [], []);
    assert Moves(codec, Init(), Ordinary(SenderRuns.Put(m)), accepted);
    assert Moves(codec, accepted, Ordinary(SenderRuns.Connect), Begun(Event(0, m)));
    steps := Extend(codec, [], Init(), Ordinary(SenderRuns.Put(m)), accepted);
    steps := Extend(codec, steps, accepted, Ordinary(SenderRuns.Connect), Begun(Event(0, m)));
  }

  lemma EmptyTextHoldsNothing(codec: Codec)
    ensures ReadAll(codec, Some("")) == []
  {
    FewPieces(codec, "");
  }

  lemma TornTextHoldsNothing(codec: Codec, a: Event, k: nat)
    requires codec.Lawful() && 0 < k < |codec.encode(a)|
    ensures ReadAll(codec, Some(Torn(codec, "", a, k))) == []
  {
    TornEffect(codec, "", a, k);
    EmptyTextHoldsNothing(codec);
  }

  // A connection over a file that holds a torn record and nothing to read.
  function AfterTear(codec: Codec, a: Event, k: nat): World
    requires k <= |Record(codec, a)|
  {
    World(Live(false), Queues(Some(Torn(codec, "", a, k)), [], [], []), [a], [], [])
  }

  // The first event's append is torn; reconnecting finds nothing to read.
  lemma Tear(codec: Codec, m: nat, k: nat) returns (steps: seq<Step>)
    requires codec.Lawful() && 0 < k < |codec.encode(Event(0, m))|
    ensures Reaches(codec, steps, AfterTear(codec, Event(0, m), k)) && NoStaleSends(steps)
  {
    var a := Event(0, m);
    var died := AfterTear(codec, a, k).(conn := Down);
    steps := Begin(codec, m);
    TornTextHoldsNothing(codec, a, k);
    steps := Extend(codec, steps, Begun(a), TornAppend(k), died);
    steps := Extend(codec, steps, died, Ordinary(SenderRuns.Connect), AfterTear(codec, a, k));
  }

  lemma PutSecond(codec: Codec, w: World, n: nat)
    requires |w.accepted| == 1 && w.q.incoming == []
    ensures Moves(codec, w, Ordinary(SenderRuns.Put(n)),
                  w.(accepted := w.accepted + [Event(1, n)], q := w.q.(incoming := [Event(1, n)])))
  {
  }

  lemma StoreIncoming(codec: Codec, w: World, b: Event)
    requires w.conn.Live? && w.q.incoming == [b]
    ensures Moves(codec, w, Ordinary(SenderRuns.LiveSend(false)),
                  w.(conn := Down, written := w.written + [b],
                     q := w.q.(incoming := [], text := Some(Enqueued(codec, w.q.text, b)))))
  {
  }

  // The second event comes in over a torn record.
  function SecondOverTear(codec: Codec, a: Event, k: nat, b: Event): World
    requires k <= |Record(codec, a)|
  {
    AfterTear(codec, a, k).(accepted := [a, b], q := AfterTear(codec, a, k).q.(incoming := [b]))
  }

  lemma TearThenPut(codec: Codec, m: nat, n: nat, k: nat) returns (steps: seq<Step>)
    requires codec.Lawful() && 0 < k < |codec.encode(Event(0, m))|
    ensures Reaches(codec, steps, SecondOverTear(codec, Event(0, m), k, Event(1, n))) && NoStaleSends(steps)
  {
    var a, b := Event(0, m), Event(1, n);
    steps := Tear(codec, m, k);
    PutSecond(codec, AfterTear(codec, a, k), n);
    assert [a] + [b] == [a, b];
    steps := Extend(codec, steps, AfterTear(codec, a, k), Ordinary(SenderRuns.Put(n)), SecondOverTear(codec, a, k, b));
  }

  lemma Swallowed(codec: Codec, a: Event, k: nat, b: Event, w: World)
    requires codec.Lawful() && 0 < k < |codec.encode(a)|
    requires w.q == Queues(Some(Enqueued(codec, Some(Torn(codec, "", a, k)), b)), [], [], []) && !w.conn.Draining?
    ensures !Safe(codec, w, b)
  {
    RecordAfterTornIsLost(codec, "", a, k, b);
    EmptyTextHoldsNothing(codec);
  }

  // A record torn by a crash, then a whole one behind it: nothing can be read, so
  // reconnecting mends nothing, and the second event is lost.
  lemma TornRecordSwallowsTheNext(codec: Codec, m: nat, n: nat, k: nat) returns (steps: seq<Step>)
    requires codec.Lawful() && 0 < k < |codec.encode(Event(0, m))|
    ensures WrittenIn(codec, steps, Event(1, n)) && !SafeAfter(codec, steps, Event(1, n))
    ensures NoStaleSends(steps)
  {
    var a, b := Event(0, m), Event(1, n);
    var put := SecondOverTear(codec, a, k, b);
    var stored := put.(conn := Down, written := [b], q := Queues(Some(Enqueued(codec, put.q.text, b)), [], [], []));
    var before := TearThenPut(codec, m, n, k);
    StoreIncoming(codec, put, b);
    steps := Extend(codec, before, put, Ordinary(SenderRuns.LiveSend(false)), stored);
    Swallowed(codec, a, k, b, stored);
  }

  // The first event is in the file and being drained, the second has come in.
  function BeingDrained(codec: Codec, a: Event, b: Event): World {
    World(Draining([a], 0, Drain([], [], [], false)), Queues(Some(Enqueued(codec, None, a)), [b], [], []), [a, b], [a], [])
  }

  lemma StartDraining(codec: Codec, m: nat, n: nat) returns (steps: seq<Step>)
    requires codec.Lawful()
    ensures Reaches(codec, steps, BeingDrained(codec, Event(0, m), Event(1, n)))
    ensures forall i | 0 <= i < |steps| :: !steps[i].TornAppend?
  {
    var a, b := Event(0, m), Event(1, n);
    var w := BeingDrained(codec, a, b);
    var down := w.(conn := Down);
    var stored := World(Down, Queues(w.q.text, [], [], []), [a], [a], []);
    steps := Begin(codec, m);
    StoreIncoming(codec, Begun(a), a);
    assert [] + [a] == [a];
    steps := Extend(codec, steps, Begun(a), Ordinary(SenderRuns.LiveSend(false)), stored);
    PutSecond(codec, stored, n);
    assert [a] + [b] == [a, b];
    steps := Extend(codec, steps, stored, Ordinary(SenderRuns.Put(n)), down);
    EnqueueAppends(codec, None, a);
    steps := Extend(codec, steps, down, Ordinary(SenderRuns.Connect), w);
  }

  lemma AppendLate(codec: Codec, a: Event, b: Event)
    ensures var w := BeingDrained(codec, a, b);
            Moves(codec, w, Ordinary(SenderRuns.StaleSend),
                  w.(written := [a, b], late := [b], q := w.q.(incoming := [], text := Some(Enqueued(codec, w.q.text, b)))))
  {
  }

  lemma SendOnly(codec: Codec, w: World, a: Event)
    requires w.conn == Draining([a], 0, Drain([], [], [], false)) && !Oversized(a) && w.q.sent == [] && w.q.dropped == []
    ensures Moves(codec, w, Ordinary(SenderRuns.DrainStep(true)),
                  w.(conn := Draining([a], 1, Drain([a], [], [], false)), q := w.q.(sent := [a])))
  {
  }

  lemma RemoveFile(codec: Codec, w: World, a: Event)
    requires w.conn == Draining([a], 1, Drain([a], [], [], false))
    ensures Moves(codec, w, Ordinary(SenderRuns.DrainEnds), w.(conn := Live(false), q := w.q.(text := None)))
  {
  }

  // ... and a stale sender has appended it.
  function WithLate(codec: Codec, a: Event, b: Event): World {
    var w := BeingDrained(codec, a, b);
    w.(written := [a, b], late := [b], q := w.q.(incoming := [], text := Some(Enqueued(codec, w.q.text, b))))
  }

  lemma DrainThenAppend(codec: Codec, m: nat, n: nat) returns (steps: seq<Step>)
    requires codec.Lawful()
    ensures Reaches(codec, steps, WithLate(codec, Event(0, m), Event(1, n)))
    ensures forall i | 0 <= i < |steps| :: !steps[i].TornAppend?
  {
    var a, b := Event(0, m), Event(1, n);
    steps := StartDraining(codec, m, n);
    AppendLate(codec, a, b);
    steps := Extend(codec, steps, BeingDrained(codec, a, b), Ordinary(SenderRuns.StaleSend), WithLate(codec, a, b));
  }

  // A stale sender appends while the first event is being drained; the drain sends
  // that one, removes the file, and the second event is lost.
  lemma LateEventIsForgotten(codec: Codec, m: nat, n: nat) returns (steps: seq<Step>)
    requires codec.Lawful() && m <= MAX_EVENT_BYTES
    ensures WrittenIn(codec, steps, Event(1, n)) && !SafeAfter(codec, steps, Event(1, n))
    ensures forall i | 0 <= i < |steps| :: !steps[i].TornAppend?
  {
    var a, b := Event(0, m), Event(1, n);
    var late := WithLate(codec, a, b);
    var sent := late.(conn := Draining([a], 1, Drain([a], [], [], false)), q := late.q.(sent := [a]));
    var gone := sent.(conn := Live(false), q := sent.q.(text := None));
    steps := DrainThenAppend(codec, m, n);
    SendOnly(codec, late, a);
    steps := Extend(codec, steps, late, Ordinary(SenderRuns.DrainStep(true)), sent);
    RemoveFile(codec, sent, a);
    steps := Extend(codec, steps, sent, Ordinary(SenderRuns.DrainEnds), gone);
  }
}
