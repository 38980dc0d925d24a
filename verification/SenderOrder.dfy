/** The order in which the sender first sends each event, crashes and stale senders included. */
module SenderOrder {
  import opened Wrappers
  import opened OfflineQueue
  import opened Sender
  import opened SenderDisk
  import opened SenderLosses
  import opened SenderRepeats
  import SenderRuns

  // ---------- First sends ----------

  function FirstSends(s: seq<Event>): seq<Event> {
    if s == [] then []
    else
      var n := |s| - 1;
      if s[n] in s[..n] then FirstSends(s[..n]) else FirstSends(s[..n]) + [s[n]]
  }

  lemma {:induction false} FirstSendsMembers(s: seq<Event>, e: Event)
    ensures e in FirstSends(s) <==> e in s
  {
    if s != [] {
      var n := |s| - 1;
      FirstSendsMembers(s[..n], e);
      assert s == s[..n] + [s[n]];
    }
  }

  // By the numbers the events were accepted under.
  predicate Rising(s: seq<Event>) {
    forall i, j | 0 <= i < j < |s| :: s[i].id <= s[j].id
  }

  // An event accepted after e is among them.
  predicate PassedBy(s: seq<Event>, e: Event) {
    exists b | b in s :: b.id > e.id
  }

  // e is first sent behind an event accepted after it.
  predicate SentLate(s: seq<Event>, e: Event) {
    s != [] &&
    var n := |s| - 1;
    SentLate(s[..n], e) || (s[n] == e && e !in s[..n] && PassedBy(s[..n], e))
  }

  lemma SentLateOneMore(s: seq<Event>, x: Event, e: Event)
    ensures SentLate(s + [x], e) <==> SentLate(s, e) || (x == e && e !in s && PassedBy(s, e))
  {
    assert (s + [x])[..|s|] == s;
  }

  lemma {:induction false} SentLateIsSent(s: seq<Event>, e: Event)
    requires SentLate(s, e)
    ensures e in s
  {
    var n := |s| - 1;
    if SentLate(s[..n], e) { SentLateIsSent(s[..n], e); }
  }

  lemma RisingOneMore(s: seq<Event>, e: Event)
    ensures Rising(s + [e]) <==> Rising(s) && !PassedBy(s, e)
  {
    var t := s + [e];
    if Rising(t) {
      forall i, j | 0 <= i < j < |s| ensures s[i].id <= s[j].id { assert t[i].id <= t[j].id; }
      forall b | b in s ensures b.id <= e.id {
        var i :| 0 <= i < |s| && s[i] == b;
        assert t[i].id <= t[|s|].id;
      }
    }
  }

  lemma SameMembersPass(s: seq<Event>, t: seq<Event>, e: Event)
    requires forall b :: b in s <==> b in t
    ensures PassedBy(s, e) == PassedBy(t, e)
  {
  }

  ghost predicate NoneSentLate(s: seq<Event>) {
    forall e :: !SentLate(s, e)
  }

  lemma NoneSentLateOneMore(s: seq<Event>, x: Event)
    ensures NoneSentLate(s + [x]) <==> NoneSentLate(s) && (x in s || !PassedBy(s, x))
  {
    SentLateOneMore(s, x, x);
    forall e ensures SentLate(s + [x], e) <==> SentLate(s, e) || (x == e && e !in s && PassedBy(s, e)) {
      SentLateOneMore(s, x, e);
    }
    if NoneSentLate(s + [x]) {
      forall e ensures !SentLate(s, e) { assert !SentLate(s + [x], e); }
    }
  }

  lemma {:induction false} RisingExactlyWhenNoneIsLate(s: seq<Event>)
    ensures Rising(FirstSends(s)) <==> NoneSentLate(s)
  {
    if s != [] {
      var n := |s| - 1;
      var earlier, x := FirstSends(s[..n]), s[n];
      assert s == s[..n] + [x];
      RisingExactlyWhenNoneIsLate(s[..n]);
      NoneSentLateOneMore(s[..n], x);
      if x !in s[..n] {
        RisingOneMore(earlier, x);
        forall b ensures b in earlier <==> b in s[..n] { FirstSendsMembers(s[..n], b); }
        SameMembersPass(earlier, s[..n], x);
      }
    }
  }

  // ---------- The file holds events in the order accepted ----------

  function Remaining(w: World): seq<Event> {
    if w.conn.Draining? && w.conn.next <= |w.conn.buffered| then w.conn.d.failed + w.conn.buffered[w.conn.next..] else []
  }

  // An event appended since the drain read the file was accepted after those it read.
  ghost predicate LateIsLater(codec: Codec, w: World) {
    w.conn.Draining? ==>
      forall e, b | Readable(codec, w, e) && e !in w.conn.buffered && b in w.conn.buffered :: b.id < e.id
  }

  ghost predicate Lined(codec: Codec, w: World) {
    && Rising(ReadAll(codec, w.q.text)) && Rising(Remaining(w)) && LateIsLater(codec, w)
    && (w.conn.Draining? && !w.conn.d.sendFailed ==> w.conn.d.failed == [])
  }

  lemma RisingParts(a: seq<Event>, x: Event, b: seq<Event>)
    requires Rising(a + ([x] + b))
    ensures Rising(a + b) && Rising(a + [x] + b)
  {
    var s, t := a + ([x] + b), a + b;
    assert s == a + [x] + b;
    forall i, j | 0 <= i < j < |t| ensures t[i].id <= t[j].id {
      var i', j' := if i < |a| then i else i + 1, if j < |a| then j else j + 1;
      assert t[i] == s[i'] && t[j] == s[j'];
    }
  }

  lemma RisingPrefix(a: seq<Event>, b: seq<Event>)
    requires Rising(a + b)
    ensures Rising(a)
  {
    forall i, j | 0 <= i < j < |a| ensures a[i].id <= a[j].id { assert (a + b)[i] == a[i] && (a + b)[j] == a[j]; }
  }

  lemma DrainRoundIsLined(codec: Codec, w: World, ok: bool)
    requires Sound(codec, w) && Lined(codec, w) && Enabled(codec, w, Ordinary(SenderRuns.DrainStep(ok)))
    ensures Lined(codec, Next(codec, w, Ordinary(SenderRuns.DrainStep(ok))))
  {
    var w', x := Next(codec, w, Ordinary(SenderRuns.DrainStep(ok))), w.conn.buffered[w.conn.next];
    DrainRound(codec, w, ok);
    RisingParts(w.conn.d.failed, x, w'.conn.buffered[w'.conn.next..]);
  }

  lemma DrainEndIsLined(codec: Codec, w: World)
    requires codec.Lawful() && Sound(codec, w) && Lined(codec, w) && Enabled(codec, w, Ordinary(SenderRuns.DrainEnds))
    ensures Lined(codec, Next(codec, w, Ordinary(SenderRuns.DrainEnds)))
  {
    DrainEndReads(codec, w);
    RisingPrefix(w.conn.d.failed, w.conn.buffered[w.conn.next..]);
  }

  lemma AppendKeepsRising(codec: Codec, w: World, k: nat)
    requires codec.Lawful() && Sound(codec, w) && w.q.incoming != [] && 0 < k <= |Record(codec, w.q.incoming[0])|
    requires Rising(ReadAll(codec, w.q.text))
    ensures Rising(ReadAll(codec, Some(Torn(codec, TextOf(w.q), w.q.incoming[0], k))))
  {
    var x := w.q.incoming[0];
    var lines, line := OpenEndOf(codec, TextOf(w.q));
    ReadTextOf(codec, w);
    ReadOpenLine(codec, lines, line);
    AppendEffect(codec, lines, line, x, k);
    var first := ReadAll(codec, Some(lines));
    RisingPrefix(first, RecordIn(codec, line));
    forall e | e in first ensures e.id <= x.id { assert e in first + RecordIn(codec, line) && e in w.written; }
    RisingOneMore(first, x);
    assert first + [] == first;
  }

  lemma AppendIsLined(codec: Codec, w: World, step: Step)
    requires codec.Lawful() && Sound(codec, w) && Lined(codec, w) && Enabled(codec, w, step) && Appends(codec, w, step) > 0
    ensures Lined(codec, Next(codec, w, step))
  {
    var w', x := Next(codec, w, step), w.q.incoming[0];
    AppendStep(codec, w, step);
    AppendKeepsRising(codec, w, Appends(codec, w, step));
    if w'.conn.Draining? {
      forall e, b | Readable(codec, w', e) && e !in w.conn.buffered && b in w.conn.buffered ensures b.id < e.id {
        AppendFor(codec, w, step, e);
        assert b in w.written;
      }
    }
  }

  lemma ConnectIsLined(codec: Codec, w: World)
    requires Lined(codec, w) && w.conn.Down?
    ensures Lined(codec, Next(codec, w, Ordinary(SenderRuns.Connect)))
  {
    var w' := Next(codec, w, Ordinary(SenderRuns.Connect));
    if w'.conn.Draining? { assert [] + w'.conn.buffered[0..] == w'.conn.buffered; }
  }

  // Nothing of the file or the drain changes, but that the drain may be given up.
  lemma StillIsLined(codec: Codec, w: World, w': World)
    requires Lined(codec, w) && ReadAll(codec, w'.q.text) == ReadAll(codec, w.q.text)
    requires w'.conn == w.conn || !w'.conn.Draining?
    ensures Lined(codec, w')
  {
  }

  lemma StepIsLined(codec: Codec, w: World, step: Step)
    requires codec.Lawful() && Sound(codec, w) && Lined(codec, w) && Enabled(codec, w, step)
    ensures Lined(codec, Next(codec, w, step))
  {
    if Appends(codec, w, step) > 0 {
      AppendIsLined(codec, w, step);
    } else if step == Ordinary(SenderRuns.Connect) {
      ConnectIsLined(codec, w);
    } else if step == Ordinary(SenderRuns.DrainEnds) {
      DrainEndIsLined(codec, w);
    } else if step.Ordinary? && step.step.DrainStep? {
      DrainRoundIsLined(codec, w, step.step.ok);
    } else {
      if step.TornAppend? { EmptyAppend(codec, w); }
      StillIsLined(codec, w, Next(codec, w, step));
    }
  }

  lemma {:induction false} RunIsLined(codec: Codec, steps: seq<Step>)
    requires codec.Lawful()
    ensures Lined(codec, Run(codec, Init(), steps))
  {
    if steps != [] {
      var n := |steps| - 1;
      RunIsLined(codec, steps[..n]);
      RunIsSound(codec, steps[..n]);
      if Enabled(codec, Run(codec, Init(), steps[..n]), steps[n]) {
        StepIsLined(codec, Run(codec, Init(), steps[..n]), steps[n]);
      }
    }
  }

  // ---------- Events overtaken ----------

  // On disk or in a drain's hands, small enough to be sent, and not sent yet.
  predicate Waits(codec: Codec, w: World, e: Event) {
    Unsent(w, e) && !Oversized(e) && (Readable(codec, w, e) || Held(w, e))
  }

  // A live send goes past e.
  predicate Overtakes(codec: Codec, w: World, step: Step, e: Event) {
    step == Ordinary(SenderRuns.LiveSend(true)) && Enabled(codec, w, step) && Waits(codec, w, e)
  }

  // e was first sent too late, or will be.
  predicate IsLate(codec: Codec, w: World, e: Event) {
    SentLate(w.q.sent, e) || (Waits(codec, w, e) && PassedBy(w.q.sent, e))
  }

  ghost predicate Ready(codec: Codec, w: World) {
    codec.Lawful() && Sound(codec, w) && Lined(codec, w) && DropsOnlyOversized(w)
  }

  // What one step does to the lateness of e.
  ghost predicate Lates(codec: Codec, w: World, step: Step, w': World, e: Event) {
    IsLate(codec, w', e) <==> (IsLate(codec, w, e) && !Loses(codec, w, step, e)) || Overtakes(codec, w, step, e)
  }

  predicate Sends(w: World, step: Step) {
    || step == Ordinary(SenderRuns.LiveSend(true))
    || (step == Ordinary(SenderRuns.DrainStep(true)) && w.conn.Draining? && w.conn.next < |w.conn.buffered|
        && !w.conn.d.sendFailed && !Oversized(w.conn.buffered[w.conn.next]))
  }

  lemma OnlySendsSend(codec: Codec, w: World, step: Step)
    requires Enabled(codec, w, step) && !Sends(w, step)
    ensures Next(codec, w, step).q.sent == w.q.sent
  {
    if step.Ordinary? && step.step.DrainStep? {
      var d := w.conn.d;
      assert DrainOne(d, w.conn.buffered[w.conn.next], step.step.ok).sent == d.sent;
      assert d.sent[|d.sent|..] == [] && w.q.sent + [] == w.q.sent;
    }
  }

  // A step that sends nothing: an event waits on unless it is lost; one that begins
  // to wait was accepted after all that were sent.
  lemma SilentStepLates(codec: Codec, w: World, step: Step, e: Event)
    requires Ready(codec, w) && Enabled(codec, w, step) && !Sends(w, step)
    ensures Lates(codec, w, step, Next(codec, w, step), e)
  {
    var w' := Next(codec, w, step);
    OnlySendsSend(codec, w, step);
    StepIsSound(codec, w, step, e);
    StepDropsOnlyOversized(codec, w, step);
    if SentLate(w.q.sent, e) { SentLateIsSent(w.q.sent, e); }
    if !Oversized(e) {
      if e in w.written || e in w'.written { WaitsOn(codec, w, step, e); }
      if Held(w, e) || Readable(codec, w, e) { HeldIsWritten(codec, w, e); }
      if Held(w', e) || Readable(codec, w', e) { HeldIsWritten(codec, w', e); }
    }
  }

  lemma WaitsOn(codec: Codec, w: World, step: Step, e: Event)
    requires Ready(codec, w) && Enabled(codec, w, step) && Next(codec, w, step).q.sent == w.q.sent
    requires !Oversized(e) && (e in w.written || e in Next(codec, w, step).written)
    ensures var w' := Next(codec, w, step);
            if e in w.written then Waits(codec, w', e) <==> Waits(codec, w, e) && !Loses(codec, w, step, e)
            else !PassedBy(w.q.sent, e) && !Waits(codec, w, e)
  {
    StepIsSound(codec, w, step, e);
    StepDropsOnlyOversized(codec, w, step);
    if e !in w.written {
      assert Appends(codec, w, step) > 0 by { NewlyWritten(codec, w, step, e); }
      AppendStep(codec, w, step);
      NextIsNew(codec, w);
    }
  }

  lemma NewlyWritten(codec: Codec, w: World, step: Step, e: Event)
    requires Ready(codec, w) && Enabled(codec, w, step)
    requires e !in w.written && e in Next(codec, w, step).written
    ensures Appends(codec, w, step) > 0 && w.q.incoming[0] == e
  {
    assert w.q.incoming != [] ==> codec.RecordIsALine(w.q.incoming[0]);
  }

  lemma PassedByOneMore(s: seq<Event>, x: Event, e: Event)
    ensures PassedBy(s + [x], e) <==> PassedBy(s, e) || x.id > e.id
  {
    if x.id > e.id { assert x in s + [x]; }
    if PassedBy(s, e) {
      var b :| b in s && b.id > e.id;
      assert b in s + [x];
    }
  }

  // A live send passes all that wait, and is passed by none.
  lemma LiveSendLates(codec: Codec, w: World, e: Event)
    requires Ready(codec, w) && Enabled(codec, w, Ordinary(SenderRuns.LiveSend(true)))
    ensures var step := Ordinary(SenderRuns.LiveSend(true)); Lates(codec, w, step, Next(codec, w, step), e)
  {
    var x := w.q.incoming[0];
    NextIsNew(codec, w);
    SentLateOneMore(w.q.sent, x, e);
    PassedByOneMore(w.q.sent, x, e);
    if SentLate(w.q.sent, e) { SentLateIsSent(w.q.sent, e); }
    if Held(w, e) || Readable(codec, w, e) { HeldIsWritten(codec, w, e); }
    assert !Loses(codec, w, Ordinary(SenderRuns.LiveSend(true)), e);
  }

  lemma WaitingIsAhead(codec: Codec, w: World, e: Event)
    requires Ready(codec, w) && w.conn.Draining? && !w.conn.d.sendFailed && Waits(codec, w, e) && e in w.conn.buffered
    ensures e in w.conn.buffered[w.conn.next..]
  {
    var i :| 0 <= i < |w.conn.buffered| && w.conn.buffered[i] == e;
    assert i >= w.conn.next;
    assert w.conn.buffered[w.conn.next..][i - w.conn.next] == e;
  }

  lemma FirstOfRising(s: seq<Event>, e: Event)
    requires Rising(s) && e in s
    ensures s[0].id <= e.id
  {
    var i :| 0 <= i < |s| && s[i] == e;
    assert i > 0 ==> s[0].id <= s[i].id;
  }

  lemma RisesFromNext(codec: Codec, w: World)
    requires Ready(codec, w) && w.conn.Draining? && w.conn.next < |w.conn.buffered| && !w.conn.d.sendFailed
    ensures var rest := w.conn.buffered[w.conn.next..]; Rising(rest) && rest[0] == w.conn.buffered[w.conn.next]
  {
    assert [] + w.conn.buffered[w.conn.next..] == w.conn.buffered[w.conn.next..];
  }

  // What a drain sends next was accepted before all else that waits.
  lemma DrainedIsFirst(codec: Codec, w: World, e: Event)
    requires Ready(codec, w) && w.conn.Draining? && w.conn.next < |w.conn.buffered| && !w.conn.d.sendFailed
    requires Waits(codec, w, e)
    ensures w.conn.buffered[w.conn.next].id <= e.id
  {
    if e in w.conn.buffered {
      WaitingIsAhead(codec, w, e);
      RisesFromNext(codec, w);
      FirstOfRising(w.conn.buffered[w.conn.next..], e);
    } else {
      if Held(w, e) { HeldIsBuffered(codec, w, e); }
      assert w.conn.buffered[w.conn.next] in w.conn.buffered;
    }
  }

  lemma DrainSendLates(codec: Codec, w: World, e: Event)
    requires Ready(codec, w) && Enabled(codec, w, Ordinary(SenderRuns.DrainStep(true)))
    requires !w.conn.d.sendFailed && !Oversized(w.conn.buffered[w.conn.next])
    ensures var step := Ordinary(SenderRuns.DrainStep(true)); Lates(codec, w, step, Next(codec, w, step), e)
  {
    var w', x := Next(codec, w, Ordinary(SenderRuns.DrainStep(true))), w.conn.buffered[w.conn.next];
    DrainRound(codec, w, true);
    HeldMovesOn(w, w', x, e);
    assert w'.q.sent == w.q.sent + [x] && w'.q.dropped == w.q.dropped;
    SentLateOneMore(w.q.sent, x, e);
    PassedByOneMore(w.q.sent, x, e);
    if SentLate(w.q.sent, e) { SentLateIsSent(w.q.sent, e); }
    if Waits(codec, w, e) { DrainedIsFirst(codec, w, e); }
    assert !Loses(codec, w, Ordinary(SenderRuns.DrainStep(true)), e);
  }

  lemma StepLates(codec: Codec, w: World, step: Step, e: Event)
    requires Ready(codec, w) && Enabled(codec, w, step)
    ensures Lates(codec, w, step, Next(codec, w, step), e)
  {
    if !Sends(w, step) {
      SilentStepLates(codec, w, step, e);
    } else if step == Ordinary(SenderRuns.LiveSend(true)) {
      LiveSendLates(codec, w, e);
    } else {
      DrainSendLates(codec, w, e);
    }
  }

  // ---------- Over every run ----------

  // Some live send of the run goes past e.
  predicate Overtaken(codec: Codec, steps: seq<Step>, e: Event) {
    steps != [] &&
    var n := |steps| - 1;
    Overtaken(codec, steps[..n], e) || Overtakes(codec, Run(codec, Init(), steps[..n]), steps[n], e)
  }

  lemma {:induction false} LateExactlyWhenOvertakenAndSafe(codec: Codec, steps: seq<Step>, e: Event)
    requires codec.Lawful()
    ensures Overtaken(codec, steps, e) ==> WrittenIn(codec, steps, e)
    ensures IsLate(codec, Run(codec, Init(), steps), e) <==> Overtaken(codec, steps, e) && SafeAfter(codec, steps, e)
  {
    if steps != [] {
      var n := |steps| - 1;
      var before := Run(codec, Init(), steps[..n]);
      LateExactlyWhenOvertakenAndSafe(codec, steps[..n], e);
      RunIsSound(codec, steps[..n]);
      RunIsLined(codec, steps[..n]);
      DroppedAreOversized(codec, steps[..n]);
      if Enabled(codec, before, steps[n]) {
        StepIsSound(codec, before, steps[n], e);
        StepLates(codec, before, steps[n], e);
        if Overtakes(codec, before, steps[n], e) { HeldIsWritten(codec, before, e); }
      }
    }
  }

  // The events sent, each where it was first sent, are in the order accepted, and
  // none that waits was accepted before one of them.
  ghost predicate FirstSendsInOrder(codec: Codec, w: World) {
    && Rising(FirstSends(w.q.sent))
    && forall e | Waits(codec, w, e) :: !PassedBy(w.q.sent, e)
  }

  lemma InOrderExactlyWhenNoneIsLate(codec: Codec, w: World)
    ensures FirstSendsInOrder(codec, w) <==> forall e :: !IsLate(codec, w, e)
  {
    RisingExactlyWhenNoneIsLate(w.q.sent);
    if forall e :: !IsLate(codec, w, e) {
      forall e ensures !SentLate(w.q.sent, e) { assert !IsLate(codec, w, e); }
      forall e | Waits(codec, w, e) ensures !PassedBy(w.q.sent, e) { assert !IsLate(codec, w, e); }
    }
  }

  // Over every run, with crashes between and inside appends and stale senders: the
  // first sends are in the accepted order exactly when every event that a live send
  // went past was lost.
  lemma FirstSendsInOrderExactlyWhenTheOvertakenAreLost(codec: Codec, steps: seq<Step>)
    requires codec.Lawful()
    ensures FirstSendsInOrder(codec, Run(codec, Init(), steps))
            <==> forall e | Overtaken(codec, steps, e) :: EverLoses(codec, steps, e)
  {
    var w := Run(codec, Init(), steps);
    InOrderExactlyWhenNoneIsLate(codec, w);
    forall e
      ensures IsLate(codec, w, e) <==> Overtaken(codec, steps, e) && !EverLoses(codec, steps, e)
    {
      LateExactlyWhenOvertakenAndSafe(codec, steps, e);
      WrittenIsSafeExactlyWhenNothingLosesIt(codec, steps, e);
    }
  }
}
