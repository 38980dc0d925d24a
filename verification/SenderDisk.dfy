/**
 The sender with the text of its offline file, and with crashes: between two
 steps, or inside an append after any number of its characters.
 */
module SenderDisk {
  import opened Wrappers
  import opened OfflineQueue
  import opened Sender
  import SenderRuns

  /**
   written: the events whose whole encoding was once appended to the file;
   late: those a stale sender appended since the current drain read the file.
   */
  datatype World = World(conn: Conn, q: Queues, accepted: seq<Event>, written: seq<Event>, late: seq<Event>)

  datatype Step =
    | Ordinary(step: SenderRuns.Step)
    | Crash
    | TornAppend(k: nat)    // a send fails, and the process dies k characters into the append

  function Init(): World {
    World(Down, Queues(None, [], [], []), [], [], [])
  }

  // open(..., "a") creates the file.
  function TextOf(q: Queues): string {
    if q.text.Some? then q.text.value else ""
  }

  predicate Enabled(codec: Codec, w: World, step: Step) {
    match step
    case Ordinary(s) =>
      (match s
       case Put(_) => true
       case Connect => w.conn.Down?
       case DrainStep(_) => w.conn.Draining? && w.conn.next < |w.conn.buffered|
       case DrainEnds => w.conn.Draining? && w.conn.next == |w.conn.buffered|
       case LiveSend(_) => w.conn.Live? && w.q.incoming != []
       case ConnectionDrops => w.conn.Live?
       case StaleSend => w.q.incoming != [])
    case Crash => true
    case TornAppend(k) => w.q.incoming != [] && k <= |Record(codec, w.q.incoming[0])|
  }

  function Next(codec: Codec, w: World, step: Step): World
    requires Enabled(codec, w, step)
  {
    match step
    case Ordinary(Put(bytes)) =>
      var e := Event(|w.accepted|, bytes);
      w.(accepted := w.accepted + [e], q := w.q.(incoming := w.q.incoming + [e]))
    case Ordinary(Connect) =>
      var buffered := ReadAll(codec, w.q.text);
      w.(conn := if buffered == [] then Live(false) else Draining(buffered, 0, Drain([], [], [], false)), late := [])
    case Ordinary(DrainStep(ok)) =>
      var d := DrainOne(w.conn.d, w.conn.buffered[w.conn.next], ok);
      w.(conn := Draining(w.conn.buffered, w.conn.next + 1, d),
         q := w.q.(sent := w.q.sent + d.sent[|w.conn.d.sent|..], dropped := w.q.dropped + d.dropped[|w.conn.d.dropped|..]))
    case Ordinary(DrainEnds) =>
      w.(conn := Live(w.conn.d.sendFailed), q := w.q.(text := Kept(codec, w.conn.d.failed)))
    case Ordinary(LiveSend(ok)) =>
      if ok then w.(q := AfterSend(codec, w.q, true)) else Stored(codec, w).(conn := Down)
    case Ordinary(ConnectionDrops) => w.(conn := Down)
    case Ordinary(StaleSend) =>
      Stored(codec, w).(late := if w.conn.Draining? then w.late + [w.q.incoming[0]] else w.late)
    case Crash => w.(conn := Down, q := w.q.(incoming := []))
    case TornAppend(k) =>
      var e := w.q.incoming[0];
      w.(conn := Down, q := w.q.(incoming := [], text := Some(Torn(codec, TextOf(w.q), e, k))),
         written := if k >= |codec.encode(e)| then w.written + [e] else w.written)
  }

  // A failed send: the event goes to the file.
  function Stored(codec: Codec, w: World): World
    requires w.q.incoming != []
  {
    w.(q := AfterSend(codec, w.q, false), written := w.written + [w.q.incoming[0]])
  }

  // Every run: steps that are not enabled are left out.
  function Run(codec: Codec, w: World, steps: seq<Step>): World {
    if steps == [] then w
    else
      var before := Run(codec, w, steps[..|steps| - 1]);
      var step := steps[|steps| - 1];
      if Enabled(codec, before, step) then Next(codec, before, step) else before
  }

  lemma RunOneMore(codec: Codec, w: World, steps: seq<Step>, step: Step)
    ensures Run(codec, w, steps + [step]) ==
            var before := Run(codec, w, steps); if Enabled(codec, before, step) then Next(codec, before, step) else before
  {
    assert (steps + [step])[..|steps|] == steps;
  }

  predicate LineIsFinished(w: World) {
    AtLineStart(TextOf(w.q))
  }

  // The file ends in e's whole record, but for the newline.
  predicate EndsIn(codec: Codec, w: World, e: Event) {
    LastLineIs(TextOf(w.q), codec.encode(e))
  }

  predicate LastLineIs(text: string, s: string) {
    |s| <= |text| && AtLineStart(text[..|text| - |s|]) && text[|text| - |s|..] == s
  }

  // ---------- The runs on events are the runs on text without crashes ----------

  function Events(codec: Codec, w: World): SenderRuns.World {
    SenderRuns.World(w.conn, ReadAll(codec, w.q.text), w.q.incoming, w.q.sent, w.q.dropped, w.accepted)
  }

  // With no open line, a world on events stands for the text.
  ghost predicate StandsFor(codec: Codec, w: World, ev: SenderRuns.World) {
    LineIsFinished(w) && Events(codec, w) == ev
  }

  // The step on text is the step on events.
  ghost predicate Mirrors(codec: Codec, w: World, s: SenderRuns.Step) {
    && SenderRuns.Enabled(Events(codec, w), s)
    && StandsFor(codec, Next(codec, w, Ordinary(s)), SenderRuns.Next(Events(codec, w), s))
  }

  lemma DrainEndsMirrors(codec: Codec, w: World)
    requires codec.Lawful() && Enabled(codec, w, Ordinary(SenderRuns.DrainEnds))
    ensures Mirrors(codec, w, SenderRuns.DrainEnds)
  {
    RewriteReadsBack(codec, w.conn.d.failed);
    WriteAllIsLines(codec, w.conn.d.failed);
  }

  lemma StoringOnEvents(codec: Codec, w: World)
    requires codec.Lawful() && LineIsFinished(w) && w.q.incoming != []
    ensures var w' := Stored(codec, w);
            LineIsFinished(w') && ReadAll(codec, w'.q.text) == ReadAll(codec, w.q.text) + [w.q.incoming[0]]
  {
    EnqueueAppends(codec, w.q.text, w.q.incoming[0]);
  }

  lemma StoringMirrors(codec: Codec, w: World, s: SenderRuns.Step)
    requires codec.Lawful() && LineIsFinished(w) && Enabled(codec, w, Ordinary(s))
    requires s == SenderRuns.LiveSend(false) || s == SenderRuns.StaleSend
    ensures Mirrors(codec, w, s)
  {
    StoringOnEvents(codec, w);
  }

  // The steps that leave the file alone.
  predicate KeepsFile(s: SenderRuns.Step) {
    !s.DrainEnds? && !s.StaleSend? && s != SenderRuns.LiveSend(false)
  }

  lemma KeepingMirrors(codec: Codec, w: World, s: SenderRuns.Step)
    requires Enabled(codec, w, Ordinary(s)) && KeepsFile(s) && LineIsFinished(w)
    ensures Mirrors(codec, w, s)
  {
    assert Next(codec, w, Ordinary(s)).q.text == w.q.text;
  }

  lemma StepMirrors(codec: Codec, w: World, s: SenderRuns.Step)
    requires codec.Lawful() && LineIsFinished(w) && Enabled(codec, w, Ordinary(s))
    ensures Mirrors(codec, w, s)
  {
    if KeepsFile(s) {
      KeepingMirrors(codec, w, s);
    } else if s.DrainEnds? {
      DrainEndsMirrors(codec, w);
    } else {
      StoringMirrors(codec, w, s);
    }
  }

  lemma SameEnabled(codec: Codec, w: World, s: SenderRuns.Step)
    ensures Enabled(codec, w, Ordinary(s)) <==> SenderRuns.Enabled(Events(codec, w), s)
  {
  }

  function Ordinarily(steps: seq<SenderRuns.Step>): (r: seq<Step>)
    ensures |r| == |steps| && forall i | 0 <= i < |steps| :: r[i] == Ordinary(steps[i])
  {
    seq(|steps|, i requires 0 <= i < |steps| => Ordinary(steps[i]))
  }

  lemma OneMoreMirrors(codec: Codec, w: World, ev: SenderRuns.World, s: SenderRuns.Step)
    requires codec.Lawful() && StandsFor(codec, w, ev)
    ensures if SenderRuns.Enabled(ev, s) then
              Enabled(codec, w, Ordinary(s)) && StandsFor(codec, Next(codec, w, Ordinary(s)), SenderRuns.Next(ev, s))
            else !Enabled(codec, w, Ordinary(s))
  {
    SameEnabled(codec, w, s);
    if Enabled(codec, w, Ordinary(s)) {
      StepMirrors(codec, w, s);
    }
  }

  // So what was shown of the runs on events holds of the text of the file.
  lemma {:induction false} RunOnEvents(codec: Codec, steps: seq<SenderRuns.Step>)
    requires codec.Lawful()
    ensures StandsFor(codec, Run(codec, Init(), Ordinarily(steps)), SenderRuns.Run(SenderRuns.Init(), steps))
  {
    if steps != [] {
      var n := |steps| - 1;
      RunOnEvents(codec, steps[..n]);
      assert Ordinarily(steps)[..n] == Ordinarily(steps[..n]);
      OneMoreMirrors(codec, Run(codec, Init(), Ordinarily(steps[..n])), SenderRuns.Run(SenderRuns.Init(), steps[..n]), steps[n]);
    }
  }

  lemma EventsOrderHoldsOfText(codec: Codec, steps: seq<SenderRuns.Step>)
    requires codec.Lawful() && SenderRuns.OrderlyRun(SenderRuns.Init(), steps)
    ensures var w := Run(codec, Init(), Ordinarily(steps));
            !w.conn.Draining? ==>
              w.q.sent + ReadAll(codec, w.q.text) + w.q.incoming == SenderRuns.Excluding(w.accepted, w.q.dropped)
  {
    RunOnEvents(codec, steps);
    SenderRuns.NothingLostOrReordered(steps);
  }

  // ---------- A whole drain ----------

  function Drains(succeeds: nat -> bool, n: nat): (steps: seq<Step>)
    ensures |steps| == n && forall i | 0 <= i < n :: steps[i] == Ordinary(SenderRuns.DrainStep(succeeds(i)))
  {
    seq(n, i requires 0 <= i < n => Ordinary(SenderRuns.DrainStep(succeeds(i))))
  }

  lemma DrainGrows(d: Drain, e: Event, ok: bool, sent: seq<Event>, dropped: seq<Event>)
    ensures var d' := DrainOne(d, e, ok);
            && sent + d.sent + d'.sent[|d.sent|..] == sent + d'.sent
            && dropped + d.dropped + d'.dropped[|d.dropped|..] == dropped + d'.dropped
  {
  }

  lemma {:induction false} DrainSteps(codec: Codec, w: World, buffered: seq<Event>, succeeds: nat -> bool, n: nat)
    requires w.conn == Draining(buffered, 0, Drain([], [], [], false)) && n <= |buffered|
    ensures var d := DrainAll(buffered, succeeds, n);
            Run(codec, w, Drains(succeeds, n)) ==
            w.(conn := Draining(buffered, n, d), q := w.q.(sent := w.q.sent + d.sent, dropped := w.q.dropped + d.dropped))
  {
    if n > 0 {
      DrainSteps(codec, w, buffered, succeeds, n - 1);
      assert Drains(succeeds, n)[..n - 1] == Drains(succeeds, n - 1);
      DrainGrows(DrainAll(buffered, succeeds, n - 1), buffered[n - 1], succeeds(n - 1), w.q.sent, w.q.dropped);
    }
  }

  lemma {:induction false} RunMore(codec: Codec, w: World, steps: seq<Step>, more: seq<Step>)
    ensures Run(codec, w, steps + more) == Run(codec, Run(codec, w, steps), more)
  {
    if more == [] {
      assert steps + more == steps;
    } else {
      var n := |more| - 1;
      RunMore(codec, w, steps, more[..n]);
      RunOneMore(codec, w, steps + more[..n], more[n]);
      RunOneMore(codec, Run(codec, w, steps), more[..n], more[n]);
      assert more == more[..n] + [more[n]] && steps + more == (steps + more[..n]) + [more[n]];
    }
  }

  function WholeDrain(codec: Codec, w: World, succeeds: nat -> bool): seq<Step> {
    [Ordinary(SenderRuns.Connect)] + Drains(succeeds, |ReadAll(codec, w.q.text)|) + [Ordinary(SenderRuns.DrainEnds)]
  }

  lemma NothingToDrain(codec: Codec, w: World, succeeds: nat -> bool)
    requires w.conn.Down? && ReadAll(codec, w.q.text) == []
    ensures Run(codec, w, WholeDrain(codec, w, succeeds)) == w.(conn := Live(false), late := [])
  {
    var connect := [Ordinary(SenderRuns.Connect)];
    assert Drains(succeeds, 0) == [] && connect + [] == connect;
    Connecting(codec, w);
    RunOneMore(codec, w, connect, Ordinary(SenderRuns.DrainEnds));
  }

  lemma EndOfDrain(codec: Codec, w: World, buffered: seq<Event>, d: Drain, steps: seq<Step>)
    requires Run(codec, w, steps).conn == Draining(buffered, |buffered|, d)
    ensures var before := Run(codec, w, steps);
            Run(codec, w, steps + [Ordinary(SenderRuns.DrainEnds)]) ==
            before.(conn := Live(d.sendFailed), q := before.q.(text := Kept(codec, d.failed)))
  {
    RunOneMore(codec, w, steps, Ordinary(SenderRuns.DrainEnds));
  }

  lemma Connecting(codec: Codec, w: World)
    requires w.conn.Down?
    ensures Run(codec, w, [Ordinary(SenderRuns.Connect)]) == Next(codec, w, Ordinary(SenderRuns.Connect))
  {
    var connect := [Ordinary(SenderRuns.Connect)];
    assert connect[..0] == [];
  }

  lemma SomethingToDrain(codec: Codec, w: World, buffered: seq<Event>, succeeds: nat -> bool)
    requires w.conn.Down? && buffered == ReadAll(codec, w.q.text) && buffered != []
    ensures var d := DrainAll(buffered, succeeds, |buffered|);
            Run(codec, w, WholeDrain(codec, w, succeeds)) ==
            w.(conn := Live(d.sendFailed), q := Queues(Kept(codec, d.failed), w.q.incoming, w.q.sent + d.sent, w.q.dropped + d.dropped), late := [])
  {
    var connect, drains := [Ordinary(SenderRuns.Connect)], Drains(succeeds, |buffered|);
    Connecting(codec, w);
    RunMore(codec, w, connect, drains);
    DrainSteps(codec, Run(codec, w, connect), buffered, succeeds, |buffered|);
    EndOfDrain(codec, w, buffered, DrainAll(buffered, succeeds, |buffered|), connect + drains);
  }

  // Connecting, the rounds of the drain and its end are what DrainFile does.
  lemma WholeDrainIsDrainFile(codec: Codec, w: World, succeeds: nat -> bool)
    requires w.conn.Down?
    ensures var w' := Run(codec, w, WholeDrain(codec, w, succeeds));
            w'.q == AfterDrain(codec, w.q, succeeds) && w'.conn.Live? && w'.accepted == w.accepted && w'.written == w.written
  {
    var buffered := ReadAll(codec, w.q.text);
    if buffered == [] {
      NothingToDrain(codec, w, succeeds);
    } else {
      SomethingToDrain(codec, w, buffered, succeeds);
    }
  }

  // The drain on reconnecting finishes an open line exactly when it had anything to read.
  lemma ReconnectMendsExactlyWhenAnythingIsReadable(codec: Codec, w: World, succeeds: nat -> bool)
    requires codec.Lawful() && w.conn.Down?
    ensures LineIsFinished(Run(codec, w, WholeDrain(codec, w, succeeds))) <==> LineIsFinished(w) || ReadAll(codec, w.q.text) != []
  {
    var buffered := ReadAll(codec, w.q.text);
    WholeDrainIsDrainFile(codec, w, succeeds);
    WriteAllIsLines(codec, DrainAll(buffered, succeeds, |buffered|).failed);
  }

  // ---------- What becomes of a written event ----------

  predicate Unsent(w: World, e: Event) {
    e !in w.q.sent && e !in w.q.dropped
  }

  predicate Readable(codec: Codec, w: World, e: Event) {
    e in ReadAll(codec, w.q.text)
  }

  // In the hands of a drain, which will write it back unless it sends it.
  predicate Held(w: World, e: Event) {
    w.conn.Draining? && w.conn.next <= |w.conn.buffered| && (e in w.conn.d.failed || e in w.conn.buffered[w.conn.next..])
  }

  predicate Safe(codec: Codec, w: World, e: Event) {
    !Unsent(w, e) || Readable(codec, w, e) || Held(w, e)
  }

  predicate Dies(step: Step) {
    step.Crash? || step.TornAppend?
  }

  // How many characters of the next incoming event's record a step appends.
  function Appends(codec: Codec, w: World, step: Step): nat
    requires Enabled(codec, w, step)
  {
    match step
    case Ordinary(LiveSend(ok)) => if ok then 0 else |Record(codec, w.q.incoming[0])|
    case Ordinary(StaleSend) => |Record(codec, w.q.incoming[0])|
    case TornAppend(k) => k
    case _ => 0
  }

  // An append behind an open line, the line being e's record or the append e's.
  predicate RunsOn(codec: Codec, w: World, step: Step, e: Event)
    requires Enabled(codec, w, step)
  {
    var k := Appends(codec, w, step);
    && k > 0 && !LineIsFinished(w)
    && ((w.q.incoming[0] == e && k >= |codec.encode(e)|) || (EndsIn(codec, w, e) && !(Held(w, e) && !Dies(step))))
  }

  // The end of a drain that did not read e, though it is in the file by now.
  predicate ForgetsIt(codec: Codec, w: World, step: Step, e: Event) {
    step == Ordinary(SenderRuns.DrainEnds) && w.conn.Draining? && e !in w.conn.buffered && Readable(codec, w, e)
  }

  // A crash during a drain that holds e, whose record in the file was run on behind since.
  predicate DropsIt(codec: Codec, w: World, step: Step, e: Event) {
    Dies(step) && Held(w, e) && !Readable(codec, w, e)
  }

  predicate Loses(codec: Codec, w: World, step: Step, e: Event) {
    && Enabled(codec, w, step) && Unsent(w, e)
    && (RunsOn(codec, w, step, e) || ForgetsIt(codec, w, step, e) || DropsIt(codec, w, step, e))
  }

  // ---------- The invariant ----------

  predicate Distinct(s: seq<Event>) {
    forall i, j | 0 <= i < j < |s| :: s[i] != s[j]
  }

  function Head(w: World): int {
    |w.accepted| - |w.q.incoming|
  }

  predicate AllBelow(s: seq<Event>, n: int) {
    forall e | e in s :: e.id < n
  }

  ghost predicate FileIsSound(codec: Codec, w: World) {
    && Appendable(codec, TextOf(w.q))
    && Distinct(ReadAll(codec, w.q.text))
    && (forall e | e in ReadAll(codec, w.q.text) :: e in w.written)
  }

  ghost predicate Counted(w: World) {
    && Head(w) >= 0
    && (forall i | 0 <= i < |w.q.incoming| :: w.q.incoming[i].id == Head(w) + i)
    && AllBelow(w.q.sent, Head(w)) && AllBelow(w.q.dropped, Head(w)) && AllBelow(w.written, Head(w))
  }

  ghost predicate DrainIsSound(w: World) {
    w.conn.Draining? ==>
      && w.conn.next <= |w.conn.buffered|
      && Distinct(w.conn.buffered)
      && (forall e | e in w.conn.buffered :: e in w.written)
      && (forall e | e in w.conn.d.failed :: e in w.conn.buffered)
      && Distinct(w.conn.d.failed) && (forall e | e in w.conn.d.failed :: e !in w.conn.buffered[w.conn.next..])
      && (forall i | 0 <= i < w.conn.next :: !Unsent(w, w.conn.buffered[i]) || w.conn.buffered[i] in w.conn.d.failed)
  }

  ghost predicate Sound(codec: Codec, w: World) {
    FileIsSound(codec, w) && Counted(w) && DrainIsSound(w)
  }

  // What the step does to the safety of an event written before or by it.
  ghost predicate Accounts(codec: Codec, w: World, step: Step, w': World, e: Event) {
    && (e in w.written ==> e in w'.written && (Safe(codec, w', e) <==> Safe(codec, w, e) && !Loses(codec, w, step, e)))
    && (e in w'.written && e !in w.written ==> (Safe(codec, w', e) <==> !Loses(codec, w, step, e)))
    && (Loses(codec, w, step, e) ==> e in w'.written)
  }

  // ---------- Reading the file after an append ----------

  lemma ButLast(first: seq<Event>, last: seq<Event>)
    requires Distinct(first + last)
    ensures Distinct(first)
    ensures forall e :: e in first <==> e in first + last && e !in last
  {
    var s := first + last;
    forall i | 0 <= i < |first| ensures s[i] == first[i] { }
    forall i, j | 0 <= i < |first| && 0 <= j < |last| ensures first[i] != last[j] {
      assert s[i] == first[i] && s[|first| + j] == last[j];
    }
  }

  lemma OneMoreDistinct(s: seq<Event>, e: Event)
    requires Distinct(s) && e !in s
    ensures Distinct(s + [e])
  {
  }

  lemma ReadTextOf(codec: Codec, w: World)
    ensures ReadAll(codec, w.q.text) == ReadAll(codec, Some(TextOf(w.q)))
  {
    FewPieces(codec, "");
  }

  lemma LastLineIsOpenLine(lines: string, line: string, s: string)
    requires AtLineStart(lines) && '\n' !in line && '\n' !in s
    ensures LastLineIs(lines + line, s) <==> line == s
    ensures AtLineStart(lines + line) <==> line == ""
  {
    var text := lines + line;
    if line == s {
      assert text[..|lines|] == lines && text[|lines|..] == line;
    } else if LastLineIs(text, s) {
      SameOpenLine(lines, line, text[..|text| - |s|], s);
    }
    if line == "" {
      assert text == lines;
    } else {
      InLater(lines, line, |text| - 1);
    }
  }

  lemma SameOpenLine(a: string, x: string, b: string, y: string)
    requires AtLineStart(a) && AtLineStart(b) && '\n' !in x && '\n' !in y && a + x == b + y
    ensures x == y
  {
    if |a| < |b| {
      InLater(a, x, |b| - 1);
    } else if |b| < |a| {
      InLater(b, y, |a| - 1);
    } else {
      assert (a + x)[|a|..] == x && (b + y)[|b|..] == y;
    }
  }

  lemma InLater(a: string, b: string, i: int)
    requires |a| <= i < |a + b|
    ensures (a + b)[i] in b
  {
    assert (a + b)[i] == b[i - |a|];
  }

  lemma OpenEndOf(codec: Codec, text: string) returns (lines: string, line: string)
    requires Appendable(codec, text)
    ensures OpenEnd(codec, lines, line) && text == lines + line
  {
    var n: nat :| n <= |text| && OpenFrom(codec, text, n);
    lines, line := CutAt(codec, text, n);
  }

  lemma CutAt(codec: Codec, text: string, n: nat) returns (lines: string, line: string)
    requires n <= |text| && OpenFrom(codec, text, n)
    ensures OpenEnd(codec, lines, line) && text == lines + line
  {
    lines, line := text[..n], text[n..];
    assert text == text[..n] + text[n..];
  }

  // What can be read: the records of the finished lines, and that of the open one.
  lemma ReadInTwo(codec: Codec, w: World, lines: string, line: string)
    requires codec.Lawful() && FileIsSound(codec, w) && OpenEnd(codec, lines, line) && TextOf(w.q) == lines + line
    ensures Distinct(ReadAll(codec, Some(lines)))
    ensures forall e :: e in ReadAll(codec, Some(lines)) <==> Readable(codec, w, e) && !EndsIn(codec, w, e)
    ensures forall e :: EndsIn(codec, w, e) ==> Readable(codec, w, e)
  {
    ReadTextOf(codec, w);
    ReadOpenLine(codec, lines, line);
    ButLast(ReadAll(codec, Some(lines)), RecordIn(codec, line));
    forall e ensures e in RecordIn(codec, line) <==> EndsIn(codec, w, e) {
      assert codec.RecordIsALine(e);
      LastLineIsOpenLine(lines, line, codec.encode(e));
      RecordInPile(codec, line, e);
    }
  }

  // An append adds its event to what can be read exactly when the encoding is
  // there and no line was open, and takes away the open line's record.
  lemma AppendRead(codec: Codec, w: World, k: nat)
    requires codec.Lawful() && FileIsSound(codec, w) && Counted(w) && w.q.incoming != []
    requires 0 < k <= |Record(codec, w.q.incoming[0])|
    ensures var x, text := w.q.incoming[0], Some(Torn(codec, TextOf(w.q), w.q.incoming[0], k));
            && Appendable(codec, text.value)
            && Distinct(ReadAll(codec, text))
            && (forall e :: e in ReadAll(codec, text) <==>
                  (Readable(codec, w, e) && !EndsIn(codec, w, e)) || (e == x && k >= |codec.encode(x)| && LineIsFinished(w)))
  {
    var x := w.q.incoming[0];
    var lines, line := OpenEndOf(codec, TextOf(w.q));
    ReadInTwo(codec, w, lines, line);
    LastLineIsOpenLine(lines, line, "");
    AppendEffect(codec, lines, line, x, k);
    OneMoreDistinct(ReadAll(codec, Some(lines)), x);
  }

  // ---------- What each step does to written events ----------

  // The next incoming event has been nowhere yet.
  lemma NextIsNew(codec: Codec, w: World)
    requires Sound(codec, w) && w.q.incoming != []
    ensures var x := w.q.incoming[0];
            x !in w.written && Unsent(w, x) && !Readable(codec, w, x) && !Held(w, x)
  {
    if w.conn.Draining? {
      forall e | e in w.conn.buffered[w.conn.next..] ensures e in w.conn.buffered { }
    }
  }

  lemma HeldIsWritten(codec: Codec, w: World, e: Event)
    requires Sound(codec, w) && (Held(w, e) || Readable(codec, w, e))
    ensures e in w.written
  {
    if Held(w, e) && e !in w.conn.d.failed {
      assert e in w.conn.buffered[w.conn.next..] && e in w.conn.buffered;
    }
  }

  // Steps that change neither the file nor what is known of any event.
  predicate IsQuiet(w: World, step: Step) {
    step == Crash || (step.Ordinary? && (step.step.Put? || step.step.Connect? || step.step.ConnectionDrops? || step.step == SenderRuns.LiveSend(true)))
  }

  lemma ConnectIsSound(codec: Codec, w: World)
    requires Sound(codec, w) && w.conn.Down?
    ensures Sound(codec, Next(codec, w, Ordinary(SenderRuns.Connect)))
    ensures forall e :: Held(Next(codec, w, Ordinary(SenderRuns.Connect)), e) ==> Readable(codec, w, e)
  {
    var w' := Next(codec, w, Ordinary(SenderRuns.Connect));
    if w'.conn.Draining? {
      assert w'.conn.buffered[0..] == w'.conn.buffered;
    }
  }

  lemma SameFile(codec: Codec, w: World, w': World)
    requires FileIsSound(codec, w) && w'.q.text == w.q.text && w'.written == w.written
    ensures FileIsSound(codec, w')
  {
  }

  lemma QuietCounts(codec: Codec, w: World, step: Step)
    requires Sound(codec, w) && Enabled(codec, w, step) && IsQuiet(w, step) && !(step.Ordinary? && step.step.Connect?)
    ensures var w' := Next(codec, w, step);
            w'.q.text == w.q.text && w'.written == w.written && Counted(w') && DrainIsSound(w')
  {
  }

  lemma QuietIsSound(codec: Codec, w: World, step: Step)
    requires Sound(codec, w) && Enabled(codec, w, step) && IsQuiet(w, step)
    ensures Sound(codec, Next(codec, w, step))
  {
    if step == Ordinary(SenderRuns.Connect) {
      ConnectIsSound(codec, w);
    } else {
      QuietCounts(codec, w, step);
      SameFile(codec, w, Next(codec, w, step));
    }
  }

  lemma QuietAccounts(codec: Codec, w: World, step: Step, e: Event)
    requires Sound(codec, w) && Enabled(codec, w, step) && IsQuiet(w, step)
    ensures Accounts(codec, w, step, Next(codec, w, step), e)
  {
    var w' := Next(codec, w, step);
    assert w'.written == w.written && w'.q.text == w.q.text && w'.q.dropped == w.q.dropped;
    if step == Ordinary(SenderRuns.Connect) {
      ConnectIsSound(codec, w);
    } else if step == Ordinary(SenderRuns.LiveSend(true)) {
      NextIsNew(codec, w);
    }
    if Held(w, e) { HeldIsWritten(codec, w, e); }
  }

  lemma DrainOneOutcome(d: Drain, x: Event, ok: bool)
    ensures var d' := DrainOne(d, x, ok);
            var sent, dropped := d'.sent[|d.sent|..], d'.dropped[|d.dropped|..];
            || (sent == [x] && dropped == [] && d'.failed == d.failed)
            || (sent == [] && dropped == [x] && d'.failed == d.failed)
            || (sent == [] && dropped == [] && d'.failed == d.failed + [x])
  {
    assert d.sent[|d.sent|..] == [] && (d.sent + [x])[|d.sent|..] == [x];
    assert d.dropped[|d.dropped|..] == [] && (d.dropped + [x])[|d.dropped|..] == [x];
  }

  // One round of a drain: its event is sent, dropped or kept.
  lemma DrainRound(codec: Codec, w: World, ok: bool)
    requires Sound(codec, w) && Enabled(codec, w, Ordinary(SenderRuns.DrainStep(ok)))
    ensures var w', x := Next(codec, w, Ordinary(SenderRuns.DrainStep(ok))), w.conn.buffered[w.conn.next];
            && w'.q.text == w.q.text && w'.written == w.written && w'.accepted == w.accepted && w'.q.incoming == w.q.incoming
            && w'.conn.Draining? && w'.conn.buffered == w.conn.buffered && w'.conn.next == w.conn.next + 1
            && w.conn.buffered[w.conn.next..] == [x] + w'.conn.buffered[w'.conn.next..]
            && ((w'.q.sent == w.q.sent + [x] && w'.q.dropped == w.q.dropped && w'.conn.d.failed == w.conn.d.failed)
                || (w'.q.sent == w.q.sent && w'.q.dropped == w.q.dropped + [x] && w'.conn.d.failed == w.conn.d.failed)
                || (w'.q.sent == w.q.sent && w'.q.dropped == w.q.dropped && w'.conn.d.failed == w.conn.d.failed + [x]))
  {
    DrainOneOutcome(w.conn.d, w.conn.buffered[w.conn.next], ok);
  }

  lemma DrainRoundAccounts(codec: Codec, w: World, ok: bool, e: Event)
    requires Sound(codec, w) && Enabled(codec, w, Ordinary(SenderRuns.DrainStep(ok)))
    ensures Accounts(codec, w, Ordinary(SenderRuns.DrainStep(ok)), Next(codec, w, Ordinary(SenderRuns.DrainStep(ok))), e)
  {
    DrainRound(codec, w, ok);
    var w', x := Next(codec, w, Ordinary(SenderRuns.DrainStep(ok))), w.conn.buffered[w.conn.next];
    assert Held(w, x);
    assert !Unsent(w', e) || Held(w', e) <==> !Unsent(w, e) || Held(w, e);
  }

  lemma RestIsUntouched(w: World, rest: seq<Event>, x: Event)
    requires w.conn.Draining? && w.conn.next < |w.conn.buffered| && Distinct(w.conn.buffered)
    requires x == w.conn.buffered[w.conn.next] && rest == w.conn.buffered[w.conn.next + 1..]
    ensures x !in rest
  {
    forall i | 0 <= i < |rest| ensures rest[i] != x { assert rest[i] == w.conn.buffered[w.conn.next + 1 + i]; }
  }

  lemma DrainRoundKeepsShape(codec: Codec, w: World, ok: bool)
    requires Sound(codec, w) && Enabled(codec, w, Ordinary(SenderRuns.DrainStep(ok)))
    ensures DrainIsSound(Next(codec, w, Ordinary(SenderRuns.DrainStep(ok))))
  {
    DrainRound(codec, w, ok);
    var w', x := Next(codec, w, Ordinary(SenderRuns.DrainStep(ok))), w.conn.buffered[w.conn.next];
    var rest := w'.conn.buffered[w'.conn.next..];
    assert x in [x] + rest;
    RestIsUntouched(w, rest, x);
    OneMoreKept(w.conn.d.failed, x, rest);
    forall i | 0 <= i < w'.conn.next ensures !Unsent(w', w'.conn.buffered[i]) || w'.conn.buffered[i] in w'.conn.d.failed {
      assert i < w.conn.next ==> !Unsent(w, w.conn.buffered[i]) || w.conn.buffered[i] in w.conn.d.failed;
    }
  }

  lemma DrainRoundIsSound(codec: Codec, w: World, ok: bool)
    requires Sound(codec, w) && Enabled(codec, w, Ordinary(SenderRuns.DrainStep(ok)))
    ensures Sound(codec, Next(codec, w, Ordinary(SenderRuns.DrainStep(ok))))
  {
    DrainRound(codec, w, ok);
    DrainRoundKeepsShape(codec, w, ok);
    assert w.conn.buffered[w.conn.next] in w.written;
  }

  lemma OneMoreKept(failed: seq<Event>, x: Event, rest: seq<Event>)
    requires Distinct(failed) && x !in failed && x !in rest && forall e | e in failed :: e !in [x] + rest
    ensures Distinct(failed + [x]) && forall e | e in failed + [x] :: e !in rest
  {
    forall e | e in failed ensures e !in rest { assert e in rest ==> e in [x] + rest; }
  }

  lemma DrainEndReads(codec: Codec, w: World)
    requires codec.Lawful() && Sound(codec, w) && Enabled(codec, w, Ordinary(SenderRuns.DrainEnds))
    ensures var w' := Next(codec, w, Ordinary(SenderRuns.DrainEnds));
            ReadAll(codec, w'.q.text) == w.conn.d.failed && Appendable(codec, TextOf(w'.q))
  {
    RewriteReadsBack(codec, w.conn.d.failed);
    WriteAllIsLines(codec, w.conn.d.failed);
    LineStartIsOpen(codec, "");
    LineStartIsOpen(codec, WriteAll(codec, w.conn.d.failed));
  }

  lemma DrainEndIsSound(codec: Codec, w: World)
    requires codec.Lawful() && Sound(codec, w) && Enabled(codec, w, Ordinary(SenderRuns.DrainEnds))
    ensures Sound(codec, Next(codec, w, Ordinary(SenderRuns.DrainEnds)))
  {
    DrainEndReads(codec, w);
  }

  lemma DrainedOrKept(codec: Codec, w: World, e: Event)
    requires Sound(codec, w) && w.conn.Draining? && w.conn.next == |w.conn.buffered| && e in w.conn.buffered
    ensures !Unsent(w, e) || e in w.conn.d.failed
  {
    var i :| 0 <= i < |w.conn.buffered| && w.conn.buffered[i] == e;
  }

  lemma DrainEndFor(codec: Codec, w: World, e: Event)
    requires codec.Lawful() && Sound(codec, w) && Enabled(codec, w, Ordinary(SenderRuns.DrainEnds))
    ensures var w' := Next(codec, w, Ordinary(SenderRuns.DrainEnds));
            && Unsent(w', e) == Unsent(w, e) && w'.written == w.written && !Held(w', e)
            && (Readable(codec, w', e) <==> e in w.conn.d.failed) && (Held(w, e) <==> e in w.conn.d.failed)
  {
    DrainEndReads(codec, w);
    assert w.conn.buffered[w.conn.next..] == [];
  }

  lemma DrainEndAccounts(codec: Codec, w: World, e: Event)
    requires codec.Lawful() && Sound(codec, w) && Enabled(codec, w, Ordinary(SenderRuns.DrainEnds))
    ensures Accounts(codec, w, Ordinary(SenderRuns.DrainEnds), Next(codec, w, Ordinary(SenderRuns.DrainEnds)), e)
  {
    DrainEndFor(codec, w, e);
    if e in w.conn.buffered { DrainedOrKept(codec, w, e); }
    if Readable(codec, w, e) { HeldIsWritten(codec, w, e); }
    assert !RunsOn(codec, w, Ordinary(SenderRuns.DrainEnds), e) && !DropsIt(codec, w, Ordinary(SenderRuns.DrainEnds), e);
  }

  // ---------- Appends ----------

  // What an appending step does, in the terms of the file's records.
  lemma AppendStep(codec: Codec, w: World, step: Step)
    requires codec.Lawful() && Sound(codec, w) && Enabled(codec, w, step) && Appends(codec, w, step) > 0
    ensures var w', x, k := Next(codec, w, step), w.q.incoming[0], Appends(codec, w, step);
            && w'.q.text == Some(Torn(codec, TextOf(w.q), x, k))
            && w'.q.sent == w.q.sent && w'.q.dropped == w.q.dropped && w'.accepted == w.accepted
            && w'.q.incoming == (if Dies(step) then [] else w.q.incoming[1..])
            && w'.written == (if k >= |codec.encode(x)| then w.written + [x] else w.written)
            && (w'.conn == w.conn || w'.conn.Down?)
            && (forall e :: Held(w', e) <==> Held(w, e) && !Dies(step))
  {
    var x := w.q.incoming[0];
    assert Record(codec, x)[..|Record(codec, x)|] == Record(codec, x);
  }

  lemma AppendIsSound(codec: Codec, w: World, step: Step)
    requires codec.Lawful() && Sound(codec, w) && Enabled(codec, w, step) && Appends(codec, w, step) > 0
    ensures Sound(codec, Next(codec, w, step))
  {
    AppendStep(codec, w, step);
    AppendRead(codec, w, Appends(codec, w, step));
  }

  lemma EndsInIsReadable(codec: Codec, w: World, e: Event)
    requires codec.Lawful() && Sound(codec, w) && EndsIn(codec, w, e)
    ensures Readable(codec, w, e) && !LineIsFinished(w)
  {
    var lines, line := OpenEndOf(codec, TextOf(w.q));
    ReadInTwo(codec, w, lines, line);
    assert codec.RecordIsALine(e);
    LastLineIsOpenLine(lines, line, codec.encode(e));
  }

  lemma AppendFor(codec: Codec, w: World, step: Step, e: Event)
    requires codec.Lawful() && Sound(codec, w) && Enabled(codec, w, step) && Appends(codec, w, step) > 0
    ensures var w', x, k := Next(codec, w, step), w.q.incoming[0], Appends(codec, w, step);
            && (Unsent(w', e) <==> Unsent(w, e)) && (Held(w', e) <==> Held(w, e) && !Dies(step))
            && (e in w'.written <==> e in w.written || (e == x && k >= |codec.encode(x)|))
            && (Readable(codec, w', e) <==>
                  (Readable(codec, w, e) && !EndsIn(codec, w, e)) || (e == x && k >= |codec.encode(x)| && LineIsFinished(w)))
  {
    AppendStep(codec, w, step);
    AppendRead(codec, w, Appends(codec, w, step));
  }

  lemma AppendAccounts(codec: Codec, w: World, step: Step, e: Event)
    requires codec.Lawful() && Sound(codec, w) && Enabled(codec, w, step) && Appends(codec, w, step) > 0
    ensures Accounts(codec, w, step, Next(codec, w, step), e)
  {
    AppendFor(codec, w, step, e);
    NextIsNew(codec, w);
    if EndsIn(codec, w, e) { EndsInIsReadable(codec, w, e); }
    if Held(w, e) || Readable(codec, w, e) { HeldIsWritten(codec, w, e); }
    assert !ForgetsIt(codec, w, step, e);
  }

  // A process that dies before the first character of its append has only died.
  lemma EmptyAppend(codec: Codec, w: World)
    requires codec.Lawful() && Sound(codec, w) && Enabled(codec, w, TornAppend(0))
    ensures var w', crashed := Next(codec, w, TornAppend(0)), Next(codec, w, Crash);
            && TextOf(w'.q) == TextOf(crashed.q) && ReadAll(codec, w'.q.text) == ReadAll(codec, crashed.q.text)
            && w' == crashed.(q := crashed.q.(text := w'.q.text))
  {
    assert codec.RecordIsALine(w.q.incoming[0]);
    assert Torn(codec, TextOf(w.q), w.q.incoming[0], 0) == TextOf(w.q);
    ReadTextOf(codec, w);
  }

  lemma EmptyAppendLoses(codec: Codec, w: World, e: Event)
    requires Enabled(codec, w, TornAppend(0))
    ensures Loses(codec, w, TornAppend(0), e) == Loses(codec, w, Crash, e)
  {
  }

  lemma EmptyAppendIsSound(codec: Codec, w: World)
    requires codec.Lawful() && Sound(codec, w) && Enabled(codec, w, TornAppend(0))
    ensures Sound(codec, Next(codec, w, TornAppend(0)))
  {
    EmptyAppend(codec, w);
    QuietIsSound(codec, w, Crash);
  }

  lemma EmptyAppendAccounts(codec: Codec, w: World, e: Event)
    requires codec.Lawful() && Sound(codec, w) && Enabled(codec, w, TornAppend(0))
    ensures Accounts(codec, w, TornAppend(0), Next(codec, w, TornAppend(0)), e)
  {
    EmptyAppend(codec, w);
    QuietAccounts(codec, w, Crash, e);
    EmptyAppendLoses(codec, w, e);
  }

  lemma StepIsSound(codec: Codec, w: World, step: Step, e: Event)
    requires codec.Lawful() && Sound(codec, w) && Enabled(codec, w, step)
    ensures Sound(codec, Next(codec, w, step))
    ensures Accounts(codec, w, step, Next(codec, w, step), e)
  {
    if IsQuiet(w, step) {
      QuietIsSound(codec, w, step);
      QuietAccounts(codec, w, step, e);
    } else if step == TornAppend(0) {
      EmptyAppendIsSound(codec, w);
      EmptyAppendAccounts(codec, w, e);
    } else if step == Ordinary(SenderRuns.DrainEnds) {
      DrainEndIsSound(codec, w);
      DrainEndAccounts(codec, w, e);
    } else if step.Ordinary? && step.step.DrainStep? {
      DrainRoundIsSound(codec, w, step.step.ok);
      DrainRoundAccounts(codec, w, step.step.ok, e);
    } else {
      AppendIsSound(codec, w, step);
      AppendAccounts(codec, w, step, e);
    }
  }

  lemma StartIsSound(codec: Codec)
    ensures Sound(codec, Init())
  {
    LineStartIsOpen(codec, "");
  }

  lemma {:induction false} RunIsSound(codec: Codec, steps: seq<Step>)
    requires codec.Lawful()
    ensures Sound(codec, Run(codec, Init(), steps))
  {
    if steps == [] {
      StartIsSound(codec);
    } else {
      var n := |steps| - 1;
      RunIsSound(codec, steps[..n]);
      if Enabled(codec, Run(codec, Init(), steps[..n]), steps[n]) {
        StepIsSound(codec, Run(codec, Init(), steps[..n]), steps[n], Event(0, 0));
      }
    }
  }

  // ---------- Over every run ----------

  // Step i of a run from the start is one that loses e.
  predicate LosesAt(codec: Codec, steps: seq<Step>, i: nat, e: Event)
    requires i < |steps|
  {
    Loses(codec, Run(codec, Init(), steps[..i]), steps[i], e)
  }

  // Which steps of the run lose e.
  function Losses(codec: Codec, steps: seq<Step>, e: Event): (r: seq<bool>)
    ensures |r| == |steps| && forall i: nat | i < |steps| :: r[i] == LosesAt(codec, steps, i, e)
  {
    seq(|steps|, i requires 0 <= i < |steps| => LosesAt(codec, steps, i, e))
  }

  predicate EverLoses(codec: Codec, steps: seq<Step>, e: Event) {
    true in Losses(codec, steps, e)
  }

  lemma EarlierAt(codec: Codec, steps: seq<Step>, n: nat, i: nat, e: Event)
    requires i < n <= |steps|
    ensures LosesAt(codec, steps[..n], i, e) == LosesAt(codec, steps, i, e)
  {
    assert steps[..n][..i] == steps[..i];
  }

  lemma EarlierLosses(codec: Codec, steps: seq<Step>, n: nat, e: Event)
    requires n <= |steps|
    ensures Losses(codec, steps[..n], e) == Losses(codec, steps, e)[..n]
  {
    forall i: nat | i < n ensures Losses(codec, steps[..n], e)[i] == Losses(codec, steps, e)[i] {
      EarlierAt(codec, steps, n, i, e);
    }
  }

  lemma OneMoreFlag(flags: seq<bool>, n: nat)
    requires |flags| == n + 1
    ensures true in flags <==> true in flags[..n] || flags[n]
  {
    assert flags == flags[..n] + [flags[n]];
  }

  lemma EverLosesOneMore(codec: Codec, steps: seq<Step>, n: nat, e: Event)
    requires |steps| == n + 1
    ensures EverLoses(codec, steps, e) <==> EverLoses(codec, steps[..n], e) || LosesAt(codec, steps, n, e)
  {
    EarlierLosses(codec, steps, n, e);
    OneMoreFlag(Losses(codec, steps, e), n);
  }

  predicate WrittenIn(codec: Codec, steps: seq<Step>, e: Event) {
    e in Run(codec, Init(), steps).written
  }

  predicate SafeAfter(codec: Codec, steps: seq<Step>, e: Event) {
    Safe(codec, Run(codec, Init(), steps), e)
  }

  lemma LastStepAccounts(codec: Codec, steps: seq<Step>, n: nat, e: Event)
    requires codec.Lawful() && |steps| == n + 1
    ensures WrittenIn(codec, steps[..n], e) ==>
              && WrittenIn(codec, steps, e)
              && (SafeAfter(codec, steps, e) <==> SafeAfter(codec, steps[..n], e) && !LosesAt(codec, steps, n, e))
    ensures WrittenIn(codec, steps, e) && !WrittenIn(codec, steps[..n], e) ==>
              (SafeAfter(codec, steps, e) <==> !LosesAt(codec, steps, n, e))
    ensures LosesAt(codec, steps, n, e) ==> WrittenIn(codec, steps, e)
  {
    var before := Run(codec, Init(), steps[..n]);
    RunIsSound(codec, steps[..n]);
    if Enabled(codec, before, steps[n]) {
      StepIsSound(codec, before, steps[n], e);
    }
  }

  // Over every run, with crashes between and inside appends and stale senders: an
  // event whose record was once whole on disk is sent, dropped as oversized, still
  // to be read, or in a drain's hands, if and only if no step of the run lost it.
  lemma {:induction false} WrittenIsSafeExactlyWhenNothingLosesIt(codec: Codec, steps: seq<Step>, e: Event)
    requires codec.Lawful()
    ensures WrittenIn(codec, steps, e) ==> (SafeAfter(codec, steps, e) <==> !EverLoses(codec, steps, e))
    ensures EverLoses(codec, steps, e) ==> WrittenIn(codec, steps, e)
  {
    if steps != [] {
      var n := |steps| - 1;
      WrittenIsSafeExactlyWhenNothingLosesIt(codec, steps[..n], e);
      EverLosesOneMore(codec, steps, n, e);
      LastStepAccounts(codec, steps, n, e);
    }
  }
}
