/** What a watcher hands on, against the lines the file itself holds. */
module OwnLines {
  import opened Wrappers
  import opened Framing
  import opened Transcript
  import opened DriveWindow
  import opened TailRuns
  import opened Subsequence

  // ---------- What has been seen of the file ----------

  // The bytes from where watching began to the offset, processed or skipped.
  function Seen(w: World): Bytes {
    Slice(w.file, w.base, w.tail.offset)
  }

  // The bytes a successful drive skips.
  function Skipped(w: World): Bytes {
    Slice(w.file, w.tail.offset, |w.file|)
  }

  predicate Feeds(w: World, step: Step) {
    step.DataArrives? && w.tick.HasRead? && w.tick.data.Some? && w.tick.epoch == w.tail.epoch
  }

  // A step that feeds data, or skips, or does neither.
  lemma FeedingSees(w: World, decode: Decoder, step: Step)
    requires w.base <= w.tail.offset <= |w.file| && TickIsSound(w) && Feeds(w, step)
    ensures var w', data := Next(w, decode, step), w.tick.data.value;
            Seen(w') == Seen(w) + data && w'.lines == w.lines + NewLines(w.tail, data)
  {
    SliceGoesOn(w.file, w.base, w.tail.offset, w.tick.size);
  }

  lemma SkippingSees(w: World, decode: Decoder, step: Step)
    requires w.base <= w.tail.offset <= |w.file| && SkipsAhead(w, step)
    ensures var w' := Next(w, decode, step);
            Seen(w') == Seen(w) + Skipped(w) && w'.lines == w.lines && w'.tail.remainder == w.tail.remainder
  {
    SliceGoesOn(w.file, w.base, w.tail.offset, |w.file|);
  }

  lemma OtherwiseSees(w: World, decode: Decoder, step: Step)
    requires w.base <= w.tail.offset <= |w.file| && !Feeds(w, step) && !SkipsAhead(w, step)
    ensures var w' := Next(w, decode, step); Seen(w') == Seen(w) && w'.lines == w.lines
  {
    if step.Append? {
      SliceStays(w.file, step.data, w.base, w.tail.offset);
    } else if !(step.DataArrives? && w.tick.HasRead?) {
      StaysInPlace(w, decode, step);
    }
  }

  // The lines of the file that a stretch finishes, the part held back included.
  function LinesOver(w: World, stretch: Bytes): seq<Bytes> {
    Lines(w.tail.remainder + stretch)
  }

  lemma SeenOneStretchMore(w: World, stretch: Bytes)
    requires Aligned(w)
    ensures Lines(Seen(w) + stretch) == Lines(Seen(w)) + LinesOver(w, stretch)
  {
    SplitExtends(Seen(w), stretch);
  }

  // ---------- Runs with clean skips ----------

  predicate CleanAt(w0: World, decode: Decoder, steps: seq<Step>, i: nat)
    requires i < |steps|
  {
    var w := Run(w0, decode, steps[..i]);
    SkipsAhead(w, steps[i]) ==> CleanSkip(w)
  }

  predicate AllClean(w0: World, decode: Decoder, steps: seq<Step>) {
    forall i: nat | i < |steps| :: CleanAt(w0, decode, steps, i)
  }

  lemma AllCleanBefore(w0: World, decode: Decoder, steps: seq<Step>, n: nat)
    requires AllClean(w0, decode, steps) && n < |steps|
    ensures AllClean(w0, decode, steps[..n])
    ensures var w := Run(w0, decode, steps[..n]); SkipsAhead(w, steps[n]) ==> CleanSkip(w)
  {
    forall i: nat | i < n ensures CleanAt(w0, decode, steps[..n], i) {
      assert CleanAt(w0, decode, steps, i) && steps[..n][..i] == steps[..i];
    }
    assert CleanAt(w0, decode, steps, n);
  }

  ghost predicate InStep(w: World) {
    w.base <= w.tail.offset <= |w.file| && TickIsSound(w) && Aligned(w)
  }

  lemma StepStaysAligned(w: World, decode: Decoder, step: Step)
    requires InStep(w) && (SkipsAhead(w, step) ==> CleanSkip(w))
    ensures Aligned(Next(w, decode, step))
  {
    if SkipsAhead(w, step) {
      SkipAlignsExactlyWhenClean(w, decode, step);
    } else {
      OtherStepsStayAligned(w, decode, step);
    }
  }

  lemma {:induction false} CleanRunIsInStep(decode: Decoder, found: bool, file: Bytes, statOk: bool, steps: seq<Step>)
    requires AllClean(Start(found, file, statOk), decode, steps)
    ensures InStep(Run(Start(found, file, statOk), decode, steps))
  {
    var w0 := Start(found, file, statOk);
    StartIsSound(decode, found, file, statOk);
    RunIsSound(w0, decode, steps);
    if steps == [] {
      assert Slice(w0.file, w0.base, w0.tail.offset) == [];
    } else {
      var n := |steps| - 1;
      AllCleanBefore(w0, decode, steps, n);
      CleanRunIsInStep(decode, found, file, statOk, steps[..n]);
      StepStaysAligned(Run(w0, decode, steps[..n]), decode, steps[n]);
    }
  }

  // ---------- Lines ----------

  lemma StepHandsOnOwnLines(w: World, decode: Decoder, step: Step)
    requires InStep(w) && Among(w.lines, Lines(Seen(w)))
    ensures var w' := Next(w, decode, step); Among(w'.lines, Lines(Seen(w')))
  {
    if Feeds(w, step) {
      var data := w.tick.data.value;
      FeedingSees(w, decode, step);
      SeenOneStretchMore(w, data);
      KeptAreTheShortLines(LinesOver(w, data));
      AmongConcat(w.lines, Lines(Seen(w)), NewLines(w.tail, data), LinesOver(w, data));
    } else if SkipsAhead(w, step) {
      SkippingSees(w, decode, step);
      SeenOneStretchMore(w, Skipped(w));
      AmongMore(w.lines, Lines(Seen(w)), LinesOver(w, Skipped(w)));
    } else {
      OtherwiseSees(w, decode, step);
    }
  }

  // Over every run whose skips are clean, the lines handed on are, in order, among
  // the lines the file holds from where watching began to the offset.
  lemma {:induction false} CleanRunHandsOnOwnLines(decode: Decoder, found: bool, file: Bytes, statOk: bool, steps: seq<Step>)
    requires AllClean(Start(found, file, statOk), decode, steps)
    ensures var w := Run(Start(found, file, statOk), decode, steps); Among(w.lines, Lines(Seen(w)))
  {
    if steps != [] {
      var n := |steps| - 1;
      AllCleanBefore(Start(found, file, statOk), decode, steps, n);
      CleanRunIsInStep(decode, found, file, statOk, steps[..n]);
      CleanRunHandsOnOwnLines(decode, found, file, statOk, steps[..n]);
      StepHandsOnOwnLines(Run(Start(found, file, statOk), decode, steps[..n]), decode, steps[n]);
    }
  }

  // ---------- User events ----------

  function Users(decode: Decoder, lines: seq<Bytes>): seq<Event> {
    UserEvents(DecodeAll(decode, Kept(lines)))
  }

  lemma UsersConcat(decode: Decoder, a: seq<Bytes>, b: seq<Bytes>)
    ensures Users(decode, a + b) == Users(decode, a) + Users(decode, b)
  {
    KeptConcat(a, b);
    DecodeAllConcat(decode, Kept(a), Kept(b));
    UserEventsConcat(DecodeAll(decode, Kept(a)), DecodeAll(decode, Kept(b)));
  }

  // Of the lines handed on, which are short already.
  function UsersHandedOn(w: World, decode: Decoder): seq<Event> {
    UserEvents(DecodeAll(decode, w.lines))
  }

  // Of all the lines the file holds up to the offset.
  function UsersSeen(w: World, decode: Decoder): seq<Event> {
    Users(decode, Lines(Seen(w)))
  }

  // A skip over a line that holds a user event.
  predicate SkipsUser(w: World, decode: Decoder, step: Step) {
    SkipsAhead(w, step) && Users(decode, LinesOver(w, Skipped(w))) != []
  }

  // No user event is missing; as sequences, and in number.
  ghost predicate NoneMissing(w: World, decode: Decoder, none: bool) {
    && |UsersHandedOn(w, decode)| <= |UsersSeen(w, decode)|
    && (none <==> UsersHandedOn(w, decode) == UsersSeen(w, decode))
    && (none <==> |UsersHandedOn(w, decode)| == |UsersSeen(w, decode)|)
  }

  lemma FeedingMissesNone(w: World, decode: Decoder, step: Step, none: bool)
    requires InStep(w) && Feeds(w, step) && NoneMissing(w, decode, none)
    ensures NoneMissing(Next(w, decode, step), decode, none)
  {
    var data := w.tick.data.value;
    var added := NewLines(w.tail, data);
    FeedingSees(w, decode, step);
    SeenOneStretchMore(w, data);
    UsersConcat(decode, Lines(Seen(w)), LinesOver(w, data));
    DecodeAllConcat(decode, w.lines, added);
    UserEventsConcat(DecodeAll(decode, w.lines), DecodeAll(decode, added));
  }

  lemma SkippingMisses(w: World, decode: Decoder, step: Step, none: bool)
    requires InStep(w) && SkipsAhead(w, step) && NoneMissing(w, decode, none)
    ensures NoneMissing(Next(w, decode, step), decode, none && !SkipsUser(w, decode, step))
  {
    SkippingSees(w, decode, step);
    SeenOneStretchMore(w, Skipped(w));
    UsersConcat(decode, Lines(Seen(w)), LinesOver(w, Skipped(w)));
  }

  lemma StepMisses(w: World, decode: Decoder, step: Step, none: bool)
    requires InStep(w) && NoneMissing(w, decode, none)
    ensures NoneMissing(Next(w, decode, step), decode, none && !SkipsUser(w, decode, step))
  {
    if Feeds(w, step) {
      FeedingMissesNone(w, decode, step, none);
    } else if SkipsAhead(w, step) {
      SkippingMisses(w, decode, step, none);
    } else {
      OtherwiseSees(w, decode, step);
    }
  }

  predicate SkipsUserAt(w0: World, decode: Decoder, steps: seq<Step>, i: nat)
    requires i < |steps|
  {
    SkipsUser(Run(w0, decode, steps[..i]), decode, steps[i])
  }

  predicate NeverSkipsUser(w0: World, decode: Decoder, steps: seq<Step>) {
    forall i: nat | i < |steps| :: !SkipsUserAt(w0, decode, steps, i)
  }

  lemma NeverSkipsOneMore(w0: World, decode: Decoder, steps: seq<Step>, n: nat)
    requires |steps| == n + 1
    ensures NeverSkipsUser(w0, decode, steps) <==> NeverSkipsUser(w0, decode, steps[..n]) && !SkipsUserAt(w0, decode, steps, n)
  {
    forall i: nat | i < n ensures SkipsUserAt(w0, decode, steps[..n], i) == SkipsUserAt(w0, decode, steps, i) {
      assert steps[..n][..i] == steps[..i];
    }
  }

  lemma {:induction false} RunMisses(decode: Decoder, found: bool, file: Bytes, statOk: bool, steps: seq<Step>)
    requires AllClean(Start(found, file, statOk), decode, steps)
    ensures var w0 := Start(found, file, statOk);
            NoneMissing(Run(w0, decode, steps), decode, NeverSkipsUser(w0, decode, steps))
  {
    var w0 := Start(found, file, statOk);
    if steps == [] {
      assert Seen(w0) == [] && Lines([]) == [];
    } else {
      var n := |steps| - 1;
      AllCleanBefore(w0, decode, steps, n);
      CleanRunIsInStep(decode, found, file, statOk, steps[..n]);
      RunMisses(decode, found, file, statOk, steps[..n]);
      NeverSkipsOneMore(w0, decode, steps, n);
      StepMisses(Run(w0, decode, steps[..n]), decode, steps[n], NeverSkipsUser(w0, decode, steps[..n]));
    }
  }

  // ---------- User events parsed are kept ----------

  lemma {:induction false} UsersOfUsers(events: seq<Event>)
    ensures UserEvents(UserEvents(events)) == UserEvents(events)
  {
    if events != [] {
      UsersOfUsers(events[1..]);
      if events[0].role.User? {
        assert ([events[0]] + UserEvents(events[1..]))[1..] == UserEvents(events[1..]);
      }
    }
  }

  // Emitted or waiting, no user event that was parsed is missing.
  ghost predicate UsersKept(w: World) {
    && (!w.tail.suppress ==> w.tail.buffer == [])
    && UserEvents(w.tail.emitted) + UserEvents(w.tail.buffer) == UserEvents(EventsOf(w.log))
  }

  lemma AcceptKeepsUsers(t: Tail, events: seq<Event>)
    requires !t.suppress ==> t.buffer == []
    ensures var t' := Accept(t, events);
            && (!t'.suppress ==> t'.buffer == [])
            && UserEvents(t'.emitted) + UserEvents(t'.buffer) == UserEvents(t.emitted) + UserEvents(t.buffer) + UserEvents(events)
  {
    if t.suppress {
      UserEventsConcat(t.buffer, events);
    } else {
      UserEventsConcat(t.emitted, events);
      assert UserEvents(t.emitted) + [] == UserEvents(t.emitted);
      assert UserEvents(t.emitted + events) + [] == UserEvents(t.emitted + events);
    }
  }

  lemma FeedingTail(w: World, decode: Decoder, step: Step)
    requires Feeds(w, step)
    ensures var events, w' := DecodeAll(decode, NewLines(w.tail, w.tick.data.value)), Next(w, decode, step);
            && w'.log == w.log + ParsedActs(events)
            && w'.tail.suppress == w.tail.suppress
            && w'.tail.emitted == Accept(w.tail, events).emitted && w'.tail.buffer == Accept(w.tail, events).buffer
  {
  }

  lemma ParsingKeepsUsers(w: World, decode: Decoder, step: Step)
    requires UsersKept(w) && Feeds(w, step)
    ensures UsersKept(Next(w, decode, step))
  {
    var events := DecodeAll(decode, NewLines(w.tail, w.tick.data.value));
    FeedingTail(w, decode, step);
    AcceptKeepsUsers(w.tail, events);
    EventsOfParsed(w.log, events);
    UserEventsConcat(EventsOf(w.log), events);
  }

  lemma ReplayKeepsUsers(emitted: seq<Event>, buffer: seq<Event>, success: bool)
    ensures UserEvents(emitted + Replayed(buffer, success)) + UserEvents([]) == UserEvents(emitted) + UserEvents(buffer)
  {
    var all := UserEvents(emitted + Replayed(buffer, success));
    UsersOfUsers(buffer);
    UserEventsConcat(emitted, Replayed(buffer, success));
    assert all + [] == all;
  }

  lemma ClosingTail(w: World, decode: Decoder, step: Step)
    requires step.DriveEnds?
    ensures var w' := Next(w, decode, step);
            && w'.tail.emitted == w.tail.emitted + Replayed(w.tail.buffer, step.success)
            && w'.tail.buffer == [] && !w'.tail.suppress
            && EventsOf(w'.log) == EventsOf(w.log)
  {
    var w' := Next(w, decode, step);
    assert w'.log[..|w'.log| - 1] == w.log;
  }

  lemma ClosingKeepsUsers(w: World, decode: Decoder, step: Step)
    requires UsersKept(w) && step.DriveEnds?
    ensures UsersKept(Next(w, decode, step))
  {
    ClosingTail(w, decode, step);
    ReplayKeepsUsers(w.tail.emitted, w.tail.buffer, step.success);
  }

  lemma StepKeepsUsers(w: World, decode: Decoder, step: Step)
    requires UsersKept(w)
    ensures UsersKept(Next(w, decode, step))
  {
    if Feeds(w, step) {
      ParsingKeepsUsers(w, decode, step);
    } else if step.DriveEnds? {
      ClosingKeepsUsers(w, decode, step);
    } else if step.DriveStarts? {
      var w' := Next(w, decode, step);
      assert w'.log[..|w'.log| - 1] == w.log;
    }
  }

  lemma {:induction false} RunKeepsUsers(decode: Decoder, found: bool, file: Bytes, statOk: bool, steps: seq<Step>)
    ensures UsersKept(Run(Start(found, file, statOk), decode, steps))
  {
    if steps != [] {
      var n := |steps| - 1;
      RunKeepsUsers(decode, found, file, statOk, steps[..n]);
      StepKeepsUsers(Run(Start(found, file, statOk), decode, steps[..n]), decode, steps[n]);
    }
  }

  // Over every run whose skips are clean: the user events emitted, and then those
  // waiting, are the user events of the file from where watching began to the
  // offset, if and only if no successful drive skipped a line holding one.
  lemma UserEventsSurviveExactlyWhenNoneIsSkipped(decode: Decoder, found: bool, file: Bytes, statOk: bool, steps: seq<Step>)
    requires AllClean(Start(found, file, statOk), decode, steps)
    ensures var w0 := Start(found, file, statOk);
            var w := Run(w0, decode, steps);
            UserEvents(w.tail.emitted) + UserEvents(w.tail.buffer) == UsersSeen(w, decode)
            <==> NeverSkipsUser(w0, decode, steps)
  {
    StartIsSound(decode, found, file, statOk);
    RunIsSound(Start(found, file, statOk), decode, steps);
    RunMisses(decode, found, file, statOk, steps);
    RunKeepsUsers(decode, found, file, statOk, steps);
  }

  lemma OneUserLine(decode: Decoder, line: Byte, event: Event)
    requires line != NEWLINE && decode([line]) == Some(event) && event.role.User?
    ensures Lines([line, NEWLINE]) == [[line]] && Remainder([line, NEWLINE]) == []
    ensures Users(decode, [[line]]) == [event]
  {
    var lines := [[line]];
    assert lines[1..] == [] && [event][1..] == [];
    assert [line, NEWLINE] == Unlines(lines) + [];
    FramingIsUnique([line, NEWLINE], lines, []);
    assert Kept(lines) == lines && DecodeAll(decode, lines[1..]) == [];
    assert DecodeAll(decode, lines) == [event];
    var none: seq<Event> := [event][1..];
    assert none == [] && UserEvents(none) == [];
    assert UserEvents([event]) == [event] + UserEvents(none);
  }

  // The watcher began over an empty file; the line was typed and not read.
  function Typed(text: Bytes): World {
    Next(Start(true, [], true), _ => None, Append(text))
  }

  lemma TypedLooks(text: Bytes)
    ensures Typed(text) == World(true, text, Tail(true, 0, [], false, [], 0, []), Idle, 0, [], [], [])
    ensures Skipped(Typed(text)) == text && Seen(Typed(text)) == []
    ensures LinesOver(Typed(text), text) == Lines(text)
  {
    assert [] + text == text && text[0..] == text && text[0..|text|] == text && text[0..0] == [];
  }

  lemma TypedIsSkipped(decode: Decoder, text: Bytes)
    ensures var w := Next(Typed(text), decode, DriveEnds(true, true));
            w.tail.offset == |w.file| && w.tail.emitted == [] && w.tail.buffer == [] && Seen(w) == text
  {
    TypedLooks(text);
    assert text[0..|text|] == text;
  }

  // A line typed while a drive runs, and not read before it ends: the skip is
  // clean, and the user's event is lost.
  lemma UnreadUserLineIsSkipped(decode: Decoder, line: Byte, event: Event)
    requires line != NEWLINE && decode([line]) == Some(event) && event.role.User?
    ensures var typed := Next(Start(true, [], true), decode, Append([line, NEWLINE]));
            var w := Next(typed, decode, DriveEnds(true, true));
            && CleanSkip(typed) && SkipsUser(typed, decode, DriveEnds(true, true))
            && w.tail.offset == |w.file| && w.tail.emitted == [] && w.tail.buffer == []
            && UsersSeen(w, decode) == [event]
  {
    var text := [line, NEWLINE];
    TypedLooks(text);
    TypedIsSkipped(decode, text);
    OneUserLine(decode, line, event);
    assert text[1] == NEWLINE && Slice(text, 0, 2) == Skipped(Typed(text));
    assert Next(Start(true, [], true), decode, Append(text)) == Typed(text);
  }
}
