/**
 A transcript watcher beside the file it watches. Each await of _tick is its own
 step, so appends and drives interleave with a read in flight. File, spans,
 lines and log record what happened; the code keeps only the Tail.
 */
module TailRuns {
  import opened Wrappers
  import opened Framing
  import opened Transcript
  import opened DriveWindow

  datatype Tick =
    | Idle
    | Resolving                                     // looking for the path
    | Stating(epoch: nat)                           // stat handed to the executor
    | Statted(epoch: nat, answer: Option<nat>)      // its answer is on the way back
    | Reading(epoch: nat, start: nat, size: nat)    // read handed to the executor
    | HasRead(epoch: nat, start: nat, size: nat, data: Option<Bytes>)

  /** A stretch of the file the offset moved over: given to _process_bytes, or skipped. */
  datatype Span = Span(fed: bool, lo: nat, hi: nat)

  datatype World = World(
    present: bool, file: Bytes, tail: Tail, tick: Tick,
    base: nat, spans: seq<Span>, lines: seq<Bytes>, log: seq<Act>)

  datatype Step =
    | Append(data: Bytes)
    | TickBegins
    | PathResolves
    | StatRuns(ok: bool)
    | SizeArrives
    | ReadRuns(ok: bool)
    | DataArrives
    | TickAborts
    | DriveStarts
    | DriveEnds(success: bool, statOk: bool)

  // Python slicing, which clamps.
  function Slice(file: Bytes, lo: nat, hi: nat): Bytes {
    if lo <= hi <= |file| then file[lo..hi] else if lo <= |file| then file[lo..] else []
  }

  function Start(found: bool, file: Bytes, statOk: bool): World {
    var file := if found then file else [];
    var offset := if found && statOk then |file| else 0;
    World(found, file, Tail(found, offset, [], false, [], 0, []), Idle, offset, [], [], [])
  }

  function Next(w: World, decode: Decoder, step: Step): World {
    match step
    case Append(data) => w.(present := true, file := w.file + data)
    case TickBegins =>
      if w.tick != Idle then w
      else w.(tick := if w.tail.pathKnown then Stating(w.tail.epoch) else Resolving)
    case PathResolves =>
      if w.tick != Resolving then w
      else if !w.present then w.(tick := Idle)
      else w.(tail := w.tail.(pathKnown := true), tick := Stating(w.tail.epoch))
    case StatRuns(ok) =>
      if !w.tick.Stating? then w
      else w.(tick := Statted(w.tick.epoch, if ok then Some(|w.file|) else None))
    case SizeArrives =>
      if !w.tick.Statted? then w
      else if w.tick.answer.None? || w.tick.answer.value <= w.tail.offset then w.(tick := Idle)
      else w.(tick := Reading(w.tick.epoch, w.tail.offset, w.tick.answer.value))
    case ReadRuns(ok) =>
      if !w.tick.Reading? then w
      else
        var data := if ok then Some(Slice(w.file, w.tick.start, w.tick.size)) else None;
        w.(tick := HasRead(w.tick.epoch, w.tick.start, w.tick.size, data))
    case DataArrives => if !w.tick.HasRead? then w else Committed(w, decode)
    case TickAborts => w.(tick := Idle)
    case DriveStarts => w.(tail := DriveStarted(w.tail), log := w.log + [Opened])
    case DriveEnds(success, statOk) =>
      var size := if statOk then Some(|w.file|) else None;
      var tail := DriveFinished(w.tail, success, size);
      var spans := if SkipsAhead(w, step) then [Span(false, w.tail.offset, |w.file|)] else [];
      w.(tail := tail, log := w.log + [Closed(success)], spans := w.spans + spans)
  }

  predicate SkipsAhead(w: World, step: Step) {
    step.DriveEnds? && step.success && step.statOk && w.tail.pathKnown
  }

  function Committed(w: World, decode: Decoder): World
    requires w.tick.HasRead?
  {
    var t := w.tick;
    var tail := CommitRead(w.tail, decode, t.epoch, t.size, t.data);
    if t.data.None? || t.epoch != w.tail.epoch then w.(tail := tail, tick := Idle)
    else
      var added := NewLines(w.tail, t.data.value);
      w.(tail := tail, tick := Idle,
         spans := w.spans + [Span(true, t.start, t.size)],
         lines := w.lines + added,
         log := w.log + ParsedActs(DecodeAll(decode, added)))
  }

  function Run(w: World, decode: Decoder, steps: seq<Step>): World {
    if steps == [] then w else Next(Run(w, decode, steps[..|steps| - 1]), decode, steps[|steps| - 1])
  }

  // ---------- Partition of the file ----------

  // The spans follow one another from lo to hi, leaving no gap.
  ghost predicate Chain(spans: seq<Span>, lo: nat, hi: nat) {
    if spans == [] then lo == hi
    else
      var last := spans[|spans| - 1];
      last.hi == hi && last.lo <= hi && Chain(spans[..|spans| - 1], lo, last.lo)
  }

  lemma {:induction false} ChainIsOrdered(spans: seq<Span>, lo: nat, hi: nat)
    requires Chain(spans, lo, hi)
    ensures lo <= hi
    ensures forall i | 0 <= i < |spans| :: lo <= spans[i].lo <= spans[i].hi <= hi
    ensures forall i, j | 0 <= i < j < |spans| :: spans[i].hi <= spans[j].lo
  {
    if spans != [] {
      ChainIsOrdered(spans[..|spans| - 1], lo, spans[|spans| - 1].lo);
    }
  }

  predicate Contains(span: Span, at: nat) {
    span.lo <= at < span.hi
  }

  ghost predicate InExactlyOne(spans: seq<Span>, at: nat) {
    exists i | 0 <= i < |spans| :: Contains(spans[i], at) && forall j | 0 <= j < |spans| && Contains(spans[j], at) :: i == j
  }

  lemma {:induction false} ChainReaches(spans: seq<Span>, lo: nat, hi: nat, at: nat) returns (i: nat)
    requires Chain(spans, lo, hi) && lo <= at < hi
    ensures i < |spans| && Contains(spans[i], at)
  {
    i := |spans| - 1;
    if at < spans[i].lo {
      i := ChainReaches(spans[..i], lo, spans[i].lo, at);
    }
  }

  lemma ChainCoversOnce(spans: seq<Span>, lo: nat, hi: nat, at: nat)
    requires Chain(spans, lo, hi) && lo <= at < hi
    ensures InExactlyOne(spans, at)
  {
    var i := ChainReaches(spans, lo, hi, at);
    forall j | 0 <= j < |spans| && Contains(spans[j], at) ensures i == j {
      ChainIsOrdered(spans, lo, hi);
    }
  }

  // ---------- The bytes given to _process_bytes ----------

  function FedBytes(file: Bytes, spans: seq<Span>): Bytes {
    if spans == [] then []
    else
      var last := spans[|spans| - 1];
      var earlier := FedBytes(file, spans[..|spans| - 1]);
      if last.fed then earlier + Slice(file, last.lo, last.hi) else earlier
  }

  lemma {:induction false} AppendKeepsFedBytes(file: Bytes, data: Bytes, spans: seq<Span>, lo: nat, hi: nat)
    requires Chain(spans, lo, hi) && hi <= |file|
    ensures FedBytes(file + data, spans) == FedBytes(file, spans)
  {
    if spans != [] {
      AppendKeepsFedBytes(file, data, spans[..|spans| - 1], lo, spans[|spans| - 1].lo);
    }
  }

  // ---------- The invariant ----------

  // A read in flight is the stretch right after the offset, or its epoch is over.
  ghost predicate TickIsSound(w: World) {
    match w.tick
    case Idle => true
    case Resolving => true
    case Stating(epoch) => epoch <= w.tail.epoch
    case Statted(epoch, size) => epoch <= w.tail.epoch && (size.Some? ==> size.value <= |w.file|)
    case Reading(epoch, start, size) => InFlight(w, epoch, start, size)
    case HasRead(epoch, start, size, data) =>
      && InFlight(w, epoch, start, size)
      && (data.Some? ==> data.value == w.file[start..size])
  }

  ghost predicate InFlight(w: World, epoch: nat, start: nat, size: nat) {
    && start < size <= |w.file|
    && epoch <= w.tail.epoch
    && (epoch == w.tail.epoch ==> start == w.tail.offset)
  }

  ghost predicate Framed(w: World) {
    && w.lines == Kept(Lines(FedBytes(w.file, w.spans)))
    && w.tail.remainder == Remainder(FedBytes(w.file, w.spans))
  }

  ghost predicate Sound(w: World, decode: Decoder) {
    && w.base <= w.tail.offset <= |w.file|
    && Chain(w.spans, w.base, w.tail.offset)
    && TickIsSound(w)
    && Framed(w)
    && EventsOf(w.log) == DecodeAll(decode, w.lines)
    && Agrees(w.tail, w.log)
  }

  lemma StartIsSound(decode: Decoder, found: bool, file: Bytes, statOk: bool)
    ensures Sound(Start(found, file, statOk), decode)
  {
  }

  lemma OneMoreChunk(t: Tail, whole: Bytes, chunk: Bytes)
    requires t.remainder == Remainder(whole)
    ensures Kept(Lines(whole + chunk)) == Kept(Lines(whole)) + NewLines(t, chunk)
    ensures Remainder(whole + chunk) == Remainder(t.remainder + chunk)
  {
    SplitExtends(whole, chunk);
    KeptConcat(Lines(whole), Lines(t.remainder + chunk));
  }

  lemma CommitIsSound(w: World, decode: Decoder)
    requires Sound(w, decode) && w.tick.HasRead?
    ensures Sound(Committed(w, decode), decode)
    ensures w.tail.offset <= Committed(w, decode).tail.offset
  {
    var t := w.tick;
    if t.data.Some? && t.epoch == w.tail.epoch {
      var w' := Committed(w, decode);
      var fed := FedBytes(w.file, w.spans);
      var data := t.data.value;
      assert w'.spans[..|w'.spans| - 1] == w.spans;
      assert FedBytes(w'.file, w'.spans) == fed + data;
      OneMoreChunk(w.tail, fed, data);
      var added := NewLines(w.tail, data);
      DecodeAllConcat(decode, w.lines, added);
      EventsOfParsed(w.log, DecodeAll(decode, added));
      ParsingAllAgrees(w.tail, w.log, DecodeAll(decode, added));
    }
  }

  // The log, the tail and the spans after a drive has ended.
  lemma DriveEndShape(w: World, decode: Decoder, step: Step)
    requires step.DriveEnds?
    ensures var w', size := Next(w, decode, step), if step.statOk then Some(|w.file|) else None;
            && w'.tail == DriveFinished(w.tail, step.success, size) && w'.log == w.log + [Closed(step.success)]
            && w'.file == w.file && w'.base == w.base && w'.lines == w.lines && w'.tick == w.tick
            && w'.tail.remainder == w.tail.remainder && w.tail.epoch <= w'.tail.epoch
            && (if SkipsAhead(w, step) then w'.spans == w.spans + [Span(false, w.tail.offset, |w.file|)] && w'.tail.offset == |w.file|
                else w'.spans == w.spans && w'.tail.offset == w.tail.offset)
            && (w'.tail.epoch == w.tail.epoch ==> w'.tail.offset == w.tail.offset)
  {
  }

  lemma SkippedSpan(file: Bytes, spans: seq<Span>, base: nat, lo: nat)
    requires Chain(spans, base, lo) && lo <= |file|
    ensures var more := spans + [Span(false, lo, |file|)];
            Chain(more, base, |file|) && FedBytes(file, more) == FedBytes(file, spans)
  {
    var more := spans + [Span(false, lo, |file|)];
    assert more[..|more| - 1] == spans;
  }

  lemma DriveEndKeepsFraming(w: World, decode: Decoder, step: Step)
    requires Sound(w, decode) && step.DriveEnds?
    ensures var w' := Next(w, decode, step);
            && w'.base <= w'.tail.offset <= |w'.file| && w.tail.offset <= w'.tail.offset
            && Chain(w'.spans, w'.base, w'.tail.offset) && Framed(w') && w'.lines == w.lines
  {
    DriveEndShape(w, decode, step);
    SkippedSpan(w.file, w.spans, w.base, w.tail.offset);
  }

  lemma DriveEndKeepsTick(w: World, decode: Decoder, step: Step)
    requires TickIsSound(w) && step.DriveEnds?
    ensures TickIsSound(Next(w, decode, step))
  {
    DriveEndShape(w, decode, step);
  }

  lemma DriveEndAgrees(w: World, decode: Decoder, step: Step)
    requires Agrees(w.tail, w.log) && step.DriveEnds?
    ensures var w' := Next(w, decode, step); Agrees(w'.tail, w'.log) && EventsOf(w'.log) == EventsOf(w.log)
  {
    var w' := Next(w, decode, step);
    DriveEndShape(w, decode, step);
    ClosingAgrees(w.tail, w.log, step.success, if step.statOk then Some(|w.file|) else None);
    assert w'.log[..|w'.log| - 1] == w.log;
  }

  lemma DriveEndIsSound(w: World, decode: Decoder, step: Step)
    requires Sound(w, decode) && step.DriveEnds?
    ensures Sound(Next(w, decode, step), decode)
    ensures w.tail.offset <= Next(w, decode, step).tail.offset
  {
    DriveEndKeepsFraming(w, decode, step);
    DriveEndKeepsTick(w, decode, step);
    DriveEndAgrees(w, decode, step);
  }

  lemma AppendIsSound(w: World, decode: Decoder, data: Bytes)
    requires Sound(w, decode)
    ensures Sound(Next(w, decode, Append(data)), decode)
  {
    AppendKeepsFedBytes(w.file, data, w.spans, w.base, w.tail.offset);
  }

  // The steps of a tick before its data arrives touch nothing but the tick.
  lemma TickStepIsSound(w: World, decode: Decoder, step: Step)
    requires Sound(w, decode)
    requires step.TickBegins? || step.PathResolves? || step.StatRuns? || step.SizeArrives? || step.ReadRuns? || step.TickAborts?
    ensures Sound(Next(w, decode, step), decode)
    ensures w.tail.offset == Next(w, decode, step).tail.offset
    ensures w.base == Next(w, decode, step).base
  {
    var w' := Next(w, decode, step);
    assert TickIsSound(w');
    assert w'.tail == w.tail.(pathKnown := w'.tail.pathKnown);
  }

  lemma StepIsSound(w: World, decode: Decoder, step: Step)
    requires Sound(w, decode)
    ensures Sound(Next(w, decode, step), decode)
    ensures w.tail.offset <= Next(w, decode, step).tail.offset
    ensures w.base == Next(w, decode, step).base
  {
    match step {
      case Append(data) => AppendIsSound(w, decode, data);
      case DataArrives =>
        if w.tick.HasRead? { CommitIsSound(w, decode); }
      case DriveStarts =>
        OpeningAgrees(w.tail, w.log);
        assert (w.log + [Opened])[..|w.log|] == w.log;
      case DriveEnds(_, _) => DriveEndIsSound(w, decode, step);
      case _ => TickStepIsSound(w, decode, step);
    }
  }

  lemma {:induction false} RunIsSound(w: World, decode: Decoder, steps: seq<Step>)
    requires Sound(w, decode)
    ensures Sound(Run(w, decode, steps), decode)
    ensures w.tail.offset <= Run(w, decode, steps).tail.offset
    ensures w.base == Run(w, decode, steps).base
  {
    if steps != [] {
      RunIsSound(w, decode, steps[..|steps| - 1]);
      StepIsSound(Run(w, decode, steps[..|steps| - 1]), decode, steps[|steps| - 1]);
    }
  }

  // ---------- Main results ----------

  // Over every interleaving: watching begins at the end of a file that is there and
  // can be sized, else at 0; the offset stays within the file and only moves
  // forward, and what it moved over is exactly the processed and skipped spans.
  lemma OffsetPartitionsTheFile(decode: Decoder, found: bool, file: Bytes, statOk: bool,
                                before: seq<Step>, after: seq<Step>)
    ensures var w0 := Start(found, file, statOk);
            var w1 := Run(w0, decode, before);
            var w2 := Run(w1, decode, after);
            && w0.tail.offset == (if found && statOk then |file| else 0)
            && w1.tail.offset <= w2.tail.offset <= |w2.file|
            && Chain(w2.spans, w0.tail.offset, w2.tail.offset)
            && (forall at: nat | w0.tail.offset <= at < w2.tail.offset :: InExactlyOne(w2.spans, at))
  {
    var w0 := Start(found, file, statOk);
    var w1 := Run(w0, decode, before);
    var w2 := Run(w1, decode, after);
    StartIsSound(decode, found, file, statOk);
    RunIsSound(w0, decode, before);
    RunIsSound(w1, decode, after);
    forall at: nat | w0.tail.offset <= at < w2.tail.offset ensures InExactlyOne(w2.spans, at) {
      ChainCoversOnce(w2.spans, w0.tail.offset, w2.tail.offset, at);
    }
  }

  // Over every interleaving: the lines handed on are the short complete lines of
  // the bytes processed, and each parsed event meets the fate its history gives it.
  lemma LinesAndEventsMeetTheirFates(decode: Decoder, found: bool, file: Bytes, statOk: bool, steps: seq<Step>)
    ensures var w := Run(Start(found, file, statOk), decode, steps);
            var fed := FedBytes(w.file, w.spans);
            && w.lines == Kept(Lines(fed)) && w.tail.remainder == Remainder(fed)
            && EventsOf(w.log) == DecodeAll(decode, w.lines)
            && w.tail.emitted == All(w.log, Delivered)
            && w.tail.buffer == All(w.log, Waiting)
            && (!w.tail.suppress ==> w.tail.buffer == [])
  {
    var w := Run(Start(found, file, statOk), decode, steps);
    StartIsSound(decode, found, file, statOk);
    RunIsSound(Start(found, file, statOk), decode, steps);
    if !w.tail.suppress {
      NothingWaitsBefore(w.log, |w.log|, |w.log|);
    }
  }

  predicate PathFits(w: World) {
    (w.tail.pathKnown ==> w.present) && (!w.present ==> w.file == [])
  }

  lemma PathStillFits(w: World, decode: Decoder, step: Step)
    requires PathFits(w)
    ensures PathFits(Next(w, decode, step))
  {
    var w' := Next(w, decode, step);
    assert w'.tail.pathKnown == (w.tail.pathKnown || (step.PathResolves? && w.tick == Resolving && w.present));
    assert w'.present == (w.present || step.Append?) && (step.Append? || w'.file == w.file);
  }

  // Over every interleaving a path is known only of a file that is there.
  lemma {:induction false} PathIsKnownOfAFileOnly(decode: Decoder, found: bool, file: Bytes, statOk: bool, steps: seq<Step>)
    ensures PathFits(Run(Start(found, file, statOk), decode, steps))
  {
    if steps != [] {
      var n := |steps| - 1;
      PathIsKnownOfAFileOnly(decode, found, file, statOk, steps[..n]);
      PathStillFits(Run(Start(found, file, statOk), decode, steps[..n]), decode, steps[n]);
    }
  }

  // For every way of cutting a stream into reads, the lines are those of the stream.
  function FeedAll(t: Tail, decode: Decoder, chunks: seq<Bytes>): Tail {
    if chunks == [] then t
    else ProcessBytes(FeedAll(t, decode, chunks[..|chunks| - 1]), decode, chunks[|chunks| - 1])
  }

  function Flatten(chunks: seq<Bytes>): Bytes {
    if chunks == [] then [] else Flatten(chunks[..|chunks| - 1]) + chunks[|chunks| - 1]
  }

  lemma AcceptTwice(t: Tail, a: seq<Event>, b: seq<Event>, r: Bytes, s: Bytes)
    ensures Accept(Accept(t, a).(remainder := r), b).(remainder := s) == Accept(t, a + b).(remainder := s)
  {
    assert t.buffer + a + b == t.buffer + (a + b);
    assert t.emitted + a + b == t.emitted + (a + b);
  }

  lemma {:induction false} ChunkingDoesNotMatter(t: Tail, decode: Decoder, chunks: seq<Bytes>)
    requires t.remainder == []
    ensures var whole := Flatten(chunks);
            FeedAll(t, decode, chunks) ==
            Accept(t, DecodeAll(decode, Kept(Lines(whole)))).(remainder := Remainder(whole))
  {
    if chunks != [] {
      var n := |chunks| - 1;
      var earlier, whole := FeedAll(t, decode, chunks[..n]), Flatten(chunks[..n]);
      ChunkingDoesNotMatter(t, decode, chunks[..n]);
      OneMoreChunk(earlier, whole, chunks[n]);
      var a, b := Kept(Lines(whole)), NewLines(earlier, chunks[n]);
      DecodeAllConcat(decode, a, b);
      AcceptTwice(t, DecodeAll(decode, a), DecodeAll(decode, b), Remainder(whole), Remainder(whole + chunks[n]));
    }
  }

  // ---------- Framing against the file itself ----------

  // The remainder is the partial line the file really has at the offset.
  predicate Aligned(w: World) {
    w.tail.remainder == Remainder(Slice(w.file, w.base, w.tail.offset))
  }

  // A skip is harmless when it skips nothing, or ends in the partial line already held.
  predicate CleanSkip(w: World) {
    var skipped := Slice(w.file, w.tail.offset, |w.file|);
    skipped == [] || (NEWLINE in skipped && Remainder(skipped) == w.tail.remainder)
  }

  lemma {:induction false} RemainderAfterNewline(a: Bytes, b: Bytes)
    requires NEWLINE in b
    ensures Remainder(a + b) == Remainder(b)
  {
    SplitExtends(a, b);
    SplitFrames(b);
    var carried := Remainder(a);
    SplitFrames(a);
    assert Lines(b) != [];
    var lines := [carried + Lines(b)[0]] + Lines(b)[1..];
    assert lines[1..] == Lines(b)[1..];
    assert carried + b == Unlines(lines) + Remainder(b);
    FramingIsUnique(carried + b, lines, Remainder(b));
  }

  lemma RemainderSurvives(seen: Bytes, skipped: Bytes)
    ensures Remainder(seen + skipped) == Remainder(seen) <==>
            skipped == [] || (NEWLINE in skipped && Remainder(skipped) == Remainder(seen))
  {
    if NEWLINE in skipped {
      RemainderAfterNewline(seen, skipped);
    } else {
      var held := Remainder(seen);
      SplitExtends(seen, skipped);
      SplitFrames(seen);
      FramingIsUnique(held + skipped, [], held + skipped);
      assert skipped == [] ==> held + skipped == held;
    }
  }

  // drive_finished(success=True) keeps the watcher in step with the file's own
  // lines exactly when the skip is clean.
  lemma SkipAlignsExactlyWhenClean(w: World, decode: Decoder, step: Step)
    requires w.base <= w.tail.offset <= |w.file|
    requires Aligned(w) && SkipsAhead(w, step)
    ensures Aligned(Next(w, decode, step)) <==> CleanSkip(w)
  {
    var w' := Next(w, decode, step);
    var seen, skipped := Slice(w.file, w.base, w.tail.offset), Slice(w.file, w.tail.offset, |w.file|);
    assert w'.file == w.file && w'.base == w.base && w'.tail.remainder == w.tail.remainder;
    assert Slice(w'.file, w'.base, w'.tail.offset) == seen + skipped;
    RemainderSurvives(seen, skipped);
  }

  lemma SliceGoesOn(file: Bytes, lo: nat, mid: nat, hi: nat)
    requires lo <= mid <= hi <= |file|
    ensures file[lo..hi] == file[lo..mid] + file[mid..hi]
  {
    var whole, parts := file[lo..hi], file[lo..mid] + file[mid..hi];
    forall i | 0 <= i < hi - lo ensures whole[i] == parts[i] {
      if i < mid - lo { assert parts[i] == file[lo..mid][i]; } else { assert parts[i] == file[mid..hi][i - (mid - lo)]; }
    }
  }

  lemma SliceStays(file: Bytes, data: Bytes, lo: nat, hi: nat)
    requires lo <= hi <= |file|
    ensures (file + data)[lo..hi] == file[lo..hi]
  {
    forall i | 0 <= i < hi - lo ensures (file + data)[lo..hi][i] == file[lo..hi][i] {
      assert (file + data)[lo + i] == file[lo + i];
    }
  }

  lemma CommitStaysAligned(w: World, decode: Decoder)
    requires w.base <= w.tail.offset <= |w.file| && TickIsSound(w)
    requires Aligned(w) && w.tick.HasRead?
    ensures Aligned(Committed(w, decode))
  {
    var t := w.tick;
    if t.data.Some? && t.epoch == w.tail.epoch {
      SliceGoesOn(w.file, w.base, w.tail.offset, t.size);
      SplitExtends(w.file[w.base..w.tail.offset], t.data.value);
    }
  }

  lemma AppendStaysAligned(w: World, decode: Decoder, data: Bytes)
    requires w.base <= w.tail.offset <= |w.file| && Aligned(w)
    ensures Aligned(Next(w, decode, Append(data)))
  {
    SliceStays(w.file, data, w.base, w.tail.offset);
  }

  // Every other step leaves the file, the offset and the remainder alone.
  lemma StaysInPlace(w: World, decode: Decoder, step: Step)
    requires !step.Append? && !(step.DataArrives? && w.tick.HasRead?) && !SkipsAhead(w, step)
    ensures var w' := Next(w, decode, step);
            && w'.file == w.file && w'.base == w.base
            && w'.tail.offset == w.tail.offset && w'.tail.remainder == w.tail.remainder
  {
  }

  lemma OtherStepsStayAligned(w: World, decode: Decoder, step: Step)
    requires w.base <= w.tail.offset <= |w.file| && TickIsSound(w)
    requires Aligned(w) && !SkipsAhead(w, step)
    ensures Aligned(Next(w, decode, step))
  {
    if step.Append? {
      AppendStaysAligned(w, decode, step.data);
    } else if step.DataArrives? && w.tick.HasRead? {
      CommitStaysAligned(w, decode);
    } else {
      StaysInPlace(w, decode, step);
    }
  }

  lemma RunOneMore(w: World, decode: Decoder, steps: seq<Step>, step: Step)
    ensures Run(w, decode, steps + [step]) == Next(Run(w, decode, steps), decode, step)
  {
    assert (steps + [step])[..|steps|] == steps;
  }

  lemma {:induction false} RunMore(w: World, decode: Decoder, steps: seq<Step>, more: seq<Step>)
    ensures Run(w, decode, steps + more) == Run(Run(w, decode, steps), decode, more)
  {
    if more == [] {
      assert steps + more == steps;
    } else {
      var n := |more| - 1;
      RunMore(w, decode, steps, more[..n]);
      assert (steps + more)[..|steps + more| - 1] == steps + more[..n];
    }
  }

  const FIRST_READ := [TickBegins, PathResolves, StatRuns(true), SizeArrives, ReadRuns(true), DataArrives]
  const LATER_READ := [TickBegins, StatRuns(true), SizeArrives, ReadRuns(true), DataArrives]

  // The world once a tick has got this far, with nothing in between.
  function Ticking(w: World, tick: Tick): World {
    w.(tail := w.tail.(pathKnown := true), tick := tick)
  }

  lemma TickStarts(w: World, decode: Decoder)
    requires w.tick.Idle? && w.present
    ensures Run(w, decode, if w.tail.pathKnown then [TickBegins] else [TickBegins, PathResolves]) == Ticking(w, Stating(w.tail.epoch))
  {
    RunOneMore(w, decode, [], TickBegins);
    assert [] + [TickBegins] == [TickBegins];
    if !w.tail.pathKnown {
      RunOneMore(w, decode, [TickBegins], PathResolves);
      assert [TickBegins] + [PathResolves] == [TickBegins, PathResolves];
    }
  }

  lemma TickSees(w: World, decode: Decoder, data: Bytes)
    requires w.tail.offset < |w.file| && data == w.file[w.tail.offset..]
    ensures var epoch, size := w.tail.epoch, |w.file|;
            && Next(Ticking(w, Stating(epoch)), decode, StatRuns(true)) == Ticking(w, Statted(epoch, Some(size)))
            && Next(Ticking(w, Statted(epoch, Some(size))), decode, SizeArrives) == Ticking(w, Reading(epoch, w.tail.offset, size))
            && Next(Ticking(w, Reading(epoch, w.tail.offset, size)), decode, ReadRuns(true))
               == Ticking(w, HasRead(epoch, w.tail.offset, size, Some(data)))
  {
    assert Slice(w.file, w.tail.offset, |w.file|) == data;
  }

  lemma TickReads(w: World, decode: Decoder, data: Bytes)
    requires w.tail.offset < |w.file| && data == w.file[w.tail.offset..]
    ensures Run(Ticking(w, Stating(w.tail.epoch)), decode, [StatRuns(true), SizeArrives, ReadRuns(true)])
            == Ticking(w, HasRead(w.tail.epoch, w.tail.offset, |w.file|, Some(data)))
  {
    var from := Ticking(w, Stating(w.tail.epoch));
    TickSees(w, decode, data);
    RunOneMore(from, decode, [], StatRuns(true));
    assert [] + [StatRuns(true)] == [StatRuns(true)];
    RunOneMore(from, decode, [StatRuns(true)], SizeArrives);
    assert [StatRuns(true)] + [SizeArrives] == [StatRuns(true), SizeArrives];
    RunOneMore(from, decode, [StatRuns(true), SizeArrives], ReadRuns(true));
    assert [StatRuns(true), SizeArrives] + [ReadRuns(true)] == [StatRuns(true), SizeArrives, ReadRuns(true)];
  }

  // What is left of a tick once its data is there.
  predicate CaughtUp(w: World, w': World) {
    w.tail.offset <= |w.file| &&
    var data := w.file[w.tail.offset..];
    && w'.tick.Idle? && w'.present == w.present && w'.file == w.file && w'.tail.pathKnown
    && w'.tail.offset == |w.file|
    && w'.lines == w.lines + NewLines(w.tail, data)
    && w'.tail.remainder == Remainder(w.tail.remainder + data)
  }

  lemma TickCommits(w: World, decode: Decoder, data: Bytes)
    requires w.tail.offset < |w.file| && data == w.file[w.tail.offset..]
    ensures CaughtUp(w, Next(Ticking(w, HasRead(w.tail.epoch, w.tail.offset, |w.file|, Some(data))), decode, DataArrives))
  {
  }

  // A tick that nothing disturbs reads up to the end of the file.
  lemma UndisturbedTickCatchesUp(w: World, decode: Decoder)
    requires w.tick.Idle? && w.present && w.tail.offset < |w.file|
    ensures CaughtUp(w, Run(w, decode, if w.tail.pathKnown then LATER_READ else FIRST_READ))
  {
    var start := if w.tail.pathKnown then [TickBegins] else [TickBegins, PathResolves];
    var read, data := [StatRuns(true), SizeArrives, ReadRuns(true)], w.file[w.tail.offset..];
    TickStarts(w, decode);
    RunMore(w, decode, start, read);
    TickReads(w, decode, data);
    RunOneMore(w, decode, start + read, DataArrives);
    TickCommits(w, decode, data);
    assert start + read + [DataArrives] == if w.tail.pathKnown then LATER_READ else FIRST_READ;
  }

  // An unclean skip really does splice: with "a" held back, "b\nc" skipped and
  // "d\n" read next, the line handed on is "ad", which the file does not contain.
  lemma UncleanSkipSplicesLines(decode: Decoder, a: Byte, b: Byte, c: Byte, d: Byte) returns (steps: seq<Step>)
    requires NEWLINE !in [a, b, c, d] && a != c
    ensures var w := Run(Start(false, [], true), decode, steps);
            w.lines == [[a, d]] && Lines(w.file) == [[a, b], [c, d]]
  {
    var w0 := Start(false, [], true);
    var s2, w2 := HoldBack(decode, a);
    var s3 := s2 + [Append([b, NEWLINE, c])];
    RunOneMore(w0, decode, s2, Append([b, NEWLINE, c]));
    var s4 := s3 + [DriveEnds(true, true)];
    RunOneMore(w0, decode, s3, DriveEnds(true, true));
    var s5 := s4 + [Append([d, NEWLINE])];
    RunOneMore(w0, decode, s4, Append([d, NEWLINE]));
    var w5 := Run(w0, decode, s5);
    assert w5.tick.Idle? && w5.tail.pathKnown && w5.tail.offset == 4 && w5.tail.remainder == [a];
    assert w5.file[4..] == [d, NEWLINE];
    UndisturbedTickCatchesUp(w5, decode);
    assert CaughtUp(w5, Run(w5, decode, LATER_READ));
    RunMore(w0, decode, s5, LATER_READ);
    OneLine(a, d);
    SpliceFile(a, b, c, d, w5.file);
    steps := s5 + LATER_READ;
  }

  lemma HoldBack(decode: Decoder, a: Byte) returns (steps: seq<Step>, w: World)
    requires a != NEWLINE
    ensures w == Run(Start(false, [], true), decode, steps)
    ensures w.tick.Idle? && w.present && w.tail.pathKnown && w.file == [a] && w.tail.offset == 1
    ensures w.lines == [] && w.tail.remainder == [a]
  {
    var w0 := Start(false, [], true);
    RunOneMore(w0, decode, [], Append([a]));
    steps := [] + [Append([a])];
    var w1 := Run(w0, decode, steps);
    UndisturbedTickCatchesUp(w1, decode);
    RunMore(w0, decode, steps, FIRST_READ);
    assert w1.file == [a] && w1.file[0..] == [a] && [] + [a] == [a];
    FramingIsUnique([a], [], [a]);
    steps := steps + FIRST_READ;
    w := Run(w0, decode, steps);
  }

  lemma OneLine(a: Byte, d: Byte)
    requires NEWLINE !in [a, d]
    ensures Kept(Lines([a] + [d, NEWLINE])) == [[a, d]]
  {
    var lines := [[a, d]];
    assert lines[1..] == [];
    FramingIsUnique([a] + [d, NEWLINE], lines, []);
  }

  lemma SpliceFile(a: Byte, b: Byte, c: Byte, d: Byte, file: Bytes)
    requires NEWLINE !in [a, b, c, d] && file == [a] + [b, NEWLINE, c] + [d, NEWLINE]
    ensures Lines(file) == [[a, b], [c, d]]
  {
    var lines := [[a, b], [c, d]];
    assert lines[1..] == [[c, d]] && lines[1..][1..] == [];
    assert Unlines(lines[1..]) == [c, d, NEWLINE];
    assert file == Unlines(lines) + [];
    FramingIsUnique(file, lines, []);
  }
}
