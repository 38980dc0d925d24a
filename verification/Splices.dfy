/** What an unclean skip costs: at most the one line spliced behind it. */
module Splices {
  import opened Wrappers
  import opened Framing
  import opened Transcript
  import opened TailRuns
  import opened OwnLines
  import opened Subsequence

  // ---------- Lines over a part held back ----------

  lemma CarriedLines(held: Bytes, data: Bytes)
    requires NEWLINE !in held && NEWLINE in data
    ensures Lines(data) != []
    ensures Lines(held + data) == [held + Lines(data)[0]] + Lines(data)[1..]
    ensures Remainder(held + data) == Remainder(data)
  {
    SplitFrames(data);
    assert Lines(data) != [];
    var lines := [held + Lines(data)[0]] + Lines(data)[1..];
    assert lines[1..] == Lines(data)[1..];
    assert held + data == Unlines(lines) + Remainder(data);
    FramingIsUnique(held + data, lines, Remainder(data));
  }

  lemma NoLineWithoutNewline(s: Bytes)
    requires NEWLINE !in s
    ensures Lines(s) == []
  {
    FramingIsUnique(s, [], s);
  }

  ghost predicate InPlace(w: World) {
    w.base <= w.tail.offset <= |w.file| && TickIsSound(w) && NEWLINE !in w.tail.remainder
  }

  lemma SoundIsInPlace(w: World, decode: Decoder)
    requires Sound(w, decode)
    ensures InPlace(w)
  {
    SplitFrames(FedBytes(w.file, w.spans));
  }

  // ---------- Spliced lines ----------

  // Out of step, the first line a read finishes has a wrong beginning.
  predicate Splices(w: World, step: Step) {
    Feeds(w, step) && !Aligned(w) && LinesOver(w, w.tick.data.value) != []
  }

  // A skip that puts the watcher out of step with the lines of the file.
  predicate SplicingSkip(w: World, step: Step) {
    SkipsAhead(w, step) && Aligned(w) && !CleanSkip(w)
  }

  // The lines a step hands on, without the one that it splices.
  function OwnAdded(w: World, step: Step): seq<Bytes> {
    if !Feeds(w, step) then []
    else
      var lines := LinesOver(w, w.tick.data.value);
      if Splices(w, step) then Kept(lines[1..]) else Kept(lines)
  }

  function OwnHandedOn(w0: World, decode: Decoder, steps: seq<Step>): seq<Bytes> {
    if steps == [] then []
    else
      var n := |steps| - 1;
      OwnHandedOn(w0, decode, steps[..n]) + OwnAdded(Run(w0, decode, steps[..n]), steps[n])
  }

  function SplicingSkips(w0: World, decode: Decoder, steps: seq<Step>): nat {
    if steps == [] then 0
    else
      var n := |steps| - 1;
      SplicingSkips(w0, decode, steps[..n]) + if SplicingSkip(Run(w0, decode, steps[..n]), steps[n]) then 1 else 0
  }

  // A newline read puts the watcher back in step, whatever it held before.
  lemma NewlineHeals(w: World, decode: Decoder, step: Step)
    requires InPlace(w) && Feeds(w, step) && NEWLINE in w.tick.data.value
    ensures Aligned(Next(w, decode, step))
  {
    var data := w.tick.data.value;
    FeedingSees(w, decode, step);
    CarriedLines(w.tail.remainder, data);
    RemainderAfterNewline(Seen(w), data);
  }

  lemma LinesBehindTheFirst(seen: Bytes, held: Bytes, data: Bytes) returns (first: Bytes)
    requires NEWLINE !in held && NEWLINE in data
    ensures Lines(held + data) != []
    ensures Lines(seen + data) == Lines(seen) + [first] + Lines(held + data)[1..]
  {
    var carried := Remainder(seen);
    SplitFrames(seen);
    CarriedLines(held, data);
    CarriedLines(carried, data);
    SplitExtends(seen, data);
    var later := Lines(data)[1..];
    assert Lines(held + data)[1..] == later;
    first := carried + Lines(data)[0];
    assert Lines(seen + data) == Lines(seen) + [first] + later;
  }

  // ---------- Each splicing skip costs at most one line ----------

  ghost predicate AtMostSpliced(w: World, own: seq<Bytes>, skips: nat) {
    && Among(own, Lines(Seen(w))) && Among(own, w.lines)
    && |w.lines| + (if Aligned(w) then 0 else 1) <= |own| + skips
  }

  lemma AlignedFeed(w: World, decode: Decoder, step: Step, own: seq<Bytes>, skips: nat)
    requires InPlace(w) && Feeds(w, step) && Aligned(w) && AtMostSpliced(w, own, skips)
    ensures AtMostSpliced(Next(w, decode, step), own + OwnAdded(w, step), skips)
  {
    var data := w.tick.data.value;
    var lines := LinesOver(w, data);
    FeedingSees(w, decode, step);
    SeenOneStretchMore(w, data);
    KeptAreTheShortLines(lines);
    AmongConcat(own, Lines(Seen(w)), Kept(lines), lines);
    AmongItself(Kept(lines));
    AmongConcat(own, w.lines, Kept(lines), Kept(lines));
    OtherStepsStayAligned(w, decode, step);
  }

  lemma UnfinishedFeed(w: World, decode: Decoder, step: Step, own: seq<Bytes>, skips: nat)
    requires InPlace(w) && Feeds(w, step) && !Aligned(w) && !Splices(w, step) && AtMostSpliced(w, own, skips)
    ensures AtMostSpliced(Next(w, decode, step), own + OwnAdded(w, step), skips)
  {
    var data := w.tick.data.value;
    FeedingSees(w, decode, step);
    SplitExtends(Seen(w), data);
    AmongMore(own, Lines(Seen(w)), Lines(Remainder(Seen(w)) + data));
    assert own + [] == own && w.lines + [] == w.lines;
  }

  function KeptFirst(line: Bytes): (lines: seq<Bytes>)
    ensures |lines| <= 1
  {
    if |line| > MAX_LINE_BYTES then [] else [line]
  }

  lemma KeptBehindFirst(lines: seq<Bytes>)
    requires lines != []
    ensures Kept(lines) == KeptFirst(lines[0]) + Kept(lines[1..])
  {
    var rest := Kept(lines[1..]);
    if |lines[0]| > MAX_LINE_BYTES {
      assert Kept(lines) == rest;
      assert [] + rest == rest;
    } else {
      assert Kept(lines) == [lines[0]] + rest;
    }
  }

  lemma InThreeParts<T>(a: seq<T>, b: seq<T>, c: seq<T>)
    ensures a + (b + c) == a + b + c
  {
  }

  lemma KeptAfterFirst(handed: seq<Bytes>, lines: seq<Bytes>)
    requires lines != []
    ensures handed + Kept(lines) == handed + KeptFirst(lines[0]) + Kept(lines[1..])
  {
    KeptBehindFirst(lines);
    InThreeParts(handed, KeptFirst(lines[0]), Kept(lines[1..]));
  }

  // The first line of those finished is not counted as the file's own.
  lemma FirstIsLeftOut(own: seq<Bytes>, seen: seq<Bytes>, handed: seq<Bytes>, first: Bytes, lines: seq<Bytes>)
    requires Among(own, seen) && Among(own, handed) && lines != []
    ensures Among(own + Kept(lines[1..]), seen + [first] + lines[1..])
    ensures Among(own + Kept(lines[1..]), handed + KeptFirst(lines[0]) + Kept(lines[1..]))
  {
    KeptAreTheShortLines(lines[1..]);
    InsertedBetween(own, seen, [first], Kept(lines[1..]), lines[1..]);
    AmongItself(Kept(lines[1..]));
    InsertedBetween(own, handed, KeptFirst(lines[0]), Kept(lines[1..]), Kept(lines[1..]));
  }

  lemma SplicingHasNewline(w: World, step: Step)
    requires InPlace(w) && Splices(w, step)
    ensures NEWLINE in w.tick.data.value
  {
    var held, data := w.tail.remainder, w.tick.data.value;
    if NEWLINE !in data { NoLineWithoutNewline(held + data); }
  }

  lemma SplicingSees(w: World, decode: Decoder, step: Step) returns (first: Bytes)
    requires InPlace(w) && Splices(w, step)
    ensures var w', lines := Next(w, decode, step), LinesOver(w, w.tick.data.value);
            && Aligned(w') && lines != [] && OwnAdded(w, step) == Kept(lines[1..])
            && Lines(Seen(w')) == Lines(Seen(w)) + [first] + lines[1..]
            && w'.lines == w.lines + KeptFirst(lines[0]) + Kept(lines[1..])
  {
    var data, lines := w.tick.data.value, LinesOver(w, w.tick.data.value);
    SplicingHasNewline(w, step);
    FeedingSees(w, decode, step);
    NewlineHeals(w, decode, step);
    first := LinesBehindTheFirst(Seen(w), w.tail.remainder, data);
    KeptAfterFirst(w.lines, lines);
  }

  lemma SplicingFeed(w: World, decode: Decoder, step: Step, own: seq<Bytes>, skips: nat)
    requires InPlace(w) && Splices(w, step) && AtMostSpliced(w, own, skips)
    ensures AtMostSpliced(Next(w, decode, step), own + OwnAdded(w, step), skips)
  {
    var first := SplicingSees(w, decode, step);
    var w', lines := Next(w, decode, step), LinesOver(w, w.tick.data.value);
    FirstIsLeftOut(own, Lines(Seen(w)), w.lines, first, lines);
    assert |w'.lines| <= |w.lines| + 1 + |Kept(lines[1..])|;
  }

  lemma SkipSplices(w: World, decode: Decoder, step: Step, own: seq<Bytes>, skips: nat)
    requires InPlace(w) && SkipsAhead(w, step) && AtMostSpliced(w, own, skips)
    ensures AtMostSpliced(Next(w, decode, step), own, skips + if SplicingSkip(w, step) then 1 else 0)
  {
    SkippingSees(w, decode, step);
    SplitExtends(Seen(w), Skipped(w));
    AmongMore(own, Lines(Seen(w)), Lines(Remainder(Seen(w)) + Skipped(w)));
    if Aligned(w) { SkipAlignsExactlyWhenClean(w, decode, step); }
  }

  lemma StepSplices(w: World, decode: Decoder, step: Step, own: seq<Bytes>, skips: nat)
    requires InPlace(w) && AtMostSpliced(w, own, skips)
    ensures AtMostSpliced(Next(w, decode, step), own + OwnAdded(w, step), skips + if SplicingSkip(w, step) then 1 else 0)
  {
    if Splices(w, step) {
      SplicingFeed(w, decode, step, own, skips);
    } else if Feeds(w, step) {
      if Aligned(w) { AlignedFeed(w, decode, step, own, skips); } else { UnfinishedFeed(w, decode, step, own, skips); }
    } else {
      assert own + [] == own;
      if SkipsAhead(w, step) {
        SkipSplices(w, decode, step, own, skips);
      } else {
        OtherwiseSees(w, decode, step);
        if Aligned(w) { OtherStepsStayAligned(w, decode, step); }
      }
    }
  }

  // Over every run: but for the spliced ones, the lines handed on are, in order,
  // among the lines the file holds up to the offset; and at most one line is
  // spliced for each skip that put the watcher out of step.
  lemma {:induction false} EachUncleanSkipSplicesAtMostOneLine(decode: Decoder, found: bool, file: Bytes, statOk: bool, steps: seq<Step>)
    ensures var w0 := Start(found, file, statOk);
            var w, own := Run(w0, decode, steps), OwnHandedOn(w0, decode, steps);
            && Among(own, Lines(Seen(w))) && Among(own, w.lines)
            && |w.lines| <= |own| + SplicingSkips(w0, decode, steps)
            && (!Aligned(w) ==> |w.lines| < |own| + SplicingSkips(w0, decode, steps))
  {
    RunSplices(decode, found, file, statOk, steps);
  }

  lemma {:induction false} RunSplices(decode: Decoder, found: bool, file: Bytes, statOk: bool, steps: seq<Step>)
    ensures var w0 := Start(found, file, statOk);
            AtMostSpliced(Run(w0, decode, steps), OwnHandedOn(w0, decode, steps), SplicingSkips(w0, decode, steps))
  {
    var w0 := Start(found, file, statOk);
    if steps == [] {
      assert Seen(w0) == [] && Lines([]) == [];
    } else {
      var n := |steps| - 1;
      var before := Run(w0, decode, steps[..n]);
      RunSplices(decode, found, file, statOk, steps[..n]);
      StartIsSound(decode, found, file, statOk);
      RunIsSound(w0, decode, steps[..n]);
      SoundIsInPlace(before, decode);
      StepSplices(before, decode, steps[n], OwnHandedOn(w0, decode, steps[..n]), SplicingSkips(w0, decode, steps[..n]));
    }
  }
}
