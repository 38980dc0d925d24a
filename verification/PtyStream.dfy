/**
 Streaming the screen of a terminal session: each capture is cut into lines, and
 only lines beyond those already counted are shipped. Captures come with their
 escape sequences removed. The websocket and the queue streamer share this logic
 and differ in where a chunk goes.
 */
module PtyStream {
  import opened Wrappers
  import opened PyText
  import opened Screens

  datatype Frame = Output(text: string) | End

  /** One poll: what was captured, if the session was there, and whether a send would go through. */
  datatype Poll = Poll(capture: Option<string>, delivered: bool)

  datatype Stream = Stream(sentLines: nat, shipped: seq<string>)

  function LinesOf(capture: string): seq<string> {
    var content := RStrip(capture);
    if content == "" then [] else Split(content, '\n')
  }

  // The text put into a frame for a capture, unless there is nothing to send.
  function Chunk(sentLines: nat, capture: string): Option<string> {
    var lines := LinesOf(capture);
    if |lines| <= sentLines then None
    else
      var text := Join(lines[sentLines..], '\n');
      if Strip(text) == "" then None else Some(text)
  }

  function Next(s: Stream, poll: Poll): Stream {
    match poll.capture
    case None => s
    case Some(capture) =>
      var chunk := Chunk(s.sentLines, capture);
      Stream(|LinesOf(capture)|, if chunk.Some? && poll.delivered then s.shipped + [chunk.value] else s.shipped)
  }

  function Run(polls: seq<Poll>): Stream
    decreases |polls|
  {
    if polls == [] then Stream(0, [])
    else Next(Run(polls[..|polls| - 1]), polls[|polls| - 1])
  }

  function Outputs(texts: seq<string>): (frames: seq<Frame>)
    ensures |frames| == |texts| && forall i | 0 <= i < |texts| :: frames[i] == Output(texts[i])
  {
    seq(|texts|, i requires 0 <= i < |texts| => Output(texts[i]))
  }

  class PtyStreamer {
    var sentLines: nat
    var frames: seq<Frame>

    constructor ()
      ensures sentLines == 0 && frames == []
    {
      sentLines, frames := 0, [];
    }

    ghost predicate Shows(s: Stream)
      reads this
    {
      sentLines == s.sentLines && frames == Outputs(s.shipped)
    }

    method SendDiff(capture: string, delivered: bool, ghost before: Stream)
      requires Shows(before)
      modifies this
      ensures Shows(Next(before, Poll(Some(capture), delivered)))
    {
      var content := RStrip(capture);
      var lines := if content == "" then [] else Split(content, '\n');
      assert lines == LinesOf(capture);
      if |lines| < sentLines {
        sentLines := |lines|;
        return;
      }
      var newLines := lines[sentLines..];
      ghost var chunk := Chunk(sentLines, capture);
      if newLines != [] {
        var text := Join(newLines, '\n');
        assert chunk == if Strip(text) == "" then None else Some(text);
        if Strip(text) != "" {
          if delivered {
            frames := frames + [Output(text)];
            assert frames == Outputs(before.shipped + [text]);
          }
        }
      } else {
        assert chunk == None;
      }
      sentLines := |lines|;
    }

    // The last poll is the one made after the session has gone.
    method StreamOutput(polls: seq<Poll>, endDelivered: bool)
      requires sentLines == 0 && frames == []
      modifies this
      ensures frames == Outputs(Run(polls).shipped) + if endDelivered then [End] else []
    {
      for i := 0 to |polls|
        invariant Shows(Run(polls[..i]))
      {
        assert polls[..i + 1][..i] == polls[..i];
        if polls[i].capture.Some? {
          SendDiff(polls[i].capture.value, polls[i].delivered, Run(polls[..i]));
        }
      }
      assert polls[..|polls|] == polls;
      if endDelivered {
        frames := frames + [End];
      }
    }
  }

  // ---------- The guard against blank chunks ----------

  lemma {:induction false} LStripKeepsEnd(s: string)
    requires s != "" && !IsSpace(s[|s| - 1])
    ensures LStrip(s) != ""
  {
    if IsSpace(s[0]) {
      LStripKeepsEnd(s[1..]);
    }
  }

  lemma {:induction false} RStripKeepsStart(s: string)
    requires s != "" && !IsSpace(s[0])
    ensures RStrip(s) != ""
  {
    if IsSpace(s[|s| - 1]) {
      RStripKeepsStart(s[..|s| - 1]);
    }
  }

  lemma NotBlank(s: string)
    requires s != "" && !IsSpace(s[|s| - 1])
    ensures Strip(s) != ""
  {
    LStripKeepsEnd(s);
    RStripKeepsStart(LStrip(s));
  }

  lemma {:induction false} JoinEnds(lines: seq<string>)
    requires lines != [] && lines[|lines| - 1] != ""
    ensures var text, last := Join(lines, '\n'), lines[|lines| - 1];
            text != "" && text[|text| - 1] == last[|last| - 1]
  {
    if |lines| > 1 {
      JoinEnds(lines[1..]);
    }
  }

  lemma {:induction false} LastPieceEnds(s: string)
    requires s != "" && s[|s| - 1] != '\n'
    ensures var pieces := Split(s, '\n'); pieces[|pieces| - 1] != ""
  {
    if |s| > 1 {
      LastPieceEnds(s[1..]);
    } else {
      assert s[1..] == "";
    }
  }

  // New lines always give a chunk: the last of them is not blank.
  lemma NoNewLineIsHeldBack(sentLines: nat, capture: string)
    requires sentLines < |LinesOf(capture)|
    ensures Chunk(sentLines, capture) == Some(Join(LinesOf(capture)[sentLines..], '\n'))
  {
    var content, lines := RStrip(capture), LinesOf(capture);
    var newLines := lines[sentLines..];
    JoinOfSplit(content, '\n');
    LastPieceEnds(content);
    JoinEnds(lines);
    JoinEnds(newLines);
    NotBlank(Join(newLines, '\n'));
  }

  // ---------- What has been shipped ----------

  // Every poll finds the session; some sends may fail.
  function Polls(captures: seq<string>, delivered: seq<bool>): (polls: seq<Poll>)
    requires |captures| == |delivered|
    ensures |polls| == |captures|
    ensures forall i | 0 <= i < |captures| :: polls[i] == Poll(Some(captures[i]), delivered[i])
  {
    seq(|captures|, i requires 0 <= i < |captures| => Poll(Some(captures[i]), delivered[i]))
  }

  function Always(n: nat): (delivered: seq<bool>)
    ensures |delivered| == n && forall i | 0 <= i < n :: delivered[i]
  {
    seq(n, _ => true)
  }

  function Delivered(captures: seq<string>): seq<Poll> {
    Polls(captures, Always(|captures|))
  }

  // The captures as lists of lines.
  function ScreensOf(captures: seq<string>): (screens: seq<seq<string>>)
    ensures |screens| == |captures|
    ensures forall i | 0 <= i < |captures| :: screens[i] == LinesOf(captures[i])
  {
    seq(|captures|, i requires 0 <= i < |captures| => LinesOf(captures[i]))
  }

  lemma {:induction false} JoinConcat(a: seq<string>, b: seq<string>)
    requires a != [] && b != []
    ensures Join(a + b, '\n') == Join(a, '\n') + "\n" + Join(b, '\n')
  {
    if |a| == 1 {
      assert (a + b)[1..] == b;
    } else {
      assert (a + b)[1..] == a[1..] + b;
      JoinConcat(a[1..], b);
    }
  }

  lemma OneMoreChunk(s: Stream, capture: string, delivered: bool)
    ensures var lines, after := LinesOf(capture), Next(s, Poll(Some(capture), delivered));
            && after.sentLines == |lines|
            && (s.sentLines >= |lines| || !delivered ==> after.shipped == s.shipped)
            && (s.sentLines < |lines| && delivered ==> after.shipped == s.shipped + [Join(lines[s.sentLines..], '\n')])
  {
    if s.sentLines < |LinesOf(capture)| {
      NoNewLineIsHeldBack(s.sentLines, capture);
    }
  }

  lemma RunOneMore(polls: seq<Poll>, k: nat)
    requires k < |polls|
    ensures Run(polls[..k + 1]) == Next(Run(polls[..k]), polls[k])
  {
    assert polls[..k + 1][..k] == polls[..k];
  }

  // The shipped chunks are those lines.
  predicate Ships(shipped: seq<string>, lines: seq<string>) {
    Join(shipped, '\n') == Join(lines, '\n') && (shipped == [] <==> lines == [])
  }

  lemma ShipsMore(shipped: seq<string>, lines: seq<string>, newest: seq<string>)
    requires Ships(shipped, lines) && newest != []
    ensures Ships(shipped + [Join(newest, '\n')], lines + newest)
  {
    var chunk := Join(newest, '\n');
    if lines == [] {
      assert shipped + [chunk] == [chunk] && lines + newest == newest;
    } else {
      JoinConcat(shipped, [chunk]);
      JoinConcat(lines, newest);
    }
  }

  lemma ShipsNext(s: Stream, capture: string, delivered: bool, all: seq<string>)
    requires Ships(s.shipped, all)
    ensures var lines, after := LinesOf(capture), Next(s, Poll(Some(capture), delivered));
            && after.sentLines == |lines|
            && (s.sentLines < |lines| && delivered ==> Ships(after.shipped, all + lines[s.sentLines..]))
            && (s.sentLines >= |lines| || !delivered ==> Ships(after.shipped, all))
  {
    OneMoreChunk(s, capture, delivered);
    if s.sentLines < |LinesOf(capture)| && delivered {
      ShipsMore(s.shipped, all, LinesOf(capture)[s.sentLines..]);
    }
  }

  lemma PickedNext(screens: seq<seq<string>>, delivered: seq<bool>, m: nat)
    requires m < |screens| == |delivered|
    ensures Counted(screens, m + 1) == |screens[m]|
    ensures PickedAppeared(screens, delivered, m + 1) ==
            if Counted(screens, m) < |screens[m]| && delivered[m]
            then PickedAppeared(screens, delivered, m) + screens[m][Counted(screens, m)..]
            else PickedAppeared(screens, delivered, m)
  {
    var before := PickedAppeared(screens, delivered, m);
    assert before + [] == before;
  }

  lemma ShippedOneMore(s: Stream, capture: string, screens: seq<seq<string>>, delivered: seq<bool>, m: nat)
    requires m < |screens| == |delivered| && screens[m] == LinesOf(capture)
    requires s.sentLines == Counted(screens, m) && Ships(s.shipped, PickedAppeared(screens, delivered, m))
    ensures var after := Next(s, Poll(Some(capture), delivered[m]));
            after.sentLines == Counted(screens, m + 1) && Ships(after.shipped, PickedAppeared(screens, delivered, m + 1))
  {
    ShipsNext(s, capture, delivered[m], PickedAppeared(screens, delivered, m));
    PickedNext(screens, delivered, m);
  }

  // Whichever sends fail: the chunks shipped are the lines that appeared at the
  // polls whose sends went through; the counter is the last capture's length.
  lemma {:induction false} ShippedIsPicked(captures: seq<string>, delivered: seq<bool>, screens: seq<seq<string>>, k: nat)
    requires k <= |captures| == |delivered| && screens == ScreensOf(captures)
    ensures var s := Run(Polls(captures, delivered)[..k]);
            s.sentLines == Counted(screens, k) && Ships(s.shipped, PickedAppeared(screens, delivered, k))
  {
    if k > 0 {
      var m, polls := k - 1, Polls(captures, delivered);
      assert k == m + 1;
      ShippedIsPicked(captures, delivered, screens, m);
      RunOneMore(polls, m);
      ShippedOneMore(Run(polls[..m]), captures[m], screens, delivered, m);
    }
  }

  // With every send going through, that is every line that appeared.
  lemma ShippedIsAppeared(captures: seq<string>, screens: seq<seq<string>>, k: nat)
    requires k <= |captures| && screens == ScreensOf(captures)
    ensures var s := Run(Delivered(captures)[..k]);
            s.sentLines == Counted(screens, k) && Ships(s.shipped, AllAppeared(screens, k))
  {
    var delivered := Always(|captures|);
    ShippedIsPicked(captures, delivered, screens, k);
    NothingMissedIsAll(screens, delivered, k);
  }

  lemma {:induction false} PiecesHaveNoSeparator(s: string, c: char)
    ensures forall i | 0 <= i < |Split(s, c)| :: c !in Split(s, c)[i]
  {
    if s != "" {
      PiecesHaveNoSeparator(s[1..], c);
    }
  }

  // ---------- When that is the final screen ----------

  function FinalText(captures: seq<string>): string {
    if captures == [] then "" else RStrip(captures[|captures| - 1])
  }

  lemma LinesHaveNoNewline(capture: string)
    ensures forall i | 0 <= i < |LinesOf(capture)| :: '\n' !in LinesOf(capture)[i]
    ensures Join(LinesOf(capture), '\n') == RStrip(capture)
    ensures LinesOf(capture) != [] ==> LinesOf(capture)[|LinesOf(capture)| - 1] != ""
  {
    var content := RStrip(capture);
    if content != "" {
      PiecesHaveNoSeparator(content, '\n');
      JoinOfSplit(content, '\n');
      LastPieceEnds(content);
    }
  }

  predicate Clean(lines: seq<string>) {
    && (forall i | 0 <= i < |lines| :: '\n' !in lines[i])
    && (lines != [] ==> lines[|lines| - 1] != "")
  }

  lemma CleanConcat(a: seq<string>, lines: seq<string>, k: nat)
    requires Clean(a) && Clean(lines) && k <= |lines|
    ensures Clean(a + lines[k..])
  {
    var all := a + lines[k..];
    forall i | 0 <= i < |all| ensures '\n' !in all[i] {
      if i >= |a| {
        assert all[i] == lines[k + i - |a|];
      }
    }
  }

  lemma {:induction false} PickedAreClean(screens: seq<seq<string>>, delivered: seq<bool>, n: nat)
    requires n <= |screens| == |delivered| && forall k | 0 <= k < |screens| :: Clean(screens[k])
    ensures Clean(PickedAppeared(screens, delivered, n))
  {
    if n > 0 {
      var m := n - 1;
      PickedAreClean(screens, delivered, m);
      var lines, counted := screens[m], Counted(screens, m);
      var k := if counted < |lines| && delivered[m] then counted else |lines|;
      assert n == m + 1;
      CleanConcat(PickedAppeared(screens, delivered, m), lines, k);
      PickedNext(screens, delivered, m);
      if k == |lines| { assert PickedAppeared(screens, delivered, m) + lines[k..] == PickedAppeared(screens, delivered, m); }
    }
  }

  // Lists of lines are told apart by their text.
  lemma SameTextSameLines(a: seq<string>, b: seq<string>)
    requires Clean(a) && Clean(b)
    ensures Join(a, '\n') == Join(b, '\n') <==> a == b
  {
    if a != [] { CleanIsNotBlank(a); }
    if b != [] { CleanIsNotBlank(b); }
  }

  lemma CleanIsNotBlank(lines: seq<string>)
    requires Clean(lines) && lines != []
    ensures Join(lines, '\n') != "" && Split(Join(lines, '\n'), '\n') == lines
  {
    SplitOfJoin(lines, '\n');
    JoinEnds(lines);
  }

  lemma ShippedText(captures: seq<string>, delivered: seq<bool>)
    requires |captures| == |delivered|
    ensures var screens := ScreensOf(captures);
            Join(Run(Polls(captures, delivered)).shipped, '\n') == Join(PickedAppeared(screens, delivered, |screens|), '\n')
  {
    ShippedIsPicked(captures, delivered, ScreensOf(captures), |captures|);
    var polls := Polls(captures, delivered);
    assert polls[..|captures|] == polls;
  }

  lemma ScreensAreClean(captures: seq<string>)
    ensures forall k | 0 <= k < |captures| :: Clean(ScreensOf(captures)[k])
  {
    forall k | 0 <= k < |captures| ensures Clean(ScreensOf(captures)[k]) { LinesHaveNoNewline(captures[k]); }
  }

  lemma LastScreenText(captures: seq<string>)
    ensures Join(Last(ScreensOf(captures)), '\n') == FinalText(captures) && Clean(Last(ScreensOf(captures)))
  {
    if captures != [] {
      LinesHaveNoNewline(captures[|captures| - 1]);
      ScreensAreClean(captures);
    }
  }

  lemma ShippedIsFinalExactlyWhenPickedIsLast(captures: seq<string>, delivered: seq<bool>)
    requires |captures| == |delivered|
    ensures var screens := ScreensOf(captures);
            Join(Run(Polls(captures, delivered)).shipped, '\n') == FinalText(captures)
            <==> PickedAppeared(screens, delivered, |screens|) == Last(screens)
  {
    var screens := ScreensOf(captures);
    ShippedText(captures, delivered);
    LastScreenText(captures);
    ScreensAreClean(captures);
    PickedAreClean(screens, delivered, |captures|);
    SameTextSameLines(PickedAppeared(screens, delivered, |captures|), Last(screens));
  }

  // With every send going through, the chunks joined by newlines are the final
  // screen exactly when no capture lost lines and no line changed after it appeared.
  lemma ShippedIsFinalScreenExactlyWhenLinesStay(captures: seq<string>)
    ensures Join(Run(Delivered(captures)).shipped, '\n') == FinalText(captures)
            <==> NeverShrinks(ScreensOf(captures), |captures|) && LinesStay(ScreensOf(captures))
  {
    var screens, delivered := ScreensOf(captures), Always(|captures|);
    ShippedIsFinalExactlyWhenPickedIsLast(captures, delivered);
    NothingMissedIsAll(screens, delivered, |screens|);
    AppearedIsLast(screens);
  }

  // A send that fails is counted like any other: while no capture loses lines, the
  // chunks are the final screen exactly when no send of new lines failed and no
  // line changed after it appeared.
  lemma FailedSendIsNeverMadeUp(captures: seq<string>, delivered: seq<bool>)
    requires |captures| == |delivered| && NeverShrinks(ScreensOf(captures), |captures|)
    ensures Join(Run(Polls(captures, delivered)).shipped, '\n') == FinalText(captures)
            <==> MissesNothing(ScreensOf(captures), delivered, |captures|) && LinesStay(ScreensOf(captures))
  {
    ShippedIsFinalExactlyWhenPickedIsLast(captures, delivered);
    PickedIsLast(ScreensOf(captures), delivered);
  }

  // So captures that extend one another line by line come through whole.
  lemma GrowingScreenComesThrough(captures: seq<string>)
    requires forall j: nat, k: nat | j <= k < |captures| :: LinesOf(captures[j]) <= LinesOf(captures[k])
    ensures Join(Run(Delivered(captures)).shipped, '\n') == FinalText(captures)
  {
    GrowingScreensStay(ScreensOf(captures));
    ShippedIsFinalScreenExactlyWhenLinesStay(captures);
  }

  // Polls that find no session change nothing.
  function Captured(polls: seq<Poll>): seq<Poll>
    decreases |polls|
  {
    if polls == [] then []
    else
      var n := |polls| - 1;
      if polls[n].capture.Some? then Captured(polls[..n]) + [polls[n]] else Captured(polls[..n])
  }

  lemma {:induction false} MissedPollsDoNotMatter(polls: seq<Poll>)
    ensures Run(polls) == Run(Captured(polls))
    decreases |polls|
  {
    if polls != [] {
      var n := |polls| - 1;
      MissedPollsDoNotMatter(polls[..n]);
      if polls[n].capture.Some? {
        assert Captured(polls)[..|Captured(polls[..n])|] == Captured(polls[..n]);
      }
    }
  }

  // A screen of one line with no blanks at its end.
  predicate OneLine(a: string) {
    a != "" && '\n' !in a && !IsSpace(a[|a| - 1])
  }

  lemma OneLineScreen(a: string)
    requires OneLine(a)
    ensures LinesOf(a) == [a] && RStrip(a) == a
  {
    SplitWhole(a, '\n');
  }

  lemma OneLineChunk(a: string)
    requires OneLine(a)
    ensures Next(Stream(0, []), Poll(Some(a), true)) == Stream(1, [a])
  {
    OneLineScreen(a);
    NoNewLineIsHeldBack(0, a);
    assert LinesOf(a)[0..] == [a] && [] + [a] == [a];
  }

  lemma NothingNew(a: string, shipped: seq<string>)
    requires OneLine(a)
    ensures Next(Stream(1, shipped), Poll(Some(a), true)) == Stream(1, shipped)
  {
    OneLineScreen(a);
  }

  // A last line still being written when captured is never completed.
  lemma GrowingLineIsCutShort(a: string, more: string)
    requires OneLine(a) && OneLine(more)
    ensures Run(Delivered([a, a + more])).shipped == [a] && FinalText([a, a + more]) == a + more
  {
    var polls := Delivered([a, a + more]);
    OneLineChunk(a);
    NothingNew(a + more, [a]);
    OneLineScreen(a + more);
    assert polls[..1][..0] == [];
    assert Run(polls[..1]) == Stream(1, [a]);
  }

  // A capture of nothing between two others hides that the first was never sent.
  lemma ShrinkingHidesAFailedSend(a: string, b: string)
    requires OneLine(a) && OneLine(b)
    ensures var captures, delivered := [a, "", b], [false, true, true];
            && MissesAt(ScreensOf(captures), delivered, 0)
            && Run(Polls(captures, delivered)).shipped == [b] && FinalText(captures) == b
  {
    var captures, delivered := [a, "", b], [false, true, true];
    var polls := Polls(captures, delivered);
    OneLineScreen(a);
    OneLineScreen(b);
    OneLineChunk(b);
    assert LinesOf("") == [];
    assert polls[..0] == [] && polls[..3] == polls;
    RunOneMore(polls, 0);
    RunOneMore(polls, 1);
    RunOneMore(polls, 2);
    assert Run(polls[..1]) == Stream(1, []);
    assert Run(polls[..2]) == Stream(0, []);
  }
}
