/**
 OfflineQueue: events kept on disk, one JSON record a line. The JSON encoder and
 parser are functions given from outside that obey the laws below.
 */
module OfflineQueue {
  import opened Wrappers
  import opened PyText

  /** An event, known by the number it was accepted under and its size once encoded. */
  datatype Event = Event(id: nat, bytes: nat)

  /** The first k characters of an event's encoding. */
  datatype Cut = Cut(event: Event, k: nat)

  /** decode gives None for text json.loads rejects. */
  datatype Codec = Codec(encode: Event -> string, decode: string -> Option<Event>)
  {
    ghost predicate Lawful() {
      && (forall e :: RecordIsALine(e) && decode(encode(e)) == Some(e))
      && (forall cuts :: Broken(cuts) ==> decode(Strip(RunOn(cuts))) == None)
    }

    // An encoded object holds no raw control character (section 7 of RFC 8259)
    // and begins and ends with a brace.
    ghost predicate RecordIsALine(e: Event) {
      var s := encode(e);
      s != "" && !IsSpace(s[0]) && !IsSpace(s[|s| - 1]) && '\n' !in s && '\r' !in s
    }

    predicate Fits(cut: Cut) {
      0 < cut.k <= |encode(cut.event)|
    }

    // Pieces of records run together on one line.
    function RunOn(cuts: seq<Cut>): string {
      if cuts == [] then ""
      else
        var last := cuts[|cuts| - 1];
        RunOn(cuts[..|cuts| - 1]) + if Fits(last) then encode(last.event)[..last.k] else ""
    }

    predicate Pieces(cuts: seq<Cut>) {
      forall i | 0 <= i < |cuts| :: Fits(cuts[i])
    }

    // One record cut short, or more than one piece on a line: no JSON text.
    predicate Broken(cuts: seq<Cut>) {
      Pieces(cuts) && cuts != [] && (|cuts| == 1 ==> cuts[0].k < |encode(cuts[0].event)|)
    }
  }

  // ---------- Reading and writing ----------

  function RecordIn(codec: Codec, piece: string): seq<Event> {
    var s := Strip(piece);
    if s == "" then []
    else match codec.decode(s) case None => [] case Some(e) => [e]
  }

  function RecordsIn(codec: Codec, pieces: seq<string>): seq<Event> {
    if pieces == [] then [] else RecordIn(codec, pieces[0]) + RecordsIn(codec, pieces[1..])
  }

  // _read_all
  function ReadAll(codec: Codec, file: Option<string>): seq<Event> {
    if file.None? then [] else RecordsIn(codec, Split(ReadText(file.value), '\n'))
  }

  function Record(codec: Codec, e: Event): string {
    codec.encode(e) + "\n"
  }

  function WriteAll(codec: Codec, events: seq<Event>): string {
    if events == [] then "" else Record(codec, events[0]) + WriteAll(codec, events[1..])
  }

  function Enqueued(codec: Codec, file: Option<string>, e: Event): string {
    (if file.Some? then file.value else "") + Record(codec, e)
  }

  // How many events are sent before the first that fails.
  function SentCount(n: nat, succeeds: nat -> bool, from: nat): (k: nat)
    requires from <= n
    ensures from <= k <= n
    ensures forall i | from <= i < k :: succeeds(i)
    ensures k < n ==> !succeeds(k)
    decreases n - from
  {
    if from == n || !succeeds(from) then from else SentCount(n, succeeds, from + 1)
  }

  // The file drain leaves behind.
  function Drained(codec: Codec, file: Option<string>, succeeds: nat -> bool): Option<string> {
    var events := ReadAll(codec, file);
    var k := SentCount(|events|, succeeds, 0);
    if events == [] then file
    else if k == |events| then None
    else Some(WriteAll(codec, events[k..]))
  }

  class Queue {
    const codec: Codec
    var file: Option<string>

    constructor (codec: Codec, file: Option<string>)
      ensures this.codec == codec && this.file == file
    {
      this.codec, this.file := codec, file;
    }

    method Load() returns (events: seq<Event>)
      ensures events == ReadAll(codec, file)
    {
      events := [];
      if file.None? {
        return;
      }
      var pieces := Split(ReadText(file.value), '\n');
      var i := 0;
      while i < |pieces|
        invariant i <= |pieces|
        invariant events + RecordsIn(codec, pieces[i..]) == RecordsIn(codec, pieces)
      {
        assert pieces[i..][0] == pieces[i] && pieces[i..][1..] == pieces[i + 1..];
        Associate(events, RecordIn(codec, pieces[i]), RecordsIn(codec, pieces[i + 1..]));
        events := events + RecordIn(codec, pieces[i]);
        i := i + 1;
      }
    }

    method Rewrite(events: seq<Event>)
      modifies this
      ensures file == Some(WriteAll(codec, events))
    {
      var text := "";
      var i := 0;
      while i < |events|
        invariant i <= |events|
        invariant text + WriteAll(codec, events[i..]) == WriteAll(codec, events)
        invariant unchanged(this)
      {
        assert events[i..][1..] == events[i + 1..];
        text := text + Record(codec, events[i]);
        i := i + 1;
      }
      assert events[i..] == [] && text + "" == text;
      file := Some(text);
    }

    // unlink, if the file is there
    method Remove()
      modifies this
      ensures file == None
    {
      file := None;
    }

    method Enqueue(e: Event)
      modifies this
      ensures file == Some(Enqueued(codec, old(file), e))
    {
      if file.None? {
        file := Some("");
      }
      file := Some(file.value + (codec.encode(e) + "\n"));
    }

    method Drain(succeeds: nat -> bool) returns (sent: seq<Event>)
      modifies this
      ensures file == Drained(codec, old(file), succeeds)
      ensures var events := ReadAll(codec, old(file));
              sent == events[..SentCount(|events|, succeeds, 0)]
    {
      var events := Load();
      sent := [];
      if events == [] {
        return;
      }
      var i := 0;
      while i < |events|
        invariant i <= |events| && sent == events[..i]
        invariant SentCount(|events|, succeeds, i) == SentCount(|events|, succeeds, 0)
        invariant unchanged(this)
      {
        if succeeds(i) {
          sent := sent + [events[i]];
        } else {
          Rewrite(events[i..]);
          return;
        }
        i := i + 1;
      }
      Remove();
    }
  }

  // ---------- Round trips ----------

  // A text whose last line is finished.
  predicate AtLineStart(text: string) {
    text == "" || text[|text| - 1] == '\n'
  }

  // A text of finished lines: its pieces, and then an empty one.
  lemma PiecesAfterLine(a: string, b: string) returns (finished: seq<string>)
    requires AtLineStart(a)
    ensures Split(a, '\n') == finished + [""]
    ensures Split(a + b, '\n') == finished + Split(b, '\n')
  {
    if a == "" {
      finished := [];
      assert a + b == b;
    } else {
      var front := a[..|a| - 1];
      finished := Split(front, '\n');
      assert a == front + ['\n'] + "";
      SplitAtSeparator(front, '\n', "");
      SplitAtSeparator(front, '\n', b);
      assert a + b == front + ['\n'] + b;
    }
  }

  lemma {:induction false} ReadTextConcat(a: string, b: string)
    requires a == "" || a[|a| - 1] != '\r'
    ensures ReadText(a + b) == ReadText(a) + ReadText(b)
    ensures AtLineStart(a) ==> AtLineStart(ReadText(a))
  {
    if a == "" {
      assert a + b == b;
    } else {
      assert (a + b)[1..] == a[1..] + b;
      ReadTextConcat(a[1..], b);
    }
  }

  lemma FewPieces(codec: Codec, s: string)
    ensures RecordsIn(codec, [""]) == []
    ensures RecordsIn(codec, [s]) == RecordIn(codec, s)
    ensures RecordsIn(codec, [s, ""]) == RecordIn(codec, s)
  {
    assert [""][1..] == [] && [s][1..] == [] && [s, ""][1..] == [""];
  }

  lemma Associate(a: seq<Event>, b: seq<Event>, c: seq<Event>)
    ensures a + (b + c) == (a + b) + c
  {
  }

  // The empty piece after a finished line holds no record.
  lemma {:induction false} RecordsOfParts(codec: Codec, lines: seq<string>, more: seq<string>)
    ensures RecordsIn(codec, lines + more) == RecordsIn(codec, lines + [""]) + RecordsIn(codec, more)
  {
    if lines == [] {
      assert lines + more == more && lines + [""] == [""];
      FewPieces(codec, "");
    } else {
      RecordsOfParts(codec, lines[1..], more);
      assert (lines + more)[1..] == lines[1..] + more;
      assert (lines + [""])[1..] == lines[1..] + [""];
      Associate(RecordIn(codec, lines[0]), RecordsIn(codec, lines[1..] + [""]), RecordsIn(codec, more));
    }
  }

  lemma RecordsAfterLine(codec: Codec, a: string, b: string)
    requires AtLineStart(a)
    ensures RecordsIn(codec, Split(a + b, '\n')) == RecordsIn(codec, Split(a, '\n')) + RecordsIn(codec, Split(b, '\n'))
  {
    var finished := PiecesAfterLine(a, b);
    RecordsOfParts(codec, finished, Split(b, '\n'));
  }

  // What follows a finished line is read on its own.
  lemma ReadAfterLine(codec: Codec, text: string, more: string)
    requires AtLineStart(text) && '\r' !in more
    ensures ReadAll(codec, Some(text + more)) == ReadAll(codec, Some(text)) + RecordsIn(codec, Split(more, '\n'))
  {
    ReadTextConcat(text, more);
    ReadTextIsIdentity(more);
    RecordsAfterLine(codec, ReadText(text), more);
  }

  lemma OneRecord(codec: Codec, e: Event)
    requires codec.Lawful()
    ensures RecordsIn(codec, Split(codec.encode(e), '\n')) == [e]
    ensures RecordsIn(codec, Split(Record(codec, e), '\n')) == [e]
    ensures AtLineStart(Record(codec, e)) && '\r' !in Record(codec, e)
  {
    var s := codec.encode(e);
    assert codec.RecordIsALine(e);
    StripKeeps(s);
    SplitWhole(s, '\n');
    PieceThenLine(s);
    FewPieces(codec, s);
  }

  lemma {:induction false} PieceThenLine(s: string)
    requires '\n' !in s
    ensures Split(s + "\n", '\n') == [s, ""]
  {
    if s == "" {
      assert s + "\n" == "\n" && "\n"[1..] == "";
    } else {
      PieceThenLine(s[1..]);
      assert (s + "\n")[1..] == s[1..] + "\n";
      assert s == [s[0]] + s[1..];
    }
  }

  // ---------- Main results ----------

  lemma {:induction false} WriteAllIsLines(codec: Codec, events: seq<Event>)
    requires codec.Lawful()
    ensures AtLineStart(WriteAll(codec, events)) && '\r' !in WriteAll(codec, events)
  {
    if events != [] {
      WriteAllIsLines(codec, events[1..]);
      OneRecord(codec, events[0]);
    }
  }

  // A rewritten file reads back as the events written.
  lemma {:induction false} RewriteReadsBack(codec: Codec, events: seq<Event>)
    requires codec.Lawful()
    ensures ReadAll(codec, Some(WriteAll(codec, events))) == events
  {
    FewPieces(codec, "");
    if events != [] {
      RewriteReadsBack(codec, events[1..]);
      WriteAllIsLines(codec, events[1..]);
      FirstRecordReadsBack(codec, events[0], WriteAll(codec, events[1..]));
      assert events == [events[0]] + events[1..];
    }
  }

  lemma FirstRecordReadsBack(codec: Codec, e: Event, rest: string)
    requires codec.Lawful() && '\r' !in rest
    ensures ReadAll(codec, Some(Record(codec, e) + rest)) == [e] + ReadAll(codec, Some(rest))
  {
    OneRecord(codec, e);
    ReadTextIsIdentity(rest);
    ReadTextIsIdentity(Record(codec, e));
    ReadAfterLine(codec, Record(codec, e), rest);
  }

  // What a line says: an event's encoding with blanks around it, or text that is no
  // JSON, or nothing.
  predicate LineSays(line: string, ink: string, a: string, b: string) {
    line == a + ink + b && Blank(a) && Blank(b) && Tight(ink)
  }

  ghost predicate LineHolds(codec: Codec, line: string, event: Option<Event>) {
    exists ink, a, b :: LineSays(line, ink, a, b) && event == if ink == "" then None else codec.decode(ink)
  }

  function SomeOf(events: seq<Option<Event>>): seq<Event> {
    if events == [] then []
    else if events[0].None? then SomeOf(events[1..])
    else [events[0].value] + SomeOf(events[1..])
  }

  lemma LineReads(codec: Codec, line: string, event: Option<Event>)
    requires LineHolds(codec, line, event)
    ensures RecordIn(codec, line) == if event.Some? then [event.value] else []
  {
    var ink, a, b :| LineSays(line, ink, a, b) && event == if ink == "" then None else codec.decode(ink);
    StripOf(a, ink, b);
  }

  lemma {:induction false} LinesRead(codec: Codec, lines: seq<string>, events: seq<Option<Event>>)
    requires |lines| == |events| && forall i | 0 <= i < |lines| :: LineHolds(codec, lines[i], events[i])
    ensures RecordsIn(codec, lines) == SomeOf(events)
  {
    if lines != [] {
      assert LineHolds(codec, lines[0], events[0]);
      LineReads(codec, lines[0], events[0]);
      LinesRead(codec, lines[1..], events[1..]);
      assert [] + SomeOf(events[1..]) == SomeOf(events[1..]);
    }
  }

  // _read_all on any file of lines: the events of the lines that hold one, in order,
  // whatever blanks stand around them; the other lines are passed over.
  lemma ReadsTheLinesThatDecode(codec: Codec, lines: seq<string>, events: seq<Option<Event>>)
    requires lines != [] && |lines| == |events|
    requires forall i | 0 <= i < |lines| :: '\n' !in lines[i] && '\r' !in lines[i] && LineHolds(codec, lines[i], events[i])
    ensures ReadAll(codec, Some(Join(lines, '\n'))) == SomeOf(events)
  {
    JoinHasNone(lines, '\r');
    ReadTextIsIdentity(Join(lines, '\n'));
    SplitOfJoin(lines, '\n');
    LinesRead(codec, lines, events);
  }

  lemma {:induction false} JoinHasNone(lines: seq<string>, c: char)
    requires c != '\n' && forall i | 0 <= i < |lines| :: c !in lines[i]
    ensures c !in Join(lines, '\n')
  {
    if |lines| > 1 {
      JoinHasNone(lines[1..], c);
      var first, rest := lines[0] + ['\n'], Join(lines[1..], '\n');
      assert Join(lines, '\n') == first + rest;
    }
  }

  function Encodings(codec: Codec, events: seq<Event>): (lines: seq<string>)
    ensures |lines| == |events| && forall i | 0 <= i < |events| :: lines[i] == codec.encode(events[i])
  {
    seq(|events|, i requires 0 <= i < |events| => codec.encode(events[i]))
  }

  // A rewritten file is one encoding a line, each line finished, and nothing else.
  lemma {:induction false} RewriteIsOneRecordALine(codec: Codec, events: seq<Event>)
    requires codec.Lawful()
    ensures Split(WriteAll(codec, events), '\n') == Encodings(codec, events) + [""]
  {
    if events != [] {
      var line, rest := codec.encode(events[0]), WriteAll(codec, events[1..]);
      RewriteIsOneRecordALine(codec, events[1..]);
      assert codec.RecordIsALine(events[0]);
      SplitAtSeparator(line, '\n', rest);
      SplitWhole(line, '\n');
      assert WriteAll(codec, events) == line + ['\n'] + rest;
      assert Encodings(codec, events) == [line] + Encodings(codec, events[1..]);
    }
  }

  // enqueue adds one event at the end, whatever the finished lines before it hold.
  lemma EnqueueAppends(codec: Codec, file: Option<string>, e: Event)
    requires codec.Lawful() && (file.Some? ==> AtLineStart(file.value))
    ensures ReadAll(codec, Some(Enqueued(codec, file, e))) == ReadAll(codec, file) + [e]
    ensures AtLineStart(Enqueued(codec, file, e))
  {
    var text := if file.Some? then file.value else "";
    OneRecord(codec, e);
    ReadAfterLine(codec, text, Record(codec, e));
    FewPieces(codec, "");
  }

  // drain leaves exactly the events from the first failed send on.
  lemma DrainLeavesTheRest(codec: Codec, file: Option<string>, succeeds: nat -> bool)
    requires codec.Lawful()
    ensures var events := ReadAll(codec, file);
            && ReadAll(codec, Drained(codec, file, succeeds)) == events[SentCount(|events|, succeeds, 0)..]
            && (events == [] ==> Drained(codec, file, succeeds) == file)
            && (events != [] ==> (Drained(codec, file, succeeds) == None <==> forall i | 0 <= i < |events| :: succeeds(i)))
  {
    var events := ReadAll(codec, file);
    RewriteReadsBack(codec, events[SentCount(|events|, succeeds, 0)..]);
  }

  // ---------- A crash inside enqueue ----------

  // The file when only the first k characters of the record reached it.
  function Torn(codec: Codec, text: string, e: Event, k: nat): string
    requires k <= |Record(codec, e)|
  {
    text + Record(codec, e)[..k]
  }

  // A line made of pieces of records.
  ghost predicate Piled(codec: Codec, line: string) {
    exists cuts :: codec.Pieces(cuts) && codec.RunOn(cuts) == line
  }

  // The only piled line that holds a record is that record, whole and alone.
  lemma RecordInPile(codec: Codec, line: string, e: Event)
    requires codec.Lawful() && Piled(codec, line)
    ensures |RecordIn(codec, line)| <= 1
    ensures e in RecordIn(codec, line) <==> line == codec.encode(e)
  {
    var cuts :| codec.Pieces(cuts) && codec.RunOn(cuts) == line;
    assert codec.RecordIsALine(e);
    StripKeeps(codec.encode(e));
    if codec.Broken(cuts) {
      assert codec.decode(Strip(codec.RunOn(cuts))) == None;
    } else if cuts != [] {
      WholePiece(codec, cuts);
    }
  }

  lemma WholePiece(codec: Codec, cuts: seq<Cut>)
    requires codec.Lawful() && codec.Pieces(cuts) && cuts != [] && !codec.Broken(cuts)
    ensures codec.RunOn(cuts) == codec.encode(cuts[0].event)
    ensures RecordIn(codec, codec.RunOn(cuts)) == [cuts[0].event]
  {
    var e := cuts[0].event;
    assert cuts[..0] == [] && codec.RunOn([]) == "";
    assert codec.encode(e)[..cuts[0].k] == codec.encode(e);
    assert codec.RecordIsALine(e);
    StripKeeps(codec.encode(e));
  }

  lemma PrefixIsOneLine(codec: Codec, e: Event, k: nat)
    requires codec.Lawful() && k <= |codec.encode(e)|
    ensures '\r' !in codec.encode(e)[..k] && '\n' !in codec.encode(e)[..k]
  {
    assert codec.RecordIsALine(e);
    forall c | c in codec.encode(e)[..k] ensures c in codec.encode(e) { }
  }

  lemma OneMorePiece(codec: Codec, cuts: seq<Cut>, cut: Cut)
    requires codec.Pieces(cuts) && codec.Fits(cut)
    ensures codec.Pieces(cuts + [cut])
    ensures codec.RunOn(cuts + [cut]) == codec.RunOn(cuts) + codec.encode(cut.event)[..cut.k]
  {
    assert (cuts + [cut])[..|cuts|] == cuts;
  }

  // Anything run on behind an open line spoils it.
  lemma RunOnSpoils(codec: Codec, line: string, e: Event, k: nat)
    requires codec.Lawful() && Piled(codec, line) && 0 < k <= |codec.encode(e)|
    ensures var more := line + codec.encode(e)[..k];
            && Piled(codec, more)
            && (line != "" || k < |codec.encode(e)| ==> RecordIn(codec, more) == [])
  {
    var cuts :| codec.Pieces(cuts) && codec.RunOn(cuts) == line;
    OneMorePiece(codec, cuts, Cut(e, k));
    if line != "" || k < |codec.encode(e)| {
      assert cuts == [] ==> line == "";
      BrokenHoldsNothing(codec, cuts + [Cut(e, k)]);
    }
  }

  lemma BrokenHoldsNothing(codec: Codec, cuts: seq<Cut>)
    requires codec.Lawful() && codec.Broken(cuts)
    ensures RecordIn(codec, codec.RunOn(cuts)) == []
  {
  }

  // Finished lines, and behind them a line of pieces that no newline has finished.
  ghost predicate OpenEnd(codec: Codec, lines: string, line: string) {
    AtLineStart(lines) && '\n' !in line && '\r' !in line && Piled(codec, line)
  }

  ghost predicate OpenFrom(codec: Codec, text: string, n: nat)
    requires n <= |text|
  {
    OpenEnd(codec, text[..n], text[n..])
  }

  // A file left by whole and torn appends.
  ghost predicate Appendable(codec: Codec, text: string) {
    exists n: nat :: n <= |text| && OpenFrom(codec, text, n)
  }

  lemma OpenEndIsAppendable(codec: Codec, lines: string, line: string)
    requires OpenEnd(codec, lines, line)
    ensures Appendable(codec, lines + line)
  {
    var text := lines + line;
    assert text[..|lines|] == lines && text[|lines|..] == line;
    assert OpenFrom(codec, text, |lines|);
  }

  lemma LineStartIsOpen(codec: Codec, text: string)
    requires AtLineStart(text)
    ensures OpenEnd(codec, text, "") && Appendable(codec, text)
  {
    assert codec.Pieces([]) && codec.RunOn([]) == "";
    OpenEndIsAppendable(codec, text, "");
    assert text + "" == text;
  }

  lemma ReadOpenLine(codec: Codec, lines: string, line: string)
    requires AtLineStart(lines) && '\n' !in line && '\r' !in line
    ensures ReadAll(codec, Some(lines + line)) == ReadAll(codec, Some(lines)) + RecordIn(codec, line)
    ensures ReadAll(codec, Some(lines + (line + "\n"))) == ReadAll(codec, Some(lines)) + RecordIn(codec, line)
  {
    SplitWhole(line, '\n');
    PieceThenLine(line);
    FewPieces(codec, line);
    ReadAfterLine(codec, lines, line);
    ReadAfterLine(codec, lines, line + "\n");
  }

  lemma AppendCut(codec: Codec, lines: string, line: string, e: Event, k: nat)
    requires codec.Lawful() && AtLineStart(lines) && Piled(codec, line) && '\n' !in line && '\r' !in line
    requires 0 < k <= |codec.encode(e)|
    ensures var more := line + codec.encode(e)[..k];
            var records := ReadAll(codec, Some(lines)) + (if line == "" && k == |codec.encode(e)| then [e] else []);
            && '\n' !in more && '\r' !in more && Piled(codec, more)
            && ReadAll(codec, Some(lines + more)) == records
            && ReadAll(codec, Some(lines + (more + "\n"))) == records
  {
    var more := line + codec.encode(e)[..k];
    PrefixIsOneLine(codec, e, k);
    RunOnSpoils(codec, line, e, k);
    ReadOpenLine(codec, lines, more);
    if line == "" && k == |codec.encode(e)| {
      assert more == codec.encode(e);
      RecordInPile(codec, more, e);
    }
  }

  lemma TornIs(codec: Codec, lines: string, line: string, e: Event, k: nat)
    requires k <= |Record(codec, e)|
    ensures var s := codec.encode(e);
            Torn(codec, lines + line, e, k) == if k <= |s| then lines + (line + s[..k]) else lines + (line + s[..|s|] + "\n")
  {
    var s, text := codec.encode(e), lines + line;
    if k <= |s| {
      assert Record(codec, e)[..k] == s[..k];
      assert text + s[..k] == lines + (line + s[..k]);
    } else {
      assert Record(codec, e)[..k] == s + "\n" && s[..|s|] == s;
      assert text + (s + "\n") == lines + (line + s + "\n");
    }
  }

  // The two outcomes of an append: the line stays open, or is finished.
  lemma AppendOpens(codec: Codec, lines: string, line: string, e: Event, k: nat)
    requires codec.Lawful() && OpenEnd(codec, lines, line) && 0 < k <= |codec.encode(e)|
    ensures var torn := Torn(codec, lines + line, e, k);
            && torn == lines + (line + codec.encode(e)[..k])
            && Appendable(codec, torn) && !AtLineStart(torn)
  {
    var p := codec.encode(e)[..k];
    TornIs(codec, lines, line, e, k);
    AppendCut(codec, lines, line, e, k);
    OpenEndIsAppendable(codec, lines, line + p);
    PrefixIsOneLine(codec, e, k);
    assert p[k - 1] in p;
  }

  lemma AppendFinishes(codec: Codec, lines: string, line: string, e: Event)
    requires codec.Lawful() && OpenEnd(codec, lines, line)
    ensures var torn := Torn(codec, lines + line, e, |Record(codec, e)|);
            && torn == lines + (line + codec.encode(e) + "\n")
            && Appendable(codec, torn) && AtLineStart(torn)
  {
    TornIs(codec, lines, line, e, |Record(codec, e)|);
    assert codec.encode(e)[..|codec.encode(e)|] == codec.encode(e);
    LineStartIsOpen(codec, Torn(codec, lines + line, e, |Record(codec, e)|));
  }

  // What an append leaves to be read when its first k characters reach the file:
  // behind finished lines, all there was and the event once its encoding is there;
  // behind an open line, neither that line's record nor the new one.
  lemma AppendEffect(codec: Codec, lines: string, line: string, e: Event, k: nat)
    requires codec.Lawful() && OpenEnd(codec, lines, line) && 0 < k <= |Record(codec, e)|
    ensures var torn := Torn(codec, lines + line, e, k);
            && Appendable(codec, torn)
            && (AtLineStart(torn) <==> k == |Record(codec, e)|)
            && ReadAll(codec, Some(torn)) == ReadAll(codec, Some(lines)) +
                 (if line == "" && k >= |codec.encode(e)| then [e] else [])
  {
    if k <= |codec.encode(e)| {
      AppendOpens(codec, lines, line, e, k);
      AppendCut(codec, lines, line, e, k);
    } else {
      assert codec.RecordIsALine(e);
      AppendFinishes(codec, lines, line, e);
      AppendCut(codec, lines, line, e, k - 1);
      assert codec.encode(e)[..k - 1] == codec.encode(e);
    }
  }

  // A torn append behind finished lines.
  lemma TornEffect(codec: Codec, text: string, e: Event, k: nat)
    requires codec.Lawful() && AtLineStart(text) && k <= |Record(codec, e)|
    ensures var torn := Torn(codec, text, e, k);
            && (AtLineStart(torn) <==> k == 0 || k == |Record(codec, e)|)
            && ReadAll(codec, Some(torn)) == ReadAll(codec, Some(text)) + if k < |codec.encode(e)| then [] else [e]
  {
    assert codec.RecordIsALine(e);
    assert text + "" == text;
    if k > 0 {
      LineStartIsOpen(codec, text);
      AppendEffect(codec, text, "", e, k);
    }
  }

  lemma EnqueueEffect(codec: Codec, lines: string, line: string, e: Event)
    requires codec.Lawful() && OpenEnd(codec, lines, line)
    ensures var after := Enqueued(codec, Some(lines + line), e);
            && AtLineStart(after)
            && ReadAll(codec, Some(after)) == ReadAll(codec, Some(lines)) + (if line == "" then [e] else [])
  {
    var record := Record(codec, e);
    assert record[..|record|] == record;
    AppendEffect(codec, lines, line, e, |record|);
  }

  // A crash loses no earlier event; the torn one is there once its encoding is.
  lemma CrashKeepsEarlierEvents(codec: Codec, text: string, e: Event, k: nat)
    requires codec.Lawful() && AtLineStart(text) && k <= |Record(codec, e)|
    ensures ReadAll(codec, Some(Torn(codec, text, e, k))) ==
            ReadAll(codec, Some(text)) + if k < |codec.encode(e)| then [] else [e]
  {
    TornEffect(codec, text, e, k);
  }

  // But the next record runs on behind a torn one, and both are lost ...
  lemma RecordAfterTornIsLost(codec: Codec, text: string, e: Event, k: nat, x: Event)
    requires codec.Lawful() && AtLineStart(text) && 0 < k <= |codec.encode(e)|
    ensures ReadAll(codec, Some(Enqueued(codec, Some(Torn(codec, text, e, k)), x))) == ReadAll(codec, Some(text))
  {
    var line := codec.encode(e)[..k];
    LineStartIsOpen(codec, text);
    AppendCut(codec, text, "", e, k);
    assert "" + line == line && Record(codec, e)[..k] == line;
    EnqueueEffect(codec, text, line, x);
  }

  // ... so it survives exactly when the torn write had written nothing, or
  // everything with its newline.
  lemma EnqueueAfterCrash(codec: Codec, text: string, e: Event, k: nat, x: Event)
    requires codec.Lawful() && AtLineStart(text) && k <= |Record(codec, e)|
    ensures var torn := Torn(codec, text, e, k);
            ReadAll(codec, Some(Enqueued(codec, Some(torn), x))) == ReadAll(codec, Some(torn)) + [x]
            <==> k == 0 || k == |Record(codec, e)|
  {
    var torn := Torn(codec, text, e, k);
    TornEffect(codec, text, e, k);
    if 0 < k <= |codec.encode(e)| {
      RecordAfterTornIsLost(codec, text, e, k, x);
    } else {
      EnqueueAppends(codec, Some(torn), x);
    }
  }
}
