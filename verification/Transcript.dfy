/**
 TranscriptTail: the in-memory state of one transcript watcher and the methods
 that change it. Decoding one line (UTF-8, JSON, the filters on type, uuid,
 isMeta and tool results) is a function given from outside.
 */
module Transcript {
  import opened Wrappers
  import opened Framing

  datatype Role = User | Assistant
  datatype Event = Event(role: Role, text: string, key: string)

  type Decoder = Bytes -> Option<Event>

  /** The fields of a watcher; emitted is everything handed to its callback so far. */
  datatype Tail = Tail(
    pathKnown: bool, offset: nat, remainder: Bytes,
    suppress: bool, buffer: seq<Event>, epoch: nat, emitted: seq<Event>)

  function DecodeAll(decode: Decoder, lines: seq<Bytes>): seq<Event> {
    if lines == [] then []
    else
      var later := DecodeAll(decode, lines[1..]);
      match decode(lines[0]) case None => later case Some(ev) => [ev] + later
  }

  lemma {:induction false} DecodeAllConcat(decode: Decoder, a: seq<Bytes>, b: seq<Bytes>)
    ensures DecodeAll(decode, a + b) == DecodeAll(decode, a) + DecodeAll(decode, b)
  {
    if a == [] {
      assert a + b == b;
    } else {
      var later, more := DecodeAll(decode, a[1..]), DecodeAll(decode, b);
      DecodeAllConcat(decode, a[1..], b);
      assert (a + b)[0] == a[0] && (a + b)[1..] == a[1..] + b;
      if decode(a[0]).Some? {
        var first := [decode(a[0]).value];
        assert first + (later + more) == first + later + more;
      }
    }
  }

  function UserEvents(events: seq<Event>): seq<Event> {
    if events == [] then []
    else if events[0].role.User? then [events[0]] + UserEvents(events[1..])
    else UserEvents(events[1..])
  }

  lemma {:induction false} UserEventsConcat(a: seq<Event>, b: seq<Event>)
    ensures UserEvents(a + b) == UserEvents(a) + UserEvents(b)
  {
    if a == [] {
      assert a + b == b;
    } else {
      var later, more := UserEvents(a[1..]), UserEvents(b);
      UserEventsConcat(a[1..], b);
      assert (a + b)[0] == a[0] && (a + b)[1..] == a[1..] + b;
      assert [a[0]] + (later + more) == [a[0]] + later + more;
    }
  }

  // What closing a window sends on: everything after a failed drive, only the
  // user's own turns after a successful one.
  function Replayed(buffer: seq<Event>, success: bool): seq<Event> {
    if success then UserEvents(buffer) else buffer
  }

  // ---------- Specification of each method ----------

  function Accept(t: Tail, events: seq<Event>): Tail {
    if t.suppress then t.(buffer := t.buffer + events) else t.(emitted := t.emitted + events)
  }

  // The lines that reach _process_line when data arrives.
  function NewLines(t: Tail, data: Bytes): seq<Bytes> {
    Kept(Lines(t.remainder + data))
  }

  function ProcessBytes(t: Tail, decode: Decoder, data: Bytes): Tail {
    Accept(t, DecodeAll(decode, NewLines(t, data))).(remainder := Remainder(t.remainder + data))
  }

  function DriveStarted(t: Tail): Tail {
    t.(suppress := true)
  }

  function DriveFinished(t: Tail, success: bool, size: Option<nat>): Tail {
    var closed := t.(suppress := false, buffer := [], emitted := t.emitted + Replayed(t.buffer, success));
    if !success then closed
    else closed.(epoch := t.epoch + 1,
                 offset := if t.pathKnown && size.Some? then size.value else t.offset)
  }

  // The last part of a tick: the read that began under readEpoch has returned.
  function CommitRead(t: Tail, decode: Decoder, readEpoch: nat, size: nat, data: Option<Bytes>): Tail {
    if data.None? || readEpoch != t.epoch then t
    else ProcessBytes(t.(offset := size), decode, data.value)
  }

  class TranscriptTail {
    const decode: Decoder
    var pathKnown: bool
    var offset: nat
    var remainder: Bytes
    var suppress: bool
    var buffer: seq<Event>
    var epoch: nat
    var emitted: seq<Event>

    function View(): Tail
      reads this
    {
      Tail(pathKnown, offset, remainder, suppress, buffer, epoch, emitted)
    }

    // start(): size is the stat taken when the path resolved, if it did.
    constructor Start(decode: Decoder, found: bool, size: Option<nat>)
      ensures View() == Tail(found, if found && size.Some? then size.value else 0, [], false, [], 0, [])
      ensures this.decode == decode
    {
      this.decode := decode;
      pathKnown := found;
      offset := if found && size.Some? then size.value else 0;
      remainder, suppress, buffer, epoch, emitted := [], false, [], 0, [];
    }

    method DriveStart()
      modifies this
      ensures View() == DriveStarted(old(View()))
    {
      suppress := true;
    }

    method DriveFinish(success: bool, size: Option<nat>)
      modifies this
      ensures View() == DriveFinished(old(View()), success, size)
    {
      var buffered := buffer;
      buffer := [];
      suppress := false;
      if success {
        epoch := epoch + 1;
        if pathKnown && size.Some? {
          offset := size.value;
        }
      }
      ghost var before := View();
      var i := 0;
      while i < |buffered|
        invariant i <= |buffered|
        invariant View() == before.(emitted := before.emitted + Replayed(buffered[..i], success))
      {
        assert buffered[..i + 1] == buffered[..i] + [buffered[i]];
        UserEventsConcat(buffered[..i], [buffered[i]]);
        if !success || buffered[i].role.User? {
          emitted := emitted + [buffered[i]];
        }
        i := i + 1;
      }
      assert buffered[..i] == buffered;
    }

    method ProcessLine(rawLine: Bytes)
      modifies this
      ensures View() == Accept(old(View()), DecodeAll(decode, [rawLine]))
    {
      var event := decode(rawLine);
      if event.None? {
        return;
      }
      if suppress {
        buffer := buffer + [event.value];
      } else {
        emitted := emitted + [event.value];
      }
    }

    method Process(data: Bytes)
      modifies this
      ensures View() == ProcessBytes(old(View()), decode, data)
    {
      var parts := Split(remainder + data);
      var lines := parts[..|parts| - 1];
      remainder := parts[|parts| - 1];
      ghost var before := View();
      var i := 0;
      while i < |lines|
        invariant i <= |lines|
        invariant View() == Accept(before, DecodeAll(decode, Kept(lines[..i])))
      {
        assert lines[..i + 1] == lines[..i] + [lines[i]];
        KeptConcat(lines[..i], [lines[i]]);
        DecodeAllConcat(decode, Kept(lines[..i]), Kept([lines[i]]));
        if |lines[i]| <= MAX_LINE_BYTES {
          ProcessLine(lines[i]);
        }
        i := i + 1;
      }
      assert lines[..i] == lines;
    }

    method Commit(readEpoch: nat, size: nat, data: Option<Bytes>)
      modifies this
      ensures View() == CommitRead(old(View()), decode, readEpoch, size, data)
    {
      if data.None? || readEpoch != epoch {
        return;
      }
      offset := size;
      Process(data.value);
    }
  }
}
