/**
 run_sender: on each connection the offline file is drained, then incoming
 events are sent; an event whose send fails goes to the file and the connection
 is given up. Events are accepted in the order of their ids.
 */
module Sender {
  import opened Wrappers
  import opened OfflineQueue

  const MAX_EVENT_BYTES: nat := 1_000_000

  predicate Oversized(e: Event) {
    e.bytes > MAX_EVENT_BYTES
  }

  // The loop over the buffered events of one connection, part way through.
  datatype Drain = Drain(sent: seq<Event>, failed: seq<Event>, dropped: seq<Event>, sendFailed: bool)

  function DrainOne(d: Drain, e: Event, ok: bool): Drain {
    if Oversized(e) then d.(dropped := d.dropped + [e])
    else if d.sendFailed then d.(failed := d.failed + [e])
    else if ok then d.(sent := d.sent + [e])
    else d.(failed := d.failed + [e], sendFailed := true)
  }

  function DrainAll(buffered: seq<Event>, succeeds: nat -> bool, n: nat): Drain
    requires n <= |buffered|
  {
    if n == 0 then Drain([], [], [], false)
    else DrainOne(DrainAll(buffered, succeeds, n - 1), buffered[n - 1], succeeds(n - 1))
  }

  /** text is the offline file; sent and dropped are what became of events so far. */
  datatype Queues = Queues(text: Option<string>, incoming: seq<Event>, sent: seq<Event>, dropped: seq<Event>)

  // The file a drain leaves that kept these events.
  function Kept(codec: Codec, failed: seq<Event>): Option<string> {
    if failed == [] then None else Some(WriteAll(codec, failed))
  }

  function AfterDrain(codec: Codec, q: Queues, succeeds: nat -> bool): Queues {
    var buffered := ReadAll(codec, q.text);
    var d := DrainAll(buffered, succeeds, |buffered|);
    if buffered == [] then q
    else q.(text := Kept(codec, d.failed), sent := q.sent + d.sent, dropped := q.dropped + d.dropped)
  }

  // The next incoming event is sent, or goes to the file.
  function AfterSend(codec: Codec, q: Queues, ok: bool): Queues
    requires q.incoming != []
  {
    var e, rest := q.incoming[0], q.incoming[1..];
    if ok then q.(incoming := rest, sent := q.sent + [e])
    else q.(incoming := rest, text := Some(Enqueued(codec, q.text, e)))
  }

  class Daemon {
    const queue: Queue
    var incoming: seq<Event>
    var sent: seq<Event>
    var dropped: seq<Event>

    function View(): Queues
      reads this, queue
    {
      Queues(queue.file, incoming, sent, dropped)
    }

    constructor (queue: Queue)
      ensures this.queue == queue && View() == Queues(queue.file, [], [], [])
    {
      this.queue, incoming, sent, dropped := queue, [], [], [];
    }

    // Draining on connect. broken says a send failed, so the connection is no more use.
    method DrainFile(succeeds: nat -> bool) returns (broken: bool)
      modifies this, queue
      ensures View() == AfterDrain(queue.codec, old(View()), succeeds)
      ensures var events := ReadAll(queue.codec, old(queue.file));
              broken == DrainAll(events, succeeds, |events|).sendFailed
    {
      broken := false;
      var buffered := queue.Load();
      if buffered == [] {
        return;
      }
      var failed := [];
      ghost var d := Drain([], [], [], false);
      var i := 0;
      while i < |buffered|
        invariant i <= |buffered| && queue.file == old(queue.file) && incoming == old(incoming)
        invariant d == DrainAll(buffered, succeeds, i)
        invariant broken == d.sendFailed && failed == d.failed
        invariant sent == old(sent) + d.sent && dropped == old(dropped) + d.dropped
      {
        var e := buffered[i];
        d := DrainOne(d, e, succeeds(i));
        if Oversized(e) {
          dropped := dropped + [e];
        } else if broken {
          failed := failed + [e];
        } else if succeeds(i) {
          sent := sent + [e];
        } else {
          failed := failed + [e];
          broken := true;
        }
        i := i + 1;
      }
      if failed == [] {
        queue.Remove();
      } else {
        queue.Rewrite(failed);
      }
    }

    // One round of the sender loop; false is the exception that ends the connection.
    method SendIncoming(ok: bool) returns (alive: bool)
      requires incoming != []
      modifies this, queue
      ensures alive == ok && View() == AfterSend(queue.codec, old(View()), ok)
    {
      var e := incoming[0];
      incoming := incoming[1..];
      if !ok {
        queue.Enqueue(e);
        return false;
      }
      sent := sent + [e];
      alive := true;
    }
  }

  // A connection, and how far it has got.
  datatype Conn =
    | Down
    | Draining(buffered: seq<Event>, next: nat, d: Drain)
    | Live(broken: bool)
}
