/**
 The bounded Telegram delivery queue of one host connection: the receive loop
 puts turns in, dropping the oldest when it is full; one drainer takes them out;
 disconnect puts in a sentinel for the drainer to stop at.
 */
module Delivery {
  import opened Wrappers

  const DELIVERY_QUEUE_MAX: nat := 2000

  datatype Item = Turn(text: string) | Stop

  datatype Drainer = Waiting | Sending | Exited

  /** unfinished is asyncio.Queue's count of items put and not yet marked done. */
  datatype Link = Link(queue: seq<Item>, unfinished: nat, closing: bool, drainer: Drainer, attempted: seq<string>)

  // put_nowait, making room first when the queue is full
  function PutNewest(l: Link, item: Item): Link {
    if |l.queue| < DELIVERY_QUEUE_MAX then l.(queue := l.queue + [item], unfinished := l.unfinished + 1)
    else l.(queue := l.queue[1..] + [item])
  }

  function Deliver(l: Link, text: string): Link {
    PutNewest(l, Turn(text))
  }

  function Disconnect(l: Link): Link {
    PutNewest(l.(closing := true), Stop)
  }

  predicate CanTake(l: Link) {
    l.drainer.Waiting? && l.queue != []
  }

  // The drainer gets an item: the sentinel ends it, a turn is on its way out.
  function Take(l: Link): Link
    requires CanTake(l)
  {
    match l.queue[0]
    case Stop => l.(queue := l.queue[1..], unfinished := if l.unfinished > 0 then l.unfinished - 1 else 0, drainer := Exited)
    case Turn(text) => l.(queue := l.queue[1..], drainer := Sending, attempted := l.attempted + [text])
  }

  // deliver_turn returned or raised.
  function SendOver(l: Link): Link
    requires l.drainer.Sending?
  {
    l.(unfinished := if l.unfinished > 0 then l.unfinished - 1 else 0, drainer := Waiting)
  }

  class HostLink {
    var queue: seq<Item>
    var unfinished: nat
    var closing: bool
    var drainer: Drainer
    var attempted: seq<string>

    function View(): Link
      reads this
    {
      Link(queue, unfinished, closing, drainer, attempted)
    }

    constructor ()
      ensures View() == Link([], 0, false, Waiting, [])
    {
      queue, unfinished, closing, drainer, attempted := [], 0, false, Waiting, [];
    }

    // False is asyncio.QueueFull.
    method PutNowait(item: Item) returns (ok: bool)
      modifies this
      ensures ok == (|old(queue)| < DELIVERY_QUEUE_MAX)
      ensures View() == if ok then old(View()).(queue := old(queue) + [item], unfinished := old(unfinished) + 1) else old(View())
    {
      ok := |queue| < DELIVERY_QUEUE_MAX;
      if ok {
        queue := queue + [item];
        unfinished := unfinished + 1;
      }
    }

    predicate Valid()
      reads this
    {
      |queue| <= DELIVERY_QUEUE_MAX && unfinished == |queue| + if drainer.Sending? then 1 else 0
    }

    method PutDroppingOldest(item: Item)
      requires Valid()
      modifies this
      ensures Valid() && View() == PutNewest(old(View()), item)
    {
      var ok := PutNowait(item);
      if !ok {
        queue := queue[1..];
        unfinished := unfinished - 1;
        ok := PutNowait(item);
      }
    }

    method DeliverToTelegram(text: string)
      requires Valid()
      modifies this
      ensures Valid() && View() == Deliver(old(View()), text)
    {
      PutDroppingOldest(Turn(text));
    }

    method SignalStop()
      requires Valid()
      modifies this
      ensures Valid() && View() == Disconnect(old(View()))
    {
      closing := true;
      PutDroppingOldest(Stop);
    }

    method DrainerGets()
      requires Valid() && CanTake(View())
      modifies this
      ensures Valid() && View() == Take(old(View()))
    {
      var item := queue[0];
      queue := queue[1..];
      match item
      case Stop =>
        unfinished := unfinished - 1;
        drainer := Exited;
      case Turn(text) =>
        attempted := attempted + [text];
        drainer := Sending;
    }

    method DrainerSent()
      requires Valid() && drainer.Sending?
      modifies this
      ensures Valid() && View() == SendOver(old(View()))
    {
      unfinished := unfinished - 1;
      drainer := Waiting;
    }
  }
}
