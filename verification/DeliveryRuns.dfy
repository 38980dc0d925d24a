/** Every run of one connection, with each item known by its position among all items put in. */
module DeliveryRuns {
  import opened Wrappers
  import opened Delivery

  // at: how many items had been put in when this one was dropped, its successor included.
  datatype Drop = Drop(item: nat, at: nat)

  datatype World = World(l: Link, items: seq<Item>, sent: seq<nat>, drops: seq<Drop>, stoppedAt: Option<nat>)

  datatype Step = DeliverStep(text: string) | DisconnectStep | TakeStep | SentStep

  function Init(): World {
    World(Link([], 0, false, Waiting, []), [], [], [], None)
  }

  // The position of the oldest item still queued.
  function Head(w: World): int {
    |w.items| - |w.l.queue|
  }

  function Put(w: World, item: Item, l: Link): World {
    var drops := if |w.l.queue| < DELIVERY_QUEUE_MAX || Head(w) < 0 then [] else [Drop(Head(w), |w.items| + 1)];
    w.(l := l, items := w.items + [item], drops := w.drops + drops)
  }

  function Next(w: World, step: Step): World {
    match step
    case DeliverStep(text) => Put(w, Turn(text), Deliver(w.l, text))
    case DisconnectStep => Put(w, Stop, Disconnect(w.l))
    case TakeStep =>
      if !CanTake(w.l) || Head(w) < 0 then w
      else if w.l.queue[0].Stop? then w.(l := Take(w.l), stoppedAt := Some(Head(w)))
      else w.(l := Take(w.l), sent := w.sent + [Head(w)])
    case SentStep => if w.l.drainer.Sending? then w.(l := SendOver(w.l)) else w
  }

  function Run(w: World, steps: seq<Step>): World {
    if steps == [] then w else Next(Run(w, steps[..|steps| - 1]), steps[|steps| - 1])
  }

  ghost predicate WasDropped(w: World, p: nat) {
    exists d | d in w.drops :: d.item == p
  }

  ghost predicate Accounted(w: World, p: nat) {
    p in w.sent || WasDropped(w, p) || w.stoppedAt == Some(p)
  }

  ghost predicate Queued(w: World) {
    && |w.l.queue| <= DELIVERY_QUEUE_MAX && 0 <= Head(w)
    && w.l.queue == w.items[Head(w)..]
    && w.l.unfinished == |w.l.queue| + (if w.l.drainer.Sending? then 1 else 0)
  }

  // What was taken or dropped, in the order of the items.
  ghost predicate Recorded(w: World) {
    && |w.sent| == |w.l.attempted|
    && (forall i | 0 <= i < |w.sent| :: w.sent[i] < Head(w) && w.items[w.sent[i]] == Turn(w.l.attempted[i]))
    && (forall i, j | 0 <= i < j < |w.sent| :: w.sent[i] < w.sent[j])
    && (forall d | d in w.drops :: d.item < Head(w) && d.at == d.item + DELIVERY_QUEUE_MAX + 1 && d.at <= |w.items|)
    && (forall d | d in w.drops :: d.item !in w.sent && w.stoppedAt != Some(d.item))
    && (forall p: nat | p < Head(w) :: Accounted(w, p))
    && (w.stoppedAt.Some? ==> w.stoppedAt.value < Head(w) && w.items[w.stoppedAt.value] == Stop)
    && (w.stoppedAt.Some? <==> w.l.drainer.Exited?)
  }

  lemma PutIsSound(w: World, item: Item, l: Link)
    requires Queued(w) && Recorded(w)
    requires l == PutNewest(w.l, item) || l == PutNewest(w.l.(closing := true), item)
    ensures Queued(Put(w, item, l)) && Recorded(Put(w, item, l))
  {
    var w' := Put(w, item, l);
    if |w.l.queue| == DELIVERY_QUEUE_MAX {
      assert w'.drops == w.drops + [Drop(Head(w), |w.items| + 1)];
      forall p: nat | p < Head(w') ensures Accounted(w', p) {
        if p < Head(w) {
          assert Accounted(w, p);
          if WasDropped(w, p) {
            var d :| d in w.drops && d.item == p;
            assert d in w'.drops;
          }
        } else {
          assert Drop(p, |w.items| + 1) in w'.drops;
        }
      }
    } else {
      assert w'.drops == w.drops;
      forall p: nat | p < Head(w') ensures Accounted(w', p) { assert Accounted(w, p); }
    }
  }

  lemma TakeShape(w: World)
    requires Queued(w) && CanTake(w.l)
    ensures var w' := Next(w, TakeStep);
            && w'.drops == w.drops && w'.items == w.items && Head(w') == Head(w) + 1 && w.items[Head(w)] == w.l.queue[0]
            && w'.l.queue == w.l.queue[1..] && Queued(w')
            && (if w.l.queue[0].Stop? then w'.stoppedAt == Some(Head(w)) && w'.sent == w.sent && w'.l.attempted == w.l.attempted && w'.l.drainer.Exited?
                else w'.stoppedAt == w.stoppedAt && w'.sent == w.sent + [Head(w)] && w'.l.attempted == w.l.attempted + [w.l.queue[0].text]
                     && w'.l.drainer.Sending?)
  {
  }

  lemma TakeAccounts(w: World, p: nat)
    requires Queued(w) && Recorded(w) && CanTake(w.l) && p <= Head(w)
    ensures Accounted(Next(w, TakeStep), p)
  {
    var w' := Next(w, TakeStep);
    TakeShape(w);
    if p < Head(w) {
      assert Accounted(w, p);
    } else {
      assert w.l.queue[0].Turn? ==> w'.sent[|w.sent|] == p;
    }
  }

  lemma TakeIsSound(w: World)
    requires Queued(w) && Recorded(w) && CanTake(w.l)
    ensures Queued(Next(w, TakeStep)) && Recorded(Next(w, TakeStep))
  {
    var w' := Next(w, TakeStep);
    TakeShape(w);
    forall p: nat | p < Head(w') ensures Accounted(w', p) { TakeAccounts(w, p); }
  }

  lemma {:induction false} RunIsSound(steps: seq<Step>)
    ensures Queued(Run(Init(), steps)) && Recorded(Run(Init(), steps))
  {
    if steps != [] {
      var before, step := Run(Init(), steps[..|steps| - 1]), steps[|steps| - 1];
      RunIsSound(steps[..|steps| - 1]);
      match step {
        case DeliverStep(text) => PutIsSound(before, Turn(text), Deliver(before.l, text));
        case DisconnectStep => PutIsSound(before, Stop, Disconnect(before.l));
        case TakeStep => if CanTake(before.l) { TakeIsSound(before); }
        case SentStep =>
          var after := Next(before, step);
          forall p: nat | p < Head(after) ensures Accounted(after, p) { assert Accounted(before, p); }
      }
    }
  }

  lemma {:induction false} ClosingIsSet(steps: seq<Step>)
    ensures Run(Init(), steps).l.closing <==> DisconnectStep in steps
  {
    if steps != [] {
      var n := |steps| - 1;
      ClosingIsSet(steps[..n]);
      assert steps == steps[..n] + [steps[n]];
    }
  }

  // Over every run: the queue stays within its bound and its unfinished count is
  // what is queued or on its way; turns are attempted in the order put in; one is
  // dropped only by the 2000th item put in after it, while still queued; and when
  // the drainer has stopped, every item before the sentinel was attempted or dropped.
  lemma NothingIsForgotten(steps: seq<Step>)
    ensures var w := Run(Init(), steps);
            && |w.l.queue| <= 2000 && (w.l.closing <==> DisconnectStep in steps)
            && w.l.unfinished == |w.l.queue| + (if w.l.drainer.Sending? then 1 else 0)
            && |w.sent| == |w.l.attempted|
            && (forall i | 0 <= i < |w.sent| :: w.sent[i] < |w.items| && w.items[w.sent[i]] == Turn(w.l.attempted[i]))
            && (forall i, j | 0 <= i < j < |w.sent| :: w.sent[i] < w.sent[j])
            && (forall d | d in w.drops ::
                 d.item !in w.sent && d.at - 1 - d.item == 2000 && d.at <= |w.items|)
            && (w.l.drainer.Exited? ==>
                 (w.stoppedAt.Some? && w.stoppedAt.value < |w.items|
                 && w.items[w.stoppedAt.value] == Stop
                 && forall p: nat | p < w.stoppedAt.value :: p in w.sent || WasDropped(w, p)))
  {
    RunIsSound(steps);
    ClosingIsSet(steps);
    var w := Run(Init(), steps);
    if w.stoppedAt.Some? {
      forall p: nat | p < w.stoppedAt.value ensures p in w.sent || WasDropped(w, p) { assert Accounted(w, p); }
    }
  }

  // ---------- The drainer comes through ----------

  // The turns queued before the first sentinel.
  function TurnsAhead(queue: seq<Item>): seq<string> {
    if queue == [] || queue[0].Stop? then [] else [queue[0].text] + TurnsAhead(queue[1..])
  }

  // The drainer takes one item after another, and finishes what it sends.
  function Drains(n: nat): seq<Step> {
    if n == 0 then [] else [TakeStep, SentStep] + Drains(n - 1)
  }

  lemma {:induction false} RunMore(w: World, steps: seq<Step>, more: seq<Step>)
    ensures Run(w, steps + more) == Run(Run(w, steps), more)
  {
    if more == [] {
      assert steps + more == steps;
    } else {
      var n := |more| - 1;
      RunMore(w, steps, more[..n]);
      assert (steps + more)[..|steps + more| - 1] == steps + more[..n];
    }
  }

  lemma TwoSteps(w: World)
    ensures Run(w, [TakeStep, SentStep]) == Next(Next(w, TakeStep), SentStep)
  {
    var one, two := [TakeStep], [TakeStep, SentStep];
    assert one[..|one| - 1] == [] && two[..|two| - 1] == one;
    assert Run(w, one) == Next(Run(w, []), TakeStep);
  }

  lemma OneMoreDrain(w: World, n: nat)
    requires n > 0
    ensures Run(w, Drains(n)) == Run(Next(Next(w, TakeStep), SentStep), Drains(n - 1))
  {
    TwoSteps(w);
    RunMore(w, [TakeStep, SentStep], Drains(n - 1));
  }

  lemma TakesOne(w: World)
    requires Head(w) >= 0 && w.l.drainer.Waiting? && w.l.queue != []
    ensures var w', first := Next(Next(w, TakeStep), SentStep), w.l.queue[0];
            && w'.l.queue == w.l.queue[1..] && Head(w') >= 0
            && (if first.Stop? then w'.l.drainer.Exited? && w'.l.attempted == w.l.attempted
                else w'.l.drainer.Waiting? && w'.l.attempted == w.l.attempted + [first.text])
  {
  }

  lemma {:induction false} ExitedStays(w: World, n: nat)
    requires w.l.drainer.Exited?
    ensures Run(w, Drains(n)) == w
    decreases n
  {
    if n > 0 {
      OneMoreDrain(w, n);
      assert Next(Next(w, TakeStep), SentStep) == w;
      ExitedStays(w, n - 1);
    }
  }

  lemma TurnsBehind(before: seq<string>, queue: seq<Item>)
    requires queue != []
    ensures queue[0].Stop? ==> before + TurnsAhead(queue) == before && Stop in queue
    ensures queue[0].Turn? ==> before + TurnsAhead(queue) == before + [queue[0].text] + TurnsAhead(queue[1..])
                               && (Stop in queue <==> Stop in queue[1..])
  {
    assert queue == [queue[0]] + queue[1..];
    if queue[0].Turn? {
      assert before + ([queue[0].text] + TurnsAhead(queue[1..])) == before + [queue[0].text] + TurnsAhead(queue[1..]);
    }
  }

  lemma {:induction false} DrainsOut(w: World, n: nat)
    requires Head(w) >= 0 && w.l.drainer.Waiting? && n == |w.l.queue|
    ensures var w' := Run(w, Drains(n));
            && w'.l.attempted == w.l.attempted + TurnsAhead(w.l.queue)
            && (if Stop in w.l.queue then w'.l.drainer.Exited? else w'.l.drainer.Waiting? && w'.l.queue == [])
    decreases n
  {
    if n == 0 {
      assert w.l.attempted + TurnsAhead(w.l.queue) == w.l.attempted;
    } else {
      var w1 := Next(Next(w, TakeStep), SentStep);
      OneMoreDrain(w, n);
      TakesOne(w);
      TurnsBehind(w.l.attempted, w.l.queue);
      if w.l.queue[0].Stop? { ExitedStays(w1, n - 1); } else { DrainsOut(w1, n - 1); }
    }
  }

  // From every reachable state in which the drainer waits, it attempts the turns
  // queued before the sentinel, in order, and exits at that one, or empties the queue.
  lemma WaitingDrainerComesThrough(steps: seq<Step>)
    requires Run(Init(), steps).l.drainer.Waiting?
    ensures var w := Run(Init(), steps);
            var w' := Run(w, Drains(|w.l.queue|));
            && w'.l.attempted == w.l.attempted + TurnsAhead(w.l.queue)
            && (if Stop in w.l.queue then w'.l.drainer.Exited? else w'.l.drainer.Waiting? && w'.l.queue == [])
  {
    RunIsSound(steps);
    DrainsOut(Run(Init(), steps), |Run(Init(), steps).l.queue|);
  }
}
