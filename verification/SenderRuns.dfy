/** The sender over many connections, with the offline file taken as the events it holds. */
module SenderRuns {
  import opened OfflineQueue
  import opened Sender

  datatype World = World(
    conn: Conn,
    file: seq<Event>,
    incoming: seq<Event>,
    sent: seq<Event>,
    dropped: seq<Event>,
    accepted: seq<Event>)

  datatype Step =
    | Put(bytes: nat)
    | Connect
    | DrainStep(ok: bool)
    | DrainEnds
    | LiveSend(ok: bool)
    | ConnectionDrops
    | StaleSend             // a sender left over from an older connection fails a send

  function Init(): World {
    World(Down, [], [], [], [], [])
  }

  predicate Enabled(w: World, step: Step) {
    match step
    case Put(_) => true
    case Connect => w.conn.Down?
    case DrainStep(_) => w.conn.Draining? && w.conn.next < |w.conn.buffered|
    case DrainEnds => w.conn.Draining? && w.conn.next == |w.conn.buffered|
    case LiveSend(_) => w.conn.Live? && w.incoming != []
    case ConnectionDrops => w.conn.Live?
    case StaleSend => w.incoming != []
  }

  function Next(w: World, step: Step): World
    requires Enabled(w, step)
  {
    match step
    case Put(bytes) =>
      var e := Event(|w.accepted|, bytes);
      w.(accepted := w.accepted + [e], incoming := w.incoming + [e])
    case Connect =>
      if w.file == [] then w.(conn := Live(false))
      else w.(conn := Draining(w.file, 0, Drain([], [], [], false)))
    case DrainStep(ok) =>
      var e := w.conn.buffered[w.conn.next];
      var d := DrainOne(w.conn.d, e, ok);
      w.(conn := Draining(w.conn.buffered, w.conn.next + 1, d),
         sent := w.sent + d.sent[|w.conn.d.sent|..],
         dropped := w.dropped + d.dropped[|w.conn.d.dropped|..])
    case DrainEnds => w.(conn := Live(w.conn.d.sendFailed), file := w.conn.d.failed)
    case LiveSend(ok) =>
      var e := w.incoming[0];
      if ok then w.(incoming := w.incoming[1..], sent := w.sent + [e])
      else w.(incoming := w.incoming[1..], file := w.file + [e], conn := Down)
    case ConnectionDrops => w.(conn := Down)
    case StaleSend => w.(incoming := w.incoming[1..], file := w.file + [w.incoming[0]])
  }

  // Every run: steps that are not enabled are left out.
  function Run(w: World, steps: seq<Step>): World {
    if steps == [] then w
    else
      var before := Run(w, steps[..|steps| - 1]);
      var step := steps[|steps| - 1];
      if Enabled(before, step) then Next(before, step) else before
  }

  // One live sender, and a connection on which a send failed stays failed.
  predicate Orderly(w: World, step: Step) {
    !step.StaleSend? && (step == LiveSend(true) && w.conn.Live? ==> !w.conn.broken)
  }

  predicate OrderlyAt(w: World, steps: seq<Step>, i: nat)
    requires i < |steps|
  {
    Orderly(Run(w, steps[..i]), steps[i])
  }

  predicate OrderlyRun(w: World, steps: seq<Step>) {
    forall i: nat | i < |steps| :: OrderlyAt(w, steps, i)
  }

  // ---------- Order and conservation ----------

  // The events still to be sent, next first.
  function ToSend(w: World): seq<Event> {
    if w.conn.Draining? && w.conn.next <= |w.conn.buffered|
    then w.conn.d.failed + w.conn.buffered[w.conn.next..] + w.incoming
    else w.file + w.incoming
  }

  function Excluding(s: seq<Event>, out: seq<Event>): seq<Event> {
    if s == [] then []
    else
      var last := s[|s| - 1];
      var earlier := Excluding(s[..|s| - 1], out);
      if last in out then earlier else earlier + [last]
  }

  // Everything accepted and not dropped is sent or waiting, in the order accepted.
  ghost predicate InOrder(w: World) {
    w.sent + ToSend(w) == Excluding(w.accepted, w.dropped)
  }

  ghost predicate Numbered(s: seq<Event>) {
    forall i | 0 <= i < |s| :: s[i].id == i
  }

  ghost predicate ConnIsSound(w: World) {
    match w.conn
    case Down => true
    case Live(broken) => !broken ==> w.file == []
    case Draining(buffered, next, d) =>
      next <= |buffered| && w.file == buffered && (!d.sendFailed ==> d.failed == [])
  }

  ghost predicate Sound(w: World) {
    && ConnIsSound(w)
    && Numbered(w.accepted)
    && (forall e | e in w.dropped :: Oversized(e) && e in w.accepted)
    && InOrder(w)
  }

  lemma {:induction false} ExcludingMembers(s: seq<Event>, out: seq<Event>, e: Event)
    ensures e in Excluding(s, out) <==> e in s && e !in out
  {
    if s != [] {
      ExcludingMembers(s[..|s| - 1], out, e);
      assert s == s[..|s| - 1] + [s[|s| - 1]];
    }
  }

  lemma OnlyLast(x: seq<Event>, e: Event, a: seq<Event>, b: seq<Event>)
    requires x + [e] == a + [e] + b && e !in x
    ensures a == x && b == []
  {
    assert (x + [e])[|a|] == (a + [e] + b)[|a|] == e;
    assert (a + [e] + b)[..|a|] == a;
  }

  // Dropping one more event takes it out of the flow wherever it is.
  lemma {:induction false} DropOne(s: seq<Event>, out: seq<Event>, e: Event, a: seq<Event>, b: seq<Event>)
    requires Numbered(s) && e !in out
    requires Excluding(s, out) == a + [e] + b
    ensures Excluding(s, out + [e]) == a + b
  {
    ExcludingMembers(s, out, e);
    assert e in a + [e] + b;
    var n := |s| - 1;
    var last, init := s[n], s[..n];
    assert s == init + [last];
    if last == e {
      assert e !in init;
      ExcludingMembers(init, out, e);
      OnlyLast(Excluding(init, out), e, a, b);
      ExcludingNothingNew(init, out, e);
      assert a + b == a;
    } else if last in out {
      DropOne(init, out, e, a, b);
    } else {
      var flow := Excluding(s, out);
      assert flow[|flow| - 1] == last;
      assert b != [];
      var b' := b[..|b| - 1];
      assert b == b' + [last];
      assert Excluding(init, out) == flow[..|flow| - 1] == a + [e] + b';
      DropOne(init, out, e, a, b');
      assert a + b' + [last] == a + b;
    }
  }

  lemma {:induction false} ExcludingNothingNew(s: seq<Event>, out: seq<Event>, e: Event)
    requires e !in s
    ensures Excluding(s, out + [e]) == Excluding(s, out)
  {
    if s != [] {
      ExcludingNothingNew(s[..|s| - 1], out, e);
    }
  }

  lemma Flow(sent: seq<Event>, failed: seq<Event>, e: Event, rest: seq<Event>, incoming: seq<Event>)
    ensures sent + (failed + ([e] + rest) + incoming) == sent + failed + [e] + (rest + incoming)
    ensures sent + ((failed + [e]) + rest + incoming) == sent + failed + [e] + (rest + incoming)
    ensures sent + (failed + rest + incoming) == sent + failed + (rest + incoming)
    ensures failed == [] ==> (sent + [e]) + (failed + rest + incoming) == sent + failed + [e] + (rest + incoming)
  {
  }

  lemma DrainStepKeepsOrder(w: World, ok: bool)
    requires ConnIsSound(w) && Numbered(w.accepted) && InOrder(w) && Enabled(w, DrainStep(ok))
    ensures InOrder(Next(w, DrainStep(ok)))
    ensures w.conn.buffered[w.conn.next] in w.accepted
  {
    var w' := Next(w, DrainStep(ok));
    var d, e, rest := w.conn.d, w.conn.buffered[w.conn.next], w.conn.buffered[w.conn.next + 1..];
    assert w.conn.buffered[w.conn.next..] == [e] + rest;
    Flow(w.sent, d.failed, e, rest, w.incoming);
    assert Excluding(w.accepted, w.dropped) == w.sent + d.failed + [e] + (rest + w.incoming);
    ExcludingMembers(w.accepted, w.dropped, e);
    assert e in w.sent + d.failed + [e] + (rest + w.incoming);
    if Oversized(e) {
      DropOne(w.accepted, w.dropped, e, w.sent + d.failed, rest + w.incoming);
      assert w'.dropped == w.dropped + [e] && w'.sent == w.sent;
    } else {
      assert w'.dropped == w.dropped;
      assert w'.sent == if !d.sendFailed && ok then w.sent + [e] else w.sent;
    }
  }

  lemma DrainStepIsSound(w: World, ok: bool)
    requires Sound(w) && Enabled(w, DrainStep(ok))
    ensures Sound(Next(w, DrainStep(ok)))
  {
    DrainStepKeepsOrder(w, ok);
  }

  lemma PutIsSound(w: World, bytes: nat)
    requires Sound(w)
    ensures Sound(Next(w, Put(bytes)))
  {
    var w' := Next(w, Put(bytes));
    var e := Event(|w.accepted|, bytes);
    assert e !in w.accepted;
    assert w'.accepted[..|w'.accepted| - 1] == w.accepted;
    assert ToSend(w') == ToSend(w) + [e];
    assert w'.sent + ToSend(w') == w.sent + ToSend(w) + [e];
  }

  lemma LiveSendIsSound(w: World, ok: bool)
    requires Sound(w) && Enabled(w, LiveSend(ok)) && Orderly(w, LiveSend(ok))
    ensures Sound(Next(w, LiveSend(ok)))
  {
    var w' := Next(w, LiveSend(ok));
    assert w.incoming == [w.incoming[0]] + w.incoming[1..];
    assert w'.sent + ToSend(w') == w.sent + ToSend(w);
  }

  lemma StepIsSound(w: World, step: Step)
    requires Sound(w) && Enabled(w, step) && Orderly(w, step)
    ensures Sound(Next(w, step))
  {
    match step {
      case Put(bytes) => PutIsSound(w, bytes);
      case DrainStep(ok) => DrainStepIsSound(w, ok);
      case LiveSend(ok) => LiveSendIsSound(w, ok);
      case DrainEnds =>
        assert w.conn.d.failed + w.conn.buffered[w.conn.next..] == w.conn.d.failed;
      case Connect =>
        assert [] + w.file[0..] + w.incoming == w.file + w.incoming;
      case _ =>
    }
  }

  lemma OrderlyBefore(w: World, steps: seq<Step>, n: nat)
    requires OrderlyRun(w, steps) && n <= |steps|
    ensures OrderlyRun(w, steps[..n])
  {
    forall i: nat | i < n ensures OrderlyAt(w, steps[..n], i) {
      assert OrderlyAt(w, steps, i) && steps[..n][..i] == steps[..i];
    }
  }

  lemma {:induction false} RunIsSound(w: World, steps: seq<Step>)
    requires Sound(w) && OrderlyRun(w, steps)
    ensures Sound(Run(w, steps))
  {
    if steps != [] {
      var n := |steps| - 1;
      OrderlyBefore(w, steps, n);
      RunIsSound(w, steps[..n]);
      assert OrderlyAt(w, steps, n);
      if Enabled(Run(w, steps[..n]), steps[n]) {
        StepIsSound(Run(w, steps[..n]), steps[n]);
      }
    }
  }

  // Over every sequence of reconnects with one live sender and connections that
  // stay failed: what was sent, then the offline file, then the incoming queue are
  // together the accepted events in order, less oversized ones dropped in a drain.
  lemma NothingLostOrReordered(steps: seq<Step>)
    requires OrderlyRun(Init(), steps)
    ensures var w := Run(Init(), steps);
            && w.sent + ToSend(w) == Excluding(w.accepted, w.dropped)
            && (!w.conn.Draining? ==> w.sent + w.file + w.incoming == Excluding(w.accepted, w.dropped))
            && forall e | e in w.dropped :: e.bytes > 1_000_000
  {
    RunIsSound(Init(), steps);
    var w := Run(Init(), steps);
    assert !w.conn.Draining? ==> w.sent + ToSend(w) == w.sent + w.file + w.incoming;
  }

  // ---------- Where the guarantees end ----------

  lemma OvertakingShows(sent: seq<Event>, file: seq<Event>, e: Event, rest: seq<Event>)
    requires file != [] && sent + [e] + (file + rest) == sent + file + ([e] + rest)
    ensures file[0] == e
  {
    assert (sent + [e] + (file + rest))[|sent|] == e;
    assert (sent + file + ([e] + rest))[|sent|] == file[0];
  }

  // A successful send over a live connection keeps the order exactly when the
  // offline file is empty at that moment.
  lemma LiveSendKeepsOrderExactlyWhenFileIsEmpty(w: World)
    requires Numbered(w.accepted) && InOrder(w) && Enabled(w, LiveSend(true))
    ensures InOrder(Next(w, LiveSend(true))) <==> w.file == []
  {
    var e, rest := w.incoming[0], w.incoming[1..];
    SendSwaps(w.sent, w.file, w.incoming);
    if w.file == [] {
      assert w.sent + [e] + ([] + rest) == w.sent + [] + ([e] + rest);
    } else if InOrder(Next(w, LiveSend(true))) {
      OvertakingShows(w.sent, w.file, e, rest);
      EarlierId(w);
    }
  }

  // The next incoming event was accepted behind those of the file.
  lemma EarlierId(w: World)
    requires Numbered(w.accepted) && InOrder(w) && w.conn.Live? && w.incoming != [] && w.file != []
    ensures w.file[0].id < w.incoming[0].id
  {
    var flow := Excluding(w.accepted, w.dropped);
    assert flow[|w.sent|] == w.file[0] && flow[|w.sent| + |w.file|] == w.incoming[0];
    NoRepeats(w.accepted, w.dropped, |w.sent|, |w.sent| + |w.file|);
  }

  lemma SendSwaps(sent: seq<Event>, file: seq<Event>, incoming: seq<Event>)
    requires incoming != []
    ensures var e, rest := incoming[0], incoming[1..];
            && sent + (file + incoming) == sent + file + ([e] + rest)
            && (sent + [e]) + (file + rest) == sent + [e] + (file + rest)
  {
    assert incoming == [incoming[0]] + incoming[1..];
  }

  lemma {:induction false} NoRepeats(s: seq<Event>, out: seq<Event>, i: nat, j: nat)
    requires Numbered(s) && i < j < |Excluding(s, out)|
    ensures Excluding(s, out)[i].id < Excluding(s, out)[j].id < |s|
  {
    var n := |s| - 1;
    var earlier := Excluding(s[..n], out);
    if j < |earlier| {
      NoRepeats(s[..n], out, i, j);
    } else {
      ExcludingMembers(s[..n], out, earlier[i]);
    }
  }

  // ---------- Order over runs ----------

  // The events small enough for a drain to send.
  function Fitting(s: seq<Event>): seq<Event> {
    if s == [] then []
    else
      var last := s[|s| - 1];
      var earlier := Fitting(s[..|s| - 1]);
      if Oversized(last) then earlier else earlier + [last]
  }

  lemma {:induction false} FittingConcat(a: seq<Event>, b: seq<Event>)
    ensures Fitting(a + b) == Fitting(a) + Fitting(b)
  {
    if b == [] {
      assert a + b == a;
    } else {
      var n := |b| - 1;
      FittingConcat(a, b[..n]);
      assert (a + b)[..|a + b| - 1] == a + b[..n] && (a + b)[|a + b| - 1] == b[n];
    }
  }

  lemma {:induction false} FittingMembers(s: seq<Event>, e: Event)
    ensures e in Fitting(s) ==> e in s
  {
    if s != [] {
      FittingMembers(s[..|s| - 1], e);
    }
  }

  // What is in the file or in a drain's hands.
  function Stored(w: World): seq<Event> {
    if w.conn.Draining? && w.conn.next <= |w.conn.buffered|
    then w.conn.d.failed + w.conn.buffered[w.conn.next..] else w.file
  }

  predicate Ascending(s: seq<Event>) {
    forall i, j | 0 <= i < j < |s| :: s[i].id < s[j].id
  }

  // What has been delivered, and behind it what a drain will deliver.
  function Delivery(w: World): seq<Event> {
    w.sent + Fitting(Stored(w))
  }

  ghost predicate AllBelow(s: seq<Event>, n: int) {
    forall e | e in s :: e.id < n
  }

  // Incoming events are the last accepted; everything else was accepted before.
  ghost predicate Tracked(w: World) {
    && |w.incoming| <= |w.accepted|
    && (forall i | 0 <= i < |w.incoming| :: w.incoming[i].id == Head(w) + i)
    && AllBelow(w.sent, Head(w)) && AllBelow(Stored(w), Head(w))
    && (w.conn.Draining? ==> w.conn.next <= |w.conn.buffered| && (!w.conn.d.sendFailed ==> w.conn.d.failed == []))
  }

  // The number of the next event to leave the incoming queue.
  function Head(w: World): int {
    |w.accepted| - |w.incoming|
  }

  lemma BelowConcat(a: seq<Event>, b: seq<Event>, n: int)
    ensures AllBelow(a + b, n) <==> AllBelow(a, n) && AllBelow(b, n)
  {
    if AllBelow(a + b, n) {
      forall e | e in a || e in b ensures e.id < n { assert e in a + b; }
    }
  }

  lemma AscendingPrefix(s: seq<Event>, t: seq<Event>)
    requires Ascending(s + t)
    ensures Ascending(s)
  {
    forall i, j | 0 <= i < j < |s| ensures s[i].id < s[j].id { assert (s + t)[i] == s[i] && (s + t)[j] == s[j]; }
  }

  lemma AscendingThenLater(s: seq<Event>, e: Event)
    requires AllBelow(s, e.id)
    ensures Ascending(s + [e]) <==> Ascending(s)
  {
    if Ascending(s + [e]) {
      AscendingPrefix(s, [e]);
    }
    forall i | 0 <= i < |s| ensures s[i].id < e.id { assert s[i] in s; }
  }

  lemma AscendingWithOvertaker(s: seq<Event>, e: Event, stored: seq<Event>)
    requires AllBelow(s, e.id) && AllBelow(stored, e.id)
    ensures Ascending(s + [e] + stored) <==> Ascending(s + stored) && stored == []
  {
    if stored != [] {
      var t := s + [e] + stored;
      assert t[|s|] == e && t[|s| + 1] == stored[0] && stored[0] in stored;
    } else {
      assert s + [e] + stored == s + [e] && s + stored == s;
      AscendingThenLater(s, e);
    }
  }

  lemma OneFitting(e: Event)
    ensures Fitting([e]) == if Oversized(e) then [] else [e]
  {
    assert [e][..0] == [];
  }

  lemma FittingOneMore(a: seq<Event>, e: Event)
    ensures Fitting(a + [e]) == if Oversized(e) then Fitting(a) else Fitting(a) + [e]
  {
    assert (a + [e])[..|a|] == a;
  }

  lemma FittingFirst(e: Event, rest: seq<Event>)
    ensures Fitting([e] + rest) == if Oversized(e) then Fitting(rest) else [e] + Fitting(rest)
  {
    FittingConcat([e], rest);
    assert [] + [e] == [e];
    FittingOneMore([], e);
  }

  // What a drain still has, one event on.
  lemma FittingDrained(failed: seq<Event>, e: Event, rest: seq<Event>)
    ensures Fitting(failed + [e] + rest) == Fitting(failed + ([e] + rest))
    ensures Oversized(e) ==> Fitting(failed + rest) == Fitting(failed + ([e] + rest))
  {
    assert failed + ([e] + rest) == failed + [e] + rest;
    FittingConcat(failed, [e] + rest);
    FittingConcat(failed, rest);
    FittingFirst(e, rest);
  }

  lemma BelowDrained(sent: seq<Event>, failed: seq<Event>, e: Event, rest: seq<Event>, n: int)
    requires AllBelow(sent, n) && AllBelow(failed + ([e] + rest), n)
    ensures AllBelow(failed + rest, n) && AllBelow(failed + [e] + rest, n) && AllBelow(sent + [e], n)
  {
    assert failed + ([e] + rest) == failed + [e] + rest;
    BelowConcat(failed + [e], rest, n);
    BelowConcat(failed, [e], n);
    BelowConcat(failed, rest, n);
    BelowConcat(sent, [e], n);
  }

  // One round of a drain, in its three outcomes.
  lemma DrainRound(w: World, ok: bool)
    requires Enabled(w, DrainStep(ok))
    ensures var w', d, e, rest := Next(w, DrainStep(ok)), w.conn.d, w.conn.buffered[w.conn.next], w.conn.buffered[w.conn.next + 1..];
            && w'.conn.Draining? && w'.accepted == w.accepted && w'.incoming == w.incoming
            && w'.conn.next <= |w'.conn.buffered|
            && Stored(w) == d.failed + ([e] + rest)
            && (if Oversized(e) then w'.sent == w.sent && Stored(w') == d.failed + rest && w'.conn.d.failed == d.failed && w'.conn.d.sendFailed == d.sendFailed
                else if d.sendFailed || !ok then w'.sent == w.sent && Stored(w') == d.failed + [e] + rest && w'.conn.d.sendFailed
                else w'.sent == w.sent + [e] && Stored(w') == d.failed + rest && w'.conn.d == d.(sent := d.sent + [e]))
  {
    var d, e := w.conn.d, w.conn.buffered[w.conn.next];
    assert w.conn.buffered[w.conn.next..] == [e] + w.conn.buffered[w.conn.next + 1..];
    var w' := Next(w, DrainStep(ok));
    assert w'.sent == w.sent + w'.conn.d.sent[|d.sent|..];
    assert d.sent[|d.sent|..] == [] && (d.sent + [e])[|d.sent|..] == [e];
  }

  lemma DrainKeepsDelivery(sent: seq<Event>, failed: seq<Event>, e: Event, rest: seq<Event>)
    ensures Oversized(e) ==> sent + Fitting(failed + rest) == sent + Fitting(failed + ([e] + rest))
    ensures sent + Fitting(failed + [e] + rest) == sent + Fitting(failed + ([e] + rest))
    ensures !Oversized(e) && failed == [] ==> sent + [e] + Fitting(failed + rest) == sent + Fitting(failed + ([e] + rest))
  {
    FittingDrained(failed, e, rest);
    if !Oversized(e) && failed == [] {
      assert failed + rest == rest && failed + ([e] + rest) == [e] + rest;
      FittingFirst(e, rest);
    }
  }

  lemma DrainStepIsTracked(w: World, ok: bool)
    requires Tracked(w) && Enabled(w, DrainStep(ok))
    ensures Tracked(Next(w, DrainStep(ok)))
  {
    DrainRound(w, ok);
    BelowDrained(w.sent, w.conn.d.failed, w.conn.buffered[w.conn.next], w.conn.buffered[w.conn.next + 1..], Head(w));
  }

  lemma DrainStepDelivers(w: World, ok: bool)
    requires Tracked(w) && Enabled(w, DrainStep(ok))
    ensures Delivery(Next(w, DrainStep(ok))) == Delivery(w)
  {
    DrainRound(w, ok);
    DrainKeepsDelivery(w.sent, w.conn.d.failed, w.conn.buffered[w.conn.next], w.conn.buffered[w.conn.next + 1..]);
  }

  lemma DeliveryBelow(w: World)
    requires Tracked(w)
    ensures AllBelow(Delivery(w), Head(w)) && AllBelow(Fitting(Stored(w)), Head(w))
  {
    forall e | e in Fitting(Stored(w)) ensures e.id < Head(w) { FittingMembers(Stored(w), e); }
    BelowConcat(w.sent, Fitting(Stored(w)), Head(w));
  }

  // The next incoming event goes to the end of the file.
  lemma StoringDelivers(w: World, w': World)
    requires Tracked(w) && w.incoming != [] && !w.conn.Draining? && !w'.conn.Draining?
    requires w'.file == w.file + [w.incoming[0]] && w'.incoming == w.incoming[1..]
    requires w'.sent == w.sent && w'.accepted == w.accepted
    ensures Tracked(w') && (Ascending(Delivery(w')) <==> Ascending(Delivery(w)))
  {
    var e := w.incoming[0];
    DeliveryBelow(w);
    BelowConcat(w.file, [e], Head(w'));
    FittingOneMore(w.file, e);
    AscendingThenLater(Delivery(w), e);
    if Oversized(e) {
      assert Delivery(w') == Delivery(w);
    } else {
      assert Delivery(w') == Delivery(w) + [e];
    }
  }

  // During a drain it goes to a file that the drain's end will overwrite: what is
  // to be delivered stays the same.
  lemma LateStoringDelivers(w: World)
    requires Tracked(w) && Enabled(w, StaleSend) && w.conn.Draining?
    ensures var w' := Next(w, StaleSend); Tracked(w') && Delivery(w') == Delivery(w)
  {
    var w' := Next(w, StaleSend);
    assert Stored(w') == Stored(w) && w'.sent == w.sent && Head(w') == Head(w) + 1;
  }

  lemma LiveSendDelivers(w: World)
    requires Tracked(w) && Enabled(w, LiveSend(true))
    ensures var w' := Next(w, LiveSend(true));
            Tracked(w') && (Ascending(Delivery(w')) <==> Ascending(Delivery(w)) && Fitting(w.file) == [])
  {
    var w', e := Next(w, LiveSend(true)), w.incoming[0];
    DeliveryBelow(w);
    BelowConcat(w.sent, [e], Head(w'));
    AscendingWithOvertaker(w.sent, e, Fitting(w.file));
  }

  // The steps that move no event out of a queue.
  lemma QuietStepDelivers(w: World, step: Step)
    requires Tracked(w) && Enabled(w, step)
    requires step.Put? || step.Connect? || step.DrainEnds? || step.ConnectionDrops?
    ensures var w' := Next(w, step); Tracked(w') && Delivery(w') == Delivery(w)
  {
    var w' := Next(w, step);
    assert Stored(w') == Stored(w) && w'.sent == w.sent && Head(w') == Head(w);
  }

  lemma StepDelivers(w: World, step: Step)
    requires Tracked(w) && Enabled(w, step)
    ensures var w' := Next(w, step);
            Tracked(w') &&
            (Ascending(Delivery(w')) <==> Ascending(Delivery(w)) && (step == LiveSend(true) ==> Fitting(w.file) == []))
  {
    match step {
      case DrainStep(ok) =>
        DrainStepIsTracked(w, ok);
        DrainStepDelivers(w, ok);
      case LiveSend(ok) => if ok { LiveSendDelivers(w); } else { StoringDelivers(w, Next(w, step)); }
      case StaleSend => if w.conn.Draining? { LateStoringDelivers(w); } else { StoringDelivers(w, Next(w, step)); }
      case _ => QuietStepDelivers(w, step);
    }
  }

  // Step i of a run from the start is taken, and is a live send that goes past an
  // event still in the file.
  predicate OvertakesAt(steps: seq<Step>, i: nat)
    requires i < |steps|
  {
    var w := Run(Init(), steps[..i]);
    steps[i] == LiveSend(true) && Enabled(w, steps[i]) && Fitting(w.file) != []
  }

  lemma EarlierAt(steps: seq<Step>, n: nat, i: nat)
    requires i < n <= |steps|
    ensures OvertakesAt(steps[..n], i) == OvertakesAt(steps, i)
  {
    assert steps[..n][..i] == steps[..i];
  }

  lemma LastStepDelivers(steps: seq<Step>, n: nat)
    requires |steps| == n + 1 && Tracked(Run(Init(), steps[..n]))
    ensures Tracked(Run(Init(), steps))
    ensures Ascending(Delivery(Run(Init(), steps))) <==> Ascending(Delivery(Run(Init(), steps[..n]))) && !OvertakesAt(steps, n)
  {
    var before := Run(Init(), steps[..n]);
    if Enabled(before, steps[n]) {
      StepDelivers(before, steps[n]);
    }
  }

  // Over every run, stale sends at any time included: what has been and what will be
  // delivered is in the accepted order exactly when no live send went past an event
  // still in the file.
  lemma {:induction false} DeliveryInOrderExactlyWhenNothingIsOvertaken(steps: seq<Step>)
    ensures Tracked(Run(Init(), steps))
    ensures Ascending(Delivery(Run(Init(), steps))) <==> forall i: nat | i < |steps| :: !OvertakesAt(steps, i)
  {
    if steps == [] {
      assert Delivery(Init()) == [];
    } else {
      var n := |steps| - 1;
      forall i: nat | i < n ensures OvertakesAt(steps[..n], i) == OvertakesAt(steps, i) {
        EarlierAt(steps, n, i);
      }
      DeliveryInOrderExactlyWhenNothingIsOvertaken(steps[..n]);
      LastStepDelivers(steps, n);
    }
  }

  // A stale send outside any drain, and the next live send goes past it.
  lemma StaleSendIsOvertaken(a: nat, b: nat)
    requires a <= MAX_EVENT_BYTES
    ensures var w := Next(Next(Next(Next(Next(Init(), Put(a)), Put(b)), Connect), StaleSend), LiveSend(true));
            w.sent == [Event(1, b)] && w.file == [Event(0, a)] && !Ascending(Delivery(w))
  {
    var w := Next(Next(Next(Next(Next(Init(), Put(a)), Put(b)), Connect), StaleSend), LiveSend(true));
    OneFitting(Event(0, a));
    assert Delivery(w) == [Event(1, b), Event(0, a)];
    assert Delivery(w)[0].id == 1 && Delivery(w)[1].id == 0;
  }
}
