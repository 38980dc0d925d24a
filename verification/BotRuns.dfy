/**
 The loop over crashes and a cache that may forget. Updates are posted to the bot
 in ascending order, and the server drops those below an offset it was polled with.
 */
module BotRuns {
  import opened Wrappers
  import opened BotLoop

  // confirmed: the highest offset that a poll has reached the server with.
  datatype World = World(bot: Bot, posted: seq<nat>, confirmed: nat)

  datatype Step =
    | Post(id: nat)
    | Poll(limit: nat)
    | LostPoll          // the poll reaches the server, its answer is lost
    | BeginStep
    | RecordStep
    | Forget            // the recorded id expires, or is evicted or cleared
    | Crash

  function Init(): World {
    World(Started(None, []), [], 0)
  }

  // What getUpdates has to give: the updates from the offset on.
  function Pending(posted: seq<nat>, offset: nat): seq<nat> {
    if posted == [] then []
    else if posted[0] >= offset then [posted[0]] + Pending(posted[1..], offset)
    else Pending(posted[1..], offset)
  }

  function Max(a: nat, b: nat): nat {
    if a < b then b else a
  }

  // Updates below it have been handled since a restart last gave them up.
  function Frontier(w: World): nat {
    Max(w.bot.offset, w.confirmed)
  }

  function Next(w: World, step: Step): World {
    match step
    case Post(id) =>
      if w.posted != [] && id <= w.posted[|w.posted| - 1] then w else w.(posted := w.posted + [id])
    case Poll(limit) =>
      var pending := Pending(w.posted, Frontier(w));
      if w.bot.handling.Some? || w.bot.rest != [] then w
      else w.(bot := w.bot.(rest := if limit < |pending| then pending[..limit] else pending), confirmed := Frontier(w))
    case LostPoll => if w.bot.handling.Some? || w.bot.rest != [] then w else w.(confirmed := Frontier(w))
    case BeginStep => if w.bot.handling.Some? || w.bot.rest == [] then w else w.(bot := Begin(w.bot))
    case RecordStep => if w.bot.handling.None? then w else w.(bot := Record(w.bot))
    case Forget => w.(bot := w.bot.(cached := None))
    case Crash => w.(bot := Started(w.bot.cached, w.bot.handled))
  }

  function Run(w: World, steps: seq<Step>): World {
    if steps == [] then w else Next(Run(w, steps[..|steps| - 1]), steps[|steps| - 1])
  }

  // ---------- A whole batch ----------

  function BatchSteps(n: nat): seq<Step> {
    if n == 0 then [] else [BeginStep, RecordStep] + BatchSteps(n - 1)
  }

  lemma {:induction false} RunMore(w: World, steps: seq<Step>, more: seq<Step>)
    ensures Run(w, steps + more) == Run(Run(w, steps), more)
  {
    if more == [] {
      assert steps + more == steps;
    } else {
      var n := |more| - 1;
      RunMore(w, steps, more[..n]);
      assert (steps + more)[..|steps + more| - 1] == steps + more[..n];
    }
  }

  lemma TwoSteps(w: World, a: Step, b: Step)
    ensures Run(w, [a, b]) == Next(Next(w, a), b)
  {
    var one, two := [a], [a, b];
    assert one[..|one| - 1] == [] && two[..|two| - 1] == one;
    assert Run(w, one) == Next(Run(w, []), a);
  }

  // Handling and recording step by step is what HandleBatch does.
  lemma {:induction false} BatchIsHandleAll(w: World)
    requires w.bot.handling.None?
    ensures Run(w, BatchSteps(|w.bot.rest|)) == w.(bot := HandleAll(w.bot))
    decreases |w.bot.rest|
  {
    if w.bot.rest != [] {
      var begun := Next(w, BeginStep);
      var handled := Next(begun, RecordStep);
      TwoSteps(w, BeginStep, RecordStep);
      assert handled == w.(bot := HandleNext(w.bot));
      RunMore(w, [BeginStep, RecordStep], BatchSteps(|w.bot.rest| - 1));
      BatchIsHandleAll(handled);
    }
  }

  // Whatever a batch holds: the ids handled from it ascend and lie behind the one
  // recorded before, and the one recorded at the end is behind all of the batch.
  lemma {:induction false} AnyBatch(b: Bot)
    requires b.handling.None?
    ensures var b' := HandleAll(b);
            && b'.rest == [] && b'.handling.None? && b.handled <= b'.handled
            && (b.lastStored.Some? ==> b'.lastStored.Some? && b.lastStored.value <= b'.lastStored.value)
            && (forall id | id in b.rest :: b'.lastStored.Some? && id <= b'.lastStored.value)
            && (forall i | |b.handled| <= i < |b'.handled| ::
                  && b'.handled[i] in b.rest && (b.lastStored.Some? ==> b.lastStored.value < b'.handled[i])
                  && b'.handled[i] <= b'.lastStored.value)
            && (forall i, j | |b.handled| <= i < j < |b'.handled| :: b'.handled[i] < b'.handled[j])
    decreases |b.rest|
  {
    if b.rest != [] {
      assert b.rest == [b.rest[0]] + b.rest[1..];
      AnyBatch(HandleNext(b));
    }
  }

  // ---------- The invariant ----------

  predicate Ascending(s: seq<nat>) {
    forall i, j | 0 <= i < j < |s| :: s[i] < s[j]
  }

  function Times(s: seq<nat>, id: nat): nat {
    multiset(s)[id]
  }

  // What is recorded is what this process recorded last, unless forgotten since; the
  // offset is right behind that, or behind the update being handled.
  predicate OffsetFits(b: Bot) {
    && (b.cached.Some? ==> b.cached == b.lastStored)
    && b.offset == (if b.handling.Some? then b.handling.value + 1 else if b.lastStored.Some? then b.lastStored.value + 1 else 0)
    && (b.handling.Some? && b.lastStored.Some? ==> b.lastStored.value < b.handling.value)
  }

  // The offsets in use come from updates that were posted.
  predicate OffsetsPosted(w: World) {
    && (w.bot.lastStored.Some? ==> w.bot.lastStored.value in w.posted)
    && (w.bot.handling.Some? ==> w.bot.handling.value in w.posted)
    && (w.confirmed > 0 ==> w.confirmed - 1 in w.posted)
    && (w.bot.handling.Some? ==> w.confirmed <= w.bot.handling.value)
  }

  // A restart finds no recorded id at or behind this one, and no poll has confirmed it.
  predicate GivesUp(w: World, id: nat) {
    (w.bot.cached.Some? ==> w.bot.cached.value < id) && w.confirmed <= id
  }

  // The step is such a restart, and the update had been handled.
  predicate Undoes(w: World, step: Step, id: nat) {
    step.Crash? && id in w.posted && id < Frontier(w) && GivesUp(w, id)
  }

  function One(b: bool): nat {
    if b then 1 else 0
  }

  // How many restarts of a run undid the handling of an update.
  function Undone(w: World, steps: seq<Step>, id: nat): nat {
    if steps == [] then 0
    else
      var n := |steps| - 1;
      Undone(w, steps[..n], id) + One(Undoes(Run(w, steps[..n]), steps[n], id))
  }

  ghost predicate Sound(w: World) {
    && Ascending(w.posted)
    && OffsetFits(w.bot) && OffsetsPosted(w)
    && w.bot.rest <= Pending(w.posted, Frontier(w))
    && (forall id | id in w.bot.handled :: id in w.posted)
  }

  lemma {:induction false} PendingIsFrom(posted: seq<nat>, offset: nat, id: nat)
    ensures id in Pending(posted, offset) <==> id in posted && id >= offset
  {
    if posted != [] {
      PendingIsFrom(posted[1..], offset, id);
      assert posted == [posted[0]] + posted[1..];
    }
  }

  lemma {:induction false} PendingMore(posted: seq<nat>, id: nat, offset: nat)
    ensures Pending(posted, offset) <= Pending(posted + [id], offset)
  {
    if posted != [] {
      PendingMore(posted[1..], id, offset);
      assert (posted + [id])[1..] == posted[1..] + [id];
    }
  }

  // The first pending update is the least, and the others are those behind it.
  lemma LaterAreGreater(posted: seq<nat>)
    requires Ascending(posted) && posted != []
    ensures Ascending(posted[1..]) && forall id | id in posted[1..] :: id > posted[0]
  {
    forall id | id in posted[1..] ensures id > posted[0] {
      var i :| 0 <= i < |posted[1..]| && posted[1..][i] == id;
      assert posted[i + 1] == id;
    }
  }

  lemma FirstOrLater(posted: seq<nat>, id: nat)
    requires posted != []
    ensures id in posted <==> id == posted[0] || id in posted[1..]
  {
    assert posted == [posted[0]] + posted[1..];
  }

  lemma {:induction false} PendingBehindFirst(posted: seq<nat>, offset: nat)
    requires Ascending(posted) && Pending(posted, offset) != []
    ensures var first := Pending(posted, offset)[0];
            && first in posted && first >= offset
            && (forall id | id in posted && id >= offset :: first <= id)
            && Pending(posted, first + 1) == Pending(posted, offset)[1..]
  {
    LaterAreGreater(posted);
    forall id ensures id in posted <==> id == posted[0] || id in posted[1..] { FirstOrLater(posted, id); }
    if posted[0] >= offset {
      AllPending(posted[1..], offset);
      AllPending(posted[1..], posted[0] + 1);
      assert ([posted[0]] + posted[1..])[1..] == posted[1..];
    } else {
      PendingBehindFirst(posted[1..], offset);
    }
  }

  lemma {:induction false} AllPending(posted: seq<nat>, offset: nat)
    requires forall id | id in posted :: id >= offset
    ensures Pending(posted, offset) == posted
  {
    if posted != [] {
      assert posted[0] in posted;
      forall id | id in posted[1..] ensures id >= offset { assert id in posted; }
      AllPending(posted[1..], offset);
      assert posted == [posted[0]] + posted[1..];
    }
  }

  lemma PrefixTransitive(a: seq<nat>, b: seq<nat>, c: seq<nat>)
    requires a <= b <= c
    ensures a <= c
  {
  }

  // A new update lies at the frontier or behind it, and has not been handled.
  lemma NewIsAfterAll(w: World, id: nat)
    requires Sound(w) && (w.posted != [] ==> id > w.posted[|w.posted| - 1])
    ensures id !in w.posted && Times(w.bot.handled, id) == 0 && Frontier(w) <= id
  {
    forall x | x in w.posted ensures x < id {
      var i :| 0 <= i < |w.posted| && w.posted[i] == x;
    }
  }

  lemma PostIsSound(w: World, id: nat)
    requires Sound(w)
    ensures Sound(Next(w, Post(id)))
  {
    var w' := Next(w, Post(id));
    if w' != w {
      PendingMore(w.posted, id, Frontier(w));
      NewIsAfterAll(w, id);
      forall i | 0 <= i < |w.posted| ensures w.posted[i] < id {
        assert w.posted[i] <= w.posted[|w.posted| - 1];
      }
      PrefixTransitive(w.bot.rest, Pending(w.posted, Frontier(w)), Pending(w'.posted, Frontier(w)));
    }
  }

  // The update begun is the least at the frontier or behind it.
  lemma BeginIsLeast(w: World)
    requires Sound(w) && w.bot.handling.None? && w.bot.rest != []
    ensures var id, w' := w.bot.rest[0], Next(w, BeginStep);
            && w'.bot == w.bot.(rest := w.bot.rest[1..], offset := id + 1, handling := Some(id), handled := w.bot.handled + [id])
            && id in w.posted && Frontier(w) <= id && Frontier(w') == id + 1
            && (forall x | x in w.posted && x >= Frontier(w) :: id <= x)
            && w'.bot.rest <= Pending(w.posted, id + 1)
  {
    PendingBehindFirst(w.posted, Frontier(w));
    assert w.bot.rest[0] == Pending(w.posted, Frontier(w))[0];
  }

  lemma CrashIsSound(w: World)
    requires Sound(w)
    ensures Sound(Next(w, Crash))
  {
    var rest: seq<nat> := [];
    assert rest <= Pending(w.posted, Frontier(Next(w, Crash)));
  }

  lemma PollIsSound(w: World, limit: nat)
    requires Sound(w)
    ensures Sound(Next(w, Poll(limit)))
  {
  }

  lemma StepIsSound(w: World, step: Step)
    requires Sound(w)
    ensures Sound(Next(w, step))
  {
    match step {
      case Post(id) => PostIsSound(w, id);
      case BeginStep => if w.bot.handling.None? && w.bot.rest != [] { BeginIsLeast(w); }
      case Crash => CrashIsSound(w);
      case Poll(limit) => PollIsSound(w, limit);
      case _ => assert Frontier(Next(w, step)) == Frontier(w);
    }
  }

  lemma {:induction false} RunIsSound(steps: seq<Step>)
    ensures Sound(Run(Init(), steps))
  {
    if steps != [] {
      RunIsSound(steps[..|steps| - 1]);
      StepIsSound(Run(Init(), steps[..|steps| - 1]), steps[|steps| - 1]);
    }
  }

  // ---------- How often an update is handled ----------

  // A step handles the update, or gives it up, or neither.
  lemma StepCounts(w: World, step: Step, id: nat)
    requires Sound(w) && id in w.posted
    ensures var w' := Next(w, step);
            && id in w'.posted
            && Times(w'.bot.handled, id) + One(id < Frontier(w))
               == Times(w.bot.handled, id) + One(Undoes(w, step, id)) + One(id < Frontier(w'))
  {
    if step.BeginStep? && w.bot.handling.None? && w.bot.rest != [] {
      BeginIsLeast(w);
    }
  }

  lemma PostedCounts(w: World, step: Step, id: nat)
    requires Sound(w) && id !in w.posted && id in Next(w, step).posted
    ensures Times(Next(w, step).bot.handled, id) == 0 && Frontier(Next(w, step)) <= id && !Undoes(w, step, id)
  {
    NewIsAfterAll(w, id);
  }

  lemma PostedStays(w: World, step: Step)
    ensures w.posted <= Next(w, step).posted
  {
  }

  lemma {:induction false} NotPostedNotUndone(w: World, steps: seq<Step>, id: nat)
    requires id !in Run(w, steps).posted
    ensures Undone(w, steps, id) == 0
  {
    if steps != [] {
      var n := |steps| - 1;
      PostedStays(Run(w, steps[..n]), steps[n]);
      NotPostedNotUndone(w, steps[..n], id);
    }
  }

  // Over every run, with crashes and a cache that may forget: an update below the
  // frontier has been handled once, and once more for each restart that undid it;
  // one from the frontier on, once for each such restart. So none is skipped.
  lemma {:induction false} HandledOncePlusOncePerUndoing(steps: seq<Step>, id: nat)
    requires id in Run(Init(), steps).posted
    ensures var w := Run(Init(), steps);
            Times(w.bot.handled, id) == Undone(Init(), steps, id) + One(id < Frontier(w))
  {
    if steps != [] {
      var n := |steps| - 1;
      var before := Run(Init(), steps[..n]);
      RunIsSound(steps[..n]);
      if id in before.posted {
        HandledOncePlusOncePerUndoing(steps[..n], id);
        StepCounts(before, steps[n], id);
      } else {
        NotPostedNotUndone(Init(), steps[..n], id);
        PostedCounts(before, steps[n], id);
      }
    }
  }

  lemma {:induction false} UndoneMore(w: World, steps: seq<Step>, more: seq<Step>, id: nat)
    ensures Undone(w, steps + more, id) == Undone(w, steps, id) + Undone(Run(w, steps), more, id)
  {
    if more == [] {
      assert steps + more == steps;
    } else {
      var n := |more| - 1;
      UndoneMore(w, steps, more[..n], id);
      RunMore(w, steps, more[..n]);
      assert (steps + more)[..|steps + more| - 1] == steps + more[..n];
    }
  }

  // Has the process recorded the update, and not given it up since?
  predicate IsRecorded(w: World, id: nat) {
    id in w.posted && id < Frontier(w) && w.bot.handling != Some(id)
  }

  // From any reachable state on: a recorded update has been handled again, or is to
  // be, if and only if some restart found no recorded id at or behind it while no
  // poll had confirmed it.
  lemma RecordedIsHandledAgainExactlyWhenGivenUp(steps: seq<Step>, more: seq<Step>, id: nat)
    requires IsRecorded(Run(Init(), steps), id)
    ensures var w := Run(Init(), steps);
            var w' := Run(w, more);
            Times(w'.bot.handled, id) + One(id >= Frontier(w')) > Times(w.bot.handled, id)
            <==> exists i: nat :: i < |more| && UndoesAt(w, more, i, id)
  {
    var w := Run(Init(), steps);
    RunMore(Init(), steps, more);
    RunKeepsPosted(w, more);
    HandledOncePlusOncePerUndoing(steps, id);
    HandledOncePlusOncePerUndoing(steps + more, id);
    UndoneMore(Init(), steps, more, id);
    UndoneSomewhere(w, more, id);
  }

  predicate UndoesAt(w: World, steps: seq<Step>, i: nat, id: nat)
    requires i < |steps|
  {
    Undoes(Run(w, steps[..i]), steps[i], id)
  }

  lemma {:induction false} RunKeepsPosted(w: World, steps: seq<Step>)
    ensures w.posted <= Run(w, steps).posted
  {
    if steps != [] {
      var n := |steps| - 1;
      RunKeepsPosted(w, steps[..n]);
      PostedStays(Run(w, steps[..n]), steps[n]);
    }
  }

  lemma {:induction false} UndoneSomewhere(w: World, steps: seq<Step>, id: nat)
    ensures Undone(w, steps, id) > 0 <==> exists i: nat :: i < |steps| && UndoesAt(w, steps, i, id)
  {
    if steps != [] {
      var n := |steps| - 1;
      UndoneSomewhere(w, steps[..n], id);
      forall i: nat | i < n ensures UndoesAt(w, steps[..n], i, id) == UndoesAt(w, steps, i, id) {
        assert steps[..n][..i] == steps[..i];
      }
      assert UndoesAt(w, steps, n, id) == Undoes(Run(w, steps[..n]), steps[n], id);
    }
  }

  // What is still to be handled lies behind what this process recorded last, and
  // behind what any poll has confirmed.
  lemma RecordedIsNotInTheBatch(steps: seq<Step>)
    ensures var w := Run(Init(), steps);
            forall id | id in w.bot.rest :: w.confirmed <= id && (w.bot.lastStored.Some? ==> w.bot.lastStored.value < id)
  {
    var w := Run(Init(), steps);
    RunIsSound(steps);
    forall id | id in w.bot.rest ensures id >= Frontier(w) {
      assert id in Pending(w.posted, Frontier(w));
      PendingIsFrom(w.posted, Frontier(w), id);
    }
  }

  // ---------- What is on record ----------

  // The update a step begins to handle, if it does.
  function BegunBy(w: World, step: Step): Option<nat> {
    var handled := Next(w, step).bot.handled;
    if |handled| > |w.bot.handled| then Some(handled[|handled| - 1]) else None
  }

  // The update being handled: begun, and neither recorded nor given up by a crash.
  function InHand(steps: seq<Step>): Option<nat> {
    if steps == [] then None
    else
      var n := |steps| - 1;
      if BegunBy(Run(Init(), steps[..n]), steps[n]).Some? then BegunBy(Run(Init(), steps[..n]), steps[n])
      else if steps[n].RecordStep? || steps[n].Crash? then None
      else InHand(steps[..n])
  }

  // The update recorded last, unless the record was lost since.
  function OnRecord(steps: seq<Step>): Option<nat> {
    if steps == [] then None
    else
      var n := |steps| - 1;
      if steps[n].Forget? then None
      else if steps[n].RecordStep? && InHand(steps[..n]).Some? then InHand(steps[..n])
      else OnRecord(steps[..n])
  }

  // Right behind the update begun last, or, since a restart, behind the one on record then.
  function PollsFrom(steps: seq<Step>): nat {
    if steps == [] then 0
    else
      var n := |steps| - 1;
      if steps[n].Crash? then (if OnRecord(steps[..n]).Some? then OnRecord(steps[..n]).value + 1 else 0)
      else if BegunBy(Run(Init(), steps[..n]), steps[n]).Some? then BegunBy(Run(Init(), steps[..n]), steps[n]).value + 1
      else PollsFrom(steps[..n])
  }

  // Over every run the cache holds the update recorded last, or nothing once that was
  // lost; the loop polls from behind the update it began last, and after a restart
  // from behind the one on record, or from the start.
  lemma {:induction false} RecordAndOffsetAreTheLast(steps: seq<Step>)
    ensures var w := Run(Init(), steps);
            w.bot.cached == OnRecord(steps) && w.bot.handling == InHand(steps) && w.bot.offset == PollsFrom(steps)
  {
    if steps != [] {
      var n := |steps| - 1;
      RecordAndOffsetAreTheLast(steps[..n]);
      RunIsSound(steps[..n]);
      StepOfRecord(Run(Init(), steps[..n]), steps[n]);
    }
  }

  lemma StepOfRecord(w: World, step: Step)
    requires Sound(w)
    ensures var w', begun := Next(w, step), BegunBy(w, step);
            && w'.bot.handling == (if begun.Some? then begun else if step.RecordStep? || step.Crash? then None else w.bot.handling)
            && w'.bot.cached == (if step.Forget? then None else if step.RecordStep? && w.bot.handling.Some? then w.bot.handling else w.bot.cached)
            && w'.bot.offset == (if step.Crash? then (if w.bot.cached.Some? then w.bot.cached.value + 1 else 0)
                                 else if begun.Some? then begun.value + 1 else w.bot.offset)
  {
    if step.BeginStep? && w.bot.handling.None? && w.bot.rest != [] { BeginIsLeast(w); }
  }

  // ---------- Runs that handle an update again ----------

  lemma TwoPending(x: nat, y: nat)
    requires x < y
    ensures Pending([x, y], 0) == [x, y] && Pending([x, y], x + 1) == [y]
  {
    var both, last := [x, y], [y];
    assert both[1..] == last && last[1..] == [];
    assert Pending(last, 0) == last && Pending(last, x + 1) == last;
    assert [x] + last == both;
  }

  // The comment in the code prefers at-most-once handling; a crash in the middle handles again.
  lemma CrashHandlesAgain(id: nat)
    ensures var w := Next(Next(Next(Next(Init(), Post(id)), Poll(100)), BeginStep), Crash);
            Next(Next(w, Poll(100)), BeginStep).bot.handled == [id, id]
  {
    assert [id][1..] == [] && [] + [id] == [id];
    assert Pending([id], 0) == [id];
  }

  // Two updates come in one batch. The first is handled and recorded; the second
  // hangs until the recorded id has expired and the process is killed.
  function Hung(x: nat, y: nat): World {
    World(Bot(y + 1, Some(x), None, [], Some(y), [x, y]), [x, y], 0)
  }

  lemma HangAndExpire(x: nat, y: nat)
    requires x < y
    ensures var polled := Next(Next(Next(Init(), Post(x)), Post(y)), Poll(100));
            Next(Next(Next(Next(polled, BeginStep), RecordStep), BeginStep), Forget) == Hung(x, y)
  {
    TwoPending(x, y);
    assert [] + [x] == [x] && [x] + [y] == [x, y] && [x, y][1..] == [y] && [y][1..] == [];
  }

  // The restart polls from the start, and the first is handled again, although it
  // was recorded and not interrupted.
  lemma ExpiredRecordHandlesAgain(x: nat, y: nat)
    requires x < y
    ensures IsRecorded(Hung(x, y), x) && Undoes(Hung(x, y), Crash, x)
    ensures Next(Next(Next(Hung(x, y), Crash), Poll(100)), BeginStep).bot.handled == [x, y, x]
  {
    TwoPending(x, y);
    assert x in [x, y] by { assert [x, y][0] == x; }
    var started := Next(Hung(x, y), Crash);
    assert Next(started, Poll(100)).bot.rest == [x, y];
    assert [x, y][0] == x && [x, y] + [x] == [x, y, x];
  }
}
