/**
 The polling loop of the Telegram bot: it asks for updates from an offset on,
 handles them one by one, and records each id so that a restart goes on behind
 it. Handling may fail; the id is recorded all the same.
 */
module BotLoop {
  import opened Wrappers

  /** rest is what is left of the batch polled; handling the update being handled. */
  datatype Bot = Bot(offset: nat, lastStored: Option<nat>, cached: Option<nat>,
                     rest: seq<nat>, handling: Option<nat>, handled: seq<nat>)

  // A process starts behind the id recorded last.
  function Started(cached: Option<nat>, handled: seq<nat>): Bot {
    Bot(if cached.Some? then cached.value + 1 else 0, cached, cached, [], None, handled)
  }

  // The next update of the batch: skipped if recorded already, else handled.
  function Begin(b: Bot): Bot
    requires b.handling.None? && b.rest != []
  {
    var id, rest := b.rest[0], b.rest[1..];
    if b.lastStored.Some? && id <= b.lastStored.value then b.(rest := rest)
    else b.(rest := rest, offset := id + 1, handling := Some(id), handled := b.handled + [id])
  }

  function Record(b: Bot): Bot
    requires b.handling.Some?
  {
    b.(cached := b.handling, lastStored := b.handling, handling := None)
  }

  function HandleNext(b: Bot): Bot
    requires b.handling.None? && b.rest != []
  {
    var begun := Begin(b);
    if begun.handling.Some? then Record(begun) else begun
  }

  function HandleAll(b: Bot): Bot
    requires b.handling.None?
    decreases |b.rest|
  {
    if b.rest == [] then b else HandleAll(HandleNext(b))
  }

  class Loop {
    var offset: nat
    var lastStored: Option<nat>
    var cached: Option<nat>
    var handled: seq<nat>

    function View(rest: seq<nat>): Bot
      reads this
    {
      Bot(offset, lastStored, cached, rest, None, handled)
    }

    constructor (cached: Option<nat>)
      ensures View([]) == Started(cached, [])
    {
      this.cached, lastStored, handled := cached, cached, [];
      offset := if cached.Some? then cached.value + 1 else 0;
    }

    method HandleBatch(updates: seq<nat>)
      modifies this
      ensures View([]) == HandleAll(old(View(updates)))
    {
      var i := 0;
      while i < |updates|
        invariant i <= |updates|
        invariant HandleAll(View(updates[i..])) == HandleAll(old(View(updates)))
      {
        var id := updates[i];
        assert updates[i..][0] == id && updates[i..][1..] == updates[i + 1..];
        i := i + 1;
        if lastStored.Some? && id <= lastStored.value {
          continue;
        }
        offset := id + 1;
        handled := handled + [id];
        cached := Some(id);
        lastStored := Some(id);
      }
      assert updates[i..] == [];
    }
  }
}
