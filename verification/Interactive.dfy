/**
 InteractiveEngine: one long-lived process fed a line per turn, respawned when it
 is found dead or its pipe breaks. What the operating system decides about one
 write (is the process dead, do the writes go through) is an argument.
 */
module Interactive {
  import opened Wrappers

  // dead: poll() says the process exited; first, second: the two writes succeed.
  datatype Luck = Luck(dead: bool, first: bool, second: bool)

  // A spawn: with --resume or with --session-id, and how many lines were written before.
  datatype Spawn = Spawn(resume: bool, linesBefore: nat)

  datatype Engine = Engine(
    proc: Option<nat>, inFlight: bool, pending: seq<string>, stopped: bool,
    respawned: bool, startedOnce: bool,
    spawns: seq<Spawn>, written: seq<string>, completions: seq<bool>)

  // ---------- Specification of each method ----------

  function DoSpawn(e: Engine, resume: bool): Engine {
    e.(proc := Some(|e.spawns|), spawns := e.spawns + [Spawn(resume, |e.written|)])
  }

  function Wrote(e: Engine, text: string): Engine {
    e.(startedOnce := true, written := e.written + [text])
  }

  function Fail(e: Engine): Engine {
    e.(inFlight := false, completions := e.completions + [true])
  }

  predicate WriteSucceeds(e: Engine, luck: Luck) {
    luck.first || (!e.respawned && luck.second)
  }

  function WriteUserLine(e: Engine, text: string, luck: Luck): Engine {
    var ready := if e.proc.None? || luck.dead then DoSpawn(e, e.startedOnce) else e;
    var sent := if luck.first || ready.respawned then ready else DoSpawn(ready.(respawned := true), true);
    if WriteSucceeds(e, luck) then Wrote(sent, text) else Fail(sent)
  }

  function Send(e: Engine, text: string, luck: Luck): Engine {
    if e.stopped then e
    else if e.inFlight then e.(pending := e.pending + [text])
    else WriteUserLine(e.(inFlight := true, respawned := false), text, luck)
  }

  // A result event: the completion is reported first, without the lock ...
  function TellResult(e: Engine, isError: bool): Engine {
    e.(completions := e.completions + [isError])
  }

  // ... and then the next pending line is written, under it.
  function Advance(e: Engine, luck: Luck): Engine {
    if e.pending == [] then e.(inFlight := false)
    else WriteUserLine(e.(pending := e.pending[1..]), e.pending[0], luck)
  }

  predicate EofFails(e: Engine, p: nat) {
    !e.stopped && e.inFlight && e.proc == Some(p)
  }

  function Eof(e: Engine, p: nat): Engine {
    if EofFails(e, p) then Fail(e) else e
  }

  function Stop(e: Engine): Engine {
    e.(stopped := true)
  }

  class InteractiveEngine {
    var proc: Option<nat>
    var inFlight: bool
    var pending: seq<string>
    var stopped: bool
    var respawned: bool
    var startedOnce: bool
    var spawns: seq<Spawn>
    var written: seq<string>
    var completions: seq<bool>

    function View(): Engine
      reads this
    {
      Engine(proc, inFlight, pending, stopped, respawned, startedOnce, spawns, written, completions)
    }

    constructor (started: bool)
      ensures View() == Engine(None, false, [], false, false, started, [], [], [])
    {
      proc, inFlight, pending, stopped := None, false, [], false;
      respawned, startedOnce, spawns, written, completions := false, started, [], [], [];
    }

    method StartProcess(resume: bool)
      modifies this
      ensures View() == DoSpawn(old(View()), resume)
    {
      var id := |spawns|;
      spawns := spawns + [Spawn(resume, |written|)];
      proc := Some(id);
    }

    method SendText(text: string, luck: Luck)
      modifies this
      ensures View() == Send(old(View()), text, luck)
    {
      if stopped {
        return;
      }
      if inFlight {
        pending := pending + [text];
        return;
      }
      inFlight := true;
      respawned := false;
      WriteLine(text, luck);
    }

    method WriteLine(text: string, luck: Luck)
      modifies this
      ensures View() == WriteUserLine(old(View()), text, luck)
    {
      if proc.None? || luck.dead {
        StartProcess(startedOnce);
      }
      if !luck.first {
        if !respawned {
          respawned := true;
          StartProcess(true);
          if !luck.second {
            inFlight := false;
            completions := completions + [true];
            return;
          }
        } else {
          inFlight := false;
          completions := completions + [true];
          return;
        }
      }
      written := written + [text];
      startedOnce := true;
    }

    method ReadResult(isError: bool)
      modifies this
      ensures View() == TellResult(old(View()), isError)
    {
      completions := completions + [isError];
    }

    method GoOn(luck: Luck)
      modifies this
      ensures View() == Advance(old(View()), luck)
    {
      if pending != [] {
        var next := pending[0];
        pending := pending[1..];
        WriteLine(next, luck);
      } else {
        inFlight := false;
      }
    }

    method ReadEof(p: nat)
      modifies this
      ensures View() == Eof(old(View()), p)
    {
      if !stopped && inFlight && proc == Some(p) {
        completions := completions + [true];
        inFlight := false;
      }
    }

    method StopEngine()
      modifies this
      ensures View() == Stop(old(View()))
    {
      stopped := true;
    }
  }
}
