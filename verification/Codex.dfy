/**
 CodexEngine: one process per turn, at most one turn in flight, later texts in a
 FIFO. Every method runs under the engine's lock, so each is one step; what the
 operating system decides (does the spawn succeed) is an argument.
 */
module Codex {
  import opened Wrappers

  // The command line of one spawn, as far as it depends on the engine.
  datatype Argv = FreshExec(text: string) | Resume(session: string, text: string)

  /** The engine's fields. spawned lists the processes started, the last being
      the newest; completions lists the calls of on_turn_complete. */
  datatype Engine = Engine(
    sessionId: Option<string>, inFlight: bool, pending: seq<string>, stopped: bool,
    proc: Option<nat>, finished: bool, spawned: seq<Argv>, completions: seq<bool>)

  // ---------- Specification of each method ----------

  // if self._session_id: an empty id counts as none.
  function ArgvFor(e: Engine, text: string): Argv {
    if e.sessionId.Some? && e.sessionId.value != "" then Resume(e.sessionId.value, text) else FreshExec(text)
  }

  function RunTurn(e: Engine, text: string, spawnOk: bool): Engine {
    if spawnOk then e.(spawned := e.spawned + [ArgvFor(e, text)], proc := Some(|e.spawned|))
    else e.(inFlight := false, completions := e.completions + [true])
  }

  function Send(e: Engine, text: string, spawnOk: bool): Engine {
    if e.stopped then e
    else if e.inFlight then e.(pending := e.pending + [text])
    else RunTurn(e.(inFlight := true, finished := false), text, spawnOk)
  }

  // Completing a turn, then starting the next pending one if there is one.
  function CompleteAndGoOn(e: Engine, isError: bool, spawnOk: bool): Engine {
    var told := e.(completions := e.completions + [isError]);
    if e.pending == [] then told.(inFlight := false)
    else RunTurn(told.(pending := e.pending[1..], finished := false), e.pending[0], spawnOk)
  }

  predicate FinishIgnored(e: Engine) {
    e.finished || e.stopped
  }

  function Finish(e: Engine, isError: bool, spawnOk: bool): Engine {
    if FinishIgnored(e) then e
    else CompleteAndGoOn(e.(finished := true), isError, spawnOk)
  }

  predicate EofFails(e: Engine, proc: nat) {
    !e.stopped && e.inFlight && e.proc == Some(proc) && !e.finished
  }

  function Eof(e: Engine, proc: nat, spawnOk: bool): Engine {
    if EofFails(e, proc) then CompleteAndGoOn(e, true, spawnOk) else e
  }

  function ThreadStarted(e: Engine, id: string): Engine {
    if id == "" then e else e.(sessionId := Some(id))
  }

  function Stop(e: Engine): Engine {
    e.(stopped := true)
  }

  class CodexEngine {
    var sessionId: Option<string>
    var inFlight: bool
    var pending: seq<string>
    var stopped: bool
    var proc: Option<nat>
    var finished: bool
    var spawned: seq<Argv>
    var completions: seq<bool>

    function View(): Engine
      reads this
    {
      Engine(sessionId, inFlight, pending, stopped, proc, finished, spawned, completions)
    }

    constructor (sessionId: Option<string>)
      ensures View() == Engine(sessionId, false, [], false, None, false, [], [])
    {
      this.sessionId, inFlight, pending, stopped := sessionId, false, [], false;
      proc, finished, spawned, completions := None, false, [], [];
    }

    method SendText(text: string, spawnOk: bool)
      modifies this
      ensures View() == Send(old(View()), text, spawnOk)
    {
      if stopped {
        return;
      }
      if inFlight {
        pending := pending + [text];
        return;
      }
      inFlight := true;
      finished := false;
      Launch(text, spawnOk);
    }

    method Launch(text: string, spawnOk: bool)
      modifies this
      ensures View() == RunTurn(old(View()), text, spawnOk)
    {
      var argv;
      if sessionId.Some? && sessionId.value != "" {
        argv := Resume(sessionId.value, text);
      } else {
        argv := FreshExec(text);
      }
      if !spawnOk {
        inFlight := false;
        completions := completions + [true];
        return;
      }
      proc := Some(|spawned|);
      spawned := spawned + [argv];
    }

    method ReadThreadStarted(id: string)
      modifies this
      ensures View() == ThreadStarted(old(View()), id)
    {
      if id != "" {
        sessionId := Some(id);
      }
    }

    method FinishTurn(isError: bool, spawnOk: bool)
      modifies this
      ensures View() == Finish(old(View()), isError, spawnOk)
    {
      if finished || stopped {
        return;
      }
      finished := true;
      completions := completions + [isError];
      if pending != [] {
        var next := pending[0];
        pending := pending[1..];
        finished := false;
        Launch(next, spawnOk);
      } else {
        inFlight := false;
      }
    }

    method ReadEof(p: nat, spawnOk: bool)
      modifies this
      ensures View() == Eof(old(View()), p, spawnOk)
    {
      if !stopped && inFlight && proc == Some(p) && !finished {
        completions := completions + [true];
        if pending != [] {
          var next := pending[0];
          pending := pending[1..];
          finished := false;
          Launch(next, spawnOk);
        } else {
          inFlight := false;
        }
      }
    }

    method StopEngine()
      modifies this
      ensures View() == Stop(old(View()))
    {
      stopped := true;
    }
  }
}
