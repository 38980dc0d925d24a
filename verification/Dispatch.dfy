/**
 Concurrent start_session calls. A call takes the advisory lock of its session id
 twice: to find or create the thread, and later to create the thread's Telegram
 topic. Between the two, and for calls without a session id, nothing is locked.
 The lock key is a hash of the id and may collide.
 */
module Dispatch {
  import opened Wrappers

  // The thread metadata start_session reads or writes.
  datatype Meta = Meta(cwd: string, topic: Option<nat>)

  /** A thread row: bound to a session id when pty, a plain API thread otherwise. */
  datatype Row = Row(session: string, pty: bool, active: bool, meta: Meta)

  datatype Pc =
    | Arrived
    | Locked                                       // first lock section entered
    | Looked(found: Option<nat>, loaded: Meta)     // existing thread looked up
    | Committed(thread: nat)                       // first section over
    | Relocked(thread: nat)                        // second lock section entered
    | Refreshed(thread: nat, loaded: Meta)         // metadata read again
    | Created(thread: nat, loaded: Meta, topic: nat) // topic made, not yet recorded
    | Done(thread: nat)

  /** minted is the fresh id of a call that names no session. */
  datatype Call = Call(session: string, minted: string, host: bool, cwd: string, pc: Pc)
  {
    predicate Holds() {
      pc.Locked? || pc.Looked? || pc.Relocked? || pc.Refreshed? || (pc.Created? && session != "")
    }

    predicate HasThread() {
      pc.Committed? || pc.Relocked? || pc.Refreshed? || pc.Created? || pc.Done?
    }

    function BoundId(): string {
      if session != "" then session else minted
    }

    // Still relying on nobody knowing the id it minted.
    predicate Minting() {
      session == "" && !pc.Done?
    }
  }

  // topics lists the threads a topic was created for, once per creation; unsaved
  // those of them whose topic was never recorded on the thread.
  datatype World = World(rows: seq<Row>, calls: seq<Call>, topics: seq<nat>, unsaved: seq<nat>)

  type Key = string -> int

  datatype Step =
    | Arrive(session: string, minted: string, host: bool, cwd: string)
    | TakeLock(call: nat)
    | Look(call: nat)
    | CommitThread(call: nat)
    | CreateUnlocked(call: nat)
    | TakeLockAgain(call: nat)
    | Refresh(call: nat)
    | MakeTopic(call: nat, made: bool)
    | MakeTopicUnlocked(call: nat, made: bool)
    | SaveTopic(call: nat, saved: bool)             // not saved: the save failed, or the process died
    | End(row: nat)

  // ---------- What a call does ----------

  predicate Matches(row: Row, session: string) {
    row.pty && row.active && row.session == session
  }

  // _find_existing_session_thread: the newest active thread of the session.
  function FindExisting(rows: seq<Row>, session: string): (found: Option<nat>)
    ensures found.Some? ==> found.value < |rows| && Matches(rows[found.value], session)
    ensures found.None? ==> forall i | 0 <= i < |rows| :: !Matches(rows[i], session)
  {
    if rows == [] then None
    else if Matches(rows[|rows| - 1], session) then Some(|rows| - 1)
    else FindExisting(rows[..|rows| - 1], session)
  }

  // pg_advisory_xact_lock is granted when no open transaction holds the key.
  predicate Free(w: World, key: Key, session: string) {
    forall c | 0 <= c < |w.calls| && w.calls[c].Holds() :: key(w.calls[c].session) != key(session)
  }

  function At(w: World, c: nat, pc: Pc): World
    requires c < |w.calls|
  {
    w.(calls := w.calls[c := w.calls[c].(pc := pc)])
  }

  function WithMeta(w: World, row: nat, meta: Meta): World
    requires row < |w.rows|
  {
    w.(rows := w.rows[row := w.rows[row].(meta := meta)])
  }

  // _ensure_session_topic, up to the answer of create_forum_topic.
  function TopicMade(w: World, c: nat, row: nat, loaded: Meta, made: bool): World
    requires c < |w.calls|
  {
    if loaded.topic.None? && made then At(w, c, Created(row, loaded, |w.topics|)).(topics := w.topics + [row])
    else At(w, c, Done(row))
  }

  // The metadata of a thread as this call creates it.
  function CreatedMeta(call: Call): Meta {
    Meta(if call.host then call.cwd else "", None)
  }

  predicate Enabled(w: World, key: Key, step: Step) {
    match step
    case Arrive(_, _, _, _) => true
    case TakeLock(c) =>
      c < |w.calls| && w.calls[c].pc.Arrived? && w.calls[c].host && w.calls[c].session != "" && Free(w, key, w.calls[c].session)
    case Look(c) => c < |w.calls| && w.calls[c].pc.Locked?
    case CommitThread(c) =>
      && c < |w.calls| && w.calls[c].pc.Looked?
      && (w.calls[c].pc.found.Some? ==> w.calls[c].pc.found.value < |w.rows|)
    case CreateUnlocked(c) =>
      c < |w.calls| && w.calls[c].pc.Arrived? && (!w.calls[c].host || w.calls[c].session == "")
    case TakeLockAgain(c) =>
      c < |w.calls| && w.calls[c].pc.Committed? && w.calls[c].session != "" && Free(w, key, w.calls[c].session)
    case Refresh(c) => c < |w.calls| && w.calls[c].pc.Relocked? && w.calls[c].pc.thread < |w.rows|
    case MakeTopic(c, _) => c < |w.calls| && w.calls[c].pc.Refreshed? && w.calls[c].pc.thread < |w.rows|
    case MakeTopicUnlocked(c, _) =>
      c < |w.calls| && w.calls[c].pc.Committed? && w.calls[c].session == "" && w.calls[c].pc.thread < |w.rows|
    case SaveTopic(c, _) => c < |w.calls| && w.calls[c].pc.Created? && w.calls[c].pc.thread < |w.rows|
    case End(r) => r < |w.rows|
  }

  function Next(w: World, key: Key, step: Step): World
    requires Enabled(w, key, step)
  {
    match step
    case Arrive(session, minted, host, cwd) =>
      w.(calls := w.calls + [Call(session, minted, host, cwd, Arrived)])
    case TakeLock(c) => At(w, c, Locked)
    case Look(c) =>
      var found := FindExisting(w.rows, w.calls[c].session);
      At(w, c, Looked(found, if found.Some? then w.rows[found.value].meta else Meta("", None)))
    case CommitThread(c) =>
      var call := w.calls[c];
      if call.pc.found.Some? then
        At(WithMeta(w, call.pc.found.value, call.pc.loaded.(cwd := call.cwd)), c, Committed(call.pc.found.value))
      else
        At(w.(rows := w.rows + [Row(call.session, true, true, CreatedMeta(call))]), c, Committed(|w.rows|))
    case CreateUnlocked(c) =>
      var call := w.calls[c];
      var row := if call.host then Row(call.minted, true, true, CreatedMeta(call))
                 else Row("", false, true, CreatedMeta(call));
      At(w.(rows := w.rows + [row]), c, Committed(|w.rows|))
    case TakeLockAgain(c) => At(w, c, Relocked(w.calls[c].pc.thread))
    case Refresh(c) =>
      var t := w.calls[c].pc.thread;
      At(w, c, Refreshed(t, w.rows[t].meta))
    case MakeTopic(c, made) => TopicMade(w, c, w.calls[c].pc.thread, w.calls[c].pc.loaded, made)
    case MakeTopicUnlocked(c, made) =>
      // The thread object in memory is the one this call created.
      TopicMade(w, c, w.calls[c].pc.thread, CreatedMeta(w.calls[c]), made)
    case SaveTopic(c, saved) =>
      var pc := w.calls[c].pc;
      if saved then At(WithMeta(w, pc.thread, pc.loaded.(topic := Some(pc.topic))), c, Done(pc.thread))
      else At(w.(unsaved := w.unsaved + [pc.thread]), c, Done(pc.thread))
    case End(r) => w.(rows := w.rows[r := w.rows[r].(active := false)])
  }

  // A minted id is a random UUID: it is new, and nobody names it before the call
  // that minted it is over.
  predicate Secret(w: World, step: Step) {
    step.Arrive? ==>
      && (forall c | 0 <= c < |w.calls| :: w.calls[c].Minting() ==> w.calls[c].minted != step.session)
      && (step.session == "" ==>
            && step.minted != ""
            && (forall c | 0 <= c < |w.calls| :: w.calls[c].session != step.minted && w.calls[c].minted != step.minted)
            && (forall r | 0 <= r < |w.rows| :: w.rows[r].session != step.minted))
  }

  function Run(w: World, key: Key, steps: seq<Step>): World {
    if steps == [] then w
    else
      var before := Run(w, key, steps[..|steps| - 1]);
      var step := steps[|steps| - 1];
      if Enabled(before, key, step) && Secret(before, step) then Next(before, key, step) else before
  }
}
