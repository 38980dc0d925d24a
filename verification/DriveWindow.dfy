/**
 What becomes of an event parsed by the tail, told from the history alone: when
 it was parsed, and how the drive window around it ended. No buffer here.
 */
module DriveWindow {
  import opened Wrappers
  import opened Transcript

  datatype Act = Parsed(event: Event) | Opened | Closed(success: bool)
  datatype Fate = Delivered | Waiting | Echo

  // A drive had been started and not yet finished before the i-th act.
  predicate InWindow(log: seq<Act>, i: nat)
    requires i <= |log|
  {
    i > 0 && match log[i - 1] {
      case Opened => true
      case Closed(_) => false
      case Parsed(_) => InWindow(log, i - 1)
    }
  }

  // How the first drive to finish from the i-th act on finished.
  function Closing(log: seq<Act>, i: nat): Option<bool>
    requires i <= |log|
    decreases |log| - i
  {
    if i == |log| then None
    else if log[i].Closed? then Some(log[i].success)
    else Closing(log, i + 1)
  }

  function FateOf(log: seq<Act>, i: nat): Fate
    requires i < |log| && log[i].Parsed?
  {
    if !InWindow(log, i) then Delivered
    else match Closing(log, i)
      case None => Waiting
      case Some(success) => if success && log[i].event.role.Assistant? then Echo else Delivered
  }

  predicate HasFate(log: seq<Act>, i: nat, fate: Fate)
    requires i < |log|
  {
    log[i].Parsed? && FateOf(log, i) == fate
  }

  // The events among the first n acts that meet a fate, in the order parsed.
  function Meeting(log: seq<Act>, n: nat, fate: Fate): seq<Event>
    requires n <= |log|
  {
    if n == 0 then []
    else
      var earlier := Meeting(log, n - 1, fate);
      if HasFate(log, n - 1, fate) then earlier + [log[n - 1].event] else earlier
  }

  function All(log: seq<Act>, fate: Fate): seq<Event> {
    Meeting(log, |log|, fate)
  }

  // ---------- One more act ----------

  lemma {:induction false} WindowOfPrefix(log: seq<Act>, act: Act, i: nat)
    requires i <= |log|
    ensures InWindow(log + [act], i) == InWindow(log, i)
  {
    if i > 0 {
      WindowOfPrefix(log, act, i - 1);
    }
  }

  lemma {:induction false} ClosingOfPrefix(log: seq<Act>, act: Act, i: nat)
    requires i <= |log|
    ensures Closing(log + [act], i) ==
            if Closing(log, i).Some? then Closing(log, i)
            else if act.Closed? then Some(act.success) else None
    decreases |log| - i
  {
    if i < |log| {
      ClosingOfPrefix(log, act, i + 1);
    } else {
      assert Closing(log + [act], |log| + 1) == None;
    }
  }

  // Once waiting, everything later is waiting too.
  lemma {:induction false} WindowStaysOpen(log: seq<Act>, j: nat, i: nat)
    requires j <= i <= |log|
    requires InWindow(log, j) && Closing(log, j).None?
    ensures InWindow(log, i) && Closing(log, i).None?
    decreases i - j
  {
    if j < i {
      WindowStaysOpen(log, j + 1, i);
    }
  }

  lemma {:induction false} NothingWaitsBefore(log: seq<Act>, n: nat, i: nat)
    requires n <= i <= |log|
    requires !(InWindow(log, i) && Closing(log, i).None?)
    ensures Meeting(log, n, Waiting) == []
  {
    if n > 0 {
      NothingWaitsBefore(log, n - 1, i);
      if HasFate(log, n - 1, Waiting) {
        WindowStaysOpen(log, n - 1, i);
      }
    }
  }

  lemma {:induction false} OtherActsKeepFates(log: seq<Act>, act: Act, n: nat, fate: Fate)
    requires n <= |log| && !act.Closed?
    ensures Meeting(log + [act], n, fate) == Meeting(log, n, fate)
  {
    if n > 0 {
      OtherActsKeepFates(log, act, n - 1, fate);
      WindowOfPrefix(log, act, n - 1);
      ClosingOfPrefix(log, act, n - 1);
    }
  }

  lemma {:induction false} ClosingResolves(log: seq<Act>, success: bool, n: nat)
    requires n <= |log|
    ensures var log' := log + [Closed(success)];
            && Meeting(log', n, Waiting) == []
            && Meeting(log', n, Delivered) == Meeting(log, n, Delivered) + Replayed(Meeting(log, n, Waiting), success)
  {
    if n > 0 {
      ClosingResolves(log, success, n - 1);
      WindowOfPrefix(log, Closed(success), n - 1);
      ClosingOfPrefix(log, Closed(success), n - 1);
      if HasFate(log, n - 1, Waiting) {
        UserEventsConcat(Meeting(log, n - 1, Waiting), [log[n - 1].event]);
      } else if log[n - 1].Parsed? {
        NothingWaitsBefore(log, n - 1, n - 1);
      }
    }
  }

  // ---------- The buffer implements the fates ----------

  ghost predicate Agrees(t: Tail, log: seq<Act>) {
    && t.suppress == InWindow(log, |log|)
    && t.buffer == All(log, Waiting)
    && t.emitted == All(log, Delivered)
  }

  lemma ParsingAgrees(t: Tail, log: seq<Act>, event: Event)
    requires Agrees(t, log)
    ensures Agrees(Accept(t, [event]), log + [Parsed(event)])
  {
    var log' := log + [Parsed(event)];
    OtherActsKeepFates(log, Parsed(event), |log|, Waiting);
    OtherActsKeepFates(log, Parsed(event), |log|, Delivered);
    WindowOfPrefix(log, Parsed(event), |log|);
    assert Closing(log', |log| + 1).None?;
    assert Meeting(log', |log| + 1, Waiting) == All(log', Waiting);
  }

  lemma OpeningAgrees(t: Tail, log: seq<Act>)
    requires Agrees(t, log)
    ensures Agrees(DriveStarted(t), log + [Opened])
  {
    OtherActsKeepFates(log, Opened, |log|, Waiting);
    OtherActsKeepFates(log, Opened, |log|, Delivered);
  }

  lemma ClosingAgrees(t: Tail, log: seq<Act>, success: bool, size: Option<nat>)
    requires Agrees(t, log)
    ensures Agrees(DriveFinished(t, success, size), log + [Closed(success)])
  {
    ClosingResolves(log, success, |log|);
  }

  function ParsedActs(events: seq<Event>): seq<Act> {
    seq(|events|, i requires 0 <= i < |events| => Parsed(events[i]))
  }

  lemma {:induction false} ParsingAllAgrees(t: Tail, log: seq<Act>, events: seq<Event>)
    requires Agrees(t, log)
    ensures Agrees(Accept(t, events), log + ParsedActs(events))
    decreases |events|
  {
    if events == [] {
      assert log + ParsedActs([]) == log;
    } else {
      var first := [events[0]];
      ParsingAgrees(t, log, events[0]);
      ParsingAllAgrees(Accept(t, first), log + [Parsed(events[0])], events[1..]);
      assert log + [Parsed(events[0])] + ParsedActs(events[1..]) == log + ParsedActs(events);
      assert first + events[1..] == events;
      assert t.buffer + first + events[1..] == t.buffer + events;
      assert t.emitted + first + events[1..] == t.emitted + events;
    }
  }

  // ---------- What the fates amount to ----------

  // The parsed events, whatever became of them.
  function EventsOf(log: seq<Act>): seq<Event> {
    if log == [] then []
    else
      var last := log[|log| - 1];
      var earlier := EventsOf(log[..|log| - 1]);
      if last.Parsed? then earlier + [last.event] else earlier
  }

  lemma {:induction false} EventsOfParsed(log: seq<Act>, events: seq<Event>)
    ensures EventsOf(log + ParsedActs(events)) == EventsOf(log) + events
  {
    if events == [] {
      assert log + ParsedActs(events) == log;
    } else {
      var n := |events| - 1;
      EventsOfParsed(log, events[..n]);
      var whole := log + ParsedActs(events);
      assert whole[..|whole| - 1] == log + ParsedActs(events[..n]);
      assert events == events[..n] + [events[n]];
    }
  }
}
