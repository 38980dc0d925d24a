/**
 Major steps of a fleet of sessions, found by comparing one snapshot with the
 one before. Ages are in seconds.
 */
module Supervisor {
  import opened Wrappers

  datatype Kind = Started | Finished | NeedsInput | Stalled

  datatype Session = Session(thread: string, caption: string, status: string, lastEventAt: Option<int>, age: Option<int>)

  type Snapshot = seq<Session>

  datatype MajorStep = MajorStep(thread: string, caption: string, kind: Kind, severity: nat)

  const STALL_THRESHOLD: int := 600

  predicate Terminal(status: string) {
    status in {"completed", "failed", "stopped"}
  }

  function SeverityFor(kind: Kind, status: string): nat {
    match kind
    case NeedsInput => 5
    case Finished => if status == "failed" then 4 else 3
    case Started => 2
    case Stalled => 1
  }

  // The entry for a thread in _index_by_id: the last session with that id.
  function Lookup(sessions: Snapshot, thread: string): (r: Option<Session>)
    ensures r.Some? ==> r.value in sessions && r.value.thread == thread
    ensures r.None? ==> forall s | s in sessions :: s.thread != thread
  {
    if sessions == [] then None
    else
      var n := |sessions| - 1;
      if sessions[n].thread == thread then Some(sessions[n]) else Lookup(sessions[..n], thread)
  }

  predicate IsStalled(s: Session) {
    s.age.Some? && s.age.value >= STALL_THRESHOLD
  }

  // The kind of step a session makes against its prior snapshot, if any.
  function KindOf(s: Session, prior: Option<Session>): Option<Kind> {
    if prior.None? then Some(Started)
    else if Terminal(s.status) && !Terminal(prior.value.status) then Some(Finished)
    else if s.status == "waiting_approval" && prior.value.status != "waiting_approval" then Some(NeedsInput)
    else if !Terminal(s.status) && s.status != "waiting_approval" && prior.value.lastEventAt == s.lastEventAt && IsStalled(s)
    then Some(Stalled)
    else None
  }

  function StepOf(s: Session, kind: Kind): MajorStep {
    MajorStep(s.thread, s.caption, kind, SeverityFor(kind, s.status))
  }

  function StepIn(prev: Snapshot, s: Session): seq<MajorStep> {
    match KindOf(s, Lookup(prev, s.thread))
    case None => []
    case Some(kind) => [StepOf(s, kind)]
  }

  // The steps of the sessions still there, in order ...
  function StepsIn(prev: Snapshot, curr: Snapshot): seq<MajorStep>
    decreases |curr|
  {
    if curr == [] then []
    else
      var n := |curr| - 1;
      StepsIn(prev, curr[..n]) + StepIn(prev, curr[n])
  }

  function VanishedStep(s: Session, curr: Snapshot): seq<MajorStep> {
    if Lookup(curr, s.thread).Some? || Terminal(s.status) then [] else [StepOf(s, Finished)]
  }

  // ... and those of the sessions gone.
  function StepsGone(prev: Snapshot, curr: Snapshot): seq<MajorStep>
    decreases |prev|
  {
    if prev == [] then []
    else
      var n := |prev| - 1;
      StepsGone(prev[..n], curr) + VanishedStep(prev[n], curr)
  }

  function Detected(prev: Snapshot, curr: Snapshot): seq<MajorStep> {
    StepsIn(prev, curr) + StepsGone(prev, curr)
  }

  method FinishedByDisappearance(prev: Snapshot, curr: Snapshot) returns (steps: seq<MajorStep>)
    ensures steps == StepsGone(prev, curr)
  {
    var currIds := set s | s in curr :: s.thread;
    steps := [];
    for i := 0 to |prev|
      invariant steps == StepsGone(prev[..i], curr)
    {
      var session := prev[i];
      assert prev[..i + 1][..i] == prev[..i];
      assert session.thread in currIds <==> Lookup(curr, session.thread).Some?;
      if session.thread in currIds || Terminal(session.status) {
        continue;
      }
      steps := steps + [StepOf(session, Finished)];
    }
    assert prev[..|prev|] == prev;
  }

  method DetectMajorSteps(prev: Snapshot, curr: Snapshot) returns (steps: seq<MajorStep>)
    ensures steps == Detected(prev, curr)
  {
    steps := [];
    for i := 0 to |curr|
      invariant steps == StepsIn(prev, curr[..i])
    {
      var kind := KindOf(curr[i], Lookup(prev, curr[i].thread));
      assert curr[..i + 1][..i] == curr[..i];
      if kind.Some? {
        steps := steps + [StepOf(curr[i], kind.value)];
      }
    }
    assert curr[..|curr|] == curr;
    var gone := FinishedByDisappearance(prev, curr);
    steps := steps + gone;
  }
}
