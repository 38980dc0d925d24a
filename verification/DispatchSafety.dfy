/** What the two lock sections guarantee, for any number of calls and any key. */
module DispatchSafety {
  import opened Wrappers
  import opened Dispatch

  // ---------- The invariant ----------

  ghost predicate Exclusive(w: World, key: Key) {
    forall c, d | 0 <= c < |w.calls| && 0 <= d < |w.calls| && c != d && w.calls[c].Holds() && w.calls[d].Holds() ::
      key(w.calls[c].session) != key(w.calls[d].session)
  }

  // At most one active thread per session id.
  ghost predicate OneActive(rows: seq<Row>) {
    forall i, j | 0 <= i < |rows| && 0 <= j < |rows| && i != j && rows[i].pty && rows[i].active && rows[j].pty && rows[j].active ::
      rows[i].session != rows[j].session
  }

  function Made(topics: seq<nat>, row: nat): nat {
    multiset(topics)[row]
  }

  // A call has made a topic for the thread and not recorded it yet.
  predicate Saving(w: World, row: nat) {
    exists c | 0 <= c < |w.calls| :: w.calls[c].pc.Created? && w.calls[c].pc.thread == row
  }

  function One(b: bool): nat {
    if b then 1 else 0
  }

  // Every topic made for a thread is the recorded one, one being recorded, or one left unsaved.
  ghost predicate CountedAt(w: World, r: nat)
    requires r < |w.rows|
  {
    Made(w.topics, r) == Made(w.unsaved, r) + One(w.rows[r].meta.topic.Some?) + One(Saving(w, r))
  }

  ghost predicate Counted(w: World) {
    && (forall t | t in w.topics || t in w.unsaved :: t < |w.rows|)
    && (forall r: nat | r < |w.rows| :: CountedAt(w, r))
  }

  // The thread a call found, created or works on.
  function Target(call: Call): Option<nat> {
    if call.pc.Looked? then call.pc.found
    else if call.HasThread() then Some(call.pc.thread)
    else None
  }

  // It is bound to the call's id, or is an API thread.
  ghost predicate Owns(rows: seq<Row>, call: Call) {
    Target(call).Some? ==>
      var t := Target(call).value;
      t < |rows| && rows[t].pty == call.host && (call.host ==> rows[t].session == call.BoundId())
  }

  // The metadata a call will build on: read under the lock, or written when it
  // created the thread under an id nobody else knows.
  function Basis(call: Call): Option<Meta> {
    match call.pc
    case Looked(found, loaded) => if found.Some? then Some(loaded) else None
    case Refreshed(_, loaded) => Some(loaded)
    case Created(_, loaded, _) => Some(loaded)
    case Committed(_) => if call.Minting() then Some(CreatedMeta(call)) else None
    case _ => None
  }

  ghost predicate Current(rows: seq<Row>, call: Call) {
    && (Basis(call).Some? ==>
          Target(call).Some? && (Target(call).value < |rows| ==> rows[Target(call).value].meta == Basis(call).value))
    && (call.pc.Created? ==> call.pc.loaded.topic.None?)
    && (call.pc.Looked? && call.pc.found.None? ==> forall r | 0 <= r < |rows| :: !Matches(rows[r], call.session))
    && (call.Minting() && call.pc.Arrived? ==> forall r | 0 <= r < |rows| :: rows[r].session != call.minted)
  }

  ghost predicate WellFormed(call: Call) {
    && (call.pc.Locked? || call.pc.Looked? ==> call.host)
    && (call.Holds() ==> call.session != "")
    && (call.session == "" ==> call.minted != "")
  }

  ghost predicate CallOk(rows: seq<Row>, call: Call) {
    WellFormed(call) && Owns(rows, call) && Current(rows, call)
  }

  // Two calls share a thread only through a session id both were given.
  ghost predicate Apart(c: Call, d: Call) {
    && (c.Minting() ==> d.BoundId() != c.minted)
    && (c.HasThread() && d.HasThread() && !c.host && !d.host ==> c.pc.thread != d.pc.thread)
  }

  ghost predicate AllApart(calls: seq<Call>) {
    forall c, d | 0 <= c < |calls| && 0 <= d < |calls| && c != d :: Apart(calls[c], calls[d])
  }

  ghost predicate AllOk(w: World) {
    forall c | 0 <= c < |w.calls| :: CallOk(w.rows, w.calls[c])
  }

  ghost predicate Sound(w: World, key: Key) {
    Exclusive(w, key) && OneActive(w.rows) && AllOk(w) && AllApart(w.calls)
  }

  // ---------- What one call does leaves the others' knowledge true ----------

  // The call may write its target: it holds the lock, or nobody else knows the id.
  predicate MayWrite(call: Call) {
    call.Holds() || call.Minting()
  }

  lemma MetaFrame(rows: seq<Row>, key: Key, c: Call, d: Call, t: nat, meta: Meta)
    requires CallOk(rows, c) && CallOk(rows, d) && Apart(c, d) && Apart(d, c)
    requires c.Holds() && d.Holds() ==> key(c.session) != key(d.session)
    requires t < |rows| && Target(c) == Some(t) && MayWrite(c)
    ensures CallOk(rows[t := rows[t].(meta := meta)], d)
  {
  }

  lemma AppendFrame(rows: seq<Row>, key: Key, c: Call, d: Call, row: Row)
    requires CallOk(rows, c) && CallOk(rows, d) && Apart(c, d) && Apart(d, c)
    requires c.Holds() && d.Holds() ==> key(c.session) != key(d.session)
    requires if row.pty then row.session == c.BoundId() && MayWrite(c) else row.session == ""
    ensures CallOk(rows + [row], d)
  {
  }

  lemma EndFrame(rows: seq<Row>, d: Call, r: nat)
    requires CallOk(rows, d) && r < |rows|
    ensures CallOk(rows[r := rows[r].(active := false)], d)
  {
  }

  // ---------- Each kind of step ----------

  // Everything but what call c itself knows.
  ghost predicate SoundBut(w: World, key: Key, c: nat) {
    && Exclusive(w, key) && OneActive(w.rows) && AllApart(w.calls)
    && forall d | 0 <= d < |w.calls| && d != c :: CallOk(w.rows, w.calls[d])
  }

  // Call c moves on, knowing what its new place needs.
  lemma MoveIsSound(w: World, key: Key, c: nat, pc: Pc)
    requires SoundBut(w, key, c) && c < |w.calls|
    requires var call := w.calls[c].(pc := pc);
             && CallOk(w.rows, call)
             && (call.Holds() ==> w.calls[c].Holds() || Free(w, key, call.session))
             && (call.Minting() ==> w.calls[c].Minting())
             && (call.HasThread() && !call.host ==>
                  (w.calls[c].HasThread() && w.calls[c].pc.thread == call.pc.thread)
                  || forall d | 0 <= d < |w.calls| && d != c && w.calls[d].HasThread() :: w.calls[d].pc.thread != call.pc.thread)
    ensures Sound(At(w, c, pc), key)
  {
    var w' := At(w, c, pc);
    assert Exclusive(w', key);
    forall d | 0 <= d < |w'.calls| ensures CallOk(w'.rows, w'.calls[d]) { }
    forall i, j | 0 <= i < |w'.calls| && 0 <= j < |w'.calls| && i != j ensures Apart(w'.calls[i], w'.calls[j]) {
      assert Apart(w.calls[i], w.calls[j]) && Apart(w.calls[j], w.calls[i]);
    }
  }

  lemma MetaKeepsOneActive(rows: seq<Row>, t: nat, meta: Meta)
    requires OneActive(rows) && t < |rows|
    ensures OneActive(rows[t := rows[t].(meta := meta)])
  {
  }

  // Call c changes its target's metadata.
  lemma WriteIsSound(w: World, key: Key, c: nat, t: nat, meta: Meta)
    requires Sound(w, key) && c < |w.calls| && t < |w.rows|
    requires Target(w.calls[c]) == Some(t) && MayWrite(w.calls[c])
    ensures SoundBut(WithMeta(w, t, meta), key, c)
  {
    var w' := WithMeta(w, t, meta);
    forall d | 0 <= d < |w.calls| && d != c ensures CallOk(w'.rows, w'.calls[d]) {
      MetaFrame(w.rows, key, w.calls[c], w.calls[d], t, meta);
    }
    MetaKeepsOneActive(w.rows, t, meta);
  }

  // Call c creates its thread.
  lemma CreateIsSound(w: World, key: Key, c: nat, row: Row)
    requires Sound(w, key) && c < |w.calls|
    requires if row.pty then row.session == w.calls[c].BoundId() && MayWrite(w.calls[c]) else row.session == ""
    requires row.pty ==> forall r | 0 <= r < |w.rows| :: !Matches(w.rows[r], row.session)
    ensures SoundBut(w.(rows := w.rows + [row]), key, c)
  {
    var w' := w.(rows := w.rows + [row]);
    forall d | 0 <= d < |w.calls| && d != c ensures CallOk(w'.rows, w'.calls[d]) {
      AppendFrame(w.rows, key, w.calls[c], w.calls[d], row);
    }
    assert OneActive(w'.rows) by {
      forall i, j | 0 <= i < |w'.rows| && 0 <= j < |w'.rows| && i != j && Matches(w'.rows[i], w'.rows[i].session)
        ensures !Matches(w'.rows[j], w'.rows[i].session)
      {
      }
    }
  }

  lemma ArriveIsSound(w: World, key: Key, step: Step)
    requires Sound(w, key) && step.Arrive? && Secret(w, step)
    ensures Sound(Next(w, key, step), key)
  {
    var w' := Next(w, key, step);
    forall c, d | 0 <= c < |w'.calls| && 0 <= d < |w'.calls| && c != d ensures Apart(w'.calls[c], w'.calls[d]) {
      if c < |w.calls| && d < |w.calls| { assert Apart(w.calls[c], w.calls[d]); }
    }
  }

  lemma EndIsSound(w: World, key: Key, r: nat)
    requires Sound(w, key) && r < |w.rows|
    ensures Sound(Next(w, key, End(r)), key)
  {
    var w' := Next(w, key, End(r));
    forall d | 0 <= d < |w.calls| ensures CallOk(w'.rows, w'.calls[d]) {
      EndFrame(w.rows, w.calls[d], r);
    }
  }

  lemma CommitThreadIsSound(w: World, key: Key, c: nat)
    requires Sound(w, key) && Enabled(w, key, CommitThread(c))
    ensures Sound(Next(w, key, CommitThread(c)), key)
  {
    var call := w.calls[c];
    assert CallOk(w.rows, call);
    if call.pc.found.Some? {
      var t, meta := call.pc.found.value, call.pc.loaded.(cwd := call.cwd);
      WriteIsSound(w, key, c, t, meta);
      MoveIsSound(WithMeta(w, t, meta), key, c, Committed(t));
    } else {
      var row := Row(call.session, true, true, CreatedMeta(call));
      CreateIsSound(w, key, c, row);
      MoveIsSound(w.(rows := w.rows + [row]), key, c, Committed(|w.rows|));
    }
  }

  lemma CreateUnlockedIsSound(w: World, key: Key, c: nat)
    requires Sound(w, key) && Enabled(w, key, CreateUnlocked(c))
    ensures Sound(Next(w, key, CreateUnlocked(c)), key)
  {
    var call := w.calls[c];
    assert CallOk(w.rows, call);
    var row := if call.host then Row(call.minted, true, true, CreatedMeta(call)) else Row("", false, true, CreatedMeta(call));
    CreateIsSound(w, key, c, row);
    forall d | 0 <= d < |w.calls| && d != c && w.calls[d].HasThread() ensures w.calls[d].pc.thread != |w.rows| {
      assert CallOk(w.rows, w.calls[d]);
    }
    MoveIsSound(w.(rows := w.rows + [row]), key, c, Committed(|w.rows|));
  }

  lemma MakeTopicIsSound(w: World, key: Key, c: nat, made: bool, step: Step)
    requires Sound(w, key) && Enabled(w, key, step)
    requires step == MakeTopic(c, made) || step == MakeTopicUnlocked(c, made)
    ensures Sound(Next(w, key, step), key)
  {
    var call := w.calls[c];
    assert CallOk(w.rows, call);
    var loaded := if step.MakeTopic? then call.pc.loaded else CreatedMeta(call);
    MoveIsSound(w, key, c, if loaded.topic.None? && made then Created(call.pc.thread, loaded, |w.topics|) else Done(call.pc.thread));
  }

  lemma SaveTopicIsSound(w: World, key: Key, c: nat, saved: bool)
    requires Sound(w, key) && Enabled(w, key, SaveTopic(c, saved))
    ensures Sound(Next(w, key, SaveTopic(c, saved)), key)
  {
    var call := w.calls[c];
    var t := call.pc.thread;
    assert CallOk(w.rows, call);
    if saved {
      var meta := call.pc.loaded.(topic := Some(call.pc.topic));
      WriteIsSound(w, key, c, t, meta);
      MoveIsSound(WithMeta(w, t, meta), key, c, Done(t));
    } else {
      MoveIsSound(w, key, c, Done(t));
    }
  }

  lemma StepIsSound(w: World, key: Key, step: Step)
    requires Sound(w, key) && Enabled(w, key, step) && Secret(w, step)
    ensures Sound(Next(w, key, step), key)
  {
    match step {
      case Arrive(_, _, _, _) => ArriveIsSound(w, key, step);
      case TakeLock(c) =>
        assert CallOk(w.rows, w.calls[c]);
        MoveIsSound(w, key, c, Locked);
      case Look(c) =>
        assert CallOk(w.rows, w.calls[c]);
        var found := FindExisting(w.rows, w.calls[c].session);
        MoveIsSound(w, key, c, Looked(found, if found.Some? then w.rows[found.value].meta else Meta("", None)));
      case CommitThread(c) => CommitThreadIsSound(w, key, c);
      case CreateUnlocked(c) => CreateUnlockedIsSound(w, key, c);
      case TakeLockAgain(c) =>
        assert CallOk(w.rows, w.calls[c]);
        MoveIsSound(w, key, c, Relocked(w.calls[c].pc.thread));
      case Refresh(c) =>
        assert CallOk(w.rows, w.calls[c]);
        MoveIsSound(w, key, c, Refreshed(w.calls[c].pc.thread, w.rows[w.calls[c].pc.thread].meta));
      case MakeTopic(c, made) => MakeTopicIsSound(w, key, c, made, step);
      case MakeTopicUnlocked(c, made) => MakeTopicIsSound(w, key, c, made, step);
      case SaveTopic(c, saved) => SaveTopicIsSound(w, key, c, saved);
      case End(r) => EndIsSound(w, key, r);
    }
  }

  // ---------- Counting topics ----------

  // Two calls never record topics of one thread at a time.
  lemma OneSaving(w: World, key: Key, c: nat, d: nat)
    requires Sound(w, key) && c < |w.calls| && d < |w.calls| && c != d
    requires w.calls[c].pc.Created? && MayWrite(w.calls[d]) && w.calls[d].HasThread()
    ensures w.calls[c].pc.thread != w.calls[d].pc.thread
  {
    assert CallOk(w.rows, w.calls[c]) && CallOk(w.rows, w.calls[d]);
    assert Apart(w.calls[c], w.calls[d]) && Apart(w.calls[d], w.calls[c]);
  }

  lemma OneMoreMade(topics: seq<nat>, t: nat, r: nat)
    ensures Made(topics + [t], r) == Made(topics, r) + One(t == r)
  {
  }

  // Call c goes on to pc; whether a thread's topic is being recorded changes only for c's.
  lemma SavingAt(w: World, c: nat, pc: Pc, r: nat)
    requires c < |w.calls|
    requires forall d | 0 <= d < |w.calls| && d != c && w.calls[d].pc.Created? && r == w.calls[d].pc.thread ::
               !(w.calls[c].pc.Created? && w.calls[c].pc.thread == r)
    ensures Saving(At(w, c, pc), r) <==>
            (Saving(w, r) && !(w.calls[c].pc.Created? && w.calls[c].pc.thread == r)) || (pc.Created? && pc.thread == r)
  {
    var w' := At(w, c, pc);
    if Saving(w', r) {
      var d :| 0 <= d < |w'.calls| && w'.calls[d].pc.Created? && w'.calls[d].pc.thread == r;
      assert d != c ==> w.calls[d] == w'.calls[d];
    }
    if Saving(w, r) {
      var d :| 0 <= d < |w.calls| && w.calls[d].pc.Created? && w.calls[d].pc.thread == r;
      assert d != c ==> w.calls[d] == w'.calls[d];
    }
    assert w'.calls[c].pc == pc;
  }

  // Nobody else is recording a topic for the thread a call may write.
  lemma NobodySaving(w: World, key: Key, c: nat)
    requires Sound(w, key) && c < |w.calls| && MayWrite(w.calls[c]) && w.calls[c].HasThread() && !w.calls[c].pc.Created?
    ensures !Saving(w, w.calls[c].pc.thread)
  {
    forall d | 0 <= d < |w.calls| && w.calls[d].pc.Created? ensures w.calls[d].pc.thread != w.calls[c].pc.thread {
      OneSaving(w, key, d, c);
    }
  }

  lemma MadeCounts(w: World, w': World, c: nat, t: nat, r: nat)
    requires c < |w.calls| && r < |w.rows| && CountedAt(w, r) && !w.calls[c].pc.Created? && !Saving(w, t)
    requires w'.rows == w.rows && w'.unsaved == w.unsaved
    requires |w'.calls| == |w.calls| && w'.calls == w.calls[c := w'.calls[c]] && w'.topics == w.topics + [t]
    requires w'.calls[c].pc.Created? && w'.calls[c].pc.thread == t
    ensures CountedAt(w', r)
  {
    OneMoreMade(w.topics, t, r);
    SavingAt(w, c, w'.calls[c].pc, r);
    SavingIn(At(w, c, w'.calls[c].pc), w', r);
  }

  lemma SavingIn(w: World, w': World, r: nat)
    requires |w.calls| == |w'.calls| && forall c | 0 <= c < |w.calls| :: w.calls[c].pc == w'.calls[c].pc
    ensures Saving(w, r) == Saving(w', r)
  {
    if Saving(w, r) {
      var c :| 0 <= c < |w.calls| && w.calls[c].pc.Created? && w.calls[c].pc.thread == r;
      assert w'.calls[c].pc == w.calls[c].pc;
    }
    if Saving(w', r) {
      var c :| 0 <= c < |w'.calls| && w'.calls[c].pc.Created? && w'.calls[c].pc.thread == r;
      assert w.calls[c].pc == w'.calls[c].pc;
    }
  }

  lemma NoneMadeCounts(w: World, w': World, c: nat, r: nat)
    requires c < |w.calls| && r < |w.rows| && CountedAt(w, r) && !w.calls[c].pc.Created?
    requires w'.rows == w.rows && w'.unsaved == w.unsaved && w'.topics == w.topics
    requires |w'.calls| == |w.calls| && w'.calls == w.calls[c := w'.calls[c]] && !w'.calls[c].pc.Created?
    ensures CountedAt(w', r)
  {
    SavingAt(w, c, w'.calls[c].pc, r);
    SavingIn(At(w, c, w'.calls[c].pc), w', r);
  }

  lemma MakeTopicCounts(w: World, key: Key, c: nat, made: bool, step: Step)
    requires Sound(w, key) && Counted(w) && Enabled(w, key, step)
    requires step == MakeTopic(c, made) || step == MakeTopicUnlocked(c, made)
    ensures Counted(Next(w, key, step))
  {
    var t, w' := w.calls[c].pc.thread, Next(w, key, step);
    NobodySaving(w, key, c);
    forall r: nat | r < |w'.rows| ensures CountedAt(w', r) {
      assert CountedAt(w, r);
      if w'.calls[c].pc.Created? {
        MadeCounts(w, w', c, t, r);
      } else {
        NoneMadeCounts(w, w', c, r);
      }
    }
  }

  lemma SaveTopicCounts(w: World, key: Key, c: nat, saved: bool)
    requires Sound(w, key) && Counted(w) && Enabled(w, key, SaveTopic(c, saved))
    ensures Counted(Next(w, key, SaveTopic(c, saved)))
  {
    var call, w' := w.calls[c], Next(w, key, SaveTopic(c, saved));
    var t := call.pc.thread;
    assert CallOk(w.rows, call);
    forall d | 0 <= d < |w.calls| && d != c && w.calls[d].pc.Created? ensures w.calls[d].pc.thread != t {
      assert CallOk(w.rows, w.calls[d]);
      OneSaving(w, key, d, c);
    }
    forall r: nat | r < |w'.rows| ensures CountedAt(w', r) {
      assert CountedAt(w, r);
      SavingAt(w, c, Done(t), r);
      OneMoreMade(w.unsaved, t, r);
      assert Saving(At(w, c, Done(t)), r) == Saving(w', r);
      assert Saving(w, t) by { assert w.calls[c].pc.Created? && w.calls[c].pc.thread == t; }
    }
  }

  // Steps that neither make nor record a topic; row is the one added, if any.
  lemma OtherStepCounts(w: World, key: Key, step: Step)
    requires Sound(w, key) && Counted(w) && Enabled(w, key, step)
    requires !step.MakeTopic? && !step.MakeTopicUnlocked? && !step.SaveTopic?
    ensures Counted(Next(w, key, step))
  {
    var w' := Next(w, key, step);
    SameSaving(w, key, step);
    forall r: nat | r < |w'.rows| ensures CountedAt(w', r) {
      if r < |w.rows| {
        assert CountedAt(w, r);
        SameTopic(w, key, step, r);
      } else {
        NewRowCounts(w, key, step, r);
      }
    }
  }

  lemma SameSaving(w: World, key: Key, step: Step)
    requires Enabled(w, key, step) && !step.MakeTopic? && !step.MakeTopicUnlocked? && !step.SaveTopic?
    ensures var w' := Next(w, key, step);
            && w'.topics == w.topics && w'.unsaved == w.unsaved
            && forall r: nat :: Saving(w', r) == Saving(w, r)
  {
    var w' := Next(w, key, step);
    assert |w.calls| <= |w'.calls|;
    forall c | 0 <= c < |w.calls| ensures w'.calls[c].pc == w.calls[c].pc || (!w'.calls[c].pc.Created? && !w.calls[c].pc.Created?) { }
    forall r: nat ensures Saving(w', r) == Saving(w, r) {
      if Saving(w, r) {
        var c :| 0 <= c < |w.calls| && w.calls[c].pc.Created? && w.calls[c].pc.thread == r;
        assert w'.calls[c].pc.Created? && w'.calls[c].pc.thread == r;
      }
      if Saving(w', r) {
        var c :| 0 <= c < |w'.calls| && w'.calls[c].pc.Created? && w'.calls[c].pc.thread == r;
        assert c < |w.calls| && w.calls[c].pc.Created? && w.calls[c].pc.thread == r;
      }
    }
  }

  lemma SameTopic(w: World, key: Key, step: Step, r: nat)
    requires Sound(w, key) && Enabled(w, key, step) && r < |w.rows|
    requires !step.MakeTopic? && !step.MakeTopicUnlocked? && !step.SaveTopic?
    ensures var w' := Next(w, key, step); r < |w'.rows| && w'.rows[r].meta.topic == w.rows[r].meta.topic
  {
    if step.CommitThread? {
      assert CallOk(w.rows, w.calls[step.call]);
    }
  }

  lemma NewRowCounts(w: World, key: Key, step: Step, r: nat)
    requires Sound(w, key) && Counted(w) && Enabled(w, key, step)
    requires !step.MakeTopic? && !step.MakeTopicUnlocked? && !step.SaveTopic?
    requires |w.rows| <= r < |Next(w, key, step).rows|
    ensures CountedAt(Next(w, key, step), r)
  {
    var w' := Next(w, key, step);
    SameSaving(w, key, step);
    assert w'.rows[r].meta.topic.None?;
    assert r !in w.topics && r !in w.unsaved;
    forall c | 0 <= c < |w.calls| && w.calls[c].pc.Created? ensures w.calls[c].pc.thread < |w.rows| {
      assert CallOk(w.rows, w.calls[c]);
    }
    assert !Saving(w, r);
  }

  lemma StepCounts(w: World, key: Key, step: Step)
    requires Sound(w, key) && Counted(w) && Enabled(w, key, step)
    ensures Counted(Next(w, key, step))
  {
    match step {
      case MakeTopic(c, made) => MakeTopicCounts(w, key, c, made, step);
      case MakeTopicUnlocked(c, made) => MakeTopicCounts(w, key, c, made, step);
      case SaveTopic(c, saved) => SaveTopicCounts(w, key, c, saved);
      case _ => OtherStepCounts(w, key, step);
    }
  }

  lemma {:induction false} RunIsSound(w: World, key: Key, steps: seq<Step>)
    requires Sound(w, key)
    ensures Sound(Run(w, key, steps), key)
    ensures Counted(w) ==> Counted(Run(w, key, steps))
  {
    if steps != [] {
      var before, step := Run(w, key, steps[..|steps| - 1]), steps[|steps| - 1];
      RunIsSound(w, key, steps[..|steps| - 1]);
      if Enabled(before, key, step) && Secret(before, step) {
        StepIsSound(before, key, step);
        if Counted(before) { StepCounts(before, key, step); }
      }
    }
  }

  // ---------- Main results ----------

  // From any database in order, for every interleaving of any number of calls,
  // colliding keys included: one active thread per session id; the topics made for
  // a thread are the one recorded on it, or being recorded, and those whose
  // recording failed, so at most one where none failed; and calls for one session
  // that end on active threads end on the same one.
  lemma OneThreadAndOneTopic(rows: seq<Row>, topics: seq<nat>, unsaved: seq<nat>, key: Key, steps: seq<Step>)
    requires OneActive(rows) && Counted(World(rows, [], topics, unsaved))
    ensures var w := Run(World(rows, [], topics, unsaved), key, steps);
            && OneActive(w.rows)
            && (forall r: nat | r < |w.rows| ::
                  && Made(w.topics, r) == Made(w.unsaved, r) + One(w.rows[r].meta.topic.Some?) + One(Saving(w, r))
                  && !(w.rows[r].meta.topic.Some? && Saving(w, r))
                  && (r !in w.unsaved ==> Made(w.topics, r) <= 1))
            && forall c, d | 0 <= c < |w.calls| && 0 <= d < |w.calls| :: SameThread(w, w.calls[c], w.calls[d])
  {
    var w := Run(World(rows, [], topics, unsaved), key, steps);
    RunIsSound(World(rows, [], topics, unsaved), key, steps);
    forall c, d | 0 <= c < |w.calls| && 0 <= d < |w.calls| ensures SameThread(w, w.calls[c], w.calls[d]) {
      assert CallOk(w.rows, w.calls[c]) && CallOk(w.rows, w.calls[d]);
    }
    forall r: nat | r < |w.rows| ensures CountedAt(w, r) && !(w.rows[r].meta.topic.Some? && Saving(w, r)) {
      RecordedOrSaving(w, key, r);
    }
  }

  lemma RecordedOrSaving(w: World, key: Key, r: nat)
    requires Sound(w, key) && r < |w.rows|
    ensures !(w.rows[r].meta.topic.Some? && Saving(w, r))
  {
    if Saving(w, r) {
      var c :| 0 <= c < |w.calls| && w.calls[c].pc.Created? && w.calls[c].pc.thread == r;
      assert CallOk(w.rows, w.calls[c]);
    }
  }

  // A topic made is a second one of its thread exactly when one made before was
  // left unsaved.
  lemma SecondTopicExactlyAfterUnsaved(w: World, key: Key, c: nat, step: Step)
    requires Sound(w, key) && Counted(w) && Enabled(w, key, step)
    requires step == MakeTopic(c, true) || step == MakeTopicUnlocked(c, true)
    requires Next(w, key, step).calls[c].pc.Created?
    ensures Made(Next(w, key, step).topics, w.calls[c].pc.thread) > 1 <==> w.calls[c].pc.thread in w.unsaved
  {
    var t := w.calls[c].pc.thread;
    assert CallOk(w.rows, w.calls[c]) && CountedAt(w, t);
    OneMoreMade(w.topics, t, t);
    NobodySaving(w, key, c);
  }

  ghost predicate SameThread(w: World, c: Call, d: Call) {
    && c.pc.Done? && d.pc.Done? && c.host && d.host && c.BoundId() == d.BoundId()
    && c.pc.thread < |w.rows| && d.pc.thread < |w.rows|
    && w.rows[c.pc.thread].active && w.rows[d.pc.thread].active
    ==> c.pc.thread == d.pc.thread
  }

  // Whatever later calls do to a thread, they never erase or replace its topic.
  lemma {:induction false} TopicsAreKept(w: World, key: Key, steps: seq<Step>, r: nat)
    requires Sound(w, key) && r < |w.rows| && w.rows[r].meta.topic.Some?
    ensures var w' := Run(w, key, steps);
            r < |w'.rows| && w'.rows[r].meta.topic == w.rows[r].meta.topic && w'.rows[r].session == w.rows[r].session
  {
    if steps != [] {
      var before, step := Run(w, key, steps[..|steps| - 1]), steps[|steps| - 1];
      TopicsAreKept(w, key, steps[..|steps| - 1], r);
      RunIsSound(w, key, steps[..|steps| - 1]);
      if Enabled(before, key, step) && Secret(before, step) {
        StepKeepsTopic(before, key, step, r);
      }
    }
  }

  lemma StepKeepsTopic(w: World, key: Key, step: Step, r: nat)
    requires Sound(w, key) && Enabled(w, key, step) && r < |w.rows| && w.rows[r].meta.topic.Some?
    ensures var w' := Next(w, key, step);
            r < |w'.rows| && w'.rows[r].meta.topic == w.rows[r].meta.topic && w'.rows[r].session == w.rows[r].session
  {
    match step {
      case CommitThread(c) => assert CallOk(w.rows, w.calls[c]);
      case SaveTopic(c, _) => assert CallOk(w.rows, w.calls[c]);
      case _ =>
    }
  }

  // ---------- Where the guarantees end ----------

  // The topic step without a lock trusts the thread object in memory: the topic it
  // makes is the thread's only one exactly when none is recorded, being recorded
  // or left unsaved at that moment.
  lemma UnlockedTopicIsTheOnlyOneExactlyWhenThereIsNone(w: World, key: Key, c: nat)
    requires Counted(w) && Enabled(w, key, MakeTopicUnlocked(c, true))
    ensures var t := w.calls[c].pc.thread;
            Made(Next(w, key, MakeTopicUnlocked(c, true)).topics, t) == 1
            <==> w.rows[t].meta.topic.None? && !Saving(w, t) && t !in w.unsaved
  {
    var t := w.calls[c].pc.thread;
    assert CountedAt(w, t);
    OneMoreMade(w.topics, t, t);
  }

  // A topic left unsaved is made again: two calls one after the other for one
  // session, the first of which fails to record its topic.
  lemma UnsavedTopicIsMadeAgain(key: Key, u: string) returns (steps: seq<Step>)
    requires u != ""
    ensures var w0 := World([Plain(u)], [], [], []);
            OneActive(w0.rows) && Counted(w0) && Run(w0, key, steps).topics == [0, 0] && Run(w0, key, steps).unsaved == [0]
  {
    var w0, first := World([Plain(u)], [], [], []), Call(u, "", true, "", Created(0, Meta("", None), 0));
    var failed := first.(pc := Done(0));
    assert Run(w0, key, []) == w0;
    steps := OneCall(w0, key, [], u, [], [], []);
    assert [] + [first] == [first] && [] + [0] == [0];
    var w1, w2 := World([Plain(u)], [first], [0], []), World([Plain(u)], [failed], [0], [0]);
    assert At(World([Plain(u)], [first], [0], [0]), 0, Done(0)) == w2;
    steps := FollowRun(w0, key, steps, w1, SaveTopic(0, false), w2);
    steps := OneCall(w0, key, steps, u, [failed], [0], [0]);
    assert [0] + [0] == [0, 0];
  }

  // An active thread of session u without a topic.
  function Plain(u: string): Row {
    Row(u, true, true, Meta("", None))
  }

  function Calling(u: string, done: seq<Call>, pc: Pc, topics: seq<nat>, unsaved: seq<nat>): World {
    World([Plain(u)], done + [Call(u, "", true, "", pc)], topics, unsaved)
  }

  lemma NextPc(u: string, done: seq<Call>, pc: Pc, pc': Pc, topics: seq<nat>, unsaved: seq<nat>)
    ensures At(Calling(u, done, pc, topics, unsaved), |done|, pc') == Calling(u, done, pc', topics, unsaved)
  {
  }

  ghost predicate AllDone(done: seq<Call>, u: string) {
    forall c | 0 <= c < |done| :: done[c].pc.Done? && done[c].session == u
  }

  lemma FollowRun(w0: World, key: Key, steps: seq<Step>, v: World, step: Step, v': World) returns (more: seq<Step>)
    requires Run(w0, key, steps) == v && Moves(v, key, step, v') && Secret(v, step)
    ensures more == steps + [step] && Run(w0, key, more) == v'
  {
    more := steps + [step];
    assert more[..|steps|] == steps;
  }

  lemma CallFindsThread(key: Key, u: string, done: seq<Call>, topics: seq<nat>, unsaved: seq<nat>)
    requires u != "" && AllDone(done, u)
    ensures var c, meta := |done|, Meta("", None);
            && Moves(World([Plain(u)], done, topics, unsaved), key, Arrive(u, "", true, ""), Calling(u, done, Arrived, topics, unsaved))
            && Moves(Calling(u, done, Arrived, topics, unsaved), key, TakeLock(c), Calling(u, done, Locked, topics, unsaved))
            && Moves(Calling(u, done, Locked, topics, unsaved), key, Look(c), Calling(u, done, Looked(Some(0), meta), topics, unsaved))
            && Moves(Calling(u, done, Looked(Some(0), meta), topics, unsaved), key, CommitThread(c), Calling(u, done, Committed(0), topics, unsaved))
  {
    NextPc(u, done, Arrived, Locked, topics, unsaved);
    assert FindExisting([Plain(u)], u) == Some(0);
    NextPc(u, done, Locked, Looked(Some(0), Meta("", None)), topics, unsaved);
    assert [Plain(u)][0 := Plain(u)] == [Plain(u)];
    NextPc(u, done, Looked(Some(0), Meta("", None)), Committed(0), topics, unsaved);
  }

  lemma CallMakesTopic(key: Key, u: string, done: seq<Call>, topics: seq<nat>, unsaved: seq<nat>)
    requires u != "" && AllDone(done, u)
    ensures var c, meta := |done|, Meta("", None);
            && Moves(Calling(u, done, Committed(0), topics, unsaved), key, TakeLockAgain(c), Calling(u, done, Relocked(0), topics, unsaved))
            && Moves(Calling(u, done, Relocked(0), topics, unsaved), key, Refresh(c), Calling(u, done, Refreshed(0, meta), topics, unsaved))
            && Moves(Calling(u, done, Refreshed(0, meta), topics, unsaved), key, MakeTopic(c, true),
                     Calling(u, done, Created(0, meta, |topics|), topics + [0], unsaved))
  {
    NextPc(u, done, Committed(0), Relocked(0), topics, unsaved);
    NextPc(u, done, Relocked(0), Refreshed(0, Meta("", None)), topics, unsaved);
    NextPc(u, done, Refreshed(0, Meta("", None)), Created(0, Meta("", None), |topics|), topics, unsaved);
  }

  // A call, alone at the moment, as far as its topic being made.
  lemma OneCall(w0: World, key: Key, steps: seq<Step>, u: string, done: seq<Call>, topics: seq<nat>, unsaved: seq<nat>)
    returns (more: seq<Step>)
    requires u != "" && AllDone(done, u) && Run(w0, key, steps) == World([Plain(u)], done, topics, unsaved)
    ensures Run(w0, key, more) == Calling(u, done, Created(0, Meta("", None), |topics|), topics + [0], unsaved)
  {
    var c, meta := |done|, Meta("", None);
    CallFindsThread(key, u, done, topics, unsaved);
    CallMakesTopic(key, u, done, topics, unsaved);
    more := FollowRun(w0, key, steps, World([Plain(u)], done, topics, unsaved), Arrive(u, "", true, ""), Calling(u, done, Arrived, topics, unsaved));
    more := FollowRun(w0, key, more, Calling(u, done, Arrived, topics, unsaved), TakeLock(c), Calling(u, done, Locked, topics, unsaved));
    more := FollowRun(w0, key, more, Calling(u, done, Locked, topics, unsaved), Look(c), Calling(u, done, Looked(Some(0), meta), topics, unsaved));
    more := FollowRun(w0, key, more, Calling(u, done, Looked(Some(0), meta), topics, unsaved), CommitThread(c), Calling(u, done, Committed(0), topics, unsaved));
    more := FollowRun(w0, key, more, Calling(u, done, Committed(0), topics, unsaved), TakeLockAgain(c), Calling(u, done, Relocked(0), topics, unsaved));
    more := FollowRun(w0, key, more, Calling(u, done, Relocked(0), topics, unsaved), Refresh(c), Calling(u, done, Refreshed(0, meta), topics, unsaved));
    more := FollowRun(w0, key, more, Calling(u, done, Refreshed(0, meta), topics, unsaved), MakeTopic(c, true),
                      Calling(u, done, Created(0, meta, |topics|), topics + [0], unsaved));
  }

  // Such a row is reached when a second call is given the id the first one minted
  // while the first is still on its way: two topics for one thread.
  lemma MintedIdRace(key: Key, u: string) returns (w: World, steps: seq<Step>)
    requires u != ""
    ensures w == Next(Next(World([], [], [], []), key, Arrive("", u, true, "")), key, CreateUnlocked(0))
    ensures steps != [] && steps[0] == Arrive(u, "", true, "") && !Secret(w, steps[0])
    ensures Enabled(Anyhow(w, key, steps), key, MakeTopicUnlocked(0, true))
    ensures Next(Anyhow(w, key, steps), key, MakeTopicUnlocked(0, true)).topics == [0, 0]
  {
    w := Next(Next(World([], [], [], []), key, Arrive("", u, true, "")), key, CreateUnlocked(0));
    var row := Row(u, true, true, Meta("", None));
    assert w.calls[0].Minting() && w.calls[0].minted == u;
    assert w == World([row], [Call("", u, true, "", Committed(0))], [], []);
    steps := SecondCall(key, u, row, w);
    LastTopic(key, u, row);
  }

  lemma SecondCall(key: Key, u: string, row: Row, w: World) returns (steps: seq<Step>)
    requires u != "" && row == Row(u, true, true, Meta("", None))
    requires w == World([row], [Call("", u, true, "", Committed(0))], [], [])
    ensures steps != [] && steps[0] == Arrive(u, "", true, "")
    ensures Anyhow(w, key, steps) == Stage(u, row.(meta := Meta("", Some(0))), Done(0), [0])
  {
    FirstSection(key, u, row);
    SecondSection(key, u, row);
    SecondTopic(key, u, row);
    steps := Follow(w, key, [], w, Arrive(u, "", true, ""), Stage(u, row, Arrived, []));
    steps := Follow(w, key, steps, Stage(u, row, Arrived, []), TakeLock(1), Stage(u, row, Locked, []));
    steps := Follow(w, key, steps, Stage(u, row, Locked, []), Look(1), Stage(u, row, Looked(Some(0), row.meta), []));
    steps := Follow(w, key, steps, Stage(u, row, Looked(Some(0), row.meta), []), CommitThread(1), Stage(u, row, Committed(0), []));
    steps := Follow(w, key, steps, Stage(u, row, Committed(0), []), TakeLockAgain(1), Stage(u, row, Relocked(0), []));
    steps := Follow(w, key, steps, Stage(u, row, Relocked(0), []), Refresh(1), Stage(u, row, Refreshed(0, row.meta), []));
    steps := Follow(w, key, steps, Stage(u, row, Refreshed(0, row.meta), []), MakeTopic(1, true),
                    Stage(u, row, Created(0, row.meta, 0), [0]));
    steps := Follow(w, key, steps, Stage(u, row, Created(0, row.meta, 0), [0]), SaveTopic(1, true),
                    Stage(u, row.(meta := Meta("", Some(0))), Done(0), [0]));
  }

  lemma MoveSecond(u: string, row: Row, pc: Pc, pc': Pc, topics: seq<nat>)
    ensures At(Stage(u, row, pc, topics), 1, pc') == Stage(u, row, pc', topics)
  {
  }

  ghost predicate Moves(w: World, key: Key, step: Step, w': World) {
    Enabled(w, key, step) && Next(w, key, step) == w'
  }

  lemma FirstSection(key: Key, u: string, row: Row)
    requires u != "" && row == Row(u, true, true, Meta("", None))
    ensures Moves(Stage(u, row, Arrived, []), key, TakeLock(1), Stage(u, row, Locked, []))
    ensures Moves(Stage(u, row, Locked, []), key, Look(1), Stage(u, row, Looked(Some(0), row.meta), []))
    ensures Moves(Stage(u, row, Looked(Some(0), row.meta), []), key, CommitThread(1), Stage(u, row, Committed(0), []))
  {
    MoveSecond(u, row, Arrived, Locked, []);
    assert FindExisting([row], u) == Some(0);
    MoveSecond(u, row, Locked, Looked(Some(0), row.meta), []);
    assert [row][0 := row] == [row];
    MoveSecond(u, row, Looked(Some(0), row.meta), Committed(0), []);
  }

  lemma SecondSection(key: Key, u: string, row: Row)
    requires u != "" && row == Row(u, true, true, Meta("", None))
    ensures Moves(Stage(u, row, Committed(0), []), key, TakeLockAgain(1), Stage(u, row, Relocked(0), []))
    ensures Moves(Stage(u, row, Relocked(0), []), key, Refresh(1), Stage(u, row, Refreshed(0, row.meta), []))
  {
    MoveSecond(u, row, Committed(0), Relocked(0), []);
    MoveSecond(u, row, Relocked(0), Refreshed(0, row.meta), []);
  }

  lemma SecondTopic(key: Key, u: string, row: Row)
    requires u != "" && row == Row(u, true, true, Meta("", None))
    ensures Moves(Stage(u, row, Refreshed(0, row.meta), []), key, MakeTopic(1, true), Stage(u, row, Created(0, row.meta, 0), [0]))
    ensures Moves(Stage(u, row, Created(0, row.meta, 0), [0]), key, SaveTopic(1, true),
                  Stage(u, row.(meta := Meta("", Some(0))), Done(0), [0]))
  {
    var row' := row.(meta := Meta("", Some(0)));
    assert [row][0 := row'] == [row'];
    MoveSecond(u, row, Refreshed(0, row.meta), Created(0, row.meta, 0), []);
    MoveSecond(u, row', Created(0, row.meta, 0), Done(0), [0]);
  }

  lemma LastTopic(key: Key, u: string, row: Row)
    requires u != "" && row == Row(u, true, true, Meta("", None))
    ensures var w := Stage(u, row.(meta := Meta("", Some(0))), Done(0), [0]);
            Enabled(w, key, MakeTopicUnlocked(0, true)) && Next(w, key, MakeTopicUnlocked(0, true)).topics == [0, 0]
  {
  }

  // The world once the second call has got to pc.
  function Stage(u: string, row: Row, pc: Pc, topics: seq<nat>): World {
    World([row], [Call("", u, true, "", Committed(0)), Call(u, "", true, "", pc)], topics, [])
  }

  // Runs without the secrecy of minted ids.
  function Anyhow(w: World, key: Key, steps: seq<Step>): World {
    if steps == [] then w
    else
      var before := Anyhow(w, key, steps[..|steps| - 1]);
      var step := steps[|steps| - 1];
      if Enabled(before, key, step) then Next(before, key, step) else before
  }

  lemma Follow(w: World, key: Key, steps: seq<Step>, v: World, step: Step, v': World) returns (more: seq<Step>)
    requires Anyhow(w, key, steps) == v && Moves(v, key, step, v')
    ensures more == steps + [step] && Anyhow(w, key, more) == v'
  {
    more := steps + [step];
    assert more[..|steps|] == steps;
  }
}
