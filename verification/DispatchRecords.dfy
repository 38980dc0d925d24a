/** What start_session records on a thread: the topic made for it and the directory named last. */
module DispatchRecords {
  import opened Wrappers
  import opened Dispatch
  import opened DispatchSafety

  // ---------- The recorded topic ----------

  // A topic was made for the thread.
  predicate MadeFor(topics: seq<nat>, topic: Option<nat>, row: nat) {
    topic.Some? ==> topic.value < |topics| && topics[topic.value] == row
  }

  // What a call has read of a thread, or made for it.
  predicate KnowsOwnTopic(topics: seq<nat>, pc: Pc) {
    match pc
    case Looked(found, loaded) => found.Some? ==> MadeFor(topics, loaded.topic, found.value)
    case Refreshed(thread, loaded) => MadeFor(topics, loaded.topic, thread)
    case Created(thread, _, topic) => MadeFor(topics, Some(topic), thread)
    case _ => true
  }

  ghost predicate OwnTopics(w: World) {
    && (forall r | 0 <= r < |w.rows| :: MadeFor(w.topics, w.rows[r].meta.topic, r))
    && (forall c | 0 <= c < |w.calls| :: KnowsOwnTopic(w.topics, w.calls[c].pc))
  }

  lemma RowsKeepOwnTopics(w: World, key: Key, step: Step, r: nat)
    requires OwnTopics(w) && Enabled(w, key, step) && r < |Next(w, key, step).rows|
    ensures var w' := Next(w, key, step); MadeFor(w'.topics, w'.rows[r].meta.topic, r)
  {
    if r < |w.rows| { assert MadeFor(w.topics, w.rows[r].meta.topic, r); }
    if step.CommitThread? || step.SaveTopic? { assert KnowsOwnTopic(w.topics, w.calls[step.call].pc); }
  }

  lemma MoreTopics(topics: seq<nat>, more: seq<nat>, pc: Pc)
    requires KnowsOwnTopic(topics, pc)
    ensures KnowsOwnTopic(topics + more, pc)
  {
  }

  lemma TopicMadeIsOwn(w: World, c: nat, row: nat, loaded: Meta, made: bool)
    requires OwnTopics(w) && c < |w.calls|
    ensures var w' := TopicMade(w, c, row, loaded, made); KnowsOwnTopic(w'.topics, w'.calls[c].pc)
    ensures w.topics <= TopicMade(w, c, row, loaded, made).topics
  {
  }

  lemma OtherCallStays(w: World, key: Key, step: Step, c: nat)
    requires Enabled(w, key, step) && c < |w.calls| && (step.Arrive? || step.End? || step.call != c)
    ensures Next(w, key, step).calls[c] == w.calls[c] && w.topics <= Next(w, key, step).topics
  {
  }

  lemma CallsKeepOwnTopics(w: World, key: Key, step: Step, c: nat)
    requires OwnTopics(w) && Enabled(w, key, step) && c < |Next(w, key, step).calls|
    ensures var w' := Next(w, key, step); KnowsOwnTopic(w'.topics, w'.calls[c].pc)
  {
    var w' := Next(w, key, step);
    if c < |w.calls| && (step.Arrive? || step.End? || step.call != c) {
      OtherCallStays(w, key, step, c);
      MoreTopics(w.topics, w'.topics[|w.topics|..], w.calls[c].pc);
      assert w'.topics == w.topics + w'.topics[|w.topics|..];
    } else if step.MakeTopic? {
      TopicMadeIsOwn(w, c, w.calls[c].pc.thread, w.calls[c].pc.loaded, step.made);
    } else if step.MakeTopicUnlocked? {
      TopicMadeIsOwn(w, c, w.calls[c].pc.thread, CreatedMeta(w.calls[c]), step.made);
    } else if c < |w.calls| {
      assert KnowsOwnTopic(w.topics, w.calls[c].pc);
    }
  }

  lemma StepKeepsOwnTopics(w: World, key: Key, step: Step)
    requires OwnTopics(w) && Enabled(w, key, step)
    ensures OwnTopics(Next(w, key, step))
  {
    var w' := Next(w, key, step);
    forall r | 0 <= r < |w'.rows| ensures MadeFor(w'.topics, w'.rows[r].meta.topic, r) {
      RowsKeepOwnTopics(w, key, step, r);
    }
    forall c | 0 <= c < |w'.calls| ensures KnowsOwnTopic(w'.topics, w'.calls[c].pc) {
      CallsKeepOwnTopics(w, key, step, c);
    }
  }

  lemma {:induction false} RunKeepsOwnTopics(w: World, key: Key, steps: seq<Step>)
    requires OwnTopics(w)
    ensures OwnTopics(Anyhow(w, key, steps))
  {
    if steps != [] {
      var n := |steps| - 1;
      var before := Anyhow(w, key, steps[..n]);
      RunKeepsOwnTopics(w, key, steps[..n]);
      if Enabled(before, key, steps[n]) { StepKeepsOwnTopics(before, key, steps[n]); }
    }
  }

  // Over every run from a database of which it is true, the empty one among them,
  // minted ids secret or not: a topic recorded on a thread was made for that thread,
  // so no two threads record one topic.
  lemma RecordedTopicIsTheThreadsOwn(rows: seq<Row>, topics: seq<nat>, key: Key, steps: seq<Step>)
    requires forall r | 0 <= r < |rows| :: MadeFor(topics, rows[r].meta.topic, r)
    ensures var w := Anyhow(World(rows, [], topics, []), key, steps);
            && (forall r | 0 <= r < |w.rows| && w.rows[r].meta.topic.Some? ::
                  w.rows[r].meta.topic.value < |w.topics| && w.topics[w.rows[r].meta.topic.value] == r)
            && (forall r, s | 0 <= r < s < |w.rows| && w.rows[r].meta.topic.Some? ::
                  w.rows[r].meta.topic != w.rows[s].meta.topic)
  {
    var w := Anyhow(World(rows, [], topics, []), key, steps);
    RunKeepsOwnTopics(World(rows, [], topics, []), key, steps);
    forall r | 0 <= r < |w.rows| ensures MadeFor(w.topics, w.rows[r].meta.topic, r) { }
  }

  // ---------- The recorded directory and session ----------

  predicate Taken(w: World, key: Key, step: Step) {
    Enabled(w, key, step) && Secret(w, step)
  }

  // The step is the first section of a call, and this its thread.
  predicate Binds(w: World, key: Key, step: Step, r: nat) {
    && Taken(w, key, step) && (step.CommitThread? || step.CreateUnlocked?)
    && Next(w, key, step).calls[step.call].pc == Committed(r)
  }

  // The directory named by the last call whose first section ended with the thread.
  function LastNamed(w0: World, key: Key, steps: seq<Step>, r: nat): string {
    if steps == [] then (if r < |w0.rows| then w0.rows[r].meta.cwd else "")
    else
      var n := |steps| - 1;
      var before, step := Run(w0, key, steps[..n]), steps[n];
      if !Binds(before, key, step, r) then LastNamed(w0, key, steps[..n], r)
      else if before.calls[step.call].host then before.calls[step.call].cwd
      else ""
  }

  lemma StepNames(w: World, key: Key, step: Step, r: nat)
    requires Sound(w, key) && Taken(w, key, step) && r < |Next(w, key, step).rows|
    ensures var w' := Next(w, key, step);
            if Binds(w, key, step, r) then w'.rows[r].meta.cwd == if w.calls[step.call].host then w.calls[step.call].cwd else ""
            else r < |w.rows| && w'.rows[r].meta.cwd == w.rows[r].meta.cwd
  {
    if step.CommitThread? || step.SaveTopic? {
      assert CallOk(w.rows, w.calls[step.call]);
    }
  }

  lemma {:induction false} RunNames(w0: World, key: Key, steps: seq<Step>, r: nat)
    requires w0.calls == [] && OneActive(w0.rows)
    requires r < |Run(w0, key, steps).rows|
    ensures Run(w0, key, steps).rows[r].meta.cwd == LastNamed(w0, key, steps, r)
  {
    if steps != [] {
      var n := |steps| - 1;
      var before := Run(w0, key, steps[..n]);
      RunIsSound(w0, key, steps[..n]);
      if Taken(before, key, steps[n]) {
        StepNames(before, key, steps[n], r);
      }
      if r < |before.rows| { RunNames(w0, key, steps[..n], r); }
    }
  }

  // Over every run from a database in order: a thread's directory is the one named by
  // the last call that found or made it, whatever topics are recorded meanwhile; and
  // a call's thread is bound to the session id it named or minted.
  lemma ThreadsCarryWhatTheirCallsNamed(w0: World, key: Key, steps: seq<Step>)
    requires w0.calls == [] && OneActive(w0.rows)
    ensures var w := Run(w0, key, steps);
            && (forall r: nat | r < |w.rows| :: w.rows[r].meta.cwd == LastNamed(w0, key, steps, r))
            && (forall c | 0 <= c < |w.calls| && w.calls[c].HasThread() && w.calls[c].host ::
                  && w.calls[c].pc.thread < |w.rows| && w.rows[w.calls[c].pc.thread].pty
                  && w.rows[w.calls[c].pc.thread].session ==
                     if w.calls[c].session != "" then w.calls[c].session else w.calls[c].minted)
  {
    var w := Run(w0, key, steps);
    RunIsSound(w0, key, steps);
    forall r: nat | r < |w.rows| ensures w.rows[r].meta.cwd == LastNamed(w0, key, steps, r) {
      RunNames(w0, key, steps, r);
    }
    forall c | 0 <= c < |w.calls| ensures CallOk(w.rows, w.calls[c]) { }
  }

  // ---------- Which thread is reused ----------

  predicate IsOpen(row: Row, session: string) {
    row.pty && row.active && row.session == session
  }

  // A call that looks for its session's thread finds an active one, the newest, if and
  // only if there is one; what it then commits is that one or a new one accordingly.
  lemma ActiveThreadIsReused(w: World, key: Key, c: nat)
    requires Enabled(w, key, Look(c))
    ensures var looked := Next(w, key, Look(c)).calls[c].pc;
            && (looked.found.None? <==> forall r | 0 <= r < |w.rows| :: !IsOpen(w.rows[r], w.calls[c].session))
            && (looked.found.Some? ==>
                  && looked.found.value < |w.rows| && IsOpen(w.rows[looked.found.value], w.calls[c].session)
                  && forall r | looked.found.value < r < |w.rows| :: !IsOpen(w.rows[r], w.calls[c].session))
            && var committed := Next(Next(w, key, Look(c)), key, CommitThread(c));
               committed.calls[c].pc == Committed(if looked.found.Some? then looked.found.value else |w.rows|)
               && |committed.rows| == if looked.found.Some? then |w.rows| else |w.rows| + 1
  {
    NewestFound(w.rows, w.calls[c].session);
  }

  lemma {:induction false} NewestFound(rows: seq<Row>, session: string)
    ensures var found := FindExisting(rows, session);
            found.Some? ==> forall r | found.value < r < |rows| :: !Matches(rows[r], session)
  {
    if rows != [] && !Matches(rows[|rows| - 1], session) { NewestFound(rows[..|rows| - 1], session); }
  }
}
