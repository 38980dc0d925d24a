# Relaying coding-agent sessions to chat: a verified model

The repository relays coding-agent sessions between an operator's machines and a
chat. Its hard parts are small state machines that must not lose, duplicate or
reorder anything while files grow, processes die, connections break and requests
race. This project models those machines in Dafny and proves what they keep over
every interleaving, every file and every crash point. Where a promise does not
hold of the code, the model keeps the code as it is, proves exactly when the
promise holds, and gives a run on which it fails.

Code that changes state is modelled twice, and the two are tied together: a class
whose methods update fields in the order the source does, each method proved equal
to a function on values; and the runs of that function, over which the main
results are proved. `dafny verify dfyconfig.toml` checks everything.

| files | what they model |
|---|---|
| `Framing`, `Subsequence`, `Transcript`, `DriveWindow`, `TailRuns`, `OwnLines`, `Splices` | the transcript tail: lines cut out of a growing file read in pieces, the window in which events are held back while a drive runs, and the interleaving of polling with the writer and with drives |
| `Codex`, `CodexRuns`, `CodexSpawns`, `Interactive`, `InteractiveRuns`, `InteractiveWrites`, `InteractiveStrays`, `Overtaking` | the two turn engines: one turn in flight, a FIFO of waiting texts, readers of current and replaced processes, and what each process is given |
| `PyText`, `EnvWriter`, `EnvReader`, `EnvRoundTrip` | the env file printer and parser, over Python's own notion of lines and blanks |
| `OfflineQueue`, `Sender`, `SenderRuns`, `SenderDisk`, `SenderLosses`, `SenderRepeats`, `SenderOrder`, `SampleCodec` | the durable queue, character by character; the sender over reconnects on the events of the file; the sender on the text of the file, with crashes inside appends and stale senders: what it loses, what it repeats, and in which order it sends |
| `Dispatch`, `DispatchSafety`, `DispatchRecords` | concurrent `start_session` calls under an advisory lock with colliding keys |
| `Setup`, `SetupSafety`, `SetupGrants`, `SetupEffects` | the first-run wizard: stages, single-use tokens, challenges, and the env file they write |
| `Delivery`, `DeliveryRuns` | the bounded drop-oldest Telegram queue and its drainer |
| `PyInt`, `Prompts`, `PromptRuns` | asking a question, showing it as a numbered list, reading the reply, recording it once |
| `Supervisor`, `SupervisorRuns`, `Push`, `PushOfCycle` | snapshot diffing into major steps, and choosing the few that are pushed |
| `Screens`, `PtyStream` | the line-diff streamer of terminal captures |
| `BotLoop`, `BotRuns` | the update loop of the Telegram bot, with restarts and a cache that may forget the id it keeps |

## What comes out

* **Transcript tail.** The offset never moves back or past the end of the file, and
  the processed and skipped ranges cover what it moved over exactly once. How the
  stream is cut into reads does not matter. A successful drive moves the offset but
  not the remainder, so the watcher stays in step with the file's own lines exactly
  when the bytes skipped end in the same unfinished line as the bytes held back
  (`SkipAlignsExactlyWhenClean`); `UncleanSkipSplicesLines` hands on a line that the
  file does not contain. Each such skip splices at most one line, and the next newline
  read puts the watcher back in step (`EachUncleanSkipSplicesAtMostOneLine`,
  `NewlineHeals`). Where all skips are clean the lines handed on are the file's
  own, in order, and no user event is lost exactly when no skip passes over one
  (`UserEventsSurviveExactlyWhenNoneIsSkipped`).
* **Turn engines.** Each turn, and each line written, completes at most once and in
  order, and no accepted text is lost or invented. Texts are taken in the order accepted
  as long as none is sent to an idle engine in which others wait, and when no two are
  the same only as long. Such a state comes from a failed spawn (Codex), or from a line
  that fails while texts wait (interactive); runs show both. What reaches a process is
  told from the history alone: a Codex process is given the text of its turn and the last
  session announced or bound before it; the interactive engine writes exactly the lines
  whose write went through, in order, and spawns as their luck asks. Where a process speaks more
  often than it was asked, completions stay with their own turn or line exactly as long
  as no such event passes the guard of `_finish` (Codex), or none is read before the stop
  and reported (interactive, which has no other guard). A line in flight can still
  complete exactly when a reader holds its result, or the engine is not stopped and the
  output of the line's process has not ended. The interactive engine can spawn a process
  after `stop`; the Codex engine cannot.
* **Env file.** An accepted update reads back as the old contents overridden by it, on
  every file: duplicates, comments, quotes and every separator `splitlines` knows.
  Everything else stays where it was, and a second update changes no character. What a
  file says is told without the parser: each key has the value that the last line
  assigning it spells, bare or in quotes of either kind.
* **Durable queue and sender.** With one live sender and no crash, sent, file and
  incoming events are together the accepted ones in order; stale senders keep out of the
  way of that order exactly as long as no live send goes past an event still in the file.
  With crashes at any character and stale senders at any time, an event whose record was
  once whole on disk is lost exactly by one of three steps: an append that runs on behind
  an unfinished line, its own or the one behind it; the end of a drain that a stale
  sender appended to after it had read the file; or a crash of a drain whose record in
  the file was run on behind meanwhile. Reconnecting mends an unfinished line exactly
  when there is anything to read. Two runs lose an event, one each way. An event not
  lost is sent by the next drain whose sends go through, if it is small enough. It is
  handled once, and once more for each drain that had handled it and died before it
  rewrote the file, less the copies lost. Counting only the first send of each event, the
  order is the accepted one exactly when every event that a live send went past was lost.
* **Dispatch.** One active thread per session id, colliding keys included. The topics
  made for a thread are the recorded one, one being recorded, and those whose recording
  failed; a second one is made exactly after such a failure. The topic recorded on a
  thread was made for that thread. The unlocked topic step
  relies on no other call naming a freshly minted id.
* **Setup wizard.** In every reachable state a request is let past the gate exactly with
  the last token issued, unused and in time; any other changes nothing. What each request
  then does is stated in full, and the env file serves one chat once Telegram is connected.
* **Prompts.** Whatever the clocks, the first settling call decides a prompt for good.
  Options are keyed by their first 40 characters: every choice comes back as chosen
  exactly when those tell different options apart.
* **Supervisor.** Over any run each arrival, each end and each wait for approval is
  reported once; a stall is reported again in every cycle that it lasts. A step is left
  out of a push only for five that are at least as urgent.
* **Bot loop.** Each update the offset has passed is handled once, and once more for each
  restart that finds no recorded id at or behind it while no poll has confirmed it. That
  is a crash before the id is recorded, or one after the cache has forgotten it.
* **Streamer.** The chunks shipped make up the final screen exactly when no capture
  loses lines and no line changes after it first appeared. A send that fails is never
  made up for: while no capture loses lines, the final screen comes through exactly when
  no send of new lines failed and no line changed.

## Where documentation and code differ

The model follows the code.

* `host-agent/agent_host/queue.py:11-12` says that `drain` rewrites the file after
  each successful send. It rewrites once, at the end (lines 115-128), so a crash during
  a drain repeats sends: delivery is at least once.
* `host-agent/agent_host/queue.py:13-15` says that the worst case of `enqueue` is a
  partial last record which is skipped. The next append runs on behind it on the same
  line, and is skipped with it (`RecordAfterTornIsLost`).
* `host-agent/agent_host/wsclient.py:771-773` says that `gather` cancels the sibling
  when a coroutine raises. `asyncio.gather` leaves it running, which is why `Sender`
  has a step of a stale sender.
* `host-agent/agent_host/transcript_tail.py:133-137` promises that nothing of the
  window is read again and that the user's events of it are kept. The bytes held back from
  before the window are still used, and user events not yet read when the drive ends are
  skipped with the rest (`UnreadUserLineIsSkipped`).
* `backend/apps/supervisor/classifier.py:57-60` gives failures their own severity. The
  fleet snapshot leaves terminal threads out, so between two such snapshots that severity
  is never reported (`FailureLooksFinished`).
* `backend/apps/telegram/management/commands/run_telegram_bot.py:95-97` promises that an id
  once handled is never processed again, and lines 142-143 prefer handling at most once.
  The id is recorded after handling, so a crash in between handles again
  (`CrashHandlesAgain`). It is recorded with no timeout, and
  `backend/config/settings/base.py:101-109` sets none, so Django's default of 300 seconds
  applies: a restart after a longer silence starts from 0, and recorded updates that no
  poll has confirmed are handled again (`ExpiredRecordHandlesAgain`).
* `host-agent/agent_host/pty_stream.py:62-65` assumes that the captured text only
  grows. A last line captured while it is being written is never completed
  (`GrowingLineIsCutShort`).

## Assumptions

* JSON is a codec with three laws (`OfflineQueue.Codec`): decoding undoes encoding; an
  encoding holds no raw newline (section 7 of RFC 8259) and has no blanks at its ends; and
  no line decodes that is a record cut short, or two or more such pieces run together. A
  codec that obeys them is given (`SampleCodec.SampleIsLawful`).
* Hashes (`Key`, `Hash`) and `str.lower` are arbitrary functions; hashes may collide.
* The transcript file is only appended to while it is watched.
* A send succeeds or fails as one step. One live sender at a time, and connections that
  fail all sends after a failed one, are assumed only where a lemma says so (`Orderly`).
* In `CodexRuns.Run` a process reports at most one terminal event, and in
  `InteractiveRuns.Run` at most one result for each line. `CodexRuns.RunAny` and
  `InteractiveStrays.RunAny` lift this.
* Telegram's updates have ascending ids. The server drops the updates below an offset it
  was polled with, and a poll returns the first of the others from its offset on.
* Threads of a snapshot have different ids.
* No other `start_session` call names a minted session id before the topic step of the
  call that minted it is over. The row is committed, and the id sent to the host in the
  start frame, before that step; `DispatchSafety.MintedIdRace` and
  `DispatchSafety.UnlockedTopicIsTheOnlyOneExactlyWhenThereIsNone` say what happens else.
* The clock, random values and answers from Telegram are arguments of the steps.

## Model

| member | source | states |
|---|---|---|
| Framing.SplitFrames | host-agent/agent_host/transcript_tail.py:224-226 | splitting at newlines is a framing: the lines, each followed by a newline, and the rest spell the input, and no part holds a newline |
| Framing.FramingIsUnique | host-agent/agent_host/transcript_tail.py:224-226 | there is only one such framing of any bytes |
| Framing.SplitExtends | host-agent/agent_host/transcript_tail.py:223-226 | carrying the remainder into the next read gives the lines and the remainder of the whole |
| Framing.KeptAreTheShortLines | host-agent/agent_host/transcript_tail.py:228-235 | exactly the lines of more than 1,000,000 bytes are left out, the order kept |
| Transcript.TranscriptTail.Start | host-agent/agent_host/transcript_tail.py:87-108 | watching begins at the end of a file that exists, and at 0 otherwise or when its size cannot be read |
| Transcript.TranscriptTail.DriveStart | host-agent/agent_host/transcript_tail.py:119-125 | opens the window and changes nothing else, also when it is open already |
| Transcript.TranscriptTail.DriveFinish | host-agent/agent_host/transcript_tail.py:127-160 | closes the window; the buffer is replayed whole after a failure, its user events only after a success, which also bumps the epoch and moves the offset to the size if it can be read |
| Transcript.TranscriptTail.ProcessLine | host-agent/agent_host/transcript_tail.py:237-275 | the event of a line, if it has one, goes to the buffer inside a window and is emitted outside |
| Transcript.TranscriptTail.Process | host-agent/agent_host/transcript_tail.py:223-235 | the loop hands on, in order, the events of the finished lines of at most 1,000,000 bytes, and keeps the bytes after the last newline |
| Transcript.TranscriptTail.Commit | host-agent/agent_host/transcript_tail.py:198-207 | data read under an older epoch is discarded whole; other data moves the offset to the size seen before the read and is processed |
| DriveWindow.ClosingResolves | host-agent/agent_host/transcript_tail.py:145-160 | closing a window leaves no parsed event waiting, and delivers those that waited behind those delivered before, less assistant events after a success |
| DriveWindow.ParsingAllAgrees | host-agent/agent_host/transcript_tail.py:272-275 | parsing events keeps emitted and buffered events in agreement with the fate that the history of windows gives to each |
| DriveWindow.ClosingAgrees | host-agent/agent_host/transcript_tail.py:145-160 | so does closing a window |
| TailRuns.ChainCoversOnce | host-agent/agent_host/transcript_tail.py:127-207 | in a chain of ranges from one offset to another every byte between lies in exactly one range |
| TailRuns.CommitIsSound | host-agent/agent_host/transcript_tail.py:198-207 | a read coming back, disturbed or not, keeps the whole invariant and never moves the offset back |
| TailRuns.DriveEndIsSound | host-agent/agent_host/transcript_tail.py:127-160 | so does the end of a drive, with a read in flight or without |
| TailRuns.OffsetPartitionsTheFile | host-agent/agent_host/transcript_tail.py:87-207 | over every interleaving of polling steps, appends and drives: watching begins at the end of a file that is there and can be sized, else at 0; the offset never decreases or passes the end of the file, and processed and skipped ranges partition what it moved over |
| TailRuns.LinesAndEventsMeetTheirFates | host-agent/agent_host/transcript_tail.py:119-275 | over every interleaving: the lines handed on are the short finished lines of the processed bytes; emitted and buffered events are, in order, the parsed ones that their windows deliver or hold; with no window open the buffer is empty |
| TailRuns.ChunkingDoesNotMatter | host-agent/agent_host/transcript_tail.py:223-235 | however a stream is cut into reads, the events and the remainder are those of the whole stream |
| TailRuns.PathIsKnownOfAFileOnly | host-agent/agent_host/transcript_tail.py:181-191 | over every interleaving a path is known only of a file that is there |
| TailRuns.SkipAlignsExactlyWhenClean | host-agent/agent_host/transcript_tail.py:149-153 | a successful drive leaves the watcher in step with the file's own lines if and only if the skipped bytes leave the same unfinished line as the one held back |
| TailRuns.OtherStepsStayAligned | host-agent/agent_host/transcript_tail.py:119-207 | no other step takes it out of step |
| TailRuns.UndisturbedTickCatchesUp | host-agent/agent_host/transcript_tail.py:178-207 | a poll that nothing interrupts reads to the end of the file |
| TailRuns.UncleanSkipSplicesLines | host-agent/agent_host/transcript_tail.py:149-153 | a run after which the one line handed on does not occur in the file |
| OwnLines.CleanRunHandsOnOwnLines | host-agent/agent_host/transcript_tail.py:119-235 | over every run whose skips are clean, the lines handed on are, in order, among the lines the file holds between where watching began and the offset |
| OwnLines.RunKeepsUsers | host-agent/agent_host/transcript_tail.py:139-160 | over every run, the user events parsed are those emitted and then those waiting, in order, whatever drives began and ended |
| OwnLines.UserEventsSurviveExactlyWhenNoneIsSkipped | host-agent/agent_host/transcript_tail.py:130-157 | over every run whose skips are clean, the user events emitted and waiting are all those of the file up to the offset if and only if no successful drive skipped a line holding one |
| OwnLines.UnreadUserLineIsSkipped | host-agent/agent_host/transcript_tail.py:149-157 | a run with a clean skip after which a user event of the file was neither emitted nor kept waiting |
| Splices.NewlineHeals | host-agent/agent_host/transcript_tail.py:223-226 | a read that holds a newline puts the watcher in step with the file's own lines, whatever it held before |
| Splices.EachUncleanSkipSplicesAtMostOneLine | host-agent/agent_host/transcript_tail.py:149-235 | over every run: but for the spliced ones, the lines handed on are, in order, among the lines the file holds up to the offset, and at most one is spliced for each skip that put the watcher out of step |
| Codex.CodexEngine.constructor | host-agent/agent_host/codex_engine.py:36-51 | idle, with nothing pending, and bound to the given session if there is one |
| Codex.CodexEngine.SendText | host-agent/agent_host/codex_engine.py:53-62 | a text is refused after stop, waits behind a turn in flight, and is run otherwise |
| Codex.CodexEngine.Launch | host-agent/agent_host/codex_engine.py:64-101 | a spawn resumes the known session; a failed one completes the turn with an error, frees the engine and keeps the old process as current |
| Codex.CodexEngine.ReadThreadStarted | host-agent/agent_host/codex_engine.py:125-129 | the session id becomes the last one announced |
| Codex.CodexEngine.FinishTurn | host-agent/agent_host/codex_engine.py:157-168 | completes a turn and runs the next pending text, unless the engine is stopped or this turn was finished |
| Codex.CodexEngine.ReadEof | host-agent/agent_host/codex_engine.py:141-155 | fails the turn only for the current process, with a turn in flight that was not finished, before stop; the next pending text is then run |
| Codex.CodexEngine.StopEngine | host-agent/agent_host/codex_engine.py:176-190 | only sets the flag: neither the turn nor the pending texts are touched |
| CodexRuns.StepIsSound | host-agent/agent_host/codex_engine.py:53-190 | every step keeps the invariant that ties completions, turns, processes and accepted texts together |
| CodexRuns.EveryTurnCompletesOnce | host-agent/agent_host/codex_engine.py:53-190 | over every interleaving: the k-th completion is caused by the k-th turn; completions are the turns started less the one in flight; accepted texts are those started and those pending, in order as long as no spawn failed |
| CodexRuns.TextsInOrderExactlyWhenNoneOvertakes | host-agent/agent_host/codex_engine.py:53-168 | over every run, texts started and then pending are the accepted ones in order if none was sent to an idle engine in which others wait; and, when no two are the same, only if |
| CodexRuns.NothingAfterStop | host-agent/agent_host/codex_engine.py:141-190 | nothing starts, completes or is spawned after stop |
| CodexRuns.SessionsAreResumed | host-agent/agent_host/codex_engine.py:64-72 | once a session id is known, every later spawn resumes a session |
| CodexSpawns.ProcessesAreGivenTheirTurns | host-agent/agent_host/codex_engine.py:64-129 | over every run, with one terminal event for each process or any number: a process is given the text of its own turn, and resumes the last id announced or bound before it was spawned, or starts fresh if and only if there is none |
| CodexRuns.SecondTerminalEventHitsAnotherTurn | host-agent/agent_host/codex_engine.py:136-139 | a second terminal event of a process is charged to a turn of another if and only if the guard of `_finish` lets it pass |
| CodexRuns.SecondEventCompletesTheNextTurn | host-agent/agent_host/codex_engine.py:136-168 | a run of two sends in which a second event of the first process completes the turn that the second process is still working on |
| CodexRuns.OwnTurnsExactlyWhenNoEventStrays | host-agent/agent_host/codex_engine.py:136-168 | over every run with any number of terminal events: every completion is charged to its own turn if and only if no event of a process that had ended its turn passed the guard of `_finish`; until one does, the whole invariant stands |
| CodexRuns.GuardHoldsExactlyAfterAnEvent | host-agent/agent_host/codex_engine.py:157-168 | over every such run, the guard of `_finish` holds if and only if the engine is stopped, or what it did last was to complete a turn for an event with no text waiting |
| CodexRuns.SendKeepsOrderExactlyWhenNothingIsStranded | host-agent/agent_host/codex_engine.py:53-92 | a send keeps started and pending texts in the accepted order if and only if a turn is in flight or every pending text is the same text |
| CodexRuns.StrandedTextIsOvertaken | host-agent/agent_host/codex_engine.py:84-91 | a run in which a failed spawn strands a text and the next one overtakes it |
| Interactive.InteractiveEngine.constructor | host-agent/agent_host/interactive_engine.py:22-45 | no process, nothing pending, no turn in flight |
| Interactive.InteractiveEngine.StartProcess | host-agent/agent_host/interactive_engine.py:50-83 | the new process replaces the current one and is recorded with how it was started |
| Interactive.InteractiveEngine.SendText | host-agent/agent_host/interactive_engine.py:85-94 | a text is refused after stop, waits behind a turn in flight, and is written otherwise with a respawn in hand |
| Interactive.InteractiveEngine.WriteLine | host-agent/agent_host/interactive_engine.py:96-128 | a dead process is replaced before the write; a failed write is tried again after at most one respawn a send, always with resume; a line that cannot be written completes with an error |
| Interactive.InteractiveEngine.ReadResult | host-agent/agent_host/interactive_engine.py:158-160 | the result is reported at once, before the lock is taken |
| Interactive.InteractiveEngine.GoOn | host-agent/agent_host/interactive_engine.py:161-165 | then the next pending line is written, or the turn is over |
| Interactive.InteractiveEngine.ReadEof | host-agent/agent_host/interactive_engine.py:167-174 | fails the turn in flight only for the current process before stop, and leaves the pending lines alone |
| Interactive.InteractiveEngine.StopEngine | host-agent/agent_host/interactive_engine.py:182-204 | only sets the flag |
| InteractiveRuns.EofIsSound | host-agent/agent_host/interactive_engine.py:167-174 | an ending process fails a line if and only if it owes one and the engine is not stopped |
| InteractiveRuns.EveryLineCompletesOnce | host-agent/agent_host/interactive_engine.py:85-174 | over every interleaving, respawns in mid-send included: the k-th completion is about the k-th line tried, at most one line is unanswered, and no `--session-id` spawn follows a successful write |
| InteractiveRuns.TextsInOrderExactlyWhenNoneOvertakes | host-agent/agent_host/interactive_engine.py:85-174 | over every run, no accepted text is lost or invented; texts tried and then pending are the accepted ones in order if none was sent to an idle engine in which others wait, and, when no two are the same, only if |
| InteractiveRuns.StrandsExactlyByFailing | host-agent/agent_host/interactive_engine.py:96-174 | texts come to wait in an idle engine if and only if a line fails while they wait, by the end of its process or because it cannot be written |
| InteractiveRuns.OrderKeptUntilALineFailsWaiting | host-agent/agent_host/interactive_engine.py:85-174 | over every run in which no line fails while texts wait, all are in the order accepted |
| InteractiveWrites.WrittenAreTheTriesThatWentThrough | host-agent/agent_host/interactive_engine.py:96-128 | over every run: the lines written are exactly those tried whose write went through, in order, a retry being left once a send; processes are spawned for the first line, for a dead process and for that retry, with `--session-id` only while no session exists; and the newest is the current one |
| InteractiveWrites.WrittenInTheOrderAccepted | host-agent/agent_host/interactive_engine.py:85-165 | so while no text overtakes another, the lines written are, in order, among the texts accepted |
| InteractiveRuns.EofCompletesOnlyWhatIsOwed | host-agent/agent_host/interactive_engine.py:167-174 | in every reachable state the end of a replaced process completes nothing, and the end of the current one completes the line it owes, with an error |
| InteractiveRuns.WritesAfterStop | host-agent/agent_host/interactive_engine.py:85-165 | after stop no text is accepted, and a line is still written if and only if a reader had reported a result before it saw the stop and a text is pending |
| InteractiveRuns.SpawnAfterStop | host-agent/agent_host/interactive_engine.py:96-100 | a run in which a process is spawned after stop |
| InteractiveRuns.SendKeepsOrderExactlyWhenNothingWaits | host-agent/agent_host/interactive_engine.py:85-94 | a send keeps tried and pending lines in the accepted order if and only if a turn is in flight or every pending text is the same text |
| InteractiveRuns.PendingIsOvertaken | host-agent/agent_host/interactive_engine.py:171-174 | a run in which the death of a process leaves a pending text behind and the next one overtakes it |
| InteractiveRuns.LineCanCompleteExactlyWhenItsProcessSpeaks | host-agent/agent_host/interactive_engine.py:96-174 | in every sound state with an unanswered line in flight, some continuation completes a line if and only if a reader holds its result, or the engine is not stopped and the output of the line's process has not ended; else the engine stays in flight for good |
| InteractiveRuns.LineWrittenAfterTheEndHangs | host-agent/agent_host/interactive_engine.py:96-109 | a run that gets there: the output of a process ends, and the next line is still written to it |
| InteractiveStrays.OwnLinesExactlyWhenNoResultStrays | host-agent/agent_host/interactive_engine.py:130-165 | over every run with any number of results: every completion is about its own line if and only if no result that answers no line was read before the stop and reported; until one is, the whole invariant stands |
| InteractiveStrays.StrayIsTakenForTheLineInFlight | host-agent/agent_host/interactive_engine.py:158-165 | the first such result is counted as the answer to the line in flight if and only if that line has none yet, and the line's own answer is then the one too many |
| InteractiveStrays.SecondResultEndsTheNextTurn | host-agent/agent_host/interactive_engine.py:158-165 | a run in which the second result of one line ends the turn of the next, whose process is still at work |
| PyText.SplitLinesOfUnlines | backend/apps/setup/env_writer.py:179-204 | splitting newline-terminated lines gives them back when none holds any of the separators |
| PyText.SplitLinesKeepsWhole | backend/apps/setup/env_writer.py:95-96 | the guard on values passes exactly those that hold no separator |
| PyText.SplitLinesOfBroken | backend/apps/setup/env_writer.py:130 | lines with any of the separators behind each, `\r\n` counting as one, are split into those lines |
| PyText.ReadTextOfBroken | backend/apps/setup/env_writer.py:130 | whichever of the three line ends a text file uses, each is read as a newline |
| PyText.StripOf | backend/apps/setup/env_writer.py:131-135 | stripping leaves what stands between the blanks at both ends |
| EnvWriter.AcceptedKeys | backend/apps/setup/env_writer.py:80-84 | a key is accepted if and only if it is on the allowlist, and an accepted key can be told from the text after it |
| EnvWriter.AcceptedValues | backend/apps/setup/env_writer.py:87-103 | a value is accepted if and only if it holds no NUL, separator, single quote or backslash |
| EnvWriter.EnvFile.Read | backend/apps/setup/env_writer.py:125-136 | the loop over the lines binds each assignment, the last one winning |
| EnvReader.ReadsWhatTheLastAssignmentSays | backend/apps/setup/env_writer.py:125-152 | a key is read with a value if and only if the last line that assigns the key is blanks, key, blanks, the sign, blanks, the value bare or in quotes of either kind, blanks |
| EnvReader.OtherLinesSayNothing | backend/apps/setup/env_writer.py:131-133 | blank lines, lines whose first ink is `#`, and lines without the sign assign nothing |
| EnvWriter.EnvFile.RewriteExisting | backend/apps/setup/env_writer.py:179-199 | the loop rewrites the first assignment of each updated key, drops the later ones and keeps all other lines |
| EnvWriter.EnvFile.AppendMissing | backend/apps/setup/env_writer.py:201-202 | keys not met are appended in their order |
| EnvWriter.EnvFile.FirstError | backend/apps/setup/env_writer.py:161-163 | reports the error of the first pair that has one |
| EnvWriter.EnvFile.Apply | backend/apps/setup/env_writer.py:155-204 | an empty or rejected update leaves the file alone, and so does a missing directory; any other replaces it by the rewritten text |
| EnvRoundTrip.AcceptedDict | backend/apps/setup/env_writer.py:161-163 | an update map is accepted if and only if every pair in it is writable |
| EnvRoundTrip.ErrorIsTheFirst | backend/apps/setup/env_writer.py:80-103 | the error of a rejected map is that of its first bad pair: the key's shape, the allowlist, then NUL, separator, quote and backslash in the value |
| EnvRoundTrip.AssignmentReadsBack | backend/apps/setup/env_writer.py:139-152 | a written assignment is one line that reads back as its key and value |
| EnvRoundTrip.ParseOfRewrite | backend/apps/setup/env_writer.py:188-202 | parsing the rewritten lines gives the old values overridden by the updates, at any point of the loop |
| EnvRoundTrip.UpdatedLines | backend/apps/setup/env_writer.py:178-204 | the file written, read and split again, is exactly the lines meant |
| EnvRoundTrip.UpdateThenRead | backend/apps/setup/env_writer.py:125-206 | for every file and every update map: if accepted, the file reads back as the old contents overridden by the map; if rejected it is unchanged; and it is accepted if and only if all pairs are writable and the directory exists or there is nothing to do |
| EnvRoundTrip.ShapeOfUpdatedFile | backend/apps/setup/env_writer.py:183-204 | lines that assign no updated key survive in order, each updated key is assigned on exactly one line, and that line stands where its first assignment was, or at the end |
| EnvRoundTrip.UpdateTwiceIsOnce | backend/apps/setup/env_writer.py:155-204 | the same update again gives the same answer and the same text |
| SampleCodec.SampleIsLawful | host-agent/agent_host/queue.py:55-70 | there is an encoder and decoder that obey the laws asked of JSON, so what rests on them speaks of something |
| OfflineQueue.Queue.Load | host-agent/agent_host/queue.py:44-56 | the loop yields the events of the lines that decode, in order |
| OfflineQueue.ReadsTheLinesThatDecode | host-agent/agent_host/queue.py:44-56 | any file of lines reads as the events of the lines that decode, in order, whatever blanks stand around them |
| OfflineQueue.Queue.Rewrite | host-agent/agent_host/queue.py:58-73 | the file becomes one record a line |
| OfflineQueue.RewriteIsOneRecordALine | host-agent/agent_host/queue.py:58-73 | a rewritten file is one encoding a line, each line finished, and nothing else |
| OfflineQueue.Queue.Enqueue | host-agent/agent_host/queue.py:79-94 | the record is appended to whatever the file holds |
| OfflineQueue.Queue.Drain | host-agent/agent_host/queue.py:96-128 | sends a prefix up to the first failure, and rewrites or removes the file once at the end |
| OfflineQueue.RewriteReadsBack | host-agent/agent_host/queue.py:44-73 | a rewritten file reads back as exactly the events written |
| OfflineQueue.EnqueueAppends | host-agent/agent_host/queue.py:79-94 | behind finished lines, whatever they hold, an enqueued event reads back last and disturbs nothing |
| OfflineQueue.DrainLeavesTheRest | host-agent/agent_host/queue.py:96-128 | a drain leaves exactly the events from the first failed send on; the file is removed if and only if there were events and all were sent, and left alone if there were none |
| OfflineQueue.AppendEffect | host-agent/agent_host/queue.py:93-94 | the first characters of a record, however many, behind any file left by whole and torn appends: behind finished lines the event can be read once its encoding is there; behind an open line neither it nor that line's record can |
| OfflineQueue.CrashKeepsEarlierEvents | host-agent/agent_host/queue.py:93-94 | an append cut short at any character loses no earlier event, and holds the new one once all of its encoding is written |
| OfflineQueue.EnqueueAfterCrash | host-agent/agent_host/queue.py:93-94 | the append after that survives if and only if the torn one wrote nothing or everything |
| OfflineQueue.RecordAfterTornIsLost | host-agent/agent_host/queue.py:13-15 | otherwise both records are gone, and the earlier ones stay |
| Sender.Daemon.DrainFile | host-agent/agent_host/wsclient.py:737-766 | the loop over the events read from the file drops oversized ones, sends the others up to the first failure and keeps the rest, and the file becomes what is kept, or is removed, unless nothing was read |
| Sender.Daemon.SendIncoming | host-agent/agent_host/wsclient.py:798-809 | the oldest incoming event is sent, or its record appended to the file and the connection given up |
| SenderRuns.StepIsSound | host-agent/agent_host/wsclient.py:735-809 | every orderly step of drain, live sending and reconnecting keeps sent, file and incoming together in the accepted order |
| SenderRuns.NothingLostOrReordered | host-agent/agent_host/wsclient.py:735-809 | over every sequence of reconnects with one live sender and connections that stay failed: sent, then the offline file, then the incoming queue are the accepted events in order, less oversized ones dropped while draining |
| SenderRuns.LiveSendKeepsOrderExactlyWhenFileIsEmpty | host-agent/agent_host/wsclient.py:798-809 | a successful live send keeps the order if and only if the offline file is empty |
| SenderRuns.DeliveryInOrderExactlyWhenNothingIsOvertaken | host-agent/agent_host/wsclient.py:735-809 | over every run, stale sends at any time included, what is sent and what a drain will send are in the accepted order if and only if no live send went past an event still in the file |
| SenderRuns.StaleSendIsOvertaken | host-agent/agent_host/wsclient.py:798-809 | a run in which a stale sender stores an event and the live one sends the next before it |
| SenderDisk.RunOnEvents | host-agent/agent_host/wsclient.py:735-809 | without crashes, the runs on the text of the file are the runs on the events it holds, so what is shown of those holds of the text |
| SenderDisk.EventsOrderHoldsOfText | host-agent/agent_host/wsclient.py:735-809 | so over every orderly run outside a drain, what was sent, what can be read from the text of the file, and what came in are together the accepted events in order, less those dropped |
| SenderDisk.WholeDrainIsDrainFile | host-agent/agent_host/wsclient.py:737-766 | connecting, the rounds of the drain and its end together do what DrainFile does |
| SenderDisk.ReconnectMendsExactlyWhenAnythingIsReadable | host-agent/agent_host/wsclient.py:739-766 | after the drain on reconnecting the file ends in a finished line if and only if it did before or some record in it could be read |
| SenderDisk.AppendRead | host-agent/agent_host/queue.py:93-94 | of every event it is told whether it can be read after an append of any length, from what could be read before |
| SenderDisk.StepIsSound | host-agent/agent_host/wsclient.py:735-809 | every step, crashes inside appends and stale sends included, keeps the invariant of file and drain, and makes a written event unsafe if and only if it is one of the losing steps |
| SenderDisk.WrittenIsSafeExactlyWhenNothingLosesIt | host-agent/agent_host/wsclient.py:735-809 | over every run: an event whose record was once whole on disk is sent, dropped as oversized, readable or in a drain's hands if and only if no step of the run was a losing one for it |
| SenderLosses.LostExactlyBehindAnOpenLine | host-agent/agent_host/queue.py:93-94 | with crashes inside appends and one live sender, a written event is lost if and only if its append ran on behind an unfinished line or another ran on behind its own |
| SenderLosses.LostExactlyBetweenReadAndRewrite | host-agent/agent_host/wsclient.py:739-809 | with whole appends, crashes elsewhere and stale senders at any time, a written event is lost if and only if a stale sender appended it between a drain's read of the file and that drain's rewrite |
| SenderLosses.NothingOnDiskIsLost | host-agent/agent_host/wsclient.py:739-809 | with whole appends and no stale send during a drain, crashes anywhere else lose nothing that was written |
| SenderLosses.TornRecordSwallowsTheNext | host-agent/agent_host/queue.py:93-94 | a run with one live sender that tears a record, reconnects, writes the next record whole, and loses it |
| SenderLosses.LateEventIsForgotten | host-agent/agent_host/wsclient.py:763-773 | a run without torn records in which a drain removes the file with an event that a stale sender had appended |
| SenderRepeats.CopiesBalance | host-agent/agent_host/wsclient.py:735-809 | over every run, crashes inside appends and stale senders included: how often an event was sent or dropped, and once more if it is still due, is once if it left the incoming queue, and once more for each drain that had handled it and died before it rewrote the file, less the copies lost |
| SenderRepeats.LosesIsVanishingUnsent | host-agent/agent_host/wsclient.py:735-809 | in every sound state, a step that loses an event, of which no copy was sent or dropped, is one by which a copy of it is lost, and the other way round |
| SenderRepeats.HandledOncePlusOncePerDeadDrain | host-agent/agent_host/wsclient.py:737-766 | with whole appends and no stale send during a drain no copy is lost, so the count is exact |
| SenderRepeats.GoodDrainHandlesAll | host-agent/agent_host/wsclient.py:739-766 | a drain whose sends go through sends, in the order of the file, every event it holds that is small enough, drops the others, and removes the file unless there was none to read |
| SenderRepeats.WrittenIsDeliveredByTheNextGoodDrain | host-agent/agent_host/wsclient.py:735-809 | over every run: once the connection is down, an event whose record was once whole on disk, and small enough, is sent by the end of the next drain whose sends go through if and only if no step lost it |
| SenderRepeats.DeadDrainSendsAgain | host-agent/agent_host/wsclient.py:739-766 | a run in which a drain sends its event, dies before it rewrites the file, and the next drain sends the event again |
| SenderOrder.FirstSendsInOrderExactlyWhenTheOvertakenAreLost | host-agent/agent_host/wsclient.py:735-809 | over every run, crashes inside appends and stale senders included: the first sends, and those still to come, are in the accepted order if and only if every event that a live send went past was lost |
| DispatchSafety.StepIsSound | backend/apps/connectors/service.py:380-483 | every step of every call keeps lock exclusion, one active thread per session, and what each call has read of its thread current |
| DispatchSafety.OneThreadAndOneTopic | backend/apps/connectors/service.py:162-483 | for any number of calls interleaved in any way, with any lock key function: at most one active thread per session id; the topics made for a thread are the one recorded or being recorded and those whose recording failed, so at most one where none failed; calls for one session that end on active threads end on the same one |
| DispatchSafety.TopicsAreKept | backend/apps/connectors/service.py:387-402 | reuse of a thread never erases or replaces its topic or its session |
| DispatchRecords.RecordedTopicIsTheThreadsOwn | backend/apps/connectors/service.py:181-195 | over every run, minted ids secret or not: a topic recorded on a thread was made for that thread, so no two threads record one |
| DispatchRecords.ThreadsCarryWhatTheirCallsNamed | backend/apps/connectors/service.py:387-418 | over every run: a thread's directory is the one named by the last call that found or made it, whatever topics are recorded meanwhile, and a call's thread is bound to the session id it named or minted |
| DispatchRecords.ActiveThreadIsReused | backend/apps/connectors/service.py:275-292 | a call finds the newest active thread of its session if and only if there is one, and commits that one or a new one accordingly |
| DispatchSafety.StepCounts | backend/apps/connectors/service.py:181-195 | every step keeps the count of topics made per thread equal to those recorded, being recorded and left unsaved |
| DispatchSafety.SecondTopicExactlyAfterUnsaved | backend/apps/connectors/service.py:478-483 | a topic made is a second one of its thread if and only if one made before was left unsaved by a failing save or the death of the process |
| DispatchSafety.UnsavedTopicIsMadeAgain | backend/apps/connectors/service.py:181-195 | a run of two calls in which the first fails to record its topic and the second makes another |
| DispatchSafety.UnlockedTopicIsTheOnlyOneExactlyWhenThereIsNone | backend/apps/connectors/service.py:473-476 | the topic made without a lock is the only one of its thread if and only if none is recorded, being recorded or left unsaved at that moment |
| DispatchSafety.MintedIdRace | backend/apps/connectors/service.py:473-476 | a run that makes two topics for one thread, when a second call is given an id still being minted |
| Setup.SetupWizard.AdvanceStage | backend/apps/setup/models.py:176-194 | moves along a permitted edge only, past the first stage only with a provider connected, and stamps completion with the last stage |
| Setup.SetupWizard.IssueToken | backend/apps/setup/models.py:83-94 | all earlier tokens are consumed and one live token is added, or nothing changes |
| Setup.SetupWizard.PostAdvance | backend/apps/setup/views.py:39-50 | behind the gate, one stage edge, never to the last stage |
| Setup.SetupWizard.PostComplete | backend/apps/setup/views.py:63-76 | behind the gate, the last stage and the consumed token together or neither |
| Setup.SetupWizard.PostTelegramToken | backend/apps/setup/views.py:100-136 | behind the gate, stores the token and mints a challenge, or changes nothing |
| Setup.SetupWizard.StoreBotToken | backend/apps/setup/views.py:109-128 | the challenge is minted only after the token was accepted and the file written |
| Setup.SetupWizard.PostTelegramDiscover | backend/apps/setup/views.py:139-208 | behind the gate, connects telegram and uses the challenge up, or changes nothing |
| Setup.SetupWizard.Discover | backend/apps/setup/views.py:154-199 | the challenge is used up only after the file was written |
| Setup.SetupWizard.GetPage | backend/apps/setup/page.py:40-60 | a live token in the URL is exchanged for a fresh one |
| Setup.SetupWizard.RunSetupCommand | backend/apps/setup/management/commands/setup_token.py:40-53 | a completed setup is refused without reopening; else it is reopened if need be and a token issued |
| SetupSafety.HandleIsSound | backend/apps/setup/views.py:63-208 | every request keeps the invariant between state, tokens and env file |
| SetupSafety.SetupInvariant | backend/apps/setup/models.py:83-259 | in every reachable state, from any env file: last stage if and only if completed; at most one token unconsumed, none when complete; past the first stage a provider is connected; telegram connected only over a file that reads back a bot token, an allowlist, platform telegram and equal chat ids; no more discoveries than challenges |
| SetupGrants.LetThroughExactlyByTheLastGrant | backend/apps/setup/models.py:83-122 | in every reachable state, told from requests and replies alone: a request is let past the gate if and only if its token is not empty, is the last one issued, was not used since, and has not expired; while there is such a token setup is not complete |
| SetupGrants.OthersAreTurnedAway | backend/apps/setup/auth.py:137-143 | any other request over the network changes nothing, and is told that setup is closed if and only if it is complete |
| SetupGrants.OnlyTheGrantOpensCompletesOrAllows | backend/apps/setup/models.py:114-118 | in every reachable state the page opens, setup becomes complete and the allowlist changes only for a request with the last token issued, unused and not expired |
| SetupEffects.AdvanceDoes | backend/apps/setup/views.py:39-50 | one stage on with a provider connected, or back to the first, never to the last; else nothing |
| SetupEffects.CompleteDoes | backend/apps/setup/views.py:63-76 | accepted if and only if at the stage before the last; then the last stage, the time, and every token used up |
| SetupEffects.WithoutSpacesIs | backend/apps/setup/serializers.py:57 | exactly the whitespace is left out, the order kept |
| SetupEffects.BotTokenShape | backend/apps/setup/serializers.py:13 | a bot token is digits, a colon, and ten or more letters, digits, underscores and hyphens |
| SetupEffects.TelegramTokenDoes | backend/apps/setup/views.py:109-136 | accepted if and only if at the first stage, with a token of that shape that Telegram knows, and a directory to write to; then the file reads as before but for the token, and a challenge of the given code is out |
| SetupEffects.DiscoverDoes | backend/apps/setup/views.py:154-208 | accepted if and only if at the first stage with a token on file and a challenge out, and nothing found yet or a usable chat; a chat found is written with its sender as the only one allowed, uses the challenge up and connects Telegram |
| SetupEffects.OpenPageDoes | backend/apps/setup/page.py:40-60 | accepted if and only if the new hash is free; then every row is used up and the new one lives for its time |
| SetupEffects.SetupCommandDoes | backend/apps/setup/management/commands/setup_token.py:40-53 | refused if and only if setup is complete and not to be reopened, or the hash is taken; reopening forgets stage, time, providers and challenge |
| SetupSafety.TokensAreSingleUse | backend/apps/setup/models.py:96-122 | a token that opened the page or completed setup is refused ever after, whatever is requested in between |
| SetupSafety.OnlyDiscoveryWritesTheAllowlist | backend/apps/setup/views.py:79-199 | the allowlist changes only by a discovery with a live token, at the first stage, with a challenge outstanding, which it uses up |
| SetupSafety.CompleteIsClosed | backend/apps/setup/auth.py:137-143 | after completion no request changes anything except the operator's reopening, which leaves a fresh state |
| SetupSafety.OneStageAtATime | backend/apps/setup/models.py:143-194 | a request moves the wizard by one stage at most, reopening apart, and setup becomes complete only from the stage before the last, by a live token that is consumed with it |
| Delivery.HostLink.constructor | backend/apps/hostlink/consumers.py:104-106 | an empty queue, a drainer waiting |
| Delivery.HostLink.PutNowait | backend/apps/hostlink/consumers.py:468-470 | an item is refused exactly when 2000 are queued |
| Delivery.HostLink.PutDroppingOldest | backend/apps/hostlink/consumers.py:468-476 | the item goes in last, and a full queue loses its oldest with the unfinished count still right |
| Delivery.HostLink.DeliverToTelegram | backend/apps/hostlink/consumers.py:454-476 | a turn is queued as the newest |
| Delivery.HostLink.SignalStop | backend/apps/hostlink/consumers.py:124-133 | the sentinel is queued as the newest, with closing set |
| Delivery.HostLink.DrainerGets | backend/apps/hostlink/consumers.py:495-500 | the oldest item is taken: the sentinel ends the drainer, a turn is attempted |
| Delivery.HostLink.DrainerSent | backend/apps/hostlink/consumers.py:501-508 | a delivery that ended, well or badly, is marked done once |
| DeliveryRuns.NothingIsForgotten | backend/apps/hostlink/consumers.py:111-510 | over every run: never more than 2000 queued; closing if and only if disconnected; unfinished equals queued plus in flight; turns are attempted in the order put in; one is dropped only by the 2000th item put in after it; at the sentinel every earlier item was attempted or dropped |
| DeliveryRuns.WaitingDrainerComesThrough | backend/apps/hostlink/consumers.py:495-510 | from every reachable state in which the drainer waits, it attempts the turns queued before the sentinel in order, and exits there or empties the queue |
| PyInt.NumberReadsBack | backend/apps/prompts/render.py:158-165 | a number is printed in digits without a leading zero, and is read back as itself |
| PyInt.IntReadsWhatIsSpelled | backend/apps/prompts/render.py:158-162 | a text reads as an integer if and only if it is blanks, a sign or none, digits with underscores between two of them only, blanks; and the integer is the one these digits spell |
| PyText.SplitOfJoin | backend/apps/prompts/render.py:143 | splitting a joined list gives it back when no part holds the separator |
| PyText.JoinOfSplit | host-agent/agent_host/pty_stream.py:73-82 | joining the pieces of a split gives the text back |
| Prompts.ParseParts | backend/apps/prompts/render.py:147-155 | the loop yields a key for every part in order, or nothing as soon as a part names no option |
| Prompts.PromptRow.RecordResponse | backend/apps/prompts/models.py:72-82 | option keys are preferred to text, a reply with neither leaves the response as it was, and the row is answered |
| Prompts.PromptRow.Resolve | backend/apps/prompts/service.py:86-120 | succeeds only in time, on a pending row, with valid keys in a permitted number; comes too late by expiring a pending row; changes nothing otherwise |
| PromptRuns.ShownNumberSelectsItsOption | backend/apps/prompts/render.py:39-128 | the entry that shows a number shows the option which a reply read as that number selects, whatever the labels hold |
| PromptRuns.RenderingListsTheOptions | backend/apps/prompts/render.py:39-56 | the lines of the rendering hold each option's entry, its number and then its label of one or more lines, below the entries before it |
| PromptRuns.RenderingIsHeaderEntriesFooter | backend/apps/prompts/render.py:32-56 | the rendering is the lines of the header, of the entries in order, and the footer |
| PromptRuns.RenderingShowsQuestionAndBody | backend/apps/prompts/render.py:24-61 | the rendering of each kind is the question's lines, the body's unless it is blank, the entries if there are options to choose from, and how to reply |
| PromptRuns.QuestionShowsItsOptions | backend/apps/connectors/service.py:514-530 | a question asked shows its text and its options with their numbers |
| PromptRuns.ApprovalShowsAllowAndDeny | backend/apps/prompts/render.py:39-44 | an approval, with options of its own or without, shows the action, the preview, and allow and deny |
| PromptRuns.LabelSelects | backend/apps/prompts/render.py:117-137 | a reply that is neither an option number nor an approval word selects the last option whose label it is, in any case |
| PromptRuns.SingleReplySelects | backend/apps/prompts/render.py:117-139 | a reply to a question with one answer selects option n if it is that number; else the answer its word names, if offered; else the last option with that label, in any case; and is not accepted if and only if it is none of these |
| PromptRuns.CommaReplySelects | backend/apps/prompts/render.py:142-155 | a reply of pieces between commas, blanks around them not counting, selects what each piece that says anything chooses, by number or label, in their order; and is not accepted if and only if none says anything or one chooses nothing |
| PromptRuns.NothingToChoose | backend/apps/prompts/render.py:82-114 | a notice takes no reply, and neither does a choice of several without options |
| PromptRuns.AnswerToNumber | backend/apps/connectors/service.py:504-632 | asking, replying a number within an hour, resolving and reading the result returns the last option with the chosen one's first 40 characters; later it reads as expired |
| PromptRuns.ChoicesComeBackExactlyWhenPrefixesDiffer | backend/apps/connectors/service.py:516-518 | every option comes back as chosen if and only if equal 40-character prefixes mean equal options |
| PromptRuns.AnswerToFreeText | backend/apps/prompts/render.py:77-80 | a free-text reply that is parsed comes back without the blanks around it, and is not accepted when there is nothing else |
| PromptRuns.PendingAskTakesTextVerbatim | backend/apps/connectors/service.py:563-596 | a text sent to the newest open question is its answer, blanks and all, if and only if the question has not expired by the time it is recorded; all other questions stay as they are |
| PromptRuns.NumbersSelectTheirOptions | backend/apps/prompts/render.py:142-155 | numbers joined by commas select their options in that order, repeats included |
| PromptRuns.FirstSettlingCallDecides | backend/apps/prompts/service.py:86-120 | over any sequence of calls, with any clocks: the final row is the work of the first call that is too late or acceptable, and that call alone succeeds, if it is in time |
| PromptRuns.AnsweredByTheFirstPermittedReply | backend/apps/prompts/service.py:99-120 | over any sequence of calls, with any clocks: the final row is answered with reply and sender of the first call that is in time and names keys of the options, as many as permitted, or no keys; or is expired if a call came too late before that; or is as it was |
| PromptRuns.AnswerStays | backend/apps/prompts/service.py:97-105 | a row that is no longer pending never changes again |
| PromptRuns.AllowedExactlyByFirstReply | backend/apps/connectors/service.py:612-616 | an approval reads as allowed if and only if its first settling call was in time and named the allow option |
| PromptRuns.DeniedExactlyByAnyOtherReply | backend/apps/connectors/service.py:612-617 | an approval reads as denied if and only if its first settling call was in time and did not name the allow option |
| PromptRuns.ResultOfAnswered | backend/apps/connectors/service.py:599-632 | of an answered prompt, an approval reads as the key named or a denial; any other as its text, or the label of the last option with the first key named, or that key |
| PromptRuns.RepliesThatAllow | backend/apps/prompts/render.py:99-140 | the typed replies that allow are those read as 1, and allow, approve and yes in any case |
| PromptRuns.RepliesThatDeny | backend/apps/prompts/render.py:99-140 | the typed replies that deny are those read as 2, and deny, reject and no in any case |
| Supervisor.FinishedByDisappearance | backend/apps/supervisor/classifier.py:179-201 | the loop reports, in order, the sessions gone that were not terminal |
| Supervisor.DetectMajorSteps | backend/apps/supervisor/classifier.py:209-240 | the loop reports, in order, the triggers of the sessions present, then those of the sessions gone |
| SupervisorRuns.OneReportPerCycle | backend/apps/supervisor/classifier.py:126-240 | a cycle reports a thread at most once: started if and only if it came, finished if and only if it was live and is not any more, needs input if and only if it was there and began to wait, stalled if and only if it is at work without an event since the last cycle and for ten minutes or more |
| SupervisorRuns.StepsDescribeTheirSessions | backend/apps/supervisor/classifier.py:89-201 | every step carries the label of the session it is about, as last seen, and the severity of its kind, five down to one, a failure having its own |
| SupervisorRuns.StepsStandInOrder | backend/apps/supervisor/classifier.py:230-240 | the steps stand in the order of the sessions present, and then of those before |
| SupervisorRuns.ReportsBalance | backend/apps/supervisor/classifier.py:209-240 | over any run started is reported once per arrival, finished once per spell of being live but for one still going on, needs input once each time the thread began to wait, and stalled in every cycle that a stall lasts |
| SupervisorRuns.OneLifeOneStartOneFinish | backend/apps/supervisor/classifier.py:126-240 | a thread present for one interval, terminal for good once terminal, is reported started once, and finished once if it began live and is not live at the end, else never |
| SupervisorRuns.FailureLooksFinished | backend/apps/supervisor/fleet_state.py:80-88 | on snapshots without terminal threads no step has the severity of a failure |
| SupervisorRuns.FailureIsReportedExactlyWhenSeen | backend/apps/supervisor/classifier.py:89-201 | a thread is reported with the severity of a failure if and only if it was live before and is seen with the status failed |
| Push.Coalesce | backend/apps/supervisor/push.py:61-83 | at most five steps, each the earliest of its thread's highest severity, by falling severity and ties in the order first seen; what is left out is outranked by all of five |
| Push.PushIsUnique | backend/apps/supervisor/push.py:61-83 | only one list is like that, so the description determines the result |
| Push.ChosenThreadsDiffer | backend/apps/supervisor/push.py:71-77 | no thread is chosen twice |
| Push.SortedIsRanked | backend/apps/supervisor/push.py:79-80 | the stable descending sort ranks by severity and then by first sight, and keeps the members |
| Push.RankedIsSorted | backend/apps/supervisor/push.py:98-99 | sorting a ranked list again changes nothing |
| PushOfCycle.EveryStepIsHighest | backend/apps/supervisor/push.py:71-77 | the steps of one cycle have different threads, so merging by thread drops none of them |
| PushOfCycle.OnlyMoreUrgentStepsCrowdOut | backend/apps/supervisor/push.py:61-83 | a step of a cycle is left out of the push only when there are more than five, in favour of five that are at least as urgent: needs input before finished before started before stalled |
| PtyStream.PtyStreamer.SendDiff | host-agent/agent_host/pty_stream.py:59-94 | ships the lines beyond those counted, if the send goes through, and counts the capture's lines either way |
| PtyStream.PtyStreamer.StreamOutput | host-agent/agent_host/pty_stream.py:96-115 | the frames of a session are the chunks of its captures in order, and then the end |
| PtyStream.NoNewLineIsHeldBack | host-agent/agent_host/pty_stream.py:80-83 | new lines always give a chunk: the guard against blank text never holds one back |
| PtyStream.MissedPollsDoNotMatter | host-agent/agent_host/pty_stream.py:97-106 | polls that find no session leave no trace |
| PtyStream.ShippedIsAppeared | host-agent/agent_host/wsclient.py:618-639 | the chunks, joined, are the lines by which each capture exceeds the one before |
| PtyStream.ShippedIsPicked | host-agent/agent_host/pty_stream.py:80-94 | whichever sends fail, the chunks, joined, are the lines by which the captures whose sends went through exceed those before them |
| PtyStream.ShippedIsFinalScreenExactlyWhenLinesStay | host-agent/agent_host/pty_stream.py:50-106 | with all sends going through, the chunks joined by newlines are the final screen if and only if no capture has fewer lines than the one before and every line still reads as it first did |
| PtyStream.ShippedIsFinalExactlyWhenPickedIsLast | host-agent/agent_host/pty_stream.py:80-106 | with any outcomes of the sends and any captures: the chunks are the final screen if and only if the lines that appeared at the polls whose sends went through are its lines |
| PtyStream.FailedSendIsNeverMadeUp | host-agent/agent_host/pty_stream.py:80-94 | with any outcomes of the sends, while no capture loses lines: the chunks are the final screen if and only if no send of new lines failed and every line still reads as it first did |
| PtyStream.ShrinkingHidesAFailedSend | host-agent/agent_host/pty_stream.py:76-94 | a run in which a failed send goes unnoticed because the captures lose lines and start anew: the final screen comes through, but not all lines that appeared |
| PtyStream.GrowingScreenComesThrough | host-agent/agent_host/pty_stream.py:62-65 | captures that extend one another line by line come through whole |
| PtyStream.GrowingLineIsCutShort | host-agent/agent_host/pty_stream.py:80-94 | a line captured while it is being written is shipped as it was then |
| Screens.AppearedIsLast | host-agent/agent_host/pty_stream.py:74-94 | the lines that appeared are the last screen if and only if no screen shrinks and no line changes |
| BotLoop.Loop.HandleBatch | backend/apps/telegram/management/commands/run_telegram_bot.py:92-145 | the loop over a batch handles each update once, moves the offset behind it and records it, and passes over ids recorded before |
| BotRuns.BatchIsHandleAll | backend/apps/telegram/management/commands/run_telegram_bot.py:92-145 | beginning and recording one update after another is handling the batch |
| BotRuns.AnyBatch | backend/apps/telegram/management/commands/run_telegram_bot.py:92-145 | of any batch, ascending or not, the ids handled ascend and lie behind the one recorded before, and the one recorded at the end lies at or behind all of the batch |
| BotRuns.RecordAndOffsetAreTheLast | backend/apps/telegram/management/commands/run_telegram_bot.py:71-145 | over every run the cache holds the id handled and recorded last, or nothing once it was lost; the loop polls from behind the update it began last, and after a restart from behind the id on record, or from 0 |
| BotRuns.HandledOncePlusOncePerUndoing | backend/apps/telegram/management/commands/run_telegram_bot.py:64-145 | over every run, with crashes anywhere and a recorded id that may vanish at any time: an update that offset or confirmation has passed was handled once, and once more for each restart that gave it up; any other once for each such restart; so none is skipped |
| BotRuns.RecordedIsHandledAgainExactlyWhenGivenUp | backend/apps/telegram/management/commands/run_telegram_bot.py:71-103 | from any reachable state on, a recorded update is handled again, or is to be, if and only if some restart finds no recorded id at or behind it while no poll has confirmed it |
| BotRuns.RecordedIsNotInTheBatch | backend/apps/telegram/management/commands/run_telegram_bot.py:95-103 | what is still to be handled of a batch lies behind the id this process recorded last and behind what polls have confirmed |
| BotRuns.HangAndExpire | backend/config/settings/base.py:101-109 | a run in which the first of two updates is handled and recorded, the second hangs, and the recorded id expires |
| BotRuns.ExpiredRecordHandlesAgain | backend/apps/telegram/management/commands/run_telegram_bot.py:71-76 | the restart from there handles the first again, although it was recorded and not interrupted |
| BotRuns.CrashHandlesAgain | backend/apps/telegram/management/commands/run_telegram_bot.py:137-145 | a run in which a crash makes the loop handle an update twice |

## Left out

- Process spawning, pipes, tmux, WebSocket, HTTP, Telegram and model calls: each is a step that succeeds, fails or delivers an event.
- InteractiveEngine spawns are taken to succeed; an exception raised by a spawn would leave the turn in flight.
- Threads inside one locked section: each section under a lock, and each callback, is one step.
- Watchdogs, poll intervals, backoff, heartbeats, reconcile frames and the drainer's throttle: no property modelled depends on them.
- Cancelling the drainer after ten seconds, and a forum chat id that is missing or not a number, in which case the drainer does not run.
- The temporary file, lock file, permissions and fsync of the env writer: a write of the file is one step.
- Env file text is a sequence of characters; UTF-8 decoding errors are not modelled.
- Unicode decimal digits other than 0 to 9 in `int` and in the bot token pattern, and the interpreter's limit on digits of an integer.
- Prompt length limits of database columns, prompt hashes, nonces and the Telegram button surface.
- Finding the chat in Telegram updates (`telegram_flow.discover_chat`): its answer is an argument.
- Host, origin and proxy checks of the setup pages: requests are taken to have passed them.
- The session cookie of the setup page: a request carries the raw token it presents.
- start_session and its topic step are modelled as steps on rows by value, not as a class: the calls interleave inside one transaction, which methods cannot show. A process that dies is modelled where it matters, between making a topic and recording it.
- Database writers outside `start_session` that change a thread's metadata or make an ended thread active again.
- Removal of escape sequences: captures are taken as they are after it.
- The queue streamer and the websocket streamer are one model, since they differ only in where a chunk goes; putting a chunk on the queue is its send.
- Redaction, formatting and delivery of pushes, and the supervisor's digest.
- Content helpers of the transcript: a line decodes to an event or to none by an arbitrary function.
- Failing polls, the watchdog and the handlers of the Telegram bot command: a poll that fails changes nothing, and handling an update is one step that may fail.
- The TypeScript gateways and setup pages.
