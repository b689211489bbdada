# Verified models of a session daemon

The daemon owns long-running agent sessions. It streams their events to clients that come and go,
installs agents, stores what plugins keep, bounds uploads, and puts an agent's settings back after a
restart. This project models the parts of it that are state under adversarial interleaving, chunking
or loss, and proves what those parts promise over whole runs.

Code that works by changing fields is a class whose methods are proved equal to functions on values;
the theorems are about those functions, over every input, every run or every reachable state. Where a
promise does not hold of the code, a lemma gives a run that breaks it and another says exactly when it
holds.

| file | what it models |
|---|---|
| `Common` | shared pieces |
| `StreamConnection`, `AttachClient`, `StreamOrder`, `StreamRuns`, `StreamContent`, `StreamBounds`, `StreamAccount`, `StreamLosses` | the event stream: the daemon's bounded queue for one socket, the terminal client's cursor, the order of what is sent, both sides together over appends, collapses, closes, restarts and reconnects, which event travels under a seq, the bounds of what is kept and sent, and what goes wrong |
| `TextRun` | how the terminal client regroups streamed text |
| `Transcript`, `LineFraming` | the capped transcript with its cursor reads; newline framing under arbitrary chunking |
| `AgentInstall`, `AgentInstallRuns`, `AgentInstallPhases` | the script gate, one install run's two streams, the install slot with its settle races, and phases and signals read off the script's text |
| `EventQueue`, `SessionTurns` | the session's event queue, and turns and idle drains sharing it |
| `ToolDraft` | holding back a tool's streamed arguments |
| `Config`, `ConfigRestore`, `ConfigTurns` | an agent's controls: serialised changes, restoring them, and restoring them while others change them |
| `PluginTexts`, `PluginData`, `PluginQuota`, `PluginViews`, `PluginPages`, `PluginTable`, `PluginUsage`, `PluginBytes` | the flat plugin map, its quota, the map of maps it stands for, reading it page by page, the table beside it with its own order and ranges, the running count kept there, and what a text weighs |
| `UploadRate`, `UploadOverlap` | the sliding-window upload limit, and uploads that overlap |
| `Tar`, `TarArchive`, `TarReader`, `TarMembers` | the tar writer and the reader, that they undo each other, and what the reader makes of archives written elsewhere |
| `Enrollment`, `RemoverTrees`, `ShellQuote` | enrolling across boots; trees that may be removed; quoting for a login pty |

Conventions. A clock, a socket's readiness, the sizes of encoded frames, an agent's behaviour, a
fingerprint and what the control plane answers are parameters. A callback that runs with nothing else
in between is one step of a machine; everything an `await` separates is another. Resolved promises run
in the order they were resolved.

## What does not hold, and when it does

- **A collapse can leave a hole, or announce twice.** `collapse` empties the queue and reports from
  `lastSentSeq`. If it throws away a `lagged` frame that an earlier one queued, while `lastSentSeq` has
  moved past that frame's range, the range is never reported; if an announcement of what is gone was
  sent before any event was, `lastSentSeq` still stands before it, and its range is announced again.
  The client's place survives a collapse exactly when the account was true (`StreamRuns.CollapseExact`),
  and it is true exactly when no announcement reaching back into it waits in the queue and none that was
  sent reaches past it, which the queue and the frames sent tell (`StreamAccounts.TheAccountIsTrueExactly`,
  `StreamAccounts.ACollapseGoesWrongInTwoWays`). One run ends with the client exiting on a gap although
  the log is whole (`StreamLosses.GapExitIsReachable`), another hears one seq announced twice
  (`StreamLosses.AnEvictionIsAnnouncedTwice`).
- **A greeting alone skips silently.** `hello` moves the client's cursor before the frames that
  announce the skip; if the socket dies in between, the range is never reported. A socket that dies
  costs the client its place exactly then (`StreamRuns.ADroppedClientKeepsItsPlace`), and a greeting
  alone loses nothing exactly when the rest of the log fits one replay
  (`StreamLosses.GreetingAloneSkipsSilently`).
- **A lone patch can be lost.** The comment at `src/session.ts` 2736-2754 says that a held update has
  nothing but its text block. An update whose one block is a patch, with output in `rawOutput` that
  extends the draft, is held, and its file change is never reported (`ToolDrafts.ALostPatch`,
  `ToolDrafts.APatchIsLostExactly`); over a whole run the transcript is the whole less outgrown
  updates exactly when that does not happen (`ToolDrafts.ASessionOnlyThins`).
- **A held update's marks can be lost.** The hold ignores `backgrounded` and the parent call
  (`ToolDrafts.ALostMarker`, `ToolDrafts.ALostParent`). What one update alone says is lost exactly when
  it was held and the next thing the session was told was held too (`ToolDrafts.AMarkIsLostExactly`).
- **The event queue's cap is not one.** The comment at `src/session.ts` 392 calls 2000 the cap on what
  is buffered. Past it a push takes out the first event that is machinery; where there is none it takes
  out the head and leaves a mark, so that the buffer grows by one each time
  (`EventQueues.TheBoundHoldsExactly`, `EventQueues.WordsAloneHaveNoBound`).
- **A refused prompt sticks.** The comment at `src/session.ts` 2130-2138 says that a turn can be
  displaced by a second prompt and that this is graceful. `claimForTurn` throws instead, after
  `turnActive` has been set, and nothing takes the flag down again
  (`SessionTurns.OnlyARefusedPromptSticks`, `SessionTurns.StuckIsReachable`); no turn is ever displaced
  (`SessionTurns.TurnsNeverShareTheQueue`). The daemon's own sessions send no prompt while a turn holds
  the queue, and under that discipline each prompt ends once.
- **The draft is not flushed before every event.** The comment at `src/session.ts` 2601-2605 says it is;
  a permission request, an agent's log line and a file write are pushed without it, and so can overtake
  a held update (`ToolDrafts.AnOvertakenUpdate`). The order of arrival is kept exactly when none of
  these comes while an update is held that is still to go out (`ToolDrafts.AnAsideOvertakesExactly`).
- **A deadline undoes the chain's promise.** A change given up on can reach the agent later, unheard
  (`ConfigChains.AnExpiredChangeGoesUnheard`). What is held stays true exactly when every deadline and
  every late arrival was harmless (`ConfigChains.HeldTrueExactly`), and the next list that arrives puts
  it right (`ConfigChains.TheNextListPutsItRight`).
- **Restoring can miss a mode that is there.** The guard looks for the mode among those the new
  conversation has, and then sets it through the mode control, which may not offer it
  (`ConfigRestores.AModeThatIsThereStaysAway`); `ConfigRestores.TheModeComesBackExactly` says when it
  comes back. For an agent whose controls affect each other, a choice that was offered and put back can
  be reset by the next one (`ConfigRestores.ACoupledAgentLosesAChoice`);
  `ConfigTurns.AChoiceSurvivesExactly` says when it survives. For every agent whose controls do not,
  `ConfigRestores.EverythingOfferedIsPutBack` says what each ends with.
- **A restored choice can be withdrawn before it is sent.** Each round looks at the list and then waits
  for its turn; a list that comes in between can take the choice away (`ConfigTurns.AWithdrawnChoiceIsSent`,
  `ConfigTurns.WithdrawnIsSentExactly`).
- **Overlapping uploads are not bounded** by the window and one upload, as the comment at
  `src/uploads.ts` 594-602 has it, since a charge is made when the body has been read
  (`UploadRates.OverlappingUploadsHaveNoBound`). For which schedules they are, whatever the uploads
  carry, is said exactly by `UploadOverlaps.OverlapsAreBoundedExactly` and
  `UploadOverlaps.AnySizeIsBoundedExactly`.
- **A clock that goes back makes the pruned list forget** (`UploadRates.AClockGoingBackForgets`), exactly
  when a check drops a charge that counts again (`UploadRates.PruningIsHarmlessExactly`).
- **The memory store and the table cut pages differently.** The comment at
  `scripts/daemoncheck.fixtures.ts` 105-106 says they cut at the same place. The table also charges a
  fixed number of bytes for each entry (`PluginPages.TheCutsDiffer`, `PluginPages.TheCutsAgreeExactly`),
  and it orders keys by code point where the memory store orders them by code unit
  (`PluginTables.ThePagesDiffer`, `PluginTables.TheListsAgreeExactly`). When the pages are the same is
  said by `PluginTables.ThePagesAgreeExactly`. A key or a prefix with half of a surrogate pair is read
  as another by the table alone (`PluginTables.AKeyComesBackExactly`, `PluginTables.AHalfPrefixFindsNothing`).

## Model

| member | source | states |
|---|---|---|
| `TextRuns.TextRun.Add` | scripts/client.ts:689-696 | the new buffer, label and thought flag; a change of kind flushes first, and the label is taken again whenever the buffer is empty |
| `TextRuns.TextRun.Flush` | scripts/client.ts:698-703 | prints the group if there is any text and empties the buffer |
| `TextRuns.PrintsCanonically` | scripts/client.ts:996-1017 | for every list of events and every state of the buffer, the lines printed after a last flush, taken before a group is clipped, are the maximal spans of text of one kind, each labelled with its first non-empty chunk, with every other event in its place |
| `TextRuns.EmptyChunkIsInvisible` | scripts/client.ts:689-696 | an empty chunk changes nothing of what is printed, label and grouping included |
| `TextRuns.FramesDoNotShow` | scripts/client.ts:996-1017 | where the stream was cut into frames leaves no trace in the output |
| `TextRuns.NothingLost` | scripts/client.ts:684-704 | the printed groups concatenate to all the text in order, and every other event is printed in order |
| `AttachClients.AttachClient.OnEvents` | scripts/client.ts:996-1017 | the loop over an `events` frame: prints exactly the events before the first that is not the next, and exits there |
| `AttachClients.AttachClient.OnFrame` | scripts/client.ts:964-1074 | one frame of any kind: the cursor, the history and the exit; what is written as JSON; and the run of text, which a skipped range and the end of a replay print first |
| `AttachClients.PrintsOnlyTheNext` | scripts/client.ts:1000-1003 | whatever the daemon sends, a batch prints exactly the run of seqs that continues the cursor, and the client fails exactly if anything follows it |
| `AttachClients.HeardExactlyOnce` | scripts/client.ts:918-1133 | in a tiling every seq up to the front lies in exactly one printed event or announced range |
| `EventLog.Page` | src/events.ts:1546-1565 | a page is the consecutive retained seqs after the cursor, and is not empty while there are any |
| `StreamConnections.StreamConnection.Flush` | src/server.ts:5252-5322 | one control frame, or a batch bounded by count and encoded bytes that takes its first event whatever it weighs; what is left, what is charged and `lastSentSeq` |
| `StreamConnections.StreamConnection.Collapse` | src/server.ts:5219-5250 | the recovery frames in an emptied queue, the cursor moved to the head, and the second slow collapse within the window closing the socket |
| `StreamConnections.StreamConnection.Enqueue` | src/server.ts:5190-5203 | push, then collapse over either ceiling or flush |
| `StreamConnections.StreamConnection.Emit` | src/server.ts:5178-5183 | an event at or before the cursor is ignored, any other moves the cursor and is queued |
| `StreamConnections.StreamConnection.Attach` | src/server.ts:5046-5164 | greeting, announcements of what is gone and what is not replayed, the replay page by page, and the caught-up frame, as one function of the log and the cursor asked for |
| `StreamConnections.StreamConnection.Replay` | src/server.ts:5116-5124 | the loop over pages emits every retained event after the cursor once and in order, however pages are cut and even when a collapse in the middle of one moves the cursor to the head |
| `StreamConnections.ReplayPastCursor` | src/server.ts:5178-5183 | once the cursor is at the head of the log, or the socket is closed, emitting any of the log again changes nothing |
| `StreamRuns.CollapseExact` | src/server.ts:5219-5250 | after a collapse the client that receives everything stands at the head with nothing untold if and only if the daemon's account of what was sent was true before it |
| `StreamRuns.FlushGood` | src/server.ts:5252-5322 | sending changes nothing of what the client will have been told |
| `StreamRuns.OpeningGood` | src/server.ts:5046-5114 | the opening frames tell a client every seq between its cursor and the replay, evicted and skipped ranges adjacent and disjoint |
| `StreamOrders.CollapseShaped` | src/server.ts:5219-5250 | a collapse keeps the order of a connection's frames (the greeting first and once, a greeting that moves the cursor followed at once by its announcement) and the climb of its numbers; a greeting that waits for its announcement is never taken for settled |
| `StreamRuns.StepKeeps` | src/server.ts:5046-5345 | every tidy step keeps the client on a tiling, the daemon's view of it right, and, while no socket is there, what was heard reaching the cursor |
| `StreamRuns.ADroppedClientKeepsItsPlace` | scripts/client.ts:918-1133 | whatever was delivered when a socket dies, what the client heard reaches its cursor if and only if the last frame it received was not a greeting that moved it |
| `StreamRuns.TidyRunTiles` | scripts/client.ts:918-1133 | over every interleaving of appends, snapshots, batches, acknowledgements, expiry and slow closes, sockets lost at any frame, restarts and reconnects, in which every collapse finds a true account and no socket dies with a greeting that moved the cursor as the last frame received: the client never meets a gap, and printed seqs and announced ranges tile what follows the first cursor, up to the client's cursor between sockets and up to the head whenever the stream is quiet |
| `StreamContents.EverySeqCarriesItsOwnEvent` | src/server.ts:5116-5183 | in every state of every run, tidy or not, each event that waits in the queue, is in the socket or was printed is the one the log keeps under its seq, and what waits is charged what that entry weighs, with 64 |
| `StreamContents.TheTerminalShowsTheLog` | scripts/client.ts:996-1017 | over every tidy run what was printed is the log's own events, in order, each once, at exactly the seqs of the tiling that were not announced as skipped |
| `StreamBounds.ABatchIsExactly` | src/server.ts:5276-5316 | a batch is the longest run of events at the head of the queue that has at most 200 of them and whose frame, past its first event, has at most 512 KiB |
| `StreamBounds.AFlushIsExactly` | src/server.ts:5252-5322 | nothing goes while the socket is closed, busy or full; else one control frame alone, or one batch in its order, and its charge with it |
| `StreamBounds.ACollapseComesExactly` | src/server.ts:5190-5203 | a queue collapses when it comes to hold more than 8000 items or 16 MiB, and is sent from otherwise |
| `StreamBounds.ACollapseIsExactly` | src/server.ts:5219-5250 | a collapse leaves word of what follows the last event sent, and a snapshot, with what they weigh; it closes the socket if and only if a slow reader had another within thirty seconds |
| `StreamBounds.AnAttachGoesBackExactly` | src/server.ts:5064-5068 | an attach replays from the cursor asked for, but no more than 2000 events |
| `StreamBounds.AnAttachOpensExactly` | src/server.ts:5046-5114 | the greeting comes first and names where the replay starts; what is gone is announced if and only if the log begins after the cursor, what is skipped if and only if some of it is retained, each with its range |
| `StreamBounds.APageIsExactly` | src/events.ts:1546-1565 | a page takes as many of the retained events as its limit and its bytes allow, and one in any case |
| `StreamAccounts.TheAccountIsTrueExactly` | src/server.ts:5219-5250 | in every tidy state the daemon's account of what was sent is true if and only if no announcement reaching back into it waits in the queue and none that was sent reaches past it |
| `StreamAccounts.ACollapseGoesWrongInTwoWays` | src/server.ts:5219-5250 | what a collapse tells the client in every tidy state: with an announcement waiting there is a hole that is never reported, with one that ran ahead a range is announced again |
| `StreamLosses.MisplacedClientExits` | scripts/client.ts:1000-1003 | the next event delivered makes the client exit if and only if it is not where the log ends |
| `StreamLosses.GapExitIsReachable` | src/server.ts:5219-5250 | a run from a fresh attach, with a socket that stays busy for thirty seconds, in which the client exits on a gap though nothing was lost |
| `StreamLosses.GreetingAloneSkipsSilently` | src/server.ts:5046-5082 | at whichever attach of a tidy run, a socket that dies after the greeting loses nothing if and only if the rest of the log fits one replay |
| `StreamLosses.AnEvictionIsAnnouncedTwice` | src/server.ts:5219-5250 | a run from a fresh attach to a log whose beginning is gone, in which one seq is announced twice |
| `StreamLosses.TheyWeighTheirText` | src/server.ts:5480-5489 | the frames and events of these two runs weigh what their text does, and 64 |
| `StreamLosses.ACursorPastTheLogIsTheHead` | src/server.ts:5046-5048 | a client whose first cursor lies past the log is served as one that asked for the head, and becomes it with the first frame if and only if that is a greeting or an announcement |
| `StreamLosses.ACursorPastTheLogTiles` | src/server.ts:5046-5048 | so from that frame on its tidy runs tile from the head it was attached at |
| `Transcripts.ReadIsExact` | src/transcript.ts:38-41 | a read is the history from the cursor, or from the oldest character kept, and reports a gap exactly when the cursor lies before that |
| `Transcripts.AppendKeeps` | src/agentinstall.ts:321-326 | after any append the buffer is a suffix of the history of at most 64 KiB, and the cursor is its length |
| `Transcripts.PollingRebuilds` | src/transcript.ts:38-41 | on every schedule of writes and polls a client holds the history up to its cursor if and only if it was never told of a gap |
| `LineFraming.FramingIsFaithful` | scripts/daemoncheck.after-the-turn-and-config.ts:85-91 | the framed lines with their newlines and the rest are the text, and neither holds a newline |
| `LineFraming.Framer.Data` | scripts/daemoncheck.after-the-turn-and-config.ts:86-91 | one chunk: the non-blank lines completed are dispatched in order, the rest is kept |
| `LineFraming.ChunkingDoesNotMatter` | scripts/daemoncheck.after-the-turn-and-config.ts:85-91 | however a stream is cut, the non-blank complete lines of the whole are dispatched in order and its remainder is held |
| `LineFraming.SpacesAre` | scripts/daemoncheck.after-the-turn-and-config.ts:91-91 | what `trim` takes for a space, character by character |
| `InstallRuns.ALineIsBlankExactly` | scripts/daemoncheck.after-the-turn-and-config.ts:91-91 | a line is skipped if and only if nothing is left of it once trimmed |
| `AgentScripts.AgentScriptGate.TryHold` | src/agentscript.ts:61-65 | takes the gate exactly when nobody has it |
| `AgentScripts.AgentScriptGate.Release` | src/agentscript.ts:87-89 | gives it back by kind alone |
| `InstallRuns.InstallRun.Append` | src/agentinstall.ts:297-313 | the carry, the transcript and the phase after a chunk of one stream |
| `InstallRuns.InstallRun.End` | src/agentinstall.ts:335-350 | flushes both carries once and fixes exit, outcome and end |
| `InstallRuns.InstallRun.BeginSettle` | src/agentinstall.ts:364-368 | only the first caller gets the run |
| `InstallRuns.InstallRun.Cancel` | src/agentinstall.ts:376-380 | a signal is sent exactly when the run is not done and not in the middle of a write |
| `InstallRuns.WarningsDoNotMoveThePhase` | src/agentinstall.ts:297-313 | however the two streams are cut and interleaved, if the warnings hold no checkpoint the phase is the one standard output gives when read whole |
| `InstallRuns.ALineReportsExactly` | src/agentinstall.ts:166-173 | a line reports a phase if and only if it trims to `step:`, the agent and that phase's name with single spaces between, for each of the six names |
| `InstallPhases.ANewRunIsInThePhaseLastReported` | src/agentinstall.ts:297-313 | however the two streams are cut and interleaved, a run is in a phase if and only if it is the one that the last checkpoint among the completed lines names |
| `InstallRuns.EachStreamIsConserved` | src/agentinstall.ts:297-313 | what a stream completed and its carry concatenate to all that arrived on it |
| `InstallRuns.EndFlushesEverything` | src/agentinstall.ts:335-350 | the transcript keeps the completed lines in order of completion, and after the end the two carries, standard output first |
| `InstallSlot.AgentInstallRuns.Begin` | src/agentinstall.ts:435-477 | the answer, the new run and the gate for every combination of shutdown, a live run, a held gate and a spawn that throws |
| `InstallSlot.AgentInstallRuns.FinishSettle` | src/agentinstall.ts:530-531 | ends the run and gives the gate back |
| `InstallSystem.StepKeeps` | src/agentinstall.ts:435-593 | every step keeps: one live run at most, it is the one in the slot and holds the gate, and each run's record is consistent |
| `InstallSystem.EveryInterleavingIsSafe` | src/agentinstall.ts:435-593 | over every interleaving of starts, output, closes, waits, cancels, sweeps, updates and shutdown: at most one live run, the gate held for an install exactly while there is one, every finished run having its first close's exit and outcome and having told everybody to forget once, and no signal in phase install or link |
| `InstallSystem.TheFirstCloseDecides` | src/agentinstall.ts:500-532 | the close a run settles by is the first one it is given in the whole run |
| `InstallSystem.LateCloseChangesNothing` | src/agentinstall.ts:364-368 | a second or late close leaves the whole system as it was |
| `InstallSystem.DoneIsForever` | src/agentinstall.ts:344-350 | outcome, exit and end of a finished run never change |
| `InstallSystem.SettlingReturnsTheGate` | src/agentinstall.ts:505-531 | a closed run is done and the gate free after the two answers it waits for |
| `InstallSystem.RefusedExactlyWhileHeld` | src/agentinstall.ts:435-454 | in every reachable state a start is refused exactly while the gate is held, and the answer names its holder |
| `InstallSystem.FailedSpawnReturnsTheGate` | src/agentinstall.ts:467-472 | a spawn that throws leaves gate, runs and a live run untouched |
| `InstallSystem.NothingStartsAfterShutdown` | src/agentinstall.ts:590-593 | after shutdown no run is ever added |
| `InstallPhases.ASignalIsSentExactly` | src/agentinstall.ts:376-380 | over every run of the system, a cancel sends a signal if and only if the run is not done and the last checkpoint in its script's own text names neither the install nor the link |
| `InstallSystem.ARunIsForgottenExactly` | src/agentinstall.ts:382-386 | a sweep forgets a run if and only if it ended more than ten minutes ago |
| `InstallSystem.ASecondReleaseWouldFreeASuccessor` | src/agentscript.ts:77-89 | a reachable state in which one more release by kind would free another run's hold, which is what the settle latch prevents |
| `EventQueues.EventQueue.Push` | src/session.ts:3146-3177 | to the waiting reader, or into the buffer; over the bound the first droppable event goes, else the head goes and a mark is left |
| `EventQueues.EventQueue.Next` | src/session.ts:3189-3197 | a stale claim is told so; else the head of the buffer, the closed mark, or a promise |
| `EventQueues.EventQueue.ClaimForTurn` | src/session.ts:3113-3117 | refused while a turn holds the queue, else the waiting reader is displaced |
| `EventQueues.EventQueue.Release` | src/session.ts:3133-3136 | lets go only for the current claim |
| `EventQueues.PushingAccounts` | src/session.ts:3146-3177 | a push keeps the account of everything said, evicted and lost |
| `EventQueues.APushToAReader` | src/session.ts:3146-3153 | a push reaches the waiting reader past the buffer, and a closed queue takes nothing |
| `EventQueues.APushIsExactly` | src/session.ts:3146-3177 | with nobody waiting: kept while there is room; else the first machinery goes, wherever it stands; else the head goes and a mark comes last |
| `EventQueues.TheBoundHoldsExactly` | src/session.ts:3154-3177 | past 2000 a push leaves the buffer as long as it was if and only if there is machinery to take |
| `EventQueues.WordsAloneHaveNoBound` | src/session.ts:3146-3177 | so words that nobody reads are kept by any number |
| `SessionTurns.StepKeeps` | src/session.ts:2041-2197 | every step keeps the account, one promise for each waiting reader, and one turn |
| `SessionTurns.EveryEventIsAccountedFor` | src/session.ts:3096-3205 | over every interleaving: without overflow, what was taken and is in flight is what was pushed, in order; without a lost event the conversation in the log and in flight is the conversation pushed, in order, though an idle drain drops logs and unmodelled updates; a loss leaves a mark; and every event is counted once |
| `SessionTurns.TurnsNeverShareTheQueue` | src/session.ts:3074-3095 | two turns never both read, a live turn always holds the queue and is never displaced, and every waiting reader has exactly one promise, so none hangs |
| `SessionTurns.EveryTurnEndsExactly` | src/session.ts:2128-2145 | in every reachable state a turn that resumes with an ending, an error, the overflow mark or the close is gone and the queue is let go; with anything else it reads on |
| `SessionTurns.AnOrdinaryTurnLetsTheNextIn` | src/session.ts:2053-2146 | an ordinary prompt, answered and read to its end, leaves the queue free, and the next prompt is taken |
| `SessionTurns.OnlyARefusedPromptSticks` | src/session.ts:2053-2069 | a step leaves the in-flight flag without an answer to take it down if and only if it is a prompt that finds the queue held |
| `SessionTurns.StuckStays` | src/session.ts:2053-2057 | from then on every prompt is refused until a turn is abandoned |
| `SessionTurns.StuckIsReachable` | src/session.ts:2053-2146 | such a run |
| `SessionTurns.EachPromptEndsAtMostOnce` | src/session.ts:2406-2426 | if no prompt is sent while a turn holds the queue, no prompt is ended twice, however late an answer comes to an abandoned turn |
| `SessionTurns.ARefusedPromptCanEndATurnTwice` | src/session.ts:2406-2426 | otherwise abandoning after a refusal ends the turn before it again |
| `ToolDrafts.Drafting.OnToolCallUpdate` | src/session.ts:2695-2770 | held, or everything held first, then the update, then its patches |
| `ToolDrafts.AnUpdateBecomesItsEvent` | src/session.ts:2695-2770 | an update's event says its own call, title, status, places, arguments, pictures, parent and marker, and its texts in order or else its output; it is held if and only if it is one longer block and nothing else, and otherwise comes out behind what was held, with its patches |
| `ToolDrafts.BlocksInOrder` | src/session.ts:4539-4578 | an update's texts, pictures and patches are those of its blocks, in their order |
| `ToolDrafts.Drafting.OnToolCall` | src/session.ts:2673-2691 | what is held, then the call, then its patches |
| `ToolDrafts.Drafting.HoldsToolDraft` | src/session.ts:2619-2637 | holds exactly a single longer block of the same call and status with nothing else on it |
| `ToolDrafts.Drafting.EmitDiffs` | src/session.ts:2989-3012 | a call's patches are reported once, with the first update that has any |
| `ToolDrafts.ASessionOnlyThins` | src/session.ts:2547-2585 | after every input of a run, what a session has said, with what it holds, is what one that held nothing would have said, less updates that the very next event extends: if and only if no lone patch was held whose call had none reported |
| `ToolDrafts.AnUpdateIsOutgrownExactly` | src/session.ts:2619-2637 | over every run, an update is missing if and only if it was held and the next thing the session was told was held too; nothing else of the session's own is missing, and the order is kept |
| `ToolDrafts.AnAsideOvertakesExactly` | src/session.ts:2598-2612 | over every run, everything comes out in the order in which it came in, events pushed without a flush included, if and only if none of these came while an update was held that was still to go out |
| `ToolDrafts.AnOvertakenUpdate` | src/session.ts:2598-2612 | a run in which one of these comes out before the update that came before it |
| `ToolDrafts.ATurnEndDeliversEverything` | src/session.ts:2598-2612 | at the end of a turn in which no such patch was held, nothing is held, the transcript is a subsequence of the whole, and every event of the whole is in it or is extended by one that is |
| `ToolDrafts.AFirstBlockGoesOut` | src/session.ts:2583-2591 | what is held always grows from a block already sent for that call under that status |
| `ToolDrafts.APatchIsLostExactly` | src/session.ts:2736-2770 | an update's patches go unreported if and only if it is a lone patch whose output reads as a draft |
| `ToolDrafts.ALostPatch` | src/session.ts:2756-2770 | such a run, to the end of its turn |
| `ToolDrafts.AMarkIsLostExactly` | src/session.ts:2619-2637 | over every run, what one update alone says about its call, its background marker or its parent call or anything else, is missing if and only if that update was held and the next thing the session was told was held too |
| `ToolDrafts.ALostMarker` | src/session.ts:2619-2637 | a run in which the one update that says a call goes on in the background is outgrown |
| `ToolDrafts.ALostParent` | src/session.ts:2619-2637 | a run in which the one update that says which call it runs inside is outgrown |
| `Configs.HeldConfig.UpdateConfig` | src/session.ts:1670-1746 | the whole list replaced by a reply; a notice changes the mode and the mode controls that have that choice |
| `Configs.ALongModeIsIgnoredExactly` | src/session.ts:1702-1702 | a notice of a new mode changes nothing if and only if its name has more than 256 units |
| `Configs.AFreshListAgrees` | src/session.ts:1712-1735 | after any list the mode and the mode control say the same |
| `Configs.ANoticeAgreesExactly` | src/session.ts:1674-1711 | after a notice they disagree if and only if the control lacks that choice and names another mode there is |
| `ConfigChains.OneAtATimeStaysInStep` | src/session.ts:1643-1651 | for every honest agent and every schedule without an expired deadline: changes reach the agent once each in call order, and whenever none is in flight the list held is the list the agent shows, after refusals too |
| `ConfigChains.NothingStopsTheChain` | src/session.ts:1643-1651 | every waiting change reaches the agent if and only if a link runs after a rejection too, or the promise it leaves is always resolved, or nothing but the last change is refused; with neither guard the first refusal ends the chain |
| `ConfigChains.OverlappingChangesGoStale` | scripts/daemoncheck.after-the-turn-and-config.ts:1028-1178 | unchained, the answer heard last leaves a list that was never true |
| `ConfigChains.HeldTrueExactly` | src/session.ts:1574-1586 | over every schedule, deadlines and late arrivals included, the list held is true of the agent all along if and only if each answer cut off by a deadline said what was held already and each late arrival left what the agent shows unchanged |
| `ConfigChains.AnExpiredChangeGoesUnheard` | src/session.ts:1574-1586 | a run in which a change given up on is applied after a later one was answered, and the list stays wrong |
| `ConfigChains.AnswerIsWhatIsShown` | src/session.ts:1574-1586 | what an answer makes of a list that had become wrong: a list always puts it right, a refusal never, and a bare mode exactly when the two lists agree once both have that mode |
| `ConfigChains.TheNextListPutsItRight` | src/session.ts:1574-1586 | whatever went before, deadlines and late arrivals included, the next list that arrives is the agent's, and what is held stays true as long as nothing given up does harm |
| `ConfigRestores.Conversation.RestoreConfig` | src/session.ts:1022-1034 | the loop, each round judging by the list the previous reply left |
| `ConfigRestores.NothingWithdrawnIsSent` | src/session.ts:1022-1034 | for every agent, whatever it does to its lists in answering, each change sent was offered by the list held just before, when no other change has a turn in between |
| `ConfigTurns.WithdrawnIsSentExactly` | src/session.ts:1022-1034 | with other callers' changes and the agent's own notices before each look and between each look and its turn: everything sent was on offer when it was sent if and only if no list that came between withdrew it; a mode never is withdrawn |
| `ConfigTurns.StillOfferedExactly` | src/session.ts:1024-1027 | a choice seen in the list is on offer when its turn comes if and only if no list came in between or the last that came offers it |
| `ConfigTurns.AWithdrawnChoiceIsSent` | src/session.ts:1024-1027 | a run in which somebody's change of the model takes a seen choice away before it is sent |
| `ConfigRestores.EverythingOfferedIsPutBack` | src/session.ts:985-1034 | for every agent that, when a control is set, changes that control and the mode it stands for and nothing else: the value each control and the mode end with, the last step's control of the mode included, and that what is held is what the agent shows |
| `ConfigRestores.TheModeComesBackExactly` | src/session.ts:1022-1034 | for an agent with a mode control and a conversation that carried one mode in both places: both end with the old mode if and only if the control offers it or has it already, and the mode was that already or is both offered and there |
| `ConfigRestores.AModeThatIsThereStaysAway` | src/session.ts:1029-1034 | a conversation that has the old mode and does not get it back, because its control does not offer it |
| `ConfigRestores.ChosenIsTheOldValue` | src/session.ts:1022-1028 | with one wish for each control that value is the old one where offered |
| `ConfigRestores.ACoupledAgentLosesAChoice` | src/session.ts:1022-1028 | for one whose controls are not, a choice that is offered is lost |
| `ConfigTurns.AChoiceIsSentExactly` | src/session.ts:1024-1027 | a round sends a choice if and only if the first control of that id does not have it and, where it is one to choose from, has it among its choices |
| `ConfigTurns.AChoiceSurvivesExactly` | src/session.ts:1022-1028 | for every honest agent, coupled or not: a choice put back stays put through every later round if and only if no later answer moves its control, and is in place at the end, held and shown, if and only if the last list heard after it has it so |
| `PluginStores.MemoryPluginData.SetValue` | scripts/daemoncheck.fixtures.ts:82-97 | the fold over the plugin's keys, the bound, and the write |
| `PluginViews.ASetIsAcceptedExactly` | src/plugins/store.ts:145-179 | which answer a set gets, told by the map it would leave: accepted if and only if the key has 1 to 200 units and no control, the value at most 64 KiB, and the plugin's bytes and its keys, if this is a new one, stay within 1 MiB and 1000; the first of these that fails names the refusal |
| `PluginViews.WithinItsQuotaASetIsAcceptedExactly` | src/plugins/store.ts:145-179 | on a store within its quota, accepted if and only if the plugin's map with the key at its new value is within it too |
| `PluginStores.MemoryPluginData.Drop` | scripts/daemoncheck.fixtures.ts:114-116 | every key that starts with the id and the separator goes, and nothing else |
| `PluginStores.MemoryPluginData.Fill` | scripts/daemoncheck.fixtures.ts:103-112 | the loop over the sorted keys cuts exactly the page the budget allows |
| `PluginStores.ReachesExactly` | scripts/daemoncheck.fixtures.ts:68-73 | one plugin can reach a key of another if and only if its id and the separator begin the other's id |
| `PluginStores.PluginsAreIsolated` | scripts/daemoncheck.fixtures.ts:82-117 | for ids without NUL, no write, delete or drop by one plugin changes what another reads or lists |
| `PluginViews.TheFlatMapIsAMapForEach` | scripts/daemoncheck.fixtures.ts:64-117 | seen as one map for each plugin, a set, delete or drop on the flat map is that operation on the plugin's own map, its quota judged by that map alone, and no operation on any other's |
| `PluginViews.OnlyItsOwnOperationsCount` | scripts/daemoncheck.fixtures.ts:64-117 | over every sequence of operations of all plugins, what one sees is what its own operations alone would have left in a map of its own |
| `PluginStores.AForgedIdDropsAnother` | scripts/daemoncheck.fixtures.ts:114-116 | with a NUL in an id, one plugin's drop takes another's data |
| `PluginQuotas.TheQuotaSeesEachKeyOnce` | scripts/daemoncheck.fixtures.ts:69-73 | the listing the quota folds over is exactly what the plugin keeps, each key once |
| `PluginQuotas.EveryPluginStaysWithinItsQuota` | src/plugins/store.ts:145-180 | over every sequence of operations of all plugins, each stays within keys, bytes, value size and key form |
| `PluginPages.APageFitsItsBudget` | scripts/daemoncheck.fixtures.ts:100-113 | a page stays within its bytes or holds one entry |
| `PluginPages.CutTable` | src/store/sqlite.ts:3495-3543 | the loop over the table's rows cuts exactly the page that fits with each entry's scaffold charged |
| `PluginPages.TheCutsAgreeExactly` | scripts/daemoncheck.fixtures.ts:105-108 | of one and the same list of entries the table never takes more than the memory store would, and both take the same if and only if that is at most one entry or fits with its scaffold too |
| `PluginTables.ThePagesAgreeExactly` | src/store/sqlite.ts:3495-3543 | for every store the table can hold, prefix, cursor and budget: the table's page is the memory store's if and only if it has the same entries up to there, both have more or neither, they fit with their scaffold unless there is one, and the table's next does not; where no keys are crossed, if and only if what the memory store takes is at most one entry or fits with its scaffold |
| `PluginTables.TheListsAgreeExactly` | src/store/sqlite.ts:3437-3440 | the two stores come to the same entries in the same order if and only if no key under the prefix is crossed with the cursor or with another: where two texts first differ, one has half of a surrogate pair and the other a unit from U+E000 on |
| `PluginTables.OrdersAgreeExactly` | src/store/sqlite.ts:3437-3440 | the order by code unit and the order by code point agree on two keys if and only if they are not crossed |
| `PluginTables.ThePagesDiffer` | scripts/daemoncheck.fixtures.ts:99-108 | two keys and a budget for which each store's page holds one entry and not the same one |
| `PluginTables.RangeOf` | src/store/sqlite.ts:3600-3613 | the loop from the last code point back gives the bound above the prefix |
| `PluginTables.ARangeIsItsPrefix` | src/store/sqlite.ts:3580-3648 | for every prefix and key, ill-formed ones included, the range names the key if and only if the key starts with the prefix, both as the column holds them |
| `PluginTables.AKeyComesBackExactly` | src/store/sqlite.ts:3618-3643 | a key read back from the column is the key written if and only if each of its surrogates has its partner |
| `PluginTables.AHalfPrefixFindsNothing` | src/store/sqlite.ts:3618-3643 | a prefix that ends in half of a pair finds a key in the memory store that the table does not show |
| `PluginPages.TheCutsDiffer` | scripts/daemoncheck.fixtures.ts:105-108 | two keys of one letter, each with the value 1, and a budget of eight bytes, for which they take two and one |
| `PluginPages.NoKeyComesTwice` | scripts/daemoncheck.fixtures.ts:100-113 | whatever changes between pages, the keys read strictly climb |
| `PluginPages.NoStandingKeyIsMissed` | scripts/daemoncheck.fixtures.ts:100-113 | a key under the prefix that has one value at every page is read with it once reading has ended |
| `PluginPages.ReadingEnds` | scripts/daemoncheck.fixtures.ts:100-113 | reading ends, whatever is set between pages within the quota |
| `PluginPages.ReadingEndsSoon` | scripts/daemoncheck.fixtures.ts:100-113 | whatever changes between pages, reading takes at most one page for each key there at the start, one for each key that appears meanwhile, and one more |
| `PluginPages.ReadingEndsAfterKeysAndSets` | scripts/daemoncheck.fixtures.ts:82-117 | so over every sequence of operations of all plugins between pages, only the reader's own sets put the end off, by one page each |
| `PluginTexts.SortSorts` | scripts/daemoncheck.fixtures.ts:99-99 | sorting keeps the keys and puts them in order of code units |
| `PluginBytes.ATextWeighsItsUtf8` | src/plugins/store.ts:166-166 | a text weighs as many bytes as its UTF-8, which decodes to what the text is bound as |
| `PluginBytes.AKeyWeighsItsJson` | scripts/daemoncheck.fixtures.ts:106-108 | a key is charged the UTF-8 of its JSON string, which reads back as the key |
| `PluginUsages.SqlitePluginDataStore.SetValue` | src/store/sqlite.ts:3453-3467 | the running count given to the bound is the count of the table, before and after |
| `PluginUsages.AWriteIsAcceptedExactly` | src/plugins/store.ts:145-179 | which answer the table gives, told by the rows it would leave |
| `PluginUsages.SqlitePluginDataStore.DeleteKey` | src/store/sqlite.ts:3469-3488 | a delete keeps the running count true, counting first when nothing was counted yet |
| `PluginUsages.CountingLateFallsShort` | src/store/sqlite.ts:3470-3481 | counting after the row is gone charges it twice and widens the quota by it |
| `UploadRates.Uploads.RateWait` | src/uploads.ts:512-522 | the wait, the pruned list, and no key left for an empty window |
| `UploadRates.Uploads.Spend` | src/uploads.ts:525-529 | a charge joins its session's list and no other |
| `UploadRates.AVerdictIsExactly` | src/uploads.ts:212-221 | what counts is what was charged less than five minutes ago; admitted if and only if that is below 300 MiB; else to wait until the oldest of it counts no more |
| `UploadRates.PruningIsHarmlessExactly` | src/uploads.ts:212-221 | over every run of checks and charges, whatever the clock does, the pruned list answers at a moment as the whole history would if and only if no check dropped a charge that still counts at that moment |
| `UploadRates.PruningChangesNoVerdict` | src/uploads.ts:212-221 | so it does while the clock does not go back |
| `UploadRates.AClockGoingBackForgets` | src/uploads.ts:212-221 | a run of three full uploads in which it goes back, and the verdicts differ |
| `UploadRates.Refusals` | src/uploads.ts:199-204 | somebody who waits as told is refused at most once for each charge in the window |
| `UploadRates.NoWaitIsTooLong` | src/uploads.ts:199-204 | any earlier moment would still be refused |
| `UploadRates.AWindowHoldsTheBudgetAndWhatWasInFlight` | src/uploads.ts:588-675 | however uploads overlap, a window holds less than the budget plus what was charged since the last admission, and those uploads were in flight with it |
| `UploadRates.OnlyTheLastGoesPastTheBudget` | src/uploads.ts:594-602 | if each upload is charged before the next asks, a window holds less than the budget plus the last upload |
| `UploadRates.OverlappingUploadsHaveNoBound` | src/uploads.ts:603-675 | any number of uploads that ask together are admitted together |
| `UploadOverlaps.OverlapsAreBoundedExactly` | src/uploads.ts:594-675 | for every schedule of asking and ending and every largest upload: whatever the uploads carry up to that, a window holds less than the budget and the last upload, if and only if no upload ends after one it was in flight with where those before it, refusing nobody and carrying the most, would have filled the window |
| `UploadOverlaps.AnySizeIsBoundedExactly` | src/uploads.ts:594-675 | with uploads of any size, if and only if no upload ends within a window of one it was in flight with |
| `TarWriter.TarOf` | scripts/daemoncheck.bodies.ts:18-40 | the bytes written are headers, bodies and padding in order, then two blocks of zeros |
| `TarWriter.WriteHeader` | scripts/daemoncheck.bodies.ts:23-36 | the 512 bytes as a fold of the writes, the checksum last |
| `TarWriter.ChecksumVerifies` | scripts/daemoncheck.bodies.ts:34-36 | the checksum field reads as the sum of the header with that field blank, for every name and size |
| `TarWriter.AHeaderIsUstar` | scripts/daemoncheck.bodies.ts:23-36 | the other fields of a header, for every name and size: the mode, the owner and the group, the time, the type, the format and its version |
| `TarReader.ExtractTgz` | src/archive.ts:917-1090 | the reader's loop over the blocks, as one function of the bytes |
| `TarReader.SizeReadsBack` | src/archive.ts:849-859 | the size field reads back as the size for every size below 8 to the power 12, and not above |
| `TarReader.NameReadsBack` | src/archive.ts:988-995 | the name reads back if and only if it has at most 100 bytes and no NUL |
| `TarReader.ArchiveReadsBack` | scripts/daemoncheck.bodies.ts:18-40 | for every list of files, reading what was written gives the same names and bytes in order if and only if every name has at most 100 bytes and no NUL and every size is below 8 to the power 12 |
| `TarReader.ArchiveLength` | scripts/daemoncheck.bodies.ts:37-39 | the length is 1024 plus 512 and the padded size for each file, whole blocks |
| `TarMembers.AnArchiveIsReadMemberByMember` | src/archive.ts:917-1090 | for archives of any make, long names, pax records, directories and refused types included: the loop over the blocks says what the members say one after another, a long name being for the next file alone |
| `TarMembers.ABinarySizeIsRead` | src/archive.ts:849-853 | a size in base 256 behind a byte with its top bit set is read as that size |
| `TarMembers.AnOctalSizeIsRead` | src/archive.ts:855-858 | an octal size is read whatever blanks come before it and whatever follows its NUL |
| `TarMembers.BlanksAre` | src/archive.ts:855-855 | which bytes are trimmed before a size |
| `Enrollments.IdentityStore.BuildVerifier` | scripts/daemon.ts:1403-1560 | what one boot stores, whether it speaks to the control plane, and how it exits |
| `Enrollments.ABootEndsExactly` | scripts/daemon.ts:1403-1560 | for every mode, what is stored, code and answer: whether the boot runs, which of its exits it takes, and what it stores |
| `Enrollments.AnExchangeNeedsANewCode` | scripts/daemon.ts:1446-1447 | after any boots, a boot speaks to the control plane if and only if it signs tokens, can read its identity, knows where to go, and has a code whose fingerprint is not that of the code last saved |
| `Enrollments.ASavedCodeIsNeverSentAgain` | scripts/daemon.ts:1397-1402 | once saved, a code is never sent again, nor is anything sent without a code |
| `Enrollments.NoCodeNoExchange` | scripts/daemon.ts:1397-1402 | boots without a code never speak to the control plane |
| `Enrollments.ACodeIsRedeemedOnce` | scripts/daemon.ts:1446-1485 | restarted any number of times, one code is accepted at most once if what is granted can be stored |
| `Enrollments.ACodeIsSentTwiceExactly` | scripts/daemon.ts:1475-1520 | a code is sent again if and only if it was not accepted or could not be stored |
| `RemoverTrees.CheckTrees` | scripts/daemon.ts:381-388 | given what `realpath` answers, a path that is not there being taken as written: refuses the first pair that nests, and passes only if none does |
| `RemoverTrees.NestingIsMeeting` | src/paths.ts:95-102 | two trees nest if and only if some path is at or under both, for all paths, the root directory included |
| `RemoverTrees.WhatIsRemovedFromOneIsInNoOther` | scripts/daemon.ts:362-380 | in a daemon that starts, nothing at or under one tree is at or under another |
| `RemoverTrees.ARefusalIsNeverIdle` | scripts/daemon.ts:381-388 | two trees for which it is refused have a path in common |
| `RemoverTrees.ContainmentIsBySegments` | src/paths.ts:95-102 | being at or under a root is having its segments as a prefix |
| `RemoverTrees.APrefixIsNotContainment` | scripts/daemoncheck.containment-and-session-routes.ts:16-24 | a textual prefix is not enough |
| `ShellWords.AShellReadsTheWordsBack` | src/runtime/local.ts:301-303 | for every list of words, a shell splits the joined string into those very words |
| `ShellWords.TheLoginRunsTheVeryWords` | src/runtime/local.ts:331-347 | on every platform the login is run with exactly the command and its arguments |
| `ShellWords.BlanksAloneDoNotDo` | src/runtime/local.ts:287-300 | without the quotes two commands come out alike |

## Left out

- StreamRuns.TidyRunTiles: is about tidy runs from a first cursor in the log, since the code does not keep the promise on all runs; `CollapseExact`, `TheAccountIsTrueExactly`, `ADroppedClientKeepsItsPlace` and `GreetingAloneSkipsSilently` say where it fails, and `ACursorPastTheLogTiles` is about the other first cursors. A control frame's size is assumed to have been fitted to its bound before it is queued, as the queue's own arithmetic assumes.
- TextRuns.PrintsCanonically: clipping a group to 2000 characters is not modelled, nor is any wording; nor the flush when a restart is noticed, which finds nothing to print, since the greeting is the first frame of its socket.
- EventLog.Page: sizes of events are given, not computed.
- TarWriter.TarOf: names are bytes; a name over 512 bytes is cut at a byte, where the writer stops at a whole character. Compression is not modelled.
- TarReader.ExtractTgz: a pax path is given by an uninterpreted function; which paths are refused or ignored, and the re-chunking of the input, are not modelled.
- InstallSystem.EveryInterleavingIsSafe: identifiers are numbers in order of start, a close delivered before the spawn returns is not a step (the daemon ignores it), and the script's own deadline is one of the closes.
- InstallSlot.AgentInstallRuns.Begin: random identifiers, script arguments and the sweep's timer are left out.
- EventQueues.EventQueue.Next: a promise is a pending entry and a later delivery; handing a turn's event on to the log is part of the delivery.
- SessionTurns.EveryEventIsAccountedFor: the idle reader's guards for a stopping or replaced session, and a recording that fails, are not modelled.
- ToolDrafts.ASessionOnlyThins: the byte budget on a tool's output, image limits and the bound on a call's id are not modelled; the order of events pushed without a flush is the subject of `AnAsideOvertakesExactly`.
- Configs.HeldConfig.UpdateConfig: the bounds put on a list as it arrives, and listeners, are not modelled.
- ConfigChains.OneAtATimeStaysInStep: an agent that changes its list on its own between computing an answer and the answer's arrival is not modelled.
- ConfigRestores.NothingWithdrawnIsSent: is about restoring with nothing else in flight; `ConfigTurns.WithdrawnIsSentExactly` is about the rest.
- ConfigRestores.EverythingOfferedIsPutBack: the new conversation's mode and mode control say the same when it opens, as one fact; its control ids differ, and its modes' ids are within the bound they are cut to on arrival.
- PluginStores.MemoryPluginData.Fill: values are texts; parsing them is not modelled.
- PluginUsages.SqlitePluginDataStore.SetValue: rows are their costs, and statements are not modelled.
- PluginTables.ThePagesAgreeExactly: is for keys the column holds as they are, and a well-formed prefix and cursor; `AKeyComesBackExactly` and `AHalfPrefixFindsNothing` are about the others. The rows of a statement are given by what it asks for, not computed.
- UploadRates.Uploads.RateWait: file limits, the session's total and the writing itself are not modelled.
- Enrollments.IdentityStore.BuildVerifier: addresses, keys and the relay's credentials are left out.
- RemoverTrees.CheckTrees: what `realpath` answers is given; a link made after the check is not modelled.
- ShellWords.AShellReadsTheWordsBack: characters a shell would treat specially outside quotes make the reading fail, which is stricter than a shell.
- Token caching, request retries, reconnect delays with jitter, heartbeats and the browser's client.
- Escape sequences in terminal output, the login transcript's scrubbing, and terminal rendering.
- Sessions' storage, worktrees, git, relays, encryption and the permission flow.
