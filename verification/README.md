# Verified models of the assistant's core

A Dafny 4.11 model of the parts of the repository where several pieces of code must keep a promise
together, with machine-checked proofs of those promises. `dafny verify dfyconfig.toml` checks everything.

**Daemons.** A skill's daemon is a process the executor runs for the backend. The backend keeps a
database row, a restart timer and an attempt count per daemon; the executor keeps a table of
processes and reports exits over a channel that may delay, lose or duplicate them. `ExecutorTable`
says what each executor call and process event does to the table, `ExecutorRuns` what holds over
every interleaving of them, and `DaemonManager` proves the mutable map and entry objects to act as
that table. `DaemonHandlers` gives every backend handler as a function on both nodes, `DaemonSystem`
the two-node transition system and its invariants, `DaemonFields` what each step does to each field,
`DaemonGuarantees`, `RestartBound` and `RestartRuns` what it promises over whole runs, and `DaemonsService` proves the imperative handlers to
act as those functions.
Every handler is one atomic step; the code has awaits between the status check and the unconditional
update to 'running', and `DaemonGuarantees.RaceRevivesStopped` says exactly what that costs. Every
executor call has three fates: refused, carried out with the reply lost, or answered.

**Conversations.** `Transcript` states the protocol every model provider demands of tool calls and
their results. `Replay`, `ReplayContents`, `TurnContext`, `ToolMedia` (with `MediaParts`, `MediaBudget`,
`MediaPlacement`, `MediaReference` and `MediaSent`) and `Request` carry it from the stored history to the request that is sent. `Compaction`, `ChatLife` and
`CompactionBounds` model the rolling summary: a summary carries what the summarizer was given to make
it, so that "no message is lost or repeated" is a statement about every chat's whole life.
`StreamedArgs` reassembles the arguments of tool calls that stream in parallel.

**Tool selection.** `ToolSelection` (specification), `ToolSelectionService` (the class with its
embedding cache), `ToolSelectionGuarantees` and `CacheRaces` (selections that overlap).

**Algorithms.** `Chunking`, `ChunkReflow` and `ChunkWindows` (the text chunker), `SqlSplit` and
`SqlTokens` (the statement splitter),
`Ranking`, `SearchMerge` and `SearchOptimality` (per-scope search and merge), `PercentEncoding`,
`Segments`, `DestinationUrl`, `DestinationRoundTrip` and `DestinationParsing` (the backup destination's
URL), `ConversationFocus` (lazily expiring foci). `JsText`, `Options` and `Collections` are shared.

Where code updates state step by step the model is a class or a method with loops, proved equal to a
function, and the properties are proved of that function.

## Where the code does less than its comments say

- Automatic restarts (`daemons.service.ts:37`, "then it stays in 'error'"): a failed restart does not
  clear the start time, so downtime counts as uptime; the last delay (30 minutes) exceeds a stable run
  (15 minutes) and the count starts over. A daemon that cannot be started is retried without end
  unless it never had a start time (`RestartBound.FailedRestartGivesUpOnlyWithoutStartTime`,
  `RestartBound.FailingRestartsNeverEnd`). The bound of five holds while every call of the crash
  handler comes within a stable run of the start time (`RestartBound.RestartsAreBounded`), and it is
  reached (`RestartRuns.BoundIsReached`).
- "Concurrent reports count once" (`daemons.service.ts:373-374`): true until the daemon is started
  again. A report counts if and only if the row is in one of the two, whichever process it is
  about (`DaemonGuarantees.ReportCountsIff`), so one exit reported twice can count twice, the second
  time against the process that replaced it (`DaemonGuarantees.OneExitCountsTwice`). And one that does
  not count can still make the backend forget an attempt
  (`DaemonGuarantees.LateReportIsHarmlessUnlessForgiving`, `DaemonGuarantees.LateReportForgetsTheAttempt`).
- A user's restart whose start fails leaves the row 'starting'. Exactly a report, the user's stop or
  answered restart, a sweep that finds a process of it, or a boot moves it
  (`DaemonGuarantees.StartingLeavesIff`); without a process no sweep does
  (`DaemonGuarantees.FailedRestartIsStuck`). A stop the executor refuses leaves the row 'stopped' with its
  process running (`DaemonGuarantees.StopIsEffectiveIff`).
- The images of a model call (`tool-media.ts:35` and `:78`, "the most recent ones win"): images are
  granted run by run, and inside the run the budget ends in the first ones win
  (`MediaBudget.MostRecentWinUnlessARunIsSplit`, `MediaBudget.FirstTwoOfThree`). A granted image is
  charged even when only a line of text is sent of it, because it is too large or cannot be read, so
  older images that would fit are left out (`MediaSent.BudgetIsUsedIff`, `MediaSent.MostRecentAreSentIff`,
  `MediaSent.OversizedImageUsesTheBudget`, `MediaSent.OversizedImageLeavesAGap`).
- A backup destination on SMB with a path but no share reads back with the path's first folder as its
  share (`DestinationParsing.PathGivesTheShare`, `DestinationParsing.FolderComesBackAsShare`).
- Two tool selections under different embedding models can leave vectors of the one in the cache of
  the other (`CacheRaces.LateStoreUnderANewModel`), and exactly when a batch is stored under another identity
  than it was asked under (`CacheRaces.TrueThroughoutIffStoresFindTheirOwn`).
- A rewind while the summarizer is at work can leave a summary of deleted messages behind
  (`ChatLife.LateSaveIsSoundIff`, `ChatLife.LateSaveAfterARewind`).

## Model

| member | source | states |
|---|---|---|
| ExecutorTable.StopKeepsInv | executor/src/daemon-manager.ts:216-242 | Stopping an id keeps the table invariant (every map entry is a child of that id nobody asked to stop, and every such child is its id's entry) and leaves no entry for the id. |
| ExecutorTable.StartKeepsInv | executor/src/daemon-manager.ts:90-94 | A start, also one that reuses a running daemon's id, keeps the invariant: the old process is marked stopping before the new one takes the entry. |
| ExecutorTable.GoneKeepsInv | executor/src/daemon-manager.ts:178-206 | The end of any process, in whatever order ends arrive, keeps the invariant: only the process that owns the entry removes it. |
| ExecutorRuns.TableSafety | executor/src/daemon-manager.ts:178-242 | Over every interleaving of starts, same-id restarts, stops, exits and failed spawns: per id at most one live process is not marked stopping and it is exactly the map's entry; no exit is reported twice, and only of a process that has ended. |
| ExecutorRuns.LogGrows | executor/src/daemon-manager.ts:194-201 | A report once sent stays sent: the log of reports only grows. |
| ExecutorRuns.SupersededIsSilent | executor/src/daemon-manager.ts:178-201 | A superseded or stopped process is never reported, whatever follows, and its exit leaves the newer process's entry alone. |
| ExecutorRuns.UnaskedExitIsReported | executor/src/daemon-manager.ts:194-201 | A process that nobody stops or restarts is the entry until it exits, and once it has exited its report is in the log. |
| ExecutorRuns.GoneStaysGone | executor/src/daemon-manager.ts:194-206 | A process that has ended never comes back. |
| DaemonManager.DaemonEntry.PushTail | executor/src/daemon-manager.ts:60-66 | The in-place loop with its shift keeps exactly the last 20 of all non-blank lines ever pushed, each cut to 300 characters. |
| DaemonManager.PushedKeepsLast | executor/src/daemon-manager.ts:60-66 | Dropping one line whenever there are more than 20 is the same as keeping the last 20 of everything. |
| DaemonManager.TailIsTheLastTwenty | executor/src/daemon-manager.ts:57-66 | Of any lines the k-th last that is not blank is the k-th last of the tail, its first 300 characters, for k up to 20; the tail holds no other line. |
| DaemonManager.Manager.StartDaemon | executor/src/daemon-manager.ts:90-212 | The mutable map and entry objects change as the table's start; the entry returned is a fresh object with the child's pid (-1 when the spawn failed). |
| DaemonManager.Manager.StopDaemon | executor/src/daemon-manager.ts:216-242 | The objects change as the table's stop: the entry is marked, its process signalled and the map entry dropped; false exactly when there was none. |
| DaemonManager.Manager.OnExit | executor/src/daemon-manager.ts:194-201 | The exit event releases the entry only if it is the map's own and reports unless the process was asked to stop. |
| DaemonManager.Manager.OnSpawnError | executor/src/daemon-manager.ts:203-206 | The error event of a process that never spawned releases the entry and reports nothing. |
| DaemonManager.Manager.ListDaemons | executor/src/daemon-manager.ts:246-256 | The listing is that of the table's entries, and every listed daemon is shown running: a signalled process is no longer listed. |
| DaemonSystem.SlotOfNext | backend/src/daemons/daemons.service.ts:284-347 | Each step of the two nodes changes one daemon's row, timer and count only as its own handler says: handlers do not interfere across daemons. |
| DaemonSystem.ReconcilePointwise | backend/src/daemons/daemons.service.ts:459-479 | The sweep's loop over rows is one decision per row, independent of the order. |
| DaemonSystem.BootPointwise | backend/src/daemons/daemons.service.ts:102-129 | The boot loop is one decision per row, though every restart in it changes the executor's table. |
| DaemonSystem.CrashedKeepsInv | backend/src/daemons/daemons.service.ts:378-404 | The crash handler keeps the slot invariant, also when it is reached from a failed automatic restart. |
| DaemonSystem.SlotStepKeepsInv | backend/src/daemons/daemons.service.ts:378-425 | Each step keeps, for every daemon: a timer is pending exactly for a row in 'restarting', counts stay within the number of delays, and the last delay's timer is due a stable run after the start time at the earliest. |
| DaemonSystem.ReachableStatesAreSound | backend/src/daemons/daemons.service.ts:399-425 | Every state reachable under any interleaving of user actions, exits, delivered, lost or duplicated reports, sweeps, timers and reboots of either node satisfies the invariants of both nodes. |
| DaemonSystem.InitialIsSound | backend/src/daemons/daemons.service.ts:50-52 | The empty system satisfies them. |
| DaemonFields.FieldsAfterStep | backend/src/daemons/daemons.service.ts:231-517 | Field by field and in plain numbers: what any step leaves of a daemon's row. The start time is that of the last answered start and only the user's restart erases it; the pid is the new process's or the one found; the status, the timer (5, 30, 120, 600, 1800 seconds after the crash) and the count follow from what the step is and from the table. |
| DaemonFields.FindingKeepsTheStartTime | backend/src/daemons/daemons.service.ts:469-473 | A sweep or boot that finds a row's process keeps its start time; a sweep keeps its timer and count too. |
| DaemonFields.StartTimeStays | backend/src/daemons/daemons.service.ts:459-479 | Over any run in which no start of the daemon is answered and the user neither restarts nor removes it, its start time does not change. |
| DaemonFields.CrashAfterStart | backend/src/daemons/daemons.service.ts:378-404 | After an answered start, however many sweeps, reports and boots follow, the next crash that counts is forgiven and retried in five seconds if and only if fifteen minutes or more lie in between; otherwise it is the next attempt with its own delay, or the last. |
| DaemonFields.EntryAfterStep | executor/src/daemon-manager.ts:90-242 | What the executor's table says of a daemon after any step: a new process with the call's pid, started now; nothing once it was stopped or ended; else what it said. |
| DaemonFields.ReportsAfterStep | executor/src/daemon-manager.ts:194-201 | A report goes out exactly for the exit of a process nobody asked to stop, and is used up by its delivery or loss. |
| DaemonGuarantees.SettledChangesOnlyByUser | backend/src/daemons/daemons.service.ts:388-392 | A row in 'stopped' or 'error' changes in a step exactly when the step is the user's restart or removal. |
| DaemonGuarantees.SettledStaysSettled | backend/src/daemons/daemons.service.ts:284-304 | Over any run without those two actions the row stays as it was: no report, sweep, timer or boot revives it. |
| DaemonGuarantees.StopIsEffectiveIff | backend/src/daemons/daemons.service.ts:284-304 | Right after a user's stop the row is 'stopped', and the executor holds no process of the daemon that it was not told to stop if and only if the call was not refused or there was no entry. |
| DaemonGuarantees.StoppedStaysDead | backend/src/daemons/daemons.service.ts:294-303 | Once a user's stop was effective, even with its reply lost, the row stays 'stopped' and the executor never again holds a process of the daemon that it was not told to stop, until a user restarts or removes it. |
| DaemonGuarantees.SweepAgrees | backend/src/daemons/daemons.service.ts:459-479 | After a sweep of one user's rows that reached the executor, every visited 'running' row has a live entry with the row's pid and every other row is untouched; after a sweep of all 'starting' and 'running' rows, every 'running' row there is has one. |
| DaemonGuarantees.BootSettlesEveryRow | backend/src/daemons/daemons.service.ts:80-129 | After a boot no row is 'starting' or 'restarting', no timer or count is kept, every 'running' row has a live entry with its pid, and settled rows are untouched, whether or not the executor answered and whichever starts failed. |
| DaemonGuarantees.LateReportIsHarmlessUnlessForgiving | backend/src/daemons/daemons.service.ts:378-392 | A report that affects no row leaves the whole slot alone if and only if no counted attempt is due to be forgiven: the count is reset before the conditional update is made. Row and timer are never touched. |
| DaemonGuarantees.LateReportForgetsTheAttempt | backend/src/daemons/daemons.service.ts:379-392 | A run in which the second report of one crash makes the backend forget the attempt it had just counted. |
| DaemonGuarantees.ReportCountsIff | backend/src/daemons/daemons.service.ts:364-392 | A delivered report changes the row if and only if the row is 'starting' or 'running', whichever process ended: reports carry no pid. The executor's table is not touched. |
| DaemonGuarantees.OneExitCountsTwice | backend/src/daemons/daemons.service.ts:364-392 | A run with one exit, reported twice with a successful restart in between, that ends with two attempts counted, the row 'restarting' and the new process alive. |
| DaemonGuarantees.StartingLeavesIff | backend/src/daemons/daemons.service.ts:309-334 | A row leaves 'starting' in a step if and only if the step is a report of it, the user's stop or answered restart, a sweep that visits it and finds a process of it, or a boot. |
| DaemonGuarantees.StartingStaysIff | backend/src/daemons/daemons.service.ts:309-334 | Over a run the row is 'starting' throughout if and only if no step is one of those. |
| DaemonGuarantees.StartingWithoutProcessIsStuck | backend/src/daemons/daemons.service.ts:474-477 | A 'starting' row without a process stays so over every run without a report of it, the user's stop or restart, or a boot: no sweep moves it. |
| DaemonGuarantees.FailedRestartIsStuck | backend/src/daemons/daemons.service.ts:309-334 | A user's restart whose start is refused leaves such a row behind, when its stop reached the executor or the executor had no process of it. |
| DaemonGuarantees.RefusedRestartStaysStarting | backend/src/daemons/daemons.service.ts:309-334 | A concrete run: a restart is refused, and a sweep later the row is still 'starting'. |
| DaemonGuarantees.RaceRevivesStopped | backend/src/daemons/daemons.service.ts:406-416 | With the await between status check and update taken apart: a user's stop in between is undone if and only if the executor's answer arrives, because the update is unconditional. |
| RestartBound.FuelStep | backend/src/daemons/daemons.service.ts:378-404 | While no user acts and each call of the crash handler is young, an automatic restart uses up one of those left (unused delays and the pending one), and only a new backend process adds any. |
| RestartBound.RestartsAreBounded | backend/src/daemons/daemons.service.ts:38-40 | In any run segment with no user action and no new backend process in which every call of the crash handler comes within a stable run of the start time, at most five automatic restarts are attempted. |
| RestartBound.RestartsAreBoundedPerBackendLife | backend/src/daemons/daemons.service.ts:50-51 | With new backend processes in the run the bound is five for each life of the process, the counts being in memory. |
| RestartBound.YoungCrashGivesUpIff | backend/src/daemons/daemons.service.ts:381-399 | A young crash that counts, noticed by a report, a sweep or a failed restart, ends in 'error' if and only if all five attempts are used; otherwise it is the next attempt. |
| RestartBound.SpentDaemonSettles | backend/src/daemons/daemons.service.ts:382-398 | With all attempts used, the next young crash that counts, however it is noticed, puts the row in 'error' and it stays there until the user restarts or removes it. |
| RestartRuns.CrashRoundRuns | backend/src/daemons/daemons.service.ts:399-411 | One round after a counted crash: the delay passes, the restart succeeds, the process crashes at once and the report counts the next attempt, or gives up after the last. |
| RestartRuns.BoundIsReached | backend/src/daemons/daemons.service.ts:37-40 | The bound is reached from the empty system: five automatic restarts that all succeed, six young crashes, and then 'error'. |
| RestartBound.FailedRestartGivesUpOnlyWithoutStartTime | backend/src/daemons/daemons.service.ts:411-415 | A failed automatic restart gives up if and only if the attempts are used and the row has no start time: with one, the downtime counts as a stable run and the count starts over. |
| RestartBound.FailingRestartsNeverEnd | backend/src/daemons/daemons.service.ts:379-380 | For every n there is a run of n failed automatic restarts in a row, all without user action, after which the daemon is still 'restarting': the bound needs its hypothesis. |
| RestartBound.OneSecondDaemonIsNeverGivenUp | backend/src/daemons/daemons.service.ts:37-40 | A concrete instance: a daemon that ran one second and then cannot be started is retried without end, where the comment says it stays in 'error'. |
| DaemonsService.Service.CancelRestart | backend/src/daemons/daemons.service.ts:419-424 | The timer is dropped, and the count with it unless told otherwise. |
| DaemonsService.Service.Crashed | backend/src/daemons/daemons.service.ts:378-404 | The in-place crash handler with its conditional update equals the slot function the protocol proofs use. |
| DaemonsService.Service.Start | backend/src/daemons/daemons.service.ts:231-278 | The user's start, with zombie stops and every fate of the executor calls, acts on both nodes as the protocol's step. |
| DaemonsService.Service.Stop | backend/src/daemons/daemons.service.ts:284-304 | The user's stop acts as the protocol's step; refused exactly when the row is not active. |
| DaemonsService.Service.Restart | backend/src/daemons/daemons.service.ts:309-334 | The user's restart acts as the protocol's step; a failed start leaves the row 'starting'. |
| DaemonsService.Service.Remove | backend/src/daemons/daemons.service.ts:339-347 | Removal acts as the protocol's step; it succeeds if and only if there is a row and it is not active. |
| DaemonsService.Service.HandleDaemonExit | backend/src/daemons/daemons.service.ts:364-369 | A delivered report acts as the protocol's step; a report without a row does nothing. |
| DaemonsService.Service.AutoRestart | backend/src/daemons/daemons.service.ts:406-416 | The timer's firing acts as the protocol's step: re-checked status, start, or another counted crash. |
| DaemonsService.Service.Reconcile | backend/src/daemons/daemons.service.ts:459-479 | The sweep's loop over the active rows equals the protocol's sweep, and does nothing when the executor is unreachable. |
| DaemonsService.Service.OnModuleInit | backend/src/daemons/daemons.service.ts:80-129 | The boot loop, on empty timers and counts, equals the protocol's boot. |
| DaemonsService.Service.DoStart | backend/src/daemons/daemons.service.ts:485-517 | The start call and its unconditional update to 'running' act as the protocol's confirmation; nothing is updated when the call fails or its reply is lost. |
| Transcript.PairedByPosition | backend/src/agent/agent.service.ts:685-686 | The protocol by positions: every assistant message is followed by the results of exactly its calls, in order, and every tool result answers a call made just before. |
| Transcript.PairedConcat | backend/src/agent/agent.service.ts:746-747 | Joining two well-formed conversations keeps the protocol. |
| Transcript.PairedSuffix | backend/src/agent/agent.service.ts:726-738 | A suffix keeps the protocol if and only if it is empty or does not start on a tool result. |
| Transcript.TrimmedStaysPaired | backend/src/agent/agent.service.ts:730-738 | Whatever the trim keeps within its contract (a suffix that is empty or starts on a human message) keeps the protocol. |
| TurnContext.OnlyTheTurnChanges | backend/src/agent/turn-context.ts:28-46 | Only the last user message changes: it keeps its place and id, and its content is the context, the heading and then the user's own words or parts, whole; without one a message of exactly the context is added; a blank context changes nothing; the protocol is kept. |
| Replay.BuildHistory | backend/src/agent/agent.service.ts:654-713 | The loop that pushes messages computes the replay of every stored message, in order. |
| ReplayContents.UsersAreReplayed | backend/src/agent/agent.service.ts:655-669 | The human messages of the replay are exactly the stored user messages' contents, in order; nothing else becomes one. |
| ReplayContents.EveryMessageIsTold | backend/src/agent/agent.service.ts:655-713 | Each stored message is told behind everything stored before it: a user's words; an assistant's words; or its calls with their ids, names and inputs, then for each call in order its output, '(no result)' without one, and of an output over the cap the first `cap` characters with a note, then the closing words unless blank; any other role is nothing. |
| ReplayContents.NothingElseIsTold | backend/src/agent/agent.service.ts:654-713 | Those parts, one after the other, are the whole replay. |
| Replay.ReplayIsPaired | backend/src/agent/agent.service.ts:669-713 | The replay of any stored history obeys the protocol: missing outputs, empty names and blank closing texts included. |
| Replay.ReplayTellsTheTurn | backend/src/agent/agent.service.ts:678-707 | A turn whose calls have names, object inputs and outputs within the cap is replayed whole: names, inputs, outputs in order and closing words can be read back exactly as stored. |
| Replay.CallIdIsInjective | backend/src/agent/agent.service.ts:688-693 | A call id determines its message and its place there, for every message id. |
| JsText.DecimalByDigits | backend/src/agent/agent.service.ts:690 | Numbers are printed by their decimal digits. |
| Replay.CallsComeFromTheHistory | backend/src/agent/agent.service.ts:687-704 | Every call of the replay stands for one stored call, at the place its message is replayed. |
| Replay.CallIdsAreUnique | backend/src/agent/agent.service.ts:688-693 | When no two stored messages share an id, no two calls of the whole replay share one. |
| ToolMedia.ToolMediaModifier | backend/src/agent/tool-media.ts:61-107 | The loops over runs, budget and messages compute the system message followed by the woven list. |
| ToolMedia.BuildParts | backend/src/agent/tool-media.ts:84-92 | The inner loop over a run's files asks for the parts of those the budget allows and leaves what remains of it. |
| MediaBudget.ShownIsBudgeted | backend/src/agent/tool-media.ts:85-92 | Of one run, min(budget, images) images are granted, the earlier ones, and exactly those are charged, whether or not a picture can be sent of them. |
| MediaBudget.OthersAreShown | backend/src/agent/tool-media.ts:86-91 | Files that cost no image are never skipped, whatever the budget. |
| MediaBudget.BudgetIsSpent | backend/src/agent/tool-media.ts:80-92 | Over any list of runs exactly min(budget, their images) images are granted and charged; none for a budget of zero or less. |
| MediaBudget.RunsHoldTheImages | backend/src/agent/tool-media.ts:62-74 | The runs found hold exactly the images of the conversation's tool results, in order. |
| MediaBudget.ConversationBudgetIsSpent | backend/src/agent/tool-media.ts:61-94 | One model call is granted, and charged for, exactly min(max(0, maxImages), images of all tool results of the conversation) images. |
| MediaBudget.GrantedByPlace | backend/src/agent/tool-media.ts:80-92 | The images granted are those at the granted places among all images, in order. |
| MediaBudget.LaterRunsComeFirst | backend/src/agent/tool-media.ts:80-83 | If any image of a run is granted, all images of every later run are. |
| MediaBudget.MostRecentWinUnlessARunIsSplit | backend/src/agent/tool-media.ts:78-92 | The places of the images granted are the last ones, as the comments of the option and the loop have it, if and only if the budget does not run out inside a run; also when one file was returned twice. |
| MediaBudget.UnsplitMeansTheLastImages | backend/src/agent/tool-media.ts:78-92 | In that case the images granted are the last of all images, as a list. |
| MediaBudget.FirstTwoOfThree | backend/src/agent/tool-media.ts:83-92 | An input: of one result with three images a budget of two grants the first two. |
| MediaParts.PictureIff | backend/src/agent/tool-media.ts:109-160 | The parts of one file hold a picture, and then one, if and only if it is an image, the model sees images, it is not over the size limit and it can be read; else they are text or nothing. |
| MediaParts.ImageIsTold | backend/src/agent/tool-media.ts:128-142 | What is told of an image, word for word: picture under its label, description, too large, unreadable, or nothing. |
| MediaParts.OtherIsTold | backend/src/agent/tool-media.ts:109-160 | Of any other file: its one text under its label, a line about the failure, or nothing. |
| MediaSent.InsertionsHoldThePics | backend/src/agent/tool-media.ts:80-105 | The messages inserted hold the pictures of every run's granted files, each once. |
| MediaSent.PicturesSent | backend/src/agent/tool-media.ts:61-107 | For any way of showing files that gives at most one picture of an image and none of others: one model call is sent at most min(max(0, maxImages), images of all tool results) pictures, and as many if and only if every granted image gives one. |
| MediaSent.BudgetIsUsedIff | backend/src/agent/tool-media.ts:85-132 | With the parts the code builds: if and only if every granted image is within the size limit and readable. |
| MediaSent.SentAtArePictured | backend/src/agent/tool-media.ts:80-105 | The places named for the pictures are as many as the pictures the inserted messages hold, and each is the place of an image that gives one. |
| MediaSent.MostRecentAreSentIff | backend/src/agent/tool-media.ts:78-132 | The pictures sent are of the last images if and only if no image granted in the run the budget runs out in gives a picture, and among the other granted images none that gives one comes before one that does not. |
| MediaSent.OversizedImageUsesTheBudget | backend/src/agent/tool-media.ts:85-117 | An input: an image over the limit takes a budget of one, and no picture is sent, though no run is split and an older image would fit. |
| MediaSent.OversizedImageLeavesAGap | backend/src/agent/tool-media.ts:85-117 | An input: of three results with one image each, the middle one over the limit, a budget of three sends the first and the last; no run is split. |
| MediaPlacement.RunsAreBlocks | backend/src/agent/tool-media.ts:62-74 | Each run found ends at the end of a maximal block of tool results and holds all files of the block, in order. |
| MediaPlacement.BlocksAreRuns | backend/src/agent/tool-media.ts:62-74 | Every maximal block of tool results is found. |
| MediaPlacement.RunsAreFollowed | backend/src/agent/tool-media.ts:79-94 | Content stands after a run's end if and only if the run has something to show, and it is that run's. |
| MediaPlacement.InsertionsFollowTheBlocks | backend/src/agent/tool-media.ts:96-106 | Nothing is inserted anywhere but after the last result of a maximal block that returned files. |
| MediaPlacement.BlocksAreFollowed | backend/src/agent/tool-media.ts:61-107 | Every maximal block of tool results that returned files is served as one run with exactly its files, and its last result is followed by what that run may show, if and only if that is not nothing. |
| MediaPlacement.WeaveKeepsTheList | backend/src/agent/tool-media.ts:96-106 | Reading the places of the original messages gives the original list back, and each insertion stands right after its message. |
| MediaPlacement.WeaveAddsNothingElse | backend/src/agent/tool-media.ts:96-106 | Every other place holds an insertion. |
| MediaPlacement.PlacesAreOrdered | backend/src/agent/tool-media.ts:96-106 | The original order is kept, insertions between. |
| MediaPlacement.MediaKeepsTheProtocol | backend/src/agent/tool-media.ts:61-107 | The media messages never come between a call and its results: the protocol is kept. |
| MediaReference.WovenIsTheReference | backend/src/agent/tool-media.ts:61-107 | The runs, the reversed budget loop and the weaving give exactly the reference that goes message by message and counts images: after the last of each row of results one message with the heading and, in order, the parts of every file but those images before which the row or later results used up the budget. |
| Request.EveryRequestObeysTheProtocol | backend/src/agent/agent.service.ts:1341-1343 | End to end: for any history, trim within its contract, turn, tool loop, context and files, the request sent obeys the protocol. |
| Request.ContextLandsOnTheTurn | backend/src/agent/agent.service.ts:1341-1343 | However far the tool loop has got, the turn's own message is sent as the context, the heading and then the user's words, and everything before it is sent as it was. |
| Request.RequestIsLaidOut | backend/src/agent/agent.service.ts:1341-1343 | One request is the kept history, the turn with its context, the turn's steps, and the media messages of the reference, in this order. |
| Compaction.ChatRows.CompactHistory | backend/src/agent/agent.service.ts:858-935 | The method with its loops and guards changes the chat's row and returns summary and messages as the compaction function says; the guards change nothing. |
| Compaction.FindKeepFrom | backend/src/agent/agent.service.ts:899-908 | The backward scan with its early exit finds the start of the kept part. |
| Compaction.ChatRows.ClearStaleMarkers | backend/src/chats/chats.service.ts:157-172 | A rewind clears the summary with its marker, and the memory marker, exactly when their message was deleted. |
| CompactionBounds.RewindClearsIff | backend/src/chats/chats.service.ts:157-172 | Summary, marker and weight go together, the memory marker by itself, each if and only if its message was deleted; what is not cleared stays. |
| CompactionBounds.WeightsAreQuarters | backend/src/agent/agent.service.ts:867-872 | A text weighs a quarter of its characters, rounded up; a message its words and, if it has calls, their JSON; a summary its text. |
| CompactionBounds.TotalOfOne | backend/src/agent/agent.service.ts:883 | One message's total is its weight, |
| CompactionBounds.TotalConcat | backend/src/agent/agent.service.ts:883 | and the total of messages is the sum of their parts' totals. |
| CompactionBounds.TriggerIsTheShare | backend/src/agent/agent.service.ts:885-888 | The trigger is the setting's per cent of the budget rounded down: 80 when not set, from 50 to 95. |
| CompactionBounds.FoldWrites | backend/src/agent/agent.service.ts:925-929 | A fold writes the new text after the old summary and what was not kept, the last folded message's id and the text's weight. |
| ChatLife.SoundMeansNothingLost | backend/src/agent/agent.service.ts:879-884 | In a sound state the messages folded into the summary followed by the fresh ones are the whole history, and the marker is the id of the last folded message. |
| ChatLife.CompactKeepsSound | backend/src/agent/agent.service.ts:910-935 | A compaction, successful or failed, keeps a sound chat sound. |
| ChatLife.RewindKeepsSound | backend/src/chats/chats.service.ts:157-172 | So does a rewind to any message, before or behind the marker. |
| ChatLife.AppendKeepsSound | backend/src/agent/agent.service.ts:879-884 | So does a new message. |
| ChatLife.NoMessageIsEverLostOrRepeated | backend/src/agent/agent.service.ts:910-935 | Over any sequence of new messages, compactions, failed summaries and rewinds, summary and fresh messages hold every message exactly once, in order. |
| ChatLife.NewChatIsSound | backend/src/agent/agent.service.ts:879-884 | A new chat is sound, so the statement covers every chat's life. |
| ChatLife.NothingIsHiddenFromTheModel | backend/src/agent/agent.service.ts:908-935 | The summary and messages one compaction returns are together the whole history it was called with. |
| ChatLife.LateSaveIsSoundIff | backend/src/agent/agent.service.ts:918-929 | A rewind between a compaction's reading and its save leaves a sound chat if and only if it spared the last folded message. |
| ChatLife.LateSaveAfterARewind | backend/src/agent/agent.service.ts:918-929 | An input: three messages, two of them folded, a rewind to before the second in between. After the late save the summary holds the deleted message and the first message is told twice. |
| CompactionBounds.KeptIsTheLongestThatFits | backend/src/agent/agent.service.ts:897-906 | The scan keeps the longest suffix within the budget, or the newest message alone when not even that fits. |
| CompactionBounds.KeptPartBounds | backend/src/agent/agent.service.ts:897-911 | A successful compaction keeps a proper, non-empty suffix: at most half the trigger unless it is the newest message alone, and no longer suffix would fit. |
| CompactionBounds.FoldsIff | backend/src/agent/agent.service.ts:889-916 | A compaction with a working summarizer folds something if and only if summary and recent messages exceed the trigger, there are at least two recent messages and they exceed half of it. |
| CompactionBounds.CompactionSettles | backend/src/agent/agent.service.ts:889-935 | Until a new message arrives a second compaction changes nothing, whatever the first summary's length. |
| StreamedArgs.ToolArgs.AddChunk | backend/src/agent/agent.service.ts:340-346 | The accumulator map changes as the specification's step: key by index, then id, then 0; id kept once known; arguments appended. |
| StreamedArgs.ToolArgs.TakeToolArgs | backend/src/agent/agent.service.ts:275-284 | Taking a call's arguments returns exactly the text accumulated under its id, or '{}' when that is empty, and frees its key; nothing is returned for an unknown call. |
| StreamedArgs.AccumulatorMirrorsStream | backend/src/agent/agent.service.ts:336-352 | For any well-formed stream, at every moment the accumulator holds exactly the open calls, each with its own deltas so far. |
| StreamedArgs.DeltaOpens | backend/src/agent/agent.service.ts:341-346 | A first delta opens a call on a free key, also one used by an answered call before. |
| StreamedArgs.DeltaContinues | backend/src/agent/agent.service.ts:341-346 | A later delta goes to its own call, however the calls interleave. |
| StreamedArgs.ResultCloses | backend/src/agent/agent.service.ts:369-370 | A result removes its own call and no other. |
| StreamedArgs.TakenInputIsTheCallsOwn | backend/src/agent/agent.service.ts:369-370 | The entry with an answered call's id is the only one and holds the concatenation of that call's own deltas, in order: independent of cutting, interleaving and index reuse. |
| StreamedArgs.TakingAnswersTheCall | backend/src/agent/agent.service.ts:275-284 | After a well-formed stream an answered call has an entry; taking whichever is found gives the call's own deltas and leaves the accumulator of the stream with the result. |
| StreamedArgs.ToolArgs.ReadStream | backend/src/agent/agent.service.ts:332-371 | The loop over a response: for every well-formed stream the n-th input delivered is the args of the n-th answered call's own chunks before its result, one after the other, or '{}' when there is nothing. |
| StreamedArgs.OwnIsTheDeltas | backend/src/agent/agent.service.ts:339-346 | A call's text is its chunks' args, one after the other; chunks without args add nothing. |
| StreamedArgs.IndexedIsWellFormed | backend/src/agent/agent.service.ts:340 | Streams that tell parallel calls apart by index, reused once a call is answered, are well-formed; each call's key is its index. |
| StreamedArgs.LabelledIsWellFormed | backend/src/agent/agent.service.ts:340 | So are streams that carry no index and the call's id on every chunk; each call's key is its id. |
| ToolSelectionService.Service.SelectByRag | backend/src/agent/tool-selection.service.ts:241-367 | With its cache, any identity and any failure, a selection returns what a service without a cache would, and leaves the cache true. |
| ToolSelectionService.Service.SelectTools | backend/src/agent/tool-selection.service.ts:193-217 | The strategies: all tools, or the selection by similarity with the set of its names. |
| ToolSelectionService.Service.ApplyStrategy | backend/src/agent/tool-selection.service.ts:130-154 | The tools given and the catalogue of those left out. |
| ToolSelectionService.Service.InvalidateEmbeddingCache | backend/src/agent/tool-selection.service.ts:179-182 | The vectors are dropped, the identity kept. |
| ToolSelectionService.ReserveBySubQuery | backend/src/agent/tool-selection.service.ts:316-335 | The double loop over sub-queries and tools with its set of claimed names computes the claims. |
| ToolSelectionService.ClaimAndFill | backend/src/agent/tool-selection.service.ts:313-349 | Claims followed by the global fill. |
| ToolSelectionGuarantees.BestIsBest | backend/src/agent/tool-selection.service.ts:322-328 | The scan finds an unclaimed tool of the highest score, the first of equals. |
| ToolSelectionGuarantees.SelectionSize | backend/src/agent/tool-selection.service.ts:263-266 | For distinct names exactly min(n, max(topK, s + max(3, s))) tools are selected, all given ones, none twice. |
| ToolSelectionGuarantees.SubQueriesGetTheirBest | backend/src/agent/tool-selection.service.ts:316-335 | The first min(s, n) sub-queries each get a tool at least as like them as every tool not given to an earlier one. |
| ToolSelectionGuarantees.TheRestIsTheBestForTheQuery | backend/src/agent/tool-selection.service.ts:337-346 | No tool left out is more like the whole query than one added for it. |
| ToolSelectionGuarantees.TheRestIsRanked | backend/src/agent/tool-selection.service.ts:337-346 | The tools added for the whole query come best first. |
| ToolSelectionGuarantees.WithoutAnswerNothingIsLeftOut | backend/src/agent/tool-selection.service.ts:246-253 | A blank query selects the first topK tools; a selection that cannot ask for the identity or whose batch fails selects all. |
| ToolSelectionGuarantees.QueryIsCutAtSeparators | backend/src/agent/tool-selection.service.ts:376-381 | The query is cut at exactly its commas, semicolons, colons and periods with no digit beside them, and the pieces with the separators between them are the query. |
| ToolSelectionGuarantees.SubQueriesAreLongEnough | backend/src/agent/tool-selection.service.ts:376-381 | Every sub-query is a trimmed piece of at least six characters. |
| ToolSelectionGuarantees.LongPiecesAreSubQueries | backend/src/agent/tool-selection.service.ts:376-381 | And every piece that is so long after trimming is a sub-query, in order. |
| ToolSelectionGuarantees.SelectedAndExcludedPartition | backend/src/agent/tool-selection.service.ts:147-154 | Selected and excluded tools partition the input. |
| ToolSelectionGuarantees.CacheAgreesWithRecomputation | backend/src/agent/tool-selection.service.ts:252-289 | Over any sequence of selections, model changes, failures and invalidations every cached vector is the current identity's embedding of its text. |
| CacheRaces.LateStoreIsTrueIff | backend/src/agent/tool-selection.service.ts:253-287 | With the await taken apart: a batch stored after another selection renewed the identity leaves the cache true if and only if both models embed its texts alike. |
| CacheRaces.LateStoreNeedsTheSameIdentity | backend/src/agent/tool-selection.service.ts:253-287 | For models that embed no text alike: if and only if the identity at the store is the one asked for, or no text was uncached. |
| CacheRaces.BeginAndStoreIsOneSelection | backend/src/agent/tool-selection.service.ts:252-289 | Beginning a selection and storing its batch with nothing in between is the atomic selection. |
| CacheRaces.BeginAndFailIsOneSelection | backend/src/agent/tool-selection.service.ts:252-289 | One whose batch fails leaves only the identity renewed, and the other identity's vectors dropped. |
| CacheRaces.TrueThroughoutIffStoresAgree | backend/src/agent/tool-selection.service.ts:252-287 | Over every run of overlapping selections, failures and tool changes the cache holds only vectors of its identity throughout if and only if every batch is stored under an identity that embeds its texts like the one it was asked under. |
| CacheRaces.TrueThroughoutIffStoresFindTheirOwn | backend/src/agent/tool-selection.service.ts:252-287 | For models that embed no text alike: if and only if every batch finds its own identity at the store, or nothing was uncached. |
| CacheRaces.OneIdentityIsSafe | backend/src/agent/tool-selection.service.ts:252-287 | While the embedding model stays the same no interleaving makes the cache false. |
| CacheRaces.LateStoreUnderANewModel | backend/src/agent/tool-selection.service.ts:253-287 | An input: one selection asks under one model, a second renews the identity, the first batch arrives: the cache, true until then, holds a vector of the other model. |
| ToolSelectionGuarantees.NothingIsEmbeddedTwice | backend/src/agent/tool-selection.service.ts:268-287 | After an answered selection the same tools need no embedding under that identity. |
| Ranking.RankedIsDescending | backend/src/custom-tools/custom-tool.factory.ts:1439 | The order is by descending score. |
| Ranking.RankedIsAPermutation | backend/src/custom-tools/custom-tool.factory.ts:1439 | Nothing is lost or added by sorting. |
| Ranking.RankedIsStable | backend/src/custom-tools/custom-tool.factory.ts:1439 | Equal scores keep their order. |
| Ranking.StableOrderIsUnique | backend/src/custom-tools/custom-tool.factory.ts:1439 | There is one stable descending order, so the sorting algorithm does not matter. |
| SearchMerge.MergeSearchHits | backend/src/custom-tools/custom-tool.factory.ts:1431-1440 | The nested loops over groups fill the map as the specification says, then rank and cut. |
| SearchMerge.NotedAllInvariant | backend/src/custom-tools/custom-tool.factory.ts:1432-1438 | The map holds one hit per id, and only hits that were found. |
| SearchMerge.NotedAllReaches | backend/src/custom-tools/custom-tool.factory.ts:1435-1436 | For every hit found, the map's hit of that id scores at least as much. |
| SearchMerge.TheBestAreKept | backend/src/custom-tools/custom-tool.factory.ts:1431-1438 | The map holds the documents in the order they were first found, each with its best hit, the first of equals, whole. |
| SearchOptimality.AnswersAreRankedAndDistinct | backend/src/custom-tools/custom-tool.factory.ts:1439 | Answers are best first, one per document, for every limit. |
| SearchOptimality.AnswersAreTheBestOfTheirDocuments | backend/src/custom-tools/custom-tool.factory.ts:1478-1487 | If each group is the top `limit` of its scope, every answer is a document of some scope at its best score over all scopes, also the ones its own scope's search left out. |
| SearchOptimality.LeftOutDocumentsAreNoBetter | backend/src/custom-tools/custom-tool.factory.ts:1478-1487 | And a document that is not an answer beats none of them, and then the answer is full: the merge is the top `limit` of the deduplicated union. |
| SearchOptimality.CrowdedOut | backend/src/custom-tools/custom-tool.factory.ts:1427-1430 | If as many documents as fit reach a score, nothing below it gets in. |
| SqlSplit.SplitStatements | backend/src/custom-tools/custom-tool.factory.ts:447-469 | The index loop with its quote state computes the split. |
| SqlTokens.EveryTextIsTokens | backend/src/custom-tools/custom-tool.factory.ts:447-466 | Every text is a sequence of SQL tokens: single- and double-quoted literals with their quotes doubled inside, dollar-quoted literals that end at the first repetition of their tag, literals left open at the end, semicolons, and other characters. |
| SqlTokens.CutAtTheSemicolons | backend/src/custom-tools/custom-tool.factory.ts:447-467 | For any such tokens, the text is cut at exactly the semicolons among them: never inside a literal, and everywhere else. |
| SqlTokens.SplitByTokens | backend/src/custom-tools/custom-tool.factory.ts:447-469 | The statements are the texts between those semicolons, trimmed, in order, the blank ones dropped. |
| SqlTokens.PlainIsCutEverywhere | backend/src/custom-tools/custom-tool.factory.ts:466 | A text without quotes and dollar signs is cut at every ';'. |
| SqlTokens.LiteralIsOnePiece | backend/src/custom-tools/custom-tool.factory.ts:454-464 | A literal of any contents between texts without quotes, dollar signs and semicolons is one piece with them. |
| SqlTokens.StringKeepsItsSemicolon | backend/src/custom-tools/custom-tool.factory.ts:461 | An input: values ('a;b') is one statement. |
| SqlSplit.RawIsLossless | backend/src/custom-tools/custom-tool.factory.ts:447-469 | The pieces joined with ';' are the input, and each is scanned to its end without a cut. |
| SqlSplit.RawOfJoin | backend/src/custom-tools/custom-tool.factory.ts:447-469 | Pieces that are cut right are found again in their ';'-joined text. |
| SqlSplit.SplitIsLosslessAndStable | backend/src/custom-tools/custom-tool.factory.ts:447-469 | The statements are non-empty, trimmed and scanned without a cut; the pieces they come from give the input back; splitting the ';'-joined result gives the same list. |
| Chunking.NormalizeEffect | backend/src/embed/chunking.ts:15-22 | Normalization keeps the sequence of non-blank characters, leaves no blank run longer than two and nothing blank at the ends. |
| Chunking.NormalIsFixed | backend/src/embed/chunking.ts:15-22 | Normal text is left as it is. |
| Chunking.NormalizeIsIdempotent | backend/src/embed/chunking.ts:15-22 | Normalizing twice is normalizing once. |
| JsText.SpacesAre | backend/src/embed/chunking.ts:17-21 | What counts as blank are exactly the white space and line terminators of ECMAScript. |
| ChunkReflow.NormalizeIsReflow | backend/src/embed/chunking.ts:15-22 | The four replacements and the trim are one pass: every visible character in order, and between two of them nothing, a space, one line break or two, by how many line breaks were there, a CRLF being one. |
| ChunkWindows.SplitIntoChunks | backend/src/embed/chunking.ts:24-35 | The window loop, for every size and overlap, computes the non-blank windows of the normalized text, and terminates. |
| ChunkWindows.ChunksRebuildTheText | backend/src/embed/chunking.ts:24-35 | For a size of at least 3 the blank filter never fires and no chunk is longer than the size; for any overlap of 0 or more, also one as large as the size, dropping what each chunk repeats rebuilds the normalized text exactly. |
| ChunkWindows.ChunksAreTheSlices | backend/src/embed/chunking.ts:24-35 | For a size of at least 3: chunk k is the slice of the size that starts k steps into the normalized text, a step being size - overlap or 1, and the last is the first that reaches the end. |
| ChunkWindows.BlankWindowsAreDropped | backend/src/embed/chunking.ts:29-33 | For any size the blank windows are dropped and the others kept. |
| PercentEncoding.RoundTrip | backend/src/backup/host-backup-destination.ts:45-46 | Decoding undoes percent-encoding of the UTF-8 bytes for every text and whatever follows it. |
| PercentEncoding.EncodedIsClean | backend/src/backup/host-backup-destination.ts:46 | An encoded text holds unreserved characters and percent signs only (section 2.3 of RFC 3986 and the marks the function keeps). |
| PercentEncoding.EncodedCharIs | backend/src/backup/host-backup-destination.ts:45-46 | Letters, digits and -_.!~*'() stay; any other character is '%' and two upper-case hexadecimal digits for each of its bytes. |
| PercentEncoding.BytesAreUtf8 | backend/src/backup/host-backup-destination.ts:45-46 | Those bytes are the character's UTF-8 form (section 3 of RFC 3629). |
| Segments.SplitOfJoin | backend/src/backup/host-backup-destination.ts:45 | Splitting undoes joining when no part holds the separator. |
| Segments.JoinOfSplit | backend/src/backup/host-backup-destination.ts:45 | Joining undoes splitting. |
| Segments.ProperSurvive | backend/src/backup/host-backup-destination.ts:57-61 | Segments that are neither empty nor dots all survive the parser and the filter, in place. |
| Segments.OthersVanish | backend/src/backup/host-backup-destination.ts:57-61 | No more than those survive. |
| DestinationRoundTrip.DotsAreRemoved | backend/src/backup/host-backup-destination.ts:57 | A dot segment vanishes; two dots take the segment before them along. |
| DestinationRoundTrip.TrimSlashesEffect | backend/src/backup/host-backup-destination.ts:38 | Of the trimmed text exactly the slashes at its ends are dropped. |
| DestinationRoundTrip.TrimSlashesIsStableIff | backend/src/backup/host-backup-destination.ts:38 | Trimming slashes again changes nothing if and only if the first time laid no blank bare. |
| DestinationUrl.ReadDestinationUrl | backend/src/backup/host-backup-destination.ts:49-66 | The parser with its rebound locals and shifted segments computes the specification. |
| DestinationRoundTrip.UserReadsBackIff | backend/src/backup/host-backup-destination.ts:42-56 | Domain and user read back if and only if neither holds a ';'. |
| DestinationRoundTrip.PathReadsBackIff | backend/src/backup/host-backup-destination.ts:57-61 | A path reads back if and only if it is empty or all its segments are proper. |
| DestinationRoundTrip.ShareReadsBackIff | backend/src/backup/host-backup-destination.ts:57-61 | An SMB share and path read back if and only if the share is one proper segment and the path's are proper, or both are empty. |
| DestinationRoundTrip.MissingShareTakesThePath | backend/src/backup/host-backup-destination.ts:44-58 | Without a share, the path's first segment comes back as the share, for every proper path. |
| DestinationParsing.PathGivesTheShare | backend/src/backup/host-backup-destination.ts:37-66 | For every SMB destination with a proper path and no share (plain host, valid port): the URL that is built reads back with the path's first segment as its share and the rest as its path. |
| DestinationParsing.FolderComesBackAsShare | backend/src/backup/host-backup-destination.ts:37-66 | An input: path a/b on no share comes back as folder b on share a. |
| DestinationParsing.DotsOfEncoded | backend/src/backup/host-backup-destination.ts:45 | Percent-encoding makes no dot segment and hides none. |
| DestinationParsing.UrlReadsBack | backend/src/backup/host-backup-destination.ts:46-50 | The URL parser splits the URL where it was put together, whatever user, password and path hold. |
| DestinationParsing.SchemeIsFirst | backend/src/backup/host-backup-destination.ts:41 | The URL starts with smb, sftp, webdavs or webdav by kind and secure flag. |
| DestinationParsing.UrlOfAShare | backend/src/backup/host-backup-destination.ts:40-47 | A destination with a domain, a port, a share and a blank in its path, and its URL. |
| DestinationParsing.DestinationReadsBackAs | backend/src/backup/host-backup-destination.ts:40-66 | Type, host, port, secure flag and password always read back; user and path as their own statements say; parsing never throws. |
| DestinationParsing.DestinationRoundTripsIff | backend/src/backup/host-backup-destination.ts:40-66 | For a plain host and a valid port: parsing the built URL gives the destination in normal form if and only if user and domain hold no ';', path segments are proper, and an SMB share is one proper segment or absent along with the path. |
| ConversationFocus.ConversationFocusService.SetFocus | backend/src/chats/conversation-focus.service.ts:71-76 | The satellite's cell gets the focus with its clamped lifetime; every other cell is unchanged. |
| ConversationFocus.ConversationFocusService.ClearFocus | backend/src/chats/conversation-focus.service.ts:78-81 | A focus that is there, expired or not, ends now; every other cell is unchanged. |
| ConversationFocus.ConversationFocusService.Get | backend/src/chats/conversation-focus.service.ts:84-95 | The answer, and the lazy eviction of an expired focus. |
| ConversationFocus.ConversationFocusService.FreshSince | backend/src/chats/conversation-focus.service.ts:101-105 | When the last focus ended, after turning an expired focus into an end. |
| ConversationFocus.ConversationFocusService.List | backend/src/chats/conversation-focus.service.ts:107-114 | The user's own unexpired foci and no others; the expired ones met are evicted. |
| ConversationFocus.MineAreTheUsersKeys | backend/src/chats/conversation-focus.service.ts:108-111 | The keys filtered by prefix are exactly the user's, and cutting the prefix gives the satellite back. |
| ConversationFocus.UsersDoNotShare | backend/src/chats/conversation-focus.service.ts:124-125 | Two users without a line break in their ids never share a key. |
| ConversationFocus.LazyAnswersLikeEager | backend/src/chats/conversation-focus.service.ts:84-105 | Under a non-decreasing clock lazy expiry answers as if foci ended exactly at their expiry; when none is active, freshSince is at least the eager end time, and equal unless clear met an expired focus not yet evicted. |
| ConversationFocus.FocusLasts | backend/src/chats/conversation-focus.service.ts:71-95 | A focus is answered until its lifetime, at least a second and at most an hour, is over, and has ended at that moment. |
| ConversationFocus.ClearEndsNow | backend/src/chats/conversation-focus.service.ts:78-81 | A focus cleared ends at that moment; clearing where there is none ends nothing. |
| ConversationFocus.FreshSinceNeverDecreases | backend/src/chats/conversation-focus.service.ts:101-105 | The time an unfocused turn starts fresh after never goes back. |

## Left out

- DaemonSystem.ReachableStatesAreSound: each handler is one atomic step, because the awaits inside `doStart` and `autoRestart` make the finer claims false, as `DaemonGuarantees.RaceRevivesStopped` shows; no other finer interleaving is explored.
- One clock serves both daemon nodes; the executor's `started_at` and the backend's `Date.now()` are not allowed to drift.
- Daemon rows carry status, pid and start time only: `lastError`, `lastEventAt`, owner checks, audit and event payloads are not modelled, nor the check for one active daemon per user, skill and script, which `restart` does not keep.
- `onModuleDestroy`, the SIGKILL grace timer and the executor's environment, paths and stdin are not modelled; a process that was signalled may end at any later time or never.
- The content of exit reports other than the daemon's id is not modelled; `DaemonManager.DaemonEntry.PushTail` covers the tail they carry.
- Strings are sequences of Unicode scalar values: JavaScript's UTF-16 lengths and slices, lone surrogates and the error `encodeURIComponent` raises on them are not modelled.
- Replay.BuildHistory: attachment annotations of user messages, reasoning placeholders and the text-only mode of a turn are not part of it, because they only extend a text; stored content stands for the annotated content.
- `trimMessages` is modelled by its contract: a suffix that is empty or starts on a human message.
- The agent loop is modelled by its contract: what it appends obeys the tool-call protocol.
- ToolMedia.ToolMediaModifier: the parts of one file are a function of the file, given in `MediaParts` for images; the texts of transcripts and text files, and how a size or a failure is worded, are parameters; the promise cache of `tool-media.ts`, files that change meanwhile, and `path` are not modelled.
- ToolSelectionService.Service.SelectByRag: a selection is one atomic step, because the await for the batch makes the finer claim false, as `CacheRaces` shows of the cache; the fallback of a selection whose vectors were dropped meanwhile is not modelled.
- The summarizer and the embedding model are contracts: one answer or a failure per call, and exactly one vector per text, under the identity asked for just before.
- Compaction.ChatRows.CompactHistory: the percentage is an exact fraction of 100, so `floor(max * pct)` is computed without floating-point rounding.
- StreamedArgs.ToolArgs.TakeToolArgs: JSON printing and parsing are not modelled; tool inputs, outputs and token weights take the printed text as given, and a streamed input is its text before `JSON.parse`.
- StreamedArgs.ToolArgs.ReadStream: the stream is read for a caller that asks for tool results; without that callback nothing is taken.
- SearchMerge.MergeSearchHits: similarities and search scores are reals; NaN and infinities do not occur.
- Tools are name, description and field names: description compression, deferred format and prompt catalogues' wording are not modelled.
- The vector search of one scope is a contract: its `limit` best documents by score, ids unique in the scope.
- DestinationParsing.UrlReadsBack: the platform's URL parser is modelled for printable ASCII texts with an authority; removal of control characters, bracketed IPv6 hosts and other forms of URL are not modelled.
- `describeDestination`, `destinationFields` and `toRcloneEnv` only rearrange the parsed destination.
- A destination's port is a natural number, 0 standing for none; other numbers make the URL constructor throw or are cut by it.
- SQL policy, host guards, broker flags and authorization, controllers, modules, entities, the frontend, and the cron, OCR, speech and bridge services are not modelled.
- ChunkWindows.SplitIntoChunks: the size is a natural number and overlap an integer; fractional settings are not modelled.
