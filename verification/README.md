# HiveRunner verification

A Dafny model of the parts of HiveRunner whose correctness rests on an argument rather than on a single
function body, with proofs about every input and every run. `dafny verify dfyconfig.toml` checks the whole project.

| files | what they model |
|---|---|
| `WorkspacePaths`, `WorkspaceRewrite`, `RewriteLimits`, `JsonRewrite`, `FixtureRewrite` | moving a benchmark fixture to new workspace roots: POSIX paths, bundled runner commands, JSON trees |
| `RunnerRoutes`, `LaneRoutes` | restricting agents, runtimes and hive lanes of the fixture to allowed providers |
| `SprintClosure`, `TaskReset` | collecting the sprints under a goal, and resetting the selected tasks |
| `OrphanCleanup` | cancelling orphaned and leaked runs while writing the statements that undo it |
| `ActionBlocks`, `WrittenBlocks`, `LiveStream` | finding fenced action blocks in streamed text, what they are in terms of how the text was written, and announcing each once |
| `Playback` (with the module `EchoGuard`), `ToolCalls` | the voice session: playback ring buffer, echo guard, tool calls and cancellations |
| `ActivityStream`, `EventPolling` | live activity with bounded history, and cursor-based delivery |
| `VideoTimestamps`, `IdeasRecords`, `IdeasStore`, `IdeasIds`, `IdeasFixpoint`, `IdeasIntake`, `IdeasRuns` | the ideas store: timestamp labels, records and columns, the write-back of a read, the id of a new review, all runs |
| `WavAudio` | the WAV encoder (section "Waveform Audio File Format (WAVE)", chapter 3 of Multimedia Programming Interface and Data Specifications 1.0) and the buffer that feeds the avatar |
| `ConversationFlow`, `ProxyRoutes`, `RouteMaps` | merging transcript and tool events; company redirects and the maps they read |
| `Text`, `Json` | strings and JSON values |

Code that updates tables, buffers or refs is a class whose methods are proved equal to a specification function;
the lemmas then speak of that function over whole runs. A run is a sequence of operations, so every interleaving is covered.

## Where the code does not do what one would expect

Each of these is proved. Where the statement says if and only if, it gives the exact condition under which the
code does meet the expectation.

- A path whose component just below a previous root begins with two dots (`..cache`) is not moved, because the script
  tests `path.relative` for the text `..`; and the arguments of a bundled runner command may climb out of the new root
  and back into an old one (`RewriteLimits.StaleExactly`, witnesses `FixtureRewrite.DotDotChildStays` and
  `FixtureRewrite.ClimbingArgument`). For such a command a second pass is not a no-op (`JsonRewrite.SecondPassExactly`).
- An object that is rebuilt loses a key `__proto__` (`JsonRewrite.ShapeKeptExactly`).
- The sweep of silent agents drops their text but not their block counter, so later blocks go unannounced
  (`LiveStream.SweepLosesActions`); blocks that only a final text brings go unannounced until a delta scans it, and a
  text that replaces another is announced from the old counter on (`LiveStream.ReplacedExactly`).
- A fixture whose companies have no agents keeps runtimes on forbidden providers
  (`RunnerRoutes.FixtureTables.SanitizeRoutes`).
- A task without a key is listed under its id but never reset (`TaskReset.GoalResetExactly`).
- A running run that already names the missing anchor task becomes a leaked run when the anchor is created
  (`OrphanCleanup.LeakedLeftExactly`).
- A repeated call id, or a teardown, makes the session answer a tool call that was cancelled
  (`ToolCalls.EndAnsweredExactly`, witnesses `ToolCalls.RepeatedIdAnswersCancelled` and
  `ToolCalls.ReconnectForgetsCancellation`).
- Writing back what was read can change a stored URL or label in three ways: a label of 100 hours or more is lost unless
  the URL repeats it; a malformed URL grows with every write that has a time; and a URL that the library spells
  otherwise, written without a label, is kept by the first write and respelled by the second
  (`VideoTimestamps.StoredTextStableExactly`, `VideoTimestamps.MalformedKeptExactly`, `VideoTimestamps.RespelledBySecond`).
  Nothing else that a read returns changes but `last_updated` (`IdeasRuns.EveryRunReadsBack`).
- A write loses a key `__proto__` of a review or takeaway (`IdeasRecords.OnlyProtoLost`).
- A write that hands in a lower counter than a read answers can lower it (`IdeasIds.WriteLowersExactly`); without
  such writes no id is given twice (`IdeasRuns.IdsNeverReused`).
- A row is lost when the cursor passes it unsent: because it is beyond a query's limit of 50, or because it becomes
  visible only when the cursor has already reached its time (`EventPolling.DeliveredExactly`, witnesses
  `EventPolling.CrowdLosesOne` and `EventPolling.LateRowLost`).
- Without a company in the tables, an alias that gives another code to a static slug breaks the static maps
  (`RouteMaps.StaticInverseExactly`).
- More than ten seconds of unread audio overwrite themselves (`Playback.HeardExactly`).
- A WAV header overflows from 2^32 bytes on (`WavAudio.DecodesExactly`).

## Model

| member | source | states |
|---|---|---|
| WorkspacePaths.RelativeTest | scripts/prepare-exec-dev-benchmark.ts:566-571 | the text test on `path.relative` succeeds exactly when the path lies under the root and the component just below it does not begin with two dots |
| WorkspacePaths.ReplaceFirstPrefixMoves | scripts/prepare-exec-dev-benchmark.ts:563-574 | the first matching root decides: exactly the part below it is moved under the new root, and a string that no root matches is left alone |
| WorkspacePaths.WalkLands | scripts/prepare-exec-dev-benchmark.ts:583 | walking any components, `..` included, is climbing some levels from the start and then going down: the reading of `path.join` and `path.resolve` that the climbing results rest on |
| WorkspaceRewrite.RelocateSpec | scripts/prepare-exec-dev-benchmark.ts:930-940 | the two replacements together leave no matched absolute string under any previous root, and every other string unchanged |
| WorkspaceRewrite.RelocateLands | scripts/prepare-exec-dev-benchmark.ts:930-941 | where a matched string lands: the part below the first matching previous source root under the source root; if no source root matches, the part below the first matching previous company root under the company root |
| WorkspaceRewrite.RunnerLands | scripts/prepare-exec-dev-benchmark.ts:576-584 | a rewritten bundled command, read as a path, starts in the new `scripts` directory and moves as its arguments say |
| WorkspaceRewrite.RunnerWords | scripts/prepare-exec-dev-benchmark.ts:576-584 | the words of a rewritten command: the script of the same name in the new `scripts` directory, then the arguments it had |
| WorkspaceRewrite.RunnerRewriteStable | scripts/prepare-exec-dev-benchmark.ts:576-584 | with a source root free of white space, a rewritten command is recognised again and rewritten to itself |
| RewriteLimits.PathClimbsOnce | scripts/prepare-exec-dev-benchmark.ts:576-584 | a resolved path taken as a bundled command, whatever spaces its segments hold, never climbs two levels: word splitting cannot create a `..` between slashes |
| RewriteLimits.MatchedLeaves | scripts/prepare-exec-dev-benchmark.ts:930-942 | a string that a previous root matches ends under no previous root, whatever its segments look like as a command |
| RewriteLimits.HitChanges | scripts/prepare-exec-dev-benchmark.ts:930-942 | a path that a previous root matches never comes out of the whole rewrite unchanged |
| RewriteLimits.StaleExactly | scripts/prepare-exec-dev-benchmark.ts:930-942 | if and only if, told from the input alone: a rewritten string still lies under a previous root exactly when no root matched it and it is a bundled command whose arguments climb back into one, or a path that enters one only through a component beginning with two dots |
| RewriteLimits.RewriteStringStable | scripts/prepare-exec-dev-benchmark.ts:930-942 | if and only if, told from the input alone: a rewritten string is a fixed point exactly when it was not an unmatched bundled command whose arguments climb back to a place that is moved |
| RewriteLimits.MovesAgainKeeps | scripts/prepare-exec-dev-benchmark.ts:930-942 | only a string left under a previous root can move on a second pass |
| JsonRewrite.ChangedExactly | scripts/prepare-exec-dev-benchmark.ts:944-981 | `changed` is reported exactly when the tree differs |
| JsonRewrite.StringsRewritten | scripts/prepare-exec-dev-benchmark.ts:535-541 | the strings of the result are, in order, the rewrites of the strings that survive; an unchanged tree holds only fixed strings |
| JsonRewrite.SurvivingAmong | scripts/prepare-exec-dev-benchmark.ts:957-969 | no string is gained, and a tree without the key `__proto__` loses none |
| JsonRewrite.ShapeKeptExactly | scripts/prepare-exec-dev-benchmark.ts:944-981 | if and only if: keys, array lengths and scalars survive exactly when no rebuilt object has the key `__proto__` |
| JsonRewrite.OldRootsLeftExactly | scripts/prepare-exec-dev-benchmark.ts:930-981 | if and only if: one pass leaves a string under a previous root exactly when a surviving string is of one of the two kinds of `StaleExactly` |
| JsonRewrite.SecondPassExactly | scripts/prepare-exec-dev-benchmark.ts:930-981 | if and only if: a second pass is a no-op that reports no change exactly when no surviving string is a command that moves again |
| FixtureRewrite.FixtureMoved | scripts/prepare-exec-dev-benchmark.ts:1160-1175 | for the context the script builds, which drops previous roots equal to the new ones: without strings of the two kinds, nothing stays under a listed root and a second pass is a no-op |
| FixtureRewrite.DotDotChildStays | scripts/prepare-exec-dev-benchmark.ts:566-571 | witness: a directory `..cache` under the only previous root keeps its old path |
| FixtureRewrite.ClimbingArgument | scripts/prepare-exec-dev-benchmark.ts:576-584 | witness: a bundled command with the argument `a/../../../old/y` is left under the old root by the first pass and moved by the second |
| RunnerRoutes.NameNormalizes | scripts/prepare-exec-dev-benchmark.ts:57-66 | the canonical name of every provider normalises to that provider and to no other |
| RunnerRoutes.VendorsNormalize | scripts/prepare-exec-dev-benchmark.ts:57-66 | a name that holds `claude`, `google` or `openai`, in either case and whatever surrounds it, stands for anthropic, gemini or codex, unless an earlier rule applies |
| RunnerRoutes.FixtureTables.SanitizeRuntime | scripts/prepare-exec-dev-benchmark.ts:868-891 | one row: deleted exactly when another row has the key it would get, else rerouted; the unique key (src/lib/orchestration/db.ts:1554) holds after the step |
| RunnerRoutes.FixtureTables.SanitizeRuntimes | scripts/prepare-exec-dev-benchmark.ts:843-891 | the whole loop keeps the unique key at every step, settles every row, and updated plus deleted is the number of disallowed rows |
| RunnerRoutes.FixtureTables.SanitizeAgents | scripts/prepare-exec-dev-benchmark.ts:817-837 | exactly the agents with a disallowed adapter or a forbidden model are rerouted, and both counts are exact |
| RunnerRoutes.FixtureTables.SanitizeRoutes | scripts/prepare-exec-dev-benchmark.ts:780-893 | the whole function with its early return: every fixture runtime ends allowed if and only if the companies have an agent or nothing was disallowed |
| RunnerRoutes.SettledSurvive | scripts/prepare-exec-dev-benchmark.ts:868-891 | rows settled earlier stay settled when a later row is deleted or renamed |
| RunnerRoutes.SanitizedAllAllowed | scripts/prepare-exec-dev-benchmark.ts:868-891 | every runtime of the fixture companies ends on an allowed provider |
| RunnerRoutes.AgentsAllAllowed | scripts/prepare-exec-dev-benchmark.ts:817-837 | every agent ends on an allowed adapter without a model of a forbidden provider |
| RunnerRoutes.RuntimeColumns | scripts/prepare-exec-dev-benchmark.ts:868-891 | every runtime column by column: a disallowed one that stays has the preferred provider, status online, the given command and workspace or else its own, and its company and slug; one that goes has a row of its company and slug on the preferred provider; all others stay as they are |
| RunnerRoutes.AgentColumns | scripts/prepare-exec-dev-benchmark.ts:817-837 | every agent column by column: a rerouted one has the preferred adapter, no model and its company; all others stay as they are |
| RunnerRoutes.CountedAgents | scripts/prepare-exec-dev-benchmark.ts:823-836 | if and only if: which agents the two counts count, told from their columns |
| RunnerRoutes.SlugsSurvive | scripts/prepare-exec-dev-benchmark.ts:868-891 | every company and slug that had a runtime still has one, and exactly one on the preferred provider if a disallowed one was there |
| RunnerRoutes.OthersUntouched | scripts/prepare-exec-dev-benchmark.ts:843-848 | runtimes of other companies are unchanged, and a second pass changes nothing |
| LaneRoutes.SanitizeLanes | scripts/prepare-exec-dev-benchmark.ts:643-691 | rejects what is no JSON array; else `changed` holds exactly when the lanes differ, and both counts are exact: fallbacks before minus fallbacks after were dropped |
| LaneRoutes.SanitizeLane | scripts/prepare-exec-dev-benchmark.ts:660-683 | one lane: `changed` holds exactly when the lane differs |
| LaneRoutes.TargetForProvider | scripts/prepare-exec-dev-benchmark.ts:621-641 | the target written for a provider is read back as that provider |
| LaneRoutes.NextLanePermitted | scripts/prepare-exec-dev-benchmark.ts:660-683 | every lane ends with an allowed primary route and a list of allowed fallbacks |
| LaneRoutes.LaneChangedExactly | scripts/prepare-exec-dev-benchmark.ts:660-683 | a lane changes exactly when something in it was not allowed, and a second pass changes nothing |
| LaneRoutes.LaneKeeps | scripts/prepare-exec-dev-benchmark.ts:660-683 | other fields, an allowed primary route, and the allowed fallbacks in order are kept |
| LaneRoutes.LaneColumns | scripts/prepare-exec-dev-benchmark.ts:655-678 | every field of a lane: primary as it was if allowed, else the preferred target; fallbacks the list of the allowed ones; any other as it was |
| LaneRoutes.TargetColumns | scripts/prepare-exec-dev-benchmark.ts:633-642 | the target that is written for a provider, field by field |
| LaneRoutes.TargetReads | scripts/prepare-exec-dev-benchmark.ts:621-631 | which field names a target's provider: the first of runtimeId, runtimeLabel, modelSourceId and modelSourceLabel that names any |
| LaneRoutes.KeptExact | scripts/prepare-exec-dev-benchmark.ts:671-677 | the kept fallbacks are exactly the allowed ones, and all are kept exactly when all are allowed |
| SprintClosure.GroupByParent | scripts/prepare-exec-dev-benchmark.ts:209-215 | every parent is mapped to its children in row order; rows without a parent id are ignored |
| SprintClosure.CollectChildSprintIds | scripts/prepare-exec-dev-benchmark.ts:208-226 | ends on every row list, cycles included; the root comes first, no id twice, and an id is listed if and only if a walk through parent pointers reaches it |
| SprintClosure.ClosedHoldsDescent | scripts/prepare-exec-dev-benchmark.ts:217-225 | what holds the root and is closed under children holds everything reachable |
| TaskReset.Database.ResetSelectedTasks | scripts/prepare-exec-dev-benchmark.ts:268-319 | the statements in their order equal the simultaneous reset of every table, with the agents read before tasks are reassigned |
| TaskReset.Database.ResetArtifacts | scripts/prepare-exec-dev-benchmark.ts:321-331 | the six table resets, the two wakeup statements one after the other |
| TaskReset.Database.ReassignSelected | scripts/prepare-exec-dev-benchmark.ts:311-318 | exactly the selected tasks get their first eligible agent |
| TaskReset.RestartKeepsScope | scripts/prepare-exec-dev-benchmark.ts:285-309 | restarting tasks changes neither which tasks are selected nor their agents |
| TaskReset.ResetQuiets | scripts/prepare-exec-dev-benchmark.ts:350-501 | nothing live is left: no waiting wakeup, no queued, running or failed heartbeat (both also for the agents), no unfinished run, no open approval, no worker on a selected task |
| TaskReset.ScopeHolds | scripts/prepare-exec-dev-benchmark.ts:268-309 | if and only if: which tasks, keys and agents a reset covers |
| TaskReset.TaskColumns | scripts/prepare-exec-dev-benchmark.ts:271-319 | a selected task ends to-do, without times, session, blocked reason or idle count, with its first eligible agent if it has one; every other stays as it is |
| TaskReset.ApprovalColumns | scripts/prepare-exec-dev-benchmark.ts:380-404 | an undecided approval of a selected task ends cancelled, keeping or getting a note and a decision date; every other stays as it is |
| TaskReset.WakeupColumns | scripts/prepare-exec-dev-benchmark.ts:352-377 | a waiting wakeup of the selection ends failed and dated, one that names a selected task loses its key, every other stays as it is |
| TaskReset.NamesTaskExactly | scripts/prepare-exec-dev-benchmark.ts:343-350 | if and only if: a wakeup names a selected task by its payload or by a key that holds the task's id anywhere, ASCII letters in either case |
| TaskReset.HeartbeatColumns | scripts/prepare-exec-dev-benchmark.ts:407-439 | a queued, running or failed heartbeat of the selection ends cancelled and dated, with an error; every other stays as it is |
| TaskReset.ExecutionColumns | scripts/prepare-exec-dev-benchmark.ts:441-470 | a run of a selected task loses key and process, and ends cancelled and dated if it was unfinished; every other stays as it is |
| TaskReset.SessionColumns | scripts/prepare-exec-dev-benchmark.ts:472-488 | a session of a selected key ends with empty parameters and no display id, last run or last error; every other stays as it is |
| TaskReset.WorkerColumns | scripts/prepare-exec-dev-benchmark.ts:490-501 | an agent working on a selected task ends without one; every other stays as it is |
| TaskReset.WakeupsQuiet | scripts/prepare-exec-dev-benchmark.ts:350-377 | after both statements no waiting wakeup names a selected task, in its payload or by a LIKE match of its key, or belongs to a selected agent |
| TaskReset.ScopeAgain | scripts/prepare-exec-dev-benchmark.ts:304-318 | a reset selects the same tasks again and no agent that it did not cover, although it reassigns tasks |
| TaskReset.SecondResetOnlyStamps | scripts/prepare-exec-dev-benchmark.ts:268-501 | a second reset, at any later time, changes only `updated_at` |
| TaskReset.TasksTwice | scripts/prepare-exec-dev-benchmark.ts:268-318 | the same for tasks: restart and reassignment together are idempotent up to the stamp |
| TaskReset.WakeupsTwice | scripts/prepare-exec-dev-benchmark.ts:350-377 | the same for wakeups, with any smaller set of agents |
| TaskReset.UnrelatedKept | scripts/prepare-exec-dev-benchmark.ts:268-501 | rows outside the selection are unchanged in all seven tables, and runs that had ended keep status and completion time |
| TaskReset.GoalResetExactly | scripts/prepare-exec-dev-benchmark.ts:236-283 | if and only if: selecting a whole goal resets a task of it exactly when the task has a key |
| OrphanCleanup.Cleanup.Apply | scripts/execution-runs-orphan-cleanup.ts:85-103 | the tables after an apply, and replaying the statements it wrote gives back the tables before it, anchors present or not |
| OrphanCleanup.Cleanup.EnsureAnchorTask | scripts/execution-runs-orphan-cleanup.ts:34-78 | adds the missing anchors, and its reverse statements remove exactly those |
| OrphanCleanup.Cleanup.CancelRun | scripts/execution-runs-orphan-cleanup.ts:141-156 | cancelling a run and recording its old columns leaves the replayed tables as they were |
| OrphanCleanup.Cleanup.CancelAll | scripts/execution-runs-orphan-cleanup.ts:158-172 | the same over a whole loop, in any row order |
| OrphanCleanup.ReplayAround | scripts/execution-runs-orphan-cleanup.ts:141-172 | statements that do not touch a run replay alike around any value of it |
| OrphanCleanup.RestoreUndoes | scripts/execution-runs-orphan-cleanup.ts:142-155 | appending the restore statement of a run undoes any later value of its columns |
| OrphanCleanup.AnchorUndone | scripts/execution-runs-orphan-cleanup.ts:38-77 | deleting the created anchors in the recorded order restores both tables |
| OrphanCleanup.OrphansGone | scripts/execution-runs-orphan-cleanup.ts:141-156 | no taskless run is left |
| OrphanCleanup.OthersKept | scripts/execution-runs-orphan-cleanup.ts:141-172 | exactly the taskless and leaked runs are touched: they end cancelled, dated and without a process, keeping completion time, error and failure class they had; other rows of all tables stay |
| OrphanCleanup.RunColumns | scripts/execution-runs-orphan-cleanup.ts:76-172 | if and only if, told from the rows alone: a run with a task changes exactly when it is running and its task exists and is done, cancelled, blocked, backlog or to-do; it ends cancelled as a run without a task does, which also gets the anchor task |
| OrphanCleanup.AnchorRows | scripts/execution-runs-orphan-cleanup.ts:35-82 | the anchor project and task are added exactly when a run has no task and they are missing, and no other row is |
| OrphanCleanup.LeakedLeftExactly | scripts/execution-runs-orphan-cleanup.ts:94-103 | if and only if: a running run on an inactive task is left exactly when the anchor was created under a running run that already named it |
| OrphanCleanup.CleanAfterApply | scripts/execution-runs-orphan-cleanup.ts:83-174 | with foreign keys intact no taskless and no leaked run is left, and they stay intact |
| OrphanCleanup.SecondApplyExactly | scripts/execution-runs-orphan-cleanup.ts:136-174 | if and only if: a second apply changes no row exactly when the first left no leaked run |
| OrphanCleanup.LiteralReadsBack | scripts/execution-runs-orphan-cleanup.ts:23-26 | whatever a column holds, quotes included, SQL reads the written literal back as that value and stops at its end |
| ActionBlocks.NoMatchBefore | src/hooks/useLiveRunStream.ts:109 | an opening before a match that does not match itself never matches in a longer text |
| ActionBlocks.NextMatchInExtension | src/hooks/useLiveRunStream.ts:133 | the next match stays the next match when the text grows |
| ActionBlocks.BlocksStable | src/hooks/useLiveRunStream.ts:109-133 | the complete blocks of a prefix are a prefix of the blocks of every extension |
| WrittenBlocks.FirstBlock | src/hooks/useLiveRunStream.ts:109-138 | a block that is written, whatever its info line, preceded by any text without an opening and followed by anything, is found with its body |
| WrittenBlocks.WrittenBlocksFound | src/hooks/useLiveRunStream.ts:109-138 | round trip: blocks that are written are found, each with its body, in order, before the blocks of the rest |
| WrittenBlocks.BlocksExactly | src/hooks/useLiveRunStream.ts:109-138 | if and only if: the scan of any text answers these bodies exactly when the text is written as blocks with these bodies, text without an opening in between, and a rest without a complete block |
| LiveStream.DetectActions | src/hooks/useLiveRunStream.ts:123-166 | the scan with its counter announces exactly the blocks beyond the counter, in order, and counts all |
| LiveStream.LiveRunStream.HandleEvent | src/hooks/useLiveRunStream.ts:441-458 | one event: the new state, the new counter and the announced actions |
| LiveStream.EventColumns | src/hooks/useLiveRunStream.ts:228-330 | what an event makes of its agent's text, run id, activity, streaming flag and time |
| LiveStream.LiveRunStream.SweepStale | src/hooks/useLiveRunStream.ts:463-480 | agents silent for more than three minutes lose their state, and only that |
| LiveStream.StepAnnouncesRest | src/hooks/useLiveRunStream.ts:271-300 | one input: what was announced so far followed by what it announces is one scan of the new text |
| LiveStream.EachActionOnce | src/hooks/useLiveRunStream.ts:371-411 | over every run that lengthens an agent's text, other agents and event kinds interleaved, its actions are those of one scan of the whole text, each once and in order |
| LiveStream.StartInStep | src/hooks/useLiveRunStream.ts:316-324 | a lifecycle start brings text and counter in step, from any state |
| LiveStream.AnySplit | src/hooks/useLiveRunStream.ts:271-324 | after a start, every split of every text into deltas announces exactly the actions of the whole text |
| LiveStream.WrittenActionsAnnounced | src/hooks/useLiveRunStream.ts:271-324 | after a start, a message written with blocks of given bodies announces exactly these, each once and in order, however it is split into deltas |
| LiveStream.RunFromAny | src/hooks/useLiveRunStream.ts:271-300 | from any state, a run that lengthens the text announces exactly the blocks beyond the counter it began with, if it scans at all |
| LiveStream.ReplacedExactly | src/hooks/useLiveRunStream.ts:271-306 | if and only if: after a snapshot or a final text replaced the streamed text by any other, everything announced is again one scan of the whole text exactly when the new announcements begin with the old ones and some delta scanned since, or nothing is new |
| LiveStream.AheadSkips | src/hooks/useLiveRunStream.ts:271-300 | with a counter ahead of the text a run announces only the blocks beyond the counter |
| LiveStream.SweepLosesActions | src/hooks/useLiveRunStream.ts:463-480 | if and only if: after a sweep an agent's later blocks are all announced exactly when none was counted before or none completes |
| LiveStream.EventsExact | src/hooks/useLiveRunStream.ts:271-411 | over every run without a sweep of the agent, its event list is the last twenty of everything that happened: each announced action and each other event, once and in order |
| Playback.PlaybackProcessor.Write | src/hooks/useVoiceSession.ts:255-267 | writing appends to what the buffer stands for |
| Playback.PlaybackProcessor.Clear | src/hooks/useVoiceSession.ts:256-260 | clearing empties it |
| Playback.PlaybackProcessor.Process | src/hooks/useVoiceSession.ts:270-288 | one quantum: the samples that the ring holds at the read position, then silence, and the reset of a drained buffer |
| Playback.StepRefines | src/hooks/useVoiceSession.ts:255-288 | with at most 240000 unread samples when it plays, every operation does to the buffer what it does to an unbounded queue padded with silence |
| Playback.RingRefinesQueue | src/hooks/useVoiceSession.ts:245-291 | the same over every interleaving of writes, clears and quanta with at most 240000 unread samples at each quantum: what is heard is the same, so the position reset is invisible |
| Playback.OverflowSkips | src/hooks/useVoiceSession.ts:264 | above the bound it is not: the next sample played is one of the last ten seconds instead of the oldest |
| Playback.HeardExactly | src/hooks/useVoiceSession.ts:245-291 | if and only if: with no sample repeated, a run plays what the unbounded queue would play exactly when no more than 240000 samples are unread whenever it plays |
| Playback.PlayedInOrder | src/hooks/useVoiceSession.ts:255-288 | never starved and never cleared, what was played followed by what waits is what was written |
| EchoGuard.StepGuarded | src/hooks/useVoiceSession.ts:218-229 | one chunk or interrupt keeps the guard between the drain time and 180 ms per chunk above it |
| EchoGuard.AlwaysGuarded | src/hooks/useVoiceSession.ts:1480-1495 | over every sequence of chunks and interrupts the guard is never before the player runs dry, and at most 180 ms per chunk since the last interrupt later |
| EchoGuard.QuietFrameHeldBack | src/hooks/useVoiceSession.ts:1466-1474 | a microphone frame below the barge-in level is never sent while assistant audio is queued |
| EchoGuard.FrameSent | src/hooks/useVoiceSession.ts:1466-1474 | a frame that reaches the barge-in level of 0.24, or comes 180 ms per chunk after the player ran dry, is sent |
| ToolCalls.VoiceSession.AcceptToolIntent | src/hooks/useVoiceSession.ts:546-571 | up to its wait: what is recorded, logged and dispatched |
| ToolCalls.VoiceSession.SettleToolIntent | src/hooks/useVoiceSession.ts:581-619 | the rest: one terminal event |
| ToolCalls.VoiceSession.StartNativeCall | src/hooks/useVoiceSession.ts:622-655 | up to its wait: an unsupported tool is answered at once, a supported one gets a fresh controller and forgets an old cancellation |
| ToolCalls.VoiceSession.SettleNativeCall | src/hooks/useVoiceSession.ts:667-724 | the rest: one terminal event, and an answer unless cancelled or closed |
| ToolCalls.VoiceSession.CancelToolCalls | src/hooks/useVoiceSession.ts:1531-1539 | every id is marked and its controller, if any, aborted |
| ToolCalls.VoiceSession.TeardownSession | src/hooks/useVoiceSession.ts:934-989 | every controller is aborted, controllers and cancellations are forgotten and the socket is gone, while unsettled dispatches go on |
| ToolCalls.VoiceSession.Connect | src/hooks/useVoiceSession.ts:1105-1119 | the teardown, and fresh refs |
| ToolCalls.StepIntentOnce | src/hooks/useVoiceSession.ts:546-620 | one step of any kind keeps: an intent never accepted has no event, a waiting one was dispatched once, a settled one has one terminal event |
| ToolCalls.IntentsOnce | src/hooks/useVoiceSession.ts:546-620 | over every interleaving in one session each intent id is dispatched at most once and settles with exactly one terminal event |
| ToolCalls.StepLive | src/hooks/useVoiceSession.ts:622-724 | one step of any kind answers and logs a call as its own steps tell |
| ToolCalls.CallAnsweredAsExpected | src/hooks/useVoiceSession.ts:622-724 | over every interleaving in which an id is called once, teardowns and reconnects included: one tool response exactly when at its end the socket is open and no cancellation came since its start or the last teardown, and none otherwise |
| ToolCalls.AnsweredOnce | src/hooks/useVoiceSession.ts:622-724 | in every run of a session an id that is called once is answered once if its own steps say so, and else never |
| ToolCalls.SessionLogsOnce | src/hooks/useVoiceSession.ts:651-711 | in the event log of every session run, a supported call has one dispatch, and one terminal event as soon as it no longer waits |
| ToolCalls.CancelledNeverAnswered | src/hooks/useVoiceSession.ts:716-718 | in every session run, a call that waits when it is cancelled is never answered, whatever else follows before a teardown |
| ToolCalls.CancelledIsMuted | src/hooks/useVoiceSession.ts:648-724 | over every run, repeated ids included: an id counts as cancelled exactly when a cancellation of it was not followed by a supported call of it or a teardown |
| ToolCalls.EndAnsweredExactly | src/hooks/useVoiceSession.ts:622-724 | if and only if, over every run, repeated ids included: a call that ends is answered exactly when the socket is open and its id is not held back by such a cancellation |
| ToolCalls.EndLoggedExactly | src/hooks/useVoiceSession.ts:651-714 | over every run that makes no call with its id while one waits: a success is logged as completed, a failure as an error, a refusal as a rejection, and a throw as a rejection if and only if a cancellation or a teardown came since the call |
| ToolCalls.IntentLoggedExactly | src/hooks/useVoiceSession.ts:566-619 | over every run: an accepted intent is logged as completed, rejected or as an error as its result says, a throw as an error |
| ToolCalls.RepeatedIdAnswersCancelled | src/hooks/useVoiceSession.ts:648-649 | witness: with a repeated id the second call clears the first one's cancellation, and the first is answered |
| ToolCalls.ReconnectForgetsCancellation | src/hooks/useVoiceSession.ts:1117-1119 | witness: a cancelled call that settles after a reconnect is answered on the new socket |
| ActivityStream.Stream.PushEvent | src/lib/activity-stream.ts:29-50 | appends, drops the first of 201, stamps, and delivers to every subscriber that does not throw |
| ActivityStream.Stream.Notify | src/lib/activity-stream.ts:38-49 | subscribers that throw are dropped while the loop goes on, and every other gets the event |
| ActivityStream.Stream.SubscribeTo | src/lib/activity-stream.ts:61-66 | adds one subscriber |
| ActivityStream.Stream.UnsubscribeFrom | src/lib/activity-stream.ts:67-70 | removes one subscriber, and the task's entry with its last |
| ActivityStream.Stream.ConnectTo | src/app/api/tasks/activity/stream/route.ts:20-28 | the burst of the last fifty stored events, then the subscription |
| ActivityStream.Stream.ActiveTaskIds | src/lib/activity-stream.ts:73-87 | answers the tasks left after removing every expired one from all three maps |
| ActivityStream.StoredIsLastPushed | src/lib/activity-stream.ts:29-35 | every operation of every run keeps the stored history equal to the last 200 pushed |
| ActivityStream.HistoryExact | src/lib/activity-stream.ts:16-87 | in every run the stored events are exactly the last 200 pushed since the last expiry, and history and activity have the same tasks |
| ActivityStream.StepReceived | src/lib/activity-stream.ts:29-87 | one operation delivers to a subscriber exactly what it should |
| ActivityStream.SubscribersExact | src/lib/activity-stream.ts:29-87 | in every run a subscriber gets of its task exactly the events pushed while it is subscribed (until its unsubscribe, the expiry or its first failure), once and in order |
| ActivityStream.NoGap | src/lib/activity-stream.ts:29-50 | while subscribed, what a client has stays a tail of everything pushed, never shorter than the burst allows |
| ActivityStream.ConnectedSeesTail | src/app/api/tasks/activity/stream/route.ts:20-28 | from its connect on a client holds the last events of its task, at least fifty or all there are, without a gap between burst and live events |
| VideoTimestamps.ParsePrint | src/lib/ideas-processing.ts:46-85 | the parser inverts the printer below 100 hours and rejects the printed form from 360000 seconds on |
| VideoTimestamps.PrintInjective | src/lib/ideas-processing.ts:76-85 | different times print differently, without bound |
| VideoTimestamps.PrintedNotCompact | src/lib/ideas-processing.ts:66-73 | no printed form is read as a compact one |
| VideoTimestamps.CompactReads | src/lib/ideas-processing.ts:66-73 | the compact form of any numerals for hours, minutes and seconds is read as their sum, unless that is zero |
| VideoTimestamps.SqueezeSkips | src/lib/ideas-processing.ts:66 | white space inside a compact form is passed over |
| VideoTimestamps.LabelStableExactly | src/lib/ideas-processing.ts:125-137 | if and only if: normalising a label again changes nothing exactly unless it is of 100 hours or more and the URL does not repeat it |
| VideoTimestamps.TimestampedSeconds | src/lib/ideas-processing.ts:101-118 | a time parameter that was added is read back as the label's time |
| VideoTimestamps.TimeKeyRead | src/lib/ideas-processing.ts:87-99 | the time of a URL with one time parameter, under any of the three names and wherever it stands, is what its value is read as |
| VideoTimestamps.TimeKeysInOrder | src/lib/ideas-processing.ts:90-93 | of several, `t` is read before `start`, and `start` before `time_continue` |
| VideoTimestamps.StoredStableExactly | src/lib/ideas-store.ts:435-441 | if and only if, for URLs once they are parsed (texts are the subject of `StoredTextStableExactly`): writing stored URL and label again changes neither, with that one exception, which a URL without a time parameter never is |
| VideoTimestamps.StoredTextStableExactly | src/lib/ideas-processing.ts:87-137 | if and only if, on any text, empty, malformed or well-formed in any spelling: the second write changes nothing exactly unless the label is of 100 hours or more and not repeated, a malformed text is given a time, or the text is respelled |
| VideoTimestamps.RespelledBySecond | src/lib/ideas-processing.ts:104-114 | the third way: the first write keeps the text and stores the label of its URL, the second one stores the URL as the library spells it |
| VideoTimestamps.MalformedKeptExactly | src/lib/ideas-processing.ts:119-121 | if and only if: a malformed URL is stored unchanged exactly when the label names no time after zero; else the write appends to it |
| VideoTimestamps.MalformedGrown | src/lib/ideas-processing.ts:119-121 | what a timed write makes of a malformed text: the time is appended after `?t=`, or after `&t=` when it has a question mark |
| IdeasStore.ComputeNextSequence | src/lib/ideas-store.ts:152-167 | the least positive number above the numeric suffix of every id with the prefix |
| IdeasStore.ParseIntReads | src/lib/ideas-store.ts:159-162 | white space, a sign and a rest after the digits do not keep a number from being read |
| IdeasStore.NextSequenceIsNext | src/lib/ideas-store.ts:152-167 | the same of its specification |
| IdeasStore.NextSequenceLeast | src/lib/ideas-store.ts:468-492 | only the set of ids matters, not their order |
| IdeasRecords.ToExtraFields | src/lib/ideas-store.ts:315-323 | exactly the keys that are not in the list of known keys, but for `__proto__`, which the assignment cannot store |
| IdeasRecords.ShownSaved | src/lib/ideas-store.ts:117-133 | a column value of each kind, absent dates and counts included, survives being read and written back |
| IdeasRecords.RowKept | src/lib/ideas-store.ts:181-208 | a row read into a record and written back keeps its columns and the extra keys that a write can store, when known keys and overwritten keys agree |
| IdeasRecords.KeepsRowsExactly | src/lib/ideas-store.ts:266-286 | if and only if: every row keeps the extra keys that a write can store exactly when the list of known keys is the keys that a read overwrites, `__proto__` aside |
| IdeasRecords.KeepsKeysExactly | src/lib/ideas-store.ts:315-323 | if and only if, for any record: writing it loses no key that a read does not set exactly when each of its keys that a write does not keep is one that a read sets |
| IdeasRecords.OnlyProtoLost | src/lib/ideas-store.ts:315-323 | if and only if, with the program's lists: a write loses such a key exactly when the record has the key `__proto__` |
| IdeasRecords.ListsAligned | src/lib/ideas-store.ts:76-107 | the two lists of the program are exactly the keys that its two reads overwrite |
| IdeasRecords.ReviewDefault | src/lib/ideas-store.ts:400-417 | what a write stores for an absent key of a review: manual, active, no date, no count, and else an empty text |
| IdeasRecords.TakeawayDefault | src/lib/ideas-store.ts:444-462 | what a write stores for an absent key of a takeaway: the status idea, and else an empty text |
| IdeasFixpoint.IdeasDatabase.Persist | src/lib/ideas-store.ts:325-505 | the tables after a write; a repeated key leaves them unchanged |
| IdeasFixpoint.IdeasDatabase.InsertReviews | src/lib/ideas-store.ts:383-466 | the rows of both tables in the order of the loops, blank ids skipped |
| IdeasFixpoint.IdeasDatabase.InsertTakeaways | src/lib/ideas-store.ts:420-465 | numbered from zero, a skipped takeaway taking no number |
| IdeasIds.CountersGrow | src/lib/ideas-store.ts:475-493 | after a write the next ids exceed every stored number and are not below the ones handed in |
| IdeasIds.WriteLowersExactly | src/lib/ideas-store.ts:475-493 | if and only if: a write lowers a next id exactly when the counter handed in is lower and no stored id has the number before it |
| IdeasIds.CountersReadAsWritten | src/lib/ideas-store.ts:288-302 | a read answers the counters that were written |
| IdeasFixpoint.ReviewsReadBack | src/lib/ideas-store.ts:210-286 | if and only if, on settled tables: writing back a read gives the same reviews in the same order, with the same takeaways in the same order, exactly when storing each takeaway's URL and label again changes neither |
| IdeasFixpoint.CountersReadBack | src/lib/ideas-store.ts:288-310 | on clean tables, whatever their URLs and labels, writing back a read gives the same counters and extra meta keys |
| IdeasFixpoint.WriteBackExactly | src/lib/ideas-store.ts:210-506 | on settled tables, whatever they hold, writing back a read changes `last_updated`, and each takeaway's URL and label to what storing them again makes of them, and nothing else |
| IdeasFixpoint.WriteBackIsFixpoint | src/lib/ideas-store.ts:210-313 | if and only if, on settled tables: writing back what a read returned changes only `last_updated` exactly when storing each takeaway's URL and label again changes neither; columns, extra keys, order and counters survive |
| IdeasFixpoint.ReadAfterWriteIsFixpoint | src/lib/ideas-store.ts:325-506 | if and only if, after any accepted write of any values: reading and writing back is the identity but for `last_updated` exactly when no stored URL or label is one that a second write changes, told from what was handed in |
| IdeasFixpoint.OrderKeptExactly | src/lib/ideas-store.ts:230-234 | if and only if, for clean tables with any update stamps: a write-back keeps what is read of the reviews, order included, exactly when they are in order by date and id once all carry one stamp and no URL or label changes |
| IdeasFixpoint.NewestFirst | src/lib/ideas-store.ts:210-234 | a read shows every stored review once, the latest review date first, then the latest update, then by id |
| IdeasFixpoint.TakeawaysInOrder | src/lib/ideas-store.ts:237-257 | and the takeaways of a review by their position, each once |
| IdeasIds.WriteBackAccepted | src/lib/ideas-store.ts:400-462 | with trimmed, distinct ids, whatever else the rows hold, writing back a read is never refused for a repeated key: every takeaway is written once |
| IdeasIds.WrittenKeyed | src/lib/ideas-store.ts:383-462 | every accepted write, of anything, leaves trimmed, distinct ids |
| IdeasFixpoint.WriteSettles | src/lib/ideas-store.ts:325-505 | every accepted write, malformed URLs and long labels included, leaves settled tables: trimmed unique ids, columns of their kinds, extra keys that a write keeps, one update stamp |
| IdeasFixpoint.IdeasDatabase.SyncTakeawayStatus | src/lib/ideas-store.ts:536-600 | the takeaway's status and `last_updated` change, or nothing does |
| IdeasFixpoint.StatusesMapped | src/lib/ideas-store.ts:68-74 | in_progress stands for building, done for shipped, cancelled in either spelling for rejected, and every other status for none |
| IdeasFixpoint.SyncedTakeaway | src/lib/ideas-store.ts:549-585 | every takeaway after a sync: the one named gets the status, all others stay, and so do the reviews |
| IdeasRuns.SyncKeepsSettled | src/lib/ideas-store.ts:536-600 | a status sync leaves settled tables settled, and URLs and labels as stable as they were |
| IdeasRuns.RunSettled | src/lib/ideas-store.ts:325-600 | every state that writes of any stores, write-backs, submissions and status syncs reach is settled |
| IdeasRuns.EveryRunReadsBack | src/lib/ideas-store.ts:210-506 | in every run from empty tables, with the program's own field lists, writing back a read is not refused and changes `last_updated` and each URL and label, which are stored again, and nothing else; it changes `last_updated` alone if and only if storing each URL and label again changes neither |
| IdeasRuns.WritableRunReadsBack | src/lib/ideas-store.ts:210-506 | when no write of the run holds a URL or label that a second write changes, every write-back changes only `last_updated` |
| IdeasRuns.EverySubmissionAccepted | src/app/api/ideas/route.ts:198-235 | in every run from empty tables, whatever is written, a submission is never refused, gets an id no stored review has, and moves the counter by exactly one |
| IdeasRuns.IdsNeverReused | src/app/api/ideas/route.ts:198-235 | over every run whose writes hand in at least the counter that a read answers, a submission never gets an id that a review had in any earlier state, deleted ones included |
| IdeasIntake.NewIdSuffix | src/app/api/ideas/route.ts:202 | the counter reads back the number of every new id, however it is padded |
| IdeasIntake.NewIdShape | src/app/api/ideas/route.ts:202 | a new id is `review-` and its number, padded with zeros to three digits |
| IdeasIntake.NewIdFresh | src/app/api/ideas/route.ts:198-202 | an id above every stored number is new |
| IdeasIntake.SubmittedIds | src/app/api/ideas/route.ts:227-235 | a submission writes the stored reviews and takeaways and one more review |
| IdeasIntake.SubmissionAccepted | src/app/api/ideas/route.ts:198-235 | with trimmed, distinct ids, submitting on top of a read gets an id no stored review has, is never refused for a repeated key, and moves the counter by exactly one |
| EventPolling.Client.Poll | server.js:379-396 | one tick: the batch sent and the new cursor |
| EventPolling.PushEvents | server.js:327-353 | the payloads of the events in order, and the latest time |
| EventPolling.PushComments | server.js:355-370 | the payloads of the comments after them, and the latest time of both |
| EventPolling.QueryExact | server.js:267-322 | a query answers due rows only, all of them below its limit, and at its limit none that is later than one it leaves out |
| EventPolling.BatchMembers | server.js:324-373 | a batch holds exactly the payloads of the two answers, oldest first |
| EventPolling.BatchBetween | server.js:324-373 | everything in a batch lies above the old cursor and not above the new one |
| EventPolling.BatchOnce | server.js:324-373 | no payload twice in a batch |
| EventPolling.PollsDeliverOnce | server.js:379-406 | over every run of polls, rows appearing in between, the cursor never decreases, nothing is sent twice, and everything is sent in timestamp order across polls too |
| EventPolling.OnlyItsCompany | server.js:292-294 | over every run: what a client is sent comes from rows of its company, by slug or by code in either case, or from any row for the empty company |
| EventPolling.ItsCompanySent | server.js:292-322 | and in a poll below the limits every newer row of its company is sent |
| EventPolling.UnlimitedPollComplete | server.js:267-322 | a poll in which neither query reaches its limit sends every due row |
| EventPolling.LeftOutEventLost | server.js:293-294 | if and only if, for one poll: the cursor passes an event beyond the limit exactly when an answered event has its time or an answered comment is not older, and then no later poll sends it |
| EventPolling.LeftOutCommentLost | server.js:320-321 | the same for a comment |
| EventPolling.DeliveredExactly | server.js:379-406 | if and only if, over every run, rows appearing, changing or going between polls as they like: a row is sent exactly when it is in the answer of the first poll that takes the cursor to its time or beyond |
| EventPolling.CrowdLosesOne | server.js:293-294 | witness: of fifty-one events of one instant the last is never sent, however often the client polls |
| EventPolling.LateRowLost | server.js:292-294 | witness: of two events in all, one that appears after a poll answered another of its instant is never sent |
| WavAudio.SampleRoundTrip | src/hooks/useDecartAvatar.ts:116-120 | a 16-bit sample never wraps around, and reads back within one step of the clamped input, on its inner side |
| WavAudio.BytesRead | src/hooks/useDecartAvatar.ts:97-112 | little-endian fields read back as the number modulo their width |
| WavAudio.PutHeader | src/hooks/useDecartAvatar.ts:95-112 | the header written field by field into the view |
| WavAudio.PutSamples | src/hooks/useDecartAvatar.ts:115-120 | two bytes per sample, in order, after the header |
| WavAudio.Encode | src/hooks/useDecartAvatar.ts:86-123 | the whole file, written into a fresh buffer |
| WavAudio.SamplesRead | src/hooks/useDecartAvatar.ts:114-120 | the data reads back as the same number of samples, each quantised once |
| WavAudio.DecodesExactly | src/hooks/useDecartAvatar.ts:86-123 | if and only if: a strict reader, which checks every size, reads back the rate and the quantised samples exactly when the file size and the byte rate fit 32 bits |
| WavAudio.MarkersSpelled | src/hooks/useDecartAvatar.ts:86-110 | the four markers of every file, in ASCII and in their places |
| WavAudio.AvatarBuffer.Feed | src/hooks/useDecartAvatar.ts:164-170 | appends a chunk, the counter staying the pending total |
| WavAudio.AvatarBuffer.Flush | src/hooks/useDecartAvatar.ts:141-162 | without a connected client or chunks nothing happens; else one payload holds everything pending, in order |
| WavAudio.AvatarBuffer.Disconnect | src/hooks/useDecartAvatar.ts:229-235 | drops what is pending and its count |
| WavAudio.NothingLost | src/hooks/useDecartAvatar.ts:141-170 | over every run of feeds and flushes, what was flushed followed by what is pending is everything fed, in order |
| ConversationFlow.GroupEvents | src/hooks/useConversationFlow.ts:69-85 | every intent is mapped to its last dispatch and its last terminal event, in the order of first events |
| ConversationFlow.BuildEntries | src/hooks/useConversationFlow.ts:54-108 | the loops build, in place, the sorted conversation that the lemmas below speak of |
| ConversationFlow.IdsExact | src/hooks/useConversationFlow.ts:77-85 | an intent is grouped exactly when it has an event, once |
| ConversationFlow.LastOfMeaning | src/hooks/useConversationFlow.ts:79-83 | a group holds a terminal event exactly when the intent has one, and likewise a dispatch |
| ConversationFlow.SortKeeps | src/hooks/useConversationFlow.ts:105 | sorting keeps every entry and orders by time |
| ConversationFlow.SortStable | src/hooks/useConversationFlow.ts:105 | entries of one time keep their order |
| ConversationFlow.FlowStable | src/hooks/useConversationFlow.ts:54-108 | the conversation is sorted by time, and entries of one time are the lines in order, then the tools by their first event |
| ConversationFlow.OneEntryEach | src/hooks/useConversationFlow.ts:54-108 | exactly one entry per transcript line and one per distinct intent id, and nothing else |
| ConversationFlow.InFlightExactly | src/hooks/useConversationFlow.ts:93 | a tool is in flight exactly when its intent has no terminal event |
| ConversationFlow.InFlightAfterAssistant | src/hooks/useConversationFlow.ts:43-52 | a tool in flight stands after the last assistant line, wherever the sort puts either |
| ConversationFlow.FallbackExactly | src/hooks/useConversationFlow.ts:43-51 | the fallback time of a tool is one more than that of the last assistant line |
| ConversationFlow.FallbackWithout | src/hooks/useConversationFlow.ts:43-52 | without an assistant line it is one more than that of the last line, and zero without any |
| ProxyRoutes.BareOnce | src/proxy.ts:631-640 | a bare company code is redirected to its dashboard, which is not redirected again |
| ProxyRoutes.LegacyTarget | src/proxy.ts:289-352 | a legacy redirect goes from an alias to its code, and what follows the code is never `issues` |
| ProxyRoutes.OutsideOnce | src/proxy.ts:631-659 | a path outside `companies` is redirected at most once, and only if it is a bare code |
| ProxyRoutes.CalmEnds | src/proxy.ts:631-659 | with calm maps, following redirects from any path ends after at most two |
| ProxyRoutes.ThriceUnderAlias | src/proxy.ts:296-351 | witness, for maps of another origin: an alias of the lower-case code "companies" other than `issues` gives a path that is redirected three times |
| ProxyRoutes.ThriceThroughIssues | src/proxy.ts:302-351 | witness: so does the alias `issues` of that code, when some alias has a bare code |
| ProxyRoutes.AtMostTwoExactly | src/proxy.ts:631-659 | if and only if, for arbitrary maps: following redirects from every path ends after at most two exactly when no alias leads to the code "companies" in lower case, except perhaps `issues` when no alias has a bare code |
| RouteMaps.BuildCompanyMaps | src/lib/orchestration/edge-route-map-service.ts:69-87 | the two maps from the rows in order, an alias never overwriting a slug |
| RouteMaps.RedirectsEnd | src/proxy.ts:631-659 | whatever the tables hold, with the maps that the program builds and merges, following redirects from any path ends after at most two |
| RouteMaps.MergedUpper | src/lib/orchestration/edge-route-maps.ts:36-68 | every code of the merged maps is in upper case |
| RouteMaps.CompaniesInverse | src/lib/orchestration/edge-route-map-service.ts:69-76 | with slugs unique up to white space, every code leads to a slug that leads back to it, codes that collide in upper case included |
| RouteMaps.LegacyLandsCanonical | src/proxy.ts:211-352 | with the maps that the proxy works with, of the tables or static, the rewrite of a legacy target, when it exists, lands under the canonical slug, where the legacy redirect answers null; where the static maps apply, no alias may give another code to a static slug |
| RouteMaps.StaticInverseExactly | src/lib/orchestration/edge-route-maps.ts:36-68 | if and only if: without a company in the tables, codes and slugs are mutually inverse exactly when no alias gives another code to a static slug |
| RouteMaps.OldNameLands | src/lib/orchestration/edge-route-maps.ts:1-68 | with empty tables, a link to an agent's runs under the name weather-edge lands on the same page under neveridle-core |
| ProxyRoutes.CompaniesCodeLoops | src/proxy.ts:296-318 | witness, for maps of another origin: a path can redirect to itself |
| ProxyRoutes.CanonicalUnderSlug | src/proxy.ts:211-287 | a rewrite lands under the slug of its code |
| ProxyRoutes.CanonicalIsFinal | src/proxy.ts:306-309 | with mutually inverse maps the legacy redirect answers null for a rewritten path |
| ProxyRoutes.LegacyThenCanonical | src/proxy.ts:211-352 | the rewrite of a legacy target, when it exists, lands under the canonical slug, where the legacy redirect answers null |
| ProxyRoutes.HomeIsDashboard | src/proxy.ts:211-223 | a code alone stands for the dashboard of its company |
| ProxyRoutes.NoCodeNoRewrite | src/proxy.ts:211-219 | a path that begins with no company code is neither rewritten nor, unless it is a legacy path, redirected |
| ProxyRoutes.AgentPathKept | src/proxy.ts:259-280 | a path to one of six views of an agent keeps agent, view and everything below; of any other view only the agent is kept |
| ProxyRoutes.AgentListKept | src/proxy.ts:259-291 | the form for a new agent, an agent, and the list of agents |
| ProxyRoutes.ProjectPathKept | src/proxy.ts:227-256 | a path to one of seven views of a project gets the project's current slug and keeps the view, and nothing below it |
| ProxyRoutes.ProjectListKept | src/proxy.ts:227-242 | a project with its current slug, and the list of projects |
| ProxyRoutes.OtherPathKept | src/proxy.ts:283-291 | if and only if: any other path is rewritten exactly when it begins with one of the company's sub-paths, and then kept as it is |
| ProxyRoutes.LegacyKept | src/proxy.ts:326-351 | a legacy path to a project or an agent keeps everything after the company; only a bare project or agent gets its default page |
| ProxyRoutes.LegacyAgentLands | src/proxy.ts:211-352 | a legacy link to a view of an agent, redirected and then rewritten, is the same page under the canonical slug |
| ProxyRoutes.LegacyProjectLands | src/proxy.ts:211-352 | a legacy link to a project, redirected and then rewritten, lands on its tasks under the canonical slugs |

## Left out

- SQL itself: queries and updates act on in-memory tables with every column present; probing for tables and columns is not modelled, and a loop over rows ordered by id is modelled in any order.
- File system, processes, network, clocks and random ids: left out, or parameters of the operation.
- Parsing of JSON texts, of action block bodies (an opaque function from body to announcement) and of URLs (their parameters, and whatever else the library keeps).
- The rest of the fixture script: reading previous roots out of project settings and runtime metadata, stamping metadata, `sanitizeRuntimeMetadataJson`, and the final assertions. Roots are given as resolved paths.
- RunnerRoutes.FixtureTables.SanitizeRuntime: does not model the row's metadata JSON; the command of the preferred provider is a parameter.
- OrphanCleanup.Cleanup.Apply: tables keep the columns the script reads or restores; replay is without foreign keys, whose cascades the statement order does not allow for, and the surrounding BEGIN and COMMIT are not modelled.
- LiveStream.LiveRunStream.HandleEvent: does not model the message texts of events, entry ids, or the batching of state updates by animation frame.
- Playback.PlaybackProcessor.Process: an output without a channel, which changes nothing, is not modelled.
- EchoGuard.AlwaysGuarded: clock and durations are reals, and the player is taken to run from the arrival of a chunk.
- ToolCalls.CallAnsweredAsExpected: intents and native calls have separate ids here, while the event log would confuse an intent named `live:` and a call's id with that call; the OpenAI function-call path is not modelled.
- VideoTimestamps.ParsePrint: numbers beyond the exact range of floating point are not modelled; how URL texts are parsed is left open.
- IdeasFixpoint.IdeasDatabase.Persist: how values that are neither text nor number become either is left open, the meta record has its counters as numbers, and extra keys whose value is undefined, which JSON would drop, are kept; takeaways are sorted per review, and the creation stamp that breaks ties of equal positions is left out because a write gives distinct positions.
- IdeasRecords.ToExtraFields: the order of keys is not modelled.
- IdeasRuns.RunSettled: the import of a legacy file, which is one more write, is not an operation of its own.
- IdeasIntake.SubmissionAccepted: does not model the other columns of a new review, its thumbnail, or the processing task.
- EventPolling.Client.Poll: timestamps are integers instead of text, and a socket that closes within a batch is not modelled.
- WavAudio.SampleRoundTrip: samples are reals; rounding of 32-bit floats and NaN are not modelled.
- WavAudio.NothingLost: runs are between two disconnects, each of which drops what is pending.
- RouteMaps.RedirectsEnd: percent encoding, query copying, authentication and the refresh of the route maps are left out; the maps hold no inherited property names.
- Case folding of SQL `LIKE` and `UPPER` and of `toLowerCase` covers ASCII letters; `toUpperCase` of company codes is a parameter.
- The engine under `src/lib/orchestration`, the React components, and the seed, proof and smoke scripts.
