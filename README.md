# TOMA core in Dafny

This project models the three runtime components of TOMA, a tmux orchestrator
that keeps several AI-assistant sessions working, and proves properties of
them:

- **the multiplexer gateway** (`TmuxManager`). It queries tmux for sessions,
  windows and pane contents and parses tmux's colon-delimited, line-oriented
  output into records. It types text into windows with a two-phase protocol
  (text, settle delay, `Enter`), creates, renames and kills sessions and
  windows, searches windows by name and renders a monitoring snapshot. Every
  tmux failure is swallowed into an empty list, `false`, `null` or an
  error-annotated record.
- **the deferred task scheduler** (`Scheduler`). It keeps an in-memory
  registry of reminders. For each reminder it writes a single-slot note file,
  launches a detached background job that later types a reminder into a
  target window, and cancels such jobs by signalling them.
- **the engineer-session facade** (`EngineerManager`). It runs fixed sequences
  of gateway calls: start an engineer's session and brief it, hand it project
  ideas (which are also appended to an ideas file), request status, relay and
  broadcast messages, and end a session.

## How the model is built

- **Host.** tmux is an oracle `Host = (seq<Event>, Cmd) -> Reply`. Its reply
  to a command may depend on every event before it. `Cmd` models each command
  at the level of its argument list.
- **Trace.** The gateway object records every command it issues and every
  timer it awaits in a `trace` field, so ordering properties and "nothing
  further is issued" properties are statements about the trace.
- **Run functions.** Each gateway and facade operation has a run function in
  `TmuxProtocol` or `Engineering`. It gives the operation's result and the
  trace after it. The imperative method (`TmuxGateway.TmuxManager.*`,
  `Engineering.EngineerManager.*`) is proved to produce exactly that pair.
  The properties are then lemmas about the run functions.
- **Scheduler state.** The scheduler is a class whose registry maps ids to
  `Task` objects. Each task's `pid` and `status` are mutable fields, as in the
  source. Every method is proved to move the abstract state `State()`
  (registry order, task records, note file, external effects) exactly as the
  pure functions `ScheduleSpec` and `CancelSpec` say, and to keep `Valid()`.
  The lemmas about those two functions carry the scheduler's promises.
- **Oracles for the environment.** The clock, `toISOString`, the random id,
  the outcome of the note write, the launcher's outcome and pid, and the
  outcome of `process.kill` are parameters. The ideas file is a field holding
  what a read of the file would give. Whether a write to it succeeds is a
  parameter.

Files:

| file | module | contents |
|---|---|---|
| `wrappers.dfy` | `Wrappers` | `Option`, `Result` |
| `js_text.dfy` | `JsText` | the JavaScript string built-ins the core uses: `trim`, `split`/`join`, ASCII case mapping, `repeat`, `includes`, number rendering, `parseInt`, truthiness |
| `types.dfy` | `Types` | the record shapes of `dist/types/tmux.d.ts` |
| `tmux_protocol.dfy` | `TmuxProtocol` | commands, host, output parsing, run functions and lemmas of the gateway |
| `tmux_gateway.dfy` | `TmuxGateway` | the `TmuxManager` class and the rendering and search loops |
| `scheduling.dfy` | `Scheduling` | tasks, the scheduler's specification functions and lemmas, the `Scheduler` class |
| `engineering.dfy` | `Engineering` | message templates, the ideas file, run functions and lemmas of the facade, the `EngineerManager` class |

## Model

| member | source | states |
|---|---|---|
| JsText.TrimSpec | src/core/tmux-manager.ts:32 | `trim` gives the empty string exactly for a whitespace-only string; otherwise the result starts and ends with a non-space and is cut from the input between a blank prefix and a blank suffix |
| JsText.JoinOfSplit | src/core/tmux-manager.ts:32 | joining the pieces of a `split` with the same separator gives back the original string |
| JsText.SplitOfJoin | src/core/tmux-manager.ts:60 | splitting a join of separator-free fields gives back exactly those fields |
| JsText.TrimEndsNonSpace | src/core/tmux-manager.ts:32 | a non-empty `trim` result starts and ends with a character that is not whitespace |
| JsText.TrimCutsBlanks | src/core/tmux-manager.ts:32 | the `trim` result is the input with a whitespace-only prefix and suffix removed |
| JsText.TrimOfPadded | src/core/tmux-manager.ts:163 | `trim` removes exactly the whitespace padding around a piece that starts and ends with a non-space |
| JsText.ParseDigitsOfNat | src/core/tmux-manager.ts:63 | the digit step of `parseInt` reads back the decimal rendering of any natural number |
| JsText.ParseIntOfIntToString | src/core/tmux-manager.ts:63 | `parseInt` of a rendered integer gives back that integer |
| JsText.IncludesIffOccurs | src/core/tmux-manager.ts:245 | `includes` holds exactly when the needle occurs at some position of the haystack |
| TmuxProtocol.MergeConfig | src/core/tmux-manager.ts:17-24 | every configuration member is the caller's value when given, otherwise the default: safety mode on, 1000 capture lines, 15 minutes, `tmux-orc:0` |
| TmuxProtocol.ParseWindowsLineByLine | src/core/tmux-manager.ts:57-69 | the window loop yields one window per non-empty output line, in output order, parsed from that line, and every window carries the queried session's name |
| TmuxProtocol.WindowEntryOfWindowLine | src/core/tmux-manager.ts:60-68 | parsing the line tmux prints for a window without colons in its name or layout gives back that window's index, name, active flag, pane count and layout |
| TmuxProtocol.SessionEntryOfSessionLine | src/core/tmux-manager.ts:34-41 | parsing the line tmux prints for a session without a colon in its name gives back its name, and `attached` is its flag |
| TmuxProtocol.ColonInWindowNameShiftsFields | src/core/tmux-manager.ts:60-68 | for a window named `a:b` (no colon in `a`, `b` or the layout) the parsed name is `a`, the window is active exactly when `b` is `1`, the pane count is read from the active flag and the layout from the pane count |
| TmuxProtocol.WindowsRun | src/core/tmux-manager.ts:51-75 | `getSessionWindows` issues exactly one `list-windows` and yields `[]` when it fails |
| TmuxProtocol.SessionsRun | src/core/tmux-manager.ts:27-48 | when `list-sessions` fails, `getSessions` yields `[]` and issues nothing else |
| TmuxProtocol.SessionsFromLineByLine | src/core/tmux-manager.ts:32-42 | one session per non-empty output line, in output order: its name is the first field, `attached` is whether the second field is exactly `1`, and its windows come from one `list-windows` per session, issued in the same order |
| TmuxProtocol.SessionsOwnTheirWindows | src/core/tmux-manager.ts:27-75 | every window of every session `getSessions` returns is tagged with that session's name |
| TmuxProtocol.CaptureLineCount | src/core/tmux-manager.ts:79 | the capture asks for the smaller of the requested and the configured line counts |
| TmuxProtocol.CaptureRun | src/core/tmux-manager.ts:78-88 | one `capture-pane` for the clamped count; the result is its output, or on failure `Error capturing window content: ` followed by the error |
| TmuxProtocol.WindowInfoDegrades | src/core/tmux-manager.ts:91-113 | `getWindowInfo` never raises. A failed query gives the zeroed record with `Could not get window info: ` and the error; blank output gives the zeroed record with `No window info available`; both issue nothing else. Otherwise the record has no error, one 50-line `capture-pane` follows, and its result is the record's content |
| TmuxProtocol.WindowInfoOfInfoLine | src/core/tmux-manager.ts:94-107 | when tmux prints a window's `name:active:panes:layout` line, possibly padded with whitespace, for a name and layout without colons, the record holds exactly that name, `active` exactly when the flag is `1`, that pane count and that layout, with the capture as its content and no error |
| TmuxProtocol.SendMessageRun | src/core/tmux-manager.ts:116-133 | the text is typed first; if that fails the result is `false` and no `Enter` is sent; otherwise the delay, then `Enter`, and the result is whether `Enter` succeeded (the typed text stays delivered) |
| TmuxProtocol.DirOption | src/core/tmux-manager.ts:148 | `-c` is passed exactly for a non-empty start directory, and then holds it |
| TmuxProtocol.CreateWindowRun | src/core/tmux-manager.ts:157-167 | one `new-window`; the result is `null` exactly when it fails, otherwise the index parsed from its output |
| TmuxProtocol.CreateWindowReadsIndex | src/core/tmux-manager.ts:160-163 | when tmux prints the new window's index, possibly padded with whitespace, `createWindow` returns exactly that index |
| TmuxProtocol.WindowStatusOf | src/core/tmux-manager.ts:224-230 | a window's status entry carries the window's index, name and active flag |
| TmuxProtocol.SessionStatusOf | src/core/tmux-manager.ts:208-221 | a session's status entry carries the session's name and attached flag |
| TmuxProtocol.WindowStatusesMirror | src/core/tmux-manager.ts:223-231 | one status entry per window, in discovery order, each with that window's index, name and active flag |
| TmuxProtocol.SessionStatusesMirror | src/core/tmux-manager.ts:207-234 | one status entry per session, in discovery order, each with that session's name and attached flag and one entry per window of it, as in `WindowStatusesMirror` |
| TmuxProtocol.WindowMatchesSpec | src/core/tmux-manager.ts:244-251 | over one session, the search fails exactly when some window's name is `undefined`; otherwise it returns exactly the pairs of the windows whose lower-cased name contains the lower-cased query |
| TmuxProtocol.SessionMatchesDefined | src/core/tmux-manager.ts:243-252 | the search over the sessions rejects exactly when some window of some session has an `undefined` name |
| TmuxProtocol.MatchedInStep | src/core/tmux-manager.ts:243-252 | a match among a list of sessions is a match among all but the last one or a match among the windows of the last one |
| TmuxProtocol.SessionMatchesSpec | src/core/tmux-manager.ts:239-254 | `findWindowsByName` rejects exactly when some window's name is `undefined`. Otherwise a pair is in the result exactly when its window's lower-cased name contains the lower-cased query, and the result equals the reference filter `MatchingRefs` over all windows in discovery order: same pairs, same order, same multiplicity |
| TmuxProtocol.SessionMatchesFilter | src/core/tmux-manager.ts:239-254 | when every window is named, the search over the sessions equals the reference filter applied to all `(session, window)` slots, sessions first, then each session's windows |
| TmuxProtocol.WindowMatchesFilter | src/core/tmux-manager.ts:244-251 | when every window of a session is named, the window loop equals the reference filter over that session's slots |
| TmuxProtocol.MatchingRefsConcat | src/core/tmux-manager.ts:243-252 | the reference filter distributes over concatenation, so the two nested loops filter the concatenated slot list |
| TmuxProtocol.UnnamedWindowRejects | src/core/tmux-manager.ts:245 | one window without a name is enough for the search to reject |
| TmuxProtocol.WindowRejectionPersists | src/core/tmux-manager.ts:244-251 | once the window loop has rejected on a prefix, it rejects on the whole list |
| TmuxProtocol.RejectionPersists | src/core/tmux-manager.ts:243-252 | once the session loop has rejected on a prefix, it rejects on the whole list |
| TmuxProtocol.EmptyQueryMatchesAll | src/core/tmux-manager.ts:239-254 | the empty query matches every window, and the result lists sessions first, then each session's windows, in discovery order |
| TmuxProtocol.EmptyQueryWindows | src/core/tmux-manager.ts:244-251 | over one session, the empty query matches every window, in order |
| TmuxProtocol.SearchIgnoresQueryCase | src/core/tmux-manager.ts:245 | queries that are equal up to case give the same search result |
| TmuxProtocol.WindowsIgnoreQueryCase | src/core/tmux-manager.ts:245 | the same for one session's windows |
| TmuxProtocol.LastLines | src/core/tmux-manager.ts:276 | `slice(-10)` keeps the last ten lines, or all of them when there are fewer |
| TmuxProtocol.PrintedLinesSpec | src/core/tmux-manager.ts:278-282 | a line is printed exactly when it is one of the recent lines and not whitespace-only |
| TmuxProtocol.RecentLinesSpec | src/core/tmux-manager.ts:274-283 | the snapshot prints at most ten lines of a window's content: exactly the non-blank ones among the last ten |
| TmuxProtocol.RowsStep | src/core/tmux-manager.ts:278-282 | each recent line adds the row `    \| line` exactly when its `trim` is non-empty |
| TmuxProtocol.WindowHeadingMarksActive | src/core/tmux-manager.ts:268-272 | after a window's index and name, the heading reads ` (ACTIVE)` exactly when the window is active |
| TmuxGateway.TmuxManager.constructor | src/core/tmux-manager.ts:17-24 | the configuration is the defaults overridden by the caller's members; nothing has been issued yet |
| TmuxGateway.TmuxManager.Run | src/core/tmux-manager.ts:12 | one command: the reply is the host's reply to it and the command is appended to the trace |
| TmuxGateway.TmuxManager.Wait | src/core/tmux-manager.ts:124 | a timer is recorded in the trace |
| TmuxGateway.TmuxManager.GetSessions | src/core/tmux-manager.ts:27-49 | result and trace are those of `SessionsRun` |
| TmuxGateway.TmuxManager.ReadSession | src/core/tmux-manager.ts:34-41 | one non-empty line gives the session named by its first field, with `attached` from its second and the windows and trace of one `WindowsRun` |
| TmuxGateway.TmuxManager.GetSessionWindows | src/core/tmux-manager.ts:51-76 | result and trace are those of `WindowsRun` |
| TmuxGateway.TmuxManager.CaptureWindowContent | src/core/tmux-manager.ts:78-89 | result and trace are those of `CaptureRun` with the configured maximum, with `numLines` defaulting to 50 |
| TmuxGateway.TmuxManager.GetWindowInfo | src/core/tmux-manager.ts:91-114 | result and trace are those of `WindowInfoRun` |
| TmuxGateway.TmuxManager.SendMessage | src/core/tmux-manager.ts:116-134 | result and trace are those of `SendMessageRun`, with the delay defaulting to 500 ms |
| TmuxGateway.TmuxManager.SendKeys | src/core/tmux-manager.ts:136-144 | one `send-keys`; `true` exactly when it succeeds |
| TmuxGateway.TmuxManager.CreateSession | src/core/tmux-manager.ts:146-155 | one `new-session`, with `-c` only for a non-empty directory; `true` exactly when it succeeds |
| TmuxGateway.TmuxManager.CreateWindow | src/core/tmux-manager.ts:157-168 | result and trace are those of `CreateWindowRun` |
| TmuxGateway.TmuxManager.RenameWindow | src/core/tmux-manager.ts:170-178 | one `rename-window`; `true` exactly when it succeeds |
| TmuxGateway.TmuxManager.KillSession | src/core/tmux-manager.ts:180-188 | one `kill-session`; `true` exactly when it succeeds |
| TmuxGateway.TmuxManager.KillWindow | src/core/tmux-manager.ts:190-198 | one `kill-window`; `true` exactly when it succeeds |
| TmuxGateway.TmuxManager.GetAllStatus | src/core/tmux-manager.ts:200-237 | result and trace are those of `AllStatusRun`: the sessions, then every window's info in discovery order |
| TmuxGateway.TmuxManager.GetSessionStatus | src/core/tmux-manager.ts:207-234 | one session's entry and trace are those of `SessionStatusOf` |
| TmuxGateway.TmuxManager.GetWindowStatus | src/core/tmux-manager.ts:224-230 | one window's entry and trace are those of `WindowStatusOf` |
| TmuxGateway.TmuxManager.FindWindowsByName | src/core/tmux-manager.ts:239-255 | the result is the search of `SessionMatchesSpec` over the sessions `getSessions` returns, and nothing else is issued |
| TmuxGateway.TmuxManager.CreateMonitoringSnapshot | src/core/tmux-manager.ts:257-289 | the snapshot is the rendering of the status `getAllStatus` returns, and nothing else is issued |
| TmuxGateway.RenderSnapshot | src/core/tmux-manager.ts:260-288 | the nested `+=` loops build exactly the snapshot text: heading, then the block of each session |
| TmuxGateway.ParseWindowLines | src/core/tmux-manager.ts:57-69 | the window loop of `getSessionWindows` computes `ParseWindows`, which `ParseWindowsLineByLine` describes |
| TmuxGateway.MatchSessions | src/core/tmux-manager.ts:243-252 | the session loop of the search computes the search of `SessionMatchesSpec` |
| TmuxGateway.MatchWindows | src/core/tmux-manager.ts:244-251 | the window loop of the search computes the one-session search of `WindowMatchesSpec` |
| TmuxGateway.RenderSessionBlock | src/core/tmux-manager.ts:264-285 | one session's heading, then the block of each of its windows |
| TmuxGateway.RenderWindowBlock | src/core/tmux-manager.ts:268-284 | one window's heading, its recent output when the content is non-empty, then a blank line |
| TmuxGateway.RecentRows | src/core/tmux-manager.ts:278-282 | the rows for exactly the printed lines (`RecentLinesSpec`) |
| Scheduling.ResolveTarget | src/core/scheduler.ts:31-35 | a PM session gives `session:index`, with index 0 when none is given, and wins over the target window; otherwise the target window when non-empty; otherwise `tmux-orc:0` |
| Scheduling.NoteLayout | src/core/scheduler.ts:61-69 | read back line by line, the note file holds the four header lines, an empty line, and then the note's own lines; a one-line note is the sixth and last line |
| Scheduling.JobFor | src/core/scheduler.ts:76-79 | the job sleeps `minutes`·60 seconds and targets the task's resolved window |
| Scheduling.JobRun | src/core/scheduler.ts:79 | a negative sleep fails the job with nothing issued. Otherwise the job sleeps `sleepSeconds`·1000 ms and types the reminder into the target. If typing fails, the job fails there. Otherwise it waits 1000 ms, presses `Enter`, and succeeds exactly when `Enter` succeeds |
| Scheduling.JobFiresAtExecuteAt | src/core/scheduler.ts:28-79 | the job fires exactly at the task's execution instant, `scheduled_at + minutes`·60000 ms |
| Scheduling.ScheduleOutcome | src/core/scheduler.ts:25-59 | scheduling succeeds exactly when the note was written and the job launched, and then returns the id. The task is registered running with the launcher's pid, its resolved target and its execution instant, and every other task is untouched. A failed write raises its error and changes nothing. A failed launch raises `Failed to schedule task` and leaves the registry as it was. The note write comes before the launch |
| Scheduling.NoteFileLastWriterWins | src/core/scheduler.ts:61-71 | after two successful writes the note file holds only the second task's note |
| Scheduling.ScheduleKeepsWellFormed | src/core/scheduler.ts:53-58 | the registry stays consistent: each id once, every task under its own id, and no pending or failed task ever registered |
| Scheduling.FailedLaunchStillWritesNote | src/core/scheduler.ts:48-58 | a launch failure still leaves the new note in the file although nothing is registered |
| Scheduling.RunningWithoutPid | src/core/scheduler.ts:89-90 | a launch that yields no pid still registers the task as running, and that task can never be cancelled |
| Scheduling.CancelOutcome | src/core/scheduler.ts:100-118 | cancelling succeeds exactly for a registered running task with a truthy pid whose signal is delivered; then only that task changes, to completed, and the signal is recorded; otherwise nothing changes |
| Scheduling.CancelKeepsWellFormed | src/core/scheduler.ts:100-118 | cancelling keeps the registry consistent |
| Scheduling.CancelTwice | src/core/scheduler.ts:106-110 | after a successful cancel, cancelling the same id again reports `false` and changes nothing |
| Scheduling.CancelMovesForward | src/core/scheduler.ts:106-110 | cancelling only ever moves a running task to completed; no other status changes |
| Scheduling.Lookup | src/core/scheduler.ts:125 | the tasks filed under the given keys, one per key, in the keys' order |
| Scheduling.ActiveAmong | src/core/scheduler.ts:129-131 | the result holds only pending or running tasks from the input, and every such task of the input |
| Scheduling.ActiveAmongAppend | src/core/scheduler.ts:128-132 | the active filter distributes over concatenation, so it keeps the input's order |
| Scheduling.Scheduler.constructor | src/core/scheduler.ts:18-23 | an empty registry, no note written, the note path defaulting to `/tmp/toma_next_check_note.txt` |
| Scheduling.Scheduler.CreateNoteFile | src/core/scheduler.ts:61-72 | on a successful write the note file holds the task's note text and the write is recorded; otherwise nothing changes |
| Scheduling.Scheduler.ScheduleSystemTask | src/core/scheduler.ts:74-98 | on a launch the task gets the child's pid and becomes running, and the job is recorded; when the launcher throws the task becomes failed |
| Scheduling.Scheduler.ScheduleTask | src/core/scheduler.ts:25-59 | result and new state are those of `ScheduleSpec`, and the registry stays consistent |
| Scheduling.Scheduler.Register | src/core/scheduler.ts:54 | `Map.set`: a new id goes to the end of the iteration order, a known one keeps its place, and the task is filed under its id |
| Scheduling.Scheduler.CancelTask | src/core/scheduler.ts:100-118 | result and new state are those of `CancelSpec`; the registry keeps the same task objects and stays consistent |
| Scheduling.Scheduler.Complete | src/core/scheduler.ts:108-109 | the task's job is signalled and that task alone becomes completed |
| Scheduling.Scheduler.GetTask | src/core/scheduler.ts:120-122 | the very task object filed under the id, carrying that id, or none exactly when the id is unknown |
| Scheduling.LookupListsEachOnce | src/core/scheduler.ts:124-126 | looking up a duplicate-free order that lists exactly the keys of the map, each key holding the task with that id, gives every task exactly once |
| Scheduling.Scheduler.GetAllTasks | src/core/scheduler.ts:124-126 | every registered task exactly once, in insertion order |
| Scheduling.Scheduler.GetActiveTasks | src/core/scheduler.ts:128-132 | `getAllTasks` filtered to pending or running, in insertion order; these are exactly the running tasks |
| Scheduling.Scheduler.ScheduleProgressReview | src/core/scheduler.ts:134-149 | schedules the progress-review note, after 30 minutes by default, for window 0 of the session unless a PM session is given |
| Scheduling.Scheduler.ScheduleOrchestratorCheck | src/core/scheduler.ts:151-162 | schedules the oversight note, after 15 minutes by default, for `tmux-orc:0` unless a PM session is given |
| Scheduling.Scheduler.ScheduleEngineerStandup | src/core/scheduler.ts:164-178 | schedules the standup note, after 480 minutes by default, for window 0 of the session unless a PM session is given |
| Scheduling.CannedReminderTargets | src/core/scheduler.ts:134-178 | the three canned reminders go to window 0 of the named session, or to `tmux-orc:0` for the oversight check, unless a PM session is given, which takes precedence |
| Engineering.FirstWindow | dist/core/engineer-manager.js:21 | every facade message goes to window 0 of the session |
| Engineering.WithInstructionsShape | dist/core/engineer-manager.js:69 | the briefing starts with the base text; it is the base text alone exactly when the custom briefing is absent or empty; otherwise it continues with `\n\nAdditional Instructions:\n` and the custom text |
| Engineering.Bullets | dist/core/engineer-manager.js:81 | one `- ` bullet per requirement, in order |
| Engineering.PriorityInCapitals | dist/core/engineer-manager.js:83 | the priority is announced as `HIGH`, `MEDIUM` or `LOW` |
| Engineering.RelayIgnoresSenderCase | dist/core/engineer-manager.js:167 | the sender is named in capitals, so its case does not change the relayed message |
| Engineering.AsSaved | dist/core/engineer-manager.js:109-112 | a saved idea is the idea with `assigned_to` kept when truthy and set to `unassigned` otherwise |
| Engineering.SaveThenRead | dist/core/engineer-manager.js:102-119 | a save succeeds exactly when the file is usable and the write succeeds; a missing file counts as no ideas; the saved idea is read back last, the earlier ideas are unchanged, and a failed save changes nothing |
| Engineering.CreateEngineerOrder | dist/core/engineer-manager.js:10-37 | a failed create gives `false` with nothing else issued. Otherwise window 0 is renamed `ingeniero`, `claude` and `Enter` are typed, the 5 s wait elapses, and the briefing is typed, in that order. The result is then `true` whatever those steps report |
| Engineering.Recipients | dist/core/engineer-manager.js:180-183 | every recipient is a listed session other than a non-empty excluded one, and every such session is a recipient |
| Engineering.RecipientsAppend | dist/core/engineer-manager.js:180-183 | choosing the recipients distributes over concatenation, so they keep the input order and multiplicity |
| Engineering.RecipientsOfOne | dist/core/engineer-manager.js:181-183 | one session is a recipient exactly when it is not the non-empty excluded one |
| Engineering.BroadcastRun | dist/core/engineer-manager.js:178-197 | one outcome per recipient, and the trace only grows |
| Engineering.SendMessageTypesOnlyInto | src/core/tmux-manager.ts:116-133 | a two-phase delivery types only into its target window |
| Engineering.SendMessageTypesOnce | src/core/tmux-manager.ts:116-133 | a delivery of a text other than `Enter` types that text exactly once, into its target |
| Engineering.BroadcastTypesOnlyIntoRecipients | dist/core/engineer-manager.js:178-197 | a broadcast types only into window 0 of its recipients |
| Engineering.BroadcastDeliversInOrder | dist/core/engineer-manager.js:180-195 | a broadcast types its text exactly once into window 0 of each recipient, in recipient order, and into no other window |
| Engineering.BroadcastTextIsNotEnter | dist/core/engineer-manager.js:184-189 | the broadcast envelope is never the bare `Enter` key, so `BroadcastDeliversInOrder` applies to every broadcast |
| Engineering.BroadcastSkipsExcluded | dist/core/engineer-manager.js:181-183 | a non-empty excluded session receives nothing |
| Engineering.FirstWindowInjective | dist/core/engineer-manager.js:191 | two sessions have the same window-0 address exactly when they are the same session |
| Engineering.BroadcastReachesAll | dist/core/engineer-manager.js:180-183 | without a non-empty exclusion every session is reached, in order |
| Engineering.NoticeFor | dist/core/engineer-manager.js:201-205 | a termination notice is sent exactly when the reason is truthy, and it names the reason |
| Engineering.NoticeRun | dist/core/engineer-manager.js:201-208 | the notice is typed and the 30 s wait elapses only when there is a notice; otherwise nothing is issued |
| Engineering.TerminateOutcome | dist/core/engineer-manager.js:198-216 | the session is always killed last and the result is the kill's; the notice and the wait come before it, and only when there is a reason |
| Engineering.EngineerManager.constructor | dist/core/engineer-manager.js:6-9 | the gateway and the ideas path, defaulting to `/tmp/toma_project_ideas.json` |
| Engineering.EngineerManager.CreateEngineerSession | dist/core/engineer-manager.js:10-37 | result and trace are those of `CreateEngineerRun` with the generated briefing |
| Engineering.EngineerManager.SaveProjectIdea | dist/core/engineer-manager.js:102-119 | the ideas file and the outcome are those of `SaveSpec` |
| Engineering.EngineerManager.GetProjectIdeas | dist/core/engineer-manager.js:120-132 | the stored list, or `[]` when the file is missing or unusable |
| Engineering.EngineerManager.SendProjectIdea | dist/core/engineer-manager.js:71-101 | the idea is saved first; a failed save gives `false` and sends nothing; otherwise the result is `sendMessage`'s for window 0 with the idea message |
| Engineering.EngineerManager.RequestStatusUpdate | dist/core/engineer-manager.js:133-165 | `sendMessage` of the status request to window 0; its result |
| Engineering.EngineerManager.SendMessageBetweenEngineers | dist/core/engineer-manager.js:166-177 | `sendMessage` to the recipient's window 0 of the message in its relay envelope; its result |
| Engineering.EngineerManager.Deliver | dist/core/engineer-manager.js:190-193 | one recipient's delivery: result and trace are those of `SendMessageRun` to its window 0 with the default delay |
| Engineering.EngineerManager.BroadcastMessage | dist/core/engineer-manager.js:178-197 | results and trace are those of `BroadcastRun` for the broadcast envelope |
| Engineering.EngineerManager.TerminateEngineerSession | dist/core/engineer-manager.js:198-216 | result and trace are those of `TerminateRun` with the notice for the reason |

## Notes on the code's behaviour

- **No pending entries.** The code registers a task only after its note is
  written and its job launched (src/core/scheduler.ts:53-55). No task is ever
  registered as pending (`Scheduling.ScheduleKeepsWellFormed`).
- **Running without a pid.** The code marks a launched task `running`
  whatever `child.pid` is (src/core/scheduler.ts:89-90). A task without a
  pid can never be cancelled (`Scheduling.RunningWithoutPid`).
- **Reminder text.** The background job types the literal text `Time for
  orchestrator check! cat <note path>`, not the note's content
  (src/core/scheduler.ts:79). The model's `Job` carries that text.
- **Window order.** A session's windows keep the order in which tmux prints
  them; nothing sorts them by index (src/core/tmux-manager.ts:58).

## Left out

- Shell quoting of the interpolated command strings: commands are modelled at argument-list level, so a name containing `"` or `$` is passed through unchanged.
- `console.error` logging in every catch block: it has no effect on results.
- `Date.now`, `new Date()`, `toISOString` and `Math.random`: the id and the clock reading are method parameters, and `toISOString` is a function the scheduler is constructed with.
- Real time: timers are `Sleep` events in the trace; nothing waits.
- Process detachment (`detached`, `unref`) and the real background job: the launch is an oracle (`Launch`), and the job's later behaviour is given by `Scheduling.JobRun` against a host. A negative sleep makes the job stop at once, as GNU `sleep` rejects negative durations.
- The race between a fired job and a later note write: only the single-slot, last-writer-wins behaviour of the note file is modelled.
- File I/O: the note file is a field holding the last content written. The ideas file is a field holding what a read would give (`Absent`, `Unreadable` or a list). `JSON.parse` and `JSON.stringify` are not modelled; a file that does not parse as a list reads as `Unreadable`.
- Scheduling.ScheduleSpec: minutes are integers; fractional minutes (which JavaScript allows) are not modelled, and `minutes` is rendered as a decimal integer.
- Engineering.HoursLine: estimated hours are integers; fractional hours and `NaN` are not modelled.
- JsText.ParseInt: base-ten parsing only. Leading whitespace, an optional sign and the digits up to the first non-digit are modelled, and no digit gives `NaN`. The `0x` prefix that switches `parseInt` to base 16 is not modelled, and `-0` is read as `0`.
- JsText.ToLower and JsText.ToUpper: ASCII-only case mapping; Unicode case mapping is not modelled. `Engineering.RelayIgnoresSenderCase` and `TmuxProtocol.SearchIgnoresQueryCase` hold for this ASCII mapping only. Under full Unicode mapping U+212A KELVIN SIGN lower-cases to `k`, which upper-cases to `K`, while U+212A upper-cases to itself, so the relay lemma fails for that sender.
- Engineering.EngineerManager.CreateEngineerSession: the facade's catch blocks for a gateway that throws are not modelled, because every gateway method catches its own errors.
- The message templates (briefing, project idea, status request, relay and broadcast envelopes, termination notice) are string constants. Only their shape is reasoned about, not their full wording.
- `src/index.ts`, the MCP server wiring and its argument defaults, is not part of this model.
- `dist/core/scheduler.js`, the compiled copy of the scheduler (it types a slightly shorter reminder text), is not part of this model.
- A `MessageOptions.delay` of `undefined` takes the 500 ms default. An explicit `delay` is used as given, including values `setTimeout` would clamp.
- TmuxProtocol.MergeConfig: a `None` member of `ConfigOverrides` stands for a member the caller left out. A member passed explicitly as `undefined` is not modelled. The spread `{...defaults, ...config}` would copy that `undefined` over the default, and `Math.min` in `captureWindowContent` would then give `NaN`.
