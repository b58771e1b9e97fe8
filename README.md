# ratings-history, modelled in Dafny

ratings-history collects the regulatory rating-history archives that credit
rating agencies publish. It turns their XBRL/XML filings into CSV tables and
reports live progress to connected browsers. This project models the core of
that pipeline and proves properties of the model:

- **Job scheduler.** The backend's `Tasker` runs named tasks from a queue in
  insertion order, retries them and reports once the queue drains. Around it
  sit the agencies' downloaders, the uploader and the two cron schedulers,
  with their message logs.
- **Archive parsers.** Both XML parsers (the current one and the legacy one)
  turn archive entries into records and write CSV files named after a
  record's date, agency and category. The shared CSV escaping is modelled
  with its read-back round trip.
- **Status hub.** The backend and legacy WebSocket servers keep per-client
  channel subscriptions and fan out events. The browser client's socket
  service queues and replays subscriptions across reconnects. The admin
  panel's event emitter dispatches to registered callbacks.
- **Metadata cache.** The express `Filer` is meant to keep output-file
  metadata in step with watcher events. As written, `initialize` seeds the
  metadata file with a JSON array, which the watcher handler and `get` then
  index by file name: the cache keeps the startup listing (see
  "## Findings"). The model proves both the array as written and the keyed
  object the handler expects. The file-listing comparator is
  `General.CompareMetadata`.
- **Front ends.** Also modelled: the authentication middleware, the two
  front-end configurations and the agencies view's merge reducer.

Each core file is one module. Code that updates state in place is a class
whose methods are proved against step functions; pure code is functions and
lemmas. Shared modules:

- `Wrappers`: Option, Result and Outcome.
- `Strings`: split, join, index-of, trim, lower-case and lexicographic order.
- `Csv`: escaping and row rendering.
- `Columns`: the 32-column table.
- `FileStore`: the file system as a map from path to text.
- `Hub`: subscriptions and fan-out.
- `JsObject`: objects with insertion-ordered keys.
- `Status`: status messages.

Interactions with the outside world are modelled as data or parameters:

- The network, the XML regular expressions, `entities.decode`, `jwt.verify`
  and `localeCompare` are function parameters or input data.
- A task body is a sequence of call outcomes.
- Emitting an event appends to a log.

## Model

| member | source | states |
|---|---|---|
| Tasker.Remove | backend-node/src/services/tasker.ts:101-102 | deleting an id from the queue leaves exactly the other ids, and a missing id changes nothing |
| Tasker.RemoveDistinct | backend-node/src/services/tasker.ts:101-102 | on a queue without repeated ids, removal removes exactly one entry when the id is queued |
| Tasker.RemoveKeepsOrder | backend-node/src/services/tasker.ts:101-102 | on a queue without repeated ids, deleting the id at position k leaves the entries before k and after k, in their order |
| Tasker.Inv | backend-node/src/services/tasker.ts:64-89 | the scheduler invariant implies that at most one task runs, and never more than the limit |
| Tasker.AddTaskStep | backend-node/src/services/tasker.ts:18-27 | `addTask` writes no report entry and calls at most one body: the calls so far are kept, with at most one more |
| Tasker.CancelTaskStep | backend-node/src/services/tasker.ts:101-107 | a refused cancel changes nothing. The queued ids afterwards are the old ones without the cancelled id, and the running task and the loop's phase are untouched |
| Tasker.SettleStep | backend-node/src/services/tasker.ts:29-99 | with no loop running nothing resumes. One resumption calls the body at most once more and emits the report at most once more, keeping what came before |
| Tasker.InitialInv | backend-node/src/services/tasker.ts:4-16 | a new tasker satisfies the invariant |
| Tasker.BeginInv | backend-node/src/services/tasker.ts:69-78 | starting the oldest queued task keeps the invariant |
| Tasker.AddTaskInv | backend-node/src/services/tasker.ts:18-27 | `addTask` keeps the invariant |
| Tasker.CancelTaskInv | backend-node/src/services/tasker.ts:101-107 | `cancelTask` keeps the invariant |
| Tasker.SettleInv | backend-node/src/services/tasker.ts:64-99 | every step of the loop and of `handleTask` keeps the invariant |
| Tasker.AddTaskOutcome | backend-node/src/services/tasker.ts:18-27 | a task is refused with the duplicate error exactly when its id is queued or running. A refusal changes nothing. An accepted task joins the end of the queue, or starts at once when no loop runs |
| Tasker.AddTaskExists | backend-node/src/services/tasker.ts:18-27 | after `addTask` the known ids are the old ones plus the new id |
| Tasker.AddTaskCalls | backend-node/src/services/tasker.ts:18-81 | `addTask` calls the new task's body inside the call exactly when no loop runs, nothing is queued, the limit is above 0, the id is new and it has an attempt. That call is the task's first attempt |
| Tasker.CancelTaskOutcome | backend-node/src/services/tasker.ts:101-107 | cancelling succeeds exactly when the id is queued. The running task cannot be cancelled. Only the queue changes, and the others keep their order |
| Tasker.StartsOldest | backend-node/src/services/tasker.ts:71-78 | a step that starts a task takes the oldest queued one: it leaves the queue and becomes the only running id |
| Tasker.FinishedLeavesRunning | backend-node/src/services/tasker.ts:80-85 | the handled id leaves the running set whatever the task's outcome |
| Tasker.DrainEmitsOnce | backend-node/src/services/tasker.ts:91-99 | the report is emitted and reset exactly when a finished task leaves nothing queued or running. No other step emits |
| Tasker.Calls | backend-node/src/services/tasker.ts:29-62 | from call k on, `handleTask` calls the body between 1 and retries-k+1 times |
| Tasker.Outcome | backend-node/src/services/tasker.ts:29-62 | the report entry records an attempt count between k and retries |
| Tasker.Repeat | backend-node/src/services/tasker.ts:32-34 | n copies of the id: one per call of the body |
| Tasker.DriveHandles | backend-node/src/services/tasker.ts:29-62 | driving `handleTask` from call k calls the body `Calls` times, writes the entry `Outcome` and changes nothing else |
| Tasker.SucceedsOnCall | backend-node/src/services/tasker.ts:32-36 | a body that first resolves on call k is called exactly k times and reports k attempts with no error |
| Tasker.FailsEveryCall | backend-node/src/services/tasker.ts:37-59 | a body that always rejects is called `retries` times and reports `retries` attempts with the last error's message |
| Tasker.NoRetriesNoCall | backend-node/src/services/tasker.ts:29-32 | with retries below 1 the body is never called and no report entry is written |
| Tasker.Tasker.constructor | backend-node/src/services/tasker.ts:14-16 | a fresh tasker: empty queue, nothing running, flag clear, empty report; the invariant holds |
| Tasker.Tasker.AddTask | backend-node/src/services/tasker.ts:18-27 | the new state and outcome are those of the `addTask` step |
| Tasker.Tasker.CancelTask | backend-node/src/services/tasker.ts:101-107 | the new state and outcome are those of the `cancelTask` step |
| Tasker.Tasker.ProcessQueue | backend-node/src/services/tasker.ts:64-69 | entering `processQueue` returns at once when a loop runs or the queue is empty, and otherwise sets the flag |
| Tasker.Tasker.Begin | backend-node/src/services/tasker.ts:71-78 | the loop's head: start the oldest task while below the limit, or else clear the flag |
| Tasker.Tasker.ShouldEnd | backend-node/src/services/tasker.ts:91-99 | `shouldEnd` emits and resets the report only when nothing is queued or running |
| Tasker.Tasker.Settle | backend-node/src/services/tasker.ts:29-89 | one step of the loop is taken: a call of the body, the end of a handled task, or the loop's head |
| BackendDownloader.Validate | backend-node/src/services/downloader.ts:105-119 | the answer passes exactly when it has no truthy `error`, has `urls`, and every url is a string. The failures give, in order of checking, the answer's own error, "No URLs…" or "URLs are not strings!" |
| BackendDownloader.Counter | backend-node/src/services/downloader.ts:141-144 | the archive counter is empty for a single archive, and " (i+1/n)" otherwise |
| BackendDownloader.StepMessages | backend-node/src/services/downloader.ts:146-156 | each archive emits its parsing message, then the deletion message once it is processed: one or two messages |
| BackendDownloader.DoneStep | backend-node/src/services/downloader.ts:140-157 | the archive loop's invariant survives one more archive |
| BackendDownloader.DoneEnd | backend-node/src/services/downloader.ts:140-157 | when the archive loop stops, at the end or at the first error, the messages sent are the whole loop's log |
| BackendDownloader.Closing | backend-node/src/services/downloader.ts:159-165 | a call ends with the caught error's message, or with "Completed!" as an exit message |
| BackendDownloader.AttemptEnds | backend-node/src/services/downloader.ts:98-168 | every call first asks for the URLs. It ends with "Completed!" when it resolves, or with the error it throws again so that the tasker retries |
| BackendDownloader.BadAnswerRejects | backend-node/src/services/downloader.ts:105-117 | an answer that fails the checks ends the call before any download, with the check's message |
| BackendDownloader.Body | backend-node/src/services/downloader.ts:90-169 | the tasker sees one outcome per call, the one that call's log ends with |
| BackendDownloader.InitiateOutcome | backend-node/src/services/downloader.ts:85-177 | an unknown agency is refused before anything is queued. A known one is queued under its own name with the given retries (default 1), and refused exactly when it is already queued or running |
| BackendDownloader.InitiateLog | backend-node/src/services/downloader.ts:85-177 | what `initiate` emits: nothing for an unknown or already known agency; otherwise "Getting download URL(s)..." when `addTask` starts the task at once, then "Queued..." |
| BackendDownloader.InitiateReports | backend-node/src/services/downloader.ts:85-177 | `initiate` accepts exactly when what it emits ends with "Queued...", and a refusal emits nothing. The body is called inside the call exactly when "Getting download URL(s)..." is emitted; the messages are then that one before "Queued...", and the task is on its first attempt |
| BackendDownloader.Downloader.constructor | backend-node/src/services/downloader.ts:41-51 | every configured agency starts with an empty message list |
| BackendDownloader.Downloader.AppendStatus | backend-node/src/services/downloader.ts:198-206 | a known agency's message goes in front of its earlier ones. An unknown agency is an error and changes nothing |
| BackendDownloader.Downloader.Cleanup | backend-node/src/services/downloader.ts:188-196 | a known agency's list is emptied. An unknown agency gives "Agency not found" and changes nothing |
| BackendDownloader.Downloader.GetAgency | backend-node/src/services/downloader.ts:208-216 | an agency's messages, or "No agency with name …" exactly when it is unknown |
| BackendDownloader.Downloader.GetAgencies | backend-node/src/services/downloader.ts:218-220 | the map of every agency's messages |
| BackendDownloader.Downloader.Emit | backend-node/src/services/downloader.ts:10-32 | one agencies-update event is emitted, tagged with the agency's name |
| BackendDownloader.Downloader.EmitAll | backend-node/src/services/downloader.ts:10-32 | the messages are emitted in order, each tagged with the agency's name |
| BackendDownloader.Downloader.RunAttempt | backend-node/src/services/downloader.ts:90-169 | a missing agency throws "Agency not found" and emits nothing. Otherwise the call emits exactly its log, ends as the log says, and empties the agency's list |
| BackendDownloader.Downloader.Open | backend-node/src/services/downloader.ts:90-98 | the task body up to its first `await`: "Getting download URL(s)..." is emitted exactly when the agency is known, and the lists are untouched |
| BackendDownloader.Downloader.Resume | backend-node/src/services/downloader.ts:94-168 | the rest of the body: a missing agency throws "Agency not found" and emits nothing. Otherwise the call emits the `try` block's messages and the closing message, ends as the log says, and empties the agency's list |
| BackendDownloader.Downloader.RunTry | backend-node/src/services/downloader.ts:100-159 | the `try` block emits the request, download and archive messages in order, up to the first error |
| BackendDownloader.Downloader.RunFiles | backend-node/src/services/downloader.ts:140-157 | the archive loop emits each archive's messages and stops at the first error, which it returns |
| BackendDownloader.Downloader.Initiate | backend-node/src/services/downloader.ts:85-177 | the queue and the outcome are those of `InitiateStep`. The updates emitted during the call are `InitiateLog`: on an idle queue the task's first message comes before "Queued...", and nothing is emitted when the task is refused. The agency lists are untouched |
| BackendDownloader.Downloader.Abort | backend-node/src/services/downloader.ts:179-186 | the queued task is cancelled, and "Cancelled by user" is emitted only when it was |
| Hub.Decode | backend-node/src/services/socket.ts:20-67 | a received message throws exactly when `parseMessage` gives null: an empty buffer, unparsable text or JSON null. It subscribes or unsubscribes exactly when `data` is truthy and `action` names the command, on the channel `data`. Anything else is ignored |
| Hub.Added | backend-node/src/services/socket.ts:28-29 | `set.add`: the members are the old ones plus the new one, with no duplicates, and an existing member changes nothing |
| Hub.Deleted | backend-node/src/services/socket.ts:63-64 | `set.delete`: the members are the old ones without the removed one, and the others keep their order |
| Hub.Fanout | backend-node/src/services/socket.ts:186-190 | the broadcast loop sends at most one frame per registered connection |
| Hub.FanoutReaches | backend-node/src/services/socket.ts:186-190 | the loop reaches exactly the OPEN connections subscribed to the event, each once, with the given event and payload |
| Hub.FanoutSilent | backend-node/src/services/socket.ts:186-190 | with no OPEN subscriber the broadcast sends nothing |
| Hub.BroadcastReaches | backend-node/src/services/socket.ts:179-191 | `broadcast` sends nothing for a falsy event or payload. Otherwise it sends one frame to each OPEN subscriber and to no one else |
| Hub.SendFrames | backend-node/src/services/socket.ts:167-177 | `send` delivers one frame exactly when the event and payload are truthy and the client is OPEN, and nothing otherwise |
| BackendSocket.ChannelsStep | backend-node/src/services/socket.ts:27-67 | only the sender's channel set changes, and only while it is registered. Subscribing adds the channel, unsubscribing removes it, and other commands change nothing |
| BackendSocket.SubscribeFrames | backend-node/src/services/socket.ts:31-59 | a new OPEN subscriber to AGENCIES_UPDATE gets the agencies and then the system-info sample. One to UPLOAD_UPDATE gets the upload log. Any other channel gets nothing, and neither does a client that is not OPEN |
| BackendSocket.Repeat | backend-node/src/services/socket.ts:84-92 | k repetitions of a pass of frames, holding no other frame |
| BackendSocket.CleanupFrames | backend-node/src/services/socket.ts:81-96 | closing a registered connection sends one pass of broadcasts per channel it had, and an unregistered one sends nothing |
| BackendSocket.RoundFrames | backend-node/src/services/socket.ts:87-92 | every frame of a pass is an "unsubscribe" event naming one of the closing connection's channels, sent to an OPEN connection subscribed to "unsubscribe" |
| BackendSocket.RoundSilent | backend-node/src/services/socket.ts:87-92 | a pass sends nothing when no OPEN connection listens on "unsubscribe" |
| BackendSocket.CleanupAnnounces | backend-node/src/services/socket.ts:70-96 | closing a connection with n channels repeats the pass n times, so each of n broadcasts goes out n times. The closed connection receives none of them, and nothing is sent when no one listens on "unsubscribe" |
| BackendSocket.FirstMatch | backend-node/src/services/socket.ts:100-106 | the first cookie from index i on whose name matches; when there is none, no cookie from i on has that name |
| BackendSocket.GetCookieValue | backend-node/src/services/socket.ts:98-107 | the value of the first cookie of that name: undefined when it has no "=", and null when no cookie has the name |
| BackendSocket.UpgradeDecision | backend-node/src/services/socket.ts:132-164 | the upgrade is handed over exactly when a truthy `authToken` is present and not expired. A refused upgrade writes 401. An invalid token has 403 written and is still handed over, because that branch does not return |
| BackendSocket.Socket.constructor | backend-node/src/services/socket.ts:13-15 | no client is registered and nothing is sent |
| BackendSocket.Socket.Connect | backend-node/src/services/socket.ts:17-18 | a new connection is registered with an empty channel set and is OPEN |
| BackendSocket.Socket.Leave | backend-node/src/services/socket.ts:70-73 | a closing connection is no longer OPEN; nothing else changes |
| BackendSocket.Socket.Send | backend-node/src/services/socket.ts:167-177 | exactly the frames of `SendFrames` are sent, and nothing else changes |
| BackendSocket.Socket.Broadcast | backend-node/src/services/socket.ts:179-191 | exactly the broadcast frames are sent, in registration order, and nothing else changes |
| BackendSocket.Socket.OnMessage | backend-node/src/services/socket.ts:20-68 | a message that `Decode` says throws is an error. Otherwise the channel sets change as `ChannelsStep` says, and a subscription sends its snapshots. The registration stays consistent |
| BackendSocket.Socket.SendSnapshots | backend-node/src/services/socket.ts:31-59 | the snapshots sent are those of `SubscribeFrames` |
| BackendSocket.Socket.BroadcastRound | backend-node/src/services/socket.ts:87-92 | one pass sends one "unsubscribe" broadcast per channel, in order |
| BackendSocket.Socket.Cleanup | backend-node/src/services/socket.ts:81-96 | `cleanupSubscriptions` sends exactly `CleanupFrames` |
| BackendSocket.Socket.OnClose | backend-node/src/services/socket.ts:70-73 | the closed connection's channels are announced to the others, and then its entry is deleted |
| BackendSocket.Socket.Upgrade | backend-node/src/services/socket.ts:132-164 | the handshake is the one `UpgradeStep` decides |
| LegacySocket.ChannelsStep | ratings-history-express/src/services/socket.ts:17-65 | only the sender's channel set changes: subscribing adds the channel, unsubscribing removes it, and other commands change nothing |
| LegacySocket.SubscribeFrames | ratings-history-express/src/services/socket.ts:28-56 | a subscription to a channel other than AGENCIES_UPDATE or UPLOAD_UPDATE broadcasts nothing |
| LegacySocket.SnapshotsReachAllSubscribers | ratings-history-express/src/services/socket.ts:24-56 | a snapshot is broadcast to every OPEN subscriber of the channel, the new one included, and not only to the new subscriber. The sample after an AGENCIES_UPDATE subscription reaches the SYSTEM_INFO subscribers only |
| LegacySocket.Socket.constructor | ratings-history-express/src/services/socket.ts:10-12 | no client is registered and nothing is sent |
| LegacySocket.Socket.Connect | ratings-history-express/src/services/socket.ts:14-15 | every upgrade is accepted and leads to a new OPEN connection with an empty channel set |
| LegacySocket.Socket.Leave | ratings-history-express/src/services/socket.ts:67-69 | a closing connection is no longer OPEN; nothing else changes |
| LegacySocket.Socket.Send | ratings-history-express/src/services/socket.ts:101-111 | exactly the frames of `SendFrames` are sent |
| LegacySocket.Socket.Broadcast | ratings-history-express/src/services/socket.ts:113-125 | exactly the broadcast frames are sent, in registration order |
| LegacySocket.Socket.BroadcastSnapshots | ratings-history-express/src/services/socket.ts:28-56 | the snapshots a subscription triggers are broadcast, with the new channel already registered |
| LegacySocket.Socket.OnMessage | ratings-history-express/src/services/socket.ts:17-65 | a message that `Decode` says throws is an error. Otherwise the channel sets change as `ChannelsStep` says, and a subscription broadcasts its snapshots |
| LegacySocket.Socket.OnClose | ratings-history-express/src/services/socket.ts:67-69 | the connection's entry is deleted and nothing is sent |
| LegacyDownloader.Counter | ratings-history-express/src/services/downloader.ts:147-151 | the counter " (i+1/n)" is shown even for a single archive |
| LegacyDownloader.StepMessages | ratings-history-express/src/services/downloader.ts:147-159 | each archive emits its parsing message with its counter, then the deletion message once it is processed |
| LegacyDownloader.FilesFailureIsFirst | ratings-history-express/src/services/downloader.ts:146-160 | the archive loop fails exactly when some archive throws, and it stops at the first one that does |
| LegacyDownloader.DoneStep | ratings-history-express/src/services/downloader.ts:146-160 | the archive loop's invariant survives one more archive |
| LegacyDownloader.DoneEnd | ratings-history-express/src/services/downloader.ts:146-160 | when the loop stops, the messages sent are the whole loop's log |
| LegacyDownloader.Caught | ratings-history-express/src/services/downloader.ts:163-168 | the `catch` block reports a thrown `Error`'s message, and reports nothing for any other thrown value |
| LegacyDownloader.AttemptEnds | ratings-history-express/src/services/downloader.ts:122-171 | a call ends with "Completed!" exactly when nothing was thrown. A thrown `Error` ends it with that error's message; any other thrown value ends it silently. "Completed!" is the only exit message |
| LegacyDownloader.FilesInfo | ratings-history-express/src/services/downloader.ts:146-160 | the archive loop emits only progress messages |
| LegacyDownloader.Body | ratings-history-express/src/services/downloader.ts:114-172 | the tasker sees every call of a configured agency's task resolve, because the task swallows its errors. For an unknown name the call throws "Agency not found" |
| LegacyDownloader.NeverRetried | ratings-history-express/src/services/downloader.ts:180 | with one attempt, a configured agency's task is reported done on its first call and never as failed |
| LegacyDownloader.Downloader.constructor | ratings-history-express/src/services/downloader.ts:21-31 | every agency of the functions map starts with an empty message list |
| LegacyDownloader.Downloader.AppendStatus | ratings-history-express/src/services/downloader.ts:202-210 | a known agency's message goes in front of its earlier ones. An unknown agency is an error and changes nothing |
| LegacyDownloader.Downloader.Cleanup | ratings-history-express/src/services/downloader.ts:192-200 | a known agency's list is emptied. An unknown agency gives "Agency not found" |
| LegacyDownloader.Downloader.GetAgency | ratings-history-express/src/services/downloader.ts:212-220 | an agency's messages, or "No agency with name …" exactly when it is unknown |
| LegacyDownloader.Downloader.GetAgencies | ratings-history-express/src/services/downloader.ts:222-224 | the map of every agency's messages |
| LegacyDownloader.Downloader.Emit | ratings-history-express/src/services/downloader.ts:174-178 | one agencies-update event is emitted, tagged with the agency's name |
| LegacyDownloader.Downloader.EmitAll | ratings-history-express/src/services/downloader.ts:122-168 | the messages are emitted in order, each tagged with the agency's name |
| LegacyDownloader.Downloader.RunAttempt | ratings-history-express/src/services/downloader.ts:114-172 | a missing agency throws "Agency not found". Otherwise the call emits exactly its log, resolves, and empties the agency's list |
| LegacyDownloader.Downloader.RunLogged | ratings-history-express/src/services/downloader.ts:122-168 | a call emits the `try` block's messages and then the `catch` block's report |
| LegacyDownloader.Downloader.RunTry | ratings-history-express/src/services/downloader.ts:122-162 | the `try` block emits the download and archive messages in order, up to the first thrown value, and "Completed!" when nothing is thrown |
| LegacyDownloader.Downloader.RunFiles | ratings-history-express/src/services/downloader.ts:146-160 | the archive loop emits each archive's messages and stops at the first thrown value, which it returns |
| LegacyDownloader.Downloader.Initiate | ratings-history-express/src/services/downloader.ts:113-181 | "Queued..." is emitted for any name before the task is added, so a refused duplicate still shows it. The queue changes as `addTask` says, with one attempt |
| LegacyDownloader.Downloader.Abort | ratings-history-express/src/services/downloader.ts:183-190 | the queued task is cancelled, and "Cancelled by user" is emitted only when it was |
| Uploader.UploadLog | ratings-history-express/src/services/uploader.ts:39-49 | one call of the upload task emits "Process started" and then exactly one more message: "Completed!" when processing succeeds, or an error message with what it threw |
| Uploader.OneUploadAtATime | ratings-history-express/src/services/uploader.ts:51-53 | while an upload is queued or running, a second one is refused and the queue is left as it was. Otherwise it is accepted |
| Uploader.UploadNeverFails | ratings-history-express/src/services/uploader.ts:39-49 | the queue reports every upload done on its first call, because the task catches what processing throws |
| Uploader.InitiateLog | ratings-history-express/src/services/uploader.ts:39-53 | what `initiate` emits: "Queued...", then "Process started" when `addTask` starts the upload at once |
| Uploader.InitiateReports | ratings-history-express/src/services/uploader.ts:39-53 | "Queued..." is always emitted first. The upload body is called inside the call exactly when "Process started" is emitted; the upload is then accepted and the messages are those two |
| Uploader.Uploader.constructor | ratings-history-express/src/services/uploader.ts:31-34 | no messages and no archive path |
| Uploader.Uploader.AppendMessage | ratings-history-express/src/services/uploader.ts:56-58 | the new message goes in front of the others, which keep their order |
| Uploader.Uploader.GetMessages | ratings-history-express/src/services/uploader.ts:76-78 | the current message log |
| Uploader.Uploader.Cleanup | ratings-history-express/src/services/uploader.ts:60-69 | the log is emptied at once. A set archive path is unlinked and then forgotten; if the unlink fails, the path stays and the failure is returned |
| Uploader.Uploader.Emit | ratings-history-express/src/services/uploader.ts:6-25 | one upload-update event is emitted |
| Uploader.Uploader.RunAttempt | ratings-history-express/src/services/uploader.ts:39-49 | a call emits `UploadLog` and empties the log. It resolves even when `cleanup` fails, because that promise is not awaited |
| Uploader.Uploader.Open | ratings-history-express/src/services/uploader.ts:40-41 | the task up to its first `await`: "Process started" is emitted and nothing else changes |
| Uploader.Uploader.Resume | ratings-history-express/src/services/uploader.ts:42-48 | the rest of the task: the outcome message of `UploadLog` is emitted, the log is emptied, and the task resolves |
| Uploader.Uploader.Initiate | ratings-history-express/src/services/uploader.ts:36-54 | the queue and outcome are those of `InitiateStep`. The call emits `InitiateLog`: "Queued...", then "Process started" when the upload starts at once. The message log and the archive path are untouched |
| Uploader.Uploader.Abort | ratings-history-express/src/services/uploader.ts:71-74 | the queued upload is cancelled, and "Cancelled by user" is emitted only when it was |
| LegacyScheduler.RetryTask | ratings-history-express/src/services/scheduler.ts:21-37 | the retry loop's outcome and number of calls are those of `RetryResult` |
| LegacyScheduler.RetryStopsAtFirstSuccess | ratings-history-express/src/services/scheduler.ts:22-25 | a task that first resolves on call k ≤ retries is called exactly k times, and `retryTask` resolves |
| LegacyScheduler.RetryRethrowsLast | ratings-history-express/src/services/scheduler.ts:26-29 | a task that fails every call is called `retries` times, and the last call's error is thrown again |
| LegacyScheduler.RetryAtMost | ratings-history-express/src/services/scheduler.ts:21-37 | the task is never called more than `retries` times. With retries below 1 it is not called at all and `retryTask` resolves |
| LegacyScheduler.Thrown | ratings-history-express/src/services/scheduler.ts:55-96 | the agency task's `try` block throws the agency function's failure first. Nothing is thrown exactly when the answer, the downloads and the processing all succeed |
| LegacyScheduler.Opening | ratings-history-express/src/services/scheduler.ts:62-81 | the messages before processing are all progress messages |
| LegacyScheduler.Closing | ratings-history-express/src/services/scheduler.ts:95-101 | the last message is "Completed!" when nothing is thrown, and otherwise the `catch` block's report |
| LegacyScheduler.TaskLog | ratings-history-express/src/services/scheduler.ts:52-103 | a call emits only progress messages and then at most one final message. That message is "Completed!" exactly when nothing was thrown, and nothing final follows a thrown value that is not an `Error` |
| LegacyScheduler.ClosingReportsErrors | ratings-history-express/src/services/scheduler.ts:96-101 | the task ends silently exactly when it throws something other than an `Error`. An error message is always the thrown `Error`'s own message |
| LegacyScheduler.RunsOnce | ratings-history-express/src/services/scheduler.ts:39-41 | because the agency task swallows its errors, `runTaskWithRetry` calls it exactly once per trigger whenever `maxRetries` ≥ 1 |
| LegacyScheduler.Wrapped | ratings-history-express/src/services/scheduler.ts:105-107 | the queued wrapper is one call, which resolves exactly when `retryTask` does |
| LegacyScheduler.FirstClash | ratings-history-express/src/services/scheduler.ts:51-108 | the first name of the trigger that would be refused, because it is already queued or running or repeats an earlier name |
| LegacyScheduler.ClashShift | ratings-history-express/src/services/scheduler.ts:51-108 | once the first name is added, the later names clash exactly as before, one place earlier |
| LegacyScheduler.EnqueueAdds | ratings-history-express/src/services/scheduler.ts:51-108 | a trigger succeeds exactly when no name clashes, and fails otherwise with the duplicate error. Afterwards exactly the names before the first clash have been added to the tasks already there |
| LegacyScheduler.Scheduler.constructor | ratings-history-express/src/services/scheduler.ts:14-19 | the agency names, the rule and the retries are fixed |
| LegacyScheduler.Scheduler.RunTaskWithRetry | ratings-history-express/src/services/scheduler.ts:39-41 | `retryTask` is run with `maxRetries` |
| LegacyScheduler.Scheduler.Trigger | ratings-history-express/src/services/scheduler.ts:48-109 | one firing adds the wrapped task of each agency, in key order, and the first refusal stops the rest |
| Scheduler.SweepStep | express-server/src/services/scheduler.ts:25-36 | one firing as a fold over `tasks`: each name goes through `initiate` on the queue the earlier ones left; a refusal's message is logged and an accepted name is kept |
| Scheduler.SweepLog | express-server/src/services/scheduler.ts:25-36 | the updates of one firing: for each name in turn, what `initiate` emits on the queue the earlier names left, tagged with that name |
| Scheduler.SweepQueued | express-server/src/services/scheduler.ts:25-36 | the names whose "Queued..." a firing emits are exactly the accepted names, in `tasks` order |
| Scheduler.SweepAddsAll | express-server/src/services/scheduler.ts:25-36 | a refusal does not stop the firing. Afterwards every configured agency named in `tasks` is queued or running, besides what already was, and nothing else is. Each name is either queued or logged, once |
| Scheduler.SweepClean | express-server/src/services/scheduler.ts:25-36 | nothing is logged exactly when every name is a known agency, is neither queued nor running, and appears only once |
| Scheduler.Scheduler.constructor | express-server/src/services/scheduler.ts:9-15 | the names, the rule and the retries are fixed |
| Scheduler.Scheduler.Run | express-server/src/services/scheduler.ts:22-37 | one firing calls `initiate` with the configured retries for every name, in order, and a refusal does not stop it. The queue and the log are those of `SweepStep`, the emitted updates are `SweepLog`, and the agency lists are untouched |
| Services.Wire | backend-node/src/services/index.ts:13-19 | the shared instances: a queue that runs one task at a time, a downloader with every configured agency, an empty hub, and a scheduler for every agency with 3 retries on the rule "0 0 1,15 * *" |
| Services.OnUploadUpdate | backend-node/src/services/index.ts:21-34 | an upload message goes first in the upload log, and the whole log is broadcast to its subscribers |
| Services.OnAgenciesUpdate | backend-node/src/services/index.ts:36-51 | a message for a known agency goes first in its list, and the whole agencies map is broadcast. For an unknown agency the error is logged, nothing changes and nothing is broadcast |
| Services.FailedRows | backend-node/src/services/index.ts:74 | the failed rows are exactly the report's rows with a truthy error |
| Services.IntText | backend-node/src/services/index.ts:86 | an attempt count is rendered as non-empty text |
| Services.Line | backend-node/src/services/index.ts:84-89 | a list item reads "Error: " after its head exactly when the task failed, and then contains the error's message |
| Services.RowsOf | backend-node/src/services/index.ts:66-72 | the report's entries, one row per key in key order |
| Services.DistinctCount | backend-node/src/services/index.ts:66-72 | a report enumerated without repeated keys has as many rows as keys |
| Services.SummaryCounts | backend-node/src/services/index.ts:66-92 | every task is counted once. The failed count is the number of tasks with a non-empty error message, and the successful count is the rest, never negative |
| Services.Summarize | backend-node/src/services/index.ts:66-92 | the report e-mail counts every row as attempted and as either successful or failed, with no negative count. Its details are the rows' list items in order |
| Callbacks.CallAll | admin-panel/src/services/emitter.ts:16 | every callback of the list is called once, in list order, with the same data |
| Callbacks.Without | admin-panel/src/services/emitter.ts:29 | the filter keeps exactly the callbacks other than the removed one |
| Callbacks.WithoutAppend | admin-panel/src/services/emitter.ts:29 | the filter keeps the other callbacks in their order: filtering a concatenation filters each part |
| Callbacks.WithoutAbsent | admin-panel/src/services/emitter.ts:29 | filtering a list that does not hold the callback leaves it unchanged |
| Emitter.DispatchCalls | admin-panel/src/services/emitter.ts:13-17 | an event without a list calls nothing. Otherwise each registered callback is called once, in subscription order, with the data |
| Emitter.SubscribeStep | admin-panel/src/services/emitter.ts:19-24 | the callback is appended to the event's list, which is created when missing. Other events keep their lists |
| Emitter.UnsubscribeStep | admin-panel/src/services/emitter.ts:26-30 | an event without a list changes nothing. Otherwise the event's list keeps exactly the other callbacks, and other events keep their lists |
| Emitter.SubscribeTwiceRunsTwice | admin-panel/src/services/emitter.ts:19-24 | a callback subscribed twice is called twice on the next dispatch, after the earlier callbacks |
| Emitter.UnsubscribeRemovesEvery | admin-panel/src/services/emitter.ts:26-30 | after unsubscribing, a dispatch never calls that callback, however often it was subscribed. Subscribing and then unsubscribing a new callback leaves the dispatch as it was |
| Emitter.EventsIndependent | admin-panel/src/services/emitter.ts:19-30 | subscribing or unsubscribing for one event changes no dispatch of another event |
| Emitter.EventEmitter.constructor | admin-panel/src/services/emitter.ts:7-10 | no event has a list and nothing has been called |
| Emitter.EventEmitter.Dispatch | admin-panel/src/services/emitter.ts:13-17 | the callbacks called are exactly those of `DispatchCalls`, and the lists are unchanged |
| Emitter.EventEmitter.Subscribe | admin-panel/src/services/emitter.ts:19-24 | the lists become those of `SubscribeStep`, and nothing is called |
| Emitter.EventEmitter.Unsubscribe | admin-panel/src/services/emitter.ts:26-30 | the lists become those of `UnsubscribeStep`, and nothing is called |
| ClientSocket.Command | ratings-history-react/src/services/socket.ts:76-86 | the hub subscribes or unsubscribes on the client's message exactly when the action names it and the event is non-empty, on that event |
| ClientSocket.Effect | ratings-history-react/src/services/socket.ts:76-94 | the hub's channel set after a sequence of the client's messages never gains an empty channel |
| ClientSocket.Resubscribes | ratings-history-react/src/services/socket.ts:33-36 | the re-subscription sends one subscribe message per subscribed event, in the set's order |
| ClientSocket.EffectAppend | ratings-history-react/src/services/socket.ts:27-36 | handling one batch of messages and then another is the same as handling both in order |
| ClientSocket.ResubscribeEffect | ratings-history-react/src/services/socket.ts:33-36 | the re-subscription adds every non-empty subscribed event and nothing else |
| ClientSocket.ReopenRestores | ratings-history-react/src/services/socket.ts:23-37 | after a connection or reconnection opens, the hub's channel set for it is exactly the client's non-empty subscribed events. The flushed queue cannot leave an extra channel, and the re-subscription adds them all |
| ClientSocket.OpenStaysInSync | ratings-history-react/src/services/socket.ts:68-95 | while the socket is OPEN, each subscribe or unsubscribe keeps the hub's channel set equal to the client's non-empty subscribed events |
| ClientSocket.WebSocketService.constructor | ratings-history-react/src/services/socket.ts:12-18 | no socket, no listeners, an empty queue and no subscribed events |
| ClientSocket.WebSocketService.Connect | ratings-history-react/src/services/socket.ts:20-21 | a new socket is CONNECTING, and the queue and subscriptions are kept |
| ClientSocket.WebSocketService.OnOpen | ratings-history-react/src/services/socket.ts:23-37 | SOCKET_OPEN is dispatched. The queued messages are sent in order and the queue is emptied, then a subscribe is sent for every subscribed event |
| ClientSocket.WebSocketService.OnMessage | ratings-history-react/src/services/socket.ts:39-46 | every listener of the message's event is called once, in registration order, with its data. An event without listeners calls nothing |
| ClientSocket.WebSocketService.OnClose | ratings-history-react/src/services/socket.ts:52-61 | a reconnection is scheduled for every close code except 1000, the normal closure |
| ClientSocket.WebSocketService.Disconnect | ratings-history-react/src/services/socket.ts:64-66 | the current socket, if any, is closed with code 1000; with no socket nothing happens |
| ClientSocket.WebSocketService.Subscribe | ratings-history-react/src/services/socket.ts:68-83 | the event joins the set and the callback is appended to its listeners. The subscribe message is sent when the socket is OPEN, and queued otherwise |
| ClientSocket.WebSocketService.Unsubscribe | ratings-history-react/src/services/socket.ts:85-95 | the unsubscribe message is sent when the socket is OPEN, and queued otherwise. The event leaves the set, but its listeners stay registered |
| JsObject.Put | ratings-history-express/src/services/filer.ts:88 | assigning a key stores the value. An existing key keeps its place and a new key is appended, so the keys stay listed once each |
| JsObject.Remove | ratings-history-express/src/services/filer.ts:98 | deleting a key drops its value, and the other keys keep their place |
| Filer.Basename | ratings-history-express/src/services/filer.ts:88 | a basename never contains a separator |
| Filer.LastSegment | ratings-history-express/src/services/filer.ts:88 | the last segment is a separator-free suffix of the path, and a separator comes just before it |
| Filer.BasenameOfJoin | ratings-history-express/src/services/filer.ts:88 | the basename of a file's path in the output directory is the file's name, so watcher events are filed under the names the listing uses |
| Filer.ApplyEvent | ratings-history-express/src/services/filer.ts:77-109 | a create or update event stores fresh metadata under the file's name, keeping the other entries. A delete removes the name. Any other event writes the store back unchanged |
| Filer.ApplyEvents | ratings-history-express/src/services/filer.ts:76-110 | applying the events one after another keeps every name listed once |
| Filer.LastTouch | ratings-history-express/src/services/filer.ts:76-110 | the last event of the batch that names the file, or none when no event does |
| Filer.LastEventDecides | ratings-history-express/src/services/filer.ts:76-110 | after a batch, the last event naming a file decides its entry: fresh metadata for a create or update, nothing after a delete. A file no event names keeps its entry |
| Filer.RenameReported | ratings-history-express/src/services/filer.ts:133-139 | a rename reported as a delete then a create moves the entry: the new name holds fresh metadata, the old name is gone, and every other entry is kept |
| Filer.Entry | ratings-history-express/src/services/filer.ts:122-130 | a listing entry is the stored metadata with its name added |
| Filer.Names | ratings-history-express/src/services/filer.ts:48-57 | one name per file found, in directory order |
| Filer.StartupListing | ratings-history-express/src/services/filer.ts:49-57 | the listing `initialize` builds has one entry per file found, in directory order: the file's name and its metadata |
| Filer.KeyedSeed | ratings-history-express/src/services/filer.ts:47-62 | the seed the handler and `get` expect: an object keyed by the names found, in directory order, each holding that file's metadata |
| Filer.KeyedSeedHolds | ratings-history-express/src/services/filer.ts:51-57 | the keyed seed holds each file's generated metadata under the file's name |
| Filer.KeyedSeedLists | ratings-history-express/src/services/filer.ts:127-130 | on the keyed seed, `get()` lists exactly the startup listing |
| Filer.Seed | ratings-history-express/src/services/filer.ts:47-62 | as written, `initialize` stores an array with one element per file found, each the startup listing's entry |
| Filer.SetElement | ratings-history-express/src/services/filer.ts:88 | assigning at an array index stores the value there and keeps the other elements. Past the end, the array grows to that index and the skipped elements are written as `null` |
| Filer.ApplyEventAsWritten | ratings-history-express/src/services/filer.ts:80-108 | on the seeded array, an event throws exactly when it creates, updates or deletes `length`. An event of another type, or on a name that is neither an index nor `length`, writes the array back unchanged. A deletion at an index empties that element and keeps the length and the other elements |
| Filer.Elements | ratings-history-express/src/services/filer.ts:127-130 | `Object.entries` of the array yields at most one entry per element |
| Filer.GetAsWritten | ratings-history-express/src/services/filer.ts:115-131 | on the seeded array, a non-empty name that is not an index finds nothing. Without a name, the listing has at most one entry per element |
| Filer.SeedListsStartup | ratings-history-express/src/services/filer.ts:127-130 | `get()` on the seeded array gives the startup listing, because each element's own name overrides its index |
| Filer.DottedIsProperty | ratings-history-express/src/services/filer.ts:88 | a name containing a dot is neither an array index nor `length` |
| Filer.SeededIgnoresEvents | ratings-history-express/src/services/filer.ts:76-110 | as written, any batch of events on names containing a dot leaves the seeded array exactly as it was |
| Filer.SeedLosesCreate | ratings-history-express/src/services/filer.ts:47-131 | a CSV file created after startup: as written, the array stays the seed, `get(name)` finds nothing and `get()` lists only the startup files. On the keyed seed the same event makes `get(name)` return the file's metadata |
| Filer.Get | ratings-history-express/src/services/filer.ts:113-131 | for a non-empty name, that file's entry, or undefined exactly when it is not stored. For no name or the empty name, one entry per stored file, in key order |
| Filer.Filer.constructor | ratings-history-express/src/services/filer.ts:43-68 | the filer starts from the files found in the output directory, with the store seeded with them as an object keyed by name, so `get()` gives the startup listing. No errors are logged yet |
| Filer.Filer.SubscribeHandler | ratings-history-express/src/services/filer.ts:70-111 | a watcher error is logged and nothing is applied. Otherwise the events are applied one at a time, in order, and the directory is untouched |
| Filer.Filer.GetListing | ratings-history-express/src/services/filer.ts:113-131 | the listing is `Get` of the current store |
| Filer.Filer.Rename | ratings-history-express/src/services/filer.ts:133-139 | an existing file is renamed in the directory and its old path is returned. A missing file rejects with ENOENT. The store is left to the watcher |
| Filer.Filer.Delete | ratings-history-express/src/services/filer.ts:141-146 | an existing file is removed and its path returned. A missing file rejects with ENOENT. The store is left to the watcher |
| General.DateToken | express-server/src/utils/general.ts:6-7 | a name's date token is a prefix of the name without a space |
| General.SplitFirst | express-server/src/utils/general.ts:6-7 | the first piece of a split on a space is a space-free prefix |
| General.CompareMetadata | express-server/src/utils/general.ts:5-14 | a later date token sorts first (-1), an earlier one last (1). Equal tokens fall back to `localeCompare` on the whole names |
| General.CompareAntisymmetric | express-server/src/utils/general.ts:5-14 | given a `localeCompare` that flips sign when its arguments are swapped, swapping the two files flips the comparator's sign |
| General.CompareZero | express-server/src/utils/general.ts:5-14 | the comparator gives 0 only for equal date tokens with `localeCompare` giving 0. Different tokens always decide, the later one first |
| Utils.EscapeCsvValue | ratings-history-express/src/utils.ts:168-172 | undefined stays undefined. A value with a comma, quote or newline is quoted with its quotes doubled, and any other value is returned unchanged |
| Utils.EscapeCsvValueReadsBack | ratings-history-express/src/utils.ts:168-172 | a CSV field reader reads the escaped value back as the original, with nothing left over |
| Utils.CookiePieces | ratings-history-express/src/utils.ts:12-14 | one `name=value;` piece per cookie, in order |
| Utils.CookieHeader | ratings-history-express/src/utils.ts:11-21 | no cookies give the empty header, and one cookie gives its own piece |
| Utils.CookieHeaderSplits | ratings-history-express/src/utils.ts:11-21 | for cookies whose names and values hold no space, splitting the header on spaces gives back exactly the per-cookie pieces |
| Utils.CountLines | ratings-history-express/src/utils.ts:212-215 | every file counts at least one line |
| Utils.CountLinesIsFeedsPlusOne | ratings-history-express/src/utils.ts:212-215 | the count is the number of newline characters plus one, so the empty file has one line |
| Utils.NonEmpty | ratings-history-express/src/utils.ts:98 | the result keeps exactly the non-empty pieces |
| Utils.SliceFrom | ratings-history-express/src/utils.ts:96 | `slice(n)` is the suffix after `n` characters, or empty when `n` is past the end |
| Utils.DestNameIsFlat | ratings-history-express/src/utils.ts:95-103 | the destination name holds no path separator and no space: it is the path below the folder, its segments joined by `-`, every space replaced by `-` |
| Utils.DestNameOfTopLevelFile | ratings-history-express/src/utils.ts:95-103 | a file directly in the folder, whose name has no separator or space, keeps its name |
| Utils.WalkFindsOnlyFiles | ratings-history-express/src/utils.ts:57-78 | the recursive walk collects only regular files of the tree |
| Utils.WalkFindsAllFiles | ratings-history-express/src/utils.ts:57-78 | when no `stat` or `readdir` fails, the walk collects every regular file, directories expanded in place |
| Utils.FilesInDirectory | ratings-history-express/src/utils.ts:57-78 | appends to the accumulator exactly the walk's paths: a failing `stat` ends that directory's listing and an unreadable directory adds nothing |
| Utils.FileTree.constructor | ratings-history-express/src/utils.ts:79-90 | the tree starts with the given files and device map |
| Utils.FileTree.Rename | ratings-history-express/src/utils.ts:81 | a missing source fails with ENOENT and a cross-device rename with EXDEV, both changing nothing. Otherwise the file moves to the new path |
| Utils.FileTree.CopyFile | ratings-history-express/src/utils.ts:84 | a missing source fails with ENOENT. Otherwise the new path gets the source's contents and the source stays |
| Utils.FileTree.Unlink | ratings-history-express/src/utils.ts:85 | a missing path fails with ENOENT. Otherwise the path is removed |
| Utils.FileTree.Move | ratings-history-express/src/utils.ts:79-90 | whether or not the devices differ, an existing file ends up under the new path only. A missing one fails with ENOENT and changes nothing |
| Utils.MovedFile | ratings-history-express/src/utils.ts:79-90 | after a move the destination holds the source's contents, the source is gone unless it was the destination, and every other path is unchanged |
| Utils.Moves | ratings-history-express/src/utils.ts:92-106 | one move per collected file, in order, each to its destination name under the folder |
| Utils.FlattenFolder | ratings-history-express/src/utils.ts:56-107 | the files are those left by applying the moves in order up to the first one that fails. The call succeeds exactly when no move failed |
| Csv.Escape | express-server/src/services/parser.ts:9-13 | a value with no comma, quote or line feed is written as it is. Any other value is wrapped in quotes |
| Csv.Cell | express-server/src/services/parser.ts:112 | an undefined value is written as the empty cell, a defined one escaped |
| Csv.EscapeRoundTrip | express-server/src/services/parser.ts:9-13 | the escaped cell reads back as exactly the value (quotes stripped, doubled quotes undone) |
| Csv.CellReadsBack | express-server/src/services/parser.ts:9-13 | an escaped cell reads back as the value whatever follows it on the line, provided that is a comma, a line feed or the end |
| Csv.QuotedCellReadsBack | express-server/src/services/parser.ts:9-13 | a value holding a comma, quote or line feed is written quoted with its quotes doubled, and reads back as itself |
| Csv.PlainCellReadsBack | express-server/src/services/parser.ts:9-13 | a value with no comma, quote or line feed is written as it is and reads back as itself |
| Csv.RowReadsBack | express-server/src/services/parser.ts:112 | a row of escaped cells joined by commas reads back as its values, cell for cell |
| Csv.RowsReadBack | express-server/src/services/parser.ts:111-113 | rows joined by line feeds read back as those rows, in order |
| Csv.TableReadsBack | express-server/src/services/parser.ts:95-123 | a file written as a header that needs no quoting and then rows of at least one value reads back as the header followed by every row's texts, undefined read as empty |
| Csv.EscapeAllPlain | express-server/src/services/parser.ts:97 | a header whose names need no quoting is written unchanged, so writing it unescaped equals escaping it |
| Csv.CellsAreEscapedTexts | express-server/src/services/parser.ts:112 | the cells of a row are the escapes of the texts its values read back as |
| Csv.RenderRowsEscaped | express-server/src/services/parser.ts:111-113 | rendering rows equals escaping their read-back texts |
| Csv.LinesAsJoin | express-server/src/services/parser.ts:111-113 | a header followed by rows each preceded by a line feed is the header and rows joined by line feeds |
| Csv.LinesAppend | express-server/src/services/parser.ts:111-113 | writing two batches of lines one after the other gives the lines of both batches together |
| Csv.RenderRowsAppend | express-server/src/services/parser.ts:111-113 | rendering two batches of rows gives the rendering of both batches together |
| Csv.TextRowsAt | express-server/src/services/parser.ts:112 | each read-back row has as many cells as its values, and each cell is its value with undefined read as empty |
| Csv.TextsAt | express-server/src/services/parser.ts:112 | each cell of one row reads back as its value, undefined read as empty |
| CsvFiles.DatePart | express-server/src/services/parser.ts:133 | the date part of the name holds no dash, and is the text `undefined` when the first instrument has no file date |
| CsvFiles.Category | express-server/src/services/parser.ts:133 | the security category when it is set and non-empty, otherwise the obligor's category |
| CsvFiles.CsvName | express-server/src/services/parser.ts:132-133 | the CSV name of an entry, the same in the legacy parser (its lines 137-138): the file date without dashes, the agency and the category, joined by single spaces. `CsvNameParts` proves that the name splits back into those parts |
| CsvFiles.CsvNameParts | express-server/src/services/parser.ts:133 | when its three parts hold no space, the name splits on spaces back into the date without dashes, the agency and the category |
| CsvFiles.AllValues | express-server/src/services/parser.ts:111-113 | one row of values per instrument, in instrument order, each in column order |
| CsvFiles.DataTextAppend | express-server/src/services/parser.ts:109-123 | appending two batches one after the other writes the same text as appending both at once |
| CsvFiles.CsvFileReadsBack | express-server/src/services/parser.ts:95-123 | a file made of the header line and appended rows reads back as the header names followed by one row of texts per instrument |
| CsvFiles.RowTexts | express-server/src/services/parser.ts:112 | each read-back row has one cell per column, and cell k holds the instrument's value for column k, undefined read as empty |
| CsvFiles.NamesAreWrittenNames | express-server/src/services/parser.ts:141-144 | within one archive every CSV name is created once, and exactly the names some entry wrote instruments under are created |
| CsvFiles.AddBatch | express-server/src/services/parser.ts:125-147 | one more entry adds its name when new and appends its instruments to that name's rows. Other names are unchanged, and an entry with no instruments changes nothing |
| CsvFiles.BatchStep | express-server/src/services/parser.ts:125-147 | after each processed entry the staging file of every name holds the header once and then all rows written under it, in entry order. Paths outside the names are untouched |
| CsvFiles.RenameAll | express-server/src/services/parser.ts:187-193 | every staged file ends up in the output directory with its staged text, none stays in staging, and every other path is unchanged |
| Columns.Get | express-server/src/services/parser.ts:62-66 | a tag reads as defined exactly when the instrument holds it, and then with its value |
| Columns.Values | express-server/src/services/parser.ts:112 | one value per column, in column order |
| Columns.HeadersPlain | express-server/src/services/parser.ts:23-58 | there are 32 column names and none of them needs quoting |
| FileStore.Disk.constructor | express-server/src/services/parser.ts:95-123 | the disk starts with the given files |
| FileStore.Disk.Contents | express-server/src/services/parser.ts:115 | a missing file reads as empty, an existing one as its text |
| FileStore.Disk.WriteFile | express-server/src/services/parser.ts:99 | the path is created or truncated to the text, and nothing else changes |
| FileStore.Disk.AppendFile | express-server/src/services/parser.ts:115 | the text is added at the end of the path, which is created when missing. Nothing else changes |
| FileStore.Disk.Rename | express-server/src/services/parser.ts:190 | an existing source moves to the destination, replacing what it held. A missing one fails with ENOENT and changes nothing |
| Parser.RawValue | express-server/src/services/parser.ts:87 | the CDATA capture when it is non-empty, otherwise the text capture, otherwise the empty string |
| Parser.EndPositions | express-server/src/services/parser.ts:81-84 | the positions of exactly the `ORD`/`INRD` closing tags, in increasing order |
| Parser.LastField | express-server/src/services/parser.ts:86-89 | the position of the last element for the tag, with no later one, or none when the tag never occurs |
| Parser.SkipRule | express-server/src/services/parser.ts:164 | a directory is always skipped. Any other name without line terminators is processed exactly when it ends in `.xml` |
| Parser.ReadErrors | express-server/src/services/parser.ts:163-178 | at most one escaping error per entry |
| Parser.Parser.constructor | express-server/src/services/parser.ts:22-67 | the column tags and names are the 32-entry table, in its order, and no column name needs quoting |
| Parser.Parser.StateAfter | express-server/src/services/parser.ts:74-90 | the accumulator after some matches: each tracked tag set by a field match takes that match's value, and nothing else changes it. `StateIsLastValue` proves that it holds each tag's last value |
| Parser.Parser.Records | express-server/src/services/parser.ts:78-90 | the instruments: a copy of the accumulator at every end marker, in text order. `RecordsAtEnds` proves the one-to-one match with the markers |
| Parser.Parser.ParseXml | express-server/src/services/parser.ts:69-93 | one instrument per `ORD`/`INRD` closing tag, in text order, each the accumulator as it stood at that tag |
| Parser.Parser.RecordsAtEnds | express-server/src/services/parser.ts:78-90 | the instruments correspond one to one to the end markers, each the state just before its marker |
| Parser.Parser.RecordsGrow | express-server/src/services/parser.ts:82 | instruments are copies: later matches never alter one already emitted |
| Parser.Parser.NonMarkerEmitsNothing | express-server/src/services/parser.ts:81-84 | a match that is not an end marker emits no instrument |
| Parser.Parser.UntrackedLeavesState | express-server/src/services/parser.ts:86-89 | closing tags and tags outside the column table leave the accumulator unchanged |
| Parser.Parser.StateIsLastValue | express-server/src/services/parser.ts:74-90 | the accumulator holds, for each column tag, the decoded value of that tag's last element, and never sets a tag outside the table. It is never reset between instruments |
| Parser.Parser.RecordFieldIsLastValue | express-server/src/services/parser.ts:74-90 | every emitted instrument holds, for each column, the last value seen for that tag before its end marker, even one from an earlier instrument |
| Parser.Parser.CreateCsvFile | express-server/src/services/parser.ts:95-107 | the file holds exactly the header line, and nothing else changes |
| Parser.Parser.AppendCsvFile | express-server/src/services/parser.ts:109-123 | one line per instrument, each preceded by a line feed, is added after what the file held. Nothing else changes |
| Parser.Parser.Batches | express-server/src/services/parser.ts:163-178 | one batch per entry: a skipped entry or a failed read contributes no instruments |
| Parser.Parser.ProcessXmlData | express-server/src/services/parser.ts:125-147 | an entry with no instruments changes nothing. Otherwise the name of its first instrument is recorded if new, its file gets the header when new, and all its rows are appended |
| Parser.Parser.HandleEntry | express-server/src/services/parser.ts:163-178 | a skipped entry does nothing and a failed read yields its error and writes nothing. Any other entry goes through `processXmlData` |
| Parser.Parser.AddEntry | express-server/src/services/parser.ts:163-178 | one more entry adds its batch and, when its read failed, its error |
| Parser.Parser.EntryAdvance | express-server/src/services/parser.ts:163-180 | each handled entry keeps the staging files in step with the entries so far, and touches nothing outside their names |
| Parser.Parser.ReadEntries | express-server/src/services/parser.ts:156-182 | after the entries, each CSV name's staging file holds the header once and then every row written under that name in entry order. Nothing else is touched, and the escaping errors are collected |
| Parser.Parser.ProcessZipArchive | express-server/src/services/parser.ts:149-201 | an archive that cannot be opened rejects with `Error processing ZIP file:` and its message, writing nothing. An archive that stops with an "error" event rejects the same way with that error. Its entries stay staged with their headers and rows, nothing is moved, and no other path is touched. Otherwise every CSV name ends up in the output directory only, holding its header and all its rows, and no other path is touched. The read errors that reject the un-awaited entry handler are returned as `unhandled`. The model does not stop on them (see "## Left out") |
| LegacyParser.PrevKey | ratings-history-express/src/services/parser.ts:69-86 | the first element sees the empty key, and every later one the tag of the element before it |
| LegacyParser.Value | ratings-history-express/src/services/parser.ts:90 | a non-empty CDATA capture, otherwise the text capture (unset after an empty CDATA section) |
| LegacyParser.Copies | ratings-history-express/src/services/parser.ts:95-99 | `n` rows, every one the same record |
| LegacyParser.Pushes | ratings-history-express/src/services/parser.ts:94-100 | the number of rows a document yields: one per `RTT` element, plus one per `RT` element when the document has no `RTT` element. There are never more rows than elements |
| LegacyParser.ZipError | ratings-history-express/src/services/parser.ts:218-221 | the wrapped message is the prefix followed by the rejection's message, or by the rejection itself when it is a bare string. It agrees with the code as written for `Error` objects |
| LegacyParser.ZipErrorAsWritten | ratings-history-express/src/services/parser.ts:220 | the wrapping as the code evaluates it: an `Error` rejection reads as the prefix and its message, and a string rejection always reads `Error processing zip file: undefined` |
| LegacyParser.ZipErrorLosesReason | ratings-history-express/src/services/parser.ts:220 | as written, every string rejection reads `Error processing zip file: undefined`, so different reasons give the same text. The intended wrapping keeps them apart |
| LegacyParser.Instrument.constructor | ratings-history-express/src/services/parser.ts:60-62 | the accumulator starts with every key undefined |
| LegacyParser.Instrument.Set | ratings-history-express/src/services/parser.ts:91 | one key is set to the value, and every other key keeps its value |
| LegacyParser.LegacyParser.constructor | ratings-history-express/src/services/parser.ts:17-50 | the column tags and names are the 32-entry table, in its order, and no column name needs quoting |
| LegacyParser.LegacyParser.ElementError | ratings-history-express/src/services/parser.ts:77-92 | an element raises a misplaced-RTT error exactly when it is an RTT not following an allowed key. It raises an undefined-value error exactly when it is otherwise a column element whose value is unset |
| LegacyParser.LegacyParser.ElementErrorPrefix | ratings-history-express/src/services/parser.ts:77-84 | whether an element raises depends only on it and the element before it |
| LegacyParser.LegacyParser.FirstError | ratings-history-express/src/services/parser.ts:73-101 | the error the parse throws, if any: that of the first element that raises. `FirstErrorIsFirst` proves that reading |
| LegacyParser.LegacyParser.StateAfter | ratings-history-express/src/services/parser.ts:60-92 | the accumulator after some elements: each column tag with a value takes its decoded value, and nothing else changes it |
| LegacyParser.LegacyParser.FirstErrorIsFirst | ratings-history-express/src/services/parser.ts:73-101 | parsing throws exactly when some element raises, and then with the first such element's error |
| LegacyParser.LegacyParser.RttFollowsAllowedKey | ratings-history-express/src/services/parser.ts:70-84 | in a document that parses, every RTT directly follows RT, RST, RAC, WST, OAN or ROL, and the first element is not an RTT |
| LegacyParser.LegacyParser.FirstErrorPrefix | ratings-history-express/src/services/parser.ts:73-101 | an error raised early is the error of the whole document, whatever follows |
| LegacyParser.LegacyParser.ElementStep | ratings-history-express/src/services/parser.ts:73-101 | after elements that raised nothing, one more element raises exactly its own error, applies its value to the accumulator, and adds its pushes |
| LegacyParser.LegacyParser.ParseXml | ratings-history-express/src/services/parser.ts:52-104 | the parse throws exactly for the first offending element. Otherwise there is one entry per RTT, or per RT when the document has no RTT, and every entry is the same accumulator object holding the state after the whole document |
| LegacyParser.LegacyParser.DocumentRows | ratings-history-express/src/services/parser.ts:52-104 | a document that throws yields no rows. Otherwise it yields as many rows as pushes, each the final accumulator |
| LegacyParser.LegacyParser.RowsAllEqual | ratings-history-express/src/services/parser.ts:94-100 | any two rows of one document are equal: every instrument carries the last instrument's rating |
| LegacyParser.LegacyParser.CreateCsvFile | ratings-history-express/src/services/parser.ts:106-115 | the file holds exactly the header line, and nothing else changes |
| LegacyParser.LegacyParser.AppendCsvFile | ratings-history-express/src/services/parser.ts:117-128 | one line per row, each preceded by a line feed, is added after what the file held. Nothing else changes |
| LegacyParser.LegacyParser.ProcessXmlData | ratings-history-express/src/services/parser.ts:130-154 | a throwing parse writes nothing and is returned. Otherwise, when there are rows, the first row's name is recorded if new, its file gets the header when new, and the rows are appended |
| LegacyParser.LegacyParser.Batches | ratings-history-express/src/services/parser.ts:172-199 | one batch per entry: a directory, a failed read or a throwing parse contributes no rows |
| LegacyParser.LegacyParser.Log | ratings-history-express/src/services/parser.ts:189-195 | at most one logged failure per entry |
| LegacyParser.LegacyParser.LogNamesFailures | ratings-history-express/src/services/parser.ts:180-195 | every logged failure names an entry of the archive that contributed no rows |
| LegacyParser.LegacyParser.HandleEntry | ratings-history-express/src/services/parser.ts:172-199 | a directory is passed over. A failed read or a throwing parse is logged under the entry's name instead of rejecting, and any other entry's rows are written |
| LegacyParser.LegacyParser.AddEntry | ratings-history-express/src/services/parser.ts:172-199 | one more entry adds its batch and its logged failure, if any |
| LegacyParser.LegacyParser.EntryAdvance | ratings-history-express/src/services/parser.ts:172-202 | each handled entry keeps the staging files in step with the entries so far, and touches nothing outside their names |
| LegacyParser.LegacyParser.ReadEntries | ratings-history-express/src/services/parser.ts:164-205 | after the entries, each CSV name's staging file holds the header once and then every row written under that name, in entry order. Nothing else is touched, and every failure is logged |
| LegacyParser.LegacyParser.ProcessZipArchive | ratings-history-express/src/services/parser.ts:156-222 | an archive that cannot be opened rejects with the error wrapped as written (`ZipErrorAsWritten`) and writes nothing. Once it opens, every entry is staged with its header and rows, every failure is logged, and nothing else is touched. An "error" event then rejects the call with that error wrapped as written and starts no rename; the "end" event lets the call return with every CSV name's rename pending |
| Status.KindName | backend-node/src/services/downloader.ts:10-31 | a message's type is one of `message`, `error` and `exit` |
| Status.Tagged | backend-node/src/services/downloader.ts:10-31 | one update per message, in order, each naming the agency |
| Status.Seeded | backend-node/src/services/downloader.ts:46-51 | exactly the configured agencies, each with no messages |
| Status.TaggedSnoc | backend-node/src/services/downloader.ts:10-31 | emitting one more message extends the agency's tagged updates by that message |
| Status.TaggedAppend | backend-node/src/services/downloader.ts:10-31 | emitting several more messages extends the agency's tagged updates by them, in order |
| Status.TaggedAround | backend-node/src/services/downloader.ts:10-31 | a first message, several more and a last one are the tagged updates of the three together, in order |
| Strings.Trim | backend-node/src/services/socket.ts:99 | the result is the text between the leading and the trailing white space, and starts and ends with a non-space when non-empty |
| Strings.Lower | ratings-history-react/src/config.ts:16 | the text with every character lowercased, same length |
| Strings.IndexOf | ratings-history-react/src/config.ts:7 | the position of the leftmost occurrence of the separator, or none exactly when it does not occur |
| Strings.JoinSplit | ratings-history-express/src/utils.ts:99-101 | joining the pieces of a split with the same separator gives back the original text |
| Strings.SplitJoin | ratings-history-express/src/utils.ts:97-99 | splitting a join of separator-free pieces on that one-character separator gives back the pieces |
| Strings.SplitJoinIsReplace | ratings-history-express/src/utils.ts:100-101 | splitting on a character and joining with a replacement replaces every occurrence of the character |
| Strings.LexLessIrreflexive | express-server/src/utils/general.ts:10-11 | no string is less than itself |
| Strings.LexLessAsymmetric | express-server/src/utils/general.ts:10-11 | the two comparisons of the comparator never both hold |
| Strings.LexLessTotal | express-server/src/utils/general.ts:10-11 | of two different strings one is less than the other |
| Strings.LexLessTransitive | express-server/src/utils/general.ts:10-11 | string order is transitive |
| Strings.NatText | backend-node/src/services/downloader.ts:141-144 | a whole number renders as a non-empty string of decimal digits |
| AgenciesView.MergeOne | admin-panel/src/components/AgenciesView.tsx:33-39 | the merged view stays a well-formed object |
| AgenciesView.MergeKeys | admin-panel/src/components/AgenciesView.tsx:28-40 | the merged view stays a well-formed object |
| AgenciesView.MergeKeysMeaning | admin-panel/src/components/AgenciesView.tsx:28-40 | the loop throws exactly when an agency with an empty incoming list has no previous entry. Otherwise each visited agency holds its non-empty incoming list or else its previous one, every other agency keeps its entry, and previous agencies keep their places |
| AgenciesView.MergedMeaning | admin-panel/src/components/AgenciesView.tsx:21-43 | an empty view takes the snapshot as it is. Otherwise every agency of the snapshot takes its non-empty list or keeps its previous one, absent agencies are unchanged, and the update throws exactly when an empty incoming list has no previous entry |
| AgenciesView.FailureSticks | admin-panel/src/components/AgenciesView.tsx:28-40 | once the loop throws, the remaining keys do not matter |
| AgenciesView.Merge | ratings-history-react/src/components/AgenciesView.tsx:19-41 | the reducer's result is the merge described above, including its throw |
| Auth.AnyMatches | express-server/src/middlewares/authMiddleware.ts:18-31 | true exactly when some public endpoint matches the request |
| Auth.PublicRequests | express-server/src/middlewares/authMiddleware.ts:4-31 | the public requests are exactly GET `/files` and POST on any path under `/auth/`. So GET `/files/x` and GET `/auth/login` are not public |
| Auth.Decide | express-server/src/middlewares/authMiddleware.ts:13-66 | a request passes exactly when it is public or carries a token that verifies, and only a verified token sets a user. Missing cookies give 400 NO_COOKIES and a missing or empty token 401 INVALID_TOKEN. Every other rejection is 401 TOKEN_EXPIRED or 403 FORBIDDEN |
| Auth.PublicIgnoresCookies | express-server/src/middlewares/authMiddleware.ts:33-36 | a public request passes whatever its cookies and however tokens verify |
| Auth.TokenDecides | express-server/src/middlewares/authMiddleware.ts:52-65 | for a non-public request with a token, the verdict decides: the payload becomes the user, an expired token gives 401 and any other failure 403 |
| Config.Parts | ratings-history-react/src/config.ts:1-15 | an undefined or empty base URL throws `Base URL is not defined`. A non-empty one throws the format error exactly when it holds no `://` |
| Config.Host | ratings-history-react/src/config.ts:15 | the segment after the protocol is a prefix of the rest holding no `://` |
| Config.FirstSeparator | ratings-history-react/src/config.ts:7 | the text before the first `://` holds none |
| Config.PartsAt | ratings-history-react/src/config.ts:7-15 | the first two pieces are the text before the first `://` and the segment after it up to the next one |
| Config.ClientConfigMeaning | ratings-history-react/src/config.ts:1-22 | an undefined or empty base URL, or one without `://`, throws. Otherwise the API URL is the base with `/api/v1`, and the WebSocket URL is `wss` exactly when the protocol lowercased is `https` (else `ws`), then `://`, the host segment and `/ws` |
| Config.AdminConfigMeaning | admin-panel/src/config.ts:1-21 | the same checks and WebSocket URL, with the API URL the base URL unchanged |

## Left out

- I/O internals: puppeteer, axios, HTTP routes, e-mail transport (addresses and HTML), `console` logging and the process monitor. The monitor sample is a number handed to the sockets. Browser-side code beyond the socket service and the agencies view is also out.
- Regular expressions and `entities.decode`: each parser's value regex is modelled by the sequence of matches it yields. `decode` is a parameter. The legacy parser's `rttRegex` test is a flag on the document.
- Concurrency: asynchronous steps are taken one at a time. `addTask` on an idle queue runs the new task up to its first `await` inside the call: the downloader's and uploader's `Initiate` emit that synchronous prefix (`Open`), and the task's later part (`Resume`) runs when the queue loop resumes it. Interleavings of several running tasks beyond that are not modelled. The legacy parser's un-awaited renames are returned as pending names, and `CsvFiles.RenameAll` is what they do. The legacy scheduler processes its archives concurrently, and its per-archive "XBRL files successfully processed" messages are not part of `LegacyScheduler.TaskLog`. The messages a legacy agency function emits before its own first `await` are not modelled.
- Write failures of `fs.writeFile`/`fs.appendFile`: the CSV writes always succeed. So the wrapping of their errors (legacy parser lines 113 and 126, the same operator slip as the Findings row) is not modelled. Those errors are `Error` objects, for which the slip is harmless.
- Path handling: `path.join`/`path.resolve` normalisation is left out. Staging and output files are `FileStore.Path` values, and `Utils.FlattenFolder` joins with a separator without normalising.
- The legacy tasker (`ratings-history-express/src/services/tasker.ts`) has its operations commented out. The legacy downloader, uploader and scheduler are therefore modelled on the backend `Tasker`, with one attempt.
- The backend's own uploader and scheduler files are not part of this model. The legacy `Uploader` stands in for the former in `Services`, and the express-server scheduler, which drives `BackendDownloader`, for the latter.
- Scheduling rules (`node-schedule` cron expressions) are left out: `Scheduler.Scheduler.Run` and `LegacyScheduler.Scheduler.Trigger` are one firing each.
- `createEmitter` is modelled by the log of updates it emits. The legacy downloader and legacy scheduler import `createEmitter` from `../agencies`, which exports only `agenciesFunctionsMap` and `emit`; as written, that call throws a `TypeError` outside their `try`. The model substitutes the backend emitter for both, so that failure is not modelled.
- Parser.Parser.ProcessZipArchive: a read error rejects the entry handler, which nothing awaits. The express server installs no `unhandledRejection` handler, so Node's default ends the process before the archive settles and before any rename. The model returns those errors as `unhandled` and carries on to the renames. The process exit is not modelled.
- Strings.LexLess: compares characters by Unicode scalar value, where JavaScript's `<` compares UTF-16 code units. The orders differ only between characters above U+FFFF and those from U+E000 to U+FFFF, and the date tokens it orders are the digits of the file names this code writes.
- Client socket: incoming messages that are not valid JSON are left out. The reconnect timer is a counter (`reconnects`), and handlers still attached to replaced sockets are not modelled.
- Emitter: dispatch is recorded as the log of callbacks called, not as running them.
- Filer:
  - `generateMetadata` (stat and line count) is carried by the watcher event;
  - the mutex is sequential application of the events;
  - as written, `initialize` seeds the file with an array, so the cache never follows the watcher (see "## Findings"). The class runs on the keyed seed. Events on names that are array indices or `length` are modelled on the array. Deleting `length` is taken to throw, as it does in strict-mode code;
  - Filer.GetAsWritten: `length`, and names the array inherits such as `map` or `constructor`, are truthy in the source, and `get` then returns an entry holding only the name. The model finds nothing for them. In `get()`, a `null` element is listed by the source as an entry holding only its index; the model skips it;
  - `unsubscribe` is a stub in the code and is not modelled.
- JavaScript objects: the ordering of integer-like keys ahead of other keys is left out. Keys keep insertion order. Keys inherited from the prototype (`constructor`, `toString`, …) are not found by a lookup, where the source reads them as present.
- `localeCompare` and `jwt.verify` are parameters. `Strings.Lower` lowercases ASCII letters only. `Strings.Trim` knows ASCII white space, the no-break space and the byte-order mark only.
- Message fields that are not strings, and the WebSocket handshake beyond the cookie check, are left out.
- Other utilities are left out: `downloadAndExtract`, `extractFromFile`, `emptyFolder`, `exists`, `sleep`, `getAbsoluteLinkFromElement` and the monitor functions. They are I/O without logic of their own. The download internals of `downloadZip` are also left out.

## Findings

| source | as written | input that shows it | evidently intended | confidence | as-written member | corrected member |
|---|---|---|---|---|---|---|
| ratings-history-express/src/services/filer.ts:47-131 | `initialize` writes the listing as a JSON array. The handler assigns and deletes `metadataData[basename]` on the parsed array, and `get(fileName)` reads `storedMetadata[fileName]` | the watcher reports `out/x.csv` created after startup: the property `x.csv` is set on the array, and `JSON.stringify` drops it. The file stays the startup array. `get("x.csv")` is undefined, and `get()` lists only the startup files | an object keyed by file name, seeded with the startup files, where the last event naming a file decides its entry | not executed | Filer.SeededIgnoresEvents | Filer.LastEventDecides |
| ratings-history-express/src/services/parser.ts:220 | `"Error processing zip file: " + err.message ?? err` binds as `("..." + err.message) ?? err`: the left side is never nullish, so `?? err` never applies | a rejection that is a bare string (the archive helpers reject with strings) yields `Error processing zip file: undefined`, and two different reasons give the same text | the message of the rejection, or the rejection itself when it has no message | not executed | LegacyParser.ZipErrorLosesReason | LegacyParser.ZipError |
