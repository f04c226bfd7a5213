# KittyPaw bookkeeping, modelled in Dafny

This project models the part of `apps/kittypaw` that keeps books: its concurrent protocols, the stores
it persists, and the text algorithms and parsers around them. `dafny verify dfyconfig.toml` checks all
of it.

Concurrent code is a labelled transition system: a state, a label for each atomic step, an enabling
condition and a transition function, and a predicate for finite runs over any number of threads. Where
the program updates fields, the model is a class whose methods are tied to functions on values; the
theorems are about these functions. Loops of the program are loops here.

| file | what it models |
|---|---|
| `CdpClient.dfy` | the request/response multiplexer of the Chrome DevTools client |
| `TelegramLog.dfy` | the accounts between the Bot API's queue and the durable event sink, and what a batch does to them |
| `TelegramRuns.dfy` | runs of the long-poll cursor with failures, crashes and restarts |
| `TelegramCursor.dfy` | the poll loop itself |
| `ServiceTokens.dfy` | the service-token manager: unlocked readers, refresh under a mutex, key-by-key saving |
| `DeviceRefresh.dfy` | device-token rotation by callers that share one manager |
| `RelayGroup.dfy` | device tokens in stores, and the accounts that share one relay connector |
| `Heartbeat.dfy` | the heartbeat goroutine against the command of a dispatched Kanban run |
| `LockFile.dfy` | the lock-file critical section of the local auth store |
| `Health.dfy` | the compare-and-swap loops of `HealthState` |
| `Secrets.dfy` | the secrets file, its migration on load, and the store object |
| `ChatTurns.dfy` | the turn queue and the input history of the chat TUI |
| `LineWrap.dfy` | greedy wrapping and colouring of chat lines |
| `Chunks.dfy` | cutting long messages |
| `WizardModels.dfy` | merging the models of the setup wizard |
| `ModelIds.dfy` | slugs, their validation, and the search for a free model id |
| `Base64.dfy`, `PasswordHash.dfy` | the stored form of passwords (RFC 4648, sections 4 and 3.2) |
| `PidFile.dfy` | the PID file and `/proc/<pid>/stat` |
| `SkillArchive.dfy` | saving, archiving, installing and rolling back a skill |
| `Text.dfy` | the parts of Go's `strings` and `strconv` that these call |

## Where the code and its comments part

The model follows the code.

- `ReadPidFile` promises that a corrupt two-line file is not read as a legacy one. A file whose second
  line is blank is (`PidFile.BlankSecondLineDowngrades`); `PidFile.BadSecondLineIsRejectedIff` says
  exactly when the promise holds.
- `LastPanic` promises the time of the latest panic. When two calls of `MarkDegraded` overlap it can
  stay that of the earlier one (`Health.OverlapKeepsAnOlderTime`). `Health.LatestPanicIff` gives the exact
  condition, and `Health.LatestPanicWithoutOverlap` one that a caller can arrange.
- A rollback promises the most recent archived version. It takes the greatest name, and two saves of
  versions 10 and 11 within one second are ordered the wrong way round
  (`SkillArchive.SameSecondGoesBackTwoVersions`, `SkillArchive.ScanPicksTheSaveIff`). Within the program
  every save is of version 1 or of the version on disk, so only other callers of the exported
  `SaveSkillTo` can meet this case. A rollback also leaves newer code in place when the version before
  had no code file, and removes a bundle that the archived manifest does not mention
  (`SkillArchive.RollbackUndoesSaveIff`).
- A rotated device token is forgotten when its answer is lost or saving stops before the refresh token
  is written; from then on requests carry a used token (`DeviceRefresh.RequestsCarryTheLatestToken`,
  `DeviceRefresh.LostAnswerSendsAUsedToken`).
- A dispatched run waits for the error of a failed heartbeat and reports it, but when the command has
  failed and recording that fails too, the returned error drops it (`Heartbeat.HeartbeatErrorIsDropped`);
  `Heartbeat.OutcomeMatchesTheRecords` says exactly when it is reported. The store may be left without an
  end of the run even when no heartbeat failed (`Heartbeat.EndIsNotStored`).
- Secrets can load differently from one start to the next exactly if a nested key equals the prefix of a
  flat one and its package does not already hold that value (`Secrets.OrderIndependentIff`).
- A lock file left behind by a crash is never removed (`LockFile.StaleLockBlocksEveryone`).

## Parameters and assumptions

- HTTP answers, file-system outcomes, clocks, random bytes and map iteration orders are labels of a run or
  arguments, so each theorem is about all of them. A directory listing is sorted and complete; a rename
  and an exclusive create are atomic.
- `runewidth`, `unicode.ToLower`, `filepath.Clean`, the TOML codec and `argon2.IDKey` are arbitrary
  functions; what is needed of them is a named predicate (`ModelIds.IsLower`, `SkillArchive.IsPlatform`,
  `PasswordHash.IsKeyFunction`).
- Telegram: the Bot API numbers updates upwards and hands out the oldest open ones first, and a publish that
  fails has left nothing in the sink.
- Telegram: an update reaches the sink at most once in one run of the poll loop, but possibly again after a
  restart (`TelegramRuns.OneRunIsInOrder`, `TelegramRuns.RestartPublishesTwice`); telling such copies apart by
  their source event id is the sink's business.
- `ServiceTokens`: callers of one provider on one manager; the clock never goes back.
- `SkillArchive`: for whole runs, stamps grow strictly and file operations succeed; a single save or
  rollback has no such condition. The name of a backup directory is new.
- Text is a sequence of Unicode characters, except in `Chunks.dfy` and `Base64.dfy`, which work on bytes.

## Model

| member | source | states |
|---|---|---|
| `CdpClient.InvOnRun` | apps/kittypaw/browser/cdp.go:81-171 | In every interleaving of calls, reader, cancellations, write errors and `Close`, each channel has at most one owner (the `pending` map, the reader, or the loop of `failAll`), is sent to at most once and closed at most once, and ids are distinct. |
| `CdpClient.WaitingCallIsServedOnce` | apps/kittypaw/browser/cdp.go:107-144 | A waiting call has exactly one of: an owner that will still serve its channel, or a result in the channel; that result carries its own id. |
| `CdpClient.ChannelStepsNeverGetStuck` | apps/kittypaw/browser/cdp.go:92-98 | Whoever is about to send to or close a channel can do so at once: no send on a closed or full channel and no double close, in any reachable state. |
| `CdpClient.PendingHoldsLiveCalls` | apps/kittypaw/browser/cdp.go:110-150 | `pending` maps each id to the call that owns it, and that call has neither returned nor failed to register: no leaked entry. |
| `CdpClient.ResponsesWereRead` | apps/kittypaw/browser/cdp.go:81-101 | Every response a channel or a call holds is a frame the reader read earlier in the run. |
| `CdpClient.NoCrossDelivery` | apps/kittypaw/browser/cdp.go:81-144 | A call that returns a response returns one read from the connection with its own id; no two calls return the same one, and none takes a closed, empty channel for an answer. |
| `CdpClient.ReceivedIsReturned` | apps/kittypaw/browser/cdp.go:126-144 | A call that receives a response returns it as its answer, and one that receives the failure returns the connection error. |
| `CdpClient.OutcomesHaveCauses` | apps/kittypaw/browser/cdp.go:107-150 | A call returns a write error exactly after its own failed write, a cancellation exactly after its own context ended, and anything else only from its channel. |
| `CdpClient.RefusedIff` | apps/kittypaw/browser/cdp.go:110-116 | A call is refused exactly if the client was closed when it registered. |
| `CdpClient.ClosedKeepsPendingEmpty` | apps/kittypaw/browser/cdp.go:110-116 | `closed` is never reset, and from the end of the closing `failAll` on, `pending` stays empty. |
| `CdpClient.ShutdownWakesEveryCall` | apps/kittypaw/browser/cdp.go:81-171 | No lost wake-up: after the reader stopped or a `Close` returned, every call still waiting can receive its own answer or the connection error at once, except the one whose response the reader has in hand; the reader can send it, and then that call receives it. |
| `CdpClient.DrainTerminates` | apps/kittypaw/browser/cdp.go:152-165 | While `failAll` holds the mutex one of its steps is always possible, each leaves less work, and no other thread adds any. |
| `CdpClient.AnswerIsReachable` | apps/kittypaw/browser/cdp.go:81-144 | Some run ends with a call returning the answer to its request. |
| `TelegramLog.ArriveKeepsGood` | apps/kittypaw/channel/telegram.go:610-648 | A new update leaves everything below the offset accounted for. |
| `TelegramLog.ConfirmKeepsGood` | apps/kittypaw/channel/telegram.go:610-648 | Requesting from the offset makes the Bot API forget only updates that were handled. |
| `TelegramLog.SettleKeepsGood` | apps/kittypaw/channel/telegram.go:262-331 | Settling the lowest open update and moving past it keeps the accounting. |
| `TelegramLog.RestartIsGood` | apps/kittypaw/channel/telegram.go:229-233 | A new channel, which starts from offset 0, is consistent with any history. |
| `TelegramLog.FateMeaning` | apps/kittypaw/channel/telegram.go:262-331 | An update is skipped exactly if a skip rule applies to it, and then under one that does; otherwise it is published, however often that fails, unless the context ends before. |
| `TelegramLog.NothingIsLost` | apps/kittypaw/channel/telegram.go:229-333 | Every update the Bot API has dropped is in the history, and under the circumstances recorded there it was to be published and the sink has it, or it meets the condition of the named skip rule. |
| `TelegramLog.HandleAllMeaning` | apps/kittypaw/channel/telegram.go:262-332 | A batch settles exactly the updates before the first interrupted one, each under its own circumstances, publishes exactly those to be published, in order, and changes nothing else. |
| `TelegramLog.BatchKeepsGood` | apps/kittypaw/channel/telegram.go:262-332 | A batch keeps the accounting: what it settled lies below the new offset, the rest is left to fetch, and updates reach the sink in ascending order. |
| `TelegramLog.BatchIsBehind` | apps/kittypaw/channel/telegram.go:262-342 | After a batch that was not interrupted the offset is behind each of its updates. |
| `TelegramLog.PassKeepsGood` | apps/kittypaw/channel/telegram.go:234-332 | A pass of the outer loop, whatever happens in it, keeps the accounting and moves the offset only forward. |
| `TelegramLog.FollowsTransitively` | apps/kittypaw/channel/telegram.go:229-334 | What holds between the ends of a pass composes over passes. |
| `TelegramRuns.InvOnRun` | apps/kittypaw/channel/telegram.go:195-334 | In every reachable state, over arrivals, failures, cancellations, crashes within a batch and restarts, what the Bot API has forgotten was handled and the sink holds exactly what the history published. |
| `TelegramRuns.OneRunIsInOrder` | apps/kittypaw/channel/telegram.go:229-342 | Between two starts the offset never decreases, requests confirm only below it, and updates reach the sink in ascending order, so at most once. |
| `TelegramRuns.ArrivedExactly` | apps/kittypaw/channel/telegram.go:610-648 | The updates at the Bot API are exactly those of the arrivals of the run. |
| `TelegramRuns.ArrivalsStay` | apps/kittypaw/channel/telegram.go:195-334 | No step alters an update that has arrived or takes back anything handled or accepted. |
| `TelegramRuns.HandlingsCameFromPolls` | apps/kittypaw/channel/telegram.go:262-331 | Whatever the history records was handled in one poll of the run that handed over this very update, under what happened to it there. |
| `TelegramRuns.ForgottenWasRequested` | apps/kittypaw/channel/telegram.go:610-648 | The Bot API forgets only what lies below the offset of an earlier request. |
| `TelegramRuns.ForgottenWasHandled` | apps/kittypaw/channel/telegram.go:229-333 | An update that is forgotten was handed over and handled by an earlier poll of the same run: published and accepted, or skipped by a rule whose condition it met then. |
| `TelegramRuns.PublishableIsAccepted` | apps/kittypaw/channel/telegram.go:229-333 | No publishable update is lost: one that no poll which hands it over has a reason to skip is in the sink before the Bot API forgets it, through all failures, crashes and restarts, and whatever becomes of other updates. |
| `TelegramRuns.AcceptedExactly` | apps/kittypaw/channel/telegram.go:307-325 | The sink holds the published updates of the history, in that order, and nothing else. |
| `TelegramRuns.FullPollHandlesAll` | apps/kittypaw/channel/telegram.go:241-332 | A poll that returns all open updates and is not interrupted leaves no update unhandled and moves the offset behind all of them. |
| `TelegramRuns.ChannelStopsIff` | apps/kittypaw/channel/telegram.go:234-332 | A channel stops exactly when its context is done, the Bot API names a duplicate, its process dies, or the context ends while an update waits to be published; failed polls and publishes do not stop it. |
| `TelegramRuns.UncancelledPollPublishes` | apps/kittypaw/channel/telegram.go:262-331 | A poll during which the context does not end leaves the channel running and publishes every update it hands over that no rule skips, whatever number of publishes fail. |
| `TelegramRuns.RestartPublishesTwice` | apps/kittypaw/channel/telegram.go:195-233 | Delivery is at least once: a process that stops before the next request publishes an update that its successor publishes again. |
| `TelegramCursor.ScriptKeepsGood` | apps/kittypaw/channel/telegram.go:229-334 | A run of the loop over any script keeps the accounting and delivers in order. |
| `TelegramCursor.ScriptIsPartOfARun` | apps/kittypaw/channel/telegram.go:229-334 | What the loop does over a script is a part of a run, so that the results about runs hold of it. |
| `TelegramCursor.ScriptsAreARun` | apps/kittypaw/channel/telegram.go:195-334 | Several processes one after the other make up a run. |
| `TelegramCursor.TelegramChannel.AdvanceOffset` | apps/kittypaw/channel/telegram.go:336-342 | The offset moves just past an update at or above it and never moves back. |
| `TelegramCursor.TelegramChannel.Handle` | apps/kittypaw/channel/telegram.go:262-331 | One update is published, skipped under a rule, or left open because the context ended; only the last stops the batch, and the offset moves exactly in the first two cases. |
| `TelegramCursor.TelegramChannel.HandleBatch` | apps/kittypaw/channel/telegram.go:262-332 | The updates before the first interrupted one are settled in order, each under its own circumstances; the history gains exactly these and the sink exactly the published ones. |
| `TelegramCursor.TelegramChannel.PollOnce` | apps/kittypaw/channel/telegram.go:241-332 | One successful pass requests from the offset and does to log and offset exactly what the specified poll does. |
| `TelegramCursor.TelegramChannel.Pass` | apps/kittypaw/channel/telegram.go:234-332 | An arrival enters the log, a failed poll confirms exactly when its request got through, a duplicate bot or a finished context ends the loop; the backoff doubles after a failed poll up to a minute and starts again at one second after a good one. |
| `TelegramCursor.TelegramChannel.StartWithEventSink` | apps/kittypaw/channel/telegram.go:229-334 | The loop does to the Bot API, the sink and the offset exactly what its script says, keeps the accounting, and delivers in order. |
| `TelegramCursor.RunWithRestarts` | apps/kittypaw/channel/telegram.go:195-334 | Any number of processes, each with a new channel from offset 0: the outcome is that of their scripts, and what is forgotten in the end was handled. |
| `ServiceTokens.InvOnRun` | apps/kittypaw/core/oauth_service_token.go:45-88 | One caller at a time is between lock and unlock of `mu`; what it is saving is complete, and the access token is in the store once its key was written. |
| `ServiceTokens.SavingWasReceived` | apps/kittypaw/core/oauth_service_token.go:160-194 | What a caller saves, token and expiry, comes from the response it received. |
| `ServiceTokens.SettledOnRun` | apps/kittypaw/core/oauth_service_token.go:118-195 | After a successful refresh no caller that is past the re-check remains or appears until the window ends. |
| `ServiceTokens.WindowIsOpen` | apps/kittypaw/core/oauth_service_token.go:45-88 | The recorded expiry minus five minutes lies in the future of the response exactly if `expires_in` exceeds 300. |
| `ServiceTokens.SingleFlight` | apps/kittypaw/core/oauth_service_token.go:118-195 | After a refresh that succeeded with `expires_in` above 300, no caller of any kind sends another POST before the recorded expiry minus five minutes. |
| `ServiceTokens.LaterCallsGetTheNewToken` | apps/kittypaw/core/oauth_service_token.go:77-88 | A call that begins after a successful refresh and returns inside its window returns the token of that refresh. |
| `ServiceTokens.OneRefreshAtATime` | apps/kittypaw/core/oauth_service_token.go:118-121 | Two callers are never both between the locked re-check and the unlock. |
| `ServiceTokens.RefreshStoresTheAnswer` | apps/kittypaw/core/oauth_service_token.go:45-195 | When a refresh has gone through all keys, each holds its part of the response; a refresh token, e-mail address or user name that the response leaves out is kept, and the expiry is that of the response up to a second. |
| `ServiceTokens.PostsCarryTheStoredToken` | apps/kittypaw/core/oauth_service_token.go:118-150 | A refresh request carries the refresh token and goes to the base URL stored at that moment. |
| `ServiceTokens.FreshTokensAreReturned` | apps/kittypaw/core/oauth_service_token.go:77-88 | `LoadAccessToken` returns a stored token without expiry, or with more than five minutes left, and refreshes any other. |
| `DeviceRefresh.InvOnRun` | apps/kittypaw/core/api_token.go:325-365 | While no rotation was forgotten, whoever holds the lock or the store has the latest refresh token. |
| `DeviceRefresh.RequestsCarryTheLatestToken` | apps/kittypaw/core/api_token.go:325-365 | A refresh request carries the latest token the server issued exactly if every earlier rotation was received and saved. |
| `DeviceRefresh.NothingIsRejected` | apps/kittypaw/core/api_token.go:325-365 | Until a rotation is forgotten the server accepts every request. |
| `DeviceRefresh.AcceptedTokensAreNotReused` | apps/kittypaw/core/api_token.go:325-365 | A refresh token the server has accepted is sent again by a later request if and only if the very rotation it was accepted for was forgotten. |
| `DeviceRefresh.LatestGrows` | apps/kittypaw/core/api_token.go:325-365 | The number of the latest issued token never goes down. |
| `DeviceRefresh.LostAnswerSendsAUsedToken` | apps/kittypaw/core/api_token.go:325-365 | A concrete run: the answer to a rotation is lost, the next caller sends the used token, and the server rejects it. |
| `DeviceRefresh.RotationIsStored` | apps/kittypaw/core/api_token.go:325-365 | A caller that has written its last key has stored the whole answer of its own rotation, with the old device id if the answer names none. |
| `DeviceRefresh.RejectionClears` | apps/kittypaw/core/api_token.go:340-350 | Clearing after a rejection removes the device id first, so that no credential is left to send, and in the end all three keys. |
| `RelayGroup.APITokenManager.Load` | apps/kittypaw/core/api_token.go:187-196 | A credential is loaded exactly when device id, access and refresh token are all present and non-empty, and it consists of what these three keys hold. |
| `RelayGroup.APITokenManager.SaveOrDelete` | apps/kittypaw/core/api_token.go:113-118 | An empty value removes the key, another one stores it, and no other entry of the store changes. |
| `RelayGroup.APITokenManager.Save` | apps/kittypaw/core/api_token.go:175-184 | Three successful writes store the credential under its three keys, in the order device id, access token, refresh token; after a failure the keys behind the failing one are as before; a namespace that already holds these tokens keeps them. Its other keys and other namespaces stay as they are. |
| `RelayGroup.APITokenManager.Clear` | apps/kittypaw/core/api_token.go:199-207 | Afterwards no credential is loaded, even when writing to disk fails half way, and nothing but the three keys has changed. |
| `RelayGroup.APITokenManager.Refresh` | apps/kittypaw/core/api_token.go:325-411 | Success if and only if there was a credential, the answer has both tokens and all keys were saved; then the access key holds the access token of the answer, the refresh key its refresh token, and the device key its device id or, if it has none, the old one. A 401 leaves no credential, other failures before saving leave the old one, and a failure of saving the stated mixture. Logins and base URLs in the same namespace are never touched. |
| `RelayGroup.APITokenManager.Ensure` | apps/kittypaw/core/api_token.go:369-378 | A token that is not about to expire is returned without a request; otherwise the tokens of the answer, as for the refresh. |
| `RelayGroup.NamespacesAreHosts` | apps/kittypaw/core/api_token.go:41-49 | Two API URLs share a namespace exactly if they have the same host. |
| `RelayGroup.LoadedKeys` | apps/kittypaw/core/api_token.go:187-196 | What a source of a group loads is what its three keys hold in its store. |
| `RelayGroup.RefreshSource` | apps/kittypaw/cli/chat_relay.go:116-123 | One refresh attempt: when it succeeds, what it returns as a function of the credential the source had, and what every source of the group loads afterwards, also those that share its store; nothing else in any store changes. |
| `RelayGroup.EnsureSource` | apps/kittypaw/cli/chat_relay.go:149-155 | The same for the attempt of `EnsureFreshCredential`: an unexpired credential is returned as stored and nothing changes, an expired one is rotated. |
| `RelayGroup.SaveTo` | apps/kittypaw/cli/chat_relay.go:128-130 | What saving to one target leaves in every source, also when sources share a store, and that nothing else changes. |
| `RelayGroup.CopyToOthers` | apps/kittypaw/cli/chat_relay.go:124-131 | Copying succeeds exactly if all writes to the other sources with a manager succeed, and stops behind the first target that fails; the keys of every source are then exactly what the writes up to there leave, and nothing else has changed. |
| `RelayGroup.CopyToOthersIgnoringErrors` | apps/kittypaw/cli/chat_relay.go:156-161 | All targets are written to, whatever failed before; the keys of every source are exactly what these writes leave. |
| `RelayGroup.CopiesLeave` | apps/kittypaw/cli/chat_relay.go:124-131 | Copying changes nothing but the places of its targets. |
| `RelayGroup.CopiesKeep` | apps/kittypaw/cli/chat_relay.go:124-131 | It damages no credential that is already the new one, even when writes fail half way. |
| `RelayGroup.CopiesReach` | apps/kittypaw/cli/chat_relay.go:124-131 | A place that one successful copy has reached loads the tokens, whatever is written there later. |
| `RelayGroup.CopiedMeaning` | apps/kittypaw/cli/chat_relay.go:124-163 | After copying to the end, the supplier and every target whose writes succeed load the tokens; if all succeed, every source with a manager does. |
| `RelayGroup.FailedCopyMeaning` | apps/kittypaw/cli/chat_relay.go:124-131 | After a failed copy: sources before the failing target load the tokens; the failing one is left with the stated mixture of its credential and the tokens, or loads them if an earlier target shares its place; all places that are no target keep what they had. |
| `RelayGroup.RefreshCredential` | apps/kittypaw/cli/chat_relay.go:106-141 | The first attempt that succeeds decides: its answer's access token is returned, and on success every source with a manager loads the tokens of that answer, with the device id the source had as fallback. When copying fails it is said at which target, and what all sources hold. The other outcomes say which attempts failed, what they left in every source, and that invalid means exactly a rejected credential. Nothing but the device tokens of the group ever changes. |
| `RelayGroup.EnsureFreshCredential` | apps/kittypaw/cli/chat_relay.go:143-165 | The first source that has an unexpired credential or can rotate one decides: its stored access token is returned, or the one of the answer; the tokens reach every source whose copy succeeds. Without such a source all attempts failed, and the verdict is invalid exactly if the server rejected an expired credential. |
| `RelayGroup.UndisturbedKeeps` | apps/kittypaw/cli/chat_relay.go:106-165 | Attempts that fail before writing, or write elsewhere, leave a source with the credential it had. |
| `RelayGroup.SupplierIsEnough` | apps/kittypaw/cli/chat_relay.go:106-165 | A source that no earlier attempt could disturb succeeds exactly if its credential at the start allows it, and then not all sources are tried in vain. |
| `RelayGroup.KeysAreDistinct` | apps/kittypaw/cli/chat_relay.go:25-50 | The connector keys, in order of first occurrence, are distinct and are exactly the keys of the accounts. |
| `RelayGroup.KeysGrow` | apps/kittypaw/cli/chat_relay.go:25-50 | The connectors of the first accounts come first. |
| `RelayGroup.SourcesOfMeaning` | apps/kittypaw/cli/chat_relay.go:25-50 | The sources of a connector are those of the accounts with its relay, credential and device, one after the other. |
| `RelayGroup.AddAccountsMeaning` | apps/kittypaw/cli/chat_relay.go:39-43 | Merging account ids keeps those already there in front, gives exactly the ids of both, and repeats none that was not repeated before. |
| `RelayGroup.AccountsOfMeaning` | apps/kittypaw/cli/chat_relay.go:25-50 | The account ids of a connector are exactly those of the accounts with its key, each once if no single account repeats one. |
| `RelayGroup.GroupConfigs` | apps/kittypaw/cli/chat_relay.go:25-50 | One connector for each combination of relay, credential and device that occurs, in order of first occurrence, with the sources of all its accounts in order, exactly their account ids, and each id once if no single account repeats one. |
| `RelayGroup.MergeAccounts` | apps/kittypaw/cli/chat_relay.go:39-43 | The ids already there stay in front, the result has exactly the ids of both lists, and it is without repetition exactly if the list was. |
| `RelayGroup.FilterFresh` | apps/kittypaw/cli/chat_relay.go:51-65 | The in-place filter keeps the connectors that are not invalid, in order, the refreshed ones with their new credential, and never reads an overwritten element. |
| `RelayGroup.KeptMeaning` | apps/kittypaw/cli/chat_relay.go:51-65 | The filter drops exactly the connectors with an invalid credential and keeps the order; a connector with a fresh credential has it and is otherwise as before. |
| `Heartbeat.InvOnRun` | apps/kittypaw/cli/cmd_kanban.go:1047-1147 | The record log, the goroutine and the command agree in every interleaving. |
| `Heartbeat.NoHeartbeatAfterStop` | apps/kittypaw/cli/cmd_kanban.go:1137-1146 | After the stop function returned no heartbeat starts or is stored. |
| `Heartbeat.EndIsRecordedOnceAndLast` | apps/kittypaw/cli/cmd_kanban.go:1058-1108 | At most one call of the store records the end of a run, behind all heartbeats. |
| `Heartbeat.OutcomeMatchesTheRecords` | apps/kittypaw/cli/cmd_kanban.go:1058-1108 | Each result in terms of the calls of the store: a failed heartbeat is never followed by Complete and is reported exactly if recording the failure of the command did not fail too; success means exactly a stored completion; the end is stored exactly when the result is success, a failed or cancelled command, or a failed heartbeat of a command that failed as well. |
| `Heartbeat.OutcomeMatchesTheExit` | apps/kittypaw/cli/cmd_kanban.go:1047-1108 | A run whose command failed records a failure and never a completion, and one whose command succeeded records a completion, unless a heartbeat failed, and never a failure. |
| `Heartbeat.EndFollowsTheCommand` | apps/kittypaw/cli/cmd_kanban.go:1047-1063 | Nothing is recorded about the end before the command has ended. |
| `Heartbeat.CancelledIff` | apps/kittypaw/cli/cmd_kanban.go:1063-1091 | The run is reported as cancelled exactly if the command failed, its failure was stored, no heartbeat failed, and the dispatcher's context was done by then; without the last it is reported as failed. |
| `Heartbeat.FailedHeartbeatCancels` | apps/kittypaw/cli/cmd_kanban.go:1124-1131 | A failed heartbeat cancels the command's context before the goroutine is done. |
| `Heartbeat.HeartbeatErrorIsDropped` | apps/kittypaw/cli/cmd_kanban.go:1073-1088 | A concrete run whose result does not mention the failed heartbeat. |
| `Heartbeat.EndIsNotStored` | apps/kittypaw/cli/cmd_kanban.go:1095-1101 | A concrete run without a failed heartbeat whose end is not stored. |
| `Heartbeat.FailedHeartbeatIsTheLast` | apps/kittypaw/cli/cmd_kanban.go:1118-1136 | After a failed heartbeat the goroutine sends no other. |
| `Heartbeat.StopCanReturn` | apps/kittypaw/cli/cmd_kanban.go:1137-1146 | The stop function cannot hang: at most three steps of the goroutine let it return. |
| `LockFile.InvOnRun` | apps/kittypaw/core/local_auth.go:309-335 | The lock file names its creator exactly while that process is in the critical section. |
| `LockFile.LockFileMeansCriticalSection` | apps/kittypaw/core/local_auth.go:309-335 | For any number of processes the lock file exists exactly when one of them is in the critical section, and then only one is. |
| `LockFile.OpenEntersIff` | apps/kittypaw/core/local_auth.go:309-335 | An attempt to create the lock file lets a process in exactly if there is none, and otherwise changes nothing. |
| `LockFile.TimedOutIff` | apps/kittypaw/core/local_auth.go:309-335 | A call reports a timeout exactly if it gave up waiting. |
| `LockFile.StaleLockBlocksEveryone` | apps/kittypaw/core/local_auth.go:309-335 | A lock file left by a crash is never removed: nobody enters and every call ends with a timeout or a system error. |
| `LockFile.OnlyDeletionRemoves` | apps/kittypaw/core/local_auth.go:139-158 | An account disappears only through a committed deletion of that account. |
| `LockFile.OneCreationBetweenDeletions` | apps/kittypaw/core/local_auth.go:75-105 | Between two successful creations of one account lies a deletion of it. |
| `LockFile.CommitsActOnTheCurrentUser` | apps/kittypaw/core/local_auth.go:75-191 | A commit decides on the user as it is at that moment: a creation succeeds exactly where there is none and writing works, a deletion where there is none or removing works, a change of the flag where there is one and writing works; `ErrLocalUserExists` is reported exactly where there is one, and changing the flag changes nothing else. |
| `LockFile.ReturnsWereCommitted` | apps/kittypaw/core/local_auth.go:75-105 | A success or an exists-error that a call returns is what its own commit decided. |
| `LockFile.HolderCanFinish` | apps/kittypaw/core/local_auth.go:309-335 | The holder can always take its next step, and its steps end with the file removed. |
| `Secrets.LoadMeaning` | apps/kittypaw/core/secrets.go:64-111 | Loading in any order in which no flat entry clashes with a nested one gives one described store. |
| `Secrets.OrderDoesNotMatter` | apps/kittypaw/core/secrets.go:77-104 | Without a clash, all map iteration orders load the same store. |
| `Secrets.ClashMatters` | apps/kittypaw/core/secrets.go:77-104 | With a clash there are two iteration orders that load different stores. |
| `Secrets.OrderIndependentIff` | apps/kittypaw/core/secrets.go:77-104 | Loading is independent of the iteration order if and only if no nested top-level key equals the prefix of a flat entry, unless the nested package already holds the value of that entry. |
| `Secrets.FlatEntryLoads` | apps/kittypaw/core/secrets.go:77-104 | A flat entry `p/k` loads, in every order, as key `k` of package `p`, unless there is a nested package `p` too. |
| `Secrets.NestedEntryLoads` | apps/kittypaw/core/secrets.go:77-104 | A nested package loads with exactly its keys, a null member as the empty string, if no flat entry adds to it. |
| `Secrets.LoadedPackageHasEntry` | apps/kittypaw/core/secrets.go:77-104 | No other entry gives rise to a package. |
| `Secrets.LoadOfCanonical` | apps/kittypaw/core/secrets.go:64-111 | A file as `persist` writes it loads, in every order, as the store it was written from. |
| `Secrets.SecretsStore.Persist` | apps/kittypaw/core/secrets.go:164-179 | Disk holds the canonical form of memory after success and is untouched after failure. |
| `Secrets.SecretsStore.Set` | apps/kittypaw/core/secrets.go:126-135 | Memory gains exactly one entry, and disk and memory agree if it succeeds; a failure leaves the file alone. |
| `Secrets.SecretsStore.Delete` | apps/kittypaw/core/secrets.go:138-151 | Memory loses exactly one entry and an emptied package; success keeps disk and memory in agreement. |
| `Secrets.SecretsStore.DeletePackage` | apps/kittypaw/core/secrets.go:154-160 | Memory loses exactly one package; disk and memory agree after success. |
| `Secrets.LoadSecretsFrom` | apps/kittypaw/core/secrets.go:64-111 | Loading follows the iteration order given, migrates the file when it is not canonical, and afterwards disk and memory agree if the rewrite succeeded; a missing file gives an empty store, an unreadable one an error. |
| `Secrets.LoadTwice` | apps/kittypaw/core/secrets.go:64-111 | Loading gives the store of the file as it was, and loading the migrated file again the same one, whichever orders are picked. |
| `Health.InvOnRun` | apps/kittypaw/core/health.go:88-120 | The tracker is the sequential machine run over the log of linearization points, under any interleaving. |
| `Health.LastCallDecides` | apps/kittypaw/core/health.go:88-120 | The tracker is stopped exactly if some call stopped it, and otherwise degraded exactly if the last call that took effect was a panic. |
| `Health.EveryCallTakesEffectOnce` | apps/kittypaw/core/health.go:88-120 | Each completed call has exactly one linearization point. |
| `Health.LogRespectsRealTime` | apps/kittypaw/core/health.go:88-120 | A call that ended before another began takes effect before it. |
| `Health.StoppedIsForever` | apps/kittypaw/core/health.go:118-120 | `Stopped` is absorbing. |
| `Health.PanicIsRecorded` | apps/kittypaw/core/health.go:88-99 | With no call between swap and store and no clock at 0, a panic time is recorded exactly if the tracker was ever degraded, and it is the time of a call that degraded it. |
| `Health.LatestPanicIff` | apps/kittypaw/core/health.go:75-99 | The recorded time is that of the latest degradation if and only if the call that stored its time last is the one that degraded the tracker last. |
| `Health.LatestPanicWithoutOverlap` | apps/kittypaw/core/health.go:88-99 | So it is whenever no two calls are ever between swap and store at once. |
| `Health.OverlapKeepsAnOlderTime` | apps/kittypaw/core/health.go:75-99 | With an overlap the recorded time can stay that of an earlier degradation, against the comment above `LastPanic`. |
| `ChatTurns.RewriteSlot` | apps/kittypaw/cli/chat_tui.go:118-131 | Rewriting a message rewrites exactly its slot among the replies and no input. |
| `ChatTurns.SubmitKeepsInv` | apps/kittypaw/cli/chat_tui.go:253-285 | Submitting keeps the turn invariant. |
| `ChatTurns.FinishKeepsInv` | apps/kittypaw/cli/chat_tui.go:287-309 | A result keeps the turn invariant, also when it starts the next turn. |
| `ChatTurns.TickKeepsInv` | apps/kittypaw/cli/chat_tui.go:118-131 | A tick keeps the turn invariant. |
| `ChatTurns.RunKeepsInv` | apps/kittypaw/cli/chat_tui.go:113-309 | After any events: sent turns followed by the queue are the submitted turns, at most one is in flight, a non-empty queue implies one is, and the finished slots hold their replies. |
| `ChatTurns.StepRefinesFifo` | apps/kittypaw/cli/chat_tui.go:253-309 | The model refines a FIFO: submitting appends to the line, a result answers its head and is ignored when nobody waits, a tick changes neither line nor replies. |
| `ChatTurns.RepliesAreInOrderAndFinal` | apps/kittypaw/cli/chat_tui.go:253-309 | The k-th reply slot shows the reply to the k-th submitted turn, for good. |
| `ChatTurns.FinishShows` | apps/kittypaw/cli/chat_tui.go:287-309 | A result fills the slot in flight with its trimmed text, else with the error, else with a notice, and no other message changes. |
| `ChatTurns.SlotsShowTheAnswers` | apps/kittypaw/cli/chat_tui.go:253-309 | After any events the k-th reply slot shows the k-th result that found a turn in flight. |
| `ChatTurns.TickAnimates` | apps/kittypaw/cli/chat_tui.go:118-131 | A tick counts on in the slot in flight and changes nothing else. |
| `ChatTurns.OnlyTheCurrentSlotIsPending` | apps/kittypaw/cli/chat_tui.go:118-131 | A message is pending exactly if it is the slot of the turn in flight. |
| `ChatTurns.ChatTUIModel.SubmitInput` | apps/kittypaw/cli/chat_tui.go:253-271 | Does what the session function says and hands a turn to the sender exactly if none is in flight. |
| `ChatTurns.ChatTUIModel.BeginTurn` | apps/kittypaw/cli/chat_tui.go:273-285 | Opens one pending slot and hands the turn to the sender. |
| `ChatTurns.ChatTUIModel.FinishTurn` | apps/kittypaw/cli/chat_tui.go:287-309 | Shows the result in the slot in flight and sends the head of the queue, if there is one. |
| `ChatTurns.ChatTUIModel.TypingTick` | apps/kittypaw/cli/chat_tui.go:118-131 | Animates only the slot in flight; another tick is scheduled exactly while one is in flight. |
| `ChatTurns.ChatInputHistory.Add` | apps/kittypaw/cli/chat_tui.go:601-616 | Appends the trimmed text, unless it is blank, and returns to the end. |
| `ChatTurns.ChatInputHistory.Prev` | apps/kittypaw/cli/chat_tui.go:618-629 | Moves one entry up and remembers what was typed when leaving the end. |
| `ChatTurns.ChatInputHistory.Next` | apps/kittypaw/cli/chat_tui.go:631-642 | Moves one entry down; at the end the draft comes back. |
| `ChatTurns.ChatInputHistory.WalkUpAndDown` | apps/kittypaw/cli/chat_tui.go:618-642 | Any number of steps up and then down shows the right entry, and the draft again once the end is reached. |
| `LineWrap.WrapKeepsText` | apps/kittypaw/cli/chat_tui.go:520-549 | The joined line contents equal the text. |
| `LineWrap.WrapFits` | apps/kittypaw/cli/chat_tui.go:520-549 | A line fits exactly if no rune in it is wider than the limit; one that does not ends in such a rune behind zero-width runes only. |
| `LineWrap.WrapIsShortest` | apps/kittypaw/cli/chat_tui.go:520-549 | No fitting split of a text, even with more text in front, has fewer pieces than the greedy lines. |
| `LineWrap.WrapIsOptimal` | apps/kittypaw/cli/chat_tui.go:520-549 | Text kept; all lines fit if and only if no rune is wider than the limit; and then no other split of a non-empty text into fitting consecutive pieces has fewer lines. |
| `LineWrap.EachLine` | apps/kittypaw/cli/chat_tui.go:525-548 | The first line carries the prefix, the others blanks of its width, in front of their contents. |
| `LineWrap.WrapChatLine` | apps/kittypaw/cli/chat_tui.go:520-549 | The loop computes exactly the greedy lines. |
| `LineWrap.PositiveMod` | apps/kittypaw/cli/chat_tui.go:568-577 | A remainder that is never negative, although Go's `%` can be. |
| `LineWrap.ColorPendingText` | apps/kittypaw/cli/chat_tui.go:551-566 | One colour sequence per rune, chosen by position and frame, and a reset at the end. |
| `LineWrap.ColoringIsInvisible` | apps/kittypaw/cli/chat_tui.go:551-566 | What a terminal shows of coloured text is the text. |
| `LineWrap.RuneColor` | apps/kittypaw/cli/chat_tui.go:551-566 | Rune i is shown in the colour that stands i minus frame places around the palette, so that the colours move with the frames. |
| `LineWrap.ShownIsRead` | apps/kittypaw/cli/chat_tui.go:525-548 | Pending text is coloured and other text is not, and either way it reads the same. |
| `Chunks.ChunksMeaning` | apps/kittypaw/core/types.go:338-356 | The chunks concatenate to the text, none exceeds `maxLen`, and every cut is the best one: behind the last newline of the window if that is past the middle, else at `maxLen`. |
| `Chunks.ChunkEnds` | apps/kittypaw/core/types.go:338-356 | Every chunk but the last is full or ends in a newline. |
| `Chunks.FewChunks` | apps/kittypaw/core/types.go:338-356 | `(chunks - 1) * (maxLen/2 + 1) <= len(text)`. |
| `Chunks.ZeroMakesNoProgress` | apps/kittypaw/core/types.go:338-356 | With `maxLen` 0 and text left a pass cuts nothing off: the loop would not end. |
| `Chunks.SplitChunks` | apps/kittypaw/core/types.go:338-356 | The loop ends for positive `maxLen` and computes exactly these chunks. |
| `WizardModels.MergeMeaning` | apps/kittypaw/core/wizard.go:237-271 | The merged ids are main, the existing ones by first occurrence, then the new extra ones; each id has the last extra with it, else the first existing one. |
| `WizardModels.MergeIsAnOrderedMap` | apps/kittypaw/core/wizard.go:237-271 | Main is first, no id occurs twice, and exactly the configured non-empty ids are there. |
| `WizardModels.MergeIsUnique` | apps/kittypaw/core/wizard.go:237-271 | That description fixes the result. |
| `WizardModels.MergeIsIdempotent` | apps/kittypaw/core/wizard.go:237-271 | Merging the same answers into the result changes nothing. |
| `WizardModels.ReplaceOrAppend` | apps/kittypaw/core/wizard.go:256-265 | The inner loop replaces the model with the id or appends. |
| `WizardModels.MergeWizardModels` | apps/kittypaw/core/wizard.go:237-271 | The two loops compute the merge, with or without an existing configuration. |
| `ModelIds.SlugIsASlug` | apps/kittypaw/cli/cmd_model.go:689-711 | Every slug consists of `a-z`, `0-9`, dots and single dashes and neither starts nor ends with a dash or dot. |
| `ModelIds.SlugFixed` | apps/kittypaw/cli/cmd_model.go:689-711 | A text is its own slug if and only if it has that form. |
| `ModelIds.SlugIsIdempotent` | apps/kittypaw/cli/cmd_model.go:689-711 | The slug of a slug is that slug. |
| `ModelIds.SlugKeepsLetters` | apps/kittypaw/cli/cmd_model.go:689-711 | A slug keeps every letter and digit of the lowered text, in order. |
| `ModelIds.SlugOfTwoWords` | apps/kittypaw/cli/cmd_model.go:689-711 | Words set apart by any run of other characters are set apart by exactly one dash in the slug. |
| `ModelIds.SlugModelAddID` | apps/kittypaw/cli/cmd_model.go:689-711 | The loop with `prevDash` computes exactly the slug. |
| `ModelIds.SlugIsValid` | apps/kittypaw/cli/cmd_model.go:713-727 | A slug passes validation if and only if it is neither empty nor `main`. |
| `ModelIds.ValidateModelAddID` | apps/kittypaw/cli/cmd_model.go:713-727 | No error exactly for valid ids, and which error for which id. |
| `ModelIds.FindModel` | apps/kittypaw/core/config.go:666-678 | Finds the first match among the account models, else among the top-level ones; finds something exactly if the id is used. |
| `ModelIds.ModelAddIDExists` | apps/kittypaw/cli/cmd_model.go:682-687 | True exactly for used ids; never without a configuration. |
| `ModelIds.CandidatesDiffer` | apps/kittypaw/cli/cmd_model.go:671-680 | Different numbers make different candidates. |
| `ModelIds.Pigeonhole` | apps/kittypaw/cli/cmd_model.go:671-680 | If the first n candidates are taken there are at least n configured ids. |
| `ModelIds.NextModelAddID` | apps/kittypaw/cli/cmd_model.go:671-680 | The search ends after at most one more candidate than there are models and returns the first unused one of base, base-2, base-3, and so on. |
| `ModelIds.FoundIdIsValid` | apps/kittypaw/cli/cmd_model.go:671-727 | The id found for a slug is valid, except when it is `main` itself. |
| `Base64.ToBytesOfToSextets` | apps/kittypaw/core/local_auth.go:350-353 | Groups of six bits are put together to the bytes they were cut from, for all lengths. |
| `Base64.ToSextetsOfToBytes` | apps/kittypaw/core/local_auth.go:376-383 | Decoding fails exactly for one left-over group, and encoding undoes it exactly if the dropped bits are zero. |
| `Base64.EncodeAlphabet` | apps/kittypaw/core/local_auth.go:350-353 | Encoded text has no `$`, no padding and no line end. |
| `Base64.DecodeOfEncode` | apps/kittypaw/core/local_auth.go:350-383 | Decoding undoes encoding for byte strings of any length. |
| `Base64.EncodeOfDecode` | apps/kittypaw/core/local_auth.go:376-383 | Which strings the decoder accepts, and which of them are the encoding of what they decode to. |
| `Base64.GroupsAreDigits` | apps/kittypaw/core/local_auth.go:350-353 | The groups are the base-64 digits of the number whose base-256 digits are the bytes, filled up with zero bits at the end. |
| `Base64.TestVectors` | apps/kittypaw/core/local_auth.go:350-353 | The test vectors of section 10 of RFC 4648, without padding. |
| `PasswordHash.ParseArgonParams` | apps/kittypaw/core/local_auth.go:392-429 | The loop over the parameters computes the specified result or error. |
| `PasswordHash.ParamsAccepted` | apps/kittypaw/core/local_auth.go:392-429 | A parameter string is accepted if and only if it assigns each of m, t and p once with the one supported value, in any order. |
| `PasswordHash.GoodPartsAreThree` | apps/kittypaw/core/local_auth.go:392-429 | Such a string has exactly three parts. |
| `PasswordHash.ParseOfHashString` | apps/kittypaw/core/local_auth.go:345-390 | Parsing the written form gives back the parameters, the salt and the digest. |
| `PasswordHash.AcceptedHash` | apps/kittypaw/core/local_auth.go:365-390 | Exactly which stored strings are accepted, and that they mean the supported parameters and the salt and digest they encode. |
| `PasswordHash.VerifiesIff` | apps/kittypaw/core/local_auth.go:355-390 | A password verifies exactly against a well-formed stored hash whose digest is its key under the stored salt; a malformed one is an error for every password. |
| `PasswordHash.StoredPasswordIsAccepted` | apps/kittypaw/core/local_auth.go:345-363 | For every deterministic key function the stored password is accepted, and another one exactly if it has the same key. |
| `PidFile.ReadOfWritten` | apps/kittypaw/client/daemon.go:383-419 | Reading undoes writing for every 64-bit pid and start time. |
| `PidFile.ReadAfterPid` | apps/kittypaw/client/daemon.go:399-419 | What is read from a file whose first line is a pid, for any rest. |
| `PidFile.BadSecondLineIsRejectedIff` | apps/kittypaw/client/daemon.go:399-419 | A file whose second line is no integer is rejected exactly if something but white space follows the first line. |
| `PidFile.BlankRestDowngrades` | apps/kittypaw/client/daemon.go:399-419 | A blank rest turns the file into a legacy one with start time 0. |
| `PidFile.BlankSecondLineDowngrades` | apps/kittypaw/client/daemon.go:388-397 | A concrete two-line file with a second line that is no integer is accepted, against the comment above the function. |
| `PidFile.ReadIgnoresSpaceAround` | apps/kittypaw/client/daemon.go:399-419 | White space around the content does not matter. |
| `PidFile.StopChecksTheProcess` | apps/kittypaw/client/daemon.go:440-449 | After writing and reading back, a live process passes the check exactly if no start time was recorded or it has the recorded one. |
| `PidFile.AfterLastParen` | apps/kittypaw/client/proc_unix.go:94-108 | Only the fields behind the last closing parenthesis count, and fewer than 20 are an error. |
| `PidFile.StartTimeIsFound` | apps/kittypaw/client/proc_unix.go:94-108 | The start-time field is found behind every command name, also with spaces and parentheses, when no later field has a closing one. |
| `PidFile.NoParenIsAnError` | apps/kittypaw/client/proc_unix.go:94-98 | A line is malformed in this way exactly if it has no closing parenthesis. |
| `PidFile.FieldsOfJoin` | apps/kittypaw/client/proc_unix.go:99-105 | Splitting at white space undoes joining words with blanks. |
| `SkillArchive.SavedArchive` | apps/kittypaw/core/skill.go:177-193 | What a save archives, under three new names; everything else in the archive stays. |
| `SkillArchive.SavedContents` | apps/kittypaw/core/skill.go:196-211 | A successful save leaves the code, the other entries as they were, and a manifest that reads as the one given, with the time of the save and the time of its creation. |
| `SkillArchive.SaveFailsIff` | apps/kittypaw/core/skill.go:177-193 | A save fails only for a bundle that is no directory, and then leaves what is installed alone. |
| `SkillArchive.ScanFindsLatest` | apps/kittypaw/core/skill.go:373-387 | The backwards scan over the sorted listing finds the manifest with the greatest name, and nothing only if there is none. |
| `SkillArchive.ScanPicksTheSaveIff` | apps/kittypaw/core/skill.go:373-387 | It picks the newly archived manifest exactly if no other one has a greater name. |
| `SkillArchive.RollbackUndoesSaveIff` | apps/kittypaw/core/skill.go:164-451 | Whatever was done to the skill in between, except in its archive, a rollback restores manifest, code and bundle byte by byte exactly if manifest and bundle agreed before the save and there was code to restore, or neither is there code now nor was any archived under the same name. |
| `SkillArchive.SameSecondGoesBackTwoVersions` | apps/kittypaw/core/skill.go:184-186 | Saves of versions 10 and 11 within one second and a rollback: the skill is back as it was before both saves, not before the last one. |
| `SkillArchive.StampsDecide` | apps/kittypaw/core/skill.go:184-186 | Names with different stamps of one length are ordered by the stamps. |
| `SkillArchive.SaveKeepsArchive` | apps/kittypaw/core/skill.go:164-212 | With growing stamps a save of a consistent skill succeeds and leaves an archive in which every manifest has its code and, if needed, its bundle. |
| `SkillArchive.InstallKeepsInv` | apps/kittypaw/core/installer.go:73-166 | Installing in prompt mode keeps manifest and bundle in agreement. |
| `SkillArchive.InstalledContents` | apps/kittypaw/core/installer.go:111-166 | A successful installation leaves the code, an enabled manifest of version 1, and exactly the staged files as bundle, or none; other entries stay. |
| `SkillArchive.SetEnabledKeepsInv` | apps/kittypaw/core/skill.go:290-322 | Enabling or disabling keeps the skill consistent, and fails exactly if there is none. |
| `SkillArchive.SetEnabledMeaning` | apps/kittypaw/core/skill.go:290-322 | Enabling or disabling changes the flag and the time of the last change, and nothing else. |
| `SkillArchive.RollbackKeepsInv` | apps/kittypaw/core/skill.go:355-402 | A rollback keeps the skill consistent and fails only for want of an archived manifest. |
| `SkillArchive.RollbackErrors` | apps/kittypaw/core/skill.go:355-387 | Which errors stand for an archive that is missing or holds no manifest. |
| `SkillArchive.RestoreBundleFailsIff` | apps/kittypaw/core/skill.go:422-451 | Restoring a bundle fails exactly for a root outside the skill or for want of an archived directory, and then changes nothing. |
| `SkillArchive.InvOnRun` | apps/kittypaw/core/skill.go:164-451 | Every run of installations, changes of `enabled` and rollbacks keeps the skill and its archive consistent. |
| `SkillArchive.RollbackRestoresTheStateBeforeTheLastSave` | apps/kittypaw/core/skill.go:355-451 | In every such run a rollback brings back manifest, code and bundle byte by byte as they were before the last save, however many rollbacks there were since. |
| `SkillArchive.ReplacementIsAllOrNothing` | apps/kittypaw/core/installer.go:176-207 | Replacing a bundle succeeds exactly if the old one is no link and the renames work; it fails without a change if the backup can be moved back, never loses the old bundle unless the new one is in place, and touches nothing else. |
| `SkillArchive.LatestManifest` | apps/kittypaw/core/skill.go:373-382 | The scan itself. |
| `SkillArchive.SkillDirectory.ArchiveSkillBundle` | apps/kittypaw/core/skill.go:404-420 | Copies the bundle directory into the archive; anything but a directory is an error. |
| `SkillArchive.SkillDirectory.SaveSkillTo` | apps/kittypaw/core/skill.go:164-212 | Archives what is there, then writes manifest and code; an error of archiving stops it before writing. |
| `SkillArchive.SkillDirectory.RestoreArchivedSkillBundle` | apps/kittypaw/core/skill.go:422-451 | Removes the bundle if the archived manifest needs none, else restores it or says what is missing. |
| `SkillArchive.SkillDirectory.RollbackSkillFrom` | apps/kittypaw/core/skill.go:355-402 | Restores the latest archived manifest, its code and its bundle, with the errors in the order of the code. |
| `SkillArchive.SkillDirectory.ReplaceSkillBundle` | apps/kittypaw/core/installer.go:176-207 | The renames in their order, for every combination of failures. |
| `SkillArchive.SkillDirectory.DeleteSkill` | apps/kittypaw/core/skill.go:334-343 | Nothing of the skill is left, its archive included. |
| `SkillArchive.SkillDirectory.InstallSkillMd` | apps/kittypaw/core/installer.go:118-166 | Saves, then replaces or removes the bundle; a failed save deletes the skill. |

## Left out

- Wrap-around of the int64 request id in `CdpClient` and of durations in `ServiceTokens`: integers are unbounded there.
- ServiceTokens.LaterCallsGetTheNewToken: says nothing about calls already under way when a refresh ends, because a reader that loaded the old token before the new expiry may return it.
- Other providers on one `ServiceTokenManager`, and unlocked writers such as `PairChatRelayDevice` or `Save` called from outside.
- RelayGroup.EnsureFreshCredential: the code ignores failed copies, so only the targets whose writes succeed are promised the credential.
- How the environment tells that a token expires (JWT parsing), and reloading the accounts before grouping.
- LockFile.LockFileMeansCriticalSection: runs start without a lock file and no process crashes inside; a file left by a crash is the subject of its own lemma.
- The goroutines of `Heartbeat` as timed objects: ticks come at arbitrary moments, and the Kanban store is its log of records; the dispatch cycle around one run only adds calls.
- `LastPanic` and `Load` of `HealthState`, which are single reads.
- JSON as text and its escaping: a secrets file is a value of nested maps, and `MaskSecrets` is not modelled.
- The chat viewport, rendering, key bindings, cursor control and the file behind the input history.
- `formatChatMessageStyled`, which splits a message at line ends and wraps each line.
- Words in `LineWrap` wider than one rune, such as combined characters: the code adds up rune widths, and so does the model.
- SkillArchive.RollbackUndoesSaveIff: restricted to bundles under the root `bundle`, the only one the installer writes; a root inside another one, and a manifest whose name differs from its directory, are not modelled.
- Symbolic links and special files inside a bundle tree, file modes, the size limit, and the staging of resources from a source directory.
- Confirmation keyboards, typing indicators, downloads and the sending side of the Telegram channel.
- `MigrateLegacyLayout`, the registry cache, and spawning of the server.
- `mergeWizardModels` inside the rest of `MergeWizardSettings`, which copies fields.
