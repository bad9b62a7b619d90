# Meetings daemon: reconciliation cycle

A model of the core of a background daemon that moves scheduled meetings to
ACTIVE once their start time has passed and pushes a "meeting started"
notification to the devices of their participants.

What the model covers, module by module:

- `Types` (`types.dfy`): the `Meeting`, `User` and `Device` records, the status
  codes SCHEDULED=1 … ZOMBIE=5, and `Document`. A document is a meeting record
  plus the `status` field. The store keeps that field, but the Go `Meeting`
  struct has none.
- `Store` (`store.dfy`): the `meetings` collection as a class `MeetingStore`
  whose field `docs` maps meeting id to document. It has two operations.
  `Meetings` is the due-set query: `status == SCHEDULED` and
  `start_time <= now`. `Update` is the `$set` of `status` on the document with
  a matching `_id`. The pure `SetStatus` specifies that update.
- `DeviceResolver` (`devices.dfy`): `devices(meeting)` as a method with two
  nested loops. `Tokens` specifies it: participant order, then device order,
  with no de-duplication. A participant whose lookup fails contributes
  nothing.
- `Notifier` (`notify.dfy`): the three-key payload. The message handed to the
  push gateway is the payload, the resolved tokens, the API key and the retry
  count. `notify` is a method, and the gateway's answer is one of its inputs.
- `Reconciler` (`reconciler.dfy`): `status` (update, then notify) and `check`
  (query, then one transition to ACTIVE per due meeting). Both are methods
  over the store. The pure `Transition` and `Run` specify them. The lemmas
  about `Run` state what one cycle guarantees.
- `Config` (`config.dfy`): the ini file, `validateIni`, and the start-up
  sequence from validation to the merged connection settings. In that merge a
  non-empty command-line flag wins over the ini value.
- `ErrorReport` (`errors.dfy`): `onError`, which builds a buffer in a loop and
  exits on an error.

The outside world is an input. The clock, whether the store answers the
query, which updates it acknowledges and which messages the gateway accepts
are all fields of `Reconciler.Environment`. User lookups are a map; an id
whose lookup fails is absent from it.

`log.Fatal` ends the whole process. The model treats a failed update or a
rejected send as a fatal event: the cycle halts there, and nothing after it
happens. The daemon runs one goroutine per due meeting. The model runs them
one after another, in the order the query returned them.

## Behaviour of note

- A failed due-set query is not logged. `check` only skips the dispatch
  (main.go:163-174).
- A failed update or a rejected send calls `log.Fatal`
  (main.go:131-132, main.go:145-146), which ends the whole process and every
  other meeting's goroutine with it; a failure is not confined to one
  meeting.
- The update has no guard on the current status (main.go:140-141).
  `Reconciler.StaleAnswerRepeatsNotifications` shows the result: if a cycle is
  replayed on a stale query answer, every update and every notification is
  repeated.
- A connection flag is passed to `MustString` as the ini value's default, and
  the library takes the default whenever the value reads as empty, whether the
  key is missing or present but empty (main.go:349-353).
  `Config.MergeIndependentOfDefaultRule` proves that the merged value is the
  same as if only a missing key took the default.
- An interval that does not parse ends the process through `onError`
  (main.go:371-373); a timeout that does not parse falls back to ten seconds
  (main.go:375-379).

## Model

| member | source | states |
|---|---|---|
| `Store.MeetingStore.Meetings` | main.go:156-163 | when the store answers, the result lists each stored meeting with status 1 (SCHEDULED) and start time <= now exactly once, as stored, and nothing else; when it does not, the query fails |
| `Store.NothingDueListsNothing` | main.go:163-173 | when nothing is due, the only possible answer is the empty one (the "No entries" case) |
| `Store.SetStatus` | main.go:140-141 | the `$set` changes only the status of the document with the matching id; ids, the meeting record and every other document are unchanged |
| `Store.SetStatusIdempotent` | main.go:140-141 | applying the same status update twice gives the same store as applying it once |
| `Store.SetStatusLeavesDueSet` | main.go:140-161 | after a move to any status other than SCHEDULED, the due-set loses exactly that meeting |
| `Store.MeetingStore.Update` | main.go:140-147 | the update fails when the store does not answer or no document matches, and then nothing changes; otherwise the store becomes `SetStatus` of the old store |
| `DeviceResolver.DeviceTokens` | main.go:104-106 | one token per device, in device order |
| `DeviceResolver.Devices` | main.go:97-110 | the nested append loops produce `Tokens` of the meeting's participants |
| `DeviceResolver.TokensConcat` | main.go:101-107 | resolution distributes over concatenation of participant lists: earlier participants' tokens come first, and duplicates are kept |
| `DeviceResolver.TokensCons` | main.go:101-107 | the first participant's device tokens lead the result |
| `DeviceResolver.TokensLength` | main.go:101-107 | the number of tokens is the sum of the device counts of the participants that have a user record |
| `DeviceResolver.MissingParticipantSkipped` | main.go:101-105 | a participant without a user record contributes no token and does not affect the participants before or after it |
| `DeviceResolver.TokenResolved` | main.go:97-110 | a token is in the result if and only if some participant with a user record has a device carrying it |
| `Notifier.Payload` | main.go:114-118 | the payload has exactly the keys action, meeting_id and meeting_goal, and action is "meeting_started" |
| `Notifier.PayloadRoundTrip` | main.go:114-118 | a receiver recovers the meeting's id and goal from the payload |
| `Notifier.PayloadIdentifiesMeeting` | main.go:114-118 | two meetings get the same payload if and only if they have the same id and goal |
| `Notifier.GcmSettingsOf` | main.go:123-129 | the API key is the `gcm` section's `apikey`; the retry count is the parsed `retries` value when it parses, and 3 when it does not |
| `Notifier.Notify` | main.go:112-136 | the message carries the payload of the meeting, the tokens of its participants, the API key and the retry count; the attempt is marked delivered exactly when the gateway accepted it |
| `Reconciler.Transition` | main.go:138-150 | the update comes first; it succeeds exactly when the store acknowledges it and the meeting is stored, and only then does one send attempt with that meeting's message follow; a failed update ends the process with the store unchanged |
| `Reconciler.Status` | main.go:138-150 | the method's new store and log are those of `Transition` on the old store |
| `Reconciler.Check` | main.go:152-185 | a failed query changes nothing and logs nothing; otherwise the dispatched list answers the due-set query on the old store, and the new store and log are those of `Run` over it |
| `Reconciler.Dispatch` | main.go:165-170 | the dispatch loop's new store and log are those of `Run` over the listed meetings on the old store |
| `Reconciler.TransitionStopsAtFirstFailure` | main.go:131-132 | a single transition ends the process exactly when its last event is a failed update or a rejected send |
| `Reconciler.TransitionChangesOnlyUpdated` | main.go:140-141 | a single transition changes at most the status of its own meeting, to ACTIVE, and only when it logs the update |
| `Reconciler.TransitionNotifiesAfterUpdate` | main.go:141-149 | a single transition sends only directly after its own successful update, with its meeting's message |
| `Reconciler.RunKeepsIds` | main.go:140-141 | a cycle neither adds nor removes documents |
| `Reconciler.RunStaysHalted` | main.go:145-146 | once a fatal event has ended the process, later meetings of the answer change nothing |
| `Reconciler.RunUpdatesInOrder` | main.go:167-170 | successful updates follow the dispatch order, at most one per listed meeting; if the cycle is not cut short, every listed meeting is updated |
| `Reconciler.RunNotifiesEveryUpdate` | main.go:141-149 | the meetings with a send attempt are exactly the meetings with a successful update, in the same order |
| `Reconciler.RunNotifiesOnlyAfterUpdate` | main.go:141-149 | every send attempt comes directly after the successful update of the same meeting to ACTIVE, and carries that listed meeting's message |
| `Reconciler.RunHaltsAtFirstFailure` | main.go:131-132 | the process ends exactly when the last logged event is fatal (a failed update or a rejected send), and no earlier event is fatal |
| `Reconciler.RunChangesOnlyUpdatedStatus` | main.go:140-141 | a cycle keeps every id and meeting record; a document changes only by getting status ACTIVE, and only if the log shows its update |
| `Reconciler.RunAllSucceed` | main.go:165-170 | when nothing fails, the log is, for each listed meeting in order, its update to ACTIVE and then its delivered notification, and each listed meeting ends ACTIVE |
| `Reconciler.CycleClearsDueSet` | main.go:156-170 | after a cycle in which nothing fails, nothing is due at the same time, and the next query answers nothing |
| `Reconciler.StaleAnswerRepeatsNotifications` | main.go:140-141 | replaying a successful cycle on its stale answer leaves the store unchanged but repeats every update and notification, because the update is not guarded by the current status |
| `Reconciler.OneMeetingOneDevice` | main.go:138-170 | one scheduled meeting whose start has passed and whose participant has one device: the query answers exactly that meeting, and the cycle over it sets the meeting ACTIVE, then sends one message to that device's token |
| `Config.ValidateIni` | main.go:210-238 | validation passes if and only if port, gcm apikey, mongo host, username and password are all non-empty; otherwise the message is that of the first empty key in the order port, apikey, host, username, password, each case stated as an if-and-only-if |
| `Config.Startup` | main.go:337-379 | start-up fails exactly when validation fails (with the validation message) or the interval does not parse (with the `onError` line for "Fail to parse interval value"); otherwise the connection settings are those of `Connection`, the interval is the parsed `interval` text ("5s" when empty), and the timeout is the parsed `timeout` text ("10s" when empty), or ten seconds when it does not parse |
| `Config.Connection` | main.go:343-367 | each connection setting is the flag when the flag is non-empty, else the ini value |
| `Config.MergeIndependentOfDefaultRule` | main.go:343-367 | the merged value is the same whether the library defaults only a missing key or also an empty one; it equals the non-empty flag, else the ini value |
| `Config.ValidatedCredentialsIgnoreDefault` | main.go:337-347 | after validation has passed, the flags given as defaults for username, password and host are never used as defaults |
| `ErrorReport.OnError` | main.go:187-203 | without an error, nothing happens; with one, the logged line is the error line of the messages |
| `ErrorReport.ErrorLineSingle` | main.go:192-200 | a single message is logged as "[ERROR] ", the message and a space |
| `ErrorReport.ErrorLineSnoc` | main.go:192-198 | each further message is appended, with a trailing space; the prefix "[ERROR] " comes only before the first |
| `ErrorReport.ErrorLineLength` | main.go:190-198 | the line's length is the prefix (when there is a message) plus each message and its separator |
| `ErrorReport.ErrorLineMessageAt` | main.go:192-198 | message i stands in the line right after the prefix and the earlier messages with their separators, followed by a space |

## Left out

- The store driver (main.go:68-95): dialing, session modes and the `Find`/`Update` wire calls. The store is a map. The driver's answers (query answered, update acknowledged) are inputs.
- The push gateway client (main.go:121-129): its own message checks, its retries and its HTTP transport. Whether a send is accepted is an input.
- Concurrency (main.go:169, main.go:184, main.go:403-409): goroutines, the `complete` channel and the sleep between cycles. The model runs one cycle and handles its meetings one after another. It does not capture other goroutines finishing or overlapping with a `log.Fatal`.
- The command listener and its JSON decoding (main.go:240-313): network I/O and library parsing, and no command is executed.
- Library calls in `main` (main.go:319-335): `flag.Parse`, `filepath.Abs` and `ini.Load`. Their results (the flags, the loaded file) are inputs; their failures, which end the process through `onError`, are not modelled.
- Config.Startup: `time.ParseDuration` is a parameter (`parseDuration`), not a model of the library's parser; the "Delay duration is" log line is not modelled.
- Config.Startup: does not model the `MustString` write-back of a default into the in-memory ini. Nothing reads those keys again.
- Notifier.GcmSettingsOf: the integer parsing behind `MustInt` is a parameter, not a model of the library's parser.
- Log output other than the modelled events: "Checking...", "No entries" and the success lines. The `status` argument of `notify` is used only in its log line.
- `Meeting.String()` and `Hex()` (main.go:57-59): an id is represented by its hexadecimal text, so `Hex()` is the identity.
- User lookups: a lookup that fails on I/O is not told apart from a missing user. Both leave the empty user.
- The commented-out COMPLETE query (main.go:175-183) is disabled code.
