# Disco, modelled in Dafny

Disco is an iOS app for staying off the phone for a while. The user starts a
"disconnect" session from the home screen. While it runs, the app counts the
seconds, and a batch of local reminder notifications is scheduled ahead of
time. The reminders' delays and texts come from a staged copy file: the
longer the session, the later the stage. Every reminder the app asks for, and
every one the system reports as delivered, goes into an in-app notification
log. The log keeps its read state and drives the app icon badge. Ending the
session shows an aftermath screen with the session's length. From there the
user returns home.

This project models the logic behind that, one Dafny module per Swift file:

- `Domain` (`app_state.dfy`): the phase state machine values `AppPhase`,
  `DisconnectSession` and `AftermathSummary`, and the `AppState` record as a
  class.
- `Copy` (`copy_engine.dfy`): the copy engine. It sorts the stages, picks the
  stage for an elapsed time, draws the next delay, picks a message and
  substitutes its placeholders.
- `NotificationLog` (`notification_log_store.dfy`): the log store, with
  `upsert`, `markRead`, `unreadCount` and load/save, as functions on the
  log plus a `LogStore` class.
- `Scheduler` (`notification_scheduler.dfy`): the batch scheduler class,
  with its loop proved against the function `Batch`.
- `Controller` (`disconnect_controller.dfy`): the disconnect controller.
  It covers the session lifecycle, the timer, asking for notification
  permission once, and forwarding notification observations to the log.
- `Markdown` (`info_view.dfy`): the line-based markdown parser of the
  information screen, as a loop proved against a recursive specification.
- `Home` (`home_view.dfy`): the duration formatter, the main button's title,
  and its tap dispatch.
- `Text` and `Wrappers`: Foundation's string replacement and splitting,
  `String(Int)`, Swift's truncating division, and `Optional`.

External inputs become parameters:

- the clock (integer seconds);
- the random draws (an offset into the range drawn from);
- fresh UUIDs.

The notification centre is a ghost record of the calls made to it: pending
requests added and removed, permission prompts, and badge values pushed.

Where the code and its documentation differ, the model follows the code:

- `startDisconnect` starts a new session from any phase.
- `stopDisconnect` stops the timer and the scheduler in every phase.
- `upsert` keeps the old copy id only when the new one is `nil`. An empty
  string still replaces it.
- `finishAftermathAndReturnHome` does not reset the badge. The badge always
  mirrors the log's unread count.

## Model

| member | source | states |
|---|---|---|
| Domain.IsDisconnecting | Disco/src/Domain/AppState.swift:52-55 | definition of `isDisconnecting`: true for the disconnecting phase only; characterised by `IsDisconnectingExactly` |
| Domain.AppState.UnreadCount | Disco/src/Domain/AppState.swift:47-49 | definition of `unreadCount`: the number of unread log entries; `CountUnreadIsUnreadFlags` counts it as the `false` read flags |
| Domain.IsDisconnectingExactly | Disco/src/Domain/AppState.swift:52-55 | `isDisconnecting` holds exactly for the disconnecting phase; otherwise the phase is idle or an aftermath |
| Domain.AppState.constructor | Disco/src/Domain/AppState.swift:36-44 | a new state is idle, with an empty log and a zero badge |
| Domain.AppState.MarkNotificationRead | Disco/src/Domain/AppState.swift:57-60 | the log becomes `MarkedRead` of the old log (first entry with the id flagged read, unknown id unchanged); phase and badge are untouched |
| Domain.AppState.AppendNotification | Disco/src/Domain/AppState.swift:62-65 | the entry is put at index 0 in front of the old log, and the badge rises by exactly one |
| Domain.AppState.ResetForNewDisconnect | Disco/src/Domain/AppState.swift:67-73 | phase, log and badge all survive a new session unchanged |
| NotificationLog.CountUnreadIsUnreadFlags | Disco/src/Domain/AppState.swift:47-49 | the unread count is the number of `false` read flags in the log |
| Copy.InsertByStart | Disco/src/Logic/CopyEngine.swift:57 | inserting into a sorted stage list keeps it sorted by threshold and adds exactly that stage (multiset) |
| Copy.SortByStart | Disco/src/Logic/CopyEngine.swift:57 | the sorted stages ascend by `startAfterSeconds` and are a permutation of the decoded ones |
| Copy.NewEngine | Disco/src/Logic/CopyEngine.swift:43-58 | the engine's stage list is a sorted permutation of the decoded stage list |
| Copy.LastReached | Disco/src/Logic/CopyEngine.swift:98 | definition of `last { elapsed >= $0.startAfterSeconds }`: the index of the last reached stage, if any; `LastReachedIsLast` states it |
| Copy.StageFor | Disco/src/Logic/CopyEngine.swift:97-99 | definition of `stageForElapsed`: the last reached stage, else the first; `StageIsGreatestReached`, `StageFallsBackToFirst` and `StageIndexMonotone` state it |
| Copy.LastReachedIsLast | Disco/src/Logic/CopyEngine.swift:98 | a found index is reached (threshold ≤ elapsed) and no later stage is; none is found exactly when no stage is reached |
| Copy.StageIndex | Disco/src/Logic/CopyEngine.swift:97-99 | over a non-empty stage list (the force unwrap), the chosen index is in range |
| Copy.StageIsGreatestReached | Disco/src/Logic/CopyEngine.swift:98 | over sorted stages the chosen stage is reached, and any reached stage is at or before it (a threshold equal to elapsed counts) |
| Copy.StageFallsBackToFirst | Disco/src/Logic/CopyEngine.swift:98 | when no threshold is reached, the first stage is chosen |
| Copy.StageIndexMonotone | Disco/src/Logic/CopyEngine.swift:97-99 | a later elapsed time never selects an earlier stage |
| Copy.NextInterval | Disco/src/Logic/CopyEngine.swift:88-93 | the delay lies between the smaller and larger bound, whichever order the stage gives them in |
| Copy.NextIntervalReachesAll | Disco/src/Logic/CopyEngine.swift:92 | every value between the bounds can be drawn |
| Copy.Token | Disco/src/Logic/CopyEngine.swift:112 | a token is two characters longer than its key and opens with `{`, so it can only match where the text has a `{` |
| Copy.BuiltIns | Disco/src/Logic/CopyEngine.swift:104-109 | definition of the built-in substitutions as a replacement list; `BuiltInsInOrder` proves them the three `replacingOccurrences` calls |
| Copy.ApplyReplacements | Disco/src/Logic/CopyEngine.swift:111-113 | definition of the caller's replacements, one whole-text replacement of `{key}` per pair, in list order |
| Copy.Placeholders | Disco/src/Logic/CopyEngine.swift:101-116 | definition of `replacePlaceholders`: built-ins, then the caller's pairs; `ReplacePlaceholders`, `PlaceholdersWithoutBrace` and the placeholder lemmas state it |
| Copy.ReplacePlaceholders | Disco/src/Logic/CopyEngine.swift:101-116 | the step-by-step replacement yields `Placeholders`: seconds, minutes and hours first, then the caller's replacements in order |
| Copy.BuiltInsInOrder | Disco/src/Logic/CopyEngine.swift:107-109 | the built-ins are three whole-text replacements, of `{elapsedSeconds}`, then `{elapsedMinutes}`, then `{elapsedHours}` |
| Copy.PlaceholdersWithoutBrace | Disco/src/Logic/CopyEngine.swift:101-116 | text with no `{` comes back unchanged, whatever the replacements |
| Copy.MinutesPlaceholder | Disco/src/Logic/CopyEngine.swift:104-108 | `{elapsedMinutes}` becomes the decimal of elapsed / 60, truncated toward zero |
| Copy.HoursPlaceholder | Disco/src/Logic/CopyEngine.swift:105-109 | `{elapsedHours}` becomes the decimal of elapsed / 3600, truncated toward zero |
| Copy.MinutesPlaceholderInText | Disco/src/Logic/CopyEngine.swift:104-109 | inside a message whose other text has no `{`, `{elapsedMinutes}` becomes the truncated minutes and the text around it is kept |
| Copy.HoursPlaceholderInText | Disco/src/Logic/CopyEngine.swift:105-109 | inside a message whose other text has no `{`, `{elapsedHours}` becomes the truncated hours and the text around it is kept |
| Copy.OtherTokenUntouched | Disco/src/Logic/CopyEngine.swift:107-109 | replacing one placeholder leaves a different placeholder, and text without `{`, as it is |
| Copy.TokenReplaced | Disco/src/Logic/CopyEngine.swift:107-109 | a placeholder between texts without `{` is replaced by its value, and the surrounding text is kept |
| Copy.BuiltInsWinOverCallerKeys | Disco/src/Logic/CopyEngine.swift:107-113 | the built-ins are replaced first, so a caller value for `elapsedMinutes` never reaches the text |
| Copy.MakeMessageWith | Disco/src/Logic/CopyEngine.swift:76-85 | definition of `makeMessage(elapsedSeconds:replacements:)`; `MakeMessageChoice` states it |
| Copy.MakeMessage | Disco/src/Logic/CopyEngine.swift:64-73 | definition of `makeMessage(elapsedSeconds:)`; `MakeMessageCopyId` and `MakeMessageReachesAll` state it |
| Copy.MakeMessageChoice | Disco/src/Logic/CopyEngine.swift:76-85 | a stage without messages gives `("…","…","missing_message")`; otherwise some message of the chosen stage, with its title and body after replacement and its own id |
| Copy.MakeMessageCopyId | Disco/src/Logic/CopyEngine.swift:64-73 | for a non-empty stage, the copy id is the id of one of the stage's messages |
| Copy.MakeMessageReachesAll | Disco/src/Logic/CopyEngine.swift:78 | every message of the stage can be the one chosen |
| NotificationLog.FirstIndex | Disco/src/Logic/NotificationLogStore.swift:70 | `firstIndex(where:)`: the index found holds the id and no earlier entry does; none exactly when no entry has it |
| NotificationLog.Upgrade | Disco/src/Logic/NotificationLogStore.swift:83 | the merged status is delivered exactly when either observation says delivered |
| NotificationLog.CountUnread | Disco/src/Logic/NotificationLogStore.swift:57-59 | the unread count is at most the log length and is zero exactly when every entry is read |
| NotificationLog.Upserted | Disco/src/Logic/NotificationLogStore.swift:75-93 | definition of `upsert` on the log value; `UpsertInsertsUnknown`, `UpsertMergesKnown` and the upsert lemmas state it |
| NotificationLog.MarkedRead | Disco/src/Logic/NotificationLogStore.swift:69-73 | definition of `markRead` on the log value; `MarkReadSetsFlag` and the mark-read lemmas state it |
| NotificationLog.UpsertInsertsUnknown | Disco/src/Logic/NotificationLogStore.swift:89-90 | an unknown id is inserted, unread, at index 0 with what was observed; the old log follows unchanged |
| NotificationLog.UpsertMergesKnown | Disco/src/Logic/NotificationLogStore.swift:76-88 | a known id keeps length, position, `createdAt` and read state; title and body are replaced; the status only upgrades; the copy id is kept only when none is given; every other entry is untouched |
| NotificationLog.UpsertDeliveredEndsDelivered | Disco/src/Logic/NotificationLogStore.swift:83 | after a delivered observation the entry exists and is delivered |
| NotificationLog.UpsertNeverDowngrades | Disco/src/Logic/NotificationLogStore.swift:83 | a delivered entry stays delivered after any further observation of its id |
| NotificationLog.StatusOrderIndependent | Disco/src/Logic/NotificationLogStore.swift:75-93 | attempted-then-delivered and delivered-then-attempted both end delivered |
| NotificationLog.UpsertIdempotent | Disco/src/Logic/NotificationLogStore.swift:75-93 | observing the same notification twice equals observing it once |
| NotificationLog.UpsertKeepsIdsDistinct | Disco/src/Logic/NotificationLogStore.swift:75-91 | pairwise-distinct ids stay pairwise distinct after an upsert |
| NotificationLog.MarkReadSetsFlag | Disco/src/Logic/NotificationLogStore.swift:69-73 | the length and all but the read flags are kept; the first entry with the id is read and no other entry changes; an unknown id leaves the log as it was |
| NotificationLog.MarkReadIdempotent | Disco/src/Logic/NotificationLogStore.swift:69-73 | marking read twice equals marking read once |
| NotificationLog.MarkReadKeepsIdsDistinct | Disco/src/Logic/NotificationLogStore.swift:69-73 | pairwise-distinct ids stay distinct after marking read |
| NotificationLog.MarkReadCount | Disco/src/Logic/NotificationLogStore.swift:69-73 | the unread count never rises; it falls by one exactly when an unread known entry is marked |
| NotificationLog.UpsertCount | Disco/src/Logic/NotificationLogStore.swift:75-93 | the unread count rises by one for a new id and is unchanged for a known one |
| NotificationLog.UpsertLeavesOthers | Disco/src/Logic/NotificationLogStore.swift:75-93 | observing one id leaves the entry of every other id as it was |
| NotificationLog.UpsertKeepsDelivered | Disco/src/Logic/NotificationLogStore.swift:83 | once delivered, an entry stays delivered whichever id is observed next |
| NotificationLog.Replayed | Disco/src/Logic/DisconnectController.swift:109-117 | definition of the resync loop on the log value: one delivered upsert per notification, in order, without copy id |
| NotificationLog.ReplayedAllDelivered | Disco/src/Logic/DisconnectController.swift:106-120 | after replaying the delivered notifications, each of them is in the log as delivered |
| NotificationLog.AttemptThenDelivered | Disco/src/Logic/NotificationLogStore.swift:75-93 | attempted then delivered for one id on an empty log gives one delivered, unread entry with the first creation time and the latest text |
| NotificationLog.ReadSurvivesRedelivery | Disco/src/Logic/NotificationLogStore.swift:76-88 | a later delivered observation does not undo a read |
| NotificationLog.TapRecordsDeliveredAndRead | Disco/src/DiscoApp.swift:59-67 | tapping a notification leaves its entry present, delivered and read, whether or not it was logged before |
| NotificationLog.LogStore.constructor | Disco/src/Logic/NotificationLogStore.swift:101-109 | saved entries are loaded as they are; missing or undecodable data gives an empty log; the stored data is kept, and reloading it gives the log (`Reloads`) |
| NotificationLog.LogStore.UnreadCount | Disco/src/Logic/NotificationLogStore.swift:57-59 | definition of the store's `unreadCount` as `CountUnread` of its entries |
| NotificationLog.LogStore.UpsertAttempt | Disco/src/Logic/NotificationLogStore.swift:61-63 | the log becomes the upsert of an attempted observation, and is saved so that reloading gives it back |
| NotificationLog.LogStore.UpsertDelivered | Disco/src/Logic/NotificationLogStore.swift:65-67 | the log becomes the upsert of a delivered observation, and is saved so that reloading gives it back |
| NotificationLog.LogStore.MarkRead | Disco/src/Logic/NotificationLogStore.swift:69-73 | the log becomes `MarkedRead`; it is saved only when the id was known; a stored copy that reloaded to the log still does |
| NotificationLog.LogStore.Upsert | Disco/src/Logic/NotificationLogStore.swift:75-93 | the in-place merge or head insertion yields `Upserted` of the old log, and the result is saved so that reloading gives it back |
| NotificationLog.LogStore.Save | Disco/src/Logic/NotificationLogStore.swift:95-109 | the stored copy is the current log, and loading it gives that log back |
| Scheduler.CumulativeDelay | Disco/src/Logic/NotificationScheduler.swift:52-58 | definition of `cumulativeDelay` after k rounds; `DelayStep`, `DelayIncreases` and `DelayAtLeastMin` state it |
| Scheduler.RequestAt | Disco/src/Logic/NotificationScheduler.swift:60-69 | definition of the request one round issues for a given delay; `BatchRequests` states its parts |
| Scheduler.Request | Disco/src/Logic/NotificationScheduler.swift:55-69 | definition of round k's request, at round k's cumulative delay; `CopyMatchesFireTime` states its copy |
| Scheduler.Batch | Disco/src/Logic/NotificationScheduler.swift:54-72 | definition of the batch: the requests of rounds 0 to n-1, in order; `BatchAt` and `BatchLength` state it |
| Scheduler.Gap | Disco/src/Logic/NotificationScheduler.swift:57-58 | each step adds at least `minTriggerSeconds` |
| Scheduler.FireTime | Disco/src/Logic/NotificationScheduler.swift:97 | no trigger delay is under `minTriggerSeconds` |
| Scheduler.BatchAt | Disco/src/Logic/NotificationScheduler.swift:54-72 | a batch of n has n requests, and its k-th element is the k-th request |
| Scheduler.BatchRequests | Disco/src/Logic/NotificationScheduler.swift:63-69 | the k-th request (from 0) carries the k-th fresh identifier, badge `startingBadge + k + 1` and its fire time |
| Scheduler.BatchLength | Disco/src/Logic/NotificationScheduler.swift:54 | a batch has exactly `maxScheduled` requests |
| Scheduler.DelayStep | Disco/src/Logic/NotificationScheduler.swift:55-58 | each step's delay grows by at least `minTriggerSeconds` and at least the interval drawn at the elapsed time reached so far |
| Scheduler.DelayIncreases | Disco/src/Logic/NotificationScheduler.swift:52-58 | with a minimum of at least one, a later cumulative delay exceeds an earlier one by at least the minimum |
| Scheduler.DelayAtLeastMin | Disco/src/Logic/NotificationScheduler.swift:58 | with a positive minimum, every cumulative delay after the first step is at least the minimum |
| Scheduler.FireTimesIncrease | Disco/src/Logic/NotificationScheduler.swift:52-72 | with `minTriggerSeconds ≥ 1`, fire times strictly increase along the batch |
| Scheduler.FireTimeIsDelay | Disco/src/Logic/NotificationScheduler.swift:97 | with `minTriggerSeconds ≥ 1`, the clamp never changes a delay |
| Scheduler.IsBatch | Disco/src/Logic/NotificationScheduler.swift:54-72 | a sequence whose every element is the request of its position is the batch |
| Scheduler.CopyMatchesFireTime | Disco/src/Logic/NotificationScheduler.swift:60 | each request's text is the message built for the elapsed time after its own cumulative delay |
| Scheduler.NotificationScheduler.constructor | Disco/src/Logic/NotificationScheduler.swift:32-40 | a new scheduler has nothing pending and has made no calls |
| Scheduler.NotificationScheduler.Start | Disco/src/Logic/NotificationScheduler.swift:43-73 | cancels the pending batch first, then issues `Batch` for the clamped elapsed time; the pending set is the first `maxScheduled` fresh identifiers |
| Scheduler.NotificationScheduler.ScheduleBatch | Disco/src/Logic/NotificationScheduler.swift:52-72 | the loop issues exactly `Batch(plan, maxScheduled)` and records its identifiers in order |
| Scheduler.NotificationScheduler.ScheduleNext | Disco/src/Logic/NotificationScheduler.swift:55-71 | one round of the loop: the delay grows to the next cumulative delay, the request due after it is issued, and its identifier is recorded |
| Scheduler.NotificationScheduler.IssueRequest | Disco/src/Logic/NotificationScheduler.swift:60-69 | the copy made for the elapsed time at which the reminder fires is requested with the next fresh identifier and badge `startingBadge + count + 1` |
| Scheduler.NotificationScheduler.Stop | Disco/src/Logic/NotificationScheduler.swift:76-80 | cancels exactly the pending identifiers in one call, or issues nothing when none are pending; then nothing is pending, and nothing else changes |
| Scheduler.NotificationScheduler.StopTwice | Disco/src/Logic/NotificationScheduler.swift:76-80 | `stop` is idempotent: a second stop issues no further call |
| Scheduler.NotificationScheduler.ScheduleLocalNotification | Disco/src/Logic/NotificationScheduler.swift:84-102 | one request is added, with its delay clamped to at least `minTriggerSeconds` |
| Controller.StartedThenTicked | Disco/src/Logic/DisconnectController.swift:53-54 | a session just started has the new id and `startedAt = now`, and a tick at `t` shows `max(0, t - now)` seconds |
| Controller.TickedPhase | Disco/src/Logic/DisconnectController.swift:135-141 | definition of `tick` on the phase; `TickOutsideSessionIsNoop` and `TickRefreshesElapsed` state it |
| Controller.StoppedPhase | Disco/src/Logic/DisconnectController.swift:66-78 | definition of `stopDisconnect` on the phase; `StopOutsideSessionIsNoop` and `StopSummarises` state it |
| Controller.TickOutsideSessionIsNoop | Disco/src/Logic/DisconnectController.swift:136 | a tick outside a session changes nothing |
| Controller.TickRefreshesElapsed | Disco/src/Logic/DisconnectController.swift:135-141 | a tick keeps the session id and start and sets elapsed seconds to `max(0, now - startedAt)` |
| Controller.TicksNeverDecrease | Disco/src/Logic/DisconnectController.swift:139 | with a clock that does not go back, elapsed seconds never decrease across ticks |
| Controller.StopOutsideSessionIsNoop | Disco/src/Logic/DisconnectController.swift:62-66 | stopping outside a session leaves the phase unchanged |
| Controller.StopSummarises | Disco/src/Logic/DisconnectController.swift:66-78 | stopping a session gives its aftermath: same id and start, end = now, total `max(0, end - start)` |
| Controller.StopAfter125Seconds | Disco/src/Logic/DisconnectController.swift:68-69 | a stop 125 seconds after the start reports 125 seconds |
| Controller.TicksDoNotAffectTotal | Disco/src/Logic/DisconnectController.swift:69 | the total is measured from the clock, not from the last ticked value |
| Controller.DisconnectController.constructor | Disco/src/Logic/DisconnectController.swift:27-40 | the state takes the given phase and badge counter and mirrors the shared store's log; its unread count is pushed to the badge twice (directly, then by the subscription); no timer runs and permission has not been asked |
| Controller.DisconnectController.StartDisconnect | Disco/src/Logic/DisconnectController.swift:50-58 | from any phase: a fresh session at zero seconds with exactly one live timer; permission asked at most once in total; the pending batch is cancelled and a new one is planned from the unread count; log and badge are kept |
| Controller.DisconnectController.StopDisconnect | Disco/src/Logic/DisconnectController.swift:62-79 | the timer and the batch are stopped in every phase; the phase becomes `StoppedPhase` of the old one; the record of the last batch and its plan, the log, badge and permission flag are kept |
| Controller.DisconnectController.FinishAftermathAndReturnHome | Disco/src/Logic/DisconnectController.swift:83-87 | the phase becomes idle; the log and the badge are not touched |
| Controller.DisconnectController.LogNotificationAttempt | Disco/src/Logic/DisconnectController.swift:91-94 | the store records an attempted observation; the state mirrors it and the new unread count is pushed to the badge; phase, badge counter, timer and permission flag are untouched |
| Controller.DisconnectController.LogNotificationDelivered | Disco/src/Logic/DisconnectController.swift:96-99 | the store records a delivered observation; the state mirrors it and the new unread count is pushed to the badge; phase, badge counter, timer and permission flag are untouched |
| Controller.DisconnectController.MarkNotificationRead | Disco/src/Logic/DisconnectController.swift:101-104 | the store marks the entry read; a badge update is pushed exactly when the id is known, even if the entry was already read; phase, badge counter, timer and permission flag are untouched |
| Controller.DisconnectController.SyncDeliveredNotifications | Disco/src/Logic/DisconnectController.swift:106-120 | the log becomes the replay of the delivered notifications, in order, without copy ids; one badge value is pushed per delivery, the unread count after it; phase, badge counter, timer and permission flag are untouched |
| Controller.DisconnectController.StartTimer | Disco/src/Logic/DisconnectController.swift:124-128 | a timer is installed (one more live timer) |
| Controller.DisconnectController.StopTimer | Disco/src/Logic/DisconnectController.swift:130-133 | no timer is left running |
| Controller.DisconnectController.Tick | Disco/src/Logic/DisconnectController.swift:135-141 | the phase becomes `TickedPhase` of the old one; the log and the badge counter are untouched |
| Controller.DisconnectController.EnsureNotificationAuthThenSchedule | Disco/src/Logic/DisconnectController.swift:145-167 | outside a session nothing happens; inside one, permission is asked only the first time, and the scheduler is started every time, from the session start and the unread count |
| Markdown.TrimStartShape | Disco/src/UI/InfoView.swift:118 | the kept part is a suffix that does not start with a blank, and only blanks are dropped |
| Markdown.TrimEndShape | Disco/src/UI/InfoView.swift:118 | the kept part is a prefix that does not end with a blank, and only blanks are dropped |
| Markdown.Trim | Disco/src/UI/InfoView.swift:118 | a trimmed line is no longer, and when not empty it neither starts nor ends with a blank |
| Markdown.TrimDropsOnlyBlanks | Disco/src/UI/InfoView.swift:118 | the line is a blank run, then the trimmed text, then a blank run; the trimmed text is empty exactly when the line is all blank |
| Markdown.TrimClean | Disco/src/UI/InfoView.swift:118 | a text with no blank at either end is its own trim |
| Markdown.TrimIdempotent | Disco/src/UI/InfoView.swift:118 | trimming twice equals trimming once |
| Markdown.Lines | Disco/src/UI/InfoView.swift:98-101 | there is at least one line, and joining the lines with `\n` gives the text with `\r\n` normalised to `\n` |
| Markdown.LineBreaksAgree | Disco/src/UI/InfoView.swift:98-101 | a line ended by `\r\n` and one ended by `\n` read as the same line |
| Markdown.Cleaned | Disco/src/UI/InfoView.swift:107-109 | the trimmed, non-empty buffered lines: no more of them, each non-empty with no blank at either end |
| Markdown.ParagraphText | Disco/src/UI/InfoView.swift:106-110 | the joined text is empty exactly when no buffered line has text; otherwise it has no blank at either end |
| Markdown.Flushed | Disco/src/UI/InfoView.swift:106-115 | a flush adds nothing or one clean paragraph, and nothing exactly when no buffered line has text |
| Markdown.Marker | Disco/src/UI/InfoView.swift:125-141 | a line is a heading or bullet exactly when it starts with `# `, `## ` or `- `; the block's text is the line after its marker |
| Markdown.Classify | Disco/src/UI/InfoView.swift:118-143 | a line is blank exactly when it trims to empty; plain text is the trimmed line, clean and without a marker; marked lines are headings or bullets |
| Markdown.Classified | Disco/src/UI/InfoView.swift:117-118 | every line is classified on its own, and marked lines are never paragraphs |
| Markdown.Blocks | Disco/src/UI/InfoView.swift:117-146 | definition of the parse loop as recursion over the classified lines with the paragraph buffer; `Parse` is proved equal to it |
| Markdown.Document | Disco/src/UI/InfoView.swift:97-148 | definition of `parse`: the blocks of the text's lines; `DocumentMarkers` and `MarkerCounts` state it |
| Markdown.Parse | Disco/src/UI/InfoView.swift:97-148 | the loop over the lines, with its block list and paragraph buffer, computes `Document` |
| Markdown.ParseAdvance | Disco/src/UI/InfoView.swift:117-144 | one loop step moves one line from the pending input to the output |
| Markdown.FlushParagraph | Disco/src/UI/InfoView.swift:106-115 | the buffer is emptied, and the block list gains `Flushed` of it (at most one block) |
| Markdown.NoEmptyParagraph | Disco/src/UI/InfoView.swift:106-115 | every paragraph produced is non-empty and trimmed |
| Markdown.MarkersInLineOrder | Disco/src/UI/InfoView.swift:117-144 | the headings and bullets of the output are exactly those of the marked lines, in source-line order |
| Markdown.DocumentMarkers | Disco/src/UI/InfoView.swift:97-148 | the same for a whole document read from text |
| Markdown.MarkerCountsOnce | Disco/src/UI/InfoView.swift:125-141 | `# `, `## ` and `- ` exclude one another, so a line counts for its own marker only |
| Markdown.CountEmitted | Disco/src/UI/InfoView.swift:120-143 | one line adds a block with marker p exactly when its trimmed form starts with p |
| Markdown.MarkerCounts | Disco/src/UI/InfoView.swift:117-144 | the number of h1 (h2, bullet) blocks equals the number of lines starting with `# ` (`## `, `- `) once trimmed |
| Markdown.PlainLinesCollect | Disco/src/UI/InfoView.swift:143 | plain lines only fill the paragraph buffer and emit nothing |
| Markdown.PlainLinesJoin | Disco/src/UI/InfoView.swift:106-123 | consecutive plain lines and then a blank line make one paragraph, their texts joined by single spaces |
| Markdown.PlainLinesAtEnd | Disco/src/UI/InfoView.swift:143-146 | plain lines at the end of the input make one paragraph, joined by single spaces |
| Markdown.BlankLineSeparates | Disco/src/UI/InfoView.swift:120-123 | a blank line between two runs of plain lines closes the first paragraph, and two paragraphs come out |
| Markdown.TrailingParagraphFlushed | Disco/src/UI/InfoView.swift:146 | when the last line is plain, the output ends with the paragraph that holds it, flushed at end of input |
| Home.FormatDuration | Disco/src/UI/HomeView.swift:187-198 | definition of `formatDuration`; `FormatDurationRoundTrip` and `FormatDurationShape` state it |
| Home.Components | Disco/src/UI/HomeView.swift:188-191 | `hours*3600 + minutes*60 + seconds = max(0, totalSeconds)` with minutes and seconds below 60 |
| Home.Pad2 | Disco/src/UI/HomeView.swift:193-197 | `%02d` below 100: exactly two digits reading back as the value |
| Home.FormatDurationShape | Disco/src/UI/HomeView.swift:193-197 | from one hour on: three groups, with two-digit minutes and seconds and no leading zero on the hours; below it: two groups, with two-digit seconds |
| Home.FormatDurationRoundTrip | Disco/src/UI/HomeView.swift:187-198 | reading the shown duration back gives the number of seconds, clamped at zero |
| Home.NegativeShowsZero | Disco/src/UI/HomeView.swift:188 | a negative duration is shown as `0:00` |
| Home.MainButtonTitle | Disco/src/UI/HomeView.swift:163-172 | definition of `mainButtonTitle`; `TitleNamesPhaseKind` states it |
| Home.TappedPhase | Disco/src/UI/HomeView.swift:174-185 | definition of the phase a tap leads to; `TapCycles` and `SessionRoundTrip` state it |
| Home.TitleNamesPhaseKind | Disco/src/UI/HomeView.swift:163-172 | two phases share a button title exactly when they are the same kind of phase |
| Home.TapCycles | Disco/src/UI/HomeView.swift:174-185 | a tap moves idle to disconnecting, disconnecting to aftermath, and aftermath to idle |
| Home.SessionRoundTrip | Disco/src/UI/HomeView.swift:174-185 | three taps from idle start a session at t1, end it at t2 with total `max(0, t2 - t1)`, and return to idle |
| Home.HandleMainButtonTap | Disco/src/UI/HomeView.swift:174-185 | the new phase is `TappedPhase` of the old one, log and badge kept; from idle a timer runs and a fresh batch replaces the pending one; while disconnecting the timer stops and the pending batch is cancelled; from the aftermath timer and notifications are untouched |
| Text.SwiftDiv | Disco/src/Logic/CopyEngine.swift:104-105 | definition of Swift's truncating `/`; `SwiftDivTruncates` states it |
| Text.SwiftDivTruncates | Disco/src/Logic/CopyEngine.swift:104-105 | Swift's `/` truncates toward zero: the remainder has the sign of the dividend and is smaller than the divisor |
| Text.NatToDecimal | Disco/src/Logic/CopyEngine.swift:107 | `String(n)` is a non-empty digit string, starting with `0` only for zero |
| Text.IntToDecimalRoundTrip | Disco/src/Logic/CopyEngine.swift:107-109 | `String(i)` reads back as `i`: digits without a leading zero (except zero itself), after a minus sign exactly when `i` is negative |
| Text.DecimalRoundTrip | Disco/src/UI/HomeView.swift:193-197 | a decimal rendering reads back as the number it renders |
| Text.ReplaceAll | Disco/src/Logic/CopyEngine.swift:107-112 | definition of `replacingOccurrences(of:with:)`: left-to-right, non-overlapping; the `ReplaceAll` lemmas state it |
| Text.ReplaceAllUntouched | Disco/src/Logic/CopyEngine.swift:107 | text without the pattern's first character is unchanged |
| Text.ReplaceAllWhole | Disco/src/Logic/CopyEngine.swift:107-109 | text that is exactly the pattern becomes exactly the replacement |
| Text.ReplaceAllAbsent | Disco/src/Logic/CopyEngine.swift:107-112 | text in which the pattern never occurs comes back unchanged |
| Text.ReplaceAllLeading | Disco/src/Logic/CopyEngine.swift:107-112 | an occurrence at the start is replaced, and scanning resumes after it |
| Text.Split | Disco/src/UI/InfoView.swift:100 | at least one piece, and no piece contains the separator |
| Text.Join | Disco/src/UI/InfoView.swift:110 | definition of `joined(separator:)`; `SplitJoin` and `JoinEnds` state it |
| Text.SplitJoin | Disco/src/UI/InfoView.swift:98-101 | joining the pieces with the separator gives back the text |

## Left out

- Persistence: the JSON encoding and `UserDefaults` are not modelled. The
  store is a field holding the last saved log, nothing, or undecodable data.
  An encoding failure, where `save` writes nothing, is not modelled.
- Copy-file loading: the bundle lookup, the JSON decoding, `schemaVersion`
  and the `fatalError` paths are not modelled. The engine takes the decoded
  stage list as input.
- Copy.StageIndex: requires a non-empty stage list. The source
  force-unwraps `first` and crashes there.
- Copy.SortByStart: puts stages with equal thresholds in one fixed order.
  Swift's `sorted(by:)` promises no order among equal elements. So which of
  several equal-threshold stages is chosen is not pinned down by the source.
- Copy.MakeMessageCopyId: names only the copy id. Title and body follow
  from `Copy.MakeMessageChoice`, since `MakeMessage` is `MakeMessageWith`
  with no replacements.
- Caller replacements: they come from a dictionary, applied in an
  unspecified order. They are modelled as a sequence applied in sequence
  order, and no claim is made that the order does not matter.
- Randomness: `Int.random(in:)` and `randomElement()` are an offset
  parameter, clamped into the range. Every value of the range is reachable,
  but probabilities are not modelled.
- Fresh UUIDs: `UUID().uuidString` values are a parameter. Their uniqueness
  is neither assumed nor needed.
- Clock: `Date` and `TimeInterval` are integer seconds. The truncation of
  fractional seconds by `Int(Double)` is not modelled.
- Integer width: integers are unbounded. Swift's overflow traps on badges,
  delays and durations are not modelled.
- The notification centre: `add`, `removePendingNotificationRequests`,
  `requestAuthorization` and `setBadgeCount` are ghost records of the calls
  made. `getDeliveredNotifications` becomes the list of deliveries passed to
  `SyncDeliveredNotifications`.
- Concurrency:
  - The permission callback, the `DispatchQueue.main.async` hop, `Task` and
    `@MainActor` are modelled as synchronous steps.
  - The permission answer is ignored, as in the source.
  - The Combine sink that mirrors the log and pushes the badge runs inside
    each logging method.
- The timer: the repeating `Timer` is a flag plus a count of live timers,
  and each firing is an explicit `Tick(now)`.
- Scheduler.NotificationScheduler.Start: requires `maxScheduled >= 0`.
  For a negative count Swift's range `0..<maxScheduled` traps at run time;
  that crash is not modelled. The controller only ever uses the default
  configuration, whose count is positive.
- Controller.DisconnectController.constructor: of the initial `AppState`
  only the phase and the badge counter are parameters, because the source
  overwrites the log with the store's entries at once. The store is the
  shared one, passed in. Changes to it made by its other users, such as the
  app delegate, reach the controller's state through the publisher in the
  source; here they are mirrored only by the controller's own methods.
- `deinit`: the controller's `deinit`, which stops the timer and the
  scheduler, is not modelled.
- Controller.DisconnectController.StartDisconnect: it names the batch it
  issues as `scheduler.lastBatch`, with its plan in `scheduler.lastPlan`. It
  does not restate that this batch is `Batch(lastPlan, maxScheduled)`.
  `Scheduler.NotificationScheduler.Start` ensures that.
- Controller.DisconnectController.EnsureNotificationAuthThenSchedule: like
  `StartDisconnect`, it states the new batch as `scheduler.lastBatch` and
  `scheduler.lastPlan`.
- Home.HandleMainButtonTap: Swift's `startDisconnect()` takes no arguments.
  Here the session id, the clock reading and the scheduler's draws are
  parameters. Starting needs enough draws for the batch.
- Home.FormatDuration: `String(format: "%d")` is modelled as the decimal of
  the value. A width mismatch for hours beyond 32 bits is not modelled.
- Characters: strings are sequences of characters, not grapheme clusters.
  In particular `"\r\n"` is two characters here, where Swift's `String`
  treats it as one `Character`. Foundation's `.whitespaces` is modelled as
  the tab and the Unicode space separators.
- Markdown blocks: each Swift `Block` carries a fresh UUID as its id. The
  model keeps only the block's kind and text.
- Views and rendering: the SwiftUI bodies, `NotificationCenterView`, the
  floating-point animation in `AppBackground` and the app delegate are not
  modelled. The delegate's tap path (upsert delivered, then mark read) is
  `NotificationLog.TapRecordsDeliveredAndRead`.
