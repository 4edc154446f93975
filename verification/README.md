# LifeRadar sync: a verified model

LifeRadar keeps a local store of messages and planned actions in step with several remote systems.
This project models the parts where that is hard and proves what they are for:

- **Matrix history ingest**: walking a room's history backwards with a cutoff, storing what is new, over
  any sequence of runs; and choosing which rooms to walk again because they hold undecrypted events.
- **Google Calendar, both ways**: pushing planned actions out, pulling events in, through one table and
  one remote calendar, without either job taking the other's work for its own.
- **Device verification**: the process that follows the SDK and the user, and the monitor that folds its
  output into an attempt record.
- **Chat gateways**: Telegram's backfill mark, WhatsApp's per-chat cursors, Signal's stream and reconnect
  timer, and the upserts they all feed.
- **Triage**: flags and scores derived from messages and projected back onto them.
- **Replacement rooms**: the concurrent search for the room that took a stale one's place.

Code that changes state is a class whose methods are tied to a function of the old state (`Job.Run`,
`ImportJob.Run`, `Process.RunInteractive`, `VerificationAttempt.Monitor`, `Dialog.Backfill`,
`Connector.HandleHistory`, `Connector.Happen`, `Script.Run`, `RoomStore.IngestRoom`); the lemmas are about
those functions. `MatrixRows`, `HealDue`, `CalendarOutcomes`, `VerificationReports`, `UpsertFields`, `TriageRules`
and `SignalLifecycle` say what the operations leave behind on the fields of rows, events and records alone, without
the definitions the operations are built from. Remote services are parameters: a page source, a stream of states, a reply function.
`dafny verify dfyconfig.toml` checks everything.

## What the proofs found

- Of two moments with the earlier before the year 10000, the rendered texts sort as the moments do exactly
  when the later is before it too (`Timestamps.OrderEmbedding`).
- A walk with a cutoff reads no page after the first that is empty or holds an entry at or before the cutoff,
  and an entry without `origin_server_ts` counts as sent at time zero. So it misses exactly the newer events
  on pages beyond that one (`WalkLoss.WalkLosesExactly`, `WalkLoss.HistoryFindsExactly`).
- A cancelled action whose stored event id is the empty text is given a new event and marked scheduled;
  with any other id its event goes and it stays cancelled (`CalendarReconcile.CancelledEventGone`).
- The push compares title, description and times but not the tag. An edit of a task's source alone therefore
  leaves its event's tag stale (`CalendarTags.SourceEditLeavesTagStale`); as long as no edit changes a source,
  every claimed event carries exactly its task's tag (`CalendarTags.ClaimedEventsCarryTheirTag`).
- A Telegram backfill that breaks off after its first page loses, for good, just the ids it had not reached,
  except the oldest part of the page in hand (`TelegramCrashes.CrashLoss`); a break before the first mark
  loses nothing (`TelegramCrashes.EarlyCrashLosesNothing`).
- A Signal logout is final, until someone starts the connector or pairs an account again, if and only if no
  start, pairing or fired timer was still on its way to a connection (`SignalLifecycle.LogoutIsFinal`).
- A Signal stream whose socket cannot be made reports its close before anyone listens. The dead stream is
  then held, with no stream ever live, until somebody logs out (`SignalLifecycle.SocketFailureIsFinal`).
- A verification the user cancelled may still succeed: it ends "done", without an error, if and only if the
  stage then listening hears a Done state (`VerificationCancel.CancelledFinishesIf`).
- An attempt may ask the user to compare emoji and refuse every answer. A decision made while it asks is
  carried out if and only if no cancel was reported before (`VerificationCancel.AskedAndAnswered`,
  `VerificationCancel.AsksInVain`).
- In the triage score the weight of a follow-up never shows: what is due for one also needs reading, which
  weighs more (`TriageRules.PriorityWhen`).
- A message whose own source the triage script does not clear keeps flags it had before
  (`TriageProperties.FlagsAfter` gives the exact condition).

## Assumptions about the outside

- Matrix: the pages of one walk put together are the room's timeline backwards, none of them empty; entries
  joining later carry strictly larger times; writes to the database succeed (a fetch may fail at any page).
- Calendar: the remote side returns fields as stored, hands out new event ids that are not empty and hold no
  colon, answers "not found" for a deleted event, and a POST and the local update after it both complete; a run may break off between turns. People
  edit tagged events without changing their tags.
- Verification: the process's JSON lines reach the monitor whole and in order; other lines may come between.
- Telegram: `getMessages` returns the newest ids below the offset and above the minimum, no more than asked.
  Monotonicity of the mark needs no assumption.
- WhatsApp: history batches are handled one at a time.

## Model

| member | source | states |
|---|---|---|
| Timestamps.OrderEmbedding | liferadar-matrix/src/adapter.rs:212-216 | for moments a < b with a before the year 10000, the rendered texts compare the same way if and only if b is before the year 10000 too, whole seconds printed without a fraction included |
| Timestamps.RenderInjective | liferadar-matrix/src/main.rs:1692-1695 | below the year 10000 text order is number order in both directions and equal texts are equal moments, so the last of the sorted texts is the true maximum |
| Timestamps.FieldsIncrease | liferadar-matrix/src/adapter.rs:212-216 | later milliseconds have later calendar fields, year before month before day before second before fraction |
| Timestamps.FieldsOfSpan | liferadar-matrix/src/adapter.rs:212-216 | the calendar fields are a real date whose day number counts back to the input |
| Timestamps.CheckpointRoundTrip | liferadar-matrix/src/main.rs:4140-4156 | a rendered time, or the job's own stamp, reads back as the moment rounded down to a whole second |
| Timestamps.TextForms | liferadar-matrix/src/adapter.rs:212-216 | a rendered time ends in its zone and has three digits of fraction unless its second is whole; the job's own stamp has none and ends in `Z` |
| Timestamps.BeyondFourDigits | liferadar-matrix/src/adapter.rs:212-216 | from the year 10000 on a time renders with a signed year, and past the calendar's last year as the epoch |
| MatrixAdapter.ParseTimelineEvent | liferadar-matrix/src/adapter.rs:35-97 | an event is taken exactly when it has an id, a timestamp and a type worth storing, and the row carries its id and the text of its time |
| MatrixAdapter.UndecryptedRows | liferadar-matrix/src/adapter.rs:160-182 | a row reads "[undecrypted]" exactly when its event came encrypted and without text, or its text is just that |
| MatrixRows.TypesTaken | liferadar-matrix/src/adapter.rs:142-146 | of the entries with id and time, messages, encrypted or not, and types that hold "beeper" are taken; of the rest those that begin with "m.room." or "org.matrix" are not and all others are |
| MatrixRows.RowSays | liferadar-matrix/src/adapter.rs:160-182 | a row carries its event's sender, side and text; one without text is named for what it is, case by case |
| MatrixRows.ClassedAs | liferadar-matrix/src/adapter.rs:148-158 | how an event is classified, by its type, its decryption and its message type |
| HistoryWalk.ReadChunk | liferadar-matrix/src/main.rs:1927-1951 | reading a page adds just its events after the cutoff, in order, and reports the page's least time |
| HistoryWalk.OldestSeenReaches | liferadar-matrix/src/main.rs:1937-1957 | the least time seen is at or before the cutoff exactly when the page holds an entry that is |
| HistoryWalk.FetchRoomHistory | liferadar-matrix/src/main.rs:1902-1968 | the token loop, with its three ways to stop and failures at any page, finds what the page-by-page specification says, sorted by text and with neighbouring repeats removed |
| StableSort.SortMembers | liferadar-matrix/src/main.rs:1965 | sorting keeps every element as often as it came |
| StableSort.SortOrdered | liferadar-matrix/src/main.rs:1965 | sorting puts elements in order |
| StableSort.SortStable | liferadar-matrix/src/main.rs:1965 | elements that tie keep the order they came in |
| WalkProperties.WalkReadsPages | liferadar-matrix/src/main.rs:1910-1963 | for arbitrary timestamps, a successful walk returns exactly what is worth storing in the pages up to the first one holding an entry at or before the cutoff |
| WalkProperties.StopLosesNothing | liferadar-matrix/src/main.rs:1953-1957 | on a timeline in order, nothing to store lies beyond the place the walk stopped |
| WalkProperties.UntimedEntryEndsWalk | liferadar-matrix/src/main.rs:1933-1957 | with a cutoff, a walk returns exactly what is to store up to some page no later than the first with an entry without a timestamp |
| WalkProperties.EarlyStopRefinesFullWalk | liferadar-matrix/src/main.rs:1902-1968 | for any partition into pages, the walk with cutoff c returns exactly the full walk's events after c, ascending |
| WalkLoss.WalkLosesExactly | liferadar-matrix/src/main.rs:1922-1963 | for arbitrary timestamps, a successful walk with a cutoff returns everything newer if and only if no newer event to store lies on a page after the first that is empty or holds an entry at or before the cutoff |
| WalkLoss.HistoryFindsExactly | liferadar-matrix/src/main.rs:1902-1968 | by id and after sorting and removing repeats, an event is found if and only if a newer entry for it lies on a page up to that one |
| WalkLoss.WalkFailsWhen | liferadar-matrix/src/main.rs:1910-1963 | a walk fails if and only if a request it comes to make fails, that is, one that every page before leads on to |
| WalkLoss.HistoryListsOnce | liferadar-matrix/src/main.rs:1965-1966 | however pages overlap, repeat and are ordered, a fetch lists each event once, if only different events have different times |
| RoomIngest.RoomStore.IngestRoom | liferadar-matrix/src/main.rs:1654-1762 | one room's turn leaves the store as the ingest step says, from the persisted cutoff or from nothing when healing |
| RoomIngest.HealRecordSurvives | liferadar-matrix/src/main.rs:3400-3437 | a run writes the record of a heal attempt exactly when it healed and found something; any other run keeps the record it found |
| IngestRuns.LatestIsLatest | liferadar-matrix/src/main.rs:1692-1709 | the recorded latest event is the newest to store |
| IngestRuns.BeforeCutoffSeen | liferadar-matrix/src/main.rs:3295-3301 | everything at or before the persisted cutoff was taken in by the run that wrote it |
| IngestRuns.StoredCheckpoint | liferadar-matrix/src/main.rs:3417-3426 | the checkpoint a run stores is its newest event's time rounded down to a second |
| IngestRuns.StepKeeps | liferadar-matrix/src/main.rs:1654-1762 | any possible run, failed fetch or heal included, keeps the store exact for what was taken in |
| IngestRuns.MultiRunCompleteness | liferadar-matrix/src/main.rs:1654-1762 | over any sequence of runs on a growing room, right after a run whose fetch succeeds the table holds exactly one row per event to store and no other, and the checkpoint is the newest of them rounded down |
| IngestRuns.NeverForeignRows | liferadar-matrix/src/main.rs:1737-1755 | at any moment every row stands for an event of the room, with its time |
| MatrixRows.StoredIds | liferadar-matrix/src/main.rs:1737-1755 | over any sequence of runs, right after one whose fetch succeeds an id has a row if and only if an entry with it was served with a time and a type worth keeping, spelled out |
| MatrixRows.MessageStored | liferadar-matrix/src/main.rs:1737-1755 | then every message served has a row with its time, and one newer than the cutoff, or of a healed room, with its sender, side and text |
| MatrixRows.LastEventColumn | liferadar-matrix/src/main.rs:3173-3190 | then the conversation's last-event column is exactly the time of the newest event to store |
| MatrixRows.RunIsRecorded | liferadar-matrix/src/main.rs:3383-3426 | a run that finds something records the count, the newest event as checkpoint, the complete history, and the room's own facts |
| MatrixRows.OtherKeysStay | liferadar-matrix/src/main.rs:3400-3407 | every metadata key a run does not write stays as it was |
| MatrixRows.SentKeepsFound | liferadar-matrix/src/main.rs:3400-3407 | what a run sends holds every key it found, its own aside |
| MatrixRows.ReadsOnFrom | liferadar-matrix/src/main.rs:3267-3312 | a conversation without a checkpoint is read on from its last-event column, a new or healed room from the start |
| MatrixRows.StateReadsBack | liferadar-matrix/src/main.rs:3267-3312 | the state read back after a run is the cutoff it wrote, with the history complete |
| HealDamage.HealedRowsAreAsShown | liferadar-matrix/src/main.rs:3194-3213 | right after a successful heal every row is what the server showed in that run, text included, and there is no other row |
| HealDamage.HealLeavesUndecrypted | liferadar-matrix/src/main.rs:3314-3346 | the count of undecrypted rows after a successful heal is that of the entries still shown undecrypted, and with none the room is not due again |
| HealDamage.FetchedRowsAreAsShown | liferadar-matrix/src/main.rs:3194-3213 | right after any successful fetch every entry past the cutoff has the row it parses to |
| HealSchedule.SelectHealRooms | liferadar-matrix/src/main.rs:1621-1652 | the loop, sort and cut choose the rooms the specification names |
| HealSchedule.ChoiceIsWanted | liferadar-matrix/src/main.rs:1641-1652 | the rooms chosen are due; all of them after a key import or when they fit, and otherwise exactly as many as the limit |
| HealSchedule.MostUrgentFirst | liferadar-matrix/src/main.rs:1634-1640 | when the limit cuts, no room left out is more urgent than one taken |
| HealDue.NewestDamageFirst | liferadar-matrix/src/main.rs:1634-1640 | when the limit cuts, a room left out shows no newer damage than one taken, nor more of it at the same time |
| HealDue.DueAfterAttempt | liferadar-matrix/src/main.rs:3338-3381 | however many ordinary runs came since an attempt, a damaged room is due again if and only if keys were imported, the cooldown in hours is over, or damage newer than the attempt shows |
| HealDue.DueUnlessAttempted | liferadar-matrix/src/main.rs:3352-3367 | a room never walked again is due exactly if it shows damage |
| HealFairness.PassPicksPending | liferadar-matrix/src/main.rs:3338-3381 | inside one cooldown a run picks only rooms not yet attempted: all of them if they fit, otherwise as many as the limit |
| HealFairness.PendingShrinks | liferadar-matrix/src/main.rs:1621-1652 | each run takes a full limit off the rooms still waiting, until none waits |
| HealFairness.EveryRoomHealedOnce | liferadar-matrix/src/main.rs:1621-1652 | over k ordinary runs in one cooldown none attempts more rooms than the limit, no room is attempted twice, and if at most limit times k rooms were damaged each still damaged has been attempted |
| CalendarReconcile.Job.PostEvent | bin/google-calendar-reconcile.mjs:153-159 | posting writes the new event and links the row to it |
| CalendarReconcile.Job.Run | bin/google-calendar-reconcile.mjs:134-186 | the loop leaves rows, events and counters as the turn-by-turn specification says |
| CalendarReconcile.StepFrame | bin/google-calendar-reconcile.mjs:134-186 | a turn writes only its action's row, its own event and the event posted for it |
| CalendarReconcile.UptoSettles | bin/google-calendar-reconcile.mjs:134-186 | turns taken stay settled and turns to come find their rows and events untouched |
| CalendarReconcile.UptoFrame | bin/google-calendar-reconcile.mjs:134-186 | a run broken off anywhere has written only fetched rows, claimed events and posted events |
| CalendarReconcile.ActiveOwnsItsEvent | bin/google-calendar-reconcile.mjs:152-185 | after a run every active action owns a live event that shows it, and its row is as it was or linked, scheduled, to a new event; the tag is its own unless the event already showed it and carried another tag |
| CalendarReconcile.CancelledEventGone | bin/google-calendar-reconcile.mjs:135-150 | a cancelled action's event is gone and it stays cancelled if and only if its stored id is not the empty text |
| CalendarReconcile.UnrelatedUntouched | bin/google-calendar-reconcile.mjs:75-99 | rows that are not eligible, and events neither claimed nor posted, are untouched |
| CalendarReconcile.AfterRunAtRest | bin/google-calendar-reconcile.mjs:134-186 | every row eligible after a run was fetched by it and needs nothing more |
| CalendarReconcile.ClaimsStayDistinct | bin/google-calendar-reconcile.mjs:153-172 | distinct claims on events stay distinct |
| CalendarReconcile.SecondRunChangesNothing | bin/google-calendar-reconcile.mjs:134-186 | a second run right after creates 0, updates 0 and leaves calendar and table exactly as they are |
| CalendarOutcomes.PlannedIsShown | bin/google-calendar-reconcile.mjs:75-99 | after a full run every row that is proposed, scheduled or ready, has a start and is kept here or in Google's calendar owns a live event with its title, summary, start and end; stated on the fields |
| CalendarOutcomes.PlannedKeepsItsEvent | bin/google-calendar-reconcile.mjs:152-173 | a row whose event was there keeps it and is untouched; any other gets a new event with its tag, and names it, its link and whether it was made again |
| CalendarOutcomes.CorrectedEvent | bin/google-calendar-reconcile.mjs:175-185 | an event that no longer showed its task is written again with the tag, keeping what only the remote side sets; one that did is left as it is |
| CalendarOutcomes.OthersUntouched | bin/google-calendar-reconcile.mjs:75-99 | rows that are done, imported, of another provider, or without a start and not cancelled, are untouched |
| CalendarOutcomes.CancelledIsGone | bin/google-calendar-reconcile.mjs:135-150 | a cancelled row with an event id that is not empty loses its event and is untouched |
| CalendarOutcomes.CountersTell | bin/google-calendar-reconcile.mjs:130-186 | the three counters are the numbers of rows that lost their event, were given one, and had it corrected |
| CalendarIngest.ImportJob.Lookup | bin/google-calendar-ingest.mjs:128-135 | the lookup answers with a row that stands for the event, or with none if none does |
| CalendarIngest.ImportJob.Run | bin/google-calendar-ingest.mjs:106-183 | the loop leaves the table as the turn-by-turn specification says, each lookup answered from the table of its turn, and counts every event once |
| CalendarIngest.ExternalIdInjective | bin/google-calendar-ingest.mjs:82-84 | with event ids free of colons, equal external ids mean the same calendar and the same event |
| CalendarIngest.ImportIdempotent | bin/google-calendar-ingest.mjs:137-153 | importing the same event again changes nothing in its row |
| CalendarOutcomes.ImportTells | bin/google-calendar-ingest.mjs:106-182 | after a full import every event listed with an id and no task's tag has a row with its title, text, times, status and calendar, whole days from midnight; stated on the fields |
| CalendarOutcomes.ImportKeeps | bin/google-calendar-ingest.mjs:137-153 | a row imported again keeps its effort and the metadata the import does not write |
| CalendarOutcomes.SkippedLeaveTable | bin/google-calendar-ingest.mjs:78-84 | events without an id or with a task's tag leave the table as it is |
| CalendarOutcomes.ImportLeavesOthers | bin/google-calendar-ingest.mjs:128-135 | a row of another provider, or that stands for none of the events listed, is left alone |
| CalendarSync.ImportTurn | bin/google-calendar-ingest.mjs:106-182 | an imported event keeps the shared invariant and changes no task |
| CalendarSync.IngestKeeps | bin/google-calendar-ingest.mjs:95-183 | an import run, broken off anywhere, keeps the invariant and every task as it was |
| CalendarSync.PushedEvents | bin/google-calendar-reconcile.mjs:134-186 | an event live after a push is as it was, or carries the tag of the action that claims it |
| CalendarSync.PushKeepsTags | bin/google-calendar-reconcile.mjs:34-40 | every tag in the target calendar sits on an event made for its owner, and a living owner claims that event |
| CalendarSync.RowsAfterPush | bin/google-calendar-reconcile.mjs:83-93 | a push leaves every row's source alone and changes a claim only by giving a task a new event |
| CalendarSync.ReconcileKeeps | bin/google-calendar-reconcile.mjs:134-186 | a push, broken off anywhere, keeps the invariant |
| CalendarSync.StepKeeps | bin/google-calendar-ingest.mjs:78-84 | imports, pushes, task edits and remote edits, in any order, all keep the invariant |
| CalendarNoEcho.HistoryKeeps | bin/google-calendar-reconcile.mjs:134-186 | the invariant holds after any history of them |
| CalendarNoEcho.NoEcho | bin/google-calendar-ingest.mjs:78-84 | after any history no imported row names an event the push made, each event has at most one imported row, and each action id tags at most one live event over all calendars |
| CalendarNoEcho.PushLeavesForeign | bin/google-calendar-reconcile.mjs:83-93 | after any history a push changes no imported row, no event without a tag and no other calendar, and leaves no new event without a tag |
| CalendarNoEcho.ImportedRowsCauseNoWrite | bin/google-calendar-reconcile.mjs:83-93 | without the imported rows in the table the same push could happen and every calendar would come out the same |
| CalendarNoEcho.PushedEventReadsBack | bin/google-calendar-reconcile.mjs:26-42 | what a push writes of any action, the import's normalisation reads back as the same title (or untitled), summary and times; without an end the effort, or an hour, gives one |
| CalendarNoEcho.FullImportPlaces | bin/google-calendar-ingest.mjs:106-182 | after a full import every importable event listed has a row that already says what importing it would write |
| CalendarNoEcho.OneCycleIsFixpoint | bin/google-calendar-ingest.mjs:106-182 | with no outside edit, after one full import and one full push a second import, of any window that shows no importable event the first did not, and a second push change neither the table nor any calendar |
| CalendarTags.ClaimedEventsCarryTheirTag | bin/google-calendar-reconcile.mjs:34-40 | over any history in which no edit changes a task's source, a live event a task claims carries exactly the task's tag |
| CalendarTags.SourceEditLeavesTagStale | bin/google-calendar-reconcile.mjs:175-185 | after an edit of the source alone the push keeps the event as it is, with its old tag |
| VerificationDriver.Process.HandleSas | liferadar-matrix/src/main.rs:2623-2695 | each emoji-stage state is reported and ends or continues the stage as the machine says |
| VerificationDriver.Process.WaitForSas | liferadar-matrix/src/main.rs:2611-2827 | the loop over commands and states, from the state found at its start, reports and exits as the machine does |
| VerificationDriver.Process.HandleRequest | liferadar-matrix/src/main.rs:2533-2605 | each request state is reported and leads on, to emoji verification or to an exit as the machine says |
| VerificationDriver.Process.WaitForRequest | liferadar-matrix/src/main.rs:2428-2609 | the request loop, handing over to emoji verification, reports and exits as the machine does |
| VerificationDriver.Process.RunInteractive | liferadar-matrix/src/main.rs:2285-2426 | the whole process, preparation included, reports and exits as the machine does |
| VerificationMonitor.VerificationAttempt.ApplyEvent | api/matrix_bridge.py:101-140 | one event changes the attempt's fields as the specification says |
| VerificationMonitor.VerificationAttempt.Monitor | api/matrix_bridge.py:143-187 | reading all lines and the exit code leaves the attempt as the fold says |
| VerificationMonitor.VerificationAttempt.SendDecision | api/matrix_bridge.py:232-246 | a decision is written only while the attempt is open and the process runs, and then it is one the process understands |
| VerificationAgreement.EveryRunSound | liferadar-matrix/src/main.rs:2428-2827 | in every run each confirmation or mismatch answers its own showing of the emoji with no decision between, the request stage decides nothing, and completion is reported once, last, exactly on success |
| VerificationAgreement.JudgesOnCommand | liferadar-matrix/src/main.rs:2704-2744 | a step confirms exactly on the user's confirm while shown emoji wait for it, and likewise rejects |
| VerificationAgreement.MonitorAgrees | api/matrix_bridge.py:166-187 | over every interleaving, once the monitor finishes the attempt is done; its status is "done" exactly when the process exits 0, exactly when the last event is verification_complete, exactly when it holds no error |
| VerificationAgreement.DoneNeverReverts | api/matrix_bridge.py:121-140 | whatever a process writes, a finished attempt stays finished |
| VerificationAgreement.CancelledMayStillFinish | liferadar-matrix/src/main.rs:2514-2527 | an example: the process succeeds although the user cancelled the request |
| VerificationPrompt.AskedAfterPrompt | api/matrix_bridge.py:125-127 | the attempt asks for a comparison only right after emoji_ready, and shows that event's emoji and numbers |
| VerificationPrompt.RunAsks | liferadar-matrix/src/main.rs:2645-2666 | while the last event reported is emoji_ready the process waits for a decision or has exited |
| VerificationPrompt.AskedOnlyWhenAwaited | liferadar-matrix/src/main.rs:2698-2725 | whenever an up-to-date attempt asks the user, the process waits for the answer, so that a confirmation that reaches it is acted on |
| VerificationCancel.FinishedIfCancelled | api/matrix_bridge.py:135-138 | while the process runs the attempt is finished exactly if a cancel was reported; then its error says so and its status is not "done" |
| VerificationCancel.FeedSucceeds | liferadar-matrix/src/main.rs:2528-2606 | a run succeeds if and only if, still running, it hears a Done state from the stage then listening |
| VerificationCancel.CancelledFinishesIf | api/matrix_bridge.py:130-138 | a run that reported a local cancel ends "done" with no error if and only if some later input is such a Done; before it the record is finished and says cancelled, and otherwise it keeps an error |
| VerificationCancel.AskedAndAnswered | api/matrix_bridge.py:232-246 | while an up-to-date attempt asks and the process runs, a decision made through the bridge is carried out by the process if and only if no cancel was reported before |
| VerificationCancel.AsksInVain | api/matrix_bridge.py:232-234 | a run in which the attempt asks, the process waits, and the bridge refuses every answer |
| VerificationReports.ExchangeIsShown | liferadar-matrix/src/main.rs:2773-2795 | keys exchanged are reported at once as emoji_ready with all their emoji and numbers, and then wait for the user |
| VerificationReports.AsksAboutLastExchange | liferadar-matrix/src/main.rs:2645-2666 | in every run, while an up-to-date attempt asks the user, the emoji and numbers it shows are those of the last exchange the process heard of |
| VerificationReports.CancelTellsWhy | api/matrix_bridge.py:135-138 | if the other side calls the verification off, at any stage, the attempt ends cancelled with the reason given as error and detail |
| VerificationReports.FailureTellsWhy | api/matrix_bridge.py:176-180 | a process that fails without a cancel leaves a failed attempt, with at most 600 characters of its error output as error and detail |
| VerificationReports.QuietSuccess | api/matrix_bridge.py:181-184 | an exit with code 0 and no word on the end leaves the attempt done |
| VerificationReports.CompletionApplied | api/matrix_bridge.py:130-134 | a completion leaves the attempt done without an error, in the words of its status |
| VerificationReports.StatusFollows | api/matrix_bridge.py:121-140 | end to end: after every state heard and every command carried out the up-to-date status is the one for it |
| VerificationReports.WordsFollow | api/matrix_bridge.py:104-134 | and the words shown name who took up the request, ask for the comparison, or say how it ended |
| VerificationReports.PreparedSays | liferadar-matrix/src/main.rs:2340-2400 | once prepared, the attempt says where the request went or that the device was verified already |
| VerificationReports.PreparationEnds | liferadar-matrix/src/main.rs:2285-2400 | the preparation succeeds exactly on a verified device, leads to a request exactly if one could be made, and any failed call ends the process |
| VerificationReports.AttemptNamesFlow | api/matrix_bridge.py:112-113 | once a request is made an up-to-date attempt names its flow, whatever happens next |
| VerificationReports.CommandsDo | liferadar-matrix/src/main.rs:2514-2527 | which SDK call each command makes at each stage, and that a failed one ends the process unreported |
| VerificationReports.AcceptedStarts | liferadar-matrix/src/main.rs:2557-2584 | an accepted request is reported and starts emoji verification; if that fails the process exits, and if there is none it waits on |
| VerificationReports.OtherwiseReports | liferadar-matrix/src/main.rs:2533-2605 | no other state makes the process do anything but report |
| VerificationReports.ListensTo | liferadar-matrix/src/main.rs:2528-2532 | each stage listens only to its own stream of states, and the end of that stream ends the process |
| VerificationReports.BeforeAnyEvent | api/matrix_bridge.py:151-164 | until the first event is read the attempt is starting, and shows nothing |
| VerificationReports.LatestIsLast | api/matrix_bridge.py:102-109 | the latest event is the last one read |
| VerificationReports.LogIsNewest | api/matrix_bridge.py:164-175 | the log is the newest eighty of the lines that were no event, error output last |
| VerificationReports.DecisionWords | api/matrix_bridge.py:239-241 | which words the bridge sends on, and what the process takes each for |
| Telegram.Dialog.IngestPage | chat-gateway/src/providers/telegram.mjs:409-412 | a page is ingested from its oldest end, as far as writes succeed, and the newest id seen is carried along |
| Telegram.Dialog.Backfill | chat-gateway/src/providers/telegram.mjs:398-425 | against any remote side, a run stopped at any write has made exactly the first so many writes of the uninterrupted run; it ends by its remaining budget |
| TelegramProperties.MarkNeverFalls | chat-gateway/src/providers/telegram.mjs:415-422 | against any remote side the longer a run gets the higher its mark, and never below the old one |
| TelegramProperties.MarkNeverFallsOver | chat-gateway/src/providers/telegram.mjs:400-423 | over any sequence of crashed and finished runs the mark never falls |
| TelegramProperties.MatchingBelow | chat-gateway/src/providers/telegram.mjs:407-414 | asking below the oldest id read gives exactly what is left |
| TelegramProperties.WalkIsPages | chat-gateway/src/providers/telegram.mjs:405-424 | against an honest remote side the loop's writes are the ids above the mark cut into pages, each with its mark |
| TelegramProperties.CrashPoint | chat-gateway/src/providers/telegram.mjs:405-424 | at any write, what is stored is the done pages and the oldest part of the next, and the mark has moved exactly when a page is done |
| TelegramCrashes.UninterruptedIsExact | chat-gateway/src/providers/telegram.mjs:398-424 | an uninterrupted run ingests exactly the newest min(limit, n) of the n ids above the mark, each once, and ends with the mark at the newest |
| TelegramCrashes.NeverReadAgain | chat-gateway/src/providers/telegram.mjs:400-407 | ids at or below the mark are never backfilled by any later runs |
| TelegramCrashes.CrashLoss | chat-gateway/src/providers/telegram.mjs:400-423 | after a crash that moved the mark, an id it covers is ever backfilled if and only if it was ingested before; those are the done pages and the oldest part of the page in hand |
| TelegramCrashes.LossInHundreds | chat-gateway/src/providers/telegram.mjs:405-414 | what is done is a whole number of hundreds unless nothing was left, and the page in hand has a hundred ids or what was left to read |
| TelegramCrashes.EarlyCrashLosesNothing | chat-gateway/src/providers/telegram.mjs:415-422 | a crash before the first mark loses nothing |
| WhatsAppHistory.Connector.SelectNew | chat-gateway/src/providers/whatsapp.mjs:272-278 | the messages picked are those beyond their chat's cursor, in order |
| WhatsAppHistory.Connector.HandleHistory | chat-gateway/src/providers/whatsapp.mjs:264-303 | a batch stopped at any write keeps the cursors; one handled to the end advances them; what was ingested is a prefix of what was picked |
| WhatsAppHistory.WritesDecide | chat-gateway/src/providers/whatsapp.mjs:280-299 | a batch moves the cursors exactly if its chats, its new messages and the cursors themselves could all be written, in that order |
| WhatsAppHistory.CursorIsHighest | chat-gateway/src/providers/whatsapp.mjs:289-299 | a chat's cursor is the greatest timestamp over all batches handled to the end, or 0 |
| WhatsAppHistory.NoCursorWithoutChat | chat-gateway/src/providers/whatsapp.mjs:289-295 | no cursor is kept for messages without a chat |
| WhatsAppHistory.TakesOnlyNewer | chat-gateway/src/providers/whatsapp.mjs:273-278 | a batch takes up a message if and only if its timestamp is positive and exceeds all accepted before for its chat, and cursors never fall |
| WhatsAppHistory.ReplayIngestsNothing | chat-gateway/src/providers/whatsapp.mjs:269-278 | a batch once handled to the end ingests nothing when it comes again, whatever came between |
| Upserts.GatewayDb.UpsertConversation | chat-gateway/src/db.mjs:90-105 | inserts or merges one conversation, answers its id and touches nothing else |
| Upserts.GatewayDb.UpsertMessage | chat-gateway/src/db.mjs:106-122 | inserts or merges one message and touches nothing else |
| Upserts.GatewayDb.Ingest | chat-gateway/src/db.mjs:163-171 | a delivery upserts its conversation and then its message under the conversation's id |
| Upserts.ConversationsMergeWell | chat-gateway/src/db.mjs:94-100 | merging conversation rows is associative and idempotent |
| Upserts.MessagesMergeWell | chat-gateway/src/db.mjs:110-119 | merging message rows is associative and idempotent |
| Upserts.RowIsSum | chat-gateway/src/db.mjs:90-122 | a row is what it was, merged with the sum of its deliveries |
| Upserts.ReplayAbsorbed | chat-gateway/src/db.mjs:90-122 | delivering any sequence a second time changes nothing |
| Upserts.IngestTwiceIsOnce | chat-gateway/src/db.mjs:163-173 | ingesting any sequence of deliveries twice, conversations, messages and their links, equals ingesting it once |
| Upserts.LastEventIsLatest | chat-gateway/src/db.mjs:98 | last_event_at is the greatest time delivered for the conversation, nulls passed over |
| Upserts.LastEventAnyOrder | chat-gateway/src/db.mjs:98 | and it is the same for any order of the same deliveries |
| UpsertFields.ConversationHoldsLast | chat-gateway/src/db.mjs:94-99 | over any deliveries a conversation ends up with the account, title and participants that were said last and the last value of each metadata key; where none was said, with what was stored |
| UpsertFields.LastEventNeverFalls | chat-gateway/src/db.mjs:98 | and with the greatest time stored or delivered |
| UpsertFields.MessageHoldsLast | chat-gateway/src/db.mjs:111-115 | a message ends up with the sender, label and text said last |
| UpsertFields.MessageObjectsHoldLast | chat-gateway/src/db.mjs:116-118 | and with the last value of each key of its content and provenance |
| UpsertFields.MessageIsTimedLast | chat-gateway/src/db.mjs:114-117 | its time and side are those of its last delivery |
| UpsertFields.MessageHangsOnLast | chat-gateway/src/db.mjs:111 | it hangs on the conversation its last delivery named |
| UpsertFields.IdGivenOnce | chat-gateway/src/db.mjs:90-104 | a conversation's id is given by the first delivery that needs one, and kept |
| UpsertFields.RowsAreDelivered | chat-gateway/src/db.mjs:90-122 | a row is there exactly if it was, or was delivered |
| SignalConnector.Connector.ScheduleReconnect | chat-gateway/src/providers/signal.mjs:201-220 | arms one timer unless stopped or one is armed, and counts the attempt |
| SignalConnector.Connector.StopLive | chat-gateway/src/providers/signal.mjs:179-188 | gives up the stream held and marks it closed |
| SignalConnector.Connector.HandleDisconnect | chat-gateway/src/providers/signal.mjs:190-199 | gives up the stream held and schedules a reconnect unless stopped |
| SignalConnector.Connector.ConnectLive | chat-gateway/src/providers/signal.mjs:170-177 | keeps a stream already held, or opens and holds a new one |
| SignalConnector.Connector.Happen | chat-gateway/src/providers/signal.mjs:125-220 | every piece of code between two waits does what the transition says |
| SignalConnector.OneStreamOneTimer | chat-gateway/src/providers/signal.mjs:155-220 | over every interleaving at most one stream is live, it is the one held, and at most one timer is armed |
| SignalConnector.OnlyUnclosedDisconnects | chat-gateway/src/signal-client.mjs:120-134 | when a socket ends the connector disconnects if and only if it had not closed that stream, and the stream given up is the one that ended |
| SignalConnector.ClosedForGood | chat-gateway/src/signal-client.mjs:128-131 | a stream once closed stays closed |
| SignalConnector.DelayBounds | chat-gateway/src/providers/signal.mjs:203-205 | a delay lies between 1 and round(1.5 * reconnectMaxMs) |
| SignalConnector.BackoffRises | chat-gateway/src/providers/signal.mjs:201-219 | in every run delays keep their bounds and the ceiling never falls between successful timer reconnects |
| SignalConnector.BackoffDoubles | chat-gateway/src/providers/signal.mjs:201-219 | in every run the ceiling is the base after each successful timer reconnect, then doubles up to the maximum, sixteen times at most; each delay lies between half and one and a half times its ceiling |
| SignalConnector.DelayIsDrawn | chat-gateway/src/providers/signal.mjs:205 | a delay is half its ceiling and the drawn share of it, to the nearest millisecond |
| SignalConnector.StreamAfterLogout | chat-gateway/src/providers/signal.mjs:206-212 | an example: a timer that fired before a logout opens a stream after it |
| SignalConnector.AttachedWhenLive | chat-gateway/src/signal-client.mjs:95-103 | a connection attempt leaves a live stream if and only if there was one, or none was held and the socket could be made |
| SignalLifecycle.LoggedOutStays | chat-gateway/src/providers/signal.mjs:201-208 | once logged out with no call on its way to a connection, no stream comes up under any continuation without a start or pairing |
| SignalLifecycle.LogoutIsFinal | chat-gateway/src/providers/signal.mjs:365-374 | from any state of a run, no continuation of a logout without a new start or pairing ever has a live stream if and only if no start, pairing or fired timer was pending that may still connect |
| SignalLifecycle.HoldsDeadStays | chat-gateway/src/providers/signal.mjs:170-177 | a dead stream held stays held over any history without a logout |
| SignalLifecycle.SocketFailureIsFinal | chat-gateway/src/signal-client.mjs:95-103 | when a new stream's socket cannot be made, that stream is held for good if and only if nobody logs out; until then no stream is live, and no timer comes up if none was pending |
| SignalLifecycle.WhoseStream | chat-gateway/src/providers/signal.mjs:125-177 | a stream is opened for the account of the call that opens it, a timer's for the account its session names; a timer that cannot tries again for its own |
| SignalLifecycle.WhoseTimer | chat-gateway/src/providers/signal.mjs:190-219 | a socket that ends and a call that retries arm the timer for their own account, and its call has that account when it fires |
| SignalLifecycle.AccountInUse | chat-gateway/src/providers/signal.mjs:125-147 | the account in use is the one last paired or read by a start, and none once a logout is finished |
| SignalLifecycle.StartRevives | chat-gateway/src/providers/signal.mjs:125-147 | a start after a logout brings the stream up again, and with it the reconnect timer |
| SignalLifecycle.ReconnectResets | chat-gateway/src/providers/signal.mjs:206-219 | a timer that reconnects resets the count, so that the next ceiling is the base |
| SignalLifecycle.PairingOpens | chat-gateway/src/providers/signal.mjs:312-328 | a pairing opens a stream for the account paired |
| SignalLifecycle.CallsAccounted | chat-gateway/src/providers/signal.mjs:125-220 | the number of calls in hand grows with each start, pairing, logout and timer that fires unless stopped, and falls exactly when a call is over |
| Triage.Script.FindNewest | bin/derive-needs-state.sh:18-33 | finds the newest counting message by time, then id |
| Triage.Script.UpdateConversations | bin/derive-needs-state.sh:180-209 | every watched conversation gets the derived needs and no other row changes |
| Triage.Script.ClearMessages | bin/derive-needs-state.sh:211-216 | clears the flags of messages from watched sources |
| Triage.Script.ProjectFlags | bin/derive-needs-state.sh:218-234 | the newest message of each watched conversation gets that conversation's flags |
| Triage.Script.Run | bin/derive-needs-state.sh:18-234 | the three updates in order leave both tables as the specification says |
| TriageProperties.NewestIsNewest | bin/derive-needs-state.sh:18-33 | the row picked is the one that counts and is later than every other that does |
| TriageProperties.LastAtIsLast | bin/derive-needs-state.sh:34-51 | the two max aggregates are attained and bound every message they range over |
| TriageProperties.ReplyExcludesWaiting | bin/derive-needs-state.sh:101-121 | for every history a conversation never both needs a reply and waits for one |
| TriageProperties.WaitingMeansSentLast | bin/derive-needs-state.sh:118-121 | it waits exactly when its newest message was sent and is later than all received |
| TriageProperties.ActingNeedsReading | bin/derive-needs-state.sh:93-160 | important_now and follow_up_later each imply needs_read |
| TriageProperties.ScoreSeparates | bin/derive-needs-state.sh:163-179 | priority lies in [0, 1]; ready_to_act scores at least 0.72 and all others at most 0.6525; needs_reply or important_now scores exactly 1 |
| TriageRules.NeedsReplyWhen | bin/derive-needs-state.sh:101-117 | read off the tables: a conversation needs a reply if and only if its newest message came in, is readable and nothing was sent since; on Matrix not from a bot and among at most 6, by mail from a person and among at most 12 |
| TriageRules.NeedsReadWhen | bin/derive-needs-state.sh:93-100 | it needs reading if and only if its newest message came in and, if mail, is unread |
| TriageRules.WaitsWhen | bin/derive-needs-state.sh:118-126 | when it waits for the other side, and when it lacks context |
| TriageRules.ImportantWhen | bin/derive-needs-state.sh:127-142 | it is important now if and only if its newest message came in, has text, is at most two days old or speaks of soon, and passes the rule of its source |
| TriageRules.FollowUpWhen | bin/derive-needs-state.sh:143-160 | it is to be followed up if and only if its newest message came in, is readable, over 18 hours and at most 14 days old, and passes the rule of its source |
| TriageRules.UrgencyWhen | bin/derive-needs-state.sh:75-92 | urgency is set by the first pattern that applies, social weight by source and number of people |
| TriageRules.PriorityWhen | bin/derive-needs-state.sh:163-188 | the priority of any watched conversation from its flags and scores; being due for a follow-up adds nothing to it |
| TriageRules.NothingThere | bin/derive-needs-state.sh:52-72 | a watched conversation with nothing in it has no flags, and rows of other sources are left as they are |
| TriageRules.FlagsFollow | bin/derive-needs-state.sh:211-234 | the newest message carries what was derived, and no other of a watched source carries anything |
| TriageProperties.FlagsAfter | bin/derive-needs-state.sh:211-234 | the newest message carries its conversation's flags; any other has none if and only if its own source is cleared or it had none |
| TriageProperties.OneCarrier | bin/derive-needs-state.sh:218-234 | a watched conversation has exactly one carrying message when it has any that is not removed |
| TriageProperties.RerunChangesNothing | bin/derive-needs-state.sh:18-234 | a second run at the same instant changes nothing |
| RoomSearch.LookupRoom | liferadar-matrix/src/main.rs:3058-3088 | asks for targets and event types in order and stops at the first answer |
| RoomSearch.TargetsAreBridges | liferadar-matrix/src/main.rs:1402-1440 | a room's targets are exactly its keyed bridge events of either type, with their protocol, channel and name |
| RoomSearch.AskRoomAnswers | liferadar-matrix/src/main.rs:1442-1448 | a room is found exactly when it holds a bridge event that matches a target, and an error means a request failed |
| RoomSearch.AskTargetIs | liferadar-matrix/src/main.rs:3064-3085 | a target is settled by its first bridge event, found or failed, before the second is asked for |
| RoomSearch.FirstTargetSettles | liferadar-matrix/src/main.rs:3058-3088 | a room is settled by its first target that is, whatever comes after |
| RoomSearch.LookupJoinedRooms | liferadar-matrix/src/main.rs:2997-3056 | with lookups finishing in any order, at most 32 are in flight, each room that is not stale is started at most once, and the answer is one lookup's or that all found nothing |
| RoomSearch.ResolveReplacementRoom | liferadar-matrix/src/main.rs:2924-2995 | a room found is joined, not stale and matches a target of that name; with no failures one is found if and only if a plain scan of all rooms and targets would find one |

## Left out

- IngestRuns.MultiRunCompleteness: assumes writes succeed, because the source writes the checkpoint before the events and drops write errors, so a lost event write is never retried.
- Timestamps above the signed 64-bit range: the source's cast wraps negative; the model renders any such value as the epoch.
- Rooms' titles, participants, provenance and provider hints: carried through or left out; they take no part in cutoffs or rows.
- One event id delivered in two rooms: the source keys rows by source and event id over all rooms; the model keeps one table per room.
- The order of fetched planned actions: any order is allowed, since the results proved do not depend on it.
- Bookkeeping rows beside the calendar jobs (external_projections, runtime metadata) and the tokens they acquire.
- POST /calendar/events (api/main.py:1884-1930) also writes calendar rows, under an external id and provider its caller chooses; with it two rows may claim one event, and no calendar result here covers such rows.
- The heal schedule's fairness holds for any damage counts; HealDamage ties the counts to the stored rows after a successful heal, not over the whole series.
- Failing calendar requests other than "not found": such an error ends the run, which the model covers as a run broken off between turns.
- CalendarNoEcho.OneCycleIsFixpoint: an event the second import lists and the first did not, because the window moved with the clock or the first listing was cut at 250, may of course add a row; nothing is said of it.
- Organizer, attendees and other import metadata are one opaque map; JSON null is written as the text "null".
- The verification process's failing writes to its own output, being killed, and panics; the periodic sync task beside it.
- JSON lines on the process's output that are not objects.
- The attempt's clock fields, and the registry of attempts.
- TelegramCrashes.CrashLoss: speaks of backfill; the live update handler may store a lost id on its own.
- Telegram's blocked dialogs and service messages: the first are skipped whole, the second are counted as handed over.
- WhatsApp messages with the same timestamp as the cursor are skipped, as in the source; timestamps that are not numbers.
- The WhatsApp connection machine: Signal's is the harder model.
- Upserts on JSON values that are not objects, and the repair and purge queries.
- Signal pairing before an account is known, event classification and message ingestion.
- SignalConnector.OneStreamOneTimer: models the built-in client, which opens a stream without waiting; an injected client that waits is not covered.
- The copies of its results that the triage script puts in a conversation's metadata, and its counts per source.
- Device and user ids in the verification events.
- Triage's regular expressions: each match is an arbitrary boolean per message; scores are integers in ten-thousandths.
- A lookup task of the room search that panics.
- The HTTP twin of the history walk, mail sync, memory extraction, web routes, login pages and deployment: easier versions of the same ideas, or plumbing.
