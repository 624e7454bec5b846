# Papan Ajaib — a verified model of the task board's client rules

Papan Ajaib is an Android task board for a family. A parent creates a
family, receives a six-character code and posts small tasks (a text and an
optional emoji icon). A child joins with the code, sees the tasks and marks
them done. Everything is stored in a realtime database under
`families/{id}`.

This project models the deterministic rules on the client, one Dafny module
per source file:

- `Messages` (`data/Message.kt`): the task record, its display text, and
  the count of completed tasks.
- `ParentActivity` (`ParentActivity.kt`): the parent screen. It rebuilds its
  list from each snapshot, keeping only tasks with a text and a family id,
  sorted newest first, with statistics. It validates new tasks and creates
  them behind an in-flight flag.
- `ParentCleanup` (`ParentActivity.kt`): the start-up repair pass that moves
  the legacy `completed` field into `isCompleted`.
- `ChildActivity` (`ChildActivity.kt`): the child screen. It lists every
  task, incomplete ones first, and shows progress and an all-done view. A
  toggle is guarded by one global flag and rolled back on failure.
- `ChildAdapter` (`adapter/ChildMessageAdapter.kt`): the list the child
  screen shares with its adapter, the item comparisons used for the diff,
  and the complete button of each row.
- `FamilyManager` (`utils/FamilyManager.kt`): the configuration store. It
  has a current and a backup preference file, the family-id rules and the
  health check.
- `SetupActivity` (`SetupActivity.kt`): creating and joining a family, the
  replace-configuration dialog, and the decisions on the family record read.
- `MainActivity` (`MainActivity.kt`): the start decision, the family status
  shown with the mode buttons, and what `onResume` writes.

Helper modules:

- `Wrappers`: `Option`.
- `Text`: `trim`, `uppercase` and `isLetterOrDigit`.
- `Ordering`: the stable sort behind `sortByDescending` and `sortWith`.
- `Remote`: the family record and the requests sent to the database.

How the outside world enters the model:

- The clock is a parameter `now`.
- `CHARSET.random()` is a sequence of picks.
- Every database or notification write is appended, as a `Request` value,
  to the `requests` log of the screen that issues it.
- A database callback is a call to the screen method that handles it.
- A message snapshot is a sequence of parsed records, where `None` stands
  for a child the framework could not map.

## Model

| member | source | states |
|---|---|---|
| Messages.DefaultMessage | app/src/main/java/com/example/papanajaib/data/Message.kt:3-10 | a default record has empty id, text, icon and family id, is not completed, and is stamped with the creation time |
| Messages.WithCompleted | app/src/main/java/com/example/papanajaib/data/Message.kt:4-9 | changing `isCompleted`, the only mutable field, leaves id, text, icon, timestamp and family id as they were; setting the current value changes nothing |
| Messages.DisplayText | app/src/main/java/com/example/papanajaib/data/Message.kt:12-14 | with an icon the display text is the icon, one space, then the text; without an icon it is the text unchanged |
| Messages.CountCompleted | app/src/main/java/com/example/papanajaib/ParentActivity.kt:478 | the count of completed tasks is at most the list length; it equals the length iff every task is completed, and is 0 iff none is |
| Messages.CountCompletedMultiset | app/src/main/java/com/example/papanajaib/ParentActivity.kt:468-478 | two lists holding the same tasks (in any order) have the same completed count |
| Ordering.Insert | app/src/main/java/com/example/papanajaib/ParentActivity.kt:468 | inserting into a sorted list keeps it sorted and adds exactly that task |
| Ordering.SortBy | app/src/main/java/com/example/papanajaib/ParentActivity.kt:468 | the result is sorted by the order and is a permutation of the input |
| Ordering.SortByStable | app/src/main/java/com/example/papanajaib/ChildActivity.kt:162 | the sort is stable: tasks that tie under the order keep their relative input order |
| Ordering.NewestSortedMeans | app/src/main/java/com/example/papanajaib/ParentActivity.kt:468 | sorted newest first means the timestamps never increase along the list |
| Ordering.IncompleteFirstSortedMeans | app/src/main/java/com/example/papanajaib/ChildActivity.kt:162 | sorted for the child means every incomplete task comes before every completed one, and timestamps never increase within each group |
| Ordering.SortBySortedIdentity | app/src/main/java/com/example/papanajaib/ChildActivity.kt:162 | sorting an already sorted list returns it unchanged |
| ParentActivity.ValidateInputs | app/src/main/java/com/example/papanajaib/ParentActivity.kt:288-305 | rejects an empty text first, then a text over 100 characters, then an icon over 2; accepts exactly the rest |
| ParentActivity.CreateButtonEnabledImpliesAccepted | app/src/main/java/com/example/papanajaib/ParentActivity.kt:183-193 | whenever the create button is enabled, no create is in flight and the trimmed inputs pass validation |
| ParentActivity.NewTask | app/src/main/java/com/example/papanajaib/ParentActivity.kt:268-275 | a created task has the pushed key as id, the validated text and icon, the screen's family id, is not completed, and is stamped now |
| ParentActivity.VisibleRecords | app/src/main/java/com/example/papanajaib/ParentActivity.kt:447-465 | the rebuilt list is no longer than the snapshot and every entry has a non-empty text and family id; nothing from before survives |
| ParentActivity.VisibleRecordsCount | app/src/main/java/com/example/papanajaib/ParentActivity.kt:447-465 | each record appears in the list exactly as many times as the snapshot holds it when it has a text and a family id, and not at all otherwise |
| ParentActivity.ComputeStatistics | app/src/main/java/com/example/papanajaib/ParentActivity.kt:478-481 | total is the list size, completed the completed count, completed + pending = total, and pending is 0 iff all are done |
| ParentActivity.StatisticsIgnoreOrder | app/src/main/java/com/example/papanajaib/ParentActivity.kt:468-481 | the statistics of the sorted list equal those of the filtered records |
| ParentActivity.CreatedTaskIsListed | app/src/main/java/com/example/papanajaib/ParentActivity.kt:268-275 | a task created from accepted inputs, once it is in a snapshot, appears in the parent's list |
| ParentActivity.ParentScreen.OnDataChange | app/src/main/java/com/example/papanajaib/ParentActivity.kt:442-481 | the list becomes the visible records of the snapshot sorted newest first, and the statistics are those of that list |
| ParentActivity.ParentScreen.CreateMessage | app/src/main/java/com/example/papanajaib/ParentActivity.kt:243-286 | rejected inputs change nothing; accepted inputs raise the flag; with a key exactly one write of the new task is issued; without a key the flag stays up with nothing pending |
| ParentActivity.ParentScreen.CreateMessageReleasing | app/src/main/java/com/example/papanajaib/ParentActivity.kt:243-286 | as above, but the flag is up afterwards only when a write is pending, so the flag-iff-pending invariant is kept |
| ParentActivity.ParentScreen.OnCreateClick | app/src/main/java/com/example/papanajaib/ParentActivity.kt:232-236 | the click as written: while a create is in flight nothing changes; otherwise the flag ends up iff the inputs are accepted, a write of the new task is issued iff there is also a push key, and without one nothing is written and the flag stays up |
| ParentActivity.ParentScreen.OnCreateClickReleasing | app/src/main/java/com/example/papanajaib/ParentActivity.kt:232-236 | the click over the corrected create: the flag ends up iff a write of the new task was issued, so the flag-iff-pending invariant is kept |
| ParentActivity.ParentScreen.OnCreateSuccess | app/src/main/java/com/example/papanajaib/ParentActivity.kt:307-318 | the flag is released and one new-task notification with the task's text and icon is sent |
| ParentActivity.ParentScreen.OnCreateFailure | app/src/main/java/com/example/papanajaib/ParentActivity.kt:320-326 | the flag is released and nothing else changes |
| ParentActivity.ParentScreen.DeleteMessage | app/src/main/java/com/example/papanajaib/ParentActivity.kt:368-380 | exactly one removal of that task is issued |
| ParentActivity.ParentScreen.ShowResetAllConfirmation | app/src/main/java/com/example/papanajaib/ParentActivity.kt:382-396 | the confirmation is asked iff the list is not empty |
| ParentActivity.ParentScreen.ResetAllMessages | app/src/main/java/com/example/papanajaib/ParentActivity.kt:398-401 | exactly one removal of the screen's family's message collection is issued |
| ParentActivity.MissingPushKeyLocksCreation | app/src/main/java/com/example/papanajaib/ParentActivity.kt:252-261 | after a create with no push key, the flag is up with nothing pending, and a later valid click is ignored |
| ParentCleanup.ResolvedCompletion | app/src/main/java/com/example/papanajaib/ParentActivity.kt:525-533 | the value moved is `isCompleted` when that field exists, else `completed`; an absent value reads as false |
| ParentCleanup.RecordRepair | app/src/main/java/com/example/papanajaib/ParentActivity.kt:524-557 | a record with `completed` gets one update first; a record lacking `isCompleted` gets a set-false last; every write targets that record |
| ParentCleanup.RecordRepairEffect | app/src/main/java/com/example/papanajaib/ParentActivity.kt:524-557 | after the as-written writes a record never holds `completed`; `isCompleted` is false when it was absent and the resolved value otherwise, so the resolved value survives iff the record is not a legacy-only completed one |
| ParentCleanup.RepairPlan | app/src/main/java/com/example/papanajaib/ParentActivity.kt:520-557 | the pass issues at most two writes per record |
| ParentCleanup.RepairPlanTargetsSnapshot | app/src/main/java/com/example/papanajaib/ParentActivity.kt:520-521 | every write of the pass addresses a record of the pre-read snapshot |
| ParentCleanup.ApplyWrites | app/src/main/java/com/example/papanajaib/ParentActivity.kt:536-555 | the repair writes never change a record's key, text, icon, timestamp or family id |
| ParentCleanup.CleanupFirebaseData | app/src/main/java/com/example/papanajaib/ParentActivity.kt:513-565 | the loop issues exactly the plan's writes, in order, and `cleanupCount` equals the number of writes issued |
| ParentCleanup.LegacyOnlyRecordEndsFalse | app/src/main/java/com/example/papanajaib/ParentActivity.kt:536-556 | a record with `completed = true` and no `isCompleted` receives two writes and ends with `isCompleted = false`, not its resolved value |
| ParentCleanup.RecordRepairCorrected | app/src/main/java/com/example/papanajaib/ParentActivity.kt:524-557 | the intended plan issues at most one write per record, and none exactly for records already in canonical form |
| ParentCleanup.RecordRepairCorrectedCanonical | app/src/main/java/com/example/papanajaib/ParentActivity.kt:529-541 | under the intended plan a record ends with `isCompleted` holding its resolved value and without `completed`, other fields untouched |
| ParentCleanup.RecordRepairCorrectedIdempotent | app/src/main/java/com/example/papanajaib/ParentActivity.kt:513-557 | running the intended plan on a repaired record issues no writes |
| ChildAdapter.MessageList.AddAll | app/src/main/java/com/example/papanajaib/adapter/ChildMessageAdapter.kt:140 | `addAll` appends the new messages in order |
| ChildAdapter.ChildMessageAdapter.UpdateMessages | app/src/main/java/com/example/papanajaib/adapter/ChildMessageAdapter.kt:135-142 | afterwards the shared list equals the new messages, element for element and in order |
| ChildAdapter.IdenticalListsAllSame | app/src/main/java/com/example/papanajaib/adapter/ChildMessageAdapter.kt:153-163 | comparing a list with itself reports every position as the same item with the same contents |
| ChildAdapter.ContentsIgnoreTimestampAndFamily | app/src/main/java/com/example/papanajaib/adapter/ChildMessageAdapter.kt:157-163 | the content comparison ignores timestamp and family id, and equal contents give equal display text |
| ChildAdapter.ToggleChangesContents | app/src/main/java/com/example/papanajaib/adapter/ChildMessageAdapter.kt:153-163 | a completion change keeps the item identity and changes the contents exactly when the value differs |
| ChildAdapter.MessageViewHolder.Bind | app/src/main/java/com/example/papanajaib/adapter/ChildMessageAdapter.kt:38-105 | the complete button is enabled exactly when the bound task is not completed |
| ChildAdapter.MessageViewHolder.Click | app/src/main/java/com/example/papanajaib/adapter/ChildMessageAdapter.kt:45-51 | a click on a disabled button does nothing; an enabled click disables the button and starts one press for the bound task |
| ChildAdapter.MessageViewHolder.PressAnimationEnd | app/src/main/java/com/example/papanajaib/adapter/ChildMessageAdapter.kt:109-131 | at the end of a press the button is re-enabled iff that task is not completed, and the callback receives that task exactly once |
| ChildAdapter.DoubleTapCallsBackOnce | app/src/main/java/com/example/papanajaib/adapter/ChildMessageAdapter.kt:45-56 | two taps on a freshly bound row give one callback for an open task and none for a completed one |
| ChildActivity.ParsedRecords | app/src/main/java/com/example/papanajaib/ChildActivity.kt:152-159 | the list is no longer than the snapshot and as long as it exactly when every child was parsed |
| ChildActivity.ParsedRecordsCount | app/src/main/java/com/example/papanajaib/ChildActivity.kt:152-159 | every parsed record is kept, as many times as the snapshot holds it; no field is filtered |
| ChildActivity.ChildListAfterSnapshot | app/src/main/java/com/example/papanajaib/ChildActivity.kt:152-165 | the child's list holds every parsed record, all incomplete tasks before all completed ones, newest first within each group |
| ChildActivity.PercentBounds | app/src/main/java/com/example/papanajaib/ChildActivity.kt:198 | for `0 <= c <= t` and `t > 0`, `c * 100 / t` lies in 0..100 and is 100 iff `c = t` |
| ChildActivity.Progress | app/src/main/java/com/example/papanajaib/ChildActivity.kt:195-198 | progress is `completed * 100 / total` for a non-empty list and 0 for an empty one; it lies in 0..100 and is 100 iff the list is non-empty and every task is done |
| ChildActivity.CompletingRaisesProgress | app/src/main/java/com/example/papanajaib/ChildActivity.kt:195-198 | completing an open task raises the completed count by one and never lowers the progress |
| ChildActivity.UpdateUI | app/src/main/java/com/example/papanajaib/ChildActivity.kt:185-217 | an empty list shows only the empty state; otherwise the board shows the list's completed count and its progress, and the all-done view opens iff every task of the list is done |
| ChildActivity.IndexOfId | app/src/main/java/com/example/papanajaib/ChildActivity.kt:127 | the result is -1 iff no entry has the id; otherwise it is the first position holding it |
| ChildActivity.Rollback | app/src/main/java/com/example/papanajaib/ChildActivity.kt:127-132 | only the first entry with the toggled id changes, and only its completion, which gets back its pre-toggle value; the length and all other entries stay |
| ChildActivity.RollbackOfUnchangedListIsIdentity | app/src/main/java/com/example/papanajaib/ChildActivity.kt:105-132 | since the list is never changed before the write succeeds, rolling back a list that still shows the task as toggled changes nothing |
| ChildActivity.ChildScreen.ToggleMessageCompletion | app/src/main/java/com/example/papanajaib/ChildActivity.kt:93-107 | while any toggle is in flight nothing changes; otherwise the flag is raised and exactly one write of the negated completion to that task is issued |
| ChildActivity.ChildScreen.OnToggleSuccess | app/src/main/java/com/example/papanajaib/ChildActivity.kt:108-122 | the flag is released; the celebration shows iff the task was just completed |
| ChildActivity.ChildScreen.OnToggleFailure | app/src/main/java/com/example/papanajaib/ChildActivity.kt:123-140 | the list is rolled back for the toggled task and the flag is released |
| ChildActivity.ChildScreen.OnDataChange | app/src/main/java/com/example/papanajaib/ChildActivity.kt:148-169 | the shared list becomes the parsed records sorted for the child (through the adapter), the adapter counts exactly the parsed records, and the view is derived from that list |
| FamilyManager.GenerateFamilyId | app/src/main/java/com/example/papanajaib/utils/FamilyManager.kt:42-46 | a generated id has six characters, each the picked character of `CHARSET` |
| FamilyManager.GeneratedIdIsValid | app/src/main/java/com/example/papanajaib/utils/FamilyManager.kt:42-46 | every generated id passes `isValidFamilyId` and is already upper case |
| FamilyManager.GeneratorReachesEveryId | app/src/main/java/com/example/papanajaib/utils/FamilyManager.kt:42-46 | every six-character word over `CHARSET` can be generated |
| FamilyManager.UpperKeepsValid | app/src/main/java/com/example/papanajaib/utils/FamilyManager.kt:55-63 | in this ASCII model, uppercasing a valid id keeps it valid, so the stored id is valid |
| FamilyManager.BackedUp | app/src/main/java/com/example/papanajaib/utils/FamilyManager.kt:80-97 | with a non-empty current id, the backup gets that id, the role, the name and the creation time (with their defaults) and the backup time; otherwise it is untouched |
| FamilyManager.Saved | app/src/main/java/com/example/papanajaib/utils/FamilyManager.kt:62-69 | a save stores the uppercased id, the role, the name or "Keluarga Kita" when empty, and `now` as creation and last-use time; other keys keep their values |
| FamilyManager.Health | app/src/main/java/com/example/papanajaib/utils/FamilyManager.kt:267-274 | the status is the first failing check in the order not configured, invalid id, missing name, missing metadata, inactive for over 7 days; healthy otherwise |
| FamilyManager.FamilyStore.FamilyName | app/src/main/java/com/example/papanajaib/utils/FamilyManager.kt:117-120 | the stored name, or "Keluarga Kita" when none is stored; never empty in a consistent store |
| FamilyManager.FamilyStore.BackupFamilyInfo | app/src/main/java/com/example/papanajaib/utils/FamilyManager.kt:145-167 | backup info exists iff a non-empty backup id is stored, and carries the backed-up fields with their defaults |
| FamilyManager.FamilyStore.BackupCurrentConfig | app/src/main/java/com/example/papanajaib/utils/FamilyManager.kt:80-97 | the backup file becomes `BackedUp` of the current file; the current file is unchanged |
| FamilyManager.FamilyStore.SaveFamilyConfig | app/src/main/java/com/example/papanajaib/utils/FamilyManager.kt:49-77 | an invalid id returns false and changes neither file; a valid one returns true, backs up first, then stores the new configuration, after which the role read back is the one saved and the name read back is the saved name or the default |
| FamilyManager.FamilyStore.GetFamilyId | app/src/main/java/com/example/papanajaib/utils/FamilyManager.kt:100-109 | returns the stored id; reading a non-empty one refreshes the last-use time and nothing else |
| FamilyManager.FamilyStore.IsFamilyConfigured | app/src/main/java/com/example/papanajaib/utils/FamilyManager.kt:123-129 | configured iff an id is stored; the read refreshes the last-use time exactly when an id is stored and changes nothing else |
| FamilyManager.FamilyStore.ClearFamilyConfig | app/src/main/java/com/example/papanajaib/utils/FamilyManager.kt:132-142 | backs up, then empties the current file, after which the role reads as child and the name as the default |
| FamilyManager.FamilyStore.RestoreFromBackup | app/src/main/java/com/example/papanajaib/utils/FamilyManager.kt:170-198 | without a backup id it returns false and changes nothing; otherwise it saves the backup (so current and backup trade places) and puts back the original creation time |
| FamilyManager.FamilyStore.ClearBackup | app/src/main/java/com/example/papanajaib/utils/FamilyManager.kt:201-204 | the backup file becomes empty |
| FamilyManager.FamilyStore.CheckFamilyHealth | app/src/main/java/com/example/papanajaib/utils/FamilyManager.kt:261-275 | the status classifies the store after the id read, which refreshes the last-use time to `now` when an id is stored and changes nothing else; so it is never inactive, and never missing name because the store only holds non-empty names; never invalid id in this ASCII model, where the store only holds valid ids |
| FamilyManager.ClearThenRestoreRoundTrip | app/src/main/java/com/example/papanajaib/utils/FamilyManager.kt:49-198 | save, clear, restore gives back the saved (uppercased) id |
| SetupActivity.NormalizeJoinCode | app/src/main/java/com/example/papanajaib/SetupActivity.kt:334 | the join code has no surrounding whitespace and no lower-case letter |
| SetupActivity.GeneratedCodeSurvivesNormalization | app/src/main/java/com/example/papanajaib/SetupActivity.kt:334-336 | a generated code typed with any surrounding whitespace normalises back to itself and is valid |
| SetupActivity.RejoinNeverAsks | app/src/main/java/com/example/papanajaib/SetupActivity.kt:341-343 | joining the family already configured never asks; creating asks whenever an id is configured |
| SetupActivity.NewFamilyRecord | app/src/main/java/com/example/papanajaib/SetupActivity.kt:293-300 | a new family record has the parent connected, the child not, status "active", and `now` as creation and last activity |
| SetupActivity.JoinDecision | app/src/main/java/com/example/papanajaib/SetupActivity.kt:364-400 | an absent family is not found; a status other than "active" (a missing one counts as active) refuses; otherwise the join uses the name or "Keluarga" |
| SetupActivity.NewFamilyIsJoinable | app/src/main/java/com/example/papanajaib/SetupActivity.kt:293-300 | a family just created is found, active, and joined under the name it was created with |
| SetupActivity.SetupScreen.OnExistingFamilyChecked | app/src/main/java/com/example/papanajaib/SetupActivity.kt:165-186 | a stored family that still exists goes on to the main screen; a missing one has its configuration cleared |
| SetupActivity.SetupScreen.CreateFamily | app/src/main/java/com/example/papanajaib/SetupActivity.kt:289-306 | one write of the new family record under the generated id, and the create is in flight |
| SetupActivity.SetupScreen.CreateOrConfirm | app/src/main/java/com/example/papanajaib/SetupActivity.kt:266-274 | once the name is accepted: a configured store opens the replace dialog and writes nothing; otherwise one write of the new family record is issued |
| SetupActivity.SetupScreen.CreateNewFamily | app/src/main/java/com/example/papanajaib/SetupActivity.kt:258-275 | an empty trimmed name sets the error and changes nothing else; a configured store opens the replace dialog; otherwise the family is created; the id read refreshes the last-use time |
| SetupActivity.SetupScreen.JoinOrConfirm | app/src/main/java/com/example/papanajaib/SetupActivity.kt:341-349 | once the code is accepted: a different configured id opens the replace dialog; otherwise the family under that code is read |
| SetupActivity.SetupScreen.JoinExistingFamily | app/src/main/java/com/example/papanajaib/SetupActivity.kt:333-350 | an invalid normalised code sets the error and does nothing else; a different configured id opens the replace dialog; otherwise the family is read |
| SetupActivity.SetupScreen.ConfirmReplace | app/src/main/java/com/example/papanajaib/SetupActivity.kt:277-284 | confirming clears the configuration (backing it up) and then runs the deferred create or join |
| SetupActivity.SetupScreen.OnCreateSuccess | app/src/main/java/com/example/papanajaib/SetupActivity.kt:307-322 | the configuration is saved as parent and the previous one is backed up; the stored id is exactly the code shown |
| SetupActivity.SetupScreen.OnJoinData | app/src/main/java/com/example/papanajaib/SetupActivity.kt:360-402 | not found and not active set an error and save nothing; otherwise `childConnected` and the last activity are written, and the configuration is saved as child under the family's name |
| SetupActivity.CreateThenJoin | app/src/main/java/com/example/papanajaib/SetupActivity.kt:258-402 | a parent creates a family and a child joins with the code shown: both devices store the same id, and the child stores the family's name |
| MainActivity.VerifyFamilyConfiguration | app/src/main/java/com/example/papanajaib/MainActivity.kt:82-100 | a missing or empty stored id redirects to setup; otherwise the screen monitors that id |
| MainActivity.TruncDiv | app/src/main/java/com/example/papanajaib/MainActivity.kt:207 | Kotlin's `Long` division, rounding toward zero, bounded on both sides for either sign of the dividend |
| MainActivity.MinutesAgo | app/src/main/java/com/example/papanajaib/MainActivity.kt:205-211 | the minutes line appears iff a last activity is recorded and at least a minute has passed; it shows the whole minutes elapsed |
| MainActivity.FamilyStatus | app/src/main/java/com/example/papanajaib/MainActivity.kt:148-232 | an absent record takes the deleted path; a non-active status the inactive path; otherwise the flags and minutes are shown and both mode buttons work iff this role is connected |
| MainActivity.NewFamilyConnectionByRole | app/src/main/java/com/example/papanajaib/MainActivity.kt:217-223 | right after creation the parent is connected and the child is not; after the child joins, the child is connected |
| MainActivity.MainScreen.OnCreate | app/src/main/java/com/example/papanajaib/MainActivity.kt:21-36 | without a stored id the screen redirects and builds no reference; otherwise it opens that family, registers one status listener and stamps its last activity; the id reads refresh the last-use time |
| MainActivity.MainScreen.MonitorFamilyStatus | app/src/main/java/com/example/papanajaib/MainActivity.kt:144-165 | with a stored id one more status listener is registered and the family's last activity is stamped; the earlier listener stays |
| MainActivity.MainScreen.Refresh | app/src/main/java/com/example/papanajaib/MainActivity.kt:341-343 | the refresh item monitors again: one more listener and one more last-activity write |
| MainActivity.MainScreen.OnDestroy | app/src/main/java/com/example/papanajaib/MainActivity.kt:409-414 | only one status listener is removed |
| MainActivity.RefreshLeavesListener | app/src/main/java/com/example/papanajaib/MainActivity.kt:341-414 | opening the home screen, refreshing once and closing it leaves one status listener registered |
| MainActivity.MainScreen.OnResume | app/src/main/java/com/example/papanajaib/MainActivity.kt:387-400 | with a stored id it writes the last activity and sets `parentConnected` for a parent, `childConnected` for a child; the id read refreshes the last-use time |
| MainActivity.MainScreen.ResetMessages | app/src/main/java/com/example/papanajaib/MainActivity.kt:296-303 | with a stored id it issues one removal of that family's messages; the id read refreshes the last-use time |
| MainActivity.MainScreen.LeaveFamily | app/src/main/java/com/example/papanajaib/MainActivity.kt:322-332 | the deleted, inactive and total-reset paths clear the configuration, backing it up first |
| Text.Trim | app/src/main/java/com/example/papanajaib/SetupActivity.kt:259 | `trim` returns no more than its input, with no whitespace at either end |
| Text.TrimKeepsMiddle | app/src/main/java/com/example/papanajaib/SetupActivity.kt:259 | what `trim` keeps is one contiguous part of the input; everything before it and after it is whitespace |
| Text.TrimEmptyIff | app/src/main/java/com/example/papanajaib/ParentActivity.kt:244 | a text trims to empty iff it is all whitespace |
| Text.TrimPadded | app/src/main/java/com/example/papanajaib/SetupActivity.kt:334 | `trim` removes exactly the whitespace around a word that has non-whitespace ends |
| Text.Upper | app/src/main/java/com/example/papanajaib/SetupActivity.kt:334 | `uppercase` maps each character through the upper-case mapping and keeps the length |

## Left out

- The realtime database, its listeners and the messaging service are not modelled; only the requests the screens send are. The one exception is the repair pass: its writes are assumed to succeed and to apply in the order they are issued, and `ParentCleanup.ApplyWrites` applies them to a record. `utils/Notification.kt` is not part of this model: a sent notification is a `NewTaskNotification` request, and the reset notification after a successful `resetAllMessages` is not recorded.
- The framework's mapping of a database child to a `Message` (field names, type conversion) is outside the model; a snapshot is given as parsed records. A non-boolean `completed` or `isCompleted` value, which makes the framework throw, is not modelled either: those fields are absent or boolean.
- Callback ordering across devices, handlers and delayed posts are left out. Listeners are counted, not modelled. The flag reset in `ParentActivity.onDestroy` is also left out: it only matters for a screen that is going away.
- Presentation is left out: animations, Toasts, colours, alpha, visibility, helper texts, the float completion-rate thresholds of the statistics card, and date formatting.
- `SplashActivity.kt`, `adapter/ParentMessageAdapter.kt`, `utils/LottieUtils.kt` and `data/UserProgress.kt` are not part of this model.
- `SetupActivity` restore button and back-press dialog, and the `MainActivity` info dialog, are left out. They only navigate or display. Of the `MainActivity` menu only refresh is modelled; the others navigate or display.
- Strings are sequences of UTF-16 code units, so an emoji icon counts as two characters, as in Kotlin.
- Text.IsWhitespace: only the ASCII whitespace U+0009–U+000D, U+001C–U+001F and the space count. The Unicode space separators U+00A0, U+1680, U+2000–U+200A, U+2028, U+2029, U+202F, U+205F and U+3000, which Kotlin's `trim` also removes, are treated as ordinary characters.
- Text.Upper: only ASCII letters are uppercased, and `isLetterOrDigit` is ASCII only; other letters are ordinary characters.
- FamilyManager.UpperKeepsValid: holds only for ASCII uppercasing. With Kotlin's full `uppercase`, the id "ßabcde" passes `isValidFamilyId` but is stored as "SSABCDE", which has seven characters and is invalid. So "the stored id is always valid" and "`checkFamilyHealth` never returns INVALID_ID" hold only in this model. The app's own callers pass only generated codes, join codes that are already uppercased and validated, and ids that were stored before.
- Message objects are values. The in-place write `messageList[index].isCompleted = ...` is modelled as replacing that list entry, so aliasing between the captured message and the list entry is not captured.
- The diff that `DiffUtil` computes and dispatches is left out; only the two comparisons it uses are modelled.
- FamilyManager.FamilyStore.SaveFamilyConfig: the save time and the backup time are one `now`, although the source reads the clock once for each.
- SetupActivity.NewFamilyRecord: `createdAt` and `lastActivity` are one `now`, although the source reads the clock twice.
- ChildActivity.Progress: `completed * 100` is unbounded here. Kotlin's `Int` would overflow only beyond about 21 million tasks.
- MainActivity.FamilyStatus: the family name read in `updateFamilyStatus` is never displayed, so it is not part of the view.

## Findings

| source | as written | input that shows it | evidently intended | confidence | as-written member | corrected member |
|---|---|---|---|---|---|---|
| app/src/main/java/com/example/papanajaib/ParentActivity.kt:524-557 | a record holding `completed` but no `isCompleted` gets an update setting `isCompleted` to the resolved value, then a second write setting `isCompleted = false` | a task stored as `{completed: true}` with no `isCompleted` child | the legacy value is moved once, so the task stays completed | not executed | ParentCleanup.LegacyOnlyRecordEndsFalse | ParentCleanup.RecordRepairCorrectedCanonical |
| app/src/main/java/com/example/papanajaib/ParentActivity.kt:252-261 | after validation, `isCreatingMessage` is set; when `push().key` is null, the function returns without clearing it, and no callback will ever clear it | accepted inputs with a null push key; afterwards every create click is ignored | the flag is released on every path that issues no write | not executed | ParentActivity.MissingPushKeyLocksCreation | ParentActivity.ParentScreen.CreateMessageReleasing |

`OnCreateClick` follows the source and calls the as-written
`CreateMessage`; `OnCreateClickReleasing` is the same click over the
corrected `CreateMessageReleasing`. The repair pass itself,
`CleanupFirebaseData`, is kept as written; `RecordRepairEffect` states
what it does to every record.
