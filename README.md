# Personal trainer: backup sync, local store and training views in Dafny

This project models the data core of the personal-trainer web app
(remojansen/personal-trainer) and proves properties of that model.

- **Backup sync** (`src/hooks/useBackup.ts`). The app keeps a
  last-modified marker in local storage and one backup file in a
  user-chosen folder. The file holds a version, a timestamp and the
  exported data. A reconciliation compares the two timestamps. It then
  does nothing, imports the newer backup, or writes a fresh backup.
- **Local store** (`src/hooks/db.ts`). Activities are kept under their
  `id`, with a `by-date` and a `by-type` index. The profile is a
  singleton under `'user'`. Pagination walks a newest-first cursor,
  skipping by offset and stopping at a limit.
- **User-data cache** (`src/hooks/useUserData.tsx`). A provider holds
  the profile, the first page of activities and of stats entries, and
  their counts. Every callback writes the store first and then updates
  the cache.
- **Strength chart** (`src/components/StrengthEvolutionPanel.tsx`). The
  chart has one point per training day: the heaviest weight per
  exercise that day. The panel draws the exercises that have points and
  shows each muscle group's gain from its first day to its last.
- **Weekly plan editor** (`src/components/Schedule.tsx`). A check box
  per day and activity toggles that activity on that day.
- **Pace table** (`src/data/pace-chart.ts`). For every pace from 2:50 to
  10:00 per km, in steps of 5 s, it gives the finishing time over ten
  distances.
- **Time-range filter** (`src/components/TimeframeFilter.tsx`). Five
  ranges, their labels, dropdown options, and the days of history each
  range asks for.

## Modules

| module | file | what it holds |
|---|---|---|
| `Wrappers` | wrappers.dfy | `Option`, for `null`/`undefined` |
| `Domain` | domain.dfy | The records: activities with repetitions, stats and diet entries, the profile with its weekly schedule, folder handles. |
| `Order` | order.dfy | Lexicographic string order (ISO dates compare as strings do), index keys `(field, id)`, reading a map in index order, insertion sort by date. |
| `Store` | store.dfy | The `Database` class, the keyed-upsert algebra, and the offset/limit cursor loop. |
| `Sync` | sync.dfy | The backup engine as functions on a `World`, plus its properties. |
| `Backup` | backup.dfy | The `BackupHook` class. Each method is proved to yield the `World` that the matching `Sync` function computes from the old one. |
| `UserData` | userdata.dfy | The `UserDataProvider` class and its list transforms. |
| `Strength` | strength.dfy | The chart-building loops, the drawn exercises and the muscle-group gains. |
| `WeeklySchedule` | schedule.dfy | Toggling and reading the plan. |
| `PaceChart` | pacechart.dfy | The table loop and its conversions, with JavaScript `Math.floor`, `Math.round` and the truncating `%` written out. |
| `Timeframe` | timeframe.dfy | Ranges, labels, options and day counts. |

### Modelling decisions

- **Time is an integer.** Timestamps are milliseconds, as
  `new Date(...).getTime()` yields them. A marker never written counts
  as 0, as in `localLastModified ? ... : 0`.
- **Outside inputs are parameters.** These are:
  - the clock (`now`);
  - the user's answer to a permission prompt (`granted`);
  - the folder picker's outcome (`Pick`);
  - the failure of an I/O step (`Fault`, or `fault: Option<string>`).
- **The backup file** is `Missing`, `Unreadable` or `Stored(snapshot)`.
  `readBackupFile` maps the first two to "no backup".
- **Index order** is by field value, with ties broken by primary key, as
  IndexedDB orders index entries. A `'prev'` cursor reads that order
  backwards.
- **Some store operations are not in the shown `db.ts`.** These are the
  stats and diet operations, and the folder-handle store. The shown
  `db.ts` declares only activities, the profile and a single `stats`
  record. `useUserData.tsx` and `useBackup.ts` import the missing
  operations by name (`loadStatsEntries`, `loadStatsEntryByDate`,
  `saveStatsEntries`, `loadAllDietEntries`, …). They are modelled as
  further keyed collections with the same upsert, delete, count and
  paging behaviour as activities.
- **Some domain types are not in the shown `useUserData.tsx`.** These are
  `StrengthTrainingChest`, `RepetitionType` and the repetition list of a
  strength activity. `StrengthEvolutionPanel.tsx` imports them. The
  model declares them with the two exercises and the six muscle groups
  that the panel lists.
- **Start-up state.** `Backup.BackupHook.constructor` is the hook's first
  render. `UserData.UserDataProvider.constructor` is the provider's.
- **A failed import in `selectBackupFolder` leaves the status at syncing.**
  The source sets `syncStatus: 'syncing'` before the import, and its
  `catch` does not reset it. The model keeps this
  (`Sync.SelectImportFailureStaysSyncing`); `syncBackup` sets `'error'`
  in the same situation.

## Model

| member | source | states |
|---|---|---|
| Order.StrLtIrreflexive | src/components/StrengthEvolutionPanel.tsx:174-176 | No date string sorts strictly before itself. |
| Order.StrLtTransitive | src/components/StrengthEvolutionPanel.tsx:174-176 | The date order is transitive. |
| Order.StrLtTotal | src/components/StrengthEvolutionPanel.tsx:174-176 | Any two distinct date strings are ordered one way or the other. |
| Order.StrLtAsymmetric | src/components/StrengthEvolutionPanel.tsx:174-176 | The strict date order is asymmetric. |
| Order.StrLeTotal | src/components/StrengthEvolutionPanel.tsx:174-176 | The non-strict date order is total. |
| Order.StrLeTransitive | src/components/StrengthEvolutionPanel.tsx:174-176 | The non-strict date order is transitive. |
| Order.StrLeAntisymmetric | src/components/StrengthEvolutionPanel.tsx:174-176 | Two date strings each not after the other are equal. |
| Order.KeyLtIrreflexive | src/hooks/db.ts:43-44 | An index key (field value, primary key) is not below itself. |
| Order.KeyLtTransitive | src/hooks/db.ts:43-44 | The index order is transitive. |
| Order.KeyLtAsymmetric | src/hooks/db.ts:43-44 | The index order is asymmetric. |
| Order.KeyLtTotal | src/hooks/db.ts:43-44 | Any two distinct index keys are ordered, so each index has a single reading order. |
| Order.FirstExists | src/hooks/db.ts:111-114 | Every non-empty set of stored ids has a first id in index order. |
| Order.FirstUnique | src/hooks/db.ts:111-114 | That first id is unique. |
| Order.AllFirstUnique | src/hooks/db.ts:111-114 | Uniqueness of the first id, for all candidates at once. |
| Order.First | src/hooks/db.ts:111-114 | Returns the id that comes first in index order. |
| Order.IndexIds | src/hooks/db.ts:111-114 | Lists exactly the given ids, each once, in strictly increasing index order. |
| Order.InIndexOrderDistinct | src/hooks/db.ts:111-114 | Ids read in index order are pairwise distinct. |
| Order.Lookup | src/hooks/db.ts:111-114 | Looks up each listed id in the store, position by position. |
| Order.Ascending | src/hooks/db.ts:111-114 | `getAllFromIndex` on an index; `AscendingContents` states that it yields every stored record once and `AscendingSorted` that the field values do not decrease. |
| Order.Descending | src/hooks/db.ts:86-87 | The `openCursor(null, 'prev')` walk, newest first; `Store.DescendingMembers` and `Store.DescendingSorted` state that it yields only stored records, with non-increasing dates. |
| Order.AscendingContents | src/hooks/db.ts:111-114 | `getAllFromIndex` returns every stored record exactly once: as many records as keys, and exactly the stored values. |
| Order.AscendingSorted | src/hooks/db.ts:111-114 | Reading an index in its natural direction gives non-decreasing dates. |
| Order.InsertByDate | src/components/StrengthEvolutionPanel.tsx:174-176 | Inserting into a list sorted by date keeps it sorted and adds exactly that element. |
| Order.InsertFront | src/components/StrengthEvolutionPanel.tsx:174-176 | An element dated strictly before a sorted list's head can go in front. |
| Order.InsertBehind | src/components/StrengthEvolutionPanel.tsx:174-176 | If the new element is not earlier than the head, the head can stay in front of the rest with the element inserted. |
| Order.SortByDate | src/components/StrengthEvolutionPanel.tsx:201-203 | The sort result is a permutation of its input and is sorted by date. |
| Store.UpsertAllKeys | src/hooks/db.ts:133-140 | After putting a batch, the keys are the old keys plus the batch's ids. |
| Store.UpsertAllOthers | src/hooks/db.ts:133-140 | A stored record whose id is not in the batch keeps its value. |
| Store.UpsertAllLast | src/hooks/db.ts:133-140 | An id in the batch holds the last record of the batch with that id. |
| Store.UpsertAllKeyed | src/hooks/db.ts:40-42 | Puts keep every record under its own `id` (the keyPath). |
| Store.UpsertAll | src/hooks/db.ts:133-140 | Putting each record of a batch in turn under its id; `UpsertAllKeys`, `UpsertAllOthers` and `UpsertAllLast` state the keys it leaves and the value under each. |
| Store.Restrict | src/hooks/useBackup.ts:114-124 | A store cut down to the listed ids holds exactly those keys. |
| Store.RestrictStep | src/hooks/useBackup.ts:114-124 | Putting one more listed record extends the restricted overlay by that record. |
| Store.UpsertAllLookup | src/hooks/useBackup.ts:114-124 | Putting records read out of store `m` by id overlays the target with exactly those records of `m`. |
| Store.UpsertAscending | src/hooks/useBackup.ts:114-124 | Putting every record of a keyed store read in index order overlays the target with that whole store. |
| Store.RestrictAll | src/hooks/useBackup.ts:114-124 | Restricting to all of a store's keys gives the store back. |
| Store.Start | src/hooks/db.ts:93-97 | The number of records the loop skips never exceeds the cursor's length. |
| Store.Window | src/hooks/db.ts:92-106 | The page the cursor loop collects; `WindowBounds`, `WindowIsSlice` and `WindowConcat` state that it is the contiguous slice from the clamped offset, at most `limit` long for a positive limit. |
| Store.WindowBounds | src/hooks/db.ts:92-106 | A page is a contiguous slice of the cursor, starting at the clamped offset. A positive limit bounds its length. A zero limit takes the rest of the cursor. |
| Store.WindowConcat | src/hooks/useUserData.tsx:256-262 | Two pages read one after the other equal one page as long as both limits together. |
| Store.ReadPage | src/hooks/db.ts:80-109 | The cursor loop, with its `skipped` counter and its `break`, returns exactly the page `Window(cursor, offset, limit)`. |
| Store.PutAll | src/hooks/db.ts:133-140 | The readwrite transaction's puts, one by one, produce `UpsertAll`. |
| Store.FirstWithDate | src/hooks/useUserData.tsx:217-219 | Looking up a date gets a record with that date from the list, or nothing exactly when no record has it. |
| Store.OfType | src/hooks/db.ts:147-152 | The ids of a type are stored ids. |
| Store.Database.constructor | src/hooks/db.ts:28-55 | A new database is empty and well keyed. |
| Store.Database.LoadUserProfile | src/hooks/db.ts:58-61 | Returns the stored singleton profile, or nothing. |
| Store.Database.SaveUserProfile | src/hooks/db.ts:63-66 | Sets the singleton profile and leaves everything else alone. |
| Store.Database.LoadActivities | src/hooks/db.ts:80-109 | Returns the page at `offset`/`limit` of the activities in newest-first index order. |
| Store.Database.LoadAllActivities | src/hooks/db.ts:111-114 | Returns every stored activity exactly once, in ascending date order. |
| Store.Database.GetActivityCount | src/hooks/db.ts:116-119 | Returns the number of stored keys. |
| Store.Database.LoadActivityById | src/hooks/db.ts:121-126 | Returns the activity stored under `id`, or nothing when there is none. |
| Store.Database.SaveActivity | src/hooks/db.ts:128-131 | Upserts by `id`; nothing else changes. |
| Store.Database.SaveActivities | src/hooks/db.ts:133-140 | Upserts the batch in order; nothing else changes. |
| Store.Database.DeleteActivity | src/hooks/db.ts:142-145 | Removes exactly the key `id`; nothing else changes. |
| Store.Database.LoadActivitiesByType | src/hooks/db.ts:147-152 | Returns exactly the stored activities of type `t`, each once, in `by-type` index order. |
| Store.Database.LoadStatsEntries | src/hooks/useUserData.tsx:203-206 | Returns the page at `offset`/`limit` of the stats entries, newest first. |
| Store.Database.LoadAllStatsEntries | src/hooks/useBackup.ts:89-96 | Returns every stats entry in ascending date order. |
| Store.Database.GetStatsEntryCount | src/hooks/useUserData.tsx:234-241 | Returns the number of stored stats entries. |
| Store.Database.LoadStatsEntryByDate | src/hooks/useUserData.tsx:217-219 | Returns a stored entry with that date, or nothing exactly when no entry has that date. |
| Store.Database.SaveStatsEntry | src/hooks/useUserData.tsx:217-230 | Upserts one stats entry by `id`. |
| Store.Database.SaveStatsEntries | src/hooks/useUserData.tsx:234-236 | Upserts a batch of stats entries. |
| Store.Database.DeleteStatsEntry | src/hooks/useUserData.tsx:249-250 | Removes exactly that stats entry. |
| Store.Database.LoadAllDietEntries | src/hooks/useBackup.ts:89-96 | Returns every diet entry in ascending date order. |
| Store.Database.SaveDietEntries | src/hooks/useBackup.ts:122-124 | Upserts a batch of diet entries. |
| Store.Database.StoreFolderHandle | src/hooks/useBackup.ts:58-63 | Stores the folder handle under `'handle'`. |
| Store.Database.GetStoredFolderHandle | src/hooks/useBackup.ts:66-70 | Returns the stored handle, or nothing. |
| Store.Database.RemoveStoredFolderHandle | src/hooks/useBackup.ts:73-76 | Deletes the stored handle. |
| Store.SaveThenLoad | src/hooks/db.ts:121-131 | After saving `a`, loading `a.id` gives `a`; every other id keeps its presence and value. |
| Store.DescendingMembers | src/hooks/db.ts:86-89 | The newest-first cursor yields only stored records. |
| Store.DescendingSorted | src/hooks/db.ts:86-89 | The newest-first cursor yields non-increasing dates. |
| Store.WindowIsSlice | src/hooks/db.ts:92-106 | The page's i-th element is the cursor's element at offset + i. |
| Store.PageNewestFirst | src/hooks/db.ts:80-109 | A page of activities holds stored activities only, newest first, and at most `limit` of them. |
| Store.PagesContinue | src/hooks/useUserData.tsx:256-262 | Loading `n` activities and then `k` more from where the list ends gives the first `n + k`; with `UserData.UserDataProvider.LoadMoreActivities`' contract, a cached first page extended by `loadMoreActivities` is the longer first page. |
| Sync.BackupOf | src/hooks/useBackup.ts:130-142 | A backup is read exactly when a stored file exists, and it is that file's snapshot. |
| Sync.LocalTime | src/hooks/useBackup.ts:432-434 | A marker never written counts as time 0; `Decide` states which branch each comparison against it takes. |
| Sync.Decide | src/hooks/useBackup.ts:431-469 | Equal timestamps mean already synced. A newer backup means pull. An older or missing backup means push. Each is an if-and-only-if. |
| Sync.SyncSkipped | src/hooks/useBackup.ts:401 | Without a folder, or while a sync is in flight, the whole world is unchanged. |
| Sync.SyncReleasesGuard | src/hooks/useBackup.ts:403-479 | Every path of a sync that ran releases the in-flight flag. |
| Sync.SyncPermissionRevoked | src/hooks/useBackup.ts:407-423 | A denied re-request sets folder access lost and the "revoked" error; status, file, data, marker and folder are unchanged. |
| Sync.SyncWhenEqual | src/hooks/useBackup.ts:438-446 | Equal timestamps give status synced and the backup's date, with no import, no write and no marker change. |
| Sync.SyncPullsNewer | src/hooks/useBackup.ts:448-459 | A newer backup is imported, the marker and shown date become its timestamp, and `onDataRestored` fires once. |
| Sync.SyncPushesOtherwise | src/hooks/useBackup.ts:462-470 | Newer local data, or no readable backup, writes `{version 1, now, full export}`; marker and shown date become `now`. |
| Sync.SyncPermissionFailureKeepsState | src/hooks/useBackup.ts:403-479 | A permission query or request that throws reports "Sync failed: …"; the status is error and permission, folder access, marker, data, file and shown date are unchanged. |
| Sync.SyncFailureKeepsState | src/hooks/useBackup.ts:471-479 | A failed import or write reports "Sync failed: …"; the status is error and the marker, data, file and shown date are unchanged. |
| Sync.SyncIdempotent | src/hooks/useBackup.ts:400-480 | A second sync right after a successful one finds the timestamps equal and changes nothing: the whole world after it equals the world before it. |
| Sync.ImportCollection | src/hooks/useBackup.ts:114-124 | Importing one exported collection overlays the local one with it; an empty one is skipped. |
| Sync.ImportOwnExport | src/hooks/useBackup.ts:89-127 | Importing one's own export leaves the store as it was. |
| Sync.ImportIntoEmptyStore | src/hooks/useBackup.ts:89-127 | An empty store that imports another store's export ends up with exactly that store's records. |
| Sync.ImportNeverDeletes | src/hooks/useBackup.ts:107-127 | Import deletes nothing: every local activity, stats entry and diet entry survives, one whose id is absent from the backup keeps its value, and a present profile stays present. |
| Sync.ExportHoldsEverything | src/hooks/useBackup.ts:89-104 | The exported activities are every stored activity, once each, oldest first. |
| Sync.ManualBackupAlwaysPushes | src/hooks/useBackup.ts:344-360 | A manual backup writes a fresh snapshot whatever the timestamps say. |
| Sync.ManualRestoreAlwaysPulls | src/hooks/useBackup.ts:363-397 | A manual restore imports the backup whatever the timestamps say, and notifies once. |
| Sync.ManualRestoreWithoutFile | src/hooks/useBackup.ts:372-380 | Without a readable file: error "No backup file found", nothing imported. |
| Sync.ManualWithoutFolder | src/hooks/useBackup.ts:345-348 | Without a folder, both manual operations only set "No backup folder selected". |
| Sync.SelectAgreesWithSync | src/hooks/useBackup.ts:268-308 | After picking a folder, reconciliation has the same outcome on data, file, marker, notifications, status and date as `syncBackup` with permission granted. |
| Sync.SelectImportFailureStaysSyncing | src/hooks/useBackup.ts:289-291 | A failed import while selecting a folder reports the error but leaves the status at syncing. |
| Sync.SelectCancelled | src/hooks/useBackup.ts:310-313 | A cancelled picker only clears loading and the error. |
| Sync.RemoveForgetsFolder | src/hooks/useBackup.ts:324-334 | Removing the folder forgets the handle, access, name and date; the profile and every collection, the backup file, the marker and the notification count are unchanged. |
| Sync.ChangeThenSyncPushes | src/hooks/useBackup.ts:493-495 | After a local change stamped later than the backup, the next sync pushes the current data. |
| Sync.InitializeNeverPrompts | src/hooks/useBackup.ts:175-214 | Start-up adopts the stored folder only with permission already granted, never imports or writes, and ends not loading. |
| Sync.ExportAll | src/hooks/useBackup.ts:89-104 | The full export; `ExportHoldsEverything` states that its activities are every stored activity once, oldest first, and `ImportOwnExport` that importing it changes nothing. |
| Sync.ImportAll | src/hooks/useBackup.ts:107-127 | The import; `ImportNeverDeletes`, `ImportCollection` and `ImportIntoEmptyStore` state that it overlays each non-empty collection, deletes nothing and reproduces an exported store. |
| Sync.PerformBackup | src/hooks/useBackup.ts:217-238 | The push; `SyncPushesOtherwise` and `ManualBackupAlwaysPushes` state that it writes `{version 1, now, full export}` and moves marker and shown date to `now`. |
| Sync.Restore | src/hooks/useBackup.ts:448-459 | The pull; `SyncPullsNewer` and `ManualRestoreAlwaysPulls` state that it imports the snapshot, adopts its timestamp and notifies once. |
| Sync.Failed | src/hooks/useBackup.ts:471-478 | The `catch`; `SyncFailureKeepsState` and `SyncPermissionFailureKeepsState` state that only the status and the message change. |
| Sync.SyncBackup | src/hooks/useBackup.ts:400-480 | The automatic reconciliation; the `Sync.Sync*` lemmas state each of its branches. |
| Sync.SelectBackupFolder | src/hooks/useBackup.ts:241-321 | Picking a folder; `SelectAgreesWithSync`, `SelectImportFailureStaysSyncing` and `SelectCancelled` state its outcomes. |
| Sync.RemoveBackupFolder | src/hooks/useBackup.ts:324-341 | Forgetting the folder; `RemoveForgetsFolder` states what it clears and keeps. |
| Sync.ManualBackup | src/hooks/useBackup.ts:344-360 | `ManualBackupAlwaysPushes` and `ManualWithoutFolder` state its outcomes. |
| Sync.ManualRestore | src/hooks/useBackup.ts:363-397 | `ManualRestoreAlwaysPulls`, `ManualRestoreWithoutFile` and `ManualWithoutFolder` state its outcomes. |
| Sync.UpdateLocalModified | src/hooks/useBackup.ts:493-495 | Stamping a local change; `ChangeThenSyncPushes` states that the next sync then pushes. |
| Sync.Initialize | src/hooks/useBackup.ts:175-214 | Start-up; `InitializeNeverPrompts` states that it never imports, writes or prompts. |
| Backup.BackupHook.constructor | src/hooks/useBackup.ts:158-172 | The first render: loading, idle, no folder, no access, no error, not syncing, and the marker left by an earlier session. |
| Backup.BackupHook.ReadBackupFile | src/hooks/useBackup.ts:130-142 | Returns a snapshot exactly when the folder holds a readable file. |
| Backup.BackupHook.ExportAllData | src/hooks/useBackup.ts:89-104 | Returns `Sync.ExportAll` of the store. |
| Backup.BackupHook.ImportAllData | src/hooks/useBackup.ts:107-127 | The store becomes `Sync.ImportAll` of the old store and the data. |
| Backup.BackupHook.PerformBackup | src/hooks/useBackup.ts:217-238 | The new world is `Sync.PerformBackup` of the old one. |
| Backup.BackupHook.RestoreFrom | src/hooks/useBackup.ts:448-459 | The new world is `Sync.Restore` of the old one. |
| Backup.BackupHook.Fail | src/hooks/useBackup.ts:471-478 | The new world is `Sync.Failed` of the old one. |
| Backup.BackupHook.SyncBackup | src/hooks/useBackup.ts:400-480 | The new world is `Sync.SyncBackup` of the old one; all the `Sync.Sync*` lemmas apply. |
| Backup.BackupHook.SelectBackupFolder | src/hooks/useBackup.ts:241-321 | The new world is `Sync.SelectBackupFolder` of the old one. |
| Backup.BackupHook.RemoveBackupFolder | src/hooks/useBackup.ts:324-341 | The new world is `Sync.RemoveBackupFolder` of the old one. |
| Backup.BackupHook.ManualBackup | src/hooks/useBackup.ts:344-360 | The new world is `Sync.ManualBackup` of the old one. |
| Backup.BackupHook.ManualRestore | src/hooks/useBackup.ts:363-397 | The new world is `Sync.ManualRestore` of the old one. |
| Backup.BackupHook.UpdateLocalModified | src/hooks/useBackup.ts:493-495 | The new world is `Sync.UpdateLocalModified` of the old one. |
| Backup.BackupHook.Init | src/hooks/useBackup.ts:175-214 | The new world is `Sync.Initialize` of the old one. |
| UserData.ReplaceById | src/hooks/useUserData.tsx:223-225 | Same length; each position holds the update if its id matches, else the old entry. |
| UserData.WithoutId | src/hooks/useUserData.tsx:251 | Keeps only entries of the list, none with that id, and every entry with another id. |
| UserData.CheckIsRegistered | src/hooks/useUserData.tsx:146-152 | Registered means height, birth date and sex are all set; `RegistrationNeedsThreeFields` and `RegistrationIgnoresPlan` state it. |
| UserData.UserDataProvider.constructor | src/hooks/useUserData.tsx:136-143 | Loading, unregistered, default profile, empty lists and zero counts. |
| UserData.UserDataProvider.LoadInitialData | src/hooks/useUserData.tsx:155-188 | Stored profile (if any) and its registration; the first 50 of each list newest first; the true counts; loading off. |
| UserData.UserDataProvider.LoadFirstActivities | src/hooks/useUserData.tsx:166-177 | The first activity page and the count, nothing else. |
| UserData.UserDataProvider.LoadFirstStatsEntries | src/hooks/useUserData.tsx:168-179 | The first stats page and the count, nothing else. |
| UserData.UserDataProvider.SetUserProfile | src/hooks/useUserData.tsx:191-200 | Caches the profile, recomputes registration and persists it. |
| UserData.UserDataProvider.LoadMoreActivities | src/hooks/useUserData.tsx:256-262 | Appends the page that starts at the cached list's length. |
| UserData.UserDataProvider.AddActivity | src/hooks/useUserData.tsx:270-274 | Upserts into the store, prepends to the cache and adds one to the count. |
| UserData.UserDataProvider.UpdateActivities | src/hooks/useUserData.tsx:277-286 | Upserts the batch, then reloads the first 50 newest first and the true count. |
| UserData.UserDataProvider.DeleteActivity | src/hooks/useUserData.tsx:289-293 | Deletes from the store, filters the cache by id and subtracts one from the count. |
| UserData.UserDataProvider.LoadMoreStatsEntries | src/hooks/useUserData.tsx:203-209 | Appends the stats page that starts at the cached list's length. |
| UserData.UserDataProvider.AddStatsEntry | src/hooks/useUserData.tsx:217-231 | An entry for an existing date: stored under the old id and replaced in the cache, count unchanged. Otherwise: stored, prepended, count plus one. |
| UserData.UserDataProvider.ReplaceStatsEntry | src/hooks/useUserData.tsx:219-225 | The update branch: store overwrite and in-place cache replacement. |
| UserData.UserDataProvider.InsertStatsEntry | src/hooks/useUserData.tsx:226-230 | The insert branch: store, prepend, count plus one. |
| UserData.UserDataProvider.UpdateStatsEntries | src/hooks/useUserData.tsx:234-246 | Upserts the batch, then reloads the first page and the true count. |
| UserData.UserDataProvider.DeleteStatsEntry | src/hooks/useUserData.tsx:249-253 | Deletes, filters the cache by id, and subtracts one from the count. |
| UserData.RegistrationNeedsThreeFields | src/hooks/useUserData.tsx:146-152 | The default profile is unregistered; with height, birth date and sex set it is registered. |
| UserData.RegistrationIgnoresPlan | src/hooks/useUserData.tsx:146-152 | Target weight, target date and schedule do not affect registration. |
| UserData.ReplaceByIdAbsent | src/hooks/useUserData.tsx:223-225 | Replacing an id that does not occur changes nothing. |
| UserData.ReplaceByIdPositions | src/hooks/useUserData.tsx:223-225 | Replacement only swaps entries with that id, and no other position gets that id. |
| UserData.WithoutIdAppend | src/hooks/useUserData.tsx:251 | The filter distributes over concatenation. |
| UserData.WithoutIdSingle | src/hooks/useUserData.tsx:291 | Filtering one element keeps it exactly when its id differs. |
| UserData.WithoutIdAbsent | src/hooks/useUserData.tsx:291 | Filtering an id that does not occur changes nothing. |
| UserData.WithoutIdIdempotent | src/hooks/useUserData.tsx:291 | Filtering twice is filtering once. |
| UserData.CountTracksStore | src/hooks/useUserData.tsx:270-293 | The store's size grows by one only for a new id, and shrinks by one only for a present id. |
| UserData.AddStatsSameDateKeepsKeys | src/hooks/useUserData.tsx:217-225 | Re-adding a date keeps the store's keys and size, and the stored entry gets the new date's data. |
| UserData.UpdateShowsNewest | src/hooks/useUserData.tsx:277-286 | After a bulk update the cache holds min(50, count) stored activities, newest first. |
| Strength.StrengthOnlyMembers | src/components/StrengthEvolutionPanel.tsx:109-118 | The filter keeps exactly the activities whose type starts with `StrengthTraining`. |
| Strength.StrengthOnly | src/components/StrengthEvolutionPanel.tsx:116-118 | The strength filter; `StrengthOnlyMembers` states that it keeps exactly the activities whose type starts with `StrengthTraining`. |
| Strength.IsStrengthActivity | src/components/StrengthEvolutionPanel.tsx:109-111 | The `StrengthTraining` prefix test; `StrengthActivityTypes` states that it holds exactly for the six muscle groups. |
| Strength.StrengthActivityTypes | src/components/StrengthEvolutionPanel.tsx:109-111 | Starts with `StrengthTraining` if and only if it is one of the six muscle groups. |
| Strength.MaxOf | src/components/StrengthEvolutionPanel.tsx:160-161 | No maximum exactly when there are no weights. |
| Strength.MaxOfIsMax | src/components/StrengthEvolutionPanel.tsx:160-161 | The maximum is one of the weights and at least every weight. |
| Strength.SomeWeightExists | src/components/StrengthEvolutionPanel.tsx:165-167 | `some` is true exactly when some listed exercise has a non-null weight. |
| Strength.HasDataExists | src/components/StrengthEvolutionPanel.tsx:165-167 | A point has data exactly when some exercise has a weight. |
| Strength.PositiveWeightsMembers | src/components/StrengthEvolutionPanel.tsx:139-143 | The collected weights are positive, and are exactly the positive weights lifted in that exercise. |
| Strength.PushWeights | src/components/StrengthEvolutionPanel.tsx:139-143 | The inner loop appends each exercise's positive weights to its list, in order. |
| Strength.GroupByDate | src/components/StrengthEvolutionPanel.tsx:123-144 | Every activity's date is grouped exactly once, in first-seen order, with each exercise's weights that day. |
| Strength.ChartOfDays | src/components/StrengthEvolutionPanel.tsx:146-171 | Every kept point is that date's point and has data. |
| Strength.ChartOfDates | src/components/StrengthEvolutionPanel.tsx:146-171 | Every point's date is one of the grouped dates. |
| Strength.ChartOfCovers | src/components/StrengthEvolutionPanel.tsx:164-170 | Every grouped date whose point has data has a point. |
| Strength.ChartOfDistinct | src/components/StrengthEvolutionPanel.tsx:146-171 | Distinct dates give points with distinct dates. |
| Strength.BuildPoint | src/components/StrengthEvolutionPanel.tsx:149-162 | A point carries the date and, for each exercise, the maximum of its weights or nothing. |
| Strength.PointFromRecord | src/components/StrengthEvolutionPanel.tsx:149-162 | A point built from the grouped record is the day's point. |
| Strength.ChartOfStep | src/components/StrengthEvolutionPanel.tsx:148-171 | One more date adds its point exactly when the point has data. |
| Strength.PointsOf | src/components/StrengthEvolutionPanel.tsx:146-171 | The second loop yields exactly `ChartOf` of the grouped dates. |
| Strength.ChartData | src/components/StrengthEvolutionPanel.tsx:116-177 | One point per date with a positive weight, each the day's maximum per exercise, all with data, in strictly increasing date order. |
| Strength.SortedDistinctIsStrict | src/components/StrengthEvolutionPanel.tsx:174-176 | Sorted with distinct dates means strictly increasing. |
| Strength.ReorderedDayPoints | src/components/StrengthEvolutionPanel.tsx:174-176 | Sorting keeps every point a day's point with data. |
| Strength.ReorderedCovers | src/components/StrengthEvolutionPanel.tsx:174-176 | Sorting keeps every day's point. |
| Strength.ChartPointsDistinct | src/components/StrengthEvolutionPanel.tsx:174-176 | Sorting keeps dates distinct and adds no point. |
| Strength.AtMostOnce | src/components/StrengthEvolutionPanel.tsx:174-176 | Points with distinct dates each occur once. |
| Strength.ActiveAmong | src/components/StrengthEvolutionPanel.tsx:180-184 | Keeps exactly the exercises with a non-null point. |
| Strength.ActiveRepetitionTypes | src/components/StrengthEvolutionPanel.tsx:180-184 | The drawn exercises; `ActiveRepetitionTypesExact` and `DrawnIffLifted` state that an exercise is drawn, once, exactly when some strength activity lifted a positive weight in it. |
| Strength.ActiveRepetitionTypesExact | src/components/StrengthEvolutionPanel.tsx:180-184 | An exercise is drawn exactly when a point has a weight for it; none is drawn twice. |
| Strength.PositiveWeightsNonEmpty | src/components/StrengthEvolutionPanel.tsx:139-143 | An activity contributes weights for an exercise exactly when it lifted a positive weight in it. |
| Strength.DayWeightsNonEmpty | src/components/StrengthEvolutionPanel.tsx:125-143 | A day has weights for an exercise exactly when one of its activities lifted a positive weight in it. |
| Strength.PointWeightLifted | src/components/StrengthEvolutionPanel.tsx:158-162 | A weight on a point comes from a strength activity of that day. |
| Strength.LiftedPointHasData | src/components/StrengthEvolutionPanel.tsx:158-169 | A lift in an exercise gives its day's point a weight, so the point has data. |
| Strength.DrawnIffLifted | src/components/StrengthEvolutionPanel.tsx:116-184 | An exercise is drawn exactly when some strength activity lifted a positive weight in it. |
| Strength.OfMuscleMembers | src/components/StrengthEvolutionPanel.tsx:201-202 | The filter keeps exactly the activities of that muscle group. |
| Strength.OfMuscle | src/components/StrengthEvolutionPanel.tsx:201-202 | The muscle-group filter; `OfMuscleMembers` states that it keeps exactly that group's activities. |
| Strength.AllPositiveWeightsMembers | src/components/StrengthEvolutionPanel.tsx:220-222 | The flattened weights are exactly the positive weights lifted. |
| Strength.AllPositiveWeights | src/components/StrengthEvolutionPanel.tsx:220-222 | The positive weights of an activity's sets; `AllPositiveWeightsMembers` states that they are exactly the positive weights lifted. |
| Strength.WeightsOnMembers | src/components/StrengthEvolutionPanel.tsx:217-222 | A day's weights are exactly those lifted that day. |
| Strength.WeightsOn | src/components/StrengthEvolutionPanel.tsx:217-222 | A day's weights; `WeightsOnMembers` and `WeightsOnPositive` state that they are exactly the positive weights lifted that day. |
| Strength.MuscleGroupGains | src/components/StrengthEvolutionPanel.tsx:187-249 | One gain per muscle group, in the listed order, with its label. |
| Strength.MuscleLabel | src/components/StrengthEvolutionPanel.tsx:40-47 | `MUSCLE_GROUP_LABELS`; `MuscleGroupGains` states that each gain carries its group's label. |
| Strength.MuscleGain | src/components/StrengthEvolutionPanel.tsx:199-246 | One group's gain; `FirstWeightIsEarliestDayMax`, `LastWeightIsLatestDayMax`, `GainSign` and `UntrainedGroupHasNoGain` state its weights and its sign. |
| Strength.GainPercent | src/components/StrengthEvolutionPanel.tsx:235-238 | The percentage change; `GainPercentAgrees` states its sign and that it is 0 without a positive first weight. |
| Strength.UntrainedGroupHasNoGain | src/components/StrengthEvolutionPanel.tsx:205-214 | A group with no activity shows 0 % and no weights. |
| Strength.GainPercentAgrees | src/components/StrengthEvolutionPanel.tsx:235-238 | With a positive first weight, the gain is positive, zero or negative exactly as the last weight is above, equal to or below it; otherwise it is 0. |
| Strength.WeightsOnPositive | src/components/StrengthEvolutionPanel.tsx:220-222 | Every collected weight is positive. |
| Strength.DayMaxPositive | src/components/StrengthEvolutionPanel.tsx:223 | A day's maximum, when there is one, is positive. |
| Strength.GainSign | src/components/StrengthEvolutionPanel.tsx:216-238 | The shown gain's sign agrees with last vs first weight; without both weights it is 0. |
| Strength.MuscleActivities | src/components/StrengthEvolutionPanel.tsx:201-203 | The sorted group list holds exactly the activities of that group. |
| Strength.SortedEnds | src/components/StrengthEvolutionPanel.tsx:217-228 | In a date-sorted list the first date is the earliest and the last is the latest. |
| Strength.DayMaxIsHeaviest | src/components/StrengthEvolutionPanel.tsx:217-223 | A day's maximum is lifted that day and nothing heavier is. |
| Strength.EarliestIsFirst | src/components/StrengthEvolutionPanel.tsx:201-217 | The group's earliest day is the date of the first activity of its sorted list. |
| Strength.LatestIsLast | src/components/StrengthEvolutionPanel.tsx:201-226 | The group's latest day is the date of the last activity of its sorted list. |
| Strength.LiftedOnHasMax | src/components/StrengthEvolutionPanel.tsx:217-223 | A day on which the group lifted a positive weight has a maximum. |
| Strength.FirstWeightPresent | src/components/StrengthEvolutionPanel.tsx:216-223 | A positive lift on the group's earliest day gives it a first weight. |
| Strength.LastWeightPresent | src/components/StrengthEvolutionPanel.tsx:225-232 | A positive lift on the group's latest day gives it a last weight. |
| Strength.FirstWeightIsEarliestDayMax | src/components/StrengthEvolutionPanel.tsx:216-223 | The first weight is the heaviest lift on the group's earliest day, and it is present whenever a positive weight was lifted that day. |
| Strength.LastWeightIsLatestDayMax | src/components/StrengthEvolutionPanel.tsx:225-232 | The last weight is the heaviest lift on the group's latest day, and it is present whenever a positive weight was lifted that day. |
| WeeklySchedule.ToggleActivity | src/components/Schedule.tsx:40-55 | Only that day's list changes; the set of days is kept. |
| WeeklySchedule.IsActive | src/components/Schedule.tsx:57-62 | A box is on when the day's list includes the activity; `ToggleFlips` and `ToggleKeepsOthers` state how a toggle changes it. |
| WeeklySchedule.Without | src/components/Schedule.tsx:48 | The filter; `WithoutCounts`, `WithoutAppend` and `WithoutAbsent` state which copies it keeps. |
| WeeklySchedule.WithoutAppend | src/components/Schedule.tsx:48 | The filter distributes over concatenation. |
| WeeklySchedule.WithoutCounts | src/components/Schedule.tsx:48 | The filter drops every copy of the activity and keeps every copy of each other. |
| WeeklySchedule.WithoutAbsent | src/components/Schedule.tsx:48 | Filtering an absent activity changes nothing. |
| WeeklySchedule.ToggleFlips | src/components/Schedule.tsx:40-62 | Toggling flips that box. |
| WeeklySchedule.ToggleKeepsOthers | src/components/Schedule.tsx:40-62 | Toggling leaves every other box, on every day, as it was. |
| WeeklySchedule.ToggleRemoves | src/components/Schedule.tsx:45-48 | A listed activity is removed with all its copies, others in order. |
| WeeklySchedule.ToggleAppends | src/components/Schedule.tsx:49 | An unlisted activity is appended at the end. |
| WeeklySchedule.ToggleTwiceRestores | src/components/Schedule.tsx:40-55 | Toggling an unlisted activity twice restores the schedule. |
| WeeklySchedule.ToggleKeepsComplete | src/components/Schedule.tsx:51-54 | A schedule with all seven days keeps them. |
| WeeklySchedule.DefaultScheduleEmpty | src/hooks/useUserData.tsx:107-115 | The default plan has all seven days and nothing on any. |
| PaceChart.RemInt | src/data/pace-chart.ts:26 | The truncating remainder is below the divisor in size and has the dividend's sign. |
| PaceChart.RemRealBounds | src/data/pace-chart.ts:32-34 | For 60 and 3600, a non-negative time is whole multiples plus a remainder in [0, b). |
| PaceChart.Round | src/data/pace-chart.ts:34 | `Math.round` is within half a unit. |
| PaceChart.PaceToSeconds | src/data/pace-chart.ts:20-22 | A pace in seconds; `PaceRoundTrip` and `SecondsRoundTrip` state that it inverts `SecondsToPace` on normal paces. |
| PaceChart.SecondsToPace | src/data/pace-chart.ts:24-28 | Seconds as a pace with JavaScript's truncating `%`; `PaceRoundTrip` and `NegativePaceDoesNotRoundTrip` state where the round trip holds and where it breaks. |
| PaceChart.SecondsToTotalTime | src/data/pace-chart.ts:30-36 | Hours, minutes and rounded seconds; `TotalTimeExact`, `TotalTimeClose` and `RoundingReachesSixty` state how close it is. |
| PaceChart.PaceRoundTrip | src/data/pace-chart.ts:20-28 | Whole seconds become a normal pace (seconds below 60) and back. |
| PaceChart.SecondsRoundTrip | src/data/pace-chart.ts:20-28 | A normal pace survives the trip through seconds. |
| PaceChart.NegativePaceDoesNotRoundTrip | src/data/pace-chart.ts:24-28 | With a negative total the truncating `%` breaks the round trip: -1:30 comes back as -1:-30. |
| PaceChart.TotalTimeExact | src/data/pace-chart.ts:30-36 | Whole seconds split exactly into hours, minutes < 60 and seconds < 60. |
| PaceChart.TotalTimeClose | src/data/pace-chart.ts:30-36 | Any non-negative time is shown within half a second, with minutes < 60 and seconds ≤ 60. |
| PaceChart.RoundingReachesSixty | src/data/pace-chart.ts:34 | 59.5 s is shown as 0:00:60. |
| PaceChart.TimesFor | src/data/pace-chart.ts:52-55 | One time per distance, in the listed order. |
| PaceChart.Chart | src/data/pace-chart.ts:38-59 | The pace table; `GetPaceChart` states that the loop builds it, and `ChartBounds`, `ChartPaces`, `ChartIncreasing` and `ChartTimes` state its rows. |
| PaceChart.GetPaceChart | src/data/pace-chart.ts:38-59 | The loop builds exactly the row for every 5th second from 2:50 to 10:00. |
| PaceChart.ChartBounds | src/data/pace-chart.ts:39-49 | 87 rows, first 2:50, last 10:00. |
| PaceChart.ChartPaces | src/data/pace-chart.ts:47-51 | Row i is the normal pace of 170 + 5i seconds. |
| PaceChart.ChartIncreasing | src/data/pace-chart.ts:46-50 | Paces strictly increase down the table. |
| PaceChart.EntryTimes | src/data/pace-chart.ts:52-55 | A row's time over a distance is pace times distance, to within half a second. |
| PaceChart.ChartTimes | src/data/pace-chart.ts:42-55 | Each row has the ten distances in order, each within half a second of pace times distance. |
| Timeframe.GetDaysForTimeRange | src/components/TimeframeFilter.tsx:20-33 | Every range asks for a positive number of days. |
| Timeframe.TimeRangeLabel | src/components/TimeframeFilter.tsx:5-11 | The range labels; `RangesDistinct` states that distinct ranges get distinct labels, and `OptionsMatchLabels` that the options use them. |
| Timeframe.EveryRangeOnce | src/components/TimeframeFilter.tsx:3-11 | The declared key order lists each range exactly once. |
| Timeframe.DaysIncrease | src/components/TimeframeFilter.tsx:20-33 | Longer ranges in dropdown order ask for strictly more days. |
| Timeframe.RangesDistinct | src/components/TimeframeFilter.tsx:5-33 | Distinct ranges have distinct day counts, keys and labels. |
| Timeframe.OptionsMatchLabels | src/components/TimeframeFilter.tsx:13-18 | Five options in the labels' key order, each labelled from them. |
| Timeframe.OneOptionPerRange | src/components/TimeframeFilter.tsx:13-18 | Each range has exactly one option. |

## Left out

- **File access.** The file-system calls (`showDirectoryPicker`,
  `queryPermission`, `requestPermission`, `getFileHandle`,
  `createWritable`), and JSON encoding and parsing, are replaced by the
  `RemoteFile` value and the `Pick`, `granted` and `fault` parameters.
  `isFileSystemAccessSupported` is the `isSupported` flag of the state.
- **Concurrency.** `Promise.all` and the `async` interleaving of the
  callbacks are not modelled. Each callback runs as one sequence of
  steps. The `isSyncing` guard is modelled as a flag, and two
  overlapping syncs are not.
- **Failed imports.** A failed `importAllData` is modelled as leaving
  the store unchanged. In the source, some of the puts may already have
  been committed.
- **Time and dates.** ISO timestamps are integers, with date parsing
  left out. So are NaN from an unparsable date, the local-storage
  marker's empty string (treated like a missing marker), and clock
  monotonicity (`now` is any integer).
- **Date comparison.** Dates are compared as strings, by character code
  order. The chart's sort compares `getTime()`, which agrees with it for
  ISO date strings. Code-unit order for non-ASCII text is not modelled.
- **Floating point.** Numbers are exact reals. Finishing times and gains
  are the exact values, without binary rounding. Whether a table cell
  rounds to 60 s is not established.
- **Rendering.** Chart rendering, emoji, colours, `toLocaleDateString`
  and `toFixed` formatting are not modelled. The chart's
  `formattedDate` field is left out.
- **Errors outside the path.** The `saveUserProfile(...).catch` logging
  and `console` output are left out. The `try/catch` of
  `loadInitialData` is modelled only as its success path; loading ends
  either way.
- **The stats store and the `stats` singleton.** The `stats` singleton
  record and `loadStats`/`saveStats` in `db.ts` are not used by the core
  and are not modelled. The `getDB` upgrade logic is not modelled either.
- **Pass-throughs.** `loadAllUserActivities` and
  `loadAllUserStatsEntries` only return `Database.LoadAllActivities` and
  `Database.LoadAllStatsEntries`. They have no further row.
- **Optional limits.** `loadMoreActivities(limit = 50)`'s default
  parameter is not a separate member; callers pass `PageSize`.
  `loadActivities`' undefined limit is the limit 0.
- UserData.UserDataProvider.AddActivity: the count grows by one even
  when `a.id` is already stored, and `DeleteActivity`/`DeleteStatsEntry`
  decrement even for an absent id. This is what the source does;
  `UserData.CountTracksStore` says when that matches the store.
- Strength.GroupByDate: the source mutates the `dateData` record in
  place inside the `Map`; the model rebuilds the record with
  `PushWeights` and stores the copy.
- Order.SortByDate: `Array.prototype.sort` is modelled as an insertion
  sort by date string; `getTime()` parsing is not. Its contract states
  the permutation and the date order only, not the relative order of
  records with equal dates (the order JavaScript's stable sort keeps).
  No result of the model depends on that order: chart points have
  distinct dates, and a group's first and last weights take the maximum
  over every activity of the day.
- PaceChart.RemRealBounds: stated only for the two divisors the table
  uses, 60 and 3600, and non-negative times; the negative branch of
  `RemReal` is never reached by the table.
- PaceChart.SecondsRoundTrip: needs a normal pace (minutes ≥ 0, 0 ≤
  seconds < 60); `PaceChart.NegativePaceDoesNotRoundTrip` shows why.
- WeeklySchedule.ToggleActivity: requires the day to be present, which
  the `Schedule` type guarantees for all seven days.
- Strength.MuscleGroupGains: the emoji of each group is not modelled, and
  the `label` field is named `groupName` (and the dropdown's
  `labelText` in `Timeframe`) because `label` is reserved in Dafny.
