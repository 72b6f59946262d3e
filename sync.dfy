/**
 * The backup/sync decision engine of src/hooks/useBackup.ts as a function
 * of the whole observable state: the hook's status record, the selected
 * folder with its permission and its one backup file, the local
 * last-modified marker kept in `localStorage`, the in-flight flag, the
 * local store, and how often the `onDataRestored` callback fired.
 *
 * Timestamps are integers (milliseconds since the epoch, what the code
 * obtains with `new Date(...).getTime()`); a missing marker counts as 0.
 * The clock, the user's answer to a permission prompt, the folder picker's
 * outcome and the failure of an I/O step are parameters.
 */
module Sync {
  import opened Wrappers
  import opened Order
  import opened Domain
  import opened Store

  datatype Status = Idle | Syncing | Synced | Error

  /** The status record the hook exposes. */
  datatype BackupState = BackupState(
    isSupported: bool,
    hasFolderAccess: bool,
    folderName: Option<string>,
    lastBackupDate: Option<int>,
    isLoading: bool,
    error: Option<string>,
    syncStatus: Status)

  /** The exported collections. */
  datatype BackupData = BackupData(
    userProfile: Option<UserProfile>,
    activities: seq<Activity>,
    statsEntries: seq<StatsEntry>,
    dietEntries: seq<DietEntry>)

  /** The backup file's document. */
  datatype Snapshot = Snapshot(version: int, lastModified: int, data: BackupData)

  /** What the folder holds under the backup file name. */
  datatype RemoteFile = Missing | Unreadable | Stored(snapshot: Snapshot)

  datatype Permission = Granted | Prompt | Denied

  datatype World = World(
    state: BackupState,
    folder: Option<FolderHandle>,
    permission: Permission,
    remote: RemoteFile,
    marker: Option<int>,
    isSyncing: bool,
    local: LocalData,
    restored: nat)

  /** An exception thrown inside `syncBackup`'s `try`: by the permission calls or by the import/export/write. */
  datatype Fault = NoFault | PermissionThrows(message: string) | TransferThrows(message: string)

  /** The outcome of the directory picker. */
  datatype Pick = Cancelled | PickFailed(message: string) | Picked(handle: FolderHandle, file: RemoteFile)

  const SnapshotVersion := 1

  const RevokedMessage := "Permission to backup folder was revoked"
  const NoFolderMessage := "No backup folder selected"
  const NoFileMessage := "No backup file found"
  const UnsupportedMessage := "File System Access API is not supported in this browser"

  /** `readBackupFile`: a missing or unreadable file both read as no backup. */
  function BackupOf(f: RemoteFile): (r: Option<Snapshot>)
    ensures r.Some? <==> f.Stored?
    ensures f.Stored? ==> r.value == f.snapshot
  {
    match f
    case Stored(s) => Some(s)
    case _ => None
  }

  /** The local marker's time; a marker never written counts as 0. */
  function LocalTime(marker: Option<int>): int
  {
    marker.GetOr(0)
  }

  datatype Action = AlreadySynced | Pull | Push

  /**
   * The one timestamp comparison that both `syncBackup` and
   * `selectBackupFolder` make.
   */
  function Decide(backup: Option<Snapshot>, marker: Option<int>): (a: Action)
    ensures a == AlreadySynced <==> backup.Some? && backup.value.lastModified == LocalTime(marker)
    ensures a == Pull <==> backup.Some? && backup.value.lastModified > LocalTime(marker)
    ensures a == Push <==> backup.None? || backup.value.lastModified < LocalTime(marker)
  {
    match backup
    case None => Push
    case Some(s) =>
      if s.lastModified == LocalTime(marker) then AlreadySynced
      else if s.lastModified > LocalTime(marker) then Pull
      else Push
  }

  /** `exportAllData`: the profile and every collection read in full, in `by-date` order. */
  function ExportAll(d: LocalData): BackupData
  {
    BackupData(
      d.profile,
      Ascending(d.activities, ActivityDate),
      Ascending(d.statsEntries, StatsDate),
      Ascending(d.dietEntries, DietDate))
  }

  /**
   * `importAllData`: the profile is written when present, each collection
   * is upserted when non-empty; nothing is deleted.
   */
  function ImportAll(d: LocalData, data: BackupData): LocalData
  {
    d.(profile := if data.userProfile.Some? then data.userProfile else d.profile,
       activities := if |data.activities| > 0 then UpsertAll(d.activities, data.activities, ActivityId) else d.activities,
       statsEntries := if |data.statsEntries| > 0 then UpsertAll(d.statsEntries, data.statsEntries, StatsId) else d.statsEntries,
       dietEntries := if |data.dietEntries| > 0 then UpsertAll(d.dietEntries, data.dietEntries, DietId) else d.dietEntries)
  }

  /** `performBackup`: write a fresh snapshot of the full export, then advance the marker. */
  function PerformBackup(w: World, now: int): World
  {
    w.(remote := Stored(Snapshot(SnapshotVersion, now, ExportAll(w.local))),
       marker := Some(now),
       state := w.state.(lastBackupDate := Some(now), syncStatus := Synced))
  }

  /** The pull branch: import the snapshot, adopt its timestamp, notify the caller. */
  function Restore(w: World, s: Snapshot): World
  {
    w.(local := ImportAll(w.local, s.data),
       marker := Some(s.lastModified),
       state := w.state.(lastBackupDate := Some(s.lastModified), syncStatus := Synced),
       restored := w.restored + 1)
  }

  /** The `catch` of `syncBackup`, `manualBackup` and `manualRestore`. */
  function Failed(w: World, message: string): World
  {
    w.(state := w.state.(syncStatus := Error, error := Some(message)))
  }

  /** `syncBackup` (the automatic reconciliation). */
  function SyncBackup(w: World, now: int, granted: bool, fault: Fault): World
  {
    if w.folder.None? || w.isSyncing then w
    else if fault.PermissionThrows? then Failed(w, "Sync failed: " + fault.message)
    else if w.permission != Granted && !granted then
      w.(state := w.state.(hasFolderAccess := false, error := Some(RevokedMessage)))
    else
      var w1 := w.(permission := Granted, state := w.state.(syncStatus := Syncing, error := None));
      var backup := BackupOf(w.remote);
      match Decide(backup, w.marker)
      case AlreadySynced =>
        w1.(state := w1.state.(lastBackupDate := Some(backup.value.lastModified), syncStatus := Synced))
      case Pull =>
        if fault.TransferThrows? then Failed(w1, "Sync failed: " + fault.message)
        else Restore(w1, backup.value)
      case Push =>
        if fault.TransferThrows? then Failed(w1, "Sync failed: " + fault.message)
        else PerformBackup(w1, now)
  }

  /** `selectBackupFolder`: pick a folder, remember it, then reconcile with its backup file. */
  function SelectBackupFolder(w: World, pick: Pick, now: int, fault: Option<string>): World
  {
    if !w.state.isSupported then w.(state := w.state.(error := Some(UnsupportedMessage)))
    else
      var w0 := w.(state := w.state.(isLoading := true, error := None));
      match pick
      case Cancelled => w0.(state := w0.state.(isLoading := false))
      case PickFailed(m) => w0.(state := w0.state.(isLoading := false, error := Some("Failed to select folder: " + m)))
      case Picked(h, file) =>
        var w1 := w0.(local := w0.local.(folderHandle := Some(h)),
                      folder := Some(h), permission := Granted, remote := file,
                      state := w0.state.(hasFolderAccess := true, folderName := Some(h.name), isLoading := false));
        var backup := BackupOf(file);
        match Decide(backup, w.marker)
        case AlreadySynced =>
          w1.(state := w1.state.(lastBackupDate := Some(backup.value.lastModified), syncStatus := Synced))
        case Pull =>
          var w2 := w1.(state := w1.state.(syncStatus := Syncing));
          if fault.Some? then w2.(state := w2.state.(isLoading := false, error := Some("Failed to select folder: " + fault.value)))
          else Restore(w2, backup.value)
        case Push =>
          if fault.Some? then w1.(state := w1.state.(isLoading := false, error := Some("Failed to select folder: " + fault.value)))
          else PerformBackup(w1, now)
  }

  /** `removeBackupFolder`: forget the folder and the status that came from it. */
  function RemoveBackupFolder(w: World, fault: Option<string>): World
  {
    if fault.Some? then w.(state := w.state.(error := Some("Failed to remove folder: " + fault.value)))
    else
      w.(local := w.local.(folderHandle := None), folder := None,
         state := w.state.(hasFolderAccess := false, folderName := None, lastBackupDate := None, error := None))
  }

  /** `manualBackup`: push unconditionally. */
  function ManualBackup(w: World, now: int, fault: Option<string>): World
  {
    if w.folder.None? then w.(state := w.state.(error := Some(NoFolderMessage)))
    else
      var w1 := w.(state := w.state.(syncStatus := Syncing, error := None));
      if fault.Some? then Failed(w1, "Backup failed: " + fault.value)
      else PerformBackup(w1, now)
  }

  /** `manualRestore`: pull unconditionally. */
  function ManualRestore(w: World, fault: Option<string>): World
  {
    if w.folder.None? then w.(state := w.state.(error := Some(NoFolderMessage)))
    else
      var w1 := w.(state := w.state.(syncStatus := Syncing, error := None));
      match BackupOf(w.remote)
      case None => Failed(w1, NoFileMessage)
      case Some(s) =>
        if fault.Some? then Failed(w1, "Restore failed: " + fault.value)
        else Restore(w1, s)
  }

  /** `updateLocalModified`: stamp the marker after a local change. */
  function UpdateLocalModified(w: World, now: int): World
  {
    w.(marker := Some(now))
  }

  /**
   * The start-up effect: reuse the stored folder when its permission is
   * still granted, reading the backup file's date; never prompt.
   */
  function Initialize(w: World, storedPermission: Permission, file: RemoteFile): World
  {
    if !w.state.isSupported || w.local.folderHandle.None? || storedPermission != Granted then
      w.(state := w.state.(isLoading := false))
    else
      var h := w.local.folderHandle.value;
      var backup := BackupOf(file);
      w.(folder := Some(h), permission := Granted, remote := file,
         state := w.state.(hasFolderAccess := true, folderName := Some(h.name),
                           lastBackupDate := if backup.Some? then Some(backup.value.lastModified) else None,
                           isLoading := false))
  }

  // ---------------------------------------------------------------------
  // Properties

  /** Without a folder, or while a reconciliation is in flight, `syncBackup` changes nothing at all. */
  lemma SyncSkipped(w: World, now: int, granted: bool, fault: Fault)
    requires w.folder.None? || w.isSyncing
    ensures SyncBackup(w, now, granted, fault) == w
  {
  }

  /**
   * A reconciliation that ran leaves the in-flight flag released. The
   * function never raises the flag, so this holds of it directly; the
   * guarantee with content is `Backup.BackupHook.SyncBackup`, which raises
   * the flag, clears it on every path, and ends in this function's world.
   */
  lemma SyncReleasesGuard(w: World, now: int, granted: bool, fault: Fault)
    requires w.folder.Some? && !w.isSyncing
    ensures !SyncBackup(w, now, granted, fault).isSyncing
  {
  }

  /**
   * A denied re-request: folder access is flagged lost with the "revoked"
   * message, the sync status is left alone, and no file or record is touched.
   */
  lemma SyncPermissionRevoked(w: World, now: int, fault: Fault)
    requires w.folder.Some? && !w.isSyncing && !fault.PermissionThrows?
    requires w.permission != Granted
    ensures var r := SyncBackup(w, now, false, fault);
      && r.state == w.state.(hasFolderAccess := false, error := Some(RevokedMessage))
      && r.state.syncStatus == w.state.syncStatus
      && r.remote == w.remote && r.local == w.local && r.marker == w.marker
      && r.restored == w.restored && r.folder == w.folder
  {
  }

  /** Equal timestamps: status synced, the backup's date shown, and no import, no write, no marker change. */
  lemma SyncWhenEqual(w: World, now: int, granted: bool, fault: Fault, s: Snapshot)
    requires w.folder.Some? && !w.isSyncing && !fault.PermissionThrows?
    requires w.permission == Granted || granted
    requires w.remote == Stored(s) && s.lastModified == LocalTime(w.marker)
    ensures var r := SyncBackup(w, now, granted, fault);
      && r.state.syncStatus == Synced && r.state.error == None
      && r.state.lastBackupDate == Some(s.lastModified)
      && r.local == w.local && r.remote == w.remote && r.marker == w.marker
      && r.restored == w.restored
  {
  }

  /** A newer backup is imported, its timestamp adopted, and the caller notified exactly once. */
  lemma SyncPullsNewer(w: World, now: int, granted: bool, s: Snapshot)
    requires w.folder.Some? && !w.isSyncing
    requires w.permission == Granted || granted
    requires w.remote == Stored(s) && s.lastModified > LocalTime(w.marker)
    ensures var r := SyncBackup(w, now, granted, NoFault);
      && r.local == ImportAll(w.local, s.data)
      && r.marker == Some(s.lastModified)
      && r.state.lastBackupDate == Some(s.lastModified)
      && r.state.syncStatus == Synced && r.state.error == None
      && r.restored == w.restored + 1
      && r.remote == w.remote
  {
  }

  /**
   * Newer local data, or no readable backup: a version-1 snapshot of the
   * full export stamped `now` is written, and marker and shown date become `now`.
   */
  lemma SyncPushesOtherwise(w: World, now: int, granted: bool)
    requires w.folder.Some? && !w.isSyncing
    requires w.permission == Granted || granted
    requires !w.remote.Stored? || w.remote.snapshot.lastModified < LocalTime(w.marker)
    ensures var r := SyncBackup(w, now, granted, NoFault);
      && r.remote == Stored(Snapshot(1, now, ExportAll(w.local)))
      && r.marker == Some(now)
      && r.state.lastBackupDate == Some(now)
      && r.state.syncStatus == Synced && r.state.error == None
      && r.local == w.local && r.restored == w.restored
  {
  }

  /** A permission query that throws is caught like any other failure: nothing but the status and message changes. */
  lemma SyncPermissionFailureKeepsState(w: World, now: int, granted: bool, message: string)
    requires w.folder.Some? && !w.isSyncing
    ensures var r := SyncBackup(w, now, granted, PermissionThrows(message));
      && r.state.syncStatus == Error
      && r.state.error == Some("Sync failed: " + message)
      && r.state.lastBackupDate == w.state.lastBackupDate
      && r.state.hasFolderAccess == w.state.hasFolderAccess
      && r.permission == w.permission
      && r.marker == w.marker && r.local == w.local && r.remote == w.remote
      && r.restored == w.restored
  {
  }

  /** A failed import or write is reported, and the previous backup date, marker, data and file survive. */
  lemma SyncFailureKeepsState(w: World, now: int, granted: bool, message: string)
    requires w.folder.Some? && !w.isSyncing
    requires w.permission == Granted || granted
    requires Decide(BackupOf(w.remote), w.marker) != AlreadySynced
    ensures var r := SyncBackup(w, now, granted, TransferThrows(message));
      && r.state.syncStatus == Error
      && r.state.error == Some("Sync failed: " + message)
      && r.state.lastBackupDate == w.state.lastBackupDate
      && r.marker == w.marker && r.local == w.local && r.remote == w.remote
      && r.restored == w.restored
  {
  }

  /**
   * Reconciling twice in a row: whatever the first run did, the second finds
   * the timestamps equal and changes neither data, file nor marker.
   */
  lemma {:induction false} SyncIdempotent(w: World, now: int, granted: bool, now2: int, granted2: bool, fault2: Fault)
    requires w.folder.Some? && !w.isSyncing
    requires w.permission == Granted || granted
    requires !fault2.PermissionThrows?
    ensures var r1 := SyncBackup(w, now, granted, NoFault);
      var r2 := SyncBackup(r1, now2, granted2, fault2);
      && r1.state.syncStatus == Synced
      && r2.state.syncStatus == Synced
      && r2.local == r1.local && r2.remote == r1.remote && r2.marker == r1.marker
      && r2.restored == r1.restored
      && r2 == r1
  {
    var r1 := SyncBackup(w, now, granted, NoFault);
    assert && r1.remote.Stored? && LocalTime(r1.marker) == r1.remote.snapshot.lastModified
           && r1.state.lastBackupDate == Some(r1.remote.snapshot.lastModified)
           && r1.state.error == None by {
      match Decide(BackupOf(w.remote), w.marker)
      case AlreadySynced =>
        assert w.remote.Stored?;
        assert r1.marker == w.marker && r1.remote == w.remote;
        assert LocalTime(w.marker) == w.remote.snapshot.lastModified;
      case Pull =>
      case Push =>
    }
    assert r1.permission == Granted && r1.folder.Some? && !r1.isSyncing;
    SyncWhenEqual(r1, now2, granted2, fault2, r1.remote.snapshot);
  }

  /** One collection of an export, imported over `base`, overlays `base` with exactly that collection. */
  lemma ImportCollection<T>(base: map<string, T>, m: map<string, T>, id: T -> string, field: T -> string)
    requires Keyed(m, id)
    ensures (if |Ascending(m, field)| > 0 then UpsertAll(base, Ascending(m, field), id) else base) == base + m
  {
    UpsertAscending(base, m, id, field);
    AscendingContents(m, field);
    if |m| == 0 {
      assert m == map[];
      assert base + m == base;
    }
  }

  /** Reading back one's own export changes nothing: a pull right after a push is harmless. */
  lemma ImportOwnExport(d: LocalData)
    requires WellKeyed(d)
    ensures ImportAll(d, ExportAll(d)) == d
  {
    var r := ImportAll(d, ExportAll(d));
    var activities, statsEntries, dietEntries := r.activities, r.statsEntries, r.dietEntries;
    assert activities == d.activities by {
      ImportCollection(d.activities, d.activities, ActivityId, ActivityDate);
      SelfUnion(d.activities);
    }
    assert statsEntries == d.statsEntries by {
      ImportCollection(d.statsEntries, d.statsEntries, StatsId, StatsDate);
      SelfUnion(d.statsEntries);
    }
    assert dietEntries == d.dietEntries by {
      ImportCollection(d.dietEntries, d.dietEntries, DietId, DietDate);
      SelfUnion(d.dietEntries);
    }
    assert r == LocalData(d.profile, activities, statsEntries, dietEntries, d.folderHandle);
  }

  lemma SelfUnion<T>(m: map<string, T>)
    ensures m + m == m
  {
  }

  /** A device with an empty store that pulls another device's backup ends up with exactly that device's records. */
  lemma ImportIntoEmptyStore(d: LocalData, h: Option<FolderHandle>)
    requires WellKeyed(d)
    ensures ImportAll(EmptyStore.(folderHandle := h), ExportAll(d)) == d.(folderHandle := h)
  {
    var r := ImportAll(EmptyStore.(folderHandle := h), ExportAll(d));
    var activities, statsEntries, dietEntries := r.activities, r.statsEntries, r.dietEntries;
    assert activities == d.activities by {
      ImportCollection(map[], d.activities, ActivityId, ActivityDate);
      EmptyUnion(d.activities);
    }
    assert statsEntries == d.statsEntries by {
      ImportCollection(map[], d.statsEntries, StatsId, StatsDate);
      EmptyUnion(d.statsEntries);
    }
    assert dietEntries == d.dietEntries by {
      ImportCollection(map[], d.dietEntries, DietId, DietDate);
      EmptyUnion(d.dietEntries);
    }
    assert r == LocalData(d.profile, activities, statsEntries, dietEntries, h);
  }

  lemma EmptyUnion<T>(m: map<string, T>)
    ensures map[] + m == m
  {
  }

  /** Importing never deletes: every local record survives, and one that the backup lacks keeps its value. */
  lemma ImportNeverDeletes(d: LocalData, data: BackupData)
    ensures forall id :: id in d.activities ==> id in ImportAll(d, data).activities
    ensures forall id :: id in d.activities && id !in Ids(data.activities, ActivityId) ==>
      ImportAll(d, data).activities[id] == d.activities[id]
    ensures forall id :: id in d.statsEntries ==> id in ImportAll(d, data).statsEntries
    ensures forall id :: id in d.statsEntries && id !in Ids(data.statsEntries, StatsId) ==>
      ImportAll(d, data).statsEntries[id] == d.statsEntries[id]
    ensures forall id :: id in d.dietEntries ==> id in ImportAll(d, data).dietEntries
    ensures forall id :: id in d.dietEntries && id !in Ids(data.dietEntries, DietId) ==>
      ImportAll(d, data).dietEntries[id] == d.dietEntries[id]
    ensures d.profile.Some? ==> ImportAll(d, data).profile.Some?
  {
    UpsertAllKeys(d.activities, data.activities, ActivityId);
    UpsertAllKeys(d.statsEntries, data.statsEntries, StatsId);
    UpsertAllKeys(d.dietEntries, data.dietEntries, DietId);
    forall id | id in d.activities && id !in Ids(data.activities, ActivityId)
      ensures UpsertAll(d.activities, data.activities, ActivityId)[id] == d.activities[id]
    {
      UpsertAllOthers(d.activities, data.activities, ActivityId, id);
    }
    forall id | id in d.statsEntries && id !in Ids(data.statsEntries, StatsId)
      ensures UpsertAll(d.statsEntries, data.statsEntries, StatsId)[id] == d.statsEntries[id]
    {
      UpsertAllOthers(d.statsEntries, data.statsEntries, StatsId, id);
    }
    forall id | id in d.dietEntries && id !in Ids(data.dietEntries, DietId)
      ensures UpsertAll(d.dietEntries, data.dietEntries, DietId)[id] == d.dietEntries[id]
    {
      UpsertAllOthers(d.dietEntries, data.dietEntries, DietId, id);
    }
  }

  /** The pushed snapshot holds every stored activity exactly once, oldest first. */
  lemma ExportHoldsEverything(d: LocalData)
    ensures var xs := ExportAll(d).activities;
      && |xs| == |d.activities|
      && (forall a :: a in xs <==> a in d.activities.Values)
      && SortedByDate(xs, ActivityDate)
  {
    AscendingContents(d.activities, ActivityDate);
    AscendingSorted(d.activities, ActivityDate);
  }

  /** `manualBackup` pushes whatever the timestamps say. */
  lemma ManualBackupAlwaysPushes(w: World, now: int)
    requires w.folder.Some?
    ensures var r := ManualBackup(w, now, None);
      && r.remote == Stored(Snapshot(1, now, ExportAll(w.local)))
      && r.marker == Some(now) && r.state.lastBackupDate == Some(now)
      && r.state.syncStatus == Synced && r.state.error == None
      && r.local == w.local
  {
  }

  /** `manualRestore` pulls whatever the timestamps say. */
  lemma ManualRestoreAlwaysPulls(w: World, s: Snapshot)
    requires w.folder.Some? && w.remote == Stored(s)
    ensures var r := ManualRestore(w, None);
      && r.local == ImportAll(w.local, s.data)
      && r.marker == Some(s.lastModified) && r.state.lastBackupDate == Some(s.lastModified)
      && r.state.syncStatus == Synced && r.state.error == None
      && r.restored == w.restored + 1 && r.remote == w.remote
  {
  }

  /** `manualRestore` without a readable file reports it and imports nothing. */
  lemma ManualRestoreWithoutFile(w: World, fault: Option<string>)
    requires w.folder.Some? && !w.remote.Stored?
    ensures var r := ManualRestore(w, fault);
      && r.state.syncStatus == Error && r.state.error == Some(NoFileMessage)
      && r.local == w.local && r.marker == w.marker && r.restored == w.restored
  {
  }

  /** Either manual operation without a folder only reports that none is selected. */
  lemma ManualWithoutFolder(w: World, now: int, fault: Option<string>)
    requires w.folder.None?
    ensures ManualBackup(w, now, fault) == w.(state := w.state.(error := Some(NoFolderMessage)))
    ensures ManualRestore(w, fault) == w.(state := w.state.(error := Some(NoFolderMessage)))
  {
  }

  /**
   * Selecting a folder reconciles exactly as `syncBackup` would on that
   * folder with permission granted: the same data, file, marker and
   * notifications result.
   */
  lemma SelectAgreesWithSync(w: World, h: FolderHandle, file: RemoteFile, now: int)
    requires w.state.isSupported && !w.isSyncing
    ensures var r := SelectBackupFolder(w, Picked(h, file), now, None);
      var t := SyncBackup(w.(folder := Some(h), remote := file, local := w.local.(folderHandle := Some(h))), now, true, NoFault);
      && r.local == t.local && r.remote == t.remote && r.marker == t.marker
      && r.restored == t.restored && r.folder == t.folder
      && r.state.syncStatus == t.state.syncStatus && r.state.lastBackupDate == t.state.lastBackupDate
  {
  }

  /**
   * In `selectBackupFolder` a failed import leaves the status at "syncing":
   * its `catch` reports the error but does not reset the status.
   */
  lemma SelectImportFailureStaysSyncing(w: World, h: FolderHandle, s: Snapshot, now: int, message: string)
    requires w.state.isSupported && s.lastModified > LocalTime(w.marker)
    ensures var r := SelectBackupFolder(w, Picked(h, Stored(s)), now, Some(message));
      && r.state.syncStatus == Syncing
      && r.state.error == Some("Failed to select folder: " + message)
      && r.local == w.local.(folderHandle := Some(h)) && r.marker == w.marker
  {
  }

  /** A cancelled picker is not an error: nothing changes besides the loading flag, and no error is shown. */
  lemma SelectCancelled(w: World, now: int, fault: Option<string>)
    requires w.state.isSupported
    ensures SelectBackupFolder(w, Cancelled, now, fault) == w.(state := w.state.(isLoading := false, error := None))
  {
  }

  /** Removing the folder forgets it and its status, but leaves the local records, the backup file, the marker and the notifications alone. */
  lemma RemoveForgetsFolder(w: World)
    ensures var r := RemoveBackupFolder(w, None);
      && r.folder.None? && r.local.folderHandle.None?
      && !r.state.hasFolderAccess && r.state.folderName.None? && r.state.lastBackupDate.None?
      && r.local == w.local.(folderHandle := None)
      && r.remote == w.remote && r.marker == w.marker && r.restored == w.restored
  {
  }

  /** After a local change stamped later than the backup, the next reconciliation pushes. */
  lemma ChangeThenSyncPushes(w: World, now: int, later: int, granted: bool)
    requires w.folder.Some? && !w.isSyncing && (w.permission == Granted || granted)
    requires w.remote.Stored? && w.remote.snapshot.lastModified < now
    ensures SyncBackup(UpdateLocalModified(w, now), later, granted, NoFault).remote
         == Stored(Snapshot(1, later, ExportAll(w.local)))
  {
    SyncPushesOtherwise(UpdateLocalModified(w, now), later, granted);
  }

  /** Start-up restores the folder only with permission already granted, and never imports or writes. */
  lemma InitializeNeverPrompts(w: World, p: Permission, file: RemoteFile)
    ensures var r := Initialize(w, p, file);
      && (r.folder != w.folder ==> p == Granted)
      && r.local == w.local && r.marker == w.marker && !r.state.isLoading
  {
  }
}
