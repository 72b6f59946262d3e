/**
 * The `useBackup` hook of src/hooks/useBackup.ts as an object whose
 * methods update its state step by step, in the order the hook's
 * callbacks do.  Each method is proved to produce exactly the new world
 * that the matching function of module `Sync` computes from the old one,
 * so every property proved there holds of the hook.
 *
 * The backup folder's one file is the field `remote`, the `localStorage`
 * marker the field `marker`, and the local store a `Database`.  An
 * exception thrown inside a `try` is announced by a `fault` parameter.
 */
module Backup {
  import opened Wrappers
  import opened Domain
  import opened Store
  import Sync

  class BackupHook {
    const db: Database
    var state: Sync.BackupState
    var folder: Option<FolderHandle>
    var permission: Sync.Permission
    var remote: Sync.RemoteFile
    var marker: Option<int>
    var isSyncing: bool
    var restored: nat

    /** Everything the hook can observe or change. */
    function World(): Sync.World
      reads this, db
    {
      Sync.World(state, folder, permission, remote, marker, isSyncing, db.Contents(), restored)
    }

    ghost predicate Valid()
      reads this, db
    {
      db.Valid()
    }

    /** The hook's first render: loading, idle, no folder, and the marker left by an earlier session. */
    constructor (db: Database, isSupported: bool, marker: Option<int>)
      ensures this.db == db
      ensures World() == Sync.World(
        Sync.BackupState(isSupported, false, None, None, true, None, Sync.Idle),
        None, Sync.Prompt, Sync.Missing, marker, false, db.Contents(), 0)
    {
      this.db := db;
      state := Sync.BackupState(isSupported, false, None, None, true, None, Sync.Idle);
      folder := None;
      permission := Sync.Prompt;
      remote := Sync.Missing;
      this.marker := marker;
      isSyncing := false;
      restored := 0;
    }

    /** `readBackupFile`: a missing or unparsable file reads as no backup. */
    method ReadBackupFile() returns (b: Option<Sync.Snapshot>)
      ensures b == Sync.BackupOf(remote)
      ensures b.Some? <==> remote.Stored?
    {
      match remote
      case Stored(s) => b := Some(s);
      case Missing => b := None;
      case Unreadable => b := None;
    }

    /** `exportAllData`: the profile and the four collections read in full. */
    method ExportAllData() returns (data: Sync.BackupData)
      ensures data == Sync.ExportAll(db.Contents())
    {
      var userProfile := db.LoadUserProfile();
      var activities := db.LoadAllActivities();
      var statsEntries := db.LoadAllStatsEntries();
      var dietEntries := db.LoadAllDietEntries();
      data := Sync.BackupData(userProfile, activities, statsEntries, dietEntries);
    }

    /** `importAllData`: save the profile when present and each non-empty collection. */
    method ImportAllData(data: Sync.BackupData)
      requires Valid()
      modifies db
      ensures Valid()
      ensures db.Contents() == Sync.ImportAll(old(db.Contents()), data)
    {
      if data.userProfile.Some? {
        db.SaveUserProfile(data.userProfile.value);
      }
      if |data.activities| > 0 {
        db.SaveActivities(data.activities);
      }
      if |data.statsEntries| > 0 {
        db.SaveStatsEntries(data.statsEntries);
      }
      if |data.dietEntries| > 0 {
        db.SaveDietEntries(data.dietEntries);
      }
    }

    /** `performBackup`: write a version-1 snapshot stamped `now`, then advance the marker. */
    method PerformBackup(now: int)
      modifies this
      ensures World() == Sync.PerformBackup(old(World()), now)
    {
      var data := ExportAllData();
      remote := Sync.Stored(Sync.Snapshot(Sync.SnapshotVersion, now, data));
      marker := Some(now);
      state := state.(lastBackupDate := Some(now), syncStatus := Sync.Synced);
    }

    /** The pull: import a snapshot, adopt its timestamp, call `onDataRestored`. */
    method RestoreFrom(s: Sync.Snapshot)
      requires Valid()
      modifies this, db
      ensures Valid()
      ensures World() == Sync.Restore(old(World()), s)
    {
      ImportAllData(s.data);
      marker := Some(s.lastModified);
      state := state.(lastBackupDate := Some(s.lastModified), syncStatus := Sync.Synced);
      restored := restored + 1;
    }

    /** A `catch` that reports the error and marks the status failed. */
    method Fail(message: string)
      modifies this
      ensures World() == Sync.Failed(old(World()), message)
    {
      state := state.(syncStatus := Sync.Error, error := Some(message));
    }

    /** `syncBackup`: the automatic reconciliation, guarded against running twice at once. */
    method SyncBackup(now: int, granted: bool, fault: Sync.Fault)
      requires Valid()
      modifies this, db
      ensures Valid()
      ensures World() == Sync.SyncBackup(old(World()), now, granted, fault)
    {
      if folder.None? || isSyncing {
        return;
      }
      isSyncing := true;
      if fault.PermissionThrows? {
        Fail("Sync failed: " + fault.message);
        isSyncing := false;
        return;
      }
      if permission != Sync.Granted {
        if !granted {
          state := state.(hasFolderAccess := false, error := Some(Sync.RevokedMessage));
          isSyncing := false;
          return;
        }
        permission := Sync.Granted;
      }
      state := state.(syncStatus := Sync.Syncing, error := None);
      var backup := ReadBackupFile();
      if backup.Some? {
        var backupTime := backup.value.lastModified;
        var localTime := if marker.Some? then marker.value else 0;
        if backupTime == localTime {
          state := state.(lastBackupDate := Some(backupTime), syncStatus := Sync.Synced);
          isSyncing := false;
          return;
        }
        if backupTime > localTime {
          if fault.TransferThrows? {
            Fail("Sync failed: " + fault.message);
          } else {
            RestoreFrom(backup.value);
          }
          isSyncing := false;
          return;
        }
      }
      if fault.TransferThrows? {
        Fail("Sync failed: " + fault.message);
      } else {
        PerformBackup(now);
      }
      isSyncing := false;
    }

    /** `selectBackupFolder`: let the user pick a folder, remember it, and reconcile with its file. */
    method SelectBackupFolder(pick: Sync.Pick, now: int, fault: Option<string>)
      requires Valid()
      modifies this, db
      ensures Valid()
      ensures World() == Sync.SelectBackupFolder(old(World()), pick, now, fault)
    {
      if !state.isSupported {
        state := state.(error := Some(Sync.UnsupportedMessage));
        return;
      }
      state := state.(isLoading := true, error := None);
      match pick
      case Cancelled =>
        state := state.(isLoading := false);
      case PickFailed(m) =>
        state := state.(isLoading := false, error := Some("Failed to select folder: " + m));
      case Picked(h, file) =>
        db.StoreFolderHandle(h);
        folder, permission, remote := Some(h), Sync.Granted, file;
        state := state.(hasFolderAccess := true, folderName := Some(h.name), isLoading := false);
        var existing := ReadBackupFile();
        if existing.Some? {
          var backupTime := existing.value.lastModified;
          var localTime := if marker.Some? then marker.value else 0;
          if backupTime == localTime {
            state := state.(lastBackupDate := Some(backupTime), syncStatus := Sync.Synced);
            return;
          }
          if backupTime > localTime {
            state := state.(syncStatus := Sync.Syncing);
            if fault.Some? {
              state := state.(isLoading := false, error := Some("Failed to select folder: " + fault.value));
            } else {
              RestoreFrom(existing.value);
            }
            return;
          }
        }
        if fault.Some? {
          state := state.(isLoading := false, error := Some("Failed to select folder: " + fault.value));
        } else {
          PerformBackup(now);
        }
    }

    /** `removeBackupFolder`: forget the stored handle and the status that came from it. */
    method RemoveBackupFolder(fault: Option<string>)
      requires Valid()
      modifies this, db
      ensures Valid()
      ensures World() == Sync.RemoveBackupFolder(old(World()), fault)
    {
      if fault.Some? {
        state := state.(error := Some("Failed to remove folder: " + fault.value));
        return;
      }
      db.RemoveStoredFolderHandle();
      folder := None;
      state := state.(hasFolderAccess := false, folderName := None, lastBackupDate := None, error := None);
    }

    /** `manualBackup`: push regardless of the timestamps. */
    method ManualBackup(now: int, fault: Option<string>)
      modifies this
      ensures World() == Sync.ManualBackup(old(World()), now, fault)
    {
      if folder.None? {
        state := state.(error := Some(Sync.NoFolderMessage));
        return;
      }
      state := state.(syncStatus := Sync.Syncing, error := None);
      if fault.Some? {
        Fail("Backup failed: " + fault.value);
      } else {
        PerformBackup(now);
      }
    }

    /** `manualRestore`: pull regardless of the timestamps. */
    method ManualRestore(fault: Option<string>)
      requires Valid()
      modifies this, db
      ensures Valid()
      ensures World() == Sync.ManualRestore(old(World()), fault)
    {
      if folder.None? {
        state := state.(error := Some(Sync.NoFolderMessage));
        return;
      }
      state := state.(syncStatus := Sync.Syncing, error := None);
      var backup := ReadBackupFile();
      if backup.None? {
        Fail(Sync.NoFileMessage);
        return;
      }
      if fault.Some? {
        Fail("Restore failed: " + fault.value);
      } else {
        RestoreFrom(backup.value);
      }
    }

    /** `updateLocalModified`: stamp the marker after a local change. */
    method UpdateLocalModified(now: int)
      modifies this
      ensures World() == Sync.UpdateLocalModified(old(World()), now)
    {
      marker := Some(now);
    }

    /** The start-up effect: reuse a stored folder whose permission is still granted. */
    method Init(storedPermission: Sync.Permission, file: Sync.RemoteFile)
      modifies this
      ensures World() == Sync.Initialize(old(World()), storedPermission, file)
    {
      if !state.isSupported {
        state := state.(isLoading := false);
        return;
      }
      var stored := db.GetStoredFolderHandle();
      if stored.Some? && storedPermission == Sync.Granted {
        folder, permission, remote := stored, Sync.Granted, file;
        var backup := ReadBackupFile();
        var lastBackupDate := if backup.Some? then Some(backup.value.lastModified) else None;
        state := state.(hasFolderAccess := true, folderName := Some(stored.value.name),
                        lastBackupDate := lastBackupDate, isLoading := false);
        return;
      }
      state := state.(isLoading := false);
    }
  }
}
