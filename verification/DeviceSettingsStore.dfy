/** class DeviceSettingsStore of src/device/device_settings_store.cpp: settings in memory and on disk. */
module DeviceSettingsStore {
  import opened Options

  datatype Values = Values(personDetection: bool, personSensitivity: string, statusLed: bool, imageRotate180: bool,
                           recordingQuality: string, timezone: string)

  datatype TimeSync = TimeSync(state: string, lastSuccessAt: Option<string>, lastOffsetMs: Option<int>)

  datatype Snapshot = Snapshot(version: int, settings: Values, timeSync: TimeSync, updatedAt: string)

  predicate IsSensitivity(s: string) { s in {"low", "medium", "high"} }

  predicate IsQuality(s: string) { s in {"360p", "720p", "1080p", "1440p"} }

  predicate AreValid(v: Values) { IsSensitivity(v.personSensitivity) && IsQuality(v.recordingQuality) && v.timezone != "" }

  /** What the file system answers while a snapshot is written to the temporary file and put in place. */
  datatype Disk = Disk(opens: bool, writes: bool, flushes: bool, closes: bool, renames: bool) {
    predicate Works() { opens && writes && flushes && closes && renames }
  }

  /** What a file holds: nothing or a part of a snapshot, or all of it. */
  datatype Content = Torn | Whole(snapshot: Snapshot)

  class DeviceSettingsStore {
    var snapshot: Snapshot
    /** settings.json, and settings.json.tmp while it exists. */
    var file: Content
    var temporary: Option<Content>

    /** The disk holds the whole of the settings in memory, and they are valid. */
    ghost predicate Valid()
      reads this
    {
      file == Whole(snapshot) && AreValid(snapshot.settings)
    }

    /** initialize, from a settings file that parsed. */
    constructor (loaded: Snapshot)
      requires AreValid(loaded.settings)
      ensures Valid() && snapshot == loaded
    {
      snapshot, file, temporary := loaded, Whole(loaded), None;
    }

    /** persist_locked: the target is replaced by one rename of a file known to be whole, or not at all. The
        temporary file is torn until it has been written, flushed and closed. */
    method PersistLocked(next: Snapshot, disk: Disk) returns (ok: bool)
      modifies this`file, this`temporary
      ensures ok == disk.Works()
      ensures ok <==> disk.opens && disk.writes && disk.flushes && disk.closes && disk.renames
      ensures file == if ok then Whole(next) else old(file)
      ensures temporary == if disk.opens then None else old(temporary)
    {
      if !disk.opens {
        return false;
      }
      temporary := Some(Torn);
      var flushed := disk.writes && disk.flushes;
      if !flushed || !disk.closes {
        temporary := None;
        return false;
      }
      temporary := Some(Whole(next));
      if !disk.renames {
        temporary := None;
        return false;
      }
      file, temporary := temporary.value, None;
      return true;
    }

    method ReplaceSettings(settings: Values, now: string, disk: Disk) returns (ok: bool)
      requires Valid()
      modifies this
      ensures Valid() && ok == (AreValid(settings) && disk.Works())
      ensures ok <==>
        && disk.opens && disk.writes && disk.flushes && disk.closes && disk.renames
        && settings.personSensitivity in {"low", "medium", "high"} && settings.timezone != ""
        && settings.recordingQuality in {"360p", "720p", "1080p", "1440p"}
      ensures snapshot == if ok then old(snapshot).(settings := settings, updatedAt := now) else old(snapshot)
    {
      if !AreValid(settings) {
        return false;
      }
      var next := snapshot.(settings := settings, updatedAt := now);
      ok := PersistLocked(next, disk);
      if ok {
        snapshot := next;
      }
    }

    method UpdateTimeSync(timeSync: TimeSync, now: string, disk: Disk) returns (ok: bool)
      requires Valid()
      modifies this
      ensures Valid() && ok == disk.Works()
      ensures snapshot == if ok then old(snapshot).(timeSync := timeSync, updatedAt := now) else old(snapshot)
    {
      var next := snapshot.(timeSync := timeSync, updatedAt := now);
      ok := PersistLocked(next, disk);
      if ok {
        snapshot := next;
      }
    }
  }
}
