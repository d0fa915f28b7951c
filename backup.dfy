/** The `Backup` object: its chain name, together with the disk it works on
    and the record of the dump tool's invocations, changed step by step by
    its methods. Each method is proved to do what the matching function of
    `Procedures` describes. */
module BackupJob {
  import opened Timestamps
  import opened Outcomes
  import opened Layout
  import opened Storage
  import opened Continuity
  import opened Procedures

  class Backup {
    const config: Config
    var backupName: Option<string>
    var disk: Disk
    var dumps: seq<seq<string>>

    function State(): World
      reads this
    {
      World(backupName, disk, dumps)
    }

    /** Without a (truthy) chain name the name comes from the global state file. */
    constructor (config: Config, disk: Disk, backupName: Option<string>)
      ensures this.config == config && this.disk == disk && dumps == []
      ensures this.backupName == if Known(backupName) then backupName else ReadPointer(disk, config.globalStateFile)
    {
      this.config := config;
      this.disk := disk;
      this.dumps := [];
      if Known(backupName) {
        this.backupName := backupName;
      } else {
        this.backupName := ReadPointer(disk, config.globalStateFile);
      }
    }

    /** Overwrites the chain's state file with `{position}`. */
    method WriteStateFile(position: Timestamp)
      requires Known(backupName)
      modifies this
      ensures backupName == old(backupName) && dumps == old(dumps)
      ensures disk == old(disk)[StateFile(config, backupName).value := StateDoc(Some(position))]
    {
      disk := disk[StateFile(config, backupName).value := StateDoc(Some(position))];
    }

    /** Records one invocation of the dump tool. */
    method MongoDump(args: seq<string>)
      modifies this
      ensures dumps == old(dumps) + [args]
      ensures backupName == old(backupName) && disk == old(disk)
    {
      dumps := dumps + [args];
    }

    method BackupOplog(options: Options, run: OplogRun) returns (r: Result<SegmentResult>)
      modifies this
      ensures (State(), r) == OplogStep(config, old(State()), options.start, run)
    {
      var stateFile := StateFile(config, backupName);
      if stateFile.None? {
        return Failure(NoBackupSelected);
      }
      if stateFile.value !in disk {
        return Failure(NoState(backupName.value));
      }
      var backupState := ReadState(disk[stateFile.value]);
      if backupState.Failure? {
        return Failure(backupState.error);
      }
      var startAt := if options.start.Some? then options.start else backupState.value;
      if startAt.None? {
        return Failure(StartRequired);
      }

      var dumpArgs := ["--out", config.oplogDumpFolder, "--db", "local", "--collection", "oplog.rs"];
      dumpArgs := dumpArgs + ["--query", QueryFilter(startAt.value)];
      if config.compression {
        dumpArgs := dumpArgs + ["--gzip"];
      }
      assert dumpArgs == OplogDumpArgs(config, startAt.value);
      MongoDump(dumpArgs);
      if !run.resolved {
        return Failure(DumpRejected);
      }
      if run.wroteFile {
        disk := disk[config.oplogDumpFilePath := Blob];
      }
      if config.oplogDumpFilePath !in disk {
        return Failure(DumpFileMissing);
      }

      var checked := Validate(run.timestamps, startAt.value, config.reading);
      if checked.Failure? {
        return Failure(checked.error);
      }
      var c := checked.value;
      if c.entries == 1 {
        disk := RemoveTree(disk, config.oplogDumpFolder);
        return Success(SegmentResult(c.entries, c.first, c.last, true, None));
      }
      var folder := BackupFolder(config, backupName).value;
      var fullPath := Join(folder, OplogFileName(c.first, c.last, config.compression));
      if folder !in disk {
        disk := disk[folder := Dir];
      }
      disk := Move(disk, config.oplogDumpFilePath, fullPath);
      WriteStateFile(c.last);
      disk := RemoveTree(disk, config.oplogDumpFolder);
      r := Success(SegmentResult(c.entries, c.first, c.last, false, Some(fullPath)));
    }

    method BackupFull(anchor: Option<Timestamp>, dump: FullDump) returns (r: Result<FullResult>)
      modifies this
      ensures (State(), r) == FullStep(config, old(State()), anchor, dump)
    {
      if anchor.None? {
        return Failure(EmptyOplog);
      }
      var position := anchor.value;
      backupName := Some(BackupName(position));
      var backupFolder := BackupFolder(config, backupName).value;
      if backupFolder in disk {
        return Failure(FolderExists(backupFolder));
      }
      var dumpFolder := Join(backupFolder, "dump");
      disk := disk[backupFolder := Dir];
      if dumpFolder !in disk {
        disk := disk[dumpFolder := Dir];
      }
      var dumpArgs := ["--out", dumpFolder];
      if config.compression {
        dumpArgs := dumpArgs + ["--gzip"];
      }
      assert dumpArgs == FullDumpArgs(dumpFolder, config.compression);
      MongoDump(dumpArgs);
      match dump
      case FullDumpRejected =>
        return Failure(DumpRejected);
      case FullDumpDone(folderRemains) =>
        if !folderRemains {
          disk := disk - {backupFolder};
          return Failure(FullBackupFailed);
        }
        disk := disk[Join(backupFolder, "debug.log") := Blob];
        WriteStateFile(position);
        r := Success(FullResult(position, BackupName(position)));
    }

    /** The options are accepted and, as in the source, never passed on. */
    method Perform(mode: Mode, options: Options, anchor: Option<Timestamp>, dump: FullDump,
                   run: OplogRun, syncOk: bool) returns (r: Result<Report>)
      modifies this
      ensures (State(), r) == PerformStep(config, old(State()), mode, anchor, dump, run, syncOk)
      decreases if mode == Oplog then 0 else 1
    {
      if config.backupDir !in disk {
        disk := disk[config.backupDir := Dir];
      }
      var haveBackup := Known(backupName);
      var m := mode;
      if m == Auto {
        m := if haveBackup then Oplog else Full;
      }
      if m == Oplog {
        if !haveBackup {
          return Failure(UnknownBackupPosition);
        }
        var result := BackupOplog(Options(None), run);
        if result.Failure? {
          return Failure(result.error);
        }
        if !syncOk {
          return Failure(SyncFailed);
        }
        return Success(Incremental(result.value));
      }
      if m == Full {
        var result := BackupFull(anchor, dump);
        if result.Failure? {
          return Failure(result.error);
        }
        disk := disk[config.globalStateFile := GlobalDoc(Some(result.value.backup))];
        var incremental := Perform(Oplog, options, anchor, dump, run, syncOk);
        if incremental.Failure? {
          return Failure(incremental.error);
        }
        return Success(FullThenIncremental(result.value, incremental.value.segment));
      }
      return Success(NoAction);
    }
  }
}
