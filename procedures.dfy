/** The backup procedures as functions from the state before a call to the
    state after it and the call's outcome. The state is the object's chain
    name, the disk, and the trace of dump-tool invocations (one argument
    list per call). Outcomes of the collaborators that this model does not
    contain (the dump tool, the oplog reader, the latest-position query,
    the upload) are inputs. */
module Procedures {
  import opened Timestamps
  import opened Outcomes
  import opened Layout
  import opened Storage
  import opened Continuity

  datatype World = World(backupName: Option<string>, disk: Disk, dumps: seq<seq<string>>)

  datatype Options = Options(start: Option<Timestamp>)

  /** What the incremental dump did: whether the tool's promise resolved,
      whether it wrote the dump file, and the timestamps read from it. */
  datatype OplogRun = OplogRun(resolved: bool, wroteFile: bool, timestamps: seq<Timestamp>)

  /** What the full dump did: rejected, or resolved with or without the chain folder still present. */
  datatype FullDump = FullDumpRejected | FullDumpDone(folderRemains: bool)

  datatype SegmentResult = SegmentResult(
    entries: nat, first: Timestamp, position: Timestamp, empty: bool, file: Option<string>)

  datatype FullResult = FullResult(position: Timestamp, backup: string)

  datatype Mode = Auto | Full | Oplog | Unrecognised

  /** What a successful `perform` did (the source resolves with no value). */
  datatype Report = Incremental(segment: SegmentResult) | FullThenIncremental(full: FullResult, segment: SegmentResult) | NoAction

  // ---------------------------------------------------------------- incremental

  /** The steps of `backupOplog` before the dump: locate and read the chain's
      state and choose the start position. */
  function StartPosition(cfg: Config, w: World, start: Option<Timestamp>): Result<Timestamp>
  {
    match StateFile(cfg, w.backupName)
    case None => Failure(NoBackupSelected)
    case Some(sf) =>
      if sf !in w.disk then Failure(NoState(w.backupName.value))
      else match ReadState(w.disk[sf])
        case Failure(e) => Failure(e)
        case Success(stored) =>
          var startAt := if start.Some? then start else stored;
          if startAt.None? then Failure(StartRequired) else Success(startAt.value)
  }

  /** The disk once the dump tool has run: only the dump file can have changed. */
  function AfterDump(cfg: Config, disk: Disk, run: OplogRun): (d: Disk)
    ensures forall p | p != cfg.oplogDumpFilePath :: (p in d <==> p in disk) && (p in d ==> d[p] == disk[p])
    ensures run.wroteFile ==> cfg.oplogDumpFilePath in d
  {
    if run.wroteFile then disk[cfg.oplogDumpFilePath := Blob] else disk
  }

  /** Recording a new segment: create the chain folder if missing, move the
      dump file into it under its range name, store the new position. */
  function StoreSegment(cfg: Config, disk: Disk, folder: string, sf: string, full: string, last: Timestamp): Disk
    requires cfg.oplogDumpFilePath in disk
  {
    var withFolder := if folder in disk then disk else disk[folder := Dir];
    Move(withFolder, cfg.oplogDumpFilePath, full)[sf := StateDoc(Some(last))]
  }

  /** `backupOplog(options)`. Both successful outcomes end by removing the
      dump folder. */
  function OplogStep(cfg: Config, w: World, start: Option<Timestamp>, run: OplogRun): (World, Result<SegmentResult>)
  {
    match StartPosition(cfg, w, start)
    case Failure(e) => (w, Failure(e))
    case Success(startAt) =>
      var w1 := w.(dumps := w.dumps + [OplogDumpArgs(cfg, startAt)]);
      if !run.resolved then (w1, Failure(DumpRejected))
      else
        var w2 := w1.(disk := AfterDump(cfg, w1.disk, run));
        if cfg.oplogDumpFilePath !in w2.disk then (w2, Failure(DumpFileMissing))
        else match Validate(run.timestamps, startAt, cfg.reading)
          case Failure(e) => (w2, Failure(e))
          case Success(c) =>
            if c.entries == 1 then
              (w2.(disk := RemoveTree(w2.disk, cfg.oplogDumpFolder)),
               Success(SegmentResult(c.entries, c.first, c.last, true, None)))
            else
              var folder := BackupFolder(cfg, w.backupName).value;
              var full := Join(folder, OplogFileName(c.first, c.last, cfg.compression));
              var sf := StateFile(cfg, w.backupName).value;
              (w2.(disk := RemoveTree(StoreSegment(cfg, w2.disk, folder, sf, full, c.last), cfg.oplogDumpFolder)),
               Success(SegmentResult(c.entries, c.first, c.last, false, Some(full))))
  }

  // ---------------------------------------------------------------- full

  /** `backupFull()`, given the latest oplog position the store reported. */
  function FullStep(cfg: Config, w: World, anchor: Option<Timestamp>, dump: FullDump): (World, Result<FullResult>)
  {
    if anchor.None? then (w, Failure(EmptyOplog))
    else
      var name := BackupName(anchor.value);
      var w1 := w.(backupName := Some(name));
      var folder := Join(cfg.backupDir, name);
      if folder in w.disk then (w1, Failure(FolderExists(folder)))
      else
        var dumpFolder := Join(folder, "dump");
        var d1 := w.disk[folder := Dir];
        var d2 := if dumpFolder in d1 then d1 else d1[dumpFolder := Dir];
        var w2 := w1.(disk := d2, dumps := w.dumps + [FullDumpArgs(dumpFolder, cfg.compression)]);
        match dump
        case FullDumpRejected => (w2, Failure(DumpRejected))
        case FullDumpDone(folderRemains) =>
          if !folderRemains then (w2.(disk := d2 - {folder}), Failure(FullBackupFailed))
          else
            var d3 := d2[Join(folder, "debug.log") := Blob][Join(folder, "state.json") := StateDoc(Some(anchor.value))];
            (w2.(disk := d3), Success(FullResult(anchor.value, name)))
  }

  // ---------------------------------------------------------------- perform

  /** The first step of every `perform`: create the backup directory if missing. */
  function EnsureBackupDir(cfg: Config, w: World): World
  {
    if cfg.backupDir in w.disk then w else w.(disk := w.disk[cfg.backupDir := Dir])
  }

  /** `perform('oplog')`: refuse without a chain, otherwise run `backupOplog()`
      without options and then the upload. */
  function PerformOplog(cfg: Config, w: World, run: OplogRun, syncOk: bool): (World, Result<SegmentResult>)
  {
    var w0 := EnsureBackupDir(cfg, w);
    if !Known(w.backupName) then (w0, Failure(UnknownBackupPosition))
    else
      var (w1, r) := OplogStep(cfg, w0, None, run);
      if r.Failure? then (w1, r)
      else if !syncOk then (w1, Failure(SyncFailed))
      else (w1, r)
  }

  /** `auto` becomes `oplog` exactly when a chain is known, and `full` otherwise. */
  function ResolveMode(mode: Mode, haveBackup: bool): Mode
  {
    if mode == Auto then (if haveBackup then Oplog else Full) else mode
  }

  /** `perform(mode, options)`. The options never reach the incremental run,
      so they do not appear here. The full path writes the global pointer
      and then runs `perform('oplog')`. */
  function PerformStep(cfg: Config, w: World, mode: Mode, anchor: Option<Timestamp>, dump: FullDump,
                       run: OplogRun, syncOk: bool): (World, Result<Report>)
  {
    match ResolveMode(mode, Known(w.backupName))
    case Oplog =>
      var (w1, r) := PerformOplog(cfg, w, run, syncOk);
      if r.Failure? then (w1, Failure(r.error)) else (w1, Success(Incremental(r.value)))
    case Full =>
      var (w1, r) := FullStep(cfg, EnsureBackupDir(cfg, w), anchor, dump);
      if r.Failure? then (w1, Failure(r.error))
      else
        var w2 := w1.(disk := w1.disk[cfg.globalStateFile := GlobalDoc(Some(r.value.backup))]);
        var (w3, r3) := PerformOplog(cfg, w2, run, syncOk);
        if r3.Failure? then (w3, Failure(r3.error))
        else (w3, Success(FullThenIncremental(r.value, r3.value)))
    case _ => (EnsureBackupDir(cfg, w), Success(NoAction))
  }
}
