/** What the backup procedures promise, stated over their step functions. */
module Properties {
  import opened Timestamps
  import opened Outcomes
  import opened Layout
  import opened Storage
  import opened Continuity
  import opened Procedures

  // ---------------------------------------------------------------- incremental

  /** Without a readable chain state and a start position the incremental run
      fails before the dump tool is invoked, and nothing changes. */
  lemma OplogFailsBeforeDump(cfg: Config, w: World, start: Option<Timestamp>, run: OplogRun)
    requires StartPosition(cfg, w, start).Failure?
    ensures OplogStep(cfg, w, start, run) == (w, Failure(StartPosition(cfg, w, start).error))
    ensures !Known(w.backupName) ==> OplogStep(cfg, w, start, run).1 == Failure(NoBackupSelected)
    ensures Known(w.backupName) && StateFile(cfg, w.backupName).value !in w.disk ==>
              OplogStep(cfg, w, start, run).1 == Failure(NoState(w.backupName.value))
  {
  }

  /** The start position is the override when given, else the stored one;
      with neither the run fails with ":start is required" and changes nothing.
      Otherwise exactly one dump is invoked, with the filter for that start,
      and an accepted capture starts in that start's second. */
  lemma OplogStartSelection(cfg: Config, w: World, start: Option<Timestamp>, run: OplogRun, stored: Option<Timestamp>)
    requires Known(w.backupName)
    requires StateFile(cfg, w.backupName).value in w.disk
    requires ReadState(w.disk[StateFile(cfg, w.backupName).value]) == Success(stored)
    ensures start.None? && stored.None? ==> OplogStep(cfg, w, start, run) == (w, Failure(StartRequired))
    ensures start.Some? || stored.Some? ==>
      var startAt := if start.Some? then start.value else stored.value;
      var (w', r) := OplogStep(cfg, w, start, run);
      && w'.dumps == w.dumps + [OplogDumpArgs(cfg, startAt)]
      && w'.backupName == w.backupName
      && (r.Success? ==> r.value.first.seconds == startAt.seconds)
  {
  }

  /** A capture that fails the continuity check aborts the run: the only
      change is the dump tool's own (its invocation and its output file), and
      the error is the check's. */
  lemma OplogRejectsCapture(cfg: Config, w: World, start: Option<Timestamp>, run: OplogRun)
    requires StartPosition(cfg, w, start).Success?
    requires run.resolved && cfg.oplogDumpFilePath in AfterDump(cfg, w.disk, run)
    requires Validate(run.timestamps, StartPosition(cfg, w, start).value, cfg.reading).Failure?
    ensures var startAt := StartPosition(cfg, w, start).value;
      OplogStep(cfg, w, start, run)
        == (World(w.backupName, AfterDump(cfg, w.disk, run), w.dumps + [OplogDumpArgs(cfg, startAt)]),
            Failure(Validate(run.timestamps, startAt, cfg.reading).error))
    ensures !Increasing(run.timestamps, cfg.reading) ==> OplogStep(cfg, w, start, run).1 == Failure(NotOrdered)
    ensures var startAt := StartPosition(cfg, w, start).value;
      Increasing(run.timestamps, cfg.reading) && |run.timestamps| > 0 ==>
        && (run.timestamps[0].seconds > startAt.seconds ==>
              OplogStep(cfg, w, start, run).1 == Failure(OplogTooSmall))
        && (run.timestamps[0].seconds < startAt.seconds ==>
              OplogStep(cfg, w, start, run).1 == Failure(QueryMismatch))
  {
  }

  /** A successful run reports the capture: its length, its first and last
      timestamps; it is empty exactly when the capture is the boundary entry
      alone, and names a file exactly when it is not empty. */
  lemma OplogResultFields(cfg: Config, w: World, start: Option<Timestamp>, run: OplogRun)
    requires OplogStep(cfg, w, start, run).1.Success?
    ensures var r := OplogStep(cfg, w, start, run).1.value;
      var ts := run.timestamps;
      && StartPosition(cfg, w, start).Success?
      && Increasing(ts, cfg.reading) && |ts| > 0
      && ts[0].seconds == StartPosition(cfg, w, start).value.seconds
      && r.entries == |ts| && r.first == ts[0] && r.position == ts[|ts| - 1]
      && (r.empty <==> |ts| == 1)
      && (r.empty <==> r.file.None?)
  {
  }

  /** An empty capture renames nothing and stores nothing: the only changes
      are the dump tool's output and the removal of the dump folder. Running
      again with no new activity gives the same result and the same disk,
      provided the state file survives that removal and the dump file is
      produced again (or lies outside the dump folder). */
  lemma OplogEmptyIsIdempotent(cfg: Config, w: World, start: Option<Timestamp>, run: OplogRun)
    requires OplogStep(cfg, w, start, run).1.Success? && OplogStep(cfg, w, start, run).1.value.empty
    ensures var (w1, r1) := OplogStep(cfg, w, start, run);
      && w1.disk == RemoveTree(AfterDump(cfg, w.disk, run), cfg.oplogDumpFolder)
      && w1.backupName == w.backupName
    ensures var sf := StateFile(cfg, w.backupName).value;
      sf != cfg.oplogDumpFilePath && !InTree(cfg.oplogDumpFolder, sf) &&
      (run.wroteFile || !InTree(cfg.oplogDumpFolder, cfg.oplogDumpFilePath)) ==>
      var (w1, r1) := OplogStep(cfg, w, start, run);
      var (w2, r2) := OplogStep(cfg, w1, start, run);
      r2 == r1 && w2.disk == w1.disk && w2.backupName == w1.backupName
  {
  }

  /** A capture of more than one entry moves the dump file into the chain
      folder under the name of its range, stores its last timestamp as the
      chain's position, removes the dump folder, and leaves every other path
      as it was. */
  lemma OplogNewSegment(cfg: Config, w: World, start: Option<Timestamp>, run: OplogRun)
    requires OplogStep(cfg, w, start, run).1.Success? && !OplogStep(cfg, w, start, run).1.value.empty
    ensures var (w', res) := OplogStep(cfg, w, start, run);
      var r := res.value;
      var folder := BackupFolder(cfg, w.backupName).value;
      var sf := StateFile(cfg, w.backupName).value;
      var full := Join(folder, OplogFileName(r.first, r.position, cfg.compression));
      var dumped := AfterDump(cfg, w.disk, run);
      var tree := cfg.oplogDumpFolder;
      && r.file == Some(full)
      && (!InTree(tree, sf) ==> sf in w'.disk && w'.disk[sf] == StateDoc(Some(r.position)))
      && (folder != cfg.oplogDumpFilePath && !InTree(tree, folder) ==> folder in w'.disk)
      && (full != sf && !InTree(tree, full) ==> full in w'.disk && w'.disk[full] == dumped[cfg.oplogDumpFilePath])
      && (cfg.oplogDumpFilePath != full && cfg.oplogDumpFilePath != sf ==> cfg.oplogDumpFilePath !in w'.disk)
      && (forall p | InTree(tree, p) :: p !in w'.disk)
      && w'.backupName == w.backupName
      && (forall p | p in w.disk && p != cfg.oplogDumpFilePath && p != folder && p != full && p != sf && !InTree(tree, p) ::
            p in w'.disk && w'.disk[p] == w.disk[p])
  {
  }

  /** Without an override, a run never moves the stored position to an
      earlier second; and when the capture honours the query filter the
      stored position never moves back at all. */
  lemma OplogStoredPositionAdvances(cfg: Config, w: World, run: OplogRun, before: Timestamp)
    requires Known(w.backupName)
    requires StateFile(cfg, w.backupName).value in w.disk
    requires w.disk[StateFile(cfg, w.backupName).value] == StateDoc(Some(before))
    requires StateFile(cfg, w.backupName).value != cfg.oplogDumpFilePath
    requires OplogStep(cfg, w, None, run).1.Success?
    ensures var w' := OplogStep(cfg, w, None, run).0;
      var sf := StateFile(cfg, w.backupName).value;
      !InTree(cfg.oplogDumpFolder, sf) ==>
      sf in w'.disk && w'.disk[sf].StateDoc? && w'.disk[sf].position.Some? &&
      var after := w'.disk[sf].position.value;
      && after.seconds >= before.seconds
      && ((forall k | 0 <= k < |run.timestamps| :: NotAfter(before, run.timestamps[k])) ==> NotAfter(before, after))
  {
    var ts := run.timestamps;
    assert StartPosition(cfg, w, None) == Success(before);
    AcceptedSpan(ts, before, cfg.reading);
    if forall k | 0 <= k < |ts| :: NotAfter(before, ts[k]) {
      FilteredCaptureAdvances(ts, before, cfg.reading);
    }
  }

  /** The incremental run touches nothing outside the dump file, the chain's
      folder and the dump folder; a successful run leaves nothing of the dump
      folder behind. */
  lemma OplogFrame(cfg: Config, w: World, start: Option<Timestamp>, run: OplogRun, p: string)
    requires p != cfg.oplogDumpFilePath
    requires Known(w.backupName) ==> !(BackupFolder(cfg, w.backupName).value + "/" <= p)
    requires Known(w.backupName) ==> p != BackupFolder(cfg, w.backupName).value
    ensures var w' := OplogStep(cfg, w, start, run).0;
      !InTree(cfg.oplogDumpFolder, p) ==>
      (p in w'.disk <==> p in w.disk) && (p in w.disk ==> w'.disk[p] == w.disk[p])
    ensures var (w', r) := OplogStep(cfg, w, start, run);
      r.Success? && InTree(cfg.oplogDumpFolder, p) ==> p !in w'.disk
  {
  }

  /** The position a new segment stores is where the next run without an
      override starts, as long as the state file lies outside the dump folder. */
  lemma OplogNextStartIsLast(cfg: Config, w: World, start: Option<Timestamp>, run: OplogRun)
    requires OplogStep(cfg, w, start, run).1.Success? && !OplogStep(cfg, w, start, run).1.value.empty
    ensures var (w', r) := OplogStep(cfg, w, start, run);
      !InTree(cfg.oplogDumpFolder, StateFile(cfg, w.backupName).value) ==>
      StartPosition(cfg, w', None) == Success(r.value.position)
  {
  }

  // ---------------------------------------------------------------- full

  /** Without a latest oplog position the full backup fails and changes nothing. */
  lemma FullWithoutAnchor(cfg: Config, w: World, dump: FullDump)
    ensures FullStep(cfg, w, None, dump) == (w, Failure(EmptyOplog))
  {
  }

  /** An existing chain folder is never overwritten: the run fails before any
      dump, and only the object's chain name has changed. */
  lemma FullRefusesExistingFolder(cfg: Config, w: World, anchor: Timestamp, dump: FullDump)
    requires Join(cfg.backupDir, BackupName(anchor)) in w.disk
    ensures FullStep(cfg, w, Some(anchor), dump)
         == (w.(backupName := Some(BackupName(anchor))), Failure(FolderExists(Join(cfg.backupDir, BackupName(anchor)))))
  {
  }

  /** A successful full backup names its chain after the anchor, in a folder
      that did not exist, dumps into the chain's dump folder, and only then
      records the anchor as the chain's position. */
  lemma FullSuccess(cfg: Config, w: World, anchor: Option<Timestamp>, dump: FullDump)
    requires FullStep(cfg, w, anchor, dump).1.Success?
    ensures anchor.Some? && dump == FullDumpDone(true)
    ensures var (w', r) := FullStep(cfg, w, anchor, dump);
      var name := BackupName(anchor.value);
      var folder := Join(cfg.backupDir, name);
      var sf := StateFile(cfg, Some(name)).value;
      && r.value == FullResult(anchor.value, name)
      && folder !in w.disk && folder in w'.disk
      && w'.backupName == Some(name)
      && sf in w'.disk && w'.disk[sf] == StateDoc(Some(anchor.value))
      && w'.dumps == w.dumps + [FullDumpArgs(Join(folder, "dump"), cfg.compression)]
    ensures var w' := FullStep(cfg, w, anchor, dump).0;
      var folder := Join(cfg.backupDir, BackupName(anchor.value));
      forall p | p in w.disk && p != folder && p != Join(folder, "dump") && p != Join(folder, "debug.log")
                 && p != Join(folder, "state.json") :: p in w'.disk && w'.disk[p] == w.disk[p]
  {
  }

  /** After a full backup the next incremental run without an override
      starts at the anchor. */
  lemma FullNextStartIsAnchor(cfg: Config, w: World, anchor: Option<Timestamp>, dump: FullDump)
    requires FullStep(cfg, w, anchor, dump).1.Success?
    ensures StartPosition(cfg, FullStep(cfg, w, anchor, dump).0, None) == Success(anchor.value)
  {
  }

  /** A full backup that fails leaves the new chain's state file as it was. */
  lemma FullFailureWritesNoState(cfg: Config, w: World, anchor: Timestamp, dump: FullDump)
    requires FullStep(cfg, w, Some(anchor), dump).1.Failure?
    ensures var w' := FullStep(cfg, w, Some(anchor), dump).0;
      var sf := StateFile(cfg, Some(BackupName(anchor))).value;
      (sf in w'.disk <==> sf in w.disk) && (sf in w.disk ==> w'.disk[sf] == w.disk[sf])
  {
  }

  /** Distinct anchors never share a chain: their names, folders and state files differ. */
  lemma DistinctAnchorsDistinctChains(cfg: Config, a: Timestamp, b: Timestamp)
    requires a != b
    ensures BackupName(a) != BackupName(b)
    ensures Join(cfg.backupDir, BackupName(a)) != Join(cfg.backupDir, BackupName(b))
    ensures StateFile(cfg, Some(BackupName(a))) != StateFile(cfg, Some(BackupName(b)))
  {
    BackupNameInjective(a, b);
    ChainPaths(cfg, BackupName(a), BackupName(b));
  }

  // ---------------------------------------------------------------- perform

  /** `auto` runs the incremental procedure when a chain is known and the full
      one otherwise; `oplog` without a chain is refused after only creating
      the backup directory. */
  lemma PerformModeResolution(cfg: Config, w: World, anchor: Option<Timestamp>, dump: FullDump, run: OplogRun, syncOk: bool)
    ensures Known(w.backupName) ==>
      PerformStep(cfg, w, Auto, anchor, dump, run, syncOk) == PerformStep(cfg, w, Oplog, anchor, dump, run, syncOk)
    ensures !Known(w.backupName) ==>
      PerformStep(cfg, w, Auto, anchor, dump, run, syncOk) == PerformStep(cfg, w, Full, anchor, dump, run, syncOk)
    ensures !Known(w.backupName) ==>
      PerformStep(cfg, w, Oplog, anchor, dump, run, syncOk) == (EnsureBackupDir(cfg, w), Failure(UnknownBackupPosition))
    ensures Known(w.backupName) ==>
      PerformStep(cfg, w, Oplog, anchor, dump, run, syncOk).1.Success? ==> syncOk
  {
  }

  /** The global pointer and the chains do not share paths: the pointer file
      is not inside a `backup-` folder of the backup directory and is not the
      oplog dump file. */
  predicate PointerApart(cfg: Config)
  {
    !(cfg.backupDir + "/backup-" <= cfg.globalStateFile) && cfg.globalStateFile != cfg.oplogDumpFilePath
  }

  lemma InsideChainFolder(cfg: Config, anchor: Timestamp, rest: string)
    ensures cfg.backupDir + "/backup-" <= Join(cfg.backupDir, BackupName(anchor)) + rest
  {
  }

  /** A full `perform` that succeeds has created the chain named after the
      anchor, pointed the global state file at it, and then run an
      incremental backup that starts at the anchor. */
  lemma PerformFullChain(cfg: Config, w: World, mode: Mode, anchor: Option<Timestamp>,
                                             dump: FullDump, run: OplogRun, syncOk: bool)
    requires PointerApart(cfg)
    requires ResolveMode(mode, Known(w.backupName)) == Full
    requires PerformStep(cfg, w, mode, anchor, dump, run, syncOk).1.Success?
    ensures anchor.Some?
    ensures var (w', r) := PerformStep(cfg, w, mode, anchor, dump, run, syncOk);
      var name := BackupName(anchor.value);
      && r.value == FullThenIncremental(FullResult(anchor.value, name), r.value.segment)
      && w'.backupName == Some(name)
      && (!InTree(cfg.oplogDumpFolder, cfg.globalStateFile) ==>
            cfg.globalStateFile in w'.disk && w'.disk[cfg.globalStateFile] == GlobalDoc(Some(name)))
      && r.value.segment.first.seconds == anchor.value.seconds
  {
    var w0 := EnsureBackupDir(cfg, w);
    var (w1, r1) := FullStep(cfg, w0, anchor, dump);
    FullSuccess(cfg, w0, anchor, dump);
    var name := BackupName(anchor.value);
    var folder := Join(cfg.backupDir, name);
    var sf := StateFile(cfg, Some(name)).value;
    var w2 := w1.(disk := w1.disk[cfg.globalStateFile := GlobalDoc(Some(name))]);
    InsideChainFolder(cfg, anchor.value, "/state.json");
    InsideChainFolder(cfg, anchor.value, "");
    InsideChainFolder(cfg, anchor.value, "/");
    assert folder + "" == folder;
    assert sf != cfg.globalStateFile;
    assert EnsureBackupDir(cfg, w2) == w2;
    assert StartPosition(cfg, w2, None) == Success(anchor.value);
    var (w3, r3) := OplogStep(cfg, w2, None, run);
    OplogResultFields(cfg, w2, None, run);
    assert !(folder + "/" <= cfg.globalStateFile);
    OplogFrame(cfg, w2, None, run, cfg.globalStateFile);
  }

  /** The names of the worked scenarios. */
  lemma ScenarioNames()
    ensures BackupName(Timestamp(1000, 1)) == "backup-1000:1"
    ensures OplogFileName(Timestamp(1000, 5), Timestamp(1001, 0), false) == "oplog-1000:5-1001:0.bson"
    ensures OplogFileName(Timestamp(1000, 5), Timestamp(1001, 0), true) == "oplog-1000:5-1001:0.bson.gz"
  {
  }
}
