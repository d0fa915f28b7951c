/** Configuration and the names the backup derives from it: chain folders,
    state files, chain names, oplog segment file names, the oplog query and
    the dump tool's argument lists. */
module Layout {
  import opened Timestamps
  import opened Outcomes
  import opened Text

  /** The configuration values the backup reads. `reading` fixes which
      notion of "increasing" the timestamp helper applies. */
  datatype Config = Config(
    backupDir: string,
    globalStateFile: string,
    oplogDumpFolder: string,
    oplogDumpFilePath: string,
    compression: bool,
    reading: Reading)

  /** `path.join` of two components (without normalisation). */
  function Join(dir: string, name: string): (p: string)
    ensures dir + "/" <= p
  {
    dir + "/" + name
  }

  /** A backup name counts as present only when it is truthy: an absent
      name and the empty string both mean "no chain". */
  predicate Known(name: Option<string>)
  {
    name.Some? && name.value != ""
  }

  /** `getBackupFolder`: null without a chain name. */
  function BackupFolder(cfg: Config, name: Option<string>): (r: Option<string>)
    ensures r.Some? <==> Known(name)
  {
    if Known(name) then Some(Join(cfg.backupDir, name.value)) else None
  }

  /** `getStateFile`: the chain's state.json; None where path.join would throw. */
  function StateFile(cfg: Config, name: Option<string>): (r: Option<string>)
    ensures r.Some? <==> Known(name)
  {
    match BackupFolder(cfg, name)
    case None => None
    case Some(folder) => Some(Join(folder, "state.json"))
  }

  /** Each chain has its own folder and its own state file, both inside
      the backup directory under the chain's name. */
  lemma ChainPaths(cfg: Config, a: string, b: string)
    requires a != "" && b != ""
    ensures BackupFolder(cfg, Some(a)) == BackupFolder(cfg, Some(b)) ==> a == b
    ensures StateFile(cfg, Some(a)) == StateFile(cfg, Some(b)) ==> a == b
    ensures cfg.backupDir + "/" + a <= BackupFolder(cfg, Some(a)).value
    ensures cfg.backupDir + "/" + a <= StateFile(cfg, Some(a)).value
  {
    var p := cfg.backupDir + "/";
    if BackupFolder(cfg, Some(a)) == BackupFolder(cfg, Some(b)) {
      CancelPrefix(p, a, b);
    }
    if StateFile(cfg, Some(a)) == StateFile(cfg, Some(b)) {
      var fa, fb := Join(cfg.backupDir, a), Join(cfg.backupDir, b);
      assert Join(fa, "state.json") == Join(fb, "state.json");
      CancelSuffix(fa + "/", fb + "/", "state.json");
      CancelSuffix(fa, fb, "/");
      CancelPrefix(p, a, b);
    }
  }

  /** The `t:i` text of a timestamp. */
  function TimestampText(t: Timestamp): string
  {
    Decimal(t.seconds) + ":" + Decimal(t.increment)
  }

  lemma NoDashOrDot(t: Timestamp)
    ensures '-' !in TimestampText(t) && '.' !in TimestampText(t)
  {
  }

  lemma TimestampTextInjective(a: Timestamp, b: Timestamp)
    requires TimestampText(a) == TimestampText(b)
    ensures a == b
  {
    NoSeparatorInDigits(Decimal(a.seconds), ':');
    NoSeparatorInDigits(Decimal(b.seconds), ':');
    CancelAtSeparator(Decimal(a.seconds), Decimal(a.increment), Decimal(b.seconds), Decimal(b.increment), ':');
    DecimalInjective(a.seconds, b.seconds);
    DecimalInjective(a.increment, b.increment);
  }

  /** The chain name `backup-<toS(anchor)>`. The timestamp module's `toS` is
      not part of this model; it is taken to print the same `t:i` text the
      segment file names use, and all the model relies on is that distinct
      anchors give distinct names. */
  function BackupName(anchor: Timestamp): (name: string)
    ensures name != "" && "backup-" <= name
  {
    "backup-" + TimestampText(anchor)
  }

  lemma BackupNameInjective(a: Timestamp, b: Timestamp)
    ensures BackupName(a) == BackupName(b) ==> a == b
  {
    if BackupName(a) == BackupName(b) {
      CancelPrefix("backup-", TimestampText(a), TimestampText(b));
      TimestampTextInjective(a, b);
    }
  }

  function GzSuffix(gz: bool): string
  {
    if gz then ".gz" else ""
  }

  /** `oplog-<t1>:<i1>-<t2>:<i2>.bson`, with `.gz` when compressing. */
  function OplogFileName(first: Timestamp, last: Timestamp, gz: bool): string
  {
    "oplog-" + TimestampText(first) + "-" + TimestampText(last) + ".bson" + GzSuffix(gz)
  }

  lemma OplogFileNameShape(f: Timestamp, l: Timestamp, gz: bool)
    ensures OplogFileName(f, l, gz)
         == "oplog-" + (TimestampText(f) + ['-'] + (TimestampText(l) + ['.'] + ("bson" + GzSuffix(gz))))
  {
  }

  /** A segment file name identifies the range it covers and whether it is compressed. */
  lemma OplogFileNameInjective(f: Timestamp, l: Timestamp, gz: bool, f': Timestamp, l': Timestamp, gz': bool)
    requires OplogFileName(f, l, gz) == OplogFileName(f', l', gz')
    ensures f == f' && l == l' && gz == gz'
  {
    var tf, tl, tf', tl' := TimestampText(f), TimestampText(l), TimestampText(f'), TimestampText(l');
    var ext, ext' := "bson" + GzSuffix(gz), "bson" + GzSuffix(gz');
    var rest, rest' := tl + ['.'] + ext, tl' + ['.'] + ext';
    OplogFileNameShape(f, l, gz);
    OplogFileNameShape(f', l', gz');
    CancelPrefix("oplog-", tf + ['-'] + rest, tf' + ['-'] + rest');
    NoDashOrDot(f);
    NoDashOrDot(f');
    NoDashOrDot(l);
    NoDashOrDot(l');
    CancelAtSeparator(tf, rest, tf', rest', '-');
    CancelAtSeparator(tl, ext, tl', ext', '.');
    CancelPrefix("bson", GzSuffix(gz), GzSuffix(gz'));
    TimestampTextInjective(f, f');
    TimestampTextInjective(l, l');
  }

  /** The oplog filter `"{ts: {$gte: Timestamp(<s>, <i>)}}"`, quotes included. */
  function QueryFilter(startAt: Timestamp): string
  {
    "\"{ts: {$gte: Timestamp(" + Decimal(startAt.seconds) + ", " + Decimal(startAt.increment) + ")}}\""
  }

  /** The filter names exactly one start position. */
  lemma QueryFilterInjective(a: Timestamp, b: Timestamp)
    requires QueryFilter(a) == QueryFilter(b)
    ensures a == b
  {
    var pre := "\"{ts: {$gte: Timestamp(";
    var tailA := " " + (Decimal(a.increment) + [')'] + "}}\"");
    var tailB := " " + (Decimal(b.increment) + [')'] + "}}\"");
    assert QueryFilter(a) == pre + (Decimal(a.seconds) + [','] + tailA);
    assert QueryFilter(b) == pre + (Decimal(b.seconds) + [','] + tailB);
    CancelPrefix(pre, Decimal(a.seconds) + [','] + tailA, Decimal(b.seconds) + [','] + tailB);
    NoSeparatorInDigits(Decimal(a.seconds), ',');
    NoSeparatorInDigits(Decimal(b.seconds), ',');
    CancelAtSeparator(Decimal(a.seconds), tailA, Decimal(b.seconds), tailB, ',');
    CancelPrefix(" ", Decimal(a.increment) + [')'] + "}}\"", Decimal(b.increment) + [')'] + "}}\"");
    NoSeparatorInDigits(Decimal(a.increment), ')');
    NoSeparatorInDigits(Decimal(b.increment), ')');
    CancelAtSeparator(Decimal(a.increment), "}}\"", Decimal(b.increment), "}}\"", ')');
    DecimalInjective(a.seconds, b.seconds);
    DecimalInjective(a.increment, b.increment);
  }

  /** Arguments of the incremental dump: the oplog collection of the local
      database, filtered from `startAt` on, gzipped when compressing. */
  function OplogDumpArgs(cfg: Config, startAt: Timestamp): (args: seq<string>)
    ensures |args| == if cfg.compression then 9 else 8
    ensures args[..6] == ["--out", cfg.oplogDumpFolder, "--db", "local", "--collection", "oplog.rs"]
    ensures args[6] == "--query" && args[7] == QueryFilter(startAt)
    ensures cfg.compression ==> args[8] == "--gzip"
  {
    ["--out", cfg.oplogDumpFolder, "--db", "local", "--collection", "oplog.rs"]
      + ["--query", QueryFilter(startAt)]
      + (if cfg.compression then ["--gzip"] else [])
  }

  /** Arguments of the full dump: everything into the chain's dump folder. */
  function FullDumpArgs(dumpFolder: string, gz: bool): (args: seq<string>)
    ensures |args| == if gz then 3 else 2
    ensures args[..2] == ["--out", dumpFolder]
    ensures gz ==> args[2] == "--gzip"
  {
    ["--out", dumpFolder] + (if gz then ["--gzip"] else [])
  }

  /** Distinct start positions give distinct incremental dump invocations. */
  lemma OplogDumpArgsInjective(cfg: Config, a: Timestamp, b: Timestamp)
    ensures OplogDumpArgs(cfg, a) == OplogDumpArgs(cfg, b) ==> a == b
  {
    if OplogDumpArgs(cfg, a) == OplogDumpArgs(cfg, b) {
      assert OplogDumpArgs(cfg, a)[7] == OplogDumpArgs(cfg, b)[7];
      QueryFilterInjective(a, b);
    }
  }
}
