# Oplog backup orchestration, modelled in Dafny

This project models the `Backup` class of `lib/backup.js` in a MongoDB oplog backup tool. The class keeps backup chains. A chain starts with a full dump, which is anchored at the store's latest oplog position. Incremental oplog segments then follow. Each segment must start in the same second as the chain's stored position.

The model is built from these parts:

- `Timestamps`: oplog positions as `(seconds, increment)` pairs, their total order, and "increasing" under either reading. The helper that checks "increasing" is not part of this model, so whether it is strict is left open. `Config.reading` selects the reading, and every lemma holds for both.
- `Text`: the decimal text of a number, as template-literal interpolation produces it, and its parser. Together they show that distinct numbers print differently.
- `Layout`: the configuration plus every name the class derives: the chain folder, `state.json`, `backup-<t:i>`, `oplog-<t1>:<i1>-<t2>:<i2>.bson[.gz]`, the `$gte` query, and both dump argument lists. Lemmas show that each name identifies what it was built from.
- `Storage`: the disk, as a map from path to entry. An entry is a directory, an opaque file, a chain state document or the global pointer document. This module also holds reading a state document, `renameSync` and the `rimraf` removal of a folder.
- `Continuity`: the continuity check of a captured timestamp sequence.
- `Procedures`: `backupOplog`, `backupFull` and `perform`, each written as a function. It maps the state before a call (chain name, disk, trace of dump-tool invocations) to the state after it plus the call's outcome. Collaborators outside the model appear as inputs: the dump tool's outcome, the timestamps read from the dump, the latest oplog position and the upload's outcome.
- `Properties`: lemmas about those functions.
- `BackupJob.Backup`: the class. Its fields are the chain name, the disk and the dump trace, and its methods update them step by step. The three procedure methods (`BackupOplog`, `BackupFull`, `Perform`) are each proved equal to the matching `Procedures` function; the constructor, `WriteStateFile` and `MongoDump` state their new state directly.

Some behaviours of the code are worth stating plainly:

- The first captured entry is compared with the start position on **seconds only** (lines 71 and 76). An entry with the right seconds and a different increment is accepted (`Continuity.IncrementMismatchAccepted`), so the first entry need not equal the start.
- Because of that, in a run without a `start` override (every run made through `perform`), a chain's stored position never moves to an earlier second, and it never moves back at all when the capture honours the `$gte` filter (`Properties.OplogStoredPositionAdvances`). An override may move it back to any earlier position. A capture that starts earlier within the same second is accepted and can end before the start (`Continuity.AcceptedCaptureCanEndBeforeStart`).
- `perform` calls `backupOplog()` without its options (line 220), so a `start` override never reaches a run made through `perform`. `BackupJob.Backup.Perform` accepts the options. Its specification `PerformStep` does not mention them.
- The gap message (lines 72-75) interpolates the `inspect` member of each timestamp without calling it, and the message for a first entry that is too early keeps the literal `#{...}` text (lines 77-78). Neither prints the positions, so `OplogTooSmall` and `QueryMismatch` carry none.
- Both successful outcomes of `backupOplog` end by removing the dump folder and everything below it (line 110). A dump file that lies inside that folder is gone afterwards, as is any other path there.

## Model

| member | source | states |
|---|---|---|
| `BackupJob.Backup.constructor` | lib/backup.js:11-19 | a truthy chain name given to the constructor is kept; otherwise the name is the `backup` field of the global state file, or none |
| `BackupJob.Backup.WriteStateFile` | lib/backup.js:30-32 | the chain's state file is overwritten with the given position; nothing else changes |
| `BackupJob.Backup.MongoDump` | lib/backup.js:55 | one dump-tool invocation with the given arguments is recorded; disk and chain name unchanged |
| `BackupJob.Backup.BackupOplog` | lib/backup.js:34-116 | the imperative incremental run leaves exactly the state and outcome of `OplogStep` |
| `BackupJob.Backup.BackupFull` | lib/backup.js:130-174 | the imperative full run leaves exactly the state and outcome of `FullStep` |
| `BackupJob.Backup.Perform` | lib/backup.js:206-247 | the imperative `perform` leaves exactly the state and outcome of `PerformStep`, whatever options it is given |
| `Layout.BackupFolder` | lib/backup.js:21-24 | a folder exists exactly when the chain name is truthy |
| `Layout.StateFile` | lib/backup.js:26-28 | a state file path exists exactly when the chain name is truthy |
| `Layout.ChainPaths` | lib/backup.js:21-28 | distinct chain names have distinct folders and state files, both under `<backupDir>/<name>` |
| `Layout.BackupName` | lib/backup.js:138 | a chain name starts with `backup-` and is never empty |
| `Layout.BackupNameInjective` | lib/backup.js:138 | equal chain names come from equal anchors |
| `Layout.OplogFileNameInjective` | lib/backup.js:90-94 | a segment file name fixes its first timestamp, its last timestamp and whether it is gzipped |
| `Layout.QueryFilterInjective` | lib/backup.js:47 | the `$gte` filter names exactly one start position |
| `Layout.OplogDumpArgs` | lib/backup.js:47-53 | the incremental dump targets `local`/`oplog.rs` with `--out` the dump folder, `--query` the start's filter, and `--gzip` exactly when compressing |
| `Layout.OplogDumpArgsInjective` | lib/backup.js:47-53 | different start positions give different dump invocations |
| `Layout.FullDumpArgs` | lib/backup.js:149-152 | the full dump writes to the chain's dump folder, with `--gzip` exactly when compressing |
| `Layout.TimestampTextInjective` | lib/backup.js:90-91 | the `t:i` text of a timestamp determines the timestamp |
| `Text.Decimal` | lib/backup.js:47 | interpolating a number gives a non-empty digit string, one digit long exactly below 10 |
| `Text.ParseDecimalOfDecimal` | lib/backup.js:47 | the digits of a number read back as that number |
| `Timestamps.IncreasingFromFirst` | lib/backup.js:64 | in an increasing capture the first entry is not after any entry, and is strictly before every later one under the strict reading |
| `Storage.ReadState` | lib/backup.js:40 | a state document gives its position; a JSON document without `position` gives none; a directory or other file is unreadable |
| `Storage.ReadPointer` | lib/backup.js:15-17 | the global pointer is the `backup` field of the global state file, and none when that file is absent |
| `Storage.Move` | lib/backup.js:99 | a rename puts the source's entry at the destination, removes the source, and leaves every other path unchanged |
| `Storage.RemoveTree` | lib/backup.js:110 | removing a folder deletes it and every path below it, and keeps every other path with its entry |
| `Procedures.AfterDump` | lib/backup.js:55-58 | the dump tool changes no path except the dump file |
| `Continuity.Validate` | lib/backup.js:64-79 | a capture is accepted exactly when it is non-empty, increasing and starts in the start's second; it is rejected as unordered exactly when not increasing, as empty exactly when it has no entries, as a gap ("the oplog is probably too small") exactly when its first second is later, and as a query error exactly when its first second is earlier |
| `Continuity.AcceptedSpan` | lib/backup.js:64-85 | an accepted capture ends no earlier than it starts and no earlier than the start's second; with the strict reading and more than one entry it ends strictly later |
| `Continuity.FilteredCaptureAdvances` | lib/backup.js:47-85 | when every entry is at or after the start, an accepted capture ends at or after the start |
| `Continuity.IncrementMismatchAccepted` | lib/backup.js:71-79 | a first entry with the start's seconds and a different increment is accepted |
| `Continuity.AcceptedCaptureCanEndBeforeStart` | lib/backup.js:71-85 | an accepted capture can end before the start when it begins earlier in the same second |
| `Continuity.Scenarios` | lib/backup.js:64-88 | `[1000:5, 1000:6, 1001:0]` from 1000:5 is a three-entry capture; `[1001:0]` from 1000:5 is a gap; `[1000:5]` from 1000:5 is a one-entry capture |
| `Properties.OplogFailsBeforeDump` | lib/backup.js:34-45 | without a chain name, a state file, a readable state or a start position, the run fails before any dump and changes nothing |
| `Properties.OplogStartSelection` | lib/backup.js:41-55 | the start is the override when given, else the stored position; with neither the run fails with ":start is required" and changes nothing; otherwise exactly one dump is invoked with that start's filter, and an accepted capture starts in that start's second |
| `Properties.OplogRejectsCapture` | lib/backup.js:55-79 | a capture that fails the check aborts the run with the check's error (unordered, gap, or query error by seconds); only the dump invocation and the dump file have changed |
| `Properties.OplogResultFields` | lib/backup.js:81-88 | a successful run reports the capture's length, first and last timestamps; it is empty exactly for one entry, and names a file exactly when not empty |
| `Properties.OplogEmptyIsIdempotent` | lib/backup.js:87-112 | an empty capture renames nothing and stores nothing: the disk is the dump tool's output with the dump folder removed; repeating the run with no new activity gives the same result and the same disk, whenever the state file is outside the dump folder and the dump file is rewritten or lies outside it |
| `Properties.OplogNewSegment` | lib/backup.js:89-112 | a capture of several entries is moved to `<chain folder>/oplog-<first>-<last>.bson[.gz]`, its last timestamp becomes the chain's stored position, that path is the result's file, nothing below the dump folder remains, and every other path is unchanged |
| `Properties.OplogStoredPositionAdvances` | lib/backup.js:41-110 | a run without override never moves the stored position to an earlier second, and never moves it back at all when the capture honours the filter (for a state file outside the dump folder) |
| `Properties.OplogFrame` | lib/backup.js:89-112 | an incremental run changes nothing outside the dump file, the chain's folder and the dump folder; a successful run leaves nothing below the dump folder |
| `Properties.OplogNextStartIsLast` | lib/backup.js:34-112 | after a new segment, the next run without an override starts at the segment's last timestamp (when the state file is outside the dump folder) |
| `Properties.FullWithoutAnchor` | lib/backup.js:132-137 | without a latest oplog position the full backup fails and changes nothing |
| `Properties.FullRefusesExistingFolder` | lib/backup.js:138-144 | if the chain's folder exists the run fails before any dump; only the object's chain name has changed |
| `Properties.FullSuccess` | lib/backup.js:138-169 | a successful full backup returns the anchor and `backup-<anchor>`; the chain folder was new; one dump into `<folder>/dump` was invoked; the chain's state holds the anchor; no path other than the chain folder, its dump folder, `debug.log` and `state.json` changed |
| `Properties.FullNextStartIsAnchor` | lib/backup.js:160-168 | after a full backup, the next incremental run without an override starts at the anchor |
| `Properties.FullFailureWritesNoState` | lib/backup.js:141-171 | a failed full backup leaves the new chain's state file as it was |
| `Properties.DistinctAnchorsDistinctChains` | lib/backup.js:138-144 | distinct anchors give distinct chain names, folders and state files |
| `Properties.PerformModeResolution` | lib/backup.js:206-232 | `auto` behaves as `oplog` when a chain is known and as `full` otherwise; `oplog` without a chain fails with "Unknown backup position" after only creating the backup directory; an incremental `perform` succeeds only if the upload does |
| `Properties.PerformFullChain` | lib/backup.js:233-245 | a successful full `perform` creates the chain named after the anchor, points the global state file at it (which stays so unless that file lies in the dump folder), and then runs an incremental backup that starts in the anchor's second |
| `Properties.ScenarioNames` | lib/backup.js:90-94 | anchor 1000:1 names chain `backup-1000:1`; range 1000:5 to 1001:0 names `oplog-1000:5-1001:0.bson`, or `.bson.gz` when compressing |

## Left out

- S3 upload (`syncBackupToS3`, lines 176-204): modelled only as a step that succeeds or fails (`syncOk`). The second upload on the full path (line 244) is not modelled.
- The dump tool and the mongo shell (`config.mongodump`, `config.mongo`): external processes. Their outcomes are inputs. Apart from the dump file, a dump's output is not modelled. A chain folder that vanishes during the full dump is modelled by removing that folder's entry only.
- `latestOplogTimestamp` (lines 118-128): it runs a script and parses JSON. The latest position is an input, possibly absent.
- `oplog.js` is not part of this model. The timestamps read from the dump are an input, and a failing read is not modelled. The model treats the `high_` field compared at lines 71 and 76 and the `ts.$timestamp.t`/`ts.$timestamp.i` fields printed at lines 90-91 and 103-104 as the same `Timestamp.seconds` and `Timestamp.increment`.
- `utils.js` is not part of this model. Whether "increasing" is strict is a parameter. An empty capture is taken to count as increasing, so `Continuity.Validate` reports `EmptyCapture` for it; if the helper rejected it, the source would fail with "not ordered" instead.
- `timestamp.js` is not part of this model. `toS` is taken to print the same `t:i` text that segment file names use. The model relies only on distinct anchors giving distinct names.
- Console logging and the contents of `debug.log`: output with no decisions in it. The `rimraf` cleanup (line 110) is modelled as an immediate removal; a failing removal is not.
- `Properties.FullWithoutAnchor`: when the latest oplog position is missing, `backupFull` rejects at line 136 but does not return, so the source goes on to line 138 and calls `toS` with no position. The model assumes that call throws, and so treats the rejection as ending the run with nothing changed.
- File-system failures: every `mkdirSync`, `renameSync` and `writeFileSync` is taken to succeed, and the disk is a flat map with no parent-directory requirement. In the source a missing parent directory (ENOENT at lines 146 and 208) or a failing rename or write (lines 31, 99, 160, 237) throws and the run rejects; the model does not capture these rejections. In particular a failure between the rename at line 99 and the state write at line 101 would leave the moved segment in the chain folder with the old stored position, so the next run would capture an overlapping segment; the model has no such intermediate state.
- JSON encoding of the state files: state documents are records. A global state file that is not valid JSON makes the real constructor throw; the model reads it as no pointer.
- `path.join` normalisation: a join is `dir + "/" + name`.
- Promise and callback sequencing is modelled as sequential steps. Concurrent invocations are not modelled, because the code has no locking.
- `perform` resolves with no value in the source. `Report` describes what a successful run did.
- `Properties.OplogNewSegment`: states that the chain folder exists afterwards only when the folder's path differs from the dump file's path. A configuration where the two coincide moves the folder entry away.
