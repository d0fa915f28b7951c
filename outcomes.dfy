/** Option, Result and the error kinds the backup procedures reject with. */
module Outcomes {
  import opened Timestamps

  datatype Option<+T> = None | Some(value: T)

  datatype Error =
    | NoBackupSelected                    // getStateFile() with no backup name: path.join(null, ...) throws
    | NoState(backup: string)             // "No state in <backup>"
    | UnreadableState                     // the state file is a directory or not a JSON document
    | StartRequired                       // ":start is required"
    | DumpRejected                        // the dump tool's promise rejected
    | DumpFileMissing                     // "mongodump failed": no dump file after the oplog dump
    | NotOrdered                          // "oplog is not ordered"
    | EmptyCapture                        // no timestamps at all: timestamps[0] is undefined
    | OplogTooSmall                       // gap: first entry later than the start ("oplog is probably too small")
    | QueryMismatch                       // first entry earlier than the start: "Something went wrong in our query"
    | EmptyOplog                          // "Cannot backup with empty oplog"
    | FolderExists(folder: string)        // "Backup folder ... already exists"
    | FullBackupFailed                    // the chain folder vanished during the full dump
    | UnknownBackupPosition               // oplog mode without a known chain
    | SyncFailed                          // the upload step reported an error

  datatype Result<+T> = Success(value: T) | Failure(error: Error)
}
