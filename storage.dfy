/** The part of the file system the backup touches: each existing path is
    a directory, an opaque file, a chain state document or the global
    pointer document. `existsSync(p)` is `p in disk`. */
module Storage {
  import opened Timestamps
  import opened Outcomes

  datatype Entry =
    | Dir
    | Blob                                // dump output, debug log, segment files
    | StateDoc(position: Option<Timestamp>) // a chain's state.json
    | GlobalDoc(backup: Option<string>)     // the global state file

  type Disk = map<string, Entry>

  /** `JSON.parse(fs.readFileSync(stateFile)).position`: a directory or a
      non-JSON file cannot be read; a JSON document without `position`
      gives no position. */
  function ReadState(e: Entry): (r: Result<Option<Timestamp>>)
    ensures r.Success? <==> e.StateDoc? || e.GlobalDoc?
    ensures e.StateDoc? ==> r == Success(e.position)
    ensures e.GlobalDoc? ==> r == Success(None)
  {
    match e
    case StateDoc(position) => Success(position)
    case GlobalDoc(_) => Success(None)
    case _ => Failure(UnreadableState)
  }

  /** `state.backup` of the global state file; an absent file gives none. */
  function ReadPointer(disk: Disk, file: string): (r: Option<string>)
    ensures file in disk && disk[file].GlobalDoc? ==> r == disk[file].backup
    ensures file !in disk ==> r == None
  {
    if file in disk && disk[file].GlobalDoc? then disk[file].backup else None
  }

  /** `renameSync(src, dst)`: the entry moves, replacing whatever `dst` held. */
  function Move(disk: Disk, src: string, dst: string): (r: Disk)
    requires src in disk
    ensures dst in r && r[dst] == disk[src]
    ensures src != dst ==> src !in r
    ensures forall p | p != src && p != dst :: (p in r <==> p in disk) && (p in r ==> r[p] == disk[p])
  {
    (disk - {src})[dst := disk[src]]
  }

  /** `p` is `root` or lies below it. */
  predicate InTree(root: string, p: string)
  {
    p == root || root + "/" <= p
  }

  /** `rimraf(root)`: the directory and everything below it disappear. */
  function RemoveTree(disk: Disk, root: string): (r: Disk)
    ensures forall p :: p in r <==> p in disk && !InTree(root, p)
    ensures forall p | p in r :: r[p] == disk[p]
  {
    map p | p in disk && !InTree(root, p) :: disk[p]
  }
}
