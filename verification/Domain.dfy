/** The records shared by every component: what the `files` table holds, what the
    program holds in memory, and the clock conversions between the two. */
module Domain {

  datatype Option<+T> = None | Some(value: T)

  /** Absolute, hence non-empty, paths. */
  type Path = string

  /** Hex digests; the empty string means "no digest". */
  type Hash = string

  const NANOS_PER_SECOND := 1_000_000_000

  /** Go's `Time.Unix()`: whole seconds, rounded towards the past. */
  function Unix(nanos: int): (seconds: int)
  {
    nanos / NANOS_PER_SECOND
  }

  /** The time lies within this second. */
  predicate InSecond(nanos: int, second: int)
  {
    second * 1_000_000_000 <= nanos < (second + 1) * 1_000_000_000
  }

  /** Go's `time.Unix(seconds, 0)`. */
  function FromUnix(seconds: int): (nanos: int)
  {
    seconds * NANOS_PER_SECOND
  }

  /** A file as the program holds it: all times in nanoseconds. */
  datatype FileRecord = FileRecord(
    absPath: Path,
    hash: Hash,
    addedAt: int,
    lastSeen: int,
    lastScrubbed: Option<int>,
    scrubCount: int,
    fileSize: int,
    mtime: int)

  /** A row of the `files` table: all times in whole seconds. */
  datatype Row = Row(
    hash: Hash,
    addedAt: int,
    lastSeen: int,
    lastScrubbed: Option<int>,
    scrubCount: int,
    fileSize: int,
    mtime: int)

  /** The `files` table, keyed by its primary key. */
  type Table = map<Path, Row>

  function Decode(path: Path, row: Row): (rec: FileRecord)
  {
    FileRecord(path, row.hash, FromUnix(row.addedAt), FromUnix(row.lastSeen),
               if row.lastScrubbed.Some? then Some(FromUnix(row.lastScrubbed.value)) else None,
               row.scrubCount, row.fileSize, FromUnix(row.mtime))
  }

  /** The row an upsert at time `now` writes. An added-at time inside Unix second 0 counts as unset. */
  function Encode(rec: FileRecord, now: int): (row: Row)
  {
    Row(rec.hash,
        if Unix(rec.addedAt) == 0 then Unix(now) else Unix(rec.addedAt),
        Unix(now),
        if rec.lastScrubbed.Some? then Some(Unix(rec.lastScrubbed.value)) else None,
        rec.scrubCount, rec.fileSize, Unix(rec.mtime))
  }

  function DecodeAll(files: Table): (records: map<Path, FileRecord>)
  {
    map path | path in files :: Decode(path, files[path])
  }

  lemma UnixRoundTrip(seconds: int)
    ensures Unix(FromUnix(seconds)) == seconds
  {
  }

  /** Loading a row and upserting it again changes its last-seen time and, only if its
      added-at time is the epoch second, its added-at time. */
  lemma StoreRoundTrip(path: Path, row: Row, now: int)
    ensures Encode(Decode(path, row), now)
         == row.(lastSeen := Unix(now), addedAt := if row.addedAt == 0 then Unix(now) else row.addedAt)
  {
  }

  /** Every sub-second modification time that the disk can show within one stored second is
      "the same" to the comparisons, and no other. */
  lemma SameSecond(stored: int, onDisk: int)
    ensures Unix(FromUnix(stored)) == Unix(onDisk)
       <==> stored * 1_000_000_000 <= onDisk < (stored + 1) * 1_000_000_000
  {
  }
}
