/** The open database connection: the two tables and the statements run on them. Every call may
    fail, as its parameter `fails` says, and then changes nothing; times are read from the clock
    inside the calls. */
module Storage {
  import opened Domain
  import opened ScrubSelection

  const NANOS_PER_DAY := 24 * 3600 * NANOS_PER_SECOND

  datatype RunRecord = RunRecord(
    driveId: string,
    driveName: string,
    startedAt: int,
    durationMs: int,
    filesScanned: int,
    filesAdded: int,
    filesModified: int,
    filesRemoved: int,
    filesMoved: int,
    filesValidated: int,
    filesCorrupted: int,
    syncErrors: int,
    scrubErrors: int)

  function PathsOf(records: seq<FileRecord>): (paths: seq<Path>)
    ensures |paths| == |records| && forall i :: 0 <= i < |paths| ==> paths[i] == records[i].absPath
  {
    seq(|records|, i requires 0 <= i < |records| => records[i].absPath)
  }

  function Cutoff(minAgeDays: Option<int>, now: int): Option<int>
  {
    if minAgeDays.Some? then Some(Unix(now - minAgeDays.value * NANOS_PER_DAY)) else None
  }

  /** The record has the row's columns, and its times are the beginnings of the stored seconds. */
  predicate IsRead(path: Path, row: Row, rec: FileRecord)
  {
    && rec.absPath == path && rec.hash == row.hash && rec.scrubCount == row.scrubCount && rec.fileSize == row.fileSize
    && rec.addedAt == row.addedAt * 1_000_000_000 && rec.lastSeen == row.lastSeen * 1_000_000_000
    && rec.mtime == row.mtime * 1_000_000_000 && (rec.lastScrubbed.Some? <==> row.lastScrubbed.Some?)
    && (row.lastScrubbed.Some? ==> rec.lastScrubbed.value == row.lastScrubbed.value * 1_000_000_000)
  }

  /** The row has the record's columns, and the seconds that the record's times lie in; it was seen
      now, and added now unless the record says when. */
  predicate IsStored(rec: FileRecord, row: Row, now: int)
  {
    && row.hash == rec.hash && row.scrubCount == rec.scrubCount && row.fileSize == rec.fileSize
    && InSecond(rec.mtime, row.mtime) && InSecond(now, row.lastSeen)
    && InSecond(if InSecond(rec.addedAt, 0) then now else rec.addedAt, row.addedAt)
    && (row.lastScrubbed.Some? <==> rec.lastScrubbed.Some?)
    && (rec.lastScrubbed.Some? ==> InSecond(rec.lastScrubbed.value, row.lastScrubbed.value))
  }

  /** The row after a successful re-verification at second `now`. */
  function Stamped(row: Row, now: int): Row
  {
    row.(lastScrubbed := Some(now), scrubCount := row.scrubCount + 1)
  }

  /** The second of the latest scrub, if there was one, ended at least that many days ago. */
  predicate IsDue(row: Row, minAgeDays: Option<int>, now: int)
  {
    minAgeDays.Some? && row.lastScrubbed.Some? ==>
      (row.lastScrubbed.value + 1 + minAgeDays.value * 86_400) * 1_000_000_000 <= now
  }

  /** The age filter to the nanosecond: a row scrubbed `days` days ago is not yet eligible in the same
      second of the day, and is from the next one on; without a filter, or unscrubbed, it always is. */
  lemma EligibleExactly(files: Table, days: int, now: int, path: Path)
    requires path in files
    ensures path in Eligible(files, Cutoff(Some(days), now))
       <==> || files[path].lastScrubbed.None?
            || (files[path].lastScrubbed.value + days * 24 * 60 * 60 + 1) * 1_000_000_000 <= now
    ensures path in Eligible(files, Cutoff(None, now))
  {
  }

  function DueRows(files: Table, minAgeDays: Option<int>, now: int): set<Path>
  {
    set path | path in files && IsDue(files[path], minAgeDays, now)
  }

  /** A right selection in terms of rows and the clock: only rows that are due, as many of them as the
      percentage gives, all of them if the whole is asked for, the longest unscrubbed first, and none
      that is passed over was scrubbed earlier. */
  ghost predicate IsOldestDue(files: Table, minAgeDays: Option<int>, now: int, percentage: real, selected: seq<Path>)
  {
    && Distinct(selected) && |selected| == SelectionSize(|DueRows(files, minAgeDays, now)|, percentage)
    && (forall i :: 0 <= i < |selected| ==> selected[i] in files && IsDue(files[selected[i]], minAgeDays, now))
    && (percentage >= 100.0 ==>
          forall path :: path in files ==> (IsDue(files[path], minAgeDays, now) ==> path in selected))
    && (forall i, j :: 0 <= i < j < |selected| ==> NotAfter(files[selected[i]], files[selected[j]]))
    && (forall i, path :: 0 <= i < |selected| && path in files && path !in selected ==>
          (IsDue(files[path], minAgeDays, now) ==> NotAfter(files[selected[i]], files[path])))
  }

  /** Never scrubbed, or no later than the other one. */
  predicate NotAfter(row: Row, other: Row)
  {
    row.lastScrubbed.Some? ==> other.lastScrubbed.Some? && row.lastScrubbed.value <= other.lastScrubbed.value
  }

  lemma SelectionIsOldestDue(files: Table, minAgeDays: Option<int>, now: int, percentage: real, selected: seq<Path>)
    requires var eligible := Eligible(files, Cutoff(minAgeDays, now));
             IsSelection(files, eligible, SelectionSize(|eligible|, percentage), selected)
    ensures IsOldestDue(files, minAgeDays, now, percentage, selected)
  {
    var eligible := Eligible(files, Cutoff(minAgeDays, now));
    assert eligible == DueRows(files, minAgeDays, now);
    if percentage >= 100.0 {
      WholeSelection(files, eligible, percentage, selected);
    }
  }

  class Database {
    var files: Table
    var history: seq<RunRecord>

    constructor (files: Table, history: seq<RunRecord>)
      ensures this.files == files && this.history == history
    {
      this.files := files;
      this.history := history;
    }

    /** Reads the rows one by one, in no particular order. */
    method GetAllFiles(fails: bool) returns (ok: bool, records: map<Path, FileRecord>)
      ensures ok <==> !fails
      ensures ok ==> records == DecodeAll(files)
      ensures ok ==>
        records.Keys == files.Keys && forall path :: path in files ==> IsRead(path, files[path], records[path])
    {
      records := map[];
      if fails {
        return false, records;
      }
      var unread := files.Keys;
      while unread != {}
        invariant unread <= files.Keys
        invariant records.Keys == files.Keys - unread
        invariant forall path :: path in records ==> records[path] == Decode(path, files[path])
        decreases unread
      {
        var path :| path in unread;
        records := records[path := Decode(path, files[path])];
        unread := unread - {path};
      }
      ok := true;
    }

    method UpsertFile(rec: FileRecord, fails: bool) returns (ok: bool, ghost now: int)
      modifies this`files
      ensures ok <==> !fails
      ensures files == if ok then old(files)[rec.absPath := Encode(rec, now)] else old(files)
      ensures ok ==> rec.absPath in files && IsStored(rec, files[rec.absPath], now)
    {
      ok := !fails;
      var clock: int := *;
      now := clock;
      if ok {
        files := files[rec.absPath := Encode(rec, clock)];
      }
    }

    method DeleteFile(path: Path, fails: bool) returns (ok: bool)
      modifies this`files
      ensures ok <==> !fails
      ensures files == if ok then old(files) - {path} else old(files)
    {
      ok := !fails;
      if ok {
        files := files - {path};
      }
    }

    /** Selects the least recently scrubbed share of the eligible rows; rows that were scrubbed
        in the same second come in any order. With an age filter, a row is eligible if the second of
        its latest scrub was over that many days ago. */
    method GetFilesForScrub(percentage: real, minAgeDays: Option<int>, now: int, fails: bool)
      returns (ok: bool, records: seq<FileRecord>)
      ensures ok <==> !fails
      ensures ok && minAgeDays.Some? ==> forall i :: 0 <= i < |records| && records[i].lastScrubbed.Some? ==>
        records[i].lastScrubbed.value + 1_000_000_000 + minAgeDays.value * 86_400_000_000_000 <= now
      ensures ok ==> IsOldestDue(files, minAgeDays, now, percentage, PathsOf(records))
      ensures ok ==>
        var eligible := Eligible(files, Cutoff(minAgeDays, now));
        IsSelection(files, eligible, SelectionSize(|eligible|, percentage), PathsOf(records))
      ensures ok ==> forall i :: 0 <= i < |records| ==>
        records[i].absPath in files && records[i] == Decode(records[i].absPath, files[records[i].absPath])
    {
      ok := !fails;
      if fails {
        return false, [];
      }
      var eligible := Eligible(files, Cutoff(minAgeDays, now));
      var all := InOrder(eligible);
      var n := SelectionSize(|all|, percentage);
      PrefixIsSelection(files, eligible, PathsOf(all), n);
      assert PathsOf(all[..n]) == PathsOf(all)[..n];
      records := all[..n];
      SelectionIsOldestDue(files, minAgeDays, now, percentage, PathsOf(records));
    }

    /** Reads the rows with the longest unscrubbed first. */
    method InOrder(eligible: set<Path>) returns (all: seq<FileRecord>)
      requires eligible <= files.Keys
      ensures IsSelection(files, eligible, |eligible|, PathsOf(all)) && |all| == |eligible|
      ensures forall i :: 0 <= i < |all| ==> all[i] == Decode(all[i].absPath, files[all[i].absPath])
    {
      all := [];
      var unread := eligible;
      while unread != {}
        invariant unread <= eligible
        invariant forall path :: path in unread ==> path !in PathsOf(all)
        invariant forall path :: path in eligible && path !in PathsOf(all) ==> path in unread
        invariant |all| + |unread| == |eligible|
        invariant IsSelection(files, eligible, |all|, PathsOf(all))
        invariant forall i :: 0 <= i < |all| ==> all[i] == Decode(all[i].absPath, files[all[i].absPath])
        decreases unread
      {
        ghost var oldest := OldestExists(files, unread);
        var path :| path in unread && forall other :: other in unread ==>
            !Older(files[other].lastScrubbed, files[path].lastScrubbed);
        TakeNext(files, eligible, |all|, PathsOf(all), path);
        assert PathsOf(all + [Decode(path, files[path])]) == PathsOf(all) + [path];
        all := all + [Decode(path, files[path])];
        unread := unread - {path};
      }
    }

    method UpdateScrubStatus(path: Path, fails: bool) returns (ok: bool, ghost now: int)
      modifies this`files
      ensures ok <==> !fails
      ensures files == if ok && path in old(files) then old(files)[path := Stamped(old(files)[path], Unix(now))]
                       else old(files)
      ensures ok && path in old(files) ==>
        && path in files && files[path].scrubCount == old(files)[path].scrubCount + 1
        && files[path].lastScrubbed.Some? && InSecond(now, files[path].lastScrubbed.value)
        && files[path] == old(files)[path].(scrubCount := files[path].scrubCount,
                                            lastScrubbed := files[path].lastScrubbed)
    {
      ok := !fails;
      var clock: int := *;
      now := clock;
      if ok && path in files {
        files := files[path := Stamped(files[path], Unix(clock))];
      }
    }

    method InsertRunHistory(rec: RunRecord, fails: bool) returns (ok: bool)
      modifies this`history
      ensures ok <==> !fails
      ensures history == if ok then old(history) + [rec] else old(history)
    {
      ok := !fails;
      if ok {
        history := history + [rec];
      }
    }
  }
}
