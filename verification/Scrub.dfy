/** Re-verification of selected files: what a scrub reports and what it changes. */
module Scrub {
  import opened Domain
  import opened ScrubSelection
  import opened Storage

  datatype OnDisk = Missing | Unreadable | Readable(hash: Hash)

  /** The state of a file when the scrub reaches it; a path the map does not list is missing. */
  function Look(disk: map<Path, OnDisk>, path: Path): OnDisk
  {
    if path in disk then disk[path] else Missing
  }

  datatype Finding = Valid | Corrupt | NotFound | HashError

  function Check(files: Table, disk: map<Path, OnDisk>, path: Path): Finding
    requires path in files
  {
    match Look(disk, path)
    case Missing => NotFound
    case Unreadable => HashError
    case Readable(hash) => if hash == files[path].hash then Valid else Corrupt
  }

  /** The selected paths with one kind of finding, in the order of the selection. */
  function WithFinding(files: Table, disk: map<Path, OnDisk>, selected: seq<Path>, finding: Finding): (paths: seq<Path>)
    requires forall i :: 0 <= i < |selected| ==> selected[i] in files
  {
    if selected == [] then []
    else
      var init, last := selected[..|selected| - 1], selected[|selected| - 1];
      WithFinding(files, disk, init, finding) + if Check(files, disk, last) == finding then [last] else []
  }

  datatype ScrubError = FileNotFound(path: Path) | HashFailed(path: Path)

  /** The error messages for the selected paths, in the order of the selection. */
  function ErrorsOf(files: Table, disk: map<Path, OnDisk>, selected: seq<Path>): (errors: seq<ScrubError>)
    requires forall i :: 0 <= i < |selected| ==> selected[i] in files
  {
    if selected == [] then []
    else
      var init, last := selected[..|selected| - 1], selected[|selected| - 1];
      ErrorsOf(files, disk, init) +
      match Check(files, disk, last)
      case NotFound => [FileNotFound(last)]
      case HashError => [HashFailed(last)]
      case _ => []
  }

  /** A path is listed under a finding exactly if it was selected and this is what checking it finds. */
  lemma {:induction false} ListedIff(files: Table, disk: map<Path, OnDisk>, selected: seq<Path>, finding: Finding,
                                     path: Path)
    requires forall i :: 0 <= i < |selected| ==> selected[i] in files
    ensures path in WithFinding(files, disk, selected, finding)
       <==> path in selected && Check(files, disk, path) == finding
  {
    if selected != [] {
      var init, last := selected[..|selected| - 1], selected[|selected| - 1];
      assert selected == init + [last];
      ListedIff(files, disk, init, finding, path);
    }
  }

  /** Every selected file is validated, corrupted or reported as an error, and only once. */
  lemma {:induction false} FindingsPartition(files: Table, disk: map<Path, OnDisk>, selected: seq<Path>)
    requires forall i :: 0 <= i < |selected| ==> selected[i] in files
    ensures |WithFinding(files, disk, selected, Valid)| + |WithFinding(files, disk, selected, Corrupt)|
            + |ErrorsOf(files, disk, selected)| == |selected|
  {
    if selected != [] {
      var init, last := selected[..|selected| - 1], selected[|selected| - 1];
      FindingsPartition(files, disk, init);
    }
  }

  /** The table after the rows in `stamps` were marked as scrubbed at the given seconds. */
  function Stamp(files: Table, stamps: map<Path, int>): (after: Table)
    ensures after.Keys == files.Keys
  {
    map path | path in files :: if path in stamps then Stamped(files[path], stamps[path]) else files[path]
  }

  datatype ScrubResult = ScrubResult(filesValidated: nat, filesCorrupted: seq<Path>, errors: seq<ScrubError>)

  /** What a scrub that gets through the paths in `checked` reports and does; `stamps` are the
      matching files whose rows were updated, `unstamped` those whose update failed. */
  ghost predicate Outcome(files: Table, disk: map<Path, OnDisk>, checked: seq<Path>, res: ScrubResult, after: Table,
                          stamps: map<Path, int>, unstamped: set<Path>)
    requires forall i :: 0 <= i < |checked| ==> checked[i] in files
  {
    && res.filesValidated == |WithFinding(files, disk, checked, Valid)|
    && res.filesCorrupted == WithFinding(files, disk, checked, Corrupt)
    && res.errors == ErrorsOf(files, disk, checked)
    && after == Stamp(files, stamps)
    && stamps.Keys !! unstamped
    && (forall path :: path in stamps || path in unstamped <==> path in WithFinding(files, disk, checked, Valid))
  }

  /** What the outcome says of every file, in terms of what is on disk: listed as corrupted exactly if
      checked, readable and not of the recorded digest; reported as missing or unreadable exactly if it
      is; and otherwise validated, which changes nothing but its scrub time and count. */
  lemma OutcomeOfFile(files: Table, disk: map<Path, OnDisk>, checked: seq<Path>, res: ScrubResult, after: Table,
                      stamps: map<Path, int>, unstamped: set<Path>, path: Path)
    requires forall i :: 0 <= i < |checked| ==> checked[i] in files
    requires Outcome(files, disk, checked, res, after, stamps, unstamped)
    ensures path in res.filesCorrupted
       <==> path in checked && path in disk && disk[path].Readable? && disk[path].hash != files[path].hash
    ensures FileNotFound(path) in res.errors <==> path in checked && (path in disk ==> disk[path].Missing?)
    ensures HashFailed(path) in res.errors <==> path in checked && path in disk && disk[path].Unreadable?
    ensures path in stamps || path in unstamped
       <==> path in checked && path in disk && disk[path] == Readable(files[path].hash)
    ensures path in after <==> path in files
    ensures path in files && path !in stamps ==> after[path] == files[path]
    ensures path in stamps && path in files ==>
              after[path] == files[path].(lastScrubbed := Some(stamps[path]), scrubCount := files[path].scrubCount + 1)
  {
    ListedIff(files, disk, checked, Valid, path);
    ListedIff(files, disk, checked, Corrupt, path);
    ErrorsIff(files, disk, checked, path);
  }

  lemma {:induction false} ErrorsIff(files: Table, disk: map<Path, OnDisk>, selected: seq<Path>, path: Path)
    requires forall i :: 0 <= i < |selected| ==> selected[i] in files
    ensures FileNotFound(path) in ErrorsOf(files, disk, selected)
       <==> path in selected && Check(files, disk, path) == NotFound
    ensures HashFailed(path) in ErrorsOf(files, disk, selected)
       <==> path in selected && Check(files, disk, path) == HashError
  {
    if selected != [] {
      var init, last := selected[..|selected| - 1], selected[|selected| - 1];
      assert selected == init + [last];
      ErrorsIff(files, disk, init, path);
    }
  }

  /** One iteration of the loop. Only updates of paths in `mayBreak` may fail. */
  method ScrubOne(db: Database, disk: map<Path, OnDisk>, rec: FileRecord, mayBreak: set<Path>, res0: ScrubResult,
      ghost files: Table, ghost checked: seq<Path>, ghost stamps0: map<Path, int>, ghost unstamped0: set<Path>)
    returns (res: ScrubResult, ghost stamps: map<Path, int>, ghost unstamped: set<Path>)
    requires rec.absPath in files && rec == Decode(rec.absPath, files[rec.absPath]) && rec.absPath !in checked
    requires forall i :: 0 <= i < |checked| ==> checked[i] in files
    requires Outcome(files, disk, checked, res0, db.files, stamps0, unstamped0) && unstamped0 <= mayBreak
    modifies db`files
    ensures Outcome(files, disk, checked + [rec.absPath], res, db.files, stamps, unstamped) && unstamped <= mayBreak
  {
    res, stamps, unstamped := res0, stamps0, unstamped0;
    var onDisk := Look(disk, rec.absPath);
    if onDisk.Missing? {
      res := res.(errors := res.errors + [FileNotFound(rec.absPath)]);
      return;
    }
    if onDisk.Unreadable? {
      res := res.(errors := res.errors + [HashFailed(rec.absPath)]);
      return;
    }
    if onDisk.hash != rec.hash {
      res := res.(filesCorrupted := res.filesCorrupted + [rec.absPath]);
      return;
    }
    ListedIff(files, disk, checked, Valid, rec.absPath);
    var updated;
    ghost var clock;
    var fails: bool := *;
    updated, clock := db.UpdateScrubStatus(rec.absPath, fails && rec.absPath in mayBreak);
    if updated {
      stamps := stamps[rec.absPath := Unix(clock)];
    } else {
      unstamped := unstamped + {rec.absPath};
    }
    res := res.(filesValidated := res.filesValidated + 1);
  }

  datatype Status = NotStarted | Nil | ContextError

  /** The loop over the selected files. A mismatch is reported, a match is stamped. A
      cancellation between two files ends it; `checked` are the files it has got through. */
  method ScrubSelected(db: Database, disk: map<Path, OnDisk>, files: seq<FileRecord>, mayCancel: bool,
                       mayBreak: set<Path>)
    returns (finished: bool, res: ScrubResult, ghost checked: seq<Path>, ghost stamps: map<Path, int>,
             ghost unstamped: set<Path>)
    requires Distinct(PathsOf(files))
    requires forall i :: 0 <= i < |files| ==>
          files[i].absPath in db.files && files[i] == Decode(files[i].absPath, db.files[files[i].absPath])
    modifies db`files
    ensures checked <= PathsOf(files) && (finished ==> checked == PathsOf(files))
    ensures Outcome(old(db.files), disk, checked, res, db.files, stamps, unstamped) && unstamped <= mayBreak
    ensures !mayCancel ==> finished
  {
    res := ScrubResult(0, [], []);
    checked, stamps, unstamped := [], map[], {};
    ghost var before := db.files;
    assert Stamp(before, map[]) == before;
    var i := 0;
    while i < |files|
      invariant 0 <= i <= |files|
      invariant checked == PathsOf(files)[..i]
      invariant Outcome(before, disk, checked, res, db.files, stamps, unstamped) && unstamped <= mayBreak
    {
      var cancelNow := *;
      if mayCancel && cancelNow {
        return false, res, checked, stamps, unstamped;
      }
      res, stamps, unstamped := ScrubOne(db, disk, files[i], mayBreak, res, before, checked, stamps, unstamped);
      checked := checked + [files[i].absPath];
      i := i + 1;
    }
    finished := true;
  }

  /** Selects files and re-hashes them one after the other. `fails` says whether
      selecting fails, and only updates of paths in `mayBreak` may fail. */
  method ScrubFiles(db: Database, disk: map<Path, OnDisk>, percentage: real, minAgeDays: Option<int>, now: int,
                    mayCancel: bool, fails: bool, mayBreak: set<Path>)
    returns (status: Status, res: ScrubResult, ghost selected: seq<Path>, ghost checked: seq<Path>,
             ghost stamps: map<Path, int>, ghost unstamped: set<Path>)
    modifies db`files
    ensures status.NotStarted? ==> db.files == old(db.files)
    ensures fails ==> status.NotStarted?
    ensures !status.NotStarted? ==>
      var eligible := Eligible(old(db.files), Cutoff(minAgeDays, now));
      && IsSelection(old(db.files), eligible, SelectionSize(|eligible|, percentage), selected)
      && IsOldestDue(old(db.files), minAgeDays, now, percentage, selected)
    ensures !status.NotStarted? ==> checked <= selected && (status.Nil? ==> checked == selected)
    ensures !status.NotStarted? ==>
      Outcome(old(db.files), disk, checked, res, db.files, stamps, unstamped) && unstamped <= mayBreak
    ensures !mayCancel ==> !status.ContextError? && (status.Nil? <==> !fails)
  {
    res := ScrubResult(0, [], []);
    selected, checked, stamps, unstamped := [], [], map[], {};
    var cancelledBefore := *;
    if mayCancel && cancelledBefore {
      return NotStarted, res, selected, checked, stamps, unstamped;
    }
    var ok, files := db.GetFilesForScrub(percentage, minAgeDays, now, fails);
    if !ok {
      return NotStarted, res, selected, checked, stamps, unstamped;
    }
    selected := PathsOf(files);
    var finished;
    finished, res, checked, stamps, unstamped := ScrubSelected(db, disk, files, mayCancel, mayBreak);
    status := if finished then Nil else ContextError;
  }

  // ---------- accounting ----------

  ghost function TotalScrubs(files: Table): int
    decreases files.Keys
  {
    if files == map[] then 0
    else var path :| path in files; files[path].scrubCount + TotalScrubs(files - {path})
  }

  lemma {:induction false} TotalWithout(files: Table, path: Path)
    requires path in files
    ensures TotalScrubs(files) == files[path].scrubCount + TotalScrubs(files - {path})
    decreases files.Keys
  {
    var first :| first in files && TotalScrubs(files) == files[first].scrubCount + TotalScrubs(files - {first});
    if first != path {
      TotalWithout(files - {first}, path);
      TotalWithout(files - {path}, first);
      assert files - {first} - {path} == files - {path} - {first};
    }
  }

  lemma StampOne(files: Table, stamps: map<Path, int>, path: Path)
    requires path in stamps && path in files
    ensures TotalScrubs(Stamp(files, stamps)) == TotalScrubs(Stamp(files, stamps - {path})) + 1
  {
    var after, before := Stamp(files, stamps), Stamp(files, stamps - {path});
    TotalWithout(after, path);
    TotalWithout(before, path);
    assert after - {path} == before - {path};
  }

  lemma {:induction false} StampCounts(files: Table, stamps: map<Path, int>)
    requires stamps.Keys <= files.Keys
    ensures TotalScrubs(Stamp(files, stamps)) == TotalScrubs(files) + |stamps|
    decreases stamps.Keys
  {
    if stamps == map[] {
      assert Stamp(files, stamps) == files;
    } else {
      var path :| path in stamps;
      StampOne(files, stamps, path);
      StampCounts(files, stamps - {path});
      assert (stamps - {path}).Keys == stamps.Keys - {path};
    }
  }

  lemma {:induction false} ValidAreDistinct(files: Table, disk: map<Path, OnDisk>, selected: seq<Path>)
    requires Distinct(selected) && forall i :: 0 <= i < |selected| ==> selected[i] in files
    ensures var valid := WithFinding(files, disk, selected, Valid); |set path | path in valid| == |valid|
  {
    if selected != [] {
      var init, last := selected[..|selected| - 1], selected[|selected| - 1];
      ValidAreDistinct(files, disk, init);
      ListedIff(files, disk, init, Valid, last);
      var before, valid := WithFinding(files, disk, init, Valid), WithFinding(files, disk, selected, Valid);
      assert last !in init && last !in before;
      if Check(files, disk, last) == Valid {
        assert valid == before + [last];
        assert (set path | path in valid) == (set path | path in before) + {last};
      } else {
        assert valid == before;
      }
    }
  }

  lemma StampedAreValid(files: Table, disk: map<Path, OnDisk>, selected: seq<Path>, stamps: map<Path, int>,
                        unstamped: set<Path>)
    requires Distinct(selected) && forall i :: 0 <= i < |selected| ==> selected[i] in files
    requires stamps.Keys !! unstamped
    requires forall path :: path in stamps || path in unstamped <==> path in WithFinding(files, disk, selected, Valid)
    ensures stamps.Keys <= files.Keys && |stamps| + |unstamped| == |WithFinding(files, disk, selected, Valid)|
  {
    var valid := WithFinding(files, disk, selected, Valid);
    ValidAreDistinct(files, disk, selected);
    forall path | path in stamps ensures path in files {
      ListedIff(files, disk, selected, Valid, path);
    }
    assert (set path | path in valid) == stamps.Keys + unstamped;
    assert |stamps.Keys + unstamped| == |stamps.Keys| + |unstamped|;
  }

  /** A scrub that is not cancelled accounts for every selected file; it changes no digest; and
      if every update succeeds, scrub counts grow by exactly the number of validated files. */
  lemma ScrubAccounts(files: Table, disk: map<Path, OnDisk>, selected: seq<Path>, res: ScrubResult, after: Table,
                      stamps: map<Path, int>, unstamped: set<Path>)
    requires Distinct(selected) && forall i :: 0 <= i < |selected| ==> selected[i] in files
    requires Outcome(files, disk, selected, res, after, stamps, unstamped)
    ensures res.filesValidated + |res.filesCorrupted| + |res.errors| == |selected|
    ensures after.Keys == files.Keys && forall path :: path in files ==> after[path].hash == files[path].hash
    ensures TotalScrubs(after) + |unstamped| == TotalScrubs(files) + res.filesValidated
  {
    FindingsPartition(files, disk, selected);
    StampedAreValid(files, disk, selected, stamps, unstamped);
    StampCounts(files, stamps);
  }
}
