/** Which files a scrub re-verifies: the least recently scrubbed share of the eligible rows. */
module ScrubSelection {
  import opened Domain

  /** A row is eligible if no age filter is set, or it was never scrubbed, or last before the cutoff. */
  function Eligible(files: Table, cutoff: Option<int>): (eligible: set<Path>)
  {
    set path | path in files &&
      (cutoff.None? || files[path].lastScrubbed.None? || files[path].lastScrubbed.value < cutoff.value)
  }

  /** The sort order of `last_scrubbed`: NULL before every time. */
  predicate Older(a: Option<int>, b: Option<int>)
  {
    (a.None? && b.Some?) || (a.Some? && b.Some? && a.value < b.value)
  }

  /** How many of `count` eligible rows are selected: the largest number within the percentage,
      but at least one if there is one, and never more than there are. */
  function SelectionSize(count: nat, percentage: real): (n: nat)
    ensures n <= count
    ensures count > 0 ==> n >= 1
    ensures n > 1 ==> n as real * 100.0 <= count as real * percentage
    ensures n < count ==> (n + 1) as real * 100.0 > count as real * percentage
  {
    var share := (count as real * percentage / 100.0).Floor;
    var n := if share > 1 then share else 1;
    if n > count then count else n
  }

  lemma WholeIsSelected(count: nat, percentage: real)
    requires percentage >= 100.0
    ensures SelectionSize(count, percentage) == count
  {
    assert count as real * percentage >= count as real * 100.0;
  }

  lemma {:induction false} SubsetIsAll<T>(a: set<T>, b: set<T>)
    requires a <= b && |a| == |b|
    ensures a == b
    decreases a
  {
    if a == {} {
      assert |b| == 0;
    } else {
      var x :| x in a;
      SubsetIsAll(a - {x}, b - {x});
    }
  }

  predicate Distinct(paths: seq<Path>)
  {
    forall i, j :: 0 <= i < j < |paths| ==> paths[i] != paths[j]
  }

  /** `selected` are `n` of the eligible rows, oldest first, and no row left out is older than one taken.
      Ties may be broken in any way. */
  ghost predicate IsSelection(files: Table, eligible: set<Path>, n: nat, selected: seq<Path>)
  {
    && eligible <= files.Keys
    && |selected| == n
    && Distinct(selected)
    && (forall i :: 0 <= i < n ==> selected[i] in eligible)
    && (forall i, j :: 0 <= i < j < n ==> !Older(files[selected[j]].lastScrubbed, files[selected[i]].lastScrubbed))
    && (forall i, path :: 0 <= i < n && path in eligible && path !in selected ==>
          !Older(files[path].lastScrubbed, files[selected[i]].lastScrubbed))
  }

  /** Some row is not younger than any other one. */
  lemma {:induction false} OldestExists(files: Table, rows: set<Path>) returns (oldest: Path)
    requires rows <= files.Keys && rows != {}
    ensures oldest in rows && forall path :: path in rows ==>
          !Older(files[path].lastScrubbed, files[oldest].lastScrubbed)
    decreases rows
  {
    var first :| first in rows;
    oldest := first;
    var rest := rows - {first};
    if rest != {} {
      var other := OldestExists(files, rest);
      if Older(files[other].lastScrubbed, files[first].lastScrubbed) {
        oldest := other;
      }
    }
    assert forall path :: path in rows ==> path == first || path in rest;
  }

  lemma DistinctSize(paths: seq<Path>, all: set<Path>)
    requires Distinct(paths) && forall i :: 0 <= i < |paths| ==> paths[i] in all
    ensures |paths| <= |all|
    ensures |set path | path in paths| == |paths|
    decreases |paths|
  {
    if paths != [] {
      var last := |paths| - 1;
      var init := paths[..last];
      DistinctSize(init, all - {paths[last]});
      assert (set path | path in paths) == (set path | path in init) + {paths[last]};
    }
  }

  /** The whole, if that is asked for. */
  lemma WholeSelection(files: Table, eligible: set<Path>, percentage: real, selected: seq<Path>)
    requires IsSelection(files, eligible, SelectionSize(|eligible|, percentage), selected) && percentage >= 100.0
    ensures forall path :: path in eligible ==> path in selected
  {
    WholeIsSelected(|eligible|, percentage);
    DistinctSize(selected, eligible);
    var taken := set path | path in selected;
    SubsetIsAll(taken, eligible);
  }

  /** Every prefix of a full ordering of the eligible rows is a selection. */
  lemma PrefixIsSelection(files: Table, eligible: set<Path>, all: seq<Path>, n: nat)
    requires IsSelection(files, eligible, |eligible|, all) && n <= |all|
    ensures IsSelection(files, eligible, n, all[..n])
  {
  }

  lemma TakeNext(files: Table, eligible: set<Path>, n: nat, selected: seq<Path>, next: Path)
    requires IsSelection(files, eligible, n, selected) && next in eligible && next !in selected
    requires forall path :: path in eligible && path !in selected ==>
          !Older(files[path].lastScrubbed, files[next].lastScrubbed)
    ensures IsSelection(files, eligible, n + 1, selected + [next])
  {
  }

  lemma OldestLeft(files: Table, eligible: set<Path>, selected: seq<Path>) returns (next: Path)
    requires eligible <= files.Keys && Distinct(selected) && |selected| < |eligible|
    requires forall i :: 0 <= i < |selected| ==> selected[i] in eligible
    ensures next in eligible && next !in selected
    ensures forall path :: path in eligible && path !in selected ==>
          !Older(files[path].lastScrubbed, files[next].lastScrubbed)
  {
    DistinctSize(selected, eligible);
    var taken := set path | path in selected;
    var left := eligible - taken;
    assert taken <= eligible;
    assert eligible == taken + left;
    next := OldestExists(files, left);
    assert forall path :: path in eligible && path !in selected ==> path in left;
  }

  /** And every selection can be continued to a full ordering, so the selections are exactly the prefixes. */
  lemma {:induction false} SelectionIsPrefix(files: Table, eligible: set<Path>, n: nat, selected: seq<Path>)
    returns (all: seq<Path>)
    requires IsSelection(files, eligible, n, selected)
    ensures n <= |all| && all[..n] == selected
    ensures IsSelection(files, eligible, |eligible|, all)
    decreases |eligible| - n
  {
    DistinctSize(selected, eligible);
    if n == |eligible| {
      all := selected;
    } else {
      var next := OldestLeft(files, eligible, selected);
      TakeNext(files, eligible, n, selected, next);
      all := SelectionIsPrefix(files, eligible, n + 1, selected + [next]);
      assert all[..n] == all[..n + 1][..n];
    }
  }
}
