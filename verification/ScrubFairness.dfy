/** Whether repeated scrubs reach every file. Files that do not validate keep their timestamps
    and so stay at the head of the queue; what matters is whether they fill the quota. */
module ScrubFairness {
  import opened Domain
  import opened ScrubSelection
  import opened Storage
  import opened Scrub

  /** One scrub: what it selected, and the files it validated with the second of their update. */
  datatype Round = Round(selected: seq<Path>, stamps: map<Path, int>)

  /** A scrub without an age filter that takes `n` files, in a later second than all scrubs before it. */
  ghost predicate LegalRound(files: Table, n: nat, r: Round)
  {
    && IsSelection(files, files.Keys, n, r.selected)
    && (forall path :: path in r.stamps ==> path in r.selected)
    && (forall path, other :: path in r.stamps && other in files && files[other].lastScrubbed.Some? ==>
          files[other].lastScrubbed.value < r.stamps[path])
  }

  ghost predicate Legal(files: Table, n: nat, rounds: seq<Round>)
    decreases |rounds|
  {
    rounds == [] || (LegalRound(files, n, rounds[0]) && Legal(Stamp(files, rounds[0].stamps), n, rounds[1..]))
  }

  function After(files: Table, rounds: seq<Round>): Table
    decreases |rounds|
  {
    if rounds == [] then files else After(Stamp(files, rounds[0].stamps), rounds[1..])
  }

  /** Whenever a file outside `failing` is selected, it validates. */
  ghost predicate HealthyValidate(failing: set<Path>, rounds: seq<Round>)
  {
    forall k, path :: 0 <= k < |rounds| && path in rounds[k].selected && path !in failing ==> path in rounds[k].stamps
  }

  lemma AllEligible(files: Table)
    ensures Eligible(files, None) == files.Keys
  {
  }

  /** An uncancelled scrub without an age filter whose updates all happen in later seconds is a
      legal round; it stamps the selected files that match their digests and could be updated. */
  lemma ScrubIsRound(files: Table, disk: map<Path, OnDisk>, percentage: real, now: int, selected: seq<Path>,
                     res: ScrubResult, after: Table, stamps: map<Path, int>, unstamped: set<Path>)
    requires var eligible := Eligible(files, Cutoff(None, now));
             IsSelection(files, eligible, SelectionSize(|eligible|, percentage), selected)
    requires Outcome(files, disk, selected, res, after, stamps, unstamped)
    requires forall path, other :: path in stamps && other in files && files[other].lastScrubbed.Some? ==>
               files[other].lastScrubbed.value < stamps[path]
    ensures LegalRound(files, SelectionSize(|files|, percentage), Round(selected, stamps))
    ensures after == Stamp(files, stamps)
    ensures forall path :: path in selected ==>
              (path in stamps <==> Check(files, disk, path) == Valid && path !in unstamped)
  {
    AllEligible(files);
    assert |files.Keys| == |files|;
    forall path ensures path in stamps || path in unstamped <==> path in selected && Check(files, disk, path) == Valid {
      ListedIff(files, disk, selected, Valid, path);
    }
  }

  // ---------- bounded fairness ----------

  /** The healthy files scrubbed no later than the given time: those that may still come before a file of that time. */
  ghost function NotYounger(files: Table, failing: set<Path>, time: Option<int>): set<Path>
  {
    set path | path in files && path !in failing && !Older(time, files[path].lastScrubbed)
  }

  lemma SelectedHealthy(files: Table, n: nat, failing: set<Path>, selected: seq<Path>) returns (healthy: set<Path>)
    requires IsSelection(files, files.Keys, n, selected) && |failing| < n
    ensures healthy == set path | path in selected && path !in failing
    ensures |healthy| >= n - |failing|
  {
    healthy := set path | path in selected && path !in failing;
    DistinctSize(selected, files.Keys);
    var all := set path | path in selected;
    assert all <= healthy + failing;
    SubsetSize(all, healthy + failing);
    assert |healthy + failing| <= |healthy| + |failing|;
  }

  lemma {:induction false} SubsetSize<T>(a: set<T>, b: set<T>)
    requires a <= b
    ensures |a| <= |b|
    decreases a
  {
    if a != {} {
      var x :| x in a;
      SubsetSize(a - {x}, b - {x});
    }
  }

  /** A round that passes over a healthy file validates at least `n - m` healthy files that were
      not younger, and these are then younger than it. */
  lemma RoundShrinks(files: Table, n: nat, failing: set<Path>, r: Round, path: Path)
    requires LegalRound(files, n, r) && |failing| < n && path in files && path !in failing && path !in r.stamps
    requires forall p :: p in r.selected && p !in failing ==> p in r.stamps
    ensures var time := files[path].lastScrubbed; var after := Stamp(files, r.stamps);
      && path in after && after[path].lastScrubbed == time
      && |NotYounger(after, failing, time)| + n - |failing| <= |NotYounger(files, failing, time)|
  {
    var time := files[path].lastScrubbed;
    var after := Stamp(files, r.stamps);
    var healthy := SelectedHealthy(files, n, failing, r.selected);
    assert path !in r.selected;
    forall p | p in healthy ensures p in NotYounger(files, failing, time) && p !in NotYounger(after, failing, time) {
      var i :| 0 <= i < n && r.selected[i] == p;
      assert !Older(files[path].lastScrubbed, files[r.selected[i]].lastScrubbed);
      assert p in r.stamps && after[p].lastScrubbed == Some(r.stamps[p]);
    }
    forall p | p in r.stamps ensures p !in NotYounger(after, failing, time) {
      var i :| 0 <= i < n && r.selected[i] == p;
      assert after[p].lastScrubbed == Some(r.stamps[p]);
    }
    assert NotYounger(after, failing, time) <= NotYounger(files, failing, time) - healthy;
    SubsetSize(NotYounger(after, failing, time), NotYounger(files, failing, time) - healthy);
    assert healthy <= NotYounger(files, failing, time);
    assert |NotYounger(files, failing, time) - healthy| == |NotYounger(files, failing, time)| - |healthy|;
  }

  lemma OneTimeMore(k: nat, d: int)
    ensures (k + 1) * d == k * d + d
  {
  }

  /** Rounds that all pass over a healthy file use up the healthy files that are not younger. */
  lemma {:induction false} PassedOver(files: Table, n: nat, failing: set<Path>, rounds: seq<Round>, path: Path)
    requires Legal(files, n, rounds) && HealthyValidate(failing, rounds) && |failing| < n
    requires path in files && path !in failing && forall k :: 0 <= k < |rounds| ==> path !in rounds[k].stamps
    ensures |rounds| * (n - |failing|) < |NotYounger(files, failing, files[path].lastScrubbed)|
    decreases |rounds|
  {
    var time := files[path].lastScrubbed;
    if rounds == [] {
      assert path in NotYounger(files, failing, time);
    } else {
      RoundShrinks(files, n, failing, rounds[0], path);
      var after := Stamp(files, rounds[0].stamps);
      var rest := rounds[1..];
      forall k, p | 0 <= k < |rest| && p in rest[k].selected && p !in failing ensures p in rest[k].stamps {
        assert rest[k] == rounds[k + 1];
      }
      PassedOver(after, n, failing, rest, path);
      OneTimeMore(|rest|, n - |failing|);
    }
  }

  /** If fewer files fail than a scrub selects, every other file is validated at least once in
      as many consecutive scrubs as it takes to go through the healthy files `n - m` at a time. */
  lemma BoundedFairness(files: Table, n: nat, failing: set<Path>, rounds: seq<Round>, path: Path)
    requires Legal(files, n, rounds) && HealthyValidate(failing, rounds)
    requires failing <= files.Keys && |failing| < n && path in files && path !in failing
    requires |rounds| * (n - |failing|) >= |files| - |failing|
    ensures exists k :: 0 <= k < |rounds| && path in rounds[k].stamps
  {
    if forall k :: 0 <= k < |rounds| ==> path !in rounds[k].stamps {
      var ahead := NotYounger(files, failing, files[path].lastScrubbed);
      SubsetSize(ahead, files.Keys - failing);
      assert |files.Keys - failing| == |files.Keys| - |failing|;
      assert |files.Keys| == |files|;
      PassedOver(files, n, failing, rounds, path);
    }
  }

  lemma {:induction false} LegalSuffix(files: Table, n: nat, rounds: seq<Round>, from: nat)
    requires Legal(files, n, rounds) && from <= |rounds|
    ensures Legal(After(files, rounds[..from]), n, rounds[from..])
    ensures After(files, rounds[..from]).Keys == files.Keys
    decreases |rounds|
  {
    if from == 0 {
      assert rounds[from..] == rounds && rounds[..from] == [];
    } else {
      assert rounds[..from][1..] == rounds[1..][..from - 1];
      assert rounds[from..] == rounds[1..][from - 1..];
      LegalSuffix(Stamp(files, rounds[0].stamps), n, rounds[1..], from - 1);
    }
  }

  lemma {:induction false} LegalPrefix(files: Table, n: nat, rounds: seq<Round>, to: nat)
    requires Legal(files, n, rounds) && to <= |rounds|
    ensures Legal(files, n, rounds[..to])
    decreases |rounds|
  {
    if to > 0 {
      assert rounds[..to][1..] == rounds[1..][..to - 1];
      LegalPrefix(Stamp(files, rounds[0].stamps), n, rounds[1..], to - 1);
    }
  }

  lemma WindowIsHealthy(failing: set<Path>, rounds: seq<Round>, from: nat, count: nat)
    requires HealthyValidate(failing, rounds) && from + count <= |rounds|
    ensures HealthyValidate(failing, rounds[from..][..count])
  {
  }

  /** So it is in every such window of an arbitrarily long sequence of scrubs. */
  lemma FairInEveryWindow(files: Table, n: nat, failing: set<Path>, rounds: seq<Round>, path: Path, from: nat,
                          count: nat)
    requires Legal(files, n, rounds) && HealthyValidate(failing, rounds)
    requires failing <= files.Keys && |failing| < n && path in files && path !in failing
    requires from + count <= |rounds| && count * (n - |failing|) >= |files| - |failing|
    ensures exists k :: from <= k < from + count && path in rounds[k].stamps
  {
    var midway := After(files, rounds[..from]);
    LegalSuffix(files, n, rounds, from);
    LegalPrefix(midway, n, rounds[from..], count);
    WindowIsHealthy(failing, rounds, from, count);
    assert |midway| == |midway.Keys| == |files.Keys| == |files|;
    var window := rounds[from..][..count];
    BoundedFairness(midway, n, failing, window, path);
    var k :| 0 <= k < |window| && path in window[k].stamps;
    assert rounds[from + k] == window[k];
  }

  /** The smallest such number of scrubs: `(files - failing) / (n - failing)`, rounded up. */
  function Window(healthy: nat, spare: nat): (w: nat)
    requires healthy > 0 && spare > 0
    ensures w * spare >= healthy > (w - 1) * spare
  {
    var w := (healthy + spare - 1) / spare;
    DivBounds(healthy, spare, w);
    w
  }

  lemma DivBounds(a: nat, d: nat, w: int)
    requires a > 0 && d > 0 && w == (a + d - 1) / d
    ensures w > 0 && w * d >= a > (w - 1) * d
  {
    assert a + d - 1 == w * d + (a + d - 1) % d;
    assert (w - 1) * d == w * d - d;
  }

  lemma FairWithinWindow(files: Table, n: nat, failing: set<Path>, rounds: seq<Round>, path: Path, from: nat)
    requires Legal(files, n, rounds) && HealthyValidate(failing, rounds)
    requires failing <= files.Keys && |failing| < n && |failing| < |files| && path in files && path !in failing
    requires from + Window(|files| - |failing|, n - |failing|) <= |rounds|
    ensures exists k :: from <= k < from + Window(|files| - |failing|, n - |failing|) && path in rounds[k].stamps
  {
    FairInEveryWindow(files, n, failing, rounds, path, from, Window(|files| - |failing|, n - |failing|));
  }

  // ---------- starvation ----------

  /** The failing files were all scrubbed strictly before all others, or never. */
  ghost predicate FailingAhead(files: Table, failing: set<Path>)
  {
    failing <= files.Keys &&
    forall path, other :: path in failing && other in files && other !in failing ==>
        Older(files[path].lastScrubbed, files[other].lastScrubbed)
  }

  lemma LargerSetHasMore<T>(large: set<T>, small: set<T>) returns (x: T)
    requires |large| > |small|
    ensures x in large && x !in small
  {
    if large <= small {
      SubsetSize(large, small);
    }
    x :| x in large && x !in small;
  }

  lemma OnlyFailingSelected(files: Table, n: nat, failing: set<Path>, selected: seq<Path>)
    requires IsSelection(files, files.Keys, n, selected) && FailingAhead(files, failing) && |failing| >= n
    ensures forall i :: 0 <= i < n ==> selected[i] in failing
  {
    forall i | 0 <= i < n ensures selected[i] in failing {
      DistinctSize(selected, files.Keys);
      var others := (set path | path in selected) - {selected[i]};
      assert |others| == n - 1;
      var left := LargerSetHasMore(failing, others);
      assert left == selected[i] || left !in selected;
      assert left !in selected ==> !Older(files[left].lastScrubbed, files[selected[i]].lastScrubbed);
    }
  }

  /** If at least as many files fail as a scrub selects and they come first, no scrub ever
      validates anything again, whatever order ties are taken in. */
  lemma {:induction false} Starvation(files: Table, n: nat, failing: set<Path>, rounds: seq<Round>)
    requires Legal(files, n, rounds) && FailingAhead(files, failing) && |failing| >= n
    requires forall k, path :: 0 <= k < |rounds| && path in failing ==> path !in rounds[k].stamps
    ensures forall k :: 0 <= k < |rounds| ==> rounds[k].stamps == map[]
    ensures After(files, rounds) == files
    decreases |rounds|
  {
    if rounds != [] {
      var r, rest := rounds[0], rounds[1..];
      OnlyFailingSelected(files, n, failing, r.selected);
      assert forall path :: path in r.selected ==> path in failing;
      assert forall path :: path in failing ==> path !in rounds[0].stamps;
      assert r.stamps.Keys == {};
      assert Stamp(files, r.stamps) == files;
      forall k, path | 0 <= k < |rest| && path in failing ensures path !in rest[k].stamps {
        assert rest[k] == rounds[k + 1];
      }
      Starvation(files, n, failing, rest);
      forall k | 0 <= k < |rounds| ensures rounds[k].stamps == map[] {
        if k > 0 { assert rounds[k] == rest[k - 1]; }
      }
    }
  }

  function Name(i: nat): Path
  {
    seq(i + 1, _ => 'a')
  }

  function Names(count: nat): set<Path>
  {
    set i | 0 <= i < count :: Name(i)
  }

  /** `failing` files never scrubbed, and `total - failing` scrubbed at second 0. */
  function BadTable(total: nat, failing: nat): Table
  {
    map path | path in Names(total) :: Row("h", 1, 1, if |path| <= failing then None else Some(0), 0, 0, 0)
  }

  lemma {:induction false} NamesSize(count: nat)
    ensures |Names(count)| == count
  {
    if count > 0 {
      NamesSize(count - 1);
      assert forall i :: 0 <= i < count - 1 ==> |Name(i)| == i + 1;
      assert Name(count - 1) !in Names(count - 1);
      assert Names(count) == Names(count - 1) + {Name(count - 1)};
    }
  }

  lemma BadTableIsBad(total: nat, m: nat)
    requires m < total
    ensures |BadTable(total, m)| == total && |Names(m)| == m && FailingAhead(BadTable(total, m), Names(m))
    ensures Name(m) in BadTable(total, m) && Name(m) !in Names(m)
  {
    var files := BadTable(total, m);
    NamesSize(total);
    NamesSize(m);
    assert files.Keys == Names(total);
    assert |files| == |files.Keys|;
    assert forall i :: 0 <= i < total ==> |Name(i)| == i + 1;
    forall path | path in Names(total) ensures path in Names(m) <==> |path| <= m {
      var i :| 0 <= i < total && path == Name(i);
    }
  }

  lemma RepeatIsLegal(files: Table, n: nat, r: Round, times: nat) returns (rounds: seq<Round>)
    requires LegalRound(files, n, r) && Stamp(files, r.stamps) == files
    ensures |rounds| == times && Legal(files, n, rounds) && forall k :: 0 <= k < times ==> rounds[k] == r
  {
    if times == 0 {
      rounds := [];
    } else {
      var rest := RepeatIsLegal(files, n, r, times - 1);
      rounds := [r] + rest;
      assert rounds[1..] == rest;
    }
  }

  /** For every number of files and every quota that does not exceed the number of failing files,
      there is a table from which scrubs can go on for any number of rounds, in all of which the
      healthy files would validate if they were selected, and never reach one of them. */
  lemma StarvingRunExists(total: nat, m: nat, n: nat, times: nat)
    returns (files: Table, failing: set<Path>, healthy: Path, rounds: seq<Round>)
    requires 1 <= n <= m < total
    ensures |files| == total && failing <= files.Keys && |failing| == m && healthy in files && healthy !in failing
    ensures |rounds| == times && Legal(files, n, rounds) && HealthyValidate(failing, rounds)
    ensures forall k :: 0 <= k < times ==> healthy !in rounds[k].selected && healthy !in rounds[k].stamps
  {
    files, failing, healthy := BadTable(total, m), Names(m), Name(m);
    BadTableIsBad(total, m);
    var all := SelectionIsPrefix(files, files.Keys, 0, []);
    PrefixIsSelection(files, files.Keys, all, n);
    var r := Round(all[..n], map[]);
    OnlyFailingSelected(files, n, failing, r.selected);
    assert Stamp(files, map[]) == files;
    rounds := RepeatIsLegal(files, n, r, times);
  }

  /** Whatever the table and the failing files are, `w` scrubs validate every other file. */
  ghost predicate FairWithin(total: nat, m: nat, n: nat, w: nat)
  {
    forall files: Table, failing: set<Path>, rounds, path ::
      |files| == total && failing <= files.Keys && |failing| == m && path in files && path !in failing
      && Legal(files, n, rounds) && HealthyValidate(failing, rounds) && |rounds| == w
      ==> ValidatedIn(rounds, path)
  }

  ghost predicate ValidatedIn(rounds: seq<Round>, path: Path)
  {
    exists k :: 0 <= k < |rounds| && path in rounds[k].stamps
  }

  /** Scrubbing is fair within some bound exactly if fewer files fail than a scrub selects. */
  lemma FairExactly(total: nat, m: nat, n: nat)
    requires m < total && 1 <= n <= total
    ensures (exists w :: FairWithin(total, m, n, w)) <==> m < n
  {
    if m < n {
      var w := Window(total - m, n - m);
      forall files: Table, failing: set<Path>, rounds, path |
        |files| == total && failing <= files.Keys && |failing| == m && path in files && path !in failing
        && Legal(files, n, rounds) && HealthyValidate(failing, rounds) && |rounds| == w
        ensures ValidatedIn(rounds, path)
      {
        BoundedFairness(files, n, failing, rounds, path);
      }
      assert FairWithin(total, m, n, w);
    } else {
      forall w: nat ensures !FairWithin(total, m, n, w) {
        var files, failing, healthy, rounds := StarvingRunExists(total, m, n, w);
        assert !ValidatedIn(rounds, healthy);
      }
    }
  }
}
