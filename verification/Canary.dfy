/** The canary over any history of runs: where its contents come from, when they agree with
    production, and what a run that compares the two finds. */
module Canary {
  import opened Domain
  import opened DriveModel

  /** The canary holds nothing, what it held in the beginning, or the beginning of the checksum
      of a production database that some run committed. */
  ghost predicate CanaryOrigin(sum: Image -> string, initial: Option<string>, s: State)
  {
    s.dir.canary.Some? ==>
      || s.dir.canary.value == ""
      || s.dir.canary == initial
      || exists k :: 0 <= k < |s.commits| && s.dir.canary.value <= sum(s.commits[k].final)
  }

  /** If no canary write is owed, the canary is missing, empty, in agreement with production, or untouched. */
  ghost predicate CanaryAgrees(sum: Image -> string, initial: Option<string>, s: State)
  {
    !s.owed && s.dir.canary.Some? && s.dir.canary.value != "" ==>
      if s.commits == [] then s.dir.canary == initial
      else s.dir.canary.value == sum(s.commits[|s.commits| - 1].final)
  }

  ghost predicate CanaryInv(sum: Image -> string, prod: Option<DbFile>, initial: Option<string>, s: State)
  {
    && SafeInv(prod, s)
    && CanaryOrigin(sum, initial, s)
    && CanaryAgrees(sum, initial, s)
    && (s.phase.Committed? || s.phase.Truncated? ==> s.owed)
    && (s.commits == [] ==> !s.owed)
  }

  lemma StepKeepsCanary(sum: Image -> string, prod: Option<DbFile>, initial: Option<string>, s: State, e: Event)
    requires CanaryInv(sum, prod, initial, s) && Enabled(sum, s, e)
    ensures CanaryInv(sum, prod, initial, Apply(sum, s, e))
  {
    StepKeepsSafe(sum, prod, s, e);
  }

  /** Over every history, the canary comes from the beginning or from a committed database, and
      it can disagree with production only while a canary write is owed. */
  lemma {:induction false} CanaryHistory(sum: Image -> string, prod: Option<DbFile>, initial: Option<string>, s: State,
                                         events: seq<Event>)
    requires CanaryInv(sum, prod, initial, s) && IsHistory(sum, s, events)
    ensures CanaryInv(sum, prod, initial, After(sum, s, events))
    decreases |events|
  {
    if events != [] {
      StepKeepsCanary(sum, prod, initial, s, events[0]);
      CanaryHistory(sum, prod, initial, Apply(sum, s, events[0]), events[1..]);
    }
  }

  /** Self-healing: a completed canary write makes the canary the checksum of production, however
      far the two had drifted apart. */
  lemma CanaryHeals(sum: Image -> string, prod: Option<DbFile>, s: State, written: nat)
    requires SafeInv(prod, s) && Enabled(sum, s, FinishCanary(written))
    requires written == |sum(s.dir.prod.value.image)|
    ensures var t := Apply(sum, s, FinishCanary(written));
      t.commits != [] && t.dir.canary == Some(sum(t.commits[|t.commits| - 1].final)) && !t.owed
  {
    var text := sum(s.dir.prod.value.image);
    assert text[..|text|] == text;
  }

  /** What a run has read from the canary is the checksum of production, unless a canary write was
      owed, or the canary was empty or is older than the first commit. */
  ghost predicate StoredInv(sum: Image -> string, s: State)
  {
    (s.phase.Checked? || s.phase.Cleaned? || s.phase.Copying? || s.phase.Copied? || s.phase.Open?)
    && !s.owed && s.phase.stored != "" && s.commits != []
    ==> s.phase.stored == sum(s.commits[|s.commits| - 1].final)
  }

  lemma StepKeepsStored(sum: Image -> string, prod: Option<DbFile>, initial: Option<string>, s: State, e: Event)
    requires CanaryInv(sum, prod, initial, s) && StoredInv(sum, s) && Enabled(sum, s, e)
    ensures StoredInv(sum, Apply(sum, s, e))
  {
  }

  lemma {:induction false} StoredHistory(sum: Image -> string, prod: Option<DbFile>, initial: Option<string>, s: State,
                                         events: seq<Event>)
    requires CanaryInv(sum, prod, initial, s) && StoredInv(sum, s) && IsHistory(sum, s, events)
    ensures StoredInv(sum, After(sum, s, events))
    decreases |events|
  {
    if events != [] {
      StepKeepsCanary(sum, prod, initial, s, events[0]);
      StepKeepsStored(sum, prod, initial, s, events[0]);
      StoredHistory(sum, prod, initial, Apply(sum, s, events[0]), events[1..]);
    }
  }

  /** So in every history in which no harmful journal survives a crash, the verification of a run
      passes: the database it has opened has the checksum that it has read from the canary,
      unless a write of the canary has failed since production was last replaced. */
  lemma VerificationPasses(sum: Image -> string, dir: Dir, events: seq<Event>)
    requires dir.journal.Some? ==> Agrees(Contents(dir.prod), dir.journal.value)
    requires IsHistory(sum, Init(dir), events) && Tidy(sum, Init(dir), events)
    requires var t := After(sum, Init(dir), events);
             t.phase.Open? && t.commits != [] && t.phase.stored != ""
    ensures var t := After(sum, Init(dir), events); sum(t.phase.start) == t.phase.stored || t.owed
  {
    CommitsChain(sum, dir.prod, Init(dir), events);
    StoredHistory(sum, dir.prod, dir.canary, Init(dir), events);
  }
}
