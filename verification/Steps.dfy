/** What single steps of the protocol mean (src/backup.rs, src/archive.rs, src/gc_lock.rs). */
module ProtocolSteps {
  import opened Base
  import opened Entries
  import opened Sorting
  import opened Storage
  import opened Index
  import opened Stitch
  import opened BlockDirs
  import opened Backup
  import opened GarbageCollection
  import opened Protocol

  // ----- the lock

  /** Taking the lock takes a complete last band and a free lock; a stale lock can be broken first. */
  lemma LockSteps(s: State)
    requires s.gc.NoGc?
    ensures (Enabled(s, LookAtLastBand) && Enabled(Apply(s, LookAtLastBand), TakeLock)) <==>
      LastBandComplete(s.bands) && !s.lock
    ensures Enabled(s, BreakStaleLock) && Apply(s, BreakStaleLock) == s.(lock := false)
    ensures Enabled(s, LookAtLastBand) ==>
      Apply(s, LookAtLastBand) == s.(gc := Looked(LastBandId(s.bands)))
    ensures Enabled(s, LookAtLastBand) && !s.lock ==>
      Apply(Apply(s, LookAtLastBand), TakeLock) == s.(lock := true, gc := Locked(LastBandId(s.bands)))
  {
    hide LastBandId, LastBandComplete;
  }

  /** A backup goes on exactly if there is no lock, and no step of it changes that.  A collector that ends leaves none,
      and one that crashes leaves its lock, which keeps backups away until it is broken. */
  lemma LockSeen(s: State, step: Step)
    requires Enabled(s, step)
    ensures s.backup.NoBackup? ==> (Enabled(s, TestLock) <==> !s.lock)
    ensures BackupStep(step) ==> Apply(s, step).lock == s.lock && Apply(s, step).gc == s.gc
    ensures step == ReleaseLock ==> !Apply(s, step).lock && Apply(s, step).gc == NoGc
    ensures step == StopGc && s.lock ==>
      var t := Apply(s, step);
      t.lock && t.gc == NoGc && !Enabled(t, TestLock) &&
      (s.backup.NoBackup? ==> Enabled(Apply(t, BreakStaleLock), TestLock))
  {
    hide HunkReferences, SortedHunk, HunkNumbersOf;
  }

  // ----- hunks that are passed over

  /** A listing with hunks missing is as good as a whole one with those hunks not read. */
  lemma ListSomeIsSkipping(s: State, t: State, b: nat, seen: set<nat>)
    requires MayReach(s, t) && t.gc.Marking? && b in t.gc.bandsLeft && BandOpens(t.bands, b)
    requires forall n :: (b, n) !in t.gc.hunksLeft
    ensures Enabled(t, ListHunks(b)) && Enabled(t, ListSome(b, seen))
    ensures
      var unseen := set m | m in HunkNumbersOf(t.bands, b) && m.1 !in seen;
      AfterSkipping(Apply(t, ListHunks(b)), unseen) == Apply(t, ListSome(b, seen)) &&
      MayReach(Apply(t, ListHunks(b)), Apply(t, ListSome(b, seen)))
  {
    hide MayReach;
    var whole, unseen := Apply(t, ListHunks(b)), set m | m in HunkNumbersOf(t.bands, b) && m.1 !in seen;
    forall m: (nat, nat) | m.0 == b ensures m !in t.gc.hunksLeft {
      assert (b, m.1) !in t.gc.hunksLeft;
    }
    assert whole.gc.hunksLeft - unseen == Apply(t, ListSome(b, seen)).gc.hunksLeft;
    Stay(whole);
    CanIsMay(whole, whole);
    SkipAll(whole, whole, unseen);
  }

  ghost function AfterSkipping(t: State, ms: set<(nat, nat)>): State
    requires t.gc.Marking?
  {
    t.(gc := t.gc.(hunksLeft := t.gc.hunksLeft - ms))
  }

  lemma {:induction false} SkipAll(s: State, t: State, ms: set<(nat, nat)>)
    requires MayReach(s, t) && t.gc.Marking? && ms <= t.gc.hunksLeft
    ensures MayReach(s, AfterSkipping(t, ms))
    decreases |ms|
  {
    hide MayReach;
    if ms == {} {
      assert t.gc.hunksLeft - {} == t.gc.hunksLeft;
    } else {
      var m :| m in ms;
      ThenMaybe(s, t, SkipHunk(m.0, m.1));
      SkipAll(s, AfterSkipping(t, {m}), ms - {m});
      assert t.gc.hunksLeft - {m} - (ms - {m}) == t.gc.hunksLeft - ms;
    }
  }

  // ----- a band removed in part

  /** Whatever part of a band a failed removal leaves, some steps of the collector leave it. */
  lemma PartRemovedIsARun(s: State, t: State, b: nat, part: BandFiles)
    requires MayReach(s, t) && t.gc.Deleting? && b in t.gc.ids && b in t.bands && PartOf(part, t.bands[b])
    ensures MayReach(s, t.(bands := t.bands[b := part]))
  {
    hide MayReach;
    var t1 := RemoveSomeHunks(s, t, b, part, |part.hunks|);
    var t2 := t1;
    if part.head != t.bands[b].head {
      ThenMaybe(s, t1, RemoveHead(b));
      t2 := Apply(t1, RemoveHead(b));
    }
    if part.tail != t.bands[b].tail {
      ThenMaybe(s, t2, RemoveTail(b));
      t2 := Apply(t2, RemoveTail(b));
    }
    assert t2.bands[b] == part;
    assert t2.bands == t.bands[b := part];
  }

  lemma {:induction false} RemoveSomeHunks(s: State, t: State, b: nat, part: BandFiles, n: nat) returns (t': State)
    requires MayReach(s, t) && t.gc.Deleting? && b in t.gc.ids && b in t.bands && PartOf(part, t.bands[b])
    requires n <= |part.hunks|
    ensures MayReach(s, t')
    ensures t' == t.(bands := t.bands[b := t.bands[b].(hunks := part.hunks[..n] + t.bands[b].hunks[n..])])
  {
    hide MayReach;
    var was := t.bands[b].hunks;
    if n == 0 {
      t' := t;
      assert part.hunks[..0] + was[0..] == was;
    } else {
      var t1 := RemoveSomeHunks(s, t, b, part, n - 1);
      OneMoreGone(part.hunks, was, n);
      t' := t1;
      if part.hunks[n - 1] != was[n - 1] {
        ThenMaybe(s, t1, RemoveHunk(b, n - 1));
        t' := Apply(t1, RemoveHunk(b, n - 1));
      }
    }
  }

  lemma OneMoreGone(part: seq<Hunk>, was: seq<Hunk>, n: nat)
    requires |part| == |was| && 0 < n <= |was| && part[n - 1] in {was[n - 1], Absent}
    ensures
      var hunks, next := part[..n - 1] + was[n - 1..], part[..n] + was[n..];
      |hunks| == |was| && hunks[n - 1 := part[n - 1]] == next && (part[n - 1] == was[n - 1] ==> hunks == next)
  {
  }

  // ----- what a backup queues it writes

  function Queued(steps: seq<Step>): seq<IndexEntry> {
    if steps == [] then []
    else (if steps[0].QueueStored? || steps[0].QueueUnchanged? then [steps[0].entry] else []) + Queued(steps[1..])
  }

  /** A backup at work on a band that is there. */
  ghost predicate AtWorkOn(s: State, b: nat) {
    s.backup.Writing? && s.backup.band == b && b in s.bands
  }

  /** All that its band and its queue hold. */
  ghost function Holding(s: State, b: nat): multiset<IndexEntry>
    requires AtWorkOn(s, b)
  {
    multiset(BandEntries(s.bands[b].hunks)) + multiset(s.backup.queue)
  }

  lemma WritingKeeps(s: State, b: nat)
    requires AtWorkOn(s, b) && Enabled(s, WriteHunk)
    ensures AtWorkOn(Apply(s, WriteHunk), b) && Holding(Apply(s, WriteHunk), b) == Holding(s, b)
  {
    HunkHoldsQueue(s.bands[b].hunks, s.backup.queue);
    hide BandEntries, SortedHunk;
    assert multiset(Apply(s, WriteHunk).backup.queue) == multiset{};
  }

  lemma QueueingAdds(s: State, step: Step, b: nat)
    requires AtWorkOn(s, b) && Enabled(s, step) && (step.QueueStored? || step.QueueUnchanged?)
    ensures AtWorkOn(Apply(s, step), b) && Holding(Apply(s, step), b) == Holding(s, b) + multiset{step.entry}
  {
    hide BandEntries;
    assert Apply(s, step) == s.(backup := s.backup.(queue := s.backup.queue + [step.entry]));
  }

  lemma OthersKeep(s: State, step: Step, b: nat)
    requires AtWorkOn(s, b) && Enabled(s, step) && BackupStep(step) && !step.Close? && !step.StopBackup?
    requires !step.WriteHunk? && !step.QueueStored? && !step.QueueUnchanged?
    ensures
      var t := Apply(s, step);
      AtWorkOn(t, b) && t.bands[b].hunks == s.bands[b].hunks && t.backup.queue == s.backup.queue
  {
    hide HunkEntries;
  }

  lemma HoldingNext(s: State, step: Step, b: nat)
    requires AtWorkOn(s, b) && Enabled(s, step) && BackupStep(step) && !step.Close? && !step.StopBackup?
    ensures AtWorkOn(Apply(s, step), b)
    ensures Holding(Apply(s, step), b) == Holding(s, b) + multiset(Queued([step]))
  {
    hide Enabled, Apply, BandEntries, AtWorkOn;
    if step.WriteHunk? {
      WritingKeeps(s, b);
    } else if step.QueueStored? || step.QueueUnchanged? {
      QueueingAdds(s, step, b);
      assert Queued([step]) == [step.entry];
    } else {
      OthersKeep(s, step, b);
    }
  }

  lemma HunkHoldsQueue(hunks: seq<Hunk>, queue: seq<IndexEntry>)
    ensures multiset(BandEntries(hunks + [SortedHunk(queue)])) == multiset(BandEntries(hunks)) + multiset(queue)
  {
    hide Sort;
    var hunk := SortedHunk(queue);
    BandEntriesAppend(hunks, [hunk]);
    assert [hunk][1..] == [] && BandEntries([hunk]) == hunk.entries;
    SortPermutes(EntryKey, queue);
  }

  lemma QueuedFirst(steps: seq<Step>)
    requires steps != []
    ensures multiset(Queued(steps)) == multiset(Queued([steps[0]])) + multiset(Queued(steps[1..]))
  {
    assert Queued(steps) == Queued([steps[0]]) + Queued(steps[1..]);
  }

  lemma {:induction false} QueuedIsHeld(s: State, steps: seq<Step>, b: nat)
    requires AtWorkOn(s, b) && Legal(s, steps)
    requires forall step :: step in steps ==> BackupStep(step) && !step.Close? && !step.StopBackup?
    ensures AtWorkOn(Run(s, steps), b) && Holding(Run(s, steps), b) == Holding(s, b) + multiset(Queued(steps))
    decreases steps
  {
    hide Enabled, Apply, BackupStep, AtWorkOn, Holding, Queued;
    if steps == [] {
      NothingQueued();
    } else {
      assert steps[0] in steps;
      HoldingNext(s, steps[0], b);
      QueuedIsHeld(Apply(s, steps[0]), steps[1..], b);
      QueuedFirst(steps);
    }
  }

  lemma NothingQueued()
    ensures multiset(Queued([])) == multiset{}
  {
  }

  /** Whatever steps a backup takes, every entry it queues is in its band or still in its queue, once for each time; so
      when it closes its band, that holds exactly them. */
  lemma QueuedIsWritten(s: State, steps: seq<Step>, b: nat)
    requires AtWorkOn(s, b) && Legal(s, steps) && s.backup.queue == []
    requires forall step :: step in steps ==> BackupStep(step) && !step.Close? && !step.StopBackup?
    ensures
      var t := Run(s, steps);
      Enabled(t, Close) ==>
        var closed := Apply(t, Close).bands;
        b in closed && closed[b].tail &&
        multiset(BandEntries(closed[b].hunks)) == multiset(BandEntries(s.bands[b].hunks)) + multiset(Queued(steps))
  {
    hide Enabled, Apply, BackupStep, BandEntries, Queued, Legal, Run;
    QueuedIsHeld(s, steps, b);
    CloseKeepsAll(Run(s, steps), b);
  }

  lemma CloseKeepsAll(s: State, b: nat)
    requires AtWorkOn(s, b)
    ensures Enabled(s, Close) ==>
      var closed := Apply(s, Close).bands;
      b in closed && closed[b].tail && multiset(BandEntries(closed[b].hunks)) == Holding(s, b)
  {
  }
}
