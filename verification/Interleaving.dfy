/** What a backup may queue depends on its own steps alone, and a collector does not disturb a backup that is at work
    (src/backup.rs, src/gc_lock.rs). */
module Interleaving {
  import opened Base
  import opened Entries
  import opened Storage
  import opened Stitch
  import opened GarbageCollection
  import opened Protocol

  // ----- the backup's own steps

  function OwnSteps(steps: seq<Step>): seq<Step> {
    if steps == [] then []
    else (if BackupStep(steps[0]) then [steps[0]] else []) + OwnSteps(steps[1..])
  }

  /** The blocks that a backup has stored or found after a step of it. */
  function KnownAfter(known: set<BlockHash>, step: Step): set<BlockHash> {
    match step
    case CreateBand => {}
    case WriteBlock(data) => known + {HashBytes(data)}
    case ConfirmBlock(h) => known + {h}
    case _ => known
  }

  function KnownAfterAll(known: set<BlockHash>, steps: seq<Step>): set<BlockHash>
    decreases steps
  {
    if steps == [] then known else KnownAfterAll(KnownAfter(known, steps[0]), steps[1..])
  }

  /** Every entry queued as stored lies inside blocks stored or found before. */
  predicate QueuesOk(known: set<BlockHash>, steps: seq<Step>)
    decreases steps
  {
    steps == [] ||
    ((steps[0].QueueStored? ==> EntryOk(known, steps[0].entry)) && QueuesOk(KnownAfter(known, steps[0]), steps[1..]))
  }

  lemma {:induction false} OwnQueues(known: set<BlockHash>, steps: seq<Step>)
    ensures QueuesOk(known, steps) <==> QueuesOk(known, OwnSteps(steps))
    decreases steps
  {
    hide EntryOk;
    if steps != [] {
      OwnQueues(KnownAfter(known, steps[0]), steps[1..]);
      var own := OwnSteps(steps);
      if BackupStep(steps[0]) {
        assert own[0] == steps[0] && own[1..] == OwnSteps(steps[1..]);
      } else {
        assert own == OwnSteps(steps[1..]);
      }
    }
  }

  lemma {:induction false} QueuesAppend(known: set<BlockHash>, steps: seq<Step>, rest: seq<Step>)
    ensures KnownAfterAll(known, steps + rest) == KnownAfterAll(KnownAfterAll(known, steps), rest)
    ensures QueuesOk(known, steps + rest) <==> QueuesOk(known, steps) && QueuesOk(KnownAfterAll(known, steps), rest)
    decreases steps
  {
    hide EntryOk, KnownAfter;
    var all := steps + rest;
    if steps == [] {
      assert all == rest;
    } else {
      assert all[0] == steps[0] && all[1..] == steps[1..] + rest;
      QueuesAppend(KnownAfter(known, steps[0]), steps[1..], rest);
    }
  }

  /** A front part of these steps, perhaps broken off by a crash. */
  ghost predicate FrontOf(own: seq<Step>, steps: seq<Step>) {
    exists n :: 0 <= n <= |steps| && (own == steps[..n] || own == steps[..n] + [StopBackup])
  }

  lemma FrontQueues(known: set<BlockHash>, own: seq<Step>, steps: seq<Step>)
    requires QueuesOk(known, steps) && FrontOf(own, steps)
    ensures QueuesOk(known, own)
  {
    hide QueuesOk;
    var n :| 0 <= n <= |steps| && (own == steps[..n] || own == steps[..n] + [StopBackup]);
    assert steps == steps[..n] + steps[n..];
    QueuesAppend(known, steps[..n], steps[n..]);
    if own != steps[..n] {
      QueuesAppend(known, steps[..n], [StopBackup]);
      StopQueues(KnownAfterAll(known, steps[..n]));
    }
  }

  lemma StopQueues(known: set<BlockHash>)
    ensures QueuesOk(known, [StopBackup])
  {
    assert [StopBackup][1..] == [];
  }

  // ----- every interleaving

  ghost predicate AllCollectorAllowed(s: State, steps: seq<Step>)
    requires Legal(s, steps)
    decreases steps
  {
    steps == [] || (CollectorAllowed(s, steps[0]) && AllCollectorAllowed(Apply(s, steps[0]), steps[1..]))
  }

  /** `known` is what the backup knows, if one is writing. */
  predicate Knows(s: State, known: set<BlockHash>) {
    s.backup.Writing? ==> s.backup.known == known
  }

  lemma KnowsAfter(s: State, known: set<BlockHash>, step: Step)
    requires Enabled(s, step) && Knows(s, known)
    ensures Knows(Apply(s, step), KnownAfter(known, step))
  {
    hide HunkIn, HunkReferences, LastBandId, LastBandComplete, NextBandId, BandOpens, SortedHunk;
  }

  /** What is allowed of a run is what is allowed of the collector and of the backup's own steps, each by itself. */
  lemma {:induction false} AllowedApart(s: State, known: set<BlockHash>, steps: seq<Step>)
    requires Legal(s, steps) && Knows(s, known)
    ensures AllAllowed(s, steps) <==> AllCollectorAllowed(s, steps) && QueuesOk(known, steps)
    decreases steps
  {
    hide Enabled, Apply, CollectorAllowed, EntryOk, KnownAfter;
    if steps != [] {
      KnowsAfter(s, known, steps[0]);
      QueuedWhileWriting(s, steps[0]);
      AllowedApart(Apply(s, steps[0]), KnownAfter(known, steps[0]), steps[1..]);
    }
  }

  lemma QueuedWhileWriting(s: State, step: Step)
    requires Enabled(s, step)
    ensures step.QueueStored? ==> s.backup.Writing?
  {
  }

  /** However a collector's steps and crashes fall among a backup's, only the backup's own steps decide what it queues:
      if those are a front part of some steps that queue only what is there, the invariant is kept. */
  lemma InterleavingKeeps(s: State, steps: seq<Step>, planned: seq<Step>)
    requires Inv(s) && s.backup.NoBackup? && Legal(s, steps) && AllCollectorAllowed(s, steps)
    requires QueuesOk({}, planned) && FrontOf(OwnSteps(steps), planned)
    ensures Inv(Run(s, steps))
  {
    hide Inv, Legal, QueuesOk, FrontOf, AllCollectorAllowed, AllAllowed, Run;
    FrontQueues({}, OwnSteps(steps), planned);
    OwnQueues({}, steps);
    AllowedApart(s, {}, steps);
    RunKeeps(s, steps);
  }

  // ----- the backup is not disturbed

  /** Two states that look the same to the backup. */
  predicate Alike(s: State, t: State) {
    s.bands == t.bands && s.blocks == t.blocks && s.backup == t.backup
  }

  predicate AtWork(steps: seq<Step>) {
    forall step :: step in steps ==> !step.Close? && !step.StopBackup?
  }

  lemma BackupStepAlike(s: State, t: State, step: Step)
    requires Alike(s, t) && Enabled(s, step) && BackupStep(step) && !s.backup.NoBackup?
    ensures Enabled(t, step) && Alike(Apply(s, step), Apply(t, step))
    ensures !step.Close? && !step.StopBackup? ==> !Apply(s, step).backup.NoBackup?
  {
    hide HunkIn, NextBandId, SortedHunk;
  }

  lemma CollectorStepAlike(s: State, t: State, step: Step)
    requires Inv(s) && Alike(s, t) && Enabled(s, step) && !BackupStep(step) && !s.backup.NoBackup?
    ensures Alike(Apply(s, step), t)
  {
    hide Safe, BackupOk, Covered, NoneRefer, HunkReferences, HunkIn, LastBandId, LastBandComplete, BandOpens;
  }

  /** While a backup is at work, bands, blocks and the backup itself are as if the collector were not there. */
  lemma {:induction false} Undisturbed(s: State, t: State, steps: seq<Step>)
    requires Inv(s) && Alike(s, t) && !s.backup.NoBackup? && AtWork(steps)
    requires Legal(s, steps) && AllAllowed(s, steps)
    ensures Legal(t, OwnSteps(steps)) && Alike(Run(s, steps), Run(t, OwnSteps(steps)))
    decreases steps
  {
    hide Inv, Alike, Enabled, Apply, Allowed, BackupStep;
    if steps != [] {
      var own := OwnSteps(steps);
      assert steps[0] in steps && AtWork(steps[1..]);
      var s' := Apply(s, steps[0]);
      if BackupStep(steps[0]) {
        BackupStepKeeps(s, steps[0]);
        BackupStepAlike(s, t, steps[0]);
        assert own[0] == steps[0] && own[1..] == OwnSteps(steps[1..]);
        Undisturbed(s', Apply(t, steps[0]), steps[1..]);
      } else {
        GcStepKeeps(s, steps[0]);
        CollectorStepAlike(s, t, steps[0]);
        SameBackup(s, t, s');
        assert own == OwnSteps(steps[1..]);
        Undisturbed(s', t, steps[1..]);
      }
    }
  }

  lemma SameBackup(s: State, t: State, s': State)
    requires Alike(s, t) && Alike(s', t)
    ensures s'.backup == s.backup
  {
  }
}
