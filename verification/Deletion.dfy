/** A deletion is a run of the protocol: what the collector's methods do to an archive, its steps can do
    (src/archive.rs, src/gc_lock.rs). */
module Deletions {
  import opened Base
  import opened Entries
  import opened Storage
  import opened Index
  import opened Stitch
  import opened BlockDirs
  import opened Backup
  import opened GarbageCollection
  import opened Protocol
  import opened ProtocolSteps

  // ----- marking

  /** The references of the hunks still to be read, leaving out those that will be missed. */
  ghost function StillToSee(bands: Bands, gc: GcProcess, missed: set<(nat, nat)>): set<BlockHash>
    requires gc.Marking?
  {
    set b, n, h | b in bands && 0 <= n < |bands[b].hunks| && (b in gc.bandsLeft || (b, n) in gc.hunksLeft) &&
      (b, n) !in missed && h in HunkReferences(bands[b].hunks[n]) :: h
  }

  lemma ListKeeps(t: State, b: nat, missed: set<(nat, nat)>)
    requires t.gc.Marking? && b in t.gc.bandsLeft && BandOpens(t.bands, b)
    ensures
      var t' := Apply(t, ListHunks(b));
      t' == t.(gc := t.gc.(bandsLeft := t.gc.bandsLeft - {b}, hunksLeft := t'.gc.hunksLeft)) &&
      StillToSee(t'.bands, t'.gc, missed) == StillToSee(t.bands, t.gc, missed)
  {
    hide HunkReferences;
    var t' := Apply(t, ListHunks(b));
    forall c, n | c in t.bands && 0 <= n < |t.bands[c].hunks|
      ensures (c in t.gc.bandsLeft || (c, n) in t.gc.hunksLeft) <==> (c in t'.gc.bandsLeft || (c, n) in t'.gc.hunksLeft)
    {
      assert (c, n) in HunkNumbersOf(t.bands, b) <==> c == b;
    }
  }

  /** A hunk is read, or missed and passed over. */
  function ReadStep(m: (nat, nat), missed: set<(nat, nat)>): Step {
    if m in missed then SkipHunk(m.0, m.1) else MarkHunk(m.0, m.1)
  }

  lemma ReadKeeps(t: State, m: (nat, nat), missed: set<(nat, nat)>)
    requires t.gc.Marking? && m in t.gc.hunksLeft
    ensures
      var t' := Apply(t, ReadStep(m, missed));
      t' == t.(gc := t.gc.(hunksLeft := t.gc.hunksLeft - {m}, referenced := t'.gc.referenced)) &&
      t'.gc.referenced + StillToSee(t'.bands, t'.gc, missed) == t.gc.referenced + StillToSee(t.bands, t.gc, missed)
  {
    hide HunkReferences;
    var t' := Apply(t, ReadStep(m, missed));
    var now, later := t.gc.referenced + StillToSee(t.bands, t.gc, missed),
      t'.gc.referenced + StillToSee(t'.bands, t'.gc, missed);
    forall h | h in now ensures h in later {
      if h !in t.gc.referenced {
        var b, n :| b in t.bands && 0 <= n < |t.bands[b].hunks| && (b in t.gc.bandsLeft || (b, n) in t.gc.hunksLeft) &&
          (b, n) !in missed && h in HunkReferences(t.bands[b].hunks[n]);
        if (b, n) == m {
          assert HunkIn(t.bands, b, n) == t.bands[b].hunks[n];
        }
      }
    }
    forall h | h in later ensures h in now {
      if h !in t'.gc.referenced {
        var b, n :| b in t.bands && 0 <= n < |t.bands[b].hunks| &&
          (b in t'.gc.bandsLeft || (b, n) in t'.gc.hunksLeft) && (b, n) !in missed &&
          h in HunkReferences(t.bands[b].hunks[n]);
      } else if h !in t.gc.referenced {
        NothingInAbsent();
        assert h in HunkReferences(HunkIn(t.bands, m.0, m.1));
      }
    }
  }

  lemma NothingInAbsent()
    ensures HunkReferences(Absent) == {}
  {
  }

  lemma {:induction false} MarkEverything(s: State, t: State, missed: set<(nat, nat)>) returns (t': State)
    requires MayReach(s, t) && t.gc.Marking? && forall b :: b in t.gc.bandsLeft ==> BandOpens(t.bands, b)
    ensures MayReach(s, t')
    ensures t' == t.(gc := Marking(t.gc.last, t.gc.ids, {}, {}, t.gc.referenced + StillToSee(t.bands, t.gc, missed)))
    decreases |t.gc.bandsLeft|, |t.gc.hunksLeft|
  {
    hide MayReach, Apply, StillToSee;
    if t.gc.bandsLeft != {} {
      var b :| b in t.gc.bandsLeft;
      ListKeeps(t, b, missed);
      ThenMaybe(s, t, ListHunks(b));
      assert t.gc.bandsLeft - {b} < t.gc.bandsLeft;
      t' := MarkEverything(s, Apply(t, ListHunks(b)), missed);
    } else if t.gc.hunksLeft != {} {
      var m :| m in t.gc.hunksLeft;
      ReadKeeps(t, m, missed);
      ThenMaybe(s, t, ReadStep(m, missed));
      assert t.gc.hunksLeft - {m} < t.gc.hunksLeft;
      t' := MarkEverything(s, Apply(t, ReadStep(m, missed)), missed);
    } else {
      t' := t;
      NothingToSee(t.bands, t.gc, missed);
    }
  }

  lemma NothingToSee(bands: Bands, gc: GcProcess, missed: set<(nat, nat)>)
    requires gc.Marking? && gc.bandsLeft == {} && gc.hunksLeft == {}
    ensures StillToSee(bands, gc, missed) == {} && gc.referenced + StillToSee(bands, gc, missed) == gc.referenced
  {
  }

  // ----- sweeping

  lemma {:induction false} SweepAll(s: State, t: State, gone: set<BlockHash>) returns (t': State)
    requires MayReach(s, t) && t.gc.Sweeping? && gone <= t.gc.unreferenced
    ensures MayReach(s, t') && t' == t.(blocks := t.blocks - gone)
    decreases |gone|
  {
    hide MayReach;
    if gone == {} {
      t' := t;
      assert t.blocks - {} == t.blocks;
    } else {
      var h :| h in gone;
      ThenMaybe(s, t, RemoveBlock(h));
      t' := SweepAll(s, t.(blocks := t.blocks - {h}), gone - {h});
      assert t.blocks - {h} - (gone - {h}) == t.blocks - gone;
    }
  }

  // ----- the whole deletion

  lemma BeginMarking(s: State, ids: set<nat>) returns (t: State)
    requires s.gc.NoGc? && !s.lock && LastBandComplete(s.bands)
    ensures MayReach(s, t)
    ensures t == s.(lock := true, gc := Marking(LastBandId(s.bands), ids, s.bands.Keys - ids, {}, {}))
  {
    hide MayReach, LastBandId, LastBandComplete;
    Stay(s);
    CanIsMay(s, s);
    LockSteps(s);
    ThenMaybe(s, s, LookAtLastBand);
    var t1 := Apply(s, LookAtLastBand);
    ThenMaybe(s, t1, TakeLock);
    var t2 := Apply(t1, TakeLock);
    ThenMaybe(s, t2, ListBands(ids));
    t := Apply(t2, ListBands(ids));
  }

  lemma ToSeeAtFirst(bands: Bands, gc: GcProcess, ids: set<nat>, missed: set<(nat, nat)>)
    requires gc.Marking? && gc.bandsLeft == bands.Keys - ids && gc.hunksLeft == {} && gc.referenced == {}
    ensures gc.referenced + StillToSee(bands, gc, missed) == ReferencesExcept(bands - ids, missed)
  {
    hide HunkReferences;
    var kept := bands - ids;
    forall h | h in StillToSee(bands, gc, missed) ensures h in ReferencesExcept(kept, missed) {
      var b, n :| b in bands && 0 <= n < |bands[b].hunks| && b in gc.bandsLeft && (b, n) !in missed &&
        h in HunkReferences(bands[b].hunks[n]);
      ReferencesOf(kept, missed, b, n, h);
    }
    forall h | h in ReferencesExcept(kept, missed) ensures h in StillToSee(bands, gc, missed) {
      var b, n :| b in kept && 0 <= n < |kept[b].hunks| && (b, n) !in missed && h in HunkReferences(kept[b].hunks[n]);
      assert b in bands && b in gc.bandsLeft;
    }
  }

  /** What the collector does once it has read every hunk. */
  lemma RemoveAndRelease(s: State, t: State, listed: set<BlockHash>, gone: set<BlockHash>)
    requires MayReach(s, t) && t.gc.Marking? && t.gc.bandsLeft == {} && t.gc.hunksLeft == {}
    requires t.gc.last == LastBandId(t.bands) && t.gc.ids <= t.bands.Keys
    requires listed <= t.blocks && gone <= listed - t.gc.referenced
    ensures MayReach(s, State(t.bands - t.gc.ids, t.blocks - gone, false, t.backup, NoGc))
  {
    hide MayReach, LastBandId;
    ThenMaybe(s, t, ListBlocks(listed));
    var t1 := Apply(t, ListBlocks(listed));
    ThenMaybe(s, t1, CheckLastBand);
    var t2 := Apply(t1, CheckLastBand);
    assert t2 == t.(gc := Deleting(t.gc.ids, listed - t.gc.referenced));
    SweepAndRelease(s, t2, gone);
  }

  lemma SweepAndRelease(s: State, t: State, gone: set<BlockHash>)
    requires MayReach(s, t) && t.gc.Deleting? && t.gc.ids <= t.bands.Keys && gone <= t.gc.unreferenced
    ensures MayReach(s, State(t.bands - t.gc.ids, t.blocks - gone, false, t.backup, NoGc))
  {
    hide MayReach;
    var t1 := RemoveEvery(s, t);
    ThenMaybe(s, t1, StartSweep);
    var t2 := SweepAll(s, Apply(t1, StartSweep), gone);
    ThenMaybe(s, t2, ReleaseLock);
  }

  /** From an archive that is not locked, whose last band is complete and whose kept bands open: whatever hunks are
      missed, whatever blocks are listed, and whichever removals of blocks fail, some run of the collector removes
      exactly the bands asked for, and of the blocks listed that no hunk read refers to all but those; and releases the
      lock. */
  lemma DeletionIsARun(s: State, ids: set<nat>, scan: Scan, gone: set<BlockHash>)
    requires s.gc.NoGc? && !s.lock && LastBandComplete(s.bands) && ids <= s.bands.Keys && AllOpen(s.bands - ids)
    requires scan.listed <= s.blocks && gone <= scan.listed - ReferencesExcept(s.bands - ids, scan.missed)
    ensures MayReach(s, s.(bands := s.bands - ids, blocks := s.blocks - gone))
  {
    hide MayReach, StillToSee, ReferencesExcept, LastBandId, LastBandComplete;
    var t1 := BeginMarking(s, ids);
    forall b | b in t1.gc.bandsLeft ensures BandOpens(t1.bands, b) {
      assert b in s.bands - ids;
    }
    var t2 := MarkEverything(s, t1, scan.missed);
    ToSeeAtFirst(s.bands, t1.gc, ids, scan.missed);
    RemoveAndRelease(s, t2, scan.listed, gone);
  }

  /** So what the methods leave of an archive after a deletion that succeeds, a run of the collector leaves. */
  lemma DeletedIsARun(s: State, faults: Faults, before: ArchiveState, after: ArchiveState, ids: seq<nat>, scan: Scan,
                      stats: DeleteStats)
    requires s.gc.NoGc? && !s.lock && LastBandComplete(s.bands)
    requires s.bands == before.bands && s.blocks == before.blocks.Keys
    requires Deleted(faults, before, after, ids, scan, Ok(stats))
    ensures MayReach(s, s.(bands := after.bands, blocks := after.blocks.Keys))
  {
    hide MayReach, ReferencesExcept, LastBandId, LastBandComplete, Deleted, BandOpens;
    SweptExactly(faults, before, after, ids, scan, stats);
    var all := set b | b in ids;
    var kept := s.bands - all;
    assert kept == Without(before.bands, ids);
    forall b | b in all ensures b in s.bands {
      var i :| 0 <= i < |ids| && ids[i] == b;
    }
    var gone := scan.listed - ReferencesExcept(kept, scan.missed) - after.blocks.Keys;
    DeletionIsARun(s, all, scan, gone);
  }

  lemma SweptExactly(faults: Faults, before: ArchiveState, after: ArchiveState, ids: seq<nat>, scan: Scan,
                     stats: DeleteStats)
    requires Deleted(faults, before, after, ids, scan, Ok(stats))
    ensures
      var kept := Without(before.bands, ids);
      var unreferenced := scan.listed - ReferencesExcept(kept, scan.missed);
      AllOpen(kept) && Removable(before.bands, ids) && after.bands == kept && scan.listed <= before.blocks.Keys &&
      after.blocks.Keys == before.blocks.Keys - (unreferenced - after.blocks.Keys)
  {
    hide ReferencesExcept, KeepsTrees, NothingLost, Harmless, AllOpen, Removable, Without, Extends;
  }
}
