/** The garbage-collection lock, and deleting bands with the blocks only they refer to
    (src/gc_lock.rs, src/archive.rs). */
module GarbageCollection {
  import opened Base
  import opened Entries
  import opened Storage
  import opened Index
  import opened Stitch
  import opened BlockDirs
  import opened Content
  import opened Combining
  import opened Backup
  import opened Jobs

  datatype GcError =
    | DeleteWithIncompleteBackup
    | LockHeld
    | BandWillNotOpen
    | BandNotFound
    | RemovalFailed

  /** The highest band number, found by going through the listing in any order. */
  method FindLastBand(bands: Bands) returns (r: Option<nat>)
    ensures r == LastBandId(bands)
  {
    var left := bands.Keys;
    r := None;
    while left != {}
      invariant left <= bands.Keys
      invariant r.Some? ==> r.value in bands
      invariant forall b :: b in bands && b !in left ==> r.Some? && b <= r.value
      decreases left
    {
      var b :| b in left;
      left := left - {b};
      if r.None? || b > r.value { r := Some(b); }
    }
    if bands != map[] {
      var b :| b in bands;
    }
  }

  /** Collecting may start unless the last band is incomplete. */
  ghost predicate LastBandComplete(bands: Bands) {
    LastBandId(bands).Some? ==> BandIsClosed(bands, LastBandId(bands).value)
  }

  class GarbageCollectionLock {
    const archive: Archive

    /** The last band when the lock was taken. */
    const bandId: Option<nat>

    constructor (archive: Archive, bandId: Option<nat>)
      ensures this.archive == archive && this.bandId == bandId
    {
      this.archive, this.bandId := archive, bandId;
    }

    /** No band has been created since the lock was taken. */
    method Check() returns (ok: bool)
      ensures ok <==> LastBandId(archive.bands) == bandId
    {
      var last := FindLastBand(archive.bands);
      return last == bandId;
    }

    /** Removing the lock file may fail, which is only printed; the archive then stays as it is. */
    method Drop() returns (released: bool)
      modifies archive`gcLock
      ensures released ==> !archive.gcLock
      ensures !released ==> archive.gcLock && old(archive.gcLock) && archive.faults.lock
    {
      var fails: bool := *;
      if (fails && archive.faults.lock) || !archive.gcLock { return !archive.gcLock; }
      archive.gcLock := false;
      return true;
    }
  }

  /** Take the lock: exactly when it is free and the last band is complete. */
  method NewLock(archive: Archive) returns (r: Result<GarbageCollectionLock, GcError>)
    modifies archive`gcLock
    ensures r.Ok? <==> LastBandComplete(archive.bands) && !old(archive.gcLock)
    ensures archive.gcLock == (old(archive.gcLock) || r.Ok?)
    ensures r.Ok? ==> fresh(r.value) && r.value.archive == archive && r.value.bandId == LastBandId(archive.bands)
    ensures r.Err? ==> r.error == if LastBandComplete(archive.bands) then LockHeld else DeleteWithIncompleteBackup
  {
    var last := FindLastBand(archive.bands);
    if last.Some? && !BandIsClosed(archive.bands, last.value) { return Err(DeleteWithIncompleteBackup); }
    if archive.gcLock { return Err(LockHeld); }
    archive.gcLock := true;
    var lock := new GarbageCollectionLock(archive, last);
    return Ok(lock);
  }

  /** Take the lock from a process that is gone.  The old lock is removed first, so it is gone even if
      the last band turns out to be incomplete. */
  method BreakLock(archive: Archive) returns (r: Result<GarbageCollectionLock, GcError>)
    modifies archive`gcLock
    ensures r.Ok? <==> LastBandComplete(archive.bands)
    ensures archive.gcLock == r.Ok? && (r.Err? ==> r.error == DeleteWithIncompleteBackup)
    ensures r.Ok? ==> fresh(r.value) && r.value.archive == archive && r.value.bandId == LastBandId(archive.bands)
  {
    archive.gcLock := false;
    r := NewLock(archive);
  }

  // ----- references

  function HunkReferences(h: Hunk): set<BlockHash> {
    set e, a | e in HunkEntries(h) && a in e.addrs :: a.hash
  }

  /** The blocks named by these bands' own indexes, leaving out some hunks. */
  function ReferencesExcept(bands: Bands, missed: set<(nat, nat)>): set<BlockHash> {
    set b, n, h | b in bands && 0 <= n < |bands[b].hunks| && (b, n) !in missed &&
      h in HunkReferences(bands[b].hunks[n]) :: h
  }

  function References(bands: Bands): set<BlockHash> {
    ReferencesExcept(bands, {})
  }

  lemma ReferencesOf(bands: Bands, missed: set<(nat, nat)>, b: nat, n: nat, h: BlockHash)
    requires b in bands && n < |bands[b].hunks| && (b, n) !in missed && h in HunkReferences(bands[b].hunks[n])
    ensures h in ReferencesExcept(bands, missed)
  {
  }

  /** Every band opens, so that its index is read. */
  predicate AllOpen(bands: Bands) {
    forall b :: b in bands ==> BandOpens(bands, b)
  }

  /** Exactly the references of the hunks numbered below `n` in one band that are not missed. */
  ghost predicate Collected(found: set<BlockHash>, before: set<BlockHash>, b: nat, hunks: seq<Hunk>, n: nat,
                            missed: set<(nat, nat)>)
    requires n <= |hunks|
  {
    before <= found &&
    (forall i :: 0 <= i < n && (b, i) !in missed ==> HunkReferences(hunks[i]) <= found) &&
    (forall h :: h in found ==>
      h in before || exists i :: 0 <= i < n && (b, i) !in missed && h in HunkReferences(hunks[i]))
  }

  /** Collect the references of one band's hunks.  A hunk that cannot be read, or is in a directory that cannot
      be listed, is passed over. */
  method CollectBand(faults: Faults, b: nat, hunks: seq<Hunk>, before: set<BlockHash>)
    returns (found: set<BlockHash>, missed: set<(nat, nat)>)
    ensures Collected(found, before, b, hunks, |hunks|, missed)
    ensures forall m :: m in missed ==> m.0 == b && m.1 < |hunks| && faults.hunk(m.0, m.1)
  {
    found, missed := before, {};
    for n := 0 to |hunks|
      invariant Collected(found, before, b, hunks, n, missed)
      invariant forall m :: m in missed ==> m.0 == b && m.1 < n && faults.hunk(m.0, m.1)
    {
      var fails: bool := *;
      if fails && faults.hunk(b, n) {
        missed := missed + {(b, n)};
      } else {
        found := found + HunkReferences(hunks[n]);
      }
    }
  }

  lemma CollectedMore(done: Bands, b: nat, band: BandFiles, found: set<BlockHash>, more: set<BlockHash>,
                      missed: set<(nat, nat)>, unread: set<(nat, nat)>)
    requires b !in done && found == ReferencesExcept(done, missed)
    requires Collected(more, found, b, band.hunks, |band.hunks|, unread)
    requires (forall m :: m in missed ==> m.0 in done) && (forall m :: m in unread ==> m.0 == b)
    ensures more == ReferencesExcept(done[b := band], missed + unread)
  {
    hide HunkReferences;
    var done', missed' := done[b := band], missed + unread;
    forall h | h in more ensures h in ReferencesExcept(done', missed') {
      if h in found {
        var c, n :| c in done && 0 <= n < |done[c].hunks| && (c, n) !in missed && h in HunkReferences(done[c].hunks[n]);
        assert (c, n) !in unread;
        ReferencesOf(done', missed', c, n, h);
      } else {
        var n :| 0 <= n < |band.hunks| && (b, n) !in unread && h in HunkReferences(band.hunks[n]);
        assert (b, n) !in missed;
        ReferencesOf(done', missed', b, n, h);
      }
    }
    forall h | h in ReferencesExcept(done', missed') ensures h in more {
      var c, n :| c in done' && 0 <= n < |done'[c].hunks| && (c, n) !in missed' &&
        h in HunkReferences(done'[c].hunks[n]);
      if c != b {
        ReferencesOf(done, missed, c, n, h);
      }
    }
  }

  /** Collect the blocks that the kept bands refer to, one band after another. */
  method ReferencedBlocks(faults: Faults, bands: Bands) returns (r: Option<set<BlockHash>>, missed: set<(nat, nat)>)
    ensures r.Some? <==> AllOpen(bands)
    ensures r.Some? ==> r.value == ReferencesExcept(bands, missed)
    ensures forall m :: m in missed ==> m.0 in bands && m.1 < |bands[m.0].hunks| && faults.hunk(m.0, m.1)
  {
    hide ReferencesExcept, Collected;
    var left, found: set<BlockHash> := bands.Keys, {};
    missed := {};
    assert bands - left == map[];
    NoReferences();
    while left != {}
      invariant left <= bands.Keys && forall b :: b in bands && b !in left ==> BandOpens(bands, b)
      invariant forall m :: m in missed ==> m.0 in bands - left && m.1 < |bands[m.0].hunks| && faults.hunk(m.0, m.1)
      invariant found == ReferencesExcept(bands - left, missed)
      decreases left
    {
      var b :| b in left;
      if !BandOpens(bands, b) { return None, missed; }
      var more, unread := CollectBand(faults, b, bands[b].hunks, found);
      CollectedMore(bands - left, b, bands[b], found, more, missed, unread);
      assert (bands - left)[b := bands[b]] == bands - (left - {b});
      left := left - {b};
      found, missed := more, missed + unread;
    }
    assert bands - left == bands;
    return Some(found), missed;
  }

  lemma NoReferences()
    ensures ReferencesExcept(map[], {}) == {}
  {
  }

  // ----- deleting

  datatype DeleteStats = DeleteStats(unreferenced: nat, deletedBands: nat, deletedBlocks: nat, deletionErrors: nat)

  datatype DeleteOptions = DeleteOptions(dryRun: bool, breakLock: bool)

  /** What a run saw: hunks it could not read, and the blocks that it found listed. */
  datatype Scan = Scan(missed: set<(nat, nat)>, listed: set<BlockHash>)

  /** No band that is left refers to a block that was present and is gone. */
  ghost predicate NothingLost(bands: Bands, blocks: Blocks, present: set<BlockHash>) {
    References(bands) * present <= blocks.Keys
  }

  /** Every listed block that a kept hunk refers to is referred to by some hunk that was read. */
  ghost predicate Harmless(kept: Bands, scan: Scan) {
    References(kept) * scan.listed <= ReferencesExcept(kept, scan.missed)
  }

  lemma FewerReferences(bands: Bands, fewer: Bands)
    requires forall b :: b in fewer ==>
      b in bands && |fewer[b].hunks| == |bands[b].hunks| &&
      forall n :: 0 <= n < |fewer[b].hunks| ==> fewer[b].hunks[n] == bands[b].hunks[n] || fewer[b].hunks[n] == Absent
    ensures References(fewer) <= References(bands)
  {
    forall h | h in References(fewer) ensures h in References(bands) {
      var b, n :| b in fewer && 0 <= n < |fewer[b].hunks| && h in HunkReferences(fewer[b].hunks[n]);
      assert fewer[b].hunks[n] == bands[b].hunks[n];
      ReferencesOf(bands, {}, b, n, h);
    }
  }

  function Without(bands: Bands, ids: seq<nat>): Bands {
    bands - (set b | b in ids)
  }

  /** Bands outside `ids` are as before, and no other band has come to exist. */
  ghost predicate OnlyRemoved(before: Bands, after: Bands, ids: seq<nat>) {
    (forall b :: b in before && b !in ids ==> b in after && after[b] == before[b]) &&
    forall b :: BandExists(after, b) ==> BandExists(before, b)
  }

  /** Some files of a band may be gone. */
  ghost predicate PartOf(part: BandFiles, band: BandFiles) {
    |part.hunks| == |band.hunks| && (part.head == NoHead || part.head == band.head) && (part.tail ==> band.tail) &&
    forall n :: 0 <= n < |band.hunks| ==> part.hunks[n] == band.hunks[n] || part.hunks[n] == Absent
  }

  /** A band whose removal failed part-way: any of its files may be gone. */
  method RemovePart(band: BandFiles) returns (r: BandFiles)
    ensures PartOf(r, band)
  {
    var noHead: bool, noTail: bool := *, *;
    r := BandFiles(if noHead then NoHead else band.head, band.tail && !noTail, band.hunks);
    for n := 0 to |band.hunks|
      invariant PartOf(r, band)
    {
      var gone: bool := *;
      if gone {
        r := r.(hunks := r.hunks[n := Absent]);
      }
    }
  }

  /** Each of these bands is there when its turn to be removed comes. */
  predicate Removable(bands: Bands, ids: seq<nat>) {
    forall i :: 0 <= i < |ids| ==> ids[i] in bands && ids[i] !in ids[..i]
  }

  /** Remove the band directories one by one; a missing one, or one that cannot be removed, stops the whole
      deletion. */
  method RemoveBands(archive: Archive, ids: seq<nat>) returns (r: Result<nat, GcError>)
    modifies archive`bands
    ensures r.Ok? ==>
      archive.bands == Without(old(archive.bands), ids) && r.value == |ids| && Removable(old(archive.bands), ids)
    ensures r.Err? ==>
      (r.error == BandNotFound && !Removable(old(archive.bands), ids)) ||
      (r.error == RemovalFailed && exists b :: b in ids && b in old(archive.bands) && archive.faults.band(b))
    ensures archive.bands.Keys <= old(archive.bands.Keys) && OnlyRemoved(old(archive.bands), archive.bands, ids)
    ensures References(archive.bands) <= old(References(archive.bands))
  {
    hide References, OnlyRemoved, PartOf, Removable, Without;
    ghost var before := archive.bands;
    NoneRemoved(before, ids);
    for i := 0 to |ids|
      invariant archive.bands == Without(before, ids[..i]) && Removable(before, ids[..i])
    {
      RemovedSoFar(before, ids, i);
      if ids[i] !in archive.bands { return Err(BandNotFound); }
      var fails: bool := *;
      if fails && archive.faults.band(ids[i]) {
        var part := RemovePart(archive.bands[ids[i]]);
        PartRemoved(before, ids, i, part);
        archive.bands := archive.bands[ids[i] := part];
        return Err(RemovalFailed);
      }
      archive.bands := archive.bands - {ids[i]};
    }
    assert ids[..|ids|] == ids;
    RemovedFewer(before, ids, |ids|);
    return Ok(|ids|);
  }

  lemma NoneRemoved(bands: Bands, ids: seq<nat>)
    ensures Without(bands, ids[..0]) == bands && Removable(bands, ids[..0])
  {
    assert ids[..0] == [];
  }

  lemma RemovedFewer(bands: Bands, ids: seq<nat>, i: nat)
    requires i <= |ids|
    ensures
      var left := Without(bands, ids[..i]);
      left.Keys <= bands.Keys && OnlyRemoved(bands, left, ids) && References(left) <= References(bands)
  {
    hide References;
    FewerReferences(bands, Without(bands, ids[..i]));
  }

  /** After the first `i` of these bands, the next is there to be removed or the removal as a whole is impossible. */
  lemma RemovedSoFar(bands: Bands, ids: seq<nat>, i: nat)
    requires i < |ids| && Removable(bands, ids[..i])
    ensures
      var left := Without(bands, ids[..i]);
      left.Keys <= bands.Keys && OnlyRemoved(bands, left, ids) && References(left) <= References(bands) &&
      (ids[i] !in left ==> !Removable(bands, ids)) &&
      (ids[i] in left ==> left - {ids[i]} == Without(bands, ids[..i + 1]) && Removable(bands, ids[..i + 1]))
  {
    hide References, OnlyRemoved;
    RemovedFewer(bands, ids, i);
    var left := Without(bands, ids[..i]);
    assert ids[..i + 1] == ids[..i] + [ids[i]];
    if ids[i] in left {
      var next := ids[..i + 1];
      forall k | 0 <= k < |next| ensures next[k] in bands && next[k] !in next[..k] {
        assert next[..k] == ids[..i][..k];
      }
    }
  }

  lemma PartRemoved(bands: Bands, ids: seq<nat>, i: nat, part: BandFiles)
    requires i < |ids| && ids[i] in Without(bands, ids[..i]) && PartOf(part, Without(bands, ids[..i])[ids[i]])
    ensures
      var left := Without(bands, ids[..i])[ids[i] := part];
      left.Keys <= bands.Keys && OnlyRemoved(bands, left, ids) && References(left) <= References(bands)
  {
    hide References;
    FewerReferences(bands, Without(bands, ids[..i])[ids[i] := part]);
  }

  /** Remove the unreferenced blocks one by one, in any order; each removal may fail.  At every point only blocks
      from that set are gone. */
  method RemoveBlocks(blockDir: BlockDir, unreferenced: set<BlockHash>) returns (errors: nat)
    requires blockDir.Honest() && unreferenced <= blockDir.archive.blocks.Keys
    modifies blockDir, blockDir.archive`blocks
    ensures blockDir.Honest() && errors <= |unreferenced|
    ensures Extends(old(blockDir.archive.blocks), blockDir.archive.blocks)
    ensures old(blockDir.archive.blocks.Keys) - unreferenced <= blockDir.archive.blocks.Keys
    ensures blockDir.archive.blocks.Keys <= old(blockDir.archive.blocks.Keys)
    ensures errors == |blockDir.archive.blocks.Keys * unreferenced|
    ensures forall h :: h in blockDir.archive.blocks.Keys * unreferenced ==> blockDir.archive.faults.block(h)
  {
    hide ReadBlock;
    var left := unreferenced;
    errors := 0;
    ghost var failed: set<BlockHash> := {};
    ghost var present := blockDir.archive.blocks.Keys;
    while left != {}
      invariant left <= unreferenced && blockDir.Honest()
      invariant failed !! left && failed <= unreferenced && errors == |failed|
      invariant forall h :: h in failed ==> blockDir.archive.faults.block(h)
      invariant blockDir.archive.blocks.Keys == present - (unreferenced - left - failed)
      invariant Extends(old(blockDir.archive.blocks), blockDir.archive.blocks)
      decreases left
    {
      var h :| h in left;
      left := left - {h};
      var removed := blockDir.DeleteBlock(h);
      if removed.Err? {
        errors := errors + 1;
        failed := failed + {h};
      }
    }
    assert blockDir.archive.blocks.Keys * unreferenced == failed;
    SubsetSize(failed, unreferenced);
  }

  lemma SubsetSize<T>(a: set<T>, b: set<T>)
    requires a <= b
    ensures |a| <= |b|
  {
    if a != {} {
      var x :| x in a;
      SubsetSize(a - {x}, b - {x});
    }
  }

  /** Removing some of these bands may fail. */
  ghost predicate FaultyBand(faults: Faults, bands: Bands, ids: seq<nat>) {
    exists b :: b in ids && b in bands && faults.band(b)
  }

  /** Remove the bands and then the blocks that were found unreferenced. */
  method Sweep(blockDir: BlockDir, ids: seq<nat>, unreferenced: set<BlockHash>)
    returns (r: Result<DeleteStats, GcError>)
    requires blockDir.Honest() && unreferenced <= blockDir.archive.blocks.Keys
    modifies blockDir, blockDir.archive`bands, blockDir.archive`blocks
    ensures blockDir.Honest() && Extends(old(blockDir.archive.blocks), blockDir.archive.blocks)
    ensures OnlyRemoved(old(blockDir.archive.bands), blockDir.archive.bands, ids)
    ensures old(blockDir.archive.blocks.Keys) - unreferenced <= blockDir.archive.blocks.Keys
    ensures blockDir.archive.blocks.Keys <= old(blockDir.archive.blocks.Keys)
    ensures r.Err? ==> blockDir.archive.blocks == old(blockDir.archive.blocks)
    ensures r.Err? ==>
      (r.error == BandNotFound && !Removable(old(blockDir.archive.bands), ids)) ||
      (r.error == RemovalFailed && FaultyBand(blockDir.archive.faults, old(blockDir.archive.bands), ids))
    ensures forall h :: r.Ok? && h in blockDir.archive.blocks.Keys * unreferenced ==> blockDir.archive.faults.block(h)
    ensures r.Ok? ==>
      Removable(old(blockDir.archive.bands), ids) &&
      blockDir.archive.bands == Without(old(blockDir.archive.bands), ids) &&
      r.value.unreferenced == |unreferenced| && r.value.deletedBands == |ids| &&
      r.value.deletedBlocks + r.value.deletionErrors == |unreferenced| &&
      r.value.deletionErrors == |blockDir.archive.blocks.Keys * unreferenced|
  {
    hide ReferencesExcept, Removable;
    var removed := RemoveBands(blockDir.archive, ids);
    if removed.Err? { return Err(removed.error); }
    var errors := RemoveBlocks(blockDir, unreferenced);
    return Ok(DeleteStats(|unreferenced|, removed.value, |unreferenced| - errors, errors));
  }

  method TakeLock(archive: Archive, breakLock: bool) returns (r: Result<GarbageCollectionLock, GcError>)
    modifies archive`gcLock
    ensures r.Ok? <==> LastBandComplete(archive.bands) && (breakLock || !old(archive.gcLock))
    ensures r.Ok? ==> fresh(r.value) && r.value.archive == archive && r.value.bandId == LastBandId(archive.bands)
    ensures r.Ok? ==> archive.gcLock
    ensures r.Err? ==> archive.gcLock == (old(archive.gcLock) && !breakLock)
    ensures r.Err? ==> r.error == if LastBandComplete(archive.bands) then LockHeld else DeleteWithIncompleteBackup
  {
    if breakLock { r := BreakLock(archive); } else { r := NewLock(archive); }
  }

  /** List the blocks; a directory that cannot be listed hides some. */
  method ListBlocks(faults: Faults, blocks: Blocks) returns (listed: set<BlockHash>)
    ensures listed <= blocks.Keys && forall h :: h in blocks && !faults.block(h) ==> h in listed
  {
    var hidden: set<BlockHash> := *;
    return set h | h in blocks && !(h in hidden && faults.block(h));
  }

  /** Only what is at fault was missed or not listed. */
  ghost predicate ScanOf(faults: Faults, kept: Bands, blocks: Blocks, scan: Scan) {
    (forall m :: m in scan.missed ==> m.0 in kept && faults.hunk(m.0, m.1)) &&
    scan.listed <= blocks.Keys && forall h :: h in blocks && !faults.block(h) ==> h in scan.listed
  }

  lemma ScanIs(faults: Faults, kept: Bands, blocks: Blocks, missed: set<(nat, nat)>, listed: set<BlockHash>)
    requires forall m :: m in missed ==> m.0 in kept && m.1 < |kept[m.0].hunks| && faults.hunk(m.0, m.1)
    requires listed <= blocks.Keys && forall h :: h in blocks && !faults.block(h) ==> h in listed
    ensures ScanOf(faults, kept, blocks, Scan(missed, listed))
  {
  }

  /** What is lost, in terms of plain sets: `refs` are the blocks that kept bands refer to, `read` those that
      were found in the hunks read. */
  lemma LostExactly(refs: set<BlockHash>, read: set<BlockHash>, present: set<BlockHash>, listed: set<BlockHash>,
                    after: set<BlockHash>)
    requires listed <= present && present - (listed - read) <= after <= present
    ensures refs * listed <= read ==> refs * present <= after
    ensures |after * (listed - read)| == 0 ==>
      after == present - (listed - read) && (refs * present <= after <==> refs * listed <= read)
  {
    if |after * (listed - read)| == 0 {
      assert after * (listed - read) == {};
      assert forall h :: h in after && h in listed - read ==> h in after * (listed - read);
      assert after == present - (listed - read);
    }
  }

  /** None of the bands that a stitched read of `b` goes through is to be deleted; for a complete band, that is the band
      itself. */
  predicate ChainKept(bands: Bands, b: nat, ids: seq<nat>) {
    forall c :: c in Chain(bands, b) ==> c !in ids
  }

  /** Every tree that reads back, complete or stitched together from bands that were all kept, reads back as before. */
  ghost predicate KeepsTrees(before: ArchiveState, after: ArchiveState, ids: seq<nat>) {
    forall b, tree :: ChainKept(before.bands, b, ids) && HoldsTree(before, b, tree) ==> HoldsTree(after, b, tree)
  }

  lemma SamePrevious(before: Bands, after: Bands, ids: seq<nat>, b: nat)
    requires OnlyRemoved(before, after, ids)
    requires PreviousExisting(before, b).Some? ==> PreviousExisting(before, b).value !in ids
    ensures PreviousExisting(after, b) == PreviousExisting(before, b)
  {
  }

  lemma {:induction false} SameStitched(before: Bands, after: Bands, ids: seq<nat>, b: nat, last: Option<string>)
    requires OnlyRemoved(before, after, ids) && b in before && ChainKept(before, b, ids)
    ensures Stitched(after, b, last) == Stitched(before, b, last)
    decreases b
  {
    hide OnlyRemoved, After;
    var chain := Chain(before, b);
    assert b in chain;
    assert after[b] == before[b] && b in after by { SameBand(before, after, ids, b); }
    if GoesOn(before, b) {
      var p := PreviousExisting(before, b).value;
      assert chain[1..] == Chain(before, p) && p in chain[1..];
      assert forall c :: c in chain[1..] ==> c in chain;
      SamePrevious(before, after, ids, b);
      SameStitched(before, after, ids, p, LastOf(OwnEntries(before, b, last), last));
    } else if !BandIsClosed(before, b) {
      SamePrevious(before, after, ids, b);
    }
  }

  lemma SameBand(before: Bands, after: Bands, ids: seq<nat>, b: nat)
    requires OnlyRemoved(before, after, ids) && b in before && b !in ids
    ensures b in after && after[b] == before[b]
  {
  }

  lemma {:induction false} InSomeBand(bands: Bands, b: nat, last: Option<string>, e: IndexEntry) returns (c: nat)
    requires e in Stitched(bands, b, last)
    ensures c in Chain(bands, b) && c in bands && e in BandEntries(bands[c].hunks)
    decreases b
  {
    var own := OwnEntries(bands, b, last);
    if e in own {
      c := b;
    } else {
      c := InSomeBand(bands, PreviousExisting(bands, b).value, LastOf(own, last), e);
    }
  }

  /** An interrupted band whose only older band is deleted is left with its own entries: its tree changes exactly if
      the older band had anything to add. */
  lemma OlderDeleted(bands: Bands, b: nat, p: nat)
    requires b in bands && !BandIsClosed(bands, b) && PreviousExisting(bands, b) == Some(p)
    requires PreviousExisting(bands, p).None?
    ensures
      var own := OwnEntries(bands, b, None);
      Stitched(Without(bands, [p]), b, None) == own &&
      (Stitched(bands, b, None) == own <==> Stitched(bands, p, LastOf(own, None)) == [])
  {
    hide OwnEntries;
    var after := Without(bands, [p]);
    assert p in [p] && p !in after && forall c :: c in after ==> c in bands && after[c] == bands[c];
    forall c | 0 <= c < b ensures !BandExists(after, c) {
      assert BandExists(bands, c) ==> c == p;
    }
    assert OwnEntries(after, b, None) == OwnEntries(bands, b, None) by { SameOwn(bands, after, b); }
  }

  lemma SameOwn(bands: Bands, after: Bands, b: nat)
    requires b in bands && b in after && after[b] == bands[b]
    ensures OwnEntries(after, b, None) == OwnEntries(bands, b, None)
  {
  }

  lemma SameRanges(blocks: Blocks, fewer: Blocks, addrs: seq<Address>)
    requires Extends(blocks, fewer) && forall a :: a in addrs && a.hash in blocks ==> a.hash in fewer
    ensures ReadAll(fewer, addrs) == ReadAll(blocks, addrs)
  {
    if addrs != [] {
      assert addrs[0] in addrs && forall a :: a in addrs[1..] ==> a in addrs;
      assert ReadRange(fewer, addrs[0]) == ReadRange(blocks, addrs[0]);
      SameRanges(blocks, fewer, addrs[1..]);
    }
  }

  lemma {:induction false} EntryInHunk(hunks: seq<Hunk>, e: IndexEntry) returns (n: nat)
    requires e in BandEntries(hunks)
    ensures n < |hunks| && e in HunkEntries(hunks[n])
  {
    if e in HunkEntries(hunks[0]) {
      n := 0;
    } else {
      n := EntryInHunk(hunks[1..], e);
      n := n + 1;
    }
  }

  lemma KeptTreesRead(before: ArchiveState, after: ArchiveState, ids: seq<nat>)
    requires Extends(before.blocks, after.blocks) && NothingLost(after.bands, after.blocks, before.blocks.Keys)
    requires OnlyRemoved(before.bands, after.bands, ids)
    ensures KeepsTrees(before, after, ids)
  {
    hide Extends, Stitched, NothingLost, ReadAll, OnlyRemoved, Chain;
    forall b, tree | ChainKept(before.bands, b, ids) && HoldsTree(before, b, tree) ensures HoldsTree(after, b, tree) {
      SameStitched(before.bands, after.bands, ids, b, None);
      SameBand(before.bands, after.bands, ids, b);
      var es := Stitched(before.bands, b, None);
      forall i | 0 <= i < |es| ensures Represents(after.blocks, es[i], tree[i]) {
        assert Represents(before.blocks, es[i], tree[i]);
        var c := InSomeBand(before.bands, b, None, es[i]);
        SameBand(before.bands, after.bands, ids, c);
        KeptEntryReads(before, after, c, es[i]);
      }
    }
  }

  lemma KeptEntryReads(before: ArchiveState, after: ArchiveState, b: nat, e: IndexEntry)
    requires Extends(before.blocks, after.blocks) && NothingLost(after.bands, after.blocks, before.blocks.Keys)
    requires b in after.bands && e in BandEntries(after.bands[b].hunks)
    ensures ReadAll(after.blocks, e.addrs) == ReadAll(before.blocks, e.addrs)
  {
    hide Extends;
    var n := EntryInHunk(after.bands[b].hunks, e);
    forall a | a in e.addrs && a.hash in before.blocks ensures a.hash in after.blocks {
      assert a.hash in HunkReferences(after.bands[b].hunks[n]);
      ReferencesOf(after.bands, {}, b, n, a.hash);
    }
    SameRanges(before.blocks, after.blocks, e.addrs);
  }

  /** What a deletion may and must have done.

      As long as every listed block that a kept hunk refers to is named by some hunk that was read, no remaining
      band has lost a block and every tree whose bands were all kept reads back as before, at whatever point the run
      stopped; and a run without deletion errors has lost one exactly when that condition fails.  A run that
      succeeded has removed exactly the bands asked for; blocks deleted and deletion errors together are the
      unreferenced blocks; and without deletion errors exactly those are gone.  It fails only if a kept band does not
      open, a band to be deleted is missing when its turn comes, or removing one is at fault. */
  ghost predicate Deleted(faults: Faults, before: ArchiveState, after: ArchiveState, ids: seq<nat>, scan: Scan,
                          r: Result<DeleteStats, GcError>) {
    var kept := Without(before.bands, ids);
    var unreferenced := scan.listed - ReferencesExcept(kept, scan.missed);
    (AllOpen(kept) ==> ScanOf(faults, kept, before.blocks, scan)) && Extends(before.blocks, after.blocks) &&
    (Harmless(kept, scan) ==>
      NothingLost(after.bands, after.blocks, before.blocks.Keys) && KeepsTrees(before, after, ids)) &&
    match r
    case Err(e) =>
      after.blocks == before.blocks && (e == BandWillNotOpen <==> !AllOpen(kept)) &&
      (e == BandWillNotOpen ==> after.bands == before.bands) &&
      (e == BandWillNotOpen || (e == BandNotFound && !Removable(before.bands, ids)) ||
       (e == RemovalFailed && FaultyBand(faults, before.bands, ids)))
    case Ok(stats) =>
      AllOpen(kept) && Removable(before.bands, ids) &&
      before.blocks.Keys - unreferenced <= after.blocks.Keys <= before.blocks.Keys &&
      (forall h :: h in unreferenced && h in after.blocks ==> faults.block(h)) &&
      stats.deletionErrors == |after.blocks.Keys * unreferenced| && after.bands == kept &&
      stats.deletedBands == |ids| && stats.unreferenced == |unreferenced| &&
      stats.deletedBlocks + stats.deletionErrors == stats.unreferenced &&
      (stats.deletionErrors == 0 ==>
        after.blocks.Keys == before.blocks.Keys - unreferenced &&
        (NothingLost(kept, after.blocks, before.blocks.Keys) <==> Harmless(kept, scan)))
  }

  lemma LostMeans(bands: Bands, after: Bands, ids: seq<nat>, present: set<BlockHash>, blocks: Blocks, scan: Scan)
    ensures
      var kept := Without(bands, ids);
      (NothingLost(kept, blocks, present) <==> References(kept) * present <= blocks.Keys) &&
      (Harmless(kept, scan) <==> References(kept) * scan.listed <= ReferencesExcept(kept, scan.missed))
    ensures blocks.Keys == present ==> NothingLost(after, blocks, present)
  {
    hide ReferencesExcept;
  }

  lemma SweptIsDeleted(faults: Faults, before: ArchiveState, after: ArchiveState, ids: seq<nat>, scan: Scan,
                       r: Result<DeleteStats, GcError>)
    requires ScanOf(faults, Without(before.bands, ids), before.blocks, scan) && Extends(before.blocks, after.blocks)
    requires OnlyRemoved(before.bands, after.bands, ids)
    requires AllOpen(Without(before.bands, ids))
    requires
      var unreferenced := scan.listed - ReferencesExcept(Without(before.bands, ids), scan.missed);
      before.blocks.Keys - unreferenced <= after.blocks.Keys <= before.blocks.Keys &&
      (r.Err? ==> after.blocks == before.blocks) &&
      (r.Err? ==>
        (r.error == BandNotFound && !Removable(before.bands, ids)) ||
        (r.error == RemovalFailed && FaultyBand(faults, before.bands, ids))) &&
      (r.Ok? ==>
        Removable(before.bands, ids) &&
        (forall h :: h in after.blocks.Keys * unreferenced ==> faults.block(h)) &&
        after.bands == Without(before.bands, ids) && r.value.unreferenced == |unreferenced| &&
        r.value.deletedBands == |ids| && r.value.deletedBlocks + r.value.deletionErrors == |unreferenced| &&
        r.value.deletionErrors == |after.blocks.Keys * unreferenced|)
    ensures Deleted(faults, before, after, ids, scan, r)
  {
    hide ReferencesExcept, KeepsTrees, Extends, AllOpen, OnlyRemoved, NothingLost, Harmless, Without, Removable,
         FaultyBand;
    var kept := Without(before.bands, ids);
    LostMeans(before.bands, after.bands, ids, before.blocks.Keys, after.blocks, scan);
    LostExactly(References(kept), ReferencesExcept(kept, scan.missed), before.blocks.Keys, scan.listed,
      after.blocks.Keys);
    if r.Err? || Harmless(kept, scan) {
      KeptTreesRead(before, after, ids);
    }
  }

  /** Find what the bands to be kept refer to, and delete the others and all else that is listed. */
  method Collect(blockDir: BlockDir, guard: GarbageCollectionLock, ids: seq<nat>)
    returns (r: Result<DeleteStats, GcError>, scan: Scan)
    requires blockDir.Honest() && guard.archive == blockDir.archive &&
      guard.bandId == LastBandId(blockDir.archive.bands)
    modifies blockDir, blockDir.archive`bands, blockDir.archive`blocks
    ensures blockDir.Honest()
    ensures Deleted(blockDir.archive.faults, old(ArchiveState(blockDir.archive.bands, blockDir.archive.blocks)),
                    ArchiveState(blockDir.archive.bands, blockDir.archive.blocks), ids, scan, r)
    ensures r.Err? ==> r.error == BandWillNotOpen || r.error == BandNotFound || r.error == RemovalFailed
  {
    hide *;
    var archive := blockDir.archive;
    ghost var before := ArchiveState(archive.bands, archive.blocks);
    var kept := Without(archive.bands, ids);
    var referenced, missed := ReferencedBlocks(archive.faults, kept);
    if referenced.None? {
      scan := Scan({}, {});
      NothingDeleted(archive.faults, before, ids);
      return Err(BandWillNotOpen), scan;
    }
    var listed := ListBlocks(archive.faults, archive.blocks);
    scan := Scan(missed, listed);
    ScanIs(archive.faults, kept, archive.blocks, missed, listed);
    // With no other process at work the check cannot fail; the interleaved case is in Protocol.
    var same := guard.Check();
    assert same;
    r := Sweep(blockDir, ids, listed - referenced.value);
    SweptIsDeleted(archive.faults, before, ArchiveState(archive.bands, archive.blocks), ids, scan, r);
  }

  lemma NothingDeleted(faults: Faults, st: ArchiveState, ids: seq<nat>)
    requires !AllOpen(Without(st.bands, ids))
    ensures Deleted(faults, st, st, ids, Scan({}, {}), Err(BandWillNotOpen))
  {
  }

  /** What a dry run reports: the listed blocks that no hunk read refers to. */
  ghost predicate Measured(faults: Faults, bands: Bands, blocks: Blocks, ids: seq<nat>, scan: Scan,
                           r: Result<DeleteStats, GcError>) {
    var kept := Without(bands, ids);
    if !AllOpen(kept) then r == Err(BandWillNotOpen)
    else
      ScanOf(faults, kept, blocks, scan) &&
      r == Ok(DeleteStats(|scan.listed - ReferencesExcept(kept, scan.missed)|, 0, 0, 0))
  }

  /** How many blocks a deletion would find unreferenced, without deleting anything. */
  method Measure(blockDir: BlockDir, ids: seq<nat>) returns (r: Result<DeleteStats, GcError>, scan: Scan)
    ensures Measured(blockDir.archive.faults, blockDir.archive.bands, blockDir.archive.blocks, ids, scan, r)
  {
    hide ReferencesExcept, AllOpen;
    var referenced, missed := ReferencedBlocks(blockDir.archive.faults, Without(blockDir.archive.bands, ids));
    if referenced.None? { return Err(BandWillNotOpen), Scan({}, {}); }
    var listed := ListBlocks(blockDir.archive.faults, blockDir.archive.blocks);
    return Ok(DeleteStats(|listed - referenced.value|, 0, 0, 0)), Scan(missed, listed);
  }

  /** Delete bands and the blocks that only they refer to, under the lock.  A lock that was taken is released in the
      end, unless its file cannot be removed; a dry run changes neither bands nor blocks.  A lock that another holds is
      respected unless it is to be broken, and an incomplete last band always is. */
  method DeleteBands(blockDir: BlockDir, ids: seq<nat>, options: DeleteOptions)
    returns (r: Result<DeleteStats, GcError>, scan: Scan, released: bool)
    requires blockDir.Honest()
    modifies blockDir, blockDir.archive
    ensures blockDir.Honest()
    ensures r == Err(DeleteWithIncompleteBackup) <==> !LastBandComplete(old(blockDir.archive.bands))
    ensures r == Err(LockHeld) <==>
      LastBandComplete(old(blockDir.archive.bands)) && old(blockDir.archive.gcLock) && !options.breakLock
    ensures (r.Err? && (r.error.LockHeld? || r.error.DeleteWithIncompleteBackup?)) || options.dryRun ==>
      blockDir.archive.bands == old(blockDir.archive.bands) && blockDir.archive.blocks == old(blockDir.archive.blocks)
    ensures
      if r.Err? && (r.error.LockHeld? || r.error.DeleteWithIncompleteBackup?)
      then blockDir.archive.gcLock == (old(blockDir.archive.gcLock) && !options.breakLock)
      else
        blockDir.archive.gcLock == !released && (!released ==> blockDir.archive.faults.lock) &&
        if options.dryRun
        then Measured(blockDir.archive.faults, old(blockDir.archive.bands), old(blockDir.archive.blocks), ids, scan, r)
        else Deleted(blockDir.archive.faults, old(ArchiveState(blockDir.archive.bands, blockDir.archive.blocks)),
                     ArchiveState(blockDir.archive.bands, blockDir.archive.blocks), ids, scan, r)
  {
    hide Deleted, ReferencesExcept, LastBandId;
    var taken := TakeLock(blockDir.archive, options.breakLock);
    if taken.Err? { return Err(taken.error), Scan({}, {}), false; }
    var guard := taken.value;
    if options.dryRun {
      r, scan := Measure(blockDir, ids);
    } else {
      r, scan := Collect(blockDir, guard, ids);
    }
    released := guard.Drop();
  }
}
