/** Backups, garbage collection and crashes, interleaved (src/backup.rs, src/gc_lock.rs, src/archive.rs).

    One backup process and one collecting process work on the archive at a time; either may stop at any
    point.  A step is one access to storage. */
module Protocol {
  import opened Base
  import opened Entries
  import opened Sorting
  import opened Storage
  import opened Index
  import opened Stitch
  import opened GarbageCollection

  datatype BackupProcess =
    | NoBackup
      /** Has found the archive not locked and is about to create its band. */
    | Tested
      /** Is writing `band`.  `known` are blocks it stored or found present, `basis` entries read from
          older bands, `queue` entries for the next hunk. */
    | Writing(band: nat, known: set<BlockHash>, basis: set<IndexEntry>, queue: seq<IndexEntry>)

  datatype GcProcess =
    | NoGc
      /** Has seen the last band, complete, and not yet locked. */
    | Looked(last: Option<nat>)
    | Locked(last: Option<nat>)
      /** Is collecting references of the bands to keep. */
    | Marking(last: Option<nat>, ids: set<nat>, bandsLeft: set<nat>, hunksLeft: set<(nat, nat)>,
      referenced: set<BlockHash>)
    | Marked(last: Option<nat>, ids: set<nat>, unreferenced: set<BlockHash>)
    | Deleting(ids: set<nat>, unreferenced: set<BlockHash>)
    | Sweeping(unreferenced: set<BlockHash>)

  datatype State = State(bands: Bands, blocks: set<BlockHash>, lock: bool, backup: BackupProcess, gc: GcProcess)

  datatype Step =
    | TestLock | CreateBand | WriteHead
    | WriteBlock(data: Bytes) | ConfirmBlock(hash: BlockHash)
    | ReadBasis(band: nat, hunk: nat)
    | QueueStored(entry: IndexEntry) | QueueUnchanged(basis: IndexEntry, entry: IndexEntry)
    | WriteHunk | Close | StopBackup
    | BreakStaleLock | LookAtLastBand | TakeLock
    | ListBands(ids: set<nat>) | ListHunks(band: nat) | MarkHunk(band: nat, hunk: nat)
    | ListBlocks(listed: set<BlockHash>)
      /** A band's listing from which some hunks are missing, and a hunk that cannot be read: both are passed over. */
    | ListSome(band: nat, seen: set<nat>) | SkipHunk(band: nat, hunk: nat)
    | CheckLastBand
    | RemoveHunk(band: nat, hunk: nat) | RemoveHead(band: nat) | RemoveTail(band: nat) | RemoveDir(band: nat)
    | StartSweep | RemoveBlock(hash: BlockHash)
    | ReleaseLock | StopGc

  // ----- addresses

  predicate InRange(a: Address) {
    a.start + a.len <= |a.hash.preimage|
  }

  predicate AddressOk(blocks: set<BlockHash>, a: Address) {
    a.hash in blocks && InRange(a)
  }

  predicate EntryOk(blocks: set<BlockHash>, e: IndexEntry) {
    forall a :: a in e.addrs ==> AddressOk(blocks, a)
  }

  predicate HunkOk(blocks: set<BlockHash>, h: Hunk) {
    forall e :: e in HunkEntries(h) ==> EntryOk(blocks, e)
  }

  predicate BandOk(blocks: set<BlockHash>, band: BandFiles) {
    forall n :: 0 <= n < |band.hunks| ==> HunkOk(blocks, band.hunks[n])
  }

  /** Every address in every present index hunk names a range of a present block. */
  ghost predicate Safe(s: State) {
    forall b :: b in s.bands ==> BandOk(s.blocks, s.bands[b])
  }


  // ----- steps

  predicate Collecting(gc: GcProcess) {
    !gc.NoGc? && !gc.Looked?
  }

  function HunkIn(bands: Bands, b: nat, n: nat): Hunk {
    if b in bands then HunkAt(bands[b].hunks, n) else Absent
  }

  ghost predicate Enabled(s: State, step: Step) {
    match step
    case TestLock => s.backup.NoBackup? && !s.lock
    case CreateBand => s.backup.Tested?
    case WriteHead => s.backup.Writing?
    case WriteBlock(_) => s.backup.Writing?
    case ConfirmBlock(h) => s.backup.Writing? && h in s.blocks
    case ReadBasis(b, n) => s.backup.Writing? && b < s.backup.band
    case QueueStored(e) => s.backup.Writing?
    case QueueUnchanged(was, e) =>
      s.backup.Writing? && was in s.backup.basis && e.addrs == was.addrs &&
      forall a :: a in e.addrs ==> a.hash in s.backup.known
    case WriteHunk => s.backup.Writing? && s.backup.queue != []
    case Close => s.backup.Writing? && s.backup.queue == []
    case StopBackup => !s.backup.NoBackup?
    case BreakStaleLock => s.gc.NoGc?
    case LookAtLastBand => s.gc.NoGc? && LastBandComplete(s.bands)
    case TakeLock => s.gc.Looked? && !s.lock
    case ListBands(_) => s.gc.Locked?
    case ListHunks(b) => s.gc.Marking? && b in s.gc.bandsLeft && BandOpens(s.bands, b)
    case ListSome(b, _) => s.gc.Marking? && b in s.gc.bandsLeft && BandOpens(s.bands, b)
    case MarkHunk(b, n) => s.gc.Marking? && (b, n) in s.gc.hunksLeft
    case SkipHunk(b, n) => s.gc.Marking? && (b, n) in s.gc.hunksLeft
    case ListBlocks(listed) => s.gc.Marking? && s.gc.bandsLeft == {} && s.gc.hunksLeft == {} && listed <= s.blocks
    case CheckLastBand => s.gc.Marked? && LastBandId(s.bands) == s.gc.last
    case RemoveHunk(b, n) => s.gc.Deleting? && b in s.gc.ids && b in s.bands && n < |s.bands[b].hunks|
    case RemoveHead(b) => s.gc.Deleting? && b in s.gc.ids && b in s.bands
    case RemoveTail(b) => s.gc.Deleting? && b in s.gc.ids && b in s.bands
    case RemoveDir(b) => s.gc.Deleting? && b in s.gc.ids && b in s.bands
    case StartSweep => s.gc.Deleting? && s.gc.ids == {}
    case RemoveBlock(h) => s.gc.Sweeping? && h in s.gc.unreferenced
    case ReleaseLock => Collecting(s.gc)
    case StopGc => !s.gc.NoGc?
  }

  /** The hunk that some queued entries become. */
  function SortedHunk(queue: seq<IndexEntry>): Hunk {
    Entries(Sort(EntryKey, queue))
  }

  ghost function HunkNumbersOf(bands: Bands, b: nat): set<(nat, nat)>
    requires b in bands
  {
    set n | 0 <= n < |bands[b].hunks| :: (b, n)
  }

  ghost function Apply(s: State, step: Step): State
    requires Enabled(s, step)
  {
    match step
    case TestLock => s.(backup := Tested)
    case CreateBand =>
      var id := NextBandId(s.bands);
      s.(bands := s.bands[id := BandFiles(NoHead, false, [])], backup := Writing(id, {}, {}, []))
    case WriteHead =>
      if s.backup.band in s.bands
      then s.(bands := s.bands[s.backup.band := s.bands[s.backup.band].(head := Usable)]) else s
    case WriteBlock(data) =>
      s.(blocks := s.blocks + {HashBytes(data)}, backup := s.backup.(known := s.backup.known + {HashBytes(data)}))
    case ConfirmBlock(h) => s.(backup := s.backup.(known := s.backup.known + {h}))
    case ReadBasis(b, n) =>
      s.(backup := s.backup.(basis := s.backup.basis + set e | e in HunkEntries(HunkIn(s.bands, b, n))))
    case QueueStored(e) => s.(backup := s.backup.(queue := s.backup.queue + [e]))
    case QueueUnchanged(_, e) => s.(backup := s.backup.(queue := s.backup.queue + [e]))
    case WriteHunk =>
      var w := s.backup;
      (if w.band in s.bands
       then s.(bands := s.bands[w.band := s.bands[w.band].(hunks := s.bands[w.band].hunks + [SortedHunk(w.queue)])])
       else s).(backup := w.(queue := []))
    case Close =>
      (if s.backup.band in s.bands
       then s.(bands := s.bands[s.backup.band := s.bands[s.backup.band].(tail := true)]) else s).(backup := NoBackup)
    case StopBackup => s.(backup := NoBackup)
    case BreakStaleLock => s.(lock := false)
    case LookAtLastBand => s.(gc := Looked(LastBandId(s.bands)))
    case TakeLock => s.(lock := true, gc := Locked(s.gc.last))
    case ListBands(ids) => s.(gc := Marking(s.gc.last, ids, s.bands.Keys - ids, {}, {}))
    case ListHunks(b) =>
      s.(gc := s.gc.(bandsLeft := s.gc.bandsLeft - {b}, hunksLeft := s.gc.hunksLeft + HunkNumbersOf(s.bands, b)))
    case ListSome(b, seen) =>
      s.(gc := s.gc.(bandsLeft := s.gc.bandsLeft - {b},
                     hunksLeft := s.gc.hunksLeft + set m | m in HunkNumbersOf(s.bands, b) && m.1 in seen))
    case MarkHunk(b, n) =>
      s.(gc := s.gc.(hunksLeft := s.gc.hunksLeft - {(b, n)},
                     referenced := s.gc.referenced + HunkReferences(HunkIn(s.bands, b, n))))
    case SkipHunk(b, n) => s.(gc := s.gc.(hunksLeft := s.gc.hunksLeft - {(b, n)}))
    case ListBlocks(listed) => s.(gc := Marked(s.gc.last, s.gc.ids, listed - s.gc.referenced))
    case CheckLastBand => s.(gc := Deleting(s.gc.ids, s.gc.unreferenced))
    case RemoveHunk(b, n) => s.(bands := s.bands[b := s.bands[b].(hunks := s.bands[b].hunks[n := Absent])])
    case RemoveHead(b) => s.(bands := s.bands[b := s.bands[b].(head := NoHead)])
    case RemoveTail(b) => s.(bands := s.bands[b := s.bands[b].(tail := false)])
    case RemoveDir(b) => s.(bands := s.bands - {b}, gc := s.gc.(ids := s.gc.ids - {b}))
    case StartSweep => s.(gc := Sweeping(s.gc.unreferenced))
    case RemoveBlock(h) => s.(blocks := s.blocks - {h})
    case ReleaseLock => s.(lock := false, gc := NoGc)
    case StopGc => s.(gc := NoGc)
  }

  /** Some hunk still to be read refers to this block. */
  ghost predicate Pending(bands: Bands, gc: GcProcess, h: BlockHash)
    requires gc.Marking?
  {
    exists c, m :: c in bands && 0 <= m < |bands[c].hunks| && (c in gc.bandsLeft || (c, m) in gc.hunksLeft) &&
                   h in HunkReferences(bands[c].hunks[m])
  }

  /** Every block that a kept hunk refers to has been seen, or will be in a hunk still to be read. */
  ghost predicate Covered(bands: Bands, gc: GcProcess)
    requires gc.Marking?
  {
    forall b, n, h ::
      (b in bands && b !in gc.ids && 0 <= n < |bands[b].hunks| && h in HunkReferences(bands[b].hunks[n])) ==>
      h in gc.referenced || Pending(bands, gc, h)
  }

  predicate Misses(step: Step) {
    step.ListSome? || step.SkipHunk?
  }

  /** What is ruled out of the collector: the last-band check between a backup's lock test and the creation of its
      band, and passing over a hunk that alone refers to some block. */
  ghost predicate CollectorAllowed(s: State, step: Step)
    requires Enabled(s, step)
  {
    !(step.CheckLastBand? && s.backup.Tested?) &&
    (Misses(step) && LastBandId(s.bands) == s.gc.last ==> Covered(s.bands, Apply(s, step).gc))
  }

  /** What is ruled out of the backup besides: queueing an entry whose address is not inside a block that the backup
      stored or found. */
  ghost predicate Allowed(s: State, step: Step)
    requires Enabled(s, step)
  {
    CollectorAllowed(s, step) && (step.QueueStored? ==> EntryOk(s.backup.known, step.entry))
  }

  ghost predicate Legal(s: State, steps: seq<Step>)
    decreases steps
  {
    steps == [] || (Enabled(s, steps[0]) && Legal(Apply(s, steps[0]), steps[1..]))
  }

  ghost predicate AllAllowed(s: State, steps: seq<Step>)
    requires Legal(s, steps)
    decreases steps
  {
    steps == [] || (Allowed(s, steps[0]) && AllAllowed(Apply(s, steps[0]), steps[1..]))
  }

  ghost function Run(s: State, steps: seq<Step>): State
    requires Legal(s, steps)
    decreases steps
  {
    if steps == [] then s else Run(Apply(s, steps[0]), steps[1..])
  }

  // ----- what every state keeps

  ghost predicate EntriesInRange(es: set<IndexEntry>) {
    forall e, a :: e in es && a in e.addrs ==> InRange(a)
  }

  /** A running backup's band is the last one and open; everything it is about to refer to is present. */
  ghost predicate BackupOk(s: State) {
    s.backup.Writing? ==>
      s.backup.band in s.bands && !s.bands[s.backup.band].tail && (forall b :: b in s.bands ==> b <= s.backup.band) &&
      s.backup.known <= s.blocks && EntriesInRange(s.backup.basis) &&
      forall e :: e in s.backup.queue ==> EntryOk(s.backup.known, e)
  }

  /** The band that was last when the collector looked is still there, and a running backup's is newer. */
  ghost predicate Overtaken(s: State, last: Option<nat>) {
    (last.Some? ==> last.value in s.bands) &&
    (s.backup.Writing? ==> last.None? || last.value < s.backup.band)
  }

  /** No band outside `ids` refers to any of these blocks. */
  ghost predicate NoneRefer(bands: Bands, ids: set<nat>, hashes: set<BlockHash>) {
    forall b, n :: b in bands && b !in ids && 0 <= n < |bands[b].hunks| ==> HunkReferences(bands[b].hunks[n]) !! hashes
  }

  ghost predicate GcOk(s: State) {
    match s.gc
    case NoGc => true
    case Looked(last) => Overtaken(s, last)
    case Locked(last) => s.lock && Overtaken(s, last)
    case Marking(last, _, _, _, _) =>
      s.lock && Overtaken(s, last) && (LastBandId(s.bands) == last ==> Covered(s.bands, s.gc))
    case Marked(last, ids, unref) =>
      s.lock && Overtaken(s, last) && unref <= s.blocks &&
        (LastBandId(s.bands) == last ==> NoneRefer(s.bands, ids, unref))
    case Deleting(ids, unref) => s.lock && s.backup.NoBackup? && NoneRefer(s.bands, ids, unref)
    case Sweeping(unref) => s.lock && s.backup.NoBackup? && NoneRefer(s.bands, {}, unref)
  }

  ghost predicate Inv(s: State) {
    Safe(s) && BackupOk(s) && GcOk(s)
  }

  predicate BackupStep(step: Step) {
    step.TestLock? || step.CreateBand? || step.WriteHead? || step.WriteBlock? || step.ConfirmBlock? ||
    step.ReadBasis? || step.QueueStored? || step.QueueUnchanged? || step.WriteHunk? || step.Close? || step.StopBackup?
  }

  // ----- steps of the backup

  /** While a backup runs, its band is last, so the collector's check fails. */
  lemma RunningIsLast(s: State, last: Option<nat>)
    requires BackupOk(s) && s.backup.Writing? && Overtaken(s, last)
    ensures LastBandId(s.bands) == Some(s.backup.band) && LastBandId(s.bands) != last
  {
    assert s.backup.band in s.bands;
  }

  lemma GcOkWhileRunning(s: State, s': State)
    requires GcOk(s) && s'.gc == s.gc && s'.lock == s.lock && s.blocks <= s'.blocks
    requires s.backup.Writing? && s'.backup.Writing? && s'.backup.band == s.backup.band
    requires BackupOk(s') && s.bands.Keys <= s'.bands.Keys
    ensures GcOk(s')
  {
    match s.gc
    case NoGc =>
    case Looked(last) =>
    case Locked(last) =>
    case Marking(last, _, _, _, _) => RunningIsLast(s', last);
    case Marked(last, _, _) => RunningIsLast(s', last);
    case Deleting(_, _) =>
    case Sweeping(_) =>
  }

  lemma BandOkMore(blocks: set<BlockHash>, more: set<BlockHash>, band: BandFiles)
    requires BandOk(blocks, band) && blocks <= more
    ensures BandOk(more, band)
  {
    forall n | 0 <= n < |band.hunks| ensures HunkOk(more, band.hunks[n]) {
      assert HunkOk(blocks, band.hunks[n]);
      forall e | e in HunkEntries(band.hunks[n]) ensures EntryOk(more, e) {
        assert EntryOk(blocks, e);
      }
    }
  }

  lemma CreateBandKeeps(s: State)
    requires Inv(s) && s.backup.Tested?
    ensures Inv(Apply(s, CreateBand))
  {
    var s' := Apply(s, CreateBand);
    var id := NextBandId(s.bands);
    assert forall b :: b in s'.bands ==> b <= id;
    match s.gc
    case NoGc =>
    case Looked(last) =>
    case Locked(last) =>
    case Marking(last, _, _, _, _) => RunningIsLast(s', last);
    case Marked(last, _, _) => RunningIsLast(s', last);
  }

  lemma StoreBlockKeeps(s: State, data: Bytes)
    requires Inv(s) && s.backup.Writing?
    ensures Inv(Apply(s, WriteBlock(data)))
  {
    var s' := Apply(s, WriteBlock(data));
    forall b | b in s'.bands ensures BandOk(s'.blocks, s'.bands[b]) {
      BandOkMore(s.blocks, s'.blocks, s.bands[b]);
    }
    QueueMore(s.backup.queue, s.backup.known, s'.backup.known);
    GcOkWhileRunning(s, s');
  }

  lemma QueueMore(queue: seq<IndexEntry>, known: set<BlockHash>, more: set<BlockHash>)
    requires known <= more && forall e :: e in queue ==> EntryOk(known, e)
    ensures forall e :: e in queue ==> EntryOk(more, e)
  {
    forall e | e in queue ensures EntryOk(more, e) {
      assert EntryOk(known, e);
    }
  }

  lemma ReadBasisKeeps(s: State, b: nat, n: nat)
    requires Inv(s) && s.backup.Writing? && b < s.backup.band
    ensures Inv(Apply(s, ReadBasis(b, n)))
  {
    var s' := Apply(s, ReadBasis(b, n));
    forall e, a | e in s'.backup.basis && a in e.addrs ensures InRange(a) {
      if e !in s.backup.basis {
        assert e in HunkEntries(HunkIn(s.bands, b, n));
        assert BandOk(s.blocks, s.bands[b]);
        assert HunkOk(s.blocks, s.bands[b].hunks[n]);
        assert EntryOk(s.blocks, e);
      }
    }
    GcOkWhileRunning(s, s');
  }

  lemma QueueKeeps(s: State, step: Step)
    requires Inv(s) && Enabled(s, step) && Allowed(s, step) && (step.QueueStored? || step.QueueUnchanged?)
    ensures Inv(Apply(s, step))
  {
    var s' := Apply(s, step);
    assert EntryOk(s.backup.known, step.entry);
    GcOkWhileRunning(s, s');
  }

  lemma SortedSame(queue: seq<IndexEntry>)
    ensures forall e :: e in HunkEntries(SortedHunk(queue)) <==> e in queue
  {
    SortPermutes(EntryKey, queue);
    var sorted := Sort(EntryKey, queue);
    assert forall e :: e in sorted <==> e in multiset(sorted);
    assert forall e :: e in queue <==> e in multiset(queue);
  }

  lemma WriteHunkKeeps(s: State)
    requires Inv(s) && Enabled(s, WriteHunk)
    ensures Inv(Apply(s, WriteHunk))
  {
    var s' := Apply(s, WriteHunk);
    var band := s.backup.band;
    var hunk := SortedHunk(s.backup.queue);
    assert HunkOk(s.blocks, hunk) by {
      QueueMore(s.backup.queue, s.backup.known, s.blocks);
      SortedSame(s.backup.queue);
    }
    var files := s.bands[band];
    assert BandOk(s.blocks, files);
    assert BandOk(s.blocks, files.(hunks := files.hunks + [hunk]));
    GcOkWhileRunning(s, s');
  }

  lemma CloseKeeps(s: State)
    requires Inv(s) && Enabled(s, Close)
    ensures Inv(Apply(s, Close))
  {
    var s' := Apply(s, Close);
    assert BandOk(s.blocks, s.bands[s.backup.band]);
    assert s'.bands.Keys == s.bands.Keys;
    SameKeysSameLast(s.bands, s'.bands);
    match s.gc
    case NoGc =>
    case Looked(last) =>
    case Locked(last) =>
    case Marking(last, _, _, _, _) => RunningIsLast(s, last);
    case Marked(last, _, _) => RunningIsLast(s, last);
  }

  lemma SameKeysSameLast(bands: Bands, more: Bands)
    requires bands.Keys == more.Keys
    ensures LastBandId(bands) == LastBandId(more)
  {
    assert bands == map[] <==> bands.Keys == {};
    assert more == map[] <==> more.Keys == {};
  }

  lemma BackupStepKeeps(s: State, step: Step)
    requires Inv(s) && Enabled(s, step) && Allowed(s, step) && BackupStep(step)
    ensures Inv(Apply(s, step))
  {
    match step
    case TestLock =>
    case CreateBand => CreateBandKeeps(s);
    case WriteHead => assert BandOk(s.blocks, s.bands[s.backup.band]); GcOkWhileRunning(s, Apply(s, step));
    case WriteBlock(data) => StoreBlockKeeps(s, data);
    case ConfirmBlock(h) =>
      QueueMore(s.backup.queue, s.backup.known, s.backup.known + {h});
      GcOkWhileRunning(s, Apply(s, step));
    case ReadBasis(b, n) => ReadBasisKeeps(s, b, n);
    case QueueStored(_) => QueueKeeps(s, step);
    case QueueUnchanged(_, _) => QueueKeeps(s, step);
    case WriteHunk => WriteHunkKeeps(s);
    case Close => CloseKeeps(s);
    case StopBackup =>
  }

  // ----- steps of the collector

  lemma MarkHunkKeeps(s: State, b: nat, n: nat)
    requires Inv(s) && Enabled(s, MarkHunk(b, n))
    ensures Inv(Apply(s, MarkHunk(b, n)))
  {
    var s' := Apply(s, MarkHunk(b, n));
    if LastBandId(s.bands) == s.gc.last {
      MarkHunkCovers(s.bands, s.gc, s'.gc, b, n);
    }
  }

  lemma MarkHunkCovers(bands: Bands, gc: GcProcess, gc': GcProcess, b: nat, n: nat)
    requires gc.Marking? && Covered(bands, gc)
    requires gc' == gc.(hunksLeft := gc.hunksLeft - {(b, n)},
      referenced := gc.referenced + HunkReferences(HunkIn(bands, b, n)))
    ensures Covered(bands, gc')
  {
    hide HunkReferences;
    forall h | h !in gc'.referenced && Pending(bands, gc, h) ensures Pending(bands, gc', h) {
      var c, m :| c in bands && 0 <= m < |bands[c].hunks| && (c in gc.bandsLeft || (c, m) in gc.hunksLeft) &&
                  h in HunkReferences(bands[c].hunks[m]);
    }
  }

  lemma ListHunksKeeps(s: State, b: nat)
    requires Inv(s) && Enabled(s, ListHunks(b))
    ensures Inv(Apply(s, ListHunks(b)))
  {
    var s' := Apply(s, ListHunks(b));
    if LastBandId(s.bands) == s.gc.last {
      ListHunksCovers(s.bands, s.gc, s'.gc, b);
    }
  }

  lemma ListHunksCovers(bands: Bands, gc: GcProcess, gc': GcProcess, b: nat)
    requires gc.Marking? && Covered(bands, gc) && b in bands
    requires gc' == gc.(bandsLeft := gc.bandsLeft - {b}, hunksLeft := gc.hunksLeft + HunkNumbersOf(bands, b))
    ensures Covered(bands, gc')
  {
    hide HunkReferences;
    forall h | Pending(bands, gc, h) ensures Pending(bands, gc', h) {
      var c, m :| c in bands && 0 <= m < |bands[c].hunks| && (c in gc.bandsLeft || (c, m) in gc.hunksLeft) &&
                  h in HunkReferences(bands[c].hunks[m]);
      if c == b {
        assert (c, m) in HunkNumbersOf(bands, b);
      }
    }
  }

  /** Passing over hunks keeps the invariant as long as everything they refer to is seen elsewhere. */
  lemma MissKeeps(s: State, step: Step)
    requires Inv(s) && Enabled(s, step) && Misses(step) && Allowed(s, step)
    ensures Inv(Apply(s, step))
  {
  }

  lemma ListBandsKeeps(s: State, ids: set<nat>)
    requires Inv(s) && Enabled(s, ListBands(ids))
    ensures Inv(Apply(s, ListBands(ids)))
  {
    hide HunkReferences;
    var s' := Apply(s, ListBands(ids));
    forall b, n, h | b in s.bands && b !in ids && 0 <= n < |s.bands[b].hunks| &&
      h in HunkReferences(s.bands[b].hunks[n])
      ensures Pending(s.bands, s'.gc, h)
    {
      assert b in s'.gc.bandsLeft;
    }
  }

  lemma ListBlocksKeeps(s: State, listed: set<BlockHash>)
    requires Inv(s) && Enabled(s, ListBlocks(listed))
    ensures Inv(Apply(s, ListBlocks(listed)))
  {
    hide HunkReferences;
    if LastBandId(s.bands) == s.gc.last {
      assert forall h :: !Pending(s.bands, s.gc, h);
    }
  }

  lemma NoneReferFewer(bands: Bands, ids: set<nat>, hashes: set<BlockHash>, b: nat, band: BandFiles)
    requires NoneRefer(bands, ids, hashes) && b in ids && b in bands
    ensures NoneRefer(bands[b := band], ids, hashes) && NoneRefer(bands - {b}, ids - {b}, hashes)
  {
  }

  lemma RemovePartKeeps(s: State, step: Step)
    requires Inv(s) && Enabled(s, step)
    requires step.RemoveHunk? || step.RemoveHead? || step.RemoveTail? || step.RemoveDir?
    ensures Inv(Apply(s, step))
  {
    var s' := Apply(s, step);
    var b := step.band;
    assert BandOk(s.blocks, s.bands[b]);
    NoneReferFewer(s.bands, s.gc.ids, s.gc.unreferenced, b, if b in s'.bands then s'.bands[b] else s.bands[b]);
    if step.RemoveHunk? {
      forall m | 0 <= m < |s'.bands[b].hunks| ensures HunkOk(s.blocks, s'.bands[b].hunks[m]) {
        if m != step.hunk {
          assert HunkOk(s.blocks, s.bands[b].hunks[m]);
        }
      }
    }
  }

  lemma RemoveBlockKeeps(s: State, h: BlockHash)
    requires Inv(s) && Enabled(s, RemoveBlock(h))
    ensures Inv(Apply(s, RemoveBlock(h)))
  {
    var s' := Apply(s, RemoveBlock(h));
    forall b | b in s.bands ensures BandOk(s'.blocks, s.bands[b]) {
      assert BandOk(s.blocks, s.bands[b]);
      forall n | 0 <= n < |s.bands[b].hunks| ensures HunkOk(s'.blocks, s.bands[b].hunks[n]) {
        var hunk := s.bands[b].hunks[n];
        assert HunkOk(s.blocks, hunk);
        forall e | e in HunkEntries(hunk) ensures EntryOk(s'.blocks, e) {
          assert EntryOk(s.blocks, e);
          forall a | a in e.addrs ensures AddressOk(s'.blocks, a) {
            assert a.hash in HunkReferences(hunk);
          }
        }
      }
    }
  }

  lemma CheckKeeps(s: State)
    requires Inv(s) && Enabled(s, CheckLastBand) && Allowed(s, CheckLastBand)
    ensures Inv(Apply(s, CheckLastBand))
  {
    if s.backup.Writing? {
      RunningIsLast(s, s.gc.last);
    }
  }

  /** While a backup runs, the last band has no tail, so a collector stops at its first look. */
  lemma RunningIsOpen(s: State)
    requires BackupOk(s) && s.backup.Writing?
    ensures !LastBandComplete(s.bands)
  {
    assert LastBandId(s.bands) == Some(s.backup.band);
  }

  lemma LookKeeps(s: State)
    requires Inv(s) && Enabled(s, LookAtLastBand)
    ensures Inv(Apply(s, LookAtLastBand))
  {
    if s.backup.Writing? {
      RunningIsOpen(s);
    }
  }

  lemma GcStepKeeps(s: State, step: Step)
    requires Inv(s) && Enabled(s, step) && !BackupStep(step) && Allowed(s, step)
    ensures Inv(Apply(s, step))
  {
    match step
    case BreakStaleLock =>
    case LookAtLastBand => LookKeeps(s);
    case TakeLock =>
    case ListBands(ids) => ListBandsKeeps(s, ids);
    case ListHunks(b) => ListHunksKeeps(s, b);
    case ListSome(_, _) => MissKeeps(s, step);
    case MarkHunk(b, n) => MarkHunkKeeps(s, b, n);
    case SkipHunk(_, _) => MissKeeps(s, step);
    case ListBlocks(listed) => ListBlocksKeeps(s, listed);
    case CheckLastBand => CheckKeeps(s);
    case RemoveHunk(_, _) => RemovePartKeeps(s, step);
    case RemoveHead(_) => RemovePartKeeps(s, step);
    case RemoveTail(_) => RemovePartKeeps(s, step);
    case RemoveDir(_) => RemovePartKeeps(s, step);
    case StartSweep =>
    case RemoveBlock(h) => RemoveBlockKeeps(s, h);
    case ReleaseLock =>
    case StopGc =>
  }

  // ----- every run

  /** Nobody is at work and no reference dangles; a lock may have been left behind. */
  ghost predicate Quiescent(s: State) {
    s.backup.NoBackup? && s.gc.NoGc? && Safe(s)
  }

  lemma {:induction false} RunKeeps(s: State, steps: seq<Step>)
    requires Inv(s) && Legal(s, steps) && AllAllowed(s, steps)
    ensures Inv(Run(s, steps))
    decreases steps
  {
    if steps != [] {
      if BackupStep(steps[0]) {
        BackupStepKeeps(s, steps[0]);
      } else {
        GcStepKeeps(s, steps[0]);
      }
      RunKeeps(Apply(s, steps[0]), steps[1..]);
    }
  }

  /** A step that takes away a band, part of a band, or a block. */
  predicate Destroys(step: Step) {
    step.RemoveHunk? || step.RemoveHead? || step.RemoveTail? || step.RemoveDir? || step.RemoveBlock?
  }

  /** In every state of every interleaving with crashes anywhere, no index hunk refers to a missing or
      short block, and nothing can be deleted while a backup is running. */
  lemma NothingDangles(s: State, steps: seq<Step>)
    requires Quiescent(s) && Legal(s, steps) && AllAllowed(s, steps)
    ensures Safe(Run(s, steps))
    ensures forall step :: Destroys(step) && Enabled(Run(s, steps), step) ==> Run(s, steps).backup.NoBackup?
  {
    RunKeeps(s, steps);
  }

  // ----- where runs can lead

  /** A run with nothing in it that is ruled out. */
  ghost predicate Plain(s: State, steps: seq<Step>) {
    Legal(s, steps) && AllAllowed(s, steps)
  }

  /** Some run leads from one state to the other; some plain run does. */
  ghost predicate MayReach(s: State, t: State) {
    exists steps :: Legal(s, steps) && Run(s, steps) == t
  }

  ghost predicate CanReach(s: State, t: State) {
    exists steps :: Plain(s, steps) && Run(s, steps) == t
  }

  lemma {:induction false} ThenLegal(s: State, steps: seq<Step>, step: Step)
    requires Legal(s, steps) && Enabled(Run(s, steps), step)
    ensures Legal(s, steps + [step]) && Run(s, steps + [step]) == Apply(Run(s, steps), step)
    ensures AllAllowed(s, steps) && Allowed(Run(s, steps), step) ==> AllAllowed(s, steps + [step])
    decreases steps
  {
    hide Enabled, Apply, Allowed;
    var all := steps + [step];
    if steps == [] {
      assert all[1..] == [];
    } else {
      assert all[0] == steps[0] && all[1..] == steps[1..] + [step];
      ThenLegal(Apply(s, steps[0]), steps[1..], step);
    }
  }

  lemma Stay(s: State)
    ensures CanReach(s, s)
  {
    assert Plain(s, []) && Run(s, []) == s;
  }

  lemma Then(s: State, t: State, step: Step)
    requires CanReach(s, t) && Enabled(t, step) && Allowed(t, step)
    ensures CanReach(s, Apply(t, step))
  {
    hide Enabled, Apply, Allowed, Legal, AllAllowed;
    var steps :| Plain(s, steps) && Run(s, steps) == t;
    ThenLegal(s, steps, step);
    assert Plain(s, steps + [step]);
  }

  lemma ThenMaybe(s: State, t: State, step: Step)
    requires MayReach(s, t) && Enabled(t, step)
    ensures MayReach(s, Apply(t, step))
  {
    hide Enabled, Apply, Legal;
    var steps :| Legal(s, steps) && Run(s, steps) == t;
    ThenLegal(s, steps, step);
  }

  lemma CanIsMay(s: State, t: State)
    requires CanReach(s, t)
    ensures MayReach(s, t)
  {
    var steps :| Plain(s, steps) && Run(s, steps) == t;
  }

  lemma {:induction false} RunAppend(s: State, steps: seq<Step>, rest: seq<Step>)
    requires Legal(s, steps) && Legal(Run(s, steps), rest)
    ensures Legal(s, steps + rest) && Run(s, steps + rest) == Run(Run(s, steps), rest)
    decreases steps
  {
    hide Enabled, Apply;
    var all := steps + rest;
    if steps == [] {
      assert all == rest;
    } else {
      assert all[0] == steps[0] && all[1..] == steps[1..] + rest;
      RunAppend(Apply(s, steps[0]), steps[1..], rest);
    }
  }

  lemma MayThenMay(s: State, t: State, u: State)
    requires MayReach(s, t) && MayReach(t, u)
    ensures MayReach(s, u)
  {
    hide Legal;
    var steps :| Legal(s, steps) && Run(s, steps) == t;
    var rest :| Legal(t, rest) && Run(t, rest) == u;
    RunAppend(s, steps, rest);
  }

  // ----- what is ruled out does lose data

  lemma RemoveOne(t: State, b: nat) returns (t': State)
    requires t.gc.Deleting? && b in t.gc.ids && b in t.bands
    ensures Enabled(t, RemoveDir(b)) && Allowed(t, RemoveDir(b)) && t' == Apply(t, RemoveDir(b))
    ensures t' == t.(bands := t.bands - {b}, gc := Deleting(t.gc.ids - {b}, t.gc.unreferenced))
  {
    t' := Apply(t, RemoveDir(b));
  }

  /** The collector can go through with the deletion of every band it was asked to delete. */
  lemma {:induction false} RemoveEvery(s: State, t: State) returns (t': State)
    requires MayReach(s, t) && t.gc.Deleting? && t.gc.ids <= t.bands.Keys
    ensures MayReach(s, t') && (CanReach(s, t) ==> CanReach(s, t'))
    ensures t' == t.(bands := t.bands - t.gc.ids, gc := Deleting({}, t.gc.unreferenced))
    decreases |t.gc.ids|
  {
    hide MayReach, CanReach, Enabled, Apply, Allowed;
    if t.gc.ids == {} {
      t' := t;
      assert t.bands - {} == t.bands;
    } else {
      var b :| b in t.gc.ids;
      var next := RemoveOne(t, b);
      ThenMaybe(s, t, RemoveDir(b));
      if CanReach(s, t) {
        Then(s, t, RemoveDir(b));
      }
      t' := RemoveEvery(s, next);
      assert t.bands - {b} - (t.gc.ids - {b}) == t.bands - t.gc.ids;
    }
  }

  lemma ListOne(t: State, b: nat, h: BlockHash) returns (t': State)
    requires t.gc.Marking? && b in t.gc.bandsLeft && BandOpens(t.bands, b) && !Pending(t.bands, t.gc, h)
    ensures Enabled(t, ListHunks(b)) && Allowed(t, ListHunks(b)) && t' == Apply(t, ListHunks(b))
    ensures t' == t.(gc := Marking(t.gc.last, t.gc.ids, t.gc.bandsLeft - {b}, t'.gc.hunksLeft, t.gc.referenced))
    ensures !Pending(t'.bands, t'.gc, h)
  {
    hide HunkReferences;
    t' := Apply(t, ListHunks(b));
  }

  lemma LeftIsPending(bands: Bands, gc: GcProcess, b: nat, n: nat, h: BlockHash)
    requires gc.Marking? && (b, n) in gc.hunksLeft && h in HunkReferences(HunkIn(bands, b, n))
    ensures Pending(bands, gc, h)
  {
  }

  lemma MarkOne(t: State, b: nat, n: nat, h: BlockHash) returns (t': State)
    requires t.gc.Marking? && (b, n) in t.gc.hunksLeft && h !in t.gc.referenced && !Pending(t.bands, t.gc, h)
    ensures Enabled(t, MarkHunk(b, n)) && Allowed(t, MarkHunk(b, n)) && t' == Apply(t, MarkHunk(b, n))
    ensures t' == t.(gc := Marking(t.gc.last, t.gc.ids, t.gc.bandsLeft, t.gc.hunksLeft - {(b, n)}, t'.gc.referenced))
    ensures h !in t'.gc.referenced && !Pending(t'.bands, t'.gc, h)
  {
    t' := Apply(t, MarkHunk(b, n));
    if h in HunkReferences(HunkIn(t.bands, b, n)) {
      LeftIsPending(t.bands, t.gc, b, n, h);
    }
  }

  /** The collector can read all that is left without any failure; a block that is neither seen nor referred to
      by anything left stays unseen. */
  lemma {:induction false} ReadEvery(s: State, t: State, h: BlockHash) returns (t': State)
    requires CanReach(s, t) && t.gc.Marking? && forall b :: b in t.gc.bandsLeft ==> BandOpens(t.bands, b)
    requires h !in t.gc.referenced && !Pending(t.bands, t.gc, h)
    ensures CanReach(s, t') && t'.gc.Marking? && h !in t'.gc.referenced
    ensures t' == t.(gc := Marking(t.gc.last, t.gc.ids, {}, {}, t'.gc.referenced))
    decreases |t.gc.bandsLeft|, |t.gc.hunksLeft|
  {
    hide CanReach, Enabled, Apply, Allowed, Pending;
    if t.gc.bandsLeft != {} {
      var b :| b in t.gc.bandsLeft;
      var next := ListOne(t, b, h);
      Then(s, t, ListHunks(b));
      assert next.gc.bandsLeft < t.gc.bandsLeft;
      t' := ReadEvery(s, next, h);
    } else if t.gc.hunksLeft != {} {
      var m :| m in t.gc.hunksLeft;
      var next := MarkOne(t, m.0, m.1, h);
      Then(s, t, MarkHunk(m.0, m.1));
      assert next.gc.hunksLeft < t.gc.hunksLeft;
      t' := ReadEvery(s, next, h);
    } else {
      t' := t;
    }
  }

  /** From the end of marking: a block that was not seen can be swept. */
  lemma SweepUnseen(s: State, t: State, h: BlockHash) returns (t': State)
    requires CanReach(s, t) && t.backup.NoBackup? && t.gc.Marking? && t.gc.bandsLeft == {} && t.gc.hunksLeft == {}
    requires t.gc.last == LastBandId(t.bands) && t.gc.ids <= t.bands.Keys && h in t.blocks && h !in t.gc.referenced
    ensures CanReach(s, t') && h !in t'.blocks && t'.bands == t.bands - t.gc.ids
  {
    hide CanReach;
    Then(s, t, ListBlocks(t.blocks));
    var t1 := Apply(t, ListBlocks(t.blocks));
    Then(s, t1, CheckLastBand);
    var t2 := Apply(t1, CheckLastBand);
    CanIsMay(s, t2);
    var t3 := RemoveEvery(s, t2);
    t' := SweepOne(s, t3, h);
  }

  lemma SweepOne(s: State, t: State, h: BlockHash) returns (t': State)
    requires CanReach(s, t) && t.gc.Deleting? && t.gc.ids == {} && h in t.gc.unreferenced
    ensures CanReach(s, t') && h !in t'.blocks && t'.bands == t.bands
  {
    hide CanReach;
    Then(s, t, StartSweep);
    var t1 := Apply(t, StartSweep);
    Then(s, t1, RemoveBlock(h));
    t' := Apply(t1, RemoveBlock(h));
  }

  lemma HunkDangles(s: State, b: nat, n: nat, h: BlockHash)
    requires b in s.bands && n < |s.bands[b].hunks| && h in HunkReferences(s.bands[b].hunks[n]) && h !in s.blocks
    ensures !Safe(s)
  {
    var hunk := s.bands[b].hunks[n];
    var e, a :| e in HunkEntries(hunk) && a in e.addrs && a.hash == h;
    assert !AddressOk(s.blocks, a);
    assert !EntryOk(s.blocks, e);
    assert !HunkOk(s.blocks, hunk);
  }

  lemma SafeReference(s: State, b: nat, n: nat, h: BlockHash)
    requires Safe(s) && b in s.bands && n < |s.bands[b].hunks| && h in HunkReferences(s.bands[b].hunks[n])
    ensures h in s.blocks
  {
    var hunk := s.bands[b].hunks[n];
    assert BandOk(s.blocks, s.bands[b]);
    assert HunkOk(s.blocks, hunk);
    var e, a :| e in HunkEntries(hunk) && a in e.addrs && a.hash == h;
    assert EntryOk(s.blocks, e);
  }

  /** A collector that has passed over the only reference to a block can go on to delete the block. */
  lemma MissLosesData(s: State) returns (t: State)
    requires Safe(s) && s.backup.NoBackup? && s.gc.Marking? && s.gc.last == LastBandId(s.bands) &&
      s.gc.ids <= s.bands.Keys
    requires forall b :: b in s.gc.bandsLeft ==> BandOpens(s.bands, b)
    requires !Covered(s.bands, s.gc)
    ensures CanReach(s, t) && !Safe(t)
  {
    hide CanReach, HunkReferences, Safe;
    var b, n, h :| b in s.bands && b !in s.gc.ids && 0 <= n < |s.bands[b].hunks| &&
                   h in HunkReferences(s.bands[b].hunks[n]) && h !in s.gc.referenced && !Pending(s.bands, s.gc, h);
    SafeReference(s, b, n, h);
    Stay(s);
    var read := ReadEvery(s, s, h);
    t := SweepUnseen(s, read, h);
    HunkDangles(t, b, n, h);
  }

  /** So a failed read or listing while marking is harmless if and only if every block that the hunks passed over
      refer to is seen in, or still to be read from, some other hunk. */
  lemma MissHarmlessExactly(s: State, step: Step)
    requires Inv(s) && Enabled(s, step) && Misses(step)
    requires s.backup.NoBackup? && s.gc.last == LastBandId(s.bands) && s.gc.ids <= s.bands.Keys
    requires forall b :: b in s.gc.bandsLeft ==> BandOpens(s.bands, b)
    ensures
      var t := Apply(s, step);
      (forall u :: CanReach(t, u) ==> Safe(u)) <==> Covered(t.bands, t.gc)
  {
    hide CanReach, Covered, Pending;
    var t := Apply(s, step);
    if Covered(t.bands, t.gc) {
      MissKeeps(s, step);
      forall u | CanReach(t, u) ensures Safe(u) {
        ReachKeeps(t, u);
      }
    } else {
      var u := MissLosesData(t);
    }
  }

  lemma ReachKeeps(s: State, t: State)
    requires Inv(s) && CanReach(s, t)
    ensures Inv(t)
  {
    hide Inv, Legal, AllAllowed;
    var steps :| Plain(s, steps) && Run(s, steps) == t;
    RunKeeps(s, steps);
  }

  // ----- the race

  function WholeBlock(h: BlockHash): IndexEntry {
    IndexEntry("/f", File, 0, 0, None, Owner(None, None), [Address(h, 0, |h.preimage|)], None)
  }

  /** The backup's part of the race: it finds the unreferenced block and queues an entry that uses it. */
  lemma Reuse(s: State, t: State, h: BlockHash) returns (t': State)
    requires CanReach(s, t) && t.backup.Tested? && t.gc.Deleting? && h in t.blocks
    ensures CanReach(s, t') && t'.gc == t.gc
    ensures t'.backup.Writing? && t'.backup.band == NextBandId(t.bands) && t'.backup.queue == [WholeBlock(h)]
    ensures t'.bands == t.bands[NextBandId(t.bands) := BandFiles(NoHead, false, [])]
  {
    hide CanReach, LastBandId;
    Then(s, t, CreateBand);
    var t2 := Apply(t, CreateBand);
    Then(s, t2, ConfirmBlock(h));
    var t3 := Apply(t2, ConfirmBlock(h));
    assert EntryOk(t3.backup.known, WholeBlock(h));
    Then(s, t3, QueueStored(WholeBlock(h)));
    t' := Apply(t3, QueueStored(WholeBlock(h)));
    assert [] + [WholeBlock(h)] == [WholeBlock(h)];
  }

  /** That interleaving does lose data: wherever it has happened with a block to sweep, some continuation with nothing
      ruled out ends with a hunk of the new band referring to a deleted block. */
  lemma RaceLosesData(s: State, h: BlockHash) returns (t: State)
    requires s.backup.Tested? && s.gc.Deleting? && s.gc.ids <= s.bands.Keys && h in s.gc.unreferenced && h in s.blocks
    ensures CanReach(s, t) && !Safe(t)
  {
    hide CanReach, MayReach, Safe, LastBandId, SortedHunk;
    Stay(s);
    var t1 := Reuse(s, s, h);
    var band := t1.backup.band;
    CanIsMay(s, t1);
    var t2 := RemoveEvery(s, t1);
    Then(s, t2, StartSweep);
    var t3 := Apply(t2, StartSweep);
    Then(s, t3, RemoveBlock(h));
    var t4 := Apply(t3, RemoveBlock(h));
    Then(s, t4, WriteHunk);
    t := Apply(t4, WriteHunk);
    NewHunkDangles(t, band, h);
  }

  lemma NewHunkDangles(s: State, band: nat, h: BlockHash)
    requires band in s.bands && s.bands[band].hunks == [SortedHunk([WholeBlock(h)])] && h !in s.blocks
    ensures !Safe(s)
  {
    var hunk := SortedHunk([WholeBlock(h)]);
    SortedSame([WholeBlock(h)]);
    assert WholeBlock(h) in [WholeBlock(h)];
    assert WholeBlock(h) in HunkEntries(hunk);
    assert Address(h, 0, |h.preimage|) in WholeBlock(h).addrs;
    HunkDangles(s, band, 0, h);
  }

  // ----- when the race is harmless

  /** The collector has come through its check in the gap, with nothing to sweep; `ids` are the bands it was asked to
      delete. */
  ghost predicate Idle(s: State, ids: set<nat>) {
    s.lock && Safe(s) && BackupOk(s) &&
    match s.gc
    case Deleting(left, unref) =>
      unref == {} && left <= ids && left <= s.bands.Keys && (s.backup.Writing? ==> s.backup.band !in left)
    case Sweeping(unref) => unref == {}
    case _ => false
  }

  /** The states after such a check: idle until the collector stops, and as always from then on. */
  ghost predicate InvOrIdle(s: State, ids: set<nat>) {
    Inv(s) || Idle(s, ids)
  }

  /** What the backup does to bands and blocks does not depend on the collector. */
  lemma BackupStepWithout(s: State, step: Step)
    requires Safe(s) && BackupOk(s) && Enabled(s, step) && Allowed(s, step) && BackupStep(step)
    ensures Safe(Apply(s, step)) && BackupOk(Apply(s, step))
  {
    hide Safe, BackupOk, LastBandId;
    var alone := s.(gc := NoGc);
    AloneOk(s, alone);
    BackupStepKeeps(alone, step);
    AloneOk(Apply(alone, step), Apply(s, step));
  }

  lemma AloneOk(s: State, t: State)
    requires Safe(s) && BackupOk(s) && t.bands == s.bands && t.blocks == s.blocks && t.backup == s.backup
    ensures Safe(t) && BackupOk(t)
  {
  }

  lemma IdleBackupStep(s: State, ids: set<nat>, step: Step)
    requires Idle(s, ids) && Enabled(s, step) && Allowed(s, step) && BackupStep(step)
    ensures Idle(Apply(s, step), ids)
  {
    hide Safe, BackupOk;
    BackupStepWithout(s, step);
    IdleKeepsIds(s, step);
  }

  lemma IdleKeepsIds(s: State, step: Step)
    requires s.lock && BackupOk(s) && Enabled(s, step) && BackupStep(step)
    ensures
      var t := Apply(s, step);
      t.lock && t.gc == s.gc && s.bands.Keys <= t.bands.Keys &&
      (t.backup.Writing? ==> (s.backup.Writing? && t.backup.band == s.backup.band) || t.backup.band !in s.bands)
  {
  }

  lemma IdleRemove(s: State, ids: set<nat>, step: Step)
    requires Idle(s, ids) && Enabled(s, step)
    requires step.RemoveHunk? || step.RemoveHead? || step.RemoveTail? || step.RemoveDir?
    ensures Idle(Apply(s, step), ids)
  {
    var t := Apply(s, step);
    forall b | b in t.bands ensures BandOk(t.blocks, t.bands[b]) {
      assert BandOk(s.blocks, s.bands[b]);
    }
  }

  lemma IdleStep(s: State, ids: set<nat>, step: Step)
    requires Idle(s, ids) && Enabled(s, step) && Allowed(s, step)
    ensures InvOrIdle(Apply(s, step), ids)
  {
    if BackupStep(step) {
      IdleBackupStep(s, ids, step);
    } else if step.RemoveHunk? || step.RemoveHead? || step.RemoveTail? || step.RemoveDir? {
      IdleRemove(s, ids, step);
    } else {
      AloneOk(s, Apply(s, step));
    }
  }

  lemma {:induction false} RunIdle(s: State, ids: set<nat>, steps: seq<Step>)
    requires InvOrIdle(s, ids) && Legal(s, steps) && AllAllowed(s, steps)
    ensures InvOrIdle(Run(s, steps), ids)
    decreases steps
  {
    hide Inv, Idle, Enabled, Apply, Allowed;
    if Inv(s) {
      RunKeeps(s, steps);
    } else if steps != [] {
      IdleStep(s, ids, steps[0]);
      RunIdle(Apply(s, steps[0]), ids, steps[1..]);
    }
  }

  lemma CheckInGap(s: State)
    requires Inv(s) && s.backup.Tested? && Enabled(s, CheckLastBand) && s.gc.ids <= s.bands.Keys
    requires s.gc.unreferenced == {}
    ensures Idle(Apply(s, CheckLastBand), s.gc.ids)
  {
  }

  lemma IdleReach(s: State, ids: set<nat>, t: State)
    requires Idle(s, ids) && CanReach(s, t)
    ensures InvOrIdle(t, ids)
  {
    hide Idle, Inv, Legal, AllAllowed;
    var steps :| Plain(s, steps) && Run(s, steps) == t;
    RunIdle(s, ids, steps);
  }

  /** So the check in the gap is harmless if and only if it left nothing to sweep. */
  lemma RaceHarmlessExactly(s: State)
    requires Inv(s) && s.backup.Tested? && Enabled(s, CheckLastBand) && s.gc.ids <= s.bands.Keys
    ensures
      var t := Apply(s, CheckLastBand);
      (forall u :: CanReach(t, u) ==> Safe(u)) <==> s.gc.unreferenced == {}
  {
    hide CanReach, Safe, Idle, LastBandId;
    var t := Apply(s, CheckLastBand);
    if s.gc.unreferenced == {} {
      CheckInGap(s);
      forall u | CanReach(t, u) ensures Safe(u) {
        IdleReach(t, s.gc.ids, u);
        IdleIsSafe(u, s.gc.ids);
      }
    } else {
      var h :| h in s.gc.unreferenced;
      var u := RaceLosesData(t, h);
    }
  }

  lemma IdleIsSafe(s: State, ids: set<nat>)
    requires InvOrIdle(s, ids)
    ensures Safe(s)
  {
  }

  /** A step takes something away in a state that can be reached while a backup is at work. */
  ghost predicate DestroysAtWork(s: State, u: State, step: Step) {
    CanReach(s, u) && Destroys(step) && Enabled(u, step) && !u.backup.NoBackup?
  }

  /** And bands are then deleted while a backup is at work if and only if any were to be deleted. */
  lemma RaceDeletesExactly(s: State)
    requires Inv(s) && s.backup.Tested? && Enabled(s, CheckLastBand) && s.gc.ids <= s.bands.Keys
    requires s.gc.unreferenced == {}
    ensures
      var t := Apply(s, CheckLastBand);
      (exists u, step :: DestroysAtWork(t, u, step)) <==> s.gc.ids != {}
  {
    hide CanReach, LastBandId, Safe, BackupOk;
    var t := Apply(s, CheckLastBand);
    CheckInGap(s);
    if s.gc.ids != {} {
      var b :| b in s.gc.ids;
      Stay(t);
      assert DestroysAtWork(t, t, RemoveDir(b));
    } else {
      forall u, step ensures !DestroysAtWork(t, u, step) {
        if DestroysAtWork(t, u, step) {
          IdleReach(t, {}, u);
          NothingToDestroy(u, step);
        }
      }
    }
  }

  lemma NothingToDestroy(s: State, step: Step)
    requires InvOrIdle(s, {}) && Destroys(step) && Enabled(s, step)
    ensures s.backup.NoBackup?
  {
  }

  lemma StartCollecting(s: State, t: State) returns (t': State)
    requires CanReach(s, t) && !t.lock && t.gc.NoGc? && LastBandComplete(t.bands)
    ensures CanReach(s, t') && t' == t.(lock := true, gc := Marking(LastBandId(t.bands), {}, t.bands.Keys, {}, {}))
  {
    hide CanReach;
    Then(s, t, LookAtLastBand);
    var t1 := Apply(t, LookAtLastBand);
    Then(s, t1, TakeLock);
    var t2 := Apply(t1, TakeLock);
    Then(s, t2, ListBands({}));
    t' := Apply(t2, ListBands({}));
    assert t.bands.Keys - {} == t.bands.Keys;
  }

  /** And it can happen: from any quiet, unlocked archive whose last band is complete, whose bands all open, and
      that holds a block no band refers to. */
  lemma RaceIsReachable(s: State, h: BlockHash)
    requires Quiescent(s) && !s.lock && LastBandComplete(s.bands) && AllOpen(s.bands)
    requires h in s.blocks && h !in References(s.bands)
    ensures exists t :: MayReach(s, t) && !Safe(t)
  {
    hide CanReach, MayReach, Safe, Pending, ReferencesExcept, LastBandComplete;
    Stay(s);
    Then(s, s, TestLock);
    var t1 := Apply(s, TestLock);
    var t2 := StartCollecting(s, t1);
    NotPending(s.bands, t2.gc, h);
    var t3 := ReadEvery(s, t2, h);
    Then(s, t3, ListBlocks(s.blocks));
    var t4 := Apply(t3, ListBlocks(s.blocks));
    CanIsMay(s, t4);
    ThenMaybe(s, t4, CheckLastBand);
    var t5 := Apply(t4, CheckLastBand);
    var t6 := RaceLosesData(t5, h);
    CanIsMay(t5, t6);
    MayThenMay(s, t5, t6);
  }

  lemma NotPending(bands: Bands, gc: GcProcess, h: BlockHash)
    requires gc.Marking? && h !in References(bands)
    ensures !Pending(bands, gc, h)
  {
  }

  /** Likewise a failed read can happen: from any quiet, unlocked archive whose last band is complete and whose
      bands all open, passing over the one hunk that refers to some block can lose the block. */
  lemma MissIsReachable(s: State, b: nat, n: nat, h: BlockHash)
    requires Quiescent(s) && !s.lock && LastBandComplete(s.bands) && AllOpen(s.bands)
    requires b in s.bands && n < |s.bands[b].hunks| && h in HunkReferences(s.bands[b].hunks[n])
    requires h !in ReferencesExcept(s.bands, {(b, n)})
    ensures exists t :: MayReach(s, t) && !Safe(t)
  {
    hide CanReach, MayReach, Safe, ReferencesExcept, LastBandComplete, HunkReferences, Pending;
    Stay(s);
    var t1 := StartCollecting(s, s);
    Then(s, t1, ListHunks(b));
    var t2 := Apply(t1, ListHunks(b));
    CanIsMay(s, t2);
    assert (b, n) in HunkNumbersOf(s.bands, b);
    ThenMaybe(s, t2, SkipHunk(b, n));
    var t3 := Apply(t2, SkipHunk(b, n));
    NotPendingElsewhere(s.bands, t3.gc, b, n, h);
    SafeSame(s, t3);
    var t4 := MissLosesData(t3);
    CanIsMay(t3, t4);
    MayThenMay(s, t3, t4);
  }

  lemma SafeSame(s: State, t: State)
    requires Safe(s) && t.bands == s.bands && t.blocks == s.blocks
    ensures Safe(t)
  {
  }

  lemma NotPendingElsewhere(bands: Bands, gc: GcProcess, b: nat, n: nat, h: BlockHash)
    requires gc.Marking? && h !in ReferencesExcept(bands, {(b, n)}) && b !in gc.bandsLeft && (b, n) !in gc.hunksLeft
    ensures !Pending(bands, gc, h)
  {
    hide HunkReferences;
    assert forall c, m ::
      (c in bands && 0 <= m < |bands[c].hunks| && (c, m) !in {(b, n)} && h in HunkReferences(bands[c].hunks[m])) ==>
      h in ReferencesExcept(bands, {(b, n)});
  }

  /** And an entry outside its block, once queued, ends up in a hunk. */
  lemma MisplacedDangles(s: State, e: IndexEntry)
    requires s.backup.Writing? && s.backup.band in s.bands && !EntryOk(s.blocks, e)
    ensures exists t :: MayReach(s, t) && !Safe(t)
  {
    hide MayReach, SortedHunk;
    Stay(s);
    CanIsMay(s, s);
    ThenMaybe(s, s, QueueStored(e));
    var t1 := Apply(s, QueueStored(e));
    ThenMaybe(s, t1, WriteHunk);
    var t2 := Apply(t1, WriteHunk);
    var band := s.backup.band;
    SortedSame(t1.backup.queue);
    assert e in t1.backup.queue;
    assert !HunkOk(t2.blocks, SortedHunk(t1.backup.queue));
    assert t2.bands[band].hunks[|s.bands[band].hunks|] == SortedHunk(t1.backup.queue);
    assert !BandOk(t2.blocks, t2.bands[band]);
  }
}
