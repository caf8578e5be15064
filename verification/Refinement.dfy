/** The writer's backups as runs of the protocol: the storage accesses of a whole backup, in order; that they are legal
    and end in the archive the backup makes; and that, as long as every combined block could be stored, every entry
    queued lies inside blocks stored or found, so no interleaving with a collector dangles (src/backup.rs). */
module Refinement {
  import opened Base
  import opened Entries
  import opened Sorting
  import opened Storage
  import opened Index
  import opened Stitch
  import opened EntryIter
  import opened BlockDirs
  import opened Content
  import opened BackupStatistics
  import opened Combining
  import opened Backup
  import opened Jobs
  import opened GarbageCollection
  import opened Protocol
  import opened Interleaving

  // ----- the steps of a backup

  function StoreSteps(chunks: seq<Bytes>): seq<Step> {
    if chunks == [] then [] else [WriteBlock(chunks[0])] + StoreSteps(chunks[1..])
  }

  function ConfirmSteps(addrs: seq<Address>): seq<Step> {
    if addrs == [] then [] else [ConfirmBlock(addrs[0].hash)] + ConfirmSteps(addrs[1..])
  }

  function QueueSteps(es: seq<IndexEntry>): seq<Step> {
    if es == [] then [] else [QueueStored(es[0])] + QueueSteps(es[1..])
  }

  /** Storing the combined block, if any file is in it. */
  function FlushSteps(c: Combiner): seq<Step> {
    if c.queue == [] then [] else [WriteBlock(c.buf)]
  }

  function FileSteps(w: Writer, src: Source, opts: Options): seq<Step>
    requires src.entry.kindMeta.FileMeta?
  {
    var e := src.entry;
    if e.kindMeta.size == 0 then [QueueStored(MetadataFrom(e))]
    else if src.read.OpenFailed? then []
    else if e.kindMeta.size <= opts.smallFileCap then
      if Fills(w.combiner, e, src.read.small, opts.maxBlockSize) && src.storeOk
      then FlushSteps(Take(w.combiner, e, src.read.small)) else []
    else
      match src.read.large
      case LargeFailed(stored) => StoreSteps(stored)
      case LargeOk(content) =>
        var chunks := Chunks(content, opts.maxBlockSize);
        StoreSteps(chunks) + [QueueStored(MetadataFrom(e).(addrs := WholeAddresses(chunks)))]
  }

  function TakeOverSteps(b: IndexEntry, e: EntryValue): seq<Step> {
    ConfirmSteps(b.addrs) + [QueueUnchanged(b, MetadataFrom(e).(addrs := b.addrs))]
  }

  function EntrySteps(w: Writer, src: Source, opts: Options): seq<Step> {
    match src.entry.kindMeta
    case DirMeta => [QueueStored(MetadataFrom(src.entry))]
    case SymlinkMeta(_) => [QueueStored(MetadataFrom(src.entry))]
    case UnknownMeta => []
    case FileMeta(_) =>
      if Unmodified(w, src) then TakeOverSteps(Lookup(w.basis, src.entry.apath).value, src.entry)
      else FileSteps(w, src, opts)
  }

  function CopySteps(w: Writer, es: seq<Source>, opts: Options): seq<Step>
    decreases es
  {
    if es == [] then []
    else
      var src := Prepared(es[0], opts);
      EntrySteps(w, src, opts) + CopySteps(CopyEntry(w, src, opts), es[1..], opts)
  }

  /** Ending a group: the combined block first, then the hunk. */
  function FinishSteps(w: Writer): seq<Step> {
    var finished := Flush(w.combiner, w.blocks, true).0.finished;
    FlushSteps(w.combiner) + QueueSteps(finished) + if w.queue + finished == [] then [] else [WriteHunk]
  }

  function GroupsSteps(w: Writer, groups: seq<seq<Source>>, opts: Options): seq<Step>
    decreases groups
  {
    if groups == [] then []
    else
      var copied := CopyAll(w, groups[0], opts);
      CopySteps(w, groups[0], opts) + FinishSteps(copied) + GroupsSteps(FlushGroup(copied), groups[1..], opts)
  }

  function HunkReads(b: nat, n: nat): seq<Step> {
    if n == 0 then [] else HunkReads(b, n - 1) + [ReadBasis(b, n - 1)]
  }

  function ChainReads(bands: Bands, chain: seq<nat>): seq<Step> {
    if chain == [] then []
    else (if chain[0] in bands then HunkReads(chain[0], |bands[chain[0]].hunks|) else []) +
         ChainReads(bands, chain[1..])
  }

  /** Reading the basis: every hunk of the bands that a stitched read of the last band goes through. */
  ghost function BasisReads(bands: Bands): seq<Step> {
    match LastBandId(bands)
    case None => []
    case Some(b) => ChainReads(bands, Chain(bands, b))
  }

  /** All storage accesses of a backup of an archive, in order. */
  ghost function JobSteps(st: ArchiveState, j: Job): seq<Step> {
    [TestLock, CreateBand, WriteHead] + BasisReads(st.bands) +
    GroupsSteps(Begin(st.blocks, BasisOf(st.bands)), j.groups, j.opts) + [if j.complete then Close else StopBackup]
  }

  // ----- runs of the backup alone

  ghost predicate AllOwn(steps: seq<Step>) {
    forall step :: step in steps ==> BackupStep(step)
  }

  /** These steps, all of the backup, lead from one state to the other. */
  ghost predicate Leads(s: State, steps: seq<Step>, t: State) {
    AllOwn(steps) && Legal(s, steps) && Run(s, steps) == t
  }

  lemma LeadsOn(s: State, steps: seq<Step>, t: State, step: Step)
    requires Leads(s, steps, t) && Enabled(t, step) && BackupStep(step)
    ensures Leads(s, steps + [step], Apply(t, step))
  {
    hide Enabled, Apply, BackupStep, Legal;
    ThenLegal(s, steps, step);
  }

  lemma LeadsThrough(s: State, steps: seq<Step>, t: State, rest: seq<Step>, u: State)
    requires Leads(s, steps, t) && Leads(t, rest, u)
    ensures Leads(s, steps + rest, u)
  {
    hide BackupStep, Legal;
    RunAppend(s, steps, rest);
  }

  lemma LeadsOne(s: State, step: Step)
    requires Enabled(s, step) && BackupStep(step)
    ensures Leads(s, [step], Apply(s, step))
  {
    LeadsNowhere(s);
    LeadsOn(s, [], s, step);
    assert [] + [step] == [step];
  }

  lemma LeadsNowhere(s: State)
    ensures Leads(s, [], s)
  {
  }

  /** The protocol's state when the writer is in state `w` and has stored or found the blocks `known`; `base` is the
      state when its band was created and its basis read. */
  ghost function Shape(base: State, w: Writer, known: set<BlockHash>): State
    requires Based(base)
  {
    var band := base.backup.band;
    base.(bands := base.bands[band := base.bands[band].(hunks := w.hunks)], blocks := w.blocks.Keys,
          backup := base.backup.(known := known, queue := w.queue))
  }

  predicate Based(base: State) {
    base.backup.Writing? && base.backup.band in base.bands
  }

  /** These steps take the writer's state, as the protocol sees it, to a later one. */
  ghost predicate Takes(base: State, w: Writer, known: set<BlockHash>, steps: seq<Step>, w': Writer,
                        known': set<BlockHash>) {
    Based(base) && Leads(Shape(base, w, known), steps, Shape(base, w', known')) && known <= known'
  }

  lemma TakesThrough(base: State, w: Writer, k: set<BlockHash>, steps: seq<Step>, w1: Writer, k1: set<BlockHash>,
                     rest: seq<Step>, w2: Writer, k2: set<BlockHash>)
    requires Takes(base, w, k, steps, w1, k1) && Takes(base, w1, k1, rest, w2, k2)
    ensures Takes(base, w, k, steps + rest, w2, k2)
  {
    hide Leads;
    LeadsThrough(Shape(base, w, k), steps, Shape(base, w1, k1), rest, Shape(base, w2, k2));
  }

  lemma TakesNothing(base: State, w: Writer, w': Writer, known: set<BlockHash>)
    requires Based(base) && w'.queue == w.queue && w'.hunks == w.hunks && w'.blocks.Keys == w.blocks.Keys
    ensures Takes(base, w, known, [], w', known)
  {
    LeadsNowhere(Shape(base, w, known));
  }

  // ----- single steps

  lemma StoreStep(base: State, w: Writer, known: set<BlockHash>, data: Bytes)
    requires Based(base)
    ensures Takes(base, w, known, [WriteBlock(data)], w.(blocks := StoreBlock(w.blocks, data)),
                  known + {HashBytes(data)})
  {
    hide Leads;
    var w', known' := w.(blocks := StoreBlock(w.blocks, data)), known + {HashBytes(data)};
    var s := Shape(base, w, known);
    LeadsOne(s, WriteBlock(data));
    assert w'.blocks.Keys == w.blocks.Keys + {HashBytes(data)};
    assert Apply(s, WriteBlock(data)) == Shape(base, w', known');
  }

  lemma ConfirmStep(base: State, w: Writer, known: set<BlockHash>, h: BlockHash)
    requires Based(base) && h in w.blocks
    ensures Takes(base, w, known, [ConfirmBlock(h)], w, known + {h})
  {
    hide Leads;
    var s := Shape(base, w, known);
    LeadsOne(s, ConfirmBlock(h));
    assert Apply(s, ConfirmBlock(h)) == Shape(base, w, known + {h});
  }

  lemma QueueStep(base: State, w: Writer, known: set<BlockHash>, e: IndexEntry)
    requires Based(base)
    ensures Takes(base, w, known, [QueueStored(e)], w.(queue := w.queue + [e]), known)
  {
    hide Leads;
    var s := Shape(base, w, known);
    LeadsOne(s, QueueStored(e));
    assert Apply(s, QueueStored(e)) == Shape(base, w.(queue := w.queue + [e]), known);
  }

  lemma UnchangedStep(base: State, w: Writer, known: set<BlockHash>, b: IndexEntry, e: IndexEntry)
    requires Based(base) && b in base.backup.basis && e.addrs == b.addrs && forall a :: a in e.addrs ==> a.hash in known
    ensures Takes(base, w, known, [QueueUnchanged(b, e)], w.(queue := w.queue + [e]), known)
  {
    hide Leads;
    var s := Shape(base, w, known);
    LeadsOne(s, QueueUnchanged(b, e));
    assert Apply(s, QueueUnchanged(b, e)) == Shape(base, w.(queue := w.queue + [e]), known);
  }

  lemma HunkStep(base: State, w: Writer, known: set<BlockHash>)
    requires Based(base)
    ensures Takes(base, w, known, if w.queue == [] then [] else [WriteHunk],
                  w.(queue := [], hunks := w.hunks + HunkOf(w.queue)), known)
  {
    hide Leads, Sort;
    var w' := w.(queue := [], hunks := w.hunks + HunkOf(w.queue));
    if w.queue == [] {
      assert w'.hunks == w.hunks;
      TakesNothing(base, w, w', known);
    } else {
      var s := Shape(base, w, known);
      LeadsOne(s, WriteHunk);
      assert Apply(s, WriteHunk) == Shape(base, w', known);
    }
  }

  // ----- several steps

  lemma {:induction false} StoreEvery(base: State, w: Writer, known: set<BlockHash>, chunks: seq<Bytes>)
    returns (known': set<BlockHash>)
    requires Based(base)
    ensures Takes(base, w, known, StoreSteps(chunks), w.(blocks := StoreAll(w.blocks, chunks)), known')
    decreases chunks
  {
    hide Takes;
    if chunks == [] {
      known' := known;
      TakesNothing(base, w, w, known);
    } else {
      var w1, known1 := w.(blocks := StoreBlock(w.blocks, chunks[0])), known + {HashBytes(chunks[0])};
      StoreStep(base, w, known, chunks[0]);
      known' := StoreEvery(base, w1, known1, chunks[1..]);
      TakesThrough(base, w, known, [WriteBlock(chunks[0])], w1, known1, StoreSteps(chunks[1..]),
                   w.(blocks := StoreAll(w.blocks, chunks)), known');
    }
  }

  lemma {:induction false} ConfirmEvery(base: State, w: Writer, known: set<BlockHash>, addrs: seq<Address>)
    returns (known': set<BlockHash>)
    requires Based(base) && forall a :: a in addrs ==> a.hash in w.blocks
    ensures Takes(base, w, known, ConfirmSteps(addrs), w, known') && known <= known'
    ensures forall a :: a in addrs ==> a.hash in known'
    decreases addrs
  {
    hide Takes;
    if addrs == [] {
      known' := known;
      TakesNothing(base, w, w, known);
    } else {
      assert addrs[0] in addrs && forall a :: a in addrs[1..] ==> a in addrs;
      var known1 := known + {addrs[0].hash};
      ConfirmStep(base, w, known, addrs[0].hash);
      known' := ConfirmEvery(base, w, known1, addrs[1..]);
      TakesThrough(base, w, known, [ConfirmBlock(addrs[0].hash)], w, known1, ConfirmSteps(addrs[1..]), w, known');
      assert forall a :: a in addrs <==> a == addrs[0] || a in addrs[1..];
    }
  }

  lemma {:induction false} QueueEvery(base: State, w: Writer, known: set<BlockHash>, es: seq<IndexEntry>)
    requires Based(base)
    ensures Takes(base, w, known, QueueSteps(es), w.(queue := w.queue + es), known)
    decreases es
  {
    hide Takes;
    var w' := w.(queue := w.queue + es);
    if es == [] {
      assert w'.queue == w.queue;
      TakesNothing(base, w, w', known);
    } else {
      var w1 := w.(queue := w.queue + [es[0]]);
      QueueStep(base, w, known, es[0]);
      QueueEvery(base, w1, known, es[1..]);
      assert w1.queue + es[1..] == w'.queue;
      TakesThrough(base, w, known, [QueueStored(es[0])], w1, known, QueueSteps(es[1..]), w', known);
    }
  }

  // ----- one entry

  lemma FlushTakes(base: State, w: Writer, known: set<BlockHash>) returns (known': set<BlockHash>)
    requires Based(base)
    ensures
      var (c, blocks) := Flush(w.combiner, w.blocks, true);
      Takes(base, w, known, FlushSteps(w.combiner), w.(combiner := c, blocks := blocks), known')
  {
    var (c, blocks) := Flush(w.combiner, w.blocks, true);
    var w' := w.(combiner := c, blocks := blocks);
    hide Leads;
    if w.combiner.queue == [] {
      known' := known;
      TakesNothing(base, w, w', known);
    } else {
      StoreStep(base, w, known, w.combiner.buf);
      known' := known + {HashBytes(w.combiner.buf)};
      assert Shape(base, w', known') == Shape(base, w.(blocks := blocks), known');
    }
  }

  lemma SmallTakes(base: State, w: Writer, known: set<BlockHash>, src: Source, opts: Options)
    returns (known': set<BlockHash>)
    requires Based(base) && src.entry.kindMeta.FileMeta? && src.read.Reads?
    requires 0 < src.entry.kindMeta.size <= opts.smallFileCap
    ensures Takes(base, w, known, FileSteps(w, src, opts), StoreFile(w, src, opts), known')
  {
    hide Leads, Shape, Take, FlushSteps;
    var taken := w.(combiner := Take(w.combiner, src.entry, src.read.small));
    var w' := StoreFile(w, src, opts);
    if Fills(w.combiner, src.entry, src.read.small, opts.maxBlockSize) && src.storeOk {
      known' := FlushTakes(base, taken, known);
      SameShape(base, w, taken, known);
      var (c, blocks) := Flush(taken.combiner, taken.blocks, true);
      SameShape(base, taken.(combiner := c, blocks := blocks), w', known');
    } else {
      known' := known;
      TakesNothing(base, w, w', known);
    }
  }

  lemma SameShape(base: State, w: Writer, w': Writer, known: set<BlockHash>)
    requires Based(base) && w'.queue == w.queue && w'.hunks == w.hunks && w'.blocks.Keys == w.blocks.Keys
    ensures Shape(base, w, known) == Shape(base, w', known)
  {
  }

  lemma LargeTakes(base: State, w: Writer, known: set<BlockHash>, src: Source, opts: Options)
    returns (known': set<BlockHash>)
    requires Based(base) && src.entry.kindMeta.FileMeta? && src.read.Reads?
    requires src.entry.kindMeta.size > 0 && src.entry.kindMeta.size > opts.smallFileCap
    ensures Takes(base, w, known, FileSteps(w, src, opts), StoreFile(w, src, opts), known')
  {
    hide Takes, Shape, CountBlocks, CountFile, Chunks, StoreSteps;
    var w' := StoreFile(w, src, opts);
    match src.read.large
    case LargeFailed(stored) =>
      known' := StoreEvery(base, w, known, stored);
      TakesAs(base, w, known, StoreSteps(stored), w.(blocks := StoreAll(w.blocks, stored)), known', w');
    case LargeOk(content) =>
      var chunks := Chunks(content, opts.maxBlockSize);
      known' := StoreEvery(base, w, known, chunks);
      var w1 := w.(blocks := StoreAll(w.blocks, chunks));
      var e := MetadataFrom(src.entry).(addrs := WholeAddresses(chunks));
      QueueStep(base, w1, known', e);
      TakesThrough(base, w, known, StoreSteps(chunks), w1, known', [QueueStored(e)],
                   w1.(queue := w.queue + [e]), known');
      TakesAs(base, w, known, StoreSteps(chunks) + [QueueStored(e)], w1.(queue := w.queue + [e]), known', w');
  }

  lemma TakesAs(base: State, w: Writer, known: set<BlockHash>, steps: seq<Step>, w1: Writer, known': set<BlockHash>,
                w2: Writer)
    requires Takes(base, w, known, steps, w1, known')
    requires w2.queue == w1.queue && w2.hunks == w1.hunks && w2.blocks.Keys == w1.blocks.Keys
    ensures Takes(base, w, known, steps, w2, known')
  {
    SameShape(base, w1, w2, known');
  }

  lemma StoreTakes(base: State, w: Writer, known: set<BlockHash>, src: Source, opts: Options)
    returns (known': set<BlockHash>)
    requires Based(base) && src.entry.kindMeta.FileMeta?
    ensures Takes(base, w, known, FileSteps(w, src, opts), StoreFile(w, src, opts), known')
  {
    hide Takes, Fills;
    known' := known;
    var w' := StoreFile(w, src, opts);
    if src.entry.kindMeta.size == 0 {
      var e := MetadataFrom(src.entry);
      QueueStep(base, w, known, e);
      TakesAs(base, w, known, [QueueStored(e)], w.(queue := w.queue + [e]), known, w');
    } else if src.read.OpenFailed? {
      TakesNothing(base, w, w', known);
    } else if src.entry.kindMeta.size <= opts.smallFileCap {
      known' := SmallTakes(base, w, known, src, opts);
    } else {
      known' := LargeTakes(base, w, known, src, opts);
    }
  }

  /** Every entry of the writer's basis has been read. */
  ghost predicate HasBasis(base: State, w: Writer) {
    Based(base) && forall b :: b in w.basis ==> b in base.backup.basis
  }

  lemma TakeOverTakes(base: State, w: Writer, known: set<BlockHash>, b: IndexEntry, e: EntryValue)
    returns (known': set<BlockHash>)
    requires Based(base) && b in base.backup.basis && AllBlocksPresent(w.blocks, b.addrs)
    ensures
      var w' := w.(queue := w.queue + [MetadataFrom(e).(addrs := b.addrs)]);
      Takes(base, w, known, TakeOverSteps(b, e), w', known')
  {
    hide Takes;
    assert forall a :: a in b.addrs ==> Contains(w.blocks, a.hash);
    known' := ConfirmEvery(base, w, known, b.addrs);
    var e' := MetadataFrom(e).(addrs := b.addrs);
    UnchangedStep(base, w, known', b, e');
    TakesThrough(base, w, known, ConfirmSteps(b.addrs), w, known', [QueueUnchanged(b, e')],
                 w.(queue := w.queue + [e']), known');
  }

  /** Copying one entry, in whatever way and whatever fails, is a run of the protocol. */
  lemma EntryTakes(base: State, w: Writer, known: set<BlockHash>, src: Source, opts: Options)
    returns (known': set<BlockHash>)
    requires HasBasis(base, w)
    ensures Takes(base, w, known, EntrySteps(w, src, opts), CopyEntry(w, src, opts), known')
    ensures HasBasis(base, CopyEntry(w, src, opts))
  {
    hide Takes, StoreFile, FileSteps, TakeOverSteps, Classified, HeuristicallyUnchanged, AllBlocksPresent;
    known' := known;
    var e, w' := src.entry, CopyEntry(w, src, opts);
    if e.kindMeta.FileMeta? {
      var looked := w.(stats := Classified(w, src), basis := After(Some(e.apath), w.basis));
      SameFileSteps(w, looked, src, opts);
      CopiedBasis(w, src, opts);
      if Unmodified(w, src) {
        var b := Lookup(w.basis, e.apath).value;
        var e' := MetadataFrom(e).(addrs := b.addrs);
        known' := TakeOverTakes(base, w, known, b, e);
        TakesAs(base, w, known, TakeOverSteps(b, e), w.(queue := w.queue + [e']), known', w');
      } else {
        known' := StoreTakes(base, looked, known, src, opts);
        TakesFrom(base, looked, w, known, FileSteps(w, src, opts), w', known');
      }
    } else if e.kindMeta.UnknownMeta? {
      TakesNothing(base, w, w', known);
    } else {
      QueueStep(base, w, known, MetadataFrom(e));
      TakesAs(base, w, known, [QueueStored(MetadataFrom(e))], w.(queue := w.queue + [MetadataFrom(e)]), known, w');
    }
  }

  lemma TakesFrom(base: State, w: Writer, w1: Writer, known: set<BlockHash>, steps: seq<Step>, w2: Writer,
                  known': set<BlockHash>)
    requires Takes(base, w, known, steps, w2, known')
    requires w1.queue == w.queue && w1.hunks == w.hunks && w1.blocks == w.blocks
    ensures Takes(base, w1, known, steps, w2, known')
  {
    SameShape(base, w, w1, known);
  }

  lemma SameFileSteps(w: Writer, w': Writer, src: Source, opts: Options)
    requires w'.combiner == w.combiner && src.entry.kindMeta.FileMeta?
    ensures FileSteps(w', src, opts) == FileSteps(w, src, opts)
  {
  }

  lemma CopiedBasis(w: Writer, src: Source, opts: Options)
    requires src.entry.kindMeta.FileMeta?
    ensures CopyEntry(w, src, opts).basis == After(Some(src.entry.apath), w.basis)
    ensures forall b :: b in After(Some(src.entry.apath), w.basis) ==> b in w.basis
    ensures Unmodified(w, src) ==> Lookup(w.basis, src.entry.apath).value in w.basis
  {
  }

  lemma {:induction false} CopyTakes(base: State, w: Writer, known: set<BlockHash>, es: seq<Source>, opts: Options)
    returns (known': set<BlockHash>)
    requires HasBasis(base, w)
    ensures Takes(base, w, known, CopySteps(w, es, opts), CopyAll(w, es, opts), known')
    ensures HasBasis(base, CopyAll(w, es, opts))
    decreases es
  {
    hide Takes, CopyEntry, EntrySteps, Prepared;
    known' := known;
    if es == [] {
      TakesNothing(base, w, w, known);
    } else {
      var src := Prepared(es[0], opts);
      var w1 := CopyEntry(w, src, opts);
      var known1 := EntryTakes(base, w, known, src, opts);
      known' := CopyTakes(base, w1, known1, es[1..], opts);
      TakesThrough(base, w, known, EntrySteps(w, src, opts), w1, known1, CopySteps(w1, es[1..], opts),
                   CopyAll(w, es, opts), known');
    }
  }

  lemma FinishTakes(base: State, w: Writer, known: set<BlockHash>) returns (known': set<BlockHash>)
    requires Based(base)
    ensures Takes(base, w, known, FinishSteps(w), FlushGroup(w), known')
  {
    hide Takes, FlushSteps, QueueSteps, Flush, Sort;
    known' := FlushTakes(base, w, known);
    var (c, blocks) := Flush(w.combiner, w.blocks, true);
    var w1 := w.(combiner := c, blocks := blocks);
    QueueEvery(base, w1, known', c.finished);
    var w2 := w1.(queue := w.queue + c.finished);
    TakesThrough(base, w, known, FlushSteps(w.combiner), w1, known', QueueSteps(c.finished), w2, known');
    HunkStep(base, w2, known');
    var hunk := if w2.queue == [] then [] else [WriteHunk];
    var w3 := w2.(queue := [], hunks := w2.hunks + HunkOf(w2.queue));
    TakesThrough(base, w, known, FlushSteps(w.combiner) + QueueSteps(c.finished), w2, known', hunk, w3, known');
    TakesAs(base, w, known, FinishSteps(w), w3, known', FlushGroup(w));
  }

  lemma {:induction false} GroupsTake(base: State, w: Writer, known: set<BlockHash>, groups: seq<seq<Source>>,
                                      opts: Options)
    returns (known': set<BlockHash>)
    requires HasBasis(base, w)
    ensures Takes(base, w, known, GroupsSteps(w, groups, opts), CopyGroups(w, groups, opts), known')
    decreases groups
  {
    hide Takes, CopyAll, CopySteps, FinishSteps;
    known' := known;
    if groups == [] {
      TakesNothing(base, w, w, known);
    } else {
      var w1 := CopyAll(w, groups[0], opts);
      var known1 := CopyTakes(base, w, known, groups[0], opts);
      var known2 := FinishTakes(base, w1, known1);
      TakesThrough(base, w, known, CopySteps(w, groups[0], opts), w1, known1, FinishSteps(w1), FlushGroup(w1), known2);
      known' := GroupsTake(base, FlushGroup(w1), known2, groups[1..], opts);
      TakesThrough(base, w, known, CopySteps(w, groups[0], opts) + FinishSteps(w1), FlushGroup(w1), known2,
                   GroupsSteps(FlushGroup(w1), groups[1..], opts), CopyGroups(w, groups, opts), known');
    }
  }

  // ----- reading the basis

  lemma StitchedFrom(bands: Bands, b: nat, last: Option<string>, e: IndexEntry)
    returns (c: nat, n: nat)
    requires e in Stitched(bands, b, last)
    ensures c in Chain(bands, b) && c in bands && n < |bands[c].hunks| && e in HunkEntries(bands[c].hunks[n])
  {
    c := InSomeBand(bands, b, last, e);
    n := EntryInHunk(bands[c].hunks, e);
  }

  lemma {:induction false} ChainBelow(bands: Bands, b: nat)
    ensures forall c :: c in Chain(bands, b) ==> c <= b
    decreases b
  {
    if !BandIsClosed(bands, b) && PreviousExisting(bands, b).Some? {
      ChainBelow(bands, PreviousExisting(bands, b).value);
    }
  }

  /** Reading leads to a state in which the basis has grown and nothing else has changed. */
  ghost predicate Reads(s: State, steps: seq<Step>, t: State) {
    Leads(s, steps, t) && s.backup.Writing? && t.backup.Writing? && s.backup.basis <= t.backup.basis &&
    t == s.(backup := s.backup.(basis := t.backup.basis))
  }

  predicate HasRead(t: State, c: nat, n: nat) {
    t.backup.Writing? && forall e :: e in HunkEntries(HunkIn(t.bands, c, n)) ==> e in t.backup.basis
  }

  lemma HasReadStill(s: State, steps: seq<Step>, t: State, c: nat, n: nat)
    requires Reads(s, steps, t) && HasRead(s, c, n)
    ensures HasRead(t, c, n)
  {
  }

  lemma ReadsThrough(s: State, steps: seq<Step>, t: State, rest: seq<Step>, u: State)
    requires Reads(s, steps, t) && Reads(t, rest, u)
    ensures Reads(s, steps + rest, u)
  {
    hide Leads;
    LeadsThrough(s, steps, t, rest, u);
  }

  lemma ReadsOne(s: State, c: nat, n: nat) returns (t: State)
    requires s.backup.Writing? && c < s.backup.band
    ensures Reads(s, [ReadBasis(c, n)], t) && HasRead(t, c, n)
  {
    hide Leads;
    LeadsOne(s, ReadBasis(c, n));
    t := Apply(s, ReadBasis(c, n));
  }

  lemma {:induction false} ReadsHunks(s: State, c: nat, n: nat) returns (t: State)
    requires s.backup.Writing? && c < s.backup.band
    ensures Reads(s, HunkReads(c, n), t) && forall m :: 0 <= m < n ==> HasRead(t, c, m)
    decreases n
  {
    hide HasRead, Leads;
    if n == 0 {
      LeadsNowhere(s);
      t := s;
    } else {
      var t1 := ReadsHunks(s, c, n - 1);
      t := ReadsOne(t1, c, n - 1);
      ReadsThrough(s, HunkReads(c, n - 1), t1, [ReadBasis(c, n - 1)], t);
      forall m | 0 <= m < n ensures HasRead(t, c, m) {
        if m < n - 1 {
          HasReadStill(t1, [ReadBasis(c, n - 1)], t, c, m);
        }
      }
    }
  }

  lemma {:induction false} ReadsChain(s: State, bands: Bands, chain: seq<nat>) returns (t: State)
    requires s.backup.Writing? && forall c :: c in chain ==> c < s.backup.band
    ensures Reads(s, ChainReads(bands, chain), t)
    ensures forall c, m :: c in chain && c in bands && 0 <= m < |bands[c].hunks| ==> HasRead(t, c, m)
    decreases chain
  {
    hide HasRead, Leads;
    if chain == [] {
      LeadsNowhere(s);
      t := s;
    } else {
      var c0, rest := chain[0], chain[1..];
      assert c0 in chain && forall c :: c in rest ==> c in chain;
      var n := if c0 in bands then |bands[c0].hunks| else 0;
      var t1 := ReadsHunks(s, c0, n);
      t := ReadsChain(t1, bands, rest);
      ReadsThrough(s, HunkReads(c0, n), t1, ChainReads(bands, rest), t);
      forall c, m | c in chain && c in bands && 0 <= m < |bands[c].hunks| ensures HasRead(t, c, m) {
        if c !in rest {
          HasReadStill(t1, ChainReads(bands, rest), t, c, m);
        }
      }
    }
  }

  lemma ReadsBasis(s: State, bands: Bands) returns (t: State)
    requires s.backup.Writing? && s.backup.band == NextBandId(bands)
    requires forall b :: b in bands ==> b in s.bands && s.bands[b] == bands[b]
    ensures Reads(s, BasisReads(bands), t) && forall e :: e in BasisOf(bands) ==> e in t.backup.basis
  {
    hide Leads, Chain, ChainReads, Stitched;
    if LastBandId(bands).None? {
      LeadsNowhere(s);
      t := s;
    } else {
      var last := LastBandId(bands).value;
      ChainBelow(bands, last);
      t := ReadsChain(s, bands, Chain(bands, last));
      forall e | e in BasisOf(bands) ensures e in t.backup.basis {
        var c, n := StitchedFrom(bands, last, None, e);
        assert HasRead(t, c, n);
      }
    }
  }

  // ----- the whole backup

  /** Test the lock, create the band and its head, and read the basis. */
  lemma BeginLeads(s: State, st: ArchiveState) returns (base: State)
    requires s.backup.NoBackup? && !s.lock && s.bands == st.bands && s.blocks == st.blocks.Keys
    ensures Leads(s, [TestLock, CreateBand, WriteHead] + BasisReads(st.bands), base)
    ensures HasBasis(base, Begin(st.blocks, BasisOf(st.bands)))
    ensures Shape(base, Begin(st.blocks, BasisOf(st.bands)), {}) == base
    ensures
      var id := NextBandId(st.bands);
      base.backup.Writing? && base.backup.band == id &&
      base == s.(bands := st.bands[id := BandFiles(Usable, false, [])], backup := base.backup)
  {
    hide Leads, BasisOf, LastBandId, NextBandId, BasisReads;
    LeadsOne(s, TestLock);
    var t1 := Apply(s, TestLock);
    LeadsOn(s, [TestLock], t1, CreateBand);
    var t2 := Apply(t1, CreateBand);
    LeadsOn(s, [TestLock] + [CreateBand], t2, WriteHead);
    var t3 := Apply(t2, WriteHead);
    assert [TestLock] + [CreateBand] + [WriteHead] == [TestLock, CreateBand, WriteHead];
    var id := NextBandId(st.bands);
    assert t3 == s.(bands := st.bands[id := BandFiles(Usable, false, [])], backup := Writing(id, {}, {}, []));
    NextIsNew(st.bands);
    base := ReadsBasis(t3, st.bands);
    LeadsThrough(s, [TestLock, CreateBand, WriteHead], t3, BasisReads(st.bands), base);
  }

  lemma NextIsNew(bands: Bands)
    ensures NextBandId(bands) !in bands
  {
  }

  /** The steps of any backup, complete or stopped after any groups, whatever fails, are legal from an archive that is
      not locked, and end in exactly the archive that the backup makes. */
  lemma BackupIsARun(s: State, st: ArchiveState, j: Job)
    requires s.backup.NoBackup? && !s.lock && s.bands == st.bands && s.blocks == st.blocks.Keys
    ensures
      var end := s.(bands := RunJob(st, j).bands, blocks := RunJob(st, j).blocks.Keys);
      AllOwn(JobSteps(st, j)) && Legal(s, JobSteps(st, j)) && Run(s, JobSteps(st, j)) == end
  {
    hide Leads, CopyGroups, BasisOf, BasisReads, GroupsSteps;
    var begin := Begin(st.blocks, BasisOf(st.bands));
    var base := BeginLeads(s, st);
    var known := GroupsTake(base, begin, {}, j.groups, j.opts);
    var w := CopiedFrom(st, j.groups, j.opts);
    var t := Shape(base, w, known);
    var opening := [TestLock, CreateBand, WriteHead] + BasisReads(st.bands);
    LeadsThrough(s, opening, base, GroupsSteps(begin, j.groups, j.opts), t);
    CopiedQueueEmpty(begin, j.groups, j.opts);
    var last := if j.complete then Close else StopBackup;
    LeadsOn(s, opening + GroupsSteps(begin, j.groups, j.opts), t, last);
    assert Apply(t, last).bands == RunJob(st, j).bands;
    var end := s.(bands := RunJob(st, j).bands, blocks := RunJob(st, j).blocks.Keys);
    assert Apply(t, last) == end;
    LeadsMeans(s, JobSteps(st, j), end);
  }

  lemma LeadsMeans(s: State, steps: seq<Step>, t: State)
    requires Leads(s, steps, t)
    ensures AllOwn(steps) && Legal(s, steps) && Run(s, steps) == t
  {
  }

  lemma {:induction false} CopiedQueueEmpty(w: Writer, groups: seq<seq<Source>>, opts: Options)
    requires w.queue == []
    ensures CopyGroups(w, groups, opts).queue == []
    decreases groups
  {
    hide CopyAll;
    if groups != [] {
      CopiedQueueEmpty(FlushGroup(CopyAll(w, groups[0], opts)), groups[1..], opts);
    }
  }

  // ----- what the backup queues

  /** Files in the combiner lie inside its buffer or inside known blocks. */
  ghost predicate Fits(known: set<BlockHash>, c: Combiner) {
    (forall q :: q in c.queue ==> q.start + q.len <= |c.buf|) && (forall e :: e in c.finished ==> EntryOk(known, e))
  }

  /** These steps queue only what is there, and leave the combiner so that it goes on doing so. */
  ghost predicate Behaves(known: set<BlockHash>, steps: seq<Step>, c: Combiner) {
    QueuesOk(known, steps) && Fits(KnownAfterAll(known, steps), c)
  }

  lemma BehavesOn(known: set<BlockHash>, steps: seq<Step>, rest: seq<Step>, c: Combiner)
    requires QueuesOk(known, steps) && Behaves(KnownAfterAll(known, steps), rest, c)
    ensures Behaves(known, steps + rest, c)
  {
    hide QueuesOk, KnownAfterAll, Fits;
    QueuesAppend(known, steps, rest);
  }

  lemma EntryOkMore(known: set<BlockHash>, more: set<BlockHash>, e: IndexEntry)
    requires EntryOk(known, e) && known <= more
    ensures EntryOk(more, e)
  {
  }

  lemma FitsMore(known: set<BlockHash>, more: set<BlockHash>, c: Combiner)
    requires Fits(known, c) && known <= more
    ensures Fits(more, c)
  {
    forall e | e in c.finished ensures EntryOk(more, e) {
      EntryOkMore(known, more, e);
    }
  }

  lemma {:induction false} StoredKnown(known: set<BlockHash>, chunks: seq<Bytes>)
    ensures QueuesOk(known, StoreSteps(chunks)) && known <= KnownAfterAll(known, StoreSteps(chunks))
    ensures forall c :: c in chunks ==> HashBytes(c) in KnownAfterAll(known, StoreSteps(chunks))
    decreases chunks
  {
    if chunks != [] {
      var known1 := known + {HashBytes(chunks[0])};
      var steps := StoreSteps(chunks);
      StoredKnown(known1, chunks[1..]);
      assert steps[0] == WriteBlock(chunks[0]) && steps[1..] == StoreSteps(chunks[1..]);
      assert forall c :: c in chunks <==> c == chunks[0] || c in chunks[1..];
    }
  }

  lemma {:induction false} ConfirmedKnown(known: set<BlockHash>, addrs: seq<Address>)
    ensures QueuesOk(known, ConfirmSteps(addrs)) && known <= KnownAfterAll(known, ConfirmSteps(addrs))
    decreases addrs
  {
    if addrs != [] {
      var steps := ConfirmSteps(addrs);
      ConfirmedKnown(known + {addrs[0].hash}, addrs[1..]);
      assert steps[0] == ConfirmBlock(addrs[0].hash) && steps[1..] == ConfirmSteps(addrs[1..]);
    }
  }

  lemma {:induction false} QueuedKnown(known: set<BlockHash>, es: seq<IndexEntry>)
    requires forall e :: e in es ==> EntryOk(known, e)
    ensures QueuesOk(known, QueueSteps(es)) && KnownAfterAll(known, QueueSteps(es)) == known
    decreases es
  {
    hide EntryOk;
    if es != [] {
      var steps := QueueSteps(es);
      assert es[0] in es && forall e :: e in es[1..] ==> e in es;
      QueuedKnown(known, es[1..]);
      assert steps[0] == QueueStored(es[0]) && steps[1..] == QueueSteps(es[1..]);
    }
  }

  /** A single step that queues or writes a hunk. */
  lemma OneKnown(known: set<BlockHash>, step: Step)
    requires step.WriteHunk? || step.QueueUnchanged? || (step.QueueStored? && EntryOk(known, step.entry))
    ensures QueuesOk(known, [step]) && KnownAfterAll(known, [step]) == known
  {
    hide EntryOk;
    assert [step][1..] == [];
  }

  lemma {:induction false} WholeInRange(chunks: seq<Bytes>, known: set<BlockHash>, a: Address)
    requires (forall c :: c in chunks ==> HashBytes(c) in known) && a in WholeAddresses(chunks)
    ensures AddressOk(known, a)
  {
    if a != WholeAddress(chunks[0]) {
      WholeInRange(chunks[1..], known, a);
    }
  }

  lemma WholeEntryOk(chunks: seq<Bytes>, known: set<BlockHash>, e: IndexEntry)
    requires (forall c :: c in chunks ==> HashBytes(c) in known) && e.addrs == WholeAddresses(chunks)
    ensures EntryOk(known, e)
  {
    forall a | a in e.addrs ensures AddressOk(known, a) {
      WholeInRange(chunks, known, a);
    }
  }

  lemma TakeFits(c: Combiner, e: EntryValue, read: ReadOutcome, known: set<BlockHash>)
    requires Fits(known, c) && e.kindMeta.FileMeta?
    ensures Fits(known, Take(c, e, read))
  {
  }

  lemma FlushFits(c: Combiner, blocks: Blocks, known: set<BlockHash>)
    requires Fits(known, c) && HashBytes(c.buf) in known && c.queue != []
    ensures Fits(known, Flush(c, blocks, true).0)
  {
    var es := WithAddresses(c.queue, HashBytes(c.buf));
    forall e | e in es ensures EntryOk(known, e) {
      var i :| 0 <= i < |es| && es[i] == e;
      assert c.queue[i] in c.queue;
    }
  }

  lemma FlushBehaves(known: set<BlockHash>, c: Combiner, blocks: Blocks)
    requires Fits(known, c)
    ensures Behaves(known, FlushSteps(c), Flush(c, blocks, true).0)
    ensures known <= KnownAfterAll(known, FlushSteps(c))
  {
    hide Fits;
    if c.queue != [] {
      var known' := known + {HashBytes(c.buf)};
      FitsMore(known, known', c);
      FlushFits(c, blocks, known');
      var steps := FlushSteps(c);
      assert steps[0] == WriteBlock(c.buf) && steps[1..] == [];
      assert QueuesOk(known', []) && KnownAfterAll(known', []) == known';
    }
  }

  lemma NoBlocksOk(known: set<BlockHash>, e: EntryValue)
    ensures EntryOk(known, MetadataFrom(e))
  {
  }

  lemma LargeBehaves(known: set<BlockHash>, w: Writer, src: Source, opts: Options)
    requires Fits(known, w.combiner) && src.entry.kindMeta.FileMeta? && src.read.Reads?
    requires src.entry.kindMeta.size > 0 && src.entry.kindMeta.size > opts.smallFileCap
    ensures Behaves(known, FileSteps(w, src, opts), w.combiner)
    ensures known <= KnownAfterAll(known, FileSteps(w, src, opts))
  {
    hide Fits, EntryOk, Chunks, KnownAfterAll, QueuesOk;
    match src.read.large
    case LargeFailed(stored) =>
      StoredKnown(known, stored);
      FitsMore(known, KnownAfterAll(known, StoreSteps(stored)), w.combiner);
    case LargeOk(content) =>
      var chunks := Chunks(content, opts.maxBlockSize);
      var known' := KnownAfterAll(known, StoreSteps(chunks));
      var e := MetadataFrom(src.entry).(addrs := WholeAddresses(chunks));
      StoredKnown(known, chunks);
      FitsMore(known, known', w.combiner);
      WholeEntryOk(chunks, known', e);
      OneKnown(known', QueueStored(e));
      QueuesAppend(known, StoreSteps(chunks), [QueueStored(e)]);
  }

  lemma FileBehaves(known: set<BlockHash>, w: Writer, src: Source, opts: Options)
    requires Fits(known, w.combiner) && src.entry.kindMeta.FileMeta?
    requires (0 < src.entry.kindMeta.size <= opts.smallFileCap && src.read.Reads? &&
              Fills(w.combiner, src.entry, src.read.small, opts.maxBlockSize)) ==> src.storeOk
    ensures Behaves(known, FileSteps(w, src, opts), StoreFile(w, src, opts).combiner)
    ensures known <= KnownAfterAll(known, FileSteps(w, src, opts))
  {
    hide Fits, EntryOk, Fills, FlushSteps, Flush;
    if src.entry.kindMeta.size == 0 {
      NoBlocksOk(known, src.entry);
      OneKnown(known, QueueStored(MetadataFrom(src.entry)));
    } else if src.read.OpenFailed? {
    } else if src.entry.kindMeta.size <= opts.smallFileCap {
      TakeFits(w.combiner, src.entry, src.read.small, known);
      if Fills(w.combiner, src.entry, src.read.small, opts.maxBlockSize) {
        FlushBehaves(known, Take(w.combiner, src.entry, src.read.small), w.blocks);
      }
    } else {
      LargeBehaves(known, w, src, opts);
    }
  }

  /** Unless a combined block cannot be stored, copying an entry queues only what is there. */
  lemma EntryBehaves(known: set<BlockHash>, w: Writer, src: Source, opts: Options)
    requires Fits(known, w.combiner) && !BlockStoreFails(w, src, opts)
    ensures Behaves(known, EntrySteps(w, src, opts), CopyEntry(w, src, opts).combiner)
  {
    hide Fits, EntryOk, StoreFile, FileSteps, Lookup, Classified, HeuristicallyUnchanged, AllBlocksPresent, Fills;
    hide KnownAfterAll, QueuesOk, ConfirmSteps;
    var e := src.entry;
    if e.kindMeta.FileMeta? {
      var looked := w.(stats := Classified(w, src), basis := After(Some(e.apath), w.basis));
      if Unmodified(w, src) {
        var b := Lookup(w.basis, e.apath).value;
        var queue := QueueUnchanged(b, MetadataFrom(e).(addrs := b.addrs));
        var known' := KnownAfterAll(known, ConfirmSteps(b.addrs));
        ConfirmedKnown(known, b.addrs);
        OneKnown(known', queue);
        FitsMore(known, known', w.combiner);
        QueuesAppend(known, ConfirmSteps(b.addrs), [queue]);
      } else {
        FileBehaves(known, looked, src, opts);
        SameFileSteps(w, looked, src, opts);
      }
    } else if e.kindMeta.UnknownMeta? {
      NothingKnown(known);
    } else {
      NoBlocksOk(known, e);
      OneKnown(known, QueueStored(MetadataFrom(e)));
    }
  }

  lemma NothingKnown(known: set<BlockHash>)
    ensures QueuesOk(known, []) && KnownAfterAll(known, []) == known
  {
  }

  lemma {:induction false} CopyBehaves(known: set<BlockHash>, w: Writer, es: seq<Source>, opts: Options)
    requires Fits(known, w.combiner) && BlockStoreFailures(w, es, opts) == 0
    ensures Behaves(known, CopySteps(w, es, opts), CopyAll(w, es, opts).combiner)
    decreases es
  {
    hide Fits, CopyEntry, EntrySteps, BlockStoreFails, Prepared, KnownAfterAll, QueuesOk;
    if es == [] {
      NothingKnown(known);
    } else {
      var src := Prepared(es[0], opts);
      EntryBehaves(known, w, src, opts);
      var w1, known1 := CopyEntry(w, src, opts), KnownAfterAll(known, EntrySteps(w, src, opts));
      CopyBehaves(known1, w1, es[1..], opts);
      BehavesOn(known, EntrySteps(w, src, opts), CopySteps(w1, es[1..], opts), CopyAll(w, es, opts).combiner);
    }
  }

  lemma FinishBehaves(known: set<BlockHash>, w: Writer)
    requires Fits(known, w.combiner)
    ensures Behaves(known, FinishSteps(w), FlushGroup(w).combiner)
  {
    hide EntryOk, Flush, Sort, KnownAfterAll, QueuesOk, FlushSteps, QueueSteps;
    var c := Flush(w.combiner, w.blocks, true).0;
    FlushBehaves(known, w.combiner, w.blocks);
    var known' := KnownAfterAll(known, FlushSteps(w.combiner));
    QueuedKnown(known', c.finished);
    var hunk := if w.queue + c.finished == [] then [] else [WriteHunk];
    if hunk == [] {
      NothingKnown(known');
    } else {
      OneKnown(known', WriteHunk);
    }
    QueuesAppend(known, FlushSteps(w.combiner), QueueSteps(c.finished));
    QueuesAppend(known, FlushSteps(w.combiner) + QueueSteps(c.finished), hunk);
  }

  lemma {:induction false} GroupsBehave(known: set<BlockHash>, w: Writer, groups: seq<seq<Source>>, opts: Options)
    requires Fits(known, w.combiner) && AllBlockStoreFailures(w, groups, opts) == 0
    ensures QueuesOk(known, GroupsSteps(w, groups, opts))
    decreases groups
  {
    hide Fits, CopyAll, CopySteps, FinishSteps, FlushGroup, BlockStoreFailures, KnownAfterAll, QueuesOk;
    if groups == [] {
      NothingKnown(known);
    } else {
      var w1, steps := CopyAll(w, groups[0], opts), CopySteps(w, groups[0], opts);
      CopyBehaves(known, w, groups[0], opts);
      FinishBehaves(KnownAfterAll(known, steps), w1);
      BehavesOn(known, steps, FinishSteps(w1), FlushGroup(w1).combiner);
      var known' := KnownAfterAll(known, steps + FinishSteps(w1));
      GroupsBehave(known', FlushGroup(w1), groups[1..], opts);
      QueuesAppend(known, steps + FinishSteps(w1), GroupsSteps(FlushGroup(w1), groups[1..], opts));
    }
  }

  lemma {:induction false} HunkReadsKnown(known: set<BlockHash>, b: nat, n: nat)
    ensures QueuesOk(known, HunkReads(b, n)) && KnownAfterAll(known, HunkReads(b, n)) == known
    decreases n
  {
    if n > 0 {
      HunkReadsKnown(known, b, n - 1);
      QueuesAppend(known, HunkReads(b, n - 1), [ReadBasis(b, n - 1)]);
      assert [ReadBasis(b, n - 1)][1..] == [];
    }
  }

  lemma {:induction false} ChainReadsKnown(known: set<BlockHash>, bands: Bands, chain: seq<nat>)
    ensures QueuesOk(known, ChainReads(bands, chain)) && KnownAfterAll(known, ChainReads(bands, chain)) == known
    decreases chain
  {
    if chain != [] {
      ChainReadsKnown(known, bands, chain[1..]);
      var n := if chain[0] in bands then |bands[chain[0]].hunks| else 0;
      HunkReadsKnown(known, chain[0], n);
      QueuesAppend(known, HunkReads(chain[0], n), ChainReads(bands, chain[1..]));
    }
  }

  lemma OpeningKnown(bands: Bands)
    ensures QueuesOk({}, [TestLock, CreateBand, WriteHead] + BasisReads(bands))
    ensures KnownAfterAll({}, [TestLock, CreateBand, WriteHead] + BasisReads(bands)) == {}
  {
    hide ChainReads, Chain;
    var steps := [TestLock, CreateBand, WriteHead];
    assert steps[1..] == [CreateBand, WriteHead] && steps[1..][1..] == [WriteHead] && steps[1..][1..][1..] == [];
    assert QueuesOk({}, steps) && KnownAfterAll({}, steps) == {};
    QueuesAppend({}, steps, BasisReads(bands));
    if LastBandId(bands).Some? {
      ChainReadsKnown({}, bands, Chain(bands, LastBandId(bands).value));
    }
  }

  /** No combined block fails to be stored in this backup. */
  ghost predicate NoStoreFails(st: ArchiveState, j: Job) {
    AllBlockStoreFailures(Begin(st.blocks, BasisOf(st.bands)), j.groups, j.opts) == 0
  }

  /** As long as every combined block could be stored, a backup queues only entries inside blocks stored or found. */
  lemma BackupQueuesOk(st: ArchiveState, j: Job)
    requires NoStoreFails(st, j)
    ensures QueuesOk({}, JobSteps(st, j))
  {
    hide BasisReads, BasisOf, GroupsSteps, AllBlockStoreFailures, KnownAfterAll, QueuesOk;
    var begin := Begin(st.blocks, BasisOf(st.bands));
    var opening := [TestLock, CreateBand, WriteHead] + BasisReads(st.bands);
    var groups := GroupsSteps(begin, j.groups, j.opts);
    OpeningKnown(st.bands);
    GroupsBehave({}, begin, j.groups, j.opts);
    QueuesAppend({}, opening, groups);
    var last := if j.complete then Close else StopBackup;
    LastKnown(KnownAfterAll({}, opening + groups), last);
    QueuesAppend({}, opening + groups, [last]);
  }

  lemma LastKnown(known: set<BlockHash>, step: Step)
    requires step.Close? || step.StopBackup?
    ensures QueuesOk(known, [step])
  {
    assert [step][1..] == [];
  }

  // ----- every interleaving

  /** The archive that the protocol's state stands for; every block holds what its name says. */
  ghost function ArchiveOf(s: State): ArchiveState {
    ArchiveState(s.bands, map h | h in s.blocks :: Holds(h.preimage))
  }

  /** A stretch of a run: steps of a collector and, starting with the first step if there are any, steps of one backup,
      which may be broken off anywhere. */
  datatype Stretch = Stretch(job: Job, steps: seq<Step>)

  /** Nothing is ruled out of a stretch but the two things that are ruled out of the collector, and that a combined
      block fails to be stored. */
  ghost predicate Proper(s: State, x: Stretch) {
    Legal(s, x.steps) && AllCollectorAllowed(s, x.steps) && NoStoreFails(ArchiveOf(s), x.job) &&
    (OwnSteps(x.steps) != [] ==> x.steps[0] == TestLock) &&
    FrontOf(OwnSteps(x.steps), JobSteps(ArchiveOf(s), x.job))
  }

  /** Stretches follow each other when no backup is at work. */
  ghost predicate AllProper(s: State, xs: seq<Stretch>)
    decreases xs
  {
    xs == [] || (s.backup.NoBackup? && Proper(s, xs[0]) && AllProper(Run(s, xs[0].steps), xs[1..]))
  }

  ghost function RunAll(s: State, xs: seq<Stretch>): State
    requires AllProper(s, xs)
    decreases xs
  {
    if xs == [] then s else RunAll(Run(s, xs[0].steps), xs[1..])
  }

  lemma StretchKeeps(s: State, x: Stretch)
    requires Inv(s) && s.backup.NoBackup? && Proper(s, x)
    ensures Inv(Run(s, x.steps))
  {
    hide Inv, Legal, AllCollectorAllowed, QueuesOk, FrontOf, JobSteps, Run, BasisOf;
    BackupQueuesOk(ArchiveOf(s), x.job);
    InterleavingKeeps(s, x.steps, JobSteps(ArchiveOf(s), x.job));
  }

  /** However the steps of a collector and crashes fall among the steps of any backups, whatever files fail to be read:
      as long as combined blocks can be stored, and the collector passes over no hunk that alone refers to some block
      and does not check between a backup's lock test and the creation of its band, nothing dangles, and nothing can be
      deleted while a backup is at work. */
  lemma {:induction false} NoInterleavingDangles(s: State, xs: seq<Stretch>)
    requires Inv(s) && AllProper(s, xs)
    ensures Inv(RunAll(s, xs)) && Safe(RunAll(s, xs))
    ensures forall step :: Destroys(step) && Enabled(RunAll(s, xs), step) ==> RunAll(s, xs).backup.NoBackup?
    decreases xs
  {
    hide FrontOf, JobSteps, NoStoreFails, AllCollectorAllowed, Legal, Run, OwnSteps;
    if xs != [] {
      StretchKeeps(s, xs[0]);
      NoInterleavingDangles(Run(s, xs[0].steps), xs[1..]);
    }
  }

  /** And as long as the backup is at work, it finds bands and blocks as if it were alone. */
  lemma AsIfAlone(s: State, x: Stretch)
    requires Inv(s) && s.backup.NoBackup? && Proper(s, x) && OwnSteps(x.steps) != [] && AtWork(x.steps)
    ensures Legal(s, OwnSteps(x.steps)) && Alike(Run(s, x.steps), Run(s, OwnSteps(x.steps)))
  {
    hide Inv, Alike, Enabled, Apply, QueuesOk, FrontOf, JobSteps, NoStoreFails, AllCollectorAllowed, AllAllowed;
    var steps, own := x.steps, OwnSteps(x.steps);
    BackupQueuesOk(ArchiveOf(s), x.job);
    FrontQueues({}, own, JobSteps(ArchiveOf(s), x.job));
    OwnQueues({}, steps);
    AllowedApart(s, {}, steps);
    assert own[0] == TestLock && own[1..] == OwnSteps(steps[1..]);
    FirstStep(s, steps);
    var t := Apply(s, TestLock);
    Undisturbed(t, t, steps[1..]);
  }

  lemma FirstStep(s: State, steps: seq<Step>)
    requires Inv(s) && Legal(s, steps) && AllAllowed(s, steps) && steps != [] && steps[0] == TestLock && AtWork(steps)
    ensures
      var t := Apply(s, TestLock);
      Inv(t) && Alike(t, t) && t.backup == Tested && AtWork(steps[1..]) && AllAllowed(t, steps[1..])
  {
    BackupStepKeeps(s, TestLock);
  }

  // ----- when a combined block cannot be stored

  /** If storing the combined block fails at some file and the group ends there, the next hunk holds an address outside
      the block it names, whatever blocks there are. */
  lemma FailedStoreDangles(w: Writer, src: Source, opts: Options, blocks: set<BlockHash>)
    requires BlockStoreFails(w, src, opts)
    ensures
      var w' := FlushGroup(CopyEntry(w, src, opts));
      |w'.hunks| == |w.hunks| + 1 && !HunkOk(blocks, w'.hunks[|w.hunks|])
  {
    hide Lookup, Classified, Unmodified, HunkOk;
    var copied := CopyEntry(w, src, opts);
    var taken := Take(w.combiner, src.entry, src.read.small);
    assert copied.combiner == taken.(buf := []) && copied.hunks == w.hunks;
    var q := taken.queue[|taken.queue| - 1];
    assert q.len > 0;
    LostQueueDangles(copied, q, blocks);
  }

  lemma LostQueueDangles(w: Writer, q: QueuedFile, blocks: set<BlockHash>)
    requires w.combiner.buf == [] && q in w.combiner.queue && q.len > 0
    ensures |FlushGroup(w).hunks| == |w.hunks| + 1 && !HunkOk(blocks, FlushGroup(w).hunks[|w.hunks|])
  {
    var h := HashBytes([]);
    var (c, _) := Flush(w.combiner, w.blocks, true);
    var es := WithAddresses(w.combiner.queue, h);
    var i :| 0 <= i < |w.combiner.queue| && w.combiner.queue[i] == q;
    var e := es[i];
    assert e.addrs == [Address(h, q.start, q.len)] && e in c.finished;
    assert Address(h, q.start, q.len) in e.addrs;
    assert !InRange(Address(h, q.start, q.len));
    assert !EntryOk(blocks, e);
    SortedSame(w.queue + c.finished);
    assert e in w.queue + c.finished;
    assert FlushGroup(w).hunks[|w.hunks|] == SortedHunk(w.queue + c.finished);
  }

  /** Storing a combined block fails at the last of these entries. */
  ghost predicate LastStoreFails(w: Writer, es: seq<Source>, opts: Options)
    decreases es
  {
    es != [] &&
    if |es| == 1 then BlockStoreFails(w, Prepared(es[0], opts), opts)
    else LastStoreFails(CopyEntry(w, Prepared(es[0], opts), opts), es[1..], opts)
  }

  /** Some group ends with a combined block that fails to be stored. */
  ghost predicate SomeGroupEndFails(w: Writer, groups: seq<seq<Source>>, opts: Options)
    decreases groups
  {
    groups != [] &&
    (LastStoreFails(w, groups[0], opts) ||
     SomeGroupEndFails(FlushGroup(CopyAll(w, groups[0], opts)), groups[1..], opts))
  }

  lemma {:induction false} GroupEndDangles(w: Writer, es: seq<Source>, opts: Options, blocks: set<BlockHash>)
    requires LastStoreFails(w, es, opts)
    ensures
      var w' := FlushGroup(CopyAll(w, es, opts));
      |w'.hunks| == |w.hunks| + 1 && !HunkOk(blocks, w'.hunks[|w.hunks|])
    decreases es
  {
    hide CopyEntry, BlockStoreFails, FlushGroup, HunkOk;
    var src := Prepared(es[0], opts);
    if |es| == 1 {
      FailedStoreDangles(w, src, opts, blocks);
      assert CopyAll(w, es, opts) == CopyEntry(w, src, opts) by { assert es[1..] == []; }
    } else {
      GroupEndDangles(CopyEntry(w, src, opts), es[1..], opts, blocks);
      EntryKeepsHunks(w, src, opts);
    }
  }

  lemma EntryKeepsHunks(w: Writer, src: Source, opts: Options)
    ensures CopyEntry(w, src, opts).hunks == w.hunks
  {
  }

  lemma {:induction false} AllKeepHunks(w: Writer, es: seq<Source>, opts: Options)
    ensures CopyAll(w, es, opts).hunks == w.hunks
    decreases es
  {
    hide CopyEntry;
    if es != [] {
      EntryKeepsHunks(w, Prepared(es[0], opts), opts);
      AllKeepHunks(CopyEntry(w, Prepared(es[0], opts), opts), es[1..], opts);
    }
  }

  lemma {:induction false} HunksStay(w: Writer, groups: seq<seq<Source>>, opts: Options)
    ensures w.hunks <= CopyGroups(w, groups, opts).hunks
    decreases groups
  {
    hide CopyAll;
    if groups != [] {
      var w1 := CopyAll(w, groups[0], opts);
      AllKeepHunks(w, groups[0], opts);
      HunksStay(FlushGroup(w1), groups[1..], opts);
    }
  }

  lemma {:induction false} SomeHunkDangles(w: Writer, groups: seq<seq<Source>>, opts: Options, blocks: set<BlockHash>)
    returns (n: nat)
    requires SomeGroupEndFails(w, groups, opts)
    ensures
      var hunks := CopyGroups(w, groups, opts).hunks;
      n < |hunks| && !HunkOk(blocks, hunks[n])
    decreases groups
  {
    hide CopyAll, FlushGroup, LastStoreFails, HunkOk;
    var w1 := FlushGroup(CopyAll(w, groups[0], opts));
    if LastStoreFails(w, groups[0], opts) {
      GroupEndDangles(w, groups[0], opts, blocks);
      HunksStay(w1, groups[1..], opts);
      n := |w.hunks|;
      assert CopyGroups(w, groups, opts).hunks[n] == w1.hunks[n];
    } else {
      n := SomeHunkDangles(w1, groups[1..], opts, blocks);
    }
  }

  /** So a whole backup, by itself, in which some group ends with a combined block that fails to be stored leaves an
      archive in which that band dangles, however it goes on. */
  lemma FailedStoreBreaksBackup(s: State, st: ArchiveState, j: Job)
    requires s.backup.NoBackup? && !s.lock && s.bands == st.bands && s.blocks == st.blocks.Keys
    requires SomeGroupEndFails(Begin(st.blocks, BasisOf(st.bands)), j.groups, j.opts)
    ensures Legal(s, JobSteps(st, j)) && !Safe(Run(s, JobSteps(st, j)))
  {
    hide JobSteps, Legal, CopyGroups, BasisOf, SomeGroupEndFails, HunkOk;
    BackupIsARun(s, st, j);
    var end := Run(s, JobSteps(st, j));
    var n := SomeHunkDangles(Begin(st.blocks, BasisOf(st.bands)), j.groups, j.opts, end.blocks);
    assert !BandOk(end.blocks, end.bands[NextBandId(st.bands)]);
  }
}
