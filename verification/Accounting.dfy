/** The counts of a backup add up, whatever goes wrong on the way (src/backup.rs, src/blockdir.rs). */
module Accounting {
  import opened Base
  import opened Entries
  import opened Storage
  import opened EntryIter
  import opened BlockDirs
  import opened Content
  import opened BackupStatistics
  import opened Combining
  import opened Backup

  /** The counts so far, with those the combiner has not handed over yet. */
  function Total(w: Writer): Stats {
    w.stats.Plus(w.combiner.stats)
  }

  function Unsorted(w: Writer): int {
    Unclassified(w.stats) + Unclassified(w.combiner.stats)
  }

  function Missing(w: Writer): int {
    Unaccounted(w.stats) + Unaccounted(w.combiner.stats)
  }

  lemma TotalIsSum(w: Writer)
    ensures Unclassified(Total(w)) == Unsorted(w) && Unaccounted(Total(w)) == Missing(w)
    ensures Total(w).HandledBytes() == w.stats.HandledBytes() + w.combiner.stats.HandledBytes()
  {
  }

  /** Counting blocks touches no count of files. */
  lemma {:induction false} CountBlocksKeepsFiles(st: Stats, blocks: Blocks, chunks: seq<Bytes>)
    ensures Unclassified(CountBlocks(st, blocks, chunks)) == Unclassified(st)
    ensures Unaccounted(CountBlocks(st, blocks, chunks)) == Unaccounted(st)
    decreases chunks
  {
    if chunks != [] {
      CountBlocksKeepsFiles(st.CountBlock(|chunks[0]|, Contains(blocks, HashBytes(chunks[0]))),
                            StoreBlock(blocks, chunks[0]), chunks[1..]);
    }
  }

  lemma ClassifiedCounts(w: Writer, s: Source)
    ensures Unclassified(Classified(w, s)) == Unclassified(w.stats)
    ensures Unaccounted(Classified(w, s)) == Unaccounted(w.stats) + if Unmodified(w, s) then 0 else 1
    ensures Classified(w, s).HandledBytes() == w.stats.HandledBytes()
    ensures Classified(w, s).errors == w.stats.errors
  {
  }

  lemma FlushCounts(c: Combiner, blocks: Blocks, storeOk: bool)
    ensures Unclassified(Flush(c, blocks, storeOk).0.stats) == Unclassified(c.stats)
    ensures Unaccounted(Flush(c, blocks, storeOk).0.stats) == Unaccounted(c.stats)
  {
  }

  lemma PushCounts(c: Combiner, blocks: Blocks, e: EntryValue, read: ReadOutcome, max: nat, storeOk: bool)
    requires e.kindMeta.FileMeta? && e.kindMeta.size > 0
    ensures Unclassified(Push(c, blocks, e, read, max, storeOk).0.stats) == Unclassified(c.stats)
    ensures Unaccounted(Push(c, blocks, e, read, max, storeOk).0.stats) ==
      Unaccounted(c.stats) - if read.Got? then 1 else 0
  {
    FlushCounts(Take(c, e, read), blocks, storeOk);
  }

  lemma FailedCounts(w: Writer)
    ensures Unclassified(Failed(w).stats) == Unclassified(w.stats)
    ensures Unaccounted(Failed(w).stats) == Unaccounted(w.stats) - 1
  {
  }

  lemma LargeCounts(w: Writer, s: Source, opts: Options)
    requires s.entry.kindMeta.FileMeta? && s.entry.kindMeta.size > 0
    requires s.entry.kindMeta.size > opts.smallFileCap && s.read.Reads?
    ensures Unclassified(StoreFile(w, s, opts).stats) == Unclassified(w.stats)
    ensures Unaccounted(StoreFile(w, s, opts).stats) == Unaccounted(w.stats) - 1
    ensures StoreFile(w, s, opts).combiner == w.combiner
  {
    match s.read.large
    case LargeFailed(stored) =>
      CountBlocksKeepsFiles(w.stats, w.blocks, stored);
      FailedCounts(w.(stats := CountBlocks(w.stats, w.blocks, stored)));
    case LargeOk(content) => CountBlocksKeepsFiles(w.stats, w.blocks, Chunks(content, opts.maxBlockSize));
  }

  lemma SmallCounts(w: Writer, s: Source, opts: Options)
    requires s.entry.kindMeta.FileMeta? && 0 < s.entry.kindMeta.size <= opts.smallFileCap && s.read.Reads?
    ensures
      var w' := StoreFile(w, s, opts);
      var fails := Fills(w.combiner, s.entry, s.read.small, opts.maxBlockSize) && !s.storeOk;
      Unsorted(w') == Unsorted(w) && Missing(w') + (if fails then 1 else 0) == Missing(w) - 1
  {
    PushCounts(w.combiner, w.blocks, s.entry, s.read.small, opts.maxBlockSize, s.storeOk);
    FailedCounts(w);
  }

  lemma CopyCounts(w: Writer, s: Source, opts: Options)
    ensures Unsorted(CopyEntry(w, s, opts)) == Unsorted(w)
    ensures Missing(CopyEntry(w, s, opts)) + (if BlockStoreFails(w, s, opts) then 1 else 0) == Missing(w)
  {
    hide Lookup, Push, PushFails, HeuristicallyUnchanged, AllBlocksPresent, CountBlocks, StoreAll, Chunks;
    var e := s.entry;
    if e.kindMeta.FileMeta? {
      ClassifiedCounts(w, s);
      if !Unmodified(w, s) && e.kindMeta.size > 0 {
        var looked := w.(stats := Classified(w, s), basis := CopyFile(w, s, opts).basis);
        if s.read.OpenFailed? {
          FailedCounts(looked);
        } else if e.kindMeta.size <= opts.smallFileCap {
          SmallCounts(looked, s, opts);
        } else {
          LargeCounts(looked, s, opts);
        }
      }
    }
  }

  lemma {:induction false} CopyAllCounts(w: Writer, es: seq<Source>, opts: Options)
    ensures Unsorted(CopyAll(w, es, opts)) == Unsorted(w)
    ensures Missing(CopyAll(w, es, opts)) + BlockStoreFailures(w, es, opts) == Missing(w)
    decreases es
  {
    if es != [] {
      CopyCounts(w, Prepared(es[0], opts), opts);
      CopyAllCounts(CopyEntry(w, Prepared(es[0], opts), opts), es[1..], opts);
    }
  }

  lemma FlushGroupCounts(w: Writer)
    ensures Unsorted(FlushGroup(w)) == Unsorted(w)
    ensures Missing(FlushGroup(w)) == Missing(w)
  {
    FlushCounts(w.combiner, w.blocks, true);
  }

  lemma {:induction false} GroupsCount(w: Writer, groups: seq<seq<Source>>, opts: Options)
    ensures Unsorted(CopyGroups(w, groups, opts)) == Unsorted(w)
    ensures Missing(CopyGroups(w, groups, opts)) + AllBlockStoreFailures(w, groups, opts) == Missing(w)
    decreases groups
  {
    if groups != [] {
      var copied := CopyAll(w, groups[0], opts);
      CopyAllCounts(w, groups[0], opts);
      FlushGroupCounts(copied);
      GroupsCount(FlushGroup(copied), groups[1..], opts);
    }
  }

  /** Over a whole run, with any errors at all: every file is unmodified, modified or new, and each file
      to be stored is counted exactly once as empty, combined, in one block, in many or in error, if and
      only if no combined block failed to be stored; each such failure counts one file twice. */
  lemma FilesAccountedFor(blocks: Blocks, basis: seq<IndexEntry>, groups: seq<seq<Source>>, opts: Options)
    ensures
      var st := Total(CopyGroups(Begin(blocks, basis), groups, opts));
      var failures := AllBlockStoreFailures(Begin(blocks, basis), groups, opts);
      st.files == st.unmodifiedFiles + st.modifiedFiles + st.newFiles &&
      st.newFiles + st.modifiedFiles + failures == st.StoredFiles() + st.errors &&
      (st.newFiles + st.modifiedFiles == st.StoredFiles() + st.errors <==> failures == 0)
  {
    hide CopyGroups, AllBlockStoreFailures, Unsorted, Missing, Unclassified, Unaccounted;
    GroupsCount(Begin(blocks, basis), groups, opts);
    BeginUnsorted(blocks, basis);
    BeginMissing(blocks, basis);
    TotalIsSum(CopyGroups(Begin(blocks, basis), groups, opts));
    CountsMean(Total(CopyGroups(Begin(blocks, basis), groups, opts)),
               AllBlockStoreFailures(Begin(blocks, basis), groups, opts));
  }

  lemma BeginUnsorted(blocks: Blocks, basis: seq<IndexEntry>)
    ensures Unsorted(Begin(blocks, basis)) == 0
  {
    hide Unclassified;
    NothingClassified();
  }

  lemma BeginMissing(blocks: Blocks, basis: seq<IndexEntry>)
    ensures Missing(Begin(blocks, basis)) == 0
  {
    hide Unaccounted;
    NothingCounted();
  }

  lemma CountsMean(st: Stats, failures: nat)
    requires Unclassified(st) == 0 && Unaccounted(st) + failures == 0
    ensures st.files == st.unmodifiedFiles + st.modifiedFiles + st.newFiles
    ensures st.newFiles + st.modifiedFiles + failures == st.StoredFiles() + st.errors
  {
  }

  // ----- errors

  /** The files left out of the backup by this entry, and the combined blocks it fails to store. */
  function Failures(w: Writer, s: Source, opts: Options): nat {
    (if IsSkipped(w, s, opts) then 1 else 0) + (if BlockStoreFails(w, s, opts) then 1 else 0)
  }

  function FailuresIn(w: Writer, es: seq<Source>, opts: Options): nat
    decreases es
  {
    if es == [] then 0
    else Failures(w, Prepared(es[0], opts), opts) + FailuresIn(CopyEntry(w, Prepared(es[0], opts), opts), es[1..], opts)
  }

  function AllFailures(w: Writer, groups: seq<seq<Source>>, opts: Options): nat
    decreases groups
  {
    if groups == [] then 0
    else FailuresIn(w, groups[0], opts) + AllFailures(FlushGroup(CopyAll(w, groups[0], opts)), groups[1..], opts)
  }

  function Errors(w: Writer): nat {
    w.stats.errors + w.combiner.stats.errors
  }

  lemma {:induction false} CountBlocksKeepsErrors(st: Stats, blocks: Blocks, chunks: seq<Bytes>)
    ensures CountBlocks(st, blocks, chunks).errors == st.errors
    decreases chunks
  {
    if chunks != [] {
      CountBlocksKeepsErrors(st.CountBlock(|chunks[0]|, Contains(blocks, HashBytes(chunks[0]))),
                             StoreBlock(blocks, chunks[0]), chunks[1..]);
    }
  }

  lemma StoreErrors(w: Writer, s: Source, opts: Options)
    requires s.entry.kindMeta.FileMeta?
    ensures
      var fails := 0 < s.entry.kindMeta.size <= opts.smallFileCap && s.read.Reads? &&
                   Fills(w.combiner, s.entry, s.read.small, opts.maxBlockSize) && !s.storeOk;
      Errors(StoreFile(w, s, opts)) == Errors(w) + (if IsRead(s, opts) then 0 else 1) + (if fails then 1 else 0)
  {
    if s.entry.kindMeta.size > 0 && s.entry.kindMeta.size > opts.smallFileCap && s.read.Reads? {
      match s.read.large
      case LargeFailed(stored) => CountBlocksKeepsErrors(w.stats, w.blocks, stored);
      case LargeOk(content) => CountBlocksKeepsErrors(w.stats, w.blocks, Chunks(content, opts.maxBlockSize));
    }
  }

  lemma CopyErrors(w: Writer, s: Source, opts: Options)
    ensures Errors(CopyEntry(w, s, opts)) == Errors(w) + Failures(w, s, opts)
  {
    hide StoreFile, IsRead, Lookup, Classified, Unmodified, Push, HeuristicallyUnchanged;
    if s.entry.kindMeta.FileMeta? {
      ClassifiedCounts(w, s);
      if !Unmodified(w, s) {
        StoreErrors(w.(stats := Classified(w, s), basis := CopyFile(w, s, opts).basis), s, opts) by {
          StoreKeepsBasis(w, s, opts);
        }
        StoreKeepsBasis(w, s, opts);
      }
    }
  }

  lemma StoreKeepsBasis(w: Writer, s: Source, opts: Options)
    requires s.entry.kindMeta.FileMeta? && !Unmodified(w, s)
    ensures CopyFile(w, s, opts) ==
      StoreFile(w.(stats := Classified(w, s), basis := CopyFile(w, s, opts).basis), s, opts)
  {
  }

  lemma {:induction false} CopyAllErrors(w: Writer, es: seq<Source>, opts: Options)
    ensures Errors(CopyAll(w, es, opts)) == Errors(w) + FailuresIn(w, es, opts)
    decreases es
  {
    hide CopyEntry, Failures, Errors, Prepared;
    if es != [] {
      CopyErrors(w, Prepared(es[0], opts), opts);
      CopyAllErrors(CopyEntry(w, Prepared(es[0], opts), opts), es[1..], opts);
    }
  }

  lemma FlushGroupErrors(w: Writer)
    ensures Errors(FlushGroup(w)) == Errors(w)
  {
  }

  /** Over a whole run the errors reported are exactly the files left out and the combined blocks lost. */
  lemma {:induction false} ErrorsAccountedFor(w: Writer, groups: seq<seq<Source>>, opts: Options)
    ensures Errors(CopyGroups(w, groups, opts)) == Errors(w) + AllFailures(w, groups, opts)
    decreases groups
  {
    hide CopyAll, FlushGroup, FailuresIn, Errors;
    if groups != [] {
      var copied := CopyAll(w, groups[0], opts);
      CopyAllErrors(w, groups[0], opts);
      FlushGroupErrors(copied);
      ErrorsAccountedFor(FlushGroup(copied), groups[1..], opts);
    }
  }

  // ----- no errors, nothing left out

  /** The entries that a backup should hold: those of a known kind, without owners unless they are wanted. */
  function Wished(es: seq<Source>, opts: Options): seq<EntryValue> {
    if es == [] then []
    else (if es[0].entry.kindMeta.UnknownMeta? then [] else [Prepared(es[0], opts).entry]) + Wished(es[1..], opts)
  }

  function EntriesOf(tree: seq<Pushed>): seq<EntryValue> {
    if tree == [] then [] else [tree[0].entry] + EntriesOf(tree[1..])
  }

  lemma {:induction false} EntriesOfAppend(a: seq<Pushed>, b: seq<Pushed>)
    ensures EntriesOf(a + b) == EntriesOf(a) + EntriesOf(b)
  {
    if a == [] {
      assert a + b == b;
    } else {
      assert (a + b)[1..] == a[1..] + b;
      EntriesOfAppend(a[1..], b);
    }
  }

  lemma {:induction false} WishedAppend(a: seq<Source>, b: seq<Source>, opts: Options)
    ensures Wished(a + b, opts) == Wished(a, opts) + Wished(b, opts)
  {
    if a == [] {
      assert a + b == b;
    } else {
      assert (a + b)[1..] == a[1..] + b;
      WishedAppend(a[1..], b, opts);
    }
  }

  lemma KeptIsWished(w: Writer, s: Source, opts: Options)
    requires !IsSkipped(w, s, opts)
    ensures EntriesOf(Kept(w, s, opts)) == if s.entry.kindMeta.UnknownMeta? then [] else [s.entry]
  {
    hide Unmodified, IsRead, ContentOf, BasisContent;
    var kept := Kept(w, s, opts);
    if kept != [] {
      assert kept[1..] == [];
    }
  }

  lemma {:induction false} KeptAllIsWished(w: Writer, es: seq<Source>, opts: Options)
    requires FailuresIn(w, es, opts) == 0
    ensures EntriesOf(KeptAll(w, es, opts)) == Wished(es, opts) && BlockStoreFailures(w, es, opts) == 0
    decreases es
  {
    hide CopyEntry, Kept, IsSkipped, BlockStoreFails;
    if es != [] {
      var s := Prepared(es[0], opts);
      KeptIsWished(w, s, opts);
      KeptAllIsWished(CopyEntry(w, s, opts), es[1..], opts);
      EntriesOfAppend(Kept(w, s, opts), KeptAll(CopyEntry(w, s, opts), es[1..], opts));
    }
  }

  /** A run without failures keeps exactly the entries it was given, and stored every combined block. */
  lemma {:induction false} NothingLeftOut(w: Writer, groups: seq<seq<Source>>, opts: Options)
    requires AllFailures(w, groups, opts) == 0
    ensures EntriesOf(KeptTree(w, groups, opts)) == Wished(FlattenSources(groups), opts)
    ensures AllBlockStoreFailures(w, groups, opts) == 0
    decreases groups
  {
    hide CopyAll, FlushGroup, KeptAll, Wished, FailuresIn, BlockStoreFailures;
    if groups == [] {
      NoneWished(opts);
    } else {
      var w' := FlushGroup(CopyAll(w, groups[0], opts));
      KeptAllIsWished(w, groups[0], opts);
      NothingLeftOut(w', groups[1..], opts);
      EntriesOfAppend(KeptAll(w, groups[0], opts), KeptTree(w', groups[1..], opts));
      WishedAppend(groups[0], FlattenSources(groups[1..]), opts);
    }
  }

  lemma NoneWished(opts: Options)
    ensures Wished([], opts) == []
  {
  }

  // ----- bytes

  function SumLen(chunks: seq<Bytes>): nat {
    if chunks == [] then 0 else |chunks[0]| + SumLen(chunks[1..])
  }

  lemma {:induction false} ChunksSum(content: Bytes, max: nat)
    requires max > 0
    ensures SumLen(Chunks(content, max)) == |content|
    decreases |content|
  {
    if content != [] {
      var n := Min(max, |content|);
      ChunksSum(content[n..], max);
      assert Chunks(content, max)[1..] == Chunks(content[n..], max);
    }
  }

  lemma {:induction false} CountBlocksHandles(st: Stats, blocks: Blocks, chunks: seq<Bytes>)
    ensures CountBlocks(st, blocks, chunks).HandledBytes() == st.HandledBytes() + SumLen(chunks)
    decreases chunks
  {
    if chunks != [] {
      CountBlocksHandles(st.CountBlock(|chunks[0]|, Contains(blocks, HashBytes(chunks[0]))),
                         StoreBlock(blocks, chunks[0]), chunks[1..]);
    }
  }

  /** The bytes that copying an entry puts into the buffer or into blocks: what was read, or the
      padding that a failed read of a small file leaves behind. */
  function BytesIn(w: Writer, s: Source, opts: Options): nat {
    if !s.entry.kindMeta.FileMeta? || Unmodified(w, s) || s.entry.kindMeta.size == 0 || s.read.OpenFailed? then 0
    else if s.entry.kindMeta.size <= opts.smallFileCap then
      (if s.read.small.ReadFailed? then s.entry.kindMeta.size else |s.read.small.bytes|)
    else match s.read.large case LargeFailed(stored) => SumLen(stored) case LargeOk(content) => |content|
  }

  /** The buffered bytes that a failed store of a combined block throws away. */
  function BytesLost(w: Writer, s: Source, opts: Options): nat {
    if BlockStoreFails(w, s, opts) then |w.combiner.buf| + |s.read.small.bytes| else 0
  }

  /** Bytes counted as stored or deduplicated, and bytes still in the buffer. */
  function BytesHeld(w: Writer): nat {
    Total(w).HandledBytes() + |w.combiner.buf|
  }

  lemma PushConserves(c: Combiner, blocks: Blocks, e: EntryValue, read: ReadOutcome, max: nat, storeOk: bool)
    requires e.kindMeta.FileMeta? && e.kindMeta.size > 0
    ensures
      var c' := Push(c, blocks, e, read, max, storeOk).0;
      c'.stats.HandledBytes() + |c'.buf| +
        (if Fills(c, e, read, max) && !storeOk then |c.buf| + |read.bytes| else 0) ==
      c.stats.HandledBytes() + |c.buf| + (if read.ReadFailed? then e.kindMeta.size else |read.bytes|)
  {
  }

  lemma LargeConserves(w: Writer, s: Source, opts: Options)
    requires s.entry.kindMeta.FileMeta? && s.entry.kindMeta.size > 0
    requires s.entry.kindMeta.size > opts.smallFileCap && s.read.Reads?
    ensures StoreFile(w, s, opts).stats.HandledBytes() == w.stats.HandledBytes() +
      match s.read.large case LargeFailed(stored) => SumLen(stored) case LargeOk(content) => |content|
    ensures StoreFile(w, s, opts).combiner == w.combiner
  {
    match s.read.large
    case LargeFailed(stored) => CountBlocksHandles(w.stats, w.blocks, stored);
    case LargeOk(content) =>
      ChunksSum(content, opts.maxBlockSize);
      CountBlocksHandles(w.stats, w.blocks, Chunks(content, opts.maxBlockSize));
  }

  /** One copied entry: what comes in is handed to the store, stays in the buffer, or is lost. */
  lemma CopyConserves(w: Writer, s: Source, opts: Options)
    ensures BytesHeld(CopyEntry(w, s, opts)) + BytesLost(w, s, opts) == BytesHeld(w) + BytesIn(w, s, opts)
  {
    TotalIsSum(w);
    TotalIsSum(CopyEntry(w, s, opts));
    var e := s.entry;
    if e.kindMeta.FileMeta? {
      ClassifiedCounts(w, s);
      if !Unmodified(w, s) && e.kindMeta.size > 0 && s.read.Reads? {
        if e.kindMeta.size <= opts.smallFileCap {
          PushConserves(w.combiner, w.blocks, e, s.read.small, opts.maxBlockSize, s.storeOk);
        } else {
          LargeConserves(w.(stats := Classified(w, s), basis := CopyFile(w, s, opts).basis), s, opts);
        }
      }
    }
  }

  function BytesInAll(w: Writer, es: seq<Source>, opts: Options): nat
    decreases es
  {
    if es == [] then 0
    else BytesIn(w, Prepared(es[0], opts), opts) + BytesInAll(CopyEntry(w, Prepared(es[0], opts), opts), es[1..], opts)
  }

  function BytesLostAll(w: Writer, es: seq<Source>, opts: Options): nat
    decreases es
  {
    if es == [] then 0
    else BytesLost(w, Prepared(es[0], opts), opts) +
         BytesLostAll(CopyEntry(w, Prepared(es[0], opts), opts), es[1..], opts)
  }

  lemma {:induction false} CopyAllConserves(w: Writer, es: seq<Source>, opts: Options)
    ensures BytesHeld(CopyAll(w, es, opts)) + BytesLostAll(w, es, opts) == BytesHeld(w) + BytesInAll(w, es, opts)
    decreases es
  {
    if es != [] {
      var s := Prepared(es[0], opts);
      CopyConserves(w, s, opts);
      CopyAllConserves(CopyEntry(w, s, opts), es[1..], opts);
    }
  }

  lemma FlushGroupConserves(w: Writer)
    ensures BytesHeld(FlushGroup(w)) == BytesHeld(w)
  {
  }

  function RunBytes(w: Writer, groups: seq<seq<Source>>, opts: Options): (nat, nat)
    decreases groups
  {
    if groups == [] then (0, 0)
    else
      var rest := RunBytes(FlushGroup(CopyAll(w, groups[0], opts)), groups[1..], opts);
      (BytesInAll(w, groups[0], opts) + rest.0, BytesLostAll(w, groups[0], opts) + rest.1)
  }

  /** Over a whole run, with any errors at all: the bytes that came in are the bytes stored, the bytes
      deduplicated, the padding still in the buffer, and the bytes lost to failed block stores. */
  lemma {:induction false} BytesAccountedFor(w: Writer, groups: seq<seq<Source>>, opts: Options)
    ensures
      var run := RunBytes(w, groups, opts);
      BytesHeld(CopyGroups(w, groups, opts)) + run.1 == BytesHeld(w) + run.0
    decreases groups
  {
    if groups != [] {
      var copied := CopyAll(w, groups[0], opts);
      CopyAllConserves(w, groups[0], opts);
      FlushGroupConserves(copied);
      BytesAccountedFor(FlushGroup(copied), groups[1..], opts);
    }
  }
}
