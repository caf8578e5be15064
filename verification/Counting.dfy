/** What the counters of a backup say about the archive and the source (src/backup.rs, src/blockdir.rs). */
module Counting {
  import opened Base
  import opened Entries
  import opened Sorting
  import opened Storage
  import opened Index
  import opened EntryIter
  import opened BlockDirs
  import opened Content
  import opened BackupStatistics
  import opened Combining
  import opened Backup
  import opened Accounting

  // ----- entries by kind

  /** How many of these sources have entries of some kind. */
  function CountKind(es: seq<Source>, kind: Kind): nat {
    if es == [] then 0
    else
      var one := match es[0].entry.kindMeta
        case FileMeta(_) => kind == File
        case DirMeta => kind == Dir
        case SymlinkMeta(_) => kind == Symlink
        case UnknownMeta => kind == Unknown;
      (if one then 1 else 0) + CountKind(es[1..], kind)
  }

  /** The counts by kind have grown by those of these sources. */
  predicate KindsAdded(before: Stats, after: Stats, es: seq<Source>) {
    after.files == before.files + CountKind(es, File) && after.directories == before.directories + CountKind(es, Dir) &&
    after.symlinks == before.symlinks + CountKind(es, Symlink) &&
    after.unknownKind == before.unknownKind + CountKind(es, Unknown)
  }

  lemma {:induction false} BlocksKeepKinds(st: Stats, blocks: Blocks, chunks: seq<Bytes>)
    ensures KindsAdded(st, CountBlocks(st, blocks, chunks), [])
    decreases chunks
  {
    if chunks != [] {
      BlocksKeepKinds(st.CountBlock(|chunks[0]|, Contains(blocks, HashBytes(chunks[0]))),
                      StoreBlock(blocks, chunks[0]), chunks[1..]);
    }
  }

  lemma OneKind(s: Source)
    ensures CountKind([s], File) == if s.entry.kindMeta.FileMeta? then 1 else 0
    ensures CountKind([s], Dir) == if s.entry.kindMeta.DirMeta? then 1 else 0
    ensures CountKind([s], Symlink) == if s.entry.kindMeta.SymlinkMeta? then 1 else 0
    ensures CountKind([s], Unknown) == if s.entry.kindMeta.UnknownMeta? then 1 else 0
  {
    assert [s][1..] == [];
  }

  lemma StoreKeepsKinds(w: Writer, s: Source, opts: Options)
    requires s.entry.kindMeta.FileMeta?
    ensures KindsAdded(w.stats, StoreFile(w, s, opts).stats, [])
    ensures KindsAdded(w.combiner.stats, StoreFile(w, s, opts).combiner.stats, [])
  {
    hide StoreAll, Chunks, CountBlocks;
    if s.read.Reads? {
      match s.read.large
      case LargeFailed(stored) => BlocksKeepKinds(w.stats, w.blocks, stored);
      case LargeOk(content) => BlocksKeepKinds(w.stats, w.blocks, Chunks(content, opts.maxBlockSize));
    }
  }

  lemma EntryKind(w: Writer, s: Source, opts: Options)
    ensures KindsAdded(w.stats, CopyEntry(w, s, opts).stats, [s])
    ensures KindsAdded(w.combiner.stats, CopyEntry(w, s, opts).combiner.stats, [])
  {
    hide Unmodified, Lookup, StoreFile, After;
    OneKind(s);
    if s.entry.kindMeta.FileMeta? {
      StoreKeepsKinds(w.(stats := Classified(w, s), basis := After(Some(s.entry.apath), w.basis)), s, opts);
    }
  }

  lemma {:induction false} GroupKinds(w: Writer, es: seq<Source>, opts: Options)
    ensures KindsAdded(w.stats, CopyAll(w, es, opts).stats, es)
    ensures KindsAdded(w.combiner.stats, CopyAll(w, es, opts).combiner.stats, [])
    decreases es
  {
    hide CopyEntry;
    if es != [] {
      var s := Prepared(es[0], opts);
      EntryKind(w, s, opts);
      OneKind(s);
      GroupKinds(CopyEntry(w, s, opts), es[1..], opts);
    }
  }

  lemma FlushKeepsKinds(c: Combiner, blocks: Blocks)
    ensures KindsAdded(c.stats, Flush(c, blocks, true).0.stats, [])
  {
  }

  lemma FlushKinds(w: Writer)
    requires KindsAdded(ZERO, w.combiner.stats, [])
    ensures KindsAdded(w.stats, FlushGroup(w).stats, []) && KindsAdded(ZERO, FlushGroup(w).combiner.stats, [])
  {
    hide Sort, Flush, HunkOf;
    FlushKeepsKinds(w.combiner, w.blocks);
  }

  lemma {:induction false} KindsAppend(a: seq<Source>, b: seq<Source>, kind: Kind)
    ensures CountKind(a + b, kind) == CountKind(a, kind) + CountKind(b, kind)
  {
    if a == [] {
      assert a + b == b;
    } else {
      assert (a + b)[1..] == a[1..] + b;
      KindsAppend(a[1..], b, kind);
    }
  }

  lemma KindsThenKinds(x: Stats, y: Stats, z: Stats, a: seq<Source>, b: seq<Source>)
    requires KindsAdded(x, y, a) && KindsAdded(y, z, b)
    ensures KindsAdded(x, z, a + b)
  {
    hide CountKind;
    forall kind ensures CountKind(a + b, kind) == CountKind(a, kind) + CountKind(b, kind) {
      KindsAppend(a, b, kind);
    }
  }

  /** Over a whole run, whatever fails: files, directories, symlinks and unknown things are counted exactly. */
  lemma {:induction false} KindsAccountedFor(w: Writer, groups: seq<seq<Source>>, opts: Options)
    requires KindsAdded(ZERO, w.combiner.stats, [])
    ensures KindsAdded(w.stats, CopyGroups(w, groups, opts).stats, FlattenSources(groups))
    decreases groups
  {
    hide CopyAll, FlushGroup, KindsAdded;
    if groups == [] {
      NoKinds(w.stats);
    } else {
      var group, rest := groups[0], FlattenSources(groups[1..]);
      var copied := CopyAll(w, group, opts);
      GroupKinds(w, group, opts);
      var none: seq<Source> := [];
      assert none + none == none;
      KindsThenKinds(ZERO, w.combiner.stats, copied.combiner.stats, none, none);
      FlushKinds(copied);
      KindsAccountedFor(FlushGroup(copied), groups[1..], opts);
      KindsThenKinds(w.stats, copied.stats, FlushGroup(copied).stats, group, none);
      assert group + none == group;
      KindsThenKinds(w.stats, FlushGroup(copied).stats, CopyGroups(w, groups, opts).stats, group, rest);
    }
  }

  lemma NoKinds(st: Stats)
    ensures KindsAdded(st, st, [])
  {
  }

  // ----- blocks

  /** The bytes that some blocks hold. */
  ghost function Sizes(hashes: set<BlockHash>): nat {
    if hashes == {} then 0
    else
      var h :| h in hashes;
      |h.preimage| + Sizes(hashes - {h})
  }

  lemma {:induction false} SizesAdd(hashes: set<BlockHash>, h: BlockHash)
    requires h !in hashes
    ensures Sizes(hashes + {h}) == Sizes(hashes) + |h.preimage|
    decreases |hashes|
  {
    var more := hashes + {h};
    var x :| x in more && Sizes(more) == |x.preimage| + Sizes(more - {x});
    if x == h {
      assert more - {h} == hashes;
    } else {
      assert more - {x} == (hashes - {x}) + {h};
      SizesAdd(hashes - {x}, h);
      SizesAdd(hashes - {x}, x);
      assert hashes - {x} + {x} == hashes;
    }
  }

  /** From one store to the next: one more written, and its bytes, for each block that is new. */
  ghost predicate WrittenAre(before: Stats, blocks: Blocks, after: Stats, blocks': Blocks) {
    after.writtenBlocks + |blocks| == before.writtenBlocks + |blocks'| &&
    after.uncompressedBytes + Sizes(blocks.Keys) == before.uncompressedBytes + Sizes(blocks'.Keys)
  }

  lemma BlockWritten(st: Stats, blocks: Blocks, data: Bytes)
    requires Sound(blocks)
    ensures WrittenAre(st, blocks, st.CountBlock(|data|, Contains(blocks, HashBytes(data))), StoreBlock(blocks, data))
  {
    var h := HashBytes(data);
    if h !in blocks {
      SizesAdd(blocks.Keys, h);
      assert StoreBlock(blocks, data).Keys == blocks.Keys + {h};
      assert |StoreBlock(blocks, data)| == |blocks| + 1;
    }
  }

  lemma WrittenThen(a: Stats, x: Blocks, b: Stats, y: Blocks, c: Stats, z: Blocks)
    requires WrittenAre(a, x, b, y) && WrittenAre(b, y, c, z)
    ensures WrittenAre(a, x, c, z)
  {
  }

  lemma {:induction false} BlocksWritten(st: Stats, blocks: Blocks, chunks: seq<Bytes>)
    requires Sound(blocks)
    ensures WrittenAre(st, blocks, CountBlocks(st, blocks, chunks), StoreAll(blocks, chunks))
    decreases chunks
  {
    hide WrittenAre, Sound;
    if chunks == [] {
      NothingWritten(st, blocks);
    } else {
      var st1, blocks1 :=
        st.CountBlock(|chunks[0]|, Contains(blocks, HashBytes(chunks[0]))), StoreBlock(blocks, chunks[0]);
      BlockWritten(st, blocks, chunks[0]);
      StoreKeepsSound(blocks, chunks[0]);
      BlocksWritten(st1, blocks1, chunks[1..]);
      WrittenThen(st, blocks, st1, blocks1, CountBlocks(st, blocks, chunks), StoreAll(blocks, chunks));
    }
  }

  lemma NothingWritten(st: Stats, blocks: Blocks)
    ensures WrittenAre(st, blocks, st, blocks)
  {
  }

  /** The counts of blocks written and of their bytes. */
  predicate SameWritten(a: Stats, b: Stats) {
    a.writtenBlocks == b.writtenBlocks && a.uncompressedBytes == b.uncompressedBytes
  }

  lemma FlushWritten(c: Combiner, blocks: Blocks, storeOk: bool)
    requires Sound(blocks)
    ensures
      var (c', blocks') := Flush(c, blocks, storeOk);
      WrittenAre(c.stats, blocks, c'.stats, blocks') && Sound(blocks')
  {
    hide Sizes;
    BlockWritten(c.stats, blocks, c.buf);
    StoreKeepsSound(blocks, c.buf);
  }

  /** In one step either the writer or its combiner counts what was written. */
  lemma StoreWritten(w: Writer, s: Source, opts: Options)
    requires Sound(w.blocks) && s.entry.kindMeta.FileMeta?
    ensures
      var w' := StoreFile(w, s, opts);
      Sound(w'.blocks) && WrittenAre(Total(w), w.blocks, Total(w'), w'.blocks)
  {
    hide Sizes, Sound, Fills, StoreAll, CountBlocks, Chunks, Flush;
    if s.entry.kindMeta.size > 0 && s.read.Reads? {
      if s.entry.kindMeta.size <= opts.smallFileCap {
        var taken := Take(w.combiner, s.entry, s.read.small);
        FlushWritten(taken, w.blocks, s.storeOk);
      } else {
        match s.read.large
        case LargeFailed(stored) => BlocksWritten(w.stats, w.blocks, stored); StoreAllKeepsSound(w.blocks, stored);
        case LargeOk(content) =>
          BlocksWritten(w.stats, w.blocks, Chunks(content, opts.maxBlockSize));
          StoreAllKeepsSound(w.blocks, Chunks(content, opts.maxBlockSize));
      }
    }
  }

  lemma EntryWritten(w: Writer, s: Source, opts: Options)
    requires Sound(w.blocks)
    ensures
      var w' := CopyEntry(w, s, opts);
      Sound(w'.blocks) && WrittenAre(Total(w), w.blocks, Total(w'), w'.blocks)
  {
    hide Sizes, Sound, StoreFile, Lookup, After, Unmodified;
    if s.entry.kindMeta.FileMeta? {
      var looked := w.(stats := Classified(w, s), basis := After(Some(s.entry.apath), w.basis));
      assert SameWritten(looked.stats, w.stats);
      if !Unmodified(w, s) {
        StoreWritten(looked, s, opts);
      }
    }
  }

  lemma {:induction false} GroupWritten(w: Writer, es: seq<Source>, opts: Options)
    requires Sound(w.blocks)
    ensures
      var w' := CopyAll(w, es, opts);
      Sound(w'.blocks) && WrittenAre(Total(w), w.blocks, Total(w'), w'.blocks)
    decreases es
  {
    hide WrittenAre, Sound, CopyEntry, Total;
    if es == [] {
      NothingWritten(Total(w), w.blocks);
    } else {
      var s := Prepared(es[0], opts);
      var w1, w2 := CopyEntry(w, s, opts), CopyAll(w, es, opts);
      EntryWritten(w, s, opts);
      GroupWritten(w1, es[1..], opts);
      WrittenThen(Total(w), w.blocks, Total(w1), w1.blocks, Total(w2), w2.blocks);
    }
  }

  lemma FlushGroupWritten(w: Writer)
    requires Sound(w.blocks)
    ensures
      var w' := FlushGroup(w);
      Sound(w'.blocks) && WrittenAre(Total(w), w.blocks, Total(w'), w'.blocks)
  {
    hide Sizes, Sound, Sort, Flush;
    FlushWritten(w.combiner, w.blocks, true);
  }

  /** Over a whole run, whatever fails: the blocks counted as written are exactly as many as the archive gained, and the
      bytes counted for them are exactly those that the new blocks hold. */
  lemma {:induction false} WrittenAccountedFor(w: Writer, groups: seq<seq<Source>>, opts: Options)
    requires Sound(w.blocks)
    ensures
      var w' := CopyGroups(w, groups, opts);
      WrittenAre(Total(w), w.blocks, Total(w'), w'.blocks)
    decreases groups
  {
    hide WrittenAre, Sound, CopyAll, FlushGroup, Total;
    if groups == [] {
      NothingWritten(Total(w), w.blocks);
    } else {
      var w1 := CopyAll(w, groups[0], opts);
      var w2, w3 := FlushGroup(w1), CopyGroups(w, groups, opts);
      GroupWritten(w, groups[0], opts);
      FlushGroupWritten(w1);
      WrittenThen(Total(w), w.blocks, Total(w1), w1.blocks, Total(w2), w2.blocks);
      WrittenAccountedFor(w2, groups[1..], opts);
      WrittenThen(Total(w), w.blocks, Total(w2), w2.blocks, Total(w3), w3.blocks);
    }
  }

  // ----- how a large file is counted

  /** A file stored in blocks counts as empty, in one block or in several by how much was read. */
  lemma LargeFileCounted(w: Writer, s: Source, opts: Options)
    requires s.entry.kindMeta.FileMeta? && s.entry.kindMeta.size > opts.smallFileCap && s.entry.kindMeta.size > 0
    requires s.read.Reads? && s.read.large.LargeOk?
    ensures
      var n, max, before, after := |s.read.large.content|, opts.maxBlockSize, w.stats, StoreFile(w, s, opts).stats;
      after.emptyFiles == before.emptyFiles + (if n == 0 then 1 else 0) &&
      after.singleBlockFiles == before.singleBlockFiles + (if 0 < n <= max then 1 else 0) &&
      after.multiBlockFiles == before.multiBlockFiles + (if n > max then 1 else 0) &&
      after.smallCombinedFiles == before.smallCombinedFiles
  {
    hide Chunks, CountBlocks, StoreAll;
    var content, max := s.read.large.content, opts.maxBlockSize;
    ChunkCount(content, max);
    BlocksKeepSizes(w.stats, w.blocks, Chunks(content, max));
  }

  /** A small file counts as empty or combined by whether anything was read; a failed read as neither. */
  lemma SmallFileCounted(c: Combiner, blocks: Blocks, e: EntryValue, read: ReadOutcome, max: nat, storeOk: bool)
    requires e.kindMeta.FileMeta? && e.kindMeta.size > 0
    ensures
      var before, after := c.stats, Push(c, blocks, e, read, max, storeOk).0.stats;
      after.emptyFiles == before.emptyFiles + (if read == Got([]) then 1 else 0) &&
      after.smallCombinedFiles == before.smallCombinedFiles + (if read.Got? && read.bytes != [] then 1 else 0) &&
      after.singleBlockFiles == before.singleBlockFiles && after.multiBlockFiles == before.multiBlockFiles
  {
  }

  // ----- blocks handed to the store

  /** The blocks that storing a file makes of its own. */
  function OwnChunks(s: Source, opts: Options): nat
    requires s.entry.kindMeta.FileMeta?
  {
    if s.entry.kindMeta.size == 0 || s.entry.kindMeta.size <= opts.smallFileCap || s.read.OpenFailed? then 0
    else match s.read.large
      case LargeFailed(stored) => |stored|
      case LargeOk(content) => |Chunks(content, opts.maxBlockSize)|
  }

  function ChunksIn(w: Writer, s: Source, opts: Options): nat {
    if s.entry.kindMeta.FileMeta? && !Unmodified(w, s) then OwnChunks(s, opts) else 0
  }

  function ChunksInAll(w: Writer, es: seq<Source>, opts: Options): nat
    decreases es
  {
    if es == [] then 0
    else
      ChunksIn(w, Prepared(es[0], opts), opts) + ChunksInAll(CopyEntry(w, Prepared(es[0], opts), opts), es[1..], opts)
  }

  function RunChunks(w: Writer, groups: seq<seq<Source>>, opts: Options): nat
    decreases groups
  {
    if groups == [] then 0
    else
      ChunksInAll(w, groups[0], opts) + RunChunks(FlushGroup(CopyAll(w, groups[0], opts)), groups[1..], opts)
  }

  /** Blocks counted as written or deduplicated that are not combined ones. */
  function OwnBlocks(st: Stats): int {
    st.writtenBlocks + st.deduplicatedBlocks - st.combinedBlocks
  }

  lemma {:induction false} BlocksOwn(st: Stats, blocks: Blocks, chunks: seq<Bytes>)
    ensures OwnBlocks(CountBlocks(st, blocks, chunks)) == OwnBlocks(st) + |chunks|
    ensures CountBlocks(st, blocks, chunks).combinedBlocks == st.combinedBlocks
    decreases chunks
  {
    if chunks != [] {
      BlocksOwn(st.CountBlock(|chunks[0]|, Contains(blocks, HashBytes(chunks[0]))),
                StoreBlock(blocks, chunks[0]), chunks[1..]);
    }
  }

  lemma StoreOwn(w: Writer, s: Source, opts: Options)
    requires s.entry.kindMeta.FileMeta?
    ensures OwnBlocks(Total(StoreFile(w, s, opts))) == OwnBlocks(Total(w)) + OwnChunks(s, opts)
  {
    hide CountBlocks, StoreAll, Chunks;
    if s.entry.kindMeta.size > opts.smallFileCap && s.read.Reads? {
      match s.read.large
      case LargeFailed(stored) => BlocksOwn(w.stats, w.blocks, stored);
      case LargeOk(content) => BlocksOwn(w.stats, w.blocks, Chunks(content, opts.maxBlockSize));
    }
  }

  lemma EntryOwn(w: Writer, s: Source, opts: Options)
    ensures OwnBlocks(Total(CopyEntry(w, s, opts))) == OwnBlocks(Total(w)) + ChunksIn(w, s, opts)
  {
    hide Lookup, After, Unmodified, StoreFile, OwnChunks;
    if s.entry.kindMeta.FileMeta? {
      StoreOwn(w.(stats := Classified(w, s), basis := After(Some(s.entry.apath), w.basis)), s, opts);
    }
  }

  lemma {:induction false} GroupOwn(w: Writer, es: seq<Source>, opts: Options)
    ensures OwnBlocks(Total(CopyAll(w, es, opts))) == OwnBlocks(Total(w)) + ChunksInAll(w, es, opts)
    decreases es
  {
    hide CopyEntry, ChunksIn, Total, OwnBlocks;
    if es != [] {
      EntryOwn(w, Prepared(es[0], opts), opts);
      GroupOwn(CopyEntry(w, Prepared(es[0], opts), opts), es[1..], opts);
    }
  }

  lemma FlushGroupOwn(w: Writer)
    ensures OwnBlocks(Total(FlushGroup(w))) == OwnBlocks(Total(w))
  {
    hide Sort;
  }

  /** Over a whole run, whatever fails: the blocks written and those found already stored are, together, the combined
      ones and as many as the large files fill. */
  lemma {:induction false} BlocksAccountedFor(w: Writer, groups: seq<seq<Source>>, opts: Options)
    ensures OwnBlocks(Total(CopyGroups(w, groups, opts))) == OwnBlocks(Total(w)) + RunChunks(w, groups, opts)
    decreases groups
  {
    hide CopyAll, FlushGroup, ChunksInAll, Total, OwnBlocks;
    if groups != [] {
      var copied := CopyAll(w, groups[0], opts);
      GroupOwn(w, groups[0], opts);
      FlushGroupOwn(copied);
      BlocksAccountedFor(FlushGroup(copied), groups[1..], opts);
    }
  }

  lemma ChunkCount(content: Bytes, max: nat)
    requires max > 0
    ensures |Chunks(content, max)| == 0 <==> content == []
    ensures |Chunks(content, max)| == 1 <==> 0 < |content| <= max
  {
    if |content| > max {
      assert content[max..] != [];
    }
  }

  lemma {:induction false} BlocksKeepSizes(st: Stats, blocks: Blocks, chunks: seq<Bytes>)
    ensures
      var after := CountBlocks(st, blocks, chunks);
      after.emptyFiles == st.emptyFiles && after.singleBlockFiles == st.singleBlockFiles &&
      after.multiBlockFiles == st.multiBlockFiles && after.smallCombinedFiles == st.smallCombinedFiles
    decreases chunks
  {
    if chunks != [] {
      BlocksKeepSizes(st.CountBlock(|chunks[0]|, Contains(blocks, HashBytes(chunks[0]))),
                      StoreBlock(blocks, chunks[0]), chunks[1..]);
    }
  }
}
