/** The backup as the program runs it: a writer that changes its counters, its queue, the basis iterator and the
    shared block store as entries arrive, proved to follow the plain account of a backup (src/backup.rs). */
module BackupWriting {
  import opened Base
  import opened Apaths
  import opened Entries
  import opened Sorting
  import opened Storage
  import opened Index
  import opened Stitch
  import opened EntryIter
  import opened BlockDirs
  import opened Content
  import opened BackupStatistics
  import opened Combining
  import opened Backup
  import opened BasisLookups
  import opened Accounting
  import GarbageCollection

  /** Open a source file: it may be gone, and opening or reading it may fail if it is flaky. */
  method OpenFile(files: map<Apath, Bytes>, flaky: Apath -> bool, e: EntryValue) returns (r: Option<Reader>)
    ensures r.Some? ==>
      fresh(r.value) && e.apath in files && r.value.rest == files[e.apath] && r.value.flaky == flaky(e.apath)
    ensures r.None? ==> e.apath !in files || flaky(e.apath)
  {
    var fails: bool := *;
    if (fails && flaky(e.apath)) || e.apath !in files { return None; }
    var file := new Reader(files[e.apath], flaky(e.apath));
    return Some(file);
  }

  /** Some block cannot be relied on. */
  ghost predicate SomeBlockFails(archive: Archive) {
    exists h :: archive.faults.block(h)
  }

  /** If this is a file with content, it is there and can be read. */
  predicate CanBeRead(files: map<Apath, Bytes>, flaky: Apath -> bool, e: EntryValue) {
    e.kindMeta.FileMeta? && e.kindMeta.size > 0 ==> e.apath in files && !flaky(e.apath)
  }

  /** What was read of a file is there: all of it, if it is read in blocks, and otherwise what its one read delivered,
      which is a front part and not nothing unless the file is empty. */
  predicate Delivered(files: map<Apath, Bytes>, s: Source) {
    s.read.Reads? ==>
      s.entry.apath in files &&
      (s.read.small.Got? ==> s.read.small.bytes <= files[s.entry.apath]) &&
      (s.read.small == Got([]) ==> files[s.entry.apath] == []) &&
      (s.read.large.LargeOk? ==> s.read.large.content == files[s.entry.apath])
  }

  /** Ask about each block in turn, until one is missing or a question gets no answer. */
  method AreBlocksPresent(addrs: seq<Address>, blockDir: BlockDir) returns (r: bool, answered: bool)
    requires blockDir.Honest()
    modifies blockDir
    ensures blockDir.Honest() && r == (answered && AllBlocksPresent(blockDir.archive.blocks, addrs))
    ensures !answered ==> exists a :: a in addrs && blockDir.archive.faults.block(a.hash)
  {
    for i := 0 to |addrs|
      invariant blockDir.Honest() && AllBlocksPresent(blockDir.archive.blocks, addrs[..i])
    {
      var present := blockDir.IsPresent(addrs[i].hash);
      if present.Err? { return false, false; }
      if !present.value { return false, true; }
      assert addrs[..i + 1] == addrs[..i] + [addrs[i]];
    }
    assert addrs[..|addrs|] == addrs;
    return true, true;
  }

  /** A file with nothing said yet about reading it. */
  function Unread(e: EntryValue, answered: bool): Source {
    Source(e, OpenFailed, true, answered)
  }

  class BackupWriter {
    const blockDir: BlockDir
    const combiner: FileCombiner
    const basisIndex: IndexEntryIter
    const opts: Options

    /** The content of the source's files, and which of them may fail to be read. */
    const files: map<Apath, Bytes>
    const flaky: Apath -> bool

    /** Entries waiting for the next hunk, and the hunks written. */
    var queue: seq<IndexEntry>
    var hunks: seq<Hunk>

    var stats: Stats

    ghost predicate Valid()
      reads this, combiner, blockDir, blockDir.archive, basisIndex, basisIndex.hunkIter, basisIndex.hunkIter.indexHunks
    {
      combiner.blockDir == blockDir && combiner.maxBlockSize == opts.maxBlockSize && combiner.Valid() &&
      basisIndex.hunkIter.archive == blockDir.archive && basisIndex.Valid() && InOrder(basisIndex.Rest())
    }

    ghost function View(): Writer
      requires basisIndex.hunkIter.archive == blockDir.archive && basisIndex.Valid()
      reads this, combiner, blockDir.archive, basisIndex, basisIndex.hunkIter, basisIndex.hunkIter.indexHunks
    {
      Writer(queue, hunks, combiner.View(), blockDir.archive.blocks, basisIndex.Rest(), stats)
    }

    constructor (blockDir: BlockDir, basisIndex: IndexEntryIter, files: map<Apath, Bytes>, flaky: Apath -> bool,
                 opts: Options)
      requires blockDir.Honest() && Sound(blockDir.archive.blocks)
      requires basisIndex.hunkIter.archive == blockDir.archive && basisIndex.Valid() && InOrder(basisIndex.Rest())
      ensures Valid() && fresh(combiner)
      ensures this.blockDir == blockDir && this.basisIndex == basisIndex && this.opts == opts
      ensures this.files == files && this.flaky == flaky
      ensures View() == Begin(blockDir.archive.blocks, basisIndex.Rest())
    {
      this.blockDir, this.basisIndex, this.opts := blockDir, basisIndex, opts;
      this.files, this.flaky := files, flaky;
      combiner := new FileCombiner(blockDir, opts.maxBlockSize);
      queue, hunks, stats := [], [], ZERO;
    }

    method PushEntry(e: IndexEntry)
      modifies this`queue
      ensures queue == old(queue) + [e]
    {
      queue := queue + [e];
    }

    /** Look a file up in the basis; everything up to it in the basis is then passed. */
    method FindInBasis(p: Apath) returns (r: Option<IndexEntry>)
      requires Valid()
      modifies basisIndex, basisIndex.hunkIter, basisIndex.hunkIter.indexHunks
      ensures Valid() && r == Lookup(old(View()).basis, p)
      ensures View() == old(View()).(basis := After(Some(p), old(View()).basis))
      ensures basisIndex.hunkIter.indexHunks == old(basisIndex.hunkIter.indexHunks) ||
        fresh(basisIndex.hunkIter.indexHunks)
    {
      AfterInOrder(Some(p), basisIndex.Rest());
      r := basisIndex.AdvanceTo(p);
    }

    /** Count a file against its basis entry. */
    method Count(e: EntryValue, found: Option<IndexEntry>, present: bool)
      modifies this`stats
      ensures stats == Counted(old(stats), e, found, present)
    {
      stats := stats.(files := stats.files + 1);
      if found.None? {
        stats := stats.(newFiles := stats.newFiles + 1);
      } else if !HeuristicallyUnchanged(e, found.value) {
        stats := stats.(modifiedFiles := stats.modifiedFiles + 1);
      } else if present {
        stats := stats.(unmodifiedFiles := stats.unmodifiedFiles + 1);
      } else {
        stats := stats.(modifiedFiles := stats.modifiedFiles + 1,
          replacedDamagedBlocks := stats.replacedDamagedBlocks + 1);
      }
    }

    /** Compare a file with its basis entry, and take over its blocks if it looks unchanged. */
    method TakeOver(e: EntryValue) returns (done: bool, answered: bool)
      requires Valid() && e.kindMeta.FileMeta?
      modifies this, blockDir, basisIndex, basisIndex.hunkIter, basisIndex.hunkIter.indexHunks
      ensures Valid() && done == Unmodified(old(View()), Unread(e, answered))
      ensures done <==> CanTakeOver(old(View()).basis, old(View()).blocks, Unread(e, answered))
      ensures !answered ==> SomeBlockFails(blockDir.archive)
      ensures basisIndex.hunkIter.indexHunks == old(basisIndex.hunkIter.indexHunks) ||
        fresh(basisIndex.hunkIter.indexHunks)
      ensures
        var w := old(View());
        var looked := w.(stats := Classified(w, Unread(e, answered)), basis := After(Some(e.apath), w.basis));
        View() ==
          if done then looked.(queue := w.queue + [MetadataFrom(e).(addrs := Lookup(w.basis, e.apath).value.addrs)])
          else looked
    {
      hide Lookup, After, InOrder, Sound, Counted, AllBlocksPresent, CanTakeOver;
      done, answered := false, true;
      var found := FindInBasis(e.apath);
      if found.Some? && HeuristicallyUnchanged(e, found.value) {
        done, answered := AreBlocksPresent(found.value.addrs, blockDir);
      }
      Count(e, found, done);
      NotPresentIsNotCounted(old(stats), e, found);
      SameAtPath(old(View()).basis, old(View()), Unread(e, answered));
      if done {
        PushEntry(MetadataFrom(e).(addrs := found.value.addrs));
      }
    }

    /** Store a large file in blocks of its own. */
    method StoreLarge(e: EntryValue, file: Reader) returns (ok: bool, read: LargeRead)
      requires Valid() && e.kindMeta.FileMeta? && e.kindMeta.size > 0 && e.kindMeta.size > opts.smallFileCap
      modifies this, blockDir, blockDir.archive`blocks, file
      ensures Valid() && (ok <==> read.LargeOk?) && (ok ==> read.content == old(file.rest))
      ensures !ok ==> file.flaky || SomeBlockFails(blockDir.archive)
      ensures forall small, storeOk, answered ::
        (if ok then View() else Failed(View())) ==
          StoreFile(old(View()), Source(e, Reads(small, read), storeOk, answered), opts)
    {
      hide InOrder, Sound, Chunks, StoreAll, CountBlocks;
      ghost var content := file.rest;
      var r, counts, stored := StoreFileContent(file, blockDir, stats, opts.maxBlockSize);
      stats := counts;
      if r.Err? {
        SomeChunkFails(blockDir.archive, Chunks(content, opts.maxBlockSize));
        return false, LargeFailed(stored);
      }
      PushEntry(MetadataFrom(e).(addrs := r.value));
      read := LargeOk(Joined(stored));
      JoinedChunks(content, opts.maxBlockSize);
      return true, read;
    }

    /** Store the content of a file that was not taken over; `s` tells what happened on the way. */
    method StoreContent(e: EntryValue, answered: bool) returns (ok: bool, s: Source)
      requires Valid() && e.kindMeta.FileMeta?
      modifies this, combiner, blockDir, blockDir.archive`blocks
      ensures Valid() && s.entry == e && s.answered == answered && Delivered(files, s)
      ensures (if ok then View() else Failed(View())) == StoreFile(old(View()), s, opts)
      ensures ok ==> IsRead(s, opts) && !CombineFails(old(View()).combiner, s, opts)
      ensures !ok ==> !CanBeRead(files, flaky, e) || SomeBlockFails(blockDir.archive)
    {
      hide InOrder, Sound, Chunks, StoreAll, CountBlocks;
      s := Unread(e, answered);
      if e.kindMeta.size == 0 {
        PushEntry(MetadataFrom(e));
        stats := stats.(emptyFiles := stats.emptyFiles + 1);
        return true, s;
      }
      var file := OpenFile(files, flaky, e);
      if file.None? { return false, s; }
      if e.kindMeta.size <= opts.smallFileCap {
        var pushed, read, storeOk := combiner.PushFile(e, file.value);
        return pushed, Source(e, Reads(read, LargeFailed([])), storeOk, answered);
      }
      var stored, read := StoreLarge(e, file.value);
      return stored, Source(e, Reads(ReadFailed, read), true, answered);
    }

    /** Copy one file. */
    method CopyFileIn(e: EntryValue) returns (s: Source)
      requires Valid() && e.kindMeta.FileMeta?
      modifies this, combiner, blockDir, blockDir.archive`blocks, basisIndex, basisIndex.hunkIter,
        basisIndex.hunkIter.indexHunks
      ensures Valid() && s.entry == e && Delivered(files, s) && View() == CopyFile(old(View()), s, opts)
      ensures CanBeRead(files, flaky, e) && !SomeBlockFails(blockDir.archive) ==>
        s.answered && Failures(old(View()), s, opts) == 0
      ensures basisIndex.hunkIter.indexHunks == old(basisIndex.hunkIter.indexHunks) ||
        fresh(basisIndex.hunkIter.indexHunks)
    {
      hide StoreFile, Lookup, After, InOrder, Sound, AllBlocksPresent, HeuristicallyUnchanged, Failures, IsRead,
           CombineFails, CanBeRead;
      ghost var w := View();
      var taken, answered := TakeOver(e);
      if taken {
        NoFailure(w, Unread(e, answered), opts);
        return Unread(e, answered);
      }
      var ok;
      ok, s := StoreContent(e, answered);
      SameFile(w, s, Unread(e, answered));
      if ok {
        NoFailure(w, s, opts);
      } else {
        stats := stats.(errors := stats.errors + 1);
      }
    }

    /** Copy one entry; `s` is the entry with what happened when it was read and stored. */
    method CopyOne(e: EntryValue) returns (s: Source)
      requires Valid()
      modifies this, combiner, blockDir, blockDir.archive`blocks, basisIndex, basisIndex.hunkIter,
        basisIndex.hunkIter.indexHunks
      ensures Valid() && s.entry == e && Delivered(files, s) && View() == CopyEntry(old(View()), s, opts)
      ensures CanBeRead(files, flaky, e) && !SomeBlockFails(blockDir.archive) ==>
        s.answered && Failures(old(View()), s, opts) == 0
      ensures basisIndex.hunkIter.indexHunks == old(basisIndex.hunkIter.indexHunks) ||
        fresh(basisIndex.hunkIter.indexHunks)
    {
      hide CopyFile, InOrder, Sound;
      s := Unread(e, true);
      match e.kindMeta
      case DirMeta =>
        stats := stats.(directories := stats.directories + 1);
        PushEntry(MetadataFrom(e));
      case SymlinkMeta(_) =>
        stats := stats.(symlinks := stats.symlinks + 1);
        PushEntry(MetadataFrom(e));
      case UnknownMeta =>
        stats := stats.(unknownKind := stats.unknownKind + 1);
      case FileMeta(_) =>
        s := CopyFileIn(e);
    }

    /** Write out the combined block, and then everything queued as the next hunk.  If the block cannot be
        stored, no hunk is written and no block, basis entry or count changes. */
    method FinishGroup() returns (ok: bool)
      requires Valid()
      modifies this, combiner, blockDir, blockDir.archive`blocks
      ensures Valid()
      ensures View() == if ok then FlushGroup(old(View()))
                        else old(View()).(combiner := Flush(old(View()).combiner, old(View()).blocks, false).0)
      ensures !ok ==> SomeBlockFails(blockDir.archive)
    {
      hide InOrder, Sound, Sort;
      var entries, counts;
      ok, entries, counts := combiner.Drain();
      if !ok {
        FailedFlush(old(View()).combiner, old(View()).blocks);
        return;
      }
      stats := stats.Plus(counts);
      queue := queue + entries;
      hunks := hunks + HunkOf(queue);
      queue := [];
    }

    /** Copy one group of entries, without their owners unless these are wanted. */
    method CopyGroup(group: seq<EntryValue>) returns (sources: seq<Source>)
      requires Valid()
      modifies this, combiner, blockDir, blockDir.archive`blocks, basisIndex, basisIndex.hunkIter,
        basisIndex.hunkIter.indexHunks
      ensures Valid() && |sources| == |group|
      ensures forall i :: 0 <= i < |group| ==> sources[i].entry == group[i] && Delivered(files, sources[i])
      ensures View() == CopyAll(old(View()), sources, opts)
      ensures (forall e :: e in group ==> CanBeRead(files, flaky, e)) && !SomeBlockFails(blockDir.archive) ==>
        (forall s :: s in sources ==> s.answered) && FailuresIn(old(View()), sources, opts) == 0
      ensures basisIndex.hunkIter.indexHunks == old(basisIndex.hunkIter.indexHunks) ||
        fresh(basisIndex.hunkIter.indexHunks)
    {
      hide CopyEntry, InOrder, Sound, Delivered, FailuresIn, Failures, CanBeRead, SomeBlockFails;
      sources := [];
      ghost var start := View();
      NoFailuresYet(start, opts);
      for i := 0 to |group|
        invariant Valid() && |sources| == i
        invariant forall k :: 0 <= k < i ==> sources[k].entry == group[k] && Delivered(files, sources[k])
        invariant View() == CopyAll(start, sources, opts)
        invariant (forall e :: e in group ==> CanBeRead(files, flaky, e)) && !SomeBlockFails(blockDir.archive) ==>
          (forall s :: s in sources ==> s.answered) && FailuresIn(start, sources, opts) == 0
        invariant basisIndex.hunkIter.indexHunks == old(basisIndex.hunkIter.indexHunks) ||
          fresh(basisIndex.hunkIter.indexHunks)
      {
        var e := if opts.owner then group[i] else group[i].(owner := Owner(None, None));
        assert group[i] in group;
        SameReading(files, flaky, group[i], e);
        var did := CopyOne(e);
        var s := did.(entry := group[i]);
        assert Prepared(s, opts) == did;
        SameDelivery(files, did, s);
        CopyOneMore(start, sources, s, opts);
        FailuresOneMore(start, sources, s, opts);
        sources := sources + [s];
      }
    }
  }

  lemma SameReading(files: map<Apath, Bytes>, flaky: Apath -> bool, e: EntryValue, f: EntryValue)
    requires e.apath == f.apath && e.kindMeta == f.kindMeta
    ensures CanBeRead(files, flaky, e) == CanBeRead(files, flaky, f)
  {
  }

  lemma SameDelivery(files: map<Apath, Bytes>, s: Source, t: Source)
    requires s.entry.apath == t.entry.apath && s.read == t.read
    ensures Delivered(files, s) == Delivered(files, t)
  {
  }

  lemma NoFailuresYet(w: Writer, opts: Options)
    ensures FailuresIn(w, [], opts) == 0
  {
  }

  lemma SomeChunkFails(archive: Archive, chunks: seq<Bytes>)
    ensures (exists c :: c in chunks && FaultyBlock(archive, c)) ==> SomeBlockFails(archive)
  {
    if c :| c in chunks && FaultyBlock(archive, c) {
      assert archive.faults.block(HashBytes(c));
    }
  }

  /** The file fills the combined block, and storing that fails. */
  predicate CombineFails(c: Combiner, s: Source, opts: Options)
    requires s.entry.kindMeta.FileMeta?
  {
    0 < s.entry.kindMeta.size <= opts.smallFileCap && s.read.Reads? &&
    Fills(c, s.entry, s.read.small, opts.maxBlockSize) && !s.storeOk
  }

  lemma NoFailure(w: Writer, s: Source, opts: Options)
    requires s.entry.kindMeta.FileMeta?
    requires Unmodified(w, s) || (IsRead(s, opts) && !CombineFails(w.combiner, s, opts))
    ensures Failures(w, s, opts) == 0
  {
    hide Fills, IsRead, Unmodified;
  }

  lemma {:induction false} FailuresOneMore(w: Writer, es: seq<Source>, s: Source, opts: Options)
    ensures FailuresIn(w, es + [s], opts) ==
      FailuresIn(w, es, opts) + Failures(CopyAll(w, es, opts), Prepared(s, opts), opts)
    decreases es
  {
    hide CopyEntry, Prepared, Failures;
    var all := es + [s];
    if es == [] {
      assert all[1..] == [];
    } else {
      assert all[0] == es[0] && all[1..] == es[1..] + [s];
      FailuresOneMore(CopyEntry(w, Prepared(es[0], opts), opts), es[1..], s, opts);
    }
  }

  /** Where a file is compared with the basis, only the entry and the answers matter. */
  lemma SameFile(w: Writer, s: Source, t: Source)
    requires s.entry == t.entry && s.answered == t.answered
    ensures Unmodified(w, s) == Unmodified(w, t) && Classified(w, s) == Classified(w, t)
  {
  }

  lemma NotPresentIsNotCounted(st: Stats, e: EntryValue, found: Option<IndexEntry>)
    ensures found.None? || !HeuristicallyUnchanged(e, found.value) ==>
      Counted(st, e, found, true) == Counted(st, e, found, false)
  {
  }

  lemma FailedFlush(c: Combiner, blocks: Blocks)
    ensures Flush(c, blocks, false).1 == blocks
  {
  }

  function Joined(chunks: seq<Bytes>): Bytes {
    if chunks == [] then [] else chunks[0] + Joined(chunks[1..])
  }

  lemma {:induction false} JoinedChunks(content: Bytes, max: nat)
    requires max > 0
    ensures Joined(Chunks(content, max)) == content
    decreases |content|
  {
    if content != [] {
      var n := Min(max, |content|);
      JoinedChunks(content[n..], max);
      assert Chunks(content, max)[1..] == Chunks(content[n..], max);
      assert content == content[..n] + content[n..];
    }
  }

  lemma {:induction false} CopyOneMore(w: Writer, es: seq<Source>, s: Source, opts: Options)
    ensures CopyAll(w, es + [s], opts) == CopyEntry(CopyAll(w, es, opts), Prepared(s, opts), opts)
    decreases es
  {
    hide CopyEntry, Prepared;
    var all := es + [s];
    if es == [] {
      assert all[1..] == [];
    } else {
      assert all[0] == es[0] && all[1..] == es[1..] + [s];
      CopyOneMore(CopyEntry(w, Prepared(es[0], opts), opts), es[1..], s, opts);
    }
  }

  lemma {:induction false} CopyGroupMore(w: Writer, groups: seq<seq<Source>>, group: seq<Source>, opts: Options)
    ensures CopyGroups(w, groups + [group], opts) == FlushGroup(CopyAll(CopyGroups(w, groups, opts), group, opts))
    decreases groups
  {
    hide FlushGroup, CopyAll;
    var all := groups + [group];
    if groups == [] {
      assert all[1..] == [];
    } else {
      assert all[0] == groups[0] && all[1..] == groups[1..] + [group];
      CopyGroupMore(FlushGroup(CopyAll(w, groups[0], opts)), groups[1..], group, opts);
    }
  }

  /** These sources are the entries, with what happened to each. */
  predicate Attempt(files: map<Apath, Bytes>, sources: seq<seq<Source>>, groups: seq<seq<EntryValue>>) {
    |sources| <= |groups| && forall i :: 0 <= i < |sources| ==>
      |sources[i]| == |groups[i]| &&
      forall k :: 0 <= k < |sources[i]| ==> sources[i][k].entry == groups[i][k] && Delivered(files, sources[i][k])
  }

  lemma {:induction false} FailuresGroupMore(w: Writer, groups: seq<seq<Source>>, group: seq<Source>, opts: Options)
    ensures AllFailures(w, groups + [group], opts) ==
      AllFailures(w, groups, opts) + FailuresIn(CopyGroups(w, groups, opts), group, opts)
    decreases groups
  {
    hide FlushGroup, CopyAll, FailuresIn;
    var all := groups + [group];
    if groups == [] {
      assert all[1..] == [];
    } else {
      assert all[0] == groups[0] && all[1..] == groups[1..] + [group];
      FailuresGroupMore(FlushGroup(CopyAll(w, groups[0], opts)), groups[1..], group, opts);
    }
  }

  /** Every file can be read, and every block can be relied on. */
  ghost predicate NothingFails(archive: Archive, files: map<Apath, Bytes>, flaky: Apath -> bool,
                               groups: seq<seq<EntryValue>>) {
    !SomeBlockFails(archive) &&
    forall i, e :: 0 <= i < |groups| && e in groups[i] ==> CanBeRead(files, flaky, e)
  }

  predicate AllAnswered(sources: seq<seq<Source>>) {
    forall i, s :: 0 <= i < |sources| && s in sources[i] ==> s.answered
  }

  /** Copy every group; a combined block that cannot be stored at the end of a group stops the backup, and
      `partial` is then that group. */
  method CopyTree(writer: BackupWriter, groups: seq<seq<EntryValue>>)
    returns (ok: bool, sources: seq<seq<Source>>, partial: seq<Source>)
    requires writer.Valid()
    modifies writer, writer.combiner, writer.blockDir, writer.blockDir.archive`blocks,
             writer.basisIndex, writer.basisIndex.hunkIter, writer.basisIndex.hunkIter.indexHunks
    ensures writer.Valid() && Attempt(writer.files, sources, groups)
    ensures ok ==> |sources| == |groups| && writer.View() == CopyGroups(old(writer.View()), sources, writer.opts)
    ensures !ok ==>
      |sources| < |groups| && Attempt(writer.files, sources + [partial], groups) &&
      var w := CopyAll(CopyGroups(old(writer.View()), sources, writer.opts), partial, writer.opts);
      writer.View() == w.(combiner := Flush(w.combiner, w.blocks, false).0)
    ensures NothingFails(writer.blockDir.archive, writer.files, writer.flaky, groups) ==>
      ok && AllAnswered(sources) && AllFailures(old(writer.View()), sources, writer.opts) == 0
  {
    hide FlushGroup, CopyAll, InOrder, Sound, FailuresIn, CanBeRead;
    sources, partial := [], [];
    ghost var start := writer.View();
    for i := 0 to |groups|
      invariant writer.Valid() && |sources| == i && Attempt(writer.files, sources, groups)
      invariant writer.View() == CopyGroups(start, sources, writer.opts)
      invariant NothingFails(writer.blockDir.archive, writer.files, writer.flaky, groups) ==>
        AllAnswered(sources) && AllFailures(start, sources, writer.opts) == 0
      invariant writer.basisIndex.hunkIter.indexHunks == old(writer.basisIndex.hunkIter.indexHunks) ||
                fresh(writer.basisIndex.hunkIter.indexHunks)
    {
      partial := writer.CopyGroup(groups[i]);
      CopyGroupMore(start, sources, partial, writer.opts);
      FailuresGroupMore(start, sources, partial, writer.opts);
      var flushed := writer.FinishGroup();
      if !flushed { return false, sources, partial; }
      sources := sources + [partial];
    }
    return true, sources, [];
  }

  // ----- blocks are only ever added

  lemma CopyEntryExtends(w: Writer, s: Source, opts: Options)
    requires Sound(w.blocks)
    ensures Sound(CopyEntry(w, s, opts).blocks) && Extends(CopyEntry(w, s, opts).blocks, w.blocks)
    ensures CopyEntry(w, s, opts).hunks == w.hunks
  {
    hide Lookup, After, Classified, Unmodified, CountBlocks;
    if s.entry.kindMeta.FileMeta? && s.entry.kindMeta.size > 0 && s.read.Reads? {
      if s.entry.kindMeta.size <= opts.smallFileCap {
        StoreKeepsSound(w.blocks, Take(w.combiner, s.entry, s.read.small).buf);
      } else {
        match s.read.large
        case LargeFailed(stored) => StoreAllKeepsSound(w.blocks, stored);
        case LargeOk(content) => StoreAllKeepsSound(w.blocks, Chunks(content, opts.maxBlockSize));
      }
    }
  }

  lemma {:induction false} CopyAllExtends(w: Writer, es: seq<Source>, opts: Options)
    requires Sound(w.blocks)
    ensures Sound(CopyAll(w, es, opts).blocks) && Extends(CopyAll(w, es, opts).blocks, w.blocks)
    ensures CopyAll(w, es, opts).hunks == w.hunks
    decreases es
  {
    hide CopyEntry, Sound, Extends, Prepared;
    if es == [] {
      ExtendsItself(w.blocks);
    } else {
      var w' := CopyEntry(w, Prepared(es[0], opts), opts);
      CopyEntryExtends(w, Prepared(es[0], opts), opts);
      CopyAllExtends(w', es[1..], opts);
      ExtendsTransitive(CopyAll(w', es[1..], opts).blocks, w'.blocks, w.blocks);
    }
  }

  lemma ExtendsItself(blocks: Blocks)
    ensures Extends(blocks, blocks)
  {
  }

  lemma FlushGroupExtends(w: Writer)
    requires Sound(w.blocks)
    ensures Sound(FlushGroup(w).blocks) && Extends(FlushGroup(w).blocks, w.blocks)
  {
    StoreKeepsSound(w.blocks, w.combiner.buf);
  }

  /** Whatever goes wrong, a run only adds blocks, each with the content its name says. */
  lemma {:induction false} CopyGroupsExtends(w: Writer, groups: seq<seq<Source>>, opts: Options)
    requires Sound(w.blocks)
    ensures Sound(CopyGroups(w, groups, opts).blocks) && Extends(CopyGroups(w, groups, opts).blocks, w.blocks)
    decreases groups
  {
    hide CopyAll, FlushGroup, Sound, Extends;
    if groups == [] {
      ExtendsItself(w.blocks);
    } else {
      var copied := CopyAll(w, groups[0], opts);
      var w' := FlushGroup(copied);
      CopyAllExtends(w, groups[0], opts);
      FlushGroupExtends(copied);
      CopyGroupsExtends(w', groups[1..], opts);
      ExtendsTransitive(w'.blocks, copied.blocks, w.blocks);
      ExtendsTransitive(CopyGroups(w', groups[1..], opts).blocks, w'.blocks, w.blocks);
    }
  }

  // ----- the whole backup

  /** Every address in the basis lies inside the block it names. */
  ghost predicate InRangeBasis(bands: Bands) {
    forall b :: b in BasisOf(bands) ==> IdealContent(b.addrs).Ok?
  }

  function FlattenEntries(groups: seq<seq<EntryValue>>): seq<EntryValue> {
    if groups == [] then [] else groups[0] + FlattenEntries(groups[1..])
  }

  lemma {:induction false} AttemptFlat(files: map<Apath, Bytes>, sources: seq<seq<Source>>,
                                       groups: seq<seq<EntryValue>>)
    requires Attempt(files, sources, groups) && |sources| == |groups|
    ensures |FlattenSources(sources)| == |FlattenEntries(groups)|
    ensures forall i :: 0 <= i < |FlattenSources(sources)| ==>
      FlattenSources(sources)[i].entry == FlattenEntries(groups)[i] && Delivered(files, FlattenSources(sources)[i])
    decreases sources
  {
    hide Delivered;
    if sources != [] {
      var rest, rest' := sources[1..], groups[1..];
      assert forall i :: 0 <= i < |rest| ==> rest[i] == sources[i + 1] && rest'[i] == groups[i + 1];
      assert Attempt(files, rest, rest');
      AttemptFlat(files, rest, rest');
      assert |sources[0]| == |groups[0]|;
    }
  }

  lemma AttemptIncreasing(files: map<Apath, Bytes>, sources: seq<seq<Source>>, groups: seq<seq<EntryValue>>)
    requires Attempt(files, sources, groups) && |sources| == |groups| && Increasing(SourceKey, FlattenEntries(groups))
    ensures Increasing(SourceApath, FlattenSources(sources))
  {
    hide Before, Attempt;
    AttemptFlat(files, sources, groups);
    var es, fs := FlattenSources(sources), FlattenEntries(groups);
    forall i, j | 0 <= i < j < |es| ensures Before(SourceApath(es[i]), SourceApath(es[j])) {
      assert Before(SourceKey(fs[i]), SourceKey(fs[j]));
    }
  }

  // ----- what is kept of a file

  /** A basis entry for the same path that looks unchanged has this content. */
  ghost predicate FromBasis(basis: seq<IndexEntry>, p: Pushed) {
    exists b :: b in basis && b.apath == p.entry.apath && HeuristicallyUnchanged(p.entry, b) &&
                IdealContent(b.addrs) == Ok(p.bytes)
  }

  /** A front part of the file's content, and all of it if it is read in blocks. */
  predicate FromFile(files: map<Apath, Bytes>, p: Pushed, opts: Options) {
    p.entry.kindMeta.FileMeta? && p.entry.apath in files && p.bytes <= files[p.entry.apath] &&
    (p.entry.kindMeta.size > opts.smallFileCap ==> p.bytes == files[p.entry.apath])
  }

  ghost predicate TrueTo(files: map<Apath, Bytes>, basis: seq<IndexEntry>, p: Pushed, opts: Options) {
    if p.entry.kindMeta.FileMeta? && p.entry.kindMeta.size > 0
    then FromBasis(basis, p) || FromFile(files, p, opts)
    else FromBasis(basis, p) || p.bytes == []
  }

  /** A small file that is read is kept as what its one read delivered, without an error: whole exactly if that was all
      of it.  A large one is kept whole. */
  lemma KeptWholeExactly(files: map<Apath, Bytes>, w: Writer, s: Source, opts: Options)
    requires Delivered(files, s) && s.entry.kindMeta.FileMeta? && s.entry.kindMeta.size > 0
    requires !Unmodified(w, s) && IsRead(s, opts)
    ensures s.entry.apath in files && |Kept(w, s, opts)| == 1
    ensures
      var p, content := Kept(w, s, opts)[0], files[s.entry.apath];
      p.entry == s.entry && FromFile(files, p, opts) &&
      (p.bytes == content <==> s.entry.kindMeta.size > opts.smallFileCap || |s.read.small.bytes| == |content|)
    ensures !BlockStoreFails(w, s, opts) ==> Failures(w, s, opts) == 0
  {
    hide Unmodified;
  }

  lemma KeptTrue(files: map<Apath, Bytes>, basis: seq<IndexEntry>, w: Writer, s: Source, opts: Options)
    requires Delivered(files, s) && forall b :: b in w.basis ==> b in basis
    requires forall b :: b in basis ==> IdealContent(b.addrs).Ok?
    ensures forall p :: p in Kept(w, s, opts) ==> TrueTo(files, basis, p, opts)
    ensures forall b :: b in CopyEntry(w, s, opts).basis ==> b in basis
  {
    hide IdealContent, CountBlocks, Chunks, StoreAll, Classified;
    if Unmodified(w, s) && s.entry.kindMeta.FileMeta? {
      var b := Lookup(w.basis, s.entry.apath).value;
      assert FromBasis(basis, Pushed(s.entry, BasisContent(w, s.entry)));
    }
  }

  lemma {:induction false} KeptAllTrue(files: map<Apath, Bytes>, basis: seq<IndexEntry>, w: Writer, es: seq<Source>,
                                       opts: Options)
    requires (forall s :: s in es ==> Delivered(files, s)) && forall b :: b in w.basis ==> b in basis
    requires forall b :: b in basis ==> IdealContent(b.addrs).Ok?
    ensures forall p :: p in KeptAll(w, es, opts) ==> TrueTo(files, basis, p, opts)
    ensures forall b :: b in CopyAll(w, es, opts).basis ==> b in basis
    decreases es
  {
    hide Delivered, TrueTo, CopyEntry, Kept, IdealContent;
    if es != [] {
      var s := Prepared(es[0], opts);
      assert es[0] in es && forall t :: t in es[1..] ==> t in es;
      PreparedDelivered(files, es[0], opts);
      KeptTrue(files, basis, w, s, opts);
      KeptAllTrue(files, basis, CopyEntry(w, s, opts), es[1..], opts);
    }
  }

  lemma PreparedDelivered(files: map<Apath, Bytes>, s: Source, opts: Options)
    requires Delivered(files, s)
    ensures Delivered(files, Prepared(s, opts))
  {
  }

  /** Everything a run keeps is true to the files or to the basis. */
  lemma {:induction false} KeptTreeTrue(files: map<Apath, Bytes>, basis: seq<IndexEntry>, w: Writer,
                                        groups: seq<seq<Source>>, opts: Options)
    requires forall s :: s in FlattenSources(groups) ==> Delivered(files, s)
    requires forall b :: b in w.basis ==> b in basis
    requires forall b :: b in basis ==> IdealContent(b.addrs).Ok?
    ensures forall p :: p in KeptTree(w, groups, opts) ==> TrueTo(files, basis, p, opts)
    decreases groups
  {
    hide Delivered, TrueTo, CopyAll, KeptAll, IdealContent;
    if groups != [] {
      assert forall s :: s in groups[0] || s in FlattenSources(groups[1..]) ==> s in FlattenSources(groups);
      KeptAllTrue(files, basis, w, groups[0], opts);
      KeptTreeTrue(files, basis, FlushGroup(CopyAll(w, groups[0], opts)), groups[1..], opts);
    }
  }

  /** What an error-free run leaves to be read: exactly the given entries, in order, each true to its file or taken over
      from the basis. */
  ghost predicate ReadsBack(st: ArchiveState, st': ArchiveState, files: map<Apath, Bytes>, sources: seq<seq<Source>>,
                            opts: Options) {
    var tree := KeptFrom(st, sources, opts);
    AllRepresent(st'.blocks, Stitched(st'.bands, NextBandId(st.bands), None), tree) &&
    EntriesOf(tree) == Wished(FlattenSources(sources), opts) &&
    forall p :: p in tree ==> TrueTo(files, BasisOf(st.bands), p, opts)
  }

  lemma ErrorFreeRunReadsBack(st: ArchiveState, files: map<Apath, Bytes>, sources: seq<seq<Source>>, opts: Options)
    requires WellFormed(st) && InRangeBasis(st.bands) && Increasing(SourceApath, FlattenSources(sources))
    requires CopiedFrom(st, sources, opts).stats.errors == 0
    requires forall s :: s in FlattenSources(sources) ==> Delivered(files, s)
    ensures ReadsBack(st, BackUp(st, sources, opts), files, sources, opts)
  {
    hide Delivered, TrueTo;
    hide CopyGroups, KeptTree, AllFailures, BasisOf, Increasing, WellFormed, Wished, AllBlockStoreFailures, BackUp,
         Stitched;
    var w := Begin(st.blocks, BasisOf(st.bands));
    ErrorsAccountedFor(w, sources, opts);
    BeginNoErrors(st.blocks, BasisOf(st.bands));
    GroupsLeaveNoErrors(w, sources, opts);
    NothingLeftOut(w, sources, opts);
    BackUpReadsBack(st, sources, opts);
    KeptTreeTrue(files, BasisOf(st.bands), w, sources, opts);
  }

  lemma BeginNoErrors(blocks: Blocks, basis: seq<IndexEntry>)
    ensures Errors(Begin(blocks, basis)) == 0 && Begin(blocks, basis).combiner.stats.errors == 0
  {
  }

  lemma CopyCombinerErrors(w: Writer, s: Source, opts: Options)
    ensures CopyEntry(w, s, opts).combiner.stats.errors == w.combiner.stats.errors
  {
    hide Lookup, After, Classified, Unmodified, CountBlocks, StoreAll, Chunks;
  }

  lemma {:induction false} CopyAllCombinerErrors(w: Writer, es: seq<Source>, opts: Options)
    ensures CopyAll(w, es, opts).combiner.stats.errors == w.combiner.stats.errors
    decreases es
  {
    hide CopyEntry, Prepared;
    if es != [] {
      CopyCombinerErrors(w, Prepared(es[0], opts), opts);
      CopyAllCombinerErrors(CopyEntry(w, Prepared(es[0], opts), opts), es[1..], opts);
    }
  }

  /** The combiner counts no errors of its own. */
  lemma {:induction false} GroupsLeaveNoErrors(w: Writer, groups: seq<seq<Source>>, opts: Options)
    requires w.combiner.stats.errors == 0
    ensures CopyGroups(w, groups, opts).combiner.stats.errors == 0
    decreases groups
  {
    hide CopyAll;
    if groups != [] {
      CopyAllCombinerErrors(w, groups[0], opts);
      GroupsLeaveNoErrors(FlushGroup(CopyAll(w, groups[0], opts)), groups[1..], opts);
    }
  }

  datatype BackupError = Locked | BlockNotStored

  /** The basis is read from the band that is last before the new one is created. */
  method OpenBasis(archive: Archive) returns (basisIndex: IndexEntryIter, last: Option<nat>)
    requires WellFormedBands(archive.bands)
    ensures fresh(basisIndex) && fresh(basisIndex.hunkIter) && basisIndex.hunkIter.archive == archive
    ensures basisIndex.Valid() && basisIndex.buffered == [] && basisIndex.hunkIter.indexHunks == null
    ensures last == LastBandId(archive.bands) && basisIndex.hunkIter.lastApath == None
    ensures basisIndex.hunkIter.state == if last.Some? then BeforeBand(last.value) else Done
  {
    hide InOrder, Stitched;
    last := GarbageCollection.FindLastBand(archive.bands);
    var hunkIter;
    if last.Some? {
      hunkIter := new IterStitchedIndexHunks(archive, last.value);
    } else {
      hunkIter := new IterStitchedIndexHunks.Empty(archive);
    }
    basisIndex := new IndexEntryIter(hunkIter, Root, ExcludeNothing);
  }

  lemma BasisSurvives(bands: Bands, band: nat)
    requires WellFormedBands(bands) && band == NextBandId(bands)
    ensures
      var bands' := bands[band := BandFiles(Usable, false, [])];
      WellFormedBands(bands') && InOrder(BasisOf(bands)) &&
      match LastBandId(bands)
      case None => BasisOf(bands) == []
      case Some(last) => Stitched(bands', last, None) == BasisOf(bands)
  {
    hide InOrder, Stitched;
    var bands' := bands[band := BandFiles(Usable, false, [])];
    NoEntriesInOrder();
    if LastBandId(bands).Some? {
      StitchedDependsOnOlder(bands, bands', LastBandId(bands).value, None);
      StitchedInOrder(bands, LastBandId(bands).value, None);
    }
  }

  lemma NoEntriesInOrder()
    ensures InOrder([]) && BandEntries([]) == []
  {
  }

  /** Find the basis, and only then create the new band. */
  method BeginBackup(blockDir: BlockDir, files: map<Apath, Bytes>, flaky: Apath -> bool, opts: Options)
    returns (writer: BackupWriter, band: nat)
    requires blockDir.Honest() && Sound(blockDir.archive.blocks) && WellFormedBands(blockDir.archive.bands)
    modifies blockDir.archive`bands
    ensures blockDir.Honest() && writer.Valid() && writer.blockDir == blockDir
    ensures writer.files == files && writer.flaky == flaky && writer.opts == opts
    ensures fresh(writer) && fresh(writer.combiner) && fresh(writer.basisIndex) && fresh(writer.basisIndex.hunkIter)
    ensures writer.basisIndex.hunkIter.indexHunks == null
    ensures band == NextBandId(old(blockDir.archive.bands))
    ensures blockDir.archive.bands == old(blockDir.archive.bands)[band := BandFiles(Usable, false, [])]
    ensures writer.View() == Begin(blockDir.archive.blocks, BasisOf(old(blockDir.archive.bands)))
  {
    hide Stitched, Sound, LastBandId, InOrder, WellFormedBands, BasisOf;
    var archive := blockDir.archive;
    var basisIndex, last := OpenBasis(archive);
    band := if last.Some? then last.value + 1 else 0;
    BasisSurvives(archive.bands, band);
    ghost var basis := BasisOf(archive.bands);
    archive.bands := archive.bands[band := BandFiles(Usable, false, [])];
    assert basisIndex.Rest() == basis by {
      assert [] + basis == basis;
    }
    writer := new BackupWriter(blockDir, basisIndex, files, flaky, opts);
  }

  /** What a backup has done to the archive.  A locked one is unchanged.  Otherwise it is exactly `BackUp` of the tree
      as it was read, or, when a combined block cannot be stored at the end of a group, an open band with the hunks of
      the groups before.  Blocks are only ever added.  And if no errors are reported, the band reads back. */
  ghost predicate Outcome(st: ArchiveState, st': ArchiveState, files: map<Apath, Bytes>, groups: seq<seq<EntryValue>>,
                          opts: Options, r: Result<Stats, BackupError>, sources: seq<seq<Source>>,
                          partial: seq<Source>) {
    Sound(st'.blocks) && Extends(st'.blocks, st.blocks) &&
    match r
    case Err(Locked) => st' == st
    case Err(BlockNotStored) =>
      |sources| < |groups| && Attempt(files, sources + [partial], groups) &&
      st'.bands == Interrupted(st, sources, opts).bands &&
      st'.blocks == CopyAll(CopiedFrom(st, sources, opts), partial, opts).blocks
    case Ok(stats) =>
      |sources| == |groups| && st' == BackUp(st, sources, opts) && stats == CopiedFrom(st, sources, opts).stats &&
      (stats.errors == 0 && Increasing(SourceKey, FlattenEntries(groups)) && InRangeBasis(st.bands) ==>
        ReadsBack(st, st', files, sources, opts))
  }

  lemma WriterShows(writer: BackupWriter)
    requires writer.Valid()
    ensures writer.View().hunks == writer.hunks && writer.View().stats == writer.stats
    ensures writer.View().blocks == writer.blockDir.archive.blocks && writer.blockDir.Honest()
  {
  }

  lemma WellFormedParts(bands: Bands, blocks: Blocks)
    requires WellFormed(ArchiveState(bands, blocks))
    ensures WellFormedBands(bands) && Sound(blocks)
  {
  }

  lemma NoFailuresNoErrors(st: ArchiveState, sources: seq<seq<Source>>, opts: Options)
    ensures AllFailures(Begin(st.blocks, BasisOf(st.bands)), sources, opts) == 0 ==>
      CopiedFrom(st, sources, opts).stats.errors == 0
  {
    hide CopyGroups, BasisOf, AllFailures;
    var w := Begin(st.blocks, BasisOf(st.bands));
    BeginNoErrors(st.blocks, BasisOf(st.bands));
    ErrorsAccountedFor(w, sources, opts);
  }

  lemma CopiedFromBegin(st: ArchiveState, sources: seq<seq<Source>>, opts: Options)
    ensures CopiedFrom(st, sources, opts) == CopyGroups(Begin(st.blocks, BasisOf(st.bands)), sources, opts)
  {
  }

  /** Find the basis, create a band, copy the tree into it and close it; `w` is where the writer ends. */
  method CopyIntoBand(blockDir: BlockDir, files: map<Apath, Bytes>, flaky: Apath -> bool,
                      groups: seq<seq<EntryValue>>, opts: Options)
    returns (ok: bool, stats: Stats, sources: seq<seq<Source>>, partial: seq<Source>, ghost w: Writer)
    requires blockDir.Honest() && WellFormed(ArchiveState(blockDir.archive.bands, blockDir.archive.blocks))
    modifies blockDir, blockDir.archive`bands, blockDir.archive`blocks
    ensures blockDir.Honest() && Attempt(files, sources, groups)
    ensures blockDir.archive.blocks == w.blocks && (ok ==> stats == w.stats)
    ensures
      var bands := old(blockDir.archive.bands);
      blockDir.archive.bands == bands[NextBandId(bands) := BandFiles(Usable, ok, w.hunks)]
    ensures
      var copied := CopiedFrom(old(ArchiveState(blockDir.archive.bands, blockDir.archive.blocks)), sources, opts);
      if ok then |sources| == |groups| && w == copied
      else |sources| < |groups| && Attempt(files, sources + [partial], groups) && w == CopyAll(copied, partial, opts)
    ensures NothingFails(blockDir.archive, files, flaky, groups) ==> ok && AllAnswered(sources) && w.stats.errors == 0
  {
    hide *;
    var archive := blockDir.archive;
    WellFormedParts(archive.bands, archive.blocks);
    var writer, band := BeginBackup(blockDir, files, flaky, opts);
    ok, sources, partial := CopyTree(writer, groups);
    CopiedFromBegin(old(ArchiveState(blockDir.archive.bands, blockDir.archive.blocks)), sources, opts);
    NoFailuresNoErrors(old(ArchiveState(blockDir.archive.bands, blockDir.archive.blocks)), sources, opts);
    w := CopiedFrom(old(ArchiveState(blockDir.archive.bands, blockDir.archive.blocks)), sources, opts);
    w := if ok then w else CopyAll(w, partial, opts);
    stats := writer.stats;
    FailedFlush(w.combiner, w.blocks);
    WriterShows(writer);
    archive.bands := archive.bands[band := BandFiles(Usable, ok, writer.hunks)];
  }

  /** A whole backup: refuse a locked archive, find the basis, create a band, copy the tree, close the band.
      What it does to the archive is exactly `BackUp` of the tree as it was read, or, when a combined block
      cannot be stored at the end of a group, an open band with the hunks of the groups before.  If it reports
      no errors, its band reads back as exactly the given entries, each with the content of its file, if that is
      large, with a front part of it, or with the content of its basis entry if it was taken over. */
  method RunBackup(blockDir: BlockDir, files: map<Apath, Bytes>, flaky: Apath -> bool, groups: seq<seq<EntryValue>>,
                   opts: Options)
    returns (r: Result<Stats, BackupError>, sources: seq<seq<Source>>, partial: seq<Source>)
    requires blockDir.Honest() && WellFormed(ArchiveState(blockDir.archive.bands, blockDir.archive.blocks))
    modifies blockDir, blockDir.archive`bands, blockDir.archive`blocks
    ensures blockDir.Honest() && Attempt(files, sources, groups)
    ensures r == Err(Locked) <==> blockDir.archive.gcLock
    ensures NothingFails(blockDir.archive, files, flaky, groups) && !blockDir.archive.gcLock ==>
      r.Ok? && r.value.errors == 0 && AllAnswered(sources)
    ensures Outcome(old(ArchiveState(blockDir.archive.bands, blockDir.archive.blocks)),
                    ArchiveState(blockDir.archive.bands, blockDir.archive.blocks), files, groups, opts, r, sources,
                    partial)
  {
    hide Outcome, CopiedFrom, CopyAll, NextBandId, WellFormed, Sound, Delivered, Attempt, Extends, NothingFails;
    var archive := blockDir.archive;
    ghost var st := ArchiveState(archive.bands, archive.blocks);
    if archive.gcLock {
      LockedOutcome(st, files, groups, opts);
      return Err(Locked), [], [];
    }
    var ok, stats; ghost var w;
    ok, stats, sources, partial, w := CopyIntoBand(blockDir, files, flaky, groups, opts);
    r := if ok then Ok(stats) else Err(BlockNotStored);
    UnlockedOutcome(st, files, groups, opts, ok, sources, partial, w);
  }

  lemma LockedOutcome(st: ArchiveState, files: map<Apath, Bytes>, groups: seq<seq<EntryValue>>, opts: Options)
    requires WellFormed(st)
    ensures Outcome(st, st, files, groups, opts, Err(Locked), [], []) && Attempt(files, [], groups)
  {
    ExtendsItself(st.blocks);
  }

  lemma UnlockedOutcome(st: ArchiveState, files: map<Apath, Bytes>, groups: seq<seq<EntryValue>>, opts: Options,
                        ok: bool, sources: seq<seq<Source>>, partial: seq<Source>, w: Writer)
    requires WellFormed(st) && Attempt(files, sources, groups)
    requires
      var copied := CopiedFrom(st, sources, opts);
      if ok then |sources| == |groups| && w == copied
      else |sources| < |groups| && Attempt(files, sources + [partial], groups) && w == CopyAll(copied, partial, opts)
    ensures
      var st' := ArchiveState(st.bands[NextBandId(st.bands) := BandFiles(Usable, ok, w.hunks)], w.blocks);
      Outcome(st, st', files, groups, opts, if ok then Ok(w.stats) else Err(BlockNotStored), sources, partial)
  {
    hide CopyGroups, CopyAll, BasisOf, NextBandId, Begin, WellFormedBands, Sound, Extends, Increasing, ReadsBack,
         InRangeBasis, Delivered, Attempt, FlattenEntries;
    BlocksOnlyAdded(st, Begin(st.blocks, BasisOf(st.bands)), sources, partial, opts);
    if ok {
      RunReadsBack(st, files, sources, groups, opts);
    }
  }

  lemma RunReadsBack(st: ArchiveState, files: map<Apath, Bytes>, sources: seq<seq<Source>>,
                     groups: seq<seq<EntryValue>>, opts: Options)
    requires WellFormed(st) && Attempt(files, sources, groups) && |sources| == |groups|
    ensures
      (CopiedFrom(st, sources, opts).stats.errors == 0 && Increasing(SourceKey, FlattenEntries(groups)) &&
       InRangeBasis(st.bands)) ==> ReadsBack(st, BackUp(st, sources, opts), files, sources, opts)
  {
    hide CopiedFrom, InRangeBasis, ReadsBack, BackUp, Increasing, WellFormed, Delivered, Attempt;
    if CopiedFrom(st, sources, opts).stats.errors == 0 && Increasing(SourceKey, FlattenEntries(groups)) &&
      InRangeBasis(st.bands) {
      AttemptIncreasing(files, sources, groups);
      AttemptFlat(files, sources, groups);
      ErrorFreeRunReadsBack(st, files, sources, opts);
    }
  }

  lemma BlocksOnlyAdded(st: ArchiveState, start: Writer, sources: seq<seq<Source>>, partial: seq<Source>, opts: Options)
    requires Sound(st.blocks) && start == Begin(st.blocks, BasisOf(st.bands))
    ensures
      var w := CopyGroups(start, sources, opts);
      var w' := CopyAll(w, partial, opts);
      Sound(w.blocks) && Extends(w.blocks, st.blocks) && Sound(w'.blocks) && Extends(w'.blocks, st.blocks) &&
        w'.hunks == w.hunks
  {
    hide CopyGroups, CopyAll, Sound, Extends, BasisOf;
    CopyGroupsExtends(start, sources, opts);
    var w := CopyGroups(start, sources, opts);
    CopyAllExtends(w, partial, opts);
    ExtendsTransitive(CopyAll(w, partial, opts).blocks, w.blocks, st.blocks);
  }
}
