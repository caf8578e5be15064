/** What a file is compared with: the basis moves forward during a backup, and still every file is looked up in
    all of it (src/backup.rs, src/index.rs). */
module BasisLookups {
  import opened Base
  import opened Apaths
  import opened Entries
  import opened Sorting
  import opened Storage
  import opened Index
  import opened EntryIter
  import opened BlockDirs
  import opened Content
  import opened BackupStatistics
  import opened Combining
  import opened Backup

  ghost predicate AllBefore(es: seq<Source>, p: Apath) {
    forall s :: s in es ==> Before(s.entry.apath, p)
  }

  lemma CopyEntryBasis(w: Writer, s: Source, opts: Options)
    ensures CopyEntry(w, s, opts).basis ==
      if s.entry.kindMeta.FileMeta? then After(Some(s.entry.apath), w.basis) else w.basis
  {
  }

  lemma {:induction false} LookupAfterGroup(w: Writer, es: seq<Source>, opts: Options, p: Apath)
    requires InOrder(w.basis) && AllBefore(es, p)
    ensures InOrder(CopyAll(w, es, opts).basis) && Lookup(CopyAll(w, es, opts).basis, p) == Lookup(w.basis, p)
    decreases es
  {
    hide Before, InOrder, CopyEntry, Lookup;
    if es != [] {
      var s := Prepared(es[0], opts);
      assert es[0] in es && forall t :: t in es[1..] ==> t in es;
      CopyEntryBasis(w, s, opts);
      if s.entry.kindMeta.FileMeta? {
        AfterInOrder(Some(s.entry.apath), w.basis);
        LookupAfter(w.basis, Some(s.entry.apath), p);
      }
      LookupAfterGroup(CopyEntry(w, s, opts), es[1..], opts, p);
    }
  }

  lemma {:induction false} LookupAfterGroups(w: Writer, groups: seq<seq<Source>>, opts: Options, p: Apath)
    requires InOrder(w.basis) && AllBefore(FlattenSources(groups), p)
    ensures InOrder(CopyGroups(w, groups, opts).basis)
    ensures Lookup(CopyGroups(w, groups, opts).basis, p) == Lookup(w.basis, p)
    decreases groups
  {
    hide Before, InOrder, CopyAll, Lookup;
    if groups != [] {
      var group, rest := groups[0], FlattenSources(groups[1..]);
      assert forall t :: t in group || t in rest ==> t in group + rest;
      LookupAfterGroup(w, group, opts, p);
      LookupAfterGroups(FlushGroup(CopyAll(w, group, opts)), groups[1..], opts, p);
    }
  }

  /** The writer when it comes to entry `i` of a group, after some groups before it. */
  function WriterAt(w: Writer, before: seq<seq<Source>>, group: seq<Source>, i: nat, opts: Options): Writer
    requires i < |group|
  {
    CopyAll(CopyGroups(w, before, opts), group[..i], opts)
  }

  /** At every file of a backup whose sources come in path order, what the forward-moving basis answers is the
      entry that the whole basis has for that path. */
  lemma EveryLookupIsWhole(w: Writer, before: seq<seq<Source>>, group: seq<Source>, i: nat, opts: Options)
    requires InOrder(w.basis) && i < |group| && Increasing(SourceApath, FlattenSources(before) + group)
    ensures Lookup(WriterAt(w, before, group, i, opts).basis, group[i].entry.apath) ==
      Lookup(w.basis, group[i].entry.apath)
  {
    hide Before, InOrder, CopyAll, CopyGroups, Lookup;
    var p, earlier := group[i].entry.apath, FlattenSources(before);
    forall s | s in earlier ensures Before(s.entry.apath, p) {
      GroupBeforeRest(earlier, group, s, group[i]);
    }
    IncreasingParts(earlier, group);
    forall s | s in group[..i] ensures Before(s.entry.apath, p) {
      var k :| 0 <= k < i && group[..i][k] == s;
      assert Before(SourceApath(group[k]), SourceApath(group[i]));
    }
    LookupAfterGroups(w, before, opts, p);
    LookupAfterGroup(CopyGroups(w, before, opts), group[..i], opts, p);
  }

  // ----- which files are taken over

  /** The basis records a file at this path with the same time, to the nanosecond, and the same length. */
  predicate LooksUnchanged(b: IndexEntry, e: EntryValue) {
    b.apath == e.apath && b.kind == File && e.kindMeta.FileMeta? &&
    b.mtime * 1_000_000_000 + b.mtimeNanos == e.mtime && TotalLen(b.addrs) == e.kindMeta.size
  }

  predicate AllThere(blocks: Blocks, addrs: seq<Address>) {
    forall a :: a in addrs ==> a.hash in blocks && blocks[a.hash] != EmptyFile
  }

  ghost predicate RecordedAt(basis: seq<IndexEntry>, p: Apath) {
    exists b :: b in basis && b.apath == p
  }

  ghost predicate RecordedSame(basis: seq<IndexEntry>, e: EntryValue) {
    exists b :: b in basis && LooksUnchanged(b, e)
  }

  ghost predicate CanTakeOver(basis: seq<IndexEntry>, blocks: Blocks, s: Source) {
    s.answered && exists b :: b in basis && LooksUnchanged(b, s.entry) && AllThere(blocks, b.addrs)
  }

  /** How a file is counted, given what the basis has for it. */
  predicate CountedAs(before: Stats, after: Stats, recorded: bool, same: bool, taken: bool) {
    after.files == before.files + 1 &&
    after.newFiles == before.newFiles + (if recorded then 0 else 1) &&
    after.unmodifiedFiles == before.unmodifiedFiles + (if taken then 1 else 0) &&
    after.modifiedFiles == before.modifiedFiles + (if recorded && !taken then 1 else 0) &&
    after.replacedDamagedBlocks == before.replacedDamagedBlocks + (if same && !taken then 1 else 0)
  }

  /** A file taken over becomes an entry with its own metadata and the basis entry's addresses; nothing is stored. */
  ghost predicate TakenFrom(basis: seq<IndexEntry>, before: Writer, after: Writer, e: EntryValue) {
    after.blocks == before.blocks && after.combiner == before.combiner && after.hunks == before.hunks &&
    after.stats.errors == before.stats.errors && |after.queue| == |before.queue| + 1 && before.queue <= after.queue &&
    var x := after.queue[|before.queue|];
    SameMetadata(x, e) && exists b :: b in basis && LooksUnchanged(b, e) && x.addrs == b.addrs
  }

  lemma LookupMeans(basis: seq<IndexEntry>, e: EntryValue)
    requires InOrder(basis) && e.kindMeta.FileMeta?
    ensures
      var b := Lookup(basis, e.apath);
      (b.Some? <==> RecordedAt(basis, e.apath)) &&
      (b.Some? && HeuristicallyUnchanged(e, b.value) <==> RecordedSame(basis, e)) &&
      (RecordedSame(basis, e) ==> forall c :: c in basis && c.apath == e.apath ==> c == b.value)
  {
    hide InOrder;
    forall c | c in basis && c.apath == e.apath ensures Lookup(basis, e.apath) == Some(c) {
      LookupIs(basis, c);
    }
  }

  lemma CopiedFileCounts(w: Writer, s: Source, opts: Options)
    requires s.entry.kindMeta.FileMeta?
    ensures
      var after, classified := CopyEntry(w, s, opts).stats, Classified(w, s);
      after.files == classified.files && after.newFiles == classified.newFiles &&
      after.unmodifiedFiles == classified.unmodifiedFiles && after.modifiedFiles == classified.modifiedFiles &&
      after.replacedDamagedBlocks == classified.replacedDamagedBlocks
  {
    hide Classified, Unmodified, Lookup, After, StoreAll, Chunks;
    if !Unmodified(w, s) && s.entry.kindMeta.size > opts.smallFileCap && s.read.Reads? {
      match s.read.large
      case LargeFailed(stored) => BlocksCountNoFiles(Classified(w, s), w.blocks, stored);
      case LargeOk(content) =>
        BlocksCountNoFiles(Classified(w, s), w.blocks, Chunks(content, opts.maxBlockSize));
    }
  }

  lemma {:induction false} BlocksCountNoFiles(st: Stats, blocks: Blocks, chunks: seq<Bytes>)
    ensures
      var after := CountBlocks(st, blocks, chunks);
      after.files == st.files && after.newFiles == st.newFiles && after.unmodifiedFiles == st.unmodifiedFiles &&
      after.modifiedFiles == st.modifiedFiles && after.replacedDamagedBlocks == st.replacedDamagedBlocks
    decreases chunks
  {
    if chunks != [] {
      BlocksCountNoFiles(st.CountBlock(|chunks[0]|, Contains(blocks, HashBytes(chunks[0]))),
                         StoreBlock(blocks, chunks[0]), chunks[1..]);
    }
  }

  lemma TakenOverHere(basis: seq<IndexEntry>, w: Writer, s: Source, opts: Options)
    requires InOrder(basis) && s.entry.kindMeta.FileMeta?
    requires Lookup(w.basis, s.entry.apath) == Lookup(basis, s.entry.apath)
    ensures
      var e, w' := s.entry, CopyEntry(w, s, opts);
      var taken := CanTakeOver(basis, w.blocks, s);
      CountedAs(w.stats, w'.stats, RecordedAt(basis, e.apath), RecordedSame(basis, e), taken) &&
      (taken ==> TakenFrom(basis, w, w', e))
  {
    hide InOrder, Lookup, After, StoreFile, HeuristicallyUnchanged;
    var e, b := s.entry, Lookup(basis, s.entry.apath);
    LookupMeans(basis, e);
    CopiedFileCounts(w, s, opts);
    assert b.Some? ==> (AllBlocksPresent(w.blocks, b.value.addrs) <==> AllThere(w.blocks, b.value.addrs));
    assert Unmodified(w, s) <==> CanTakeOver(basis, w.blocks, s) by { SameAtPath(basis, w, s); }
    if Unmodified(w, s) {
      MetadataKept(e, b.value.addrs);
      var c :| c in basis && LooksUnchanged(c, e);
      assert c == b.value;
    }
  }

  lemma SameAtPath(basis: seq<IndexEntry>, w: Writer, s: Source)
    requires InOrder(basis) && s.entry.kindMeta.FileMeta?
    requires Lookup(w.basis, s.entry.apath) == Lookup(basis, s.entry.apath)
    ensures Unmodified(w, s) <==> CanTakeOver(basis, w.blocks, s)
  {
    hide InOrder, Lookup, HeuristicallyUnchanged;
    LookupMeans(basis, s.entry);
    var b := Lookup(basis, s.entry.apath);
    if Unmodified(w, s) {
      var c :| c in basis && LooksUnchanged(c, s.entry);
      assert c == b.value;
      assert AllThere(w.blocks, c.addrs);
    }
  }

  /** So at every file of a backup whose sources come in path order: it is taken over, and counted as unmodified, if and
      only if the whole basis records a file at its path with the same time and length whose blocks are all there and
      answered for; and it is new if and only if the whole basis records nothing there. */
  lemma TakenOverExactly(w: Writer, before: seq<seq<Source>>, group: seq<Source>, i: nat, opts: Options)
    requires InOrder(w.basis) && i < |group| && Increasing(SourceApath, FlattenSources(before) + group)
    requires group[i].entry.kindMeta.FileMeta?
    ensures
      var w1, s := WriterAt(w, before, group, i, opts), Prepared(group[i], opts);
      var e, w2 := s.entry, CopyEntry(w1, s, opts);
      var taken := CanTakeOver(w.basis, w1.blocks, s);
      CountedAs(w1.stats, w2.stats, RecordedAt(w.basis, e.apath), RecordedSame(w.basis, e), taken) &&
      (taken ==> TakenFrom(w.basis, w1, w2, e))
  {
    hide Lookup, InOrder, WriterAt, Increasing, CopyEntry, CountedAs, TakenFrom, CanTakeOver, RecordedAt, RecordedSame;
    EveryLookupIsWhole(w, before, group, i, opts);
    TakenOverHere(w.basis, WriterAt(w, before, group, i, opts), Prepared(group[i], opts), opts);
  }
}
