/** A whole backup: copying a source tree into a new band (src/backup.rs). */
module Backup {
  import opened Base
  import opened Apaths
  import opened Entries
  import opened Sorting
  import opened Storage
  import opened Index
  import opened Stitch
  import opened EntryIter
  import opened BlockDirs
  import opened Content
  import opened BackupStatistics
  import opened Combining

  datatype BackupOptions = BackupOptions(maxBlockSize: nat, smallFileCap: nat, owner: bool)

  /** A block size of zero makes no sense: no file could be read. */
  type Options = o: BackupOptions | o.maxBlockSize > 0 witness BackupOptions(1, 0, true)

  /** Reading a large file: `stored` are the blocks stored before a failure. */
  datatype LargeRead = LargeFailed(stored: seq<Bytes>) | LargeOk(content: Bytes)

  datatype FileRead = OpenFailed | Reads(small: ReadOutcome, large: LargeRead)

  /** A source entry with what the environment does when it is copied: how reading it and storing a
      combined block come out, and whether every question about a block's presence is answered. */
  datatype Source = Source(entry: EntryValue, read: FileRead, storeOk: bool, answered: bool)

  // ----- the writer, step by step

  /** `queue` are index entries waiting for the next hunk; `basis` is what is left of the basis index. */
  datatype Writer = Writer(
    queue: seq<IndexEntry>, hunks: seq<Hunk>, combiner: Combiner, blocks: Blocks, basis: seq<IndexEntry>, stats: Stats)

  function Begin(blocks: Blocks, basis: seq<IndexEntry>): Writer {
    Writer([], [], EMPTY, blocks, basis, ZERO)
  }

  predicate HeuristicallyUnchanged(e: EntryValue, basis: IndexEntry) {
    basis.kind == e.Kind() && basis.Time() == e.mtime && basis.Size() == e.Size()
  }

  predicate AllBlocksPresent(blocks: Blocks, addrs: seq<Address>) {
    forall a :: a in addrs ==> Contains(blocks, a.hash)
  }

  /** A file is taken over from the basis if its content is taken to be unchanged and its blocks are
      found present; a question that gets no answer counts as a missing block. */
  predicate Unmodified(w: Writer, s: Source) {
    var b := Lookup(w.basis, s.entry.apath);
    b.Some? && HeuristicallyUnchanged(s.entry, b.value) && s.answered && AllBlocksPresent(w.blocks, b.value.addrs)
  }

  /** Counting a file as new, modified or unmodified, given its basis entry and whether the blocks of that are there. */
  function Counted(st: Stats, e: EntryValue, basis: Option<IndexEntry>, present: bool): Stats {
    var st := st.(files := st.files + 1);
    if basis.None? then st.(newFiles := st.newFiles + 1)
    else if !HeuristicallyUnchanged(e, basis.value) then st.(modifiedFiles := st.modifiedFiles + 1)
    else if present then st.(unmodifiedFiles := st.unmodifiedFiles + 1)
    else st.(modifiedFiles := st.modifiedFiles + 1, replacedDamagedBlocks := st.replacedDamagedBlocks + 1)
  }

  function Classified(w: Writer, s: Source): Stats {
    var b := Lookup(w.basis, s.entry.apath);
    Counted(w.stats, s.entry, b, b.Some? && s.answered && AllBlocksPresent(w.blocks, b.value.addrs))
  }

  function Failed(w: Writer): Writer {
    w.(stats := w.stats.(errors := w.stats.errors + 1))
  }

  /** Store the content of a file that is new, modified or damaged. */
  function StoreFile(w: Writer, s: Source, opts: Options): Writer
    requires s.entry.kindMeta.FileMeta?
  {
    var e := s.entry;
    if e.kindMeta.size == 0 then
      w.(queue := w.queue + [MetadataFrom(e)], stats := w.stats.(emptyFiles := w.stats.emptyFiles + 1))
    else if s.read.OpenFailed? then Failed(w)
    else if e.kindMeta.size <= opts.smallFileCap then
      var (c, blocks) := Push(w.combiner, w.blocks, e, s.read.small, opts.maxBlockSize, s.storeOk);
      var w' := w.(combiner := c, blocks := blocks);
      if PushFails(w.combiner, e, s.read.small, opts.maxBlockSize, s.storeOk) then Failed(w') else w'
    else
      match s.read.large
      case LargeFailed(stored) =>
        Failed(w.(blocks := StoreAll(w.blocks, stored), stats := CountBlocks(w.stats, w.blocks, stored)))
      case LargeOk(content) =>
        var chunks := Chunks(content, opts.maxBlockSize);
        w.(queue := w.queue + [MetadataFrom(e).(addrs := WholeAddresses(chunks))],
           blocks := StoreAll(w.blocks, chunks),
           stats := CountFile(CountBlocks(w.stats, w.blocks, chunks), |chunks|))
  }

  function CopyFile(w: Writer, s: Source, opts: Options): Writer
    requires s.entry.kindMeta.FileMeta?
  {
    var e := s.entry;
    var looked := w.(stats := Classified(w, s), basis := After(Some(e.apath), w.basis));
    if Unmodified(w, s)
    then looked.(queue := w.queue + [MetadataFrom(e).(addrs := Lookup(w.basis, e.apath).value.addrs)])
    else StoreFile(looked, s, opts)
  }

  /** Copy one entry; an error is counted and the entry is skipped. */
  function CopyEntry(w: Writer, s: Source, opts: Options): Writer
  {
    match s.entry.kindMeta
    case DirMeta =>
      w.(queue := w.queue + [MetadataFrom(s.entry)], stats := w.stats.(directories := w.stats.directories + 1))
    case SymlinkMeta(_) =>
      w.(queue := w.queue + [MetadataFrom(s.entry)], stats := w.stats.(symlinks := w.stats.symlinks + 1))
    case UnknownMeta => w.(stats := w.stats.(unknownKind := w.stats.unknownKind + 1))
    case FileMeta(_) => CopyFile(w, s, opts)
  }

  /** The owner is recorded only if asked for. */
  function Prepared(s: Source, opts: Options): Source {
    if opts.owner then s else s.(entry := s.entry.(owner := Owner(None, None)))
  }

  function CopyAll(w: Writer, es: seq<Source>, opts: Options): Writer
    decreases es
  {
    if es == [] then w else CopyAll(CopyEntry(w, Prepared(es[0], opts), opts), es[1..], opts)
  }

  /** The hunk for some queued entries; an empty queue makes none. */
  function HunkOf(entries: seq<IndexEntry>): seq<Hunk> {
    if entries == [] then [] else [Entries(Sort(EntryKey, entries))]
  }

  /** End a group: flush the combined block, then write everything queued as the next hunk. */
  function FlushGroup(w: Writer): Writer {
    var (c, blocks) := Flush(w.combiner, w.blocks, true);
    var entries := w.queue + c.finished;
    Writer([], w.hunks + HunkOf(entries),
           c.(finished := [], stats := ZERO), blocks, w.basis, w.stats.Plus(c.stats))
  }

  /** Copy the tree group by group; every group's combined block can be stored. */
  function CopyGroups(w: Writer, groups: seq<seq<Source>>, opts: Options): Writer
    decreases groups
  {
    if groups == [] then w else CopyGroups(FlushGroup(CopyAll(w, groups[0], opts)), groups[1..], opts)
  }

  // ----- what a run can do to a file

  /** The content a file has for the backup: the bytes that its reads deliver. */
  function ContentOf(s: Source, opts: Options): Bytes {
    if !s.entry.kindMeta.FileMeta? || s.entry.kindMeta.size == 0 || s.read.OpenFailed? then []
    else if s.entry.kindMeta.size <= opts.smallFileCap then (if s.read.small.Got? then s.read.small.bytes else [])
    else if s.read.large.LargeOk? then s.read.large.content else []
  }

  /** The file can be opened and read to its end, and blocks of its own can be stored. */
  predicate IsRead(s: Source, opts: Options)
    requires s.entry.kindMeta.FileMeta?
  {
    s.entry.kindMeta.size > 0 ==>
      s.read.Reads? && (s.entry.kindMeta.size <= opts.smallFileCap ==> s.read.small.Got?) &&
      (s.entry.kindMeta.size > opts.smallFileCap ==> s.read.large.LargeOk?)
  }

  /** Copying this entry fills the combined block, and storing that block fails. */
  predicate BlockStoreFails(w: Writer, s: Source, opts: Options) {
    s.entry.kindMeta.FileMeta? && !Unmodified(w, s) && 0 < s.entry.kindMeta.size <= opts.smallFileCap &&
    s.read.Reads? && Fills(w.combiner, s.entry, s.read.small, opts.maxBlockSize) && !s.storeOk
  }

  function BlockStoreFailures(w: Writer, es: seq<Source>, opts: Options): nat
    decreases es
  {
    if es == [] then 0
    else (if BlockStoreFails(w, Prepared(es[0], opts), opts) then 1 else 0) +
         BlockStoreFailures(CopyEntry(w, Prepared(es[0], opts), opts), es[1..], opts)
  }

  function AllBlockStoreFailures(w: Writer, groups: seq<seq<Source>>, opts: Options): nat
    decreases groups
  {
    if groups == [] then 0
    else BlockStoreFailures(w, groups[0], opts) +
         AllBlockStoreFailures(FlushGroup(CopyAll(w, groups[0], opts)), groups[1..], opts)
  }

  /** A file that is neither taken over nor read is left out of the backup. */
  predicate IsSkipped(w: Writer, s: Source, opts: Options) {
    s.entry.kindMeta.FileMeta? && !Unmodified(w, s) && !IsRead(s, opts)
  }

  // ----- addresses read from the blocks they name

  function IdealRange(a: Address): Result<Bytes, BlockError> {
    if a.start + a.len > |a.hash.preimage| then Err(BlockTooShort(|a.hash.preimage|, a.len))
    else Ok(a.hash.preimage[a.start..a.start + a.len])
  }

  /** What addresses stand for, whether or not their blocks are still present. */
  function IdealContent(addrs: seq<Address>): Result<Bytes, BlockError> {
    if addrs == [] then Ok([])
    else
      match IdealRange(addrs[0])
      case Err(e) => Err(e)
      case Ok(first) => Prepend(first, IdealContent(addrs[1..]))
  }

  lemma {:induction false} PresentReadsIdeal(blocks: Blocks, addrs: seq<Address>)
    requires Sound(blocks) && AllBlocksPresent(blocks, addrs)
    ensures ReadAll(blocks, addrs) == IdealContent(addrs)
  {
    if addrs != [] {
      assert addrs[0] in addrs;
      assert Contains(blocks, addrs[0].hash);
      assert ReadRange(blocks, addrs[0]) == IdealRange(addrs[0]);
      assert AllBlocksPresent(blocks, addrs[1..]);
      PresentReadsIdeal(blocks, addrs[1..]);
    }
  }

  lemma {:induction false} ReadableIsIdeal(blocks: Blocks, addrs: seq<Address>)
    requires Sound(blocks) && ReadAll(blocks, addrs).Ok?
    ensures IdealContent(addrs) == ReadAll(blocks, addrs)
  {
    if addrs != [] {
      assert ReadRange(blocks, addrs[0]) == IdealRange(addrs[0]);
      ReadableIsIdeal(blocks, addrs[1..]);
    }
  }

  lemma {:induction false} IdealLength(addrs: seq<Address>)
    requires IdealContent(addrs).Ok?
    ensures TotalLen(addrs) == |IdealContent(addrs).value|
  {
    if addrs != [] {
      IdealLength(addrs[1..]);
    }
  }

  // ----- what the band ought to hold

  /** The content of the basis entry that a file is taken over from. */
  function BasisContent(w: Writer, e: EntryValue): Bytes {
    match Lookup(w.basis, e.apath)
    case None => []
    case Some(b) => match IdealContent(b.addrs) case Ok(bytes) => bytes case Err(_) => []
  }

  /** What copying one entry adds: nothing for an unknown kind or a file that cannot be read; otherwise the
      entry, with the content of its basis entry if it is taken over and the bytes just read if not. */
  function Kept(w: Writer, s: Source, opts: Options): seq<Pushed> {
    if s.entry.kindMeta.UnknownMeta? then []
    else if !s.entry.kindMeta.FileMeta? then [Pushed(s.entry, [])]
    else if Unmodified(w, s) then [Pushed(s.entry, BasisContent(w, s.entry))]
    else if IsRead(s, opts) then [Pushed(s.entry, ContentOf(s, opts))]
    else []
  }

  function KeptAll(w: Writer, es: seq<Source>, opts: Options): seq<Pushed>
    decreases es
  {
    if es == [] then []
    else Kept(w, Prepared(es[0], opts), opts) + KeptAll(CopyEntry(w, Prepared(es[0], opts), opts), es[1..], opts)
  }

  /** The tree that a run records, group by group. */
  function KeptTree(w: Writer, groups: seq<seq<Source>>, opts: Options): seq<Pushed>
    decreases groups
  {
    if groups == [] then []
    else KeptAll(w, groups[0], opts) + KeptTree(FlushGroup(CopyAll(w, groups[0], opts)), groups[1..], opts)
  }

  function FlattenSources(groups: seq<seq<Source>>): seq<Source> {
    if groups == [] then [] else groups[0] + FlattenSources(groups[1..])
  }

  /** A basis entry that a file could be taken over from has addresses inside the blocks they name. */
  ghost predicate Takeable(basis: seq<IndexEntry>, s: Source) {
    s.entry.kindMeta.FileMeta? ==>
      forall b :: b in basis && b.apath == s.entry.apath && HeuristicallyUnchanged(s.entry, b) ==>
        IdealContent(b.addrs).Ok?
  }

  // ----- copying keeps every file right

  /** `qs` are the files behind the queued entries; `done` and `waiting` those in the combiner. */
  ghost predicate WriterGood(w: Writer, qs: seq<Pushed>, done: seq<Pushed>, waiting: seq<Pushed>) {
    AllRepresent(w.blocks, w.queue, qs) && Good(w.combiner, w.blocks, done, waiting)
  }

  lemma GoodExtends(c: Combiner, blocks: Blocks, more: Blocks, done: seq<Pushed>, waiting: seq<Pushed>)
    requires Good(c, blocks, done, waiting) && Sound(more) && Extends(more, blocks)
    ensures Good(c, more, done, waiting)
  {
    RepresentsExtends(more, blocks, c.finished, done);
  }

  lemma QueueOne(w: Writer, more: Blocks, e: IndexEntry, p: Pushed, qs: seq<Pushed>, done: seq<Pushed>,
                 waiting: seq<Pushed>)
    requires WriterGood(w, qs, done, waiting) && Sound(more) && Extends(more, w.blocks) && Represents(more, e, p)
    ensures AllRepresent(more, w.queue + [e], qs + [p]) && Good(w.combiner, more, done, waiting)
  {
    RepresentsExtends(more, w.blocks, w.queue, qs);
    assert AllRepresent(more, [e], [p]);
    AllRepresentJoin(more, w.queue, qs, [e], [p]);
    GoodExtends(w.combiner, w.blocks, more, done, waiting);
  }

  lemma TakenOver(w: Writer, s: Source)
    requires Sound(w.blocks) && s.entry.kindMeta.FileMeta? && Unmodified(w, s) && Takeable(w.basis, s)
    ensures Represents(w.blocks, MetadataFrom(s.entry).(addrs := Lookup(w.basis, s.entry.apath).value.addrs),
                       Pushed(s.entry, BasisContent(w, s.entry)))
  {
    var b := Lookup(w.basis, s.entry.apath).value;
    PresentReadsIdeal(w.blocks, b.addrs);
    IdealLength(b.addrs);
    MetadataKept(s.entry, b.addrs);
  }

  lemma LargeStored(blocks: Blocks, e: EntryValue, content: Bytes, max: nat)
    requires max > 0 && Sound(blocks)
    ensures
      var chunks := Chunks(content, max);
      Sound(StoreAll(blocks, chunks)) && Extends(StoreAll(blocks, chunks), blocks) &&
      Represents(StoreAll(blocks, chunks), MetadataFrom(e).(addrs := WholeAddresses(chunks)), Pushed(e, content))
  {
    StoreAllKeepsSound(blocks, Chunks(content, max));
    ChunksReadBack(blocks, content, max);
    MetadataKept(e, WholeAddresses(Chunks(content, max)));
  }

  ghost predicate Tracks(w: Writer, w': Writer, qs: seq<Pushed>, done: seq<Pushed>, waiting: seq<Pushed>,
                         all: multiset<Pushed>) {
    WriterGood(w', qs, done, waiting) && Extends(w'.blocks, w.blocks) && w'.hunks == w.hunks &&
    multiset(qs) + multiset(done + waiting) == all
  }

  lemma CopyTracksQueued(w: Writer, w': Writer, e: IndexEntry, p: Pushed,
                         qs: seq<Pushed>, done: seq<Pushed>, waiting: seq<Pushed>)
    requires WriterGood(w, qs, done, waiting) && Sound(w'.blocks) && Extends(w'.blocks, w.blocks)
    requires w'.queue == w.queue + [e] && w'.combiner == w.combiner && w'.hunks == w.hunks
    requires Represents(w'.blocks, e, p)
    ensures Tracks(w, w', qs + [p], done, waiting, multiset(qs) + multiset(done + waiting) + multiset{p})
  {
    QueueOne(w, w'.blocks, e, p, qs, done, waiting);
  }

  lemma CopyTracksSame(w: Writer, w': Writer, qs: seq<Pushed>, done: seq<Pushed>, waiting: seq<Pushed>)
    requires WriterGood(w, qs, done, waiting) && Sound(w'.blocks) && Extends(w'.blocks, w.blocks)
    requires w'.queue == w.queue && w'.combiner == w.combiner && w'.hunks == w.hunks
    ensures Tracks(w, w', qs, done, waiting, multiset(qs) + multiset(done + waiting))
  {
    RepresentsExtends(w'.blocks, w.blocks, w.queue, qs);
    GoodExtends(w.combiner, w.blocks, w'.blocks, done, waiting);
  }

  /** A small file, read or not, unless its combined block cannot be stored. */
  lemma CopyTracksSmall(w: Writer, s: Source, opts: Options, qs: seq<Pushed>, done: seq<Pushed>, waiting: seq<Pushed>)
    returns (done': seq<Pushed>, waiting': seq<Pushed>)
    requires WriterGood(w, qs, done, waiting) && s.entry.kindMeta.FileMeta? && s.read.Reads?
    requires 0 < s.entry.kindMeta.size <= opts.smallFileCap
    requires Fills(w.combiner, s.entry, s.read.small, opts.maxBlockSize) ==> s.storeOk
    ensures Tracks(w, StoreFile(w, s, opts), qs, done', waiting',
                   multiset(qs) + multiset(done + waiting) + multiset(Accepted(PushOp(s.entry, s.read.small))))
  {
    var e, read := s.entry, s.read.small;
    done', waiting' := PushKeeps(w.combiner, w.blocks, done, waiting, e, read, opts.maxBlockSize);
    assert Push(w.combiner, w.blocks, e, read, opts.maxBlockSize, s.storeOk) ==
           Push(w.combiner, w.blocks, e, read, opts.maxBlockSize, true);
    RepresentsExtends(StoreFile(w, s, opts).blocks, w.blocks, w.queue, qs);
    assert multiset(done + waiting + Accepted(PushOp(e, read))) ==
           multiset(done + waiting) + multiset(Accepted(PushOp(e, read)));
  }

  /** A file that is not taken over. */
  lemma StoreTracks(w: Writer, s: Source, opts: Options, qs: seq<Pushed>, done: seq<Pushed>, waiting: seq<Pushed>)
    returns (qs': seq<Pushed>, done': seq<Pushed>, waiting': seq<Pushed>)
    requires WriterGood(w, qs, done, waiting) && s.entry.kindMeta.FileMeta?
    requires (0 < s.entry.kindMeta.size <= opts.smallFileCap && s.read.Reads? &&
              Fills(w.combiner, s.entry, s.read.small, opts.maxBlockSize)) ==> s.storeOk
    ensures Tracks(w, StoreFile(w, s, opts), qs', done', waiting',
                   multiset(qs) + multiset(done + waiting) +
                   multiset(if IsRead(s, opts) then [Pushed(s.entry, ContentOf(s, opts))] else []))
  {
    var e, p, w' := s.entry, Pushed(s.entry, ContentOf(s, opts)), StoreFile(w, s, opts);
    qs', done', waiting' := qs, done, waiting;
    if e.kindMeta.size == 0 {
      qs' := qs + [p];
      EmptyRepresents(w.blocks, e);
      CopyTracksQueued(w, w', MetadataFrom(e), p, qs, done, waiting);
    } else if s.read.OpenFailed? {
      CopyTracksSame(w, w', qs, done, waiting);
    } else if e.kindMeta.size <= opts.smallFileCap {
      done', waiting' := CopyTracksSmall(w, s, opts, qs, done, waiting);
    } else if s.read.large.LargeOk? {
      qs' := qs + [p];
      LargeStored(w.blocks, e, s.read.large.content, opts.maxBlockSize);
      var chunks := Chunks(s.read.large.content, opts.maxBlockSize);
      CopyTracksQueued(w, w', MetadataFrom(e).(addrs := WholeAddresses(chunks)), p, qs, done, waiting);
    } else {
      StoreAllKeepsSound(w.blocks, s.read.large.stored);
      CopyTracksSame(w, w', qs, done, waiting);
    }
  }

  /** Copying one entry adds exactly what it should, readable, and harms nothing else. */
  lemma CopyTracks(w: Writer, s: Source, opts: Options, qs: seq<Pushed>, done: seq<Pushed>, waiting: seq<Pushed>)
    returns (qs': seq<Pushed>, done': seq<Pushed>, waiting': seq<Pushed>)
    requires WriterGood(w, qs, done, waiting) && Takeable(w.basis, s) && !BlockStoreFails(w, s, opts)
    ensures Tracks(w, CopyEntry(w, s, opts), qs', done', waiting',
                   multiset(qs) + multiset(done + waiting) + multiset(Kept(w, s, opts)))
  {
    hide StoreFile, IsRead, ContentOf, Takeable;
    var e, w' := s.entry, CopyEntry(w, s, opts);
    qs', done', waiting' := qs, done, waiting;
    if e.kindMeta.UnknownMeta? {
    } else if !e.kindMeta.FileMeta? {
      qs' := qs + [Pushed(e, [])];
      EmptyRepresents(w.blocks, e);
      CopyTracksQueued(w, w', MetadataFrom(e), Pushed(e, []), qs, done, waiting);
    } else if Unmodified(w, s) {
      var p := Pushed(e, BasisContent(w, e));
      qs' := qs + [p];
      TakenOver(w, s);
      CopyTracksQueued(w, w', MetadataFrom(e).(addrs := Lookup(w.basis, e.apath).value.addrs), p, qs, done, waiting);
    } else {
      var looked := w.(stats := Classified(w, s), basis := After(Some(e.apath), w.basis));
      qs', done', waiting' := StoreTracks(looked, s, opts, qs, done, waiting);
    }
  }

  /** A file taken over can be read, now and after any later stores, exactly if its basis entry lies inside the
      blocks it names; that those are there does not help. */
  lemma TakenOverReadsExactly(w: Writer, s: Source, opts: Options, blocks: Blocks)
    requires s.entry.kindMeta.FileMeta? && Unmodified(w, s) && Sound(blocks) && Extends(blocks, w.blocks)
    ensures
      var w' := CopyEntry(w, s, opts);
      |w'.queue| == |w.queue| + 1 &&
      (ReadAll(blocks, w'.queue[|w.queue|].addrs).Ok? <==> IdealContent(Lookup(w.basis, s.entry.apath).value.addrs).Ok?)
  {
    var addrs := Lookup(w.basis, s.entry.apath).value.addrs;
    assert CopyEntry(w, s, opts).queue[|w.queue|].addrs == addrs;
    PresentReadsIdeal(blocks, addrs);
  }

  // ----- a group becomes a hunk that holds it, in order

  function SourceApath(s: Source): Apath {
    s.entry.apath
  }

  ghost predicate AllTakeable(basis: seq<IndexEntry>, es: seq<Source>) {
    forall s :: s in es ==> Takeable(basis, s)
  }

  lemma PreparedTakeable(basis: seq<IndexEntry>, s: Source, opts: Options)
    requires Takeable(basis, s)
    ensures Takeable(basis, Prepared(s, opts))
  {
    var t := Prepared(s, opts);
    assert forall b :: HeuristicallyUnchanged(t.entry, b) <==> HeuristicallyUnchanged(s.entry, b);
  }

  lemma CopyKeepsBasis(w: Writer, s: Source, opts: Options)
    ensures forall b :: b in CopyEntry(w, s, opts).basis ==> b in w.basis
  {
  }

  lemma {:induction false} CopyAllTracks(w: Writer, es: seq<Source>, opts: Options, basis: seq<IndexEntry>,
                                         qs: seq<Pushed>, done: seq<Pushed>, waiting: seq<Pushed>)
    returns (qs': seq<Pushed>, done': seq<Pushed>, waiting': seq<Pushed>)
    requires WriterGood(w, qs, done, waiting) && AllTakeable(basis, es) && BlockStoreFailures(w, es, opts) == 0
    requires forall b :: b in w.basis ==> b in basis
    ensures Tracks(w, CopyAll(w, es, opts), qs', done', waiting',
                   multiset(qs) + multiset(done + waiting) + multiset(KeptAll(w, es, opts)))
    ensures forall b :: b in CopyAll(w, es, opts).basis ==> b in basis
    decreases es
  {
    hide CopyEntry, Kept, WriterGood, BlockStoreFails, Prepared, HeuristicallyUnchanged;
    if es == [] {
      qs', done', waiting' := qs, done, waiting;
      CopyTracksSame(w, w, qs, done, waiting) by { GoodIsSound(w, qs, done, waiting); }
    } else {
      var s := Prepared(es[0], opts);
      assert es[0] in es && forall t :: t in es[1..] ==> t in es;
      PreparedTakeable(basis, es[0], opts);
      assert Takeable(w.basis, s);
      CopyKeepsBasis(w, s, opts);
      qs', done', waiting' := CopyTracks(w, s, opts, qs, done, waiting);
      qs', done', waiting' := CopyAllTracks(CopyEntry(w, s, opts), es[1..], opts, basis, qs', done', waiting');
    }
  }

  lemma GoodIsSound(w: Writer, qs: seq<Pushed>, done: seq<Pushed>, waiting: seq<Pushed>)
    requires WriterGood(w, qs, done, waiting)
    ensures Sound(w.blocks) && Extends(w.blocks, w.blocks)
  {
  }

  /** Sorting entries that represent a tree in some order gives entries that represent it in order. */
  lemma SortedRepresent(blocks: Blocks, es: seq<IndexEntry>, order: seq<Pushed>, tree: seq<Pushed>)
    requires AllRepresent(blocks, es, order) && multiset(order) == multiset(tree) && Increasing(PushedKey, tree)
    ensures AllRepresent(blocks, Sort(EntryKey, es), tree)
  {
    var rel := (e: IndexEntry, p: Pushed) => Represents(blocks, e, p);
    assert Pairwise(rel, es, order);
    SortPairwise(rel, EntryKey, PushedKey, es, order);
    SortOfIncreasing(PushedKey, order, tree);
  }

  lemma HunkOfHolds(entries: seq<IndexEntry>)
    ensures BandEntries(HunkOf(entries)) == Sort(EntryKey, entries)
  {
    if entries != [] {
      var hunk := Entries(Sort(EntryKey, entries));
      assert [hunk][1..] == [];
      assert BandEntries([hunk]) == Sort(EntryKey, entries) + [];
    }
  }

  lemma FlushGroupHolds(w: Writer, qs: seq<Pushed>, done: seq<Pushed>, waiting: seq<Pushed>, tree: seq<Pushed>)
    returns (entries: seq<IndexEntry>)
    requires WriterGood(w, qs, done, waiting) && Increasing(PushedKey, tree)
    requires multiset(qs) + multiset(done + waiting) == multiset(tree)
    ensures WriterGood(FlushGroup(w), [], [], []) && Extends(FlushGroup(w).blocks, w.blocks)
    ensures FlushGroup(w).basis == w.basis && FlushGroup(w).hunks == w.hunks + HunkOf(entries)
    ensures AllRepresent(FlushGroup(w).blocks, BandEntries(HunkOf(entries)), tree)
  {
    FlushKeeps(w.combiner, w.blocks, done, waiting);
    var (c, blocks) := Flush(w.combiner, w.blocks, true);
    entries := w.queue + c.finished;
    RepresentsExtends(blocks, w.blocks, w.queue, qs);
    AllRepresentJoin(blocks, w.queue, qs, c.finished, done + waiting);
    SortedRepresent(blocks, entries, qs + (done + waiting), tree);
    HunkOfHolds(entries);
  }

  lemma {:induction false} KeptKeys(w: Writer, es: seq<Source>, opts: Options)
    ensures forall p :: p in KeptAll(w, es, opts) ==> exists s :: s in es && s.entry.apath == p.entry.apath
    decreases es
  {
    if es != [] {
      KeptKeys(CopyEntry(w, Prepared(es[0], opts), opts), es[1..], opts);
      assert es[0] in es;
    }
  }

  lemma {:induction false} KeptIncreasing(w: Writer, es: seq<Source>, opts: Options)
    requires Increasing(SourceApath, es)
    ensures Increasing(PushedKey, KeptAll(w, es, opts))
    decreases es
  {
    hide Before, CopyEntry, BasisContent, Unmodified, IsRead, ContentOf;
    if es != [] {
      var w' := CopyEntry(w, Prepared(es[0], opts), opts);
      KeptIncreasing(w', es[1..], opts);
      KeptKeys(w', es[1..], opts);
      var rest := KeptAll(w', es[1..], opts);
      forall i | 0 <= i < |rest| ensures Before(es[0].entry.apath, rest[i].entry.apath) {
        assert rest[i] in rest;
        var s :| s in es[1..] && s.entry.apath == rest[i].entry.apath;
        FollowsFirst(es, s);
      }
    }
  }

  lemma FollowsFirst(es: seq<Source>, s: Source)
    requires Increasing(SourceApath, es) && es != [] && s in es[1..]
    ensures Before(es[0].entry.apath, s.entry.apath)
  {
    var k :| 0 <= k < |es[1..]| && es[1..][k] == s;
    assert Before(SourceApath(es[0]), SourceApath(es[k + 1]));
  }

  lemma {:induction false} TreeKeys(w: Writer, groups: seq<seq<Source>>, opts: Options)
    ensures forall p :: p in KeptTree(w, groups, opts) ==>
      exists s :: s in FlattenSources(groups) && s.entry.apath == p.entry.apath
    decreases groups
  {
    if groups != [] {
      KeptKeys(w, groups[0], opts);
      TreeKeys(FlushGroup(CopyAll(w, groups[0], opts)), groups[1..], opts);
    }
  }

  lemma {:induction false} TreeIncreasing(w: Writer, groups: seq<seq<Source>>, opts: Options)
    requires Increasing(SourceApath, FlattenSources(groups))
    ensures Increasing(PushedKey, KeptTree(w, groups, opts))
    decreases groups
  {
    hide Before, KeptAll, CopyAll, FlushGroup;
    if groups != [] {
      var group, rest := groups[0], FlattenSources(groups[1..]);
      var w' := FlushGroup(CopyAll(w, group, opts));
      IncreasingParts(group, rest);
      KeptIncreasing(w, group, opts);
      TreeIncreasing(w', groups[1..], opts);
      KeptKeys(w, group, opts);
      TreeKeys(w', groups[1..], opts);
      JoinIncreasing(KeptAll(w, group, opts), KeptTree(w', groups[1..], opts), group, rest);
    }
  }

  lemma JoinIncreasing(a: seq<Pushed>, b: seq<Pushed>, group: seq<Source>, rest: seq<Source>)
    requires Increasing(PushedKey, a) && Increasing(PushedKey, b) && Increasing(SourceApath, group + rest)
    requires forall p :: p in a ==> exists s :: s in group && s.entry.apath == p.entry.apath
    requires forall p :: p in b ==> exists s :: s in rest && s.entry.apath == p.entry.apath
    ensures Increasing(PushedKey, a + b)
  {
    hide Before;
    forall i, j | 0 <= i < |a| && 0 <= j < |b| ensures Before(PushedKey(a[i]), PushedKey(b[j])) {
      assert a[i] in a && b[j] in b;
      var s :| s in group && s.entry.apath == a[i].entry.apath;
      var t :| t in rest && t.entry.apath == b[j].entry.apath;
      GroupBeforeRest(group, rest, s, t);
    }
    var ab := a + b;
    forall i, j | 0 <= i < j < |ab| ensures Before(PushedKey(ab[i]), PushedKey(ab[j])) {
      if i < |a| <= j {
        assert ab[j] == b[j - |a|];
      }
    }
  }

  lemma GroupBeforeRest(group: seq<Source>, rest: seq<Source>, s: Source, t: Source)
    requires Increasing(SourceApath, group + rest) && s in group && t in rest
    ensures Before(s.entry.apath, t.entry.apath)
  {
    var i :| 0 <= i < |group| && group[i] == s;
    var j :| 0 <= j < |rest| && rest[j] == t;
    assert (group + rest)[i] == s && (group + rest)[|group| + j] == t;
    assert Before(SourceApath((group + rest)[i]), SourceApath((group + rest)[|group| + j]));
  }

  lemma IncreasingParts(a: seq<Source>, b: seq<Source>)
    requires Increasing(SourceApath, a + b)
    ensures Increasing(SourceApath, a) && Increasing(SourceApath, b)
  {
    var ab := a + b;
    forall i, j | 0 <= i < j < |a| ensures Before(SourceApath(a[i]), SourceApath(a[j])) {
      assert ab[i] == a[i] && ab[j] == a[j];
    }
    forall i, j | 0 <= i < j < |b| ensures Before(SourceApath(b[i]), SourceApath(b[j])) {
      assert ab[|a| + i] == b[i] && ab[|a| + j] == b[j];
    }
  }

  /** Between groups: nothing is queued, and the hunks written so far hold exactly `written`. */
  ghost predicate HoldsSoFar(w: Writer, basis: seq<IndexEntry>, written: seq<Pushed>) {
    WriterGood(w, [], [], []) && AllRepresent(w.blocks, BandEntries(w.hunks), written) &&
    forall b :: b in w.basis ==> b in basis
  }

  lemma ExtendsTransitive(c: Blocks, b: Blocks, a: Blocks)
    requires Extends(c, b) && Extends(b, a)
    ensures Extends(c, a)
  {
  }

  /** One group: copied, flushed, and added to what the band already holds. */
  lemma GroupHolds(w: Writer, group: seq<Source>, opts: Options, basis: seq<IndexEntry>, written: seq<Pushed>)
    requires HoldsSoFar(w, basis, written) && Increasing(SourceApath, group)
    requires AllTakeable(basis, group) && BlockStoreFailures(w, group, opts) == 0
    ensures HoldsSoFar(FlushGroup(CopyAll(w, group, opts)), basis, written + KeptAll(w, group, opts))
    ensures Extends(FlushGroup(CopyAll(w, group, opts)).blocks, w.blocks)
  {
    var none: seq<Pushed> := [];
    assert none + none == none;
    var qs, done, waiting := CopyAllTracks(w, group, opts, basis, none, none, none);
    var copied, kept := CopyAll(w, group, opts), KeptAll(w, group, opts);
    KeptIncreasing(w, group, opts);
    var entries := FlushGroupHolds(copied, qs, done, waiting, kept);
    var blocks := FlushGroup(copied).blocks;
    ExtendsTransitive(blocks, copied.blocks, w.blocks);
    RepresentsExtends(blocks, w.blocks, BandEntries(w.hunks), written);
    BandEntriesAppend(w.hunks, HunkOf(entries));
    AllRepresentJoin(blocks, BandEntries(w.hunks), written, BandEntries(HunkOf(entries)), kept);
  }

  /** Group by group, the band comes to hold exactly what is kept, in order, and every file reads back. */
  lemma {:induction false} GroupsHold(w: Writer, groups: seq<seq<Source>>, opts: Options,
                                      basis: seq<IndexEntry>, written: seq<Pushed>)
    requires HoldsSoFar(w, basis, written) && Increasing(SourceApath, FlattenSources(groups))
    requires AllTakeable(basis, FlattenSources(groups)) && AllBlockStoreFailures(w, groups, opts) == 0
    ensures HoldsSoFar(CopyGroups(w, groups, opts), basis, written + KeptTree(w, groups, opts))
    ensures Extends(CopyGroups(w, groups, opts).blocks, w.blocks)
    decreases groups
  {
    hide HoldsSoFar, CopyAll, FlushGroup, KeptAll, BlockStoreFailures, Takeable;
    if groups == [] {
      assert written + [] == written;
    } else {
      var group, rest := groups[0], FlattenSources(groups[1..]);
      IncreasingParts(group, rest);
      assert forall s :: s in group || s in rest ==> s in group + rest;
      GroupHolds(w, group, opts, basis, written);
      var w' := FlushGroup(CopyAll(w, group, opts));
      var kept := KeptAll(w, group, opts);
      GroupsHold(w', groups[1..], opts, basis, written + kept);
      var later := KeptTree(w', groups[1..], opts);
      assert (written + kept) + later == written + (kept + later);
      ExtendsTransitive(CopyGroups(w', groups[1..], opts).blocks, w'.blocks, w.blocks);
    }
  }

  // ----- archives

  datatype ArchiveState = ArchiveState(bands: Bands, blocks: Blocks)

  /** The index that new files are compared with: the stitched tree of the last band. */
  ghost function BasisOf(bands: Bands): seq<IndexEntry> {
    match LastBandId(bands)
    case None => []
    case Some(b) => Stitched(bands, b, None)
  }

  ghost function CopiedFrom(st: ArchiveState, groups: seq<seq<Source>>, opts: Options): Writer
  {
    CopyGroups(Begin(st.blocks, BasisOf(st.bands)), groups, opts)
  }

  /** A backup of the tree that arrives in these groups, into a new band that is closed at the end. */
  ghost function BackUp(st: ArchiveState, groups: seq<seq<Source>>, opts: Options): ArchiveState
  {
    var w := CopiedFrom(st, groups, opts);
    ArchiveState(st.bands[NextBandId(st.bands) := BandFiles(Usable, true, w.hunks)], w.blocks)
  }

  /** A backup that stops after these groups: its band stays open. */
  ghost function Interrupted(st: ArchiveState, groups: seq<seq<Source>>, opts: Options): ArchiveState
  {
    var w := CopiedFrom(st, groups, opts);
    ArchiveState(st.bands[NextBandId(st.bands) := BandFiles(Usable, false, w.hunks)], w.blocks)
  }

  ghost predicate WellFormed(st: ArchiveState) {
    WellFormedBands(st.bands) && Sound(st.blocks)
  }

  lemma RepresentInOrder(blocks: Blocks, es: seq<IndexEntry>, tree: seq<Pushed>)
    requires AllRepresent(blocks, es, tree) && Increasing(PushedKey, tree)
    ensures InOrder(es)
  {
    forall i, j | 0 <= i < j < |es| ensures Before(EntryKey(es[i]), EntryKey(es[j])) {
      assert Represents(blocks, es[i], tree[i]) && Represents(blocks, es[j], tree[j]);
      assert Before(PushedKey(tree[i]), PushedKey(tree[j]));
    }
  }

  ghost function KeptFrom(st: ArchiveState, groups: seq<seq<Source>>, opts: Options): seq<Pushed> {
    KeptTree(Begin(st.blocks, BasisOf(st.bands)), groups, opts)
  }

  /** The sources come in path order, files can be taken over from the basis, and no combined block fails. */
  ghost predicate Sane(st: ArchiveState, groups: seq<seq<Source>>, opts: Options) {
    WellFormed(st) && Increasing(SourceApath, FlattenSources(groups)) &&
    AllTakeable(BasisOf(st.bands), FlattenSources(groups)) &&
    AllBlockStoreFailures(Begin(st.blocks, BasisOf(st.bands)), groups, opts) == 0
  }

  /** The writer after all groups: its hunks hold exactly what is kept. */
  lemma CopiedHolds(st: ArchiveState, groups: seq<seq<Source>>, opts: Options)
    requires Sane(st, groups, opts)
    ensures
      var w := CopiedFrom(st, groups, opts);
      AllRepresent(w.blocks, BandEntries(w.hunks), KeptFrom(st, groups, opts)) &&
      Sound(w.blocks) && Extends(w.blocks, st.blocks) && InOrder(BandEntries(w.hunks))
  {
    hide KeptTree, CopyGroups, AllBlockStoreFailures, HoldsSoFar, AllTakeable;
    var basis, tree, none: seq<Pushed> := BasisOf(st.bands), KeptFrom(st, groups, opts), [];
    assert none + tree == tree;
    TreeIncreasing(Begin(st.blocks, basis), groups, opts);
    BeginHolds(st.blocks, basis);
    GroupsHold(Begin(st.blocks, basis), groups, opts, basis, none);
    HeldInOrder(CopiedFrom(st, groups, opts), basis, tree);
  }

  lemma BeginHolds(blocks: Blocks, basis: seq<IndexEntry>)
    requires Sound(blocks)
    ensures HoldsSoFar(Begin(blocks, basis), basis, [])
  {
  }

  lemma HeldInOrder(w: Writer, basis: seq<IndexEntry>, tree: seq<Pushed>)
    requires HoldsSoFar(w, basis, tree) && Increasing(PushedKey, tree)
    ensures AllRepresent(w.blocks, BandEntries(w.hunks), tree) && Sound(w.blocks) && InOrder(BandEntries(w.hunks))
  {
    RepresentInOrder(w.blocks, BandEntries(w.hunks), tree);
  }

  /** From any well-formed archive, complete or not, with any files failing to be read: unless a combined
      block cannot be stored, a backup makes a band that reads back as exactly what was kept of the source
      tree, and changes no other band and no existing block. */
  lemma BackUpReadsBack(st: ArchiveState, groups: seq<seq<Source>>, opts: Options)
    requires Sane(st, groups, opts)
    ensures
      var st' := BackUp(st, groups, opts);
      var id := NextBandId(st.bands);
      WellFormed(st') && Extends(st'.blocks, st.blocks) &&
      st'.bands.Keys == st.bands.Keys + {id} && (forall b :: b in st.bands ==> st'.bands[b] == st.bands[b]) &&
      AllRepresent(st'.blocks, Stitched(st'.bands, id, None), KeptFrom(st, groups, opts))
  {
    hide KeptFrom, CopiedFrom, Sane, Stitched, InOrder;
    CopiedHolds(st, groups, opts);
    SaneIsWellFormed(st, groups, opts);
    ClosedBandIsItsIndex(BackUp(st, groups, opts).bands, NextBandId(st.bands));
  }

  lemma SaneIsWellFormed(st: ArchiveState, groups: seq<seq<Source>>, opts: Options)
    requires Sane(st, groups, opts)
    ensures WellFormed(st)
  {
  }

  // ----- stopping part-way

  /** Unless the last band has a tail but no head, reading goes on past it like any other. */
  ghost predicate LastGoesOn(bands: Bands) {
    LastBandId(bands).Some? ==>
      BandExists(bands, LastBandId(bands).value) || !BandIsClosed(bands, LastBandId(bands).value)
  }

  /** What a new open band goes on with. */
  function Under(bands: Bands, id: nat): seq<IndexEntry> {
    match PreviousExisting(bands, id)
    case None => []
    case Some(p) => Stitched(bands, p, None)
  }

  /** A band without a head holds nothing of its own: it reads as the nearest existing band before it,
      or as nothing if it has a tail. */
  lemma HeadlessBand(bands: Bands, b: nat)
    requires !BandExists(bands, b)
    ensures Stitched(bands, b, None) == if BandIsClosed(bands, b) then [] else Under(bands, b)
  {
  }

  lemma SameUnder(bands: Bands, bands': Bands, b: nat, id: nat)
    requires b < id && forall c :: b <= c < id ==> !BandExists(bands', c)
    requires forall c :: 0 <= c < id ==> (c in bands <==> c in bands') && (c in bands ==> bands'[c] == bands[c])
    ensures Under(bands', id) == Under(bands, b)
  {
    hide Stitched;
    assert forall c :: 0 <= c < id ==> (BandExists(bands', c) <==> BandExists(bands, c));
    SamePrevious(bands, bands', b, id);
    if PreviousExisting(bands, b).Some? {
      StitchedDependsOnOlder(bands, bands', PreviousExisting(bands, b).value, None);
    }
  }

  lemma SamePrevious(bands: Bands, bands': Bands, b: nat, id: nat)
    requires b < id && forall c :: b <= c < id ==> !BandExists(bands', c)
    requires forall c :: 0 <= c < b ==> (BandExists(bands', c) <==> BandExists(bands, c))
    ensures PreviousExisting(bands', id) == PreviousExisting(bands, b)
  {
  }

  lemma UnderIsBasis(bands: Bands, bands': Bands, id: nat)
    requires id == NextBandId(bands)
    requires forall c :: 0 <= c < id ==> (c in bands <==> c in bands') && (c in bands ==> bands'[c] == bands[c])
    ensures if LastGoesOn(bands) then Under(bands', id) == BasisOf(bands) else BasisOf(bands) == []
  {
    hide Stitched, Under;
    match LastBandId(bands)
    case None => NothingUnder(bands', id);
    case Some(last) =>
      if BandExists(bands, last) {
        TopUnder(bands', last, id);
        StitchedDependsOnOlder(bands, bands', last, None);
      } else {
        HeadlessBand(bands, last);
        SameUnder(bands, bands', last, id);
      }
  }

  lemma NothingUnder(bands: Bands, id: nat)
    requires forall c :: 0 <= c < id ==> c !in bands
    ensures Under(bands, id) == []
  {
  }

  lemma TopUnder(bands: Bands, last: nat, id: nat)
    requires id == last + 1 && BandExists(bands, last)
    ensures Under(bands, id) == Stitched(bands, last, None)
  {
  }

  /** An open band on top goes on, after its own entries, as the basis, if and only if the last band does not
      have a tail without a head, or nothing is left to go on with. */
  lemma OpenBandOnTop(bands: Bands, id: nat, hunks: seq<Hunk>)
    requires WellFormedBands(bands) && InOrder(BandEntries(hunks)) && id == NextBandId(bands)
    ensures
      var bands' := bands[id := BandFiles(Usable, false, hunks)];
      var written := BandEntries(hunks);
      WellFormedBands(bands') &&
      (Stitched(bands', id, None) == written + After(LastOf(written, None), BasisOf(bands)) <==>
        LastGoesOn(bands) || After(LastOf(written, None), Under(bands', id)) == [])
  {
    hide InOrder, BandEntries, Stitched, LastGoesOn, BasisOf;
    var bands' := bands[id := BandFiles(Usable, false, hunks)];
    var last, under := LastOf(BandEntries(hunks), None), Under(bands', id);
    UnderIsBasis(bands, bands', id);
    InterruptedBand(bands', id);
    assert After(last, []) == [];
    assert Stitched(bands', id, None) == BandEntries(hunks) + After(last, under);
    assert BandEntries(hunks) + After(last, under) == BandEntries(hunks) + [] ==> After(last, under) == [] by {
      assert |BandEntries(hunks) + After(last, under)| == |BandEntries(hunks)| + |After(last, under)|;
    }
  }

  /** A backup stopped after any number of groups: its band reads as what was kept of the new tree as far as
      it was written, and then as the basis tree from there on. */
  lemma InterruptedReadsBack(st: ArchiveState, groups: seq<seq<Source>>, opts: Options)
    requires Sane(st, groups, opts) && LastGoesOn(st.bands)
    ensures
      var st' := Interrupted(st, groups, opts);
      var id := NextBandId(st.bands);
      var written := BandEntries(st'.bands[id].hunks);
      WellFormed(st') && Extends(st'.blocks, st.blocks) &&
      AllRepresent(st'.blocks, written, KeptFrom(st, groups, opts)) &&
      Stitched(st'.bands, id, None) == written + After(LastOf(written, None), BasisOf(st.bands))
  {
    hide KeptFrom, CopiedFrom, Sane, Stitched, InOrder;
    CopiedHolds(st, groups, opts);
    SaneIsWellFormed(st, groups, opts);
    OpenBandOnTop(st.bands, NextBandId(st.bands), CopiedFrom(st, groups, opts).hunks);
  }

  /** Without that condition it fails: a last band that lost its head but kept its tail stops the basis there,
      while the new band's tree goes on to the band before it. */
  lemma HeadlessTailBreaksStitching(e: IndexEntry)
    ensures
      var older := BandFiles(Usable, true, [Hunk.Entries([e])]);
      var bands: Bands := map[0 := older, 1 := BandFiles(NoHead, true, [])];
      var bands' := bands[2 := BandFiles(Usable, false, [])];
      WellFormedBands(bands) && NextBandId(bands) == 2 && BasisOf(bands) == [] && Stitched(bands', 2, None) == [e]
  {
    var older := BandFiles(Usable, true, [Hunk.Entries([e])]);
    var bands: Bands := map[0 := older, 1 := BandFiles(NoHead, true, [])];
    var bands' := bands[2 := BandFiles(Usable, false, [])];
    assert older.hunks[1..] == [];
    assert BandEntries(older.hunks) == [e];
    assert forall b :: b in bands <==> 0 <= b < 2;
    assert 1 in bands && LastBandId(bands).Some?;
    assert !BandExists(bands', 1) && BandExists(bands', 0);
    assert PreviousExisting(bands', 2) == Some(0);
    ClosedBandIsItsIndex(bands', 0);
    AfterAll(None, [e]);
    InterruptedBand(bands', 2) by { assert InOrder(BandEntries(bands'[2].hunks)); }
  }
}
