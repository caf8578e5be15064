/** Checking that every block a stored tree needs is present and long enough (src/validate.rs,
    src/archive.rs, src/blockdir.rs). */
module Validation {
  import opened Base
  import opened Entries
  import opened Apaths
  import opened Storage
  import opened Stitch
  import opened EntryIter
  import opened BlockDirs
  import opened Content
  import opened Combining
  import opened Backup
  import opened Jobs

  datatype Problem =
    | BandUnreadable(band: nat)
    | BlockUnreadable(hash: BlockHash, error: BlockError)
    | BlockMissing(hash: BlockHash)
    | ReferencedTooFar(hash: BlockHash, actual: nat, referenced: nat)

  // ----- what the trees refer to

  function End(a: Address): nat {
    a.start + a.len
  }

  /** The addresses that reading every file in a tree needs. */
  function FileAddresses(tree: seq<IndexEntry>): set<Address> {
    set e, a | e in tree && e.kind.File? && a in e.addrs :: a
  }

  function Referenced(bands: Bands): set<Address> {
    set b, a | b in bands && BandOpens(bands, b) && a in FileAddresses(StoredTree(bands, b)) :: a
  }

  /** For each hash that occurs, the furthest position referred to. */
  ghost predicate Furthest(lens: map<BlockHash, nat>, refs: set<Address>) {
    (forall a :: a in refs ==> a.hash in lens && End(a) <= lens[a.hash]) &&
    (forall h :: h in lens ==> exists a :: a in refs && a.hash == h && End(a) == lens[h])
  }

  function Raise(lens: map<BlockHash, nat>, h: BlockHash, end: nat): map<BlockHash, nat> {
    if h in lens && lens[h] >= end then lens else lens[h := end]
  }

  lemma RaiseFurthest(lens: map<BlockHash, nat>, refs: set<Address>, more: set<Address>, a: Address)
    requires Furthest(lens, refs) && a in more
    requires refs <= more && forall b :: b in more && b !in refs ==> b.hash == a.hash && End(b) <= End(a)
    ensures Furthest(Raise(lens, a.hash, End(a)), more)
  {
  }

  function AddressSet(addrs: seq<Address>): set<Address> {
    set a | a in addrs
  }

  /** Note the addresses of one entry. */
  method AddEntry(lens: map<BlockHash, nat>, e: IndexEntry, ghost refs: set<Address>) returns (r: map<BlockHash, nat>)
    requires Furthest(lens, refs)
    ensures Furthest(r, refs + AddressSet(e.addrs))
  {
    r := lens;
    for i := 0 to |e.addrs|
      invariant Furthest(r, refs + AddressSet(e.addrs[..i]))
    {
      ghost var seen := refs + AddressSet(e.addrs[..i]);
      ghost var more := refs + AddressSet(e.addrs[..i + 1]);
      assert e.addrs[..i + 1] == e.addrs[..i] + [e.addrs[i]];
      assert more == seen + {e.addrs[i]};
      RaiseFurthest(r, seen, more, e.addrs[i]);
      r := Raise(r, e.addrs[i].hash, End(e.addrs[i]));
    }
    assert e.addrs[..|e.addrs|] == e.addrs;
  }

  lemma FileAddressesAppend(tree: seq<IndexEntry>, e: IndexEntry)
    ensures FileAddresses(tree + [e]) ==
      if e.kind.File? then FileAddresses(tree) + AddressSet(e.addrs) else FileAddresses(tree)
  {
  }

  /** Walk one stored tree, entry by entry. */
  method ValidateStoredTree(archive: Archive, b: nat) returns (lens: map<BlockHash, nat>)
    requires WellFormedBands(archive.bands)
    ensures Furthest(lens, FileAddresses(StoredTree(archive.bands, b)))
  {
    var hunks := new IterStitchedIndexHunks(archive, b);
    var entries := new IndexEntryIter(hunks, Root, ExcludeNothing);
    lens := ValidateEntries(entries);
  }

  /** Only a file's addresses are noted. */
  method AddNext(lens: map<BlockHash, nat>, e: IndexEntry, ghost seen: seq<IndexEntry>)
    returns (r: map<BlockHash, nat>)
    requires Furthest(lens, FileAddresses(seen))
    ensures Furthest(r, FileAddresses(seen + [e]))
  {
    hide *;
    FileAddressesAppend(seen, e);
    if e.kind.File? {
      r := AddEntry(lens, e, FileAddresses(seen));
    } else {
      r := lens;
    }
  }

  /** Go through the entries of one tree. */
  method ValidateEntries(entries: IndexEntryIter) returns (lens: map<BlockHash, nat>)
    requires entries.Valid()
    modifies entries, entries.hunkIter, entries.hunkIter.indexHunks
    ensures Furthest(lens, FileAddresses(old(Selected(entries.subtree, entries.exclude, entries.Rest()))))
  {
    hide *;
    lens := map[];
    ghost var tree := Selected(entries.subtree, entries.exclude, entries.Rest());
    ghost var n := 0;
    NoAddresses();
    while true
      invariant entries.Valid()
      invariant entries.hunkIter.indexHunks == old(entries.hunkIter.indexHunks) || fresh(entries.hunkIter.indexHunks)
      invariant 0 <= n <= |tree| && tree[n..] == Selected(entries.subtree, entries.exclude, entries.Rest())
      invariant Furthest(lens, FileAddresses(tree[..n]))
      decreases |tree| - n
    {
      var next := entries.Next();
      if next.None? { break; }
      lens := AddNext(lens, next.value, tree[..n]);
      assert tree[..n] + [tree[n]] == tree[..n + 1] && tree[n..][1..] == tree[n + 1..];
      n := n + 1;
    }
    assert tree[..n] == tree;
  }

  lemma NoAddresses()
    ensures Furthest(map[], FileAddresses([]))
  {
  }

  /** Keep the larger of the two positions for every hash. */
  method MergeBlockLens(into: map<BlockHash, nat>, from: map<BlockHash, nat>) returns (r: map<BlockHash, nat>)
    ensures r.Keys == into.Keys + from.Keys
    ensures forall h :: h in r ==> (h in into ==> into[h] <= r[h]) && (h in from ==> from[h] <= r[h])
    ensures forall h :: h in r ==> (h in into && r[h] == into[h]) || (h in from && r[h] == from[h])
  {
    r := into;
    var left := from.Keys;
    while left != {}
      invariant left <= from.Keys && r.Keys == into.Keys + (from.Keys - left)
      invariant forall h :: h in into ==> into[h] <= r[h]
      invariant forall h :: h in from && h !in left ==> from[h] <= r[h]
      invariant forall h :: h in r ==> (h in into && r[h] == into[h]) || (h in from && r[h] == from[h])
      decreases left
    {
      var h :| h in left;
      left := left - {h};
      r := Raise(r, h, from[h]);
    }
  }

  lemma MergeFurthest(r: map<BlockHash, nat>, into: map<BlockHash, nat>, from: map<BlockHash, nat>,
                      refs: set<Address>, more: set<Address>)
    requires Furthest(into, refs) && Furthest(from, more)
    requires r.Keys == into.Keys + from.Keys
    requires forall h :: h in r ==> (h in into ==> into[h] <= r[h]) && (h in from ==> from[h] <= r[h])
    requires forall h :: h in r ==> (h in into && r[h] == into[h]) || (h in from && r[h] == from[h])
    ensures Furthest(r, refs + more)
  {
    forall h | h in r ensures exists a :: a in refs + more && a.hash == h && End(a) == r[h] {
      if h in into && r[h] == into[h] {
        var a :| a in refs && a.hash == h && End(a) == into[h];
        assert a in refs + more;
      } else {
        var a :| a in more && a.hash == h && End(a) == from[h];
        assert a in refs + more;
      }
    }
  }

  function ReferencedBy(bands: Bands, some: set<nat>): set<Address> {
    set b, a | b in some && b in bands && BandOpens(bands, b) && a in FileAddresses(StoredTree(bands, b)) :: a
  }

  lemma ReferencedByMore(bands: Bands, some: set<nat>, b: nat)
    requires b in bands
    ensures ReferencedBy(bands, some + {b}) ==
      if BandOpens(bands, b) then ReferencedBy(bands, some) + FileAddresses(StoredTree(bands, b))
      else ReferencedBy(bands, some)
  {
  }

  lemma ReferencedByNoneAndAll(bands: Bands)
    ensures Furthest(map[], ReferencedBy(bands, {})) && ReferencedBy(bands, bands.Keys) == Referenced(bands)
  {
  }

  /** Walk every band; one that cannot be opened is reported and passed over. */
  method ValidateBands(archive: Archive) returns (lens: map<BlockHash, nat>, problems: set<Problem>)
    requires WellFormedBands(archive.bands)
    ensures Furthest(lens, Referenced(archive.bands))
    ensures forall p :: p in problems <==>
      p.BandUnreadable? && p.band in archive.bands && !BandOpens(archive.bands, p.band)
  {
    hide *;
    ReferencedByNoneAndAll(archive.bands);
    lens, problems := map[], {};
    var left := archive.bands.Keys;
    ghost var done: set<nat> := {};
    while left != {}
      invariant left <= archive.bands.Keys && done == archive.bands.Keys - left
      invariant Furthest(lens, ReferencedBy(archive.bands, done))
      invariant forall p :: p in problems <==> p.BandUnreadable? && p.band in done && !BandOpens(archive.bands, p.band)
      decreases left
    {
      var b :| b in left;
      left := left - {b};
      ReferencedByMore(archive.bands, done, b);
      if BandOpens(archive.bands, b) {
        var ofBand := ValidateStoredTree(archive, b);
        var merged := MergeBlockLens(lens, ofBand);
        MergeFurthest(merged, lens, ofBand, ReferencedBy(archive.bands, done),
          FileAddresses(StoredTree(archive.bands, b)));
        lens := merged;
      } else {
        problems := problems + {BandUnreadable(b)};
      }
      done := done + {b};
    }
    assert done == archive.bands.Keys;
  }

  // ----- the blocks

  /** Read and check every block; remember the lengths of the good ones.  `failed` are the blocks that could
      not be fetched at all. */
  method ValidateBlocks(blockDir: BlockDir)
    returns (lens: map<BlockHash, nat>, problems: set<Problem>, failed: set<BlockHash>)
    requires blockDir.Honest()
    modifies blockDir
    ensures blockDir.Honest() && failed <= blockDir.archive.blocks.Keys
    ensures forall h :: h in failed ==> blockDir.archive.faults.block(h)
    ensures Measured(lens, blockDir.archive.blocks - failed)
    ensures forall p :: p in problems <==> IsBlockProblem(p, blockDir.archive.blocks, failed)
  {
    lens, problems, failed := map[], {}, {};
    var left := blockDir.archive.blocks.Keys;
    ghost var blocks := blockDir.archive.blocks;
    while left != {}
      invariant blockDir.Honest() && left <= blocks.Keys && failed <= blocks.Keys - left
      invariant forall h :: h in failed ==> blockDir.archive.faults.block(h)
      invariant forall h :: h in lens <==> h !in left && h !in failed && ReadBlock(blocks, h).Ok?
      invariant forall h :: h in lens ==> lens[h] == |ReadBlock(blocks, h).value|
      invariant forall p :: p in problems <==> IsBlockProblem(p, blocks, failed) && p.hash !in left
      decreases left
    {
      var h :| h in left;
      left := left - {h};
      var content := blockDir.GetBlockContent(h);
      if content.Ok? {
        lens := lens[h := |content.value|];
      } else {
        problems := problems + {BlockUnreadable(h, content.error)};
        if content.error.TransportError? {
          failed := failed + {h};
        }
      }
    }
  }

  /** Exactly the readable blocks, with their lengths. */
  ghost predicate Measured(lens: map<BlockHash, nat>, blocks: Blocks) {
    (forall h :: h in lens <==> ReadBlock(blocks, h).Ok?) &&
    (forall h :: h in lens ==> lens[h] == |ReadBlock(blocks, h).value|)
  }

  predicate IsBlockProblem(p: Problem, blocks: Blocks, failed: set<BlockHash>) {
    p.BlockUnreadable? && p.hash in blocks &&
    if p.hash in failed then p.error == TransportError else ReadBlock(blocks, p.hash) == Err(p.error)
  }

  // ----- comparing the two

  predicate Comparison(referenced: map<BlockHash, nat>, actual: map<BlockHash, nat>, h: BlockHash, p: Problem) {
    h in referenced &&
    if h !in actual then p == BlockMissing(h)
    else referenced[h] > actual[h] && p == ReferencedTooFar(h, actual[h], referenced[h])
  }

  method CompareLengths(referenced: map<BlockHash, nat>, actual: map<BlockHash, nat>) returns (problems: set<Problem>)
    ensures forall p :: p in problems <==> exists h :: Comparison(referenced, actual, h, p)
  {
    problems := {};
    var left := referenced.Keys;
    while left != {}
      invariant left <= referenced.Keys
      invariant forall p :: p in problems <==> exists h :: h !in left && Comparison(referenced, actual, h, p)
      decreases left
    {
      var h :| h in left;
      ghost var before, was := left, problems;
      left := left - {h};
      if h !in actual {
        problems := problems + {BlockMissing(h)};
        assert Comparison(referenced, actual, h, BlockMissing(h));
      } else if referenced[h] > actual[h] {
        problems := problems + {ReferencedTooFar(h, actual[h], referenced[h])};
        assert Comparison(referenced, actual, h, ReferencedTooFar(h, actual[h], referenced[h]));
      }
      forall p ensures p in problems <==> exists k :: k !in left && Comparison(referenced, actual, k, p) {
        if p in was {
          var k :| k !in before && Comparison(referenced, actual, k, p);
        } else if k :| k !in left && Comparison(referenced, actual, k, p) {
          assert k == h;
        }
      }
    }
  }

  predicate AboutBlocks(p: Problem) {
    p.BlockMissing? || p.ReferencedTooFar?
  }

  /** Every address that any readable tree needs can be read. */
  ghost predicate AllReadable(bands: Bands, blocks: Blocks) {
    Readable(Referenced(bands), blocks)
  }

  ghost predicate Readable(refs: set<Address>, blocks: Blocks) {
    forall a :: a in refs ==> ReadRange(blocks, a).Ok?
  }

  /** What there is to report about blocks: a referenced block that cannot be read, or one that ends before
      the furthest reference into it. */
  ghost predicate Warranted(refs: set<Address>, blocks: Blocks, p: Problem) {
    match p
    case BlockMissing(h) => (exists a :: a in refs && a.hash == h) && ReadBlock(blocks, h).Err?
    case ReferencedTooFar(h, actual, referenced) =>
      ReadBlock(blocks, h).Ok? && |ReadBlock(blocks, h).value| == actual < referenced &&
      (exists a :: a in refs && a.hash == h && End(a) == referenced) &&
      (forall a :: a in refs && a.hash == h ==> End(a) <= referenced)
    case _ => false
  }

  lemma ComparisonWarranted(refs: set<Address>, blocks: Blocks, referenced: map<BlockHash, nat>,
                            actual: map<BlockHash, nat>, p: Problem)
    requires Furthest(referenced, refs)
    requires Measured(actual, blocks)
    ensures (exists h :: Comparison(referenced, actual, h, p)) <==> Warranted(refs, blocks, p)
  {
    if Warranted(refs, blocks, p) {
      assert Comparison(referenced, actual, p.hash, p);
    }
  }

  lemma NothingWarrantedIffReadable(refs: set<Address>, blocks: Blocks)
    ensures (forall p :: !Warranted(refs, blocks, p)) <==> Readable(refs, blocks)
  {
    if a :| a in refs && ReadRange(blocks, a).Err? {
      SomethingWarranted(refs, blocks, a);
    }
  }

  lemma SomethingWarranted(refs: set<Address>, blocks: Blocks, a: Address)
    requires a in refs && ReadRange(blocks, a).Err?
    ensures exists p :: Warranted(refs, blocks, p)
  {
    if ReadBlock(blocks, a.hash).Err? {
      assert Warranted(refs, blocks, BlockMissing(a.hash));
    } else {
      var same := set b | b in refs && b.hash == a.hash;
      assert a in same;
      var top := Top(same);
      assert End(a) <= End(top);
      forall b | b in refs && b.hash == a.hash ensures End(b) <= End(top) {
        assert b in same;
      }
      assert Warranted(refs, blocks, ReferencedTooFar(a.hash, |ReadBlock(blocks, a.hash).value|, End(top)));
    }
  }

  lemma {:induction false} Top(refs: set<Address>) returns (top: Address)
    requires refs != {}
    ensures top in refs && forall a :: a in refs ==> End(a) <= End(top)
    decreases refs
  {
    top :| top in refs;
    if refs != {top} {
      var rest := refs - {top};
      var other := Top(rest);
      assert forall a :: a in refs ==> a == top || a in rest;
      top := if End(other) > End(top) then other else top;
    }
  }

  /** Full validation.  With `failed` the blocks that could not be fetched, it finds nothing missing or short
      exactly when every address of every file in every readable band lies inside another present block with
      the right hash. */
  method ValidateArchive(blockDir: BlockDir) returns (problems: set<Problem>, failed: set<BlockHash>)
    requires blockDir.Honest() && WellFormedBands(blockDir.archive.bands)
    modifies blockDir
    ensures blockDir.Honest() && failed <= blockDir.archive.blocks.Keys
    ensures forall h :: h in failed ==> blockDir.archive.faults.block(h)
    ensures (forall p :: p in problems ==> !AboutBlocks(p)) <==>
      AllReadable(blockDir.archive.bands, blockDir.archive.blocks - failed)
    ensures forall p :: AboutBlocks(p) ==>
      (p in problems <==> Warranted(Referenced(blockDir.archive.bands), blockDir.archive.blocks - failed, p))
    ensures forall b :: BandUnreadable(b) in problems <==>
      b in blockDir.archive.bands && !BandOpens(blockDir.archive.bands, b)
    ensures forall p: Problem :: p.BlockUnreadable? ==>
      (p in problems <==> IsBlockProblem(p, blockDir.archive.blocks, failed))
  {
    hide Referenced, Furthest, ReadBlock, Readable, Warranted, Comparison, Measured;
    var referenced, bandProblems := ValidateBands(blockDir.archive);
    var actual, blockProblems, unfetched := ValidateBlocks(blockDir);
    failed := unfetched;
    var compared := CompareLengths(referenced, actual);
    problems := bandProblems + blockProblems + compared;
    ghost var refs, blocks := Referenced(blockDir.archive.bands), blockDir.archive.blocks - failed;
    forall p ensures p in compared <==> Warranted(refs, blocks, p) {
      ComparisonWarranted(refs, blocks, referenced, actual, p);
    }
    forall p | Warranted(refs, blocks, p) ensures AboutBlocks(p) {
      WarrantedIsAboutBlocks(refs, blocks, p);
    }
    NothingWarrantedIffReadable(refs, blocks);
  }

  /** A clean result stays true of the whole store: more blocks read no worse. */
  lemma CleanOfAll(bands: Bands, blocks: Blocks, failed: set<BlockHash>)
    requires AllReadable(bands, blocks - failed)
    ensures AllReadable(bands, blocks)
  {
    hide Referenced;
    forall a | a in Referenced(bands) ensures ReadRange(blocks, a).Ok? {
      assert ReadRange(blocks - failed, a).Ok?;
    }
  }

  lemma WarrantedIsAboutBlocks(refs: set<Address>, blocks: Blocks, p: Problem)
    requires Warranted(refs, blocks, p)
    ensures AboutBlocks(p)
  {
  }

  /** Quick validation looks only at the names of the files present. */
  method ValidateQuickly(archive: Archive) returns (problems: set<Problem>)
    requires WellFormedBands(archive.bands)
    ensures forall h :: BlockMissing(h) in problems <==>
      h !in archive.blocks && exists a :: a in Referenced(archive.bands) && a.hash == h
    ensures forall p :: p in problems ==> p.BlockMissing? || p.BandUnreadable?
    ensures forall b :: BandUnreadable(b) in problems <==> b in archive.bands && !BandOpens(archive.bands, b)
  {
    hide Referenced;
    var referenced, bandProblems := ValidateBands(archive);
    problems := bandProblems;
    var left := referenced.Keys;
    while left != {}
      invariant left <= referenced.Keys
      invariant forall h :: BlockMissing(h) in problems <==> h in referenced && h !in left && h !in archive.blocks
      invariant forall p :: p in problems ==> p.BlockMissing? || p.BandUnreadable?
      invariant forall b :: BandUnreadable(b) in problems <==> BandUnreadable(b) in bandProblems
      decreases left
    {
      var h :| h in left;
      left := left - {h};
      if h !in archive.blocks {
        problems := problems + {BlockMissing(h)};
      }
    }
  }

  // ----- what a clean result is worth

  lemma {:induction false} ReadAllIffRanges(blocks: Blocks, addrs: seq<Address>)
    ensures ReadAll(blocks, addrs).Ok? <==> forall a :: a in addrs ==> ReadRange(blocks, a).Ok?
  {
    if addrs != [] {
      ReadAllIffRanges(blocks, addrs[1..]);
      assert forall a :: a in addrs <==> a == addrs[0] || a in addrs[1..];
    }
  }

  ghost predicate AllRestore(bands: Bands, blocks: Blocks) {
    forall b, e :: b in bands && BandOpens(bands, b) && e in StoredTree(bands, b) && e.kind.File? ==>
      ReadAll(blocks, e.addrs).Ok?
  }

  /** A clean result means exactly that every file of every readable tree restores. */
  lemma CleanMeansRestorable(bands: Bands, blocks: Blocks)
    ensures AllReadable(bands, blocks) <==> AllRestore(bands, blocks)
  {
    if AllReadable(bands, blocks) {
      forall b, e | b in bands && BandOpens(bands, b) && e in StoredTree(bands, b) && e.kind.File?
        ensures ReadAll(blocks, e.addrs).Ok?
      {
        forall a | a in e.addrs ensures ReadRange(blocks, a).Ok? {
          assert a in FileAddresses(StoredTree(bands, b));
          assert a in Referenced(bands);
        }
        ReadAllIffRanges(blocks, e.addrs);
      }
    }
    if AllRestore(bands, blocks) {
      forall a | a in Referenced(bands) ensures ReadRange(blocks, a).Ok? {
        var b :| b in bands && BandOpens(bands, b) && a in FileAddresses(StoredTree(bands, b));
        var e :| e in StoredTree(bands, b) && e.kind.File? && a in e.addrs;
        ReadAllIffRanges(blocks, e.addrs);
      }
    }
  }

  lemma {:induction false} SelectedFrom(es: seq<IndexEntry>, e: IndexEntry)
    requires e in Selected(Root, ExcludeNothing, es)
    ensures e in es
  {
    if e !in (if Wanted(Root, ExcludeNothing, es[0]) then [es[0]] else []) {
      SelectedFrom(es[1..], e);
    }
  }

  /** Whatever was backed up, with any files failing to be read and any backups stopped part-way: as long as
      every combined block could be stored, the archive validates. */
  lemma BackupsValidate(jobs: seq<Job>)
    requires GoodJobs(jobs)
    ensures AllReadable(RunJobs(jobs).bands, RunJobs(jobs).blocks)
  {
    hide HoldsJobs, GoodJobs, RunJobs, AllReadable;
    EveryBackupReadsBack(jobs);
    HeldIsReadable(RunJobs(jobs), jobs);
  }

  lemma HeldIsReadable(st: ArchiveState, jobs: seq<Job>)
    requires HoldsJobs(st, jobs)
    ensures AllReadable(st.bands, st.blocks)
  {
    hide Expected, WellFormed, Referenced;
    forall b, e | b in st.bands && BandOpens(st.bands, b) && e in StoredTree(st.bands, b) && e.kind.File?
      ensures ReadAll(st.blocks, e.addrs).Ok?
    {
      var tree, expected := Stitched(st.bands, b, None), Expected(jobs[..b + 1]);
      SelectedFrom(tree, e);
      assert HoldsJob(st, jobs, b);
      var i :| 0 <= i < |tree| && tree[i] == e;
      assert Represents(st.blocks, tree[i], expected[i]);
    }
    CleanMeansRestorable(st.bands, st.blocks);
  }
}
