/** The content-addressed block store behind its two caches (src/blockdir.rs). */
module BlockDirs {
  import opened Base
  import opened Entries
  import opened Storage

  datatype BlockError =
    | NotFound
    | Undecodable
    | BlockCorrupt
    | BlockTooShort(actual: nat, referenced: nat)
    | TransportError

  // ----- the store as a plain map from hash to file

  /** A block counts as present when its file exists and is not empty. */
  predicate Contains(blocks: Blocks, h: BlockHash) {
    h in blocks && !blocks[h].EmptyFile?
  }

  /** Read and check a whole block. */
  function ReadBlock(blocks: Blocks, h: BlockHash): Result<Bytes, BlockError> {
    if h !in blocks then Err(NotFound)
    else if !blocks[h].Holds? then Err(Undecodable)
    else if HashBytes(blocks[h].content) != h then Err(BlockCorrupt)
    else Ok(blocks[h].content)
  }

  /** A block reads exactly if its file is there, can be decoded, and holds what its name says; each error says which of
      these fails first. */
  lemma ReadBlockMeans(blocks: Blocks, h: BlockHash)
    ensures ReadBlock(blocks, h).Ok? <==> h in blocks && blocks[h] == Holds(h.preimage)
    ensures ReadBlock(blocks, h).Ok? ==> ReadBlock(blocks, h).value == h.preimage
    ensures ReadBlock(blocks, h) == Err(NotFound) <==> h !in blocks
    ensures ReadBlock(blocks, h) == Err(Undecodable) <==> h in blocks && blocks[h] in {EmptyFile, Garbled}
    ensures ReadBlock(blocks, h) == Err(BlockCorrupt) <==>
      h in blocks && blocks[h].Holds? && blocks[h].content != h.preimage
  {
  }

  function ReadRange(blocks: Blocks, a: Address): Result<Bytes, BlockError> {
    match ReadBlock(blocks, a.hash)
    case Err(e) => Err(e)
    case Ok(bytes) =>
      if a.start + a.len > |bytes| then Err(BlockTooShort(|bytes|, a.len))
      else Ok(bytes[a.start..a.start + a.len])
  }

  /** A range reads exactly if its block does and is long enough; otherwise the error says how long the block is and how
      much was asked for. */
  lemma ReadRangeMeans(blocks: Blocks, a: Address)
    ensures ReadRange(blocks, a).Ok? <==> ReadBlock(blocks, a.hash).Ok? && a.start + a.len <= |a.hash.preimage|
    ensures ReadRange(blocks, a).Ok? ==> ReadRange(blocks, a).value == a.hash.preimage[a.start..][..a.len]
    ensures forall actual, wanted :: ReadRange(blocks, a) == Err(BlockTooShort(actual, wanted)) <==>
      ReadBlock(blocks, a.hash).Ok? && actual == |a.hash.preimage| < a.start + a.len && wanted == a.len
    ensures ReadBlock(blocks, a.hash).Err? ==> ReadRange(blocks, a) == Err(ReadBlock(blocks, a.hash).error)
  {
    ReadBlockMeans(blocks, a.hash);
    if a.start + a.len <= |a.hash.preimage| {
      assert a.hash.preimage[a.start..][..a.len] == a.hash.preimage[a.start..a.start + a.len];
    }
  }

  /** Create the block's file unless a file of that name is already there. */
  function StoreBlock(blocks: Blocks, data: Bytes): Blocks {
    if HashBytes(data) in blocks then blocks else blocks[HashBytes(data) := Holds(data)]
  }

  /** Storing gives the data back exactly when its file was absent or already right: a present file
      that is empty, garbled or wrong is left as it is. */
  lemma StoreReadsBack(blocks: Blocks, data: Bytes)
    ensures ReadBlock(StoreBlock(blocks, data), HashBytes(data)) == Ok(data) <==>
      (HashBytes(data) in blocks ==> blocks[HashBytes(data)] == Holds(data))
  {
  }

  /** Every file holds the content that its name says. */
  ghost predicate Sound(blocks: Blocks) {
    forall h :: h in blocks ==> blocks[h] == Holds(h.preimage)
  }

  ghost predicate Extends(more: Blocks, blocks: Blocks) {
    forall h :: h in blocks ==> h in more && more[h] == blocks[h]
  }

  lemma StoreKeepsSound(blocks: Blocks, data: Bytes)
    requires Sound(blocks)
    ensures Sound(StoreBlock(blocks, data)) && Extends(StoreBlock(blocks, data), blocks)
    ensures ReadBlock(StoreBlock(blocks, data), HashBytes(data)) == Ok(data)
  {
  }

  lemma ReadRangeExtends(more: Blocks, blocks: Blocks, a: Address)
    requires Extends(more, blocks) && ReadRange(blocks, a).Ok?
    ensures ReadRange(more, a) == ReadRange(blocks, a)
  {
  }

  // ----- the store with caches

  class BlockDir {
    const archive: Archive

    /** Contents of some blocks. */
    var cache: map<BlockHash, Bytes>

    /** Blocks known to be present. */
    var known: set<BlockHash>

    /** The caches claim nothing that the stored files do not bear out. */
    ghost predicate Honest()
      reads this, archive`blocks
    {
      (forall h :: h in cache ==>
        h in archive.blocks && archive.blocks[h] == Holds(cache[h]) && HashBytes(cache[h]) == h) &&
      (forall h :: h in known ==> Contains(archive.blocks, h))
    }

    constructor (archive: Archive)
      ensures this.archive == archive && Honest() && cache == map[] && known == {}
    {
      this.archive := archive;
      cache, known := map[], {};
    }

    /** Room is made by forgetting any entries at all. */
    method Evict()
      modifies this
      ensures forall h :: h in cache ==> h in old(cache) && cache[h] == old(cache)[h]
      ensures known <= old(known)
      ensures old(Honest()) ==> Honest()
    {
      var keep: set<BlockHash>, keepKnown: set<BlockHash> := *, *;
      cache := map h | h in cache && h in keep :: cache[h];
      known := known * keepKnown;
    }

    /** Presence, answered from the caches or the files: the same as the plain map, unless asking fails. */
    method IsPresent(h: BlockHash) returns (r: Result<bool, BlockError>)
      requires Honest()
      modifies this
      ensures Honest()
      ensures r == Ok(Contains(archive.blocks, h)) || r == Err(TransportError)
      ensures r.Err? ==> h !in old(cache) && h !in old(known) && archive.faults.block(h)
    {
      if h in cache || h in known { return Ok(true); }
      var fails: bool := *;
      if fails && archive.faults.block(h) { return Err(TransportError); }
      if h !in archive.blocks || archive.blocks[h].EmptyFile? { return Ok(false); }
      Evict();
      known := known + {h};
      return Ok(true);
    }

    /** Store a block, or find that it is there already.  Any write may fail.  The caches stay honest
        exactly when there was no empty file of that name: creating the file then reports that it
        exists, which is taken for success. */
    method StoreOrDeduplicate(data: Bytes) returns (r: Result<BlockHash, BlockError>, deduplicated: bool)
      requires Honest()
      modifies this, archive`blocks
      ensures r.Err? ==> archive.blocks == old(archive.blocks) && Honest() && archive.faults.block(HashBytes(data))
      ensures r.Ok? ==> r.value == HashBytes(data) && archive.blocks == StoreBlock(old(archive.blocks), data)
      ensures r.Ok? ==> deduplicated == Contains(old(archive.blocks), HashBytes(data))
      ensures r.Ok? ==>
        (Honest() <==> !(HashBytes(data) in old(archive.blocks) && old(archive.blocks)[HashBytes(data)].EmptyFile?))
    {
      var h := HashBytes(data);
      var present := IsPresent(h);
      if present.Err? { return Err(present.error), false; }
      if present.value { return Ok(h), true; }
      if h !in archive.blocks {
        var fails: bool := *;
        if fails && archive.faults.block(h) { return Err(TransportError), false; }
        archive.blocks := archive.blocks[h := Holds(data)];
      }
      Evict();
      cache := cache[h := data];
      known := known + {h};
      return Ok(h), false;
    }

    /** A whole block, from the cache or from its checked file: the same as the plain map, unless the
        transport fails, which it can only for a block that is not cached. */
    method GetBlockContent(h: BlockHash) returns (r: Result<Bytes, BlockError>)
      requires Honest()
      modifies this
      ensures Honest()
      ensures r == ReadBlock(archive.blocks, h) ||
        (r == Err(TransportError) && h !in old(cache) && archive.faults.block(h))
    {
      if h in cache { return Ok(cache[h]); }
      var fails: bool := *;
      if fails && archive.faults.block(h) { return Err(TransportError); }
      r := ReadBlock(archive.blocks, h);
      if r.Err? { return; }
      Evict();
      cache := cache[h := r.value];
      known := known + {h};
    }

    method ReadAddress(a: Address) returns (r: Result<Bytes, BlockError>)
      requires Honest()
      modifies this
      ensures Honest()
      ensures r == ReadRange(archive.blocks, a) ||
        (r == Err(TransportError) && a.hash !in old(cache) && archive.faults.block(a.hash))
    {
      var block := GetBlockContent(a.hash);
      if block.Err? { return Err(block.error); }
      var bytes := block.value;
      if a.start + a.len > |bytes| { return Err(BlockTooShort(|bytes|, a.len)); }
      return Ok(bytes[a.start..a.start + a.len]);
    }

    /** Forget a block and remove its file; any removal may fail, and then the file stays. */
    method DeleteBlock(h: BlockHash) returns (r: Result<(), BlockError>)
      requires Honest()
      modifies this, archive`blocks
      ensures Honest()
      ensures r.Ok? ==> h in old(archive.blocks) && archive.blocks == old(archive.blocks) - {h}
      ensures r.Err? ==> archive.blocks == old(archive.blocks)
      ensures r.Err? ==> h !in old(archive.blocks) || archive.faults.block(h)
      ensures h !in cache && h !in known
    {
      cache := cache - {h};
      known := known - {h};
      if h !in archive.blocks { return Err(NotFound); }
      var fails: bool := *;
      if fails && archive.faults.block(h) { return Err(TransportError); }
      archive.blocks := archive.blocks - {h};
      return Ok(());
    }
  }
}
