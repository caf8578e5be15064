/** File content: reading it in blocks, storing the blocks, and reading it back
    (src/io.rs, src/backup.rs, src/restore.rs). */
module Content {
  import opened Base
  import opened Entries
  import opened Storage
  import opened BlockDirs
  import opened BackupStatistics

  // ----- reading a source file

  /** A file being read.  Each read may deliver fewer bytes than asked for, and of some files may fail. */
  class Reader {
    const flaky: bool
    var rest: Bytes

    constructor (content: Bytes, flaky: bool)
      ensures rest == content && this.flaky == flaky
    {
      rest, this.flaky := content, flaky;
    }

    method Read(len: nat) returns (r: Result<Bytes, BlockError>)
      modifies this
      ensures r.Ok? ==> old(rest) == r.value + rest && |r.value| <= len
      ensures r.Ok? && len > 0 && old(rest) != [] ==> r.value != []
      ensures r.Err? ==> rest == old(rest) && flaky
    {
      var fails: bool := *;
      if fails && flaky { return Err(TransportError); }
      if len == 0 || rest == [] { return Ok([]); }
      var n :| 1 <= n <= len && n <= |rest|;
      r := Ok(rest[..n]);
      rest := rest[n..];
    }
  }

  function Min(a: nat, b: nat): nat {
    if a < b then a else b
  }

  /** However the reads are cut, the result is the next `len` bytes, or all that are left. */
  method ReadWithRetries(len: nat, file: Reader) returns (r: Result<Bytes, BlockError>)
    modifies file
    ensures r.Ok? ==> r.value == old(file.rest)[..Min(len, |old(file.rest)|)]
    ensures r.Ok? ==> file.rest == old(file.rest)[Min(len, |old(file.rest)|)..]
    ensures r.Err? ==> file.flaky
  {
    var buf: Bytes := [];
    while |buf| < len
      invariant |buf| <= len && old(file.rest) == buf + file.rest
      decreases len - |buf|
    {
      var got := file.Read(len - |buf|);
      if got.Err? { return Err(got.error); }
      if got.value == [] { break; }
      buf := buf + got.value;
    }
    return Ok(buf);
  }

  // ----- large files in blocks

  /** The content cut into blocks of `max` bytes, the last one perhaps shorter. */
  function Chunks(content: Bytes, max: nat): seq<Bytes>
    requires max > 0
  {
    if content == [] then []
    else [content[..Min(max, |content|)]] + Chunks(content[Min(max, |content|)..], max)
  }

  function StoreAll(blocks: Blocks, chunks: seq<Bytes>): Blocks
    decreases chunks
  {
    if chunks == [] then blocks else StoreAll(StoreBlock(blocks, chunks[0]), chunks[1..])
  }

  function WholeAddress(chunk: Bytes): Address {
    Address(HashBytes(chunk), 0, |chunk|)
  }

  function WholeAddresses(chunks: seq<Bytes>): seq<Address> {
    if chunks == [] then [] else [WholeAddress(chunks[0])] + WholeAddresses(chunks[1..])
  }

  lemma {:induction false} ChunkSizes(content: Bytes, max: nat, i: nat)
    requires max > 0 && i < |Chunks(content, max)|
    ensures 0 < |Chunks(content, max)[i]| <= max
    ensures i < |Chunks(content, max)| - 1 ==> |Chunks(content, max)[i]| == max
  {
    var n := Min(max, |content|);
    if i > 0 {
      ChunkSizes(content[n..], max, i - 1);
    }
  }

  function CountBlocks(st: Stats, blocks: Blocks, chunks: seq<Bytes>): Stats
    decreases chunks
  {
    if chunks == [] then st
    else CountBlocks(st.CountBlock(|chunks[0]|, Contains(blocks, HashBytes(chunks[0]))),
                     StoreBlock(blocks, chunks[0]), chunks[1..])
  }

  function CountFile(st: Stats, blocks: nat): Stats {
    if blocks == 0 then st.(emptyFiles := st.emptyFiles + 1)
    else if blocks == 1 then st.(singleBlockFiles := st.singleBlockFiles + 1)
    else st.(multiBlockFiles := st.multiBlockFiles + 1)
  }

  lemma NothingStored(st: Stats, blocks: Blocks)
    ensures StoreAll(blocks, []) == blocks && CountBlocks(st, blocks, []) == st && WholeAddresses([]) == []
  {
  }

  /** One more block, at the end. */
  lemma {:induction false} StoreOneMore(st: Stats, blocks: Blocks, chunks: seq<Bytes>, data: Bytes)
    ensures StoreAll(blocks, chunks + [data]) == StoreBlock(StoreAll(blocks, chunks), data)
    ensures CountBlocks(st, blocks, chunks + [data]) ==
      CountBlocks(st, blocks, chunks).CountBlock(|data|, Contains(StoreAll(blocks, chunks), HashBytes(data)))
    decreases chunks
  {
    var all := chunks + [data];
    if chunks == [] {
      assert all[1..] == [];
    } else {
      assert all[0] == chunks[0] && all[1..] == chunks[1..] + [data];
      StoreOneMore(st.CountBlock(|chunks[0]|, Contains(blocks, HashBytes(chunks[0]))),
                   StoreBlock(blocks, chunks[0]), chunks[1..], data);
    }
  }

  lemma {:induction false} AddressOneMore(chunks: seq<Bytes>, data: Bytes)
    ensures WholeAddresses(chunks + [data]) == WholeAddresses(chunks) + [WholeAddress(data)]
  {
    var all := chunks + [data];
    if chunks == [] {
      assert all[1..] == [];
    } else {
      assert all[0] == chunks[0] && all[1..] == chunks[1..] + [data];
      AddressOneMore(chunks[1..], data);
    }
  }

  predicate FaultyBlock(archive: Archive, data: Bytes) {
    archive.faults.block(HashBytes(data))
  }

  /** Store a file block by block.  When nothing fails, the blocks of the content are stored, every
      one but the last of exactly the block size, and the addresses name them in order.  Otherwise the
      blocks before the failure are stored and counted; and then the file or one of its blocks is at fault. */
  method StoreFileContent(file: Reader, blockDir: BlockDir, counts: Stats, max: nat)
    returns (r: Result<seq<Address>, BlockError>, stats: Stats, stored: seq<Bytes>)
    requires max > 0 && blockDir.Honest() && Sound(blockDir.archive.blocks)
    modifies file, blockDir, blockDir.archive`blocks
    ensures blockDir.Honest() && Sound(blockDir.archive.blocks)
    ensures blockDir.archive.blocks == StoreAll(old(blockDir.archive.blocks), stored)
    ensures stored <= Chunks(old(file.rest), max)
    ensures r.Ok? ==> stored == Chunks(old(file.rest), max) && r.value == WholeAddresses(stored)
    ensures r.Err? ==> file.flaky || exists c :: c in Chunks(old(file.rest), max) && FaultyBlock(blockDir.archive, c)
    ensures stats == if r.Ok? then CountFile(CountBlocks(counts, old(blockDir.archive.blocks), stored), |stored|)
                     else CountBlocks(counts, old(blockDir.archive.blocks), stored)
  {
    hide Sound, StoreBlock, StoreAll, CountBlocks, CountFile, WholeAddresses;
    ghost var content, blocks := file.rest, blockDir.archive.blocks;
    NothingStored(counts, blocks);
    var addresses: seq<Address> := [];
    stats, stored := counts, [];
    assert [] + Chunks(content, max) == Chunks(content, max);
    while true
      invariant blockDir.Honest() && Sound(blockDir.archive.blocks)
      invariant blockDir.archive.blocks == StoreAll(blocks, stored) && stats == CountBlocks(counts, blocks, stored)
      invariant Chunks(content, max) == stored + Chunks(file.rest, max)
      invariant addresses == WholeAddresses(stored) && |addresses| == |stored|
      decreases |file.rest|
    {
      ghost var left := file.rest;
      var buffer := ReadWithRetries(max, file);
      if buffer.Err? { return Err(buffer.error), stats, stored; }
      if buffer.value == [] { break; }
      var data := buffer.value;
      assert Chunks(left, max) == [data] + Chunks(file.rest, max);
      StoreKeepsSound(blockDir.archive.blocks, data);
      StoreOneMore(counts, blocks, stored, data);
      AddressOneMore(stored, data);
      var hash, deduplicated := blockDir.StoreOrDeduplicate(data);
      if hash.Err? {
        assert data in stored + ([data] + Chunks(file.rest, max)) && FaultyBlock(blockDir.archive, data);
        return Err(hash.error), stats, stored;
      }
      stats := stats.CountBlock(|data|, deduplicated);
      addresses := addresses + [Address(hash.value, 0, |data|)];
      stored := stored + [data];
    }
    stats := CountFile(stats, |addresses|);
    return Ok(addresses), stats, stored;
  }

  // ----- reading it back

  function Prepend(first: Bytes, rest: Result<Bytes, BlockError>): Result<Bytes, BlockError> {
    if rest.Ok? then Ok(first + rest.value) else rest
  }

  /** What restoring a file delivers: the addressed ranges one after another, or the first error. */
  function ReadAll(blocks: Blocks, addrs: seq<Address>): Result<Bytes, BlockError> {
    if addrs == [] then Ok([])
    else
      match ReadRange(blocks, addrs[0])
      case Err(e) => Err(e)
      case Ok(first) => Prepend(first, ReadAll(blocks, addrs[1..]))
  }

  lemma PrependLaws(a: Bytes, b: Bytes, r: Result<Bytes, BlockError>)
    ensures Prepend(a, Prepend(b, r)) == Prepend(a + b, r) && Prepend([], r) == r
  {
    if r.Ok? {
      assert a + (b + r.value) == (a + b) + r.value && [] + r.value == r.value;
    }
  }

  lemma {:induction false} ReadAllOneMore(blocks: Blocks, addrs: seq<Address>, a: Address)
    requires ReadAll(blocks, addrs).Ok? && ReadRange(blocks, a).Ok?
    ensures ReadAll(blocks, addrs + [a]) == Ok(ReadAll(blocks, addrs).value + ReadRange(blocks, a).value)
  {
    hide ReadRange;
    var last := ReadRange(blocks, a).value;
    if addrs == [] {
      assert addrs + [a] == [a] && [a][1..] == [] && last + [] == last == [] + last;
    } else {
      var first := ReadRange(blocks, addrs[0]).value;
      assert (addrs + [a])[1..] == addrs[1..] + [a];
      ReadAllOneMore(blocks, addrs[1..], a);
      PrependLaws(first, ReadAll(blocks, addrs[1..]).value, Ok(last));
    }
  }

  /** The restore loop: append the bytes of each address to the output file.  Reading some blocks may fail, and so may
      writing, if the output is at fault; `written` is what the file then holds. */
  method RestoreFile(addrs: seq<Address>, blockDir: BlockDir, badOutput: bool)
    returns (r: Result<Bytes, BlockError>, written: Bytes)
    requires blockDir.Honest()
    modifies blockDir
    ensures blockDir.Honest()
    ensures r == ReadAll(blockDir.archive.blocks, addrs) ||
      (r == Err(TransportError) && (badOutput || exists a :: a in addrs && blockDir.archive.faults.block(a.hash)))
    ensures r.Ok? ==> written == r.value
    ensures exists n :: 0 <= n <= |addrs| && ReadAll(blockDir.archive.blocks, addrs[..n]) == Ok(written)
  {
    written := [];
    PrependLaws([], [], ReadAll(blockDir.archive.blocks, addrs));
    assert addrs[0..] == addrs;
    for i := 0 to |addrs|
      invariant blockDir.Honest()
      invariant ReadAll(blockDir.archive.blocks, addrs) ==
        Prepend(written, ReadAll(blockDir.archive.blocks, addrs[i..]))
      invariant ReadAll(blockDir.archive.blocks, addrs[..i]) == Ok(written)
    {
      assert addrs[i..][1..] == addrs[i + 1..];
      var bytes := blockDir.ReadAddress(addrs[i]);
      if bytes.Err? { return Err(bytes.error), written; }
      var fails: bool := *;
      if fails && badOutput { return Err(TransportError), written; }
      PrependLaws(written, bytes.value, ReadAll(blockDir.archive.blocks, addrs[i + 1..]));
      ReadAllOneMore(blockDir.archive.blocks, addrs[..i], addrs[i]);
      assert addrs[..i] + [addrs[i]] == addrs[..i + 1];
      written := written + bytes.value;
    }
    assert written + [] == written && addrs[..|addrs|] == addrs;
    return Ok(written), written;
  }

  lemma {:induction false} ReadAllExtends(more: Blocks, blocks: Blocks, addrs: seq<Address>)
    requires Extends(more, blocks) && ReadAll(blocks, addrs).Ok?
    ensures ReadAll(more, addrs) == ReadAll(blocks, addrs)
  {
    if addrs != [] {
      ReadRangeExtends(more, blocks, addrs[0]);
      ReadAllExtends(more, blocks, addrs[1..]);
    }
  }

  lemma {:induction false} StoreAllKeepsSound(blocks: Blocks, chunks: seq<Bytes>)
    requires Sound(blocks)
    ensures Sound(StoreAll(blocks, chunks)) && Extends(StoreAll(blocks, chunks), blocks)
    ensures forall c :: c in chunks ==> HashBytes(c) in StoreAll(blocks, chunks)
    decreases chunks
  {
    if chunks != [] {
      StoreKeepsSound(blocks, chunks[0]);
      StoreAllKeepsSound(StoreBlock(blocks, chunks[0]), chunks[1..]);
    }
  }

  lemma ReadWhole(blocks: Blocks, chunk: Bytes)
    requires Sound(blocks) && HashBytes(chunk) in blocks
    ensures ReadRange(blocks, WholeAddress(chunk)) == Ok(chunk)
  {
    assert chunk[0..0 + |chunk|] == chunk;
  }

  lemma {:induction false} ReadChunks(blocks: Blocks, content: Bytes, max: nat)
    requires max > 0 && Sound(blocks) && forall c :: c in Chunks(content, max) ==> HashBytes(c) in blocks
    ensures ReadAll(blocks, WholeAddresses(Chunks(content, max))) == Ok(content)
    ensures TotalLen(WholeAddresses(Chunks(content, max))) == |content|
    decreases |content|
  {
    if content != [] {
      var n := Min(max, |content|);
      var first, rest := content[..n], Chunks(content[n..], max);
      assert Chunks(content, max)[1..] == rest;
      ReadChunks(blocks, content[n..], max);
      assert Chunks(content, max)[0] == first;
      assert WholeAddresses(Chunks(content, max))[1..] == WholeAddresses(rest);
      ReadWhole(blocks, first);
      assert content == first + content[n..];
    }
  }

  /** A file stored in blocks reads back as its content, and its addresses add up to its size. */
  lemma ChunksReadBack(blocks: Blocks, content: Bytes, max: nat)
    requires max > 0 && Sound(blocks)
    ensures ReadAll(StoreAll(blocks, Chunks(content, max)), WholeAddresses(Chunks(content, max))) == Ok(content)
    ensures TotalLen(WholeAddresses(Chunks(content, max))) == |content|
  {
    StoreAllKeepsSound(blocks, Chunks(content, max));
    ReadChunks(StoreAll(blocks, Chunks(content, max)), content, max);
  }
}
