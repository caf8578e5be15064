/** Entries of a source tree and of a stored index (src/entry.rs, src/index.rs, src/blockdir.rs). */
module Entries {
  import opened Base
  import opened Apaths

  newtype Byte = x: int | 0 <= x < 256

  type Bytes = seq<Byte>

  /** The name of a block.  BLAKE2b is taken to be collision-free, so a hash is represented by the
      one content that has it. */
  datatype BlockHash = BlockHash(preimage: Bytes)

  function HashBytes(data: Bytes): BlockHash {
    BlockHash(data)
  }

  datatype Address = Address(hash: BlockHash, start: nat, len: nat)

  datatype Kind = File | Dir | Symlink | Unknown

  datatype KindMeta = FileMeta(size: nat) | DirMeta | SymlinkMeta(target: string) | UnknownMeta

  datatype Owner = Owner(user: Option<string>, group: Option<string>)

  /** A source entry; `mtime` counts nanoseconds from the Unix epoch. */
  datatype EntryValue = EntryValue(
    apath: Apath, kindMeta: KindMeta, mtime: int, unixMode: Option<nat>, owner: Owner)
  {
    function Kind(): Kind {
      match kindMeta
      case FileMeta(_) => File
      case DirMeta => Dir
      case SymlinkMeta(_) => Symlink
      case UnknownMeta => Unknown
    }

    function Size(): Option<nat> {
      if kindMeta.FileMeta? then Some(kindMeta.size) else None
    }

    function SymlinkTarget(): Option<string> {
      if kindMeta.SymlinkMeta? then Some(kindMeta.target) else None
    }
  }

  const NANOS := 1_000_000_000

  /** An index entry stores the time as whole seconds and a nanosecond part. */
  datatype IndexEntry = IndexEntry(
    apath: Apath, kind: Kind, mtime: int, mtimeNanos: int, unixMode: Option<nat>, owner: Owner,
    addrs: seq<Address>, target: Option<string>)
  {
    function Time(): int {
      mtime * NANOS + mtimeNanos
    }

    function Size(): Option<nat> {
      Some(TotalLen(addrs))
    }
  }

  function TotalLen(addrs: seq<Address>): nat {
    if addrs == [] then 0 else addrs[0].len + TotalLen(addrs[1..])
  }

  /** Copy the metadata of a source entry; the result has no blocks. */
  function MetadataFrom(source: EntryValue): IndexEntry {
    IndexEntry(source.apath, source.Kind(), source.mtime / NANOS, source.mtime % NANOS,
               source.unixMode, source.owner, [], source.SymlinkTarget())
  }

  /** Everything `MetadataFrom` keeps, told apart from the block addresses. */
  predicate SameMetadata(e: IndexEntry, source: EntryValue) {
    e.apath == source.apath && e.kind == source.Kind() && e.Time() == source.mtime &&
    e.unixMode == source.unixMode && e.owner == source.owner && e.target == source.SymlinkTarget()
  }

  lemma MetadataKept(source: EntryValue, addrs: seq<Address>)
    ensures SameMetadata(MetadataFrom(source).(addrs := addrs), source)
    ensures
      var e := MetadataFrom(source);
      0 <= e.mtimeNanos < 1_000_000_000 && e.mtime * 1_000_000_000 + e.mtimeNanos == source.mtime && e.addrs == []
  {
  }

  function EntryKey(e: IndexEntry): Apath {
    e.apath
  }

  function SourceKey(e: EntryValue): Apath {
    e.apath
  }
}
