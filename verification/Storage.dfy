/** The archive as files: bands with their head, tail and index hunks, data blocks, and the lock. */
module Storage {
  import opened Base
  import opened Apaths
  import opened Entries

  /** One numbered index hunk file. */
  datatype Hunk =
    | Absent
    | Unreadable
    | Entries(entries: seq<IndexEntry>)

  /** `Refused` is a head that is present but cannot be opened (unsupported version or flags). */
  datatype Head = NoHead | Refused | Usable

  /** A band directory.  The position of a hunk in `hunks` is its number; `tail` says whether the
      tail file is present, which is what makes a band complete. */
  datatype BandFiles = BandFiles(head: Head, tail: bool, hunks: seq<Hunk>)

  /** Every band directory, by number. */
  type Bands = map<nat, BandFiles>

  lemma {:induction false} MaxExists(s: set<nat>)
    requires s != {}
    ensures exists m :: m in s && forall k :: k in s ==> k <= m
  {
    var x :| x in s;
    if s != {x} {
      var rest := s - {x};
      MaxExists(rest);
      var m :| m in rest && forall k :: k in rest ==> k <= m;
      assert forall k :: k in s ==> k == x || k in rest;
      var top := if x > m then x else m;
      assert top in s && forall k :: k in s ==> k <= top;
    }
  }

  /** The highest-numbered band directory, whether or not its band is complete. */
  ghost function LastBandId(bands: Bands): (r: Option<nat>)
    ensures r.None? <==> bands == map[]
    ensures r.Some? ==> r.value in bands && forall b :: b in bands ==> b <= r.value
  {
    if bands == map[] then None
    else
      var b :| b in bands;
      assert b in bands.Keys;
      MaxExists(bands.Keys);
      var m :| m in bands.Keys && forall k :: k in bands.Keys ==> k <= m;
      Some(m)
  }

  /** The id of a new band: the next after those that exist. */
  ghost function NextBandId(bands: Bands): (id: nat)
    ensures id !in bands && forall b :: b in bands ==> b < id
  {
    match LastBandId(bands)
    case None => 0
    case Some(b) => b + 1
  }

  /** A block file: empty, not decodable, or holding (the compressed form of) some content. */
  datatype BlockFile = EmptyFile | Garbled | Holds(content: Bytes)

  type Blocks = map<BlockHash, BlockFile>

  /** What may go wrong: any access to some block files; listing or reading some hunks; removing some bands, or the
      lock.  Nothing else fails. */
  datatype Faults = Faults(block: BlockHash -> bool, hunk: (nat, nat) -> bool, band: nat -> bool, lock: bool)

  const RELIABLE := Faults(_ => false, (_, _) => false, _ => false, false)

  /** The storage that every component of the program shares. */
  class Archive {
    const faults: Faults
    var bands: Bands
    var blocks: Blocks
    var gcLock: bool

    constructor (faults: Faults)
      ensures bands == map[] && blocks == map[] && !gcLock && this.faults == faults
    {
      this.faults := faults;
      bands, blocks, gcLock := map[], map[], false;
    }
  }
}
