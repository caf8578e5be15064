/** Combining small files into shared blocks (src/backup.rs, FileCombiner). */
module Combining {
  import opened Base
  import opened Apaths
  import opened Entries
  import opened Sorting
  import opened Storage
  import opened BlockDirs
  import opened Content
  import opened BackupStatistics

  /** A file whose bytes are in the buffer, waiting for the block's hash. */
  datatype QueuedFile = QueuedFile(start: nat, len: nat, entry: IndexEntry)

  datatype Combiner = Combiner(buf: Bytes, queue: seq<QueuedFile>, finished: seq<IndexEntry>, stats: Stats)

  const EMPTY := Combiner([], [], [], ZERO)

  /** How the one read of a small file comes out. */
  datatype ReadOutcome = ReadFailed | Got(bytes: Bytes)

  function WithAddress(qf: QueuedFile, hash: BlockHash): IndexEntry {
    qf.entry.(addrs := [Address(hash, qf.start, qf.len)])
  }

  function WithAddresses(queue: seq<QueuedFile>, hash: BlockHash): (r: seq<IndexEntry>)
    ensures |r| == |queue| && forall i :: 0 <= i < |r| ==> r[i] == WithAddress(queue[i], hash)
  {
    if queue == [] then [] else [WithAddress(queue[0], hash)] + WithAddresses(queue[1..], hash)
  }

  /** Store the buffer as one block and give every queued file its address in it.  The buffer is taken
      before the store is tried, so a failed store loses it and leaves the queue. */
  function Flush(c: Combiner, blocks: Blocks, storeOk: bool): (Combiner, Blocks) {
    if c.queue == [] then (c, blocks)
    else if !storeOk then (c.(buf := []), blocks)
    else
      var h := HashBytes(c.buf);
      var counted := c.stats.CountBlock(|c.buf|, Contains(blocks, h));
      (Combiner([], [], c.finished + WithAddresses(c.queue, h), counted.(combinedBlocks := counted.combinedBlocks + 1)),
       StoreBlock(blocks, c.buf))
  }

  function FlushFails(c: Combiner, storeOk: bool): bool {
    c.queue != [] && !storeOk
  }

  function Zeros(n: nat): (r: Bytes)
    ensures |r| == n
  {
    seq(n, _ => 0)
  }

  /** The combiner once a file's bytes are in the buffer, before any flush. */
  function Take(c: Combiner, e: EntryValue, read: ReadOutcome): Combiner
    requires e.kindMeta.FileMeta?
  {
    if e.kindMeta.size == 0 then
      c.(stats := c.stats.(emptyFiles := c.stats.emptyFiles + 1), finished := c.finished + [MetadataFrom(e)])
    else if read.ReadFailed? then c.(buf := c.buf + Zeros(e.kindMeta.size))
    else if read.bytes == [] then
      c.(stats := c.stats.(emptyFiles := c.stats.emptyFiles + 1), finished := c.finished + [MetadataFrom(e)])
    else
      c.(buf := c.buf + read.bytes,
         stats := c.stats.(smallCombinedFiles := c.stats.smallCombinedFiles + 1),
         queue := c.queue + [QueuedFile(|c.buf|, |read.bytes|, MetadataFrom(e))])
  }

  predicate Queues(e: EntryValue, read: ReadOutcome)
    requires e.kindMeta.FileMeta?
  {
    e.kindMeta.size > 0 && read.Got? && read.bytes != []
  }

  /** A file that is queued and fills the buffer makes it flush. */
  predicate Fills(c: Combiner, e: EntryValue, read: ReadOutcome, max: nat)
    requires e.kindMeta.FileMeta?
  {
    Queues(e, read) && |Take(c, e, read).buf| >= max
  }

  function Push(c: Combiner, blocks: Blocks, e: EntryValue, read: ReadOutcome, max: nat, storeOk: bool)
    : (Combiner, Blocks)
    requires e.kindMeta.FileMeta?
  {
    if Fills(c, e, read, max) then Flush(Take(c, e, read), blocks, storeOk) else (Take(c, e, read), blocks)
  }

  predicate PushFails(c: Combiner, e: EntryValue, read: ReadOutcome, max: nat, storeOk: bool)
    requires e.kindMeta.FileMeta?
  {
    (e.kindMeta.size > 0 && read.ReadFailed?) || (Fills(c, e, read, max) && !storeOk)
  }

  // ----- the files behind the entries

  /** A source file and the bytes that were read for it. */
  datatype Pushed = Pushed(entry: EntryValue, bytes: Bytes)

  function PushedKey(p: Pushed): Apath {
    p.entry.apath
  }

  /** A stored entry carries the file's metadata, and its addresses read back the file's bytes. */
  predicate Represents(blocks: Blocks, e: IndexEntry, p: Pushed) {
    SameMetadata(e, p.entry) && ReadAll(blocks, e.addrs) == Ok(p.bytes) && TotalLen(e.addrs) == |p.bytes|
  }

  ghost predicate AllRepresent(blocks: Blocks, es: seq<IndexEntry>, ps: seq<Pushed>) {
    |es| == |ps| && forall i :: 0 <= i < |es| ==> Represents(blocks, es[i], ps[i])
  }

  /** Queued files occupy disjoint ranges of the buffer, in order, and the ranges hold their bytes. */
  ghost predicate Buffered(buf: Bytes, queue: seq<QueuedFile>, ps: seq<Pushed>) {
    |queue| == |ps| &&
    (forall i, j :: 0 <= i < j < |queue| ==> queue[i].start + queue[i].len <= queue[j].start) &&
    (forall i :: 0 <= i < |queue| ==>
      queue[i].start + queue[i].len <= |buf| &&
      buf[queue[i].start..queue[i].start + queue[i].len] == ps[i].bytes &&
      queue[i].entry == MetadataFrom(ps[i].entry))
  }

  /** `done` are the files finished since the last drain, `waiting` those still queued. */
  ghost predicate Good(c: Combiner, blocks: Blocks, done: seq<Pushed>, waiting: seq<Pushed>) {
    Sound(blocks) && AllRepresent(blocks, c.finished, done) && Buffered(c.buf, c.queue, waiting)
  }

  lemma RepresentsExtends(more: Blocks, blocks: Blocks, es: seq<IndexEntry>, ps: seq<Pushed>)
    requires Extends(more, blocks) && AllRepresent(blocks, es, ps)
    ensures AllRepresent(more, es, ps)
  {
    forall i | 0 <= i < |es| ensures Represents(more, es[i], ps[i]) {
      ReadAllExtends(more, blocks, es[i].addrs);
    }
  }

  lemma AllRepresentJoin(blocks: Blocks, es: seq<IndexEntry>, ps: seq<Pushed>, fs: seq<IndexEntry>, qs: seq<Pushed>)
    requires AllRepresent(blocks, es, ps) && AllRepresent(blocks, fs, qs)
    ensures AllRepresent(blocks, es + fs, ps + qs)
  {
    forall i | 0 <= i < |es + fs| ensures Represents(blocks, (es + fs)[i], (ps + qs)[i]) {
      if i >= |es| {
        assert Represents(blocks, fs[i - |es|], qs[i - |es|]);
      }
    }
  }

  lemma ReadSlice(blocks: Blocks, data: Bytes, start: nat, len: nat)
    requires Sound(blocks) && HashBytes(data) in blocks && start + len <= |data|
    ensures ReadAll(blocks, [Address(HashBytes(data), start, len)]) == Ok(data[start..start + len])
    ensures TotalLen([Address(HashBytes(data), start, len)]) == len
  {
    var a := [Address(HashBytes(data), start, len)];
    assert a[1..] == [];
    assert data[start..start + len] + [] == data[start..start + len];
  }

  lemma QueuedRepresent(buf: Bytes, queue: seq<QueuedFile>, ps: seq<Pushed>, blocks: Blocks)
    requires Buffered(buf, queue, ps) && Sound(blocks) && HashBytes(buf) in blocks
    ensures AllRepresent(blocks, WithAddresses(queue, HashBytes(buf)), ps)
  {
    var es := WithAddresses(queue, HashBytes(buf));
    forall i | 0 <= i < |es| ensures Represents(blocks, es[i], ps[i]) {
      ReadSlice(blocks, buf, queue[i].start, queue[i].len);
      MetadataKept(ps[i].entry, es[i].addrs);
    }
  }

  /** A successful flush finishes every queued file with a right address and empties the queue. */
  lemma FlushKeeps(c: Combiner, blocks: Blocks, done: seq<Pushed>, waiting: seq<Pushed>)
    requires Good(c, blocks, done, waiting)
    ensures
      var (c', blocks') := Flush(c, blocks, true);
      c'.queue == [] && Good(c', blocks', done + waiting, []) && Extends(blocks', blocks)
    ensures Flush(c, blocks, true).0.buf == if c.queue == [] then c.buf else []
  {
    if c.queue != [] {
      var more := StoreBlock(blocks, c.buf);
      StoreKeepsSound(blocks, c.buf);
      RepresentsExtends(more, blocks, c.finished, done);
      QueuedRepresent(c.buf, c.queue, waiting, more);
      AllRepresentJoin(more, c.finished, done, WithAddresses(c.queue, HashBytes(c.buf)), waiting);
    } else {
      assert done + waiting == done;
    }
  }

  /** A flush leaves the buffer empty exactly if some file was queued or it was empty before: when the read of a small
      file fails with nothing queued, its padding stays, and goes in front of the files of the next group. */
  lemma FlushEmptiesExactly(c: Combiner, blocks: Blocks, e: EntryValue)
    requires e.kindMeta.FileMeta? && e.kindMeta.size > 0
    ensures Flush(c, blocks, true).0.buf == [] <==> c.queue != [] || c.buf == []
    ensures c.queue == [] ==> Flush(Take(c, e, ReadFailed), blocks, true).0.buf == c.buf + Zeros(e.kindMeta.size) != []
  {
    assert |c.buf + Zeros(e.kindMeta.size)| > 0;
  }

  /** A file with something in it makes the buffer flush exactly if it then holds at least a whole block; the block then
      stored is everything in the buffer, and otherwise the file just waits there. */
  lemma PushFlushesExactly(c: Combiner, blocks: Blocks, e: EntryValue, bytes: Bytes, max: nat)
    requires e.kindMeta.FileMeta? && e.kindMeta.size > 0 && bytes != []
    ensures
      var (c', blocks') := Push(c, blocks, e, Got(bytes), max, true);
      if |c.buf| + |bytes| >= max
      then
        c'.buf == [] && c'.queue == [] && blocks' == StoreBlock(blocks, c.buf + bytes) &&
        |c'.finished| == |c.finished| + |c.queue| + 1
      else
        c'.buf == c.buf + bytes && blocks' == blocks && c'.finished == c.finished &&
        c'.queue == c.queue + [QueuedFile(|c.buf|, |bytes|, MetadataFrom(e))]
  {
  }

  /** So as long as reads succeed, the buffer stays shorter than a block, and a combined block is longer than that by
      less than one small file.  The padding of a failed read is never flushed by itself. */
  lemma CombinedBlockSize(c: Combiner, blocks: Blocks, e: EntryValue, read: ReadOutcome, max: nat, cap: nat)
    requires e.kindMeta.FileMeta? && 0 < e.kindMeta.size <= cap && |c.buf| < max
    requires read.Got? ==> |read.bytes| <= e.kindMeta.size
    ensures
      var (c', blocks') := Push(c, blocks, e, read, max, true);
      (read.Got? ==> |c'.buf| < max) && (read.ReadFailed? ==> |c'.buf| == |c.buf| + e.kindMeta.size) &&
      forall h :: h in blocks' && h !in blocks ==> max <= |h.preimage| < max + cap
  {
    if read.Got? && read.bytes != [] {
      PushFlushesExactly(c, blocks, e, read.bytes, max);
    }
  }

  /** The entries finished by one flush have disjoint ranges of the one block. */
  lemma FlushDisjoint(c: Combiner, blocks: Blocks, done: seq<Pushed>, waiting: seq<Pushed>, i: nat, j: nat)
    requires Good(c, blocks, done, waiting) && i < j < |c.queue|
    ensures
      var es := WithAddresses(c.queue, HashBytes(c.buf));
      Flush(c, blocks, true).0.finished == c.finished + es &&
      |es[i].addrs| == |es[j].addrs| == 1 && es[i].addrs[0].hash == es[j].addrs[0].hash &&
      es[i].addrs[0].start + es[i].addrs[0].len <= es[j].addrs[0].start
  {
  }

  lemma TakeKeepsQueue(c: Combiner, waiting: seq<Pushed>, p: Pushed)
    requires Buffered(c.buf, c.queue, waiting)
    ensures Buffered(c.buf + p.bytes, c.queue + [QueuedFile(|c.buf|, |p.bytes|, MetadataFrom(p.entry))], waiting + [p])
  {
    var buf, queue := c.buf + p.bytes, c.queue + [QueuedFile(|c.buf|, |p.bytes|, MetadataFrom(p.entry))];
    forall i | 0 <= i < |queue|
      ensures queue[i].start + queue[i].len <= |buf|
      ensures buf[queue[i].start..queue[i].start + queue[i].len] == (waiting + [p])[i].bytes
    {
      if i < |c.queue| {
        assert buf[queue[i].start..queue[i].start + queue[i].len] ==
          c.buf[queue[i].start..queue[i].start + queue[i].len];
      }
    }
  }

  lemma MoreBufferKeepsQueue(buf: Bytes, more: Bytes, queue: seq<QueuedFile>, waiting: seq<Pushed>)
    requires Buffered(buf, queue, waiting)
    ensures Buffered(buf + more, queue, waiting)
  {
    forall i | 0 <= i < |queue|
      ensures (buf + more)[queue[i].start..queue[i].start + queue[i].len] == waiting[i].bytes
    {
      assert (buf + more)[queue[i].start..queue[i].start + queue[i].len] ==
             buf[queue[i].start..queue[i].start + queue[i].len];
    }
  }

  lemma EmptyRepresents(blocks: Blocks, e: EntryValue)
    ensures Represents(blocks, MetadataFrom(e), Pushed(e, []))
  {
    MetadataKept(e, []);
  }

  /** Taking in a file keeps every queued and finished file right; a failed read leaves only padding. */
  lemma TakeKeeps(c: Combiner, blocks: Blocks, done: seq<Pushed>, waiting: seq<Pushed>, e: EntryValue,
                  read: ReadOutcome)
    requires Good(c, blocks, done, waiting) && e.kindMeta.FileMeta?
    ensures
      var p := Pushed(e, if e.kindMeta.size == 0 || read.ReadFailed? then [] else read.bytes);
      if e.kindMeta.size > 0 && read.ReadFailed? then Good(Take(c, e, read), blocks, done, waiting)
      else if Queues(e, read) then Good(Take(c, e, read), blocks, done, waiting + [p])
      else Good(Take(c, e, read), blocks, done + [p], waiting)
  {
    if Queues(e, read) {
      TakeKeepsQueue(c, waiting, Pushed(e, read.bytes));
    } else if e.kindMeta.size > 0 && read.ReadFailed? {
      MoreBufferKeepsQueue(c.buf, Zeros(e.kindMeta.size), c.queue, waiting);
    } else {
      EmptyRepresents(blocks, e);
    }
  }

  // ----- every series of pushes, flushes and drains

  datatype Op = PushOp(entry: EntryValue, read: ReadOutcome) | FlushOp | DrainOp

  predicate GoodOps(ops: seq<Op>) {
    forall op :: op in ops ==> (op.PushOp? ==> op.entry.kindMeta.FileMeta?)
  }

  /** The files that a push takes in: none when its read fails. */
  function Accepted(op: Op): seq<Pushed>
    requires op.PushOp? && op.entry.kindMeta.FileMeta?
  {
    if op.entry.kindMeta.size == 0 then [Pushed(op.entry, [])]
    else if op.read.ReadFailed? then []
    else [Pushed(op.entry, op.read.bytes)]
  }

  /** What each drain returns, when every store succeeds. */
  function Drained(c: Combiner, blocks: Blocks, ops: seq<Op>, max: nat): (seq<seq<IndexEntry>>, Blocks)
    requires GoodOps(ops)
    decreases ops
  {
    if ops == [] then ([], blocks)
    else
      match ops[0]
      case PushOp(e, read) =>
        assert ops[0] in ops;
        var (c', blocks') := Push(c, blocks, e, read, max, true);
        Drained(c', blocks', ops[1..], max)
      case FlushOp =>
        var (c', blocks') := Flush(c, blocks, true);
        Drained(c', blocks', ops[1..], max)
      case DrainOp =>
        var (c', blocks') := Flush(c, blocks, true);
        var (rest, final) := Drained(c'.(finished := [], stats := ZERO), blocks', ops[1..], max);
        ([c'.finished] + rest, final)
  }

  /** The files taken in between one drain and the next, starting with `pending`. */
  function Groups(pending: seq<Pushed>, ops: seq<Op>): seq<seq<Pushed>>
    requires GoodOps(ops)
    decreases ops
  {
    if ops == [] then []
    else
      match ops[0]
      case PushOp(_, _) => assert ops[0] in ops; Groups(pending + Accepted(ops[0]), ops[1..])
      case FlushOp => Groups(pending, ops[1..])
      case DrainOp => [pending] + Groups([], ops[1..])
  }

  /** Each file of the group is returned exactly once, with an address that reads back its bytes. */
  ghost predicate Returns(blocks: Blocks, es: seq<IndexEntry>, group: seq<Pushed>) {
    exists order: seq<Pushed> :: multiset(order) == multiset(group) && AllRepresent(blocks, es, order)
  }

  lemma AddWaiting(done: seq<Pushed>, waiting: seq<Pushed>, p: Pushed)
    ensures multiset(done + (waiting + [p])) == multiset(done + waiting + [p])
    ensures multiset((done + [p]) + waiting) == multiset(done + waiting + [p])
    ensures multiset(done + waiting + []) == multiset(done + waiting)
  {
    assert done + (waiting + [p]) == done + waiting + [p];
    assert done + waiting + [] == done + waiting;
  }

  lemma TakeTracked(c: Combiner, blocks: Blocks, done: seq<Pushed>, waiting: seq<Pushed>, e: EntryValue,
                    read: ReadOutcome)
    returns (done': seq<Pushed>, waiting': seq<Pushed>)
    requires Good(c, blocks, done, waiting) && e.kindMeta.FileMeta?
    ensures Good(Take(c, e, read), blocks, done', waiting')
    ensures multiset(done' + waiting') == multiset(done + waiting + Accepted(PushOp(e, read)))
  {
    var p := Pushed(e, if e.kindMeta.size == 0 || read.ReadFailed? then [] else read.bytes);
    TakeKeeps(c, blocks, done, waiting, e, read);
    AddWaiting(done, waiting, p);
    if e.kindMeta.size > 0 && read.ReadFailed? {
      done', waiting' := done, waiting;
    } else if Queues(e, read) {
      done', waiting' := done, waiting + [p];
    } else {
      done', waiting' := done + [p], waiting;
    }
  }

  lemma PushKeeps(c: Combiner, blocks: Blocks, done: seq<Pushed>, waiting: seq<Pushed>,
                  e: EntryValue, read: ReadOutcome, max: nat) returns (done': seq<Pushed>, waiting': seq<Pushed>)
    requires Good(c, blocks, done, waiting) && e.kindMeta.FileMeta?
    ensures Good(Push(c, blocks, e, read, max, true).0, Push(c, blocks, e, read, max, true).1, done', waiting')
    ensures Extends(Push(c, blocks, e, read, max, true).1, blocks)
    ensures multiset(done' + waiting') == multiset(done + waiting + Accepted(PushOp(e, read)))
  {
    done', waiting' := TakeTracked(c, blocks, done, waiting, e, read);
    if Fills(c, e, read, max) {
      FlushKeeps(Take(c, e, read), blocks, done', waiting');
      done', waiting' := done' + waiting', [];
      assert done' + [] == done';
    }
  }

  /** For every series of operations, every drain returns exactly the files of its own group, each once,
      and every returned entry reads back the bytes that were read for its file. */
  lemma {:induction false} DrainsReturnGroups(c: Combiner, blocks: Blocks, done: seq<Pushed>, waiting: seq<Pushed>,
                                              pending: seq<Pushed>, ops: seq<Op>, max: nat)
    requires GoodOps(ops) && Good(c, blocks, done, waiting) && multiset(done + waiting) == multiset(pending)
    ensures
      var (outputs, final) := Drained(c, blocks, ops, max);
      |outputs| == |Groups(pending, ops)| && Sound(final) && Extends(final, blocks) &&
      forall k :: 0 <= k < |outputs| ==> Returns(final, outputs[k], Groups(pending, ops)[k])
    decreases ops
  {
    if ops != [] {
      match ops[0]
      case PushOp(e, read) =>
        assert ops[0] in ops;
        var done', waiting' := PushKeeps(c, blocks, done, waiting, e, read, max);
        var (c', blocks') := Push(c, blocks, e, read, max, true);
        DrainsReturnGroups(c', blocks', done', waiting', pending + Accepted(ops[0]), ops[1..], max);
      case FlushOp =>
        FlushKeeps(c, blocks, done, waiting);
        var (c', blocks') := Flush(c, blocks, true);
        assert (done + waiting) + [] == done + waiting;
        DrainsReturnGroups(c', blocks', done + waiting, [], pending, ops[1..], max);
      case DrainOp =>
        FlushKeeps(c, blocks, done, waiting);
        var (c', blocks') := Flush(c, blocks, true);
        var emptied := c'.(finished := [], stats := ZERO);
        var none: seq<Pushed> := [];
        assert none + none == none;
        DrainsReturnGroups(emptied, blocks', none, none, none, ops[1..], max);
        var (rest, final) := Drained(emptied, blocks', ops[1..], max);
        RepresentsExtends(final, blocks', c'.finished, done + waiting);
        assert Returns(final, c'.finished, pending);
    }
  }

  // ----- a failed store

  /** After a failed store the queue describes a buffer that is gone.  Whatever was queued, one more
      one-byte file and a successful flush give the first queued file an address that does not read
      back its bytes. */
  lemma FailedStoreMisplaces(c: Combiner, blocks: Blocks, done: seq<Pushed>, waiting: seq<Pushed>, e: EntryValue)
    returns (byte: Byte)
    requires Good(c, blocks, done, waiting) && c.queue != [] && c.queue[0].len > 0
    requires e.kindMeta == FileMeta(1)
    ensures
      var (lost, _) := Flush(c, blocks, false);
      var (after, stored) := Flush(Take(lost, e, Got([byte])), blocks, true);
      |after.finished| > |c.finished| && !Represents(stored, after.finished[|c.finished|], waiting[0])
  {
    var first := waiting[0].bytes[0];
    byte := if first == 0 then 1 else 0;
    var (lost, _) := Flush(c, blocks, false);
    var next := Take(lost, e, Got([byte]));
    assert next.buf == [byte] && next.queue[0] == c.queue[0];
    var (after, stored) := Flush(next, blocks, true);
    StoreKeepsSound(blocks, [byte]);
    var a := Address(HashBytes([byte]), c.queue[0].start, c.queue[0].len);
    assert after.finished[|c.finished|].addrs == [a];
    if a.start + a.len <= 1 {
      ReadSlice(stored, [byte], a.start, a.len);
    }
  }

  // ----- the combiner as an object

  class FileCombiner {
    var buf: Bytes
    var queue: seq<QueuedFile>
    var finished: seq<IndexEntry>
    var stats: Stats
    const blockDir: BlockDir
    const maxBlockSize: nat

    function View(): Combiner
      reads this
    {
      Combiner(buf, queue, finished, stats)
    }

    ghost predicate Valid()
      reads this, blockDir, blockDir.archive
    {
      blockDir.Honest() && Sound(blockDir.archive.blocks)
    }

    constructor (blockDir: BlockDir, maxBlockSize: nat)
      requires blockDir.Honest() && Sound(blockDir.archive.blocks)
      ensures Valid() && View() == EMPTY && this.blockDir == blockDir && this.maxBlockSize == maxBlockSize
    {
      this.blockDir, this.maxBlockSize := blockDir, maxBlockSize;
      buf, queue, finished, stats := [], [], [], ZERO;
    }

    method FlushBuffer() returns (ok: bool)
      requires Valid()
      modifies this, blockDir, blockDir.archive`blocks
      ensures Valid() && (View(), blockDir.archive.blocks) == Flush(old(View()), old(blockDir.archive.blocks), ok)
      ensures ok == !FlushFails(old(View()), ok) && (!ok ==> FaultyBlock(blockDir.archive, old(buf)))
    {
      if queue == [] { return true; }
      var data := buf;
      buf := [];
      StoreKeepsSound(blockDir.archive.blocks, data);
      var hash, deduplicated := blockDir.StoreOrDeduplicate(data);
      if hash.Err? { return false; }
      stats := stats.CountBlock(|data|, deduplicated);
      stats := stats.(combinedBlocks := stats.combinedBlocks + 1);
      finished := finished + WithAddresses(queue, hash.value);
      queue := [];
      return true;
    }

    /** Take in one small file, reading it once; a full buffer is flushed. */
    method PushFile(e: EntryValue, file: Reader) returns (ok: bool, read: ReadOutcome, storeOk: bool)
      requires Valid() && e.kindMeta.FileMeta?
      modifies this, blockDir, blockDir.archive`blocks, file
      ensures Valid()
      ensures (View(), blockDir.archive.blocks) ==
        Push(old(View()), old(blockDir.archive.blocks), e, read, maxBlockSize, storeOk)
      ensures ok == !PushFails(old(View()), e, read, maxBlockSize, storeOk)
      ensures read.Got? ==> |read.bytes| <= e.kindMeta.size && read.bytes <= old(file.rest)
      ensures read == Got([]) && e.kindMeta.size > 0 ==> old(file.rest) == []
      ensures read.ReadFailed? ==> file.flaky
      ensures !storeOk ==> read.Got? && FaultyBlock(blockDir.archive, old(buf) + read.bytes)
    {
      var expected := e.kindMeta.size;
      read, storeOk := Got([]), true;
      if expected == 0 {
        stats := stats.(emptyFiles := stats.emptyFiles + 1);
        finished := finished + [MetadataFrom(e)];
        return true, read, storeOk;
      }
      var start := |buf|;
      var got := file.Read(expected);
      if got.Err? {
        buf := buf + Zeros(expected);
        return false, ReadFailed, storeOk;
      }
      read := Got(got.value);
      if got.value == [] {
        stats := stats.(emptyFiles := stats.emptyFiles + 1);
        finished := finished + [MetadataFrom(e)];
        return true, read, storeOk;
      }
      buf := buf + got.value;
      stats := stats.(smallCombinedFiles := stats.smallCombinedFiles + 1);
      queue := queue + [QueuedFile(start, |got.value|, MetadataFrom(e))];
      ok := true;
      if |buf| >= maxBlockSize {
        ok := FlushBuffer();
        storeOk := ok;
      }
    }

    /** Flush, and hand over the finished entries and the counts. */
    method Drain() returns (ok: bool, entries: seq<IndexEntry>, counts: Stats)
      requires Valid()
      modifies this, blockDir, blockDir.archive`blocks
      ensures Valid()
      ensures
        var (c, blocks) := Flush(old(View()), old(blockDir.archive.blocks), ok);
        blockDir.archive.blocks == blocks &&
        if ok then entries == c.finished && counts == c.stats && View() == c.(finished := [], stats := ZERO)
        else entries == [] && View() == c
      ensures !ok ==> FaultyBlock(blockDir.archive, old(buf))
    {
      ok := FlushBuffer();
      if !ok { return false, [], ZERO; }
      entries, counts := finished, stats;
      finished, stats := [], ZERO;
    }
  }
}
