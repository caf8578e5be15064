/** Writing an index as numbered hunk files (src/index.rs). */
module IndexWriting {
  import opened Base
  import opened Apaths
  import opened Entries
  import opened Sorting
  import opened Storage
  import opened Index
  import opened Decimal

  const HUNKS_PER_SUBDIR := 10_000

  function SubdirName(n: nat): string {
    Padded(n / HUNKS_PER_SUBDIR, 5)
  }

  function HunkName(n: nat): string {
    Padded(n, 9)
  }

  /** The index directory: files by subdirectory and name. */
  type IndexFiles = map<string, map<string, seq<IndexEntry>>>

  /** The hunk numbers that a listing of the directory finds. */
  function HunkNumbers(files: IndexFiles): set<nat> {
    set d, f | d in files && f in files[d] && ParseU32(f).Some? :: ParseU32(f).value
  }

  function ReadHunk(files: IndexFiles, n: nat): Option<seq<IndexEntry>> {
    if SubdirName(n) in files && HunkName(n) in files[SubdirName(n)] then Some(files[SubdirName(n)][HunkName(n)])
      else None
  }

  predicate NamesHunk(d: string, f: string, n: nat) {
    d == SubdirName(n) && f == HunkName(n)
  }

  ghost predicate NamesSome(d: string, f: string, count: nat) {
    exists n :: 0 <= n < count && NamesHunk(d, f, n)
  }

  ghost predicate Complete(files: IndexFiles, written: seq<seq<IndexEntry>>) {
    forall n :: 0 <= n < |written| ==> ReadHunk(files, n) == Some(written[n])
  }

  ghost predicate NothingElse(files: IndexFiles, count: nat) {
    forall d, f :: d in files && f in files[d] ==> NamesSome(d, f, count)
  }

  /** The directory holds exactly these hunks, numbered from zero. */
  ghost predicate Stored(files: IndexFiles, written: seq<seq<IndexEntry>>) {
    Complete(files, written) && NothingElse(files, |written|)
  }

  /** Hunks go ten thousand to a subdirectory, whose name is the number of the first divided by that, in five digits; a
      hunk's own name is its number in nine.  Larger numbers take more digits. */
  lemma HunkPlaced(n: nat)
    requires n <= 4_294_967_295
    ensures ParseU32(SubdirName(n)) == Some(n / 10_000) && ParseU32(HunkName(n)) == Some(n)
    ensures |SubdirName(n)| >= 5 && (|SubdirName(n)| == 5 <==> n < 1_000_000_000)
    ensures |HunkName(n)| >= 9 && (|HunkName(n)| == 9 <==> n < 1_000_000_000)
  {
    PaddedParses(n / HUNKS_PER_SUBDIR, 5);
    PaddedParses(n, 9);
    PaddedWidth(n / HUNKS_PER_SUBDIR, 5);
    PaddedWidth(n, 9);
    assert Power(2) == 100 && Power(4) == 10_000 && Power(5) == 100_000;
    assert Power(7) == 10_000_000 && Power(9) == 1_000_000_000;
  }

  lemma HunkNamesDiffer(n: nat, m: nat)
    requires n <= MAX_U32 && m <= MAX_U32 && HunkName(n) == HunkName(m)
    ensures n == m
  {
    PaddedParses(n, 9);
    PaddedParses(m, 9);
  }

  /** Hunks are listed as 0 to n-1 with none missing, and each number reads back its own entries. */
  lemma StoredReadsBack(files: IndexFiles, written: seq<seq<IndexEntry>>)
    requires Stored(files, written) && |written| <= MAX_U32 + 1
    ensures forall n :: n in HunkNumbers(files) <==> 0 <= n < |written|
    ensures forall n :: 0 <= n < |written| ==> ReadHunk(files, n) == Some(written[n])
  {
    forall n | 0 <= n < |written| ensures n in HunkNumbers(files) {
      PaddedParses(n, 9);
      assert ReadHunk(files, n).Some?;
      assert HunkName(n) in files[SubdirName(n)];
    }
    forall n | n in HunkNumbers(files) ensures 0 <= n < |written| {
      var d, f :| d in files && f in files[d] && ParseU32(f).Some? && ParseU32(f).value == n;
      assert NamesSome(d, f, |written|);
      var k :| 0 <= k < |written| && NamesHunk(d, f, k);
      PaddedParses(k, 9);
    }
  }

  lemma StoredExtends(files: IndexFiles, written: seq<seq<IndexEntry>>, es: seq<IndexEntry>)
    requires Stored(files, written) && |written| <= MAX_U32 && SubdirName(|written|) in files
    ensures
      var n := |written|;
      HunkName(n) !in files[SubdirName(n)] &&
      Stored(files[SubdirName(n) := files[SubdirName(n)][HunkName(n) := es]], written + [es])
  {
    var n := |written|;
    var dir := SubdirName(n);
    var more := files[dir := files[dir][HunkName(n) := es]];
    if HunkName(n) in files[dir] {
      assert NamesSome(dir, HunkName(n), |written|);
      var k :| 0 <= k < |written| && NamesHunk(dir, HunkName(n), k);
      HunkNamesDiffer(n, k);
    }
    forall k | 0 <= k < n + 1 ensures ReadHunk(more, k) == Some((written + [es])[k]) {
      if k < n {
        assert ReadHunk(files, k) == Some(written[k]);
        if HunkName(k) == HunkName(n) {
          HunkNamesDiffer(n, k);
        }
      }
    }
    forall d, f | d in more && f in more[d] ensures NamesSome(d, f, n + 1) {
      if d == dir && f == HunkName(n) {
        assert NamesHunk(d, f, n);
      } else {
        assert NamesSome(d, f, |written|);
        var k :| 0 <= k < |written| && NamesHunk(d, f, k);
        assert NamesHunk(d, f, k);
      }
    }
  }

  lemma NewDirectory(files: IndexFiles, written: seq<seq<IndexEntry>>, dir: string)
    requires Stored(files, written) && dir !in files
    ensures Stored(files[dir := map[]], written)
  {
    var more := files[dir := map[]];
    forall n | 0 <= n < |written| ensures ReadHunk(more, n) == Some(written[n]) {
      assert ReadHunk(files, n) == Some(written[n]);
    }
    forall d, f | d in more && f in more[d] ensures NamesSome(d, f, |written|) {
      assert f in files[d];
    }
  }

  /** Unless a hunk starts a new subdirectory, it goes where the previous one went. */
  lemma SameSubdir(n: nat)
    requires n % HUNKS_PER_SUBDIR != 0
    ensures n > 0 && SubdirName(n) == SubdirName(n - 1)
  {
    assert n / HUNKS_PER_SUBDIR == (n - 1) / HUNKS_PER_SUBDIR;
  }

  class IndexWriter {
    /** For which hunk numbers creating the file, or the directory for it, fails. */
    const fails: nat -> bool

    /** The index directory being written to. */
    var files: IndexFiles

    /** Entries queued for the next hunk, in arbitrary order. */
    var entries: seq<IndexEntry>

    var sequence: nat
    var hunksWritten: nat

    /** The last path of the previous hunk, watched by the order check. */
    var lastApath: Option<Apath>

    ghost var written: seq<seq<IndexEntry>>

    /** The files are those of the hunks written. */
    ghost predicate Intact()
      reads this
    {
      Stored(files, written) && sequence == hunksWritten == |written|
    }

    /** And no write has failed. */
    ghost predicate Valid()
      reads this
    {
      Intact() && (forall i :: 0 <= i < |written| ==> written[i] != []) &&
      lastApath == (if written == [] then None else Some(LastPath(written[|written| - 1])))
    }

    constructor (fails: nat -> bool)
      ensures Valid() && entries == [] && written == [] && this.fails == fails
    {
      this.fails := fails;
      files, entries, sequence, hunksWritten, lastApath := map[], [], 0, 0, None;
      written := [];
    }

    method PushEntry(e: IndexEntry)
      requires Valid()
      modifies this`entries
      ensures Valid() && entries == old(entries) + [e]
    {
      entries := entries + [e];
    }

    method AppendEntries(es: seq<IndexEntry>)
      requires Valid()
      modifies this`entries
      ensures Valid() && entries == old(entries) + es
    {
      entries := entries + es;
    }

    /** Make the subdirectory for the next hunk, if this hunk is the first one in it. */
    method MakeSubdir() returns (ok: bool)
      requires Intact()
      modifies this`files
      ensures Intact() && (ok ==> SubdirName(sequence) in files) && (!ok ==> fails(sequence))
    {
      hide Padded;
      ok := true;
      var dir := SubdirName(sequence);
      if sequence % HUNKS_PER_SUBDIR == 0 {
        var here: bool := *;
        if here && fails(sequence) { return false; }
        if dir !in files {
          NewDirectory(files, written, dir);
          files := files[dir := map[]];
        }
      } else {
        SameSubdir(sequence);
        assert ReadHunk(files, sequence - 1) == Some(written[sequence - 1]);
      }
    }

    /** Create the file of the next hunk; it does not exist yet. */
    method WriteHunk(sorted: seq<IndexEntry>) returns (ok: bool)
      requires Stored(files, written) && sequence == |written| <= MAX_U32 && SubdirName(sequence) in files
      modifies this`files, this`written
      ensures ok == !fails(sequence)
      ensures Stored(files, written) && written == if ok then old(written) + [sorted] else old(written)
    {
      if fails(sequence) { return false; }
      ok := true;
      var dir := SubdirName(sequence);
      StoredExtends(files, written, sorted);
      assert HunkName(sequence) !in files[dir];
      files := files[dir := files[dir][HunkName(sequence) := sorted]];
      written := written + [sorted];
    }

    /** Sort the queue and check the first and last paths against the previous hunk. */
    method SortQueue() returns (sorted: seq<IndexEntry>)
      requires entries != [] && Queueable(entries, lastApath)
      ensures sorted == Sort(EntryKey, entries) && sorted != []
    {
      sorted := Sort(EntryKey, entries);
      SortedEnds(entries, lastApath);
      assert lastApath.Some? ==> Before(lastApath.value, sorted[0].apath);
      assert |sorted| > 1 ==> Before(sorted[0].apath, sorted[|sorted| - 1].apath);
    }

    /** Write the queued entries, sorted, as the next hunk; an empty queue writes nothing.  The
        subdirectory is always there, the file is always new, and the order check cannot fail.  If the hunk cannot be
        written, the entries stay queued, sorted, and the hunks before it are as they were; but the order check has
        already passed the last path, so in a build that checks the hunk cannot be tried again. */
    method FinishHunk() returns (ok: bool)
      requires Valid() && sequence <= MAX_U32
      requires Queueable(entries, lastApath)
      modifies this
      ensures ok <==> old(entries) == [] || !fails(old(sequence))
      ensures ok ==> Valid() && entries == []
      ensures ok ==>
        written == if old(entries) == [] then old(written) else old(written) + [Sort(EntryKey, old(entries))]
      ensures !ok ==> Intact() && written == old(written) && entries == Sort(EntryKey, old(entries)) && entries != []
      ensures !ok ==> lastApath.Some? && !Queueable(entries, lastApath)
    {
      hide Padded, Sort, Queueable, Stored, Before, SubdirName;
      if entries == [] { return true; }
      var sorted := SortQueue();
      entries := sorted;
      lastApath := Some(LastPath(sorted));
      LastNotQueueable(sorted);
      ok := MakeSubdir();
      if !ok { return; }
      ok := WriteHunk(sorted);
      if !ok { return; }
      hunksWritten := hunksWritten + 1;
      entries := [];
      sequence := sequence + 1;
    }
  }

  /** Distinct paths, all after what is already written. */
  ghost predicate Queueable(es: seq<IndexEntry>, last: Option<Apath>) {
    DistinctKeys(EntryKey, es) && forall e :: e in es ==> IsAfter(last, e)
  }

  lemma LastNotQueueable(es: seq<IndexEntry>)
    requires es != []
    ensures !Queueable(es, Some(LastPath(es)))
  {
    var e := es[|es| - 1];
    Total(e.apath, e.apath);
    assert e in es && !IsAfter(Some(LastPath(es)), e);
  }

  /** What the order check sees of a sorted hunk: its first and last paths. */
  lemma SortedEnds(es: seq<IndexEntry>, last: Option<Apath>)
    requires es != [] && Queueable(es, last)
    ensures
      var sorted := Sort(EntryKey, es);
      IsAfter(last, sorted[0]) && (|sorted| > 1 ==> Before(sorted[0].apath, sorted[|sorted| - 1].apath))
  {
    var sorted := Sort(EntryKey, es);
    SortIncreasing(EntryKey, es);
    SortHas(es, sorted[0]);
    if |sorted| > 1 {
      assert Before(EntryKey(sorted[0]), EntryKey(sorted[|sorted| - 1]));
    }
  }

  function LastPath(es: seq<IndexEntry>): Apath {
    if es == [] then Root else es[|es| - 1].apath
  }

  // ----- groups of entries, written and read back

  function HunksFor(groups: seq<seq<IndexEntry>>): seq<Hunk> {
    if groups == [] then []
    else (if groups[0] == [] then [] else [Entries(Sort(EntryKey, groups[0]))]) + HunksFor(groups[1..])
  }

  function Flatten(groups: seq<seq<IndexEntry>>): seq<IndexEntry> {
    if groups == [] then [] else groups[0] + Flatten(groups[1..])
  }

  /** Distinct paths within a group, and every group after the ones before it. */
  ghost predicate Arriving(groups: seq<seq<IndexEntry>>) {
    groups != [] ==>
      DistinctKeys(EntryKey, groups[0]) && Arriving(groups[1..]) &&
      forall e, f :: e in groups[0] && f in Flatten(groups[1..]) ==> Before(e.apath, f.apath)
  }

  lemma SortHas(es: seq<IndexEntry>, e: IndexEntry)
    ensures e in Sort(EntryKey, es) <==> e in es
  {
    SortPermutes(EntryKey, es);
    assert e in Sort(EntryKey, es) <==> e in multiset(Sort(EntryKey, es));
    assert e in es <==> e in multiset(es);
  }

  lemma {:induction false} GroupsInOrder(groups: seq<seq<IndexEntry>>)
    requires Arriving(groups)
    ensures InOrder(BandEntries(HunksFor(groups)))
    ensures multiset(BandEntries(HunksFor(groups))) == multiset(Flatten(groups))
  {
    if groups != [] {
      GroupsInOrder(groups[1..]);
      var first, rest := Sort(EntryKey, groups[0]), BandEntries(HunksFor(groups[1..]));
      SortIncreasing(EntryKey, groups[0]);
      SortPermutes(EntryKey, groups[0]);
      forall e, f | e in first && f in rest ensures Before(e.apath, f.apath) {
        SortHas(groups[0], e);
        assert f in multiset(rest);
        assert f in Flatten(groups[1..]);
      }
      InOrderJoin(first, rest);
      if groups[0] != [] {
        assert HunksFor(groups)[1..] == HunksFor(groups[1..]);
      } else {
        assert HunksFor(groups) == HunksFor(groups[1..]);
        assert groups[0] + Flatten(groups[1..]) == Flatten(groups[1..]);
      }
      assert BandEntries(HunksFor(groups)) == first + rest;
    }
  }

  /** Whatever the grouping, the index read back is all the entries in path order; started after a
      path, it is exactly the later ones, in order. */
  lemma WrittenIndexIsSorted(groups: seq<seq<IndexEntry>>, last: Option<Apath>)
    requires Arriving(groups)
    ensures BandEntries(HunksFor(groups)) == Sort(EntryKey, Flatten(groups))
    ensures InOrder(After(last, BandEntries(HunksFor(groups))))
    ensures forall e :: e in After(last, BandEntries(HunksFor(groups))) <==> e in Flatten(groups) && IsAfter(last, e)
  {
    GroupsInOrder(groups);
    var all := BandEntries(HunksFor(groups));
    SortOfIncreasing(EntryKey, Flatten(groups), all);
    AfterInOrder(last, all);
    forall e ensures e in all <==> e in Flatten(groups) {
      SortHas(Flatten(groups), e);
    }
  }

  // ----- through the writer, the directory and the reader

  function AsHunks(written: seq<seq<IndexEntry>>): seq<Hunk> {
    seq(|written|, i requires 0 <= i < |written| => Entries(written[i]))
  }

  /** Everything still to come is after the last path written. */
  ghost predicate AllAfterLast(groups: seq<seq<IndexEntry>>, last: Option<Apath>) {
    forall e :: e in Flatten(groups) ==> IsAfter(last, e)
  }

  lemma {:induction false} NextGroup(groups: seq<seq<IndexEntry>>, last: Option<Apath>)
    requires Arriving(groups) && groups != [] && AllAfterLast(groups, last)
    ensures Queueable(groups[0], last) && Arriving(groups[1..])
    ensures AllAfterLast(groups[1..], if groups[0] == [] then last else Some(LastPath(Sort(EntryKey, groups[0]))))
  {
    hide Before, Sort, DistinctKeys, IsAfter;
    var group, later := groups[0], Flatten(groups[1..]);
    assert Flatten(groups) == group + later;
    assert forall e :: e in group || e in later ==> e in group + later;
    if group != [] {
      var sorted := Sort(EntryKey, group);
      var top := sorted[|sorted| - 1];
      SortHas(group, top);
      forall e | e in later ensures IsAfter(Some(top.apath), e) {
        AfterPath(top.apath, e);
      }
    }
  }

  lemma AfterPath(p: Apath, e: IndexEntry)
    requires Before(p, e.apath)
    ensures IsAfter(Some(p), e)
  {
  }

  lemma AsHunksSize(written: seq<seq<IndexEntry>>)
    ensures |AsHunks(written)| == |written|
  {
  }

  lemma AsHunksMore(written: seq<seq<IndexEntry>>, es: seq<IndexEntry>)
    ensures AsHunks(written + [es]) == AsHunks(written) + [Entries(es)]
  {
  }

  lemma {:induction false} HunksForMore(groups: seq<seq<IndexEntry>>, group: seq<IndexEntry>)
    ensures HunksFor(groups + [group]) ==
      HunksFor(groups) + if group == [] then [] else [Entries(Sort(EntryKey, group))]
    decreases groups
  {
    hide Sort;
    var all := groups + [group];
    if groups == [] {
      assert all[1..] == [];
    } else {
      assert all[0] == groups[0] && all[1..] == groups[1..] + [group];
      HunksForMore(groups[1..], group);
    }
  }

  lemma {:induction false} ArrivingFront(groups: seq<seq<IndexEntry>>, k: nat)
    requires Arriving(groups) && k <= |groups|
    ensures Arriving(groups[..k]) && forall e :: e in Flatten(groups[..k]) ==> e in Flatten(groups)
    decreases k
  {
    hide Before, DistinctKeys;
    if k > 0 {
      ArrivingFront(groups[1..], k - 1);
      assert groups[..k][1..] == groups[1..][..k - 1];
    }
  }

  lemma GroupStep(groups: seq<seq<IndexEntry>>, i: nat, last: Option<Apath>, written: seq<seq<IndexEntry>>)
    requires i < |groups| && Arriving(groups[i..]) && AllAfterLast(groups[i..], last)
    requires AsHunks(written) == HunksFor(groups[..i])
    ensures Queueable(groups[i], last) && Arriving(groups[i + 1..])
    ensures
      var sorted := Sort(EntryKey, groups[i]);
      AllAfterLast(groups[i + 1..], if groups[i] == [] then last else Some(LastPath(sorted))) &&
      AsHunks(if groups[i] == [] then written else written + [sorted]) == HunksFor(groups[..i + 1])
  {
    hide Sort, Arriving, HunksFor, Queueable, AsHunks, AllAfterLast;
    assert groups[i..][0] == groups[i] && groups[i..][1..] == groups[i + 1..];
    NextGroup(groups[i..], last);
    HunksForMore(groups[..i], groups[i]);
    assert groups[..i] + [groups[i]] == groups[..i + 1];
    AsHunksMore(written, Sort(EntryKey, groups[i]));
  }

  /** All groups are written, unless creating some hunk fails: then those before it. */
  ghost predicate StopsWhere(groups: seq<seq<IndexEntry>>, fails: nat -> bool, hunks: nat, done: nat) {
    (forall n :: 0 <= n < hunks ==> !fails(n)) && (done < |groups| ==> groups[done] != [] && fails(hunks))
  }

  /** Write groups of entries, each as one hunk.  A write that fails stops the writing; the groups before have then been
      written. */
  method WriteGroups(groups: seq<seq<IndexEntry>>, fails: nat -> bool) returns (writer: IndexWriter, done: nat)
    requires Arriving(groups) && |groups| <= MAX_U32
    ensures fresh(writer) && writer.Intact() && done <= |groups| && |writer.written| <= |groups|
    ensures AsHunks(writer.written) == HunksFor(groups[..done])
    ensures StopsWhere(groups, fails, |writer.written|, done)
  {
    hide Sort, Arriving, HunksFor, Padded, Queueable, Flatten, AsHunks, Stored, AllAfterLast, LastPath;
    writer := new IndexWriter(fails);
    NoGroups();
    assert groups[0..] == groups && groups[..0] == [];
    AllAfterNone(groups);
    for i := 0 to |groups|
      invariant fresh(writer) && writer.Valid() && writer.entries == [] && writer.sequence <= i
      invariant writer.fails == fails && forall n :: 0 <= n < writer.sequence ==> !fails(n)
      invariant Arriving(groups[i..]) && AllAfterLast(groups[i..], writer.lastApath)
      invariant AsHunks(writer.written) == HunksFor(groups[..i])
    {
      GroupStep(groups, i, writer.lastApath, writer.written);
      writer.AppendEntries(groups[i]);
      assert [] + groups[i] == groups[i];
      var ok := writer.FinishHunk();
      if !ok { return writer, i; }
    }
    return writer, |groups|;
  }

  lemma AllAfterNone(groups: seq<seq<IndexEntry>>)
    ensures AllAfterLast(groups, None)
  {
  }

  lemma NoGroups()
    ensures HunksFor([]) == [] && AsHunks([]) == []
  {
  }

  /** List the hunk files and read them in the order of their numbers; one that is gone ends the reading. */
  method ReadHunks(files: IndexFiles, ghost written: seq<seq<IndexEntry>>) returns (hunks: seq<Hunk>)
    requires Stored(files, written) && |written| <= MAX_U32 + 1
    ensures hunks == AsHunks(written)
  {
    hide Padded, ReadHunk, HunkNumbers, Stored;
    StoredReadsBack(files, written);
    var left := HunkNumbers(files);
    hunks := [];
    while left != {}
      invariant |hunks| <= |written| && hunks == AsHunks(written[..|hunks|])
      invariant forall n :: n in left <==> |hunks| <= n < |written|
      decreases left
    {
      ghost var k := |hunks|;
      assert k in left && forall m :: m in left ==> k <= m;
      var n :| n in left && forall m :: m in left ==> n <= m;
      left := left - {n};
      var entries := ReadHunk(files, n);
      if entries.None? { break; }
      hunks := hunks + [Entries(entries.value)];
      assert written[..k + 1] == written[..k] + [written[k]];
      AsHunksMore(written[..k], written[k]);
    }
    assert |hunks| < |written| ==> |hunks| in left;
    assert written[..|written|] == written;
  }

  /** Read a band's index from after any path to its end. */
  method ReadFrom(archive: Archive, b: nat, last: Option<Apath>) returns (es: seq<IndexEntry>)
    requires InOrder(BandEntries(BandHunks(archive.bands, b)))
    ensures es == After(last, BandEntries(BandHunks(archive.bands, b)))
  {
    hide *;
    var iter := new IndexHunkIter(archive, b, last);
    ghost var all := iter.Rest();
    es := [];
    assert [] + all == all;
    while true
      invariant fresh(iter) && InOrder(iter.Unread()) && es + iter.Rest() == all
      decreases |iter.hunks|
    {
      ghost var left := iter.Rest();
      var hunk := iter.Next();
      if hunk.None? { break; }
      assert es + (hunk.value + iter.Rest()) == (es + hunk.value) + iter.Rest();
      es := es + hunk.value;
    }
    assert es + [] == es;
  }

  /** Write groups of entries as hunk files and read them back, hunk by hunk, from after any path: what comes out is
      exactly the later entries, sorted, of all groups or of those before a write that failed. */
  method WriteAndReadBack(groups: seq<seq<IndexEntry>>, fails: nat -> bool, last: Option<Apath>)
    returns (es: seq<IndexEntry>, done: nat)
    requires Arriving(groups) && |groups| <= MAX_U32
    ensures done <= |groups| && StopsWhere(groups, fails, |HunksFor(groups[..done])|, done)
    ensures es == After(last, Sort(EntryKey, Flatten(groups[..done])))
  {
    hide Arriving, Sort, Flatten, HunksFor, Stored, After, AsHunks, BandEntries, InOrder;
    var writer;
    writer, done := WriteGroups(groups, fails);
    assert |AsHunks(writer.written)| == |writer.written| by { AsHunksSize(writer.written); }
    ArrivingFront(groups, done);
    var hunks := ReadHunks(writer.files, writer.written);
    var archive := new Archive(RELIABLE);
    archive.bands := map[0 := BandFiles(Usable, true, hunks)];
    assert BandHunks(archive.bands, 0) == hunks;
    GroupsInOrder(groups[..done]);
    WrittenIndexIsSorted(groups[..done], last);
    es := ReadFrom(archive, 0, last);
  }
}
