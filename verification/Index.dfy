/** Reading a stored index: hunks in order, resumable after a path, entry by entry (src/index.rs). */
module Index {
  import opened Base
  import opened Apaths
  import opened Entries
  import opened Sorting
  import opened Storage

  // ----- what an index holds

  function HunkEntries(h: Hunk): seq<IndexEntry> {
    if h.Entries? then h.entries else []
  }

  /** All readable entries of an index, in hunk order. */
  function BandEntries(hunks: seq<Hunk>): seq<IndexEntry> {
    if hunks == [] then [] else HunkEntries(hunks[0]) + BandEntries(hunks[1..])
  }

  lemma {:induction false} BandEntriesAppend(a: seq<Hunk>, b: seq<Hunk>)
    ensures BandEntries(a + b) == BandEntries(a) + BandEntries(b)
  {
    if a == [] {
      assert a + b == b;
    } else {
      assert (a + b)[1..] == a[1..] + b;
      BandEntriesAppend(a[1..], b);
    }
  }

  /** The numbers of the hunk files that exist, from `i` on, in order. */
  function Available(hunks: seq<Hunk>, i: nat): seq<nat>
    requires i <= |hunks|
    decreases |hunks| - i
  {
    if i == |hunks| then []
    else (if hunks[i].Absent? then [] else [i]) + Available(hunks, i + 1)
  }

  function HunkAt(hunks: seq<Hunk>, n: nat): Hunk {
    if n < |hunks| then hunks[n] else Absent
  }

  /** What reading the listed hunks in turn delivers; a hunk that has vanished ends the reading. */
  function Listed(hunks: seq<Hunk>, nums: seq<nat>): seq<IndexEntry> {
    if nums == [] || HunkAt(hunks, nums[0]).Absent? then []
    else HunkEntries(HunkAt(hunks, nums[0])) + Listed(hunks, nums[1..])
  }

  lemma {:induction false} ListedAvailable(hunks: seq<Hunk>, i: nat)
    requires i <= |hunks|
    ensures Listed(hunks, Available(hunks, i)) == BandEntries(hunks[i..])
    decreases |hunks| - i
  {
    if i < |hunks| {
      ListedAvailable(hunks, i + 1);
      assert hunks[i..][1..] == hunks[i + 1..];
      if !hunks[i].Absent? {
        assert Available(hunks, i)[1..] == Available(hunks, i + 1);
      } else {
        assert Available(hunks, i) == Available(hunks, i + 1);
      }
    }
  }

  ghost predicate InOrder(es: seq<IndexEntry>) {
    Increasing(EntryKey, es)
  }

  // ----- the entries after a path

  predicate IsAfter(last: Option<Apath>, e: IndexEntry) {
    last.Some? ==> Before(last.value, e.apath)
  }

  /** The entries ordered after `last`. */
  function After(last: Option<Apath>, es: seq<IndexEntry>): (r: seq<IndexEntry>)
    ensures forall e :: e in r <==> e in es && IsAfter(last, e)
  {
    if es == [] then []
    else (if IsAfter(last, es[0]) then [es[0]] else []) + After(last, es[1..])
  }

  lemma {:induction false} AfterAppend(last: Option<Apath>, a: seq<IndexEntry>, b: seq<IndexEntry>)
    ensures After(last, a + b) == After(last, a) + After(last, b)
  {
    if a == [] {
      assert a + b == b;
    } else {
      assert (a + b)[1..] == a[1..] + b;
      AfterAppend(last, a[1..], b);
    }
  }

  lemma {:induction false} AfterAll(last: Option<Apath>, es: seq<IndexEntry>)
    requires forall e :: e in es ==> IsAfter(last, e)
    ensures After(last, es) == es
  {
    if es != [] {
      AfterAll(last, es[1..]);
    }
  }

  lemma {:induction false} AfterNothing(last: Option<Apath>, es: seq<IndexEntry>)
    requires forall e :: e in es ==> !IsAfter(last, e)
    ensures After(last, es) == []
  {
    if es != [] {
      AfterNothing(last, es[1..]);
    }
  }

  lemma {:induction false} AfterInOrder(last: Option<Apath>, es: seq<IndexEntry>)
    requires InOrder(es)
    ensures InOrder(After(last, es))
  {
    if es != [] {
      AfterInOrder(last, es[1..]);
      forall e | e in es[1..] ensures Before(es[0].apath, e.apath) {
        var i :| 0 <= i < |es[1..]| && es[1..][i] == e;
        assert Before(EntryKey(es[0]), EntryKey(es[i + 1]));
      }
      var rest := After(last, es[1..]);
      forall i | 0 <= i < |rest| ensures Before(es[0].apath, rest[i].apath) {
        assert rest[i] in rest;
      }
    }
  }

  lemma HeadBeforeRest(es: seq<IndexEntry>)
    requires InOrder(es) && es != []
    ensures InOrder(es[1..]) && forall e :: e in es[1..] ==> Before(es[0].apath, e.apath)
  {
    forall e | e in es[1..] ensures Before(es[0].apath, e.apath) {
      var i :| 0 <= i < |es[1..]| && es[1..][i] == e;
      assert Before(EntryKey(es[0]), EntryKey(es[i + 1]));
    }
  }

  lemma InOrderParts(a: seq<IndexEntry>, b: seq<IndexEntry>)
    requires InOrder(a + b)
    ensures InOrder(a) && InOrder(b)
    ensures forall e, f :: e in a && f in b ==> Before(e.apath, f.apath)
  {
    var ab := a + b;
    forall i, j | 0 <= i < j < |a| ensures Before(EntryKey(a[i]), EntryKey(a[j])) {
      assert ab[i] == a[i] && ab[j] == a[j];
    }
    forall i, j | 0 <= i < j < |b| ensures Before(EntryKey(b[i]), EntryKey(b[j])) {
      assert ab[|a| + i] == b[i] && ab[|a| + j] == b[j];
    }
    forall e, f | e in a && f in b ensures Before(e.apath, f.apath) {
      var i :| 0 <= i < |a| && a[i] == e;
      var j :| 0 <= j < |b| && b[j] == f;
      assert Before(EntryKey(ab[i]), EntryKey(ab[|a| + j]));
    }
  }

  lemma InOrderJoin(a: seq<IndexEntry>, b: seq<IndexEntry>)
    requires InOrder(a) && InOrder(b)
    requires forall e, f :: e in a && f in b ==> Before(e.apath, f.apath)
    ensures InOrder(a + b)
  {
  }

  lemma LastIsGreatest(es: seq<IndexEntry>)
    requires InOrder(es) && es != []
    ensures forall e :: e in es ==> e == es[|es| - 1] || Before(e.apath, es[|es| - 1].apath)
  {
    forall e | e in es ensures e == es[|es| - 1] || Before(e.apath, es[|es| - 1].apath) {
      var i :| 0 <= i < |es| && es[i] == e;
      if i < |es| - 1 {
        assert Before(EntryKey(es[i]), EntryKey(es[|es| - 1]));
      }
    }
  }

  /** Binary search over entries in order: how many of them are not after `p`. */
  method CountUpTo(es: seq<IndexEntry>, p: Apath) returns (idx: nat)
    requires InOrder(es)
    ensures idx <= |es|
    ensures forall i :: 0 <= i < idx ==> !Before(p, es[i].apath)
    ensures forall i :: idx <= i < |es| ==> Before(p, es[i].apath)
  {
    var lo, hi := 0, |es|;
    while lo < hi
      invariant lo <= hi <= |es|
      invariant forall i :: 0 <= i < lo ==> !Before(p, es[i].apath)
      invariant forall i :: hi <= i < |es| ==> Before(p, es[i].apath)
    {
      var mid := (lo + hi) / 2;
      var c := Cmp(es[mid].apath, p);
      Total(es[mid].apath, p);
      if c != Greater {
        NotAfterUpTo(es, p, mid);
      }
      if c != Less {
        AfterFrom(es, p, mid);
      }
      if c == Equal {
        return mid + 1;
      } else if c == Less {
        lo := mid + 1;
      } else {
        hi := mid;
      }
    }
    return lo;
  }

  lemma NotAfterUpTo(es: seq<IndexEntry>, p: Apath, k: nat)
    requires InOrder(es) && k < |es| && Compare(es[k].apath, p) != Greater
    ensures forall i :: 0 <= i <= k ==> !Before(p, es[i].apath)
  {
    Total(es[k].apath, p);
    forall i | 0 <= i <= k ensures !Before(p, es[i].apath) {
      if i < k && Before(p, es[i].apath) {
        assert Before(EntryKey(es[i]), EntryKey(es[k]));
        Transitive(p, es[i].apath, es[k].apath);
      }
    }
  }

  lemma AfterFrom(es: seq<IndexEntry>, p: Apath, k: nat)
    requires InOrder(es) && k < |es| && Compare(es[k].apath, p) != Less
    ensures forall i :: k < i < |es| ==> Before(p, es[i].apath)
    ensures Compare(es[k].apath, p) == Greater ==> Before(p, es[k].apath)
  {
    Total(es[k].apath, p);
    forall i | k < i < |es| ensures Before(p, es[i].apath) {
      assert Before(EntryKey(es[k]), EntryKey(es[i]));
      if es[k].apath != p {
        Transitive(p, es[k].apath, es[i].apath);
      }
    }
  }

  lemma {:induction false} AfterIsSuffix(es: seq<IndexEntry>, p: Apath, k: nat)
    requires k <= |es|
    requires forall i :: 0 <= i < k ==> !Before(p, es[i].apath)
    requires forall i :: k <= i < |es| ==> Before(p, es[i].apath)
    ensures After(Some(p), es) == es[k..]
  {
    if k > 0 {
      AfterIsSuffix(es[1..], p, k - 1);
      assert es[1..][k - 1..] == es[k..];
    } else {
      AfterAll(Some(p), es);
    }
  }

  // ----- reading hunk by hunk

  function BandHunks(bands: Bands, b: nat): seq<Hunk> {
    if b in bands then bands[b].hunks else []
  }

  class IndexHunkIter {
    const archive: Archive
    const bandId: nat

    /** Hunk numbers still to be read. */
    var hunks: seq<nat>

    /** If set, yield only entries ordered after this path. */
    var after: Option<Apath>

    ghost function Unread(): seq<IndexEntry>
      reads this, archive`bands
    {
      Listed(BandHunks(archive.bands, bandId), hunks)
    }

    /** Everything still to be yielded, flattened. */
    ghost function Rest(): seq<IndexEntry>
      reads this, archive`bands
    {
      After(after, Unread())
    }

    constructor (archive: Archive, bandId: nat, after: Option<Apath>)
      ensures this.archive == archive && this.bandId == bandId
      ensures Unread() == BandEntries(BandHunks(archive.bands, bandId))
      ensures Rest() == After(after, BandEntries(BandHunks(archive.bands, bandId)))
    {
      this.archive := archive;
      this.bandId := bandId;
      this.after := after;
      hunks := Available(BandHunks(archive.bands, bandId), 0);
      new;
      ListedAvailable(BandHunks(archive.bands, bandId), 0);
      assert BandHunks(archive.bands, bandId)[0..] == BandHunks(archive.bands, bandId);
    }

    /** Cut a hunk to the entries after the starting path; nothing is said for a hunk that lies wholly before it, and
        once a hunk lies wholly after it there is no need to look again. */
    method Cut(es: seq<IndexEntry>, ghost rest: seq<IndexEntry>) returns (r: Option<seq<IndexEntry>>)
      requires after.Some? && InOrder(es + rest)
      modifies this`after
      ensures r.None? ==> after == old(after) && After(after, es) == []
      ensures r.Some? ==> r.value == After(old(after), es) && After(after, rest) == After(old(after), rest)
    {
      var p := after.value;
      InOrderParts(es, rest);
      if |es| > 0 {
        var c := Cmp(es[|es| - 1].apath, p);
        if c != Greater {
          NotAfterUpTo(es, p, |es| - 1);
          AfterIsSuffix(es, p, |es|);
          return None;
        }
        c := Cmp(es[0].apath, p);
        if c == Greater {
          AllAfter(p, es, rest);
          after := None;
          AfterAll(None, rest);
          return Some(es);
        }
      }
      var idx := CountUpTo(es, p);
      AfterIsSuffix(es, p, idx);
      return Some(es[idx..]);
    }

    /** Yield the next hunk, which may be empty: exactly a front part of what is left. */
    method Next() returns (r: Option<seq<IndexEntry>>)
      requires InOrder(Unread())
      modifies this
      ensures InOrder(Unread())
      ensures r == None ==> old(Rest()) == [] && Rest() == []
      ensures r.Some? ==> old(Rest()) == r.value + Rest() && |hunks| < old(|hunks|)
    {
      hide InOrder, Before;
      while hunks != []
        invariant InOrder(Unread()) && Rest() == old(Rest()) && |hunks| <= old(|hunks|)
        decreases |hunks|
      {
        var file := HunkAt(BandHunks(archive.bands, bandId), hunks[0]);
        if file.Absent? {
          hunks := [];
          return None;
        }
        var es, rest := HunkEntries(file), Listed(BandHunks(archive.bands, bandId), hunks[1..]);
        assert Unread() == es + rest;
        InOrderParts(es, rest);
        AfterAppend(after, es, rest);
        hunks := hunks[1..];
        if file.Unreadable? { continue; }
        if after.Some? {
          r := Cut(es, rest);
          if r.None? { continue; }
          return;
        }
        if es != [] {
          AfterAll(None, es);
          return Some(es);
        }
      }
      return None;
    }
  }

  lemma AllAfter(p: Apath, es: seq<IndexEntry>, rest: seq<IndexEntry>)
    requires es != [] && InOrder(es + rest) && Compare(es[0].apath, p) == Greater
    ensures After(Some(p), es) == es && After(Some(p), rest) == rest
  {
    Total(es[0].apath, p);
    InOrderParts(es, rest);
    HeadBeforeRest(es);
    forall e | e in es || e in rest ensures IsAfter(Some(p), e) {
      if e != es[0] {
        Transitive(p, es[0].apath, e.apath);
      }
    }
    AfterAll(Some(p), es);
    AfterAll(Some(p), rest);
  }
}
