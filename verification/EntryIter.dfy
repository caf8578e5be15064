/** Reading a stored tree entry by entry, and looking entries up on the way (src/index.rs). */
module EntryIter {
  import opened Base
  import opened Apaths
  import opened Entries
  import opened Sorting
  import opened Storage
  import opened Index
  import opened Stitch

  /** The entry recorded for a path, if there is one. */
  function Lookup(es: seq<IndexEntry>, p: Apath): (r: Option<IndexEntry>)
    ensures r.Some? ==> r.value in es && r.value.apath == p
    ensures r.None? ==> forall e :: e in es ==> e.apath != p
  {
    if es == [] then None else if es[0].apath == p then Some(es[0]) else Lookup(es[1..], p)
  }

  /** In an index in order the entry for a path is unique. */
  lemma LookupIs(es: seq<IndexEntry>, e: IndexEntry)
    requires InOrder(es) && e in es
    ensures Lookup(es, e.apath) == Some(e)
  {
    var f := Lookup(es, e.apath).value;
    var i :| 0 <= i < |es| && es[i] == e;
    var j :| 0 <= j < |es| && es[j] == f;
    IncreasingDistinct(EntryKey, es);
    assert i == j || EntryKey(es[i]) != EntryKey(es[j]);
  }

  lemma LookupAmong(es: seq<IndexEntry>, fs: seq<IndexEntry>, p: Apath)
    requires InOrder(es) && InOrder(fs)
    requires forall e: IndexEntry :: e.apath == p ==> (e in es <==> e in fs)
    ensures Lookup(es, p) == Lookup(fs, p)
  {
    if Lookup(es, p).Some? {
      LookupIs(fs, Lookup(es, p).value);
    }
  }

  /** Discarding what comes up to an earlier path does not change the answer for a later one. */
  lemma LookupAfter(es: seq<IndexEntry>, last: Option<Apath>, p: Apath)
    requires InOrder(es) && (last.Some? ==> Before(last.value, p))
    ensures Lookup(After(last, es), p) == Lookup(es, p)
  {
    AfterInOrder(last, es);
    LookupAmong(After(last, es), es, p);
  }

  /** The answers to a series of queries, each one discarding what comes up to it. */
  function Answers(es: seq<IndexEntry>, queries: seq<Apath>): seq<Option<IndexEntry>>
    decreases queries
  {
    if queries == [] then []
    else [Lookup(es, queries[0])] + Answers(After(Some(queries[0]), es), queries[1..])
  }

  /** With increasing queries every answer is a lookup in the whole index. */
  lemma {:induction false} AnswersAreLookups(es: seq<IndexEntry>, last: Option<Apath>, queries: seq<Apath>, i: nat)
    requires InOrder(es) && i < |queries|
    requires forall i, j :: 0 <= i < j < |queries| ==> Before(queries[i], queries[j])
    requires last.Some? ==> forall q :: q in queries ==> Before(last.value, q)
    ensures |Answers(After(last, es), queries)| == |queries|
    ensures Answers(After(last, es), queries)[i] == Lookup(es, queries[i])
    decreases |queries|
  {
    hide Before, InOrder, Lookup;
    var q := queries[0];
    LookupAfter(es, last, q);
    AfterAfter(Some(q), last, es);
    assert Later(Some(q), last) == Some(q) by {
      if last.Some? { Total(last.value, q); }
    }
    forall p | p in queries[1..] ensures Before(q, p) {
      var k :| 0 <= k < |queries[1..]| && queries[1..][k] == p;
      assert queries[k + 1] == p;
    }
    if |queries| == 1 {
      assert queries[1..] == [];
    } else {
      AnswersAreLookups(es, Some(q), queries[1..], if i > 0 then i - 1 else 0);
    }
  }

  // ----- selecting a subtree

  predicate Wanted(subtree: Apath, exclude: Apath -> bool, e: IndexEntry) {
    IsPrefixOf(subtree, e.apath) && !exclude(e.apath)
  }

  function Selected(subtree: Apath, exclude: Apath -> bool, es: seq<IndexEntry>): seq<IndexEntry> {
    if es == [] then []
    else (if Wanted(subtree, exclude, es[0]) then [es[0]] else []) + Selected(subtree, exclude, es[1..])
  }

  lemma {:induction false} SelectedMore(subtree: Apath, exclude: Apath -> bool, es: seq<IndexEntry>, e: IndexEntry)
    ensures Selected(subtree, exclude, es + [e]) ==
      Selected(subtree, exclude, es) + if Wanted(subtree, exclude, e) then [e] else []
    decreases es
  {
    hide Wanted;
    var all := es + [e];
    if es == [] {
      assert all[1..] == [];
    } else {
      assert all[0] == es[0] && all[1..] == es[1..] + [e];
      SelectedMore(subtree, exclude, es[1..], e);
      var first, last := if Wanted(subtree, exclude, es[0]) then [es[0]] else [],
        if Wanted(subtree, exclude, e) then [e] else [];
      var rest := Selected(subtree, exclude, es[1..]);
      assert first + (rest + last) == first + rest + last;
    }
  }

  lemma WantedMeans(subtree: Apath, exclude: Apath -> bool, e: IndexEntry)
    ensures Wanted(subtree, exclude, e) <==> IsPrefixOf(subtree, e.apath) && !exclude(e.apath)
  {
    hide IsPrefixOf;
  }

  /** The positions of the entries selected: exactly those whose path passes the prefix test and is not excluded, each
      once and in order. */
  lemma SelectedPositions(subtree: Apath, exclude: Apath -> bool, es: seq<IndexEntry>) returns (at: seq<nat>)
    ensures |at| == |Selected(subtree, exclude, es)|
    ensures forall k :: 0 <= k < |at| ==> at[k] < |es| && Selected(subtree, exclude, es)[k] == es[at[k]]
    ensures forall k, l :: 0 <= k < l < |at| ==> at[k] < at[l]
    ensures forall i :: 0 <= i < |es| ==> (i in at <==> IsPrefixOf(subtree, es[i].apath) && !exclude(es[i].apath))
  {
    hide IsPrefixOf, Wanted;
    at := [];
    assert es[..0] == [];
    for n := 0 to |es|
      invariant |at| == |Selected(subtree, exclude, es[..n])|
      invariant forall k :: 0 <= k < |at| ==> at[k] < n && Selected(subtree, exclude, es[..n])[k] == es[at[k]]
      invariant forall k, l :: 0 <= k < l < |at| ==> at[k] < at[l]
      invariant forall i :: 0 <= i < n ==> (i in at <==> IsPrefixOf(subtree, es[i].apath) && !exclude(es[i].apath))
    {
      hide Selected;
      assert es[..n + 1] == es[..n] + [es[n]];
      SelectedMore(subtree, exclude, es[..n], es[n]);
      WantedMeans(subtree, exclude, es[n]);
      if IsPrefixOf(subtree, es[n].apath) && !exclude(es[n].apath) {
        at := at + [n];
      }
    }
    assert es[..|es|] == es;
  }

  lemma SelectedInOrder(subtree: Apath, exclude: Apath -> bool, es: seq<IndexEntry>)
    requires InOrder(es)
    ensures InOrder(Selected(subtree, exclude, es))
  {
    hide Before, IsPrefixOf, Selected;
    var at := SelectedPositions(subtree, exclude, es);
    var r := Selected(subtree, exclude, es);
    forall k, l | 0 <= k < l < |r| ensures Before(EntryKey(r[k]), EntryKey(r[l])) {
      assert Before(EntryKey(es[at[k]]), EntryKey(es[at[l]]));
    }
  }

  /** Which entries are selected; for a single-byte subtree, itself and what is below it. */
  lemma SelectedMeans(subtree: Apath, exclude: Apath -> bool, es: seq<IndexEntry>, e: IndexEntry)
    ensures e in Selected(subtree, exclude, es) <==> e in es && IsPrefixOf(subtree, e.apath) && !exclude(e.apath)
    ensures IsValid(subtree) && SingleByte(subtree) && IsValid(e.apath) ==>
      (e in Selected(subtree, exclude, es) <==> e in es && Names(subtree) <= Names(e.apath) && !exclude(e.apath))
  {
    hide Before, IsPrefixOf, IsValid, SingleByte, Selected;
    var at := SelectedPositions(subtree, exclude, es);
    var r := Selected(subtree, exclude, es);
    if e in r {
      var k :| 0 <= k < |r| && r[k] == e;
      assert at[k] in at;
    }
    if e in es && IsPrefixOf(subtree, e.apath) && !exclude(e.apath) {
      var i :| 0 <= i < |es| && es[i] == e;
      var k :| 0 <= k < |at| && at[k] == i;
      assert r[k] == e;
    }
    if IsValid(subtree) && SingleByte(subtree) && IsValid(e.apath) {
      PrefixTestSingleByte(subtree, e.apath);
    }
  }

  predicate ExcludeNothing(p: Apath) {
    false
  }

  /** The whole stored tree of a band, as everything that restores, lists or checks it reads it. */
  function StoredTree(bands: Bands, b: nat): seq<IndexEntry> {
    Selected(Root, ExcludeNothing, Stitched(bands, b, None))
  }

  /** Selecting from the root with no exclusions keeps every entry with a well-formed path. */
  lemma {:induction false} SelectAll(es: seq<IndexEntry>)
    requires forall e :: e in es ==> IsValid(e.apath)
    ensures Selected(Root, ExcludeNothing, es) == es
  {
    if es != [] {
      assert es[0] in es;
      PrefixTestSingleByte(Root, es[0].apath);
      SelectAll(es[1..]);
    }
  }

  class IndexEntryIter {
    const hunkIter: IterStitchedIndexHunks
    const subtree: Apath
    const exclude: Apath -> bool

    /** Entries read from a hunk but not yet returned. */
    var buffered: seq<IndexEntry>

    ghost predicate Valid()
      reads this, hunkIter, hunkIter.archive`bands, hunkIter.indexHunks
    {
      hunkIter.Valid()
    }

    /** Every entry not yet passed. */
    ghost function Rest(): seq<IndexEntry>
      requires Valid()
      reads this, hunkIter, hunkIter.archive`bands, hunkIter.indexHunks
    {
      buffered + hunkIter.Rest()
    }

    constructor (hunkIter: IterStitchedIndexHunks, subtree: Apath, exclude: Apath -> bool)
      requires hunkIter.Valid()
      ensures this.hunkIter == hunkIter && this.subtree == subtree && this.exclude == exclude
      ensures Valid() && Rest() == hunkIter.Rest()
    {
      this.hunkIter, this.subtree, this.exclude := hunkIter, subtree, exclude;
      buffered := [];
    }

    /** Read another hunk into the empty buffer; false when there is none. */
    method Refill() returns (more: bool)
      requires Valid() && buffered == []
      modifies this, hunkIter, hunkIter.indexHunks
      ensures Valid() && Rest() == old(Rest())
      ensures hunkIter.indexHunks == old(hunkIter.indexHunks) || fresh(hunkIter.indexHunks)
      ensures hunkIter.BandsLeft() <= old(hunkIter.BandsLeft())
      ensures more ==>
        hunkIter.Nearer(old(hunkIter.BandsLeft()), old(hunkIter.StagesLeft()), old(hunkIter.HunksLeft()))
      ensures !more ==> Rest() == [] && buffered == []
    {
      var hunk := hunkIter.Next();
      if hunk.Some? {
        buffered := hunk.value;
        return true;
      }
      return false;
    }

    /** The next entry in the subtree that is not excluded. */
    method Next() returns (r: Option<IndexEntry>)
      requires Valid()
      modifies this, hunkIter, hunkIter.indexHunks
      ensures Valid() && (hunkIter.indexHunks == old(hunkIter.indexHunks) || fresh(hunkIter.indexHunks))
      ensures
        var left := old(Selected(subtree, exclude, Rest()));
        if left == [] then r == None && Rest() == []
        else r == Some(left[0]) && Selected(subtree, exclude, Rest()) == left[1..]
    {
      hide Before, Wanted, WellFormedBands, InOrder, Owed;
      while true
        invariant Valid() && (hunkIter.indexHunks == old(hunkIter.indexHunks) || fresh(hunkIter.indexHunks))
        invariant Selected(subtree, exclude, Rest()) == old(Selected(subtree, exclude, Rest()))
        decreases hunkIter.BandsLeft(), hunkIter.StagesLeft(), hunkIter.HunksLeft(), |buffered|
      {
        if buffered != [] {
          var e := buffered[0];
          assert Rest()[1..] == buffered[1..] + hunkIter.Rest();
          buffered := buffered[1..];
          if Wanted(subtree, exclude, e) { return Some(e); }
        } else {
          var more := Refill();
          if !more { return None; }
        }
      }
    }

    /** Discard the entries before the path at the front of the buffer. */
    method SkipBuffered(p: Apath)
      modifies this`buffered
      ensures buffered == DropBefore(old(buffered), p)
    {
      while buffered != []
        invariant DropBefore(buffered, p) == DropBefore(old(buffered), p)
        decreases |buffered|
      {
        var c := Cmp(buffered[0].apath, p);
        if c != Less { return; }
        buffered := buffered[1..];
      }
    }

    /** Discard what the buffer holds before the path, and read on if that is all of it. */
    method SeekStep(p: Apath) returns (more: bool)
      requires Valid()
      modifies this, hunkIter, hunkIter.indexHunks
      ensures Valid() && (hunkIter.indexHunks == old(hunkIter.indexHunks) || fresh(hunkIter.indexHunks))
      ensures hunkIter.BandsLeft() <= old(hunkIter.BandsLeft())
      ensures DropBefore(Rest(), p) == DropBefore(old(Rest()), p)
      ensures more ==>
        hunkIter.Nearer(old(hunkIter.BandsLeft()), old(hunkIter.StagesLeft()), old(hunkIter.HunksLeft()))
      ensures !more ==> DropBefore(Rest(), p) == Rest() && (buffered == [] ==> Rest() == [])
    {
      DropBeforeAppend(buffered, hunkIter.Rest(), p);
      SkipBuffered(p);
      if buffered != [] { return false; }
      assert Rest() == hunkIter.Rest();
      more := Refill();
    }

    /** Discard entries before the path, reading on as far as needed. */
    method SeekTo(p: Apath)
      requires Valid()
      modifies this, hunkIter, hunkIter.indexHunks
      ensures Valid() && (hunkIter.indexHunks == old(hunkIter.indexHunks) || fresh(hunkIter.indexHunks))
      ensures hunkIter.BandsLeft() <= old(hunkIter.BandsLeft())
      ensures Rest() == DropBefore(old(Rest()), p)
      ensures buffered == [] ==> Rest() == []
    {
      var more := true;
      while more
        invariant Valid() && (hunkIter.indexHunks == old(hunkIter.indexHunks) || fresh(hunkIter.indexHunks))
        invariant hunkIter.BandsLeft() <= old(hunkIter.BandsLeft())
        invariant DropBefore(Rest(), p) == DropBefore(old(Rest()), p)
        invariant !more ==> DropBefore(Rest(), p) == Rest() && (buffered == [] ==> Rest() == [])
        decreases more, hunkIter.BandsLeft(), hunkIter.StagesLeft(), hunkIter.HunksLeft()
      {
        more := SeekStep(p);
      }
    }

    /** Take the next entry if it is the one at the path. */
    method TakeAt(p: Apath) returns (r: Option<IndexEntry>)
      requires Valid() && (buffered == [] ==> Rest() == [])
      modifies this`buffered
      ensures Valid()
      ensures
        var d := old(Rest());
        if d != [] && Compare(d[0].apath, p) == Equal then r == Some(d[0]) && Rest() == d[1..]
        else r == None && Rest() == d
    {
      if buffered == [] { return None; }
      var e := buffered[0];
      assert Rest()[0] == e && Rest()[1..] == buffered[1..] + hunkIter.Rest();
      var c := Cmp(e.apath, p);
      if c != Equal { return None; }
      buffered := buffered[1..];
      return Some(e);
    }

    /** Skip forward to a path: the answer is the entry recorded for it, and exactly the entries after
        the path are left. */
    method AdvanceTo(p: Apath) returns (r: Option<IndexEntry>)
      requires Valid() && InOrder(Rest())
      modifies this, hunkIter, hunkIter.indexHunks
      ensures Valid() && (hunkIter.indexHunks == old(hunkIter.indexHunks) || fresh(hunkIter.indexHunks))
      ensures hunkIter.BandsLeft() <= old(hunkIter.BandsLeft())
      ensures r == Lookup(old(Rest()), p) && Rest() == After(Some(p), old(Rest()))
    {
      hide *;
      AdvanceMeaning(Rest(), p);
      SeekTo(p);
      r := TakeAt(p);
    }
  }

  /** The entries left when those before `p` at the front are discarded. */
  function DropBefore(es: seq<IndexEntry>, p: Apath): seq<IndexEntry> {
    if es == [] || Compare(es[0].apath, p) != Less then es else DropBefore(es[1..], p)
  }

  lemma {:induction false} DropBeforeAppend(a: seq<IndexEntry>, b: seq<IndexEntry>, p: Apath)
    ensures DropBefore(a + b, p) ==
      if DropBefore(a, p) == [] then DropBefore(b, p) else DropBefore(a, p) + b
    ensures DropBefore(a, p) != [] ==> Compare(DropBefore(a, p)[0].apath, p) != Less
  {
    if a == [] {
      assert a + b == b;
    } else if Compare(a[0].apath, p) == Less {
      assert (a + b)[1..] == a[1..] + b;
      DropBeforeAppend(a[1..], b, p);
    }
  }

  lemma {:induction false} AdvanceMeaning(es: seq<IndexEntry>, p: Apath)
    requires InOrder(es)
    ensures
      var d := DropBefore(es, p);
      if d != [] && Compare(d[0].apath, p) == Equal
      then Lookup(es, p) == Some(d[0]) && After(Some(p), es) == d[1..]
      else Lookup(es, p) == None && After(Some(p), es) == d
  {
    if es != [] {
      Total(es[0].apath, p);
      HeadBeforeRest(es);
      if Compare(es[0].apath, p) == Less {
        AdvanceMeaning(es[1..], p);
      } else if Compare(es[0].apath, p) == Equal {
        AfterAll(Some(p), es[1..]);
      } else {
        AfterFrom(es, p, 0);
        AfterIsSuffix(es, p, 0);
        forall e | e in es ensures e.apath != p {
          Total(e.apath, p);
          var i :| 0 <= i < |es| && es[i] == e;
        }
      }
    }
  }

  /** Read the part of a stored tree that is in a subtree and not excluded, as all that restores or lists does. */
  method ReadTree(archive: Archive, b: nat, subtree: Apath, exclude: Apath -> bool) returns (es: seq<IndexEntry>)
    requires WellFormedBands(archive.bands)
    ensures es == Selected(subtree, exclude, Stitched(archive.bands, b, None)) && InOrder(es)
    ensures forall e :: e in es <==>
      e in Stitched(archive.bands, b, None) && IsPrefixOf(subtree, e.apath) && !exclude(e.apath)
  {
    hide *;
    var hunks := new IterStitchedIndexHunks(archive, b);
    var entries := new IndexEntryIter(hunks, subtree, exclude);
    ghost var tree := Selected(subtree, exclude, entries.Rest());
    es := [];
    while true
      invariant fresh(entries) && fresh(entries.hunkIter) && entries.Valid()
      invariant entries.hunkIter.indexHunks == null || fresh(entries.hunkIter.indexHunks)
      invariant es + Selected(entries.subtree, entries.exclude, entries.Rest()) == tree
      decreases |tree| - |es|
    {
      var next := entries.Next();
      if next.None? { break; }
      es := es + [next.value];
    }
    StitchedInOrder(archive.bands, b, None);
    SelectedInOrder(subtree, exclude, Stitched(archive.bands, b, None));
    forall e ensures e in es <==>
      e in Stitched(archive.bands, b, None) && IsPrefixOf(subtree, e.apath) && !exclude(e.apath)
    {
      SelectedMeans(subtree, exclude, Stitched(archive.bands, b, None), e);
    }
  }
}
