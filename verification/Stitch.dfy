/** Stitching incomplete bands together with older ones (src/stitch.rs). */
module Stitch {
  import opened Base
  import opened Apaths
  import opened Entries
  import opened Sorting
  import opened Storage
  import opened Index

  predicate BandExists(bands: Bands, b: nat) {
    b in bands && !bands[b].head.NoHead?
  }

  predicate BandOpens(bands: Bands, b: nat) {
    b in bands && bands[b].head.Usable?
  }

  predicate BandIsClosed(bands: Bands, b: nat) {
    b in bands && bands[b].tail
  }

  /** The nearest lower-numbered band that exists. */
  function PreviousExisting(bands: Bands, b: nat): (r: Option<nat>)
    ensures r.Some? ==> r.value < b && BandExists(bands, r.value)
    ensures r.Some? ==> forall c :: r.value < c < b ==> !BandExists(bands, c)
    ensures r.None? ==> forall c :: 0 <= c < b ==> !BandExists(bands, c)
  {
    if b == 0 then None
    else if BandExists(bands, b - 1) then Some(b - 1)
    else PreviousExisting(bands, b - 1)
  }

  /** Walking the band numbers backwards, one at a time. */
  method PreviousExistingBand(bands: Bands, start: nat) returns (r: Option<nat>)
    ensures r == PreviousExisting(bands, start)
  {
    var b := start;
    while true
      invariant PreviousExisting(bands, b) == PreviousExisting(bands, start)
      decreases b
    {
      if b == 0 { return None; }
      b := b - 1;
      if BandExists(bands, b) { return Some(b); }
    }
  }

  function LastOf(es: seq<IndexEntry>, last: Option<Apath>): Option<Apath> {
    if es == [] then last else Some(es[|es| - 1].apath)
  }

  /** The part of band `b`'s own index that lies after `last`. */
  function OwnEntries(bands: Bands, b: nat, last: Option<Apath>): seq<IndexEntry> {
    if BandOpens(bands, b) then After(last, BandEntries(bands[b].hunks)) else []
  }

  /** The best available tree for band `b`, from `last` on: its own entries and then, unless it is
      complete, the previous existing band's tree from where they end. */
  function Stitched(bands: Bands, b: nat, last: Option<Apath>): seq<IndexEntry>
    decreases b, 1
  {
    var own := OwnEntries(bands, b, last);
    own + OlderBands(bands, b, LastOf(own, last))
  }

  function OlderBands(bands: Bands, b: nat, last: Option<Apath>): seq<IndexEntry>
    decreases b, 0
  {
    if BandIsClosed(bands, b) then []
    else
      match PreviousExisting(bands, b)
      case None => []
      case Some(p) => Stitched(bands, p, last)
  }

  ghost predicate WellFormedBands(bands: Bands) {
    forall b :: b in bands ==> InOrder(BandEntries(bands[b].hunks))
  }

  // ----- order

  lemma OwnInOrder(bands: Bands, b: nat, last: Option<Apath>)
    requires WellFormedBands(bands)
    ensures InOrder(OwnEntries(bands, b, last))
    ensures forall e :: e in OwnEntries(bands, b, last) ==> IsAfter(last, e)
  {
    if BandOpens(bands, b) {
      AfterInOrder(last, BandEntries(bands[b].hunks));
    }
  }

  lemma AfterLastOf(own: seq<IndexEntry>, last: Option<Apath>, e: IndexEntry)
    requires InOrder(own) && (forall f :: f in own ==> IsAfter(last, f)) && IsAfter(LastOf(own, last), e)
    ensures IsAfter(last, e) && forall f :: f in own ==> Before(f.apath, e.apath)
  {
    if own != [] {
      var top := own[|own| - 1];
      LastIsGreatest(own);
      assert top in own;
      if last.Some? {
        Transitive(last.value, top.apath, e.apath);
      }
      forall f | f in own ensures Before(f.apath, e.apath) {
        if f != top {
          Transitive(f.apath, top.apath, e.apath);
        }
      }
    }
  }

  /** A stitched tree is strictly increasing and lies after the starting path. */
  lemma {:induction false} StitchedInOrder(bands: Bands, b: nat, last: Option<Apath>)
    requires WellFormedBands(bands)
    ensures InOrder(Stitched(bands, b, last))
    ensures forall e :: e in Stitched(bands, b, last) ==> IsAfter(last, e)
    decreases b
  {
    hide Before, InOrder, IsAfter, LastOf, OwnEntries;
    var own := OwnEntries(bands, b, last);
    OwnInOrder(bands, b, last);
    if !BandIsClosed(bands, b) && PreviousExisting(bands, b).Some? {
      var p := PreviousExisting(bands, b).value;
      StitchedInOrder(bands, p, LastOf(own, last));
      var older := Stitched(bands, p, LastOf(own, last));
      forall e | e in older ensures IsAfter(last, e) && forall f :: f in own ==> Before(f.apath, e.apath) {
        AfterLastOf(own, last, e);
      }
      InOrderJoin(own, older);
    } else {
      assert own + [] == own;
    }
  }

  // ----- skipping commutes with stitching

  /** The later of two starting paths. */
  function Later(a: Option<Apath>, b: Option<Apath>): Option<Apath> {
    if a.None? then b else if b.None? then a else if Before(a.value, b.value) then b else a
  }

  lemma LaterIsBoth(a: Option<Apath>, b: Option<Apath>, e: IndexEntry)
    ensures IsAfter(Later(a, b), e) <==> IsAfter(a, e) && IsAfter(b, e)
  {
    if a.Some? && b.Some? {
      Total(a.value, b.value);
      if Before(a.value, b.value) && Before(b.value, e.apath) {
        Transitive(a.value, b.value, e.apath);
      }
      if Before(b.value, a.value) && Before(a.value, e.apath) {
        Transitive(b.value, a.value, e.apath);
      }
    }
  }

  lemma {:induction false} AfterAfter(a: Option<Apath>, b: Option<Apath>, es: seq<IndexEntry>)
    ensures After(a, After(b, es)) == After(Later(a, b), es)
  {
    if es != [] {
      AfterAfter(a, b, es[1..]);
      LaterIsBoth(a, b, es[0]);
      var rest := After(b, es[1..]);
      if IsAfter(b, es[0]) {
        assert ([es[0]] + rest)[1..] == rest;
      } else {
        assert After(b, es) == rest;
      }
    }
  }

  /** Where the own entries end, seen through a skip: what is left ends at the same place, or the
      skip goes past all of them. */
  lemma LastOfAfter(skip: Option<Apath>, last: Option<Apath>, own: seq<IndexEntry>)
    requires InOrder(own) && forall e :: e in own ==> IsAfter(last, e)
    ensures LastOf(After(skip, own), Later(skip, last)) == Later(skip, LastOf(own, last))
  {
    if own == [] {
    } else {
      var top := own[|own| - 1];
      LastIsGreatest(own);
      assert top in own;
      if skip.None? {
        AfterAll(skip, own);
      } else if IsAfter(skip, top) {
        assert own == own[..|own| - 1] + [top];
        AfterAppend(skip, own[..|own| - 1], [top]);
        AfterAll(skip, [top]);
      } else {
        Total(skip.value, top.apath);
        forall e | e in own ensures !IsAfter(skip, e) {
          if e != top && IsAfter(skip, e) {
            Transitive(skip.value, e.apath, top.apath);
          }
        }
        AfterNothing(skip, own);
        SkipPastTop(skip.value, last, top);
      }
    }
  }

  lemma SkipPastTop(skip: Apath, last: Option<Apath>, top: IndexEntry)
    requires !Before(skip, top.apath) && IsAfter(last, top)
    ensures Later(Some(skip), last) == Some(skip) == Later(Some(skip), Some(top.apath))
  {
    Total(skip, top.apath);
    if last.Some? {
      Total(skip, last.value);
      if Before(skip, last.value) {
        Transitive(skip, last.value, top.apath);
      }
    }
  }

  /** Starting a stitched read after a path is the same as reading it all and dropping what comes up
      to that path, through any chain of incomplete bands. */
  lemma {:induction false} StitchedSkips(bands: Bands, b: nat, skip: Option<Apath>, last: Option<Apath>)
    requires WellFormedBands(bands)
    ensures Stitched(bands, b, Later(skip, last)) == After(skip, Stitched(bands, b, last))
    decreases b
  {
    var own := OwnEntries(bands, b, last);
    var skipped := OwnEntries(bands, b, Later(skip, last));
    OwnInOrder(bands, b, last);
    if BandOpens(bands, b) {
      AfterAfter(skip, last, BandEntries(bands[b].hunks));
    }
    assert skipped == After(skip, own);
    LastOfAfter(skip, last, own);
    if !BandIsClosed(bands, b) && PreviousExisting(bands, b).Some? {
      StitchedSkips(bands, PreviousExisting(bands, b).value, skip, LastOf(own, last));
    }
    AfterAppend(skip, own, OlderBands(bands, b, LastOf(own, last)));
  }

  // ----- which band an entry comes from

  /** The bands that a stitched read of `b` goes through, newest first. */
  function Chain(bands: Bands, b: nat): (r: seq<nat>)
    ensures |r| >= 1 && r[0] == b
    decreases b
  {
    if BandIsClosed(bands, b) || PreviousExisting(bands, b).None? then [b]
    else [b] + Chain(bands, PreviousExisting(bands, b).value)
  }

  function Recorded(bands: Bands, b: nat): seq<IndexEntry> {
    OwnEntries(bands, b, None)
  }

  /** A band records what is in its readable hunks, if its head can be used. */
  lemma RecordedMeans(bands: Bands, b: nat, e: IndexEntry)
    ensures e in Recorded(bands, b) <==>
      b in bands && bands[b].head == Usable &&
      exists n :: 0 <= n < |bands[b].hunks| && bands[b].hunks[n].Entries? && e in bands[b].hunks[n].entries
  {
    if b in bands {
      InBandEntries(bands[b].hunks, e);
    }
  }

  lemma {:induction false} InBandEntries(hunks: seq<Hunk>, e: IndexEntry)
    ensures e in BandEntries(hunks) <==> exists n :: 0 <= n < |hunks| && hunks[n].Entries? && e in hunks[n].entries
  {
    if hunks != [] {
      InBandEntries(hunks[1..], e);
      if n :| 0 <= n < |hunks[1..]| && hunks[1..][n].Entries? && e in hunks[1..][n].entries {
        assert hunks[n + 1] == hunks[1..][n];
      }
      if n :| 0 < n < |hunks| && hunks[n].Entries? && e in hunks[n].entries {
        assert hunks[1..][n - 1] == hunks[n];
      }
    }
  }

  /** From a band with a tail a read goes nowhere; from any other to the nearest lower band with a head, if there is
      one. */
  ghost predicate NextInChain(bands: Bands, b: nat, next: Option<nat>) {
    if b in bands && bands[b].tail then next.None?
    else
      (next.Some? ==>
        next.value < b && next.value in bands && bands[next.value].head != NoHead &&
        forall c :: next.value < c < b && c in bands ==> bands[c].head == NoHead) &&
      (next.None? ==> forall c :: 0 <= c < b && c in bands ==> bands[c].head == NoHead)
  }

  lemma NextIsPrevious(bands: Bands, b: nat)
    ensures NextInChain(bands, b, if BandIsClosed(bands, b) then None else PreviousExisting(bands, b))
  {
    var next := PreviousExisting(bands, b);
    forall c: nat | c < b && c in bands && (next.Some? ==> next.value < c) ensures bands[c].head == NoHead {
      assert !BandExists(bands, c);
    }
  }

  lemma {:induction false} ChainMeans(bands: Bands, b: nat, i: nat)
    requires i < |Chain(bands, b)|
    ensures
      var chain := Chain(bands, b);
      chain[0] == b && NextInChain(bands, chain[i], if i + 1 < |chain| then Some(chain[i + 1]) else None)
    decreases b
  {
    hide NextInChain;
    NextIsPrevious(bands, b);
    if i > 0 {
      ChainMeans(bands, PreviousExisting(bands, b).value, i - 1);
    }
  }

  /** Band `chain[k]` records `e`, and every newer band of the chain stopped before it. */
  ghost predicate NewestReaching(bands: Bands, chain: seq<nat>, k: nat, e: IndexEntry) {
    k < |chain| && e in Recorded(bands, chain[k]) &&
    forall i, f :: 0 <= i < k && f in Recorded(bands, chain[i]) ==> Before(f.apath, e.apath)
  }

  lemma RecordedIsOwn(bands: Bands, b: nat)
    ensures BandOpens(bands, b) ==> Recorded(bands, b) == BandEntries(bands[b].hunks)
  {
    if BandOpens(bands, b) {
      AfterAll(None, BandEntries(bands[b].hunks));
    }
  }

  lemma ReachedDeeper(bands: Bands, chain: seq<nat>, k: nat, e: IndexEntry)
    requires |chain| >= 1
    requires NewestReaching(bands, chain[1..], k, e)
    requires forall f :: f in Recorded(bands, chain[0]) ==> Before(f.apath, e.apath)
    ensures NewestReaching(bands, chain, k + 1, e)
  {
    forall i, f | 0 <= i < k + 1 && f in Recorded(bands, chain[i]) ensures Before(f.apath, e.apath) {
      if i > 0 {
        assert f in Recorded(bands, chain[1..][i - 1]);
      }
    }
  }

  lemma ReachedShallower(bands: Bands, chain: seq<nat>, k: nat, e: IndexEntry)
    requires NewestReaching(bands, chain, k, e) && k > 0
    ensures NewestReaching(bands, chain[1..], k - 1, e)
  {
    var rest := chain[1..];
    assert rest[k - 1] == chain[k];
    forall i, f | 0 <= i < k - 1 && f in Recorded(bands, rest[i]) ensures Before(f.apath, e.apath) {
      assert rest[i] == chain[i + 1];
    }
  }

  predicate GoesOn(bands: Bands, b: nat) {
    !BandIsClosed(bands, b) && PreviousExisting(bands, b).Some?
  }

  lemma InStitched(bands: Bands, b: nat, e: IndexEntry)
    requires WellFormedBands(bands)
    ensures e in Stitched(bands, b, None) <==>
      e in Recorded(bands, b) ||
      (GoesOn(bands, b) && IsAfter(LastOf(Recorded(bands, b), None), e) &&
       e in Stitched(bands, PreviousExisting(bands, b).value, None))
  {
    hide Before, InOrder, WellFormedBands, OwnEntries, IsAfter;
    if GoesOn(bands, b) {
      StitchedSkips(bands, PreviousExisting(bands, b).value, LastOf(Recorded(bands, b), None), None);
    }
  }

  /** An entry is in the stitched tree exactly when some band of the chain records it and every newer
      band of the chain was interrupted before reaching that path. */
  lemma {:induction false} StitchedMeaning(bands: Bands, b: nat, e: IndexEntry)
    requires WellFormedBands(bands)
    ensures e in Stitched(bands, b, None) <==> exists k: nat :: NewestReaching(bands, Chain(bands, b), k, e)
    decreases b
  {
    hide Before, InOrder, WellFormedBands, OwnEntries, Stitched, NewestReaching, Recorded;
    InStitched(bands, b, e);
    OwnInOrder(bands, b, None);
    var own, chain := Recorded(bands, b), Chain(bands, b);
    if e in own {
      FirstReaches(bands, chain, e);
    }
    if GoesOn(bands, b) {
      var p := PreviousExisting(bands, b).value;
      StitchedMeaning(bands, p, e);
      assert chain[1..] == Chain(bands, p);
      if e in Stitched(bands, p, None) && IsAfter(LastOf(own, None), e) {
        var k: nat :| NewestReaching(bands, chain[1..], k, e);
        RecordedBefore(bands, b, e);
        ReachedDeeper(bands, chain, k, e);
      }
    }
    if k: nat :| NewestReaching(bands, chain, k, e) {
      Reached(bands, b, k, e);
    }
  }

  lemma FirstReaches(bands: Bands, chain: seq<nat>, e: IndexEntry)
    requires chain != [] && e in Recorded(bands, chain[0])
    ensures NewestReaching(bands, chain, 0, e)
  {
  }

  lemma RecordedBefore(bands: Bands, b: nat, e: IndexEntry)
    requires WellFormedBands(bands) && IsAfter(LastOf(Recorded(bands, b), None), e)
    ensures forall f :: f in Recorded(bands, b) ==> Before(f.apath, e.apath)
  {
    hide Before, InOrder, WellFormedBands, OwnEntries;
    OwnInOrder(bands, b, None);
    AfterLastOf(Recorded(bands, b), None, e);
  }

  /** What an entry of the chain is to its newest band. */
  lemma Reached(bands: Bands, b: nat, k: nat, e: IndexEntry)
    requires NewestReaching(bands, Chain(bands, b), k, e)
    ensures e in Recorded(bands, b) ||
      (GoesOn(bands, b) && k > 0 && IsAfter(LastOf(Recorded(bands, b), None), e) &&
       NewestReaching(bands, Chain(bands, PreviousExisting(bands, b).value), k - 1, e))
  {
    hide Before, Recorded;
    var own, chain := Recorded(bands, b), Chain(bands, b);
    if k > 0 {
      assert chain[1..] == Chain(bands, PreviousExisting(bands, b).value);
      ReachedShallower(bands, chain, k, e);
      assert own != [] ==> own[|own| - 1] in Recorded(bands, chain[0]);
    }
  }

  /** A complete band that opens is exactly its own index. */
  lemma ClosedBandIsItsIndex(bands: Bands, b: nat)
    requires BandIsClosed(bands, b) && BandOpens(bands, b)
    ensures Stitched(bands, b, None) == BandEntries(bands[b].hunks)
  {
    RecordedIsOwn(bands, b);
  }

  /** Only the band itself and lower-numbered bands matter. */
  lemma {:induction false} StitchedDependsOnOlder(bands: Bands, more: Bands, b: nat, last: Option<Apath>)
    requires forall c :: 0 <= c <= b ==> (c in bands <==> c in more) && (c in bands ==> bands[c] == more[c])
    ensures Stitched(bands, b, last) == Stitched(more, b, last)
    ensures OlderBands(bands, b, last) == OlderBands(more, b, last)
    decreases b
  {
    PreviousSame(bands, more, b);
    var own := OwnEntries(bands, b, last);
    if !BandIsClosed(bands, b) && PreviousExisting(bands, b).Some? {
      var p := PreviousExisting(bands, b).value;
      StitchedDependsOnOlder(bands, more, p, last);
      StitchedDependsOnOlder(bands, more, p, LastOf(own, last));
    }
  }

  lemma PreviousSame(bands: Bands, more: Bands, b: nat)
    requires forall c :: 0 <= c <= b ==> (c in bands <==> c in more) && (c in bands ==> bands[c] == more[c])
    ensures PreviousExisting(bands, b) == PreviousExisting(more, b)
  {
  }

  /** A band that stopped part-way: the entries it wrote, followed by the previous band's stitched
      tree restricted to the paths after the last one written. */
  lemma InterruptedBand(bands: Bands, b: nat)
    requires WellFormedBands(bands) && BandOpens(bands, b) && !BandIsClosed(bands, b)
    ensures
      var written := BandEntries(bands[b].hunks);
      Stitched(bands, b, None) == written +
        match PreviousExisting(bands, b)
        case None => []
        case Some(p) => After(LastOf(written, None), Stitched(bands, p, None))
  {
    RecordedIsOwn(bands, b);
    var written := BandEntries(bands[b].hunks);
    if PreviousExisting(bands, b).Some? {
      StitchedSkips(bands, PreviousExisting(bands, b).value, LastOf(written, None), None);
    }
  }

  // ----- the iterator

  datatype StitchState = Done | BeforeBand(band: nat) | InBand(band: nat) | AfterBand(band: nat)

  /** What a read in a given state still has to deliver, when the band being read still has `own`. */
  ghost function Owed(bands: Bands, state: StitchState, last: Option<Apath>, own: seq<IndexEntry>): seq<IndexEntry> {
    match state
    case Done => []
    case BeforeBand(b) => Stitched(bands, b, last)
    case InBand(b) => own + OlderBands(bands, b, LastOf(own, last))
    case AfterBand(b) => OlderBands(bands, b, last)
  }

  lemma OwedAfterHunk(bands: Bands, b: nat, last: Option<Apath>, hunk: seq<IndexEntry>, own: seq<IndexEntry>)
    ensures Owed(bands, InBand(b), last, hunk + own) == hunk + Owed(bands, InBand(b), LastOf(hunk, last), own)
  {
    assert LastOf(hunk + own, last) == LastOf(own, LastOf(hunk, last));
  }

  lemma OwedNextBand(bands: Bands, b: nat, last: Option<Apath>)
    ensures Owed(bands, AfterBand(b), last, []) ==
      if BandIsClosed(bands, b) then []
      else match PreviousExisting(bands, b) case None => [] case Some(p) => Owed(bands, BeforeBand(p), last, [])
    ensures Owed(bands, InBand(b), last, []) == Owed(bands, AfterBand(b), last, [])
    ensures Owed(bands, BeforeBand(b), last, []) ==
      if BandOpens(bands, b) then Owed(bands, InBand(b), last, After(last, BandEntries(BandHunks(bands, b))))
      else Owed(bands, AfterBand(b), last, [])
  {
  }

  class IterStitchedIndexHunks {
    const archive: Archive

    /** The latest path already yielded. */
    var lastApath: Option<Apath>

    var state: StitchState

    /** The hunks of the band being read, while in state `InBand`. */
    var indexHunks: IndexHunkIter?

    ghost predicate Valid()
      reads this, archive`bands, indexHunks
    {
      WellFormedBands(archive.bands) &&
      (state.InBand? ==>
        indexHunks != null && indexHunks.archive == archive && indexHunks.bandId == state.band &&
        InOrder(indexHunks.Unread()))
    }

    /** Everything still to be yielded, flattened. */
    ghost function Rest(): seq<IndexEntry>
      requires Valid()
      reads this, archive`bands, indexHunks
    {
      Owed(archive.bands, state, lastApath, if state.InBand? then indexHunks.Rest() else [])
    }

    /** How far the read has still to go: bands, then stages of a band, then hunks of it. */
    ghost function BandsLeft(): nat
      reads this
    {
      if state.Done? then 0 else state.band + 1
    }

    ghost function StagesLeft(): nat
      reads this
    {
      match state case Done => 0 case AfterBand(_) => 1 case InBand(_) => 2 case BeforeBand(_) => 3
    }

    ghost function HunksLeft(): nat
      reads this, indexHunks
    {
      if state.InBand? && indexHunks != null then |indexHunks.hunks| else 0
    }

    ghost predicate Nearer(bands: nat, stages: nat, hunks: nat)
      reads this, indexHunks
    {
      BandsLeft() < bands ||
      (BandsLeft() == bands && (StagesLeft() < stages || (StagesLeft() == stages && HunksLeft() < hunks)))
    }

    constructor (archive: Archive, band: nat)
      requires WellFormedBands(archive.bands)
      ensures Valid() && this.archive == archive && indexHunks == null
      ensures state == BeforeBand(band) && lastApath == None && Rest() == Stitched(archive.bands, band, None)
    {
      this.archive := archive;
      lastApath, state, indexHunks := None, BeforeBand(band), null;
    }

    constructor Empty(archive: Archive)
      requires WellFormedBands(archive.bands)
      ensures Valid() && this.archive == archive && indexHunks == null
      ensures state == Done && lastApath == None && Rest() == []
    {
      this.archive := archive;
      lastApath, state, indexHunks := None, Done, null;
    }

    /** Open a band and skip to the entries after the last path; a band that will not open is passed. */
    method EnterBand(b: nat)
      requires Valid() && state == BeforeBand(b)
      modifies this
      ensures Valid() && (indexHunks == old(indexHunks) || fresh(indexHunks)) && lastApath == old(lastApath)
      ensures state == (if BandOpens(archive.bands, b) then InBand(b) else AfterBand(b)) && Rest() == old(Rest())
    {
      OwedNextBand(archive.bands, b, lastApath);
      if BandOpens(archive.bands, b) {
        indexHunks := new IndexHunkIter(archive, b, lastApath);
        state := InBand(b);
      } else {
        state := AfterBand(b);
      }
    }

    /** Go back to the previous existing band, unless this band is complete or none exists. */
    method LeaveBand(b: nat)
      requires Valid() && state == AfterBand(b)
      modifies this`state
      ensures Valid() && Rest() == old(Rest())
      ensures state == Done || (state.BeforeBand? && state.band < b)
    {
      hide Before;
      OwedNextBand(archive.bands, b, lastApath);
      if BandIsClosed(archive.bands, b) {
        state := Done;
      } else {
        var prev := PreviousExistingBand(archive.bands, b);
        state := if prev.Some? then BeforeBand(prev.value) else Done;
      }
      assert Rest() == Owed(archive.bands, AfterBand(b), lastApath, []);
    }

    /** Read the next hunk of the open band, or find that it has no more. */
    method ReadHunk(b: nat) returns (hunk: Option<seq<IndexEntry>>)
      requires Valid() && state == InBand(b)
      modifies this, indexHunks
      ensures Valid() && indexHunks == old(indexHunks)
      ensures hunk.Some? ==> state == InBand(b) && old(Rest()) == hunk.value + Rest() && HunksLeft() < old(HunksLeft())
      ensures hunk.None? ==> state == AfterBand(b) && old(Rest()) == Rest()
    {
      hide Before, InOrder, Owed, WellFormedBands, After, Listed;
      ghost var own := indexHunks.Rest();
      hunk := indexHunks.Next();
      if hunk.Some? {
        assert own == hunk.value + indexHunks.Rest();
        OwedAfterHunk(archive.bands, b, lastApath, hunk.value, indexHunks.Rest());
        lastApath := LastOf(hunk.value, lastApath);
      } else {
        OwedNextBand(archive.bands, b, lastApath);
        state := AfterBand(b);
      }
    }

    /** Yield the next hunk: exactly a front part of what is left; at the end nothing is left. */
    method Next() returns (r: Option<seq<IndexEntry>>)
      requires Valid()
      modifies this, indexHunks
      ensures Valid() && (indexHunks == old(indexHunks) || fresh(indexHunks))
      ensures BandsLeft() <= old(BandsLeft())
      ensures r.Some? ==> Nearer(old(BandsLeft()), old(StagesLeft()), old(HunksLeft()))
      ensures r == None ==> old(Rest()) == [] && Rest() == [] && state == Done
      ensures r.Some? ==> old(Rest()) == r.value + Rest()
    {
      while state != Done
        invariant Valid() && (indexHunks == old(indexHunks) || fresh(indexHunks))
        invariant Rest() == old(Rest())
        invariant Nearer(old(BandsLeft()), old(StagesLeft()), old(HunksLeft()) + 1)
        decreases BandsLeft(), StagesLeft()
      {
        match state
        case BeforeBand(b) => EnterBand(b);
        case AfterBand(b) => LeaveBand(b);
        case InBand(b) =>
          var hunk := ReadHunk(b);
          if hunk.Some? { return hunk; }
      }
      return None;
    }
  }
}
