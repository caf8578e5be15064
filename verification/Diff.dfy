/** Merging two ordered trees, and the differences between a stored tree and its source (src/merge.rs,
    src/change.rs, src/diff.rs). */
module Differences {
  import opened Base
  import opened Apaths
  import opened Entries
  import opened Sorting
  import opened Storage
  import opened Stitch
  import opened Index
  import opened Content
  import opened Combining
  import opened Backup
  import opened Jobs

  datatype Matched = Left(a: IndexEntry) | Right(b: EntryValue) | Both(a: IndexEntry, b: EntryValue)

  function MatchedPath(m: Matched): Apath {
    if m.Right? then m.b.apath else m.a.apath
  }

  /** Which pairing belongs to two trees: an entry alone when the other tree has nothing at its path. */
  ghost predicate Belongs(m: Matched, xs: seq<IndexEntry>, ys: seq<EntryValue>) {
    match m
    case Left(a) => a in xs && forall b :: b in ys ==> b.apath != a.apath
    case Right(b) => b in ys && forall a :: a in xs ==> a.apath != b.apath
    case Both(a, b) => a in xs && b in ys && a.apath == b.apath
  }

  /** Walking both trees side by side. */
  function Merge(xs: seq<IndexEntry>, ys: seq<EntryValue>): seq<Matched>
    decreases |xs| + |ys|
  {
    if xs == [] && ys == [] then []
    else if ys == [] then [Left(xs[0])] + Merge(xs[1..], ys)
    else if xs == [] then [Right(ys[0])] + Merge(xs, ys[1..])
    else
      match Compare(xs[0].apath, ys[0].apath)
      case Equal => [Both(xs[0], ys[0])] + Merge(xs[1..], ys[1..])
      case Less => [Left(xs[0])] + Merge(xs[1..], ys)
      case Greater => [Right(ys[0])] + Merge(xs, ys[1..])
  }

  // ----- the merge yields the union, in order

  /** Nothing in the tree is at the path: it lies wholly after it. */
  ghost predicate AllFollow<T>(key: T -> Apath, p: Apath, xs: seq<T>) {
    forall i :: 0 <= i < |xs| ==> Before(p, key(xs[i]))
  }

  lemma Follow<T>(key: T -> Apath, p: Apath, xs: seq<T>)
    requires Increasing(key, xs) && (xs != [] ==> Before(p, key(xs[0])))
    ensures AllFollow(key, p, xs)
  {
    forall i | 0 <= i < |xs| ensures Before(p, key(xs[i])) {
      if i > 0 {
        Transitive(p, key(xs[0]), key(xs[i]));
      }
    }
  }

  lemma FollowTail<T>(key: T -> Apath, xs: seq<T>)
    requires Increasing(key, xs) && xs != []
    ensures Increasing(key, xs[1..]) && AllFollow(key, key(xs[0]), xs[1..])
  {
  }

  lemma FollowApart<T>(key: T -> Apath, p: Apath, xs: seq<T>, x: T)
    requires AllFollow(key, p, xs) && x in xs
    ensures key(x) != p
  {
    var i :| 0 <= i < |xs| && xs[i] == x;
    Total(p, key(x));
  }

  /** One entry of the left tree comes first and has no partner. */
  lemma LeftFirst(m: Matched, xs: seq<IndexEntry>, ys: seq<EntryValue>)
    requires xs != [] && AllFollow(EntryKey, xs[0].apath, xs[1..]) && AllFollow(SourceKey, xs[0].apath, ys)
    ensures Belongs(m, xs, ys) <==> m == Left(xs[0]) || Belongs(m, xs[1..], ys)
  {
    hide AllFollow, Compare;
    forall b | b in ys ensures b.apath != xs[0].apath {
      FollowApart(SourceKey, xs[0].apath, ys, b);
    }
    assert forall a :: a in xs <==> a == xs[0] || a in xs[1..];
  }

  lemma RightFirst(m: Matched, xs: seq<IndexEntry>, ys: seq<EntryValue>)
    requires ys != [] && AllFollow(SourceKey, ys[0].apath, ys[1..]) && AllFollow(EntryKey, ys[0].apath, xs)
    ensures Belongs(m, xs, ys) <==> m == Right(ys[0]) || Belongs(m, xs, ys[1..])
  {
    hide AllFollow, Compare;
    forall a | a in xs ensures a.apath != ys[0].apath {
      FollowApart(EntryKey, ys[0].apath, xs, a);
    }
    assert forall b :: b in ys <==> b == ys[0] || b in ys[1..];
  }

  lemma BothFirst(m: Matched, xs: seq<IndexEntry>, ys: seq<EntryValue>)
    requires xs != [] && ys != [] && xs[0].apath == ys[0].apath
    requires AllFollow(EntryKey, xs[0].apath, xs[1..]) && AllFollow(SourceKey, ys[0].apath, ys[1..])
    ensures Belongs(m, xs, ys) <==> m == Both(xs[0], ys[0]) || Belongs(m, xs[1..], ys[1..])
  {
    hide AllFollow, Compare;
    forall a | a in xs[1..] ensures a.apath != xs[0].apath {
      FollowApart(EntryKey, xs[0].apath, xs[1..], a);
    }
    forall b | b in ys[1..] ensures b.apath != ys[0].apath {
      FollowApart(SourceKey, ys[0].apath, ys[1..], b);
    }
    assert forall a :: a in xs <==> a == xs[0] || a in xs[1..];
    assert forall b :: b in ys <==> b == ys[0] || b in ys[1..];
  }

  /** What the first step of a merge does, as far as membership and order are concerned. */
  lemma MergeStep(xs: seq<IndexEntry>, ys: seq<EntryValue>) returns (xs': seq<IndexEntry>, ys': seq<EntryValue>)
    requires Increasing(EntryKey, xs) && Increasing(SourceKey, ys) && (xs != [] || ys != [])
    ensures Increasing(EntryKey, xs') && Increasing(SourceKey, ys') && |xs'| + |ys'| < |xs| + |ys|
    ensures Merge(xs, ys) != [] && Merge(xs, ys)[1..] == Merge(xs', ys')
    ensures var first := Merge(xs, ys)[0];
            (forall m :: Belongs(m, xs, ys) <==> m == first || Belongs(m, xs', ys')) &&
            AllFollow(EntryKey, MatchedPath(first), xs') && AllFollow(SourceKey, MatchedPath(first), ys')
  {
    hide Belongs, Before;
    if ys == [] || (xs != [] && Compare(xs[0].apath, ys[0].apath) == Less) {
      xs', ys' := xs[1..], ys;
      FollowTail(EntryKey, xs);
      LessFirst(xs, ys);
      forall m ensures Belongs(m, xs, ys) <==> m == Left(xs[0]) || Belongs(m, xs', ys') { LeftFirst(m, xs, ys); }
    } else if xs == [] || Compare(xs[0].apath, ys[0].apath) == Greater {
      xs', ys' := xs, ys[1..];
      FollowTail(SourceKey, ys);
      GreaterFirst(xs, ys);
      forall m ensures Belongs(m, xs, ys) <==> m == Right(ys[0]) || Belongs(m, xs', ys') { RightFirst(m, xs, ys); }
    } else {
      xs', ys' := xs[1..], ys[1..];
      FollowTail(EntryKey, xs);
      FollowTail(SourceKey, ys);
      Total(xs[0].apath, ys[0].apath);
      forall m ensures Belongs(m, xs, ys) <==> m == Both(xs[0], ys[0]) || Belongs(m, xs', ys') { BothFirst(m, xs, ys); }
    }
  }

  lemma LessFirst(xs: seq<IndexEntry>, ys: seq<EntryValue>)
    requires Increasing(SourceKey, ys) && xs != [] && (ys != [] ==> Compare(xs[0].apath, ys[0].apath) == Less)
    ensures AllFollow(SourceKey, xs[0].apath, ys)
  {
    Follow(SourceKey, xs[0].apath, ys);
  }

  lemma GreaterFirst(xs: seq<IndexEntry>, ys: seq<EntryValue>)
    requires Increasing(EntryKey, xs) && ys != [] && (xs != [] ==> Compare(xs[0].apath, ys[0].apath) == Greater)
    ensures AllFollow(EntryKey, ys[0].apath, xs)
  {
    if xs != [] {
      Total(xs[0].apath, ys[0].apath);
    }
    Follow(EntryKey, ys[0].apath, xs);
  }

  /** Merging yields every path of the union once, in order, labelled by the trees it is in. */
  lemma {:induction false} MergeMeaning(xs: seq<IndexEntry>, ys: seq<EntryValue>)
    requires Increasing(EntryKey, xs) && Increasing(SourceKey, ys)
    ensures Increasing(MatchedPath, Merge(xs, ys))
    ensures forall m :: m in Merge(xs, ys) <==> Belongs(m, xs, ys)
    decreases |xs| + |ys|
  {
    if xs != [] || ys != [] {
      var xs', ys' := MergeStep(xs, ys);
      MergeMeaning(xs', ys');
      var merged := Merge(xs, ys);
      Prepended(merged, xs', ys');
      assert merged == [merged[0]] + merged[1..];
    }
  }

  lemma Prepended(merged: seq<Matched>, xs: seq<IndexEntry>, ys: seq<EntryValue>)
    requires merged != [] && Increasing(MatchedPath, merged[1..])
    requires forall m :: m in merged[1..] ==> Belongs(m, xs, ys)
    requires AllFollow(EntryKey, MatchedPath(merged[0]), xs) && AllFollow(SourceKey, MatchedPath(merged[0]), ys)
    ensures Increasing(MatchedPath, merged)
  {
    var p := MatchedPath(merged[0]);
    forall i | 1 <= i < |merged| ensures Before(p, MatchedPath(merged[i])) {
      assert merged[i] == merged[1..][i - 1];
      BelongsAfter(p, merged[i], xs, ys);
    }
    forall i, j | 0 <= i < j < |merged| ensures Before(MatchedPath(merged[i]), MatchedPath(merged[j])) {
      if i > 0 {
        assert merged[i] == merged[1..][i - 1] && merged[j] == merged[1..][j - 1];
      }
    }
  }

  lemma BelongsAfter(p: Apath, m: Matched, xs: seq<IndexEntry>, ys: seq<EntryValue>)
    requires Belongs(m, xs, ys) && AllFollow(EntryKey, p, xs) && AllFollow(SourceKey, p, ys)
    ensures Before(p, MatchedPath(m))
  {
    if m.Right? {
      var i :| 0 <= i < |ys| && ys[i] == m.b;
    } else {
      var i :| 0 <= i < |xs| && xs[i] == m.a;
    }
  }

  // ----- the merging iterator

  class MergeTrees {
    /** What the two underlying iterators have still to give. */
    var ait: seq<IndexEntry>
    var bit: seq<EntryValue>

    /** An entry taken from each but not yet used. */
    var na: Option<IndexEntry>
    var nb: Option<EntryValue>

    ghost function Rest(): seq<Matched>
      reads this
    {
      Merge((if na.Some? then [na.value] else []) + ait, (if nb.Some? then [nb.value] else []) + bit)
    }

    constructor (ait: seq<IndexEntry>, bit: seq<EntryValue>)
      ensures Rest() == Merge(ait, bit)
    {
      this.ait, this.bit, na, nb := ait, bit, None, None;
      new;
      assert [] + ait == ait && [] + bit == bit;
    }

    /** Take one entry ahead from each side that has none waiting. */
    method Preload()
      modifies this
      ensures Rest() == old(Rest())
      ensures (na.None? ==> ait == []) && (nb.None? ==> bit == [])
    {
      if na.None? && ait != [] {
        assert [ait[0]] + ait[1..] == [] + ait;
        na, ait := Some(ait[0]), ait[1..];
      }
      if nb.None? && bit != [] {
        assert [bit[0]] + bit[1..] == [] + bit;
        nb, bit := Some(bit[0]), bit[1..];
      }
    }

    method Next() returns (r: Option<Matched>)
      modifies this
      ensures
        if old(Rest()) == [] then r == None && Rest() == []
        else r == Some(old(Rest())[0]) && Rest() == old(Rest())[1..]
    {
      Preload();
      ghost var xs := (if na.Some? then [na.value] else []) + ait;
      ghost var ys := (if nb.Some? then [nb.value] else []) + bit;
      assert na.Some? ==> xs[0] == na.value && xs[1..] == ait == [] + ait;
      assert nb.Some? ==> ys[0] == nb.value && ys[1..] == bit == [] + bit;
      if na.None? && nb.None? { return None; }
      if nb.None? { r, na := Some(Left(na.value)), None; return; }
      if na.None? { r, nb := Some(Right(nb.value)), None; return; }
      var c := Cmp(na.value.apath, nb.value.apath);
      match c
      case Equal => r, na, nb := Some(Both(na.value, nb.value)), None, None;
      case Less => r, na := Some(Left(na.value)), None;
      case Greater => r, nb := Some(Right(nb.value)), None;
    }
  }

  // ----- changes

  datatype Change =
    | Unchanged(a: IndexEntry)
    | Added(b: EntryValue)
    | Deleted(a: IndexEntry)
    | Changed(a: IndexEntry, b: EntryValue)

  /** The metadata that counts: times only for files, targets only for symlinks. */
  predicate SameSignificant(a: IndexEntry, b: EntryValue) {
    a.kind == b.Kind() && a.owner == b.owner && a.unixMode == b.unixMode &&
    (a.kind.File? ==> a.Size() == b.Size() && a.Time() == b.mtime) &&
    (a.kind.Symlink? ==> a.target == b.SymlinkTarget())
  }

  function ToChange(m: Matched): Change {
    match m
    case Both(a, b) => if SameSignificant(a, b) then Unchanged(a) else Changed(a, b)
    case Left(a) => Deleted(a)
    case Right(b) => Added(b)
  }

  function Report(ms: seq<Matched>, includeUnchanged: bool): seq<Change> {
    if ms == [] then []
    else
      (if includeUnchanged || !ToChange(ms[0]).Unchanged? then [ToChange(ms[0])] else []) +
      Report(ms[1..], includeUnchanged)
  }

  predicate KnownKind(e: EntryValue) {
    !e.kindMeta.UnknownMeta?
  }

  function Known(es: seq<EntryValue>): (r: seq<EntryValue>)
    ensures forall e :: e in r <==> e in es && KnownKind(e)
  {
    if es == [] then [] else (if KnownKind(es[0]) then [es[0]] else []) + Known(es[1..])
  }

  /** The differences between a stored tree and a source tree. */
  function Diff(stored: seq<IndexEntry>, live: seq<EntryValue>, includeUnchanged: bool): seq<Change> {
    Report(Merge(stored, Known(live)), includeUnchanged)
  }

  /** What a user would call the same: kind, mode, user and group; for a file also its length and its time, to the
      nanosecond; and for a link where it points. */
  predicate NothingDiffers(a: IndexEntry, b: EntryValue) {
    a.unixMode == b.unixMode && a.owner.user == b.owner.user && a.owner.group == b.owner.group &&
    match b.kindMeta
    case FileMeta(size) =>
      a.kind == File && TotalLen(a.addrs) == size && a.mtime * 1_000_000_000 + a.mtimeNanos == b.mtime
    case DirMeta => a.kind == Dir
    case SymlinkMeta(target) => a.kind == Symlink && a.target == Some(target)
    case UnknownMeta => a.kind == Unknown
  }

  lemma SignificantMeans(a: IndexEntry, b: EntryValue)
    ensures SameSignificant(a, b) <==> NothingDiffers(a, b)
  {
  }

  lemma {:induction false} ReportMore(ms: seq<Matched>, m: Matched, includeUnchanged: bool)
    ensures Report(ms + [m], includeUnchanged) ==
      Report(ms, includeUnchanged) + if includeUnchanged || !ToChange(m).Unchanged? then [ToChange(m)] else []
  {
    hide ToChange;
    var all := ms + [m];
    if ms == [] {
      assert all[1..] == [];
    } else {
      assert all[0] == ms[0] && all[1..] == ms[1..] + [m];
      ReportMore(ms[1..], m, includeUnchanged);
      var first := if includeUnchanged || !ToChange(ms[0]).Unchanged? then [ToChange(ms[0])] else [];
      var last := if includeUnchanged || !ToChange(m).Unchanged? then [ToChange(m)] else [];
      assert first + (Report(ms[1..], includeUnchanged) + last) == first + Report(ms[1..], includeUnchanged) + last;
    }
  }

  lemma DiffIsReport(stored: seq<IndexEntry>, live: seq<EntryValue>, includeUnchanged: bool)
    ensures Diff(stored, live, includeUnchanged) == Report(Merge(stored, Known(live)), includeUnchanged)
    ensures Report([], includeUnchanged) == []
  {
  }

  /** Compare two trees side by side: leave out what is of unknown kind in the source, merge, and report. */
  method DiffTrees(stored: seq<IndexEntry>, live: seq<EntryValue>, includeUnchanged: bool)
    returns (changes: seq<Change>)
    ensures changes == Diff(stored, live, includeUnchanged)
  {
    hide *;
    DiffIsReport(stored, live, includeUnchanged);
    var trees := new MergeTrees(stored, Known(live));
    ghost var all := Merge(stored, Known(live));
    ghost var seen: seq<Matched> := [];
    changes := [];
    while true
      invariant fresh(trees) && seen + trees.Rest() == all && changes == Report(seen, includeUnchanged)
      decreases |all| - |seen|
    {
      var next := trees.Next();
      if next.None? { break; }
      var change := ToChange(next.value);
      ReportMore(seen, next.value, includeUnchanged);
      if includeUnchanged || !change.Unchanged? {
        changes := changes + [change];
      }
      seen := seen + [next.value];
    }
    assert seen + [] == seen;
  }

  /** Which change there is to report. */
  ghost predicate IsChange(c: Change, stored: seq<IndexEntry>, live: seq<EntryValue>) {
    match c
    case Added(b) => b in live && !b.kindMeta.UnknownMeta? && forall a :: a in stored ==> a.apath != b.apath
    case Deleted(a) => a in stored && forall b :: b in live && !b.kindMeta.UnknownMeta? ==> b.apath != a.apath
    case Changed(a, b) =>
      a in stored && b in live && !b.kindMeta.UnknownMeta? && a.apath == b.apath && !NothingDiffers(a, b)
    case Unchanged(a) =>
      a in stored && exists b :: b in live && !b.kindMeta.UnknownMeta? && a.apath == b.apath && NothingDiffers(a, b)
  }

  lemma {:induction false} InReport(ms: seq<Matched>, includeUnchanged: bool, c: Change)
    ensures c in Report(ms, includeUnchanged) <==>
      (includeUnchanged || !c.Unchanged?) && exists m :: m in ms && ToChange(m) == c
  {
    if ms != [] {
      InReport(ms[1..], includeUnchanged, c);
      assert forall m :: m in ms <==> m == ms[0] || m in ms[1..];
      assert ms[0] in ms;
    }
  }

  lemma {:induction false} KnownIncreasing(es: seq<EntryValue>)
    requires Increasing(SourceKey, es)
    ensures Increasing(SourceKey, Known(es))
  {
    hide Before;
    if es != [] {
      KnownIncreasing(es[1..]);
      var rest := Known(es[1..]);
      forall i | 0 <= i < |rest| ensures Before(es[0].apath, rest[i].apath) {
        assert rest[i] in rest;
        var j :| 0 <= j < |es[1..]| && es[1..][j] == rest[i];
        assert es[j + 1] == rest[i];
      }
    }
  }

  lemma ChangeOfMatched(stored: seq<IndexEntry>, live: seq<EntryValue>, c: Change)
    ensures (exists m :: Belongs(m, stored, Known(live)) && ToChange(m) == c) <==> IsChange(c, stored, live)
  {
    hide SameSignificant, NothingDiffers;
    forall a, b ensures SameSignificant(a, b) <==> NothingDiffers(a, b) {
      SignificantMeans(a, b);
    }
    if IsChange(c, stored, live) {
      var m := match c
        case Added(b) => Right(b)
        case Deleted(a) => Left(a)
        case Changed(a, b) => Both(a, b)
        case Unchanged(a) =>
          var b :| b in live && KnownKind(b) && a.apath == b.apath && NothingDiffers(a, b);
          Both(a, b);
      assert Belongs(m, stored, Known(live)) && ToChange(m) == c;
    }
  }

  /** A difference is reported exactly when it is there. */
  lemma DiffMeaning(stored: seq<IndexEntry>, live: seq<EntryValue>, includeUnchanged: bool, c: Change)
    requires Increasing(EntryKey, stored) && Increasing(SourceKey, live)
    ensures c in Diff(stored, live, includeUnchanged) <==>
      (includeUnchanged || !c.Unchanged?) && IsChange(c, stored, live)
  {
    KnownIncreasing(live);
    MergeMeaning(stored, Known(live));
    InReport(Merge(stored, Known(live)), includeUnchanged, c);
    ChangeOfMatched(stored, live, c);
  }

  function ChangePath(c: Change): Apath {
    match c
    case Unchanged(a) => a.apath
    case Added(b) => b.apath
    case Deleted(a) => a.apath
    case Changed(a, _) => a.apath
  }

  lemma {:induction false} ReportInOrder(ms: seq<Matched>, includeUnchanged: bool)
    requires Increasing(MatchedPath, ms)
    ensures Increasing(ChangePath, Report(ms, includeUnchanged))
    ensures forall c :: c in Report(ms, includeUnchanged) ==> exists m :: m in ms && MatchedPath(m) == ChangePath(c)
    decreases ms
  {
    hide Before, SameSignificant;
    if ms != [] {
      ReportInOrder(ms[1..], includeUnchanged);
      var rest := Report(ms[1..], includeUnchanged);
      assert MatchedPath(ms[0]) == ChangePath(ToChange(ms[0])) && ms[0] in ms;
      assert forall m :: m in ms[1..] ==> m in ms;
      forall i | 0 <= i < |rest| ensures Before(MatchedPath(ms[0]), ChangePath(rest[i])) {
        assert rest[i] in rest;
        var m :| m in ms[1..] && MatchedPath(m) == ChangePath(rest[i]);
        var k :| 0 <= k < |ms[1..]| && ms[1..][k] == m;
        assert ms[k + 1] == m;
      }
    }
  }

  /** Changes are reported in path order, at most one for a path. */
  lemma DiffInOrder(stored: seq<IndexEntry>, live: seq<EntryValue>, includeUnchanged: bool)
    requires Increasing(EntryKey, stored) && Increasing(SourceKey, live)
    ensures Increasing(ChangePath, Diff(stored, live, includeUnchanged))
  {
    hide Increasing, Merge, Report;
    KnownIncreasing(live);
    MergeMeaning(stored, Known(live));
    ReportInOrder(Merge(stored, Known(live)), includeUnchanged);
  }

  /** The trees have the same paths, and nothing differs at any of them. */
  ghost predicate Agree(stored: seq<IndexEntry>, live: seq<EntryValue>) {
    (forall a :: a in stored ==> exists b :: b in live && !b.kindMeta.UnknownMeta? && a.apath == b.apath) &&
    (forall b :: b in live && !b.kindMeta.UnknownMeta? ==> exists a :: a in stored && a.apath == b.apath) &&
    (forall a, b :: a in stored && b in live && !b.kindMeta.UnknownMeta? && a.apath == b.apath ==> NothingDiffers(a, b))
  }

  /** Nothing to report exactly when the trees agree. */
  lemma DiffEmptyIffAgree(stored: seq<IndexEntry>, live: seq<EntryValue>)
    requires Increasing(EntryKey, stored) && Increasing(SourceKey, live)
    ensures Diff(stored, live, false) == [] <==> Agree(stored, live)
  {
    hide Increasing, Diff, NothingDiffers;
    var changes := Diff(stored, live, false);
    forall c ensures c in changes <==> !c.Unchanged? && IsChange(c, stored, live) {
      DiffMeaning(stored, live, false, c);
    }
    if changes != [] {
      assert changes[0] in changes;
      assert IsChange(changes[0], stored, live) && !changes[0].Unchanged?;
    } else {
      NoChangesAgree(stored, live);
    }
  }

  lemma NoChangesAgree(stored: seq<IndexEntry>, live: seq<EntryValue>)
    requires forall c :: IsChange(c, stored, live) ==> c.Unchanged?
    ensures Agree(stored, live)
  {
    hide NothingDiffers;
    forall a | a in stored ensures exists b :: b in live && KnownKind(b) && a.apath == b.apath {
      assert !IsChange(Deleted(a), stored, live);
    }
    forall b | b in live && KnownKind(b) ensures exists a :: a in stored && a.apath == b.apath {
      assert !IsChange(Added(b), stored, live);
    }
    forall a, b | a in stored && b in live && KnownKind(b) && a.apath == b.apath ensures NothingDiffers(a, b) {
      assert !IsChange(Changed(a, b), stored, live);
    }
  }

  // ----- right after a backup

  function LiveEntries(es: seq<Source>): seq<EntryValue> {
    seq(|es|, i requires 0 <= i < |es| => es[i].entry)
  }

  /** The backup keeps what a comparison looks at: the owner, and a file's size. */
  predicate Faithful(s: Source, opts: Options) {
    KnownKind(s.entry) ==>
      Prepared(s, opts).entry.owner == s.entry.owner &&
      (s.entry.kindMeta.FileMeta? ==> |ContentOf(Prepared(s, opts), opts)| == s.entry.kindMeta.size)
  }

  lemma RepresentedIsSame(blocks: Blocks, e: IndexEntry, s: Source, opts: Options)
    requires KnownKind(s.entry)
    requires Represents(blocks, e, Pushed(Prepared(s, opts).entry, ContentOf(Prepared(s, opts), opts)))
    ensures e.apath == s.entry.apath && (SameSignificant(e, s.entry) <==> Faithful(s, opts))
  {
  }

  lemma {:induction false} DiffPairwise(blocks: Blocks, stored: seq<IndexEntry>, es: seq<Source>, opts: Options)
    requires AllRepresent(blocks, stored, TreeOf(es, opts))
    ensures Diff(stored, LiveEntries(es), false) == [] <==> forall s :: s in es ==> Faithful(s, opts)
    decreases es
  {
    if es != [] {
      var s, rest := es[0], es[1..];
      assert LiveEntries(es)[1..] == LiveEntries(rest);
      assert forall t :: t in es <==> t == s || t in rest;
      if KnownKind(s.entry) {
        var tree := TreeOf(es, opts);
        assert tree[1..] == TreeOf(rest, opts);
        assert Represents(blocks, stored[0], tree[0]);
        RepresentedIsSame(blocks, stored[0], s, opts);
        assert AllRepresent(blocks, stored[1..], tree[1..]);
        DiffPairwise(blocks, stored[1..], rest, opts);
        PairFirst(stored, Known(LiveEntries(es)));
        assert Known(LiveEntries(es))[1..] == Known(LiveEntries(rest));
      } else {
        assert TreeOf(es, opts) == TreeOf(rest, opts);
        DiffPairwise(blocks, stored, rest, opts);
        assert Known(LiveEntries(es)) == Known(LiveEntries(rest));
      }
    }
  }

  lemma {:induction false} PairFirst(xs: seq<IndexEntry>, ys: seq<EntryValue>)
    requires xs != [] && ys != [] && xs[0].apath == ys[0].apath
    ensures Merge(xs, ys) == [Both(xs[0], ys[0])] + Merge(xs[1..], ys[1..])
    ensures Report(Merge(xs, ys), false) == [] <==>
      SameSignificant(xs[0], ys[0]) && Report(Merge(xs[1..], ys[1..]), false) == []
  {
    Total(xs[0].apath, ys[0].apath);
    assert Merge(xs, ys)[1..] == Merge(xs[1..], ys[1..]);
  }

  /** Comparing any tree with its own backup finds nothing exactly when the backup kept owners and read as
      many bytes from each file as its size said. */
  lemma BackupDiffersFromSource(jobs: seq<Job>, k: nat)
    requires PlainJobs(jobs) && k < |jobs|
    ensures
      var tree := Stitched(RunJobs(jobs).bands, k, None);
      var sources := FlattenSources(jobs[k].groups);
      Diff(tree, LiveEntries(sources), false) == [] <==> forall s :: s in sources ==> Faithful(s, jobs[k].opts)
  {
    hide Diff, LiveEntries, RunJobs, PlainJobs, Faithful, TreeOf, AllRepresent;
    EveryTreeReadsBack(jobs);
    var st := RunJobs(jobs);
    assert HoldsTree(st, k, JobTree(jobs[k]));
    DiffPairwise(st.blocks, Stitched(st.bands, k, None), FlattenSources(jobs[k].groups), jobs[k].opts);
  }
}
