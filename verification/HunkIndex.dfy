/** Finding the hunks that hold a path or a directory's contents (src/hunk_index.rs). */
module HunkIndex {
  import opened Base
  import opened Apaths
  import opened Entries
  import opened Sorting
  import opened Storage
  import opened Index

  /** A hunk's number and the first and last path in it. */
  datatype HunkMeta = HunkMeta(index: nat, first: Apath, last: Apath)

  function MetaOf(n: nat, es: seq<IndexEntry>): seq<HunkMeta> {
    if es == [] then [] else [HunkMeta(n, es[0].apath, es[|es| - 1].apath)]
  }

  /** One record for each hunk that is readable and not empty, in hunk order. */
  function FromIndex(hunks: seq<Hunk>): seq<HunkMeta> {
    if hunks == [] then []
    else
      var n := |hunks| - 1;
      FromIndex(hunks[..n]) + MetaOf(n, HunkEntries(hunks[n]))
  }

  // ----- the records describe the hunks, in order

  ghost predicate Describes(m: HunkMeta, hunks: seq<Hunk>) {
    m.index < |hunks| &&
    var es := HunkEntries(hunks[m.index]);
    es != [] && m.first == es[0].apath && m.last == es[|es| - 1].apath
  }

  /** There is one record for each hunk with entries, by increasing number. */
  ghost predicate DescribesAll(metas: seq<HunkMeta>, hunks: seq<Hunk>) {
    (forall i :: 0 <= i < |metas| ==> Describes(metas[i], hunks)) &&
    (forall i, j :: 0 <= i < j < |metas| ==> metas[i].index < metas[j].index) &&
    (forall n :: 0 <= n < |hunks| && HunkEntries(hunks[n]) != [] ==>
      exists i :: 0 <= i < |metas| && metas[i].index == n)
  }

  lemma DescribesInMore(m: HunkMeta, hunks: seq<Hunk>, h: Hunk)
    requires Describes(m, hunks)
    ensures Describes(m, hunks + [h]) && m.index < |hunks|
  {
  }

  lemma DescribesOneMore(metas: seq<HunkMeta>, hunks: seq<Hunk>, h: Hunk)
    requires DescribesAll(metas, hunks)
    ensures DescribesAll(metas + MetaOf(|hunks|, HunkEntries(h)), hunks + [h])
  {
    hide HunkEntries;
    var more, all := metas + MetaOf(|hunks|, HunkEntries(h)), hunks + [h];
    forall i | 0 <= i < |more| ensures Describes(more[i], all) && (i < |metas| ==> more[i].index < |hunks|) {
      if i < |metas| {
        DescribesInMore(metas[i], hunks, h);
      }
    }
    forall n | 0 <= n < |all| && HunkEntries(all[n]) != [] ensures exists i :: 0 <= i < |more| && more[i].index == n {
      DescribedInMore(metas, hunks, h, n);
    }
  }

  lemma DescribedInMore(metas: seq<HunkMeta>, hunks: seq<Hunk>, h: Hunk, n: nat)
    requires DescribesAll(metas, hunks) && n <= |hunks| && HunkEntries((hunks + [h])[n]) != []
    ensures
      var more := metas + MetaOf(|hunks|, HunkEntries(h));
      exists i :: 0 <= i < |more| && more[i].index == n
  {
    hide Describes, HunkEntries;
    var more := metas + MetaOf(|hunks|, HunkEntries(h));
    if n < |hunks| {
      assert HunkEntries(hunks[n]) != [];
      var i :| 0 <= i < |metas| && metas[i].index == n;
      assert more[i].index == n;
    } else {
      assert more[|metas|].index == n;
    }
  }

  lemma {:induction false} FromIndexDescribes(hunks: seq<Hunk>)
    ensures DescribesAll(FromIndex(hunks), hunks)
  {
    if hunks != [] {
      var n := |hunks| - 1;
      assert hunks == hunks[..n] + [hunks[n]];
      FromIndexDescribes(hunks[..n]);
      DescribesOneMore(FromIndex(hunks[..n]), hunks[..n], hunks[n]);
    }
  }

  predicate UpTo(a: Apath, b: Apath) {
    a == b || Before(a, b)
  }

  /** The ranges are disjoint and increasing. */
  ghost predicate Ordered(metas: seq<HunkMeta>) {
    (forall i :: 0 <= i < |metas| ==> UpTo(metas[i].first, metas[i].last)) &&
    (forall i, j :: 0 <= i < j < |metas| ==> Before(metas[i].last, metas[j].first))
  }

  lemma {:induction false} InSomeHunk(hunks: seq<Hunk>, n: nat, e: IndexEntry)
    requires n < |hunks| && e in HunkEntries(hunks[n])
    ensures e in BandEntries(hunks)
  {
    if n > 0 {
      InSomeHunk(hunks[1..], n - 1, e);
    }
  }

  lemma HunkInOrder(hunks: seq<Hunk>, n: nat)
    requires InOrder(BandEntries(hunks)) && n < |hunks|
    ensures InOrder(HunkEntries(hunks[n]))
  {
    hide InOrder, Before, HunkEntries;
    var a, b := hunks[..n], hunks[n..];
    assert a + b == hunks;
    BandEntriesAppend(a, b);
    InOrderParts(BandEntries(a), BandEntries(b));
    InOrderParts(HunkEntries(b[0]), BandEntries(b[1..]));
  }

  lemma HunksInOrder(hunks: seq<Hunk>, k: nat, n: nat, e: IndexEntry, f: IndexEntry)
    requires InOrder(BandEntries(hunks)) && k < n < |hunks| && e in HunkEntries(hunks[k]) && f in HunkEntries(hunks[n])
    ensures Before(e.apath, f.apath)
  {
    hide InOrder, Before, HunkEntries, BandEntries;
    var a, b := hunks[..n], hunks[n..];
    assert a + b == hunks;
    BandEntriesAppend(a, b);
    InOrderParts(BandEntries(a), BandEntries(b));
    InSomeHunk(a, k, e);
    InSomeHunk(b, 0, f);
  }

  lemma FromIndexOrdered(hunks: seq<Hunk>)
    requires InOrder(BandEntries(hunks))
    ensures Ordered(FromIndex(hunks))
  {
    hide Before, BandEntries, InOrder, FromIndex, HunkEntries;
    var metas := FromIndex(hunks);
    FromIndexDescribes(hunks);
    forall i | 0 <= i < |metas| ensures UpTo(metas[i].first, metas[i].last) {
      var n := metas[i].index;
      assert Describes(metas[i], hunks);
      HunkInOrder(hunks, n);
      LastIsGreatest(HunkEntries(hunks[n]));
    }
    forall i, j | 0 <= i < j < |metas| ensures Before(metas[i].last, metas[j].first) {
      assert Describes(metas[i], hunks) && Describes(metas[j], hunks);
      var es, fs := HunkEntries(hunks[metas[i].index]), HunkEntries(hunks[metas[j].index]);
      assert es[|es| - 1] in es && fs[0] in fs;
      HunksInOrder(hunks, metas[i].index, metas[j].index, es[|es| - 1], fs[0]);
    }
  }

  // ----- finding the hunk whose range holds a path

  predicate Covers(m: HunkMeta, p: Apath) {
    UpTo(m.first, p) && UpTo(p, m.last)
  }

  function Cover(metas: seq<HunkMeta>, p: Apath): (r: Option<nat>)
    ensures r.Some? ==> r.value < |metas| && Covers(metas[r.value], p)
    ensures r.None? ==> forall i :: 0 <= i < |metas| ==> !Covers(metas[i], p)
  {
    if metas == [] then None
    else if Covers(metas[|metas| - 1], p) then Some(|metas| - 1)
    else Cover(metas[..|metas| - 1], p)
  }

  lemma UpToThenBefore(a: Apath, b: Apath, c: Apath, d: Apath)
    requires UpTo(a, b) && Before(b, c) && UpTo(c, d)
    ensures Before(a, d) && Before(a, c) && Before(b, d) && a != d
  {
    if a != b { Transitive(a, b, c); }
    if c != d { Transitive(b, c, d); Transitive(a, c, d); }
    Total(a, d);
  }

  lemma BeforeNotUpTo(a: Apath, b: Apath)
    requires Before(a, b)
    ensures !UpTo(b, a)
  {
    Total(a, b);
  }

  lemma CoverUnique(metas: seq<HunkMeta>, p: Apath, i: nat)
    requires Ordered(metas) && i < |metas| && Covers(metas[i], p)
    ensures Cover(metas, p) == Some(i)
  {
    var j := Cover(metas, p).value;
    if i < j {
      UpToThenBefore(p, metas[i].last, metas[j].first, p);
    } else if j < i {
      UpToThenBefore(p, metas[j].last, metas[i].first, p);
    }
  }

  /** How a hunk's range lies to a path, as the search compares them. */
  method CompareRange(m: HunkMeta, p: Apath) returns (r: Ordering)
    requires UpTo(m.first, m.last)
    ensures r == Less <==> Before(m.last, p)
    ensures r == Greater <==> Before(p, m.first)
    ensures r == Equal <==> Covers(m, p)
  {
    var a := Cmp(m.first, p);
    var b := Cmp(m.last, p);
    Total(m.first, p);
    Total(m.last, p);
    Total(m.first, m.last);
    if a == Less && b == Less {
      r := Less;
    } else if a == Greater && b == Greater {
      r := Greater;
    } else {
      r := Equal;
    }
    if Before(m.last, p) && m.first != m.last { Transitive(m.first, m.last, p); }
    if Before(p, m.first) && m.first != m.last { Transitive(p, m.first, m.last); }
  }

  lemma AllBefore(metas: seq<HunkMeta>, mid: nat, p: Apath)
    requires Ordered(metas) && mid < |metas|
    ensures Before(metas[mid].last, p) ==> forall i :: 0 <= i <= mid ==> !Covers(metas[i], p)
    ensures Before(p, metas[mid].first) ==> forall i :: mid <= i < |metas| ==> !Covers(metas[i], p)
  {
    hide Before;
    if Before(metas[mid].last, p) {
      forall i | 0 <= i <= mid ensures !Covers(metas[i], p) {
        BeforeNotUpTo(metas[mid].last, p);
        if i < mid && Covers(metas[i], p) {
          UpToThenBefore(p, metas[i].last, metas[mid].first, metas[mid].last);
        }
      }
    }
    if Before(p, metas[mid].first) {
      forall i | mid <= i < |metas| ensures !Covers(metas[i], p) {
        BeforeNotUpTo(p, metas[mid].first);
        if mid < i && Covers(metas[i], p) {
          UpToThenBefore(metas[mid].first, metas[mid].last, metas[i].first, p);
        }
      }
    }
  }

  /** Binary search for the one range that holds a path. */
  method FindHunkIndexForFile(metas: seq<HunkMeta>, p: Apath) returns (r: Option<nat>)
    requires Ordered(metas)
    ensures r == Cover(metas, p)
  {
    hide Covers;
    var lo, hi := 0, |metas|;
    while lo < hi
      invariant 0 <= lo <= hi <= |metas|
      invariant forall i :: 0 <= i < lo || hi <= i < |metas| ==> !Covers(metas[i], p)
    {
      var mid := (lo + hi) / 2;
      var c := CompareRange(metas[mid], p);
      AllBefore(metas, mid, p);
      match c
      case Less => lo := mid + 1;
      case Greater => hi := mid;
      case Equal =>
        CoverUnique(metas, p, mid);
        return Some(mid);
    }
    return None;
  }

  method FindHunkForFile(metas: seq<HunkMeta>, p: Apath) returns (r: Option<nat>)
    requires Ordered(metas)
    ensures r == match Cover(metas, p) case Some(i) => Some(metas[i].index) case None => None
  {
    var i := FindHunkIndexForFile(metas, p);
    return match i case Some(k) => Some(metas[k].index) case None => None;
  }

  lemma BetweenEnds(es: seq<IndexEntry>, e: IndexEntry)
    requires InOrder(es) && e in es
    ensures UpTo(es[0].apath, e.apath) && UpTo(e.apath, es[|es| - 1].apath)
  {
    hide Before;
    LastIsGreatest(es);
    if e != es[0] {
      HeadBeforeRest(es);
      assert es == [es[0]] + es[1..];
    }
  }

  lemma RangeOfEntry(hunks: seq<Hunk>, n: nat, e: IndexEntry) returns (i: nat)
    requires InOrder(BandEntries(hunks)) && n < |hunks| && e in HunkEntries(hunks[n])
    ensures i < |FromIndex(hunks)| && FromIndex(hunks)[i].index == n && Covers(FromIndex(hunks)[i], e.apath)
  {
    hide UpTo, BandEntries, InOrder, FromIndex, HunkEntries;
    var metas := FromIndex(hunks);
    FromIndexDescribes(hunks);
    HunkInOrder(hunks, n);
    BetweenEnds(HunkEntries(hunks[n]), e);
    i :| 0 <= i < |metas| && metas[i].index == n;
    assert Describes(metas[i], hunks);
  }

  /** Every path in the index is looked up in the hunk that holds it. */
  lemma FindsEveryFile(hunks: seq<Hunk>, n: nat, e: IndexEntry)
    requires InOrder(BandEntries(hunks)) && n < |hunks| && e in HunkEntries(hunks[n])
    ensures Cover(FromIndex(hunks), e.apath).Some? &&
      FromIndex(hunks)[Cover(FromIndex(hunks), e.apath).value].index == n
  {
    var i := RangeOfEntry(hunks, n, e);
    FromIndexOrdered(hunks);
    CoverUnique(FromIndex(hunks), e.apath, i);
  }

  // ----- the key that a directory's contents are searched with

  function SearchKey(d: Apath): Apath {
    Append(d, "")
  }

  lemma KeySplit(d: Apath)
    requires IsValid(d)
    ensures Split(SearchKey(d)) == DirParts(d) + [""]
  {
    ValidSplit(d);
    if d != Root {
      assert SearchKey(d) == d + "/" + "";
      SplitAtSlash(d, "");
    }
  }

  /** The key comes right before a directory's contents. */
  lemma KeyBeforeContents(d: Apath, x: Apath)
    requires IsValid(d) && IsValid(x) && StrictlyBelow(d, x)
    ensures Before(SearchKey(d), x)
  {
    var rest := BelowParts(d, x);
    KeySplit(d);
    ComparePartsCancel(DirParts(d), [""], rest);
    assert rest[0] != "" by {
      assert rest[0] == Names(x)[|Names(d)|];
      assert ValidName(rest[0]);
    }
  }

  lemma BetweenKeyAndContents(d: Apath, y: Apath, x: Apath)
    requires IsValid(d) && IsValid(x) && IsValid(y) && StrictlyBelow(d, x)
    requires Before(SearchKey(d), y) && UpTo(y, x)
    ensures StrictlyBelow(d, y)
  {
    if y != x {
      var rest := BelowParts(d, x);
      KeySplit(d);
      BetweenSharesDir(DirParts(d), [""], Split(y), rest);
      NotRootAfterKey(d, y);
      ValidSplit(y);
      assert Names(y) == Split(y)[1..] && Names(d) == DirParts(d)[1..];
    }
  }

  lemma NotRootAfterKey(d: Apath, y: Apath)
    requires IsValid(d) && IsValid(y) && Before(SearchKey(d), y)
    ensures y != Root && y != d
  {
    ValidSplit(Root);
    KeySplit(d);
    if y == Root {
      CompareNamesLaws("", "");
      RootNotAfter(DirParts(d) + [""]);
    } else if y == d {
      KeyNotBeforeDir(d);
    }
  }

  lemma KeyNotBeforeDir(d: Apath)
    requires IsValid(d)
    ensures !Before(SearchKey(d), d)
  {
    ValidSplit(d);
    KeySplit(d);
    if d == Root {
      Total(d, d);
    } else {
      var dir := DirParts(d);
      var up, name := dir[..|dir| - 1], dir[|dir| - 1];
      assert dir == up + [name] && dir + [""] == up + [name, ""];
      ComparePartsCancel(up, [name, ""], [name]);
    }
  }

  lemma RootNotAfter(parts: seq<string>)
    requires |parts| >= 2 && parts[0] == ""
    ensures CompareParts(parts, ["", ""]) != Less
  {
    CompareNamesLaws("", "");
    assert ["", ""][1..] == [""];
    if |parts| == 2 {
      assert parts[1..] == [parts[1]];
    }
  }

  /** Whether the rest of a path below a directory has another slash. */
  lemma DeeperHasSlash(d: Apath, s: Apath)
    requires IsValid(d) && IsValid(s) && StrictlyBelow(d, s)
    ensures |d| + 1 <= |s| && ('/' in s[|d| + 1..] <==> |Names(s)| > |Names(d)| + 1)
  {
    AncestorText(d, s);
    if d == Root {
      RootHasSlash(s);
    } else {
      hide Split;
      var rest := s[|d| + 1..];
      assert s[1..] == d[1..] + "/" + rest;
      SplitAtSlash(d[1..], rest);
      SlashSplits(rest);
    }
  }

  lemma RootHasSlash(s: Apath)
    requires IsValid(s) && s != Root
    ensures |s| >= 2 && ('/' in s[2..] <==> |Names(s)| > 1)
  {
    hide Split;
    assert Names(s) == Split(s[1..]);
    SlashSplits(s[1..]);
    assert ValidName(Split(s[1..])[0]);
    assert s[1..] == [s[1]] + s[2..];
  }

  lemma SlashSplits(t: string)
    ensures '/' in t <==> |Split(t)| > 1
    ensures t != "" && t[0] == '/' ==> Split(t)[0] == ""
  {
    if '/' in t {
      var i :| 0 <= i < |t| && t[i] == '/';
      assert t == t[..i] + "/" + t[i + 1..];
      SplitAtSlash(t[..i], t[i + 1..]);
    } else {
      SplitName(t);
    }
  }

  // ----- finding the hunks of a directory's contents

  /** The text from a byte offset on; there is none inside a character or beyond the end. */
  function FromByte(t: string, n: nat): Option<string> {
    if n == 0 then Some(t)
    else if t == "" || Utf8Width(t[0]) > n then None
    else FromByte(t[1..], n - Utf8Width(t[0]))
  }

  /** What the search does at a hunk that starts with some path: it goes on, stops, or panics at a cut that is not
      between two characters. */
  datatype Verdict = GoesOn | Stops | Panics

  function Judge(d: Apath, start: Apath, recursive: bool): Verdict {
    if !IsPrefixOf(d, start) then Stops
    else if recursive then GoesOn
    else
      match FromByte(start, Utf8Len(d) + 1)
      case None => Panics
      case Some(rest) => if '/' in rest then Stops else GoesOn
  }

  predicate Continues(d: Apath, start: Apath, recursive: bool) {
    Judge(d, start, recursive) == GoesOn
  }

  lemma {:induction false} FromByteAfter(d: string, t: string)
    requires d <= t
    ensures FromByte(t, Utf8Len(d) + 1) ==
      if |t| > |d| && Utf8Width(t[|d|]) == 1 then Some(t[|d| + 1..]) else None
    decreases d
  {
    if d == "" {
      if t != "" && Utf8Width(t[0]) == 1 {
        assert FromByte(t[1..], 0) == Some(t[1..]);
      }
    } else {
      FromByteAfter(d[1..], t[1..]);
    }
  }

  /** A textual prefix, followed by nothing or by a character of several bytes. */
  predicate CutsInside(d: Apath, start: Apath) {
    d <= start && (|start| == |d| || Utf8Width(start[|d|]) > 1)
  }

  lemma JudgeMeans(d: Apath, start: Apath, recursive: bool)
    ensures Judge(d, start, recursive) == Panics <==> !recursive && IsPrefixOf(d, start) && CutsInside(d, start)
    ensures Continues(d, start, recursive) <==>
      IsPrefixOf(d, start) && (recursive || (!CutsInside(d, start) && '/' !in start[|d| + 1..]))
  {
    if IsPrefixOf(d, start) {
      FromByteAfter(d, start);
    }
  }

  function RunEnd(metas: seq<HunkMeta>, from: nat, d: Apath, recursive: bool): (r: nat)
    requires from <= |metas|
    ensures from <= r <= |metas|
    ensures forall i :: from <= i < r ==> Continues(d, metas[i].first, recursive)
    ensures r < |metas| ==> !Continues(d, metas[r].first, recursive)
    decreases |metas| - from
  {
    if from == |metas| || !Continues(d, metas[from].first, recursive) then from
      else RunEnd(metas, from + 1, d, recursive)
  }

  function Indexes(metas: seq<HunkMeta>): seq<nat> {
    seq(|metas|, i requires 0 <= i < |metas| => metas[i].index)
  }

  function SubdirHunks(metas: seq<HunkMeta>, d: Apath, recursive: bool): seq<nat> {
    match Cover(metas, SearchKey(d))
    case None => []
    case Some(i) => Indexes(metas[i..RunEnd(metas, i + 1, d, recursive)])
  }

  /** The record at which the search ends makes it panic. */
  predicate PanicsAfter(metas: seq<HunkMeta>, i: nat, d: Apath, recursive: bool)
    requires i < |metas|
  {
    var end := RunEnd(metas, i + 1, d, recursive);
    end < |metas| && Judge(d, metas[end].first, recursive) == Panics
  }

  /** The whole search; none if it panics. */
  function SubdirSearch(metas: seq<HunkMeta>, d: Apath, recursive: bool): Option<seq<nat>> {
    var start := Cover(metas, SearchKey(d));
    if start.Some? && PanicsAfter(metas, start.value, d, recursive) then None
    else Some(SubdirHunks(metas, d, recursive))
  }

  method FindHunksForSubdir(metas: seq<HunkMeta>, d: Apath, recursive: bool) returns (r: Option<seq<nat>>)
    requires Ordered(metas)
    ensures r == SubdirSearch(metas, d, recursive)
  {
    hide Ordered, Cover, Covers, Judge, SearchKey;
    var start := FindHunkIndexForFile(metas, SearchKey(d));
    if start.None? { return Some([]); }
    var i := start.value;
    var found := [metas[i].index];
    var k := i + 1;
    while k < |metas|
      invariant i < k <= |metas| && found == Indexes(metas[i..k])
      invariant RunEnd(metas, k, d, recursive) == RunEnd(metas, i + 1, d, recursive)
    {
      var verdict := Judge(d, metas[k].first, recursive);
      if verdict == Panics { return None; }
      if verdict == Stops { break; }
      assert metas[i..k + 1] == metas[i..k] + [metas[k]];
      found := found + [metas[k].index];
      k := k + 1;
    }
    r := Some(found);
  }

  /** The search comes to record `j`, having gone on at each record since the first. */
  ghost predicate Examines(metas: seq<HunkMeta>, d: Apath, j: nat) {
    var start := Cover(metas, SearchKey(d));
    start.Some? && start.value < j < |metas| &&
    forall k :: start.value < k < j ==> Continues(d, metas[k].first, false)
  }

  /** The search is not recursive and comes to a hunk whose start passes the prefix test and goes on, after the
      directory's text, with nothing or with a character of several bytes. */
  ghost predicate SearchPanics(metas: seq<HunkMeta>, d: Apath, recursive: bool) {
    !recursive &&
    exists j: nat :: Examines(metas, d, j) && IsPrefixOf(d, metas[j].first) && CutsInside(d, metas[j].first)
  }

  /** The search panics exactly then. */
  lemma SearchPanicsExactly(metas: seq<HunkMeta>, d: Apath, recursive: bool)
    ensures SubdirSearch(metas, d, recursive).None? <==> SearchPanics(metas, d, recursive)
  {
    hide Cover, SearchKey, IsPrefixOf, CutsInside, Judge;
    forall start
      ensures Judge(d, start, recursive) == Panics <==> !recursive && IsPrefixOf(d, start) && CutsInside(d, start)
    {
      JudgeMeans(d, start, recursive);
    }
    var start := Cover(metas, SearchKey(d));
    if start.Some? {
      var end := RunEnd(metas, start.value + 1, d, recursive);
      if PanicsAfter(metas, start.value, d, recursive) {
        assert Examines(metas, d, end);
      }
      if SearchPanics(metas, d, recursive) {
        var j: nat :| Examines(metas, d, j) && IsPrefixOf(d, metas[j].first) && CutsInside(d, metas[j].first);
        assert end == j;
      }
    }
  }

  /** What is looked for: anything below the directory, or only its direct children. */
  predicate IsContent(d: Apath, p: Apath, recursive: bool)
    requires IsValid(d) && IsValid(p)
  {
    StrictlyBelow(d, p) && (recursive || |Names(p)| == |Names(d)| + 1)
  }

  ghost predicate ValidPaths(hunks: seq<Hunk>) {
    forall n, e :: 0 <= n < |hunks| && e in HunkEntries(hunks[n]) ==> IsValid(e.apath)
  }

  ghost predicate HoldsContent(hunks: seq<Hunk>, d: Apath, n: nat, recursive: bool)
    requires IsValid(d) && ValidPaths(hunks)
  {
    n < |hunks| && exists e :: e in HunkEntries(hunks[n]) && IsContent(d, e.apath, recursive)
  }

  /** The prefix test passes every hunk after record `i` that starts with content. */
  ghost predicate Passes(metas: seq<HunkMeta>, i: nat, d: Apath, recursive: bool)
    requires IsValid(d)
  {
    forall j :: i < j < |metas| && IsValid(metas[j].first) && IsContent(d, metas[j].first, recursive) ==>
      IsPrefixOf(d, metas[j].first)
  }

  lemma SingleBytePasses(metas: seq<HunkMeta>, i: nat, d: Apath, recursive: bool)
    requires IsValid(d) && SingleByte(d)
    ensures Passes(metas, i, d, recursive)
  {
    hide IsPrefixOf, IsValid;
    forall j | i < j < |metas| && IsValid(metas[j].first) && IsContent(d, metas[j].first, recursive)
      ensures IsPrefixOf(d, metas[j].first)
    {
      PrefixTestSingleByte(d, metas[j].first);
    }
  }

  /** A hunk that starts between the key and some content starts with content. */
  lemma StartsWithContent(d: Apath, start: Apath, x: Apath, recursive: bool)
    requires IsValid(d) && IsValid(start) && IsValid(x)
    requires Before(SearchKey(d), start) && UpTo(start, x) && IsContent(d, x, recursive)
    ensures IsContent(d, start, recursive)
  {
    hide Before;
    BetweenKeyAndContents(d, start, x);
    if !recursive && |Names(start)| > |Names(d)| + 1 {
      ChildrenFirst(d, x, start);
      BeforeNotUpTo(x, start);
    }
  }

  /** For a hunk that starts below the directory, the search goes on exactly if it starts with content and passes. */
  lemma ContinuesIff(d: Apath, start: Apath, recursive: bool)
    requires IsValid(d) && IsValid(start) && StrictlyBelow(d, start) && Judge(d, start, recursive) != Panics
    ensures Continues(d, start, recursive) <==> IsContent(d, start, recursive) && IsPrefixOf(d, start)
  {
    hide IsPrefixOf, IsValid, Judge;
    JudgeMeans(d, start, recursive);
    DeeperHasSlash(d, start);
  }

  lemma MetaValid(hunks: seq<Hunk>, i: nat)
    requires ValidPaths(hunks) && i < |FromIndex(hunks)|
    ensures IsValid(FromIndex(hunks)[i].first) && IsValid(FromIndex(hunks)[i].last)
  {
    FromIndexDescribes(hunks);
    assert Describes(FromIndex(hunks)[i], hunks);
  }

  /** If the key falls inside a hunk's range, a record from there on that covers content is within the run. */
  lemma WithinRun(hunks: seq<Hunk>, d: Apath, i: nat, j: nat, x: Apath, recursive: bool)
    requires Ordered(FromIndex(hunks)) && ValidPaths(hunks) && IsValid(d) && IsValid(x)
    requires i < |FromIndex(hunks)| && Covers(FromIndex(hunks)[i], SearchKey(d)) &&
      Passes(FromIndex(hunks), i, d, recursive) && !PanicsAfter(FromIndex(hunks), i, d, recursive)
    requires j < |FromIndex(hunks)| && Covers(FromIndex(hunks)[j], x) && IsContent(d, x, recursive)
    ensures i <= j < RunEnd(FromIndex(hunks), i + 1, d, recursive)
  {
    hide Before, IsContent, Judge, FromIndex, IsPrefixOf, StrictlyBelow, IsValid;
    var metas, key := FromIndex(hunks), SearchKey(d);
    var end := RunEnd(metas, i + 1, d, recursive);
    KeyBefore(d, x, recursive);
    if j < i {
      UpToThenBefore(metas[j].last, metas[j].last, metas[i].first, key);
      UpToThenBefore(x, metas[j].last, key, key);
      BeforeNotUpTo(key, x);
    } else if i < end <= j {
      UpToThenBefore(key, metas[i].last, metas[end].first, metas[end].first);
      FirstUpTo(metas, end, j, x);
      MetaValid(hunks, end);
      StartsWithContent(d, metas[end].first, x, recursive);
      ContentIsBelow(d, metas[end].first, recursive);
      ContinuesIff(d, metas[end].first, recursive);
    }
  }

  lemma ContentIsBelow(d: Apath, p: Apath, recursive: bool)
    requires IsValid(d) && IsValid(p) && IsContent(d, p, recursive)
    ensures StrictlyBelow(d, p)
  {
  }

  lemma KeyBefore(d: Apath, x: Apath, recursive: bool)
    requires IsValid(d) && IsValid(x) && IsContent(d, x, recursive)
    ensures Before(SearchKey(d), x)
  {
    KeyBeforeContents(d, x);
  }

  lemma FirstUpTo(metas: seq<HunkMeta>, k: nat, j: nat, x: Apath)
    requires Ordered(metas) && k <= j < |metas| && Covers(metas[j], x)
    ensures UpTo(metas[k].first, x)
  {
    if k < j {
      UpToThenBefore(metas[k].first, metas[k].last, metas[j].first, x);
    }
  }

  lemma InRun(metas: seq<HunkMeta>, d: Apath, i: nat, j: nat, recursive: bool)
    requires Cover(metas, SearchKey(d)) == Some(i) && i <= j < RunEnd(metas, i + 1, d, recursive)
    ensures metas[j].index in SubdirHunks(metas, d, recursive)
  {
    hide SearchKey, Continues, Covers;
    assert Indexes(metas[i..RunEnd(metas, i + 1, d, recursive)])[j - i] == metas[j].index;
  }

  lemma HunkFound(hunks: seq<Hunk>, d: Apath, i: nat, n: nat, e: IndexEntry, recursive: bool)
    requires InOrder(BandEntries(hunks)) && ValidPaths(hunks) && IsValid(d) && IsValid(e.apath)
    requires n < |hunks| && e in HunkEntries(hunks[n]) && IsContent(d, e.apath, recursive)
    requires Cover(FromIndex(hunks), SearchKey(d)) == Some(i) && Passes(FromIndex(hunks), i, d, recursive)
    requires !PanicsAfter(FromIndex(hunks), i, d, recursive)
    ensures n in SubdirHunks(FromIndex(hunks), d, recursive)
  {
    hide *;
    FromIndexOrdered(hunks);
    var j := RangeOfEntry(hunks, n, e);
    WithinRun(hunks, d, i, j, e.apath, recursive);
    InRun(FromIndex(hunks), d, i, j, recursive);
  }

  lemma EveryHunkFound(hunks: seq<Hunk>, d: Apath, i: nat, n: nat, recursive: bool)
    requires InOrder(BandEntries(hunks)) && ValidPaths(hunks) && IsValid(d) && HoldsContent(hunks, d, n, recursive)
    requires Cover(FromIndex(hunks), SearchKey(d)) == Some(i) && Passes(FromIndex(hunks), i, d, recursive)
    requires !PanicsAfter(FromIndex(hunks), i, d, recursive)
    ensures n in SubdirHunks(FromIndex(hunks), d, recursive)
  {
    hide InOrder, BandEntries, FromIndex, Cover, SubdirHunks, IsContent, Passes, PanicsAfter;
    var e :| e in HunkEntries(hunks[n]) && IsContent(d, e.apath, recursive);
    HunkFound(hunks, d, i, n, e, recursive);
  }

  /** A hunk that starts with content and does not pass is not found. */
  lemma NotPassedNotFound(hunks: seq<Hunk>, d: Apath, i: nat, j: nat, recursive: bool)
    requires ValidPaths(hunks) && IsValid(d) && Cover(FromIndex(hunks), SearchKey(d)) == Some(i) &&
      i < j < |FromIndex(hunks)|
    requires IsValid(FromIndex(hunks)[j].first) && IsContent(d, FromIndex(hunks)[j].first, recursive)
    requires !IsPrefixOf(d, FromIndex(hunks)[j].first)
    ensures HoldsContent(hunks, d, FromIndex(hunks)[j].index, recursive)
    ensures FromIndex(hunks)[j].index !in SubdirHunks(FromIndex(hunks), d, recursive)
  {
    hide FromIndex, IsContent, IsValid, Describes, HoldsContent, IsPrefixOf, ValidPaths;
    var metas := FromIndex(hunks);
    StartHolds(hunks, d, j, recursive);
    JudgeMeans(d, metas[j].first, recursive);
    FromIndexDescribes(hunks);
    var end := RunEnd(metas, i + 1, d, recursive);
    assert end <= j;
    var found := SubdirHunks(metas, d, recursive);
    assert forall k :: 0 <= k < |found| ==> found[k] == metas[i + k].index;
  }

  /** The search for a directory's contents finds every hunk that holds some if and only if it does not panic, and its
      key falls inside the range of some hunk, after which every hunk that starts with contents passes the prefix test;
      or there is nothing to find. */
  lemma SubdirSearchExact(hunks: seq<Hunk>, d: Apath, recursive: bool)
    requires InOrder(BandEntries(hunks)) && ValidPaths(hunks) && IsValid(d)
    ensures
      var metas := FromIndex(hunks);
      var start, found := Cover(metas, SearchKey(d)), SubdirSearch(metas, d, recursive);
      (found.Some? && forall n :: HoldsContent(hunks, d, n, recursive) ==> n in found.value) <==>
        !SearchPanics(metas, d, recursive) &&
        ((start.Some? && Passes(metas, start.value, d, recursive)) ||
         forall n :: !HoldsContent(hunks, d, n, recursive))
  {
    hide HoldsContent, InOrder, ValidPaths, FromIndex, IsPrefixOf, IsContent, IsValid, SearchPanics, PanicsAfter;
    var metas := FromIndex(hunks);
    SearchPanicsExactly(metas, d, recursive);
    var start := Cover(metas, SearchKey(d));
    if start.Some? && !PanicsAfter(metas, start.value, d, recursive) {
      if Passes(metas, start.value, d, recursive) {
        forall n | HoldsContent(hunks, d, n, recursive) ensures n in SubdirHunks(metas, d, recursive) {
          EveryHunkFound(hunks, d, start.value, n, recursive);
        }
      } else {
        var j :| start.value < j < |metas| && IsValid(metas[j].first) && IsContent(d, metas[j].first, recursive) &&
          !IsPrefixOf(d, metas[j].first);
        NotPassedNotFound(hunks, d, start.value, j, recursive);
      }
    }
  }

  /** Beyond the first, a hunk found holds contents of the directory if and only if it starts below it, as it always
      does for a single-byte directory path. */
  lemma LaterHunksHoldContents(hunks: seq<Hunk>, d: Apath, k: nat, recursive: bool)
    requires InOrder(BandEntries(hunks)) && ValidPaths(hunks) && IsValid(d)
    requires SubdirSearch(FromIndex(hunks), d, recursive).Some?
    requires 0 < k < |SubdirSearch(FromIndex(hunks), d, recursive).value|
    ensures
      var n := SubdirSearch(FromIndex(hunks), d, recursive).value[k];
      n < |hunks| && HunkEntries(hunks[n]) != [] && IsValid(HunkEntries(hunks[n])[0].apath) &&
      (HoldsContent(hunks, d, n, recursive) <==> StrictlyBelow(d, HunkEntries(hunks[n])[0].apath)) &&
      (SingleByte(d) ==> HoldsContent(hunks, d, n, recursive))
  {
    hide InOrder, BandEntries, FromIndex, Before, ValidPaths, IsValid, Judge, HoldsContent, StrictlyBelow,
         SingleByte, SubdirHunks, PanicsAfter;
    var m := LaterHunk(hunks, d, k, recursive);
    if StrictlyBelow(d, m.first) {
      ContinuesIff(d, m.first, recursive);
      DescribedHolds(hunks, d, m, recursive);
    }
    if HoldsContent(hunks, d, m.index, recursive) {
      HolderStartsBelow(hunks, d, m, recursive);
    }
    if SingleByte(d) {
      StartIsBelow(d, m.first) by { JudgeMeans(d, m.first, recursive); }
      ContinuesIff(d, m.first, recursive);
      DescribedHolds(hunks, d, m, recursive);
    }
  }

  lemma LaterHunk(hunks: seq<Hunk>, d: Apath, k: nat, recursive: bool) returns (m: HunkMeta)
    requires InOrder(BandEntries(hunks)) && ValidPaths(hunks)
    requires 0 < k < |SubdirHunks(FromIndex(hunks), d, recursive)|
    ensures Describes(m, hunks) && m.index == SubdirHunks(FromIndex(hunks), d, recursive)[k]
    ensures IsValid(m.first) && Before(SearchKey(d), m.first) && Continues(d, m.first, recursive)
  {
    hide InOrder, BandEntries, FromIndex, UpTo, Before, ValidPaths, IsValid, Continues, Describes;
    var metas := FromIndex(hunks);
    var i := Cover(metas, SearchKey(d)).value;
    m := metas[i + k];
    FromIndexOrdered(hunks);
    FromIndexDescribes(hunks);
    UpToThenBefore(SearchKey(d), metas[i].last, m.first, m.first) by { AtMostItself(m.first); }
    MetaValid(hunks, i + k);
  }

  lemma DescribedHolds(hunks: seq<Hunk>, d: Apath, m: HunkMeta, recursive: bool)
    requires ValidPaths(hunks) && IsValid(d) && Describes(m, hunks) && IsValid(m.first) &&
      IsContent(d, m.first, recursive)
    ensures HoldsContent(hunks, d, m.index, recursive)
  {
    hide IsContent, IsValid;
    assert HunkEntries(hunks[m.index])[0] in HunkEntries(hunks[m.index]);
  }

  lemma HolderStartsBelow(hunks: seq<Hunk>, d: Apath, m: HunkMeta, recursive: bool)
    requires InOrder(BandEntries(hunks)) && ValidPaths(hunks) && IsValid(d) && Describes(m, hunks) && IsValid(m.first)
    requires Before(SearchKey(d), m.first) && HoldsContent(hunks, d, m.index, recursive)
    ensures StrictlyBelow(d, m.first)
  {
    hide Before, InOrder, BandEntries;
    var e :| e in HunkEntries(hunks[m.index]) && IsContent(d, e.apath, recursive);
    HunkInOrder(hunks, m.index);
    BetweenEnds(HunkEntries(hunks[m.index]), e);
    StartsWithContent(d, m.first, e.apath, recursive);
  }

  lemma AtMostItself(p: Apath)
    ensures UpTo(p, p)
  {
  }

  lemma StartIsBelow(d: Apath, start: Apath)
    requires IsValid(d) && SingleByte(d) && IsValid(start) && Before(SearchKey(d), start) && IsPrefixOf(d, start)
    ensures StrictlyBelow(d, start)
  {
    hide Before, IsPrefixOf, IsValid;
    PrefixTestSingleByte(d, start);
    NotRootAfterKey(d, start);
    BelowUnlessSame(d, start);
  }

  lemma StartHolds(hunks: seq<Hunk>, d: Apath, j: nat, recursive: bool)
    requires ValidPaths(hunks) && IsValid(d) && j < |FromIndex(hunks)| && IsValid(FromIndex(hunks)[j].first)
    requires IsContent(d, FromIndex(hunks)[j].first, recursive)
    ensures HoldsContent(hunks, d, FromIndex(hunks)[j].index, recursive)
  {
    hide FromIndex, IsContent, IsValid, HoldsContent, ValidPaths;
    FromIndexDescribes(hunks);
    DescribedHolds(hunks, d, FromIndex(hunks)[j], recursive);
  }

  lemma BelowUnlessSame(d: Apath, p: Apath)
    requires IsValid(d) && IsValid(p) && IsAncestorOrSelf(d, p) && p != d
    ensures StrictlyBelow(d, p)
  {
    if |Names(d)| == |Names(p)| {
      NamesInjective(d, p);
    }
  }

  /** A directory whose contents begin a hunk is not found at all, although that hunk holds them. */
  lemma GapHidesContents(first: IndexEntry, dir: IndexEntry, content: IndexEntry)
    requires IsValid(first.apath) && IsValid(dir.apath) && IsValid(content.apath)
    requires Before(first.apath, dir.apath) && StrictlyBelow(dir.apath, content.apath)
    ensures var hunks := [Hunk.Entries([first, dir]), Hunk.Entries([content])];
            ValidPaths(hunks) && InOrder(BandEntries(hunks)) && HoldsContent(hunks, dir.apath, 1, true) &&
            SubdirSearch(FromIndex(hunks), dir.apath, true) == Some([])
  {
    hide Before, IsValid;
    var d, key := dir.apath, SearchKey(dir.apath);
    var hunks := TwoHunks(first, dir, content);
    KeyBeforeContents(d, content.apath);
    BeforeNotUpTo(key, content.apath);
    NotFirst(first.apath, d);
    KeyAfterDir(d);
    BeforeNotUpTo(d, key);
    Transitive(d, key, content.apath);
    Transitive(first.apath, d, content.apath);
    assert content in HunkEntries(hunks[1]);
  }

  lemma TwoHunks(first: IndexEntry, dir: IndexEntry, content: IndexEntry) returns (hunks: seq<Hunk>)
    ensures hunks == [Hunk.Entries([first, dir]), Hunk.Entries([content])]
    ensures FromIndex(hunks) == [HunkMeta(0, first.apath, dir.apath), HunkMeta(1, content.apath, content.apath)]
    ensures BandEntries(hunks) == [first, dir, content]
  {
    var head, tail := Hunk.Entries([first, dir]), Hunk.Entries([content]);
    hunks := [head, tail];
    assert hunks[..1] == [head] && [head][..0] == [] && hunks[1..] == [tail] && [tail][1..] == [];
    assert FromIndex([head]) == [HunkMeta(0, first.apath, dir.apath)];
    assert BandEntries([tail]) == [content];
  }

  lemma NotFirst(first: Apath, d: Apath)
    requires IsValid(first) && Before(first, d)
    ensures d != Root
  {
    if d == Root && first != Root {
      RootFirst(first);
    }
    Total(first, d);
  }

  lemma KeyAfterDir(d: Apath)
    requires IsValid(d) && d != Root
    ensures Before(d, SearchKey(d))
  {
    KeyNotBeforeDir(d);
    Total(d, SearchKey(d));
    assert |SearchKey(d)| == |d| + 1;
  }

  // ----- where the search panics

  /** For anything but the root the cut is between characters wherever a hunk does start below the directory. */
  lemma BelowIsCut(d: Apath, start: Apath)
    requires IsValid(d) && d != Root && IsValid(start) && StrictlyBelow(d, start)
    ensures !CutsInside(d, start)
  {
    hide IsValid;
    AncestorText(d, start);
  }

  /** A recursive search never panics, nor does one for a directory other than the root whose path is single-byte. */
  lemma SearchNeverPanics(hunks: seq<Hunk>, d: Apath, recursive: bool)
    requires InOrder(BandEntries(hunks)) && ValidPaths(hunks) && IsValid(d)
    requires recursive || (d != Root && SingleByte(d))
    ensures SubdirSearch(FromIndex(hunks), d, recursive).Some?
  {
    hide InOrder, BandEntries, FromIndex, ValidPaths, IsValid, Judge, StrictlyBelow, SingleByte, IsPrefixOf, CutsInside;
    hide SubdirSearch, Continues, Cover;
    var metas := FromIndex(hunks);
    SearchPanicsExactly(metas, d, recursive);
    if SearchPanics(metas, d, recursive) {
      var j: nat :| Examines(metas, d, j) && IsPrefixOf(d, metas[j].first) && CutsInside(d, metas[j].first);
      MetaValid(hunks, j);
      ExaminedAfterKey(hunks, d, j);
      StartIsBelow(d, metas[j].first);
      BelowIsCut(d, metas[j].first);
    }
  }

  lemma ExaminedAfterKey(hunks: seq<Hunk>, d: Apath, j: nat)
    requires InOrder(BandEntries(hunks)) && Examines(FromIndex(hunks), d, j)
    ensures Before(SearchKey(d), FromIndex(hunks)[j].first)
  {
    hide InOrder, BandEntries, FromIndex, Before, UpTo, Continues, SearchKey;
    var metas, key := FromIndex(hunks), SearchKey(d);
    var i := Cover(metas, key).value;
    FromIndexOrdered(hunks);
    UpToThenBefore(key, metas[i].last, metas[j].first, metas[j].first) by { AtMostItself(metas[j].first); }
  }

  lemma OneAfterAnother(a: IndexEntry, b: IndexEntry)
    requires Before(a.apath, b.apath)
    ensures InOrder([a, b])
  {
  }

  lemma RootCovers(metas: seq<HunkMeta>, p: Apath)
    requires metas == [HunkMeta(0, Root, Root), HunkMeta(1, p, p)] && Before(Root, p)
    ensures Cover(metas, SearchKey(Root)) == Some(0)
  {
    hide Before;
    assert SearchKey(Root) == Root;
    BeforeNotUpTo(Root, p);
    assert metas[..1] == [metas[0]];
    assert Covers(metas[0], Root) && !Covers(metas[1], Root);
  }

  lemma RootPrefix(p: Apath)
    requires IsValid(p) && p != Root
    ensures IsPrefixOf(Root, p) && Root <= p && |p| > 1
  {
    ValidSplit(p);
    assert Utf8Len(Root[1..]) == 0;
    Utf8LenSplit(Root, p[1..]);
    assert Root + p[1..] == p;
  }

  /** Listing the root panics whenever the root is alone in a hunk and the next one starts with a name whose first
      character takes several bytes. */
  lemma RootSearchPanics(root: IndexEntry, next: IndexEntry)
    requires root.apath == Root && IsValid(next.apath) && next.apath != Root && Utf8Width(next.apath[1]) > 1
    ensures
      var hunks := [Hunk.Entries([root]), Hunk.Entries([next])];
      InOrder(BandEntries(hunks)) && ValidPaths(hunks) && SubdirSearch(FromIndex(hunks), Root, false).None?
  {
    hide Before, InOrder, IsValid;
    var hunks := TwoSingles(root, next);
    var metas := FromIndex(hunks);
    RootFirst(next.apath);
    assert IsValid(Root) by { RootIsValid(); }
    assert InOrder(BandEntries(hunks)) by { OneAfterAnother(root, next); }
    RootCovers(metas, next.apath);
    RootPrefix(next.apath);
    SearchPanicsExactly(metas, Root, false);
    assert Examines(metas, Root, 1);
  }

  lemma RootIsValid()
    ensures IsValid(Root)
  {
  }

  lemma TwoSingles(a: IndexEntry, b: IndexEntry) returns (hunks: seq<Hunk>)
    ensures hunks == [Hunk.Entries([a]), Hunk.Entries([b])] && BandEntries(hunks) == [a, b]
    ensures FromIndex(hunks) == [HunkMeta(0, a.apath, a.apath), HunkMeta(1, b.apath, b.apath)]
  {
    var head, tail := Hunk.Entries([a]), Hunk.Entries([b]);
    hunks := [head, tail];
    assert hunks[..1] == [head] && [head][..0] == [] && hunks[1..] == [tail] && [tail][1..] == [];
    assert FromIndex([head]) == [HunkMeta(0, a.apath, a.apath)];
    assert BandEntries([tail]) == [b];
    assert BandEntries(hunks) == [a] + BandEntries([tail]);
  }
}
