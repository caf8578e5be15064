/** Archive paths: their text form, their order, and the ancestor test (src/apath.rs).

    An apath is a string of Unicode scalar values.  UTF-8 keeps the order of scalar values, so
    comparing names character by character is the byte-wise comparison that the program makes. */
module Apaths {
  import opened Base

  type Apath = string

  const Root: Apath := "/"

  /** The parts between slashes, as a string's `split('/')` yields them. */
  function Split(s: string): (parts: seq<string>)
    ensures |parts| >= 1
  {
    if s == "" then [""]
    else
      var rest := Split(s[1..]);
      if s[0] == '/' then [""] + rest else [[s[0]] + rest[0]] + rest[1..]
  }

  function Join(parts: seq<string>): string
    requires |parts| >= 1
  {
    if |parts| == 1 then parts[0] else parts[0] + "/" + Join(parts[1..])
  }

  lemma {:induction false} JoinSplit(s: string)
    ensures Join(Split(s)) == s
  {
    if s != "" {
      JoinSplit(s[1..]);
      var rest := Split(s[1..]);
      if s[0] == '/' {
        assert ([""] + rest)[1..] == rest;
      } else {
        var parts := [[s[0]] + rest[0]] + rest[1..];
        if |rest| > 1 {
          assert parts[1..] == rest[1..];
        }
      }
      assert s == [s[0]] + s[1..];
    }
  }

  lemma {:induction false} SplitAtSlash(s: string, t: string)
    ensures Split(s + "/" + t) == Split(s) + Split(t)
  {
    var whole := s + "/" + t;
    if s == "" {
      assert whole[1..] == t;
    } else {
      assert whole[1..] == s[1..] + "/" + t;
      SplitAtSlash(s[1..], t);
    }
  }

  lemma {:induction false} SplitName(n: string)
    requires '/' !in n
    ensures Split(n) == [n]
  {
    if n != "" {
      SplitName(n[1..]);
      assert [n[0]] + n[1..] == n;
    }
  }

  // ----- well-formed apaths

  predicate ValidName(n: string) {
    n != "" && n != "." && n != ".." && '\0' !in n
  }

  predicate IsValid(a: string) {
    |a| > 0 && a[0] == '/' && (|a| == 1 || forall part :: part in Split(a[1..]) ==> ValidName(part))
  }

  function Append(p: Apath, child: string): Apath {
    (if p != Root then p + "/" else p) + child
  }

  /** The path components below the tree root; the root itself has none. */
  function Names(p: Apath): seq<string>
    requires IsValid(p)
  {
    if p == Root then [] else Split(p[1..])
  }

  lemma ValidSplit(p: Apath)
    requires IsValid(p)
    ensures p != Root ==> Split(p) == [""] + Names(p) && |Names(p)| >= 1
    ensures p == Root ==> Split(p) == ["", ""]
  {
    if p == Root {
      assert p[1..] == "";
    }
  }

  lemma {:induction false} PartsHaveNoSlash(s: string)
    ensures forall part :: part in Split(s) ==> '/' !in part
  {
    if s != "" {
      PartsHaveNoSlash(s[1..]);
    }
  }

  /** Appending a name to a well-formed path gives the path with one more component. */
  lemma AppendNames(p: Apath, n: string)
    requires IsValid(p) && ValidName(n) && '/' !in n
    ensures IsValid(Append(p, n)) && Names(Append(p, n)) == Names(p) + [n]
    ensures Append(p, n) != Root
  {
    SplitName(n);
    var c := Append(p, n);
    if p == Root {
      assert c[1..] == n;
    } else {
      assert c[1..] == p[1..] + "/" + n;
      SplitAtSlash(p[1..], n);
    }
  }

  /** A well-formed path is determined by its components. */
  lemma NamesInjective(a: Apath, b: Apath)
    requires IsValid(a) && IsValid(b) && Names(a) == Names(b)
    ensures a == b
  {
    ValidSplit(a);
    ValidSplit(b);
    JoinSplit(a);
    JoinSplit(b);
  }

  // ----- the order

  function CompareNames(a: string, b: string): Ordering {
    if a == [] then (if b == [] then Equal else Less)
    else if b == [] then Greater
    else if a[0] < b[0] then Less
    else if a[0] > b[0] then Greater
    else CompareNames(a[1..], b[1..])
  }

  function CompareParts(a: seq<string>, b: seq<string>): Ordering
    requires |a| >= 1 && |b| >= 1
  {
    if |a| == 1 && |b| == 1 then CompareNames(a[0], b[0])
    else if |a| == 1 then Less
    else if |b| == 1 then Greater
    else
      var first := CompareNames(a[0], b[0]);
      if first == Equal then CompareParts(a[1..], b[1..]) else first
  }

  function Compare(a: Apath, b: Apath): Ordering {
    CompareParts(Split(a), Split(b))
  }

  predicate Before(a: Apath, b: Apath) {
    Compare(a, b) == Less
  }

  /** The comparison loop over two advancing part iterators. */
  method Cmp(a: Apath, b: Apath) returns (r: Ordering)
    ensures r == Compare(a, b)
  {
    var ait, bit := Split(a), Split(b);
    var oa, ob := ait[0], bit[0];
    ait, bit := ait[1..], bit[1..];
    while true
      invariant CompareParts([oa] + ait, [ob] + bit) == Compare(a, b)
      decreases |ait|
    {
      if |ait| == 0 && |bit| == 0 { return CompareNames(oa, ob); }
      if |ait| == 0 { return Less; }
      if |bit| == 0 { return Greater; }
      var first := CompareNames(oa, ob);
      if first != Equal { return first; }
      assert ([oa] + ait)[1..] == [ait[0]] + ait[1..];
      assert ([ob] + bit)[1..] == [bit[0]] + bit[1..];
      oa, ob := ait[0], bit[0];
      ait, bit := ait[1..], bit[1..];
    }
  }

  lemma {:induction false} CompareNamesLaws(a: string, b: string)
    ensures CompareNames(a, b) == Equal <==> a == b
    ensures CompareNames(b, a) == CompareNames(a, b).Flip()
  {
    if a != [] && b != [] {
      CompareNamesLaws(a[1..], b[1..]);
      assert a == [a[0]] + a[1..] && b == [b[0]] + b[1..];
    }
  }

  lemma {:induction false} CompareNamesTransitive(a: string, b: string, c: string)
    requires CompareNames(a, b) == Less && CompareNames(b, c) == Less
    ensures CompareNames(a, c) == Less
  {
    if a != [] && a[0] == b[0] == c[0] {
      CompareNamesTransitive(a[1..], b[1..], c[1..]);
    }
  }

  lemma {:induction false} ComparePartsLaws(a: seq<string>, b: seq<string>)
    requires |a| >= 1 && |b| >= 1
    ensures CompareParts(a, b) == Equal <==> a == b
    ensures CompareParts(b, a) == CompareParts(a, b).Flip()
  {
    CompareNamesLaws(a[0], b[0]);
    if |a| > 1 && |b| > 1 {
      ComparePartsLaws(a[1..], b[1..]);
      assert a == [a[0]] + a[1..] && b == [b[0]] + b[1..];
    } else if |a| == |b| {
      assert a == [a[0]] && b == [b[0]];
    }
  }

  lemma {:induction false} ComparePartsTransitive(a: seq<string>, b: seq<string>, c: seq<string>)
    requires |a| >= 1 && |b| >= 1 && |c| >= 1
    requires CompareParts(a, b) == Less && CompareParts(b, c) == Less
    ensures CompareParts(a, c) == Less
  {
    CompareNamesLaws(a[0], b[0]);
    CompareNamesLaws(b[0], c[0]);
    if CompareNames(a[0], b[0]) == Less && CompareNames(b[0], c[0]) == Less {
      CompareNamesTransitive(a[0], b[0], c[0]);
    }
    if |a| > 1 && a[0] == b[0] == c[0] {
      ComparePartsTransitive(a[1..], b[1..], c[1..]);
    }
  }

  /** The order is total, and only equal strings compare equal. */
  lemma Total(a: Apath, b: Apath)
    ensures Compare(a, b) == Equal <==> a == b
    ensures Compare(b, a) == Compare(a, b).Flip()
    ensures Before(a, b) || a == b || Before(b, a)
    ensures !(Before(a, b) && Before(b, a)) && !Before(a, a)
  {
    ComparePartsLaws(Split(a), Split(b));
    ComparePartsLaws(Split(a), Split(a));
    JoinSplit(a);
    JoinSplit(b);
  }

  lemma Transitive(a: Apath, b: Apath, c: Apath)
    requires Before(a, b) && Before(b, c)
    ensures Before(a, c)
  {
    ComparePartsTransitive(Split(a), Split(b), Split(c));
  }

  // ----- which texts are well-formed paths

  /** From `i` up to `j` the text has a component: what lies between slashes, or between the last one and the end. */
  ghost predicate Component(a: string, i: nat, j: nat) {
    0 < i <= j <= |a| && a[i - 1] == '/' && (j == |a| || a[j] == '/') && '/' !in a[i..j]
  }

  lemma ComponentIsPart(a: string, i: nat, j: nat)
    requires a != "" && a[0] == '/' && Component(a, i, j)
    ensures a[i..j] in Split(a[1..])
  {
    var part := a[i..j];
    SplitName(part);
    var tail := a[i..];
    assert part in Split(tail) by {
      if j == |a| {
        assert tail == part;
      } else {
        assert tail == part + "/" + a[j + 1..];
        SplitAtSlash(part, a[j + 1..]);
      }
    }
    if i > 1 {
      assert a[1..] == a[1..i - 1] + "/" + tail;
      SplitAtSlash(a[1..i - 1], tail);
    }
  }

  lemma {:induction false} JoinFrom(parts: seq<string>, k: nat)
    requires 0 < k < |parts|
    ensures Join(parts) == Join(parts[..k]) + "/" + Join(parts[k..])
    decreases k
  {
    if k == 1 {
      assert parts[..1] == [parts[0]];
    } else {
      JoinFrom(parts[1..], k - 1);
      assert parts[1..][..k - 1] == parts[..k][1..] && parts[1..][k - 1..] == parts[k..];
      assert Join(parts[..k]) == parts[0] + "/" + Join(parts[..k][1..]);
    }
  }

  lemma PartIsComponent(a: string, part: string) returns (i: nat, j: nat)
    requires a != "" && a[0] == '/' && part in Split(a[1..])
    ensures Component(a, i, j) && a[i..j] == part
  {
    hide Split, Component, Join, JoinTail;
    var parts := Split(a[1..]);
    JoinSplit(a[1..]);
    PartsHaveNoSlash(a[1..]);
    var k :| 0 <= k < |parts| && parts[k] == part;
    JoinHead(parts[k..]);
    JoinTailStarts(parts[k..]);
    var after := JoinTail(parts[k..]);
    var before := "";
    if k > 0 {
      JoinFrom(parts, k);
      before := Join(parts[..k]) + "/";
    } else {
      assert parts[0..] == parts;
    }
    assert a[1..] == before + (part + after);
    CarvedOut(a, before, part, after);
    i := 1 + |before|;
    j := i + |part|;
  }

  lemma JoinTailStarts(parts: seq<string>)
    requires |parts| >= 1
    ensures JoinTail(parts) == "" || JoinTail(parts)[0] == '/'
  {
  }

  lemma CarvedOut(a: string, before: string, part: string, after: string)
    requires a != "" && a[0] == '/' && a[1..] == before + (part + after)
    requires (before == "" || before[|before| - 1] == '/') && (after == "" || after[0] == '/') && '/' !in part
    ensures
      var i, j := 1 + |before|, 1 + |before| + |part|;
      Component(a, i, j) && a[i..j] == part
  {
    var i, j := 1 + |before|, 1 + |before| + |part|;
    assert a == ['/'] + a[1..];
    assert a[i..j] == part;
  }

  /** A text is a well-formed path if and only if it is a slash, or starts with one and each component has something in
      it, is neither of the two names for relative directories, and has no null character. */
  lemma ValidMeans(a: string)
    ensures IsValid(a) <==>
      |a| > 0 && a[0] == '/' &&
      (a == "/" || forall i: nat, j: nat :: Component(a, i, j) ==>
        i < j && a[i..j] != "." && a[i..j] != ".." && forall k :: i <= k < j ==> a[k] != '\0')
  {
    if a != "" && a[0] == '/' && a != "/" {
      forall i: nat, j: nat | Component(a, i, j) ensures a[i..j] in Split(a[1..]) {
        ComponentIsPart(a, i, j);
      }
      if !IsValid(a) {
        var part :| part in Split(a[1..]) && !ValidName(part);
        var i, j := PartIsComponent(a, part);
      } else {
        forall i: nat, j: nat | Component(a, i, j) ensures ValidName(a[i..j]) {
          ComponentIsPart(a, i, j);
        }
        forall i: nat, j: nat, k: nat | Component(a, i, j) && i <= k < j ensures a[k] != '\0' {
          assert a[i..j][k - i] == a[k];
        }
      }
    }
  }

  /** The check as the program does it, one part after another. */
  method CheckPath(a: string) returns (ok: bool)
    ensures ok == IsValid(a)
  {
    if a == "" || a[0] != '/' { return false; }
    if |a| == 1 { return true; }
    var parts := Split(a[1..]);
    for i := 0 to |parts|
      invariant forall k :: 0 <= k < i ==> ValidName(parts[k])
    {
      if parts[i] == "" || parts[i] == "." || parts[i] == ".." || '\0' in parts[i] {
        assert parts[i] in parts;
        return false;
      }
    }
    return true;
  }

  // ----- the order as a reference definition: lexicographic on (is a directory, name) pairs

  /** One text is a proper front part of the other, or has the smaller character where they first part. */
  ghost predicate TextBefore(s: string, t: string) {
    exists k: nat :: k <= |s| && k <= |t| && s[..k] == t[..k] &&
                     ((k == |s| && k < |t|) || (k < |s| && k < |t| && s[k] < t[k]))
  }

  lemma FirstOf(s: string, t: string, k: nat)
    requires k <= |s| && k <= |t| && s[..k] == t[..k]
    ensures k > 0 ==> s[0] == t[0]
  {
    if k > 0 {
      assert s[..k][0] == t[..k][0];
    }
  }

  lemma {:induction false} TextOrder(s: string, t: string)
    ensures CompareNames(s, t) == Less <==> TextBefore(s, t)
  {
    if s == "" || t == "" {
      assert s[..0] == t[..0];
    } else if s[0] != t[0] {
      if s[0] < t[0] {
        assert s[..0] == t[..0];
      }
      forall k: nat | k <= |s| && k <= |t| && s[..k] == t[..k] ensures k == 0 {
        FirstOf(s, t, k);
      }
    } else {
      TextOrder(s[1..], t[1..]);
      if TextBefore(s[1..], t[1..]) {
        var k: nat :| k <= |s[1..]| && k <= |t[1..]| && s[1..][..k] == t[1..][..k] &&
                      ((k == |s[1..]| && k < |t[1..]|) || (k < |s[1..]| && k < |t[1..]| && s[1..][k] < t[1..][k]));
        assert s[..k + 1] == [s[0]] + s[1..][..k] && t[..k + 1] == [t[0]] + t[1..][..k];
      }
      if TextBefore(s, t) {
        var k: nat :| k <= |s| && k <= |t| && s[..k] == t[..k] &&
                      ((k == |s| && k < |t|) || (k < |s| && k < |t| && s[k] < t[k]));
        assert k > 0 && s[1..][..k - 1] == s[..k][1..] && t[1..][..k - 1] == t[..k][1..];
      }
    }
  }

  /** At position `i` a path either ends, or goes through a directory; ending sorts first. */
  ghost predicate PartBefore(a: seq<string>, b: seq<string>, i: nat)
    requires i < |a| && i < |b|
  {
    if i == |a| - 1 && i < |b| - 1 then true
    else if i < |a| - 1 && i == |b| - 1 then false
    else TextBefore(a[i], b[i])
  }

  /** `b` follows `a` exactly when, at the first position where they part, `a` ends and `b` goes
      on, or both end or both go on and the name in `a` is smaller. */
  ghost predicate FirstDifferenceBefore(a: seq<string>, b: seq<string>) {
    exists i: nat :: i < |a| && i < |b| && a[..i] == b[..i] && PartBefore(a, b, i)
  }

  lemma {:induction false} OrderIsFirstDifference(a: seq<string>, b: seq<string>)
    requires |a| >= 1 && |b| >= 1
    ensures CompareParts(a, b) == Less <==> FirstDifferenceBefore(a, b)
  {
    hide TextBefore;
    CompareNamesLaws(a[0], b[0]);
    TextOrder(a[0], b[0]);
    if PartBefore(a, b, 0) {
      assert a[..0] == b[..0];
    }
    if |a| > 1 && |b| > 1 {
      var ta, tb := a[1..], b[1..];
      OrderIsFirstDifference(ta, tb);
      if a[0] == b[0] && FirstDifferenceBefore(ta, tb) {
        var i: nat :| i < |ta| && i < |tb| && ta[..i] == tb[..i] && PartBefore(ta, tb, i);
        assert a[..i + 1] == [a[0]] + ta[..i] && b[..i + 1] == [b[0]] + tb[..i];
        assert PartBefore(a, b, i + 1);
      }
      if FirstDifferenceBefore(a, b) {
        var i: nat :| i < |a| && i < |b| && a[..i] == b[..i] && PartBefore(a, b, i);
        if i > 0 {
          assert a[..i][0] == b[..i][0];
          assert ta[..i - 1] == a[..i][1..] && tb[..i - 1] == b[..i][1..];
          assert PartBefore(ta, tb, i - 1);
        }
      }
    }
  }

  // ----- directories and their contents

  predicate StrictlyBelow(d: Apath, p: Apath)
    requires IsValid(d) && IsValid(p)
  {
    |Names(d)| < |Names(p)| && Names(d) <= Names(p)
  }

  /** The parts that every path strictly below `d` starts with. */
  function DirParts(d: Apath): seq<string>
    requires IsValid(d)
  {
    [""] + Names(d)
  }

  lemma BelowParts(d: Apath, p: Apath) returns (rest: seq<string>)
    requires IsValid(d) && IsValid(p) && StrictlyBelow(d, p)
    ensures |rest| >= 1 && Split(p) == DirParts(d) + rest && Names(p) == Names(d) + rest
  {
    ValidSplit(p);
    rest := Names(p)[|Names(d)|..];
  }

  lemma {:induction false} ComparePartsCancel(common: seq<string>, a: seq<string>, b: seq<string>)
    requires |a| >= 1 && |b| >= 1
    ensures CompareParts(common + a, common + b) == CompareParts(a, b)
  {
    if common == [] {
      assert common + a == a && common + b == b;
    } else {
      CompareNamesLaws(common[0], common[0]);
      assert (common + a)[1..] == common[1..] + a && (common + b)[1..] == common[1..] + b;
      ComparePartsCancel(common[1..], a, b);
    }
  }

  lemma {:induction false} BetweenSharesDir(dir: seq<string>, a: seq<string>, b: seq<string>, c: seq<string>)
    requires |a| >= 1 && |b| >= 1 && |c| >= 1
    requires CompareParts(dir + a, b) == Less && CompareParts(b, dir + c) == Less
    ensures |dir| < |b| && dir <= b
  {
    if dir != [] {
      CompareNamesLaws(dir[0], b[0]);
      assert |b| > 1;
      assert (dir + a)[1..] == dir[1..] + a && (dir + c)[1..] == dir[1..] + c;
      BetweenSharesDir(dir[1..], a, b[1..], c);
      assert dir == [dir[0]] + dir[1..];
    }
  }

  lemma RootFirst(p: Apath)
    requires IsValid(p) && p != Root
    ensures Before(Root, p)
  {
    ValidSplit(p);
    ValidSplit(Root);
    CompareNamesLaws("", "");
    assert Split(p)[1..] == Names(p);
    assert ["", ""][1..] == [""];
    assert CompareParts(Split(Root), Split(p)) == CompareParts([""], Names(p));
    if |Names(p)| == 1 {
      assert Names(p)[0] in Split(p[1..]);
    }
  }

  /** The strict descendants of a directory form one contiguous run of the order. */
  lemma DescendantsContiguous(d: Apath, a: Apath, b: Apath, c: Apath)
    requires IsValid(d) && IsValid(a) && IsValid(b) && IsValid(c)
    requires StrictlyBelow(d, a) && StrictlyBelow(d, c)
    requires Before(a, b) && Before(b, c)
    ensures StrictlyBelow(d, b)
  {
    var ra := BelowParts(d, a);
    var rc := BelowParts(d, c);
    BetweenSharesDir(DirParts(d), ra, Split(b), rc);
    ValidSplit(b);
    if b == Root {
      RootFirst(a);
      Total(a, b);
    }
    assert Names(b) == Split(b)[1..];
    assert Names(d) == DirParts(d)[1..];
  }

  /** Within that run the direct children come before everything deeper. */
  lemma ChildrenFirst(d: Apath, child: Apath, deeper: Apath)
    requires IsValid(d) && IsValid(child) && IsValid(deeper)
    requires StrictlyBelow(d, child) && |Names(child)| == |Names(d)| + 1
    requires StrictlyBelow(d, deeper) && |Names(deeper)| > |Names(d)| + 1
    ensures Before(child, deeper)
  {
    var r := BelowParts(d, child);
    var s := BelowParts(d, deeper);
    ComparePartsCancel(DirParts(d), r, s);
  }

  // ----- the directory itself

  /** The text before the last slash and the text after it. */
  function DirOf(a: Apath): string {
    var parts := Split(a);
    if |parts| == 1 then "" else Join(parts[..|parts| - 1])
  }

  function TailOf(a: Apath): string {
    var parts := Split(a);
    parts[|parts| - 1]
  }

  lemma {:induction false} JoinAppend(parts: seq<string>, last: string)
    requires |parts| >= 1
    ensures Join(parts + [last]) == Join(parts) + "/" + last
  {
    if |parts| > 1 {
      var all := parts + [last];
      assert all[0] == parts[0] && all[1..] == parts[1..] + [last];
      JoinAppend(parts[1..], last);
      assert parts[0] + "/" + (Join(parts[1..]) + "/" + last) == (parts[0] + "/" + Join(parts[1..])) + "/" + last;
    }
  }

  lemma ValidHasDir(a: Apath)
    requires IsValid(a)
    ensures |Split(a)| >= 2 && a == DirOf(a) + "/" + TailOf(a) && '/' !in TailOf(a)
  {
    hide Split, Join, IsValid, Names;
    ValidSplit(a);
    JoinSplit(a);
    PartsHaveNoSlash(a);
    var parts := Split(a);
    assert parts == parts[..|parts| - 1] + [TailOf(a)];
    assert TailOf(a) in parts;
    JoinAppend(parts[..|parts| - 1], TailOf(a));
  }

  lemma LastSlash(a: Apath, dir: string, tail: string)
    requires a == dir + "/" + tail && '/' !in tail
    ensures Split(a) == Split(dir) + [tail] && DirOf(a) == dir && TailOf(a) == tail
  {
    hide Split, Join;
    SplitAtSlash(dir, tail);
    SplitName(tail);
    var parts := Split(a);
    assert parts[..|parts| - 1] == Split(dir);
    JoinSplit(dir);
  }

  lemma SplitRooted(a: Apath)
    requires a != "" && a[0] == '/'
    ensures Split(a) == [""] + Split(a[1..])
  {
  }

  /** A path whose last name is longer by a character. */
  lemma LongerName(d: Apath) returns (y: Apath)
    requires IsValid(d) && d != Root
    ensures IsValid(y) && y != Root && Split(d) == Split(DirOf(d)) + [TailOf(d)] &&
      Split(y) == Split(DirOf(d)) + [TailOf(d) + "x"]
  {
    y := d + "x";
    ValidHasDir(d);
    LastSlash(d, DirOf(d), TailOf(d));
    assert y == DirOf(d) + "/" + (TailOf(d) + "x");
    LastSlash(y, DirOf(d), TailOf(d) + "x");
    SplitRooted(d);
    SplitRooted(y);
    LongerNames(Split(DirOf(d)), TailOf(d), Split(d[1..]), Split(y[1..]));
  }

  lemma LongerNames(dir: seq<string>, tail: string, names: seq<string>, longer: seq<string>)
    requires dir + [tail] == [""] + names && dir + [tail + "x"] == [""] + longer && |names| >= 1
    requires forall part :: part in names ==> ValidName(part)
    ensures forall part :: part in longer ==> ValidName(part)
  {
    assert names == (dir + [tail])[1..] && longer == (dir + [tail + "x"])[1..];
    assert ValidName(tail) by { assert names[|names| - 1] == tail; }
    assert (tail + "x")[|tail|] == 'x';
    forall part | part in longer ensures ValidName(part) {
      var i :| 0 <= i < |longer| && longer[i] == part;
      if i < |longer| - 1 {
        assert longer[i] == names[i] && names[i] in names;
      }
    }
  }

  lemma {:induction false} NameBeforeLonger(n: string)
    ensures CompareNames(n, n + "x") == Less
  {
    if n != "" {
      assert (n + "x")[1..] == n[1..] + "x";
      NameBeforeLonger(n[1..]);
    }
  }

  /** Between every directory but the root and anything in it there is a path that is neither. */
  lemma DirectoryApartFromContents(d: Apath, x: Apath) returns (y: Apath)
    requires IsValid(d) && d != Root && IsValid(x) && StrictlyBelow(d, x)
    ensures IsValid(y) && y != d && !StrictlyBelow(d, y) && Before(d, y) && Before(y, x)
  {
    hide IsValid, StrictlyBelow, Split;
    y := LongerName(d);
    var dir, name := Split(DirOf(d)), TailOf(d);
    var rest := BelowParts(d, x);
    ValidSplit(d);
    assert Split(x) == dir + ([name] + rest);
    ComparePartsCancel(dir, [name], [name + "x"]);
    ComparePartsCancel(dir, [name + "x"], [name] + rest);
    NameBeforeLonger(name);
    SameDepthNotBelow(d, y);
    Total(d, y);
  }

  lemma SameDepthNotBelow(d: Apath, y: Apath)
    requires IsValid(d) && IsValid(y) && d != Root && y != Root && |Split(d)| == |Split(y)|
    ensures !StrictlyBelow(d, y)
  {
    ValidSplit(d);
    ValidSplit(y);
  }

  /** A directory and its contents together: nothing else lies between the directory and anything in it. */
  ghost predicate ContiguousWithTop(d: Apath)
    requires IsValid(d)
  {
    forall x: Apath, y: Apath :: IsValid(x) && IsValid(y) && StrictlyBelow(d, x) && Before(d, y) && Before(y, x) ==>
      StrictlyBelow(d, y)
  }

  /** A subtree is contiguous together with its top directory if and only if it is the whole tree. */
  lemma OnlyRootStartsItsSubtree(d: Apath)
    requires IsValid(d)
    ensures ContiguousWithTop(d) <==> d == Root
  {
    if d == Root {
      forall y: Apath | IsValid(y) && Before(d, y) ensures StrictlyBelow(d, y) {
        Total(d, y);
        ValidSplit(y);
      }
    } else {
      AppendNames(d, "x");
      var y := DirectoryApartFromContents(d, Append(d, "x"));
    }
  }

  // ----- the order as it is documented

  /** Compare the directory texts and, if they are the same, the names in them. */
  function DocumentedCompare(a: Apath, b: Apath): Ordering {
    if DirOf(a) != DirOf(b) then CompareNames(DirOf(a), DirOf(b)) else CompareNames(TailOf(a), TailOf(b))
  }

  /** Where two texts first differ, one has a slash and the other a character below the slash. */
  predicate SlashMeetsLower(s: string, t: string) {
    s != "" && t != "" &&
    if s[0] == t[0] then SlashMeetsLower(s[1..], t[1..]) else (s[0] == '/' && t[0] < '/') || (t[0] == '/' && s[0] < '/')
  }

  lemma {:induction false} StripCommon(c: string, s: string, t: string)
    ensures CompareNames(c + s, c + t) == CompareNames(s, t) && SlashMeetsLower(c + s, c + t) == SlashMeetsLower(s, t)
  {
    if c == "" {
      assert c + s == s && c + t == t;
    } else {
      assert (c + s)[1..] == c[1..] + s && (c + t)[1..] == c[1..] + t;
      StripCommon(c[1..], s, t);
    }
  }

  /** Two different names, each followed by nothing or by a slash and more. */
  lemma {:induction false} NamesThenSlash(x: string, y: string, s: string, t: string)
    requires x != y && '/' !in x && '/' !in y && (s == "" || s[0] == '/') && (t == "" || t[0] == '/')
    ensures CompareNames(x + s, y + t) == CompareNames(x, y) <==> !SlashMeetsLower(x + s, y + t)
  {
    if x != "" && y != "" && x[0] == y[0] {
      assert (x + s)[1..] == x[1..] + s && (y + t)[1..] == y[1..] + t;
      assert x == [x[0]] + x[1..] && y == [y[0]] + y[1..];
      NamesThenSlash(x[1..], y[1..], s, t);
    } else if x == "" {
      assert x + s == s && (y + t)[0] == y[0] && y[0] in y;
    } else if y == "" {
      assert y + t == t && (x + s)[0] == x[0] && x[0] in x;
    } else {
      assert (x + s)[0] == x[0] && (y + t)[0] == y[0] && x[0] in x && y[0] in y;
    }
  }

  /** Comparing lists of directory names one by one: a list comes before its extensions. */
  function CompareDirs(a: seq<string>, b: seq<string>): Ordering {
    if a == [] then (if b == [] then Equal else Less)
    else if b == [] then Greater
    else if CompareNames(a[0], b[0]) != Equal then CompareNames(a[0], b[0])
    else CompareDirs(a[1..], b[1..])
  }

  /** What is implemented, too, compares directories first and then names. */
  lemma {:induction false} PartsAreDirsThenName(a: seq<string>, ta: string, b: seq<string>, tb: string)
    ensures CompareParts(a + [ta], b + [tb]) == if a == b then CompareNames(ta, tb) else CompareDirs(a, b)
    decreases a
  {
    if a != [] && b != [] {
      CompareNamesLaws(a[0], b[0]);
      assert (a + [ta])[1..] == a[1..] + [ta] && (b + [tb])[1..] == b[1..] + [tb];
      assert a == [a[0]] + a[1..] && b == [b[0]] + b[1..];
      PartsAreDirsThenName(a[1..], ta, b[1..], tb);
    }
  }

  predicate NoSlashes(parts: seq<string>) {
    forall part :: part in parts ==> '/' !in part
  }

  function JoinTail(parts: seq<string>): string
    requires |parts| >= 1
  {
    if |parts| == 1 then "" else "/" + Join(parts[1..])
  }

  lemma {:induction false} JoinHead(parts: seq<string>)
    requires |parts| >= 1
    ensures Join(parts) == parts[0] + JoinTail(parts)
  {
    if |parts| == 1 {
      assert parts[0] + "" == parts[0];
    } else {
      var rest := Join(parts[1..]);
      assert parts[0] + "/" + rest == parts[0] + ("/" + rest);
    }
  }

  /** Directories compared as text and name by name. */
  lemma {:induction false} TextAgainstNames(a: seq<string>, b: seq<string>)
    requires |a| >= 1 && |b| >= 1 && NoSlashes(a) && NoSlashes(b) && a != b
    ensures Join(a) != Join(b)
    ensures CompareNames(Join(a), Join(b)) == CompareDirs(a, b) <==> !SlashMeetsLower(Join(a), Join(b))
  {
    JoinHead(a);
    JoinHead(b);
    CompareNamesLaws(a[0], b[0]);
    assert a[0] in a && b[0] in b;
    if a[0] != b[0] {
      NamesThenSlash(a[0], b[0], JoinTail(a), JoinTail(b));
      DifferentHeads(a[0], b[0], JoinTail(a), JoinTail(b));
    } else {
      StripCommon(a[0], JoinTail(a), JoinTail(b));
      assert a == [a[0]] + a[1..] && b == [b[0]] + b[1..];
      if |a| > 1 && |b| > 1 {
        StripCommon("/", Join(a[1..]), Join(b[1..]));
        TextAgainstNames(a[1..], b[1..]);
        assert JoinTail(a)[1..] == Join(a[1..]) && JoinTail(b)[1..] == Join(b[1..]);
        assert Join(a)[|a[0]|..] == JoinTail(a) && Join(b)[|b[0]|..] == JoinTail(b);
      } else {
        assert Join(a)[|a[0]|..] == JoinTail(a) && Join(b)[|b[0]|..] == JoinTail(b);
      }
    }
  }

  lemma {:induction false} DifferentHeads(x: string, y: string, s: string, t: string)
    requires x != y && '/' !in x && '/' !in y && (s == "" || s[0] == '/') && (t == "" || t[0] == '/')
    ensures x + s != y + t
  {
    if |x| == |y| {
      assert (x + s)[..|x|] == x && (y + t)[..|y|] == y;
    } else if |x| < |y| {
      assert s != "" ==> (x + s)[|x|] == '/' && (y + t)[|x|] == y[|x|];
      assert y[|x|] in y;
    } else {
      assert t != "" ==> (y + t)[|y|] == '/' && (x + s)[|y|] == x[|y|];
      assert x[|y|] in x;
    }
  }

  /** The documented order is the order of well-formed paths, except exactly where their directory texts first differ
      in a slash against a character below the slash. */
  lemma DocumentedOrderAgrees(a: Apath, b: Apath)
    requires IsValid(a) && IsValid(b)
    ensures DocumentedCompare(a, b) == Compare(a, b) <==> !SlashMeetsLower(DirOf(a), DirOf(b))
  {
    hide Split, IsValid, Join, CompareParts, CompareNames, SlashMeetsLower;
    ValidHasDir(a);
    ValidHasDir(b);
    var pa, pb := Split(a), Split(b);
    var da, db := pa[..|pa| - 1], pb[..|pb| - 1];
    assert pa == da + [TailOf(a)] && pb == db + [TailOf(b)];
    PartsHaveNoSlash(a);
    PartsHaveNoSlash(b);
    assert NoSlashes(da) && NoSlashes(db);
    PartsAreDirsThenName(da, TailOf(a), db, TailOf(b));
    if da == db {
      NeverMeetsItself(DirOf(a));
    } else {
      TextAgainstNames(da, db);
    }
  }

  lemma {:induction false} NeverMeetsItself(s: string)
    ensures !SlashMeetsLower(s, s)
  {
    if s != "" {
      NeverMeetsItself(s[1..]);
    }
  }

  /** For instance "/a/b/x" and "/a!/x". */
  lemma DocumentedOrderDiffers()
    ensures IsValid("/a/b/x") && IsValid("/a!/x") && DocumentedCompare("/a/b/x", "/a!/x") != Compare("/a/b/x", "/a!/x")
  {
    hide Split, IsValid, Names, CompareNames, Compare, DocumentedCompare;
    var a, b := "/a/b/x", "/a!/x";
    RootIsValid();
    assert Append(Root, "a") == "/a" && Append(Root, "a!") == "/a!";
    assert Append("/a", "b") == "/a/b" && Append("/a/b", "x") == a && Append("/a!", "x") == b;
    AppendNames(Root, "a");
    AppendNames(Root, "a!");
    AppendNames("/a", "b");
    AppendNames("/a/b", "x");
    AppendNames("/a!", "x");
    LastSlash(a, "/a/b", "x");
    LastSlash(b, "/a!", "x");
    assert "/a/b" == "/a" + "/b" && "/a!" == "/a" + "!";
    StripCommon("/a", "/b", "!");
    DocumentedOrderAgrees(a, b);
  }

  lemma RootIsValid()
    ensures IsValid(Root)
  {
  }

  // ----- the ancestor test

  function Utf8Width(c: char): nat {
    if c as int < 0x80 then 1 else if c as int < 0x800 then 2 else if c as int < 0x1_0000 then 3 else 4
  }

  function Utf8Len(s: string): (n: nat)
    ensures n >= |s|
  {
    if s == "" then 0 else Utf8Width(s[0]) + Utf8Len(s[1..])
  }

  predicate SingleByte(s: string) {
    forall i :: 0 <= i < |s| ==> Utf8Width(s[i]) == 1
  }

  /** The test as written: a byte length is used as a character index into the other path. */
  predicate IsPrefixOf(p: Apath, a: Apath) {
    var len := Utf8Len(p);
    if len > Utf8Len(a) then false
    else if len == Utf8Len(a) then p == a
    else p <= a && ((|p| > 0 && p[|p| - 1] == '/') || (len < |a| && a[len] == '/'))
  }

  /** What the test is for: `p` is `a` or one of its parent directories. */
  predicate IsAncestorOrSelf(p: Apath, a: Apath)
    requires IsValid(p) && IsValid(a)
  {
    Names(p) <= Names(a)
  }

  lemma {:induction false} Utf8LenSplit(s: string, t: string)
    ensures Utf8Len(s + t) == Utf8Len(s) + Utf8Len(t)
  {
    if s == "" {
      assert s + t == t;
    } else {
      assert (s + t)[1..] == s[1..] + t;
      Utf8LenSplit(s[1..], t);
    }
  }

  lemma {:induction false} SingleByteLen(s: string)
    ensures Utf8Len(s) == |s| <==> SingleByte(s)
  {
    if s != "" {
      SingleByteLen(s[1..]);
      assert forall i :: 1 <= i < |s| ==> s[i] == s[1..][i - 1];
      if SingleByte(s) {
        assert SingleByte(s[1..]);
      } else if SingleByte(s[1..]) && Utf8Width(s[0]) == 1 {
        assert SingleByte(s);
      }
    }
  }

  /** A component prefix is a textual prefix that stops at a slash or at the end. */
  lemma AncestorText(p: Apath, a: Apath)
    requires IsValid(p) && IsValid(a)
    ensures IsAncestorOrSelf(p, a) <==> p == a || (p == Root) || (p <= a && |p| < |a| && a[|p|] == '/')
  {
    ValidSplit(p);
    ValidSplit(a);
    if p != Root && p <= a && |p| < |a| && a[|p|] == '/' {
      var rest := a[|p| + 1..];
      assert a[1..] == p[1..] + "/" + rest;
      SplitAtSlash(p[1..], rest);
    }
    if p != Root && IsAncestorOrSelf(p, a) {
      PartsExtend(p[1..], a[1..]);
      if p[1..] == a[1..] {
        assert p == [p[0]] + p[1..] && a == [a[0]] + a[1..];
        assert p == a;
      } else {
        assert p == [p[0]] + p[1..] && a == [a[0]] + a[1..];
      }
    }
  }

  lemma {:induction false} PartsExtend(s: string, t: string)
    requires Split(s) <= Split(t)
    ensures s == t || (s <= t && |s| < |t| && t[|s|] == '/')
  {
    var ps, pt := Split(s), Split(t);
    JoinSplit(s);
    JoinSplit(t);
    if |ps| == |pt| {
      assert ps == pt;
    } else {
      JoinPrefix(ps, pt);
    }
  }

  lemma {:induction false} JoinPrefix(ps: seq<string>, pt: seq<string>)
    requires 1 <= |ps| < |pt| && ps <= pt
    ensures Join(ps) <= Join(pt) && |Join(ps)| < |Join(pt)| && Join(pt)[|Join(ps)|] == '/'
  {
    if |ps| > 1 {
      JoinPrefix(ps[1..], pt[1..]);
    }
  }

  lemma TrailingSlash(s: string)
    requires |s| > 0 && s[|s| - 1] == '/'
    ensures "" in Split(s)
  {
    assert s == s[..|s| - 1] + "/" + "";
    SplitAtSlash(s[..|s| - 1], "");
    var parts := Split(s);
    assert parts[|parts| - 1] == "";
  }

  lemma LastNotSlash(p: Apath)
    requires IsValid(p) && p != Root
    ensures p[|p| - 1] != '/'
  {
    if p[|p| - 1] == '/' {
      TrailingSlash(p[1..]);
    }
  }

  lemma PrefixTestSingleByte(p: Apath, a: Apath)
    requires IsValid(p) && IsValid(a) && SingleByte(p)
    ensures IsPrefixOf(p, a) <==> IsAncestorOrSelf(p, a)
  {
    SingleByteLen(p);
    AncestorText(p, a);
    if p <= a {
      assert a == p + a[|p|..];
      Utf8LenSplit(p, a[|p|..]);
    }
    if p != Root {
      LastNotSlash(p);
    } else {
      assert p <= a;
    }
  }

  function Repeat(c: char, n: nat): (s: string)
    ensures |s| == n && forall i :: 0 <= i < n ==> s[i] == c
  {
    seq(n, i => c)
  }

  /** A path with a multi-byte character misses some of its own children. */
  lemma PrefixTestMultiByte(p: Apath) returns (a: Apath)
    requires IsValid(p) && !SingleByte(p)
    ensures IsValid(a) && StrictlyBelow(p, a) && !IsPrefixOf(p, a)
  {
    var n := Repeat('x', Utf8Len(p) + 1);
    a := Append(p, n);
    AppendNames(p, n);
    LastNotSlash(p);
    SingleByteLen(p);
    Utf8LenSplit(p, a[|p|..]);
    assert a == p + a[|p|..];
    assert a[Utf8Len(p)] == 'x';
  }

  /** The ancestor test is right about every path exactly when its own text is single-byte. */
  lemma PrefixTestExact(p: Apath)
    requires IsValid(p)
    ensures (forall a: Apath :: IsValid(a) ==> (IsPrefixOf(p, a) <==> IsAncestorOrSelf(p, a))) <==> SingleByte(p)
  {
    if SingleByte(p) {
      forall a: Apath | IsValid(a)
        ensures IsPrefixOf(p, a) <==> IsAncestorOrSelf(p, a)
      {
        PrefixTestSingleByte(p, a);
      }
    } else {
      var a := PrefixTestMultiByte(p);
    }
  }
}
