/** Sorting by apath key.  The program sorts with the standard library; all that matters here is
    that a sorted permutation of items with distinct keys is unique. */
module Sorting {
  import opened Apaths

  ghost predicate Increasing<T>(key: T -> Apath, xs: seq<T>) {
    forall i, j :: 0 <= i < j < |xs| ==> Before(key(xs[i]), key(xs[j]))
  }

  ghost predicate DistinctKeys<T>(key: T -> Apath, xs: seq<T>) {
    forall i, j :: 0 <= i < j < |xs| ==> key(xs[i]) != key(xs[j])
  }

  function Insert<T>(key: T -> Apath, x: T, xs: seq<T>): (r: seq<T>)
    ensures |r| == |xs| + 1
  {
    if xs == [] || !Before(key(xs[0]), key(x)) then [x] + xs
    else [xs[0]] + Insert(key, x, xs[1..])
  }

  function Sort<T>(key: T -> Apath, xs: seq<T>): (r: seq<T>)
    ensures |r| == |xs|
  {
    if xs == [] then [] else Insert(key, xs[0], Sort(key, xs[1..]))
  }

  lemma {:induction false} InsertPermutes<T>(key: T -> Apath, x: T, xs: seq<T>)
    ensures multiset(Insert(key, x, xs)) == multiset(xs) + multiset{x}
  {
    if xs != [] && Before(key(xs[0]), key(x)) {
      InsertPermutes(key, x, xs[1..]);
      assert xs == [xs[0]] + xs[1..];
    }
  }

  lemma {:induction false} SortPermutes<T>(key: T -> Apath, xs: seq<T>)
    ensures multiset(Sort(key, xs)) == multiset(xs)
  {
    if xs != [] {
      SortPermutes(key, xs[1..]);
      InsertPermutes(key, xs[0], Sort(key, xs[1..]));
      assert xs == [xs[0]] + xs[1..];
    }
  }

  lemma {:induction false} InsertIncreasing<T>(key: T -> Apath, x: T, xs: seq<T>)
    requires Increasing(key, xs) && forall i :: 0 <= i < |xs| ==> key(xs[i]) != key(x)
    ensures Increasing(key, Insert(key, x, xs))
  {
    if xs == [] {
    } else if !Before(key(xs[0]), key(x)) {
      Total(key(x), key(xs[0]));
      forall i | 1 <= i < |xs| ensures Before(key(x), key(xs[i])) {
        Transitive(key(x), key(xs[0]), key(xs[i]));
      }
    } else {
      var rest := Insert(key, x, xs[1..]);
      InsertIncreasing(key, x, xs[1..]);
      InsertPermutes(key, x, xs[1..]);
      forall i | 0 <= i < |rest| ensures Before(key(xs[0]), key(rest[i])) {
        assert rest[i] in multiset(rest);
        assert rest[i] == x || rest[i] in xs[1..];
      }
    }
  }

  lemma {:induction false} SortIncreasing<T>(key: T -> Apath, xs: seq<T>)
    requires DistinctKeys(key, xs)
    ensures Increasing(key, Sort(key, xs))
  {
    if xs != [] {
      var rest := Sort(key, xs[1..]);
      SortIncreasing(key, xs[1..]);
      SortPermutes(key, xs[1..]);
      forall i | 0 <= i < |rest| ensures key(rest[i]) != key(xs[0]) {
        assert rest[i] in multiset(rest);
        assert rest[i] in xs[1..];
      }
      InsertIncreasing(key, xs[0], rest);
    }
  }

  lemma IncreasingDistinct<T>(key: T -> Apath, xs: seq<T>)
    requires Increasing(key, xs)
    ensures DistinctKeys(key, xs)
  {
    forall i, j | 0 <= i < j < |xs| ensures key(xs[i]) != key(xs[j]) {
      Total(key(xs[i]), key(xs[j]));
    }
  }

  lemma SameFirst<T>(key: T -> Apath, xs: seq<T>, ys: seq<T>)
    requires Increasing(key, xs) && Increasing(key, ys) && multiset(xs) == multiset(ys) && xs != []
    ensures ys != [] && xs[0] == ys[0]
  {
    assert xs[0] in multiset(ys);
    var i :| 0 <= i < |ys| && ys[i] == xs[0];
    assert ys[0] in multiset(xs);
    var j :| 0 <= j < |xs| && xs[j] == ys[0];
    Total(key(xs[0]), key(ys[0]));
  }

  lemma SameTails<T>(xs: seq<T>, ys: seq<T>)
    requires xs != [] && ys != [] && xs[0] == ys[0] && multiset(xs) == multiset(ys)
    ensures multiset(xs[1..]) == multiset(ys[1..])
  {
    assert xs == [xs[0]] + xs[1..] && ys == [ys[0]] + ys[1..];
    assert multiset(xs[1..]) == multiset(xs) - multiset{xs[0]};
  }

  /** Two increasing arrangements of the same items are the same sequence. */
  lemma {:induction false} IncreasingUnique<T>(key: T -> Apath, xs: seq<T>, ys: seq<T>)
    requires Increasing(key, xs) && Increasing(key, ys) && multiset(xs) == multiset(ys)
    ensures xs == ys
  {
    hide Before;
    if xs == [] {
      assert |multiset(ys)| == |ys|;
    } else {
      SameFirst(key, xs, ys);
      SameTails(xs, ys);
      IncreasingUnique(key, xs[1..], ys[1..]);
    }
  }

  lemma SortOfIncreasing<T>(key: T -> Apath, xs: seq<T>, ys: seq<T>)
    requires Increasing(key, ys) && multiset(xs) == multiset(ys)
    ensures Sort(key, xs) == ys
  {
    assert DistinctKeys(key, xs) by { PermutationDistinct(key, xs, ys); }
    SortIncreasing(key, xs);
    SortPermutes(key, xs);
    IncreasingUnique(key, Sort(key, xs), ys);
  }

  lemma {:induction false} PermutationDistinct<T>(key: T -> Apath, xs: seq<T>, ys: seq<T>)
    requires Increasing(key, ys) && multiset(xs) == multiset(ys)
    ensures DistinctKeys(key, xs)
  {
    IncreasingDistinct(key, ys);
    forall i, j | 0 <= i < j < |xs| ensures key(xs[i]) != key(xs[j]) {
      var a, b := xs[i], xs[j];
      assert a in multiset(ys) && b in multiset(ys);
      var k :| 0 <= k < |ys| && ys[k] == a;
      var l :| 0 <= l < |ys| && ys[l] == b;
      if k == l {
        TwiceInMultiset(xs, i, j);
        OnceInDistinct(key, ys, k);
      }
    }
  }

  lemma TwiceInMultiset<T>(xs: seq<T>, i: int, j: int)
    requires 0 <= i < j < |xs| && xs[i] == xs[j]
    ensures multiset(xs)[xs[i]] >= 2
  {
    assert xs == xs[..j] + xs[j..];
    assert xs[i] in xs[..j] && xs[i] in xs[j..];
  }

  lemma OnceInDistinct<T>(key: T -> Apath, ys: seq<T>, k: int)
    requires DistinctKeys(key, ys) && 0 <= k < |ys|
    ensures multiset(ys)[ys[k]] == 1
  {
    assert ys == ys[..k] + [ys[k]] + ys[k + 1..];
    assert ys[k] !in ys[..k] && ys[k] !in ys[k + 1..];
  }

  // ----- sorting two lists that correspond item by item

  ghost predicate Pairwise<S, T>(rel: (S, T) -> bool, xs: seq<S>, ys: seq<T>) {
    |xs| == |ys| && forall i :: 0 <= i < |xs| ==> rel(xs[i], ys[i])
  }

  ghost predicate KeysAgree<S(!new), T(!new)>(rel: (S, T) -> bool, kx: S -> Apath, ky: T -> Apath) {
    forall x, y :: rel(x, y) ==> kx(x) == ky(y)
  }

  lemma {:induction false} InsertPairwise<S(!new), T(!new)>(rel: (S, T) -> bool, kx: S -> Apath, ky: T -> Apath,
                                              x: S, y: T, xs: seq<S>, ys: seq<T>)
    requires KeysAgree(rel, kx, ky) && rel(x, y) && Pairwise(rel, xs, ys)
    ensures Pairwise(rel, Insert(kx, x, xs), Insert(ky, y, ys))
  {
    if xs != [] {
      assert rel(xs[0], ys[0]);
      InsertPairwise(rel, kx, ky, x, y, xs[1..], ys[1..]);
    }
  }

  lemma {:induction false} SortPairwise<S(!new), T(!new)>(rel: (S, T) -> bool, kx: S -> Apath, ky: T -> Apath,
                                            xs: seq<S>, ys: seq<T>)
    requires KeysAgree(rel, kx, ky) && Pairwise(rel, xs, ys)
    ensures Pairwise(rel, Sort(kx, xs), Sort(ky, ys))
  {
    if xs != [] {
      SortPairwise(rel, kx, ky, xs[1..], ys[1..]);
      InsertPairwise(rel, kx, ky, xs[0], ys[0], Sort(kx, xs[1..]), Sort(ky, ys[1..]));
    }
  }
}
