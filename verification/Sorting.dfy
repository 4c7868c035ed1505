/** The stable descending sort the server uses through the standard library. */
module Sorting {
  import opened Common

  /** Put x before the first element that is not heavier than it. */
  function InsertDesc<T>(x: T, xs: seq<T>, key: T -> real): seq<T> {
    if xs == [] || key(x) >= key(xs[0]) then [x] + xs else [xs[0]] + InsertDesc(x, xs[1..], key)
  }

  function SortDesc<T>(xs: seq<T>, key: T -> real): seq<T> {
    if xs == [] then [] else InsertDesc(xs[0], SortDesc(xs[1..], key), key)
  }

  ghost predicate Descending<T>(xs: seq<T>, key: T -> real) {
    forall i, j :: 0 <= i < j < |xs| ==> key(xs[i]) >= key(xs[j])
  }

  /** Heavier first, and equal weights in the order of `pos`. */
  ghost predicate Before<T>(x: T, y: T, key: T -> real, pos: T -> int) {
    key(x) > key(y) || (key(x) == key(y) && pos(x) < pos(y))
  }

  ghost predicate StablyDescending<T>(xs: seq<T>, key: T -> real, pos: T -> int) {
    forall i, j :: 0 <= i < j < |xs| ==> Before(xs[i], xs[j], key, pos)
  }

  lemma {:induction false} InsertElements<T>(x: T, xs: seq<T>, key: T -> real)
    ensures multiset(InsertDesc(x, xs, key)) == multiset(xs) + multiset{x}
  {
    if xs != [] && key(x) < key(xs[0]) {
      InsertElements(x, xs[1..], key);
      assert xs == [xs[0]] + xs[1..];
    }
  }

  /** Sorting permutes. */
  lemma {:induction false} SortPermutes<T>(xs: seq<T>, key: T -> real)
    ensures multiset(SortDesc(xs, key)) == multiset(xs)
    ensures |SortDesc(xs, key)| == |xs|
  {
    if xs != [] {
      SortPermutes(xs[1..], key);
      InsertElements(xs[0], SortDesc(xs[1..], key), key);
      assert xs == [xs[0]] + xs[1..];
    }
    assert |multiset(SortDesc(xs, key))| == |multiset(xs)|;
  }

  lemma {:induction false} InsertMember<T>(x: T, xs: seq<T>, key: T -> real, y: T)
    ensures y in InsertDesc(x, xs, key) <==> y == x || y in xs
  {
    if xs != [] && key(x) < key(xs[0]) {
      InsertMember(x, xs[1..], key, y);
      assert xs == [xs[0]] + xs[1..];
    }
  }

  lemma {:induction false} InsertSorted<T>(x: T, xs: seq<T>, key: T -> real, pos: T -> int)
    requires StablyDescending(xs, key, pos)
    requires forall y :: y in xs ==> pos(x) < pos(y)
    ensures StablyDescending(InsertDesc(x, xs, key), key, pos)
  {
    if xs != [] && key(x) < key(xs[0]) {
      var rest := InsertDesc(x, xs[1..], key);
      InsertSorted(x, xs[1..], key, pos);
      forall j | 0 <= j < |rest|
        ensures Before(xs[0], rest[j], key, pos)
      {
        assert rest[j] in rest;
        if rest[j] != x {
          var tail := xs[1..];
          InsertMember(x, tail, key, rest[j]);
          var k :| 0 <= k < |tail| && tail[k] == rest[j];
          assert Before(xs[0], xs[k + 1], key, pos);
        }
      }
    } else {
      forall j | 0 <= j < |xs|
        ensures Before(x, xs[j], key, pos)
      {
        assert xs[j] in xs;
        assert j > 0 ==> Before(xs[0], xs[j], key, pos);
      }
    }
  }

  lemma {:induction false} SortMember<T>(xs: seq<T>, key: T -> real, y: T)
    ensures y in SortDesc(xs, key) <==> y in xs
  {
    if xs != [] {
      SortMember(xs[1..], key, y);
      InsertMember(xs[0], SortDesc(xs[1..], key), key, y);
      assert xs == [xs[0]] + xs[1..];
    }
  }

  /** Sorting orders by descending key and keeps the order of equal keys. */
  lemma {:induction false} SortIsStable<T>(xs: seq<T>, key: T -> real, pos: T -> int)
    requires forall i, j :: 0 <= i < j < |xs| ==> pos(xs[i]) < pos(xs[j])
    ensures StablyDescending(SortDesc(xs, key), key, pos)
  {
    if xs != [] {
      SortIsStable(xs[1..], key, pos);
      forall y | y in SortDesc(xs[1..], key)
        ensures pos(xs[0]) < pos(y)
      {
        var tail := xs[1..];
        SortMember(tail, key, y);
        var k :| 0 <= k < |tail| && tail[k] == y;
      }
      InsertSorted(xs[0], SortDesc(xs[1..], key), key, pos);
    }
  }

  lemma {:induction false} InsertDescends<T>(x: T, xs: seq<T>, key: T -> real)
    requires Descending(xs, key)
    ensures Descending(InsertDesc(x, xs, key), key)
  {
    if xs != [] && key(x) < key(xs[0]) {
      var tail := xs[1..];
      var rest := InsertDesc(x, tail, key);
      InsertDescends(x, tail, key);
      forall j | 0 <= j < |rest|
        ensures key(xs[0]) >= key(rest[j])
      {
        assert rest[j] in rest;
        InsertMember(x, tail, key, rest[j]);
      }
    }
  }

  lemma {:induction false} SortDescends<T>(xs: seq<T>, key: T -> real)
    ensures Descending(SortDesc(xs, key), key)
  {
    if xs != [] {
      SortDescends(xs[1..], key);
      InsertDescends(xs[0], SortDesc(xs[1..], key), key);
    }
  }

  lemma {:induction false} InsertMap<A, B>(x: A, xs: seq<A>, f: A -> B, keyA: A -> real, keyB: B -> real)
    requires forall a :: keyB(f(a)) == keyA(a)
    ensures MapSeq(f, InsertDesc(x, xs, keyA)) == InsertDesc(f(x), MapSeq(f, xs), keyB)
  {
    if xs != [] && keyA(x) < keyA(xs[0]) {
      InsertMap(x, xs[1..], f, keyA, keyB);
      assert MapSeq(f, xs)[1..] == MapSeq(f, xs[1..]);
      assert MapSeq(f, InsertDesc(x, xs, keyA)) == [f(xs[0])] + MapSeq(f, InsertDesc(x, xs[1..], keyA));
    } else {
      assert MapSeq(f, [x] + xs) == [f(x)] + MapSeq(f, xs);
    }
  }

  /** Sorting records by a field is sorting what the records are made from. */
  lemma {:induction false} SortMap<A, B>(xs: seq<A>, f: A -> B, keyA: A -> real, keyB: B -> real)
    requires forall a :: keyB(f(a)) == keyA(a)
    ensures MapSeq(f, SortDesc(xs, keyA)) == SortDesc(MapSeq(f, xs), keyB)
  {
    if xs != [] {
      SortMap(xs[1..], f, keyA, keyB);
      assert MapSeq(f, xs)[1..] == MapSeq(f, xs[1..]);
      InsertMap(xs[0], SortDesc(xs[1..], keyA), f, keyA, keyB);
    }
  }

  lemma TailElements<T>(xs: seq<T>)
    requires xs != []
    ensures multiset(xs[1..]) == multiset(xs) - multiset{xs[0]}
  {
    assert xs == [xs[0]] + xs[1..];
  }

  lemma HeadBefore<T>(xs: seq<T>, x: T, key: T -> real, pos: T -> int)
    requires StablyDescending(xs, key, pos) && x in xs
    ensures x == xs[0] || Before(xs[0], x, key, pos)
  {
  }

  /** There is only one stably descending arrangement of given elements. */
  lemma {:induction false} StableOrderUnique<T>(xs: seq<T>, ys: seq<T>, key: T -> real, pos: T -> int)
    requires multiset(xs) == multiset(ys)
    requires StablyDescending(xs, key, pos) && StablyDescending(ys, key, pos)
    ensures xs == ys
  {
    assert |multiset(xs)| == |multiset(ys)|;
    if xs != [] {
      assert xs[0] in multiset(xs) && ys[0] in multiset(ys);
      HeadBefore(xs, ys[0], key, pos);
      HeadBefore(ys, xs[0], key, pos);
      TailElements(xs);
      TailElements(ys);
      StableOrderUnique(xs[1..], ys[1..], key, pos);
    }
  }

  /** The first n elements of `ys` are each before everything after them. */
  ghost predicate LeadingInOrder<T>(ys: seq<T>, n: nat, key: T -> real, pos: T -> int) {
    forall i, j :: 0 <= i < j < |ys| && i < n ==> Before(ys[i], ys[j], key, pos)
  }

  /** The stable order starts with these elements, and only then. */
  lemma {:induction false} LeadingUnique<T>(xs: seq<T>, ys: seq<T>, n: nat, key: T -> real, pos: T -> int)
    requires multiset(xs) == multiset(ys) && n <= |ys|
    requires StablyDescending(xs, key, pos) && LeadingInOrder(ys, n, key, pos)
    ensures |xs| == |ys| && xs[..n] == ys[..n]
  {
    assert |multiset(xs)| == |multiset(ys)|;
    if n > 0 {
      assert xs[0] in multiset(xs) && ys[0] in multiset(ys);
      HeadBefore(xs, ys[0], key, pos);
      assert xs[0] in ys;
      LeadBefore(ys, n, xs[0], key, pos);
      TailElements(xs);
      TailElements(ys);
      LeadingTail(ys, n, key, pos);
      LeadingUnique(xs[1..], ys[1..], n - 1, key, pos);
      PrefixCons(xs, n);
      PrefixCons(ys, n);
    }
  }

  lemma LeadingTail<T>(ys: seq<T>, n: nat, key: T -> real, pos: T -> int)
    requires LeadingInOrder(ys, n, key, pos) && 0 < n <= |ys|
    ensures LeadingInOrder(ys[1..], n - 1, key, pos)
  {
    var tail := ys[1..];
    assert forall i :: 0 <= i < |tail| ==> tail[i] == ys[i + 1];
  }

  lemma PrefixCons<T>(xs: seq<T>, n: nat)
    requires 0 < n <= |xs|
    ensures xs[..n] == [xs[0]] + xs[1..][..n - 1]
  {
  }

  lemma LeadBefore<T>(ys: seq<T>, n: nat, y: T, key: T -> real, pos: T -> int)
    requires LeadingInOrder(ys, n, key, pos) && n > 0 && y in ys
    ensures y == ys[0] || Before(ys[0], y, key, pos)
  {
  }
}
