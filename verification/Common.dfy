/** Small vocabulary shared by every component: optional values, fallible
    results and the sequence operations the server's loops are specified by. */
module Common {

  datatype Option<+T> = None | Some(value: T)

  datatype Result<+T> = Ok(value: T) | Err(message: string)

  const USIZE_MAX: nat := 0xFFFF_FFFF_FFFF_FFFF

  function Max(a: int, b: int): int {
    if a < b then b else a
  }

  function Min(a: int, b: int): int {
    if a < b then a else b
  }

  function Flatten<T>(xss: seq<seq<T>>): seq<T> {
    if xss == [] then [] else xss[0] + Flatten(xss[1..])
  }

  lemma {:induction false} FlattenConcat<T>(xss: seq<seq<T>>, yss: seq<seq<T>>)
    ensures Flatten(xss + yss) == Flatten(xss) + Flatten(yss)
  {
    if xss == [] {
      assert xss + yss == yss;
    } else {
      assert (xss + yss)[1..] == xss[1..] + yss;
      FlattenConcat(xss[1..], yss);
    }
  }

  lemma FlattenSnoc<T>(xss: seq<seq<T>>, xs: seq<T>)
    ensures Flatten(xss + [xs]) == Flatten(xss) + xs
  {
    FlattenConcat(xss, [xs]);
    assert Flatten([xs]) == xs + Flatten<T>([]);
  }

  function MapSeq<A, B>(f: A -> B, xs: seq<A>): (ys: seq<B>)
    ensures |ys| == |xs|
    ensures forall i :: 0 <= i < |xs| ==> ys[i] == f(xs[i])
  {
    seq(|xs|, i requires 0 <= i < |xs| => f(xs[i]))
  }

  lemma MultisetMember<T>(xs: seq<T>, ys: seq<T>, x: T)
    requires multiset(xs) == multiset(ys)
    ensures x in xs <==> x in ys
  {
    assert x in multiset(xs) <==> x in multiset(ys);
  }

  /** The indices 0, 1, ..., n - 1. */
  function Range(n: nat): (r: seq<nat>)
    ensures |r| == n
    ensures forall i :: 0 <= i < n ==> r[i] == i
  {
    seq(n, i => i)
  }

  /** The set of the numbers below n. */
  function UpTo(n: nat): (s: set<nat>)
    ensures |s| == n
    ensures forall i: nat :: i in s <==> i < n
  {
    if n == 0 then {} else UpTo(n - 1) + {n - 1}
  }

  /** An injection from the first `m` numbers into the first `n` forces m <= n. */
  lemma {:induction false} Pigeonhole(m: nat, n: nat, f: nat -> nat)
    requires forall i :: 0 <= i < m ==> f(i) < n
    requires forall i, j :: 0 <= i < j < m ==> f(i) != f(j)
    ensures m <= n
  {
    var image := set i | 0 <= i < m :: f(i);
    ImageSize(m, f, image);
    SubsetSize(image, UpTo(n));
  }

  lemma {:induction false} ImageSize(m: nat, f: nat -> nat, image: set<nat>)
    requires image == set i | 0 <= i < m :: f(i)
    requires forall i, j :: 0 <= i < j < m ==> f(i) != f(j)
    ensures |image| == m
  {
    if m > 0 {
      var smaller := set i | 0 <= i < m - 1 :: f(i);
      ImageSize(m - 1, f, smaller);
      assert image == smaller + {f(m - 1)};
    }
  }

  lemma {:induction false} SubsetSize<T>(a: set<T>, b: set<T>)
    requires a <= b
    ensures |a| <= |b|
  {
    if a != {} {
      var x :| x in a;
      SubsetSize(a - {x}, b - {x});
    }
  }
}
