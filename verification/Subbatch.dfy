/** Splitting one request into sub-batches of similar length, widest first. */
module Subbatch {
  import opened Common
  import opened SeqLen
  import opened Sorting

  /** The configured ratio; a garbage setting may be not-a-number. */
  datatype Ratio = NaN | Value(r: real)

  predicate Splits(ratio: Ratio) {
    ratio.Value? && ratio.r > 1.0
  }

  /** A zero-length sequence counts as one token. */
  function Width(lens: seq<nat>, i: nat): (w: nat)
    ensures w >= 1
  {
    if i < |lens| then Max(lens[i], 1) else 1
  }

  predicate Admits(widest: nat, len: nat, r: real)
    requires len >= 1
  {
    widest as real / len as real <= r
  }

  function LenKey(lens: seq<nat>): nat -> real {
    (i: nat) => if i < |lens| then lens[i] as real else 0.0
  }

  /** The indices, longest first, ties by index. */
  function Order(lens: seq<nat>): seq<nat> {
    SortDesc(Range(|lens|), LenKey(lens))
  }

  ghost predicate Indices<T>(g: seq<nat>, xs: seq<T>) {
    forall i :: i in g ==> i < |xs|
  }

  /** One length is at most r times the other, where zero counts as one. */
  ghost predicate Near(x: nat, y: nat, r: real) {
    (if x == 0 then 1 else x) as real <= r * (if y == 0 then 1 else y) as real
  }

  /** The longest member is within the ratio of the shortest: of any two. */
  ghost predicate WithinRatio(g: seq<nat>, lens: seq<nat>, r: real) {
    forall a, b :: a in g && b in g && a < |lens| && b < |lens| ==> Near(lens[a], lens[b], r)
  }

  /** Longest first, equal lengths by index. */
  ghost predicate WidestFirst(flat: seq<nat>, lens: seq<nat>) {
    forall i, j :: 0 <= i < j < |flat| ==> Ahead(flat[i], flat[j], lens)
  }

  ghost predicate Ahead(a: nat, b: nat, lens: seq<nat>) {
    a < |lens| && b < |lens| && (lens[a] > lens[b] || (lens[a] == lens[b] && a < b))
  }

  lemma AdmitsByProduct(widest: nat, len: nat, r: real)
    requires len >= 1
    ensures Admits(widest, len, r) <==> widest as real <= r * len as real
  {
    var x, y := widest as real, len as real;
    assert x / y * y == x;
    if x / y <= r {
      assert x / y * y <= r * y;
    } else {
      assert x / y * y > r * y;
    }
  }

  /** A group led by its widest member. */
  ghost predicate Led(g: seq<nat>, lens: seq<nat>, r: real) {
    g != [] && Indices(g, lens) &&
    forall b :: b in g ==> Width(lens, b) <= Width(lens, g[0]) && Admits(Width(lens, g[0]), Width(lens, b), r)
  }

  /** The leader of `h` was refused by the group led by that of `g`. */
  ghost predicate Refused(g: seq<nat>, h: seq<nat>, lens: seq<nat>, r: real) {
    g != [] && h != [] && !Admits(Width(lens, g[0]), Width(lens, h[0]), r)
  }

  /** What the planner returns. */
  ghost predicate IsPlan(groups: seq<seq<nat>>, lens: seq<nat>, ratio: Ratio) {
    if lens == [] then groups == []
    else if !Splits(ratio) then groups == [Range(|lens|)]
    else
      && Flatten(groups) == Order(lens)
      && (forall k :: 0 <= k < |groups| ==> Led(groups[k], lens, ratio.r))
      && (forall k :: 0 < k < |groups| ==> Refused(groups[k - 1], groups[k], lens, ratio.r))
  }

  lemma OrderFacts(lens: seq<nat>)
    ensures |Order(lens)| == |lens| && Indices(Order(lens), lens)
    ensures multiset(Order(lens)) == multiset(Range(|lens|))
    ensures StablyDescending(Order(lens), LenKey(lens), i => i)
  {
    SortPermutes(Range(|lens|), LenKey(lens));
    SortIsStable(Range(|lens|), LenKey(lens), i => i);
    forall i: nat | i in Order(lens)
      ensures i < |lens|
    {
      SortMember<nat>(Range(|lens|), LenKey(lens), i);
      assert i in Range(|lens|);
    }
  }

  lemma OrderNarrows(lens: seq<nat>, i: nat, j: nat)
    requires i < j < |Order(lens)|
    ensures Width(lens, Order(lens)[i]) >= Width(lens, Order(lens)[j])
  {
    OrderFacts(lens);
    var a, b := Order(lens)[i], Order(lens)[j];
    assert Before(a, b, LenKey(lens), i => i);
    assert a in Order(lens) && b in Order(lens);
  }

  /** The first n indices in order have been placed: the finished groups and the
      one being filled, which is led by the first index it received. */
  ghost predicate Placed(groups: seq<seq<nat>>, current: seq<nat>, n: nat, lens: seq<nat>, r: real) {
    && n <= |Order(lens)|
    && Flatten(groups) + current == Order(lens)[..n]
    && (forall k :: 0 <= k < |groups| ==> Led(groups[k], lens, r))
    && (forall k :: 0 < k < |groups| ==> Refused(groups[k - 1], groups[k], lens, r))
    && (n == 0 ==> groups == [] && current == [])
    && (n > 0 ==> Led(current, lens, r))
    && (groups != [] ==> Refused(groups[|groups| - 1], current, lens, r))
  }

  lemma SingleLed(i: nat, lens: seq<nat>, r: real)
    requires r > 1.0 && i < |lens|
    ensures Led([i], lens, r)
  {
    AdmitsByProduct(Width(lens, i), Width(lens, i), r);
  }

  /** The next index opens the first group. */
  lemma PlaceFirst(lens: seq<nat>, r: real)
    requires r > 1.0 && lens != []
    ensures |Order(lens)| == |lens| && Placed([], [Order(lens)[0]], 1, lens, r)
  {
    OrderFacts(lens);
    assert Order(lens)[0] in Order(lens);
    SingleLed(Order(lens)[0], lens, r);
    assert Order(lens)[..1] == [Order(lens)[0]];
  }

  /** The next index joins the current group. */
  lemma PlaceJoin(groups: seq<seq<nat>>, current: seq<nat>, n: nat, lens: seq<nat>, r: real)
    requires 0 < n < |Order(lens)| && Placed(groups, current, n, lens, r)
    requires Admits(Width(lens, current[0]), Width(lens, Order(lens)[n]), r)
    ensures Placed(groups, current + [Order(lens)[n]], n + 1, lens, r)
  {
    var order, i := Order(lens), Order(lens)[n];
    OrderFacts(lens);
    assert i in order;
    assert order[..n + 1] == order[..n] + [i];
    var m := |Flatten(groups)|;
    assert order[..n][m] == current[0];
    OrderNarrows(lens, m, n);
    assert (current + [i])[0] == current[0];
  }

  lemma RefusedSnoc(groups: seq<seq<nat>>, current: seq<nat>, lens: seq<nat>, r: real)
    requires forall k :: 0 < k < |groups| ==> Refused(groups[k - 1], groups[k], lens, r)
    requires groups != [] ==> Refused(groups[|groups| - 1], current, lens, r)
    ensures var all := groups + [current];
            forall k :: 0 < k < |all| ==> Refused(all[k - 1], all[k], lens, r)
  {
    var all := groups + [current];
    forall k | 0 < k < |all|
      ensures Refused(all[k - 1], all[k], lens, r)
    {
      assert all[k - 1] == groups[k - 1];
    }
  }

  /** The next index opens a new group. */
  lemma PlaceCut(groups: seq<seq<nat>>, current: seq<nat>, n: nat, lens: seq<nat>, r: real)
    requires r > 1.0 && 0 < n < |Order(lens)| && Placed(groups, current, n, lens, r)
    requires !Admits(Width(lens, current[0]), Width(lens, Order(lens)[n]), r)
    ensures Placed(groups + [current], [Order(lens)[n]], n + 1, lens, r)
  {
    var order, i := Order(lens), Order(lens)[n];
    OrderFacts(lens);
    assert i in order;
    SingleLed(i, lens, r);
    FlattenSnoc(groups, current);
    assert order[..n + 1] == order[..n] + [i];
    RefusedSnoc(groups, current, lens, r);
  }

  lemma LedSnoc(groups: seq<seq<nat>>, current: seq<nat>, lens: seq<nat>, r: real)
    requires Led(current, lens, r) && forall k :: 0 <= k < |groups| ==> Led(groups[k], lens, r)
    ensures var all := groups + [current];
            forall k :: 0 <= k < |all| ==> Led(all[k], lens, r)
  {
  }

  /** When every index is placed, the groups are the plan. */
  lemma PlaceLast(groups: seq<seq<nat>>, current: seq<nat>, lens: seq<nat>, ratio: Ratio)
    requires lens != [] && Splits(ratio) && Placed(groups, current, |Order(lens)|, lens, ratio.r)
    ensures IsPlan(groups + [current], lens, ratio)
  {
    OrderFacts(lens);
    FlattenSnoc(groups, current);
    var order := Order(lens);
    assert order[..|order|] == order;
    LedSnoc(groups, current, lens, ratio.r);
    RefusedSnoc(groups, current, lens, ratio.r);
  }

  /** The loop's variables after n indices. */
  ghost predicate Filling(groups: seq<seq<nat>>, current: seq<nat>, widest: nat, n: nat, lens: seq<nat>, r: real) {
    && Placed(groups, current, n, lens, r)
    && (current == [] <==> n == 0)
    && (current != [] ==> widest == Width(lens, current[0]))
  }

  lemma FillNone(lens: seq<nat>, r: real)
    ensures Filling([], [], 0, 0, lens, r)
  {
  }

  lemma FillFirst(groups: seq<seq<nat>>, lens: seq<nat>, widest: nat, r: real)
    requires r > 1.0 && 0 < |Order(lens)| == |lens| && Filling(groups, [], widest, 0, lens, r)
    ensures Filling(groups, [Order(lens)[0]], Width(lens, Order(lens)[0]), 1, lens, r)
  {
    PlaceFirst(lens, r);
  }

  lemma FillJoin(groups: seq<seq<nat>>, current: seq<nat>, widest: nat, n: nat, lens: seq<nat>, r: real)
    requires n < |Order(lens)| && current != [] && Filling(groups, current, widest, n, lens, r)
    requires Admits(widest, Width(lens, Order(lens)[n]), r)
    ensures Filling(groups, current + [Order(lens)[n]], widest, n + 1, lens, r)
  {
    PlaceJoin(groups, current, n, lens, r);
    assert (current + [Order(lens)[n]])[0] == current[0];
  }

  lemma FillCut(groups: seq<seq<nat>>, current: seq<nat>, widest: nat, n: nat, lens: seq<nat>, r: real)
    requires r > 1.0 && n < |Order(lens)| && current != [] && Filling(groups, current, widest, n, lens, r)
    requires !Admits(widest, Width(lens, Order(lens)[n]), r)
    ensures Filling(groups + [current], [Order(lens)[n]], Width(lens, Order(lens)[n]), n + 1, lens, r)
  {
    PlaceCut(groups, current, n, lens, r);
  }

  /** What the loop does with the next index. */
  method PlaceNext(groups: seq<seq<nat>>, current: seq<nat>, widest: nat, i: nat, lens: seq<nat>, r: real, ghost n: nat)
    returns (groups': seq<seq<nat>>, current': seq<nat>, widest': nat)
    requires r > 1.0 && n < |Order(lens)| == |lens| && i == Order(lens)[n] && i < |lens|
    requires Filling(groups, current, widest, n, lens, r)
    ensures Filling(groups', current', widest', n + 1, lens, r)
  {
    var len := Max(lens[i], 1);
    if current == [] {
      FillFirst(groups, lens, widest, r);
      return groups, [i], len;
    }
    if Admits(widest, len, r) {
      FillJoin(groups, current, widest, n, lens, r);
      return groups, current + [i], widest;
    }
    FillCut(groups, current, widest, n, lens, r);
    return groups + [current], [i], len;
  }

  lemma FillLast(groups: seq<seq<nat>>, current: seq<nat>, widest: nat, lens: seq<nat>, ratio: Ratio)
    requires lens != [] && Splits(ratio) && Filling(groups, current, widest, |Order(lens)|, lens, ratio.r)
    ensures IsPlan(groups + [current], lens, ratio)
  {
    PlaceLast(groups, current, lens, ratio);
  }

  /** The greedy loop of the planner. */
  method PlanSubbatches(lens: seq<nat>, ratio: Ratio) returns (groups: seq<seq<nat>>)
    ensures IsPlan(groups, lens, ratio)
    ensures multiset(Flatten(groups)) == multiset(Range(|lens|))
    ensures ratio.Value? && ratio.r > 1.0 ==> SplitWithin(groups, lens, ratio.r)
    ensures ratio.NaN? || ratio.r <= 1.0 ==> |groups| == if lens == [] then 0 else 1
  {
    if lens == [] {
      groups := [];
    } else if !Splits(ratio) {
      groups := [Range(|lens|)];
    } else {
      groups := FillGroups(lens, ratio);
    }
    PlanPartitions(groups, lens, ratio);
  }

  method FillGroups(lens: seq<nat>, ratio: Ratio) returns (groups: seq<seq<nat>>)
    requires lens != [] && Splits(ratio)
    ensures IsPlan(groups, lens, ratio)
  {
    var order := Order(lens);
    OrderFacts(lens);
    groups := [];
    var current: seq<nat>, widest: nat := [], 0;
    FillNone(lens, ratio.r);
    for n := 0 to |order|
      invariant Filling(groups, current, widest, n, lens, ratio.r)
    {
      assert order[n] in order;
      groups, current, widest := PlaceNext(groups, current, widest, order[n], lens, ratio.r, n);
    }
    FillLast(groups, current, widest, lens, ratio);
    groups := groups + [current];
  }

  // ---- The plan is a partition within the ratio ----

  lemma RatioMono(a: nat, w: nat, b: nat, r: real)
    requires b >= 1 && a <= w && Admits(w, b, r)
    ensures Admits(a, b, r)
  {
    AdmitsByProduct(a, b, r);
    AdmitsByProduct(w, b, r);
  }

  lemma AdmitsIsNear(lens: seq<nat>, a: nat, b: nat, r: real)
    requires a < |lens| && b < |lens|
    ensures Admits(Width(lens, a), Width(lens, b), r) <==> Near(lens[a], lens[b], r)
  {
    AdmitsByProduct(Width(lens, a), Width(lens, b), r);
  }

  lemma LedWithinRatio(g: seq<nat>, lens: seq<nat>, r: real)
    requires Led(g, lens, r)
    ensures WithinRatio(g, lens, r)
  {
    forall a, b | a in g && b in g && a < |lens| && b < |lens|
      ensures Near(lens[a], lens[b], r)
    {
      RatioMono(Width(lens, a), Width(lens, g[0]), Width(lens, b), r);
      AdmitsIsNear(lens, a, b, r);
    }
  }

  lemma InOrder(lens: seq<nat>, i: nat, j: nat)
    requires i < j < |Order(lens)|
    ensures Ahead(Order(lens)[i], Order(lens)[j], lens)
  {
    OrderFacts(lens);
    var a, b := Order(lens)[i], Order(lens)[j];
    assert a in Order(lens) && b in Order(lens);
    assert Before(a, b, LenKey(lens), i => i);
  }

  lemma OrderIsWidestFirst(lens: seq<nat>)
    ensures WidestFirst(Order(lens), lens)
  {
    var order := Order(lens);
    forall i, j | 0 <= i < j < |order|
      ensures Ahead(order[i], order[j], lens)
    {
      InOrder(lens, i, j);
    }
  }

  /** Groups that are the indices, each exactly once, longest first with ties by
      index, cut into non-empty groups each within the ratio. */
  ghost predicate SplitWithin(groups: seq<seq<nat>>, lens: seq<nat>, r: real) {
    && WidestFirst(Flatten(groups), lens)
    && forall k :: 0 <= k < |groups| ==> groups[k] != [] && Indices(groups[k], lens) && WithinRatio(groups[k], lens, r)
  }

  /** A plan holds every index exactly once. For a ratio above one it is split
      within the ratio; for any other, not-a-number included, it is one group. */
  lemma {:induction false} PlanPartitions(groups: seq<seq<nat>>, lens: seq<nat>, ratio: Ratio)
    requires IsPlan(groups, lens, ratio)
    ensures multiset(Flatten(groups)) == multiset(Range(|lens|))
    ensures ratio.Value? && ratio.r > 1.0 ==> SplitWithin(groups, lens, ratio.r)
    ensures ratio.NaN? || ratio.r <= 1.0 ==> groups == if lens == [] then [] else [Range(|lens|)]
  {
    if lens != [] {
      if Splits(ratio) {
        OrderFacts(lens);
        OrderIsWidestFirst(lens);
        forall k | 0 <= k < |groups|
          ensures groups[k] != [] && Indices(groups[k], lens) && WithinRatio(groups[k], lens, ratio.r)
        {
          LedWithinRatio(groups[k], lens, ratio.r);
        }
      } else {
        assert groups[1..] == [];
        assert Flatten(groups) == Range(|lens|);
      }
    } else {
      assert Range(0) == [];
      assert Flatten(groups) == Range(|lens|);
    }
  }

  // ---- Greedy is optimal ----

  ghost predicate Covered(part: seq<seq<nat>>, x: nat) {
    exists k :: 0 <= k < |part| && x in part[k]
  }

  /** Every index lies in some group, and every group is within the ratio. */
  ghost predicate Covers(part: seq<seq<nat>>, lens: seq<nat>, r: real) {
    && (forall k :: 0 <= k < |part| ==> Indices(part[k], lens) && WithinRatio(part[k], lens, r))
    && (forall i: nat :: i < |lens| ==> Covered(part, i))
  }

  /** Index of the first group containing x. */
  function GroupOf(part: seq<seq<nat>>, x: nat): (k: nat)
    ensures Covered(part, x) ==> k < |part| && x in part[k]
  {
    if part == [] || x in part[0] then 0
    else
      assert Covered(part, x) ==> Covered(part[1..], x) by {
        if j :| 0 <= j < |part| && x in part[j] {
          assert part[1..][j - 1] == part[j];
        }
      }
      1 + GroupOf(part[1..], x)
  }

  /** Leaders of different groups are never within the ratio of each other. */
  lemma {:induction false} LeadersApart(groups: seq<seq<nat>>, lens: seq<nat>, r: real, j: nat, k: nat)
    requires r > 1.0 && j < k < |groups|
    requires forall m :: 0 <= m < |groups| ==> Led(groups[m], lens, r)
    requires forall m :: 0 < m < |groups| ==> Refused(groups[m - 1], groups[m], lens, r)
    ensures groups[j] != [] && groups[k] != []
    ensures !Admits(Width(lens, groups[j][0]), Width(lens, groups[k][0]), r)
    ensures Width(lens, groups[j][0]) > Width(lens, groups[k][0])
    decreases k - j
  {
    assert groups[j][0] in groups[j] && groups[k][0] in groups[k];
    assert Refused(groups[k - 1], groups[k], lens, r);
    assert groups[k - 1][0] in groups[k - 1];
    var a, b, c := Width(lens, groups[j][0]), Width(lens, groups[k - 1][0]), Width(lens, groups[k][0]);
    RefusedIsWider(b, c, r);
    if j < k - 1 {
      LeadersApart(groups, lens, r, j, k - 1);
      if Admits(a, c, r) {
        RatioMono(b, a, c, r);
      }
    }
  }

  lemma RefusedIsWider(b: nat, c: nat, r: real)
    requires c >= 1 && r > 1.0 && !Admits(b, c, r)
    ensures b > c
  {
    AdmitsByProduct(b, c, r);
    assert r * c as real >= c as real;
  }

  /** No way of covering the indices by groups within the ratio uses fewer groups
      than the greedy plan. */
  lemma GreedyIsOptimal(groups: seq<seq<nat>>, lens: seq<nat>, ratio: Ratio, part: seq<seq<nat>>)
    requires ratio.Value? && ratio.r > 1.0 && IsPlan(groups, lens, ratio) && Covers(part, lens, ratio.r)
    ensures |groups| <= |part|
  {
    if lens != [] {
      var f := (k: nat) => if k < |groups| && groups[k] != [] then GroupOf(part, groups[k][0]) else 0;
      forall k | 0 <= k < |groups|
        ensures f(k) < |part| && groups[k][0] in part[f(k)]
      {
        assert Led(groups[k], lens, ratio.r) && groups[k][0] in groups[k];
      }
      forall j, k | 0 <= j < k < |groups|
        ensures f(j) != f(k)
      {
        LeadersApart(groups, lens, ratio.r, j, k);
        assert groups[j][0] in groups[j] && groups[k][0] in groups[k];
        AdmitsIsNear(lens, groups[j][0], groups[k][0], ratio.r);
      }
      Pigeonhole(|groups|, |part|, f);
    }
  }

  // ---- Padding ----

  function Len(lens: seq<nat>, i: nat): nat {
    if i < |lens| then lens[i] else 0
  }

  function Widest(g: seq<nat>, lens: seq<nat>): nat {
    if g == [] then 0 else Max(Len(lens, g[0]), Widest(g[1..], lens))
  }

  /** Tokens of the sequences of a group. */
  function RealOf(g: seq<nat>, lens: seq<nat>): nat {
    if g == [] then 0 else Len(lens, g[0]) + RealOf(g[1..], lens)
  }

  /** Cells of the tensors the groups are padded to, each to its own width. */
  function Padded(groups: seq<seq<nat>>, lens: seq<nat>, maxLen: nat): nat {
    if groups == [] then 0
    else |groups[0]| * RoundUp(Widest(groups[0], lens), maxLen) + Padded(groups[1..], lens, maxLen)
  }

  lemma {:induction false} RealConcat(xs: seq<nat>, ys: seq<nat>, lens: seq<nat>)
    ensures RealOf(xs + ys, lens) == RealOf(xs, lens) + RealOf(ys, lens)
  {
    if xs == [] {
      assert xs + ys == ys;
    } else {
      assert (xs + ys)[1..] == xs[1..] + ys;
      RealConcat(xs[1..], ys, lens);
    }
  }

  lemma MultisetCancel(x: nat, a: multiset<nat>, b: multiset<nat>)
    requires multiset{x} + a == multiset{x} + b
    ensures a == b
  {
    forall y
      ensures a[y] == b[y]
    {
      assert (multiset{x} + a)[y] == (multiset{x} + b)[y];
    }
  }

  /** The token count does not depend on the order of the sequences. */
  lemma {:induction false} RealPermutes(xs: seq<nat>, ys: seq<nat>, lens: seq<nat>)
    requires multiset(xs) == multiset(ys)
    ensures RealOf(xs, lens) == RealOf(ys, lens)
  {
    if xs == [] {
      assert |multiset(ys)| == 0;
    } else {
      assert xs[0] in multiset(xs);
      assert xs[0] in ys;
      var k :| 0 <= k < |ys| && ys[k] == xs[0];
      var pre, post := ys[..k], ys[k + 1..];
      assert ys == pre + ([xs[0]] + post);
      assert xs == [xs[0]] + xs[1..];
      assert multiset(xs) == multiset{xs[0]} + multiset(xs[1..]);
      assert multiset(ys) == multiset{xs[0]} + (multiset(pre) + multiset(post));
      assert multiset(pre + post) == multiset(pre) + multiset(post);
      MultisetCancel(xs[0], multiset(xs[1..]), multiset(pre + post));
      RealPermutes(xs[1..], pre + post, lens);
      RealConcat(pre, [xs[0]] + post, lens);
      RealConcat(pre, post, lens);
      assert ([xs[0]] + post)[1..] == post;
    }
  }

  lemma {:induction false} WidestBounds(g: seq<nat>, lens: seq<nat>, bound: nat)
    requires forall i :: i in g ==> Len(lens, i) <= bound
    ensures Widest(g, lens) <= bound
    ensures forall i :: i in g ==> Len(lens, i) <= Widest(g, lens)
  {
    if g != [] {
      assert g[0] in g;
      assert forall i :: i in g[1..] ==> i in g;
      WidestBounds(g[1..], lens, bound);
      assert g == [g[0]] + g[1..];
    }
  }

  /** The widest length of a group is that of a member. */
  lemma {:induction false} WidestAttained(g: seq<nat>, lens: seq<nat>)
    ensures if g == [] then Widest(g, lens) == 0 else exists i :: i in g && Len(lens, i) == Widest(g, lens)
  {
    if g != [] {
      WidestAttained(g[1..], lens);
      assert g[0] in g;
      assert forall i :: i in g[1..] ==> i in g;
    }
  }

  /** Cells of the rows of a group, each `w` wide. */
  function Cells(g: seq<nat>, w: nat): nat {
    if g == [] then 0 else w + Cells(g[1..], w)
  }

  lemma {:induction false} CellsIsProduct(g: seq<nat>, w: nat)
    ensures Cells(g, w) == |g| * w
  {
    if g != [] {
      CellsIsProduct(g[1..], w);
      NatDistrib(1, |g[1..]|, w);
    }
  }

  lemma NatDistrib(a: nat, b: nat, w: nat)
    ensures (a + b) * w == a * w + b * w
  {
  }

  lemma {:induction false} CellsMono(g: seq<nat>, v: nat, w: nat)
    requires v <= w
    ensures Cells(g, v) <= Cells(g, w)
  {
    if g != [] {
      CellsMono(g[1..], v, w);
    }
  }

  lemma {:induction false} CellsConcat(g: seq<nat>, h: seq<nat>, w: nat)
    ensures Cells(g + h, w) == Cells(g, w) + Cells(h, w)
  {
    if g == [] {
      assert g + h == h;
    } else {
      assert (g + h)[1..] == g[1..] + h;
      CellsConcat(g[1..], h, w);
    }
  }

  /** A group's tokens fit its tensor. */
  lemma {:induction false} RealFits(g: seq<nat>, lens: seq<nat>, w: nat)
    requires forall i :: i in g ==> Len(lens, i) <= w
    ensures RealOf(g, lens) <= Cells(g, w)
  {
    if g != [] {
      var rest := g[1..];
      assert forall i :: i in rest ==> i in g;
      RealFits(rest, lens, w);
    }
  }

  /** The tokens of a group's sequences, each scaled by c. */
  function Scaled(g: seq<nat>, lens: seq<nat>, c: real): real {
    if g == [] then 0.0 else c * Len(lens, g[0]) as real + Scaled(g[1..], lens, c)
  }

  lemma {:induction false} ScaledIsProduct(g: seq<nat>, lens: seq<nat>, c: real)
    ensures Scaled(g, lens, c) == c * RealOf(g, lens) as real
  {
    if g != [] {
      ScaledIsProduct(g[1..], lens, c);
      RealDistrib(c, Len(lens, g[0]) as real, RealOf(g[1..], lens) as real);
    }
  }

  lemma RealDistrib(c: real, a: real, b: real)
    ensures c * (a + b) == c * a + c * b
  {
  }

  lemma {:induction false} ScaledConcat(g: seq<nat>, h: seq<nat>, lens: seq<nat>, c: real)
    ensures Scaled(g + h, lens, c) == Scaled(g, lens, c) + Scaled(h, lens, c)
  {
    if g == [] {
      assert g + h == h;
    } else {
      assert (g + h)[1..] == g[1..] + h;
      ScaledConcat(g[1..], h, lens, c);
    }
  }

  /** Rows that are each narrower than their scaled tokens are so together. */
  lemma {:induction false} CellsBelowScaled(g: seq<nat>, lens: seq<nat>, w: nat, c: real)
    requires forall i :: i in g ==> (w as real) < c * Len(lens, i) as real
    ensures Cells(g, w) as real <= Scaled(g, lens, c)
    ensures g != [] ==> (Cells(g, w) as real) < Scaled(g, lens, c)
  {
    if g != [] {
      var rest := g[1..];
      assert g[0] in g;
      assert forall i :: i in rest ==> i in g;
      CellsBelowScaled(rest, lens, w, c);
    }
  }

  ghost predicate Capped(groups: seq<seq<nat>>, lens: seq<nat>, bound: nat) {
    forall k, i :: 0 <= k < |groups| && i in groups[k] ==> Len(lens, i) <= bound
  }

  /** Padding covers the real tokens and never exceeds padding everything to one
      width that covers all sequences. */
  lemma {:induction false} PaddedBetween(groups: seq<seq<nat>>, lens: seq<nat>, maxLen: nat, bound: nat)
    requires maxLen >= 1 && bound <= maxLen && Capped(groups, lens, bound)
    ensures RealOf(Flatten(groups), lens) <= Padded(groups, lens, maxLen)
    ensures Padded(groups, lens, maxLen) <= Cells(Flatten(groups), RoundUp(bound, maxLen))
  {
    if groups != [] {
      var g, rest := groups[0], groups[1..];
      assert forall k :: 0 <= k < |rest| ==> rest[k] == groups[k + 1];
      PaddedBetween(rest, lens, maxLen, bound);
      GroupBetween(g, lens, maxLen, bound);
      RealConcat(g, Flatten(rest), lens);
      CellsConcat(g, Flatten(rest), RoundUp(bound, maxLen));
    }
  }

  lemma GroupBetween(g: seq<nat>, lens: seq<nat>, maxLen: nat, bound: nat)
    requires maxLen >= 1 && bound <= maxLen && forall i :: i in g ==> Len(lens, i) <= bound
    ensures RealOf(g, lens) <= |g| * RoundUp(Widest(g, lens), maxLen) <= Cells(g, RoundUp(bound, maxLen))
  {
    WidestBounds(g, lens, bound);
    var w := RoundUp(Widest(g, lens), maxLen);
    RoundUpBounds(Widest(g, lens), maxLen);
    RealFits(g, lens, w);
    RoundUpMonotone(Widest(g, lens), bound, maxLen);
    CellsMono(g, w, RoundUp(bound, maxLen));
    CellsIsProduct(g, w);
  }

  lemma {:induction false} PaddedWithinRatio(groups: seq<seq<nat>>, lens: seq<nat>, maxLen: nat, r: real, c: real)
    requires maxLen >= 1 && r > 1.0
    requires forall k :: 0 <= k < |groups| ==> Led(groups[k], lens, r)
    requires forall i: nat :: i < |lens| ==> 1 <= lens[i] <= maxLen
    requires c == 2.0 * r
    ensures Padded(groups, lens, maxLen) as real <= Scaled(Flatten(groups), lens, c)
    ensures groups != [] ==> (Padded(groups, lens, maxLen) as real) < Scaled(Flatten(groups), lens, c)
  {
    if groups != [] {
      var g, rest := groups[0], groups[1..];
      assert forall k :: 0 <= k < |rest| ==> rest[k] == groups[k + 1];
      PaddedWithinRatio(rest, lens, maxLen, r, c);
      LedPadding(g, lens, maxLen, r, c);
      ScaledConcat(g, Flatten(rest), lens, c);
    }
  }

  lemma LedPadding(g: seq<nat>, lens: seq<nat>, maxLen: nat, r: real, c: real)
    requires c == 2.0 * r && maxLen >= 1 && r > 1.0 && Led(g, lens, r)
    requires forall i: nat :: i < |lens| ==> 1 <= lens[i] <= maxLen
    ensures ((|g| * RoundUp(Widest(g, lens), maxLen)) as real) < Scaled(g, lens, c)
  {
    LedWidth(g, lens, maxLen, r);
    var w := RoundUp(Widest(g, lens), maxLen);
    LedMembers(g, lens, w, r, c);
    CellsBelowScaled(g, lens, w, c);
    CellsIsProduct(g, w);
  }

  lemma LedMembers(g: seq<nat>, lens: seq<nat>, w: nat, r: real, c: real)
    requires c == 2.0 * r && Led(g, lens, r) && w < 2 * Width(lens, g[0])
    requires forall i: nat :: i < |lens| ==> 1 <= lens[i]
    ensures forall i :: i in g ==> (w as real) < c * Len(lens, i) as real
  {
    forall i | i in g
      ensures (w as real) < c * Len(lens, i) as real
    {
      MemberPadding(w, Width(lens, g[0]), Len(lens, i), r, c);
    }
  }

  lemma LedWidth(g: seq<nat>, lens: seq<nat>, maxLen: nat, r: real)
    requires maxLen >= 1 && Led(g, lens, r)
    requires forall i: nat :: i < |lens| ==> 1 <= lens[i] <= maxLen
    ensures RoundUp(Widest(g, lens), maxLen) < 2 * Width(lens, g[0])
  {
    var lead := Width(lens, g[0]);
    assert g[0] in g;
    forall i | i in g
      ensures Len(lens, i) <= lead
    {
      assert Width(lens, i) <= lead;
    }
    WidestBounds(g, lens, lead);
    RoundUpBounds(Widest(g, lens), maxLen);
  }

  lemma MemberPadding(w: nat, lead: nat, len: nat, r: real, c: real)
    requires c == 2.0 * r && w < 2 * lead && len >= 1 && Admits(lead, len, r)
    ensures (w as real) < c * len as real
  {
    AdmitsByProduct(lead, len, r);
    assert c * len as real == 2.0 * (r * len as real);
  }

  lemma LensAreOrder(lens: seq<nat>, groups: seq<seq<nat>>, ratio: Ratio)
    requires IsPlan(groups, lens, ratio)
    ensures RealOf(Flatten(groups), lens) == RealOf(Range(|lens|), lens) && |Flatten(groups)| == |lens|
  {
    PlanPartitions(groups, lens, ratio);
    RealPermutes(Flatten(groups), Range(|lens|), lens);
    assert |multiset(Flatten(groups))| == |multiset(Range(|lens|))|;
  }

  /** Padding of a plan over lengths capped at the context window: at least the
      real tokens, at most what a single pass would pad to. */
  lemma PaddingBounds(groups: seq<seq<nat>>, lens: seq<nat>, ratio: Ratio, maxLen: nat)
    requires maxLen >= 1 && IsPlan(groups, lens, ratio)
    requires forall i: nat :: i < |lens| ==> lens[i] <= maxLen
    ensures RealOf(Range(|lens|), lens) <= Padded(groups, lens, maxLen)
    ensures Padded(groups, lens, maxLen) <= |lens| * RoundUp(Widest(Range(|lens|), lens), maxLen)
  {
    LensAreOrder(lens, groups, ratio);
    var all := Range(|lens|);
    WidestBounds(all, lens, maxLen);
    var bound := Widest(all, lens);
    forall k, i | 0 <= k < |groups| && i in groups[k]
      ensures Len(lens, i) <= bound
    {
      if i < |lens| {
        assert all[i] == i && i in all;
      }
    }
    PaddedBetween(groups, lens, maxLen, bound);
    CellsIsProduct(Flatten(groups), RoundUp(bound, maxLen));
  }

  /** The padded cells are fewer than c times the real tokens. */
  predicate Below(padded: nat, tokens: nat, c: real) {
    (padded as real) < c * tokens as real
  }

  /** A request of non-empty texts that is split pads to less than twice the
      ratio times its real tokens. */
  lemma PaddingWithinRatio(groups: seq<seq<nat>>, lens: seq<nat>, ratio: Ratio, maxLen: nat)
    requires maxLen >= 1 && ratio.Value? && ratio.r > 1.0 && IsPlan(groups, lens, ratio) && lens != []
    requires forall i: nat :: i < |lens| ==> 1 <= lens[i] <= maxLen
    ensures Below(Padded(groups, lens, maxLen), RealOf(Range(|lens|), lens), 2.0 * ratio.r)
  {
    var c := 2.0 * ratio.r;
    var padded, tokens := Padded(groups, lens, maxLen), RealOf(Range(|lens|), lens);
    assert Below(padded, tokens, c) by {
      LensAreOrder(lens, groups, ratio);
      PlanScaled(groups, lens, ratio, maxLen, c);
      ScaledBelow(Flatten(groups), lens, padded, tokens, c);
    }
  }

  lemma ScaledBelow(flat: seq<nat>, lens: seq<nat>, padded: nat, tokens: nat, c: real)
    requires (padded as real) < Scaled(flat, lens, c) && RealOf(flat, lens) == tokens
    ensures Below(padded, tokens, c)
  {
    ScaledIsProduct(flat, lens, c);
  }

  lemma PlanScaled(groups: seq<seq<nat>>, lens: seq<nat>, ratio: Ratio, maxLen: nat, c: real)
    requires maxLen >= 1 && Splits(ratio) && IsPlan(groups, lens, ratio) && lens != [] && c == 2.0 * ratio.r
    requires forall i: nat :: i < |lens| ==> 1 <= lens[i] <= maxLen
    ensures (Padded(groups, lens, maxLen) as real) < Scaled(Flatten(groups), lens, c)
  {
    LensAreOrder(lens, groups, ratio);
    PaddedWithinRatio(groups, lens, maxLen, ratio.r, c);
  }
}
