/** Rerank: normalise scores in place, sort by score, cut to the requested size. */
module Rerank {
  import opened Common
  import opened Sorting

  const SIGMOID_CLAMP := 50.0

  datatype Mode = NoNormalize | Sigmoid

  function Clamp(x: real): real {
    if x < -SIGMOID_CLAMP then -SIGMOID_CLAMP else if x > SIGMOID_CLAMP then SIGMOID_CLAMP else x
  }

  /** What the sigmoid needs of the exponential. */
  ghost predicate IsExp(exp: real -> real) {
    (forall x :: exp(x) > 0.0) && forall x, y :: x < y ==> exp(x) < exp(y)
  }

  function Normalized(x: real, mode: Mode, exp: real -> real): real {
    match mode
    case NoNormalize => x
    case Sigmoid => var d := 1.0 + exp(-Clamp(x)); if d == 0.0 then 0.0 else 1.0 / d
  }

  method ApplyNormalize(scores: array<real>, mode: Mode, exp: real -> real)
    modifies scores
    ensures scores[..] == MapSeq((x: real) => Normalized(x, mode, exp), old(scores[..]))
  {
    match mode {
      case NoNormalize =>
      case Sigmoid =>
        for i := 0 to scores.Length
          invariant forall j :: 0 <= j < i ==> scores[j] == Normalized(old(scores[j]), mode, exp)
          invariant forall j :: i <= j < scores.Length ==> scores[j] == old(scores[j])
        {
          scores[i] := Normalized(scores[i], mode, exp);
        }
    }
  }

  lemma ReciprocalDecreases(a: real, b: real)
    requires 0.0 < a < b
    ensures 1.0 / b < 1.0 / a
  {
    assert 1.0 / a == b / (a * b) && 1.0 / b == a / (a * b);
  }

  /** On clamped values the sigmoid is strictly increasing, and that is all it keeps. */
  lemma SigmoidFollowsClamp(x: real, y: real, exp: real -> real)
    requires IsExp(exp)
    ensures Normalized(x, Sigmoid, exp) < Normalized(y, Sigmoid, exp) <==> Clamp(x) < Clamp(y)
    ensures Normalized(x, Sigmoid, exp) == Normalized(y, Sigmoid, exp) <==> Clamp(x) == Clamp(y)
  {
    var a, b := 1.0 + exp(-Clamp(x)), 1.0 + exp(-Clamp(y));
    if Clamp(x) < Clamp(y) {
      ReciprocalDecreases(b, a);
    } else if Clamp(y) < Clamp(x) {
      ReciprocalDecreases(a, b);
    }
  }

  /** The value: without normalising the logit itself, otherwise one over one plus
      the exponential of minus the logit, taken at 50 or -50 beyond them; always
      strictly between zero and one. */
  lemma NormalizedExactly(x: real, exp: real -> real)
    requires IsExp(exp)
    ensures Normalized(x, NoNormalize, exp) == x
    ensures -50.0 <= x <= 50.0 ==> Normalized(x, Sigmoid, exp) * (1.0 + exp(-x)) == 1.0
    ensures x > 50.0 ==> Normalized(x, Sigmoid, exp) == Normalized(50.0, Sigmoid, exp)
    ensures x < -50.0 ==> Normalized(x, Sigmoid, exp) == Normalized(-50.0, Sigmoid, exp)
    ensures 0.0 < Normalized(x, Sigmoid, exp) < 1.0
  {
    var d := 1.0 + exp(-Clamp(x));
    ReciprocalBelowOne(d);
    assert 1.0 / d * d == 1.0;
  }

  /** A logit of zero gives one half. */
  lemma ZeroIsHalf(exp: real -> real)
    requires IsExp(exp) && exp(0.0) == 1.0
    ensures Normalized(0.0, Sigmoid, exp) == 0.5
  {
    NormalizedExactly(0.0, exp);
    assert -0.0 == 0.0;
  }

  // ---- Sorting and cutting ----

  datatype Ranked = Ranked(index: nat, score: real, document: Option<string>)

  function ScoreKey(): Ranked -> real {
    (e: Ranked) => e.score
  }

  function IndexOf(): Ranked -> int {
    (e: Ranked) => e.index
  }

  function Entry(scores: seq<real>, documents: Option<seq<string>>, i: nat): Ranked
    requires i < |scores| && (documents.Some? ==> |scores| <= |documents.value|)
  {
    Ranked(i, scores[i], if documents.Some? then Some(documents.value[i]) else None)
  }

  /** The n best entries, best first, equal scores in input order. */
  ghost predicate IsTop(r: seq<Ranked>, scores: seq<real>, documents: Option<seq<string>>, n: nat)
    requires documents.Some? ==> |scores| <= |documents.value|
  {
    && |r| == Min(n, |scores|)
    && (forall k :: 0 <= k < |r| ==> r[k].index < |scores| && r[k] == Entry(scores, documents, r[k].index))
    && StablyDescending(r, ScoreKey(), IndexOf())
    && forall i: nat, k :: i < |scores| && 0 <= k < |r| && Entry(scores, documents, i) !in r ==>
         Before(r[k], Entry(scores, documents, i), ScoreKey(), IndexOf())
  }

  /** In plain words: as many results as asked for or as there are, each with its
      own score and document, best first with ties by index, none of the candidates
      left out better than any kept. */
  lemma TopInPlainWords(r: seq<Ranked>, scores: seq<real>, documents: Option<seq<string>>, n: nat)
    requires (documents.Some? ==> |scores| <= |documents.value|) && IsTop(r, scores, documents, n)
    ensures |r| == if n < |scores| then n else |scores|
    ensures forall k :: 0 <= k < |r| ==>
              && r[k].index < |scores| && r[k].score == scores[r[k].index]
              && (r[k].document == if documents.Some? then Some(documents.value[r[k].index]) else None)
    ensures forall j, k :: 0 <= j < k < |r| ==>
              r[j].score > r[k].score || (r[j].score == r[k].score && r[j].index < r[k].index)
    ensures forall i: nat, k :: i < |scores| && 0 <= k < |r| && Left(r, i) ==>
              r[k].score > scores[i] || (r[k].score == scores[i] && r[k].index < i)
  {
    forall j, k | 0 <= j < k < |r|
      ensures r[j].score > r[k].score || (r[j].score == r[k].score && r[j].index < r[k].index)
    {
      assert Before(r[j], r[k], ScoreKey(), IndexOf());
    }
    forall i: nat, k | i < |scores| && 0 <= k < |r| && Left(r, i)
      ensures r[k].score > scores[i] || (r[k].score == scores[i] && r[k].index < i)
    {
      assert Before(r[k], Entry(scores, documents, i), ScoreKey(), IndexOf());
    }
  }

  /** No result is for this index. */
  ghost predicate Left(r: seq<Ranked>, i: nat) {
    forall e :: e in r ==> e.index != i
  }

  /** What was cut off comes after what was kept. */
  lemma BeyondCut(sorted: seq<Ranked>, n: nat, k: nat, e: Ranked)
    requires k < n <= |sorted| && e in sorted && e !in sorted[..n]
    requires StablyDescending(sorted, ScoreKey(), IndexOf())
    ensures Before(sorted[k], e, ScoreKey(), IndexOf())
  {
    assert sorted == sorted[..n] + sorted[n..];
    var j :| n <= j < |sorted| && sorted[j] == e;
  }

  lemma SortedEntriesTop(all: seq<Ranked>, sorted: seq<Ranked>, scores: seq<real>,
                         documents: Option<seq<string>>, n: nat)
    requires documents.Some? ==> |scores| <= |documents.value|
    requires |all| == |scores| && forall i :: 0 <= i < |all| ==> all[i] == Entry(scores, documents, i)
    requires sorted == SortDesc(all, ScoreKey())
    ensures |sorted| == |scores| && IsTop(sorted[..Min(n, |scores|)], scores, documents, n)
  {
    SortPermutes(all, ScoreKey());
    SortIsStable(all, ScoreKey(), IndexOf());
    var r := sorted[..Min(n, |scores|)];
    forall k | 0 <= k < |r|
      ensures r[k].index < |scores| && r[k] == Entry(scores, documents, r[k].index)
    {
      assert sorted[k] in sorted;
      SortMember<Ranked>(all, ScoreKey(), sorted[k]);
    }
    forall i: nat, k | i < |scores| && 0 <= k < |r| && Entry(scores, documents, i) !in r
      ensures Before(r[k], Entry(scores, documents, i), ScoreKey(), IndexOf())
    {
      SortMember<Ranked>(all, ScoreKey(), all[i]);
      BeyondCut(sorted, |r|, k, all[i]);
    }
  }

  function KeyOf(scores: seq<real>): nat -> real {
    (i: nat) => if i < |scores| then scores[i] else 0.0
  }

  /** The input indices in ranking order. */
  function Order(scores: seq<real>): seq<nat> {
    SortDesc(Range(|scores|), KeyOf(scores))
  }

  /** The indices of the n best scores, best first. */
  function TopIndices(scores: seq<real>, n: nat): seq<nat> {
    Order(scores)[..Min(n, |Order(scores)|)]
  }

  function Indices(r: seq<Ranked>): seq<nat> {
    MapSeq((e: Ranked) => e.index, r)
  }

  /** Sorting the entries ranks the indices. */
  lemma EntriesFollowOrder(all: seq<Ranked>, scores: seq<real>, documents: Option<seq<string>>)
    requires documents.Some? ==> |scores| <= |documents.value|
    requires |all| == |scores| && forall i :: 0 <= i < |all| ==> all[i] == Entry(scores, documents, i)
    ensures Indices(SortDesc(all, ScoreKey())) == Order(scores)
  {
    var entries := Entries(scores, documents);
    assert MapSeq(entries, Range(|scores|)) == all;
    SortMap(Range(|scores|), entries, KeyOf(scores), ScoreKey());
    IndicesOfEntries(scores, documents, Order(scores));
  }

  /** The entry of every index, also beyond the scores. */
  function Entries(scores: seq<real>, documents: Option<seq<string>>): nat -> Ranked
    requires documents.Some? ==> |scores| <= |documents.value|
  {
    (i: nat) => if i < |scores| then Entry(scores, documents, i) else Ranked(i, 0.0, None)
  }

  lemma IndicesOfEntries(scores: seq<real>, documents: Option<seq<string>>, order: seq<nat>)
    requires documents.Some? ==> |scores| <= |documents.value|
    ensures Indices(MapSeq(Entries(scores, documents), order)) == order
  {
  }

  function Limit(topN: Option<nat>, count: nat): nat {
    if topN.Some? then topN.value else count
  }

  /** The results: the n best entries, in the order of the ranking of the scores. */
  method BuildSortedResults(scores: seq<real>, topN: Option<nat>, documents: Option<seq<string>>)
    returns (r: seq<Ranked>)
    requires documents.Some? ==> |scores| <= |documents.value|
    ensures IsTop(r, scores, documents, Limit(topN, |scores|))
    ensures Indices(r) == TopIndices(scores, Limit(topN, |scores|))
  {
    var scored: seq<Ranked> := [];
    for i := 0 to |scores|
      invariant |scored| == i
      invariant forall j :: 0 <= j < i ==> scored[j] == Entry(scores, documents, j)
    {
      scored := scored + [Entry(scores, documents, i)];
    }
    r := SortDesc(scored, ScoreKey());
    SortedEntriesTop(scored, r, scores, documents, Limit(topN, |scores|));
    EntriesFollowOrder(scored, scores, documents);
    ghost var sorted := r;
    if topN.Some? && topN.value < |r| {
      r := r[..topN.value];
    }
    assert r == sorted[..Min(Limit(topN, |scores|), |scores|)];
  }

  // ---- Normalising before sorting ----

  function NormalizedScores(scores: seq<real>, mode: Mode, exp: real -> real): seq<real> {
    MapSeq((x: real) => Normalized(x, mode, exp), scores)
  }

  lemma OrderFacts(scores: seq<real>)
    ensures multiset(Order(scores)) == multiset(Range(|scores|)) && |Order(scores)| == |scores|
    ensures StablyDescending(Order(scores), KeyOf(scores), (i: nat) => i)
    ensures forall i: nat :: i in Order(scores) <==> i < |scores|
  {
    SortPermutes(Range(|scores|), KeyOf(scores));
    SortIsStable(Range(|scores|), KeyOf(scores), (i: nat) => i);
    forall i: nat
      ensures i in Order(scores) <==> i < |scores|
    {
      SortMember<nat>(Range(|scores|), KeyOf(scores), i);
      assert i < |scores| ==> Range(|scores|)[i] == i;
    }
  }

  /** The clamp ties a score to a larger one that comes later in the input. */
  predicate TiedBehind(scores: seq<real>, i: nat, j: nat) {
    i < j < |scores| && Clamp(scores[i]) == Clamp(scores[j]) && scores[i] < scores[j]
  }

  /** Nothing is tied to a larger score behind it that is among the n best. */
  ghost predicate ClampKeepsTop(scores: seq<real>, n: nat) {
    forall i, j :: TiedBehind(scores, i, j) ==> j !in TopIndices(scores, n)
  }

  lemma BeforeNormalized(scores: seq<real>, exp: real -> real, a: nat, b: nat)
    requires IsExp(exp) && a < |scores| && b < |scores| && !TiedBehind(scores, b, a)
    requires Before(a, b, KeyOf(scores), (i: nat) => i)
    ensures Before(a, b, KeyOf(NormalizedScores(scores, Sigmoid, exp)), (i: nat) => i)
  {
    SigmoidFollowsClamp(scores[a], scores[b], exp);
    SigmoidFollowsClamp(scores[b], scores[a], exp);
  }

  /** The ranking of the normalised scores starts like that of the raw ones. */
  lemma TopKept(scores: seq<real>, n: nat, exp: real -> real)
    requires IsExp(exp) && ClampKeepsTop(scores, n)
    ensures TopIndices(NormalizedScores(scores, Sigmoid, exp), n) == TopIndices(scores, n)
  {
    var normalized := NormalizedScores(scores, Sigmoid, exp);
    OrderFacts(scores);
    OrderFacts(normalized);
    var raw, m := Order(scores), Min(n, |scores|);
    forall k, l | 0 <= k < l < |raw| && k < m
      ensures Before(raw[k], raw[l], KeyOf(normalized), (i: nat) => i)
    {
      assert raw[k] in raw && raw[l] in raw;
      assert TopIndices(scores, n)[k] == raw[k];
      assert Before(raw[k], raw[l], KeyOf(scores), (i: nat) => i);
      BeforeNormalized(scores, exp, raw[k], raw[l]);
    }
    LeadingUnique(Order(normalized), raw, m, KeyOf(normalized), (i: nat) => i);
  }

  /** The k-th of a list in stable order is before everything else but the first k. */
  lemma BeforeRest(order: seq<nat>, key: nat -> real, k: nat, i: nat)
    requires StablyDescending(order, key, (x: nat) => x) && k < |order|
    requires i in order && i !in order[..k] && i != order[k]
    ensures Before(order[k], i, key, (x: nat) => x)
  {
    assert order == order[..k] + order[k..];
    var l :| k < l < |order| && order[l] == i;
  }

  /** A tie with a larger score among the n best changes the first n results. */
  lemma TiedTopDiffers(scores: seq<real>, n: nat, exp: real -> real, i: nat, j: nat)
    requires IsExp(exp) && TiedBehind(scores, i, j) && j in TopIndices(scores, n)
    ensures TopIndices(NormalizedScores(scores, Sigmoid, exp), n) != TopIndices(scores, n)
  {
    var normalized := NormalizedScores(scores, Sigmoid, exp);
    OrderFacts(scores);
    OrderFacts(normalized);
    SigmoidFollowsClamp(scores[i], scores[j], exp);
    var k :| 0 <= k < |TopIndices(scores, n)| && TopIndices(scores, n)[k] == j;
    if TopIndices(normalized, n) == TopIndices(scores, n) {
      SameStart(Order(scores), Order(normalized), KeyOf(scores), KeyOf(normalized), Min(n, |scores|), k, i);
    }
  }

  /** Two orders with a common start agree on what its members are before. */
  lemma SameStart(raw: seq<nat>, order: seq<nat>, key: nat -> real, other: nat -> real, m: nat, k: nat, i: nat)
    requires StablyDescending(raw, key, (x: nat) => x) && StablyDescending(order, other, (x: nat) => x)
    requires k < m <= |raw| && m <= |order| && raw[..m] == order[..m]
    requires i in order && Before(raw[k], i, key, (x: nat) => x)
    ensures raw[k] == order[k] && Before(order[k], i, other, (x: nat) => x)
  {
    assert raw[k] == raw[..m][k] == order[..m][k] == order[k];
    assert raw[..k] == raw[..m][..k] == order[..m][..k] == order[..k];
    LaterInRaw(raw, key, k, i);
    BeforeRest(order, other, k, i);
  }

  lemma LaterInRaw(order: seq<nat>, key: nat -> real, k: nat, i: nat)
    requires StablyDescending(order, key, (x: nat) => x) && k < |order| && Before(order[k], i, key, (x: nat) => x)
    ensures i !in order[..k] && i != order[k]
  {
    forall l | 0 <= l < k
      ensures order[l] != i
    {
      assert Before(order[l], order[k], key, (x: nat) => x);
    }
  }

  /** For every n, normalising first gives the n results of the raw ranking
      exactly when no score is tied to a larger one behind it among them. */
  lemma NormalizedOrderExactly(scores: seq<real>, n: nat, exp: real -> real)
    requires IsExp(exp)
    ensures TopIndices(NormalizedScores(scores, Sigmoid, exp), n) == TopIndices(scores, n) <==> ClampKeepsTop(scores, n)
  {
    if ClampKeepsTop(scores, n) {
      TopKept(scores, n, exp);
    } else {
      var i, j :| TiedBehind(scores, i, j) && j in TopIndices(scores, n);
      TiedTopDiffers(scores, n, exp, i, j);
    }
  }

  /** A function that grows as an exponential must, so the hypothesis is met. */
  function SomeExp(x: real): real {
    if x >= 0.0 then 1.0 + x else if 1.0 - x > 0.0 then 1.0 / (1.0 - x) else 0.0
  }

  lemma ReciprocalBelowOne(a: real)
    requires a > 1.0
    ensures 0.0 < 1.0 / a < 1.0
  {
    var q := 1.0 / a;
    assert q * a == 1.0;
  }

  lemma SomeExpGrows(x: real, y: real)
    requires x < y
    ensures 0.0 < SomeExp(x) < SomeExp(y)
  {
    if x < 0.0 {
      ReciprocalBelowOne(1.0 - x);
      if y < 0.0 {
        ReciprocalDecreases(1.0 - y, 1.0 - x);
      }
    }
  }

  lemma SomeExpIsExp()
    ensures IsExp(SomeExp)
  {
    forall x
      ensures SomeExp(x) > 0.0
    {
      SomeExpGrows(x, x + 1.0);
    }
    forall x, y | x < y
      ensures SomeExp(x) < SomeExp(y)
    {
      SomeExpGrows(x, y);
    }
  }

  lemma TwoInOrder(scores: seq<real>)
    requires |scores| == 2
    ensures Order(scores) == if scores[0] >= scores[1] then [0, 1] else [1, 0]
  {
    var both: seq<nat>, last: seq<nat> := [0, 1], [1];
    assert Range(2) == both && both[1..] == last && last[1..] == [];
    assert SortDesc(last, KeyOf(scores)) == last;
  }

  /** The clamp changes the best result: of the logits 60 and 70 the second is the
      larger, and the normalised ranking puts the first ahead. */
  lemma ClampChangesBest(exp: real -> real)
    requires IsExp(exp)
    ensures TopIndices([60.0, 70.0], 1) == [1]
    ensures TopIndices(NormalizedScores([60.0, 70.0], Sigmoid, exp), 1) == [0]
  {
    var scores := [60.0, 70.0];
    TwoInOrder(scores);
    SigmoidFollowsClamp(scores[0], scores[1], exp);
    TwoInOrder(NormalizedScores(scores, Sigmoid, exp));
  }

  /** In particular when no logit is clamped. */
  lemma UnclampedOrderKept(scores: seq<real>, n: nat, exp: real -> real)
    requires IsExp(exp) && forall i :: 0 <= i < |scores| ==> -SIGMOID_CLAMP <= scores[i] <= SIGMOID_CLAMP
    ensures TopIndices(NormalizedScores(scores, Sigmoid, exp), n) == TopIndices(scores, n)
  {
    NormalizedOrderExactly(scores, n, exp);
  }

  /** Result a is ahead of result b rightly: it has the larger logit, or it came
      first and the two are equal or clamped to the same end. */
  predicate RightlyAhead(scores: seq<real>, a: nat, b: nat) {
    && a < |scores| && b < |scores|
    && (scores[a] > scores[b]
        || (a < b && (scores[a] == scores[b]
                      || (scores[a] >= SIGMOID_CLAMP && scores[b] >= SIGMOID_CLAMP)
                      || (scores[a] <= -SIGMOID_CLAMP && scores[b] <= -SIGMOID_CLAMP))))
  }

  lemma NormalizedOrderWeak(scores: seq<real>, exp: real -> real, a: nat, b: nat)
    requires IsExp(exp) && a < |scores| && b < |scores|
    ensures Before(a, b, KeyOf(NormalizedScores(scores, Sigmoid, exp)), (i: nat) => i) ==> RightlyAhead(scores, a, b)
  {
    SigmoidFollowsClamp(scores[b], scores[a], exp);
  }

  /** Every kept result is rightly ahead of the results after it and of every
      candidate left out. */
  ghost predicate WeaklyConsistent(r: seq<Ranked>, scores: seq<real>) {
    && (forall k, l :: 0 <= k < l < |r| ==> RightlyAhead(scores, r[k].index, r[l].index))
    && (forall k, i: nat :: 0 <= k < |r| && i < |scores| && i !in Indices(r) ==> RightlyAhead(scores, r[k].index, i))
  }

  lemma TopIsConsistent(r: seq<Ranked>, scores: seq<real>, n: nat, exp: real -> real)
    requires IsExp(exp) && Indices(r) == TopIndices(NormalizedScores(scores, Sigmoid, exp), n)
    ensures WeaklyConsistent(r, scores)
  {
    var normalized := NormalizedScores(scores, Sigmoid, exp);
    var order := Order(normalized);
    OrderFacts(normalized);
    assert forall k :: 0 <= k < |r| ==> Indices(r)[k] == r[k].index == order[k] && order[k] in order;
    forall k, l | 0 <= k < l < |r|
      ensures RightlyAhead(scores, r[k].index, r[l].index)
    {
      assert Before(order[k], order[l], KeyOf(normalized), (i: nat) => i);
      NormalizedOrderWeak(scores, exp, order[k], order[l]);
    }
    forall k, i: nat | 0 <= k < |r| && i < |scores| && i !in Indices(r)
      ensures RightlyAhead(scores, r[k].index, i)
    {
      assert Indices(r)[..k] == order[..k] && i !in order[..k];
      BeforeRest(order, KeyOf(normalized), k, i);
      NormalizedOrderWeak(scores, exp, order[k], i);
    }
  }

  /** What the handler does with the logits: normalise in place, then rank. The
      response always is weakly consistent with the logits, and its indices are
      those of the raw ranking exactly when the clamp keeps the top. */
  method RankNormalized(scores: array<real>, mode: Mode, topN: Option<nat>, documents: Option<seq<string>>,
                        exp: real -> real)
    returns (r: seq<Ranked>)
    requires IsExp(exp) && (documents.Some? ==> scores.Length <= |documents.value|)
    modifies scores
    ensures scores[..] == NormalizedScores(old(scores[..]), mode, exp)
    ensures IsTop(r, scores[..], documents, Limit(topN, scores.Length))
    ensures Indices(r) == TopIndices(scores[..], Limit(topN, scores.Length))
    ensures var logits, n := old(scores[..]), Limit(topN, scores.Length);
            match mode
            case NoNormalize => Indices(r) == TopIndices(logits, n)
            case Sigmoid =>
              WeaklyConsistent(r, logits) && (Indices(r) == TopIndices(logits, n) <==> ClampKeepsTop(logits, n))
  {
    ghost var logits := scores[..];
    ApplyNormalize(scores, mode, exp);
    r := BuildSortedResults(scores[..], topN, documents);
    if mode == Sigmoid {
      TopIsConsistent(r, logits, Limit(topN, scores.Length), exp);
      NormalizedOrderExactly(logits, Limit(topN, scores.Length), exp);
    } else {
      assert NormalizedScores(logits, mode, exp) == logits;
    }
  }
}
