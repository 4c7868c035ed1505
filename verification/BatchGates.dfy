/** Admission of requests into a batch: the running aggregate over the items of
    the batch being formed and the four gates that decide whether the next item
    joins it. Lengths and counts are unbounded naturals; the one saturating
    multiplication is written out. */
module BatchGates {
  import opened Common
  import opened SeqLen

  /** One tokenised text. */
  type Row = seq<nat>

  /** A queued request: its rows and the identity of its reply channel, which is
      the request's position in the arrival order. */
  datatype Item = Item(id: nat, rows: seq<Row>)

  datatype Config = Config(
    maxTokens: nat, maxItems: nat, maxSeq: nat, padded: bool, ratio: real, modelMaxLen: nat)

  ghost predicate ValidConfig(cfg: Config) {
    cfg.maxTokens <= USIZE_MAX && cfg.modelMaxLen >= 1
  }

  function SatMul(a: nat, b: nat): nat {
    Min(a * b, USIZE_MAX)
  }

  function LongestRow(rows: seq<Row>): nat {
    if rows == [] then 0 else Max(|rows[0]|, LongestRow(rows[1..]))
  }

  function SumRows(rows: seq<Row>): nat {
    if rows == [] then 0 else |rows[0]| + SumRows(rows[1..])
  }

  /** The length-ratio gate lets a sequence of length `longer` join an aggregate
      of length `len`; it applies to padded models with a positive threshold. */
  predicate RatioOk(len: nat, longer: nat, cfg: Config) {
    cfg.padded && cfg.ratio > 0.0 && len > 0 ==> longer as real <= len as real * cfg.ratio
  }

  lemma SingleRow(row: Row)
    ensures LongestRow([row]) == |row| && SumRows([row]) == |row|
  {
    assert [row][1..] == [];
  }

  /** The running aggregate kept while a batch is formed. */
  datatype Accum = Accum(items: nat, maxLen: nat, totalTokens: nat) {

    function Push(item: Item): Accum {
      Accum(items + |item.rows|, Max(maxLen, LongestRow(item.rows)), totalTokens + SumRows(item.rows))
    }

    predicate Fits(item: Item, cfg: Config) {
      && items + |item.rows| <= cfg.maxItems
      && var newMax := Max(maxLen, LongestRow(item.rows));
      (if cfg.padded then SatMul(newMax, items + |item.rows|) else totalTokens + SumRows(item.rows)) < cfg.maxTokens
    }

    predicate SeqCappedBy(item: Item, cfg: Config) {
      Max(maxLen, LongestRow(item.rows)) > cfg.maxSeq
    }

    predicate RatioOverflow(item: Item, cfg: Config) {
      items > 0 && !RatioOk(maxLen, LongestRow(item.rows), cfg)
    }

    /** The worker defers the item to the next batch. */
    predicate Defers(item: Item, cfg: Config) {
      (items > 0 && SeqCappedBy(item, cfg)) || RatioOverflow(item, cfg) || !Fits(item, cfg)
    }

    /** The worker stops waiting for more items. */
    predicate Saturated(cfg: Config) {
      || items >= cfg.maxItems
      || (cfg.padded && SatMul(maxLen, items) >= cfg.maxTokens)
      || (!cfg.padded && totalTokens >= cfg.maxTokens)
    }
  }

  const EMPTY := Accum(0, 0, 0)

  // ---- Reference measures of a batch, independent of the running aggregate ----

  function Texts(batch: seq<Item>): nat {
    if batch == [] then 0 else |batch[0].rows| + Texts(batch[1..])
  }

  function Longest(batch: seq<Item>): nat {
    if batch == [] then 0 else Max(LongestRow(batch[0].rows), Longest(batch[1..]))
  }

  function Tokens(batch: seq<Item>): nat {
    if batch == [] then 0 else SumRows(batch[0].rows) + Tokens(batch[1..])
  }

  function Measure(batch: seq<Item>): Accum {
    Accum(Texts(batch), Longest(batch), Tokens(batch))
  }

  /** Pushing keeps the running aggregate equal to the measures of the batch. */
  lemma {:induction false} PushMeasures(batch: seq<Item>, item: Item)
    ensures Measure(batch).Push(item) == Measure(batch + [item])
  {
    if batch != [] {
      assert (batch + [item])[1..] == batch[1..] + [item];
      PushMeasures(batch[1..], item);
    } else {
      assert batch + [item] == [item];
      assert [item][1..] == [];
    }
  }

  lemma SingleMeasures(item: Item)
    ensures Measure([item]) == EMPTY.Push(item)
  {
    PushMeasures([], item);
    assert [] + [item] == [item];
  }

  // ---- What an admitted batch satisfies ----

  /** Item cap, sequence cap and strict token budget, on the whole batch. */
  ghost predicate WithinCaps(batch: seq<Item>, cfg: Config) {
    && Texts(batch) <= cfg.maxItems
    && Longest(batch) <= cfg.maxSeq
    && (if cfg.padded then Longest(batch) * Texts(batch) else Tokens(batch)) < cfg.maxTokens
  }

  /** Every item is within the ratio of the longest item before it, starting
      from an aggregate of length `len`. */
  ghost predicate RatioFrom(len: nat, batch: seq<Item>, cfg: Config)
    decreases |batch|
  {
    batch == [] ||
    (RatioOk(len, LongestRow(batch[0].rows), cfg) &&
     RatioFrom(Max(len, LongestRow(batch[0].rows)), batch[1..], cfg))
  }

  ghost predicate RatioRespected(batch: seq<Item>, cfg: Config) {
    RatioFrom(0, batch, cfg)
  }

  /** The contract of coalescing: a lone item is admitted whatever its size, two
      or more share a batch only within every gate. */
  ghost predicate Coalesced(batch: seq<Item>, cfg: Config) {
    RatioRespected(batch, cfg) && (|batch| >= 2 ==> WithinCaps(batch, cfg))
  }

  lemma {:induction false} RatioFromSnoc(len: nat, batch: seq<Item>, item: Item, cfg: Config)
    ensures RatioFrom(len, batch + [item], cfg) <==>
            RatioFrom(len, batch, cfg) && RatioOk(Max(len, Longest(batch)), LongestRow(item.rows), cfg)
    decreases |batch|
  {
    if batch != [] {
      assert (batch + [item])[1..] == batch[1..] + [item];
      RatioFromSnoc(Max(len, LongestRow(batch[0].rows)), batch[1..], item, cfg);
    } else {
      assert batch + [item] == [item];
      assert [item][1..] == [];
    }
  }

  lemma TextsPositive(batch: seq<Item>)
    requires batch != [] && forall x :: x in batch ==> x.rows != []
    ensures Texts(batch) >= 1
  {
  }

  /** An item that is not deferred leaves the batch within the caps. */
  lemma AdmissionKeepsCaps(batch: seq<Item>, item: Item, cfg: Config)
    requires ValidConfig(cfg) && Texts(batch) >= 1 && !Measure(batch).Defers(item, cfg)
    ensures WithinCaps(batch + [item], cfg)
  {
    PushMeasures(batch, item);
    var after := Measure(batch + [item]);
    assert after == Measure(batch).Push(item);
    SatMulBelow(after.maxLen, after.items, cfg.maxTokens);
    assert after.items <= cfg.maxItems && after.maxLen <= cfg.maxSeq;
  }

  /** Admitting an item the worker does not defer keeps the batch within every gate. */
  lemma AdmissionKeepsGates(batch: seq<Item>, item: Item, cfg: Config)
    requires ValidConfig(cfg) && batch != [] && forall x :: x in batch ==> x.rows != []
    requires Coalesced(batch, cfg) && !Measure(batch).Defers(item, cfg)
    ensures Coalesced(batch + [item], cfg) && WithinCaps(batch + [item], cfg)
  {
    TextsPositive(batch);
    AdmissionKeepsCaps(batch, item, cfg);
    AdmissionKeepsRatio(batch, item, cfg);
  }

  lemma AdmissionKeepsRatio(batch: seq<Item>, item: Item, cfg: Config)
    requires Texts(batch) >= 1 && RatioRespected(batch, cfg) && !Measure(batch).RatioOverflow(item, cfg)
    ensures RatioRespected(batch + [item], cfg)
  {
    RatioFromSnoc(0, batch, item, cfg);
  }

  lemma SatMulBelow(a: nat, b: nat, bound: nat)
    requires bound <= USIZE_MAX
    ensures SatMul(a, b) < bound <==> a * b < bound
  {
  }

  lemma MulMono(a: nat, b: nat, c: nat, d: nat)
    requires a <= c && b <= d
    ensures a * b <= c * d
  {
    assert a * b <= c * b;
    assert c * b <= c * d;
  }

  /** The early breaks lose nothing: once saturated, no item with a text fits. */
  lemma {:induction false} SaturationIsExact(a: Accum, item: Item, cfg: Config)
    requires ValidConfig(cfg) && item.rows != [] && a.Saturated(cfg)
    ensures !a.Fits(item, cfg) && a.Defers(item, cfg)
  {
    MulMono(a.maxLen, a.items, Max(a.maxLen, LongestRow(item.rows)), a.items + |item.rows|);
  }

  /** The rounded tensor of a padded batch within the caps stays below twice the
      token budget, whatever the ratio of its lengths. */
  lemma {:induction false} RoundedTensorBound(batch: seq<Item>, cfg: Config)
    requires cfg.modelMaxLen >= 1 && cfg.padded && WithinCaps(batch, cfg) && 1 <= Longest(batch)
    ensures RoundUp(Longest(batch), cfg.modelMaxLen) * Texts(batch) < 2 * cfg.maxTokens
  {
    var longest, texts := Longest(batch), Texts(batch);
    assert longest * texts < cfg.maxTokens;
    RoundUpBounds(longest, cfg.modelMaxLen);
    LessThanTwice(RoundUp(longest, cfg.modelMaxLen), longest, texts, cfg.maxTokens);
  }

  lemma LessThanTwice(width: nat, longest: nat, texts: nat, budget: nat)
    requires width < 2 * longest && longest * texts < budget
    ensures width * texts < 2 * budget
  {
    MulMono(width, texts, 2 * longest, texts);
    assert 2 * longest * texts == 2 * (longest * texts);
  }

  // ---- The gates in plain words ----

  /** The rows of all items, in order. */
  function RowsOf(batch: seq<Item>): seq<Row> {
    Flatten(MapSeq((x: Item) => x.rows, batch))
  }

  lemma RowsOfConcat(batch: seq<Item>, more: seq<Item>)
    ensures RowsOf(batch + more) == RowsOf(batch) + RowsOf(more)
  {
    var rows := (x: Item) => x.rows;
    assert MapSeq(rows, batch + more) == MapSeq(rows, batch) + MapSeq(rows, more);
    FlattenConcat(MapSeq(rows, batch), MapSeq(rows, more));
  }

  lemma RowsOfOne(item: Item)
    ensures RowsOf([item]) == item.rows
  {
    var rows := (x: Item) => x.rows;
    assert MapSeq(rows, [item]) == [item.rows] && [item.rows][1..] == [];
    assert Flatten([item.rows]) == item.rows + Flatten<Row>([]);
  }

  /** The longest row: no row is longer, and some row is as long. */
  lemma {:induction false} LongestRowIsMaximum(rows: seq<Row>)
    ensures forall r :: r in rows ==> |r| <= LongestRow(rows)
    ensures if rows == [] then LongestRow(rows) == 0 else exists r :: r in rows && |r| == LongestRow(rows)
  {
    if rows != [] {
      LongestRowIsMaximum(rows[1..]);
      assert rows == [rows[0]] + rows[1..];
      assert rows[0] in rows;
    }
  }

  /** The token count is the length of all rows put together. */
  lemma {:induction false} SumRowsIsTotal(rows: seq<Row>)
    ensures SumRows(rows) == |Flatten(rows)|
  {
    if rows != [] {
      SumRowsIsTotal(rows[1..]);
    }
  }

  lemma {:induction false} LongestRowConcat(xs: seq<Row>, ys: seq<Row>)
    ensures LongestRow(xs + ys) == Max(LongestRow(xs), LongestRow(ys))
    ensures SumRows(xs + ys) == SumRows(xs) + SumRows(ys)
  {
    if xs == [] {
      assert xs + ys == ys;
    } else {
      assert (xs + ys)[1..] == xs[1..] + ys;
      LongestRowConcat(xs[1..], ys);
    }
  }

  /** The measures of a batch are the number of its rows, the length of the longest
      and the number of tokens in all of them. */
  lemma {:induction false} MeasuresOfRows(batch: seq<Item>)
    ensures Texts(batch) == |RowsOf(batch)| && Longest(batch) == LongestRow(RowsOf(batch))
    ensures Tokens(batch) == |Flatten(RowsOf(batch))|
  {
    SumRowsIsTotal(RowsOf(batch));
    MeasuresBySum(batch);
  }

  lemma {:induction false} MeasuresBySum(batch: seq<Item>)
    ensures Texts(batch) == |RowsOf(batch)| && Longest(batch) == LongestRow(RowsOf(batch))
    ensures Tokens(batch) == SumRows(RowsOf(batch))
  {
    if batch != [] {
      var rest := batch[1..];
      MeasuresBySum(rest);
      assert batch == [batch[0]] + rest;
      RowsOfConcat([batch[0]], rest);
      RowsOfOne(batch[0]);
      LongestRowConcat(batch[0].rows, RowsOf(rest));
    }
  }

  /** The rows stay within the item cap, the sequence cap and the token budget. */
  ghost predicate RowsWithinCaps(rows: seq<Row>, cfg: Config) {
    && |rows| <= cfg.maxItems
    && (forall r :: r in rows ==> |r| <= cfg.maxSeq)
    && (if cfg.padded then (forall r :: r in rows ==> |r| * |rows| < cfg.maxTokens) && 0 < cfg.maxTokens
        else |Flatten(rows)| < cfg.maxTokens)
  }

  /** One length is at most so many times another. */
  predicate AtMostTimes(longer: nat, len: nat, ratio: real) {
    longer as real <= len as real * ratio
  }

  lemma AtMostTimesMono(a: nat, b: nat, c: nat, d: nat, ratio: real)
    requires ratio > 0.0 && c <= a && b <= d && AtMostTimes(a, b, ratio)
    ensures AtMostTimes(c, d, ratio)
  {
    assert b as real * ratio <= d as real * ratio;
  }

  /** Every new row is at most ratio times as long as some row already there, if
      any there has a token; padded models with a positive threshold only. */
  ghost predicate RowsWithinRatio(rows: seq<Row>, more: seq<Row>, cfg: Config) {
    cfg.padded && cfg.ratio > 0.0 && (exists r :: r in rows && |r| > 0) ==> RowsNear(rows, more, cfg.ratio)
  }

  ghost predicate RowsNear(rows: seq<Row>, more: seq<Row>, ratio: real) {
    forall q :: q in more ==> exists r :: r in rows && AtMostTimes(|q|, |r|, ratio)
  }

  lemma CapsInPlainWords(batch: seq<Item>, cfg: Config)
    ensures WithinCaps(batch, cfg) <==> RowsWithinCaps(RowsOf(batch), cfg)
  {
    var rows := RowsOf(batch);
    MeasuresOfRows(batch);
    LongestRowIsMaximum(rows);
    BudgetInPlainWords(rows, cfg.maxTokens);
  }

  lemma BudgetInPlainWords(rows: seq<Row>, budget: nat)
    ensures LongestRow(rows) * |rows| < budget <==> (forall r :: r in rows ==> |r| * |rows| < budget) && 0 < budget
  {
    LongestRowIsMaximum(rows);
    forall r | r in rows
      ensures |r| * |rows| <= LongestRow(rows) * |rows|
    {
      MulMono(|r|, |rows|, LongestRow(rows), |rows|);
    }
  }

  lemma SomeToken(rows: seq<Row>)
    ensures LongestRow(rows) > 0 <==> exists r :: r in rows && |r| > 0
  {
    LongestRowIsMaximum(rows);
  }

  lemma RatioOkTimes(len: nat, longer: nat, cfg: Config)
    ensures RatioOk(len, longer, cfg) <==>
            (cfg.padded && cfg.ratio > 0.0 && len > 0 ==> AtMostTimes(longer, len, cfg.ratio))
  {
  }

  lemma RatioInPlainWords(rows: seq<Row>, more: seq<Row>, cfg: Config, longest: nat, longer: nat)
    requires longest == LongestRow(rows) && longer == LongestRow(more)
    ensures RatioOk(longest, longer, cfg) <==> RowsWithinRatio(rows, more, cfg)
  {
    SomeToken(rows);
    RatioOkTimes(longest, longer, cfg);
    if cfg.ratio > 0.0 && longest > 0 {
      RatioOfLongest(rows, more, cfg.ratio);
    }
  }

  lemma RatioOfLongest(rows: seq<Row>, more: seq<Row>, ratio: real)
    requires ratio > 0.0 && LongestRow(rows) > 0
    ensures AtMostTimes(LongestRow(more), LongestRow(rows), ratio) <==> RowsNear(rows, more, ratio)
  {
    LongestRowIsMaximum(rows);
    LongestRowIsMaximum(more);
    var longest: Row :| longest in rows && |longest| == LongestRow(rows);
    if AtMostTimes(LongestRow(more), LongestRow(rows), ratio) {
      forall q | q in more
        ensures AtMostTimes(|q|, |longest|, ratio)
      {
        AtMostTimesMono(LongestRow(more), |longest|, |q|, |longest|, ratio);
      }
    }
    if RowsNear(rows, more, ratio) {
      if more == [] {
        assert AtMostTimes(0, LongestRow(rows), ratio);
      } else {
        var q: Row :| q in more && |q| == LongestRow(more);
        var r: Row :| r in rows && AtMostTimes(|q|, |r|, ratio);
        AtMostTimesMono(|q|, |r|, |q|, |longest|, ratio);
      }
    }
  }

  /** The worker stops waiting exactly when the batch has reached the item cap or
      the token budget. */
  lemma SaturatedExactly(batch: seq<Item>, cfg: Config)
    requires ValidConfig(cfg)
    ensures Measure(batch).Saturated(cfg) <==>
            var rows := RowsOf(batch);
            || |rows| >= cfg.maxItems
            || (if cfg.padded then (exists r :: r in rows && |r| * |rows| >= cfg.maxTokens) || cfg.maxTokens == 0
                else |Flatten(rows)| >= cfg.maxTokens)
  {
    MeasuresOfRows(batch);
    var rows := RowsOf(batch);
    SatMulBelow(LongestRow(rows), |rows|, cfg.maxTokens);
    BudgetInPlainWords(rows, cfg.maxTokens);
  }

  /** The worker admits an item beside others exactly when the rows together stay
      within the caps and the item's within the ratio of those before them. */
  lemma AdmittedExactly(batch: seq<Item>, item: Item, cfg: Config)
    requires ValidConfig(cfg) && Texts(batch) >= 1
    ensures !Measure(batch).Defers(item, cfg) <==>
            RowsWithinCaps(RowsOf(batch) + item.rows, cfg) && RowsWithinRatio(RowsOf(batch), item.rows, cfg)
  {
    DeferralByCaps(batch, item, cfg);
    MeasuresOfRows(batch);
    RatioInPlainWords(RowsOf(batch), item.rows, cfg, Longest(batch), LongestRow(item.rows));
    RowsOfConcat(batch, [item]);
    RowsOfOne(item);
    CapsInPlainWords(batch + [item], cfg);
  }

  lemma DeferralByCaps(batch: seq<Item>, item: Item, cfg: Config)
    requires ValidConfig(cfg) && Texts(batch) >= 1
    ensures !Measure(batch).Defers(item, cfg) <==>
            WithinCaps(batch + [item], cfg) && RatioOk(Longest(batch), LongestRow(item.rows), cfg)
  {
    PushMeasures(batch, item);
    var after := Measure(batch).Push(item);
    SatMulBelow(after.maxLen, after.items, cfg.maxTokens);
  }

  // ---- Cancellation ----

  /** The items whose reply channel is not in `gone`, in order. */
  function Retain(items: seq<Item>, gone: set<nat>): seq<Item> {
    if items == [] then []
    else if items[0].id in gone then Retain(items[1..], gone)
    else [items[0]] + Retain(items[1..], gone)
  }

  lemma {:induction false} RetainShrinks(items: seq<Item>, gone: set<nat>)
    ensures Texts(Retain(items, gone)) <= Texts(items)
    ensures Longest(Retain(items, gone)) <= Longest(items)
    ensures Tokens(Retain(items, gone)) <= Tokens(items)
    ensures |Retain(items, gone)| <= |items|
  {
    if items != [] {
      RetainShrinks(items[1..], gone);
      var rest := Retain(items[1..], gone);
      assert ([items[0]] + rest)[1..] == rest;
    }
  }

  /** Cancelling any members of a batch keeps the caps. */
  lemma CancellationKeepsCaps(batch: seq<Item>, gone: set<nat>, cfg: Config)
    requires WithinCaps(batch, cfg)
    ensures WithinCaps(Retain(batch, gone), cfg)
  {
    RetainShrinks(batch, gone);
    var live := Retain(batch, gone);
    MulMono(Longest(live), Texts(live), Longest(batch), Texts(batch));
  }

  /** Every item is within the ratio of every earlier non-empty one. */
  ghost predicate PairwiseRatio(batch: seq<Item>, cfg: Config) {
    forall i, j :: 0 <= i < j < |batch| ==>
      RatioOk(LongestRow(batch[i].rows), LongestRow(batch[j].rows), cfg)
  }

  ghost predicate DistinctIds(items: seq<Item>) {
    forall i, j :: 0 <= i < j < |items| ==> items[i].id != items[j].id
  }

  lemma {:induction false} RetainMembers(items: seq<Item>, gone: set<nat>)
    ensures forall x :: x in Retain(items, gone) <==> x in items && x.id !in gone
  {
    if items != [] {
      RetainMembers(items[1..], gone);
      assert items == [items[0]] + items[1..];
    }
  }

  lemma {:induction false} RetainPairwise(batch: seq<Item>, gone: set<nat>, cfg: Config)
    requires PairwiseRatio(batch, cfg)
    ensures PairwiseRatio(Retain(batch, gone), cfg)
  {
    if batch != [] {
      var rest := batch[1..];
      assert forall i, j :: 0 <= i < j < |rest| ==> rest[i] == batch[i + 1] && rest[j] == batch[j + 1];
      RetainPairwise(rest, gone, cfg);
      RetainMembers(rest, gone);
      if batch[0].id !in gone {
        var kept := Retain(rest, gone);
        forall i, j | 0 <= i < j < |kept| + 1
          ensures RatioOk(LongestRow(([batch[0]] + kept)[i].rows), LongestRow(([batch[0]] + kept)[j].rows), cfg)
        {
          if i == 0 {
            assert kept[j - 1] in kept;
            var k :| 0 <= k < |rest| && rest[k] == kept[j - 1];
            assert batch[k + 1] == kept[j - 1];
          }
        }
      }
    }
  }

  lemma {:induction false} PairwiseGivesRatio(len: nat, batch: seq<Item>, cfg: Config)
    requires PairwiseRatio(batch, cfg)
    requires forall x :: x in batch ==> RatioOk(len, LongestRow(x.rows), cfg)
    ensures RatioFrom(len, batch, cfg)
    decreases |batch|
  {
    if batch != [] {
      var rest := batch[1..];
      assert forall i, j :: 0 <= i < j < |rest| ==> rest[i] == batch[i + 1] && rest[j] == batch[j + 1];
      forall x | x in rest
        ensures RatioOk(Max(len, LongestRow(batch[0].rows)), LongestRow(x.rows), cfg)
      {
        var k :| 0 <= k < |rest| && rest[k] == x;
        assert x == batch[k + 1] && x in batch;
      }
      PairwiseGivesRatio(Max(len, LongestRow(batch[0].rows)), rest, cfg);
    }
  }

  lemma {:induction false} RetainAllGone(items: seq<Item>, gone: set<nat>)
    requires forall x :: x in items ==> x.id in gone
    ensures Retain(items, gone) == []
  {
    if items != [] {
      RetainAllGone(items[1..], gone);
    }
  }

  lemma {:induction false} RetainConcat(xs: seq<Item>, ys: seq<Item>, gone: set<nat>)
    ensures Retain(xs + ys, gone) == Retain(xs, gone) + Retain(ys, gone)
  {
    if xs == [] {
      assert xs + ys == ys;
    } else {
      assert (xs + ys)[1..] == xs[1..] + ys;
      RetainConcat(xs[1..], ys, gone);
    }
  }

  /** Cancelling everything but items i and j leaves exactly these two. */
  lemma RetainTwo(batch: seq<Item>, i: nat, j: nat, gone: set<nat>)
    requires i < j < |batch| && batch[i].id !in gone && batch[j].id !in gone
    requires forall k :: 0 <= k < |batch| && k != i && k != j ==> batch[k].id in gone
    ensures Retain(batch, gone) == [batch[i], batch[j]]
  {
    assert batch[0..] == batch;
    RetainFrom(batch, 0, i, gone);
    RetainFrom(batch, i + 1, j, gone);
    RetainAllGone(batch[j + 1..], gone);
  }

  /** From m on, the first item that stays is i. */
  lemma RetainFrom(batch: seq<Item>, m: nat, i: nat, gone: set<nat>)
    requires m <= i < |batch| && batch[i].id !in gone
    requires forall k :: m <= k < i ==> batch[k].id in gone
    ensures Retain(batch[m..], gone) == [batch[i]] + Retain(batch[i + 1..], gone)
    decreases i - m
  {
    assert batch[m..][1..] == batch[m + 1..];
    if m < i {
      RetainFrom(batch, m + 1, i, gone);
    }
  }

  ghost predicate RatioSafe(batch: seq<Item>, cfg: Config) {
    forall gone :: RatioRespected(Retain(batch, gone), cfg)
  }

  /** The ratio gate, unlike the caps, need not survive cancellation. It
      survives every cancellation exactly when each item is within the ratio of
      every earlier one and not only of the longest earlier one. */
  lemma RatioSurvivesCancellation(batch: seq<Item>, cfg: Config)
    requires DistinctIds(batch)
    ensures RatioSafe(batch, cfg) <==> PairwiseRatio(batch, cfg)
  {
    if PairwiseRatio(batch, cfg) {
      forall gone
        ensures RatioRespected(Retain(batch, gone), cfg)
      {
        RetainPairwise(batch, gone, cfg);
        PairwiseGivesRatio(0, Retain(batch, gone), cfg);
      }
      assert RatioSafe(batch, cfg);
    }
    if RatioSafe(batch, cfg) {
      forall i, j | 0 <= i < j < |batch|
        ensures RatioOk(LongestRow(batch[i].rows), LongestRow(batch[j].rows), cfg)
      {
        var gone := (set x | x in batch :: x.id) - {batch[i].id, batch[j].id};
        forall k | 0 <= k < |batch| && k != i && k != j
          ensures batch[k].id in gone
        {
          assert batch[k] in batch;
        }
        RetainTwo(batch, i, j, gone);
        assert RatioRespected(Retain(batch, gone), cfg);
        var two := [batch[i], batch[j]];
        assert two[1..] == [batch[j]];
        assert RatioFrom(Max(0, LongestRow(two[0].rows)), two[1..], cfg);
      }
    }
  }
}
