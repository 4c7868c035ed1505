/** Sparse embeddings: fused max-pool, threshold, partial selection, sort; and
    the worker path that must agree with the in-process one. */
module Splade {
  import opened Common
  import opened Sorting

  const U32 := 0x1_0000_0000

  datatype Entry = Entry(id: nat, w: real)

  function WeightKey(): Entry -> real {
    (e: Entry) => e.w
  }

  // ---- Fused max-pool ----

  /** What the pool needs of x -> ln(1 + x). */
  ghost predicate IsLog1p(log1p: real -> real) {
    log1p(0.0) == 0.0 && forall x :: x >= 0.0 ==> log1p(x) >= 0.0
  }

  function Relu(x: real): real {
    if x > 0.0 then x else 0.0
  }

  /** Every position has a logit for every vocabulary entry. */
  predicate Rectangular(raw: seq<seq<real>>, vocab: nat) {
    forall j :: 0 <= j < |raw| ==> |raw[j]| == vocab
  }

  /** The largest activation of entry k over the first n positions. */
  function PoolAt(raw: seq<seq<real>>, n: nat, k: nat, vocab: nat, log1p: real -> real): real
    requires Rectangular(raw, vocab) && n <= |raw| && k < vocab
  {
    if n == 0 then 0.0
    else
      var w, before := log1p(Relu(raw[n - 1][k])), PoolAt(raw, n - 1, k, vocab, log1p);
      if w > before then w else before
  }

  function Pooled(raw: seq<seq<real>>, vocab: nat, log1p: real -> real): (r: seq<real>)
    requires Rectangular(raw, vocab)
    ensures |r| == vocab
    ensures forall k :: 0 <= k < vocab ==> r[k] == PoolAt(raw, |raw|, k, vocab, log1p)
  {
    seq(vocab, k requires 0 <= k < vocab => PoolAt(raw, |raw|, k, vocab, log1p))
  }

  /** The pooled value is the maximum of log(1 + relu) over all positions. */
  lemma {:induction false} PoolIsMaximum(raw: seq<seq<real>>, n: nat, k: nat, vocab: nat, log1p: real -> real)
    requires Rectangular(raw, vocab) && n <= |raw| && k < vocab && IsLog1p(log1p)
    ensures PoolAt(raw, n, k, vocab, log1p) >= 0.0
    ensures forall j :: 0 <= j < n ==> log1p(Relu(raw[j][k])) <= PoolAt(raw, n, k, vocab, log1p)
    ensures n > 0 ==> exists j :: 0 <= j < n && log1p(Relu(raw[j][k])) == PoolAt(raw, n, k, vocab, log1p)
  {
    if n > 0 {
      PoolIsMaximum(raw, n - 1, k, vocab, log1p);
      var last := raw[n - 1][k];
      assert log1p(Relu(last)) >= 0.0;
    }
  }

  /** In plain words: at least zero, at least the logarithm of one plus every
      positive logit, and equal to one of these. */
  lemma PoolInPlainWords(raw: seq<seq<real>>, k: nat, vocab: nat, log1p: real -> real)
    requires Rectangular(raw, vocab) && k < vocab && IsLog1p(log1p)
    ensures var pooled := PoolAt(raw, |raw|, k, vocab, log1p);
            && pooled >= 0.0
            && (forall j :: 0 <= j < |raw| && raw[j][k] > 0.0 ==> log1p(raw[j][k]) <= pooled)
            && (pooled == 0.0 || exists j :: 0 <= j < |raw| && raw[j][k] > 0.0 && log1p(raw[j][k]) == pooled)
  {
    PoolIsMaximum(raw, |raw|, k, vocab, log1p);
    var pooled := PoolAt(raw, |raw|, k, vocab, log1p);
    forall j | 0 <= j < |raw| && raw[j][k] > 0.0
      ensures log1p(raw[j][k]) <= pooled
    {
      assert Relu(raw[j][k]) == raw[j][k];
    }
    if pooled != 0.0 && raw != [] {
      var j :| 0 <= j < |raw| && log1p(Relu(raw[j][k])) == pooled;
      assert raw[j][k] > 0.0;
    }
  }

  /** The running maximum, one position at a time, skipping logits that are not
      positive. */
  method FusedMaxPool(raw: seq<seq<real>>, sparse: array<real>, log1p: real -> real)
    requires Rectangular(raw, sparse.Length) && IsLog1p(log1p)
    modifies sparse
    ensures sparse[..] == Pooled(raw, sparse.Length, log1p)
  {
    var vocab := sparse.Length;
    for k := 0 to vocab
      invariant forall i :: 0 <= i < k ==> sparse[i] == 0.0
    {
      sparse[k] := 0.0;
    }
    for j := 0 to |raw|
      invariant forall i :: 0 <= i < vocab ==> sparse[i] == PoolAt(raw, j, i, vocab, log1p)
    {
      for k := 0 to vocab
        invariant forall i :: 0 <= i < k ==> sparse[i] == PoolAt(raw, j + 1, i, vocab, log1p)
        invariant forall i :: k <= i < vocab ==> sparse[i] == PoolAt(raw, j, i, vocab, log1p)
      {
        PoolIsMaximum(raw, j, k, vocab, log1p);
        var lo := raw[j][k];
        if lo > 0.0 {
          var w := log1p(lo);
          if w > sparse[k] {
            sparse[k] := w;
          }
        }
      }
    }
  }

  // ---- Threshold, selection, sort ----

  /** Entries above the threshold among the first n, in vocabulary order. */
  function Above(weights: seq<real>, minWeight: real, n: nat): seq<Entry>
    requires n <= |weights|
  {
    if n == 0 then []
    else
      var before := Above(weights, minWeight, n - 1);
      if weights[n - 1] > minWeight then before + [Entry((n - 1) % U32, weights[n - 1])] else before
  }

  /** What the library's partial selection promises: the entries rearranged so
      that the first k are not lighter than the others. */
  ghost predicate Selects(select: (seq<Entry>, nat) -> seq<Entry>) {
    forall es, k :: 0 < k < |es| ==>
      && multiset(select(es, k)) == multiset(es)
      && |select(es, k)| == |es|
      && forall i, j :: 0 <= i < k <= j < |es| ==> select(es, k)[i].w >= select(es, k)[j].w
  }

  function Chosen(entries: seq<Entry>, topK: nat, select: (seq<Entry>, nat) -> seq<Entry>): seq<Entry> {
    if |entries| > topK && |select(entries, topK)| >= topK then select(entries, topK)[..topK] else entries
  }

  function TopK(weights: seq<real>, topK: nat, minWeight: real, select: (seq<Entry>, nat) -> seq<Entry>): seq<Entry> {
    if topK == 0 then [] else SortDesc(Chosen(Above(weights, minWeight, |weights|), topK, select), WeightKey())
  }

  ghost predicate DistinctIds(es: seq<Entry>) {
    forall i, j :: 0 <= i < j < |es| ==> es[i].id != es[j].id
  }

  lemma {:induction false} AboveMember(weights: seq<real>, minWeight: real, n: nat, e: Entry)
    requires n <= |weights| && n <= U32
    ensures e in Above(weights, minWeight, n) <==> e.id < n && e.w == weights[e.id] && e.w > minWeight
  {
    if n > 0 {
      AboveMember(weights, minWeight, n - 1, e);
    }
  }

  lemma {:induction false} AboveDistinct(weights: seq<real>, minWeight: real, n: nat)
    requires n <= |weights| && n <= U32
    ensures DistinctIds(Above(weights, minWeight, n)) && |Above(weights, minWeight, n)| <= n
  {
    if n > 0 {
      AboveDistinct(weights, minWeight, n - 1);
      var before := Above(weights, minWeight, n - 1);
      forall i | 0 <= i < |before|
        ensures before[i].id < n - 1
      {
        AboveMember(weights, minWeight, n - 1, before[i]);
      }
    }
  }

  lemma AboveFacts(weights: seq<real>, minWeight: real, n: nat)
    requires n <= |weights| && n <= U32
    ensures DistinctIds(Above(weights, minWeight, n))
    ensures forall e :: e in Above(weights, minWeight, n) <==> e.id < n && e.w == weights[e.id] && e.w > minWeight
    ensures |Above(weights, minWeight, n)| <= n
  {
    AboveDistinct(weights, minWeight, n);
    forall e
      ensures e in Above(weights, minWeight, n) <==> e.id < n && e.w == weights[e.id] && e.w > minWeight
    {
      AboveMember(weights, minWeight, n, e);
    }
  }

  lemma {:induction false} DistinctCount(es: seq<Entry>, x: Entry)
    requires DistinctIds(es)
    ensures multiset(es)[x] <= 1
  {
    if es != [] {
      var rest := es[1..];
      assert es == [es[0]] + rest;
      DistinctCount(rest, x);
      assert forall j :: 0 <= j < |rest| ==> rest[j] == es[j + 1] && rest[j].id != es[0].id;
    }
  }

  lemma TwiceCounts(es: seq<Entry>, i: nat, j: nat)
    requires i < j < |es| && es[i] == es[j]
    ensures multiset(es)[es[i]] >= 2
  {
    var x, pre, post := es[i], es[..j], es[j..];
    assert es == pre + post && pre[i] == x && post[0] == x;
    assert x in pre && x in post;
    assert multiset(es) == multiset(pre) + multiset(post);
  }

  /** A rearrangement of entries with distinct ids has distinct ids. */
  lemma PermutedDistinct(es: seq<Entry>, fs: seq<Entry>)
    requires DistinctIds(es) && multiset(es) == multiset(fs)
    ensures DistinctIds(fs)
  {
    forall i, j | 0 <= i < j < |fs|
      ensures fs[i].id != fs[j].id
    {
      assert fs[i] in multiset(fs) && fs[j] in multiset(fs);
      assert fs[i] in es && fs[j] in es;
      DistinctCount(es, fs[i]);
      if fs[i] == fs[j] {
        TwiceCounts(fs, i, j);
      }
    }
  }

  /** The selected entries: distinct, from the input, none left out heavier. */
  lemma ChosenFacts(entries: seq<Entry>, topK: nat, select: (seq<Entry>, nat) -> seq<Entry>)
    requires Selects(select) && topK > 0 && DistinctIds(entries)
    ensures var c := Chosen(entries, topK, select);
            && |c| == Min(topK, |entries|) && DistinctIds(c)
            && (forall e :: e in c ==> e in entries)
            && forall e, f :: e in c && f in entries && f !in c ==> e.w >= f.w
  {
    if |entries| > topK {
      var all := select(entries, topK);
      var c := all[..topK];
      PermutedDistinct(entries, all);
      forall e | e in c
        ensures e in entries
      {
        assert e in all;
        MultisetMember(all, entries, e);
      }
      forall e, f | e in c && f in entries && f !in c
        ensures e.w >= f.w
      {
        MultisetMember(all, entries, f);
        assert all == c + all[topK..];
        var i :| 0 <= i < topK && c[i] == e;
        var j :| topK <= j < |all| && all[j] == f;
        assert all[i].w >= all[j].w;
      }
    }
  }

  /** The k heaviest entries above the threshold, heaviest first. */
  ghost predicate IsTopK(r: seq<Entry>, weights: seq<real>, topK: nat, minWeight: real) {
    && |r| == Min(topK, |Above(weights, minWeight, |weights|)|)
    && Descending(r, WeightKey()) && DistinctIds(r)
    && (forall e :: e in r ==> e.id < |weights| && e.w == weights[e.id] && e.w > minWeight)
    && (forall e, i: nat :: e in r && i < |weights| && weights[i] > minWeight && Entry(i, weights[i]) !in r ==>
          e.w >= weights[i])
  }

  lemma TopKIsTopK(weights: seq<real>, topK: nat, minWeight: real, select: (seq<Entry>, nat) -> seq<Entry>)
    requires Selects(select) && |weights| <= U32
    ensures IsTopK(TopK(weights, topK, minWeight, select), weights, topK, minWeight)
  {
    AboveFacts(weights, minWeight, |weights|);
    if topK > 0 {
      var entries := Above(weights, minWeight, |weights|);
      ChosenFacts(entries, topK, select);
      var c := Chosen(entries, topK, select);
      SortPermutes(c, WeightKey());
      SortDescends(c, WeightKey());
      var r := SortDesc(c, WeightKey());
      PermutedDistinct(c, r);
      forall e
        ensures e in r <==> e in c
      {
        SortMember(c, WeightKey(), e);
      }
      forall e, i: nat | e in r && i < |weights| && weights[i] > minWeight && Entry(i, weights[i]) !in r
        ensures e.w >= weights[i]
      {
        assert Entry(i, weights[i]) in entries;
      }
    }
  }

  // ---- Encoding a text ----

  /** A model: its session, tokenizer and the library functions it uses. */
  datatype Model = Model(maxLen: nat, vocab: nat,
                         tokenize: string -> Result<seq<nat>>,
                         session: seq<nat> -> Result<seq<seq<real>>>,
                         log1p: real -> real,
                         select: (seq<Entry>, nat) -> seq<Entry>)

  ghost predicate Sane(m: Model) {
    IsLog1p(m.log1p) && Selects(m.select) && m.vocab <= U32
  }

  /** The logits of the text cut to the context window, of the right shape. */
  function Logits(m: Model, tokens: seq<nat>): (r: Result<seq<seq<real>>>)
    ensures r.Ok? ==> Rectangular(r.value, m.vocab)
  {
    var ids := tokens[..Min(|tokens|, m.maxLen)];
    match m.session(ids)
    case Err(e) => Err(e)
    case Ok(raw) =>
      if |raw| != |ids| || !Rectangular(raw, m.vocab) then Err("unexpected splade output shape") else Ok(raw)
  }

  function Encoded(m: Model, tokens: seq<nat>, topK: nat, minWeight: real): Result<seq<Entry>> {
    if tokens == [] || topK == 0 then Ok([])
    else
      match Logits(m, tokens)
      case Err(e) => Err(e)
      case Ok(raw) => Ok(TopK(Pooled(raw, m.vocab, m.log1p), topK, minWeight, m.select))
  }

  /** The session sees the first tokens of the text, as many as the window holds,
      and its answer counts exactly when it has a row for each and a column for
      every vocabulary entry. */
  lemma LogitsExactly(m: Model, tokens: seq<nat>, shown: seq<nat>)
    requires shown <= tokens && (|shown| == m.maxLen <= |tokens| || (|tokens| <= m.maxLen && shown == tokens))
    ensures forall raw :: Logits(m, tokens) == Ok(raw) <==>
              m.session(shown) == Ok(raw) && |raw| == |shown| && forall j :: 0 <= j < |raw| ==> |raw[j]| == m.vocab
  {
    assert tokens[..Min(|tokens|, m.maxLen)] == shown;
  }

  /** Nothing is encoded for an empty text or a limit of zero; a limit above zero
      gives the heaviest entries of the pooled logits. */
  lemma EncodedExactly(m: Model, tokens: seq<nat>, topK: nat, minWeight: real)
    requires Sane(m)
    ensures tokens == [] || topK == 0 ==> Encoded(m, tokens, topK, minWeight) == Ok([])
    ensures tokens != [] && topK > 0 ==>
              match Logits(m, tokens)
              case Err(_) => Encoded(m, tokens, topK, minWeight).Err?
              case Ok(raw) =>
                Encoded(m, tokens, topK, minWeight).Ok? &&
                IsTopK(Encoded(m, tokens, topK, minWeight).value, Pooled(raw, m.vocab, m.log1p), topK, minWeight)
  {
    if tokens != [] && topK > 0 && Logits(m, tokens).Ok? {
      TopKIsTopK(Pooled(Logits(m, tokens).value, m.vocab, m.log1p), topK, minWeight, m.select);
    }
  }

  /** Tokenise and encode one text. */
  function EncodedText(m: Model, text: string, topK: nat, minWeight: real): Result<seq<Entry>> {
    match m.tokenize(text)
    case Err(e) => Err(e)
    case Ok(tokens) => Encoded(m, tokens, topK, minWeight)
  }

  method CollectAbove(sparse: array<real>, minWeight: real) returns (entries: seq<Entry>)
    ensures entries == Above(sparse[..], minWeight, sparse.Length)
  {
    entries := [];
    for k := 0 to sparse.Length
      invariant entries == Above(sparse[..], minWeight, k)
    {
      if sparse[k] > minWeight {
        entries := entries + [Entry(k % U32, sparse[k])];
      }
    }
  }

  method EncodeSparse(m: Model, tokens: seq<nat>, topK: nat, minWeight: real) returns (r: Result<seq<Entry>>)
    requires Sane(m)
    ensures r == Encoded(m, tokens, topK, minWeight)
    ensures r.Ok? && tokens != [] && topK > 0 ==>
              Logits(m, tokens).Ok? &&
              IsTopK(r.value, Pooled(Logits(m, tokens).value, m.vocab, m.log1p), topK, minWeight)
  {
    if tokens == [] { return Ok([]); }
    if topK == 0 { return Ok([]); }
    var raw := Logits(m, tokens);
    if raw.Err? { return Err(raw.message); }
    var sparse := new real[m.vocab];
    FusedMaxPool(raw.value, sparse, m.log1p);
    var entries := CollectAbove(sparse, minWeight);
    TopKIsTopK(sparse[..], topK, minWeight, m.select);
    AboveFacts(sparse[..], minWeight, |sparse[..]|);
    ChosenFacts(entries, topK, m.select);
    if |entries| > topK {
      entries := m.select(entries, topK)[..topK];
    }
    return Ok(SortDesc(entries, WeightKey()));
  }

  // ---- The worker path ----

  /** The limit as the worker understands it: 32 bits, zero for no limit. */
  function WorkerLimit(topK: nat): (r: nat)
    ensures r > 0
  {
    if topK % U32 == 0 then USIZE_MAX else topK % U32
  }

  /** The 32-bit limit: the request's own below 2^32, none at all for a multiple of
      it, and otherwise what is left after dividing. */
  lemma WorkerLimitExactly(topK: nat)
    ensures 0 < topK < 4294967296 ==> WorkerLimit(topK) == topK
    ensures WorkerLimit(0) == 18446744073709551615
    ensures WorkerLimit(topK + 4294967296) == WorkerLimit(topK)
  {
  }

  /** The texts one after the other; the first failure fails the call. */
  method Encode(m: Model, texts: seq<string>, topK: nat, minWeight: real) returns (r: Result<seq<seq<Entry>>>)
    requires Sane(m)
    ensures r.Ok? <==> forall i :: 0 <= i < |texts| ==> EncodedText(m, texts[i], WorkerLimit(topK), minWeight).Ok?
    ensures r.Ok? ==> |r.value| == |texts| && forall i :: 0 <= i < |texts| ==>
                        EncodedText(m, texts[i], WorkerLimit(topK), minWeight) == Ok(r.value[i])
  {
    var limit := WorkerLimit(topK);
    var results := [];
    for i := 0 to |texts|
      invariant |results| == i
      invariant forall j :: 0 <= j < i ==>
                  EncodedText(m, texts[j], limit, minWeight) == Ok(results[j])
    {
      var ids := m.tokenize(texts[i]);
      if ids.Err? { return Err(ids.message); }
      var sparse := EncodeSparse(m, ids.value, limit, minWeight);
      if sparse.Err? { return Err(sparse.message); }
      results := results + [sparse.value];
    }
    return Ok(results);
  }

  function Heavy(pairs: seq<Entry>, minWeight: real): seq<Entry> {
    if pairs == [] then []
    else (if pairs[0].w > minWeight then [pairs[0]] else []) + Heavy(pairs[1..], minWeight)
  }

  lemma {:induction false} HeavySnoc(pairs: seq<Entry>, e: Entry, minWeight: real)
    ensures Heavy(pairs + [e], minWeight) == Heavy(pairs, minWeight) + if e.w > minWeight then [e] else []
  {
    if pairs == [] {
      assert (pairs + [e])[1..] == [];
    } else {
      assert (pairs + [e])[1..] == pairs[1..] + [e];
      HeavySnoc(pairs[1..], e, minWeight);
    }
  }

  function Truncated<T>(xs: seq<T>, n: nat): seq<T> {
    if |xs| > n then xs[..n] else xs
  }

  function HandlerFilter(pairs: seq<Entry>, minWeight: real, topK: nat): seq<Entry> {
    Truncated(Heavy(pairs, minWeight), topK)
  }

  /** The filter keeps, in order, exactly the pairs above the threshold: it is the
      one operation that does so for a single pair and for concatenations. */
  lemma {:induction false} HeavyExactly(pairs: seq<Entry>, more: seq<Entry>, e: Entry, minWeight: real)
    ensures Heavy([], minWeight) == []
    ensures Heavy([e], minWeight) == if e.w > minWeight then [e] else []
    ensures Heavy(pairs + more, minWeight) == Heavy(pairs, minWeight) + Heavy(more, minWeight)
  {
    assert [e][1..] == [];
    if pairs == [] {
      assert pairs + more == more;
    } else {
      assert (pairs + more)[1..] == pairs[1..] + more;
      HeavyExactly(pairs[1..], more, e, minWeight);
    }
  }

  lemma TruncatedExactly<T>(xs: seq<T>, n: nat)
    ensures Truncated(xs, n) <= xs && |Truncated(xs, n)| == Min(n, |xs|)
  {
  }

  /** The two parallel vectors of the response stay aligned. */
  method FilterResponse(pairs: seq<Entry>, minWeight: real, topK: nat) returns (indices: seq<nat>, values: seq<real>)
    ensures var kept := HandlerFilter(pairs, minWeight, topK);
            |indices| == |values| == |kept| && forall i :: 0 <= i < |kept| ==> kept[i] == Entry(indices[i], values[i])
  {
    indices, values := [], [];
    for i := 0 to |pairs|
      invariant var heavy := Heavy(pairs[..i], minWeight);
                |indices| == |values| == |heavy| &&
                forall j :: 0 <= j < |heavy| ==> heavy[j] == Entry(indices[j], values[j])
    {
      assert pairs[..i + 1] == pairs[..i] + [pairs[i]];
      HeavySnoc(pairs[..i], pairs[i], minWeight);
      if pairs[i].w > minWeight {
        indices := indices + [pairs[i].id];
        values := values + [pairs[i].w];
      }
    }
    assert pairs[..|pairs|] == pairs;
    indices, values := Truncated(indices, topK), Truncated(values, topK);
  }

  lemma {:induction false} HeavyIsAll(pairs: seq<Entry>, minWeight: real)
    requires forall e :: e in pairs ==> e.w > minWeight
    ensures Heavy(pairs, minWeight) == pairs
  {
    if pairs != [] {
      assert forall e :: e in pairs[1..] ==> e in pairs;
      HeavyIsAll(pairs[1..], minWeight);
    }
  }

  /** What a client gets for one text through the worker. */
  function WorkerPath(m: Model, tokens: seq<nat>, topK: nat, minWeight: real): Result<seq<Entry>> {
    match Encoded(m, tokens, WorkerLimit(topK), minWeight)
    case Err(e) => Err(e)
    case Ok(pairs) => Ok(HandlerFilter(pairs, minWeight, topK))
  }

  /** The handler's filter has nothing to drop but the excess. */
  lemma FilterOnlyCuts(weights: seq<real>, limit: nat, topK: nat, minWeight: real,
                       select: (seq<Entry>, nat) -> seq<Entry>)
    requires Selects(select) && |weights| <= U32
    ensures HandlerFilter(TopK(weights, limit, minWeight, select), minWeight, topK) ==
            Truncated(TopK(weights, limit, minWeight, select), topK)
  {
    TopKIsTopK(weights, limit, minWeight, select);
    HeavyIsAll(TopK(weights, limit, minWeight, select), minWeight);
  }

  /** A limit that leaves nothing out is as good as any other. */
  lemma LooseLimits(weights: seq<real>, a: nat, b: nat, minWeight: real, select: (seq<Entry>, nat) -> seq<Entry>)
    requires a > 0 && b > 0 && |Above(weights, minWeight, |weights|)| <= Min(a, b)
    ensures TopK(weights, a, minWeight, select) == TopK(weights, b, minWeight, select)
  {
  }

  lemma LimitCases(topK: nat)
    ensures topK < U32 ==> WorkerLimit(topK) == if topK == 0 then USIZE_MAX else topK
    ensures topK % U32 > 0 ==> WorkerLimit(topK) == topK % U32
    ensures topK >= U32 && topK % U32 == 0 ==> WorkerLimit(topK) == USIZE_MAX
    ensures topK % U32 < U32
  {
  }

  /** The two limits give the same entries exactly when the 32-bit limit is the
      limit asked for, or leaves nothing out. */
  lemma LimitsAgreeExactly(weights: seq<real>, topK: nat, minWeight: real, select: (seq<Entry>, nat) -> seq<Entry>)
    requires Selects(select) && |weights| <= U32
    ensures HandlerFilter(TopK(weights, WorkerLimit(topK), minWeight, select), minWeight, topK)
            == TopK(weights, topK, minWeight, select)
            <==> (topK < U32 || topK % U32 == 0 || |Above(weights, minWeight, |weights|)| <= topK % U32)
  {
    var limit, wrapped, n := WorkerLimit(topK), topK % U32, |Above(weights, minWeight, |weights|)|;
    FilterOnlyCuts(weights, limit, topK, minWeight, select);
    LimitCases(topK);
    assert |TopK(weights, limit, minWeight, select)| == Min(limit, n) by {
      TopKIsTopK(weights, limit, minWeight, select);
    }
    assert |TopK(weights, topK, minWeight, select)| == Min(topK, n) by {
      TopKIsTopK(weights, topK, minWeight, select);
    }
    assert n <= U32 by {
      AboveFacts(weights, minWeight, |weights|);
    }
    if topK >= U32 && n <= limit {
      LooseLimits(weights, limit, topK, minWeight, select);
    }
  }

  /** The two paths give a text of these tokens the same entries. */
  predicate PathsAgree(m: Model, tokens: seq<nat>, topK: nat, minWeight: real) {
    || tokens == []
    || (if Logits(m, tokens).Err? then topK > 0
        else topK < U32 || topK % U32 == 0 ||
             var weights := Pooled(Logits(m, tokens).value, m.vocab, m.log1p);
             |Above(weights, minWeight, |weights|)| <= topK % U32)
  }

  /** For one text the worker path gives the in-process result for every limit
      below 2^32, zero included, unless a failing session is masked by a zero
      limit; beyond 2^32 exactly when the wrapped limit leaves nothing out. */
  lemma TextMatches(m: Model, tokens: seq<nat>, topK: nat, minWeight: real)
    requires Sane(m)
    ensures WorkerPath(m, tokens, topK, minWeight) == Encoded(m, tokens, topK, minWeight) <==>
            PathsAgree(m, tokens, topK, minWeight)
  {
    if tokens != [] && Logits(m, tokens).Ok? {
      LimitsAgreeExactly(Pooled(Logits(m, tokens).value, m.vocab, m.log1p), topK, minWeight, m.select);
    }
  }

  // ---- The whole request ----

  /** One text's part of the response: two parallel vectors. */
  datatype SparseItem = SparseItem(index: nat, indices: seq<nat>, values: seq<real>)

  function ItemOf(index: nat, entries: seq<Entry>): (item: SparseItem)
    ensures |item.indices| == |item.values| == |entries|
  {
    SparseItem(index, MapSeq((e: Entry) => e.id, entries), MapSeq((e: Entry) => e.w, entries))
  }

  lemma ItemDetermines(index: nat, a: seq<Entry>, b: seq<Entry>)
    requires ItemOf(index, a) == ItemOf(index, b)
    ensures a == b
  {
    assert |ItemOf(index, a).indices| == |ItemOf(index, b).indices|;
    forall k | 0 <= k < |a|
      ensures a[k] == b[k]
    {
      assert a[k].id == ItemOf(index, a).indices[k] && a[k].w == ItemOf(index, a).values[k];
      assert b[k].id == ItemOf(index, b).indices[k] && b[k].w == ItemOf(index, b).values[k];
    }
  }

  /** What a client gets for one text through the worker. */
  function WorkerText(m: Model, text: string, topK: nat, minWeight: real): Result<seq<Entry>> {
    match m.tokenize(text)
    case Err(e) => Err(e)
    case Ok(tokens) => WorkerPath(m, tokens, topK, minWeight)
  }

  /** The response is an item per text in order, or an error if any text fails. */
  ghost predicate IsResponse(r: Result<seq<SparseItem>>, texts: seq<string>, f: string -> Result<seq<Entry>>) {
    && (r.Ok? <==> forall i :: 0 <= i < |texts| ==> f(texts[i]).Ok?)
    && (r.Ok? ==> |r.value| == |texts| && forall i :: 0 <= i < |texts| ==> r.value[i] == ItemOf(i, f(texts[i]).value))
  }

  /** The first n texts were answered. */
  ghost predicate Answered(data: seq<SparseItem>, texts: seq<string>, f: string -> Result<seq<Entry>>, n: nat) {
    |data| == n <= |texts| && forall j :: 0 <= j < n ==> f(texts[j]).Ok? && data[j] == ItemOf(j, f(texts[j]).value)
  }

  /** The handler with a worker: encode remotely, filter and truncate here. */
  method RespondViaWorker(m: Model, texts: seq<string>, topK: nat, minWeight: real) returns (r: Result<seq<SparseItem>>)
    requires Sane(m)
    ensures IsResponse(r, texts, text => WorkerText(m, text, topK, minWeight))
  {
    var sparse := Encode(m, texts, topK, minWeight);
    if sparse.Err? {
      var i :| 0 <= i < |texts| && EncodedText(m, texts[i], WorkerLimit(topK), minWeight).Err?;
      assert WorkerText(m, texts[i], topK, minWeight).Err?;
      return Err(sparse.message);
    }
    var data := [];
    for i := 0 to |texts|
      invariant Answered(data, texts, text => WorkerText(m, text, topK, minWeight), i)
    {
      var indices, values := FilterResponse(sparse.value[i], minWeight, topK);
      ghost var kept := WorkerText(m, texts[i], topK, minWeight).value;
      assert kept == HandlerFilter(sparse.value[i], minWeight, topK);
      assert SparseItem(i, indices, values) == ItemOf(i, kept);
      data := data + [SparseItem(i, indices, values)];
    }
    return Ok(data);
  }

  /** The handler without a worker: one text after the other. */
  method RespondInProcess(m: Model, texts: seq<string>, topK: nat, minWeight: real) returns (r: Result<seq<SparseItem>>)
    requires Sane(m)
    ensures IsResponse(r, texts, text => EncodedText(m, text, topK, minWeight))
  {
    var data := [];
    for i := 0 to |texts|
      invariant Answered(data, texts, text => EncodedText(m, text, topK, minWeight), i)
    {
      var ids := m.tokenize(texts[i]);
      if ids.Err? {
        assert EncodedText(m, texts[i], topK, minWeight).Err?;
        return Err(ids.message);
      }
      var entries := EncodeSparse(m, ids.value, topK, minWeight);
      if entries.Err? {
        assert EncodedText(m, texts[i], topK, minWeight).Err?;
        return Err(entries.message);
      }
      data := data + [ItemOf(i, entries.value)];
    }
    return Ok(data);
  }

  /** Equal responses; the text of an error does not matter. */
  predicate SameResponse(a: Result<seq<SparseItem>>, b: Result<seq<SparseItem>>) {
    (a.Err? && b.Err?) || a == b
  }

  lemma FailsAlike(m: Model, text: string, topK: nat, minWeight: real)
    requires EncodedText(m, text, topK, minWeight).Err?
    ensures WorkerText(m, text, topK, minWeight).Err?
  {
  }

  /** A request gets the same response from the worker as in process exactly when
      it fails in process, or the two paths agree on each of its texts. */
  lemma WorkerMatchesInProcess(m: Model, texts: seq<string>, topK: nat, minWeight: real,
                               remote: Result<seq<SparseItem>>, local: Result<seq<SparseItem>>)
    requires Sane(m)
    requires IsResponse(remote, texts, text => WorkerText(m, text, topK, minWeight))
    requires IsResponse(local, texts, text => EncodedText(m, text, topK, minWeight))
    ensures SameResponse(remote, local) <==>
            local.Err? || forall i :: 0 <= i < |texts| ==> PathsAgree(m, m.tokenize(texts[i]).value, topK, minWeight)
  {
    if local.Err? {
      var i :| 0 <= i < |texts| && EncodedText(m, texts[i], topK, minWeight).Err?;
      FailsAlike(m, texts[i], topK, minWeight);
    } else {
      forall i | 0 <= i < |texts|
        ensures EncodedText(m, texts[i], topK, minWeight).Ok? && m.tokenize(texts[i]).Ok?
        ensures WorkerText(m, texts[i], topK, minWeight) == EncodedText(m, texts[i], topK, minWeight) <==>
                PathsAgree(m, m.tokenize(texts[i]).value, topK, minWeight)
      {
        TextMatches(m, m.tokenize(texts[i]).value, topK, minWeight);
      }
      LocalSucceeds(texts, remote, local,
                    text => WorkerText(m, text, topK, minWeight), text => EncodedText(m, text, topK, minWeight));
    }
  }

  /** Two responses are the same exactly when they answer every text alike. */
  lemma LocalSucceeds(texts: seq<string>, remote: Result<seq<SparseItem>>, local: Result<seq<SparseItem>>,
                      f: string -> Result<seq<Entry>>, g: string -> Result<seq<Entry>>)
    requires local.Ok? && IsResponse(remote, texts, f) && IsResponse(local, texts, g)
    ensures SameResponse(remote, local) <==> forall i :: 0 <= i < |texts| ==> f(texts[i]) == g(texts[i])
  {
    if remote == local {
      forall i | 0 <= i < |texts|
        ensures f(texts[i]) == g(texts[i])
      {
        ItemDetermines(i, f(texts[i]).value, g(texts[i]).value);
      }
    }
    if forall i :: 0 <= i < |texts| ==> f(texts[i]) == g(texts[i]) {
      assert remote.value == local.value;
    }
  }
}
