/** Embedding a request: cut it into sub-batches, run one forward pass per
    sub-batch and put the vectors back in the request's order. */
module EmbedModel {
  import opened Common
  import opened SeqLen
  import opened Subbatch
  import opened Pooling
  import BatchGates

  type Row = BatchGates.Row

  /** What the session returns: a rank-3 tensor with its shape, or something else. */
  datatype Raw<F> = Tensor3(d0: nat, d1: nat, d2: nat, cells: seq<seq<seq<F>>>) | OtherRank

  ghost predicate WellShaped<F>(raw: Raw<F>) {
    raw.Tensor3? ==>
      |raw.cells| == raw.d0 &&
      forall i :: 0 <= i < raw.d0 ==>
        |raw.cells[i]| == raw.d1 && forall j :: 0 <= j < raw.d1 ==> |raw.cells[i][j]| == raw.d2
  }

  /** The padded token ids and the attention mask, row by row. */
  datatype Input = Input(ids: seq<seq<int>>, mask: seq<seq<int>>, width: nat)

  /** The session's `run` takes the number of the pass, so that passes over equal
      inputs may fare differently. */
  datatype Model<!F, !D> = Model(
    maxLen: nat, padId: nat, hasTti: bool, dim: nat, ratio: Ratio,
    fl: Floats<F, D>, run: (nat, Input) -> Result<Raw<F>>)

  /** The hidden states of row i over its unmasked tokens are those of these
      tokens alone, whatever the other rows and the padding are. */
  ghost predicate RowWiseOutput<F>(raw: Raw<F>, input: Input, net: seq<int> -> seq<seq<F>>) {
    raw.Tensor3? && raw.d0 == |input.ids| == |input.mask| ==>
      raw.d1 == input.width &&
      forall i :: 0 <= i < raw.d0 && |input.ids[i]| == |input.mask[i]| == input.width && PrefixMask(input.mask[i]) ==>
        var content := input.ids[i][..Cut(input.mask[i])];
        |net(content)| == |content| && i < |raw.cells| && |content| <= |raw.cells[i]| &&
        raw.cells[i][..|content|] == net(content)
  }

  ghost predicate RowWiseSession<F(!new), D>(m: Model<F, D>, net: seq<int> -> seq<seq<F>>) {
    forall k: nat, input :: m.run(k, input).Ok? ==>
      WellShaped(m.run(k, input).value) && RowWiseOutput(m.run(k, input).value, input, net)
  }

  // ---- The width of a pass ----

  function PassWidth(rows: seq<Row>, maxLen: nat): nat {
    RoundUp(Min(BatchGates.LongestRow(rows), maxLen), maxLen)
  }

  lemma {:induction false} LongestCovers(rows: seq<Row>, i: nat)
    requires i < |rows|
    ensures |rows[i]| <= BatchGates.LongestRow(rows)
  {
    if i > 0 {
      LongestCovers(rows[1..], i - 1);
    }
  }

  /** A pass keeps exactly the first `maxLen` tokens of each row, whatever the
      other rows are. */
  lemma WindowIsExact(rows: seq<Row>, i: nat, maxLen: nat)
    requires i < |rows| && maxLen >= 1
    ensures Min(|rows[i]|, PassWidth(rows, maxLen)) == Min(|rows[i]|, maxLen)
  {
    LongestCovers(rows, i);
    RoundUpBounds(Min(BatchGates.LongestRow(rows), maxLen), maxLen);
  }

  /** This needs a context window of at least one token: with none, the one-token
      tensor still shows the model a token. */
  lemma WindowNeedsOne(maxLen: nat)
    ensures (forall rows: seq<Row>, i :: 0 <= i < |rows| ==>
               Min(|rows[i]|, PassWidth(rows, maxLen)) == Min(|rows[i]|, maxLen)) <==> maxLen >= 1
  {
    if maxLen >= 1 {
      forall rows: seq<Row>, i | 0 <= i < |rows|
        ensures Min(|rows[i]|, PassWidth(rows, maxLen)) == Min(|rows[i]|, maxLen)
      {
        WindowIsExact(rows, i, maxLen);
      }
    } else {
      var rows: seq<Row> := [[7]];
      assert Min(|rows[0]|, PassWidth(rows, 0)) == 1;
    }
  }

  // ---- One pass ----

  function Unflatten(flat: seq<int>, batch: nat, width: nat): seq<seq<int>>
    decreases batch
  {
    if batch == 0 then []
    else
      var w := Min(width, |flat|);
      [flat[..w]] + Unflatten(flat[w..], batch - 1, width)
  }

  lemma {:induction false} UnflattenRows(xss: seq<seq<int>>, width: nat)
    requires forall i :: 0 <= i < |xss| ==> |xss[i]| == width
    ensures Unflatten(Flatten(xss), |xss|, width) == xss
  {
    if xss != [] {
      UnflattenRows(xss[1..], width);
      assert Flatten(xss)[..width] == xss[0];
      assert Flatten(xss)[width..] == Flatten(xss[1..]);
    }
  }

  function InputOf<F, D>(m: Model<F, D>, rows: seq<Row>): Input {
    var w := PassWidth(rows, m.maxLen);
    Input(PaddedRows(rows, |rows|, w, m.padId), MaskRows(rows, |rows|, w), w)
  }

  /** The vector a row has by itself. */
  function Direct<F, D>(m: Model<F, D>, net: seq<int> -> seq<seq<F>>, row: Row): seq<F> {
    PoolTokens(m.fl, net(AsInts(row, Min(|row|, m.maxLen))), m.dim)
  }

  /** The session answers the pass with a tensor of the right shape. */
  predicate Passes<F, D>(m: Model<F, D>, k: nat, rows: seq<Row>) {
    rows == [] ||
    var r := m.run(k, InputOf(m, rows));
    r.Ok? && r.value.Tensor3? && r.value.d0 == |rows| && r.value.d2 == m.dim
  }

  lemma PassRow<F(!new), D>(m: Model<F, D>, k: nat, rows: seq<Row>, net: seq<int> -> seq<seq<F>>, i: nat)
    requires m.maxLen >= 1 && RowWiseSession(m, net) && rows != [] && Passes(m, k, rows) && i < |rows|
    ensures var raw := m.run(k, InputOf(m, rows)).value;
            var mask := InputOf(m, rows).mask[i];
            Cut(mask) == Min(|rows[i]|, m.maxLen) &&
            WellShaped(raw) && Cut(mask) <= |raw.cells[i]| &&
            raw.cells[i][..Cut(mask)] == net(AsInts(rows[i], Min(|rows[i]|, m.maxLen)))
  {
    var input := InputOf(m, rows);
    var w := input.width;
    BuiltMaskIsPrefix(rows[i], w);
    WindowIsExact(rows, i, m.maxLen);
    assert input.ids[i] == PaddedRow(rows[i], w, m.padId) && input.mask[i] == RowMask(rows[i], w);
    assert input.ids[i][..Cut(input.mask[i])] == AsInts(rows[i], Min(|rows[i]|, m.maxLen));
    assert RowWiseOutput(m.run(k, input).value, input, net);
  }

  /** Pool every row, or refuse a tensor of the wrong shape. */
  method MeanPoolNormalize<F(0), D>(fl: Floats<F, D>, raw: Raw<F>, mask: seq<seq<int>>, dim: nat)
    returns (r: Result<seq<seq<F>>>)
    requires WellShaped(raw)
    requires raw.Tensor3? && raw.d0 == |mask| ==> forall i :: 0 <= i < |mask| ==> Cut(mask[i]) <= raw.d1
    ensures r.Ok? <==> raw.Tensor3? && raw.d0 == |mask| && raw.d2 == dim
    ensures r.Ok? ==>
              |r.value| == |mask| &&
              forall i :: 0 <= i < |mask| ==> r.value[i] == PoolTokens(fl, raw.cells[i][..Cut(mask[i])], dim)
  {
    if !raw.Tensor3? || raw.d0 != |mask| || raw.d2 != dim {
      return Err("unexpected output shape");
    }
    var result: seq<seq<F>> := [];
    for i := 0 to |mask|
      invariant |result| == i
      invariant forall k :: 0 <= k < i ==> result[k] == PoolTokens(fl, raw.cells[k][..Cut(mask[k])], dim)
    {
      var acc := PoolRow(fl, raw.cells[i], mask[i], dim);
      result := result + [acc];
    }
    r := Ok(result);
  }

  /** One forward pass: build the tensors, run the session, pool. */
  method OnePass<F(!new, 0), D>(m: Model<F, D>, k: nat, rows: seq<Row>, ghost net: seq<int> -> seq<seq<F>>)
    returns (r: Result<seq<seq<F>>>)
    requires m.maxLen >= 1 && RowWiseSession(m, net)
    ensures r.Ok? <==> Passes(m, k, rows)
    ensures r.Ok? ==> |r.value| == |rows| && forall i :: 0 <= i < |rows| ==> r.value[i] == Direct(m, net, rows[i])
  {
    if rows == [] { return Ok([]); }
    var realMaxSeq := Min(BatchGates.LongestRow(rows), m.maxLen);
    var maxSeq := RoundUp(realMaxSeq, m.maxLen);
    var batch := |rows|;
    var ids, mask, _ := BuildTensors(rows, batch, maxSeq, m.padId, m.hasTti);
    UnflattenRows(PaddedRows(rows, batch, maxSeq, m.padId), maxSeq);
    UnflattenRows(MaskRows(rows, batch, maxSeq), maxSeq);
    var input := Input(Unflatten(ids[..], batch, maxSeq), Unflatten(mask[..], batch, maxSeq), maxSeq);
    assert input == InputOf(m, rows);
    var out := m.run(k, input);
    if out.Err? { return Err("inference: " + out.message); }
    assert WellShaped(out.value) && RowWiseOutput(out.value, input, net);
    r := MeanPoolNormalize(m.fl, out.value, input.mask, m.dim);
    if r.Ok? {
      forall i | 0 <= i < |rows|
        ensures r.value[i] == Direct(m, net, rows[i])
      {
        PassRow(m, k, rows, net, i);
      }
    }
  }

  // ---- The whole request ----

  /** The rows of a group. */
  function Pick(rows: seq<Row>, group: seq<nat>): (sub: seq<Row>)
    requires Indices(group, rows)
    ensures |sub| == |group| && forall k :: 0 <= k < |group| ==> group[k] < |rows| && sub[k] == rows[group[k]]
  {
    assert forall k :: 0 <= k < |group| ==> group[k] in group;
    seq(|group|, k requires 0 <= k < |group| => rows[group[k]])
  }

  /** The positions of the finished groups hold the direct vectors. */
  ghost predicate Scattered<F, D>(
    m: Model<F, D>, net: seq<int> -> seq<seq<F>>, rows: seq<Row>, out: seq<seq<F>>, done: seq<nat>)
  {
    |out| == |rows| && forall i :: i in done && i < |rows| ==> out[i] == Direct(m, net, rows[i])
  }

  /** Write a group's vectors back to their original positions. */
  method Scatter<F(0), D>(
    m: Model<F, D>, rows: seq<Row>, out: array<seq<F>>, group: seq<nat>, vectors: seq<seq<F>>,
    ghost net: seq<int> -> seq<seq<F>>, ghost done: seq<nat>)
    requires out.Length == |rows| && |vectors| == |group| && Indices(group, rows)
    requires Scattered(m, net, rows, out[..], done)
    requires forall k :: 0 <= k < |group| ==> group[k] < |rows| && vectors[k] == Direct(m, net, rows[group[k]])
    modifies out
    ensures Scattered(m, net, rows, out[..], done + group)
  {
    for k := 0 to |group|
      invariant Scattered(m, net, rows, out[..], done + group[..k])
    {
      assert group[..k + 1] == group[..k] + [group[k]];
      out[group[k]] := vectors[k];
    }
    assert group[..|group|] == group;
  }

  lemma PlanIndices(groups: seq<seq<nat>>, lens: seq<nat>, ratio: Ratio)
    requires IsPlan(groups, lens, ratio)
    ensures forall k :: 0 <= k < |groups| ==> Indices(groups[k], lens)
    ensures forall i: nat :: i < |lens| ==> i in Flatten(groups)
  {
    PlanPartitions(groups, lens, ratio);
    forall i: nat | i < |lens|
      ensures i in Flatten(groups)
    {
      assert Range(|lens|)[i] == i;
      assert i in multiset(Range(|lens|));
    }
  }

  /** The lengths the planner sees: never more than the window shows. */
  function CappedLengths(rows: seq<Row>, maxLen: nat): (lens: seq<nat>)
    ensures |lens| == |rows|
    ensures forall i :: 0 <= i < |rows| ==>
              lens[i] <= |rows[i]| && lens[i] <= maxLen && (lens[i] == |rows[i]| || lens[i] == maxLen)
  {
    seq(|rows|, i requires 0 <= i < |rows| => Min(|rows[i]|, maxLen))
  }

  // ---- The reported padding is what the passes allocate ----

  /** Cells of the tensors of all passes, from the rows themselves. */
  ghost function TensorCells(rows: seq<Row>, groups: seq<seq<nat>>, maxLen: nat): nat
    requires forall k :: 0 <= k < |groups| ==> Indices(groups[k], rows)
  {
    if groups == [] then 0
    else
      assert forall k :: 0 <= k < |groups[1..]| ==> groups[1..][k] == groups[k + 1];
      |groups[0]| * PassWidth(Pick(rows, groups[0]), maxLen) + TensorCells(rows, groups[1..], maxLen)
  }

  lemma {:induction false} WidestIsLongest(rows: seq<Row>, g: seq<nat>, maxLen: nat)
    requires Indices(g, rows)
    ensures Widest(g, CappedLengths(rows, maxLen)) == Min(BatchGates.LongestRow(Pick(rows, g)), maxLen)
  {
    if g != [] {
      assert g[0] in g && forall i :: i in g[1..] ==> i in g;
      WidestIsLongest(rows, g[1..], maxLen);
      assert Pick(rows, g)[1..] == Pick(rows, g[1..]);
    }
  }

  /** The padded count of a plan is the number of cells its passes allocate. */
  lemma {:induction false} PaddedIsAllocated(rows: seq<Row>, groups: seq<seq<nat>>, maxLen: nat)
    requires forall k :: 0 <= k < |groups| ==> Indices(groups[k], rows)
    ensures Padded(groups, CappedLengths(rows, maxLen), maxLen) == TensorCells(rows, groups, maxLen)
  {
    if groups != [] {
      var rest := groups[1..];
      assert forall k :: 0 <= k < |rest| ==> rest[k] == groups[k + 1];
      WidestIsLongest(rows, groups[0], maxLen);
      PaddedIsAllocated(rows, rest, maxLen);
    }
  }

  /** The pass over the g-th group succeeds. */
  ghost predicate GroupPasses<F, D>(m: Model<F, D>, rows: seq<Row>, groups: seq<seq<nat>>, g: nat) {
    g < |groups| && Indices(groups[g], rows) && Passes(m, g, Pick(rows, groups[g]))
  }

  /** The passes over the first n groups succeed. */
  ghost predicate AllPass<F, D>(m: Model<F, D>, rows: seq<Row>, groups: seq<seq<nat>>, n: nat) {
    forall g :: 0 <= g < n ==> GroupPasses(m, rows, groups, g)
  }

  /** Sub-batching preserves meaning: for every ratio, the vector at each position
      is the one its text has by itself, and the request fails exactly when the
      forward pass over one of the planned groups does. */
  method EmbedTokens<F(!new, 0), D>(m: Model<F, D>, rows: seq<Row>, ghost net: seq<int> -> seq<seq<F>>)
    returns (r: Result<seq<seq<F>>>, ghost groups: seq<seq<nat>>)
    requires m.maxLen >= 1 && RowWiseSession(m, net)
    ensures r.Ok? ==> |r.value| == |rows| && forall i :: 0 <= i < |rows| ==> r.value[i] == Direct(m, net, rows[i])
    ensures IsPlan(groups, CappedLengths(rows, m.maxLen), m.ratio)
    ensures r.Ok? <==> if |groups| <= 1 then Passes(m, 0, rows) else AllPass(m, rows, groups, |groups|)
  {
    if rows == [] { return Ok([]), []; }
    var lens := CappedLengths(rows, m.maxLen);
    var plan := PlanSubbatches(lens, m.ratio);
    groups := plan;
    if |plan| <= 1 {
      r := OnePass(m, 0, rows, net);
      return;
    }
    PlanIndices(plan, lens, m.ratio);
    r := EmbedGroups(m, rows, plan, net);
  }

  /** The pass over one group, its vectors scattered back. One vector comes back
      per member, so the guard on the cardinality never fires. */
  method EmbedGroup<F(!new, 0), D>(
    m: Model<F, D>, rows: seq<Row>, out: array<seq<F>>, groups: seq<seq<nat>>, g: nat,
    ghost net: seq<int> -> seq<seq<F>>, ghost done: seq<nat>)
    returns (failure: Option<string>)
    requires m.maxLen >= 1 && RowWiseSession(m, net)
    requires g < |groups| && Indices(groups[g], rows) && out.Length == |rows| && Scattered(m, net, rows, out[..], done)
    modifies out
    ensures failure.None? <==> GroupPasses(m, rows, groups, g)
    ensures failure.None? ==> Scattered(m, net, rows, out[..], done + groups[g])
  {
    var sub := Pick(rows, groups[g]);
    var pass := OnePass(m, g, sub, net);
    if pass.Err? { return Some(pass.message); }
    Scatter(m, rows, out, groups[g], pass.value, net, done);
    return None;
  }

  /** After g groups: their passes succeeded and their members' vectors are in place. */
  ghost predicate Embedded<F, D>(
    m: Model<F, D>, net: seq<int> -> seq<seq<F>>, rows: seq<Row>, out: seq<seq<F>>, groups: seq<seq<nat>>, g: nat)
  {
    && g <= |groups| && AllPass(m, rows, groups, g)
    && Scattered(m, net, rows, out, Flatten(groups[..g]))
  }

  lemma EmbedNext<F, D>(
    m: Model<F, D>, net: seq<int> -> seq<seq<F>>, rows: seq<Row>, out: seq<seq<F>>, groups: seq<seq<nat>>, g: nat)
    requires g < |groups| && AllPass(m, rows, groups, g) && GroupPasses(m, rows, groups, g)
    requires Scattered(m, net, rows, out, Flatten(groups[..g]) + groups[g])
    ensures Embedded(m, net, rows, out, groups, g + 1)
  {
    assert groups[..g + 1] == groups[..g] + [groups[g]];
    FlattenSnoc(groups[..g], groups[g]);
  }

  lemma EmbeddedAll<F, D>(
    m: Model<F, D>, net: seq<int> -> seq<seq<F>>, rows: seq<Row>, out: seq<seq<F>>, groups: seq<seq<nat>>)
    requires Embedded(m, net, rows, out, groups, |groups|)
    requires forall i: nat :: i < |rows| ==> i in Flatten(groups)
    ensures |out| == |rows| && forall i :: 0 <= i < |rows| ==> out[i] == Direct(m, net, rows[i])
  {
    assert groups[..|groups|] == groups;
  }

  /** One step of the loop over the groups. */
  method EmbedNextGroup<F(!new, 0), D>(
    m: Model<F, D>, rows: seq<Row>, out: array<seq<F>>, groups: seq<seq<nat>>, g: nat,
    ghost net: seq<int> -> seq<seq<F>>)
    returns (failure: Option<string>)
    requires m.maxLen >= 1 && RowWiseSession(m, net)
    requires g < |groups| && Indices(groups[g], rows) && out.Length == |rows|
    requires Embedded(m, net, rows, out[..], groups, g)
    modifies out
    ensures if failure.None? then Embedded(m, net, rows, out[..], groups, g + 1)
            else !AllPass(m, rows, groups, |groups|)
  {
    failure := EmbedGroup(m, rows, out, groups, g, net, Flatten(groups[..g]));
    if failure.None? {
      EmbedNext(m, net, rows, out[..], groups, g);
    }
  }

  /** One pass per group, each scattered back before the next. */
  method EmbedGroups<F(!new, 0), D>(
    m: Model<F, D>, rows: seq<Row>, groups: seq<seq<nat>>, ghost net: seq<int> -> seq<seq<F>>)
    returns (r: Result<seq<seq<F>>>)
    requires m.maxLen >= 1 && RowWiseSession(m, net)
    requires forall k :: 0 <= k < |groups| ==> Indices(groups[k], rows)
    requires forall i: nat :: i < |rows| ==> i in Flatten(groups)
    ensures r.Ok? ==> |r.value| == |rows| && forall i :: 0 <= i < |rows| ==> r.value[i] == Direct(m, net, rows[i])
    ensures r.Ok? <==> AllPass(m, rows, groups, |groups|)
  {
    var out := new seq<F>[|rows|](_ => []);
    for g := 0 to |groups|
      invariant Embedded(m, net, rows, out[..], groups, g)
    {
      var failure := EmbedNextGroup(m, rows, out, groups, g, net);
      if failure.Some? { return Err(failure.value); }
    }
    EmbeddedAll(m, net, rows, out[..], groups);
    r := Ok(out[..]);
  }
}
