/** Padded input tensors, and mean pooling over the real tokens of each row.
    Floating-point operations are uninterpreted: only the order in which they
    are applied matters. */
module Pooling {
  import opened Common

  // ---- Building the tensors ----

  function Pads(n: nat, x: int): (s: seq<int>)
    ensures |s| == n && forall i :: 0 <= i < n ==> s[i] == x
  {
    seq(n, _ => x)
  }

  /** A row's tokens, cut or padded to the width. */
  function PaddedRow(row: seq<nat>, width: nat, pad: int): (s: seq<int>)
    ensures |s| == width
  {
    var len := Min(|row|, width);
    AsInts(row, len) + Pads(width - len, pad)
  }

  /** Ones over the row's tokens, zeros over the padding. */
  function RowMask(row: seq<nat>, width: nat): (s: seq<int>)
    ensures |s| == width
  {
    var len := Min(|row|, width);
    Pads(len, 1) + Pads(width - len, 0)
  }

  function RowAt(rows: seq<seq<nat>>, i: nat): seq<nat> {
    if i < |rows| then rows[i] else []
  }

  function PaddedRows(rows: seq<seq<nat>>, batch: nat, width: nat, pad: int): (s: seq<seq<int>>)
    ensures |s| == batch && forall i :: 0 <= i < batch ==> s[i] == PaddedRow(RowAt(rows, i), width, pad)
  {
    seq(batch, i requires 0 <= i < batch => PaddedRow(RowAt(rows, i), width, pad))
  }

  function MaskRows(rows: seq<seq<nat>>, batch: nat, width: nat): (s: seq<seq<int>>)
    ensures |s| == batch && forall i :: 0 <= i < batch ==> s[i] == RowMask(RowAt(rows, i), width)
  {
    seq(batch, i requires 0 <= i < batch => RowMask(RowAt(rows, i), width))
  }

  function AsInts(row: seq<nat>, len: nat): (s: seq<int>)
    requires len <= |row|
    ensures |s| == len && forall i :: 0 <= i < len ==> s[i] == row[i]
  {
    seq(len, i requires 0 <= i < len => row[i] as int)
  }

  /** `s` with `cells` written at `offset`. */
  function Write(s: seq<int>, offset: nat, cells: seq<int>): (t: seq<int>)
    requires offset + |cells| <= |s|
    ensures |t| == |s|
  {
    s[..offset] + cells + s[offset + |cells|..]
  }

  /** The inner loop: write a row's tokens and ones at an offset. */
  method FillRow(ids: array<int>, mask: array<int>, offset: nat, row: seq<nat>, len: nat)
    requires ids != mask && offset + len <= ids.Length == mask.Length && len <= |row|
    modifies ids, mask
    ensures ids[..] == Write(old(ids[..]), offset, AsInts(row, len))
    ensures mask[..] == Write(old(mask[..]), offset, Pads(len, 1))
  {
    for j := 0 to len
      invariant forall k :: 0 <= k < ids.Length ==>
                  ids[k] == (if offset <= k < offset + j then row[k - offset] else old(ids[k])) &&
                  mask[k] == (if offset <= k < offset + j then 1 else old(mask[k]))
    {
      ids[offset + j] := row[j];
      mask[offset + j] := 1;
    }
  }

  lemma {:induction false} FlattenLength(xss: seq<seq<int>>, width: nat)
    requires forall i :: 0 <= i < |xss| ==> |xss[i]| == width
    ensures |Flatten(xss)| == |xss| * width
  {
    if xss != [] {
      FlattenLength(xss[1..], width);
      MulSucc(|xss[1..]|, width);
    }
  }

  lemma MulSucc(n: nat, w: nat)
    ensures (n + 1) * w == n * w + w
  {
  }

  lemma MulLe(a: nat, b: nat, w: nat)
    requires a <= b
    ensures a * w <= b * w
  {
  }

  /** Writing a row at the end of the finished part turns it into that part and
      one more padded row. */
  lemma WriteRow(done: seq<int>, m: nat, x: int, cells: seq<int>, w: nat)
    requires |cells| <= w <= m
    ensures Write(done + Pads(m, x), |done|, cells) == (done + (cells + Pads(w - |cells|, x))) + Pads(m - w, x)
  {
  }

  /** The buffer after the first i rows: they are in place, the rest is fill. */
  ghost predicate Filled(buffer: seq<int>, rows: seq<seq<int>>, i: nat, fill: int)
    requires i <= |rows|
  {
    |Flatten(rows[..i])| <= |buffer| &&
    buffer == Flatten(rows[..i]) + Pads(|buffer| - |Flatten(rows[..i])|, fill)
  }

  lemma FillNext(buffer: seq<int>, rows: seq<seq<int>>, i: nat, fill: int, cells: seq<int>, w: nat)
    requires i < |rows| && Filled(buffer, rows, i, fill) && |buffer| == |rows| * w
    requires forall k :: 0 <= k < |rows| ==> |rows[k]| == w
    requires |cells| <= w && rows[i] == cells + Pads(w - |cells|, fill)
    ensures |Flatten(rows[..i])| == i * w && i * w + w <= |buffer|
    ensures Filled(Write(buffer, i * w, cells), rows, i + 1, fill)
  {
    var done := Flatten(rows[..i]);
    FlattenLength(rows[..i], w);
    MulSucc(i, w);
    MulLe(i + 1, |rows|, w);
    assert rows[..i + 1] == rows[..i] + [rows[i]];
    FlattenSnoc(rows[..i], rows[i]);
    WriteRow(done, |buffer| - |done|, fill, cells, w);
  }

  lemma {:induction false} FlattenFill(rows: seq<seq<int>>, fill: int)
    requires forall i, k :: 0 <= i < |rows| && 0 <= k < |rows[i]| ==> rows[i][k] == fill
    ensures Flatten(rows) == Pads(|Flatten(rows)|, fill)
  {
    if rows != [] {
      assert forall i :: 0 <= i < |rows[1..]| ==> rows[1..][i] == rows[i + 1];
      FlattenFill(rows[1..], fill);
    }
  }

  /** Rows nobody writes are all fill. */
  lemma FillRest(buffer: seq<int>, rows: seq<seq<int>>, i: nat, fill: int, w: nat)
    requires i <= |rows| && Filled(buffer, rows, i, fill) && |buffer| == |rows| * w
    requires forall k :: 0 <= k < |rows| ==> |rows[k]| == w
    requires forall j, k :: i <= j < |rows| && 0 <= k < |rows[j]| ==> rows[j][k] == fill
    ensures buffer == Flatten(rows)
  {
    assert rows == rows[..i] + rows[i..];
    FlattenConcat(rows[..i], rows[i..]);
    FlattenLength(rows, w);
    FlattenFill(rows[i..], fill);
  }

  /** One iteration of the outer loop. */
  method PlaceRow(ids: array<int>, mask: array<int>, rows: seq<seq<nat>>, i: nat, batch: nat, maxSeq: nat, padId: nat)
    requires i < |rows| <= batch && ids != mask && ids.Length == mask.Length == batch * maxSeq
    requires Filled(ids[..], PaddedRows(rows, batch, maxSeq, padId), i, padId)
    requires Filled(mask[..], MaskRows(rows, batch, maxSeq), i, 0)
    modifies ids, mask
    ensures Filled(ids[..], PaddedRows(rows, batch, maxSeq, padId), i + 1, padId)
    ensures Filled(mask[..], MaskRows(rows, batch, maxSeq), i + 1, 0)
  {
    var row := rows[i];
    var len := Min(|row|, maxSeq);
    FillNext(ids[..], PaddedRows(rows, batch, maxSeq, padId), i, padId, AsInts(row, len), maxSeq);
    FillNext(mask[..], MaskRows(rows, batch, maxSeq), i, 0, Pads(len, 1), maxSeq);
    FillRow(ids, mask, i * maxSeq, row, len);
  }

  lemma AllPlaced(rows: seq<seq<nat>>, batch: nat, maxSeq: nat, padId: nat, ids: seq<int>, mask: seq<int>)
    requires |rows| <= batch && |ids| == |mask| == batch * maxSeq
    requires Filled(ids, PaddedRows(rows, batch, maxSeq, padId), |rows|, padId)
    requires Filled(mask, MaskRows(rows, batch, maxSeq), |rows|, 0)
    ensures ids == Flatten(PaddedRows(rows, batch, maxSeq, padId)) && mask == Flatten(MaskRows(rows, batch, maxSeq))
  {
    FillRest(ids, PaddedRows(rows, batch, maxSeq, padId), |rows|, padId, maxSeq);
    FillRest(mask, MaskRows(rows, batch, maxSeq), |rows|, 0, maxSeq);
  }

  lemma NonePlaced(buffer: seq<int>, rows: seq<seq<int>>, fill: int)
    requires buffer == Pads(|buffer|, fill)
    ensures Filled(buffer, rows, 0, fill)
  {
    assert rows[..0] == [];
  }

  method Buffer(n: nat, x: int) returns (a: array<int>)
    ensures fresh(a) && a[..] == Pads(n, x)
  {
    a := new int[n](_ => x);
  }

  /** The outer loop over freshly padded buffers. */
  method PlaceRows(ids: array<int>, mask: array<int>, rows: seq<seq<nat>>, batch: nat, maxSeq: nat, padId: nat)
    requires |rows| <= batch && ids != mask && ids.Length == mask.Length == batch * maxSeq
    requires ids[..] == Pads(ids.Length, padId) && mask[..] == Pads(mask.Length, 0)
    modifies ids, mask
    ensures ids[..] == Flatten(PaddedRows(rows, batch, maxSeq, padId))
    ensures mask[..] == Flatten(MaskRows(rows, batch, maxSeq))
  {
    ghost var idRows, maskRows := PaddedRows(rows, batch, maxSeq, padId), MaskRows(rows, batch, maxSeq);
    NonePlaced(ids[..], idRows, padId);
    NonePlaced(mask[..], maskRows, 0);
    for i := 0 to |rows|
      invariant Filled(ids[..], idRows, i, padId) && Filled(mask[..], maskRows, i, 0)
    {
      PlaceRow(ids, mask, rows, i, batch, maxSeq, padId);
    }
    AllPlaced(rows, batch, maxSeq, padId, ids[..], mask[..]);
  }

  /** The flattened tensor holds each row at its offset, cut or padded to the
      common width, and a mask of ones over real tokens then zeros. */
  method BuildTensors(rows: seq<seq<nat>>, batch: nat, maxSeq: nat, padId: nat, withTti: bool)
    returns (ids: array<int>, mask: array<int>, tti: Option<array<int>>)
    requires |rows| <= batch
    ensures ids[..] == Flatten(PaddedRows(rows, batch, maxSeq, padId))
    ensures mask[..] == Flatten(MaskRows(rows, batch, maxSeq))
    ensures tti.Some? == withTti && (withTti ==> tti.value[..] == Pads(batch * maxSeq, 0))
  {
    ids := Buffer(batch * maxSeq, padId);
    mask := Buffer(batch * maxSeq, 0);
    PlaceRows(ids, mask, rows, batch, maxSeq, padId);
    tti := None;
    if withTti {
      var zeros := Buffer(batch * maxSeq, 0);
      tti := Some(zeros);
    }
  }

  lemma {:induction false} FlattenCell(xss: seq<seq<int>>, width: nat, i: nat, j: nat)
    requires (forall k :: 0 <= k < |xss| ==> |xss[k]| == width) && i < |xss| && j < width
    ensures i * width + j < |Flatten(xss)| && Flatten(xss)[i * width + j] == xss[i][j]
  {
    if i > 0 {
      var rest := xss[1..];
      assert forall k :: 0 <= k < |rest| ==> rest[k] == xss[k + 1];
      FlattenCell(rest, width, i - 1, j);
      MulSucc(i - 1, width);
    }
  }

  /** Cell by cell: position j of row i holds the row's j-th token and a one in the
      mask if there is such a token, and the pad id and a zero otherwise. */
  lemma TensorCell(rows: seq<seq<nat>>, batch: nat, width: nat, pad: nat, i: nat, j: nat)
    requires i < |rows| <= batch && j < width
    ensures var ids, mask := Flatten(PaddedRows(rows, batch, width, pad)), Flatten(MaskRows(rows, batch, width));
            var at := i * width + j;
            && at < |ids| && at < |mask|
            && ids[at] == (if j < |rows[i]| then rows[i][j] else pad)
            && mask[at] == (if j < |rows[i]| then 1 else 0)
  {
    FlattenCell(PaddedRows(rows, batch, width, pad), width, i, j);
    FlattenCell(MaskRows(rows, batch, width), width, i, j);
  }

  // ---- Which tokens are pooled ----

  /** The first zero of the mask, or its length. */
  function Cut(mask: seq<int>): (n: nat)
    ensures n <= |mask|
    ensures forall j :: 0 <= j < n ==> mask[j] != 0
    ensures n < |mask| ==> mask[n] == 0
  {
    if mask == [] || mask[0] == 0 then 0 else 1 + Cut(mask[1..])
  }

  /** The tokens at positions with a positive mask. */
  function Selected<T>(row: seq<T>, mask: seq<int>): seq<T>
    requires |row| >= |mask|
  {
    if mask == [] then []
    else
      var n := |mask| - 1;
      Selected(row, mask[..n]) + if mask[n] > 0 then [row[n]] else []
  }

  /** Nothing positive comes after a zero, and nothing negative before every zero. */
  ghost predicate PrefixMask(mask: seq<int>) {
    && (forall i, j :: 0 <= i < j < |mask| && mask[i] == 0 ==> mask[j] <= 0)
    && (forall j :: 0 <= j < |mask| && mask[j] < 0 ==> exists i :: 0 <= i < j && mask[i] == 0)
  }

  /** Then the positive entries are those before the first zero, and only then. */
  lemma PrefixMaskAtCut(mask: seq<int>)
    ensures PrefixMask(mask) <==> forall j :: 0 <= j < |mask| ==> (mask[j] > 0 <==> j < Cut(mask))
  {
    if forall j :: 0 <= j < |mask| ==> (mask[j] > 0 <==> j < Cut(mask)) {
      forall j | 0 <= j < |mask| && mask[j] < 0
        ensures exists i :: 0 <= i < j && mask[i] == 0
      {
        assert mask[Cut(mask)] == 0;
      }
    }
  }

  lemma {:induction false} SelectedPrefix<T>(row: seq<T>, mask: seq<int>, n: nat)
    requires |row| >= |mask| && n <= |mask|
    requires forall j :: 0 <= j < |mask| ==> (mask[j] > 0 <==> j < n)
    ensures Selected(row, mask) == row[..n]
  {
    if mask != [] {
      var m := |mask| - 1;
      SelectedPrefix(row, mask[..m], Min(n, m));
      if n == m + 1 {
        assert row[..n] == row[..m] + [row[m]];
      }
    }
  }

  lemma {:induction false} SelectedPositions(row: seq<nat>, mask: seq<int>, j: nat)
    requires |row| >= |mask| && forall i :: 0 <= i < |row| ==> row[i] == i
    ensures j in Selected(row, mask) <==> j < |mask| && mask[j] > 0
  {
    if mask != [] {
      SelectedPositions(row, mask[..|mask| - 1], j);
    }
  }

  /** Cutting at the first zero pools exactly the masked tokens of every row if
      and only if the mask is a prefix mask. */
  lemma {:induction false} CutIsExact(mask: seq<int>)
    ensures PrefixMask(mask) <==> Selected(Range(|mask|), mask) == Range(|mask|)[..Cut(mask)]
  {
    var row := Range(|mask|);
    PrefixMaskAtCut(mask);
    if PrefixMask(mask) {
      SelectedPrefix(row, mask, Cut(mask));
    }
    if Selected(row, mask) == row[..Cut(mask)] {
      forall j | 0 <= j < |mask|
        ensures mask[j] > 0 <==> j < Cut(mask)
      {
        SelectedPositions(row, mask, j);
        assert j < Cut(mask) ==> row[..Cut(mask)][j] == j;
      }
    }
  }

  lemma {:induction false} CutOf(mask: seq<int>, n: nat)
    requires n <= |mask| && forall j :: 0 <= j < |mask| ==> mask[j] == if j < n then 1 else 0
    ensures Cut(mask) == n
  {
    if n > 0 {
      CutOf(mask[1..], n - 1);
    }
  }

  /** The masks the tensor builder makes are prefix masks. */
  lemma BuiltMaskIsPrefix(row: seq<nat>, width: nat)
    ensures PrefixMask(RowMask(row, width)) && Cut(RowMask(row, width)) == Min(|row|, width)
  {
    var mask, n := RowMask(row, width), Min(|row|, width);
    assert forall j :: 0 <= j < width ==> mask[j] == if j < n then 1 else 0;
    CutOf(mask, n);
  }

  /** A mask with a gap, on which cutting at the first zero drops a real token. */
  lemma GapMaskDiffers()
    ensures Selected([0, 1, 2], [1, 0, 1]) == [0, 2] && Cut([1, 0, 1]) == 1
  {
    var row: seq<nat> := [0, 1, 2];
    assert [1, 0, 1][..2] == [1, 0] && [1, 0][..1] == [1] && [1][..0] == [];
    assert Selected(row, [1]) == [0];
    assert Selected(row, [1, 0]) == [0];
    assert [1, 0, 1][1..] == [0, 1];
    assert Cut([0, 1]) == 0;
  }

  // ---- Pooling with uninterpreted arithmetic ----

  /** The float operations of the pooling loop: single precision `F` for the
      vectors, double precision `D` for counts and norms. */
  datatype Floats<!F, !D> = Floats(
    zero: F, add: (F, F) -> F, scale: (F, F) -> F,
    none: D, one: D, addD: (D, D) -> D, square: F -> D, root: D -> D,
    positive: D -> bool, inverse: D -> F, ofCount: nat -> D)

  /** Counting up by ones is exact in double precision. */
  ghost predicate ExactCounts<F, D>(fl: Floats<F, D>) {
    fl.ofCount(0) == fl.none && forall n: nat :: fl.ofCount(n + 1) == fl.addD(fl.ofCount(n), fl.one)
  }

  function Zeros<F, D>(fl: Floats<F, D>, dim: nat): (v: seq<F>)
    ensures |v| == dim
  {
    seq(dim, _ => fl.zero)
  }

  function AddVec<F, D>(fl: Floats<F, D>, a: seq<F>, b: seq<F>): (v: seq<F>)
    ensures |v| == |a|
  {
    seq(|a|, k requires 0 <= k < |a| => if k < |b| then fl.add(a[k], b[k]) else a[k])
  }

  function ScaleVec<F, D>(fl: Floats<F, D>, a: seq<F>, c: F): (v: seq<F>)
    ensures |v| == |a|
  {
    seq(|a|, k requires 0 <= k < |a| => fl.scale(a[k], c))
  }

  function SumTokens<F, D>(fl: Floats<F, D>, tokens: seq<seq<F>>, dim: nat): (v: seq<F>)
    ensures |v| == dim
  {
    if tokens == [] then Zeros(fl, dim)
    else AddVec(fl, SumTokens(fl, tokens[..|tokens| - 1], dim), tokens[|tokens| - 1])
  }

  function SumSquares<F, D>(fl: Floats<F, D>, v: seq<F>): D {
    if v == [] then fl.none else fl.addD(SumSquares(fl, v[..|v| - 1]), fl.square(v[|v| - 1]))
  }

  function Mean<F, D>(fl: Floats<F, D>, sum: seq<F>, count: D): seq<F> {
    if fl.positive(count) then ScaleVec(fl, sum, fl.inverse(count)) else sum
  }

  function Normalize<F, D>(fl: Floats<F, D>, v: seq<F>): seq<F> {
    var norm := fl.root(SumSquares(fl, v));
    if fl.positive(norm) then ScaleVec(fl, v, fl.inverse(norm)) else v
  }

  /** The pooled vector of a sequence of token vectors. */
  function PoolTokens<F, D>(fl: Floats<F, D>, tokens: seq<seq<F>>, dim: nat): seq<F> {
    Normalize(fl, Mean(fl, SumTokens(fl, tokens, dim), fl.ofCount(|tokens|)))
  }

  /** `acc[k] += token[k]` in place. */
  method AddInto<F, D>(fl: Floats<F, D>, acc: array<F>, token: seq<F>)
    requires |token| == acc.Length
    modifies acc
    ensures acc[..] == AddVec(fl, old(acc[..]), token)
  {
    for k := 0 to acc.Length
      invariant forall i :: 0 <= i < acc.Length ==>
                  acc[i] == if i < k then fl.add(old(acc[i]), token[i]) else old(acc[i])
    {
      acc[k] := fl.add(acc[k], token[k]);
    }
  }

  method ScaleInto<F, D>(fl: Floats<F, D>, acc: array<F>, c: F)
    modifies acc
    ensures acc[..] == ScaleVec(fl, old(acc[..]), c)
  {
    for k := 0 to acc.Length
      invariant forall i :: 0 <= i < acc.Length ==>
                  acc[i] == if i < k then fl.scale(old(acc[i]), c) else old(acc[i])
    {
      acc[k] := fl.scale(acc[k], c);
    }
  }

  /** Average by the count, then divide by the norm, in place. */
  method Finish<F, D>(fl: Floats<F, D>, acc: array<F>, count: D)
    modifies acc
    ensures acc[..] == Normalize(fl, Mean(fl, old(acc[..]), count))
  {
    if fl.positive(count) {
      ScaleInto(fl, acc, fl.inverse(count));
    }
    var sum := fl.none;
    for k := 0 to acc.Length
      invariant sum == SumSquares(fl, acc[..k])
    {
      assert acc[..k + 1][..k] == acc[..k];
      sum := fl.addD(sum, fl.square(acc[k]));
    }
    assert acc[..acc.Length] == acc[..];
    var norm := fl.root(sum);
    if fl.positive(norm) {
      ScaleInto(fl, acc, fl.inverse(norm));
    }
  }

  /** The production loop: find the cut once, then add without looking at the mask. */
  method PoolRow<F(0), D>(fl: Floats<F, D>, row: seq<seq<F>>, mask: seq<int>, dim: nat) returns (v: seq<F>)
    requires |row| >= Cut(mask) && forall j :: 0 <= j < Cut(mask) ==> |row[j]| == dim
    ensures v == PoolTokens(fl, row[..Cut(mask)], dim)
  {
    var realTokens := Cut(mask);
    var acc := new F[dim](_ => fl.zero);
    assert acc[..] == Zeros(fl, dim);
    for j := 0 to realTokens
      invariant acc[..] == SumTokens(fl, row[..j], dim)
    {
      assert row[..j + 1][..j] == row[..j];
      AddInto(fl, acc, row[j]);
    }
    Finish(fl, acc, fl.ofCount(realTokens));
    v := acc[..];
  }

  /** The reference loop: test the mask at every position and count as it goes. */
  method PoolRowReference<F(0), D>(fl: Floats<F, D>, row: seq<seq<F>>, mask: seq<int>, dim: nat) returns (v: seq<F>)
    requires ExactCounts(fl)
    requires |row| >= |mask| && forall j :: 0 <= j < |mask| ==> |row[j]| == dim
    ensures v == PoolTokens(fl, Selected(row, mask), dim)
  {
    var acc := new F[dim](_ => fl.zero);
    assert acc[..] == Zeros(fl, dim);
    var count := fl.none;
    for j := 0 to |mask|
      invariant acc[..] == SumTokens(fl, Selected(row, mask[..j]), dim)
      invariant count == fl.ofCount(|Selected(row, mask[..j])|)
    {
      assert mask[..j + 1][..j] == mask[..j];
      if mask[j] > 0 {
        ghost var before := Selected(row, mask[..j]);
        assert Selected(row, mask[..j + 1]) == before + [row[j]];
        assert (before + [row[j]])[..|before|] == before;
        count := fl.addD(count, fl.one);
        AddInto(fl, acc, row[j]);
      } else {
        assert Selected(row, mask[..j + 1]) == Selected(row, mask[..j]);
      }
    }
    assert mask[..|mask|] == mask;
    Finish(fl, acc, count);
    v := acc[..];
  }

  /** The fast loop refines the reference on every mask the builder makes, also
      when the row is longer than the width and was truncated. */
  lemma {:induction false} FastPoolingRefines<F, D>(fl: Floats<F, D>, tokens: seq<nat>, width: nat,
                                                    row: seq<seq<F>>, dim: nat)
    requires |row| >= width
    ensures var mask := RowMask(tokens, width);
            PoolTokens(fl, row[..Cut(mask)], dim) == PoolTokens(fl, Selected(row, mask), dim)
  {
    BuiltMaskIsPrefix(tokens, width);
    SelectedPrefix(row, RowMask(tokens, width), Min(|tokens|, width));
  }

  /** The fast loop depends only on the tokens it shows: two widths that show the
      same tokens of a row give the same vector, whatever is in the padding. */
  lemma {:induction false} PaddingIsInvisible<F, D>(
    fl: Floats<F, D>, tokens: seq<nat>, width: nat, wider: nat, row: seq<seq<F>>, other: seq<seq<F>>, dim: nat)
    requires Min(|tokens|, width) == Min(|tokens|, wider) && |row| >= width && |other| >= wider
    requires row[..Min(|tokens|, width)] == other[..Min(|tokens|, width)]
    ensures PoolTokens(fl, row[..Cut(RowMask(tokens, width))], dim) ==
            PoolTokens(fl, other[..Cut(RowMask(tokens, wider))], dim)
  {
    BuiltMaskIsPrefix(tokens, width);
    BuiltMaskIsPrefix(tokens, wider);
  }
}
