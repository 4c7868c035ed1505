/** The precomputed ALiBi bias and the two slices that cut it to the runtime
    sequence length. */
module AlibiBias {
  import opened Common
  import opened OnnxGraph

  function Distance(i: nat, j: nat): nat {
    if i < j then j - i else i - j
  }

  /** Minus slope times distance, for every head, row and column. */
  function BiasTensor(slopes: seq<real>, n: nat): Tensor {
    [MapSeq((slope: real) => HeadBias(slope, n), slopes)]
  }

  function HeadBias(slope: real, n: nat): seq<seq<real>> {
    seq(n, (i: nat) => RowBias(slope, n, i))
  }

  function RowBias(slope: real, n: nat, i: nat): seq<real> {
    seq(n, (j: nat) => Cell(slope, Distance(i, j)))
  }

  function Cell(slope: real, distance: nat): real {
    -slope * distance as real
  }

  function SliceBoth(t: Tensor, s: int): Tensor {
    SliceTensor(SliceTensor(t, 0, s, 2), 0, s, 3)
  }

  lemma HeadCut(slope: real, n: nat, s: nat)
    ensures MapSeq((row: seq<real>) => Cut(row, 0, s), Cut(HeadBias(slope, n), 0, s)) == HeadBias(slope, Min(s, n))
  {
    var m := Min(s, n);
    var rows := Cut(HeadBias(slope, n), 0, s);
    assert rows == HeadBias(slope, n)[..m];
    forall i: nat | i < m
      ensures Cut(rows[i], 0, s) == RowBias(slope, m, i)
    {
      assert rows[i] == RowBias(slope, n, i);
    }
  }

  /** Slicing rows and then columns gives the bias of the shorter length. */
  lemma SlicedBias(slopes: seq<real>, maxLen: nat, s: nat)
    ensures SliceBoth(BiasTensor(slopes, maxLen), s) == BiasTensor(slopes, Min(s, maxLen))
  {
    var heads := SliceBoth(BiasTensor(slopes, maxLen), s)[0];
    forall h | 0 <= h < |slopes|
      ensures heads[h] == HeadBias(slopes[h], Min(s, maxLen))
    {
      HeadCut(slopes[h], maxLen, s);
    }
    assert heads == BiasTensor(slopes, Min(s, maxLen))[0];
  }

  /** The ALiBi bias of a sequence of length n: one batch, a square of n by n for
      every head, and at row i and column j minus the head's slope times how far
      apart i and j are. */
  ghost predicate IsAlibi(t: Tensor, slopes: seq<real>, n: nat) {
    && |t| == 1 && |t[0]| == |slopes|
    && forall h :: 0 <= h < |slopes| ==> IsHead(t[0][h], slopes[h], n)
  }

  ghost predicate IsHead(head: seq<seq<real>>, slope: real, n: nat) {
    && |head| == n
    && (forall i :: 0 <= i < n ==> |head[i]| == n)
    && (forall i: nat, j: nat :: i <= j < n ==> IsPenalty(head, slope, i, j))
  }

  /** The entries at (i, j) and (j, i) are minus the slope times j - i. */
  ghost predicate IsPenalty(head: seq<seq<real>>, slope: real, i: nat, j: nat) {
    && i <= j < |head| && j < |head[i]| && i < |head[j]|
    && head[i][j] == Penalty(slope, j - i) && head[j][i] == Penalty(slope, j - i)
  }

  /** Minus the slope for every step apart. */
  ghost function Penalty(slope: real, steps: nat): real {
    -slope * steps as real
  }

  lemma CellIsPenalty(slope: real, steps: nat)
    ensures Cell(slope, steps) == Penalty(slope, steps)
  {
  }

  lemma HeadIsHead(slope: real, n: nat)
    ensures IsHead(HeadBias(slope, n), slope, n)
  {
    var head := HeadBias(slope, n);
    forall i: nat, j: nat | i <= j < n
      ensures IsPenalty(head, slope, i, j)
    {
      var steps: nat := j - i;
      assert head[i][j] == Cell(slope, Distance(i, j)) == Cell(slope, steps);
      assert head[j][i] == Cell(slope, Distance(j, i)) == Cell(slope, steps);
      CellIsPenalty(slope, steps);
    }
  }

  lemma HeadsAgree(a: seq<seq<real>>, b: seq<seq<real>>, slope: real, n: nat)
    requires IsHead(a, slope, n) && IsHead(b, slope, n)
    ensures a == b
  {
    forall i: nat | i < n
      ensures a[i] == b[i]
    {
      forall j: nat | j < n
        ensures a[i][j] == b[i][j]
      {
        var lo: nat, hi: nat := Min(i, j), Max(i, j);
        assert IsPenalty(a, slope, lo, hi) && IsPenalty(b, slope, lo, hi);
      }
    }
  }

  /** The precomputed constant is that bias, and nothing else is. */
  lemma ConstIsAlibi(t: Tensor, slopes: seq<real>, n: nat)
    ensures IsAlibi(t, slopes, n) <==> t == BiasTensor(slopes, n)
  {
    var c := BiasTensor(slopes, n);
    forall h | 0 <= h < |slopes|
      ensures c[0][h] == HeadBias(slopes[h], n) && IsHead(c[0][h], slopes[h], n)
    {
      HeadIsHead(slopes[h], n);
    }
    if IsAlibi(t, slopes, n) {
      forall h | 0 <= h < |slopes|
        ensures t[0][h] == c[0][h]
      {
        HeadsAgree(t[0][h], c[0][h], slopes[h], n);
      }
      assert t[0] == c[0];
    }
  }

  /** The slices of the bias of length maxLen are the bias of length s exactly up
      to the precomputed length. */
  lemma SliceIsRuntimeBias(t: Tensor, slopes: seq<real>, maxLen: nat, s: nat)
    requires slopes != [] && IsAlibi(t, slopes, maxLen)
    ensures IsAlibi(SliceBoth(t, s), slopes, s) <==> s <= maxLen
  {
    ConstIsAlibi(t, slopes, maxLen);
    SlicedBias(slopes, maxLen, s);
    ConstIsAlibi(SliceBoth(t, s), slopes, s);
    if s > maxLen {
      assert |BiasTensor(slopes, s)[0][0]| == s;
      assert |BiasTensor(slopes, maxLen)[0][0]| == maxLen;
    }
  }

  /** One head of slope one half and two positions. */
  lemma HalfSlope()
    ensures BiasTensor([0.5], 2) == [[[[0.0, -0.5], [-0.5, 0.0]]]]
  {
    var rows := HeadBias(0.5, 2);
    assert Cell(0.5, 0) == 0.0 && Cell(0.5, 1) == -0.5;
    assert rows[0] == [0.0, -0.5] && rows[1] == [-0.5, 0.0];
    assert rows == [[0.0, -0.5], [-0.5, 0.0]];
    assert BiasTensor([0.5], 2)[0] == [rows];
  }
}
