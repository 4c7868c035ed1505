/** Rounding of a sequence length up to a power of two, capped by the model's
    context window. The server keeps two copies of this function; both are
    this one. */
module SeqLen {
  import opened Common

  ghost predicate IsPow2(p: int)
    decreases p
  {
    p == 1 || (p > 1 && p % 2 == 0 && IsPow2(p / 2))
  }

  /** The first value in p, 2p, 4p, ... that is at least n. */
  function DoubleUntil(p: nat, n: nat): (r: nat)
    requires p >= 1
    ensures n <= r
    ensures p <= r
    ensures p < n ==> r < 2 * n
    ensures IsPow2(p) ==> IsPow2(r)
    ensures n <= p ==> r == p
    decreases n - p
  {
    if n <= p then p else DoubleUntil(2 * p, n)
  }

  function NextPow2(n: nat): nat {
    DoubleUntil(1, n)
  }

  function RoundUp(n: nat, cap: nat): nat {
    if n <= 1 then 1 else Min(NextPow2(n), cap)
  }

  /** A power of two that is at least n is never overshot by doubling. */
  lemma {:induction false} DoubleUntilLeast(p: nat, n: nat, q: nat)
    requires p >= 1 && IsPow2(p) && IsPow2(q) && n <= q && p <= q
    ensures DoubleUntil(p, n) <= q
    decreases n - p
  {
    if p < n {
      Pow2Step(p, q);
      DoubleUntilLeast(2 * p, n, q);
    }
  }

  /** There is no power of two strictly between p and 2p. */
  lemma {:induction false} Pow2Step(p: nat, q: nat)
    requires IsPow2(p) && IsPow2(q) && p < q
    ensures 2 * p <= q
    decreases p
  {
    if p > 1 {
      Pow2Step(p / 2, q / 2);
    }
  }

  /** `NextPow2` is the least power of two that is at least n, and for n >= 1
      it is less than twice n. */
  lemma NextPow2IsLeast(n: nat)
    ensures IsPow2(NextPow2(n)) && n <= NextPow2(n)
    ensures forall q: nat :: IsPow2(q) && n <= q ==> NextPow2(n) <= q
    ensures n >= 1 ==> NextPow2(n) < 2 * n
  {
    forall q: nat | IsPow2(q) && n <= q
      ensures NextPow2(n) <= q
    {
      DoubleUntilLeast(1, n, q);
    }
  }

  /** Rounding is monotone in the length. */
  lemma RoundUpMonotone(m: nat, n: nat, cap: nat)
    requires m <= n && cap >= 1
    ensures RoundUp(m, cap) <= RoundUp(n, cap)
  {
    NextPow2IsLeast(m);
    NextPow2IsLeast(n);
  }

  /** The width stays within the context window, covers every length that fits
      the window and is below twice any non-empty length, fitting or not. */
  lemma RoundUpBounds(n: nat, cap: nat)
    requires cap >= 1
    ensures Min(n, cap) <= RoundUp(n, cap) <= cap
    ensures n >= 1 ==> RoundUp(n, cap) < 2 * n
  {
    NextPow2IsLeast(n);
  }

  /** The width is the least power of two that covers the length, or the window if
      that is smaller; an empty text and a single token take one cell. */
  lemma RoundUpExactly(n: nat, cap: nat)
    ensures n <= 1 ==> RoundUp(n, cap) == 1
    ensures n >= 2 ==> RoundUp(n, cap) <= cap
    ensures n >= 2 ==> forall q: nat :: IsPow2(q) && n <= q ==> RoundUp(n, cap) <= q
    ensures n >= 2 ==> RoundUp(n, cap) == cap || (IsPow2(RoundUp(n, cap)) && n <= RoundUp(n, cap))
  {
    NextPow2IsLeast(n);
  }
}
