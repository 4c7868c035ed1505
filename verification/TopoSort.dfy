/** Putting the nodes of a graph in producer order by repeated passes. */
module TopoSort {
  import opened Common
  import opened OnnxGraph

  ghost predicate Orderable(nodes: seq<Node>, avail: set<string>) {
    exists p :: multiset(p) == multiset(nodes) && Ordered(p, avail)
  }

  /** One pass over the remaining nodes: those it takes, and those still left. */
  datatype Swept = Swept(taken: seq<Node>, still: seq<Node>)

  /** Every node that is ready is taken, and its outputs are available at once to
      the nodes after it. */
  function Sweep(remaining: seq<Node>, avail: set<string>): Swept {
    if remaining == [] then Swept([], [])
    else
      var n, rest := remaining[0], remaining[1..];
      if Ready(n, avail) then
        var s := Sweep(rest, avail + Outs(n));
        Swept([n] + s.taken, s.still)
      else
        var s := Sweep(rest, avail);
        Swept(s.taken, [n] + s.still)
  }

  lemma {:induction false} SweepKeeps(remaining: seq<Node>, avail: set<string>)
    ensures var s := Sweep(remaining, avail);
            multiset(s.taken) + multiset(s.still) == multiset(remaining) && Ordered(s.taken, avail)
  {
    if remaining != [] {
      var n, rest := remaining[0], remaining[1..];
      assert remaining == [n] + rest;
      SweepKeeps(rest, avail + Outs(n));
      SweepKeeps(rest, avail);
    }
  }

  /** A pass takes nothing only when no node is ready. */
  lemma {:induction false} SweepStuck(remaining: seq<Node>, avail: set<string>)
    requires Sweep(remaining, avail).taken == []
    ensures forall n :: n in remaining ==> !Ready(n, avail)
  {
    if remaining != [] {
      SweepStuck(remaining[1..], avail);
    }
  }

  /** A pass takes a list already in order as it stands. */
  lemma {:induction false} SweepOrdered(remaining: seq<Node>, avail: set<string>)
    requires Ordered(remaining, avail)
    ensures Sweep(remaining, avail) == Swept(remaining, [])
  {
    if remaining != [] {
      SweepOrdered(remaining[1..], avail + Outs(remaining[0]));
    }
  }

  /** A pass over `remaining` that has taken and put aside these nodes has only
      the nodes from i on to sweep. */
  ghost predicate Midway(remaining: seq<Node>, available: set<string>, i: nat, taken: seq<Node>, still: seq<Node>) {
    i <= |remaining| &&
    var s := Sweep(remaining[i..], available + AllOuts(taken));
    Sweep(remaining, available) == Swept(taken + s.taken, still + s.still)
  }

  lemma MidwayStep(remaining: seq<Node>, available: set<string>, i: nat, taken: seq<Node>, still: seq<Node>)
    requires i < |remaining| && Midway(remaining, available, i, taken, still)
    ensures if Ready(remaining[i], available + AllOuts(taken))
            then Midway(remaining, available, i + 1, taken + [remaining[i]], still)
            else Midway(remaining, available, i + 1, taken, still + [remaining[i]])
  {
    var n, avail := remaining[i], available + AllOuts(taken);
    assert remaining[i..][1..] == remaining[i + 1..];
    AllOutsSnoc(taken, n);
    assert available + AllOuts(taken + [n]) == avail + Outs(n);
    var s := Sweep(remaining[i + 1..], avail);
    assert still + ([n] + s.still) == (still + [n]) + s.still;
    var s' := Sweep(remaining[i + 1..], avail + Outs(n));
    assert taken + ([n] + s'.taken) == (taken + [n]) + s'.taken;
  }

  lemma MidwayEnd(remaining: seq<Node>, available: set<string>, taken: seq<Node>, still: seq<Node>)
    ensures Midway(remaining, available, 0, [], [])
    ensures Midway(remaining, available, |remaining|, taken, still) ==>
            Sweep(remaining, available) == Swept(taken, still)
  {
    assert remaining[0..] == remaining && remaining[|remaining|..] == [];
    assert available + AllOuts([]) == available;
  }

  method Pass(remaining: seq<Node>, available: set<string>, sorted: seq<Node>)
    returns (avail: set<string>, sorted': seq<Node>, still: seq<Node>, progress: bool)
    ensures var s := Sweep(remaining, available);
            && still == s.still && sorted' == sorted + s.taken && avail == available + AllOuts(s.taken)
            && (progress <==> s.taken != [])
  {
    avail, sorted', still, progress := available, sorted, [], false;
    ghost var taken := [];
    MidwayEnd(remaining, available, taken, still);
    for i := 0 to |remaining|
      invariant Midway(remaining, available, i, taken, still)
      invariant sorted' == sorted + taken && avail == available + AllOuts(taken) && (progress <==> taken != [])
    {
      var n := remaining[i];
      MidwayStep(remaining, available, i, taken, still);
      if Ready(n, avail) {
        AllOutsSnoc(taken, n);
        sorted', avail, progress := sorted' + [n], avail + Outs(n), true;
        taken := taken + [n];
      } else {
        still := still + [n];
      }
    }
    MidwayEnd(remaining, available, taken, still);
  }

  /** Everything sorted so far is in order, and nothing is lost. */
  ghost predicate Taken(nodes: seq<Node>, start: set<string>, sorted: seq<Node>, left: seq<Node>) {
    multiset(sorted) + multiset(left) == multiset(nodes) && Ordered(sorted, start)
  }

  lemma TakeSwept(nodes: seq<Node>, start: set<string>, sorted: seq<Node>, left: seq<Node>)
    requires Taken(nodes, start, sorted, left)
    ensures var s := Sweep(left, start + AllOuts(sorted));
            && Taken(nodes, start, sorted + s.taken, s.still) && |s.taken| + |s.still| == |left|
            && start + AllOuts(sorted + s.taken) == start + AllOuts(sorted) + AllOuts(s.taken)
  {
    var avail := start + AllOuts(sorted);
    var s := Sweep(left, avail);
    SweepKeeps(left, avail);
    OrderedConcat(sorted, s.taken, start);
    AllOutsConcat(sorted, s.taken);
    assert |multiset(s.taken) + multiset(s.still)| == |multiset(left)|;
  }

  /** The first node of any valid order that is still left is ready, so a pass
      over a sortable graph always makes progress. */
  lemma ProgressIfOrderable(nodes: seq<Node>, start: set<string>, sorted: seq<Node>, left: seq<Node>)
    requires Taken(nodes, start, sorted, left) && Orderable(nodes, start) && left != []
    ensures Sweep(left, start + AllOuts(sorted)).taken != []
  {
    var avail := start + AllOuts(sorted);
    var p: seq<Node> :| multiset(p) == multiset(nodes) && Ordered(p, start);
    assert left[0] in multiset(sorted) + multiset(left);
    assert left[0] in multiset(p);
    var k := FirstLeft(p, left, left[0]);
    ReadyAt(p, start, k);
    forall t | t in p[k].inputs && t != ""
      ensures t in avail
    {
      if t !in start {
        OutsMember(p[..k], t);
        var m :| m in p[..k] && t in Outs(m);
        assert m in p && m !in left;
        assert m in multiset(p);
        assert m in sorted;
        OutsMember(sorted, t);
      }
    }
    if Sweep(left, avail).taken == [] {
      SweepStuck(left, avail);
      assert Ready(p[k], avail);
    }
  }

  lemma {:induction false} FirstLeft(p: seq<Node>, left: seq<Node>, x: Node) returns (k: nat)
    requires x in p && x in left
    ensures k < |p| && p[k] in left
    ensures forall m :: m in p[..k] ==> m !in left
  {
    if p[0] in left {
      k := 0;
    } else {
      assert p == [p[0]] + p[1..];
      var j := FirstLeft(p[1..], left, x);
      k := j + 1;
      assert p[..k] == [p[0]] + p[1..][..j];
    }
  }

  lemma Finish(nodes: seq<Node>, start: set<string>, sorted: seq<Node>, left: seq<Node>)
    requires Taken(nodes, start, sorted, left)
    requires left != [] ==> !Orderable(nodes, start)
    ensures multiset(sorted + left) == multiset(nodes)
    ensures Ordered(sorted + left, start) <==> Orderable(nodes, start)
  {
    if left == [] {
      assert sorted + left == sorted;
    }
  }

  /** Sort the nodes: a permutation, in producer order whenever any order is,
      and untouched when already in order. The bound on the number of passes is
      never what ends the loop. */
  method Sort(nodes: seq<Node>, start: set<string>) returns (sorted: seq<Node>)
    ensures multiset(sorted) == multiset(nodes)
    ensures Ordered(sorted, start) <==> Orderable(nodes, start)
    ensures Ordered(nodes, start) ==> sorted == nodes
  {
    var available, remaining := start, nodes;
    sorted := [];
    assert start + AllOuts([]) == start;
    ghost var ended := false;
    for pass := 0 to |nodes| + 1
      invariant !ended && Taken(nodes, start, sorted, remaining)
      invariant available == start + AllOuts(sorted)
      invariant |remaining| + pass <= |nodes|
      invariant pass == 0 ==> sorted == [] && remaining == nodes
      invariant pass > 0 && Ordered(nodes, start) ==> sorted == nodes && remaining == []
    {
      if remaining == [] {
        ended := true;
        break;
      }
      if Orderable(nodes, start) {
        ProgressIfOrderable(nodes, start, sorted, remaining);
      }
      if pass == 0 && Ordered(nodes, start) {
        SweepOrdered(nodes, start);
      }
      TakeSwept(nodes, start, sorted, remaining);
      var progress;
      available, sorted, remaining, progress := Pass(remaining, available, sorted);
      if !progress {
        Finish(nodes, start, sorted, remaining);
        sorted := sorted + remaining;
        return;
      }
    }
    assert ended;
    Finish(nodes, start, sorted, remaining);
    assert sorted + remaining == sorted;
  }
}
