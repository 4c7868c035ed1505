/** A small encoder graph. As it stands the rewrite preserves it; when it also
    exports its bias, the removability check keeps Unsqueeze_3 and loses what
    Unsqueeze_3 reads. */
module AlibiExample {
  import opened Common
  import opened OnnxGraph
  import opened AlibiBias
  import opened AlibiPatch
  import opened AlibiSite
  import opened AlibiTheorems

  const GATHER := Node(0, "/encoder/Gather", Custom("Gather"), ["x"], ["s"])
  const RANGE := Node(1, "/encoder/Range", Custom("Range"), ["s"], ["r"])
  const UNSQUEEZE_3 := Node(2, "/encoder/Unsqueeze_3", Unsqueeze([1]), ["r"], ["b"])
  const ADD := Node(3, "/layer/Add", Custom("Add"), ["x", "b"], ["y"])

  const NODES := [GATHER, RANGE, UNSQUEEZE_3, ADD]
  const SITE := Site(2, 0, "b", "s")

  function Encoder(outputs: seq<string>): Graph {
    Graph({"x"}, map[], NODES, outputs)
  }

  lemma Tails()
    ensures NODES[1..] == [RANGE, UNSQUEEZE_3, ADD]
    ensures [RANGE, UNSQUEEZE_3, ADD][1..] == [UNSQUEEZE_3, ADD]
    ensures [UNSQUEEZE_3, ADD][1..] == [ADD] && [ADD][1..] == []
  {
  }

  lemma Located(outputs: seq<string>)
    ensures Locate(Encoder(outputs)) == Ok(SITE)
  {
    Tails();
    assert GATHER.name != UNSQUEEZE_3.name by { assert GATHER.name[9] == 'G'; assert UNSQUEEZE_3.name[9] == 'U'; }
    assert RANGE.name != UNSQUEEZE_3.name by { assert RANGE.name[9] == 'R'; assert UNSQUEEZE_3.name[9] == 'U'; }
    assert FirstNamed([UNSQUEEZE_3, ADD], "/encoder/Unsqueeze_3") == 0;
    assert FirstNamed([RANGE, UNSQUEEZE_3, ADD], "/encoder/Unsqueeze_3") == 1;
    assert FirstNamed(NODES, "/encoder/Unsqueeze_3") == 2;
    assert FirstNamed(NODES, "/encoder/Gather") == 0;
    assert HasSubstring(RANGE.name, "/encoder/Range");
    assert GATHER.op != Custom("Range") by { assert "Gather"[0] != "Range"[0]; }
    assert ADD.op != Custom("Range") by { assert "Add"[0] != "Range"[0]; }
    assert CountRanges([ADD]) == 0;
    assert CountRanges([UNSQUEEZE_3, ADD]) == 0;
    assert CountRanges([RANGE, UNSQUEEZE_3, ADD]) == 1;
    assert "b" in ADD.inputs && ADD in NODES;
  }

  lemma Outputs()
    ensures Outs(GATHER) == {"s"} && Outs(RANGE) == {"r"} && Outs(UNSQUEEZE_3) == {"b"} && Outs(ADD) == {"y"}
  {
  }

  lemma Runnable()
    ensures Ordered(NODES, {"x"}) && SingleAssignment(NODES, {"x"})
    ensures AllOuts(NODES) == {"s", "r", "b", "y"}
  {
    Outputs();
    Tails();
    assert Ready(GATHER, {"x"}) && Ready(RANGE, {"x"} + {"s"});
    assert Ready(UNSQUEEZE_3, {"x"} + {"s"} + {"r"}) && Ready(ADD, {"x"} + {"s"} + {"r"} + {"b"});
    assert Ordered([ADD], {"x"} + {"s"} + {"r"} + {"b"});
    assert Ordered([UNSQUEEZE_3, ADD], {"x"} + {"s"} + {"r"});
    assert Ordered([RANGE, UNSQUEEZE_3, ADD], {"x"} + {"s"});
    assert SingleAssignment([ADD], {"x"} + {"s"} + {"r"} + {"b"});
    assert SingleAssignment([UNSQUEEZE_3, ADD], {"x"} + {"s"} + {"r"});
    assert SingleAssignment([RANGE, UNSQUEEZE_3, ADD], {"x"} + {"s"});
    assert AllOuts([ADD]) == {"y"};
    assert AllOuts([UNSQUEEZE_3, ADD]) == {"b", "y"};
  }

  lemma NewNamesAreLong(t: string)
    requires t in NewNames()
    ensures |t| > 1
  {
  }

  lemma NamesFree()
    ensures NewNames() !! {"x"} + {"s", "r", "b", "y"}
  {
    forall t | t in NewNames()
      ensures t !in {"x"} + {"s", "r", "b", "y"}
    {
      NewNamesAreLong(t);
    }
  }

  lemma EncoderIsRewritable(outputs: seq<string>)
    ensures Rewritable(Encoder(outputs), SITE)
  {
    Located(outputs);
    Runnable();
    NamesFree();
    assert Sources(Encoder(outputs)) == {"x"};
    assert Identified(NODES);
  }

  lemma ChainIsWalked(outputs: seq<string>)
    ensures InWalk(Encoder(outputs), SITE, RANGE) && InWalk(Encoder(outputs), SITE, UNSQUEEZE_3)
  {
    var wall := Wall(Encoder(outputs), SITE);
    Tails();
    assert Producer([ADD], "r") == None;
    assert Producer([UNSQUEEZE_3, ADD], "r") == None;
    assert Producer([RANGE, UNSQUEEZE_3, ADD], "r") == Some(RANGE);
    assert FeedsBy(NODES, wall, "r", RANGE);
    assert "r" in UNSQUEEZE_3.inputs;
    ReachesSelf(NODES, wall, UNSQUEEZE_3);
    ReachesSelf(NODES, wall, RANGE);
    ReachesStep(NODES, wall, UNSQUEEZE_3, RANGE, RANGE);
  }

  lemma OnlyUnsqueezeReadsRange(c: Node)
    requires c in NODES && "r" in c.inputs
    ensures c == UNSQUEEZE_3
  {
  }

  lemma RangeIsReadWithin(g: Graph)
    requires g.nodes == NODES && InWalk(g, SITE, UNSQUEEZE_3)
    ensures forall c :: c in g.nodes && "r" in c.inputs ==> Within(g, SITE, c)
  {
    forall c | c in g.nodes && "r" in c.inputs
      ensures Within(g, SITE, c)
    {
      OnlyUnsqueezeReadsRange(c);
    }
  }

  lemma RemovedBy(g: Graph, site: Site, n: Node, i: string, o: string)
    requires InWalk(g, site, n) && n.inputs == [i] && i != site.bias && n.outputs == [o]
    requires forall c :: c in g.nodes && o in c.inputs ==> Within(g, site, c)
    ensures Removed(g, site, n) <==> o !in g.outputs
  {
    assert o in n.outputs;
  }

  /** The check removes Range, which only Unsqueeze_3 reads. */
  lemma RangeIsRemoved(outputs: seq<string>)
    requires "r" !in outputs
    ensures Removed(Encoder(outputs), SITE, RANGE)
  {
    ChainIsWalked(outputs);
    RangeIsReadWithin(Encoder(outputs));
    RemovedBy(Encoder(outputs), SITE, RANGE, "s", "r");
  }

  /** It removes Unsqueeze_3 exactly when the bias is not exported. */
  lemma UnsqueezeIsRemoved(outputs: seq<string>)
    ensures Removed(Encoder(outputs), SITE, UNSQUEEZE_3) <==> "b" !in outputs
  {
    ChainIsWalked(outputs);
    RemovedBy(Encoder(outputs), SITE, UNSQUEEZE_3, "r", "b");
  }

  // ---- The bias exported ----

  lemma BrokenBy(g: Graph, site: Site, n: Node, m: Node, t: string)
    requires n in g.nodes && InWalk(g, site, n) && !Removed(g, site, n) && t in n.inputs
    requires m in g.nodes && Removed(g, site, m) && t in m.outputs && t != "" && t != site.bias
    ensures !KeptChainIsWhole(g, site)
  {
    assert RemovedOut(g, site, t);
    assert Dangles(g, site, n);
  }

  lemma ChainIsBroken()
    ensures !KeptChainIsWhole(Encoder(["y", "b"]), SITE)
  {
    var outputs := ["y", "b"];
    var g := Encoder(outputs);
    ChainIsWalked(outputs);
    assert "b" in outputs && "r" !in outputs;
    RangeIsRemoved(outputs);
    UnsqueezeIsRemoved(outputs);
    assert "r" in RANGE.outputs && "r" in UNSQUEEZE_3.inputs && RANGE in NODES && UNSQUEEZE_3 in NODES;
    BrokenBy(g, SITE, UNSQUEEZE_3, RANGE, "r");
  }

  /** The graph runs on every input, and no rewrite of it runs on any. */
  ghost predicate LosesItsRuns(sem: Sem, g: Graph, site: Site) {
    forall slopes, maxLen, h, feed: Env ::
      feed.Keys == g.inputs && IsPatch(g, site, slopes, maxLen, h) ==>
        Eval(sem, g.nodes, Start(g, feed)).Some? && Eval(sem, h.nodes, Start(h, feed)) == None
  }

  lemma BrokenChainLosesRuns(sem: Sem, g: Graph, site: Site)
    requires Rewritable(g, site) && !KeptChainIsWhole(g, site)
    ensures LosesItsRuns(sem, g, site)
  {
    forall slopes, maxLen, h, feed: Env | feed.Keys == g.inputs && IsPatch(g, site, slopes, maxLen, h)
      ensures Eval(sem, g.nodes, Start(g, feed)).Some? && Eval(sem, h.nodes, Start(h, feed)) == None
    {
      StartKeys(g, site, slopes, maxLen, h, feed);
      EvalNeedsOrder(sem, g.nodes, Start(g, feed));
      CleanExactly(g, site);
      DanglingPatchFails(sem, g, site, slopes, maxLen, h, feed);
    }
  }

  /** Every node removed from this graph passed the check, and yet every rewrite
      of it is unusable. */
  lemma ExportedBiasBreaksPatch(sem: Sem)
    ensures Rewritable(Encoder(["y", "b"]), SITE) && LosesItsRuns(sem, Encoder(["y", "b"]), SITE)
  {
    EncoderIsRewritable(["y", "b"]);
    ChainIsBroken();
    BrokenChainLosesRuns(sem, Encoder(["y", "b"]), SITE);
  }

  // ---- The bias not exported ----

  lemma NobodyComputesInput(m: Node)
    requires m in NODES
    ensures "x" !in m.outputs
  {
  }

  lemma ReadsNothingRemoved(g: Graph, n: Node)
    requires g.nodes == NODES && forall t :: t in n.inputs ==> t == "x" || t == "b"
    ensures !Dangles(g, SITE, n)
  {
    forall m | m in g.nodes
      ensures "x" !in m.outputs
    {
      NobodyComputesInput(m);
    }
  }

  lemma OthersReadNothingRemoved(n: Node, t: string)
    requires n in NODES && n != RANGE && n != UNSQUEEZE_3 && t in n.inputs
    ensures t == "x" || t == "b"
  {
  }

  lemma CleanBut(g: Graph)
    requires g.nodes == NODES && Removed(g, SITE, RANGE) && Removed(g, SITE, UNSQUEEZE_3)
    ensures Clean(g, SITE)
  {
    forall n | n in g.nodes && !Removed(g, SITE, n)
      ensures !Dangles(g, SITE, n)
    {
      forall t | t in n.inputs
        ensures t == "x" || t == "b"
      {
        OthersReadNothingRemoved(n, t);
      }
      ReadsNothingRemoved(g, n);
    }
  }

  lemma EncoderIsClean()
    ensures Clean(Encoder(["y"]), SITE)
  {
    RangeIsRemoved(["y"]);
    UnsqueezeIsRemoved(["y"]);
    CleanBut(Encoder(["y"]));
  }

  /** An operator semantics under which the chain computes the ALiBi bias of a
      sequence of length s. */
  function AlibiSem(slopes: seq<real>, s: nat): Sem {
    (op: Op, args: seq<Value>, k: nat) =>
      if op == Custom("Gather") then Int(s)
      else if op == Unsqueeze([1]) then Bias(BiasTensor(slopes, s))
      else Opaque(|args|)
  }

  lemma ChainComputesBias(slopes: seq<real>, s: nat, v: Env)
    requires Holds(AlibiSem(slopes, s), GATHER, v) && Holds(AlibiSem(slopes, s), UNSQUEEZE_3, v)
    ensures "s" in v && v["s"] == Int(s) && "b" in v && v["b"] == Bias(BiasTensor(slopes, s))
  {
    assert "s" in Outs(GATHER) && "b" in Outs(UNSQUEEZE_3);
    assert UNSQUEEZE_3.op != Unsqueeze([0]) by { assert [1][0] != [0][0]; }
  }

  lemma EncoderRuns(sem: Sem, g: Graph, feed: Env) returns (v: Env)
    requires Rewritable(g, SITE) && g.nodes == NODES && feed.Keys == g.inputs
    ensures Eval(sem, g.nodes, Start(g, feed)) == Some(v)
    ensures Holds(sem, GATHER, v) && Holds(sem, UNSQUEEZE_3, v)
  {
    assert Start(g, feed).Keys == Sources(g);
    EvalNeedsOrder(sem, g.nodes, Start(g, feed));
    EvalSound(sem, g.nodes, Start(g, feed));
    v := Eval(sem, g.nodes, Start(g, feed)).value;
    assert GATHER in NODES && UNSQUEEZE_3 in NODES;
  }

  lemma {:induction false} NoPathFromGather(path: seq<Node>)
    requires path != [] && path[0] == GATHER && IsPath(NODES, {}, path)
    ensures |path| == 1
  {
    assert |path| > 1 ==> Feeds(NODES, {}, path[0], path[1]);
    forall m
      ensures !Feeds(NODES, {}, GATHER, m)
    {
      GatherReadsNobody(m);
    }
  }

  lemma GatherReadsNobody(m: Node)
    ensures !Feeds(NODES, {}, GATHER, m)
  {
    forall t | t in GATHER.inputs
      ensures !FeedsBy(NODES, {}, t, m)
    {
      if m in NODES {
        NobodyComputesInput(m);
      }
    }
  }

  lemma OnlyGatherIsUpstream(g: Graph, n: Node)
    requires g.nodes == NODES && Upstream(g, SITE, n)
    ensures n == GATHER
  {
    var path: seq<Node> :| path != [] && path[0] == GATHER && path[|path| - 1] == n && IsPath(NODES, {}, path);
    NoPathFromGather(path);
  }

  lemma GatherReadsInputOnly(g: Graph)
    requires g.nodes == NODES
    ensures GatherIsFree(g, SITE)
  {
    forall n | n in g.nodes && Upstream(g, SITE, n)
      ensures "b" !in n.inputs
    {
      OnlyGatherIsUpstream(g, n);
    }
  }

  /** The hypotheses of the preservation theorem are met: every rewrite of the
      encoder runs and gives its output the same value. */
  lemma EncoderIsPreserved(g: Graph, slopes: seq<real>, maxLen: nat, s: nat, h: Graph, feed: Env)
    requires g == Encoder(["y"]) && IsPatch(g, SITE, slopes, maxLen, h) && feed.Keys == g.inputs && s <= maxLen
    ensures var sem := AlibiSem(slopes, s);
            var before, after := Eval(sem, g.nodes, Start(g, feed)), Eval(sem, h.nodes, Start(h, feed));
            before.Some? && after.Some? && forall o :: o in g.outputs && o in before.value ==>
              o in after.value && after.value[o] == before.value[o]
  {
    var sem := AlibiSem(slopes, s);
    EncoderIsRewritable(["y"]);
    EncoderIsClean();
    GatherReadsInputOnly(g);
    PreservedRun(sem, g, slopes, maxLen, s, h, feed);
  }

  lemma PreservedRun(sem: Sem, g: Graph, slopes: seq<real>, maxLen: nat, s: nat, h: Graph, feed: Env)
    requires sem == AlibiSem(slopes, s) && s <= maxLen
    requires Rewritable(g, SITE) && Clean(g, SITE) && GatherIsFree(g, SITE) && g.nodes == NODES && feed.Keys == g.inputs
    requires IsPatch(g, SITE, slopes, maxLen, h)
    ensures var before, after := Eval(sem, g.nodes, Start(g, feed)), Eval(sem, h.nodes, Start(h, feed));
            before.Some? && after.Some? && forall o :: o in g.outputs && o in before.value ==>
              o in after.value && after.value[o] == before.value[o]
  {
    var v := EncoderRuns(sem, g, feed);
    ChainComputesBias(slopes, s, v);
    ConstIsAlibi(BiasTensor(slopes, s), slopes, s);
    CleanPatchPreserves(sem, g, SITE, slopes, maxLen, h, feed, v, s);
  }
}
