/** An encoder whose sequence length is gathered from a layer that already reads
    the bias. Nothing dangles, and yet the rewrite closes a cycle. */
module AlibiCyclicExample {
  import opened Common
  import opened OnnxGraph
  import opened AlibiPatch
  import opened AlibiSite
  import opened AlibiTheorems
  import AlibiExample

  const RANGE := Node(1, "/encoder/Range", Custom("Range"), ["x"], ["r"])
  const UNSQUEEZE_3 := AlibiExample.UNSQUEEZE_3
  const ADD := AlibiExample.ADD
  const GATHER := Node(0, "/encoder/Gather", Custom("Gather"), ["y"], ["s"])

  const NODES := [RANGE, UNSQUEEZE_3, ADD, GATHER]
  const LATE := Graph({"x"}, map[], NODES, ["y"])
  const SITE := Site(1, 3, "b", "s")

  lemma Tails()
    ensures NODES[1..] == [UNSQUEEZE_3, ADD, GATHER]
    ensures [UNSQUEEZE_3, ADD, GATHER][1..] == [ADD, GATHER]
    ensures [ADD, GATHER][1..] == [GATHER] && [GATHER][1..] == []
  {
  }

  lemma Names()
    ensures RANGE.name != UNSQUEEZE_3.name && RANGE.name != GATHER.name && UNSQUEEZE_3.name != GATHER.name
    ensures ADD.name != GATHER.name && ADD.op != Custom("Range") && GATHER.op != Custom("Range")
  {
    assert RANGE.name[9] == 'R' && UNSQUEEZE_3.name[9] == 'U' && GATHER.name[9] == 'G';
    assert ADD.name[1] == 'l' && GATHER.name[1] == 'e';
    assert "Gather"[0] != "Range"[0] && "Add"[0] != "Range"[0];
  }

  lemma NamedNodes()
    ensures FirstNamed(NODES, "/encoder/Unsqueeze_3") == 1 && FirstNamed(NODES, "/encoder/Gather") == 3
  {
    Tails();
    Names();
    assert FirstNamed([UNSQUEEZE_3, ADD, GATHER], "/encoder/Unsqueeze_3") == 0;
    assert FirstNamed([GATHER], "/encoder/Gather") == 0;
    assert FirstNamed([ADD, GATHER], "/encoder/Gather") == 1;
    assert FirstNamed([UNSQUEEZE_3, ADD, GATHER], "/encoder/Gather") == 2;
  }

  lemma OneRange()
    ensures CountRanges(NODES) == 1
  {
    Tails();
    Names();
    assert HasSubstring(RANGE.name, "/encoder/Range");
    assert CountRanges([GATHER]) == 0;
    assert CountRanges([ADD, GATHER]) == 0;
    assert CountRanges([UNSQUEEZE_3, ADD, GATHER]) == 0;
  }

  lemma Located()
    ensures Locate(LATE) == Ok(SITE)
  {
    NamedNodes();
    OneRange();
    assert "b" in ADD.inputs && ADD in NODES;
  }

  lemma Runnable()
    ensures Ordered(NODES, {"x"}) && SingleAssignment(NODES, {"x"}) && AllOuts(NODES) == {"s", "r", "b", "y"}
  {
    Tails();
    assert Outs(RANGE) == {"r"} && Outs(UNSQUEEZE_3) == {"b"} && Outs(ADD) == {"y"} && Outs(GATHER) == {"s"};
    assert Ready(RANGE, {"x"}) && Ready(UNSQUEEZE_3, {"x"} + {"r"});
    assert Ready(ADD, {"x"} + {"r"} + {"b"}) && Ready(GATHER, {"x"} + {"r"} + {"b"} + {"y"});
    assert Ordered([GATHER], {"x"} + {"r"} + {"b"} + {"y"});
    assert Ordered([ADD, GATHER], {"x"} + {"r"} + {"b"});
    assert Ordered([UNSQUEEZE_3, ADD, GATHER], {"x"} + {"r"});
    assert SingleAssignment([GATHER], {"x"} + {"r"} + {"b"} + {"y"});
    assert SingleAssignment([ADD, GATHER], {"x"} + {"r"} + {"b"});
    assert SingleAssignment([UNSQUEEZE_3, ADD, GATHER], {"x"} + {"r"});
    assert AllOuts([GATHER]) == {"s"};
    assert AllOuts([ADD, GATHER]) == {"y", "s"};
  }

  lemma LateIsRewritable()
    ensures Rewritable(LATE, SITE)
  {
    Located();
    Runnable();
    AlibiExample.NamesFree();
    assert Sources(LATE) == {"x"};
    assert Identified(NODES);
  }

  // ---- Nothing dangles ----

  lemma Producers(wall: set<string>)
    requires "r" !in wall && "y" !in wall
    ensures FeedsBy(NODES, wall, "r", RANGE) && FeedsBy(NODES, wall, "y", ADD)
  {
    Tails();
    assert Producer([GATHER], "r") == None && Producer([GATHER], "y") == None;
    assert Producer([ADD, GATHER], "r") == None && Producer([ADD, GATHER], "y") == Some(ADD);
    assert Producer([UNSQUEEZE_3, ADD, GATHER], "r") == None;
    assert Producer([UNSQUEEZE_3, ADD, GATHER], "y") == Some(ADD);
  }

  lemma ChainIsWalked()
    ensures InWalk(LATE, SITE, RANGE) && InWalk(LATE, SITE, UNSQUEEZE_3)
  {
    var wall := Wall(LATE, SITE);
    Producers(wall);
    assert "r" in UNSQUEEZE_3.inputs;
    ReachesSelf(NODES, wall, UNSQUEEZE_3);
    ReachesSelf(NODES, wall, RANGE);
    ReachesStep(NODES, wall, UNSQUEEZE_3, RANGE, RANGE);
  }

  lemma OnlyUnsqueezeReadsRange(c: Node)
    requires c in NODES && "r" in c.inputs
    ensures c == UNSQUEEZE_3
  {
  }

  lemma RangeIsReadWithin(g: Graph)
    requires g.nodes == NODES && InWalk(g, SITE, UNSQUEEZE_3)
    ensures forall c :: c in g.nodes && "r" in c.inputs ==> Within(g, SITE, c)
  {
    forall c | c in g.nodes && "r" in c.inputs
      ensures Within(g, SITE, c)
    {
      OnlyUnsqueezeReadsRange(c);
    }
  }

  lemma RangeIsRemoved(g: Graph)
    requires g.nodes == NODES && InWalk(g, SITE, RANGE) && InWalk(g, SITE, UNSQUEEZE_3) && "r" !in g.outputs
    ensures Removed(g, SITE, RANGE)
  {
    RangeIsReadWithin(g);
    AlibiExample.RemovedBy(g, SITE, RANGE, "x", "r");
  }

  lemma UnsqueezeIsRemoved(g: Graph)
    requires g.nodes == NODES && InWalk(g, SITE, UNSQUEEZE_3) && "b" !in g.outputs
    ensures Removed(g, SITE, UNSQUEEZE_3)
  {
    AlibiExample.RemovedBy(g, SITE, UNSQUEEZE_3, "r", "b");
  }

  /** The kept nodes read the input, the bias and what Add computes. */
  lemma KeptReads(n: Node, t: string)
    requires n in NODES && n != RANGE && n != UNSQUEEZE_3 && t in n.inputs
    ensures t == "x" || t == "b" || t == "y"
  {
  }

  lemma DefinedByAdd(m: Node)
    requires m in NODES && ("x" in m.outputs || "y" in m.outputs)
    ensures "b" in m.inputs
  {
  }

  lemma NothingReadIsRemoved(g: Graph, n: Node)
    requires g.nodes == NODES && forall t :: t in n.inputs ==> t == "x" || t == "b" || t == "y"
    ensures !Dangles(g, SITE, n)
  {
    forall m | m in g.nodes && ("x" in m.outputs || "y" in m.outputs)
      ensures !Removed(g, SITE, m)
    {
      DefinedByAdd(m);
    }
  }

  lemma CleanBut(g: Graph)
    requires g.nodes == NODES && Removed(g, SITE, RANGE) && Removed(g, SITE, UNSQUEEZE_3)
    ensures Clean(g, SITE)
  {
    forall n | n in g.nodes && !Removed(g, SITE, n)
      ensures !Dangles(g, SITE, n)
    {
      forall t | t in n.inputs
        ensures t == "x" || t == "b" || t == "y"
      {
        KeptReads(n, t);
      }
      NothingReadIsRemoved(g, n);
    }
  }

  lemma LateIsClean()
    ensures Clean(LATE, SITE)
  {
    ChainIsWalked();
    RangeIsRemoved(LATE);
    UnsqueezeIsRemoved(LATE);
    CleanBut(LATE);
  }

  // ---- Gather depends on Add, and Add on the bias ----

  lemma GatherIsNotFree(g: Graph)
    requires g.nodes == NODES
    ensures !GatherIsFree(g, SITE)
  {
    Producers({});
    assert "y" in GATHER.inputs && "b" in ADD.inputs && ADD in NODES;
    ReachesSelf(NODES, {}, ADD);
    ReachesStep(NODES, {}, GATHER, ADD, ADD);
    assert Upstream(g, SITE, ADD);
  }

  lemma CycleLosesRuns(sem: Sem, g: Graph, site: Site)
    requires Rewritable(g, site) && Clean(g, site) && !GatherIsFree(g, site)
    ensures AlibiExample.LosesItsRuns(sem, g, site)
  {
    forall slopes, maxLen, h, feed: Env | feed.Keys == g.inputs && IsPatch(g, site, slopes, maxLen, h)
      ensures Eval(sem, g.nodes, Start(g, feed)).Some? && Eval(sem, h.nodes, Start(h, feed)) == None
    {
      StartKeys(g, site, slopes, maxLen, h, feed);
      EvalNeedsOrder(sem, g.nodes, Start(g, feed));
      CyclicPatchFails(sem, g, site, slopes, maxLen, h, feed);
    }
  }

  /** Nothing dangles in this graph, and yet every rewrite of it is unusable. */
  lemma LateGatherBreaksPatch(sem: Sem)
    ensures Rewritable(LATE, SITE) && Clean(LATE, SITE) && AlibiExample.LosesItsRuns(sem, LATE, SITE)
  {
    LateIsRewritable();
    LateIsClean();
    GatherIsNotFree(LATE);
    CycleLosesRuns(sem, LATE, SITE);
  }
}
