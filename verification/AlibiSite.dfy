/** The hypotheses of the ALiBi rewrite, and the nodes of the rewritten graph. */
module AlibiSite {
  import opened Common
  import opened OnnxGraph
  import opened AlibiPatch

  // ---- Hypotheses ----

  function Sources(g: Graph): set<string> {
    g.inputs + g.inits.Keys
  }

  /** The values a run starts from: initializers, overridden by the inputs fed. */
  function Start(g: Graph, feed: Env): Env {
    g.inits + feed
  }

  /** A fed value wins over an initializer of the same name. */
  lemma StartExactly(g: Graph, feed: Env, t: string)
    ensures t in feed ==> t in Start(g, feed) && Start(g, feed)[t] == feed[t]
    ensures t !in feed && t in g.inits ==> t in Start(g, feed) && Start(g, feed)[t] == g.inits[t]
    ensures t !in feed && t !in g.inits ==> t !in Start(g, feed)
  {
  }

  function NewNames(): set<string> {
    {CONST_NAME, STARTS_NAME, STEPS_NAME, AXIS_2_NAME, AXIS_3_NAME, LENGTH_NAME, SLICE_2_NAME, SLICE_3_NAME}
  }

  /** A graph in single-assignment producer order whose names leave the new ones
      free. */
  ghost predicate Rewritable(g: Graph, site: Site) {
    && Identified(g.nodes)
    && SingleAssignment(g.nodes, Sources(g)) && Ordered(g.nodes, Sources(g))
    && NewNames() !! (Sources(g) + AllOuts(g.nodes))
    && Locate(g) == Ok(site) && site.bias != "" && site.seqLen != ""
  }

  ghost predicate RemovedOut(g: Graph, site: Site, t: string) {
    exists m :: m in g.nodes && Removed(g, site, m) && t in m.outputs
  }

  /** The kept node reads a removed tensor other than the bias. */
  ghost predicate Dangles(g: Graph, site: Site, n: Node) {
    exists t :: t in n.inputs && t != "" && t != site.bias && RemovedOut(g, site, t)
  }

  /** No walked node that is kept reads what a removed one computed. */
  ghost predicate KeptChainIsWhole(g: Graph, site: Site) {
    forall n :: n in g.nodes && InWalk(g, site, n) && !Removed(g, site, n) ==> !Dangles(g, site, n)
  }

  /** The consumers of the bias read nothing else that is removed. */
  ghost predicate AddsReadOnlyBias(g: Graph, site: Site) {
    forall n :: n in g.nodes && site.bias in n.inputs ==> !Dangles(g, site, n)
  }

  /** The nodes outside the chain never read a removed tensor. */
  lemma OutsideNeverDangles(g: Graph, site: Site, n: Node)
    requires n in g.nodes && Dangles(g, site, n)
    ensures Within(g, site, n)
  {
  }

  /** No kept node at all reads a removed tensor other than the bias. */
  ghost predicate Clean(g: Graph, site: Site) {
    forall n :: n in g.nodes && !Removed(g, site, n) ==> !Dangles(g, site, n)
  }

  lemma CleanExactly(g: Graph, site: Site)
    ensures Clean(g, site) <==> KeptChainIsWhole(g, site) && AddsReadOnlyBias(g, site)
  {
    forall n | n in g.nodes && Dangles(g, site, n)
      ensures Within(g, site, n)
    {
      OutsideNeverDangles(g, site, n);
    }
  }

  /** Gather depends on the node, directly or through others. */
  ghost predicate Upstream(g: Graph, site: Site, n: Node) {
    site.gather < |g.nodes| && Reaches(g.nodes, {}, g.nodes[site.gather], n)
  }

  /** The sequence length does not depend on a reader of the bias. */
  ghost predicate GatherIsFree(g: Graph, site: Site) {
    forall n :: n in g.nodes && Upstream(g, site, n) ==> site.bias !in n.inputs
  }

  // ---- Single assignment ----

  lemma {:induction false} AssignedAfter(nodes: seq<Node>, a: set<string>, n: Node)
    requires SingleAssignment(nodes, a) && n in nodes
    ensures Outs(n) !! a
  {
    if n != nodes[0] {
      AssignedAfter(nodes[1..], a + Outs(nodes[0]), n);
    }
  }

  lemma {:induction false} AssignedOnce(nodes: seq<Node>, a: set<string>, n: Node, m: Node, t: string)
    requires SingleAssignment(nodes, a) && n in nodes && m in nodes && t in Outs(n) && t in Outs(m)
    ensures n == m
  {
    var rest, b := nodes[1..], a + Outs(nodes[0]);
    if n == nodes[0] {
      if m != n { AssignedAfter(rest, b, m); }
    } else if m == nodes[0] {
      AssignedAfter(rest, b, n);
    } else {
      AssignedOnce(rest, b, n, m, t);
    }
  }

  // ---- The nodes of the rewritten graph ----

  lemma {:induction false} KeptMember(nodes: seq<Node>, bias: string, removed: set<nat>, x: Node)
    ensures x in Kept(nodes, bias, removed) <==>
            exists n :: n in nodes && n.id !in removed && x == Rewire(n, bias)
  {
    if nodes != [] {
      var n, rest := nodes[0], nodes[1..];
      assert nodes == [n] + rest;
      KeptMember(rest, bias, removed, x);
    }
  }

  lemma IdsDecide(g: Graph, site: Site, n: Node)
    requires Identified(g.nodes) && n in g.nodes
    ensures n.id in RemovedIds(g, site) <==> Removed(g, site, n)
  {
    if n.id in RemovedIds(g, site) {
      var m :| m in g.nodes && Removed(g, site, m) && m.id == n.id;
      var i :| 0 <= i < |g.nodes| && g.nodes[i] == n;
      var j :| 0 <= j < |g.nodes| && g.nodes[j] == m;
      assert i == j;
    }
  }

  /** The new nodes survive as they are. */
  lemma NewNodesKept(g: Graph, site: Site)
    requires site.bias !in NewNames() && site.bias != site.seqLen
    ensures var added := NewNodes(site, NextId(g.nodes)); Kept(added, site.bias, RemovedIds(g, site)) == added
  {
    var added, removed := NewNodes(site, NextId(g.nodes)), RemovedIds(g, site);
    forall k | 0 <= k < 3
      ensures Rewire(added[k], site.bias) == added[k] && added[k].id !in removed
    {
      assert Rewire(added[k], site.bias).inputs == added[k].inputs;
    }
    assert added == [added[0]] + [added[1]] + [added[2]];
    KeptSnoc([], added[0], site.bias, removed);
    KeptSnoc([added[0]], added[1], site.bias, removed);
    KeptSnoc([added[0]] + [added[1]], added[2], site.bias, removed);
    assert [] + [added[0]] == [added[0]];
  }

  lemma SiteNames(g: Graph, site: Site)
    requires Rewritable(g, site)
    ensures site.bias !in NewNames() && site.bias != site.seqLen
    ensures site.bias in AllOuts(g.nodes) && site.seqLen in AllOuts(g.nodes)
  {
    LocateFacts(g);
    var u, k := g.nodes[site.unsqueeze], g.nodes[site.gather];
    OutsMember(g.nodes, site.bias);
    OutsMember(g.nodes, site.seqLen);
    assert u in g.nodes && k in g.nodes && site.bias in Outs(u) && site.seqLen in Outs(k);
    if site.bias == site.seqLen {
      AssignedOnce(g.nodes, Sources(g), u, k, site.bias);
    }
  }

  lemma KeptInserted(pre: seq<Node>, added: seq<Node>, post: seq<Node>, bias: string, removed: set<nat>)
    requires Kept(added, bias, removed) == added
    ensures multiset(Kept(pre + added + post, bias, removed)) ==
            multiset(Kept(pre + post, bias, removed)) + multiset(added)
  {
    KeptConcat(pre + added, post, bias, removed);
    KeptConcat(pre, added, bias, removed);
    KeptConcat(pre, post, bias, removed);
  }

  lemma InsertedElements(g: Graph, site: Site, bias: string, removed: set<nat>, added: seq<Node>)
    requires site.gather < |g.nodes| && added == NewNodes(site, NextId(g.nodes)) && Kept(added, bias, removed) == added
    ensures multiset(Kept(Inserted(g, site), bias, removed)) == multiset(Kept(g.nodes, bias, removed)) + multiset(added)
  {
    var k := site.gather + 1;
    var pre, post := g.nodes[..k], g.nodes[k..];
    assert pre + post == g.nodes;
    assert Inserted(g, site) == pre + added + post;
    KeptInserted(pre, added, post, bias, removed);
  }

  lemma RebuiltElementsAt(g: Graph, site: Site)
    requires site.gather < |g.nodes| && site.bias !in NewNames() && site.bias != site.seqLen
    ensures multiset(Rebuilt(g, site)) ==
            multiset(Kept(g.nodes, site.bias, RemovedIds(g, site))) + multiset(NewNodes(site, NextId(g.nodes)))
  {
    NewNodesKept(g, site);
    InsertedElements(g, site, site.bias, RemovedIds(g, site), NewNodes(site, NextId(g.nodes)));
  }

  /** The rewritten graph holds what is kept of the nodes, and the new ones. */
  lemma RebuiltElements(g: Graph, site: Site)
    requires Rewritable(g, site)
    ensures site.gather < |g.nodes|
    ensures multiset(Rebuilt(g, site)) ==
            multiset(Kept(g.nodes, site.bias, RemovedIds(g, site))) + multiset(NewNodes(site, NextId(g.nodes)))
  {
    LocateFacts(g);
    SiteNames(g, site);
    RebuiltElementsAt(g, site);
  }

  lemma KeptNodes(g: Graph, site: Site, x: Node)
    requires Identified(g.nodes)
    ensures x in Kept(g.nodes, site.bias, RemovedIds(g, site)) <==>
            exists n :: n in g.nodes && !Removed(g, site, n) && x == Rewire(n, site.bias)
  {
    KeptMember(g.nodes, site.bias, RemovedIds(g, site), x);
    forall n | n in g.nodes
      ensures n.id in RemovedIds(g, site) <==> Removed(g, site, n)
    {
      IdsDecide(g, site, n);
    }
  }

  lemma InUnion(all: seq<Node>, xs: seq<Node>, ys: seq<Node>, x: Node)
    requires multiset(all) == multiset(xs) + multiset(ys)
    ensures x in all <==> x in xs || x in ys
  {
    assert x in multiset(all) <==> x in multiset(xs) || x in multiset(ys);
  }

  /** A node of the rewritten graph is new or a kept one rewired. */
  lemma RebuiltMember(g: Graph, site: Site, x: Node)
    requires Rewritable(g, site)
    ensures site.gather < |g.nodes|
    ensures x in Rebuilt(g, site) <==>
            || x in NewNodes(site, NextId(g.nodes))
            || exists n :: n in g.nodes && !Removed(g, site, n) && x == Rewire(n, site.bias)
  {
    RebuiltElements(g, site);
    KeptNodes(g, site, x);
    InUnion(Rebuilt(g, site), Kept(g.nodes, site.bias, RemovedIds(g, site)), NewNodes(site, NextId(g.nodes)), x);
  }

  /** The nodes of a rewrite, said in full: the three new ones, and every original
      node with the bias replaced, except those that were walked, do not read the
      bias, and whose outputs are no graph outputs and are read only by walked nodes
      and readers of the bias. */
  lemma PatchKeepsExactly(g: Graph, site: Site, slopes: seq<real>, maxLen: nat, h: Graph, x: Node)
    requires Rewritable(g, site) && IsPatch(g, site, slopes, maxLen, h)
    ensures x in h.nodes <==>
            || x in NewNodes(site, NextId(g.nodes))
            || exists n :: n in g.nodes && x == Rewire(n, site.bias) &&
                 !(InWalk(g, site, n) && site.bias !in n.inputs && forall o :: o in n.outputs ==>
                     o !in g.outputs &&
                     forall c :: c in g.nodes && o in c.inputs ==> InWalk(g, site, c) || site.bias in c.inputs)
  {
    MultisetMember(h.nodes, Rebuilt(g, site), x);
    RebuiltMember(g, site, x);
    forall n
      ensures Removed(g, site, n) <==>
              InWalk(g, site, n) && site.bias !in n.inputs && forall o :: o in n.outputs ==>
                o !in g.outputs &&
                forall c :: c in g.nodes && o in c.inputs ==> InWalk(g, site, c) || site.bias in c.inputs
    {
    }
  }

  /** A rewired node reads the sliced constant where it read the bias, and is the
      same otherwise. */
  lemma RewireExactly(n: Node, bias: string)
    ensures var x := Rewire(n, bias);
            && x.id == n.id && x.name == n.name && x.op == n.op && x.outputs == n.outputs && |x.inputs| == |n.inputs|
            && forall k :: 0 <= k < |n.inputs| ==>
                 x.inputs[k] == if n.inputs[k] == bias then "alibi_slice_axis3_out" else n.inputs[k]
  {
  }

  lemma NewOuts(site: Site, id: nat, x: Node, t: string)
    requires x in NewNodes(site, id) && t in Outs(x)
    ensures t in NewNames()
  {
  }

  lemma DefinedName(g: Graph, site: Site, m: Node, t: string)
    requires Rewritable(g, site) && m in g.nodes && t in Outs(m)
    ensures t !in Sources(g) && t !in NewNames()
  {
    AssignedAfter(g.nodes, Sources(g), m);
    OutsMember(g.nodes, t);
  }

  lemma KeptInRebuilt(g: Graph, site: Site, n: Node)
    requires Rewritable(g, site) && n in g.nodes && !Removed(g, site, n)
    ensures site.gather < |g.nodes| && Rewire(n, site.bias) in Rebuilt(g, site)
  {
    RebuiltMember(g, site, Rewire(n, site.bias));
  }

  lemma RewireKeeps(n: Node, bias: string, t: string)
    requires t in n.inputs && t != bias
    ensures t in Rewire(n, bias).inputs
  {
    var i :| 0 <= i < |n.inputs| && n.inputs[i] == t;
    assert Rewire(n, bias).inputs[i] == t;
  }
}
