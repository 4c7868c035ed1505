/** When Gather depends on a reader of the bias, the rewrite closes a cycle: the
    slices need the sequence length, their reader needs the slices, and Gather
    needs that reader. */
module AlibiCycle {
  import opened Common
  import opened OnnxGraph
  import opened AlibiPatch
  import opened AlibiSite
  import opened AlibiOrder

  /** Index of the first node that defines the tensor, or the number of nodes. */
  function FirstDefined(nodes: seq<Node>, t: string): (k: nat)
    ensures k <= |nodes|
    ensures k < |nodes| ==> t in Outs(nodes[k])
    ensures forall j :: 0 <= j < k ==> t !in Outs(nodes[j])
  {
    if nodes == [] || t in Outs(nodes[0]) then 0 else 1 + FirstDefined(nodes[1..], t)
  }

  lemma FirstBefore(nodes: seq<Node>, a: set<string>, k: nat, t: string)
    requires Ordered(nodes, a) && k < |nodes| && t in nodes[k].inputs && t != "" && t !in a
    ensures FirstDefined(nodes, t) < k
  {
    ReadyAt(nodes, a, k);
    OutsMember(nodes[..k], t);
    var m :| m in nodes[..k] && t in Outs(m);
    var j :| 0 <= j < k && nodes[j] == m;
  }

  /** In producer order a node's only output comes after each of its inputs. */
  lemma InputsComeFirst(nodes: seq<Node>, a: set<string>, x: Node, t: string, o: string)
    requires Ordered(nodes, a) && x in nodes && t in x.inputs && t != "" && t !in a && o in Outs(x)
    requires forall y :: y in nodes && o in Outs(y) ==> y == x
    ensures FirstDefined(nodes, t) < FirstDefined(nodes, o)
  {
    var i :| 0 <= i < |nodes| && nodes[i] == x;
    var k := FirstDefined(nodes, o);
    assert k <= i;
    assert nodes[k] in nodes && nodes[k] == x;
    FirstBefore(nodes, a, k, t);
  }

  // ---- Every tensor of the rewritten graph is defined once ----

  lemma KeptDefinesAlone(g: Graph, site: Site, n: Node, o: string, y: Node)
    requires Rewritable(g, site) && n in g.nodes && o in Outs(n)
    requires site.gather < |g.nodes| && y in Rebuilt(g, site) && o in Outs(y)
    ensures y == Rewire(n, site.bias)
  {
    RebuiltMember(g, site, y);
    DefinedName(g, site, n, o);
    if y in NewNodes(site, NextId(g.nodes)) {
      NewOuts(site, NextId(g.nodes), y, o);
    } else {
      var m :| m in g.nodes && !Removed(g, site, m) && y == Rewire(m, site.bias);
      AssignedOnce(g.nodes, Sources(g), n, m, o);
    }
  }

  lemma NewDefinesAlone(g: Graph, site: Site, x: Node, o: string, y: Node)
    requires Rewritable(g, site) && x in NewNodes(site, NextId(g.nodes)) && o in Outs(x)
    requires site.gather < |g.nodes| && y in Rebuilt(g, site) && o in Outs(y)
    ensures y == x
  {
    RebuiltMember(g, site, y);
    NewOuts(site, NextId(g.nodes), x, o);
    if y in NewNodes(site, NextId(g.nodes)) {
      NewNodesApart(site, NextId(g.nodes), x, y, o);
    } else {
      var m :| m in g.nodes && !Removed(g, site, m) && y == Rewire(m, site.bias);
      DefinedName(g, site, m, o);
    }
  }

  lemma NewNodesApart(site: Site, id: nat, x: Node, y: Node, o: string)
    requires x in NewNodes(site, id) && y in NewNodes(site, id) && o in Outs(x) && o in Outs(y)
    ensures x == y
  {
    assert |LENGTH_NAME| == 22 && |SLICE_2_NAME| == 21 && |SLICE_3_NAME| == 21;
    assert SLICE_2_NAME[16] == '2' && SLICE_3_NAME[16] == '3';
  }

  /** The list holds the nodes of the rewritten graph, in producer order. */
  ghost predicate Sorted(g: Graph, site: Site, nodes: seq<Node>) {
    && Rewritable(g, site) && site.gather < |g.nodes|
    && (forall x :: x in nodes <==> x in Rebuilt(g, site))
    && Ordered(nodes, Sources(g) + NewSources())
  }

  /** What a kept node reads comes before what it defines. */
  lemma KeptInputsFirst(g: Graph, site: Site, nodes: seq<Node>, n: Node, t: string, o: string)
    requires Sorted(g, site, nodes) && n in g.nodes && !Removed(g, site, n) && o in Outs(n)
    requires t in Rewire(n, site.bias).inputs && t != "" && t !in Sources(g) + NewSources()
    ensures FirstDefined(nodes, t) < FirstDefined(nodes, o)
  {
    var x := Rewire(n, site.bias);
    KeptInRebuilt(g, site, n);
    assert o in Outs(x);
    forall y | y in nodes && o in Outs(y)
      ensures y == x
    {
      KeptDefinesAlone(g, site, n, o, y);
    }
    InputsComeFirst(nodes, Sources(g) + NewSources(), x, t, o);
  }

  lemma NewInputsFirst(g: Graph, site: Site, nodes: seq<Node>, k: nat, t: string, o: string)
    requires Sorted(g, site, nodes) && k < 3 && NewNodes(site, NextId(g.nodes))[k].outputs == [o] && o != ""
    requires t in NewNodes(site, NextId(g.nodes))[k].inputs && t != "" && t !in Sources(g) + NewSources()
    ensures FirstDefined(nodes, t) < FirstDefined(nodes, o)
  {
    var x := NewNodes(site, NextId(g.nodes))[k];
    RebuiltMember(g, site, x);
    assert o in Outs(x);
    forall y | y in nodes && o in Outs(y)
      ensures y == x
    {
      NewDefinesAlone(g, site, x, o, y);
    }
    InputsComeFirst(nodes, Sources(g) + NewSources(), x, t, o);
  }

  lemma NewNamesAreDefined(g: Graph, site: Site)
    requires Rewritable(g, site)
    ensures LENGTH_NAME !in Sources(g) + NewSources()
    ensures SLICE_2_NAME !in Sources(g) + NewSources()
    ensures SLICE_3_NAME !in Sources(g) + NewSources()
  {
    assert LENGTH_NAME in NewNames() && SLICE_2_NAME in NewNames() && SLICE_3_NAME in NewNames();
    assert |CONST_NAME| == 23 && |STARTS_NAME| == 18 && |STEPS_NAME| == 17;
    assert |AXIS_2_NAME| == 17 && |AXIS_3_NAME| == 17;
    assert |LENGTH_NAME| == 22 && |SLICE_2_NAME| == 21 && |SLICE_3_NAME| == 21;
  }

  /** The slices come after the sequence length. */
  lemma SlicesNeedLength(g: Graph, site: Site, nodes: seq<Node>)
    requires Sorted(g, site, nodes)
    ensures FirstDefined(nodes, site.seqLen) < FirstDefined(nodes, SLICE_3_NAME)
  {
    SiteNames(g, site);
    NewNamesAreDefined(g, site);
    LengthIsDefined(g, site);
    NewInputsFirst(g, site, nodes, 0, site.seqLen, LENGTH_NAME);
    NewInputsFirst(g, site, nodes, 1, LENGTH_NAME, SLICE_2_NAME);
    NewInputsFirst(g, site, nodes, 2, SLICE_2_NAME, SLICE_3_NAME);
  }

  lemma LengthIsDefined(g: Graph, site: Site)
    requires Rewritable(g, site)
    ensures site.gather < |g.nodes| && g.nodes[site.gather] in g.nodes && site.seqLen in Outs(g.nodes[site.gather])
    ensures site.seqLen !in Sources(g) + NewSources()
  {
    LocateFacts(g);
    DefinedName(g, site, g.nodes[site.gather], site.seqLen);
  }

  /** Along a path to a reader of the bias, everything comes after the slices. */
  lemma {:induction false} PathNeedsSlices(g: Graph, site: Site, nodes: seq<Node>, path: seq<Node>, o: string)
    requires Sorted(g, site, nodes) && Clean(g, site) && path != [] && IsPath(g.nodes, {}, path)
    requires path[0] in g.nodes && !Removed(g, site, path[0]) && o in Outs(path[0])
    requires site.bias in path[|path| - 1].inputs
    ensures FirstDefined(nodes, SLICE_3_NAME) < FirstDefined(nodes, o)
  {
    var n := path[0];
    if site.bias in n.inputs {
      NewNamesAreDefined(g, site);
      RewireReads(n, site.bias);
      KeptInputsFirst(g, site, nodes, n, SLICE_3_NAME, o);
    } else {
      assert Feeds(g.nodes, {}, n, path[1]);
      var t :| t in n.inputs && FeedsBy(g.nodes, {}, t, path[1]);
      NextIsKept(g, site, n, path[1], t);
      DefinedName(g, site, path[1], t);
      RewireKeeps(n, site.bias, t);
      KeptInputsFirst(g, site, nodes, n, t, o);
      var rest := path[1..];
      assert forall i :: 0 <= i < |rest| ==> rest[i] == path[i + 1];
      PathNeedsSlices(g, site, nodes, rest, t);
    }
  }

  lemma RewireReads(n: Node, bias: string)
    requires bias in n.inputs
    ensures SLICE_3_NAME in Rewire(n, bias).inputs
  {
    var i :| 0 <= i < |n.inputs| && n.inputs[i] == bias;
    assert Rewire(n, bias).inputs[i] == SLICE_3_NAME;
  }

  /** What a kept node reads, other than the bias, was kept. */
  lemma NextIsKept(g: Graph, site: Site, n: Node, m: Node, t: string)
    requires Clean(g, site) && n in g.nodes && !Removed(g, site, n) && site.bias !in n.inputs
    requires t in n.inputs && FeedsBy(g.nodes, {}, t, m)
    ensures m in g.nodes && t in Outs(m) && !Removed(g, site, m)
  {
    assert !Dangles(g, site, n);
    assert !RemovedOut(g, site, t);
  }

  /** So the nodes of the rewritten graph have no producer order. */
  lemma CycleHasNoOrder(g: Graph, site: Site, nodes: seq<Node>)
    requires Rewritable(g, site) && Clean(g, site) && !GatherIsFree(g, site)
    requires site.gather < |g.nodes| && forall x :: x in nodes <==> x in Rebuilt(g, site)
    ensures !Ordered(nodes, Sources(g) + NewSources())
  {
    LocateFacts(g);
    LengthIsDefined(g, site);
    GatherNotWalked(g, site);
    var gather := g.nodes[site.gather];
    var n :| n in g.nodes && Upstream(g, site, n) && site.bias in n.inputs;
    var path: seq<Node> :| path != [] && path[0] == gather && path[|path| - 1] == n && IsPath(g.nodes, {}, path);
    if Ordered(nodes, Sources(g) + NewSources()) {
      SlicesNeedLength(g, site, nodes);
      PathNeedsSlices(g, site, nodes, path, site.seqLen);
    }
  }
}
