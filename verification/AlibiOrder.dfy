/** When nothing dangles and Gather does not depend on a reader of the bias, the
    rewritten nodes can be put in producer order: what Gather depends on first,
    then the new nodes, then everything else. */
module AlibiOrder {
  import opened Common
  import opened OnnxGraph
  import opened AlibiPatch
  import opened AlibiSite
  import TopoSort

  // ---- Bringing forward what Gather depends on ----

  /** The nodes Gather depends on, in order. */
  ghost function Ahead(g: Graph, site: Site, part: seq<Node>): seq<Node> {
    if part == [] then []
    else if Upstream(g, site, part[0]) then [part[0]] + Ahead(g, site, part[1..])
    else Ahead(g, site, part[1..])
  }

  /** The other nodes, in order. */
  ghost function Others(g: Graph, site: Site, part: seq<Node>): seq<Node> {
    if part == [] then []
    else if Upstream(g, site, part[0]) then Others(g, site, part[1..])
    else [part[0]] + Others(g, site, part[1..])
  }

  lemma {:induction false} AheadMember(g: Graph, site: Site, part: seq<Node>, n: Node)
    ensures n in Ahead(g, site, part) <==> n in part && Upstream(g, site, n)
    ensures n in Others(g, site, part) <==> n in part && !Upstream(g, site, n)
  {
    if part != [] {
      AheadMember(g, site, part[1..], n);
      assert part == [part[0]] + part[1..];
    }
  }

  /** Whatever defines a tensor that an upstream node reads is upstream. */
  lemma UpstreamClosed(g: Graph, site: Site, n: Node, m: Node, t: string)
    requires SingleAssignment(g.nodes, Sources(g)) && Upstream(g, site, n)
    requires t in n.inputs && m in g.nodes && t in Outs(m)
    ensures Upstream(g, site, m)
  {
    ProducerExists(g.nodes, m, t);
    var p := Producer(g.nodes, t).value;
    AssignedOnce(g.nodes, Sources(g), p, m, t);
    assert FeedsBy(g.nodes, {}, t, m);
    ReachesOn(g.nodes, {}, g.nodes[site.gather], n, m);
  }

  /** A node Gather does not depend on defines the tensor. */
  ghost predicate DefinedBeside(g: Graph, site: Site, t: string) {
    exists m :: m in g.nodes && !Upstream(g, site, m) && t in Outs(m)
  }

  lemma UpstreamReady(g: Graph, site: Site, n: Node, a: set<string>, b: set<string>)
    requires SingleAssignment(g.nodes, Sources(g)) && Upstream(g, site, n) && Ready(n, a)
    requires forall t :: t in a && !DefinedBeside(g, site, t) ==> t in b
    ensures Ready(n, b)
  {
    forall t | t in n.inputs && t != ""
      ensures t in b
    {
      if DefinedBeside(g, site, t) {
        var m :| m in g.nodes && !Upstream(g, site, m) && t in Outs(m);
        UpstreamClosed(g, site, n, m, t);
      }
    }
  }

  /** What Gather depends on is in order without the rest. */
  lemma {:induction false} AheadOrdered(g: Graph, site: Site, part: seq<Node>, a: set<string>, b: set<string>)
    requires SingleAssignment(g.nodes, Sources(g)) && Ordered(part, a) && forall n :: n in part ==> n in g.nodes
    requires forall t :: t in a && !DefinedBeside(g, site, t) ==> t in b
    ensures Ordered(Ahead(g, site, part), b)
  {
    if part != [] {
      var n, rest := part[0], part[1..];
      assert forall m :: m in rest ==> m in part;
      if Upstream(g, site, n) {
        UpstreamReady(g, site, n, a, b);
        AheadOrdered(g, site, rest, a + Outs(n), b + Outs(n));
        assert Ahead(g, site, part)[1..] == Ahead(g, site, rest);
      } else {
        assert forall t :: t in Outs(n) ==> DefinedBeside(g, site, t);
        AheadOrdered(g, site, rest, a + Outs(n), b);
      }
    }
  }

  /** The rest is in order once all that is there. */
  lemma {:induction false} OthersOrdered(g: Graph, site: Site, part: seq<Node>, a: set<string>, b: set<string>)
    requires Ordered(part, a) && a <= b && AllOuts(Ahead(g, site, part)) <= b
    ensures Ordered(Others(g, site, part), b)
  {
    if part != [] {
      var n, rest := part[0], part[1..];
      if Upstream(g, site, n) {
        assert Ahead(g, site, part)[1..] == Ahead(g, site, rest);
        OthersOrdered(g, site, rest, a + Outs(n), b);
      } else {
        OthersOrdered(g, site, rest, a + Outs(n), b + Outs(n));
        assert Others(g, site, part)[1..] == Others(g, site, rest);
      }
    }
  }

  /** What is kept of the nodes is what is kept of the two halves. */
  ghost predicate Regroups(part: seq<Node>, pre: seq<Node>, post: seq<Node>, bias: string, removed: set<nat>) {
    multiset(Kept(part, bias, removed)) == multiset(Kept(pre, bias, removed)) + multiset(Kept(post, bias, removed))
  }

  lemma RegroupFirst(n: Node, part: seq<Node>, pre: seq<Node>, post: seq<Node>, bias: string, removed: set<nat>)
    requires Regroups(part, pre, post, bias, removed)
    ensures Regroups([n] + part, [n] + pre, post, bias, removed) && Regroups([n] + part, pre, [n] + post, bias, removed)
  {
    KeptCons(n, part, bias, removed);
    KeptCons(n, pre, bias, removed);
    KeptCons(n, post, bias, removed);
  }

  lemma {:induction false} KeptRegrouped(g: Graph, site: Site, part: seq<Node>, bias: string, removed: set<nat>)
    ensures Regroups(part, Ahead(g, site, part), Others(g, site, part), bias, removed)
  {
    if part != [] {
      var n, rest := part[0], part[1..];
      assert part == [n] + rest;
      KeptRegrouped(g, site, rest, bias, removed);
      RegroupFirst(n, rest, Ahead(g, site, rest), Others(g, site, rest), bias, removed);
    }
  }

  lemma KeptCons(n: Node, rest: seq<Node>, bias: string, removed: set<nat>)
    ensures multiset(Kept([n] + rest, bias, removed)) ==
            multiset(Kept(rest, bias, removed)) + if n.id in removed then multiset{} else multiset{Rewire(n, bias)}
  {
    assert ([n] + rest)[1..] == rest;
  }

  // ---- The rewritten nodes ----

  /** A stretch of the original order stays in order when removed nodes leave,
      provided nobody kept reads them and the sliced constant is there for those
      that read the bias. */
  lemma {:induction false} KeptOrdered(g: Graph, site: Site, seg: seq<Node>, a: set<string>, b: set<string>)
    requires Identified(g.nodes) && forall n :: n in seg ==> n in g.nodes
    requires Ordered(seg, a)
    requires forall t :: t in a && !RemovedOut(g, site, t) ==> t in b
    requires forall n :: n in seg && !Removed(g, site, n) ==> !Dangles(g, site, n)
    requires SLICE_3_NAME in b || forall n :: n in seg ==> site.bias !in n.inputs
    ensures var kept := Kept(seg, site.bias, RemovedIds(g, site));
            Ordered(kept, b) && forall t :: t in a + AllOuts(seg) && !RemovedOut(g, site, t) ==> t in b + AllOuts(kept)
  {
    if seg != [] {
      var n, rest, removed := seg[0], seg[1..], RemovedIds(g, site);
      assert forall m :: m in rest ==> m in seg;
      IdsDecide(g, site, n);
      var kept := Kept(seg, site.bias, removed);
      if Removed(g, site, n) {
        KeptOrdered(g, site, rest, a + Outs(n), b);
        assert kept == Kept(rest, site.bias, removed);
      } else {
        var n' := Rewire(n, site.bias);
        KeptReady(g, site, n, a, b);
        assert Outs(n') == Outs(n);
        KeptOrdered(g, site, rest, a + Outs(n), b + Outs(n));
        assert kept == [n'] + Kept(rest, site.bias, removed);
        assert kept[1..] == Kept(rest, site.bias, removed);
      }
    }
  }

  lemma KeptReady(g: Graph, site: Site, n: Node, a: set<string>, b: set<string>)
    requires Ready(n, a) && !Dangles(g, site, n)
    requires forall t :: t in a && !RemovedOut(g, site, t) ==> t in b
    requires SLICE_3_NAME in b || site.bias !in n.inputs
    ensures Ready(Rewire(n, site.bias), b)
  {
    var n' := Rewire(n, site.bias);
    forall t | t in n'.inputs && t != ""
      ensures t in b
    {
      var i :| 0 <= i < |n'.inputs| && n'.inputs[i] == t;
      assert n.inputs[i] in n.inputs;
    }
  }

  /** The new nodes are in order once the sequence length is there. */
  lemma NewNodesOrdered(site: Site, id: nat, b: set<string>)
    requires site.seqLen in b && {CONST_NAME, STARTS_NAME, STEPS_NAME, AXIS_2_NAME, AXIS_3_NAME} <= b
    ensures Ordered(NewNodes(site, id), b) && SLICE_3_NAME in AllOuts(NewNodes(site, id))
  {
    var added := NewNodes(site, id);
    assert added == [added[0]] + [added[1]] + [added[2]];
    AllOutsSnoc([], added[0]);
    AllOutsSnoc([added[0]], added[1]);
    AllOutsSnoc([added[0]] + [added[1]], added[2]);
    OrderedSnoc([], added[0], b);
    OrderedSnoc([added[0]], added[1], b);
    OrderedSnoc([added[0]] + [added[1]], added[2], b);
    assert [] + [added[0]] == [added[0]];
    assert LENGTH_NAME in Outs(added[0]) && SLICE_2_NAME in Outs(added[1]) && SLICE_3_NAME in Outs(added[2]);
  }

  /** Gather is kept, and nobody else defines the sequence length. */
  lemma SeqLenSurvives(g: Graph, site: Site)
    requires Rewritable(g, site)
    ensures !RemovedOut(g, site, site.seqLen)
  {
    LocateFacts(g);
    var gather := g.nodes[site.gather];
    assert gather in g.nodes && site.seqLen in Outs(gather);
    GatherNotWalked(g, site);
    if RemovedOut(g, site, site.seqLen) {
      var m :| m in g.nodes && Removed(g, site, m) && site.seqLen in m.outputs;
      AssignedOnce(g.nodes, Sources(g), m, gather, site.seqLen);
    }
  }

  lemma ThreeOrdered(xs: seq<Node>, ys: seq<Node>, zs: seq<Node>, s: set<string>)
    requires Ordered(xs, s) && Ordered(ys, s + AllOuts(xs)) && Ordered(zs, s + AllOuts(xs) + AllOuts(ys))
    ensures Ordered(xs + ys + zs, s)
  {
    OrderedConcat(xs, ys, s);
    AllOutsConcat(xs, ys);
    assert s + AllOuts(xs + ys) == s + AllOuts(xs) + AllOuts(ys);
    OrderedConcat(xs + ys, zs, s);
  }

  function NewSources(): set<string> {
    {CONST_NAME, STARTS_NAME, STEPS_NAME, AXIS_2_NAME, AXIS_3_NAME}
  }

  /** Two stretches of the original nodes in order, of which only the second reads
      the bias and the first defines the sequence length. */
  ghost predicate Parted(g: Graph, site: Site, pre: seq<Node>, post: seq<Node>) {
    && (forall n :: n in pre || n in post ==> n in g.nodes)
    && Ordered(pre, Sources(g)) && Ordered(post, Sources(g) + AllOuts(pre))
    && (forall n :: n in pre ==> site.bias !in n.inputs)
    && site.seqLen in AllOuts(pre) && !RemovedOut(g, site, site.seqLen)
  }

  lemma AheadInOrder(g: Graph, site: Site)
    requires SingleAssignment(g.nodes, Sources(g)) && Ordered(g.nodes, Sources(g))
    ensures var pre := Ahead(g, site, g.nodes);
            Ordered(pre, Sources(g)) && Ordered(Others(g, site, g.nodes), Sources(g) + AllOuts(pre))
  {
    AheadOrdered(g, site, g.nodes, Sources(g), Sources(g));
    OthersOrdered(g, site, g.nodes, Sources(g), Sources(g) + AllOuts(Ahead(g, site, g.nodes)));
  }

  lemma AheadDefinesLength(g: Graph, site: Site)
    requires Rewritable(g, site)
    ensures site.seqLen in AllOuts(Ahead(g, site, g.nodes))
  {
    LocateFacts(g);
    var gather, pre := g.nodes[site.gather], Ahead(g, site, g.nodes);
    ReachesSelf(g.nodes, {}, gather);
    AheadMember(g, site, g.nodes, gather);
    assert site.seqLen in Outs(gather);
    OutsMember(pre, site.seqLen);
  }

  lemma GatherParts(g: Graph, site: Site)
    requires Rewritable(g, site) && GatherIsFree(g, site)
    ensures Parted(g, site, Ahead(g, site, g.nodes), Others(g, site, g.nodes))
  {
    var pre, post := Ahead(g, site, g.nodes), Others(g, site, g.nodes);
    forall n
      ensures n in pre || n in post ==> n in g.nodes
      ensures n in pre ==> site.bias !in n.inputs
    {
      AheadMember(g, site, g.nodes, n);
    }
    AheadInOrder(g, site);
    AheadDefinesLength(g, site);
    SeqLenSurvives(g, site);
  }

  /** Around new nodes that need only the sequence length, what is kept of the two
      stretches is in order. */
  lemma KeptAround(g: Graph, site: Site, pre: seq<Node>, added: seq<Node>, post: seq<Node>, sources: set<string>)
    requires Identified(g.nodes) && Clean(g, site) && Sources(g) <= sources && Parted(g, site, pre, post)
    requires Ordered(added, sources + {site.seqLen}) && SLICE_3_NAME in AllOuts(added)
    ensures var removed := RemovedIds(g, site);
            Ordered(Kept(pre, site.bias, removed) + added + Kept(post, site.bias, removed), sources)
  {
    var removed := RemovedIds(g, site);
    KeptOrdered(g, site, pre, Sources(g), sources);
    var kept := Kept(pre, site.bias, removed);
    var b := sources + AllOuts(kept);
    assert site.seqLen in b;
    OrderedMono(added, sources + {site.seqLen}, b);
    KeptOrdered(g, site, post, Sources(g) + AllOuts(pre), b + AllOuts(added));
    ThreeOrdered(kept, added, Kept(post, site.bias, removed), sources);
  }

  /** What Gather depends on, the new nodes, the rest. */
  ghost function Regrouped(g: Graph, site: Site): seq<Node> {
    var removed := RemovedIds(g, site);
    Kept(Ahead(g, site, g.nodes), site.bias, removed) + NewNodes(site, NextId(g.nodes))
    + Kept(Others(g, site, g.nodes), site.bias, removed)
  }

  lemma ThreeElements(a: seq<Node>, added: seq<Node>, b: seq<Node>)
    ensures multiset(a + added + b) == multiset(a) + multiset(b) + multiset(added)
  {
  }

  lemma RegroupedElements(g: Graph, site: Site)
    requires Rewritable(g, site)
    ensures site.gather < |g.nodes| && multiset(Regrouped(g, site)) == multiset(Rebuilt(g, site))
  {
    var removed := RemovedIds(g, site);
    RebuiltElements(g, site);
    KeptRegrouped(g, site, g.nodes, site.bias, removed);
    ThreeElements(Kept(Ahead(g, site, g.nodes), site.bias, removed), NewNodes(site, NextId(g.nodes)),
                  Kept(Others(g, site, g.nodes), site.bias, removed));
  }

  lemma RegroupedOrdered(g: Graph, site: Site)
    requires Rewritable(g, site) && Clean(g, site) && GatherIsFree(g, site)
    ensures Ordered(Regrouped(g, site), Sources(g) + NewSources())
  {
    var sources := Sources(g) + NewSources();
    GatherParts(g, site);
    NewNodesOrdered(site, NextId(g.nodes), sources + {site.seqLen});
    KeptAround(g, site, Ahead(g, site, g.nodes), NewNodes(site, NextId(g.nodes)), Others(g, site, g.nodes), sources);
  }

  lemma {:induction false} RebuiltOrderable(g: Graph, site: Site)
    requires Rewritable(g, site) && Clean(g, site) && GatherIsFree(g, site)
    ensures site.gather < |g.nodes| && TopoSort.Orderable(Rebuilt(g, site), Sources(g) + NewSources())
  {
    RegroupedElements(g, site);
    RegroupedOrdered(g, site);
  }
}
