/** Replacing the runtime ALiBi computation of a graph by a precomputed constant
    and two slices. */
module AlibiPatch {
  import opened Common
  import opened OnnxGraph
  import opened AlibiBias
  import TopoSort

  const CONST_NAME := "alibi_precomputed_const"
  const STARTS_NAME := "alibi_slice_starts"
  const STEPS_NAME := "alibi_slice_steps"
  const AXIS_2_NAME := "alibi_slice_axis2"
  const AXIS_3_NAME := "alibi_slice_axis3"
  const LENGTH_NAME := "alibi_slice_seq_len_1d"
  const SLICE_2_NAME := "alibi_slice_axis2_out"
  const SLICE_3_NAME := "alibi_slice_axis3_out"

  // ---- Locating the chain ----

  predicate HasSubstring(s: string, sub: string) {
    sub <= s || (s != [] && HasSubstring(s[1..], sub))
  }

  lemma {:induction false} HasSubstringExactly(s: string, sub: string)
    ensures HasSubstring(s, sub) <==> exists i :: StartsAt(s, sub, i)
  {
    if sub <= s {
      assert StartsAt(s, sub, 0);
    }
    if s != [] {
      HasSubstringExactly(s[1..], sub);
      if HasSubstring(s[1..], sub) {
        var i :| StartsAt(s[1..], sub, i);
        assert s[1..][i..i + |sub|] == s[i + 1..i + 1 + |sub|];
        assert StartsAt(s, sub, i + 1);
      }
      if i :| StartsAt(s, sub, i) && i > 0 {
        assert s[1..][i - 1..i - 1 + |sub|] == s[i..i + |sub|];
        assert StartsAt(s[1..], sub, i - 1);
      }
    }
  }

  ghost predicate StartsAt(s: string, sub: string, i: int) {
    0 <= i <= i + |sub| <= |s| && s[i..i + |sub|] == sub
  }

  /** Index of the first node of that name, or the number of nodes. */
  function FirstNamed(nodes: seq<Node>, name: string): (k: nat)
    ensures k <= |nodes|
    ensures k < |nodes| ==> nodes[k].name == name
    ensures forall j :: 0 <= j < k ==> nodes[j].name != name
  {
    if nodes == [] || nodes[0].name == name then 0 else 1 + FirstNamed(nodes[1..], name)
  }

  function CountRanges(nodes: seq<Node>): nat {
    if nodes == [] then 0
    else
      (if nodes[0].op == Custom("Range") && HasSubstring(nodes[0].name, "/encoder/Range") then 1 else 0)
      + CountRanges(nodes[1..])
  }

  /** Where the bias is computed and where the runtime length comes from. */
  datatype Site = Site(unsqueeze: nat, gather: nat, bias: string, seqLen: string)

  function Locate(g: Graph): Result<Site> {
    var u, k := FirstNamed(g.nodes, "/encoder/Unsqueeze_3"), FirstNamed(g.nodes, "/encoder/Gather");
    if CountRanges(g.nodes) != 1 then Err("expected exactly one encoder Range node")
    else if u == |g.nodes| || g.nodes[u].outputs == [] then Err("no Unsqueeze_3")
    else if forall n :: n in g.nodes ==> g.nodes[u].outputs[0] !in n.inputs then Err("no consumers of the bias")
    else if k == |g.nodes| || g.nodes[k].outputs == [] then Err("no Gather")
    else Ok(Site(u, k, g.nodes[u].outputs[0], g.nodes[k].outputs[0]))
  }

  /** The encoder's Range nodes. */
  ghost function EncoderRanges(nodes: seq<Node>): set<nat> {
    set k: nat | k < |nodes| && nodes[k].op == Custom("Range") && HasSubstring(nodes[k].name, "/encoder/Range")
  }

  lemma {:induction false} RangesCounted(nodes: seq<Node>)
    ensures CountRanges(nodes) == |EncoderRanges(nodes)|
  {
    if nodes != [] {
      var n, front := |nodes| - 1, nodes[..|nodes| - 1];
      RangesCounted(front);
      RangesSnoc(front, nodes[n]);
      assert nodes == front + [nodes[n]];
      var more := if nodes[n].op == Custom("Range") && HasSubstring(nodes[n].name, "/encoder/Range") then {n} else {};
      assert EncoderRanges(nodes) == EncoderRanges(front) + more;
      assert n !in EncoderRanges(front);
    }
  }

  lemma {:induction false} RangesSnoc(nodes: seq<Node>, n: Node)
    ensures CountRanges(nodes + [n]) == CountRanges(nodes) + CountRanges([n])
  {
    if nodes == [] {
      assert nodes + [n] == [n];
    } else {
      assert (nodes + [n])[1..] == nodes[1..] + [n];
      RangesSnoc(nodes[1..], n);
    }
  }

  /** Index k is that of the first node of that name, and the node has an output. */
  ghost predicate FirstWithOutput(nodes: seq<Node>, name: string, k: nat) {
    && k < |nodes| && nodes[k].name == name && nodes[k].outputs != []
    && forall j :: 0 <= j < k ==> nodes[j].name != name
  }

  /** The site is found exactly when there is one encoder Range, the first
      Unsqueeze_3 and the first Gather have outputs, and somebody reads the bias. */
  lemma LocateExactly(g: Graph, site: Site)
    ensures Locate(g) == Ok(site) <==>
            && |EncoderRanges(g.nodes)| == 1
            && FirstWithOutput(g.nodes, "/encoder/Unsqueeze_3", site.unsqueeze)
            && FirstWithOutput(g.nodes, "/encoder/Gather", site.gather)
            && site.bias == g.nodes[site.unsqueeze].outputs[0] && site.seqLen == g.nodes[site.gather].outputs[0]
            && exists n :: n in g.nodes && site.bias in n.inputs
  {
    RangesCounted(g.nodes);
    NamedExactly(g.nodes, "/encoder/Unsqueeze_3", site.unsqueeze);
    NamedExactly(g.nodes, "/encoder/Gather", site.gather);
  }

  lemma NamedExactly(nodes: seq<Node>, name: string, k: nat)
    ensures FirstWithOutput(nodes, name, k) <==>
            k < |nodes| && FirstNamed(nodes, name) == k && nodes[k].outputs != []
  {
  }

  /** The indices a site names are those of two different nodes of the graph. */
  lemma LocateFacts(g: Graph)
    requires Locate(g).Ok?
    ensures var site := Locate(g).value;
            && site.unsqueeze < |g.nodes| && site.gather < |g.nodes|
            && g.nodes[site.unsqueeze] != g.nodes[site.gather]
            && g.nodes[site.unsqueeze].outputs != [] && site.bias == g.nodes[site.unsqueeze].outputs[0]
            && g.nodes[site.gather].outputs != [] && site.seqLen == g.nodes[site.gather].outputs[0]
  {
    var site := Locate(g).value;
    assert g.nodes[site.unsqueeze].name[9] == 'U' && g.nodes[site.gather].name[9] == 'G';
  }

  /** Node identities are unique. */
  predicate Identified(nodes: seq<Node>) {
    forall i, j :: 0 <= i < j < |nodes| ==> nodes[i].id != nodes[j].id
  }

  // ---- The backward walk ----

  /** The last node that outputs a tensor. */
  function Producer(nodes: seq<Node>, t: string): (r: Option<Node>)
    ensures r.Some? ==> r.value in nodes && t in r.value.outputs
  {
    if nodes == [] then None
    else
      var later := Producer(nodes[1..], t);
      if later.Some? then later else if t in nodes[0].outputs then Some(nodes[0]) else None
  }

  /** There is one whenever any node outputs the tensor. */
  lemma {:induction false} ProducerExists(nodes: seq<Node>, m: Node, t: string)
    requires m in nodes && t in m.outputs
    ensures Producer(nodes, t).Some?
  {
    if m != nodes[0] {
      ProducerExists(nodes[1..], m, t);
    }
  }

  /** Tensors the walk does not look behind: inputs, initializers, and the
      outputs of the Gather node. */
  function Wall(g: Graph, site: Site): set<string> {
    g.inputs + g.inits.Keys +
    (if site.gather < |g.nodes| then (set t | t in g.nodes[site.gather].outputs) else {})
  }

  ghost predicate FeedsBy(nodes: seq<Node>, wall: set<string>, t: string, m: Node) {
    t != "" && t !in wall && Producer(nodes, t) == Some(m)
  }

  /** Node n reads, from behind the wall, a tensor that m produces. */
  ghost predicate Feeds(nodes: seq<Node>, wall: set<string>, n: Node, m: Node) {
    exists t :: t in n.inputs && FeedsBy(nodes, wall, t, m)
  }

  ghost predicate IsPath(nodes: seq<Node>, wall: set<string>, path: seq<Node>) {
    forall i :: 0 < i < |path| ==> Feeds(nodes, wall, path[i - 1], path[i])
  }

  ghost predicate Reaches(nodes: seq<Node>, wall: set<string>, from: Node, to: Node) {
    exists path: seq<Node> :: path != [] && path[0] == from && path[|path| - 1] == to && IsPath(nodes, wall, path)
  }

  lemma ReachesSelf(nodes: seq<Node>, wall: set<string>, n: Node)
    ensures Reaches(nodes, wall, n, n)
  {
    assert IsPath(nodes, wall, [n]);
    assert [n][0] == n && [n][|[n]| - 1] == n;
  }

  lemma ReachesStep(nodes: seq<Node>, wall: set<string>, from: Node, next: Node, to: Node)
    requires Feeds(nodes, wall, from, next) && Reaches(nodes, wall, next, to)
    ensures Reaches(nodes, wall, from, to)
  {
    var path: seq<Node> :| path != [] && path[0] == next && path[|path| - 1] == to && IsPath(nodes, wall, path);
    var longer := [from] + path;
    forall i | 0 < i < |longer|
      ensures Feeds(nodes, wall, longer[i - 1], longer[i])
    {
      if i > 1 {
        assert longer[i - 1] == path[i - 2];
      }
    }
    assert longer[|longer| - 1] == to;
  }

  /** The members of `seen` that `before` lacks lead nowhere outside `seen`. */
  ghost predicate Closed(nodes: seq<Node>, wall: set<string>, before: set<Node>, seen: set<Node>) {
    forall n, m :: n in seen && n !in before && Feeds(nodes, wall, n, m) ==> m in seen
  }

  ghost predicate Found(nodes: seq<Node>, wall: set<string>, start: Node, before: set<Node>, seen: set<Node>) {
    forall n :: n in seen && n !in before ==> Reaches(nodes, wall, start, n)
  }

  /** A set that holds the start and is closed holds everything reachable. */
  lemma {:induction false} ClosedCovers(nodes: seq<Node>, wall: set<string>, seen: set<Node>, path: seq<Node>)
    requires Closed(nodes, wall, {}, seen) && path != [] && path[0] in seen && IsPath(nodes, wall, path)
    ensures path[|path| - 1] in seen
  {
    if |path| > 1 {
      var front := path[..|path| - 1];
      assert forall i :: 0 <= i < |front| ==> front[i] == path[i];
      ClosedCovers(nodes, wall, seen, front);
      assert Feeds(nodes, wall, path[|path| - 2], path[|path| - 1]);
    }
  }

  function NodeSet(nodes: seq<Node>): set<Node> {
    set n | n in nodes
  }

  lemma SmallerGap(all: set<Node>, before: set<Node>, seen: set<Node>, n: Node)
    requires n in all && n !in before && before + {n} <= seen
    ensures |all - seen| < |all - before|
  {
    SubsetSize(all - seen, all - before - {n});
  }

  /** What one level of the walk keeps while it goes through the inputs. */
  ghost predicate Walking(nodes: seq<Node>, wall: set<string>, node: Node, before: set<Node>, seen: set<Node>,
                          chain: seq<Node>) {
    && before + {node} <= seen <= NodeSet(nodes)
    && NodeSet(chain) == seen
    && Closed(nodes, wall, before + {node}, seen)
    && Found(nodes, wall, node, before, seen)
  }

  lemma WalkInto(nodes: seq<Node>, wall: set<string>, node: Node, producer: Node,
                 before: set<Node>, seen: set<Node>, seen': set<Node>)
    requires Closed(nodes, wall, before + {node}, seen) && Found(nodes, wall, node, before, seen) && seen <= seen'
    requires Closed(nodes, wall, seen, seen') && Found(nodes, wall, producer, seen, seen')
    requires Feeds(nodes, wall, node, producer)
    ensures Closed(nodes, wall, before + {node}, seen') && Found(nodes, wall, node, before, seen')
  {
    forall n | n in seen' && n !in before
      ensures Reaches(nodes, wall, node, n)
    {
      if n !in seen {
        ReachesStep(nodes, wall, node, producer, n);
      }
    }
  }

  /** What the first i inputs of the node lead to was visited. */
  ghost predicate Explored(nodes: seq<Node>, wall: set<string>, node: Node, i: nat, seen: set<Node>) {
    i <= |node.inputs| && forall j, m :: 0 <= j < i && FeedsBy(nodes, wall, node.inputs[j], m) ==> m in seen
  }

  lemma InputsWalked(nodes: seq<Node>, wall: set<string>, node: Node, before: set<Node>, seen: set<Node>)
    requires Closed(nodes, wall, before + {node}, seen) && Explored(nodes, wall, node, |node.inputs|, seen)
    ensures Closed(nodes, wall, before, seen)
  {
    forall n, m | n in seen && n !in before && Feeds(nodes, wall, n, m)
      ensures m in seen
    {
      if n == node {
        var t :| t in node.inputs && FeedsBy(nodes, wall, t, m);
        var j :| 0 <= j < |node.inputs| && node.inputs[j] == t;
      }
    }
  }

  /** The recursive walk: adds to the chain exactly the nodes reachable from
      `node` that were not visited yet, each once. */
  method WalkBack(nodes: seq<Node>, wall: set<string>, node: Node, visited: set<Node>, chain: seq<Node>)
    returns (visited': set<Node>, chain': seq<Node>)
    requires node in nodes && visited <= NodeSet(nodes) && NodeSet(chain) == visited
    ensures node in visited' && visited <= visited' <= NodeSet(nodes) && NodeSet(chain') == visited'
    ensures Closed(nodes, wall, visited, visited') && Found(nodes, wall, node, visited, visited')
    ensures |chain'| - |chain| == |visited'| - |visited|
    decreases |NodeSet(nodes) - visited|
  {
    if node in visited { return visited, chain; }
    visited', chain' := visited + {node}, chain + [node];
    ReachesSelf(nodes, wall, node);
    for i := 0 to |node.inputs|
      invariant Walking(nodes, wall, node, visited, visited', chain')
      invariant |chain'| - |chain| == |visited'| - |visited|
      invariant Explored(nodes, wall, node, i, visited')
    {
      var t := node.inputs[i];
      if t == "" || t in wall { continue; }
      var producer := Producer(nodes, t);
      if producer.Some? {
        ghost var seen := visited';
        assert FeedsBy(nodes, wall, t, producer.value);
        SmallerGap(NodeSet(nodes), visited, seen, node);
        visited', chain' := WalkBack(nodes, wall, producer.value, visited', chain');
        WalkInto(nodes, wall, node, producer.value, visited, seen, visited');
      }
    }
    InputsWalked(nodes, wall, node, visited, visited');
  }

  /** The backward walk from Unsqueeze_3 reaches the node. */
  ghost predicate InWalk(g: Graph, site: Site, n: Node) {
    site.unsqueeze < |g.nodes| && Reaches(g.nodes, Wall(g, site), g.nodes[site.unsqueeze], n)
  }

  lemma ReachedIsRead(nodes: seq<Node>, wall: set<string>, from: Node, to: Node)
    requires Reaches(nodes, wall, from, to) && from != to
    ensures exists t :: FeedsBy(nodes, wall, t, to)
  {
    var path: seq<Node> :| path != [] && path[0] == from && path[|path| - 1] == to && IsPath(nodes, wall, path);
    assert Feeds(nodes, wall, path[|path| - 2], to);
  }

  lemma WallHides(nodes: seq<Node>, wall: set<string>, from: Node, to: Node)
    requires from != to && forall t :: t in to.outputs ==> t in wall
    ensures !Reaches(nodes, wall, from, to)
  {
    if Reaches(nodes, wall, from, to) {
      ReachedIsRead(nodes, wall, from, to);
    }
  }

  /** The walk never goes through Gather. */
  lemma GatherNotWalked(g: Graph, site: Site)
    requires site.gather < |g.nodes| && site.unsqueeze < |g.nodes|
    requires g.nodes[site.gather] != g.nodes[site.unsqueeze]
    ensures !InWalk(g, site, g.nodes[site.gather])
  {
    WallHides(g.nodes, Wall(g, site), g.nodes[site.unsqueeze], g.nodes[site.gather]);
  }

  /** The last node that outputs the tensor, when several do. */
  lemma {:induction false} ProducerIsLast(nodes: seq<Node>, t: string)
    requires Producer(nodes, t).Some?
    ensures exists k :: 0 <= k < |nodes| && LastToDefine(nodes, t, k) && nodes[k] == Producer(nodes, t).value
  {
    var rest := nodes[1..];
    if Producer(rest, t).Some? {
      ProducerIsLast(rest, t);
      var k :| 0 <= k < |rest| && LastToDefine(rest, t, k) && rest[k] == Producer(rest, t).value;
      assert forall j :: k + 1 < j < |nodes| ==> nodes[j] == rest[j - 1];
      assert LastToDefine(nodes, t, k + 1);
    } else {
      forall j | 0 < j < |nodes|
        ensures t !in nodes[j].outputs
      {
        if t in nodes[j].outputs {
          assert rest[j - 1] in rest;
          ProducerExists(rest, rest[j - 1], t);
        }
      }
      assert LastToDefine(nodes, t, 0);
    }
  }

  ghost predicate LastToDefine(nodes: seq<Node>, t: string, k: nat) {
    k < |nodes| && t in nodes[k].outputs && forall j :: k < j < |nodes| ==> t !in nodes[j].outputs
  }

  /** The walk goes on from a tensor exactly when it is no input, no initializer and
      no output of Gather, and then to the node that defines it. */
  lemma WalkGoesOnExactly(g: Graph, site: Site, t: string, m: Node)
    requires site.gather < |g.nodes|
    ensures FeedsBy(g.nodes, Wall(g, site), t, m) <==>
            && t != "" && t !in g.inputs && t !in g.inits && t !in g.nodes[site.gather].outputs
            && Producer(g.nodes, t) == Some(m)
  {
  }

  /** Whatever a walked node reads was walked, unless it is an input, an
      initializer or an output of Gather. */
  lemma WalkIsClosed(g: Graph, site: Site, n: Node, t: string)
    requires InWalk(g, site, n) && t in n.inputs && t != "" && site.gather < |g.nodes|
    requires t !in g.inputs && t !in g.inits && t !in g.nodes[site.gather].outputs
    ensures match Producer(g.nodes, t)
            case Some(m) => InWalk(g, site, m)
            case None => forall m :: m in g.nodes ==> t !in m.outputs
  {
    var p := Producer(g.nodes, t);
    if m :| m in g.nodes && t in m.outputs {
      ProducerExists(g.nodes, m, t);
    }
    if p.Some? {
      assert FeedsBy(g.nodes, Wall(g, site), t, p.value);
      ReachesOn(g.nodes, Wall(g, site), g.nodes[site.unsqueeze], n, p.value);
    }
  }

  lemma ReachesOn(nodes: seq<Node>, wall: set<string>, from: Node, n: Node, m: Node)
    requires Reaches(nodes, wall, from, n) && Feeds(nodes, wall, n, m)
    ensures Reaches(nodes, wall, from, m)
  {
    var path: seq<Node> :| path != [] && path[0] == from && path[|path| - 1] == n && IsPath(nodes, wall, path);
    var longer := path + [m];
    forall i | 0 < i < |longer|
      ensures Feeds(nodes, wall, longer[i - 1], longer[i])
    {
      assert longer[i - 1] == path[i - 1];
    }
    assert longer[0] == from && longer[|longer| - 1] == m;
  }

  // ---- The removability check ----

  /** The walked nodes and the consumers of the bias. */
  ghost predicate Within(g: Graph, site: Site, n: Node) {
    InWalk(g, site, n) || site.bias in n.inputs
  }

  ghost predicate Removed(g: Graph, site: Site, n: Node) {
    && InWalk(g, site, n) && site.bias !in n.inputs
    && forall o :: o in n.outputs ==>
         o !in g.outputs && forall c :: c in g.nodes && o in c.inputs ==> Within(g, site, c)
  }

  /** No output of the node is a graph output or read outside `within`. */
  predicate OnlyReadWithin(g: Graph, n: Node, within: set<Node>) {
    forall o :: o in n.outputs ==> o !in g.outputs && forall c :: c in g.nodes && o in c.inputs ==> c in within
  }

  method ConsumedWithin(g: Graph, n: Node, within: set<Node>) returns (all: bool)
    ensures all <==> OnlyReadWithin(g, n, within)
  {
    for i := 0 to |n.outputs|
      invariant forall j :: 0 <= j < i ==>
                  n.outputs[j] !in g.outputs && forall c :: c in g.nodes && n.outputs[j] in c.inputs ==> c in within
    {
      var o := n.outputs[i];
      if o in g.outputs { return false; }
      for k := 0 to |g.nodes|
        invariant forall j :: 0 <= j < k && o in g.nodes[j].inputs ==> g.nodes[j] in within
      {
        if o in g.nodes[k].inputs && g.nodes[k] !in within { return false; }
      }
    }
    return true;
  }

  method CollectRemovable(g: Graph, chain: seq<Node>, within: set<Node>) returns (removable: seq<Node>)
    ensures forall n :: n in removable <==> n in chain && OnlyReadWithin(g, n, within)
  {
    removable := [];
    for i := 0 to |chain|
      invariant forall n :: n in removable <==> n in chain[..i] && OnlyReadWithin(g, n, within)
    {
      var all := ConsumedWithin(g, chain[i], within);
      if all {
        removable := removable + [chain[i]];
      }
    }
  }

  // ---- Rebuilding the graph ----

  function NextId(nodes: seq<Node>): (k: nat)
    ensures forall n :: n in nodes ==> n.id < k
  {
    if nodes == [] then 0 else Max(nodes[0].id + 1, NextId(nodes[1..]))
  }

  function NewNodes(site: Site, id: nat): (r: seq<Node>)
    ensures |r| == 3
  {
    [Node(id, "alibi_unsqueeze_seq_len", Unsqueeze([0]), [site.seqLen], [LENGTH_NAME]),
     Node(id + 1, "alibi_slice_axis2_node", Slice,
          [CONST_NAME, STARTS_NAME, LENGTH_NAME, AXIS_2_NAME, STEPS_NAME], [SLICE_2_NAME]),
     Node(id + 2, "alibi_slice_axis3_node", Slice,
          [SLICE_2_NAME, STARTS_NAME, LENGTH_NAME, AXIS_3_NAME, STEPS_NAME], [SLICE_3_NAME])]
  }

  function NewInits(slopes: seq<real>, maxLen: nat): Env {
    map[CONST_NAME := Bias(BiasTensor(slopes, maxLen)), STARTS_NAME := Ints([0]), STEPS_NAME := Ints([1]),
        AXIS_2_NAME := Ints([2]), AXIS_3_NAME := Ints([3])]
  }

  function Rewire(n: Node, bias: string): Node {
    n.(inputs := MapSeq((t: string) => if t == bias then SLICE_3_NAME else t, n.inputs))
  }

  /** The nodes not removed, reading the sliced constant in place of the bias. */
  function Kept(nodes: seq<Node>, bias: string, removed: set<nat>): seq<Node> {
    if nodes == [] then []
    else (if nodes[0].id in removed then [] else [Rewire(nodes[0], bias)]) + Kept(nodes[1..], bias, removed)
  }

  /** The new nodes go right after Gather. */
  function Inserted(g: Graph, site: Site): seq<Node>
    requires site.gather < |g.nodes|
  {
    g.nodes[..site.gather + 1] + NewNodes(site, NextId(g.nodes)) + g.nodes[site.gather + 1..]
  }

  ghost function RemovedIds(g: Graph, site: Site): set<nat> {
    set n | n in g.nodes && Removed(g, site, n) :: n.id
  }

  ghost function Rebuilt(g: Graph, site: Site): seq<Node>
    requires site.gather < |g.nodes|
  {
    Kept(Inserted(g, site), site.bias, RemovedIds(g, site))
  }

  /** What the patch returns. */
  ghost predicate IsPatch(g: Graph, site: Site, slopes: seq<real>, maxLen: nat, h: Graph) {
    && site.gather < |g.nodes|
    && h.inputs == g.inputs && h.outputs == g.outputs
    && h.inits == g.inits + NewInits(slopes, maxLen)
    && multiset(h.nodes) == multiset(Rebuilt(g, site))
    && (Ordered(h.nodes, h.inputs + h.inits.Keys) <==> TopoSort.Orderable(Rebuilt(g, site), h.inputs + h.inits.Keys))
  }

  lemma {:induction false} KeptConcat(xs: seq<Node>, ys: seq<Node>, bias: string, removed: set<nat>)
    ensures Kept(xs + ys, bias, removed) == Kept(xs, bias, removed) + Kept(ys, bias, removed)
  {
    if xs == [] {
      assert xs + ys == ys;
    } else {
      assert (xs + ys)[1..] == xs[1..] + ys;
      KeptConcat(xs[1..], ys, bias, removed);
    }
  }

  lemma KeptSnoc(xs: seq<Node>, n: Node, bias: string, removed: set<nat>)
    ensures Kept(xs + [n], bias, removed) ==
            Kept(xs, bias, removed) + if n.id in removed then [] else [Rewire(n, bias)]
  {
    KeptConcat(xs, [n], bias, removed);
    assert [n][1..] == [];
  }

  /** The ids the method removes are those of the removed nodes. */
  lemma RemovedAgree(g: Graph, site: Site, walked: seq<Node>, chain: seq<Node>, within: set<Node>, removable: seq<Node>)
    requires forall n :: n in walked <==> InWalk(g, site, n)
    requires forall n :: n in walked ==> n in g.nodes
    requires forall n :: n in chain <==> n in walked && site.bias !in n.inputs
    requires within == set n | n in g.nodes && (n in chain || site.bias in n.inputs)
    requires forall n :: n in removable <==> n in chain && OnlyReadWithin(g, n, within)
    ensures (set n | n in removable :: n.id) == RemovedIds(g, site)
  {
    forall n
      ensures n in removable <==> n in g.nodes && Removed(g, site, n)
    {
      assert n in chain <==> InWalk(g, site, n) && site.bias !in n.inputs;
      assert forall c :: c in g.nodes ==> (c in within <==> Within(g, site, c));
      assert OnlyReadWithin(g, n, within) <==>
             forall o :: o in n.outputs ==>
               o !in g.outputs && forall c :: c in g.nodes && o in c.inputs ==> Within(g, site, c);
    }
  }

  method FindChain(g: Graph, site: Site) returns (walked: seq<Node>)
    requires site.unsqueeze < |g.nodes|
    ensures forall n :: n in walked <==> InWalk(g, site, n)
    ensures forall n :: n in walked ==> n in g.nodes
  {
    var wall := Wall(g, site);
    var from := g.nodes[site.unsqueeze];
    var visited, chain := WalkBack(g.nodes, wall, from, {}, []);
    walked := chain;
    forall n
      ensures n in walked <==> InWalk(g, site, n)
    {
      assert n in NodeSet(chain) <==> n in chain;
      if InWalk(g, site, n) {
        var path: seq<Node> :| path != [] && path[0] == from && path[|path| - 1] == n && IsPath(g.nodes, wall, path);
        ClosedCovers(g.nodes, wall, visited, path);
      }
    }
    forall n | n in walked
      ensures n in g.nodes
    {
      assert n in NodeSet(chain);
      assert n in NodeSet(g.nodes);
    }
  }

  function WithoutReaders(nodes: seq<Node>, t: string): (r: seq<Node>)
    ensures forall n :: n in r <==> n in nodes && t !in n.inputs
  {
    if nodes == [] then []
    else (if t in nodes[0].inputs then [] else [nodes[0]]) + WithoutReaders(nodes[1..], t)
  }

  /** Rewire, then drop the removed nodes. */
  method Rebuild(nodes: seq<Node>, bias: string, removed: set<nat>) returns (surviving: seq<Node>)
    ensures surviving == Kept(nodes, bias, removed)
  {
    surviving := [];
    for i := 0 to |nodes|
      invariant surviving == Kept(nodes[..i], bias, removed)
    {
      assert nodes[..i + 1] == nodes[..i] + [nodes[i]];
      KeptSnoc(nodes[..i], nodes[i], bias, removed);
      if nodes[i].id !in removed {
        surviving := surviving + [Rewire(nodes[i], bias)];
      }
    }
    assert nodes[..|nodes|] == nodes;
  }

  lemma InstallsConst(inits: Env, slopes: seq<real>, maxLen: nat)
    ensures var all := inits + NewInits(slopes, maxLen);
            CONST_NAME in all && all[CONST_NAME].Bias? && IsAlibi(all[CONST_NAME].t, slopes, maxLen)
  {
    ConstIsAlibi(BiasTensor(slopes, maxLen), slopes, maxLen);
    assert CONST_NAME in NewInits(slopes, maxLen);
  }

  method Patch(g: Graph, slopes: seq<real>, maxLen: nat) returns (r: Result<Graph>)
    ensures r.Ok? <==> Locate(g).Ok?
    ensures r.Ok? ==> IsPatch(g, Locate(g).value, slopes, maxLen, r.value)
    ensures r.Ok? ==> CONST_NAME in r.value.inits && r.value.inits[CONST_NAME].Bias? &&
                      IsAlibi(r.value.inits[CONST_NAME].t, slopes, maxLen)
  {
    var located := Locate(g);
    if located.Err? { return Err(located.message); }
    var site := located.value;
    LocateFacts(g);
    var walked := FindChain(g, site);
    var chain := WithoutReaders(walked, site.bias);
    var within := set n | n in g.nodes && (n in chain || site.bias in n.inputs);
    var removable := CollectRemovable(g, chain, within);
    RemovedAgree(g, site, walked, chain, within, removable);
    var removed := set n | n in removable :: n.id;
    var surviving := Rebuild(Inserted(g, site), site.bias, removed);
    var inits := g.inits + NewInits(slopes, maxLen);
    InstallsConst(g.inits, slopes, maxLen);
    var nodes := TopoSort.Sort(surviving, g.inputs + inits.Keys);
    return Ok(Graph(g.inputs, inits, nodes, g.outputs));
  }
}
