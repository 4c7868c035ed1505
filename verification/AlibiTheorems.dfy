/** What the ALiBi rewrite preserves, and exactly when. */
module AlibiTheorems {
  import opened Common
  import opened OnnxGraph
  import opened AlibiBias
  import opened AlibiPatch
  import opened AlibiSite
  import opened AlibiOrder
  import opened AlibiCycle

  // ---- The rewritten graph computes the same values ----

  /** The original run's values together with those of the new tensors. */
  ghost predicate Extends(w: Env, v: Env, slopes: seq<real>, maxLen: nat, s: nat) {
    var c := BiasTensor(slopes, maxLen);
    && Agrees(v, w) && Agrees(NewInits(slopes, maxLen), w)
    && LENGTH_NAME in w && w[LENGTH_NAME] == Ints([s])
    && SLICE_2_NAME in w && w[SLICE_2_NAME] == Bias(SliceTensor(c, 0, s, 2))
    && SLICE_3_NAME in w && w[SLICE_3_NAME] == Bias(SliceBoth(c, s))
  }

  lemma ExtensionExists(v: Env, slopes: seq<real>, maxLen: nat, s: nat) returns (w: Env)
    requires v.Keys !! NewNames()
    ensures Extends(w, v, slopes, maxLen, s)
  {
    var c := BiasTensor(slopes, maxLen);
    w := v + NewInits(slopes, maxLen)
         + map[LENGTH_NAME := Ints([s]), SLICE_2_NAME := Bias(SliceTensor(c, 0, s, 2)),
               SLICE_3_NAME := Bias(SliceBoth(c, s))];
    assert CONST_NAME in NewNames() && STARTS_NAME in NewNames() && STEPS_NAME in NewNames();
    assert AXIS_2_NAME in NewNames() && AXIS_3_NAME in NewNames() && LENGTH_NAME in NewNames();
    assert SLICE_2_NAME in NewNames() && SLICE_3_NAME in NewNames();
  }

  lemma UnsqueezeHolds(sem: Sem, site: Site, id: nat, w: Env, s: nat)
    requires site.seqLen != "" && site.seqLen in w && w[site.seqLen] == Int(s)
    requires LENGTH_NAME in w && w[LENGTH_NAME] == Ints([s])
    ensures Holds(sem, NewNodes(site, id)[0], w)
  {
    var n := NewNodes(site, id)[0];
    assert Args(n, w) == [Int(s)];
    assert Out(sem, n, w, LENGTH_NAME) == Ints([s]);
  }

  /** A new slice node along an axis, from the value it cuts. */
  lemma SliceHolds(sem: Sem, n: Node, w: Env, data: string, out: string, axisName: string, axis: int, t: Tensor, s: nat)
    requires n.op == Slice && n.inputs == [data, STARTS_NAME, LENGTH_NAME, axisName, STEPS_NAME] && n.outputs == [out]
    requires axis == 2 || axis == 3
    requires data != "" && out != "" && axisName != ""
    requires data in w && w[data] == Bias(t) && STARTS_NAME in w && w[STARTS_NAME] == Ints([0])
    requires LENGTH_NAME in w && w[LENGTH_NAME] == Ints([s]) && axisName in w && w[axisName] == Ints([axis])
    requires STEPS_NAME in w && w[STEPS_NAME] == Ints([1])
    requires out in w && w[out] == Bias(SliceTensor(t, 0, s, axis))
    ensures Holds(sem, n, w)
  {
    assert Args(n, w) == [Bias(t), Ints([0]), Ints([s]), Ints([axis]), Ints([1])];
    assert Out(sem, n, w, out) == Bias(SliceTensor(t, 0, s, axis));
  }

  lemma NewNodesHold(sem: Sem, site: Site, id: nat, w: Env, v: Env, slopes: seq<real>, maxLen: nat, s: nat, n: Node)
    requires Extends(w, v, slopes, maxLen, s) && n in NewNodes(site, id)
    requires site.seqLen != "" && site.seqLen in v && v[site.seqLen] == Int(s)
    ensures Holds(sem, n, w)
  {
    var added, c := NewNodes(site, id), BiasTensor(slopes, maxLen);
    var inits := NewInits(slopes, maxLen);
    assert CONST_NAME in inits && STARTS_NAME in inits && STEPS_NAME in inits;
    assert AXIS_2_NAME in inits && AXIS_3_NAME in inits;
    if n == added[0] {
      UnsqueezeHolds(sem, site, id, w, s);
    } else if n == added[1] {
      SliceHolds(sem, n, w, CONST_NAME, SLICE_2_NAME, AXIS_2_NAME, 2, c, s);
    } else {
      SliceHolds(sem, n, w, SLICE_2_NAME, SLICE_3_NAME, AXIS_3_NAME, 3, SliceTensor(c, 0, s, 2), s);
    }
  }

  /** A rewired node computes what it computed, from the same bias under its new name. */
  lemma RewiredHolds(sem: Sem, n: Node, bias: string, v: Env, w: Env)
    requires Holds(sem, n, v) && Agrees(v, w)
    requires bias in v && SLICE_3_NAME in w && w[SLICE_3_NAME] == v[bias] && bias != ""
    ensures Holds(sem, Rewire(n, bias), w)
  {
    var n' := Rewire(n, bias);
    forall i | 0 <= i < |n.inputs|
      ensures n'.inputs[i] != "" ==> n'.inputs[i] in w
      ensures Args(n', w)[i] == Args(n, v)[i]
    {
      assert n.inputs[i] in n.inputs;
    }
    assert Args(n', w) == Args(n, v);
    assert Outs(n') == Outs(n);
  }

  ghost predicate AllHold(sem: Sem, nodes: seq<Node>, w: Env) {
    forall n :: n in nodes ==> Holds(sem, n, w)
  }

  /** Every node of the rewritten graph is satisfied by the extended valuation. */
  lemma RebuiltHolds(sem: Sem, g: Graph, site: Site, v: Env, w: Env, slopes: seq<real>, maxLen: nat, s: nat)
    requires Rewritable(g, site) && AllHold(sem, g.nodes, v) && Extends(w, v, slopes, maxLen, s)
    requires site.seqLen in v && v[site.seqLen] == Int(s)
    requires site.bias in v && v[site.bias] == Bias(BiasTensor(slopes, s)) && s <= maxLen
    ensures site.gather < |g.nodes| && AllHold(sem, Rebuilt(g, site), w)
  {
    LocateFacts(g);
    SlicedBias(slopes, maxLen, s);
    forall x | x in Rebuilt(g, site)
      ensures Holds(sem, x, w)
    {
      RebuiltMember(g, site, x);
      if x in NewNodes(site, NextId(g.nodes)) {
        NewNodesHold(sem, site, NextId(g.nodes), w, v, slopes, maxLen, s, x);
      } else {
        var n :| n in g.nodes && !Removed(g, site, n) && x == Rewire(n, site.bias);
        RewiredHolds(sem, n, site.bias, v, w);
      }
    }
  }

  lemma StartKeys(g: Graph, site: Site, slopes: seq<real>, maxLen: nat, h: Graph, feed: Env)
    requires IsPatch(g, site, slopes, maxLen, h) && feed.Keys == g.inputs
    ensures Start(g, feed).Keys == Sources(g)
    ensures Start(h, feed).Keys == Sources(h) == Sources(g) + NewSources()
  {
  }

  lemma StartAgrees(g: Graph, site: Site, slopes: seq<real>, maxLen: nat, h: Graph, feed: Env, v: Env, w: Env, s: nat)
    requires IsPatch(g, site, slopes, maxLen, h) && feed.Keys == g.inputs && Sources(g) !! NewNames()
    requires Agrees(Start(g, feed), v) && Extends(w, v, slopes, maxLen, s)
    ensures Agrees(Start(h, feed), w)
  {
    forall t | t in Start(h, feed)
      ensures t in w && Start(h, feed)[t] == w[t]
    {
      if t in feed {
        assert t in Start(g, feed);
      } else if t in NewInits(slopes, maxLen) {
        assert Start(h, feed)[t] == NewInits(slopes, maxLen)[t];
      } else {
        assert t in Start(g, feed);
      }
    }
  }

  /** A graph output the original computes is computed after the rewrite. */
  lemma OutputSurvives(g: Graph, site: Site, h: Graph, o: string)
    requires Rewritable(g, site) && o in g.outputs && o in Sources(g) + AllOuts(g.nodes)
    requires site.gather < |g.nodes| && multiset(h.nodes) == multiset(Rebuilt(g, site))
    ensures o in Sources(g) + AllOuts(h.nodes)
  {
    if o !in Sources(g) {
      OutsMember(g.nodes, o);
      var n :| n in g.nodes && o in Outs(n);
      var x := Rewire(n, site.bias);
      assert !Removed(g, site, n);
      RebuiltMember(g, site, x);
      MultisetMember(h.nodes, Rebuilt(g, site), x);
      assert o in Outs(x);
      OutsMember(h.nodes, o);
    }
  }

  lemma PatchSources(g: Graph, site: Site, slopes: seq<real>, maxLen: nat, h: Graph)
    requires IsPatch(g, site, slopes, maxLen, h)
    ensures h.inputs + h.inits.Keys == Sources(g) + NewSources()
  {
  }

  lemma PatchOrdered(g: Graph, site: Site, slopes: seq<real>, maxLen: nat, h: Graph)
    requires Rewritable(g, site) && IsPatch(g, site, slopes, maxLen, h) && Clean(g, site) && GatherIsFree(g, site)
    ensures Ordered(h.nodes, Sources(g) + NewSources())
  {
    RebuiltOrderable(g, site);
    PatchSources(g, site, slopes, maxLen, h);
  }

  /** When nothing dangles and Gather is free, the rewritten graph runs and gives
      every graph output the value the original gives it. */
  lemma {:induction false} CleanPatchPreserves(sem: Sem, g: Graph, site: Site, slopes: seq<real>, maxLen: nat,
                                               h: Graph, feed: Env, v: Env, s: nat)
    requires Rewritable(g, site) && IsPatch(g, site, slopes, maxLen, h) && feed.Keys == g.inputs
    requires Clean(g, site) && GatherIsFree(g, site)
    requires Eval(sem, g.nodes, Start(g, feed)) == Some(v)
    requires site.seqLen in v && v[site.seqLen] == Int(s)
    requires site.bias in v && v[site.bias].Bias? && IsAlibi(v[site.bias].t, slopes, s) && s <= maxLen
    ensures var r := Eval(sem, h.nodes, Start(h, feed));
            r.Some? && forall o :: o in g.outputs && o in v ==> o in r.value && r.value[o] == v[o]
  {
    StartKeys(g, site, slopes, maxLen, h, feed);
    EvalSound(sem, g.nodes, Start(g, feed));
    ConstIsAlibi(v[site.bias].t, slopes, s);
    var w := ExtensionExists(v, slopes, maxLen, s);
    RebuiltHolds(sem, g, site, v, w, slopes, maxLen, s);
    forall x | x in h.nodes
      ensures Holds(sem, x, w)
    {
      MultisetMember(h.nodes, Rebuilt(g, site), x);
    }
    StartAgrees(g, site, slopes, maxLen, h, feed, v, w, s);
    PatchOrdered(g, site, slopes, maxLen, h);
    EvalFollows(sem, h.nodes, Start(h, feed), w);
    forall o | o in g.outputs && o in v
      ensures o in Eval(sem, h.nodes, Start(h, feed)).value
    {
      OutputSurvives(g, site, h, o);
    }
  }

  lemma {:induction false} ReadIsDefined(nodes: seq<Node>, a: set<string>, n: Node, t: string)
    requires Ordered(nodes, a) && n in nodes && t in n.inputs && t != ""
    ensures t in a + AllOuts(nodes)
  {
    if n != nodes[0] {
      ReadIsDefined(nodes[1..], a + Outs(nodes[0]), n, t);
    }
  }

  lemma NotRedefined(g: Graph, site: Site, m: Node, t: string, x: Node)
    requires Rewritable(g, site) && m in g.nodes && Removed(g, site, m) && t in Outs(m)
    requires site.gather < |g.nodes| && x in Rebuilt(g, site)
    ensures t !in Outs(x)
  {
    if t in Outs(x) {
      RebuiltMember(g, site, x);
      if x in NewNodes(site, NextId(g.nodes)) {
        NewOuts(site, NextId(g.nodes), x, t);
        DefinedName(g, site, m, t);
      } else {
        var n :| n in g.nodes && !Removed(g, site, n) && x == Rewire(n, site.bias);
        AssignedOnce(g.nodes, Sources(g), n, m, t);
      }
    }
  }

  /** Nothing in the rewritten graph defines what a removed node defined. */
  lemma RemovedIsGone(g: Graph, site: Site, nodes: seq<Node>, t: string)
    requires Rewritable(g, site) && RemovedOut(g, site, t) && t != ""
    requires site.gather < |g.nodes| && multiset(nodes) == multiset(Rebuilt(g, site))
    ensures t !in Sources(g) + NewSources() + AllOuts(nodes)
  {
    var m :| m in g.nodes && Removed(g, site, m) && t in m.outputs;
    assert t in Outs(m);
    DefinedName(g, site, m, t);
    if t in AllOuts(nodes) {
      OutsMember(nodes, t);
      var x :| x in nodes && t in Outs(x);
      MultisetMember(nodes, Rebuilt(g, site), x);
      NotRedefined(g, site, m, t, x);
    }
  }

  lemma DanglingReader(g: Graph, site: Site) returns (x: Node, t: string)
    requires Rewritable(g, site) && !Clean(g, site)
    ensures site.gather < |g.nodes| && x in Rebuilt(g, site) && t in x.inputs && t != "" && RemovedOut(g, site, t)
  {
    var n :| n in g.nodes && !Removed(g, site, n) && Dangles(g, site, n);
    t :| t in n.inputs && t != "" && t != site.bias && RemovedOut(g, site, t);
    x := Rewire(n, site.bias);
    KeptInRebuilt(g, site, n);
    RewireKeeps(n, site.bias, t);
  }

  /** When something dangles, the rewritten graph cannot run on any input. */
  lemma {:induction false} DanglingPatchFails(sem: Sem, g: Graph, site: Site, slopes: seq<real>, maxLen: nat,
                                              h: Graph, feed: Env)
    requires Rewritable(g, site) && IsPatch(g, site, slopes, maxLen, h) && feed.Keys == g.inputs && !Clean(g, site)
    ensures Eval(sem, h.nodes, Start(h, feed)) == None
  {
    StartKeys(g, site, slopes, maxLen, h, feed);
    EvalNeedsOrder(sem, h.nodes, Start(h, feed));
    var x, t := DanglingReader(g, site);
    MultisetMember(h.nodes, Rebuilt(g, site), x);
    RemovedIsGone(g, site, h.nodes, t);
    if Ordered(h.nodes, Start(h, feed).Keys) {
      ReadIsDefined(h.nodes, Start(h, feed).Keys, x, t);
    }
  }

  /** When Gather depends on a reader of the bias, it cannot run either. */
  lemma {:induction false} CyclicPatchFails(sem: Sem, g: Graph, site: Site, slopes: seq<real>, maxLen: nat,
                                            h: Graph, feed: Env)
    requires Rewritable(g, site) && IsPatch(g, site, slopes, maxLen, h) && feed.Keys == g.inputs
    requires Clean(g, site) && !GatherIsFree(g, site)
    ensures Eval(sem, h.nodes, Start(h, feed)) == None
  {
    StartKeys(g, site, slopes, maxLen, h, feed);
    EvalNeedsOrder(sem, h.nodes, Start(h, feed));
    forall x
      ensures x in h.nodes <==> x in Rebuilt(g, site)
    {
      MultisetMember(h.nodes, Rebuilt(g, site), x);
    }
    CycleHasNoOrder(g, site, h.nodes);
  }

  /** The rewrite preserves every graph output, for every operator semantics and
      every run whose sequence length is within the precomputed one and whose
      chain computes the ALiBi bias, exactly when no kept chain node and no
      consumer of the bias reads a removed tensor and Gather does not depend on a
      consumer of the bias; otherwise the rewritten graph does not run at all. */
  lemma {:induction false} PatchPreserves(sem: Sem, g: Graph, site: Site, slopes: seq<real>, maxLen: nat,
                                          h: Graph, feed: Env, v: Env, s: nat)
    requires Rewritable(g, site) && IsPatch(g, site, slopes, maxLen, h) && feed.Keys == g.inputs
    requires Eval(sem, g.nodes, Start(g, feed)) == Some(v)
    requires site.seqLen in v && v[site.seqLen] == Int(s)
    requires site.bias in v && v[site.bias].Bias? && IsAlibi(v[site.bias].t, slopes, s) && s <= maxLen
    ensures var r := Eval(sem, h.nodes, Start(h, feed));
            && (r.Some? <==> KeptChainIsWhole(g, site) && AddsReadOnlyBias(g, site) && GatherIsFree(g, site))
            && (r.Some? ==> forall o :: o in g.outputs && o in v ==> o in r.value && r.value[o] == v[o])
  {
    CleanExactly(g, site);
    if !Clean(g, site) {
      DanglingPatchFails(sem, g, site, slopes, maxLen, h, feed);
    } else if !GatherIsFree(g, site) {
      CyclicPatchFails(sem, g, site, slopes, maxLen, h, feed);
    } else {
      CleanPatchPreserves(sem, g, site, slopes, maxLen, h, feed, v, s);
    }
  }
}
