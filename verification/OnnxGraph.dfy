/** A small semantics of ONNX graphs: nodes in single-assignment form over named
    tensors, run in list order. */
module OnnxGraph {
  import opened Common

  /** Batch, head, row, column. */
  type Tensor = seq<seq<seq<seq<real>>>>

  datatype Value =
    | Absent                // an optional input left out
    | Int(n: int)           // an integer scalar
    | Ints(v: seq<int>)     // a one-dimensional integer tensor
    | Bias(t: Tensor)       // a four-dimensional real tensor
    | Opaque(bits: int)     // any other tensor

  datatype Op = Slice | Unsqueeze(axes: seq<int>) | Custom(kind: string)

  /** `id` stands for the node's object identity. */
  datatype Node = Node(id: nat, name: string, op: Op, inputs: seq<string>, outputs: seq<string>)

  type Env = map<string, Value>

  datatype Graph = Graph(inputs: set<string>, inits: Env, nodes: seq<Node>, outputs: seq<string>)

  /** The operators this model leaves uninterpreted: k-th output from the arguments. */
  type Sem = (Op, seq<Value>, nat) -> Value

  // ---- Slice and Unsqueeze ----

  /** A slice bound: negative counts from the end, then clipped to the axis. */
  function Bound(b: int, dim: nat): (r: nat)
    ensures r <= dim
  {
    var c := if b < 0 then b + dim else b;
    if c < 0 then 0 else if c > dim then dim else c
  }

  function Cut<T>(xs: seq<T>, start: int, end: int): seq<T> {
    var s, e := Bound(start, |xs|), Bound(end, |xs|);
    if s <= e then xs[s..e] else []
  }

  /** Unit-step slice along the row axis (2) or the column axis (3). */
  function SliceTensor(t: Tensor, start: int, end: int, axis: int): Tensor
    requires axis == 2 || axis == 3
  {
    if axis == 2 then
      MapSeq((b: seq<seq<seq<real>>>) =>
               MapSeq((h: seq<seq<real>>) => Cut(h, start, end), b), t)
    else
      MapSeq((b: seq<seq<seq<real>>>) =>
               MapSeq((h: seq<seq<real>>) =>
                        MapSeq((row: seq<real>) => Cut(row, start, end), h), b), t)
  }

  /** Axis 2 cuts the rows of every head, axis 3 the columns of every row. */
  lemma SliceAxes(t: Tensor, start: int, end: int, b: nat, h: nat, i: nat)
    requires b < |t| && h < |t[b]|
    ensures var rows := SliceTensor(t, start, end, 2);
            |rows| == |t| && |rows[b]| == |t[b]| && rows[b][h] == Cut(t[b][h], start, end)
    ensures var columns := SliceTensor(t, start, end, 3);
            && |columns| == |t| && |columns[b]| == |t[b]| && |columns[b][h]| == |t[b][h]|
            && (i < |t[b][h]| ==> columns[b][h][i] == Cut(t[b][h][i], start, end))
  {
  }

  predicate IsUnitSlice(args: seq<Value>) {
    && |args| == 5 && args[0].Bias?
    && (forall k :: 1 <= k < 5 ==> args[k].Ints? && |args[k].v| == 1)
    && args[3].v[0] in {2, 3} && args[4].v[0] == 1
  }

  function Apply(sem: Sem, op: Op, args: seq<Value>, k: nat): Value {
    if op.Slice? && k == 0 && IsUnitSlice(args) then
      Bias(SliceTensor(args[0].t, args[1].v[0], args[2].v[0], args[3].v[0]))
    else if op == Unsqueeze([0]) && k == 0 && |args| == 1 && args[0].Int? then
      Ints([args[0].n])
    else sem(op, args, k)
  }

  // ---- Running a graph ----

  function IndexOf(xs: seq<string>, x: string): nat {
    if xs == [] || xs[0] == x then 0 else 1 + IndexOf(xs[1..], x)
  }

  /** The tensors a node defines; the empty name is an output left out. */
  function Outs(n: Node): set<string> {
    set t | t in n.outputs && t != ""
  }

  function AllOuts(nodes: seq<Node>): set<string> {
    if nodes == [] then {} else Outs(nodes[0]) + AllOuts(nodes[1..])
  }

  /** All inputs that are not left out are available. */
  predicate Ready(n: Node, avail: set<string>) {
    forall t :: t in n.inputs && t != "" ==> t in avail
  }

  function Args(n: Node, env: Env): seq<Value> {
    MapSeq((t: string) => if t != "" && t in env then env[t] else Absent, n.inputs)
  }

  function Out(sem: Sem, n: Node, env: Env, t: string): Value {
    Apply(sem, n.op, Args(n, env), IndexOf(n.outputs, t))
  }

  function Defined(sem: Sem, n: Node, env: Env): Env {
    map t | t in Outs(n) :: Out(sem, n, env, t)
  }

  /** Run the nodes in order; `None` when one of them has a missing input. */
  function Eval(sem: Sem, nodes: seq<Node>, env: Env): Option<Env> {
    if nodes == [] then Some(env)
    else if Ready(nodes[0], env.Keys) then Eval(sem, nodes[1..], env + Defined(sem, nodes[0], env))
    else None
  }

  /** Every producer comes before its consumers. */
  predicate Ordered(nodes: seq<Node>, avail: set<string>) {
    nodes == [] || (Ready(nodes[0], avail) && Ordered(nodes[1..], avail + Outs(nodes[0])))
  }

  /** Every tensor is defined once. */
  predicate SingleAssignment(nodes: seq<Node>, avail: set<string>) {
    nodes == [] ||
    (Outs(nodes[0]) !! avail && SingleAssignment(nodes[1..], avail + Outs(nodes[0])))
  }

  predicate Agrees(env: Env, w: Env) {
    forall t :: t in env ==> t in w && env[t] == w[t]
  }

  /** The valuation `w` satisfies the node's defining equation. */
  ghost predicate Holds(sem: Sem, n: Node, w: Env) {
    && Ready(n, w.Keys)
    && forall t :: t in Outs(n) ==> t in w && w[t] == Out(sem, n, w, t)
  }

  // ---- The meaning of a graph does not depend on the order of its nodes ----

  lemma SameArgs(n: Node, env: Env, w: Env)
    requires Ready(n, env.Keys) && Agrees(env, w)
    ensures Args(n, env) == Args(n, w)
  {
    assert forall i :: 0 <= i < |n.inputs| ==> n.inputs[i] in n.inputs;
  }

  /** A list in producer order computes any valuation that satisfies all its
      nodes' equations. */
  lemma {:induction false} EvalFollows(sem: Sem, nodes: seq<Node>, env: Env, w: Env)
    requires Ordered(nodes, env.Keys) && Agrees(env, w)
    requires forall n :: n in nodes ==> Holds(sem, n, w)
    ensures Eval(sem, nodes, env).Some?
    ensures Agrees(Eval(sem, nodes, env).value, w)
    ensures Eval(sem, nodes, env).value.Keys == env.Keys + AllOuts(nodes)
  {
    if nodes != [] {
      var n, rest := nodes[0], nodes[1..];
      SameArgs(n, env, w);
      assert Holds(sem, n, w);
      var env' := env + Defined(sem, n, env);
      assert env'.Keys == env.Keys + Outs(n);
      assert forall m :: m in rest ==> m in nodes;
      EvalFollows(sem, rest, env', w);
    }
  }

  /** Running succeeds exactly on lists in producer order. */
  lemma {:induction false} EvalNeedsOrder(sem: Sem, nodes: seq<Node>, env: Env)
    ensures Eval(sem, nodes, env).Some? <==> Ordered(nodes, env.Keys)
  {
    if nodes != [] {
      var env' := env + Defined(sem, nodes[0], env);
      assert env'.Keys == env.Keys + Outs(nodes[0]);
      EvalNeedsOrder(sem, nodes[1..], env');
    }
  }

  /** What a run of a single-assignment list computes satisfies every node's
      equation and keeps the values it started from. */
  lemma {:induction false} EvalSound(sem: Sem, nodes: seq<Node>, env: Env)
    requires SingleAssignment(nodes, env.Keys) && Eval(sem, nodes, env).Some?
    ensures var w := Eval(sem, nodes, env).value;
            Agrees(env, w) && w.Keys == env.Keys + AllOuts(nodes) && forall n :: n in nodes ==> Holds(sem, n, w)
  {
    if nodes != [] {
      var n, rest := nodes[0], nodes[1..];
      var env' := env + Defined(sem, n, env);
      assert env'.Keys == env.Keys + Outs(n);
      EvalSound(sem, rest, env');
      var w := Eval(sem, rest, env').value;
      assert Agrees(env, env');
      SameArgs(n, env, w);
      assert Holds(sem, n, w);
      assert nodes == [n] + rest;
    }
  }

  /** Any two producer orders of the same single-assignment nodes compute the
      same values. */
  lemma OrderIrrelevant(sem: Sem, nodes: seq<Node>, other: seq<Node>, env: Env)
    requires SingleAssignment(nodes, env.Keys) && multiset(nodes) == multiset(other)
    requires Ordered(nodes, env.Keys) && Ordered(other, env.Keys)
    ensures Eval(sem, nodes, env) == Eval(sem, other, env)
  {
    EvalNeedsOrder(sem, nodes, env);
    EvalSound(sem, nodes, env);
    var w := Eval(sem, nodes, env).value;
    forall n | n in other
      ensures Holds(sem, n, w)
    {
      assert n in multiset(other);
    }
    EvalFollows(sem, other, env, w);
    SameOuts(nodes, other);
    var r := Eval(sem, other, env).value;
    assert r.Keys == w.Keys;
    assert r == w;
  }

  lemma {:induction false} OutsMember(nodes: seq<Node>, t: string)
    ensures t in AllOuts(nodes) <==> exists n :: n in nodes && t in Outs(n)
  {
    if nodes != [] {
      OutsMember(nodes[1..], t);
      assert nodes == [nodes[0]] + nodes[1..];
      assert forall n :: n in nodes[1..] ==> n in nodes;
    }
  }

  lemma SameOuts(nodes: seq<Node>, other: seq<Node>)
    requires multiset(nodes) == multiset(other)
    ensures AllOuts(nodes) == AllOuts(other)
  {
    forall t
      ensures t in AllOuts(nodes) <==> t in AllOuts(other)
    {
      OutsMember(nodes, t);
      OutsMember(other, t);
      forall n
        ensures n in nodes <==> n in other
      {
        assert n in multiset(nodes) <==> n in multiset(other);
      }
    }
  }

  // ---- Facts about producer order ----

  lemma {:induction false} OrderedMono(nodes: seq<Node>, a: set<string>, b: set<string>)
    requires Ordered(nodes, a) && a <= b
    ensures Ordered(nodes, b)
  {
    if nodes != [] {
      OrderedMono(nodes[1..], a + Outs(nodes[0]), b + Outs(nodes[0]));
    }
  }

  lemma {:induction false} OrderedConcat(xs: seq<Node>, ys: seq<Node>, a: set<string>)
    ensures Ordered(xs + ys, a) <==> Ordered(xs, a) && Ordered(ys, a + AllOuts(xs))
  {
    if xs == [] {
      assert xs + ys == ys;
      assert a + AllOuts(xs) == a;
    } else {
      assert (xs + ys)[1..] == xs[1..] + ys;
      OrderedConcat(xs[1..], ys, a + Outs(xs[0]));
      assert a + AllOuts(xs) == a + Outs(xs[0]) + AllOuts(xs[1..]);
    }
  }

  lemma {:induction false} AllOutsConcat(xs: seq<Node>, ys: seq<Node>)
    ensures AllOuts(xs + ys) == AllOuts(xs) + AllOuts(ys)
  {
    if xs == [] {
      assert xs + ys == ys;
    } else {
      assert (xs + ys)[1..] == xs[1..] + ys;
      AllOutsConcat(xs[1..], ys);
    }
  }

  lemma AllOutsSnoc(xs: seq<Node>, n: Node)
    ensures AllOuts(xs + [n]) == AllOuts(xs) + Outs(n)
  {
    AllOutsConcat(xs, [n]);
    assert AllOuts([n]) == Outs(n) + AllOuts([]);
  }

  lemma OrderedSnoc(xs: seq<Node>, n: Node, a: set<string>)
    ensures Ordered(xs + [n], a) <==> Ordered(xs, a) && Ready(n, a + AllOuts(xs))
  {
    OrderedConcat(xs, [n], a);
    assert [n][1..] == [];
  }

  /** The k-th node of a producer order reads only what was there or what the
      nodes before it define. */
  lemma ReadyAt(nodes: seq<Node>, a: set<string>, k: nat)
    requires Ordered(nodes, a) && k < |nodes|
    ensures Ready(nodes[k], a + AllOuts(nodes[..k]))
  {
    assert nodes == nodes[..k] + nodes[k..];
    OrderedConcat(nodes[..k], nodes[k..], a);
  }

  /** A list is in producer order exactly when every input a node reads was there
      from the start or is the output of a node before it. */
  lemma OrderedExactly(nodes: seq<Node>, a: set<string>)
    ensures Ordered(nodes, a) <==>
            forall k, t :: 0 <= k < |nodes| && t in nodes[k].inputs && t != "" ==> t in a || DefinedBefore(nodes, k, t)
  {
    if Ordered(nodes, a) {
      forall k, t | 0 <= k < |nodes| && t in nodes[k].inputs && t != ""
        ensures t in a || DefinedBefore(nodes, k, t)
      {
        ReadyAt(nodes, a, k);
        DefinedByPrefix(nodes, k, t);
      }
    } else {
      var k := FirstUnready(nodes, a);
      var t :| t in nodes[k].inputs && t != "" && t !in a + AllOuts(nodes[..k]);
      DefinedByPrefix(nodes, k, t);
    }
  }

  ghost predicate DefinedBefore(nodes: seq<Node>, k: nat, t: string) {
    k <= |nodes| && exists j :: 0 <= j < k && t in nodes[j].outputs && t != ""
  }

  lemma DefinedByPrefix(nodes: seq<Node>, k: nat, t: string)
    requires k <= |nodes|
    ensures t in AllOuts(nodes[..k]) <==> DefinedBefore(nodes, k, t)
  {
    OutsMember(nodes[..k], t);
    if t in AllOuts(nodes[..k]) {
      var m :| m in nodes[..k] && t in Outs(m);
      var j :| 0 <= j < k && nodes[j] == m;
    }
    if DefinedBefore(nodes, k, t) {
      var j :| 0 <= j < k && t in nodes[j].outputs && t != "";
      assert nodes[..k][j] == nodes[j] && nodes[j] in nodes[..k];
    }
  }

  lemma {:induction false} FirstUnready(nodes: seq<Node>, a: set<string>) returns (k: nat)
    requires !Ordered(nodes, a)
    ensures k < |nodes| && !Ready(nodes[k], a + AllOuts(nodes[..k]))
  {
    if !Ready(nodes[0], a) {
      k := 0;
      assert a + AllOuts(nodes[..0]) == a;
    } else {
      var j := FirstUnready(nodes[1..], a + Outs(nodes[0]));
      k := j + 1;
      assert nodes[..k] == [nodes[0]] + nodes[1..][..j];
      AllOutsConcat([nodes[0]], nodes[1..][..j]);
      assert AllOuts([nodes[0]]) == Outs(nodes[0]) + AllOuts([]);
      assert a + AllOuts(nodes[..k]) == a + Outs(nodes[0]) + AllOuts(nodes[1..][..j]);
    }
  }

  /** The value of an output is computed for the position it stands at. */
  lemma {:induction false} IndexOfFinds(xs: seq<string>, x: string)
    requires x in xs
    ensures IndexOf(xs, x) < |xs| && xs[IndexOf(xs, x)] == x
  {
    if xs[0] != x {
      IndexOfFinds(xs[1..], x);
    }
  }

  /** A slice keeps what lies between its bounds; a bound beyond the axis means its
      end, a negative one counts from it. */
  lemma SlicingRule<T>(xs: seq<T>, start: int, end: int)
    ensures 0 <= start <= end <= |xs| ==> Cut(xs, start, end) == xs[start..end]
    ensures 0 <= start <= |xs| < end ==> Cut(xs, start, end) == xs[start..]
    ensures -|xs| <= end < 0 ==> Cut(xs, 0, end) == xs[..|xs| + end]
    ensures end < -|xs| ==> Cut(xs, 0, end) == []
    ensures |xs| < start ==> Cut(xs, start, end) == []
  {
  }
}
