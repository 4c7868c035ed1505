/** Every event keeps the worker's invariant. */
module BatchInvariant {
  import opened Common
  import opened BatchGates
  import opened BatchReplies
  import opened BatchMachine

  // ---- Order and membership under deletion ----

  lemma {:induction false} RetainAscending(items: seq<Item>, gone: set<nat>)
    requires Ascending(items)
    ensures Ascending(Retain(items, gone))
  {
    if items != [] {
      RetainAscending(items[1..], gone);
      RetainMembers(items[1..], gone);
      forall x | x in Retain(items[1..], gone)
        ensures items[0].id < x.id
      {
        var k :| 0 <= k < |items[1..]| && items[1..][k] == x;
      }
    }
  }

  lemma {:induction false} RetainNone(items: seq<Item>, gone: set<nat>)
    requires forall x :: x in items ==> x.id !in gone
    ensures Retain(items, gone) == items
  {
    if items != [] {
      RetainNone(items[1..], gone);
    }
  }

  /** Deleting in two rounds is deleting the union. */
  lemma {:induction false} RetainTwice(items: seq<Item>, a: set<nat>, b: set<nat>)
    ensures Retain(Retain(items, a), b) == Retain(items, a + b)
  {
    if items != [] {
      RetainTwice(items[1..], a, b);
      var rest := Retain(items[1..], a);
      assert ([items[0]] + rest)[1..] == rest;
    }
  }

  /** Only the members of `items` matter to what is deleted. */
  lemma {:induction false} RetainRelevant(items: seq<Item>, a: set<nat>, b: set<nat>)
    requires forall x :: x in items ==> (x.id in a <==> x.id in b)
    ensures Retain(items, a) == Retain(items, b)
  {
    if items != [] {
      RetainRelevant(items[1..], a, b);
    }
  }

  /** All requests that were not cancelled, oldest first. */
  function Line<V>(s: State<V>): seq<Item> {
    Flatten(s.dispatched) + Undispatched(s)
  }

  lemma LineAscends<V>(s: State<V>)
    requires Identified(s) && InOrder(s)
    ensures Ascending(Line(s))
    ensures forall x :: x in Line(s) ==> x.id < |s.arrived| && x == s.arrived[x.id] && x.id !in s.cancelled
  {
    RetainAscending(s.arrived, s.cancelled);
    RetainMembers(s.arrived, s.cancelled);
  }

  /** What is in flight is the young end of the line. */
  lemma InFlightIsSuffix<V>(s: State<V>) returns (settled: seq<Item>)
    requires Control(s) && !s.phase.Aborted?
    ensures Line(s) == settled + InFlight(s)
  {
    if s.phase.Dispatching? {
      var n := |s.dispatched| - 1;
      assert s.dispatched == s.dispatched[..n] + [s.phase.batch];
      FlattenSnoc(s.dispatched[..n], s.phase.batch);
      settled := Flatten(s.dispatched[..n]);
      assert Line(s) == settled + InFlight(s);
    } else {
      settled := Flatten(s.dispatched);
      assert Line(s) == settled + InFlight(s);
    }
  }

  lemma InFlightAscends<V>(s: State<V>)
    requires Identified(s) && InOrder(s) && Control(s)
    ensures Ascending(InFlight(s))
    ensures forall x :: x in InFlight(s) ==> x.id < |s.arrived| && x == s.arrived[x.id]
  {
    if s.phase.Aborted? {
      assert InFlight(s) == [];
    } else {
      LineAscends(s);
      var settled := InFlightIsSuffix(s);
      SuffixAscends(settled, InFlight(s));
    }
  }

  lemma SuffixAscends(settled: seq<Item>, rest: seq<Item>)
    requires Ascending(settled + rest)
    ensures Ascending(rest) && forall x :: x in rest ==> x in settled + rest
  {
    var all, n := settled + rest, |settled|;
    assert forall k :: 0 <= k < |rest| ==> rest[k] == all[n + k];
  }

  // ---- The ledger ----

  lemma {:induction false} IdsMembers(items: seq<Item>)
    ensures forall i: nat :: i in Ids(items) <==> exists x :: x in items && x.id == i
  {
    if items != [] {
      IdsMembers(items[1..]);
      assert items == [items[0]] + items[1..];
    }
  }

  lemma {:induction false} SentMembers<V>(sent: seq<Sent<V>>)
    ensures forall i: nat :: i in SentIds(sent) <==> exists k :: 0 <= k < |sent| && sent[k].id == i
  {
    if sent != [] {
      SentMembers(sent[1..]);
      forall i: nat
        ensures i in SentIds(sent) <==> exists k :: 0 <= k < |sent| && sent[k].id == i
      {
        if i in SentIds(sent[1..]) {
          var k :| 0 <= k < |sent[1..]| && sent[1..][k].id == i;
          assert sent[k + 1].id == i;
        }
        if k :| 0 <= k < |sent| && sent[k].id == i {
          assert k > 0 ==> sent[1..][k - 1].id == i;
        }
      }
    }
  }

  lemma {:induction false} IdsConcat(xs: seq<Item>, ys: seq<Item>)
    ensures Ids(xs + ys) == Ids(xs) + Ids(ys)
  {
    if xs == [] {
      assert xs + ys == ys;
    } else {
      assert (xs + ys)[1..] == xs[1..] + ys;
      IdsConcat(xs[1..], ys);
    }
  }

  lemma {:induction false} SentIdsConcat<V>(xs: seq<Sent<V>>, ys: seq<Sent<V>>)
    ensures SentIds(xs + ys) == SentIds(xs) + SentIds(ys)
  {
    if xs == [] {
      assert xs + ys == ys;
    } else {
      assert (xs + ys)[1..] == xs[1..] + ys;
      SentIdsConcat(xs[1..], ys);
    }
  }

  lemma OnceConcat<V>(sent: seq<Sent<V>>, more: seq<Sent<V>>)
    requires OncePerId(sent) && OncePerId(more) && SentIds(sent) !! SentIds(more)
    ensures OncePerId(sent + more)
  {
    SentMembers(sent);
    SentMembers(more);
    var all := sent + more;
    forall i, j | 0 <= i < j < |all|
      ensures all[i].id != all[j].id
    {
      if i < |sent| <= j {
        assert sent[i].id in SentIds(sent) && more[j - |sent|].id in SentIds(more);
      }
    }
  }

  /** Resolving some of the requests in flight, each once, keeps the ledger. */
  lemma LedgerResolve<V>(n: nat, sent: seq<Sent<V>>, inFlight: seq<Item>, more: seq<Sent<V>>, left: seq<Item>)
    requires Ledger(n, sent, inFlight)
    requires OncePerId(more) && SentIds(more) !! Ids(left) && SentIds(more) + Ids(left) == Ids(inFlight)
    ensures Ledger(n, sent + more, left)
  {
    SentIdsConcat(sent, more);
    OnceConcat(sent, more);
  }

  lemma {:induction false} SameIds<V>(items: seq<Item>, reply: Reply<V>)
    ensures SentIds(Same(items, reply)) == Ids(items)
    ensures Ascending(items) ==> OncePerId(Same(items, reply))
  {
    if items != [] {
      SameIds(items[1..], reply);
      assert Same(items, reply)[1..] == Same(items[1..], reply);
    }
  }

  lemma {:induction false} SlicesIds<V>(batch: seq<Item>, vectors: seq<V>)
    requires |vectors| == Texts(batch)
    ensures SentIds(Slices(batch, vectors)) == Ids(batch)
  {
    if batch != [] {
      var n := |batch[0].rows|;
      SlicesIds(batch[1..], vectors[n..]);
      assert Slices(batch, vectors)[1..] == Slices(batch[1..], vectors[n..]);
    }
  }

  lemma RepliesIds<V>(batch: seq<Item>, o: Outcome<V>)
    ensures SentIds(Replies(batch, o)) == Ids(batch)
    ensures Ascending(batch) ==> OncePerId(Replies(batch, o))
  {
    match o
    case Vectors(vs) =>
      if |vs| == Texts(batch) {
        SlicesIds(batch, vs);
        SlicesShape(batch, vs);
      } else {
        SameIds<V>(batch, Failure(COUNT_MISMATCH));
      }
    case InferenceError(m) => SameIds<V>(batch, Failure(m));
    case TaskPanicked(m) => SameIds<V>(batch, Failure("embed task panicked: " + m));
  }

  lemma AscendingParts(xs: seq<Item>, ys: seq<Item>)
    requires Ascending(xs + ys)
    ensures Ascending(xs) && Ascending(ys) && Ids(xs) !! Ids(ys)
    ensures forall x, y :: x in xs && y in ys ==> x.id < y.id
  {
    var zs := xs + ys;
    assert forall i :: 0 <= i < |xs| ==> zs[i] == xs[i];
    assert forall i :: 0 <= i < |ys| ==> zs[|xs| + i] == ys[i];
    forall x, y | x in xs && y in ys
      ensures x.id < y.id
    {
      var i :| 0 <= i < |xs| && xs[i] == x;
      var j :| 0 <= j < |ys| && ys[j] == y;
      assert zs[i].id < zs[|xs| + j].id;
    }
    IdsMembers(xs);
    IdsMembers(ys);
  }

  // ---- Preservation, conjunct by conjunct ----

  /** The conjuncts that only see the history and the two lines of requests. */
  ghost predicate Accounted<V>(s: State<V>) {
    Identified(s) && InOrder(s) && Resolved(s)
  }

  /** An event that only moves requests between queue, batch and carry. */
  lemma Regroup<V>(s: State<V>, s': State<V>)
    requires Accounted(s)
    requires s'.arrived == s.arrived && s'.cancelled == s.cancelled
    requires s.closed <= s'.closed <= UpTo(|s.arrived|)
    requires s'.dispatched == s.dispatched && s'.sent == s.sent
    requires Undispatched(s') == Undispatched(s) && InFlight(s') == InFlight(s)
    ensures Accounted(s')
  {
  }

  lemma CarryUntouched<V>(s: State<V>, s': State<V>)
    requires CarriedOnce(s)
    requires s'.carryLog == s.carryLog && |s.arrived| <= |s'.arrived| && s'.carry == s.carry
    requires forall q :: q in s'.queue ==> q in s.queue || q.id >= |s.arrived|
    requires forall c :: c in s.openers ==> c in s'.openers
    requires s.phase.Aborted? ==> s'.phase.Aborted?
    ensures CarriedOnce(s')
  {
  }

  lemma SendIdentifies<V>(s: State<V>, s': State<V>, item: Item)
    requires Identified(s) && item.id == |s.arrived| && item.rows != []
    requires s'.arrived == s.arrived + [item] && s'.closed == s.closed && s'.cancelled == s.cancelled
    ensures Identified(s')
  {
    assert UpTo(|s.arrived| + 1) == UpTo(|s.arrived|) + {|s.arrived|};
  }

  lemma SendAccounts<V>(s: State<V>, s': State<V>, item: Item)
    requires Accounted(s) && s.lost == []
    requires item.id == |s.arrived| && item.rows != []
    requires s' == s.(arrived := s.arrived + [item], queue := s.queue + [item])
    ensures Accounted(s')
  {
    SendIdentifies(s, s', item);
    assert item.id !in s.cancelled;
    SendLine(s, s', item);
    assert InFlight(s') == InFlight(s) + [item];
    LedgerGrows(|s.arrived|, s.sent, InFlight(s), item);
  }

  lemma LedgerGrows<V>(n: nat, sent: seq<Sent<V>>, inFlight: seq<Item>, item: Item)
    requires Ledger(n, sent, inFlight) && item.id == n
    ensures Ledger(n + 1, sent, inFlight + [item])
  {
    IdsConcat(inFlight, [item]);
    assert [item][1..] == [];
    assert Ids([item]) == {n};
    assert n !in SentIds(sent) + Ids(inFlight);
  }

  lemma SendLine<V>(s: State<V>, s': State<V>, item: Item)
    requires InOrder(s) && s.lost == [] && item.id !in s.cancelled
    requires s' == s.(arrived := s.arrived + [item], queue := s.queue + [item])
    ensures InOrder(s')
  {
    RetainConcat(s.arrived, [item], s.cancelled);
    assert [item][1..] == [];
    assert Retain([item], s.cancelled) == [item];
    assert Line(s') == Line(s) + [item];
  }

  /** Deleting one request from the middle of the line. */
  lemma DeleteOne(pre: seq<Item>, item: Item, post: seq<Item>)
    requires Ascending(pre + ([item] + post))
    ensures Retain(pre + ([item] + post), {item.id}) == pre + post
  {
    AscendingParts(pre, [item] + post);
    AscendingParts([item], post);
    assert item in [item] + post && item in [item];
    RetainConcat(pre, [item] + post, {item.id});
    assert ([item] + post)[1..] == post;
    RetainNone(pre, {item.id});
    RetainNone(post, {item.id});
  }

  lemma SkipLine<V>(cfg: Config, s: State<V>)
    requires Identified(s) && InOrder(s) && Control(s)
    requires s.phase.Coalescing? && s.queue != [] && s.queue[0].id in s.closed
    ensures InOrder(AfterReceive(cfg, s))
  {
    var s' := AfterReceive(cfg, s);
    var item, rest, b := s.queue[0], s.queue[1..], s.phase.batch;
    LineAscends(s);
    var pre := Flatten(s.dispatched) + b;
    SkipMoves(cfg, s);
    DeleteOne(pre, item, rest);
    RetainTwice(s.arrived, s.cancelled, {item.id});
  }

  lemma SkipMoves<V>(cfg: Config, s: State<V>)
    requires s.phase.Coalescing? && s.carry.None? && s.lost == [] && s.queue != [] && s.queue[0].id in s.closed
    ensures var pre, item, rest := Flatten(s.dispatched) + s.phase.batch, s.queue[0], s.queue[1..];
            Line(s) == pre + ([item] + rest) && Line(AfterReceive(cfg, s)) == pre + rest
  {
    assert s.queue == [s.queue[0]] + s.queue[1..];
  }

  lemma SkipShape<V>(cfg: Config, s: State<V>)
    requires Control(s) && s.phase.Coalescing? && s.queue != [] && s.queue[0].id in s.closed
    ensures InFlight(s) == s.phase.batch + ([s.queue[0]] + s.queue[1..])
    ensures InFlight(AfterReceive(cfg, s)) == s.phase.batch + s.queue[1..]
  {
    assert s.queue == [s.queue[0]] + s.queue[1..];
  }

  lemma SkipResolves<V>(cfg: Config, s: State<V>)
    requires Identified(s) && InOrder(s) && Control(s) && Resolved(s)
    requires s.phase.Coalescing? && s.queue != [] && s.queue[0].id in s.closed
    ensures Resolved(AfterReceive(cfg, s))
  {
    var s' := AfterReceive(cfg, s);
    var item, rest, b := s.queue[0], s.queue[1..], s.phase.batch;
    InFlightAscends(s);
    SkipShape(cfg, s);
    ResolveMiddle<V>(|s.arrived|, s.sent, b, [item], rest, Same([item], Dropped)) by {
      AscendingParts(b, [item] + rest);
      AscendingParts([item], rest);
      SameIds<V>([item], Dropped);
    }
  }

  lemma IdsSplit(pre: seq<Item>, mid: seq<Item>, post: seq<Item>)
    requires Ascending(pre + (mid + post))
    ensures Ids(mid) !! Ids(pre + post) && Ids(mid) + Ids(pre + post) == Ids(pre + (mid + post))
  {
    AscendingParts(pre, mid + post);
    AscendingParts(mid, post);
    IdsConcat(pre, mid + post);
    IdsConcat(mid, post);
    IdsConcat(pre, post);
  }

  /** Resolving a stretch of the line of requests in flight. */
  lemma ResolveMiddle<V>(n: nat, sent: seq<Sent<V>>, pre: seq<Item>, mid: seq<Item>, post: seq<Item>,
                         more: seq<Sent<V>>)
    requires Ledger(n, sent, pre + (mid + post)) && Ascending(pre + (mid + post))
    requires OncePerId(more) && SentIds(more) == Ids(mid)
    ensures Ledger(n, sent + more, pre + post)
  {
    IdsSplit(pre, mid, post);
    LedgerResolve(n, sent, pre + (mid + post), more, pre + post);
  }

  lemma SkipKeeps<V>(cfg: Config, s: State<V>)
    requires Inv(cfg, s) && s.phase.Coalescing? && s.queue != [] && s.queue[0].id in s.closed
    ensures Inv(cfg, AfterReceive(cfg, s))
  {
    SkipLine(cfg, s);
    SkipResolves(cfg, s);
    CarryUntouched(s, AfterReceive(cfg, s));
  }

  /** The queue is in order behind its head. */
  lemma QueueAscends<V>(s: State<V>)
    requires Identified(s) && InOrder(s) && Control(s) && s.queue != []
    ensures s.queue[0].id < |s.arrived|
    ensures forall q :: q in s.queue[1..] ==> s.queue[0].id < q.id
  {
    InFlightAscends(s);
    var held, item, rest := HeldBatch(s.phase) + CarrySeq(s.carry), s.queue[0], s.queue[1..];
    assert InFlight(s) == held + ([item] + rest);
    AscendingParts(held, [item] + rest);
    AscendingParts([item], rest);
    assert item in [item];
    assert InFlight(s)[|held|] == item;
  }

  lemma DeferCarries<V>(s: State<V>, s': State<V>)
    requires CarriedOnce(s) && s.carry.None? && s.queue != [] && !s.phase.Aborted?
    requires s.queue[0].id < |s.arrived| && forall q :: q in s.queue[1..] ==> s.queue[0].id < q.id
    requires s'.queue == s.queue[1..] && s'.carry == Some(s.queue[0]) && s'.carryLog == s.carryLog + [s.queue[0].id]
    requires s'.arrived == s.arrived && s'.openers == s.openers
    ensures CarriedOnce(s')
  {
    var item := s.queue[0];
    assert item in s.queue;
    assert forall i :: 0 <= i < |s.carryLog| ==> s.carryLog[i] in s.carryLog;
    assert forall c :: c in s'.carryLog ==> c in s.carryLog || c == item.id;
    assert forall q :: q in s'.queue ==> q in s.queue;
  }

  lemma DeferKeeps<V>(cfg: Config, s: State<V>)
    requires Inv(cfg, s) && s.phase.Coalescing? && s.queue != [] && s.queue[0].id !in s.closed
    requires s.phase.accum.Defers(s.queue[0], cfg)
    ensures Inv(cfg, AfterReceive(cfg, s))
  {
    QueueAscends(s);
    DeferCarries(s, AfterReceive(cfg, s));
    ReceiveRegroups(cfg, s);
  }

  lemma ReceiveRegroups<V>(cfg: Config, s: State<V>)
    requires Accounted(s) && Control(s) && s.phase.Coalescing? && s.queue != [] && s.queue[0].id !in s.closed
    ensures Accounted(AfterReceive(cfg, s))
  {
    ReceiveMoves(cfg, s);
    Regroup(s, AfterReceive(cfg, s));
  }

  lemma ReceiveMoves<V>(cfg: Config, s: State<V>)
    requires s.phase.Coalescing? && s.carry.None? && s.lost == [] && s.queue != [] && s.queue[0].id !in s.closed
    ensures Undispatched(AfterReceive(cfg, s)) == Undispatched(s)
    ensures InFlight(AfterReceive(cfg, s)) == InFlight(s)
  {
    var b, item, rest := s.phase.batch, s.queue[0], s.queue[1..];
    assert s.queue == [item] + rest;
    assert b + ([] + s.queue) == b + ([item] + rest) == (b + [item]) + ([] + rest);
  }

  lemma AdmitGates<V>(cfg: Config, s: State<V>)
    requires ValidConfig(cfg) && Identified(s) && InOrder(s) && Control(s) && Gated(cfg, s)
    requires s.phase.Coalescing? && s.queue != [] && s.queue[0].id !in s.closed
    requires !s.phase.accum.Defers(s.queue[0], cfg)
    ensures Gated(cfg, AfterReceive(cfg, s)) && Control(AfterReceive(cfg, s))
  {
    var item, b := s.queue[0], s.phase.batch;
    InFlightAscends(s);
    forall x | x in b
      ensures x.rows != []
    {
      assert x in InFlight(s);
    }
    AdmissionKeepsGates(b, item, cfg);
    PushMeasures(b, item);
  }

  lemma AdmitKeeps<V>(cfg: Config, s: State<V>)
    requires ValidConfig(cfg) && Inv(cfg, s) && s.phase.Coalescing? && s.queue != [] && s.queue[0].id !in s.closed
    requires !s.phase.accum.Defers(s.queue[0], cfg)
    ensures Inv(cfg, AfterReceive(cfg, s))
  {
    AdmitGates(cfg, s);
    ReceiveRegroups(cfg, s);
    CarryUntouched(s, AfterReceive(cfg, s));
  }

  /** The members of a batch split into the live and the departed. */
  lemma CutSplits(batch: seq<Item>, closed: set<nat>)
    requires Ascending(batch)
    ensures var live, gone := Retain(batch, closed), Retain(batch, Ids(batch) - closed);
            Ascending(live) && Ascending(gone) && Ids(live) !! Ids(gone) &&
            Ids(live) + Ids(gone) == Ids(batch) && Ids(gone) == Ids(batch) * closed
  {
    RetainAscending(batch, closed);
    RetainAscending(batch, Ids(batch) - closed);
    RetainIds(batch, closed);
    RetainIds(batch, Ids(batch) - closed);
  }

  /** Retaining keeps exactly the ids that are not gone. */
  lemma RetainIds(batch: seq<Item>, gone: set<nat>)
    ensures Ids(Retain(batch, gone)) == Ids(batch) - gone
  {
    RetainMembers(batch, gone);
    IdsMembers(batch);
    IdsMembers(Retain(batch, gone));
  }

  lemma RetainNoneOf(items: seq<Item>, gone: set<nat>)
    requires Ids(items) !! gone
    ensures Retain(items, gone) == items
  {
    IdsMembers(items);
    RetainNone(items, gone);
  }

  /** Deleting the departed members of a stretch of the line. */
  lemma DeleteMiddle(pre: seq<Item>, b: seq<Item>, post: seq<Item>, closed: set<nat>)
    requires Ascending(pre + (b + post))
    ensures Retain(pre + (b + post), Ids(b) * closed) == pre + (Retain(b, closed) + post)
  {
    var gone := Ids(b) * closed;
    AscendingParts(pre, b + post);
    AscendingParts(b, post);
    IdsConcat(b, post);
    RetainConcat(pre, b + post, gone);
    RetainConcat(b, post, gone);
    RetainNoneOf(pre, gone);
    RetainNoneOf(post, gone);
    IdsMembers(b);
    RetainRelevant(b, gone, closed);
  }

  lemma CutLine<V>(s: State<V>)
    requires Identified(s) && InOrder(s) && Control(s) && s.phase.Cutting?
    ensures InOrder(AfterCut(s)) && Identified(AfterCut(s))
  {
    var s' := AfterCut(s);
    var b, tail := s.phase.batch, CarrySeq(s.carry) + s.queue;
    var live, gone := Retain(b, s.closed), Retain(b, Ids(b) - s.closed);
    var done := Flatten(s.dispatched);
    LineAscends(s);
    CutMoves(s);
    DeleteMiddle(done, b, tail, s.closed);
    CutSplits(b, s.closed) by {
      AscendingParts(done, b + tail);
      AscendingParts(b, tail);
    }
    RetainTwice(s.arrived, s.cancelled, Ids(gone));
  }

  lemma CutMoves<V>(s: State<V>)
    requires s.phase.Cutting? && s.lost == []
    ensures var done, b, tail := Flatten(s.dispatched), s.phase.batch, CarrySeq(s.carry) + s.queue;
            Line(s) == done + (b + tail) && Line(AfterCut(s)) == done + (Retain(b, s.closed) + tail)
  {
    var b := s.phase.batch;
    var done, live, tail := Flatten(s.dispatched), Retain(b, s.closed), CarrySeq(s.carry) + s.queue;
    FlattenSnoc(s.dispatched, live);
    LineParts(done, b, tail);
    LineParts(done, live, tail);
  }

  lemma LineParts(done: seq<Item>, b: seq<Item>, tail: seq<Item>)
    ensures done + (b + tail + []) == done + (b + tail)
    ensures (done + b) + ([] + tail + []) == done + (b + tail)
    ensures b == [] ==> done + ([] + tail + []) == done + (b + tail)
  {
  }

  lemma CutIds(b: seq<Item>, tail: seq<Item>, closed: set<nat>)
    requires Ascending(b + tail)
    ensures var live, gone := Retain(b, closed), Retain(b, Ids(b) - closed);
            Ascending(gone) && Ids(gone) !! Ids(live + tail) && Ids(gone) + Ids(live + tail) == Ids(b + tail)
  {
    AscendingParts(b, tail);
    CutSplits(b, closed);
    IdsConcat(b, tail);
    IdsConcat(Retain(b, closed), tail);
  }

  lemma CutResolves<V>(s: State<V>)
    requires Identified(s) && InOrder(s) && Control(s) && Resolved(s) && s.phase.Cutting?
    ensures Resolved(AfterCut(s))
  {
    var b, tail := s.phase.batch, CarrySeq(s.carry) + s.queue;
    InFlightAscends(s);
    CutLedger(|s.arrived|, s.sent, b, tail, s.closed);
  }

  lemma CutLedger<V>(n: nat, sent: seq<Sent<V>>, b: seq<Item>, tail: seq<Item>, closed: set<nat>)
    requires Ledger(n, sent, b + tail) && Ascending(b + tail)
    ensures Ledger(n, sent + Same(Retain(b, Ids(b) - closed), Dropped), Retain(b, closed) + tail)
  {
    var gone := Retain(b, Ids(b) - closed);
    CutIds(b, tail, closed);
    SameIds<V>(gone, Dropped);
    LedgerResolve(n, sent, b + tail, Same(gone, Dropped), Retain(b, closed) + tail);
  }

  lemma CutGates<V>(cfg: Config, s: State<V>)
    requires Gated(cfg, s) && Control(s) && s.phase.Cutting?
    ensures Gated(cfg, AfterCut(s)) && Control(AfterCut(s))
  {
    var b := s.phase.batch;
    RetainShrinks(b, s.closed);
    if |Retain(b, s.closed)| >= 2 {
      CancellationKeepsCaps(b, s.closed, cfg);
    }
  }

  lemma CutKeeps<V>(cfg: Config, s: State<V>)
    requires Inv(cfg, s) && s.phase.Cutting?
    ensures Inv(cfg, AfterCut(s))
  {
    CutLine(s);
    CutResolves(s);
    CutGates(cfg, s);
    CarryUntouched(s, AfterCut(s));
  }

  lemma FinishResolves<V>(cfg: Config, s: State<V>, o: Outcome<V>)
    requires Identified(s) && InOrder(s) && Control(s) && Resolved(s) && s.phase.Dispatching?
    ensures Accounted(Next(cfg, s, Finish(o)))
  {
    var s' := Next(cfg, s, Finish(o));
    var b, tail := s.phase.batch, CarrySeq(s.carry) + s.queue;
    assert Undispatched(s') == Undispatched(s);
    InFlightAscends(s);
    assert InFlight(s) == [] + (b + tail) && InFlight(s') == [] + tail;
    AscendingParts(b, tail);
    RepliesIds(b, o);
    ResolveMiddle(|s.arrived|, s.sent, [], b, tail, Replies(b, o));
  }

  lemma FinishKeeps<V>(cfg: Config, s: State<V>, o: Outcome<V>)
    requires Inv(cfg, s) && s.phase.Dispatching?
    ensures Inv(cfg, Next(cfg, s, Finish(o)))
  {
    FinishResolves(cfg, s, o);
    CarryUntouched(s, Next(cfg, s, Finish(o)));
  }

  lemma AbortResolves<V>(cfg: Config, s: State<V>)
    requires Accounted(s) && Control(s) && Enabled(cfg, s, Abort)
    ensures Accounted(Next(cfg, s, Abort))
  {
    var s' := Next(cfg, s, Abort);
    assert Undispatched(s') == [] + ([] + []) + Undispatched(s) == Undispatched(s);
    assert InFlight(s') == [];
    AbortLedger(s);
  }

  lemma AbortLedger<V>(s: State<V>)
    requires Accounted(s) && Control(s)
    ensures Ledger(|s.arrived|, s.sent + Same(InFlight(s), Dropped), [])
  {
    InFlightAscends(s);
    SameIds<V>(InFlight(s), Dropped);
    LedgerResolve(|s.arrived|, s.sent, InFlight(s), Same(InFlight(s), Dropped), []);
  }

  lemma AbortKeeps<V>(cfg: Config, s: State<V>)
    requires Inv(cfg, s) && Enabled(cfg, s, Abort)
    ensures Inv(cfg, Next(cfg, s, Abort))
  {
    AbortResolves(cfg, s);
    var s' := Next(cfg, s, Abort);
    assert CarriedOnce(s');
  }

  lemma StartRegroups<V>(cfg: Config, s: State<V>, e: Event<V>)
    requires Accounted(s) && Control(s) && Enabled(cfg, s, e) && (e.TakeCarry? || e.ReceiveFirst?)
    ensures Accounted(Next(cfg, s, e))
  {
    var s' := Next(cfg, s, e);
    if e.ReceiveFirst? {
      assert s.queue == [s.queue[0]] + s.queue[1..];
    }
    assert Undispatched(s') == Undispatched(s);
    assert InFlight(s') == InFlight(s);
    Regroup(s, s');
  }

  lemma LoneCoalesced(first: Item, cfg: Config)
    ensures Coalesced([first], cfg)
  {
    assert [first][1..] == [];
  }

  lemma StartKeeps<V>(cfg: Config, s: State<V>, e: Event<V>)
    requires Inv(cfg, s) && Enabled(cfg, s, e) && (e.TakeCarry? || e.ReceiveFirst?)
    ensures Inv(cfg, Next(cfg, s, e))
  {
    StartRegroups(cfg, s, e);
    var first := if e.TakeCarry? then s.carry.value else s.queue[0];
    SingleMeasures(first);
    LoneCoalesced(first, cfg);
    StartCarries(cfg, s, e);
  }

  lemma StartCarries<V>(cfg: Config, s: State<V>, e: Event<V>)
    requires CarriedOnce(s) && Enabled(cfg, s, e) && (e.TakeCarry? || e.ReceiveFirst?)
    ensures CarriedOnce(Next(cfg, s, e))
  {
    var s' := Next(cfg, s, e);
    assert forall q :: q in s'.queue ==> q in s.queue;
  }

  /** An event that touches only the sender and the count of lost carries. */
  ghost predicate SameWork<V>(s: State<V>, s': State<V>) {
    s' == s.(senderOpen := s'.senderOpen, carryLost := s'.carryLost) && (s'.senderOpen ==> s.senderOpen)
  }

  lemma SameWorkAccounts<V>(s: State<V>, s': State<V>)
    requires SameWork(s, s') && Accounted(s)
    ensures Accounted(s')
  {
  }

  lemma SameWorkKeeps<V>(cfg: Config, s: State<V>, s': State<V>)
    requires SameWork(s, s') && Control(s) && Gated(cfg, s) && CarriedOnce(s)
    ensures Control(s') && Gated(cfg, s') && CarriedOnce(s')
  {
  }

  lemma ShutdownKeeps<V>(cfg: Config, s: State<V>, e: Event<V>)
    requires Inv(cfg, s) && Enabled(cfg, s, e) && (e.DropSender? || e.ShutdownTimeout?)
    ensures Inv(cfg, Next(cfg, s, e))
  {
    SameWorkAccounts(s, Next(cfg, s, e));
    SameWorkKeeps(cfg, s, Next(cfg, s, e));
  }

  lemma ExitKeeps<V>(cfg: Config, s: State<V>)
    requires Inv(cfg, s) && Enabled(cfg, s, Exit)
    ensures Inv(cfg, Next(cfg, s, Exit))
  {
    var s' := Next(cfg, s, Exit);
    Regroup(s, s');
    CarryUntouched(s, s');
  }

  lemma StopWaitingKeeps<V>(cfg: Config, s: State<V>)
    requires Inv(cfg, s) && Enabled(cfg, s, StopWaiting)
    ensures Inv(cfg, Next(cfg, s, StopWaiting))
  {
    var s' := Next(cfg, s, StopWaiting);
    Regroup(s, s');
    CarryUntouched(s, s');
  }

  lemma DisconnectKeeps<V>(cfg: Config, s: State<V>, id: nat)
    requires Inv(cfg, s) && id < |s.arrived|
    ensures Inv(cfg, Next(cfg, s, Disconnect(id)))
  {
    var s' := Next(cfg, s, Disconnect(id));
    Regroup(s, s');
    CarryUntouched(s, s');
  }

  lemma SendKeeps<V>(cfg: Config, s: State<V>, rows: seq<Row>)
    requires Inv(cfg, s) && s.senderOpen && rows != []
    ensures Inv(cfg, Next(cfg, s, Send(rows)))
  {
    var s' := Next(cfg, s, Send(rows));
    SendAccounts(s, s', Item(|s.arrived|, rows));
    CarryUntouched(s, s');
  }

  lemma {:induction false} StepKeepsInv<V>(cfg: Config, s: State<V>, e: Event<V>)
    requires ValidConfig(cfg) && Inv(cfg, s)
    ensures Inv(cfg, Step(cfg, s, e))
  {
    if Enabled(cfg, s, e) {
      match e
      case Send(rows) => SendKeeps(cfg, s, rows);
      case Receive =>
        if s.queue[0].id in s.closed {
          SkipKeeps(cfg, s);
        } else if s.phase.accum.Defers(s.queue[0], cfg) {
          DeferKeeps(cfg, s);
        } else {
          AdmitKeeps(cfg, s);
        }
      case Cut => CutKeeps(cfg, s);
      case Finish(o) => FinishKeeps(cfg, s, o);
      case Abort => AbortKeeps(cfg, s);
      case TakeCarry => StartKeeps(cfg, s, e);
      case ReceiveFirst => StartKeeps(cfg, s, e);
      case Disconnect(id) => DisconnectKeeps(cfg, s, id);
      case DropSender => ShutdownKeeps(cfg, s, e);
      case ShutdownTimeout => ShutdownKeeps(cfg, s, e);
      case Exit => ExitKeeps(cfg, s);
      case StopWaiting => StopWaitingKeeps(cfg, s);
    }
  }

  lemma InitInv<V>(cfg: Config)
    ensures Inv(cfg, Init<V>())
  {
    var s := Init<V>();
    assert Flatten(s.dispatched) + Undispatched(s) == [];
    assert InFlight(s) == [];
  }

  /** Every state of every run satisfies the invariant. */
  lemma {:induction false} RunsKeepInv<V>(cfg: Config, es: seq<Event<V>>)
    requires ValidConfig(cfg)
    ensures Inv(cfg, Exec(cfg, Init<V>(), es))
  {
    if es == [] {
      InitInv<V>(cfg);
    } else {
      RunsKeepInv(cfg, es[..|es| - 1]);
      StepKeepsInv(cfg, Exec(cfg, Init<V>(), es[..|es| - 1]), es[|es| - 1]);
    }
  }
}
