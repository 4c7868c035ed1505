/** The worker's two nested loops and the producer's admission gate, in place.
    The environment is a script of arrivals, disconnects and the final drop of
    the sender; at every await point an arbitrary stretch of it takes effect. */
module BatchWorker {
  import opened Common
  import opened BatchGates
  import opened BatchReplies
  import opened BatchMachine
  import opened BatchInvariant
  import opened BatchTheorems

  datatype Admission = EmptyInput | QueueFull | Queued

  /** What a producer does with a request when `depth` requests are queued. */
  function Admit(rows: seq<Row>, maxQueue: nat, depth: nat): Admission {
    if rows == [] then EmptyInput
    else if depth >= SatMul(maxQueue, 8) / 10 then QueueFull
    else if depth >= maxQueue then QueueFull
    else Queued
  }

  /** The gate admits a request into some queue state exactly when the queue
      holds at least two: at capacity one its threshold is zero. */
  lemma GateNeedsTwo(rows: seq<Row>, maxQueue: nat)
    requires rows != []
    ensures (exists depth: nat :: Admit(rows, maxQueue, depth) == Queued) <==> maxQueue >= 2
    ensures maxQueue >= 2 ==> Admit(rows, maxQueue, 0) == Queued
  {
    if maxQueue < 2 {
      assert SatMul(maxQueue, 8) <= 8;
    } else {
      assert SatMul(maxQueue, 8) >= 16;
      assert Admit(rows, maxQueue, 0) == Queued;
    }
  }

  /** An empty request is answered at once; any other is queued exactly while fewer
      than eight tenths of the queue are taken: the saturating product matters only
      for queues no machine can hold. */
  lemma AdmitExactly(rows: seq<Row>, maxQueue: nat, depth: nat)
    ensures Admit(rows, maxQueue, depth) == EmptyInput <==> rows == []
    ensures Admit(rows, maxQueue, depth) == Queued <==>
            && rows != [] && depth < maxQueue
            && 10 * (depth + 1) <= 8 * maxQueue && 10 * (depth + 1) <= 0xFFFF_FFFF_FFFF_FFFF
  {
    var product := SatMul(maxQueue, 8);
    assert depth >= product / 10 <==> 10 * (depth + 1) > product;
  }

  datatype Environment = Arrive(rows: seq<Row>) | HangUp(id: nat) | CloseSender

  /** The model computes `f` row by row whenever it returns one vector per row. */
  ghost predicate ModelRowWise<V(!new)>(f: Row -> V, model: (nat, seq<Row>) -> Outcome<V>) {
    forall k: nat, rows :: model(k, rows).Vectors? && |model(k, rows).vectors| == |rows| ==>
      model(k, rows).vectors == MapSeq(f, rows)
  }

  lemma RowWiseSnoc<V(!new)>(cfg: Config, f: Row -> V, es: seq<Event<V>>, e: Event<V>)
    requires RowWiseRun(cfg, f, es)
    requires var p := Exec(cfg, Init<V>(), es).phase;
             e.Finish? && p.Dispatching? ==> RowWise(f, p.batch, e.outcome)
    ensures RowWiseRun(cfg, f, es + [e])
  {
    var all := es + [e];
    forall k | 0 <= k < |all| && all[k].Finish?
      ensures var s := Exec(cfg, Init<V>(), all[..k]);
              s.phase.Dispatching? ==> RowWise(f, s.phase.batch, all[k].outcome)
    {
      if k < |es| {
        assert all[..k] == es[..k] && all[k] == es[k];
      } else {
        assert all[..k] == es;
      }
    }
  }

  class Worker<V(!new)> {
    const cfg: Config
    const maxQueue: nat
    const model: (nat, seq<Row>) -> Outcome<V>
    ghost const f: Row -> V

    var script: seq<Environment>
    var arrivals: nat
    var queue: seq<Item>
    var senderOpen: bool
    var closed: set<nat>
    var carry: Option<Item>
    var carryPending: bool
    var calls: nat
    var sent: seq<Sent<V>>
    ghost var trace: seq<Event<V>>

    ghost function Machine(): State<V>
      reads this
    {
      Exec(cfg, Init<V>(), trace)
    }

    /** The fields are those of the machine after the run recorded so far, with
        the worker at position `p`. */
    ghost predicate Synced(p: Phase)
      reads this
    {
      var m := Machine();
      && ValidConfig(cfg) && RowWiseRun(cfg, f, trace) && |queue| <= maxQueue
      && m.phase == p && |m.arrived| == arrivals && m.queue == queue && m.senderOpen == senderOpen
      && m.closed == closed && m.carry == carry && m.carryPending == carryPending && m.sent == sent
    }

    /** What bounds the rest of the run. */
    function Budget(): nat
      reads this
    {
      2 * |script| + |queue| + |CarrySeq(carry)|
    }

    constructor (cfg: Config, maxQueue: nat, model: (nat, seq<Row>) -> Outcome<V>, ghost f: Row -> V,
                 script: seq<Environment>)
      requires ValidConfig(cfg)
      ensures this.cfg == cfg && this.maxQueue == maxQueue && this.model == model && this.f == f
      ensures Synced(Idle) && trace == [] && this.script == script
    {
      this.cfg, this.maxQueue, this.model, this.f, this.script := cfg, maxQueue, model, f, script;
      arrivals, queue, senderOpen, closed, carry, carryPending, calls, sent := 0, [], true, {}, None, false, 0, [];
      trace := [];
    }

    /** Record that the machine takes one step. */
    ghost method Log(e: Event<V>)
      requires RowWiseRun(cfg, f, trace)
      requires e.Finish? && Machine().phase.Dispatching? ==> RowWise(f, Machine().phase.batch, e.outcome)
      modifies this`trace
      ensures trace == old(trace) + [e]
      ensures Machine() == Step(cfg, old(Machine()), e) && RowWiseRun(cfg, f, trace)
    {
      RowWiseSnoc(cfg, f, trace, e);
      trace := trace + [e];
      assert trace[..|trace| - 1] == old(trace);
    }

    /** `embed_tokens` up to the point where the producer waits for its reply. */
    method Submit(rows: seq<Row>, ghost p: Phase) returns (admission: Admission)
      requires Synced(p) && senderOpen
      modifies this`queue, this`arrivals, this`trace
      ensures Synced(p) && old(trace) <= trace
      ensures admission == Admit(rows, maxQueue, |old(queue)|)
      ensures if admission == Queued then queue == old(queue) + [Item(old(arrivals), rows)] else queue == old(queue)
    {
      var depth := |queue|;
      admission := Admit(rows, maxQueue, depth);
      if admission == Queued {
        queue := queue + [Item(arrivals, rows)];
        arrivals := arrivals + 1;
        Log(Send(rows));
      }
    }

    /** A client hangs up. */
    method HangUpClient(id: nat, ghost p: Phase)
      requires Synced(p) && id < arrivals
      modifies this`closed, this`trace
      ensures Synced(p) && old(trace) <= trace
      ensures closed == old(closed) + {id}
    {
      closed := closed + {id};
      Log(Disconnect(id));
    }

    /** The last producer goes away. */
    method CloseChannel(ghost p: Phase)
      requires Synced(p) && senderOpen
      modifies this`senderOpen, this`trace
      ensures Synced(p) && old(trace) <= trace && !senderOpen
    {
      senderOpen := false;
      Log(DropSender);
    }

    /** The next scripted event of the environment takes effect. */
    method Observe(ghost p: Phase)
      requires Synced(p) && script != []
      modifies this`script, this`queue, this`arrivals, this`closed, this`senderOpen, this`trace
      ensures Synced(p) && old(trace) <= trace
      ensures Budget() < old(Budget()) && |script| < |old(script)| && old(queue) <= queue
    {
      var e := script[0];
      script := script[1..];
      match e
      case Arrive(rows) =>
        if senderOpen {
          var _ := Submit(rows, p);
        }
      case HangUp(id) =>
        if id < arrivals {
          HangUpClient(id, p);
        }
      case CloseSender =>
        if senderOpen {
          CloseChannel(p);
        }
    }

    /** An arbitrary stretch of the environment's script takes effect. */
    method Await(ghost p: Phase)
      requires Synced(p)
      modifies this`script, this`queue, this`arrivals, this`closed, this`senderOpen, this`trace
      ensures Synced(p) && old(trace) <= trace
      ensures Budget() <= old(Budget()) && old(queue) <= queue
    {
      var n: nat :| n <= |script|;
      while n > 0
        invariant Synced(p) && old(trace) <= trace
        invariant n <= |script| || script == []
        invariant Budget() <= old(Budget()) && old(queue) <= queue
      {
        if script == [] { return; }
        Observe(p);
        n := if n - 1 <= |script| then n - 1 else |script|;
      }
    }

    /** `rx.recv().await`: wait for an item or for the closed channel to drain. */
    method AwaitItem()
      requires Synced(Idle)
      modifies this`script, this`queue, this`arrivals, this`closed, this`senderOpen, this`trace
      ensures Synced(Idle) && old(trace) <= trace
      ensures Budget() <= old(Budget())
      ensures queue == [] ==> !senderOpen
    {
      while queue == [] && senderOpen
        invariant Synced(Idle) && old(trace) <= trace && Budget() <= old(Budget())
        decreases |script|, senderOpen
      {
        if script == [] {
          CloseChannel(Idle);
        } else {
          Observe(Idle);
        }
      }
    }

    /** One received item joins the batch, is skipped or is carried over. */
    method Receive(batch: seq<Item>, accum: Accum) returns (batch': seq<Item>, accum': Accum)
      requires Synced(Coalescing(batch, accum)) && carry.None? && queue != [] && !accum.Saturated(cfg)
      modifies this`queue, this`sent, this`carry, this`carryPending, this`trace
      ensures old(trace) <= trace && queue == old(queue)[1..]
      ensures Synced(if carry.Some? then Cutting(batch') else Coalescing(batch', accum'))
    {
      batch', accum' := batch, accum;
      var item := queue[0];
      queue := queue[1..];
      Log(Event.Receive);
      if item.id in closed {
        sent := sent + Same([item], Dropped);
        return;
      }
      if (accum.items > 0 && accum.SeqCappedBy(item, cfg)) || accum.RatioOverflow(item, cfg) || !accum.Fits(item, cfg) {
        carry := Some(item);
        carryPending := true;
        return;
      }
      accum' := accum.Push(item);
      batch' := batch + [item];
    }

    /** The inner loop: admit items until the batch is saturated, the wait is
        over, or an item has to be carried over. */
    method Coalesce(first: Item) returns (batch: seq<Item>)
      requires Synced(Coalescing([first], EMPTY.Push(first))) && carry.None?
      modifies this
      ensures Synced(Cutting(batch)) && old(trace) <= trace
      ensures Budget() <= old(Budget())
    {
      batch := [first];
      var accum := EMPTY.Push(first);
      while !accum.Saturated(cfg)
        invariant Synced(Coalescing(batch, accum)) && carry.None? && old(trace) <= trace
        invariant Budget() <= old(Budget())
        decreases Budget()
      {
        Await(Coalescing(batch, accum));
        if queue == [] { break; }
        if * { break; }
        batch, accum := Receive(batch, accum);
        if carry.Some? { return; }
      }
      Log(StopWaiting);
    }

    /** Drop the members whose client has gone. */
    method CutBatch(batch: seq<Item>) returns (live: seq<Item>)
      requires Synced(Cutting(batch))
      modifies this`sent, this`trace
      ensures Synced(if live == [] then Idle else Dispatching(live)) && old(trace) <= trace
      ensures live == Retain(batch, closed)
    {
      live := Retain(batch, closed);
      sent := sent + Same(Retain(batch, Ids(batch) - closed), Dropped);
      Log(Cut);
    }

    /** Run the model once on the live items and answer each of them. */
    method Dispatch(live: seq<Item>)
      requires Synced(Dispatching(live)) && ModelRowWise(f, model)
      modifies this`sent, this`calls, this`trace
      ensures Synced(Idle) && old(trace) <= trace
      ensures sent == old(sent) + Replies(live, model(old(calls), FlatRows(live)))
    {
      var k := calls;
      calls := calls + 1;
      var replies := DispatchBatch(live, rows => model(k, rows));
      sent := sent + replies;
      assert RowWise(f, live, model(k, FlatRows(live)));
      Log(Finish(model(k, FlatRows(live))));
    }

    /** The deferred item opens the next batch. */
    method ResumeCarry() returns (first: Item)
      requires Synced(Idle) && carry.Some?
      modifies this`carry, this`carryPending, this`trace
      ensures old(trace) <= trace && carry.None? && Budget() < old(Budget())
      ensures Synced(Coalescing([first], EMPTY.Push(first)))
    {
      first := carry.value;
      carry := None;
      carryPending := false;
      Log(TakeCarry);
    }

    /** The next request received opens a batch. */
    method OpenNext() returns (first: Item)
      requires Synced(Idle) && carry.None? && queue != []
      modifies this`queue, this`trace
      ensures old(trace) <= trace && Budget() < old(Budget())
      ensures Synced(Coalescing([first], EMPTY.Push(first)))
    {
      first := queue[0];
      queue := queue[1..];
      Log(ReceiveFirst);
    }

    /** The head of the outer loop: the carried item, or the next one received. */
    method TakeFirst() returns (first: Option<Item>)
      requires Synced(Idle)
      modifies this
      ensures old(trace) <= trace
      ensures first.Some? ==>
                Synced(Coalescing([first.value], EMPTY.Push(first.value))) && carry.None? && Budget() < old(Budget())
      ensures first.None? ==> Synced(Exited) && queue == [] && carry.None?
    {
      if carry.Some? {
        var item := ResumeCarry();
        return Some(item);
      }
      AwaitItem();
      if queue == [] {
        Log(Exit);
        return None;
      }
      var item := OpenNext();
      return Some(item);
    }

    /** The body of the outer loop: one batch, from its first item to the replies. */
    method Serve(first: Item)
      requires Synced(Coalescing([first], EMPTY.Push(first))) && carry.None? && ModelRowWise(f, model)
      modifies this
      ensures Synced(Idle) && old(trace) <= trace
      ensures Budget() <= old(Budget())
    {
      var batch := Coalesce(first);
      Await(Cutting(batch));
      var live := CutBatch(batch);
      if live == [] { return; }
      Await(Dispatching(live));
      Dispatch(live);
    }

    lemma ExitedResolved()
      requires Synced(Exited)
      ensures OncePerId(sent) && SentIds(sent) == UpTo(arrivals) && queue == [] && carry.None?
      ensures forall k :: 0 <= k < |sent| ==>
                sent[k].id < arrivals &&
                (sent[k].reply.Value? ==> sent[k].reply.vectors == MapSeq(f, Machine().arrived[sent[k].id].rows)) &&
                (sent[k].reply.Dropped? ==> sent[k].id in closed)
    {
      ShutdownResolvesEveryone(cfg, trace);
      BatchingIsInvisible(cfg, f, trace);
    }

    /** The outer loop. Whatever the environment's script, the worker exits with
        nothing queued or carried, every accepted request resolved exactly once,
        each value sent being the model's result on the request's own rows, and
        only disconnected clients left without a reply. */
    method Run()
      requires Synced(Idle) && ModelRowWise(f, model)
      modifies this
      ensures Synced(Exited) && old(trace) <= trace
      ensures queue == [] && carry.None?
      ensures OncePerId(sent) && SentIds(sent) == UpTo(arrivals)
      ensures forall k :: 0 <= k < |sent| ==>
                sent[k].id < arrivals &&
                (sent[k].reply.Value? ==> sent[k].reply.vectors == MapSeq(f, Machine().arrived[sent[k].id].rows)) &&
                (sent[k].reply.Dropped? ==> sent[k].id in closed)
    {
      while true
        invariant Synced(Idle) && old(trace) <= trace
        decreases Budget()
      {
        var first := TakeFirst();
        if first.None? { break; }
        Serve(first.value);
      }
      ExitedResolved();
    }
  }
}
