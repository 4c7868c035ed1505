/** Runs of the worker that show where a promise stops. */
module BatchExamples {
  import opened Common
  import opened BatchGates
  import opened BatchReplies
  import opened BatchMachine

  lemma ExecSnoc<V>(cfg: Config, es: seq<Event<V>>, e: Event<V>)
    ensures Exec(cfg, Init<V>(), es + [e]) == Step(cfg, Exec(cfg, Init<V>(), es), e)
  {
    assert (es + [e])[..|es|] == es;
  }

  /** One more event of a run, from a state that is known. */
  lemma Then<V>(cfg: Config, es: seq<Event<V>>, e: Event<V>, s: State<V>) returns (es': seq<Event<V>>)
    requires Exec(cfg, Init<V>(), es) == s
    ensures es' == es + [e] && Exec(cfg, Init<V>(), es') == Step(cfg, s, e)
  {
    ExecSnoc(cfg, es, e);
    es' := es + [e];
  }

  /** Requests of these rows arrive and nothing else happens. */
  ghost predicate Arrived<V>(s: State<V>, items: seq<Item>) {
    s == Init<V>().(arrived := items, queue := items)
  }

  lemma {:induction false} Arrivals<V>(cfg: Config, items: seq<Item>) returns (es: seq<Event<V>>)
    requires forall i :: 0 <= i < |items| ==> items[i].id == i && items[i].rows != []
    ensures Arrived(Exec(cfg, Init<V>(), es), items)
  {
    if items == [] {
      es := [];
    } else {
      var front, last := items[..|items| - 1], items[|items| - 1];
      es := Arrivals<V>(cfg, front);
      es := Then(cfg, es, Send(last.rows), Exec(cfg, Init<V>(), es));
      assert items == front + [last];
    }
  }

  // ---- The ratio, lost by a cancellation ----

  const RATIO_CONFIG := Config(100, 10, 100, true, 2.0, 512)
  const ONE := Item(0, [[7]])
  const TWO := Item(1, [[7, 7]])
  const FOUR := Item(2, [[7, 7, 7, 7]])

  lemma Sizes()
    ensures LongestRow(ONE.rows) == 1 && SumRows(ONE.rows) == 1
    ensures LongestRow(TWO.rows) == 2 && SumRows(TWO.rows) == 2
    ensures LongestRow(FOUR.rows) == 4 && SumRows(FOUR.rows) == 4
  {
    SingleRow([7]);
    SingleRow([7, 7]);
    SingleRow([7, 7, 7, 7]);
  }

  /** Each of the three passes the gates when it comes. */
  lemma AllAdmitted()
    ensures EMPTY.Push(ONE) == Accum(1, 1, 1)
    ensures !Accum(1, 1, 1).Saturated(RATIO_CONFIG) && !Accum(1, 1, 1).Defers(TWO, RATIO_CONFIG)
    ensures Accum(1, 1, 1).Push(TWO) == Accum(2, 2, 3)
    ensures !Accum(2, 2, 3).Saturated(RATIO_CONFIG) && !Accum(2, 2, 3).Defers(FOUR, RATIO_CONFIG)
  {
    Sizes();
  }

  /** Cancelling the middle one leaves a sequence of 4 beside one of 1. */
  lemma RatioBroken()
    ensures Retain([ONE, TWO, FOUR], {1}) == [ONE, FOUR] && !RatioRespected([ONE, FOUR], RATIO_CONFIG)
  {
    Sizes();
    assert [ONE, TWO, FOUR][1..] == [TWO, FOUR] && [TWO, FOUR][1..] == [FOUR] && [FOUR][1..] == [];
    assert Retain([FOUR], {1}) == [FOUR];
    assert Retain([TWO, FOUR], {1}) == [FOUR];
    assert [ONE, FOUR][1..] == [FOUR];
    assert !RatioFrom(1, [FOUR], RATIO_CONFIG);
  }

  lemma FormBatch<V>() returns (es: seq<Event<V>>)
    ensures var s := Exec(RATIO_CONFIG, Init<V>(), es);
            s.phase.Coalescing? && s.phase.batch == [ONE, TWO, FOUR] && s.closed == {} && |s.arrived| == 3
  {
    AllAdmitted();
    var items := [ONE, TWO, FOUR];
    es := Arrivals<V>(RATIO_CONFIG, items);
    var s := Exec(RATIO_CONFIG, Init<V>(), es);
    es := Then(RATIO_CONFIG, es, ReceiveFirst, s);
    s := Step(RATIO_CONFIG, s, ReceiveFirst);
    assert s.phase == Coalescing([ONE], Accum(1, 1, 1)) && s.queue == [TWO, FOUR];
    es := Then(RATIO_CONFIG, es, Receive, s);
    s := Step(RATIO_CONFIG, s, Receive);
    assert s.phase == Coalescing([ONE] + [TWO], Accum(2, 2, 3)) && s.queue == [FOUR];
    es := Then(RATIO_CONFIG, es, Receive, s);
    assert [ONE] + [TWO] + [FOUR] == items;
  }

  lemma CancelMiddle<V>(es: seq<Event<V>>) returns (es': seq<Event<V>>)
    requires var s := Exec(RATIO_CONFIG, Init<V>(), es);
             s.phase.Coalescing? && s.phase.batch == [ONE, TWO, FOUR] && s.closed == {} && |s.arrived| == 3
    ensures Exec(RATIO_CONFIG, Init<V>(), es').phase == Dispatching([ONE, FOUR])
  {
    RatioBroken();
    var s := Exec(RATIO_CONFIG, Init<V>(), es);
    es' := Then(RATIO_CONFIG, es, Disconnect(1), s);
    s := Step(RATIO_CONFIG, s, Disconnect(1));
    assert s.closed == {1};
    es' := Then(RATIO_CONFIG, es', StopWaiting, s);
    s := Step(RATIO_CONFIG, s, StopWaiting);
    es' := Then(RATIO_CONFIG, es', Cut, s);
  }

  /** A run in which the worker dispatches a batch that breaks the ratio: lengths
      1, 2 and 4 join at ratio 2, and the middle client disconnects. */
  lemma RatioLostByCancellation<V>() returns (es: seq<Event<V>>)
    ensures Exec(RATIO_CONFIG, Init<V>(), es).phase == Dispatching([ONE, FOUR])
    ensures !RatioRespected([ONE, FOUR], RATIO_CONFIG)
  {
    es := FormBatch<V>();
    es := CancelMiddle(es);
    RatioBroken();
  }

  // ---- The carry, counted and not lost, lost and not counted ----

  const CARRY_CONFIG := Config(100, 2, 100, true, 0.0, 512)
  const SINGLE := Item(0, [[7]])
  const PAIR := Item(1, [[7], [7]])

  /** The pair exceeds the item cap beside the single one and is deferred. */
  lemma PairIsDeferred()
    ensures EMPTY.Push(SINGLE) == Accum(1, 1, 1)
    ensures !Accum(1, 1, 1).Saturated(CARRY_CONFIG) && Accum(1, 1, 1).Defers(PAIR, CARRY_CONFIG)
    ensures Retain([SINGLE], {}) == [SINGLE] && Retain([PAIR], {}) == [PAIR]
  {
    SingleRow([7]);
    assert [SINGLE][1..] == [] && [PAIR][1..] == [];
  }

  /** The worker waits to fill up a batch and the pair is queued. */
  ghost predicate AboutToDefer<V>(s: State<V>) {
    && s.phase == Coalescing([SINGLE], Accum(1, 1, 1)) && s.queue == [PAIR] && s.carry.None? && !s.carryPending
    && s.closed == {} && s.carryLost == 0 && s.sent == []
  }

  /** The pair is carried while the model runs on the single request. */
  ghost predicate Carrying<V>(s: State<V>, counted: nat) {
    && s.phase == Dispatching([SINGLE]) && s.queue == [] && s.carry == Some(PAIR) && s.carryPending
    && s.closed == {} && s.carryLost == counted && s.sent == []
  }

  lemma Waits<V>() returns (es: seq<Event<V>>)
    ensures var s := Exec(CARRY_CONFIG, Init<V>(), es); AboutToDefer(s) && s.senderOpen
  {
    PairIsDeferred();
    es := Arrivals<V>(CARRY_CONFIG, [SINGLE, PAIR]);
    es := Then(CARRY_CONFIG, es, ReceiveFirst, Exec(CARRY_CONFIG, Init<V>(), es));
  }

  /** The pair is deferred and the single request dispatched. */
  lemma Defer<V>(es: seq<Event<V>>) returns (es': seq<Event<V>>)
    requires AboutToDefer(Exec(CARRY_CONFIG, Init<V>(), es))
    ensures var s, s' := Exec(CARRY_CONFIG, Init<V>(), es), Exec(CARRY_CONFIG, Init<V>(), es');
            Carrying(s', 0) && s'.senderOpen == s.senderOpen
  {
    PairIsDeferred();
    var s := Exec(CARRY_CONFIG, Init<V>(), es);
    es' := Then(CARRY_CONFIG, es, Receive, s);
    s := Step(CARRY_CONFIG, s, Receive);
    assert s.phase == Cutting([SINGLE]) && s.carry == Some(PAIR) && s.queue == [];
    es' := Then(CARRY_CONFIG, es', Cut, s);
    GoneIsEmpty([SINGLE], {});
  }

  /** Nobody disconnected: nothing is dropped by the cut. */
  lemma {:induction false} GoneIsEmpty(batch: seq<Item>, closed: set<nat>)
    requires closed == {}
    ensures Retain(batch, Ids(batch) - closed) == []
  {
    GoneAll(batch, Ids(batch) - closed);
  }

  lemma {:induction false} GoneAll(batch: seq<Item>, gone: set<nat>)
    requires Ids(batch) <= gone
    ensures Retain(batch, gone) == []
  {
    if batch != [] {
      GoneAll(batch[1..], gone);
    }
  }

  lemma TimeOut<V>(es: seq<Event<V>>) returns (es': seq<Event<V>>)
    requires var s := Exec(CARRY_CONFIG, Init<V>(), es); s.senderOpen && !s.phase.Exited? && !s.phase.Aborted?
    ensures var s := Exec(CARRY_CONFIG, Init<V>(), es);
            Exec(CARRY_CONFIG, Init<V>(), es') ==
              s.(senderOpen := false, carryLost := s.carryLost + if s.carryPending then 1 else 0)
  {
    var s := Exec(CARRY_CONFIG, Init<V>(), es);
    es' := Then(CARRY_CONFIG, es, DropSender, s);
    es' := Then(CARRY_CONFIG, es', ShutdownTimeout, Step(CARRY_CONFIG, s, DropSender));
  }

  /** Lost and not counted: the request is deferred after the timeout fired. */
  lemma CarryLostUncounted<V>() returns (es: seq<Event<V>>)
    ensures var s := Exec(CARRY_CONFIG, Init<V>(), es);
            s.carryLost == 0 && s.carry == Some(PAIR) && Enabled(CARRY_CONFIG, s, Abort)
  {
    es := Waits<V>();
    es := TimeOut(es);
    es := Defer(es);
  }

  /** The model answers the single request and the pair opens a batch. */
  lemma OpenCarry<V>(es: seq<Event<V>>, v: V) returns (es': seq<Event<V>>)
    requires Carrying(Exec(CARRY_CONFIG, Init<V>(), es), 1)
    ensures var s, s' := Exec(CARRY_CONFIG, Init<V>(), es), Exec(CARRY_CONFIG, Init<V>(), es');
            && s'.phase.Coalescing? && s'.phase.batch == [PAIR] && s'.closed == {} && s'.carry.None?
            && s'.carryLost == 1 && s'.senderOpen == s.senderOpen
  {
    var s := Exec(CARRY_CONFIG, Init<V>(), es);
    es' := Then(CARRY_CONFIG, es, Finish(Vectors([v])), s);
    es' := Then(CARRY_CONFIG, es', TakeCarry, Step(CARRY_CONFIG, s, Finish(Vectors([v]))));
  }

  /** The pair's batch is dispatched. */
  lemma ServeCarry<V>(es: seq<Event<V>>) returns (es': seq<Event<V>>)
    requires var s := Exec(CARRY_CONFIG, Init<V>(), es);
             s.phase.Coalescing? && s.phase.batch == [PAIR] && s.closed == {}
    ensures var s, s' := Exec(CARRY_CONFIG, Init<V>(), es), Exec(CARRY_CONFIG, Init<V>(), es');
            && s'.phase == Dispatching([PAIR]) && s'.carry == s.carry
            && s'.carryLost == s.carryLost && s'.senderOpen == s.senderOpen
  {
    PairIsDeferred();
    var s := Exec(CARRY_CONFIG, Init<V>(), es);
    es' := Then(CARRY_CONFIG, es, StopWaiting, s);
    es' := Then(CARRY_CONFIG, es', Cut, Step(CARRY_CONFIG, s, StopWaiting));
  }

  /** Counted and not lost: the carried request is served after the timeout fired,
      and the abort finds nothing in flight. */
  lemma CarryCountedNotLost<V>(v: V) returns (es: seq<Event<V>>)
    ensures var s := Exec(CARRY_CONFIG, Init<V>(), es);
            && s.carryLost == 1 && s.carry.None? && Enabled(CARRY_CONFIG, s, Abort)
            && Sent(PAIR.id, Value([v, v])) in s.sent
  {
    es := Waits<V>();
    es := Defer(es);
    es := TimeOut(es);
    es := OpenCarry(es, v);
    es := ServeCarry(es);
    var s := Exec(CARRY_CONFIG, Init<V>(), es);
    es := Then(CARRY_CONFIG, es, Finish(Vectors([v, v])), s);
    PairIsAnswered(s.sent, v);
  }

  lemma PairIsAnswered<V>(sent: seq<Sent<V>>, v: V)
    ensures Sent(PAIR.id, Value([v, v])) in sent + Replies([PAIR], Vectors([v, v]))
  {
    assert [PAIR][1..] == [];
    assert Texts([PAIR]) == 2;
    assert [v, v][..2] == [v, v];
    assert Slices([PAIR], [v, v])[0] == Sent(PAIR.id, Value([v, v]));
  }
}
