/** What the batching worker promises over whole runs. */
module BatchTheorems {
  import opened Common
  import opened SeqLen
  import opened BatchGates
  import opened BatchReplies
  import opened BatchMachine
  import opened BatchInvariant

  /** After any run the dispatched batches, the batch being formed, the carry and
      the queue are, in this order, the arrivals with exactly the cancelled
      requests deleted, and only requests whose client had gone are cancelled. */
  lemma {:induction false} NoLossNoOvertaking<V>(cfg: Config, es: seq<Event<V>>)
    requires ValidConfig(cfg)
    ensures var s := Exec(cfg, Init<V>(), es);
            Flatten(s.dispatched) + Undispatched(s) == Retain(s.arrived, s.cancelled) &&
            s.cancelled <= s.closed && forall i :: 0 <= i < |s.arrived| ==> s.arrived[i].id == i
  {
    RunsKeepInv(cfg, es);
  }

  /** Every batch sent to the model is non-empty, and within the item cap, the
      sequence cap and the strict token budget as soon as it holds two requests,
      also after cancellations; its rounded tensor then stays below twice the
      budget. The batch being formed also respects the ratio. */
  lemma {:induction false} BatchesRespectGates<V>(cfg: Config, es: seq<Event<V>>)
    requires ValidConfig(cfg)
    ensures var s := Exec(cfg, Init<V>(), es);
            Coalesced(OpenBatch(s.phase), cfg) &&
            forall b :: b in s.dispatched ==> b != [] && (|b| >= 2 ==> WithinCaps(b, cfg) && TensorBounded(b, cfg))
  {
    RunsKeepInv(cfg, es);
    var s := Exec(cfg, Init<V>(), es);
    forall b | b in s.dispatched && |b| >= 2
      ensures TensorBounded(b, cfg)
    {
      if cfg.padded && Longest(b) >= 1 {
        RoundedTensorBound(b, cfg);
      }
    }
  }

  /** The tensor a padded model runs the batch in is below twice the budget. */
  ghost predicate TensorBounded(batch: seq<Item>, cfg: Config) {
    cfg.padded && Longest(batch) >= 1 ==> RoundUp(Longest(batch), cfg.modelMaxLen) * Texts(batch) < 2 * cfg.maxTokens
  }

  /** No request is deferred twice: the log of deferrals is strictly increasing,
      and in a run that is not aborted every deferred request but the one
      pending has opened a batch. */
  lemma {:induction false} DeferredAtMostOnce<V>(cfg: Config, es: seq<Event<V>>)
    requires ValidConfig(cfg)
    ensures var s := Exec(cfg, Init<V>(), es);
            (forall i, j :: 0 <= i < j < |s.carryLog| ==> s.carryLog[i] < s.carryLog[j]) &&
            (!s.phase.Aborted? ==>
               forall c :: c in s.carryLog ==> c in s.openers || (s.carry.Some? && s.carry.value.id == c))
  {
    RunsKeepInv(cfg, es);
  }

  // ---- What becomes of the next item received ----

  lemma HeldRowsCounted<V>(cfg: Config, s: State<V>)
    requires Inv(cfg, s) && s.phase.Coalescing?
    ensures Texts(s.phase.batch) >= 1
  {
    HeldArrived(s);
    assert forall x :: x in s.phase.batch ==> x in HeldBatch(s.phase);
    TextsPositive(s.phase.batch);
  }

  /** A received item whose client has gone is skipped. Any other joins the batch
      when the rows together are within the caps and its own within the ratio, and
      is carried over exactly when they are not. */
  lemma ReceiveExactly<V>(cfg: Config, s: State<V>)
    requires ValidConfig(cfg) && Inv(cfg, s) && Enabled(cfg, s, Receive)
    ensures var item, batch, s' := s.queue[0], s.phase.batch, Next(cfg, s, Receive);
            && s'.queue == s.queue[1..]
            && (item.id in s.closed ==>
                  s'.carry.None? && s'.phase == s.phase && s'.cancelled == s.cancelled + {item.id})
            && (item.id !in s.closed ==>
                  if RowsWithinCaps(RowsOf(batch) + item.rows, cfg) && RowsWithinRatio(RowsOf(batch), item.rows, cfg)
                  then s'.carry.None? && s'.phase.Coalescing? && s'.phase.batch == batch + [item]
                  else s'.carry == Some(item) && s'.phase == Cutting(batch))
  {
    HeldRowsCounted(cfg, s);
    AdmittedExactly(s.phase.batch, s.queue[0], cfg);
  }

  // ---- The next batch is opened by the carry ----

  ghost predicate CarryHeldOrNext<V>(n: nat, c: Item, s: State<V>) {
    |s.openers| >= n && (if |s.openers| == n then s.carry == Some(c) || s.phase.Aborted? else s.openers[n] == c.id)
  }

  lemma CarryStep<V>(cfg: Config, n: nat, c: Item, s: State<V>, e: Event<V>)
    requires Control(s) && CarryHeldOrNext(n, c, s)
    ensures CarryHeldOrNext(n, c, Step(cfg, s, e))
  {
  }

  /** Whatever happens after a request was deferred, the first batch opened from
      then on is opened by that request. */
  lemma {:induction false} CarryOpensNextBatch<V>(cfg: Config, s: State<V>, es: seq<Event<V>>)
    requires ValidConfig(cfg) && Inv(cfg, s) && s.carry.Some?
    ensures var s' := Exec(cfg, s, es);
            |s.openers| <= |s'.openers| &&
            (|s.openers| < |s'.openers| ==> s'.openers[|s.openers|] == s.carry.value.id)
    ensures Inv(cfg, Exec(cfg, s, es)) && CarryHeldOrNext(|s.openers|, s.carry.value, Exec(cfg, s, es))
  {
    if es != [] {
      var before := es[..|es| - 1];
      CarryOpensNextBatch(cfg, s, before);
      var mid := Exec(cfg, s, before);
      StepKeepsInv(cfg, mid, es[|es| - 1]);
      CarryStep(cfg, |s.openers|, s.carry.value, mid, es[|es| - 1]);
    }
  }

  // ---- Batching is invisible ----

  /** Each model call of the run that returns one vector per row is row-wise. */
  ghost predicate RowWiseRun<V(!new)>(cfg: Config, f: Row -> V, es: seq<Event<V>>) {
    forall k :: 0 <= k < |es| && es[k].Finish? ==>
      var s := Exec(cfg, Init<V>(), es[..k]);
      s.phase.Dispatching? ==> RowWise(f, s.phase.batch, es[k].outcome)
  }

  /** A value sent to a client is the result for its own rows; a reply sender is
      dropped only if its client had gone or the worker was aborted. */
  ghost predicate RepliesRight<V(!new)>(f: Row -> V, s: State<V>) {
    forall k :: 0 <= k < |s.sent| ==>
      var x := s.sent[k];
      x.id < |s.arrived| &&
      (x.reply.Value? ==> x.reply.vectors == MapSeq(f, s.arrived[x.id].rows)) &&
      (x.reply.Dropped? ==> x.id in s.closed || s.phase.Aborted?)
  }

  lemma RepliesGrow<V(!new)>(f: Row -> V, s: State<V>, s': State<V>, more: seq<Sent<V>>)
    requires RepliesRight(f, s) && s.arrived <= s'.arrived && s.closed <= s'.closed
    requires s.phase.Aborted? ==> s'.phase.Aborted?
    requires s'.sent == s.sent + more
    requires forall k :: 0 <= k < |more| ==>
               more[k].id < |s'.arrived| &&
               (more[k].reply.Value? ==> more[k].reply.vectors == MapSeq(f, s'.arrived[more[k].id].rows)) &&
               (more[k].reply.Dropped? ==> more[k].id in s'.closed || s'.phase.Aborted?)
    ensures RepliesRight(f, s')
  {
  }

  lemma FinishReplies<V(!new)>(cfg: Config, f: Row -> V, s: State<V>, o: Outcome<V>)
    requires Inv(cfg, s) && RepliesRight(f, s) && s.phase.Dispatching? && RowWise(f, s.phase.batch, o)
    ensures RepliesRight(f, Next(cfg, s, Finish(o)))
  {
    DispatchIsInvisible(f, s.phase.batch, o);
    HeldInPlace(s);
    RepliesGrow(f, s, Next(cfg, s, Finish(o)), Replies(s.phase.batch, o));
  }

  lemma HeldInPlace<V>(s: State<V>)
    requires Identified(s) && InOrder(s) && Control(s) && s.phase.Dispatching?
    ensures var b := s.phase.batch; forall k :: 0 <= k < |b| ==> b[k].id < |s.arrived| && s.arrived[b[k].id] == b[k]
  {
    HeldArrived(s);
    var b := s.phase.batch;
    assert forall k :: 0 <= k < |b| ==> b[k] in HeldBatch(s.phase);
  }

  lemma HeldArrived<V>(s: State<V>)
    requires Identified(s) && InOrder(s) && Control(s)
    ensures forall x :: x in InFlight(s) ==> x.id < |s.arrived| && s.arrived[x.id] == x
    ensures forall x :: x in HeldBatch(s.phase) ==> x.id < |s.arrived| && s.arrived[x.id] == x
  {
    InFlightAscends(s);
    assert forall x :: x in HeldBatch(s.phase) ==> x in InFlight(s);
  }

  lemma CutReplies<V(!new)>(cfg: Config, f: Row -> V, s: State<V>)
    requires Inv(cfg, s) && RepliesRight(f, s) && s.phase.Cutting?
    ensures RepliesRight(f, AfterCut(s))
  {
    var b := s.phase.batch;
    var gone := Retain(b, Ids(b) - s.closed);
    RetainMembers(b, Ids(b) - s.closed);
    IdsMembers(b);
    HeldArrived(s);
    forall k | 0 <= k < |gone|
      ensures gone[k].id in s.closed && gone[k].id < |s.arrived|
    {
      assert gone[k] in gone;
    }
    RepliesGrow(f, s, AfterCut(s), Same(gone, Dropped));
  }

  lemma AbortReplies<V(!new)>(cfg: Config, f: Row -> V, s: State<V>)
    requires Inv(cfg, s) && RepliesRight(f, s) && Enabled(cfg, s, Abort)
    ensures RepliesRight(f, Next(cfg, s, Abort))
  {
    HeldArrived(s);
    var all := InFlight(s);
    assert forall k :: 0 <= k < |all| ==> all[k] in all;
    RepliesGrow(f, s, Next(cfg, s, Abort), Same(all, Dropped));
  }

  lemma StepReplies<V(!new)>(cfg: Config, f: Row -> V, s: State<V>, e: Event<V>)
    requires Inv(cfg, s) && RepliesRight(f, s)
    requires e.Finish? && s.phase.Dispatching? ==> RowWise(f, s.phase.batch, e.outcome)
    ensures RepliesRight(f, Step(cfg, s, e))
  {
    if Enabled(cfg, s, e) {
      match e
      case Finish(o) => FinishReplies(cfg, f, s, o);
      case Cut => CutReplies(cfg, f, s);
      case Abort => AbortReplies(cfg, f, s);
      case _ => OtherReplies(cfg, f, s, e);
    }
  }

  lemma OtherReplies<V(!new)>(cfg: Config, f: Row -> V, s: State<V>, e: Event<V>)
    requires Identified(s) && RepliesRight(f, s) && Enabled(cfg, s, e) && !e.Finish? && !e.Cut? && !e.Abort?
    ensures RepliesRight(f, Next(cfg, s, e))
  {
    var s' := Next(cfg, s, e);
    if e.Receive? && s.queue[0].id in s.closed {
      RepliesGrow(f, s, s', Same([s.queue[0]], Dropped));
    } else {
      assert s'.sent == s.sent + [];
      RepliesGrow(f, s, s', []);
    }
  }

  /** Batching is invisible: for every row-wise model and every schedule, no
      request is resolved twice, a value that is sent is the model's result on
      the request's own rows alone, and a request goes unanswered only if its
      client had gone or the worker was aborted. */
  lemma {:induction false} BatchingIsInvisible<V(!new)>(cfg: Config, f: Row -> V, es: seq<Event<V>>)
    requires ValidConfig(cfg) && RowWiseRun(cfg, f, es)
    ensures RepliesRight(f, Exec(cfg, Init<V>(), es)) && OncePerId(Exec(cfg, Init<V>(), es).sent)
  {
    RunsKeepInv(cfg, es);
    if es != [] {
      var n := |es| - 1;
      RowWisePrefix(cfg, f, es);
      BatchingIsInvisible(cfg, f, es[..n]);
      RunsKeepInv(cfg, es[..n]);
      StepReplies(cfg, f, Exec(cfg, Init<V>(), es[..n]), es[n]);
    }
  }

  lemma RowWisePrefix<V(!new)>(cfg: Config, f: Row -> V, es: seq<Event<V>>)
    requires RowWiseRun(cfg, f, es) && es != []
    ensures RowWiseRun(cfg, f, es[..|es| - 1])
    ensures var n := |es| - 1;
            var p := Exec(cfg, Init<V>(), es[..n]).phase;
            es[n].Finish? && p.Dispatching? ==> RowWise(f, p.batch, es[n].outcome)
  {
    var n := |es| - 1;
    forall k | 0 <= k < n && es[..n][k].Finish?
      ensures var s := Exec(cfg, Init<V>(), es[..n][..k]);
              s.phase.Dispatching? ==> RowWise(f, s.phase.batch, es[..n][k].outcome)
    {
      assert es[..n][..k] == es[..k];
    }
  }

  lemma StepSentGrows<V>(cfg: Config, s: State<V>, e: Event<V>)
    ensures s.sent <= Step(cfg, s, e).sent
  {
  }

  lemma {:induction false} SentGrows<V>(cfg: Config, s: State<V>, es: seq<Event<V>>, k: nat)
    requires k <= |es|
    ensures Exec(cfg, s, es[..k]).sent <= Exec(cfg, s, es).sent
  {
    if k == |es| {
      assert es[..k] == es;
    } else {
      var before := es[..|es| - 1];
      assert before[..k] == es[..k];
      SentGrows(cfg, s, before, k);
      StepSentGrows(cfg, Exec(cfg, s, before), es[|es| - 1]);
    }
  }

  lemma FinishSends<V>(cfg: Config, es: seq<Event<V>>, k: nat)
    requires k < |es| && es[k].Finish? && Exec(cfg, Init<V>(), es[..k]).phase.Dispatching?
    ensures var s := Exec(cfg, Init<V>(), es[..k]);
            s.sent + Replies(s.phase.batch, es[k].outcome) <= Exec(cfg, Init<V>(), es).sent
  {
    var upTo := es[..k + 1];
    assert upTo[..|upTo| - 1] == es[..k];
    SentGrows(cfg, Init<V>(), es, k + 1);
  }

  lemma PrefixMember<T>(xs: seq<T>, ys: seq<T>, all: seq<T>, i: nat)
    requires xs + ys <= all && i < |ys|
    ensures ys[i] in all
  {
    assert (xs + ys)[|xs| + i] == ys[i];
  }

  /** Every request dispatched in a call that comes back has, from then on and
      for good, its answer: the model's result on its own rows when the call
      succeeded with one vector per row, an error otherwise. */
  lemma {:induction false} DispatchedAreAnswered<V(!new)>(cfg: Config, f: Row -> V, es: seq<Event<V>>, k: nat, x: Item)
    requires ValidConfig(cfg) && RowWiseRun(cfg, f, es) && k < |es| && es[k].Finish?
    requires var p := Exec(cfg, Init<V>(), es[..k]).phase; p.Dispatching? && x in p.batch
    ensures var batch := Exec(cfg, Init<V>(), es[..k]).phase.batch;
            exists y :: y in Exec(cfg, Init<V>(), es).sent && y.id == x.id &&
              if Succeeds(batch, es[k].outcome) then y.reply == Value(MapSeq(f, x.rows)) else y.reply.Failure?
  {
    var s := Exec(cfg, Init<V>(), es[..k]);
    var replies := Replies(s.phase.batch, es[k].outcome);
    DispatchIsInvisible(f, s.phase.batch, es[k].outcome);
    var i :| 0 <= i < |s.phase.batch| && s.phase.batch[i] == x;
    FinishSends(cfg, es, k);
    PrefixMember(s.sent, replies, Exec(cfg, Init<V>(), es).sent, i);
  }

  // ---- Shutdown resolves everyone ----

  /** When the worker has exited or was aborted, every accepted request has been
      resolved exactly once and nothing is queued or carried. */
  lemma {:induction false} ShutdownResolvesEveryone<V>(cfg: Config, es: seq<Event<V>>)
    requires ValidConfig(cfg)
    requires var p := Exec(cfg, Init<V>(), es).phase; p.Exited? || p.Aborted?
    ensures var s := Exec(cfg, Init<V>(), es);
            OncePerId(s.sent) && SentIds(s.sent) == UpTo(|s.arrived|) && s.queue == [] && s.carry.None?
  {
    RunsKeepInv(cfg, es);
    var s := Exec(cfg, Init<V>(), es);
    assert InFlight(s) == [];
  }

  function PhaseRank(p: Phase): nat {
    match p
    case Coalescing(_, _) => 4
    case Cutting(_) => 3
    case Dispatching(_) => 2
    case Idle => 1
    case Exited => 0
    case Aborted => 0
  }

  /** Four for every request still queued or carried, plus the worker's position. */
  function Rank<V>(s: State<V>): nat {
    4 * (|s.queue| + |CarrySeq(s.carry)|) + PhaseRank(s.phase)
  }

  function WorkerSteps<V>(cfg: Config, s: State<V>, es: seq<Event<V>>): nat {
    if es == [] then 0
    else
      var before := es[..|es| - 1];
      var last := es[|es| - 1];
      WorkerSteps(cfg, s, before) + if IsWorker(last) && Enabled(cfg, Exec(cfg, s, before), last) then 1 else 0
  }

  lemma StepDrains<V>(cfg: Config, s: State<V>, e: Event<V>)
    requires Control(s) && !s.senderOpen
    ensures var s' := Step(cfg, s, e);
            !s'.senderOpen && Rank(s') + (if IsWorker(e) && Enabled(cfg, s, e) then 1 else 0) <= Rank(s)
  {
    if Enabled(cfg, s, e) {
      if e.Receive? {
        ReceiveDrains(cfg, s);
      } else if e.Cut? {
        CutDrains(s);
      }
    }
  }

  lemma ReceiveDrains<V>(cfg: Config, s: State<V>)
    requires Control(s) && Enabled(cfg, s, Receive)
    ensures var s' := AfterReceive(cfg, s); s'.senderOpen == s.senderOpen && Rank(s') < Rank(s)
  {
  }

  lemma CutDrains<V>(s: State<V>)
    requires s.phase.Cutting?
    ensures var s' := AfterCut(s); s'.senderOpen == s.senderOpen && Rank(s') < Rank(s)
  {
  }

  /** Once the sender is dropped, every worker step uses up rank and nothing
      gives any back: however the environment schedules it, the worker takes at
      most `Rank` further steps. */
  lemma {:induction false} DrainIsBounded<V>(cfg: Config, s: State<V>, es: seq<Event<V>>)
    requires ValidConfig(cfg) && Inv(cfg, s) && !s.senderOpen
    ensures WorkerSteps(cfg, s, es) + Rank(Exec(cfg, s, es)) <= Rank(s)
    ensures Inv(cfg, Exec(cfg, s, es)) && !Exec(cfg, s, es).senderOpen
  {
    if es != [] {
      var before := es[..|es| - 1];
      DrainIsBounded(cfg, s, before);
      StepDrains(cfg, Exec(cfg, s, before), es[|es| - 1]);
      StepKeepsInv(cfg, Exec(cfg, s, before), es[|es| - 1]);
    }
  }

  /** In particular every outer iteration leaves less queued and carried. */
  lemma {:induction false} OuterIterationDrains<V>(cfg: Config, s: State<V>, es: seq<Event<V>>)
    requires ValidConfig(cfg) && Inv(cfg, s) && !s.senderOpen && s.phase.Idle?
    requires Exec(cfg, s, es).phase.Idle? && WorkerSteps(cfg, s, es) > 0
    ensures var s' := Exec(cfg, s, es);
            |s'.queue| + |CarrySeq(s'.carry)| < |s.queue| + |CarrySeq(s.carry)|
  {
    DrainIsBounded(cfg, s, es);
  }

  /** A worker whose sender is dropped is never stuck: until it has finished,
      one of its own steps is enabled, so by `DrainIsBounded` it exits. */
  lemma DrainNeverStuck<V>(cfg: Config, s: State<V>, o: Outcome<V>)
    requires Control(s) && !s.senderOpen && !s.phase.Exited? && !s.phase.Aborted?
    ensures exists e :: IsWorker(e) && Enabled(cfg, s, e)
  {
    var e :=
      match s.phase
      case Idle => if s.carry.Some? then TakeCarry else if s.queue != [] then ReceiveFirst else Exit
      case Coalescing(_, _) => StopWaiting
      case Cutting(_) => Cut
      case Dispatching(_) => Finish(o);
    assert IsWorker(e) && Enabled(cfg, s, e);
  }

  // ---- The carry flag ----

  /** In every run the shared flag equals "a carry is present" until an abort, so
      a shutdown timeout counts a carry exactly when one is pending as it fires. */
  lemma {:induction false} FlagFollowsCarry<V>(cfg: Config, es: seq<Event<V>>)
    requires ValidConfig(cfg)
    ensures var s := Exec(cfg, Init<V>(), es);
            (!s.phase.Aborted? ==> s.carryPending == s.carry.Some?) &&
            (Enabled(cfg, s, ShutdownTimeout) ==>
               Step(cfg, s, ShutdownTimeout).carryLost == s.carryLost + |CarrySeq(s.carry)|)
  {
    RunsKeepInv(cfg, es);
  }
}
