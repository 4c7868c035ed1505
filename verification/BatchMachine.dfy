/** The batching worker as a machine over the events between its await points.
    Arrivals, client disconnects, timeouts, the shutdown of the sender and the
    abort of the worker are events of the environment and may come in any order;
    an event that is not enabled leaves the state as it is, so every sequence of
    events is a run. */
module BatchMachine {
  import opened Common
  import opened BatchGates
  import opened BatchReplies

  /** Where the worker is: at the top of its outer loop, waiting for more items,
      about to cut the batch, waiting for the model, or finished. */
  datatype Phase =
    | Idle
    | Coalescing(batch: seq<Item>, accum: Accum)
    | Cutting(batch: seq<Item>)
    | Dispatching(batch: seq<Item>)
    | Exited
    | Aborted

  /** The channel, the worker's variables and the history of the run:
      `arrived` lists accepted requests, `cancelled` the requests skipped because
      their client had gone, `dispatched` the batches sent to the model, `sent`
      the resolutions of requests, `carryLog` and `openers` the requests that were
      deferred and that opened a batch, `lost` what an abort left undispatched. */
  datatype State<V> = State(
    arrived: seq<Item>, queue: seq<Item>, senderOpen: bool, closed: set<nat>,
    carry: Option<Item>, carryPending: bool, phase: Phase,
    cancelled: set<nat>, dispatched: seq<seq<Item>>, sent: seq<Sent<V>>,
    carryLog: seq<nat>, openers: seq<nat>, lost: seq<Item>, carryLost: nat)

  datatype Event<V> =
    // environment
    | Send(rows: seq<Row>) | Disconnect(id: nat) | DropSender | ShutdownTimeout | Abort
    // worker
    | TakeCarry | ReceiveFirst | Exit | Receive | StopWaiting | Cut | Finish(outcome: Outcome<V>)

  function Init<V>(): State<V> {
    State([], [], true, {}, None, false, Idle, {}, [], [], [], [], [], 0)
  }

  function CarrySeq(carry: Option<Item>): seq<Item> {
    if carry.Some? then [carry.value] else []
  }

  /** The batch the worker holds and has not yet dispatched. */
  function OpenBatch(p: Phase): seq<Item> {
    match p
    case Coalescing(b, _) => b
    case Cutting(b) => b
    case _ => []
  }

  /** The batch the worker holds, dispatched or not. */
  function HeldBatch(p: Phase): seq<Item> {
    if p.Dispatching? then p.batch else OpenBatch(p)
  }

  /** Requests not yet dispatched, oldest first. */
  function Undispatched<V>(s: State<V>): seq<Item> {
    OpenBatch(s.phase) + (CarrySeq(s.carry) + s.queue) + s.lost
  }

  /** Requests not yet resolved, oldest first. */
  function InFlight<V>(s: State<V>): seq<Item> {
    HeldBatch(s.phase) + (CarrySeq(s.carry) + s.queue)
  }

  function Ids(items: seq<Item>): set<nat> {
    if items == [] then {} else {items[0].id} + Ids(items[1..])
  }

  /** The worker can be cancelled only where it awaits. */
  predicate AtAwait<V>(s: State<V>) {
    s.phase.Coalescing? || s.phase.Dispatching? || (s.phase.Idle? && s.carry.None?)
  }

  predicate Enabled<V>(cfg: Config, s: State<V>, e: Event<V>) {
    match e
    case Send(rows) => s.senderOpen && rows != []
    case Disconnect(id) => id < |s.arrived|
    case DropSender => s.senderOpen
    case ShutdownTimeout => !s.senderOpen && !s.phase.Exited? && !s.phase.Aborted?
    case Abort => !s.senderOpen && AtAwait(s)
    case TakeCarry => s.phase.Idle? && s.carry.Some?
    case ReceiveFirst => s.phase.Idle? && s.carry.None? && s.queue != []
    case Exit => s.phase.Idle? && s.carry.None? && s.queue == [] && !s.senderOpen
    case Receive => s.phase.Coalescing? && !s.phase.accum.Saturated(cfg) && s.queue != []
    case StopWaiting => s.phase.Coalescing?
    case Cut => s.phase.Cutting?
    case Finish(_) => s.phase.Dispatching?
  }

  /** The queue head joins the batch, is skipped or is carried over. */
  function AfterReceive<V>(cfg: Config, s: State<V>): State<V>
    requires s.phase.Coalescing? && s.queue != []
  {
    var item, rest, p := s.queue[0], s.queue[1..], s.phase;
    if item.id in s.closed then
      s.(queue := rest, cancelled := s.cancelled + {item.id}, sent := s.sent + Same([item], Dropped))
    else if p.accum.Defers(item, cfg) then
      s.(queue := rest, carry := Some(item), carryPending := true,
         carryLog := s.carryLog + [item.id], phase := Cutting(p.batch))
    else
      s.(queue := rest, phase := Coalescing(p.batch + [item], p.accum.Push(item)))
  }

  /** Drop the members whose client has gone; dispatch the rest if any are left. */
  function AfterCut<V>(s: State<V>): State<V>
    requires s.phase.Cutting?
  {
    var live := Retain(s.phase.batch, s.closed);
    var gone := Retain(s.phase.batch, Ids(s.phase.batch) - s.closed);
    var s' := s.(cancelled := s.cancelled + Ids(gone), sent := s.sent + Same(gone, Dropped));
    if live == [] then s'.(phase := Idle)
    else s'.(phase := Dispatching(live), dispatched := s.dispatched + [live])
  }

  function StartBatch<V>(s: State<V>, first: Item): State<V> {
    s.(phase := Coalescing([first], EMPTY.Push(first)), openers := s.openers + [first.id])
  }

  function Next<V>(cfg: Config, s: State<V>, e: Event<V>): State<V>
    requires Enabled(cfg, s, e)
  {
    match e
    case Send(rows) =>
      var item := Item(|s.arrived|, rows);
      s.(arrived := s.arrived + [item], queue := s.queue + [item])
    case Disconnect(id) => s.(closed := s.closed + {id})
    case DropSender => s.(senderOpen := false)
    case ShutdownTimeout => s.(carryLost := s.carryLost + if s.carryPending then 1 else 0)
    case Abort =>
      s.(phase := Aborted, lost := Undispatched(s), queue := [], carry := None,
         sent := s.sent + Same(InFlight(s), Dropped))
    case TakeCarry => StartBatch(s.(carry := None, carryPending := false), s.carry.value)
    case ReceiveFirst => StartBatch(s.(queue := s.queue[1..]), s.queue[0])
    case Exit => s.(phase := Exited)
    case Receive => AfterReceive(cfg, s)
    case StopWaiting => s.(phase := Cutting(s.phase.batch))
    case Cut => AfterCut(s)
    case Finish(o) => s.(phase := Idle, sent := s.sent + Replies(s.phase.batch, o))
  }

  function Step<V>(cfg: Config, s: State<V>, e: Event<V>): State<V> {
    if Enabled(cfg, s, e) then Next(cfg, s, e) else s
  }

  function Exec<V>(cfg: Config, s: State<V>, es: seq<Event<V>>): State<V> {
    if es == [] then s
    else Step(cfg, Exec(cfg, s, es[..|es| - 1]), es[|es| - 1])
  }

  predicate IsWorker<V>(e: Event<V>) {
    e.TakeCarry? || e.ReceiveFirst? || e.Exit? || e.Receive? || e.StopWaiting? || e.Cut? || e.Finish?
  }

  // ---- What every reachable state satisfies ----

  ghost predicate Ascending(items: seq<Item>) {
    forall i, j :: 0 <= i < j < |items| ==> items[i].id < items[j].id
  }

  /** Arrivals are numbered in order, carry a text each, and only they are cancelled. */
  ghost predicate Identified<V>(s: State<V>) {
    && (forall i :: 0 <= i < |s.arrived| ==> s.arrived[i].id == i && s.arrived[i].rows != [])
    && s.closed <= UpTo(|s.arrived|)
    && s.cancelled <= s.closed
  }

  /** No loss, duplication or overtaking: what was dispatched followed by what
      was not is the arrival sequence with exactly the cancelled requests deleted. */
  ghost predicate InOrder<V>(s: State<V>) {
    Flatten(s.dispatched) + Undispatched(s) == Retain(s.arrived, s.cancelled)
  }

  function SentIds<V>(sent: seq<Sent<V>>): set<nat> {
    if sent == [] then {} else {sent[0].id} + SentIds(sent[1..])
  }

  ghost predicate OncePerId<V>(sent: seq<Sent<V>>) {
    forall i, j :: 0 <= i < j < |sent| ==> sent[i].id != sent[j].id
  }

  /** Every accepted request is either in flight or resolved, and resolved once. */
  ghost predicate Ledger<V>(n: nat, sent: seq<Sent<V>>, inFlight: seq<Item>) {
    OncePerId(sent) && SentIds(sent) !! Ids(inFlight) && SentIds(sent) + Ids(inFlight) == UpTo(n)
  }

  ghost predicate Resolved<V>(s: State<V>) {
    Ledger(|s.arrived|, s.sent, InFlight(s))
  }

  /** The shape of the worker's own variables in each phase. */
  ghost predicate Control<V>(s: State<V>) {
    && (!s.phase.Aborted? ==> s.carryPending == s.carry.Some? && s.lost == [])
    && (s.phase.Coalescing? ==> s.carry.None? && s.phase.batch != [] && s.phase.accum == Measure(s.phase.batch))
    && (s.phase.Dispatching? ==> |s.dispatched| > 0 && s.dispatched[|s.dispatched| - 1] == s.phase.batch)
    && (s.phase.Exited? || s.phase.Aborted? ==> s.carry.None? && s.queue == [] && !s.senderOpen)
  }

  /** Batches respect the gates, before and after cancellation. */
  ghost predicate Gated<V>(cfg: Config, s: State<V>) {
    && Coalesced(OpenBatch(s.phase), cfg)
    && forall b :: b in s.dispatched ==> b != [] && (|b| >= 2 ==> WithinCaps(b, cfg))
  }

  /** A request is deferred at most once, and then it opens a batch. */
  ghost predicate CarriedOnce<V>(s: State<V>) {
    && (forall i, j :: 0 <= i < j < |s.carryLog| ==> s.carryLog[i] < s.carryLog[j])
    && (forall c :: c in s.carryLog ==> c < |s.arrived|)
    && (forall c, q :: c in s.carryLog && q in s.queue ==> c < q.id)
    && (s.carry.Some? ==> |s.carryLog| > 0 && s.carryLog[|s.carryLog| - 1] == s.carry.value.id)
    && (!s.phase.Aborted? ==>
          forall c :: c in s.carryLog ==> c in s.openers || (s.carry.Some? && s.carry.value.id == c))
  }

  ghost predicate Inv<V>(cfg: Config, s: State<V>) {
    Identified(s) && InOrder(s) && Resolved(s) && Control(s) && Gated(cfg, s) && CarriedOnce(s)
  }
}
