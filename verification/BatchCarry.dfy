/** What a shutdown timeout counts and what the abort after it loses. */
module BatchCarry {
  import opened Common
  import opened BatchGates
  import opened BatchReplies
  import opened BatchMachine
  import opened BatchInvariant
  import opened BatchTheorems

  /** The ids opened are below n and below those of all that wait. */
  ghost predicate Behind(openers: seq<nat>, n: nat, waiting: seq<Item>) {
    forall o :: o in openers ==> o < n && forall q :: q in waiting ==> o < q.id
  }

  function Waiting<V>(s: State<V>): seq<Item> {
    CarrySeq(s.carry) + s.queue
  }

  /** Every request that has opened a batch arrived before all that are carried
      or queued. */
  ghost predicate OpenersBehind<V>(s: State<V>) {
    Behind(s.openers, |s.arrived|, Waiting(s))
  }

  /** The first waiting request arrived before the others. */
  lemma FirstWaiting<V>(s: State<V>)
    requires Identified(s) && InOrder(s) && Control(s) && Waiting(s) != []
    ensures Waiting(s)[0].id < |s.arrived| && Behind([Waiting(s)[0].id], |s.arrived|, Waiting(s)[1..])
  {
    InFlightAscends(s);
    var held, waiting := HeldBatch(s.phase), Waiting(s);
    assert InFlight(s) == held + waiting;
    AscendingParts(held, waiting);
    assert waiting[0] in InFlight(s);
    var rest := waiting[1..];
    assert forall k :: 0 <= k < |rest| ==> rest[k] == waiting[k + 1];
  }

  /** The first waiting request opens a batch. */
  lemma BehindOpens(openers: seq<nat>, n: nat, waiting: seq<Item>)
    requires Behind(openers, n, waiting) && waiting != [] && Behind([waiting[0].id], n, waiting[1..])
    ensures Behind(openers + [waiting[0].id], n, waiting[1..])
  {
    assert waiting[0].id in [waiting[0].id];
    assert forall q :: q in waiting[1..] ==> q in waiting;
  }

  lemma BehindShrinks(openers: seq<nat>, n: nat, waiting: seq<Item>, rest: seq<Item>)
    requires Behind(openers, n, waiting) && forall q :: q in rest ==> q in waiting
    ensures Behind(openers, n, rest)
  {
  }

  lemma BehindSend(openers: seq<nat>, n: nat, waiting: seq<Item>, item: Item)
    requires Behind(openers, n, waiting) && item.id == n
    ensures Behind(openers, n + 1, waiting + [item])
  {
  }

  lemma StepOpenersBehind<V>(cfg: Config, s: State<V>, e: Event<V>)
    requires Identified(s) && InOrder(s) && Control(s) && OpenersBehind(s)
    ensures OpenersBehind(Step(cfg, s, e))
  {
    if Enabled(cfg, s, e) {
      var s' := Next(cfg, s, e);
      if e.Send? {
        assert Waiting(s') == Waiting(s) + [Item(|s.arrived|, e.rows)];
        BehindSend(s.openers, |s.arrived|, Waiting(s), Item(|s.arrived|, e.rows));
      } else if e.TakeCarry? || e.ReceiveFirst? {
        assert Waiting(s') == Waiting(s)[1..];
        FirstWaiting(s);
        BehindOpens(s.openers, |s.arrived|, Waiting(s));
      } else {
        WaitingShrinks(cfg, s, e);
        BehindShrinks(s.openers, |s.arrived|, Waiting(s), Waiting(s'));
      }
    }
  }

  lemma WaitingShrinks<V>(cfg: Config, s: State<V>, e: Event<V>)
    requires Enabled(cfg, s, e) && Control(s) && !e.Send? && !e.TakeCarry? && !e.ReceiveFirst?
    ensures var s' := Next(cfg, s, e);
            s'.openers == s.openers && |s'.arrived| == |s.arrived| && forall q :: q in Waiting(s') ==> q in Waiting(s)
  {
    if e.Receive? {
      assert s.queue == [s.queue[0]] + s.queue[1..];
    }
  }

  /** A carried request has not opened a batch. */
  lemma CarryNotOpened<V>(s: State<V>)
    requires OpenersBehind(s) && s.carry.Some?
    ensures s.carry.value.id !in s.openers
  {
    assert s.carry.value in Waiting(s);
  }

  /** The histories only grow; the count changes at a timeout only. */
  ghost predicate Later<V>(s: State<V>, s': State<V>) {
    s.openers <= s'.openers && s.carryLog <= s'.carryLog
  }

  ghost predicate Quiet<V>(es: seq<Event<V>>) {
    forall k :: 0 <= k < |es| ==> !es[k].ShutdownTimeout? && !es[k].Abort?
  }

  lemma StepLater<V>(cfg: Config, s: State<V>, e: Event<V>)
    ensures Later(s, Step(cfg, s, e))
    ensures !e.ShutdownTimeout? ==> Step(cfg, s, e).carryLost == s.carryLost
    ensures !e.Abort? && !s.phase.Aborted? ==> !Step(cfg, s, e).phase.Aborted?
  {
  }

  lemma {:induction false} RunLater<V>(cfg: Config, s: State<V>, es: seq<Event<V>>)
    requires ValidConfig(cfg) && Inv(cfg, s) && OpenersBehind(s)
    ensures Inv(cfg, Exec(cfg, s, es)) && OpenersBehind(Exec(cfg, s, es)) && Later(s, Exec(cfg, s, es))
  {
    if es != [] {
      var before, last := es[..|es| - 1], es[|es| - 1];
      RunLater(cfg, s, before);
      var mid := Exec(cfg, s, before);
      StepKeepsInv(cfg, mid, last);
      StepOpenersBehind(cfg, mid, last);
      StepLater(cfg, mid, last);
    }
  }

  lemma {:induction false} RunQuiet<V>(cfg: Config, s: State<V>, es: seq<Event<V>>)
    requires Quiet(es)
    ensures Exec(cfg, s, es).carryLost == s.carryLost
    ensures !s.phase.Aborted? ==> !Exec(cfg, s, es).phase.Aborted?
  {
    if es != [] {
      var before, last := es[..|es| - 1], es[|es| - 1];
      RunQuiet(cfg, s, before);
      StepLater(cfg, Exec(cfg, s, before), last);
    }
  }

  /** A request that was deferred and has not opened a batch is the carry. */
  lemma CarryIsUnopened<V>(cfg: Config, s: State<V>, s': State<V>)
    requires CarriedOnce(s) && CarriedOnce(s') && OpenersBehind(s') && Later(s, s') && s.carry.None?
    requires !s.phase.Aborted? && !s'.phase.Aborted?
    ensures s'.carry.None? <==> forall k :: |s.carryLog| <= k < |s'.carryLog| ==> s'.carryLog[k] in s'.openers
  {
    forall k | 0 <= k < |s.carryLog|
      ensures s'.carryLog[k] in s'.openers
    {
      assert s.carryLog[k] in s.carryLog;
    }
    if s'.carry.Some? {
      CarryNotOpened(s');
    } else {
      assert forall k :: 0 <= k < |s'.carryLog| ==> s'.carryLog[k] in s'.carryLog;
    }
  }

  /** Some deferred request has not opened a batch. */
  ghost predicate SomeUnopened<V>(s: State<V>) {
    exists c :: c in s.carryLog && c !in s.openers
  }

  lemma UnopenedIsCarry<V>(s: State<V>)
    requires CarriedOnce(s) && OpenersBehind(s) && !s.phase.Aborted?
    ensures s.carry.Some? <==> SomeUnopened(s)
  {
    if s.carry.Some? {
      CarryNotOpened(s);
      assert s.carry.value.id in s.carryLog;
    }
  }

  /** The carry of the timeout is still the carry exactly if no batch was opened. */
  lemma CarryIsHeld<V>(cfg: Config, s: State<V>, es: seq<Event<V>>)
    requires ValidConfig(cfg) && Inv(cfg, s) && OpenersBehind(s) && s.carry.Some? && !s.phase.Aborted? && Quiet(es)
    ensures var s' := Exec(cfg, s, es); s'.carry == s.carry <==> |s'.openers| == |s.openers|
  {
    RunLater(cfg, s, es);
    RunQuiet(cfg, s, es);
    CarryOpensNextBatch(cfg, s, es);
    var s' := Exec(cfg, s, es);
    if |s'.openers| > |s.openers| {
      assert s'.openers[|s.openers|] in s'.openers;
      if s'.carry.Some? {
        CarryNotOpened(s');
      }
    }
  }

  /** The timeout counts the carry that is pending when it fires. What the abort
      later loses is that same request exactly when, if there was one, no batch
      was opened in between, and, if there was none, every request deferred in
      between has opened a batch. The number counted is the number lost exactly
      when, at the abort, some deferred request has not opened a batch if and only
      if there was a carry to count. */
  lemma {:induction false} CountMatchesLoss<V>(cfg: Config, before: seq<Event<V>>, between: seq<Event<V>>)
    requires ValidConfig(cfg) && Enabled(cfg, Exec(cfg, Init<V>(), before), ShutdownTimeout) && Quiet(between)
    ensures var s := Exec(cfg, Init<V>(), before);
            var s' := Exec(cfg, Step(cfg, s, ShutdownTimeout), between);
            && s'.carryLost == s.carryLost + |CarrySeq(s.carry)|
            && (s'.carry == s.carry <==>
                  if s.carry.Some? then |s'.openers| == |s.openers|
                  else forall k :: |s.carryLog| <= k < |s'.carryLog| ==> s'.carryLog[k] in s'.openers)
            && (s'.carryLost - s.carryLost == |CarrySeq(s'.carry)| <==> (s.carry.Some? <==> SomeUnopened(s')))
  {
    var s := Exec(cfg, Init<V>(), before);
    RunsKeepInv<V>(cfg, []);
    RunLater(cfg, Init<V>(), before);
    var timed := Step(cfg, s, ShutdownTimeout);
    StepKeepsInv(cfg, s, ShutdownTimeout);
    StepOpenersBehind(cfg, s, ShutdownTimeout);
    RunLater(cfg, timed, between);
    RunQuiet(cfg, timed, between);
    UnopenedIsCarry(Exec(cfg, timed, between));
    if s.carry.Some? {
      CarryIsHeld(cfg, timed, between);
    } else {
      CarryIsUnopened(cfg, timed, Exec(cfg, timed, between));
    }
  }

  /** In particular when the worker takes no step between timeout and abort. */
  lemma {:induction false} CountIsRightIfStill<V>(cfg: Config, s: State<V>, between: seq<Event<V>>)
    requires Quiet(between) && forall k :: 0 <= k < |between| ==> !IsWorker(between[k])
    ensures Exec(cfg, s, between).carry == s.carry
  {
    if between != [] {
      CountIsRightIfStill(cfg, s, between[..|between| - 1]);
    }
  }
}
