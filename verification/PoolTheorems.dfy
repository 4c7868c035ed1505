/** What the session pool promises over all interleavings of its threads. */
module PoolTheorems {
  import opened Common
  import opened SlotPool

  // ---- Every reachable state satisfies the invariant ----

  lemma {:induction false} IdleSnoc(slots: seq<Slot>, slot: Slot, w: nat -> nat)
    ensures Idle(slots + [slot], w) == Idle(slots, w) + ItemWeight(slot.item, w)
  {
    if slots == [] {
      assert slots + [slot] == [slot] && [slot][1..] == [];
    } else {
      assert (slots + [slot])[1..] == slots[1..] + [slot];
      IdleSnoc(slots[1..], slot, w);
    }
  }

  lemma {:induction false} InitialIdle(n: nat, threads: nat, idleSecs: nat, now: nat, w: nat -> nat)
    ensures Idle(FromItems(n, threads, idleSecs, now).slots, w) == Minted(n, w)
  {
    if n > 0 {
      var smaller := FromItems(n - 1, threads, idleSecs, now).slots;
      assert FromItems(n, threads, idleSecs, now).slots == smaller + [Slot(Some(n - 1), false, now)];
      IdleSnoc(smaller, Slot(Some(n - 1), false, now), w);
      InitialIdle(n - 1, threads, idleSecs, now, w);
    }
  }

  lemma {:induction false} NothingCarried(pcs: seq<Pc>, w: nat -> nat)
    requires forall t :: 0 <= t < |pcs| ==> pcs[t] == Ready
    ensures Carried(pcs, w) == 0
  {
    if pcs != [] {
      NothingCarried(pcs[1..], w);
    }
  }

  lemma InitInv(n: nat, threads: nat, idleSecs: nat, now: nat)
    ensures Inv(FromItems(n, threads, idleSecs, now))
  {
    var p := FromItems(n, threads, idleSecs, now);
    forall w: nat -> nat
      ensures Balanced(p, w)
    {
      InitialIdle(n, threads, idleSecs, now, w);
      NothingCarried(p.pcs, w);
    }
  }

  lemma {:induction false} RunsKeepInv(p: Pool, es: seq<Event>)
    requires Inv(p)
    ensures Inv(Exec(p, es)) && |Exec(p, es).pcs| == |p.pcs|
    ensures Exec(p, es).idleSecs == p.idleSecs && |Exec(p, es).slots| == |p.slots|
  {
    if es != [] {
      RunsKeepInv(p, es[..|es| - 1]);
      StepKeepsInv(Exec(p, es[..|es| - 1]), es[|es| - 1]);
      StepKeepsSize(Exec(p, es[..|es| - 1]), es[|es| - 1]);
    }
  }

  lemma StepKeepsSize(p: Pool, e: Event)
    ensures |Step(p, e).pcs| == |p.pcs| && Step(p, e).idleSecs == p.idleSecs && |Step(p, e).slots| == |p.slots|
  {
  }

  /** Slot i has at most one owner, is busy exactly while it has one, and is then empty. */
  ghost predicate OwnedOnce(p: Pool, i: nat)
    requires i < |p.slots|
  {
    && (forall t, u :: 0 <= t < |p.pcs| && 0 <= u < |p.pcs| && Owns(p.pcs[t], i) && Owns(p.pcs[u], i) ==> t == u)
    && (p.slots[i].busy <==> exists t :: 0 <= t < |p.pcs| && Owns(p.pcs[t], i))
    && (p.slots[i].busy ==> p.slots[i].item.None?)
  }

  lemma OwnersUnique(p: Pool)
    requires Owned(p)
    ensures forall i :: 0 <= i < |p.slots| ==> OwnedOnce(p, i)
  {
    forall i | 0 <= i < |p.slots|
      ensures OwnedOnce(p, i)
    {
      if p.slots[i].busy {
        assert Owns(p.pcs[p.owners[i].value], i);
      }
    }
  }

  /** A slot has at most one owner - a guard, or the thread re-initialising it,
      so at most one factory call is in flight for it - and is busy exactly while
      it has one; a busy slot holds no session of its own. */
  lemma {:induction false} OneOwnerPerSlot(n: nat, threads: nat, idleSecs: nat, now: nat, es: seq<Event>)
    ensures var p := Exec(FromItems(n, threads, idleSecs, now), es);
            |p.slots| == n && |p.pcs| == threads && forall i :: 0 <= i < n ==> OwnedOnce(p, i)
  {
    var p0 := FromItems(n, threads, idleSecs, now);
    InitInv(n, threads, idleSecs, now);
    RunsKeepInv(p0, es);
    OwnersUnique(Exec(p0, es));
  }

  // ---- What the eviction loop picks ----

  /** The sweep stops at a slot exactly when it is not busy and was last used at
      least `threshold` seconds ago. */
  lemma SweepStopsExactly(p: Pool, t: nat, now: nat, threshold: nat)
    requires InRange(p) && t < |p.pcs| && p.pcs[t].Sweep? && p.pcs[t].i < |p.slots|
    ensures var i := p.pcs[t].i;
            var aged := now >= p.slots[i].lastUsed + threshold || threshold == 0;
            Step(p, Event(t, ReadAge(now, threshold))) ==
              p.(pcs := p.pcs[t := if !p.slots[i].busy && aged then SweepLock(i) else Sweep(i + 1)])
  {
  }

  /** Under the lock it empties the slot exactly when there is a session and the
      slot is still not busy; the other slots stay. */
  lemma SweepEmptiesExactly(p: Pool, t: nat)
    requires InRange(p) && t < |p.pcs| && p.pcs[t].SweepLock?
    ensures var i, p' := p.pcs[t].i, Step(p, Event(t, EvictLock));
            if p.slots[i].item.Some? && !p.slots[i].busy
            then && p'.slots == p.slots[i := p.slots[i].(item := None)]
                 && p'.evictions == p.evictions + [p.slots[i].item.value]
            else p'.slots == p.slots && p'.evictions == p.evictions
  {
  }

  // ---- Conservation ----

  /** Factory calls that succeeded in a run. */
  function Successes(p: Pool, es: seq<Event>): nat {
    if es == [] then 0
    else
      var before, last := es[..|es| - 1], es[|es| - 1];
      Successes(p, before) +
      if InRange(Exec(p, before)) && Enabled(Exec(p, before), last) && last.a.FactoryOk? then 1 else 0
  }

  lemma StepMints(p: Pool, e: Event)
    ensures Step(p, e).minted == p.minted + if InRange(p) && Enabled(p, e) && e.a.FactoryOk? then 1 else 0
  {
  }

  lemma {:induction false} MintedBySuccesses(p: Pool, es: seq<Event>)
    ensures Exec(p, es).minted == p.minted + Successes(p, es)
  {
    if es != [] {
      MintedBySuccesses(p, es[..|es| - 1]);
      StepMints(Exec(p, es[..|es| - 1]), es[|es| - 1]);
    }
  }

  lemma {:induction false} CountsAreLengths(log: seq<nat>, n: nat, w: nat -> nat)
    requires forall x: nat :: w(x) == 1
    ensures Evicted(log, w) == |log| && Minted(n, w) == n
    decreases |log| + n
  {
    if n > 0 {
      CountsAreLengths(log, n - 1, w);
    } else if log != [] {
      CountsAreLengths(log[..|log| - 1], n, w);
    }
  }

  /** Weighs session x as one and every other session as nothing. */
  function Only(x: nat): nat -> nat {
    y => if y == x then 1 else 0
  }

  lemma {:induction false} MintedOnce(n: nat, x: nat)
    ensures Minted(n, Only(x)) == if x < n then 1 else 0
  {
    if n > 0 {
      MintedOnce(n - 1, x);
    }
  }

  /** Conservation over every run: idle + held + in transit = initial + factory
      successes - evictions; and no session is ever in two places, nor lost:
      each one made is idle, carried by a thread, or evicted, exactly once. */
  lemma {:induction false} SessionsConserved(n: nat, threads: nat, idleSecs: nat, now: nat, es: seq<Event>)
    ensures var p0 := FromItems(n, threads, idleSecs, now);
            var p := Exec(p0, es);
            Idle(p.slots, _ => 1) + Carried(p.pcs, _ => 1) == n + Successes(p0, es) - |p.evictions|
    ensures var p := Exec(FromItems(n, threads, idleSecs, now), es);
            forall x: nat ::
              Idle(p.slots, Only(x)) + Carried(p.pcs, Only(x)) + Evicted(p.evictions, Only(x)) ==
                if x < p.minted then 1 else 0
  {
    var p0 := FromItems(n, threads, idleSecs, now);
    var p := Exec(p0, es);
    InitInv(n, threads, idleSecs, now);
    RunsKeepInv(p0, es);
    MintedBySuccesses(p0, es);
    var all: nat -> nat := _ => 1;
    assert Balanced(p, all);
    CountsAreLengths(p.evictions, p.minted, all);
    forall x: nat
      ensures Idle(p.slots, Only(x)) + Carried(p.pcs, Only(x)) + Evicted(p.evictions, Only(x)) ==
              if x < p.minted then 1 else 0
    {
      assert Balanced(p, Only(x));
      MintedOnce(p.minted, x);
    }
  }

  // ---- The `expect` on a claimed slot ----

  /** The second locked section finds its session in every run in which the slot
      was not evicted since the first one. */
  lemma {:induction false} ExpectHoldsWithoutEviction(n: nat, threads: nat, idleSecs: nat, now: nat,
                                                      es: seq<Event>, t: nat, later: nat)
    requires t < threads
    requires var p := Exec(FromItems(n, threads, idleSecs, now), es);
             t < |p.pcs| && p.pcs[t].Lock2? && !p.pcs[t].evicted
    ensures var p := Exec(FromItems(n, threads, idleSecs, now), es);
            t < |p.pcs| && !Step(p, Event(t, SecondLock(later))).pcs[t].Panicked?
  {
    InitInv(n, threads, idleSecs, now);
    RunsKeepInv(FromItems(n, threads, idleSecs, now), es);
  }

  /** Some thread is dead in its `expect`. */
  ghost predicate Panics(p: Pool) {
    exists t :: 0 <= t < |p.pcs| && p.pcs[t].Panicked?
  }

  lemma ExecSnoc(p: Pool, es: seq<Event>, e: Event)
    ensures Exec(p, es + [e]) == Step(Exec(p, es), e)
  {
    assert (es + [e])[..|es|] == es;
  }

  /** The first half of the race: thread 0 has seen slot 0 occupied and is about
      to lock it again. */
  lemma FirstHalf(p: Pool) returns (es: seq<Event>)
    requires InRange(p) && |p.slots| >= 1 && |p.pcs| >= 2
    requires p.pcs[0] == Ready && p.slots[0].item.Some? && !p.slots[0].busy
    ensures Exec(p, es) == Goto(p, 0, Lock2(0, false))
  {
    es := [Event(0, BeginAcquire)];
    ExecSnoc(p, [], Event(0, BeginAcquire));
    assert [] + es == es;
    ExecSnoc(p, es, Event(0, ReadBusy));
    es := es + [Event(0, ReadBusy)];
    assert Exec(p, es) == Goto(p, 0, Lock1(0));
    ExecSnoc(p, es, Event(0, FirstLock));
    es := es + [Event(0, FirstLock)];
  }

  /** The second half: thread 1 evicts slot 0 in the gap, and thread 0 locks an
      empty slot. */
  lemma SecondHalf(p: Pool, es: seq<Event>, now: nat) returns (es': seq<Event>)
    requires var q := Exec(p, es);
             InRange(q) && |q.slots| >= 1 && |q.pcs| >= 2 && q.idleSecs > 0 &&
             q.pcs[0] == Lock2(0, false) && q.pcs[1] == Ready &&
             q.slots[0].item.Some? && !q.slots[0].busy && q.slots[0].lastUsed == now
    ensures Panics(Exec(p, es'))
  {
    var q := Exec(p, es);
    var e1, e2 := Event(1, BeginEvict), Event(1, ReadAge(now + q.idleSecs, q.idleSecs));
    var q2 := Goto(q, 1, SweepLock(0));
    assert Step(Step(q, e1), e2) == q2 by {
      assert Step(q, e1) == Goto(q, 1, Sweep(0));
    }
    ExecSnoc(p, es, e1);
    ExecSnoc(p, es + [e1], e2);
    es' := EvictAndLock(p, es + [e1] + [e2], now);
  }

  lemma EvictAndLock(p: Pool, es: seq<Event>, now: nat) returns (es': seq<Event>)
    requires var q := Exec(p, es);
             InRange(q) && |q.slots| >= 1 && |q.pcs| >= 2 && q.pcs[0] == Lock2(0, false) && q.pcs[1] == SweepLock(0) &&
             q.slots[0].item.Some? && !q.slots[0].busy
    ensures Panics(Exec(p, es'))
  {
    var e3, e4 := Event(1, EvictLock), Event(0, SecondLock(now));
    var q3 := Step(Exec(p, es), e3);
    assert InRange(q3) && q3.pcs[0] == Lock2(0, true) && q3.slots[0].item.None? && !q3.slots[0].busy;
    assert Step(q3, e4).pcs[0].Panicked?;
    ExecSnoc(p, es, e3);
    ExecSnoc(p, es + [e3], e4);
    es' := es + [e3] + [e4];
  }

  lemma RaceRun(p: Pool, now: nat)
    requires InRange(p) && p.idleSecs > 0 && |p.slots| >= 1 && |p.pcs| >= 2
    requires p.pcs[0] == Ready && p.pcs[1] == Ready
    requires p.slots[0].item.Some? && !p.slots[0].busy && p.slots[0].lastUsed == now
    ensures exists es :: Panics(Exec(p, es))
  {
    var es := FirstHalf(p);
    es := SecondHalf(p, es, now);
  }

  /** The `expect` can fire exactly when eviction is enabled and two threads share
      at least one slot: with `idleSecs == 0` no run reaches it, otherwise the run
      with an eviction in the gap between the two locks does. */
  lemma {:induction false} PanicReachableExactly(n: nat, threads: nat, idleSecs: nat, now: nat)
    ensures (exists es :: Panics(Exec(FromItems(n, threads, idleSecs, now), es)))
            <==> idleSecs > 0 && n >= 1 && threads >= 2
  {
    var p := FromItems(n, threads, idleSecs, now);
    InitInv(n, threads, idleSecs, now);
    if idleSecs > 0 && n >= 1 && threads >= 2 {
      RaceRun(p, now);
    } else {
      forall es
        ensures !Panics(Exec(p, es))
      {
        RunsKeepInv(p, es);
      }
    }
  }

  lemma PanickedStays(p: Pool, t: nat, i: nat, e: Event)
    requires t < |p.pcs| && p.pcs[t] == Panicked(i)
    ensures t < |Step(p, e).pcs| && Step(p, e).pcs[t] == Panicked(i)
  {
  }

  lemma {:induction false} PanickedForever(p: Pool, t: nat, i: nat, es: seq<Event>)
    requires t < |p.pcs| && p.pcs[t] == Panicked(i)
    ensures t < |Exec(p, es).pcs| && Exec(p, es).pcs[t] == Panicked(i)
  {
    if es != [] {
      PanickedForever(p, t, i, es[..|es| - 1]);
      PanickedStays(Exec(p, es[..|es| - 1]), t, i, es[|es| - 1]);
    }
  }

  /** A slot on which a thread died stays busy and empty whatever follows: it is
      lost to the pool. */
  lemma PanickedSlotIsLost(p: Pool, t: nat, i: nat, es: seq<Event>)
    requires Inv(p) && t < |p.pcs| && p.pcs[t] == Panicked(i)
    ensures var p' := Exec(p, es); i < |p'.slots| && p'.slots[i].busy && p'.slots[i].item.None?
  {
    PanickedForever(p, t, i, es);
    RunsKeepInv(p, es);
    assert Owns(Exec(p, es).pcs[t], i);
  }
}
