/** `acquire` as one thread runs it while the others go on: between any two of its
    locked sections and unlocked reads an arbitrary stretch of their steps takes
    effect. */
module SharedPool {
  import opened Common
  import opened SlotPool
  import opened PoolTheorems

  /** What the call comes back with; `Panic` is the failing `expect`. */
  datatype Outcome = Guard(i: nat, item: nat) | AllBusy | ReinitFailed | Panic(i: nat)

  /** Steps of the threads other than t. */
  ghost predicate OfOthers(es: seq<Event>, t: nat) {
    forall k :: 0 <= k < |es| ==> es[k].t != t
  }

  /** The thread is there; an eviction by another thread marks the gap it is in. */
  predicate Stands(actual: Pc, pc: Pc) {
    actual == pc || (pc.Lock2? && actual.Lock2? && actual.i == pc.i && (pc.evicted ==> actual.evicted))
  }

  ghost predicate At(p: Pool, t: nat, pc: Pc) {
    Inv(p) && t < |p.pcs| && Stands(p.pcs[t], pc)
  }

  lemma OthersLeaveStanding(p: Pool, t: nat, pc: Pc, e: Event)
    requires t < |p.pcs| && Stands(p.pcs[t], pc) && e.t != t
    ensures t < |Step(p, e).pcs| && Stands(Step(p, e).pcs[t], pc)
  {
  }

  lemma StepElsewhere(p: Pool, t: nat, pc: Pc, e: Event)
    requires At(p, t, pc) && e.t != t
    ensures At(Step(p, e), t, pc) && |Step(p, e).slots| == |p.slots|
  {
    StepKeepsInv(p, e);
    StepKeepsSize(p, e);
    OthersLeaveStanding(p, t, pc, e);
  }

  lemma {:induction false} RunElsewhere(p: Pool, t: nat, pc: Pc, es: seq<Event>)
    requires At(p, t, pc) && OfOthers(es, t)
    ensures At(Exec(p, es), t, pc) && |Exec(p, es).slots| == |p.slots|
  {
    if es != [] {
      RunElsewhere(p, t, pc, es[..|es| - 1]);
      StepElsewhere(Exec(p, es[..|es| - 1]), t, pc, es[|es| - 1]);
    }
  }

  /** The step empties slot i. */
  ghost predicate Evicts(p: Pool, e: Event, i: nat) {
    InRange(p) && Enabled(p, e) && e.a.EvictLock? && p.pcs[e.t].i == i && Evictable(p.slots[i])
  }

  /** One of the steps of the run after the first n empties slot i. */
  ghost predicate EvictedSince(p: Pool, trace: seq<Event>, n: nat, i: nat) {
    exists k :: n <= k < |trace| && Evicts(Exec(p, trace[..k]), trace[k], i)
  }

  lemma StepLeavesGap(p: Pool, t: nat, i: nat, e: Event)
    requires t < |p.pcs| && p.pcs[t] == Lock2(i, false) && e.t != t && !Evicts(p, e, i)
    ensures t < |Step(p, e).pcs| && Step(p, e).pcs[t] == Lock2(i, false)
  {
  }

  /** Only an eviction of the slot marks the gap between the two locks. */
  lemma {:induction false} EvictedInGap(p: Pool, t: nat, i: nat, es: seq<Event>)
    requires t < |p.pcs| && p.pcs[t] == Lock2(i, false) && OfOthers(es, t) && !EvictedSince(p, es, 0, i)
    ensures t < |Exec(p, es).pcs| && Exec(p, es).pcs[t] == Lock2(i, false)
  {
    if es != [] {
      var n := |es| - 1;
      var before := es[..n];
      assert forall k :: 0 <= k < n ==> before[k] == es[k] && before[..k] == es[..k];
      EvictedInGap(p, t, i, before);
      assert !Evicts(Exec(p, es[..n]), es[n], i);
      StepLeavesGap(Exec(p, before), t, i, es[n]);
    }
  }

  /** An eviction in the last stretch of a run is one in the run. */
  lemma EvictedInRun(p: Pool, es: seq<Event>, fs: seq<Event>, i: nat)
    requires EvictedSince(Exec(p, es), fs, 0, i)
    ensures EvictedSince(p, es + fs, |es|, i)
  {
    var k :| 0 <= k < |fs| && Evicts(Exec(Exec(p, es), fs[..k]), fs[k], i);
    var all, n := es + fs, |es| + k;
    assert all[..n] == es + fs[..k] && all[n] == fs[k];
    ExecConcat(p, es, fs[..k]);
  }

  lemma EvictedEarlier(p: Pool, trace: seq<Event>, longer: seq<Event>, m: nat, n: nat, i: nat)
    requires m <= n && trace <= longer && EvictedSince(p, trace, n, i)
    ensures EvictedSince(p, longer, m, i)
  {
    var k :| n <= k < |trace| && Evicts(Exec(p, trace[..k]), trace[k], i);
    assert longer[..k] == trace[..k] && longer[k] == trace[k];
  }

  lemma {:induction false} ExecConcat(p: Pool, es: seq<Event>, fs: seq<Event>)
    ensures Exec(p, es + fs) == Exec(Exec(p, es), fs)
  {
    if fs == [] {
      assert es + fs == es;
    } else {
      assert (es + fs)[..|es + fs| - 1] == es + fs[..|fs| - 1];
      ExecConcat(p, es, fs[..|fs| - 1]);
    }
  }

  class SharedPool {
    var pool: Pool
    ghost var start: Pool
    ghost var trace: seq<Event>

    /** The state is that of the machine after the steps recorded so far. */
    ghost predicate Synced(t: nat, pc: Pc)
      reads this
    {
      At(pool, t, pc) && pool == Exec(start, trace)
    }

    constructor (p: Pool)
      ensures pool == p && start == p && trace == []
    {
      pool, start, trace := p, p, [];
    }

    /** The other threads take some steps. */
    method Pause(others: seq<Event>, t: nat, ghost pc: Pc)
      requires Synced(t, pc) && OfOthers(others, t)
      modifies this`pool, this`trace
      ensures Synced(t, pc) && trace == old(trace) + others && |pool.slots| == |old(pool).slots|
      ensures pool == Exec(old(pool), others)
    {
      RunElsewhere(pool, t, pc, others);
      ExecConcat(start, trace, others);
      pool := Exec(pool, others);
      trace := trace + others;
    }

    /** Thread t executes its next section on the shared slots. */
    method Do(t: nat, a: Action, ghost pc: Pc)
      requires Synced(t, pc) && Enabled(pool, Event(t, a))
      modifies this`pool, this`trace
      ensures pool == Next(old(pool), Event(t, a)) && pool == Exec(start, trace) && Inv(pool)
      ensures trace == old(trace) + [Event(t, a)] && |pool.pcs| == |old(pool).pcs| && |pool.slots| == |old(pool).slots|
    {
      ExecSnoc(start, trace, Event(t, a));
      StepKeepsInv(pool, Event(t, a));
      StepKeepsSize(pool, Event(t, a));
      pool := Step(pool, Event(t, a));
      trace := trace + [Event(t, a)];
    }

    /** The factory failed: clear the flag, without the lock. */
    method GiveUp(t: nat, i: nat, others: seq<Event>)
      requires Synced(t, Reinit(i)) && OfOthers(others, t)
      modifies this`pool, this`trace
      ensures old(trace) <= trace && |pool.slots| == |old(pool).slots| && Synced(t, Ready)
    {
      Do(t, FactoryErr, Reinit(i));
      Pause(others, t, Unclaim(i));
      Do(t, ClearBusy, Unclaim(i));
    }

    /** The factory succeeded: store the session and take it out. */
    method InstallNew(t: nat, i: nat, now: nat, others: seq<Event>) returns (item: nat)
      requires Synced(t, Reinit(i)) && OfOthers(others, t)
      modifies this`pool, this`trace
      ensures old(trace) <= trace && |pool.slots| == |old(pool).slots| && Synced(t, Holding(i, item))
    {
      item := pool.minted;
      Do(t, FactoryOk, Reinit(i));
      Pause(others, t, Install(i, item));
      Do(t, InstallLock(now), Install(i, item));
    }

    /** Re-create the session of a slot the thread has claimed. */
    method Reinitialize(t: nat, i: nat, now: nat, factoryOk: bool, others: (nat, nat) -> seq<Event>)
      returns (r: Outcome)
      requires Synced(t, Reinit(i)) && forall j, k :: OfOthers(others(j, k), t)
      modifies this`pool, this`trace
      ensures old(trace) <= trace && |pool.slots| == |old(pool).slots|
      ensures if factoryOk then r.Guard? && r.i == i && Synced(t, Holding(i, r.item))
              else r.ReinitFailed? && Synced(t, Ready)
    {
      Pause(others(i, 0), t, Reinit(i));
      if !factoryOk {
        GiveUp(t, i, others(i, 1));
        return ReinitFailed;
      }
      var item := InstallNew(t, i, now, others(i, 1));
      return Guard(i, item);
    }

    /** The second locked section on a slot that was seen occupied; `None` when
        another thread has it by now. */
    method TakeOccupied(t: nat, i: nat, now: nat) returns (r: Option<Outcome>)
      requires Synced(t, Lock2(i, false)) && i < |pool.slots|
      modifies this`pool, this`trace
      ensures old(trace) <= trace && |pool.slots| == |old(pool).slots|
      ensures match r
              case None => Synced(t, Scan(i + 1))
              case Some(Guard(k, item)) => k == i && Synced(t, Holding(i, item))
              case Some(Panic(k)) => k == i && Synced(t, Panicked(i)) && old(pool).pcs[t].evicted
              case Some(_) => false
    {
      var (second, _) := SecondSection(pool.slots[i], now);
      Do(t, SecondLock(now), Lock2(i, false));
      match second
      case SecondBusy => return None;
      case Took(item) => return Some(Guard(i, item));
      case Missing => return Some(Panic(i));
    }

    /** The unlocked look at a slot. */
    method Look(t: nat, i: nat) returns (busy: bool)
      requires Synced(t, Scan(i)) && i < |pool.slots|
      modifies this`pool, this`trace
      ensures old(trace) <= trace && |pool.slots| == |old(pool).slots|
      ensures Synced(t, if busy then Scan(i + 1) else Lock1(i))
    {
      busy := pool.slots[i].busy;
      Do(t, ReadBusy, Scan(i));
    }

    /** The first locked section. */
    method LockFirst(t: nat, i: nat) returns (first: First)
      requires Synced(t, Lock1(i)) && i < |pool.slots|
      modifies this`pool, this`trace
      ensures old(trace) <= trace && |pool.slots| == |old(pool).slots|
      ensures match first
              case FirstBusy => Synced(t, Scan(i + 1))
              case Claimed => Synced(t, Reinit(i))
              case Present => Synced(t, Lock2(i, false)) && pool.pcs[t] == Lock2(i, false)
    {
      var (r, _) := FirstSection(pool.slots[i]);
      first := r;
      Do(t, FirstLock, Lock1(i));
    }

    /** The gap after a slot was seen occupied, and the second locked section. */
    method CrossGap(t: nat, i: nat, now: nat, others: seq<Event>) returns (r: Option<Outcome>)
      requires Synced(t, Lock2(i, false)) && pool.pcs[t] == Lock2(i, false) && i < |pool.slots| && OfOthers(others, t)
      modifies this`pool, this`trace
      ensures old(trace) <= trace && |pool.slots| == |old(pool).slots|
      ensures if r.None? then Synced(t, Scan(i + 1)) else Ended(t, r.value)
      ensures r.Some? && r.value.Panic? ==> r.value.i == i && EvictedSince(start, trace, |old(trace)|, i)
    {
      ghost var before, early := pool, trace;
      Pause(others, t, Lock2(i, false));
      ghost var crossed := trace;
      if !EvictedSince(before, others, 0, i) {
        EvictedInGap(before, t, i, others);
      } else {
        EvictedInRun(start, early, others, i);
      }
      r := TakeOccupied(t, i, now);
      if r.Some? && r.value.Panic? {
        EvictedEarlier(start, crossed, trace, |early|, |early|, i);
      }
    }

    /** One slot of the scan; `None` when the thread moves on to the next. */
    method TrySlot(t: nat, i: nat, now: nat, factoryOk: bool, others: (nat, nat) -> seq<Event>)
      returns (r: Option<Outcome>)
      requires Synced(t, Scan(i)) && i < |pool.slots| && forall j, k :: OfOthers(others(j, k), t)
      modifies this`pool, this`trace
      ensures old(trace) <= trace && |pool.slots| == |old(pool).slots|
      ensures if r.None? then Synced(t, Scan(i + 1)) else Ended(t, r.value)
      ensures r.Some? && r.value.Panic? ==> EvictedSince(start, trace, |old(trace)|, r.value.i)
    {
      Pause(others(i, 4), t, Scan(i));
      var busy := Look(t, i);
      if busy { return None; }
      Pause(others(i, 2), t, Lock1(i));
      ghost var before := trace;
      r := LockSlot(t, i, now, factoryOk, others);
      if r.Some? && r.value.Panic? {
        EvictedEarlier(start, trace, trace, |old(trace)|, |before|, r.value.i);
      }
    }

    /** What follows when the slot did not look busy. */
    method LockSlot(t: nat, i: nat, now: nat, factoryOk: bool, others: (nat, nat) -> seq<Event>)
      returns (r: Option<Outcome>)
      requires Synced(t, Lock1(i)) && i < |pool.slots| && forall j, k :: OfOthers(others(j, k), t)
      modifies this`pool, this`trace
      ensures old(trace) <= trace && |pool.slots| == |old(pool).slots|
      ensures if r.None? then Synced(t, Scan(i + 1)) else Ended(t, r.value)
      ensures r.Some? && r.value.Panic? ==> EvictedSince(start, trace, |old(trace)|, r.value.i)
    {
      var first := LockFirst(t, i);
      match first
      case FirstBusy =>
        return None;
      case Claimed =>
        var outcome := Reinitialize(t, i, now, factoryOk, others);
        return Some(outcome);
      case Present =>
        r := CrossGap(t, i, now, others(i, 3));
    }

    /** The thread holds the slot's session, or is back, or is dead in its `expect`. */
    ghost predicate Ended(t: nat, r: Outcome)
      reads this
    {
      match r
      case Guard(i, item) => Synced(t, Holding(i, item))
      case AllBusy => Synced(t, Ready)
      case ReinitFailed => Synced(t, Ready)
      case Panic(i) => Synced(t, Panicked(i)) && pool.idleSecs > 0 && |pool.pcs| >= 2
    }

    /** The whole call: whatever the other threads do meanwhile, the thread ends up
        owning the session it returns, or owning nothing, or dead in its `expect`,
        and the last only if that very slot was evicted during the call. */
    method Acquire(t: nat, now: nat, factoryOk: bool, others: (nat, nat) -> seq<Event>) returns (r: Outcome)
      requires Synced(t, Ready) && forall j, k :: OfOthers(others(j, k), t)
      modifies this`pool, this`trace
      ensures old(trace) <= trace && Ended(t, r)
      ensures r.Panic? ==> EvictedSince(start, trace, |old(trace)|, r.i)
    {
      Do(t, BeginAcquire, Ready);
      var n := |pool.slots|;
      for i := 0 to n
        invariant Synced(t, Scan(i)) && |pool.slots| == n && old(trace) <= trace
      {
        ghost var before := trace;
        var outcome := TrySlot(t, i, now, factoryOk, others);
        if outcome.Some? {
          if outcome.value.Panic? {
            EvictedEarlier(start, trace, trace, |old(trace)|, |before|, outcome.value.i);
          }
          return outcome.value;
        }
      }
      Pause(others(n, 0), t, Scan(n));
      Do(t, ReadBusy, Scan(n));
      return AllBusy;
    }
  }
}
