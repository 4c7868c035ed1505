/** The pool's operations run to completion by one thread, over slots updated in
    place. They are built from the same locked sections as the machine. */
module EvictablePool {
  import opened Common
  import opened SlotPool

  datatype Acquired = Guard(i: nat, item: nat) | AllBusy | ReinitFailed(message: string)

  /** Index of the first slot that is not busy, or the number of slots. */
  function FirstFree(slots: seq<Slot>): (i: nat)
    ensures i <= |slots|
    ensures forall k :: 0 <= k < i ==> slots[k].busy
    ensures i < |slots| ==> !slots[i].busy
  {
    if slots == [] || !slots[0].busy then 0 else 1 + FirstFree(slots[1..])
  }

  predicate EvictedBy(slot: Slot, now: nat, threshold: nat) {
    Evictable(slot) && AgedOut(slot, now, threshold)
  }

  function AfterSweep(slot: Slot, now: nat, threshold: nat): Slot {
    if EvictedBy(slot, now, threshold) then slot.(item := None) else slot
  }

  function CountEvicted(slots: seq<Slot>, now: nat, threshold: nat): nat {
    if slots == [] then 0
    else (if EvictedBy(slots[0], now, threshold) then 1 else 0) + CountEvicted(slots[1..], now, threshold)
  }

  /** The slot holds a session nobody uses and was last used at least `threshold`
      seconds ago. */
  ghost predicate Expired(slot: Slot, now: nat, threshold: nat) {
    slot.item.Some? && !slot.busy && (now >= slot.lastUsed + threshold || threshold == 0)
  }

  /** The indices of the expired slots. */
  ghost function ExpiredSlots(slots: seq<Slot>, now: nat, threshold: nat): set<nat> {
    set k: nat | k < |slots| && Expired(slots[k], now, threshold)
  }

  lemma EvictsExpired(slot: Slot, now: nat, threshold: nat)
    ensures EvictedBy(slot, now, threshold) <==> Expired(slot, now, threshold)
  {
  }

  /** The count is the number of expired slots. */
  lemma {:induction false} CountIsExpired(slots: seq<Slot>, now: nat, threshold: nat)
    ensures CountEvicted(slots, now, threshold) == |ExpiredSlots(slots, now, threshold)|
  {
    if slots != [] {
      var n, front := |slots| - 1, slots[..|slots| - 1];
      CountIsExpired(front, now, threshold);
      CountSnoc(front, slots[n], now, threshold);
      assert slots == front + [slots[n]];
      EvictsExpired(slots[n], now, threshold);
      ExpiredSnoc(front, slots[n], now, threshold);
    }
  }

  lemma ExpiredSnoc(front: seq<Slot>, slot: Slot, now: nat, threshold: nat)
    ensures |ExpiredSlots(front + [slot], now, threshold)| ==
            |ExpiredSlots(front, now, threshold)| + if Expired(slot, now, threshold) then 1 else 0
  {
    var n, slots, before := |front|, front + [slot], ExpiredSlots(front, now, threshold);
    assert forall k: nat :: k < n ==> slots[k] == front[k];
    assert n !in before;
    assert ExpiredSlots(slots, now, threshold) == before + if Expired(slot, now, threshold) then {n} else {};
  }

  lemma {:induction false} CountSnoc(slots: seq<Slot>, slot: Slot, now: nat, threshold: nat)
    ensures CountEvicted(slots + [slot], now, threshold) ==
            CountEvicted(slots, now, threshold) + if EvictedBy(slot, now, threshold) then 1 else 0
  {
    if slots == [] {
      assert slots + [slot] == [slot] && [slot][1..] == [];
    } else {
      assert (slots + [slot])[1..] == slots[1..] + [slot];
      CountSnoc(slots[1..], slot, now, threshold);
    }
  }

  class EvictablePool {
    const slots: array<Slot>
    const idleSecs: nat

    constructor FromItems(items: seq<nat>, idleSecs: nat, now: nat)
      ensures this.idleSecs == idleSecs && fresh(slots)
      ensures slots[..] == seq(|items|, i requires 0 <= i < |items| => Slot(Some(items[i]), false, now))
    {
      this.idleSecs := idleSecs;
      slots := new Slot[|items|](i requires 0 <= i < |items| => Slot(Some(items[i]), false, now));
    }

    /** Take the first free slot; an evicted one is re-created by the factory,
        whose failure leaves the pool as it was. */
    method Acquire(now: nat, factory: Result<nat>) returns (r: Acquired)
      modifies slots
      ensures var before, i := old(slots[..]), FirstFree(old(slots[..]));
              match r
              case AllBusy => i == |before| && slots[..] == before
              case ReinitFailed(e) => i < |before| && before[i].item.None? && factory == Err(e) && slots[..] == before
              case Guard(k, item) =>
                k == i < |before| &&
                (before[i].item == Some(item) || (before[i].item.None? && factory == Ok(item))) &&
                slots[..] == before[i := Slot(None, true, now)]
    {
      for i := 0 to slots.Length
        invariant slots[..] == old(slots[..])
        invariant forall k :: 0 <= k < i ==> slots[k].busy
      {
        if slots[i].busy { continue; }
        ghost var before := slots[..];
        assert FirstFree(before) == i;
        var (first, claimed) := FirstSection(slots[i]);
        if first == Claimed {
          slots[i] := claimed;
          if factory.Err? {
            slots[i] := slots[i].(busy := false);
            assert slots[..] == before;
            return ReinitFailed(factory.message);
          }
          var (item, installed) := InstallSection(slots[i], factory.value, now);
          slots[i] := installed;
          return Guard(i, item);
        }
        var (second, taken) := SecondSection(slots[i], now);
        slots[i] := taken;
        return Guard(i, second.item);
      }
      assert FirstFree(slots[..]) == slots.Length;
      return AllBusy;
    }

    /** Dropping a guard puts its session back and frees the slot. */
    method Release(i: nat, item: nat, now: nat)
      requires i < slots.Length
      modifies slots
      ensures slots[..] == old(slots[..])[i := Slot(Some(item), false, now)]
    {
      slots[i] := ReturnSection(slots[i], item, now);
    }

    /** Empty every slot that is idle long enough and count them; do nothing when
        eviction is off. */
    method EvictIdle(now: nat, threshold: nat) returns (count: nat)
      modifies slots
      ensures idleSecs == 0 ==> count == 0 && slots[..] == old(slots[..])
      ensures idleSecs != 0 ==>
                count == |ExpiredSlots(old(slots[..]), now, threshold)| &&
                forall k :: 0 <= k < slots.Length ==>
                  slots[k] == if Expired(old(slots[k]), now, threshold) then old(slots[k]).(item := None)
                              else old(slots[k])
    {
      count := 0;
      if idleSecs == 0 { return; }
      for i := 0 to slots.Length
        invariant count + CountEvicted(old(slots[..])[i..], now, threshold) ==
                  CountEvicted(old(slots[..]), now, threshold)
        invariant forall k :: 0 <= k < i ==> slots[k] == AfterSweep(old(slots[k]), now, threshold)
        invariant forall k :: i <= k < slots.Length ==> slots[k] == old(slots[k])
      {
        assert old(slots[..])[i..][1..] == old(slots[..])[i + 1..];
        if slots[i].busy { continue; }
        if AgedOut(slots[i], now, threshold) && Evictable(slots[i]) {
          slots[i] := slots[i].(item := None);
          count := count + 1;
        }
      }
      assert old(slots[..])[slots.Length..] == [];
      CountIsExpired(old(slots[..]), now, threshold);
    }
  }

  /** A thread that acquires and then drops its guard leaves every other slot
      untouched and its own free again with a session in it. */
  method AcquireThenRelease(pool: EvictablePool, now: nat, later: nat, factory: Result<nat>) returns (r: Acquired)
    modifies pool.slots
    ensures var before := old(pool.slots[..]);
            if r.Guard? then
              r.i < |before| && !before[r.i].busy && pool.slots[..] == before[r.i := Slot(Some(r.item), false, later)]
            else pool.slots[..] == before
  {
    r := pool.Acquire(now, factory);
    if r.Guard? {
      pool.Release(r.i, r.item, later);
    }
  }
}
