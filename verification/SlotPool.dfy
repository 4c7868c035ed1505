/** The session pool as a machine of many threads. Each locked section and each
    unlocked read of a slot is one step; the steps of all threads interleave
    arbitrarily. A session is known by its serial number. */
module SlotPool {
  import opened Common

  datatype Slot = Slot(item: Option<nat>, busy: bool, lastUsed: nat)

  // ---- The sections executed under a slot's lock ----

  datatype First = FirstBusy | Claimed | Present

  /** Re-check `busy` and claim an empty slot for re-initialisation. */
  function FirstSection(slot: Slot): (First, Slot) {
    if slot.busy then (FirstBusy, slot)
    else if slot.item.None? then (Claimed, slot.(busy := true))
    else (Present, slot)
  }

  datatype Second = SecondBusy | Took(item: nat) | Missing

  /** Claim a slot seen occupied and take its session; `Missing` is where the
      code's `expect` fires. */
  function SecondSection(slot: Slot, now: nat): (Second, Slot) {
    if slot.busy then (SecondBusy, slot)
    else
      var claimed := Slot(None, true, now);
      (if slot.item.Some? then Took(slot.item.value) else Missing, claimed)
  }

  /** Store a re-created session and take it out for the guard. */
  function InstallSection(slot: Slot, item: nat, now: nat): (nat, Slot) {
    var stored := slot.(item := Some(item), lastUsed := now);
    (stored.item.value, stored.(item := None))
  }

  /** A guard returns its session. */
  function ReturnSection(slot: Slot, item: nat, now: nat): Slot {
    slot.(lastUsed := now, item := Some(item), busy := false)
  }

  predicate Evictable(slot: Slot) {
    slot.item.Some? && !slot.busy
  }

  predicate AgedOut(slot: Slot, now: nat, threshold: nat) {
    Max(0, now - slot.lastUsed) >= threshold
  }

  // ---- Threads ----

  /** Where a thread is. `Lock2` remembers, for the statement of the theorems
      only, whether the slot was evicted since its first locked section. */
  datatype Pc =
    | Ready
    | Scan(i: nat)
    | Lock1(i: nat)
    | Reinit(i: nat)
    | Unclaim(i: nat)
    | Install(i: nat, item: nat)
    | Lock2(i: nat, evicted: bool)
    | Holding(i: nat, item: nat)
    | Panicked(i: nat)
    | Sweep(i: nat)
    | SweepLock(i: nat)

  /** `owners` is history: the thread that claimed each busy slot. Sessions are
      numbered in the order they are made, `minted` of them so far. */
  datatype Pool = Pool(
    slots: seq<Slot>, pcs: seq<Pc>, idleSecs: nat,
    owners: seq<Option<nat>>, minted: nat, evictions: seq<nat>)

  datatype Action =
    | BeginAcquire | ReadBusy | FirstLock | FactoryOk | FactoryErr | ClearBusy
    | InstallLock(now: nat) | SecondLock(now: nat) | DropGuard(now: nat)
    | BeginEvict | ReadAge(now: nat, threshold: nat) | EvictLock

  datatype Event = Event(t: nat, a: Action)

  function FromItems(n: nat, threads: nat, idleSecs: nat, now: nat): Pool {
    Pool(seq(n, i requires 0 <= i < n => Slot(Some(i), false, now)), seq(threads, _ => Ready), idleSecs,
         seq(n, _ => None), n, [])
  }

  function MarkEvicted(pcs: seq<Pc>, i: nat): (marked: seq<Pc>)
    ensures |marked| == |pcs|
    ensures forall t :: 0 <= t < |pcs| ==>
              marked[t] == if pcs[t].Lock2? && pcs[t].i == i then Lock2(i, true) else pcs[t]
  {
    seq(|pcs|, t requires 0 <= t < |pcs| =>
      if pcs[t].Lock2? && pcs[t].i == i then Lock2(i, true) else pcs[t])
  }

  function Goto(p: Pool, t: nat, pc: Pc): Pool
    requires t < |p.pcs|
  {
    p.(pcs := p.pcs[t := pc])
  }

  predicate InRange(p: Pool) {
    |p.owners| == |p.slots| &&
    forall t :: 0 <= t < |p.pcs| ==>
      match p.pcs[t]
      case Ready => true
      case Scan(i) => i <= |p.slots|
      case Sweep(i) => i <= |p.slots|
      case Lock1(i) => i < |p.slots|
      case Reinit(i) => i < |p.slots|
      case Unclaim(i) => i < |p.slots|
      case Install(i, _) => i < |p.slots|
      case Lock2(i, _) => i < |p.slots|
      case Holding(i, _) => i < |p.slots|
      case Panicked(i) => i < |p.slots|
      case SweepLock(i) => i < |p.slots|
  }

  predicate Enabled(p: Pool, e: Event) {
    e.t < |p.pcs| &&
    var pc := p.pcs[e.t];
    match e.a
    case BeginAcquire => pc.Ready?
    case ReadBusy => pc.Scan?
    case FirstLock => pc.Lock1?
    case FactoryOk => pc.Reinit?
    case FactoryErr => pc.Reinit?
    case ClearBusy => pc.Unclaim?
    case InstallLock(_) => pc.Install?
    case SecondLock(_) => pc.Lock2?
    case DropGuard(_) => pc.Holding?
    case BeginEvict => pc.Ready?
    case ReadAge(_, _) => pc.Sweep?
    case EvictLock => pc.SweepLock?
  }

  /** Replace slot i and its owner. */
  function SetSlot(p: Pool, i: nat, slot: Slot, owner: Option<nat>): Pool
    requires i < |p.slots| && |p.owners| == |p.slots|
  {
    p.(slots := p.slots[i := slot], owners := p.owners[i := owner])
  }

  function Next(p: Pool, e: Event): Pool
    requires InRange(p) && Enabled(p, e)
  {
    var t, pc := e.t, p.pcs[e.t];
    match e.a
    case BeginAcquire => Goto(p, t, Scan(0))
    case ReadBusy =>
      // past the last slot: all busy
      if pc.i == |p.slots| then Goto(p, t, Ready)
      else if p.slots[pc.i].busy then Goto(p, t, Scan(pc.i + 1))
      else Goto(p, t, Lock1(pc.i))
    case FirstLock =>
      var (r, slot) := FirstSection(p.slots[pc.i]);
      (match r
       case FirstBusy => Goto(p, t, Scan(pc.i + 1))
       case Claimed => Goto(SetSlot(p, pc.i, slot, Some(t)), t, Reinit(pc.i))
       case Present => Goto(p, t, Lock2(pc.i, false)))
    case FactoryOk => Goto(p.(minted := p.minted + 1), t, Install(pc.i, p.minted))
    case FactoryErr => Goto(p, t, Unclaim(pc.i))
    case ClearBusy => Goto(SetSlot(p, pc.i, p.slots[pc.i].(busy := false), None), t, Ready)
    case InstallLock(now) =>
      var (item, slot) := InstallSection(p.slots[pc.i], pc.item, now);
      Goto(SetSlot(p, pc.i, slot, p.owners[pc.i]), t, Holding(pc.i, item))
    case SecondLock(now) =>
      var (r, slot) := SecondSection(p.slots[pc.i], now);
      (match r
       case SecondBusy => Goto(p, t, Scan(pc.i + 1))
       case Took(item) => Goto(SetSlot(p, pc.i, slot, Some(t)), t, Holding(pc.i, item))
       case Missing => Goto(SetSlot(p, pc.i, slot, Some(t)), t, Panicked(pc.i)))
    case DropGuard(now) =>
      Goto(SetSlot(p, pc.i, ReturnSection(p.slots[pc.i], pc.item, now), None), t, Ready)
    case BeginEvict => if p.idleSecs == 0 then p else Goto(p, t, Sweep(0))
    case ReadAge(now, threshold) =>
      if pc.i == |p.slots| then Goto(p, t, Ready)
      else if p.slots[pc.i].busy || !AgedOut(p.slots[pc.i], now, threshold) then Goto(p, t, Sweep(pc.i + 1))
      else Goto(p, t, SweepLock(pc.i))
    case EvictLock =>
      var slot := p.slots[pc.i];
      if Evictable(slot) then
        var p' := SetSlot(p, pc.i, slot.(item := None), p.owners[pc.i])
                  .(evictions := p.evictions + [slot.item.value], pcs := MarkEvicted(p.pcs, pc.i));
        Goto(p', t, Sweep(pc.i + 1))
      else Goto(p, t, Sweep(pc.i + 1))
  }

  /** A step that is not enabled leaves the pool as it is. */
  function Step(p: Pool, e: Event): Pool {
    if InRange(p) && Enabled(p, e) then Next(p, e) else p
  }

  function Exec(p: Pool, es: seq<Event>): Pool {
    if es == [] then p else Step(Exec(p, es[..|es| - 1]), es[|es| - 1])
  }

  // ---- What every reachable state satisfies ----

  /** A thread that has claimed slot i: its guard holder, the thread
      re-initialising it, or a thread that died claiming it. */
  predicate Owns(pc: Pc, i: nat) {
    match pc
    case Reinit(k) => k == i
    case Unclaim(k) => k == i
    case Install(k, _) => k == i
    case Holding(k, _) => k == i
    case Panicked(k) => k == i
    case _ => false
  }

  /** A slot is busy exactly while one thread owns it, and then it is empty. */
  ghost predicate Owned(p: Pool) {
    && InRange(p)
    && (forall i :: 0 <= i < |p.slots| ==>
          (p.slots[i].busy <==> p.owners[i].Some?) && (p.slots[i].busy ==> p.slots[i].item.None?))
    && (forall i :: 0 <= i < |p.slots| && p.owners[i].Some? ==>
          p.owners[i].value < |p.pcs| && Owns(p.pcs[p.owners[i].value], i))
    && (forall t, i :: 0 <= t < |p.pcs| && 0 <= i < |p.slots| && Owns(p.pcs[t], i) ==> p.owners[i] == Some(t))
  }

  /** A slot seen occupied and not evicted since is occupied, or held by a guard. */
  ghost predicate GapSafe(p: Pool)
    requires InRange(p) && Owned(p)
  {
    forall t :: 0 <= t < |p.pcs| && p.pcs[t].Lock2? && !p.pcs[t].evicted ==>
      var i := p.pcs[t].i;
      p.slots[i].item.Some? || (p.owners[i].Some? && p.pcs[p.owners[i].value].Holding?)
  }

  /** With eviction off, or a single thread, no gap is ever hit. */
  ghost predicate RaceFree(p: Pool) {
    p.idleSecs == 0 || |p.pcs| < 2 ==>
      forall t :: 0 <= t < |p.pcs| ==>
        && !p.pcs[t].Panicked? && !(p.pcs[t].Lock2? && p.pcs[t].evicted)
        && (p.idleSecs == 0 ==> !p.pcs[t].Sweep? && !p.pcs[t].SweepLock?)
  }

  function ItemWeight(item: Option<nat>, w: nat -> nat): nat {
    if item.Some? then w(item.value) else 0
  }

  function CarriedWeight(pc: Pc, w: nat -> nat): nat {
    if pc.Install? || pc.Holding? then w(pc.item) else 0
  }

  function Idle(slots: seq<Slot>, w: nat -> nat): nat {
    if slots == [] then 0 else ItemWeight(slots[0].item, w) + Idle(slots[1..], w)
  }

  function Carried(pcs: seq<Pc>, w: nat -> nat): nat {
    if pcs == [] then 0 else CarriedWeight(pcs[0], w) + Carried(pcs[1..], w)
  }

  function Evicted(log: seq<nat>, w: nat -> nat): nat {
    if log == [] then 0 else Evicted(log[..|log| - 1], w) + w(log[|log| - 1])
  }

  function Minted(n: nat, w: nat -> nat): nat {
    if n == 0 then 0 else Minted(n - 1, w) + w(n - 1)
  }

  /** However sessions are weighed, the idle ones, those held by a guard or in
      transit to one, and the evicted ones weigh as much as all ever made. */
  ghost predicate Balanced(p: Pool, w: nat -> nat) {
    Idle(p.slots, w) + Carried(p.pcs, w) + Evicted(p.evictions, w) == Minted(p.minted, w)
  }

  ghost predicate Conserved(p: Pool) {
    forall w: nat -> nat :: Balanced(p, w)
  }

  ghost predicate Inv(p: Pool) {
    Owned(p) && GapSafe(p) && RaceFree(p) && Conserved(p)
  }

  // ---- Preservation ----

  lemma {:induction false} IdleUpdate(slots: seq<Slot>, i: nat, slot: Slot, w: nat -> nat)
    requires i < |slots|
    ensures Idle(slots[i := slot], w) == Idle(slots, w) - ItemWeight(slots[i].item, w) + ItemWeight(slot.item, w)
  {
    if i == 0 {
      assert slots[0 := slot][1..] == slots[1..];
    } else {
      assert slots[i := slot][1..] == slots[1..][i - 1 := slot];
      IdleUpdate(slots[1..], i - 1, slot, w);
    }
  }

  lemma {:induction false} CarriedUpdate(pcs: seq<Pc>, t: nat, pc: Pc, w: nat -> nat)
    requires t < |pcs|
    ensures Carried(pcs[t := pc], w) == Carried(pcs, w) - CarriedWeight(pcs[t], w) + CarriedWeight(pc, w)
  {
    if t == 0 {
      assert pcs[0 := pc][1..] == pcs[1..];
    } else {
      assert pcs[t := pc][1..] == pcs[1..][t - 1 := pc];
      CarriedUpdate(pcs[1..], t - 1, pc, w);
    }
  }

  lemma {:induction false} CarriedMarked(pcs: seq<Pc>, i: nat, w: nat -> nat)
    ensures Carried(MarkEvicted(pcs, i), w) == Carried(pcs, w)
  {
    if pcs != [] {
      assert MarkEvicted(pcs, i)[1..] == MarkEvicted(pcs[1..], i);
      CarriedMarked(pcs[1..], i, w);
    }
  }

  lemma MoveConserves(p: Pool, t: nat, pc: Pc, w: nat -> nat)
    requires t < |p.pcs| && Balanced(p, w) && CarriedWeight(pc, w) == CarriedWeight(p.pcs[t], w)
    ensures Balanced(Goto(p, t, pc), w)
  {
    CarriedUpdate(p.pcs, t, pc, w);
  }

  lemma ClaimConserves(p: Pool, t: nat, i: nat, slot: Slot, owner: Option<nat>, pc: Pc, w: nat -> nat)
    requires InRange(p) && t < |p.pcs| && i < |p.slots| && Balanced(p, w)
    requires ItemWeight(slot.item, w) + CarriedWeight(pc, w) ==
            ItemWeight(p.slots[i].item, w) + CarriedWeight(p.pcs[t], w)
    ensures Balanced(Goto(SetSlot(p, i, slot, owner), t, pc), w)
  {
    CarriedUpdate(p.pcs, t, pc, w);
    IdleUpdate(p.slots, i, slot, w);
  }

  lemma EvictedSnoc(log: seq<nat>, item: nat, w: nat -> nat)
    ensures Evicted(log + [item], w) == Evicted(log, w) + w(item)
  {
    assert (log + [item])[..|log|] == log;
  }

  lemma MarkedUpdate(pcs: seq<Pc>, i: nat, t: nat, w: nat -> nat)
    requires t < |pcs| && pcs[t].SweepLock?
    ensures Carried(MarkEvicted(pcs, i)[t := Sweep(i + 1)], w) == Carried(pcs, w)
  {
    CarriedMarked(pcs, i, w);
    CarriedUpdate(MarkEvicted(pcs, i), t, Sweep(i + 1), w);
  }

  lemma EvictConserves(p: Pool, t: nat, w: nat -> nat)
    requires InRange(p) && Balanced(p, w) && t < |p.pcs| && p.pcs[t].SweepLock?
    ensures Balanced(Next(p, Event(t, EvictLock)), w)
  {
    var i := p.pcs[t].i;
    if Evictable(p.slots[i]) {
      IdleUpdate(p.slots, i, p.slots[i].(item := None), w);
      MarkedUpdate(p.pcs, i, t, w);
      EvictedSnoc(p.evictions, p.slots[i].item.value, w);
    } else {
      MoveConserves(p, t, Sweep(i + 1), w);
    }
  }

  lemma FirstConserves(p: Pool, t: nat, w: nat -> nat)
    requires InRange(p) && Balanced(p, w) && t < |p.pcs| && p.pcs[t].Lock1?
    ensures Balanced(Next(p, Event(t, FirstLock)), w)
  {
    var i := p.pcs[t].i;
    var (r, slot) := FirstSection(p.slots[i]);
    match r
    case FirstBusy => MoveConserves(p, t, Scan(i + 1), w);
    case Claimed => ClaimConserves(p, t, i, slot, Some(t), Reinit(i), w);
    case Present => MoveConserves(p, t, Lock2(i, false), w);
  }

  lemma SecondConserves(p: Pool, t: nat, now: nat, w: nat -> nat)
    requires InRange(p) && Balanced(p, w) && t < |p.pcs| && p.pcs[t].Lock2?
    ensures Balanced(Next(p, Event(t, SecondLock(now))), w)
  {
    var i := p.pcs[t].i;
    var (r, slot) := SecondSection(p.slots[i], now);
    match r
    case SecondBusy => MoveConserves(p, t, Scan(i + 1), w);
    case Took(item) => ClaimConserves(p, t, i, slot, Some(t), Holding(i, item), w);
    case Missing => ClaimConserves(p, t, i, slot, Some(t), Panicked(i), w);
  }

  /** Storing into a claimed slot never overwrites a session: it is empty. */
  lemma StoreConserves(p: Pool, e: Event, w: nat -> nat)
    requires Owned(p) && Balanced(p, w) && Enabled(p, e) && (e.a.InstallLock? || e.a.DropGuard?)
    ensures Balanced(Next(p, e), w)
  {
    var t, pc, i := e.t, p.pcs[e.t], p.pcs[e.t].i;
    assert Owns(pc, i);
    if e.a.InstallLock? {
      ClaimConserves(p, t, i, InstallSection(p.slots[i], pc.item, e.a.now).1, p.owners[i], Holding(i, pc.item), w);
    } else {
      ClaimConserves(p, t, i, ReturnSection(p.slots[i], pc.item, e.a.now), None, Ready, w);
    }
  }

  lemma StepConserves(p: Pool, e: Event, w: nat -> nat)
    requires Owned(p) && Balanced(p, w) && Enabled(p, e)
    ensures Balanced(Next(p, e), w)
  {
    var t, pc := e.t, p.pcs[e.t];
    match e.a
    case FirstLock => FirstConserves(p, t, w);
    case FactoryOk => CarriedUpdate(p.pcs, t, Install(pc.i, p.minted), w);
    case ClearBusy => ClaimConserves(p, t, pc.i, p.slots[pc.i].(busy := false), None, Ready, w);
    case InstallLock(now) => StoreConserves(p, e, w);
    case SecondLock(now) => SecondConserves(p, t, now, w);
    case DropGuard(now) => StoreConserves(p, e, w);
    case EvictLock => EvictConserves(p, t, w);
    case _ => OtherConserves(p, e, w);
  }

  lemma OtherConserves(p: Pool, e: Event, w: nat -> nat)
    requires Owned(p) && Balanced(p, w) && Enabled(p, e)
    requires e.a.BeginAcquire? || e.a.ReadBusy? || e.a.FactoryErr? || e.a.BeginEvict? || e.a.ReadAge?
    ensures Balanced(Next(p, e), w)
  {
    if !(e.a.BeginEvict? && p.idleSecs == 0) {
      MoveConserves(p, e.t, Next(p, e).pcs[e.t], w);
    }
  }

  /** A thread moves without touching a slot or what it owns. */
  lemma MoveOwned(p: Pool, t: nat, pc: Pc)
    requires Owned(p) && t < |p.pcs| && InRange(Goto(p, t, pc))
    requires forall i :: 0 <= i < |p.slots| ==> (Owns(pc, i) <==> Owns(p.pcs[t], i))
    ensures Owned(Goto(p, t, pc))
  {
  }

  /** A thread claims a free slot, or lets go of its own. */
  lemma ClaimOwned(p: Pool, t: nat, i: nat, slot: Slot, pc: Pc)
    requires Owned(p) && t < |p.pcs| && i < |p.slots|
    requires slot.busy ==> slot.item.None?
    requires if slot.busy then Owns(pc, i) && (!p.slots[i].busy || Owns(p.pcs[t], i)) else Owns(p.pcs[t], i)
    requires forall k :: 0 <= k < |p.slots| && k != i ==> !Owns(p.pcs[t], k) && !Owns(pc, k)
    requires !slot.busy ==> !Owns(pc, i)
    requires InRange(Goto(SetSlot(p, i, slot, if slot.busy then Some(t) else None), t, pc))
    ensures Owned(Goto(SetSlot(p, i, slot, if slot.busy then Some(t) else None), t, pc))
  {
    var p' := Goto(SetSlot(p, i, slot, if slot.busy then Some(t) else None), t, pc);
    forall k | 0 <= k < |p'.slots| && p'.owners[k].Some?
      ensures p'.owners[k].value < |p'.pcs| && Owns(p'.pcs[p'.owners[k].value], k)
    {
      if k != i {
        assert Owns(p.pcs[p.owners[k].value], k) && p.owners[k] != Some(t);
      }
    }
    forall u, k | 0 <= u < |p'.pcs| && 0 <= k < |p'.slots| && Owns(p'.pcs[u], k)
      ensures p'.owners[k] == Some(u)
    {
      if u != t {
        assert Owns(p.pcs[u], k) && p.owners[k] == Some(u);
      }
    }
  }

  lemma FirstOwned(p: Pool, t: nat)
    requires Owned(p) && t < |p.pcs| && p.pcs[t].Lock1?
    ensures Owned(Next(p, Event(t, FirstLock)))
  {
    var i := p.pcs[t].i;
    var (r, slot) := FirstSection(p.slots[i]);
    match r
    case FirstBusy => MoveOwned(p, t, Scan(i + 1));
    case Claimed => ClaimOwned(p, t, i, slot, Reinit(i));
    case Present => MoveOwned(p, t, Lock2(i, false));
  }

  lemma SecondOwned(p: Pool, t: nat, now: nat)
    requires Owned(p) && t < |p.pcs| && p.pcs[t].Lock2?
    ensures Owned(Next(p, Event(t, SecondLock(now))))
  {
    var i := p.pcs[t].i;
    var (r, slot) := SecondSection(p.slots[i], now);
    match r
    case SecondBusy => MoveOwned(p, t, Scan(i + 1));
    case Took(item) => ClaimOwned(p, t, i, slot, Holding(i, item));
    case Missing => ClaimOwned(p, t, i, slot, Panicked(i));
  }

  lemma StoreOwned(p: Pool, e: Event)
    requires Owned(p) && Enabled(p, e) && (e.a.InstallLock? || e.a.DropGuard? || e.a.ClearBusy?)
    ensures Owned(Next(p, e))
  {
    var t, pc, i := e.t, p.pcs[e.t], p.pcs[e.t].i;
    assert Owns(pc, i);
    match e.a
    case InstallLock(now) => ClaimOwned(p, t, i, InstallSection(p.slots[i], pc.item, now).1, Holding(i, pc.item));
    case DropGuard(now) => ClaimOwned(p, t, i, ReturnSection(p.slots[i], pc.item, now), Ready);
    case ClearBusy => ClaimOwned(p, t, i, p.slots[i].(busy := false), Ready);
  }

  lemma StepOwned(p: Pool, e: Event)
    requires Owned(p) && Enabled(p, e)
    ensures Owned(Next(p, e))
  {
    var t, pc := e.t, p.pcs[e.t];
    match e.a
    case FirstLock => FirstOwned(p, t);
    case ClearBusy => StoreOwned(p, e);
    case InstallLock(now) => StoreOwned(p, e);
    case SecondLock(now) => SecondOwned(p, t, now);
    case DropGuard(now) => StoreOwned(p, e);
    case EvictLock => EvictOwned(p, t);
    case FactoryOk => MoveOwned(p.(minted := p.minted + 1), t, Install(pc.i, p.minted));
    case BeginEvict =>
      if p.idleSecs != 0 {
        MoveOwned(p, t, Sweep(0));
      }
    case _ => MoveOwned(p, t, Next(p, e).pcs[t]);
  }

  lemma EvictOwned(p: Pool, t: nat)
    requires Owned(p) && t < |p.pcs| && p.pcs[t].SweepLock?
    ensures Owned(Next(p, Event(t, EvictLock)))
  {
    var i := p.pcs[t].i;
    if Evictable(p.slots[i]) {
      var p' := Next(p, Event(t, EvictLock));
      assert forall u :: 0 <= u < |p.pcs| && u != t ==> forall k :: Owns(p'.pcs[u], k) <==> Owns(p.pcs[u], k);
    } else {
      MoveOwned(p, t, Sweep(i + 1));
    }
  }

  /** A thread that moves without leaving `Holding` or entering `Lock2` unseen. */
  lemma MoveGap(p: Pool, p': Pool, t: nat)
    requires Owned(p) && GapSafe(p) && Owned(p') && t < |p.pcs|
    requires p'.slots == p.slots && p'.owners == p.owners && |p'.pcs| == |p.pcs|
    requires forall u :: 0 <= u < |p.pcs| && u != t ==> p'.pcs[u] == p.pcs[u]
    requires p.pcs[t].Holding? ==> p'.pcs[t].Holding?
    requires p'.pcs[t].Lock2? ==> p.slots[p'.pcs[t].i].item.Some?
    ensures GapSafe(p')
  {
  }

  lemma StepGap(p: Pool, e: Event)
    requires Owned(p) && GapSafe(p) && Enabled(p, e) && Owned(Next(p, e))
    ensures GapSafe(Next(p, e))
  {
    var p' := Next(p, e);
    if p'.slots == p.slots && p'.owners == p.owners {
      MoveGap(p, p', e.t);
    } else {
      SlotGap(p, e);
    }
  }

  lemma SlotGap(p: Pool, e: Event)
    requires Owned(p) && GapSafe(p) && Enabled(p, e) && Owned(Next(p, e))
    requires e.a.FirstLock? || e.a.ClearBusy? || e.a.InstallLock? || e.a.SecondLock? || e.a.DropGuard? || e.a.EvictLock?
    requires Next(p, e).slots != p.slots || Next(p, e).owners != p.owners
    ensures GapSafe(Next(p, e))
  {
    var p', t, i := Next(p, e), e.t, p.pcs[e.t].i;
    forall u | 0 <= u < |p'.pcs| && p'.pcs[u].Lock2? && !p'.pcs[u].evicted
      ensures var k := p'.pcs[u].i;
              p'.slots[k].item.Some? || (p'.owners[k].Some? && p'.pcs[p'.owners[k].value].Holding?)
    {
      assert u != t && p.pcs[u] == p'.pcs[u];
      if p'.pcs[u].i == i {
        assert Owns(p.pcs[t], i) ==> p.owners[i] == Some(t);
      } else {
        assert !Owns(p.pcs[t], p.pcs[u].i);
      }
    }
  }

  lemma StepRaceFree(p: Pool, e: Event)
    requires Owned(p) && GapSafe(p) && RaceFree(p) && Enabled(p, e)
    ensures RaceFree(Next(p, e))
  {
  }

  lemma {:induction false} StepKeepsInv(p: Pool, e: Event)
    requires Inv(p)
    ensures Inv(Step(p, e))
  {
    if Enabled(p, e) {
      StepOwned(p, e);
      StepGap(p, e);
      StepRaceFree(p, e);
      forall w: nat -> nat
        ensures Balanced(Next(p, e), w)
      {
        StepConserves(p, e, w);
      }
    }
  }
}
