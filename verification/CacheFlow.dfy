/** The response cache in front of the embedding backend: probe, deduplicate the
    misses, embed them, scatter. */
module CacheFlow {
  import opened Common

  datatype InputType = Document | Query

  const QUERY_SUFFIX := ":query"

  function CacheModelKey(model: string, kind: InputType): string {
    match kind
    case Document => model
    case Query => model + QUERY_SUFFIX
  }

  // ---- Key separation ----

  lemma SuffixInjective(a: string, b: string)
    requires a + QUERY_SUFFIX == b + QUERY_SUFFIX
    ensures a == b
  {
    assert |a| == |b|;
    assert (a + QUERY_SUFFIX)[..|a|] == a && (b + QUERY_SUFFIX)[..|b|] == b;
  }

  /** Two keys coincide exactly when model and kind do, or one model is named like
      the query key of the other. */
  lemma KeyCollisions(a: string, ka: InputType, b: string, kb: InputType)
    ensures CacheModelKey(a, ka) == CacheModelKey(b, kb) <==>
            || (a == b && ka == kb)
            || (ka == Document && kb == Query && a == b + ":query")
            || (ka == Query && kb == Document && b == a + ":query")
  {
    if ka == Query && kb == Query && CacheModelKey(a, ka) == CacheModelKey(b, kb) {
      SuffixInjective(a, b);
    }
    assert |a + QUERY_SUFFIX| == |a| + 6 && |b + QUERY_SUFFIX| == |b| + 6;
  }

  ghost predicate Separated(names: set<string>) {
    forall a, ka, b, kb :: a in names && b in names && CacheModelKey(a, ka) == CacheModelKey(b, kb) ==>
      a == b && ka == kb
  }

  /** The configured models are kept apart exactly when none is named like another
      one's query key. */
  lemma SeparatedExactly(names: set<string>)
    ensures Separated(names) <==> forall a, b :: a in names && b in names ==> a != b + QUERY_SUFFIX
  {
    if Separated(names) {
      forall a, b | a in names && b in names
        ensures a != b + QUERY_SUFFIX
      {
        assert CacheModelKey(a, Document) == a && CacheModelKey(b, Query) == b + QUERY_SUFFIX;
      }
    }
    if forall a, b :: a in names && b in names ==> a != b + QUERY_SUFFIX {
      forall a, ka, b, kb | a in names && b in names && CacheModelKey(a, ka) == CacheModelKey(b, kb)
        ensures a == b && ka == kb
      {
        KeyCollisions(a, ka, b, kb);
      }
    }
  }

  /** The part of a model entry before its first colon. */
  function FirstField(entry: string): string {
    if entry == [] || entry[0] == ':' then [] else [entry[0]] + FirstField(entry[1..])
  }

  lemma {:induction false} FirstFieldHasNoColon(entry: string)
    ensures ':' !in FirstField(entry) && FirstField(entry) <= entry
    ensures |FirstField(entry)| < |entry| ==> entry[|FirstField(entry)|] == ':'
  {
    if entry != [] && entry[0] != ':' {
      FirstFieldHasNoColon(entry[1..]);
    }
  }

  /** Names read from colon-separated entries are always kept apart. */
  lemma ConfiguredNamesSeparated(entries: set<string>)
    ensures Separated(set e | e in entries :: FirstField(e))
  {
    var names := set e | e in entries :: FirstField(e);
    forall a, b | a in names && b in names
      ensures a != b + QUERY_SUFFIX
    {
      var e :| e in entries && a == FirstField(e);
      FirstFieldHasNoColon(e);
      assert (b + QUERY_SUFFIX)[|b|] == ':';
    }
    SeparatedExactly(names);
  }

  // ---- The cache ----

  /** The configured models and what the backend computes for a text. */
  datatype World<!V> = World(names: set<string>, embed: (string, InputType, string) -> V)

  type Digest = int
  type Store<V> = map<(string, Digest), V>

  /** What other requests and the background eviction do between two operations. */
  datatype Action<V> = Evict(model: string, digest: Digest) | Put(name: string, kind: InputType, text: string, v: V)

  /** Every entry is the direct embedding of every text it may be served for. */
  ghost predicate SoundStore<V>(store: Store<V>, hash: string -> Digest, w: World<V>) {
    forall name, kind, text ::
      name in w.names && (CacheModelKey(name, kind), hash(text)) in store ==>
        store[(CacheModelKey(name, kind), hash(text))] == w.embed(name, kind, text)
  }

  ghost predicate SoundAction<V>(a: Action<V>, w: World<V>) {
    a.Put? ==> a.name in w.names && a.v == w.embed(a.name, a.kind, a.text)
  }

  ghost predicate SoundActions<V>(actions: seq<Action<V>>, w: World<V>) {
    forall i :: 0 <= i < |actions| ==> SoundAction(actions[i], w)
  }

  ghost predicate Injective(hash: string -> Digest) {
    forall s, t :: hash(s) == hash(t) ==> s == t
  }

  lemma InsertKeepsSound<V>(store: Store<V>, hash: string -> Digest, w: World<V>, name: string, kind: InputType,
                            text: string)
    requires SoundStore(store, hash, w) && Separated(w.names) && Injective(hash) && name in w.names
    ensures SoundStore(store[(CacheModelKey(name, kind), hash(text)) := w.embed(name, kind, text)], hash, w)
  {
    var key := (CacheModelKey(name, kind), hash(text));
    var store' := store[key := w.embed(name, kind, text)];
    forall n, k, t | n in w.names && (CacheModelKey(n, k), hash(t)) in store'
      ensures store'[(CacheModelKey(n, k), hash(t))] == w.embed(n, k, t)
    {
      if (CacheModelKey(n, k), hash(t)) == key {
        assert n == name && k == kind && t == text;
      }
    }
  }

  // ---- What is in the store, step by step ----

  /** The store after one thing another request or the eviction did. */
  function Applied<V>(store: Store<V>, a: Action<V>, hash: string -> Digest, enabled: bool): Store<V> {
    match a
    case Evict(model, digest) => store - {(model, digest)}
    case Put(name, kind, text, v) => if enabled then store[(CacheModelKey(name, kind), hash(text)) := v] else store
  }

  function After<V>(store: Store<V>, actions: seq<Action<V>>, hash: string -> Digest, enabled: bool): Store<V> {
    if actions == [] then store
    else
      var n := |actions| - 1;
      Applied(After(store, actions[..n], hash, enabled), actions[n], hash, enabled)
  }

  /** An evicted entry is gone, an inserted one is there if the cache is enabled,
      and every other entry stays. */
  lemma AppliedExactly<V>(store: Store<V>, a: Action<V>, hash: string -> Digest, enabled: bool, key: (string, Digest))
    ensures var after := Applied(store, a, hash, enabled);
            if a.Evict? && key == (a.model, a.digest) then key !in after
            else if a.Put? && enabled && key == (CacheModelKey(a.name, a.kind), hash(a.text))
            then key in after && after[key] == a.v
            else (key in after <==> key in store) && (key in after ==> after[key] == store[key])
  {
  }

  /** The store at the k-th probe, with the scheduled actions before each. */
  ghost function AtProbe<V>(
    store: Store<V>, schedule: nat -> seq<Action<V>>, hash: string -> Digest, enabled: bool, k: nat): Store<V>
  {
    After(if k == 0 then store else AtProbe(store, schedule, hash, enabled, k - 1), schedule(k), hash, enabled)
  }

  /** The store after the first k inserts of the handler, with actions before each. */
  ghost function AfterInserts<V>(store: Store<V>, schedule: nat -> seq<Action<V>>, hash: string -> Digest,
                                 enabled: bool, model: string, texts: seq<string>, vectors: seq<V>, k: nat): Store<V>
    requires k <= |texts| && k <= |vectors|
  {
    if k == 0 then store
    else
      var before := AfterInserts(store, schedule, hash, enabled, model, texts, vectors, k - 1);
      var seen := After(before, schedule(k - 1), hash, enabled);
      if enabled then seen[(model, hash(texts[k - 1])) := vectors[k - 1]] else seen
  }

  /** Without interference the store keeps what it had and gains every insert. */
  lemma {:induction false} QuietInserts<V>(store: Store<V>, schedule: nat -> seq<Action<V>>, hash: string -> Digest,
                                           model: string, texts: seq<string>, vectors: seq<V>, k: nat)
    requires k <= |texts| && k <= |vectors| && forall j :: schedule(j) == []
    ensures var all := AfterInserts(store, schedule, hash, true, model, texts, vectors, k);
            && (forall key :: key in store ==> key in all)
            && (forall j :: 0 <= j < k ==> (model, hash(texts[j])) in all)
  {
    if k > 0 {
      QuietInserts(store, schedule, hash, model, texts, vectors, k - 1);
    }
  }

  lemma {:induction false} QuietProbes<V>(store: Store<V>, schedule: nat -> seq<Action<V>>, hash: string -> Digest,
                                          enabled: bool, k: nat)
    requires forall j :: schedule(j) == []
    ensures AtProbe(store, schedule, hash, enabled, k) == store
  {
    if k > 0 {
      QuietProbes(store, schedule, hash, enabled, k - 1);
    }
  }

  class EmbeddingCache<V> {
    const enabled: bool
    const hash: string -> Digest
    var store: Store<V>

    ghost predicate Sound(w: World<V>)
      reads this
    {
      (!enabled ==> store == map[]) && SoundStore(store, hash, w)
    }

    constructor (maxEntries: nat, hash: string -> Digest)
      ensures enabled == (maxEntries > 0) && this.hash == hash && store == map[]
    {
      this.enabled := maxEntries > 0;
      this.hash := hash;
      store := map[];
    }

    function Get(model: string, text: string): Option<V>
      reads this
    {
      if enabled && (model, hash(text)) in store then Some(store[(model, hash(text))]) else None
    }

    /** On a sound cache a hit is the direct embedding of the text asked for. */
    lemma HitIsDirect(w: World<V>, name: string, kind: InputType, text: string)
      requires Sound(w) && name in w.names && Get(CacheModelKey(name, kind), text).Some?
      ensures Get(CacheModelKey(name, kind), text) == Some(w.embed(name, kind, text))
    {
    }

    /** Store the vector: the next look-up of the text finds it, if the cache is
        enabled, and every other look-up finds what it did. */
    method Insert(model: string, text: string, v: V)
      modifies this`store
      ensures store == if enabled then old(store)[(model, hash(text)) := v] else old(store)
      ensures Get(model, text) == if enabled then Some(v) else None
      ensures forall m, t :: (m, hash(t)) != (model, hash(text)) ==> Get(m, t) == old(Get(m, t))
    {
      if enabled {
        store := store[(model, hash(text)) := v];
      }
    }

    /** Other requests insert what they computed, and entries are evicted. */
    method Interfere(actions: seq<Action<V>>, ghost w: World<V>)
      requires Sound(w) && SoundActions(actions, w) && Separated(w.names) && Injective(hash)
      modifies this`store
      ensures Sound(w) && store == After(old(store), actions, hash, enabled)
    {
      for i := 0 to |actions|
        invariant Sound(w) && store == After(old(store), actions[..i], hash, enabled)
      {
        var a := actions[i];
        assert actions[..i + 1][..i] == actions[..i];
        match a {
          case Evict(model, digest) =>
            store := store - {(model, digest)};
          case Put(name, kind, text, v) =>
            assert SoundAction(a, w);
            InsertKeepsSound(store, hash, w, name, kind, text);
            Insert(CacheModelKey(name, kind), text, v);
        }
      }
      assert actions[..|actions|] == actions;
    }
  }

  // ---- The partition pass ----

  /** The missed positions below n that hold a text, in order. */
  function Misses<V>(texts: seq<string>, cached: seq<Option<V>>, text: string, n: nat): (r: seq<nat>)
    requires n <= |texts| && n <= |cached|
    ensures forall i :: i in r <==> 0 <= i < n && texts[i] == text && cached[i].None?
    ensures forall j, k :: 0 <= j < k < |r| ==> r[j] < r[k]
  {
    if n == 0 then []
    else
      var before := Misses(texts, cached, text, n - 1);
      assert forall j :: 0 <= j < |before| ==> before[j] in before;
      if texts[n - 1] == text && cached[n - 1].None? then before + [n - 1] else before
  }

  /** The first n positions are split into hits and pending misses. */
  ghost predicate Partitioned<V>(texts: seq<string>, cached: seq<Option<V>>, pending: map<string, seq<nat>>, n: nat) {
    n <= |texts| && |cached| == |texts| && forall t :: ListsMisses(texts, cached, pending, n, t)
  }

  /** A text is pending exactly if it was missed somewhere, with those positions. */
  ghost predicate ListsMisses<V>(texts: seq<string>, cached: seq<Option<V>>, pending: map<string, seq<nat>>, n: nat,
                                 t: string)
    requires n <= |texts| && |cached| == |texts|
  {
    && (t in pending <==> Misses(texts, cached, t, n) != [])
    && (t in pending ==> pending[t] == Misses(texts, cached, t, n))
  }

  ghost predicate HitsAreDirect<V>(texts: seq<string>, cached: seq<Option<V>>, name: string, kind: InputType,
                                   w: World<V>) {
    |cached| == |texts| &&
    forall i :: 0 <= i < |texts| && cached[i].Some? ==> cached[i].value == w.embed(name, kind, texts[i])
  }

  /** Each index is a hit, or is in exactly one pending list and once in it. */
  lemma HitXorPending<V>(texts: seq<string>, cached: seq<Option<V>>, pending: map<string, seq<nat>>, i: nat)
    requires Partitioned(texts, cached, pending, |texts|) && i < |texts|
    ensures cached[i].Some? ==> forall t :: t in pending ==> i !in pending[t]
    ensures cached[i].None? ==> texts[i] in pending && forall t :: t in pending ==> (i in pending[t] <==> t == texts[i])
    ensures forall t :: t in pending ==> forall j, k :: 0 <= j < k < |pending[t]| ==> pending[t][j] != pending[t][k]
  {
    assert ListsMisses(texts, cached, pending, |texts|, texts[i]);
    if cached[i].None? {
      assert i in Misses(texts, cached, texts[i], |texts|);
    }
    forall t | t in pending
      ensures pending[t] == Misses(texts, cached, t, |texts|)
    {
      assert ListsMisses(texts, cached, pending, |texts|, t);
    }
  }

  lemma {:induction false} MissesUnaffected<V>(texts: seq<string>, a: seq<Option<V>>, b: seq<Option<V>>,
                                               text: string, n: nat)
    requires n <= |texts| && n <= |a| && n <= |b| && a[..n] == b[..n]
    ensures Misses(texts, a, text, n) == Misses(texts, b, text, n)
  {
    if n > 0 {
      assert a[..n - 1] == a[..n][..n - 1] && b[..n - 1] == b[..n][..n - 1];
      assert a[n - 1] == a[..n][n - 1] && b[n - 1] == b[..n][n - 1];
      MissesUnaffected(texts, a, b, text, n - 1);
    }
  }

  /** The next text is a hit. */
  lemma PartitionHit<V>(texts: seq<string>, cached: seq<Option<V>>, pending: map<string, seq<nat>>, n: nat, v: V)
    requires Partitioned(texts, cached, pending, n) && n < |texts|
    ensures Partitioned(texts, cached[n := Some(v)], pending, n + 1)
  {
    var cached', n' := cached[n := Some(v)], n + 1;
    forall t
      ensures ListsMisses(texts, cached', pending, n', t)
    {
      MissesUnaffected(texts, cached, cached', t, n);
      assert ListsMisses(texts, cached, pending, n, t);
    }
  }

  function AddPosition(pending: map<string, seq<nat>>, text: string, i: nat): map<string, seq<nat>> {
    pending[text := (if text in pending then pending[text] else []) + [i]]
  }

  /** The next text is a miss. */
  lemma PartitionMiss<V>(texts: seq<string>, cached: seq<Option<V>>, pending: map<string, seq<nat>>, n: nat)
    requires Partitioned(texts, cached, pending, n) && n < |texts| && cached[n].None?
    ensures Partitioned(texts, cached, AddPosition(pending, texts[n], n), n + 1)
  {
    var pending', n' := AddPosition(pending, texts[n], n), n + 1;
    forall t
      ensures ListsMisses(texts, cached, pending', n', t)
    {
      assert ListsMisses(texts, cached, pending, n, t);
    }
  }

  /** The first n texts were probed, and every hit is a direct embedding. */
  ghost predicate Probed<V>(texts: seq<string>, cached: seq<Option<V>>, pending: map<string, seq<nat>>, n: nat,
                            name: string, kind: InputType, w: World<V>) {
    && Partitioned(texts, cached, pending, n) && HitsAreDirect(texts, cached, name, kind, w)
    && forall j :: n <= j < |texts| ==> cached[j].None?
  }

  lemma ProbedHit<V>(texts: seq<string>, cached: seq<Option<V>>, pending: map<string, seq<nat>>, n: nat,
                     name: string, kind: InputType, w: World<V>)
    requires Probed(texts, cached, pending, n, name, kind, w) && n < |texts|
    ensures Probed(texts, cached[n := Some(w.embed(name, kind, texts[n]))], pending, n + 1, name, kind, w)
  {
    PartitionHit(texts, cached, pending, n, w.embed(name, kind, texts[n]));
  }

  lemma ProbedMiss<V>(texts: seq<string>, cached: seq<Option<V>>, pending: map<string, seq<nat>>, n: nat,
                      name: string, kind: InputType, w: World<V>)
    requires Probed(texts, cached, pending, n, name, kind, w) && n < |texts|
    ensures Probed(texts, cached, AddPosition(pending, texts[n], n), n + 1, name, kind, w)
  {
    PartitionMiss(texts, cached, pending, n);
  }

  /** The key of a text is in the store at the i-th probe. */
  ghost predicate Found<V>(store: Store<V>, schedule: nat -> seq<Action<V>>, hash: string -> Digest, enabled: bool,
                           model: string, texts: seq<string>, i: nat)
    requires i < |texts|
  {
    enabled && (model, hash(texts[i])) in AtProbe(store, schedule, hash, enabled, i)
  }

  /** The store after n probes. */
  ghost function AfterProbes<V>(store: Store<V>, schedule: nat -> seq<Action<V>>, hash: string -> Digest, enabled: bool,
                                n: nat): Store<V> {
    if n == 0 then store else AtProbe(store, schedule, hash, enabled, n - 1)
  }

  /** The first n positions are hits exactly when their keys were in the store. */
  ghost predicate HitsAsStored<V>(texts: seq<string>, cached: seq<Option<V>>, n: nat, store: Store<V>,
                                  schedule: nat -> seq<Action<V>>, hash: string -> Digest, enabled: bool,
                                  model: string) {
    n <= |texts| == |cached| &&
    forall i :: 0 <= i < n ==> (cached[i].Some? <==> Found(store, schedule, hash, enabled, model, texts, i))
  }

  lemma StoredNext<V>(texts: seq<string>, cached: seq<Option<V>>, n: nat, hit: Option<V>, store: Store<V>,
                      schedule: nat -> seq<Action<V>>, hash: string -> Digest, enabled: bool, model: string)
    requires HitsAsStored(texts, cached, n, store, schedule, hash, enabled, model) && n < |texts|
    requires hit.Some? <==> Found(store, schedule, hash, enabled, model, texts, n)
    ensures HitsAsStored(texts, cached[n := hit], n + 1, store, schedule, hash, enabled, model)
  {
  }

  /** Before the first probe nothing is cached. */
  function NoneCached<V>(texts: seq<string>, ghost name: string, ghost kind: InputType, ghost w: World<V>)
    : (cached: seq<Option<V>>)
    ensures |cached| == |texts| && Probed(texts, cached, map[], 0, name, kind, w)
  {
    seq(|texts|, _ => None)
  }

  /** What the answer for the i-th text does to the two results. */
  method Record<V>(texts: seq<string>, cached: seq<Option<V>>, pending: map<string, seq<nat>>, i: nat, hit: Option<V>,
                   ghost name: string, ghost kind: InputType, ghost w: World<V>, ghost store: Store<V>,
                   ghost schedule: nat -> seq<Action<V>>, ghost hash: string -> Digest, ghost enabled: bool,
                   ghost model: string)
    returns (cached': seq<Option<V>>, pending': map<string, seq<nat>>)
    requires i < |texts| && HitsAsStored(texts, cached, i, store, schedule, hash, enabled, model)
    requires hit.Some? <==> Found(store, schedule, hash, enabled, model, texts, i)
    requires Probed(texts, cached, pending, i, name, kind, w)
    requires hit.Some? ==> hit.value == w.embed(name, kind, texts[i])
    ensures |cached'| == |texts| && Probed(texts, cached', pending', i + 1, name, kind, w)
    ensures HitsAsStored(texts, cached', i + 1, store, schedule, hash, enabled, model)
  {
    StoredNext(texts, cached, i, hit, store, schedule, hash, enabled, model);
    match hit {
      case Some(v) =>
        ProbedHit(texts, cached, pending, i, name, kind, w);
        return cached[i := Some(v)], pending;
      case None =>
        ProbedMiss(texts, cached, pending, i, name, kind, w);
        assert cached[i := None] == cached;
        return cached, AddPosition(pending, texts[i], i);
    }
  }

  /** The other requests act, then the cache is asked for the i-th text. */
  method Probe<V>(cache: EmbeddingCache<V>, name: string, kind: InputType, texts: seq<string>, i: nat,
                  schedule: nat -> seq<Action<V>>, ghost store: Store<V>, ghost w: World<V>) returns (hit: Option<V>)
    requires cache.Sound(w) && Separated(w.names) && Injective(cache.hash) && name in w.names && i < |texts|
    requires forall k :: SoundActions(schedule(k), w)
    requires cache.store == AfterProbes(store, schedule, cache.hash, cache.enabled, i)
    modifies cache`store
    ensures cache.Sound(w) && cache.store == AfterProbes(store, schedule, cache.hash, cache.enabled, i + 1)
    ensures hit.Some? <==> Found(store, schedule, cache.hash, cache.enabled, CacheModelKey(name, kind), texts, i)
    ensures hit.Some? ==> hit.value == w.embed(name, kind, texts[i])
  {
    cache.Interfere(schedule(i), w);
    hit := cache.Get(CacheModelKey(name, kind), texts[i]);
    if hit.Some? {
      cache.HitIsDirect(w, name, kind, texts[i]);
    }
  }

  /** Probe every text, with interference before each probe: a position is a hit
      exactly when its key is in the store at that moment. */
  method PartitionHitsAndMisses<V>(cache: EmbeddingCache<V>, name: string, kind: InputType, texts: seq<string>,
                                   schedule: nat -> seq<Action<V>>, ghost w: World<V>)
    returns (cached: seq<Option<V>>, pending: map<string, seq<nat>>)
    requires cache.Sound(w) && Separated(w.names) && Injective(cache.hash) && name in w.names
    requires forall k :: SoundActions(schedule(k), w)
    modifies cache`store
    ensures cache.Sound(w)
    ensures Partitioned(texts, cached, pending, |texts|) && HitsAreDirect(texts, cached, name, kind, w)
    ensures HitsAsStored(texts, cached, |texts|, old(cache.store), schedule, cache.hash, cache.enabled,
                         CacheModelKey(name, kind))
    ensures cache.store == AfterProbes(old(cache.store), schedule, cache.hash, cache.enabled, |texts|)
  {
    cached, pending := NoneCached(texts, name, kind, w), map[];
    ghost var store, model := cache.store, CacheModelKey(name, kind);
    for i := 0 to |texts|
      invariant cache.Sound(w)
      invariant |cached| == |texts| && Probed(texts, cached, pending, i, name, kind, w)
      invariant cache.store == AfterProbes(store, schedule, cache.hash, cache.enabled, i)
      invariant HitsAsStored(texts, cached, i, store, schedule, cache.hash, cache.enabled, model)
    {
      var hit := Probe(cache, name, kind, texts, i, schedule, store, w);
      cached, pending := Record(texts, cached, pending, i, hit, name, kind, w,
                                store, schedule, cache.hash, cache.enabled, model);
    }
  }

  // ---- The handler ----

  /** The keys of a hash map, in whatever order it yields them. */
  method KeysInSomeOrder(m: map<string, seq<nat>>) returns (keys: seq<string>)
    ensures forall t :: t in keys <==> t in m
    ensures forall i, j :: 0 <= i < j < |keys| ==> keys[i] != keys[j]
  {
    keys := [];
    var left := m.Keys;
    while left != {}
      invariant forall t :: t in m <==> t in keys || t in left
      invariant forall t :: t in left ==> t !in keys
      invariant forall i, j :: 0 <= i < j < |keys| ==> keys[i] != keys[j]
      decreases left
    {
      var t :| t in left;
      keys := keys + [t];
      left := left - {t};
    }
  }

  /** After scattering the first k vectors, exactly the positions of the other
      pending texts are still empty. */
  ghost predicate Scattered<V>(texts: seq<string>, cached: seq<Option<V>>, asked: seq<string>, k: nat) {
    |cached| == |texts| && k <= |asked| &&
    forall i :: 0 <= i < |texts| && cached[i].None? ==> texts[i] in asked[k..]
  }

  method ScatterOne<V>(texts: seq<string>, cached0: seq<Option<V>>, positions: seq<nat>, v: V)
    returns (cached: seq<Option<V>>)
    requires |cached0| == |texts| && forall p :: p in positions ==> p < |texts|
    ensures |cached| == |texts|
    ensures forall i :: 0 <= i < |texts| ==> cached[i] == if i in positions then Some(v) else cached0[i]
  {
    cached := cached0;
    for j := 0 to |positions|
      invariant |cached| == |texts|
      invariant forall i :: 0 <= i < |texts| ==> cached[i] == if i in positions[..j] then Some(v) else cached0[i]
    {
      assert positions[..j + 1] == positions[..j] + [positions[j]];
      assert positions[j] in positions;
      cached := cached[positions[j] := Some(v)];
    }
    assert positions[..|positions|] == positions;
  }

  /** The vectors the backend returns, when it returns one per text, are the
      direct embeddings. */
  ghost predicate SoundBackend<V>(backend: seq<string> -> Result<seq<V>>, name: string, kind: InputType, w: World<V>) {
    forall texts :: backend(texts).Ok? && |backend(texts).value| == |texts| ==>
                      backend(texts).value == MapSeq((t: string) => w.embed(name, kind, t), texts)
  }

  lemma ScatterStep<V>(texts: seq<string>, before: seq<Option<V>>, after: seq<Option<V>>, asked: seq<string>, k: nat,
                           positions: seq<nat>, v: V, name: string, kind: InputType, w: World<V>)
    requires Scattered(texts, before, asked, k) && k < |asked| && HitsAreDirect(texts, before, name, kind, w)
    requires |after| == |texts| && v == w.embed(name, kind, asked[k])
    requires forall i :: 0 <= i < |texts| ==> after[i] == if i in positions then Some(v) else before[i]
    requires forall i :: 0 <= i < |texts| && before[i].None? && texts[i] == asked[k] ==> i in positions
    requires forall i :: i in positions ==> i < |texts| && texts[i] == asked[k]
    ensures Scattered(texts, after, asked, k + 1) && HitsAreDirect(texts, after, name, kind, w)
  {
    assert asked[k..] == [asked[k]] + asked[k + 1..];
  }

  /** The other requests act, then the k-th new vector is inserted. */
  method InsertNext<V>(cache: EmbeddingCache<V>, name: string, kind: InputType, asked: seq<string>, vectors: seq<V>,
                       k: nat, actions: seq<Action<V>>, ghost store: Store<V>, ghost later: nat -> seq<Action<V>>,
                       ghost w: World<V>)
    requires cache.Sound(w) && Separated(w.names) && Injective(cache.hash) && name in w.names
    requires SoundActions(actions, w) && actions == later(k) && k < |asked| == |vectors|
    requires vectors[k] == w.embed(name, kind, asked[k])
    requires cache.store ==
             AfterInserts(store, later, cache.hash, cache.enabled, CacheModelKey(name, kind), asked, vectors, k)
    modifies cache`store
    ensures cache.Sound(w)
    ensures cache.store ==
            AfterInserts(store, later, cache.hash, cache.enabled, CacheModelKey(name, kind), asked, vectors, k + 1)
  {
    cache.Interfere(actions, w);
    InsertKeepsSound(cache.store, cache.hash, w, name, kind, asked[k]);
    cache.Insert(CacheModelKey(name, kind), asked[k], vectors[k]);
  }

  /** Insert each new vector and put it at every position that waits for it. */
  method ScatterAll<V>(cache: EmbeddingCache<V>, name: string, kind: InputType, texts: seq<string>,
                       cached0: seq<Option<V>>, pending: map<string, seq<nat>>, asked: seq<string>, vectors: seq<V>,
                       schedule: nat -> seq<Action<V>>, ghost w: World<V>)
    returns (cached: seq<Option<V>>)
    requires cache.Sound(w) && Separated(w.names) && Injective(cache.hash) && name in w.names
    requires forall k :: SoundActions(schedule(k), w)
    requires Partitioned(texts, cached0, pending, |texts|) && HitsAreDirect(texts, cached0, name, kind, w)
    requires forall t :: t in asked <==> t in pending
    requires |vectors| == |asked| && forall k :: 0 <= k < |asked| ==> vectors[k] == w.embed(name, kind, asked[k])
    modifies cache`store
    ensures cache.Sound(w)
    ensures HitsAreDirect(texts, cached, name, kind, w) && forall i :: 0 <= i < |texts| ==> cached[i].Some?
    ensures cache.store == AfterInserts(old(cache.store), (k: nat) => schedule(|texts| + k), cache.hash, cache.enabled,
                                        CacheModelKey(name, kind), asked, vectors, |asked|)
  {
    ghost var store, later := cache.store, (k: nat) => schedule(|texts| + k);
    cached := cached0;
    forall i | 0 <= i < |texts| && cached[i].None?
      ensures texts[i] in asked[0..]
    {
      HitXorPending(texts, cached, pending, i);
      assert asked[0..] == asked;
    }
    for k := 0 to |asked|
      invariant cache.Sound(w)
      invariant Scattered(texts, cached, asked, k) && HitsAreDirect(texts, cached, name, kind, w)
      invariant forall i :: 0 <= i < |texts| && cached[i].None? ==> cached0[i].None?
      invariant cache.store == AfterInserts(store, later, cache.hash, cache.enabled,
                                            CacheModelKey(name, kind), asked, vectors, k)
    {
      var text, v := asked[k], vectors[k];
      InsertNext(cache, name, kind, asked, vectors, k, schedule(|texts| + k), store, later, w);
      ghost var before := cached;
      assert text in asked && ListsMisses(texts, cached0, pending, |texts|, text);
      cached := ScatterOne(texts, cached, pending[text], v);
      ScatterStep(texts, before, cached, asked, k, pending[text], v, name, kind, w);
    }
  }

  /** The vectors of positions that are all filled. */
  method Collect<V>(cached: seq<Option<V>>) returns (vectors: seq<V>)
    requires forall i :: 0 <= i < |cached| ==> cached[i].Some?
    ensures |vectors| == |cached| && forall i :: 0 <= i < |cached| ==> cached[i] == Some(vectors[i])
  {
    vectors := [];
    for i := 0 to |cached|
      invariant |vectors| == i && forall j :: 0 <= j < i ==> cached[j] == Some(vectors[j])
    {
      vectors := vectors + [cached[i].value];
    }
  }

  /** A text is pending exactly when some position that holds it was missed. */
  lemma PendingExactly<V>(texts: seq<string>, cached: seq<Option<V>>, pending: map<string, seq<nat>>, t: string)
    requires Partitioned(texts, cached, pending, |texts|)
    ensures t in pending <==> exists i :: 0 <= i < |texts| && texts[i] == t && cached[i].None?
  {
    var misses := Misses(texts, cached, t, |texts|);
    assert ListsMisses(texts, cached, pending, |texts|, t);
    if t in pending {
      assert misses[0] in misses;
    }
    if i :| 0 <= i < |texts| && texts[i] == t && cached[i].None? {
      assert i in misses;
    }
  }

  /** Without interference every text of the request is in the cache afterwards. */
  lemma AllCached<V>(before: Store<V>, probed: Store<V>, after: Store<V>, schedule: nat -> seq<Action<V>>,
                     hash: string -> Digest, model: string, texts: seq<string>, cached: seq<Option<V>>,
                     asked: seq<string>, vectors: seq<V>)
    requires (forall k :: schedule(k) == []) && |cached| == |texts| && |asked| <= |vectors|
    requires probed == AfterProbes(before, schedule, hash, true, |texts|)
    requires HitsAsStored(texts, cached, |texts|, before, schedule, hash, true, model)
    requires forall i :: 0 <= i < |texts| && cached[i].None? ==> texts[i] in asked
    requires after ==
             AfterInserts(probed, (k: nat) => schedule(|texts| + k), hash, true, model, asked, vectors, |asked|)
    ensures forall t :: t in texts ==> (model, hash(t)) in after
  {
    if texts != [] {
      QuietProbes(before, schedule, hash, true, |texts| - 1);
    }
    QuietInserts(probed, (k: nat) => schedule(|texts| + k), hash, model, asked, vectors, |asked|);
    forall t | t in texts
      ensures (model, hash(t)) in after
    {
      var i :| 0 <= i < |texts| && texts[i] == t;
      if cached[i].Some? {
        QuietProbes(before, schedule, hash, true, i);
      } else {
        var j :| 0 <= j < |asked| && asked[j] == t;
      }
    }
  }

  /** Some position that holds the text was not in the store when it was probed. */
  ghost predicate MissedAtProbe<V>(store: Store<V>, schedule: nat -> seq<Action<V>>, hash: string -> Digest,
                                   enabled: bool, model: string, texts: seq<string>, t: string) {
    exists i :: 0 <= i < |texts| && texts[i] == t && !Found(store, schedule, hash, enabled, model, texts, i)
  }

  /** The handler: a successful response is the direct embedding of every text in
      order, the cache stays sound, and the request fails exactly when the
      backend fails, or miscounts, on the deduplicated misses. */
  method Embeddings<V>(cache: EmbeddingCache<V>, name: string, kind: InputType, texts: seq<string>,
                       backend: seq<string> -> Result<seq<V>>, schedule: nat -> seq<Action<V>>, ghost w: World<V>)
    returns (r: Result<seq<V>>, ghost asked: seq<string>)
    requires cache.Sound(w) && Separated(w.names) && Injective(cache.hash) && name in w.names
    requires forall k :: SoundActions(schedule(k), w)
    requires SoundBackend(backend, name, kind, w)
    modifies cache`store
    ensures cache.Sound(w)
    ensures r.Ok? ==> r.value == MapSeq((t: string) => w.embed(name, kind, t), texts)
    ensures r.Err? <==> asked != [] && (backend(asked).Err? || |backend(asked).value| != |asked|)
    ensures forall i, j :: 0 <= i < j < |asked| ==> asked[i] != asked[j]
    ensures forall t :: t in asked <==> MissedAtProbe(old(cache.store), schedule, cache.hash, cache.enabled,
                                                      CacheModelKey(name, kind), texts, t)
    ensures r.Ok? && cache.enabled && (forall k :: schedule(k) == []) ==>
              forall t :: t in texts ==> cache.Get(CacheModelKey(name, kind), t) == Some(w.embed(name, kind, t))
  {
    var cached, pending := PartitionHitsAndMisses(cache, name, kind, texts, schedule, w);
    var pendingTexts := KeysInSomeOrder(pending);
    asked := pendingTexts;
    forall t
      ensures t in asked <==> exists i :: 0 <= i < |texts| && texts[i] == t && cached[i].None?
    {
      PendingExactly(texts, cached, pending, t);
    }
    ghost var probed, firstPass := cache.store, cached;
    if pendingTexts == [] {
      forall i | 0 <= i < |texts|
        ensures cached[i].Some?
      {
        HitXorPending(texts, cached, pending, i);
      }
    } else {
      var result := backend(pendingTexts);
      if result.Err? { return Err(result.message), asked; }
      if |result.value| != |pendingTexts| { return Err("internal error: vector count mismatch"), asked; }
      cached := ScatterAll(cache, name, kind, texts, cached, pending, pendingTexts, result.value, schedule, w);
    }
    var vectors := Collect(cached);
    if cache.enabled && (forall k :: schedule(k) == []) {
      AllCached(old(cache.store), probed, cache.store, schedule, cache.hash, CacheModelKey(name, kind), texts,
                firstPass, asked, if asked == [] then [] else backend(asked).value);
      forall t | t in texts
        ensures cache.Get(CacheModelKey(name, kind), t) == Some(w.embed(name, kind, t))
      {
        cache.HitIsDirect(w, name, kind, t);
      }
    }
    return Ok(vectors), asked;
  }
}
