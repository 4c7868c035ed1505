/** Requests on which the worker path and the in-process path of sparse encoding
    part. */
module SpladeExamples {
  import opened Common
  import opened Sorting
  import opened Splade

  /** Selecting by sorting everything. */
  function SelectBySorting(es: seq<Entry>, k: nat): seq<Entry> {
    SortDesc(es, WeightKey())
  }

  lemma SortingSelects()
    ensures Selects(SelectBySorting)
  {
    forall es, k | 0 < k < |es|
      ensures multiset(SelectBySorting(es, k)) == multiset(es) && |SelectBySorting(es, k)| == |es|
      ensures forall i, j :: 0 <= i < k <= j < |es| ==> SelectBySorting(es, k)[i].w >= SelectBySorting(es, k)[j].w
    {
      SortPermutes(es, WeightKey());
      SortDescends(es, WeightKey());
    }
  }

  /** A model over two vocabulary entries whose session gives this answer. */
  function ModelOf(answer: Result<seq<seq<real>>>): Model {
    Model(1, 2, (text: string) => Ok([0]), (ids: seq<nat>) => answer, (x: real) => Relu(x), SelectBySorting)
  }

  lemma ModelIsSane(answer: Result<seq<seq<real>>>)
    ensures Sane(ModelOf(answer))
  {
    SortingSelects();
  }

  /** For a limit of zero the in-process path answers without running the session,
      and the worker fails with it. */
  lemma ZeroLimitMasksFailure(remote: Result<seq<SparseItem>>, local: Result<seq<SparseItem>>)
    requires var m := ModelOf(Err("down"));
             && IsResponse(remote, ["text"], text => WorkerText(m, text, 0, 0.0))
             && IsResponse(local, ["text"], text => EncodedText(m, text, 0, 0.0))
    ensures Sane(ModelOf(Err("down"))) && local.Ok? && remote.Err?
  {
    var m := ModelOf(Err("down"));
    ModelIsSane(Err("down"));
    assert Logits(m, [0]).Err?;
    assert WorkerText(m, "text", 0, 0.0).Err?;
    assert EncodedText(m, "text", 0, 0.0) == Ok([]);
    assert ["text"][0] == "text";
  }

  // ---- A limit beyond 32 bits ----

  const LIGHT := Entry(0, 1.0)
  const HEAVY := Entry(1, 2.0)

  lemma TwoSorted()
    ensures SortDesc([LIGHT, HEAVY], WeightKey()) == [HEAVY, LIGHT] && SortDesc([HEAVY], WeightKey()) == [HEAVY]
  {
    assert [LIGHT, HEAVY][1..] == [HEAVY] && [HEAVY][1..] == [];
    assert SortDesc([HEAVY], WeightKey()) == InsertDesc(HEAVY, [], WeightKey());
    assert InsertDesc(LIGHT, [], WeightKey()) == [LIGHT];
  }

  lemma TwoAbove()
    ensures Above([1.0, 2.0], 0.0, 2) == [LIGHT, HEAVY]
  {
    assert Above([1.0, 2.0], 0.0, 1) == [LIGHT];
  }

  lemma TwoPooled()
    ensures Pooled([[1.0, 2.0]], 2, (x: real) => Relu(x)) == [1.0, 2.0]
  {
    var raw, log1p := [[1.0, 2.0]], (x: real) => Relu(x);
    assert PoolAt(raw, 0, 0, 2, log1p) == 0.0 && PoolAt(raw, 0, 1, 2, log1p) == 0.0;
    assert PoolAt(raw, 1, 0, 2, log1p) == 1.0 && PoolAt(raw, 1, 1, 2, log1p) == 2.0;
  }

  lemma BothKept()
    ensures TopK([1.0, 2.0], U32 + 1, 0.0, SelectBySorting) == [HEAVY, LIGHT]
  {
    TwoAbove();
    TwoSorted();
  }

  lemma OneKept()
    ensures WorkerLimit(U32 + 1) == 1 && TopK([1.0, 2.0], 1, 0.0, SelectBySorting) == [HEAVY]
  {
    TwoAbove();
    TwoSorted();
    assert [HEAVY, LIGHT][..1] == [HEAVY];
  }

  lemma WrappedTexts()
    ensures var m := ModelOf(Ok([[1.0, 2.0]]));
            && EncodedText(m, "text", U32 + 1, 0.0) == Ok([HEAVY, LIGHT])
            && WorkerText(m, "text", U32 + 1, 0.0) == Ok([HEAVY])
  {
    var m := ModelOf(Ok([[1.0, 2.0]]));
    var tokens: seq<nat> := [0];
    assert tokens[..Min(1, 1)] == tokens;
    assert Logits(m, tokens) == Ok([[1.0, 2.0]]);
    assert Pooled([[1.0, 2.0]], 2, m.log1p) == [1.0, 2.0] by {
      TwoPooled();
    }
    BothKept();
    OneKept();
    assert Heavy([HEAVY], 0.0) == [HEAVY] by {
      assert [HEAVY][1..] == [];
    }
  }

  /** A limit of 2^32 + 1 reaches the worker as 1: it returns one of the two entries
      the in-process path returns. */
  lemma WrappedLimitDropsEntry(remote: Result<seq<SparseItem>>, local: Result<seq<SparseItem>>)
    requires var m := ModelOf(Ok([[1.0, 2.0]]));
             && IsResponse(remote, ["text"], text => WorkerText(m, text, U32 + 1, 0.0))
             && IsResponse(local, ["text"], text => EncodedText(m, text, U32 + 1, 0.0))
    ensures Sane(ModelOf(Ok([[1.0, 2.0]])))
    ensures local == Ok([SparseItem(0, [1, 0], [2.0, 1.0])]) && remote == Ok([SparseItem(0, [1], [2.0])])
  {
    var m := ModelOf(Ok([[1.0, 2.0]]));
    ModelIsSane(Ok([[1.0, 2.0]]));
    WrappedTexts();
    SingleResponse(remote, text => WorkerText(m, text, U32 + 1, 0.0), [HEAVY]);
    SingleResponse(local, text => EncodedText(m, text, U32 + 1, 0.0), [HEAVY, LIGHT]);
    Items();
  }

  lemma SingleResponse(r: Result<seq<SparseItem>>, f: string -> Result<seq<Entry>>, entries: seq<Entry>)
    requires IsResponse(r, ["text"], f) && f("text") == Ok(entries)
    ensures r == Ok([ItemOf(0, entries)])
  {
    assert ["text"][0] == "text";
    assert r.value == [ItemOf(0, entries)];
  }

  lemma Items()
    ensures ItemOf(0, [HEAVY, LIGHT]) == SparseItem(0, [1, 0], [2.0, 1.0])
    ensures ItemOf(0, [HEAVY]) == SparseItem(0, [1], [2.0])
  {
  }
}
