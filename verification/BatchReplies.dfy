/** Dispatching one batch: flatten the rows of its items, call the model once
    and hand each item its own slice of the result. */
module BatchReplies {
  import opened Common
  import opened BatchGates

  /** What the blocking model call came back with. */
  datatype Outcome<V> = Vectors(vectors: seq<V>) | InferenceError(message: string) | TaskPanicked(message: string)

  /** The resolution of one request; `Dropped` means the reply sender was
      dropped unused and the client sees a shutdown. */
  datatype Reply<V> = Value(vectors: seq<V>) | Failure(message: string) | Dropped

  datatype Sent<V> = Sent(id: nat, reply: Reply<V>)

  function FlatRows(batch: seq<Item>): (rows: seq<Row>)
    ensures |rows| == Texts(batch)
  {
    if batch == [] then [] else batch[0].rows + FlatRows(batch[1..])
  }

  function Slices<V>(batch: seq<Item>, vectors: seq<V>): seq<Sent<V>>
    requires |vectors| == Texts(batch)
  {
    if batch == [] then []
    else
      var n := |batch[0].rows|;
      [Sent(batch[0].id, Value(vectors[..n]))] + Slices(batch[1..], vectors[n..])
  }

  /** The same reply for every item. */
  function Same<V>(batch: seq<Item>, reply: Reply<V>): (sent: seq<Sent<V>>)
    ensures |sent| == |batch|
    ensures forall i :: 0 <= i < |batch| ==> sent[i] == Sent(batch[i].id, reply)
  {
    seq(|batch|, i requires 0 <= i < |batch| => Sent(batch[i].id, reply))
  }

  const COUNT_MISMATCH := "embed_fn returned a wrong number of vectors"

  function Replies<V>(batch: seq<Item>, outcome: Outcome<V>): seq<Sent<V>> {
    match outcome
    case Vectors(vs) =>
      if |vs| == Texts(batch) then Slices(batch, vs) else Same(batch, Failure(COUNT_MISMATCH))
    case InferenceError(m) => Same(batch, Failure(m))
    case TaskPanicked(m) => Same(batch, Failure("embed task panicked: " + m))
  }

  /** The call succeeded with one vector per row. */
  predicate Succeeds<V>(batch: seq<Item>, outcome: Outcome<V>) {
    outcome.Vectors? && |outcome.vectors| == Texts(batch)
  }

  /** A call that returns one vector per row computes `f` on each row. */
  ghost predicate RowWise<V>(f: Row -> V, batch: seq<Item>, outcome: Outcome<V>) {
    Succeeds(batch, outcome) ==> outcome.vectors == MapSeq(f, FlatRows(batch))
  }

  function RepliedVectors<V>(sent: seq<Sent<V>>): seq<seq<V>> {
    if sent == [] then []
    else (if sent[0].reply.Value? then [sent[0].reply.vectors] else []) + RepliedVectors(sent[1..])
  }

  /** One reply per item, in the items' order. */
  lemma {:induction false} SlicesShape<V>(batch: seq<Item>, vectors: seq<V>)
    requires |vectors| == Texts(batch)
    ensures |Slices(batch, vectors)| == |batch|
    ensures forall i :: 0 <= i < |batch| ==>
              var s := Slices(batch, vectors)[i];
              s.id == batch[i].id && s.reply.Value? && |s.reply.vectors| == |batch[i].rows|
  {
    if batch != [] {
      SlicesShape(batch[1..], vectors[|batch[0].rows|..]);
    }
  }

  /** Slicing hands out every vector once and in order. */
  lemma {:induction false} SlicesConserve<V>(batch: seq<Item>, vectors: seq<V>)
    requires |vectors| == Texts(batch)
    ensures Flatten(RepliedVectors(Slices(batch, vectors))) == vectors
  {
    if batch != [] {
      var n := |batch[0].rows|;
      SlicesConserve(batch[1..], vectors[n..]);
      var rest := Slices(batch[1..], vectors[n..]);
      assert Slices(batch, vectors)[1..] == rest;
      assert RepliedVectors(Slices(batch, vectors)) == [vectors[..n]] + RepliedVectors(rest);
    }
  }

  /** Each slice of a row-wise result is the result for the item's rows alone. */
  lemma {:induction false} SlicesAreOwnRows<V>(f: Row -> V, batch: seq<Item>)
    ensures var sent := Slices(batch, MapSeq(f, FlatRows(batch)));
            |sent| == |batch| &&
            forall i :: 0 <= i < |batch| ==> sent[i] == Sent(batch[i].id, Value(MapSeq(f, batch[i].rows)))
  {
    if batch != [] {
      var n := |batch[0].rows|;
      var all := MapSeq(f, FlatRows(batch));
      assert all[..n] == MapSeq(f, batch[0].rows);
      assert all[n..] == MapSeq(f, FlatRows(batch[1..]));
      SlicesAreOwnRows(f, batch[1..]);
    }
  }

  /** Batching is invisible to one dispatch: exactly one reply per item, which is
      the row-wise result on the item's own rows when the call succeeds and one
      and the same error for all of them when it does not. */
  lemma DispatchIsInvisible<V>(f: Row -> V, batch: seq<Item>, outcome: Outcome<V>)
    requires RowWise(f, batch, outcome)
    ensures var sent := Replies(batch, outcome);
            |sent| == |batch| && forall i :: 0 <= i < |batch| ==>
              sent[i].id == batch[i].id &&
              (if Succeeds(batch, outcome) then sent[i].reply == Value(MapSeq(f, batch[i].rows))
               else sent[i].reply.Failure? && sent[i].reply == sent[0].reply)
  {
    SlicesAreOwnRows(f, batch);
  }

  /** The first loop of dispatch: gather the rows and note how many are whose. */
  method GatherRows(batch: seq<Item>) returns (ids: seq<Row>, counts: seq<nat>)
    ensures ids == FlatRows(batch)
    ensures |counts| == |batch| && forall k :: 0 <= k < |batch| ==> counts[k] == |batch[k].rows|
  {
    ids, counts := [], [];
    assert batch[0..] == batch;
    for i := 0 to |batch|
      invariant ids + FlatRows(batch[i..]) == FlatRows(batch)
      invariant |counts| == i && forall k :: 0 <= k < i ==> counts[k] == |batch[k].rows|
    {
      assert batch[i..][1..] == batch[i + 1..];
      ids := ids + batch[i].rows;
      counts := counts + [|batch[i].rows|];
    }
    assert batch[|batch|..] == [];
  }

  /** The second loop: drain the vectors, each item taking its count. */
  method DrainVectors<V>(batch: seq<Item>, counts: seq<nat>, vectors: seq<V>) returns (sent: seq<Sent<V>>)
    requires |vectors| == Texts(batch)
    requires |counts| == |batch| && forall k :: 0 <= k < |batch| ==> counts[k] == |batch[k].rows|
    ensures sent == Slices(batch, vectors)
  {
    sent := [];
    var left := vectors;
    assert batch[0..] == batch;
    for i := 0 to |batch|
      invariant |left| == Texts(batch[i..])
      invariant sent + Slices(batch[i..], left) == Slices(batch, vectors)
    {
      assert batch[i..][1..] == batch[i + 1..];
      sent := sent + [Sent(batch[i].id, Value(left[..counts[i]]))];
      left := left[counts[i]..];
    }
    assert batch[|batch|..] == [];
  }

  /** One dispatch: one call, every item answered by it. */
  method DispatchBatch<V>(batch: seq<Item>, call: seq<Row> -> Outcome<V>) returns (sent: seq<Sent<V>>)
    ensures sent == Replies(batch, call(FlatRows(batch)))
  {
    var ids, counts := GatherRows(batch);
    match call(ids)
    case Vectors(vectors) =>
      if |vectors| != |ids| {
        sent := FanError(batch, COUNT_MISMATCH);
      } else {
        sent := DrainVectors(batch, counts, vectors);
      }
    case InferenceError(m) =>
      sent := FanError(batch, m);
    case TaskPanicked(m) =>
      sent := FanError(batch, "embed task panicked: " + m);
  }

  method FanError<V>(batch: seq<Item>, message: string) returns (sent: seq<Sent<V>>)
    ensures sent == Same(batch, Failure(message))
  {
    sent := [];
    for i := 0 to |batch|
      invariant sent == Same(batch, Failure(message))[..i]
    {
      sent := sent + [Sent(batch[i].id, Failure(message))];
    }
  }
}
