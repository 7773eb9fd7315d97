/** The inference batch chunker `custom_loader`: a list of image paths is cut into
    consecutive batches of `batchSize` items while a full batch still leaves something
    behind; whatever is left (up to a full batch, or nothing for an empty list) becomes
    the final batch. */
module Batching {

  /** The batches, concatenated in order. */
  function Flatten<T>(batches: seq<seq<T>>): seq<T>
  {
    if batches == [] then [] else batches[0] + Flatten(batches[1..])
  }

  /** Reference definition of the chunking: take `b` items off the front as long as
      more than `b` items remain, then emit the rest as one last batch. */
  function Chunks<T>(data: seq<T>, b: nat): seq<seq<T>>
    requires b >= 1
    decreases |data|
  {
    if b < |data| then [data[..b]] + Chunks(data[b..], b) else [data]
  }

  /** `c` is ceil(n / b) for n > 0 items, said without division: one batch fewer
      could not hold them all, and `c` batches of `b` can; no items need one batch. */
  predicate IsBatchCount(c: nat, n: nat, b: nat)
  {
    if n == 0 then c == 1 else (c - 1) * b < n <= c * b
  }

  /** custom_loader(data, batch_size): the loop of the source, proved to build `Chunks`;
      `ChunksShape` states what that result looks like. */
  method CustomLoader<T>(data: seq<T>, batchSize: nat) returns (dataLoader: seq<seq<T>>)
    requires batchSize >= 1
    ensures dataLoader == Chunks(data, batchSize)
  {
    dataLoader := [];
    var dataLen := |data|;
    var i := 0;
    while i + batchSize < dataLen
      invariant 0 <= i <= dataLen
      invariant dataLoader + Chunks(data[i..], batchSize) == Chunks(data, batchSize)
      decreases dataLen - i
    {
      var imgBatch := data[i..i + batchSize];
      ChunksUnfold(data, i, batchSize);
      dataLoader := dataLoader + [imgBatch];
      i := i + batchSize;
    }
    // the remaining tail, possibly a full batch, is always appended
    var imgBatch := data[i..];
    ChunksTail(data, i, batchSize);
    dataLoader := dataLoader + [imgBatch];
  }

  /** What the loop above returns: the batches concatenate back to the input, every
      batch but the last is full, the last holds 1 to `b` items (an empty input gives
      one empty batch), and there are ceil(n / b) of them. */
  lemma ChunksShape<T>(data: seq<T>, b: nat)
    requires b >= 1
    ensures Flatten(Chunks(data, b)) == data
    ensures IsBatchCount(|Chunks(data, b)|, |data|, b)
    ensures forall k :: 0 <= k < |Chunks(data, b)| - 1 ==> |Chunks(data, b)[k]| == b
    ensures data == [] ==> Chunks(data, b) == [[]]
    ensures data != [] ==> 1 <= |Chunks(data, b)[|Chunks(data, b)| - 1]| <= b
  {
    ChunksFlatten(data, b);
    ChunksCount(data, b);
    ChunksFullBatches(data, b);
    ChunksLastBatch(data, b);
  }

  /** One turn of the loop: while more than `b` items remain after `i`, the chunks of
      the rest start with the batch `data[i..i + b]`. */
  lemma ChunksUnfold<T>(data: seq<T>, i: nat, b: nat)
    requires b >= 1 && i + b < |data|
    ensures Chunks(data[i..], b) == [data[i..i + b]] + Chunks(data[i + b..], b)
  {
    assert data[i..][..b] == data[i..i + b];
    assert data[i..][b..] == data[i + b..];
  }

  /** After the loop: at most `b` items remain, and they form the last batch. */
  lemma ChunksTail<T>(data: seq<T>, i: nat, b: nat)
    requires b >= 1 && i <= |data| && i + b >= |data|
    ensures Chunks(data[i..], b) == [data[i..]]
  {
  }

  /** Concatenating the batches gives back exactly the input. */
  lemma {:induction false} ChunksFlatten<T>(data: seq<T>, b: nat)
    requires b >= 1
    ensures Flatten(Chunks(data, b)) == data
    decreases |data|
  {
    if b < |data| {
      var rest := Chunks(data[b..], b);
      ChunksFlatten(data[b..], b);
      assert ([data[..b]] + rest)[1..] == rest;
      assert data[..b] + data[b..] == data;
    } else {
      assert [data][1..] == [];
    }
  }

  /** Every batch but the last holds exactly `b` items. */
  lemma {:induction false} ChunksFullBatches<T>(data: seq<T>, b: nat)
    requires b >= 1
    ensures forall k :: 0 <= k < |Chunks(data, b)| - 1 ==> |Chunks(data, b)[k]| == b
    decreases |data|
  {
    if b < |data| {
      ChunksFullBatches(data[b..], b);
      var rest := Chunks(data[b..], b);
      assert Chunks(data, b) == [data[..b]] + rest;
      forall k | 0 <= k < |Chunks(data, b)| - 1
        ensures |Chunks(data, b)[k]| == b
      {
        if k > 0 {
          assert Chunks(data, b)[k] == rest[k - 1];
        }
      }
    }
  }

  /** There is always a last batch; it holds between 1 and `b` items when the input is
      non-empty, and an empty input gives exactly one empty batch. */
  lemma {:induction false} ChunksLastBatch<T>(data: seq<T>, b: nat)
    requires b >= 1
    ensures |Chunks(data, b)| >= 1
    ensures data == [] ==> Chunks(data, b) == [[]]
    ensures data != [] ==> 1 <= |Chunks(data, b)[|Chunks(data, b)| - 1]| <= b
    decreases |data|
  {
    if b < |data| {
      ChunksLastBatch(data[b..], b);
      var rest := Chunks(data[b..], b);
      assert Chunks(data, b)[|Chunks(data, b)| - 1] == rest[|rest| - 1];
    }
  }

  /** The number of batches is ceil(n / b), and 1 for an empty input. */
  lemma {:induction false} ChunksCount<T>(data: seq<T>, b: nat)
    requires b >= 1
    ensures IsBatchCount(|Chunks(data, b)|, |data|, b)
    decreases |data|
  {
    if b < |data| {
      ChunksCount(data[b..], b);
      var c := |Chunks(data[b..], b)|;
      assert |Chunks(data, b)| == c + 1;
      assert (c + 1) * b == c * b + b;
    }
  }

  /** An exact multiple `m * b` of the batch size ends with a full batch, never with an
      empty one. */
  lemma {:induction false} ExactMultipleEndsFull<T>(data: seq<T>, b: nat, m: nat)
    requires b >= 1 && m >= 1 && |data| == m * b
    ensures |Chunks(data, b)| == m
    ensures |Chunks(data, b)[m - 1]| == b
    decreases m
  {
    if b < |data| {
      var rest := Chunks(data[b..], b);
      assert |data[b..]| == (m - 1) * b;
      ExactMultipleEndsFull(data[b..], b, m - 1);
      assert Chunks(data, b)[m - 1] == rest[m - 2];
    } else {
      assert m * b == (m - 1) * b + b;
    }
  }

  /** Chunking [1, 2, 3, 4, 5] by 2 gives [[1, 2], [3, 4], [5]]. */
  lemma FiveByTwo()
    ensures Chunks([1, 2, 3, 4, 5], 2) == [[1, 2], [3, 4], [5]]
  {
    var d := [1, 2, 3, 4, 5];
    assert d[..2] == [1, 2] && d[2..] == [3, 4, 5];
    assert Chunks([5], 2) == [[5]];
    assert [3, 4, 5][..2] == [3, 4] && [3, 4, 5][2..] == [5];
    assert Chunks([3, 4, 5], 2) == [[3, 4], [5]];
  }

  /** Chunking [1, 2, 3, 4] by 2 gives [[1, 2], [3, 4]]: no trailing empty batch. */
  lemma FourByTwo()
    ensures Chunks([1, 2, 3, 4], 2) == [[1, 2], [3, 4]]
  {
    var d := [1, 2, 3, 4];
    assert d[..2] == [1, 2] && d[2..] == [3, 4];
    assert Chunks([3, 4], 2) == [[3, 4]];
  }
}
