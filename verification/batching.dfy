/**
 * Cutting the feedback rows into the batches sent to the language model,
 * one request per batch of at most `BatchSize` rows.
 */
module Batching {

  const BatchSize: nat := 40

  /** The consecutive slices of `s` of length `size`, the last one possibly shorter. */
  function Chunks<T>(s: seq<T>, size: nat): seq<seq<T>>
    requires size > 0
    decreases |s|
  {
    if s == [] then []
    else if |s| <= size then [s]
    else [s[..size]] + Chunks(s[size..], size)
  }

  /** The batches joined back together, in order. */
  function Flatten<T>(bs: seq<seq<T>>): seq<T> {
    if bs == [] then [] else bs[0] + Flatten(bs[1..])
  }

  /**
   * The batches concatenate back to the input; none is empty or longer than
   * `size`; every batch but the last is full.
   */
  lemma {:induction false} ChunksPartition<T>(s: seq<T>, size: nat)
    requires size > 0
    ensures var bs := Chunks(s, size);
      && Flatten(bs) == s
      && (forall k :: 0 <= k < |bs| ==> 0 < |bs[k]| <= size)
      && (forall k :: 0 <= k < |bs| - 1 ==> |bs[k]| == size)
    decreases |s|
  {
    if s == [] {
    } else if |s| <= size {
      assert Flatten([s]) == s + Flatten([]);
    } else {
      var rest := s[size..];
      ChunksPartition(rest, size);
      var bs := Chunks(s, size);
      assert bs[1..] == Chunks(rest, size);
      assert s == s[..size] + rest;
    }
  }

  /** There are ceil(|s| / size) batches. */
  lemma {:induction false} ChunksCount<T>(s: seq<T>, size: nat)
    requires size > 0
    ensures |Chunks(s, size)| == (|s| + size - 1) / size
    decreases |s|
  {
    if s == [] {
    } else if |s| <= size {
      DivBetween(|s| + size - 1, size, 1);
    } else {
      ChunksCount(s[size..], size);
      CeilStep(|s|, size);
    }
  }

  /** One more full batch adds one to the batch count. */
  lemma CeilStep(m: int, size: int)
    requires size > 0 && m > size
    ensures (m + size - 1) / size == ((m - size) + size - 1) / size + 1
  {
    var n := m - 1;
    var q := n / size;
    DivBetween(n + size, size, q + 1);
  }

  lemma DivBetween(n: int, d: int, q: int)
    requires d > 0 && q * d <= n < q * d + d
    ensures n / d == q
  {
    var r := n / d;
    assert d * r <= n < d * r + d;
    if r < q {
      MulMonotone(r + 1, q, d);
    } else if r > q {
      MulMonotone(q + 1, r, d);
    }
  }

  lemma MulMonotone(a: int, b: int, d: int)
    requires a <= b && d > 0
    ensures a * d <= b * d
  {
  }

  /**
   * The batching loop of `analyzeFeedback`: slices `[i, i + 40)` for
   * `i = 0, 40, 80, ...`, where `slice` stops at the end of the input.
   */
  method MakeBatches<T>(data: seq<T>) returns (batches: seq<seq<T>>)
    ensures batches == Chunks(data, BatchSize)
  {
    batches := [];
    var i := 0;
    while i < |data|
      invariant batches + Chunks(if i < |data| then data[i..] else [], BatchSize) == Chunks(data, BatchSize)
      decreases |data| - i
    {
      var end := if i + BatchSize <= |data| then i + BatchSize else |data|;
      var batch := data[i..end];
      if end < |data| {
        assert data[i..][..BatchSize] == batch;
        assert data[i..][BatchSize..] == data[end..];
      } else {
        assert data[i..] == batch;
      }
      batches := batches + [batch];
      i := i + BatchSize;
    }
  }
}
