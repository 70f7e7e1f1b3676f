/**
 * The chunk structure shared by every variant: chunk k covers the series
 * indices [k * size, k * size + size), and `count` chunks tile
 * [0, size * count).  The start indices are what the loop
 * `for (c = 0; c < size * count; c += size)` produces.
 */
module Chunks {
  import opened Sums

  /**
   * The values of `c` visited by `for (c = 0; c < size * count; c += size)`.
   * With size 0 the bound `size * count` is 0 and the loop visits nothing.
   */
  function ChunkStarts(size: nat, count: nat): seq<nat>
  {
    if size == 0 then [] else seq(count, k requires 0 <= k => k * size)
  }

  lemma {:induction false} MulStrict(a: nat, b: nat, size: nat)
    requires a < b
    ensures a * size + size <= b * size
    decreases b
  {
    assert b * size == (b - 1) * size + size;
    if a < b - 1 {
      MulStrict(a, b - 1, size);
    }
  }

  lemma MulCancel(a: nat, b: nat, size: nat)
    requires a * size < b * size
    ensures a < b
  {
    if a >= b {
      if a > b { MulStrict(b, a, size); }
      assert false;
    }
  }

  /** One more loop iteration visits one more chunk start, k * size. */
  lemma ChunkStartsSnoc(size: nat, k: nat)
    requires size > 0
    ensures ChunkStarts(size, k + 1) == ChunkStarts(size, k) + [k * size]
  {
  }

  /**
   * One iteration of `for (c = 0; c < size * count; c += size)` with
   * c = k * size: the test passing means the size is positive and fewer
   * than count chunks are visited, and the step visits chunk start k * size.
   */
  lemma ChunkLoopStep(k: nat, count: nat, size: nat)
    requires k * size < size * count
    ensures size > 0 && k < count
    ensures (k + 1) * size == k * size + size
    ensures ChunkStarts(size, k + 1) == ChunkStarts(size, k) + [k * size]
  {
    MulCancel(k, count, size);
    ChunkStartsSnoc(size, k);
  }

  /** The loop stops after k <= count iterations exactly when all chunk starts are visited. */
  lemma ChunkLoopEnd(k: nat, count: nat, size: nat)
    requires k <= count && !(k * size < size * count)
    ensures ChunkStarts(size, k) == ChunkStarts(size, count)
    ensures size > 0 ==> k == count
    ensures k * size == size * count
  {
    if size > 0 && k < count {
      MulStrict(k, count, size);
    }
  }

  /**
   * With a positive chunk size there is one start per chunk, the k-th is
   * k * size, and every chunk ends within [0, size * count).
   */
  lemma ChunkStartsShape(size: nat, count: nat)
    requires size > 0
    ensures |ChunkStarts(size, count)| == count
    ensures forall k :: 0 <= k < count ==>
      ChunkStarts(size, count)[k] == k * size && ChunkStarts(size, count)[k] + size <= size * count
  {
    forall k | 0 <= k < count
      ensures ChunkStarts(size, count)[k] + size <= size * count
    {
      MulStrict(k, count, size);
    }
  }

  /** Distinct chunks start at distinct indices. */
  lemma ChunkStartsInjective(size: nat, count: nat, i: nat, j: nat)
    requires size > 0 && i < count && j < count && i != j
    ensures ChunkStarts(size, count)[i] != ChunkStarts(size, count)[j]
  {
    if i < j { MulStrict(i, j, size); } else { MulStrict(j, i, size); }
  }

  /**
   * Every index below size * count lies in exactly one chunk: the one
   * numbered k / size.  So the chunks are pairwise disjoint and their union
   * is [0, size * count).
   */
  lemma ChunkContaining(size: nat, count: nat, k: nat)
    requires size > 0 && k < size * count
    ensures k / size < count
    ensures ChunkStarts(size, count)[k / size] <= k < ChunkStarts(size, count)[k / size] + size
    ensures forall j :: 0 <= j < count && ChunkStarts(size, count)[j] <= k < ChunkStarts(size, count)[j] + size ==> j == k / size
  {
    var q := k / size;
    DivBounds(k, size);
    assert size * count == count * size;
    if count <= q {
      MulMono(count, q, size);
      assert false;
    }
    forall j | 0 <= j < count && j * size <= k < j * size + size
      ensures j == q
    {
      MulCancel(j, q + 1, size);
      MulCancel(q, j + 1, size);
    }
  }

  /** Index k lies in the block of size `size` numbered k / size. */
  lemma DivBounds(k: nat, size: nat)
    requires size > 0
    ensures (k / size) * size <= k < (k / size) * size + size
    ensures (k / size + 1) * size == (k / size) * size + size
  {
    assert k == (k / size) * size + k % size;
  }

  lemma MulMono(a: nat, b: nat, size: nat)
    requires a <= b
    ensures a * size <= b * size
  {
    if a < b { MulStrict(a, b, size); }
  }

  /** The value per chunk number: chunk p, which starts at p * size, yields kernel(p * size). */
  function ChunkResults(kernel: nat -> real, size: nat): nat -> real
  {
    (p: nat) => kernel(p * size)
  }

  /** The sum of term(k) for k in [start, start + n), accumulated left to right. */
  function TermSum(term: nat -> real, start: nat, n: nat): real
  {
    if n == 0 then 0.0 else TermSum(term, start, n - 1) + term(start + n - 1)
  }

  /** The sum of one chunk of `size` terms, as a function of the chunk start. */
  function ChunkSums(term: nat -> real, size: nat): nat -> real
  {
    (c: nat) => TermSum(term, c, size)
  }

  /** Summing [start, start + a + b) equals summing [start, start + a) and then [start + a, start + a + b). */
  lemma {:induction false} TermSumSplit(term: nat -> real, start: nat, a: nat, b: nat)
    ensures TermSum(term, start, a + b) == TermSum(term, start, a) + TermSum(term, start + a, b)
  {
    if b > 0 {
      TermSumSplit(term, start, a, b - 1);
    }
  }

  /**
   * Chunked summation equals straight summation: adding up the chunk sums
   * over chunks 0 .. count-1, in chunk order, gives the sum of term(k) over
   * [0, size * count), each index counted once.
   */
  lemma {:induction false} ChunkedSum(term: nat -> real, size: nat, count: nat)
    ensures SumReal(Iota(count), ChunkResults(ChunkSums(term, size), size)) == TermSum(term, 0, size * count)
  {
    if count > 0 {
      ChunkedSum(term, size, count - 1);
      IotaPrefix(count - 1);
      assert size * count == size * (count - 1) + size;
      TermSumSplit(term, 0, size * (count - 1), size);
      assert (count - 1) * size == size * (count - 1);
    }
  }
}
