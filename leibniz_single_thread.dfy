/**
 * The sequential Leibniz baseline: the same chunk loop as the threaded
 * version, with each chunk summed inline.
 *
 * pi / 4 = sum over k >= 0 of 2 / ((4k + 1)(4k + 3)), the Leibniz series
 * with consecutive terms paired.  Floating-point numbers are modelled as
 * reals.
 */
module LeibnizSingleThread {
  import opened Chunks
  import opened Estimates

  /** (4k + 1)(4k + 3) = 16 k (k + 1) + 3, and k (k + 1) is never negative. */
  lemma DenominatorPositive(k: int)
    ensures (4 * k + 1) * (4 * k + 3) > 0
  {
    assert (4 * k + 1) * (4 * k + 3) == 16 * (k * (k + 1)) + 3;
    if k < 0 {
      assert k * (k + 1) == (-k) * (-k - 1);
    }
  }

  /** The paired term of index k; every term is a positive number, so no term divides by zero. */
  function LeibnizTerm(k: nat): (r: real)
    ensures r > 0.0
  {
    DenominatorPositive(k);
    2.0 / ((4 * k + 1) * (4 * k + 3)) as real
  }

  /**
   * `calcSummationChunk`: adds term(currentChunkIndex + i) for each i in
   * [0, chunksPerThread), in increasing i; nothing when chunksPerThread is 0.
   */
  method CalcSummationChunk(currentChunkIndex: nat, chunksPerThread: nat) returns (temp: real)
    ensures temp == TermSum(LeibnizTerm, currentChunkIndex, chunksPerThread)
    ensures chunksPerThread == 0 ==> temp == 0.0
    ensures chunksPerThread > 0 ==> temp > 0.0
  {
    temp := 0.0;
    var i: nat := 0;
    while i < chunksPerThread
      invariant i <= chunksPerThread
      invariant temp == TermSum(LeibnizTerm, currentChunkIndex, i)
      invariant i > 0 ==> temp > 0.0
    {
      DenominatorPositive(currentChunkIndex + i);
      temp := temp + 2.0 / ((4 * (currentChunkIndex + i) + 1) * (4 * (currentChunkIndex + i) + 3)) as real;
      i := i + 1;
    }
  }

  /**
   * The script: run the chunk loop over c = 0, S, 2S, ... below S * cpus,
   * adding each chunk sum to summationResult, then estimate pi.  The loop
   * visits exactly the chunk starts, so the result is the straight sum of
   * the first S * cpus terms.
   */
  method SingleThreadLeibniz(cpus: nat, chunksPerThread: nat)
    returns (summationResult: real, estimatedPI: real, ghost visited: seq<nat>)
    ensures visited == ChunkStarts(chunksPerThread, cpus)
    ensures summationResult == TermSum(LeibnizTerm, 0, chunksPerThread * cpus)
    ensures estimatedPI == LeibnizEstimate(summationResult)
  {
    var totalChunksSize := chunksPerThread * cpus;
    summationResult := 0.0;
    var currentChunkIndex: nat := 0;
    ghost var chunks: nat := 0;
    visited := [];
    while currentChunkIndex < totalChunksSize
      invariant chunks <= cpus
      invariant currentChunkIndex == chunks * chunksPerThread
      invariant visited == ChunkStarts(chunksPerThread, chunks)
      invariant summationResult == TermSum(LeibnizTerm, 0, currentChunkIndex)
      decreases totalChunksSize - currentChunkIndex
    {
      ChunkLoopStep(chunks, cpus, chunksPerThread);
      var chunk := CalcSummationChunk(currentChunkIndex, chunksPerThread);
      TermSumSplit(LeibnizTerm, 0, currentChunkIndex, chunksPerThread);
      summationResult := summationResult + chunk;
      visited := visited + [currentChunkIndex];
      currentChunkIndex := currentChunkIndex + chunksPerThread;
      chunks := chunks + 1;
    }
    ChunkLoopEnd(chunks, cpus, chunksPerThread);
    estimatedPI := LeibnizEstimate(summationResult);
  }
}
