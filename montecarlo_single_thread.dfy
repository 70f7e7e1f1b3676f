/**
 * The sequential Monte Carlo baseline: once per CPU, draw pointsPerThread
 * random points in the unit square and count those inside the quarter
 * circle, then estimate pi from the ratio.
 *
 * The random draws are a parameter: `sample(c)(i)` is the point drawn on
 * iteration i of the c-th kernel call.
 */
module MonteCarloSingleThread {
  import opened Sums
  import opened Estimates

  datatype Point = Point(x: real, y: real)

  /**
   * `Math.sqrt(x * x + y * y) < 1`.  The square root is monotone and equals 1
   * at 1, so for the non-negative radicand this is `x * x + y * y < 1`.
   */
  predicate InCircle(p: Point)
  {
    p.x * p.x + p.y * p.y < 1.0
  }

  /** The number of iterations i < n whose point is inside the circle; at most one per iteration. */
  function CountHits(sample: nat -> Point, n: nat): (r: nat)
    ensures r <= n
  {
    if n == 0 then 0 else CountHits(sample, n - 1) + (if InCircle(sample(n - 1)) then 1 else 0)
  }

  /** The iterations whose point is a hit. */
  ghost function HitIterations(sample: nat -> Point, n: nat): set<nat>
  {
    set i: nat | i < n && InCircle(sample(i))
  }

  /** The hit count is exactly the number of iterations on which the hit test holds. */
  lemma {:induction false} CountHitsIsCardinality(sample: nat -> Point, n: nat)
    ensures CountHits(sample, n) == |HitIterations(sample, n)|
  {
    if n > 0 {
      CountHitsIsCardinality(sample, n - 1);
      var before := HitIterations(sample, n - 1);
      assert n - 1 !in before;
      if InCircle(sample(n - 1)) {
        assert HitIterations(sample, n) == before + {n - 1};
      } else {
        assert HitIterations(sample, n) == before;
      }
    }
  }

  /** `getInCirclePoints`: the counting loop; its result is the hit count of its draws. */
  method GetInCirclePoints(pointsPerThread: nat, sample: nat -> Point) returns (incircle: nat)
    ensures incircle == CountHits(sample, pointsPerThread)
    ensures incircle <= pointsPerThread
  {
    incircle := 0;
    var i: nat := 0;
    while i < pointsPerThread
      invariant i <= pointsPerThread
      invariant incircle == CountHits(sample, i)
    {
      var p := sample(i);
      if InCircle(p) {
        incircle := incircle + 1;
      }
      i := i + 1;
    }
  }

  /**
   * `os.cpus().reduce(prev => prev + getInCirclePoints(pointsPerThread), 0)`:
   * starts at 0 and adds one kernel result per CPU, in CPU order.
   */
  function ReduceInCirclePoints(cpus: nat, pointsPerThread: nat, sample: nat -> nat -> Point): (r: nat)
    ensures r <= pointsPerThread * cpus
  {
    if cpus == 0 then 0
    else ReduceInCirclePoints(cpus - 1, pointsPerThread, sample) + CountHits(sample(cpus - 1), pointsPerThread)
  }

  /** The reduce equals the sum, over the CPUs, of each kernel call's hit count. */
  lemma {:induction false} ReduceIsSumOfKernels(cpus: nat, pointsPerThread: nat, sample: nat -> nat -> Point)
    ensures ReduceInCirclePoints(cpus, pointsPerThread, sample)
         == SumInt(Iota(cpus), (c: nat) => CountHits(sample(c), pointsPerThread))
  {
    if cpus > 0 {
      ReduceIsSumOfKernels(cpus - 1, pointsPerThread, sample);
      IotaPrefix(cpus - 1);
    }
  }

  /** A JavaScript number: a value, or NaN for 0 / 0. */
  datatype Estimate = Number(value: real) | NaN

  /**
   * `4 * pointsInCircle / (pointsPerThread * os.cpus().length)`.  With no CPU
   * (or no points) both sides are 0 and the script prints NaN.  Otherwise the
   * estimate lies in [0, 4].
   */
  function SingleThreadMonteCarlo(cpus: nat, pointsPerThread: nat, sample: nat -> nat -> Point): (r: Estimate)
    ensures r.NaN? <==> pointsPerThread * cpus == 0
    ensures r.Number? ==> 0.0 <= r.value <= 4.0
  {
    var pointsInCircle := ReduceInCirclePoints(cpus, pointsPerThread, sample);
    if pointsPerThread * cpus == 0 then NaN
    else Number(MonteCarloEstimate(pointsInCircle, pointsPerThread * cpus))
  }
}
