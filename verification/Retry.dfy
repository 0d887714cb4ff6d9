/** Retrying with exponential backoff. Durations are reals; the random numbers are given. */
module Retry {
  import opened Proto

  datatype Policy = Policy(minDelay: real, maxDelay: real, maxAttempts: int, jitter: bool)

  /** `delay * math.Pow(2, k)`. */
  function Doubled(delay: real, k: nat): (r: real)
    ensures 0.0 <= delay ==> delay <= r
  {
    if k == 0 then delay else 2.0 * Doubled(delay, k - 1)
  }

  function Pow2(k: nat): real {
    if k == 0 then 1.0 else 2.0 * Pow2(k - 1)
  }

  lemma {:induction false} DoubledIsPower(delay: real, k: nat)
    ensures Doubled(delay, k) == delay * Pow2(k)
  {
    if k > 0 {
      DoubledIsPower(delay, k - 1);
      Reassociate(delay, Pow2(k - 1));
    }
  }

  lemma Reassociate(x: real, y: real)
    ensures 2.0 * (x * y) == x * (2.0 * y)
  {
  }

  /** `computeDelay`, with the random number in [0, 1) that jitter draws. */
  function ComputeDelay(p: Policy, attempt: nat, random: real): real {
    var grown := Doubled(p.minDelay, attempt);
    var capped := if grown > p.maxDelay then p.maxDelay else grown;
    if p.jitter then Jittered(capped, random) else capped
  }

  function Jittered(delay: real, random: real): real {
    delay * (0.5 + random * 0.5)
  }

  /** The delays before the second, third, ... call. */
  function Delays(p: Policy, randoms: seq<real>): seq<real> {
    seq(|randoms|, k requires 0 <= k < |randoms| => ComputeDelay(p, k, randoms[k]))
  }

  /** `Execute`. `outcomes(k)` is what call number k of the operation returns, `randoms(k)` the number drawn after
      it. With no attempts allowed the operation is never called and nil is returned. */
  method Execute(p: Policy, outcomes: nat -> Option<Error>, randoms: nat -> real)
    returns (result: Option<Error>, calls: nat, sleeps: seq<real>)
    ensures p.maxAttempts <= 0 ==> result == None && calls == 0 && sleeps == []
    ensures p.maxAttempts >= 1 ==>
              && 1 <= calls <= p.maxAttempts
              && result == outcomes(calls - 1)
              && (forall k :: 0 <= k < calls - 1 ==> outcomes(k).Some?)
              && (calls < p.maxAttempts ==> outcomes(calls - 1) == None)
              && sleeps == Delays(p, seq(calls - 1, k requires 0 <= k => randoms(k)))
  {
    result, calls, sleeps := None, 0, [];
    var attempt := 0;
    while attempt < p.maxAttempts
      invariant 0 <= attempt && (attempt > 0 ==> attempt <= p.maxAttempts)
      invariant calls == attempt
      invariant forall k :: 0 <= k < attempt ==> outcomes(k).Some?
      invariant if attempt == 0 then result == None else result == outcomes(attempt - 1)
      invariant |sleeps| == if attempt == 0 then 0 else if attempt < p.maxAttempts then attempt else attempt - 1
      invariant forall k :: 0 <= k < |sleeps| ==> sleeps[k] == ComputeDelay(p, k, randoms(k))
    {
      var err := outcomes(attempt);
      calls := calls + 1;
      if err.None? {
        return None, calls, sleeps;
      }
      result := err;
      if attempt < p.maxAttempts - 1 {
        sleeps := sleeps + [ComputeDelay(p, attempt, randoms(attempt))];
      }
      attempt := attempt + 1;
    }
  }

  // ---------- How long a run sleeps ----------

  function Total(delays: seq<real>): real {
    if delays == [] then 0.0 else Total(delays[..|delays| - 1]) + delays[|delays| - 1]
  }

  lemma {:induction false} DoubledMono(delay: real, j: nat, k: nat)
    requires 0.0 <= delay && j <= k
    ensures Doubled(delay, j) <= Doubled(delay, k)
    decreases k
  {
    if j < k {
      DoubledMono(delay, j, k - 1);
    }
  }

  /** Without jitter the delays never decrease and never exceed the maximum. */
  lemma DelaysGrow(p: Policy, j: nat, k: nat, r: real, s: real)
    requires !p.jitter && 0.0 <= p.minDelay && j <= k
    ensures ComputeDelay(p, j, r) <= ComputeDelay(p, k, s) <= p.maxDelay
  {
    DoubledMono(p.minDelay, j, k);
  }

  /** How many of the first `n` delays are still below the maximum. */
  function Doublings(p: Policy, n: nat): (m: nat)
    ensures m <= n
    ensures forall k: nat :: k < m ==> Doubled(p.minDelay, k) < p.maxDelay
    ensures m < n ==> Doubled(p.minDelay, m) >= p.maxDelay
  {
    if n == 0 then 0
    else
      var m := Doublings(p, n - 1);
      if m == n - 1 && Doubled(p.minDelay, m) < p.maxDelay then n else m
  }

  function Repeated(count: nat, delay: real): real {
    if count == 0 then 0.0 else Repeated(count - 1, delay) + delay
  }

  lemma {:induction false} RepeatedIsProduct(count: nat, delay: real)
    ensures Repeated(count, delay) == count as real * delay
  {
    if count > 0 {
      RepeatedIsProduct(count - 1, delay);
      OneMore((count - 1) as real, delay);
    }
  }

  lemma OneMore(x: real, y: real)
    ensures (x + 1.0) * y == x * y + y
  {
  }

  lemma {:induction false} TotalBySteps(p: Policy, randoms: seq<real>)
    requires !p.jitter && 0.0 <= p.minDelay
    ensures var n, m := |randoms|, Doublings(p, |randoms|);
            Total(Delays(p, randoms)) == Doubled(p.minDelay, m) - p.minDelay + Repeated(n - m, p.maxDelay)
  {
    if randoms != [] {
      var n := |randoms| - 1;
      TotalBySteps(p, randoms[..n]);
      assert Delays(p, randoms)[..n] == Delays(p, randoms[..n]);
      DoubledMono(p.minDelay, Doublings(p, n), n);
    }
  }

  /** Doubling delays m times, then the maximum n - m times. */
  function ClosedForm(min: real, max: real, m: nat, n: nat): real {
    min * (Pow2(m) - 1.0) + (n - m) as real * max
  }

  lemma ClosedFormIs(min: real, max: real, m: nat, n: nat)
    requires m <= n
    ensures ClosedForm(min, max, m, n) == Doubled(min, m) - min + Repeated(n - m, max)
  {
    DoubledIsPower(min, m);
    RepeatedIsProduct(n - m, max);
    OneLess(min, Pow2(m));
  }

  lemma OneLess(x: real, y: real)
    ensures x * (y - 1.0) == x * y - x
  {
  }

  /** The total of `n` delays without jitter is Min * (2^m - 1) + (n - m) * Max, where m is the least exponent at
      which the maximum is reached, or n if that is smaller. */
  lemma TotalBackoff(p: Policy, randoms: seq<real>)
    requires !p.jitter && 0.0 <= p.minDelay
    ensures Total(Delays(p, randoms)) ==
            ClosedForm(p.minDelay, p.maxDelay, Doublings(p, |randoms|), |randoms|)
  {
    TotalBySteps(p, randoms);
    ClosedFormIs(p.minDelay, p.maxDelay, Doublings(p, |randoms|), |randoms|);
  }

  lemma JitterScales(capped: real, random: real)
    requires 0.0 <= capped && 0.0 <= random < 1.0
    ensures capped / 2.0 <= Jittered(capped, random) <= capped
  {
    assert capped * (0.5 + random * 0.5) == capped / 2.0 + (capped * random) / 2.0;
    assert 0.0 <= capped * random <= capped;
  }

  lemma JitterBoundsOne(p: Policy, k: nat, random: real)
    requires 0.0 <= p.minDelay && 0.0 <= p.maxDelay && 0.0 <= random < 1.0
    ensures var plain := ComputeDelay(p.(jitter := false), k, random);
            plain / 2.0 <= ComputeDelay(p.(jitter := true), k, random) <= plain
  {
    JitterScales(ComputeDelay(p.(jitter := false), k, random), random);
  }

  /** With jitter the total lies between half of the total without jitter and that total. */
  lemma {:induction false} JitterBounds(p: Policy, randoms: seq<real>)
    requires 0.0 <= p.minDelay && 0.0 <= p.maxDelay
    requires forall k :: 0 <= k < |randoms| ==> 0.0 <= randoms[k] < 1.0
    ensures var plain := Total(Delays(p.(jitter := false), randoms));
            plain / 2.0 <= Total(Delays(p.(jitter := true), randoms)) <= plain
  {
    var off, on := Delays(p.(jitter := false), randoms), Delays(p.(jitter := true), randoms);
    forall k | 0 <= k < |randoms|
      ensures off[k] / 2.0 <= on[k] <= off[k]
    {
      JitterBoundsOne(p, k, randoms[k]);
    }
    TotalBetween(off, on);
  }

  lemma {:induction false} TotalBetween(xs: seq<real>, ys: seq<real>)
    requires |xs| == |ys| && forall k :: 0 <= k < |xs| ==> xs[k] / 2.0 <= ys[k] <= xs[k]
    ensures Total(xs) / 2.0 <= Total(ys) <= Total(xs)
  {
    if xs != [] {
      TotalBetween(xs[..|xs| - 1], ys[..|ys| - 1]);
    }
  }

  lemma {:induction false} Pow2Adds(j: nat, k: nat)
    ensures Pow2(j + k) == Pow2(j) * Pow2(k) && Pow2(1) == 2.0
  {
    if j > 0 {
      Pow2Adds(j - 1, k);
      Reassociate(Pow2(k), Pow2(j - 1));
    }
  }

  lemma HalfEach(x: real, y: real)
    ensures x * (0.5 + y * 0.5) == x * (1.0 + y) / 2.0
  {
  }

  /** Each delay, written out: Min * 2^k capped at Max, times a factor between a half and one if there is jitter. */
  lemma DelayIs(p: Policy, k: nat, random: real)
    ensures var plain := if p.minDelay * Pow2(k) > p.maxDelay then p.maxDelay else p.minDelay * Pow2(k);
            ComputeDelay(p, k, random) == if p.jitter then plain * (1.0 + random) / 2.0 else plain
  {
    DoubledIsPower(p.minDelay, k);
    var plain := if p.minDelay * Pow2(k) > p.maxDelay then p.maxDelay else p.minDelay * Pow2(k);
    HalfEach(plain, random);
  }
}
