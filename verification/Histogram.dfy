/** The latency histogram: 65 bins of exponential width over 64-bit samples, with a running count,
    sum and maximum.
 */
module Histogram {
  const MAX_BINS: nat := 65
  const MAX_TRIAL: nat := 3
  const U64: nat := 0x1_0000_0000_0000_0000

  function Pow2(n: nat): (r: nat)
    ensures r >= 1
  {
    if n == 0 then 1 else 2 * Pow2(n - 1)
  }

  lemma {:induction false} Pow2Grows(m: nat, n: nat)
    requires m <= n
    ensures Pow2(m) <= Pow2(n)
    decreases n
  {
    if m < n {
      Pow2Grows(m, n - 1);
    }
  }

  lemma Pow2Nibble(n: nat)
    ensures Pow2(n + 4) == 16 * Pow2(n)
  {
    assert Pow2(n + 2) == 4 * Pow2(n) by { assert Pow2(n + 1) == 2 * Pow2(n); }
    assert Pow2(n + 4) == 4 * Pow2(n + 2) by { assert Pow2(n + 3) == 2 * Pow2(n + 2); }
  }

  lemma Pow2Byte(n: nat)
    ensures Pow2(n + 8) == 256 * Pow2(n)
  {
    Pow2Nibble(n);
    Pow2Nibble(n + 4);
  }

  lemma Pow2Of64()
    ensures Pow2(64) == U64
  {
    assert Pow2(0) == 1;
    Pow2Byte(0);
    Pow2Byte(8);
    Pow2Byte(16);
    Pow2Byte(24);
    Pow2Byte(32);
    Pow2Byte(40);
    Pow2Byte(48);
    Pow2Byte(56);
  }

  /** The number of binary digits of a sample. */
  function Digits(v: nat): nat {
    if v == 0 then 0 else 1 + Digits(v / 2)
  }

  /** A sample with n digits lies in [2^(n-1), 2^n). */
  lemma {:induction false} DigitsBound(v: nat)
    ensures v < Pow2(Digits(v))
    ensures v > 0 ==> Digits(v) >= 1 && Pow2(Digits(v) - 1) <= v
  {
    if v > 0 {
      DigitsBound(v / 2);
    }
  }

  lemma DigitsAtMost64(v: nat)
    requires v < U64
    ensures Digits(v) <= 64
  {
    DigitsBound(v);
    Pow2Of64();
    if Digits(v) > 64 {
      Pow2Grows(64, Digits(v) - 1);
    }
  }

  /** The bin of a sample: the number of leading zeroes of its 64 digits, 64 for the sample 0. */
  function BinOf(v: nat): nat
    requires v < U64
  {
    DigitsAtMost64(v);
    64 - Digits(v)
  }

  function LowerBound(idx: nat): nat
    requires idx < MAX_BINS
  {
    if idx == 64 then 0 else Pow2(63 - idx)
  }

  /** The upper bound, which belongs to the bin only for bin 0. */
  function UpperBound(idx: nat): nat
    requires idx < MAX_BINS
  {
    if idx == 0 then U64 - 1 else Pow2(64 - idx)
  }

  lemma UpperFits(idx: nat)
    requires idx < MAX_BINS
    ensures UpperBound(idx) < U64
  {
    if idx > 0 {
      Pow2Grows(64 - idx, 63);
      Pow2Of64();
    }
  }

  /** A sample lies within its bin's bounds, and in no other bin's. */
  lemma BinIsRight(v: nat, idx: nat)
    requires v < U64 && idx < MAX_BINS
    ensures BinOf(v) == idx <==> LowerBound(idx) <= v && if idx == 0 then v <= UpperBound(idx) else v < UpperBound(idx)
    ensures UpperBound(idx) < U64 && UpperBound(0) == 0xFFFF_FFFF_FFFF_FFFF
  {
    UpperFits(idx);
    DigitsBound(v);
    Pow2Of64();
    if 64 - idx < Digits(v) {
      Pow2Grows(64 - idx, Digits(v) - 1);
    } else if Digits(v) < 64 - idx {
      Pow2Grows(Digits(v), 63 - idx);
    }
  }

  // ---------- Samples ----------

  predicate Sampled(samples: seq<nat>) {
    forall i :: 0 <= i < |samples| ==> samples[i] < U64
  }

  function Total(samples: seq<nat>): nat {
    if samples == [] then 0 else Total(samples[..|samples| - 1]) + samples[|samples| - 1]
  }

  function Largest(samples: seq<nat>): nat {
    if samples == [] then 0
    else
      var rest, v := Largest(samples[..|samples| - 1]), samples[|samples| - 1];
      if rest < v then v else rest
  }

  /** How many samples fall into a bin below `k`. */
  function Below(samples: seq<nat>, k: nat): nat
    requires Sampled(samples)
  {
    if samples == [] then 0
    else Below(samples[..|samples| - 1], k) + if BinOf(samples[|samples| - 1]) < k then 1 else 0
  }

  /** How many samples fall into bin `k`. */
  function InBin(samples: seq<nat>, k: nat): nat
    requires Sampled(samples)
  {
    if samples == [] then 0
    else InBin(samples[..|samples| - 1], k) + if BinOf(samples[|samples| - 1]) == k then 1 else 0
  }

  /** How many samples are at or above `x`. */
  function AtLeast(samples: seq<nat>, x: nat): nat {
    if samples == [] then 0
    else AtLeast(samples[..|samples| - 1], x) + if samples[|samples| - 1] >= x then 1 else 0
  }

  lemma {:induction false} BelowStep(samples: seq<nat>, k: nat)
    requires Sampled(samples)
    ensures Below(samples, k + 1) == Below(samples, k) + InBin(samples, k)
    ensures Below(samples, 0) == 0 && Below(samples, k + 1) <= |samples| == Below(samples, MAX_BINS)
  {
    if samples != [] {
      BelowStep(samples[..|samples| - 1], k);
    }
  }

  /** Bins are ordered from large samples to small ones. */
  lemma BinOrder(v: nat, k: nat)
    requires v < U64 && k < MAX_BINS
    ensures BinOf(v) <= k <==> v >= LowerBound(k)
  {
    DigitsBound(v);
    Pow2Of64();
    if 64 - k <= Digits(v) && k < 64 {
      Pow2Grows(63 - k, Digits(v) - 1);
    } else if Digits(v) < 64 - k {
      Pow2Grows(Digits(v), 63 - k);
    }
  }

  /** The samples in the bins up to `k` are those at or above its lower bound. */
  lemma {:induction false} BelowIsAtLeast(samples: seq<nat>, k: nat)
    requires Sampled(samples) && k < MAX_BINS
    ensures Below(samples, k + 1) == AtLeast(samples, LowerBound(k))
  {
    if samples != [] {
      BelowIsAtLeast(samples[..|samples| - 1], k);
      BinOrder(samples[|samples| - 1], k);
    }
  }

  lemma {:induction false} Concat(a: seq<nat>, b: seq<nat>, k: nat)
    requires Sampled(a) && Sampled(b)
    ensures Sampled(a + b) && InBin(a + b, k) == InBin(a, k) + InBin(b, k)
    ensures Total(a + b) == Total(a) + Total(b)
    ensures Largest(a + b) == if Largest(a) < Largest(b) then Largest(b) else Largest(a)
    decreases |b|
  {
    if b == [] {
      assert a + b == a;
    } else {
      Concat(a, b[..|b| - 1], k);
      assert (a + b)[..|a + b| - 1] == a + b[..|b| - 1];
    }
  }

  lemma SumWraps(a: nat, b: nat)
    ensures (a % U64 + b % U64) % U64 == (a + b) % U64
  {
    assert a == U64 * (a / U64) + a % U64 && b == U64 * (b / U64) + b % U64;
    assert (a % U64 + b % U64) - (a + b) == U64 * -(a / U64 + b / U64);
  }

  /** The bins count the samples. */
  ghost predicate Tallies(bins: seq<nat>, samples: seq<nat>) {
    Sampled(samples) && |bins| == MAX_BINS && forall k :: 0 <= k < MAX_BINS ==> bins[k] == InBin(samples, k)
  }

  lemma TallyOne(bins: seq<nat>, samples: seq<nat>, val: nat)
    requires Tallies(bins, samples) && val < U64
    ensures Tallies(bins[BinOf(val) := bins[BinOf(val)] + 1], samples + [val])
  {
    assert (samples + [val])[..|samples|] == samples;
  }

  lemma OneMore(samples: seq<nat>, val: nat)
    requires val < U64
    ensures Total(samples + [val]) % U64 == (Total(samples) % U64 + val) % U64
    ensures Largest(samples + [val]) == if Largest(samples) < val then val else Largest(samples)
  {
    assert (samples + [val])[..|samples|] == samples;
    SumWraps(Total(samples), val);
  }

  lemma ConcatBins(a: seq<nat>, b: seq<nat>)
    requires Sampled(a) && Sampled(b)
    ensures Sampled(a + b) && forall k :: 0 <= k < MAX_BINS ==> InBin(a + b, k) == InBin(a, k) + InBin(b, k)
    ensures Total(a + b) % U64 == (Total(a) % U64 + Total(b) % U64) % U64
    ensures Largest(a + b) == if Largest(a) < Largest(b) then Largest(b) else Largest(a)
  {
    forall k: nat ensures Sampled(a + b) && InBin(a + b, k) == InBin(a, k) + InBin(b, k) {
      Concat(a, b, k);
    }
    Concat(a, b, 0);
    SumWraps(Total(a), Total(b));
  }

  class Histogram {
    const bins: array<nat>
    var count: nat
    var sum: nat
    var max: nat
    /** Everything recorded so far. */
    ghost var samples: seq<nat>

    ghost predicate Valid()
      reads this, bins
    {
      && bins.Length == MAX_BINS && Tallies(bins[..], samples)
      && count == |samples| && sum == Total(samples) % U64 && max == Largest(samples)
    }

    constructor ()
      ensures Valid() && samples == [] && fresh(bins)
    {
      bins := new nat[MAX_BINS](_ => 0);
      count, sum, max := 0, 0, 0;
      samples := [];
    }

    /** Records a sample. The sum wraps around at 64 bits. */
    method Add(val: nat)
      requires Valid() && val < U64
      modifies this, bins
      ensures Valid() && samples == old(samples) + [val]
    {
      TallyOne(bins[..], samples, val);
      OneMore(samples, val);
      var idx := BinOf(val);
      bins[idx] := bins[idx] + 1;
      count := count + 1;
      sum := (sum + val) % U64;
      RaiseMax(val);
      samples := samples + [val];
    }

    method RaiseMax(val: nat)
      modifies this`max
      ensures max == if old(max) < val then val else old(max)
    {
      var trial := 0;
      while trial < MAX_TRIAL && max < val
        invariant trial == 0 ==> max == old(max)
        invariant trial > 0 ==> old(max) < val == max
      {
        trial := trial + 1;
        max := val;
      }
    }

    method AddBins(other: array<nat>)
      requires bins.Length == other.Length == MAX_BINS
      modifies bins
      ensures forall k :: 0 <= k < MAX_BINS ==> bins[k] == old(bins[k]) + old(other[k])
    {
      for i := 0 to MAX_BINS
        invariant forall k :: 0 <= k < i ==> bins[k] == old(bins[k]) + old(other[k])
        invariant forall k :: i <= k < MAX_BINS ==> bins[k] == old(bins[k]) && other[k] == old(other[k])
      {
        bins[i] := bins[i] + other[i];
      }
    }

    /** Adds another histogram, or this one once more, to this one. */
    method Merge(rhs: Histogram)
      requires Valid() && rhs.Valid()
      modifies this, bins
      ensures Valid() && samples == old(samples) + old(rhs.samples)
    {
      ConcatBins(samples, rhs.samples);
      ghost var both := samples + rhs.samples;
      var most := if max < rhs.max then rhs.max else max;
      count, sum := count + rhs.count, (sum + rhs.sum) % U64;
      max := most;
      AddBins(rhs.bins);
      samples := both;
    }

    /** The first bin, from the largest samples on, at which the samples counted reach `threshold`;
        MAX_BINS when there are fewer samples than that. */
    method Find(threshold: nat) returns (idx: nat)
      requires Valid() && threshold > 0
      ensures idx <= MAX_BINS && (idx == MAX_BINS <==> threshold > |samples|)
      ensures idx < MAX_BINS ==> AtLeast(samples, LowerBound(idx)) >= threshold
      ensures 0 < idx < MAX_BINS ==> AtLeast(samples, UpperBound(idx)) < threshold
    {
      var acc := 0;
      BelowStep(samples, 0);
      for i := 0 to MAX_BINS
        invariant acc == Below(samples, i) < threshold
      {
        BelowStep(samples, i);
        BelowIsAtLeast(samples, i);
        acc := acc + bins[i];
        if acc >= threshold {
          if i > 0 {
            BelowIsAtLeast(samples, i - 1);
            assert LowerBound(i - 1) == UpperBound(i);
          }
          return i;
        }
      }
      return MAX_BINS;
    }
  }
}
