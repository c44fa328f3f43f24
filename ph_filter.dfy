/**
 The acidity-probe noise filter of the telemetry node (`readPH`): 50 raw ADC
 readings are collected into a fixed buffer, the buffer is sorted ascending in
 place by an exchange sort, and the middle 20 sorted readings (positions
 15..34) are added up into an `unsigned long` accumulator. The 15 lowest and
 15 highest readings are discarded as noise. The accumulator holds the SUM of
 the window; the division by 20 happens later, in the floating-point voltage
 formula, which is not part of this model.
 */
module PhFilter {
  import opened Sorting

  /** Number of readings taken per cycle. */
  const BATCH_SIZE: nat := 50
  /** First sorted position kept by the filter. */
  const TRIM_LOW: nat := 15
  /** One past the last sorted position kept by the filter. */
  const TRIM_HIGH: nat := 35
  /** Number of readings in the kept window. */
  const WINDOW: nat := TRIM_HIGH - TRIM_LOW
  /** Largest raw reading of the 12-bit ADC (the divisor of the voltage formula). */
  const ADC_MAX: int := 4095
  /** `unsigned long` is 32 bits wide on the target, so it counts modulo 2^32. */
  const ULONG_MOD: int := 0x1_0000_0000

  /** Values an `unsigned long` can hold. */
  type ULong = x: int | 0 <= x < ULONG_MOD

  /** Every reading is one the 12-bit ADC can produce. */
  predicate InAdcRange(s: seq<int>)
  {
    forall i :: 0 <= i < |s| ==> 0 <= s[i] <= ADC_MAX
  }

  /** Every reading lies in the closed interval [lo, hi]. */
  predicate AllWithin(s: seq<int>, lo: int, hi: int)
  {
    forall i :: 0 <= i < |s| ==> lo <= s[i] <= hi
  }

  /** Exact (unbounded) sum of the readings, added left to right. */
  function Sum(s: seq<int>): int
  {
    if s == [] then 0 else Sum(s[..|s| - 1]) + s[|s| - 1]
  }

  /** Arithmetic mean of a non-empty run of readings. */
  function Mean(s: seq<int>): real
    requires |s| > 0
  {
    Sum(s) as real / |s| as real
  }

  /** Smallest reading of a non-empty batch. */
  function Min(s: seq<int>): (m: int)
    requires |s| > 0
    ensures m in s
    ensures forall i :: 0 <= i < |s| ==> m <= s[i]
  {
    if |s| == 1 then s[0]
    else
      var rest := Min(s[..|s| - 1]);
      if s[|s| - 1] < rest then s[|s| - 1] else rest
  }

  /** Largest reading of a non-empty batch. */
  function Max(s: seq<int>): (m: int)
    requires |s| > 0
    ensures m in s
    ensures forall i :: 0 <= i < |s| ==> s[i] <= m
  {
    if |s| == 1 then s[0]
    else
      var rest := Max(s[..|s| - 1]);
      if s[|s| - 1] > rest then s[|s| - 1] else rest
  }

  /** Sum of the kept window, positions TRIM_LOW..TRIM_HIGH-1, of a full buffer. */
  function MiddleSum(buf: seq<int>): int
    requires |buf| == BATCH_SIZE
  {
    Sum(buf[TRIM_LOW..TRIM_HIGH])
  }

  /** The filtered value the node computes from a batch: the middle-window
      sum of the batch once sorted. */
  function FilteredSum(samples: seq<int>): int
    requires |samples| == BATCH_SIZE
  {
    MiddleSum(SortedOf(samples))
  }

  /** The trimmed mean of a batch: the mean of its middle 20 sorted readings. */
  function TrimmedMean(samples: seq<int>): real
    requires |samples| == BATCH_SIZE
  {
    Mean(SortedOf(samples)[TRIM_LOW..TRIM_HIGH])
  }

  /** A sum of readings that all lie in [lo, hi] lies between |s|*lo and |s|*hi. */
  lemma {:induction false} SumBounds(s: seq<int>, lo: int, hi: int)
    requires AllWithin(s, lo, hi)
    ensures |s| * lo <= Sum(s) <= |s| * hi
  {
    if s != [] {
      var init := s[..|s| - 1];
      assert AllWithin(init, lo, hi) by {
        forall i | 0 <= i < |init| ensures lo <= init[i] <= hi {
          assert init[i] == s[i];
        }
      }
      SumBounds(init, lo, hi);
      assert |s| * lo == |init| * lo + lo;
      assert |s| * hi == |init| * hi + hi;
    }
  }

  /** Sorting keeps every reading inside any interval that held the batch. */
  lemma SortedOfWithin(s: seq<int>, lo: int, hi: int)
    requires AllWithin(s, lo, hi)
    ensures AllWithin(SortedOf(s), lo, hi)
  {
    var r := SortedOf(s);
    forall i | 0 <= i < |r| ensures lo <= r[i] <= hi {
      assert r[i] in multiset(r);
      assert r[i] in multiset(s);
      var k :| 0 <= k < |s| && s[k] == r[i];
    }
  }

  /** If every sample lies in [lo, hi], the filtered sum lies in [20*lo, 20*hi]. */
  lemma FilteredSumBounds(samples: seq<int>, lo: int, hi: int)
    requires |samples| == BATCH_SIZE
    requires AllWithin(samples, lo, hi)
    ensures WINDOW * lo <= FilteredSum(samples) <= WINDOW * hi
  {
    SortedOfWithin(samples, lo, hi);
    var window := SortedOf(samples)[TRIM_LOW..TRIM_HIGH];
    assert AllWithin(window, lo, hi) by {
      forall i | 0 <= i < |window| ensures lo <= window[i] <= hi {
        assert window[i] == SortedOf(samples)[TRIM_LOW + i];
      }
    }
    SumBounds(window, lo, hi);
  }

  /** The filtered sum lies between 20 times the smallest and 20 times the
      largest sample. */
  lemma FilteredSumWithinRange(samples: seq<int>)
    requires |samples| == BATCH_SIZE
    ensures WINDOW * Min(samples) <= FilteredSum(samples) <= WINDOW * Max(samples)
  {
    FilteredSumBounds(samples, Min(samples), Max(samples));
  }

  /** The trimmed mean never leaves the batch's range. */
  lemma TrimmedMeanWithinRange(samples: seq<int>)
    requires |samples| == BATCH_SIZE
    ensures Min(samples) as real <= TrimmedMean(samples) <= Max(samples) as real
  {
    FilteredSumWithinRange(samples);
    FilteredSumIsTwentyTrimmedMeans(samples);
    ScaledBounds(FilteredSum(samples), Min(samples), Max(samples));
  }

  /** Dividing a value in [20*lo, 20*hi] by 20 gives a value in [lo, hi]. */
  lemma ScaledBounds(sum: int, lo: int, hi: int)
    requires WINDOW * lo <= sum <= WINDOW * hi
    ensures lo as real <= sum as real / WINDOW as real <= hi as real
  {
  }

  /** With readings from the 12-bit ADC the filtered sum is at most
      20 * 4095 = 81900, so the 32-bit accumulator never wraps: reducing the
      sum modulo 2^32 leaves it unchanged. */
  lemma FilteredSumFitsULong(samples: seq<int>)
    requires |samples| == BATCH_SIZE
    requires InAdcRange(samples)
    ensures 0 <= FilteredSum(samples) <= WINDOW * ADC_MAX
    ensures FilteredSum(samples) % ULONG_MOD == FilteredSum(samples)
  {
    FilteredSumBounds(samples, 0, ADC_MAX);
  }

  /** The filtered sum depends only on which readings arrived, not on the
      order in which they arrived. */
  lemma FilteredSumPermutationInvariant(s: seq<int>, t: seq<int>)
    requires |s| == BATCH_SIZE
    requires multiset(s) == multiset(t)
    ensures |t| == BATCH_SIZE
    ensures FilteredSum(s) == FilteredSum(t)
    ensures TrimmedMean(s) == TrimmedMean(t)
  {
    assert |t| == |multiset(t)| == |multiset(s)| == |s|;
    SortedOfPermutationInvariant(s, t);
  }

  /** The accumulator holds 20 times the trimmed mean: dividing it by 20
      recovers the mean of the middle 20 sorted readings. */
  lemma FilteredSumIsTwentyTrimmedMeans(samples: seq<int>)
    requires |samples| == BATCH_SIZE
    ensures FilteredSum(samples) as real == WINDOW as real * TrimmedMean(samples)
  {
  }

  /** A batch of 50 identical readings `v` filters to 20 * v, whose mean is `v`. */
  lemma ConstantBatch(samples: seq<int>, v: int)
    requires |samples| == BATCH_SIZE
    requires forall i :: 0 <= i < |samples| ==> samples[i] == v
    ensures FilteredSum(samples) == WINDOW * v
    ensures TrimmedMean(samples) == v as real
  {
    FilteredSumBounds(samples, v, v);
    FilteredSumIsTwentyTrimmedMeans(samples);
  }

  /** Adding to a value already reduced modulo 2^32 and reducing again gives
      the reduction of the exact sum. */
  lemma ModAddStep(a: int, b: int)
    ensures ((a % ULONG_MOD) + b) % ULONG_MOD == (a + b) % ULONG_MOD
  {
  }

  /** The global state `readPH` works on: the 50-slot sample buffer `buf`,
      the swap scratch `temp` and the `unsigned long` accumulator `avgValue`. */
  class PhReader {
    const buf: array<int>
    var temp: int
    var avgValue: ULong

    ghost predicate Valid()
      reads this
    {
      buf.Length == BATCH_SIZE
    }

    constructor ()
      ensures Valid() && fresh(buf)
      ensures avgValue == 0
    {
      buf := new int[BATCH_SIZE];
      temp := 0;
      avgValue := 0;
    }

    /** Fills the buffer with one cycle's readings, in arrival order. */
    method Sample(readings: seq<int>)
      requires Valid() && |readings| == BATCH_SIZE
      modifies buf
      ensures buf[..] == readings
    {
      for i := 0 to BATCH_SIZE
        invariant buf[..i] == readings[..i]
      {
        buf[i] := readings[i];
      }
    }

    /** The exchange sort: for each position i, every later position j whose
        reading is smaller is swapped into i through `temp`. */
    method Sort()
      requires Valid()
      modifies this`temp, buf
      ensures IsSorted(buf[..])
      ensures multiset(buf[..]) == multiset(old(buf[..]))
      ensures buf[..] == SortedOf(old(buf[..]))
    {
      ghost var input := buf[..];
      for i := 0 to BATCH_SIZE - 1
        invariant multiset(buf[..]) == multiset(input)
        invariant Settled(buf[..], i)
      {
        for j := i + 1 to BATCH_SIZE
          invariant multiset(buf[..]) == multiset(input)
          invariant Settled(buf[..], i)
          invariant HeadBelow(buf[..], i, j)
        {
          ghost var before := buf[..];
          ExchangeStep(before, i, j);
          if buf[i] > buf[j] {
            temp := buf[i];
            buf[i] := buf[j];
            buf[j] := temp;
          }
          assert buf[..] == Exchanged(before, i, j);
        }
      }
      SettledIsSorted(buf[..]);
      SortedOfCharacterized(input, buf[..]);
    }

    /** Resets the accumulator and adds up the kept window of the buffer,
        wrapping modulo 2^32 as the `unsigned long` does. */
    method SumMiddle()
      requires Valid()
      modifies this`avgValue
      ensures avgValue == MiddleSum(buf[..]) % ULONG_MOD
    {
      avgValue := 0;
      for i := TRIM_LOW to TRIM_HIGH
        invariant avgValue == Sum(buf[TRIM_LOW..i]) % ULONG_MOD
      {
        assert buf[TRIM_LOW..i + 1] == buf[TRIM_LOW..i] + [buf[i]];
        ModAddStep(Sum(buf[TRIM_LOW..i]), buf[i]);
        avgValue := (avgValue + buf[i]) % ULONG_MOD;
      }
    }

    /** One run of the filter on a cycle's readings: sample, sort, sum the
        window. Returns the accumulator, which does not depend on what the
        buffer or the accumulator held before. */
    method ReadPH(readings: seq<int>) returns (sum: ULong)
      requires Valid() && |readings| == BATCH_SIZE
      modifies this`temp, this`avgValue, buf
      ensures buf[..] == SortedOf(readings)
      ensures sum == avgValue
      ensures avgValue == FilteredSum(readings) % ULONG_MOD
      ensures InAdcRange(readings) ==> avgValue == FilteredSum(readings)
    {
      Sample(readings);
      Sort();
      SumMiddle();
      sum := avgValue;
      if InAdcRange(readings) {
        FilteredSumFitsULong(readings);
      }
    }
  }
}
