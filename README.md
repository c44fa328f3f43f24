# Rice monitoring node: pH noise filter and cycle outcome

A Dafny model of the computational core of an ESP32 field telemetry node that
samples a pH probe, a soil-moisture probe and a temperature probe, and posts
the readings to a collection endpoint once per cycle.

The model covers two parts of `src/main.cpp`:

- **The pH noise filter (`readPH`)**, modelled imperatively in module
  `PhFilter`. Class `PhReader` holds the sketch's globals: the 50-slot buffer
  `buf`, the swap scratch `temp` and the `unsigned long` accumulator
  `avgValue`. `Sample` copies one cycle's 50 readings into `buf`. `Sort` is
  the nested exchange sort, run in place on the array. `SumMiddle` resets
  `avgValue` and adds up sorted positions 15..34. `ReadPH` runs all three in
  order.
- **The branch structure of `loop`**, modelled as pure functions in module
  `Cycle`:
  - `CycleSteps` gives the ordered steps of one pass.
  - `CycleOutcome` classifies the pass as `Abort`, `ReportAndLog` or `LogOnly`.
  - Both are functions of two inputs: whether the temperature probe returned
    its disconnected sentinel, and whether WiFi is connected.

Module `Sorting` provides the specification the sort is proved against.
`SortedOf` is a reference sorted permutation, written as a functional
insertion sort. `SortedUnique` proves that a sorted arrangement of a multiset
is unique. Together they show that the in-place sort produces exactly
`SortedOf` of its input. From that it follows that the filtered value depends
only on the multiset of readings, not on the order they arrived in.

The accumulator is an `unsigned long`, which is 32 bits wide on the ESP32.
`SumMiddle` adds modulo 2^32, as the C++ `+=` does, including for a negative
`int` reading. `FilteredSumFitsULong` proves that readings in the 12-bit ADC
range 0..4095 give a sum of at most 81900. So for real ADC input the
accumulator never wraps.

The code keeps a SUM of the middle 20 readings. The division by 20 happens
only inside the float voltage formula. The model therefore computes the sum
(`FilteredSum`) and proves separately that it equals 20 times the trimmed mean
(`TrimmedMean`).

Where the design description and the code disagree, the model follows the
code:

- On a disconnected probe the design says the cycle goes straight from
  sampling to idle. In the code, `readPH` and the moisture read run before the
  temperature check (src/main.cpp:78-89). So the pH filter runs in every pass,
  an aborted one included. See `FilterRunsBeforeProbeCheck`.
- The design says every cycle ends with a one-second idle delay. In the code,
  the early `return` at src/main.cpp:91 also skips `delay(1000)`
  (src/main.cpp:147). See `DisconnectedProbeAbortsCycle`.

## Model

| member | source | states |
|---|---|---|
| `Sorting.Exchanged` | src/main.cpp:60-64 | one compare-and-swap leaves the multiset of the buffer unchanged and leaves position i no larger than position j |
| `Sorting.ExchangeStep` | src/main.cpp:59-65 | a compare-and-swap at (i, j) keeps every settled position before i settled and extends "buf[i] is no larger than buf[i+1..j]" to j inclusive (the inner-loop invariant) |
| `Sorting.SettledIsSorted` | src/main.cpp:58-66 | when the outer loop has settled positions 0..48, the 50-slot buffer is non-decreasing |
| `Sorting.SortedOf` | src/main.cpp:57-66 | the reference ordering of a batch is non-decreasing, has the same length and holds exactly the same readings (multiset) |
| `Sorting.SortedUnique` | src/main.cpp:57-66 | two non-decreasing sequences with the same multiset of readings are equal, so the sorted buffer is determined by the readings alone |
| `Sorting.SortedOfCharacterized` | src/main.cpp:57-66 | any non-decreasing rearrangement of a batch is the reference ordering of that batch |
| `Sorting.SortedOfPermutationInvariant` | src/main.cpp:57-66 | batches holding the same readings in different arrival orders sort to the same sequence |
| `PhFilter.SumBounds` | src/main.cpp:68-69 | a sum of n readings all within [lo, hi] lies within [n*lo, n*hi] |
| `PhFilter.SortedOfWithin` | src/main.cpp:57-66 | sorting keeps every reading inside any interval that held the whole batch |
| `PhFilter.FilteredSumBounds` | src/main.cpp:57-69 | if all 50 samples lie in [lo, hi], the middle-20 sum lies in [20*lo, 20*hi] |
| `PhFilter.FilteredSumWithinRange` | src/main.cpp:57-69 | the middle-20 sum lies between 20 times the smallest and 20 times the largest sample |
| `PhFilter.TrimmedMeanWithinRange` | src/main.cpp:68-71 | the trimmed mean (the sum divided by 20, as the voltage formula does) lies between the smallest and the largest sample |
| `PhFilter.FilteredSumFitsULong` | src/main.cpp:68-71 | with samples in 0..4095 the middle-20 sum is between 0 and 81900, so reducing it modulo 2^32 changes nothing and the `unsigned long` accumulator does not overflow |
| `PhFilter.FilteredSumPermutationInvariant` | src/main.cpp:57-69 | reordering the 50 input readings changes neither the filtered sum nor the trimmed mean |
| `PhFilter.FilteredSumIsTwentyTrimmedMeans` | src/main.cpp:68-71 | the accumulated sum equals 20 times the mean of sorted positions 15..34 |
| `PhFilter.ConstantBatch` | src/main.cpp:68-71 | 50 identical readings v give a sum of 20*v, and the division by 20 recovers exactly v |
| `PhFilter.ModAddStep` | src/main.cpp:69 | adding to an accumulator already reduced modulo 2^32 gives the reduction of the exact sum, so 32-bit `+=` steps accumulate the sum modulo 2^32 |
| `PhFilter.PhReader.constructor` | src/main.cpp:14-15 | the buffer has 50 slots and the accumulator starts at 0 |
| `PhFilter.PhReader.Sample` | src/main.cpp:52-55 | after sampling, slot i of the buffer holds the i-th reading of the cycle |
| `PhFilter.PhReader.Sort` | src/main.cpp:57-66 | the nested exchange-sort loops leave the buffer non-decreasing, holding the same readings, and equal to the reference ordering of the buffer's old contents |
| `PhFilter.PhReader.SumMiddle` | src/main.cpp:68-69 | after the reset and the loop, the accumulator is the sum of buffer positions 15..34 modulo 2^32, whatever it held before |
| `PhFilter.PhReader.ReadPH` | src/main.cpp:50-69 | one filter run leaves the buffer sorted and sets the accumulator to the middle-20 sum of the sorted readings modulo 2^32; for ADC-range readings it is the exact sum; nothing carries over from an earlier call |
| `Cycle.CycleSteps` | src/main.cpp:76-147 | every pass starts with the pH filter, the moisture read and the temperature read, in that order |
| `Cycle.CycleOutcome` | src/main.cpp:89-145 | the outcome is Abort exactly when the pass logs no readings, and ReportAndLog exactly when the pass posts them |
| `Cycle.DisconnectedProbeAbortsCycle` | src/main.cpp:89-92 | with the disconnected sentinel, the error line is the last step: no nutrients computed, nothing logged or posted, no idle delay |
| `Cycle.FilterRunsBeforeProbeCheck` | src/main.cpp:78-89 | the pH filter runs before the temperature probe is read, in every pass |
| `Cycle.ConnectedProbeLogsAndSendsIffWifi` | src/main.cpp:94-147 | with a connected probe, nutrients are computed before the readings are logged; the POST follows the log and happens exactly when WiFi is connected; otherwise the WiFi-down notice is printed; the pass ends with the idle delay |
| `Cycle.AtMostOnePost` | src/main.cpp:111-145 | a pass makes one POST attempt when the probe is connected and WiFi is up, and none otherwise, so there is no retry |

## Left out

- The analog reads and the 10 ms inter-sample delay (src/main.cpp:53-54). The 50 readings are a parameter of `Sample`/`ReadPH`, and timing is not modelled.
- The float conversions are not modelled: voltage and pH (src/main.cpp:71-72), moisture percentage with its truncation to `int`, humidity (src/main.cpp:82-83), and the N/P/K formulas with their 0.01 guard (src/main.cpp:97-99). `PhFilter.PhReader.ReadPH` returns the accumulator `avgValue` rather than the float pH. The mean is stated over exact reals.
- Reading the temperature probe and converting to Fahrenheit (src/main.cpp:86-87, 94) call the DallasTemperature/OneWire library, which is not part of this model. Only the outcome of the sentinel comparison is modelled, as a boolean input.
- WiFi association and NTP setup (src/main.cpp:32-48) are left out as I/O. So are the JSON string construction, the HTTP POST and its response handling (src/main.cpp:112-142), and all serial printing. In `Cycle` these appear only as the abstract steps `PostReport`, `LogReadings`, `ReportProbeError` and `ReportWifiDown`.
- `PhFilter.PhReader.Sort`: its contract says nothing about the final value of the scratch global `temp`, which no caller reads.
- The 32-bit `int` type of the buffer slots is not modelled: readings are unbounded integers. The sort only compares them, and the sum is taken modulo 2^32 as the `unsigned long` accumulator does.
- The early return at src/main.cpp:91 is modelled as the end of the pass. The next pass, which is the next call of `loop`, is not modelled. Each pass is independent of the one before.
