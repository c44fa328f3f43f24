/**
 The branch structure of one pass of the node's control loop (`loop`). The
 sensor values, float formulas and network calls are abstracted away; what
 remains is which observable steps a pass performs, and in which order, as a
 function of the two conditions the loop tests: whether the temperature probe
 returned its disconnected sentinel and whether WiFi is connected.
 */
module Cycle {

  /** How a pass of the loop ends. */
  datatype Outcome =
    | Abort         // probe disconnected: error logged, nothing else done
    | ReportAndLog  // readings computed, logged and posted
    | LogOnly       // readings computed and logged; WiFi down, nothing posted

  /** The observable steps of one pass, as the loop body performs them. */
  datatype Step =
    | FilterPh          // readPH: 50 samples, sort, trimmed sum, pH
    | ReadMoisture      // soil-moisture reading and humidity
    | ReadTemperature   // temperature probe request and read
    | ReportProbeError  // error line for a disconnected probe
    | ComputeNutrients  // Fahrenheit and the N, P, K formulas
    | LogReadings       // the serial block of all readings
    | PostReport        // time fetch, JSON payload, one HTTP POST, response log
    | ReportWifiDown    // notice that WiFi is disconnected
    | IdleDelay         // the one-second wait at the end of the pass

  /** The steps of one pass, in program order. A disconnected probe returns
      from the loop body right after its error line. */
  function CycleSteps(probeDisconnected: bool, wifiConnected: bool): (steps: seq<Step>)
    ensures |steps| >= 4
    ensures steps[..3] == [FilterPh, ReadMoisture, ReadTemperature]
  {
    [FilterPh, ReadMoisture, ReadTemperature] +
    if probeDisconnected then
      [ReportProbeError]
    else
      [ComputeNutrients, LogReadings]
      + (if wifiConnected then [PostReport] else [ReportWifiDown])
      + [IdleDelay]
  }

  /** Step `a` occurs strictly before step `b` in `steps`. */
  ghost predicate Before(steps: seq<Step>, a: Step, b: Step)
  {
    exists i, j :: 0 <= i < j < |steps| && steps[i] == a && steps[j] == b
  }

  /** The outcome of a pass, classified from the two conditions the loop tests. */
  function CycleOutcome(probeDisconnected: bool, wifiConnected: bool): (r: Outcome)
    ensures r == Abort <==> LogReadings !in CycleSteps(probeDisconnected, wifiConnected)
    ensures r == ReportAndLog <==> PostReport in CycleSteps(probeDisconnected, wifiConnected)
  {
    if probeDisconnected then Abort
    else if wifiConnected then ReportAndLog
    else LogOnly
  }

  /** A disconnected probe aborts the pass: the error line is its last step,
      and no nutrient is computed, nothing is logged or posted, and the
      one-second idle wait is skipped as well. */
  lemma DisconnectedProbeAbortsCycle(wifiConnected: bool)
    ensures CycleOutcome(true, wifiConnected) == Abort
    ensures var steps := CycleSteps(true, wifiConnected);
      && steps[|steps| - 1] == ReportProbeError
      && ComputeNutrients !in steps && LogReadings !in steps
      && PostReport !in steps && ReportWifiDown !in steps
      && IdleDelay !in steps
  {
  }

  /** The pH filter runs before the probe is checked, so it runs in every
      pass, an aborted one included. */
  lemma {:induction false} FilterRunsBeforeProbeCheck(probeDisconnected: bool, wifiConnected: bool)
    ensures Before(CycleSteps(probeDisconnected, wifiConnected), FilterPh, ReadTemperature)
  {
    var steps := CycleSteps(probeDisconnected, wifiConnected);
    assert steps[0] == FilterPh && steps[2] == ReadTemperature;
  }

  /** With the probe connected, every pass computes and then logs the
      readings, posts them when WiFi is connected and otherwise reports WiFi
      down, and ends with the idle wait. */
  lemma {:induction false} ConnectedProbeLogsAndSendsIffWifi(wifiConnected: bool)
    ensures CycleOutcome(false, wifiConnected) != Abort
    ensures var steps := CycleSteps(false, wifiConnected);
      && Before(steps, ComputeNutrients, LogReadings)
      && (wifiConnected ==> Before(steps, LogReadings, PostReport))
      && (PostReport in steps <==> wifiConnected)
      && (ReportWifiDown in steps <==> !wifiConnected)
      && ReportProbeError !in steps
      && steps[|steps| - 1] == IdleDelay
  {
    var steps := CycleSteps(false, wifiConnected);
    assert steps[3] == ComputeNutrients && steps[4] == LogReadings;
    assert steps[5] == if wifiConnected then PostReport else ReportWifiDown;
  }

  /** A pass makes at most one transmission attempt: no retry within a cycle. */
  lemma AtMostOnePost(probeDisconnected: bool, wifiConnected: bool)
    ensures multiset(CycleSteps(probeDisconnected, wifiConnected))[PostReport]
      == (if !probeDisconnected && wifiConnected then 1 else 0)
  {
  }
}
