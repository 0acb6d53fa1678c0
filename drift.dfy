/** `AutonomyDriftMonitor`: classifies each autonomy index against two
    thresholds and remembers the last 100 indices it was asked about. */
module Drift {

  datatype DriftStatus = Nominal | Warning | Critical

  const DefaultWarningThreshold: real := 0.3
  const DefaultCriticalThreshold: real := 0.7
  /** The history keeps at most this many indices. */
  const HistoryCapacity: nat := 100

  /** The status `check_drift` reports for `index`. */
  function Classify(index: real, warningThreshold: real, criticalThreshold: real): DriftStatus {
    if index >= criticalThreshold then Critical
    else if index >= warningThreshold then Warning
    else Nominal
  }

  /** How serious a status is, for comparing statuses. */
  function Severity(status: DriftStatus): nat {
    match status
    case Nominal => 0
    case Warning => 1
    case Critical => 2
  }

  /** The history after appending an index: when it grew past the capacity,
      its oldest entry is dropped once (`pop(0)`). */
  function Retain(history: seq<real>): seq<real> {
    if |history| > HistoryCapacity then history[1..] else history
  }

  /** Critical exactly at or above the critical threshold; otherwise Warning
      exactly at or above the warning threshold; Nominal below both. */
  lemma ClassifyThresholds(index: real, warningThreshold: real, criticalThreshold: real)
    ensures Classify(index, warningThreshold, criticalThreshold) == Critical <==> index >= criticalThreshold
    ensures Classify(index, warningThreshold, criticalThreshold) == Warning <==>
              index < criticalThreshold && index >= warningThreshold
    ensures Classify(index, warningThreshold, criticalThreshold) == Nominal <==>
              index < criticalThreshold && index < warningThreshold
  {
  }

  /** Whatever the two thresholds, a larger index is never classified as less
      serious. */
  lemma ClassifyMonotone(a: real, b: real, warningThreshold: real, criticalThreshold: real)
    requires a <= b
    ensures Severity(Classify(a, warningThreshold, criticalThreshold)) <=
            Severity(Classify(b, warningThreshold, criticalThreshold))
  {
  }

  /** The default thresholds include their boundaries. */
  lemma DefaultBoundaries()
    ensures Classify(0.7, DefaultWarningThreshold, DefaultCriticalThreshold) == Critical
    ensures Classify(0.95, DefaultWarningThreshold, DefaultCriticalThreshold) == Critical
    ensures Classify(0.3, DefaultWarningThreshold, DefaultCriticalThreshold) == Warning
    ensures Classify(0.14, DefaultWarningThreshold, DefaultCriticalThreshold) == Nominal
  {
  }

  /** Appending to a history within capacity keeps it within capacity, puts the
      new index last, and drops only the oldest entry when it was full. */
  lemma RetainAppend(history: seq<real>, index: real)
    requires |history| <= HistoryCapacity
    ensures var h := Retain(history + [index]);
            |h| <= HistoryCapacity &&
            |h| > 0 && h[|h| - 1] == index &&
            (|history| == HistoryCapacity ==> h == history[1..] + [index]) &&
            (|history| < HistoryCapacity ==> h == history + [index])
  {
  }

  class AutonomyDriftMonitor {
    const warningThreshold: real
    const criticalThreshold: real
    var driftHistory: seq<real>

    ghost predicate Valid()
      reads this
    {
      |driftHistory| <= HistoryCapacity
    }

    constructor (warningThreshold: real := DefaultWarningThreshold,
                 criticalThreshold: real := DefaultCriticalThreshold)
      ensures Valid()
      ensures this.warningThreshold == warningThreshold
      ensures this.criticalThreshold == criticalThreshold
      ensures driftHistory == []
    {
      this.warningThreshold := warningThreshold;
      this.criticalThreshold := criticalThreshold;
      driftHistory := [];
    }

    /** `check_drift`: record the index, then classify it. */
    method CheckDrift(autonomyIndex: real) returns (status: DriftStatus)
      requires Valid()
      modifies this
      ensures Valid()
      ensures status == Classify(autonomyIndex, warningThreshold, criticalThreshold)
      ensures driftHistory == Retain(old(driftHistory) + [autonomyIndex])
      ensures driftHistory[|driftHistory| - 1] == autonomyIndex
      ensures |old(driftHistory)| == HistoryCapacity ==> driftHistory == old(driftHistory)[1..] + [autonomyIndex]
    {
      RetainAppend(driftHistory, autonomyIndex);
      driftHistory := driftHistory + [autonomyIndex];
      if |driftHistory| > HistoryCapacity {
        driftHistory := driftHistory[1..];
      }
      if autonomyIndex >= criticalThreshold {
        status := Critical;
      } else if autonomyIndex >= warningThreshold {
        status := Warning;
      } else {
        status := Nominal;
      }
    }
  }
}
