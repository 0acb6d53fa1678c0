/** `StateVectorInterpreter` and `IntentMatcher`: readings of single state
    vector scalars, and the intent-label lookup. */
module Interpreter {
  import opened Options

  const DefaultAlignmentThreshold: real := 0.5

  /** `is_intent_aligned`: psi at or above the threshold. */
  predicate IsIntentAligned(psi: real, threshold: real := DefaultAlignmentThreshold) {
    psi >= threshold
  }

  datatype Activity = Idle | Active | Hyperactive

  /** `get_activity_level`: below 0.5 idle, below 2.0 active, else hyperactive. */
  function GetActivityLevel(omega: real): Activity {
    if omega < 0.5 then Idle
    else if omega < 2.0 then Active
    else Hyperactive
  }

  function ActivityRank(a: Activity): nat {
    match a
    case Idle => 0
    case Active => 1
    case Hyperactive => 2
  }

  /** Alignment is upward closed: anything at least as large as an aligned
      psi is aligned too, and the default threshold itself counts as aligned. */
  lemma AlignmentUpwardClosed(psi: real, larger: real, threshold: real)
    requires IsIntentAligned(psi, threshold) && psi <= larger
    ensures IsIntentAligned(larger, threshold)
    ensures IsIntentAligned(DefaultAlignmentThreshold) && !IsIntentAligned(0.2)
  {
  }

  /** The activity bands are [0.5, 2.0) for Active, half-open on the right,
      and a faster rate never gives a lower level. */
  lemma ActivityBands(omega: real, faster: real)
    requires omega <= faster
    ensures GetActivityLevel(omega) == Active <==> 0.5 <= omega < 2.0
    ensures ActivityRank(GetActivityLevel(omega)) <= ActivityRank(GetActivityLevel(faster))
    ensures GetActivityLevel(0.5) == Active && GetActivityLevel(2.0) == Hyperactive
  {
  }

  /** `IntentMatcher.lookup_intent`: the label stored for the hash, if any. */
  function LookupIntent(database: map<string, string>, intentHash: string): Option<string> {
    if intentHash in database then Some(database[intentHash]) else None
  }
}
