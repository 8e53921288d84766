/** The states of a finding. */
module FindingStates {
  const OPEN: set<string> :=
    {"new", "triaged", "risk_assessed", "assigned", "in_progress", "mitigation", "remediated", "verification",
     "deferred"}

  const CLOSED: set<string> :=
    {"verified", "closed", "false_positive", "duplicate", "accepted_risk", "exception"}

  /** The workflow in order, and the five ways out of it. */
  const STATES: seq<string> :=
    ["new", "triaged", "risk_assessed", "assigned", "in_progress", "mitigation", "remediated", "verification",
     "verified", "closed", "false_positive", "duplicate", "accepted_risk", "exception", "deferred"]

  /** Every state is open or closed and none is both: open up to verification, and
      while deferred. */
  lemma {:induction false} EveryStateIsOpenOrClosed(i: nat)
    requires i < 15
    ensures STATES[i] in OPEN <==> i < 8 || i == 14
    ensures STATES[i] in CLOSED <==> STATES[i] !in OPEN
  {
  }
}
