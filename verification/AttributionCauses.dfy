/** Which recorded facts stand behind each kind of change and each cause named. */
module AttributionCauses {
  import opened Attribution
  import opened FindingStates
  import opened Wrappers

  /** A finding is out of the queue from the moment it is called remediated, and
      back in it when deferred; seen again, it is reopened if it was called
      remediated, verified or closed. */
  lemma {:induction false} OutOfTheQueueIff(i: nat)
    requires i < 15
    ensures STATES[i] in FIXED <==> 6 <= i <= 13
    ensures STATES[i] in REOPENABLE <==> i in {6, 8, 9}
  {
  }

  /** The states of a transition: the columns first, then the details, then what the
      name of the event says. */
  lemma {:induction false} StatesAreRead(e: Event)
    ensures e.fromState.Some? ==> From(e) == e.fromState
    ensures e.fromState.None? && e.detailFrom.Some? ==> From(e) == e.detailFrom
    ensures e.fromState.None? && e.detailFrom.None? ==> From(e) == e.previousState
    ensures e.toState.Some? ==> To(e) == e.toState
    ensures e.toState.None? && e.detailTo.Some? ==> To(e) == e.detailTo
    ensures e.toState.None? && e.detailTo.None? ==>
              && (e.name == "reopened" ==> To(e) == Some("new"))
              && (e.name in {"remediated", "no_longer_applicable"} ==> To(e) == Some("remediated"))
              && (e.name == "risk_accepted" ==> To(e) == Some("accepted_risk"))
              && (e.name == "risk_acceptance_ended" ==> To(e) == e.restoredState)
              && (e.name == "state_changed" ==> To(e) == None)
  {
  }

  predicate Out(state: Option<string>) {
    state.Some? && state.value in FIXED
  }

  predicate In(state: Option<string>) {
    state.Some? && state.value !in FIXED
  }

  /** A reopen says so or leads back into the queue; a close leads out of it from
      anywhere else; and everything else is progress. */
  lemma {:induction false} KindsIff(e: Event)
    ensures KindOf(e) == ReopenedIt <==> e.name == "reopened" || (Out(From(e)) && In(To(e)))
    ensures KindOf(e) == ClosedIt <==> e.name != "reopened" && Out(To(e)) && !Out(From(e))
    ensures IsTransition(e) <==>
            e.name in {"state_changed", "reopened", "remediated", "no_longer_applicable", "risk_accepted",
                       "risk_acceptance_ended"}
  {
  }

  // --------------------------------------------------------------- causes --

  predicate MissedByScans(e: Event) {
    || e.origin == Some("reimport_absence")
    || (e.name == "remediated" && e.reason == Some("absent from scanner export"))
  }

  /** Its name alone says what kind of thing happened. */
  predicate SelfNamed(e: Event) {
    e.name in {"reopened", "risk_accepted", "risk_acceptance_ended", "no_longer_applicable"}
  }

  /** An installed version changed no later than this, and no earlier than `since`. */
  ghost predicate VersionChanged(events: seq<Event>, since: Option<int>, at: int) {
    exists i :: && 0 <= i < |events| && events[i].name == "inventory_version_changed" && events[i].at <= at
                && (since.Some? ==> since.value <= events[i].at)
  }

  predicate Matched(e: Event) {
    e.origin == Some("correlation") || e.scanner == Some("veyrs-correlation")
  }

  predicate ByWorkflow(e: Event) {
    e.origin == Some("workflow") || (e.origin.None? && e.note == Some("workflow") && !e.byUser)
  }

  predicate ByHand(e: Event) {
    e.origin == Some("operator") || (e.origin.None? && e.byUser)
  }

  /** What must have been recorded for each cause of what the engines do. */
  lemma {:induction false} EngineCausesIff(events: seq<Event>, e: Event, since: Option<int>)
    ensures var cause, missed := CauseOf(events, e, since), MissedByScans(e);
      && (cause == ReimportAbsence <==> missed)
      && (cause == RescanSeenAgain <==> !missed && e.name == "reopened" && !Matched(e))
      && (cause == CorrelationRescan <==>
            && !missed
            && ((e.name == "reopened" && Matched(e))
                || (e.name == "no_longer_applicable" && !VersionChanged(events, since, e.at))))
      && (cause == InventoryChanged <==>
            !missed && e.name == "no_longer_applicable" && VersionChanged(events, since, e.at))
      && (cause == AcceptanceApproved <==> !missed && e.name == "risk_accepted")
      && (cause == AcceptanceRevoked <==>
            !missed && e.name == "risk_acceptance_ended" && e.reason == Some("revoked"))
      && (cause == AcceptanceExpired <==>
            !missed && e.name == "risk_acceptance_ended" && e.reason != Some("revoked"))
  {
    assert InventoryMoved(events, since, e.at) <==> VersionChanged(events, since, e.at);
  }

  /** And for each cause of what people, tickets and rules do. */
  lemma {:induction false} OtherCausesIff(events: seq<Event>, e: Event, since: Option<int>)
    ensures var cause := CauseOf(events, e, since);
      var other := !MissedByScans(e) && !SelfNamed(e);
      var ticket := e.origin == Some("ticket");
      && (cause == TicketClosedExternal <==> other && ticket && e.external && Out(To(e)))
      && (cause == TicketReopenedExternal <==> other && ticket && e.external && !Out(To(e)))
      && (cause == TicketResolved <==> other && ticket && !e.external)
      && (cause == WorkflowRule <==> other && ByWorkflow(e))
      && (cause == AssignmentRule <==> other && e.origin == Some("assignment"))
      && (cause == VerificationPassed <==>
            other && ByHand(e) && From(e) == Some("verification") && To(e) == Some("verified"))
      && (cause == VerificationFailed <==>
            other && ByHand(e) && From(e) == Some("verification") && To(e) == Some("in_progress"))
      && (cause == Operator <==>
            && other && ByHand(e)
            && !(From(e) == Some("verification") && To(e) in {Some("verified"), Some("in_progress")}))
      && (cause == UnknownCause <==>
            other && !ticket && !ByWorkflow(e) && e.origin != Some("assignment") && !ByHand(e))
  {
  }
}
