/** Result intake: when a finished scan counts as evidence about the estate. */
module ScanResult {
  import opened Wrappers

  const MIN_COVERAGE_PERCENT := 80

  datatype Scanner = Scanner(percent: Option<int>, requests: int, errors: int)

  /** What the agent reported about its own run. `probeFailed` is an explicit
      "not reachable"; a probe that said nothing is not a failure. */
  datatype Stats = NoStats | Stats(probeFailed: bool, scanner: Option<Scanner>)

  datatype Refusal = NoCoverageReported | TargetUnreachable | ScanAborted | TooManyErrors

  datatype Coverage = Coverage(attested: bool, refusal: Option<Refusal>)

  function CoverageOf(stats: Stats, payloadBlank: bool): Coverage {
    match stats
    case NoStats =>
      if payloadBlank then Coverage(false, Some(NoCoverageReported)) else Coverage(false, None)
    case Stats(probeFailed, scanner) =>
      if probeFailed then Coverage(false, Some(TargetUnreachable))
      else if scanner.None? then Coverage(true, None)
      else
        var s := scanner.value;
        if s.percent.Some? && s.percent.value < MIN_COVERAGE_PERCENT then Coverage(false, Some(ScanAborted))
        // errors / requests > 0.5
        else if s.requests > 0 && 2 * s.errors > s.requests then Coverage(false, Some(TooManyErrors))
        else Coverage(true, None)
  }

  /** One submission, reduced to the facts intake branches on. `closeAbsent`
      is the caller's wish; `importFailed` is what the importer would answer. */
  datatype Submission = Submission(
    oversized: bool, scannerKnown: bool, payloadBlank: bool, exitCode: int, stats: Stats,
    closeAbsent: Option<bool>, importFailed: bool)

  datatype Import = Import(closeAbsent: Option<bool>, allowEmpty: bool)

  datatype Intake = Rejected | Intake(succeeded: bool, imported: Option<Import>)

  function IntakeOf(s: Submission): Intake {
    if s.oversized || !s.scannerKnown then Rejected
    else
      var coverage := CoverageOf(s.stats, s.payloadBlank);
      var failed := s.exitCode != 0 || coverage.refusal.Some?;
      var imported :=
        if failed && s.payloadBlank then None
        else Some(Import(if failed || !coverage.attested then Some(false) else s.closeAbsent, !failed));
      if failed then Intake(false, imported)
      else Intake(!s.importFailed, imported)
  }

  // ---------------------------------------------------------- what it takes --

  /** The scanner reached its target, finished at least 80% of its checks where it
      counts them and failed no more than half of its requests. */
  predicate Covered(stats: Stats) {
    stats.Stats? ==>
      && !stats.probeFailed
      && (stats.scanner.Some? ==>
            var r := stats.scanner.value;
            && (r.percent.Some? ==> r.percent.value >= 80)
            && (r.requests > 0 ==> r.errors + r.errors <= r.requests))
  }

  /** A clean exit of a scan that covered its target, or that says nothing of its
      coverage but has some output. */
  predicate Evidence(s: Submission) {
    s.exitCode == 0 && Covered(s.stats) && (s.stats.NoStats? ==> !s.payloadBlank)
  }

  predicate CleanScan(s: Submission) {
    Evidence(s) && !s.importFailed
  }

  /** A submission is turned away for its size or for want of a scanner; otherwise
      it succeeds if it is evidence and its import did not fail. It is imported
      unless it is empty and no evidence; only evidence may be empty, and only an
      attested scan may close what it no longer sees. */
  lemma {:induction false} TakenAs(s: Submission)
    ensures IntakeOf(s) == Rejected <==> s.oversized || !s.scannerKnown
    ensures IntakeOf(s) != Rejected ==>
              var intake := IntakeOf(s);
              && (intake.succeeded <==> CleanScan(s))
              && (intake.imported.None? <==> s.payloadBlank && !Evidence(s))
              && (intake.imported.Some? ==>
                    && intake.imported.value.allowEmpty == Evidence(s)
                    && intake.imported.value.closeAbsent ==
                       (if Evidence(s) && s.stats.Stats? then s.closeAbsent else Some(false)))
  {
  }

  /** Why a scan is refused as evidence, if it is: the first of these that holds. */
  lemma {:induction false} RefusedBecause(stats: Stats, payloadBlank: bool)
    ensures var coverage := CoverageOf(stats, payloadBlank);
      && (coverage.attested <==> stats.Stats? && Covered(stats))
      && (coverage.refusal == Some(NoCoverageReported) <==> stats.NoStats? && payloadBlank)
      && (coverage.refusal == Some(TargetUnreachable) <==> stats.Stats? && stats.probeFailed)
      && (coverage.refusal == Some(ScanAborted) <==>
            && stats.Stats? && !stats.probeFailed && stats.scanner.Some?
            && stats.scanner.value.percent.Some? && stats.scanner.value.percent.value < 80)
      && (coverage.refusal.None? <==> Covered(stats) && (stats.NoStats? ==> !payloadBlank))
  {
  }

  /** A run may close findings by their absence only when it finished cleanly
      and its coverage of the target was attested; whatever the caller asked. */
  lemma {:induction false} ClosingNeedsAttestedCoverage(s: Submission)
    requires !IntakeOf(s).Rejected?
    ensures IntakeOf(s).imported.Some? && IntakeOf(s).imported.value.closeAbsent != Some(false)
       <==> s.exitCode == 0 && CoverageOf(s.stats, s.payloadBlank).attested && s.closeAbsent != Some(false)
  {
    match s.stats {
      case NoStats =>
      case Stats(_, _) =>
    }
  }

  /** An empty result is believed exactly when the scan reached its target,
      completed at least 80% of its checks where it counts them, and failed no
      more than half of its requests; an unreported scan is never "clean". */
  lemma {:induction false} EmptyResultIsBelievedIff(s: Submission)
    requires s.payloadBlank && !IntakeOf(s).Rejected?
    ensures IntakeOf(s).succeeded
       <==> && s.exitCode == 0 && !s.importFailed && s.stats.Stats? && !s.stats.probeFailed
            && (s.stats.scanner.Some? ==>
                 var r := s.stats.scanner.value;
                 && (r.percent.Some? ==> r.percent.value >= MIN_COVERAGE_PERCENT)
                 && (r.requests > 0 ==> 2 * r.errors <= r.requests))
  {
  }
}
