# VEYRS: a verified model of its stateful cores

VEYRS is a vulnerability-management platform. This Dafny project models the
parts of it whose source makes claims over whole histories rather than over one
call, and proves those claims for every history.

| module | what it models |
|---|---|
| `AgentJobs`, `AgentMoves`, `AgentJobsSafety`, `AgentClaims`, `AgentService` | the lease protocol between the job table, execution agents, operators and the reaper: as atomic steps on values, what each step makes of jobs and agents, what every run keeps, what a claim hands out, and the classes that carry it out in place |
| `TargetPolicy`, `ScanResult`, `EventStream` | which targets an agent may touch, when a finished scan counts as evidence, and reading a job's log by polling |
| `RateLimit`, `SlidingWindow` | the in-process sliding window and the shared aligned counter |
| `MfaDelivery`, `MfaHistory` | one-time codes: the store with expiry, sending, guessing, recovery codes, and what holds over any history of them |
| `MetricLabels`, `MetricsRegistry`, `MetricsExposition` | rendering labels, counting under a cap, and the text a scrape gets |
| `SecretForms`, `SecretStore`, `SecretOutcomes`, `SecretService` | the three stored forms of a secret, runs of saves, mode changes, migrations and garbage collection, and the code against the vault |
| `NvdPull`, `NvdRuns` | one pull of the NVD feed, and sequences of pulls resuming from a watermark |
| `Risk`, `RiskFactors`, `RiskScore` | the risk score over exact reals |
| `Markdown`, `MarkdownGrammar` | the documentation renderer's block loop, and the one division of a text it finds |
| `AutoTicket`, `AutoTicketPolicy` | automatic ticketing: query, predicate, preview, backfill, hourly budget and policy edits |
| `Attribution`, `AttributionCauses`, `FindingStates` | the per-finding account of state changes and the estate-wide feed |
| `Arithmetic`, `Wrappers` | minimum and maximum, optional values and results |
| `TeamScope` | team visibility: the list filter in SQL's three-valued logic and the single-row predicate |

Where the source changes objects in place the model is a class with the same
fields, and each method is tied to a function of the old state; the histories
are then runs of those functions. Library calls and outside systems enter as
parameters: clocks as numbers, random tokens as values that were never used
before, encryption as a pair of functions that undo each other, the vault as a
map that may refuse or lose a reply, the candidate query as any answer that is
true to its WHERE, ORDER BY and LIMIT.

Where code and comments part ways, the code is modelled and the difference is
proved:

* `claim_next` looks at a page of 20 candidate rows and filters them afterwards,
  so an agent can be left idle beside work it may do: `AgentClaims.PassedOverIff`
  gives the exact case, `TwentyForeignJobsStarve` a run that gets there.
* A known-exploited finding is said to keep its floor. It does unless a direct
  caller of `evaluate` supplies a negative `vulnerability_age_days`, a field no
  writer in the repository sets; it then counts down:
  `RiskScore.KevFloorHoldsIff`, `NegativeAgeBreaksTheFloor`.
* A tenant may set the floor of internet-exposed known-exploited findings below
  the other one; exposing a finding then lowers its score:
  `RiskScore.RiskIsMonotoneIff`.
* An operator may set an agent's cap below the jobs it holds; nothing else takes
  an agent above its cap: `AgentJobsSafety.CapacityKeptIff`,
  `AgentClaims.AnEditUndercuts`.
* `set_policy` refuses a ticketing policy that nothing narrows, but only in the
  edit that drops the threshold; a later edit can take the rest away:
  `AutoTicketPolicy.UnguardedIff`, `TwoEditsUnguard`.
* The candidate query of automatic ticketing is said never to lose a finding the
  predicate accepts. Under a saved policy it loses those whose stored severity is
  not in lower case (`AutoTicket.QueryDropsIff`, `ACapitalLosesAFinding`). The
  importers and the NVD feed store every valid word in lower case
  (`QueryKeepsWhatIsWritten`), so only rows written some other way are lost. But
  an import stores `info` and `none` as `informational`, which no saved policy can
  name: `ImportedIsNamedIff`.
* A policy that is only previewed is not checked, and then the preview can miss
  findings that imports wrote: `AutoTicket.LowerCaseIsKeptIff`,
  `WrittenIsKeptIff`, `AnEmptyWordLosesAFinding`, `AnUnknownWordLosesAFinding`.
* Remediated findings, said never to get a ticket, get one like any other open
  finding: `AutoTicket.RemediatedIsStillTicketed`, `ARemediatedFindingIsTicketed`.
* Losing a record that changed is said to be ruled out by resuming at the
  watermark. A clock that is ahead when a pull succeeds moves the watermark past
  changes still to come: `NvdRuns.UpToDateIff`, `AClockADayAheadMisses`.
* An empty page before the end of a window ends the window, and the pull succeeds
  without the rest: `NvdPull.EachRecordOnceIff`, `AnEmptyPageLosesRecords`.
* An uploaded NVD file records a success without a watermark, so the next pull
  reaches back 90 days and no further: `NvdRuns.NoGapEverIff`, `AnUploadOpensAGap`.
* Garbage collection of vault entries relies on its minimum age to lose nothing
  (`SecretStore.CollectionLosesTheSecretIff`, `NoMinimumAgeLosesASecret`); that no
  secret reads wrong does not depend on it (`NeverAWrongSecret`).
* The two accounts of a finding can differ when two events share a timestamp:
  `Attribution.CausesAgreeIff`, `ATiedCloseHasTwoCauses`.
* The registry promises one TYPE line per metric name; a name used both as a
  counter and as a summary gets two: `MetricsExposition.OneTypePerName`, `ANameUsedTwice`.

## Model

| member | source | states |
|---|---|---|
| AgentJobsSafety.ReachableIsSafe | backend/veyrs/services/agents.py:567-745 | from an empty table, any interleaving of enrol, configure, declare tools, heartbeat, queue, claim, stream, extend, submit, fail, cancel and reap keeps: a job has a lease token iff it is leased or running; attempts never exceed the maximum, queued means attempts left, expired means none; a pinned job is only ever bound to its agent; events are numbered 1..last_event_seq; tokens of different jobs differ |
| AgentJobsSafety.StepKeepsInv | backend/veyrs/services/agents.py:665-1233 | every single transaction, accepted or refused, keeps that invariant |
| AgentJobsSafety.StepEvolves | backend/veyrs/services/agents.py:705-1233 | how far one transaction can change one row: what it was asked for is fixed, a terminal row is frozen, the log only grows, a new token appears only by a lease under the token just minted, and the measure 4*(max_attempts-attempts)+rank falls at each change of state |
| AgentJobsSafety.RunKeepsRow | backend/veyrs/services/agents.py:1146-1233 | along any run a finished job stays exactly as it is, its pin, tool and target never change, and its log only grows by a suffix |
| AgentJobsSafety.RunBurnsFuel | backend/veyrs/services/agents.py:705-1233 | along any run the number of state changes of a job is bounded by the fall of that measure, and the number of times it is leased is exactly the rise of its attempt counter |
| AgentJobsSafety.AttemptsAreBounded | backend/veyrs/services/agents.py:1154-1231 | so a job is leased at most max_attempts times and changes state at most 4*max_attempts+1 times; expired means leased exactly that often, queued means fewer |
| AgentJobsSafety.WriteIsGuarded | backend/veyrs/services/agents.py:720-729 | verify_lease passes exactly for the agent that holds the job, under its current token, while the job is leased or running; anything else is refused |
| AgentJobsSafety.DeadTokenStaysDead | backend/veyrs/services/agents.py:705-717 | a token no job holds is never held again, in any continuation |
| AgentJobsSafety.TokenStaysWithItsJob | backend/veyrs/services/agents.py:705-717 | a token never moves from one job to another |
| AgentJobsSafety.LostLeaseNeverWritesAgain | backend/veyrs/services/agents.py:720-729 | whoever lost a lease, by reaping, cancelling, requeueing or finishing, can never change anything with it again, whoever holds the job by then |
| AgentJobsSafety.LoadOrCap | backend/veyrs/services/agents.py:655-702 | after any transaction, an operator's edits included, an agent's leased and running jobs are no more than before or within its cap |
| AgentJobsSafety.CapacityKeptIff | backend/veyrs/api/v1/agents.py:623-655 | where every agent is within its cap, a transaction leaves it so iff it is not an edit that sets a cap below the jobs held |
| AgentJobsSafety.ReachableIsWithinCaps | backend/veyrs/services/agents.py:655-702 | so in any run without such an edit every agent is always within its cap |
| AgentJobsSafety.LoadNeverExceedsTheLargestCap | backend/veyrs/services/agents.py:655-702 | and in any run at all no agent ever holds more jobs than the largest cap it has had |
| AgentMoves.EveryMoveHasItsCause | backend/veyrs/services/agents.py:705-1233 | after any step a job is Succeeded, Failed, Queued again, Expired, Cancelled, Running or Leased exactly if the step was of the kind that makes it so (a result counts as a success iff the exit code is 0, the stats refuse nothing and the import did not fail; a failure requeues iff asked to with attempts left; an overdue lease requeues or expires by its attempts), and its agent, expiry and length of log follow from the same cause |
| AgentMoves.EachIsLogged | backend/veyrs/services/agents.py:751-780 | every line an agent logs is kept in order, numbered on, cut at 8000 characters, under its own kind or as output |
| AgentMoves.AgentsChangeAsAsked | backend/veyrs/services/agents.py:219-1193 | an agent becomes busy by taking a job, idle by settling its only one or checking in, offline by the sweep, or what an operator says; its rules, limits and tools change by edits alone |
| AgentMoves.QueuedIff | backend/veyrs/services/agents.py:567-652 | a job is queued iff scanning is on, it names a tool and a reason, somebody can run it, the target is in bounds and its engagement is open; it is then the last row, unattempted, for its agent if pinned |
| AgentMoves.JoinedIff | backend/veyrs/services/agents.py:110-173 | an agent joins iff scanning is on, it has a name and its rules can be stored; pending, without tools, with its limits or their minima |
| AgentClaims.ClaimIsBestPermitted | backend/veyrs/services/agents.py:665-702 | whatever is leased is permitted, and no queued job the claimant may run stands ahead of it by priority and age, on the candidate page or off it, but for rows another transaction has locked |
| AgentClaims.ClaimLeasesIff | backend/veyrs/services/agents.py:665-702 | a claim leases something iff the agent is below its cap and may run one of the candidate rows |
| AgentClaims.PassedOverIff | backend/veyrs/services/agents.py:676-699 | an agent below its cap with a job open to it, in a row nobody has locked, is handed nothing iff a full page of 20 rows it may not run stands in front |
| AgentClaims.TwentyForeignJobsStarve | backend/veyrs/services/agents.py:676-699 | a run from the empty tables reaches that case, for any number of such rows from 20 up: the agent may run the last job, has nothing in hand, and is handed nothing |
| AgentClaims.AnEditUndercuts | backend/veyrs/api/v1/agents.py:623-655 | a run to such an edit: enrol, configure, two claims, then a cap of one under two jobs |
| AgentClaims.LeasesAreAuthorised | backend/veyrs/services/agents.py:665-717 | a job becomes held only by a claim, while scanning is on, by an agent not disabled and below its cap whose own policy permits the target now, and if pinned only by the agent named |
| AgentClaims.LeaseLastsExactly | backend/veyrs/services/agents.py:705-1233 | a lease granted or extended to some moment survives a reap up to and including that moment, and is taken away by any later one |
| AgentService.AgentJob.AppendEvents | backend/veyrs/services/agents.py:751-780 | the row after a batch of events is the specified one: numbers continue without a gap and nothing else changes |
| AgentService.AgentJob.Lease | backend/veyrs/services/agents.py:705-717 | the row after a lease, field by field |
| AgentService.AgentJob.Fail | backend/veyrs/services/agents.py:1146-1165 | the row after a failure: requeued to its pin while attempts remain, failed otherwise |
| AgentService.AgentJob.ReapIfOverdue | backend/veyrs/services/agents.py:1197-1233 | an overdue row is requeued or expired, any other is untouched, and the tally says which |
| AgentService.ReapRows | backend/veyrs/services/agents.py:1197-1233 | the reaper's loop does that to every row and counts each once |
| AgentService.Service.Enrol | backend/veyrs/services/agents.py:110-173 | an agent joins pending, with its rules in normal form and its limits raised to their minima, iff scanning is on, it has a name and no rule is malformed, refused in that order; safe tables stay safe and within the caps |
| AgentService.Service.Configure | backend/veyrs/api/v1/agents.py:623-655 | an operator's edit with no malformed rule sets status, rules and limits and nothing else; safe tables stay safe, and within the caps iff the new cap is not below what the agent holds |
| AgentService.Service.SetTools | backend/veyrs/services/agents.py:306-380 | what an agent declares and an operator switches on replaces its tools and nothing else; safe tables stay safe and within the caps |
| AgentService.Service.Heartbeat | backend/veyrs/services/agents.py:240-281 | a check-in wakes a pending or offline agent and changes nothing else; safe tables stay safe and within the caps |
| AgentService.Service.Queue | backend/veyrs/services/agents.py:567-652 | a job is created iff every refusal was ruled out (unknown agent, scanning off, no tool, no reason, agent disabled, tool or profile not provided, target, engagement), in the code's order; a refusal changes nothing and safe tables stay safe and within the caps |
| AgentService.Service.ActiveJobCount | backend/veyrs/services/agents.py:655-662 | the count loop returns exactly the agent's leased and running jobs |
| AgentService.Service.FindRunnable | backend/veyrs/services/agents.py:688-699 | the candidate loop returns the first row the claimant may run |
| AgentService.Service.ClaimNext | backend/veyrs/services/agents.py:665-702 | the tables after a claim are those of the protocol step, which keeps safe tables safe and within the caps |
| AgentService.Service.Stream | backend/veyrs/services/agents.py:767-780 | events and the move to running are written only under a verified lease, and safe tables stay safe and within the caps |
| AgentService.Service.ExtendLease | backend/veyrs/services/agents.py:740-745 | an extension moves only the expiry of a verified lease, and safe tables stay safe and within the caps |
| AgentService.Service.SubmitResult | backend/veyrs/services/agents.py:918-1058 | a result finishes the job and releases the agent only under a verified lease, and safe tables stay safe and within the caps |
| AgentService.Service.FailJob | backend/veyrs/services/agents.py:1146-1165 | a failure report does the same for the failing path, and safe tables stay safe and within the caps |
| AgentService.Service.CancelJob | backend/veyrs/services/agents.py:1168-1185 | any job that is not terminal is cancelled, a terminal one refused, and safe tables stay safe and within the caps |
| AgentService.Service.ReapExpiredLeases | backend/veyrs/services/agents.py:1197-1233 | the whole table is reaped, with the right two counts, and safe tables stay safe and within the caps |
| EventStream.ReadIsSlice | backend/veyrs/services/agents.py:783-795 | on a numbered log a page is exactly the slice after since_seq, cut at min(max(1, limit), 2000) |
| EventStream.ReadIsLimited | backend/veyrs/services/agents.py:783-795 | a page has as many lines as there are, up to what is asked for between 1 and 2000 |
| EventStream.PollExtendsPrefix | backend/veyrs/services/agents.py:783-795 | one poll extends a prefix of the log to a prefix, strictly unless nothing was new |
| EventStream.WatcherHoldsPrefix | backend/veyrs/services/agents.py:751-795 | for any limits and any protocol steps in between, a polling client holds a prefix of the log: nothing lost, repeated or reordered |
| EventStream.PollingCatchesUp | backend/veyrs/services/agents.py:783-795 | once the log rests, as many polls as missing lines recover all of it |
| TargetPolicy.AuthorisedIff | backend/veyrs/services/agents.py:507-561 | a target is authorised iff it has a host, a reserved address is listed literally, no deny rule matches, some allow rule matches, and it is a known asset where that is demanded |
| TargetPolicy.VerdictSaysWhy | backend/veyrs/services/agents.py:507-561 | a refusal names the first of six reasons that holds, a grant the host and an allow rule that covers it |
| TargetPolicy.AuthorisedIsMonotone | backend/veyrs/services/agents.py:507-561 | more allow rules and fewer deny rules never take a target away |
| TargetPolicy.NamesIgnoreAddressing | backend/veyrs/services/agents.py:465-487 | a name's verdict does not depend on anything address parsing or network membership says |
| TargetPolicy.AddressesIgnoreGlobs | backend/veyrs/services/agents.py:465-487 | an address's verdict does not depend on name patterns |
| ScanResult.TakenAs | backend/veyrs/services/agents.py:918-1030 | a submission is turned away for its size or for want of a scanner; it succeeds iff the exit code is 0, the stats refuse nothing and the import did not fail; it is imported unless empty and no evidence, may be empty only as evidence, and may close findings only when attested |
| ScanResult.RefusedBecause | backend/veyrs/services/agents.py:851-904 | which of the four refusals a scan meets, and that it is attested iff it reports coverage and meets none |
| ScanResult.ClosingNeedsAttestedCoverage | backend/veyrs/services/agents.py:918-1030 | a run may close findings by absence iff it exited cleanly, its coverage was attested and the caller did not decline |
| ScanResult.EmptyResultIsBelievedIff | backend/veyrs/services/agents.py:851-904 | an empty result counts as a success iff the target was reached, at least 80% of the checks ran and no more than half of the requests failed |
| SlidingWindow.SpacedBoundsEveryInterval | backend/veyrs/security/ratelimit.py:61-72 | events of which any two `limit` places apart lie more than a window apart are at most `limit` in every closed interval of that length |
| SlidingWindow.BatchesAreSpaced | backend/veyrs/security/mfa_delivery.py:130-134 | at most `limit` events to each counter window means at most twice that in any span of one window |
| RateLimit.LocalWindow.Hit | backend/veyrs/security/ratelimit.py:61-72 | one hit changes only its own key's bucket, to the specified one, and answers the specified decision |
| RateLimit.SlidingWindowHolds | backend/veyrs/security/ratelimit.py:61-72 | for every history of hits under a non-decreasing clock the bucket is exactly the admissions of the last window, and no closed interval of one window holds more than `limit` |
| RateLimit.DeniedIffWindowFull | backend/veyrs/security/ratelimit.py:67-70 | a hit is denied iff the closed window ending now already holds `limit` admissions |
| RateLimit.RetryAfterIsExact | backend/veyrs/security/ratelimit.py:68-70 | with nothing admitted meanwhile, a hit after a whole number of seconds is admitted iff that number is at least retry_after |
| RateLimit.AnswerSaysWhatIsLeft | backend/veyrs/security/ratelimit.py:61-72 | the answer repeats the limit, says how many more the window has room for, and asks for a wait iff it is full |
| RateLimit.SharedCounter.Check | backend/veyrs/security/ratelimit.py:103-120 | a check is one hit on the counters of its own key, whether the backend answers, counts without answering or is not reached, and touches no other key's; without an answer the request passes |
| RateLimit.FixedWindowSpanBound | backend/veyrs/security/ratelimit.py:107-120 | over any history of hits, in any closed span of one window, wherever it starts, the aligned counter lets through at most 2*limit and the hits that got no answer |
| RateLimit.FixedAnswersIff | backend/veyrs/security/ratelimit.py:103-120 | an answered hit is let through iff fewer than the limit reached the backend before it in its own aligned window, with what is left or the window to wait; an unanswered one always |
| MfaDelivery.MemoryStore.Incr | backend/veyrs/security/mfa_delivery.py:130-134 | a live counter goes up and keeps its expiry, a dead one restarts |
| MfaDelivery.IssueCode | backend/veyrs/security/mfa_delivery.py:260-283 | sending changes one account's three keys as specified, in every branch, and no other account's |
| MfaDelivery.CheckCode | backend/veyrs/security/mfa_delivery.py:286-314 | the same for a guess |
| MfaDelivery.Account.UseRecoveryCode | backend/veyrs/security/mfa_delivery.py:336-350 | a code works iff it is stored, and then one copy of it is gone |
| MfaDelivery.RemoveFirstTakesOne | backend/veyrs/security/mfa_delivery.py:336-350 | using a code removes exactly that one; distinct codes never work twice |
| MfaHistory.EveryCodeIsBounded | backend/veyrs/security/mfa_delivery.py:286-314 | over any history each issued code is compared at most five times, accepted at most once, and only before issue + TTL + 4 s |
| MfaHistory.OnlyTheLatestCodeIsAccepted | backend/veyrs/security/mfa_delivery.py:286-314 | a guess that is accepted is the latest code, unused, with fewer than five comparisons behind it, over its own method |
| MfaHistory.TheRightCodeIsAccepted | backend/veyrs/security/mfa_delivery.py:286-314 | and that code is accepted, up to issue + TTL - 4 s |
| MfaHistory.SendingIsThrottled | backend/veyrs/security/mfa_delivery.py:260-283 | two sends are 30 s apart unless a code was accepted in between; one counter window sees at most six delivery attempts, any closed 900 s at most twelve |
| MfaHistory.ACodeGoesOutIff | backend/veyrs/security/mfa_delivery.py:260-283 | over any history a send adds an issued code iff there is where to send it, no code went out in the last 30 s without being accepted, at most five attempts fall in the open 900 s window, and the transport takes it; that code is then the one stored, untried, for its time, and in every other case the stored code stays as it was |
| MfaHistory.TheWaitIsEnough | backend/veyrs/security/mfa_delivery.py:268-274 | a throttled send is told a wait of 1 to 30 or 1 to 900 seconds, a second after which there is rest or room again |
| MetricLabels.ParseUndoesJoin | backend/veyrs/observability.py:99-109 | a reader of the text format recovers the rendered labels, for all values with quotes, backslashes, line breaks, commas and braces |
| MetricLabels.LessWhereTheyDiffer | backend/veyrs/observability.py:105-108 | names are ordered where they first differ, the shorter first |
| MetricLabels.SortSorts | backend/veyrs/observability.py:105-108 | rendering order is strictly by name and keeps every label |
| MetricLabels.SameTextIffSameLabels | backend/veyrs/observability.py:103-109 | two label mappings render alike iff they say the same once absent values are dropped |
| MetricsRegistry.Registry.Incr | backend/veyrs/observability.py:112-125 | the counters and series after a call are the specified ones; the histograms are untouched |
| MetricsRegistry.Registry.Observe | backend/veyrs/observability.py:128-133 | an observation is appended and the oldest dropped past 5000 |
| MetricsRegistry.TotalsAreConserved | backend/veyrs/observability.py:112-125 | over any history a metric's counters sum to the total of its increments, the series gauge is the number of keys held, and it never exceeds 257, nor 256 without the overflow series |
| MetricsRegistry.HeldSeriesAreExact | backend/veyrs/observability.py:117-125 | over any history and past the cap, a series with its own key (the overflow series aside) holds exactly what was added under its text, and a text without one was never used or met a full metric |
| MetricsRegistry.OverflowHoldsTheRest | backend/veyrs/observability.py:112-125 | the overflow series holds exactly what the calls without a key of their own added, with those that ask for it by its text; no label set is split between the two |
| MetricsRegistry.EachLabelSetIsCountedApart | backend/veyrs/observability.py:112-125 | up to 256 label sets, each has its own counter holding exactly what was added under those labels |
| MetricsRegistry.RingHoldsTheLast | backend/veyrs/observability.py:128-133 | a histogram is exactly the last min(n, 5000) observations in order |
| MetricsRegistry.QuantileIndexInRange | backend/veyrs/observability.py:188-190 | the quantile indices are in range and ordered |
| MetricsRegistry.QuantilesMeanWhatTheySay | backend/veyrs/observability.py:180-191 | a reported quantile is an observation with more than that share at or below it, and higher quantiles are not lower values |
| MetricsRegistry.QuantilesAreTight | backend/veyrs/observability.py:180-191 | and at most that share lies below it |
| MetricsExposition.CounterSection | backend/veyrs/observability.py:170-178 | the loop with its set of emitted names writes a TYPE line exactly where the sorted name changes |
| MetricsExposition.Response | backend/veyrs/observability.py:144-192 | the lines of a scrape, section by section |
| MetricsExposition.CounterTypes | backend/veyrs/observability.py:170-178 | counters are typed once each, in strictly ascending order of name |
| MetricsExposition.SamplesAreGrouped | backend/veyrs/observability.py:170-178 | between a counter's sample and its TYPE line stand only samples of the same counter |
| MetricsExposition.OneTypePerName | backend/veyrs/observability.py:168-192 | no name is typed twice iff no name serves two kinds of metric |
| MetricsExposition.ANameUsedTwice | backend/veyrs/observability.py:112-192 | one incr and one observe under the same name give it two TYPE lines |
| MetricsExposition.CountersAreShownIff | backend/veyrs/observability.py:170-178 | the counter section holds the sample of every counter, their TYPE lines and nothing else |
| MetricsExposition.SummariesAreShownIff | backend/veyrs/observability.py:180-191 | a histogram is summarised iff it holds anything |
| MetricsExposition.SummarySays | backend/veyrs/observability.py:183-191 | a summary is typed, then gives count, sum and the three quantiles of what is held |
| MetricsExposition.SeriesAreShownIff | backend/veyrs/observability.py:161-166 | every metric says how many label sets it holds |
| MetricsExposition.HeadSays | backend/veyrs/observability.py:147-165 | the two gauges and the build line |
| SecretForms.SealedFormsAreRecognised | backend/veyrs/security/secrets.py:113-154 | storage_kind and vault_key invert what seal_as produced, for every kind, and the vault then holds the plaintext |
| SecretForms.FormReadsBack | backend/veyrs/security/secrets.py:186-219 | a well-made form reads back as its plaintext as long as the vault holds that or nothing under its key, and fails in exactly two cases |
| SecretStore.NeverAWrongSecret | backend/veyrs/security/secrets.py:157-219 | after any run of saves, mode changes, vault failures, migrations and collections, well timed or not, a stored secret never reads as anything but what was last saved, and fails to read iff its only copy is in a vault that does not answer or has lost it, or it is mirrored and the mode setting is invalid |
| SecretStore.CollectionsInTimeLoseNothing | backend/veyrs/services/secret_storage.py:340-389 | while no scan meets a pending write older than the minimum age, the vault never loses an entry a row needs |
| SecretStore.MigrationsKeepTheSecret | backend/veyrs/services/secret_storage.py:259-337 | in any such run a migration, whenever it commits and whatever was saved meanwhile, never changes what a row says |
| SecretStore.StepKeepsInv | backend/veyrs/services/secret_storage.py:228-389 | every action, any collection included, keeps each row and each pending write saying what was saved, and each vault entry holding only what its key was drawn for |
| SecretStore.CollectionLosesTheSecretIff | backend/veyrs/services/secret_storage.py:340-389 | a collection that scans between a save's vault write and its commit leaves the row without its secret iff the entry is old enough to pass for an orphan or was lost before |
| SecretStore.NoMinimumAgeLosesASecret | backend/veyrs/services/secret_storage.py:340-389 | with no minimum age such a run exists |
| SecretOutcomes.SaveComesTo | backend/veyrs/security/secrets.py:157-183 | in vault mode a save succeeds iff the write is stored and answered, as a vault reference only; in mirror mode always, mirrored iff so and local otherwise; in local mode without touching the vault; in no other mode at all |
| SecretOutcomes.VaultModeKeepsNothingHere | backend/veyrs/security/secrets.py:157-183 | over any run that saves in vault mode and migrates to the vault, no row ever holds a copy of a secret, whatever the vault refuses |
| SecretOutcomes.SaveLeavesPendingIff | backend/veyrs/security/secrets.py:157-183 | a save leaves one more write on its way iff there is something to store and the mode lets it; saving nothing empties the row |
| SecretOutcomes.MigrationConvertsIff | backend/veyrs/services/secret_storage.py:259-337 | a migrated row is converted iff it can be read, is of another kind and the vault takes it; to the wanted kind, under its own vault key if it has one |
| SecretOutcomes.MigrationWritesTheVault | backend/veyrs/services/secret_storage.py:290-310 | after a conversion the vault holds what the row says, under the row's own key with the age it had or under a new one; a local form leaves it alone |
| SecretOutcomes.CommitTakesEffectIff | backend/veyrs/services/secret_storage.py:228-256 | a save is always written, a conversion iff the row still holds what was read |
| SecretOutcomes.SmallStepsDoNoMore | backend/veyrs/services/secret_storage.py:340-352 | giving up a write, changing the mode and listing the vault change that and nothing else |
| SecretOutcomes.CollectsIff | backend/veyrs/services/secret_storage.py:340-389 | an entry is deleted iff it was listed, no row refers to it and it is at least the minimum age old |
| SecretOutcomes.MirrorReadsTheVaultFirst | backend/veyrs/security/secrets.py:200-216 | a mirrored secret is what the vault says if it says anything, its copy otherwise, and in local mode the copy |
| SecretOutcomes.ForeignTextIsRefused | backend/veyrs/security/secrets.py:186-219 | text with no known prefix is refused; nothing stored reads as nothing |
| SecretService.VaultClient.SealAs | backend/veyrs/security/secrets.py:136-154 | the vault and the stored form afterwards, in every branch |
| SecretService.VaultClient.Encrypt | backend/veyrs/security/secrets.py:157-183 | vault mode raises where mirror mode falls back to a local form |
| SecretService.VaultClient.Collect | backend/veyrs/services/secret_storage.py:340-389 | exactly the listed, unreferenced and old enough entries are deleted, and the too recent ones are reported |
| SecretService.Decrypt | backend/veyrs/security/secrets.py:186-219 | dispatch on the stored prefix, never on the mode alone |
| SecretOutcomes.ValidKeyIff | backend/veyrs/security/secret_vault.py:57-57 | the shape of a vault key, with the one line break the pattern lets pass |
| NvdPull.Windows | backend/veyrs/intel/feeds.py:234-239 | the loop produces the specified windows |
| NvdPull.WindowsTile | backend/veyrs/intel/feeds.py:234-239 | they tile the span: adjacent, non-empty, at most 120 days, from start to end |
| NvdPull.WindowsAreFull | backend/veyrs/intel/feeds.py:234-239 | every window but the last is exactly 120 days |
| NvdPull.StampedWindowsCover | backend/veyrs/intel/feeds.py:229-239 | truncated to whole seconds they ask for exactly the instants between the two truncated ends |
| NvdPull.FetchWindow | backend/veyrs/intel/feeds.py:261-282 | paging through a window ends, and yields the walk's pages, whatever page lengths and totals the server reports and however short its pages are, empty ones included |
| NvdPull.OneWalk | backend/veyrs/intel/feeds.py:261-282 | the pages are those of one walk and no other: each as the server fills it, on by what it says it sent or sent, until an empty page or the total given with it |
| NvdPull.EachRecordOnceIff | backend/veyrs/intel/feeds.py:261-282 | every record of the window arrives exactly once and in order iff each step is the length of the page before it and the walk does not stop before the last record, at an empty page or a total that is too small |
| NvdPull.AnEmptyPageLosesRecords | backend/veyrs/intel/feeds.py:280-282 | a server that counts two records, sends one and then an empty page ends the window with one, and nothing is reported |
| NvdPull.Pull | backend/veyrs/intel/feeds.py:242-282 | the two loops deliver what the walks through the windows deliver, from any server |
| NvdPull.PullIsWhole | backend/veyrs/intel/feeds.py:242-282 | which is each window's records in order wherever every walk steps truly and to the end, as it always does with a server that sends no empty page early, counts truly, and reports page lengths truly or not at all |
| NvdPull.PullFindsExactly | backend/veyrs/intel/feeds.py:229-282 | a pull brings in exactly the records modified between its two stamps |
| NvdRuns.PullsLeaveNoGap | backend/veyrs/intel/feeds.py:285-345 | over any sequence of failed, incremental and full pulls, under a clock that may jump, the successful ones have asked for every instant from the first start to the watermark |
| NvdRuns.PullStartsAt | backend/veyrs/intel/feeds.py:285-308 | a full pull starts with 2002, another at the watermark of the success that started latest, or 90 days back where that has none or there is none |
| NvdRuns.UpToDateIff | backend/veyrs/intel/feeds.py:285-345 | after every one of a sequence of pulls, for every history of changes meanwhile, each change from the first start up to the watermark has been taken in or overtaken by a later one of its record, iff no successful run moves the watermark past the moment it ran at |
| NvdRuns.AClockADayAheadMisses | backend/veyrs/intel/feeds.py:285-308 | one run under a clock a day ahead, and a correct one six hours later: what changed in between is never asked for |
| NvdRuns.AfterAnUploadNoGapIff | backend/veyrs/services/intelligence.py:459-477 | after an uploaded file the next pull leaves no gap iff 90 days back reaches the watermark that was lost |
| NvdRuns.NoGapEverIff | backend/veyrs/intel/feeds.py:285-345 | over any sequence of pulls and uploads, under a clock that may jump, no instant from the first start to the latest reading of a successful pull is skipped, after any of them, iff every pull that finds an upload as the latest success reaches back with its 90 days to what was pulled before |
| NvdRuns.AnUploadOpensAGap | backend/veyrs/services/intelligence.py:459-477 | a pull, an upload a day later and a pull on day 100 leave a gap |
| Risk.TechnicalRisk | backend/veyrs/engines/risk.py:215-226 | the recorded points explain the sub-score to half a cent a line |
| Risk.ExploitabilityRisk | backend/veyrs/engines/risk.py:229-267 | the recorded points of EPSS, KEV and exploit signals add up to the unclamped sub-score to half a cent a line |
| Risk.BusinessRisk | backend/veyrs/engines/risk.py:270-304 | the recorded points of criticality, classification, environment, service and revenue add up likewise |
| Risk.ExposureRisk | backend/veyrs/engines/risk.py:307-345 | the recorded points of reach less those of compensating controls add up likewise |
| RiskFactors.BusinessAddsUp | backend/veyrs/engines/risk.py:270-304 | business risk in points: 13.75 for each level of criticality, 5 to 25 by classification, 3 to 10 by environment, 2.5 for each level a service is above its asset, up to 10 by revenue band |
| RiskFactors.OneLevelOfCriticality | backend/veyrs/engines/risk.py:270-279 | one level of criticality is worth 13.75 points, all else equal |
| RiskFactors.ReachAddsUp | backend/veyrs/engines/risk.py:307-329 | reach in points: 6 to 60 by exposure, up to 25 by attack vector, 15 if an attack needs nobody's help |
| RiskFactors.EachControlCredits | backend/veyrs/engines/risk.py:80-89 | the share each of the eight known controls takes off, and no other |
| RiskFactors.CreditOfOneMore | backend/veyrs/engines/risk.py:332-337 | credits of documented controls add up |
| RiskFactors.ControlsScaleTheReach | backend/veyrs/engines/risk.py:332-345 | exposure is the reach less the share of its controls, no more than the cap |
| RiskFactors.TechnicalIs | backend/veyrs/engines/risk.py:215-226 | ten points for each of CVSS, 40 for an unscored finding |
| RiskFactors.ExploitabilityAddsUp | backend/veyrs/engines/risk.py:229-267 | 60 points times the root of EPSS, 30 for KEV, 5 for each step from proof of concept to active exploitation, up to 100 |
| RiskFactors.MeanWeighsEach | backend/veyrs/engines/risk.py:371-381 | the base score of four equal sub-scores is that score, and each moves it by its own share of the weights |
| RiskFactors.FloorsRaise | backend/veyrs/engines/risk.py:385-409 | the floors raise a score to the highest that applies and never lower it |
| RiskFactors.AgeIsWholeDays | backend/veyrs/engines/risk.py:411-416 | the age is whole days since detection, none before it |
| RiskFactors.AgeCosts | backend/veyrs/engines/risk.py:417-429 | each full thirty days cost the rate, twice that past the deadline, up to the cap |
| RiskFactors.PointsAddUp | backend/veyrs/engines/risk.py:215-345 | the recorded points of an explanation add up line by line |
| RiskFactors.SettledIs | backend/veyrs/engines/risk.py:385-445 | an unexploited finding of CVSS 0 counts for nothing where the option says so; any other by its floors and then its age |
| RiskFactors.LevelCountsBands | backend/veyrs/engines/risk.py:42-55 | the level is how many of 10, 40, 70 and 90 the score has reached |
| RiskFactors.ATypicalFinding | backend/veyrs/engines/risk.py:60-76 | the default profile on one finding at any age: 68.875 and three points a month up to fifteen, 90, 80 or 75 under its floors |
| RiskFactors.DefaultsOfControls | backend/veyrs/engines/risk.py:67-76 | by default controls take off at most half |
| RiskScore.Evaluate | backend/veyrs/engines/risk.py:351-457 | the score, and replaying the recorded adjustments from the recorded base score gives the score before clamping to within a cent |
| RiskScore.ScoreIsInRange | backend/veyrs/engines/risk.py:431-431 | the score is in 0..100 |
| RiskScore.LevelsFollowScores | backend/veyrs/engines/risk.py:51-55 | a higher score never has a lower level |
| RiskScore.KevFloorHolds | backend/veyrs/engines/risk.py:385-431 | a known-exploited finding of age 0 or more never ends below its floor, after penalty, shortcut, clamp and rounding |
| RiskScore.KevFloorHoldsIff | backend/veyrs/engines/risk.py:385-422 | for a given age the floors hold before rounding for every finding and weighting iff the age is not negative, nothing is charged for age, or both floors are zero |
| RiskScore.NegativeAgeBreaksTheFloor | backend/veyrs/engines/risk.py:403-422 | with the defaults, an age of -90 handed to evaluate ends at 66.0 under a floor of 75 |
| RiskScore.RiskIsMonotone | backend/veyrs/engines/risk.py:215-431 | worsening a finding in any or all respects at once, its levels compared by rank and not by weight, never lowers its score or its level, as long as it keeps its floor or gets one no lower |
| RiskScore.RiskIsMonotoneIff | backend/veyrs/engines/risk.py:385-431 | under given options that holds before rounding for every two findings and every weighting iff the floor of exposed findings is not below the other one |
| RiskScore.BusinessIsMonotone | backend/veyrs/engines/risk.py:270-304 | raising the asset's named criticality never lowers business risk although the service bonus shrinks |
| RiskScore.ExploitabilityIsMonotone | backend/veyrs/engines/risk.py:229-267 | a higher EPSS score never lowers exploitability, through the square root |
| RiskScore.ControlsNeverRaiseTheScore | backend/veyrs/engines/risk.py:332-345 | documenting further controls, known or not, repeated or not, never raises the score, at any age and under any floors |
| Markdown.SplitUndoesJoin | site/build.py:80-142 | putting lines together and taking them apart gives the lines back, so a quote is rendered from its own lines |
| Markdown.Render | site/build.py:79-173 | the renderer ends on every text and shows exactly the blocks of the grammar, with the level 2 and 3 headings outside quotes as contents |
| Markdown.TakeBlock | site/build.py:83-172 | one turn of the loop takes the block the grammar says starts here, and at least one line |
| Markdown.TakeItems | site/build.py:66-76 | list items with the indented lines that wrap them |
| Markdown.EveryLineOnce | site/build.py:79-173 | the blocks of any text take every line exactly once, in order |
| Markdown.BlocksAreWellMade | site/build.py:83-172 | every block holds only lines of its kind, and only the last can be a fence nothing closes |
| MarkdownGrammar.OneBlockStands | site/build.py:83-172 | the block taken at a line is the only one that may stand there: its first line decides the kind, in the order the patterns are tried, and it reaches as far as its lines do |
| MarkdownGrammar.OneWayToDivide | site/build.py:79-173 | so there is exactly one way to divide a text into blocks, and the renderer finds it |
| MarkdownGrammar.ShownIff | site/build.py:110-120 | all but blank lines is shown, and the contents are the level 2 and 3 headings with their texts |
| MarkdownGrammar.QuotesLoseTheirMark | site/build.py:141-149 | a quoted line loses its mark and nothing else |
| FindingStates.EveryStateIsOpenOrClosed | backend/veyrs/models/vulnerability.py:27-70 | every state of the workflow is open or closed: open up to verification and while deferred |
| AutoTicket.EachSettingNarrows | backend/veyrs/services/autoticket.py:160-196 | each of the five settings takes out exactly the findings that miss it, whatever the others say, and with none on every open finding is accepted |
| AutoTicket.QueryDropsIff | backend/veyrs/services/autoticket.py:160-335 | under any policy the query drops a finding the predicate accepts iff severities are filtered and the stored one is not listed as it stands; under a saved one, iff it is not in lower case |
| AutoTicket.QueryAsksIff | backend/veyrs/services/autoticket.py:314-335 | the query asks what the predicate asks, but for exposure and owner, and takes the severity as it stands |
| AutoTicket.SavedIsPlain | backend/veyrs/services/autoticket.py:458-510 | every saved policy is of the kind for which lower case decides |
| AutoTicket.LowerCaseDecidesIff | backend/veyrs/api/v1/tickets.py:403-422 | for a policy that may only be previewed, lower case decides for every finding iff it lists neither an empty word nor one word in two spellings |
| AutoTicket.LowerCaseIsKeptIff | backend/veyrs/api/v1/tickets.py:403-422 | and no finding stored in lower case is dropped iff it does not list the empty word |
| AutoTicket.AnEmptyWordLosesAFinding | backend/veyrs/api/v1/tickets.py:403-422 | previewing a filter on the empty word, a finding without a severity is accepted and not queried |
| AutoTicket.ACapitalLosesAFinding | backend/veyrs/services/autoticket.py:160-335 | one stored as "Critical" under a policy that asks for critical is accepted and not queried |
| AutoTicket.StripTakesSpaces | backend/veyrs/services/importers/base.py:149-149 | a scanner's word loses the white space at its ends and nothing else |
| AutoTicket.SpacesAre | backend/veyrs/services/importers/base.py:149-149 | what counts as white space |
| AutoTicket.ImportedIsNamedIff | backend/veyrs/services/importers/base.py:58-149 | what an import stores is valid in a saved policy iff the scanner said critical, high, medium, moderate or low in any case and spacing, and is then in lower case; info and none become informational, which no saved policy can name |
| AutoTicket.QueryKeepsWhatIsWritten | backend/veyrs/services/importers/base.py:145-149 | so under any policy that lists only words imports rewrite, as every saved one does, nothing stored by an import, or in lower case by the NVD feed, is dropped by the query |
| AutoTicket.WrittenIsKeptIff | backend/veyrs/api/v1/tickets.py:403-422 | for a policy that may only be previewed, iff it does not list the empty word, nor a word no import rewrites without all its spellings |
| AutoTicket.SavedIsKnown | backend/veyrs/services/autoticket.py:458-526 | which every saved policy meets |
| AutoTicket.AnUnknownWordLosesAFinding | backend/veyrs/services/importers/base.py:145-149 | previewing a filter on "urgent", an imported "Urgent" is accepted and not queried |
| AutoTicket.RemediatedIsStillTicketed | backend/veyrs/services/autoticket.py:160-170 | no closed finding is accepted; a finding in any open state is accepted iff the same finding would be as remediated |
| AutoTicket.ARemediatedFindingIsTicketed | backend/veyrs/services/autoticket.py:160-311 | with the default policy switched on, a remediated finding of risk 90 gets a ticket |
| AutoTicket.EveryMatchIsCountedOnce | backend/veyrs/services/autoticket.py:354-455 | every row the predicate accepts is either eligible or already ticketed, and the eligible rows are exactly the accepted ones without a ticket |
| AutoTicket.WholeEstateIff | backend/veyrs/services/autoticket.py:314-455 | under any policy and below the ceiling, query and predicate together find exactly the rows of the whole estate worth a ticket, iff each of those has a severity listed as it stands, where severities are filtered |
| AutoTicket.CountsAreOfTheEstate | backend/veyrs/services/autoticket.py:314-455 | over an estate the importers and the feed wrote, under any policy of the kind above, both counts of preview and backfill are those of the whole estate and the rows are the same |
| AutoTicket.Tracker.Consider | backend/veyrs/services/autoticket.py:260-311 | a ticket is opened and charged to the budget iff the policy is on, the finding qualifies, the hour has room and none is open; otherwise nothing changes |
| AutoTicket.Tracker.PreviewPolicy | backend/veyrs/services/autoticket.py:338-390 | would_create is the number of accepted rows without an open ticket, already_ticketed the number with one, by_severity how many of the first have each severity |
| AutoTicket.SeverityKeyIs | backend/veyrs/services/autoticket.py:366-369 | findings are told apart by severity in lower case, those without one as unknown |
| AutoTicket.CountKeySplits | backend/veyrs/services/autoticket.py:366-369 | each finding counts once, under its own key |
| AutoTicket.Tracker.RunBackfill | backend/veyrs/services/autoticket.py:393-455 | eligible is that same number on the same rows; exactly the first limit of them are created, created + remaining is eligible, and only a real run opens tickets |
| AutoTicket.TheFirstAreTaken | backend/veyrs/services/autoticket.py:393-455 | at least one and at most 2000 are taken, the first ones found |
| AutoTicket.AtMostTheCapAnHour | backend/veyrs/services/autoticket.py:199-311 | over any sequence of consider calls no closed hour holds more automatic tickets than the cap |
| AutoTicket.ATicketOpensIff | backend/veyrs/services/autoticket.py:199-311 | over any sequence of calls a ticket opens iff the policy is on and accepts the finding, fewer than the cap were opened in the closed hour before, and there is one to open |
| AutoTicketPolicy.Organization.Set | backend/veyrs/services/autoticket.py:458-526 | an accepted edit stores exactly the changes, a refused one nothing |
| AutoTicketPolicy.EditRefusedIff | backend/veyrs/services/autoticket.py:458-514 | an edit is refused for the first of four reasons, and accepted iff there is none |
| AutoTicketPolicy.EditReadsBack | backend/veyrs/services/autoticket.py:106-140 | what an accepted edit names reads as it says, the rest as before, and with nothing stored the defaults |
| AutoTicketPolicy.EditsKeepStored | backend/veyrs/services/autoticket.py:458-526 | stored severities, threshold and cap stay within their ranges over any sequence of edits |
| AutoTicketPolicy.UnguardedIff | backend/veyrs/services/autoticket.py:472-510 | an accepted edit leaves a policy nothing narrows iff the threshold was already null, the edit does not name it, and neither severities nor a KEV requirement remain |
| AutoTicketPolicy.TwoEditsUnguard | backend/veyrs/services/autoticket.py:472-510 | two accepted edits reach such a policy |
| AutoTicketPolicy.UnguardedTicketsEverything | backend/veyrs/services/autoticket.py:160-196 | which, with the owner and exposure filters off, accepts every open finding |
| Attribution.Explain | backend/veyrs/services/attribution.py:599-633 | one line per transition in order, with the moment since which its cause was looked for and, for a reopen, the close it undid |
| Attribution.OneLineForEach | backend/veyrs/services/attribution.py:599-633 | the account has one line for each transition, in order, with what it did and when the transition before it was |
| Attribution.AlternateIff | backend/veyrs/services/attribution.py:184-202 | in a contiguous history that starts in the queue, closes and reopens strictly alternate, a close first, iff nothing is reopened that was not out of the queue |
| Attribution.ReopenableIsFixed | backend/veyrs/services/correlation.py:44-44 | re-detection reopens only states that count as out of the queue, into one that does not |
| AttributionCauses.OutOfTheQueueIff | backend/veyrs/services/attribution.py:74-74 | a state is out of the queue iff it is remediated or later and not deferred |
| AttributionCauses.StatesAreRead | backend/veyrs/services/attribution.py:84-191 | the states of a transition come from the columns, then the details, then the name of the event |
| AttributionCauses.KindsIff | backend/veyrs/services/attribution.py:194-202 | what counts as a reopen, a close or progress |
| Attribution.UndoesTheNearestClose | backend/veyrs/services/attribution.py:599-625 | a reopen is paired with the nearest close before it, with only progress in between |
| Attribution.SameStretchIff | backend/veyrs/services/attribution.py:673-688 | explanation and feed look from the same moment iff the transition before is strictly earlier |
| Attribution.CausesAgreeIff | backend/veyrs/services/attribution.py:328-688 | they name the same cause except for a correlation close tied with the transition before it, with an inventory change in the stretch only the feed looks at and none at that moment |
| Attribution.ATiedCloseHasTwoCauses | backend/veyrs/services/attribution.py:292-688 | four events, the last two at one moment, for which they differ |
| Attribution.StrictTimesAgree | backend/veyrs/services/attribution.py:636-709 | with strictly increasing timestamps they always agree |
| AttributionCauses.EngineCausesIff | backend/veyrs/services/attribution.py:328-452 | what must have been recorded for each cause of what scans, correlation and acceptances do, and conversely |
| AttributionCauses.OtherCausesIff | backend/veyrs/services/attribution.py:453-585 | the same for each cause of what tickets, workflows, assignment and people do, and for none |
| Attribution.RecentChanges | backend/veyrs/services/attribution.py:636-709 | the loop keeps the scanned rows of the wanted kinds and cause, at most 5000 and saying so, each classified since the latest strictly earlier transition where the cause needs it, and returns one page |
| Attribution.InTheFeedIff | backend/veyrs/services/attribution.py:664-688 | a change is reported iff its row was scanned and is of a wanted kind and cause |
| Attribution.FeedAgreesWithAccounts | backend/veyrs/services/attribution.py:599-688 | what is reported is what the account of that finding says, the cause iff the event is not split by such a tie |
| Attribution.PagesHoldEachOnce | backend/veyrs/services/attribution.py:690-706 | the pages counted by `pages` hold every match once, in order |
| Attribution.ScannedIff | backend/veyrs/services/attribution.py:664-688 | the newest 5000 rows are looked at, each reported iff of a wanted kind and cause |
| Attribution.PageCountIs | backend/veyrs/services/attribution.py:706-706 | `pages` is the least number of pages that holds all |
| Attribution.PageIs | backend/veyrs/services/attribution.py:690-706 | a page holds the matches that follow those of the pages before it, up to its size |
| TeamScope.ListsAgreeIff | backend/veyrs/security/scope.py:267-346 | over every estate the list filters and the single-row checks show the same assets, findings and tickets iff the scope is not empty, restricted and open to unowned rows |
| TeamScope.ResolvedIsNotTorn | backend/veyrs/security/scope.py:197-225 | no scope made from grants is of that kind |
| TeamScope.ServedListsAgree | backend/veyrs/security/scope.py:140-346 | so every scope made from grants and any number of team views serves lists that agree with the checks |
| TeamScope.ViewsIntersect | backend/veyrs/security/scope.py:140-169 | a team view is granted iff the team was in view, and shows that team's rows and no others |
| TeamScope.ViewsResolveIff | backend/veyrs/security/scope.py:172-194 | a view is refused as not found iff there is no such team, it is another tenant's, or it was out of view; a granted one shows that team's rows alone, and none asked for changes nothing |
| TeamScope.NarrowingNeverWidens | backend/veyrs/security/scope.py:140-194 | no sequence of views shows a row the principal could not see |
| TeamScope.GrantsOnlyAdd | backend/veyrs/security/scope.py:197-225 | another grant never hides a row |
| TeamScope.RestrictedUserSees | backend/veyrs/security/scope.py:197-274 | a user all of whose grants name teams sees the rows those teams own, and unowned rows iff the organization shows them |

## Left out

- AgentJobsSafety.LoadOrCap: transactions follow one another; two claims of one agent at the same moment can both count before either leases, and the code does not prevent it.
- AgentService.Service.Queue: the text of a job beside its tool, target and reason (parameters, the stored profile, the asset it names) is not kept.
- AgentClaims.ClaimIsBestPermitted: leaves the order of candidate rows with equal priority and age open, as the query does, and takes the rows that `FOR UPDATE SKIP LOCKED` skips as given.
- RateLimit.SharedCounter.Check: keeps counters of past windows, where the backend lets them expire a second after the window; no later hit reads them.
- MfaHistory.EveryCodeIsBounded: each call reads the clock once, where the code may read it again between two store operations.
- SecretStore.NeverAWrongSecret: the encryption key does not change.
- SecretStore.MigrationsKeepTheSecret: a migration commits row by row, where the code commits per organization; any interleaving of those commits is a run of the model; the migration's report is left out.
- NvdPull.Pull: the database is frozen while one pull runs; NvdRuns lets it change between runs.
- NvdRuns.PullsLeaveNoGap: the clock reads some moment after 2002-01-01, the start of a full pull.
- NvdRuns.UpToDateIff: a run happens at one moment and reads the clock once, where the code reads it again for `started_at`; of runs with the same reading the later counts as the last.
- RiskFactors.EachControlCredits: controls come by their keys, such as `network_segmentation`, which the code makes of other spellings.
- RiskScore.RiskIsMonotone: for non-negative weights and options; reals are exact, so binary rounding of floats is not modelled, and the square root is given with the score.
- Markdown.Render: inline markup, HTML text, tables cell by cell and dedenting of code are not modelled; line patterns are predicates over lines.
- AutoTicket.AtMostTheCapAnHour: calls follow one another; two workers that count at the same moment can both open a ticket, and the code does not prevent it.
- AutoTicket.QueryDropsIff: lower-casing and white space are those of ASCII.
- AutoTicket.Tracker.RunBackfill: the list of references is the list of findings, and is not cut at 100.
- MetricsRegistry.QuantileIndexInRange: the indices are exact fractions of the count, where the code multiplies floats and truncates.
- RateLimit.LocalWindow.Hit: for a limit of at least one; with zero the code indexes an empty bucket.
- Attribution.RecentChanges: which rows the query returns (tenant, team scope, time) and the lines' names and sentences.
- Whether an agent is busy is not claimed to match its jobs: reaping and cancelling do not release the agent, and a heartbeat makes it idle.
- `verify_lease` does not look at the expiry, so an overdue lease that has not been reaped still writes; the model does the same.
- HTTP routes, SMTP, Telegram, Redis and Vault transport, Fernet, HMAC and Argon2, SQLAlchemy mapping and row-level security.
- URL splitting, glob, network and address parsing, which enter as functions with no assumed meaning.
- Human-readable sentences, evidence text and console tables.
- AgentService.Service.Enrol: slugs and tokens.
- AgentService.Service.SetTools: how declarations, withdrawals and the operator's switch are merged into one tool table.
- Settings and the offline sweep are steps of the protocol only; they have no method of their own.
- Deletion of jobs and agents.
- External ticketing mode, in which links instead of ticket events are counted.
- Route tags and their classification, analytics, compliance counting, the parsers of scanner formats, CVSS parsing and the other feeds.
