/** What every run of the lease protocol keeps, for any interleaving of agents,
    operators and the reaper. */
module AgentJobsSafety {
  import opened Wrappers
  import opened TargetPolicy
  import opened AgentJobs
  import ScanResult

  // ---------------------------------------------------------- invariant --

  /** Sequence numbers are exactly 1, 2, 3, ... */
  ghost predicate Numbered(log: seq<Event>) {
    forall i :: 0 <= i < |log| ==> log[i].seqNo == i + 1
  }

  ghost predicate LogNumbered(j: Job) {
    |j.events| == j.lastEventSeq && Numbered(j.events)
  }

  ghost predicate JobOk(j: Job) {
    && LogNumbered(j)
    && (j.leaseToken.Some? <==> j.state.Held())
    && (j.state.Held() ==> j.agentId.Some? && j.leaseExpiresAt.Some? && j.leaseToken.value != "" && j.attempts > 0)
    && j.attempts <= j.maxAttempts
    && (j.state.Queued? ==> j.attempts < j.maxAttempts && j.agentId == j.requestedAgentId)
    && (j.state.Expired? ==> j.attempts == j.maxAttempts)
    && (j.requestedAgentId.Some? ==> j.agentId == j.requestedAgentId)
  }

  /** Current lease tokens were all minted here, and no two jobs share one. */
  ghost predicate TokensOk(s: State) {
    && (forall i :: 0 <= i < |s.jobs| && s.jobs[i].leaseToken.Some? ==> s.jobs[i].leaseToken.value in s.minted)
    && (forall i, k :: 0 <= i < k < |s.jobs| && s.jobs[i].leaseToken.Some? ==>
          s.jobs[i].leaseToken != s.jobs[k].leaseToken)
  }

  ghost predicate Inv(s: State) {
    && (forall i :: 0 <= i < |s.jobs| ==> JobOk(s.jobs[i]))
    && TokensOk(s)
    && (forall i :: 0 <= i < |s.jobs| && s.jobs[i].agentId.Some? ==> s.jobs[i].agentId.value < |s.agents|)
  }

  function Rank(state: JobState): nat {
    match state
    case Leased => 3
    case Running => 2
    case Queued => 1
    case _ => 0
  }

  /** How many more state changes a job can possibly make. */
  function Fuel(j: Job): int {
    4 * (j.maxAttempts - j.attempts) + Rank(j.state)
  }

  /** How one step may change one row: `token` is the token the step mints. */
  ghost predicate Evolves(j: Job, k: Job, leasedTo: Option<AgentId>, token: string) {
    && k.tool == j.tool && k.target == j.target && k.priority == j.priority && k.createdAt == j.createdAt
    && k.requestedAgentId == j.requestedAgentId && k.maxAttempts == j.maxAttempts
    && j.events <= k.events
    && (j.state.Terminal() ==> k == j)
    && (k.state == j.state ==> k.attempts == j.attempts && k.leaseToken == j.leaseToken && k.agentId == j.agentId)
    && (k.state != j.state ==> Fuel(k) < Fuel(j))
    && (k.state.Held() && j.state.Held() ==>
          k.leaseToken == j.leaseToken && k.agentId == j.agentId && k.attempts == j.attempts)
    && (k.state.Held() && !j.state.Held() ==>
          j.state.Queued? && leasedTo.Some? && k.agentId == leasedTo && k.leaseToken == Some(token)
          && k.attempts == j.attempts + 1 && (j.agentId.None? || j.agentId == leasedTo))
    && (!k.state.Held() ==> k.attempts == j.attempts)
    && (k.agentId == j.agentId || k.agentId == leasedTo || k.agentId == j.requestedAgentId)
  }

  ghost function LeasedTo(act: Action): Option<AgentId> {
    if act.Claim? then Some(act.agent) else None
  }

  ghost function Minted(act: Action): string {
    if act.Claim? then act.token else ""
  }

  lemma {:induction false} AppendEventsKeeps(j: Job, specs: seq<EventSpec>)
    requires LogNumbered(j)
    ensures LogNumbered(AppendEvents(j, specs))
    ensures j.events <= AppendEvents(j, specs).events
    ensures var k := AppendEvents(j, specs);
      k == j.(lastEventSeq := j.lastEventSeq + |specs|, events := k.events)
    decreases |specs|
  {
    if specs != [] {
      AppendEventsKeeps(j, specs[..|specs| - 1]);
    }
  }

  // Each row operation is one admissible evolution of the row.

  ghost predicate Good(j: Job, k: Job, leasedTo: Option<AgentId>, token: string) {
    Evolves(j, k, leasedTo, token) && JobOk(k)
  }

  lemma {:induction false} LeaseIsGood(j: Job, a: AgentId, token: string, expires: int)
    requires JobOk(j) && Eligible(j, a) && token != ""
    ensures Good(j, Lease(j, a, token, expires), Some(a), token)
  {
  }

  lemma {:induction false} StreamIsGood(j: Job, specs: seq<EventSpec>)
    requires JobOk(j) && j.state.Held()
    ensures Good(j, AppendEvents(MarkRunning(j), specs), None, "")
  {
    AppendEventsKeeps(MarkRunning(j), specs);
  }

  lemma {:induction false} FinishIsGood(j: Job, succeeded: bool)
    requires JobOk(j) && j.state.Held()
    ensures Good(j, Finish(j, succeeded), None, "")
  {
  }

  lemma {:induction false} FailIsGood(j: Job, requeue: bool)
    requires JobOk(j) && j.state.Held()
    ensures Good(j, Fail(j, requeue), None, "")
  {
  }

  lemma {:induction false} CancelIsGood(j: Job)
    requires JobOk(j) && !j.state.Terminal()
    ensures Good(j, Cancel(j), None, "")
  {
  }

  lemma {:induction false} ReapIsGood(j: Job)
    requires JobOk(j) && j.state.Held()
    ensures Good(j, Reap(j), None, "")
  {
  }

  lemma {:induction false} LeaseEvolves(s: State, i: JobId, a: AgentId, token: string, now: int, k: JobId)
    requires Inv(s) && i < |s.jobs| && k < |s.jobs| && a < |s.agents| && token != "" && Eligible(s.jobs[i], a)
    ensures Good(s.jobs[k], LeaseTo(s, i, a, token, now).jobs[k], Some(a), token)
  {
    if i == k {
      LeaseIsGood(s.jobs[i], a, token, now + s.agents[a].leaseSeconds);
    }
  }

  lemma {:induction false} ClaimEvolves(lib: TextLib, s: State, act: Action, i: JobId)
    requires act.Claim? && Inv(s) && Admissible(s, act) && i < |s.jobs|
    requires ClaimStep(lib, s, act.agent, act.candidates, act.token, act.now).Ok?
    ensures var t := ClaimStep(lib, s, act.agent, act.candidates, act.token, act.now).value;
      |t.jobs| == |s.jobs| && Good(s.jobs[i], t.jobs[i], Some(act.agent), act.token)
  {
    var row := ClaimedRow(lib, s, act.agent, act.candidates);
    if row.Some? {
      LeaseEvolves(s, row.value, act.agent, act.token, act.now, i);
    }
  }

  lemma {:induction false} HolderEvolves(s: State, act: Action, i: JobId)
    requires act.Stream? || act.Extend? || act.Submit? || act.ReportFailure?
    requires Inv(s) && i < |s.jobs| && HolderStep(s, act).Ok?
    ensures var t := HolderStep(s, act).value;
      |t.jobs| == |s.jobs| && Good(s.jobs[i], t.jobs[i], None, "")
  {
    if act.job == i {
      var j := s.jobs[i];
      match act {
        case Stream(_, _, _, specs) => StreamIsGood(j, specs);
        case Extend(_, _, _, _) =>
        case Submit(_, _, _, submission) => FinishIsGood(j, ScanResult.IntakeOf(submission).succeeded);
        case ReportFailure(_, _, _, requeue) => FailIsGood(j, requeue);
      }
    }
  }

  lemma {:induction false} StepEvolves(lib: TextLib, s: State, act: Action, i: JobId)
    requires Inv(s) && Admissible(s, act) && i < |s.jobs|
    ensures |s.jobs| <= |After(lib, s, act).jobs|
    ensures Good(s.jobs[i], After(lib, s, act).jobs[i], LeasedTo(act), Minted(act))
  {
    if Step(lib, s, act).Ok? {
      match act {
        case Claim(_, _, _, _) => ClaimEvolves(lib, s, act, i);
        case Stream(_, _, _, _) => HolderEvolves(s, act, i);
        case Extend(_, _, _, _) => HolderEvolves(s, act, i);
        case Submit(_, _, _, _) => HolderEvolves(s, act, i);
        case ReportFailure(_, _, _, _) => HolderEvolves(s, act, i);
        case CancelJob(_) => if !s.jobs[i].state.Terminal() { CancelIsGood(s.jobs[i]); }
        case ReapExpired(now) => if s.jobs[i].state.Held() { ReapIsGood(s.jobs[i]); }
        case _ =>
      }
    }
  }

  // ----------------------------------------------------------- capacity --

  lemma {:induction false} CountUpdate(jobs: seq<Job>, i: nat, j: Job, a: AgentId)
    requires i < |jobs|
    ensures ActiveCount(jobs[i := j], a)
         == ActiveCount(jobs, a) - (if Holds(jobs[i], a) then 1 else 0) + (if Holds(j, a) then 1 else 0)
  {
    var n := |jobs| - 1;
    if i == n {
      assert jobs[i := j][..n] == jobs[..n];
    } else {
      assert jobs[i := j][..n] == jobs[..n][i := j];
      CountUpdate(jobs[..n], i, j, a);
    }
  }

  lemma {:induction false} CountShrinks(jobs: seq<Job>, later: seq<Job>, a: AgentId)
    requires |jobs| == |later|
    requires forall i :: 0 <= i < |jobs| && Holds(later[i], a) ==> Holds(jobs[i], a)
    ensures ActiveCount(later, a) <= ActiveCount(jobs, a)
  {
    if jobs != [] {
      var n := |jobs| - 1;
      CountShrinks(jobs[..n], later[..n], a);
    }
  }

  lemma {:induction false} CountOfNobody(jobs: seq<Job>, a: AgentId)
    requires forall i :: 0 <= i < |jobs| ==> !Holds(jobs[i], a)
    ensures ActiveCount(jobs, a) == 0
  {
    if jobs != [] { CountOfNobody(jobs[..|jobs| - 1], a); }
  }

  /** Only a claim adds to an agent's load, and only below its cap. */
  lemma {:induction false} LeaseCapacity(s: State, i: JobId, b: AgentId, token: string, now: int, a: AgentId)
    requires Inv(s) && i < |s.jobs| && a < |s.agents| && b < |s.agents|
    requires ActiveCount(s.jobs, b) < s.agents[b].maxConcurrency && Eligible(s.jobs[i], b)
    ensures var load := ActiveCount(LeaseTo(s, i, b, token, now).jobs, a);
      load <= ActiveCount(s.jobs, a) || load <= s.agents[a].maxConcurrency
  {
    CountUpdate(s.jobs, i, Lease(s.jobs[i], b, token, now + s.agents[b].leaseSeconds), a);
  }

  lemma {:induction false} ClaimCapacity(lib: TextLib, s: State, act: Action, a: AgentId)
    requires act.Claim? && Inv(s) && Admissible(s, act) && a < |s.agents|
    requires ClaimStep(lib, s, act.agent, act.candidates, act.token, act.now).Ok?
    ensures var t := ClaimStep(lib, s, act.agent, act.candidates, act.token, act.now).value;
      |t.agents| == |s.agents|
      && (ActiveCount(t.jobs, a) <= ActiveCount(s.jobs, a) || ActiveCount(t.jobs, a) <= s.agents[a].maxConcurrency)
  {
    var row := ClaimedRow(lib, s, act.agent, act.candidates);
    if row.Some? {
      LeaseCapacity(s, row.value, act.agent, act.token, act.now, a);
    }
  }

  lemma {:induction false} StepAgents(lib: TextLib, s: State, act: Action)
    requires Admissible(s, act)
    ensures var t := After(lib, s, act);
      && |s.agents| <= |t.agents|
      && (!act.Configure? ==>
            forall a :: 0 <= a < |s.agents| ==> s.agents[a].maxConcurrency <= t.agents[a].maxConcurrency)
      && (|t.agents| > |s.agents| ==> t.jobs == s.jobs)
  {
  }

  lemma {:induction false} NobodyYetHoldsNothing(s: State, a: AgentId)
    requires Inv(s) && a >= |s.agents|
    ensures ActiveCount(s.jobs, a) == 0
  {
    forall i | 0 <= i < |s.jobs| ensures !Holds(s.jobs[i], a) {
      assert JobOk(s.jobs[i]);
    }
    CountOfNobody(s.jobs, a);
  }

  lemma {:induction false} NewcomerHoldsNothing(lib: TextLib, s: State, act: Action, a: AgentId)
    requires Inv(s) && Admissible(s, act) && |s.agents| <= a < |After(lib, s, act).agents|
    ensures ActiveCount(After(lib, s, act).jobs, a) == 0
  {
    StepAgents(lib, s, act);
    NobodyYetHoldsNothing(s, a);
  }

  lemma {:induction false} OthersOnlyLetGo(lib: TextLib, s: State, act: Action, a: AgentId)
    requires Inv(s) && Admissible(s, act) && !act.Claim?
    ensures ActiveCount(After(lib, s, act).jobs, a) <= ActiveCount(s.jobs, a)
  {
    var t := After(lib, s, act);
    forall i | 0 <= i < |s.jobs| && i < |t.jobs| && Holds(t.jobs[i], a) ensures Holds(s.jobs[i], a) {
      StepEvolves(lib, s, act, i);
    }
    GrowsByOneFreeRow(lib, s, act, a);
    LoadOnlyShrinks(s.jobs, t.jobs, a);
  }

  /** Whatever is done, an agent's load does not rise, or it is within the cap the
      agent has then. */
  lemma {:induction false} LoadOrCap(lib: TextLib, s: State, act: Action, a: AgentId)
    requires Inv(s) && Admissible(s, act) && a < |After(lib, s, act).agents|
    ensures var t := After(lib, s, act);
      ActiveCount(t.jobs, a) <= ActiveCount(s.jobs, a) || ActiveCount(t.jobs, a) <= t.agents[a].maxConcurrency
  {
    StepAgents(lib, s, act);
    if a >= |s.agents| {
      NewcomerHoldsNothing(lib, s, act, a);
    } else if act.Claim? {
      if Step(lib, s, act).Ok? { ClaimCapacity(lib, s, act, a); }
    } else {
      OthersOnlyLetGo(lib, s, act, a);
    }
  }

  ghost predicate WithinCaps(s: State) {
    forall a :: 0 <= a < |s.agents| ==> ActiveCount(s.jobs, a) <= s.agents[a].maxConcurrency
  }

  /** Safe tables stay safe, and within the caps if they were. */
  ghost predicate KeepsSafe(s: State, t: State) {
    Inv(s) ==> Inv(t) && (WithinCaps(s) ==> WithinCaps(t))
  }

  /** An edit that sets an agent's cap below the jobs it holds. */
  predicate Undercuts(lib: TextLib, s: State, act: Action) {
    act.Configure? && Step(lib, s, act).Ok? && act.settings.maxConcurrency < ActiveCount(s.jobs, act.agent)
  }

  /** A step takes no agent above its cap, unless it is such an edit; that one
      always does. */
  lemma {:induction false} CapacityKeptIff(lib: TextLib, s: State, act: Action)
    requires Inv(s) && Admissible(s, act) && WithinCaps(s)
    ensures WithinCaps(After(lib, s, act)) <==> !Undercuts(lib, s, act)
  {
    var t := After(lib, s, act);
    StepAgents(lib, s, act);
    if Undercuts(lib, s, act) {
      assert ActiveCount(t.jobs, act.agent) > t.agents[act.agent].maxConcurrency;
    } else {
      forall a | 0 <= a < |t.agents| ensures ActiveCount(t.jobs, a) <= t.agents[a].maxConcurrency {
        LoadOrCap(lib, s, act, a);
        if a >= |s.agents| { NewcomerHoldsNothing(lib, s, act, a); }
      }
    }
  }

  /** Rows that only let go, and at most one new row that nobody holds. */
  lemma {:induction false} LoadOnlyShrinks(jobs: seq<Job>, later: seq<Job>, a: AgentId)
    requires |jobs| <= |later| <= |jobs| + 1
    requires forall i :: 0 <= i < |jobs| && Holds(later[i], a) ==> Holds(jobs[i], a)
    requires |later| > |jobs| ==> !Holds(later[|jobs|], a)
    ensures ActiveCount(later, a) <= ActiveCount(jobs, a)
  {
    CountShrinks(jobs, later[..|jobs|], a);
    if |later| == |jobs| { assert later[..|jobs|] == later; }
  }

  lemma {:induction false} GrowsByOneFreeRow(lib: TextLib, s: State, act: Action, a: AgentId)
    requires Admissible(s, act)
    ensures var t := After(lib, s, act);
      && |s.jobs| <= |t.jobs| <= |s.jobs| + 1
      && (|t.jobs| > |s.jobs| ==> !Holds(t.jobs[|s.jobs|], a))
  {
  }

  // -------------------------------------------------- tokens and whole runs --

  lemma {:induction false} LeaseTokens(s: State, i: JobId, a: AgentId, token: string, now: int)
    requires TokensOk(s) && i < |s.jobs| && a < |s.agents| && token !in s.minted
    ensures TokensOk(LeaseTo(s, i, a, token, now))
  {
  }

  lemma {:induction false} OthersKeepTokens(lib: TextLib, s: State, act: Action, i: JobId)
    requires Inv(s) && Admissible(s, act) && !act.Claim?
    requires i < |After(lib, s, act).jobs| && After(lib, s, act).jobs[i].leaseToken.Some?
    ensures i < |s.jobs| && After(lib, s, act).jobs[i].leaseToken == s.jobs[i].leaseToken
  {
    if i < |s.jobs| {
      StepEvolves(lib, s, act, i);
      assert JobOk(s.jobs[i]);
    } else {
      NewRowOk(lib, s, act, i);
    }
  }

  lemma {:induction false} ClaimTokens(lib: TextLib, s: State, act: Action)
    requires Inv(s) && Admissible(s, act) && act.Claim?
    ensures TokensOk(After(lib, s, act)) && s.minted <= After(lib, s, act).minted
  {
    var decision := ClaimDecision(lib, s, act.agent, act.candidates);
    if decision.Ok? && decision.value.Some? {
      LeaseTokens(s, decision.value.value, act.agent, act.token, act.now);
    }
  }

  lemma {:induction false} TokensKept(lib: TextLib, s: State, act: Action)
    requires Inv(s) && Admissible(s, act)
    ensures TokensOk(After(lib, s, act)) && s.minted <= After(lib, s, act).minted
  {
    var t := After(lib, s, act);
    if act.Claim? {
      ClaimTokens(lib, s, act);
    } else {
      forall i | 0 <= i < |t.jobs| && t.jobs[i].leaseToken.Some?
        ensures i < |s.jobs| && t.jobs[i].leaseToken == s.jobs[i].leaseToken
      {
        OthersKeepTokens(lib, s, act, i);
      }
      MintedKept(lib, s, act);
      KeptTokensOk(s, t);
    }
  }

  lemma {:induction false} MintedKept(lib: TextLib, s: State, act: Action)
    requires Admissible(s, act) && !act.Claim?
    ensures s.minted <= After(lib, s, act).minted
  {
  }

  lemma {:induction false} KeptTokensOk(s: State, t: State)
    requires TokensOk(s) && s.minted <= t.minted
    requires forall i :: 0 <= i < |t.jobs| && t.jobs[i].leaseToken.Some? ==>
               i < |s.jobs| && t.jobs[i].leaseToken == s.jobs[i].leaseToken
    ensures TokensOk(t)
  {
    forall i, k | 0 <= i < k < |t.jobs| && t.jobs[i].leaseToken.Some?
      ensures t.jobs[i].leaseToken != t.jobs[k].leaseToken
    {
      if t.jobs[k].leaseToken.Some? {
        assert t.jobs[k].leaseToken == s.jobs[k].leaseToken;
      }
    }
  }

  lemma {:induction false} ClaimantIsKnown(lib: TextLib, s: State, act: Action, i: JobId)
    requires Admissible(s, act) && act.Claim? && i < |s.jobs| && After(lib, s, act).jobs[i] != s.jobs[i]
    ensures act.agent < |s.agents|
  {
  }

  lemma {:induction false} AgentIdsKept(lib: TextLib, s: State, act: Action, i: JobId)
    requires Inv(s) && Admissible(s, act) && i < |s.jobs| && i < |After(lib, s, act).jobs|
    requires After(lib, s, act).jobs[i].agentId.Some?
    ensures After(lib, s, act).jobs[i].agentId.value < |s.agents|
  {
    var j, k := s.jobs[i], After(lib, s, act).jobs[i];
    StepEvolves(lib, s, act, i);
    if k != j && act.Claim? { ClaimantIsKnown(lib, s, act, i); }
    assert JobOk(j);
  }

  lemma {:induction false} NewAgentIdKnown(lib: TextLib, s: State, act: Action, i: JobId)
    requires Admissible(s, act) && |s.jobs| <= i < |After(lib, s, act).jobs|
    requires After(lib, s, act).jobs[i].agentId.Some?
    ensures After(lib, s, act).jobs[i].agentId.value < |s.agents|
  {
  }

  lemma {:induction false} NewRowOk(lib: TextLib, s: State, act: Action, i: JobId)
    requires Admissible(s, act) && |s.jobs| <= i < |After(lib, s, act).jobs|
    ensures act.Queue? && JobOk(After(lib, s, act).jobs[i])
  {
  }

  lemma {:induction false} StepKeepsInv(lib: TextLib, s: State, act: Action)
    requires Inv(s) && Admissible(s, act)
    ensures Inv(After(lib, s, act))
  {
    var t := After(lib, s, act);
    forall i | 0 <= i < |t.jobs| ensures JobOk(t.jobs[i]) {
      if i < |s.jobs| { StepEvolves(lib, s, act, i); } else { NewRowOk(lib, s, act, i); }
    }
    TokensKept(lib, s, act);
    forall i | 0 <= i < |t.jobs| && t.jobs[i].agentId.Some? ensures t.jobs[i].agentId.value < |t.agents| {
      StepAgents(lib, s, act);
      if i < |s.jobs| { AgentIdsKept(lib, s, act, i); } else { NewAgentIdKnown(lib, s, act, i); }
    }
  }

  /** For steps that read no text. */
  ghost function AnyLib(): TextLib {
    TextLib(x => x, x => None, x => None, x => false, x => false, (x, y) => false, (x, y) => false)
  }

  ghost predicate AdmissibleRun(lib: TextLib, s: State, acts: seq<Action>)
    decreases |acts|
  {
    acts != [] ==> Admissible(s, acts[0]) && AdmissibleRun(lib, After(lib, s, acts[0]), acts[1..])
  }

  ghost function Run(lib: TextLib, s: State, acts: seq<Action>): State
    requires AdmissibleRun(lib, s, acts)
    decreases |acts|
  {
    if acts == [] then s else Run(lib, After(lib, s, acts[0]), acts[1..])
  }

  lemma {:induction false} RunCons(lib: TextLib, s: State, act: Action, t: State, rest: seq<Action>)
    requires Admissible(s, act) && t == After(lib, s, act) && AdmissibleRun(lib, t, rest)
    ensures AdmissibleRun(lib, s, [act] + rest) && Run(lib, s, [act] + rest) == Run(lib, t, rest)
  {
    assert ([act] + rest)[1..] == rest;
  }

  const EMPTY := State([], [], true, {}, {})

  /** Every reachable state satisfies the invariant. */
  lemma {:induction false} RunKeepsInv(lib: TextLib, s: State, acts: seq<Action>)
    requires Inv(s) && AdmissibleRun(lib, s, acts)
    ensures Inv(Run(lib, s, acts))
    decreases |acts|
  {
    if acts != [] {
      StepKeepsInv(lib, s, acts[0]);
      RunKeepsInv(lib, After(lib, s, acts[0]), acts[1..]);
    }
  }

  lemma {:induction false} ReachableIsSafe(lib: TextLib, acts: seq<Action>)
    requires AdmissibleRun(lib, EMPTY, acts)
    ensures Inv(Run(lib, EMPTY, acts))
  {
    RunKeepsInv(lib, EMPTY, acts);
  }

  ghost predicate NeverUndercuts(lib: TextLib, s: State, acts: seq<Action>)
    requires AdmissibleRun(lib, s, acts)
    decreases |acts|
  {
    acts != [] ==> !Undercuts(lib, s, acts[0]) && NeverUndercuts(lib, After(lib, s, acts[0]), acts[1..])
  }

  /** Every state along the run gives the agent at most that cap. */
  ghost predicate CapsAtMost(lib: TextLib, s: State, acts: seq<Action>, a: AgentId, most: nat)
    requires AdmissibleRun(lib, s, acts)
    decreases |acts|
  {
    && (a < |s.agents| ==> s.agents[a].maxConcurrency <= most)
    && (acts != [] ==> CapsAtMost(lib, After(lib, s, acts[0]), acts[1..], a, most))
  }

  lemma {:induction false} RunKeepsCaps(lib: TextLib, s: State, acts: seq<Action>)
    requires Inv(s) && AdmissibleRun(lib, s, acts) && WithinCaps(s) && NeverUndercuts(lib, s, acts)
    ensures WithinCaps(Run(lib, s, acts))
    decreases |acts|
  {
    if acts != [] {
      CapacityKeptIff(lib, s, acts[0]);
      StepKeepsInv(lib, s, acts[0]);
      RunKeepsCaps(lib, After(lib, s, acts[0]), acts[1..]);
    }
  }

  /** In any run whose edits do not undercut, every agent is always within its cap. */
  lemma {:induction false} ReachableIsWithinCaps(lib: TextLib, acts: seq<Action>)
    requires AdmissibleRun(lib, EMPTY, acts) && NeverUndercuts(lib, EMPTY, acts)
    ensures WithinCaps(Run(lib, EMPTY, acts))
  {
    RunKeepsCaps(lib, EMPTY, acts);
  }

  lemma {:induction false} RunKeepsLoad(lib: TextLib, s: State, acts: seq<Action>, a: AgentId, most: nat)
    requires Inv(s) && AdmissibleRun(lib, s, acts) && CapsAtMost(lib, s, acts, a, most)
    requires ActiveCount(s.jobs, a) <= most
    ensures ActiveCount(Run(lib, s, acts).jobs, a) <= most
    decreases |acts|
  {
    if acts != [] {
      var t := After(lib, s, acts[0]);
      StepKeepsInv(lib, s, acts[0]);
      if a < |t.agents| { LoadOrCap(lib, s, acts[0], a); } else { NobodyYetHoldsNothing(t, a); }
      RunKeepsLoad(lib, t, acts[1..], a, most);
    }
  }

  /** And whatever the edits, no agent ever holds more jobs than the largest cap
      it has had. */
  lemma {:induction false} LoadNeverExceedsTheLargestCap(lib: TextLib, acts: seq<Action>, a: AgentId, most: nat)
    requires AdmissibleRun(lib, EMPTY, acts) && CapsAtMost(lib, EMPTY, acts, a, most)
    ensures ActiveCount(Run(lib, EMPTY, acts).jobs, a) <= most
  {
    RunKeepsLoad(lib, EMPTY, acts, a, most);
  }

  /** Along any run a row keeps what it was asked for, a finished row is frozen
      whole, and the log only ever grows by a suffix. */
  lemma {:induction false} RunKeepsRow(lib: TextLib, s: State, acts: seq<Action>, i: JobId)
    requires Inv(s) && AdmissibleRun(lib, s, acts) && i < |s.jobs|
    ensures var t := Run(lib, s, acts);
      && i < |t.jobs|
      && t.jobs[i].requestedAgentId == s.jobs[i].requestedAgentId
      && t.jobs[i].target == s.jobs[i].target && t.jobs[i].tool == s.jobs[i].tool
      && t.jobs[i].maxAttempts == s.jobs[i].maxAttempts
      && s.jobs[i].events <= t.jobs[i].events
      && (s.jobs[i].state.Terminal() ==> t.jobs[i] == s.jobs[i])
    decreases |acts|
  {
    if acts != [] {
      StepEvolves(lib, s, acts[0], i);
      StepKeepsInv(lib, s, acts[0]);
      RunKeepsRow(lib, After(lib, s, acts[0]), acts[1..], i);
    }
  }

  // ------------------------------------------------------ bounded attempts --

  /** How often a run changes the state of one job, and how often it leases it. */
  ghost function StateChanges(lib: TextLib, s: State, acts: seq<Action>, i: JobId): nat
    requires AdmissibleRun(lib, s, acts)
    decreases |acts|
  {
    if acts == [] then 0
    else
      var t := After(lib, s, acts[0]);
      (if i < |s.jobs| && i < |t.jobs| && t.jobs[i].state != s.jobs[i].state then 1 else 0)
        + StateChanges(lib, t, acts[1..], i)
  }

  ghost function LeaseCount(lib: TextLib, s: State, acts: seq<Action>, i: JobId): nat
    requires AdmissibleRun(lib, s, acts)
    decreases |acts|
  {
    if acts == [] then 0
    else
      var t := After(lib, s, acts[0]);
      (if i < |s.jobs| && i < |t.jobs| && !s.jobs[i].state.Held() && t.jobs[i].state.Held() then 1 else 0)
        + LeaseCount(lib, t, acts[1..], i)
  }

  /** Every state change burns fuel, and the leases of a job are its attempts:
      so a job is leased at most max_attempts times, and settles after at most
      4 * max_attempts + 1 changes. */
  lemma {:induction false} RunBurnsFuel(lib: TextLib, s: State, acts: seq<Action>, i: JobId)
    requires Inv(s) && AdmissibleRun(lib, s, acts) && i < |s.jobs|
    ensures i < |Run(lib, s, acts).jobs|
    ensures var t := Run(lib, s, acts).jobs[i];
      && StateChanges(lib, s, acts, i) <= Fuel(s.jobs[i]) - Fuel(t)
      && LeaseCount(lib, s, acts, i) == t.attempts - s.jobs[i].attempts
    decreases |acts|
  {
    if acts != [] {
      StepEvolves(lib, s, acts[0], i);
      assert JobOk(s.jobs[i]);
      StepKeepsInv(lib, s, acts[0]);
      RunBurnsFuel(lib, After(lib, s, acts[0]), acts[1..], i);
    }
  }

  lemma {:induction false} AttemptsAreBounded(lib: TextLib, s: State, acts: seq<Action>, i: JobId)
    requires Inv(s) && AdmissibleRun(lib, s, acts) && i < |s.jobs| && s.jobs[i].attempts == 0
    ensures i < |Run(lib, s, acts).jobs|
    ensures var t := Run(lib, s, acts).jobs[i];
      && LeaseCount(lib, s, acts, i) <= t.maxAttempts
      && StateChanges(lib, s, acts, i) <= 4 * t.maxAttempts + 1
      && (t.state.Expired? ==> LeaseCount(lib, s, acts, i) == t.maxAttempts)
      && (t.state.Queued? ==> LeaseCount(lib, s, acts, i) < t.maxAttempts)
  {
    RunBurnsFuel(lib, s, acts, i);
    RunKeepsRow(lib, s, acts, i);
    RunKeepsInv(lib, s, acts);
    assert JobOk(s.jobs[i]) && JobOk(Run(lib, s, acts).jobs[i]);
  }

  // ------------------------------------------------------ mutual exclusion --

  predicate HolderAction(act: Action) {
    act.Stream? || act.Extend? || act.Submit? || act.ReportFailure?
  }

  /** In a reachable state a write gets through exactly when the job is held by
      that very agent under that very token. */
  lemma {:induction false} WriteIsGuarded(s: State, act: Action)
    requires Inv(s) && HolderAction(act) && act.agent < |s.agents| && act.job < |s.jobs|
    ensures VerifyLease(s.jobs[act.job], act.agent, act.lease)
       <==> var j := s.jobs[act.job];
            j.state.Held() && j.agentId == Some(act.agent) && act.lease.Some? && act.lease == j.leaseToken
    ensures !VerifyLease(s.jobs[act.job], act.agent, act.lease) ==> HolderStep(s, act) == Err(NotTheHolder)
  {
    assert JobOk(s.jobs[act.job]);
  }

  ghost predicate NobodyHolds(s: State, token: string) {
    forall i :: 0 <= i < |s.jobs| ==> s.jobs[i].leaseToken != Some(token)
  }

  /** A token not held at one moment is never held again ... */
  lemma {:induction false} DeadTokenStaysDead(lib: TextLib, s: State, acts: seq<Action>, token: string)
    requires Inv(s) && AdmissibleRun(lib, s, acts) && token in s.minted && NobodyHolds(s, token)
    ensures NobodyHolds(Run(lib, s, acts), token)
    decreases |acts|
  {
    if acts != [] {
      var t := After(lib, s, acts[0]);
      forall i | 0 <= i < |t.jobs| ensures t.jobs[i].leaseToken != Some(token) {
        if i < |s.jobs| {
          StepEvolves(lib, s, acts[0], i);
          assert JobOk(s.jobs[i]);
        } else {
          NewRowOk(lib, s, acts[0], i);
        }
      }
      TokensKept(lib, s, acts[0]);
      StepKeepsInv(lib, s, acts[0]);
      DeadTokenStaysDead(lib, t, acts[1..], token);
    }
  }

  ghost predicate OnlyHolder(s: State, token: string, i: JobId) {
    forall k :: 0 <= k < |s.jobs| && k != i ==> s.jobs[k].leaseToken != Some(token)
  }

  /** A token never moves from one job to another. */
  lemma {:induction false} TokenStaysWithItsJob(lib: TextLib, s: State, acts: seq<Action>, token: string, i: JobId)
    requires Inv(s) && AdmissibleRun(lib, s, acts) && token in s.minted && OnlyHolder(s, token, i)
    ensures OnlyHolder(Run(lib, s, acts), token, i)
    decreases |acts|
  {
    if acts != [] {
      var t := After(lib, s, acts[0]);
      forall k | 0 <= k < |t.jobs| && k != i ensures t.jobs[k].leaseToken != Some(token) {
        if k < |s.jobs| {
          StepEvolves(lib, s, acts[0], k);
          assert JobOk(s.jobs[k]);
        } else {
          NewRowOk(lib, s, acts[0], k);
        }
      }
      TokensKept(lib, s, acts[0]);
      StepKeepsInv(lib, s, acts[0]);
      TokenStaysWithItsJob(lib, t, acts[1..], token, i);
    }
  }

  lemma {:induction false} RunKeepsMinted(lib: TextLib, s: State, acts: seq<Action>)
    requires Inv(s) && AdmissibleRun(lib, s, acts)
    ensures s.minted <= Run(lib, s, acts).minted
    decreases |acts|
  {
    if acts != [] {
      TokensKept(lib, s, acts[0]);
      StepKeepsInv(lib, s, acts[0]);
      RunKeepsMinted(lib, After(lib, s, acts[0]), acts[1..]);
    }
  }

  lemma {:induction false} CurrentTokenHasOneHolder(s: State, i: JobId)
    requires Inv(s) && i < |s.jobs| && s.jobs[i].leaseToken.Some?
    ensures s.jobs[i].leaseToken.value in s.minted && OnlyHolder(s, s.jobs[i].leaseToken.value, i)
  {
    forall k | 0 <= k < |s.jobs| && k != i ensures s.jobs[k].leaseToken != s.jobs[i].leaseToken {
      if k < i { assert s.jobs[k].leaseToken.Some? ==> s.jobs[k].leaseToken != s.jobs[i].leaseToken; }
    }
  }

  lemma {:induction false} DeadTokenIsRefused(lib: TextLib, s: State, act: Action)
    requires HolderAction(act) && act.lease.Some? && NobodyHolds(s, act.lease.value)
    ensures HolderStep(s, act).Err? && Admissible(s, act) && After(lib, s, act) == s
  {
  }

  /** ... so whoever lost a lease - reaped, cancelled, requeued or finished - can
      never again change anything with it, whoever holds the job by then. */
  lemma {:induction false} LostLeaseNeverWritesAgain(
      lib: TextLib, s: State, before: seq<Action>, after: seq<Action>, i: JobId, act: Action)
    requires Inv(s) && AdmissibleRun(lib, s, before) && i < |s.jobs| && s.jobs[i].leaseToken.Some?
    requires AdmissibleRun(lib, Run(lib, s, before), after)
    requires i < |Run(lib, s, before).jobs|
    requires Run(lib, s, before).jobs[i].leaseToken != s.jobs[i].leaseToken
    requires HolderAction(act) && act.lease == s.jobs[i].leaseToken
    ensures var end := Run(lib, Run(lib, s, before), after);
      HolderStep(end, act).Err? && Admissible(end, act) && After(lib, end, act) == end
  {
    var token := s.jobs[i].leaseToken.value;
    var mid := Run(lib, s, before);
    RunKeepsInv(lib, s, before);
    RunKeepsMinted(lib, s, before);
    CurrentTokenHasOneHolder(s, i);
    TokenStaysWithItsJob(lib, s, before, token, i);
    assert NobodyHolds(mid, token);
    DeadTokenStaysDead(lib, mid, after, token);
    DeadTokenIsRefused(lib, Run(lib, mid, after), act);
  }
}
