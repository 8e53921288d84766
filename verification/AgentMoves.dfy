/** What moves a job, an agent or the tables, and when: every cause stated over
    what was asked and what the rows said before. */
module AgentMoves {
  import opened Wrappers
  import opened TargetPolicy
  import opened AgentJobs
  import opened AgentJobsSafety
  import ScanResult

  // -------------------------------------------------------------- causes --

  /** The write comes from the agent that holds job i, under its current token. */
  predicate ByHolder(s: State, act: Action, i: JobId)
    requires i < |s.jobs|
  {
    && HolderAction(act) && act.job == i && act.agent < |s.agents|
    && s.jobs[i].state.Held() && s.jobs[i].agentId == Some(act.agent)
    && act.lease.Some? && act.lease == s.jobs[i].leaseToken
  }

  predicate TakenIn(s: State, act: Action, i: JobId)
    requires i < |s.jobs|
  {
    act.Submit? && ByHolder(s, act, i) && !act.submission.oversized && act.submission.scannerKnown
  }

  predicate GivenUp(s: State, act: Action, i: JobId)
    requires i < |s.jobs|
  {
    act.ReportFailure? && ByHolder(s, act, i)
  }

  predicate HasAttempts(j: Job) {
    j.attempts < j.maxAttempts
  }

  predicate OverdueAt(j: Job, now: int) {
    j.state in {Leased, Running} && j.leaseExpiresAt.Some? && now > j.leaseExpiresAt.value
  }

  predicate Succeeds(s: State, act: Action, i: JobId)
    requires i < |s.jobs|
  {
    TakenIn(s, act, i) && ScanResult.CleanScan(act.submission)
  }

  predicate Fails(s: State, act: Action, i: JobId)
    requires i < |s.jobs|
  {
    || (TakenIn(s, act, i) && !ScanResult.CleanScan(act.submission))
    || (GivenUp(s, act, i) && !(act.requeue && HasAttempts(s.jobs[i])))
  }

  predicate Requeues(s: State, act: Action, i: JobId)
    requires i < |s.jobs|
  {
    && HasAttempts(s.jobs[i])
    && ((GivenUp(s, act, i) && act.requeue) || (act.ReapExpired? && OverdueAt(s.jobs[i], act.now)))
  }

  predicate Expires(s: State, act: Action, i: JobId)
    requires i < |s.jobs|
  {
    act.ReapExpired? && OverdueAt(s.jobs[i], act.now) && !HasAttempts(s.jobs[i])
  }

  predicate Cancels(s: State, act: Action, i: JobId)
    requires i < |s.jobs|
  {
    act.CancelJob? && act.job == i && s.jobs[i].state in {Queued, Leased, Running}
  }

  predicate Streams(s: State, act: Action, i: JobId)
    requires i < |s.jobs|
  {
    act.Stream? && ByHolder(s, act, i) && |act.specs| <= 200
  }

  predicate Extends(s: State, act: Action, i: JobId)
    requires i < |s.jobs|
  {
    act.Extend? && ByHolder(s, act, i)
  }

  /** The claimant is on, below its cap and the first candidate row it may run is i. */
  ghost predicate Leases(lib: TextLib, s: State, act: Action, i: JobId)
    requires Admissible(s, act) && i < |s.jobs|
  {
    && act.Claim? && act.agent < |s.agents| && s.scanning && s.agents[act.agent].status != Disabled
    && ActiveCount(s.jobs, act.agent) < s.agents[act.agent].maxConcurrency
    && exists k :: 0 <= k < |act.candidates| && FirstIs(lib, s, act, i, k)
  }

  ghost predicate FirstIs(lib: TextLib, s: State, act: Action, i: JobId, k: nat)
    requires act.Claim? && Admissible(s, act) && i < |s.jobs| && act.agent < |s.agents| && k < |act.candidates|
  {
    && act.candidates[k] == i && MayRun(lib, s, s.agents[act.agent], s.jobs[i])
    && forall l :: 0 <= l < k ==> !MayRun(lib, s, s.agents[act.agent], s.jobs[act.candidates[l]])
  }

  // ---------------------------------------------------------------- jobs --

  /** How far a row may have come, field by field, whatever the step was. */
  ghost predicate MovedTo(j: Job, k: Job, state: JobState, agentId: Option<AgentId>, expires: Option<int>,
                          logged: nat)
  {
    k.state == state && k.agentId == agentId && k.leaseExpiresAt == expires && |k.events| == |j.events| + logged
  }

  lemma {:induction false} HolderMoves(s: State, act: Action, i: JobId)
    requires Inv(s) && HolderAction(act) && act.agent < |s.agents| && act.job == i < |s.jobs|
    ensures ByHolder(s, act, i) <==> VerifyLease(s.jobs[i], act.agent, act.lease)
  {
    assert JobOk(s.jobs[i]);
  }

  lemma {:induction false} SubmitMoves(lib: TextLib, s: State, act: Action, i: JobId)
    requires Inv(s) && act.Submit? && i < |s.jobs|
    ensures var j, k := s.jobs[i], After(lib, s, act).jobs[i];
      var settled := if ScanResult.CleanScan(act.submission) then Succeeded else Failed;
      if TakenIn(s, act, i) then MovedTo(j, k, settled, j.agentId, j.leaseExpiresAt, 1) else k == j
  {
    if act.job == i && act.agent < |s.agents| {
      HolderMoves(s, act, i);
      if !act.submission.oversized && act.submission.scannerKnown { ScanResult.TakenAs(act.submission); }
    }
  }

  lemma {:induction false} ReportMoves(lib: TextLib, s: State, act: Action, i: JobId)
    requires Inv(s) && act.ReportFailure? && i < |s.jobs|
    ensures var j, k := s.jobs[i], After(lib, s, act).jobs[i];
      if !GivenUp(s, act, i) then k == j
      else if act.requeue && HasAttempts(j) then MovedTo(j, k, Queued, j.requestedAgentId, None, 1)
      else MovedTo(j, k, Failed, j.agentId, j.leaseExpiresAt, 1)
  {
    if act.job == i && act.agent < |s.agents| { HolderMoves(s, act, i); }
  }

  lemma {:induction false} StreamMoves(lib: TextLib, s: State, act: Action, i: JobId)
    requires Inv(s) && act.Stream? && i < |s.jobs|
    ensures var j, k := s.jobs[i], After(lib, s, act).jobs[i];
      if Streams(s, act, i) then MovedTo(j, k, Running, j.agentId, j.leaseExpiresAt, |act.specs|) else k == j
  {
    if act.job == i && act.agent < |s.agents| {
      HolderMoves(s, act, i);
      assert JobOk(s.jobs[i]);
      AppendEventsKeeps(MarkRunning(s.jobs[i]), act.specs);
      EachIsLogged(MarkRunning(s.jobs[i]), act.specs, 0);
    }
  }

  lemma {:induction false} ExtendMoves(lib: TextLib, s: State, act: Action, i: JobId)
    requires Inv(s) && act.Extend? && i < |s.jobs|
    ensures var j, k := s.jobs[i], After(lib, s, act).jobs[i];
      if Extends(s, act, i)
      then MovedTo(j, k, j.state, j.agentId, Some(act.now + s.agents[act.agent].leaseSeconds), 0) else k == j
  {
    if act.job == i && act.agent < |s.agents| { HolderMoves(s, act, i); }
  }

  lemma {:induction false} LeasesIff(lib: TextLib, s: State, act: Action, i: JobId)
    requires Admissible(s, act) && act.Claim? && i < |s.jobs|
    ensures Leases(lib, s, act, i) <==> ClaimDecision(lib, s, act.agent, act.candidates) == Ok(Some(i))
  {
    if act.agent < |s.agents| {
      var k := FirstRunnable(lib, s, s.agents[act.agent], act.candidates);
      if k.Some? && act.candidates[k.value] == i { assert FirstIs(lib, s, act, i, k.value); }
    }
  }

  lemma {:induction false} ClaimMoves(lib: TextLib, s: State, act: Action, i: JobId)
    requires Inv(s) && Admissible(s, act) && act.Claim? && i < |s.jobs|
    ensures var j, k := s.jobs[i], After(lib, s, act).jobs[i];
      if Leases(lib, s, act, i)
      then MovedTo(j, k, Leased, Some(act.agent), Some(act.now + s.agents[act.agent].leaseSeconds), 1) else k == j
  {
    LeasesIff(lib, s, act, i);
    if ClaimDecision(lib, s, act.agent, act.candidates) == Ok(Some(i)) {
      assert After(lib, s, act) == LeaseTo(s, i, act.agent, act.token, act.now);
    }
  }

  lemma {:induction false} CancelMoves(lib: TextLib, s: State, act: Action, i: JobId)
    requires act.CancelJob? && i < |s.jobs|
    ensures var j, k := s.jobs[i], After(lib, s, act).jobs[i];
      if Cancels(s, act, i) then MovedTo(j, k, Cancelled, j.agentId, j.leaseExpiresAt, 1) else k == j
  {
  }

  lemma {:induction false} ReapMoves(lib: TextLib, s: State, act: Action, i: JobId)
    requires act.ReapExpired? && i < |s.jobs|
    ensures var j, k := s.jobs[i], After(lib, s, act).jobs[i];
      if !OverdueAt(j, act.now) then k == j
      else if HasAttempts(j) then MovedTo(j, k, Queued, j.requestedAgentId, None, 1)
      else MovedTo(j, k, Expired, j.agentId, None, 1)
  {
    assert After(lib, s, act).jobs[i] == ReapRow(s.jobs[i], act.now);
  }

  lemma {:induction false} OthersMoveNothing(lib: TextLib, s: State, act: Action, i: JobId)
    requires Admissible(s, act) && i < |s.jobs| && !HolderAction(act)
    requires !act.Claim? && !act.CancelJob? && !act.ReapExpired?
    ensures After(lib, s, act).jobs[i] == s.jobs[i]
  {
  }

  ghost predicate JobMovesAsAsked(lib: TextLib, s: State, act: Action, i: JobId)
    requires Admissible(s, act) && i < |s.jobs| && i < |After(lib, s, act).jobs|
  {
    var j, k := s.jobs[i], After(lib, s, act).jobs[i];
    && k.state == (if Succeeds(s, act, i) then Succeeded else if Fails(s, act, i) then Failed
                   else if Requeues(s, act, i) then Queued else if Expires(s, act, i) then Expired
                   else if Cancels(s, act, i) then Cancelled else if Streams(s, act, i) then Running
                   else if Leases(lib, s, act, i) then Leased else j.state)
    && k.agentId == (if Leases(lib, s, act, i) then Some(act.agent)
                     else if Requeues(s, act, i) then j.requestedAgentId else j.agentId)
    && k.leaseExpiresAt == (if Leases(lib, s, act, i) || Extends(s, act, i)
                            then Some(act.now + s.agents[act.agent].leaseSeconds)
                            else if Requeues(s, act, i) || Expires(s, act, i) then None else j.leaseExpiresAt)
    && |k.events| == |j.events| + (if Streams(s, act, i) then |act.specs| else if k.state != j.state then 1 else 0)
  }

  lemma {:induction false} WritesHaveTheirCause(lib: TextLib, s: State, act: Action, i: JobId)
    requires Inv(s) && HolderAction(act) && i < |s.jobs| && i < |After(lib, s, act).jobs|
    ensures JobMovesAsAsked(lib, s, act, i)
  {
    match act
    case Submit(_, _, _, _) => SubmitMoves(lib, s, act, i);
    case ReportFailure(_, _, _, _) => ReportMoves(lib, s, act, i);
    case Stream(_, _, _, _) => StreamMoves(lib, s, act, i);
    case Extend(_, _, _, _) => ExtendMoves(lib, s, act, i);
  }

  /** What makes a job what it becomes: the state, the agent, the expiry and the
      length of the log after any step, from the cause alone. */
  lemma {:induction false} EveryMoveHasItsCause(lib: TextLib, s: State, act: Action, i: JobId)
    requires Inv(s) && Admissible(s, act) && i < |s.jobs|
    ensures i < |After(lib, s, act).jobs| && JobMovesAsAsked(lib, s, act, i)
  {
    StepEvolves(lib, s, act, i);
    if HolderAction(act) {
      WritesHaveTheirCause(lib, s, act, i);
    } else if act.Claim? {
      ClaimMoves(lib, s, act, i);
    } else if act.CancelJob? {
      CancelMoves(lib, s, act, i);
    } else if act.ReapExpired? {
      ReapMoves(lib, s, act, i);
    } else {
      OthersMoveNothing(lib, s, act, i);
    }
  }

  /** Every line an agent logs is kept: in order, numbered on, cut at 8000
      characters, under its kind if that is known and as output if not. */
  lemma {:induction false} EachIsLogged(j: Job, specs: seq<EventSpec>, n: nat)
    ensures var k := AppendEvents(j, specs);
      && |k.events| == |j.events| + |specs| && j.events <= k.events
      && k.lastEventSeq == j.lastEventSeq + |specs|
      && (n < |specs| ==>
            var e, spec := k.events[|j.events| + n], specs[n];
            && e.seqNo == j.lastEventSeq + n + 1
            && e.message <= spec.message && |e.message| == (if |spec.message| > 8000 then 8000 else |spec.message|)
            && e.kind == (match spec.kind case Some(kind) => kind case None => Stdout))
    decreases |specs|
  {
    if specs != [] {
      var last := |specs| - 1;
      EachIsLogged(j, specs[..last], if n < last then n else 0);
      OneIsLogged(AppendEvents(j, specs[..last]), specs[last]);
    }
  }

  lemma {:induction false} OneIsLogged(j: Job, spec: EventSpec)
    ensures var k := AppendEvent(j, spec);
      && |k.events| == |j.events| + 1 && j.events <= k.events && k.lastEventSeq == j.lastEventSeq + 1
      && var e := k.events[|j.events|];
         && e.seqNo == j.lastEventSeq + 1
         && e.message <= spec.message && |e.message| == (if |spec.message| > 8000 then 8000 else |spec.message|)
         && e.kind == (match spec.kind case Some(kind) => kind case None => Stdout)
  {
  }

  // -------------------------------------------------------------- agents --

  /** The agent is rid of a job: its result was taken in, or it gave up. */
  predicate Settles(s: State, act: Action, a: AgentId) {
    && (act.Submit? || act.ReportFailure?) && act.agent == a && act.job < |s.jobs|
    && (TakenIn(s, act, act.job) || GivenUp(s, act, act.job))
  }

  ghost predicate TakesOne(lib: TextLib, s: State, act: Action, a: AgentId)
    requires Admissible(s, act)
  {
    act.Claim? && act.agent == a && exists i :: 0 <= i < |s.jobs| && Leases(lib, s, act, i)
  }

  /** Every rule has some text, and what has a slash in it is a network. */
  ghost predicate Storable(lib: TextLib, policy: Policy) {
    forall r :: r in policy.allowed || r in policy.denied ==>
      lib.normalise(r) != "" && (!lib.isNetwork(r) ==> '/' !in r)
  }

  ghost predicate Edits(lib: TextLib, s: State, act: Action, a: AgentId) {
    act.Configure? && act.agent == a && Storable(lib, act.settings.policy)
  }

  ghost function StatusAfter(lib: TextLib, s: State, act: Action, a: AgentId): AgentStatus
    requires Admissible(s, act) && a < |s.agents|
  {
    var was := s.agents[a].status;
    if TakesOne(lib, s, act, a) then Busy
    else if Settles(s, act, a) && was == Busy && ActiveCount(s.jobs, a) == 1 then Idle
    else if act == Heartbeat(a) && was in {Pending, Offline} then Idle
    else if act == MarkOffline(a) && was in {Idle, Busy} then Offline
    else if Edits(lib, s, act, a) then act.settings.status
    else was
  }

  lemma {:induction false} SettledStep(s: State, act: Action)
    requires Inv(s) && (act.Submit? || act.ReportFailure?)
    ensures HolderStep(s, act).Ok? <==> Settles(s, act, act.agent)
    ensures HolderStep(s, act).Ok? ==>
              act.agent < |s.agents| && s.jobs[act.job].state.Held() && s.jobs[act.job].agentId == Some(act.agent)
  {
    if act.job < |s.jobs| && act.agent < |s.agents| { HolderMoves(s, act, act.job); }
  }

  lemma {:induction false} ReleasedWhenLast(s: State, i: JobId, j: Job, a: AgentId)
    requires i < |s.jobs| && a < |s.agents| && Holds(s.jobs[i], a) && !Holds(j, a)
    ensures ReleaseAgent(SetJob(s, i, j), a).agents ==
            if s.agents[a].status == Busy && ActiveCount(s.jobs, a) == 1
            then s.agents[a := s.agents[a].(status := Idle)] else s.agents
  {
    CountUpdate(s.jobs, i, j, a);
  }

  lemma {:induction false} SettlingFrees(lib: TextLib, s: State, act: Action, a: AgentId)
    requires Inv(s) && (act.Submit? || act.ReportFailure?) && a < |s.agents|
    ensures var t := After(lib, s, act);
      && |t.agents| == |s.agents|
      && t.agents[a] == s.agents[a].(status :=
           if Settles(s, act, a) && s.agents[a].status == Busy && ActiveCount(s.jobs, a) == 1 then Idle
           else s.agents[a].status)
  {
    SettledStep(s, act);
    if HolderStep(s, act).Ok? {
      var j := s.jobs[act.job];
      ReleasedWhenLast(s, act.job, if act.Submit? then Finish(j, ScanResult.IntakeOf(act.submission).succeeded)
                                   else Fail(j, act.requeue), act.agent);
    }
  }

  lemma {:induction false} ClaimingBusies(lib: TextLib, s: State, act: Action, a: AgentId)
    requires Inv(s) && Admissible(s, act) && act.Claim? && a < |s.agents|
    ensures var t := After(lib, s, act);
      && |t.agents| == |s.agents|
      && t.agents[a] == s.agents[a].(status := if TakesOne(lib, s, act, a) then Busy else s.agents[a].status)
  {
    if act.agent < |s.agents| {
      var k := FirstRunnable(lib, s, s.agents[act.agent], act.candidates);
      if k.Some? {
        assert FirstIs(lib, s, act, act.candidates[k.value], k.value);
        assert Leases(lib, s, act, act.candidates[k.value])
          <==> ClaimedRow(lib, s, act.agent, act.candidates).Some? && s.scanning
               && s.agents[act.agent].status != Disabled;
      }
    }
  }

  lemma {:induction false} KeptIsNormal(lib: TextLib, policy: Policy, i: nat)
    ensures var kept := Kept(lib, policy);
      && |kept.allowed| == |policy.allowed| && |kept.denied| == |policy.denied|
      && kept.requireAssetMatch == policy.requireAssetMatch
      && (i < |policy.allowed| ==> kept.allowed[i] == lib.normalise(policy.allowed[i]))
      && (i < |policy.denied| ==> kept.denied[i] == lib.normalise(policy.denied[i]))
    ensures WellFormed(lib, policy) <==> Storable(lib, policy)
  {
  }

  lemma {:induction false} EditingSets(lib: TextLib, s: State, act: Action, a: AgentId)
    requires (act.Configure? || act.SetTools?) && a < |s.agents|
    ensures var t := After(lib, s, act);
      && |t.agents| == |s.agents|
      && t.agents[a].status == (if Edits(lib, s, act, a) then act.settings.status else s.agents[a].status)
      && t.agents[a].maxConcurrency ==
         (if Edits(lib, s, act, a) then act.settings.maxConcurrency else s.agents[a].maxConcurrency)
      && t.agents[a].leaseSeconds ==
         (if Edits(lib, s, act, a) then act.settings.leaseSeconds else s.agents[a].leaseSeconds)
      && t.agents[a].policy ==
         (if Edits(lib, s, act, a) then Kept(lib, act.settings.policy) else s.agents[a].policy)
      && t.agents[a].tools == (if act.SetTools? && act.agent == a then act.tools else s.agents[a].tools)
  {
    if act.Configure? { KeptIsNormal(lib, act.settings.policy, 0); }
  }

  lemma {:induction false} OthersLeaveAgents(lib: TextLib, s: State, act: Action, a: AgentId)
    requires Admissible(s, act) && a < |s.agents|
    requires !act.Submit? && !act.ReportFailure? && !act.Claim? && !act.Configure? && !act.SetTools?
    ensures var t := After(lib, s, act);
      && |s.agents| <= |t.agents|
      && t.agents[a] == s.agents[a].(status := StatusAfter(lib, s, act, a))
  {
  }

  /** What makes an agent busy, idle, offline or whatever an operator says, and
      what changes its rules, limits and tools: nothing else does. */
  lemma {:induction false} AgentsChangeAsAsked(lib: TextLib, s: State, act: Action, a: AgentId)
    requires Inv(s) && Admissible(s, act) && a < |s.agents|
    ensures var t := After(lib, s, act);
      && a < |t.agents| && t.agents[a].status == StatusAfter(lib, s, act, a)
      && (!Edits(lib, s, act, a) ==>
            t.agents[a].policy == s.agents[a].policy && t.agents[a].leaseSeconds == s.agents[a].leaseSeconds
            && t.agents[a].maxConcurrency == s.agents[a].maxConcurrency)
      && (!(act.SetTools? && act.agent == a) ==> t.agents[a].tools == s.agents[a].tools)
  {
    if act.Submit? || act.ReportFailure? {
      SettlingFrees(lib, s, act, a);
    } else if act.Claim? {
      ClaimingBusies(lib, s, act, a);
    } else if act.Configure? || act.SetTools? {
      EditingSets(lib, s, act, a);
    } else {
      OthersLeaveAgents(lib, s, act, a);
    }
  }

  // ------------------------------------------------------- rows and tables --

  /** Somebody can run it: the agent it is pinned to, or anyone. */
  predicate Runnable(lib: TextLib, s: State, pinned: Option<AgentId>, tool: string, profile: string) {
    if pinned.None? then
      exists a :: 0 <= a < |s.agents| && tool in s.agents[a].tools && s.agents[a].tools[tool].enabled
    else
      && pinned.value < |s.agents| && s.agents[pinned.value].status != Disabled
      && tool in s.agents[pinned.value].tools
      && var t := s.agents[pinned.value].tools[tool];
         t.enabled && (profile != "" && t.profiles != [] ==> lib.normalise(profile) in t.profiles)
  }

  /** The target is in the pinned agent's bounds; one for anyone needs a host that
      is not in a reserved range. */
  ghost predicate InBounds(lib: TextLib, s: State, pinned: Option<AgentId>, target: string)
    requires pinned.Some? ==> pinned.value < |s.agents|
  {
    && lib.hostOf(target).Some?
    && var host := lib.hostOf(target).value;
       if pinned.Some? then Permitted(lib, s.agents[pinned.value].policy, s.assets, host)
       else lib.asIp(host).Some? ==> !lib.isReserved(lib.asIp(host).value)
  }

  lemma {:induction false} NotRefused(engagement: Option<Engagement>)
    ensures engagement in {None, Some(Open)} <==> engagement !in {Some(Missing), Some(Closed)}
  {
    if engagement.Some? {
      match engagement.value
      case Missing => assert engagement == Some(Missing);
      case Closed => assert engagement == Some(Closed);
      case Open => assert engagement == Some(Open);
    }
  }

  lemma {:induction false} RunnableIff(lib: TextLib, s: State, pinned: Option<AgentId>, tool: string, profile: string)
    ensures Runnable(lib, s, pinned, tool, profile) <==>
            (pinned.Some? ==> pinned.value < |s.agents|) && AgentRefusal(lib, s, pinned, tool, profile).None?
  {
    if pinned.None? {
      forall a | 0 <= a < |s.agents|
        ensures ToolEnabled(s.agents[a], tool) <==> tool in s.agents[a].tools && s.agents[a].tools[tool].enabled {}
    }
  }

  lemma {:induction false} InBoundsIff(lib: TextLib, s: State, pinned: Option<AgentId>, target: string)
    requires Lawful(lib) && (pinned.Some? ==> pinned.value < |s.agents|)
    ensures var policy := if pinned.Some? then Some(s.agents[pinned.value].policy) else None;
      InBounds(lib, s, pinned, target) <==> AuthoriseTarget(lib, policy, s.assets, target).Granted?
  {
    if pinned.Some? { AuthorisedIff(lib, s.agents[pinned.value].policy, s.assets, target); }
  }

  /** A job is queued exactly when scanning is on, it names a tool and a reason,
      somebody can run it, the target is in bounds and its engagement, if it
      names one, is open. It then waits at the end of the table, unattempted,
      for its agent if it is pinned. */
  lemma {:induction false} QueuedIff(lib: TextLib, s: State, act: Action)
    requires act.Queue? && Lawful(lib)
    ensures var t, tool := After(lib, s, act), lib.normalise(act.tool);
      var queued := && s.scanning && tool != "" && lib.normalise(act.request.reason) != ""
                    && Runnable(lib, s, act.pinned, tool, act.request.profile)
                    && InBounds(lib, s, act.pinned, act.target)
                    && act.request.engagement in {None, Some(Open)};
      && |t.jobs| == |s.jobs| + (if queued then 1 else 0) && s.jobs <= t.jobs
      && t == s.(jobs := t.jobs)
      && (queued ==>
            var j := t.jobs[|s.jobs|];
            && j.tool == tool && j.target == act.target && j.priority == act.priority && j.createdAt == act.now
            && j.state == Queued && j.requestedAgentId == act.pinned == j.agentId
            && j.attempts == 0 && j.maxAttempts >= 1 && (act.maxAttempts >= 1 ==> j.maxAttempts == act.maxAttempts)
            && j.leaseToken.None? && j.leaseExpiresAt.None? && j.events == [])
  {
    var t := After(lib, s, act);
    var tool := lib.normalise(act.tool);
    NotRefused(act.request.engagement);
    RunnableIff(lib, s, act.pinned, tool, act.request.profile);
    if act.pinned.Some? ==> act.pinned.value < |s.agents| {
      InBoundsIff(lib, s, act.pinned, act.target);
    }
  }

  /** An agent joins exactly when scanning is on, it has a name and its rules can be
      stored; it joins last, waiting for its first check-in, with no tools. */
  lemma {:induction false} JoinedIff(lib: TextLib, s: State, act: Action)
    requires act.Enrol?
    ensures var t := After(lib, s, act);
      var joined := s.scanning && lib.normalise(act.name) != "" && Storable(lib, act.policy);
      && |t.agents| == |s.agents| + (if joined then 1 else 0) && s.agents <= t.agents
      && t == s.(agents := t.agents)
      && (joined ==>
            var a := t.agents[|s.agents|];
            && a.status == Pending && a.tools == map[] && a.policy == Kept(lib, act.policy)
            && a.maxConcurrency >= 1 && (act.maxConcurrency >= 1 ==> a.maxConcurrency == act.maxConcurrency)
            && a.leaseSeconds >= 60 && (act.leaseSeconds >= 60 ==> a.leaseSeconds == act.leaseSeconds)
            && (act.maxConcurrency < 1 ==> a.maxConcurrency == 1)
            && (act.leaseSeconds < 60 ==> a.leaseSeconds == 60))
  {
    KeptIsNormal(lib, act.policy, 0);
  }
}
