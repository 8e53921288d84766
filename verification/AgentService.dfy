/** The agent service over mutable rows: each call updates the job and agent
    objects in place, and its effect is the protocol step of AgentJobs. */
module AgentService {
  import opened Arithmetic
  import opened Wrappers
  import opened TargetPolicy
  import AgentJobs
  import AgentJobsSafety
  import ScanResult

  type JobState = AgentJobs.JobState
  type EventSpec = AgentJobs.EventSpec

  class AgentJob {
    const tool: string
    const target: string
    const priority: int
    const createdAt: int
    const requestedAgentId: Option<nat>
    const maxAttempts: nat
    var agentId: Option<nat>
    var state: JobState
    var leaseToken: Option<string>
    var leaseExpiresAt: Option<int>
    var attempts: nat
    var lastEventSeq: nat
    var events: seq<AgentJobs.Event>

    ghost function Row(): AgentJobs.Job
      reads this
    {
      AgentJobs.Job(tool, target, priority, createdAt, requestedAgentId, agentId, state, leaseToken,
                    leaseExpiresAt, attempts, maxAttempts, lastEventSeq, events)
    }

    constructor (tool: string, target: string, pinned: Option<nat>, priority: int, maxAttempts: int, now: int)
      ensures Row() == AgentJobs.Job(tool, target, priority, now, pinned, pinned, AgentJobs.Queued, None, None, 0,
                                     Max(1, maxAttempts), 0, [])
    {
      this.tool, this.target, this.priority, this.createdAt := tool, target, priority, now;
      this.requestedAgentId, this.agentId := pinned, pinned;
      this.maxAttempts := Max(1, maxAttempts);
      state, leaseToken, leaseExpiresAt := AgentJobs.Queued, None, None;
      attempts, lastEventSeq, events := 0, 0, [];
    }

    method AppendEvent(spec: EventSpec)
      modifies this
      ensures Row() == AgentJobs.AppendEvent(old(Row()), spec)
    {
      lastEventSeq := lastEventSeq + 1;
      var kind := if spec.kind.Some? then spec.kind.value else AgentJobs.Stdout;
      events := events + [AgentJobs.Event(lastEventSeq, kind, AgentJobs.Clip(spec.message))];
    }

    method Note(message: string)
      modifies this
      ensures Row() == AgentJobs.Note(old(Row()), message)
    {
      AppendEvent(AgentJobs.EventSpec(Some(AgentJobs.Status), message));
    }

    method AppendEvents(specs: seq<EventSpec>)
      modifies this
      ensures Row() == AgentJobs.AppendEvents(AgentJobs.MarkRunning(old(Row())), specs)
    {
      MarkRunning();
      assert specs[..|specs|] == specs;
      for n := 0 to |specs|
        invariant Row() == AgentJobs.AppendEvents(AgentJobs.MarkRunning(old(Row())), specs[..n])
      {
        AppendEvent(specs[n]);
        assert specs[..n + 1][..n] == specs[..n];
      }
    }

    method MarkRunning()
      modifies this
      ensures Row() == AgentJobs.MarkRunning(old(Row()))
    {
      if state == AgentJobs.Leased {
        state := AgentJobs.Running;
      }
    }

    method Lease(a: nat, token: string, expires: int)
      modifies this
      ensures Row() == AgentJobs.Lease(old(Row()), a, token, expires)
    {
      agentId := Some(a);
      state := AgentJobs.Leased;
      leaseToken := Some(token);
      leaseExpiresAt := Some(expires);
      attempts := attempts + 1;
      Note("leased");
    }

    method Extend(expires: int)
      modifies this
      ensures Row() == old(Row()).(leaseExpiresAt := Some(expires))
    {
      leaseExpiresAt := Some(expires);
    }

    method Finish(succeeded: bool)
      modifies this
      ensures Row() == AgentJobs.Finish(old(Row()), succeeded)
    {
      state := if succeeded then AgentJobs.Succeeded else AgentJobs.Failed;
      leaseToken := None;
      Note("result submitted");
    }

    method Fail(requeue: bool)
      modifies this
      ensures Row() == AgentJobs.Fail(old(Row()), requeue)
    {
      leaseToken := None;
      if requeue && attempts < maxAttempts {
        state := AgentJobs.Queued;
        agentId := requestedAgentId;
        leaseExpiresAt := None;
      } else {
        state := AgentJobs.Failed;
      }
      Note("failed");
    }

    method Cancel()
      modifies this
      ensures Row() == AgentJobs.Cancel(old(Row()))
    {
      state := AgentJobs.Cancelled;
      leaseToken := None;
      Note("cancelled");
    }

    method Reap()
      modifies this
      ensures Row() == AgentJobs.Reap(old(Row()))
    {
      leaseToken := None;
      leaseExpiresAt := None;
      if attempts < maxAttempts {
        state := AgentJobs.Queued;
        agentId := requestedAgentId;
        Note("lease expired; requeued");
      } else {
        state := AgentJobs.Expired;
        Note("lease expired; no attempts left");
      }
    }

    method ReapIfOverdue(now: int) returns (requeued: nat, expired: nat)
      modifies this
      ensures Row() == AgentJobs.ReapRow(old(Row()), now)
      ensures (requeued, expired) == AgentJobs.ReapTallyOf(old(Row()), now)
    {
      requeued, expired := 0, 0;
      if state.Held() && leaseExpiresAt.Some? && leaseExpiresAt.value < now {
        Reap();
        if state.Queued? { requeued := 1; } else { expired := 1; }
      }
    }

    method Verify(a: nat, token: Option<string>) returns (ok: bool)
      ensures ok == AgentJobs.VerifyLease(Row(), a, token)
    {
      if agentId != Some(a) { return false; }
      if state.Terminal() { return false; }
      if leaseToken.None? || leaseToken.value == "" || token.None? || token.value == "" { return false; }
      return leaseToken == token;
    }
  }

  class ExecAgent {
    var status: AgentJobs.AgentStatus
    var policy: Policy
    var tools: map<string, AgentJobs.Tool>
    var maxConcurrency: nat
    var leaseSeconds: nat

    function Value(): AgentJobs.Agent
      reads this
    {
      AgentJobs.Agent(status, policy, tools, maxConcurrency, leaseSeconds)
    }

    constructor (lib: TextLib, policy: Policy, maxConcurrency: int, leaseSeconds: int)
      ensures Value() == AgentJobs.NewAgent(lib, policy, maxConcurrency, leaseSeconds)
    {
      this.status, this.policy, this.tools := AgentJobs.Pending, Kept(lib, policy), map[];
      this.maxConcurrency := Max(1, maxConcurrency);
      this.leaseSeconds := Max(60, leaseSeconds);
    }

    method Set(lib: TextLib, settings: AgentJobs.Settings)
      modifies this
      ensures Value() == AgentJobs.Edited(lib, old(Value()), settings)
    {
      status, policy := settings.status, Kept(lib, settings.policy);
      maxConcurrency, leaseSeconds := settings.maxConcurrency, settings.leaseSeconds;
    }

    method SetTools(tools: map<string, AgentJobs.Tool>)
      modifies this
      ensures Value() == old(Value()).(tools := tools)
    {
      this.tools := tools;
    }

    method SetStatus(s: AgentJobs.AgentStatus)
      modifies this
      ensures Value() == old(Value()).(status := s)
    {
      status := s;
    }
  }

  /** The reaper's loop over the rows of the job table, which held `before`. */
  method ReapRows(rows: seq<AgentJob>, ghost before: seq<AgentJobs.Job>, now: int)
    returns (requeued: nat, expired: nat)
    requires forall i, k :: 0 <= i < k < |rows| ==> rows[i] != rows[k]
    requires |before| == |rows| && forall i :: 0 <= i < |rows| ==> before[i] == rows[i].Row()
    modifies rows
    ensures forall i :: 0 <= i < |rows| ==> rows[i].Row() == AgentJobs.ReapRow(before[i], now)
    ensures (requeued, expired) == AgentJobs.ReapTally(before, |before|, now)
  {
    requeued, expired := 0, 0;
    ghost var held := before;
    for i := 0 to |rows|
      invariant |held| == |rows|
      invariant forall k :: 0 <= k < |rows| ==> rows[k].Row() == held[k]
      invariant forall k :: 0 <= k < i ==> held[k] == AgentJobs.ReapRow(before[k], now)
      invariant forall k :: i <= k < |rows| ==> held[k] == before[k]
      invariant requeued == AgentJobs.ReapTally(before, i, now).0
      invariant expired == AgentJobs.ReapTally(before, i, now).1
    {
      var r, e := rows[i].ReapIfOverdue(now);
      requeued, expired := requeued + r, expired + e;
      held := held[i := rows[i].Row()];
      TallyOfOneMore(before, i, now, r, e);
    }
  }

  lemma {:induction false} TallyOfOneMore(before: seq<AgentJobs.Job>, i: nat, now: int, requeued: nat, expired: nat)
    requires i < |before| && (requeued, expired) == AgentJobs.ReapTallyOf(before[i], now)
    ensures AgentJobs.ReapTally(before, i + 1, now).0 == AgentJobs.ReapTally(before, i, now).0 + requeued
    ensures AgentJobs.ReapTally(before, i + 1, now).1 == AgentJobs.ReapTally(before, i, now).1 + expired
  {
  }

  // What a call does to the tables is a step of the protocol, and steps keep them safe.

  lemma {:induction false} StillSafe(lib: TextLib, s: AgentJobs.State, act: AgentJobs.Action, t: AgentJobs.State)
    requires AgentJobs.Admissible(s, act) && t == AgentJobs.After(lib, s, act)
    requires !AgentJobsSafety.Undercuts(lib, s, act)
    ensures AgentJobsSafety.KeepsSafe(s, t)
  {
    if AgentJobsSafety.Inv(s) {
      AgentJobsSafety.StepKeepsInv(lib, s, act);
      if AgentJobsSafety.WithinCaps(s) { AgentJobsSafety.CapacityKeptIff(lib, s, act); }
    }
  }

  lemma {:induction false} ClaimIsSafe(lib: TextLib, s: AgentJobs.State, act: AgentJobs.Action, t: AgentJobs.State)
    requires act.Claim? && forall k :: 0 <= k < |act.candidates| ==> act.candidates[k] < |s.jobs|
    requires var step := AgentJobs.ClaimStep(lib, s, act.agent, act.candidates, act.token, act.now);
      t == if step.Ok? then step.value else s
    ensures AgentJobs.Admissible(s, act) ==> AgentJobsSafety.KeepsSafe(s, t)
  {
    if AgentJobs.Admissible(s, act) { StillSafe(lib, s, act, t); }
  }

  lemma {:induction false} HolderIsSafe(s: AgentJobs.State, act: AgentJobs.Action)
    requires act.Stream? || act.Extend? || act.Submit? || act.ReportFailure?
    ensures AgentJobsSafety.KeepsSafe(s, if AgentJobs.Guard(s, act).None? then AgentJobs.HolderWrite(s, act) else s)
  {
    var t := if AgentJobs.Guard(s, act).None? then AgentJobs.HolderWrite(s, act) else s;
    StillSafe(AgentJobsSafety.AnyLib(), s, act, t);
  }

  lemma {:induction false} CancelIsSafe(s: AgentJobs.State, i: nat)
    ensures var step := AgentJobs.CancelStep(s, i);
      AgentJobsSafety.KeepsSafe(s, if step.Ok? then step.value else s)
  {
    var step := AgentJobs.CancelStep(s, i);
    StillSafe(AgentJobsSafety.AnyLib(), s, AgentJobs.Action.CancelJob(i), if step.Ok? then step.value else s);
  }

  lemma {:induction false} EditKeepsInv(lib: TextLib, s: AgentJobs.State, a: nat, settings: AgentJobs.Settings,
                                        t: AgentJobs.State)
    requires AgentJobs.ConfigureStep(lib, s, a, settings) == Ok(t)
    ensures AgentJobsSafety.Inv(s) ==> AgentJobsSafety.Inv(t)
    ensures AgentJobsSafety.Inv(s) && AgentJobsSafety.WithinCaps(s) ==>
              (AgentJobsSafety.WithinCaps(t) <==> AgentJobs.ActiveCount(s.jobs, a) <= settings.maxConcurrency)
  {
    var act := AgentJobs.Configure(a, settings);
    if AgentJobsSafety.Inv(s) {
      AgentJobsSafety.StepKeepsInv(lib, s, act);
      if AgentJobsSafety.WithinCaps(s) { AgentJobsSafety.CapacityKeptIff(lib, s, act); }
    }
  }

  /** The rules one by one, until one is not fit to be stored. */
  method CheckRules(lib: TextLib, policy: Policy) returns (ok: bool)
    ensures ok == WellFormed(lib, policy)
  {
    var rules := policy.allowed + policy.denied;
    for i := 0 to |rules|
      invariant forall k :: 0 <= k < i ==>
                  lib.normalise(rules[k]) != "" && ('/' in rules[k] ==> lib.isNetwork(rules[k]))
    {
      if lib.normalise(rules[i]) == "" || ('/' in rules[i] && !lib.isNetwork(rules[i])) {
        assert rules[i] in rules;
        return false;
      }
    }
    return true;
  }

  /** The tables of one tenant. `model` is the protocol state they hold. */
  class Service {
    var jobs: seq<AgentJob>
    var agents: seq<ExecAgent>
    var scanning: bool
    var assets: set<string>
    ghost var model: AgentJobs.State

    ghost predicate Valid()
      reads this, jobs, agents
    {
      && (forall i, k :: 0 <= i < k < |jobs| ==> jobs[i] != jobs[k])
      && (forall i, k :: 0 <= i < k < |agents| ==> agents[i] != agents[k])
      && |model.jobs| == |jobs| && |model.agents| == |agents|
      && (forall i :: 0 <= i < |jobs| ==> model.jobs[i] == jobs[i].Row())
      && (forall a :: 0 <= a < |agents| ==> model.agents[a] == agents[a].Value())
      && model.scanning == scanning && model.assets == assets
    }

    constructor ()
      ensures Valid() && model == AgentJobsSafety.EMPTY
    {
      jobs, agents, scanning, assets := [], [], true, {};
      model := AgentJobsSafety.EMPTY;
    }

    method Enrol(lib: TextLib, name: string, policy: Policy, maxConcurrency: int, leaseSeconds: int)
      returns (refusal: Option<AgentJobs.Refusal>)
      requires Valid()
      modifies this`agents, this`model
      ensures Valid()
      ensures var step := AgentJobs.EnrolStep(lib, old(model),
                            AgentJobs.Enrol(name, policy, maxConcurrency, leaseSeconds));
        if step.Ok? then refusal == None && model == step.value
        else refusal == Some(step.error) && model == old(model)
      ensures AgentJobsSafety.KeepsSafe(old(model), model)
    {
      if !scanning { return Some(AgentJobs.ScanningOff); }
      if lib.normalise(name) == "" { return Some(AgentJobs.BadRequest); }
      var wellFormed := CheckRules(lib, policy);
      if !wellFormed { return Some(AgentJobs.BadRequest); }
      var agent := new ExecAgent(lib, policy, maxConcurrency, leaseSeconds);
      agents := agents + [agent];
      model := model.(agents := model.agents + [agent.Value()]);
      StillSafe(lib, old(model), AgentJobs.Enrol(name, policy, maxConcurrency, leaseSeconds), model);
      refusal := None;
    }

    /** Sets what an operator may set; the cap may end up below the jobs in hand. */
    method Configure(lib: TextLib, a: nat, settings: AgentJobs.Settings) returns (refusal: Option<AgentJobs.Refusal>)
      requires Valid()
      modifies this`model, agents
      ensures Valid()
      ensures var step := AgentJobs.ConfigureStep(lib, old(model), a, settings);
        if step.Ok? then refusal == None && model == step.value
        else refusal == Some(step.error) && model == old(model)
      ensures AgentJobsSafety.Inv(old(model)) ==> AgentJobsSafety.Inv(model)
      ensures AgentJobsSafety.Inv(old(model)) && AgentJobsSafety.WithinCaps(old(model)) ==>
                (AgentJobsSafety.WithinCaps(model) <==>
                 refusal.Some? || AgentJobs.ActiveCount(old(model).jobs, a) <= settings.maxConcurrency)
    {
      if a >= |agents| { return Some(AgentJobs.NotFound); }
      var wellFormed := CheckRules(lib, settings.policy);
      if !wellFormed { return Some(AgentJobs.BadRequest); }
      agents[a].Set(lib, settings);
      model := model.(agents := model.agents[a := AgentJobs.Edited(lib, model.agents[a], settings)]);
      EditKeepsInv(lib, old(model), a, settings, model);
      refusal := None;
    }

    /** What an agent declares and an operator switches on. */
    method SetTools(a: nat, tools: map<string, AgentJobs.Tool>) returns (refusal: Option<AgentJobs.Refusal>)
      requires Valid()
      modifies this`model, agents
      ensures Valid()
      ensures refusal == if a < |old(model).agents| then None else Some(AgentJobs.NotFound)
      ensures model == if refusal.Some? then old(model)
                       else old(model).(agents := old(model).agents[a := old(model).agents[a].(tools := tools)])
      ensures AgentJobsSafety.KeepsSafe(old(model), model)
    {
      if a >= |agents| { return Some(AgentJobs.NotFound); }
      agents[a].SetTools(tools);
      model := model.(agents := model.agents[a := model.agents[a].(tools := tools)]);
      StillSafe(AgentJobsSafety.AnyLib(), old(model), AgentJobs.SetTools(a, tools), model);
      refusal := None;
    }

    method Heartbeat(a: nat) returns (refusal: Option<AgentJobs.Refusal>)
      requires Valid()
      modifies this`model, agents
      ensures Valid()
      ensures refusal == if a < |old(model).agents| then None else Some(AgentJobs.NotFound)
      ensures refusal.None? ==>
                var was := old(model).agents[a].status;
                model == if was.Pending? || was.Offline? then AgentJobs.SetStatus(old(model), a, AgentJobs.Idle)
                         else old(model)
      ensures refusal.Some? ==> model == old(model)
      ensures AgentJobsSafety.KeepsSafe(old(model), model)
    {
      if a >= |agents| { return Some(AgentJobs.NotFound); }
      refusal := None;
      if agents[a].status.Pending? || agents[a].status.Offline? {
        agents[a].SetStatus(AgentJobs.Idle);
        model := AgentJobs.SetStatus(model, a, AgentJobs.Idle);
        StillSafe(AgentJobsSafety.AnyLib(), old(model), AgentJobs.Heartbeat(a), model);
      }
    }

    /** Everything queue_job checks before it creates the row. */
    method MayQueue(lib: TextLib, ghost act: AgentJobs.Action, tool: string, target: string, pinned: Option<nat>,
                    request: AgentJobs.Request) returns (refusal: Option<AgentJobs.Refusal>)
      requires Valid() && act.Queue?
      requires act.tool == tool && act.target == target && act.pinned == pinned && act.request == request
      ensures var step := AgentJobs.QueueStep(lib, model, act);
        refusal == if step.Ok? then None else Some(step.error)
    {
      if pinned.Some? && pinned.value >= |agents| { return Some(AgentJobs.NotFound); }
      var name := lib.normalise(tool);
      if !scanning { return Some(AgentJobs.ScanningOff); }
      if name == "" { return Some(AgentJobs.ToolRefused); }
      if lib.normalise(request.reason) == "" { return Some(AgentJobs.BadRequest); }
      refusal := AskAgents(lib, pinned, name, request.profile);
      if refusal.Some? { return; }
      var policy := None;
      if pinned.Some? { policy := Some(agents[pinned.value].policy); }
      if AuthoriseTarget(lib, policy, assets, target).Refused? { return Some(AgentJobs.TargetRefused); }
      if request.engagement.Some? && !request.engagement.value.Open? { return Some(AgentJobs.BadRequest); }
      return None;
    }

    method AskAgents(lib: TextLib, pinned: Option<nat>, tool: string, profile: string)
      returns (refusal: Option<AgentJobs.Refusal>)
      requires Valid() && (pinned.Some? ==> pinned.value < |agents|)
      ensures refusal == AgentJobs.AgentRefusal(lib, model, pinned, tool, profile)
    {
      if pinned.None? {
        var capable := AnyoneProvides(tool);
        return if capable then None else Some(AgentJobs.ToolRefused);
      }
      var agent := agents[pinned.value];
      assert model.agents[pinned.value] == agent.Value();
      if agent.status.Disabled? { return Some(AgentJobs.AgentDisabled); }
      if tool !in agent.tools || !agent.tools[tool].enabled { return Some(AgentJobs.ToolRefused); }
      var profiles := agent.tools[tool].profiles;
      if profile != "" && profiles != [] && lib.normalise(profile) !in profiles { return Some(AgentJobs.ToolRefused); }
      return None;
    }

    method AnyoneProvides(tool: string) returns (found: bool)
      requires Valid()
      ensures found <==> exists a :: 0 <= a < |model.agents| && AgentJobs.ToolEnabled(model.agents[a], tool)
    {
      for a := 0 to |agents|
        invariant forall b :: 0 <= b < a ==> !AgentJobs.ToolEnabled(model.agents[b], tool)
      {
        if AgentJobs.ToolEnabled(agents[a].Value(), tool) {
          assert AgentJobs.ToolEnabled(model.agents[a], tool);
          return true;
        }
      }
      return false;
    }

    method Queue(lib: TextLib, tool: string, target: string, pinned: Option<nat>, priority: int, maxAttempts: int,
                 request: AgentJobs.Request, now: int) returns (refusal: Option<AgentJobs.Refusal>)
      requires Valid()
      modifies this`jobs, this`model
      ensures Valid()
      ensures var step := AgentJobs.QueueStep(lib, old(model),
                            AgentJobs.Action.Queue(tool, target, pinned, priority, maxAttempts, request, now));
        if step.Ok? then refusal == None && model == step.value
        else refusal == Some(step.error) && model == old(model)
      ensures AgentJobsSafety.KeepsSafe(old(model), model)
    {
      ghost var act := AgentJobs.Action.Queue(tool, target, pinned, priority, maxAttempts, request, now);
      refusal := MayQueue(lib, act, tool, target, pinned, request);
      if refusal.None? {
        var job := new AgentJob(lib.normalise(tool), target, pinned, priority, maxAttempts, now);
        jobs := jobs + [job];
        model := model.(jobs := model.jobs + [AgentJobs.NewJob(lib, act)]);
      }
      StillSafe(lib, old(model), act, model);
    }

    method ActiveJobCount(a: nat) returns (n: nat)
      requires Valid()
      ensures n == AgentJobs.ActiveCount(model.jobs, a)
    {
      n := 0;
      for i := 0 to |jobs|
        invariant n == AgentJobs.ActiveCount(model.jobs[..i], a)
      {
        assert model.jobs[..i + 1][..i] == model.jobs[..i];
        if jobs[i].state.Held() && jobs[i].agentId == Some(a) { n := n + 1; }
      }
      assert model.jobs[..|jobs|] == model.jobs;
    }

    /** `candidates` is the answer of the candidate query. */
    method Decide(lib: TextLib, a: nat, candidates: seq<nat>) returns (r: Result<Option<nat>, AgentJobs.Refusal>)
      requires Valid() && forall k :: 0 <= k < |candidates| ==> candidates[k] < |jobs|
      ensures r == AgentJobs.ClaimDecision(lib, model, a, candidates)
    {
      if a >= |agents| { return Err(AgentJobs.NotFound); }
      var agent := agents[a];
      if agent.status.Disabled? { return Err(AgentJobs.AgentDisabled); }
      if !scanning { return Err(AgentJobs.ScanningOff); }
      var active := ActiveJobCount(a);
      if active >= agent.maxConcurrency { return Ok(None); }
      var k := FindRunnable(lib, a, candidates);
      return Ok(if k.None? then None else Some(candidates[k.value]));
    }

    /** The loop over the candidate rows: the first one this agent may run. */
    method FindRunnable(lib: TextLib, a: nat, candidates: seq<nat>) returns (r: Option<nat>)
      requires Valid() && a < |agents| && forall k :: 0 <= k < |candidates| ==> candidates[k] < |jobs|
      ensures r == AgentJobs.FirstRunnable(lib, model, model.agents[a], candidates)
    {
      for k := 0 to |candidates|
        invariant forall l :: 0 <= l < k ==> !AgentJobs.MayRun(lib, model, model.agents[a], model.jobs[candidates[l]])
      {
        var job := jobs[candidates[k]];
        if AgentJobs.ToolEnabled(agents[a].Value(), job.tool)
           && Authorised(lib, agents[a].policy, assets, job.target) {
          assert AgentJobs.MayRun(lib, model, model.agents[a], model.jobs[candidates[k]]);
          return Some(k);
        }
      }
      return None;
    }

    /** `token` is the fresh lease token, `now` the clock. */
    method ClaimNext(lib: TextLib, a: nat, candidates: seq<nat>, token: string, now: int)
      returns (r: Result<Option<nat>, AgentJobs.Refusal>)
      requires Valid() && forall k :: 0 <= k < |candidates| ==> candidates[k] < |jobs|
      modifies this`model, jobs, agents
      ensures Valid() && jobs == old(jobs) && agents == old(agents)
      ensures r == AgentJobs.ClaimDecision(lib, old(model), a, candidates)
      ensures var step := AgentJobs.ClaimStep(lib, old(model), a, candidates, token, now);
        model == if step.Ok? then step.value else old(model)
      ensures AgentJobs.Admissible(old(model), AgentJobs.Claim(a, candidates, token, now)) ==>
                AgentJobsSafety.KeepsSafe(old(model), model)
    {
      r := Decide(lib, a, candidates);
      if r.Ok? && r.value.Some? {
        Lease(a, r.value.value, token, now);
      }
      ClaimIsSafe(lib, old(model), AgentJobs.Claim(a, candidates, token, now), model);
    }

    method Lease(a: nat, i: nat, token: string, now: int)
      requires Valid() && a < |agents| && i < |jobs|
      modifies this`model, jobs[i], agents[a]
      ensures Valid() && model == AgentJobs.LeaseTo(old(model), i, a, token, now)
    {
      var expires := now + agents[a].leaseSeconds;
      jobs[i].Lease(a, token, expires);
      agents[a].SetStatus(AgentJobs.Busy);
      assert jobs[i].Row() == AgentJobs.Lease(model.jobs[i], a, token, expires);
      model := AgentJobs.LeaseTo(model, i, a, token, now);
    }

    method ReleaseAgent(a: nat)
      requires Valid() && a < |agents|
      modifies this`model, agents[a]
      ensures Valid() && model == AgentJobs.ReleaseAgent(old(model), a)
    {
      if agents[a].status.Busy? {
        var active := ActiveJobCount(a);
        if active == 0 {
          agents[a].SetStatus(AgentJobs.Idle);
          model := AgentJobs.SetStatus(model, a, AgentJobs.Idle);
        }
      }
    }

    method Verify(a: nat, i: nat, token: Option<string>) returns (refusal: Option<AgentJobs.Refusal>)
      requires Valid()
      ensures refusal == if a >= |model.agents| || i >= |model.jobs| then Some(AgentJobs.NotFound)
                         else if !AgentJobs.VerifyLease(model.jobs[i], a, token) then Some(AgentJobs.NotTheHolder)
                         else None
    {
      if a >= |agents| || i >= |jobs| { return Some(AgentJobs.NotFound); }
      var held := jobs[i].Verify(a, token);
      return if held then None else Some(AgentJobs.NotTheHolder);
    }

    // The agent-facing routes: verify the lease, then write.

    method Stream(a: nat, i: nat, token: Option<string>, specs: seq<EventSpec>)
      returns (refusal: Option<AgentJobs.Refusal>)
      requires Valid()
      modifies this`model, jobs
      ensures Valid()
      ensures var act := AgentJobs.Action.Stream(a, i, token, specs);
        && refusal == AgentJobs.Guard(old(model), act)
        && model == if refusal.None? then AgentJobs.HolderWrite(old(model), act) else old(model)
      ensures AgentJobsSafety.KeepsSafe(old(model), model)
    {
      HolderIsSafe(model, AgentJobs.Action.Stream(a, i, token, specs));
      refusal := Verify(a, i, token);
      if refusal.Some? { return; }
      if |specs| > AgentJobs.MAX_EVENTS_PER_CALL { return Some(AgentJobs.TooManyEvents); }
      jobs[i].AppendEvents(specs);
      model := AgentJobs.SetJob(model, i, AgentJobs.AppendEvents(AgentJobs.MarkRunning(model.jobs[i]), specs));
    }

    method ExtendLease(a: nat, i: nat, token: Option<string>, now: int) returns (refusal: Option<AgentJobs.Refusal>)
      requires Valid()
      modifies this`model, jobs
      ensures Valid()
      ensures var act := AgentJobs.Action.Extend(a, i, token, now);
        && refusal == AgentJobs.Guard(old(model), act)
        && model == if refusal.None? then AgentJobs.HolderWrite(old(model), act) else old(model)
      ensures AgentJobsSafety.KeepsSafe(old(model), model)
    {
      HolderIsSafe(model, AgentJobs.Action.Extend(a, i, token, now));
      refusal := Verify(a, i, token);
      if refusal.Some? { return; }
      var expires := now + agents[a].leaseSeconds;
      jobs[i].Extend(expires);
      model := AgentJobs.SetJob(model, i, model.jobs[i].(leaseExpiresAt := Some(expires)));
    }

    method FinishRow(i: nat, succeeded: bool)
      requires Valid() && i < |jobs|
      modifies this`model, jobs[i]
      ensures Valid() && model == AgentJobs.SetJob(old(model), i, AgentJobs.Finish(old(model).jobs[i], succeeded))
    {
      jobs[i].Finish(succeeded);
      model := AgentJobs.SetJob(model, i, AgentJobs.Finish(model.jobs[i], succeeded));
    }

    method SubmitResult(a: nat, i: nat, token: Option<string>, submission: ScanResult.Submission)
      returns (refusal: Option<AgentJobs.Refusal>)
      requires Valid()
      modifies this`model, jobs, agents
      ensures Valid()
      ensures var act := AgentJobs.Action.Submit(a, i, token, submission);
        && refusal == AgentJobs.Guard(old(model), act)
        && model == if refusal.None? then AgentJobs.HolderWrite(old(model), act) else old(model)
      ensures AgentJobsSafety.KeepsSafe(old(model), model)
    {
      HolderIsSafe(model, AgentJobs.Action.Submit(a, i, token, submission));
      refusal := Verify(a, i, token);
      if refusal.Some? { return; }
      var intake := ScanResult.IntakeOf(submission);
      if intake.Rejected? { return Some(AgentJobs.ResultRejected); }
      FinishRow(i, intake.succeeded);
      ReleaseAgent(a);
    }

    method FailRow(i: nat, requeue: bool)
      requires Valid() && i < |jobs|
      modifies this`model, jobs[i]
      ensures Valid() && model == AgentJobs.SetJob(old(model), i, AgentJobs.Fail(old(model).jobs[i], requeue))
    {
      jobs[i].Fail(requeue);
      model := AgentJobs.SetJob(model, i, AgentJobs.Fail(model.jobs[i], requeue));
    }

    method FailJob(a: nat, i: nat, token: Option<string>, requeue: bool) returns (refusal: Option<AgentJobs.Refusal>)
      requires Valid()
      modifies this`model, jobs, agents
      ensures Valid()
      ensures var act := AgentJobs.Action.ReportFailure(a, i, token, requeue);
        && refusal == AgentJobs.Guard(old(model), act)
        && model == if refusal.None? then AgentJobs.HolderWrite(old(model), act) else old(model)
      ensures AgentJobsSafety.KeepsSafe(old(model), model)
    {
      HolderIsSafe(model, AgentJobs.Action.ReportFailure(a, i, token, requeue));
      refusal := Verify(a, i, token);
      if refusal.Some? { return; }
      FailRow(i, requeue);
      ReleaseAgent(a);
    }

    method CancelJob(i: nat) returns (refusal: Option<AgentJobs.Refusal>)
      requires Valid()
      modifies this`model, jobs
      ensures Valid()
      ensures var step := AgentJobs.CancelStep(old(model), i);
        && refusal == (if step.Ok? then None else Some(step.error))
        && model == if step.Ok? then step.value else old(model)
      ensures AgentJobsSafety.KeepsSafe(old(model), model)
    {
      CancelIsSafe(model, i);
      if i >= |jobs| { return Some(AgentJobs.NotFound); }
      if jobs[i].state.Terminal() { return Some(AgentJobs.AlreadyTerminal); }
      jobs[i].Cancel();
      model := AgentJobs.SetJob(model, i, AgentJobs.Cancel(model.jobs[i]));
      refusal := None;
    }

    method ReapExpiredLeases(now: int) returns (requeued: nat, expired: nat)
      requires Valid()
      modifies this`model, jobs
      ensures Valid()
      ensures model == old(model).(jobs := AgentJobs.ReapAll(old(model).jobs, now))
      ensures (requeued, expired) == AgentJobs.ReapTally(old(model).jobs, |old(model).jobs|, now)
      ensures AgentJobsSafety.KeepsSafe(old(model), model)
    {
      StillSafe(AgentJobsSafety.AnyLib(), model, AgentJobs.ReapExpired(now),
                model.(jobs := AgentJobs.ReapAll(model.jobs, now)));
      requeued, expired := ReapRows(jobs, model.jobs, now);
      model := model.(jobs := AgentJobs.ReapAll(model.jobs, now));
    }
  }
}
