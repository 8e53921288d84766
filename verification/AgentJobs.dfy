/** The agent job lease protocol: rows, steps, and what every run keeps.

    One SQL transaction is one step. A refused step leaves the state alone,
    as the routes do when a service call raises. */
module AgentJobs {
  import opened Arithmetic
  import opened Wrappers
  import opened TargetPolicy
  import ScanResult

  type JobId = nat
  type AgentId = nat

  datatype JobState = Queued | Leased | Running | Succeeded | Failed | Cancelled | Expired {
    predicate Terminal() { Succeeded? || Failed? || Cancelled? || Expired? }
    predicate Held() { Leased? || Running? }
  }

  datatype EventKind = Stdout | Stderr | Progress | Status | Partial

  const MAX_EVENT_MESSAGE := 8000
  const MAX_EVENTS_PER_CALL := 200
  const CANDIDATE_LIMIT := 20

  datatype Event = Event(seqNo: nat, kind: EventKind, message: string)

  /** One line an agent asks to log; an unknown kind is stored as stdout. */
  datatype EventSpec = EventSpec(kind: Option<EventKind>, message: string)

  datatype Job = Job(
    tool: string, target: string, priority: int, createdAt: int,
    requestedAgentId: Option<AgentId>, agentId: Option<AgentId>,
    state: JobState, leaseToken: Option<string>, leaseExpiresAt: Option<int>,
    attempts: nat, maxAttempts: nat, lastEventSeq: nat, events: seq<Event>)

  datatype AgentStatus = Pending | Idle | Busy | Offline | Disabled

  /** A declared tool: switched on or not, and the profiles it implements. */
  datatype Tool = Tool(enabled: bool, profiles: seq<string>)

  datatype Agent = Agent(
    status: AgentStatus, policy: Policy, tools: map<string, Tool>,
    maxConcurrency: nat, leaseSeconds: nat)

  /** `minted` is every lease token handed out so far. */
  datatype State = State(
    jobs: seq<Job>, agents: seq<Agent>, scanning: bool, assets: set<string>, minted: set<string>)

  // ---------------------------------------------------------------- rows --

  function Clip(message: string): string {
    if |message| <= MAX_EVENT_MESSAGE then message else message[..MAX_EVENT_MESSAGE]
  }

  function AppendEvent(j: Job, spec: EventSpec): Job {
    var seqNo := j.lastEventSeq + 1;
    var kind := if spec.kind.Some? then spec.kind.value else Stdout;
    j.(lastEventSeq := seqNo, events := j.events + [Event(seqNo, kind, Clip(spec.message))])
  }

  function Note(j: Job, message: string): Job {
    AppendEvent(j, EventSpec(Some(Status), message))
  }

  function AppendEvents(j: Job, specs: seq<EventSpec>): Job
    decreases |specs|
  {
    if specs == [] then j
    else AppendEvent(AppendEvents(j, specs[..|specs| - 1]), specs[|specs| - 1])
  }

  function MarkRunning(j: Job): Job {
    if j.state.Leased? then j.(state := Running) else j
  }

  function Lease(j: Job, a: AgentId, token: string, expires: int): Job {
    Note(j.(agentId := Some(a), state := Leased, leaseToken := Some(token),
            leaseExpiresAt := Some(expires), attempts := j.attempts + 1), "leased")
  }

  /** Whether an agent's write to a job is let through. Expiry is not consulted:
      an overdue lease stays good until it is reaped. */
  predicate VerifyLease(j: Job, a: AgentId, token: Option<string>) {
    && j.agentId == Some(a)
    && !j.state.Terminal()
    && j.leaseToken.Some? && j.leaseToken.value != ""
    && token.Some? && token.value != ""
    && token == j.leaseToken
  }

  function Finish(j: Job, succeeded: bool): Job {
    Note(j.(state := if succeeded then Succeeded else Failed, leaseToken := None), "result submitted")
  }

  function Fail(j: Job, requeue: bool): Job {
    var k := j.(leaseToken := None);
    Note(if requeue && k.attempts < k.maxAttempts
         then k.(state := Queued, agentId := k.requestedAgentId, leaseExpiresAt := None)
         else k.(state := Failed), "failed")
  }

  function Cancel(j: Job): Job {
    Note(j.(state := Cancelled, leaseToken := None), "cancelled")
  }

  predicate Overdue(j: Job, now: int) {
    j.state.Held() && j.leaseExpiresAt.Some? && j.leaseExpiresAt.value < now
  }

  function Reap(j: Job): Job {
    var k := j.(leaseToken := None, leaseExpiresAt := None);
    if k.attempts < k.maxAttempts
    then Note(k.(state := Queued, agentId := k.requestedAgentId), "lease expired; requeued")
    else Note(k.(state := Expired), "lease expired; no attempts left")
  }

  function ReapRow(j: Job, now: int): Job {
    if Overdue(j, now) then Reap(j) else j
  }

  function ReapAll(jobs: seq<Job>, now: int): (r: seq<Job>)
    ensures |r| == |jobs|
    ensures forall i :: 0 <= i < |jobs| ==> r[i] == ReapRow(jobs[i], now)
  {
    seq(|jobs|, i requires 0 <= i < |jobs| => ReapRow(jobs[i], now))
  }

  /** (requeued, expired): what a reap reports about one row, and about the first n. */
  function ReapTallyOf(j: Job, now: int): (nat, nat) {
    if !Overdue(j, now) then (0, 0) else if j.attempts < j.maxAttempts then (1, 0) else (0, 1)
  }

  function ReapTally(jobs: seq<Job>, n: nat, now: int): (nat, nat)
    requires n <= |jobs|
  {
    if n == 0 then (0, 0)
    else
      var before := ReapTally(jobs, n - 1, now);
      var last := ReapTallyOf(jobs[n - 1], now);
      (before.0 + last.0, before.1 + last.1)
  }

  // ----------------------------------------------------------- dispatch --

  predicate Holds(j: Job, a: AgentId) {
    j.state.Held() && j.agentId == Some(a)
  }

  /** active_job_count: the LEASED and RUNNING jobs of one agent. */
  function ActiveCount(jobs: seq<Job>, a: AgentId): nat {
    if jobs == [] then 0
    else ActiveCount(jobs[..|jobs| - 1], a) + if Holds(jobs[|jobs| - 1], a) then 1 else 0
  }

  predicate Eligible(j: Job, a: AgentId) {
    j.state.Queued? && (j.agentId == Some(a) || j.agentId.None?)
  }

  /** Strictly ahead in the queue: higher priority, then older. */
  predicate Ahead(j: Job, k: Job) {
    j.priority > k.priority || (j.priority == k.priority && j.createdAt < k.createdAt)
  }

  /** Up to 20 queued rows the agent may be given, as the candidate query locks them. */
  ghost predicate EligibleRows(jobs: seq<Job>, a: AgentId, c: seq<JobId>) {
    |c| <= CANDIDATE_LIMIT && forall k :: 0 <= k < |c| ==> c[k] < |jobs| && Eligible(jobs[c[k]], a)
  }

  /** `c` is an answer the database may give to the candidate query while others
      hold the rows in `locked`: ordered, each row once, and nothing left out but
      those that is ahead of a row kept. */
  ghost predicate CandidateRows(jobs: seq<Job>, a: AgentId, locked: set<JobId>, c: seq<JobId>) {
    && EligibleRows(jobs, a, c)
    && (forall k :: 0 <= k < |c| ==> c[k] !in locked)
    && (forall k, l :: 0 <= k < l < |c| ==> c[k] != c[l] && !Ahead(jobs[c[l]], jobs[c[k]]))
    && (forall i :: 0 <= i < |jobs| && Eligible(jobs[i], a) && i !in locked && i !in c ==>
          |c| == CANDIDATE_LIMIT && forall k :: 0 <= k < |c| ==> !Ahead(jobs[i], jobs[c[k]]))
  }

  predicate ToolEnabled(agent: Agent, tool: string) {
    tool in agent.tools && agent.tools[tool].enabled
  }

  /** A tool that names no profiles takes any. */
  predicate Implements(lib: TextLib, tool: Tool, profile: string) {
    profile == "" || tool.profiles == [] || lib.normalise(profile) in tool.profiles
  }

  predicate MayRun(lib: TextLib, s: State, agent: Agent, j: Job) {
    ToolEnabled(agent, j.tool) && Authorised(lib, agent.policy, s.assets, j.target)
  }

  function FirstRunnable(lib: TextLib, s: State, agent: Agent, c: seq<JobId>): (r: Option<nat>)
    requires forall k :: 0 <= k < |c| ==> c[k] < |s.jobs|
    ensures r.Some? ==> r.value < |c| && MayRun(lib, s, agent, s.jobs[c[r.value]])
    ensures forall k :: 0 <= k < (if r.Some? then r.value else |c|) ==> !MayRun(lib, s, agent, s.jobs[c[k]])
  {
    if c == [] then None
    else if MayRun(lib, s, agent, s.jobs[c[0]]) then Some(0)
    else
      var rest := FirstRunnable(lib, s, agent, c[1..]);
      assert forall k :: 0 < k < |c| ==> c[k] == c[1..][k - 1];
      if rest.None? then None else Some(rest.value + 1)
  }

  // -------------------------------------------------------------- steps --

  /** The engagement a request names: none by that id in the tenant, or one that is closed or open. */
  datatype Engagement = Missing | Closed | Open

  /** What a request for work says beside its tool and target. */
  datatype Request = Request(reason: string, profile: string, engagement: Option<Engagement>)

  /** What an operator may set on an agent. */
  datatype Settings = Settings(status: AgentStatus, policy: Policy, maxConcurrency: nat, leaseSeconds: nat)

  datatype Action =
    | Enrol(name: string, policy: Policy, maxConcurrency: int, leaseSeconds: int)
    | Configure(agent: AgentId, settings: Settings)
    | SetTools(agent: AgentId, tools: map<string, Tool>)
    | Heartbeat(agent: AgentId)
    | MarkOffline(agent: AgentId)
    | SetScanning(on: bool)
    | SetAssets(assets: set<string>)
    | Queue(tool: string, target: string, pinned: Option<AgentId>, priority: int, maxAttempts: int,
            request: Request, now: int)
    | Claim(agent: AgentId, candidates: seq<JobId>, token: string, now: int)
    | Stream(agent: AgentId, job: JobId, lease: Option<string>, specs: seq<EventSpec>)
    | Extend(agent: AgentId, job: JobId, lease: Option<string>, now: int)
    | Submit(agent: AgentId, job: JobId, lease: Option<string>, submission: ScanResult.Submission)
    | ReportFailure(agent: AgentId, job: JobId, lease: Option<string>, requeue: bool)
    | CancelJob(job: JobId)
    | ReapExpired(now: int)

  datatype Refusal = NotFound | AgentDisabled | ScanningOff | ToolRefused | TargetRefused | BadRequest
    | NotTheHolder | AlreadyTerminal | TooManyEvents | ResultRejected

  function SetJob(s: State, i: JobId, j: Job): State
    requires i < |s.jobs|
  {
    s.(jobs := s.jobs[i := j])
  }

  function SetStatus(s: State, a: AgentId, status: AgentStatus): State
    requires a < |s.agents|
  {
    s.(agents := s.agents[a := s.agents[a].(status := status)])
  }

  function ReleaseAgent(s: State, a: AgentId): State
    requires a < |s.agents|
  {
    if s.agents[a].status.Busy? && ActiveCount(s.jobs, a) == 0 then SetStatus(s, a, Idle) else s
  }

  function NewJob(lib: TextLib, act: Action): Job
    requires act.Queue?
  {
    Job(lib.normalise(act.tool), act.target, act.priority, act.now, act.pinned, act.pinned,
        Queued, None, None, 0, Max(1, act.maxAttempts), 0, [])
  }

  function NewAgent(lib: TextLib, policy: Policy, maxConcurrency: int, leaseSeconds: int): Agent {
    Agent(Pending, Kept(lib, policy), map[], Max(1, maxConcurrency), Max(60, leaseSeconds))
  }

  function EnrolStep(lib: TextLib, s: State, act: Action): Result<State, Refusal>
    requires act.Enrol?
  {
    if !s.scanning then Err(ScanningOff)
    else if lib.normalise(act.name) == "" then Err(BadRequest)
    else if !WellFormed(lib, act.policy) then Err(BadRequest)
    else Ok(s.(agents := s.agents + [NewAgent(lib, act.policy, act.maxConcurrency, act.leaseSeconds)]))
  }

  function Edited(lib: TextLib, agent: Agent, settings: Settings): Agent {
    agent.(status := settings.status, policy := Kept(lib, settings.policy),
           maxConcurrency := settings.maxConcurrency, leaseSeconds := settings.leaseSeconds)
  }

  /** The new cap is not compared with the jobs in hand. */
  function ConfigureStep(lib: TextLib, s: State, a: AgentId, settings: Settings): Result<State, Refusal> {
    if a >= |s.agents| then Err(NotFound)
    else if !WellFormed(lib, settings.policy) then Err(BadRequest)
    else Ok(s.(agents := s.agents[a := Edited(lib, s.agents[a], settings)]))
  }

  function QueueStep(lib: TextLib, s: State, act: Action): Result<State, Refusal>
    requires act.Queue?
  {
    var tool := lib.normalise(act.tool);
    if act.pinned.Some? && act.pinned.value >= |s.agents| then Err(NotFound)
    else if !s.scanning then Err(ScanningOff)
    else if tool == "" then Err(ToolRefused)
    else if lib.normalise(act.request.reason) == "" then Err(BadRequest)
    else
      var refusal := AgentRefusal(lib, s, act.pinned, tool, act.request.profile);
      if refusal.Some? then Err(refusal.value)
      else
        var policy := if act.pinned.Some? then Some(s.agents[act.pinned.value].policy) else None;
        if AuthoriseTarget(lib, policy, s.assets, act.target).Refused? then Err(TargetRefused)
        else if act.request.engagement in {Some(Missing), Some(Closed)} then Err(BadRequest)
        else Ok(s.(jobs := s.jobs + [NewJob(lib, act)]))
  }

  /** Why no agent asked for could run this: the pinned one, or any at all. */
  function AgentRefusal(lib: TextLib, s: State, pinned: Option<AgentId>, tool: string, profile: string)
    : Option<Refusal>
    requires pinned.Some? ==> pinned.value < |s.agents|
  {
    if pinned.None? then
      if exists a :: 0 <= a < |s.agents| && ToolEnabled(s.agents[a], tool) then None else Some(ToolRefused)
    else
      var agent := s.agents[pinned.value];
      if agent.status.Disabled? then Some(AgentDisabled)
      else if !ToolEnabled(agent, tool) || !Implements(lib, agent.tools[tool], profile) then Some(ToolRefused)
      else None
  }

  /** The row claim_next would lease, if any. */
  function ClaimedRow(lib: TextLib, s: State, a: AgentId, c: seq<JobId>): (r: Option<JobId>)
    requires a < |s.agents|
    requires forall k :: 0 <= k < |c| ==> c[k] < |s.jobs|
    ensures r.Some? ==> r.value in c
  {
    if ActiveCount(s.jobs, a) >= s.agents[a].maxConcurrency then None
    else
      var k := FirstRunnable(lib, s, s.agents[a], c);
      if k.None? then None else Some(c[k.value])
  }

  function LeaseTo(s: State, i: JobId, a: AgentId, token: string, now: int): State
    requires i < |s.jobs| && a < |s.agents|
  {
    var leased := SetJob(s, i, Lease(s.jobs[i], a, token, now + s.agents[a].leaseSeconds));
    SetStatus(leased, a, Busy).(minted := s.minted + {token})
  }

  function ClaimDecision(lib: TextLib, s: State, a: AgentId, c: seq<JobId>): Result<Option<JobId>, Refusal>
    requires forall k :: 0 <= k < |c| ==> c[k] < |s.jobs|
  {
    if a >= |s.agents| then Err(NotFound)
    else if s.agents[a].status.Disabled? then Err(AgentDisabled)
    else if !s.scanning then Err(ScanningOff)
    else Ok(ClaimedRow(lib, s, a, c))
  }

  function ClaimStep(lib: TextLib, s: State, a: AgentId, c: seq<JobId>, token: string, now: int): Result<State, Refusal>
    requires forall k :: 0 <= k < |c| ==> c[k] < |s.jobs|
  {
    match ClaimDecision(lib, s, a, c)
    case Err(e) => Err(e)
    case Ok(None) => Ok(s)
    case Ok(Some(i)) => Ok(LeaseTo(s, i, a, token, now))
  }

  /** verify_lease, and what each write checks before it writes. */
  function Guard(s: State, act: Action): Option<Refusal>
    requires act.Stream? || act.Extend? || act.Submit? || act.ReportFailure?
  {
    if act.agent >= |s.agents| || act.job >= |s.jobs| then Some(NotFound)
    else if !VerifyLease(s.jobs[act.job], act.agent, act.lease) then Some(NotTheHolder)
    else if act.Stream? && |act.specs| > MAX_EVENTS_PER_CALL then Some(TooManyEvents)
    else if act.Submit? && ScanResult.IntakeOf(act.submission).Rejected? then Some(ResultRejected)
    else None
  }

  function HolderWrite(s: State, act: Action): State
    requires act.Stream? || act.Extend? || act.Submit? || act.ReportFailure?
    requires Guard(s, act).None?
  {
    var j := s.jobs[act.job];
    match act
    case Stream(_, i, _, specs) => SetJob(s, i, AppendEvents(MarkRunning(j), specs))
    case Extend(a, i, _, now) => SetJob(s, i, j.(leaseExpiresAt := Some(now + s.agents[a].leaseSeconds)))
    case Submit(a, i, _, submission) =>
      ReleaseAgent(SetJob(s, i, Finish(j, ScanResult.IntakeOf(submission).succeeded)), a)
    case ReportFailure(a, i, _, requeue) => ReleaseAgent(SetJob(s, i, Fail(j, requeue)), a)
  }

  function HolderStep(s: State, act: Action): Result<State, Refusal>
    requires act.Stream? || act.Extend? || act.Submit? || act.ReportFailure?
  {
    var refusal := Guard(s, act);
    if refusal.Some? then Err(refusal.value) else Ok(HolderWrite(s, act))
  }

  function CancelStep(s: State, i: JobId): Result<State, Refusal> {
    if i >= |s.jobs| then Err(NotFound)
    else if s.jobs[i].state.Terminal() then Err(AlreadyTerminal)
    else Ok(SetJob(s, i, Cancel(s.jobs[i])))
  }

  function Step(lib: TextLib, s: State, act: Action): Result<State, Refusal>
    requires act.Claim? ==> forall k :: 0 <= k < |act.candidates| ==> act.candidates[k] < |s.jobs|
  {
    match act
    case Enrol(_, _, _, _) => EnrolStep(lib, s, act)
    case Configure(a, settings) => ConfigureStep(lib, s, a, settings)
    case SetTools(a, tools) =>
      if a >= |s.agents| then Err(NotFound) else Ok(s.(agents := s.agents[a := s.agents[a].(tools := tools)]))
    case Heartbeat(a) =>
      if a >= |s.agents| then Err(NotFound)
      else if s.agents[a].status.Pending? || s.agents[a].status.Offline? then Ok(SetStatus(s, a, Idle))
      else Ok(s)
    case MarkOffline(a) =>
      if a < |s.agents| && (s.agents[a].status.Idle? || s.agents[a].status.Busy?)
      then Ok(SetStatus(s, a, Offline)) else Ok(s)
    case SetScanning(on) => Ok(s.(scanning := on))
    case SetAssets(assets) => Ok(s.(assets := assets))
    case Queue(_, _, _, _, _, _, _) => QueueStep(lib, s, act)
    case Claim(a, c, token, now) => ClaimStep(lib, s, a, c, token, now)
    case CancelJob(i) => CancelStep(s, i)
    case ReapExpired(now) => Ok(s.(jobs := ReapAll(s.jobs, now)))
    case _ => HolderStep(s, act)
  }

  /** What the surroundings guarantee: the candidate query returns rows the agent
      may be given, and a new lease token was never minted before. */
  ghost predicate Admissible(s: State, act: Action) {
    act.Claim? ==>
      EligibleRows(s.jobs, act.agent, act.candidates) && act.token !in s.minted && act.token != ""
  }

  ghost function After(lib: TextLib, s: State, act: Action): State
    requires Admissible(s, act)
  {
    var r := Step(lib, s, act);
    if r.Ok? then r.value else s
  }
}
