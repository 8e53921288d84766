/** What claim_next hands out, and when it hands out nothing. */
module AgentClaims {
  import opened Wrappers
  import opened TargetPolicy
  import opened AgentJobs
  import opened AgentJobsSafety

  /** A queued job the agent may run, whose row nobody else holds just then. */
  predicate OpenTo(lib: TextLib, s: State, a: AgentId, locked: set<JobId>, i: JobId)
    requires a < |s.agents|
  {
    i < |s.jobs| && i !in locked && Eligible(s.jobs[i], a) && MayRun(lib, s, s.agents[a], s.jobs[i])
  }

  /** Whatever is leased is a best-ranked job the claimant's own policy permits:
      no queued job it may run stands ahead, inside the candidate rows or not,
      but for rows another transaction holds just then. */
  lemma {:induction false} ClaimIsBestPermitted(lib: TextLib, s: State, a: AgentId, locked: set<JobId>, c: seq<JobId>,
                                                 i: JobId)
    requires a < |s.agents| && CandidateRows(s.jobs, a, locked, c)
    requires ClaimedRow(lib, s, a, c).Some? && OpenTo(lib, s, a, locked, i)
    ensures var r := ClaimedRow(lib, s, a, c).value;
      && r < |s.jobs| && Eligible(s.jobs[r], a) && MayRun(lib, s, s.agents[a], s.jobs[r])
      && !Ahead(s.jobs[i], s.jobs[r])
  {
    var k := FirstRunnable(lib, s, s.agents[a], c).value;
    if i in c {
      var l :| 0 <= l < |c| && c[l] == i;
    }
  }

  /** A claim leases something exactly when the agent is below its cap and its
      policy permits one of the candidate rows. */
  lemma {:induction false} ClaimLeasesIff(lib: TextLib, s: State, a: AgentId, locked: set<JobId>, c: seq<JobId>)
    requires a < |s.agents| && CandidateRows(s.jobs, a, locked, c)
    ensures ClaimedRow(lib, s, a, c).Some?
       <==> && ActiveCount(s.jobs, a) < s.agents[a].maxConcurrency
            && exists i :: i in c && MayRun(lib, s, s.agents[a], s.jobs[i])
  {
    var k := FirstRunnable(lib, s, s.agents[a], c);
    if k.Some? {
      assert c[k.value] in c;
    } else {
      forall i | i in c ensures !MayRun(lib, s, s.agents[a], s.jobs[i]) {
        var l :| 0 <= l < |c| && c[l] == i;
      }
    }
  }

  /** Below its cap, an agent that is offered nothing although some job is open to
      it has exactly this in front of it: a full page of 20 candidate rows, none
      of which it may run. */
  lemma {:induction false} PassedOverIff(lib: TextLib, s: State, a: AgentId, locked: set<JobId>, c: seq<JobId>)
    requires a < |s.agents| && CandidateRows(s.jobs, a, locked, c)
    requires ActiveCount(s.jobs, a) < s.agents[a].maxConcurrency
    requires exists i :: OpenTo(lib, s, a, locked, i)
    ensures ClaimedRow(lib, s, a, c).None?
       <==> |c| == CANDIDATE_LIMIT && forall k :: 0 <= k < |c| ==> !MayRun(lib, s, s.agents[a], s.jobs[c[k]])
  {
    ClaimLeasesIff(lib, s, a, locked, c);
    var i :| OpenTo(lib, s, a, locked, i);
    if i in c {
      var l :| 0 <= l < |c| && c[l] == i;
    }
  }

  /** Names only, compared literally: the smallest library the example needs. */
  function PlainNames(): TextLib {
    TextLib(x => x, x => Some(x), x => None, x => false, x => true, (x, y) => false, (x, y) => x == y)
  }

  const NEAR := Policy(["near"], [], false)

  const NMAP := map["nmap" := Tool(true, [])]

  const NEAR_AGENT := Agent(Idle, NEAR, NMAP, 1, 900)

  function Waiting(target: string, priority: int): Job {
    Job("nmap", target, priority, 0, None, None, JobState.Queued, None, None, 0, 3, 0, [])
  }

  function Asked(target: string, priority: int): Action {
    Action.Queue("nmap", target, None, priority, 3, Request("monthly scan", "", None), 0)
  }

  /** n requests for a target the agent may not touch, then one for one it may. */
  function Requests(n: nat): seq<Action> {
    if n == 0 then [Asked("near", 0)] else [Asked("far", 1)] + Requests(n - 1)
  }

  function Rows(n: nat): seq<Job> {
    if n == 0 then [Waiting("near", 0)] else [Waiting("far", 1)] + Rows(n - 1)
  }

  function Starved(n: nat): State {
    State(Rows(n), [NEAR_AGENT], true, {}, {})
  }

  lemma {:induction false} RowAt(n: nat, i: nat)
    requires i <= n
    ensures |Rows(n)| == n + 1 && Rows(n)[i] == if i < n then Waiting("far", 1) else Waiting("near", 0)
  {
    if n > 0 { RowAt(n - 1, if i > 0 then i - 1 else 0); }
  }

  lemma {:induction false} AskedIsQueued(s: State, target: string, priority: int)
    requires s.scanning && |s.agents| == 1 && s.agents[0].tools == NMAP
    ensures Admissible(s, Asked(target, priority))
    ensures After(PlainNames(), s, Asked(target, priority)) == s.(jobs := s.jobs + [Waiting(target, priority)])
  {
    assert ToolEnabled(s.agents[0], "nmap");
  }

  lemma {:induction false} OneMoreRequest(s: State, target: string, priority: int, rest: seq<Action>, t: State)
    requires s.scanning && s.agents == [NEAR_AGENT]
    requires t == s.(jobs := s.jobs + [Waiting(target, priority)]) && AdmissibleRun(PlainNames(), t, rest)
    ensures AdmissibleRun(PlainNames(), s, [Asked(target, priority)] + rest)
    ensures Run(PlainNames(), s, [Asked(target, priority)] + rest) == Run(PlainNames(), t, rest)
  {
    AskedIsQueued(s, target, priority);
    RunCons(PlainNames(), s, Asked(target, priority), t, rest);
  }

  lemma {:induction false} RequestsQueueRows(s: State, n: nat)
    requires s.scanning && s.agents == [NEAR_AGENT]
    ensures AdmissibleRun(PlainNames(), s, Requests(n))
    ensures Run(PlainNames(), s, Requests(n)) == s.(jobs := s.jobs + Rows(n))
    decreases n
  {
    if n == 0 {
      OneMoreRequest(s, "near", 0, [], s.(jobs := s.jobs + [Waiting("near", 0)]));
      assert [Asked("near", 0)] + [] == Requests(n);
    } else {
      var t := s.(jobs := s.jobs + [Waiting("far", 1)]);
      RequestsQueueRows(t, n - 1);
      OneMoreRequest(s, "far", 1, Requests(n - 1), t);
      assert t.jobs + Rows(n - 1) == s.jobs + Rows(n);
    }
  }

  /** An agent joins, an operator switches it on, and it declares a tool. */
  function Joined(cap: nat): seq<Action> {
    [Enrol("one", NEAR, 1, 900), Configure(0, Settings(Idle, NEAR, cap, 900)), SetTools(0, NMAP)]
  }

  function Ready(cap: nat): State {
    EMPTY.(agents := [NEAR_AGENT.(maxConcurrency := cap)])
  }

  lemma {:induction false} JoinedRun(cap: nat, rest: seq<Action>)
    requires AdmissibleRun(PlainNames(), Ready(cap), rest)
    ensures AdmissibleRun(PlainNames(), EMPTY, Joined(cap) + rest)
    ensures Run(PlainNames(), EMPTY, Joined(cap) + rest) == Run(PlainNames(), Ready(cap), rest)
  {
    var lib, acts := PlainNames(), Joined(cap);
    assert Normalised(lib, NEAR.allowed) == NEAR.allowed && Normalised(lib, NEAR.denied) == NEAR.denied;
    var one := EMPTY.(agents := [Agent(Pending, NEAR, map[], 1, 900)]);
    var two := EMPTY.(agents := [Agent(Idle, NEAR, map[], cap, 900)]);
    RunCons(lib, two, acts[2], Ready(cap), rest);
    RunCons(lib, one, acts[1], two, [acts[2]] + rest);
    RunCons(lib, EMPTY, acts[0], one, [acts[1]] + ([acts[2]] + rest));
    assert Joined(cap) + rest == [acts[0]] + ([acts[1]] + ([acts[2]] + rest));
  }

  /** And then n + 1 jobs are asked for. */
  function Starving(n: nat): seq<Action> {
    Joined(1) + Requests(n)
  }

  lemma {:induction false} StarvingStarves(n: nat)
    ensures AdmissibleRun(PlainNames(), EMPTY, Starving(n)) && Run(PlainNames(), EMPTY, Starving(n)) == Starved(n)
  {
    RequestsQueueRows(Ready(1), n);
    JoinedRun(1, Requests(n));
    assert Ready(1).jobs + Rows(n) == Rows(n);
  }

  lemma {:induction false} NearIsNotFar()
    ensures Authorised(PlainNames(), NEAR, {}, "near") && !Authorised(PlainNames(), NEAR, {}, "far")
  {
    AuthorisedIff(PlainNames(), NEAR, {}, "near");
    assert Matches(PlainNames(), "near", NEAR.allowed[0]);
    AuthorisedIff(PlainNames(), NEAR, {}, "far");
  }

  lemma {:induction false} StarvedPage(n: nat, c: seq<JobId>)
    requires n >= CANDIDATE_LIMIT && c == seq(CANDIDATE_LIMIT, i => i)
    ensures CandidateRows(Rows(n), 0, {}, c) && ActiveCount(Rows(n), 0) == 0
  {
    var jobs := Rows(n);
    RowAt(n, 0);
    forall i | 0 <= i <= n ensures jobs[i] == if i < n then Waiting("far", 1) else Waiting("near", 0) {
      RowAt(n, i);
    }
    forall i | 0 <= i < CANDIDATE_LIMIT ensures i in c {
      assert c[i] == i;
    }
    CountOfNobody(jobs, 0);
  }

  lemma {:induction false} NearMayRun(s: State, near: Job, far: Job)
    requires s.assets == {} && near == Waiting("near", 0) && far == Waiting("far", 1)
    ensures MayRun(PlainNames(), s, NEAR_AGENT, near) && !MayRun(PlainNames(), s, NEAR_AGENT, far)
  {
    NearIsNotFar();
  }

  /** A run gets there: queued jobs outside the agent's allowlist, twenty or more
      of them, keep it from one it may run. */
  lemma {:induction false} TwentyForeignJobsStarve(n: nat) returns (acts: seq<Action>, c: seq<JobId>)
    requires n >= CANDIDATE_LIMIT
    ensures AdmissibleRun(PlainNames(), EMPTY, acts)
    ensures var s := Run(PlainNames(), EMPTY, acts);
      && |s.agents| == 1 && |s.jobs| == n + 1
      && CandidateRows(s.jobs, 0, {}, c)
      && ActiveCount(s.jobs, 0) < s.agents[0].maxConcurrency
      && Eligible(s.jobs[n], 0) && MayRun(PlainNames(), s, s.agents[0], s.jobs[n])
      && ClaimedRow(PlainNames(), s, 0, c).None?
  {
    var s := Starved(n);
    acts, c := Starving(n), seq(CANDIDATE_LIMIT, i => i);
    StarvingStarves(n);
    StarvedPage(n, c);
    RowAt(n, n);
    forall k | 0 <= k < CANDIDATE_LIMIT ensures !MayRun(PlainNames(), s, s.agents[0], s.jobs[c[k]]) {
      RowAt(n, k);
      NearMayRun(s, s.jobs[n], s.jobs[c[k]]);
    }
    NearMayRun(s, s.jobs[n], s.jobs[0]);
    assert OpenTo(PlainNames(), s, 0, {}, n);
    PassedOverIff(PlainNames(), s, 0, {}, c);
  }

  // ------------------------------------------------------ a cap below the load --

  function TwoClaims(): seq<Action> {
    [Asked("near", 0), Asked("near", 0), Claim(0, [0, 1], "a", 0), Claim(0, [1], "b", 0)]
  }

  const CAP_OF_ONE := Configure(0, Settings(Idle, NEAR, 1, 900))

  lemma {:induction false} ClaimOfFirst(s: State, c: seq<JobId>, token: string)
    requires |s.agents| == 1 && s.scanning && s.assets == {} && token !in s.minted && token != ""
    requires s.agents[0].(status := Idle) == NEAR_AGENT.(maxConcurrency := 2) && !s.agents[0].status.Disabled?
    requires c != [] && EligibleRows(s.jobs, 0, c) && ActiveCount(s.jobs, 0) < 2
    requires s.jobs[c[0]].tool == "nmap" && s.jobs[c[0]].target == "near"
    ensures Admissible(s, Claim(0, c, token, 0))
    ensures After(PlainNames(), s, Claim(0, c, token, 0)) == LeaseTo(s, c[0], 0, token, 0)
  {
    NearIsNotFar();
    assert MayRun(PlainNames(), s, s.agents[0], s.jobs[c[0]]);
  }

  function Held(token: string): Job {
    Lease(Waiting("near", 0), 0, token, 900)
  }

  function TwiceHeld(): State {
    var agent := NEAR_AGENT.(status := Busy, maxConcurrency := 2);
    State([Held("a"), Held("b")], [agent], true, {}, {"a", "b"})
  }

  lemma {:induction false} CountOfPair(j: Job, k: Job, a: AgentId)
    ensures ActiveCount([j, k], a) == (if Holds(j, a) then 1 else 0) + (if Holds(k, a) then 1 else 0)
  {
    assert [j, k][..1] == [j] && [j][..0] == [];
    assert ActiveCount([j], a) == ActiveCount([], a) + if Holds(j, a) then 1 else 0;
  }

  lemma {:induction false} TwoClaimsHoldTwo()
    ensures AdmissibleRun(PlainNames(), Ready(2), TwoClaims())
    ensures Run(PlainNames(), Ready(2), TwoClaims()) == TwiceHeld()
  {
    var lib, acts := PlainNames(), TwoClaims();
    var w, ready := Waiting("near", 0), Ready(2);
    var one, two := ready.(jobs := [w]), ready.(jobs := [w, w]);
    var three := LeaseTo(two, 0, 0, "a", 0);
    AskedIsQueued(ready, "near", 0);
    AskedIsQueued(one, "near", 0);
    assert one.jobs + [w] == two.jobs;
    CountOfPair(w, w, 0);
    ClaimOfFirst(two, [0, 1], "a");
    assert three.jobs == [Held("a"), w];
    CountOfPair(Held("a"), w, 0);
    ClaimOfFirst(three, [1], "b");
    assert LeaseTo(three, 1, 0, "b", 0).jobs == TwiceHeld().jobs;
    assert LeaseTo(three, 1, 0, "b", 0) == TwiceHeld();
    RunCons(lib, three, acts[3], TwiceHeld(), []);
    RunCons(lib, two, acts[2], three, [acts[3]] + []);
    RunCons(lib, one, acts[1], two, [acts[2]] + ([acts[3]] + []));
    RunCons(lib, ready, acts[0], one, [acts[1]] + ([acts[2]] + ([acts[3]] + [])));
    assert acts == [acts[0]] + ([acts[1]] + ([acts[2]] + ([acts[3]] + [])));
  }

  /** A run to such an edit: an agent with room for two claims two jobs, and its
      cap is set to one. */
  lemma {:induction false} AnEditUndercuts()
    ensures var acts := Joined(2) + TwoClaims();
      && AdmissibleRun(PlainNames(), EMPTY, acts)
      && var s := Run(PlainNames(), EMPTY, acts);
         && WithinCaps(s) && Undercuts(PlainNames(), s, CAP_OF_ONE)
         && ActiveCount(After(PlainNames(), s, CAP_OF_ONE).jobs, 0) == 2
         && After(PlainNames(), s, CAP_OF_ONE).agents[0].maxConcurrency == 1
  {
    TwoClaimsHoldTwo();
    JoinedRun(2, TwoClaims());
    CountOfPair(Held("a"), Held("b"), 0);
  }

  /** A lease is only ever granted by a claim, to an agent that is switched on,
      while scanning is, for a job its own policy permits now, with fewer than
      its cap of jobs in hand - and a pinned job only to the agent it names. */
  lemma {:induction false} LeasesAreAuthorised(lib: TextLib, s: State, act: Action, i: JobId)
    requires Inv(s) && Admissible(s, act) && i < |s.jobs|
    requires i < |After(lib, s, act).jobs|
    requires !s.jobs[i].state.Held() && After(lib, s, act).jobs[i].state.Held()
    ensures act.Claim? && act.agent < |s.agents| && s.scanning && !s.agents[act.agent].status.Disabled?
    ensures After(lib, s, act).jobs[i].agentId == Some(act.agent)
    ensures After(lib, s, act).jobs[i].leaseToken == Some(act.token)
    ensures MayRun(lib, s, s.agents[act.agent], s.jobs[i])
    ensures ActiveCount(s.jobs, act.agent) < s.agents[act.agent].maxConcurrency
    ensures s.jobs[i].requestedAgentId in {None, Some(act.agent)}
  {
    StepEvolves(lib, s, act, i);
    assert JobOk(s.jobs[i]);
  }

  lemma {:induction false} HeldUntil(lib: TextLib, s: State, act: Action, i: JobId)
    requires Inv(s) && Admissible(s, act) && i < |s.jobs|
    requires act.Claim? || act.Extend?
    requires act.agent < |s.agents| && Step(lib, s, act).Ok?
    requires if act.Claim? then ClaimedRow(lib, s, act.agent, act.candidates) == Some(i) else act.job == i
    ensures var t := After(lib, s, act);
      && i < |t.jobs| && t.jobs[i].state.Held() && t.jobs[i].leaseToken.Some?
      && t.jobs[i].leaseExpiresAt == Some(act.now + s.agents[act.agent].leaseSeconds)
  {
    assert JobOk(s.jobs[i]);
    if act.Claim? {
      assert After(lib, s, act) == LeaseTo(s, i, act.agent, act.token, act.now);
    } else {
      WriteIsGuarded(s, act);
    }
  }

  lemma {:induction false} ReapedAfter(lib: TextLib, t: State, i: JobId, expires: int, later: int)
    requires i < |t.jobs| && t.jobs[i].state.Held() && t.jobs[i].leaseToken.Some?
    requires t.jobs[i].leaseExpiresAt == Some(expires)
    ensures var reaped := After(lib, t, ReapExpired(later));
      && i < |reaped.jobs|
      && (reaped.jobs[i] == t.jobs[i] <==> later <= expires)
      && (reaped.jobs[i].leaseToken.None? <==> later > expires)
  {
    assert After(lib, t, ReapExpired(later)).jobs[i] == ReapRow(t.jobs[i], later);
  }

  /** A lease lasts exactly as long as it was granted for: with nothing in between,
      a reap leaves the row alone up to and including the moment of expiry, and
      takes the lease away at any later one. */
  lemma {:induction false} LeaseLastsExactly(lib: TextLib, s: State, act: Action, i: JobId, later: int)
    requires Inv(s) && Admissible(s, act) && i < |s.jobs|
    requires act.Claim? || act.Extend?
    requires act.agent < |s.agents| && Step(lib, s, act).Ok?
    requires if act.Claim? then ClaimedRow(lib, s, act.agent, act.candidates) == Some(i) else act.job == i
    ensures var t := After(lib, s, act);
      var reaped := After(lib, t, ReapExpired(later));
      && i < |t.jobs| && i < |reaped.jobs| && t.jobs[i].leaseToken.Some?
      && (reaped.jobs[i] == t.jobs[i] <==> later <= act.now + s.agents[act.agent].leaseSeconds)
      && (reaped.jobs[i].leaseToken.None? <==> later > act.now + s.agents[act.agent].leaseSeconds)
  {
    HeldUntil(lib, s, act, i);
    ReapedAfter(lib, After(lib, s, act), i, act.now + s.agents[act.agent].leaseSeconds, later);
  }
}
