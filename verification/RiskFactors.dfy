/** What each fact of a finding is worth, by the rank of the level it is at. */
module RiskFactors {
  import opened Arithmetic
  import opened Risk
  import opened Wrappers

  // ---------------------------------------------------------------- ranks --

  /** How severe a named level is among its kind; another name counts as the level
      given last. */
  function CriticalityRank(s: string): nat {
    if s == "low" then 0 else if s == "high" then 2 else if s == "critical" then 3 else 1 // medium
  }

  function ClassificationRank(s: string): nat {
    if s == "public" then 0 else if s == "confidential" then 2 else if s == "restricted" then 3 else 1 // internal
  }

  function EnvironmentRank(s: string): nat {
    if s in {"test", "development"} then 0 else if s == "dr" then 2 else if s == "production" then 3 else 1 // staging
  }

  function ExposureRank(s: string): nat {
    if s == "isolated" then 0 else if s == "partner" then 2 else if s == "internet" then 3 else 1 // internal
  }

  function VectorRank(s: string): nat {
    if s == "P" then 1 else if s == "L" then 2 else if s == "A" then 3 else if s == "N" then 4 else 0 // unknown
  }

  function ExploitRank(d: Input): nat {
    if d.activeExploitation then 3 else if d.exploitKnown || d.exploitMaturity == "A" then 2
    else if d.exploitMaturity == "P" then 1 else 0
  }

  function RevenueRank(perHour: int): nat {
    if perHour < 100 then 0 else if perHour < 1_000 then 1 else if perHour < 10_000 then 2
    else if perHour < 100_000 then 3 else 4
  }

  /** Open to anyone who can reach it, with nobody's help. */
  predicate Unattended(d: Input) {
    d.privilegesRequired == "N" && d.userInteraction in {None, Some("N")}
  }

  const CONTROLS: seq<string> :=
    ["mfa", "ips", "edr", "waf", "network_segmentation", "config_workaround", "vendor_mitigation_applied",
     "not_reachable"]

  // -------------------------------------------------------------- what it is worth --

  lemma {:induction false} CriticalityIsWorth(s: string)
    ensures CriticalityWeight(s) == 0.25 * (1 + CriticalityRank(s)) as real
  {
  }

  lemma {:induction false} ClassificationIsWorth(s: string)
    ensures ClassificationWeight(s) * 25.0 == [5.0, 12.5, 20.0, 25.0][ClassificationRank(s)]
  {
  }

  lemma {:induction false} EnvironmentIsWorth(s: string)
    ensures EnvironmentWeight(s) * 10.0 == [3.0, 5.0, 8.0, 10.0][EnvironmentRank(s)]
  {
  }

  lemma {:induction false} RevenueIsWorth(perHour: int)
    ensures (if perHour == 0 then 0.0 else RevenuePoints(perHour)) == [0.0, 2.0, 4.0, 7.0, 10.0][RevenueRank(perHour)]
  {
  }

  /** What the service an asset carries adds. */
  function ServiceSteps(d: Input): int {
    if d.serviceCriticality == "" then 0
    else Max(0, CriticalityRank(d.serviceCriticality) - CriticalityRank(d.assetCriticality))
  }

  lemma {:induction false} ServiceIsWorth(d: Input)
    ensures ServiceBonus(d) == 2.5 * ServiceSteps(d) as real
  {
    CriticalityIsWorth(d.serviceCriticality);
    CriticalityIsWorth(d.assetCriticality);
  }

  /** 13.75 points for each level of criticality; a service the asset carries adds
      2.5 for each level it is above the asset. */
  lemma {:induction false} BusinessAddsUp(d: Input)
    ensures BusinessPoints(d) ==
            13.75 * (1 + CriticalityRank(d.assetCriticality)) as real
            + [5.0, 12.5, 20.0, 25.0][ClassificationRank(d.dataClassification)]
            + [3.0, 5.0, 8.0, 10.0][EnvironmentRank(d.environment)]
            + 2.5 * ServiceSteps(d) as real
            + [0.0, 2.0, 4.0, 7.0, 10.0][RevenueRank(d.revenuePerHour)]
    ensures Business(d) == (if BusinessPoints(d) > 100.0 then 100.0 else BusinessPoints(d))
  {
    CriticalityIsWorth(d.assetCriticality);
    ClassificationIsWorth(d.dataClassification);
    EnvironmentIsWorth(d.environment);
    RevenueIsWorth(d.revenuePerHour);
    ServiceIsWorth(d);
    assert BusinessPoints(d) >= 0.0;
  }

  /** So one level of criticality is worth 13.75 points, if no service adds to it. */
  lemma {:induction false} OneLevelOfCriticality(d: Input, higher: string)
    requires d.serviceCriticality == ""
    requires CriticalityRank(higher) == CriticalityRank(d.assetCriticality) + 1
    ensures BusinessPoints(d.(assetCriticality := higher)) == BusinessPoints(d) + 13.75
  {
    BusinessAddsUp(d);
    BusinessAddsUp(d.(assetCriticality := higher));
  }

  lemma {:induction false} ReachAddsUp(d: Input)
    ensures ReachPoints(d) ==
            [6.0, 24.0, 42.0, 60.0][ExposureRank(d.exposure)]
            + [0.0, 2.0, 8.0, 15.0, 25.0][VectorRank(d.attackVector)]
            + (if Unattended(d) then 15.0 else 0.0)
    ensures 0.0 < ReachPoints(d) <= 100.0
  {
  }

  /** Each documented control takes off its share, the more the later it is listed;
      an unknown one nothing. */
  lemma {:induction false} EachControlCredits(key: string)
    ensures ControlCredit("mfa") == 0.1 && ControlCredit("ips") == ControlCredit("edr") == 0.15
    ensures ControlCredit("waf") == 0.2
    ensures ControlCredit("network_segmentation") == ControlCredit("config_workaround") == 0.25
    ensures ControlCredit("vendor_mitigation_applied") == 0.3 && ControlCredit("not_reachable") == 0.4
    ensures key !in CONTROLS ==> ControlCredit(key) == 0.0
  {
    assert CONTROLS[0] == "mfa" && CONTROLS[1] == "ips" && CONTROLS[2] == "edr" && CONTROLS[3] == "waf";
    assert CONTROLS[4] == "network_segmentation" && CONTROLS[5] == "config_workaround";
    assert CONTROLS[6] == "vendor_mitigation_applied" && CONTROLS[7] == "not_reachable";
  }

  lemma {:induction false} CreditOfOneMore(controls: seq<string>, key: string)
    ensures Credit(controls + [key]) == Credit(controls) + ControlCredit(key) && Credit([]) == 0.0
  {
    assert (controls + [key])[..|controls|] == controls;
  }

  /** Controls take off that share of the reach, but no more than the cap. */
  lemma {:induction false} ControlsScaleTheReach(d: Input, o: Options)
    requires ValidOptions(o) && o.controlCreditCap <= 1.0
    ensures var share := if Credit(d.controls) < o.controlCreditCap then Credit(d.controls) else o.controlCreditCap;
      Exposure(d, o) == ReachPoints(d) - Times(ReachPoints(d), share)
  {
    ReachAddsUp(d);
    var share := if Credit(d.controls) < o.controlCreditCap then Credit(d.controls) else o.controlCreditCap;
    ShareOf(ReachPoints(d), share);
    if Credit(d.controls) == 0.0 { TimesZero(ReachPoints(d)); }
  }

  lemma {:induction false} ShareOf(reach: real, share: real)
    requires 0.0 <= reach && 0.0 <= share <= 1.0
    ensures 0.0 <= Times(reach, share) <= reach
  {
  }

  /** An unscored finding counts as a score of 4; otherwise ten points for each. */
  lemma {:induction false} TechnicalIs(d: Input)
    requires Valid(d)
    ensures d.cvss.None? ==> Technical(d) == 40.0
    ensures d.cvss.Some? ==> Technical(d) == (if d.cvss.value > 10.0 then 100.0 else 10.0 * d.cvss.value)
  {
  }

  /** 60 points for a certain exploit, through the square root of its chance; 30 for
      one the CISA lists; 5 for each step of what is known of it. */
  lemma {:induction false} ExploitabilityAddsUp(d: Input)
    ensures ExploitabilityPoints(d) ==
            (if d.epss.Some? then 60.0 * d.epss.value.root else 0.0) + (if d.kev then 30.0 else 0.0)
            + 5.0 * ExploitRank(d) as real
    ensures Valid(d) ==>
              Exploitability(d) == (if ExploitabilityPoints(d) > 100.0 then 100.0 else ExploitabilityPoints(d))
  {
  }

  /** The lines of an explanation add up by their points. */
  lemma {:induction false} PointsAddUp(factors: seq<Factor>, f: Factor)
    ensures SumPoints(factors + [f]) == SumPoints(factors) + f.points && SumPoints([]) == 0.0
  {
    assert (factors + [f])[..|factors|] == factors;
  }

  // ------------------------------------------------------------- the whole --

  /** The base score weighs the four; equal ones give that, and each moves it by its
      own share of the weights. */
  lemma {:induction false} MeanWeighsEach(t: real, e: real, b: real, x: real, more: real, w: Weights)
    requires w.technical + w.exploitability + w.business + w.exposure != 0.0
    ensures TotalWeight(w) != 0.0 && Mean(t, t, t, t, w) == t
    ensures Mean(t + more, e, b, x, w) == Mean(t, e, b, x, w) + Over(Times(more, w.technical), TotalWeight(w))
    ensures Mean(t, e + more, b, x, w) == Mean(t, e, b, x, w) + Over(Times(more, w.exploitability), TotalWeight(w))
    ensures Mean(t, e, b + more, x, w) == Mean(t, e, b, x, w) + Over(Times(more, w.business), TotalWeight(w))
    ensures Mean(t, e, b, x + more, w) == Mean(t, e, b, x, w) + Over(Times(more, w.exposure), TotalWeight(w))
  {
    var total := TotalWeight(w);
    assert Sum(t, t, t, t, w) == t * total;
    OverOfSum(Sum(t, e, b, x, w), Times(more, w.technical), total);
    OverOfSum(Sum(t, e, b, x, w), Times(more, w.exploitability), total);
    OverOfSum(Sum(t, e, b, x, w), Times(more, w.business), total);
    OverOfSum(Sum(t, e, b, x, w), Times(more, w.exposure), total);
  }

  lemma {:induction false} OverOfSum(a: real, b: real, w: real)
    requires w != 0.0
    ensures Over(a + b, w) == Over(a, w) + Over(b, w)
  {
  }

  /** The floors raise a score to the highest that applies and never lower it. */
  lemma {:induction false} FloorsRaise(d: Input, o: Options, base: real)
    ensures var score := Floored(d, o, base);
      var kev := if ExposureRank(d.exposure) == 3 then o.internetKevFloor else o.kevFloor;
      && score >= base && (d.kev ==> score >= kev) && (d.activeExploitation ==> score >= o.activeExploitationFloor)
      && (score == base || (d.kev && score == kev) || (d.activeExploitation && score == o.activeExploitationFloor))
  {
  }

  /** Whole days since it was detected, none before that; or what the caller says
      of one that was never detected. */
  lemma {:induction false} AgeIsWholeDays(d: Input)
    ensures AgeDays(d) == 0 || d.detectedAt.Some? || d.vulnerabilityAgeDays == Some(AgeDays(d))
    ensures d.detectedAt.Some? ==>
              var open := d.now - d.detectedAt.value;
              if open < 0 then AgeDays(d) == 0
              else AgeDays(d) * 86_400_000_000 <= open < (AgeDays(d) + 1) * 86_400_000_000
    ensures d.detectedAt.None? && d.vulnerabilityAgeDays.Some? ==> AgeDays(d) == d.vulnerabilityAgeDays.value
  {
  }

  /** Every full thirty days cost the rate, twice that past the deadline, up to the
      cap; the first thirty cost nothing. */
  lemma {:induction false} AgeCosts(d: Input, o: Options, blocks: nat)
    requires ValidOptions(o) && 30 * blocks <= AgeDays(d) < 30 * blocks + 30
    ensures var rate := if d.slaDueAt.Some? && d.slaDueAt.value < d.now then o.agePenaltyPer30d + o.agePenaltyPer30d
                        else o.agePenaltyPer30d;
      var full := Times(blocks as real, rate);
      Penalty(d, o) == (if full < o.agePenaltyCap then full else o.agePenaltyCap)
  {
    assert AgeDays(d) / 30 == blocks;
  }

  /** An unexploited finding of score 0 counts for nothing where the tenant says so;
      to any other the floors apply first and its age is added to that. */
  lemma {:induction false} SettledIs(d: Input, o: Options, base: real)
    ensures o.zeroCvssIsInformational && d.cvss == Some(0.0) && !(d.kev || d.activeExploitation) ==>
              Settled(d, o, base) == 0.0
    ensures !o.zeroCvssIsInformational || d.cvss != Some(0.0) || d.kev || d.activeExploitation ==>
              Settled(d, o, base) == Floored(d, o, base) + Penalty(d, o)
  {
  }

  const BANDS: seq<real> := [10.0, 40.0, 70.0, 90.0]

  /** The level says how many of the four thresholds the score has reached. */
  lemma {:induction false} LevelCountsBands(score: real, n: nat)
    requires n <= 4 && (forall i :: 0 <= i < n ==> score >= BANDS[i]) && (n < 4 ==> score < BANDS[n])
    ensures Rank(LevelFor(score)) == n
  {
    if n > 0 { assert score >= BANDS[n - 1]; }
  }

  // -------------------------------------------------- the default profile --

  /** A published exploit of score 8 on a critical production server open to the
      internet, found `days` ago. */
  function Typical(days: int): Input {
    Input(Some(8.0), "N", "N", None, Some(Epss(0.25, 0.5)), false, false, "P", false,
          "critical", "internal", "production", "", 0, "internet", [], Some(0), None, None, days * DAY)
  }

  lemma {:induction false} TypicalScores(d: Input)
    requires d == Typical(d.now / DAY).(now := d.now)
    ensures Technical(d) == 80.0 && Exploitability(d) == 35.0 && Business(d) == 77.5
    ensures Exposure(d, DEFAULT_OPTIONS) == 100.0
  {
    BusinessAddsUp(d);
    ReachAddsUp(d);
    ExploitabilityAddsUp(d);
    assert Credit([]) == 0.0;
  }

  lemma {:induction false} DefaultMean(t: real, e: real, b: real, x: real)
    ensures TotalWeight(DEFAULT_WEIGHTS) == 1.0
    ensures Mean(t, e, b, x, DEFAULT_WEIGHTS) == 0.3 * t + 0.3 * e + 0.25 * b + 0.15 * x
  {
    assert Over(0.3 * t + 0.3 * e + 0.25 * b + 0.15 * x, 1.0) == 0.3 * t + 0.3 * e + 0.25 * b + 0.15 * x;
  }

  /** By the default weights it stands at 68.875 when found, and three points higher
      for each thirty days, up to fifteen. Known exploitation puts it at 90 or
      more, active exploitation at 80 or more. */
  lemma {:induction false} ATypicalFinding(days: nat)
    ensures TotalWeight(DEFAULT_WEIGHTS) != 0.0
    ensures var age := if days / 30 < 5 then 3.0 * (days / 30) as real else 15.0;
      && Raw(Typical(days), DEFAULT_WEIGHTS, DEFAULT_OPTIONS) == 68.875 + age
      && Settled(Typical(days).(kev := true), DEFAULT_OPTIONS, 68.875) == 90.0 + age
      && Settled(Typical(days).(activeExploitation := true), DEFAULT_OPTIONS, 68.875) == 80.0 + age
      && Settled(Typical(days).(kev := true, exposure := "partner"), DEFAULT_OPTIONS, 68.875) == 75.0 + age
  {
    var d := Typical(days);
    assert AgeDays(d) == days;
    TypicalScores(d);
    DefaultMean(80.0, 35.0, 77.5, 100.0);
    AgeCosts(d, DEFAULT_OPTIONS, days / 30);
    AgeCosts(d.(kev := true), DEFAULT_OPTIONS, days / 30);
    AgeCosts(d.(activeExploitation := true), DEFAULT_OPTIONS, days / 30);
    AgeCosts(d.(kev := true, exposure := "partner"), DEFAULT_OPTIONS, days / 30);
    assert Times((days / 30) as real, 3.0) == 3.0 * (days / 30) as real;
  }

  /** Controls take off at most half of the reach by default, and a score of 0 is
      informational. */
  lemma {:induction false} DefaultsOfControls(d: Input)
    requires Credit(d.controls) >= 0.5
    ensures Exposure(d, DEFAULT_OPTIONS) == ReachPoints(d) / 2.0
    ensures DEFAULT_OPTIONS.zeroCvssIsInformational
  {
    ControlsScaleTheReach(d, DEFAULT_OPTIONS);
  }
}
