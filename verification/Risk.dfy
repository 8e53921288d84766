/** The risk score of one finding, over exact reals. */
module Risk {
  import opened Arithmetic
  import opened Wrappers

  // --------------------------------------------------------------- inputs --

  /** An EPSS score and its square root. */
  datatype Epss = Epss(score: real, root: real)

  datatype Weights = Weights(technical: real, exploitability: real, business: real, exposure: real)

  const DEFAULT_WEIGHTS := Weights(0.30, 0.30, 0.25, 0.15)

  datatype Options = Options(
    kevFloor: real,
    internetKevFloor: real,
    activeExploitationFloor: real,
    agePenaltyPer30d: real,
    agePenaltyCap: real,
    controlCreditCap: real,
    zeroCvssIsInformational: bool)

  const DEFAULT_OPTIONS := Options(75.0, 90.0, 80.0, 3.0, 15.0, 0.5, true)

  const DAY: int := 86_400_000_000

  datatype Input = Input(
    cvss: Option<real>,
    attackVector: string,
    privilegesRequired: string,
    userInteraction: Option<string>,
    epss: Option<Epss>,
    kev: bool,
    exploitKnown: bool,
    exploitMaturity: string,
    activeExploitation: bool,
    assetCriticality: string,
    dataClassification: string,
    environment: string,
    serviceCriticality: string,
    revenuePerHour: int,
    exposure: string,
    controls: seq<string>,
    detectedAt: Option<int>,
    slaDueAt: Option<int>,
    vulnerabilityAgeDays: Option<int>,
    now: int)

  ghost predicate Valid(d: Input) {
    && (d.cvss.Some? ==> d.cvss.value >= 0.0)
    && (d.epss.Some? ==> d.epss.value.root >= 0.0 && d.epss.value.root * d.epss.value.root == d.epss.value.score)
  }

  ghost predicate NonNegative(w: Weights) {
    w.technical >= 0.0 && w.exploitability >= 0.0 && w.business >= 0.0 && w.exposure >= 0.0
  }

  ghost predicate ValidOptions(o: Options) {
    && 0.0 <= o.kevFloor <= 100.0 && 0.0 <= o.internetKevFloor <= 100.0
    && 0.0 <= o.activeExploitationFloor <= 100.0
    && o.agePenaltyPer30d >= 0.0 && o.agePenaltyCap >= 0.0 && o.controlCreditCap >= 0.0
  }

  function Clamp(x: real): (r: real)
    ensures 0.0 <= r <= 100.0
  {
    if x < 0.0 then 0.0 else if x > 100.0 then 100.0 else x
  }

  /** A product and a quotient, named so that proofs can treat them whole. */
  function Times(a: real, b: real): real { a * b }

  function Over(a: real, b: real): real
    requires b != 0.0
  {
    a / b
  }

  // --------------------------------------------------------------- tables --

  function CriticalityWeight(s: string): real {
    if s == "critical" then 1.0 else if s == "high" then 0.75 else if s == "medium" then 0.5
    else if s == "low" then 0.25 else 0.5
  }

  function ClassificationWeight(s: string): real {
    if s == "restricted" then 1.0 else if s == "confidential" then 0.8 else if s == "internal" then 0.5
    else if s == "public" then 0.2 else 0.5
  }

  function EnvironmentWeight(s: string): real {
    if s == "production" then 1.0 else if s == "dr" then 0.8 else if s == "staging" then 0.5
    else if s == "test" || s == "development" then 0.3 else 0.5
  }

  function ExposureWeight(s: string): real {
    if s == "internet" then 1.0 else if s == "partner" then 0.7 else if s == "internal" then 0.4
    else if s == "isolated" then 0.1 else 0.4
  }

  function VectorPoints(s: string): real {
    if s == "N" then 25.0 else if s == "A" then 15.0 else if s == "L" then 8.0 else if s == "P" then 2.0 else 0.0
  }

  function RevenuePoints(perHour: int): real {
    if perHour >= 100_000 then 10.0 else if perHour >= 10_000 then 7.0 else if perHour >= 1_000 then 4.0
    else if perHour >= 100 then 2.0 else 0.0
  }

  function ControlCredit(key: string): real {
    if key == "waf" then 0.20 else if key == "ips" then 0.15 else if key == "edr" then 0.15
    else if key == "network_segmentation" then 0.25 else if key == "mfa" then 0.10
    else if key == "not_reachable" then 0.40 else if key == "vendor_mitigation_applied" then 0.30
    else if key == "config_workaround" then 0.25 else 0.0
  }

  // ----------------------------------------------------------- sub-scores --

  function TechnicalPoints(d: Input): real {
    if d.cvss.None? then 40.0 else d.cvss.value * 10.0
  }

  function Technical(d: Input): real {
    Clamp(TechnicalPoints(d))
  }

  function EpssPoints(d: Input): real {
    if d.epss.Some? then d.epss.value.root * 60.0 else 0.0
  }

  function ExploitPoints(d: Input): real {
    if d.activeExploitation then 15.0
    else if d.exploitKnown || d.exploitMaturity == "A" then 10.0
    else if d.exploitMaturity == "P" then 5.0
    else 0.0
  }

  function ExploitabilityPoints(d: Input): real {
    EpssPoints(d) + (if d.kev then 30.0 else 0.0) + ExploitPoints(d)
  }

  function Exploitability(d: Input): real {
    Clamp(ExploitabilityPoints(d))
  }

  function ServiceBonus(d: Input): real {
    if d.serviceCriticality == "" then 0.0
    else MaxReal(0.0, CriticalityWeight(d.serviceCriticality) - CriticalityWeight(d.assetCriticality)) * 10.0
  }

  function BusinessPoints(d: Input): real {
    CriticalityWeight(d.assetCriticality) * 55.0 + ClassificationWeight(d.dataClassification) * 25.0
    + EnvironmentWeight(d.environment) * 10.0 + ServiceBonus(d)
    + if d.revenuePerHour == 0 then 0.0 else RevenuePoints(d.revenuePerHour)
  }

  function Business(d: Input): real {
    Clamp(BusinessPoints(d))
  }

  predicate MassExploitable(d: Input) {
    d.privilegesRequired == "N" && (d.userInteraction == None || d.userInteraction == Some("N"))
  }

  function ReachPoints(d: Input): real {
    ExposureWeight(d.exposure) * 60.0 + VectorPoints(d.attackVector) + if MassExploitable(d) then 15.0 else 0.0
  }

  function Credit(controls: seq<string>): (c: real)
    ensures c >= 0.0
  {
    if controls == [] then 0.0 else Credit(controls[..|controls| - 1]) + ControlCredit(controls[|controls| - 1])
  }

  /** What documented controls take off. */
  function Reduction(d: Input, o: Options): real {
    if Credit(d.controls) == 0.0 then 0.0
    else Times(Clamp(ReachPoints(d)), MinReal(Credit(d.controls), o.controlCreditCap))
  }

  function Exposure(d: Input, o: Options): real {
    Clamp(Clamp(ReachPoints(d)) - Reduction(d, o))
  }

  // -------------------------------------------------------------- overall --

  function TotalWeight(w: Weights): real {
    var total := w.technical + w.exploitability + w.business + w.exposure;
    if total == 0.0 then 1.0 else total
  }

  function Sum(technical: real, exploitability: real, business: real, exposure: real, w: Weights): real {
    Times(technical, w.technical) + Times(exploitability, w.exploitability) + Times(business, w.business)
    + Times(exposure, w.exposure)
  }

  function Mean(technical: real, exploitability: real, business: real, exposure: real, w: Weights): real
    requires TotalWeight(w) != 0.0
  {
    Over(Sum(technical, exploitability, business, exposure, w), TotalWeight(w))
  }

  function Base(d: Input, w: Weights, o: Options): real
    requires TotalWeight(w) != 0.0
  {
    Mean(Technical(d), Exploitability(d), Business(d), Exposure(d, o), w)
  }

  function KevFloor(d: Input, o: Options): real {
    if d.exposure == "internet" then o.internetKevFloor else o.kevFloor
  }

  function Floored(d: Input, o: Options, base: real): real {
    var afterKev := if d.kev then MaxReal(base, KevFloor(d, o)) else base;
    if d.activeExploitation then MaxReal(afterKev, o.activeExploitationFloor) else afterKev
  }

  /** Days open, or 0: a missing age and an age of zero both count for nothing. */
  function AgeDays(d: Input): int {
    if d.detectedAt.Some? then
      var days := (d.now - d.detectedAt.value) / DAY;
      if days < 0 then 0 else days
    else if d.vulnerabilityAgeDays.Some? then d.vulnerabilityAgeDays.value
    else 0
  }

  predicate Overdue(d: Input) {
    d.slaDueAt.Some? && d.now > d.slaDueAt.value
  }

  function Rate(d: Input, o: Options): real {
    if Overdue(d) then o.agePenaltyPer30d * 2.0 else o.agePenaltyPer30d
  }

  function Penalty(d: Input, o: Options): real {
    var blocks := AgeDays(d) / 30;
    if blocks == 0 then 0.0 else MinReal(Times(blocks as real, Rate(d, o)), o.agePenaltyCap)
  }

  predicate Informational(d: Input, o: Options) {
    o.zeroCvssIsInformational && d.cvss == Some(0.0) && !d.kev && !d.activeExploitation
  }

  /** The floors, the age penalty and the zero-CVSS rule, in that order. */
  function Settled(d: Input, o: Options, base: real): real {
    if Informational(d, o) then 0.0 else Floored(d, o, base) + Penalty(d, o)
  }

  /** The score before clamping and rounding. */
  function Raw(d: Input, w: Weights, o: Options): real
    requires TotalWeight(w) != 0.0
  {
    Settled(d, o, Base(d, w, o))
  }

  /** Rounding moves a value by at most half a unit. */
  ghost predicate Near(round: real -> real, unit: real) {
    forall x :: x - unit / 2.0 <= round(x) <= x + unit / 2.0
  }

  ghost predicate OnGrid(x: real, unit: real) {
    unit != 0.0 && (x / unit) == (x / unit).Floor as real
  }

  /** Rounding to one decimal keeps order and leaves tenths as they are. */
  ghost predicate ToTenths(round: real -> real) {
    && Near(round, 0.1)
    && (forall x, y :: x <= y ==> round(x) <= round(y))
    && (forall x :: OnGrid(x, 0.1) ==> round(x) == x)
  }

  function Score(d: Input, w: Weights, o: Options, round: real -> real): real
    requires TotalWeight(w) != 0.0
  {
    round(Clamp(Raw(d, w, o)))
  }

  datatype Level = Informal | Low | Medium | High | Critical

  function LevelFor(score: real): Level {
    if score >= 90.0 then Critical else if score >= 70.0 then High else if score >= 40.0 then Medium
    else if score >= 10.0 then Low else Informal
  }

  function Rank(l: Level): int {
    match l case Informal => 0 case Low => 1 case Medium => 2 case High => 3 case Critical => 4
  }

  // ---------------------------------------------------- the code's own way --

  /** A line of the explanation, its points as recorded. */
  datatype Factor = Factor(name: string, points: real)

  datatype Adjustment =
    | Raised(rule: string, from: real, to: real)
    | Added(rule: string, points: real)

  function SumPoints(factors: seq<Factor>): real {
    if factors == [] then 0.0 else SumPoints(factors[..|factors| - 1]) + factors[|factors| - 1].points
  }

  /** The recorded points add up to `total`, give or take a half cent each. */
  ghost predicate Explains(factors: seq<Factor>, total: real) {
    var slack := 0.005 * |factors| as real;
    total - slack <= SumPoints(factors) <= total + slack
  }

  lemma {:induction false} ExplainsOneMore(factors: seq<Factor>, total: real, name: string, points: real,
      cents: real -> real)
    requires Explains(factors, total) && Near(cents, 0.01)
    ensures Explains(factors + [Factor(name, cents(points))], total + points)
  {
    var more := factors + [Factor(name, cents(points))];
    assert more[..|more| - 1] == factors;
    assert points - 0.005 <= cents(points) <= points + 0.005;
  }

  lemma {:induction false} ExplainsExactly(factors: seq<Factor>, total: real, name: string, points: real)
    requires Explains(factors, total)
    ensures Explains(factors + [Factor(name, points)], total + points)
  {
    var more := factors + [Factor(name, points)];
    assert more[..|more| - 1] == factors;
  }

  /** Append a line whose points are rounded to two decimals. */
  method Note(factors: seq<Factor>, ghost total: real, name: string, points: real, cents: real -> real)
    returns (more: seq<Factor>)
    requires Explains(factors, total) && Near(cents, 0.01)
    ensures Explains(more, total + points) && factors <= more
  {
    ExplainsOneMore(factors, total, name, points, cents);
    more := factors + [Factor(name, cents(points))];
  }

  /** Append a line whose points are recorded as they are. */
  method NoteExactly(factors: seq<Factor>, ghost total: real, name: string, points: real)
    returns (more: seq<Factor>)
    requires Explains(factors, total)
    ensures Explains(more, total + points) && factors <= more
  {
    ExplainsExactly(factors, total, name, points);
    more := factors + [Factor(name, points)];
  }

  method TechnicalRisk(d: Input, cents: real -> real) returns (score: real, factors: seq<Factor>)
    requires Near(cents, 0.01)
    ensures score == Technical(d)
    ensures Explains(factors, TechnicalPoints(d))
  {
    if d.cvss.None? {
      factors := NoteExactly([], 0.0, "cvss", 40.0);
      return 40.0, factors;
    }
    var points := d.cvss.value * 10.0;
    factors := Note([], 0.0, "cvss", points, cents);
    score := Clamp(points);
  }

  method ExploitabilityRisk(d: Input, cents: real -> real) returns (score: real, factors: seq<Factor>)
    requires Near(cents, 0.01)
    ensures score == Exploitability(d)
    ensures Explains(factors, ExploitabilityPoints(d))
  {
    score, factors := 0.0, [];
    if d.epss.Some? {
      var epssPoints := d.epss.value.root * 60.0;
      factors := Note(factors, score, "epss", epssPoints, cents);
      score := score + epssPoints;
    } else {
      factors := NoteExactly(factors, score, "epss", 0.0);
    }
    if d.kev {
      factors := NoteExactly(factors, score, "cisa_kev", 30.0);
      score := score + 30.0;
    }
    if d.activeExploitation {
      factors := NoteExactly(factors, score, "active_exploitation", 15.0);
      score := score + 15.0;
    } else if d.exploitKnown || d.exploitMaturity == "A" {
      factors := NoteExactly(factors, score, "exploit_available", 10.0);
      score := score + 10.0;
    } else if d.exploitMaturity == "P" {
      factors := NoteExactly(factors, score, "exploit_proof_of_concept", 5.0);
      score := score + 5.0;
    }
    score := Clamp(score);
  }

  method BusinessRisk(d: Input, cents: real -> real) returns (score: real, factors: seq<Factor>)
    requires Near(cents, 0.01)
    ensures score == Business(d)
    ensures Explains(factors, BusinessPoints(d))
  {
    var criticality := CriticalityWeight(d.assetCriticality) * 55.0;
    var classification := ClassificationWeight(d.dataClassification) * 25.0;
    var environment := EnvironmentWeight(d.environment) * 10.0;
    score := criticality + classification + environment;
    factors := Note([], 0.0, "asset_criticality", criticality, cents);
    factors := Note(factors, criticality, "data_classification", classification, cents);
    factors := Note(factors, criticality + classification, "environment", environment, cents);
    if d.serviceCriticality != "" {
      var bonus := ServiceBonus(d);
      factors := Note(factors, score, "business_service_criticality", bonus, cents);
      score := score + bonus;
    }
    if d.revenuePerHour != 0 {
      var bonus := RevenuePoints(d.revenuePerHour);
      factors := NoteExactly(factors, score, "revenue_per_hour", bonus);
      score := score + bonus;
    }
    score := Clamp(score);
  }

  /** The points before any control counts. */
  method Reach(d: Input, cents: real -> real) returns (score: real, factors: seq<Factor>)
    requires Near(cents, 0.01)
    ensures score == ReachPoints(d) && Explains(factors, score)
  {
    score := ExposureWeight(d.exposure) * 60.0;
    factors := Note([], 0.0, "exposure", score, cents);
    if d.attackVector in {"N", "A", "L", "P"} {
      factors := NoteExactly(factors, score, "attack_vector", VectorPoints(d.attackVector));
      score := score + VectorPoints(d.attackVector);
    }
    if MassExploitable(d) {
      factors := NoteExactly(factors, score, "unauthenticated_no_interaction", 15.0);
      score := score + 15.0;
    }
  }

  method SumCredit(controls: seq<string>) returns (credit: real)
    ensures credit == Credit(controls)
  {
    credit := 0.0;
    for i := 0 to |controls|
      invariant credit == Credit(controls[..i])
    {
      assert controls[..i + 1][..i] == controls[..i];
      credit := credit + ControlCredit(controls[i]);
    }
    assert controls[..|controls|] == controls;
  }

  /** -round(reduction, 2) */
  method NoteReduction(factors: seq<Factor>, ghost total: real, reduction: real, cents: real -> real)
    returns (more: seq<Factor>)
    requires Explains(factors, total) && Near(cents, 0.01)
    ensures Explains(more, total - reduction) && factors <= more
  {
    more := factors + [Factor("compensating_controls", -cents(reduction))];
    assert more[..|more| - 1] == factors;
    assert reduction - 0.005 <= cents(reduction) <= reduction + 0.005;
  }

  lemma {:induction false} TimesZero(a: real)
    ensures Times(a, 0.0) == 0.0
  {
  }

  method ExposureRisk(d: Input, o: Options, cents: real -> real) returns (score: real, factors: seq<Factor>)
    requires Near(cents, 0.01) && o.controlCreditCap >= 0.0
    ensures score == Exposure(d, o)
    ensures Explains(factors, ReachPoints(d) - Reduction(d, o))
  {
    score, factors := Reach(d, cents);
    ghost var reach := score;
    score := Clamp(score);
    var credit := SumCredit(d.controls);
    if credit != 0.0 {
      credit := MinReal(credit, o.controlCreditCap);
      var reduction := Times(score, credit);
      assert reduction == Reduction(d, o);
      factors := NoteReduction(factors, reach, reduction, cents);
      score := score - reduction;
    }
    score := Clamp(score);
  }
}
