/** Evaluating a finding as a whole, and what the score guarantees. */
module RiskScore {
  import opened Risk
  import opened RiskFactors
  import opened Arithmetic
  import opened Wrappers

  datatype Result = Result(
    score: real,
    level: Level,
    technical: real,
    exploitability: real,
    business: real,
    exposure: real,
    baseScore: real,
    adjustments: seq<Adjustment>)

  /** Following the recorded adjustments from a starting score. */
  function Replay(start: real, adjustments: seq<Adjustment>): real {
    if adjustments == [] then start
    else
      var before := Replay(start, adjustments[..|adjustments| - 1]);
      match adjustments[|adjustments| - 1]
      case Raised(_, _, to) => to
      case Added(_, points) => before + points
  }

  predicate Within(a: real, b: real, slack: real) {
    b - slack <= a <= b + slack
  }

  method RaiseTo(floor: real, rule: string, before: real, adjusted: seq<Adjustment>, baseScore: real,
                 cents: real -> real)
    returns (score: real, adjustments: seq<Adjustment>)
    requires Within(Replay(baseScore, adjusted), before, 0.005)
    ensures score == MaxReal(before, floor)
    ensures Within(Replay(baseScore, adjustments), score, 0.005)
  {
    score, adjustments := before, adjusted;
    if score < floor {
      adjustments := adjusted + [Raised(rule, cents(score), floor)];
      score := floor;
    }
  }

  method Floors(d: Input, o: Options, base: real, baseScore: real, cents: real -> real)
    returns (score: real, adjustments: seq<Adjustment>)
    requires Within(baseScore, base, 0.005)
    ensures score == Floored(d, o, base)
    ensures Within(Replay(baseScore, adjustments), score, 0.005)
  {
    score, adjustments := base, [];
    if d.kev {
      var rule := if d.exposure == "internet" then "internet_kev_floor" else "kev_floor";
      score, adjustments := RaiseTo(KevFloor(d, o), rule, score, adjustments, baseScore, cents);
    }
    if d.activeExploitation {
      score, adjustments :=
        RaiseTo(o.activeExploitationFloor, "active_exploitation_floor", score, adjustments, baseScore, cents);
    }
  }

  method AgePenalty(d: Input, o: Options) returns (penalty: real)
    ensures penalty == Penalty(d, o)
  {
    var ageDays := 0;
    if d.detectedAt.Some? {
      ageDays := (d.now - d.detectedAt.value) / DAY;
      if ageDays < 0 { ageDays := 0; }
    } else if d.vulnerabilityAgeDays.Some? {
      ageDays := d.vulnerabilityAgeDays.value;
    }
    penalty := 0.0;
    if ageDays != 0 {
      var overdue := d.slaDueAt.Some? && d.now > d.slaDueAt.value;
      var blocks := ageDays / 30;
      if blocks != 0 {
        var rate := if overdue then o.agePenaltyPer30d * 2.0 else o.agePenaltyPer30d;
        penalty := MinReal(Times(blocks as real, rate), o.agePenaltyCap);
      }
    }
  }

  method Combine(technical: real, exploitability: real, business: real, exposure: real, w: Weights)
    returns (base: real)
    requires TotalWeight(w) != 0.0
    ensures base == Mean(technical, exploitability, business, exposure, w)
  {
    var total := w.technical + w.exploitability + w.business + w.exposure;
    if total == 0.0 { total := 1.0; }
    base := Over(Times(technical, w.technical) + Times(exploitability, w.exploitability)
                 + Times(business, w.business) + Times(exposure, w.exposure), total);
  }

  method AddPenalty(before: real, adjusted: seq<Adjustment>, baseScore: real, penalty: real, cents: real -> real)
    returns (score: real, adjustments: seq<Adjustment>)
    requires Within(Replay(baseScore, adjusted), before, 0.005) && Near(cents, 0.01)
    ensures score == before + penalty
    ensures Within(Replay(baseScore, adjustments), score, 0.01)
  {
    score, adjustments := before, adjusted;
    if penalty != 0.0 {
      adjustments := adjusted + [Added("age_penalty", cents(penalty))];
      assert adjustments[..|adjustments| - 1] == adjusted;
      score := score + penalty;
    }
  }

  method Settle(d: Input, o: Options, base: real, baseScore: real, cents: real -> real)
    returns (score: real, adjustments: seq<Adjustment>)
    requires Within(baseScore, base, 0.005) && Near(cents, 0.01)
    ensures score == Settled(d, o, base)
    ensures Within(Replay(baseScore, adjustments), score, 0.01)
  {
    score, adjustments := Floors(d, o, base, baseScore, cents);
    var penalty := AgePenalty(d, o);
    score, adjustments := AddPenalty(score, adjustments, baseScore, penalty, cents);
    if o.zeroCvssIsInformational && d.cvss == Some(0.0) && !d.kev && !d.activeExploitation {
      adjustments := adjustments + [Raised("zero_cvss_is_informational", cents(score), 0.0)];
      score := 0.0;
    }
  }

  /** One finding. `tenth` rounds to one decimal, `cents` to two. */
  method Evaluate(d: Input, w: Weights, o: Options, tenth: real -> real, cents: real -> real) returns (r: Result)
    requires Near(cents, 0.01) && TotalWeight(w) != 0.0 && o.controlCreditCap >= 0.0
    ensures r.score == Score(d, w, o, tenth) && r.level == LevelFor(r.score)
    ensures r.technical == tenth(Technical(d)) && r.exploitability == tenth(Exploitability(d))
    ensures r.business == tenth(Business(d)) && r.exposure == tenth(Exposure(d, o))
    ensures Within(r.baseScore, Base(d, w, o), 0.005)
    ensures Within(Replay(r.baseScore, r.adjustments), Raw(d, w, o), 0.01)
  {
    var technical, why1 := TechnicalRisk(d, cents);
    var exploitability, why2 := ExploitabilityRisk(d, cents);
    var business, why3 := BusinessRisk(d, cents);
    var exposure, why4 := ExposureRisk(d, o, cents);
    var base := Combine(technical, exploitability, business, exposure, w);
    var baseScore := cents(base);
    var raw, adjustments := Settle(d, o, base, baseScore, cents);
    var score := tenth(Clamp(raw));
    r := Result(score, LevelFor(score), tenth(technical), tenth(exploitability), tenth(business), tenth(exposure),
                baseScore, adjustments);
  }

  // ---------------------------------------------------------------- bounds --

  lemma {:induction false} ScoreIsInRange(d: Input, w: Weights, o: Options, tenth: real -> real)
    requires ToTenths(tenth) && TotalWeight(w) != 0.0
    ensures 0.0 <= Score(d, w, o, tenth) <= 100.0
  {
    assert OnGrid(0.0, 0.1) && OnGrid(100.0, 0.1);
    assert tenth(0.0) == 0.0 && tenth(100.0) == 100.0;
  }

  lemma {:induction false} LevelsFollowScores(a: real, b: real)
    requires a <= b
    ensures Rank(LevelFor(a)) <= Rank(LevelFor(b))
  {
  }

  // ---------------------------------------------------------------- floors --

  lemma {:induction false} PenaltyIsNotNegative(d: Input, o: Options)
    requires ValidOptions(o) && AgeDays(d) >= 0
    ensures Penalty(d, o) >= 0.0
  {
    NonNegativeProduct((AgeDays(d) / 30) as real, Rate(d, o));
  }

  lemma {:induction false} NonNegativeProduct(a: real, b: real)
    requires a >= 0.0 && b >= 0.0
    ensures Times(a, b) >= 0.0
  {
  }

  /** A known-exploited finding never ends below its floor: not after the age
      penalty, the zero-CVSS rule, the clamp or the rounding. */
  lemma {:induction false} KevFloorHolds(d: Input, w: Weights, o: Options, tenth: real -> real)
    requires ToTenths(tenth) && TotalWeight(w) != 0.0 && ValidOptions(o)
    requires d.kev && AgeDays(d) >= 0
    ensures Score(d, w, o, tenth) >= tenth(KevFloor(d, o))
    ensures OnGrid(KevFloor(d, o), 0.1) ==> Score(d, w, o, tenth) >= KevFloor(d, o)
  {
    PenaltyIsNotNegative(d, o);
    assert Clamp(Raw(d, w, o)) >= KevFloor(d, o);
  }

  /** The score of a known-exploited finding before it is rounded. */
  ghost predicate FloorKept(d: Input, w: Weights, o: Options) {
    d.kev && NonNegative(w) && TotalWeight(w) != 0.0 ==> Clamp(Raw(d, w, o)) >= KevFloor(d, o)
  }

  /** The finding that the floor is all that holds up: known exploited, otherwise
      harmless, first seen `age` days ago by the caller's own count. */
  function Propped(age: int): Input {
    Input(Some(0.0), "", "", None, None, true, false, "", false, "low", "public", "test", "", 0, "isolated", [],
          None, None, Some(age), 0)
  }

  const NO_WEIGHTS := Weights(0.0, 0.0, 0.0, 0.0)

  /** The age is not checked: no writer sets a negative one, but a direct caller of
      evaluate() can, and it counts down. For a given age the floors hold for
      every finding and every weighting exactly when the age is not negative,
      nothing is charged for age, or both floors are zero. */
  lemma {:induction false} KevFloorHoldsIff(age: int, o: Options)
    requires ValidOptions(o)
    ensures (forall d, w :: AgeDays(d) == age ==> FloorKept(d, w, o))
            <==> age >= 0 || o.agePenaltyPer30d == 0.0 || (o.kevFloor == 0.0 && o.internetKevFloor == 0.0)
  {
    var propped := Propped(age);
    var d := if o.kevFloor > 0.0 then propped else propped.(exposure := "internet");
    assert AgeDays(d) == age && Rate(d, o) == o.agePenaltyPer30d;
    if age >= 0 || o.agePenaltyPer30d == 0.0 || (o.kevFloor == 0.0 && o.internetKevFloor == 0.0) {
      forall d, w | AgeDays(d) == age ensures FloorKept(d, w, o) {
        KeptWhenNothingIsTakenOff(d, w, o);
      }
    } else {
      NotKept(d, o);
    }
  }

  lemma {:induction false} KeptWhenNothingIsTakenOff(d: Input, w: Weights, o: Options)
    requires ValidOptions(o)
    requires AgeDays(d) >= 0 || o.agePenaltyPer30d == 0.0 || KevFloor(d, o) == 0.0
    ensures FloorKept(d, w, o)
  {
    if AgeDays(d) >= 0 { PenaltyIsNotNegative(d, o); } else if o.agePenaltyPer30d == 0.0 { FreeOfCharge(d, o); }
  }

  lemma {:induction false} Unweighted(t: real, e: real, b: real, x: real)
    ensures Mean(t, e, b, x, NO_WEIGHTS) == 0.0
  {
    TimesZero(t);
    TimesZero(e);
    TimesZero(b);
    TimesZero(x);
    assert Over(0.0, 1.0) == 0.0;
  }

  /** What is left of a known-exploited finding that its floor holds up. */
  lemma {:induction false} RawOfPropped(d: Input, w: Weights, o: Options)
    requires TotalWeight(w) != 0.0 && d.kev && !d.activeExploitation && Base(d, w, o) <= KevFloor(d, o)
    ensures Raw(d, w, o) == KevFloor(d, o) + Penalty(d, o)
  {
  }

  /** Everything the propped finding scores, with nothing unknown but its age. */
  lemma {:induction false} ProppedScores(age: int, o: Options)
    ensures var d := Propped(age);
      && Technical(d) == 0.0 && Exploitability(d) == 30.0 && Business(d) == 21.75 && Exposure(d, o) == 6.0
      && AgeDays(d) == age && Rate(d, o) == o.agePenaltyPer30d && KevFloor(d, o) == o.kevFloor
  {
    assert Credit([]) == 0.0;
  }

  lemma {:induction false} NoTotal()
    ensures TotalWeight(NO_WEIGHTS) == 1.0
  {
  }

  lemma {:induction false} NoBase(d: Input, o: Options)
    requires TotalWeight(NO_WEIGHTS) == 1.0
    ensures Base(d, NO_WEIGHTS, o) == 0.0
  {
    Unweighted(Technical(d), Exploitability(d), Business(d), Exposure(d, o));
  }

  lemma {:induction false} RawUnweighted(d: Input, o: Options)
    requires TotalWeight(NO_WEIGHTS) == 1.0 && d.kev && !d.activeExploitation && KevFloor(d, o) >= 0.0
    ensures Raw(d, NO_WEIGHTS, o) == KevFloor(d, o) + Penalty(d, o)
  {
    NoBase(d, o);
    RawOfPropped(d, NO_WEIGHTS, o);
  }

  lemma {:induction false} FloorIsNotNegative(d: Input, o: Options)
    requires ValidOptions(o)
    ensures KevFloor(d, o) >= 0.0
  {
  }

  lemma {:induction false} ProppedFalls(d: Input, o: Options)
    requires ValidOptions(o) && AgeDays(d) < 0 && Rate(d, o) > 0.0 && d.kev && !d.activeExploitation
    requires TotalWeight(NO_WEIGHTS) == 1.0
    ensures Raw(d, NO_WEIGHTS, o) < KevFloor(d, o)
  {
    FloorIsNotNegative(d, o);
    RawUnweighted(d, o);
    PenaltyCountsDown(d, o);
  }

  lemma {:induction false} NotKeptBelow(d: Input, w: Weights, o: Options)
    requires d.kev && NonNegative(w) && TotalWeight(w) != 0.0 && Clamp(Raw(d, w, o)) < KevFloor(d, o)
    ensures !FloorKept(d, w, o)
  {
  }

  lemma {:induction false} NotKept(d: Input, o: Options)
    requires ValidOptions(o) && AgeDays(d) < 0 && Rate(d, o) > 0.0 && d.kev && !d.activeExploitation
    requires KevFloor(d, o) > 0.0
    ensures !FloorKept(d, NO_WEIGHTS, o)
  {
    NoTotal();
    ProppedFalls(d, o);
    BelowFloor(Raw(d, NO_WEIGHTS, o), KevFloor(d, o));
    NotKeptBelow(d, NO_WEIGHTS, o);
  }

  lemma {:induction false} BelowFloor(raw: real, floor: real)
    requires raw < floor && floor > 0.0
    ensures Clamp(raw) < floor
  {
  }

  lemma {:induction false} PenaltyCountsDown(d: Input, o: Options)
    requires ValidOptions(o) && AgeDays(d) < 0 && Rate(d, o) > 0.0
    ensures Penalty(d, o) < 0.0
  {
    CountsDown(AgeDays(d) / 30, Rate(d, o));
  }

  lemma {:induction false} CountsDown(blocks: int, rate: real)
    requires blocks < 0 && rate > 0.0
    ensures Times(blocks as real, rate) < 0.0
  {
  }

  lemma {:induction false} FreeOfCharge(d: Input, o: Options)
    requires ValidOptions(o) && o.agePenaltyPer30d == 0.0
    ensures Penalty(d, o) == 0.0
  {
    assert Rate(d, o) == 0.0;
    TimesZero((AgeDays(d) / 30) as real);
  }

  /** With the default options and weights, an age of -90 takes a known-exploited
      finding from its floor of 75 to 66. */
  lemma {:induction false} NegativeAgeBreaksTheFloor(tenth: real -> real)
    requires ToTenths(tenth)
    ensures Score(Propped(-90), DEFAULT_WEIGHTS, DEFAULT_OPTIONS, tenth) == 66.0
  {
    RawOfNegativeAge();
    SixtySixIsOnGrid();
  }

  lemma {:induction false} RawOfNegativeAge()
    ensures Raw(Propped(-90), DEFAULT_WEIGHTS, DEFAULT_OPTIONS) == 66.0
  {
    var d := Propped(-90);
    ProppedScores(-90, DEFAULT_OPTIONS);
    BaseOfPropped(30.0, 21.75, 6.0);
    RawOfPropped(d, DEFAULT_WEIGHTS, DEFAULT_OPTIONS);
    PenaltyOfNegativeAge(d);
  }

  lemma {:induction false} PenaltyOfNegativeAge(d: Input)
    requires AgeDays(d) == -90 && !Overdue(d)
    ensures Penalty(d, DEFAULT_OPTIONS) == -9.0
  {
    assert Times(-3.0, 3.0) == -9.0;
  }

  lemma {:induction false} SixtySixIsOnGrid()
    ensures OnGrid(66.0, 0.1)
  {
    assert 66.0 / 0.1 == 660.0;
  }

  lemma {:induction false} BaseOfPropped(e: real, b: real, x: real)
    requires e <= 30.0 && b <= 100.0 && x <= 100.0
    ensures Mean(0.0, e, b, x, DEFAULT_WEIGHTS) <= 49.0
  {
    MeanIsMonotone(0.0, e, b, x, 0.0, 30.0, 100.0, 100.0, DEFAULT_WEIGHTS);
    assert Times(0.0, 0.30) == 0.0 && Times(30.0, 0.30) == 9.0 && Times(100.0, 0.25) == 25.0;
    assert Times(100.0, 0.15) == 15.0 && Over(49.0, 1.0) == 49.0;
  }

  // ---------------------------------------------------------- monotonicity --

  /** The second finding is at least as bad as the first in every respect. Passing
      its deadline only counts as worse at an age that is not negative: below
      zero a doubled rate takes off twice as much. */
  ghost predicate NoBetter(x: Input, y: Input) {
    && (x.cvss.None? <==> y.cvss.None?) && (x.cvss.Some? ==> x.cvss.value <= y.cvss.value)
    && (x.epss.Some? ==> y.epss.Some? && x.epss.value.score <= y.epss.value.score)
    && (x.kev ==> y.kev) && (x.activeExploitation ==> y.activeExploitation)
    && ExploitRank(x) <= ExploitRank(y)
    && CriticalityRank(x.assetCriticality) <= CriticalityRank(y.assetCriticality)
    && ClassificationRank(x.dataClassification) <= ClassificationRank(y.dataClassification)
    && EnvironmentRank(x.environment) <= EnvironmentRank(y.environment)
    && (x.serviceCriticality != "" ==>
          y.serviceCriticality != ""
          && CriticalityRank(x.serviceCriticality) <= CriticalityRank(y.serviceCriticality))
    && x.revenuePerHour <= y.revenuePerHour
    && ExposureRank(x.exposure) <= ExposureRank(y.exposure)
    && VectorRank(x.attackVector) <= VectorRank(y.attackVector)
    && (Unattended(x) ==> Unattended(y))
    && Credit(x.controls) >= Credit(y.controls)
    && AgeDays(x) <= AgeDays(y)
    && (Overdue(x) ==> Overdue(y))
    && (AgeDays(y) < 0 ==> Overdue(x) == Overdue(y))
  }

  lemma {:induction false} PositiveProduct(a: real, b: real)
    requires a > 0.0 && b > 0.0
    ensures a * b > 0.0
  {
  }

  lemma {:induction false} RootsKeepOrder(a: real, b: real)
    requires a >= 0.0 && b >= 0.0 && a * a <= b * b
    ensures a <= b
  {
    assert (a - b) * (a + b) == a * a - b * b;
    if a > b { PositiveProduct(a - b, a + b); }
  }

  lemma {:induction false} Multiplied(a: real, b: real, w: real)
    requires a <= b && w >= 0.0
    ensures Times(a, w) <= Times(b, w) && Times(w, a) <= Times(w, b)
  {
  }

  lemma {:induction false} LikelierExploitsHaveHigherRoots(x: Input, y: Input)
    requires Valid(x) && Valid(y) && x.epss.Some? && y.epss.Some? && x.epss.value.score <= y.epss.value.score
    ensures 0.0 <= x.epss.value.root <= y.epss.value.root
  {
    RootsKeepOrder(x.epss.value.root, y.epss.value.root);
  }

  lemma {:induction false} PointsOfExploits(x: Input, y: Input, p: real, q: real)
    requires p == (if x.epss.Some? then 60.0 * x.epss.value.root else 0.0)
    requires q == (if y.epss.Some? then 60.0 * y.epss.value.root else 0.0)
    requires p <= q && (x.kev ==> y.kev) && ExploitRank(x) <= ExploitRank(y)
    ensures ExploitabilityPoints(x) <= ExploitabilityPoints(y)
  {
    ExploitabilityAddsUp(x);
    ExploitabilityAddsUp(y);
  }

  lemma {:induction false} ExploitabilityIsMonotone(x: Input, y: Input)
    requires Valid(x) && Valid(y) && NoBetter(x, y)
    ensures Exploitability(x) <= Exploitability(y)
  {
    if x.epss.Some? { LikelierExploitsHaveHigherRoots(x, y); }
    PointsOfExploits(x, y, if x.epss.Some? then 60.0 * x.epss.value.root else 0.0,
                     if y.epss.Some? then 60.0 * y.epss.value.root else 0.0);
  }

  lemma {:induction false} TablesAscend(a: nat, b: nat)
    requires a <= b
    ensures b < 4 ==> [5.0, 12.5, 20.0, 25.0][a] <= [5.0, 12.5, 20.0, 25.0][b]
    ensures b < 4 ==> [3.0, 5.0, 8.0, 10.0][a] <= [3.0, 5.0, 8.0, 10.0][b]
    ensures b < 5 ==> [0.0, 2.0, 4.0, 7.0, 10.0][a] <= [0.0, 2.0, 4.0, 7.0, 10.0][b]
  {
  }

  lemma {:induction false} ServiceStepsGiveWay(x: Input, y: Input)
    requires NoBetter(x, y)
    ensures 13.75 * CriticalityRank(x.assetCriticality) as real + 2.5 * ServiceSteps(x) as real
         <= 13.75 * CriticalityRank(y.assetCriticality) as real + 2.5 * ServiceSteps(y) as real
  {
    var fewer := CriticalityRank(y.assetCriticality) - CriticalityRank(x.assetCriticality);
    assert ServiceSteps(x) - ServiceSteps(y) <= fewer;
  }

  /** The more critical an asset, by name, the higher its business risk: the service
      bonus shrinks as the asset's own rating grows, but never by as much as the
      rating adds. */
  lemma {:induction false} BusinessIsMonotone(x: Input, y: Input)
    requires NoBetter(x, y)
    ensures Business(x) <= Business(y)
  {
    BusinessAddsUp(x);
    BusinessAddsUp(y);
    ServiceStepsGiveWay(x, y);
    TablesAscend(ClassificationRank(x.dataClassification), ClassificationRank(y.dataClassification));
    TablesAscend(EnvironmentRank(x.environment), EnvironmentRank(y.environment));
    TablesAscend(RevenueRank(x.revenuePerHour), RevenueRank(y.revenuePerHour));
  }

  lemma {:induction false} Complement(a: real, p: real)
    ensures Times(a, 1.0 - p) == a - Times(a, p)
  {
  }

  lemma {:induction false} DiscountsKeepOrder(a: real, b: real, p: real, q: real)
    requires 0.0 <= a <= b && 0.0 <= q <= p
    ensures Clamp(a - Times(a, p)) <= Clamp(b - Times(b, q))
  {
    if p <= 1.0 {
      Multiplied(a, b, 1.0 - p);
      Complement(a, p);
      Complement(b, p);
      Multiplied(q, p, b);
    } else {
      Multiplied(1.0, p, a);
      assert Times(a, 1.0) == a;
    }
  }

  lemma {:induction false} ReachIsMonotone(x: Input, y: Input)
    requires NoBetter(x, y)
    ensures Clamp(ReachPoints(x)) <= Clamp(ReachPoints(y))
  {
    ReachAddsUp(x);
    ReachAddsUp(y);
  }

  lemma {:induction false} CreditIsAntitone(x: Input, y: Input, o: Options)
    requires NoBetter(x, y) && ValidOptions(o)
    ensures 0.0 <= MinReal(Credit(y.controls), o.controlCreditCap) <= MinReal(Credit(x.controls), o.controlCreditCap)
  {
  }

  lemma {:induction false} ExposureIsMonotone(x: Input, y: Input, o: Options)
    requires NoBetter(x, y) && ValidOptions(o)
    ensures Exposure(x, o) <= Exposure(y, o)
  {
    ReachIsMonotone(x, y);
    CreditIsAntitone(x, y, o);
    TimesZero(Clamp(ReachPoints(x)));
    TimesZero(Clamp(ReachPoints(y)));
    DiscountsKeepOrder(Clamp(ReachPoints(x)), Clamp(ReachPoints(y)),
                       MinReal(Credit(x.controls), o.controlCreditCap),
                       MinReal(Credit(y.controls), o.controlCreditCap));
  }

  lemma {:induction false} TotalIsPositive(w: Weights)
    requires NonNegative(w)
    ensures TotalWeight(w) > 0.0
  {
  }

  lemma {:induction false} SumIsMonotone(t: real, e: real, b: real, x: real, t': real, e': real, b': real,
      x': real, w: Weights)
    requires t <= t' && e <= e' && b <= b' && x <= x' && NonNegative(w)
    ensures Sum(t, e, b, x, w) <= Sum(t', e', b', x', w)
  {
    Multiplied(t, t', w.technical);
    Multiplied(e, e', w.exploitability);
    Multiplied(b, b', w.business);
    Multiplied(x, x', w.exposure);
  }

  lemma {:induction false} MeanIsMonotone(t: real, e: real, b: real, x: real, t': real, e': real, b': real,
      x': real, w: Weights)
    requires t <= t' && e <= e' && b <= b' && x <= x' && NonNegative(w)
    ensures TotalWeight(w) > 0.0 && Mean(t, e, b, x, w) <= Mean(t', e', b', x', w)
  {
    TotalIsPositive(w);
    SumIsMonotone(t, e, b, x, t', e', b', x', w);
    Divided(Sum(t, e, b, x, w), Sum(t', e', b', x', w), TotalWeight(w));
  }

  lemma {:induction false} TechnicalIsMonotone(x: Input, y: Input)
    requires NoBetter(x, y)
    ensures Technical(x) <= Technical(y)
  {
  }

  lemma {:induction false} SubScoresAreMonotone(x: Input, y: Input, o: Options)
    requires Valid(x) && Valid(y) && NoBetter(x, y) && ValidOptions(o)
    ensures Technical(x) <= Technical(y) && Exploitability(x) <= Exploitability(y)
    ensures Business(x) <= Business(y) && Exposure(x, o) <= Exposure(y, o)
  {
    TechnicalIsMonotone(x, y);
    ExploitabilityIsMonotone(x, y);
    BusinessIsMonotone(x, y);
    ExposureIsMonotone(x, y, o);
  }

  lemma {:induction false} Divided(a: real, b: real, w: real)
    requires a <= b && w > 0.0
    ensures Over(a, w) <= Over(b, w)
  {
  }

  lemma {:induction false} ProductsKeepOrder(p: real, q: real, r: real, s: real)
    requires 0.0 <= p <= q && 0.0 <= r <= s
    ensures 0.0 <= Times(p, r) <= Times(q, s)
  {
    Multiplied(p, q, r);
    Multiplied(r, s, q);
    NonNegativeProduct(p, r);
  }

  lemma {:induction false} PenaltyIsMonotone(x: Input, y: Input, o: Options)
    requires NoBetter(x, y) && ValidOptions(o)
    ensures Penalty(x, o) <= Penalty(y, o)
  {
    var p, q := AgeDays(x) / 30, AgeDays(y) / 30;
    assert p <= q;
    if p >= 0 {
      assert 0.0 <= Rate(x, o) <= Rate(y, o);
      ProductsKeepOrder(p as real, q as real, Rate(x, o), Rate(y, o));
    } else if q < 0 {
      assert Rate(x, o) == Rate(y, o);
      Multiplied(p as real, q as real, Rate(x, o));
    } else {
      PenaltyIsNotNegative(y, o);
      NonNegativeProduct(-(p as real), Rate(x, o));
      Negated(p as real, Rate(x, o));
    }
  }

  lemma {:induction false} Negated(a: real, b: real)
    ensures Times(-a, b) == -Times(a, b)
  {
  }

  /** Wherever the first finding has a floor, the second has one no lower. */
  ghost predicate FloorsKeepOrder(x: Input, y: Input, o: Options) {
    x.kev ==> KevFloor(x, o) <= KevFloor(y, o)
  }

  lemma {:induction false} FlooredIsMonotone(x: Input, y: Input, o: Options, a: real, b: real)
    requires NoBetter(x, y) && a <= b && FloorsKeepOrder(x, y, o)
    ensures Floored(x, o, a) <= Floored(y, o, b)
  {
  }

  /** Worsening a finding in any or all respects at once never lowers its score,
      as long as it keeps its floor or gets one no lower. */
  lemma {:induction false} RiskIsMonotone(x: Input, y: Input, w: Weights, o: Options, tenth: real -> real)
    requires Valid(x) && Valid(y) && NoBetter(x, y) && NonNegative(w) && ValidOptions(o)
    requires FloorsKeepOrder(x, y, o) && ToTenths(tenth)
    ensures TotalWeight(w) != 0.0 && Score(x, w, o, tenth) <= Score(y, w, o, tenth)
    ensures Rank(LevelFor(Score(x, w, o, tenth))) <= Rank(LevelFor(Score(y, w, o, tenth)))
  {
    RawKeepsOrder(x, y, w, o);
  }

  lemma {:induction false} RawKeepsOrder(x: Input, y: Input, w: Weights, o: Options)
    requires Valid(x) && Valid(y) && NoBetter(x, y) && NonNegative(w) && ValidOptions(o)
    requires FloorsKeepOrder(x, y, o)
    ensures TotalWeight(w) != 0.0 && Clamp(Raw(x, w, o)) <= Clamp(Raw(y, w, o))
  {
    SubScoresAreMonotone(x, y, o);
    MeanIsMonotone(Technical(x), Exploitability(x), Business(x), Exposure(x, o),
                   Technical(y), Exploitability(y), Business(y), Exposure(y, o), w);
    PenaltyIsMonotone(x, y, o);
    FlooredIsMonotone(x, y, o, Base(x, w, o), Base(y, w, o));
  }

  ghost predicate OrderKept(x: Input, y: Input, w: Weights, o: Options) {
    Valid(x) && Valid(y) && NoBetter(x, y) && NonNegative(w) && TotalWeight(w) != 0.0 ==>
      Clamp(Raw(x, w, o)) <= Clamp(Raw(y, w, o))
  }

  /** Under given options that holds of every two findings and every weighting
      exactly when the internet floor is not below the other one. */
  lemma {:induction false} RiskIsMonotoneIff(o: Options)
    requires ValidOptions(o)
    ensures (forall x, y, w :: OrderKept(x, y, w, o)) <==> o.kevFloor <= o.internetKevFloor
  {
    if o.kevFloor <= o.internetKevFloor {
      forall x, y, w ensures OrderKept(x, y, w, o) { KeptUnderOrderedFloors(x, y, w, o); }
    } else {
      NotKeptOnline(o);
    }
  }

  lemma {:induction false} KeptUnderOrderedFloors(x: Input, y: Input, w: Weights, o: Options)
    requires ValidOptions(o) && o.kevFloor <= o.internetKevFloor
    ensures OrderKept(x, y, w, o)
  {
    if Valid(x) && Valid(y) && NoBetter(x, y) && NonNegative(w) {
      assert x.exposure == "internet" ==> y.exposure == "internet";
      RawKeepsOrder(x, y, w, o);
    }
  }

  /** The propped finding, moved to the internet on its first day. */
  function Online(): Input {
    Propped(0).(exposure := "internet")
  }

  lemma {:induction false} OnlineIsNoBetter()
    ensures Valid(Propped(0)) && Valid(Online()) && NoBetter(Propped(0), Online())
  {
  }

  lemma {:induction false} FloorAlone(d: Input, w: Weights, o: Options)
    requires TotalWeight(w) != 0.0 && d.kev && !d.activeExploitation && Base(d, w, o) == 0.0
    requires ValidOptions(o) && AgeDays(d) == 0
    ensures Clamp(Raw(d, w, o)) == KevFloor(d, o)
  {
    RawOfPropped(d, w, o);
    assert Penalty(d, o) == 0.0;
  }

  /** With nothing weighed and nothing charged for age, only the floor is left. */
  lemma {:induction false} OnlyTheFloor(d: Input, o: Options)
    requires ValidOptions(o) && d.kev && !d.activeExploitation && AgeDays(d) == 0
    ensures TotalWeight(NO_WEIGHTS) != 0.0 && Clamp(Raw(d, NO_WEIGHTS, o)) == KevFloor(d, o)
  {
    NoTotal();
    NoBase(d, o);
    FloorAlone(d, NO_WEIGHTS, o);
  }

  lemma {:induction false} NotKeptWhenLess(x: Input, y: Input, w: Weights, o: Options)
    requires Valid(x) && Valid(y) && NoBetter(x, y) && NonNegative(w) && TotalWeight(w) != 0.0
    requires Clamp(Raw(x, w, o)) > Clamp(Raw(y, w, o))
    ensures !OrderKept(x, y, w, o)
  {
  }

  lemma {:induction false} NotKeptOnline(o: Options)
    requires ValidOptions(o) && o.kevFloor > o.internetKevFloor
    ensures !OrderKept(Propped(0), Online(), NO_WEIGHTS, o)
  {
    OnlineIsNoBetter();
    OnlyTheFloor(Propped(0), o);
    OnlyTheFloor(Online(), o);
    NotKeptWhenLess(Propped(0), Online(), NO_WEIGHTS, o);
  }

  lemma {:induction false} CreditOfSum(a: seq<string>, b: seq<string>)
    ensures Credit(a + b) == Credit(a) + Credit(b)
  {
    if b == [] {
      assert a + b == a;
    } else {
      CreditOfSum(a, b[..|b| - 1]);
      assert (a + b)[..|a + b| - 1] == a + b[..|b| - 1];
    }
  }

  /** Documenting further controls, known or not, repeated or not, never raises a
      score, at any age and under any floors. */
  lemma {:induction false} ControlsNeverRaiseTheScore(d: Input, more: seq<string>, w: Weights, o: Options,
      tenth: real -> real)
    requires NonNegative(w) && ValidOptions(o) && ToTenths(tenth)
    ensures TotalWeight(w) != 0.0
    ensures Score(d.(controls := d.controls + more), w, o, tenth) <= Score(d, w, o, tenth)
  {
    var x := d.(controls := d.controls + more);
    CreditOfSum(d.controls, more);
    MoreCreditLessExposure(x, d, o);
    MeanIsMonotone(Technical(x), Exploitability(x), Business(x), Exposure(x, o),
                   Technical(d), Exploitability(d), Business(d), Exposure(d, o), w);
    SettledAlike(x, d, o, Base(x, w, o), Base(d, w, o));
  }

  lemma {:induction false} MoreCreditLessExposure(x: Input, d: Input, o: Options)
    requires ReachPoints(x) == ReachPoints(d) && Credit(x.controls) >= Credit(d.controls) && ValidOptions(o)
    ensures Exposure(x, o) <= Exposure(d, o)
  {
    TimesZero(Clamp(ReachPoints(x)));
    DiscountsKeepOrder(Clamp(ReachPoints(x)), Clamp(ReachPoints(d)),
                       MinReal(Credit(x.controls), o.controlCreditCap),
                       MinReal(Credit(d.controls), o.controlCreditCap));
  }

  /** Floors, penalty and shortcut do not look at the controls. */
  lemma {:induction false} SettledAlike(x: Input, d: Input, o: Options, a: real, b: real)
    requires x == d.(controls := x.controls) && a <= b
    ensures Clamp(Settled(x, o, a)) <= Clamp(Settled(d, o, b))
  {
    assert Penalty(x, o) == Penalty(d, o);
  }
}
