/** Editing the automatic ticketing policy of an organization. */
module AutoTicketPolicy {
  import opened AutoTicket
  import opened FindingStates
  import opened Wrappers

  /** A threshold as JSON keeps it: no key, an explicit null, or a number. */
  datatype Threshold = Absent | Null | Value(score: real)

  /** The stored block. `None` is a key that is not there. */
  datatype Block = Block(
    enabled: Option<bool>,
    minRiskScore: Threshold,
    severities: Option<seq<string>>,
    requireKev: Option<bool>,
    internetExposedOnly: Option<bool>,
    requireOwner: Option<bool>,
    maxPerRun: Option<int>)

  const NO_BLOCK := Block(None, Absent, None, None, None, None, None)

  datatype Refusal = EveryOpenFinding | ThresholdOutOfRange | UnknownSeverity | CapOutOfRange

  function Or<T>(o: Option<T>, default: T): T {
    if o.Some? then o.value else default
  }

  function OnlyValid(severities: seq<string>): seq<string> {
    if severities == [] then []
    else (if severities[0] in VALID_SEVERITIES then [severities[0]] else []) + OnlyValid(severities[1..])
  }

  /** state(): the policy everything reads. */
  function PolicyOf(b: Block): Policy {
    Policy(Or(b.enabled, false),
           match b.minRiskScore
           case Absent => Some(DEFAULT_MIN_RISK_SCORE)
           case Null => None
           case Value(v) => Some(v),
           OnlyValid(Or(b.severities, [])),
           Or(b.requireKev, false),
           Or(b.internetExposedOnly, false),
           Or(b.requireOwner, true),
           Or(b.maxPerRun, DEFAULT_MAX_PER_RUN))
  }

  function After<T>(change: Option<T>, kept: Option<T>): Option<T> {
    if change.Some? then change else kept
  }

  function Unknown(severities: seq<string>): bool {
    severities != [] && (severities[0] !in VALID_SEVERITIES || Unknown(severities[1..]))
  }

  /** set_policy: `changes` has the shape of a block, holding only what changes. */
  function SetPolicy(b: Block, changes: Block): Result<Block, Refusal> {
    if changes.minRiskScore.Null? && Or(After(changes.severities, b.severities), []) == []
       && !Or(After(changes.requireKev, b.requireKev), false) then Err(EveryOpenFinding)
    else if changes.minRiskScore.Value? && !(0.0 <= changes.minRiskScore.score <= 100.0) then Err(ThresholdOutOfRange)
    else if changes.severities.Some? && Unknown(changes.severities.value) then Err(UnknownSeverity)
    else if changes.maxPerRun.Some? && !(1 <= changes.maxPerRun.value <= MAX_PER_RUN_CEILING) then Err(CapOutOfRange)
    else Ok(Block(After(changes.enabled, b.enabled),
                  if changes.minRiskScore.Absent? then b.minRiskScore else changes.minRiskScore,
                  After(changes.severities, b.severities),
                  After(changes.requireKev, b.requireKev),
                  After(changes.internetExposedOnly, b.internetExposedOnly),
                  After(changes.requireOwner, b.requireOwner),
                  After(changes.maxPerRun, b.maxPerRun)))
  }

  class Organization {
    var block: Block

    constructor ()
      ensures block == NO_BLOCK
    {
      block := NO_BLOCK;
    }

    /** Refused changes leave the stored block as it was. */
    method Set(changes: Block) returns (refusal: Option<Refusal>)
      modifies this
      ensures var r := SetPolicy(old(block), changes);
        && refusal == (if r.Ok? then None else Some(r.error))
        && block == (if r.Ok? then r.value else old(block))
    {
      var edited := block;
      if changes.enabled.Some? { edited := edited.(enabled := changes.enabled); }
      match changes.minRiskScore {
        case Absent =>
        case Null =>
          var severities := if changes.severities.Some? then changes.severities.value else Or(edited.severities, []);
          var kev := if changes.requireKev.Some? then changes.requireKev.value else Or(edited.requireKev, false);
          if severities == [] && !kev { return Some(EveryOpenFinding); }
          edited := edited.(minRiskScore := Null);
        case Value(v) =>
          if !(0.0 <= v <= 100.0) { return Some(ThresholdOutOfRange); }
          edited := edited.(minRiskScore := changes.minRiskScore);
      }
      if changes.severities.Some? {
        if Unknown(changes.severities.value) { return Some(UnknownSeverity); }
        edited := edited.(severities := changes.severities);
      }
      if changes.requireKev.Some? { edited := edited.(requireKev := changes.requireKev); }
      if changes.internetExposedOnly.Some? { edited := edited.(internetExposedOnly := changes.internetExposedOnly); }
      if changes.requireOwner.Some? { edited := edited.(requireOwner := changes.requireOwner); }
      if changes.maxPerRun.Some? {
        if changes.maxPerRun.value < 1 || changes.maxPerRun.value > MAX_PER_RUN_CEILING { return Some(CapOutOfRange); }
        edited := edited.(maxPerRun := changes.maxPerRun);
      }
      block := edited;
      return None;
    }
  }

  // ------------------------------------------------------- what an edit does --

  /** What is read once the change is in: the new value, the one there was, or the default. */
  function ReadAfter<T>(change: Option<T>, kept: Option<T>, default: T): T {
    match (change, kept)
    case (Some(v), _) => v
    case (None, Some(v)) => v
    case (None, None) => default
  }

  ghost predicate AsksForEverything(b: Block, changes: Block) {
    && changes.minRiskScore == Null
    && ReadAfter(changes.severities, b.severities, []) == []
    && !ReadAfter(changes.requireKev, b.requireKev, false)
  }

  ghost predicate OutOfRange(changes: Block) {
    changes.minRiskScore.Value? && (changes.minRiskScore.score < 0.0 || 100.0 < changes.minRiskScore.score)
  }

  ghost predicate NamesUnknown(changes: Block) {
    changes.severities.Some? && exists s :: s in changes.severities.value && s !in VALID_SEVERITIES
  }

  ghost predicate CapsWrong(changes: Block) {
    changes.maxPerRun.Some? && (changes.maxPerRun.value < 1 || 500 < changes.maxPerRun.value)
  }

  lemma {:induction false} UnknownIff(severities: seq<string>)
    ensures Unknown(severities) <==> exists s :: s in severities && s !in VALID_SEVERITIES
  {
    if severities != [] { UnknownIff(severities[1..]); }
  }

  /** An edit is refused for the first of four reasons, and accepted when there is none. */
  lemma {:induction false} EditRefusedIff(b: Block, changes: Block)
    ensures var r := SetPolicy(b, changes);
      if AsksForEverything(b, changes) then r == Err(EveryOpenFinding)
      else if OutOfRange(changes) then r == Err(ThresholdOutOfRange)
      else if NamesUnknown(changes) then r == Err(UnknownSeverity)
      else if CapsWrong(changes) then r == Err(CapOutOfRange)
      else r.Ok?
  {
    if changes.severities.Some? { UnknownIff(changes.severities.value); }
  }

  /** Once accepted, what the edit names reads as it says and what it does not name
      as before; where nothing was ever named the policy is off, asks for a score
      of 70 and an owner, and opens fifty tickets an hour. */
  lemma {:induction false} EditReadsBack(b: Block, changes: Block)
    requires SetPolicy(b, changes).Ok?
    ensures var p, was := PolicyOf(SetPolicy(b, changes).value), PolicyOf(b);
      && p.enabled == (if changes.enabled.Some? then changes.enabled.value else was.enabled)
      && p.minRiskScore == (match changes.minRiskScore
                            case Absent => was.minRiskScore case Null => None case Value(v) => Some(v))
      && p.severities == (if changes.severities.Some? then changes.severities.value else was.severities)
      && p.requireKev == (if changes.requireKev.Some? then changes.requireKev.value else was.requireKev)
      && p.internetExposedOnly ==
         (if changes.internetExposedOnly.Some? then changes.internetExposedOnly.value else was.internetExposedOnly)
      && p.requireOwner == (if changes.requireOwner.Some? then changes.requireOwner.value else was.requireOwner)
      && p.maxPerRun == (if changes.maxPerRun.Some? then changes.maxPerRun.value else was.maxPerRun)
    ensures PolicyOf(NO_BLOCK) == Policy(false, Some(70.0), [], false, false, true, 50)
    ensures PolicyOf(NO_BLOCK.(enabled := Some(true))) == SWITCHED_ON
  {
    if changes.severities.Some? { KnownIsValid(changes.severities.value); }
  }

  // ----------------------------------------------------- what edits can reach --

  /** Accepted edits, one after another, on an organization that had no policy. */
  function Edited(edits: seq<Block>): Block {
    if edits == [] then NO_BLOCK
    else
      var before := Edited(edits[..|edits| - 1]);
      var r := SetPolicy(before, edits[|edits| - 1]);
      if r.Ok? then r.value else before
  }

  ghost predicate Stored(b: Block) {
    && (b.severities.Some? ==> AllValid(b.severities.value))
    && (b.minRiskScore.Value? ==> 0.0 <= b.minRiskScore.score <= 100.0)
    && (b.maxPerRun.Some? ==> 1 <= b.maxPerRun.value <= MAX_PER_RUN_CEILING)
  }

  lemma {:induction false} KnownIsValid(severities: seq<string>)
    ensures !Unknown(severities) <==> AllValid(severities)
    ensures AllValid(severities) ==> OnlyValid(severities) == severities
  {
    if severities != [] {
      KnownIsValid(severities[1..]);
      assert severities == [severities[0]] + severities[1..];
    }
  }

  lemma {:induction false} EditsKeepStored(edits: seq<Block>)
    ensures Stored(Edited(edits))
  {
    if edits != [] {
      EditsKeepStored(edits[..|edits| - 1]);
      var change := edits[|edits| - 1];
      if change.severities.Some? { KnownIsValid(change.severities.value); }
    }
  }

  /** A policy with no threshold, no severity list and no KEV requirement. */
  predicate Unguarded(p: Policy) {
    p.minRiskScore.None? && p.severities == [] && !p.requireKev
  }

  /** Which is every open finding there is, once the other two filters are off. */
  lemma {:induction false} UnguardedTicketsEverything(f: Finding, p: Policy)
    requires Unguarded(p) && !p.internetExposedOnly && !p.requireOwner
    ensures Matches(f, p) <==> f.state in OPEN
  {
  }

  /** set_policy refuses the edit that drops the threshold when nothing else
      narrows the policy. It does not look again when a later edit takes away
      what did: an accepted edit leaves an unguarded policy exactly when the
      threshold was already null, the edit does not name it, and afterwards
      there are neither severities nor a KEV requirement. */
  lemma {:induction false} UnguardedIff(edits: seq<Block>, changes: Block)
    requires SetPolicy(Edited(edits), changes).Ok?
    ensures var b := Edited(edits);
      Unguarded(PolicyOf(SetPolicy(b, changes).value)) <==>
        && changes.minRiskScore.Absent? && b.minRiskScore.Null?
        && Or(After(changes.severities, b.severities), []) == []
        && !Or(After(changes.requireKev, b.requireKev), false)
  {
    EditsKeepStored(edits);
    EditsKeepStored(edits + [changes]);
    assert (edits + [changes])[..|edits + [changes]| - 1] == edits;
    KnownIsValid(Or(After(changes.severities, Edited(edits).severities), []));
  }

  /** Two edits are enough. */
  lemma {:induction false} TwoEditsUnguard()
    ensures var first := NO_BLOCK.(minRiskScore := Null, severities := Some(["high"]));
      var second := NO_BLOCK.(severities := Some([]));
      && SetPolicy(NO_BLOCK, first).Ok? && SetPolicy(Edited([first]), second).Ok?
      && Unguarded(PolicyOf(Edited([first, second])))
  {
    var first := NO_BLOCK.(minRiskScore := Null, severities := Some(["high"]));
    var second := NO_BLOCK.(severities := Some([]));
    assert !Unknown([]) && !Unknown(["high"]) by { assert ["high"][1..] == []; }
    assert [first][..0] == [] && [first, second][..1] == [first];
    assert Edited([first]) == SetPolicy(NO_BLOCK, first).value;
  }
}
