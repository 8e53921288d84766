/** Automatic ticketing: one predicate, the query that narrows it down, and the
    three places that act on both. */
module AutoTicket {
  import opened FindingStates
  import opened SlidingWindow
  import opened Wrappers

  const VALID_SEVERITIES: set<string> := {"critical", "high", "medium", "low", "info", "none"}
  const DEFAULT_MIN_RISK_SCORE: real := 70.0
  const DEFAULT_MAX_PER_RUN: int := 50
  const MAX_PER_RUN_CEILING: int := 500
  const BACKFILL_CEILING: nat := 2000

  datatype Asset = Asset(exposure: string, owned: bool)

  datatype Finding = Finding(
    id: nat,
    state: string,
    riskScore: Option<real>,
    severity: Option<string>,
    kev: bool,
    hasAssignee: bool,
    asset: Option<Asset>)

  datatype Policy = Policy(
    enabled: bool,
    minRiskScore: Option<real>,
    severities: seq<string>,
    requireKev: bool,
    internetExposedOnly: bool,
    requireOwner: bool,
    maxPerRun: int)

  function LowerChar(c: char): char {
    if 'A' <= c <= 'Z' then (c as int + 32) as char else c
  }

  function Lower(s: string): string {
    if s == "" then "" else [LowerChar(s[0])] + Lower(s[1..])
  }

  function SeverityText(f: Finding): string {
    if f.severity.Some? then f.severity.value else ""
  }

  predicate HasOwner(f: Finding) {
    f.hasAssignee || (f.asset.Some? && f.asset.value.owned)
  }

  predicate AboveBar(f: Finding, p: Policy) {
    p.minRiskScore.Some? ==> f.riskScore.Some? && f.riskScore.value >= p.minRiskScore.value
  }

  predicate Matches(f: Finding, p: Policy) {
    && f.state in OPEN
    && AboveBar(f, p)
    && (p.severities != [] ==> Lower(SeverityText(f)) in p.severities)
    && (p.requireKev ==> f.kev)
    && (p.internetExposedOnly ==> f.asset.Some? && f.asset.value.exposure == "internet")
    && (p.requireOwner ==> HasOwner(f))
  }

  /** What the candidate query asks of a row: a missing severity is in no list. */
  predicate Queried(f: Finding, p: Policy) {
    && f.state in OPEN
    && AboveBar(f, p)
    && (p.severities != [] ==> f.severity.Some? && f.severity.value in p.severities)
    && (p.requireKev ==> f.kev)
  }

  // ------------------------------------------------- what each setting does --

  /** Nothing narrows this policy down. */
  predicate Bare(p: Policy) {
    p.minRiskScore.None? && |p.severities| == 0 && !p.requireKev && !p.internetExposedOnly && !p.requireOwner
  }

  /** Each setting takes out exactly the findings that miss it, whatever the others
      say; and with none of them on, every open finding is accepted. */
  lemma {:induction false} EachSettingNarrows(f: Finding, p: Policy, bar: real, severities: seq<string>)
    ensures Bare(p) ==> (Matches(f, p) <==> f.state in OPEN)
    ensures Matches(f, p.(minRiskScore := Some(bar))) <==>
            Matches(f, p.(minRiskScore := None)) && f.riskScore.Some? && bar <= f.riskScore.value
    ensures severities != [] ==>
              (Matches(f, p.(severities := severities)) <==>
               Matches(f, p.(severities := []))
               && exists i :: 0 <= i < |severities| && severities[i] == Lower(SeverityText(f)))
    ensures Matches(f, p.(requireKev := true)) <==> Matches(f, p.(requireKev := false)) && f.kev
    ensures Matches(f, p.(internetExposedOnly := true)) <==>
            Matches(f, p.(internetExposedOnly := false)) && f.asset.Some? && f.asset.value.exposure == "internet"
    ensures Matches(f, p.(requireOwner := true)) <==>
            Matches(f, p.(requireOwner := false)) && (!f.hasAssignee ==> f.asset.Some? && f.asset.value.owned)
    ensures Matches(f, p.(enabled := !p.enabled, maxPerRun := p.maxPerRun + 1)) <==> Matches(f, p)
  {
  }

  // ---------------------------------------------------- query and predicate --

  ghost predicate AllValid(severities: seq<string>) {
    forall s :: s in severities ==> s in VALID_SEVERITIES
  }

  predicate NoCapitals(s: string) {
    forall i :: 0 <= i < |s| ==> !('A' <= s[i] <= 'Z')
  }

  lemma {:induction false} ValidHasNoCapitals(s: string)
    requires s in VALID_SEVERITIES
    ensures NoCapitals(s)
  {
    forall i | 0 <= i < |s| ensures !('A' <= s[i] <= 'Z') {
      if s == "critical" {
      } else if s == "high" {
      } else if s == "medium" {
      } else if s == "low" {
      } else if s == "info" {
      } else {
        assert s == "none";
      }
    }
  }

  lemma {:induction false} ValidIsLower(s: string)
    requires s in VALID_SEVERITIES
    ensures Lower(s) == s
  {
    ValidHasNoCapitals(s);
    LowerOfLower(s);
  }

  lemma {:induction false} LowerOfLower(s: string)
    requires NoCapitals(s)
    ensures Lower(s) == s
  {
    if s != "" {
      LowerOfLower(s[1..]);
      assert s == [s[0]] + s[1..];
    }
  }

  /** No severity is asked for, or the stored one as it stands. */
  predicate AsAsked(f: Finding, p: Policy) {
    p.severities == [] || (f.severity.Some? && f.severity.value in p.severities)
  }

  /** No severity is asked for, or the stored one is in lower case. */
  predicate SpelledAsNamed(f: Finding, p: Policy) {
    p.severities == [] || Lower(SeverityText(f)) == SeverityText(f)
  }

  /** The policy asks neither for a missing severity nor for one word in two
      spellings. Every saved policy is of this kind; one that is only previewed
      need not be. */
  ghost predicate Plain(p: Policy) {
    "" !in p.severities && forall s :: s in p.severities && Lower(s) in p.severities ==> Lower(s) == s
  }

  lemma {:induction false} SavedIsPlain(p: Policy)
    requires AllValid(p.severities)
    ensures Plain(p)
  {
    forall s | s in p.severities ensures Lower(s) == s { ValidIsLower(s); }
    assert "" !in VALID_SEVERITIES;
  }

  /** The query drops a finding the predicate accepts exactly when severities are
      asked for and the stored one, as it stands, is not; under a plain policy,
      when it is not in lower case: the predicate lowers it, the query does not. */
  lemma {:induction false} QueryDropsIff(f: Finding, p: Policy)
    requires Matches(f, p)
    ensures Queried(f, p) <==> AsAsked(f, p)
    ensures Plain(p) ==> (Queried(f, p) <==> SpelledAsNamed(f, p))
  {
    assert Lower("") == "";
  }

  /** What the query asks of a row is what the predicate asks, but for exposure and
      owner, which it leaves to the predicate, and for the severity, which it takes
      as it stands. */
  lemma {:induction false} QueryAsksIff(f: Finding, p: Policy)
    ensures Queried(f, p) <==>
            && Matches(f, p.(severities := [], internetExposedOnly := false, requireOwner := false))
            && AsAsked(f, p)
  {
  }

  /** A finding that a policy accepts and the query drops for its severity only. */
  function Accepted(p: Policy, severity: Option<string>): Finding {
    var score := if p.minRiskScore.Some? then p.minRiskScore else Some(0.0);
    Finding(1, "new", score, severity, true, true, Some(Asset("internet", true)))
  }

  lemma {:induction false} AcceptedMatches(p: Policy, severity: Option<string>)
    requires p.severities == [] || Lower(if severity.Some? then severity.value else "") in p.severities
    ensures Matches(Accepted(p, severity), p)
    ensures Queried(Accepted(p, severity), p) <==> AsAsked(Accepted(p, severity), p)
  {
  }

  /** A policy for which lower case decides is a plain one and no other. */
  lemma {:induction false} LowerCaseDecidesIff(p: Policy)
    ensures (forall f :: Matches(f, p) ==> (Queried(f, p) <==> SpelledAsNamed(f, p))) <==> Plain(p)
  {
    if Plain(p) {
      forall f | Matches(f, p) ensures Queried(f, p) <==> SpelledAsNamed(f, p) { QueryDropsIff(f, p); }
    } else if "" in p.severities {
      AcceptedMatches(p, None);
      assert SpelledAsNamed(Accepted(p, None), p) && !Queried(Accepted(p, None), p);
    } else {
      var s :| s in p.severities && Lower(s) in p.severities && Lower(s) != s;
      AcceptedMatches(p, Some(s));
      assert !SpelledAsNamed(Accepted(p, Some(s)), p) && Queried(Accepted(p, Some(s)), p);
    }
  }

  /** And a finding stored in lower case is never dropped exactly when the policy
      does not ask for a missing severity. */
  lemma {:induction false} LowerCaseIsKeptIff(p: Policy)
    ensures (forall f :: Matches(f, p) && SpelledAsNamed(f, p) ==> Queried(f, p)) <==> "" !in p.severities
  {
    if "" in p.severities {
      AcceptedMatches(p, None);
      assert SpelledAsNamed(Accepted(p, None), p);
    } else {
      forall f | Matches(f, p) && SpelledAsNamed(f, p) ensures Queried(f, p) { QueryDropsIff(f, p); }
    }
  }

  /** Previewing a policy that asks for "" counts no finding without a severity,
      though the predicate accepts it. */
  lemma {:induction false} AnEmptyWordLosesAFinding()
    ensures var p := SWITCHED_ON.(severities := [""]);
      Matches(Accepted(p, None), p) && SpelledAsNamed(Accepted(p, None), p) && !Queried(Accepted(p, None), p)
  {
    AcceptedMatches(SWITCHED_ON.(severities := [""]), None);
  }

  lemma {:induction false} LowerTwice(s: string)
    ensures Lower(Lower(s)) == Lower(s)
  {
    if s != "" { LowerTwice(s[1..]); }
  }

  // ------------------------------------------------- what writes a severity --

  const SEVERITY_WORDS: map<string, string> := map[
    "critical" := "critical", "high" := "high", "medium" := "medium", "moderate" := "medium",
    "low" := "low", "info" := "informational", "informational" := "informational",
    "none" := "informational", "log" := "informational", "debug" := "informational"]

  predicate IsSpace(c: char) {
    9 <= c as int <= 13 || 28 <= c as int <= 32
  }

  function StripLeft(s: string): string {
    if s != "" && IsSpace(s[0]) then StripLeft(s[1..]) else s
  }

  function StripRight(s: string): string {
    if s != "" && IsSpace(s[|s| - 1]) then StripRight(s[..|s| - 1]) else s
  }

  function Strip(s: string): string {
    StripRight(StripLeft(s))
  }

  /** What an import makes of a scanner's word for it. */
  function Normalised(word: string): string {
    var key := Lower(Strip(word));
    if key in SEVERITY_WORDS then SEVERITY_WORDS[key] else word
  }

  /** The two ways a severity comes into the tables: imported from a scanner, or
      taken from the NVD or a score and put in lower case. */
  datatype Written = Unwritten | Imported(word: string) | FromFeed(word: string)

  function Stored(w: Written): Option<string> {
    match w
    case Unwritten => None
    case Imported(word) => Some(Normalised(word))
    case FromFeed(word) => Some(Lower(word))
  }

  /** White space is a tab, a break, one of the four separators or a space. */
  lemma {:induction false} SpacesAre(c: char)
    ensures IsSpace(c) <==> c as int in {9, 10, 11, 12, 13, 28, 29, 30, 31, 32}
  {
  }

  predicate AllSpace(s: string) {
    forall i :: 0 <= i < |s| ==> IsSpace(s[i])
  }

  lemma {:induction false} StripLeftTakes(s: string) returns (lead: string)
    ensures s == lead + StripLeft(s) && AllSpace(lead) && (StripLeft(s) != "" ==> !IsSpace(StripLeft(s)[0]))
  {
    lead := "";
    if s != "" && IsSpace(s[0]) {
      var rest := StripLeftTakes(s[1..]);
      lead := [s[0]] + rest;
      assert s == [s[0]] + s[1..];
    }
  }

  lemma {:induction false} StripRightTakes(s: string) returns (trail: string)
    ensures s == StripRight(s) + trail && AllSpace(trail)
    ensures StripRight(s) != "" ==> StripRight(s)[0] == s[0] && !IsSpace(StripRight(s)[|StripRight(s)| - 1])
  {
    trail := "";
    if s != "" && IsSpace(s[|s| - 1]) {
      var rest := StripRightTakes(s[..|s| - 1]);
      trail := rest + [s[|s| - 1]];
      assert s == s[..|s| - 1] + [s[|s| - 1]];
    }
  }

  /** A word loses the white space at both its ends and nothing else. */
  lemma {:induction false} StripTakesSpaces(s: string) returns (lead: string, trail: string)
    ensures s == lead + Strip(s) + trail && AllSpace(lead) && AllSpace(trail)
    ensures Strip(s) != "" ==> !IsSpace(Strip(s)[0]) && !IsSpace(Strip(s)[|Strip(s)| - 1])
  {
    lead := StripLeftTakes(s);
    trail := StripRightTakes(StripLeft(s));
  }

  lemma {:induction false} UnspacedStripsToItself(s: string)
    requires s != "" ==> !IsSpace(s[0]) && !IsSpace(s[|s| - 1])
    ensures Strip(s) == s
  {
  }

  lemma {:induction false} LowerAt(s: string, i: nat)
    requires i < |s|
    ensures |Lower(s)| == |s| && Lower(s)[i] == LowerChar(s[i])
  {
    if |s| > 1 { LowerAt(s[1..], if i > 0 then i - 1 else 0); }
  }

  /** A word that is valid in lower case has no spaces around it. */
  lemma {:induction false} ValidIsUnspaced(word: string)
    requires Lower(word) in VALID_SEVERITIES
    ensures Strip(word) == word
  {
    if word != "" {
      LowerAt(word, 0);
      LowerAt(word, |word| - 1);
    }
    UnspacedStripsToItself(word);
  }

  const NAMED_WORDS: set<string> := {"critical", "high", "medium", "moderate", "low"}

  /** A word off the list is kept, and is not valid in any case. */
  lemma {:induction false} KeptIsNotValid(word: string)
    requires Lower(Strip(word)) !in SEVERITY_WORDS
    ensures Lower(word) !in VALID_SEVERITIES && word !in VALID_SEVERITIES
  {
    forall valid | valid in VALID_SEVERITIES ensures valid in SEVERITY_WORDS {
      ValidIsListed(valid);
    }
    if Lower(word) in VALID_SEVERITIES { ValidIsUnspaced(word); }
    if word in VALID_SEVERITIES { ValidIsLower(word); }
  }

  lemma {:induction false} ValidIsListed(valid: string)
    requires valid in VALID_SEVERITIES
    ensures valid in SEVERITY_WORDS
  {
  }

  const INFORMATIONAL: string := "informational"

  lemma {:induction false} ListedIsNamedOrNot(key: string)
    requires key in SEVERITY_WORDS
    ensures key in NAMED_WORDS ==>
              && SEVERITY_WORDS[key] in VALID_SEVERITIES
              && SEVERITY_WORDS[key] == (if key == "moderate" then "medium" else key)
    ensures key !in NAMED_WORDS ==> SEVERITY_WORDS[key] == INFORMATIONAL
    ensures INFORMATIONAL !in VALID_SEVERITIES
  {
  }

  lemma {:induction false} ListedGivesLower(key: string, stored: string)
    requires key in SEVERITY_WORDS && stored == SEVERITY_WORDS[key]
    ensures Lower(stored) == stored && (stored in VALID_SEVERITIES <==> key in NAMED_WORDS)
    ensures stored == (if key !in NAMED_WORDS then INFORMATIONAL else if key == "moderate" then "medium" else key)
  {
    ListedIsNamedOrNot(key);
    if key in NAMED_WORDS { ValidIsLower(stored); } else { LowerOfLower(stored); }
  }

  /** An import stores a severity a policy can name exactly when the scanner said
      critical, high, medium, moderate or low, in whatever case and spacing, and
      stores it in lower case, moderate as medium. What it makes of `info` and
      `none`, though valid in a policy, and of other words for harmless is
      `informational`, which no saved policy can name. */
  lemma {:induction false} ImportedIsNamedIff(word: string)
    ensures var stored, key := Normalised(word), Lower(Strip(word));
      && (Lower(stored) in VALID_SEVERITIES <==> stored in VALID_SEVERITIES)
      && (stored in VALID_SEVERITIES <==> key in NAMED_WORDS)
      && (key in NAMED_WORDS ==> stored == (if key == "moderate" then "medium" else key))
      && (key in HARMLESS_WORDS ==> stored == INFORMATIONAL)
      && (key !in NAMED_WORDS && key !in HARMLESS_WORDS ==> stored == word)
  {
    var key := Lower(Strip(word));
    NamedIsListed(key);
    if key in SEVERITY_WORDS { ListedGivesLower(key, SEVERITY_WORDS[key]); } else { KeptIsNotValid(word); }
  }

  const HARMLESS_WORDS: set<string> := {"info", "informational", "none", "log", "debug"}

  lemma {:induction false} NamedIsListed(key: string)
    ensures key in NAMED_WORDS || key in HARMLESS_WORDS <==> key in SEVERITY_WORDS
    ensures key in HARMLESS_WORDS ==> key !in NAMED_WORDS
  {
  }

  /** A word no import rewrites, in which some spelling of it is not asked for. */
  ghost predicate Misspellable(s: string, severities: seq<string>) {
    Strip(s) !in SEVERITY_WORDS && exists word :: Lower(word) == s && word !in severities
  }

  /** The policy asks neither for a missing severity nor for such a word. */
  ghost predicate Known(p: Policy) {
    "" !in p.severities && forall s :: s in p.severities ==> !Misspellable(s, p.severities)
  }

  lemma {:induction false} SavedIsKnown(p: Policy)
    requires AllValid(p.severities)
    ensures Known(p)
  {
    assert "" !in VALID_SEVERITIES;
    forall s | s in p.severities ensures Strip(s) in SEVERITY_WORDS {
      ValidIsLower(s);
      ValidIsUnspaced(s);
      ValidIsListed(s);
    }
  }

  lemma {:induction false} LowerLength(s: string)
    ensures |Lower(s)| == |s|
  {
    if s != "" { LowerLength(s[1..]); }
  }

  lemma {:induction false} LowerOfPart(s: string, lo: nat, hi: nat)
    requires lo <= hi <= |s|
    ensures |Lower(s)| == |s| && Lower(s[lo..hi]) == Lower(s)[lo..hi]
  {
    var part := s[lo..hi];
    LowerLength(s);
    LowerLength(part);
    forall i | 0 <= i < |part| ensures Lower(part)[i] == Lower(s)[lo + i] {
      LowerAt(part, i);
      LowerAt(s, lo + i);
    }
  }

  lemma {:induction false} StripLeftOfLower(s: string)
    ensures StripLeft(Lower(s)) == Lower(StripLeft(s))
  {
    if s != "" {
      LowerOfPart(s, 1, |s|);
      if IsSpace(s[0]) { StripLeftOfLower(s[1..]); }
    }
  }

  lemma {:induction false} StripRightOfLower(s: string)
    ensures StripRight(Lower(s)) == Lower(StripRight(s))
  {
    if s != "" {
      LowerOfPart(s, 0, |s| - 1);
      LowerAt(s, |s| - 1);
      if IsSpace(s[|s| - 1]) { StripRightOfLower(s[..|s| - 1]); }
    }
  }

  lemma {:induction false} StripOfLower(s: string)
    ensures Strip(Lower(s)) == Lower(Strip(s))
  {
    StripLeftOfLower(s);
    StripRightOfLower(StripLeft(s));
  }

  /** So nothing the importers or the feed wrote is dropped by the query, under
      any saved policy ... */
  lemma {:induction false} QueryKeepsWhatIsWritten(f: Finding, p: Policy, w: Written)
    requires Matches(f, p) && Known(p) && f.severity == Stored(w)
    ensures Queried(f, p)
  {
    QueryDropsIff(f, p);
    assert Lower("") == "";
    if p.severities != [] {
      match w
      case Unwritten =>
      case FromFeed(word) => LowerTwice(word);
      case Imported(word) =>
        var key := Lower(Strip(word));
        StripOfLower(word);
        if key in SEVERITY_WORDS {
          ListedGivesLower(key, SEVERITY_WORDS[key]);
        } else {
          assert Strip(Lower(word)) !in SEVERITY_WORDS;
        }
    }
  }

  /** ... and of the policies that are only previewed, under exactly those that are
      known. */
  lemma {:induction false} WrittenIsKeptIff(p: Policy)
    ensures (forall f, w :: Matches(f, p) && f.severity == Stored(w) ==> Queried(f, p)) <==> Known(p)
  {
    if Known(p) {
      forall f, w | Matches(f, p) && f.severity == Stored(w) ensures Queried(f, p) {
        QueryKeepsWhatIsWritten(f, p, w);
      }
    } else if "" in p.severities {
      AcceptedMatches(p, None);
      assert Accepted(p, None).severity == Stored(Unwritten);
    } else {
      var s :| s in p.severities && Misspellable(s, p.severities);
      var word :| Lower(word) == s && word !in p.severities;
      StripOfLower(word);
      AcceptedMatches(p, Some(word));
      assert Accepted(p, Some(word)).severity == Stored(Imported(word));
    }
  }

  /** One is not: an import keeps "Urgent" as it is, and the query for `urgent`
      does not find it. */
  lemma {:induction false} AnUnknownWordLosesAFinding(word: string)
    requires word == "Urgent"
    ensures var p := SWITCHED_ON.(severities := ["urgent"]);
      var f := Accepted(p, Stored(Imported(word)));
      Matches(f, p) && !Queried(f, p)
  {
    assert word == ['U'] + word[1..] && word[1..] == "rgent";
    LowerAfterFirst('U', word[1..]);
    UnspacedStripsToItself(word);
    assert Lower(word) == "urgent" && "urgent" !in SEVERITY_WORDS;
    AcceptedMatches(SWITCHED_ON.(severities := ["urgent"]), Some(word));
  }

  const SWITCHED_ON: Policy :=
    Policy(true, Some(DEFAULT_MIN_RISK_SCORE), [], false, false, true, DEFAULT_MAX_PER_RUN)

  lemma {:induction false} LowerAfterFirst(c: char, rest: string)
    requires NoCapitals(rest)
    ensures Lower([c] + rest) == [LowerChar(c)] + rest
  {
    LowerOfLower(rest);
  }

  lemma {:induction false} CriticalInLower(word: string)
    requires word == "Critical"
    ensures Lower(word) == "critical" && word != "critical"
  {
    assert word == ['C'] + word[1..] && word[1..] == "ritical";
    LowerAfterFirst('C', word[1..]);
  }

  /** A row written any other way can be: this one is accepted and not queried. */
  lemma {:induction false} ACapitalLosesAFinding(word: string)
    requires word == "Critical"
    ensures var p := SWITCHED_ON.(severities := ["critical"]);
      var f := Finding(1, "new", Some(90.0), Some(word), true, true, None);
      Matches(f, p) && !Queried(f, p)
  {
    CriticalInLower(word);
  }

  /** Closed findings are never ticketed. Remediated ones are, wherever the same
      finding would be in any other open state: `remediated` is one of them. */
  lemma {:induction false} RemediatedIsStillTicketed(f: Finding, p: Policy)
    ensures f.state in CLOSED ==> !Matches(f, p)
    ensures f.state in OPEN ==> (Matches(f.(state := "remediated"), p) <==> Matches(f, p))
  {
  }

  /** One that the default policy, switched on, opens a ticket for. */
  lemma {:induction false} ARemediatedFindingIsTicketed(created: seq<real>, now: real)
    ensures var f := Finding(1, "remediated", Some(90.0), Some("high"), false, true, None);
      Opens([], Call(now, f, SWITCHED_ON, true))
  {
  }

  // ------------------------------------------------------ preview and backfill --

  /** The rows worth a ticket: accepted by the predicate, with none open yet. */
  function Eligible(rows: seq<Finding>, p: Policy, ticketed: set<nat>): seq<Finding> {
    if rows == [] then []
    else
      var last := rows[|rows| - 1];
      Eligible(rows[..|rows| - 1], p, ticketed) +
      if Matches(last, p) && last.id !in ticketed then [last] else []
  }

  function CountTicketed(rows: seq<Finding>, p: Policy, ticketed: set<nat>): nat {
    if rows == [] then 0
    else
      var last := rows[|rows| - 1];
      CountTicketed(rows[..|rows| - 1], p, ticketed) + if Matches(last, p) && last.id in ticketed then 1 else 0
  }

  function CountMatches(rows: seq<Finding>, p: Policy): nat {
    if rows == [] then 0
    else CountMatches(rows[..|rows| - 1], p) + if Matches(rows[|rows| - 1], p) then 1 else 0
  }

  /** Every row the predicate accepts is either eligible or already ticketed, and
      the eligible ones are exactly the accepted rows without a ticket. */
  lemma {:induction false} EveryMatchIsCountedOnce(rows: seq<Finding>, p: Policy, ticketed: set<nat>, f: Finding)
    ensures |Eligible(rows, p, ticketed)| + CountTicketed(rows, p, ticketed) == CountMatches(rows, p)
    ensures f in Eligible(rows, p, ticketed) <==> f in rows && Matches(f, p) && f.id !in ticketed
  {
    if rows != [] {
      EveryMatchIsCountedOnce(rows[..|rows| - 1], p, ticketed, f);
      assert rows == rows[..|rows| - 1] + [rows[|rows| - 1]];
    }
  }

  /** `candidates` is an answer of the query over the estate, in any order. */
  ghost predicate Answers(candidates: seq<Finding>, estate: seq<Finding>, p: Policy) {
    forall f :: multiset(candidates)[f] == if Queried(f, p) then multiset(estate)[f] else 0
  }

  lemma {:induction false} EligibleCopies(rows: seq<Finding>, p: Policy, ticketed: set<nat>, f: Finding)
    ensures multiset(Eligible(rows, p, ticketed))[f] ==
            if Matches(f, p) && f.id !in ticketed then multiset(rows)[f] else 0
  {
    if rows != [] {
      EligibleCopies(rows[..|rows| - 1], p, ticketed, f);
      assert rows == rows[..|rows| - 1] + [rows[|rows| - 1]];
    }
  }

  /** What preview and backfill find among the queried rows, the ceiling not
      being reached, is what they would find in the whole estate exactly when
      every finding worth a ticket has a severity that is asked for as it stands. */
  lemma {:induction false} WholeEstateIff(estate: seq<Finding>, candidates: seq<Finding>, p: Policy, ticketed: set<nat>)
    requires Answers(candidates, estate, p) && |candidates| <= BACKFILL_CEILING
    ensures multiset(Eligible(Prefix(candidates, BACKFILL_CEILING), p, ticketed))
            == multiset(Eligible(estate, p, ticketed)) <==>
            forall f :: f in Eligible(estate, p, ticketed) ==> AsAsked(f, p)
  {
    var found, all := Eligible(candidates, p, ticketed), Eligible(estate, p, ticketed);
    assert Prefix(candidates, BACKFILL_CEILING) == candidates;
    forall f
      ensures multiset(found)[f] == if f in all && !AsAsked(f, p) then 0 else multiset(all)[f]
    {
      EligibleCopies(candidates, p, ticketed, f);
      EligibleCopies(estate, p, ticketed, f);
      assert f in multiset(all) <==> f in all;
      if Matches(f, p) { QueryDropsIff(f, p); }
    }
    if f :| f in all && !AsAsked(f, p) {
      assert f in multiset(all) && f !in multiset(found);
    }
  }

  lemma {:induction false} NoneTicketed(rows: seq<Finding>, p: Policy)
    ensures CountTicketed(rows, p, {}) == 0
  {
    if rows != [] { NoneTicketed(rows[..|rows| - 1], p); }
  }

  ghost predicate WrittenByThePlatform(estate: seq<Finding>) {
    forall f :: f in estate ==> exists w :: f.severity == Stored(w)
  }

  /** So over an estate the importers and the feed wrote, both counts are those of
      the whole estate and the rows are the same. */
  lemma {:induction false} CountsAreOfTheEstate(estate: seq<Finding>, candidates: seq<Finding>, p: Policy,
                                                ticketed: set<nat>)
    requires Answers(candidates, estate, p) && Known(p) && |candidates| <= BACKFILL_CEILING
    requires WrittenByThePlatform(estate)
    ensures var rows := Prefix(candidates, BACKFILL_CEILING);
      && multiset(Eligible(rows, p, ticketed)) == multiset(Eligible(estate, p, ticketed))
      && |Eligible(rows, p, ticketed)| == |Eligible(estate, p, ticketed)|
      && CountTicketed(rows, p, ticketed) == CountTicketed(estate, p, ticketed)
  {
    var rows := Prefix(candidates, BACKFILL_CEILING);
    SameRows(estate, candidates, p, ticketed);
    SameRows(estate, candidates, p, {});
    if rows != [] || estate != [] {
      var f := if rows != [] then rows[0] else estate[0];
      EveryMatchIsCountedOnce(rows, p, ticketed, f);
      EveryMatchIsCountedOnce(estate, p, ticketed, f);
      EveryMatchIsCountedOnce(rows, p, {}, f);
      EveryMatchIsCountedOnce(estate, p, {}, f);
      NoneTicketed(rows, p);
      NoneTicketed(estate, p);
    }
  }

  lemma {:induction false} SameRows(estate: seq<Finding>, candidates: seq<Finding>, p: Policy, ticketed: set<nat>)
    requires Answers(candidates, estate, p) && Known(p) && |candidates| <= BACKFILL_CEILING
    requires WrittenByThePlatform(estate)
    ensures var rows := Prefix(candidates, BACKFILL_CEILING);
      && multiset(Eligible(rows, p, ticketed)) == multiset(Eligible(estate, p, ticketed))
      && |Eligible(rows, p, ticketed)| == |Eligible(estate, p, ticketed)|
  {
    forall f | f in Eligible(estate, p, ticketed) ensures AsAsked(f, p) {
      EveryMatchIsCountedOnce(estate, p, ticketed, f);
      var w :| f.severity == Stored(w);
      QueryKeepsWhatIsWritten(f, p, w);
      QueryDropsIff(f, p);
    }
    WholeEstateIff(estate, candidates, p, ticketed);
    SameSize(Eligible(Prefix(candidates, BACKFILL_CEILING), p, ticketed), Eligible(estate, p, ticketed));
  }

  lemma {:induction false} SameSize(a: seq<Finding>, b: seq<Finding>)
    requires multiset(a) == multiset(b)
    ensures |a| == |b|
  {
    assert |multiset(a)| == |a| && |multiset(b)| == |b|;
  }

  function Ids(findings: seq<Finding>): seq<nat> {
    if findings == [] then [] else Ids(findings[..|findings| - 1]) + [findings[|findings| - 1].id]
  }

  function Prefix<T>(s: seq<T>, n: nat): seq<T> {
    if n < |s| then s[..n] else s
  }

  function Clamped(limit: int): nat {
    if limit < 1 then 1 else if limit > BACKFILL_CEILING then BACKFILL_CEILING else limit
  }

  ghost predicate DistinctIds(rows: seq<Finding>) {
    forall i, k :: 0 <= i < k < |rows| ==> rows[i].id != rows[k].id
  }

  function SeverityKey(f: Finding): string {
    Lower(if SeverityText(f) == "" then "unknown" else SeverityText(f))
  }

  function CountKey(findings: seq<Finding>, key: string): nat {
    if findings == [] then 0
    else
      CountKey(findings[..|findings| - 1], key) + if SeverityKey(findings[|findings| - 1]) == key then 1 else 0
  }

  /** How many of the findings have each severity, and no key for none. */
  ghost predicate Tallies(tally: map<string, nat>, findings: seq<Finding>) {
    forall key :: (if key in tally then tally[key] else 0) == CountKey(findings, key)
                  && (key in tally ==> tally[key] > 0)
  }

  method TallySeverities(findings: seq<Finding>) returns (tally: map<string, nat>)
    ensures Tallies(tally, findings)
  {
    tally := map[];
    for i := 0 to |findings|
      invariant Tallies(tally, findings[..i])
    {
      assert findings[..i + 1][..i] == findings[..i];
      var key := SeverityKey(findings[i]);
      tally := tally[key := (if key in tally then tally[key] else 0) + 1];
    }
    assert findings[..|findings|] == findings;
  }

  /** A backfill takes at least one and at most 2000, and what was asked for between;
      of those it takes the first ones, by their ids. */
  lemma {:induction false} TheFirstAreTaken(found: seq<Finding>, limit: int, i: nat)
    ensures 1 <= Clamped(limit) <= 2000 && (1 <= limit <= 2000 ==> Clamped(limit) == limit)
    ensures limit < 1 ==> Clamped(limit) == 1
    ensures limit > 2000 ==> Clamped(limit) == 2000
    ensures var taken := Ids(Prefix(found, Clamped(limit)));
      && |taken| == (if |found| < Clamped(limit) then |found| else Clamped(limit))
      && (i < |taken| ==> taken[i] == found[i].id)
  {
    IdsAre(Prefix(found, Clamped(limit)), i);
  }

  lemma {:induction false} IdsAre(findings: seq<Finding>, i: nat)
    ensures |Ids(findings)| == |findings| && (i < |findings| ==> Ids(findings)[i] == findings[i].id)
  {
    if findings != [] { IdsAre(findings[..|findings| - 1], i); }
  }

  /** Findings are told apart by severity in lower case, those without one as unknown. */
  lemma {:induction false} SeverityKeyIs(f: Finding)
    ensures f.severity in {None, Some("")} ==> SeverityKey(f) == "unknown"
    ensures f.severity.Some? && f.severity.value != "" ==> SeverityKey(f) == Lower(f.severity.value)
  {
    UnknownInLower("unknown");
  }

  lemma {:induction false} UnknownInLower(word: string)
    requires word == "unknown"
    ensures Lower(word) == word
  {
    LowerOfLower(word);
  }

  lemma {:induction false} CountKeySplits(findings: seq<Finding>, f: Finding, key: string)
    ensures CountKey(findings + [f], key) == CountKey(findings, key) + if SeverityKey(f) == key then 1 else 0
    ensures CountKey([], key) == 0
  {
    assert (findings + [f])[..|findings|] == findings;
  }

  // --------------------------------------------------------------- the budget --

  const BUDGET_WINDOW: real := 3600.0

  function Cap(p: Policy): int {
    if p.maxPerRun == 0 then DEFAULT_MAX_PER_RUN else p.maxPerRun
  }

  function RecentCreated(created: seq<real>, now: real): nat {
    if created == [] then 0
    else RecentCreated(created[..|created| - 1], now) + if created[|created| - 1] >= now - BUDGET_WINDOW then 1 else 0
  }

  function BudgetLeft(created: seq<real>, p: Policy, now: real): int {
    if Cap(p) - RecentCreated(created, now) < 0 then 0 else Cap(p) - RecentCreated(created, now)
  }

  /** One call of consider(): whether the finding qualifies under the policy of
      the moment, and whether opening a ticket makes a new one. */
  datatype Call = Call(now: real, finding: Finding, policy: Policy, opens: bool)

  predicate Opens(created: seq<real>, call: Call) {
    call.policy.enabled && Matches(call.finding, call.policy) && BudgetLeft(created, call.policy, call.now) > 0
    && call.opens
  }

  // ------------------------------------------------------------ what acts on them --

  datatype Preview = Preview(wouldCreate: nat, alreadyTicketed: nat, scanned: nat, truncated: bool,
                             bySeverity: map<string, nat>,
                             sample: seq<Finding>)

  datatype Backfill = Backfill(created: seq<nat>, skippedExisting: nat, eligible: nat, capped: bool, remaining: nat)

  class Tracker {
    /** The findings with an open ticket. */
    var ticketed: set<nat>
    /** When the automation opened a ticket, oldest first. */
    var autoCreated: seq<real>

    constructor ()
      ensures ticketed == {} && autoCreated == []
    {
      ticketed, autoCreated := {}, [];
    }

    /** Idempotent: a finding with an open ticket gets that one. */
    method OpenForFinding(f: Finding) returns (created: bool)
      modifies this`ticketed
      ensures created == (f.id !in old(ticketed)) && ticketed == old(ticketed) + {f.id}
    {
      created := f.id !in ticketed;
      ticketed := ticketed + {f.id};
    }

    /** One finding, after correlation has scored it. A ticket that cannot be
        opened (`fails`) is given up without losing the finding. */
    method Consider(f: Finding, p: Policy, now: real, fails: bool) returns (created: bool)
      modifies this
      ensures created == Opens(old(autoCreated), Call(now, f, p, !fails && f.id !in old(ticketed)))
      ensures autoCreated == old(autoCreated) + if created then [now] else []
      ensures ticketed == old(ticketed) + if created then {f.id} else {}
    {
      if !p.enabled { return false; }
      if !Matches(f, p) { return false; }
      if BudgetLeft(autoCreated, p, now) <= 0 { return false; }
      if fails { return false; }
      created := OpenForFinding(f);
      if created { autoCreated := autoCreated + [now]; }
    }

    /** `candidates` is the whole answer of the query, in its order. */
    method PreviewPolicy(candidates: seq<Finding>, p: Policy, limit: nat) returns (r: Preview)
      ensures var rows := Prefix(candidates, limit);
        && r.wouldCreate == |Eligible(rows, p, ticketed)|
        && r.alreadyTicketed == CountTicketed(rows, p, ticketed)
        && r.scanned == |rows| && r.truncated == (|candidates| >= limit)
        && Tallies(r.bySeverity, Eligible(rows, p, ticketed))
        && r.sample == Prefix(Eligible(rows, p, ticketed), 20)
    {
      var rows := Prefix(candidates, limit);
      var wouldCreate: seq<Finding> := [];
      var already := 0;
      for i := 0 to |rows|
        invariant wouldCreate == Eligible(rows[..i], p, ticketed)
        invariant already == CountTicketed(rows[..i], p, ticketed)
      {
        assert rows[..i + 1][..i] == rows[..i];
        var f := rows[i];
        if !Matches(f, p) { continue; }
        if f.id in ticketed {
          already := already + 1;
          continue;
        }
        wouldCreate := wouldCreate + [f];
      }
      assert rows[..|rows|] == rows;
      var bySeverity := TallySeverities(wouldCreate);
      r := Preview(|wouldCreate|, already, |rows|, |rows| >= limit, bySeverity, Prefix(wouldCreate, 20));
    }

    /** A dry run and a real one report the same; only the real one opens
        tickets, for exactly the first `limit` eligible findings. */
    method RunBackfill(candidates: seq<Finding>, p: Policy, dryRun: bool, limit: int) returns (r: Backfill)
      requires DistinctIds(candidates)
      modifies this`ticketed
      ensures var rows := Prefix(candidates, BACKFILL_CEILING);
        var eligible := Eligible(rows, p, old(ticketed));
        && r.eligible == |eligible|
        && r.created == Ids(Prefix(eligible, Clamped(limit)))
        && r.skippedExisting == CountTicketed(rows, p, old(ticketed))
        && |r.created| <= Clamped(limit) && |r.created| + r.remaining == r.eligible
        && (r.capped <==> r.remaining > 0)
        && ticketed == old(ticketed) + if dryRun then {} else Opened(r.created)
    {
      var cap := Clamped(limit);
      var rows := Prefix(candidates, BACKFILL_CEILING);
      var created: seq<nat> := [];
      var skipped, eligible := 0, 0;
      ghost var before, found := ticketed, [];
      for i := 0 to |rows|
        invariant Progress(rows, i, p, before, cap, found, created, skipped) && eligible == |found|
        invariant ticketed == before + if dryRun then {} else Opened(created)
      {
        var f := rows[i];
        ProgressOn(rows, i, p, before, cap, found, created, skipped);
        if !Matches(f, p) { continue; }
        if f.id in ticketed {
          skipped := skipped + 1;
          continue;
        }
        found := found + [f];
        eligible := eligible + 1;
        if |created| >= cap { continue; }
        if dryRun {
          created := created + [f.id];
          continue;
        }
        OpenedOneMore(created, f.id);
        var wasCreated := OpenForFinding(f);
        if wasCreated { created := created + [f.id]; }
      }
      assert rows[..|rows|] == rows;
      var remaining := if eligible > |created| then eligible - |created| else 0;
      r := Backfill(created, skipped, eligible, eligible > |created|, remaining);
    }
  }

  /** Where the backfill stands after n rows. */
  ghost predicate Progress(rows: seq<Finding>, n: nat, p: Policy, ticketed: set<nat>, cap: nat,
                           found: seq<Finding>, created: seq<nat>, skipped: nat)
    requires n <= |rows|
  {
    && found == Eligible(rows[..n], p, ticketed)
    && created == Ids(Prefix(found, cap)) && |created| == |Prefix(found, cap)|
    && skipped == CountTicketed(rows[..n], p, ticketed)
    && Unseen(rows, n, created)
  }

  lemma {:induction false} ProgressOn(rows: seq<Finding>, i: nat, p: Policy, ticketed: set<nat>, cap: nat,
                   found: seq<Finding>, created: seq<nat>, skipped: nat)
    requires i < |rows| && DistinctIds(rows) && Progress(rows, i, p, ticketed, cap, found, created, skipped)
    ensures rows[i].id !in created
    ensures var f := rows[i];
      if !Matches(f, p) then Progress(rows, i + 1, p, ticketed, cap, found, created, skipped)
      else if f.id in ticketed then Progress(rows, i + 1, p, ticketed, cap, found, created, skipped + 1)
      else if |created| >= cap then Progress(rows, i + 1, p, ticketed, cap, found + [f], created, skipped)
      else Progress(rows, i + 1, p, ticketed, cap, found + [f], created + [f.id], skipped)
  {
    NextRow(rows, i, p, ticketed);
    UnseenAfter(rows, i, created);
    IdsOfOneMore(found, rows[i], cap);
  }

  lemma {:induction false} OpenedOneMore(created: seq<nat>, id: nat)
    ensures Opened(created + [id]) == Opened(created) + {id}
  {
  }

  ghost function Opened(ids: seq<nat>): set<nat> {
    set id | id in ids
  }

  /** No row from `n` on has a ticket yet. */
  ghost predicate Unseen(rows: seq<Finding>, n: nat, created: seq<nat>)
    requires n <= |rows|
  {
    forall k :: n <= k < |rows| ==> rows[k].id !in created
  }

  lemma {:induction false} UnseenAfter(rows: seq<Finding>, i: nat, created: seq<nat>)
    requires DistinctIds(rows) && i < |rows| && Unseen(rows, i, created)
    ensures rows[i].id !in created
    ensures Unseen(rows, i + 1, created) && Unseen(rows, i + 1, created + [rows[i].id])
  {
  }

  lemma {:induction false} NextRow(rows: seq<Finding>, i: nat, p: Policy, ticketed: set<nat>)
    requires i < |rows|
    ensures Eligible(rows[..i + 1], p, ticketed) ==
            if Matches(rows[i], p) && rows[i].id !in ticketed then Eligible(rows[..i], p, ticketed) + [rows[i]]
            else Eligible(rows[..i], p, ticketed)
    ensures CountTicketed(rows[..i + 1], p, ticketed) ==
            CountTicketed(rows[..i], p, ticketed) + if Matches(rows[i], p) && rows[i].id in ticketed then 1 else 0
  {
    assert rows[..i + 1][..i] == rows[..i];
  }

  lemma {:induction false} IdsOfOneMore(found: seq<Finding>, f: Finding, cap: nat)
    ensures Ids(Prefix(found + [f], cap)) ==
            if |found| < cap then Ids(Prefix(found, cap)) + [f.id] else Ids(Prefix(found, cap))
    ensures |Prefix(found + [f], cap)| == if |found| < cap then |found| + 1 else cap
  {
    if |found| < cap {
      assert (found + [f])[..|found + [f]| - 1] == found;
    } else if |found| == cap {
      assert (found + [f])[..cap] == found;
    } else {
      assert (found + [f])[..cap] == found[..cap];
    }
  }

  // ------------------------------------------------------ the budget over time --

  /** When the automation's own tickets were opened. */
  function OpenedBy(calls: seq<Call>): seq<real> {
    if calls == [] then []
    else
      var before := OpenedBy(calls[..|calls| - 1]);
      var last := calls[|calls| - 1];
      if Opens(before, last) then before + [last.now] else before
  }

  ghost predicate Clocked(calls: seq<Call>) {
    forall i, k :: 0 <= i <= k < |calls| ==> calls[i].now <= calls[k].now
  }

  lemma {:induction false} RecentIsASuffix(created: seq<real>, now: real, n: nat)
    requires NonDecreasing(created) && n < |created| && created[n] >= now - BUDGET_WINDOW
    ensures RecentCreated(created, now) >= |created| - n
  {
    var last := |created| - 1;
    if n < last {
      RecentIsASuffix(created[..last], now, n);
    }
  }

  lemma {:induction false} BudgetKeepsSpacing(calls: seq<Call>, most: nat)
    requires Clocked(calls) && forall i :: 0 <= i < |calls| ==> Cap(calls[i].policy) <= most
    ensures var created := OpenedBy(calls);
      && NonDecreasing(created) && Spaced(created, most, BUDGET_WINDOW)
      && (forall i :: 0 <= i < |created| ==> calls != [] && created[i] <= calls[|calls| - 1].now)
  {
    if calls != [] {
      var before, last := calls[..|calls| - 1], calls[|calls| - 1];
      BudgetKeepsSpacing(before, most);
      if before != [] { assert calls[|before| - 1].now <= last.now; }
      if Opens(OpenedBy(before), last) {
        OpeningKeepsSpacing(OpenedBy(before), last.now, most);
      }
    }
  }

  lemma {:induction false} OpeningKeepsSpacing(created: seq<real>, now: real, most: nat)
    requires NonDecreasing(created) && Spaced(created, most, BUDGET_WINDOW) && RecentCreated(created, now) < most
    requires forall i :: 0 <= i < |created| ==> created[i] <= now
    ensures NonDecreasing(created + [now]) && Spaced(created + [now], most, BUDGET_WINDOW)
  {
    forall i | 0 <= i && i + most <= |created| ensures now - created[i] > BUDGET_WINDOW {
      if created[i] >= now - BUDGET_WINDOW { RecentIsASuffix(created, now, i); }
    }
  }

  lemma {:induction false} RecentIsCounted(created: seq<real>, now: real)
    requires forall i :: 0 <= i < |created| ==> created[i] <= now
    ensures RecentCreated(created, now) == CountIn(created, now - 3600.0, now)
  {
    if created != [] { RecentIsCounted(created[..|created| - 1], now); }
  }

  /** A finding considered opens a ticket exactly when the policy is on and accepts
      it, fewer tickets than the cap were opened in the closed hour that ends now,
      and there is a ticket to open; a cap of 0 means fifty. */
  lemma {:induction false} ATicketOpensIff(calls: seq<Call>, call: Call)
    requires Clocked(calls + [call])
    ensures var created, p := OpenedBy(calls), call.policy;
      var opens := && p.enabled && Matches(call.finding, p) && call.opens
                   && CountIn(created, call.now - 3600.0, call.now) < (if p.maxPerRun == 0 then 50 else p.maxPerRun);
      OpenedBy(calls + [call]) == created + (if opens then [call.now] else [])
  {
    var all := calls + [call];
    assert all[..|all| - 1] == calls;
    assert forall i :: 0 <= i < |calls| ==> calls[i] == all[i] && all[i].now <= all[|calls|].now;
    OpenedBefore(calls, call.now);
    RecentIsCounted(OpenedBy(calls), call.now);
  }

  lemma {:induction false} OpenedBefore(calls: seq<Call>, now: real)
    requires forall i :: 0 <= i < |calls| ==> calls[i].now <= now
    ensures forall i :: 0 <= i < |OpenedBy(calls)| ==> OpenedBy(calls)[i] <= now
  {
    if calls != [] { OpenedBefore(calls[..|calls| - 1], now); }
  }

  /** However many findings are considered, from however many places one after
      another, no closed hour holds more automatic tickets than the cap. */
  lemma {:induction false} AtMostTheCapAnHour(calls: seq<Call>, most: nat, lo: real)
    requires Clocked(calls) && forall i :: 0 <= i < |calls| ==> Cap(calls[i].policy) <= most
    ensures CountIn(OpenedBy(calls), lo, lo + BUDGET_WINDOW) <= most
  {
    BudgetKeepsSpacing(calls, most);
    SpacedBoundsEveryInterval(OpenedBy(calls), most, BUDGET_WINDOW, lo);
  }
}
