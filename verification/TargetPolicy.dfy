/** Target authorisation: which hosts an execution agent may be pointed at.

    Address parsing, network membership, glob matching and URL splitting are
    library calls the service makes; they enter as the functions of a TextLib,
    so every statement below holds whatever those calls answer. */
module TargetPolicy {
  import opened Wrappers

  datatype Address = Address(version: nat, value: nat)

  datatype TextLib = TextLib(
    normalise: string -> string,           // strip().lower()
    hostOf: string -> Option<string>,      // the host of a target, or a refusal
    asIp: string -> Option<Address>,
    isReserved: Address -> bool,
    isNetwork: string -> bool,
    inNetwork: (Address, string) -> bool,  // false for a malformed network
    glob: (string, string) -> bool)

  datatype Policy = Policy(allowed: seq<string>, denied: seq<string>, requireAssetMatch: bool)

  /** What may be stored as a rule: some text, and a network if it has a slash. */
  predicate WellFormed(lib: TextLib, policy: Policy) {
    forall r :: r in policy.allowed + policy.denied ==>
      lib.normalise(r) != "" && ('/' in r ==> lib.isNetwork(r))
  }

  function Normalised(lib: TextLib, rules: seq<string>): seq<string> {
    seq(|rules|, i requires 0 <= i < |rules| => lib.normalise(rules[i]))
  }

  /** How a policy is kept. */
  function Kept(lib: TextLib, policy: Policy): Policy {
    policy.(allowed := Normalised(lib, policy.allowed), denied := Normalised(lib, policy.denied))
  }

  datatype Reason = BadTarget | ReservedRange | DeniedByRule | NoAllowlist | NotCovered | UnknownAsset

  datatype Verdict = Granted(host: string, matchedRule: string) | Refused(reason: Reason)

  /** Does this host match one policy rule? A name is only ever compared with
      name patterns, an address only with addresses and networks. */
  predicate Matches(lib: TextLib, host: string, rawRule: string) {
    var rule := lib.normalise(rawRule);
    var address := lib.asIp(host);
    if rule == "" then false
    else if '/' in rule then address.Some? && lib.inNetwork(address.value, rule)
    else if address.Some? then lib.asIp(rule) == address
    else rule == "*" || lib.glob(host, rule)
  }

  function FirstMatch(lib: TextLib, host: string, rules: seq<string>): (r: Option<string>)
    ensures r.Some? <==> exists i :: 0 <= i < |rules| && Matches(lib, host, rules[i])
    ensures r.Some? ==> r.value in rules && Matches(lib, host, r.value)
  {
    if rules == [] then None
    else if Matches(lib, host, rules[0]) then Some(rules[0])
    else
      var rest := FirstMatch(lib, host, rules[1..]);
      assert forall i :: 0 < i < |rules| ==> rules[i] == rules[1..][i - 1];
      rest
  }

  predicate NamedLiterally(lib: TextLib, host: string, rules: seq<string>) {
    exists i :: 0 <= i < |rules| && lib.normalise(rules[i]) == host
  }

  /** The decision for one target; `policy` is None when the job is not pinned,
      and then only the tenant-wide rules apply. */
  function AuthoriseTarget(lib: TextLib, policy: Option<Policy>, assets: set<string>, target: string): Verdict {
    var split := lib.hostOf(target);
    if split.None? then Refused(BadTarget)
    else
      var host := split.value;
      var address := lib.asIp(host);
      if address.Some? && lib.isReserved(address.value)
         && !(policy.Some? && NamedLiterally(lib, host, policy.value.allowed)) then
        Refused(ReservedRange)
      else if policy.None? then Granted(host, "tenant-policy")
      else
        var p := policy.value;
        if FirstMatch(lib, host, p.denied).Some? then Refused(DeniedByRule)
        else if p.allowed == [] then Refused(NoAllowlist)
        else
          var matched := FirstMatch(lib, host, p.allowed);
          if matched.None? || matched.value == "" then Refused(NotCovered)
          else if p.requireAssetMatch && host !in assets then Refused(UnknownAsset)
          else Granted(host, matched.value)
  }

  predicate Authorised(lib: TextLib, policy: Policy, assets: set<string>, target: string) {
    AuthoriseTarget(lib, Some(policy), assets, target).Granted?
  }

  /** Normalising blank text yields blank text, as strip().lower() does. */
  ghost predicate Lawful(lib: TextLib) {
    lib.normalise("") == ""
  }

  /** A name is covered by a pattern, an address by itself or by its network. */
  predicate Covers(lib: TextLib, rule: string, host: string) {
    var r, address := lib.normalise(rule), lib.asIp(host);
    && r != ""
    && (address.None? ==> '/' !in r && (r == "*" || lib.glob(host, r)))
    && (address.Some? && '/' in r ==> lib.inNetwork(address.value, r))
    && (address.Some? && '/' !in r ==> lib.asIp(r) == Some(address.value))
  }

  lemma {:induction false} MatchesIffCovers(lib: TextLib, rules: seq<string>, host: string)
    ensures forall i :: 0 <= i < |rules| ==> (Matches(lib, host, rules[i]) <==> Covers(lib, rules[i], host))
  {
  }

  /** What it takes, stated rule by rule rather than in the order of the checks. */
  ghost predicate Permitted(lib: TextLib, policy: Policy, assets: set<string>, host: string) {
    var address := lib.asIp(host);
    && (address.Some? && lib.isReserved(address.value) ==> NamedLiterally(lib, host, policy.allowed))
    && (forall i :: 0 <= i < |policy.denied| ==> !Covers(lib, policy.denied[i], host))
    && (exists i :: 0 <= i < |policy.allowed| && Covers(lib, policy.allowed[i], host))
    && (policy.requireAssetMatch ==> host in assets)
  }

  lemma {:induction false} AuthorisedIff(lib: TextLib, policy: Policy, assets: set<string>, target: string)
    requires Lawful(lib)
    ensures Authorised(lib, policy, assets, target)
       <==> lib.hostOf(target).Some? && Permitted(lib, policy, assets, lib.hostOf(target).value)
  {
    if lib.hostOf(target).Some? {
      var host := lib.hostOf(target).value;
      var matched := FirstMatch(lib, host, policy.allowed);
      MatchesIffCovers(lib, policy.allowed, host);
      MatchesIffCovers(lib, policy.denied, host);
      if matched.Some? {
        assert Matches(lib, host, matched.value);
        assert matched.value != "";
      }
    }
  }

  ghost predicate SomeCovers(lib: TextLib, rules: seq<string>, host: string) {
    exists i :: 0 <= i < |rules| && Covers(lib, rules[i], host)
  }

  /** And why not, if not: the first of these that holds. */
  ghost function WhyNot(lib: TextLib, policy: Policy, assets: set<string>, target: string): Option<Reason> {
    if lib.hostOf(target).None? then Some(BadTarget)
    else
      var host := lib.hostOf(target).value;
      var address := lib.asIp(host);
      if address.Some? && lib.isReserved(address.value)
         && forall i :: 0 <= i < |policy.allowed| ==> lib.normalise(policy.allowed[i]) != host
      then Some(ReservedRange)
      else if SomeCovers(lib, policy.denied, host) then Some(DeniedByRule)
      else if |policy.allowed| == 0 then Some(NoAllowlist)
      else if !SomeCovers(lib, policy.allowed, host) then Some(NotCovered)
      else if policy.requireAssetMatch && host !in assets then Some(UnknownAsset)
      else None
  }

  /** A refusal names its reason, and a grant the host and a rule that covers it. */
  lemma {:induction false} VerdictSaysWhy(lib: TextLib, policy: Policy, assets: set<string>, target: string)
    requires Lawful(lib)
    ensures var verdict, why := AuthoriseTarget(lib, Some(policy), assets, target), WhyNot(lib, policy, assets, target);
      && (why.Some? ==> verdict == Refused(why.value))
      && (why.None? ==>
            && verdict.Granted? && Some(verdict.host) == lib.hostOf(target)
            && verdict.matchedRule in policy.allowed && Covers(lib, verdict.matchedRule, verdict.host))
  {
    if lib.hostOf(target).Some? {
      var host := lib.hostOf(target).value;
      var denied, matched := FirstMatch(lib, host, policy.denied), FirstMatch(lib, host, policy.allowed);
      MatchesIffCovers(lib, policy.allowed, host);
      MatchesIffCovers(lib, policy.denied, host);
      if denied.Some? {
        var i :| 0 <= i < |policy.denied| && Matches(lib, host, policy.denied[i]);
        assert Covers(lib, policy.denied[i], host);
      }
      if matched.Some? {
        var i :| 0 <= i < |policy.allowed| && Matches(lib, host, policy.allowed[i]);
        assert Covers(lib, policy.allowed[i], host) && matched.value != "";
      }
    }
  }

  /** Widening the allowlist, or dropping deny rules, never takes a target away;
      equivalently, adding a deny rule never grants one. */
  lemma {:induction false} AuthorisedIsMonotone(lib: TextLib, narrow: Policy, wide: Policy,
      assets: set<string>, target: string)
    requires Lawful(lib)
    requires forall r :: r in narrow.allowed ==> r in wide.allowed
    requires forall r :: r in wide.denied ==> r in narrow.denied
    requires wide.requireAssetMatch ==> narrow.requireAssetMatch
    requires Authorised(lib, narrow, assets, target)
    ensures Authorised(lib, wide, assets, target)
  {
    AuthorisedIff(lib, narrow, assets, target);
    AuthorisedIff(lib, wide, assets, target);
    var host := lib.hostOf(target).value;
    var i :| 0 <= i < |narrow.allowed| && Matches(lib, host, narrow.allowed[i]);
    assert narrow.allowed[i] in wide.allowed;
    forall k | 0 <= k < |wide.denied| ensures !Matches(lib, host, wide.denied[k]) {
      assert wide.denied[k] in narrow.denied;
    }
    if lib.asIp(host).Some? && lib.isReserved(lib.asIp(host).value) {
      var k :| 0 <= k < |narrow.allowed| && lib.normalise(narrow.allowed[k]) == host;
      assert narrow.allowed[k] in wide.allowed;
    }
  }

  lemma {:induction false} FirstMatchAgrees(one: TextLib, two: TextLib, host: string, rules: seq<string>)
    requires forall i :: 0 <= i < |rules| ==> Matches(one, host, rules[i]) == Matches(two, host, rules[i])
    ensures FirstMatch(one, host, rules) == FirstMatch(two, host, rules)
  {
    if rules != [] {
      assert Matches(one, host, rules[0]) == Matches(two, host, rules[0]);
      forall i | 0 <= i < |rules[1..]|
        ensures Matches(one, host, rules[1..][i]) == Matches(two, host, rules[1..][i])
      {
        assert rules[1..][i] == rules[i + 1];
      }
      FirstMatchAgrees(one, two, host, rules[1..]);
    }
  }

  /** A name is authorised as a name: nothing the address parser, the network
      test or a resolver could say about any other text changes its verdict. */
  lemma {:induction false} NamesIgnoreAddressing(one: TextLib, two: TextLib, policy: Policy,
      assets: set<string>, target: string)
    requires one.normalise == two.normalise && one.glob == two.glob && one.hostOf == two.hostOf
    requires one.hostOf(target).Some?
    requires one.asIp(one.hostOf(target).value).None? && two.asIp(one.hostOf(target).value).None?
    ensures AuthoriseTarget(one, Some(policy), assets, target) == AuthoriseTarget(two, Some(policy), assets, target)
  {
    var host := one.hostOf(target).value;
    FirstMatchAgrees(one, two, host, policy.denied);
    FirstMatchAgrees(one, two, host, policy.allowed);
  }

  /** An address is authorised as an address: name patterns never reach it. */
  lemma {:induction false} AddressesIgnoreGlobs(one: TextLib, two: TextLib, policy: Policy,
      assets: set<string>, target: string)
    requires one == two.(glob := one.glob)
    requires one.hostOf(target).Some? && one.asIp(one.hostOf(target).value).Some?
    ensures AuthoriseTarget(one, Some(policy), assets, target) == AuthoriseTarget(two, Some(policy), assets, target)
  {
    var host := one.hostOf(target).value;
    FirstMatchAgrees(one, two, host, policy.denied);
    FirstMatchAgrees(one, two, host, policy.allowed);
  }
}
