/** What a team-restricted principal may see: the filter on list statements and
    the predicate on single rows. */
module TeamScope {
  import opened Wrappers

  type Team = nat

  datatype Scope = Scope(restricted: bool, teams: set<Team>, includeUnowned: bool)

  const UNRESTRICTED := Scope(false, {}, false)

  predicate IsEmpty(s: Scope) {
    s.restricted && s.teams == {}
  }

  // --------------------------------------------------------- SQL conditions --

  datatype Truth = Yes | No | Unknown

  /** Conditions on one nullable column. */
  datatype Clause = False | In(teams: set<Team>) | IsNull | Or(left: Clause, right: Clause)

  /** Three-valued, as a database evaluates it: NULL is in no list and not out of
      one either. */
  function Eval(c: Clause, column: Option<Team>): Truth {
    match c
    case False => No
    case In(teams) => if column.None? then Unknown else if column.value in teams then Yes else No
    case IsNull => if column.None? then Yes else No
    case Or(left, right) =>
      var l, r := Eval(left, column), Eval(right, column);
      if l.Yes? || r.Yes? then Yes else if l.No? && r.No? then No else Unknown
  }

  function Members(s: Scope): Clause {
    if IsEmpty(s) then False
    else if s.includeUnowned then Or(In(s.teams), IsNull)
    else In(s.teams)
  }

  /** A row survives the statement's WHERE only if the condition is true of it. */
  predicate Listed(s: Scope, owner: Option<Team>) {
    !s.restricted || Eval(Members(s), owner).Yes?
  }

  /** What the condition comes to. */
  lemma {:induction false} ListedMeans(s: Scope, owner: Option<Team>)
    ensures Listed(s, owner) <==>
              !s.restricted || if owner.Some? then owner.value in s.teams else s.includeUnowned && s.teams != {}
  {
    var named := In(s.teams);
    assert Eval(Or(named, IsNull), owner).Yes? <==> Eval(named, owner).Yes? || Eval(IsNull, owner).Yes?;
  }

  // ------------------------------------------------------------- the tables --

  datatype FindingRow = FindingRow(asset: nat, assignedTeam: Option<Team>)

  datatype TicketRow = TicketRow(finding: Option<nat>, assignedTeam: Option<Team>)

  datatype Tables = Tables(assets: map<nat, Option<Team>>, findings: map<nat, FindingRow>, tickets: map<nat, TicketRow>)

  function Coalesce(a: Option<Team>, b: Option<Team>): Option<Team> {
    if a.Some? then a else b
  }

  /** A scalar subquery over a row that is not there is NULL. */
  function AssetTeam(t: Tables, asset: nat): Option<Team> {
    if asset in t.assets then t.assets[asset] else None
  }

  function OwningTeam(t: Tables, f: FindingRow): Option<Team> {
    Coalesce(f.assignedTeam, AssetTeam(t, f.asset))
  }

  function OwningTeamForTicket(t: Tables, k: TicketRow): Option<Team> {
    Coalesce(k.assignedTeam,
             if k.finding.Some? && k.finding.value in t.findings then OwningTeam(t, t.findings[k.finding.value])
             else None)
  }

  // -------------------------------------------------------- single-row checks --

  predicate AssetVisible(team: Option<Team>, s: Scope) {
    if !s.restricted then true
    else if team.None? then s.includeUnowned
    else team.value in s.teams
  }

  predicate FindingVisible(t: Tables, f: FindingRow, s: Scope) {
    if !s.restricted then true
    else
      var team :=
        if f.assignedTeam.Some? then f.assignedTeam
        else if f.asset in t.assets then t.assets[f.asset]
        else None;
      if team.None? then s.includeUnowned else team.value in s.teams
  }

  predicate TicketVisible(t: Tables, k: TicketRow, s: Scope) {
    if !s.restricted then true
    else if k.assignedTeam.None? && k.finding.Some? && k.finding.value in t.findings then
      FindingVisible(t, t.findings[k.finding.value], s)
    else if k.assignedTeam.None? then s.includeUnowned
    else k.assignedTeam.value in s.teams
  }

  /** The lists and the single-row checks show the same rows. */
  ghost predicate Agree(t: Tables, s: Scope) {
    && (forall a :: a in t.assets ==> (Listed(s, t.assets[a]) <==> AssetVisible(t.assets[a], s)))
    && (forall f :: f in t.findings ==>
          (Listed(s, OwningTeam(t, t.findings[f])) <==> FindingVisible(t, t.findings[f], s)))
    && (forall k :: k in t.tickets ==>
          (Listed(s, OwningTeamForTicket(t, t.tickets[k])) <==> TicketVisible(t, t.tickets[k], s)))
  }

  /** An empty restricted scope that still lets unowned rows in. */
  predicate Torn(s: Scope) {
    IsEmpty(s) && s.includeUnowned
  }

  /** For a scope: the lists agree with the single-row checks over every possible
      estate exactly when it is not torn. The list filter fails closed there and
      the checks do not. */
  lemma {:induction false} ListsAgreeIff(s: Scope)
    ensures (forall t :: Agree(t, s)) <==> !Torn(s)
  {
    if Torn(s) {
      var t := Tables(map[0 := None], map[], map[]);
      assert 0 in t.assets && t.assets[0] == None;
      ListedMeans(s, None);
      assert !Agree(t, s);
    } else {
      forall t ensures Agree(t, s) { UntornAgrees(t, s); }
    }
  }

  lemma {:induction false} UntornAgrees(t: Tables, s: Scope)
    requires !Torn(s)
    ensures Agree(t, s)
  {
    forall owner: Option<Team> ensures Listed(s, owner) <==> AssetVisible(owner, s) { ListedMeans(s, owner); }
  }

  // ----------------------------------------------------- how scopes are made --

  /** From a user's grants: any estate-wide grant lifts the restriction. */
  function ResolveForUser(superuser: bool, grants: seq<Option<Team>>, unownedVisible: bool): Scope {
    if superuser then UNRESTRICTED
    else if grants == [] then Scope(true, {}, false)
    else if None in grants then UNRESTRICTED
    else Scope(true, set g | g in grants && g.Some? :: g.value, unownedVisible)
  }

  datatype Refusal = NotFound

  function ForTeam(s: Scope, team: Team): Result<Scope, Refusal> {
    if s.restricted && team !in s.teams then Err(NotFound) else Ok(Scope(true, {team}, false))
  }

  /** `tenants` is the tenant of each team there is. */
  function ResolveView(s: Scope, tenants: map<Team, nat>, tenant: nat, team: Option<Team>): Result<Scope, Refusal> {
    if team.None? then Ok(s)
    else if team.value !in tenants || tenants[team.value] != tenant then Err(NotFound)
    else ForTeam(s, team.value)
  }

  /** The scope a principal's read runs under, after any number of view filters. */
  function Narrowed(s: Scope, views: seq<Team>): Result<Scope, Refusal> {
    if views == [] then Ok(s)
    else
      var before := Narrowed(s, views[..|views| - 1]);
      if before.Err? then before else ForTeam(before.value, views[|views| - 1])
  }

  lemma {:induction false} ResolvedIsNotTorn(superuser: bool, grants: seq<Option<Team>>, unownedVisible: bool)
    ensures !Torn(ResolveForUser(superuser, grants, unownedVisible))
  {
    if !superuser && grants != [] && None !in grants {
      assert grants[0] in grants && grants[0].Some?;
      assert grants[0].value in ResolveForUser(superuser, grants, unownedVisible).teams;
    }
  }

  /** No scope the system makes is torn, so every list it serves agrees with the
      checks on every row, in every estate. */
  lemma {:induction false} ServedListsAgree(superuser: bool, grants: seq<Option<Team>>, unownedVisible: bool,
                                            views: seq<Team>, t: Tables)
    ensures var s := Narrowed(ResolveForUser(superuser, grants, unownedVisible), views);
      s.Ok? ==> !Torn(s.value) && Agree(t, s.value)
  {
    var s := Narrowed(ResolveForUser(superuser, grants, unownedVisible), views);
    if s.Ok? {
      ResolvedIsNotTorn(superuser, grants, unownedVisible);
      ListsAgreeIff(s.value);
    }
  }

  /** A view only ever intersects: it is granted exactly when the team was already
      in view, and then shows that team's rows and no others. */
  lemma {:induction false} ViewsIntersect(s: Scope, team: Team, owner: Option<Team>)
    requires !Torn(s)
    ensures ForTeam(s, team).Ok? <==> Listed(s, Some(team))
    ensures ForTeam(s, team).Ok? ==>
              (Listed(ForTeam(s, team).value, owner) <==> owner == Some(team) && Listed(s, owner))
  {
    ListedMeans(s, Some(team));
    ListedMeans(s, owner);
    if ForTeam(s, team).Ok? { ListedMeans(ForTeam(s, team).value, owner); }
  }

  /** A view of a team is refused as not found exactly when there is no such team,
      it belongs to another tenant, or it was out of view already; a granted one
      shows that team's rows alone, and asking for none changes nothing. */
  lemma {:induction false} ViewsResolveIff(s: Scope, tenants: map<Team, nat>, tenant: nat,
      team: Option<Team>, owner: Option<Team>)
    requires !Torn(s)
    ensures var view := ResolveView(s, tenants, tenant, team);
      && (view.Err? <==> team.Some? && !(team.value in tenants && tenants[team.value] == tenant && Listed(s, team)))
      && (view.Ok? ==> (Listed(view.value, owner) <==> Listed(s, owner) && (team.Some? ==> owner == team)))
  {
    if team.Some? { ViewsIntersect(s, team.value, owner); }
  }

  lemma {:induction false} NarrowingNeverWidens(s: Scope, views: seq<Team>, owner: Option<Team>)
    requires !Torn(s)
    ensures Narrowed(s, views).Ok? ==>
              !Torn(Narrowed(s, views).value) && (Listed(Narrowed(s, views).value, owner) ==> Listed(s, owner))
  {
    if views != [] {
      NarrowingNeverWidens(s, views[..|views| - 1], owner);
      var before := Narrowed(s, views[..|views| - 1]);
      if before.Ok? { ViewsIntersect(before.value, views[|views| - 1], owner); }
    }
  }

  /** Another grant never hides a row. */
  lemma {:induction false} GrantsOnlyAdd(grants: seq<Option<Team>>, more: seq<Option<Team>>,
      unownedVisible: bool, owner: Option<Team>)
    requires forall g :: g in grants ==> g in more
    ensures Listed(ResolveForUser(false, grants, unownedVisible), owner)
            ==> Listed(ResolveForUser(false, more, unownedVisible), owner)
  {
    var a, b := ResolveForUser(false, grants, unownedVisible), ResolveForUser(false, more, unownedVisible);
    ResolvedIsNotTorn(false, grants, unownedVisible);
    ResolvedIsNotTorn(false, more, unownedVisible);
    ListedMeans(a, owner);
    ListedMeans(b, owner);
    if grants != [] { assert grants[0] in more; }
    if a.restricted && b.restricted {
      forall team | team in a.teams ensures team in b.teams {
        assert Some(team) in grants;
      }
    }
  }

  /** What a restricted user sees, in terms of the grants: a row's owner is a team
      granted by name, or the row has no owner and the organization shows those. */
  lemma {:induction false} RestrictedUserSees(grants: seq<Option<Team>>, unownedVisible: bool, owner: Option<Team>)
    requires None !in grants
    ensures Listed(ResolveForUser(false, grants, unownedVisible), owner) <==>
              if owner.Some? then owner in grants else grants != [] && unownedVisible
  {
    ResolvedIsNotTorn(false, grants, unownedVisible);
    var s := ResolveForUser(false, grants, unownedVisible);
    ListedMeans(s, owner);
    if owner.Some? {
      assert owner.value in s.teams <==> owner in grants by {
        if owner.value in s.teams && grants != [] {
          var g :| g in grants && g.Some? && g.value == owner.value;
          assert g == owner;
        }
      }
    }
  }
}
