/** Why a finding changed state: the account given per finding and the one given
    across the estate, from the same recorded events. */
module Attribution {
  import opened Arithmetic
  import opened FindingStates
  import opened Wrappers

  const FIXED: set<string> := CLOSED + {"remediated", "verification"}
  const REOPENABLE: set<string> := {"remediated", "verified", "closed"}
  const TRANSITIONS: set<string> :=
    {"state_changed", "reopened", "remediated", "no_longer_applicable", "risk_accepted", "risk_acceptance_ended"}
  const INVENTORY: string := "inventory_version_changed"

  /** A recorded event; `None` is a column or detail that is missing or empty. */
  datatype Event = Event(
    name: string,
    at: int,
    fromState: Option<string>,
    toState: Option<string>,
    detailFrom: Option<string>,
    previousState: Option<string>,
    detailTo: Option<string>,
    restoredState: Option<string>,
    origin: Option<string>,
    reason: Option<string>,
    note: Option<string>,
    scanner: Option<string>,
    byUser: bool,
    external: bool)

  datatype Kind = ClosedIt | ReopenedIt | Progressed

  function First(a: Option<string>, b: Option<string>): Option<string> {
    if a.Some? then a else b
  }

  function ImpliedTo(name: string): Option<string> {
    if name == "reopened" then Some("new")
    else if name == "remediated" || name == "no_longer_applicable" then Some("remediated")
    else if name == "risk_accepted" then Some("accepted_risk")
    else None
  }

  function From(e: Event): Option<string> {
    First(First(e.fromState, e.detailFrom), e.previousState)
  }

  function To(e: Event): Option<string> {
    var to := First(First(e.toState, e.detailTo), ImpliedTo(e.name));
    if to.None? && e.name == "risk_acceptance_ended" then e.restoredState else to
  }

  predicate InFixed(state: Option<string>) {
    state.Some? && state.value in FIXED
  }

  function KindOf(e: Event): Kind {
    if e.name == "reopened" then ReopenedIt
    else if InFixed(To(e)) && !InFixed(From(e)) then ClosedIt
    else if InFixed(From(e)) && To(e).Some? && !InFixed(To(e)) then ReopenedIt
    else Progressed
  }

  predicate IsTransition(e: Event) {
    e.name in TRANSITIONS
  }

  // -------------------------------------------------- one finding, explained --

  /** The nearest earlier transition in the list, and the nearest of one kind. */
  function PrevTransition(events: seq<Event>, k: nat): (j: Option<nat>)
    requires k <= |events|
    ensures j.Some? ==> j.value < k && IsTransition(events[j.value])
    ensures forall i :: (if j.Some? then j.value + 1 else 0) <= i < k ==> !IsTransition(events[i])
  {
    if k == 0 then None else if IsTransition(events[k - 1]) then Some(k - 1) else PrevTransition(events, k - 1)
  }

  function PrevOf(events: seq<Event>, k: nat, kind: Kind): (j: Option<nat>)
    requires k <= |events|
    ensures j.Some? ==> j.value < k && IsTransition(events[j.value]) && KindOf(events[j.value]) == kind
    ensures forall i :: (if j.Some? then j.value + 1 else 0) <= i < k ==>
              !(IsTransition(events[i]) && KindOf(events[i]) == kind)
  {
    if k == 0 then None
    else if IsTransition(events[k - 1]) && KindOf(events[k - 1]) == kind then Some(k - 1)
    else PrevOf(events, k - 1, kind)
  }

  function PrevAt(events: seq<Event>, k: nat): Option<int>
    requires k <= |events|
  {
    var j := PrevTransition(events, k);
    if j.Some? then Some(events[j.value].at) else None
  }

  /** A line of the account: which event, what it did, since when its cause was
      looked for, and for a reopen the close it undid. */
  datatype Item = Item(event: nat, kind: Kind, since: Option<int>, undone: Option<nat>)

  function ItemAt(events: seq<Event>, k: nat): Item
    requires k < |events|
  {
    var kind := KindOf(events[k]);
    Item(k, kind, PrevAt(events, k), if kind == ReopenedIt then PrevOf(events, k, ClosedIt) else None)
  }

  function Account(events: seq<Event>, n: nat): seq<Item>
    requires n <= |events|
  {
    if n == 0 then []
    else Account(events, n - 1) + if IsTransition(events[n - 1]) then [ItemAt(events, n - 1)] else []
  }

  method Explain(events: seq<Event>)
    returns (items: seq<Item>, lastClosed: Option<nat>, lastReopened: Option<nat>)
    ensures items == Account(events, |events|)
    ensures lastClosed == PrevOf(events, |events|, ClosedIt)
    ensures lastReopened == PrevOf(events, |events|, ReopenedIt)
  {
    items := [];
    var previousAt: Option<int> := None;
    lastClosed, lastReopened := None, None;
    for i := 0 to |events|
      invariant items == Account(events, i)
      invariant previousAt == PrevAt(events, i)
      invariant lastClosed == PrevOf(events, i, ClosedIt) && lastReopened == PrevOf(events, i, ReopenedIt)
    {
      var e := events[i];
      if !IsTransition(e) { continue; }
      var kind := KindOf(e);
      items := items + [Item(i, kind, previousAt, if kind == ReopenedIt then lastClosed else None)];
      if kind == ClosedIt { lastClosed := Some(i); }
      if kind == ReopenedIt { lastReopened := Some(i); }
      previousAt := Some(e.at);
    }
  }

  /** How many transitions there are among the first n events. */
  function TransitionsIn(events: seq<Event>, n: nat): nat
    requires n <= |events|
  {
    if n == 0 then 0 else TransitionsIn(events, n - 1) + if IsTransition(events[n - 1]) then 1 else 0
  }

  /** The nearest transition before an event, if it has one before it. */
  ghost predicate Precedes(events: seq<Event>, j: nat, k: nat) {
    j < k <= |events| && IsTransition(events[j]) && forall i :: j < i < k ==> !IsTransition(events[i])
  }

  /** The account has one line for each transition, in order: its event, what it
      did, and when the transition before it was. */
  lemma {:induction false} OneLineForEach(events: seq<Event>, n: nat, k: nat)
    requires k < n <= |events| && IsTransition(events[k])
    ensures |Account(events, n)| == TransitionsIn(events, n) && TransitionsIn(events, k) < TransitionsIn(events, n)
    ensures var line := Account(events, n)[TransitionsIn(events, k)];
      && line.event == k && line.kind == KindOf(events[k])
      && (forall j :: 0 <= j < k && Precedes(events, j, k) ==> line.since == Some(events[j].at))
      && ((forall j :: 0 <= j < k ==> !IsTransition(events[j])) ==> line.since == None)
      && (line.undone.Some? ==> line.kind == ReopenedIt)
  {
    AccountGrows(events, k, n);
    AccountGrows(events, k + 1, n);
    AccountGrows(events, 0, k);
    assert Account(events, k + 1)[TransitionsIn(events, k)] == ItemAt(events, k);
    var p := PrevTransition(events, k);
    forall j | 0 <= j < k && Precedes(events, j, k) ensures p == Some(j) { }
  }

  lemma {:induction false} AccountGrows(events: seq<Event>, n: nat, m: nat)
    requires n <= m <= |events|
    ensures Account(events, n) <= Account(events, m) && TransitionsIn(events, n) <= TransitionsIn(events, m)
    ensures |Account(events, m)| - |Account(events, n)| == TransitionsIn(events, m) - TransitionsIn(events, n)
  {
    if n < m { AccountGrows(events, n, m - 1); }
  }

  // ------------------------------------------------------------- alternation --

  function StateBefore(events: seq<Event>, k: nat, start: string): Option<string>
    requires k <= |events|
  {
    if k == 0 then Some(start)
    else if IsTransition(events[k - 1]) then To(events[k - 1])
    else StateBefore(events, k - 1, start)
  }

  /** Each transition leaves the state the one before it led to. */
  ghost predicate Contiguous(events: seq<Event>, start: string) {
    forall k :: 0 <= k < |events| && IsTransition(events[k]) ==>
      From(events[k]) == StateBefore(events, k, start) && To(events[k]).Some?
  }

  /** The closes and reopens among the first n events, in order. */
  function Moves(events: seq<Event>, n: nat): seq<Kind>
    requires n <= |events|
  {
    if n == 0 then []
    else
      Moves(events, n - 1) +
      if IsTransition(events[n - 1]) && KindOf(events[n - 1]) != Progressed then [KindOf(events[n - 1])] else []
  }

  ghost predicate Alternate(moves: seq<Kind>) {
    forall i :: 0 <= i < |moves| ==> moves[i] == if i % 2 == 0 then ClosedIt else ReopenedIt
  }

  ghost predicate ReopensOnlyWhatWasFixed(events: seq<Event>, n: nat)
    requires n <= |events|
  {
    forall k :: 0 <= k < n && events[k].name == "reopened" ==> InFixed(From(events[k]))
  }

  /** A reopened event always leads back into the queue. */
  ghost predicate ReopensIntoTheQueue(events: seq<Event>) {
    forall k :: 0 <= k < |events| && events[k].name == "reopened" ==> !InFixed(To(events[k]))
  }

  /** The closes and reopens alternate, and their number says whether the finding
      is out of the queue. */
  ghost predicate InStep(moves: seq<Kind>, state: Option<string>) {
    Alternate(moves) && state.Some? && (|moves| % 2 == 1 <==> InFixed(state))
  }

  lemma {:induction false} StaysInStep(moves: seq<Kind>, e: Event)
    requires InStep(moves, From(e)) && To(e).Some?
    requires e.name == "reopened" ==> InFixed(From(e)) && !InFixed(To(e))
    ensures InStep(moves + if KindOf(e) != Progressed then [KindOf(e)] else [], To(e))
  {
  }

  lemma {:induction false} AlternatesSoFar(events: seq<Event>, start: string, n: nat)
    requires n <= |events| && Contiguous(events, start) && start !in FIXED
    requires ReopensIntoTheQueue(events) && ReopensOnlyWhatWasFixed(events, n)
    ensures InStep(Moves(events, n), StateBefore(events, n, start))
  {
    if n > 0 {
      AlternatesSoFar(events, start, n - 1);
      var e := events[n - 1];
      if IsTransition(e) {
        assert From(e) == StateBefore(events, n - 1, start);
        StaysInStep(Moves(events, n - 1), e);
      }
    }
  }

  lemma {:induction false} MovesGrow(events: seq<Event>, n: nat, m: nat)
    requires n <= m <= |events|
    ensures Moves(events, n) <= Moves(events, m)
  {
    if n < m { MovesGrow(events, n, m - 1); }
  }

  lemma {:induction false} PrefixAlternates(shorter: seq<Kind>, longer: seq<Kind>)
    requires shorter <= longer && Alternate(longer)
    ensures Alternate(shorter)
  {
    forall i | 0 <= i < |shorter| ensures shorter[i] == if i % 2 == 0 then ClosedIt else ReopenedIt {
      assert shorter[i] == longer[i];
    }
  }

  /** Reopening what is in the queue puts two reopens in a row, or one first. */
  lemma {:induction false} OutOfStep(moves: seq<Kind>, state: Option<string>)
    requires InStep(moves, state) && !InFixed(state)
    ensures !Alternate(moves + [ReopenedIt])
  {
    assert (moves + [ReopenedIt])[|moves|] == ReopenedIt;
  }

  lemma {:induction false} FirstOutOfPlace(events: seq<Event>, n: nat) returns (m: nat)
    requires n <= |events| && !ReopensOnlyWhatWasFixed(events, n)
    ensures m < n && ReopensOnlyWhatWasFixed(events, m)
    ensures events[m].name == "reopened" && !InFixed(From(events[m]))
  {
    m := n - 1;
    if !ReopensOnlyWhatWasFixed(events, m) { m := FirstOutOfPlace(events, m); }
  }

  lemma {:induction false} ReopeningBreaksStep(events: seq<Event>, start: string, m: nat)
    requires m < |events| && Contiguous(events, start) && start !in FIXED && ReopensIntoTheQueue(events)
    requires ReopensOnlyWhatWasFixed(events, m) && events[m].name == "reopened" && !InFixed(From(events[m]))
    ensures !Alternate(Moves(events, m + 1))
  {
    AlternatesSoFar(events, start, m);
    assert IsTransition(events[m]) && From(events[m]) == StateBefore(events, m, start);
    OutOfStep(Moves(events, m), StateBefore(events, m, start));
  }

  /** In a contiguous history that starts in the queue, closes and reopens strictly
      alternate, a close first, exactly when nothing is reopened that was not
      out of the queue. */
  lemma {:induction false} AlternateIff(events: seq<Event>, start: string, n: nat)
    requires n <= |events| && Contiguous(events, start) && start !in FIXED && ReopensIntoTheQueue(events)
    ensures Alternate(Moves(events, n)) <==> ReopensOnlyWhatWasFixed(events, n)
  {
    if ReopensOnlyWhatWasFixed(events, n) {
      AlternatesSoFar(events, start, n);
    } else {
      var m := FirstOutOfPlace(events, n);
      ReopeningBreaksStep(events, start, m);
      MovesGrow(events, m + 1, n);
      if Alternate(Moves(events, n)) { PrefixAlternates(Moves(events, m + 1), Moves(events, n)); }
    }
  }

  /** What re-detection does: it reopens only what asserts "fixed", into `new`. */
  lemma {:induction false} ReopenableIsFixed(state: string)
    requires state in REOPENABLE
    ensures state in FIXED && "new" !in FIXED
  {
  }

  /** The close a reopen is said to undo is the nearest one before it, and in an
      alternating history nothing was closed or reopened in between. */
  lemma {:induction false} UndoesTheNearestClose(events: seq<Event>, start: string, k: nat)
    requires Contiguous(events, start) && start !in FIXED && ReopensIntoTheQueue(events)
    requires k < |events| && ReopensOnlyWhatWasFixed(events, |events|)
    requires IsTransition(events[k]) && KindOf(events[k]) == ReopenedIt
    ensures var undone := ItemAt(events, k).undone;
      && undone.Some? && undone.value < k
      && IsTransition(events[undone.value]) && KindOf(events[undone.value]) == ClosedIt
      && forall i :: undone.value < i < k && IsTransition(events[i]) ==> KindOf(events[i]) == Progressed
  {
    AlternatesSoFar(events, start, k + 1);
    LastMove(events, start, k);
  }

  lemma {:induction false} LastMove(events: seq<Event>, start: string, k: nat)
    requires Contiguous(events, start) && start !in FIXED && ReopensIntoTheQueue(events)
    requires k <= |events| && ReopensOnlyWhatWasFixed(events, |events|)
    requires InFixed(StateBefore(events, k, start))
    ensures var j := PrevOf(events, k, ClosedIt);
      && j.Some?
      && forall i :: j.value < i < k && IsTransition(events[i]) ==> KindOf(events[i]) == Progressed
  {
    if k > 0 {
      var e := events[k - 1];
      if !IsTransition(e) {
        LastMove(events, start, k - 1);
      } else {
        assert From(e) == StateBefore(events, k - 1, start);
        if KindOf(e) != ClosedIt {
          LastMove(events, start, k - 1);
        }
      }
    }
  }

  // ------------------------------------------------------------------- causes --

  datatype Cause =
    | ReimportAbsence | CorrelationRescan | RescanSeenAgain | AcceptanceApproved | AcceptanceRevoked
    | AcceptanceExpired | InventoryChanged | TicketClosedExternal | TicketReopenedExternal | TicketResolved
    | WorkflowRule | AssignmentRule | VerificationPassed | VerificationFailed | Operator | UnknownCause

  /** An installed-version change recorded in the closed stretch up to `end`. */
  predicate InventoryMoved(events: seq<Event>, since: Option<int>, end: int) {
    exists i :: 0 <= i < |events| && events[i].name == INVENTORY && events[i].at <= end
                && (since.Some? ==> events[i].at >= since.value)
  }

  predicate Absent(e: Event) {
    e.origin == Some("reimport_absence")
    || (e.name == "remediated" && e.reason == Some("absent from scanner export"))
  }

  /** The branches of the classification; only one of them looks at `since`. */
  function CauseOf(events: seq<Event>, e: Event, since: Option<int>): Cause {
    if Absent(e) then ReimportAbsence
    else if e.name == "reopened" then
      (if e.origin == Some("correlation") || e.scanner == Some("veyrs-correlation") then CorrelationRescan
       else RescanSeenAgain)
    else if e.name == "risk_accepted" then AcceptanceApproved
    else if e.name == "risk_acceptance_ended" then
      (if e.reason == Some("revoked") then AcceptanceRevoked else AcceptanceExpired)
    else if e.name == "no_longer_applicable" then
      (if InventoryMoved(events, since, e.at) then InventoryChanged else CorrelationRescan)
    else if e.origin == Some("ticket") then
      (if e.external then (if InFixed(To(e)) then TicketClosedExternal else TicketReopenedExternal)
       else TicketResolved)
    else if e.origin == Some("workflow") || (e.origin == None && e.note == Some("workflow") && !e.byUser) then
      WorkflowRule
    else if e.origin == Some("assignment") then AssignmentRule
    else if e.origin == Some("operator") || (e.origin == None && e.byUser) then
      (if From(e) == Some("verification") && To(e) == Some("verified") then VerificationPassed
       else if From(e) == Some("verification") && To(e) == Some("in_progress") then VerificationFailed
       else Operator)
    else UnknownCause
  }

  /** The estate-wide feed looks for the latest transition strictly before the
      event, and only where the classification will use it. */
  function LastBefore(events: seq<Event>, n: nat, at: int): (r: Option<int>)
    requires n <= |events|
    ensures r.Some? ==> r.value < at
    ensures r.None? ==> forall i :: 0 <= i < n && IsTransition(events[i]) ==> events[i].at >= at
  {
    if n == 0 then None
    else if IsTransition(events[n - 1]) && events[n - 1].at < at then Some(events[n - 1].at)
    else LastBefore(events, n - 1, at)
  }

  function FeedSince(events: seq<Event>, e: Event): Option<int> {
    if e.name == "no_longer_applicable" then LastBefore(events, |events|, e.at) else None
  }

  ghost predicate InTimeOrder(events: seq<Event>) {
    forall i, k :: 0 <= i <= k < |events| ==> events[i].at <= events[k].at
  }

  lemma {:induction false} LastBeforeSkips(events: seq<Event>, k: nat, n: nat)
    requires InTimeOrder(events) && k <= n <= |events| && k < |events|
    ensures LastBefore(events, n, events[k].at) == LastBefore(events, k, events[k].at)
  {
    if k < n {
      assert events[k].at <= events[n - 1].at;
      LastBeforeSkips(events, k, n - 1);
    }
  }

  lemma {:induction false} LastBeforeIsPrevious(events: seq<Event>, k: nat, n: nat)
    requires InTimeOrder(events) && n <= k < |events|
    requires PrevTransition(events, n).Some? ==> events[PrevTransition(events, n).value].at < events[k].at
    ensures LastBefore(events, n, events[k].at) == PrevAt(events, n)
  {
    if n > 0 && !IsTransition(events[n - 1]) {
      LastBeforeIsPrevious(events, k, n - 1);
    }
  }

  /** Two transitions share a timestamp: this one, and the one listed before it. */
  ghost predicate Tied(events: seq<Event>, k: nat)
    requires k < |events|
  {
    var j := PrevTransition(events, k);
    j.Some? && events[j.value].at == events[k].at
  }

  /** Both accounts start looking from the same moment exactly when the transition
      before this one happened strictly earlier, or there is none. */
  lemma {:induction false} SameStretchIff(events: seq<Event>, k: nat)
    requires InTimeOrder(events) && k < |events| && events[k].name == "no_longer_applicable"
    ensures FeedSince(events, events[k]) == PrevAt(events, k) <==> !Tied(events, k)
  {
    LastBeforeSkips(events, k, |events|);
    var j := PrevTransition(events, k);
    if j.Some? { assert events[j.value].at <= events[k].at; }
    if !Tied(events, k) { LastBeforeIsPrevious(events, k, k); }
  }

  /** A correlation close tied with the transition before it, with an
      installed-version change between the last earlier transition and that
      moment but none at the moment itself. */
  ghost predicate SplitByATie(events: seq<Event>, k: nat)
    requires k < |events|
  {
    var e := events[k];
    && e.name == "no_longer_applicable" && !Absent(e) && Tied(events, k)
    && InventoryMoved(events, FeedSince(events, e), e.at) && !InventoryMoved(events, Some(e.at), e.at)
  }

  /** The two accounts name the same cause for every event but those. */
  lemma {:induction false} CausesAgreeIff(events: seq<Event>, k: nat)
    requires InTimeOrder(events) && k < |events| && IsTransition(events[k])
    ensures var e := events[k];
      CauseOf(events, e, PrevAt(events, k)) == CauseOf(events, e, FeedSince(events, e)) <==> !SplitByATie(events, k)
  {
    var e := events[k];
    if e.name == "no_longer_applicable" {
      SameStretchIff(events, k);
      if Tied(events, k) {
        assert PrevAt(events, k) == Some(e.at);
        if InventoryMoved(events, Some(e.at), e.at) {
          var i :| 0 <= i < |events| && events[i].name == INVENTORY && events[i].at == e.at;
          assert InventoryMoved(events, FeedSince(events, e), e.at);
        }
      }
    }
  }

  /** A history with such a tie: a transition, an installed-version change, and
      two transitions at the same later moment, the second of them a correlation
      close. The explanation says the engine closed it on a rescan, the feed that
      the inventory moved. */
  lemma {:induction false} ATiedCloseHasTwoCauses(blank: Event)
    requires blank.origin.None? && blank.reason.None?
    ensures var events := [
        blank.(name := "reopened", at := 0), blank.(name := INVENTORY, at := 5),
        blank.(name := "state_changed", at := 10), blank.(name := "no_longer_applicable", at := 10)];
      && InTimeOrder(events)
      && CauseOf(events, events[3], PrevAt(events, 3)) == CorrelationRescan
      && CauseOf(events, events[3], FeedSince(events, events[3])) == InventoryChanged
  {
    var events := [
      blank.(name := "reopened", at := 0), blank.(name := INVENTORY, at := 5),
      blank.(name := "state_changed", at := 10), blank.(name := "no_longer_applicable", at := 10)];
    assert IsTransition(events[0]) && !IsTransition(events[1]) && IsTransition(events[2]);
    assert PrevTransition(events, 3) == Some(2);
    assert LastBefore(events, 1, 10) == Some(0);
    assert LastBefore(events, 2, 10) == LastBefore(events, 3, 10) == LastBefore(events, 4, 10);
    assert events[1].name == INVENTORY;
    assert InventoryMoved(events, Some(0), 10);
  }

  /** And the kind never differs: it is read off the event alone. With strictly
      increasing timestamps neither does anything else. */
  lemma {:induction false} StrictTimesAgree(events: seq<Event>, k: nat)
    requires forall i, j :: 0 <= i < j < |events| ==> events[i].at < events[j].at
    requires k < |events| && IsTransition(events[k])
    ensures CauseOf(events, events[k], PrevAt(events, k)) == CauseOf(events, events[k], FeedSince(events, events[k]))
    ensures ItemAt(events, k).kind == KindOf(events[k])
  {
    assert !Tied(events, k);
    CausesAgreeIff(events, k);
  }

  // ------------------------------------------------------ the feed's own loop --

  const CHANGES_SCAN_CAP: nat := 5000

  /** One line of the feed: the row it came from, what it did and why. */
  datatype Change = Change(row: nat, kind: Kind, cause: Cause)

  /** What the feed is asked for; no cause is every cause. */
  datatype Wanted = Wanted(kinds: set<Kind>, cause: Option<Cause>)

  datatype Changes = Changes(items: seq<Change>, total: nat, pages: nat, truncated: bool)

  /** A row pairs an event in the asked-for time with the whole history of its
      finding. */
  type Row = (Event, seq<Event>)

  function ChangeAt(rows: seq<Row>, k: nat): Change
    requires k < |rows|
  {
    var (e, history) := rows[k];
    Change(k, KindOf(e), CauseOf(history, e, FeedSince(history, e)))
  }

  predicate Wants(w: Wanted, c: Change) {
    c.kind in w.kinds && (w.cause.Some? ==> c.cause == w.cause.value)
  }

  function Feed(rows: seq<Row>, w: Wanted, n: nat): seq<Change>
    requires n <= |rows|
  {
    if n == 0 then []
    else Feed(rows, w, n - 1) + if Wants(w, ChangeAt(rows, n - 1)) then [ChangeAt(rows, n - 1)] else []
  }

  function PageOf<T>(s: seq<T>, page: nat, size: nat): seq<T>
    requires page >= 1
  {
    s[Min((page - 1) * size, |s|)..Min(page * size, |s|)]
  }

  function PageCount(total: nat, size: nat): nat {
    if size == 0 then 0 else (total + size - 1) / size
  }

  /** `rows` is the whole answer of the query, newest first. */
  method RecentChanges(rows: seq<Row>, w: Wanted, page: nat, size: nat) returns (r: Changes)
    requires page >= 1
    ensures var matched := Feed(rows, w, Min(|rows|, CHANGES_SCAN_CAP));
      && r.items == PageOf(matched, page, size)
      && r.total == |matched| && r.pages == PageCount(|matched|, size)
      && (r.truncated <==> |rows| > CHANGES_SCAN_CAP)
  {
    var truncated := |rows| > CHANGES_SCAN_CAP;
    var scanned := Min(|rows|, CHANGES_SCAN_CAP);
    var matched: seq<Change> := [];
    for i := 0 to scanned
      invariant matched == Feed(rows, w, i)
    {
      var (e, history) := rows[i];
      var kind := KindOf(e);
      if kind !in w.kinds { continue; }
      var previousAt: Option<int> := None;
      if e.name == "no_longer_applicable" { previousAt := LatestBefore(history, e.at); }
      var cause := CauseOf(history, e, previousAt);
      if w.cause.Some? && cause != w.cause.value { continue; }
      matched := matched + [Change(i, kind, cause)];
    }
    r := Changes(PageOf(matched, page, size), |matched|, PageCount(|matched|, size), truncated);
  }

  method LatestBefore(history: seq<Event>, at: int) returns (latest: Option<int>)
    ensures latest == LastBefore(history, |history|, at)
  {
    var earlier: seq<int> := [];
    for k := 0 to |history|
      invariant LastBefore(history, k, at) == if earlier == [] then None else Some(earlier[|earlier| - 1])
    {
      if IsTransition(history[k]) && history[k].at < at { earlier := earlier + [history[k].at]; }
    }
    latest := if earlier == [] then None else Some(earlier[|earlier| - 1]);
  }

  /** A change is in the feed exactly when it is a scanned row of a wanted kind
      and cause. */
  lemma {:induction false} InTheFeedIff(rows: seq<Row>, w: Wanted, n: nat, c: Change)
    requires n <= |rows|
    ensures c in Feed(rows, w, n) <==>
            c.row < n && c == ChangeAt(rows, c.row) && c.kind in w.kinds && w.cause in {None, Some(c.cause)}
  {
    if n > 0 { InTheFeedIff(rows, w, n - 1, c); }
  }

  /** The newest 5000 rows are looked at, and all of them if there are no more. */
  lemma {:induction false} ScannedIff(rows: seq<Row>, w: Wanted, c: Change)
    ensures c in Feed(rows, w, Min(|rows|, CHANGES_SCAN_CAP)) <==>
            && c.row < 5000 && c.row < |rows| && c == ChangeAt(rows, c.row)
            && c.kind in w.kinds && w.cause in {None, Some(c.cause)}
  {
    InTheFeedIff(rows, w, Min(|rows|, CHANGES_SCAN_CAP), c);
  }

  /** There are just enough pages. */
  lemma {:induction false} PageCountIs(total: nat, size: nat)
    ensures size == 0 ==> PageCount(total, size) == 0
    ensures var pages := PageCount(total, size);
      size > 0 ==> pages * size >= total && (pages > 0 ==> (pages - 1) * size < total)
  {
    if size > 0 {
      var pages := (total + size - 1) / size;
      assert (pages - 1) * size == pages * size - size;
    }
  }

  /** A page holds the `size` matches that follow those of the pages before it, or
      as many as there are. */
  lemma {:induction false} PageIs<T>(s: seq<T>, page: nat, size: nat, i: nat)
    requires page >= 1
    ensures var skipped := (page - 1) * size;
      && |PageOf(s, page, size)| ==
         (if |s| <= skipped then 0 else if |s| - skipped < size then |s| - skipped else size)
      && (i < |PageOf(s, page, size)| ==> skipped + i < |s| && PageOf(s, page, size)[i] == s[skipped + i])
  {
    assert page * size == (page - 1) * size + size;
  }

  function FirstPages<T>(s: seq<T>, size: nat, n: nat): seq<T> {
    if n == 0 then [] else FirstPages(s, size, n - 1) + PageOf(s, n, size)
  }

  /** Turning the pages one by one shows every match once, in order. */
  lemma {:induction false} PagesHoldEachOnce<T>(s: seq<T>, size: nat)
    requires size > 0
    ensures FirstPages(s, size, PageCount(|s|, size)) == s
  {
    var n := PageCount(|s|, size);
    FirstPagesAre(s, size, n);
    assert n * size >= |s|;
  }

  lemma {:induction false} FirstPagesAre<T>(s: seq<T>, size: nat, n: nat)
    ensures FirstPages(s, size, n) == s[..Min(n * size, |s|)]
  {
    if n > 0 {
      FirstPagesAre(s, size, n - 1);
      assert (n - 1) * size <= n * size;
    }
  }

  /** For a wanted close or reopen, what the feed says is what the account of its
      finding says, exactly but for those ties. */
  lemma {:induction false} FeedAgreesWithAccounts(rows: seq<Row>, w: Wanted, n: nat, c: Change, k: nat)
    requires c.row < n <= |rows| && c in Feed(rows, w, n)
    requires var (e, history) := rows[c.row];
      k < |history| && history[k] == e && IsTransition(e) && InTimeOrder(history)
    ensures var (e, history) := rows[c.row];
      && c.kind == ItemAt(history, k).kind
      && (c.cause == CauseOf(history, e, ItemAt(history, k).since) <==> !SplitByATie(history, k))
  {
    InTheFeedIff(rows, w, n, c);
    CausesAgreeIff(rows[c.row].1, k);
  }
}
