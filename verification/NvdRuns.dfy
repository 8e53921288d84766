/** Sequences of NVD runs: what the watermark of each lets the next one skip. */
module NvdRuns {
  import opened Arithmetic
  import opened NvdPull
  import opened Wrappers

  const DEFAULT_BACKFILL: int := 90 * DAY
  /** 2002-01-01. */
  const EPOCH_START: int := 1_009_843_200 * SECOND

  datatype Kind = Incremental | Full | Upload

  /** A run at some moment, under a clock that then reads `now`. */
  datatype Run = Run(kind: Kind, at: int, now: int, succeeded: bool)

  /** The successful run that started latest by the clock, as the next one finds
      it: an uploaded file is a success with no watermark. */
  datatype Last = Never | Latest(started: int, watermark: Option<int>)

  /** The windows successfully asked for so far, and the run to go on from. */
  datatype History = History(asked: seq<Span>, last: Last)

  const EMPTY := History([], Never)

  /** Where a pull starts and ends. */
  function Window(h: History, kind: Kind, now: int): Span {
    if kind.Full? then (EPOCH_START, now)
    else if h.last.Latest? && h.last.watermark.Some? then (h.last.watermark.value, now)
    else (now - DEFAULT_BACKFILL, now)
  }

  /** Whether a run that starts at this reading is the latest from then on. */
  predicate Leads(h: History, now: int) {
    h.last.Never? || now >= h.last.started
  }

  function AskedBy(h: History, run: Run): seq<Span> {
    if run.kind.Upload? || !run.succeeded then []
    else
      var (start, end) := Window(h, run.kind, run.now);
      WindowsOf(start, end)
  }

  function Step(h: History, run: Run): History {
    if !run.succeeded then h
    else
      History(h.asked + AskedBy(h, run),
              if !Leads(h, run.now) then h.last
              else Latest(run.now, if run.kind.Upload? then None else Some(run.now)))
  }

  function After(runs: seq<Run>): History {
    if runs == [] then EMPTY else Step(After(runs[..|runs| - 1]), runs[|runs| - 1])
  }

  /** The successful runs that started latest by the clock: the last of them, if
      several read the same. */
  ghost predicate LatestOf(runs: seq<Run>, k: nat)
    requires k < |runs|
  {
    && runs[k].succeeded
    && (forall i :: 0 <= i < k && runs[i].succeeded ==> runs[i].now <= runs[k].now)
    && (forall i :: k < i < |runs| && runs[i].succeeded ==> runs[i].now < runs[k].now)
  }

  /** What a run goes on from is the latest success there is. */
  lemma {:induction false} GoesOnFromTheLatest(runs: seq<Run>, k: nat)
    requires k < |runs| && LatestOf(runs, k)
    ensures After(runs).last == Latest(runs[k].now, if runs[k].kind == Upload then None else Some(runs[k].now))
  {
    var n := |runs| - 1;
    if k < n {
      GoesOnFromTheLatest(runs[..n], k);
    } else {
      LastIsOneOf(runs[..n]);
    }
  }

  lemma {:induction false} LastIsOneOf(runs: seq<Run>)
    ensures After(runs).last.Latest? ==>
              exists i :: 0 <= i < |runs| && runs[i].succeeded && runs[i].now == After(runs).last.started
    ensures After(runs).last.Never? ==> forall i :: 0 <= i < |runs| ==> !runs[i].succeeded
  {
    if runs != [] {
      var before, last := runs[..|runs| - 1], runs[|runs| - 1];
      LastIsOneOf(before);
      if After(runs).last == After(before).last && After(before).last.Latest? {
        var i :| 0 <= i < |before| && before[i].succeeded && before[i].now == After(before).last.started;
        assert runs[i] == before[i];
      } else if last.succeeded {
        assert runs[|runs| - 1].succeeded;
      }
      if After(runs).last.Never? {
        forall i | 0 <= i < |runs| ensures !runs[i].succeeded { if i < |before| { assert before[i] == runs[i]; } }
      }
    }
  }

  /** A full pull starts with 2002; another at the watermark of the latest success,
      or 90 days back where there is none; each goes on to now. */
  lemma {:induction false} PullStartsAt(runs: seq<Run>, kind: Kind, now: int)
    ensures var h, (start, end) := After(runs), Window(After(runs), kind, now);
      && end == now
      && (kind == Full ==> start == 1_009_843_200_000_000)
      && (kind != Full ==>
            && (forall k :: 0 <= k < |runs| && LatestOf(runs, k) && runs[k].kind != Upload ==> start == runs[k].now)
            && (forall k :: 0 <= k < |runs| && LatestOf(runs, k) && runs[k].kind == Upload ==>
                  start == now - 7_776_000_000_000)
            && ((forall k :: 0 <= k < |runs| ==> !runs[k].succeeded) ==> start == now - 7_776_000_000_000))
  {
    forall k | 0 <= k < |runs| && LatestOf(runs, k)
      ensures After(runs).last == Latest(runs[k].now, if runs[k].kind == Upload then None else Some(runs[k].now))
    {
      GoesOnFromTheLatest(runs, k);
    }
    LastIsOneOf(runs);
  }

  /** Every instant of the stretch was asked for. */
  ghost predicate NoGap(asked: seq<Span>, from: int, to: int) {
    forall t :: from <= t <= to ==> SomeAsks(asked, t)
  }

  lemma {:induction false} SomeAsksOfAppend(a: seq<Span>, b: seq<Span>, t: int)
    ensures SomeAsks(a + b, t) <==> SomeAsks(a, t) || SomeAsks(b, t)
  {
    if i :| 0 <= i < |a| && Asks(a[i], t) { assert (a + b)[i] == a[i]; }
    if i :| 0 <= i < |b| && Asks(b[i], t) { assert (a + b)[|a| + i] == b[i]; }
    if i :| 0 <= i < |a + b| && Asks((a + b)[i], t) {
      if i < |a| { assert a[i] == (a + b)[i]; } else { assert b[i - |a|] == (a + b)[i]; }
    }
  }

  /** What a successful pull asks for: the closed stretch between its two stamps,
      if it has any. */
  lemma {:induction false} PullAsks(h: History, run: Run, t: int)
    requires run.succeeded && !run.kind.Upload?
    ensures var (start, end) := Window(h, run.kind, run.now);
      SomeAsks(AskedBy(h, run), t) <==> start < end && Stamp(start) <= t <= Stamp(end)
  {
    var (start, end) := Window(h, run.kind, run.now);
    if start < end {
      StampedWindowsCover(start, end, t);
    } else {
      assert WindowsOf(start, end) == [];
    }
  }

  /** No uploads, and a clock that reads some moment after the start of 2002. */
  ghost predicate PullsOnly(runs: seq<Run>) {
    forall i :: 0 <= i < |runs| ==> !runs[i].kind.Upload? && runs[i].now > EPOCH_START
  }

  /** Where the first successful run of the sequence starts. */
  function FirstStart(runs: seq<Run>): Option<int> {
    if runs == [] then None
    else
      var earlier := FirstStart(runs[..|runs| - 1]);
      var run := runs[|runs| - 1];
      if earlier.Some? || !run.succeeded || run.kind.Upload? then earlier
      else Some(Window(EMPTY, run.kind, run.now).0)
  }

  /** The watermark is the latest clock reading of a successful pull, and no
      earlier than the first start. */
  lemma {:induction false} LastIsLatest(runs: seq<Run>)
    requires PullsOnly(runs)
    ensures var h := After(runs);
      && (h.last.Never? <==> FirstStart(runs).None?)
      && (h.last.Never? ==> h.asked == [])
      && (h.last.Latest? ==>
            && h.last.watermark == Some(h.last.started) && h.last.started > EPOCH_START
            && FirstStart(runs).value < h.last.started)
      && forall i :: 0 <= i < |runs| && runs[i].succeeded ==> h.last.Latest? && runs[i].now <= h.last.started
  {
    if runs != [] { LastIsLatest(runs[..|runs| - 1]); }
  }

  /** Failed runs, full runs, a clock that jumps: over any sequence of pulls the
      successful ones have asked for every instant between the first start and
      the watermark, each truncated to its second. */
  lemma {:induction false} PullsLeaveNoGap(runs: seq<Run>)
    requires PullsOnly(runs) && After(runs).last.Latest? && FirstStart(runs).Some?
    ensures NoGap(After(runs).asked, Stamp(FirstStart(runs).value), Stamp(After(runs).last.started))
  {
    if runs != [] {
      var before, run := runs[..|runs| - 1], runs[|runs| - 1];
      var h := After(before);
      LastIsLatest(before);
      LastIsLatest(runs);
      if h.last.Latest? { PullsLeaveNoGap(before); }
      if run.succeeded {
        forall t | Stamp(FirstStart(runs).value) <= t <= Stamp(After(runs).last.started)
          ensures SomeAsks(After(runs).asked, t)
        {
          SomeAsksOfAppend(h.asked, AskedBy(h, run), t);
          PullAsks(h, run, t);
          if h.last.Latest? && t > Stamp(h.last.started) { PullReaches(h, run, t); }
        }
      }
    }
  }

  /** A pull that leads reaches back at least to the watermark. */
  lemma {:induction false} PullReaches(h: History, run: Run, t: int)
    requires h.last.Latest? && h.last.watermark == Some(h.last.started) && h.last.started > EPOCH_START
    requires run.now > h.last.started && !run.kind.Upload? && Stamp(h.last.started) <= t <= Stamp(run.now)
    ensures var (start, end) := Window(h, run.kind, run.now);
      start < end && Stamp(start) <= t <= Stamp(end)
  {
    StampIsMonotone(EPOCH_START, h.last.started);
  }

  // --------------------------------------------------- what the runs receive --

  /** Everything that ever happened to the records: which, and when. */
  datatype Change = Change(id: string, at: int)

  /** The version of its record a server hands out at some moment. */
  ghost predicate Current(log: seq<Change>, c: Change, moment: int) {
    && c in log && c.at <= moment
    && forall d :: d in log && d.id == c.id && d.at <= moment ==> d.at <= c.at
  }

  /** Run `k` received this change, or a later version of the same record. */
  ghost predicate Received(runs: seq<Run>, k: nat, log: seq<Change>, c: Change)
    requires k < |runs|
  {
    exists d: Change :: d.id == c.id && d.at >= c.at && Current(log, d, runs[k].at)
                        && SomeAsks(AskedBy(After(runs[..k]), runs[k]), d.at)
  }

  ghost predicate TakenIn(runs: seq<Run>, log: seq<Change>, c: Change) {
    exists k: nat :: k < |runs| && Received(runs, k, log, c)
  }

  /** The record has changed again, after the stretch ends; that change is still to come. */
  ghost predicate Overtaken(log: seq<Change>, c: Change, to: int) {
    exists d :: d in log && d.id == c.id && d.at > to
  }

  /** Up to its watermark, the sequence has taken in everything. */
  ghost predicate UpToDate(runs: seq<Run>, log: seq<Change>) {
    var h := After(runs);
    h.last.Latest? && FirstStart(runs).Some? ==>
      forall c :: c in log && Stamp(FirstStart(runs).value) <= c.at <= Stamp(h.last.started) ==>
        TakenIn(runs, log, c) || Overtaken(log, c, Stamp(h.last.started))
  }

  /** A successful run that moves the watermark on. */
  ghost predicate Advances(runs: seq<Run>, k: nat)
    requires k < |runs|
  {
    var h := After(runs[..k]);
    runs[k].succeeded && (h.last.Never? || runs[k].now > h.last.started)
  }

  /** The clock may lag or jump, but where it moves the watermark on it is not ahead. */
  ghost predicate NeverAhead(runs: seq<Run>) {
    forall k :: 0 <= k < |runs| && Advances(runs, k) ==> Stamp(runs[k].now) <= runs[k].at
  }

  /** Runs happen one after another. */
  ghost predicate InOrder(runs: seq<Run>) {
    forall i, k :: 0 <= i <= k < |runs| ==> runs[i].at <= runs[k].at
  }

  lemma {:induction false} LatestVersion(log: seq<Change>, c: Change) returns (d: Change)
    requires c in log
    ensures d in log && d.id == c.id && d.at >= c.at
    ensures forall e :: e in log && e.id == c.id ==> e.at <= d.at
  {
    var n := |log| - 1;
    assert log == log[..n] + [log[n]];
    if c in log[..n] {
      d := LatestVersion(log[..n], c);
      if log[n].id == c.id && log[n].at > d.at { d := log[n]; }
    } else if e :| e in log[..n] && e.id == c.id && e.at > c.at {
      d := LatestVersion(log[..n], e);
    } else {
      d := c;
    }
  }

  lemma {:induction false} TakenInOfPrefix(runs: seq<Run>, log: seq<Change>, c: Change)
    requires runs != [] && TakenIn(runs[..|runs| - 1], log, c)
    ensures TakenIn(runs, log, c)
  {
    var before := runs[..|runs| - 1];
    var k: nat :| k < |before| && Received(before, k, log, c);
    assert before[..k] == runs[..k];
    assert Received(runs, k, log, c);
  }

  lemma {:induction false} AdvancesOfPrefix(runs: seq<Run>, n: nat, k: nat)
    requires k < n <= |runs|
    ensures Advances(runs[..n], k) <==> Advances(runs, k)
  {
    assert runs[..n][..k] == runs[..k];
  }

  lemma {:induction false} NeverAheadOfPrefix(runs: seq<Run>, n: nat)
    requires n <= |runs| && NeverAhead(runs)
    ensures NeverAhead(runs[..n])
  {
    forall k | 0 <= k < n && Advances(runs[..n], k) ensures Stamp(runs[..n][k].now) <= runs[..n][k].at {
      AdvancesOfPrefix(runs, n, k);
    }
  }

  /** The last run of a sequence takes in what it finds between the stamps it asks for. */
  lemma {:induction false} LastRunReceives(runs: seq<Run>, log: seq<Change>, c: Change, d: Change)
    requires runs != []
    requires var n := |runs| - 1;
      Current(log, d, runs[n].at) && SomeAsks(AskedBy(After(runs[..n]), runs[n]), d.at)
    requires d.id == c.id && d.at >= c.at
    ensures TakenIn(runs, log, c)
  {
    assert Received(runs, |runs| - 1, log, c);
  }

  lemma {:induction false} StaysUpToDate(runs: seq<Run>, log: seq<Change>)
    requires PullsOnly(runs) && NeverAhead(runs)
    ensures UpToDate(runs, log)
  {
    if runs != [] {
      var n := |runs| - 1;
      var before, run := runs[..n], runs[n];
      NeverAheadOfPrefix(runs, n);
      StaysUpToDate(before, log);
      LastIsLatest(before);
      LastIsLatest(runs);
      if After(runs).last.Latest? && FirstStart(runs).Some? {
        var w := Stamp(After(runs).last.started);
        forall c | c in log && Stamp(FirstStart(runs).value) <= c.at <= w
          ensures TakenIn(runs, log, c) || Overtaken(log, c, w)
        {
          if Advances(runs, n) {
            AdvancingTakesIn(runs, log, c);
          } else if TakenIn(before, log, c) {
            TakenInOfPrefix(runs, log, c);
          }
        }
      }
    }
  }

  /** A run that moves the watermark on leaves nothing before it behind. */
  lemma {:induction false} AdvancingTakesIn(runs: seq<Run>, log: seq<Change>, c: Change)
    requires PullsOnly(runs) && runs != [] && Advances(runs, |runs| - 1) && FirstStart(runs).Some?
    requires Stamp(runs[|runs| - 1].now) <= runs[|runs| - 1].at
    requires UpToDate(runs[..|runs| - 1], log)
    requires c in log && Stamp(FirstStart(runs).value) <= c.at <= Stamp(runs[|runs| - 1].now)
    ensures TakenIn(runs, log, c) || Overtaken(log, c, Stamp(runs[|runs| - 1].now))
  {
    var n := |runs| - 1;
    var before, run := runs[..n], runs[n];
    var h := After(before);
    var d := LatestVersion(log, c);
    LastIsLatest(before);
    if d.at <= Stamp(run.now) {
      PullAsks(h, run, d.at);
      if h.last.Never? {
        LastRunReceives(runs, log, c, d);
      } else if d.at >= Stamp(h.last.started) {
        PullReaches(h, run, d.at);
        LastRunReceives(runs, log, c, d);
      } else {
        assert !Overtaken(log, c, Stamp(h.last.started));
        TakenInOfPrefix(runs, log, c);
      }
    }
  }

  /** The run that moves the watermark past its own moment misses what changes then. */
  lemma {:induction false} AheadMisses(runs: seq<Run>, k: nat)
    requires PullsOnly(runs) && InOrder(runs) && k < |runs| && Advances(runs, k)
    requires Stamp(runs[k].now) > runs[k].at
    ensures !UpToDate(runs[..k + 1], [Change("CVE", Stamp(runs[k].now))])
  {
    var upTo := runs[..k + 1];
    var c := Change("CVE", Stamp(runs[k].now));
    var log := [c];
    assert upTo[..|upTo| - 1] == runs[..k];
    LastIsLatest(runs[..k]);
    LastIsLatest(upTo);
    StampIsMonotone(FirstStart(upTo).value, After(upTo).last.started);
    assert c in log;
    assert !TakenIn(upTo, log, c) by {
      forall j: nat | j < |upTo| ensures !Received(upTo, j, log, c) {
        assert upTo[j].at <= runs[k].at;
      }
    }
    assert !Overtaken(log, c, Stamp(After(upTo).last.started));
  }

  /** After every run, whatever the records did meanwhile, everything up to the
      watermark has been taken in: exactly when no run that moves the watermark
      on does so under a clock that is ahead. Lagging clocks, clocks that jump
      back, failures and full runs do no harm. */
  lemma {:induction false} UpToDateIff(runs: seq<Run>)
    requires PullsOnly(runs) && InOrder(runs)
    ensures (forall n, log :: 0 <= n <= |runs| ==> UpToDate(runs[..n], log)) <==> NeverAhead(runs)
  {
    if NeverAhead(runs) {
      forall n, log | 0 <= n <= |runs| ensures UpToDate(runs[..n], log) {
        NeverAheadOfPrefix(runs, n);
        StaysUpToDate(runs[..n], log);
      }
    } else {
      var k :| 0 <= k < |runs| && Advances(runs, k) && Stamp(runs[k].now) > runs[k].at;
      AheadMisses(runs, k);
    }
  }

  /** One run under a clock a day ahead: what changes two hours after it lies
      before its watermark and is never asked for again. */
  lemma {:induction false} AClockADayAheadMisses()
    ensures var midday := EPOCH_START + 1000 * DAY;
      var runs := [Run(Incremental, midday, midday + DAY, true),
                   Run(Incremental, midday + 6 * 3600 * SECOND, midday + 6 * 3600 * SECOND, true)];
      var c := Change("CVE", midday + 2 * 3600 * SECOND);
      && PullsOnly(runs) && InOrder(runs) && After(runs).last == Latest(midday + DAY, Some(midday + DAY))
      && !UpToDate(runs, [c]) && !TakenIn(runs, [c], c)
  {
    var midday := EPOCH_START + 1000 * DAY;
    var runs := [Run(Incremental, midday, midday + DAY, true),
                 Run(Incremental, midday + 6 * 3600 * SECOND, midday + 6 * 3600 * SECOND, true)];
    var c := Change("CVE", midday + 2 * 3600 * SECOND);
    assert runs[..1] == [runs[0]] && runs[..1][..0] == [] && runs[..0] == [];
    assert After([]) == EMPTY;
    assert After(runs[..1]).last == Latest(midday + DAY, Some(midday + DAY));
    assert FirstStart(runs[..1]) == Some(midday + DAY - DEFAULT_BACKFILL);
    assert FirstStart(runs) == Some(midday + DAY - DEFAULT_BACKFILL);
    assert AskedBy(After(runs[..1]), runs[1]) == [];
    forall k: nat | k < 2 ensures !Received(runs, k, [c], c) { }
    assert c in [c];
    assert !Overtaken([c], c, Stamp(midday + DAY));
  }

  // -------------------------------------------------------------- uploads --

  /** The latest instant asked for. */
  ghost predicate AskedUpTo(asked: seq<Span>, to: int) {
    forall i :: 0 <= i < |asked| ==> Stamp(asked[i].1) <= to
  }

  lemma {:induction false} AskedUpToTheWatermark(runs: seq<Run>)
    requires PullsOnly(runs) && After(runs).last.Latest?
    ensures AskedUpTo(After(runs).asked, Stamp(After(runs).last.started))
  {
    if runs != [] {
      var before, run := runs[..|runs| - 1], runs[|runs| - 1];
      LastIsLatest(before);
      LastIsLatest(runs);
      if After(before).last.Latest? {
        AskedUpToTheWatermark(before);
        StampIsMonotone(After(before).last.started, After(runs).last.started);
      }
      if run.succeeded {
        var (start, end) := Window(After(before), run.kind, run.now);
        WindowsEndBy(start, end);
        StampIsMonotone(end, After(runs).last.started);
      }
    }
  }

  lemma {:induction false} WindowsEndBy(start: int, end: int)
    ensures AskedUpTo(WindowsOf(start, end), Stamp(end))
    decreases if start < end then end - start else 0
  {
    if start < end {
      var stop := Min(start + MAX_WINDOW, end);
      WindowsEndBy(stop, end);
      StampIsMonotone(stop, end);
    }
  }

  /** An uploaded file records a success without a watermark, so the next pull
      falls back to 90 days, whatever came before. No instant is skipped exactly
      when those 90 days still reach back to the watermark that was lost. */
  lemma {:induction false} AfterAnUploadNoGapIff(runs: seq<Run>, upload: Run, pull: Run)
    requires PullsOnly(runs) && After(runs).last.Latest? && FirstStart(runs).Some?
    requires upload.kind.Upload? && upload.succeeded && pull.kind.Incremental? && pull.succeeded
    requires pull.now >= upload.now >= After(runs).last.started
    ensures var h := After(runs + [upload, pull]);
      && h.last == Latest(pull.now, Some(pull.now))
      && (NoGap(h.asked, Stamp(FirstStart(runs).value), Stamp(pull.now)) <==>
            Stamp(pull.now - DEFAULT_BACKFILL) <= Stamp(After(runs).last.started))
  {
    var uploaded := runs + [upload];
    var all := runs + [upload, pull];
    assert uploaded[..|uploaded| - 1] == runs && all[..|all| - 1] == uploaded;
    var h := After(runs);
    assert After(uploaded) == History(h.asked, Latest(upload.now, None));
    LastIsLatest(runs);
    PullsLeaveNoGap(runs);
    AskedUpToTheWatermark(runs);
    GapIff(h.asked, FirstStart(runs).value, h.last.started, upload.now, pull);
  }

  lemma {:induction false} GapIff(asked: seq<Span>, first: int, w: int, uploaded: int, pull: Run)
    requires AskedUpTo(asked, Stamp(w)) && first <= w <= uploaded <= pull.now && NoGap(asked, Stamp(first), Stamp(w))
    requires pull.kind.Incremental? && pull.succeeded
    ensures NoGap(Step(History(asked, Latest(uploaded, None)), pull).asked, Stamp(first), Stamp(pull.now))
            <==> Stamp(pull.now - DEFAULT_BACKFILL) <= Stamp(w)
  {
    var h := History(asked, Latest(uploaded, None));
    var start := pull.now - DEFAULT_BACKFILL;
    StampIsMonotone(first, w);
    forall t ensures SomeAsks(Step(h, pull).asked, t) <==> SomeAsks(asked, t) || Stamp(start) <= t <= Stamp(pull.now) {
      SomeAsksOfAppend(asked, AskedBy(h, pull), t);
      PullAsks(h, pull, t);
    }
    if Stamp(start) > Stamp(w) {
      var t := Stamp(start) - 1;
      StampIsMonotone(start, pull.now);
      assert t > Stamp(w);
      assert !SomeAsks(asked, t);
      assert !SomeAsks(Step(h, pull).asked, t);
    }
  }

  // ------------------------------------------- pulls and uploads in any order --

  /** A clock that always reads some moment after the start of 2002. */
  ghost predicate AfterEpoch(runs: seq<Run>) {
    forall i :: 0 <= i < |runs| ==> runs[i].now > EPOCH_START
  }

  /** The latest clock reading of a successful pull. */
  function Reach(runs: seq<Run>): Option<int> {
    if runs == [] then None
    else
      var earlier := Reach(runs[..|runs| - 1]);
      var run := runs[|runs| - 1];
      if !run.succeeded || run.kind.Upload? then earlier
      else if earlier.Some? then Some(Max(earlier.value, run.now))
      else Some(run.now)
  }

  /** A pull that finds an upload as the latest success, and whose 90 days do not
      reach back to what was pulled before. */
  predicate FallsShort(runs: seq<Run>, k: nat)
    requires k < |runs|
  {
    var h, reach, run := After(runs[..k]), Reach(runs[..k]), runs[k];
    && run.succeeded && run.kind.Incremental? && h.last.Latest? && h.last.watermark.None?
    && reach.Some? && Stamp(run.now - DEFAULT_BACKFILL) > Stamp(reach.value)
  }

  ghost predicate GapFree(runs: seq<Run>) {
    Reach(runs).Some? && FirstStart(runs).Some? ==>
      NoGap(After(runs).asked, Stamp(FirstStart(runs).value), Stamp(Reach(runs).value))
  }

  /** What the history says of the pulls, whatever uploads there were. */
  ghost predicate InReach(runs: seq<Run>) {
    var h, reach, first := After(runs), Reach(runs), FirstStart(runs);
    && (reach.None? <==> first.None?)
    && (reach.None? ==> h.asked == [] && (h.last.Latest? ==> h.last.watermark.None?))
    && (reach.Some? ==> EPOCH_START < reach.value && first.value < reach.value && h.last.Latest?
                        && AskedUpTo(h.asked, Stamp(reach.value)))
    && (h.last.Latest? && h.last.watermark.Some? ==>
          h.last.watermark.value == h.last.started && reach.Some? && EPOCH_START < h.last.started <= reach.value)
  }

  /** No pull reaches past its own reading, and one that has not started from where
      an earlier one ended starts before it ends. */
  lemma {:induction false} NextInReach(runs: seq<Run>)
    requires runs != [] && AfterEpoch(runs) && InReach(runs[..|runs| - 1])
    ensures InReach(runs)
  {
    var before, run := runs[..|runs| - 1], runs[|runs| - 1];
    var h := After(before);
    if run.succeeded && !run.kind.Upload? {
      var (start, end) := Window(h, run.kind, run.now);
      WindowsEndBy(start, end);
      StampIsMonotone(run.now, Reach(runs).value);
      if Reach(before).Some? { StampIsMonotone(Reach(before).value, Reach(runs).value); }
    }
  }

  lemma {:induction false} RunsInReach(runs: seq<Run>)
    requires AfterEpoch(runs)
    ensures InReach(runs)
  {
    if runs != [] {
      RunsInReach(runs[..|runs| - 1]);
      NextInReach(runs);
    }
  }

  lemma {:induction false} NextAsks(runs: seq<Run>, t: int)
    requires runs != [] && runs[|runs| - 1].succeeded && !runs[|runs| - 1].kind.Upload?
    ensures var h := After(runs[..|runs| - 1]);
      var (start, end) := Window(h, runs[|runs| - 1].kind, runs[|runs| - 1].now);
      SomeAsks(After(runs).asked, t) <==> SomeAsks(h.asked, t) || (start < end && Stamp(start) <= t <= Stamp(end))
  {
    var h, run := After(runs[..|runs| - 1]), runs[|runs| - 1];
    SomeAsksOfAppend(h.asked, AskedBy(h, run), t);
    PullAsks(h, run, t);
  }

  /** A pull that does not fall short starts no later than the reach. */
  lemma {:induction false} StartsWithinReach(runs: seq<Run>)
    requires runs != [] && AfterEpoch(runs) && InReach(runs[..|runs| - 1]) && Reach(runs[..|runs| - 1]).Some?
    requires runs[|runs| - 1].succeeded && !runs[|runs| - 1].kind.Upload? && !FallsShort(runs, |runs| - 1)
    ensures var run := runs[|runs| - 1];
      var start := Window(After(runs[..|runs| - 1]), run.kind, run.now).0;
      Stamp(start) <= Stamp(Reach(runs[..|runs| - 1]).value)
      && (run.now > Reach(runs[..|runs| - 1]).value ==> start < run.now)
  {
    var reach := Reach(runs[..|runs| - 1]).value;
    var h := After(runs[..|runs| - 1]);
    StampIsMonotone(EPOCH_START, reach);
    if h.last.watermark.Some? { StampIsMonotone(h.last.watermark.value, reach); }
  }

  lemma {:induction false} NextLeavesNoGap(runs: seq<Run>)
    requires runs != [] && AfterEpoch(runs) && GapFree(runs[..|runs| - 1]) && !FallsShort(runs, |runs| - 1)
    ensures GapFree(runs)
  {
    var before, run := runs[..|runs| - 1], runs[|runs| - 1];
    RunsInReach(before);
    if run.succeeded && !run.kind.Upload? {
      if Reach(before).Some? { StartsWithinReach(runs); }
      forall t | Stamp(FirstStart(runs).value) <= t <= Stamp(Reach(runs).value)
        ensures SomeAsks(After(runs).asked, t)
      {
        NextAsks(runs, t);
      }
    } else {
      assert After(runs).asked == After(before).asked;
    }
  }

  lemma {:induction false} FallingShortLeavesAGap(runs: seq<Run>)
    requires runs != [] && AfterEpoch(runs) && FallsShort(runs, |runs| - 1)
    ensures !GapFree(runs)
  {
    var before, run := runs[..|runs| - 1], runs[|runs| - 1];
    RunsInReach(before);
    RunsInReach(runs);
    var reach, start := Reach(before).value, run.now - DEFAULT_BACKFILL;
    var t := Stamp(start) - 1;
    StampIsMonotone(FirstStart(before).value, reach);
    StampIsMonotone(start, run.now);
    StampIsMonotone(run.now, Reach(runs).value);
    assert t > Stamp(reach);
    NextAsks(runs, t);
    assert !SomeAsks(After(runs).asked, t);
  }

  /** Over any sequence of pulls and uploads, failed ones among them, under a clock
      that may jump: there is no gap after any of them exactly when no pull that
      follows an upload falls short. */
  lemma {:induction false} NoGapEverIff(runs: seq<Run>)
    requires AfterEpoch(runs)
    ensures (forall n :: 0 <= n <= |runs| ==> GapFree(runs[..n]))
            <==> forall k :: 0 <= k < |runs| ==> !FallsShort(runs, k)
  {
    if k :| 0 <= k < |runs| && FallsShort(runs, k) {
      var upTo := runs[..k + 1];
      assert upTo[..k] == runs[..k] && |upTo| - 1 == k;
      FallingShortLeavesAGap(upTo);
      assert !GapFree(runs[..k + 1]);
    } else {
      forall n | 0 <= n <= |runs| ensures GapFree(runs[..n]) { NoGapSoFar(runs, n); }
    }
  }

  lemma {:induction false} NoGapSoFar(runs: seq<Run>, n: nat)
    requires AfterEpoch(runs) && n <= |runs| && forall k :: 0 <= k < n ==> !FallsShort(runs, k)
    ensures GapFree(runs[..n])
  {
    if n > 0 {
      NoGapSoFar(runs, n - 1);
      var upTo := runs[..n];
      assert upTo[..n - 1] == runs[..n - 1] && |upTo| - 1 == n - 1;
      assert !FallsShort(runs, n - 1) && upTo[n - 1] == runs[n - 1];
      NextLeavesNoGap(upTo);
    }
  }

  /** A pull, an upload the next day, and a pull a hundred days after the first:
      nine days of changes are never asked for. */
  lemma {:induction false} AnUploadOpensAGap(t: int)
    requires t > EPOCH_START
    ensures var runs := [Run(Incremental, t, t, true)];
      var upload, pull := Run(Upload, t + DAY, t + DAY, true), Run(Incremental, t + 100 * DAY, t + 100 * DAY, true);
      && PullsOnly(runs) && FirstStart(runs).Some?
      && !NoGap(After(runs + [upload, pull]).asked, Stamp(FirstStart(runs).value), Stamp(pull.now))
  {
    var runs := [Run(Incremental, t, t, true)];
    assert runs[..0] == [];
    LastIsLatest(runs);
    AfterAnUploadNoGapIff(runs, Run(Upload, t + DAY, t + DAY, true),
                          Run(Incremental, t + 100 * DAY, t + 100 * DAY, true));
    StampIsMonotone(t + SECOND, t + 10 * DAY);
  }
}
