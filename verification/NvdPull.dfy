/** One pull of the NVD feed: splitting a span into windows and paging through
    each. Moments are microseconds since 1970. */
module NvdPull {
  import opened Arithmetic
  import opened Wrappers

  const SECOND: int := 1_000_000
  const DAY: int := 86_400 * SECOND
  const MAX_WINDOW: int := 120 * DAY

  type Span = (int, int)

  /** The moment a stamp denotes: whole seconds, the fraction written as .000. */
  function Stamp(moment: int): (s: int)
    ensures s <= moment < s + SECOND && s % SECOND == 0
  {
    moment - moment % SECOND
  }

  function WindowsOf(start: int, end: int): seq<Span>
    decreases if start < end then end - start else 0
  {
    if start >= end then []
    else
      var stop := Min(start + MAX_WINDOW, end);
      [(start, stop)] + WindowsOf(stop, end)
  }

  method Windows(start: int, end: int) returns (windows: seq<Span>)
    ensures windows == WindowsOf(start, end)
  {
    windows := [];
    var cursor := start;
    while cursor < end
      invariant windows + WindowsOf(cursor, end) == WindowsOf(start, end)
      decreases end - cursor
    {
      var stop := Min(cursor + MAX_WINDOW, end);
      windows := windows + [(cursor, stop)];
      cursor := stop;
    }
  }

  /** The windows tile [start, end): none is empty or over 120 days, each starts
      where the last one stopped, and every moment falls in exactly one. */
  ghost predicate Tiles(windows: seq<Span>, start: int, end: int) {
    && (windows == [] <==> start >= end)
    && (windows != [] ==> windows[0].0 == start && windows[|windows| - 1].1 == end)
    && (forall i :: 0 <= i < |windows| ==> windows[i].0 < windows[i].1 <= windows[i].0 + MAX_WINDOW)
    && (forall i :: 0 <= i < |windows| - 1 ==> windows[i].1 == windows[i + 1].0)
  }

  lemma {:induction false} TilesOfCons(start: int, stop: int, end: int, rest: seq<Span>)
    requires start < stop <= end && stop <= start + MAX_WINDOW && Tiles(rest, stop, end)
    ensures Tiles([(start, stop)] + rest, start, end)
  {
    var windows := [(start, stop)] + rest;
    forall i | 0 <= i < |windows| - 1 ensures windows[i].1 == windows[i + 1].0 {
      if i > 0 { assert windows[i] == rest[i - 1] && windows[i + 1] == rest[i]; }
    }
  }

  lemma {:induction false} WindowsTile(start: int, end: int)
    ensures Tiles(WindowsOf(start, end), start, end)
    decreases if start < end then end - start else 0
  {
    if start < end {
      var stop := Min(start + MAX_WINDOW, end);
      WindowsTile(stop, end);
      TilesOfCons(start, stop, end, WindowsOf(stop, end));
    }
  }

  /** Every window but the last is 120 days long, in microseconds. */
  lemma {:induction false} WindowsAreFull(start: int, end: int, i: nat)
    requires i + 1 < |WindowsOf(start, end)|
    ensures WindowsOf(start, end)[i].1 - WindowsOf(start, end)[i].0 == 10_368_000_000_000
    decreases if start < end then end - start else 0
  {
    var stop := Min(start + MAX_WINDOW, end);
    if i > 0 { WindowsAreFull(stop, end, i - 1); }
  }

  /** A window is asked for in whole seconds, both ends included. */
  predicate Asks(window: Span, t: int) {
    Stamp(window.0) <= t <= Stamp(window.1)
  }

  ghost predicate SomeAsks(windows: seq<Span>, t: int) {
    exists i :: 0 <= i < |windows| && Asks(windows[i], t)
  }

  lemma {:induction false} SomeAsksOfCons(first: Span, rest: seq<Span>, t: int)
    ensures SomeAsks([first] + rest, t) <==> Asks(first, t) || SomeAsks(rest, t)
  {
    var windows := [first] + rest;
    if Asks(first, t) { assert windows[0] == first; }
    if i :| 0 <= i < |rest| && Asks(rest[i], t) { assert windows[i + 1] == rest[i]; }
    if i :| 0 <= i < |windows| && Asks(windows[i], t) {
      if i > 0 { assert rest[i - 1] == windows[i]; }
    }
  }

  /** Truncated to whole seconds at both ends, the windows leave no instant out. */
  lemma {:induction false} StampedWindowsCover(start: int, end: int, t: int)
    requires start < end
    ensures SomeAsks(WindowsOf(start, end), t) <==> Stamp(start) <= t <= Stamp(end)
    decreases end - start
  {
    var stop := Min(start + MAX_WINDOW, end);
    StampIsMonotone(start, stop);
    StampIsMonotone(stop, end);
    SomeAsksOfCons((start, stop), WindowsOf(stop, end), t);
    if stop < end {
      StampedWindowsCover(stop, end, t);
    } else {
      assert !SomeAsks([], t);
    }
  }

  lemma {:induction false} StampIsMonotone(early: int, late: int)
    requires early <= late
    ensures Stamp(early) <= Stamp(late)
  {
  }

  // ---------------------------------------------------------------- paging --

  /** How a server answers a request at some index: how many records it puts on
      the page, what it says it put there, and how many it says there are. */
  datatype Answer = Answer(size: nat, reported: Option<nat>, total: Option<nat>)

  /** One window, frozen: its records, and the answer at the index of each. A
      request past the last record gets an empty page. */
  datatype Server<T> = Server(records: seq<T>, answers: seq<Answer>)

  predicate Complete<T>(s: Server<T>) {
    |s.answers| == |s.records|
  }

  function PageEnd<T>(s: Server<T>, index: nat): (end: nat)
    requires Complete(s)
    ensures index <= end && (index <= |s.records| ==> end <= |s.records|)
  {
    if index >= |s.records| then index else Min(index + s.answers[index].size, |s.records|)
  }

  function Items<T>(s: Server<T>, index: nat): (items: seq<T>)
    requires Complete(s)
    ensures |items| == PageEnd(s, index) - index
  {
    if index >= |s.records| then [] else s.records[index..PageEnd(s, index)]
  }

  /** payload.get("resultsPerPage", len(items)) or len(items) */
  function Advance<T>(s: Server<T>, index: nat): nat
    requires Complete(s)
  {
    if index >= |s.records| then 0
    else if s.answers[index].reported.None? || s.answers[index].reported.value == 0 then PageEnd(s, index) - index
    else s.answers[index].reported.value
  }

  /** payload.get("totalResults") or 0 */
  function Total<T>(s: Server<T>, index: nat): nat
    requires Complete(s)
  {
    if index < |s.records| && s.answers[index].total.Some? then s.answers[index].total.value else 0
  }

  /** The walk through a window ends at an empty page, or where the count it was
      given says it is through. */
  predicate IsLast<T>(s: Server<T>, index: nat)
    requires Complete(s)
  {
    Items(s, index) == [] || index + Advance(s, index) >= Total(s, index)
  }

  function PagesFrom<T>(s: Server<T>, index: nat): seq<seq<T>>
    requires Complete(s)
    decreases if index < |s.records| then |s.records| - index else 0
  {
    if IsLast(s, index) then [Items(s, index)]
    else [Items(s, index)] + PagesFrom(s, index + Advance(s, index))
  }

  /** The page a server puts out at an index: as many of the records that are left
      as it likes. */
  ghost predicate PageAt<T>(s: Server<T>, index: nat, page: seq<T>)
    requires Complete(s)
  {
    if index < |s.records| then
      var left := |s.records| - index;
      |page| == (if s.answers[index].size < left then s.answers[index].size else left)
      && forall k :: 0 <= k < |page| ==> page[k] == s.records[index + k]
    else page == []
  }

  /** How far the walk goes on from an index: by what the server says it sent, or by
      what it sent if it does not say or says none. */
  ghost predicate StepFrom<T>(s: Server<T>, index: nat, page: seq<T>, step: nat)
    requires Complete(s)
  {
    if index < |s.records| && s.answers[index].reported.Some? && s.answers[index].reported.value > 0
    then step == s.answers[index].reported.value else step == |page|
  }

  /** The walk: page after page, up to one that is empty or takes it to the total the
      server gave with it, none given counting as zero. */
  ghost predicate Walks<T>(s: Server<T>, index: nat, pages: seq<seq<T>>)
    requires Complete(s)
    decreases |pages|
  {
    && |pages| > 0 && PageAt(s, index, pages[0])
    && forall step: nat :: StepFrom(s, index, pages[0], step) ==>
         if |pages[0]| == 0 || index >= |s.records| || s.answers[index].total.None?
            || index + step >= s.answers[index].total.value
         then |pages| == 1 else Walks(s, index + step, pages[1..])
  }

  /** The pages of a window are those of that walk and no others. */
  lemma {:induction false} OneWalk<T>(s: Server<T>, index: nat, pages: seq<seq<T>>)
    requires Complete(s)
    ensures Walks(s, index, pages) <==> pages == PagesFrom(s, index)
    decreases |pages|
  {
    if pages != [] {
      assert PageAt(s, index, pages[0]) <==> pages[0] == Items(s, index);
      if pages[0] == Items(s, index) {
        assert StepFrom(s, index, pages[0], Advance(s, index));
        OneWalk(s, index + Advance(s, index), pages[1..]);
        assert pages == [pages[0]] + pages[1..];
      }
      assert pages == PagesFrom(s, index) ==> pages[0] == Items(s, index);
    }
  }

  /** Paging through one window ends whatever the server says. */
  method FetchWindow<T(==)>(s: Server<T>) returns (pages: seq<seq<T>>)
    requires Complete(s)
    ensures pages == PagesFrom(s, 0)
  {
    pages := [];
    var index := 0;
    ghost var whole := PagesFrom(s, 0);
    while true
      invariant pages + PagesFrom(s, index) == whole
      decreases if index < |s.records| then |s.records| - index else 0
    {
      var items := Items(s, index);
      var step, total := ReadCounts(s, index, items);
      if index + step >= total || items == [] {
        assert PagesFrom(s, index) == [items];
        pages := pages + [items];
        return;
      }
      SnocThenAppend(pages, items, PagesFrom(s, index + step));
      pages := pages + [items];
      index := index + step;
    }
  }

  /** What the payload says beside its records. */
  method ReadCounts<T>(s: Server<T>, index: nat, items: seq<T>) returns (step: nat, total: nat)
    requires Complete(s) && items == Items(s, index)
    ensures step == Advance(s, index) && total == Total(s, index)
  {
    step, total := |items|, 0;
    if index < |s.records| {
      var answer := s.answers[index];
      if answer.reported.Some? && answer.reported.value != 0 { step := answer.reported.value; }
      if answer.total.Some? { total := answer.total.value; }
    }
  }

  lemma {:induction false} SnocThenAppend<T>(a: seq<T>, x: T, b: seq<T>)
    ensures a + [x] + b == a + ([x] + b)
  {
  }

  function Flatten<T>(pages: seq<seq<T>>): seq<T> {
    if pages == [] then [] else pages[0] + Flatten(pages[1..])
  }

  /** The walk ends on a page that reaches the last record, or goes on from a page
      that does to an empty one; before that, each page is followed by the one
      that starts where it stops. */
  predicate StepsMatch<T>(s: Server<T>, index: nat)
    requires Complete(s)
    decreases if index < |s.records| then |s.records| - index else 0
  {
    if IsLast(s, index) then PageEnd(s, index) == |s.records|
    else if PageEnd(s, index) == |s.records| then Items(s, index + Advance(s, index)) == []
    else index + Advance(s, index) == PageEnd(s, index) && StepsMatch(s, index + Advance(s, index))
  }

  ghost predicate Distinct<T>(s: seq<T>) {
    forall i, k :: 0 <= i < k < |s| ==> s[i] != s[k]
  }

  /** Each record of a window arrives exactly once, in order, exactly when the
      walk steps by what it was given and does not stop short: no empty page and
      no count that is too small before the last record. */
  lemma {:induction false} EachRecordOnceIff<T>(s: Server<T>, index: nat)
    requires Complete(s) && Distinct(s.records) && index <= |s.records|
    ensures Flatten(PagesFrom(s, index)) == s.records[index..] <==> StepsMatch(s, index)
    decreases |s.records| - index
  {
    var items := Items(s, index);
    var pages := PagesFrom(s, index);
    if IsLast(s, index) {
      assert pages == [items] && pages[1..] == [];
      assert Flatten(pages) == items + [];
      if Flatten(pages) == s.records[index..] { assert |items| == |s.records| - index; }
      if PageEnd(s, index) == |s.records| { assert items == s.records[index..]; }
    } else {
      var next := index + Advance(s, index);
      var tail := Flatten(PagesFrom(s, next));
      assert pages[1..] == PagesFrom(s, next);
      assert Flatten(pages) == items + tail;
      TailOfPages(s, next);
      if PageEnd(s, index) == |s.records| {
        assert items == s.records[index..];
        if tail != [] { assert |Flatten(pages)| > |s.records[index..]|; }
      } else {
        PageThenTail(s, index, tail);
        if next == PageEnd(s, index) { EachRecordOnceIff(s, next); }
      }
    }
  }

  /** What the rest of a walk holds begins with the record it goes on from, and is
      nothing only when the next page is empty. */
  lemma {:induction false} TailOfPages<T>(s: Server<T>, index: nat)
    requires Complete(s)
    ensures var tail := Flatten(PagesFrom(s, index));
      && (tail == [] <==> Items(s, index) == [])
      && (tail != [] ==> index < |s.records| && tail[0] == s.records[index])
  {
    var pages := PagesFrom(s, index);
    assert Flatten(pages) == pages[0] + Flatten(pages[1..]);
    if Items(s, index) == [] { assert pages == [Items(s, index)] && pages[1..] == []; }
  }

  lemma {:induction false} PageThenTail<T>(s: Server<T>, index: nat, tail: seq<T>)
    requires Complete(s) && Distinct(s.records) && index < |s.records| && PageEnd(s, index) < |s.records|
    requires var next := index + Advance(s, index);
      tail != [] ==> next < |s.records| && tail[0] == s.records[next]
    ensures Items(s, index) + tail == s.records[index..] <==>
              tail == s.records[PageEnd(s, index)..]
    ensures tail == s.records[PageEnd(s, index)..] ==> index + Advance(s, index) == PageEnd(s, index)
  {
    var items, end := Items(s, index), PageEnd(s, index);
    assert s.records[index..] == items + s.records[end..];
    if items + tail == s.records[index..] {
      assert (items + tail)[|items|..] == tail;
      assert (items + s.records[end..])[|items|..] == s.records[end..];
    }
    if tail == s.records[end..] { assert tail[0] == s.records[end]; }
  }

  /** A server that fills its pages, reports the length of each, or nothing, or
      zero, and counts its records truly. */
  ghost predicate Honest<T>(s: Server<T>) {
    && Complete(s)
    && forall index :: 0 <= index < |s.records| ==>
         && s.answers[index].size > 0
         && s.answers[index].reported in {None, Some(0), Some(PageEnd(s, index) - index)}
         && s.answers[index].total == Some(|s.records|)
  }

  lemma {:induction false} HonestStepsMatch<T>(s: Server<T>, index: nat)
    requires Honest(s) && index <= |s.records|
    ensures StepsMatch(s, index)
    decreases |s.records| - index
  {
    if index < |s.records| {
      assert Advance(s, index) == PageEnd(s, index) - index;
      assert Items(s, index) != [];
      if !IsLast(s, index) { HonestStepsMatch(s, index + Advance(s, index)); }
    }
  }

  /** An empty page ends the window early and nothing says so: here the second of
      two records never arrives, though the server counted both. */
  lemma {:induction false} AnEmptyPageLosesRecords<T>(first: T, second: T)
    requires first != second
    ensures var s := Server([first, second], [Answer(1, None, Some(2)), Answer(0, None, Some(2))]);
      && Complete(s) && Distinct(s.records)
      && PagesFrom(s, 0) == [[first], []]
      && Flatten(PagesFrom(s, 0)) == [first]
  {
    var s := Server([first, second], [Answer(1, None, Some(2)), Answer(0, None, Some(2))]);
    assert Items(s, 0) == [first] && Items(s, 1) == [];
    assert PagesFrom(s, 1) == [Items(s, 1)];
    assert PagesFrom(s, 0) == [[first]] + [[]];
    var pages := PagesFrom(s, 0);
    assert pages[1..] == PagesFrom(s, 1) && PagesFrom(s, 1)[1..] == [];
    assert Flatten(PagesFrom(s, 1)) == Items(s, 1) + [];
    assert Flatten(pages) == [first] + [];
  }

  // --------------------------------------------------------- a whole pull --

  /** A record and the moment it was last modified. */
  datatype Record = Record(id: string, modified: int)

  function Query(db: seq<Record>, lo: int, hi: int): seq<Record> {
    if db == [] then []
    else (if lo <= db[0].modified <= hi then [db[0]] else []) + Query(db[1..], lo, hi)
  }

  function Asked(db: seq<Record>, window: Span): seq<Record> {
    Query(db, Stamp(window.0), Stamp(window.1))
  }

  function Fetched(db: seq<Record>, windows: seq<Span>): seq<Record> {
    if windows == [] then [] else Asked(db, windows[0]) + Fetched(db, windows[1..])
  }

  /** What the pages of one window after another hold. */
  function Delivered(db: seq<Record>, windows: seq<Span>, answers: seq<seq<Answer>>): seq<Record>
    requires Answered(db, windows, answers)
  {
    if windows == [] then []
    else FromWindow(db, windows[0], answers[0]) + Delivered(db, windows[1..], answers[1..])
  }

  function FromWindow(db: seq<Record>, window: Span, answers: seq<Answer>): seq<Record>
    requires Complete(Server(Asked(db, window), answers))
  {
    Flatten(PagesFrom(Server(Asked(db, window), answers), 0))
  }

  /** One answer for each record of each window. */
  predicate Answered(db: seq<Record>, windows: seq<Span>, answers: seq<seq<Answer>>) {
    && |answers| == |windows|
    && forall i :: 0 <= i < |windows| ==> Complete(Server(Asked(db, windows[i]), answers[i]))
  }

  /** The whole pull against a frozen database; `answers` is how the server pages
      each window in turn. */
  method Pull(db: seq<Record>, start: int, end: int, answers: seq<seq<Answer>>) returns (records: seq<Record>)
    requires Answered(db, WindowsOf(start, end), answers)
    ensures records == Delivered(db, WindowsOf(start, end), answers)
  {
    records := [];
    var windows := Windows(start, end);
    ghost var whole := Delivered(db, windows, answers);
    for i := 0 to |windows|
      invariant Answered(db, windows[i..], answers[i..])
      invariant records + Delivered(db, windows[i..], answers[i..]) == whole
    {
      assert windows[i..][1..] == windows[i + 1..] && answers[i..][1..] == answers[i + 1..];
      var found := FetchFrom(db, windows[i], answers[i]);
      records := records + found;
    }
  }

  method FetchFrom(db: seq<Record>, window: Span, answers: seq<Answer>) returns (records: seq<Record>)
    requires Complete(Server(Asked(db, window), answers))
    ensures records == FromWindow(db, window, answers)
  {
    var pages := FetchWindow(Server(Asked(db, window), answers));
    records := Concat(pages);
  }

  /** Every window of the pull is paged through without stopping short. */
  ghost predicate AllStepsMatch(db: seq<Record>, windows: seq<Span>, answers: seq<seq<Answer>>)
    requires Answered(db, windows, answers)
  {
    forall i :: 0 <= i < |windows| ==> StepsMatch(Server(Asked(db, windows[i]), answers[i]), 0)
  }

  /** Then, and with an honest server always, the pull delivers each window's
      records in order. */
  lemma {:induction false} PullIsWhole(db: seq<Record>, windows: seq<Span>, answers: seq<seq<Answer>>)
    requires Distinct(db) && Answered(db, windows, answers)
    ensures AllStepsMatch(db, windows, answers) ==> Delivered(db, windows, answers) == Fetched(db, windows)
    ensures (forall i :: 0 <= i < |windows| ==> Honest(Server(Asked(db, windows[i]), answers[i])))
            ==> AllStepsMatch(db, windows, answers)
  {
    forall i | 0 <= i < |windows| && Honest(Server(Asked(db, windows[i]), answers[i]))
      ensures StepsMatch(Server(Asked(db, windows[i]), answers[i]), 0)
    {
      HonestStepsMatch(Server(Asked(db, windows[i]), answers[i]), 0);
    }
    if windows != [] && AllStepsMatch(db, windows, answers) {
      var s := Server(Asked(db, windows[0]), answers[0]);
      QueryKeepsDistinct(db, Stamp(windows[0].0), Stamp(windows[0].1));
      EachRecordOnceIff(s, 0);
      assert s.records[0..] == s.records;
      assert AllStepsMatch(db, windows[1..], answers[1..]);
      PullIsWhole(db, windows[1..], answers[1..]);
    }
  }

  method Concat<T>(pages: seq<seq<T>>) returns (all: seq<T>)
    ensures all == Flatten(pages)
  {
    all := [];
    for i := 0 to |pages|
      invariant all + Flatten(pages[i..]) == Flatten(pages)
    {
      assert pages[i..][1..] == pages[i + 1..];
      all := all + pages[i];
    }
  }

  lemma {:induction false} QueryFinds(db: seq<Record>, lo: int, hi: int, r: Record)
    ensures r in Query(db, lo, hi) <==> r in db && lo <= r.modified <= hi
  {
    if db != [] {
      QueryFinds(db[1..], lo, hi, r);
      assert db == [db[0]] + db[1..];
    }
  }

  lemma {:induction false} QueryKeepsDistinct(db: seq<Record>, lo: int, hi: int)
    requires Distinct(db)
    ensures Distinct(Query(db, lo, hi))
  {
    if db != [] {
      QueryKeepsDistinct(db[1..], lo, hi);
      QueryFinds(db[1..], lo, hi, db[0]);
      assert db[0] !in db[1..];
    }
  }

  lemma {:induction false} FetchedFinds(db: seq<Record>, windows: seq<Span>, r: Record)
    ensures r in Fetched(db, windows) <==> r in db && SomeAsks(windows, r.modified)
  {
    if windows != [] {
      FetchedFinds(db, windows[1..], r);
      QueryFinds(db, Stamp(windows[0].0), Stamp(windows[0].1), r);
      SomeAsksOfCons(windows[0], windows[1..], r.modified);
      assert windows == [windows[0]] + windows[1..];
    }
  }

  /** A pull brings in exactly the records modified between its two stamps, both
      included, however many windows and pages that takes. */
  lemma {:induction false} PullFindsExactly(db: seq<Record>, start: int, end: int, r: Record)
    requires start < end
    ensures r in Fetched(db, WindowsOf(start, end)) <==> r in db && Stamp(start) <= r.modified <= Stamp(end)
  {
    FetchedFinds(db, WindowsOf(start, end), r);
    StampedWindowsCover(start, end, r.modified);
  }
}
