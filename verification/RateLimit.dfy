/** Request rate limiting: the in-process sliding window, and the aligned
    counter used when the shared store is reachable. Times are seconds. */
module RateLimit {
  import opened SlidingWindow

  datatype Decision = Decision(allowed: bool, limit: nat, remaining: int, retryAfter: int)

  // ------------------------------------------------------ sliding window --

  function Prune(bucket: seq<real>, cutoff: real): seq<real> {
    if bucket != [] && bucket[0] < cutoff then Prune(bucket[1..], cutoff) else bucket
  }

  function RetryAfter(oldest: real, now: real, window: nat): int {
    var retry := (window as real - (now - oldest)).Floor + 1;
    if retry < 1 then 1 else retry
  }

  function HitBucket(bucket: seq<real>, now: real, limit: nat, window: nat): seq<real> {
    var kept := Prune(bucket, now - window as real);
    if |kept| >= limit then kept else kept + [now]
  }

  /** The source indexes the oldest hit of a full bucket: a limit of 0 would raise. */
  function HitDecision(bucket: seq<real>, now: real, limit: nat, window: nat): Decision
    requires limit > 0
  {
    var kept := Prune(bucket, now - window as real);
    if |kept| >= limit then Decision(false, limit, 0, RetryAfter(kept[0], now, window))
    else Decision(true, limit, limit - (|kept| + 1), 0)
  }

  class LocalWindow {
    var hits: map<string, seq<real>>

    constructor ()
      ensures hits == map[]
    {
      hits := map[];
    }

    function Bucket(key: string): seq<real>
      reads this
    {
      if key in hits then hits[key] else []
    }

    /** `now` is the monotonic clock. */
    method Hit(key: string, limit: nat, window: nat, now: real) returns (d: Decision)
      requires limit > 0
      modifies this
      ensures d == HitDecision(old(Bucket(key)), now, limit, window)
      ensures hits == old(hits)[key := HitBucket(old(Bucket(key)), now, limit, window)]
    {
      var bucket := Bucket(key);
      var cutoff := now - window as real;
      while bucket != [] && bucket[0] < cutoff
        invariant Prune(bucket, cutoff) == Prune(old(Bucket(key)), cutoff)
        decreases |bucket|
      {
        bucket := bucket[1..];
      }
      if |bucket| >= limit {
        d := Decision(false, limit, 0, RetryAfter(bucket[0], now, window));
      } else {
        bucket := bucket + [now];
        d := Decision(true, limit, limit - |bucket|, 0);
      }
      hits := hits[key := bucket];
    }

    method Reset()
      modifies this
      ensures hits == map[]
    {
      hits := map[];
    }
  }

  // ----------------------------------------- whole histories of one key --

  /** The bucket and every admission so far. */
  datatype Log = Log(bucket: seq<real>, admitted: seq<real>)

  function Replay(times: seq<real>, limit: nat, window: nat): Log
    requires limit > 0
  {
    if times == [] then Log([], [])
    else
      var before := Replay(times[..|times| - 1], limit, window);
      var now := times[|times| - 1];
      Log(HitBucket(before.bucket, now, limit, window),
          if HitDecision(before.bucket, now, limit, window).allowed then before.admitted + [now] else before.admitted)
  }

  function Recent(h: seq<real>, cutoff: real): seq<real> {
    if h == [] then []
    else
      var earlier := Recent(h[..|h| - 1], cutoff);
      if h[|h| - 1] >= cutoff then earlier + [h[|h| - 1]] else earlier
  }

  lemma {:induction false} NothingRecent(h: seq<real>, cutoff: real)
    requires forall i :: 0 <= i < |h| ==> h[i] < cutoff
    ensures Recent(h, cutoff) == []
  {
    if h != [] { NothingRecent(h[..|h| - 1], cutoff); }
  }

  lemma {:induction false} RecentIsSuffix(h: seq<real>, cutoff: real, n: nat)
    requires n <= |h|
    requires forall i :: 0 <= i < n ==> h[i] < cutoff
    requires forall i :: n <= i < |h| ==> h[i] >= cutoff
    ensures Recent(h, cutoff) == h[n..]
  {
    if n == |h| {
      NothingRecent(h, cutoff);
    } else {
      var m := |h| - 1;
      RecentIsSuffix(h[..m], cutoff, n);
      assert h[n..] == h[..m][n..] + [h[m]];
    }
  }

  lemma {:induction false} PruneIsSuffix(bucket: seq<real>, cutoff: real) returns (n: nat)
    requires NonDecreasing(bucket)
    ensures n <= |bucket| && Prune(bucket, cutoff) == bucket[n..]
    ensures forall i :: 0 <= i < n ==> bucket[i] < cutoff
    ensures forall i :: n <= i < |bucket| ==> bucket[i] >= cutoff
  {
    if bucket != [] && bucket[0] < cutoff {
      var m := PruneIsSuffix(bucket[1..], cutoff);
      n := m + 1;
      forall i | 0 <= i < n ensures bucket[i] < cutoff { if i > 0 { assert bucket[i] == bucket[1..][i - 1]; } }
      forall i | n <= i < |bucket| ensures bucket[i] >= cutoff { assert bucket[i] == bucket[1..][i - 1]; }
    } else {
      n := 0;
    }
  }

  /** Of all admissions, in order, the last `kept` are those of the window that
      ends now. */
  ghost predicate WindowOk(admitted: seq<real>, kept: nat, now: real, limit: nat, window: nat) {
    && kept <= limit && kept <= |admitted|
    && NonDecreasing(admitted)
    && (forall i :: 0 <= i < |admitted| ==> admitted[i] <= now)
    && (forall i :: 0 <= i < |admitted| ==> (admitted[i] < now - window as real <==> i < |admitted| - kept))
  }

  /** What holds of the log right after a hit at `now`: the bucket is exactly the
      admissions of the last window, and admissions are spaced. */
  ghost predicate LogOk(log: Log, now: real, limit: nat, window: nat) {
    && WindowOk(log.admitted, |log.bucket|, now, limit, window)
    && Spaced(log.admitted, limit, window as real)
    && log.bucket == log.admitted[|log.admitted| - |log.bucket|..]
  }

  /** Pruning at a later moment keeps exactly the admissions of the last window. */
  lemma {:induction false} PrunedLog(admitted: seq<real>, kept: nat, last: real, now: real, window: nat)
    returns (gone: nat)
    requires NonDecreasing(admitted) && kept <= |admitted| && last <= now
    requires forall i :: 0 <= i < |admitted| - kept ==> admitted[i] < last - window as real
    ensures |admitted| - kept <= gone <= |admitted|
    ensures Prune(admitted[|admitted| - kept..], now - window as real) == admitted[gone..]
    ensures forall i :: 0 <= i < gone ==> admitted[i] < now - window as real
    ensures forall i :: gone <= i < |admitted| ==> admitted[i] >= now - window as real
  {
    var shift := |admitted| - kept;
    var bucket := admitted[shift..];
    var n := PruneIsSuffix(bucket, now - window as real);
    gone := shift + n;
    assert bucket[n..] == admitted[gone..];
    forall i | shift <= i < |admitted| ensures admitted[i] < now - window as real <==> i < gone {
      assert admitted[i] == bucket[i - shift];
    }
  }

  lemma {:induction false} AdmitKeepsSpacing(h: seq<real>, now: real, limit: nat, window: nat, gone: nat)
    requires Spaced(h, limit, window as real) && gone <= |h| && |h| - gone < limit
    requires forall i :: 0 <= i < gone ==> h[i] < now - window as real
    ensures Spaced(h + [now], limit, window as real)
  {
  }

  lemma {:induction false} AdmitKeepsWindow(h: seq<real>, now: real, limit: nat, window: nat, gone: nat)
    requires NonDecreasing(h) && gone <= |h| && |h| - gone < limit
    requires forall i :: 0 <= i < |h| ==> h[i] <= now
    requires forall i :: 0 <= i < |h| ==> (h[i] < now - window as real <==> i < gone)
    ensures WindowOk(h + [now], |h| - gone + 1, now, limit, window)
  {
  }

  lemma {:induction false} AdmittedLog(h: seq<real>, now: real, limit: nat, window: nat, gone: nat)
    requires NonDecreasing(h) && gone <= |h| && |h| - gone < limit
    requires Spaced(h, limit, window as real)
    requires forall i :: 0 <= i < |h| ==> h[i] <= now
    requires forall i :: 0 <= i < |h| ==> (h[i] < now - window as real <==> i < gone)
    ensures LogOk(Log(h[gone..] + [now], h + [now]), now, limit, window)
  {
    AdmitKeepsWindow(h, now, limit, window, gone);
    AdmitKeepsSpacing(h, now, limit, window, gone);
    assert (h + [now])[gone..] == h[gone..] + [now];
  }

  lemma {:induction false} HitKeepsLog(log: Log, last: real, now: real, limit: nat, window: nat)
    requires limit > 0 && LogOk(log, last, limit, window) && last <= now
    ensures LogOk(Log(HitBucket(log.bucket, now, limit, window),
                      if HitDecision(log.bucket, now, limit, window).allowed then log.admitted + [now]
                      else log.admitted), now, limit, window)
  {
    var gone := PrunedLog(log.admitted, |log.bucket|, last, now, window);
    if |log.admitted| - gone < limit {
      AdmittedLog(log.admitted, now, limit, window, gone);
    } else {
      assert WindowOk(log.admitted, |log.admitted| - gone, now, limit, window);
    }
  }

  lemma {:induction false} ReplayKeepsLog(times: seq<real>, limit: nat, window: nat)
    requires limit > 0 && NonDecreasing(times) && times != []
    ensures LogOk(Replay(times, limit, window), times[|times| - 1], limit, window)
  {
    var n := |times| - 1;
    if n == 0 {
      assert times[..0] == [];
      HitKeepsLog(Log([], []), times[0], times[0], limit, window);
    } else {
      ReplayKeepsLog(times[..n], limit, window);
      HitKeepsLog(Replay(times[..n], limit, window), times[n - 1], times[n], limit, window);
    }
  }

  /** For every history of hits: the bucket is the admitted history restricted to
      the last window, and no closed interval of one window, wherever it
      starts, holds more than `limit` admissions. */
  lemma {:induction false} SlidingWindowHolds(times: seq<real>, limit: nat, window: nat, lo: real)
    requires limit > 0 && NonDecreasing(times) && times != []
    ensures var log := Replay(times, limit, window);
      && log.bucket == Recent(log.admitted, times[|times| - 1] - window as real)
      && CountIn(log.admitted, lo, lo + window as real) <= limit
  {
    ReplayKeepsLog(times, limit, window);
    LogIsBounded(Replay(times, limit, window), times[|times| - 1], limit, window, lo);
  }

  lemma {:induction false} LogIsBounded(log: Log, now: real, limit: nat, window: nat, lo: real)
    requires LogOk(log, now, limit, window)
    ensures log.bucket == Recent(log.admitted, now - window as real)
    ensures CountIn(log.admitted, lo, lo + window as real) <= limit
  {
    RecentIsKept(log.admitted, |log.bucket|, now, limit, window);
    SpacedBoundsEveryInterval(log.admitted, limit, window as real, lo);
  }

  lemma {:induction false} RecentIsKept(h: seq<real>, kept: nat, now: real, limit: nat, window: nat)
    requires WindowOk(h, kept, now, limit, window)
    ensures Recent(h, now - window as real) == h[|h| - kept..]
  {
    RecentIsSuffix(h, now - window as real, |h| - kept);
  }

  lemma {:induction false} CountOfSuffix(h: seq<real>, lo: real, hi: real, n: nat)
    requires n <= |h|
    requires forall i :: 0 <= i < n ==> h[i] < lo
    requires forall i :: n <= i < |h| ==> lo <= h[i] <= hi
    ensures CountIn(h, lo, hi) == |h| - n
  {
    if h != [] {
      CountOfSuffix(h[..|h| - 1], lo, hi, if n == |h| then n - 1 else n);
    }
  }

  /** A hit is turned away exactly when the window ending now is already full. */
  lemma {:induction false} DeniedIffWindowFull(times: seq<real>, now: real, limit: nat, window: nat)
    requires limit > 0 && NonDecreasing(times) && times != [] && times[|times| - 1] <= now
    ensures var log := Replay(times, limit, window);
      HitDecision(log.bucket, now, limit, window).allowed
      <==> CountIn(log.admitted, now - window as real, now) < limit
  {
    ReplayKeepsLog(times, limit, window);
    DecisionCounts(Replay(times, limit, window), times[|times| - 1], now, limit, window);
  }

  lemma {:induction false} DecisionCounts(log: Log, last: real, now: real, limit: nat, window: nat)
    requires LogOk(log, last, limit, window) && last <= now && limit > 0
    ensures HitDecision(log.bucket, now, limit, window).allowed
            <==> CountIn(log.admitted, now - window as real, now) < limit
  {
    PrunedIsCounted(log.admitted, log.bucket, last, now, limit, window);
  }

  lemma {:induction false} PrunedIsCounted(h: seq<real>, bucket: seq<real>, last: real, now: real,
      limit: nat, window: nat)
    requires WindowOk(h, |bucket|, last, limit, window) && last <= now && bucket == h[|h| - |bucket|..]
    ensures |Prune(bucket, now - window as real)| == CountIn(h, now - window as real, now)
  {
    var gone := PrunedLog(h, |bucket|, last, now, window);
    CountOfSuffix(h, now - window as real, now, gone);
  }

  /** The answer says how many more the window has room for: none when it is full,
      and then when to come back. */
  lemma {:induction false} AnswerSaysWhatIsLeft(times: seq<real>, now: real, limit: nat, window: nat)
    requires limit > 0 && NonDecreasing(times) && times != [] && times[|times| - 1] <= now
    ensures var log := Replay(times, limit, window);
      var d, held := HitDecision(log.bucket, now, limit, window), CountIn(log.admitted, now - window as real, now);
      && d.limit == limit && d.remaining == (if held < limit then limit - held - 1 else 0)
      && (held < limit ==> d.retryAfter == 0) && (held >= limit ==> 1 <= d.retryAfter <= window + 1)
  {
    HeldInTheWindow(times, now, limit, window);
    DecisionOf(Replay(times, limit, window).bucket, now, limit, window);
  }

  lemma {:induction false} HeldInTheWindow(times: seq<real>, now: real, limit: nat, window: nat)
    requires limit > 0 && NonDecreasing(times) && times != [] && times[|times| - 1] <= now
    ensures var log := Replay(times, limit, window);
      var kept := Prune(log.bucket, now - window as real);
      && |kept| == CountIn(log.admitted, now - window as real, now)
      && (kept != [] ==> now - window as real <= kept[0] <= now)
  {
    var log, last := Replay(times, limit, window), times[|times| - 1];
    ReplayKeepsLog(times, limit, window);
    LogCounts(log, last, now, limit, window);
    PruneIsFresh(log.bucket, now - window as real);
    var kept := Prune(log.bucket, now - window as real);
    if kept != [] { KeptIsPast(log, last, limit, window, kept[0]); }
  }

  lemma {:induction false} LogCounts(log: Log, last: real, now: real, limit: nat, window: nat)
    requires LogOk(log, last, limit, window) && last <= now
    ensures |Prune(log.bucket, now - window as real)| == CountIn(log.admitted, now - window as real, now)
  {
    PrunedIsCounted(log.admitted, log.bucket, last, now, limit, window);
  }

  lemma {:induction false} DecisionOf(bucket: seq<real>, now: real, limit: nat, window: nat)
    requires limit > 0
    requires var kept := Prune(bucket, now - window as real);
      kept != [] ==> now - window as real <= kept[0] <= now
    ensures var d, held := HitDecision(bucket, now, limit, window), |Prune(bucket, now - window as real)|;
      && d.limit == limit && d.remaining == (if held < limit then limit - held - 1 else 0)
      && (held < limit ==> d.retryAfter == 0) && (held >= limit ==> 1 <= d.retryAfter <= window + 1)
  {
    var kept := Prune(bucket, now - window as real);
    if |kept| >= limit { WaitIsBounded(kept[0], now, window); }
  }

  lemma {:induction false} WaitIsBounded(oldest: real, now: real, window: nat)
    requires now - window as real <= oldest <= now
    ensures 1 <= RetryAfter(oldest, now, window) <= window + 1
  {
  }

  lemma {:induction false} PruneIsFresh(bucket: seq<real>, cutoff: real)
    ensures var kept := Prune(bucket, cutoff);
      && (kept != [] ==> kept[0] >= cutoff) && forall x :: x in kept ==> x in bucket
  {
    if bucket != [] && bucket[0] < cutoff { PruneIsFresh(bucket[1..], cutoff); }
  }

  lemma {:induction false} KeptIsPast(log: Log, last: real, limit: nat, window: nat, hit: real)
    requires LogOk(log, last, limit, window) && hit in log.bucket
    ensures hit <= last
  {
  }

  /** `retry_after` is honest: with nothing admitted meanwhile, a hit that waits
      that long is admitted, and a hit after any fewer whole seconds is not. */
  lemma {:induction false} RetryAfterIsExact(times: seq<real>, limit: nat, window: nat, wait: int)
    requires limit > 0 && NonDecreasing(times) && times != [] && wait >= 0
    requires var n := |times| - 1;
      !HitDecision(Replay(times[..n], limit, window).bucket, times[n], limit, window).allowed
    ensures var n := |times| - 1;
      var retry := HitDecision(Replay(times[..n], limit, window).bucket, times[n], limit, window).retryAfter;
      HitDecision(Replay(times, limit, window).bucket, times[n] + wait as real, limit, window).allowed
      <==> wait >= retry
  {
    var n := |times| - 1;
    ReplayKeepsLog(times, limit, window);
    RetryAfterDenied(Replay(times[..n], limit, window), Replay(times, limit, window), times[n], limit, window, wait);
  }

  lemma {:induction false} RetryAfterDenied(before: Log, log: Log, now: real, limit: nat, window: nat, wait: int)
    requires limit > 0 && wait >= 0 && LogOk(log, now, limit, window)
    requires !HitDecision(before.bucket, now, limit, window).allowed
    requires log.bucket == HitBucket(before.bucket, now, limit, window)
    ensures HitDecision(log.bucket, now + wait as real, limit, window).allowed
            <==> wait >= HitDecision(before.bucket, now, limit, window).retryAfter
  {
    SuffixInWindow(log.admitted, log.bucket, now, limit, window);
    RetryOpensTheFront(log.bucket, now, limit, window, wait);
  }

  ghost predicate AllSince(bucket: seq<real>, start: real) {
    forall i :: 0 <= i < |bucket| ==> bucket[i] >= start
  }

  lemma {:induction false} SuffixInWindow(h: seq<real>, bucket: seq<real>, now: real, limit: nat, window: nat)
    requires WindowOk(h, |bucket|, now, limit, window) && bucket == h[|h| - |bucket|..]
    ensures NonDecreasing(bucket) && AllSince(bucket, now - window as real)
  {
  }

  lemma {:induction false} RetryOpensTheFront(bucket: seq<real>, now: real, limit: nat, window: nat, wait: int)
    requires NonDecreasing(bucket) && |bucket| == limit > 0 && wait >= 0
    requires AllSince(bucket, now - window as real)
    ensures HitDecision(bucket, now + wait as real, limit, window).allowed
            <==> wait >= RetryAfter(bucket[0], now, window)
  {
    var m := PruneIsSuffix(bucket, now + wait as real - window as real);
    var slack := window as real - (now - bucket[0]);
    assert wait as real <= slack <==> wait <= slack.Floor;
  }

  // ------------------------------------------------------ aligned counter --

  /** The shared counter of one key: a count per aligned window, and of every
      admission its time and the number of the window it fell in. */
  datatype Counted = Counted(counts: map<int, nat>, admitted: seq<real>, numbers: seq<int>)

  function WindowNumber(now: real, window: nat): int
    requires window > 0
  {
    (now / window as real).Floor
  }

  function CountAt(counts: map<int, nat>, w: int): nat {
    if w in counts then counts[w] else 0
  }

  function FixedDecision(count: nat, limit: nat, window: nat): Decision {
    if count > limit then Decision(false, limit, 0, window) else Decision(true, limit, limit - count, 0)
  }

  /** How the backend takes a hit: it answers, it counts and its answer is lost, or
      it is not reached. */
  datatype Reply = Answered | ReplyLost | NotReached

  /** The counters of one key among all of them. */
  function CountsOf(counts: map<(string, int), nat>, key: string): map<int, nat> {
    map w | w in (set slot | slot in counts :: slot.1) && (key, w) in counts :: counts[(key, w)]
  }

  /** The counters every worker shares, one per key and aligned window. */
  class SharedCounter {
    var counts: map<(string, int), nat>

    constructor ()
      ensures counts == map[]
    {
      counts := map[];
    }

    /** A backend that does not answer lets the request through. */
    method Check(key: string, limit: nat, window: nat, now: real, reply: Reply) returns (d: Decision)
      requires window > 0
      modifies this
      ensures forall s: Counted :: s.counts == CountsOf(old(counts), key) ==>
                var (t, decision) := FixedHit(s, Hit(now, reply), limit, window);
                t.counts == CountsOf(counts, key) && d == decision
      ensures forall other :: other != key ==> CountsOf(counts, other) == CountsOf(old(counts), other)
    {
      if reply.NotReached? { return Decision(true, limit, limit, 0); }
      var slot := (key, WindowNumber(now, window));
      var count := 1;
      if slot in counts { count := counts[slot] + 1; }
      CountsOfAt(counts, key, slot.1);
      OwnCounterChanges(counts, key, slot.1, count);
      forall other | other != key ensures CountsOf(counts[slot := count], other) == CountsOf(counts, other) {
        OtherCountersStay(counts, key, slot.1, count, other);
      }
      counts := counts[slot := count];
      if reply.ReplyLost? { return Decision(true, limit, limit, 0); }
      if count > limit { return Decision(false, limit, 0, window); }
      return Decision(true, limit, limit - count, 0);
    }
  }

  lemma {:induction false} CountsOfAt(counts: map<(string, int), nat>, key: string, w: int)
    ensures w in CountsOf(counts, key) <==> (key, w) in counts
    ensures w in CountsOf(counts, key) ==> CountsOf(counts, key)[w] == counts[(key, w)]
  {
    if (key, w) in counts { assert (key, w).1 in (set slot | slot in counts :: slot.1); }
  }

  lemma {:induction false} OwnCounterChanges(counts: map<(string, int), nat>, key: string, w: int, count: nat)
    ensures CountsOf(counts[(key, w) := count], key) == CountsOf(counts, key)[w := count]
  {
    var after := counts[(key, w) := count];
    forall x
      ensures x in CountsOf(after, key) <==> x in CountsOf(counts, key)[w := count]
      ensures x in CountsOf(after, key) ==> CountsOf(after, key)[x] == CountsOf(counts, key)[w := count][x]
    {
      CountsOfAt(after, key, x);
      CountsOfAt(counts, key, x);
    }
  }

  lemma {:induction false} OtherCountersStay(counts: map<(string, int), nat>, key: string, w: int, count: nat,
                                             other: string)
    requires other != key
    ensures CountsOf(counts[(key, w) := count], other) == CountsOf(counts, other)
  {
    var after := counts[(key, w) := count];
    forall x
      ensures x in CountsOf(after, other) <==> x in CountsOf(counts, other)
      ensures x in CountsOf(after, other) ==> CountsOf(after, other)[x] == CountsOf(counts, other)[x]
    {
      CountsOfAt(after, other, x);
      CountsOfAt(counts, other, x);
    }
  }

  datatype Hit = Hit(at: real, reply: Reply)

  /** One hit on the counters of one key. Only an answered one can be refused. */
  function FixedHit(s: Counted, hit: Hit, limit: nat, window: nat): (Counted, Decision)
    requires window > 0
  {
    HitInWindow(s, hit, WindowNumber(hit.at, window), limit, window)
  }

  function HitInWindow(s: Counted, hit: Hit, w: int, limit: nat, window: nat): (Counted, Decision) {
    var count := CountAt(s.counts, w) + 1;
    var counts := if hit.reply.NotReached? then s.counts else s.counts[w := count];
    if !hit.reply.Answered? then (s.(counts := counts), Decision(true, limit, limit, 0))
    else
      var d := FixedDecision(count, limit, window);
      (if d.allowed then Counted(counts, s.admitted + [hit.at], s.numbers + [w]) else s.(counts := counts), d)
  }

  function FixedReplay(hits: seq<Hit>, limit: nat, window: nat): Counted
    requires window > 0
  {
    if hits == [] then Counted(map[], [], [])
    else FixedHit(FixedReplay(hits[..|hits| - 1], limit, window), hits[|hits| - 1], limit, window).0
  }

  /** When the hits that were let through came, and those that got no answer. */
  function LetThrough(hits: seq<Hit>, limit: nat, window: nat): seq<real>
    requires window > 0
  {
    if hits == [] then []
    else
      var before, last := hits[..|hits| - 1], hits[|hits| - 1];
      LetThrough(before, limit, window) +
      if FixedHit(FixedReplay(before, limit, window), last, limit, window).1.allowed then [last.at] else []
  }

  function Unanswered(hits: seq<Hit>): seq<real> {
    if hits == [] then []
    else Unanswered(hits[..|hits| - 1]) + if hits[|hits| - 1].reply.Answered? then [] else [hits[|hits| - 1].at]
  }

  ghost predicate InOrder(hits: seq<Hit>) {
    forall i, k :: 0 <= i <= k < |hits| ==> hits[i].at <= hits[k].at
  }

  function Occurrences(w: seq<int>, x: int): nat {
    if w == [] then 0 else Occurrences(w[..|w| - 1], x) + if w[|w| - 1] == x then 1 else 0
  }

  ghost predicate Placed(s: Counted, last: real, window: nat)
    requires window > 0
  {
    && |s.numbers| == |s.admitted|
    && forall i :: 0 <= i < |s.admitted| ==>
         s.numbers[i] == WindowNumber(s.admitted[i], window) && s.admitted[i] <= last
  }

  ghost predicate Ascending(numbers: seq<int>) {
    forall i, k :: 0 <= i <= k < |numbers| ==> numbers[i] <= numbers[k]
  }

  ghost predicate Bounded(numbers: seq<int>, counts: map<int, nat>, limit: nat) {
    forall n :: Occurrences(numbers, n) <= CountAt(counts, n) && Occurrences(numbers, n) <= limit
  }

  ghost predicate FixedOk(s: Counted, last: real, limit: nat, window: nat)
    requires window > 0
  {
    Placed(s, last, window) && Ascending(s.numbers) && Bounded(s.numbers, s.counts, limit)
  }

  lemma {:induction false} WindowNumberIsMonotone(early: real, late: real, window: nat)
    requires window > 0 && early <= late
    ensures WindowNumber(early, window) <= WindowNumber(late, window)
  {
    assert early / window as real <= late / window as real;
  }

  lemma {:induction false} Scaled(a: real, b: real, w: real)
    requires w > 0.0 && a > b
    ensures a * w > b * w
  {
  }

  /** Two aligned windows further on is more than one window later. */
  lemma {:induction false} TwoWindowsApart(early: real, late: real, window: nat)
    requires window > 0 && WindowNumber(early, window) + 2 <= WindowNumber(late, window)
    ensures late - early > window as real
  {
    var w := window as real;
    Scaled(late / w, early / w + 1.0, w);
    assert (early / w + 1.0) * w == early / w * w + w == early + w;
  }

  lemma {:induction false} OneMoreOccurrence(numbers: seq<int>, w: int, n: int)
    ensures Occurrences(numbers + [w], n) == Occurrences(numbers, n) + if n == w then 1 else 0
  {
    assert (numbers + [w])[..|numbers|] == numbers;
  }

  lemma {:induction false} OneMoreCounted(numbers: seq<int>, counts: map<int, nat>, w: int, limit: nat)
    requires Bounded(numbers, counts, limit)
    ensures var after := counts[w := CountAt(counts, w) + 1];
      && Bounded(numbers, after, limit)
      && (CountAt(after, w) <= limit ==> Bounded(numbers + [w], after, limit))
  {
    var after := counts[w := CountAt(counts, w) + 1];
    forall n
      ensures Occurrences(numbers, n) <= CountAt(after, n) && Occurrences(numbers, n) <= limit
      ensures CountAt(after, w) <= limit ==>
                Occurrences(numbers + [w], n) <= CountAt(after, n) && Occurrences(numbers + [w], n) <= limit
    {
      assert Occurrences(numbers, n) <= CountAt(counts, n);
      OneMoreOccurrence(numbers, w, n);
    }
  }

  lemma {:induction false} LatestIsHighest(s: Counted, now: real, window: nat)
    requires window > 0 && Placed(s, now, window) && Ascending(s.numbers)
    ensures Ascending(s.numbers + [WindowNumber(now, window)])
  {
    forall i | 0 <= i < |s.numbers| ensures s.numbers[i] <= WindowNumber(now, window) {
      WindowNumberIsMonotone(s.admitted[i], now, window);
    }
  }

  lemma {:induction false} CountedHitKeeps(s: Counted, hit: Hit, w: int, limit: nat, window: nat)
    requires Ascending(s.numbers) && Ascending(s.numbers + [w]) && Bounded(s.numbers, s.counts, limit)
    ensures var t := HitInWindow(s, hit, w, limit, window).0;
      && Ascending(t.numbers) && Bounded(t.numbers, t.counts, limit)
      && ((t.numbers == s.numbers && t.admitted == s.admitted)
          || (t.numbers == s.numbers + [w] && t.admitted == s.admitted + [hit.at]))
  {
    OneMoreCounted(s.numbers, s.counts, w, limit);
  }

  lemma {:induction false} FixedHitKeeps(s: Counted, last: real, hit: Hit, limit: nat, window: nat)
    requires window > 0 && FixedOk(s, last, limit, window) && last <= hit.at
    ensures FixedOk(FixedHit(s, hit, limit, window).0, hit.at, limit, window)
  {
    LatestIsHighest(s, hit.at, window);
    CountedHitKeeps(s, hit, WindowNumber(hit.at, window), limit, window);
  }

  lemma {:induction false} FixedReplayOk(hits: seq<Hit>, limit: nat, window: nat)
    requires window > 0 && InOrder(hits) && hits != []
    ensures FixedOk(FixedReplay(hits, limit, window), hits[|hits| - 1].at, limit, window)
  {
    var n := |hits| - 1;
    if n > 0 {
      FixedReplayOk(hits[..n], limit, window);
      FixedHitKeeps(FixedReplay(hits[..n], limit, window), hits[n - 1].at, hits[n], limit, window);
    } else {
      assert hits[..0] == [];
      FixedHitKeeps(Counted(map[], [], []), hits[0].at, hits[0], limit, window);
    }
  }

  lemma {:induction false} RunOfEquals(w: seq<int>, i: nat, k: nat)
    requires i <= k < |w| && forall j :: i <= j <= k ==> w[j] == w[i]
    ensures Occurrences(w, w[i]) >= k - i + 1
  {
    var n := |w| - 1;
    if k < n {
      RunOfEquals(w[..n], i, k);
    } else if i < k {
      RunOfEquals(w[..n], i, k - 1);
    }
  }

  lemma {:induction false} NumbersMoveOn(numbers: seq<int>, limit: nat, i: nat, k: nat)
    requires i + limit <= k < |numbers| && Occurrences(numbers, numbers[i]) <= limit
    requires forall i, k :: 0 <= i <= k < |numbers| ==> numbers[i] <= numbers[k]
    ensures numbers[i] < numbers[k]
  {
    if numbers[i] == numbers[k] { RunOfEquals(numbers, i, k); }
  }

  lemma {:induction false} FarApart(s: Counted, last: real, limit: nat, window: nat, i: nat, k: nat)
    requires window > 0 && FixedOk(s, last, limit, window) && i + 2 * limit <= k < |s.admitted|
    ensures s.admitted[k] - s.admitted[i] > window as real
  {
    NumbersMoveOn(s.numbers, limit, i, i + limit);
    NumbersMoveOn(s.numbers, limit, i + limit, k);
    TwoWindowsApart(s.admitted[i], s.admitted[k], window);
  }

  lemma {:induction false} CountedIsSpaced(s: Counted, last: real, limit: nat, window: nat)
    requires window > 0 && FixedOk(s, last, limit, window)
    ensures Spaced(s.admitted, 2 * limit, window as real)
  {
    forall i, k | 0 <= i && i + 2 * limit <= k < |s.admitted| ensures s.admitted[k] - s.admitted[i] > window as real {
      FarApart(s, last, limit, window, i, k);
    }
  }

  // ------------------------------------------- what the aligned counter answers --

  /** The hits that reached the backend from one moment up to another. */
  function ReachedIn(hits: seq<Hit>, from: real, to: real): nat {
    if hits == [] then 0
    else
      var last := hits[|hits| - 1];
      ReachedIn(hits[..|hits| - 1], from, to) +
      if last.reply != NotReached && from <= last.at < to then 1 else 0
  }

  /** Where the k-th aligned window starts. */
  function Start(k: int, window: nat): real {
    k as real * window as real
  }

  lemma {:induction false} NumberOfWindow(at: real, k: int, window: nat)
    requires window > 0
    ensures WindowNumber(at, window) == k <==> Start(k, window) <= at < Start(k + 1, window)
  {
    var w := window as real;
    assert (k + 1) as real == k as real + 1.0;
    if k as real * w <= at < (k as real + 1.0) * w {
      QuotientBetween(at, k as real, w);
    } else if WindowNumber(at, window) == k {
      BetweenQuotient(at, k as real, w);
    }
  }

  lemma {:induction false} BetweenQuotient(at: real, k: real, w: real)
    requires w > 0.0 && k <= at / w < k + 1.0
    ensures k * w <= at < (k + 1.0) * w
  {
    var q := at / w;
    assert at == q * w;
    ProductAtLeast(at, q, k, w);
    ProductBelow(at, q, k + 1.0, w);
  }

  lemma {:induction false} ProductAtLeast(at: real, q: real, k: real, w: real)
    requires w > 0.0 && k <= q && at == q * w
    ensures k * w <= at
  {
    if k < q { Scaled(q, k, w); }
  }

  lemma {:induction false} ProductBelow(at: real, q: real, k: real, w: real)
    requires w > 0.0 && q < k && at == q * w
    ensures at < k * w
  {
    Scaled(k, q, w);
  }

  lemma {:induction false} QuotientBetween(at: real, k: real, w: real)
    requires w > 0.0 && k * w <= at < (k + 1.0) * w
    ensures k <= at / w < k + 1.0
  {
    assert at / w * w == at;
    if at / w < k { Scaled(k, at / w, w); }
    if at / w >= k + 1.0 && at / w != k + 1.0 { Scaled(at / w, k + 1.0, w); }
  }

  lemma {:induction false} CountsAreReached(hits: seq<Hit>, limit: nat, window: nat, k: int)
    requires window > 0
    ensures CountAt(FixedReplay(hits, limit, window).counts, k)
         == ReachedIn(hits, Start(k, window), Start(k + 1, window))
  {
    if hits != [] {
      CountsAreReached(hits[..|hits| - 1], limit, window, k);
      NumberOfWindow(hits[|hits| - 1].at, k, window);
    }
  }

  /** An answered hit is let through exactly when fewer than the limit reached the
      backend before it in its own aligned window; one that gets no answer always. */
  lemma {:induction false} FixedAnswersIff(hits: seq<Hit>, hit: Hit, limit: nat, window: nat, k: int)
    requires window > 0 && Start(k, window) <= hit.at < Start(k + 1, window)
    ensures var d := FixedHit(FixedReplay(hits, limit, window), hit, limit, window).1;
      var before := ReachedIn(hits, Start(k, window), Start(k + 1, window));
      && d.limit == limit
      && (hit.reply == Answered ==>
            && (d.allowed <==> before < limit)
            && d.remaining == (if before < limit then limit - before - 1 else 0)
            && d.retryAfter == (if before < limit then 0 else window))
      && (hit.reply != Answered ==> d.allowed && d.remaining == limit && d.retryAfter == 0)
  {
    NumberOfWindow(hit.at, k, window);
    CountsAreReached(hits, limit, window, k);
    var s := FixedReplay(hits, limit, window);
    AnswerInWindow(s, hit, k, limit, window);
    assert FixedHit(s, hit, limit, window) == HitInWindow(s, hit, k, limit, window);
    assert CountAt(s.counts, k) == ReachedIn(hits, Start(k, window), Start(k + 1, window));
  }

  lemma {:induction false} AnswerInWindow(s: Counted, hit: Hit, w: int, limit: nat, window: nat)
    ensures var d, before := HitInWindow(s, hit, w, limit, window).1, CountAt(s.counts, w);
      && d.limit == limit
      && (hit.reply == Answered ==>
            && (d.allowed <==> before < limit)
            && d.remaining == (if before < limit then limit - before - 1 else 0)
            && d.retryAfter == (if before < limit then 0 else window))
      && (hit.reply != Answered ==> d.allowed && d.remaining == limit && d.retryAfter == 0)
  {
  }

  lemma {:induction false} CountInOfSum(a: seq<real>, b: seq<real>, lo: real, hi: real)
    ensures CountIn(a + b, lo, hi) == CountIn(a, lo, hi) + CountIn(b, lo, hi)
  {
    if b == [] {
      assert a + b == a;
    } else {
      CountInOfSum(a, b[..|b| - 1], lo, hi);
      assert (a + b)[..|a + b| - 1] == a + b[..|b| - 1];
    }
  }

  lemma {:induction false} OneHitCounted(s: Counted, hit: Hit, limit: nat, window: nat)
    requires window > 0
    ensures var (t, d) := FixedHit(s, hit, limit, window);
      && t.admitted == (if hit.reply.Answered? && d.allowed then s.admitted + [hit.at] else s.admitted)
      && (!hit.reply.Answered? ==> d.allowed)
  {
  }

  /** What was let through was admitted by the counter or got no answer. */
  lemma {:induction false} LetThroughCounted(hits: seq<Hit>, limit: nat, window: nat, lo: real, hi: real)
    requires window > 0
    ensures CountIn(LetThrough(hits, limit, window), lo, hi) ==
            CountIn(FixedReplay(hits, limit, window).admitted, lo, hi) + CountIn(Unanswered(hits), lo, hi)
  {
    if hits != [] {
      var before, last := hits[..|hits| - 1], hits[|hits| - 1];
      var s := FixedReplay(before, limit, window);
      LetThroughCounted(before, limit, window, lo, hi);
      OneHitCounted(s, last, limit, window);
      var d := FixedHit(s, last, limit, window).1;
      assert LetThrough(hits, limit, window) == LetThrough(before, limit, window) + if d.allowed then [last.at] else [];
      SumOfThree(LetThrough(before, limit, window), s.admitted, Unanswered(before), last, d.allowed, lo, hi);
    }
  }

  lemma {:induction false} SumOfThree(through: seq<real>, admitted: seq<real>, unanswered: seq<real>, hit: Hit,
                                      allowed: bool, lo: real, hi: real)
    requires CountIn(through, lo, hi) == CountIn(admitted, lo, hi) + CountIn(unanswered, lo, hi)
    requires !hit.reply.Answered? ==> allowed
    ensures CountIn(through + if allowed then [hit.at] else [], lo, hi)
            == CountIn(if hit.reply.Answered? && allowed then admitted + [hit.at] else admitted, lo, hi)
               + CountIn(unanswered + if hit.reply.Answered? then [] else [hit.at], lo, hi)
  {
    CountInOfSum(through, if allowed then [hit.at] else [], lo, hi);
    CountInOfSum(admitted, [hit.at], lo, hi);
    CountInOfSum(unanswered, if hit.reply.Answered? then [] else [hit.at], lo, hi);
  }

  lemma {:induction false} AdmittedSpanBound(hits: seq<Hit>, limit: nat, window: nat, lo: real)
    requires window > 0 && InOrder(hits) && hits != []
    ensures CountIn(FixedReplay(hits, limit, window).admitted, lo, lo + window as real) <= 2 * limit
  {
    var s := FixedReplay(hits, limit, window);
    FixedReplayOk(hits, limit, window);
    CountedIsSpaced(s, hits[|hits| - 1].at, limit, window);
    SpacedBoundsEveryInterval(s.admitted, 2 * limit, window as real, lo);
  }

  /** In any span of one window, wherever it starts, the aligned counter lets
      through at most twice the limit, and the hits it left unanswered. */
  lemma {:induction false} FixedWindowSpanBound(hits: seq<Hit>, limit: nat, window: nat, lo: real)
    requires window > 0 && InOrder(hits)
    ensures CountIn(LetThrough(hits, limit, window), lo, lo + window as real)
            <= 2 * limit + CountIn(Unanswered(hits), lo, lo + window as real)
  {
    LetThroughCounted(hits, limit, window, lo, lo + window as real);
    if hits != [] { AdmittedSpanBound(hits, limit, window, lo); }
  }
}
