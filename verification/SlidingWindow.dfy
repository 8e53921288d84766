/** Counting arguments shared by everything that limits events per span of time. */
module SlidingWindow {

  ghost predicate NonDecreasing(h: seq<real>) {
    forall i, k :: 0 <= i <= k < |h| ==> h[i] <= h[k]
  }

  /** An event and the one `limit` places later are more than `window` apart. */
  ghost predicate Spaced(h: seq<real>, limit: nat, window: real) {
    forall i, k :: 0 <= i && i + limit <= k < |h| ==> h[k] - h[i] > window
  }

  /** Events in the closed interval [lo, hi]. */
  function CountIn(h: seq<real>, lo: real, hi: real): nat {
    if h == [] then 0
    else CountIn(h[..|h| - 1], lo, hi) + if lo <= h[|h| - 1] <= hi then 1 else 0
  }

  lemma {:induction false} CountSpan(h: seq<real>, lo: real, hi: real) returns (first: nat, last: nat)
    requires CountIn(h, lo, hi) > 0
    ensures first <= last < |h| && lo <= h[first] && h[last] <= hi
    ensures CountIn(h, lo, hi) <= last - first + 1
  {
    var n := |h| - 1;
    if CountIn(h[..n], lo, hi) > 0 {
      first, last := CountSpan(h[..n], lo, hi);
    } else {
      first := n;
    }
    if lo <= h[n] <= hi { last := n; }
  }

  /** Spaced events never exceed the limit in any closed interval of that length. */
  lemma {:induction false} SpacedBoundsEveryInterval(h: seq<real>, limit: nat, window: real, lo: real)
    requires Spaced(h, limit, window)
    ensures CountIn(h, lo, lo + window) <= limit
  {
    if CountIn(h, lo, lo + window) > 0 {
      var first, last := CountSpan(h, lo, lo + window);
      assert h[last] - h[first] <= window;
    }
  }

  /** Events batched into windows that start at least `window` apart, at most
      `limit` to a window: `w[i]` is the start of the window of event `i`. */
  ghost predicate Batched(h: seq<real>, w: seq<real>, limit: nat, window: real) {
    && |w| == |h|
    && (forall i :: 0 <= i < |h| ==> w[i] <= h[i] < w[i] + window)
    && (forall i, k :: 0 <= i <= k < |h| ==> w[i] == w[k] || w[i] + window <= w[k])
    && (forall i, k :: 0 <= i && i + limit <= k < |h| ==> w[i] != w[k])
  }

  /** Then any span of one window meets at most two batches. */
  lemma {:induction false} BatchesAreSpaced(h: seq<real>, w: seq<real>, limit: nat, window: real)
    requires Batched(h, w, limit, window) && limit > 0 && window > 0.0
    ensures Spaced(h, 2 * limit, window)
  {
    forall i, k | 0 <= i && i + 2 * limit <= k < |h| ensures h[k] - h[i] > window {
      assert w[i] != w[i + limit] && w[i + limit] != w[k];
      assert w[i] + window <= w[i + limit] && w[i + limit] + window <= w[k];
    }
  }
}
