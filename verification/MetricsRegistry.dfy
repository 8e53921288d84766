/** The in-process metrics registry: capped counters, bounded histograms, and
    their exposition. */
module MetricsRegistry {
  import opened MetricLabels

  const MAX_SERIES_PER_METRIC: nat := 256
  const MAX_OBSERVATIONS: nat := 5000
  const OVERFLOW: string := "overflow=\"1\""

  type Key = (string, string)

  datatype Counters = Counters(value: map<Key, int>, series: map<string, nat>)

  function Count(series: map<string, nat>, metric: string): nat {
    if metric in series then series[metric] else 0
  }

  function Value(value: map<Key, int>, key: Key): int {
    if key in value then value[key] else 0
  }

  function KeyFor(c: Counters, metric: string, text: string): Key {
    if (metric, text) !in c.value && Count(c.series, metric) >= MAX_SERIES_PER_METRIC
    then (metric, OVERFLOW) else (metric, text)
  }

  function Add(c: Counters, metric: string, text: string, amount: int): Counters {
    var key := KeyFor(c, metric, text);
    Counters(c.value[key := Value(c.value, key) + amount],
             if key in c.value then c.series else c.series[metric := Count(c.series, metric) + 1])
  }

  function Push(bucket: seq<real>, value: real): seq<real> {
    var longer := bucket + [value];
    if |longer| > MAX_OBSERVATIONS then longer[|longer| - MAX_OBSERVATIONS..] else longer
  }

  class Registry {
    var counters: map<Key, int>
    var series: map<string, nat>
    var histogram: map<string, seq<real>>

    constructor ()
      ensures Now() == Counters(map[], map[]) && histogram == map[]
    {
      counters, series, histogram := map[], map[], map[];
    }

    function Now(): Counters
      reads this
    {
      Counters(counters, series)
    }

    method Incr(metric: string, labels: seq<Item>, amount: int)
      modifies this
      ensures Now() == Add(old(Now()), metric, RenderLabels(labels), amount) && histogram == old(histogram)
    {
      var rendered := RenderLabels(labels);
      var key := (metric, rendered);
      if key !in counters && Count(series, metric) >= MAX_SERIES_PER_METRIC {
        key := (metric, OVERFLOW);
      }
      if key !in counters {
        series := series[metric := Count(series, metric) + 1];
      }
      counters := counters[key := Value(counters, key) + amount];
    }

    method Observe(metric: string, value: real)
      modifies this`histogram
      ensures histogram == old(histogram)[metric :=
                Push(if metric in old(histogram) then old(histogram)[metric] else [], value)]
    {
      var bucket := if metric in histogram then histogram[metric] else [];
      bucket := bucket + [value];
      if |bucket| > MAX_OBSERVATIONS {
        bucket := bucket[|bucket| - MAX_OBSERVATIONS..];
      }
      histogram := histogram[metric := bucket];
    }

    method Reset()
      modifies this
      ensures Now() == Counters(map[], map[]) && histogram == map[]
    {
      counters, series, histogram := map[], map[], map[];
    }
  }

  // ------------------------------------------------- histories of incr() --

  datatype Call = Call(metric: string, labels: seq<Item>, amount: int)

  function Replay(calls: seq<Call>): Counters {
    if calls == [] then Counters(map[], map[])
    else
      var last := calls[|calls| - 1];
      Add(Replay(calls[..|calls| - 1]), last.metric, RenderLabels(last.labels), last.amount)
  }

  /** What the calls added to a metric. */
  function Total(calls: seq<Call>, metric: string): int {
    if calls == [] then 0
    else
      var last := calls[|calls| - 1];
      Total(calls[..|calls| - 1], metric) + if last.metric == metric then last.amount else 0
  }

  function TotalOfText(calls: seq<Call>, metric: string, text: string): int {
    if calls == [] then 0
    else
      var last := calls[|calls| - 1];
      TotalOfText(calls[..|calls| - 1], metric, text) +
      if last.metric == metric && RenderLabels(last.labels) == text then last.amount else 0
  }

  /** What the calls whose labels say the same as `labels` added to a metric. */
  ghost function TotalSaying(calls: seq<Call>, metric: string, labels: seq<Item>): int {
    if calls == [] then 0
    else
      var last := calls[|calls| - 1];
      TotalSaying(calls[..|calls| - 1], metric, labels) +
      if last.metric == metric && SameLabels(last.labels, labels) then last.amount else 0
  }

  /** The label texts under which a metric is held. */
  ghost function Held(value: map<Key, int>, metric: string): set<string> {
    set k | k in value.Keys && k.0 == metric :: k.1
  }

  ghost function Sum(value: map<Key, int>, metric: string, texts: set<string>): int {
    if texts == {} then 0
    else
      var t :| t in texts;
      Value(value, (metric, t)) + Sum(value, metric, texts - {t})
  }

  lemma {:induction false} SumRemove(value: map<Key, int>, metric: string, texts: set<string>, t: string)
    requires t in texts
    ensures Sum(value, metric, texts) == Value(value, (metric, t)) + Sum(value, metric, texts - {t})
  {
    var first :| first in texts && Sum(value, metric, texts)
                 == Value(value, (metric, first)) + Sum(value, metric, texts - {first});
    if first != t {
      SumRemove(value, metric, texts - {first}, t);
      SumRemove(value, metric, texts - {t}, first);
      assert texts - {first} - {t} == texts - {t} - {first};
    }
  }

  lemma {:induction false} SumAgrees(a: map<Key, int>, b: map<Key, int>, metric: string, texts: set<string>)
    requires forall t :: t in texts ==> Value(a, (metric, t)) == Value(b, (metric, t))
    ensures Sum(a, metric, texts) == Sum(b, metric, texts)
  {
    if texts != {} {
      var t :| t in texts;
      SumRemove(a, metric, texts, t);
      SumRemove(b, metric, texts, t);
      SumAgrees(a, b, metric, texts - {t});
    }
  }

  lemma {:induction false} SumAfterAdd(c: Counters, key: Key, amount: int, metric: string)
    ensures var v := c.value[key := Value(c.value, key) + amount];
      Sum(v, metric, Held(v, metric))
      == Sum(c.value, metric, Held(c.value, metric)) + if key.0 == metric then amount else 0
  {
    var v := c.value[key := Value(c.value, key) + amount];
    if key.0 != metric {
      assert Held(v, metric) == Held(c.value, metric);
      SumAgrees(v, c.value, metric, Held(v, metric));
    } else {
      var before, after := Held(c.value, metric), Held(v, metric);
      HeldAfterAdd(c.value, key, Value(c.value, key) + amount);
      SumRemove(v, metric, after, key.1);
      if key in c.value { SumRemove(c.value, metric, before, key.1); }
      assert after - {key.1} == before - {key.1};
      SumAgrees(v, c.value, metric, after - {key.1});
      if key !in c.value { assert before - {key.1} == before; }
    }
  }

  lemma {:induction false} HeldAfterAdd(value: map<Key, int>, key: Key, n: int)
    ensures Held(value[key := n], key.0) == Held(value, key.0) + {key.1}
    ensures key.1 in Held(value, key.0) <==> key in value
    ensures forall m :: m != key.0 ==> Held(value[key := n], m) == Held(value, m)
  {
    var after := value[key := n];
    forall t ensures t in Held(after, key.0) <==> t in Held(value, key.0) + {key.1} {
      assert t in Held(after, key.0) <==> (key.0, t) in after;
      assert t in Held(value, key.0) <==> (key.0, t) in value;
    }
    assert key.1 in Held(value, key.0) <==> (key.0, key.1) in value;
    forall m | m != key.0 ensures Held(after, m) == Held(value, m) {
      forall t ensures t in Held(after, m) <==> t in Held(value, m) {
        assert t in Held(after, m) <==> (m, t) in after;
        assert t in Held(value, m) <==> (m, t) in value;
      }
    }
  }

  ghost predicate SeriesOk(c: Counters, metric: string) {
    && Count(c.series, metric) == |Held(c.value, metric)|
    && Count(c.series, metric) <= MAX_SERIES_PER_METRIC + 1
    && (Count(c.series, metric) > MAX_SERIES_PER_METRIC ==> (metric, OVERFLOW) in c.value)
  }

  lemma {:induction false} NewKeyIsCounted(c: Counters, key: Key, n: int)
    requires SeriesOk(c, key.0) && key !in c.value
    requires Count(c.series, key.0) < MAX_SERIES_PER_METRIC || key.1 == OVERFLOW
    ensures SeriesOk(Counters(c.value[key := n], c.series[key.0 := Count(c.series, key.0) + 1]), key.0)
  {
    var held := Held(c.value, key.0);
    HeldAfterAdd(c.value, key, n);
    assert |held + {key.1}| == |held| + 1;
  }

  lemma {:induction false} OldKeyIsCounted(c: Counters, key: Key, n: int)
    requires SeriesOk(c, key.0) && key in c.value
    ensures SeriesOk(Counters(c.value[key := n], c.series), key.0)
  {
    HeldAfterAdd(c.value, key, n);
    assert Held(c.value, key.0) + {key.1} == Held(c.value, key.0);
  }

  lemma {:induction false} OtherMetricIsCounted(c: Counters, key: Key, n: int, series: map<string, nat>, m: string)
    requires SeriesOk(c, m) && m != key.0 && Count(series, m) == Count(c.series, m)
    ensures SeriesOk(Counters(c.value[key := n], series), m)
  {
    HeldAfterAdd(c.value, key, n);
  }

  lemma {:induction false} AddKeepsSeries(c: Counters, metric: string, text: string, amount: int, m: string)
    requires SeriesOk(c, metric) && SeriesOk(c, m)
    ensures SeriesOk(Add(c, metric, text, amount), m)
  {
    var key := KeyFor(c, metric, text);
    var n := Value(c.value, key) + amount;
    if m != metric {
      OtherMetricIsCounted(c, key, n, Add(c, metric, text, amount).series, m);
    } else if key in c.value {
      OldKeyIsCounted(c, key, n);
    } else {
      NewKeyIsCounted(c, key, n);
    }
  }

  lemma {:induction false} OneCallConserves(c: Counters, call: Call, metric: string)
    requires SeriesOk(c, metric) && SeriesOk(c, call.metric)
    ensures var t := Add(c, call.metric, RenderLabels(call.labels), call.amount);
      && Sum(t.value, metric, Held(t.value, metric))
         == Sum(c.value, metric, Held(c.value, metric)) + (if call.metric == metric then call.amount else 0)
      && SeriesOk(t, metric)
  {
    var text := RenderLabels(call.labels);
    SumAfterAdd(c, KeyFor(c, call.metric, text), call.amount, metric);
    AddKeepsSeries(c, call.metric, text, call.amount, metric);
  }

  lemma {:induction false} NothingHeld(metric: string)
    ensures Held(map[], metric) == {} && SeriesOk(Counters(map[], map[]), metric)
  {
    assert Held(map[], metric) == {};
  }

  /** For every history of calls: a metric's counters sum to the total of all the
      increments, capped or not; the series gauge is the number of keys held;
      and never more than the cap plus the one overflow series exist. */
  lemma {:induction false} TotalsAreConserved(calls: seq<Call>, metric: string)
    ensures var c := Replay(calls);
      && Sum(c.value, metric, Held(c.value, metric)) == Total(calls, metric)
      && SeriesOk(c, metric)
  {
    if calls == [] {
      NothingHeld(metric);
    } else {
      var before, last := calls[..|calls| - 1], calls[|calls| - 1];
      TotalsAreConserved(before, metric);
      TotalsAreConserved(before, last.metric);
      OneCallConserves(Replay(before), last, metric);
    }
  }

  /** The distinct label texts a metric was called with. */
  ghost function Texts(calls: seq<Call>, metric: string): set<string> {
    set i | 0 <= i < |calls| && calls[i].metric == metric :: RenderLabels(calls[i].labels)
  }

  lemma {:induction false} TextsOfPrefix(calls: seq<Call>, metric: string)
    requires calls != []
    ensures var last := calls[|calls| - 1];
      Texts(calls, metric) == Texts(calls[..|calls| - 1], metric) +
      if last.metric == metric then {RenderLabels(last.labels)} else {}
  {
    var before := calls[..|calls| - 1];
    var last := calls[|calls| - 1];
    forall t | t in Texts(calls, metric)
      ensures t in Texts(before, metric) || (last.metric == metric && t == RenderLabels(last.labels))
    {
      var i :| 0 <= i < |calls| && calls[i].metric == metric && RenderLabels(calls[i].labels) == t;
      if i < |before| { assert before[i] == calls[i]; }
    }
    forall t | t in Texts(before, metric) ensures t in Texts(calls, metric) {
      var i :| 0 <= i < |before| && before[i].metric == metric && RenderLabels(before[i].labels) == t;
      assert calls[i] == before[i];
    }
  }

  /** A text that was ever counted has its own key or the metric was full. */
  lemma {:induction false} SeenIsHeldOrFull(calls: seq<Call>, metric: string, text: string)
    requires text != OVERFLOW && text in Texts(calls, metric)
    ensures var c := Replay(calls);
      (metric, text) in c.value || Count(c.series, metric) >= MAX_SERIES_PER_METRIC
  {
    TextsOfPrefix(calls, metric);
    if text in Texts(calls[..|calls| - 1], metric) { SeenIsHeldOrFull(calls[..|calls| - 1], metric, text); }
  }

  lemma {:induction false} UnseenIsZero(calls: seq<Call>, metric: string, text: string)
    requires text !in Texts(calls, metric)
    ensures TotalOfText(calls, metric, text) == 0
  {
    if calls != [] {
      TextsOfPrefix(calls, metric);
      UnseenIsZero(calls[..|calls| - 1], metric, text);
    }
  }

  /** A series that has its own key is exact, even once the cap is reached: only
      label sets that first appear past the cap are merged. */
  lemma {:induction false} HeldSeriesAreExact(calls: seq<Call>, metric: string, text: string)
    requires text != OVERFLOW
    ensures var c := Replay(calls);
      if (metric, text) in c.value then c.value[(metric, text)] == TotalOfText(calls, metric, text)
      else Count(c.series, metric) >= MAX_SERIES_PER_METRIC || text !in Texts(calls, metric)
  {
    if calls != [] {
      var before, last := calls[..|calls| - 1], calls[|calls| - 1];
      HeldSeriesAreExact(before, metric, text);
      TextsOfPrefix(calls, metric);
      if text in Texts(before, metric) {
        SeenIsHeldOrFull(before, metric, text);
      } else {
        UnseenIsZero(before, metric, text);
      }
    }
  }

  /** What was added by calls that share the overflow series: those that have no
      key of their own, and those that ask for it by its text. */
  ghost function TotalMerged(calls: seq<Call>, metric: string, held: set<string>): int {
    if calls == [] then 0
    else
      var last := calls[|calls| - 1];
      var text := RenderLabels(last.labels);
      TotalMerged(calls[..|calls| - 1], metric, held) +
      if last.metric == metric && (text == OVERFLOW || text !in held) then last.amount else 0
  }

  lemma {:induction false} MergedAlike(calls: seq<Call>, metric: string, held: set<string>, more: string)
    requires more == OVERFLOW || more !in Texts(calls, metric)
    ensures TotalMerged(calls, metric, held + {more}) == TotalMerged(calls, metric, held)
  {
    if calls != [] {
      TextsOfPrefix(calls, metric);
      MergedAlike(calls[..|calls| - 1], metric, held, more);
    }
  }

  /** And the overflow series holds exactly what all the others added, so that a
      label set is either exact or merged whole, never split. */
  lemma {:induction false} OverflowHoldsTheRest(calls: seq<Call>, metric: string)
    ensures var c := Replay(calls);
      Value(c.value, (metric, OVERFLOW)) == TotalMerged(calls, metric, Held(c.value, metric))
  {
    if calls != [] {
      var before, last := calls[..|calls| - 1], calls[|calls| - 1];
      var c, text := Replay(before), RenderLabels(last.labels);
      var key := KeyFor(c, last.metric, text);
      OverflowHoldsTheRest(before, metric);
      HeldAfterAdd(c.value, key, Value(c.value, key) + last.amount);
      AddValue(c, last.metric, text, last.amount, (metric, OVERFLOW));
      if last.metric == metric {
        OneMoreMerged(before, metric, text);
        assert Held(Replay(calls).value, metric) == Held(c.value, metric) + {key.1};
      } else {
        assert Held(Replay(calls).value, metric) == Held(c.value, metric);
      }
    }
  }

  lemma {:induction false} OneMoreMerged(before: seq<Call>, metric: string, text: string)
    ensures var c := Replay(before);
      var held, key := Held(c.value, metric), KeyFor(c, metric, text);
      && TotalMerged(before, metric, held + {key.1}) == TotalMerged(before, metric, held)
      && (key.1 == OVERFLOW <==> text == OVERFLOW || text !in held + {key.1})
  {
    var c := Replay(before);
    var held, key := Held(c.value, metric), KeyFor(c, metric, text);
    HeldAfterAdd(c.value, (metric, text), 0);
    if key.1 == OVERFLOW || text !in Texts(before, metric) {
      MergedAlike(before, metric, held, key.1);
    } else {
      SeenIsHeldOrFull(before, metric, text);
      assert held + {key.1} == held;
    }
  }

  /** Below the cap a call is always counted under its own text. */
  lemma {:induction false} KeyBelowTheCap(c: Counters, metric: string, text: string)
    requires SeriesOk(c, metric) && |Held(c.value, metric) + {text}| <= MAX_SERIES_PER_METRIC
    ensures KeyFor(c, metric, text) == (metric, text)
  {
    HeldAfterAdd(c.value, (metric, text), 0);
    if text !in Held(c.value, metric) {
      assert |Held(c.value, metric) + {text}| == |Held(c.value, metric)| + 1;
    }
  }

  lemma {:induction false} BelowTheCap(calls: seq<Call>, metric: string)
    requires |Texts(calls, metric)| <= MAX_SERIES_PER_METRIC
    ensures Held(Replay(calls).value, metric) == Texts(calls, metric)
  {
    if calls == [] {
      assert Held(map[], metric) == {};
    } else {
      var before, last := calls[..|calls| - 1], calls[|calls| - 1];
      var c, text := Replay(before), RenderLabels(last.labels);
      TextsOfPrefix(calls, metric);
      Smaller(Texts(before, metric), Texts(calls, metric));
      BelowTheCap(before, metric);
      if last.metric == metric {
        TotalsAreConserved(before, metric);
        KeyBelowTheCap(c, metric, text);
      }
      var key := KeyFor(c, last.metric, text);
      HeldAfterAdd(c.value, key, Value(c.value, key) + last.amount);
    }
  }

  lemma {:induction false} LastKeyBelowTheCap(calls: seq<Call>, metric: string)
    requires |Texts(calls, metric)| <= MAX_SERIES_PER_METRIC
    requires calls != [] && calls[|calls| - 1].metric == metric
    ensures var text := RenderLabels(calls[|calls| - 1].labels);
      KeyFor(Replay(calls[..|calls| - 1]), metric, text) == (metric, text)
  {
    var before := calls[..|calls| - 1];
    TextsOfPrefix(calls, metric);
    Smaller(Texts(before, metric), Texts(calls, metric));
    BelowTheCap(before, metric);
    TotalsAreConserved(before, metric);
    KeyBelowTheCap(Replay(before), metric, RenderLabels(calls[|calls| - 1].labels));
  }

  lemma {:induction false} AddValue(c: Counters, metric: string, text: string, amount: int, key: Key)
    ensures Value(Add(c, metric, text, amount).value, key) ==
            Value(c.value, key) + if key == KeyFor(c, metric, text) then amount else 0
  {
  }

  lemma {:induction false} ValuesBelowTheCap(calls: seq<Call>, metric: string, text: string)
    requires |Texts(calls, metric)| <= MAX_SERIES_PER_METRIC
    ensures Value(Replay(calls).value, (metric, text)) == TotalOfText(calls, metric, text)
  {
    if calls != [] {
      var before, last := calls[..|calls| - 1], calls[|calls| - 1];
      TextsOfPrefix(calls, metric);
      Smaller(Texts(before, metric), Texts(calls, metric));
      ValuesBelowTheCap(before, metric, text);
      AddValue(Replay(before), last.metric, RenderLabels(last.labels), last.amount, (metric, text));
      if last.metric == metric { LastKeyBelowTheCap(calls, metric); }
    }
  }

  lemma {:induction false} Smaller<T>(a: set<T>, b: set<T>)
    requires a <= b
    ensures |a| <= |b|
  {
    if a != {} {
      var x :| x in a;
      Smaller(a - {x}, b - {x});
    }
  }

  lemma {:induction false} TextsSpeakForLabels(calls: seq<Call>, metric: string, labels: seq<Item>)
    requires Named(labels) && forall i :: 0 <= i < |calls| ==> Named(calls[i].labels)
    ensures TotalOfText(calls, metric, RenderLabels(labels)) == TotalSaying(calls, metric, labels)
  {
    if calls != [] {
      TextsSpeakForLabels(calls[..|calls| - 1], metric, labels);
      SameTextIffSameLabels(calls[|calls| - 1].labels, labels);
    }
  }

  /** While a metric has at most 256 label sets, each has its own counter, and the
      counter is exactly what was added under those very labels. */
  lemma {:induction false} EachLabelSetIsCountedApart(calls: seq<Call>, metric: string, i: nat)
    requires forall k :: 0 <= k < |calls| ==> Named(calls[k].labels)
    requires |Texts(calls, metric)| <= MAX_SERIES_PER_METRIC && i < |calls| && calls[i].metric == metric
    ensures var key := (metric, RenderLabels(calls[i].labels));
      && key in Replay(calls).value
      && Replay(calls).value[key] == TotalSaying(calls, metric, calls[i].labels)
  {
    var text := RenderLabels(calls[i].labels);
    BelowTheCap(calls, metric);
    ValuesBelowTheCap(calls, metric, text);
    assert text in Texts(calls, metric);
    assert text in Held(Replay(calls).value, metric);
    TextsSpeakForLabels(calls, metric, calls[i].labels);
  }

  // ------------------------------------------------------------ observe() --

  function PushAll(values: seq<real>): seq<real> {
    if values == [] then [] else Push(PushAll(values[..|values| - 1]), values[|values| - 1])
  }

  /** The ring holds exactly the last 5000 observations, in order. */
  lemma {:induction false} RingHoldsTheLast(values: seq<real>)
    ensures PushAll(values) ==
            if |values| > MAX_OBSERVATIONS then values[|values| - MAX_OBSERVATIONS..] else values
  {
    if values != [] {
      var before := values[..|values| - 1];
      RingHoldsTheLast(before);
      assert values == before + [values[|values| - 1]];
    }
  }

  function InsertReal(x: real, s: seq<real>): (t: seq<real>)
    ensures |t| == |s| + 1
  {
    if s == [] || x <= s[0] then [x] + s else [s[0]] + InsertReal(x, s[1..])
  }

  function SortReals(s: seq<real>): (t: seq<real>)
    ensures |t| == |s|
  {
    if s == [] then [] else InsertReal(s[0], SortReals(s[1..]))
  }

  function CountAtMost(s: seq<real>, v: real): nat {
    if s == [] then 0 else (if s[0] <= v then 1 else 0) + CountAtMost(s[1..], v)
  }

  ghost predicate Ascending(s: seq<real>) {
    forall i, k :: 0 <= i <= k < |s| ==> s[i] <= s[k]
  }

  lemma {:induction false} InsertRealKeeps(x: real, s: seq<real>, v: real)
    requires Ascending(s)
    ensures var t := InsertReal(x, s);
      && Ascending(t)
      && |t| == |s| + 1
      && (forall y :: y in t <==> y == x || y in s)
      && CountAtMost(t, v) == CountAtMost(s, v) + if x <= v then 1 else 0
  {
    if s == [] || x <= s[0] {
      assert ([x] + s)[1..] == s;
    } else {
      InsertRealKeeps(x, s[1..], v);
      var rest := InsertReal(x, s[1..]);
      forall k | 0 <= k < |rest| ensures s[0] <= rest[k] {
        assert rest[k] in rest;
      }
      assert s == [s[0]] + s[1..];
      assert ([s[0]] + rest)[1..] == rest;
    }
  }

  lemma {:induction false} SortRealsSorts(s: seq<real>, v: real)
    ensures var t := SortReals(s);
      && Ascending(t)
      && |t| == |s|
      && (forall y :: y in t <==> y in s)
      && CountAtMost(t, v) == CountAtMost(s, v)
  {
    if s != [] {
      SortRealsSorts(s[1..], v);
      InsertRealKeeps(s[0], SortReals(s[1..]), v);
      assert s == [s[0]] + s[1..];
    }
  }

  lemma {:induction false} PrefixIsAtMost(s: seq<real>, k: nat)
    requires Ascending(s) && k < |s|
    ensures CountAtMost(s, s[k]) >= k + 1
  {
    if k > 0 {
      assert s[1..][k - 1] == s[k];
      PrefixIsAtMost(s[1..], k - 1);
    }
  }

  /** int(len(ordered) * share), and the median's len(ordered) // 2. */
  function QuantileIndex(n: nat, percent: nat): (k: nat)
    requires n > 0 && percent < 100
    ensures k < n
  {
    assert n * percent <= n * 99;
    n * percent / 100
  }

  function Quantile(values: seq<real>, percent: nat): real
    requires values != [] && percent < 100
  {
    SortReals(values)[QuantileIndex(|values|, percent)]
  }

  lemma {:induction false} QuantileIndexInRange(n: nat, low: nat, high: nat)
    requires n > 0 && low <= high < 100
    ensures QuantileIndex(n, low) <= QuantileIndex(n, high) < n
    ensures QuantileIndex(n, 50) == n / 2
  {
    assert n * low <= n * high <= n * 99;
  }

  /** A reported quantile is one of the observations held, more than that share
      of them lie at or below it, and a higher share never reports a lower value. */
  lemma {:induction false} QuantilesMeanWhatTheySay(values: seq<real>, low: nat, high: nat)
    requires values != [] && low <= high < 100
    ensures Quantile(values, low) in values
    ensures 100 * CountAtMost(values, Quantile(values, low)) > low * |values|
    ensures Quantile(values, low) <= Quantile(values, high)
  {
    QuantileIndexInRange(|values|, low, high);
    var k := QuantileIndex(|values|, low);
    SortRealsSorts(values, Quantile(values, low));
    PrefixIsAtMost(SortReals(values), k);
    assert SortReals(values)[k] in SortReals(values);
  }

  function CountBelow(s: seq<real>, v: real): nat {
    if s == [] then 0 else (if s[0] < v then 1 else 0) + CountBelow(s[1..], v)
  }

  lemma {:induction false} InsertKeepsBelow(x: real, s: seq<real>, v: real)
    ensures CountBelow(InsertReal(x, s), v) == CountBelow(s, v) + if x < v then 1 else 0
  {
    if s == [] || x <= s[0] {
      assert ([x] + s)[1..] == s;
    } else {
      InsertKeepsBelow(x, s[1..], v);
      assert ([s[0]] + InsertReal(x, s[1..]))[1..] == InsertReal(x, s[1..]);
    }
  }

  lemma {:induction false} SortKeepsBelow(s: seq<real>, v: real)
    ensures CountBelow(SortReals(s), v) == CountBelow(s, v)
  {
    if s != [] {
      SortKeepsBelow(s[1..], v);
      InsertKeepsBelow(s[0], SortReals(s[1..]), v);
    }
  }

  lemma {:induction false} FewerAreBelow(s: seq<real>, k: nat)
    requires Ascending(s) && k < |s|
    ensures CountBelow(s, s[k]) <= k
  {
    if k > 0 {
      assert s[1..][k - 1] == s[k];
      FewerAreBelow(s[1..], k - 1);
    } else {
      NoneAreBelow(s, s[0]);
    }
  }

  lemma {:induction false} NoneAreBelow(s: seq<real>, v: real)
    requires forall i :: 0 <= i < |s| ==> v <= s[i]
    ensures CountBelow(s, v) == 0
  {
    if s != [] { NoneAreBelow(s[1..], v); }
  }

  /** Nor is it any higher than that: at most that share of the observations lie
      below it. */
  lemma {:induction false} QuantilesAreTight(values: seq<real>, percent: nat)
    requires values != [] && percent < 100
    ensures 100 * CountBelow(values, Quantile(values, percent)) <= percent * |values|
  {
    var k := QuantileIndex(|values|, percent);
    SortRealsSorts(values, 0.0);
    FewerAreBelow(SortReals(values), k);
    SortKeepsBelow(values, Quantile(values, percent));
  }
}
