/** The text a scrape of the registry answers with, line by line. */
module MetricsExposition {
  import opened MetricLabels
  import opened MetricsRegistry
  import opened Wrappers

  const BUILD_INFO: string := "veyrs_build_info"
  const HELD_SERIES: string := "veyrs_metrics_series"

  datatype Line =
    | Help(name: string)
    | Kind(name: string, kind: string)
    | Sample(name: string, labels: string, value: int)
    | Measure(name: string, labels: string, amount: real)

  predicate KeyLess(a: Key, b: Key) {
    Less(a.0, b.0) || (a.0 == b.0 && Less(a.1, b.1))
  }

  /** What sorted() makes of the counters: every entry once, by metric and then labels. */
  ghost predicate Listing(ordered: seq<(Key, int)>, counters: map<Key, int>) {
    && (forall i, k :: 0 <= i < k < |ordered| ==> KeyLess(ordered[i].0, ordered[k].0))
    && (forall i :: 0 <= i < |ordered| ==> ordered[i].0 in counters && counters[ordered[i].0] == ordered[i].1)
    && (forall key :: key in counters ==> (key, counters[key]) in ordered)
  }

  ghost predicate ByName<T>(entries: seq<(string, T)>) {
    forall i, k :: 0 <= i < k < |entries| ==> Less(entries[i].0, entries[k].0)
  }

  function Head(build: string): seq<Line> {
    [Help(BUILD_INFO), Kind(BUILD_INFO, "gauge"), Sample(BUILD_INFO, build, 1),
     Help(HELD_SERIES), Kind(HELD_SERIES, "gauge")]
  }

  function GaugeLines(series: seq<(string, nat)>): seq<Line> {
    if series == [] then []
    else
      var last := series[|series| - 1];
      GaugeLines(series[..|series| - 1]) +
      [Sample(HELD_SERIES, RenderLabels([("metric", Some(last.0))]), last.1)]
  }

  /** A metric's TYPE line goes where its name first differs from the one before. */
  function LastLines(ordered: seq<(Key, int)>): seq<Line>
    requires ordered != []
  {
    var n := |ordered| - 1;
    var (key, value) := ordered[n];
    if n > 0 && ordered[n - 1].0.0 == key.0 then [Sample(key.0, key.1, value)]
    else [Kind(key.0, "counter"), Sample(key.0, key.1, value)]
  }

  function CounterLines(ordered: seq<(Key, int)>): seq<Line> {
    if ordered == [] then [] else CounterLines(ordered[..|ordered| - 1]) + LastLines(ordered)
  }

  function SumOf(values: seq<real>): real {
    if values == [] then 0.0 else SumOf(values[..|values| - 1]) + values[|values| - 1]
  }

  function SummaryOf(name: string, values: seq<real>): seq<Line>
    requires values != []
  {
    [Kind(name, "summary"),
     Sample(name + "_count", "", |values|),
     Measure(name + "_sum", "", SumOf(SortReals(values))),
     Measure(name, "quantile=\"0.5\"", Quantile(values, 50)),
     Measure(name, "quantile=\"0.95\"", Quantile(values, 95)),
     Measure(name, "quantile=\"0.99\"", Quantile(values, 99))]
  }

  function SummaryLines(histogram: seq<(string, seq<real>)>): seq<Line> {
    if histogram == [] then []
    else
      var (name, values) := histogram[|histogram| - 1];
      SummaryLines(histogram[..|histogram| - 1]) + if values == [] then [] else SummaryOf(name, values)
  }

  /** The names that have been given a TYPE after n counters. */
  ghost predicate Emitted(emitted: set<string>, ordered: seq<(Key, int)>, n: nat)
    requires n <= |ordered|
  {
    forall name :: name in emitted <==> SeenBefore(ordered, n, name)
  }

  lemma {:induction false} EmitsOnChange(emitted: set<string>, ordered: seq<(Key, int)>, counters: map<Key, int>,
                                         n: nat)
    requires Listing(ordered, counters) && n < |ordered| && Emitted(emitted, ordered, n)
    ensures var (metric, labels) := ordered[n].0;
      && LastLines(ordered[..n + 1]) == (if metric in emitted then [] else [Kind(metric, "counter")])
                                        + [Sample(metric, labels, ordered[n].1)]
      && Emitted(emitted + {metric}, ordered, n + 1)
      && CounterLines(ordered[..n + 1]) == CounterLines(ordered[..n]) + LastLines(ordered[..n + 1])
  {
    SeenIffJustSeen(ordered, counters, n);
    SeenNext(ordered, n);
    assert ordered[..n + 1][..n] == ordered[..n];
  }

  /** One counter's lines: its TYPE first, if its name has not had one. */
  method EmitCounter(emitted: set<string>, key: Key, value: int) returns (lines: seq<Line>, now: set<string>)
    ensures lines == (if key.0 in emitted then [] else [Kind(key.0, "counter")]) + [Sample(key.0, key.1, value)]
    ensures now == emitted + {key.0}
  {
    lines, now := [], emitted;
    if key.0 !in emitted {
      lines := lines + [Kind(key.0, "counter")];
      now := emitted + {key.0};
    }
    lines := lines + [Sample(key.0, key.1, value)];
  }

  method CounterSection(ghost counters: map<Key, int>, ordered: seq<(Key, int)>) returns (lines: seq<Line>)
    requires Listing(ordered, counters)
    ensures lines == CounterLines(ordered)
  {
    lines := [];
    var emitted: set<string> := {};
    for i := 0 to |ordered|
      invariant lines == CounterLines(ordered[..i])
      invariant Emitted(emitted, ordered, i)
    {
      EmitsOnChange(emitted, ordered, counters, i);
      var more;
      more, emitted := EmitCounter(emitted, ordered[i].0, ordered[i].1);
      lines := lines + more;
    }
    assert ordered[..|ordered|] == ordered;
  }

  method SummarySection(histogram: seq<(string, seq<real>)>) returns (lines: seq<Line>)
    ensures lines == SummaryLines(histogram)
  {
    lines := [];
    for i := 0 to |histogram|
      invariant lines == SummaryLines(histogram[..i])
    {
      assert histogram[..i + 1][..i] == histogram[..i];
      var (name, values) := histogram[i];
      if values != [] {
        lines := lines + SummaryOf(name, values);
      }
    }
    assert histogram[..|histogram|] == histogram;
  }

  method Response(build: string, series: seq<(string, nat)>, ghost counters: map<Key, int>,
                  ordered: seq<(Key, int)>, histogram: seq<(string, seq<real>)>)
    returns (lines: seq<Line>)
    requires Listing(ordered, counters)
    ensures lines == Head(build) + GaugeLines(series) + CounterLines(ordered) + SummaryLines(histogram)
  {
    lines := Head(build);
    for i := 0 to |series|
      invariant lines == Head(build) + GaugeLines(series[..i])
    {
      assert series[..i + 1][..i] == series[..i];
      lines := lines + [Sample(HELD_SERIES, RenderLabels([("metric", Some(series[i].0))]), series[i].1)];
    }
    assert series[..|series|] == series;
    var counted := CounterSection(counters, ordered);
    var summed := SummarySection(histogram);
    lines := lines + counted + summed;
  }

  ghost predicate SeenBefore(ordered: seq<(Key, int)>, n: nat, name: string)
    requires n <= |ordered|
  {
    exists k :: 0 <= k < n && ordered[k].0.0 == name
  }

  lemma {:induction false} SeenNext(ordered: seq<(Key, int)>, n: nat)
    requires n < |ordered|
    ensures forall name :: SeenBefore(ordered, n + 1, name) <==> SeenBefore(ordered, n, name) || name == ordered[n].0.0
  {
    forall name | SeenBefore(ordered, n, name) || name == ordered[n].0.0 ensures SeenBefore(ordered, n + 1, name) {
      var k :| 0 <= k < n + 1 && ordered[k].0.0 == name;
    }
  }

  /** In sorted order a name seen before is the name seen just before. */
  lemma {:induction false} SeenIffJustSeen(ordered: seq<(Key, int)>, counters: map<Key, int>, n: nat)
    requires Listing(ordered, counters) && n < |ordered|
    ensures SeenBefore(ordered, n, ordered[n].0.0)
            <==> n > 0 && ordered[n - 1].0.0 == ordered[n].0.0
  {
    if k :| 0 <= k < n - 1 && ordered[k].0.0 == ordered[n].0.0 {
      if ordered[n - 1].0.0 != ordered[n].0.0 {
        assert KeyLess(ordered[k].0, ordered[n - 1].0) && KeyLess(ordered[n - 1].0, ordered[n].0);
        LessIsStrict(ordered[n - 1].0.0, ordered[n].0.0);
      }
    }
  }

  // ---------------------------------------------- what the lines amount to --

  /** The names given a TYPE, in order. */
  function TypedNames(lines: seq<Line>): seq<string> {
    if lines == [] then []
    else
      var last := lines[|lines| - 1];
      TypedNames(lines[..|lines| - 1]) + if last.Kind? then [last.name] else []
  }

  lemma {:induction false} TypedNamesDistribute(a: seq<Line>, b: seq<Line>)
    ensures TypedNames(a + b) == TypedNames(a) + TypedNames(b)
  {
    if b == [] {
      assert a + b == a;
    } else {
      TypedNamesDistribute(a, b[..|b| - 1]);
      assert (a + b)[..|a + b| - 1] == a + b[..|b| - 1];
    }
  }

  ghost predicate NoDuplicates<T>(s: seq<T>) {
    forall i, k :: 0 <= i < k < |s| ==> s[i] != s[k]
  }

  ghost predicate AscendingNames(names: seq<string>) {
    forall i, k :: 0 <= i < k < |names| ==> Less(names[i], names[k])
  }

  ghost predicate IsCounter(ordered: seq<(Key, int)>, name: string) {
    exists i :: 0 <= i < |ordered| && ordered[i].0.0 == name
  }

  ghost predicate IsSummary(histogram: seq<(string, seq<real>)>, name: string) {
    exists i :: 0 <= i < |histogram| && histogram[i].0 == name && histogram[i].1 != []
  }

  lemma {:induction false} AscendingHasNoDuplicates(names: seq<string>)
    requires AscendingNames(names)
    ensures NoDuplicates(names)
  {
    forall i, k | 0 <= i < k < |names| ensures names[i] != names[k] {
      LessIsStrict(names[i], names[k]);
    }
  }

  ghost predicate Sorted(ordered: seq<(Key, int)>) {
    forall i, k :: 0 <= i < k < |ordered| ==> KeyLess(ordered[i].0, ordered[k].0)
  }

  lemma {:induction false} TypesOfOneMore(ordered: seq<(Key, int)>)
    requires ordered != []
    ensures var n := |ordered| - 1;
      TypedNames(CounterLines(ordered)) == TypedNames(CounterLines(ordered[..n])) +
        if n > 0 && ordered[n - 1].0.0 == ordered[n].0.0 then [] else [ordered[n].0.0]
  {
    var n := |ordered| - 1;
    TypedOfLast(ordered);
    TypedNamesDistribute(CounterLines(ordered[..n]), LastLines(ordered));
  }

  /** Counters are typed in strictly ascending order of name, each once. */
  lemma {:induction false} CounterTypes(ordered: seq<(Key, int)>)
    requires Sorted(ordered)
    ensures var names := TypedNames(CounterLines(ordered));
      && AscendingNames(names)
      && (forall name :: name in names <==> IsCounter(ordered, name))
  {
    if ordered != [] {
      var n := |ordered| - 1;
      var before, name := ordered[..n], ordered[n].0.0;
      CounterTypes(before);
      TypesOfOneMore(ordered);
      IsCounterOfPrefix(ordered);
      var names := TypedNames(CounterLines(before));
      if n > 0 && ordered[n - 1].0.0 == name {
        assert IsCounter(before, name) by { assert before[n - 1].0.0 == name; }
      } else {
        forall k | 0 <= k < |names| ensures Less(names[k], name) {
          assert names[k] in names;
          var i :| 0 <= i < n && before[i].0.0 == names[k];
          NamesNeverReturn(ordered, i);
        }
      }
    }
  }

  lemma {:induction false} TypedOfLast(ordered: seq<(Key, int)>)
    requires ordered != []
    ensures var n := |ordered| - 1;
      TypedNames(LastLines(ordered)) ==
        if n > 0 && ordered[n - 1].0.0 == ordered[n].0.0 then [] else [ordered[n].0.0]
  {
    var lines := LastLines(ordered);
    assert TypedNames(lines[..0]) == [];
    if |lines| == 2 {
      assert lines[..1][..0] == lines[..0];
      assert TypedNames(lines[..1]) == [lines[0].name];
    }
  }

  lemma {:induction false} IsCounterOfPrefix(ordered: seq<(Key, int)>)
    requires ordered != []
    ensures forall name :: IsCounter(ordered, name) <==>
      IsCounter(ordered[..|ordered| - 1], name) || name == ordered[|ordered| - 1].0.0
  {
    var n := |ordered| - 1;
    forall name ensures IsCounter(ordered, name) <==> IsCounter(ordered[..n], name) || name == ordered[n].0.0 {
      if IsCounter(ordered, name) {
        var i :| 0 <= i < |ordered| && ordered[i].0.0 == name;
        if i < n { assert ordered[..n][i].0.0 == name; }
      }
      if IsCounter(ordered[..n], name) {
        var i :| 0 <= i < n && ordered[..n][i].0.0 == name;
        assert ordered[i].0.0 == name;
      }
    }
  }

  /** A metric named after a different one is strictly later than all before it. */
  lemma {:induction false} NamesNeverReturn(ordered: seq<(Key, int)>, i: nat)
    requires Sorted(ordered) && i < |ordered| - 1
    requires ordered[|ordered| - 2].0.0 != ordered[|ordered| - 1].0.0
    ensures Less(ordered[i].0.0, ordered[|ordered| - 1].0.0)
  {
    var n := |ordered| - 1;
    assert KeyLess(ordered[n - 1].0, ordered[n].0);
    if i < n - 1 {
      assert KeyLess(ordered[i].0, ordered[n - 1].0);
      if ordered[i].0.0 != ordered[n - 1].0.0 {
        LessIsTransitive(ordered[i].0.0, ordered[n - 1].0.0, ordered[n].0.0);
      }
    }
  }

  lemma {:induction false} SummaryTypes(histogram: seq<(string, seq<real>)>)
    requires ByName(histogram)
    ensures var names := TypedNames(SummaryLines(histogram));
      && AscendingNames(names)
      && (forall name :: name in names <==> IsSummary(histogram, name))
  {
    if histogram != [] {
      var n := |histogram| - 1;
      var before, name, values := histogram[..n], histogram[n].0, histogram[n].1;
      SummaryTypes(before);
      IsSummaryOfPrefix(histogram);
      SummaryTypesOfOneMore(histogram);
      var names := TypedNames(SummaryLines(before));
      if values != [] {
        forall k | 0 <= k < |names| ensures Less(names[k], name) {
          assert names[k] in names;
          var i :| 0 <= i < n && before[i].0 == names[k] && before[i].1 != [];
        }
      }
    }
  }

  lemma {:induction false} SummaryTypesOfOneMore(histogram: seq<(string, seq<real>)>)
    requires histogram != []
    ensures var n := |histogram| - 1;
      TypedNames(SummaryLines(histogram)) == TypedNames(SummaryLines(histogram[..n])) +
        if histogram[n].1 == [] then [] else [histogram[n].0]
  {
    var n := |histogram| - 1;
    var name, values := histogram[n].0, histogram[n].1;
    if values != [] {
      TypedNamesDistribute(SummaryLines(histogram[..n]), SummaryOf(name, values));
      TypedOfSummary(name, values);
    } else {
      assert SummaryLines(histogram) == SummaryLines(histogram[..n]);
    }
  }

  lemma {:induction false} TypedOfSummary(name: string, values: seq<real>)
    requires values != []
    ensures TypedNames(SummaryOf(name, values)) == [name]
  {
    var s := SummaryOf(name, values);
    assert s[..5][..4] == s[..4] && s[..4][..3] == s[..3] && s[..3][..2] == s[..2] && s[..2][..1] == s[..1];
    assert TypedNames(s[..1]) == [name] by { assert s[..1][..0] == []; }
    assert TypedNames(s[..2]) == [name];
    assert TypedNames(s[..3]) == [name];
    assert TypedNames(s[..4]) == [name];
    assert TypedNames(s[..5]) == [name];
  }

  lemma {:induction false} IsSummaryOfPrefix(histogram: seq<(string, seq<real>)>)
    requires histogram != []
    ensures var n := |histogram| - 1;
      forall name :: IsSummary(histogram, name) <==>
        IsSummary(histogram[..n], name) || (name == histogram[n].0 && histogram[n].1 != [])
  {
    var n := |histogram| - 1;
    forall name
      ensures IsSummary(histogram, name) <==>
              IsSummary(histogram[..n], name) || (name == histogram[n].0 && histogram[n].1 != [])
    {
      if IsSummary(histogram, name) {
        var i :| 0 <= i < |histogram| && histogram[i].0 == name && histogram[i].1 != [];
        if i < n { assert histogram[..n][i].0 == name; }
      }
      if IsSummary(histogram[..n], name) {
        var i :| 0 <= i < n && histogram[..n][i].0 == name && histogram[..n][i].1 != [];
        assert histogram[i].0 == name;
      }
    }
  }

  lemma {:induction false} GaugesAreUntyped(series: seq<(string, nat)>)
    ensures TypedNames(GaugeLines(series)) == []
  {
    if series != [] { GaugesAreUntyped(series[..|series| - 1]); }
  }

  lemma {:induction false} HeadTypes(build: string)
    ensures TypedNames(Head(build)) == [BUILD_INFO, HELD_SERIES]
  {
    var s := Head(build);
    assert s[..4][..3] == s[..3] && s[..3][..2] == s[..2] && s[..2][..1] == s[..1];
    assert TypedNames(s[..1]) == [] by { assert s[..1][..0] == []; }
    assert TypedNames(s[..2]) == [BUILD_INFO];
    assert TypedNames(s[..3]) == [BUILD_INFO];
    assert TypedNames(s[..4]) == [BUILD_INFO];
  }

  lemma {:induction false} NoDuplicatesInParts<T>(a: seq<T>, b: seq<T>)
    ensures NoDuplicates(a + b) <==> NoDuplicates(a) && NoDuplicates(b) && forall x :: !(x in a && x in b)
  {
    var s := a + b;
    assert forall i :: 0 <= i < |a| ==> s[i] == a[i];
    assert forall k :: 0 <= k < |b| ==> s[|a| + k] == b[k];
    if NoDuplicates(a) && NoDuplicates(b) && forall x :: !(x in a && x in b) {
      forall i, k | 0 <= i < k < |s| ensures s[i] != s[k] {
        if i < |a| <= k { assert s[i] in a && s[k] == b[k - |a|]; }
      }
    }
  }

  /** Every name is given one TYPE and no more, exactly when no name is used for
      two kinds of metric. */
  lemma {:induction false} OneTypePerName(build: string, series: seq<(string, nat)>, counters: map<Key, int>,
                       ordered: seq<(Key, int)>, histogram: seq<(string, seq<real>)>)
    requires Listing(ordered, counters) && ByName(histogram)
    ensures var lines := Head(build) + GaugeLines(series) + CounterLines(ordered) + SummaryLines(histogram);
      NoDuplicates(TypedNames(lines)) <==>
        && !IsCounter(ordered, BUILD_INFO) && !IsCounter(ordered, HELD_SERIES)
        && !IsSummary(histogram, BUILD_INFO) && !IsSummary(histogram, HELD_SERIES)
        && forall name :: !(IsCounter(ordered, name) && IsSummary(histogram, name))
  {
    var fixed := [BUILD_INFO, HELD_SERIES];
    var c, s := TypedNames(CounterLines(ordered)), TypedNames(SummaryLines(histogram));
    AllTypes(build, series, ordered, histogram);
    CounterTypes(ordered);
    SummaryTypes(histogram);
    AscendingHasNoDuplicates(c);
    AscendingHasNoDuplicates(s);
    NoDuplicatesInParts(fixed, c);
    NoDuplicatesInParts(fixed + c, s);
    assert NoDuplicates(fixed);
    assert BUILD_INFO in fixed && HELD_SERIES in fixed;
    forall x ensures x in fixed + c <==> x in fixed || x in c { }
  }

  /** One call of incr() and one of observe() under the same name are enough for
      two TYPE lines. */
  lemma {:induction false} ANameUsedTwice(build: string, series: seq<(string, nat)>, call: Call, value: real)
    ensures var counters := Replay([call]).value;
      var ordered := [((call.metric, RenderLabels(call.labels)), call.amount)];
      var histogram := [(call.metric, Push([], value))];
      var lines := Head(build) + GaugeLines(series) + CounterLines(ordered) + SummaryLines(histogram);
      Listing(ordered, counters) && ByName(histogram) && !NoDuplicates(TypedNames(lines))
  {
    var key := (call.metric, RenderLabels(call.labels));
    var ordered := [(key, call.amount)];
    var histogram := [(call.metric, Push([], value))];
    assert [call][..0] == [];
    assert Replay([call]).value == map[key := call.amount];
    assert ordered[0].0.0 == call.metric && IsCounter(ordered, call.metric);
    assert histogram[0].0 == call.metric && IsSummary(histogram, call.metric);
    OneTypePerName(build, series, Replay([call]).value, ordered, histogram);
  }

  lemma {:induction false} AllTypes(build: string, series: seq<(string, nat)>,
                 ordered: seq<(Key, int)>, histogram: seq<(string, seq<real>)>)
    ensures var lines := Head(build) + GaugeLines(series) + CounterLines(ordered) + SummaryLines(histogram);
      TypedNames(lines) == [BUILD_INFO, HELD_SERIES] + TypedNames(CounterLines(ordered))
                           + TypedNames(SummaryLines(histogram))
  {
    HeadTypes(build);
    GaugesAreUntyped(series);
    TypedNamesDistribute(Head(build), GaugeLines(series));
    TypedNamesDistribute(Head(build) + GaugeLines(series), CounterLines(ordered));
    TypedNamesDistribute(Head(build) + GaugeLines(series) + CounterLines(ordered), SummaryLines(histogram));
  }

  /** Between a counter's sample and its TYPE line there is nothing but samples
      of the same counter. */
  ghost predicate Grouped(lines: seq<Line>, i: nat, k: nat)
    requires i < |lines|
  {
    && k < i
    && lines[k] == Kind(lines[i].name, "counter")
    && forall j :: k < j <= i ==> lines[j].Sample? && lines[j].name == lines[i].name
  }

  lemma {:induction false} SamplesAreGrouped(ordered: seq<(Key, int)>, i: nat)
    requires i < |CounterLines(ordered)| && CounterLines(ordered)[i].Sample?
    ensures exists k: nat :: Grouped(CounterLines(ordered), i, k)
  {
    if ordered != [] {
      var n := |ordered| - 1;
      var before, lines := CounterLines(ordered[..n]), CounterLines(ordered);
      var key := ordered[n].0;
      if i < |before| {
        SamplesAreGrouped(ordered[..n], i);
        var k: nat :| Grouped(before, i, k);
        assert Grouped(lines, i, k);
      } else if n > 0 && ordered[n - 1].0.0 == key.0 {
        LastIsItsSample(ordered[..n]);
        SamplesAreGrouped(ordered[..n], |before| - 1);
        var k: nat :| Grouped(before, |before| - 1, k);
        assert Grouped(lines, i, k);
      } else {
        assert Grouped(lines, i, |before|);
      }
    }
  }

  lemma {:induction false} LastIsItsSample(ordered: seq<(Key, int)>)
    requires ordered != []
    ensures var lines := CounterLines(ordered);
      lines != [] && lines[|lines| - 1].Sample? && lines[|lines| - 1].name == ordered[|ordered| - 1].0.0
  {
  }

  // ---------------------------------------------------- what a scrape says --

  ghost predicate OfCounter(entry: (Key, int), line: Line) {
    line == Sample(entry.0.0, entry.0.1, entry.1) || line == Kind(entry.0.0, "counter")
  }

  lemma {:induction false} CounterIsShown(ordered: seq<(Key, int)>, i: nat)
    requires i < |ordered|
    ensures Sample(ordered[i].0.0, ordered[i].0.1, ordered[i].1) in CounterLines(ordered)
    ensures Kind(ordered[i].0.0, "counter") in CounterLines(ordered)
  {
    var n := |ordered| - 1;
    if i < n {
      CounterIsShown(ordered[..n], i);
    } else if n > 0 && ordered[n - 1].0.0 == ordered[n].0.0 {
      CounterIsShown(ordered[..n], n - 1);
    }
  }

  lemma {:induction false} ShownIsOfCounter(ordered: seq<(Key, int)>, line: Line) returns (i: nat)
    requires line in CounterLines(ordered)
    ensures i < |ordered| && OfCounter(ordered[i], line)
  {
    var n := |ordered| - 1;
    if line in CounterLines(ordered[..n]) { i := ShownIsOfCounter(ordered[..n], line); } else { i := n; }
  }

  /** Every counter held has its sample, under its labels and with its value, and
      there are no other lines but their TYPE lines. */
  lemma {:induction false} CountersAreShownIff(ordered: seq<(Key, int)>, line: Line)
    ensures line in CounterLines(ordered) <==> exists i :: 0 <= i < |ordered| && OfCounter(ordered[i], line)
  {
    if line in CounterLines(ordered) { var i := ShownIsOfCounter(ordered, line); }
    if i :| 0 <= i < |ordered| && OfCounter(ordered[i], line) { CounterIsShown(ordered, i); }
  }

  lemma {:induction false} SumSplits(a: seq<real>, b: seq<real>)
    ensures SumOf(a + b) == SumOf(a) + SumOf(b)
  {
    if b == [] {
      assert a + b == a;
    } else {
      SumSplits(a, b[..|b| - 1]);
      assert (a + b)[..|a + b| - 1] == a + b[..|b| - 1];
    }
  }

  lemma {:induction false} SumOfOne(x: real)
    ensures SumOf([x]) == x
  {
    assert [x][..0] == [];
  }

  lemma {:induction false} SumOfInserted(x: real, s: seq<real>)
    ensures SumOf(InsertReal(x, s)) == x + SumOf(s)
  {
    SumOfOne(x);
    if s == [] || x <= s[0] {
      SumSplits([x], s);
    } else {
      SumOfInserted(x, s[1..]);
      SumOfOne(s[0]);
      SumSplits([s[0]], InsertReal(x, s[1..]));
      SumSplits([s[0]], s[1..]);
      assert s == [s[0]] + s[1..];
    }
  }

  lemma {:induction false} SumOfSorted(s: seq<real>)
    ensures SumOf(SortReals(s)) == SumOf(s)
  {
    if s != [] {
      SumOfSorted(s[1..]);
      SumOfInserted(s[0], SortReals(s[1..]));
      SumOfOne(s[0]);
      SumSplits([s[0]], s[1..]);
      assert s == [s[0]] + s[1..];
    }
  }

  /** A summary is typed first; then come how many observations are held, their
      sum, and three quantiles of them. */
  lemma {:induction false} SummarySays(name: string, values: seq<real>)
    requires values != []
    ensures SummaryOf(name, values) ==
            [Kind(name, "summary"), Sample(name + "_count", "", |values|), Measure(name + "_sum", "", SumOf(values)),
             Measure(name, "quantile=\"0.5\"", Quantile(values, 50)),
             Measure(name, "quantile=\"0.95\"", Quantile(values, 95)),
             Measure(name, "quantile=\"0.99\"", Quantile(values, 99))]
  {
    SumOfSorted(values);
  }

  ghost predicate OfSummary(entry: (string, seq<real>), line: Line) {
    entry.1 != [] && line in SummaryOf(entry.0, entry.1)
  }

  lemma {:induction false} InEither<T>(a: seq<T>, b: seq<T>, x: T)
    ensures x in a + b <==> x in a || x in b
  {
  }

  lemma {:induction false} LastSummary(histogram: seq<(string, seq<real>)>, before: seq<Line>, more: seq<Line>)
    requires histogram != [] && before == SummaryLines(histogram[..|histogram| - 1])
    requires var last := histogram[|histogram| - 1]; more == if last.1 == [] then [] else SummaryOf(last.0, last.1)
    ensures SummaryLines(histogram) == before + more
  {
  }

  /** Whether the lines of one more entry show a line. */
  lemma {:induction false} OneMoreSummary(histogram: seq<(string, seq<real>)>, line: Line)
    requires histogram != []
    ensures line in SummaryLines(histogram) <==>
            line in SummaryLines(histogram[..|histogram| - 1]) || OfSummary(histogram[|histogram| - 1], line)
  {
    var before, last := SummaryLines(histogram[..|histogram| - 1]), histogram[|histogram| - 1];
    var more := if last.1 == [] then [] else SummaryOf(last.0, last.1);
    LastSummary(histogram, before, more);
    InEither(before, more, line);
  }

  lemma {:induction false} SummaryIsShown(histogram: seq<(string, seq<real>)>, i: nat, line: Line)
    requires i < |histogram| && OfSummary(histogram[i], line)
    ensures line in SummaryLines(histogram)
  {
    OneMoreSummary(histogram, line);
    if i < |histogram| - 1 { SummaryIsShown(histogram[..|histogram| - 1], i, line); }
  }

  lemma {:induction false} ShownIsOfSummary(histogram: seq<(string, seq<real>)>, line: Line) returns (i: nat)
    requires line in SummaryLines(histogram)
    ensures i < |histogram| && OfSummary(histogram[i], line)
  {
    var n := |histogram| - 1;
    OneMoreSummary(histogram, line);
    if line in SummaryLines(histogram[..n]) { i := ShownIsOfSummary(histogram[..n], line); } else { i := n; }
  }

  /** Every histogram that holds anything has its summary, and none that is empty. */
  lemma {:induction false} SummariesAreShownIff(histogram: seq<(string, seq<real>)>, line: Line)
    ensures line in SummaryLines(histogram) <==>
            exists i :: 0 <= i < |histogram| && OfSummary(histogram[i], line)
  {
    if line in SummaryLines(histogram) { var i := ShownIsOfSummary(histogram, line); }
    if i :| 0 <= i < |histogram| && OfSummary(histogram[i], line) { SummaryIsShown(histogram, i, line); }
  }

  ghost predicate OfSeries(entry: (string, nat), line: Line) {
    line == Sample("veyrs_metrics_series", RenderLabels([("metric", Some(entry.0))]), entry.1)
  }

  lemma {:induction false} SeriesIsShown(series: seq<(string, nat)>, i: nat, line: Line)
    requires i < |series| && OfSeries(series[i], line)
    ensures line in GaugeLines(series)
  {
    var n := |series| - 1;
    if i < n { SeriesIsShown(series[..n], i, line); }
  }

  lemma {:induction false} ShownIsOfSeries(series: seq<(string, nat)>, line: Line) returns (i: nat)
    requires line in GaugeLines(series)
    ensures i < |series| && OfSeries(series[i], line)
  {
    var n := |series| - 1;
    if line in GaugeLines(series[..n]) { i := ShownIsOfSeries(series[..n], line); } else { i := n; }
  }

  /** And every metric that is counted says how many label sets it holds. */
  lemma {:induction false} SeriesAreShownIff(series: seq<(string, nat)>, line: Line)
    ensures line in GaugeLines(series) <==> exists i :: 0 <= i < |series| && OfSeries(series[i], line)
  {
    if line in GaugeLines(series) { var i := ShownIsOfSeries(series, line); }
    if i :| 0 <= i < |series| && OfSeries(series[i], line) { SeriesIsShown(series, i, line); }
  }

  /** It all starts with one line about the build and with the gauge's TYPE. */
  lemma {:induction false} HeadSays(build: string, line: Line)
    ensures line in Head(build) <==>
            || line in {Help("veyrs_build_info"), Help("veyrs_metrics_series")}
            || line in {Kind("veyrs_build_info", "gauge"), Kind("veyrs_metrics_series", "gauge")}
            || line == Sample("veyrs_build_info", build, 1)
  {
  }
}
