/** Rendering a label mapping in the Prometheus text format, and reading it back. */
module MetricLabels {
  import opened Wrappers

  // ------------------------------------------------------------ escaping --

  function EscapeChar(c: char): string {
    if c == '\\' then "\\\\"
    else if c == '"' then "\\\""
    else if c == '\n' then "\\n"
    else [c]
  }

  function Escape(s: string): string {
    if s == "" then "" else EscapeChar(s[0]) + Escape(s[1..])
  }

  type Pair = (string, string)

  function RenderPair(p: Pair): string {
    p.0 + "=\"" + Escape(p.1) + "\""
  }

  /** ",".join over the pairs. */
  function Join(pairs: seq<Pair>): string {
    if pairs == [] then ""
    else if |pairs| == 1 then RenderPair(pairs[0])
    else RenderPair(pairs[0]) + "," + Join(pairs[1..])
  }

  // ------------------------------------------------------------- reading --

  /** A label value up to its closing quote, and what follows it. */
  function ReadValue(s: string): Option<(string, string)> {
    if s == "" || s[0] == '\n' then None
    else if s[0] == '"' then Some(("", s[1..]))
    else if s[0] != '\\' then
      var rest := ReadValue(s[1..]);
      if rest.None? then None else Some(([s[0]] + rest.value.0, rest.value.1))
    else if |s| < 2 || s[1] !in {'\\', '"', 'n'} then None
    else
      var rest := ReadValue(s[2..]);
      if rest.None? then None
      else Some(([if s[1] == 'n' then '\n' else s[1]] + rest.value.0, rest.value.1))
  }

  function ReadName(s: string): Option<(string, string)> {
    if s == "" then None
    else if s[0] == '=' then Some(("", s[1..]))
    else
      var rest := ReadName(s[1..]);
      if rest.None? then None else Some(([s[0]] + rest.value.0, rest.value.1))
  }

  lemma {:induction false} ReadsAreShorter(s: string)
    ensures ReadValue(s).Some? ==> |ReadValue(s).value.1| < |s|
    ensures ReadName(s).Some? ==> |ReadName(s).value.1| < |s|
  {
    if |s| > 0 { ReadsAreShorter(s[1..]); }
    if |s| > 1 { ReadsAreShorter(s[2..]); }
  }

  /** One name="value", and what follows it. */
  function ReadOne(s: string): (r: Option<(Pair, string)>)
    ensures r.Some? ==> |r.value.1| < |s|
  {
    ReadsAreShorter(s);
    var name := ReadName(s);
    if name.None? || name.value.1 == "" || name.value.1[0] != '"' then None
    else
      ReadsAreShorter(name.value.1[1..]);
      var value := ReadValue(name.value.1[1..]);
      if value.None? then None else Some(((name.value.0, value.value.0), value.value.1))
  }

  /** name="value",name="value",... */
  function Parse(s: string): Option<seq<Pair>>
    decreases |s|
  {
    if s == "" then Some([]) else
      var one := ReadOne(s);
      if one.None? then None
      else
        var rest := one.value.1;
        if rest == "" then Some([one.value.0])
        else if rest[0] != ',' || rest == "," then None
        else
          var others := Parse(rest[1..]);
          if others.None? then None else Some([one.value.0] + others.value)
  }

  /** A label name of the text format: a letter or underscore, then also digits. */
  predicate LabelName(s: string) {
    && s != ""
    && !('0' <= s[0] <= '9')
    && forall i :: 0 <= i < |s| ==>
         'a' <= s[i] <= 'z' || 'A' <= s[i] <= 'Z' || s[i] == '_' || '0' <= s[i] <= '9'
  }

  lemma {:induction false} ReadValueUndoesEscapeChar(c: char, tail: string)
    requires ReadValue(tail).Some?
    ensures ReadValue(EscapeChar(c) + tail) ==
            Some(([c] + ReadValue(tail).value.0, ReadValue(tail).value.1))
  {
    assert (EscapeChar(c) + tail)[|EscapeChar(c)|..] == tail;
  }

  lemma {:induction false} ReadValueUndoesEscape(v: string, rest: string)
    ensures ReadValue(Escape(v) + "\"" + rest) == Some((v, rest))
  {
    if v == "" {
      assert Escape(v) + "\"" + rest == "\"" + rest;
    } else {
      var tail := Escape(v[1..]) + "\"" + rest;
      assert Escape(v) + "\"" + rest == EscapeChar(v[0]) + tail;
      ReadValueUndoesEscape(v[1..], rest);
      ReadValueUndoesEscapeChar(v[0], tail);
      assert [v[0]] + v[1..] == v;
    }
  }

  lemma {:induction false} ReadNameStopsAtEquals(name: string, rest: string)
    requires '=' !in name
    ensures ReadName(name + "=" + rest) == Some((name, rest))
  {
    if name == "" {
      assert name + "=" + rest == "=" + rest;
    } else {
      ReadNameStopsAtEquals(name[1..], rest);
      assert (name + "=" + rest)[1..] == name[1..] + "=" + rest;
      assert [name[0]] + name[1..] == name;
    }
  }

  lemma {:induction false} ReadOneUndoesRenderPair(p: Pair, rest: string)
    requires LabelName(p.0)
    ensures ReadOne(RenderPair(p) + rest) == Some((p, rest))
  {
    var quoted := "\"" + Escape(p.1) + "\"" + rest;
    assert RenderPair(p) + rest == p.0 + "=" + quoted;
    ReadNameStopsAtEquals(p.0, quoted);
    assert quoted[0] == '"' && quoted[1..] == Escape(p.1) + "\"" + rest;
    ReadValueUndoesEscape(p.1, rest);
  }

  /** Reading back what was rendered, for any label values whatever. */
  lemma {:induction false} ParseUndoesJoin(pairs: seq<Pair>)
    requires forall i :: 0 <= i < |pairs| ==> LabelName(pairs[i].0)
    ensures Parse(Join(pairs)) == Some(pairs)
  {
    if |pairs| == 1 {
      ReadOneUndoesRenderPair(pairs[0], "");
      assert RenderPair(pairs[0]) + "" == Join(pairs);
      assert pairs == [pairs[0]];
    } else if |pairs| > 1 {
      var rest := "," + Join(pairs[1..]);
      JoinIsNotEmpty(pairs[1..]);
      ParseUndoesJoin(pairs[1..]);
      assert rest[1..] == Join(pairs[1..]);
      ReadOneUndoesRenderPair(pairs[0], rest);
      assert RenderPair(pairs[0]) + rest == Join(pairs);
      assert pairs == [pairs[0]] + pairs[1..];
    }
  }

  lemma {:induction false} JoinIsNotEmpty(pairs: seq<Pair>)
    requires pairs != []
    ensures Join(pairs) != ""
  {
    assert |RenderPair(pairs[0])| >= 3;
  }

  // ------------------------------------------------------------- sorting --

  predicate Less(a: string, b: string) {
    b != "" && (a == "" || a[0] < b[0] || (a[0] == b[0] && Less(a[1..], b[1..])))
  }

  lemma {:induction false} LessIsTotal(a: string, b: string)
    ensures Less(a, b) || a == b || Less(b, a)
  {
    if a != "" && b != "" && a[0] == b[0] {
      LessIsTotal(a[1..], b[1..]);
      assert a == [a[0]] + a[1..] && b == [b[0]] + b[1..];
    }
  }

  /** Texts are ordered where they first differ, the shorter first if they do not. */
  lemma {:induction false} LessWhereTheyDiffer(a: string, b: string, k: nat)
    requires k <= |a| && k <= |b| && a[..k] == b[..k]
    requires k < |a| && k < |b| ==> a[k] != b[k]
    ensures Less(a, b) <==> k < |b| && (k < |a| ==> a[k] < b[k])
  {
    if k > 0 {
      assert a[0] == a[..k][0] && b[0] == b[..k][0];
      assert a[1..][..k - 1] == a[..k][1..] && b[1..][..k - 1] == b[..k][1..];
      LessWhereTheyDiffer(a[1..], b[1..], k - 1);
    }
  }

  lemma {:induction false} LessIsStrict(a: string, b: string)
    requires Less(a, b)
    ensures !Less(b, a) && a != b
  {
    if a != "" && a[0] == b[0] { LessIsStrict(a[1..], b[1..]); }
  }

  lemma {:induction false} LessIsTransitive(a: string, b: string, c: string)
    requires Less(a, b) && Less(b, c)
    ensures Less(a, c)
  {
    if a != "" && a[0] == b[0] == c[0] { LessIsTransitive(a[1..], b[1..], c[1..]); }
  }

  type Item = (string, Option<string>)

  /** A Python dict's items: distinct names, in insertion order. */
  ghost predicate IsDict(items: seq<Item>) {
    forall i, k :: 0 <= i < k < |items| ==> items[i].0 != items[k].0
  }

  ghost predicate SortedByName(items: seq<Item>) {
    forall i, k :: 0 <= i < k < |items| ==> Less(items[i].0, items[k].0)
  }

  function Insert(x: Item, items: seq<Item>): seq<Item> {
    if items == [] || Less(x.0, items[0].0) then [x] + items else [items[0]] + Insert(x, items[1..])
  }

  function Sort(items: seq<Item>): seq<Item> {
    if items == [] then [] else Insert(items[0], Sort(items[1..]))
  }

  function Present(items: seq<Item>): seq<Pair> {
    if items == [] then []
    else (if items[0].1.Some? then [(items[0].0, items[0].1.value)] else []) + Present(items[1..])
  }

  /** Values are already text: str() of whatever the caller passed. */
  function RenderLabels(items: seq<Item>): string {
    Join(Present(Sort(items)))
  }

  ghost function Elements<T>(s: seq<T>): set<T> {
    set x | x in s
  }

  lemma {:induction false} InsertKeepsOrder(x: Item, items: seq<Item>)
    requires SortedByName(items) && forall i :: 0 <= i < |items| ==> items[i].0 != x.0
    ensures SortedByName(Insert(x, items))
    ensures Elements(Insert(x, items)) == {x} + Elements(items)
  {
    if items == [] {
    } else if Less(x.0, items[0].0) {
      forall k | 1 <= k < |items| ensures Less(x.0, items[k].0) {
        LessIsTransitive(x.0, items[0].0, items[k].0);
      }
    } else {
      LessIsTotal(x.0, items[0].0);
      var rest := items[1..];
      InsertKeepsOrder(x, rest);
      var out := Insert(x, rest);
      forall k | 0 <= k < |out| ensures Less(items[0].0, out[k].0) {
        assert out[k] in Elements(out);
        if out[k] != x { assert out[k] in rest; }
      }
      assert items == [items[0]] + rest;
    }
  }

  lemma {:induction false} SortSorts(items: seq<Item>)
    requires IsDict(items)
    ensures SortedByName(Sort(items)) && Elements(Sort(items)) == Elements(items)
  {
    if items != [] {
      SortSorts(items[1..]);
      var rest := Sort(items[1..]);
      forall i | 0 <= i < |rest| ensures rest[i].0 != items[0].0 {
        assert rest[i] in Elements(rest);
        assert rest[i] in items[1..];
      }
      InsertKeepsOrder(items[0], rest);
      assert items == [items[0]] + items[1..];
    }
  }

  /** The mapping a dict stands for once None values are dropped. */
  ghost predicate Says(items: seq<Item>, p: Pair) {
    (p.0, Some(p.1)) in items
  }

  ghost predicate SameLabels(a: seq<Item>, b: seq<Item>) {
    forall p: Pair :: Says(a, p) <==> Says(b, p)
  }

  lemma {:induction false} PresentSays(items: seq<Item>)
    ensures forall p: Pair :: p in Present(items) <==> Says(items, p)
  {
    if items != [] {
      PresentSays(items[1..]);
      assert items == [items[0]] + items[1..];
    }
  }

  ghost predicate SortedPairs(pairs: seq<Pair>) {
    forall i, k :: 0 <= i < k < |pairs| ==> Less(pairs[i].0, pairs[k].0)
  }

  lemma {:induction false} PresentIsSorted(items: seq<Item>)
    requires SortedByName(items)
    ensures SortedPairs(Present(items))
  {
    if items != [] {
      PresentIsSorted(items[1..]);
      PresentSays(items[1..]);
      var rest := Present(items[1..]);
      forall k | 0 <= k < |rest| ensures Less(items[0].0, rest[k].0) {
        assert Says(items[1..], rest[k]);
      }
    }
  }

  lemma {:induction false} SortedPairsAreDetermined(a: seq<Pair>, b: seq<Pair>)
    requires SortedPairs(a) && SortedPairs(b) && forall p: Pair :: p in a <==> p in b
    ensures a == b
  {
    assert b != [] ==> b[0] in a;
    assert a != [] ==> a[0] in b;
    if a != [] && b != [] {
      HeadsAgree(a, b);
      forall p: Pair ensures p in a[1..] <==> p in b[1..] {
        TailOf(a, p);
        TailOf(b, p);
      }
      SortedPairsAreDetermined(a[1..], b[1..]);
    }
  }

  lemma {:induction false} HeadsAgree(a: seq<Pair>, b: seq<Pair>)
    requires SortedPairs(a) && SortedPairs(b) && a != [] && b != []
    requires a[0] in b && b[0] in a
    ensures a[0] == b[0]
  {
    if a[0] != b[0] {
      var i :| 0 <= i < |b| && b[i] == a[0];
      var k :| 0 <= k < |a| && a[k] == b[0];
      LessIsStrict(b[0].0, a[0].0);
    }
  }

  lemma {:induction false} TailOf(a: seq<Pair>, p: Pair)
    requires SortedPairs(a) && a != []
    ensures p in a[1..] <==> p in a && p != a[0]
  {
    if p in a[1..] {
      var k :| 0 <= k < |a[1..]| && a[1..][k] == p;
      LessIsStrict(a[0].0, a[k + 1].0);
    }
    assert a == [a[0]] + a[1..];
  }

  ghost predicate Named(items: seq<Item>) {
    IsDict(items) && forall i :: 0 <= i < |items| ==> LabelName(items[i].0)
  }

  lemma {:induction false} PresentOfSort(items: seq<Item>)
    requires Named(items)
    ensures SortedPairs(Present(Sort(items)))
    ensures forall p: Pair :: p in Present(Sort(items)) <==> Says(items, p)
    ensures Parse(RenderLabels(items)) == Some(Present(Sort(items)))
  {
    SortSorts(items);
    PresentIsSorted(Sort(items));
    PresentSays(Sort(items));
    forall p: Pair ensures Says(Sort(items), p) <==> Says(items, p) {
      assert (p.0, Some(p.1)) in Elements(Sort(items)) <==> (p.0, Some(p.1)) in Elements(items);
    }
    var pairs := Present(Sort(items));
    forall i | 0 <= i < |pairs| ensures LabelName(pairs[i].0) {
      assert Says(items, pairs[i]);
    }
    ParseUndoesJoin(pairs);
  }

  /** Two label mappings render alike exactly when they say the same thing: the
      order they were built in and their None values never matter, and no
      value, however it is quoted or broken over lines, passes for another. */
  lemma {:induction false} SameTextIffSameLabels(a: seq<Item>, b: seq<Item>)
    requires Named(a) && Named(b)
    ensures RenderLabels(a) == RenderLabels(b) <==> SameLabels(a, b)
  {
    PresentOfSort(a);
    PresentOfSort(b);
    if SameLabels(a, b) {
      SortedPairsAreDetermined(Present(Sort(a)), Present(Sort(b)));
    }
    if RenderLabels(a) == RenderLabels(b) {
      forall p: Pair ensures Says(a, p) <==> Says(b, p) {
        assert p in Present(Sort(a)) <==> p in Present(Sort(b));
      }
    }
  }
}
