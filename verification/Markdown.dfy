/** The documentation renderer's block loop: which lines each block takes. What a
    line looks like is the lexer's business; quotes are taken apart here. */
module Markdown {
  import opened Wrappers

  /** The line patterns. `continuation` is an indented line that is neither an
      item nor a fence nor a table row; `stop` ends a paragraph. */
  datatype Lexer = Lexer(
    fence: string -> bool,
    tableRow: string -> bool,
    tableRule: string -> bool,
    heading: string -> Option<(nat, string)>,
    bullet: string -> bool,
    numbered: string -> bool,
    bareQuote: string -> bool,
    rule: string -> bool,
    blank: string -> bool,
    continuation: string -> bool,
    stop: string -> bool)

  datatype Block =
    | Code(opener: string, body: seq<string>, closer: Option<string>)
    | Table(rows: seq<string>)
    | Heading(line: string, level: nat, text: string)
    | Bullets(items: seq<seq<string>>)
    | Numbered(items: seq<seq<string>>)
    | Quote(quoted: seq<string>, inner: seq<Block>)
    | Rule(line: string)
    | Paragraph(lines: seq<string>)
    | Blank(line: string)

  // ----------------------------------------------------------- text and lines --

  /** md.split("\n") */
  function Split(s: string): (lines: seq<string>)
    ensures lines != []
  {
    if s == "" then [""]
    else if s[0] == '\n' then [""] + Split(s[1..])
    else
      var rest := Split(s[1..]);
      [[s[0]] + rest[0]] + rest[1..]
  }

  /** "\n".join(lines) */
  function Join(lines: seq<string>): string {
    if lines == [] then ""
    else if |lines| == 1 then lines[0]
    else lines[0] + "\n" + Join(lines[1..])
  }

  /** Characters, counting the line break before or after each line. */
  function Size(lines: seq<string>): nat {
    if lines == [] then 0 else |lines[0]| + 1 + Size(lines[1..])
  }

  ghost predicate OneLineEach(lines: seq<string>) {
    forall i :: 0 <= i < |lines| ==> '\n' !in lines[i]
  }

  lemma {:induction false} SplitGivesLines(s: string)
    ensures OneLineEach(Split(s)) && Size(Split(s)) == |s| + 1
  {
    if s != "" { SplitGivesLines(s[1..]); }
  }

  lemma {:induction false} SplitOneLine(line: string)
    requires '\n' !in line
    ensures Split(line) == [line]
  {
    if line != "" {
      SplitOneLine(line[1..]);
      assert [line[0]] + line[1..] == line;
    }
  }

  lemma {:induction false} SplitAtBreak(line: string, rest: string)
    requires '\n' !in line
    ensures Split(line + "\n" + rest) == [line] + Split(rest)
  {
    var s := line + "\n" + rest;
    if line == "" {
      assert s[1..] == rest;
    } else {
      SplitAtBreak(line[1..], rest);
      assert s[1..] == line[1..] + "\n" + rest;
      assert [line[0]] + line[1..] == line;
    }
  }

  lemma {:induction false} SplitUndoesJoin(lines: seq<string>)
    requires lines != [] && OneLineEach(lines)
    ensures Split(Join(lines)) == lines
    ensures |Join(lines)| + 1 == Size(lines)
  {
    if |lines| == 1 {
      SplitOneLine(lines[0]);
    } else {
      SplitUndoesJoin(lines[1..]);
      SplitAtBreak(lines[0], Join(lines[1..]));
      assert lines == [lines[0]] + lines[1..];
    }
  }

  // ------------------------------------------------------------ the grammar --

  /** The first index at or after `i` whose line fails `p`. */
  function SpanEnd(p: string -> bool, lines: seq<string>, i: nat): (end: nat)
    requires i <= |lines|
    ensures i <= end <= |lines|
    ensures forall k :: i <= k < end ==> p(lines[k])
    ensures end < |lines| ==> !p(lines[end])
    decreases |lines| - i
  {
    if i < |lines| && p(lines[i]) then SpanEnd(p, lines, i + 1) else i
  }

  function Outside(lex: Lexer): string -> bool { l => !lex.fence(l) }

  function Flowing(lex: Lexer): string -> bool { l => !lex.blank(l) && !lex.stop(l) }

  predicate OpensQuote(line: string) { |line| >= 2 && line[..2] == "> " }

  function Quoted(lex: Lexer): string -> bool { l => OpensQuote(l) || lex.bareQuote(l) }

  /** The items of a list that starts at `i`: each a marked line and what wraps it. */
  function ItemsAt(lex: Lexer, marked: string -> bool, lines: seq<string>, i: nat): (r: (seq<seq<string>>, nat))
    requires i <= |lines|
    ensures i <= r.1 <= |lines|
    ensures i < |lines| && marked(lines[i]) ==> i < r.1
    decreases |lines| - i
  {
    if i < |lines| && marked(lines[i]) then
      var end := SpanEnd(lex.continuation, lines, i + 1);
      var (items, last) := ItemsAt(lex, marked, lines, end);
      ([lines[i..end]] + items, last)
    else ([], i)
  }

  function StripTwo(line: string): string {
    if |line| < 2 then "" else line[2..]
  }

  function Stripped(lines: seq<string>): seq<string> {
    if lines == [] then [] else [StripTwo(lines[0])] + Stripped(lines[1..])
  }

  predicate TableAt(lex: Lexer, lines: seq<string>, i: nat)
    requires i < |lines|
  {
    && lex.tableRow(lines[i]) && i + 1 < |lines|
    && lex.tableRow(lines[i + 1]) && lex.tableRule(lines[i + 1])
  }

  function CodeAt(lex: Lexer, lines: seq<string>, i: nat): (r: (Block, nat))
    requires i < |lines|
    ensures i < r.1 <= |lines|
  {
    var end := SpanEnd(Outside(lex), lines, i + 1);
    if end < |lines| then (Code(lines[i], lines[i + 1..end], Some(lines[end])), end + 1)
    else (Code(lines[i], lines[i + 1..end], None), end)
  }

  function ParagraphAt(lex: Lexer, lines: seq<string>, i: nat): (r: (Block, nat))
    requires i < |lines|
    ensures i < r.1 <= |lines|
  {
    var end := SpanEnd(Flowing(lex), lines, i + 1);
    (Paragraph(lines[i..end]), end)
  }

  /** The block that starts at line `i`, and the line after it. */
  function BlockAt(lex: Lexer, lines: seq<string>, i: nat): (r: (Block, nat))
    requires i < |lines|
    ensures i < r.1 <= |lines|
    decreases Size(lines), |lines| - i, 0
  {
    var line := lines[i];
    if lex.fence(line) then CodeAt(lex, lines, i)
    else if TableAt(lex, lines, i) then
      var end := SpanEnd(lex.tableRow, lines, i);
      (Table(lines[i..end]), end)
    else if lex.heading(line).Some? then
      (Heading(line, lex.heading(line).value.0, lex.heading(line).value.1), i + 1)
    else if lex.bullet(line) then
      var (items, end) := ItemsAt(lex, lex.bullet, lines, i);
      (Bullets(items), end)
    else if lex.numbered(line) then
      var (items, end) := ItemsAt(lex, lex.numbered, lines, i);
      (Numbered(items), end)
    else if OpensQuote(line) then
      var end := SpanEnd(Quoted(lex), lines, i);
      QuoteShrinks(lines, i, end);
      (Quote(lines[i..end], Shown(ParseAt(lex, Stripped(lines[i..end]), 0))), end)
    else if lex.rule(line) then (Rule(line), i + 1)
    else if !lex.blank(line) then ParagraphAt(lex, lines, i)
    else (Blank(line), i + 1)
  }

  function ParseAt(lex: Lexer, lines: seq<string>, i: nat): seq<Block>
    decreases Size(lines), if i < |lines| then |lines| - i else 0, 1
  {
    if i >= |lines| then []
    else
      var (block, next) := BlockAt(lex, lines, i);
      [block] + ParseAt(lex, lines, next)
  }

  /** Blank lines leave nothing on the page. */
  function Shown(blocks: seq<Block>): seq<Block> {
    if blocks == [] then []
    else (if blocks[0].Blank? then [] else [blocks[0]]) + Shown(blocks[1..])
  }

  /** The level 2 and 3 headings outside quotes. */
  function Contents(blocks: seq<Block>): seq<(nat, string)> {
    if blocks == [] then []
    else
      var b := blocks[0];
      (if b.Heading? && (b.level == 2 || b.level == 3) then [(b.level, b.text)] else []) + Contents(blocks[1..])
  }

  lemma {:induction false} SizeOfParts(a: seq<string>, b: seq<string>)
    ensures Size(a + b) == Size(a) + Size(b)
  {
    if a == [] {
      assert a + b == b;
    } else {
      SizeOfParts(a[1..], b);
      assert (a + b)[1..] == a[1..] + b;
    }
  }

  lemma {:induction false} StrippingNeverGrows(lines: seq<string>)
    ensures Size(Stripped(lines)) <= Size(lines) && |Stripped(lines)| == |lines|
    ensures lines != [] && OpensQuote(lines[0]) ==> Size(Stripped(lines)) < Size(lines)
  {
    if lines != [] { StrippingNeverGrows(lines[1..]); }
  }

  /** What a quote holds is shorter than the text it stands in. */
  lemma {:induction false} QuoteShrinks(lines: seq<string>, i: nat, end: nat)
    requires i < |lines| && OpensQuote(lines[i]) && i <= end <= |lines|
    ensures Size(Stripped(lines[i..end])) < Size(lines)
  {
    StrippingNeverGrows(lines[i..end]);
    SizeOfParts(lines[..i], lines[i..end]);
    SizeOfParts(lines[..i] + lines[i..end], lines[end..]);
    assert lines == lines[..i] + lines[i..end] + lines[end..];
    if i == end { assert Size(lines[i..]) > 0; }
  }

  // --------------------------------------------------------------- the loop --

  method TakeWhile(p: string -> bool, lines: seq<string>, start: nat) returns (i: nat, buf: seq<string>)
    requires start <= |lines|
    ensures i == SpanEnd(p, lines, start) && buf == lines[start..i]
  {
    i, buf := start, [];
    while i < |lines| && p(lines[i])
      invariant start <= i <= |lines| && buf == lines[start..i]
      invariant SpanEnd(p, lines, i) == SpanEnd(p, lines, start)
    {
      buf := buf + [lines[i]];
      i := i + 1;
    }
  }

  method TakeItems(lex: Lexer, marked: string -> bool, lines: seq<string>, start: nat)
    returns (i: nat, items: seq<seq<string>>)
    requires start <= |lines|
    ensures items == ItemsAt(lex, marked, lines, start).0 && i == ItemsAt(lex, marked, lines, start).1
  {
    i, items := start, [];
    while i < |lines| && marked(lines[i])
      invariant start <= i <= |lines|
      invariant ItemsAt(lex, marked, lines, start).0 == items + ItemsAt(lex, marked, lines, i).0
      invariant ItemsAt(lex, marked, lines, start).1 == ItemsAt(lex, marked, lines, i).1
    {
      var next, wrapped := TakeWhile(lex.continuation, lines, i + 1);
      assert lines[i..next] == [lines[i]] + wrapped;
      items := items + [[lines[i]] + wrapped];
      i := next;
    }
    assert ItemsAt(lex, marked, lines, i).0 == [];
  }

  /** One turn of the renderer's loop: the block at line `i`. */
  method TakeBlock(lex: Lexer, lines: seq<string>, start: nat) returns (block: Block, i: nat)
    requires start < |lines| && OneLineEach(lines)
    ensures (block, i) == BlockAt(lex, lines, start)
    decreases Size(lines), 0
  {
    var line := lines[start];
    if lex.fence(line) {
      var end, buf := TakeWhile(Outside(lex), lines, start + 1);
      if end < |lines| { return Code(line, buf, Some(lines[end])), end + 1; }
      return Code(line, buf, None), end;
    }
    if lex.tableRow(line) && start + 1 < |lines| && lex.tableRow(lines[start + 1]) && lex.tableRule(lines[start + 1]) {
      var end, rows := TakeWhile(lex.tableRow, lines, start);
      return Table(rows), end;
    }
    var m := lex.heading(line);
    if m.Some? { return Heading(line, m.value.0, m.value.1), start + 1; }
    if lex.bullet(line) {
      var end, items := TakeItems(lex, lex.bullet, lines, start);
      return Bullets(items), end;
    }
    if lex.numbered(line) {
      var end, items := TakeItems(lex, lex.numbered, lines, start);
      return Numbered(items), end;
    }
    if OpensQuote(line) {
      var end, quoted := TakeWhile(Quoted(lex), lines, start);
      QuoteShrinks(lines, start, end);
      var inner := RenderQuoted(lex, quoted);
      return Quote(quoted, inner), end;
    }
    if lex.rule(line) { return Rule(line), start + 1; }
    if !lex.blank(line) {
      var end, rest := TakeWhile(Flowing(lex), lines, start + 1);
      assert lines[start..end] == [line] + rest;
      return Paragraph([line] + rest), end;
    }
    return Blank(line), start + 1;
  }

  /** A quote's lines, put back together as a text and rendered in their own right. */
  method RenderQuoted(lex: Lexer, quoted: seq<string>) returns (inner: seq<Block>)
    requires quoted != [] && OneLineEach(quoted)
    ensures inner == Shown(ParseAt(lex, Stripped(quoted), 0))
    decreases Size(Stripped(quoted)), 2
  {
    StrippedLines(quoted);
    SplitUndoesJoin(Stripped(quoted));
    var toc;
    inner, toc := Render(lex, Join(Stripped(quoted)));
  }

  lemma {:induction false} StrippedLines(lines: seq<string>)
    requires OneLineEach(lines)
    ensures |Stripped(lines)| == |lines| && OneLineEach(Stripped(lines))
  {
    if lines != [] { StrippedLines(lines[1..]); }
  }

  /** The renderer stops on every text and shows exactly the blocks of the grammar. */
  method Render(lex: Lexer, md: string) returns (out: seq<Block>, toc: seq<(nat, string)>)
    ensures out == Shown(ParseAt(lex, Split(md), 0))
    ensures toc == Contents(ParseAt(lex, Split(md), 0))
    decreases |md| + 1, 1
  {
    var lines := Split(md);
    SplitGivesLines(md);
    out, toc := [], [];
    var i := 0;
    ghost var done := [];
    while i < |lines|
      invariant i <= |lines|
      invariant done + ParseAt(lex, lines, i) == ParseAt(lex, lines, 0)
      invariant out == Shown(done) && toc == Contents(done)
      decreases |lines| - i
    {
      var block, next := TakeBlock(lex, lines, i);
      if block.Heading? && (block.level == 2 || block.level == 3) { toc := toc + [(block.level, block.text)]; }
      if !block.Blank? { out := out + [block]; }
      OneMore(done, block);
      StepOn(lex, lines, i, done, block, next);
      done := done + [block];
      i := next;
    }
    assert done + [] == done;
  }

  lemma {:induction false} StepOn(lex: Lexer, lines: seq<string>, i: nat, done: seq<Block>, block: Block, next: nat)
    requires i < |lines| && (block, next) == BlockAt(lex, lines, i)
    ensures done + [block] + ParseAt(lex, lines, next) == done + ParseAt(lex, lines, i)
  {
    assert ParseAt(lex, lines, i) == [block] + ParseAt(lex, lines, next);
  }

  lemma {:induction false} OneMore(done: seq<Block>, b: Block)
    ensures Shown(done + [b]) == Shown(done) + if b.Blank? then [] else [b]
    ensures Contents(done + [b]) ==
            Contents(done) + if b.Heading? && (b.level == 2 || b.level == 3) then [(b.level, b.text)] else []
  {
    if done != [] {
      OneMore(done[1..], b);
      assert (done + [b])[1..] == done[1..] + [b];
    } else {
      assert [b][1..] == [];
    }
  }

  // ------------------------------------------------- every line exactly once --

  function Flat(parts: seq<seq<string>>): seq<string> {
    if parts == [] then [] else parts[0] + Flat(parts[1..])
  }

  /** The lines a block was made from. */
  function LinesOf(b: Block): seq<string> {
    match b
    case Code(opener, body, closer) => [opener] + body + if closer.Some? then [closer.value] else []
    case Table(rows) => rows
    case Heading(line, _, _) => [line]
    case Bullets(items) => Flat(items)
    case Numbered(items) => Flat(items)
    case Quote(quoted, _) => quoted
    case Rule(line) => [line]
    case Paragraph(lines) => lines
    case Blank(line) => [line]
  }

  function AllLines(blocks: seq<Block>): seq<string> {
    if blocks == [] then [] else LinesOf(blocks[0]) + AllLines(blocks[1..])
  }

  lemma {:induction false} ItemsHoldTheirLines(lex: Lexer, marked: string -> bool, lines: seq<string>, i: nat)
    requires i <= |lines|
    ensures var (items, end) := ItemsAt(lex, marked, lines, i);
      && Flat(items) == lines[i..end]
      && forall k :: 0 <= k < |items| ==>
           items[k] != [] && marked(items[k][0]) && forall j :: 1 <= j < |items[k]| ==> lex.continuation(items[k][j])
    decreases |lines| - i
  {
    if i < |lines| && marked(lines[i]) {
      var end := SpanEnd(lex.continuation, lines, i + 1);
      ItemsHoldTheirLines(lex, marked, lines, end);
      var (items, last) := ItemsAt(lex, marked, lines, end);
      var all := [lines[i..end]] + items;
      assert all[1..] == items;
      assert lines[i..last] == lines[i..end] + lines[end..last];
    }
  }

  lemma {:induction false} HeadAndRest<T>(s: seq<T>, i: nat, end: nat)
    requires i < end <= |s|
    ensures s[i..end] == [s[i]] + s[i + 1..end]
    ensures end < |s| ==> s[i..end + 1] == [s[i]] + s[i + 1..end] + [s[end]]
  {
  }

  lemma {:induction false} CodeHoldsItsLines(lex: Lexer, lines: seq<string>, i: nat)
    requires i < |lines|
    ensures LinesOf(CodeAt(lex, lines, i).0) == lines[i..CodeAt(lex, lines, i).1]
  {
    HeadAndRest(lines, i, SpanEnd(Outside(lex), lines, i + 1));
  }

  lemma {:induction false} BlockHoldsItsLines(lex: Lexer, lines: seq<string>, i: nat)
    requires i < |lines|
    ensures LinesOf(BlockAt(lex, lines, i).0) == lines[i..BlockAt(lex, lines, i).1]
  {
    if lex.fence(lines[i]) {
      CodeHoldsItsLines(lex, lines, i);
    } else if !TableAt(lex, lines, i) && lex.heading(lines[i]).None? {
      if lex.bullet(lines[i]) {
        ItemsHoldTheirLines(lex, lex.bullet, lines, i);
      } else if lex.numbered(lines[i]) {
        ItemsHoldTheirLines(lex, lex.numbered, lines, i);
      }
    }
  }

  lemma {:induction false} ParseHoldsItsLines(lex: Lexer, lines: seq<string>, i: nat)
    requires i <= |lines|
    ensures AllLines(ParseAt(lex, lines, i)) == lines[i..]
    decreases |lines| - i
  {
    if i < |lines| {
      var (b, next) := BlockAt(lex, lines, i);
      BlockHoldsItsLines(lex, lines, i);
      ParseHoldsItsLines(lex, lines, next);
      assert ([b] + ParseAt(lex, lines, next))[1..] == ParseAt(lex, lines, next);
      assert lines[i..] == lines[i..next] + lines[next..];
    }
  }

  /** The blocks of any text take every one of its lines exactly once, in order. */
  lemma {:induction false} EveryLineOnce(lex: Lexer, md: string)
    ensures AllLines(ParseAt(lex, Split(md), 0)) == Split(md)
  {
    ParseHoldsItsLines(lex, Split(md), 0);
  }

  /** What each kind of block may hold. */
  ghost predicate WellMade(lex: Lexer, b: Block) {
    match b
    case Code(opener, body, closer) =>
      && lex.fence(opener)
      && (forall k :: 0 <= k < |body| ==> !lex.fence(body[k]))
      && (closer.Some? ==> lex.fence(closer.value))
    case Table(rows) =>
      |rows| >= 2 && lex.tableRule(rows[1]) && forall k :: 0 <= k < |rows| ==> lex.tableRow(rows[k])
    case Heading(line, level, text) => lex.heading(line) == Some((level, text))
    case Bullets(items) => ItemsWellMade(lex, lex.bullet, items)
    case Numbered(items) => ItemsWellMade(lex, lex.numbered, items)
    case Quote(quoted, inner) =>
      && quoted != [] && OpensQuote(quoted[0])
      && (forall k :: 0 <= k < |quoted| ==> OpensQuote(quoted[k]) || lex.bareQuote(quoted[k]))
      && inner == Shown(ParseAt(lex, Stripped(quoted), 0))
    case Rule(line) => lex.rule(line)
    case Paragraph(lines) =>
      && lines != [] && !lex.blank(lines[0]) && !lex.fence(lines[0]) && !OpensQuote(lines[0]) && !lex.rule(lines[0])
      && forall k :: 1 <= k < |lines| ==> !lex.blank(lines[k]) && !lex.stop(lines[k])
    case Blank(line) => lex.blank(line)
  }

  ghost predicate ItemsWellMade(lex: Lexer, marked: string -> bool, items: seq<seq<string>>) {
    && items != []
    && forall k :: 0 <= k < |items| ==>
         items[k] != [] && marked(items[k][0]) && forall j :: 1 <= j < |items[k]| ==> lex.continuation(items[k][j])
  }

  lemma {:induction false} CodeIsWellMade(lex: Lexer, lines: seq<string>, i: nat)
    requires i < |lines| && lex.fence(lines[i])
    ensures WellMade(lex, CodeAt(lex, lines, i).0)
  {
  }

  lemma {:induction false} ParagraphIsWellMade(lex: Lexer, lines: seq<string>, i: nat)
    requires i < |lines| && !lex.fence(lines[i]) && !OpensQuote(lines[i])
    requires !lex.rule(lines[i]) && !lex.blank(lines[i])
    ensures WellMade(lex, ParagraphAt(lex, lines, i).0)
  {
    HeadAndRest(lines, i, SpanEnd(Flowing(lex), lines, i + 1));
  }

  lemma {:induction false} TableIsWellMade(lex: Lexer, lines: seq<string>, i: nat)
    requires i < |lines| && TableAt(lex, lines, i)
    ensures WellMade(lex, Table(lines[i..SpanEnd(lex.tableRow, lines, i)]))
  {
    var end := SpanEnd(lex.tableRow, lines, i);
    assert end >= i + 2 by { assert SpanEnd(lex.tableRow, lines, i) == SpanEnd(lex.tableRow, lines, i + 1); }
    assert forall k :: 0 <= k < end - i ==> lines[i..end][k] == lines[i + k];
  }

  lemma {:induction false} QuoteIsWellMade(lex: Lexer, lines: seq<string>, i: nat)
    requires i < |lines| && OpensQuote(lines[i])
    ensures var end := SpanEnd(Quoted(lex), lines, i);
      WellMade(lex, Quote(lines[i..end], Shown(ParseAt(lex, Stripped(lines[i..end]), 0))))
  {
    var end := SpanEnd(Quoted(lex), lines, i);
    assert Quoted(lex)(lines[i]) && end > i;
    assert forall k :: 0 <= k < end - i ==> lines[i..end][k] == lines[i + k];
  }

  lemma {:induction false} ListIsWellMade(lex: Lexer, marked: string -> bool, lines: seq<string>, i: nat)
    requires i < |lines| && marked(lines[i])
    ensures ItemsWellMade(lex, marked, ItemsAt(lex, marked, lines, i).0)
  {
    ItemsHoldTheirLines(lex, marked, lines, i);
  }

  lemma {:induction false} BlockIsWellMade(lex: Lexer, lines: seq<string>, i: nat)
    requires i < |lines|
    ensures WellMade(lex, BlockAt(lex, lines, i).0)
  {
    var line := lines[i];
    if lex.fence(line) {
      CodeIsWellMade(lex, lines, i);
    } else if TableAt(lex, lines, i) {
      TableIsWellMade(lex, lines, i);
    } else if lex.heading(line).None? {
      if lex.bullet(line) {
        ListIsWellMade(lex, lex.bullet, lines, i);
      } else if lex.numbered(line) {
        ListIsWellMade(lex, lex.numbered, lines, i);
      } else if OpensQuote(line) {
        QuoteIsWellMade(lex, lines, i);
      } else if !lex.rule(line) && !lex.blank(line) {
        ParagraphIsWellMade(lex, lines, i);
      }
    }
  }

  /** Every block holds only lines of its kind, and only the last one can be a
      fence that nothing closes. */
  lemma {:induction false} BlocksAreWellMade(lex: Lexer, lines: seq<string>, i: nat, k: nat)
    requires k < |ParseAt(lex, lines, i)|
    ensures var blocks := ParseAt(lex, lines, i);
      && WellMade(lex, blocks[k])
      && (k < |blocks| - 1 && blocks[k].Code? ==> blocks[k].closer.Some?)
    decreases k
  {
    var (b, next) := BlockAt(lex, lines, i);
    if k == 0 {
      BlockIsWellMade(lex, lines, i);
    } else {
      BlocksAreWellMade(lex, lines, next, k - 1);
    }
  }
}
