/** The renderer's blocks by what stands on the page: which line decides the kind
    of a block, and how far it reaches. Only one division of a text fits. */
module MarkdownGrammar {
  import opened Markdown
  import opened Wrappers

  // ---------------------------------------------------------- where it stands --

  /** What is tried first, and so is not there when a later kind is. */
  predicate OpensTable(lex: Lexer, lines: seq<string>, i: nat)
    requires i < |lines|
  {
    && i + 1 < |lines| && lex.tableRow(lines[i]) && lex.tableRow(lines[i + 1]) && lex.tableRule(lines[i + 1])
  }

  predicate Plain(lex: Lexer, lines: seq<string>, i: nat)
    requires i < |lines|
  {
    !lex.fence(lines[i]) && !OpensTable(lex, lines, i) && lex.heading(lines[i]).None?
  }

  predicate Unlisted(lex: Lexer, lines: seq<string>, i: nat)
    requires i < |lines|
  {
    Plain(lex, lines, i) && !lex.bullet(lines[i]) && !lex.numbered(lines[i])
  }

  predicate Unquoted(lex: Lexer, lines: seq<string>, i: nat)
    requires i < |lines|
  {
    Unlisted(lex, lines, i) && !("> " <= lines[i])
  }

  predicate InQuote(lex: Lexer, line: string) {
    "> " <= line || lex.bareQuote(line)
  }

  /** The lines from i up to next all pass, and the one at next does not. */
  ghost predicate Reaches(passes: string -> bool, lines: seq<string>, i: nat, next: nat)
    requires i <= next <= |lines|
  {
    (forall k :: i <= k < next ==> passes(lines[k])) && (next < |lines| ==> !passes(lines[next]))
  }

  /** Each item is a marked line and all the lines that wrap it. */
  ghost predicate ListReaches(lex: Lexer, marked: string -> bool, items: seq<seq<string>>,
                              lines: seq<string>, i: nat, next: nat)
    requires i <= next <= |lines|
    decreases |items|
  {
    if items == [] then i == next && (i < |lines| ==> !marked(lines[i]))
    else
      var end := i + |items[0]|;
      && 0 < |items[0]| && end <= next && items[0] == lines[i..end] && marked(lines[i])
      && Reaches(lex.continuation, lines, i + 1, end)
      && ListReaches(lex, marked, items[1..], lines, end, next)
  }

  /** This block may stand at line i and end before next. */
  ghost predicate StandsAt(lex: Lexer, lines: seq<string>, i: nat, b: Block, next: nat) {
    && i < next <= |lines|
    && var line := lines[i];
       match b
       case Code(opener, body, closer) =>
         && lex.fence(line) && opener == line
         && (forall k :: 0 <= k < |body| ==> !lex.fence(body[k]))
         && (closer.Some? ==> next == i + |body| + 2 && closer.value == lines[next - 1] && lex.fence(closer.value))
         && (closer.None? ==> next == |lines| == i + |body| + 1)
         && body == lines[i + 1..i + 1 + |body|]
       case Table(rows) =>
         && !lex.fence(line) && OpensTable(lex, lines, i)
         && rows == lines[i..next] && Reaches(lex.tableRow, lines, i, next)
       case Heading(text, level, title) =>
         && !lex.fence(line) && !OpensTable(lex, lines, i) && lex.heading(line) == Some((level, title))
         && text == line && next == i + 1
       case Bullets(items) =>
         Plain(lex, lines, i) && lex.bullet(line) && ListReaches(lex, lex.bullet, items, lines, i, next)
       case Numbered(items) =>
         && Plain(lex, lines, i) && !lex.bullet(line) && lex.numbered(line)
         && ListReaches(lex, lex.numbered, items, lines, i, next)
       case Quote(quoted, inner) =>
         && Unlisted(lex, lines, i) && "> " <= line && quoted == lines[i..next]
         && Reaches(l => InQuote(lex, l), lines, i, next)
         && inner == Shown(ParseAt(lex, Stripped(quoted), 0))
       case Rule(text) => Unquoted(lex, lines, i) && lex.rule(line) && text == line && next == i + 1
       case Paragraph(text) =>
         && Unquoted(lex, lines, i) && !lex.rule(line) && !lex.blank(line) && text == lines[i..next]
         && Reaches(l => !lex.blank(l) && !lex.stop(l), lines, i + 1, next)
       case Blank(text) =>
         Unquoted(lex, lines, i) && !lex.rule(line) && lex.blank(line) && text == line && next == i + 1
  }

  // --------------------------------------------------------------- only one way --

  lemma {:induction false} SpanReaches(passes: string -> bool, lines: seq<string>, i: nat, next: nat)
    requires i <= next <= |lines|
    ensures Reaches(passes, lines, i, next) <==> next == SpanEnd(passes, lines, i)
    decreases |lines| - i
  {
    if i < |lines| && passes(lines[i]) && i < next { SpanReaches(passes, lines, i + 1, next); }
  }

  lemma {:induction false} ItemsReach(lex: Lexer, marked: string -> bool, items: seq<seq<string>>,
                                      lines: seq<string>, i: nat, next: nat)
    requires i <= next <= |lines|
    ensures ListReaches(lex, marked, items, lines, i, next) <==> ItemsAt(lex, marked, lines, i) == (items, next)
    decreases |lines| - i
  {
    if i < |lines| && marked(lines[i]) {
      var end := SpanEnd(lex.continuation, lines, i + 1);
      SpanReaches(lex.continuation, lines, i + 1, end);
      if items != [] && i + |items[0]| <= next && 0 < |items[0]| {
        SpanReaches(lex.continuation, lines, i + 1, i + |items[0]|);
        assert items == [items[0]] + items[1..];
      }
      if end <= next && items != [] { ItemsReach(lex, marked, items[1..], lines, end, next); }
      if items == [] { assert ItemsAt(lex, marked, lines, i).0 != []; }
    }
  }

  lemma {:induction false} ReachesAlike(p: string -> bool, q: string -> bool, lines: seq<string>, i: nat, next: nat)
    requires i <= next <= |lines| && forall k :: 0 <= k < |lines| ==> p(lines[k]) == q(lines[k])
    ensures Reaches(p, lines, i, next) <==> Reaches(q, lines, i, next)
  {
  }

  lemma {:induction false} CodeStands(lex: Lexer, lines: seq<string>, i: nat, b: Block, next: nat)
    requires i < |lines| && lex.fence(lines[i])
    ensures StandsAt(lex, lines, i, b, next) <==> (b, next) == BlockAt(lex, lines, i)
  {
    var end := SpanEnd(Outside(lex), lines, i + 1);
    SpanReaches(Outside(lex), lines, i + 1, end);
    if b.Code? && i + 1 + |b.body| <= |lines| {
      SpanReaches(Outside(lex), lines, i + 1, i + 1 + |b.body|);
      assert b.body == lines[i + 1..i + 1 + |b.body|] ==>
          forall k :: 0 <= k < |b.body| ==> b.body[k] == lines[i + 1 + k];
    }
  }

  lemma {:induction false} TableStands(lex: Lexer, lines: seq<string>, i: nat, b: Block, next: nat)
    requires i < |lines| && !lex.fence(lines[i]) && OpensTable(lex, lines, i)
    ensures StandsAt(lex, lines, i, b, next) <==> (b, next) == BlockAt(lex, lines, i)
  {
    if i <= next <= |lines| { SpanReaches(lex.tableRow, lines, i, next); }
  }

  lemma {:induction false} ListStands(lex: Lexer, lines: seq<string>, i: nat, b: Block, next: nat)
    requires i < |lines| && Plain(lex, lines, i) && (lex.bullet(lines[i]) || lex.numbered(lines[i]))
    ensures StandsAt(lex, lines, i, b, next) <==> (b, next) == BlockAt(lex, lines, i)
  {
    if i <= next <= |lines| {
      if b.Bullets? { ItemsReach(lex, lex.bullet, b.items, lines, i, next); }
      if b.Numbered? { ItemsReach(lex, lex.numbered, b.items, lines, i, next); }
    }
  }

  lemma {:induction false} QuoteStands(lex: Lexer, lines: seq<string>, i: nat, b: Block, next: nat)
    requires i < |lines| && Unlisted(lex, lines, i) && "> " <= lines[i]
    ensures StandsAt(lex, lines, i, b, next) <==> (b, next) == BlockAt(lex, lines, i)
  {
    if i <= next <= |lines| {
      SpanReaches(Quoted(lex), lines, i, next);
      ReachesAlike(l => InQuote(lex, l), Quoted(lex), lines, i, next);
    }
    assert SpanEnd(Quoted(lex), lines, i) > i;
  }

  lemma {:induction false} RestStands(lex: Lexer, lines: seq<string>, i: nat, b: Block, next: nat)
    requires i < |lines| && !lex.fence(lines[i]) && !OpensTable(lex, lines, i)
    requires Plain(lex, lines, i) ==> Unquoted(lex, lines, i)
    ensures StandsAt(lex, lines, i, b, next) <==> (b, next) == BlockAt(lex, lines, i)
  {
    if i + 1 <= next <= |lines| {
      SpanReaches(Flowing(lex), lines, i + 1, next);
      ReachesAlike(l => !lex.blank(l) && !lex.stop(l), Flowing(lex), lines, i + 1, next);
    }
  }

  /** What the renderer takes at a line is what may stand there, and all that may. */
  lemma {:induction false} OneBlockStands(lex: Lexer, lines: seq<string>, i: nat, b: Block, next: nat)
    requires i < |lines|
    ensures StandsAt(lex, lines, i, b, next) <==> (b, next) == BlockAt(lex, lines, i)
  {
    if lex.fence(lines[i]) {
      CodeStands(lex, lines, i, b, next);
    } else if OpensTable(lex, lines, i) {
      TableStands(lex, lines, i, b, next);
    } else if Plain(lex, lines, i) && (lex.bullet(lines[i]) || lex.numbered(lines[i])) {
      ListStands(lex, lines, i, b, next);
    } else if Plain(lex, lines, i) && "> " <= lines[i] {
      QuoteStands(lex, lines, i, b, next);
    } else {
      RestStands(lex, lines, i, b, next);
    }
  }

  /** The blocks divide the lines from i on. */
  ghost predicate Divides(lex: Lexer, blocks: seq<Block>, lines: seq<string>, i: nat)
    decreases |blocks|
  {
    if blocks == [] then i == |lines|
    else exists next :: StandsAt(lex, lines, i, blocks[0], next) && Divides(lex, blocks[1..], lines, next)
  }

  /** There is one way to divide a text into blocks, and the renderer finds it. */
  lemma {:induction false} OneWayToDivide(lex: Lexer, blocks: seq<Block>, lines: seq<string>, i: nat)
    requires i <= |lines|
    ensures Divides(lex, blocks, lines, i) <==> blocks == ParseAt(lex, lines, i)
    decreases |blocks|
  {
    if blocks != [] {
      if i < |lines| {
        var (b, next) := BlockAt(lex, lines, i);
        OneBlockStands(lex, lines, i, blocks[0], next);
        OneWayToDivide(lex, blocks[1..], lines, next);
        assert blocks == [blocks[0]] + blocks[1..];
        forall other | StandsAt(lex, lines, i, blocks[0], other) ensures other == next && blocks[0] == b {
          OneBlockStands(lex, lines, i, blocks[0], other);
        }
        assert blocks == ParseAt(lex, lines, i) ==> blocks[0] == b && blocks[1..] == ParseAt(lex, lines, next);
      }
    }
  }

  // ------------------------------------------------------- what is shown --

  /** A quote's line loses its mark and the space after it. */
  lemma {:induction false} QuotesLoseTheirMark(line: string)
    ensures "> " <= line ==> "> " + StripTwo(line) == line
    ensures line == ">" ==> StripTwo(line) == ""
  {
  }

  /** Everything but blank lines is shown, and the contents list the headings of
      the second and third level, with their texts. */
  lemma {:induction false} ShownIff(blocks: seq<Block>, b: Block, level: nat, text: string)
    ensures b in Shown(blocks) <==> b in blocks && !b.Blank?
    ensures (level, text) in Contents(blocks) <==>
            level in {2, 3} && exists line :: Heading(line, level, text) in blocks
  {
    if blocks != [] {
      ShownIff(blocks[1..], b, level, text);
      assert blocks == [blocks[0]] + blocks[1..];
      if blocks[0].Heading? && blocks[0].level == level && blocks[0].text == text {
        assert Heading(blocks[0].line, level, text) in blocks;
      }
    }
  }
}
