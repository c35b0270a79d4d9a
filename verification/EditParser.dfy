/** The parser of SEARCH/REPLACE blocks, a printer, and the round trip between them. */
module EditParser {
  import opened Text
  import opened EditLines

  datatype Block = Block(file: string, search: string, replace: string)

  /** Lines count from 1. */
  datatype ParseError = MissingFilename(line: nat) | ExpectedDivider(line: nat) | ExpectedReplace(line: nat)

  datatype Parsed = Parsed(blocks: seq<Block>, error: Option<ParseError>)

  // ---------------------------------------------------------------- markers

  /** White space of the marker patterns. */
  const GAPS: set<char> := {' ', '\t', '\n', '\U{000C}', '\r'}

  /** How many copies of `c` a text starts with. */
  function RunLength(t: string, c: char): (n: nat)
    ensures n <= |t|
  {
    if t != "" && t[0] == c then 1 + RunLength(t[1..], c) else 0
  }

  /** Five to nine of `c`, then `word`, then `end`, then white space. */
  predicate IsMarker(t: string, c: char, word: string, end: string) {
    var k := RunLength(t, c);
    && 5 <= k <= 9 && HasPrefix(t[k..], word)
    && var rest := t[k + |word|..];
       AllIn(if end != "" && HasPrefix(rest, end) then rest[|end|..] else rest, GAPS)
  }

  predicate IsHead(t: string) {
    IsMarker(t, '<', " SEARCH", ">")
  }

  predicate IsDivider(t: string) {
    IsMarker(t, '=', "", "")
  }

  predicate IsUpdated(t: string) {
    IsMarker(t, '>', " REPLACE", "")
  }

  predicate IsAnyMarker(t: string) {
    IsHead(t) || IsDivider(t) || IsUpdated(t)
  }

  /** A line without its line ending. */
  function Bare(line: string): string {
    TrimRight(line, NEWLINES)
  }

  // ---------------------------------------------------------------- file names

  const PATH_LABEL := "path:"

  predicate HasPathLabel(s: string) {
    |s| > |PATH_LABEL| && EqualFold(s[..|PATH_LABEL|], PATH_LABEL) && TrimSpace(s[|PATH_LABEL|..]) != ""
  }

  /** A dot or a slash makes a name. */
  predicate LooksLikePath(s: string) {
    s != "" && ('.' in s || '/' in s)
  }

  function FenceName(trimmed: string): Option<string> {
    var afterFence := TrimSpace(TrimLeft(trimmed, {'`', '~'}));
    if !LooksLikePath(afterFence) then None
    else
      var candidate := TrimSpace(TrimLeft(TrimBoth(afterFence, {'`', '*', ':', ' '}), {'#'}));
      if candidate != "" then Some(candidate) else None
  }

  function PlainName(trimmed: string): Option<string> {
    var labelled := if HasPathLabel(trimmed) then TrimSpace(trimmed[|PATH_LABEL|..]) else trimmed;
    var inner := TrimSpace(TrimLeft(TrimRight(labelled, {':'}), {'#'}));
    var candidate := TrimSpace(TrimBoth(TrimBoth(inner, {'`'}), {'*'}));
    if LooksLikePath(candidate) then Some(candidate) else None
  }

  /** The name one line gives, or None when the search goes on upwards. */
  function NameOnLine(line: string): Option<string> {
    var trimmed := TrimSpace(Bare(line));
    if trimmed == "" || IsAnyMarker(trimmed) then None
    else if HasPrefix(trimmed, "```") || HasPrefix(trimmed, "~~~") then FenceName(trimmed)
    else if trimmed == "..." then None
    else PlainName(trimmed)
  }

  // ---------------------------------------------------------------- what the parser computes

  type LineTest = string -> bool

  /** What the parser asks about a line: the markers (of a line without its ending) and the name on it. */
  datatype Syntax = Syntax(isHead: LineTest, isDivider: LineTest, isUpdated: LineTest, nameOnLine: string -> Option<string>)

  const SYNTAX := Syntax(IsHead, IsDivider, IsUpdated, NameOnLine)

  /** The closest line that gives a name wins; "" when none does. */
  function NameIn(x: Syntax, preceding: seq<string>): string {
    if |preceding| == 0 then ""
    else
      match x.nameOnLine(preceding[|preceding| - 1])
      case Some(name) => name
      case None => NameIn(x, preceding[..|preceding| - 1])
  }

  /** The end of a section: its closing marker, a marker that must not stand there, or the end of the input. */
  datatype Section = Closed(at: nat) | Misplaced(at: nat) | Unclosed

  /** The section that starts at line `i`: a search section when `search`, otherwise a replace section. */
  function SectionFrom(x: Syntax, lines: seq<string>, i: nat, search: bool): (r: Section)
    ensures r.Closed? ==> i <= r.at < |lines|
    decreases |lines| - i
  {
    if i >= |lines| then Unclosed
    else
      var t := Bare(lines[i]);
      if (if search then x.isDivider(t) else x.isUpdated(t)) then Closed(i)
      else if x.isHead(t) || (if search then x.isUpdated(t) else x.isDivider(t)) then Misplaced(i)
      else SectionFrom(x, lines, i + 1, search)
  }

  function Preceding(lines: seq<string>, i: nat): seq<string>
    requires i <= |lines|
  {
    lines[if i < 3 then 0 else i - 3..i]
  }

  function Resolve(x: Syntax, lines: seq<string>, i: nat, current: string): string
    requires i <= |lines|
  {
    var name := NameIn(x, Preceding(lines, i));
    if name == "" then current else name
  }

  datatype OneBlock = OneBlock(block: Block, next: nat) | Broken(error: ParseError)

  /** One block, whose head marker is at line `i`. */
  function BlockAt(x: Syntax, lines: seq<string>, i: nat, current: string): (r: OneBlock)
    requires i < |lines|
    ensures r.OneBlock? ==> i < r.next <= |lines|
  {
    var file := Resolve(x, lines, i, current);
    if file == "" then Broken(MissingFilename(i + 1))
    else
      match SectionFrom(x, lines, i + 1, true)
      case Misplaced(at) => Broken(ExpectedDivider(at + 1))
      case Unclosed => Broken(ExpectedDivider(|lines|))
      case Closed(divider) =>
        match SectionFrom(x, lines, divider + 1, false)
        case Misplaced(at) => Broken(ExpectedReplace(at + 1))
        case Unclosed => Broken(ExpectedReplace(|lines|))
        case Closed(updated) =>
          OneBlock(Block(file, Concat(lines[i + 1..divider]), Concat(lines[divider + 1..updated])), updated + 1)
  }

  function Prepend(blocks: seq<Block>, rest: Parsed): Parsed {
    Parsed(blocks + rest.blocks, rest.error)
  }

  function BlocksFrom(x: Syntax, lines: seq<string>, i: nat, current: string): Parsed
    decreases |lines| - i
  {
    if i >= |lines| then Parsed([], None)
    else if !x.isHead(Bare(lines[i])) then BlocksFrom(x, lines, i + 1, current)
    else
      match BlockAt(x, lines, i, current)
      case Broken(e) => Parsed([], Some(e))
      case OneBlock(b, next) => Prepend([b], BlocksFrom(x, lines, next, b.file))
  }

  function ParseBlocks(content: string): Parsed {
    BlocksFrom(SYNTAX, KeepNewlines(content), 0, "")
  }

  // ---------------------------------------------------------------- the parser

  method FindFilename(x: Syntax, preceding: seq<string>) returns (name: string)
    ensures name == NameIn(x, preceding)
  {
    var j: nat := |preceding|;
    assert preceding[..|preceding|] == preceding;
    while j > 0
      invariant j <= |preceding|
      invariant NameIn(x, preceding) == NameIn(x, preceding[..j])
    {
      j := j - 1;
      assert preceding[..j + 1][..j] == preceding[..j];
      var found := x.nameOnLine(preceding[j]);
      if found.Some? {
        return found.value;
      }
    }
    name := "";
  }

  /** The loop that collects a section. */
  method CollectSection(x: Syntax, lines: seq<string>, from: nat, search: bool) returns (r: Section, text: string)
    requires from <= |lines|
    ensures r == SectionFrom(x, lines, from, search)
    ensures r.Closed? ==> text == Concat(lines[from..r.at])
  {
    text := "";
    var i := from;
    while i < |lines| && !(if search then x.isDivider(Bare(lines[i])) else x.isUpdated(Bare(lines[i])))
      invariant from <= i <= |lines|
      invariant SectionFrom(x, lines, from, search) == SectionFrom(x, lines, i, search)
      invariant text == Concat(lines[from..i])
    {
      var t := Bare(lines[i]);
      if x.isHead(t) || (if search then x.isUpdated(t) else x.isDivider(t)) {
        return Misplaced(i), text;
      }
      assert lines[from..i + 1] == lines[from..i] + [lines[i]];
      ConcatSplit(lines[from..i], [lines[i]]);
      assert [lines[i]][1..] == [] && Concat([lines[i]]) == lines[i] + "";
      text := text + lines[i];
      i := i + 1;
    }
    r := if i >= |lines| then Unclosed else Closed(i);
  }

  method ReadBlock(x: Syntax, lines: seq<string>, i: nat, current: string) returns (r: OneBlock)
    requires i < |lines|
    ensures r == BlockAt(x, lines, i, current)
  {
    var startCtx := if i < 3 then 0 else i - 3;
    var filename := FindFilename(x, lines[startCtx..i]);
    if filename == "" {
      if current == "" {
        return Broken(MissingFilename(i + 1));
      }
      filename := current;
    }
    var search, searchText := CollectSection(x, lines, i + 1, true);
    if search.Misplaced? {
      return Broken(ExpectedDivider(search.at + 1));
    } else if search.Unclosed? {
      return Broken(ExpectedDivider(|lines|));
    }
    var repl, replaceText := CollectSection(x, lines, search.at + 1, false);
    if repl.Misplaced? {
      return Broken(ExpectedReplace(repl.at + 1));
    } else if repl.Unclosed? {
      return Broken(ExpectedReplace(|lines|));
    }
    r := OneBlock(Block(filename, searchText, replaceText), repl.at + 1);
  }

  lemma PrependOne(blocks: seq<Block>, b: Block, rest: Parsed)
    ensures Prepend(blocks, Prepend([b], rest)) == Prepend(blocks + [b], rest)
  {
    assert blocks + ([b] + rest.blocks) == blocks + [b] + rest.blocks;
  }

  method ParseLines(x: Syntax, lines: seq<string>) returns (r: Parsed)
    ensures r == BlocksFrom(x, lines, 0, "")
  {
    var blocks, currentFilename, i := [], "", 0;
    ghost var all := BlocksFrom(x, lines, 0, "");
    assert [] + all.blocks == all.blocks;
    while i < |lines|
      invariant i <= |lines|
      invariant all == Prepend(blocks, BlocksFrom(x, lines, i, currentFilename))
    {
      if !x.isHead(Bare(lines[i])) {
        i := i + 1;
        continue;
      }
      var one := ReadBlock(x, lines, i, currentFilename);
      if one.Broken? {
        assert blocks + [] == blocks;
        return Parsed(blocks, Some(one.error));
      }
      PrependOne(blocks, one.block, BlocksFrom(x, lines, one.next, one.block.file));
      blocks, currentFilename, i := blocks + [one.block], one.block.file, one.next;
    }
    assert blocks + [] == blocks;
    r := Parsed(blocks, None);
  }

  method Parse(content: string) returns (r: Parsed)
    ensures r == ParseBlocks(content)
  {
    var lines := SplitKeepNewline(content);
    r := ParseLines(SYNTAX, lines);
  }

  // ---------------------------------------------------------------- the printer

  const HEAD := "<<<<<<< SEARCH\n"
  const DIVIDER := "=======\n"
  const UPDATED := ">>>>>>> REPLACE\n"

  function PrintBlock(b: Block): seq<string> {
    [b.file + "\n", HEAD] + (KeepNewlines(b.search) + ([DIVIDER] + (KeepNewlines(b.replace) + [UPDATED])))
  }

  type Layout = Block -> seq<string>

  function LayAll(lay: Layout, bs: seq<Block>): seq<string> {
    if |bs| == 0 then [] else lay(bs[0]) + LayAll(lay, bs[1..])
  }

  function PrintBlocks(bs: seq<Block>): seq<string> {
    LayAll(PrintBlock, bs)
  }

  /** Lines in which no marker stands. */
  ghost predicate Quiet(x: Syntax, lines: seq<string>) {
    forall k :: 0 <= k < |lines| ==> QuietLine(x, lines[k])
  }

  ghost predicate QuietLine(x: Syntax, line: string) {
    !x.isHead(Bare(line)) && !x.isDivider(Bare(line)) && !x.isUpdated(Bare(line))
  }

  /** The line `name` names the file `name` and nothing else. */
  ghost predicate Canonical(x: Syntax, name: string) {
    name != "" && OneLine(name) && x.nameOnLine(name + "\n") == Some(name)
  }

  ghost predicate Printable(x: Syntax, b: Block) {
    Canonical(x, b.file) && PlainSections(x, b)
  }

  /** The syntax knows the printed markers, and does not take a file name for a head marker. */
  ghost predicate Suits(x: Syntax) {
    && x.isHead(Bare(HEAD)) && x.isDivider(Bare(DIVIDER)) && x.isUpdated(Bare(UPDATED))
    && forall name :: Canonical(x, name) ==> !x.isHead(Bare(name + "\n"))
  }

  // ---------------------------------------------------------------- reading printed lines

  lemma {:induction false} SectionCloses(x: Syntax, lines: seq<string>, i: nat, j: nat, search: bool)
    requires i <= j < |lines| && forall k :: i <= k < j ==> QuietLine(x, lines[k])
    requires var t := Bare(lines[j]); if search then x.isDivider(t) else x.isUpdated(t)
    ensures SectionFrom(x, lines, i, search) == Closed(j)
    decreases j - i
  {
    if i < j {
      SectionCloses(x, lines, i + 1, j, search);
    }
  }

  /** Where the pieces of a printed block with its head marker at line `h` are. */
  ghost predicate LaidBody(lines: seq<string>, h: nat, b: Block, divider: nat, updated: nat) {
    && divider == h + 1 + |KeepNewlines(b.search)| && updated == divider + 1 + |KeepNewlines(b.replace)| && updated < |lines|
    && lines[h] == HEAD && lines[divider] == DIVIDER && lines[updated] == UPDATED
    && lines[h + 1..divider] == KeepNewlines(b.search) && lines[divider + 1..updated] == KeepNewlines(b.replace)
  }

  /** The same with its name at line `o`. */
  ghost predicate Laid(lines: seq<string>, o: nat, b: Block, divider: nat, updated: nat) {
    LaidBody(lines, o + 1, b, divider, updated) && lines[o] == b.file + "\n"
  }

  /** Sections without markers, that end in a newline. */
  ghost predicate PlainSections(x: Syntax, b: Block) {
    && EndsLine(b.search) && Quiet(x, KeepNewlines(b.search))
    && EndsLine(b.replace) && Quiet(x, KeepNewlines(b.replace))
  }

  lemma PrintedIsLaid(pre: seq<string>, b: Block, post: seq<string>)
    ensures var divider := |pre| + 2 + |KeepNewlines(b.search)|;
            var updated := divider + 1 + |KeepNewlines(b.replace)|;
            Laid(pre + (PrintBlock(b) + post), |pre|, b, divider, updated) && updated + 1 == |pre| + |PrintBlock(b)|
  {
    var s, r := KeepNewlines(b.search), KeepNewlines(b.replace);
    var lines := pre + (PrintBlock(b) + post);
    var head := [b.file + "\n", HEAD];
    assert lines == pre + (head + (s + ([DIVIDER] + (r + ([UPDATED] + post)))));
    var d := |pre| + 2 + |s|;
    Slice(pre + head, s, [DIVIDER] + (r + ([UPDATED] + post)), lines);
    Slice(pre + head + s + [DIVIDER], r, [UPDATED] + post, lines);
  }

  lemma Slice(a: seq<string>, b: seq<string>, c: seq<string>, all: seq<string>)
    requires all == a + (b + c)
    ensures |all| == |a| + |b| + |c| && all[|a|..|a| + |b|] == b
    ensures |c| > 0 ==> all[|a| + |b|] == c[0]
  {
  }

  lemma NameBefore(x: Syntax, lines: seq<string>, i: nat, name: string)
    requires 0 < i <= |lines| && x.nameOnLine(lines[i - 1]) == Some(name) && name != ""
    ensures Resolve(x, lines, i, "") == name && forall current :: Resolve(x, lines, i, current) == name
  {
    var p := Preceding(lines, i);
    assert p[|p| - 1] == lines[i - 1];
  }

  /** The sections of a printed block are its own. */
  lemma LaidSections(x: Syntax, lines: seq<string>, h: nat, b: Block, divider: nat, updated: nat)
    requires Suits(x) && PlainSections(x, b) && LaidBody(lines, h, b, divider, updated)
    ensures SectionFrom(x, lines, h + 1, true) == Closed(divider)
    ensures SectionFrom(x, lines, divider + 1, false) == Closed(updated)
  {
    forall k | h + 1 <= k < divider
      ensures QuietLine(x, lines[k])
    {
      assert lines[k] == lines[h + 1..divider][k - (h + 1)];
    }
    forall k | divider + 1 <= k < updated
      ensures QuietLine(x, lines[k])
    {
      assert lines[k] == lines[divider + 1..updated][k - (divider + 1)];
    }
    SectionCloses(x, lines, h + 1, divider, true);
    SectionCloses(x, lines, divider + 1, updated, false);
  }

  /** So a block is read with its own sections, under the name found for it. */
  lemma LaidBodyAt(x: Syntax, lines: seq<string>, h: nat, b: Block, divider: nat, updated: nat, current: string)
    requires Suits(x) && PlainSections(x, b) && LaidBody(lines, h, b, divider, updated)
    requires Resolve(x, lines, h, current) == b.file != ""
    ensures BlockAt(x, lines, h, current) == OneBlock(b, updated + 1)
  {
    LaidSections(x, lines, h, b, divider, updated);
    assert Concat(lines[h + 1..divider]) == b.search by {
      KeepNewlinesIsLossless(b.search);
    }
    assert Concat(lines[divider + 1..updated]) == b.replace by {
      KeepNewlinesIsLossless(b.replace);
    }
  }

  lemma LaidBlockAt(x: Syntax, lines: seq<string>, o: nat, b: Block, divider: nat, updated: nat, current: string)
    requires Suits(x) && Printable(x, b) && Laid(lines, o, b, divider, updated)
    ensures BlockAt(x, lines, o + 1, current) == OneBlock(b, updated + 1)
  {
    NameBefore(x, lines, o + 1, b.file);
    LaidBodyAt(x, lines, o + 1, b, divider, updated, current);
  }

  /** At a printed block the parser reads the block and goes on behind it. */
  lemma ReadLaidBlock(x: Syntax, lines: seq<string>, o: nat, b: Block, divider: nat, updated: nat, current: string)
    requires Suits(x) && Printable(x, b) && Laid(lines, o, b, divider, updated)
    ensures BlocksFrom(x, lines, o, current) == Prepend([b], BlocksFrom(x, lines, updated + 1, b.file))
  {
    LaidBlockAt(x, lines, o, b, divider, updated, current);
    assert BlocksFrom(x, lines, o, current) == BlocksFrom(x, lines, o + 1, current);
  }

  /** A parser at work on some lines: what it makes of them from a line on, with a current file. */
  type Reading = (nat, string) -> Parsed

  ghost predicate ReadsLines(from: Reading, x: Syntax, lines: seq<string>) {
    forall i, current :: from(i, current) == BlocksFrom(x, lines, i, current)
  }

  /** At line `o` stands the block `b`. */
  ghost predicate ReadsBlock(from: Reading, lay: Layout, o: nat, b: Block) {
    forall current :: from(o, current) == Prepend([b], from(o + |lay(b)|, b.file))
  }

  /** Wherever a good block is laid out it is read. */
  ghost predicate ReadsLayout(from: Reading, lay: Layout, good: Block -> bool, lines: seq<string>) {
    forall pre, b, post :: good(b) && LaidOut(lay, lines, pre, b, post) ==> ReadsBlock(from, lay, |pre|, b)
  }

  ghost predicate LaidOut(lay: Layout, lines: seq<string>, pre: seq<string>, b: Block, post: seq<string>) {
    lines == pre + (lay(b) + post)
  }

  /** Blocks laid out one after the other are read one after the other; the parser is then at line `k` with some current file. */
  lemma {:induction false} ReadInTurn(from: Reading, lay: Layout, good: Block -> bool, lines: seq<string>, pre: seq<string>,
                                      bs: seq<Block>, post: seq<string>, current: string) returns (k: nat, last: string)
    requires ReadsLayout(from, lay, good, lines) && (forall i :: 0 <= i < |bs| ==> good(bs[i]))
    requires lines == pre + (LayAll(lay, bs) + post)
    ensures k == |pre| + |LayAll(lay, bs)| && from(|pre|, current) == Prepend(bs, from(k, last))
    decreases |bs|
  {
    if |bs| == 0 {
      k, last := |pre|, current;
      PrependNothing(from(|pre|, current));
    } else {
      var b, more := bs[0], LayAll(lay, bs[1..]);
      Regroup(pre, lay(b), more, post);
      Assoc(pre, lay(b), more + post);
      assert LaidOut(lay, lines, pre, b, more + post);
      assert ReadsBlock(from, lay, |pre|, b);
      k, last := ReadInTurn(from, lay, good, lines, pre + lay(b), bs[1..], post, b.file);
      PrependCons(b, bs[1..], from(k, last));
      assert [b] + bs[1..] == bs;
    }
  }

  lemma ReadsLaidBlock(from: Reading, x: Syntax, lines: seq<string>, lay: Layout, o: nat, b: Block, divider: nat, updated: nat)
    requires ReadsLines(from, x, lines)
    requires Suits(x) && Printable(x, b) && Laid(lines, o, b, divider, updated) && updated + 1 == o + |lay(b)|
    ensures ReadsBlock(from, lay, o, b)
  {
    forall current
      ensures from(o, current) == Prepend([b], from(updated + 1, b.file))
    {
      ReadLaidBlock(x, lines, o, b, divider, updated, current);
    }
  }

  lemma LaidOutIsLaid(lines: seq<string>, pre: seq<string>, b: Block, post: seq<string>)
    requires LaidOut(PrintBlock, lines, pre, b, post)
    ensures var divider := |pre| + 2 + |KeepNewlines(b.search)|;
            var updated := divider + 1 + |KeepNewlines(b.replace)|;
            Laid(lines, |pre|, b, divider, updated) && updated + 1 == |pre| + |PrintBlock(b)|
  {
    PrintedIsLaid(pre, b, post);
  }

  lemma ReadPrintedBlock(from: Reading, x: Syntax, lines: seq<string>, pre: seq<string>, b: Block, post: seq<string>)
    requires ReadsLines(from, x, lines)
    requires Suits(x) && Printable(x, b) && LaidOut(PrintBlock, lines, pre, b, post)
    ensures ReadsBlock(from, PrintBlock, |pre|, b)
  {
    var divider := |pre| + 2 + |KeepNewlines(b.search)|;
    LaidOutIsLaid(lines, pre, b, post);
    ReadsLaidBlock(from, x, lines, PrintBlock, |pre|, b, divider, divider + 1 + |KeepNewlines(b.replace)|);
  }

  lemma PrependCons(b: Block, bs: seq<Block>, end: Parsed)
    ensures Prepend([b], Prepend(bs, end)) == Prepend([b] + bs, end)
  {
    assert [b] + (bs + end.blocks) == [b] + bs + end.blocks;
  }

  lemma PrependNothing(rest: Parsed)
    ensures Prepend([], rest) == rest
  {
    assert [] + rest.blocks == rest.blocks;
  }

  // ---------------------------------------------------------------- texts and lines

  lemma {:induction false} PrintedAreLines(bs: seq<Block>)
    requires forall k :: 0 <= k < |bs| ==> Printable(SYNTAX, bs[k])
    ensures AreLines(PrintBlocks(bs))
    decreases |bs|
  {
    if |bs| > 0 {
      PrintedBlockAreLines(bs[0]);
      PrintedAreLines(bs[1..]);
    }
  }

  lemma MarkersAreLines()
    ensures IsLine(HEAD) && IsLine(DIVIDER) && IsLine(UPDATED)
  {
  }

  lemma PrintedBlockAreLines(b: Block)
    requires Printable(SYNTAX, b)
    ensures AreLines(PrintBlock(b))
  {
    MarkersAreLines();
    assert (b.file + "\n")[..|b.file|] == b.file;
    KeptAreLines(b.search, "");
    KeptAreLines(b.replace, "");
  }

  // ---------------------------------------------------------------- the syntax of the program

  lemma {:induction false} RunOf(c: char, k: nat, rest: string)
    requires rest != "" ==> rest[0] != c
    ensures RunLength(seq(k, _ => c) + rest, c) == k
    decreases k
  {
    var s := seq(k, _ => c) + rest;
    if k > 0 {
      assert s[1..] == seq(k - 1, _ => c) + rest;
      RunOf(c, k - 1, rest);
    } else {
      assert s == rest;
    }
  }

  lemma MarkerOf(c: char, word: string, end: string)
    requires word != "" ==> word[0] != c
    ensures IsMarker(seq(7, _ => c) + word, c, word, end)
  {
    RunOf(c, 7, word);
    var t := seq(7, _ => c) + word;
    assert t[7..] == word && word[..|word|] == word && t[7 + |word|..] == "";
  }

  lemma BareOf(text: string)
    requires text != "" && text[|text| - 1] !in NEWLINES
    ensures Bare(text + "\n") == text
  {
    TrimRightOf(text, "\n", NEWLINES);
  }

  lemma PrintedMarkers()
    ensures IsHead(Bare(HEAD)) && IsDivider(Bare(DIVIDER)) && IsUpdated(Bare(UPDATED))
  {
    PrintedHead();
    PrintedDivider();
    PrintedUpdated();
  }

  lemma PrintedHead()
    ensures IsHead(Bare(HEAD))
  {
    BareOf("<<<<<<< SEARCH");
    assert HEAD == "<<<<<<< SEARCH" + "\n";
    assert seq(7, _ => '<') + " SEARCH" == "<<<<<<< SEARCH";
    MarkerOf('<', " SEARCH", ">");
  }

  lemma PrintedDivider()
    ensures IsDivider(Bare(DIVIDER))
  {
    BareOf("=======");
    assert DIVIDER == "=======" + "\n";
    assert seq(7, _ => '=') + "" == "=======";
    MarkerOf('=', "", "");
  }

  lemma PrintedUpdated()
    ensures IsUpdated(Bare(UPDATED))
  {
    BareOf(">>>>>>> REPLACE");
    assert UPDATED == ">>>>>>> REPLACE" + "\n";
    assert seq(7, _ => '>') + " REPLACE" == ">>>>>>> REPLACE";
    MarkerOf('>', " REPLACE", "");
  }

  lemma NamesAreTrimmed(trimmed: string)
    ensures FenceName(trimmed).Some? ==> IsTrimmed(FenceName(trimmed).value)
    ensures PlainName(trimmed).Some? ==> IsTrimmed(PlainName(trimmed).value)
  {
    var afterFence := TrimSpace(TrimLeft(trimmed, {'`', '~'}));
    var a, b := TrimBothParts(TrimLeft(TrimBoth(afterFence, {'`', '*', ':', ' '}), {'#'}), SPACES);
    var labelled := if HasPathLabel(trimmed) then TrimSpace(trimmed[|PATH_LABEL|..]) else trimmed;
    var inner := TrimSpace(TrimLeft(TrimRight(labelled, {':'}), {'#'}));
    var c, d := TrimBothParts(TrimBoth(TrimBoth(inner, {'`'}), {'*'}), SPACES);
  }

  lemma CanonicalIsNoHead(name: string)
    requires Canonical(SYNTAX, name)
    ensures !IsHead(Bare(name + "\n"))
  {
    var trimmed := TrimSpace(Bare(name + "\n"));
    NamesAreTrimmed(trimmed);
    assert IsTrimmed(name);
    BareOf(name);
    TrimmedIsFixed(name);
  }

  lemma ProgramSyntaxSuits()
    ensures Suits(SYNTAX)
  {
    PrintedMarkers();
    forall name | Canonical(SYNTAX, name)
      ensures !IsHead(Bare(name + "\n"))
    {
      CanonicalIsNoHead(name);
    }
  }

  lemma ProgramReadsPrinted(from: Reading, lines: seq<string>, good: Block -> bool)
    requires ReadsLines(from, SYNTAX, lines) && forall b :: good(b) ==> Printable(SYNTAX, b)
    ensures ReadsLayout(from, PrintBlock, good, lines)
  {
    ProgramSyntaxSuits();
    forall pre, b, post | good(b) && LaidOut(PrintBlock, lines, pre, b, post)
      ensures ReadsBlock(from, PrintBlock, |pre|, b)
    {
      ReadPrintedBlock(from, SYNTAX, lines, pre, b, post);
    }
  }

  /** The lines of printed blocks and a text behind them, as the parser gets them. */
  lemma PrintedLines(bs: seq<Block>, tail: string) returns (k: nat, last: string)
    requires forall i :: 0 <= i < |bs| ==> Printable(SYNTAX, bs[i])
    ensures k == |PrintBlocks(bs)|
    ensures ParseBlocks(Concat(PrintBlocks(bs)) + tail)
         == Prepend(bs, BlocksFrom(SYNTAX, PrintBlocks(bs) + KeepNewlines(tail), k, last))
  {
    PrintedAreLines(bs);
    KeepNewlinesOfLines(PrintBlocks(bs), tail);
    var lines := PrintBlocks(bs) + KeepNewlines(tail);
    assert [] + lines == lines;
    var from: Reading := (i: nat, current: string) => BlocksFrom(SYNTAX, lines, i, current);
    var good := b => b in bs;
    ProgramReadsPrinted(from, lines, good);
    k, last := ReadInTurn(from, PrintBlock, good, lines, [], bs, KeepNewlines(tail), "");
    assert from(0, "") == Prepend(bs, from(k, last));
  }

  /** Printed blocks come back first and intact, whatever follows them, malformed or not. */
  lemma EarlierBlocksSurvive(bs: seq<Block>, tail: string)
    requires forall k :: 0 <= k < |bs| ==> Printable(SYNTAX, bs[k])
    ensures bs <= ParseBlocks(Concat(PrintBlocks(bs)) + tail).blocks
  {
    var k, last := PrintedLines(bs, tail);
  }

  /** Printing blocks and parsing the text gives the same blocks. */
  lemma ParseOfPrint(bs: seq<Block>)
    requires forall k :: 0 <= k < |bs| ==> Printable(SYNTAX, bs[k])
    ensures ParseBlocks(Concat(PrintBlocks(bs))) == Parsed(bs, None)
  {
    var text := Concat(PrintBlocks(bs));
    assert text + "" == text;
    var k, last := PrintedLines(bs, "");
    assert BlocksFrom(SYNTAX, PrintBlocks(bs) + KeepNewlines(""), k, last) == Parsed([], None);
    assert bs + [] == bs;
  }

  /** A plain path: no white space or decoration at its ends, no label, and a dot or a slash in it. */
  predicate PlainPath(name: string) {
    && LooksLikePath(name) && OneLine(name) && name != "..."
    && name[0] !in SPACES + {'`', '~', '*', '#', '<', '=', '>'}
    && name[|name| - 1] !in SPACES + {'`', '*', ':'}
    && !HasPathLabel(name)
  }

  lemma BareIsFixed(s: string, cut: set<char>)
    requires s != "" && s[0] !in cut && s[|s| - 1] !in cut
    ensures TrimLeft(s, cut) == s && TrimRight(s, cut) == s && TrimBoth(s, cut) == s
  {
  }

  /** Such paths name themselves. */
  lemma PlainPathIsCanonical(name: string)
    requires PlainPath(name)
    ensures Canonical(SYNTAX, name)
  {
    BareOf(name);
    TrimmedIsFixed(name);
    assert RunLength(name, '<') == RunLength(name, '=') == RunLength(name, '>') == 0;
    PrefixAt(name, "```", 0);
    PrefixAt(name, "~~~", 0);
    assert TrimRight(name, {':'}) == name && TrimLeft(name, {'#'}) == name;
    BareIsFixed(name, {'`'});
    BareIsFixed(name, {'*'});
    assert PlainName(name) == Some(name);
  }
}
