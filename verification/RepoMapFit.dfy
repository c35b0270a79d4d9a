/** The rendering of a ranked symbol list and the search for the longest prefix that fits a token budget. */
module RepoMapFit {
  import opened RepoMapTypes
  import opened Decimal
  import opened Text

  datatype Block = Block(file: string, lines: seq<string>)

  function SymbolLine(s: Symbol): string {
    if s.endLine > s.line && s.endLine != 0 then
      "- " + s.kind + " " + s.name + " (line " + PrintInt(s.line) + "-" + PrintInt(s.endLine) + ")"
    else
      "- " + s.kind + " " + s.name + " (line " + PrintInt(s.line) + ")"
  }

  /** A line reads "- kind name (line from)", or "(line from-to)" when the symbol ends on a later line; both numbers can be read
      back. */
  lemma SymbolLineMeaning(s: Symbol)
    requires -MAX_INT <= s.line <= MAX_INT && -MAX_INT <= s.endLine <= MAX_INT
    ensures exists from, to ::
              && Atoi(from) == Some(s.line) && Atoi(to) == Some(s.endLine)
              && SymbolLine(s) == "- " + s.kind + " " + s.name + " (line "
                                  + (if s.endLine != 0 && s.endLine > s.line then from + "-" + to else from) + ")"
  {
    var from, to := PrintInt(s.line), PrintInt(s.endLine);
    AtoiOfPrint(s.line);
    AtoiOfPrint(s.endLine);
    assert "- " + s.kind + " " + s.name + " (line " + (from + "-" + to) + ")"
        == "- " + s.kind + " " + s.name + " (line " + from + "-" + to + ")";
  }

  // ---------------------------------------------------------------- grouping

  /** The block of a file, or the number of blocks. */
  function IndexOf(blocks: seq<Block>, file: string): (k: nat)
    ensures k <= |blocks|
  {
    if |blocks| == 0 || blocks[0].file == file then 0 else 1 + IndexOf(blocks[1..], file)
  }

  lemma {:induction false} IndexOfMeaning(blocks: seq<Block>, file: string)
    ensures var k := IndexOf(blocks, file);
            && (k < |blocks| ==> blocks[k].file == file)
            && (forall i :: 0 <= i < k ==> blocks[i].file != file)
  {
    if |blocks| > 0 && blocks[0].file != file {
      IndexOfMeaning(blocks[1..], file);
      assert forall i :: 1 <= i < |blocks| ==> blocks[i] == blocks[1..][i - 1];
    }
  }

  function AddLine(blocks: seq<Block>, file: string, line: string): seq<Block> {
    var k := IndexOf(blocks, file);
    if k < |blocks| then blocks[k := Block(blocks[k].file, blocks[k].lines + [line])] else blocks + [Block(file, [line])]
  }

  function AddSymbol(blocks: seq<Block>, s: Symbol): seq<Block> {
    AddLine(blocks, s.file, SymbolLine(s))
  }

  function Blocks(ranked: seq<ScoredSymbol>, k: nat): seq<Block>
    requires k <= |ranked|
  {
    if k == 0 then [] else AddSymbol(Blocks(ranked, k - 1), ranked[k - 1].symbol)
  }

  /** The lines of one file among the first `k` symbols, in rank order. */
  function LinesOf(ranked: seq<ScoredSymbol>, k: nat, file: string): seq<string>
    requires k <= |ranked|
  {
    if k == 0 then []
    else if ranked[k - 1].symbol.file == file then LinesOf(ranked, k - 1, file) + [SymbolLine(ranked[k - 1].symbol)]
    else LinesOf(ranked, k - 1, file)
  }

  /** The files of the first `k` symbols, each where it first appears. */
  function FilesOf(ranked: seq<ScoredSymbol>, k: nat): seq<string>
    requires k <= |ranked|
  {
    if k == 0 then []
    else
      var files := FilesOf(ranked, k - 1);
      if ranked[k - 1].symbol.file in files then files else files + [ranked[k - 1].symbol.file]
  }

  lemma {:induction false} FilesOnce(ranked: seq<ScoredSymbol>, k: nat)
    requires k <= |ranked|
    ensures forall i, j :: 0 <= i < j < |FilesOf(ranked, k)| ==> FilesOf(ranked, k)[i] != FilesOf(ranked, k)[j]
  {
    if k > 0 {
      FilesOnce(ranked, k - 1);
    }
  }

  /** One block for each file, in order, with the lines of that file. */
  ghost predicate Groups(blocks: seq<Block>, files: seq<string>, linesOf: string -> seq<string>) {
    |blocks| == |files| && forall i :: 0 <= i < |blocks| ==> blocks[i] == Block(files[i], linesOf(files[i]))
  }

  lemma AddLineGroups(blocks: seq<Block>, files: seq<string>, linesOf: string -> seq<string>, file: string, line: string,
                      after: string -> seq<string>)
    requires Groups(blocks, files, linesOf) && (forall i, j :: 0 <= i < j < |files| ==> files[i] != files[j])
    requires file !in files ==> linesOf(file) == []
    requires after(file) == linesOf(file) + [line] && forall f :: f != file ==> after(f) == linesOf(f)
    ensures Groups(AddLine(blocks, file, line), if file in files then files else files + [file], after)
  {
    IndexOfMeaning(blocks, file);
    var at := IndexOf(blocks, file);
    if at < |blocks| {
      assert files[at] == file;
    } else {
      assert forall i :: 0 <= i < |files| ==> files[i] == blocks[i].file;
    }
  }

  /** The lines by file, as a function. */
  function LinesBy(ranked: seq<ScoredSymbol>, k: nat): string -> seq<string>
    requires k <= |ranked|
  {
    file => LinesOf(ranked, k, file)
  }

  /** The blocks are the files in the order of their first appearance, with exactly their own lines in rank order. */
  lemma {:induction false} BlocksGroupByFile(ranked: seq<ScoredSymbol>, k: nat)
    requires k <= |ranked|
    ensures Groups(Blocks(ranked, k), FilesOf(ranked, k), LinesBy(ranked, k))
  {
    if k > 0 {
      var s, files := ranked[k - 1].symbol, FilesOf(ranked, k - 1);
      BlocksGroupByFile(ranked, k - 1);
      FilesOnce(ranked, k - 1);
      if s.file !in files {
        LinesOfNewFile(ranked, k - 1, s.file);
      }
      AddLineGroups(Blocks(ranked, k - 1), files, LinesBy(ranked, k - 1), s.file, SymbolLine(s), LinesBy(ranked, k));
    }
  }

  lemma {:induction false} LinesOfNewFile(ranked: seq<ScoredSymbol>, k: nat, file: string)
    requires k <= |ranked| && file !in FilesOf(ranked, k)
    ensures LinesOf(ranked, k, file) == []
  {
    if k > 0 {
      LinesOfNewFile(ranked, k - 1, file);
      assert ranked[k - 1].symbol.file in FilesOf(ranked, k);
    }
  }

  // ---------------------------------------------------------------- rendering

  function RenderLines(lines: seq<string>): string {
    if |lines| == 0 then "" else lines[0] + "\n" + RenderLines(lines[1..])
  }

  function RenderBlock(b: Block): string {
    "## " + b.file + "\n" + RenderLines(b.lines) + "\n"
  }

  function RenderBlocks(blocks: seq<Block>): string {
    if |blocks| == 0 then "" else RenderBlock(blocks[0]) + RenderBlocks(blocks[1..])
  }

  function Rendering(ranked: seq<ScoredSymbol>, prefix: int): string {
    var k := if prefix > |ranked| then |ranked| else prefix;
    if k <= 0 then "" else RenderBlocks(Blocks(ranked, k))
  }

  /** The lines of a rendering: for each block its heading, its own lines and a blank one. */
  function LinesOfBlocks(blocks: seq<Block>): seq<string> {
    if |blocks| == 0 then [] else ["## " + blocks[0].file] + blocks[0].lines + [""] + LinesOfBlocks(blocks[1..])
  }

  lemma {:induction false} SplitLinesOf(lines: seq<string>, rest: string)
    requires OneLines(lines)
    ensures Split(RenderLines(lines) + rest) == lines + Split(rest)
  {
    if |lines| == 0 {
      assert "" + rest == rest && [] + Split(rest) == Split(rest);
    } else {
      SplitLinesOf(lines[1..], rest);
      SplitOneLine(lines[0], RenderLines(lines[1..]) + rest);
      assert RenderLines(lines) + rest == lines[0] + "\n" + (RenderLines(lines[1..]) + rest);
      assert [lines[0]] + (lines[1..] + Split(rest)) == lines + Split(rest);
    }
  }

  lemma SplitOneLine(line: string, rest: string)
    requires OneLine(line)
    ensures Split(line + "\n" + rest) == [line] + Split(rest)
  {
    assert line + "\n" + rest == line + ("\n" + rest);
    SplitFromLine(line, "\n" + rest, "");
    assert "" + line == line && ("\n" + rest)[1..] == rest;
  }

  /** Split at its newlines the rendering gives exactly these lines. */
  lemma {:induction false} RenderingLines(blocks: seq<Block>)
    requires forall k :: 0 <= k < |blocks| ==> OneLine(blocks[k].file) && OneLines(blocks[k].lines)
    ensures Split(RenderBlocks(blocks)) == LinesOfBlocks(blocks) + [""]
  {
    if |blocks| > 0 {
      var b, more := blocks[0], LinesOfBlocks(blocks[1..]);
      RenderingLines(blocks[1..]);
      BlockLines(b, RenderBlocks(blocks[1..]));
      Assoc(["## " + b.file] + b.lines + [""], more, [""]);
    }
  }

  lemma BlockLines(b: Block, rest: string)
    requires OneLine(b.file) && OneLines(b.lines)
    ensures Split(RenderBlock(b) + rest) == ["## " + b.file] + b.lines + [""] + Split(rest)
  {
    var heading, lines := "## " + b.file, RenderLines(b.lines);
    assert RenderBlock(b) + rest == heading + "\n" + (lines + ("\n" + rest));
    SplitOneLine(heading, lines + ("\n" + rest));
    SplitLinesOf(b.lines, "\n" + rest);
    assert "" + "\n" + rest == "\n" + rest;
    SplitOneLine("", rest);
    assert [heading] + (b.lines + ([""] + Split(rest))) == [heading] + b.lines + [""] + Split(rest);
  }

  lemma {:induction false} RenderLinesAppend(lines: seq<string>, line: string)
    ensures RenderLines(lines + [line]) == RenderLines(lines) + (line + "\n")
  {
    if |lines| == 0 {
      assert lines + [line] == [line] && [line][1..] == [];
      assert RenderLines([line]) == line + "\n" + "";
    } else {
      assert (lines + [line])[1..] == lines[1..] + [line];
      RenderLinesAppend(lines[1..], line);
    }
  }

  lemma {:induction false} RenderBlocksAppend(blocks: seq<Block>, b: Block)
    ensures RenderBlocks(blocks + [b]) == RenderBlocks(blocks) + RenderBlock(b)
  {
    if |blocks| == 0 {
      assert blocks + [b] == [b] && [b][1..] == [];
      assert RenderBlocks([b]) == RenderBlock(b) + "";
    } else {
      assert (blocks + [b])[1..] == blocks[1..] + [b];
      RenderBlocksAppend(blocks[1..], b);
    }
  }

  lemma {:induction false} RenderBlocksUpdate(blocks: seq<Block>, k: nat, b: Block)
    requires k < |blocks|
    ensures |RenderBlocks(blocks[k := b])| == |RenderBlocks(blocks)| - |RenderBlock(blocks[k])| + |RenderBlock(b)|
  {
    if k == 0 {
      assert blocks[k := b][1..] == blocks[1..];
    } else {
      assert blocks[k := b][1..] == blocks[1..][k - 1 := b];
      RenderBlocksUpdate(blocks[1..], k - 1, b);
    }
  }

  /** One more symbol makes the rendering longer, whether it joins a block or opens one. */
  lemma AddLineGrows(blocks: seq<Block>, file: string, line: string)
    ensures |RenderBlocks(AddLine(blocks, file, line))| > |RenderBlocks(blocks)|
  {
    var k := IndexOf(blocks, file);
    if k < |blocks| {
      RenderLinesAppend(blocks[k].lines, line);
      RenderBlocksUpdate(blocks, k, Block(blocks[k].file, blocks[k].lines + [line]));
    } else {
      RenderBlocksAppend(blocks, Block(file, [line]));
    }
  }

  ghost predicate GrowsAt(length: nat -> nat, i: nat) {
    length(i) < length(i + 1)
  }

  lemma {:induction false} GrowsUpTo(length: nat -> nat, j: nat, k: nat)
    requires j < k && forall i: nat :: i < k ==> GrowsAt(length, i)
    ensures length(j) < length(k)
  {
    assert GrowsAt(length, k - 1);
    if j < k - 1 {
      GrowsUpTo(length, j, k - 1);
    }
  }

  function LengthOf(ranked: seq<ScoredSymbol>): nat -> nat {
    (k: nat) => |Rendering(ranked, k)|
  }

  lemma OneMoreSymbolGrows(ranked: seq<ScoredSymbol>, k: nat)
    requires k < |ranked|
    ensures GrowsAt(LengthOf(ranked), k)
  {
    AddLineGrows(Blocks(ranked, k), ranked[k].symbol.file, SymbolLine(ranked[k].symbol));
  }

  /** Longer prefixes render longer. */
  lemma RenderingGrows(ranked: seq<ScoredSymbol>, j: nat, k: nat)
    requires j < k <= |ranked|
    ensures |Rendering(ranked, j)| < |Rendering(ranked, k)|
  {
    forall i: nat | i < k
      ensures GrowsAt(LengthOf(ranked), i)
    {
      OneMoreSymbolGrows(ranked, i);
    }
    GrowsUpTo(LengthOf(ranked), j, k);
    assert LengthOf(ranked)(j) == |Rendering(ranked, j)| && LengthOf(ranked)(k) == |Rendering(ranked, k)|;
  }

  /** The index of each file's block, kept in step with the blocks. */
  ghost predicate Indexes(fileIdx: map<string, nat>, blocks: seq<Block>) {
    && (forall f :: f in fileIdx ==> fileIdx[f] < |blocks| && IndexOf(blocks, f) == fileIdx[f])
    && (forall f :: f !in fileIdx ==> IndexOf(blocks, f) == |blocks|)
  }

  lemma {:induction false} IndexOfSame(a: seq<Block>, b: seq<Block>, file: string)
    requires |a| == |b| && forall i :: 0 <= i < |a| ==> a[i].file == b[i].file
    ensures IndexOf(a, file) == IndexOf(b, file)
  {
    if |a| > 0 {
      IndexOfSame(a[1..], b[1..], file);
    }
  }

  lemma {:induction false} IndexOfAppend(blocks: seq<Block>, b: Block, file: string)
    ensures IndexOf(blocks + [b], file)
         == if IndexOf(blocks, file) < |blocks| then IndexOf(blocks, file)
            else if b.file == file then |blocks| else |blocks| + 1
  {
    if |blocks| > 0 {
      assert (blocks + [b])[1..] == blocks[1..] + [b];
      IndexOfAppend(blocks[1..], b, file);
    }
  }

  lemma IndexesOneMore(before: seq<Block>, was: map<string, nat>, file: string, line: string, blocks: seq<Block>,
                       fileIdx: map<string, nat>)
    requires Indexes(was, before)
    requires if file in was then fileIdx == was && blocks == before[was[file] :=
                 Block(before[was[file]].file, before[was[file]].lines + [line])]
             else fileIdx == was[file := |before|] && blocks == before + [Block(file, [] + [line])]
    ensures Indexes(fileIdx, blocks) && blocks == AddLine(before, file, line)
  {
    assert [] + [line] == [line];
    forall f
      ensures f in fileIdx ==> fileIdx[f] < |blocks| && IndexOf(blocks, f) == fileIdx[f]
      ensures f !in fileIdx ==> IndexOf(blocks, f) == |blocks|
    {
      if file in was {
        IndexOfSame(before, blocks, f);
      } else {
        IndexOfAppend(before, Block(file, [] + [line]), f);
      }
    }
  }

  /** The body of the first loop of Render. */
  method PlaceLine(blocks0: seq<Block>, fileIdx0: map<string, nat>, file: string, line: string)
    returns (blocks: seq<Block>, fileIdx: map<string, nat>)
    requires Indexes(fileIdx0, blocks0)
    ensures Indexes(fileIdx, blocks) && blocks == AddLine(blocks0, file, line)
  {
    blocks, fileIdx := blocks0, fileIdx0;
    if file !in fileIdx {
      fileIdx := fileIdx[file := |blocks|];
      blocks := blocks + [Block(file, [])];
    }
    var idx := fileIdx[file];
    blocks := blocks[idx := Block(blocks[idx].file, blocks[idx].lines + [line])];
    IndexesOneMore(blocks0, fileIdx0, file, line, blocks, fileIdx);
  }

  /** The first loop of Render. */
  method GroupByFile(ranked: seq<ScoredSymbol>, prefix: nat) returns (blocks: seq<Block>)
    requires prefix <= |ranked|
    ensures blocks == Blocks(ranked, prefix)
  {
    blocks := [];
    var fileIdx: map<string, nat> := map[];
    for i := 0 to prefix
      invariant blocks == Blocks(ranked, i) && Indexes(fileIdx, blocks)
    {
      var s := ranked[i].symbol;
      blocks, fileIdx := PlaceLine(blocks, fileIdx, s.file, SymbolLine(s));
    }
  }

  method WriteBlock(b: Block) returns (text: string)
    ensures text == RenderBlock(b)
  {
    text := "## " + b.file + "\n";
    for j := 0 to |b.lines|
      invariant "## " + b.file + "\n" + RenderLines(b.lines) == text + RenderLines(b.lines[j..])
    {
      assert b.lines[j..][0] == b.lines[j] && b.lines[j..][1..] == b.lines[j + 1..];
      text := text + (b.lines[j] + "\n");
    }
    assert text + "" == text;
    text := text + "\n";
  }

  /** The second loop of Render. */
  method WriteBlocks(blocks: seq<Block>) returns (r: string)
    ensures r == RenderBlocks(blocks)
  {
    r := "";
    for i := 0 to |blocks|
      invariant RenderBlocks(blocks) == r + RenderBlocks(blocks[i..])
    {
      assert blocks[i..][0] == blocks[i] && blocks[i..][1..] == blocks[i + 1..];
      var text := WriteBlock(blocks[i]);
      r := r + text;
    }
    assert r + "" == r;
  }

  method Render(ranked: seq<ScoredSymbol>, prefix0: int) returns (r: string)
    ensures r == Rendering(ranked, prefix0)
  {
    var prefix := prefix0;
    if prefix > |ranked| {
      prefix := |ranked|;
    }
    if prefix <= 0 || |ranked| == 0 {
      return "";
    }
    var blocks := GroupByFile(ranked, prefix);
    r := WriteBlocks(blocks);
  }

  // ---------------------------------------------------------------- the search

  /** Four characters a token. */
  function EstimateTokens(s: string): nat {
    |s| / 4
  }

  predicate Fits(ranked: seq<ScoredSymbol>, k: nat, maxTokens: int) {
    EstimateTokens(Rendering(ranked, k)) <= maxTokens
  }

  /** Four characters a token, rounded down. */
  lemma FitsMeaning(ranked: seq<ScoredSymbol>, k: nat, maxTokens: int)
    ensures Fits(ranked, k, maxTokens) <==> |Rendering(ranked, k)| < 4 * (maxTokens + 1)
  {
  }

  lemma FitsDownward(ranked: seq<ScoredSymbol>, j: nat, k: nat, maxTokens: int)
    requires j <= k <= |ranked| && Fits(ranked, k, maxTokens)
    ensures Fits(ranked, j, maxTokens)
  {
    if j < k {
      RenderingGrows(ranked, j, k);
    }
  }

  /** The rendering of one symbol costs a token at least. */
  lemma OneSymbolCosts(ranked: seq<ScoredSymbol>, k: nat)
    requires 0 < k <= |ranked|
    ensures EstimateTokens(Rendering(ranked, k)) > 0
  {
    if k > 1 {
      RenderingGrows(ranked, 1, k);
    }
    var s := ranked[0].symbol;
    assert Blocks(ranked, 1) == AddSymbol(Blocks(ranked, 0), s) == [Block(s.file, [SymbolLine(s)])];
    assert RenderBlocks([Block(s.file, [SymbolLine(s)])]) == RenderBlock(Block(s.file, [SymbolLine(s)])) + RenderBlocks([]);
    assert |RenderLines([SymbolLine(s)])| >= 1;
  }

  /** The rendering of the largest prefix that fits, and "" exactly when no prefix of one symbol or more does. */
  method Fit(ranked: seq<ScoredSymbol>, maxTokens: int) returns (r: string)
    ensures r == "" <==> forall k :: 1 <= k <= |ranked| ==> !Fits(ranked, k, maxTokens)
    ensures r != "" ==> exists best :: 1 <= best <= |ranked| && r == Rendering(ranked, best) && Fits(ranked, best, maxTokens)
                          && forall k :: best < k <= |ranked| ==> !Fits(ranked, k, maxTokens)
  {
    if |ranked| == 0 || maxTokens <= 0 {
      forall k | 1 <= k <= |ranked|
        ensures !Fits(ranked, k, maxTokens)
      {
        OneSymbolCosts(ranked, k);
      }
      return "";
    }
    var one := Render(ranked, 1);
    if EstimateTokens(one) > maxTokens {
      forall k | 1 <= k <= |ranked|
        ensures !Fits(ranked, k, maxTokens)
      {
        if Fits(ranked, k, maxTokens) {
          FitsDownward(ranked, 1, k, maxTokens);
        }
      }
      return "";
    }
    var lo, hi, best := 1, |ranked|, 1;
    while lo <= hi
      invariant 1 <= lo <= hi + 1 <= |ranked| + 1 && 1 <= best <= |ranked|
      invariant best == lo - 1 || (lo == 1 && best == 1)
      invariant Fits(ranked, best, maxTokens)
      invariant forall k :: hi < k <= |ranked| ==> !Fits(ranked, k, maxTokens)
      decreases hi - lo
    {
      var mid := (lo + hi) / 2;
      var out := Render(ranked, mid);
      if EstimateTokens(out) <= maxTokens {
        best := mid;
        lo := mid + 1;
      } else {
        forall k | mid <= k <= |ranked|
          ensures !Fits(ranked, k, maxTokens)
        {
          if Fits(ranked, k, maxTokens) {
            FitsDownward(ranked, mid, k, maxTokens);
          }
        }
        hi := mid - 1;
      }
    }
    assert best == hi || hi == 0;
    assert Fits(ranked, 1, maxTokens);
    r := Render(ranked, best);
    OneSymbolCosts(ranked, best);
  }
}
