/** The patch language as it may be written: any mix of body lines, chunks without their context line, blank lines, white space
    around markers and paths; and what the parser makes of it. */
module PatchGrammar {
  import opened Text
  import opened PatchTypes
  import opened PatchParser

  // ---------------------------------------------------------------- one chunk

  /** A chunk as written: blank lines, the context line or none, body lines, and whether the end-of-file mark follows. */
  datatype ChunkText = ChunkText(blanks: seq<string>, context: Option<string>, body: seq<string>, eof: bool)

  predicate IsBodyLine(line: string) {
    line == "" || line[0] in {' ', '+', '-'}
  }

  predicate AreBodyLines(body: seq<string>) {
    forall k :: 0 <= k < |body| ==> IsBodyLine(body[k])
  }

  predicate AreBlank(lines: seq<string>) {
    forall k :: 0 <= k < |lines| ==> IsBlank(lines[k])
  }

  /** The texts of the body lines that are empty or carry one of the marks. */
  function Kept(marks: set<char>, body: seq<string>): seq<string> {
    if |body| == 0 then []
    else
      (if body[0] == "" then [""] else if body[0][0] in marks then [body[0][1..]] else []) + Kept(marks, body[1..])
  }

  function ContextLines(context: Option<string>): seq<string> {
    match context
    case None => []
    case Some("") => ["@@"]
    case Some(text) => ["@@ " + text]
  }

  function MarkLines(eof: bool): seq<string> {
    if eof then ["*** End of File"] else []
  }

  /** The chunk's lines but for the blank ones before it. */
  function Lines(t: ChunkText): seq<string> {
    ContextLines(t.context) + (t.body + MarkLines(t.eof))
  }

  /** Empty and context lines are both old and new. */
  function Meant(t: ChunkText): UpdateChunk {
    UpdateChunk(if t.context.None? then "" else t.context.value, Kept({' ', '-'}, t.body), Kept({' ', '+'}, t.body), t.eof)
  }

  lemma {:induction false} ReadBody(body: seq<string>, rest: seq<string>, parsed: nat, c: UpdateChunk, lineNumber: nat)
    requires AreBodyLines(body)
    ensures ChunkBody(body + rest, parsed, c, lineNumber)
         == ChunkBody(rest, parsed + |body|,
                      c.(oldLines := c.oldLines + Kept({' ', '-'}, body), newLines := c.newLines + Kept({' ', '+'}, body)),
                      lineNumber)
    decreases |body|
  {
    var lines := body + rest;
    if |body| == 0 {
      assert lines == rest && c.oldLines + [] == c.oldLines && c.newLines + [] == c.newLines;
    } else {
      var line, more := body[0], body[1..];
      assert IsBodyLine(line) && lines[0] == line && lines[1..] == more + rest;
      assert EOF_MARKER[0] == '*';
      var text := if line == "" then "" else line[1..];
      var isOld, isNew := line == "" || line[0] != '+', line == "" || line[0] != '-';
      var next := if isOld then AddOld(c, text) else c;
      next := if isNew then AddNew(next, text) else next;
      ReadBody(more, rest, parsed + 1, next, lineNumber);
      Assoc(c.oldLines, [text], Kept({' ', '-'}, more));
      Assoc(c.newLines, [text], Kept({' ', '+'}, more));
      assert [] + Kept({' ', '-'}, more) == Kept({' ', '-'}, more) && [] + Kept({' ', '+'}, more) == Kept({' ', '+'}, more);
    }
  }

  /** A body, and behind it the mark or a line that stops it. */
  lemma ReadMarkedBody(body: seq<string>, eof: bool, rest: seq<string>, context: string, lineNumber: nat)
    requires AreBodyLines(body) && |body| > 0 && (eof || ChunkStops(rest))
    ensures ChunkBody(body + (MarkLines(eof) + rest), 0, NO_CHUNK.(changeContext := context), lineNumber)
         == Ok(Parsed(UpdateChunk(context, Kept({' ', '-'}, body), Kept({' ', '+'}, body), eof), |body + MarkLines(eof)|))
  {
    var c := UpdateChunk(context, Kept({' ', '-'}, body), Kept({' ', '+'}, body), false);
    ReadBody(body, MarkLines(eof) + rest, 0, NO_CHUNK.(changeContext := context), lineNumber);
    assert [] + c.oldLines == c.oldLines && [] + c.newLines == c.newLines;
    if eof {
      assert (["*** End of File"] + rest)[0] == EOF_MARKER;
    } else {
      assert [] + rest == rest;
    }
  }

  lemma ReadContextLine(context: string)
    ensures ContextLines(Some(context)) == [HeaderLine(context)] && ChunkHeader(HeaderLine(context)) == Some(context)
  {
    ReadHeader(context);
  }

  /** A chunk is read whatever mix of lines its body is; without its context line only where that may be missing. */
  lemma ReadChunkText(t: ChunkText, rest: seq<string>, lineNumber: nat, first: bool)
    requires AreBodyLines(t.body) && |t.body| > 0 && (t.eof || ChunkStops(rest))
    ensures Chunk(Lines(t) + rest, lineNumber, first)
         == if t.context.None? && !first then Err(InvalidHunk(lineNumber)) else Ok(Parsed(Meant(t), |Lines(t)|))
  {
    var lines, behind := Lines(t) + rest, t.body + (MarkLines(t.eof) + rest);
    Assoc(t.body, MarkLines(t.eof), rest);
    ReadMarkedBody(t.body, t.eof, rest, Meant(t).changeContext, lineNumber);
    if t.context.Some? {
      ReadContextLine(t.context.value);
      assert lines[0] == HeaderLine(t.context.value) && lines[1..] == behind;
      ChunkFromBody(lines, lineNumber, first, t.context.value, Parsed(Meant(t), |t.body + MarkLines(t.eof)|));
    } else {
      assert lines == behind && lines[0] == t.body[0];
      BodyLineIsNoHeader(t.body[0]);
    }
  }

  lemma BodyLineIsNoHeader(line: string)
    requires IsBodyLine(line)
    ensures ChunkHeader(line) == None
  {
    if HasPrefix(line, CONTEXT) {
      PrefixAt(line, CONTEXT, 0);
    }
  }

  /** A context line, or the end-of-file mark right behind one, makes no chunk. */
  lemma EmptyChunkFails(context: string, rest: seq<string>, lineNumber: nat, first: bool)
    requires |rest| == 0 || (rest[0] != "" && rest[0][0] !in {' ', '+', '-'})
    ensures Chunk(ContextLines(Some(context)) + rest, lineNumber, first) == Err(InvalidHunk(lineNumber + 1))
  {
    var lines := ContextLines(Some(context)) + rest;
    ReadContextLine(context);
    assert lines[0] == HeaderLine(context) && lines[1..] == rest;
  }

  // ---------------------------------------------------------------- blank lines between items

  lemma {:induction false} SkipBlanks<T(!new)>(item: ItemParser<T>, untilStar: bool, blanks: seq<string>, lines: seq<string>,
                                               lineNumber: nat, first: bool)
    requires Progresses(item) && AreBlank(blanks)
    ensures Many(item, untilStar, blanks + lines, lineNumber, first)
         == After([], |blanks|, Many(item, untilStar, lines, lineNumber + |blanks|, first))
    decreases |blanks|
  {
    var all := blanks + lines;
    if |blanks| == 0 {
      assert all == lines;
      AfterNothing(Many(item, untilStar, lines, lineNumber, first));
    } else {
      var more := Many(item, untilStar, lines, lineNumber + |blanks|, first);
      assert all[0] == blanks[0] && all[1..] == blanks[1..] + lines;
      SkipBlanks(item, untilStar, blanks[1..], lines, lineNumber + 1, first);
      var none: seq<T> := [];
      AfterAfter(none, none, 1, |blanks| - 1, more);
      assert none + none == none;
    }
  }

  /** An item behind blank lines, and what follows it. */
  lemma ReadOne<T(!new)>(item: ItemParser<T>, untilStar: bool, blanks: seq<string>, head: seq<string>, tail: seq<string>,
                         x: T, lineNumber: nat, first: bool)
    requires Progresses(item) && AreBlank(blanks)
    requires |head| > 0 && !IsBlank(head[0]) && (untilStar ==> head[0][0] != '*')
    requires item(head + tail, lineNumber + |blanks|, first) == Ok(Parsed(x, |head|))
    ensures var k := |blanks + head|;
            Many(item, untilStar, blanks + head + tail, lineNumber, first)
            == After([x], k, Many(item, untilStar, tail, lineNumber + k, false))
  {
    Assoc(blanks, head, tail);
    var more := Many(item, untilStar, tail, lineNumber + |blanks| + |head|, false);
    SkipBlanks(item, untilStar, blanks, head + tail, lineNumber, first);
    assert (head + tail)[0] == head[0] && (head + tail)[|head|..] == tail;
    AfterAfter([], [x], |blanks|, |head|, more);
    assert [] + [x] == [x];
  }

  // ---------------------------------------------------------------- items in a row

  /** The reader takes `s`, written in front of `tail`, off the front and goes on behind it. */
  ghost predicate Takes<S(!new), T(!new)>(many: ManyReader<T>, lay: S -> seq<string>, meant: S -> T, s: S, tail: seq<string>,
                                          lineNumber: nat, first: bool)
  {
    many(lay(s) + tail, lineNumber, first) == After([meant(s)], |lay(s)|, many(tail, lineNumber + |lay(s)|, false))
  }

  ghost predicate TakesAll<S(!new), T(!new)>(many: ManyReader<T>, lay: S -> seq<string>, meant: S -> T, ss: seq<S>,
                                             rest: seq<string>, first: bool)
  {
    |ss| == 0 || (
      && (forall n: nat :: Takes(many, lay, meant, ss[0], PrintAll(lay, ss[1..]) + rest, n, first))
      && TakesAll(many, lay, meant, ss[1..], rest, false))
  }

  function AllMeant<S, T>(meant: S -> T, ss: seq<S>): (r: seq<T>)
    ensures |r| == |ss|
  {
    if |ss| == 0 then [] else [meant(ss[0])] + AllMeant(meant, ss[1..])
  }

  lemma {:induction false} ReadInRow<S(!new), T(!new)>(many: ManyReader<T>, lay: S -> seq<string>, meant: S -> T, ss: seq<S>,
                                                       rest: seq<string>, lineNumber: nat, first: bool)
    requires TakesAll(many, lay, meant, ss, rest, first)
    ensures var k := |PrintAll(lay, ss)|;
            many(PrintAll(lay, ss) + rest, lineNumber, first)
            == After(AllMeant(meant, ss), k, many(rest, lineNumber + k, first && |ss| == 0))
    decreases |ss|
  {
    if |ss| == 0 {
      assert PrintAll(lay, ss) + rest == rest;
      AfterNothing(many(rest, lineNumber, first));
    } else {
      var head, more := lay(ss[0]), PrintAll(lay, ss[1..]);
      Assoc(head, more, rest);
      assert Takes(many, lay, meant, ss[0], more + rest, lineNumber, first);
      ReadInRow(many, lay, meant, ss[1..], rest, lineNumber + |head|, false);
      AfterAfter([meant(ss[0])], AllMeant(meant, ss[1..]), |head|, |more|, many(rest, lineNumber + |head| + |more|, false));
    }
  }

  /** Items in a row, and then an error. */
  lemma FailsInRow<S(!new), T(!new)>(many: ManyReader<T>, lay: S -> seq<string>, meant: S -> T, ss: seq<S>, bad: seq<string>,
                                     lineNumber: nat, first: bool, e: ParseError)
    requires TakesAll(many, lay, meant, ss, bad, first)
    requires many(bad, lineNumber + |PrintAll(lay, ss)|, first && |ss| == 0) == Err(e)
    ensures many(PrintAll(lay, ss) + bad, lineNumber, first) == Err(e)
  {
    ReadInRow(many, lay, meant, ss, bad, lineNumber, first);
  }

  /** One item behind blank lines is taken. */
  lemma TakenBehindBlanks<S(!new), T(!new)>(item: ItemParser<T>, untilStar: bool, lay: S -> seq<string>, meant: S -> T, s: S,
                                            blanks: seq<string>, head: seq<string>, tail: seq<string>, lineNumber: nat, first: bool)
    requires Progresses(item) && AreBlank(blanks) && lay(s) == blanks + head
    requires |head| > 0 && !IsBlank(head[0]) && (untilStar ==> head[0][0] != '*')
    requires item(head + tail, lineNumber + |blanks|, first) == Ok(Parsed(meant(s), |head|))
    ensures Takes(ManyBy(item, untilStar), lay, meant, s, tail, lineNumber, first)
  {
    ReadOne(item, untilStar, blanks, head, tail, meant(s), lineNumber, first);
  }

  /** Items in a row up to an end of which `j` lines are taken. */
  lemma ReadToEnd<S(!new), T(!new)>(many: ManyReader<T>, lay: S -> seq<string>, meant: S -> T, ss: seq<S>, end: seq<string>, j: nat,
                                    lineNumber: nat, first: bool)
    requires TakesAll(many, lay, meant, ss, end, first)
    requires forall n: nat, first :: many(end, n, first) == Ok(Parsed([], j))
    ensures many(PrintAll(lay, ss) + end, lineNumber, first) == Ok(Parsed(AllMeant(meant, ss), |PrintAll(lay, ss)| + j))
  {
    ReadInRow(many, lay, meant, ss, end, lineNumber, first);
    AfterEnd(AllMeant(meant, ss), |PrintAll(lay, ss)|, j);
  }

  lemma EndsBehindBlanks<T(!new)>(item: ItemParser<T>, untilStar: bool, blanks: seq<string>, rest: seq<string>,
                                  lineNumber: nat, first: bool)
    requires Progresses(item) && AreBlank(blanks) && EndsAt(item, untilStar, rest, true)
    ensures Many(item, untilStar, blanks + rest, lineNumber, first) == Ok(Parsed([], |blanks|))
  {
    SkipBlanks(item, untilStar, blanks, rest, lineNumber, first);
    EndsWithNothing(item, untilStar, rest, lineNumber + |blanks|, first);
    AfterEnd<T>([], |blanks|, 0);
  }

  lemma EndsWithNothing<T(!new)>(item: ItemParser<T>, untilStar: bool, rest: seq<string>, lineNumber: nat, first: bool)
    requires Progresses(item) && EndsAt(item, untilStar, rest, true)
    ensures Many(item, untilStar, rest, lineNumber, first) == Ok(Parsed([], 0))
  {
    assert Outcome(Many(item, untilStar, rest, lineNumber, first), true, [], 0);
  }

  lemma AfterEnd<T>(xs: seq<T>, k: nat, j: nat)
    ensures After(xs, k, Ok(Parsed([], j))) == Ok(Parsed(xs, k + j))
  {
    assert xs + [] == xs;
  }

  // ---------------------------------------------------------------- the chunks of an update

  function Written(t: ChunkText): seq<string> {
    t.blanks + Lines(t)
  }

  /** Every chunk has body lines. Blank lines stand before a chunk only at the start or behind an end-of-file mark (elsewhere they
      belong to a body). The first chunk may leave its context line out, and then does not start with a blank line. */
  predicate WellWritten(ts: seq<ChunkText>, first: bool, open: bool) {
    |ts| == 0 || (
      var t := ts[0];
      && AreBodyLines(t.body) && |t.body| > 0
      && AreBlank(t.blanks) && (t.blanks != [] ==> open)
      && (t.context.None? ==> first && !IsBlank(t.body[0]))
      && WellWritten(ts[1..], false, t.eof))
  }

  lemma ChunkTextStarts(t: ChunkText)
    requires AreBodyLines(t.body) && |t.body| > 0 && (t.context.None? ==> !IsBlank(t.body[0]))
    ensures |Lines(t)| > 0 && !IsBlank(Lines(t)[0]) && Lines(t)[0] != "" && Lines(t)[0][0] != '*'
    ensures t.context.Some? ==> ChunkStops(Lines(t))
  {
    match t.context
    case Some(context) =>
      ReadContextLine(context);
      HeaderLineStart(context);
      assert Lines(t)[0] == HeaderLine(context);
    case None =>
      assert Lines(t)[0] == t.body[0];
      TrimSpaceEmpty("");
  }

  /** The lines behind a chunk without an end-of-file mark stop its body. */
  lemma NextStops(ts: seq<ChunkText>, rest: seq<string>)
    requires WellWritten(ts, false, false) && (|ts| == 0 ==> ChunkStops(rest))
    ensures ChunkStops(PrintAll(Written, ts) + rest)
  {
    if |ts| == 0 {
      assert PrintAll(Written, ts) + rest == rest;
    } else {
      ChunkTextStarts(ts[0]);
      assert (PrintAll(Written, ts) + rest)[0] == Lines(ts[0])[0];
    }
  }

  /** One chunk, with its blank lines, in front of what stops it. */
  lemma ReadOneText(t: ChunkText, tail: seq<string>, lineNumber: nat, first: bool)
    requires AreBlank(t.blanks) && AreBodyLines(t.body) && |t.body| > 0 && (t.context.None? ==> first && !IsBlank(t.body[0]))
    requires t.eof || ChunkStops(tail)
    ensures Takes(ManyBy(Chunk, true), Written, Meant, t, tail, lineNumber, first)
  {
    ChunkTextStarts(t);
    ReadChunkText(t, tail, lineNumber + |t.blanks|, first);
    TakenBehindBlanks(Chunk, true, Written, Meant, t, t.blanks, Lines(t), tail, lineNumber, first);
  }

  lemma {:induction false} ChunksAreTaken(ts: seq<ChunkText>, rest: seq<string>, first: bool, open: bool)
    requires WellWritten(ts, first, open)
    requires |ts| > 0 && !ts[|ts| - 1].eof ==> ChunkStops(rest)
    ensures TakesAll(ManyBy(Chunk, true), Written, Meant, ts, rest, first)
    decreases |ts|
  {
    if |ts| > 0 {
      if !ts[0].eof {
        NextStops(ts[1..], rest);
      }
      forall n: nat
        ensures Takes(ManyBy(Chunk, true), Written, Meant, ts[0], PrintAll(Written, ts[1..]) + rest, n, first)
      {
        ReadOneText(ts[0], PrintAll(Written, ts[1..]) + rest, n, first);
      }
      ChunksAreTaken(ts[1..], rest, false, ts[0].eof);
    }
  }

  /** All chunks of an update, up to its end, with the blank lines behind a last end-of-file mark. */
  lemma ReadChunkTexts(ts: seq<ChunkText>, after: seq<string>, rest: seq<string>, lineNumber: nat)
    requires WellWritten(ts, true, true) && ChunksStop(rest)
    requires AreBlank(after) && (after != [] ==> |ts| > 0 && ts[|ts| - 1].eof)
    ensures Chunks(PrintAll(Written, ts) + (after + rest), lineNumber) == Ok(Parsed(AllMeant(Meant, ts), |PrintAll(Written, ts)| + |after|))
  {
    ChunksReadTexts();
    ReadTextsBy(ManyBy(Chunk, true), Written, Meant, ts, after, rest, lineNumber);
    ChunksAreMany(PrintAll(Written, ts) + (after + rest), lineNumber);
  }

  /** A chunk reader of which only this is known: it takes well-written chunks off the front, and ends at what stops them. */
  ghost predicate ReadsTexts(many: ManyReader<UpdateChunk>, lay: ChunkText -> seq<string>, meant: ChunkText -> UpdateChunk) {
    forall ts, after, rest :: Ready(ts, after, rest) ==> ReadsReady(many, lay, meant, ts, after, rest)
  }

  predicate Ready(ts: seq<ChunkText>, after: seq<string>, rest: seq<string>) {
    WellWritten(ts, true, true) && ChunksStop(rest) && AreBlank(after) && (after != [] ==> |ts| > 0 && ts[|ts| - 1].eof)
  }

  ghost predicate ReadsReady(many: ManyReader<UpdateChunk>, lay: ChunkText -> seq<string>, meant: ChunkText -> UpdateChunk,
                             ts: seq<ChunkText>, after: seq<string>, rest: seq<string>)
  {
    && TakesAll(many, lay, meant, ts, after + rest, true)
    && forall n: nat, first :: many(after + rest, n, first) == Ok(Parsed([], |after|))
  }

  lemma ReadTextsBy(many: ManyReader<UpdateChunk>, lay: ChunkText -> seq<string>, meant: ChunkText -> UpdateChunk,
                    ts: seq<ChunkText>, after: seq<string>, rest: seq<string>, lineNumber: nat)
    requires ReadsTexts(many, lay, meant) && Ready(ts, after, rest)
    ensures many(PrintAll(lay, ts) + (after + rest), lineNumber, true)
         == Ok(Parsed(AllMeant(meant, ts), |PrintAll(lay, ts)| + |after|))
  {
    assert ReadsReady(many, lay, meant, ts, after, rest);
    ReadToEnd(many, lay, meant, ts, after + rest, |after|, lineNumber, true);
  }

  lemma ChunksReadTexts()
    ensures ReadsTexts(ManyBy(Chunk, true), Written, Meant)
  {
    forall ts, after, rest | Ready(ts, after, rest)
      ensures ReadsReady(ManyBy(Chunk, true), Written, Meant, ts, after, rest)
    {
      ChunksAreReady(ts, after, rest);
    }
  }

  lemma ChunksAreMany(lines: seq<string>, lineNumber: nat)
    ensures Chunks(lines, lineNumber) == ManyBy(Chunk, true)(lines, lineNumber, true)
  {
  }

  lemma ChunksAreReady(ts: seq<ChunkText>, after: seq<string>, rest: seq<string>)
    requires Ready(ts, after, rest)
    ensures ReadsReady(ManyBy(Chunk, true), Written, Meant, ts, after, rest)
  {
    ChunksEndAt(rest);
    StopsBehind(after, rest);
    ChunksAreTaken(ts, after + rest, true, true);
    forall n: nat, first
      ensures ManyBy(Chunk, true)(after + rest, n, first) == Ok(Parsed([], |after|))
    {
      EndsBehindBlanks(Chunk, true, after, rest, n, first);
    }
  }

  lemma StopsBehind(after: seq<string>, rest: seq<string>)
    requires ChunksStop(rest)
    ensures after == [] ==> ChunkStops(after + rest)
  {
    assert after == [] ==> after + rest == rest;
  }

  /** A later chunk without its context line is an error at its first line. */
  lemma LaterChunkNeedsContext(ts: seq<ChunkText>, body: seq<string>, rest: seq<string>, lineNumber: nat)
    requires WellWritten(ts, true, true) && |ts| > 0 && ts[|ts| - 1].eof
    requires |body| > 0 && IsBodyLine(body[0]) && !IsBlank(body[0])
    ensures Chunks(PrintAll(Written, ts) + (body + rest), lineNumber) == Err(InvalidHunk(lineNumber + |PrintAll(Written, ts)|))
  {
    ChunksAreTaken(ts, body + rest, true, true);
    BodyWithoutContextFails(body, rest, lineNumber + |PrintAll(Written, ts)|);
    FailsInRow(ManyBy(Chunk, true), Written, Meant, ts, body + rest, lineNumber, true,
               InvalidHunk(lineNumber + |PrintAll(Written, ts)|));
    ChunksAreMany(PrintAll(Written, ts) + (body + rest), lineNumber);
  }

  lemma BodyWithoutContextFails(body: seq<string>, rest: seq<string>, lineNumber: nat)
    requires |body| > 0 && IsBodyLine(body[0]) && !IsBlank(body[0])
    ensures ManyBy(Chunk, true)(body + rest, lineNumber, false) == Err(InvalidHunk(lineNumber))
  {
    assert (body + rest)[0] == body[0];
    BodyLineIsNoHeader(body[0]);
    TrimSpaceEmpty("");
  }

  // ---------------------------------------------------------------- hunks

  /** A hunk as written, behind blank lines; `raw` is all that follows a marker on its line; `after` are the blank lines that its
      last end-of-file mark leaves to an update. */
  datatype HunkText =
    | AddText(blanks: seq<string>, raw: string, texts: seq<string>)
    | DeleteText(blanks: seq<string>, raw: string)
    | UpdateText(blanks: seq<string>, raw: string, move: Option<string>, chunks: seq<ChunkText>, after: seq<string>)

  function MoveText(move: Option<string>): seq<string> {
    match move case None => [] case Some(raw) => ["*** Move to: " + raw]
  }

  function FirstLine(h: HunkText): string {
    match h
    case AddText(_, raw, _) => "*** Add File: " + raw
    case DeleteText(_, raw) => "*** Delete File: " + raw
    case UpdateText(_, raw, _, _, _) => "*** Update File: " + raw
  }

  function MoreLines(h: HunkText): seq<string> {
    match h
    case AddText(_, _, texts) => Marked('+', texts)
    case DeleteText(_, _) => []
    case UpdateText(_, _, move, chunks, after) => MoveText(move) + (PrintAll(Written, chunks) + after)
  }

  function HunkLines(h: HunkText): seq<string> {
    [FirstLine(h)] + MoreLines(h)
  }

  /** Each line with a newline behind it. */
  function Contents(texts: seq<string>): string {
    if |texts| == 0 then "" else texts[0] + "\n" + Contents(texts[1..])
  }

  /** White space around a path does not count. */
  function HunkMeant(h: HunkText): Hunk {
    match h
    case AddText(_, raw, texts) => AddFile(TrimSpace(raw), Contents(texts))
    case DeleteText(_, raw) => DeleteFile(TrimSpace(raw))
    case UpdateText(_, raw, move, chunks, _) =>
      UpdateFile(TrimSpace(raw), if move.None? then "" else TrimSpace(move.value), AllMeant(Meant, chunks))
  }

  predicate IsWellWritten(h: HunkText) {
    && AreBlank(h.blanks) && !AllIn(h.raw, {' ', '\t'})
    && (h.UpdateText? ==>
          && |h.chunks| > 0 && WellWritten(h.chunks, true, true)
          && AreBlank(h.after) && (h.after != [] ==> h.chunks[|h.chunks| - 1].eof))
  }

  lemma TrimRightBehind(a: string, b: string, cut: set<char>)
    requires !AllIn(b, cut)
    ensures TrimRight(a + b, cut) == a + TrimRight(b, cut)
  {
    var tail := TrimRightParts(b, cut);
    var core := TrimRight(b, cut);
    assert core == "" ==> b == tail;
    Assoc(a, core, tail);
    TrimRightOf(a + core, tail, cut);
  }

  /** The line of a marker with something behind it. */
  lemma MarkerLine(marker: string, raw: string)
    requires marker in {ADD_FILE, DELETE_FILE, UPDATE_FILE} && !AllIn(raw, {' ', '\t'})
    ensures var header := TrimRight(marker + raw, BLANKS);
            && (forall m :: m in {ADD_FILE, DELETE_FILE, UPDATE_FILE} ==> (HasPrefix(header, m) <==> m == marker))
            && HasPrefix(header, marker) && TrimSpace(header[|marker|..]) == TrimSpace(raw)
    ensures IsHunkHeader(marker + raw) && !IsBlank(marker + raw)
  {
    var header, line := TrimRight(marker + raw, BLANKS), marker + raw;
    TrimRightBehind(marker, raw, BLANKS);
    assert header[..|marker|] == marker && header[|marker|..] == TrimRight(raw, BLANKS);
    TrimSpaceAfterTrimRight(raw);
    PrefixAt(header, ADD_FILE, 4);
    PrefixAt(header, DELETE_FILE, 4);
    PrefixAt(header, UPDATE_FILE, 4);
    assert header[4] == marker[4] && line[0] == '*' && line[4] == marker[4];
    NonBlank(line);
  }

  lemma {:induction false} PlusReads(texts: seq<string>, rest: seq<string>)
    requires |rest| == 0 || rest[0] == "" || rest[0][0] != '+'
    ensures PlusText(Marked('+', texts) + rest) == Contents(texts)
    ensures PlusLines(Marked('+', texts) + rest) == |texts|
  {
    var lines := Marked('+', texts) + rest;
    if |texts| == 0 {
      assert lines == rest;
      if |rest| > 0 {
        PrefixAt(rest[0], "+", 0);
      }
    } else {
      assert lines[0] == "+" + texts[0] && lines[1..] == Marked('+', texts[1..]) + rest;
      assert lines[0][..1] == "+" && lines[0][1..] == texts[0];
      PlusReads(texts[1..], rest);
    }
  }

  lemma BlankStartsWhite(line: string)
    requires IsBlank(line) && line != ""
    ensures line[0] in SPACES
  {
    TrimSpaceEmpty(line);
  }

  /** The first line of an update's chunks is no move line. */
  lemma ChunksAreNoMove(ts: seq<ChunkText>, rest: seq<string>)
    requires |ts| > 0 && WellWritten(ts, true, true)
    ensures |PrintAll(Written, ts)| > 0 && !HasPrefix((PrintAll(Written, ts) + rest)[0], MOVE_TO)
  {
    var line := if ts[0].blanks != [] then ts[0].blanks[0] else Lines(ts[0])[0];
    ChunkTextStarts(ts[0]);
    assert (PrintAll(Written, ts) + rest)[0] == line;
    PrefixAt(line, MOVE_TO, 0);
    if ts[0].blanks != [] && line != "" {
      BlankStartsWhite(line);
    }
  }

  /** The lines of an update behind its first one: the move line, if there is one, and lines that read as chunks. */
  lemma ReadUpdateText(path: string, move: Option<string>, behind: seq<string>, chunks: seq<UpdateChunk>, k: nat,
                       lines: seq<string>, lineNumber: nat)
    requires |behind| > 0 && !HasPrefix(behind[0], MOVE_TO) && |lines| > 0 && lines[1..] == MoveText(move) + behind
    requires Chunks(behind, lineNumber + (1 + |MoveText(move)|)) == Ok(Parsed(chunks, k)) && |chunks| > 0
    ensures UpdateHunk(path, lines, lineNumber)
         == Ok(Parsed(UpdateFile(path, if move.None? then "" else TrimSpace(move.value), chunks), 1 + |MoveText(move)| + k))
  {
    MoveLine(move, behind, lines);
    UpdateHunkOf(path, lines, lineNumber, move.Some?, chunks, k);
  }

  /** The line behind an update's first one, and what follows the move line, if that is one. */
  lemma MoveLine(move: Option<string>, behind: seq<string>, lines: seq<string>)
    requires |behind| > 0 && !HasPrefix(behind[0], MOVE_TO) && |lines| > 0 && lines[1..] == MoveText(move) + behind
    ensures |lines| > 1 && (HasPrefix(lines[1], MOVE_TO) <==> move.Some?)
    ensures move.Some? ==> lines[1][|MOVE_TO|..] == move.value
    ensures lines[1 + |MoveText(move)|..] == behind
  {
    assert lines[1] == lines[1..][0];
    if move.Some? {
      assert ("*** Move to: " + move.value)[..|MOVE_TO|] == MOVE_TO && ("*** Move to: " + move.value)[|MOVE_TO|..] == move.value;
      assert lines[2..] == lines[1..][1..] == behind;
    } else {
      assert lines[1..] == behind;
    }
  }

  lemma UpdateHunkOf(path: string, lines: seq<string>, lineNumber: nat, moved: bool, chunks: seq<UpdateChunk>, k: nat)
    requires |lines| > 1 && moved == HasPrefix(lines[1], MOVE_TO) && |chunks| > 0
    requires var n := if moved then 2 else 1; Chunks(lines[n..], lineNumber + n) == Ok(Parsed(chunks, k))
    ensures UpdateHunk(path, lines, lineNumber)
         == Ok(Parsed(UpdateFile(path, if moved then TrimSpace(lines[1][|MOVE_TO|..]) else "", chunks), (if moved then 2 else 1) + k))
  {
  }

  /** What the header tests make of a hunk's first line. */
  lemma HunkByMarker(h: HunkText, lines: seq<string>, lineNumber: nat, first: bool)
    requires IsWellWritten(h) && |lines| > 0 && lines[0] == FirstLine(h)
    ensures var r := OneHunk(lines, lineNumber, first);
            match h
            case AddText(_, raw, _) => r == Ok(Parsed(AddFile(TrimSpace(raw), PlusText(lines[1..])), 1 + PlusLines(lines[1..])))
            case DeleteText(_, raw) => r == Ok(Parsed(DeleteFile(TrimSpace(raw)), 1))
            case UpdateText(_, raw, _, _, _) => r == UpdateHunk(TrimSpace(raw), lines, lineNumber)
  {
    MarkerLine(if h.AddText? then ADD_FILE else if h.DeleteText? then DELETE_FILE else UPDATE_FILE, h.raw);
    MarkersDiffer();
    OneHunkByMarker(lines, lineNumber, first);
  }

  lemma HunkLinesSplit(h: HunkText, rest: seq<string>)
    ensures var lines := HunkLines(h) + rest; lines[0] == FirstLine(h) && lines[1..] == MoreLines(h) + rest
    ensures |HunkLines(h)| == 1 + |MoreLines(h)|
  {
  }

  /** The parser takes `h` off the front of `lines`, which are its own and some more. */
  ghost predicate IsRead(item: ItemParser<Hunk>, h: HunkText, lines: seq<string>, lineNumber: nat, first: bool) {
    item(lines, lineNumber, first) == Ok(Parsed(HunkMeant(h), 1 + |MoreLines(h)|))
  }

  lemma ReadAddText(h: HunkText, rest: seq<string>, lines: seq<string>, lineNumber: nat, first: bool)
    requires IsWellWritten(h) && h.AddText? && Stops(h, rest)
    requires |lines| > 0 && lines[0] == FirstLine(h) && lines[1..] == MoreLines(h) + rest
    ensures IsRead(OneHunk, h, lines, lineNumber, first)
  {
    HunkByMarker(h, lines, lineNumber, first);
    PlusReads(h.texts, rest);
  }

  lemma ReadDeleteText(h: HunkText, lines: seq<string>, lineNumber: nat, first: bool)
    requires IsWellWritten(h) && h.DeleteText? && |lines| > 0 && lines[0] == FirstLine(h)
    ensures IsRead(OneHunk, h, lines, lineNumber, first)
  {
    HunkByMarker(h, lines, lineNumber, first);
  }

  /** The lines of an update, and what follows it. */
  predicate UpdateLaid(raw: string, move: Option<string>, ts: seq<ChunkText>, after: seq<string>, rest: seq<string>, lines: seq<string>) {
    && |ts| > 0 && WellWritten(ts, true, true) && HunkStops(rest) && !AllIn(raw, {' ', '\t'})
    && AreBlank(after) && (after != [] ==> ts[|ts| - 1].eof)
    && |lines| > 0 && lines[0] == UPDATE_FILE + raw && lines[1..] == MoveText(move) + (PrintAll(Written, ts) + (after + rest))
  }

  ghost predicate ReadsUpdate(item: ItemParser<Hunk>, raw: string, move: Option<string>, ts: seq<ChunkText>, after: seq<string>,
                              lines: seq<string>, lineNumber: nat, first: bool)
  {
    item(lines, lineNumber, first)
    == Ok(Parsed(UpdateFile(TrimSpace(raw), if move.None? then "" else TrimSpace(move.value), AllMeant(Meant, ts)),
                 1 + |MoveText(move)| + |PrintAll(Written, ts)| + |after|))
  }

  lemma UpdateIsRead(item: ItemParser<Hunk>, h: HunkText, rest: seq<string>, lines: seq<string>, lineNumber: nat, first: bool)
    requires h.UpdateText? && ReadsUpdate(item, h.raw, h.move, h.chunks, h.after, lines, lineNumber, first)
    ensures IsRead(item, h, lines, lineNumber, first)
  {
    UpdateSplit(h, rest);
  }

  lemma ReadUpdate(h: HunkText, rest: seq<string>, lines: seq<string>, lineNumber: nat, first: bool)
    requires IsWellWritten(h) && h.UpdateText? && HunkStops(rest)
    requires |lines| > 0 && lines[0] == FirstLine(h) && lines[1..] == MoreLines(h) + rest
    ensures IsRead(OneHunk, h, lines, lineNumber, first)
  {
    assert UpdateLaid(h.raw, h.move, h.chunks, h.after, rest, lines) by {
      UpdateSplit(h, rest);
    }
    ReadUpdateLayout(h.raw, h.move, h.chunks, h.after, rest, lines, lineNumber, first);
    UpdateIsRead(OneHunk, h, rest, lines, lineNumber, first);
  }

  lemma UpdateSplit(h: HunkText, rest: seq<string>)
    requires h.UpdateText?
    ensures MoreLines(h) + rest == MoveText(h.move) + (PrintAll(Written, h.chunks) + (h.after + rest))
    ensures |MoreLines(h)| == |MoveText(h.move)| + |PrintAll(Written, h.chunks)| + |h.after|
  {
    Regroup(MoveText(h.move), PrintAll(Written, h.chunks), h.after, rest);
    Assoc(MoveText(h.move), PrintAll(Written, h.chunks) + h.after, rest);
  }

  lemma UpdateByMarker(raw: string, lines: seq<string>, lineNumber: nat, first: bool)
    requires |lines| > 0 && lines[0] == UPDATE_FILE + raw && !AllIn(raw, {' ', '\t'})
    ensures OneHunk(lines, lineNumber, first) == UpdateHunk(TrimSpace(raw), lines, lineNumber)
  {
    MarkerLine(UPDATE_FILE, raw);
    MarkersDiffer();
    OneHunkByMarker(lines, lineNumber, first);
  }

  lemma ReadsAsUpdate(item: ItemParser<Hunk>, raw: string, move: Option<string>, ts: seq<ChunkText>, after: seq<string>,
                      chunks: seq<UpdateChunk>, k: nat, lines: seq<string>, lineNumber: nat, first: bool)
    requires ReadsChunks(item, raw, move, chunks, k, lines, lineNumber, first)
    requires chunks == AllMeant(Meant, ts) && k == |PrintAll(Written, ts)| + |after|
    ensures ReadsUpdate(item, raw, move, ts, after, lines, lineNumber, first)
  {
  }

  /** The parser reads an update with these chunks, taken from `k` lines. */
  ghost predicate ReadsChunks(item: ItemParser<Hunk>, raw: string, move: Option<string>, chunks: seq<UpdateChunk>, k: nat,
                              lines: seq<string>, lineNumber: nat, first: bool)
  {
    item(lines, lineNumber, first)
    == Ok(Parsed(UpdateFile(TrimSpace(raw), if move.None? then "" else TrimSpace(move.value), chunks), 1 + |MoveText(move)| + k))
  }

  lemma ReadUpdateOver(raw: string, move: Option<string>, behind: seq<string>, chunks: seq<UpdateChunk>, k: nat,
                       lines: seq<string>, lineNumber: nat, first: bool)
    requires |behind| > 0 && !HasPrefix(behind[0], MOVE_TO) && !AllIn(raw, {' ', '\t'})
    requires |lines| > 0 && lines[0] == UPDATE_FILE + raw && lines[1..] == MoveText(move) + behind
    requires Chunks(behind, lineNumber + (1 + |MoveText(move)|)) == Ok(Parsed(chunks, k)) && |chunks| > 0
    ensures ReadsChunks(OneHunk, raw, move, chunks, k, lines, lineNumber, first)
  {
    UpdateByMarker(raw, lines, lineNumber, first);
    ReadUpdateText(TrimSpace(raw), move, behind, chunks, k, lines, lineNumber);
  }

  /** What stands behind an update's first lines reads as its chunks. */
  lemma ChunksBehind(ts: seq<ChunkText>, after: seq<string>, rest: seq<string>, lineNumber: nat)
    returns (behind: seq<string>, chunks: seq<UpdateChunk>, k: nat)
    requires |ts| > 0 && Ready(ts, after, rest)
    ensures behind == PrintAll(Written, ts) + (after + rest) && |behind| > 0 && !HasPrefix(behind[0], MOVE_TO)
    ensures chunks == AllMeant(Meant, ts) && k == |PrintAll(Written, ts)| + |after|
    ensures Chunks(behind, lineNumber) == Ok(Parsed(chunks, k))
  {
    behind, chunks, k := PrintAll(Written, ts) + (after + rest), AllMeant(Meant, ts), |PrintAll(Written, ts)| + |after|;
    ChunksAreNoMove(ts, after + rest);
    ReadChunkTexts(ts, after, rest, lineNumber);
  }

  lemma ReadUpdateLayout(raw: string, move: Option<string>, ts: seq<ChunkText>, after: seq<string>, rest: seq<string>,
                         lines: seq<string>, lineNumber: nat, first: bool)
    requires UpdateLaid(raw, move, ts, after, rest, lines)
    ensures ReadsUpdate(OneHunk, raw, move, ts, after, lines, lineNumber, first)
  {
    HunkStopStopsChunks(rest);
    var behind, chunks, k := ChunksBehind(ts, after, rest, lineNumber + (1 + |MoveText(move)|));
    ReadUpdateOver(raw, move, behind, chunks, k, lines, lineNumber, first);
    ReadsAsUpdate(OneHunk, raw, move, ts, after, chunks, k, lines, lineNumber, first);
  }

  /** A hunk is read whatever layout it is written in. */
  lemma ReadHunkText(h: HunkText, rest: seq<string>, lineNumber: nat, first: bool)
    requires IsWellWritten(h) && Stops(h, rest)
    ensures OneHunk(HunkLines(h) + rest, lineNumber, first) == Ok(Parsed(HunkMeant(h), |HunkLines(h)|))
  {
    var lines := HunkLines(h) + rest;
    HunkLinesSplit(h, rest);
    if h.AddText? {
      ReadAddText(h, rest, lines, lineNumber, first);
    } else if h.DeleteText? {
      ReadDeleteText(h, lines, lineNumber, first);
    } else {
      ReadUpdate(h, rest, lines, lineNumber, first);
    }
  }

  // ---------------------------------------------------------------- whole patches

  function WrittenHunk(h: HunkText): seq<string> {
    h.blanks + HunkLines(h)
  }

  /** Blank lines stand before a hunk only where they are not an update's. */
  predicate AreWellWritten(hs: seq<HunkText>, open: bool) {
    |hs| == 0 || (IsWellWritten(hs[0]) && (hs[0].blanks != [] ==> open) && AreWellWritten(hs[1..], !hs[0].UpdateText?))
  }

  lemma LaidStart(hs: seq<HunkText>, rest: seq<string>)
    requires |hs| > 0
    ensures var tail := PrintAll(WrittenHunk, hs) + rest;
            |tail| > 0 && tail[0] == if hs[0].blanks != [] then hs[0].blanks[0] else FirstLine(hs[0])
  {
    assert WrittenHunk(hs[0])[0] == if hs[0].blanks != [] then hs[0].blanks[0] else FirstLine(hs[0]);
  }

  lemma BlankIsNoPlus(line: string)
    requires IsBlank(line)
    ensures line == "" || line[0] != '+'
  {
    TrimSpaceEmpty(line);
  }

  /** The next hunk does not belong to one before it. */
  lemma HunkStopsHunk(h: HunkText, hs: seq<HunkText>, rest: seq<string>, tail: seq<string>)
    requires tail == PrintAll(WrittenHunk, hs) + rest && |hs| > 0 && AreWellWritten(hs, !h.UpdateText?)
    ensures Stops(h, tail)
  {
    LaidStart(hs, rest);
    FirstLineOf(hs[0]);
    if hs[0].blanks != [] {
      BlankIsNoPlus(hs[0].blanks[0]);
    }
  }

  lemma FirstLineOf(h: HunkText)
    requires IsWellWritten(h)
    ensures |HunkLines(h)| > 0 && HunkLines(h)[0] == FirstLine(h) && !IsBlank(HunkLines(h)[0]) && IsHunkHeader(FirstLine(h))
  {
    MarkerLine(if h.AddText? then ADD_FILE else if h.DeleteText? then DELETE_FILE else UPDATE_FILE, h.raw);
  }

  /** What may stand behind a hunk. */
  predicate Stops(h: HunkText, tail: seq<string>) {
    if h.UpdateText? then HunkStops(tail) else |tail| == 0 || tail[0] == "" || tail[0][0] != '+'
  }

  /** A hunk parser of which only this is known: it reads every well-written hunk, and its lines do not start with a blank one. */
  ghost predicate ReadsHunks(item: ItemParser<Hunk>, lines: HunkText -> seq<string>, meant: HunkText -> Hunk) {
    forall h, tail, n: nat, first :: IsWellWritten(h) && Stops(h, tail) ==> ReadsHunk(item, lines, meant, h, tail, n, first)
  }

  ghost predicate ReadsHunk(item: ItemParser<Hunk>, lines: HunkText -> seq<string>, meant: HunkText -> Hunk, h: HunkText,
                            tail: seq<string>, lineNumber: nat, first: bool)
  {
    && |lines(h)| > 0 && !IsBlank(lines(h)[0])
    && item(lines(h) + tail, lineNumber, first) == Ok(Parsed(meant(h), |lines(h)|))
  }

  lemma OneHunkReadsHunks()
    ensures ReadsHunks(OneHunk, HunkLines, HunkMeant)
  {
    forall h, tail, n: nat, first | IsWellWritten(h) && Stops(h, tail)
      ensures ReadsHunk(OneHunk, HunkLines, HunkMeant, h, tail, n, first)
    {
      FirstLineOf(h);
      ReadHunkText(h, tail, n, first);
    }
  }

  lemma HunkIsTaken(item: ItemParser<Hunk>, lines: HunkText -> seq<string>, meant: HunkText -> Hunk, lay: HunkText -> seq<string>,
                    h: HunkText, tail: seq<string>, lineNumber: nat, first: bool)
    requires Progresses(item) && ReadsHunks(item, lines, meant) && lay(h) == h.blanks + lines(h)
    requires IsWellWritten(h) && Stops(h, tail)
    ensures Takes(ManyBy(item, false), lay, meant, h, tail, lineNumber, first)
  {
    assert ReadsHunk(item, lines, meant, h, tail, lineNumber + |h.blanks|, first);
    TakenBehindBlanks(item, false, lay, meant, h, h.blanks, lines(h), tail, lineNumber, first);
  }

  /** A hunk reader of which only this is known: it takes every well-written hunk off the front. */
  ghost predicate TakesHunks(many: ManyReader<Hunk>) {
    forall h, tail, n: nat, first :: IsWellWritten(h) && Stops(h, tail) ==> Takes(many, WrittenHunk, HunkMeant, h, tail, n, first)
  }

  lemma {:induction false} HunksAreTakenBy(many: ManyReader<Hunk>, hs: seq<HunkText>, rest: seq<string>, first: bool, open: bool)
    requires TakesHunks(many) && AreWellWritten(hs, open) && (|hs| > 0 ==> Stops(hs[|hs| - 1], rest))
    ensures TakesAll(many, WrittenHunk, HunkMeant, hs, rest, first)
    decreases |hs|
  {
    if |hs| > 0 {
      var tail := PrintAll(WrittenHunk, hs[1..]) + rest;
      if |hs| == 1 {
        assert tail == rest;
      } else {
        HunkStopsHunk(hs[0], hs[1..], rest, tail);
      }
      HunksAreTakenBy(many, hs[1..], rest, false, !hs[0].UpdateText?);
    }
  }

  lemma OneHunkTakesHunks()
    ensures TakesHunks(ManyBy(OneHunk, false))
  {
    OneHunkReadsHunks();
    forall h, tail, n: nat, first | IsWellWritten(h) && Stops(h, tail)
      ensures Takes(ManyBy(OneHunk, false), WrittenHunk, HunkMeant, h, tail, n, first)
    {
      HunkIsTaken(OneHunk, HunkLines, HunkMeant, WrittenHunk, h, tail, n, first);
    }
  }

  lemma EndsInBlanks(trail: seq<string>)
    requires AreBlank(trail)
    ensures forall n: nat, first :: ManyBy(OneHunk, false)(trail, n, first) == Ok(Parsed([], |trail|))
  {
    assert trail + [] == trail;
    forall n: nat, first
      ensures ManyBy(OneHunk, false)(trail, n, first) == Ok(Parsed([], |trail|))
    {
      EndsBehindBlanks(OneHunk, false, trail, [], n, first);
    }
  }

  lemma BlanksStop(h: HunkText, trail: seq<string>)
    requires AreBlank(trail) && (h.UpdateText? ==> trail == [])
    ensures Stops(h, trail)
  {
    if |trail| > 0 {
      BlankIsNoPlus(trail[0]);
    }
  }

  /** A patch body read with any item parser. */
  ghost function BodyBy(item: ItemParser<Hunk>, body: seq<string>): Result<Patch, ParseError>
    requires Progresses(item)
  {
    match Many(item, false, body, 2, true)
    case Err(e) => Err(e)
    case Ok(p) => if |p.value| == 0 then Err(InvalidPatch) else Ok(Patch(p.value))
  }

  lemma BodyIsByOneHunk(body: seq<string>)
    ensures Body(body) == BodyBy(OneHunk, body)
  {
  }

  lemma BodyOfTaken(item: ItemParser<Hunk>, lay: HunkText -> seq<string>, meant: HunkText -> Hunk, hs: seq<HunkText>,
                    trail: seq<string>)
    requires Progresses(item) && |hs| > 0 && TakesAll(ManyBy(item, false), lay, meant, hs, trail, true)
    requires forall n: nat, first :: ManyBy(item, false)(trail, n, first) == Ok(Parsed([], |trail|))
    ensures BodyBy(item, PrintAll(lay, hs) + trail) == Ok(Patch(AllMeant(meant, hs)))
  {
    ReadToEnd(ManyBy(item, false), lay, meant, hs, trail, |trail|, 2, true);
  }

  lemma HunksBeforeBlanks(many: ManyReader<Hunk>, hs: seq<HunkText>, trail: seq<string>)
    requires many == ManyBy(OneHunk, false)
    requires |hs| > 0 && AreWellWritten(hs, true) && AreBlank(trail) && (hs[|hs| - 1].UpdateText? ==> trail == [])
    ensures TakesAll(many, WrittenHunk, HunkMeant, hs, trail, true)
  {
    BlanksStop(hs[|hs| - 1], trail);
    assert TakesHunks(many) by {
      OneHunkTakesHunks();
    }
    HunksAreTakenBy(many, hs, trail, true, true);
  }

  /** Every layout of a patch body is read as the hunks it means. */
  lemma ReadPatchBody(hs: seq<HunkText>, trail: seq<string>)
    requires |hs| > 0 && AreWellWritten(hs, true) && AreBlank(trail) && (hs[|hs| - 1].UpdateText? ==> trail == [])
    ensures Body(PrintAll(WrittenHunk, hs) + trail) == Ok(Patch(AllMeant(HunkMeant, hs)))
  {
    HunksBeforeBlanks(ManyBy(OneHunk, false), hs, trail);
    EndsInBlanks(trail);
    BodyOfTaken(OneHunk, WrittenHunk, HunkMeant, hs, trail);
    BodyIsByOneHunk(PrintAll(WrittenHunk, hs) + trail);
  }

  /** Every layout of a patch, its boundary lines with white space around them, is read as the patch it means. */
  lemma ReadPatchText(input: string, begin: string, hs: seq<HunkText>, trail: seq<string>, end: string)
    requires |hs| > 0 && AreWellWritten(hs, true) && AreBlank(trail) && (hs[|hs| - 1].UpdateText? ==> trail == [])
    requires TrimSpace(begin) == "*** Begin Patch" && TrimSpace(end) == "*** End Patch"
    requires InputLines(input) == [begin] + (PrintAll(WrittenHunk, hs) + trail) + [end]
    ensures ParsePatch(input) == Ok(Patch(AllMeant(HunkMeant, hs)))
  {
    Frame(begin, PrintAll(WrittenHunk, hs) + trail, end);
    ReadPatchBody(hs, trail);
  }

  // ---------------------------------------------------------------- where parsing fails

  /** No marker: the line of no hunk. */
  predicate IsUnknown(line: string) {
    var header := TrimRight(line, {' ', '\t'});
    && !IsBlank(line)
    && !HasPrefix(header, "*** Add File: ") && !HasPrefix(header, "*** Delete File: ") && !HasPrefix(header, "*** Update File: ")
  }

  lemma UnknownLineFails(lines: seq<string>, lineNumber: nat, first: bool)
    requires |lines| > 0 && IsUnknown(lines[0])
    ensures Many(OneHunk, false, lines, lineNumber, first) == Err(InvalidHunk(lineNumber))
  {
  }

  /** An update whose chunks do not start is an error at its own line. */
  lemma UpdateWithoutChunksFails(raw: string, move: Option<string>, rest: seq<string>, lineNumber: nat, first: bool)
    requires !AllIn(raw, {' ', '\t'}) && HunkStops(rest) && (|rest| > 0 && move.None? ==> !HasPrefix(rest[0], MOVE_TO))
    ensures Many(OneHunk, false, [UPDATE_FILE + raw] + (MoveText(move) + rest), lineNumber, first) == Err(InvalidHunk(lineNumber))
  {
    var lines := [UPDATE_FILE + raw] + (MoveText(move) + rest);
    MarkerLine(UPDATE_FILE, raw);
    UpdateByMarker(raw, lines, lineNumber, first);
    HunkStopStopsChunks(rest);
    ChunksEndAt(rest);
    NoChunks(TrimSpace(raw), move, rest, lines, lineNumber);
  }

  lemma NoChunks(path: string, move: Option<string>, rest: seq<string>, lines: seq<string>, lineNumber: nat)
    requires |lines| > 0 && lines[1..] == MoveText(move) + rest && EndsAt(Chunk, true, rest, true)
    requires |rest| > 0 && move.None? ==> !HasPrefix(rest[0], MOVE_TO)
    ensures UpdateHunk(path, lines, lineNumber) == Err(InvalidHunk(lineNumber))
  {
    var n := 1 + |MoveText(move)|;
    if move.Some? {
      assert lines[1] == lines[1..][0];
      assert ("*** Move to: " + move.value)[..|MOVE_TO|] == MOVE_TO;
      assert lines[2..] == lines[1..][1..] == rest;
    } else {
      assert lines[1..] == rest;
      assert |rest| > 0 ==> lines[1] == rest[0];
    }
    EndsWithNothing(Chunk, true, rest, lineNumber + n, true);
  }

  /** An error behind hunks that are read is the outcome of the whole body. */
  lemma ErrorBehindHunks(many: ManyReader<Hunk>, lay: HunkText -> seq<string>, meant: HunkText -> Hunk, hs: seq<HunkText>,
                         bad: seq<string>, e: ParseError)
    requires many == ManyBy(OneHunk, false) && TakesAll(many, lay, meant, hs, bad, true)
    requires many(bad, 2 + |PrintAll(lay, hs)|, |hs| == 0) == Err(e)
    ensures Body(PrintAll(lay, hs) + bad) == Err(e)
  {
    FailsInRow(many, lay, meant, hs, bad, 2, true, e);
    assert many(PrintAll(lay, hs) + bad, 2, true) == Many(OneHunk, false, PrintAll(lay, hs) + bad, 2, true);
  }

  /** A patch without boundary lines, or with nothing but blank lines between them, is none. */
  lemma NoPatch(input: string, begin: string, blanks: seq<string>, end: string)
    requires TrimSpace(begin) == "*** Begin Patch" && TrimSpace(end) == "*** End Patch" && AreBlank(blanks)
    ensures InputLines(input) == [begin] + blanks + [end] ==> ParsePatch(input) == Err(InvalidPatch)
    ensures var lines := InputLines(input);
            |lines| < 2 || TrimSpace(lines[0]) != "*** Begin Patch" || TrimSpace(lines[|lines| - 1]) != "*** End Patch" ==>
              ParsePatch(input) == Err(InvalidPatch)
  {
    Frame(begin, blanks, end);
    assert blanks + [] == blanks;
    EndsBehindBlanks(OneHunk, false, blanks, [], 2, true);
  }
}
