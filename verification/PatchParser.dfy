/** The parser of the patch language, a printer, and the round trip between them. */
module PatchParser {
  import opened Text
  import opened PatchTypes

  const BEGIN_PATCH := "*** Begin Patch"
  const END_PATCH := "*** End Patch"
  const ADD_FILE := "*** Add File: "
  const DELETE_FILE := "*** Delete File: "
  const UPDATE_FILE := "*** Update File: "
  const MOVE_TO := "*** Move to: "
  const EOF_MARKER := "*** End of File"
  const CONTEXT := "@@ "
  const EMPTY_CONTEXT := "@@"

  /** `line` counts from 1 in the whole patch. */
  datatype ParseError = InvalidPatch | InvalidHunk(line: nat)

  /** A parsed value and the number of lines it took. */
  datatype Parsed<+T> = Parsed(value: T, lines: nat)

  const NO_CHUNK := UpdateChunk("", [], [], false)

  predicate IsBlank(line: string) {
    TrimSpace(line) == ""
  }

  function AddOld(c: UpdateChunk, line: string): UpdateChunk {
    c.(oldLines := c.oldLines + [line])
  }

  function AddNew(c: UpdateChunk, line: string): UpdateChunk {
    c.(newLines := c.newLines + [line])
  }

  // ---------------------------------------------------------------- what the parser computes

  /** The body lines of a chunk, after `parsed` of them went into `c`. */
  function ChunkBody(lines: seq<string>, parsed: nat, c: UpdateChunk, lineNumber: nat): (r: Result<Parsed<UpdateChunk>, ParseError>)
    ensures r.Ok? ==> parsed <= r.value.lines <= parsed + |lines|
    ensures r.Ok? && |lines| > 0 ==> r.value.lines > 0
    decreases |lines|
  {
    if |lines| == 0 then Ok(Parsed(c, parsed))
    else if lines[0] == EOF_MARKER then
      if parsed == 0 then Err(InvalidHunk(lineNumber + 1)) else Ok(Parsed(c.(isEndOfFile := true), parsed + 1))
    else if lines[0] == "" then ChunkBody(lines[1..], parsed + 1, AddNew(AddOld(c, ""), ""), lineNumber)
    else
      var text := lines[0][1..];
      match lines[0][0]
      case ' ' => ChunkBody(lines[1..], parsed + 1, AddNew(AddOld(c, text), text), lineNumber)
      case '+' => ChunkBody(lines[1..], parsed + 1, AddNew(c, text), lineNumber)
      case '-' => ChunkBody(lines[1..], parsed + 1, AddOld(c, text), lineNumber)
      case _ => if parsed == 0 then Err(InvalidHunk(lineNumber + 1)) else Ok(Parsed(c, parsed))
  }

  /** The context line of a chunk, or None when there is no marker. */
  function ChunkHeader(line: string): Option<string> {
    if line == EMPTY_CONTEXT then Some("")
    else if HasPrefix(line, CONTEXT) then Some(line[|CONTEXT|..])
    else None
  }

  /** The outcome of what follows `n` lines already taken. */
  function Behind<T>(n: nat, r: Result<Parsed<T>, ParseError>): Result<Parsed<T>, ParseError> {
    if r.Ok? then Ok(Parsed(r.value.value, n + r.value.lines)) else r
  }

  function Chunk(lines: seq<string>, lineNumber: nat, allowMissingContext: bool): (r: Result<Parsed<UpdateChunk>, ParseError>)
    ensures r.Ok? ==> 1 <= r.value.lines <= |lines|
  {
    if |lines| == 0 then Err(InvalidHunk(lineNumber))
    else
      match ChunkHeader(lines[0])
      case None =>
        if allowMissingContext then ChunkBody(lines, 0, NO_CHUNK, lineNumber) else Err(InvalidHunk(lineNumber))
      case Some(context) =>
        if |lines| == 1 then Err(InvalidHunk(lineNumber + 1))
        else
          Behind(1, ChunkBody(lines[1..], 0, NO_CHUNK.(changeContext := context), lineNumber))
  }

  /** One item at the head of the lines; `first` says that no item came before it. */
  type ItemParser<!T> = (seq<string>, nat, bool) -> Result<Parsed<T>, ParseError>

  ghost predicate Progresses<T(!new)>(item: ItemParser<T>) {
    forall lines, n: nat, first {:trigger item(lines, n, first)} ::
      var r := item(lines, n, first);
      r.Ok? ==> 1 <= r.value.lines <= |lines|
  }

  /** Items one after the other, blank lines between them skipped, to the end or (for chunks) to a line that starts with a star. */
  function Many<T(!new)>(item: ItemParser<T>, untilStar: bool, lines: seq<string>, lineNumber: nat, first: bool)
    : (r: Result<Parsed<seq<T>>, ParseError>)
    requires Progresses(item)
    ensures r.Ok? ==> r.value.lines <= |lines|
    decreases |lines|
  {
    if |lines| == 0 then Ok(Parsed([], 0))
    else if IsBlank(lines[0]) then After([], 1, Many(item, untilStar, lines[1..], lineNumber + 1, first))
    else if untilStar && lines[0][0] == '*' then Ok(Parsed([], 0))
    else
      match item(lines, lineNumber, first)
      case Err(e) => Err(e)
      case Ok(p) => After([p.value], p.lines, Many(item, untilStar, lines[p.lines..], lineNumber + p.lines, false))
  }

  /** The outcome of the rest, after `items` already read from `n` lines. */
  function After<T>(items: seq<T>, n: nat, rest: Result<Parsed<seq<T>>, ParseError>): Result<Parsed<seq<T>>, ParseError> {
    if rest.Ok? then Ok(Parsed(items + rest.value.value, n + rest.value.lines)) else rest
  }

  function Chunks(lines: seq<string>, lineNumber: nat): (r: Result<Parsed<seq<UpdateChunk>>, ParseError>)
    ensures r.Ok? ==> r.value.lines <= |lines|
  {
    Many(Chunk, true, lines, lineNumber, true)
  }

  /** How many of the leading lines start with a plus. */
  function PlusLines(lines: seq<string>): (n: nat)
    ensures n <= |lines|
  {
    if |lines| > 0 && HasPrefix(lines[0], "+") then 1 + PlusLines(lines[1..]) else 0
  }

  /** Their text. */
  function PlusText(lines: seq<string>): string {
    if |lines| > 0 && HasPrefix(lines[0], "+") then lines[0][1..] + "\n" + PlusText(lines[1..]) else ""
  }

  function OneHunk(lines: seq<string>, lineNumber: nat, first: bool): (r: Result<Parsed<Hunk>, ParseError>)
    ensures r.Ok? ==> 1 <= r.value.lines <= |lines|
  {
    if |lines| == 0 then Err(InvalidHunk(lineNumber))
    else
      var header := TrimRight(lines[0], BLANKS);
      if HasPrefix(header, ADD_FILE) then
        Ok(Parsed(AddFile(TrimSpace(header[|ADD_FILE|..]), PlusText(lines[1..])), 1 + PlusLines(lines[1..])))
      else if HasPrefix(header, DELETE_FILE) then
        Ok(Parsed(DeleteFile(TrimSpace(header[|DELETE_FILE|..])), 1))
      else if HasPrefix(header, UPDATE_FILE) then
        UpdateHunk(TrimSpace(header[|UPDATE_FILE|..]), lines, lineNumber)
      else Err(InvalidHunk(lineNumber))
  }

  function UpdateHunk(path: string, lines: seq<string>, lineNumber: nat): (r: Result<Parsed<Hunk>, ParseError>)
    requires |lines| > 0
    ensures r.Ok? ==> 1 <= r.value.lines <= |lines|
  {
    var moved := |lines| > 1 && HasPrefix(lines[1], MOVE_TO);
    var n := if moved then 2 else 1;
    var movePath := if moved then TrimSpace(lines[1][|MOVE_TO|..]) else "";
    match Chunks(lines[n..], lineNumber + n)
    case Err(e) => Err(e)
    case Ok(p) =>
      if |p.value| == 0 then Err(InvalidHunk(lineNumber)) else Ok(Parsed(UpdateFile(path, movePath, p.value), n + p.lines))
  }

  function Body(body: seq<string>): Result<Patch, ParseError> {
    match Many(OneHunk, false, body, 2, true)
    case Err(e) => Err(e)
    case Ok(p) => if |p.value| == 0 then Err(InvalidPatch) else Ok(Patch(p.value))
  }

  function InputLines(input: string): seq<string> {
    Split(TrimRight(input, {'\n'}))
  }

  predicate Bounded(lines: seq<string>) {
    |lines| >= 2 && TrimSpace(lines[0]) == BEGIN_PATCH && TrimSpace(lines[|lines| - 1]) == END_PATCH
  }

  function ParsePatch(input: string): Result<Patch, ParseError> {
    var lines := InputLines(input);
    if Bounded(lines) then Body(lines[1..|lines| - 1]) else Err(InvalidPatch)
  }

  // ---------------------------------------------------------------- the parser

  /** One line of a chunk's body. */
  lemma BodyAt(lines: seq<string>, i: nat, parsed: nat, c: UpdateChunk, lineNumber: nat)
    requires i < |lines|
    ensures var r, after := ChunkBody(lines[i..], parsed, c, lineNumber), lines[i + 1..];
            var stop := if parsed == 0 then Err(InvalidHunk(lineNumber + 1)) else Ok(Parsed(c, parsed));
            if lines[i] == EOF_MARKER then
              r == if parsed == 0 then stop else Ok(Parsed(c.(isEndOfFile := true), parsed + 1))
            else if lines[i] == "" then r == ChunkBody(after, parsed + 1, AddNew(AddOld(c, ""), ""), lineNumber)
            else
              var text := lines[i][1..];
              match lines[i][0]
              case ' ' => r == ChunkBody(after, parsed + 1, AddNew(AddOld(c, text), text), lineNumber)
              case '+' => r == ChunkBody(after, parsed + 1, AddNew(c, text), lineNumber)
              case '-' => r == ChunkBody(after, parsed + 1, AddOld(c, text), lineNumber)
              case _ => r == stop
  {
    assert lines[i..][0] == lines[i] && lines[i..][1..] == lines[i + 1..];
  }

  method ParseUpdateChunk(lines: seq<string>, lineNumber: nat, allowMissingContext: bool)
    returns (r: Result<Parsed<UpdateChunk>, ParseError>)
    ensures r == Chunk(lines, lineNumber, allowMissingContext)
  {
    if |lines| == 0 {
      return Err(InvalidHunk(lineNumber));
    }
    var change, start := NO_CHUNK, 0;
    if lines[0] == EMPTY_CONTEXT {
      start := 1;
    } else if HasPrefix(lines[0], CONTEXT) {
      change, start := change.(changeContext := lines[0][|CONTEXT|..]), 1;
    } else if !allowMissingContext {
      return Err(InvalidHunk(lineNumber));
    }
    if start >= |lines| {
      return Err(InvalidHunk(lineNumber + 1));
    }
    assert lines[0..] == lines;
    var parsed := 0;
    while start + parsed < |lines|
      invariant start + parsed <= |lines|
      invariant Chunk(lines, lineNumber, allowMissingContext)
             == Behind(start, ChunkBody(lines[start + parsed..], parsed, change, lineNumber))
    {
      var line := lines[start + parsed];
      BodyAt(lines, start + parsed, parsed, change, lineNumber);
      if line == EOF_MARKER {
        if parsed == 0 {
          return Err(InvalidHunk(lineNumber + 1));
        }
        change, parsed := change.(isEndOfFile := true), parsed + 1;
        return Ok(Parsed(change, start + parsed));
      } else if line == "" {
        change := AddNew(AddOld(change, ""), "");
      } else if line[0] == ' ' {
        change := AddNew(AddOld(change, line[1..]), line[1..]);
      } else if line[0] == '+' {
        change := AddNew(change, line[1..]);
      } else if line[0] == '-' {
        change := AddOld(change, line[1..]);
      } else {
        if parsed == 0 {
          return Err(InvalidHunk(lineNumber + 1));
        }
        return Ok(Parsed(change, start + parsed));
      }
      parsed := parsed + 1;
    }
    r := Ok(Parsed(change, start + parsed));
  }

  lemma AfterAfter<T>(a: seq<T>, b: seq<T>, m: nat, n: nat, rest: Result<Parsed<seq<T>>, ParseError>)
    ensures After(a, m, After(b, n, rest)) == After(a + b, m + n, rest)
  {
    if rest.Ok? {
      assert a + b + rest.value.value == a + (b + rest.value.value);
    }
  }

  lemma AfterNothing<T>(rest: Result<Parsed<seq<T>>, ParseError>)
    ensures After([], 0, rest) == rest
  {
    if rest.Ok? {
      assert [] + rest.value.value == rest.value.value;
    }
  }

  /** How items are read one after the other. */
  type ManyReader<!T> = (seq<string>, nat, bool) -> Result<Parsed<seq<T>>, ParseError>

  ghost function ManyBy<T(!new)>(item: ItemParser<T>, untilStar: bool): ManyReader<T>
    requires Progresses(item)
  {
    (lines: seq<string>, lineNumber: nat, first: bool) => Many(item, untilStar, lines, lineNumber, first)
  }

  /** One step of such a reader. */
  ghost predicate StepAt<T(!new)>(many: ManyReader<T>, item: ItemParser<T>, untilStar: bool, lines: seq<string>, at: nat,
                                  first: bool)
  {
    if |lines| == 0 then many(lines, at, first) == Ok(Parsed([], 0))
    else if IsBlank(lines[0]) then many(lines, at, first) == After([], 1, many(lines[1..], at + 1, first))
    else if untilStar && lines[0][0] == '*' then many(lines, at, first) == Ok(Parsed([], 0))
    else
      match item(lines, at, first)
      case Err(e) => many(lines, at, first) == Err(e)
      case Ok(p) =>
        && 1 <= p.lines <= |lines|
        && many(lines, at, first) == After([p.value], p.lines, many(lines[p.lines..], at + p.lines, false))
  }

  ghost predicate Steps<T(!new)>(many: ManyReader<T>, item: ItemParser<T>, untilStar: bool) {
    forall lines, at: nat, first :: StepAt(many, item, untilStar, lines, at, first)
  }

  lemma ManyStep<T(!new)>(item: ItemParser<T>, untilStar: bool, lines: seq<string>, at: nat, first: bool)
    requires Progresses(item)
    ensures StepAt(ManyBy(item, untilStar), item, untilStar, lines, at, first)
  {
  }

  /** The loop that reads the hunks of a patch and the chunks of a hunk, against any reader of which only the steps are known.
      It calls the item parser by its specification (Chunk, OneHunk); ParseUpdateChunk and ParseOneHunk are the methods that
      compute those. */
  method ItemLoop<T(!new)>(item: ItemParser<T>, untilStar: bool, lines: seq<string>, lineNumber: nat, ghost many: ManyReader<T>)
    returns (r: Result<Parsed<seq<T>>, ParseError>)
    requires Steps(many, item, untilStar)
    ensures r == many(lines, lineNumber, true)
  {
    var items, n := [], 0;
    ghost var all, rest := many(lines, lineNumber, true), lines;
    AfterNothing(all);
    while n < |lines|
      invariant n <= |lines| && rest == lines[n..]
      invariant all == After(items, n, many(rest, lineNumber + n, |items| == 0))
    {
      var at, first := lineNumber + n, |items| == 0;
      assert StepAt(many, item, untilStar, rest, at, first);
      assert rest[0] == lines[n];
      if IsBlank(lines[n]) {
        AfterAfter(items, [], n, 1, many(rest[1..], at + 1, first));
        assert items + [] == items;
        n, rest := n + 1, rest[1..];
        continue;
      }
      if untilStar && HasPrefix(lines[n], "*") {
        assert items + [] == items;
        return Ok(Parsed(items, n));
      }
      var p := item(lines[n..], at, first);
      if p.Err? {
        return Err(p.error);
      }
      AfterAfter(items, [p.value.value], n, p.value.lines, many(rest[p.value.lines..], at + p.value.lines, false));
      items, n, rest := items + [p.value.value], n + p.value.lines, rest[p.value.lines..];
    }
    assert StepAt(many, item, untilStar, rest, lineNumber + n, |items| == 0);
    assert items + [] == items;
    r := Ok(Parsed(items, n));
  }

  method ParseItems<T(!new)>(item: ItemParser<T>, untilStar: bool, lines: seq<string>, lineNumber: nat)
    returns (r: Result<Parsed<seq<T>>, ParseError>)
    requires Progresses(item)
    ensures r == Many(item, untilStar, lines, lineNumber, true)
  {
    forall lines, at: nat, first
      ensures StepAt(ManyBy(item, untilStar), item, untilStar, lines, at, first)
    {
      ManyStep(item, untilStar, lines, at, first);
    }
    r := ItemLoop(item, untilStar, lines, lineNumber, ManyBy(item, untilStar));
  }

  lemma PlusAt(lines: seq<string>, n: nat, contents: string)
    requires n < |lines| && HasPrefix(lines[n], "+")
    ensures PlusLines(lines[n..]) == 1 + PlusLines(lines[n + 1..])
    ensures contents + PlusText(lines[n..]) == contents + (lines[n][1..] + "\n") + PlusText(lines[n + 1..])
  {
    assert lines[n..][0] == lines[n] && lines[n..][1..] == lines[n + 1..];
    Assoc(contents, lines[n][1..] + "\n", PlusText(lines[n + 1..]));
  }

  /** The loop over the lines of a file to add; `n` counts the header line too. */
  method CollectAdded(lines: seq<string>) returns (contents: string, n: nat)
    requires |lines| > 0
    ensures contents == PlusText(lines[1..]) && n == 1 + PlusLines(lines[1..]) <= |lines|
  {
    contents, n := "", 1;
    while n < |lines| && HasPrefix(lines[n], "+")
      invariant 1 <= n <= |lines|
      invariant PlusLines(lines[1..]) == n - 1 + PlusLines(lines[n..])
      invariant PlusText(lines[1..]) == contents + PlusText(lines[n..])
    {
      PlusAt(lines, n, contents);
      contents := contents + (lines[n][1..] + "\n");
      n := n + 1;
    }
    assert contents + "" == contents;
  }

  method ParseOneHunk(lines: seq<string>, lineNumber: nat) returns (r: Result<Parsed<Hunk>, ParseError>)
    requires |lines| > 0
    ensures r == OneHunk(lines, lineNumber, true) == OneHunk(lines, lineNumber, false)
  {
    var first := TrimRight(lines[0], BLANKS);
    if HasPrefix(first, ADD_FILE) {
      var path := TrimSpace(first[|ADD_FILE|..]);
      var contents, n := CollectAdded(lines);
      return Ok(Parsed(AddFile(path, contents), n));
    }
    if HasPrefix(first, DELETE_FILE) {
      return Ok(Parsed(DeleteFile(TrimSpace(first[|DELETE_FILE|..])), 1));
    }
    if HasPrefix(first, UPDATE_FILE) {
      var path := TrimSpace(first[|UPDATE_FILE|..]);
      var movePath, n := "", 1;
      if n < |lines| && HasPrefix(lines[n], MOVE_TO) {
        movePath, n := TrimSpace(lines[n][|MOVE_TO|..]), n + 1;
      }
      var p := ParseItems(Chunk, true, lines[n..], lineNumber + n);
      if p.Err? {
        return Err(p.error);
      }
      if |p.value.value| == 0 {
        return Err(InvalidHunk(lineNumber));
      }
      return Ok(Parsed(UpdateFile(path, movePath, p.value.value), n + p.value.lines));
    }
    r := Err(InvalidHunk(lineNumber));
  }

  method ParseBody(body: seq<string>) returns (r: Result<Patch, ParseError>)
    ensures r == Body(body)
  {
    var p := ParseItems(OneHunk, false, body, 2);
    r := if p.Err? then Err(p.error) else if |p.value.value| == 0 then Err(InvalidPatch) else Ok(Patch(p.value.value));
  }

  method Parse(input: string) returns (r: Result<Patch, ParseError>)
    ensures r == ParsePatch(input)
  {
    var lines := Split(TrimRight(input, {'\n'}));
    if |lines| < 2 || TrimSpace(lines[0]) != BEGIN_PATCH || TrimSpace(lines[|lines| - 1]) != END_PATCH {
      return Err(InvalidPatch);
    }
    r := ParseBody(lines[1..|lines| - 1]);
  }

  // ---------------------------------------------------------------- the printer

  /** Every line with `mark` in front. */
  function Marked(mark: char, lines: seq<string>): (r: seq<string>)
    ensures |r| == |lines|
  {
    if |lines| == 0 then [] else [[mark] + lines[0]] + Marked(mark, lines[1..])
  }

  function HeaderLine(context: string): string {
    if context == "" then EMPTY_CONTEXT else CONTEXT + context
  }

  function EofLines(eof: bool): seq<string> {
    if eof then [EOF_MARKER] else []
  }

  function PrintChunk(c: UpdateChunk): seq<string> {
    [HeaderLine(c.changeContext)] + (Marked('-', c.oldLines) + (Marked('+', c.newLines) + EofLines(c.isEndOfFile)))
  }

  function PrintAll<T>(lay: T -> seq<string>, xs: seq<T>): seq<string> {
    if |xs| == 0 then [] else lay(xs[0]) + PrintAll(lay, xs[1..])
  }

  /** The lines of a file that is empty or ends in a newline. */
  function ContentLines(contents: string): seq<string> {
    if contents == "" then [] else Split(contents[..|contents| - 1])
  }

  function MoveLines(movePath: string): seq<string> {
    if movePath == "" then [] else [MOVE_TO + movePath]
  }

  function PrintHunk(h: Hunk): seq<string> {
    match h
    case AddFile(path, contents) => [ADD_FILE + path] + Marked('+', ContentLines(contents))
    case DeleteFile(path) => [DELETE_FILE + path]
    case UpdateFile(path, movePath, chunks) => [UPDATE_FILE + path] + (MoveLines(movePath) + PrintAll(PrintChunk, chunks))
  }

  function PrintPatch(p: Patch): string {
    Join([BEGIN_PATCH] + PrintAll(PrintHunk, p.hunks) + [END_PATCH])
  }

  // ---------------------------------------------------------------- what can be printed

  predicate IsName(s: string) {
    OneLine(s) && IsTrimmed(s)
  }

  predicate PrintableChunk(c: UpdateChunk) {
    OneLine(c.changeContext) && OneLines(c.oldLines) && OneLines(c.newLines) && |c.oldLines| + |c.newLines| > 0
  }

  predicate PrintableHunk(h: Hunk) {
    IsName(h.path) &&
    match h
    case AddFile(_, contents) => contents == "" || contents[|contents| - 1] == '\n'
    case DeleteFile(_) => true
    case UpdateFile(_, movePath, chunks) =>
      && IsName(movePath) && |chunks| > 0
      && forall k :: 0 <= k < |chunks| ==> PrintableChunk(chunks[k])
  }

  predicate Printable(p: Patch) {
    |p.hunks| > 0 && forall k :: 0 <= k < |p.hunks| ==> PrintableHunk(p.hunks[k])
  }

  predicate AllNamed(hs: seq<Hunk>) {
    forall k :: 0 <= k < |hs| ==> hs[k].path != ""
  }

  // ---------------------------------------------------------------- reading a printed chunk

  /** Lines at which the body of a chunk ends. */
  predicate ChunkStops(rest: seq<string>) {
    |rest| == 0 || (rest[0] != "" && rest[0] != EOF_MARKER && rest[0][0] in {'@', '*'})
  }

  lemma {:induction false} ReadOlds(olds: seq<string>, rest: seq<string>, parsed: nat, c: UpdateChunk, lineNumber: nat)
    ensures ChunkBody(Marked('-', olds) + rest, parsed, c, lineNumber)
         == ChunkBody(rest, parsed + |olds|, c.(oldLines := c.oldLines + olds), lineNumber)
    decreases |olds|
  {
    var lines := Marked('-', olds) + rest;
    if |olds| == 0 {
      assert lines == rest && c.oldLines + olds == c.oldLines;
    } else {
      assert lines[0] == "-" + olds[0] && lines[1..] == Marked('-', olds[1..]) + rest;
      assert lines[0][0] == '-' && lines[0][1..] == olds[0];
      ReadOlds(olds[1..], rest, parsed + 1, AddOld(c, olds[0]), lineNumber);
      assert c.oldLines + [olds[0]] + olds[1..] == c.oldLines + olds;
    }
  }

  lemma {:induction false} ReadNews(news: seq<string>, rest: seq<string>, parsed: nat, c: UpdateChunk, lineNumber: nat)
    ensures ChunkBody(Marked('+', news) + rest, parsed, c, lineNumber)
         == ChunkBody(rest, parsed + |news|, c.(newLines := c.newLines + news), lineNumber)
    decreases |news|
  {
    var lines := Marked('+', news) + rest;
    if |news| == 0 {
      assert lines == rest && c.newLines + news == c.newLines;
    } else {
      assert lines[0] == "+" + news[0] && lines[1..] == Marked('+', news[1..]) + rest;
      assert lines[0][0] == '+' && lines[0][1..] == news[0];
      ReadNews(news[1..], rest, parsed + 1, AddNew(c, news[0]), lineNumber);
      assert c.newLines + [news[0]] + news[1..] == c.newLines + news;
    }
  }

  lemma ReadEof(eof: bool, rest: seq<string>, parsed: nat, c: UpdateChunk, lineNumber: nat)
    requires parsed > 0 && !c.isEndOfFile && ChunkStops(rest)
    ensures ChunkBody(EofLines(eof) + rest, parsed, c, lineNumber)
         == Ok(Parsed(c.(isEndOfFile := eof), parsed + |EofLines(eof)|))
  {
    if eof {
      assert ([EOF_MARKER] + rest)[0] == EOF_MARKER;
    } else {
      assert [] + rest == rest;
    }
  }

  lemma ReadHeader(context: string)
    ensures ChunkHeader(HeaderLine(context)) == Some(context)
  {
    if context != "" {
      var line := CONTEXT + context;
      assert line[..|CONTEXT|] == CONTEXT && line[|CONTEXT|..] == context;
      assert line[2] == ' ' && |line| > |EMPTY_CONTEXT|;
    }
  }

  lemma ChunkFromBody(lines: seq<string>, lineNumber: nat, first: bool, context: string, p: Parsed<UpdateChunk>)
    requires |lines| > 1 && ChunkHeader(lines[0]) == Some(context)
    requires ChunkBody(lines[1..], 0, NO_CHUNK.(changeContext := context), lineNumber) == Ok(p)
    ensures Chunk(lines, lineNumber, first) == Ok(Parsed(p.value, 1 + p.lines))
  {
  }

  lemma ReadChunkBody(c: UpdateChunk, rest: seq<string>, lineNumber: nat)
    requires PrintableChunk(c) && ChunkStops(rest)
    ensures ChunkBody(Marked('-', c.oldLines) + (Marked('+', c.newLines) + (EofLines(c.isEndOfFile) + rest)), 0,
                      NO_CHUNK.(changeContext := c.changeContext), lineNumber)
         == Ok(Parsed(c, |PrintChunk(c)| - 1))
  {
    var tail := EofLines(c.isEndOfFile) + rest;
    var c0 := NO_CHUNK.(changeContext := c.changeContext);
    var c1 := c0.(oldLines := c.oldLines);
    assert [] + c.oldLines == c.oldLines && [] + c.newLines == c.newLines;
    ReadOlds(c.oldLines, Marked('+', c.newLines) + tail, 0, c0, lineNumber);
    ReadNews(c.newLines, tail, |c.oldLines|, c1, lineNumber);
    ReadEof(c.isEndOfFile, rest, |c.oldLines| + |c.newLines|, c1.(newLines := c.newLines), lineNumber);
  }

  lemma ReadChunk(c: UpdateChunk, rest: seq<string>, lineNumber: nat, first: bool)
    requires PrintableChunk(c) && ChunkStops(rest)
    ensures Chunk(PrintChunk(c) + rest, lineNumber, first) == Ok(Parsed(c, |PrintChunk(c)|))
  {
    var lines := PrintChunk(c) + rest;
    var body := Marked('-', c.oldLines) + (Marked('+', c.newLines) + (EofLines(c.isEndOfFile) + rest));
    assert lines[0] == HeaderLine(c.changeContext) && lines[1..] == body;
    ReadHeader(c.changeContext);
    ReadChunkBody(c, rest, lineNumber);
    ChunkFromBody(lines, lineNumber, first, c.changeContext, Parsed(c, |PrintChunk(c)| - 1));
  }

  // ---------------------------------------------------------------- reading printed items

  lemma NonBlank(line: string)
    requires line != "" && line[0] !in SPACES
    ensures !IsBlank(line)
  {
    TrimSpaceEmpty(line);
  }

  /** `head`, followed by `tail`, reads as the item `x`. */
  ghost predicate ReadsAs<T(!new)>(item: ItemParser<T>, untilStar: bool, head: seq<string>, tail: seq<string>, x: T) {
    && |head| > 0 && !IsBlank(head[0]) && (untilStar ==> head[0][0] != '*')
    && forall n: nat, first :: item(head + tail, n, first) == Ok(Parsed(x, |head|))
  }

  ghost predicate AllReadAs<T(!new)>(item: ItemParser<T>, untilStar: bool, lay: T -> seq<string>, xs: seq<T>, rest: seq<string>) {
    |xs| == 0 || (
      && ReadsAs(item, untilStar, lay(xs[0]), PrintAll(lay, xs[1..]) + rest, xs[0])
      && AllReadAs(item, untilStar, lay, xs[1..], rest))
  }

  lemma ManyCons<T(!new)>(item: ItemParser<T>, untilStar: bool, head: seq<string>, tail: seq<string>, x: T,
                          lineNumber: nat, first: bool)
    requires Progresses(item) && ReadsAs(item, untilStar, head, tail, x)
    ensures Many(item, untilStar, head + tail, lineNumber, first)
         == After([x], |head|, Many(item, untilStar, tail, lineNumber + |head|, false))
  {
    assert (head + tail)[0] == head[0] && (head + tail)[|head|..] == tail;
    assert item(head + tail, lineNumber, first) == Ok(Parsed(x, |head|));
  }

  /** `r` is a success exactly when `ok`, and then holds `xs` from `k` lines. */
  ghost predicate Outcome<T(!new)>(r: Result<Parsed<seq<T>>, ParseError>, ok: bool, xs: seq<T>, k: nat) {
    if ok then r == Ok(Parsed(xs, k)) else r.Err?
  }

  /** At `rest` an item loop ends, or fails. */
  ghost predicate EndsAt<T(!new)>(item: ItemParser<T>, untilStar: bool, rest: seq<string>, ok: bool)
    requires Progresses(item)
  {
    forall n: nat, first :: Outcome(Many(item, untilStar, rest, n, first), ok, [], 0)
  }

  /** Printed items are read back up to `rest`, where the loop ends or fails. */
  lemma {:induction false} ReadMany<T(!new)>(item: ItemParser<T>, untilStar: bool, lay: T -> seq<string>, xs: seq<T>,
                                             rest: seq<string>, ok: bool, lineNumber: nat, first: bool)
    requires Progresses(item) && AllReadAs(item, untilStar, lay, xs, rest) && EndsAt(item, untilStar, rest, ok)
    ensures Outcome(Many(item, untilStar, PrintAll(lay, xs) + rest, lineNumber, first), ok, xs, |PrintAll(lay, xs)|)
    decreases |xs|
  {
    if |xs| == 0 {
      assert PrintAll(lay, xs) + rest == rest;
    } else {
      var head, tail := lay(xs[0]), PrintAll(lay, xs[1..]) + rest;
      assert PrintAll(lay, xs) + rest == head + tail;
      ManyCons(item, untilStar, head, tail, xs[0], lineNumber, first);
      ReadMany(item, untilStar, lay, xs[1..], rest, ok, lineNumber + |head|, false);
      assert [xs[0]] + xs[1..] == xs;
    }
  }

  /** Lines at which a chunk loop ends. */
  predicate ChunksStop(rest: seq<string>) {
    |rest| == 0 || (rest[0] != "" && rest[0] != EOF_MARKER && rest[0][0] == '*')
  }

  lemma HeaderLineStart(context: string)
    ensures HeaderLine(context) != "" && HeaderLine(context)[0] == '@' && HeaderLine(context) != EOF_MARKER
    ensures !IsBlank(HeaderLine(context))
  {
    var line := HeaderLine(context);
    assert line[0] == '@' && EOF_MARKER[0] == '*';
    NonBlank(line);
  }

  lemma PrintedChunksStop(cs: seq<UpdateChunk>, rest: seq<string>)
    requires ChunksStop(rest)
    ensures ChunkStops(PrintAll(PrintChunk, cs) + rest)
  {
    if |cs| == 0 {
      assert PrintAll(PrintChunk, cs) + rest == rest;
    } else {
      HeaderLineStart(cs[0].changeContext);
    }
  }

  lemma ChunkReadsAs(c: UpdateChunk, tail: seq<string>)
    requires PrintableChunk(c) && ChunkStops(tail)
    ensures ReadsAs(Chunk, true, PrintChunk(c), tail, c)
  {
    HeaderLineStart(c.changeContext);
    forall n: nat, first
      ensures Chunk(PrintChunk(c) + tail, n, first) == Ok(Parsed(c, |PrintChunk(c)|))
    {
      ReadChunk(c, tail, n, first);
    }
  }

  lemma {:induction false} ChunksReadAs(cs: seq<UpdateChunk>, rest: seq<string>)
    requires (forall k :: 0 <= k < |cs| ==> PrintableChunk(cs[k])) && ChunksStop(rest)
    ensures AllReadAs(Chunk, true, PrintChunk, cs, rest)
    decreases |cs|
  {
    if |cs| > 0 {
      PrintedChunksStop(cs[1..], rest);
      ChunkReadsAs(cs[0], PrintAll(PrintChunk, cs[1..]) + rest);
      ChunksReadAs(cs[1..], rest);
    }
  }

  lemma ReadChunks(cs: seq<UpdateChunk>, rest: seq<string>, lineNumber: nat)
    requires (forall k :: 0 <= k < |cs| ==> PrintableChunk(cs[k])) && ChunksStop(rest)
    ensures Chunks(PrintAll(PrintChunk, cs) + rest, lineNumber) == Ok(Parsed(cs, |PrintAll(PrintChunk, cs)|))
  {
    ChunksReadAs(cs, rest);
    ChunksEndAt(rest);
    ReadMany(Chunk, true, PrintChunk, cs, rest, true, lineNumber, true);
  }

  lemma ChunksEndAt(rest: seq<string>)
    requires ChunksStop(rest)
    ensures EndsAt(Chunk, true, rest, true)
  {
    if |rest| > 0 {
      NonBlank(rest[0]);
    }
  }

  lemma {:induction false} ReadPlus(lines: seq<string>, rest: seq<string>)
    requires |rest| > 0 ==> !HasPrefix(rest[0], "+")
    ensures PlusLines(Marked('+', lines) + rest) == |lines|
    ensures PlusText(Marked('+', lines) + rest) == if |lines| == 0 then "" else Join(lines) + "\n"
    decreases |lines|
  {
    if |lines| == 0 {
      assert Marked('+', lines) + rest == rest;
    } else {
      var all := Marked('+', lines) + rest;
      assert all[0] == "+" + lines[0] && all[1..] == Marked('+', lines[1..]) + rest;
      assert all[0][..1] == "+" && all[0][1..] == lines[0];
      ReadPlus(lines[1..], rest);
    }
  }

  lemma ReadContents(contents: string)
    requires contents == "" || contents[|contents| - 1] == '\n'
    ensures contents == if |ContentLines(contents)| == 0 then "" else Join(ContentLines(contents)) + "\n"
  {
    if contents != "" {
      JoinOfSplit(contents[..|contents| - 1]);
      assert contents == contents[..|contents| - 1] + "\n";
    }
  }

  // ---------------------------------------------------------------- reading a printed hunk

  predicate IsHunkHeader(line: string) {
    |line| >= 5 && line[0] == '*' && line[4] in {'A', 'D', 'U'}
  }

  /** Lines at which a hunk ends. */
  predicate HunkStops(rest: seq<string>) {
    |rest| == 0 || IsHunkHeader(rest[0])
  }

  function Marker(h: Hunk): string {
    match h
    case AddFile(_, _) => ADD_FILE
    case DeleteFile(_) => DELETE_FILE
    case UpdateFile(_, _, _) => UPDATE_FILE
  }

  lemma PrintHunkHead(h: Hunk)
    ensures |PrintHunk(h)| > 0 && PrintHunk(h)[0] == Marker(h) + h.path
    ensures IsHunkHeader(PrintHunk(h)[0]) && !IsBlank(PrintHunk(h)[0])
  {
    NonBlank(Marker(h) + h.path);
  }

  /** What the three header tests see in a printed header. */
  lemma ReadMarker(h: Hunk, marker: string)
    requires IsName(h.path) && marker in {ADD_FILE, DELETE_FILE, UPDATE_FILE}
    ensures var header := TrimRight(Marker(h) + h.path, BLANKS);
            && (HasPrefix(header, marker) <==> marker == Marker(h) && h.path != "")
            && (h.path != "" ==> header == Marker(h) + h.path && header[|Marker(h)|..] == h.path)
  {
    var m := Marker(h);
    if h.path == "" {
      var bare := m[..|m| - 1];
      assert m + h.path == bare + " ";
      TrimRightOf(bare, " ", BLANKS);
      assert bare[4] == m[4];
    } else {
      assert (m + h.path)[|m + h.path| - 1] == h.path[|h.path| - 1];
      assert m + h.path + "" == m + h.path;
      TrimRightOf(m + h.path, "", BLANKS);
      assert (m + h.path)[..|m|] == m;
      PrefixAt(m + h.path, marker, 4);
    }
  }

  lemma ReadMove(movePath: string, after: seq<string>)
    requires IsName(movePath) && |after| > 0 && after[0] != "" && after[0][0] == '@'
    ensures var lines := MoveLines(movePath) + after;
            if movePath == "" then lines == after && !HasPrefix(lines[0], MOVE_TO)
            else HasPrefix(lines[0], MOVE_TO) && TrimSpace(lines[0][|MOVE_TO|..]) == movePath && lines[1..] == after
  {
    if movePath == "" {
      assert MoveLines(movePath) + after == after;
      PrefixAt(after[0], MOVE_TO, 0);
    } else {
      var line := MOVE_TO + movePath;
      assert line[..|MOVE_TO|] == MOVE_TO && line[|MOVE_TO|..] == movePath;
      TrimmedIsFixed(movePath);
    }
  }

  /** OneHunk by the marker its header carries. */
  lemma OneHunkByMarker(lines: seq<string>, lineNumber: nat, first: bool)
    requires |lines| > 0
    ensures var header, r := TrimRight(lines[0], BLANKS), OneHunk(lines, lineNumber, first);
            if HasPrefix(header, ADD_FILE) then
              r == Ok(Parsed(AddFile(TrimSpace(header[|ADD_FILE|..]), PlusText(lines[1..])), 1 + PlusLines(lines[1..])))
            else if HasPrefix(header, DELETE_FILE) then
              r == Ok(Parsed(DeleteFile(TrimSpace(header[|DELETE_FILE|..])), 1))
            else if HasPrefix(header, UPDATE_FILE) then
              r == UpdateHunk(TrimSpace(header[|UPDATE_FILE|..]), lines, lineNumber)
            else r.Err?
  {
  }

  /** The header tests on a printed hunk choose the right branch, or none when the path is missing. */
  lemma OneHunkByHeader(h: Hunk, lines: seq<string>, lineNumber: nat, first: bool)
    requires IsName(h.path) && |lines| > 0 && lines[0] == Marker(h) + h.path
    ensures var r := OneHunk(lines, lineNumber, first);
            if h.path == "" then r.Err?
            else match h
                 case AddFile(_, _) => r == Ok(Parsed(AddFile(h.path, PlusText(lines[1..])), 1 + PlusLines(lines[1..])))
                 case DeleteFile(_) => r == Ok(Parsed(h, 1))
                 case UpdateFile(_, _, _) => r == UpdateHunk(h.path, lines, lineNumber)
  {
    ReadMarker(h, ADD_FILE);
    ReadMarker(h, DELETE_FILE);
    ReadMarker(h, UPDATE_FILE);
    MarkersDiffer();
    OneHunkByMarker(lines, lineNumber, first);
    TrimmedIsFixed(h.path);
  }

  lemma OneHunkByKind(h: Hunk, rest: seq<string>, lineNumber: nat, first: bool)
    requires PrintableHunk(h)
    ensures var lines := PrintHunk(h) + rest;
            var r := OneHunk(lines, lineNumber, first);
            if h.path == "" then r.Err?
            else match h
                 case AddFile(_, _) => r == Ok(Parsed(AddFile(h.path, PlusText(lines[1..])), 1 + PlusLines(lines[1..])))
                 case DeleteFile(_) => r == Ok(Parsed(h, 1))
                 case UpdateFile(_, _, _) => r == UpdateHunk(h.path, lines, lineNumber)
  {
    PrintHunkHead(h);
    OneHunkByHeader(h, PrintHunk(h) + rest, lineNumber, first);
  }

  /** A printed hunk reads as itself; without a path it does not read at all. */
  lemma ReadHunk(h: Hunk, rest: seq<string>, lineNumber: nat, first: bool)
    requires PrintableHunk(h) && HunkStops(rest)
    ensures var r := OneHunk(PrintHunk(h) + rest, lineNumber, first);
            if h.path == "" then r.Err? else r == Ok(Parsed(h, |PrintHunk(h)|))
  {
    OneHunkByKind(h, rest, lineNumber, first);
    match h {
      case AddFile(_, contents) =>
        var added := Marked('+', ContentLines(contents));
        assert ([ADD_FILE + h.path] + added + rest)[1..] == added + rest;
        ReadAddedLines(contents, rest);
      case DeleteFile(_) =>
      case UpdateFile(path, movePath, chunks) =>
        ReadUpdateHunk(path, movePath, chunks, rest, lineNumber);
    }
  }

  lemma MarkersDiffer()
    ensures ADD_FILE != DELETE_FILE && ADD_FILE != UPDATE_FILE && DELETE_FILE != UPDATE_FILE
  {
    assert ADD_FILE[4] == 'A' && DELETE_FILE[4] == 'D' && UPDATE_FILE[4] == 'U';
  }

  lemma ReadAddedLines(contents: string, rest: seq<string>)
    requires contents == "" || contents[|contents| - 1] == '\n'
    requires HunkStops(rest)
    ensures PlusText(Marked('+', ContentLines(contents)) + rest) == contents
    ensures PlusLines(Marked('+', ContentLines(contents)) + rest) == |ContentLines(contents)|
  {
    if |rest| > 0 {
      assert rest[0][..1][0] == rest[0][0];
    }
    ReadPlus(ContentLines(contents), rest);
    ReadContents(contents);
  }

  lemma UpdateHunkFrom(path: string, movePath: string, chunks: seq<UpdateChunk>, k: nat, lines: seq<string>, lineNumber: nat)
    requires |lines| > 1 && |chunks| > 0
    requires HasPrefix(lines[1], MOVE_TO) <==> movePath != ""
    requires movePath != "" ==> TrimSpace(lines[1][|MOVE_TO|..]) == movePath
    requires var n := if movePath == "" then 1 else 2; Chunks(lines[n..], lineNumber + n) == Ok(Parsed(chunks, k))
    ensures UpdateHunk(path, lines, lineNumber)
         == Ok(Parsed(UpdateFile(path, movePath, chunks), (if movePath == "" then 1 else 2) + k))
  {
  }

  lemma HunkStopStopsChunks(rest: seq<string>)
    requires HunkStops(rest)
    ensures ChunksStop(rest)
  {
    assert EOF_MARKER[4] == 'E';
  }

  lemma UpdateLines(header: string, movePath: string, after: seq<string>)
    requires IsName(movePath) && |after| > 0 && after[0] != "" && after[0][0] == '@'
    ensures var lines := [header] + (MoveLines(movePath) + after);
            && |lines| > 1
            && (HasPrefix(lines[1], MOVE_TO) <==> movePath != "")
            && (movePath != "" ==> TrimSpace(lines[1][|MOVE_TO|..]) == movePath)
            && lines[if movePath == "" then 1 else 2..] == after
  {
    var rest := MoveLines(movePath) + after;
    var lines := [header] + rest;
    ReadMove(movePath, after);
    assert lines[1..] == rest && lines[1] == rest[0];
    if movePath != "" {
      assert lines[2..] == rest[1..];
    }
  }

  lemma ReadUpdateLines(path: string, movePath: string, chunks: seq<UpdateChunk>, lines: seq<string>, after: seq<string>, k: nat,
                        lineNumber: nat)
    requires lines == [UPDATE_FILE + path] + (MoveLines(movePath) + after)
    requires IsName(movePath) && |chunks| > 0 && |after| > 0 && after[0] != "" && after[0][0] == '@'
    requires forall n: nat :: Chunks(after, n) == Ok(Parsed(chunks, k))
    ensures UpdateHunk(path, lines, lineNumber)
         == Ok(Parsed(UpdateFile(path, movePath, chunks), 1 + |MoveLines(movePath)| + k))
  {
    UpdateLines(UPDATE_FILE + path, movePath, after);
    UpdateHunkFrom(path, movePath, chunks, k, lines, lineNumber);
  }

  lemma PrintedChunksAreRead(chunks: seq<UpdateChunk>, after: seq<string>, rest: seq<string>)
    requires |chunks| > 0 && (forall k :: 0 <= k < |chunks| ==> PrintableChunk(chunks[k])) && HunkStops(rest)
    requires after == PrintAll(PrintChunk, chunks) + rest
    ensures |after| > 0 && after[0] != "" && after[0][0] == '@'
    ensures forall n: nat :: Chunks(after, n) == Ok(Parsed(chunks, |PrintAll(PrintChunk, chunks)|))
  {
    HeaderLineStart(chunks[0].changeContext);
    assert after[0] == HeaderLine(chunks[0].changeContext);
    HunkStopStopsChunks(rest);
    forall n: nat
      ensures Chunks(after, n) == Ok(Parsed(chunks, |PrintAll(PrintChunk, chunks)|))
    {
      ReadChunks(chunks, rest, n);
    }
  }

  lemma UpdateHunkLines(header: seq<string>, moves: seq<string>, printed: seq<string>, rest: seq<string>)
    ensures (header + (moves + printed)) + rest == header + (moves + (printed + rest))
    ensures |header + (moves + printed)| == |header| + |moves| + |printed|
  {
    Assoc(header, moves + printed, rest);
    Assoc(moves, printed, rest);
  }

  lemma ReadUpdateHunk(path: string, movePath: string, chunks: seq<UpdateChunk>, rest: seq<string>, lineNumber: nat)
    requires IsName(movePath) && |chunks| > 0 && (forall k :: 0 <= k < |chunks| ==> PrintableChunk(chunks[k])) && HunkStops(rest)
    ensures var lines := [UPDATE_FILE + path] + (MoveLines(movePath) + PrintAll(PrintChunk, chunks));
            UpdateHunk(path, lines + rest, lineNumber) == Ok(Parsed(UpdateFile(path, movePath, chunks), |lines|))
  {
    var header, moves, printed := [UPDATE_FILE + path], MoveLines(movePath), PrintAll(PrintChunk, chunks);
    UpdateHunkLines(header, moves, printed, rest);
    PrintedChunksAreRead(chunks, printed + rest, rest);
    ReadUpdateLines(path, movePath, chunks, (header + (moves + printed)) + rest, printed + rest, |printed|, lineNumber);
  }

  lemma PrintedHunksStop(hs: seq<Hunk>)
    ensures HunkStops(PrintAll(PrintHunk, hs))
  {
    if |hs| > 0 {
      PrintHunkHead(hs[0]);
    }
  }

  lemma HunkReadsAs(h: Hunk, tail: seq<string>)
    requires PrintableHunk(h) && h.path != "" && HunkStops(tail)
    ensures ReadsAs(OneHunk, false, PrintHunk(h), tail, h)
  {
    PrintHunkHead(h);
    forall n: nat, first
      ensures OneHunk(PrintHunk(h) + tail, n, first) == Ok(Parsed(h, |PrintHunk(h)|))
    {
      ReadHunk(h, tail, n, first);
    }
  }

  lemma {:induction false} HunksReadAs(hs: seq<Hunk>, more: seq<Hunk>)
    requires (forall k :: 0 <= k < |hs| ==> PrintableHunk(hs[k])) && AllNamed(hs)
    ensures AllReadAs(OneHunk, false, PrintHunk, hs, PrintAll(PrintHunk, more))
    decreases |hs|
  {
    if |hs| > 0 {
      PrintedHunksStop(hs[1..] + more);
      PrintAllSplit(PrintHunk, hs[1..], more);
      HunkReadsAs(hs[0], PrintAll(PrintHunk, hs[1..]) + PrintAll(PrintHunk, more));
      HunksReadAs(hs[1..], more);
    }
  }

  lemma {:induction false} PrintAllSplit<T>(lay: T -> seq<string>, a: seq<T>, b: seq<T>)
    ensures PrintAll(lay, a + b) == PrintAll(lay, a) + PrintAll(lay, b)
  {
    if |a| == 0 {
      assert a + b == b;
    } else {
      assert (a + b)[1..] == a[1..] + b;
      PrintAllSplit(lay, a[1..], b);
    }
  }

  /** The hunks before the first one without a path. */
  function NamedPrefix(hs: seq<Hunk>): (k: nat)
    ensures k <= |hs| && AllNamed(hs[..k])
    ensures k < |hs| ==> hs[k].path == ""
  {
    if |hs| == 0 || hs[0].path == "" then 0 else 1 + NamedPrefix(hs[1..])
  }

  lemma ManyFails<T(!new)>(item: ItemParser<T>, lines: seq<string>, lineNumber: nat, first: bool)
    requires Progresses(item) && |lines| > 0 && !IsBlank(lines[0]) && item(lines, lineNumber, first).Err?
    ensures Many(item, false, lines, lineNumber, first).Err?
  {
  }

  lemma UnnamedEndsAt(h: Hunk, tail: seq<string>)
    requires PrintableHunk(h) && h.path == "" && HunkStops(tail)
    ensures EndsAt(OneHunk, false, PrintHunk(h) + tail, false)
  {
    PrintHunkHead(h);
    forall n: nat, first
      ensures Many(OneHunk, false, PrintHunk(h) + tail, n, first).Err?
    {
      ReadHunk(h, tail, n, first);
      ManyFails(OneHunk, PrintHunk(h) + tail, n, first);
    }
  }

  lemma HunksEndAt(hs: seq<Hunk>)
    requires (forall k :: 0 <= k < |hs| ==> PrintableHunk(hs[k])) && (|hs| > 0 ==> hs[0].path == "")
    ensures EndsAt(OneHunk, false, PrintAll(PrintHunk, hs), |hs| == 0)
  {
    if |hs| > 0 {
      PrintedHunksStop(hs[1..]);
      UnnamedEndsAt(hs[0], PrintAll(PrintHunk, hs[1..]));
    }
  }

  /** Reading printed hunks gives them back exactly when each has a path; otherwise reading fails. */
  lemma ReadHunks(hs: seq<Hunk>, lineNumber: nat)
    requires forall k :: 0 <= k < |hs| ==> PrintableHunk(hs[k])
    ensures Outcome(Many(OneHunk, false, PrintAll(PrintHunk, hs), lineNumber, true), AllNamed(hs), hs, |PrintAll(PrintHunk, hs)|)
  {
    var k := NamedPrefix(hs);
    var named, more := hs[..k], hs[k..];
    assert hs == named + more;
    PrintAllSplit(PrintHunk, named, more);
    HunksReadAs(named, more);
    HunksEndAt(more);
    ReadMany(OneHunk, false, PrintHunk, named, PrintAll(PrintHunk, more), |more| == 0, lineNumber, true);
    assert |more| > 0 ==> hs[k].path == "";
    assert |more| == 0 ==> hs == named && PrintAll(PrintHunk, hs) == PrintAll(PrintHunk, named);
  }

  // ---------------------------------------------------------------- whole patches

  lemma {:induction false} MarkedOneLines(mark: char, lines: seq<string>)
    requires mark != '\n' && OneLines(lines)
    ensures OneLines(Marked(mark, lines))
  {
    if |lines| > 0 {
      MarkedOneLines(mark, lines[1..]);
    }
  }

  lemma ConcatOneLines(a: seq<string>, b: seq<string>)
    requires OneLines(a) && OneLines(b)
    ensures OneLines(a + b)
  {
  }

  lemma PrintedChunkOneLines(c: UpdateChunk)
    requires PrintableChunk(c)
    ensures OneLines(PrintChunk(c))
  {
    MarkedOneLines('-', c.oldLines);
    MarkedOneLines('+', c.newLines);
  }

  lemma {:induction false} PrintedOneLines<T>(lay: T -> seq<string>, xs: seq<T>)
    requires forall k :: 0 <= k < |xs| ==> OneLines(lay(xs[k]))
    ensures OneLines(PrintAll(lay, xs))
  {
    if |xs| > 0 {
      PrintedOneLines(lay, xs[1..]);
    }
  }

  lemma PrintedHunkOneLines(h: Hunk)
    requires PrintableHunk(h)
    ensures OneLines(PrintHunk(h))
  {
    match h {
      case AddFile(_, contents) =>
        MarkedOneLines('+', ContentLines(contents));
      case DeleteFile(_) =>
      case UpdateFile(_, movePath, chunks) =>
        forall k | 0 <= k < |chunks|
          ensures OneLines(PrintChunk(chunks[k]))
        {
          PrintedChunkOneLines(chunks[k]);
        }
        PrintedOneLines(PrintChunk, chunks);
        ConcatOneLines(MoveLines(movePath), PrintAll(PrintChunk, chunks));
    }
  }

  /** The lines of a printed patch. */
  lemma InputLinesOfPrinted(p: Patch)
    requires Printable(p)
    ensures InputLines(PrintPatch(p)) == [BEGIN_PATCH] + PrintAll(PrintHunk, p.hunks) + [END_PATCH]
  {
    var lines := [BEGIN_PATCH] + PrintAll(PrintHunk, p.hunks) + [END_PATCH];
    forall k | 0 <= k < |p.hunks|
      ensures OneLines(PrintHunk(p.hunks[k]))
    {
      PrintedHunkOneLines(p.hunks[k]);
    }
    PrintedOneLines(PrintHunk, p.hunks);
    assert OneLine(BEGIN_PATCH) && OneLine(END_PATCH);
    assert OneLines(lines);
    SplitOfJoin(lines);
    JoinEndsInNewline(lines);
    var text := Join(lines);
    LastChar(text, '\n');
    assert text + "" == text;
    TrimRightOf(text, "", {'\n'});
  }

  lemma ParseByBody(input: string, body: seq<string>)
    requires InputLines(input) == [BEGIN_PATCH] + body + [END_PATCH]
    ensures ParsePatch(input) == Body(body)
  {
    Frame(BEGIN_PATCH, body, END_PATCH);
    BoundedBy(InputLines(input));
  }

  lemma BoundedBy(lines: seq<string>)
    requires |lines| >= 2 && lines[0] == BEGIN_PATCH && lines[|lines| - 1] == END_PATCH
    ensures Bounded(lines)
  {
    MarkersAreTrimmed();
    TrimmedIsFixed(lines[0]);
    TrimmedIsFixed(lines[|lines| - 1]);
  }

  lemma MarkersAreTrimmed()
    ensures IsTrimmed(BEGIN_PATCH) && IsTrimmed(END_PATCH)
  {
    assert BEGIN_PATCH[0] == END_PATCH[0] == '*' && BEGIN_PATCH[|BEGIN_PATCH| - 1] == END_PATCH[|END_PATCH| - 1] == 'h';
  }

  lemma Frame(first: string, body: seq<string>, last: string)
    ensures var lines := [first] + body + [last];
            |lines| >= 2 && lines[0] == first && lines[|lines| - 1] == last && lines[1..|lines| - 1] == body
  {
  }

  /** Printing and parsing gives the same patch exactly when every hunk has a path. */
  lemma ParseOfPrint(p: Patch)
    requires Printable(p)
    ensures ParsePatch(PrintPatch(p)) == Ok(p) <==> AllNamed(p.hunks)
  {
    InputLinesOfPrinted(p);
    ParseByBody(PrintPatch(p), PrintAll(PrintHunk, p.hunks));
    ReadHunks(p.hunks, 2);
  }

  /** Newlines after the end marker make no difference. */
  lemma FinalNewline(input: string, newlines: string)
    requires AllIn(newlines, {'\n'})
    ensures ParsePatch(input + newlines) == ParsePatch(input)
  {
    TrimRightAbsorbs(input, newlines, {'\n'});
  }

  // ---------------------------------------------------------------- everything parsed can be printed

  lemma TrimmedName(s: string)
    requires OneLine(s)
    ensures IsName(TrimSpace(s))
  {
    var a, b := TrimBothParts(s, SPACES);
    assert forall k :: 0 <= k < |TrimSpace(s)| ==> TrimSpace(s)[k] == s[|a| + k];
  }

  lemma TrimmedHeader(line: string)
    requires OneLine(line)
    ensures OneLine(TrimRight(line, BLANKS))
  {
    var b := TrimRightParts(line, BLANKS);
  }

  predicate SoFar(parsed: nat, c: UpdateChunk) {
    OneLine(c.changeContext) && OneLines(c.oldLines) && OneLines(c.newLines) && (parsed > 0 ==> |c.oldLines| + |c.newLines| > 0)
  }

  lemma {:induction false} BodyPrintable(lines: seq<string>, parsed: nat, c: UpdateChunk, lineNumber: nat)
    requires OneLines(lines) && SoFar(parsed, c)
    ensures var r := ChunkBody(lines, parsed, c, lineNumber); r.Ok? ==> SoFar(r.value.lines, r.value.value)
    decreases |lines|
  {
    if |lines| > 0 && lines[0] != EOF_MARKER {
      var text := if lines[0] == "" then "" else lines[0][1..];
      assert OneLine(text) && OneLines(lines[1..]);
      var mark := if lines[0] == "" then ' ' else lines[0][0];
      if mark == ' ' {
        BodyPrintable(lines[1..], parsed + 1, AddNew(AddOld(c, text), text), lineNumber);
      } else if mark == '+' {
        BodyPrintable(lines[1..], parsed + 1, AddNew(c, text), lineNumber);
      } else if mark == '-' {
        BodyPrintable(lines[1..], parsed + 1, AddOld(c, text), lineNumber);
      }
    }
  }

  lemma ChunkPrintable(lines: seq<string>, lineNumber: nat, first: bool)
    requires OneLines(lines)
    ensures var r := Chunk(lines, lineNumber, first); r.Ok? ==> PrintableChunk(r.value.value)
  {
    if |lines| > 0 {
      match ChunkHeader(lines[0]) {
        case None =>
          BodyPrintable(lines, 0, NO_CHUNK, lineNumber);
        case Some(context) =>
          BodyPrintable(lines[1..], 0, NO_CHUNK.(changeContext := context), lineNumber);
      }
    }
  }

  ghost predicate YieldsOnly<T(!new)>(item: ItemParser<T>, good: T -> bool) {
    forall lines, n: nat, first :: OneLines(lines) && item(lines, n, first).Ok? ==> good(item(lines, n, first).value.value)
  }

  ghost predicate AllGood<T(!new)>(r: Result<Parsed<seq<T>>, ParseError>, good: T -> bool) {
    r.Ok? ==> forall k :: 0 <= k < |r.value.value| ==> good(r.value.value[k])
  }

  lemma AllAfter<T(!new)>(items: seq<T>, n: nat, good: T -> bool, rest: Result<Parsed<seq<T>>, ParseError>)
    requires (forall k :: 0 <= k < |items| ==> good(items[k])) && AllGood(rest, good)
    ensures AllGood(After(items, n, rest), good)
  {
  }

  lemma {:induction false} ManyYieldsOnly<T(!new)>(item: ItemParser<T>, good: T -> bool, untilStar: bool, lines: seq<string>,
                                                   lineNumber: nat, first: bool)
    requires Progresses(item) && YieldsOnly(item, good) && OneLines(lines)
    ensures var r := Many(item, untilStar, lines, lineNumber, first);
            AllGood(r, good)
    decreases |lines|
  {
    if |lines| > 0 {
      if IsBlank(lines[0]) {
        ManyYieldsOnly(item, good, untilStar, lines[1..], lineNumber + 1, first);
        AllAfter([], 1, good, Many(item, untilStar, lines[1..], lineNumber + 1, first));
      } else if !(untilStar && lines[0][0] == '*') {
        var p := item(lines, lineNumber, first);
        if p.Ok? {
          assert good(p.value.value);
          ManyYieldsOnly(item, good, untilStar, lines[p.value.lines..], lineNumber + p.value.lines, false);
          AllAfter([p.value.value], p.value.lines, good,
                   Many(item, untilStar, lines[p.value.lines..], lineNumber + p.value.lines, false));
        }
      }
    }
  }

  lemma {:induction false} PlusTextEnds(lines: seq<string>)
    ensures PlusText(lines) == "" || PlusText(lines)[|PlusText(lines)| - 1] == '\n'
  {
    if |lines| > 0 && HasPrefix(lines[0], "+") {
      PlusTextEnds(lines[1..]);
    }
  }

  lemma ChunksPrintable(lines: seq<string>, lineNumber: nat)
    requires OneLines(lines)
    ensures var r := Chunks(lines, lineNumber);
            r.Ok? ==> forall k :: 0 <= k < |r.value.value| ==> PrintableChunk(r.value.value[k])
  {
    var good: UpdateChunk -> bool := PrintableChunk;
    forall lines, n: nat, first | OneLines(lines)
      ensures Chunk(lines, n, first).Ok? ==> good(Chunk(lines, n, first).value.value)
    {
      var c := Chunk(lines, n, first);
      ChunkPrintable(lines, n, first);
      assert c.Ok? ==> good(c.value.value) == PrintableChunk(c.value.value);
    }
    ManyYieldsOnly(Chunk, good, true, lines, lineNumber, true);
    var r := Chunks(lines, lineNumber);
    assert r.Ok? ==> forall k :: 0 <= k < |r.value.value| ==> good(r.value.value[k]) == PrintableChunk(r.value.value[k]);
  }

  lemma UpdateHunkPrintable(path: string, lines: seq<string>, lineNumber: nat)
    requires IsName(path) && |lines| > 0 && OneLines(lines)
    ensures var r := UpdateHunk(path, lines, lineNumber); r.Ok? ==> PrintableHunk(r.value.value)
  {
    var moved := |lines| > 1 && HasPrefix(lines[1], MOVE_TO);
    if moved {
      TrimmedName(lines[1][|MOVE_TO|..]);
    }
    var n := if moved then 2 else 1;
    ChunksPrintable(lines[n..], lineNumber + n);
  }

  lemma OneHunkPrintable(lines: seq<string>, lineNumber: nat, first: bool)
    requires OneLines(lines)
    ensures var r := OneHunk(lines, lineNumber, first); r.Ok? ==> PrintableHunk(r.value.value)
  {
    if |lines| > 0 {
      var header := TrimRight(lines[0], BLANKS);
      TrimmedHeader(lines[0]);
      OneHunkByMarker(lines, lineNumber, first);
      if HasPrefix(header, ADD_FILE) {
        TrimmedName(header[|ADD_FILE|..]);
        PlusTextEnds(lines[1..]);
      } else if HasPrefix(header, DELETE_FILE) {
        TrimmedName(header[|DELETE_FILE|..]);
      } else if HasPrefix(header, UPDATE_FILE) {
        TrimmedName(header[|UPDATE_FILE|..]);
        UpdateHunkPrintable(TrimSpace(header[|UPDATE_FILE|..]), lines, lineNumber);
      }
    }
  }

  /** Whatever the parser accepts can be printed: it has hunks, every update hunk has chunks, every chunk has lines. */
  lemma ParsedIsPrintable(input: string)
    requires ParsePatch(input).Ok?
    ensures Printable(ParsePatch(input).value)
  {
    forall lines, n: nat, first | OneLines(lines)
      ensures OneHunk(lines, n, first).Ok? ==> PrintableHunk(OneHunk(lines, n, first).value.value)
    {
      OneHunkPrintable(lines, n, first);
    }
    var lines := InputLines(input);
    ManyYieldsOnly(OneHunk, PrintableHunk, false, lines[1..|lines| - 1], 2, true);
  }

  /** Printing what was parsed and parsing again gives the same patch, exactly when no hunk has an empty path. */
  lemma Reparse(input: string)
    requires ParsePatch(input).Ok?
    ensures var p := ParsePatch(input).value;
            ParsePatch(PrintPatch(p)) == Ok(p) <==> AllNamed(p.hunks)
  {
    ParsedIsPrintable(input);
    ParseOfPrint(ParsePatch(input).value);
  }
}
