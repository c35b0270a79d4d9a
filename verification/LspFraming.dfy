/** Content-Length framing, the "Header Part" of the Base Protocol of the LSP 3.17 specification. */
module LspFraming {
  import opened Text
  import opened Decimal

  const FIELD := "Content-Length"

  function LengthHeader(n: int): string {
    FIELD + ": " + PrintInt(n) + "\r\n\r\n"
  }

  function Frame(body: string): string {
    LengthHeader(|body|) + body
  }

  // ---------------------------------------------------------------- reading

  datatype Line = NoLine | Line(text: string, rest: string)

  /** Up to and including the next newline. */
  function ReadLine(s: string): (r: Line)
    ensures r.Line? ==> |r.rest| < |s|
  {
    if s == "" then NoLine
    else if s[0] == '\n' then Line("\n", s[1..])
    else
      match ReadLine(s[1..])
      case NoLine => NoLine
      case Line(text, rest) => Line([s[0]] + text, rest)
  }

  /** The position of the first colon, or the length. */
  function Colon(line: string): (k: nat)
    ensures k <= |line|
  {
    if line == "" || line[0] == ':' then 0 else 1 + Colon(line[1..])
  }

  /** What one header line does to the length: other fields, and lines without a colon, leave it. */
  function HeaderField(line: string, length: int): Option<int> {
    var k := Colon(line);
    if k == |line| || !EqualFold(TrimSpace(line[..k]), FIELD) then Some(length)
    else Atoi(TrimSpace(line[k + 1..]))
  }

  datatype Fault = EndOfStream | BadLength | NoLength

  datatype Header = Header(length: int, rest: string) | HeaderFault(fault: Fault)

  /** Header lines up to the blank one. */
  function ReadHeader(s: string, length: int): Header
    decreases |s|
  {
    match ReadLine(s)
    case NoLine => HeaderFault(EndOfStream)
    case Line(text, rest) =>
      var line := TrimRight(text, NEWLINES);
      if line == "" then Header(length, rest)
      else
        match HeaderField(line, length)
        case None => HeaderFault(BadLength)
        case Some(n) => ReadHeader(rest, n)
  }

  datatype Received = Received(body: string, rest: string) | Failed(fault: Fault) | Crashed

  /** One message off the stream. Allocating the buffer panics for a negative length and for one above `limit`, the largest that
      can be allocated; only zero is tested for before. */
  function Receive(limit: nat, s: string): Received {
    match ReadHeader(s, 0)
    case HeaderFault(fault) => Failed(fault)
    case Header(length, rest) =>
      if length == 0 then Failed(NoLength)
      else if length < 0 || length > limit then Crashed
      else if length > |rest| then Failed(EndOfStream)
      else Received(rest[..length], rest[length..])
  }

  lemma {:induction false} ReadHeaderShrinks(s: string, length: int)
    ensures ReadHeader(s, length).Header? ==> |ReadHeader(s, length).rest| < |s|
    decreases |s|
  {
    match ReadLine(s)
    case NoLine =>
    case Line(text, rest) =>
      var line := TrimRight(text, NEWLINES);
      if line != "" && HeaderField(line, length).Some? {
        ReadHeaderShrinks(rest, HeaderField(line, length).value);
      }
  }

  /** Messages until one cannot be received, and how that one came out. */
  function ReceiveAll(limit: nat, s: string): (seq<string>, Received)
    decreases |s|
  {
    match Receive(limit, s)
    case Received(body, rest) =>
      ReadHeaderShrinks(s, 0);
      var (bodies, end) := ReceiveAll(limit, rest);
      ([body] + bodies, end)
    case end => ([], end)
  }

  // ---------------------------------------------------------------- when reading crashes

  /** The lines of a header, up to the blank one. */
  function HeaderLines(s: string): Option<seq<string>>
    decreases |s|
  {
    match ReadLine(s)
    case NoLine => None
    case Line(text, rest) =>
      var line := TrimRight(text, NEWLINES);
      if line == "" then Some([])
      else
        match HeaderLines(rest)
        case None => None
        case Some(lines) => Some([line] + lines)
  }

  predicate IsLengthLine(line: string) {
    var k := Colon(line);
    k < |line| && EqualFold(TrimSpace(line[..k]), FIELD)
  }

  function LengthOf(line: string): Option<int>
    requires IsLengthLine(line)
  {
    Atoi(TrimSpace(line[Colon(line) + 1..]))
  }

  /** What the length lines say, in order. */
  function Lengths(lines: seq<string>): seq<Option<int>> {
    if |lines| == 0 then [] else (if IsLengthLine(lines[0]) then [LengthOf(lines[0])] else []) + Lengths(lines[1..])
  }

  predicate AllNumbers(lengths: seq<Option<int>>) {
    forall k :: 0 <= k < |lengths| ==> lengths[k].Some?
  }

  /** The last of them, after `length`. */
  function LastLength(length: int, lengths: seq<Option<int>>): int
    requires AllNumbers(lengths)
  {
    if |lengths| == 0 then length else lengths[|lengths| - 1].value
  }

  lemma OneMoreLength(length: int, first: Option<int>, lengths: seq<Option<int>>)
    ensures AllNumbers([first] + lengths) <==> first.Some? && AllNumbers(lengths)
    ensures AllNumbers([first] + lengths) ==> LastLength(length, [first] + lengths) == LastLength(first.value, lengths)
  {
    assert ([first] + lengths)[0] == first;
    assert forall k :: 0 <= k < |lengths| ==> ([first] + lengths)[k + 1] == lengths[k];
  }

  lemma LengthsCons(line: string, rest: seq<string>)
    ensures Lengths([line] + rest) == (if IsLengthLine(line) then [LengthOf(line)] else []) + Lengths(rest)
  {
    assert ([line] + rest)[1..] == rest;
  }

  /** The header ends, and all its length lines are numbers. */
  predicate Readable(lines: Option<seq<string>>) {
    lines.Some? && AllNumbers(Lengths(lines.value))
  }

  /** A header is read to its end exactly when it is readable; the last length counts. */
  lemma {:induction false} HeaderByLines(s: string, length: int)
    ensures var lines, h := HeaderLines(s), ReadHeader(s, length);
            && (h.Header? <==> Readable(lines))
            && (h.Header? ==> h.length == LastLength(length, Lengths(lines.value)))
    decreases |s|
  {
    match ReadLine(s)
    case NoLine =>
    case Line(text, rest) =>
      var line := TrimRight(text, NEWLINES);
      if line != "" {
        var next := HeaderField(line, length);
        if next.Some? {
          HeaderByLines(rest, next.value);
        }
        if HeaderLines(rest).Some? {
          LengthsCons(line, HeaderLines(rest).value);
          OneMoreLength(length, next, Lengths(HeaderLines(rest).value));
          assert !IsLengthLine(line) ==> [] + Lengths(HeaderLines(rest).value) == Lengths(HeaderLines(rest).value);
        }
      }
  }

  /** Reading a message crashes exactly when its header ends, all its length lines are numbers, and the last is negative or more
      than can be allocated; whatever follows the header. */
  lemma CrashesExactlyOnImpossibleLength(limit: nat, s: string)
    ensures Receive(limit, s) == Crashed <==>
            && HeaderLines(s).Some?
            && var lengths := Lengths(HeaderLines(s).value);
               |lengths| > 0 && AllNumbers(lengths) && var last := lengths[|lengths| - 1].value; last < 0 || last > limit
  {
    HeaderByLines(s, 0);
  }

  // ---------------------------------------------------------------- the reader

  class Reader {
    /** The largest buffer that can be allocated. */
    const limit: nat
    var stream: string

    constructor (s: string, limit: nat)
      ensures stream == s && this.limit == limit
    {
      stream, this.limit := s, limit;
    }

    method ReadMessage() returns (r: Received)
      modifies this
      ensures r == Receive(limit, old(stream))
      ensures r.Received? ==> stream == r.rest
    {
      var contentLength: int := 0;
      ghost var header := ReadHeader(stream, 0);
      while true
        invariant header == ReadHeader(stream, contentLength)
        invariant header == ReadHeader(old(stream), 0)
        decreases |stream|
      {
        var read := ReadLine(stream);
        if read.NoLine? {
          return Failed(EndOfStream);
        }
        stream := read.rest;
        var line := TrimRight(read.text, NEWLINES);
        if line == "" {
          break;
        }
        var field := HeaderField(line, contentLength);
        if field.None? {
          return Failed(BadLength);
        }
        contentLength := field.value;
      }
      if contentLength == 0 {
        return Failed(NoLength);
      }
      if contentLength < 0 || contentLength > limit {
        return Crashed;
      }
      if contentLength > |stream| {
        return Failed(EndOfStream);
      }
      r := Received(stream[..contentLength], stream[contentLength..]);
      stream := r.rest;
    }
  }

  // ---------------------------------------------------------------- a frame is read back

  lemma {:induction false} ReadLineOf(text: string, rest: string)
    requires '\n' !in text
    ensures ReadLine(text + "\n" + rest) == Line(text + "\n", rest)
  {
    var s := text + "\n" + rest;
    if text == "" {
      assert s[1..] == rest;
    } else {
      assert s[1..] == text[1..] + "\n" + rest;
      ReadLineOf(text[1..], rest);
      assert [text[0]] + (text[1..] + "\n") == text + "\n";
    }
  }

  lemma {:induction false} ColonOf(name: string, rest: string)
    requires ':' !in name
    ensures Colon(name + ":" + rest) == |name|
  {
    if name != "" {
      assert (name + ":" + rest)[1..] == name[1..] + ":" + rest;
      ColonOf(name[1..], rest);
    }
  }

  lemma NumeralIsTrimmed(s: string)
    requires IsNumeral(s)
    ensures IsTrimmed(s) && '\n' !in s && '\r' !in s
  {
    assert IsDigit(s[0]) || s[0] == '-';
    assert IsDigit(s[|s| - 1]) || s[|s| - 1] == '-';
  }

  /** The field is found by its name in any case, and white space around name and number does not count. */
  lemma FieldByName(name: string, numeral: string, length: int)
    requires EqualFold(name, "Content-Length") && IsNumeral(numeral)
    ensures HeaderField(name + ": " + numeral, length) == Atoi(numeral)
  {
    var line := name + ": " + numeral;
    forall k | 0 <= k < |name|
      ensures name[k] != ':' && name[k] !in SPACES
    {
      assert Lower(name[k]) == Lower("Content-Length"[k]);
    }
    NumeralIsTrimmed(numeral);
    ColonOf(name, " " + numeral);
    assert line == name + ":" + (" " + numeral);
    assert line[..|name|] == name && line[|name| + 1..] == " " + numeral;
    TrimmedIsFixed(name);
    assert " " + numeral == " " + numeral + "";
    TrimBothOf(" ", numeral, "", SPACES);
  }

  lemma FieldOfLength(numeral: string, length: int)
    requires IsNumeral(numeral)
    ensures HeaderField(FIELD + ": " + numeral, length) == Atoi(numeral)
  {
    FieldByName(FIELD, numeral, length);
  }

  /** For instance in upper case. */
  lemma FieldInUpperCase(numeral: string, length: int)
    requires IsNumeral(numeral)
    ensures HeaderField("CONTENT-LENGTH" + ": " + numeral, length) == Atoi(numeral)
  {
    FieldByName("CONTENT-LENGTH", numeral, length);
  }

  /** A header line that ends in CR LF, and what it does to the length. */
  lemma HeaderLine(text: string, after: string, length: int, n: int)
    requires '\n' !in text && text != "" && text[|text| - 1] !in NEWLINES
    requires HeaderField(text, length) == Some(n)
    ensures ReadHeader(text + "\r\n" + after, length) == ReadHeader(after, n)
  {
    ReadLineOf(text + "\r", after);
    assert text + "\r\n" + after == (text + "\r") + "\n" + after;
    assert (text + "\r") + "\n" == text + "\r\n";
    TrimRightOf(text, "\r\n", NEWLINES);
  }

  lemma LengthLine(numeral: string)
    requires IsNumeral(numeral)
    ensures var text := FIELD + ": " + numeral;
            '\n' !in text && text[|text| - 1] !in NEWLINES
  {
    var text := FIELD + ": " + numeral;
    NumeralIsTrimmed(numeral);
    assert text[|text| - 1] == numeral[|numeral| - 1];
  }

  lemma HeaderParts(text: string, rest: string)
    ensures text + "\r\n\r\n" + rest == text + "\r\n" + ("\r" + "\n" + rest)
  {
  }

  lemma BlankLine(length: int, rest: string)
    ensures ReadHeader("\r" + "\n" + rest, length) == Header(length, rest)
  {
    ReadLineOf("\r", rest);
    assert "\r" + "\n" == "" + "\r\n";
    TrimRightOf("", "\r\n", NEWLINES);
  }

  /** A length line and the blank line are read to that length, whatever 64-bit number it is. */
  lemma HeaderOfLength(n: int, rest: string)
    requires -MAX_INT - 1 <= n <= MAX_INT
    ensures ReadHeader(LengthHeader(n) + rest, 0) == Header(n, rest)
  {
    var numeral := PrintInt(n);
    var text := FIELD + ": " + numeral;
    PrintedNumeral(n);
    LengthLine(numeral);
    FieldOfLength(numeral, 0);
    AtoiOfPrint(n);
    HeaderParts(text, rest);
    HeaderLine(text, "\r" + "\n" + rest, 0, n);
    BlankLine(n, rest);
  }

  /** What reading comes to behind such a header. */
  lemma ReceiveByLength(limit: nat, n: int, rest: string)
    requires -MAX_INT - 1 <= n <= MAX_INT
    ensures Receive(limit, LengthHeader(n) + rest) ==
            if n == 0 then Failed(NoLength)
            else if n < 0 || n > limit then Crashed
            else if n > |rest| then Failed(EndOfStream)
            else Received(rest[..n], rest[n..])
  {
    HeaderOfLength(n, rest);
  }

  const MINUS_ONE := "Content-Length: " + "-1" + "\r\n\r\n"
  const LARGEST := "Content-Length: " + "9223372036854775807" + "\r\n\r\n"

  lemma MinusOneHeader()
    ensures LengthHeader(-1) == MINUS_ONE
  {
    assert FIELD + ": " == "Content-Length: ";
    assert Print(1) == "1";
  }

  lemma LargestHeader()
    ensures LengthHeader(MAX_INT) == LARGEST
  {
    assert FIELD + ": " == "Content-Length: ";
    PrintedMaximum();
  }

  /** Two headers that crash the reader, whatever follows them: the length -1, and, unless every length can be allocated, the
      largest one that parses. */
  lemma HeadersThatCrash(limit: nat, rest: string)
    ensures Receive(limit, MINUS_ONE + rest) == Crashed
    ensures Receive(limit, LARGEST + rest) == Crashed <==> limit < MAX_INT
  {
    MinusOneHeader();
    LargestHeader();
    ReceiveByLength(limit, -1, rest);
    ReceiveByLength(limit, MAX_INT, rest);
  }

  /** A frame is read back, and the stream is then right behind it, exactly when the body is not empty and can be allocated. */
  lemma ReceiveOfFrame(limit: nat, body: string, rest: string)
    requires |body| <= MAX_INT
    ensures Receive(limit, Frame(body) + rest) ==
            if body == "" then Failed(NoLength) else if |body| > limit then Crashed else Received(body, rest)
  {
    Assoc(LengthHeader(|body|), body, rest);
    ReceiveByLength(limit, |body|, body + rest);
    assert (body + rest)[..|body|] == body && (body + rest)[|body|..] == rest;
  }

  function Frames(bodies: seq<string>): string {
    if |bodies| == 0 then "" else Frame(bodies[0]) + Frames(bodies[1..])
  }

  predicate Sendable(body: string) {
    body != "" && |body| <= MAX_INT
  }

  /** The leading bodies that the reader can allocate. */
  function Fitting(limit: nat, bodies: seq<string>): (n: nat)
    ensures n <= |bodies| && (forall k :: 0 <= k < n ==> |bodies[k]| <= limit) && (n < |bodies| ==> |bodies[n]| > limit)
  {
    if |bodies| == 0 || |bodies[0]| > limit then 0 else 1 + Fitting(limit, bodies[1..])
  }

  /** Whole frames followed by something that is not a message: the bodies in order up to the first that cannot be allocated,
      where reading crashes; without one, all of them, and then whatever that something comes to. */
  lemma {:induction false} ReceiveAllOfFrames(limit: nat, bodies: seq<string>, partial: string)
    requires forall k :: 0 <= k < |bodies| ==> Sendable(bodies[k])
    requires !Receive(limit, partial).Received?
    ensures var n := Fitting(limit, bodies);
            ReceiveAll(limit, Frames(bodies) + partial) == (bodies[..n], if n < |bodies| then Crashed else Receive(limit, partial))
    decreases |bodies|
  {
    if |bodies| == 0 {
      assert "" + partial == partial;
    } else {
      var rest := Frames(bodies[1..]) + partial;
      Assoc(Frame(bodies[0]), Frames(bodies[1..]), partial);
      ReceiveOfFrame(limit, bodies[0], rest);
      if |bodies[0]| <= limit {
        ReceiveAllOfFrames(limit, bodies[1..], partial);
        assert [bodies[0]] + bodies[1..][..Fitting(limit, bodies[1..])] == bodies[..Fitting(limit, bodies)];
      }
    }
  }

  // ---------------------------------------------------------------- concurrent writers

  /** What the holder of the write lock has put on the stream so far. */
  datatype Progress = NothingYet(body: string) | HeaderWritten(body: string)

  /** The stream, the bodies in the order their writers got the lock, and the writer that holds it. */
  datatype Pipe = Pipe(stream: string, log: seq<string>, holder: Option<(nat, Progress)>)

  datatype WriteStep = Lock(writer: nat, body: string) | WriteHeader(writer: nat) | WriteBody(writer: nat)

  const EMPTY_PIPE := Pipe("", [], None)

  predicate CanStep(p: Pipe, step: WriteStep) {
    match step
    case Lock(_, body) => p.holder.None? && Sendable(body)
    case WriteHeader(w) => p.holder.Some? && p.holder.value.0 == w && p.holder.value.1.NothingYet?
    case WriteBody(w) => p.holder.Some? && p.holder.value.0 == w && p.holder.value.1.HeaderWritten?
  }

  /** WriteBody writes the body and gives the lock back. */
  function StepPipe(p: Pipe, step: WriteStep): Pipe
    requires CanStep(p, step)
  {
    match step
    case Lock(w, body) => p.(holder := Some((w, NothingYet(body))))
    case WriteHeader(w) =>
      var body := p.holder.value.1.body;
      p.(stream := p.stream + LengthHeader(|body|), holder := Some((w, HeaderWritten(body))))
    case WriteBody(w) =>
      var body := p.holder.value.1.body;
      Pipe(p.stream + body, p.log + [body], None)
  }

  function Unfinished(p: Pipe): string {
    if p.holder.Some? && p.holder.value.1.HeaderWritten? then LengthHeader(|p.holder.value.1.body|) else ""
  }

  ghost predicate PipeInv(p: Pipe) {
    && p.stream == Frames(p.log) + Unfinished(p)
    && (forall k :: 0 <= k < |p.log| ==> Sendable(p.log[k]))
    && (p.holder.Some? ==> Sendable(p.holder.value.1.body))
  }

  lemma {:induction false} FramesAppend(bodies: seq<string>, body: string)
    ensures Frames(bodies + [body]) == Frames(bodies) + Frame(body)
  {
    if |bodies| == 0 {
      assert [body][1..] == [] && bodies + [body] == [body];
      assert Frames([]) == "" && Frame(body) + "" == Frame(body);
    } else {
      assert (bodies + [body])[1..] == bodies[1..] + [body];
      FramesAppend(bodies[1..], body);
    }
  }

  lemma StepKeepsPipeInv(p: Pipe, step: WriteStep)
    requires PipeInv(p) && CanStep(p, step)
    ensures PipeInv(StepPipe(p, step))
  {
    match step {
      case Lock(_, _) =>
      case WriteHeader(_) =>
        assert Frames(p.log) + "" == Frames(p.log);
      case WriteBody(_) =>
        var body := p.holder.value.1.body;
        FramesAppend(p.log, body);
        Assoc(Frames(p.log), LengthHeader(|body|), body);
        assert Frames(p.log + [body]) + "" == Frames(p.log + [body]);
    }
  }

  predicate PipeRuns(p: Pipe, steps: seq<WriteStep>)
    decreases |steps|
  {
    |steps| == 0 || (CanStep(p, steps[0]) && PipeRuns(StepPipe(p, steps[0]), steps[1..]))
  }

  function PipeAfter(p: Pipe, steps: seq<WriteStep>): Pipe
    requires PipeRuns(p, steps)
    decreases |steps|
  {
    if |steps| == 0 then p else PipeAfter(StepPipe(p, steps[0]), steps[1..])
  }

  lemma {:induction false} RunKeepsPipeInv(p: Pipe, steps: seq<WriteStep>)
    requires PipeInv(p) && PipeRuns(p, steps)
    ensures PipeInv(PipeAfter(p, steps))
    decreases |steps|
  {
    if |steps| > 0 {
      StepKeepsPipeInv(p, steps[0]);
      RunKeepsPipeInv(StepPipe(p, steps[0]), steps[1..]);
    }
  }

  /** A header without its body is not a message yet. */
  lemma UnfinishedIsNoMessage(limit: nat, body: string)
    requires Sendable(body)
    ensures Receive(limit, "") == Failed(EndOfStream)
    ensures Receive(limit, LengthHeader(|body|)) == if |body| > limit then Crashed else Failed(EndOfStream)
  {
    assert LengthHeader(|body|) + "" == LengthHeader(|body|);
    ReceiveByLength(limit, |body|, "");
  }

  /** Everybody who has written at least a header wrote a body the reader can allocate. */
  predicate AllFit(limit: nat, p: Pipe) {
    && (forall k :: 0 <= k < |p.log| ==> |p.log[k]| <= limit)
    && (p.holder.Some? && p.holder.value.1.HeaderWritten? ==> |p.holder.value.1.body| <= limit)
  }

  /** After any interleaving of writers, reading the stream gives the bodies written, in lock order, up to the first that cannot
      be allocated; so all of them, and then the end of the stream, exactly when every one announced can be. */
  lemma InterleavedFramesAreReadBack(limit: nat, steps: seq<WriteStep>)
    requires PipeRuns(EMPTY_PIPE, steps)
    ensures var p := PipeAfter(EMPTY_PIPE, steps);
            var (bodies, end) := ReceiveAll(limit, p.stream);
            && bodies == p.log[..Fitting(limit, p.log)]
            && end in {Failed(EndOfStream), Crashed}
            && ((bodies, end) == (p.log, Failed(EndOfStream)) <==> AllFit(limit, p))
  {
    assert Frames([]) + "" == "";
    RunKeepsPipeInv(EMPTY_PIPE, steps);
    var p := PipeAfter(EMPTY_PIPE, steps);
    UnfinishedIsNoMessage(limit, if p.holder.Some? then p.holder.value.1.body else "x");
    ReceiveAllOfFrames(limit, p.log, Unfinished(p));
    assert p.log[..|p.log|] == p.log;
  }

  /** The client's end of the pipe: write, with the lock held throughout. */
  class Writer {
    var stream: string
    var closed: bool

    constructor ()
      ensures stream == "" && !closed
    {
      stream, closed := "", false;
    }

    method Write(body: string) returns (ok: bool)
      modifies this
      ensures ok == !old(closed) && closed == old(closed)
      ensures stream == if ok then old(stream) + Frame(body) else old(stream)
    {
      if closed {
        return false;
      }
      stream := stream + LengthHeader(|body|);
      stream := stream + body;
      ok := true;
    }
  }
}
