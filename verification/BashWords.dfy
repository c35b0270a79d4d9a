/** Command lines written out piece by piece (plain characters, quoted texts, escaped characters, operators) and what the splitter
    makes of them. */
module BashWords {
  import opened Text
  import opened BashChain

  /** Amp is a single ampersand and the character behind it. */
  datatype Piece = Plain(c: char) | Quoted(q: char, inner: string) | Escaped(c: char) | Amp(c: char)

  const SPECIAL: set<char> := {'\'', '"', '\\', '&', '|', ';'}

  /** Text that can stand between two `q`: neither `q` nor a backslash, but for backslashes with the character behind them. */
  predicate IsInner(inner: string, q: char) {
    inner == ""
    || (if inner[0] == '\\' then |inner| > 1 && IsInner(inner[2..], q) else inner[0] != q && IsInner(inner[1..], q))
  }

  predicate IsPiece(p: Piece) {
    match p
    case Plain(c) => c !in SPECIAL
    case Quoted(q, inner) => q in {'\'', '"'} && IsInner(inner, q)
    case Escaped(_) => true
    case Amp(c) => c !in SPECIAL
  }

  function PieceText(p: Piece): string {
    match p
    case Plain(c) => [c]
    case Quoted(q, inner) => [q] + (inner + [q])
    case Escaped(c) => ['\\', c]
    case Amp(c) => ['&', c]
  }

  function CommandText(ps: seq<Piece>): string {
    if |ps| == 0 then "" else PieceText(ps[0]) + CommandText(ps[1..])
  }

  predicate IsCommand(ps: seq<Piece>) {
    forall k :: 0 <= k < |ps| ==> IsPiece(ps[k])
  }

  // ---------------------------------------------------------------- pieces are never cut

  lemma {:induction false} InnerIsKept(inner: string, q: char, after: string, cur: string)
    requires IsInner(inner, q) && q in {'\'', '"'}
    ensures Scan(inner + ([q] + after), cur, Some(q)) == Scan(after, cur + (inner + [q]), None)
    decreases |inner|
  {
    var s := inner + ([q] + after);
    if inner == "" {
      assert s == [q] + after && cur + ("" + [q]) == cur + [q];
      QuoteCloses(q, after, cur);
    } else {
      var n := if inner[0] == '\\' then 2 else 1;
      var head, more := inner[..n], inner[n..];
      assert inner == head + more && s[0] == inner[0];
      Assoc(head, more, [q] + after);
      ScanKept(s, cur, Some(q), head, more + ([q] + after), Some(q));
      InnerIsKept(more, q, after, cur + head);
      Assoc(cur, head, more + [q]);
      Assoc(head, more, [q]);
    }
  }

  lemma QuoteCloses(q: char, after: string, cur: string)
    requires q != '\\'
    ensures Scan([q] + after, cur, Some(q)) == Scan(after, cur + [q], None)
  {
    ScanKept([q] + after, cur, Some(q), [q], after, None);
  }

  lemma QuoteOpens(q: char, after: string, cur: string)
    requires IsQuote(q)
    ensures Scan([q] + after, cur, None) == Scan(after, cur + [q], Some(q))
  {
    ScanKept([q] + after, cur, None, [q], after, Some(q));
  }

  /** No piece is cut: text between two quotes of either kind, a character behind a backslash, a single ampersand. */
  lemma PieceIsKept(p: Piece, after: string, cur: string)
    requires IsPiece(p)
    ensures Scan(PieceText(p) + after, cur, None) == Scan(after, cur + PieceText(p), None)
  {
    match p {
      case Quoted(q, inner) =>
        Assoc([q], inner + [q], after);
        Assoc(inner, [q], after);
        QuoteOpens(q, inner + ([q] + after), cur);
        InnerIsKept(inner, q, after, cur + [q]);
        Assoc(cur, [q], inner + [q]);
      case Amp(c) =>
        assert PieceText(p) + after == "&" + ([c] + after) && cur + "&" + [c] == cur + PieceText(p);
        ScanKept(PieceText(p) + after, cur, None, "&", [c] + after, None);
        ScanKept([c] + after, cur + "&", None, [c], after, None);
      case _ =>
        ScanKept(PieceText(p) + after, cur, None, PieceText(p), after, None);
    }
  }

  lemma {:induction false} CommandIsKept(ps: seq<Piece>, after: string, cur: string)
    requires IsCommand(ps)
    ensures Scan(CommandText(ps) + after, cur, None) == Scan(after, cur + CommandText(ps), None)
    decreases |ps|
  {
    if |ps| == 0 {
      assert "" + after == after && cur + "" == cur;
    } else {
      var head, more := PieceText(ps[0]), CommandText(ps[1..]);
      Assoc(head, more, after);
      PieceIsKept(ps[0], more + after, cur);
      CommandIsKept(ps[1..], after, cur + head);
      Assoc(cur, head, more);
    }
  }

  // ---------------------------------------------------------------- operators cut

  const OPERATORS: set<string> := {"&&", "||", "|", ";"}

  lemma OperatorCuts(op: string, after: string, cur: string)
    requires op in OPERATORS && (op == "|" && after != "" ==> after[0] != '|')
    ensures Scan(op + after, cur, None) == Part(cur) + Scan(after, "", None)
  {
    var s := op + after;
    assert s[0] == op[0] && (|s| > 1 ==> s[1] == if |op| > 1 then op[1] else after[0]);
    assert s[|op|..] == after;
  }

  /** A command behind an operator. */
  datatype Next = Next(op: string, command: seq<Piece>)

  function LineText(nexts: seq<Next>): string {
    if |nexts| == 0 then "" else nexts[0].op + (CommandText(nexts[0].command) + LineText(nexts[1..]))
  }

  function PartsOf(nexts: seq<Next>): seq<string> {
    if |nexts| == 0 then [] else Part(CommandText(nexts[0].command)) + PartsOf(nexts[1..])
  }

  /** A single bar is not followed by another. */
  predicate IsLineOf(nexts: seq<Next>) {
    |nexts| == 0 || (
      var text := CommandText(nexts[0].command) + LineText(nexts[1..]);
      && nexts[0].op in OPERATORS && IsCommand(nexts[0].command)
      && (nexts[0].op == "|" && text != "" ==> text[0] != '|')
      && IsLineOf(nexts[1..]))
  }

  lemma {:induction false} NextsSplit(nexts: seq<Next>, cur: string)
    requires IsLineOf(nexts)
    ensures Scan(LineText(nexts), cur, None) == Part(cur) + PartsOf(nexts)
    decreases |nexts|
  {
    if |nexts| == 0 {
      assert Part(cur) + [] == Part(cur);
    } else {
      var text, more := CommandText(nexts[0].command), LineText(nexts[1..]);
      OperatorCuts(nexts[0].op, text + more, cur);
      CommandIsKept(nexts[0].command, more, "");
      assert "" + text == text;
      NextsSplit(nexts[1..], text);
    }
  }

  /** A line of commands with operators between them is split into exactly those commands, each trimmed, the blank ones left out. */
  lemma LineSplits(first: seq<Piece>, nexts: seq<Next>)
    requires IsCommand(first) && IsLineOf(nexts)
    ensures Parts(CommandText(first) + LineText(nexts)) == Part(CommandText(first)) + PartsOf(nexts)
  {
    CommandIsKept(first, LineText(nexts), "");
    assert "" + CommandText(first) == CommandText(first);
    NextsSplit(nexts, CommandText(first));
  }

  /** What goes in for a command: what is left of it without the white space around it, or nothing. */
  lemma PartMeaning(before: string, core: string, after: string)
    requires AllIn(before, {' ', '\t', '\n', '\U{000B}', '\U{000C}', '\r'}) && AllIn(after, {' ', '\t', '\n', '\U{000B}', '\U{000C}', '\r'})
    requires IsTrimmed(core)
    ensures Part(before + core + after) == if core == "" then [] else [core]
  {
    TrimBothOf(before, core, after, SPACES);
  }
}
