/** What the block parser takes for a marker and for a file name, written out character by character. */
module EditNames {
  import opened Text
  import opened EditLines
  import opened EditParser

  // ---------------------------------------------------------------- markers

  function Run(c: char, k: nat): string {
    seq(k, _ => c)
  }

  /** `k` of `c`, five to nine, then `word`, then `end` or nothing, then white space. */
  ghost predicate Marks(t: string, c: char, word: string, end: string, k: nat, mark: string, white: string) {
    && 5 <= k <= 9 && (mark == "" || mark == end) && AllIn(white, {' ', '\t', '\n', '\U{000C}', '\r'})
    && t == Run(c, k) + (word + (mark + white))
  }

  lemma {:induction false} RunPrefix(t: string, c: char)
    ensures var k := RunLength(t, c); t == Run(c, k) + t[k..]
  {
    if t != "" && t[0] == c {
      var k := RunLength(t[1..], c);
      RunPrefix(t[1..], c);
      assert Run(c, k + 1) == [c] + Run(c, k);
      assert t == [c] + t[1..] && t[1..][k..] == t[k + 1..];
    }
  }

  lemma MarkerParts(t: string, c: char, word: string, end: string) returns (k: nat, mark: string, white: string)
    requires IsMarker(t, c, word, end)
    ensures Marks(t, c, word, end, k, mark, white)
  {
    k := RunLength(t, c);
    var tail, rest := t[k..], t[k + |word|..];
    mark := if end != "" && HasPrefix(rest, end) then end else "";
    white := rest[|mark|..];
    assert rest == tail[|word|..];
    WordAndRest(tail, word, rest, mark, white);
    RunPrefix(t, c);
  }

  lemma WordAndRest(t: string, word: string, rest: string, mark: string, white: string)
    requires HasPrefix(t, word) && rest == t[|word|..] && HasPrefix(rest, mark) && white == rest[|mark|..]
    ensures t == word + (mark + white)
  {
  }

  lemma MarkedIsMarker(t: string, c: char, word: string, end: string, k: nat, mark: string, white: string)
    requires Marks(t, c, word, end, k, mark, white) && c !in GAPS
    requires word != "" ==> word[0] != c
    requires end != "" ==> end[0] !in GAPS && word != ""
    ensures IsMarker(t, c, word, end)
  {
    var rest := mark + white;
    RunOf(c, k, word + rest);
    assert t[k..] == word + rest && (word + rest)[..|word|] == word && t[k + |word|..] == rest;
    if mark != "" {
      assert rest[..|end|] == end && rest[|end|..] == white;
    } else {
      assert rest == white;
      if end != "" {
        PrefixAt(white, end, 0);
      }
    }
  }

  /** The head marker: five to nine "<", " SEARCH", perhaps ">", then white space. */
  lemma HeadMeaning(t: string)
    ensures IsHead(t) <==> exists k: nat, mark, white :: Marks(t, '<', " SEARCH", ">", k, mark, white)
  {
    if IsHead(t) {
      var k, mark, white := MarkerParts(t, '<', " SEARCH", ">");
    }
    if k: nat, mark, white :| Marks(t, '<', " SEARCH", ">", k, mark, white) {
      MarkedIsMarker(t, '<', " SEARCH", ">", k, mark, white);
    }
  }

  /** The divider: five to nine "=", then white space. */
  lemma DividerMeaning(t: string)
    ensures IsDivider(t) <==> exists k: nat, mark, white :: Marks(t, '=', "", "", k, mark, white)
  {
    if IsDivider(t) {
      var k, mark, white := MarkerParts(t, '=', "", "");
    }
    if k: nat, mark, white :| Marks(t, '=', "", "", k, mark, white) {
      MarkedIsMarker(t, '=', "", "", k, mark, white);
    }
  }

  /** The closing marker: five to nine ">", " REPLACE", then white space. */
  lemma UpdatedMeaning(t: string)
    ensures IsUpdated(t) <==> exists k: nat, mark, white :: Marks(t, '>', " REPLACE", "", k, mark, white)
  {
    if IsUpdated(t) {
      var k, mark, white := MarkerParts(t, '>', " REPLACE", "");
    }
    if k: nat, mark, white :| Marks(t, '>', " REPLACE", "", k, mark, white) {
      MarkedIsMarker(t, '>', " REPLACE", "", k, mark, white);
    }
  }

  // ---------------------------------------------------------------- sections

  /** How a section ends: at its closing marker, at the first marker that must not stand there, or not at all; no marker before. */
  lemma {:induction false} SectionMeaning(x: Syntax, lines: seq<string>, i: nat, search: bool)
    requires i <= |lines|
    ensures match SectionFrom(x, lines, i, search)
            case Closed(at) =>
              && (forall k :: i <= k < at ==> QuietLine(x, lines[k]))
              && (if search then x.isDivider(Bare(lines[at])) else x.isUpdated(Bare(lines[at])))
            case Misplaced(at) =>
              && i <= at < |lines| && (forall k :: i <= k < at ==> QuietLine(x, lines[k]))
              && !QuietLine(x, lines[at])
              && !(if search then x.isDivider(Bare(lines[at])) else x.isUpdated(Bare(lines[at])))
            case Unclosed => forall k :: i <= k < |lines| ==> QuietLine(x, lines[k])
    decreases |lines| - i
  {
    if i < |lines| {
      SectionMeaning(x, lines, i + 1, search);
    }
  }

  /** What a block with a file comes to: an error names the line of the first marker that must not stand there, or the last line
      when none closes the section; otherwise the sections are the lines between the three markers. */
  lemma BlockMeaning(x: Syntax, lines: seq<string>, i: nat, current: string) returns (divider: nat)
    requires i < |lines| && Resolve(x, lines, i, current) != ""
    ensures match BlockAt(x, lines, i, current)
            case Broken(MissingFilename(_)) => false
            case Broken(ExpectedDivider(n)) => EndsBadly(x, lines, i + 1, n, true)
            case Broken(ExpectedReplace(n)) => IsDividerOf(x, lines, i, divider) && EndsBadly(x, lines, divider + 1, n, false)
            case OneBlock(b, next) =>
              IsBlockOf(x, lines, i, divider, next, b) && b.file == Resolve(x, lines, i, current)
  {
    divider := 0;
    SectionMeaning(x, lines, i + 1, true);
    match SectionFrom(x, lines, i + 1, true)
    case Closed(at) =>
      divider := at;
      SectionMeaning(x, lines, divider + 1, false);
    case _ =>
  }

  /** The block between a head marker at `i`, the divider, and the closing marker in front of `next`. */
  ghost predicate IsBlockOf(x: Syntax, lines: seq<string>, i: nat, divider: nat, next: nat, b: Block) {
    && i < divider < next - 1 < |lines| && IsDividerOf(x, lines, i, divider) && x.isUpdated(Bare(lines[next - 1]))
    && (forall k :: divider < k < next - 1 ==> QuietLine(x, lines[k]))
    && b.search == Concat(lines[i + 1..divider]) && b.replace == Concat(lines[divider + 1..next - 1])
  }

  /** The first line behind the head marker at `i` that is a marker, and it is a divider. */
  ghost predicate IsDividerOf(x: Syntax, lines: seq<string>, i: nat, divider: nat) {
    i < divider < |lines| && x.isDivider(Bare(lines[divider])) && forall k :: i < k < divider ==> QuietLine(x, lines[k])
  }

  /** From line `from` on (counted from 0) the first marker stands at line `n` (counted from 1) and does not close the section; or
      there is none, and `n` is the number of lines. */
  ghost predicate EndsBadly(x: Syntax, lines: seq<string>, from: nat, n: nat, search: bool) {
    || (n == |lines| && forall k :: from <= k < |lines| ==> QuietLine(x, lines[k]))
    || (&& from < n <= |lines| && (forall k :: from <= k < n - 1 ==> QuietLine(x, lines[k]))
        && !QuietLine(x, lines[n - 1])
        && !(if search then x.isDivider(Bare(lines[n - 1])) else x.isUpdated(Bare(lines[n - 1]))))
  }

  // ---------------------------------------------------------------- which line names the file

  lemma {:induction false} NoNameIn(x: Syntax, lines: seq<string>)
    requires forall j :: 0 <= j < |lines| ==> x.nameOnLine(lines[j]).None?
    ensures NameIn(x, lines) == ""
  {
    if |lines| > 0 {
      NoNameIn(x, lines[..|lines| - 1]);
    }
  }

  lemma {:induction false} LastNameIn(x: Syntax, lines: seq<string>, j: nat)
    requires j < |lines| && x.nameOnLine(lines[j]).Some? && forall k :: j < k < |lines| ==> x.nameOnLine(lines[k]).None?
    ensures NameIn(x, lines) == x.nameOnLine(lines[j]).value
  {
    if j < |lines| - 1 {
      LastNameIn(x, lines[..|lines| - 1], j);
    }
  }

  /** The closest of the three lines before the head marker that gives a name gives the block's file. */
  lemma NamedBlock(x: Syntax, lines: seq<string>, i: nat, current: string, j: nat)
    requires j < i <= |lines| && i - 3 <= j && x.nameOnLine(lines[j]).Some? && x.nameOnLine(lines[j]).value != ""
    requires forall k :: j < k < i ==> x.nameOnLine(lines[k]).None?
    ensures Resolve(x, lines, i, current) == x.nameOnLine(lines[j]).value
  {
    var from := if i < 3 then 0 else i - 3;
    var before := Preceding(lines, i);
    assert before[j - from] == lines[j];
    assert forall k :: j - from < k < |before| ==> before[k] == lines[from + k];
    LastNameIn(x, before, j - from);
  }

  /** When none of the three does, the file is that of the block before. */
  lemma NamelessBlock(x: Syntax, lines: seq<string>, i: nat, current: string)
    requires i <= |lines| && forall k :: 0 <= k < i && i - 3 <= k ==> x.nameOnLine(lines[k]).None?
    ensures Resolve(x, lines, i, current) == current
  {
    var from := if i < 3 then 0 else i - 3;
    var before := Preceding(lines, i);
    assert forall k :: 0 <= k < |before| ==> before[k] == lines[from + k];
    NoNameIn(x, before);
  }

  /** And without a block before, its absence is the error. */
  lemma MissingName(x: Syntax, lines: seq<string>, i: nat)
    requires i < |lines| && forall k :: 0 <= k < i && i - 3 <= k ==> x.nameOnLine(lines[k]).None?
    ensures BlockAt(x, lines, i, "") == Broken(MissingFilename(i + 1))
  {
    NamelessBlock(x, lines, i, "");
  }

  /** Lines without a head marker are passed over. */
  lemma {:induction false} OtherLinesAreSkipped(x: Syntax, lines: seq<string>, i: nat, j: nat, current: string)
    requires i <= j <= |lines| && forall k :: i <= k < j ==> !x.isHead(Bare(lines[k]))
    ensures BlocksFrom(x, lines, i, current) == BlocksFrom(x, lines, j, current)
    decreases j - i
  {
    if i < j {
      OtherLinesAreSkipped(x, lines, i + 1, j, current);
    }
  }

  // ---------------------------------------------------------------- names

  lemma {:induction false} TrimLeftKeeps(s: string, cut: set<char>, c: char)
    requires c !in s
    ensures c !in TrimLeft(s, cut)
  {
    if s != "" && s[0] in cut {
      TrimLeftKeeps(s[1..], cut, c);
    }
  }

  lemma {:induction false} TrimRightKeeps(s: string, cut: set<char>, c: char)
    requires c !in s
    ensures c !in TrimRight(s, cut)
  {
    if s != "" && s[|s| - 1] in cut {
      TrimRightKeeps(s[..|s| - 1], cut, c);
    }
  }

  lemma TrimBothKeeps(s: string, cut: set<char>, c: char)
    requires c !in s
    ensures c !in TrimBoth(s, cut)
  {
    TrimLeftKeeps(s, cut, c);
    TrimRightKeeps(TrimLeft(s, cut), cut, c);
  }

  lemma NameKeeps(trimmed: string, c: char)
    requires c !in trimmed
    ensures c !in TrimSpace(TrimLeft(trimmed, {'`', '~'}))
    ensures var labelled := if HasPathLabel(trimmed) then TrimSpace(trimmed[|PATH_LABEL|..]) else trimmed;
            var inner := TrimSpace(TrimLeft(TrimRight(labelled, {':'}), {'#'}));
            c !in TrimSpace(TrimBoth(TrimBoth(inner, {'`'}), {'*'}))
  {
    TrimLeftKeeps(trimmed, {'`', '~'}, c);
    TrimBothKeeps(TrimLeft(trimmed, {'`', '~'}), SPACES, c);
    if HasPathLabel(trimmed) {
      TrimBothKeeps(trimmed[|PATH_LABEL|..], SPACES, c);
    }
    var labelled := if HasPathLabel(trimmed) then TrimSpace(trimmed[|PATH_LABEL|..]) else trimmed;
    TrimRightKeeps(labelled, {':'}, c);
    TrimLeftKeeps(TrimRight(labelled, {':'}), {'#'}, c);
    var inner := TrimLeft(TrimRight(labelled, {':'}), {'#'});
    TrimBothKeeps(inner, SPACES, c);
    TrimBothKeeps(TrimSpace(inner), {'`'}, c);
    TrimBothKeeps(TrimBoth(TrimSpace(inner), {'`'}), {'*'}, c);
    TrimBothKeeps(TrimBoth(TrimBoth(TrimSpace(inner), {'`'}), {'*'}), SPACES, c);
  }

  /** A line without a dot and without a slash names nothing. */
  lemma NoDotNoName(line: string)
    requires '.' !in TrimSpace(Bare(line)) && '/' !in TrimSpace(Bare(line))
    ensures NameOnLine(line) == None
  {
    NameKeeps(TrimSpace(Bare(line)), '.');
    NameKeeps(TrimSpace(Bare(line)), '/');
  }

  lemma PathEnds(p: string)
    requires PlainPath(p)
    ensures p != "" && IsTrimmed(p) && p[0] !in {'`', '~', '*', '#', '<', '=', '>', ' '} && p[|p| - 1] !in {'`', '*', ':', ' '}
  {
    assert p[0] !in SPACES && p[|p| - 1] !in SPACES;
  }

  lemma FencedName(p: string)
    requires PlainPath(p) && p[0] != ':'
    ensures FenceName("```" + p) == Some(p)
  {
    PathEnds(p);
    TrimLeftOf("```", p, {'`', '~'});
    TrimmedIsFixed(p);
    BareIsFixed(p, {'`', '*', ':', ' '});
  }

  /** Stripping a name in turn of a colon, heading marks, backticks and stars. */
  lemma StrippedName(s: string, inner: string, p: string)
    requires PlainPath(p) && !HasPathLabel(s)
    requires TrimSpace(TrimLeft(TrimRight(s, {':'}), {'#'})) == inner && TrimSpace(TrimBoth(TrimBoth(inner, {'`'}), {'*'})) == p
    ensures PlainName(s) == Some(p)
  {
  }

  lemma NoLabel(s: string)
    requires s != "" && s[0] !in {'p', 'P'}
    ensures !HasPathLabel(s)
  {
    assert Lower(PATH_LABEL[0]) == 'p' && Lower(s[0]) != 'p';
    assert |s| > |PATH_LABEL| ==> s[..|PATH_LABEL|][0] == s[0];
  }

  lemma NothingToStrip(p: string)
    requires PlainPath(p)
    ensures TrimLeft(p, {'#'}) == p && TrimRight(p, {':'}) == p && TrimSpace(p) == p
    ensures TrimBoth(p, {'`'}) == p && TrimBoth(p, {'*'}) == p
  {
    PathEnds(p);
    TrimmedIsFixed(p);
  }

  lemma BacktickedName(p: string)
    requires PlainPath(p)
    ensures PlainName("`" + p + "`") == Some(p)
  {
    var s := "`" + p + "`";
    PathEnds(p);
    NothingToStrip(p);
    NoLabel(s);
    TrimmedIsFixed(s);
    TrimBothOf("`", p, "`", {'`'});
    StrippedName(s, s, p);
  }

  lemma StarredName(p: string)
    requires PlainPath(p)
    ensures PlainName("**" + p + "**") == Some(p)
  {
    var s := "**" + p + "**";
    PathEnds(p);
    NothingToStrip(p);
    NoLabel(s);
    TrimmedIsFixed(s);
    BareIsFixed(s, {'`'});
    TrimBothOf("**", p, "**", {'*'});
    StrippedName(s, s, p);
  }

  lemma NameWithColon(p: string)
    requires PlainPath(p)
    ensures PlainName(p + ":") == Some(p)
  {
    var s := p + ":";
    PathEnds(p);
    NothingToStrip(p);
    TrimRightOf(p, ":", {':'});
    StillNoLabel(p);
    StrippedName(s, p, p);
  }

  lemma StillNoLabel(p: string)
    requires PlainPath(p)
    ensures !HasPathLabel(p + ":")
  {
    var s, n := p + ":", |PATH_LABEL|;
    PathEnds(p);
    assert Lower(p[|p| - 1]) != Lower(PATH_LABEL[n - 1]) == ':';
    if |p| >= n {
      assert s[..n] == p[..n] && p[..n][n - 1] == p[n - 1];
      if |p| > n {
        TrimSpaceEmpty(p[n..]);
        assert p[n..][|p| - n - 1] == p[|p| - 1];
      }
    } else {
      assert |s| <= n;
    }
  }

  lemma HeadedName(p: string)
    requires PlainPath(p)
    ensures PlainName("# " + p) == Some(p)
  {
    var s := "# " + p;
    PathEnds(p);
    NothingToStrip(p);
    NoLabel(s);
    assert TrimRight(s, {':'}) == s;
    assert s == "#" + (" " + p);
    TrimLeftOf("#", " " + p, {'#'});
    assert " " + p == " " + p + "";
    TrimBothOf(" ", p, "", SPACES);
    StrippedName(s, p, p);
  }

  lemma LabelledName(tag: string, p: string)
    requires PlainPath(p) && |tag| == 5 && EqualFold(tag, "path:")
    ensures PlainName(tag + " " + p) == Some(p)
  {
    var s := tag + " " + p;
    PathEnds(p);
    NothingToStrip(p);
    assert s[..5] == tag && s[5..] == " " + p + "";
    TrimBothOf(" ", p, "", SPACES);
    assert HasPathLabel(s);
  }

  // ---------------------------------------------------------------- lines that name a file

  /** Ways to write a path on its line: plain, between backticks or stars, with a colon behind it, a heading mark or a label before
      it, or behind the opening of a code fence. */
  datatype Way = AsIs | Backticked | Starred | WithColon | Headed | Labelled(tag: string) | Fenced

  function WrittenAs(way: Way, p: string): string {
    match way
    case AsIs => p
    case Backticked => "`" + p + "`"
    case Starred => "**" + p + "**"
    case WithColon => p + ":"
    case Headed => "# " + p
    case Labelled(tag) => tag + " " + p
    case Fenced => "```" + p
  }

  /** The label is "path:", upper or lower case. */
  predicate IsWay(way: Way) {
    way.Labelled? ==> |way.tag| == 5 && EqualFold(way.tag, "path:")
  }

  /** However the path is written, and with white space around it, the line names it. */
  lemma WrittenPathIsNamed(way: Way, p: string, before: string, after: string)
    requires PlainPath(p) && p[0] != ':' && IsWay(way)
    requires AllIn(before, {' ', '\t'}) && AllIn(after, {' ', '\t'})
    ensures NameOnLine(before + WrittenAs(way, p) + after + "\n") == Some(p)
  {
    var written := WrittenAs(way, p);
    var line := before + written + after;
    WrittenIsNoMarker(way, p);
    BareLine(line, written, after);
    TrimBothOf(before, written, after, SPACES);
    if way.Fenced? {
      FencedName(p);
    } else {
      NameOfWritten(way, p);
    }
  }

  lemma BareLine(line: string, written: string, after: string)
    requires HasSuffix(line, written + after) && AllIn(after, {' ', '\t'}) && written != "" && written[|written| - 1] !in NEWLINES
    ensures Bare(line + "\n") == line
  {
    var tail := written + after;
    assert line[|line| - 1] == tail[|tail| - 1];
    assert tail[|tail| - 1] == if after == "" then written[|written| - 1] else after[|after| - 1];
    TrimRightOf(line, "\n", NEWLINES);
  }

  lemma WrittenIsNoMarker(way: Way, p: string)
    requires PlainPath(p) && IsWay(way)
    ensures var s := WrittenAs(way, p);
            && s != "" && IsTrimmed(s) && s[|s| - 1] !in NEWLINES && !IsAnyMarker(s) && s != "..."
            && (HasPrefix(s, "```") || HasPrefix(s, "~~~") <==> way.Fenced?)
  {
    var s := WrittenAs(way, p);
    PathEnds(p);
    assert p[|p| - 1] !in NEWLINES;
    if way.Labelled? {
      assert Lower(way.tag[0]) == Lower("path:"[0]) == 'p' && s[0] == way.tag[0];
    }
    assert s[0] !in SPACES + {'<', '=', '>'} && s[|s| - 1] !in SPACES;
    assert RunLength(s, '<') == RunLength(s, '=') == RunLength(s, '>') == 0;
    PrefixAt(s, "```", 0);
    PrefixAt(s, "```", 1);
    PrefixAt(s, "~~~", 0);
    assert way.Fenced? ==> s[..3] == "```";
    NoDots(way, p);
  }

  lemma NoDots(way: Way, p: string)
    requires PlainPath(p) && IsWay(way)
    ensures WrittenAs(way, p) != "..."
  {
    var s := WrittenAs(way, p);
    PathEnds(p);
    if way == WithColon {
      assert s[|s| - 1] == ':';
    } else if way.Labelled? {
      assert |s| > 5;
    } else if way != AsIs {
      assert s[0] in {'`', '*', '#'};
    }
  }

  lemma NameOfWritten(way: Way, p: string)
    requires PlainPath(p) && IsWay(way) && !way.Fenced?
    ensures PlainName(WrittenAs(way, p)) == Some(p)
  {
    match way {
      case AsIs => NameAsIs(p);
      case Backticked => BacktickedName(p);
      case Starred => StarredName(p);
      case WithColon => NameWithColon(p);
      case Headed => HeadedName(p);
      case Labelled(tag) => LabelledName(tag, p);
    }
  }

  lemma NameAsIs(p: string)
    requires PlainPath(p)
    ensures PlainName(p) == Some(p)
  {
    NothingToStrip(p);
    StrippedName(p, p, p);
  }

  // ---------------------------------------------------------------- blocks without a name line

  /** A block as printed, but for its name line. */
  function PrintNameless(b: Block): seq<string> {
    [HEAD] + (KeepNewlines(b.search) + ([DIVIDER] + (KeepNewlines(b.replace) + [UPDATED])))
  }

  /** The last three lines name no file. */
  predicate EndsSilent(x: Syntax, lines: seq<string>) {
    forall k :: 0 <= k < |lines| && |lines| - 3 <= k ==> x.nameOnLine(lines[k]).None?
  }

  lemma NamelessIsLaid(pre: seq<string>, b: Block, post: seq<string>)
    ensures var divider := |pre| + 1 + |KeepNewlines(b.search)|;
            var updated := divider + 1 + |KeepNewlines(b.replace)|;
            LaidBody(pre + (PrintNameless(b) + post), |pre|, b, divider, updated) && updated + 1 == |pre| + |PrintNameless(b)|
  {
    var s, r := KeepNewlines(b.search), KeepNewlines(b.replace);
    var lines := pre + (PrintNameless(b) + post);
    assert lines == pre + ([HEAD] + (s + ([DIVIDER] + (r + ([UPDATED] + post)))));
    Slice(pre + [HEAD], s, [DIVIDER] + (r + ([UPDATED] + post)), lines);
    Slice(pre + [HEAD] + s + [DIVIDER], r, [UPDATED] + post, lines);
  }

  /** The parser at a head marker. */
  lemma BlocksFromHead(x: Syntax, lines: seq<string>, i: nat, current: string, b: Block, next: nat)
    requires i < |lines| && x.isHead(Bare(lines[i])) && BlockAt(x, lines, i, current) == OneBlock(b, next)
    ensures BlocksFrom(x, lines, i, current) == Prepend([b], BlocksFrom(x, lines, next, b.file))
  {
  }

  /** A block without a name line, behind lines that name no file, belongs to the file of the block before. */
  lemma NamelessIsRead(x: Syntax, lines: seq<string>, pre: seq<string>, b: Block, post: seq<string>)
    requires Suits(x) && lines == pre + (PrintNameless(b) + post) && EndsSilent(x, pre) && PlainSections(x, b) && b.file != ""
    ensures BlocksFrom(x, lines, |pre|, b.file) == Prepend([b], BlocksFrom(x, lines, |pre| + |PrintNameless(b)|, b.file))
  {
    var divider := |pre| + 1 + |KeepNewlines(b.search)|;
    var updated := divider + 1 + |KeepNewlines(b.replace)|;
    assert LaidBody(lines, |pre|, b, divider, updated) && updated + 1 == |pre| + |PrintNameless(b)| by {
      NamelessIsLaid(pre, b, post);
    }
    assert BlockAt(x, lines, |pre|, b.file) == OneBlock(b, updated + 1) by {
      NamelessName(x, lines, pre, PrintNameless(b) + post, b.file);
      LaidBodyAt(x, lines, |pre|, b, divider, updated, b.file);
    }
    BlocksFromHead(x, lines, |pre|, b.file, b, updated + 1);
  }

  lemma NamelessIsReadBy(from: Reading, x: Syntax, lines: seq<string>, pre: seq<string>, b: Block, post: seq<string>)
    requires ReadsLines(from, x, lines)
    requires Suits(x) && LaidOut(PrintNameless, lines, pre, b, post) && EndsSilent(x, pre) && PlainSections(x, b) && b.file != ""
    ensures ReadsAt(from, |pre|, b, |PrintNameless(b)|, b.file)
  {
    NamelessIsRead(x, lines, pre, b, post);
  }

  lemma NamelessName(x: Syntax, lines: seq<string>, pre: seq<string>, post: seq<string>, file: string)
    requires lines == pre + post && EndsSilent(x, pre)
    ensures Resolve(x, lines, |pre|, file) == file
  {
    assert forall k :: 0 <= k < |pre| ==> lines[k] == pre[k];
    NamelessBlock(x, lines, |pre|, file);
  }

  lemma SilentBehind(x: Syntax, pre: seq<string>, lines: seq<string>)
    requires |lines| >= 3 && EndsSilent(x, lines)
    ensures EndsSilent(x, pre + lines)
  {
  }

  /** A parser at work on some lines, of which only this is known: a block laid out behind silent lines is read as `file`'s. */
  ghost predicate ReadsNameless(from: Reading, x: Syntax, lay: Layout, good: Block -> bool, lines: seq<string>, file: string) {
    forall pre, b, post :: good(b) && LaidOut(lay, lines, pre, b, post) && EndsSilent(x, pre) ==>
      ReadsAt(from, |pre|, b, |lay(b)|, file)
  }

  /** With `file` current at line `o`, the block that takes `n` lines there is read as `file`'s. */
  ghost predicate ReadsAt(from: Reading, o: nat, b: Block, n: nat, file: string) {
    from(o, file) == Prepend([b], from(o + n, file))
  }

  /** Blocks one after the other, none with a name line. */
  lemma {:induction false} ReadNamelessInTurn(from: Reading, x: Syntax, lay: Layout, good: Block -> bool, lines: seq<string>,
                                              pre: seq<string>, bs: seq<Block>, post: seq<string>, file: string)
    requires ReadsNameless(from, x, lay, good, lines, file) && EndsSilent(x, pre)
    requires lines == pre + (LayAll(lay, bs) + post)
    requires forall k :: 0 <= k < |bs| ==> good(bs[k]) && |lay(bs[k])| >= 3 && EndsSilent(x, lay(bs[k]))
    ensures from(|pre|, file) == Prepend(bs, from(|pre| + |LayAll(lay, bs)|, file))
    decreases |bs|
  {
    if |bs| == 0 {
      PrependNothing(from(|pre|, file));
    } else {
      var b, head, more := bs[0], lay(bs[0]), LayAll(lay, bs[1..]);
      Regroup(pre, head, more, post);
      Assoc(pre, head, more + post);
      assert LaidOut(lay, lines, pre, b, more + post);
      assert ReadsAt(from, |pre|, b, |head|, file);
      SilentBehind(x, pre, head);
      ReadNamelessInTurn(from, x, lay, good, lines, pre + head, bs[1..], post, file);
      PrependCons(b, bs[1..], from(|pre| + |head| + |more|, file));
      assert [b] + bs[1..] == bs;
    }
  }

  /** May stand without its name line, and so may what follows it. */
  ghost predicate MayFollow(b: Block, file: string) {
    b.file == file && PlainSections(SYNTAX, b) && EndsSilent(SYNTAX, PrintNameless(b))
  }

  lemma NamelessLayoutIsRead(from: Reading, x: Syntax, lines: seq<string>, file: string, good: Block -> bool)
    requires ReadsLines(from, x, lines) && Suits(x) && file != ""
    requires forall b :: good(b) ==> b.file == file && PlainSections(x, b)
    ensures ReadsNameless(from, x, PrintNameless, good, lines, file)
  {
    forall pre, b, post | good(b) && LaidOut(PrintNameless, lines, pre, b, post) && EndsSilent(x, pre)
      ensures ReadsAt(from, |pre|, b, |PrintNameless(b)|, file)
    {
      NamelessIsReadBy(from, x, lines, pre, b, post);
    }
  }

  lemma NamelessIsLines(b: Block)
    requires PlainSections(SYNTAX, b)
    ensures AreLines(PrintNameless(b))
  {
    MarkersAreLines();
    KeptAreLines(b.search, "");
    KeptAreLines(b.replace, "");
  }

  lemma {:induction false} LaidAreLines(lay: Layout, bs: seq<Block>)
    requires forall k :: 0 <= k < |bs| ==> AreLines(lay(bs[k]))
    ensures AreLines(LayAll(lay, bs))
    decreases |bs|
  {
    if |bs| > 0 {
      LaidAreLines(lay, bs[1..]);
    }
  }

  /** The parser at work on a named block and nameless ones behind it. */
  lemma ReadNamedThenNameless(from: Reading, x: Syntax, named: Layout, nameless: Layout, good: Block -> bool, lines: seq<string>,
                              first: Block, more: seq<Block>)
    requires lines == named(first) + LayAll(nameless, more)
    requires ReadsBlock(from, named, 0, first) && EndsSilent(x, named(first)) && from(|lines|, first.file) == Parsed([], None)
    requires ReadsNameless(from, x, nameless, good, lines, first.file)
    requires forall k :: 0 <= k < |more| ==> good(more[k]) && |nameless(more[k])| >= 3 && EndsSilent(x, nameless(more[k]))
    ensures from(0, "") == Parsed([first] + more, None)
  {
    var n, tail := |named(first)|, LayAll(nameless, more);
    assert tail + [] == tail;
    ReadNamelessInTurn(from, x, nameless, good, lines, named(first), more, [], first.file);
    assert from(0, "") == Prepend([first], from(0 + n, first.file));
    PrependCons(first, more, Parsed([], None));
    assert [first] + more + [] == [first] + more;
  }

  lemma NamelessLinesAreRead(first: Block, more: seq<Block>, lines: seq<string>)
    requires Printable(SYNTAX, first) && EndsSilent(SYNTAX, PrintBlock(first))
    requires forall k :: 0 <= k < |more| ==> MayFollow(more[k], first.file)
    requires lines == PrintBlock(first) + LayAll(PrintNameless, more)
    ensures BlocksFrom(SYNTAX, lines, 0, "") == Parsed([first] + more, None)
  {
    var from: Reading := (i: nat, current: string) => BlocksFrom(SYNTAX, lines, i, current);
    var good := b => b in more;
    ProgramSyntaxSuits();
    NamelessLayoutIsRead(from, SYNTAX, lines, first.file, good);
    assert [] + (PrintBlock(first) + LayAll(PrintNameless, more)) == lines;
    ReadPrintedBlock(from, SYNTAX, lines, [], first, LayAll(PrintNameless, more));
    ReadNamedThenNameless(from, SYNTAX, PrintBlock, PrintNameless, good, lines, first, more);
  }

  /** Blocks of one file round trip with only the first of them named, as long as the last three lines of each name no file. */
  lemma ParseOfNameless(first: Block, more: seq<Block>)
    requires Printable(SYNTAX, first) && EndsSilent(SYNTAX, PrintBlock(first))
    requires forall k :: 0 <= k < |more| ==> MayFollow(more[k], first.file)
    ensures ParseBlocks(Concat(PrintBlock(first) + LayAll(PrintNameless, more))) == Parsed([first] + more, None)
  {
    var lines := PrintBlock(first) + LayAll(PrintNameless, more);
    assert AreLines(lines) by {
      PrintedBlockAreLines(first);
      forall k | 0 <= k < |more|
        ensures AreLines(PrintNameless(more[k]))
      {
        NamelessIsLines(more[k]);
      }
      LaidAreLines(PrintNameless, more);
    }
    LinesReadBack(lines);
    NamelessLinesAreRead(first, more, lines);
  }

  lemma LinesReadBack(lines: seq<string>)
    requires AreLines(lines)
    ensures KeepNewlines(Concat(lines)) == lines
  {
    KeepNewlinesOfLines(lines, "");
    assert Concat(lines) + "" == Concat(lines) && lines + [] == lines;
  }

  /** The other way round: when the replacement before it ends in a path, a block without a name line is taken for that file's. */
  lemma LastLineIsTakenForName(lines: seq<string>, i: nat, current: string, p: string)
    requires 2 <= i <= |lines| && lines[i - 1] == UPDATED && lines[i - 2] == p + "\n" && PlainPath(p)
    ensures Resolve(SYNTAX, lines, i, current) == p
  {
    PlainPathIsCanonical(p);
    UpdatedNamesNothing();
    NameOneLineUp(SYNTAX, lines, i, current, p);
  }

  lemma NameOneLineUp(x: Syntax, lines: seq<string>, i: nat, current: string, p: string)
    requires 2 <= i <= |lines| && x.nameOnLine(lines[i - 1]).None? && x.nameOnLine(lines[i - 2]) == Some(p) && p != ""
    ensures Resolve(x, lines, i, current) == p
  {
    NamedBlock(x, lines, i, current, i - 2);
  }

  lemma UpdatedNamesNothing()
    ensures NameOnLine(UPDATED) == None
  {
    var t := ">>>>>>> REPLACE";
    assert UPDATED == t + "\n";
    BareOf(t);
    TrimmedIsFixed(t);
    PrintedMarkers();
  }
}
