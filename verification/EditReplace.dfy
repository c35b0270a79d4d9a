/** The tiered matcher: which window of the text a part stands for, and the text with that window replaced. */
module EditReplace {
  import opened Text
  import opened EditLines
  import opened EditIndent
  import opened Lcs

  datatype Tier = TierExact | TierLeadingWS | TierTrailingWS | TierFuzzy

  /** Lines count from 1, both ends included. */
  datatype Match = Match(tier: Tier, startLine: int, endLine: int, score: real)

  // ---------------------------------------------------------------- windows

  type Test = seq<string> -> bool

  /** The window of `n` lines at `i` passes. */
  ghost predicate Passes(test: Test, lines: seq<string>, n: nat, i: int) {
    0 <= i <= |lines| - n && test(lines[i..i + n])
  }

  ghost predicate NoneBefore(test: Test, lines: seq<string>, n: nat, end: int) {
    forall i :: 0 <= i < end ==> !Passes(test, lines, n, i)
  }

  ghost predicate First(test: Test, lines: seq<string>, n: nat, i: int) {
    Passes(test, lines, n, i) && NoneBefore(test, lines, n, i)
  }

  ghost predicate Nowhere(test: Test, lines: seq<string>, n: nat) {
    NoneBefore(test, lines, n, |lines| + 1)
  }

  /** The outcome of a search from the start: the first window that passes, or -1. */
  ghost predicate Searched(test: Test, lines: seq<string>, n: nat, i: int) {
    if i == -1 then Nowhere(test, lines, n) else First(test, lines, n, i)
  }

  // ---------------------------------------------------------------- tier 1

  ghost function ExactTest(part: seq<string>): Test {
    window => window == part
  }

  method Tier1Exact(lines: seq<string>, part: seq<string>) returns (r: int)
    ensures Searched(ExactTest(part), lines, |part|, r)
  {
    var n, i := |part|, 0;
    while i <= |lines| - n
      invariant 0 <= i
      invariant NoneBefore(ExactTest(part), lines, n, i)
    {
      if lines[i..i + n] == part {
        return i;
      }
      i := i + 1;
    }
    r := -1;
  }

  // ---------------------------------------------------------------- tier 2

  ghost function LeadingTest(part: seq<string>): Test {
    window => exists w :: Reindents(w, window, part)
  }

  method Tier2Search(lines: seq<string>, part: seq<string>) returns (r: int, add: string)
    ensures Searched(LeadingTest(part), lines, |part|, r)
    ensures r != -1 ==> Reindents(add, lines[r..r + |part|], part)
  {
    var n, i := |part|, 0;
    while i <= |lines| - n
      invariant 0 <= i
      invariant NoneBefore(LeadingTest(part), lines, n, i)
    {
      var found := MatchButForLeadingWS(lines[i..i + n], part);
      if found.Some? {
        return i, found.value;
      }
      i := i + 1;
    }
    r, add := -1, "";
  }

  function IndentLine(w: string, line: string): string {
    if Blank(line) then line else w + line
  }

  function IndentAll(w: string, lines: seq<string>): (r: seq<string>)
    ensures |r| == |lines|
  {
    seq(|lines|, i requires 0 <= i < |lines| => IndentLine(w, lines[i]))
  }

  method IndentReplacement(w: string, lines: seq<string>) returns (out: seq<string>)
    ensures out == IndentAll(w, lines)
  {
    var filled := new string[|lines|];
    for j := 0 to |lines|
      invariant forall k :: 0 <= k < j ==> filled[k] == IndentLine(w, lines[k])
    {
      if TrimRight(lines[j], WHITE) != "" {
        filled[j] := w + lines[j];
      } else {
        filled[j] := lines[j];
      }
    }
    out := filled[..];
  }

  // ---------------------------------------------------------------- tier 3

  /** Trailing blanks off, the newline kept. */
  function RTrimLine(line: string): string {
    if HasSuffix(line, "\n") then TrimRight(line[..|line| - 1], BLANKS) + "\n" else TrimRight(line, BLANKS)
  }

  function RTrimAll(lines: seq<string>): (r: seq<string>)
    ensures |r| == |lines|
  {
    seq(|lines|, i requires 0 <= i < |lines| => RTrimLine(lines[i]))
  }

  method RTrimLines(lines: seq<string>) returns (out: seq<string>)
    ensures out == RTrimAll(lines)
  {
    var filled := new string[|lines|];
    for i := 0 to |lines|
      invariant forall k :: 0 <= k < i ==> filled[k] == RTrimLine(lines[k])
    {
      var l, nl := lines[i], "";
      if HasSuffix(l, "\n") {
        nl := "\n";
        l := l[..|l| - 1];
      }
      assert TrimRight(l, BLANKS) + "" == TrimRight(l, BLANKS);
      filled[i] := TrimRight(l, BLANKS) + nl;
    }
    out := filled[..];
  }

  /** Blanks at the end of a line go, in front of its newline too, and nothing else does. */
  lemma RTrimTakes(s: string, blanks: string)
    requires AllIn(blanks, {' ', '\t'}) && (s == "" || s[|s| - 1] !in {' ', '\t', '\n'})
    ensures RTrimLine(s + blanks) == s && RTrimLine(s + blanks + "\n") == s + "\n"
  {
    TrimRightOf(s, blanks, BLANKS);
    var line := s + blanks;
    assert (line + "\n")[..|line + "\n"| - 1] == line;
    LastChar(line, '\n');
    LastChar(line + "\n", '\n');
  }

  ghost function TrailingTest(part: seq<string>): Test {
    window => RTrimAll(window) == RTrimAll(part)
  }

  method Tier3TrailingWS(lines: seq<string>, part: seq<string>) returns (r: int)
    ensures Searched(TrailingTest(part), lines, |part|, r)
  {
    var n, i := |part|, 0;
    var rtrimPart := RTrimLines(part);
    while i <= |lines| - n
      invariant 0 <= i
      invariant NoneBefore(TrailingTest(part), lines, n, i)
    {
      var rtrimChunk := RTrimLines(lines[i..i + n]);
      if rtrimChunk == rtrimPart {
        return i;
      }
      i := i + 1;
    }
    r := -1;
  }

  // ---------------------------------------------------------------- tier 4

  function MinLen(partLen: nat): int {
    var len := (partLen as real * 0.9).Floor;
    if len < 1 then 1 else len
  }

  function MaxLen(partLen: nat): int {
    (partLen as real * 1.1).Floor + 1
  }

  function Score(lines: seq<string>, part: seq<string>, len: int, i: int): real
    requires 0 <= len && 0 <= i && i + len <= |lines|
  {
    Ratio(Concat(lines[i..i + len]), Concat(part))
  }

  /** The windows of the fuzzy scan. */
  predicate IsWindow(lines: seq<string>, part: seq<string>, len: int, i: int) {
    MinLen(|part|) <= len <= MaxLen(|part|) && 0 <= i <= |lines| - len
  }

  /** Scan order: by length, then by start. */
  predicate Earlier(len: int, i: int, len': int, i': int) {
    len < len' || (len == len' && i < i')
  }

  /** No window scanned before (len, i) scores more than `best`. */
  ghost predicate AtMostBefore(lines: seq<string>, part: seq<string>, len: int, i: int, best: real) {
    forall l, k :: IsWindow(lines, part, l, k) && Earlier(l, k, len, i) ==> Score(lines, part, l, k) <= best
  }

  ghost predicate LessBefore(lines: seq<string>, part: seq<string>, len: int, i: int, best: real) {
    forall l, k :: IsWindow(lines, part, l, k) && Earlier(l, k, len, i) ==> Score(lines, part, l, k) < best
  }

  /** The window at `i` of `len` lines scores highest, above zero, and is scanned first among those that do. */
  ghost predicate Best(lines: seq<string>, part: seq<string>, len: int, i: int) {
    && IsWindow(lines, part, len, i) && Score(lines, part, len, i) > 0.0
    && LessBefore(lines, part, len, i, Score(lines, part, len, i))
    && AtMostBefore(lines, part, MaxLen(|part|) + 1, 0, Score(lines, part, len, i))
  }

  ghost predicate AllZero(lines: seq<string>, part: seq<string>) {
    AtMostBefore(lines, part, MaxLen(|part|) + 1, 0, 0.0)
  }

  /** The outcome of the scan: the best window, or -1 when every window scores zero. */
  ghost predicate Scanned(lines: seq<string>, part: seq<string>, len: int, i: int) {
    if i == -1 then AllZero(lines, part) else Best(lines, part, len, i)
  }

  ghost predicate ScannedSoFar(lines: seq<string>, part: seq<string>, len: int, i: int, best: real, bestLen: int, bestStart: int) {
    && AtMostBefore(lines, part, len, i, best)
    && (bestStart == -1 ==> best == 0.0)
    && (bestStart != -1 ==>
        && IsWindow(lines, part, bestLen, bestStart) && Score(lines, part, bestLen, bestStart) == best > 0.0
        && Earlier(bestLen, bestStart, len, i)
        && LessBefore(lines, part, bestLen, bestStart, best))
  }

  lemma OneWindow(lines: seq<string>, part: seq<string>, len: int, i: int, best: real, bestLen: int, bestStart: int)
    requires IsWindow(lines, part, len, i) && ScannedSoFar(lines, part, len, i, best, bestLen, bestStart)
    ensures Score(lines, part, len, i) > best ==>
              ScannedSoFar(lines, part, len, i + 1, Score(lines, part, len, i), len, i)
    ensures Score(lines, part, len, i) <= best ==> ScannedSoFar(lines, part, len, i + 1, best, bestLen, bestStart)
  {
    assert forall l, k :: Earlier(l, k, len, i + 1) ==> Earlier(l, k, len, i) || (l == len && k == i);
  }

  lemma NextLength(lines: seq<string>, part: seq<string>, len: int, i: int, best: real, bestLen: int, bestStart: int)
    requires ScannedSoFar(lines, part, len, i, best, bestLen, bestStart) && i > |lines| - len
    ensures ScannedSoFar(lines, part, len + 1, 0, best, bestLen, bestStart)
  {
    forall l, k | IsWindow(lines, part, l, k) && Earlier(l, k, len + 1, 0)
      ensures Score(lines, part, l, k) <= best
    {
      assert Earlier(l, k, len, i);
    }
  }

  method Tier4Fuzzy(lines: seq<string>, part: seq<string>) returns (len: int, start: int, score: real)
    ensures Scanned(lines, part, len, start)
    ensures start == -1 ==> score == 0.0
    ensures start != -1 ==> score == Score(lines, part, len, start)
  {
    var partStr, partLen := Concat(part), |part|;
    var minLen := (partLen as real * 0.9).Floor;
    if minLen < 1 {
      minLen := 1;
    }
    var maxLen := (partLen as real * 1.1).Floor + 1;
    len, start, score := 0, -1, 0.0;
    var length := minLen;
    while length <= maxLen
      invariant minLen <= length
      invariant ScannedSoFar(lines, part, length, 0, score, len, start)
    {
      var i := 0;
      while i <= |lines| - length
        invariant 0 <= i
        invariant ScannedSoFar(lines, part, length, i, score, len, start)
      {
        var chunk := Concat(lines[i..i + length]);
        var ratio := SequenceRatio(chunk, partStr);
        OneWindow(lines, part, length, i, score, len, start);
        if ratio > score {
          len, start, score := length, i, ratio;
        }
        i := i + 1;
      }
      NextLength(lines, part, length, i, score, len, start);
      length := length + 1;
    }
    forall l, k | IsWindow(lines, part, l, k)
      ensures Earlier(l, k, length, 0)
    {
    }
  }

  lemma ScannedOnce(lines: seq<string>, part: seq<string>, len: int, i: int, len': int, i': int)
    requires Scanned(lines, part, len, i) && Scanned(lines, part, len', i')
    ensures i == i' && (i != -1 ==> len == len')
  {
    if i != -1 {
      assert Earlier(len, i, MaxLen(|part|) + 1, 0);
    }
    if i' != -1 {
      assert Earlier(len', i', MaxLen(|part|) + 1, 0);
    }
  }

  /** The fuzzy scan looks at windows from nine to eleven tenths of the part's length, rounded down and one more. */
  lemma WindowLengths(n: nat)
    ensures MinLen(n) == if n < 2 then 1 else 9 * n / 10
    ensures MaxLen(n) == 11 * n / 10 + 1
  {
    var low, high := n as real * 0.9, n as real * 1.1;
    assert 10.0 * low == (9 * n) as real && 10.0 * high == (11 * n) as real;
    assert low.Floor == 9 * n / 10;
    assert high.Floor == 11 * n / 10;
  }

  // ---------------------------------------------------------------- the tiers in order

  const DEFAULT_THRESHOLD := 0.8

  /** The part outdented by `n`: by the indent it shares with its replacement (Replace), or by its own (Find). */
  ghost predicate FirstThreeFail(lines: seq<string>, part: seq<string>, n: nat) {
    && Nowhere(ExactTest(part), lines, |part|)
    && Nowhere(LeadingTest(StripLines(part, n)), lines, |part|)
    && Nowhere(TrailingTest(part), lines, |part|)
  }

  /** `m` is the window the tiers select when the part is outdented by `n`: the first window of the strictest tier that
      matches anywhere; in the fuzzy tier the best window, provided it reaches the threshold. */
  ghost predicate Selects(lines: seq<string>, part: seq<string>, n: nat, threshold: real, m: Match) {
    var s, e := m.startLine - 1, m.endLine;
    && 0 <= s <= e <= |lines|
    && match m.tier
       case TierExact => e - s == |part| && m.score == 1.0 && First(ExactTest(part), lines, |part|, s)
       case TierLeadingWS =>
         && e - s == |part| && m.score == 1.0 && Nowhere(ExactTest(part), lines, |part|)
         && First(LeadingTest(StripLines(part, n)), lines, |part|, s)
       case TierTrailingWS =>
         && e - s == |part| && m.score == 1.0 && Nowhere(ExactTest(part), lines, |part|)
         && Nowhere(LeadingTest(StripLines(part, n)), lines, |part|)
         && First(TrailingTest(part), lines, |part|, s)
       case TierFuzzy => FirstThreeFail(lines, part, n) && SelectsFuzzy(lines, part, threshold, m)
  }

  /** No tier matches. */
  ghost predicate NoTier(lines: seq<string>, part: seq<string>, n: nat, threshold: real) {
    FirstThreeFail(lines, part, n) && NoFuzzy(lines, part, threshold)
  }

  /** The tiers select at most one window, and none exactly when no tier matches. */
  lemma SelectionIsUnique(lines: seq<string>, part: seq<string>, n: nat, threshold: real, m: Match, m': Match)
    requires Selects(lines, part, n, threshold, m)
    ensures !NoTier(lines, part, n, threshold)
    ensures Selects(lines, part, n, threshold, m') ==> m == m'
  {
    var s, e := m.startLine - 1, m.endLine;
    if Selects(lines, part, n, threshold, m') {
      var s', e' := m'.startLine - 1, m'.endLine;
      if m.tier == TierFuzzy && m'.tier == TierFuzzy {
        ScannedOnce(lines, part, e - s, s, e' - s', s');
      }
    }
  }

  ghost predicate SelectsFuzzy(lines: seq<string>, part: seq<string>, threshold: real, m: Match) {
    var s, len := m.startLine - 1, m.endLine - (m.startLine - 1);
    m.tier == TierFuzzy && Best(lines, part, len, s) && m.score == Score(lines, part, len, s) >= threshold
  }

  ghost predicate NoFuzzy(lines: seq<string>, part: seq<string>, threshold: real) {
    forall len, i :: Best(lines, part, len, i) ==> Score(lines, part, len, i) < threshold
  }

  method SelectFuzzy(lines: seq<string>, part: seq<string>, threshold: real) returns (r: Option<Match>)
    requires threshold > 0.0
    ensures if r.Some? then SelectsFuzzy(lines, part, threshold, r.value) else NoFuzzy(lines, part, threshold)
  {
    var len, start, score := Tier4Fuzzy(lines, part);
    if score < threshold || start < 0 {
      forall l, k | Best(lines, part, l, k)
        ensures Score(lines, part, l, k) < threshold
      {
        ScannedOnce(lines, part, len, start, l, k);
      }
      return None;
    }
    r := Some(Match(TierFuzzy, start + 1, start + len, score));
  }

  method Select(lines: seq<string>, part: seq<string>, n: nat, threshold: real) returns (r: Option<Match>, add: string)
    requires threshold > 0.0
    ensures r.Some? ==> Selects(lines, part, n, threshold, r.value)
    ensures r.Some? && r.value.tier == TierLeadingWS ==>
              Reindents(add, lines[r.value.startLine - 1..r.value.endLine], StripLines(part, n))
    ensures r.None? ==> NoTier(lines, part, n, threshold)
  {
    add := "";
    var i := Tier1Exact(lines, part);
    if i != -1 {
      return Some(Match(TierExact, i + 1, i + |part|, 1.0)), add;
    }
    var stripped := if n > 0 then StripLines(part, n) else part;
    assert stripped == StripLines(part, n);
    i, add := Tier2Search(lines, stripped);
    if i != -1 {
      return Some(Match(TierLeadingWS, i + 1, i + |part|, 1.0)), add;
    }
    i := Tier3TrailingWS(lines, part);
    if i != -1 {
      return Some(Match(TierTrailingWS, i + 1, i + |part|, 1.0)), add;
    }
    r := SelectFuzzy(lines, part, threshold);
  }

  // ---------------------------------------------------------------- the engine

  function WholeLines(s: string): seq<string> {
    KeepNewlines(Terminated(s))
  }

  /** What goes in for the window: the replacement, or in the second tier the replacement outdented and then put behind the
      indent of the window. */
  ghost predicate Supplies(lines: seq<string>, part: seq<string>, repl: seq<string>, n: nat, m: Match, news: seq<string>)
    requires 1 <= m.startLine <= m.endLine + 1 <= |lines| + 1
  {
    if m.tier == TierLeadingWS then
      exists w :: Reindents(w, lines[m.startLine - 1..m.endLine], StripLines(part, n)) && news == IndentAll(w, StripLines(repl, n))
    else news == repl
  }

  method Find(whole: string, part: string, fuzzyThreshold: real) returns (r: Option<Match>)
    ensures var lines, partLines := WholeLines(whole), WholeLines(part);
            var t := if fuzzyThreshold <= 0.0 then 0.8 else fuzzyThreshold;
            var n := CommonLeading(partLines);
            if r.Some? then Selects(lines, partLines, n, t, r.value) else NoTier(lines, partLines, n, t)
  {
    var threshold := if fuzzyThreshold <= 0.0 then 0.8 else fuzzyThreshold;
    var _, wholeLines := Prep(whole);
    var _, partLines := Prep(part);
    var n := CommonLeadingCount(partLines);
    var add;
    r, add := Select(wholeLines, partLines, n, threshold);
  }

  method ApplyReplacement(wholeLines: seq<string>, start: nat, end: nat, replaceLines: seq<string>) returns (text: string)
    requires start <= end <= |wholeLines|
    ensures text == Concat(wholeLines[..start]) + Concat(replaceLines) + Concat(wholeLines[end..])
  {
    var result := wholeLines[..start];
    result := result + replaceLines;
    result := result + wholeLines[end..];
    ConcatSplit(wholeLines[..start] + replaceLines, wholeLines[end..]);
    ConcatSplit(wholeLines[..start], replaceLines);
    text := Concat(result);
  }

  /** On a miss the text comes back terminated. */
  method Replace(whole: string, part: string, replace: string, fuzzyThreshold: real) returns (text: string, found: Option<Match>)
    ensures var t := if fuzzyThreshold <= 0.0 then 0.8 else fuzzyThreshold;
            if found.Some? then Replaced(whole, part, replace, t, found.value, text)
            else
              var p := WholeLines(part);
              NoTier(WholeLines(whole), p, CommonLeading(p + WholeLines(replace)), t) && text == Terminated(whole)
  {
    var threshold := if fuzzyThreshold <= 0.0 then 0.8 else fuzzyThreshold;
    var wholeText, wholeLines := Prep(whole);
    var _, partLines := Prep(part);
    var _, replaceLines := Prep(replace);
    var n := CommonLeadingCount(partLines + replaceLines);
    var add;
    found, add := Select(wholeLines, partLines, n, threshold);
    if found.None? {
      return wholeText, None;
    }
    var m := found.value;
    var news := replaceLines;
    if m.tier == TierLeadingWS {
      var strippedReplace := StripLeadingN(replaceLines, n);
      news := IndentReplacement(add, strippedReplace);
    }
    assert Supplies(wholeLines, partLines, replaceLines, n, m, news);
    text := ApplyReplacement(wholeLines, m.startLine - 1, m.endLine, news);
  }

  /** Text outside the window is left alone: the terminated input is the text before, the window, and the text after. */
  lemma WindowSplitsText(whole: string, start: nat, end: nat)
    requires start <= end <= |WholeLines(whole)|
    ensures var lines := WholeLines(whole);
            Terminated(whole) == Concat(lines[..start]) + Concat(lines[start..end]) + Concat(lines[end..])
  {
    var lines := WholeLines(whole);
    KeepNewlinesIsLossless(Terminated(whole));
    assert lines == lines[..start] + lines[start..end] + lines[end..];
    ConcatSplit(lines[..start] + lines[start..end], lines[end..]);
    ConcatSplit(lines[..start], lines[start..end]);
  }

  /** `line` less the first `n` characters of a non-blank line. */
  predicate Outdented(out: string, line: string, n: nat) {
    if Blank(line) then out == line else n <= |line| && out == line[n..]
  }

  /** The replacement lines as they go in: blank ones as they are, any other without the shared indent and behind `w`. */
  predicate IndentedBy(w: string, repl: seq<string>, n: nat, news: seq<string>) {
    && |news| == |repl|
    && forall j :: 0 <= j < |repl| ==>
         if Blank(repl[j]) then news[j] == repl[j] else n <= |repl[j]| && news[j] == w + repl[j][n..]
  }

  lemma StrippedStaysNonBlank(all: seq<string>, i: nat)
    requires i < |all|
    ensures Outdented(StripLine(all[i], CommonLeading(all)), all[i], CommonLeading(all))
    ensures Blank(StripLine(all[i], CommonLeading(all))) <==> Blank(all[i])
  {
    StrippingTakesOnlyBlanks(all, i);
    BlankBody(all[i]);
    BlankBody(StripLine(all[i], CommonLeading(all)));
  }

  lemma IndentAllMeaning(part: seq<string>, repl: seq<string>, w: string)
    ensures var n := CommonLeading(part + repl); IndentedBy(w, repl, n, IndentAll(w, StripLines(repl, n)))
  {
    var all, n := part + repl, CommonLeading(part + repl);
    var news := IndentAll(w, StripLines(repl, n));
    forall j | 0 <= j < |repl|
      ensures if Blank(repl[j]) then news[j] == repl[j] else n <= |repl[j]| && news[j] == w + repl[j][n..]
    {
      assert all[|part| + j] == repl[j];
      StrippedStaysNonBlank(all, |part| + j);
    }
  }

  /** The window is the outdented part behind `w`, blank lines left alone, and not all of it is blank. */
  ghost predicate PartBehind(w: string, window: seq<string>, part: seq<string>, n: nat) {
    && |window| == |part| && AllIn(w, BLANKS)
    && (exists i :: 0 <= i < |part| && !Blank(StripLine(part[i], n)))
    && forall i :: 0 <= i < |part| ==>
         window[i] == if Blank(StripLine(part[i], n)) then StripLine(part[i], n) else w + StripLine(part[i], n)
  }

  /** When the window is the outdented part behind a uniform indent `w`, the replacement goes in line by line: a blank line as
      it is, any other without the indent it shares with the part and behind exactly `w`. */
  lemma IndentIsRestored(lines: seq<string>, part: seq<string>, repl: seq<string>, m: Match, news: seq<string>, w: string)
    requires m.tier == TierLeadingWS && 1 <= m.startLine <= m.endLine + 1 <= |lines| + 1
    requires Supplies(lines, part, repl, CommonLeading(part + repl), m, news)
    requires PartBehind(w, lines[m.startLine - 1..m.endLine], part, CommonLeading(part + repl))
    ensures IndentedBy(w, repl, CommonLeading(part + repl), news)
  {
    var n, window := CommonLeading(part + repl), lines[m.startLine - 1..m.endLine];
    UniformIndentIsRecovered(w, StripLines(part, n), window);
    IndentAllMeaning(part, repl, w);
  }

  /** What Replace answers. */
  ghost predicate Replaced(whole: string, part: string, replace: string, threshold: real, m: Match, text: string) {
    var lines, p, repl := WholeLines(whole), WholeLines(part), WholeLines(replace);
    var n := CommonLeading(p + repl);
    && Selects(lines, p, n, threshold, m)
    && exists news :: Supplies(lines, p, repl, n, m, news)
        && text == Concat(lines[..m.startLine - 1]) + Concat(news) + Concat(lines[m.endLine..])
  }

  /** So on texts: what Replace answers in the second tier is the text before the window, the replacement so indented, and the
      text after it. */
  lemma TextIsIndented(whole: string, part: string, replace: string, threshold: real, m: Match, text: string, w: string)
    requires Replaced(whole, part, replace, threshold, m, text) && m.tier == TierLeadingWS
    requires var lines, p, repl := WholeLines(whole), WholeLines(part), WholeLines(replace);
             PartBehind(w, lines[m.startLine - 1..m.endLine], p, CommonLeading(p + repl))
    ensures var lines, p, repl := WholeLines(whole), WholeLines(part), WholeLines(replace);
            exists news :: IndentedBy(w, repl, CommonLeading(p + repl), news)
              && text == Concat(lines[..m.startLine - 1]) + Concat(news) + Concat(lines[m.endLine..])
  {
    var lines, p, repl := WholeLines(whole), WholeLines(part), WholeLines(replace);
    var news :| Supplies(lines, p, repl, CommonLeading(p + repl), m, news)
                && text == Concat(lines[..m.startLine - 1]) + Concat(news) + Concat(lines[m.endLine..]);
    IndentIsRestored(lines, p, repl, m, news, w);
  }
}
