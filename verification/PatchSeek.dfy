/** The three-tier line seeker. */
module PatchSeek {
  import opened Text

  /** When two lines count as equal. */
  type Likeness = (string, string) -> bool

  predicate Exact(a: string, b: string) {
    a == b
  }

  predicate RStrip(a: string, b: string) {
    TrimRight(a, BLANKS) == TrimRight(b, BLANKS)
  }

  predicate Trim(a: string, b: string) {
    TrimSpace(a) == TrimSpace(b)
  }

  /** Lines are alike in the second tier exactly when they differ in trailing spaces and tabs only. */
  lemma RStripMeaning(a: string, b: string)
    ensures RStrip(a, b) <==> exists core, x, y :: DiffersBehind(a, b, core, x, y)
  {
    var x := TrimRightParts(a, BLANKS);
    var y := TrimRightParts(b, BLANKS);
    if RStrip(a, b) {
      assert DiffersBehind(a, b, TrimRight(a, BLANKS), x, y);
    }
    if core, x, y :| DiffersBehind(a, b, core, x, y) {
      TrimRightAbsorbs(core, x, BLANKS);
      TrimRightAbsorbs(core, y, BLANKS);
    }
  }

  ghost predicate DiffersBehind(a: string, b: string, core: string, x: string, y: string) {
    a == core + x && b == core + y && AllIn(x, {' ', '\t'}) && AllIn(y, {' ', '\t'})
  }

  /** And in the third exactly when they differ in white space at both ends only. */
  lemma TrimMeaning(a: string, b: string)
    ensures Trim(a, b) <==> exists core, u, v, x, y :: DiffersAround(a, b, core, u, v, x, y)
  {
    var u, x := TrimBothParts(a, SPACES);
    var v, y := TrimBothParts(b, SPACES);
    if Trim(a, b) {
      assert DiffersAround(a, b, TrimSpace(a), u, v, x, y);
    }
    if core, u, v, x, y :| DiffersAround(a, b, core, u, v, x, y) {
      TrimBothOf(u, core, x, SPACES);
      TrimBothOf(v, core, y, SPACES);
    }
  }

  ghost predicate DiffersAround(a: string, b: string, core: string, u: string, v: string, x: string, y: string) {
    && a == u + core + x && b == v + core + y && IsTrimmed(core)
    && AllWhite(u) && AllWhite(v) && AllWhite(x) && AllWhite(y)
  }

  predicate AllWhite(s: string) {
    AllIn(s, {' ', '\t', '\n', '\U{000B}', '\U{000C}', '\r'})
  }

  predicate MatchesAt(like: Likeness, lines: seq<string>, pattern: seq<string>, i: int) {
    && 0 <= i <= |lines| - |pattern|
    && forall j :: 0 <= j < |pattern| ==> like(lines[i + j], pattern[j])
  }

  /** The first match at or after `from`, or -1. */
  function FirstAt(like: Likeness, lines: seq<string>, pattern: seq<string>, from: nat): (r: int)
    ensures r == -1 || from <= r <= |lines| - |pattern|
    decreases |lines| - from
  {
    if from > |lines| - |pattern| then -1
    else if MatchesAt(like, lines, pattern, from) then from
    else if from == |lines| then -1
    else FirstAt(like, lines, pattern, from + 1)
  }

  function SearchStart(lines: seq<string>, pattern: seq<string>, start: nat, eof: bool): nat {
    if eof && |pattern| <= |lines| then |lines| - |pattern| else start
  }

  function OrElse(r: int, other: int): int {
    if r >= 0 then r else other
  }

  /** The tiers, strictest first. */
  const TIERS: seq<Likeness> := [Exact, RStrip, Trim]

  /** The first match of the first tier that has one, or -1. */
  function SeekFrom(tiers: seq<Likeness>, lines: seq<string>, pattern: seq<string>, from: nat): (r: int)
    ensures r == -1 || from <= r <= |lines| - |pattern|
  {
    if |tiers| == 0 then -1
    else OrElse(FirstAt(tiers[0], lines, pattern, from), SeekFrom(tiers[1..], lines, pattern, from))
  }

  lemma SeekFromTiers(lines: seq<string>, pattern: seq<string>, from: nat)
    ensures SeekFrom(TIERS, lines, pattern, from)
            == OrElse(FirstAt(Exact, lines, pattern, from),
                      OrElse(FirstAt(RStrip, lines, pattern, from), FirstAt(Trim, lines, pattern, from)))
  {
    assert TIERS[1..] == [RStrip, Trim] && [RStrip, Trim][1..] == [Trim] && [Trim][1..] == [];
    assert SeekFrom([Trim], lines, pattern, from) == FirstAt(Trim, lines, pattern, from);
    assert SeekFrom([RStrip, Trim], lines, pattern, from)
        == OrElse(FirstAt(RStrip, lines, pattern, from), FirstAt(Trim, lines, pattern, from));
  }

  function Seek(lines: seq<string>, pattern: seq<string>, start: nat, eof: bool): int {
    if |pattern| == 0 then start else SeekFrom(TIERS, lines, pattern, SearchStart(lines, pattern, start, eof))
  }

  /** The window comparison the three search loops share, stopping at the first difference. */
  method WindowMatches(like: Likeness, lines: seq<string>, pattern: seq<string>, i: nat) returns (ok: bool)
    requires i + |pattern| <= |lines|
    ensures ok == MatchesAt(like, lines, pattern, i)
  {
    for j := 0 to |pattern|
      invariant forall k :: 0 <= k < j ==> like(lines[i + k], pattern[k])
    {
      if !like(lines[i + j], pattern[j]) {
        return false;
      }
    }
    ok := true;
  }

  /** One of the three search loops. */
  method SearchTier(like: Likeness, lines: seq<string>, pattern: seq<string>, searchStart: nat) returns (r: int)
    requires |pattern| <= |lines|
    ensures r == FirstAt(like, lines, pattern, searchStart)
  {
    var i, last := searchStart, |lines| - |pattern|;
    while i <= last
      invariant searchStart <= i
      invariant FirstAt(like, lines, pattern, searchStart) == FirstAt(like, lines, pattern, i)
    {
      var ok := WindowMatches(like, lines, pattern, i);
      if ok {
        return i;
      }
      i := i + 1;
    }
    r := -1;
  }

  method SeekSequence(lines: seq<string>, pattern: seq<string>, start: nat, eof: bool) returns (r: int)
    ensures r == Seek(lines, pattern, start, eof)
  {
    if |pattern| == 0 {
      return start;
    }
    if |pattern| > |lines| {
      return -1;
    }
    var searchStart := start;
    if eof && |lines| >= |pattern| {
      searchStart := |lines| - |pattern|;
    }
    SeekFromTiers(lines, pattern, searchStart);
    r := SearchTier(Exact, lines, pattern, searchStart);
    if r >= 0 {
      return;
    }
    r := SearchTier(RStrip, lines, pattern, searchStart);
    if r >= 0 {
      return;
    }
    r := SearchTier(Trim, lines, pattern, searchStart);
  }

  lemma MatchesAtLoosens(lines: seq<string>, pattern: seq<string>, i: int)
    ensures MatchesAt(Exact, lines, pattern, i) ==> MatchesAt(RStrip, lines, pattern, i)
    ensures MatchesAt(RStrip, lines, pattern, i) ==> MatchesAt(Trim, lines, pattern, i)
  {
    if MatchesAt(RStrip, lines, pattern, i) {
      forall j | 0 <= j < |pattern|
        ensures Trim(lines[i + j], pattern[j])
      {
        assert RStrip(lines[i + j], pattern[j]);
        TrimSpaceAfterTrimRight(lines[i + j]);
        TrimSpaceAfterTrimRight(pattern[j]);
      }
    }
  }

  lemma {:induction false} FirstAtMeaning(like: Likeness, lines: seq<string>, pattern: seq<string>, from: nat)
    ensures var r := FirstAt(like, lines, pattern, from);
            && (r == -1 ==> NoneIn(like, lines, pattern, from, |lines| + 1))
            && (r != -1 ==> MatchesAt(like, lines, pattern, r) && NoneIn(like, lines, pattern, from, r))
    decreases |lines| - from
  {
    if from <= |lines| - |pattern| && !MatchesAt(like, lines, pattern, from) && from < |lines| {
      FirstAtMeaning(like, lines, pattern, from + 1);
    }
  }

  /** The window found is the first match of the strictest tier that matches anywhere in the range. */
  ghost predicate IsBest(like: Likeness, lines: seq<string>, pattern: seq<string>, from: nat, r: int) {
    from <= r && MatchesAt(like, lines, pattern, r) && NoneIn(like, lines, pattern, from, r)
  }

  ghost predicate NoneIn(like: Likeness, lines: seq<string>, pattern: seq<string>, from: int, to: int) {
    forall i :: from <= i < to ==> !MatchesAt(like, lines, pattern, i)
  }

  /** Nothing is found exactly when not even the loosest tier matches in the range;
      what is found is the first match of the strictest tier that has one. */
  lemma SeekMeaning(lines: seq<string>, pattern: seq<string>, start: nat, eof: bool)
    requires |pattern| > 0
    ensures var r, from, to := Seek(lines, pattern, start, eof), SearchStart(lines, pattern, start, eof), |lines| + 1;
            && (r == -1 <==> NoneIn(Trim, lines, pattern, from, to))
            && (r != -1 ==>
                || IsBest(Exact, lines, pattern, from, r)
                || (NoneIn(Exact, lines, pattern, from, to) && IsBest(RStrip, lines, pattern, from, r))
                || (NoneIn(RStrip, lines, pattern, from, to) && IsBest(Trim, lines, pattern, from, r)))
  {
    forall i | 0 <= i <= |lines| - |pattern|
      ensures MatchesAt(Exact, lines, pattern, i) ==> MatchesAt(RStrip, lines, pattern, i)
      ensures MatchesAt(RStrip, lines, pattern, i) ==> MatchesAt(Trim, lines, pattern, i)
    {
      MatchesAtLoosens(lines, pattern, i);
    }
    var from := SearchStart(lines, pattern, start, eof);
    SeekFromTiers(lines, pattern, from);
    FirstAtMeaning(Exact, lines, pattern, from);
    FirstAtMeaning(RStrip, lines, pattern, from);
    FirstAtMeaning(Trim, lines, pattern, from);
  }

  /** The last lines match the pattern, at least when white space around them is ignored. */
  predicate Hit(lines: seq<string>, pattern: seq<string>) {
    |pattern| <= |lines| && MatchesAt(Trim, lines, pattern, |lines| - |pattern|)
  }

  lemma EofSeek(lines: seq<string>, pattern: seq<string>, start: nat)
    requires |pattern| > 0
    ensures Seek(lines, pattern, start, true) == if Hit(lines, pattern) then |lines| - |pattern| else -1
  {
    SeekMeaning(lines, pattern, start, true);
    if |pattern| <= |lines| {
      assert forall i :: |lines| - |pattern| <= i < |lines| + 1 && MatchesAt(Trim, lines, pattern, i) ==> i == |lines| - |pattern|;
    }
  }

  lemma MatchesAtShift(like: Likeness, pre: seq<string>, tail: seq<string>, pattern: seq<string>, i: nat)
    ensures MatchesAt(like, pre + tail, pattern, |pre| + i) == MatchesAt(like, tail, pattern, i)
  {
    if i <= |tail| - |pattern| {
      assert forall n :: i <= n < i + |pattern| ==> (pre + tail)[|pre| + n] == tail[n];
    }
  }

  /** What stands before the search start cannot matter. */
  lemma {:induction false} FirstAtShift(like: Likeness, pre: seq<string>, tail: seq<string>, pattern: seq<string>, from: nat)
    ensures FirstAt(like, pre + tail, pattern, |pre| + from) == ShiftIndex(FirstAt(like, tail, pattern, from), |pre|)
    decreases |tail| - from
  {
    MatchesAtShift(like, pre, tail, pattern, from);
    if from <= |tail| - |pattern| && !MatchesAt(like, tail, pattern, from) && from < |tail| {
      FirstAtShift(like, pre, tail, pattern, from + 1);
    }
  }

  function ShiftIndex(r: int, offset: nat): int {
    if r < 0 then -1 else offset + r
  }

  lemma OrElseShift(a: int, b: int, offset: nat)
    requires a >= -1 && b >= -1
    ensures OrElse(ShiftIndex(a, offset), ShiftIndex(b, offset)) == ShiftIndex(OrElse(a, b), offset)
  {
  }

  lemma {:induction false} SeekFromShift(tiers: seq<Likeness>, pre: seq<string>, tail: seq<string>, pattern: seq<string>, from: nat)
    ensures SeekFrom(tiers, pre + tail, pattern, |pre| + from) == ShiftIndex(SeekFrom(tiers, tail, pattern, from), |pre|)
  {
    if |tiers| > 0 {
      FirstAtShift(tiers[0], pre, tail, pattern, from);
      SeekFromShift(tiers[1..], pre, tail, pattern, from);
      OrElseShift(FirstAt(tiers[0], tail, pattern, from), SeekFrom(tiers[1..], tail, pattern, from), |pre|);
    }
  }

  /** Seeking from the end of `pre` sees only the tail, unless an end-of-file search starts inside `pre`. */
  lemma SeekShift(pre: seq<string>, tail: seq<string>, pattern: seq<string>, eof: bool)
    requires eof ==> |pattern| <= |tail|
    ensures Seek(pre + tail, pattern, |pre|, eof) == ShiftIndex(Seek(tail, pattern, 0, eof), |pre|)
  {
    if |pattern| > 0 {
      var from := SearchStart(tail, pattern, 0, eof);
      SearchStartShift(pre, tail, pattern, eof);
      SeekFromShift(TIERS, pre, tail, pattern, from);
    }
  }

  lemma SearchStartShift(pre: seq<string>, tail: seq<string>, pattern: seq<string>, eof: bool)
    requires eof ==> |pattern| <= |tail|
    ensures SearchStart(pre + tail, pattern, |pre|, eof) == |pre| + SearchStart(tail, pattern, 0, eof)
  {
  }

  /** An end-of-file search looks at one window only, so it respects the cursor in exactly three cases:
      the window starts at or after the cursor, the pattern is longer than the file, or the window does not match. */
  lemma EofSeekRespectsCursor(pre: seq<string>, tail: seq<string>, pattern: seq<string>)
    requires |pattern| > 0
    ensures var r, w := Seek(tail, pattern, 0, true), |pre| + |tail| - |pattern|;
            Seek(pre + tail, pattern, |pre|, true) == ShiftIndex(r, |pre|)
            <==> w >= |pre| || w < 0 || !MatchesAt(Trim, pre + tail, pattern, w)
  {
    if |pattern| <= |tail| {
      SeekShift(pre, tail, pattern, true);
    } else {
      SeekMeaning(pre + tail, pattern, |pre|, true);
      SeekMeaning(tail, pattern, 0, true);
    }
  }
}
