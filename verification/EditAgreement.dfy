/** When Find and Replace select the same window. They differ in how far they outdent the part for the second tier: Find by the
    part's own common indent, Replace by the indent the part shares with its replacement. */
module EditAgreement {
  import opened Text
  import opened EditLines
  import opened EditIndent
  import opened EditReplace
  import opened Lcs

  predicate AllBlank(lines: seq<string>) {
    forall i :: 0 <= i < |lines| ==> Blank(lines[i])
  }

  /** No non-blank replacement line is indented less than the part. */
  predicate NoneLessIndented(part: seq<string>, repl: seq<string>) {
    forall i :: 0 <= i < |repl| && !Blank(repl[i]) ==> CommonLeading(part) <= Lead(repl[i])
  }

  ghost predicate SameSelection(lines: seq<string>, part: seq<string>, n: nat, k: nat, threshold: real) {
    forall m :: Selects(lines, part, n, threshold, m) <==> Selects(lines, part, k, threshold, m)
  }

  // ---------------------------------------------------------------- the two outdents

  /** The common indent is the least one. */
  lemma CommonLeadingIs(lines: seq<string>, n: nat, i: nat)
    requires i < |lines| && !Blank(lines[i]) && Lead(lines[i]) == n
    requires forall j :: 0 <= j < |lines| && !Blank(lines[j]) ==> n <= Lead(lines[j])
    ensures CommonLeading(lines) == n
  {
    MinLeadMeaning(lines);
  }

  lemma SomeLineHasIt(lines: seq<string>) returns (i: nat)
    requires !AllBlank(lines)
    ensures i < |lines| && !Blank(lines[i]) && Lead(lines[i]) == CommonLeading(lines)
    ensures forall j :: 0 <= j < |lines| && !Blank(lines[j]) ==> CommonLeading(lines) <= Lead(lines[j])
  {
    MinLeadMeaning(lines);
    i :| 0 <= i < |lines| && !Blank(lines[i]) && MinLead(lines).value == Lead(lines[i]);
  }

  /** Replace never outdents a part that is not blank by more than Find does, and by as much exactly when no replacement line is
      indented less. */
  lemma SharedIndent(part: seq<string>, repl: seq<string>)
    requires !AllBlank(part)
    ensures CommonLeading(part + repl) <= CommonLeading(part)
    ensures CommonLeading(part + repl) == CommonLeading(part) <==> NoneLessIndented(part, repl)
  {
    var i := SomeLineHasIt(part);
    var all := part + repl;
    assert all[i] == part[i];
    var k := SomeLineHasIt(all);
    assert forall j :: 0 <= j < |repl| ==> all[|part| + j] == repl[j];
    if NoneLessIndented(part, repl) {
      forall j | 0 <= j < |all| && !Blank(all[j])
        ensures CommonLeading(part) <= Lead(all[j])
      {
        assert all[j] == if j < |part| then part[j] else repl[j - |part|];
      }
      CommonLeadingIs(all, CommonLeading(part), i);
    }
  }

  lemma BlankStaysAsItIs(part: seq<string>, n: nat)
    requires AllBlank(part)
    ensures StripLines(part, n) == part
  {
  }

  lemma StrippedLength(part: seq<string>, i: nat, n: nat)
    requires i < |part| && !Blank(part[i]) && n <= Lead(part[i])
    ensures |StripLines(part, n)[i]| == |part[i]| - n
  {
    LeadIsBlank(part[i]);
  }

  /** The two outdents give the same lines exactly when the part is blank or no replacement line is indented less. */
  lemma OutdentsAgree(part: seq<string>, repl: seq<string>)
    ensures StripLines(part, CommonLeading(part)) == StripLines(part, CommonLeading(part + repl))
            <==> AllBlank(part) || NoneLessIndented(part, repl)
  {
    if AllBlank(part) {
      BlankStaysAsItIs(part, CommonLeading(part));
      BlankStaysAsItIs(part, CommonLeading(part + repl));
    } else {
      SharedIndent(part, repl);
      var i := SomeLineHasIt(part);
      StrippedLength(part, i, CommonLeading(part));
      StrippedLength(part, i, CommonLeading(part + repl));
    }
  }

  // ---------------------------------------------------------------- a text that tells them apart

  /** A stripped line is a line. */
  lemma StrippedIsLine(line: string, n: nat)
    requires IsLine(line) && (Blank(line) || n <= Lead(line))
    ensures IsLine(StripLine(line, n))
  {
    if !Blank(line) {
      LeadIsBlank(line);
      BlankBody(line);
      assert Blank("");
      var rest := line[n..];
      assert rest[|rest| - 1] == line[|line| - 1];
      assert forall k :: 0 <= k < |rest| - 1 ==> rest[k] == line[..|line| - 1][n + k];
    }
  }

  lemma StrippedAreLines(part: seq<string>)
    requires AreLines(part)
    ensures AreLines(StripLines(part, CommonLeading(part)))
  {
    MinLeadMeaning(part);
    forall i | 0 <= i < |part|
      ensures IsLine(StripLines(part, CommonLeading(part))[i])
    {
      StrippedIsLine(part[i], CommonLeading(part));
    }
  }

  lemma WholeLinesAreLines(s: string)
    ensures AreLines(WholeLines(s))
  {
    if s != "" {
      LastChar(s, '\n');
      KeptAreLines(Terminated(s), "");
    }
  }

  lemma WholeLinesOfLines(lines: seq<string>)
    requires AreLines(lines)
    ensures WholeLines(Concat(lines)) == lines
  {
    KeepNewlinesOfLines(lines, "");
    assert Concat(lines) + "" == Concat(lines) && lines + [] == lines;
    LinesEndInNewline(lines);
  }

  lemma {:induction false} LinesEndInNewline(lines: seq<string>)
    requires AreLines(lines)
    ensures Terminated(Concat(lines)) == Concat(lines)
  {
    LastChar(Concat(lines), '\n');
    if |lines| > 0 {
      LinesEndInNewline(lines[1..]);
      LastChar(Concat(lines[1..]), '\n');
    }
  }

  /** On its own outdented lines, Find selects the part in the second tier. */
  lemma FindSelectsOutdented(part: seq<string>, threshold: real)
    requires !AllBlank(part) && CommonLeading(part) > 0
    ensures Selects(StripLines(part, CommonLeading(part)), part, CommonLeading(part), threshold,
                    Match(TierLeadingWS, 1, |part|, 1.0))
  {
    var n := CommonLeading(part);
    var lines := StripLines(part, n);
    var i := SomeLineHasIt(part);
    StrippedLength(part, i, n);
    assert lines[0..|part|] == lines;
    forall j | 0 <= j < |lines| + 1
      ensures !Passes(ExactTest(part), lines, |part|, j)
    {
      if j == 0 {
        assert lines[i] != part[i];
      }
    }
    assert Reindents("", lines, lines);
  }

  /** Outdented by less, it does not match there. */
  lemma LessOutdentedDoesNotMatch(part: seq<string>, k: nat)
    requires !AllBlank(part) && k < CommonLeading(part)
    ensures !LeadingTest(StripLines(part, k))(StripLines(part, CommonLeading(part)))
  {
    var n := CommonLeading(part);
    var i := SomeLineHasIt(part);
    StrippedLength(part, i, n);
    StrippedLength(part, i, k);
    StrippingTakesOnlyBlanks(part, i);
    var chunk := StripLines(part, n);
    BlankBody(part[i]);
    BlankBody(chunk[i]);
    forall w
      ensures !Reindents(w, chunk, StripLines(part, k))
    {
      assert !Added(w, chunk[i], StripLines(part, k)[i]);
    }
  }

  /** So that text separates them. */
  lemma OutdentedTextSeparates(part: seq<string>, k: nat, threshold: real)
    requires AreLines(part) && !AllBlank(part) && k < CommonLeading(part)
    ensures !SameSelection(WholeLines(Concat(StripLines(part, CommonLeading(part)))), part, CommonLeading(part), k, threshold)
  {
    var n := CommonLeading(part);
    var lines := StripLines(part, n);
    StrippedAreLines(part);
    WholeLinesOfLines(lines);
    FindSelectsOutdented(part, threshold);
    LessOutdentedDoesNotMatch(part, k);
    assert lines[0..|part|] == lines;
    assert !Passes(LeadingTest(StripLines(part, k)), lines, |part|, 0);
    assert !Selects(lines, part, k, threshold, Match(TierLeadingWS, 1, |part|, 1.0));
  }

  /** Find and Replace select the same window of every text exactly when the part is blank or no non-blank replacement line is
      indented less than the part. */
  lemma FindAndReplaceAgree(part: string, replace: string, threshold: real)
    ensures var p, repl := WholeLines(part), WholeLines(replace);
            (forall whole :: SameSelection(WholeLines(whole), p, CommonLeading(p), CommonLeading(p + repl), threshold))
            <==> AllBlank(p) || NoneLessIndented(p, repl)
  {
    var p, repl := WholeLines(part), WholeLines(replace);
    var n, k := CommonLeading(p), CommonLeading(p + repl);
    OutdentsAgree(p, repl);
    if AllBlank(p) || NoneLessIndented(p, repl) {
      assert StripLines(p, n) == StripLines(p, k);
    } else {
      SharedIndent(p, repl);
      WholeLinesAreLines(part);
      OutdentedTextSeparates(p, k, threshold);
      assert !SameSelection(WholeLines(Concat(StripLines(p, n))), p, n, k, threshold);
    }
  }

  // ---------------------------------------------------------------- one such text

  lemma WordLine(lead: string, word: string)
    requires AllIn(lead, BLANKS) && |word| == 2 && word[0] !in WHITE && word[1] == '\n'
    ensures Body(lead + word) == word && Lead(lead + word) == |lead| && !Blank(lead + word) && IsLine(lead + word)
  {
    TrimLeftOf(lead, word, BLANKS);
    BlankIsWhite(lead + word);
    assert (lead + word)[|lead|] == word[0];
    assert (lead + word)[..|lead + word| - 1] == lead + [word[0]];
  }

  lemma ConcatOne(line: string)
    ensures Concat([line]) == line
  {
    assert [line][1..] == [] && Concat([line][1..]) == "";
    assert line + "" == line;
  }

  lemma OneLineText(line: string)
    requires IsLine(line)
    ensures WholeLines(line) == [line]
  {
    WholeLinesOfLines([line]);
    ConcatOne(line);
  }

  /** A short text scores at most twice its share. */
  lemma ScoreOfShort(a: string, b: string)
    requires 0 < |a| && 4 * |a| <= |a| + |b|
    ensures Ratio(a, b) <= 0.5
  {
    MatchIsShort(a, b);
    QuotientHalf(2 * LcsLen(a, b), |a| + |b|);
  }

  lemma OneWindowOnly(line: string, partLine: string)
    requires 0 < |line| && 4 * |line| <= |line| + |partLine|
    ensures NoFuzzy([line], [partLine], DEFAULT_THRESHOLD)
  {
    assert MinLen(1) == 1 && MaxLen(1) == 2;
    var lines, part := [line], [partLine];
    assert lines[0..1] == lines;
    ConcatOne(line);
    ConcatOne(partLine);
    ScoreOfShort(line, partLine);
    forall len, i | Best(lines, part, len, i)
      ensures Score(lines, part, len, i) < DEFAULT_THRESHOLD
    {
      assert len == 1 && i == 0;
      assert Score(lines, part, 1, 0) == Ratio(line, partLine);
    }
  }

  /** A line, the same line indented by four blanks or more as the part, and a replacement without indent: Find selects the line,
      and no tier of Replace matches. */
  lemma FindMatchesAndReplaceMisses(lead: string, word: string, other: string)
    requires AllIn(lead, BLANKS) && |lead| >= 4
    requires |word| == 2 && word[0] !in WHITE && word[1] == '\n' && |other| == 2 && other[0] !in WHITE && other[1] == '\n'
    ensures var lines, p, repl := WholeLines(word), WholeLines(lead + word), WholeLines(other);
            && Selects(lines, p, CommonLeading(p), DEFAULT_THRESHOLD, Match(TierLeadingWS, 1, 1, 1.0))
            && NoTier(lines, p, CommonLeading(p + repl), DEFAULT_THRESHOLD)
  {
    var lines, p, repl := [word], [lead + word], [other];
    WordLine("", word);
    WordLine(lead, word);
    WordLine("", other);
    assert "" + word == word && "" + other == other;
    OneLineText(word);
    OneLineText(lead + word);
    OneLineText(other);
    CommonLeadingIs(p, |lead|, 0);
    CommonLeadingIs(p + repl, 0, 1);
    assert (lead + word)[|lead|..] == word && StripLines(p, |lead|) == lines && StripLines(p, 0) == p;
    FindSelectsOutdented(p, DEFAULT_THRESHOLD);
    LessOutdentedDoesNotMatch(p, 0);
    OneWindowOnly(word, lead + word);
    TrailingBlanksOnly(lead, word);
    OthersMiss(lines, p);
  }

  lemma TrailingBlanksOnly(lead: string, word: string)
    requires AllIn(lead, BLANKS) && lead != "" && |word| == 2 && word[0] !in WHITE && word[1] == '\n'
    ensures RTrimLine(word) != RTrimLine(lead + word)
  {
    LastChar(word, '\n');
    LastChar(lead + word, '\n');
    var bare := [word[0]];
    assert word[..1] == bare && (lead + word)[..|lead + word| - 1] == lead + bare;
    assert bare + "" == bare && (lead + bare) + "" == lead + bare;
    TrimRightOf(bare, "", BLANKS);
    TrimRightOf(lead + bare, "", BLANKS);
  }

  lemma OthersMiss(lines: seq<string>, part: seq<string>)
    requires |lines| == |part| == 1 && !LeadingTest(StripLines(part, 0))(lines) && StripLines(part, 0) == part
    requires lines != part && RTrimLine(lines[0]) != RTrimLine(part[0])
    ensures FirstThreeFail(lines, part, 0)
  {
    assert lines[0..1] == lines;
    assert RTrimAll(lines)[0] != RTrimAll(part)[0];
  }

  /** For instance on the text "x" with the part "    x" and the replacement "y". */
  lemma ReplaceCanMissWhatFindMatches()
    ensures Selects(WholeLines("x\n"), WholeLines("    x\n"), CommonLeading(WholeLines("    x\n")), DEFAULT_THRESHOLD,
                    Match(TierLeadingWS, 1, 1, 1.0))
    ensures NoTier(WholeLines("x\n"), WholeLines("    x\n"), CommonLeading(WholeLines("    x\n") + WholeLines("y\n")), DEFAULT_THRESHOLD)
  {
    assert "    " + "x\n" == "    x\n";
    FindMatchesAndReplaceMisses("    ", "x\n", "y\n");
  }
}
