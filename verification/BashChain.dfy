/** The splitter that cuts a shell command line at its control operators, quotes and escapes respected. */
module BashChain {
  import opened Text

  /** None outside quotes, otherwise the quote that is open. */
  type Quote = Option<char>

  predicate IsQuote(c: char) {
    c == '\'' || c == '"'
  }

  /** What the scanner does at the front of a text: keep one or two characters, or cut at an operator of one or two. */
  datatype Move = Keep(n: nat, quote: Quote) | Cut(n: nat)

  function MoveAt(s: string, quote: Quote): (m: Move)
    requires s != ""
    ensures 1 <= m.n <= |s| && m.n <= 2
  {
    var c := s[0];
    if c == '\\' && |s| > 1 then Keep(2, quote)
    else if quote.Some? then Keep(1, if c == quote.value then None else quote)
    else if IsQuote(c) then Keep(1, Some(c))
    else if c == '&' then if |s| > 1 && s[1] == '&' then Cut(2) else Keep(1, None)
    else if c == '|' then if |s| > 1 && s[1] == '|' then Cut(2) else Cut(1)
    else if c == ';' then Cut(1)
    else Keep(1, None)
  }

  /** A part goes in trimmed, and only when something is left of it. */
  function Part(cur: string): seq<string> {
    if TrimSpace(cur) == "" then [] else [TrimSpace(cur)]
  }

  /** The parts of `cur` (kept so far) and `s` (still to scan). */
  function Scan(s: string, cur: string, quote: Quote): seq<string>
    decreases |s|
  {
    if s == "" then Part(cur)
    else
      match MoveAt(s, quote)
      case Keep(n, q) => Scan(s[n..], cur + s[..n], q)
      case Cut(n) => Part(cur) + Scan(s[n..], "", None)
  }

  function Parts(cmd: string): seq<string> {
    Scan(cmd, "", None)
  }

  lemma OneMove(cmd: string, i: nat, parts: seq<string>, cur: string, quote: Quote)
    requires i < |cmd|
    ensures var m := MoveAt(cmd[i..], quote);
            && i + m.n <= |cmd|
            && cmd[i..][0] == cmd[i] && (i + 1 < |cmd| ==> cmd[i..][1] == cmd[i + 1])
            && parts + Scan(cmd[i..], cur, quote) ==
               if m.Keep? then parts + Scan(cmd[i + m.n..], cur + cmd[i..i + m.n], m.quote)
               else (parts + Part(cur)) + Scan(cmd[i + m.n..], "", None)
    ensures cmd[i..i + 1] == [cmd[i]] && (i + 1 < |cmd| ==> cmd[i..i + 2] == [cmd[i], cmd[i + 1]])
  {
    var m := MoveAt(cmd[i..], quote);
    assert cmd[i..][m.n..] == cmd[i + m.n..] && cmd[i..][..m.n] == cmd[i..i + m.n];
    if m.Cut? {
      assert parts + (Part(cur) + Scan(cmd[i + m.n..], "", None)) == (parts + Part(cur)) + Scan(cmd[i + m.n..], "", None);
    }
  }

  method SplitBashChain(cmd: string) returns (parts: seq<string>)
    ensures parts == Parts(cmd)
  {
    parts := [];
    var cur, quote: Quote, i := "", None, 0;
    assert cmd[0..] == cmd;
    while i < |cmd|
      invariant 0 <= i <= |cmd|
      invariant Parts(cmd) == parts + Scan(cmd[i..], cur, quote)
      decreases |cmd| - i
    {
      var c := cmd[i];
      OneMove(cmd, i, parts, cur, quote);
      if c == '\\' && i + 1 < |cmd| {
        cur := cur + [c, cmd[i + 1]];
        i := i + 2;
        continue;
      }
      if quote.Some? {
        cur := cur + [c];
        if c == quote.value {
          quote := None;
        }
        i := i + 1;
        continue;
      }
      if IsQuote(c) {
        quote := Some(c);
        cur := cur + [c];
      } else if c == '&' {
        if i + 1 < |cmd| && cmd[i + 1] == '&' {
          parts := parts + Part(cur);
          cur := "";
          i := i + 1;
        } else {
          cur := cur + [c];
        }
      } else if c == '|' {
        parts := parts + Part(cur);
        cur := "";
        if i + 1 < |cmd| && cmd[i + 1] == '|' {
          i := i + 1;
        }
      } else if c == ';' {
        parts := parts + Part(cur);
        cur := "";
      } else {
        cur := cur + [c];
      }
      i := i + 1;
    }
    parts := parts + Part(cur);
  }

  // ---------------------------------------------------------------- quiet texts

  /** Scanned by itself from `quote`, the text is kept whole. */
  predicate Quiet(s: string, quote: Quote)
    decreases |s|
  {
    s == "" || (MoveAt(s, quote).Keep? && Quiet(s[MoveAt(s, quote).n..], MoveAt(s, quote).quote))
  }

  /** The quote open at the end of a quiet text. */
  function EndQuote(s: string, quote: Quote): Quote
    requires Quiet(s, quote)
    decreases |s|
  {
    if s == "" then quote else EndQuote(s[MoveAt(s, quote).n..], MoveAt(s, quote).quote)
  }

  /** Scanned in front of `after` from `quote`, exactly `cur` is kept, and `end` is then open. */
  ghost predicate KeptBefore(cur: string, after: string, quote: Quote, end: Quote)
    decreases |cur|
  {
    if cur == "" then quote == end
    else
      var m := MoveAt(cur + after, quote);
      m.Keep? && m.n <= |cur| && KeptBefore(cur[m.n..], after, m.quote, end)
  }

  /** One more move of the scanner. */
  lemma {:induction false} KeptOneMore(cur: string, s: string, quote: Quote, q: Quote)
    requires s != "" && KeptBefore(cur, s, quote, q) && MoveAt(s, q).Keep?
    ensures var m := MoveAt(s, q); KeptBefore(cur + s[..m.n], s[m.n..], quote, m.quote)
    decreases |cur|
  {
    var m := MoveAt(s, q);
    var cur', s' := cur + s[..m.n], s[m.n..];
    assert cur' + s' == cur + s;
    if cur == "" {
      assert cur'[m.n..] == "";
    } else {
      var n := MoveAt(cur + s, quote).n;
      assert cur'[n..] == cur[n..] + s[..m.n];
      KeptOneMore(cur[n..], s, MoveAt(cur + s, quote).quote, q);
    }
  }

  /** What follows does not matter to a kept text. */
  lemma {:induction false} KeptIsQuiet(cur: string, after: string, quote: Quote, end: Quote)
    requires KeptBefore(cur, after, quote, end)
    ensures Quiet(cur, quote) && EndQuote(cur, quote) == end
    decreases |cur|
  {
    if cur != "" {
      var m := MoveAt(cur + after, quote);
      assert (cur + after)[0] == cur[0] && (|cur| > 1 ==> (cur + after)[1] == cur[1]);
      assert MoveAt(cur, quote) == m;
      KeptIsQuiet(cur[m.n..], after, m.quote, end);
    }
  }

  /** The front of a text moves as the text does, unless it is a lone backslash. */
  lemma MoveOfPrefix(a: string, b: string, quote: Quote)
    requires a != "" && MoveAt(a + b, quote).Keep?
    ensures var m := MoveAt(a + b, quote);
            if m.n <= |a| then MoveAt(a, quote) == m && (a + b)[m.n..] == a[m.n..] + b
            else a == "\\" && MoveAt(a, quote).Keep?
  {
    assert (a + b)[0] == a[0] && (|a| > 1 ==> (a + b)[1] == a[1]);
  }

  lemma {:induction false} QuietPrefix(a: string, b: string, quote: Quote)
    requires Quiet(a + b, quote)
    ensures Quiet(a, quote)
    decreases |a|
  {
    if a != "" {
      var m := MoveAt(a + b, quote);
      MoveOfPrefix(a, b, quote);
      if m.n <= |a| {
        QuietPrefix(a[m.n..], b, m.quote);
      }
    }
  }

  lemma SpaceMove(s: string)
    requires s != "" && s[0] in SPACES
    ensures MoveAt(s, None) == Keep(1, None)
  {
  }

  /** White space changes no quote, at the front or at the end. */
  lemma {:induction false} QuietBehindSpace(w: string, s: string)
    requires AllIn(w, SPACES) && Quiet(w + s, None)
    ensures Quiet(s, None) && EndQuote(s, None) == EndQuote(w + s, None)
    decreases |w|
  {
    if w == "" {
      assert w + s == s;
    } else {
      assert (w + s)[1..] == w[1..] + s;
      SpaceMove(w + s);
      QuietBehindSpace(w[1..], s);
    }
  }

  lemma {:induction false} SpaceEndQuote(w: string, quote: Quote)
    requires AllIn(w, SPACES) && (quote.Some? ==> IsQuote(quote.value))
    ensures Quiet(w, quote) && EndQuote(w, quote) == quote
    decreases |w|
  {
    if w != "" {
      assert w[0] in SPACES;
      SpaceEndQuote(w[1..], quote);
    }
  }

  lemma {:induction false} EndQuoteBeforeSpace(s: string, w: string, quote: Quote)
    requires AllIn(w, SPACES) && Quiet(s + w, quote) && (quote.Some? ==> IsQuote(quote.value))
    ensures Quiet(s, quote) && EndQuote(s, quote) == EndQuote(s + w, quote)
    decreases |s|
  {
    QuietPrefix(s, w, quote);
    var t := s + w;
    if s == "" {
      assert t == w;
      SpaceEndQuote(w, quote);
    } else {
      var m := MoveAt(t, quote);
      MoveOfPrefix(s, w, quote);
      if m.n <= |s| {
        EndQuoteBeforeSpace(s[m.n..], w, m.quote);
      } else {
        assert t[2..] == w[1..] && s[1..] == "";
        SpaceEndQuote(w[1..], quote);
      }
    }
  }

  lemma {:induction false} ScanOfQuiet(s: string, cur: string, quote: Quote)
    requires Quiet(s, quote)
    ensures Scan(s, cur, quote) == Part(cur + s)
    decreases |s|
  {
    if s == "" {
      assert cur + s == cur;
    } else {
      var m := MoveAt(s, quote);
      ScanOfQuiet(s[m.n..], cur + s[..m.n], m.quote);
      assert cur + s[..m.n] + s[m.n..] == cur + s;
    }
  }

  // ---------------------------------------------------------------- which operators cut

  /** The scanner cuts outside quotes only, and there only at "&&", "|" (also doubled) and ";". */
  lemma SeparatorSet(s: string, quote: Quote)
    requires s != ""
    ensures MoveAt(s, quote).Cut? <==> quote.None? && (s[0] in {'|', ';'} || HasPrefix(s, "&&"))
  {
    if |s| > 1 {
      assert s[..2] == [s[0], s[1]];
    }
  }

  predicate IsSeparatorAt(s: string, k: nat)
    requires k < |s|
  {
    s[k] in {'|', ';'} || (k + 1 < |s| && s[k] == '&' && s[k + 1] == '&')
  }

  /** No quote and no backslash. */
  predicate IsPlain(s: string) {
    forall k :: 0 <= k < |s| ==> !IsQuote(s[k]) && s[k] != '\\'
  }

  /** A line without quotes and backslashes is scanned through without a cut exactly when none of these separators stands in it;
      a single ampersand and a newline are no separators. */
  lemma {:induction false} PlainLineIsQuiet(s: string)
    requires IsPlain(s)
    ensures Quiet(s, None) <==> forall k :: 0 <= k < |s| ==> !IsSeparatorAt(s, k)
    decreases |s|
  {
    if s != "" {
      var rest := s[1..];
      PlainLineIsQuiet(rest);
      SeparatorSet(s, None);
      assert |s| > 1 ==> s[..2] == [s[0], s[1]];
      assert MoveAt(s, None).Cut? <==> IsSeparatorAt(s, 0);
      forall k: nat | k < |rest|
        ensures IsSeparatorAt(rest, k) == IsSeparatorAt(s, k + 1)
      {
      }
      forall k: nat | 0 < k < |s|
        ensures IsSeparatorAt(s, k) == IsSeparatorAt(rest, k - 1)
      {
      }
    }
  }

  /** Such a line stays one command, single ampersands and newlines in it or not. */
  lemma PlainLineStaysWhole(s: string)
    requires IsPlain(s) && forall k :: 0 <= k < |s| ==> !IsSeparatorAt(s, k)
    ensures Parts(s) == Part(s)
  {
    PlainLineIsQuiet(s);
    ScanOfQuiet(s, "", None);
    assert "" + s == s;
  }

  // ---------------------------------------------------------------- what a part is

  ghost predicate GoodPart(p: string) {
    p != "" && IsTrimmed(p) && Quiet(p, None)
  }

  /** All parts are good, and all but the last leave no quote open. */
  ghost predicate GoodParts(parts: seq<string>) {
    && (forall k :: 0 <= k < |parts| ==> GoodPart(parts[k]))
    && (forall k :: 0 <= k < |parts| - 1 ==> Quiet(parts[k], None) && EndQuote(parts[k], None) == None)
  }

  lemma TrimmedPart(cur: string)
    requires Quiet(cur, None)
    ensures forall p :: p in Part(cur) ==> GoodPart(p) && (EndQuote(cur, None) == None ==> EndQuote(p, None) == None)
  {
    var a, b := TrimBothParts(cur, SPACES);
    var core := TrimSpace(cur);
    assert cur == a + (core + b);
    QuietBehindSpace(a, core + b);
    EndQuoteBeforeSpace(core, b, None);
  }

  lemma {:induction false} ScanGivesGoodParts(s: string, cur: string, quote: Quote)
    requires KeptBefore(cur, s, None, quote)
    ensures GoodParts(Scan(s, cur, quote))
    decreases |s|
  {
    KeptIsQuiet(cur, s, None, quote);
    TrimmedPart(cur);
    if s != "" {
      var m := MoveAt(s, quote);
      if m.Keep? {
        KeptOneMore(cur, s, None, quote);
        ScanGivesGoodParts(s[m.n..], cur + s[..m.n], m.quote);
      } else {
        ScanGivesGoodParts(s[m.n..], "", None);
      }
    }
  }

  /** Splitting any part gives just that part. */
  lemma SplittingAPart(cmd: string, k: nat)
    requires k < |Parts(cmd)|
    ensures Parts(Parts(cmd)[k]) == [Parts(cmd)[k]]
  {
    ScanGivesGoodParts(cmd, "", None);
    var p := Parts(cmd)[k];
    ScanOfQuiet(p, "", None);
    assert "" + p == p;
    TrimmedIsFixed(p);
  }

  // ---------------------------------------------------------------- joining and splitting again

  function JoinAnd(parts: seq<string>): string {
    if |parts| == 0 then "" else if |parts| == 1 then parts[0] else parts[0] + " && " + JoinAnd(parts[1..])
  }

  lemma SpaceInFront(w: string, cur: string)
    requires AllIn(w, SPACES)
    ensures Part(w + cur) == Part(cur)
  {
    var a, b := TrimBothParts(cur, SPACES);
    assert w + cur == (w + a) + TrimSpace(cur) + b;
    TrimBothOf(w + a, TrimSpace(cur), b, SPACES);
  }

  lemma {:induction false} ScanWithSpaceInFront(s: string, w: string, cur: string, quote: Quote)
    requires AllIn(w, SPACES)
    ensures Scan(s, w + cur, quote) == Scan(s, cur, quote)
    decreases |s|
  {
    SpaceInFront(w, cur);
    if s != "" && MoveAt(s, quote).Keep? {
      var m := MoveAt(s, quote);
      assert w + cur + s[..m.n] == w + (cur + s[..m.n]);
      ScanWithSpaceInFront(s[m.n..], w, cur + s[..m.n], m.quote);
    }
  }

  lemma ScanKept(s: string, cur: string, quote: Quote, head: string, tail: string, next: Quote)
    requires s == head + tail && head != "" && MoveAt(s, quote) == Keep(|head|, next)
    ensures Scan(s, cur, quote) == Scan(tail, cur + head, next)
  {
    assert s[..|head|] == head && s[|head|..] == tail;
  }

  lemma ScanCut(s: string, cur: string, quote: Quote, operator: string, tail: string)
    requires s == operator + tail && operator != "" && MoveAt(s, quote) == Cut(|operator|)
    ensures Scan(s, cur, quote) == Part(cur) + Scan(tail, "", None)
  {
    assert s[|operator|..] == tail;
  }

  lemma CutAtAnd(r: string, cur: string)
    ensures Scan("&&" + (" " + r), cur, None) == Part(cur) + Scan(r, "", None)
  {
    ScanCut("&&" + (" " + r), cur, None, "&&", " " + r);
    ScanKept(" " + r, "", None, " ", r, None);
    assert "" + " " == " " + "";
    ScanWithSpaceInFront(r, " ", "", None);
  }

  lemma ScanAnd(r: string, cur: string)
    ensures Scan(" && " + r, cur, None) == Part(cur + " ") + Scan(r, "", None)
  {
    assert " && " + r == " " + ("&&" + (" " + r));
    ScanKept(" && " + r, cur, None, " ", "&&" + (" " + r), None);
    CutAtAnd(r, cur + " ");
  }

  lemma ScanBackslashAnd(r: string, cur: string)
    ensures Scan("\\" + (" && " + r), cur, None) == Part(cur + "\\" + " ") + Scan(r, "", None)
  {
    assert "\\" + (" && " + r) == "\\ " + ("&&" + (" " + r));
    ScanKept("\\" + (" && " + r), cur, None, "\\ ", "&&" + (" " + r), None);
    assert cur + "\\ " == cur + "\\" + " ";
    CutAtAnd(r, cur + "\\ ");
  }

  lemma MoveBeforeSpace(x: string, after: string, quote: Quote)
    requires x != "" && (|x| > 1 || x[0] != '\\') && after != "" && after[0] == ' '
    ensures var m := MoveAt(x, quote);
            m.Keep? ==> MoveAt(x + after, quote) == m && x + after == x[..m.n] + (x[m.n..] + after)
  {
    var s := x + after;
    assert s[0] == x[0] && s[1] == (if |x| > 1 then x[1] else ' ');
  }

  /** A text kept in front of another is scanned over. */
  lemma {:induction false} ScanOverKept(x: string, after: string, cur: string, quote: Quote, end: Quote)
    requires KeptBefore(x, after, quote, end)
    ensures Scan(x + after, cur, quote) == Scan(after, cur + x, end)
    decreases |x|
  {
    if x == "" {
      assert x + after == after && cur + x == cur;
    } else {
      var m := MoveAt(x + after, quote);
      var head, rest := x[..m.n], x[m.n..];
      assert head + rest == x;
      Assoc(cur, head, rest);
      Assoc(head, rest, after);
      ScanOverKept(rest, after, cur + head, m.quote, end);
      ScanKept(x + after, cur, quote, head, rest + after, m.quote);
    }
  }

  lemma InitOfRest(x: string, n: nat)
    requires n < |x|
    ensures x[..|x| - 1][n..] == x[n..][..|x[n..]| - 1]
  {
  }

  lemma KeptButForBackslash(x: string, after: string, quote: Quote, end: Quote)
    requires x != "" && x[|x| - 1] == '\\'
    requires var m := MoveAt(x + after, quote);
             m.Keep? && m.n < |x| && KeptBefore(x[m.n..][..|x[m.n..]| - 1], "\\" + after, m.quote, end)
    ensures KeptBefore(x[..|x| - 1], "\\" + after, quote, end)
  {
    var init, m := x[..|x| - 1], MoveAt(x + after, quote);
    assert init + "\\" == x;
    Assoc(init, "\\", after);
    InitOfRest(x, m.n);
  }

  /** In front of a space a quiet text is kept as it stands, or but for a lone backslash at its end that now escapes the
      space. */
  lemma {:induction false} QuietBeforeSpace(x: string, after: string, quote: Quote)
    requires Quiet(x, quote) && (quote.Some? ==> IsQuote(quote.value)) && after != "" && after[0] == ' '
    ensures var end := EndQuote(x, quote);
            || KeptBefore(x, after, quote, end)
            || (x != "" && x[|x| - 1] == '\\' && KeptBefore(x[..|x| - 1], "\\" + after, quote, end))
    decreases |x|
  {
    if |x| == 1 && x[0] == '\\' {
      assert x[..0] == "" && x[1..] == "";
    } else if x != "" {
      var m := MoveAt(x, quote);
      var rest := x[m.n..];
      MoveBeforeSpace(x, after, quote);
      assert (x + after)[m.n..] == rest + after;
      QuietBeforeSpace(rest, after, m.quote);
      if !KeptBefore(rest, after, m.quote, EndQuote(x, quote)) {
        KeptButForBackslash(x, after, quote, EndQuote(x, quote));
      }
    }
  }

  lemma ScanUpToAnd(x: string, r: string)
    requires Quiet(x, None) && EndQuote(x, None) == None
    ensures Scan(x + (" && " + r), "", None) == Part(x + " ") + Scan(r, "", None)
  {
    var after := " && " + r;
    QuietBeforeSpace(x, after, None);
    if KeptBefore(x, after, None, None) {
      ScanOverKept(x, after, "", None, None);
      ScanAnd(r, x);
      assert "" + x == x;
    } else {
      ScanUpToBackslashAnd(x, r);
    }
  }

  lemma ScanUpToBackslashAnd(x: string, r: string)
    requires x != "" && x[|x| - 1] == '\\' && KeptBefore(x[..|x| - 1], "\\" + (" && " + r), None, None)
    ensures Scan(x + (" && " + r), "", None) == Part(x + " ") + Scan(r, "", None)
  {
    var init := x[..|x| - 1];
    assert init + "\\" == x;
    ScanBackslashAnd(r, init);
    ScanOverFront(init, "\\", " && " + r, Part(x + " ") + Scan(r, "", None));
  }

  lemma ScanOverFront(x: string, y: string, after: string, parts: seq<string>)
    requires KeptBefore(x, y + after, None, None) && Scan(y + after, x, None) == parts
    ensures Scan(x + y + after, "", None) == parts
  {
    ScanOverKept(x, y + after, "", None, None);
    assert x + (y + after) == x + y + after && "" + x == x;
  }

  lemma PartOfGood(p: string)
    requires GoodPart(p)
    ensures Part("" + p) == [p] && Part(p + " ") == [p]
  {
    TrimmedIsFixed(p);
    assert "" + p == p;
    TrimBothOf("", p, " ", SPACES);
  }

  lemma {:induction false} JoinedPartsSplit(parts: seq<string>)
    requires GoodParts(parts)
    ensures Scan(JoinAnd(parts), "", None) == parts
    decreases |parts|
  {
    if |parts| == 1 {
      ScanOfQuiet(parts[0], "", None);
      PartOfGood(parts[0]);
    } else if |parts| > 1 {
      var p, rest := parts[0], JoinAnd(parts[1..]);
      assert p + " && " + rest == p + (" && " + rest);
      ScanUpToAnd(p, rest);
      PartOfGood(p);
      JoinedPartsSplit(parts[1..]);
      assert [p] + parts[1..] == parts;
    }
  }

  /** Joining the parts with " && " and splitting again gives the same parts. */
  lemma RejoinedPartsSplit(cmd: string)
    ensures Parts(JoinAnd(Parts(cmd))) == Parts(cmd)
  {
    ScanGivesGoodParts(cmd, "", None);
    JoinedPartsSplit(Parts(cmd));
  }

  // ---------------------------------------------------------------- parts and gaps

  /** Operators and white space, nothing else; a single ampersand is no operator. */
  predicate IsGap(g: string)
    decreases |g|
  {
    if g == "" then true
    else if g[0] in SPACES || g[0] == '|' || g[0] == ';' then IsGap(g[1..])
    else |g| > 1 && g[0] == '&' && g[1] == '&' && IsGap(g[2..])
  }

  lemma {:induction false} GapsJoin(a: string, b: string)
    requires IsGap(a) && IsGap(b)
    ensures IsGap(a + b)
    decreases |a|
  {
    if a == "" {
      assert a + b == b;
    } else if a[0] in SPACES || a[0] == '|' || a[0] == ';' {
      assert (a + b)[1..] == a[1..] + b;
      GapsJoin(a[1..], b);
    } else {
      assert (a + b)[2..] == a[2..] + b;
      GapsJoin(a[2..], b);
    }
  }

  lemma {:induction false} SpacesAreGap(w: string)
    requires AllIn(w, SPACES)
    ensures IsGap(w)
    decreases |w|
  {
    if w != "" {
      assert w[0] in SPACES;
      SpacesAreGap(w[1..]);
    }
  }

  /** `s` is gap, part, gap, part, ..., gap. */
  ghost predicate Woven(s: string, parts: seq<string>)
    decreases |parts|
  {
    if |parts| == 0 then IsGap(s)
    else exists g, rest :: IsGap(g) && s == g + parts[0] + rest && Woven(rest, parts[1..])
  }

  lemma GapInFront(g: string, s: string, parts: seq<string>)
    requires IsGap(g) && Woven(s, parts)
    ensures Woven(g + s, parts)
  {
    if |parts| == 0 {
      GapsJoin(g, s);
    } else {
      var h, rest :| IsGap(h) && s == h + parts[0] + rest && Woven(rest, parts[1..]);
      GapsJoin(g, h);
      assert g + s == (g + h) + parts[0] + rest;
    }
  }

  lemma ConsWoven(s: string, g: string, part: string, rest: string, parts: seq<string>)
    requires IsGap(g) && s == g + part + rest && Woven(rest, parts)
    ensures Woven(s, [part] + parts)
  {
    assert ([part] + parts)[1..] == parts;
  }

  lemma PartInFront(cur: string, s: string, parts: seq<string>)
    requires Woven(s, parts)
    ensures Woven(cur + s, Part(cur) + parts)
  {
    var a, b := TrimBothParts(cur, SPACES);
    var core := TrimSpace(cur);
    SpacesAreGap(a);
    SpacesAreGap(b);
    GapInFront(b, s, parts);
    if core == "" {
      assert cur + s == a + (b + s) && Part(cur) + parts == parts;
      GapInFront(a, b + s, parts);
    } else {
      assert cur + s == a + core + (b + s);
      ConsWoven(cur + s, a, core, b + s, parts);
    }
  }

  /** What the scanner cuts at is a gap. */
  lemma CutIsGap(s: string, quote: Quote)
    requires s != "" && MoveAt(s, quote).Cut?
    ensures IsGap(s[..MoveAt(s, quote).n])
  {
    var n := MoveAt(s, quote).n;
    assert s[..n] == if n == 1 then [s[0]] else [s[0], s[1]];
  }

  lemma {:induction false} ScanWeaves(s: string, cur: string, quote: Quote)
    ensures Woven(cur + s, Scan(s, cur, quote))
    decreases |s|
  {
    if s == "" {
      PartInFront(cur, "", []);
      assert Part(cur) + [] == Part(cur);
    } else {
      var m := MoveAt(s, quote);
      var head, tail := s[..m.n], s[m.n..];
      assert s == head + tail;
      if m.Keep? {
        ScanWeaves(tail, cur + head, m.quote);
        assert cur + s == (cur + head) + tail;
      } else {
        var parts := Scan(tail, "", None);
        ScanWeaves(tail, "", None);
        assert "" + tail == tail;
        CutIsGap(s, quote);
        GapInFront(head, tail, parts);
        PartInFront(cur, s, parts);
      }
    }
  }

  /** The parts are trimmed, non-empty pieces of the command line, in order and apart, and between them stand only operators
      and white space. */
  lemma PartsWeaveTheLine(cmd: string)
    ensures Woven(cmd, Parts(cmd))
    ensures forall k :: 0 <= k < |Parts(cmd)| ==> Parts(cmd)[k] != "" && IsTrimmed(Parts(cmd)[k])
  {
    assert "" + cmd == cmd;
    ScanWeaves(cmd, "", None);
    ScanGivesGoodParts(cmd, "", None);
  }
}
