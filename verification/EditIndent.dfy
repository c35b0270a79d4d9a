/** Leading white space: what lines have in common, how it is taken off, and how it is recovered from a chunk. */
module EditIndent {
  import opened Text

  const WHITE: set<char> := {' ', '\t', '\r', '\n'}

  predicate Blank(line: string) {
    TrimRight(line, WHITE) == ""
  }

  lemma {:induction false} TrimLeftShorter(s: string, cut: set<char>)
    ensures |TrimLeft(s, cut)| <= |s|
  {
    if s != "" && s[0] in cut {
      TrimLeftShorter(s[1..], cut);
    }
  }

  function Body(line: string): string {
    TrimLeft(line, BLANKS)
  }

  /** How many blanks a line starts with. */
  function Lead(line: string): nat {
    TrimLeftShorter(line, BLANKS);
    |line| - |Body(line)|
  }

  lemma LeadIsBlank(line: string)
    ensures Lead(line) <= |line| && line == line[..Lead(line)] + Body(line) && AllIn(line[..Lead(line)], {' ', '\t'})
    ensures Body(line) != "" ==> Body(line)[0] !in {' ', '\t'}
  {
    var a := TrimLeftParts(line, BLANKS);
    assert a == line[..Lead(line)];
  }

  lemma BlankIsWhite(line: string)
    ensures Blank(line) <==> AllIn(line, {' ', '\t', '\r', '\n'})
  {
    var b := TrimRightParts(line, WHITE);
    if Blank(line) {
      assert line == b;
    }
    if AllIn(line, WHITE) {
      assert "" + line == line;
      TrimRightOf("", line, WHITE);
    }
  }

  /** Taking leading blanks off first does not change whether a line is blank. */
  lemma BlankBody(line: string)
    ensures Blank(Body(line)) <==> Blank(line)
  {
    BlankIsWhite(line);
    BlankIsWhite(Body(line));
    LeadIsBlank(line);
    var n := Lead(line);
    assert forall k :: 0 <= k < |Body(line)| ==> Body(line)[k] == line[n + k];
    assert forall k :: 0 <= k < n ==> line[k] == line[..n][k];
  }

  // ---------------------------------------------------------------- the common indent

  function MinLead(lines: seq<string>): Option<nat> {
    if |lines| == 0 then None
    else
      var before, line := MinLead(lines[..|lines| - 1]), lines[|lines| - 1];
      if Blank(line) then before
      else if before.None? || Lead(line) < before.value then Some(Lead(line))
      else before
  }

  function CommonLeading(lines: seq<string>): nat {
    match MinLead(lines) case None => 0 case Some(n) => n
  }

  /** No non-blank line has less, and when there is a non-blank line one has exactly that. */
  lemma {:induction false} MinLeadMeaning(lines: seq<string>)
    ensures MinLead(lines).None? <==> forall i :: 0 <= i < |lines| ==> Blank(lines[i])
    ensures MinLead(lines).Some? ==>
              && (forall i :: 0 <= i < |lines| && !Blank(lines[i]) ==> MinLead(lines).value <= Lead(lines[i]))
              && (exists i :: 0 <= i < |lines| && !Blank(lines[i]) && MinLead(lines).value == Lead(lines[i]))
  {
    if |lines| > 0 {
      var init := lines[..|lines| - 1];
      MinLeadMeaning(init);
      assert forall i :: 0 <= i < |init| ==> init[i] == lines[i];
      if MinLead(init).Some? {
        var i :| 0 <= i < |init| && !Blank(init[i]) && MinLead(init).value == Lead(init[i]);
        assert lines[i] == init[i];
      }
    }
  }

  method CommonLeadingCount(lines: seq<string>) returns (n: nat)
    ensures n == CommonLeading(lines)
  {
    var min := -1;
    for i := 0 to |lines|
      invariant MinLead(lines[..i]) == if min < 0 then None else Some(min)
    {
      assert lines[..i + 1][..i] == lines[..i];
      var l := lines[i];
      var stripped := TrimLeft(l, BLANKS);
      BlankBody(l);
      if TrimRight(stripped, WHITE) == "" {
        continue;
      }
      var lead := |l| - |stripped|;
      if min < 0 || lead < min {
        min := lead;
      }
    }
    assert lines[..|lines|] == lines;
    n := if min < 0 then 0 else min;
  }

  function StripLine(line: string, n: nat): string {
    if !Blank(line) && |line| >= n then line[n..] else line
  }

  function StripLines(lines: seq<string>, n: nat): (r: seq<string>)
    ensures |r| == |lines|
  {
    seq(|lines|, i requires 0 <= i < |lines| => StripLine(lines[i], n))
  }

  method StripLeadingN(lines: seq<string>, n: nat) returns (out: seq<string>)
    ensures out == StripLines(lines, n)
  {
    var filled := new string[|lines|];
    for i := 0 to |lines|
      invariant forall k :: 0 <= k < i ==> filled[k] == StripLine(lines[k], n)
    {
      var l := lines[i];
      if TrimRight(l, WHITE) != "" {
        if |l| >= n {
          filled[i] := l[n..];
        } else {
          filled[i] := l;
        }
      } else {
        filled[i] := l;
      }
    }
    out := filled[..];
  }

  /** Stripping the common indent of `all` takes only blanks off its lines, and nothing off a blank line. */
  lemma StrippingTakesOnlyBlanks(all: seq<string>, i: nat)
    requires i < |all|
    ensures var line, n := all[i], CommonLeading(all);
            !Blank(line) ==> n <= |line| && line == line[..n] + StripLine(line, n) && AllIn(line[..n], BLANKS)
    ensures Blank(all[i]) ==> StripLine(all[i], CommonLeading(all)) == all[i]
    ensures Body(StripLine(all[i], CommonLeading(all))) == Body(all[i])
  {
    var line, n := all[i], CommonLeading(all);
    MinLeadMeaning(all);
    LeadIsBlank(line);
    if !Blank(line) {
      var rest := line[n..Lead(line)];
      assert line[n..] == rest + Body(line);
      assert forall k :: 0 <= k < |rest| ==> rest[k] == line[..Lead(line)][n + k];
      assert forall k :: 0 <= k < n ==> line[..n][k] == line[..Lead(line)][k];
      var a := TrimLeftParts(line, BLANKS);
      TrimLeftOf(rest, Body(line), BLANKS);
    }
  }

  // ---------------------------------------------------------------- the indent a chunk has and the part has not

  ghost predicate SameBodies(chunk: seq<string>, part: seq<string>) {
    |chunk| == |part| && forall i :: 0 <= i < |chunk| ==> Body(chunk[i]) == Body(part[i])
  }

  /** `w` is what line `c` has in front, measured by the difference of lengths. */
  ghost predicate Added(w: string, c: string, p: string) {
    |p| <= |c| && c[..|c| - |p|] == w
  }

  /** `w` is the addition of every non-blank line, and "" when there is none. */
  ghost predicate Reindents(w: string, chunk: seq<string>, part: seq<string>) {
    && SameBodies(chunk, part)
    && (forall i :: 0 <= i < |chunk| && !Blank(chunk[i]) ==> Added(w, chunk[i], part[i]))
    && ((forall i :: 0 <= i < |chunk| ==> Blank(chunk[i])) ==> w == "")
  }

  lemma ReindentsOnce(v: string, w: string, chunk: seq<string>, part: seq<string>)
    requires Reindents(v, chunk, part) && Reindents(w, chunk, part)
    ensures v == w
  {
    if i :| 0 <= i < |chunk| && !Blank(chunk[i]) {
      assert Added(v, chunk[i], part[i]) && Added(w, chunk[i], part[i]);
    }
  }

  /** Two non-blank lines with different additions: there is no common one. */
  lemma AdditionsDiffer(v: string, w: string, chunk: seq<string>, part: seq<string>, k: nat, i: nat)
    requires k < |chunk| == |part| && i < |chunk| && !Blank(chunk[k]) && !Blank(chunk[i])
    requires Added(v, chunk[k], part[k]) && Added(w, chunk[i], part[i]) && v != w
    ensures forall u :: !Reindents(u, chunk, part)
  {
  }

  /** Only leading blanks can make the difference. */
  lemma ReindentIsBlank(w: string, chunk: seq<string>, part: seq<string>)
    requires Reindents(w, chunk, part)
    ensures AllIn(w, BLANKS)
  {
    if i :| 0 <= i < |chunk| && !Blank(chunk[i]) {
      var c, p := chunk[i], part[i];
      assert Added(w, c, p) && Body(c) == Body(p);
      LeadIsBlank(c);
      LeadIsBlank(p);
      assert |w| == Lead(c) - Lead(p);
      assert forall k :: 0 <= k < |w| ==> w[k] == c[..Lead(c)][k];
    }
  }

  /** A part put behind uniform blanks `w`, blank lines left alone: exactly `w` is recovered. */
  lemma UniformIndentIsRecovered(w: string, part: seq<string>, chunk: seq<string>)
    requires AllIn(w, BLANKS) && |chunk| == |part|
    requires forall i :: 0 <= i < |part| ==> chunk[i] == if Blank(part[i]) then part[i] else w + part[i]
    requires exists i :: 0 <= i < |part| && !Blank(part[i])
    ensures forall v :: Reindents(v, chunk, part) <==> v == w
  {
    forall i | 0 <= i < |part|
      ensures Body(chunk[i]) == Body(part[i])
      ensures Blank(chunk[i]) <==> Blank(part[i])
      ensures !Blank(part[i]) ==> Added(w, chunk[i], part[i])
    {
      if !Blank(part[i]) {
        LeadIsBlank(part[i]);
        var lead := part[i][..Lead(part[i])];
        assert w + part[i] == (w + lead) + Body(part[i]);
        var a := TrimLeftParts(part[i], BLANKS);
        TrimLeftOf(w + lead, Body(part[i]), BLANKS);
        BlankBody(part[i]);
        BlankBody(chunk[i]);
      }
    }
    assert Reindents(w, chunk, part);
    forall v | Reindents(v, chunk, part)
      ensures v == w
    {
      ReindentsOnce(v, w, chunk, part);
    }
  }

  method MatchButForLeadingWS(chunk: seq<string>, part: seq<string>) returns (add: Option<string>)
    ensures add.Some? ==> Reindents(add.value, chunk, part)
    ensures add.None? ==> forall w :: !Reindents(w, chunk, part)
  {
    var num := |chunk|;
    if num != |part| {
      return None;
    }
    for i := 0 to num
      invariant forall k :: 0 <= k < i ==> Body(chunk[k]) == Body(part[k])
    {
      if TrimLeft(chunk[i], BLANKS) != TrimLeft(part[i], BLANKS) {
        assert Body(chunk[i]) != Body(part[i]);
        return None;
      }
    }
    add := None;
    for i := 0 to num
      invariant add.None? ==> forall k :: 0 <= k < i ==> Blank(chunk[k])
      invariant add.Some? ==> exists k :: 0 <= k < i && !Blank(chunk[k])
      invariant add.Some? ==> forall k :: 0 <= k < i && !Blank(chunk[k]) ==> Added(add.value, chunk[k], part[k])
    {
      if TrimRight(chunk[i], WHITE) == "" {
        continue;
      }
      LeadIsBlank(chunk[i]);
      LeadIsBlank(part[i]);
      var wLen := |chunk[i]| - |TrimLeft(chunk[i], BLANKS)|;
      var pLen := |part[i]| - |TrimLeft(part[i], BLANKS)|;
      var diff := |chunk[i]| - |part[i]|;
      if diff < 0 {
        assert forall w :: !Added(w, chunk[i], part[i]);
        return None;
      }
      var addStr := chunk[i][..wLen - pLen];
      assert Added(addStr, chunk[i], part[i]);
      if add.None? {
        add := Some(addStr);
      } else if add.value != addStr {
        ghost var k: nat :| k < i && !Blank(chunk[k]);
        AdditionsDiffer(add.value, addStr, chunk, part, k, i);
        return None;
      }
    }
    if add.None? {
      add := Some("");
    }
  }
}
