/** Strings, lines and trimming, as the Go standard library defines them on ASCII text. */
module Text {

  datatype Option<+T> = None | Some(value: T)

  datatype Result<+T, +E> = Ok(value: T) | Err(error: E)

  /** The cut sets the program trims with. */
  const BLANKS: set<char> := {' ', '\t'}
  const NEWLINES: set<char> := {'\n', '\r'}
  const SPACES: set<char> := {' ', '\t', '\n', '\U{000B}', '\U{000C}', '\r'}

  predicate HasPrefix(s: string, p: string) {
    |p| <= |s| && s[..|p|] == p
  }

  lemma PrefixAt(s: string, p: string, k: nat)
    requires k < |p|
    ensures HasPrefix(s, p) ==> k < |s| && s[k] == p[k]
  {
    assert HasPrefix(s, p) ==> s[..|p|][k] == s[k];
  }

  predicate HasSuffix(s: string, p: string) {
    |p| <= |s| && s[|s| - |p|..] == p
  }

  /** Every character of `s` is in `cut`. */
  predicate AllIn(s: string, cut: set<char>) {
    forall k :: 0 <= k < |s| ==> s[k] in cut
  }

  function TrimLeft(s: string, cut: set<char>): string {
    if s != "" && s[0] in cut then TrimLeft(s[1..], cut) else s
  }

  function TrimRight(s: string, cut: set<char>): string {
    if s != "" && s[|s| - 1] in cut then TrimRight(s[..|s| - 1], cut) else s
  }

  function TrimBoth(s: string, cut: set<char>): string {
    TrimRight(TrimLeft(s, cut), cut)
  }

  lemma {:induction false} TrimLeftParts(s: string, cut: set<char>) returns (a: string)
    ensures s == a + TrimLeft(s, cut) && AllIn(a, cut)
    ensures TrimLeft(s, cut) != "" ==> TrimLeft(s, cut)[0] !in cut
  {
    if s != "" && s[0] in cut {
      var a' := TrimLeftParts(s[1..], cut);
      a := [s[0]] + a';
    } else {
      a := "";
    }
  }

  lemma {:induction false} TrimRightParts(s: string, cut: set<char>) returns (b: string)
    ensures s == TrimRight(s, cut) + b && AllIn(b, cut)
    ensures TrimRight(s, cut) != "" ==> TrimRight(s, cut)[|TrimRight(s, cut)| - 1] !in cut
  {
    if s != "" && s[|s| - 1] in cut {
      var b' := TrimRightParts(s[..|s| - 1], cut);
      b := b' + [s[|s| - 1]];
    } else {
      b := "";
    }
  }

  function TrimSpace(s: string): string {
    TrimBoth(s, SPACES)
  }

  predicate IsBare(s: string, cut: set<char>) {
    s == "" || (s[0] !in cut && s[|s| - 1] !in cut)
  }

  predicate IsTrimmed(s: string) {
    IsBare(s, SPACES)
  }

  lemma TrimmedIsFixed(s: string)
    requires IsTrimmed(s)
    ensures TrimSpace(s) == s
  {
  }

  lemma {:induction false} TrimLeftOf(a: string, r: string, cut: set<char>)
    requires AllIn(a, cut) && (r == "" || r[0] !in cut)
    ensures TrimLeft(a + r, cut) == r
    decreases |a|
  {
    if a == "" {
      assert a + r == r;
    } else {
      assert (a + r)[1..] == a[1..] + r;
      TrimLeftOf(a[1..], r, cut);
    }
  }

  lemma {:induction false} TrimRightOf(r: string, b: string, cut: set<char>)
    requires AllIn(b, cut) && (r == "" || r[|r| - 1] !in cut)
    ensures TrimRight(r + b, cut) == r
    decreases |b|
  {
    if b == "" {
      assert r + b == r;
    } else {
      assert (r + b)[..|r + b| - 1] == r + b[..|b| - 1];
      TrimRightOf(r, b[..|b| - 1], cut);
    }
  }

  lemma {:induction false} TrimRightAbsorbs(s: string, b: string, cut: set<char>)
    requires AllIn(b, cut)
    ensures TrimRight(s + b, cut) == TrimRight(s, cut)
    decreases |b|
  {
    if b == "" {
      assert s + b == s;
    } else {
      assert (s + b)[..|s + b| - 1] == s + b[..|b| - 1];
      TrimRightAbsorbs(s, b[..|b| - 1], cut);
    }
  }

  /** The only way to cut a text into white text, a core with non-white ends, and white text. */
  lemma TrimBothOf(a: string, core: string, b: string, cut: set<char>)
    requires AllIn(a, cut) && AllIn(b, cut) && IsBare(core, cut)
    ensures TrimBoth(a + core + b, cut) == core
  {
    if core == "" {
      assert a + core + b == (a + b) + "";
      TrimLeftOf(a + b, "", cut);
    } else {
      assert a + core + b == a + (core + b);
      TrimLeftOf(a, core + b, cut);
      TrimRightOf(core, b, cut);
    }
  }

  lemma TrimBothParts(s: string, cut: set<char>) returns (a: string, b: string)
    ensures s == a + TrimBoth(s, cut) + b && AllIn(a, cut) && AllIn(b, cut)
    ensures IsBare(TrimBoth(s, cut), cut)
  {
    a := TrimLeftParts(s, cut);
    b := TrimRightParts(TrimLeft(s, cut), cut);
    if TrimBoth(s, cut) != "" {
      assert TrimLeft(s, cut)[0] == TrimBoth(s, cut)[0];
    }
    Assoc(a, TrimBoth(s, cut), b);
  }

  lemma Regroup<T>(a: seq<T>, b: seq<T>, c: seq<T>, d: seq<T>)
    ensures a + ((b + c) + d) == a + (b + (c + d))
  {
    Assoc(b, c, d);
  }

  lemma Assoc<T>(a: seq<T>, b: seq<T>, c: seq<T>)
    ensures a + (b + c) == a + b + c
  {
  }

  /** TrimSpace is "" exactly on white text. */
  lemma TrimSpaceEmpty(s: string)
    ensures TrimSpace(s) == "" <==> AllIn(s, SPACES)
  {
    var a, b := TrimBothParts(s, SPACES);
    if AllIn(s, SPACES) {
      assert s + "" + "" == s;
      TrimBothOf(s, "", "", SPACES);
    }
  }

  /** Trimming trailing blanks first makes no difference to TrimSpace. */
  lemma TrimSpaceAfterTrimRight(s: string)
    ensures TrimSpace(TrimRight(s, BLANKS)) == TrimSpace(s)
  {
    var t := TrimRight(s, BLANKS);
    var a, b := TrimBothParts(t, SPACES);
    var tail := TrimRightParts(s, BLANKS);
    assert AllIn(b + tail, SPACES);
    Assoc(a + TrimSpace(t), b, tail);
    TrimBothOf(a, TrimSpace(t), b + tail, SPACES);
  }

  predicate OneLine(s: string) {
    '\n' !in s
  }

  predicate OneLines(lines: seq<string>) {
    forall k :: 0 <= k < |lines| ==> OneLine(lines[k])
  }

  /** Cut at every newline; the newlines go. */
  function Split(s: string): (lines: seq<string>)
    ensures |lines| >= 1 && OneLines(lines)
  {
    SplitFrom(s, "")
  }

  function SplitFrom(s: string, line: string): (lines: seq<string>)
    requires OneLine(line)
    ensures |lines| >= 1 && OneLines(lines)
    decreases |s|
  {
    if s == "" then [line]
    else if s[0] == '\n' then [line] + SplitFrom(s[1..], "")
    else SplitFrom(s[1..], line + [s[0]])
  }

  function Join(lines: seq<string>): string {
    if |lines| == 0 then ""
    else if |lines| == 1 then lines[0]
    else lines[0] + "\n" + Join(lines[1..])
  }

  /** Concatenation with no separator. */
  function Concat(parts: seq<string>): string {
    if |parts| == 0 then "" else parts[0] + Concat(parts[1..])
  }

  lemma {:induction false} SplitFromLine(l: string, s: string, line: string)
    requires OneLine(l) && OneLine(line)
    ensures SplitFrom(l + s, line) == SplitFrom(s, line + l)
    decreases |l|
  {
    if l == "" {
      assert l + s == s && line + l == line;
    } else {
      assert (l + s)[1..] == l[1..] + s && (l + s)[0] == l[0];
      SplitFromLine(l[1..], s, line + [l[0]]);
      assert line + [l[0]] + l[1..] == line + l;
    }
  }

  /** Cutting after joining gives the lines back. */
  lemma {:induction false} SplitOfJoin(lines: seq<string>)
    requires |lines| >= 1 && OneLines(lines)
    ensures Split(Join(lines)) == lines
  {
    if |lines| == 1 {
      SplitFromLine(lines[0], "", "");
      assert lines[0] + "" == lines[0] && "" + lines[0] == lines[0];
    } else {
      var rest := "\n" + Join(lines[1..]);
      assert Join(lines) == lines[0] + rest;
      SplitFromLine(lines[0], rest, "");
      assert "" + lines[0] == lines[0];
      assert rest[1..] == Join(lines[1..]);
      SplitOfJoin(lines[1..]);
    }
  }

  lemma {:induction false} JoinOfSplitFrom(s: string, line: string)
    requires OneLine(line)
    ensures Join(SplitFrom(s, line)) == line + s
    decreases |s|
  {
    if s != "" {
      if s[0] == '\n' {
        JoinOfSplitFrom(s[1..], "");
        assert SplitFrom(s, line)[1..] == SplitFrom(s[1..], "");
        assert line + "\n" + ("" + s[1..]) == line + s;
      } else {
        JoinOfSplitFrom(s[1..], line + [s[0]]);
        assert line + [s[0]] + s[1..] == line + s;
      }
    }
  }

  /** Joining after cutting gives the text back. */
  lemma JoinOfSplit(s: string)
    ensures Join(Split(s)) == s
  {
    JoinOfSplitFrom(s, "");
  }

  lemma {:induction false} ConcatSplit(a: seq<string>, b: seq<string>)
    ensures Concat(a + b) == Concat(a) + Concat(b)
  {
    if |a| == 0 {
      assert a + b == b;
    } else {
      assert (a + b)[1..] == a[1..] + b;
      ConcatSplit(a[1..], b);
    }
  }

  lemma LastChar(s: string, c: char)
    ensures HasSuffix(s, [c]) <==> s != "" && s[|s| - 1] == c
  {
    if s != "" {
      assert s[|s| - 1..] == [s[|s| - 1]];
    }
  }

  /** The last character of joined lines. */
  lemma {:induction false} JoinEndsInNewline(lines: seq<string>)
    requires OneLines(lines)
    ensures HasSuffix(Join(lines), "\n") <==> |lines| >= 2 && lines[|lines| - 1] == ""
    ensures Join(lines) == "" <==> |lines| == 0 || lines == [""]
  {
    if |lines| == 1 {
      LastChar(lines[0], '\n');
    } else if |lines| >= 2 {
      var rest := Join(lines[1..]);
      JoinEndsInNewline(lines[1..]);
      var all := lines[0] + "\n" + rest;
      assert Join(lines) == all;
      LastChar(all, '\n');
      LastChar(rest, '\n');
    }
  }

  // ---------------------------------------------------------------- case

  function Lower(c: char): char {
    if 'A' <= c <= 'Z' then c + 32 as char else c
  }

  predicate EqualFold(a: string, b: string) {
    |a| == |b| && forall k :: 0 <= k < |a| ==> Lower(a[k]) == Lower(b[k])
  }
}
