/** The wildcard matcher: a glob rewritten, character by character, into the text of a regular expression. */
module Wildcard {
  import opened Text
  import opened Regexp

  /** The characters escaped in the first rewrite: every special one except the star and the question mark. */
  const ESCAPED: set<char> := {'.', '+', '^', '$', '{', '}', '(', ')', '|', '[', ']', '\\'}

  /** Every occurrence of `c` becomes `image`. */
  function ReplaceAll(s: string, c: char, image: string): string {
    if s == "" then "" else (if s[0] == c then image else [s[0]]) + ReplaceAll(s[1..], c, image)
  }

  function EscapeAll(s: string): string {
    if s == "" then "" else (if s[0] in ESCAPED then ['\\', s[0]] else [s[0]]) + EscapeAll(s[1..])
  }

  /** The text of the regular expression for a pattern. */
  function RegexText(pattern: string): string {
    var escaped := ReplaceAll(ReplaceAll(EscapeAll(pattern), '*', ".*"), '?', ".");
    var optional := if HasSuffix(escaped, " .*") then escaped[..|escaped| - 3] + "( .*)?" else escaped;
    PREFIX + optional + SUFFIX
  }

  // ---------------------------------------------------------------- what a pattern means

  /** A star is any text, a question mark any one character, everything else is itself. */
  predicate Glob(pattern: string, s: string)
    decreases |pattern|
  {
    if pattern == "" then s == ""
    else if pattern[0] == '*' then exists k :: 0 <= k <= |s| && Glob(pattern[1..], s[k..])
    else if pattern[0] == '?' then s != "" && Glob(pattern[1..], s[1..])
    else s != "" && s[0] == pattern[0] && Glob(pattern[1..], s[1..])
  }

  /** Behind a pattern `q`, a final " *" may be absent: `q`, or `q` and a space and any text. */
  predicate Means(pattern: string, s: string) {
    if HasSuffix(pattern, " *") then
      var q := pattern[..|pattern| - 2];
      Glob(q, s) || exists k :: 0 <= k < |s| && Glob(q, s[..k]) && s[k] == ' '
    else Glob(pattern, s)
  }

  // ---------------------------------------------------------------- the rewrites, one character at a time

  function Image(c: char): string {
    if c == '*' then ".*" else if c == '?' then "." else if c in ESCAPED then ['\\', c] else [c]
  }

  function Images(p: string): string {
    if p == "" then "" else Image(p[0]) + Images(p[1..])
  }

  lemma {:induction false} ReplaceAllSplit(a: string, b: string, c: char, image: string)
    ensures ReplaceAll(a + b, c, image) == ReplaceAll(a, c, image) + ReplaceAll(b, c, image)
  {
    if a == "" {
      assert a + b == b;
    } else {
      assert (a + b)[1..] == a[1..] + b;
      ReplaceAllSplit(a[1..], b, c, image);
    }
  }

  lemma {:induction false} RewritesAreImages(p: string)
    ensures ReplaceAll(ReplaceAll(EscapeAll(p), '*', ".*"), '?', ".") == Images(p)
  {
    if p != "" {
      var c, rest := p[0], EscapeAll(p[1..]);
      var head := if c in ESCAPED then ['\\', c] else [c];
      ReplaceAllSplit(head, rest, '*', ".*");
      ReplaceAllSplit(ReplaceAll(head, '*', ".*"), ReplaceAll(rest, '*', ".*"), '?', ".");
      RewritesAreImages(p[1..]);
      OneImage(c);
    }
  }

  lemma OneImage(c: char)
    ensures ReplaceAll(ReplaceAll(if c in ESCAPED then ['\\', c] else [c], '*', ".*"), '?', ".") == Image(c)
  {
    if c in ESCAPED {
      OthersStay(['\\', c], '*', ".*");
      OthersStay(['\\', c], '?', ".");
    } else if c == '*' {
      assert "*"[1..] == "";
      assert ReplaceAll("*", '*', ".*") == ".*";
      OthersStay(".*", '?', ".");
    } else if c == '?' {
      OthersStay("?", '*', ".*");
      assert "?"[1..] == "";
      assert ReplaceAll("?", '?', ".") == ".";
    } else {
      OthersStay([c], '*', ".*");
      OthersStay([c], '?', ".");
    }
  }

  lemma {:induction false} OthersStay(s: string, c: char, image: string)
    requires c !in s
    ensures ReplaceAll(s, c, image) == s
  {
    if s != "" {
      OthersStay(s[1..], c, image);
    }
  }

  lemma {:induction false} ImagesSplit(a: string, b: string)
    ensures Images(a + b) == Images(a) + Images(b)
  {
    if a == "" {
      assert a + b == b;
    } else {
      assert (a + b)[1..] == a[1..] + b;
      ImagesSplit(a[1..], b);
    }
  }

  lemma ImagesOne(c: char)
    ensures Images([c]) == Image(c)
  {
    assert [c][1..] == "";
    assert Image(c) + "" == Image(c);
  }

  lemma ImagesLast(p: string)
    requires p != ""
    ensures Images(p) == Images(p[..|p| - 1]) + Image(p[|p| - 1])
  {
    var init, last := p[..|p| - 1], [p[|p| - 1]];
    assert Images(p) == Images(init) + Images(last) by {
      ImagesSplit(init, last);
      assert p == init + last;
    }
    ImagesOne(p[|p| - 1]);
  }

  lemma SpaceStarAt(p: string)
    ensures HasSuffix(p, " *") <==> |p| >= 2 && p[|p| - 2] == ' ' && p[|p| - 1] == '*'
  {
    if |p| >= 2 {
      assert p[|p| - 2..] == [p[|p| - 2], p[|p| - 1]];
    }
  }

  lemma SpaceDotStarAt(t: string)
    ensures HasSuffix(t, " .*") <==> |t| >= 3 && t[|t| - 3] == ' ' && t[|t| - 2] == '.' && t[|t| - 1] == '*'
  {
    if |t| >= 3 {
      assert t[|t| - 3..] == [t[|t| - 3], t[|t| - 2], t[|t| - 1]];
    }
  }

  lemma ImagesEnd(p: string)
    requires p != ""
    ensures Images(p) != "" && Images(p)[|Images(p)| - 1] == (if p[|p| - 1] == '?' then '.' else p[|p| - 1])
    ensures p[|p| - 1] == '*' ==> Images(p) == Images(p[..|p| - 1]) + ".*"
    ensures p[|p| - 1] == ' ' ==> Images(p) == Images(p[..|p| - 1]) + " "
  {
    ImagesLast(p);
  }

  /** The third rewrite fires exactly for patterns that end in " *". */
  lemma SpaceStar(p: string)
    ensures HasSuffix(Images(p), " .*") <==> HasSuffix(p, " *")
    ensures HasSuffix(p, " *") ==> Images(p)[..|Images(p)| - 3] == Images(p[..|p| - 2])
  {
    SpaceStarAt(p);
    SpaceDotStarAt(Images(p));
    if p != "" {
      ImagesEnd(p);
      var q := p[..|p| - 1];
      if p[|p| - 1] == '*' && q != "" {
        ImagesEnd(q);
        assert q[|q| - 1] == p[|p| - 2] && q[..|q| - 1] == p[..|p| - 2];
        BehindDotStar(Images(q));
      }
    }
  }

  lemma BehindDotStar(t: string)
    requires t != ""
    ensures var u := t + ".*"; |u| >= 3 && u[|u| - 3] == t[|t| - 1] && u[..|u| - 3] == t[..|t| - 1]
  {
  }

  // ---------------------------------------------------------------- the rewritten text, read back as a tree

  function Item(c: char): Regex {
    if c == '*' then Star(Any) else if c == '?' then Any else Lit(c)
  }

  /** The items of a pattern, and then `end`. */
  function Items(p: string, end: Regex): Regex {
    if p == "" then end else Cat(Item(p[0]), Items(p[1..], end))
  }

  predicate CleanStart(text: string) {
    text == "" || text[0] !in REPETITION
  }

  lemma ImagesCleanStart(p: string, tail: string)
    requires CleanStart(tail)
    ensures CleanStart(Images(p) + tail)
  {
    if p != "" {
      assert (Images(p) + tail)[0] == Image(p[0])[0];
    } else {
      assert Images(p) + tail == tail;
    }
  }

  /** One image followed by a text that does not start with a repetition mark. */
  lemma ReadImage(c: char, rest: string)
    requires CleanStart(rest)
    ensures var text := Image(c) + rest;
            && text[0] != ')' && ReadAtom(text).Some?
            && ReadRepetition(ReadAtom(text).value) == Some(Read(Item(c), rest))
  {
    var text := Image(c) + rest;
    if c in ESCAPED {
      assert text[0] == '\\' && text[1] == c && text[2..] == rest;
    } else if c == '*' {
      assert text[0] == '.' && text[1..] == "*" + rest && text[1..][1..] == rest;
    } else {
      assert text[1..] == rest;
    }
  }

  lemma {:induction false} ReadImages(p: string, tail: string, end: Regex)
    requires CleanStart(tail) && ReadCat(tail) == Some(Read(end, ""))
    ensures ReadCat(Images(p) + tail) == Some(Read(Items(p, end), ""))
  {
    if p == "" {
      assert Images(p) + tail == tail;
    } else {
      var rest := Images(p[1..]) + tail;
      assert Images(p) + tail == Image(p[0]) + rest;
      ImagesCleanStart(p[1..], tail);
      ReadImage(p[0], rest);
      ReadImages(p[1..], tail, end);
    }
  }

  /** Space and any text, or nothing. */
  const OPTIONAL_ARGUMENTS := Cat(Opt(Cat(Lit(' '), Cat(Star(Any), Empty))), Empty)

  lemma ReadOptionalArguments()
    ensures ReadCat("( .*)?") == Some(Read(OPTIONAL_ARGUMENTS, ""))
  {
    var inner := " .*)?";
    assert "( .*)?"[1..] == inner && inner[1..] == ".*)?";
    assert ".*)?"[1..] == "*)?" && "*)?"[1..] == ")?" && ")?"[1..] == "?" && "?"[1..] == "";
    assert ReadCat(")?") == Some(Read(Empty, ")?"));
    assert ReadCat(".*)?") == Some(Read(Cat(Star(Any), Empty), ")?"));
    assert ReadCat(inner) == Some(Read(Cat(Lit(' '), Cat(Star(Any), Empty)), ")?"));
    assert ReadCat("") == Some(Read(Empty, ""));
  }

  function Tree(pattern: string): Regex {
    if HasSuffix(pattern, " *") then Items(pattern[..|pattern| - 2], OPTIONAL_ARGUMENTS) else Items(pattern, Empty)
  }

  lemma CompileAnchored(text: string)
    ensures Compile(PREFIX + text + SUFFIX)
         == match ReadCat(text) case None => None case Some(r) => if r.rest == "" then Some(r.regex) else None
  {
    var all := PREFIX + text + SUFFIX;
    assert all[..|PREFIX|] == PREFIX && all[|all| - |SUFFIX|..] == SUFFIX && all[|PREFIX|..|all| - |SUFFIX|] == text;
  }

  lemma RegexTextCases(pattern: string)
    ensures RegexText(pattern) == PREFIX
              + (if HasSuffix(pattern, " *") then Images(pattern[..|pattern| - 2]) + "( .*)?" else Images(pattern)) + SUFFIX
  {
    RewritesAreImages(pattern);
    SpaceStar(pattern);
  }

  /** The rewritten text always compiles, and to this tree. */
  lemma RegexTextCompiles(pattern: string)
    ensures Compile(RegexText(pattern)) == Some(Tree(pattern))
  {
    RegexTextCases(pattern);
    if HasSuffix(pattern, " *") {
      var q := pattern[..|pattern| - 2];
      ReadOptionalArguments();
      ReadImages(q, "( .*)?", OPTIONAL_ARGUMENTS);
      CompileAnchored(Images(q) + "( .*)?");
    } else {
      assert Images(pattern) + "" == Images(pattern);
      ReadImages(pattern, "", Empty);
      CompileAnchored(Images(pattern));
    }
  }

  // ---------------------------------------------------------------- and its language

  lemma {:induction false} StarAnyTakesAll(s: string)
    ensures Matches(Star(Any), s)
  {
    if s != "" {
      StarAnyTakesAll(s[1..]);
      assert Matches(Any, s[..1]);
    }
  }

  /** A cut of `s` into a text of the glob and a text of `end`. */
  predicate SplitsAt(p: string, end: Regex, s: string, k: int) {
    0 <= k <= |s| && Glob(p, s[..k]) && Matches(end, s[k..])
  }

  lemma {:induction false} ItemsMatchSplit(p: string, end: Regex, s: string) returns (k: nat)
    requires Matches(Items(p, end), s)
    ensures SplitsAt(p, end, s, k)
    decreases |p|
  {
    if p == "" {
      k := 0;
      assert s[0..] == s;
    } else {
      var j := CatSplit(Item(p[0]), Items(p[1..], end), s);
      var i := ItemsMatchSplit(p[1..], end, s[j..]);
      SplitsCons(p, end, s, j, i);
      k := j + i;
    }
  }

  lemma SplitsCons(p: string, end: Regex, s: string, j: nat, i: nat)
    requires p != "" && j <= |s| && Matches(Item(p[0]), s[..j]) && SplitsAt(p[1..], end, s[j..], i)
    ensures SplitsAt(p, end, s, j + i)
  {
    GlobCons(p, s, j, i);
    assert s[j..][i..] == s[j + i..];
  }

  lemma CatSplit(first: Regex, second: Regex, s: string) returns (k: nat)
    requires Matches(Cat(first, second), s)
    ensures k <= |s| && Matches(first, s[..k]) && Matches(second, s[k..])
  {
    k :| 0 <= k <= |s| && Matches(first, s[..k]) && Matches(second, s[k..]);
  }

  lemma CatJoin(first: Regex, second: Regex, s: string, k: nat)
    requires k <= |s| && Matches(first, s[..k]) && Matches(second, s[k..])
    ensures Matches(Cat(first, second), s)
  {
  }

  lemma {:induction false} SplitItemsMatch(p: string, end: Regex, s: string, k: nat)
    requires SplitsAt(p, end, s, k)
    ensures Matches(Items(p, end), s)
    decreases |p|
  {
    if p == "" {
      assert k == 0 && s[0..] == s;
    } else {
      var j := SplitsUncons(p, end, s, k);
      SplitItemsMatch(p[1..], end, s[j..], k - j);
      CatJoin(Item(p[0]), Items(p[1..], end), s, j);
    }
  }

  lemma SplitsUncons(p: string, end: Regex, s: string, k: nat) returns (j: nat)
    requires p != "" && SplitsAt(p, end, s, k)
    ensures j <= k && Matches(Item(p[0]), s[..j]) && SplitsAt(p[1..], end, s[j..], k - j)
  {
    j := GlobHead(p, s[..k]);
    assert s[..k][j..] == s[j..][..k - j] && s[..k][..j] == s[..j] && s[j..][k - j..] == s[k..];
  }

  lemma GlobCons(p: string, s: string, j: nat, k: nat)
    requires p != "" && j <= |s| && k <= |s[j..]|
    requires Matches(Item(p[0]), s[..j]) && Glob(p[1..], s[j..][..k])
    ensures Glob(p, s[..j + k])
  {
    assert s[..j + k][j..] == s[j..][..k];
  }

  /** How much of `t` the first character of the pattern takes. */
  lemma GlobHead(p: string, t: string) returns (j: nat)
    requires p != "" && Glob(p, t)
    ensures j <= |t| && Matches(Item(p[0]), t[..j]) && Glob(p[1..], t[j..])
  {
    if p[0] == '*' {
      var k :| 0 <= k <= |t| && Glob(p[1..], t[k..]);
      j := k;
      StarAnyTakesAll(t[..j]);
    } else {
      j := 1;
    }
  }

  const ARGUMENTS := Cat(Star(Any), Empty)

  lemma ArgumentsMatchAll(t: string)
    ensures Matches(ARGUMENTS, t)
  {
    StarAnyTakesAll(t);
    assert t[..|t|] == t && t[|t|..] == "";
    CatJoin(Star(Any), Empty, t, |t|);
  }

  const SPACED := Cat(Lit(' '), ARGUMENTS)

  lemma SpacedMatches(t: string)
    ensures Matches(SPACED, t) <==> t != "" && t[0] == ' '
  {
    if Matches(SPACED, t) {
      var i := CatSplit(Lit(' '), ARGUMENTS, t);
      assert t[..i][0] == t[0];
    }
    if t != "" && t[0] == ' ' {
      ArgumentsMatchAll(t[1..]);
      assert t[..1] == " ";
      CatJoin(Lit(' '), ARGUMENTS, t, 1);
    }
  }

  /** Nothing behind a tree changes nothing. */
  lemma CatEmpty(r: Regex, t: string)
    ensures Matches(Cat(r, Empty), t) <==> Matches(r, t)
  {
    assert t[..|t|] == t && t[|t|..] == "";
    if Matches(Cat(r, Empty), t) {
      var k := CatSplit(r, Empty, t);
    }
    if Matches(r, t) {
      CatJoin(r, Empty, t, |t|);
    }
  }

  lemma OptionalArgumentsMatch(t: string)
    ensures Matches(OPTIONAL_ARGUMENTS, t) <==> t == "" || t[0] == ' '
  {
    CatEmpty(Opt(SPACED), t);
    SpacedMatches(t);
  }

  lemma TreeMatches(pattern: string, s: string)
    ensures Matches(Tree(pattern), s) <==> Means(pattern, s)
  {
    assert s[..|s|] == s && s[|s|..] == "";
    if Matches(Tree(pattern), s) {
      TreeMatchMeans(pattern, s);
    }
    if Means(pattern, s) {
      if HasSuffix(pattern, " *") {
        var q := pattern[..|pattern| - 2];
        var k: nat :| k <= |s| && Glob(q, s[..k]) && (k == |s| || s[k] == ' ');
        OptionalArgumentsMatch(s[k..]);
        SplitItemsMatch(q, OPTIONAL_ARGUMENTS, s, k);
      } else {
        SplitItemsMatch(pattern, Empty, s, |s|);
      }
    }
  }

  lemma TreeMatchMeans(pattern: string, s: string)
    requires Matches(Tree(pattern), s)
    ensures Means(pattern, s)
  {
    if HasSuffix(pattern, " *") {
      var k := ItemsMatchSplit(pattern[..|pattern| - 2], OPTIONAL_ARGUMENTS, s);
      OptionalArgumentsMatch(s[k..]);
      assert k == |s| ==> s[..k] == s;
    } else {
      var k := ItemsMatchSplit(pattern, Empty, s);
      assert k == |s| && s[..k] == s;
    }
  }

  /** The rewrites give a regular expression whose language is exactly the meaning of the pattern. */
  lemma RewriteKeepsMeaning(pattern: string)
    ensures Compile(RegexText(pattern)).Some?
    ensures forall s :: Matches(Compile(RegexText(pattern)).value, s) <==> Means(pattern, s)
  {
    RegexTextCompiles(pattern);
    forall s
      ensures Matches(Tree(pattern), s) <==> Means(pattern, s)
    {
      TreeMatches(pattern, s);
    }
  }

  /** A pattern without wildcards means only itself. */
  lemma {:induction false} PlainPattern(pattern: string, s: string)
    requires '*' !in pattern && '?' !in pattern
    ensures Glob(pattern, s) <==> s == pattern
    ensures Means(pattern, s) <==> s == pattern
  {
    SpaceStarAt(pattern);
    if pattern != "" {
      if s != "" {
        PlainPattern(pattern[1..], s[1..]);
        assert s == [s[0]] + s[1..] && pattern == [pattern[0]] + pattern[1..];
      }
    }
  }

  // ---------------------------------------------------------------- the matcher and its cache

  function Slashes(s: string): string {
    ReplaceAll(s, '\\', "/")
  }

  /** Both slashes become '/', everything else stays. */
  lemma {:induction false} SlashesMeaning(s: string)
    ensures |Slashes(s)| == |s|
    ensures forall k :: 0 <= k < |s| ==> Slashes(s)[k] == if s[k] in {'/', '\\'} then '/' else s[k]
  {
    if s != "" {
      SlashesMeaning(s[1..]);
      assert Slashes(s) == [Slashes(s)[0]] + Slashes(s[1..]);
      assert forall k :: 0 < k < |s| ==> s[k] == s[1..][k - 1];
    }
  }

  /** So a path matches the same path written with the other slash. */
  lemma OtherSlashMatches()
    ensures Means(Slashes("a/b"), Slashes("a\\b"))
  {
    SlashesMeaning("a/b");
    SlashesMeaning("a\\b");
    PlainPatternWithSlashes("a/b", "a\\b");
  }

  /** A plain command with " *" behind it means the command alone, or with a space and any arguments, and nothing else. */
  lemma CommandPattern(command: string, s: string)
    requires '*' !in command && '?' !in command
    ensures Means(command + " *", s) <==> s == command || HasPrefix(s, command + " ")
  {
    var pattern := command + " *";
    assert pattern[..|pattern| - 2] == command && HasSuffix(pattern, " *");
    PlainPattern(command, s);
    forall k | 0 <= k < |s|
      ensures Glob(command, s[..k]) <==> s[..k] == command
    {
      PlainPattern(command, s[..k]);
    }
    if |command| < |s| {
      assert s[..|command| + 1] == s[..|command|] + [s[|command|]];
    }
    if HasPrefix(s, command + " ") {
      assert s[..|command|] == command && s[|command|] == ' ';
    }
  }

  class WildcardCache {
    var cache: map<string, Regex>

    /** A cached tree is what a fresh compile would give. */
    ghost predicate Valid()
      reads this
    {
      forall p :: p in cache ==> Compile(RegexText(p)) == Some(cache[p])
    }

    constructor ()
      ensures Valid() && cache == map[]
    {
      cache := map[];
    }

    method CompileWildcard(pattern: string) returns (re: Regex)
      requires Valid()
      modifies this
      ensures Valid() && cache == old(cache)[pattern := re]
      ensures Some(re) == Compile(RegexText(pattern))
      ensures forall s :: Matches(re, s) <==> Means(pattern, s)
    {
      RewriteKeepsMeaning(pattern);
      if pattern in cache {
        return cache[pattern];
      }
      var escaped := EscapeAll(pattern);
      escaped := ReplaceAll(escaped, '*', ".*");
      escaped := ReplaceAll(escaped, '?', ".");
      if HasSuffix(escaped, " .*") {
        escaped := escaped[..|escaped| - 3] + "( .*)?";
      }
      re := Compile(PREFIX + escaped + SUFFIX).value;
      cache := cache[pattern := re];
    }

    method MatchWildcard(str: string, pattern: string) returns (b: bool)
      requires Valid()
      modifies this
      ensures Valid()
      ensures b <==> Means(Slashes(pattern), Slashes(str))
    {
      var s, p := str, pattern;
      if s != "" {
        s := ReplaceAll(s, '\\', "/");
      }
      if p != "" {
        p := ReplaceAll(p, '\\', "/");
      }
      var re := CompileWildcard(p);
      b := Matches(re, s);
    }
  }

  /** Without wildcards, the strings matched are those equal to the pattern up to the direction of slashes. */
  lemma {:induction false} PlainPatternWithSlashes(pattern: string, s: string)
    requires '*' !in pattern && '?' !in pattern
    ensures Means(Slashes(pattern), Slashes(s)) <==> Slashes(s) == Slashes(pattern)
  {
    SlashesAddNoWildcard(pattern);
    PlainPattern(Slashes(pattern), Slashes(s));
  }

  lemma {:induction false} SlashesAddNoWildcard(p: string)
    requires '*' !in p && '?' !in p
    ensures '*' !in Slashes(p) && '?' !in Slashes(p)
  {
    if p != "" {
      SlashesAddNoWildcard(p[1..]);
    }
  }
}
