/** Lines that keep their newline, and the text they came from. */
module EditLines {
  import opened Text

  /** Cut behind every newline. */
  function KeepNewlines(s: string): seq<string> {
    if s == "" then [] else KeepFrom(s, "")
  }

  /** `line` is the line begun so far. */
  function KeepFrom(s: string, line: string): seq<string>
    decreases |s|
  {
    if s == "" then (if line == "" then [] else [line])
    else if s[0] == '\n' then [line + "\n"] + KeepFrom(s[1..], "")
    else KeepFrom(s[1..], line + [s[0]])
  }

  lemma {:induction false} KeepFromIsLossless(s: string, line: string)
    ensures Concat(KeepFrom(s, line)) == line + s
    decreases |s|
  {
    if s == "" {
      assert line != "" ==> [line][1..] == [] && Concat([line]) == line + "";
      assert line + s == line;
    } else if s[0] == '\n' {
      KeepFromIsLossless(s[1..], "");
      assert KeepFrom(s, line)[1..] == KeepFrom(s[1..], "");
      assert line + "\n" + ("" + s[1..]) == line + s;
    } else {
      KeepFromIsLossless(s[1..], line + [s[0]]);
      assert line + [s[0]] + s[1..] == line + s;
    }
  }

  /** Cutting loses nothing. */
  lemma KeepNewlinesIsLossless(s: string)
    ensures Concat(KeepNewlines(s)) == s
  {
    if s != "" {
      KeepFromIsLossless(s, "");
    }
  }

  /** The position of the first newline, or the length. */
  function IndexOfNewline(s: string): (k: nat)
    ensures k <= |s|
  {
    if s == "" || s[0] == '\n' then 0 else 1 + IndexOfNewline(s[1..])
  }

  lemma {:induction false} KeepFirstLine(s: string, line: string)
    ensures var k := IndexOfNewline(s);
            KeepFrom(s, line) == if k < |s| then [line + s[..k + 1]] + KeepFrom(s[k + 1..], "")
                                 else if line + s == "" then [] else [line + s]
    decreases |s|
  {
    if s == "" {
      assert line + s == line;
    } else if s[0] == '\n' {
      assert s[..1] == "\n";
    } else {
      var k := IndexOfNewline(s[1..]);
      KeepFirstLine(s[1..], line + [s[0]]);
      assert line + [s[0]] + s[1..] == line + s;
      if k + 1 < |s| {
        assert line + [s[0]] + s[1..][..k + 1] == line + s[..k + 2];
        assert s[1..][k + 1..] == s[k + 2..];
      }
    }
  }

  method SplitKeepNewline(s0: string) returns (lines: seq<string>)
    ensures lines == KeepNewlines(s0)
  {
    lines := [];
    var s := s0;
    while |s| > 0
      invariant KeepNewlines(s0) == lines + KeepNewlines(s)
      decreases |s|
    {
      var idx := IndexOfNewline(s);
      KeepFirstLine(s, "");
      assert "" + s == s && "" + s[..if idx < |s| then idx + 1 else idx] == s[..if idx < |s| then idx + 1 else idx];
      if idx == |s| {
        lines := lines + [s];
        return;
      }
      lines := lines + [s[..idx + 1]];
      s := s[idx + 1..];
    }
  }

  function Terminated(s: string): string {
    if s != "" && !HasSuffix(s, "\n") then s + "\n" else s
  }

  /** A text that does not end in a newline gets one; the empty text, and one that does, stay. */
  lemma TerminatedMeaning(s: string)
    ensures Terminated("") == "" && KeepNewlines(Terminated("")) == []
    ensures Terminated(s + "\n") == s + "\n"
    ensures s != "" && s[|s| - 1] != '\n' ==> Terminated(s) == s + "\n"
  {
    LastChar(s, '\n');
    LastChar(s + "\n", '\n');
  }

  method Prep(s: string) returns (text: string, lines: seq<string>)
    ensures text == Terminated(s) && lines == KeepNewlines(text)
  {
    text := s;
    if text != "" && !HasSuffix(text, "\n") {
      text := text + "\n";
    }
    lines := SplitKeepNewline(text);
  }

  // ---------------------------------------------------------------- texts and lines

  /** A newline at the end and nowhere else. */
  predicate IsLine(l: string) {
    l != "" && l[|l| - 1] == '\n' && OneLine(l[..|l| - 1])
  }

  /** Empty, or with a newline at the end. */
  predicate EndsLine(s: string) {
    s == "" || s[|s| - 1] == '\n'
  }

  predicate AreLines(lines: seq<string>) {
    forall k :: 0 <= k < |lines| ==> IsLine(lines[k])
  }

  lemma {:induction false} KeepFromText(text: string, rest: string, line: string)
    requires OneLine(text)
    ensures KeepFrom(text + "\n" + rest, line) == [line + text + "\n"] + KeepFrom(rest, "")
    decreases |text|
  {
    var s := text + "\n" + rest;
    if text == "" {
      assert s[1..] == rest && line + text == line;
    } else {
      assert s[1..] == text[1..] + "\n" + rest;
      KeepFromText(text[1..], rest, line + [text[0]]);
      assert line + [text[0]] + text[1..] == line + text;
    }
  }

  lemma KeepOneLine(l: string, rest: string)
    requires IsLine(l)
    ensures KeepNewlines(l + rest) == [l] + KeepNewlines(rest)
  {
    var text := l[..|l| - 1];
    assert l == text + "\n" && l + rest == text + "\n" + rest;
    KeepFromText(text, rest, "");
    assert "" + text + "\n" == l;
  }

  lemma {:induction false} KeepNewlinesOfLines(lines: seq<string>, tail: string)
    requires AreLines(lines)
    ensures KeepNewlines(Concat(lines) + tail) == lines + KeepNewlines(tail)
    decreases |lines|
  {
    if |lines| == 0 {
      assert "" + tail == tail;
    } else {
      var l, rest := lines[0], Concat(lines[1..]) + tail;
      assert Concat(lines) + tail == l + rest;
      KeepOneLine(l, rest);
      KeepNewlinesOfLines(lines[1..], tail);
      assert [l] + (lines[1..] + KeepNewlines(tail)) == lines + KeepNewlines(tail);
    }
  }

  lemma {:induction false} KeptAreLines(s: string, line: string)
    requires OneLine(line) && EndsLine(s) && (s == "" ==> line == "")
    ensures AreLines(KeepFrom(s, line))
    decreases |s|
  {
    if s != "" {
      if s[0] == '\n' {
        assert (line + "\n")[..|line + "\n"| - 1] == line;
        KeptAreLines(s[1..], "");
      } else {
        KeptAreLines(s[1..], line + [s[0]]);
      }
    }
  }
}
