/** Where one chunk acts, described by what stands in the lines and not by how it is sought. */
module PatchLocate {
  import opened Text
  import opened PatchTypes
  import opened PatchSeek
  import opened PatchApply

  /** At or behind `from`, `at` is the first window that equals the pattern; or, when none does, the first that does but for
      blanks at line ends; or, when none does either, the first that does but for white space around the lines. */
  ghost predicate Strictest(lines: seq<string>, pattern: seq<string>, from: nat, at: int) {
    || IsBest(Exact, lines, pattern, from, at)
    || (NoneIn(Exact, lines, pattern, from, |lines| + 1) && IsBest(RStrip, lines, pattern, from, at))
    || (NoneIn(RStrip, lines, pattern, from, |lines| + 1) && IsBest(Trim, lines, pattern, from, at))
  }

  ghost predicate Nowhere(lines: seq<string>, pattern: seq<string>, from: nat) {
    NoneIn(Trim, lines, pattern, from, |lines| + 1)
  }

  /** Behind the context line, or at the cursor when there is none. */
  ghost predicate AnchoredAt(lines: seq<string>, cursor: nat, context: string, anchor: nat) {
    if context == "" then anchor == cursor else Strictest(lines, [context], cursor, anchor - 1)
  }

  /** Where old lines are found: an end-of-file chunk looks at the last lines only, any other from the anchor on. */
  ghost predicate FoundAt(lines: seq<string>, olds: seq<string>, eof: bool, anchor: nat, at: int) {
    if |olds| == 0 then at == anchor
    else if eof then at == |lines| - |olds| && Hit(lines, olds)
    else Strictest(lines, olds, anchor, at)
  }

  ghost predicate NotFound(lines: seq<string>, olds: seq<string>, eof: bool, anchor: nat) {
    |olds| > 0 && if eof then !Hit(lines, olds) else Nowhere(lines, olds, anchor)
  }

  predicate EndsBlank(lines: seq<string>) {
    |lines| > 0 && lines[|lines| - 1] == ""
  }

  function Init(lines: seq<string>): seq<string>
    requires |lines| > 0
  {
    lines[..|lines| - 1]
  }

  /** The region of a chunk with old lines: they are found; or they are not, end in a blank line, and are found without it. */
  ghost predicate ReplacesAt(lines: seq<string>, anchor: nat, c: UpdateChunk, r: Region) {
    || (FoundAt(lines, c.oldLines, c.isEndOfFile, anchor, r.at) && r.len == |c.oldLines| && r.news == c.newLines)
    || (&& NotFound(lines, c.oldLines, c.isEndOfFile, anchor) && EndsBlank(c.oldLines)
        && FoundAt(lines, Init(c.oldLines), c.isEndOfFile, anchor, r.at) && r.len == |c.oldLines| - 1
        && r.news == if EndsBlank(c.newLines) then Init(c.newLines) else c.newLines)
  }

  ghost predicate ReplacesNowhere(lines: seq<string>, anchor: nat, c: UpdateChunk) {
    && NotFound(lines, c.oldLines, c.isEndOfFile, anchor)
    && (EndsBlank(c.oldLines) ==> NotFound(lines, Init(c.oldLines), c.isEndOfFile, anchor))
  }

  lemma SeekIs(lines: seq<string>, olds: seq<string>, from: nat, eof: bool)
    ensures var at := Seek(lines, olds, from, eof);
            && (at >= 0 ==> FoundAt(lines, olds, eof, from, at))
            && (at < 0 ==> NotFound(lines, olds, eof, from))
  {
    if |olds| > 0 {
      SeekMeaning(lines, olds, from, eof);
      if eof {
        EofSeek(lines, olds, from);
      }
    }
  }

  lemma LocateOldMeaning(lines: seq<string>, anchor: nat, c: UpdateChunk)
    requires |c.oldLines| > 0
    ensures match LocateOld(lines, anchor, c)
            case Ok(r) => ReplacesAt(lines, anchor, c, r)
            case Err(fault) => fault == OldLinesNotFound && ReplacesNowhere(lines, anchor, c)
  {
    SeekIs(lines, c.oldLines, anchor, c.isEndOfFile);
    SeekIs(lines, DropLastBlank(c.oldLines), anchor, c.isEndOfFile);
  }

  lemma AnchorMeaning(lines: seq<string>, cursor: nat, context: string)
    requires cursor <= |lines|
    ensures match Anchor(lines, cursor, context)
            case Ok(at) => AnchoredAt(lines, cursor, context, at)
            case Err(fault) => fault == ContextNotFound && context != "" && Nowhere(lines, [context], cursor)
  {
    if context != "" {
      SeekIs(lines, [context], cursor, false);
    }
  }

  /** Where a chunk acts on the lines with everything before the cursor settled, in every case: its context line is nowhere; it
      is, and a chunk without old lines goes in behind it; the old lines are replaced; or they are nowhere. */
  lemma LocateMeaning(lines: seq<string>, cursor: nat, c: UpdateChunk)
    requires cursor <= |lines|
    ensures match Locate(lines, cursor, c)
            case Err(ContextNotFound) => c.changeContext != "" && Nowhere(lines, [c.changeContext], cursor)
            case Err(OldLinesNotFound) =>
              exists anchor :: AnchoredAt(lines, cursor, c.changeContext, anchor) && |c.oldLines| > 0 && ReplacesNowhere(lines, anchor, c)
            case Ok(r) =>
              exists anchor :: AnchoredAt(lines, cursor, c.changeContext, anchor)
                && if |c.oldLines| == 0 then r == Region(anchor, 0, c.newLines) else ReplacesAt(lines, anchor, c, r)
  {
    AnchorMeaning(lines, cursor, c.changeContext);
    var anchor := Anchor(lines, cursor, c.changeContext);
    if anchor.Ok? {
      assert AnchoredAt(lines, cursor, c.changeContext, anchor.value);
      if |c.oldLines| > 0 {
        LocateOldMeaning(lines, anchor.value, c);
      }
    }
  }

  lemma StrictestIsOne(lines: seq<string>, pattern: seq<string>, from: nat, a: int, b: int)
    requires Strictest(lines, pattern, from, a) && Strictest(lines, pattern, from, b)
    ensures a == b && !Nowhere(lines, pattern, from)
  {
    MatchesAtLoosens(lines, pattern, a);
    MatchesAtLoosens(lines, pattern, b);
  }

  /** The description leaves no choice: a chunk has one anchor, and acts at one place with one text or nowhere. */
  lemma PlaceIsUnique(lines: seq<string>, c: UpdateChunk, anchor: nat, other: nat, cursor: nat, r: Region, q: Region)
    requires AnchoredAt(lines, cursor, c.changeContext, anchor) && AnchoredAt(lines, cursor, c.changeContext, other)
    requires |c.oldLines| > 0 && ReplacesAt(lines, anchor, c, r) && ReplacesAt(lines, other, c, q)
    ensures anchor == other && r == q && !ReplacesNowhere(lines, anchor, c)
  {
    if c.changeContext != "" {
      StrictestIsOne(lines, [c.changeContext], cursor, anchor - 1, other - 1);
    }
    FoundIsOne(lines, c.oldLines, c.isEndOfFile, anchor, r.at, q.at);
    if EndsBlank(c.oldLines) {
      FoundIsOne(lines, Init(c.oldLines), c.isEndOfFile, anchor, r.at, q.at);
    }
  }

  lemma FoundIsOne(lines: seq<string>, olds: seq<string>, eof: bool, anchor: nat, a: int, b: int)
    ensures FoundAt(lines, olds, eof, anchor, a) ==> !NotFound(lines, olds, eof, anchor)
    ensures FoundAt(lines, olds, eof, anchor, a) && FoundAt(lines, olds, eof, anchor, b) ==> a == b
    ensures FoundAt(lines, olds, eof, anchor, b) ==> !NotFound(lines, olds, eof, anchor)
  {
    if |olds| > 0 && !eof {
      if Strictest(lines, olds, anchor, a) {
        StrictestIsOne(lines, olds, anchor, a, a);
      }
      if Strictest(lines, olds, anchor, b) {
        StrictestIsOne(lines, olds, anchor, b, b);
      }
      if Strictest(lines, olds, anchor, a) && Strictest(lines, olds, anchor, b) {
        StrictestIsOne(lines, olds, anchor, a, b);
      }
    }
  }
}
