/** The in-order splice loop that applies the chunks of one update hunk, and the two-phase reading it claims to equal. */
module PatchApply {
  import opened Text
  import opened PatchTypes
  import opened PatchSeek

  datatype Fault = ContextNotFound | OldLinesNotFound

  /** `chunk` counts from 1. */
  datatype ApplyError = ApplyError(chunk: nat, fault: Fault)

  /** `len` lines from `at` give way to `news`. */
  datatype Region = Region(at: nat, len: nat, news: seq<string>)

  // ---------------------------------------------------------------- one chunk

  function DropLastBlank(lines: seq<string>): seq<string> {
    if |lines| > 0 && lines[|lines| - 1] == "" then lines[..|lines| - 1] else lines
  }

  /** The old lines were found at `at`, or else without their last blank line at `retry`. */
  function Choose(at: int, retry: int, chunk: UpdateChunk): Result<Region, Fault> {
    var shorter := DropLastBlank(chunk.oldLines);
    if at >= 0 then Ok(Region(at, |chunk.oldLines|, chunk.newLines))
    else if shorter != chunk.oldLines && retry >= 0 then Ok(Region(retry, |shorter|, DropLastBlank(chunk.newLines)))
    else Err(OldLinesNotFound)
  }

  function LocateOld(lines: seq<string>, cursor: nat, chunk: UpdateChunk): (r: Result<Region, Fault>)
    ensures cursor <= |lines| && r.Ok? ==> r.value.at + r.value.len <= |lines|
  {
    Choose(Seek(lines, chunk.oldLines, cursor, chunk.isEndOfFile),
           Seek(lines, DropLastBlank(chunk.oldLines), cursor, chunk.isEndOfFile),
           chunk)
  }

  type Finder = nat -> Result<Region, Fault>

  function OldFinder(lines: seq<string>, chunk: UpdateChunk): Finder {
    (cursor: nat) => LocateOld(lines, cursor, chunk)
  }

  function Anchor(lines: seq<string>, cursor: nat, context: string): (r: Result<nat, Fault>)
    ensures cursor <= |lines| && r.Ok? ==> cursor <= r.value <= |lines|
  {
    if context == "" then Ok(cursor)
    else
      var at := Seek(lines, [context], cursor, false);
      if at < 0 then Err(ContextNotFound) else Ok(at + 1)
  }

  function Splice(lines: seq<string>, r: Region): seq<string>
    requires r.at + r.len <= |lines|
  {
    lines[..r.at] + r.news + lines[r.at + r.len..]
  }

  // ---------------------------------------------------------------- a chunk sees only the lines behind the cursor

  function Shift(r: Result<Region, Fault>, offset: nat): Result<Region, Fault> {
    if r.Ok? then Ok(r.value.(at := offset + r.value.at)) else r
  }

  lemma AnchoredSeekShift(pre: seq<string>, tail: seq<string>, anchor: nat, pattern: seq<string>, eof: bool)
    requires anchor <= |tail|
    requires eof ==> |pattern| <= |tail|
    ensures Seek(pre + tail, pattern, |pre| + anchor, eof) == ShiftIndex(Seek(tail, pattern, anchor, eof), |pre|)
  {
    if eof {
      SeekShift(pre, tail, pattern, eof);
    } else {
      var pre', tail' := pre + tail[..anchor], tail[anchor..];
      assert tail == tail[..anchor] + tail';
      assert pre + tail == pre' + tail';
      SeekShift(tail[..anchor], tail', pattern, eof);
      SeekShift(pre', tail', pattern, eof);
    }
  }

  lemma ChooseShift(at: int, retry: int, chunk: UpdateChunk, offset: nat)
    ensures Choose(ShiftIndex(at, offset), ShiftIndex(retry, offset), chunk) == Shift(Choose(at, retry, chunk), offset)
  {
  }

  lemma LocateOldShift(pre: seq<string>, tail: seq<string>, anchor: nat, chunk: UpdateChunk)
    requires anchor <= |tail|
    requires chunk.isEndOfFile ==> |chunk.oldLines| <= |tail|
    ensures OldFinder(pre + tail, chunk)(|pre| + anchor) == Shift(OldFinder(tail, chunk)(anchor), |pre|)
  {
    var full, shorter, eof := chunk.oldLines, DropLastBlank(chunk.oldLines), chunk.isEndOfFile;
    AnchoredSeekShift(pre, tail, anchor, full, eof);
    AnchoredSeekShift(pre, tail, anchor, shorter, eof);
    ChooseShift(Seek(tail, full, anchor, eof), Seek(tail, shorter, anchor, eof), chunk, |pre|);
  }

  function ShiftAnchor(anchor: Result<nat, Fault>, offset: nat): Result<nat, Fault> {
    if anchor.Ok? then Ok(offset + anchor.value) else anchor
  }

  lemma AnchorShift(pre: seq<string>, tail: seq<string>, context: string)
    ensures Anchor(pre + tail, |pre|, context) == ShiftAnchor(Anchor(tail, 0, context), |pre|)
    ensures Anchor(tail, 0, context).Ok? ==> Anchor(tail, 0, context).value <= |tail|
  {
    if context != "" {
      SeekShift(pre, tail, [context], false);
    }
  }

  /** A chunk without old lines inserts at the anchor; any other is found from there. */
  function Behind(find: Finder, anchor: Result<nat, Fault>, chunk: UpdateChunk): Result<Region, Fault> {
    match anchor
    case Err(fault) => Err(fault)
    case Ok(at) => if |chunk.oldLines| == 0 then Ok(Region(at, 0, chunk.newLines)) else find(at)
  }

  function LocateBehind(lines: seq<string>, anchor: Result<nat, Fault>, chunk: UpdateChunk): (r: Result<Region, Fault>)
    ensures anchor.Ok? && anchor.value <= |lines| && r.Ok? ==> r.value.at + r.value.len <= |lines|
    ensures anchor.Err? ==> r.Err?
  {
    Behind(OldFinder(lines, chunk), anchor, chunk)
  }

  /** Where a chunk acts on `lines` when everything before `cursor` is settled. */
  function Locate(lines: seq<string>, cursor: nat, chunk: UpdateChunk): (r: Result<Region, Fault>)
    ensures cursor <= |lines| && r.Ok? ==> r.value.at + r.value.len <= |lines|
  {
    LocateBehind(lines, Anchor(lines, cursor, chunk.changeContext), chunk)
  }

  /** Moving the settled part about only moves the region found, unless an end-of-file chunk is longer than the rest. */
  lemma LocateShift(pre: seq<string>, tail: seq<string>, chunk: UpdateChunk)
    requires chunk.isEndOfFile ==> |chunk.oldLines| <= |tail|
    ensures Locate(pre + tail, |pre|, chunk) == Shift(Locate(tail, 0, chunk), |pre|)
  {
    AnchorShift(pre, tail, chunk.changeContext);
    LocateBehindShift(pre, tail, Anchor(tail, 0, chunk.changeContext), chunk);
  }

  lemma BehindShift(find: Finder, there: Finder, anchor: Result<nat, Fault>, chunk: UpdateChunk, offset: nat)
    requires anchor.Ok? && |chunk.oldLines| > 0 ==> there(offset + anchor.value) == Shift(find(anchor.value), offset)
    ensures Behind(there, ShiftAnchor(anchor, offset), chunk) == Shift(Behind(find, anchor, chunk), offset)
  {
  }

  lemma LocateBehindShift(pre: seq<string>, tail: seq<string>, anchor: Result<nat, Fault>, chunk: UpdateChunk)
    requires anchor.Ok? ==> anchor.value <= |tail|
    requires chunk.isEndOfFile ==> |chunk.oldLines| <= |tail|
    ensures LocateBehind(pre + tail, ShiftAnchor(anchor, |pre|), chunk) == Shift(LocateBehind(tail, anchor, chunk), |pre|)
  {
    if anchor.Ok? && |chunk.oldLines| > 0 {
      LocateOldShift(pre, tail, anchor.value, chunk);
    }
    BehindShift(OldFinder(tail, chunk), OldFinder(pre + tail, chunk), anchor, chunk, |pre|);
  }

  // ---------------------------------------------------------------- two readings of a chunk list

  /** How a chunk is located: Locate, or anything that stays in bounds as it does. */
  type Locator = (seq<string>, nat, UpdateChunk) -> Result<Region, Fault>

  ghost predicate InBounds(locate: Locator) {
    forall lines, cursor: nat, chunk {:trigger locate(lines, cursor, chunk)} ::
      var r := locate(lines, cursor, chunk);
      cursor <= |lines| && r.Ok? ==> r.value.at + r.value.len <= |lines|
  }

  /** The program: every chunk is located in the lines as the earlier chunks left them. */
  function InPlace(locate: Locator, lines: seq<string>, cursor: nat, chunks: seq<UpdateChunk>, index: nat)
    : Result<seq<string>, ApplyError>
    requires InBounds(locate) && cursor <= |lines|
    decreases |chunks|
  {
    if |chunks| == 0 then Ok(lines)
    else
      match locate(lines, cursor, chunks[0])
      case Err(fault) => Err(ApplyError(index, fault))
      case Ok(r) => InPlace(locate, Splice(lines, r), r.at + |r.news|, chunks[1..], index + 1)
  }

  /** The claim, phase one: every chunk is located in the original lines. */
  function Regions(locate: Locator, orig: seq<string>, cursor: nat, chunks: seq<UpdateChunk>, index: nat)
    : Result<seq<Region>, ApplyError>
    requires InBounds(locate) && cursor <= |orig|
    decreases |chunks|
  {
    if |chunks| == 0 then Ok([])
    else
      match locate(orig, cursor, chunks[0])
      case Err(fault) => Err(ApplyError(index, fault))
      case Ok(r) =>
        match Regions(locate, orig, r.at + r.len, chunks[1..], index + 1)
        case Err(e) => Err(e)
        case Ok(rest) => Ok([r] + rest)
  }

  /** The regions lie in order and apart, between `from` and `to`. */
  predicate OrderedApart(regions: seq<Region>, from: nat, to: nat) {
    if |regions| == 0 then from <= to
    else from <= regions[0].at && OrderedApart(regions[1..], regions[0].at + regions[0].len, to)
  }

  lemma {:induction false} OrderedApartBounds(regions: seq<Region>, from: nat, to: nat)
    requires OrderedApart(regions, from, to)
    ensures from <= to
    ensures |regions| > 0 ==> regions[0].at + regions[0].len <= to
  {
    if |regions| > 0 {
      OrderedApartBounds(regions[1..], regions[0].at + regions[0].len, to);
    }
  }

  /** The claim, phase two: all regions are replaced at once. */
  function ReplaceAll(orig: seq<string>, from: nat, regions: seq<Region>): seq<string>
    requires OrderedApart(regions, from, |orig|)
    decreases |regions|
  {
    OrderedApartBounds(regions, from, |orig|);
    if |regions| == 0 then orig[from..]
    else
      var r := regions[0];
      orig[from..r.at] + r.news + ReplaceAll(orig, r.at + r.len, regions[1..])
  }

  /** The result of the two phases, behind lines that are already settled. */
  function Assemble(settled: seq<string>, orig: seq<string>, from: nat, regions: Result<seq<Region>, ApplyError>)
    : Result<seq<string>, ApplyError>
    requires regions.Ok? ==> OrderedApart(regions.value, from, |orig|)
  {
    match regions
    case Err(e) => Err(e)
    case Ok(rs) => Ok(settled + ReplaceAll(orig, from, rs))
  }

  // ---------------------------------------------------------------- they agree

  predicate Room(tail: seq<string>, chunk: UpdateChunk) {
    chunk.isEndOfFile ==> |chunk.oldLines| <= |tail|
  }

  /** Whenever a chunk has room, only what stands behind the cursor matters to `locate`. */
  ghost predicate SeesOnlyTail(locate: Locator) {
    forall pre, tail, chunk :: Room(tail, chunk) ==> MovesWith(locate, pre, tail, chunk)
  }

  ghost predicate MovesWith(locate: Locator, pre: seq<string>, tail: seq<string>, chunk: UpdateChunk) {
    locate(pre + tail, |pre|, chunk) == Shift(locate(tail, 0, chunk), |pre|)
  }

  /** No end-of-file chunk looks left of the cursor: its old lines fit behind it. */
  predicate EofLeavesRoom(locate: Locator, orig: seq<string>, cursor: nat, chunks: seq<UpdateChunk>)
    requires InBounds(locate) && cursor <= |orig|
    decreases |chunks|
  {
    if |chunks| == 0 then true
    else
      var r := locate(orig, cursor, chunks[0]);
      && (chunks[0].isEndOfFile ==> cursor + |chunks[0].oldLines| <= |orig|)
      && (r.Ok? ==> EofLeavesRoom(locate, orig, r.value.at + r.value.len, chunks[1..]))
  }

  lemma {:induction false} NoEofLeavesRoom(locate: Locator, orig: seq<string>, cursor: nat, chunks: seq<UpdateChunk>)
    requires InBounds(locate) && cursor <= |orig|
    requires forall k :: 0 <= k < |chunks| ==> !chunks[k].isEndOfFile
    ensures EofLeavesRoom(locate, orig, cursor, chunks)
    decreases |chunks|
  {
    if |chunks| > 0 {
      var r := locate(orig, cursor, chunks[0]);
      if r.Ok? {
        NoEofLeavesRoom(locate, orig, r.value.at + r.value.len, chunks[1..]);
      }
    }
  }

  lemma LocateFromTail(locate: Locator, orig: seq<string>, cursor: nat, chunk: UpdateChunk)
    requires SeesOnlyTail(locate) && cursor <= |orig| && Room(orig[cursor..], chunk)
    ensures locate(orig, cursor, chunk) == Shift(locate(orig[cursor..], 0, chunk), cursor)
  {
    assert MovesWith(locate, orig[..cursor], orig[cursor..], chunk);
    assert orig == orig[..cursor] + orig[cursor..];
  }

  /** With `settled` written and `orig[cursor..]` still untouched, the loop goes on exactly as the two phases would. */
  lemma {:induction false} InPlaceFollowsPhases(locate: Locator, settled: seq<string>, orig: seq<string>, cursor: nat,
                                                chunks: seq<UpdateChunk>, index: nat)
    requires InBounds(locate) && SeesOnlyTail(locate)
    requires cursor <= |orig| && EofLeavesRoom(locate, orig, cursor, chunks)
    ensures var rs := Regions(locate, orig, cursor, chunks, index);
            && (rs.Ok? ==> OrderedApart(rs.value, cursor, |orig|))
            && InPlace(locate, settled + orig[cursor..], |settled|, chunks, index) == Assemble(settled, orig, cursor, rs)
    decreases |chunks|
  {
    if |chunks| > 0 {
      var tail := orig[cursor..];
      assert Room(tail, chunks[0]);
      LocateFromTail(locate, orig, cursor, chunks[0]);
      assert MovesWith(locate, settled, tail, chunks[0]);
      var l := locate(tail, 0, chunks[0]);
      if l.Ok? {
        var r := l.value;
        var settled' := settled + tail[..r.at] + r.news;
        var cursor' := cursor + r.at + r.len;
        InPlaceStep(locate, settled, tail, r, chunks, index);
        assert tail[r.at + r.len..] == orig[cursor'..];
        InPlaceFollowsPhases(locate, settled', orig, cursor', chunks[1..], index + 1);
        var rest := Regions(locate, orig, cursor', chunks[1..], index + 1);
        PrependPhases(settled, orig, cursor, r, rest);
      }
    }
  }

  lemma TakeBehind(s: seq<string>, from: nat, n: nat)
    requires from + n <= |s|
    ensures s[from..from + n] == s[from..][..n]
  {
  }

  lemma PrependPhases(settled: seq<string>, orig: seq<string>, cursor: nat, r: Region, rest: Result<seq<Region>, ApplyError>)
    requires cursor + r.at + r.len <= |orig|
    requires rest.Ok? ==> OrderedApart(rest.value, cursor + r.at + r.len, |orig|)
    ensures var moved := r.(at := cursor + r.at);
            && (rest.Ok? ==> OrderedApart([moved] + rest.value, cursor, |orig|))
            && Assemble(settled + orig[cursor..][..r.at] + r.news, orig, cursor + r.at + r.len, rest)
               == Assemble(settled, orig, cursor, if rest.Ok? then Ok([moved] + rest.value) else rest)
  {
    TakeBehind(orig, cursor, r.at);
    if rest.Ok? {
      PrependRegion(settled, orig, cursor, r.(at := cursor + r.at), rest.value);
    }
  }

  lemma InPlaceStep(locate: Locator, settled: seq<string>, tail: seq<string>, r: Region, chunks: seq<UpdateChunk>, index: nat)
    requires InBounds(locate) && |chunks| > 0
    requires locate(tail, 0, chunks[0]) == Ok(r) && MovesWith(locate, settled, tail, chunks[0])
    ensures r.at + r.len <= |tail|
    ensures var settled' := settled + tail[..r.at] + r.news;
            InPlace(locate, settled + tail, |settled|, chunks, index)
            == InPlace(locate, settled' + tail[r.at + r.len..], |settled'|, chunks[1..], index + 1)
  {
    assert locate(tail, 0, chunks[0]).value.at + r.len <= |tail|;
    var moved := r.(at := |settled| + r.at);
    assert Splice(settled + tail, moved) == settled + tail[..r.at] + r.news + tail[r.at + r.len..];
  }

  lemma ReplaceFirst(orig: seq<string>, cursor: nat, r: Region, rest: seq<Region>)
    requires cursor <= r.at && OrderedApart(rest, r.at + r.len, |orig|)
    ensures r.at + r.len <= |orig| && OrderedApart([r] + rest, cursor, |orig|)
    ensures ReplaceAll(orig, cursor, [r] + rest) == orig[cursor..r.at] + r.news + ReplaceAll(orig, r.at + r.len, rest)
  {
    assert ([r] + rest)[0] == r && ([r] + rest)[1..] == rest;
    OrderedApartBounds(rest, r.at + r.len, |orig|);
  }

  lemma PrependRegion(settled: seq<string>, orig: seq<string>, cursor: nat, r: Region, rest: seq<Region>)
    requires cursor <= r.at && OrderedApart(rest, r.at + r.len, |orig|)
    ensures r.at + r.len <= |orig| && OrderedApart([r] + rest, cursor, |orig|)
    ensures settled + orig[cursor..r.at] + r.news + ReplaceAll(orig, r.at + r.len, rest)
            == settled + ReplaceAll(orig, cursor, [r] + rest)
  {
    ReplaceFirst(orig, cursor, r, rest);
    var gap, more := orig[cursor..r.at], ReplaceAll(orig, r.at + r.len, rest);
    Assoc(settled, gap + r.news, more);
    Assoc(settled, gap, r.news);
  }

  lemma LocateSeesOnlyTail()
    ensures InBounds(Locate) && SeesOnlyTail(Locate)
  {
    forall pre, tail, chunk | Room(tail, chunk)
      ensures MovesWith(Locate, pre, tail, chunk)
    {
      LocateShift(pre, tail, chunk);
    }
  }

  /** The splice loop equals "find every region in the original lines, then replace them all at once":
      same failures, same result, regions in order and apart. */
  lemma InPlaceIsTwoPhase(orig: seq<string>, chunks: seq<UpdateChunk>)
    requires InBounds(Locate) && EofLeavesRoom(Locate, orig, 0, chunks)
    ensures var rs := Regions(Locate, orig, 0, chunks, 1);
            && (rs.Ok? ==> OrderedApart(rs.value, 0, |orig|))
            && InPlace(Locate, orig, 0, chunks, 1) == Assemble([], orig, 0, rs)
  {
    LocateSeesOnlyTail();
    assert [] + orig[0..] == orig;
    InPlaceFollowsPhases(Locate, [], orig, 0, chunks, 1);
  }

  /** In particular for every chunk list without an end-of-file mark. */
  lemma InPlaceIsTwoPhaseWithoutEof(orig: seq<string>, chunks: seq<UpdateChunk>)
    requires forall k :: 0 <= k < |chunks| ==> !chunks[k].isEndOfFile
    ensures InBounds(Locate)
    ensures var rs := Regions(Locate, orig, 0, chunks, 1);
            && (rs.Ok? ==> OrderedApart(rs.value, 0, |orig|))
            && InPlace(Locate, orig, 0, chunks, 1) == Assemble([], orig, 0, rs)
  {
    LocateSeesOnlyTail();
    NoEofLeavesRoom(Locate, orig, 0, chunks);
    InPlaceIsTwoPhase(orig, chunks);
  }

  /** Nothing left of the cursor ever changes again. */
  lemma SettledStays(lines: seq<string>, cursor: nat, chunks: seq<UpdateChunk>, index: nat)
    requires InBounds(Locate)
    requires cursor <= |lines| && EofLeavesRoom(Locate, lines, cursor, chunks)
    requires InPlace(Locate, lines, cursor, chunks, index).Ok?
    ensures lines[..cursor] <= InPlace(Locate, lines, cursor, chunks, index).value
  {
    LocateSeesOnlyTail();
    assert lines[..cursor] + lines[cursor..] == lines;
    InPlaceFollowsPhases(Locate, lines[..cursor], lines, cursor, chunks, index);
  }

  // ---------------------------------------------------------------- end-of-file chunks

  /** An end-of-file chunk with old lines always lands on the last lines, whatever the cursor: it lies behind the cursor
      exactly when the lines it replaces fit there. */
  lemma EofLandsAtTheEnd(lines: seq<string>, cursor: nat, chunk: UpdateChunk)
    requires chunk.isEndOfFile && cursor <= |lines|
    requires Locate(lines, cursor, chunk).Ok? && Locate(lines, cursor, chunk).value.len > 0
    ensures var r := Locate(lines, cursor, chunk).value;
            && r.at == |lines| - r.len
            && (cursor <= r.at <==> cursor + r.len <= |lines|)
  {
  }

  /** Without room the claim can be false: the second chunk below lands on the line the first has written. */
  lemma EofBreaksTheClaim()
    ensures InBounds(Locate)
    ensures var chunks := [UpdateChunk("", ["a"], ["b"], false), UpdateChunk("", ["b"], ["c"], true)];
            && InPlace(Locate, ["a"], 0, chunks, 1) == Ok(["c"])
            && Regions(Locate, ["a"], 0, chunks, 1) == Err(ApplyError(2, OldLinesNotFound))
            && !EofLeavesRoom(Locate, ["a"], 0, chunks)
  {
    LocateSeesOnlyTail();
    var first, second := UpdateChunk("", ["a"], ["b"], false), UpdateChunk("", ["b"], ["c"], true);
    var chunks := [first, second];
    assert chunks[1..] == [second] && [second][1..] == [];
    assert MatchesAt(Exact, ["a"], ["a"], 0) && MatchesAt(Exact, ["b"], ["b"], 0);
    assert Locate(["a"], 0, first) == Ok(Region(0, 1, ["b"]));
    assert Locate(["b"], 1, second) == Ok(Region(0, 1, ["c"]));
    assert Splice(["a"], Region(0, 1, ["b"])) == ["b"];
    assert Splice(["b"], Region(0, 1, ["c"])) == ["c"];
    OneLetterLines();
    SeekMeaning(["a"], ["b"], 1, true);
    assert forall i :: 0 <= i <= 0 ==> !Trim(["a"][i], ["b"][0]);
    assert Locate(["a"], 1, second) == Err(OldLinesNotFound);
  }

  lemma OneLetterLines()
    ensures !Trim("a", "b")
  {
    TrimmedIsFixed("a");
    TrimmedIsFixed("b");
  }

  // ---------------------------------------------------------------- chunks in their own place

  /** Where a chunk is meant to act: behind a gap, and, with a context line, behind that line and some lines between. */
  datatype Place = Place(gap: seq<string>, between: seq<string>)

  /** The lines from the end of the chunk before to the old lines of this one. */
  function Lead(p: Place, c: UpdateChunk): seq<string> {
    if c.changeContext == "" then p.gap else p.gap + [c.changeContext] + p.between
  }

  function Leads(places: seq<Place>, chunks: seq<UpdateChunk>): (r: seq<seq<string>>)
    requires |places| == |chunks|
    ensures |r| == |places|
  {
    if |places| == 0 then [] else [Lead(places[0], chunks[0])] + Leads(places[1..], chunks[1..])
  }

  /** lead, old lines, lead, old lines, ..., last lines */
  function Before(leads: seq<seq<string>>, chunks: seq<UpdateChunk>, last: seq<string>): seq<string>
    requires |leads| == |chunks|
  {
    if |chunks| == 0 then last else leads[0] + chunks[0].oldLines + Before(leads[1..], chunks[1..], last)
  }

  /** lead, new lines, lead, new lines, ..., last lines */
  function After(leads: seq<seq<string>>, chunks: seq<UpdateChunk>, last: seq<string>): seq<string>
    requires |leads| == |chunks|
  {
    if |chunks| == 0 then last else leads[0] + chunks[0].newLines + After(leads[1..], chunks[1..], last)
  }

  /** In front of `rest` the place is the chunk's own: the context line does not occur in the gap; the old lines do not occur
      earlier, or are the last lines and marked so; a chunk without old lines stands directly behind its context line, or
      behind the chunk before. */
  ghost predicate IsOwn(p: Place, c: UpdateChunk, rest: seq<string>) {
    var behind := if c.changeContext == "" then p.gap else p.between;
    && (c.changeContext != "" ==> c.changeContext !in p.gap)
    && (if |c.oldLines| == 0 then behind == []
        else if c.isEndOfFile then rest == []
        else NoneIn(Exact, behind + c.oldLines + rest, c.oldLines, 0, |behind|))
  }

  ghost predicate InOwnPlaces(places: seq<Place>, chunks: seq<UpdateChunk>, last: seq<string>)
    requires |places| == |chunks|
  {
    |chunks| == 0 || (
      && IsOwn(places[0], chunks[0], Before(Leads(places[1..], chunks[1..]), chunks[1..], last))
      && InOwnPlaces(places[1..], chunks[1..], last))
  }

  lemma {:induction false} FirstAtOwnPlace(like: Likeness, lines: seq<string>, pattern: seq<string>, from: nat, at: nat)
    requires from <= at && MatchesAt(like, lines, pattern, at) && NoneIn(like, lines, pattern, from, at)
    ensures FirstAt(like, lines, pattern, from) == at
    decreases at - from
  {
    if from < at {
      FirstAtOwnPlace(like, lines, pattern, from + 1, at);
    }
  }

  /** The first exact match is what is sought. */
  lemma SeekOwnPlace(front: seq<string>, pattern: seq<string>, rest: seq<string>, eof: bool)
    requires |pattern| > 0
    requires if eof then rest == [] else NoneIn(Exact, front + pattern + rest, pattern, 0, |front|)
    ensures Seek(front + pattern + rest, pattern, 0, eof) == |front|
  {
    var lines := front + pattern + rest;
    assert forall j :: 0 <= j < |pattern| ==> lines[|front| + j] == pattern[j];
    assert MatchesAt(Exact, lines, pattern, |front|);
    FirstAtOwnPlace(Exact, lines, pattern, SearchStart(lines, pattern, 0, eof), |front|);
  }

  lemma AnchorInOwnPlace(gap: seq<string>, context: string, more: seq<string>)
    requires context != "" && context !in gap
    ensures Anchor(gap + [context] + more, 0, context) == Ok(|gap| + 1)
  {
    var lines := gap + [context] + more;
    forall i | 0 <= i < |gap|
      ensures !MatchesAt(Exact, lines, [context], i)
    {
      assert lines[i + 0] == gap[i] != [context][0];
    }
    SeekOwnPlace(gap, [context], more, false);
  }

  lemma LocateOldInOwnPlace(pre: seq<string>, behind: seq<string>, c: UpdateChunk, rest: seq<string>)
    requires |c.oldLines| > 0
    requires if c.isEndOfFile then rest == [] else NoneIn(Exact, behind + c.oldLines + rest, c.oldLines, 0, |behind|)
    ensures LocateOld(pre + (behind + c.oldLines + rest), |pre|, c) == Ok(Region(|pre| + |behind|, |c.oldLines|, c.newLines))
  {
    var tail := behind + c.oldLines + rest;
    SeekOwnPlace(behind, c.oldLines, rest, c.isEndOfFile);
    SeekShift(pre, tail, c.oldLines, c.isEndOfFile);
  }

  lemma LocateInOwnPlace(p: Place, c: UpdateChunk, rest: seq<string>)
    requires IsOwn(p, c, rest)
    ensures Locate(Lead(p, c) + c.oldLines + rest, 0, c) == Ok(Region(|Lead(p, c)|, |c.oldLines|, c.newLines))
  {
    var lines := Lead(p, c) + c.oldLines + rest;
    var pre, behind := if c.changeContext == "" then [] else p.gap + [c.changeContext], if c.changeContext == "" then p.gap else p.between;
    assert lines == pre + (behind + c.oldLines + rest);
    if c.changeContext != "" {
      assert lines == p.gap + [c.changeContext] + (p.between + c.oldLines + rest);
      AnchorInOwnPlace(p.gap, c.changeContext, p.between + c.oldLines + rest);
    }
    assert Anchor(lines, 0, c.changeContext) == Ok(|pre|);
    if |c.oldLines| > 0 {
      LocateOldInOwnPlace(pre, behind, c, rest);
    }
  }

  ghost predicate FoundInOwnPlace(locate: Locator, leads: seq<seq<string>>, chunks: seq<UpdateChunk>, last: seq<string>)
    requires |leads| == |chunks|
  {
    |chunks| == 0 || (
      && locate(Before(leads, chunks, last), 0, chunks[0]) == Ok(Region(|leads[0]|, |chunks[0].oldLines|, chunks[0].newLines))
      && FoundInOwnPlace(locate, leads[1..], chunks[1..], last))
  }

  lemma {:induction false} OwnPlaceIsFound(places: seq<Place>, chunks: seq<UpdateChunk>, last: seq<string>)
    requires |places| == |chunks| && InOwnPlaces(places, chunks, last)
    ensures FoundInOwnPlace(Locate, Leads(places, chunks), chunks, last)
    decreases |chunks|
  {
    if |chunks| > 0 {
      assert Leads(places, chunks)[1..] == Leads(places[1..], chunks[1..]);
      LocateInOwnPlace(places[0], chunks[0], Before(Leads(places[1..], chunks[1..]), chunks[1..], last));
      OwnPlaceIsFound(places[1..], chunks[1..], last);
    }
  }

  lemma FirstInPlace(leads: seq<seq<string>>, chunks: seq<UpdateChunk>, last: seq<string>)
    requires |leads| == |chunks| > 0
    ensures var tail, n := Before(leads, chunks, last), |leads[0]| + |chunks[0].oldLines|;
            n <= |tail| && tail[..|leads[0]|] == leads[0] && tail[n..] == Before(leads[1..], chunks[1..], last)
  {
  }

  /** Chunks in their own places are done, and the loop goes on with `more` behind them. */
  lemma {:induction false} ChunksRewriteBehind(locate: Locator, settled: seq<string>, leads: seq<seq<string>>, chunks: seq<UpdateChunk>,
                                               last: seq<string>, more: seq<UpdateChunk>, index: nat)
    requires InBounds(locate) && SeesOnlyTail(locate)
    requires |leads| == |chunks| && FoundInOwnPlace(locate, leads, chunks, last)
    ensures var done := settled + After(leads, chunks, []);
            InPlace(locate, settled + Before(leads, chunks, last), |settled|, chunks + more, index)
            == InPlace(locate, done + last, |done|, more, index + |chunks|)
    decreases |chunks|
  {
    if |chunks| == 0 {
      assert settled + [] == settled && [] + more == more;
    } else {
      var c, tail := chunks[0], Before(leads, chunks, last);
      var r := Region(|leads[0]|, |c.oldLines|, c.newLines);
      FirstInPlace(leads, chunks, last);
      assert Room(tail, c) && MovesWith(locate, settled, tail, c);
      assert (chunks + more)[0] == c && (chunks + more)[1..] == chunks[1..] + more;
      InPlaceStep(locate, settled, tail, r, chunks + more, index);
      var settled' := settled + leads[0] + c.newLines;
      ChunksRewriteBehind(locate, settled', leads[1..], chunks[1..], last, more, index + 1);
      Assoc(settled, leads[0] + c.newLines, After(leads[1..], chunks[1..], []));
      Assoc(settled, leads[0], c.newLines);
    }
  }

  lemma {:induction false} AfterSplit(leads: seq<seq<string>>, chunks: seq<UpdateChunk>, last: seq<string>)
    requires |leads| == |chunks|
    ensures After(leads, chunks, last) == After(leads, chunks, []) + last
    decreases |chunks|
  {
    if |chunks| == 0 {
      assert [] + last == last;
    } else {
      AfterSplit(leads[1..], chunks[1..], last);
      Assoc(leads[0] + chunks[0].newLines, After(leads[1..], chunks[1..], []), last);
    }
  }

  /** Chunks in their own places turn g1 c1 h1 o1 g2 c2 h2 o2 ... into g1 c1 h1 n1 g2 c2 h2 n2 ..., where a chunk without a
      context line has no c and h, and one without old lines goes in directly behind its context line. */
  lemma ChunksRewrite(places: seq<Place>, chunks: seq<UpdateChunk>, last: seq<string>)
    requires |places| == |chunks| && InOwnPlaces(places, chunks, last)
    ensures InBounds(Locate)
    ensures var leads := Leads(places, chunks);
            InPlace(Locate, Before(leads, chunks, last), 0, chunks, 1) == Ok(After(leads, chunks, last))
  {
    var leads := Leads(places, chunks);
    LocateSeesOnlyTail();
    OwnPlaceIsFound(places, chunks, last);
    ChunksRewriteBehind(Locate, [], leads, chunks, last, [], 1);
    AfterSplit(leads, chunks, last);
    assert [] + Before(leads, chunks, last) == Before(leads, chunks, last);
    assert [] + After(leads, chunks, []) == After(leads, chunks, []) && chunks + [] == chunks;
  }

  /** Behind chunks in their own places a chunk that cannot be placed ends the run, under its own number. */
  lemma FirstFaultIsReported(places: seq<Place>, chunks: seq<UpdateChunk>, last: seq<string>, bad: UpdateChunk, more: seq<UpdateChunk>,
                             fault: Fault)
    requires |places| == |chunks| && InOwnPlaces(places, chunks, last)
    requires Room(last, bad) && Locate(last, 0, bad) == Err(fault)
    ensures InBounds(Locate)
    ensures InPlace(Locate, Before(Leads(places, chunks), chunks, last), 0, chunks + ([bad] + more), 1)
         == Err(ApplyError(|chunks| + 1, fault))
  {
    LocateSeesOnlyTail();
    OwnPlaceIsFound(places, chunks, last);
    FaultBehindChunks(Locate, Leads(places, chunks), chunks, last, bad, more, fault);
  }

  lemma FaultBehindChunks(locate: Locator, leads: seq<seq<string>>, chunks: seq<UpdateChunk>, last: seq<string>, bad: UpdateChunk,
                          more: seq<UpdateChunk>, fault: Fault)
    requires InBounds(locate) && SeesOnlyTail(locate)
    requires |leads| == |chunks| && FoundInOwnPlace(locate, leads, chunks, last)
    requires Room(last, bad) && locate(last, 0, bad) == Err(fault)
    ensures InPlace(locate, Before(leads, chunks, last), 0, chunks + ([bad] + more), 1) == Err(ApplyError(|chunks| + 1, fault))
  {
    ChunksRewriteBehind(locate, [], leads, chunks, last, [bad] + more, 1);
    assert [] + Before(leads, chunks, last) == Before(leads, chunks, last);
    FaultBehind(locate, [] + After(leads, chunks, []), last, bad, more, |chunks| + 1, fault);
  }

  lemma FaultBehind(locate: Locator, done: seq<string>, last: seq<string>, bad: UpdateChunk, more: seq<UpdateChunk>, index: nat,
                    fault: Fault)
    requires InBounds(locate) && SeesOnlyTail(locate) && Room(last, bad) && locate(last, 0, bad) == Err(fault)
    ensures InPlace(locate, done + last, |done|, [bad] + more, index) == Err(ApplyError(index, fault))
  {
    assert MovesWith(locate, done, last, bad);
    assert ([bad] + more)[0] == bad;
  }

  function Swap(c: UpdateChunk): UpdateChunk {
    UpdateChunk(c.changeContext, c.newLines, c.oldLines, c.isEndOfFile)
  }

  function SwapAll(chunks: seq<UpdateChunk>): (r: seq<UpdateChunk>)
    ensures |r| == |chunks|
  {
    if |chunks| == 0 then [] else [Swap(chunks[0])] + SwapAll(chunks[1..])
  }

  lemma {:induction false} SwapTurnsRound(places: seq<Place>, chunks: seq<UpdateChunk>, last: seq<string>)
    requires |places| == |chunks|
    ensures var leads := Leads(places, chunks);
            && Leads(places, SwapAll(chunks)) == leads
            && Before(leads, SwapAll(chunks), last) == After(leads, chunks, last)
            && After(leads, SwapAll(chunks), last) == Before(leads, chunks, last)
    decreases |chunks|
  {
    if |chunks| > 0 {
      assert SwapAll(chunks)[1..] == SwapAll(chunks[1..]);
      assert Leads(places, chunks)[1..] == Leads(places[1..], chunks[1..]);
      SwapTurnsRound(places[1..], chunks[1..], last);
    }
  }

  /** Under the same condition on the result, the swapped chunks restore the original lines. */
  lemma SwappedChunksUndo(places: seq<Place>, chunks: seq<UpdateChunk>, last: seq<string>)
    requires |places| == |chunks|
    requires InOwnPlaces(places, chunks, last) && InOwnPlaces(places, SwapAll(chunks), last)
    ensures InBounds(Locate)
    ensures var original := Before(Leads(places, chunks), chunks, last);
            var patched := InPlace(Locate, original, 0, chunks, 1);
            patched.Ok? && InPlace(Locate, patched.value, 0, SwapAll(chunks), 1) == Ok(original)
  {
    ChunksRewrite(places, chunks, last);
    ChunksRewrite(places, SwapAll(chunks), last);
    SwapTurnsRound(places, chunks, last);
  }

  // ---------------------------------------------------------------- whole files

  function SplitLines(s: string): seq<string> {
    if s == "" then []
    else if HasSuffix(s, "\n") then Split(s[..|s| - 1])
    else Split(s)
  }

  function Rejoin(hadTrailingNewline: bool, lines: seq<string>): string {
    var out := Join(lines);
    if hadTrailingNewline && !HasSuffix(out, "\n") then out + "\n" else out
  }

  function Derive(original: string, chunks: seq<UpdateChunk>): Result<string, ApplyError> {
    LocateSeesOnlyTail();
    match InPlace(Locate, SplitLines(original), 0, chunks, 1)
    case Err(e) => Err(e)
    case Ok(lines) => Ok(Rejoin(HasSuffix(original, "\n"), lines))
  }

  /** Steps 1 to 3 of the loop body: the context line, then the old lines, then the old lines without their last blank one. */
  method LocateChunk(lines: seq<string>, cursor: nat, chunk: UpdateChunk) returns (r: Result<Region, Fault>)
    ensures r == Locate(lines, cursor, chunk)
  {
    var anchor := cursor;
    if chunk.changeContext != "" {
      var at := SeekSequence(lines, [chunk.changeContext], cursor, false);
      if at < 0 {
        return Err(ContextNotFound);
      }
      anchor := at + 1;
    }
    if |chunk.oldLines| == 0 {
      return Ok(Region(anchor, 0, chunk.newLines));
    }
    r := LocateOldLines(lines, anchor, chunk);
  }

  method LocateOldLines(lines: seq<string>, cursor: nat, chunk: UpdateChunk) returns (r: Result<Region, Fault>)
    requires |chunk.oldLines| > 0
    ensures r == LocateOld(lines, cursor, chunk)
  {
    var pattern, segment := chunk.oldLines, chunk.newLines;
    var at := SeekSequence(lines, pattern, cursor, chunk.isEndOfFile);
    if at < 0 && |pattern| > 0 && pattern[|pattern| - 1] == "" {
      var trimPattern, trimNew := pattern[..|pattern| - 1], segment;
      if |trimNew| > 0 && trimNew[|trimNew| - 1] == "" {
        trimNew := trimNew[..|trimNew| - 1];
      }
      at := SeekSequence(lines, trimPattern, cursor, chunk.isEndOfFile);
      if at >= 0 {
        pattern, segment := trimPattern, trimNew;
      }
    }
    r := if at < 0 then Err(OldLinesNotFound) else Ok(Region(at, |pattern|, segment));
  }

  lemma InPlaceUnfolds(locate: Locator, lines: seq<string>, cursor: nat, chunks: seq<UpdateChunk>, i: nat)
    requires InBounds(locate) && cursor <= |lines| && i < |chunks|
    ensures var r := locate(lines, cursor, chunks[i]);
            && (r.Err? ==> InPlace(locate, lines, cursor, chunks[i..], i + 1) == Err(ApplyError(i + 1, r.error)))
            && (r.Ok? ==>
                  && r.value.at + r.value.len <= |lines|
                  && InPlace(locate, lines, cursor, chunks[i..], i + 1) ==
                     InPlace(locate, Splice(lines, r.value), r.value.at + |r.value.news|, chunks[i + 1..], i + 2))
  {
    assert chunks[i..][0] == chunks[i] && chunks[i..][1..] == chunks[i + 1..];
  }

  ghost predicate Names(locate: Locator) {
    forall lines, cursor: nat, chunk {:trigger Locate(lines, cursor, chunk)} ::
      locate(lines, cursor, chunk) == Locate(lines, cursor, chunk)
  }

  method LocateAs(lines: seq<string>, cursor: nat, chunk: UpdateChunk, ghost locate: Locator) returns (r: Result<Region, Fault>)
    requires Names(locate)
    ensures r == locate(lines, cursor, chunk)
  {
    r := LocateChunk(lines, cursor, chunk);
  }

  /** The loop itself; `locate` only names Locate, so that the proof need not look inside it. */
  method SpliceChunks(original: seq<string>, chunks: seq<UpdateChunk>, ghost locate: Locator)
    returns (r: Result<seq<string>, ApplyError>)
    requires InBounds(locate) && Names(locate)
    ensures r == InPlace(locate, original, 0, chunks, 1)
  {
    var lines, cursor: nat := original, 0;
    assert chunks[0..] == chunks;
    for i := 0 to |chunks|
      invariant cursor <= |lines|
      invariant InPlace(locate, original, 0, chunks, 1) == InPlace(locate, lines, cursor, chunks[i..], i + 1)
    {
      var found := LocateAs(lines, cursor, chunks[i], locate);
      InPlaceUnfolds(locate, lines, cursor, chunks, i);
      match found {
        case Err(fault) =>
          return Err(ApplyError(i + 1, fault));
        case Ok(region) =>
          lines := lines[..region.at] + region.news + lines[region.at + region.len..];
          cursor := region.at + |region.news|;
      }
    }
    r := Ok(lines);
  }

  method DeriveNewContents(original: string, chunks: seq<UpdateChunk>) returns (r: Result<string, ApplyError>)
    ensures r == Derive(original, chunks)
  {
    LocateSeesOnlyTail();
    var hadTrailingNewline := HasSuffix(original, "\n");
    var spliced := SpliceChunks(SplitLines(original), chunks, Locate);
    match spliced {
      case Err(e) =>
        return Err(e);
      case Ok(lines) =>
        return Ok(Rejoin(hadTrailingNewline, lines));
    }
  }

  /** The text of a file with the given lines. */
  function FileText(lines: seq<string>, trailingNewline: bool): string {
    Join(lines) + if trailingNewline then "\n" else ""
  }

  /** Splitting forgets nothing, provided the file has a last line to speak of. */
  lemma SplitLinesOfFileText(lines: seq<string>, trailingNewline: bool)
    requires |lines| > 0 && OneLines(lines)
    requires trailingNewline || lines[|lines| - 1] != ""
    ensures SplitLines(FileText(lines, trailingNewline)) == lines
    ensures HasSuffix(FileText(lines, trailingNewline), "\n") == trailingNewline
  {
    var text := FileText(lines, trailingNewline);
    SplitOfJoin(lines);
    JoinEndsInNewline(lines);
    if trailingNewline {
      assert text[..|text| - 1] == Join(lines);
      LastChar(text, '\n');
    } else {
      assert text == Join(lines);
    }
  }

  /** Rejoining keeps the final newline, except exactly when the file had one and now ends in a blank line:
      then the blank line is lost. */
  lemma RejoinIsFileText(lines: seq<string>, trailingNewline: bool)
    requires OneLines(lines)
    ensures Rejoin(trailingNewline, lines) == FileText(lines, trailingNewline)
            <==> !(trailingNewline && |lines| >= 2 && lines[|lines| - 1] == "")
  {
    JoinEndsInNewline(lines);
    assert Join(lines) + "" == Join(lines);
  }

  /** A patch with no chunks leaves a file as it is, except exactly when the file ends in a blank line. */
  lemma EmptyPatchIsIdentity(original: string)
    ensures Derive(original, []) == Ok(original) <==> !HasSuffix(original, "\n\n")
  {
    LocateSeesOnlyTail();
    RejoinOfSplitLines(original);
  }

  lemma RejoinOfSplitLines(original: string)
    ensures Rejoin(HasSuffix(original, "\n"), SplitLines(original)) == original <==> !HasSuffix(original, "\n\n")
  {
    LastChar(original, '\n');
    if original != "" {
      var last := |original| - 1;
      var body := if HasSuffix(original, "\n") then original[..last] else original;
      JoinOfSplit(body);
      assert SplitLines(original) == Split(body);
      LastChar(body, '\n');
      assert HasSuffix(original, "\n") ==> original == body + "\n";
      if last >= 1 {
        assert original[last - 1..] == [original[last - 1], original[last]];
      }
    }
  }

  /** Lines that a file can have, with or without a final newline. */
  predicate AreFileLines(lines: seq<string>, trailingNewline: bool) {
    OneLines(lines) && |lines| > 0 && (trailingNewline || lines[|lines| - 1] != "")
  }

  /** Lines that rejoining keeps. */
  predicate AreKept(lines: seq<string>, trailingNewline: bool) {
    OneLines(lines) && !(trailingNewline && |lines| >= 2 && lines[|lines| - 1] == "")
  }

  /** From the lines of a file to its text. */
  lemma DeriveOnFileText(before: seq<string>, after: seq<string>, chunks: seq<UpdateChunk>, trailingNewline: bool)
    requires InBounds(Locate) && InPlace(Locate, before, 0, chunks, 1) == Ok(after)
    requires AreFileLines(before, trailingNewline) && AreKept(after, trailingNewline)
    ensures Derive(FileText(before, trailingNewline), chunks) == Ok(FileText(after, trailingNewline))
  {
    SplitLinesOfFileText(before, trailingNewline);
    RejoinIsFileText(after, trailingNewline);
  }

  /** The rewriting law on whole files. */
  lemma FileRewrite(places: seq<Place>, chunks: seq<UpdateChunk>, last: seq<string>, before: seq<string>, after: seq<string>,
                    trailingNewline: bool)
    requires |places| == |chunks| && InOwnPlaces(places, chunks, last)
    requires before == Before(Leads(places, chunks), chunks, last) && after == After(Leads(places, chunks), chunks, last)
    requires AreFileLines(before, trailingNewline) && AreKept(after, trailingNewline)
    ensures Derive(FileText(before, trailingNewline), chunks) == Ok(FileText(after, trailingNewline))
  {
    ChunksRewrite(places, chunks, last);
    DeriveOnFileText(before, after, chunks, trailingNewline);
  }
}
