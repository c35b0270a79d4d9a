/** Exactly when the splice loop equals "compute all replacements, then apply": as long as every chunk does the same in both
    readings, and for the program that depends on its end-of-file chunks only. */
module PatchInStep {
  import opened Text
  import opened PatchTypes
  import opened PatchSeek
  import opened PatchApply

  /** The claim for a chunk list, with `settled` written and `orig[c..]` still untouched. */
  ghost predicate Agree(locate: Locator, settled: seq<string>, orig: seq<string>, c: nat, chunks: seq<UpdateChunk>, index: nat)
    requires InBounds(locate) && c <= |orig|
  {
    var rs := Regions(locate, orig, c, chunks, index);
    && (rs.Ok? ==> OrderedApart(rs.value, c, |orig|))
    && InPlace(locate, settled + orig[c..], |settled|, chunks, index) == Assemble(settled, orig, c, rs)
  }

  /** The claim after every chunk. */
  ghost predicate AgreeThroughout(locate: Locator, settled: seq<string>, orig: seq<string>, c: nat, chunks: seq<UpdateChunk>,
                                  index: nat)
    requires InBounds(locate) && c <= |orig|
  {
    forall n :: 0 <= n <= |chunks| ==> Agree(locate, settled, orig, c, chunks[..n], index)
  }

  // ---------------------------------------------------------------- one chunk in step

  /** What is settled once region `r` of the original lines is replaced. */
  function Settle(settled: seq<string>, orig: seq<string>, c: nat, r: Region): seq<string>
    requires c <= r.at <= |orig|
  {
    settled + orig[c..r.at] + r.news
  }

  /** Replacing `q` in the lines so far does what replacing `r` in the original lines does, and leaves the cursor behind it. */
  predicate SameEffect(settled: seq<string>, orig: seq<string>, c: nat, r: Region, q: Region)
    requires c <= |orig| && r.at + r.len <= |orig| && q.at + q.len <= |settled| + |orig| - c
  {
    && c <= r.at
    && Splice(settled + orig[c..], q) == Settle(settled, orig, c, r) + orig[r.at + r.len..]
    && q.at + |q.news| == |Settle(settled, orig, c, r)|
  }

  /** `a`, located in the original lines, and `b`, located in the lines so far, are the same failure or have the same effect. */
  predicate Alike(settled: seq<string>, orig: seq<string>, c: nat, a: Result<Region, Fault>, b: Result<Region, Fault>)
    requires c <= |orig|
    requires a.Ok? ==> a.value.at + a.value.len <= |orig|
    requires b.Ok? ==> b.value.at + b.value.len <= |settled| + |orig| - c
  {
    match a
    case Err(_) => b == a
    case Ok(r) => b.Ok? && SameEffect(settled, orig, c, r, b.value)
  }

  /** The chunk does the same in both readings. */
  predicate InStep(locate: Locator, settled: seq<string>, orig: seq<string>, c: nat, chunk: UpdateChunk)
    requires InBounds(locate) && c <= |orig|
  {
    Alike(settled, orig, c, locate(orig, c, chunk), locate(settled + orig[c..], |settled|, chunk))
  }

  /** Every chunk reached is in step. */
  predicate InStepThroughout(locate: Locator, settled: seq<string>, orig: seq<string>, c: nat, chunks: seq<UpdateChunk>)
    requires InBounds(locate) && c <= |orig|
    decreases |chunks|
  {
    |chunks| == 0 || (
      && InStep(locate, settled, orig, c, chunks[0])
      && var a := locate(orig, c, chunks[0]);
         a.Ok? ==> InStepThroughout(locate, Settle(settled, orig, c, a.value), orig, a.value.at + a.value.len, chunks[1..]))
  }

  /** The cursor follows the lines: two regions that leave the same lines leave the cursor at the same place. */
  ghost predicate CursorFollows(locate: Locator) {
    forall settled, orig, c: nat, chunk ::
      c <= |orig| && locate(orig, c, chunk).Ok? && locate(settled + orig[c..], |settled|, chunk).Ok? ==>
        CursorFollowsAt(settled, orig, c, locate(orig, c, chunk).value, locate(settled + orig[c..], |settled|, chunk).value)
  }

  ghost predicate CursorFollowsAt(settled: seq<string>, orig: seq<string>, c: nat, r: Region, q: Region) {
    c <= r.at && r.at + r.len <= |orig| && q.at + q.len <= |settled| + |orig| - c
      && Splice(settled + orig[c..], q) == Settle(settled, orig, c, r) + orig[r.at + r.len..]
    ==> q.at + |q.news| == |Settle(settled, orig, c, r)|
  }

  // ---------------------------------------------------------------- in step, so in agreement

  /** One region more in front of the two-phase result. */
  lemma AssembleOneMore(settled: seq<string>, orig: seq<string>, c: nat, r: Region, rest: Result<seq<Region>, ApplyError>)
    requires c <= r.at && r.at + r.len <= |orig|
    ensures rest.Ok? ==>
              (OrderedApart([r] + rest.value, c, |orig|) <==> OrderedApart(rest.value, r.at + r.len, |orig|))
    ensures (rest.Ok? ==> OrderedApart(rest.value, r.at + r.len, |orig|)) ==>
              Assemble(Settle(settled, orig, c, r), orig, r.at + r.len, rest)
              == Assemble(settled, orig, c, if rest.Ok? then Ok([r] + rest.value) else rest)
  {
    if rest.Ok? {
      assert ([r] + rest.value)[1..] == rest.value;
      if OrderedApart(rest.value, r.at + r.len, |orig|) {
        PrependRegion(settled, orig, c, r, rest.value);
      }
    }
  }

  /** A chunk in step: the claim for it and the rest is the claim for the rest. */
  lemma AgreeOneMore(locate: Locator, settled: seq<string>, orig: seq<string>, c: nat, chunks: seq<UpdateChunk>, index: nat)
    requires InBounds(locate) && c <= |orig| && |chunks| > 0 && InStep(locate, settled, orig, c, chunks[0])
    ensures var a := locate(orig, c, chunks[0]);
            if a.Err? then Agree(locate, settled, orig, c, chunks, index)
            else
              Agree(locate, settled, orig, c, chunks, index)
              <==> Agree(locate, Settle(settled, orig, c, a.value), orig, a.value.at + a.value.len, chunks[1..], index + 1)
  {
    var a := locate(orig, c, chunks[0]);
    if a.Ok? {
      var r := a.value;
      var rest := Regions(locate, orig, r.at + r.len, chunks[1..], index + 1);
      AssembleOneMore(settled, orig, c, r, rest);
    }
  }

  lemma {:induction false} InStepSoAgree(locate: Locator, settled: seq<string>, orig: seq<string>, c: nat, chunks: seq<UpdateChunk>,
                                         index: nat)
    requires InBounds(locate) && c <= |orig| && InStepThroughout(locate, settled, orig, c, chunks)
    ensures Agree(locate, settled, orig, c, chunks, index)
    decreases |chunks|
  {
    if |chunks| > 0 {
      AgreeOneMore(locate, settled, orig, c, chunks, index);
      var a := locate(orig, c, chunks[0]);
      if a.Ok? {
        InStepSoAgree(locate, Settle(settled, orig, c, a.value), orig, a.value.at + a.value.len, chunks[1..], index + 1);
      }
    }
  }

  lemma {:induction false} PrefixInStep(locate: Locator, settled: seq<string>, orig: seq<string>, c: nat, chunks: seq<UpdateChunk>,
                                        n: nat)
    requires InBounds(locate) && c <= |orig| && n <= |chunks| && InStepThroughout(locate, settled, orig, c, chunks)
    ensures InStepThroughout(locate, settled, orig, c, chunks[..n])
    decreases |chunks|
  {
    if n > 0 {
      var a := locate(orig, c, chunks[0]);
      if a.Ok? {
        PrefixInStep(locate, Settle(settled, orig, c, a.value), orig, a.value.at + a.value.len, chunks[1..], n - 1);
        assert chunks[..n][1..] == chunks[1..][..n - 1];
      }
    }
  }

  // ---------------------------------------------------------------- and the other way

  /** A single chunk in agreement is in step. */
  lemma OneAgreesSoInStep(locate: Locator, settled: seq<string>, orig: seq<string>, c: nat, chunk: UpdateChunk, index: nat)
    requires InBounds(locate) && CursorFollows(locate) && c <= |orig| && Agree(locate, settled, orig, c, [chunk], index)
    ensures InStep(locate, settled, orig, c, chunk)
  {
    var lines := settled + orig[c..];
    var a, b := locate(orig, c, chunk), locate(lines, |settled|, chunk);
    assert [chunk][1..] == [];
    assert b.Ok? ==> InPlace(locate, lines, |settled|, [chunk], index) == Ok(Splice(lines, b.value));
    if a.Ok? {
      var r := a.value;
      assert [r] + [] == [r] && [r][1..] == [];
      assert Regions(locate, orig, c, [chunk], index) == Ok([r]);
      assert ReplaceAll(orig, c, [r]) == orig[c..r.at] + r.news + orig[r.at + r.len..];
      assert settled + (orig[c..r.at] + r.news + orig[r.at + r.len..]) == Settle(settled, orig, c, r) + orig[r.at + r.len..];
      assert CursorFollowsAt(settled, orig, c, r, b.value);
    }
  }

  lemma {:induction false} AgreeSoInStep(locate: Locator, settled: seq<string>, orig: seq<string>, c: nat, chunks: seq<UpdateChunk>,
                                         index: nat)
    requires InBounds(locate) && CursorFollows(locate) && c <= |orig|
    requires AgreeThroughout(locate, settled, orig, c, chunks, index)
    ensures InStepThroughout(locate, settled, orig, c, chunks)
    decreases |chunks|
  {
    if |chunks| > 0 {
      assert chunks[..1] == [chunks[0]];
      OneAgreesSoInStep(locate, settled, orig, c, chunks[0], index);
      var a := locate(orig, c, chunks[0]);
      if a.Ok? {
        var settled', c' := Settle(settled, orig, c, a.value), a.value.at + a.value.len;
        forall n | 0 <= n <= |chunks[1..]|
          ensures Agree(locate, settled', orig, c', chunks[1..][..n], index + 1)
        {
          assert chunks[..n + 1][1..] == chunks[1..][..n];
          AgreeOneMore(locate, settled, orig, c, chunks[..n + 1], index);
        }
        AgreeSoInStep(locate, settled', orig, c', chunks[1..], index + 1);
      }
    }
  }

  /** The two readings agree after every chunk exactly when every chunk reached is in step. */
  lemma AgreeExactlyInStep(locate: Locator, settled: seq<string>, orig: seq<string>, c: nat, chunks: seq<UpdateChunk>, index: nat)
    requires InBounds(locate) && CursorFollows(locate) && c <= |orig|
    ensures AgreeThroughout(locate, settled, orig, c, chunks, index) <==> InStepThroughout(locate, settled, orig, c, chunks)
  {
    if InStepThroughout(locate, settled, orig, c, chunks) {
      forall n | 0 <= n <= |chunks|
        ensures Agree(locate, settled, orig, c, chunks[..n], index)
      {
        PrefixInStep(locate, settled, orig, c, chunks, n);
        InStepSoAgree(locate, settled, orig, c, chunks[..n], index);
      }
    }
    if AgreeThroughout(locate, settled, orig, c, chunks, index) {
      AgreeSoInStep(locate, settled, orig, c, chunks, index);
    }
  }

  // ---------------------------------------------------------------- what an end-of-file chunk without room does

  /** It takes the last lines that its old lines hit, or its old lines without the last blank one. */
  function EofChoice(lines: seq<string>, chunk: UpdateChunk): (r: Result<Region, Fault>)
    ensures r.Ok? ==> r.value.at + r.value.len == |lines|
  {
    var full, shorter := chunk.oldLines, DropLastBlank(chunk.oldLines);
    if Hit(lines, full) then Ok(Region(|lines| - |full|, |full|, chunk.newLines))
    else if shorter != full && Hit(lines, shorter) then
      Ok(Region(|lines| - |shorter|, |shorter|, DropLastBlank(chunk.newLines)))
    else Err(OldLinesNotFound)
  }

  /** `chunk` looks left of the cursor: it is marked end-of-file, its old lines are more than are left, its context is found. */
  predicate LooksBack(tail: seq<string>, chunk: UpdateChunk) {
    !Room(tail, chunk) && Anchor(tail, 0, chunk.changeContext).Ok?
  }

  lemma LooksBackLocates(pre: seq<string>, tail: seq<string>, chunk: UpdateChunk)
    requires LooksBack(tail, chunk)
    ensures Locate(pre + tail, |pre|, chunk) == EofChoice(pre + tail, chunk)
  {
    var lines, full, shorter := pre + tail, chunk.oldLines, DropLastBlank(chunk.oldLines);
    AnchorShift(pre, tail, chunk.changeContext);
    var anchor := Anchor(lines, |pre|, chunk.changeContext).value;
    EofSeek(lines, full, anchor);
    if |shorter| > 0 {
      EofSeek(lines, shorter, anchor);
    }
    assert Locate(lines, |pre|, chunk) == LocateOld(lines, anchor, chunk);
  }

  /** A region of the rest, replaced behind what is settled. */
  lemma SpliceBehind(settled: seq<string>, orig: seq<string>, c: nat, l: Region)
    requires c <= |orig| && l.at + l.len <= |orig| - c
    ensures SameEffect(settled, orig, c, l.(at := c + l.at), l.(at := |settled| + l.at))
  {
    var lines := settled + orig[c..];
    assert lines[..|settled| + l.at] == settled + orig[c..c + l.at];
    assert lines[|settled| + l.at + l.len..] == orig[c + l.at + l.len..];
  }

  lemma ShiftedAlike(settled: seq<string>, orig: seq<string>, c: nat, l: Result<Region, Fault>)
    requires c <= |orig| && (l.Ok? ==> l.value.at + l.value.len <= |orig| - c)
    ensures Alike(settled, orig, c, Shift(l, c), Shift(l, |settled|))
  {
    if l.Ok? {
      SpliceBehind(settled, orig, c, l.value);
    }
  }

  lemma RoomyInStep(settled: seq<string>, orig: seq<string>, c: nat, chunk: UpdateChunk)
    requires InBounds(Locate) && c <= |orig| && Room(orig[c..], chunk)
    ensures InStep(Locate, settled, orig, c, chunk)
  {
    var pre, tail := orig[..c], orig[c..];
    assert pre + tail == orig;
    LocateShift(pre, tail, chunk);
    LocateShift(settled, tail, chunk);
    ShiftedAlike(settled, orig, c, Locate(tail, 0, chunk));
  }

  /** A chunk that does not look back does the same in both readings. */
  lemma OthersInStep(settled: seq<string>, orig: seq<string>, c: nat, chunk: UpdateChunk)
    requires InBounds(Locate) && c <= |orig| && !LooksBack(orig[c..], chunk)
    ensures InStep(Locate, settled, orig, c, chunk)
  {
    if Room(orig[c..], chunk) {
      RoomyInStep(settled, orig, c, chunk);
    } else {
      assert orig[..c] + orig[c..] == orig;
      AnchorShift(orig[..c], orig[c..], chunk.changeContext);
      AnchorShift(settled, orig[c..], chunk.changeContext);
    }
  }

  // ---------------------------------------------------------------- the exact condition

  /** What keeps a chunk that looks back in step. Its old lines hit the end of the original file nowhere left of the cursor. If
      they do not hit the end of the lines so far either, their shorter form, when it too is more than is left, hits neither;
      if they do, the shorter form takes exactly what is left, and both put in the same. */
  predicate Clear(settled: seq<string>, orig: seq<string>, c: nat, chunk: UpdateChunk)
    requires c <= |orig|
  {
    var lines, left := settled + orig[c..], |orig| - c;
    var full, shorter := chunk.oldLines, DropLastBlank(chunk.oldLines);
    && !Hit(orig, full)
    && if !Hit(lines, full) then shorter == full || |shorter| <= left || (!Hit(orig, shorter) && !Hit(lines, shorter))
       else
         && shorter != full && |shorter| <= left && Hit(orig, shorter)
         && lines[..|lines| - |full|] + chunk.newLines == settled + DropLastBlank(chunk.newLines)
  }

  /** A condition on one chunk, where it is reached. */
  type Condition = (seq<string>, seq<string>, nat, UpdateChunk) -> bool

  /** The chunk does not look back, or is clear. */
  predicate ForwardOrClear(settled: seq<string>, orig: seq<string>, c: nat, chunk: UpdateChunk) {
    c <= |orig| && LooksBack(orig[c..], chunk) ==> Clear(settled, orig, c, chunk)
  }

  /** Every chunk that is reached meets the condition. */
  predicate AllReached(locate: Locator, good: Condition, settled: seq<string>, orig: seq<string>, c: nat, chunks: seq<UpdateChunk>)
    requires InBounds(locate) && c <= |orig|
    decreases |chunks|
  {
    |chunks| == 0 || (
      && good(settled, orig, c, chunks[0])
      && var a := locate(orig, c, chunks[0]);
         a.Ok? && c <= a.value.at ==>
           AllReached(locate, good, Settle(settled, orig, c, a.value), orig, a.value.at + a.value.len, chunks[1..]))
  }

  /** Every end-of-file chunk that is reached and looks back is clear. */
  predicate StaysInStep(orig: seq<string>, chunks: seq<UpdateChunk>)
    requires InBounds(Locate)
  {
    AllReached(Locate, ForwardOrClear, [], orig, 0, chunks)
  }

  /** Matching the rest of the file does not depend on what stands before it. */
  lemma HitInTail(pre: seq<string>, tail: seq<string>, pattern: seq<string>)
    requires |pattern| <= |tail|
    ensures Hit(pre + tail, pattern) == Hit(tail, pattern)
  {
    MatchesAtShift(Trim, pre, tail, pattern, |tail| - |pattern|);
  }

  /** Two regions at the ends of the two line lists. */
  lemma EffectAtTheEnd(settled: seq<string>, orig: seq<string>, c: nat, r: Region, q: Region)
    requires c <= |orig| && r.at + r.len == |orig| && q.at + q.len == |settled| + |orig| - c
    ensures SameEffect(settled, orig, c, r, q)
            <==> c <= r.at && (settled + orig[c..])[..q.at] + q.news == Settle(settled, orig, c, r)
  {
    var lines := settled + orig[c..];
    assert lines[q.at + q.len..] == [] && orig[r.at + r.len..] == [];
    assert Splice(lines, q) == lines[..q.at] + q.news;
    if c <= r.at {
      assert Settle(settled, orig, c, r) + [] == Settle(settled, orig, c, r);
    }
  }

  /** The three cases of a chunk that looks back. */
  lemma HitsTheOriginal(settled: seq<string>, orig: seq<string>, c: nat, chunk: UpdateChunk)
    requires c <= |orig| && |chunk.oldLines| > |orig| - c && Hit(orig, chunk.oldLines)
    ensures !Alike(settled, orig, c, EofChoice(orig, chunk), EofChoice(settled + orig[c..], chunk))
  {
  }

  lemma HitsNeither(settled: seq<string>, orig: seq<string>, c: nat, chunk: UpdateChunk)
    requires c <= |orig| && |chunk.oldLines| > |orig| - c
    requires !Hit(orig, chunk.oldLines) && !Hit(settled + orig[c..], chunk.oldLines)
    ensures var shorter := DropLastBlank(chunk.oldLines);
            Alike(settled, orig, c, EofChoice(orig, chunk), EofChoice(settled + orig[c..], chunk))
            <==> shorter == chunk.oldLines || |shorter| <= |orig| - c || (!Hit(orig, shorter) && !Hit(settled + orig[c..], shorter))
  {
    var pre, tail, shorter := orig[..c], orig[c..], DropLastBlank(chunk.oldLines);
    var lines := settled + tail;
    assert pre + tail == orig;
    if |shorter| <= |tail| {
      HitInTail(pre, tail, shorter);
      HitInTail(settled, tail, shorter);
      if shorter != chunk.oldLines && Hit(orig, shorter) {
        BothEndAt(settled, orig, c, EofChoice(orig, chunk).value, EofChoice(lines, chunk).value);
      }
    }
  }

  lemma HitsTheLinesOnly(settled: seq<string>, orig: seq<string>, c: nat, chunk: UpdateChunk)
    requires c <= |orig| && |chunk.oldLines| > |orig| - c
    requires !Hit(orig, chunk.oldLines) && Hit(settled + orig[c..], chunk.oldLines)
    ensures var lines, shorter := settled + orig[c..], DropLastBlank(chunk.oldLines);
            Alike(settled, orig, c, EofChoice(orig, chunk), EofChoice(lines, chunk))
            <==> shorter != chunk.oldLines && |shorter| <= |orig| - c && Hit(orig, shorter)
                 && lines[..|lines| - |chunk.oldLines|] + chunk.newLines == settled + DropLastBlank(chunk.newLines)
  {
    var shorter := DropLastBlank(chunk.oldLines);
    if shorter != chunk.oldLines && Hit(orig, shorter) {
      var r := EofChoice(orig, chunk).value;
      EffectAtTheEnd(settled, orig, c, r, EofChoice(settled + orig[c..], chunk).value);
      if r.at == c {
        assert settled + orig[c..c] == settled;
      }
    }
  }

  /** Both regions are all that is left. */
  lemma BothEndAt(settled: seq<string>, orig: seq<string>, c: nat, r: Region, q: Region)
    requires c <= r.at && r.at + r.len == |orig| && q.at + q.len == |settled| + |orig| - c && r.len == q.len && r.news == q.news
    ensures SameEffect(settled, orig, c, r, q)
  {
    EffectAtTheEnd(settled, orig, c, r, q);
    assert (settled + orig[c..])[..q.at] == settled + orig[c..r.at];
  }

  lemma ClearExactlyInStep(settled: seq<string>, orig: seq<string>, c: nat, chunk: UpdateChunk)
    requires InBounds(Locate) && c <= |orig| && LooksBack(orig[c..], chunk)
    ensures InStep(Locate, settled, orig, c, chunk) <==> Clear(settled, orig, c, chunk)
  {
    assert orig[..c] + orig[c..] == orig;
    LooksBackLocates(orig[..c], orig[c..], chunk);
    LooksBackLocates(settled, orig[c..], chunk);
    ClearExactlyAlike(settled, orig, c, chunk);
  }

  lemma ClearExactlyAlike(settled: seq<string>, orig: seq<string>, c: nat, chunk: UpdateChunk)
    requires c <= |orig| && |chunk.oldLines| > |orig| - c
    ensures Alike(settled, orig, c, EofChoice(orig, chunk), EofChoice(settled + orig[c..], chunk)) <==> Clear(settled, orig, c, chunk)
  {
    if Hit(orig, chunk.oldLines) {
      HitsTheOriginal(settled, orig, c, chunk);
    } else if Hit(settled + orig[c..], chunk.oldLines) {
      HitsTheLinesOnly(settled, orig, c, chunk);
    } else {
      HitsNeither(settled, orig, c, chunk);
    }
  }

  ghost predicate DecidesAt(locate: Locator, good: Condition, settled: seq<string>, orig: seq<string>, c: nat, chunk: UpdateChunk)
    requires InBounds(locate) && c <= |orig|
  {
    good(settled, orig, c, chunk) <==> InStep(locate, settled, orig, c, chunk)
  }

  ghost predicate Decides(locate: Locator, good: Condition)
    requires InBounds(locate)
  {
    forall settled, orig, c: nat, chunk :: c <= |orig| ==> DecidesAt(locate, good, settled, orig, c, chunk)
  }

  lemma ForwardOrClearDecides()
    requires InBounds(Locate)
    ensures Decides(Locate, ForwardOrClear)
  {
    forall settled, orig, c: nat, chunk | c <= |orig|
      ensures DecidesAt(Locate, ForwardOrClear, settled, orig, c, chunk)
    {
      if LooksBack(orig[c..], chunk) {
        ClearExactlyInStep(settled, orig, c, chunk);
      } else {
        OthersInStep(settled, orig, c, chunk);
      }
    }
  }

  lemma {:induction false} DecidedThroughout(locate: Locator, good: Condition, settled: seq<string>, orig: seq<string>, c: nat,
                                             chunks: seq<UpdateChunk>)
    requires InBounds(locate) && Decides(locate, good) && c <= |orig|
    ensures AllReached(locate, good, settled, orig, c, chunks) <==> InStepThroughout(locate, settled, orig, c, chunks)
    decreases |chunks|
  {
    if |chunks| > 0 {
      assert DecidesAt(locate, good, settled, orig, c, chunks[0]);
      var a := locate(orig, c, chunks[0]);
      if a.Ok? && c <= a.value.at {
        DecidedThroughout(locate, good, Settle(settled, orig, c, a.value), orig, a.value.at + a.value.len, chunks[1..]);
      }
    }
  }

  lemma LocateCursorFollows()
    requires InBounds(Locate)
    ensures CursorFollows(Locate)
  {
    forall settled, orig, c: nat, chunk |
        c <= |orig| && Locate(orig, c, chunk).Ok? && Locate(settled + orig[c..], |settled|, chunk).Ok?
      ensures CursorFollowsAt(settled, orig, c, Locate(orig, c, chunk).value, Locate(settled + orig[c..], |settled|, chunk).value)
    {
      CursorFollowsLocate(settled, orig, c, chunk);
    }
  }

  lemma CursorFollowsLocate(settled: seq<string>, orig: seq<string>, c: nat, chunk: UpdateChunk)
    requires InBounds(Locate)
    requires c <= |orig| && Locate(orig, c, chunk).Ok? && Locate(settled + orig[c..], |settled|, chunk).Ok?
    ensures CursorFollowsAt(settled, orig, c, Locate(orig, c, chunk).value, Locate(settled + orig[c..], |settled|, chunk).value)
  {
    if LooksBack(orig[c..], chunk) {
      assert orig[..c] + orig[c..] == orig;
      LooksBackLocates(orig[..c], orig[c..], chunk);
      LooksBackLocates(settled, orig[c..], chunk);
      EndsFollow(settled, orig, c, EofChoice(orig, chunk).value, EofChoice(settled + orig[c..], chunk).value);
    } else {
      OthersInStep(settled, orig, c, chunk);
    }
  }

  lemma EndsFollow(settled: seq<string>, orig: seq<string>, c: nat, r: Region, q: Region)
    requires c <= |orig| && r.at + r.len == |orig| && q.at + q.len == |settled| + |orig| - c
    ensures CursorFollowsAt(settled, orig, c, r, q)
  {
    var lines := settled + orig[c..];
    assert |Splice(lines, q)| == q.at + |q.news|;
    assert orig[r.at + r.len..] == [];
  }

  /** The splice loop equals "find every region in the original lines, then replace them all at once" after every chunk exactly
      when every end-of-file chunk that is reached and looks left of the cursor is clear. */
  lemma TwoPhasesExactlyWhenInStep(orig: seq<string>, chunks: seq<UpdateChunk>)
    ensures InBounds(Locate)
    ensures AgreeThroughout(Locate, [], orig, 0, chunks, 1) <==> StaysInStep(orig, chunks)
  {
    LocateCursorFollows();
    AgreeExactlyInStep(Locate, [], orig, 0, chunks, 1);
    ForwardOrClearDecides();
    DecidedThroughout(Locate, ForwardOrClear, [], orig, 0, chunks);
  }

  // ---------------------------------------------------------------- out of step, the two readings never meet again

  /** In an empty rest nothing can be found but nothing. */
  lemma SeekInNothing(pattern: seq<string>)
    ensures Seek([], pattern, 0, false) == if |pattern| == 0 then 0 else -1
  {
    if |pattern| > 0 {
      SeekFromTiers([], pattern, 0);
    }
  }

  /** What a chunk that is found at the end of the lines does there. */
  lemma LocateAtEnd(lines: seq<string>, chunk: UpdateChunk)
    requires Locate(lines, |lines|, chunk).Ok?
    ensures Locate(lines, |lines|, chunk) ==
            if |chunk.oldLines| == 0 then Ok(Region(|lines|, 0, chunk.newLines))
            else if chunk.isEndOfFile then EofChoice(lines, chunk)
            else Ok(Region(|lines|, 0, DropLastBlank(chunk.newLines)))
    ensures |chunk.oldLines| > 0 && !chunk.isEndOfFile ==> chunk.oldLines == [""]
    ensures chunk.changeContext == ""
  {
    assert lines + [] == lines;
    AnchorShift(lines, [], chunk.changeContext);
    SeekInNothing([chunk.changeContext]);
    if |chunk.oldLines| > 0 && chunk.isEndOfFile {
      LooksBackLocates(lines, [], chunk);
    } else {
      LocateShift(lines, [], chunk);
      SeekInNothing(chunk.oldLines);
      SeekInNothing(DropLastBlank(chunk.oldLines));
    }
  }

  /** `x` cannot become `y` by anything put behind both. */
  predicate Apart(x: seq<string>, y: seq<string>) {
    || |x| < |y|
    || (|x| == |y| > 0 && x != y && (x[|x| - 1] == "" || x[|x| - 1] == y[|y| - 1]))
  }

  lemma ApartBehind(x: seq<string>, y: seq<string>, news: seq<string>)
    requires Apart(x, y)
    ensures Apart(x + news, y + news)
  {
    if |x| == |y| {
      assert (x + news)[..|x|] == x && (y + news)[..|y|] == y;
      assert x + [] == x && y + [] == y;
    }
  }

  /** Putting `news` in for the last line of `x`, and all of it but a last blank line behind `y`. */
  lemma ApartOver(x: seq<string>, y: seq<string>, news: seq<string>)
    requires Apart(x, y) && |x| > 0
    ensures Apart(x[..|x| - 1] + news, y + DropLastBlank(news))
  {
    var x', y' := x[..|x| - 1] + news, y + DropLastBlank(news);
    if |x| == |y| && |news| > 0 && news[|news| - 1] == "" {
      assert x'[|x'| - 1] == "";
      if x' == y' {
        AllAlike(y, news);
        SameFront(x, y, news);
      }
    }
  }

  lemma {:induction false} BlanksBelow(y: seq<string>, news: seq<string>, k: nat)
    requires |y| > 0 && 0 < |news| && news[|news| - 1] == "" && k < |news|
    requires forall j :: 0 <= j < |news| - 1 ==> news[j + 1] == news[j]
    ensures news[|news| - 1 - k] == ""
  {
    if k > 0 {
      BlanksBelow(y, news, k - 1);
      assert news[|news| - 1 - k + 1] == news[|news| - 1 - k];
    }
  }

  /** Two ways to put a text that ends in a blank line: if they come to the same, the text is all blank lines. */
  lemma AllAlike(y: seq<string>, news: seq<string>)
    requires |y| > 0 && |news| > 0 && news[|news| - 1] == ""
    requires exists front :: |front| == |y| - 1 && front + news == y + news[..|news| - 1]
    ensures y[|y| - 1] == ""
  {
    var front :| |front| == |y| - 1 && front + news == y + news[..|news| - 1];
    var all := front + news;
    forall j | 0 <= j < |news| - 1
      ensures news[j + 1] == news[j]
    {
      assert all[|front| + j + 1] == news[j + 1];
      assert (y + news[..|news| - 1])[|y| + j] == news[j];
    }
    BlanksBelow(y, news, |news| - 1);
    assert all[|y| - 1] == news[0] && (y + news[..|news| - 1])[|y| - 1] == y[|y| - 1];
  }

  lemma SameFront(x: seq<string>, y: seq<string>, news: seq<string>)
    requires |x| == |y| > 0 && |news| > 0 && x[..|x| - 1] + news == y + news[..|news| - 1] && x[|x| - 1] == y[|y| - 1]
    ensures x == y
  {
    var all := x[..|x| - 1] + news;
    forall j | 0 <= j < |x|
      ensures x[j] == y[j]
    {
      if j < |x| - 1 {
        assert all[j] == x[j] && (y + news[..|news| - 1])[j] == y[j];
      }
    }
  }

  /** A chunk behind everything, in both readings. */
  lemma TailStep(x: seq<string>, y: seq<string>, orig: seq<string>, chunk: UpdateChunk)
    requires Apart(x, y) && Locate(orig, |orig|, chunk).Ok? && Locate(x, |x|, chunk).Ok?
    requires Locate(orig, |orig|, chunk).value.at >= |orig|
    ensures var r, q := Locate(orig, |orig|, chunk).value, Locate(x, |x|, chunk).value;
            && r.at == |orig| && r.len == 0 && q.at + q.len == |x|
            && Apart(x[..q.at] + q.news, y + r.news)
  {
    LocateAtEnd(orig, chunk);
    LocateAtEnd(x, chunk);
    assert x[..|x|] == x;
    var r, q := Locate(orig, |orig|, chunk).value, Locate(x, |x|, chunk).value;
    if q.len == 0 {
      ApartBehind(x, y, r.news);
    } else {
      ApartOver(x, y, chunk.newLines);
    }
  }

  ghost predicate TailStepAt(locate: Locator, x: seq<string>, y: seq<string>, orig: seq<string>, chunk: UpdateChunk) {
    var a, b := locate(orig, |orig|, chunk), locate(x, |x|, chunk);
    Apart(x, y) && a.Ok? && b.Ok? && a.value.at >= |orig| ==>
      && a.value.at == |orig| && a.value.len == 0 && b.value.at + b.value.len == |x|
      && Apart(x[..b.value.at] + b.value.news, y + a.value.news)
  }

  ghost predicate TailSteps(locate: Locator) {
    forall x, y, orig, chunk :: TailStepAt(locate, x, y, orig, chunk)
  }

  lemma NothingBetween(y: seq<string>, orig: seq<string>, news: seq<string>, rest: seq<string>)
    ensures y + (orig[|orig|..|orig|] + news + rest) == (y + news) + rest
  {
  }

  lemma {:induction false} NeverMeets(locate: Locator, x: seq<string>, y: seq<string>, orig: seq<string>, chunks: seq<UpdateChunk>,
                                      index: nat)
    requires InBounds(locate) && TailSteps(locate) && Apart(x, y)
    requires var rs := Regions(locate, orig, |orig|, chunks, index); rs.Ok? && OrderedApart(rs.value, |orig|, |orig|)
    ensures InPlace(locate, x, |x|, chunks, index)
         != Ok(y + ReplaceAll(orig, |orig|, Regions(locate, orig, |orig|, chunks, index).value))
    decreases |chunks|
  {
    if |chunks| == 0 {
      assert y + orig[|orig|..] == y;
    } else if locate(x, |x|, chunks[0]).Ok? {
      var r, q := locate(orig, |orig|, chunks[0]).value, locate(x, |x|, chunks[0]).value;
      var rest := Regions(locate, orig, r.at + r.len, chunks[1..], index + 1).value;
      assert ([r] + rest)[1..] == rest && ([r] + rest)[0] == r;
      assert TailStepAt(locate, x, y, orig, chunks[0]);
      var x' := x[..q.at] + q.news;
      assert Splice(x, q) == x' + x[|x|..] == x';
      NeverMeets(locate, x', y + r.news, orig, chunks[1..], index + 1);
      NothingBetween(y, orig, r.news, ReplaceAll(orig, |orig|, rest));
    }
  }

  /** A chunk that is not good, and yet is located behind the cursor in the original lines, ends both line lists and leaves them
      apart. */
  ghost predicate PartsAt(locate: Locator, good: Condition, settled: seq<string>, orig: seq<string>, c: nat, chunk: UpdateChunk)
    requires c <= |orig|
  {
    var lines := settled + orig[c..];
    var a, b := locate(orig, c, chunk), locate(lines, |settled|, chunk);
    !good(settled, orig, c, chunk) && a.Ok? && c <= a.value.at ==>
      && a.value.at + a.value.len == |orig|
      && (b.Ok? ==> b.value.at + b.value.len == |lines|
                    && Apart(lines[..b.value.at] + b.value.news, Settle(settled, orig, c, a.value)))
  }

  ghost predicate Parts(locate: Locator, good: Condition) {
    forall settled, orig, c: nat, chunk :: c <= |orig| ==> PartsAt(locate, good, settled, orig, c, chunk)
  }

  /** A chunk that is not clear hits the lines so far, and takes what is left of the original lines. */
  lemma NotClearParts(settled: seq<string>, orig: seq<string>, c: nat, chunk: UpdateChunk)
    requires c <= |orig| && |chunk.oldLines| > |orig| - c && !Clear(settled, orig, c, chunk)
    requires EofChoice(orig, chunk).Ok? && c <= EofChoice(orig, chunk).value.at
    ensures var r, b := EofChoice(orig, chunk).value, EofChoice(settled + orig[c..], chunk);
            b.Ok? && Apart((settled + orig[c..])[..b.value.at] + b.value.news, Settle(settled, orig, c, r))
  {
    var lines, full := settled + orig[c..], chunk.oldLines;
    assert Hit(lines, full) && EofChoice(orig, chunk).value.at == c;
    var front := lines[..|lines| - |full|];
    assert front == settled[..|settled| - 1] && settled + orig[c..c] == settled;
    var x, y := front + chunk.newLines, settled + DropLastBlank(chunk.newLines);
    assert |chunk.newLines| > 0 && chunk.newLines[|chunk.newLines| - 1] == "" ==> |x| == |y| && x[|x| - 1] == "";
  }

  lemma LocateParts()
    ensures Parts(Locate, ForwardOrClear) && TailSteps(Locate)
  {
    forall settled, orig, c: nat, chunk | c <= |orig|
      ensures PartsAt(Locate, ForwardOrClear, settled, orig, c, chunk)
    {
      LocatePartsAt(settled, orig, c, chunk);
    }
    forall x, y, orig, chunk
      ensures TailStepAt(Locate, x, y, orig, chunk)
    {
      if Apart(x, y) && Locate(orig, |orig|, chunk).Ok? && Locate(x, |x|, chunk).Ok? && Locate(orig, |orig|, chunk).value.at >= |orig| {
        TailStep(x, y, orig, chunk);
      }
    }
  }

  lemma LocatePartsAt(settled: seq<string>, orig: seq<string>, c: nat, chunk: UpdateChunk)
    requires c <= |orig|
    ensures PartsAt(Locate, ForwardOrClear, settled, orig, c, chunk)
  {
    if !ForwardOrClear(settled, orig, c, chunk) {
      assert orig[..c] + orig[c..] == orig;
      LooksBackLocates(orig[..c], orig[c..], chunk);
      LooksBackLocates(settled, orig[c..], chunk);
      if EofChoice(orig, chunk).Ok? && c <= EofChoice(orig, chunk).value.at {
        NotClearParts(settled, orig, c, chunk);
      }
    }
  }

  lemma {:induction false} OutOfStepNeverAgrees(locate: Locator, good: Condition, settled: seq<string>, orig: seq<string>, c: nat,
                                                chunks: seq<UpdateChunk>, index: nat)
    requires InBounds(locate) && Decides(locate, good) && Parts(locate, good) && TailSteps(locate) && c <= |orig|
    requires !AllReached(locate, good, settled, orig, c, chunks) && Regions(locate, orig, c, chunks, index).Ok?
    ensures !Agree(locate, settled, orig, c, chunks, index)
    decreases |chunks|
  {
    var chunk := chunks[0];
    if good(settled, orig, c, chunk) {
      var r := locate(orig, c, chunk).value;
      assert DecidesAt(locate, good, settled, orig, c, chunk);
      AgreeOneMore(locate, settled, orig, c, chunks, index);
      OutOfStepNeverAgrees(locate, good, Settle(settled, orig, c, r), orig, r.at + r.len, chunks[1..], index + 1);
    } else {
      assert PartsAt(locate, good, settled, orig, c, chunk);
      PartedNeverAgrees(locate, settled, orig, c, chunks, index);
    }
  }

  lemma PartedNeverAgrees(locate: Locator, settled: seq<string>, orig: seq<string>, c: nat, chunks: seq<UpdateChunk>, index: nat)
    requires InBounds(locate) && TailSteps(locate) && c <= |orig| && |chunks| > 0 && Regions(locate, orig, c, chunks, index).Ok?
    requires PartsAt(locate, (s, o, k, ch) => false, settled, orig, c, chunks[0])
    ensures !Agree(locate, settled, orig, c, chunks, index)
  {
    var chunk, lines := chunks[0], settled + orig[c..];
    var r, b := locate(orig, c, chunk).value, locate(lines, |settled|, chunk);
    var rest := Regions(locate, orig, r.at + r.len, chunks[1..], index + 1).value;
    assert ([r] + rest)[1..] == rest && ([r] + rest)[0] == r;
    if c <= r.at && OrderedApart([r] + rest, c, |orig|) && b.Ok? {
      var q, y := b.value, Settle(settled, orig, c, r);
      var x := lines[..q.at] + q.news;
      assert Splice(lines, q) == x + lines[|lines|..] == x;
      NeverMeets(locate, x, y, orig, chunks[1..], index + 1);
      assert settled + (orig[c..r.at] + r.news + ReplaceAll(orig, |orig|, rest)) == y + ReplaceAll(orig, |orig|, rest);
    }
  }

  /** Exactly when the splice loop equals the two phases on a whole chunk list: when every end-of-file chunk that is reached and
      looks left of the cursor is clear, or when both readings fail, at the same chunk and for the same reason. So on every list
      on which either reading succeeds, clear chunks decide it. */
  lemma AgreeExactlyWhenInStep(orig: seq<string>, chunks: seq<UpdateChunk>)
    ensures InBounds(Locate)
    ensures var phases, loop := Regions(Locate, orig, 0, chunks, 1), InPlace(Locate, orig, 0, chunks, 1);
            && (Agree(Locate, [], orig, 0, chunks, 1)
                <==> StaysInStep(orig, chunks) || (phases.Err? && loop.Err? && phases.error == loop.error))
            && (phases.Ok? || loop.Ok? ==> (Agree(Locate, [], orig, 0, chunks, 1) <==> StaysInStep(orig, chunks)))
  {
    assert [] + orig[0..] == orig;
    ForwardOrClearDecides();
    DecidedThroughout(Locate, ForwardOrClear, [], orig, 0, chunks);
    if StaysInStep(orig, chunks) {
      InStepSoAgree(Locate, [], orig, 0, chunks, 1);
    } else if Regions(Locate, orig, 0, chunks, 1).Ok? {
      LocateParts();
      OutOfStepNeverAgrees(Locate, ForwardOrClear, [], orig, 0, chunks, 1);
    }
  }

  /** A chunk with room is good. */
  ghost predicate RoomIsGood(good: Condition) {
    forall settled, orig, c: nat, chunk {:trigger good(settled, orig, c, chunk)} ::
      c <= |orig| && Room(orig[c..], chunk) ==> good(settled, orig, c, chunk)
  }

  lemma {:induction false} RoomReaches(locate: Locator, good: Condition, settled: seq<string>, orig: seq<string>, c: nat,
                                       chunks: seq<UpdateChunk>)
    requires InBounds(locate) && RoomIsGood(good) && c <= |orig| && EofLeavesRoom(locate, orig, c, chunks)
    ensures AllReached(locate, good, settled, orig, c, chunks)
    decreases |chunks|
  {
    if |chunks| > 0 {
      var a := locate(orig, c, chunks[0]);
      assert Room(orig[c..], chunks[0]);
      if a.Ok? && c <= a.value.at {
        RoomReaches(locate, good, Settle(settled, orig, c, a.value), orig, a.value.at + a.value.len, chunks[1..]);
      }
    }
  }

  /** Room behind the cursor for every end-of-file chunk is enough, */
  lemma RoomKeepsInStep(orig: seq<string>, chunks: seq<UpdateChunk>)
    requires InBounds(Locate) && EofLeavesRoom(Locate, orig, 0, chunks)
    ensures StaysInStep(orig, chunks)
  {
    RoomReaches(Locate, ForwardOrClear, [], orig, 0, chunks);
  }

  lemma ReachedTwo(locate: Locator, good: Condition, orig: seq<string>, first: UpdateChunk, r: Region, second: UpdateChunk)
    requires InBounds(locate) && locate(orig, 0, first) == Ok(r) && r.at + r.len <= |orig|
    requires locate(orig, r.at + r.len, second).Err?
    requires good([], orig, 0, first) && good(Settle([], orig, 0, r), orig, r.at + r.len, second)
    ensures AllReached(locate, good, [], orig, 0, [first, second])
  {
    var chunks := [first, second];
    assert chunks[1..] == [second];
    assert AllReached(locate, good, Settle([], orig, 0, r), orig, r.at + r.len, [second]);
  }

  /** Lines that differ beyond white space are not hit. */
  lemma NoHit(line: string, other: string)
    requires IsTrimmed(line) && IsTrimmed(other) && line != other
    ensures !Hit([line], [other])
  {
    TrimmedIsFixed(line);
    TrimmedIsFixed(other);
    assert !Trim([line][0], [other][0]);
  }

  lemma MissIsClear(settled: string, line: string, other: string, chunk: UpdateChunk)
    requires chunk == UpdateChunk("", [other], chunk.newLines, true) && other != ""
    requires IsTrimmed(settled) && IsTrimmed(line) && IsTrimmed(other) && other != settled && other != line
    ensures ForwardOrClear([settled], [line], 1, chunk) && Locate([line], 1, chunk) == Err(OldLinesNotFound)
  {
    NoHit(settled, other);
    NoHit(line, other);
    assert [settled] + [line][1..] == [settled] && [line] + [] == [line];
    LooksBackLocates([line], [], chunk);
  }

  lemma FirstTakesAll(line: string, chunk: UpdateChunk)
    requires chunk.changeContext == "" && !chunk.isEndOfFile && chunk.oldLines == [line]
    ensures Locate([line], 0, chunk) == Ok(Region(0, 1, chunk.newLines)) && ForwardOrClear([], [line], 0, chunk)
  {
    assert MatchesAt(Exact, [line], [line], 0);
    SeekFromTiers([line], [line], 0);
  }

  /** and not necessary: the end-of-file chunk below has none, hits nothing, and fails in both readings. */
  lemma InStepWithoutRoom()
    ensures InBounds(Locate)
    ensures var chunks := [UpdateChunk("", ["a"], ["b"], false), UpdateChunk("", ["z"], ["c"], true)];
            StaysInStep(["a"], chunks) && !EofLeavesRoom(Locate, ["a"], 0, chunks)
  {
    var first, second := UpdateChunk("", ["a"], ["b"], false), UpdateChunk("", ["z"], ["c"], true);
    var chunks, r := [first, second], Region(0, 1, ["b"]);
    FirstTakesAll("a", first);
    MissIsClear("b", "a", "z", second);
    assert Settle([], ["a"], 0, r) == ["b"];
    ReachedTwo(Locate, ForwardOrClear, ["a"], first, r, second);
    assert chunks[1..] == [second];
    assert !EofLeavesRoom(Locate, ["a"], 1, [second]);
  }
}
