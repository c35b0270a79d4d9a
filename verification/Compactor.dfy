/** Compaction: the head and the tail are kept, the middle becomes one summary message. */
module Compactor {
  import opened Messages
  import opened Text

  /** The configured sizes; zero and less stand for the defaults. */
  datatype Settings = Settings(headKeep: int, tailKeep: int, minMiddle: int)

  function HeadKeep(c: Settings): nat {
    if c.headKeep <= 0 then 2 else c.headKeep
  }

  function TailKeep(c: Settings): nat {
    if c.tailKeep <= 0 then 6 else c.tailKeep
  }

  function MinMiddle(c: Settings): nat {
    if c.minMiddle <= 0 then 8 else c.minMiddle
  }

  /** History says no, or the middle is too small. */
  predicate Skips(c: Settings, n: nat, historySkips: bool) {
    historySkips || n - HeadKeep(c) - TailKeep(c) < MinMiddle(c)
  }

  function Summarised(c: Settings, msgs: seq<Message>, summary: string): seq<Message>
    requires HeadKeep(c) + TailKeep(c) <= |msgs|
  {
    msgs[..HeadKeep(c)] + [UserText(summary)] + msgs[|msgs| - TailKeep(c)..]
  }

  /** `summary` is the provider's reply, or None when it failed. */
  function Compacted(c: Settings, msgs: seq<Message>, historySkips: bool, summary: Option<string>): Option<seq<Message>> {
    if Skips(c, |msgs|, historySkips) then Some(msgs)
    else match summary case None => None case Some(text) => Some(Summarised(c, msgs, text))
  }

  method CloneMessage(m: Message) returns (out: Message)
    ensures out == m
  {
    out := Message(m.role, m.content, [], []);
    if |m.calls| > 0 {
      var calls := new ToolCall[|m.calls|](i requires 0 <= i < |m.calls| => m.calls[i]);
      out := out.(calls := calls[..]);
    }
    if |m.results| > 0 {
      var results := new ToolResult[|m.results|](i requires 0 <= i < |m.results| => m.results[i]);
      out := out.(results := results[..]);
    }
  }

  method CloneAll(msgs: seq<Message>) returns (out: seq<Message>)
    ensures out == msgs
  {
    out := [];
    for i := 0 to |msgs|
      invariant out == msgs[..i]
    {
      var m := CloneMessage(msgs[i]);
      out := out + [m];
    }
  }

  method Compact(c: Settings, msgs: seq<Message>, historySkips: bool, summary: Option<string>) returns (r: Option<seq<Message>>)
    ensures r == Compacted(c, msgs, historySkips, summary)
  {
    var headKeep := if c.headKeep <= 0 then 2 else c.headKeep;
    var tailKeep := if c.tailKeep <= 0 then 6 else c.tailKeep;
    var minMiddle := if c.minMiddle <= 0 then 8 else c.minMiddle;
    if historySkips || |msgs| - headKeep - tailKeep < minMiddle {
      var same := CloneAll(msgs);
      return Some(same);
    }
    var head, tail := msgs[..headKeep], msgs[|msgs| - tailKeep..];
    if summary.None? {
      return None;
    }
    var out := CloneAll(head);
    out := out + [UserText(summary.value)];
    var rest := CloneAll(tail);
    out := out + rest;
    r := Some(out);
  }

  /** Where the messages of a compacted history come from. */
  lemma SummarisedAt(c: Settings, msgs: seq<Message>, text: string, i: nat)
    requires HeadKeep(c) + TailKeep(c) <= |msgs| && i < |Summarised(c, msgs, text)|
    ensures var h, out := HeadKeep(c), Summarised(c, msgs, text);
            out[i] == if i < h then msgs[i] else if i == h then UserText(text) else msgs[i - h - 1 + |msgs| - TailKeep(c)]
  {
  }

  lemma EvenSizesAlternate(c: Settings, msgs: seq<Message>, text: string)
    requires WellFormed(msgs) && HeadKeep(c) % 2 == 0 && TailKeep(c) % 2 == 0 && HeadKeep(c) + TailKeep(c) <= |msgs|
    ensures Alternates(Summarised(c, msgs, text))
  {
    var h, out := HeadKeep(c), Summarised(c, msgs, text);
    var shift := |msgs| - TailKeep(c) - h - 1;
    forall i | 0 <= i < |out|
      ensures out[i].role == RoleAt(i)
    {
      SummarisedAt(c, msgs, text, i);
      if i > h {
        assert msgs[i + shift].role == RoleAt(i + shift);
      }
    }
  }

  /** Results only stand at user messages. */
  lemma AssistantsCarryNoResults(msgs: seq<Message>, i: nat)
    requires WellFormed(msgs) && i < |msgs| && i % 2 == 1
    ensures msgs[i].results == []
  {
    assert msgs[i - 1].role == RoleAt(i - 1);
  }

  /** Even head and tail: a well-formed history stays well-formed. */
  lemma CompactKeepsWellFormed(c: Settings, msgs: seq<Message>, historySkips: bool, summary: Option<string>)
    requires WellFormed(msgs) && HeadKeep(c) % 2 == 0 && TailKeep(c) % 2 == 0
    ensures var r := Compacted(c, msgs, historySkips, summary); r.Some? ==> WellFormed(r.value)
  {
    if !Skips(c, |msgs|, historySkips) && summary.Some? {
      var text, h := summary.value, HeadKeep(c);
      var out, first := Summarised(c, msgs, text), |msgs| - TailKeep(c);
      EvenSizesAlternate(c, msgs, text);
      AssistantsCarryNoResults(msgs, first);
      forall i | 0 <= i < |out| && out[i].results != []
        ensures i > 0 && Answers(out[i - 1], out[i])
      {
        SummarisedAt(c, msgs, text, i);
        if i > 0 {
          SummarisedAt(c, msgs, text, i - 1);
        }
      }
    }
  }

  /** Roles still alternate after a real compaction exactly when both sizes are even. */
  lemma AlternationNeedsEvenSizes(c: Settings, msgs: seq<Message>, text: string)
    requires WellFormed(msgs) && HeadKeep(c) + TailKeep(c) <= |msgs|
    ensures Alternates(Summarised(c, msgs, text)) <==> HeadKeep(c) % 2 == 0 && TailKeep(c) % 2 == 0
  {
    var h, t, out := HeadKeep(c), TailKeep(c), Summarised(c, msgs, text);
    if h % 2 == 1 {
      SummarisedAt(c, msgs, text, h);
      assert out[h].role == User != RoleAt(h);
    } else if t % 2 == 1 {
      SummarisedAt(c, msgs, text, h + 1);
      assert msgs[|msgs| - t].role == RoleAt(|msgs| - t);
      assert out[h + 1].role == User != RoleAt(h + 1);
    } else {
      EvenSizesAlternate(c, msgs, text);
    }
  }

  /** Compaction cuts at one place only where a call could lose its answer: behind the head. */
  lemma CompactKeepsAnswers(c: Settings, msgs: seq<Message>, text: string)
    requires AnsweredExcept(msgs, HeadKeep(c) - 1) && HeadKeep(c) + TailKeep(c) <= |msgs|
    ensures AnsweredExcept(Summarised(c, msgs, text), HeadKeep(c) - 1)
  {
    var h, out := HeadKeep(c), Summarised(c, msgs, text);
    var shift := |msgs| - TailKeep(c) - h - 1;
    forall i | 0 <= i < |out| && i != h - 1
      ensures AnsweredAt(out, i)
    {
      SummarisedAt(c, msgs, text, i);
      if i + 1 < |out| {
        SummarisedAt(c, msgs, text, i + 1);
      }
      if i < h {
        assert AnsweredAt(msgs, i);
      } else if i > h {
        assert AnsweredAt(msgs, i + shift);
      }
    }
  }

  /** A compaction leaves every call answered exactly when the last head message makes none: its results, if it does, go with
      the middle. This holds of the first compaction and of every later one, which finds that message without its answer. */
  lemma LastHeadMessageDecides(c: Settings, msgs: seq<Message>, text: string)
    requires AnsweredExcept(msgs, HeadKeep(c) - 1) && HeadKeep(c) + TailKeep(c) <= |msgs|
    ensures EveryCallAnswered(Summarised(c, msgs, text)) <==> msgs[HeadKeep(c) - 1].calls == []
  {
    var h, out := HeadKeep(c), Summarised(c, msgs, text);
    CompactKeepsAnswers(c, msgs, text);
    SummarisedAt(c, msgs, text, h);
    SummarisedAt(c, msgs, text, h - 1);
    if msgs[h - 1].calls == [] {
      assert AnsweredAt(out, h - 1);
    } else {
      assert !AnsweredAt(out, h - 1);
    }
  }
}
