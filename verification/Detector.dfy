/** The stuck detector's checks and the bounded event buffer they look at. */
module Detector {
  import opened Text
  import opened Counting

  datatype Kind = ToolCall | ToolResult | ProviderResponse | OtherKind

  /** The fields of an event's data that the checks read; absent fields read as "", false and 0. */
  datatype Data = Data(name: string, input: string, content: string, isError: bool, toolCalls: real)

  /** `data` is None when the event carries no readable object. */
  datatype Event = Event(kind: Kind, data: Option<Data>)

  // ---------------------------------------------------------------- ping-pong

  /** Tool name and input; the program hashes the input, collisions apart this is the same. */
  type Signature = (string, string)

  function IsCall(e: Event): bool {
    e.kind == ToolCall && e.data.Some?
  }

  function Signatures(events: seq<Event>): seq<Signature> {
    if |events| == 0 then []
    else
      var e := events[|events| - 1];
      Signatures(events[..|events| - 1]) + if IsCall(e) then [(e.data.value.name, e.data.value.input)] else []
  }

  /** The k-th signature is tool name and input of the event at the k-th of these positions, in order. */
  ghost predicate SignedAt(events: seq<Event>, sigs: seq<Signature>, at: seq<nat>) {
    && |at| == |sigs| && (forall j, k :: 0 <= j < k < |at| ==> at[j] < at[k])
    && forall k :: 0 <= k < |at| ==> IsSignatureOf(events, at[k], sigs[k])
  }

  predicate IsSignatureOf(events: seq<Event>, i: nat, sig: Signature) {
    i < |events| && events[i].kind == ToolCall && events[i].data.Some?
    && sig == (events[i].data.value.name, events[i].data.value.input)
  }

  /** No readable call is left out. */
  ghost predicate Covers(events: seq<Event>, at: seq<nat>) {
    forall i :: 0 <= i < |events| && events[i].kind == ToolCall && events[i].data.Some? ==> i in at
  }

  lemma OneMoreEvent(events: seq<Event>, e: Event, sigs: seq<Signature>, at: seq<nat>)
    requires SignedAt(events, sigs, at) && Covers(events, at)
    ensures if e.kind == ToolCall && e.data.Some? then
              && SignedAt(events + [e], sigs + [(e.data.value.name, e.data.value.input)], at + [|events|])
              && Covers(events + [e], at + [|events|])
            else SignedAt(events + [e], sigs, at) && Covers(events + [e], at)
  {
    assert forall k :: 0 <= k < |at| ==> IsSignatureOf(events, at[k], sigs[k]) && IsSignatureOf(events + [e], at[k], sigs[k]);
    assert forall i :: 0 <= i < |events| && events[i].kind == ToolCall && events[i].data.Some? ==> i in at;
  }

  /** The signatures are tool name and input of the readable tool calls, all of them and in order. */
  lemma {:induction false} SignaturesMeaning(events: seq<Event>) returns (at: seq<nat>)
    ensures SignedAt(events, Signatures(events), at) && Covers(events, at)
  {
    if |events| == 0 {
      at := [];
    } else {
      var init, e := events[..|events| - 1], events[|events| - 1];
      at := SignaturesMeaning(init);
      OneMoreEvent(init, e, Signatures(init), at);
      assert init + [e] == events && Signatures(init) + [] == Signatures(init);
      at := at + if e.kind == ToolCall && e.data.Some? then [|init|] else [];
    }
  }

  /** From `s` to `e` two different signatures take turns. */
  predicate Alternates(sigs: seq<Signature>, s: int, e: int) {
    && 0 <= s && s + 2 <= e <= |sigs| && sigs[s] != sigs[s + 1]
    && forall k :: s <= k < e ==> sigs[k] == sigs[if (k - s) % 2 == 0 then s else s + 1]
  }

  datatype PingPong = PingPong(count: nat, a: Signature, b: Signature)

  /** Fires exactly when two different signatures take turns six times or more somewhere, with the length of the longest such
      stretch and its two signatures. */
  ghost predicate PingPongOf(sigs: seq<Signature>, r: Option<PingPong>) {
    match r
    case None => forall s, e :: Alternates(sigs, s, e) ==> e - s < 6
    case Some(p) =>
      && p.count >= 6
      && (forall s, e :: Alternates(sigs, s, e) ==> e - s <= p.count)
      && exists s :: Alternates(sigs, s, s + p.count) && sigs[s] == p.a && sigs[s + 1] == p.b
  }

  /** The loop over one start: how long the two signatures found there take turns. */
  method RunFrom(sigs: seq<Signature>, start: nat) returns (run: nat)
    requires start + 2 <= |sigs| && sigs[start] != sigs[start + 1]
    ensures Alternates(sigs, start, start + run)
    ensures forall e :: Alternates(sigs, start, e) ==> e <= start + run
  {
    var a, b := sigs[start], sigs[start + 1];
    run := 2;
    var k := start + 2;
    while k < |sigs|
      invariant start + 2 <= k <= |sigs| && run == k - start
      invariant Alternates(sigs, start, k)
    {
      var expected := a;
      if (k - start) % 2 == 1 {
        expected := b;
      }
      if sigs[k] != expected {
        break;
      }
      run := run + 1;
      k := k + 1;
    }
  }

  method CheckPingPong(events: seq<Event>) returns (r: Option<PingPong>)
    ensures PingPongOf(Signatures(events), r)
  {
    var sigs := [];
    for i := 0 to |events|
      invariant sigs == Signatures(events[..i])
    {
      assert events[..i + 1][..i] == events[..i];
      var e := events[i];
      if e.kind != ToolCall {
        continue;
      }
      if e.data.None? {
        continue;
      }
      sigs := sigs + [(e.data.value.name, e.data.value.input)];
    }
    assert events[..|events|] == events;
    r := LongestAlternation(sigs);
  }

  method LongestAlternation(sigs: seq<Signature>) returns (r: Option<PingPong>)
    ensures PingPongOf(sigs, r)
  {
    if |sigs| < 6 {
      return None;
    }
    r := None;
    for start := 0 to |sigs| - 5
      invariant r.None? ==> forall s, e :: 0 <= s < start && Alternates(sigs, s, e) ==> e - s < 6
      invariant r.Some? ==> r.value.count >= 6
      invariant r.Some? ==> forall s, e :: 0 <= s < start && Alternates(sigs, s, e) ==> e - s <= r.value.count
      invariant r.Some? ==> exists s :: 0 <= s < start && Alternates(sigs, s, s + r.value.count)
                              && sigs[s] == r.value.a && sigs[s + 1] == r.value.b
    {
      if sigs[start] == sigs[start + 1] {
        continue;
      }
      var run := RunFrom(sigs, start);
      var best := if r.None? then 0 else r.value.count;
      if run >= 6 && run > best {
        r := Some(PingPong(run, sigs[start], sigs[start + 1]));
      }
    }
  }

  // ---------------------------------------------------------------- monologue

  /** A response without tool calls. */
  predicate Talks(e: Event) {
    e.kind == ProviderResponse && e.data.Some? && e.data.value.toolCalls == 0.0
  }

  /** A tool result, a response with tool calls, or an unreadable response. */
  predicate Breaks(e: Event) {
    e.kind == ToolResult || (e.kind == ProviderResponse && !Talks(e))
  }

  function TalkCount(events: seq<Event>, i: nat, j: nat): nat
    requires i <= j <= |events|
  {
    if i == j then 0 else TalkCount(events, i, j - 1) + if Talks(events[j - 1]) then 1 else 0
  }

  ghost predicate Unbroken(events: seq<Event>, i: int, j: int) {
    0 <= i <= j <= |events| && forall k :: i <= k < j ==> !Breaks(events[k])
  }

  /** `n` is the largest number of bare responses in a stretch that nothing breaks. */
  ghost predicate LongestMonologue(events: seq<Event>, n: nat) {
    && (exists i, j :: Unbroken(events, i, j) && TalkCount(events, i, j) == n)
    && (forall i, j :: Unbroken(events, i, j) ==> TalkCount(events, i, j) <= n)
  }

  lemma {:induction false} TalkCountFrom(events: seq<Event>, i: nat, k: nat, j: nat)
    requires i <= k <= j <= |events|
    ensures TalkCount(events, k, j) <= TalkCount(events, i, j)
  {
    if k < j {
      TalkCountFrom(events, i, k, j - 1);
    }
  }

  /** What is counted: readable provider responses with no tool calls. */
  lemma {:induction false} TalkCountMeaning(events: seq<Event>, i: nat, j: nat)
    requires i <= j <= |events|
    ensures TalkCount(events, i, j) == |set k: nat | i <= k < j && IsBareResponse(events[k])|
  {
    if i < j {
      TalkCountMeaning(events, i, j - 1);
      var before, all := set k: nat | i <= k < j - 1 && IsBareResponse(events[k]), set k: nat | i <= k < j && IsBareResponse(events[k]);
      assert all == before + if IsBareResponse(events[j - 1]) then {j - 1} else {};
    }
  }

  predicate IsBareResponse(e: Event) {
    match e
    case Event(ProviderResponse, Some(data)) => data.toolCalls == 0.0
    case _ => false
  }

  /** What breaks a stretch: a tool result, and any provider response that is not counted. */
  lemma BreaksMeaning(e: Event)
    ensures Breaks(e) <==> e.kind == ToolResult || (e.kind == ProviderResponse && !IsBareResponse(e))
  {
  }

  /** From the last break on, no stretch that ends at `j` has more. */
  lemma LongestUpTo(events: seq<Event>, from: nat, j: nat)
    requires Unbroken(events, from, j) && (from > 0 ==> Breaks(events[from - 1]))
    ensures forall a, b :: Unbroken(events, a, b) && b == j ==> TalkCount(events, a, b) <= TalkCount(events, from, j)
  {
    forall a, b | Unbroken(events, a, b) && b == j
      ensures TalkCount(events, a, b) <= TalkCount(events, from, j)
    {
      if a < from {
        assert false;
      }
      TalkCountFrom(events, from, a, j);
    }
  }

  /** Fires from three on. */
  method CheckMonologue(events: seq<Event>) returns (fires: bool, count: nat)
    ensures LongestMonologue(events, count) && (fires <==> count >= 3)
  {
    var maxRun, cur := 0, 0;
    ghost var from, bestFrom, bestTo := 0, 0, 0;
    for i := 0 to |events|
      invariant Unbroken(events, from, i) && cur == TalkCount(events, from, i)
      invariant from > 0 ==> Breaks(events[from - 1])
      invariant Unbroken(events, bestFrom, bestTo) && maxRun == TalkCount(events, bestFrom, bestTo) && cur <= maxRun
      invariant forall a, b :: Unbroken(events, a, b) && b <= i ==> TalkCount(events, a, b) <= maxRun
    {
      var e := events[i];
      if e.kind == ProviderResponse {
        if e.data.None? {
          cur := 0;
        } else if e.data.value.toolCalls == 0.0 {
          cur := cur + 1;
          if cur > maxRun {
            maxRun := cur;
            bestFrom, bestTo := from, i + 1;
          }
        } else {
          cur := 0;
        }
      } else if e.kind == ToolResult {
        cur := 0;
      }
      if Breaks(e) {
        from := i + 1;
      }
      LongestUpTo(events, from, i + 1);
    }
    fires, count := maxRun >= 3, maxRun;
  }

  // ---------------------------------------------------------------- calls and their results

  predicate IsNamedCall(e: Event) {
    IsCall(e) && e.data.value.name != ""
  }

  predicate IsResultOf(e: Event, name: string) {
    e.kind == ToolResult && e.data.Some? && e.data.value.name == name
  }

  /** The next result of `name` at or after `j`, or the number of events. */
  function NextResult(events: seq<Event>, j: nat, name: string): (r: nat)
    requires j <= |events|
    ensures j <= r <= |events|
    ensures r < |events| ==> IsResultOf(events[r], name)
    ensures forall k :: j <= k < r ==> !IsResultOf(events[k], name)
    decreases |events| - j
  {
    if j == |events| || IsResultOf(events[j], name) then j else NextResult(events, j + 1, name)
  }

  /** Positions of a call and of the result paired with it. */
  type Pairing = (nat, nat)

  function PairsFrom(events: seq<Event>, i: nat): seq<Pairing>
    requires i <= |events|
    decreases |events| - i
  {
    if i == |events| then []
    else if !IsNamedCall(events[i]) then PairsFrom(events, i + 1)
    else
      var j := NextResult(events, i + 1, events[i].data.value.name);
      if j == |events| then PairsFrom(events, i + 1) else [(i, j)] + PairsFrom(events, j + 1)
  }

  /** A call at or after `i` with the first later result of its name. */
  predicate IsPairing(events: seq<Event>, i: nat, p: Pairing) {
    && i <= p.0 < p.1 < |events| && IsNamedCall(events[p.0])
    && p.1 == NextResult(events, p.0 + 1, events[p.0].data.value.name)
  }

  /** Pairings at or after `i`, each behind the one before it. */
  predicate PairedInOrder(events: seq<Event>, i: nat, ps: seq<Pairing>) {
    && (forall k :: 0 <= k < |ps| ==> IsPairing(events, i, ps[k]))
    && (forall k :: 0 < k < |ps| ==> ps[k - 1].1 < ps[k].0)
  }

  lemma OnePairMore(events: seq<Event>, i: nat, p: Pairing, rest: seq<Pairing>)
    requires IsPairing(events, i, p) && PairedInOrder(events, p.1 + 1, rest)
    ensures PairedInOrder(events, i, [p] + rest)
  {
    var ps := [p] + rest;
    forall k | 0 <= k < |ps|
      ensures IsPairing(events, i, ps[k]) && (k > 0 ==> ps[k - 1].1 < ps[k].0)
    {
      if k > 0 {
        assert ps[k] == rest[k - 1];
        assert k > 1 ==> ps[k - 1] == rest[k - 2];
      }
    }
  }

  /** The pairs lie one after the other and do not overlap. */
  lemma {:induction false} PairsAreOrdered(events: seq<Event>, i: nat)
    requires i <= |events|
    ensures PairedInOrder(events, i, PairsFrom(events, i))
    decreases |events| - i
  {
    if i < |events| {
      PairsAreOrdered(events, i + 1);
      if IsNamedCall(events[i]) {
        var j := NextResult(events, i + 1, events[i].data.value.name);
        if j < |events| {
          PairsAreOrdered(events, j + 1);
          OnePairMore(events, i, (i, j), PairsFrom(events, j + 1));
        }
      }
    }
  }

  /** No call is passed over: a named call with a later result of its name is paired, or stands inside an earlier pair. */
  lemma {:induction false} PairsMissNothing(events: seq<Event>, i: nat, c: nat)
    requires i <= c < |events| && IsNamedCall(events[c])
    requires exists j :: c < j < |events| && IsResultOf(events[j], events[c].data.value.name)
    ensures exists k :: 0 <= k < |PairsFrom(events, i)| && PairsFrom(events, i)[k].0 <= c <= PairsFrom(events, i)[k].1
    decreases |events| - i
  {
    var ps := PairsFrom(events, i);
    if IsNamedCall(events[i]) {
      var j := NextResult(events, i + 1, events[i].data.value.name);
      if j == |events| {
        PairsMissNothing(events, i + 1, c);
      } else if c <= j {
        assert ps[0] == (i, j);
      } else {
        PairsMissNothing(events, j + 1, c);
        var rest := PairsFrom(events, j + 1);
        var k :| 0 <= k < |rest| && rest[k].0 <= c <= rest[k].1;
        assert ps[k + 1] == rest[k];
      }
    } else {
      PairsMissNothing(events, i + 1, c);
    }
  }

  method PairToolEvents(events: seq<Event>) returns (pairs: seq<Pairing>)
    ensures pairs == PairsFrom(events, 0)
  {
    pairs := [];
    var i := 0;
    while i < |events|
      invariant 0 <= i <= |events|
      invariant PairsFrom(events, 0) == pairs + PairsFrom(events, i)
    {
      var e := events[i];
      if e.kind != ToolCall || e.data.None? || e.data.value.name == "" {
        i := i + 1;
        continue;
      }
      var name, j := e.data.value.name, i + 1;
      while j < |events| && !IsResultOf(events[j], name)
        invariant i + 1 <= j <= |events|
        invariant NextResult(events, i + 1, name) == NextResult(events, j, name)
      {
        j := j + 1;
      }
      if j < |events| {
        pairs := pairs + [(i, j)];
        i := j;
      }
      i := i + 1;
    }
  }

  // ---------------------------------------------------------------- repeated actions

  /** Tool name, input, and, for results that are no error, content. */
  type Key = (string, string, string)

  /** The pair's key, if its result is an error or not as asked for. */
  function KeyOf(events: seq<Event>, p: Pairing, errors: bool): Option<Key>
    requires IsPairing(events, 0, p)
  {
    var call, result := events[p.0].data.value, events[p.1].data.value;
    if result.isError != errors then None
    else Some((call.name, call.input, if errors then "" else result.content))
  }

  predicate ArePairings(events: seq<Event>, pairs: seq<Pairing>) {
    forall k :: 0 <= k < |pairs| ==> IsPairing(events, 0, pairs[k])
  }

  /** How often a key occurs. */
  function Times(events: seq<Event>, pairs: seq<Pairing>, errors: bool, key: Key): nat
    requires ArePairings(events, pairs)
  {
    if |pairs| == 0 then 0
    else
      var init := pairs[..|pairs| - 1];
      Times(events, init, errors, key) + if KeyOf(events, pairs[|pairs| - 1], errors) == Some(key) then 1 else 0
  }

  /** The pair is a call of `name` with `input` whose result is an error or not as asked for; of a success the content counts too. */
  predicate IsRepeatOf(events: seq<Event>, p: Pairing, errors: bool, name: string, input: string, content: string)
    requires IsPairing(events, 0, p)
  {
    var call, result := events[p.0].data.value, events[p.1].data.value;
    && call.name == name && call.input == input && result.isError == errors
    && content == if errors then "" else result.content
  }

  lemma {:induction false} TimesUpTo(events: seq<Event>, pairs: seq<Pairing>, errors: bool, key: Key, hit: nat -> bool, n: nat)
    requires ArePairings(events, pairs) && n <= |pairs|
    requires forall k: nat :: k < |pairs| ==> (hit(k) <==> IsRepeatOf(events, pairs[k], errors, key.0, key.1, key.2))
    ensures Times(events, pairs[..n], errors, key) == |set k: nat | k < n && hit(k)|
  {
    if n == 0 {
      assert (set k: nat | k < 0 && hit(k)) == {};
    } else {
      TimesUpTo(events, pairs, errors, key, hit, n - 1);
      OneMoreHit(hit, n - 1);
      assert pairs[..n][..n - 1] == pairs[..n - 1];
    }
  }

  /** What tells two calls apart: tool name, input and, for successes, content. */
  lemma TimesMeaning(events: seq<Event>, pairs: seq<Pairing>, errors: bool, name: string, input: string, content: string)
    requires ArePairings(events, pairs)
    ensures Times(events, pairs, errors, (name, input, content))
         == |set k: nat | k < |pairs| && IsRepeatOf(events, pairs[k], errors, name, input, content)|
  {
    var hit := (k: nat) => k < |pairs| && IsRepeatOf(events, pairs[k], errors, name, input, content);
    TimesUpTo(events, pairs, errors, (name, input, content), hit, |pairs|);
    assert pairs[..|pairs|] == pairs;
    assert (set k: nat | k < |pairs| && hit(k))
        == (set k: nat | k < |pairs| && IsRepeatOf(events, pairs[k], errors, name, input, content));
  }

  /** Exactly the keys that occur `atLeast` times or more, with how often. */
  ghost predicate Repeats(events: seq<Event>, errors: bool, atLeast: nat, signals: map<Key, nat>) {
    var pairs := PairsFrom(events, 0);
    && ArePairings(events, pairs)
    && (forall key :: key in signals <==> Times(events, pairs, errors, key) >= atLeast)
    && (forall key :: key in signals ==> signals[key] == Times(events, pairs, errors, key))
  }

  ghost predicate Counted(events: seq<Event>, pairs: seq<Pairing>, errors: bool, counts: map<Key, nat>)
    requires ArePairings(events, pairs)
  {
    && (forall key :: key in counts <==> Times(events, pairs, errors, key) > 0)
    && (forall key :: key in counts ==> counts[key] == Times(events, pairs, errors, key))
  }

  lemma OneMoreCounted(events: seq<Event>, pairs: seq<Pairing>, k: nat, errors: bool, counts: map<Key, nat>)
    requires ArePairings(events, pairs) && k < |pairs| && Counted(events, pairs[..k], errors, counts)
    ensures match KeyOf(events, pairs[k], errors)
            case None => Counted(events, pairs[..k + 1], errors, counts)
            case Some(key) =>
              Counted(events, pairs[..k + 1], errors, counts[key := (if key in counts then counts[key] else 0) + 1])
  {
    assert pairs[..k + 1][..k] == pairs[..k] && pairs[..k + 1][k] == pairs[k];
    forall key
      ensures Times(events, pairs[..k + 1], errors, key)
           == Times(events, pairs[..k], errors, key) + if KeyOf(events, pairs[k], errors) == Some(key) then 1 else 0
    {
    }
  }

  /** The counting loop the two checks share. */
  method CountRepeats(events: seq<Event>, errors: bool, atLeast: nat) returns (signals: map<Key, nat>)
    requires atLeast > 0
    ensures Repeats(events, errors, atLeast, signals)
  {
    var pairs := PairToolEvents(events);
    PairsAreOrdered(events, 0);
    var counts: map<Key, nat> := map[];
    for k := 0 to |pairs|
      invariant Counted(events, pairs[..k], errors, counts)
    {
      OneMoreCounted(events, pairs, k, errors, counts);
      var key := KeyOf(events, pairs[k], errors);
      if key.Some? {
        counts := counts[key.value := (if key.value in counts then counts[key.value] else 0) + 1];
      }
    }
    assert pairs[..|pairs|] == pairs;
    signals := map key | key in counts && counts[key] >= atLeast :: counts[key];
  }

  /** The same call with the same result, four times or more. */
  method CheckRepeatedActionObservation(events: seq<Event>) returns (signals: map<Key, nat>)
    ensures Repeats(events, false, 4, signals)
  {
    signals := CountRepeats(events, false, 4);
  }

  /** The same call failing, three times or more. */
  method CheckRepeatedActionError(events: seq<Event>) returns (signals: map<Key, nat>)
    ensures Repeats(events, true, 3, signals)
  {
    signals := CountRepeats(events, true, 3);
  }

  // ---------------------------------------------------------------- the bounded buffer

  function Tail<T>(s: seq<T>, n: nat): (r: seq<T>)
    ensures |r| == if |s| <= n then |s| else n
  {
    if |s| > n then s[|s| - n..] else s
  }

  /** The last `n`, or all when there are no more. */
  lemma TailMeaning<T>(front: seq<T>, back: seq<T>)
    ensures Tail(front + back, |back|) == back
    ensures Tail(back, |front| + |back|) == back
  {
  }

  /** Looking at the last `w` of the last `m` is looking at the last `w`, exactly when `w` is no larger or the log is short. */
  lemma TailOfTail<T>(log: seq<T>, m: nat, w: nat)
    ensures Tail(Tail(log, m), w) == Tail(log, w) <==> w <= m || |log| <= m
  {
    if |log| > m {
      if w <= m {
        assert Tail(Tail(log, m), w) == Tail(log, w);
      } else {
        assert |Tail(Tail(log, m), w)| < |Tail(log, w)|;
      }
    }
  }

  const DEFAULT_WINDOW := 50
  const DEFAULT_RECENT_MAX := 200

  function WindowOf(window: int): nat {
    if window <= 0 then DEFAULT_WINDOW else window
  }

  class EventBuffer {
    var recent: seq<Event>
    var recentMax: nat
    /** Everything emitted since the last reset. */
    ghost var log: seq<Event>

    ghost predicate Valid()
      reads this
    {
      if recentMax == 0 then recent == log == [] else recent == Tail(log, recentMax)
    }

    constructor ()
      ensures Valid() && log == [] && recentMax == 0
    {
      recent, recentMax, log := [], 0, [];
    }

    method Emit(e: Event)
      requires Valid()
      modifies this
      ensures Valid() && log == old(log) + [e]
      ensures recentMax == if old(recentMax) == 0 then 200 else old(recentMax)
    {
      if recentMax == 0 {
        recentMax := 200;
      }
      recent := recent + [e];
      if |recent| > recentMax {
        recent := recent[|recent| - recentMax..];
      }
      log := log + [e];
    }

    /** After a reset to a checkpoint. */
    method Reset()
      requires Valid()
      modifies this
      ensures Valid() && log == [] && recent == [] && recentMax == old(recentMax)
    {
      recent := [];
      log := [];
    }

    /** The events the detector's checks see are those they would see in the whole log, exactly when the window is no larger
        than the buffer or the log fits into it. */
    method WindowEvents(window: int) returns (events: seq<Event>)
      requires Valid()
      ensures events == Tail(recent, if window <= 0 then 50 else window)
      ensures recentMax > 0 ==> (events == Tail(log, WindowOf(window)) <==> WindowOf(window) <= recentMax || |log| <= recentMax)
    {
      var w := window;
      if w <= 0 {
        w := 50;
      }
      events := recent;
      if |events| > w {
        events := events[|events| - w..];
      }
      TailOfTail(log, recentMax, w);
    }

    /** Checking the buffer gives the signals of the whole log since the last reset, for any window the buffer can hold. */
    method Check(window: int)
      returns (repeated: map<Key, nat>, failed: map<Key, nat>, pingPong: Option<PingPong>, monologue: bool, count: nat)
      requires Valid() && WindowOf(window) <= if recentMax == 0 then DEFAULT_RECENT_MAX else recentMax
      ensures Repeats(Tail(log, WindowOf(window)), false, 4, repeated) && Repeats(Tail(log, WindowOf(window)), true, 3, failed)
      ensures PingPongOf(Signatures(Tail(log, WindowOf(window))), pingPong)
      ensures LongestMonologue(Tail(log, WindowOf(window)), count) && (monologue <==> count >= 3)
    {
      var events := WindowEvents(window);
      repeated := CheckRepeatedActionObservation(events);
      failed := CheckRepeatedActionError(events);
      pingPong := CheckPingPong(events);
      monologue, count := CheckMonologue(events);
    }
  }
}
