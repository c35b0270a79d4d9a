/** The event stream: appends that record under the lock and send outside it, subscriptions with a bounded channel. */
module EventStream {
  import opened Text

  datatype Event = Event(id: nat, payload: string)

  /** A subscriber's channel: what was taken out, what still waits, and how long the log was at the subscription. */
  datatype Subscription = Subscription(buffer: nat, received: seq<Event>, queue: seq<Event>, since: nat)

  /** Everything the subscriber was ever sent. */
  function Sent(s: Subscription): seq<Event> {
    s.received + s.queue
  }

  /** A send that never blocks: a full channel drops the event. A channel without a buffer hands the event over when a receiver
      is waiting at that moment; on any other channel a waiting receiver means an empty queue, and takes the event from there. */
  function Offer(s: Subscription, e: Event, waiting: bool): Subscription {
    if |s.queue| < s.buffer then s.(queue := s.queue + [e])
    else if s.buffer == 0 && waiting then s.(received := s.received + [e])
    else s
  }

  // ---------------------------------------------------------------- appends one at a time

  class Stream {
    var events: seq<Event>
    var curId: nat
    var subs: seq<Subscription>

    ghost predicate Valid()
      reads this
    {
      curId == |events| && forall k :: 0 <= k < |events| ==> events[k].id == k + 1
    }

    constructor ()
      ensures Valid() && events == [] && subs == []
    {
      events, curId, subs := [], 0, [];
    }

    /** Refuses an event that has an id; otherwise the event gets the next id, is logged, and is offered to every subscriber;
        `waiting` are the subscribers with a receiver waiting. */
    method Append(e0: Event, waiting: set<nat>) returns (id: Option<nat>)
      requires Valid()
      modifies this
      ensures Valid()
      ensures e0.id != 0 ==> id == None && events == old(events) && subs == old(subs)
      ensures e0.id == 0 ==>
                && id == Some(|old(events)| + 1)
                && events == old(events) + [Event(|old(events)| + 1, e0.payload)]
                && |subs| == |old(subs)|
                && forall i :: 0 <= i < |subs| ==> subs[i] == Offer(old(subs)[i], events[|events| - 1], i in waiting)
    {
      if e0.id != 0 {
        return None;
      }
      curId := curId + 1;
      var e := e0.(id := curId);
      events := events + [e];
      for i := 0 to |subs|
        invariant |subs| == |old(subs)|
        invariant events == old(events) + [e] && curId == |events|
        invariant forall k :: 0 <= k < |subs| ==> subs[k] == if k < i then Offer(old(subs)[k], e, k in waiting) else old(subs)[k]
      {
        subs := subs[i := Offer(subs[i], e, i in waiting)];
      }
      id := Some(e.id);
    }

    method Subscribe(buffer: nat) returns (i: nat)
      requires Valid()
      modifies this
      ensures Valid() && events == old(events)
      ensures i == |old(subs)| && subs == old(subs) + [Subscription(buffer, [], [], |events|)]
    {
      i := |subs|;
      subs := subs + [Subscription(buffer, [], [], |events|)];
    }
  }

  // ---------------------------------------------------------------- any interleaving

  /** An append between its lock and its last send: the recorded event and the subscribers `next..count` still to be offered it. */
  datatype Flight = Flight(event: Event, next: nat, count: nat)

  datatype State = State(events: seq<Event>, subs: seq<Subscription>, flights: map<nat, Flight>)

  /** Appends are known by a number of their caller's. Send offers the event to the next subscriber, who may have a receiver
      waiting; Return ends the append. */
  datatype Step =
    | Record(append: nat, payload: string)
    | Send(append: nat, waiting: bool)
    | Return(append: nat)
    | Subscribe(buffer: nat)
    | Receive(sub: nat)

  const INITIAL := State([], [], map[])

  predicate Enabled(s: State, step: Step) {
    match step
    case Record(a, _) => a !in s.flights
    case Send(a, _) => a in s.flights && s.flights[a].next < s.flights[a].count && s.flights[a].next < |s.subs|
    case Return(a) => a in s.flights && s.flights[a].next == s.flights[a].count
    case Subscribe(_) => true
    case Receive(i) => i < |s.subs| && s.subs[i].queue != []
  }

  function Next(s: State, step: Step): State
    requires Enabled(s, step)
  {
    match step
    case Record(a, payload) =>
      var e := Event(|s.events| + 1, payload);
      State(s.events + [e], s.subs, s.flights[a := Flight(e, 0, |s.subs|)])
    case Send(a, waiting) =>
      var f := s.flights[a];
      s.(subs := s.subs[f.next := Offer(s.subs[f.next], f.event, waiting)], flights := s.flights[a := f.(next := f.next + 1)])
    case Return(a) => s.(flights := s.flights - {a})
    case Subscribe(buffer) => s.(subs := s.subs + [Subscription(buffer, [], [], |s.events|)])
    case Receive(i) =>
      var sub := s.subs[i];
      s.(subs := s.subs[i := sub.(received := sub.received + [sub.queue[0]], queue := sub.queue[1..])])
  }

  /** A logged event, logged after the subscription. */
  ghost predicate Owed(events: seq<Event>, sub: Subscription, e: Event) {
    sub.since < e.id <= |events| && e == events[e.id - 1]
  }

  /** Only events logged after the subscription, none twice, and no more waiting than fit. */
  ghost predicate SubInv(events: seq<Event>, sub: Subscription) {
    && |sub.queue| <= sub.buffer
    && (forall j :: 0 <= j < |Sent(sub)| ==> Owed(events, sub, Sent(sub)[j]))
    && (forall j, k :: 0 <= j < k < |Sent(sub)| ==> Sent(sub)[j].id != Sent(sub)[k].id)
  }

  ghost predicate NotYetSent(sub: Subscription, e: Event) {
    forall j :: 0 <= j < |Sent(sub)| ==> Sent(sub)[j].id != e.id
  }

  ghost predicate FlightInv(s: State, f: Flight) {
    && f.next <= f.count <= |s.subs|
    && forall i :: f.next <= i < f.count ==> Owed(s.events, s.subs[i], f.event) && NotYetSent(s.subs[i], f.event)
  }

  ghost predicate Inv(s: State) {
    && (forall k :: 0 <= k < |s.events| ==> s.events[k].id == k + 1)
    && (forall i :: 0 <= i < |s.subs| ==> SubInv(s.events, s.subs[i]) && s.subs[i].since <= |s.events|)
    && (forall a :: a in s.flights ==> FlightInv(s, s.flights[a]) && 0 < s.flights[a].event.id <= |s.events|)
    && (forall a, b :: a in s.flights && b in s.flights && a != b ==> s.flights[a].event.id != s.flights[b].event.id)
  }

  /** An offer sends the event behind all others or not at all. */
  lemma OfferSends(sub: Subscription, e: Event, waiting: bool)
    requires |sub.queue| <= sub.buffer
    ensures Sent(Offer(sub, e, waiting))
         == if |sub.queue| < sub.buffer || (sub.buffer == 0 && waiting) then Sent(sub) + [e] else Sent(sub)
  {
    assert sub.received + (sub.queue + [e]) == Sent(sub) + [e];
    assert sub.queue == [] ==> (sub.received + [e]) + sub.queue == Sent(sub) + [e];
  }

  lemma OneMoreSent(events: seq<Event>, sub: Subscription, e: Event, sub': Subscription)
    requires SubInv(events, sub) && Owed(events, sub, e) && NotYetSent(sub, e)
    requires sub'.since == sub.since && |sub'.queue| <= sub'.buffer && Sent(sub') == Sent(sub) + [e]
    ensures SubInv(events, sub') && forall f :: NotYetSent(sub, f) && f.id != e.id ==> NotYetSent(sub', f)
  {
  }

  lemma OfferKeeps(events: seq<Event>, sub: Subscription, e: Event, waiting: bool)
    requires SubInv(events, sub) && Owed(events, sub, e) && NotYetSent(sub, e)
    ensures SubInv(events, Offer(sub, e, waiting))
    ensures forall f :: NotYetSent(sub, f) && f.id != e.id ==> NotYetSent(Offer(sub, e, waiting), f)
  {
    OfferSends(sub, e, waiting);
    var sub' := Offer(sub, e, waiting);
    if Sent(sub') != Sent(sub) {
      OneMoreSent(events, sub, e, sub');
    }
  }

  lemma ReceiveKeeps(sub: Subscription)
    requires sub.queue != []
    ensures Sent(sub.(received := sub.received + [sub.queue[0]], queue := sub.queue[1..])) == Sent(sub)
  {
  }

  lemma RecordKeepsInv(s: State, a: nat, payload: string)
    requires Inv(s) && Enabled(s, Record(a, payload))
    ensures Inv(Next(s, Record(a, payload)))
  {
    var s' := Next(s, Record(a, payload));
    forall i | 0 <= i < |s.subs|
      ensures SubInv(s'.events, s.subs[i]) && NotYetSent(s.subs[i], s'.flights[a].event)
    {
      assert SubInv(s.events, s.subs[i]);
    }
    forall b | b in s'.flights
      ensures FlightInv(s', s'.flights[b])
    {
      if b != a {
        assert FlightInv(s, s.flights[b]);
      }
    }
  }

  lemma SendKeepsInv(s: State, a: nat, waiting: bool)
    requires Inv(s) && Enabled(s, Send(a, waiting))
    ensures Inv(Next(s, Send(a, waiting)))
  {
    var s', f := Next(s, Send(a, waiting)), s.flights[a];
    assert FlightInv(s, f);
    OfferKeeps(s.events, s.subs[f.next], f.event, waiting);
    forall b | b in s'.flights
      ensures FlightInv(s', s'.flights[b])
    {
      assert FlightInv(s, s.flights[b]);
    }
  }

  lemma ReceiveKeepsInv(s: State, i: nat)
    requires Inv(s) && Enabled(s, Receive(i))
    ensures Inv(Next(s, Receive(i)))
  {
    var s' := Next(s, Receive(i));
    ReceiveKeeps(s.subs[i]);
    forall b | b in s'.flights
      ensures FlightInv(s', s'.flights[b])
    {
      assert FlightInv(s, s.flights[b]);
    }
  }

  lemma SubscribeKeepsInv(s: State, buffer: nat)
    requires Inv(s)
    ensures Inv(Next(s, Step.Subscribe(buffer)))
  {
    var s' := Next(s, Step.Subscribe(buffer));
    forall b | b in s'.flights
      ensures FlightInv(s', s'.flights[b])
    {
      assert FlightInv(s, s.flights[b]);
    }
  }

  lemma NextKeepsInv(s: State, step: Step)
    requires Inv(s) && Enabled(s, step)
    ensures Inv(Next(s, step))
  {
    match step {
      case Record(a, payload) => RecordKeepsInv(s, a, payload);
      case Send(a, waiting) => SendKeepsInv(s, a, waiting);
      case Return(a) =>
        forall b | b in Next(s, step).flights
          ensures FlightInv(Next(s, step), s.flights[b])
        {
          assert FlightInv(s, s.flights[b]);
        }
      case Subscribe(buffer) => SubscribeKeepsInv(s, buffer);
      case Receive(i) => ReceiveKeepsInv(s, i);
    }
  }

  predicate Runs(s: State, steps: seq<Step>)
    decreases |steps|
  {
    |steps| == 0 || (Enabled(s, steps[0]) && Runs(Next(s, steps[0]), steps[1..]))
  }

  function After(s: State, steps: seq<Step>): State
    requires Runs(s, steps)
    decreases |steps|
  {
    if |steps| == 0 then s else After(Next(s, steps[0]), steps[1..])
  }

  lemma {:induction false} EveryRunKeepsInv(s: State, steps: seq<Step>)
    requires Inv(s) && Runs(s, steps)
    ensures Inv(After(s, steps))
    decreases |steps|
  {
    if |steps| > 0 {
      NextKeepsInv(s, steps[0]);
      EveryRunKeepsInv(Next(s, steps[0]), steps[1..]);
    }
  }

  /** After any interleaving the event at position k of the log has id k + 1, and no subscriber was sent an event twice or one
      logged before it subscribed. */
  lemma EveryRun(steps: seq<Step>)
    requires Runs(INITIAL, steps)
    ensures var s := After(INITIAL, steps);
            && (forall k :: 0 <= k < |s.events| ==> s.events[k].id == k + 1)
            && (forall i :: 0 <= i < |s.subs| ==> SubInv(s.events, s.subs[i]))
  {
    EveryRunKeepsInv(INITIAL, steps);
  }

  // ---------------------------------------------------------------- order

  ghost predicate Increasing(sub: Subscription) {
    forall j, k :: 0 <= j < k < |Sent(sub)| ==> Sent(sub)[j].id < Sent(sub)[k].id
  }

  ghost predicate AllBelow(sub: Subscription, id: nat) {
    forall j :: 0 <= j < |Sent(sub)| ==> Sent(sub)[j].id < id
  }

  ghost predicate InOrder(s: State) {
    forall i :: 0 <= i < |s.subs| ==> Increasing(s.subs[i])
  }

  /** The append has yet to offer its event to subscriber `i`. */
  predicate Owes(s: State, a: nat, i: nat) {
    a in s.flights && s.flights[a].next <= i < s.flights[a].count
  }

  /** No subscriber is owed an event by two appends at once, or an event older than one it was sent already. */
  ghost predicate Calm(s: State) {
    && (forall i: nat, a, b :: Owes(s, a, i) && Owes(s, b, i) ==> a == b)
    && (forall i: nat, a :: i < |s.subs| && Owes(s, a, i) ==> AllBelow(s.subs[i], s.flights[a].event.id))
  }

  predicate NoRecord(steps: seq<Step>) {
    forall k :: 0 <= k < |steps| ==> !steps[k].Record?
  }

  lemma OfferInOrder(sub: Subscription, e: Event, waiting: bool)
    requires |sub.queue| <= sub.buffer && Increasing(sub) && AllBelow(sub, e.id)
    ensures Increasing(Offer(sub, e, waiting))
  {
    OfferSends(sub, e, waiting);
  }

  lemma SendStaysCalm(s: State, a: nat, waiting: bool)
    requires Inv(s) && InOrder(s) && Calm(s) && Enabled(s, Send(a, waiting))
    ensures InOrder(Next(s, Send(a, waiting))) && Calm(Next(s, Send(a, waiting)))
  {
    var s', f := Next(s, Send(a, waiting)), s.flights[a];
    assert Owes(s, a, f.next) && SubInv(s.events, s.subs[f.next]);
    OfferInOrder(s.subs[f.next], f.event, waiting);
    forall i: nat, b | Owes(s', b, i)
      ensures Owes(s, b, i) && (i < |s.subs| ==> AllBelow(s'.subs[i], s'.flights[b].event.id))
    {
      assert i == f.next ==> b == a;
    }
  }

  lemma StepStaysCalm(s: State, step: Step)
    requires Inv(s) && InOrder(s) && Calm(s) && Enabled(s, step) && !step.Record?
    ensures InOrder(Next(s, step)) && Calm(Next(s, step))
  {
    var s' := Next(s, step);
    match step {
      case Send(a, waiting) => SendStaysCalm(s, a, waiting);
      case Return(_) =>
        assert forall i: nat, a :: Owes(s', a, i) ==> Owes(s, a, i);
      case Subscribe(_) =>
        forall i: nat, a | Owes(s', a, i)
          ensures Owes(s, a, i) && i < |s.subs|
        {
          assert FlightInv(s, s.flights[a]);
        }
      case Receive(i) =>
        ReceiveKeeps(s.subs[i]);
        assert forall i: nat, a :: Owes(s', a, i) ==> Owes(s, a, i);
    }
  }

  lemma {:induction false} CalmKeepsOrder(s: State, steps: seq<Step>)
    requires Inv(s) && InOrder(s) && Calm(s) && Runs(s, steps) && NoRecord(steps)
    ensures InOrder(After(s, steps))
    decreases |steps|
  {
    if |steps| > 0 {
      NextKeepsInv(s, steps[0]);
      StepStaysCalm(s, steps[0]);
      CalmKeepsOrder(Next(s, steps[0]), steps[1..]);
    }
  }

  lemma RunsCons(s: State, step: Step, rest: seq<Step>)
    requires Enabled(s, step) && Runs(Next(s, step), rest)
    ensures Runs(s, [step] + rest) && After(s, [step] + rest) == After(Next(s, step), rest)
  {
    assert ([step] + rest)[1..] == rest;
  }

  lemma {:induction false} RunsAppend(s: State, first: seq<Step>, second: seq<Step>)
    requires Runs(s, first) && Runs(After(s, first), second)
    ensures Runs(s, first + second) && After(s, first + second) == After(After(s, first), second)
    decreases |first|
  {
    if |first| == 0 {
      assert first + second == second;
    } else {
      assert (first + second)[1..] == first[1..] + second;
      RunsAppend(Next(s, first[0]), first[1..], second);
    }
  }

  /** Whatever an append owes can be delivered next, without anything else being recorded: room is made if need be. */
  lemma {:induction false} Deliver(s: State, a: nat, i: nat) returns (steps: seq<Step>)
    requires Inv(s) && Owes(s, a, i)
    ensures Runs(s, steps) && NoRecord(steps) && i < |s.subs|
    ensures Delivered(s, After(s, steps), a, i)
    decreases i - s.flights[a].next
  {
    var f := s.flights[a];
    assert FlightInv(s, f);
    if f.next < i {
      SendElsewhere(s, a, i);
      var rest := Deliver(Next(s, Send(a, false)), a, i);
      RunsCons(s, Send(a, false), rest);
      steps := [Send(a, false)] + rest;
    } else {
      steps := DeliverNow(s, a);
    }
  }

  /** From `s` to `s'` the subscriber `i` has got the event of append `a`, and no other append has moved. */
  ghost predicate Delivered(s: State, s': State, a: nat, i: nat)
    requires a in s.flights && i < |s.subs|
  {
    && Inv(s') && |s'.subs| == |s.subs|
    && Sent(s'.subs[i]) == Sent(s.subs[i]) + [s.flights[a].event]
    && forall b :: b in s.flights && b != a ==> b in s'.flights && s'.flights[b] == s.flights[b]
  }

  /** A send to an earlier subscriber. */
  lemma SendElsewhere(s: State, a: nat, i: nat)
    requires Inv(s) && Owes(s, a, i) && s.flights[a].next < i < |s.subs|
    ensures var s' := Next(s, Send(a, false));
            && Enabled(s, Send(a, false)) && Inv(s') && Owes(s', a, i)
            && s'.flights[a].next == s.flights[a].next + 1 && i < |s'.subs|
            && forall later :: Delivered(s', later, a, i) ==> Delivered(s, later, a, i)
  {
    NextKeepsInv(s, Send(a, false));
  }

  lemma DeliverNow(s: State, a: nat) returns (steps: seq<Step>)
    requires Inv(s) && a in s.flights && s.flights[a].next < s.flights[a].count
    ensures Runs(s, steps) && NoRecord(steps) && s.flights[a].next < |s.subs|
    ensures Delivered(s, After(s, steps), a, s.flights[a].next)
  {
    var f := s.flights[a];
    assert FlightInv(s, f);
    var sub := s.subs[f.next];
    assert SubInv(s.events, sub);
    var roomy := s;
    if |sub.queue| == sub.buffer > 0 {
      ReceiveKeeps(sub);
      NextKeepsInv(s, Receive(f.next));
      roomy := Next(s, Receive(f.next));
    }
    OfferSends(roomy.subs[f.next], f.event, true);
    NextKeepsInv(roomy, Send(a, true));
    RunsCons(roomy, Send(a, true), []);
    steps := [Send(a, true)] + [];
    if roomy != s {
      RunsCons(s, Receive(f.next), steps);
      steps := [Receive(f.next)] + steps;
    }
  }

  /** One event behind another that is not older. */
  lemma NotIncreasing(sub: Subscription, before: seq<Event>, e: Event, j: nat)
    requires Sent(sub) == before + [e] && j < |before| && before[j].id >= e.id
    ensures !Increasing(sub)
  {
    assert Sent(sub)[j] == before[j] && Sent(sub)[|before|] == e;
  }

  /** An older event can still arrive. */
  lemma OlderCanArrive(s: State, a: nat, i: nat) returns (steps: seq<Step>)
    requires Inv(s) && Owes(s, a, i) && i < |s.subs| && !AllBelow(s.subs[i], s.flights[a].event.id)
    ensures Runs(s, steps) && NoRecord(steps) && !InOrder(After(s, steps))
  {
    var e := s.flights[a].event;
    var j :| 0 <= j < |Sent(s.subs[i])| && Sent(s.subs[i])[j].id >= e.id;
    steps := Deliver(s, a, i);
    NotIncreasing(After(s, steps).subs[i], Sent(s.subs[i]), e, j);
  }

  /** Of two appends that owe the same subscriber, the later can overtake. */
  lemma LaterCanOvertake(s: State, a: nat, b: nat, i: nat) returns (steps: seq<Step>)
    requires Inv(s) && Owes(s, a, i) && Owes(s, b, i) && s.flights[a].event.id < s.flights[b].event.id
    ensures Runs(s, steps) && NoRecord(steps) && !InOrder(After(s, steps))
  {
    var first := Deliver(s, b, i);
    var s' := After(s, first);
    assert Sent(s'.subs[i])[|Sent(s.subs[i])|] == s.flights[b].event;
    var second := OlderCanArrive(s', a, i);
    RunsAppend(s, first, second);
    steps := first + second;
  }

  /** Exactly when order can be lost: from a state in order, every continuation that records nothing new keeps the order if and
      only if no subscriber is owed an event by two appends, or one older than it was sent already. */
  lemma OrderIsSafeExactlyWhenCalm(s: State)
    requires Inv(s) && InOrder(s)
    ensures (forall steps :: Runs(s, steps) && NoRecord(steps) ==> InOrder(After(s, steps))) <==> Calm(s)
  {
    if Calm(s) {
      forall steps | Runs(s, steps) && NoRecord(steps)
        ensures InOrder(After(s, steps))
      {
        CalmKeepsOrder(s, steps);
      }
    } else if i: nat, a, b :| Owes(s, a, i) && Owes(s, b, i) && a != b {
      if s.flights[a].event.id < s.flights[b].event.id {
        var steps := LaterCanOvertake(s, a, b, i);
      } else {
        var steps := LaterCanOvertake(s, b, a, i);
      }
    } else {
      var i: nat, a :| i < |s.subs| && Owes(s, a, i) && !AllBelow(s.subs[i], s.flights[a].event.id);
      var steps := OlderCanArrive(s, a, i);
    }
  }

  // ---------------------------------------------------------------- appends that do not overlap

  /** Each append is recorded only when no other is under way. */
  predicate NoOverlap(s: State, steps: seq<Step>)
    requires Runs(s, steps)
    decreases |steps|
  {
    |steps| == 0 || ((steps[0].Record? ==> s.flights == map[]) && NoOverlap(Next(s, steps[0]), steps[1..]))
  }

  lemma RecordStaysCalm(s: State, a: nat, payload: string)
    requires Inv(s) && InOrder(s) && s.flights == map[]
    ensures InOrder(Next(s, Record(a, payload))) && Calm(Next(s, Record(a, payload)))
  {
    forall i | 0 <= i < |s.subs|
      ensures AllBelow(s.subs[i], |s.events| + 1)
    {
      assert SubInv(s.events, s.subs[i]);
    }
  }

  lemma {:induction false} RunKeepsOrder(s: State, steps: seq<Step>)
    requires Inv(s) && InOrder(s) && Calm(s) && Runs(s, steps) && NoOverlap(s, steps)
    ensures InOrder(After(s, steps))
    decreases |steps|
  {
    if |steps| > 0 {
      NextKeepsInv(s, steps[0]);
      if steps[0].Record? {
        RecordStaysCalm(s, steps[0].append, steps[0].payload);
      } else {
        StepStaysCalm(s, steps[0]);
      }
      RunKeepsOrder(Next(s, steps[0]), steps[1..]);
    }
  }

  /** When appends do not overlap, every subscriber is sent strictly increasing ids. */
  lemma SequentialAppendsArriveInOrder(steps: seq<Step>)
    requires Runs(INITIAL, steps) && NoOverlap(INITIAL, steps)
    ensures InOrder(After(INITIAL, steps))
  {
    RunKeepsOrder(INITIAL, steps);
  }

  /** When they overlap it can be lost: with one subscriber and two appends recorded, both still owe it. */
  lemma OverlappingAppendsCanOvertake()
    ensures exists steps :: Runs(INITIAL, steps) && !InOrder(After(INITIAL, steps))
  {
    var s1 := Next(INITIAL, Step.Subscribe(2));
    var s2 := Next(s1, Record(0, "x"));
    var s3 := Next(s2, Record(1, "y"));
    NextKeepsInv(INITIAL, Step.Subscribe(2));
    NextKeepsInv(s1, Record(0, "x"));
    NextKeepsInv(s2, Record(1, "y"));
    assert Owes(s3, 0, 0) && Owes(s3, 1, 0);
    var steps := LaterCanOvertake(s3, 0, 1, 0);
    RunsCons(s2, Record(1, "y"), steps);
    RunsCons(s1, Record(0, "x"), [Record(1, "y")] + steps);
    RunsCons(INITIAL, Step.Subscribe(2), [Record(0, "x")] + ([Record(1, "y")] + steps));
  }
}
