/** The request/response multiplexer of the language-server client, one atomic step at a time:
    any number of callers, one reader, timeouts, cancellations, failed writes, the end of the stream and shutdown. */
module LspClient {

  /** What the reader may put into a caller's channel: a reply, or the notice that the connection is gone. */
  datatype Message = Reply(id: int, body: string) | ConnectionClosed(reason: string)

  /** A channel of capacity one; `sent` counts the messages it ever got. */
  datatype Channel = Channel(buffer: seq<Message>, closed: bool, sent: nat)

  /** Zero is what a receive from a closed, empty channel yields. */
  datatype Outcome = Got(msg: Message) | Zero | TimedOut | Cancelled | WriteFailed

  /** Allocated: has an id, is not in the table yet. Registered: in the table. Writing: write has found the client open.
      Waiting: in the select. Leaving: about to drop its table entry. */
  datatype Caller = Allocated | Registered | Writing | Waiting | Leaving(outcome: Outcome) | Done(outcome: Outcome)

  /** Holding and Delivered: a reply taken out of the table, before and after the send.
      Failing, Failed and FailedClosed: the loop over the table under its lock, at rest, after a send and after a close. */
  datatype Reader =
    | Reading
    | Holding(id: nat, msg: Message)
    | Delivered(id: nat)
    | Failing(reason: string)
    | Failed(reason: string, id: nat)
    | FailedClosed(reason: string, id: nat)
    | Exited

  /** `passed` counts the calls that found the client open and have no id yet, `refused` those that found it closed. */
  datatype State = State(
    passed: nat,
    refused: nat,
    idCtr: nat,
    pending: map<nat, nat>,
    channels: map<nat, Channel>,
    callers: map<nat, Caller>,
    reader: Reader,
    closed: bool,
    panicked: bool
  )

  /** TestClosed, Allocate, ..., Drop are the callers' steps: a call tests the closed flag, draws an id, enters the table, tests
      the flag again in write, writes, waits, and leaves. The others are the reader's, and Shutdown sets the flag. */
  datatype Step =
    | TestClosed
    | Allocate
    | Register(id: nat)
    | StartWrite(id: nat, encoded: bool)
    | Write(id: nat, ok: bool)
    | Receive(id: nat)
    | GiveUp(id: nat, timeout: bool)
    | Drop(id: nat)
    | Take(replyId: int, body: string)
    | Deliver
    | CloseDelivered
    | ReadError(reason: string)
    | FailOne(id: nat)
    | CloseFailed
    | DeleteFailed
    | FailEnd
    | Shutdown

  const INITIAL := State(0, 0, 0, map[], map[], map[], Reading, false, false)

  /** The reader keeps the table locked while it fails the pending calls. */
  predicate Locked(s: State) {
    s.reader.Failing? || s.reader.Failed? || s.reader.FailedClosed?
  }

  predicate CallerIs(s: State, id: nat, c: Caller) {
    id in s.callers && s.callers[id] == c
  }

  function SetCaller(s: State, id: nat, c: Caller): State {
    s.(callers := s.callers[id := c])
  }

  /** A send blocks on a full channel and panics on a closed one. */
  predicate CanSend(s: State, id: nat) {
    id in s.channels && (s.channels[id].closed || |s.channels[id].buffer| < 1)
  }

  function Send(s: State, id: nat, msg: Message): State
    requires id in s.channels
  {
    var c := s.channels[id];
    if c.closed then s.(panicked := true)
    else s.(channels := s.channels[id := c.(buffer := c.buffer + [msg], sent := c.sent + 1)])
  }

  function CloseChannel(s: State, id: nat): State
    requires id in s.channels
  {
    var c := s.channels[id];
    if c.closed then s.(panicked := true) else s.(channels := s.channels[id := c.(closed := true)])
  }

  predicate Enabled(s: State, step: Step) {
    match step
    case TestClosed => true
    case Allocate => s.passed > 0
    case Register(id) => CallerIs(s, id, Allocated) && !Locked(s)
    case StartWrite(id, _) => CallerIs(s, id, Registered)
    case Write(id, _) => CallerIs(s, id, Writing)
    case Receive(id) => CallerIs(s, id, Waiting) && id in s.channels && (s.channels[id].buffer != [] || s.channels[id].closed)
    case GiveUp(id, _) => CallerIs(s, id, Waiting)
    case Drop(id) => id in s.callers && s.callers[id].Leaving? && !Locked(s)
    case Take(_, _) => s.reader == Reading
    case Deliver => s.reader.Holding? && CanSend(s, s.reader.id)
    case CloseDelivered => s.reader.Delivered? && s.reader.id in s.channels
    case ReadError(_) => s.reader == Reading
    case FailOne(id) => s.reader.Failing? && id in s.pending && CanSend(s, s.pending[id])
    case CloseFailed => s.reader.Failed? && s.reader.id in s.channels
    case DeleteFailed => s.reader.FailedClosed?
    case FailEnd => s.reader.Failing? && s.pending == map[]
    case Shutdown => true
  }

  function Next(s: State, step: Step): State
    requires Enabled(s, step)
  {
    match step
    case TestClosed => if s.closed then s.(refused := s.refused + 1) else s.(passed := s.passed + 1)
    case Allocate =>
      var id := s.idCtr + 1;
      s.(passed := s.passed - 1, idCtr := id, channels := s.channels[id := Channel([], false, 0)], callers := s.callers[id := Allocated])
    case Register(id) => SetCaller(s.(pending := s.pending[id := id]), id, Registered)
    case StartWrite(id, encoded) => SetCaller(s, id, if encoded && !s.closed then Writing else Leaving(WriteFailed))
    case Write(id, ok) => SetCaller(s, id, if ok then Waiting else Leaving(WriteFailed))
    case Receive(id) =>
      var c := s.channels[id];
      if c.buffer == [] then SetCaller(s, id, Done(Zero))
      else SetCaller(s.(channels := s.channels[id := c.(buffer := c.buffer[1..])]), id, Done(Got(c.buffer[0])))
    case GiveUp(id, timeout) => SetCaller(s, id, Leaving(if timeout then TimedOut else Cancelled))
    case Drop(id) => SetCaller(s.(pending := s.pending - {id}), id, Done(s.callers[id].outcome))
    case Take(id, body) =>
      if id >= 0 && id in s.pending then
        s.(pending := s.pending - {id}, reader := Holding(s.pending[id], Reply(id, body)))
      else s
    case Deliver => Send(s, s.reader.id, s.reader.msg).(reader := Delivered(s.reader.id))
    case CloseDelivered => CloseChannel(s, s.reader.id).(reader := Reading)
    case ReadError(reason) => s.(reader := Failing(reason))
    case FailOne(id) => Send(s, s.pending[id], ConnectionClosed(s.reader.reason)).(reader := Failed(s.reader.reason, id))
    case CloseFailed => CloseChannel(s, s.reader.id).(reader := FailedClosed(s.reader.reason, s.reader.id))
    case DeleteFailed => s.(pending := s.pending - {s.reader.id}, reader := Failing(s.reader.reason))
    case FailEnd => s.(reader := Exited)
    case Shutdown => s.(closed := true)
  }

  // ---------------------------------------------------------------- what every step keeps

  /** The table entry of `id` is not the one the failing reader is working on. */
  predicate AtRest(s: State, id: nat) {
    !(s.reader.Failed? && s.reader.id == id) && !(s.reader.FailedClosed? && s.reader.id == id)
  }

  predicate OwnMessage(id: nat, msg: Message) {
    msg.Reply? ==> msg.id == id
  }

  /** A channel gets at most one message, of its own caller, and is closed only after that. */
  ghost predicate ChannelInv(id: nat, c: Channel) {
    && c.sent <= 1 && |c.buffer| <= c.sent
    && (c.closed ==> c.sent == 1)
    && (c.buffer != [] ==> OwnMessage(id, c.buffer[0]))
  }

  /** Somebody will still send to, or has already sent to, the channel. */
  ghost predicate Served(s: State, id: nat)
    requires id in s.channels
  {
    id in s.pending || (s.reader.Holding? && s.reader.id == id) || s.channels[id].sent == 1
  }

  ghost predicate CallerInv(s: State, id: nat)
    requires id in s.callers && id in s.channels
  {
    var c, ch := s.callers[id], s.channels[id];
    && (c.Allocated? ==> ch == Channel([], false, 0) && id !in s.pending && !(s.reader.Holding? && s.reader.id == id))
    && (c.Registered? || c.Writing? || c.Waiting? || c.Leaving? ==> |ch.buffer| == ch.sent && Served(s, id))
    && (c.Leaving? ==> c.outcome in {TimedOut, Cancelled, WriteFailed})
    && (c.Done? ==> id !in s.pending || !AtRest(s, id))
    && (c.Done? ==> c.outcome != Zero)
    && (c.Done? && c.outcome.Got? ==> OwnMessage(id, c.outcome.msg) && ch.sent == 1)
  }

  /** A registered call's channel is open and empty. */
  ghost predicate PendingInv(s: State, id: nat) {
    && id in s.pending && s.pending[id] == id && id in s.channels
    && (AtRest(s, id) ==> s.channels[id] == Channel([], false, 0))
    && !(s.reader.Holding? && s.reader.id == id) && !(s.reader.Delivered? && s.reader.id == id)
  }

  ghost predicate ReaderInv(s: State) {
    match s.reader
    case Holding(id, msg) => id in s.channels && s.channels[id] == Channel([], false, 0) && OwnMessage(id, msg)
    case Delivered(id) => id in s.channels && s.channels[id].sent == 1 && !s.channels[id].closed
    case Failed(_, id) => id in s.pending && id in s.channels && s.channels[id].sent == 1 && !s.channels[id].closed
    case FailedClosed(_, id) => id in s.pending && id in s.channels && s.channels[id].sent == 1
    case _ => true
  }

  ghost predicate Inv(s: State) {
    && !s.panicked
    && (forall id: nat :: id in s.channels <==> 1 <= id <= s.idCtr)
    && s.callers.Keys == s.channels.Keys
    && (forall id :: id in s.channels ==> ChannelInv(id, s.channels[id]))
    && (forall id :: id in s.callers ==> CallerInv(s, id))
    && (forall id :: id in s.pending ==> PendingInv(s, id))
    && ReaderInv(s)
  }

  lemma AllocateKeepsInv(s: State)
    requires Inv(s) && Enabled(s, Allocate)
    ensures Inv(Next(s, Allocate))
  {
    var s' := Next(s, Allocate);
    forall i | i in s'.callers
      ensures CallerInv(s', i) && ChannelInv(i, s'.channels[i])
    {
      assert i in s.callers ==> CallerInv(s, i);
    }
    forall i | i in s'.pending
      ensures PendingInv(s', i)
    {
      assert PendingInv(s, i);
    }
  }

  lemma RegisterKeepsInv(s: State, id: nat)
    requires Inv(s) && Enabled(s, Register(id))
    ensures Inv(Next(s, Register(id)))
  {
  }

  lemma TestClosedKeepsInv(s: State)
    requires Inv(s) && Enabled(s, TestClosed)
    ensures Inv(Next(s, TestClosed))
  {
  }

  lemma StartWriteKeepsInv(s: State, id: nat, encoded: bool)
    requires Inv(s) && Enabled(s, StartWrite(id, encoded))
    ensures Inv(Next(s, StartWrite(id, encoded)))
  {
  }

  lemma WriteKeepsInv(s: State, id: nat, ok: bool)
    requires Inv(s) && Enabled(s, Write(id, ok))
    ensures Inv(Next(s, Write(id, ok)))
  {
    var s' := Next(s, Write(id, ok));
    forall i | i in s'.callers
      ensures CallerInv(s', i) && ChannelInv(i, s'.channels[i])
    {
      assert CallerInv(s, i);
    }
    forall i | i in s'.pending
      ensures PendingInv(s', i)
    {
      assert PendingInv(s, i);
    }
  }

  lemma ReceiveKeepsInv(s: State, id: nat)
    requires Inv(s) && Enabled(s, Receive(id))
    ensures Inv(Next(s, Receive(id)))
  {
    var s' := Next(s, Receive(id));
    forall i | i in s'.callers
      ensures CallerInv(s', i) && ChannelInv(i, s'.channels[i])
    {
      assert CallerInv(s, i);
    }
    forall i | i in s'.pending
      ensures PendingInv(s', i)
    {
      assert PendingInv(s, i);
    }
  }

  lemma GiveUpKeepsInv(s: State, id: nat, timeout: bool)
    requires Inv(s) && Enabled(s, GiveUp(id, timeout))
    ensures Inv(Next(s, GiveUp(id, timeout)))
  {
    var s' := Next(s, GiveUp(id, timeout));
    forall i | i in s'.callers
      ensures CallerInv(s', i) && ChannelInv(i, s'.channels[i])
    {
      assert CallerInv(s, i);
    }
    forall i | i in s'.pending
      ensures PendingInv(s', i)
    {
      assert PendingInv(s, i);
    }
  }

  lemma DropKeepsInv(s: State, id: nat)
    requires Inv(s) && Enabled(s, Drop(id))
    ensures Inv(Next(s, Drop(id)))
  {
    var s' := Next(s, Drop(id));
    forall i | i in s'.callers
      ensures CallerInv(s', i)
    {
      assert CallerInv(s, i);
    }
    forall i | i in s'.pending
      ensures PendingInv(s', i)
    {
      assert PendingInv(s, i);
    }
  }

  lemma TakeKeepsInv(s: State, replyId: int, body: string)
    requires Inv(s) && Enabled(s, Take(replyId, body))
    ensures Inv(Next(s, Take(replyId, body)))
  {
  }

  lemma DeliverKeepsInv(s: State)
    requires Inv(s) && Enabled(s, Deliver)
    ensures Inv(Next(s, Deliver))
  {
    var s' := Next(s, Deliver);
    forall i | i in s'.callers
      ensures CallerInv(s', i) && ChannelInv(i, s'.channels[i])
    {
      assert CallerInv(s, i);
    }
    forall i | i in s'.pending
      ensures PendingInv(s', i)
    {
      assert PendingInv(s, i);
    }
  }

  lemma CloseDeliveredKeepsInv(s: State)
    requires Inv(s) && Enabled(s, CloseDelivered)
    ensures Inv(Next(s, CloseDelivered))
  {
    var s' := Next(s, CloseDelivered);
    forall i | i in s'.callers
      ensures CallerInv(s', i) && ChannelInv(i, s'.channels[i])
    {
      assert CallerInv(s, i);
    }
    forall i | i in s'.pending
      ensures PendingInv(s', i)
    {
      assert PendingInv(s, i);
    }
  }

  lemma FailOneKeepsInv(s: State, id: nat)
    requires Inv(s) && Enabled(s, FailOne(id))
    ensures Inv(Next(s, FailOne(id)))
  {
    var s' := Next(s, FailOne(id));
    assert PendingInv(s, id);
    forall i | i in s'.callers
      ensures CallerInv(s', i)
    {
      assert CallerInv(s, i);
    }
    forall i | i in s'.pending
      ensures PendingInv(s', i)
    {
      assert PendingInv(s, i);
    }
  }

  lemma CloseFailedKeepsInv(s: State)
    requires Inv(s) && Enabled(s, CloseFailed)
    ensures Inv(Next(s, CloseFailed))
  {
    var s' := Next(s, CloseFailed);
    forall i | i in s'.callers
      ensures CallerInv(s', i) && ChannelInv(i, s'.channels[i])
    {
      assert CallerInv(s, i);
    }
    forall i | i in s'.pending
      ensures PendingInv(s', i)
    {
      assert PendingInv(s, i);
    }
  }

  lemma DeleteFailedKeepsInv(s: State)
    requires Inv(s) && Enabled(s, DeleteFailed)
    ensures Inv(Next(s, DeleteFailed))
  {
  }

  lemma ReadErrorKeepsInv(s: State, reason: string)
    requires Inv(s) && Enabled(s, ReadError(reason))
    ensures Inv(Next(s, ReadError(reason)))
  {
  }

  lemma FailEndKeepsInv(s: State)
    requires Inv(s) && Enabled(s, FailEnd)
    ensures Inv(Next(s, FailEnd))
  {
  }

  lemma ShutdownKeepsInv(s: State)
    requires Inv(s) && Enabled(s, Shutdown)
    ensures Inv(Next(s, Shutdown))
  {
  }

  lemma NextKeepsInv(s: State, step: Step)
    requires Inv(s) && Enabled(s, step)
    ensures Inv(Next(s, step))
  {
    match step {
      case TestClosed => TestClosedKeepsInv(s);
      case Allocate => AllocateKeepsInv(s);
      case Register(id) => RegisterKeepsInv(s, id);
      case StartWrite(id, encoded) => StartWriteKeepsInv(s, id, encoded);
      case Write(id, ok) => WriteKeepsInv(s, id, ok);
      case Receive(id) => ReceiveKeepsInv(s, id);
      case GiveUp(id, timeout) => GiveUpKeepsInv(s, id, timeout);
      case Drop(id) => DropKeepsInv(s, id);
      case Take(replyId, body) => TakeKeepsInv(s, replyId, body);
      case Deliver => DeliverKeepsInv(s);
      case CloseDelivered => CloseDeliveredKeepsInv(s);
      case FailOne(id) => FailOneKeepsInv(s, id);
      case CloseFailed => CloseFailedKeepsInv(s);
      case DeleteFailed => DeleteFailedKeepsInv(s);
      case ReadError(reason) => ReadErrorKeepsInv(s, reason);
      case FailEnd => FailEndKeepsInv(s);
      case Shutdown => ShutdownKeepsInv(s);
    }
  }

  // ---------------------------------------------------------------- whole runs

  /** The steps can be taken one after the other from `s`. */
  predicate Runs(s: State, steps: seq<Step>)
    decreases |steps|
  {
    |steps| == 0 || (Enabled(s, steps[0]) && Runs(Next(s, steps[0]), steps[1..]))
  }

  function After(s: State, steps: seq<Step>): State
    requires Runs(s, steps)
    decreases |steps|
  {
    if |steps| == 0 then s else After(Next(s, steps[0]), steps[1..])
  }

  /** The invariant holds after every interleaving of steps. */
  lemma {:induction false} EveryRunKeepsInv(s: State, steps: seq<Step>)
    requires Inv(s) && Runs(s, steps)
    ensures Inv(After(s, steps))
    decreases |steps|
  {
    if |steps| > 0 {
      NextKeepsInv(s, steps[0]);
      EveryRunKeepsInv(Next(s, steps[0]), steps[1..]);
    }
  }

  /** In every reachable state: an id in the table stands for an open, empty channel (the one entry the failing reader is at
      excepted); no channel ever got two messages; whatever a caller received is the notice or a reply with its own id. */
  lemma RepliesReachTheirCallers(steps: seq<Step>)
    requires Runs(INITIAL, steps)
    ensures var s := After(INITIAL, steps);
            && (forall id :: id in s.pending && AtRest(s, id) ==> id in s.channels && s.channels[id] == Channel([], false, 0))
            && (forall id :: id in s.channels ==> s.channels[id].sent <= 1)
            && (forall id :: id in s.callers && s.callers[id].Done? && s.callers[id].outcome.Got? ==>
                  OwnMessage(id, s.callers[id].outcome.msg))
            && (forall id :: id in s.callers && s.callers[id].Done? ==> s.callers[id].outcome != Zero)
  {
    EveryRunKeepsInv(INITIAL, steps);
    var s := After(INITIAL, steps);
    forall id | id in s.pending && AtRest(s, id)
      ensures id in s.channels && s.channels[id] == Channel([], false, 0)
    {
      assert PendingInv(s, id);
    }
  }

  /** The reader never waits for a channel and never sends on, or closes, a closed one: from every reachable state in the
      middle of its work, its next step can be taken and does not panic. */
  lemma ReaderNeverBlocks(steps: seq<Step>)
    requires Runs(INITIAL, steps)
    ensures var s := After(INITIAL, steps);
            && !s.panicked
            && (s.reader.Holding? ==> Enabled(s, Deliver) && !Next(s, Deliver).panicked)
            && (s.reader.Delivered? ==> Enabled(s, CloseDelivered) && !Next(s, CloseDelivered).panicked)
            && (s.reader.Failed? ==> Enabled(s, CloseFailed) && !Next(s, CloseFailed).panicked)
            && (s.reader.Failing? ==>
                Enabled(s, FailEnd) || exists id :: id in s.pending && Enabled(s, FailOne(id)) && !Next(s, FailOne(id)).panicked)
  {
    EveryRunKeepsInv(INITIAL, steps);
    var s := After(INITIAL, steps);
    ReaderCanDeliver(s);
    ReaderCanFail(s);
  }

  lemma ReaderCanDeliver(s: State)
    requires Inv(s)
    ensures s.reader.Holding? ==> Enabled(s, Deliver) && !Next(s, Deliver).panicked
    ensures s.reader.Delivered? ==> Enabled(s, CloseDelivered) && !Next(s, CloseDelivered).panicked
  {
  }

  lemma ReaderCanFail(s: State)
    requires Inv(s)
    ensures s.reader.Failed? ==> Enabled(s, CloseFailed) && !Next(s, CloseFailed).panicked
    ensures s.reader.Failing? ==>
              Enabled(s, FailEnd) || exists id :: id in s.pending && Enabled(s, FailOne(id)) && !Next(s, FailOne(id)).panicked
  {
    if s.reader.Failing? && s.pending != map[] {
      var id :| id in s.pending;
      assert PendingInv(s, id);
      assert Enabled(s, FailOne(id)) && !Next(s, FailOne(id)).panicked;
    }
  }

  /** No reply is lost: a caller in its select whose entry has left the table can receive at once,
      unless the reader is just about to send to it. */
  lemma NoReplyIsLost(steps: seq<Step>, id: nat)
    requires Runs(INITIAL, steps) && CallerIs(After(INITIAL, steps), id, Waiting)
    ensures var s := After(INITIAL, steps);
            id in s.pending || (s.reader.Holding? && s.reader.id == id) || Enabled(s, Receive(id))
  {
    EveryRunKeepsInv(INITIAL, steps);
    assert CallerInv(After(INITIAL, steps), id);
  }

  /** When the reader exits, every caller then in its select can receive: nobody is left to the timer. */
  lemma ExitReleasesEveryCaller(steps: seq<Step>, id: nat)
    requires Runs(INITIAL, steps) && Enabled(After(INITIAL, steps), FailEnd)
    requires CallerIs(After(INITIAL, steps), id, Waiting)
    ensures Enabled(Next(After(INITIAL, steps), FailEnd), Receive(id))
  {
    NoReplyIsLost(steps, id);
  }

  // ---------------------------------------------------------------- after the close

  function Tests(steps: seq<Step>): nat {
    if |steps| == 0 then 0 else (if steps[0].TestClosed? then 1 else 0) + Tests(steps[1..])
  }

  /** The request of `id` is being or has been written. */
  predicate Started(s: State, id: nat) {
    id in s.callers && (s.callers[id].Writing? || s.callers[id].Waiting?)
  }

  /** The close is final. Every call whose test comes after it is refused; the ids given out after it are drawn by calls that
      had passed the test before, one each; and no request is started any more. */
  lemma {:induction false} CloseIsFinal(s: State, steps: seq<Step>)
    requires s.closed && Runs(s, steps)
    ensures var s' := After(s, steps);
            && s'.closed && s'.refused == s.refused + Tests(steps)
            && s'.idCtr >= s.idCtr && s'.idCtr - s.idCtr == s.passed - s'.passed
            && forall id :: Started(s', id) ==> Started(s, id)
    decreases |steps|
  {
    if |steps| > 0 {
      StepAfterClose(s, steps[0]);
      CloseIsFinal(Next(s, steps[0]), steps[1..]);
    }
  }

  lemma StepAfterClose(s: State, step: Step)
    requires s.closed && Enabled(s, step)
    ensures var s' := Next(s, step);
            && s'.closed && s'.refused == s.refused + Tests([step])
            && s'.idCtr >= s.idCtr && s'.idCtr - s.idCtr == s.passed - s'.passed
            && forall id :: Started(s', id) ==> Started(s, id)
  {
  }

  /** An id can still be drawn after the close exactly when some call has passed its test and drawn none yet. */
  lemma LateIdsExactlyWhenPassed(s: State)
    requires s.closed
    ensures (exists steps :: Runs(s, steps) && After(s, steps).idCtr > s.idCtr) <==> s.passed > 0
  {
    if s.passed > 0 {
      RunsCons(s, Allocate, Next(s, Allocate), []);
      assert After(s, [Allocate] + []).idCtr > s.idCtr;
    } else {
      forall steps | Runs(s, steps)
        ensures After(s, steps).idCtr == s.idCtr
      {
        CloseIsFinal(s, steps);
      }
    }
  }

  /** For instance from the start: a call that tests the flag just before it is set gets its id, and its table entry, after it. */
  lemma CloseCanBeOvertaken()
    ensures var closed := Next(Next(INITIAL, TestClosed), Shutdown);
            && closed.closed && closed.idCtr == 0 && Enabled(closed, Allocate)
            && var drawn := Next(closed, Allocate);
               && Enabled(drawn, Step.Register(1))
               && var entered := Next(drawn, Step.Register(1));
                  entered.closed && 1 in entered.pending && CallerIs(entered, 1, Registered)
  {
  }

  /** So the request that Shutdown itself makes, after setting the flag, is refused, whatever happens in between. */
  lemma ShutdownRequestIsRefused(s: State, between: seq<Step>)
    requires Runs(Next(s, Shutdown), between)
    ensures var now := After(Next(s, Shutdown), between);
            Next(now, TestClosed) == now.(refused := now.refused + 1)
  {
    CloseIsFinal(Next(s, Shutdown), between);
  }

  // ---------------------------------------------------------------- after the reader's exit

  /** Nothing has been or is ready to be received by `id`. */
  predicate Unanswered(s: State, id: nat) {
    id in s.callers ==> id in s.channels && s.channels[id] == Channel([], false, 0) && s.callers[id] != Done(Zero)
                        && !(s.callers[id].Done? && s.callers[id].outcome.Got?)
  }

  lemma {:induction false} UnansweredForEver(s: State, steps: seq<Step>, id: nat)
    requires Inv(s) && s.reader == Exited && Unanswered(s, id) && Runs(s, steps)
    ensures Inv(After(s, steps)) && After(s, steps).reader == Exited && Unanswered(After(s, steps), id)
    decreases |steps|
  {
    if |steps| > 0 {
      NextKeepsInv(s, steps[0]);
      UnansweredForEver(Next(s, steps[0]), steps[1..], id);
    }
  }

  /** A caller that has not entered the table when the reader exits is never answered: it can only time out, be cancelled or
      fail to write. */
  lemma LateCallersAreNotAnswered(s: State, steps: seq<Step>, id: nat)
    requires Inv(s) && Enabled(s, FailEnd) && Runs(Next(s, FailEnd), steps)
    requires id in s.callers ==> s.callers[id] == Allocated
    ensures var s' := After(Next(s, FailEnd), steps);
            id in s'.callers && s'.callers[id].Done? ==> s'.callers[id].outcome in {TimedOut, Cancelled, WriteFailed}
  {
    assert id in s.callers ==> CallerInv(s, id);
    NextKeepsInv(s, FailEnd);
    UnansweredForEver(Next(s, FailEnd), steps, id);
  }

  /** The call has been in the table and is in it no more. */
  predicate LeftTable(s: State, id: nat) {
    id in s.callers && s.callers[id] != Allocated && id !in s.pending
  }

  lemma StaysLeft(s: State, step: Step, id: nat)
    requires s.reader == Exited && LeftTable(s, id) && Enabled(s, step) && id <= s.idCtr
    ensures Next(s, step).reader == Exited && LeftTable(Next(s, step), id)
  {
  }

  lemma {:induction false} LeftForGood(s: State, steps: seq<Step>, id: nat)
    requires Inv(s) && s.reader == Exited && LeftTable(s, id) && Runs(s, steps)
    ensures Inv(After(s, steps)) && After(s, steps).reader == Exited && LeftTable(After(s, steps), id)
    decreases |steps|
  {
    if |steps| > 0 {
      NextKeepsInv(s, steps[0]);
      StaysLeft(s, steps[0], id);
      LeftForGood(Next(s, steps[0]), steps[1..], id);
    }
  }

  /** Who is answered once the reader is gone: at any time after its exit, a caller in its select can receive exactly when its
      call had entered the table by the exit, wherever between its entry and its select it then was. */
  lemma AnsweredExactlyWhenEntered(s: State, steps: seq<Step>, id: nat)
    requires Inv(s) && Enabled(s, FailEnd) && Runs(Next(s, FailEnd), steps)
    requires CallerIs(After(Next(s, FailEnd), steps), id, Waiting)
    ensures Enabled(After(Next(s, FailEnd), steps), Receive(id)) <==> id in s.callers && s.callers[id] != Allocated
  {
    var s0, s' := Next(s, FailEnd), After(Next(s, FailEnd), steps);
    NextKeepsInv(s, FailEnd);
    if id in s.callers && s.callers[id] != Allocated {
      LeftForGood(s0, steps, id);
      assert CallerInv(s', id);
    } else {
      assert id in s.callers ==> CallerInv(s, id);
      UnansweredForEver(s0, steps, id);
    }
  }

  // ---------------------------------------------------------------- the client

  /** What everybody else does at some point of a procedure, seen from the state it is at. */
  type World = State -> seq<Step>

  /** None of the steps is one of caller `id`. */
  predicate Foreign(steps: seq<Step>, id: nat) {
    forall k :: 0 <= k < |steps| ==>
      match steps[k]
      case Register(i) => i != id
      case StartWrite(i, _) => i != id
      case Write(i, _) => i != id
      case Receive(i) => i != id
      case GiveUp(i, _) => i != id
      case Drop(i) => i != id
      case _ => true
  }

  /** In any state the others take steps of their own. */
  ghost predicate Plays(world: World, id: nat) {
    forall s :: Inv(s) ==> Runs(s, world(s)) && Foreign(world(s), id)
  }

  /** The others let go of the lock in the end. */
  ghost predicate Unlocks(world: World, id: nat) {
    Plays(world, id) && forall s :: Inv(s) ==> Runs(s, world(s)) && !Locked(After(s, world(s)))
  }

  /** The others draw ids only for calls of their own. */
  ghost predicate LeavesOne(world: World) {
    Plays(world, 0) && forall s :: Inv(s) && s.passed > 0 ==> Runs(s, world(s)) && After(s, world(s)).passed > 0
  }

  /** The reader, left alone, finishes failing the calls and gives up the lock. */
  lemma LockIsReleased(s: State) returns (steps: seq<Step>)
    requires Inv(s)
    ensures Runs(s, steps) && !Locked(After(s, steps)) && After(s, steps).passed == s.passed
    ensures forall k :: 0 <= k < |steps| ==> ByReader(steps[k])
    decreases |s.pending|, Phase(s.reader)
  {
    if !Locked(s) {
      return [];
    }
    var step := ReadersStep(s);
    NextKeepsInv(s, step);
    var rest := LockIsReleased(Next(s, step));
    RunsCons(s, step, Next(s, step), rest);
    steps := [step] + rest;
  }

  predicate ByReader(step: Step) {
    step.FailOne? || step.CloseFailed? || step.DeleteFailed? || step.FailEnd?
  }

  function Phase(reader: Reader): nat {
    match reader
    case Failing(_) => 3
    case Failed(_, _) => 2
    case FailedClosed(_, _) => 1
    case _ => 0
  }

  lemma OneLessPending(s: State, id: nat)
    requires id in s.pending
    ensures |s.pending - {id}| < |s.pending|
  {
    assert (s.pending - {id}).Keys == s.pending.Keys - {id};
    assert |(s.pending - {id}).Keys| < |s.pending.Keys|;
  }

  lemma FailingReadersStep(s: State) returns (step: Step)
    requires Inv(s) && s.reader.Failing?
    ensures ByReader(step) && Enabled(s, step)
    ensures var s' := Next(s, step); s'.passed == s.passed && s'.pending == s.pending && Phase(s'.reader) < Phase(s.reader)
  {
    if id :| id in s.pending {
      assert PendingInv(s, id);
      step := FailOne(id);
    } else {
      step := FailEnd;
    }
  }

  /** What the failing reader does next; each call it is done with is one less in the table. */
  lemma ReadersStep(s: State) returns (step: Step)
    requires Inv(s) && Locked(s)
    ensures ByReader(step) && Enabled(s, step)
    ensures var s' := Next(s, step);
            && s'.passed == s.passed
            && (|s'.pending| < |s.pending| || (s'.pending == s.pending && Phase(s'.reader) < Phase(s.reader)))
  {
    if s.reader.Failing? {
      step := FailingReadersStep(s);
    } else if s.reader.Failed? {
      step := CloseFailed;
    } else {
      step := DeleteFailed;
      OneLessPending(s, s.reader.id);
    }
  }

  ghost predicate Releases(s: State, steps: seq<Step>) {
    && Runs(s, steps) && !Locked(After(s, steps)) && After(s, steps).passed == s.passed
    && forall k :: 0 <= k < |steps| ==> ByReader(steps[k])
  }

  /** So others that let go of the lock, and draw ids for no call but their own, there are. */
  lemma UnlockingWorldsExist() returns (world: World)
    ensures LeavesOne(world) && forall id :: Unlocks(world, id)
  {
    world := s => if exists steps :: Releases(s, steps) then var steps :| Releases(s, steps); steps else [];
    forall s | Inv(s)
      ensures Releases(s, world(s))
    {
      var steps := LockIsReleased(s);
      assert Releases(s, steps);
    }
  }

  lemma {:induction false} OthersKeepCaller(s: State, steps: seq<Step>, id: nat)
    requires Inv(s) && Runs(s, steps) && Foreign(steps, id) && id in s.callers
    ensures var s' := After(s, steps); Inv(s') && s'.idCtr >= s.idCtr && id in s'.callers && s'.callers[id] == s.callers[id]
    decreases |steps|
  {
    if |steps| > 0 {
      NextKeepsInv(s, steps[0]);
      OthersKeepCaller(Next(s, steps[0]), steps[1..], id);
    }
  }

  lemma {:induction false} IdsOnlyGrow(s: State, steps: seq<Step>)
    requires Runs(s, steps)
    ensures After(s, steps).idCtr >= s.idCtr
    decreases |steps|
  {
    if |steps| > 0 {
      IdsOnlyGrow(Next(s, steps[0]), steps[1..]);
    }
  }

  lemma RunsCons(s: State, step: Step, next: State, rest: seq<Step>)
    requires Enabled(s, step) && Next(s, step) == next && Runs(next, rest)
    ensures Runs(s, [step] + rest) && After(s, [step] + rest) == After(next, rest)
  {
    assert ([step] + rest)[1..] == rest;
  }

  /** The call `id` has got `msg` and is out of the table. */
  function Notified(s: State, id: nat, msg: Message): State {
    s.(pending := s.pending - {id}, channels := s.channels[id := Channel([msg], true, 1)])
  }

  function AtWork(s: State, id: nat, c: Channel, reader: Reader): State {
    s.(channels := s.channels[id := c], reader := reader)
  }

  /** Call `id` is in the table with an open, empty channel. */
  predicate Fresh(s: State, id: nat) {
    id in s.pending && s.pending[id] == id && id in s.channels && s.channels[id] == Channel([], false, 0)
  }

  lemma PendingIsFresh(s: State, id: nat)
    requires Inv(s) && id in s.pending && AtRest(s, id)
    ensures Fresh(s, id)
  {
    assert PendingInv(s, id);
  }

  /** What the failing reader does about `id`. */
  function FailRound(id: nat): seq<Step> {
    [FailOne(id)] + ([CloseFailed] + ([DeleteFailed] + []))
  }

  lemma FailRoundNotifies(s: State, reason: string, id: nat)
    requires s.reader == Failing(reason) && Fresh(s, id)
    ensures Runs(s, FailRound(id)) && After(s, FailRound(id)) == Notified(s, id, ConnectionClosed(reason))
  {
    var notice := ConnectionClosed(reason);
    var s1 := AtWork(s, id, Channel([notice], false, 1), Failed(reason, id));
    var s2 := AtWork(s, id, Channel([notice], true, 1), FailedClosed(reason, id));
    var s3 := Notified(s, id, notice);
    assert [] + [notice] == [notice];
    assert s1.channels[id := Channel([notice], true, 1)] == s2.channels;
    RunsCons(s2, DeleteFailed, s3, []);
    RunsCons(s1, CloseFailed, s2, [DeleteFailed] + []);
    RunsCons(s, FailOne(id), s1, [CloseFailed] + ([DeleteFailed] + []));
  }

  /** What the reader does with a reply that somebody waits for. */
  function ReplyRound(id: nat, body: string): seq<Step> {
    [Step.Take(id, body)] + ([Deliver] + ([CloseDelivered] + []))
  }

  lemma ReplyRoundReplies(s: State, id: nat, body: string)
    requires s.reader == Reading && Fresh(s, id)
    ensures Runs(s, ReplyRound(id, body)) && After(s, ReplyRound(id, body)) == Notified(s, id, Reply(id, body))
  {
    var reply := Reply(id, body);
    var taken := s.(pending := s.pending - {id});
    var s1 := taken.(reader := Reader.Holding(id, reply));
    var s2 := AtWork(taken, id, Channel([reply], false, 1), Delivered(id));
    var s3 := Notified(s, id, reply);
    assert [] + [reply] == [reply];
    assert s2.channels[id := Channel([reply], true, 1)] == s3.channels;
    RunsCons(s2, CloseDelivered, s3, []);
    RunsCons(s1, Deliver, s2, [CloseDelivered] + []);
    RunsCons(s, Step.Take(id, body), s1, [Deliver] + ([CloseDelivered] + []));
  }

  /** The steps of a call from its test to its write, and its receive. */
  function CallSteps(id: nat): seq<Step> {
    [TestClosed] + ([Allocate] + ([Step.Register(id)] + ([StartWrite(id, true)] + ([Write(id, true)] + []))))
  }

  /** A call under way, not in the table yet or in it. */
  function CallAt(s: State, id: nat, table: map<nat, nat>, c: Caller): State {
    s.(idCtr := id, pending := table, channels := s.channels[id := Channel([], false, 0)], callers := s.callers[id := c])
  }

  lemma CallMoves(s: State, id: nat, table: map<nat, nat>, c: Caller, d: Caller)
    ensures CallAt(s, id, table, c).callers[id := d] == CallAt(s, id, table, d).callers
  {
  }

  lemma CallIsMade(s: State)
    requires !s.closed && s.reader == Reading
    ensures var id := s.idCtr + 1; Runs(s, CallSteps(id)) && After(s, CallSteps(id)) == CallAt(s, id, s.pending[id := id], Waiting)
  {
    var id, passed := s.idCtr + 1, s.(passed := s.passed + 1);
    var table := s.pending[id := id];
    var drawn, entered := CallAt(s, id, s.pending, Allocated), CallAt(s, id, table, Registered);
    CallMoves(s, id, table, Registered, Writing);
    CallMoves(s, id, table, Writing, Waiting);
    CallMoves(s, id, s.pending, Allocated, Registered);
    RunsCons(CallAt(s, id, table, Writing), Write(id, true), CallAt(s, id, table, Waiting), []);
    RunsCons(entered, StartWrite(id, true), CallAt(s, id, table, Writing), [Write(id, true)] + []);
    RunsCons(drawn, Step.Register(id), entered, [StartWrite(id, true)] + ([Write(id, true)] + []));
    RunsCons(passed, Allocate, drawn, [Step.Register(id)] + ([StartWrite(id, true)] + ([Write(id, true)] + [])));
    RunsCons(s, TestClosed, passed, [Allocate] + ([Step.Register(id)] + ([StartWrite(id, true)] + ([Write(id, true)] + []))));
  }

  /** A call of an open client whose reply comes in is answered: once the reader has routed the reply, the caller can receive,
      and what it gets is that reply. */
  lemma CallIsAnswered(s: State, body: string)
    requires !s.closed && s.reader == Reading
    ensures var id := s.idCtr + 1;
            && Runs(s, CallSteps(id)) && Runs(After(s, CallSteps(id)), ReplyRound(id, body))
            && var routed := After(After(s, CallSteps(id)), ReplyRound(id, body));
               && Enabled(routed, Receive(id))
               && Next(routed, Receive(id)).callers[id] == Done(Got(Reply(id, body)))
               && id !in routed.pending
  {
    CallIsMade(s);
    var id := s.idCtr + 1;
    ReplyRoundReplies(CallAt(s, id, s.pending[id := id], Waiting), id, body);
  }

  /** So both rounds keep the invariant. */
  lemma NotifiedKeepsInv(s: State, id: nat, msg: Message, round: seq<Step>)
    requires Inv(s) && Runs(s, round) && After(s, round) == Notified(s, id, msg)
    ensures Inv(Notified(s, id, msg))
  {
    EveryRunKeepsInv(s, round);
  }

  /** Between `s0` and `s` every call that left the table has got the notice and its channel is closed; nothing else happened. */
  ghost predicate NotifiedSoFar(s0: State, s: State, reason: string) {
    && s.reader == Failing(reason)
    && s == s0.(pending := s.pending, channels := s.channels, reader := s.reader)
    && s.pending.Keys <= s0.pending.Keys && s.channels.Keys == s0.channels.Keys
    && (forall id :: id in s0.pending && id !in s.pending ==>
          id in s.channels && s.channels[id] == Channel([ConnectionClosed(reason)], true, 1))
    && (forall id :: id in s.channels && id !in s0.pending ==> s.channels[id] == s0.channels[id])
  }

  /** Every registered call has got the notice and its channel is closed, the table is empty, the reader gone; all other
      channels, the callers, the counter and the flag are as they were. */
  ghost predicate AllNotified(s0: State, s: State, reason: string) {
    && s.reader == Exited && s.pending == map[]
    && s == s0.(pending := map[], channels := s.channels, reader := Exited)
    && s.channels.Keys == s0.channels.Keys
    && (forall id :: id in s0.pending ==> id in s.channels && s.channels[id] == Channel([ConnectionClosed(reason)], true, 1))
    && (forall id :: id in s.channels && id !in s0.pending ==> s.channels[id] == s0.channels[id])
  }

  lemma OneMoreNotified(s0: State, s: State, reason: string, id: nat)
    requires NotifiedSoFar(s0, s, reason) && Fresh(s, id)
    ensures NotifiedSoFar(s0, Notified(s, id, ConnectionClosed(reason)), reason)
    ensures |Notified(s, id, ConnectionClosed(reason)).pending| < |s.pending|
  {
    OneLessPending(s, id);
  }

  /** With its request written in state `s`, the call comes to its select in state `now`, right after the others' turn. */
  ghost predicate ReachesSelect(s: State, world: World, id: nat, now: State) {
    Inv(s) && CallerIs(s, id, Waiting) && Runs(s, world(s)) && now == After(s, world(s)) && id in now.channels
  }

  /** The message in the channel, if there is one and it is preferred; otherwise the timer or the context. */
  function Selected(buffer: seq<Message>, prefersReply: bool, timeout: bool): Outcome {
    if prefersReply && buffer != [] then Got(buffer[0]) else if timeout then TimedOut else Cancelled
  }

  /** The table, the counter and the flag, and as fields too what the callers and the reader are at. */
  class Client {
    var passed: nat
    var refused: nat
    var idCtr: nat
    var pending: map<nat, nat>
    var channels: map<nat, Channel>
    var callers: map<nat, Caller>
    var reader: Reader
    var closed: bool

    function View(): State
      reads this
    {
      State(passed, refused, idCtr, pending, channels, callers, reader, closed, false)
    }

    ghost predicate Valid()
      reads this
    {
      Inv(View())
    }

    constructor ()
      ensures View() == INITIAL && Valid()
    {
      passed, refused, idCtr, pending, channels, callers, reader, closed := 0, 0, 0, map[], map[], map[], Reading, false;
    }

    method Become(s: State)
      requires Inv(s)
      modifies this
      ensures View() == s && Valid()
    {
      passed, refused, idCtr, pending, channels, callers := s.passed, s.refused, s.idCtr, s.pending, s.channels, s.callers;
      reader, closed := s.reader, s.closed;
    }

    /** One atomic step. */
    method Take(step: Step)
      requires Valid() && Enabled(View(), step)
      modifies this
      ensures View() == Next(old(View()), step) && Valid()
    {
      NextKeepsInv(View(), step);
      Become(Next(View(), step));
    }

    method TakeAll(steps: seq<Step>)
      requires Valid() && Runs(View(), steps)
      modifies this
      ensures View() == After(old(View()), steps) && Valid()
    {
      EveryRunKeepsInv(View(), steps);
      Become(After(View(), steps));
    }

    /** The others' turn, while caller `id` is between two steps. */
    method Interfere(world: World, id: nat)
      requires Valid() && Plays(world, id) && id in callers
      modifies this
      ensures Valid() && View() == After(old(View()), world(old(View())))
      ensures id in callers && callers[id] == old(callers)[id] && idCtr >= old(idCtr)
    {
      OthersKeepCaller(View(), world(View()), id);
      Become(After(View(), world(View())));
    }

    /** The end of readLoop: with the table locked, every registered call gets the notice and its channel is closed. */
    method FailPending(reason: string)
      requires Valid() && reader == Reading
      modifies this
      ensures Valid() && AllNotified(old(View()), View(), reason)
    {
      ReadErrorKeepsInv(View(), reason);
      reader := Failing(reason);
      NotifyAll(reason);
      FailEndKeepsInv(View());
      reader := Exited;
    }

    method NotifyAll(reason: string)
      requires Valid() && reader == Failing(reason)
      modifies this
      ensures Valid() && NotifiedSoFar(old(View()), View(), reason) && pending == map[]
    {
      ghost var before := View();
      while pending != map[]
        invariant Valid() && NotifiedSoFar(before, View(), reason)
        decreases |pending|
      {
        var id :| id in pending;
        PendingIsFresh(View(), id);
        OneMoreNotified(before, View(), reason, id);
        FailOneCall(reason, id);
      }
    }

    /** The body of that loop. */
    method FailOneCall(reason: string, id: nat)
      requires Valid() && reader == Failing(reason) && id in pending
      modifies this
      ensures Valid() && View() == Notified(old(View()), id, ConnectionClosed(reason))
    {
      ghost var after := Notified(View(), id, ConnectionClosed(reason));
      PendingIsFresh(View(), id);
      FailRoundNotifies(View(), reason, id);
      NotifiedKeepsInv(View(), id, ConnectionClosed(reason), FailRound(id));
      SendAndClose(id, ConnectionClosed(reason));
      pending := pending - {id};
      assert View() == after;
    }

    /** `ch <- msg` and `close(ch)`. */
    method SendAndClose(id: nat, msg: Message)
      requires id in channels && channels[id] == Channel([], false, 0)
      modifies this`channels
      ensures channels == old(channels)[id := Channel([msg], true, 1)]
    {
      var c := channels[id];
      c := c.(buffer := c.buffer + [msg], sent := c.sent + 1);
      c := c.(closed := true);
      assert c.buffer == [msg];
      channels := channels[id := c];
    }

    /** One reply in readLoop: with nobody else moving, it goes to the call whose id it has, whose channel is then closed and
        whose entry is gone; a reply to nobody changes nothing. */
    method RouteReply(replyId: int, body: string)
      requires Valid() && reader == Reading
      modifies this
      ensures Valid()
      ensures View() == if replyId >= 0 && replyId in old(pending) then Notified(old(View()), replyId, Reply(replyId, body))
                        else old(View())
    {
      if replyId >= 0 && replyId in pending {
        var id: nat := replyId;
        ghost var after := Notified(View(), id, Reply(id, body));
        PendingIsFresh(View(), id);
        ReplyRoundReplies(View(), id, body);
        NotifiedKeepsInv(View(), id, Reply(id, body), ReplyRound(id, body));
        pending := pending - {id};
        SendAndClose(id, Reply(id, body));
        assert View() == after;
      }
    }

    /** The first part of a call, up to its table entry, with the others moving in between: a closed client refuses it. */
    method EnterTable(beforeId: World, lockWorld: nat -> World) returns (id: nat, entered: bool)
      requires Valid() && LeavesOne(beforeId) && forall i :: Unlocks(lockWorld(i), i)
      modifies this
      ensures Valid() && entered == !old(closed)
      ensures !entered ==> View() == old(View()).(refused := old(refused) + 1)
      ensures entered ==> id > old(idCtr) && id in callers && callers[id] == Registered
    {
      entered, id := !closed, 0;
      Take(TestClosed);
      if !entered {
        return;
      }
      IdsOnlyGrow(View(), beforeId(View()));
      TakeAll(beforeId(View()));
      Take(Allocate);
      id := idCtr;
      Interfere(lockWorld(id), id);
      Take(Step.Register(id));
    }

    /** The write: the caller goes to its select exactly when the client is open when the write starts and the write succeeds. */
    method WriteRequest(id: nat, encoded: bool, written: bool, world: World)
      requires Valid() && Plays(world, id) && id in callers && callers[id] == Registered
      modifies this
      ensures Valid() && id in callers
      ensures callers[id] == if encoded && written && !old(closed) then Waiting else Leaving(WriteFailed)
    {
      Take(StartWrite(id, encoded));
      if callers[id] == Writing {
        Interfere(world, id);
        Take(Write(id, written));
      }
    }

    /** The select: with a message in the channel and preferring it, the caller takes that message; otherwise the timer or the
        context wins. */
    method Await(id: nat, prefersReply: bool, timeout: bool)
      requires Valid() && id in callers && callers[id] == Waiting
      modifies this
      ensures Valid() && id in callers && id in old(channels)
      ensures prefersReply && old(channels)[id].buffer != [] ==> callers[id] == Done(Got(old(channels)[id].buffer[0]))
      ensures !prefersReply || old(channels)[id].buffer == [] ==> callers[id] == Leaving(if timeout then TimedOut else Cancelled)
      ensures callers[id].Done? ==> callers[id].outcome.Got? && OwnMessage(id, callers[id].outcome.msg)
    {
      assert CallerInv(View(), id) && ChannelInv(id, channels[id]);
      if prefersReply && (channels[id].buffer != [] || channels[id].closed) {
        Take(Receive(id));
      } else {
        Take(GiveUp(id, timeout));
      }
    }

    /** A whole call, with the others moving between any two of its steps. A closed client refuses it. Otherwise it ends under
        an id drawn after it began, out of the table. `atWrite` and `atSelect` are the states in which its write starts and in
        which it comes to its select, right after the others' turn there. It could not write exactly when it had nothing to
        write, the client was closed by then or the write failed; else it got the message in its channel if it preferred that,
        the notice or a reply with its own id, and timed out or was cancelled if not; never the zero value of a closed channel. */
    method CallWithTimeout(encoded: bool, written: bool, prefersReply: bool, timeout: bool, beforeId: World,
                           world: nat -> World, beforeSelect: nat -> World, lockWorld: nat -> World)
      returns (id: nat, outcome: Outcome, called: bool, ghost atWrite: State, ghost written': State, ghost atSelect: State)
      requires Valid() && LeavesOne(beforeId)
      requires forall i :: Plays(world(i), i) && Plays(beforeSelect(i), i) && Unlocks(lockWorld(i), i)
      modifies this
      ensures Valid() && called == !old(closed)
      ensures !called ==> View() == old(View()).(refused := old(refused) + 1)
      ensures called ==>
                && id > old(idCtr) && id in callers && callers[id] == Done(outcome)
                && (id !in pending || !AtRest(View(), id))
                && (outcome == WriteFailed <==> !encoded || !written || atWrite.closed)
                && (outcome.Got? ==> OwnMessage(id, outcome.msg))
                && (outcome != WriteFailed ==>
                      && ReachesSelect(written', beforeSelect(id), id, atSelect)
                      && outcome == Selected(atSelect.channels[id].buffer, prefersReply, timeout))
    {
      outcome := WriteFailed;
      id, called := EnterTable(beforeId, lockWorld);
      atWrite, written', atSelect := View(), View(), View();
      if !called {
        return;
      }
      Interfere(world(id), id);
      atWrite := View();
      WriteRequest(id, encoded, written, world(id));
      if callers[id] == Waiting {
        written' := View();
        Interfere(beforeSelect(id), id);
        atSelect := View();
        assert CallerInv(View(), id);
        Await(id, prefersReply, timeout);
      }
      outcome := callers[id].outcome;
      if callers[id].Leaving? {
        Interfere(lockWorld(id), id);
        Take(Drop(id));
      }
      assert CallerInv(View(), id);
    }
  }
}
