/** Whole runs of the agent loop: every iteration in turn, the exit, and the one wrap-up call that may follow a budget stop. */
module AgentRun {
  import opened Messages
  import opened AgentIteration
  import opened Text

  type Step = (LoopState, nat) -> Outcome

  /** What the iterations do, each given its own turn. */
  function Steps(cfg: Config, turns: nat -> Turn): Step {
    (s, i: nat) => Iteration(cfg, s, i, turns(i))
  }

  // ---------------------------------------------------------------- every iteration

  /** The state at the top of the iteration with index `k`, if the loop gets there. */
  function Top(step: Step, s0: LoopState, k: nat): Option<LoopState> {
    if k == 0 then Some(s0)
    else
      match Top(step, s0, k - 1)
      case None => None
      case Some(s) => var o := step(s, k - 1); if o.Continue? then Some(o.state) else None
  }

  lemma {:induction false} TopKeeps(step: Step, s0: LoopState, k: nat, inv: (LoopState, nat) -> bool)
    requires inv(s0, 0)
    requires forall s, i: nat :: inv(s, i) && step(s, i).Continue? ==> inv(step(s, i).state, i + 1)
    ensures Top(step, s0, k).Some? ==> inv(Top(step, s0, k).value, k)
  {
    if k > 0 {
      TopKeeps(step, s0, k - 1, inv);
    }
  }

  /** At the top of every iteration of every run the totals equal the sums over roles, with one reply for each iteration so far,
      and tokens and cost are strictly below their caps. */
  lemma EveryIterationIsUnderBudget(cfg: Config, turns: nat -> Turn, seed: string, unrecovered: nat, k: nat)
    ensures var top := Top(Steps(cfg, turns), Initial(seed, unrecovered), k); top.Some? ==> Ledger(cfg, top.value, k)
  {
    var step: Step := Steps(cfg, turns);
    forall s, i: nat | Ledger(cfg, s, i) && step(s, i).Continue?
      ensures Ledger(cfg, step(s, i).state, i + 1)
    {
      IterationKeepsLedger(cfg, s, i, turns(i));
    }
    TopKeeps(step, Initial(seed, unrecovered), k, (s: LoopState, i: nat) => Ledger(cfg, s, i));
  }

  /** With even head and tail sizes: at the top of every iteration of every run an odd number of messages, roles in turns, every
      tool result right behind the call it answers. */
  lemma EveryIterationStartsWell(cfg: Config, turns: nat -> Turn, seed: string, unrecovered: nat, k: nat)
    requires EvenSizes(cfg)
    ensures var top := Top(Steps(cfg, turns), Initial(seed, unrecovered), k); top.Some? ==> WellFormed(top.value.messages)
  {
    var step: Step := Steps(cfg, turns);
    forall s: LoopState, i: nat | WellFormed(s.messages) && step(s, i).Continue?
      ensures WellFormed(step(s, i).state.messages)
    {
      IterationKeepsWellFormed(cfg, s, i, turns(i));
    }
    TopKeeps(step, Initial(seed, unrecovered), k, (s: LoopState, i: nat) => WellFormed(s.messages));
  }

  /** Whatever the sizes, and however often a run compacts: at the top of every iteration every call is answered, that of the
      last head message perhaps excepted. */
  lemma EveryIterationAnswersItsCalls(cfg: Config, turns: nat -> Turn, seed: string, unrecovered: nat, k: nat)
    ensures var top := Top(Steps(cfg, turns), Initial(seed, unrecovered), k);
            top.Some? ==> AnsweredExcept(top.value.messages, Hole(cfg))
  {
    var step: Step := Steps(cfg, turns);
    forall s: LoopState, i: nat | AnsweredExcept(s.messages, Hole(cfg)) && step(s, i).Continue?
      ensures AnsweredExcept(step(s, i).state.messages, Hole(cfg))
    {
      IterationKeepsAnswers(cfg, s, i, turns(i));
    }
    TopKeeps(step, Initial(seed, unrecovered), k, (s: LoopState, i: nat) => AnsweredExcept(s.messages, Hole(cfg)));
  }

  // ---------------------------------------------------------------- the exit

  datatype Ending = Ending(reason: Reason, iterations: nat, state: LoopState)

  function EndingOf(o: Outcome, i: nat): Ending
    requires !o.Continue?
  {
    match o
    case Stop(reason, s) => Ending(reason, i + 1, s)
    case Finished(s) => Ending(Done, i + 1, s)
    case Errored(s) => Ending(ProviderError, i + 1, s)
  }

  /** The loop from the iteration with index `i` up to `n` of them. */
  function Play(step: Step, s: LoopState, i: nat, n: nat): Ending
    requires i <= n
    decreases n - i
  {
    if i == n then Ending(MaxIter, n, s)
    else
      var o := step(s, i);
      if o.Continue? then Play(step, o.state, i + 1, n) else EndingOf(o, i)
  }

  /** `e` is what `step` does at the last iteration reached, or the state after the last iteration allowed. */
  predicate EndsAt(step: Step, s0: LoopState, n: nat, e: Ending) {
    || (Top(step, s0, n) == Some(e.state) && e == Ending(MaxIter, n, e.state))
    || (&& 0 < e.iterations <= n && Top(step, s0, e.iterations - 1).Some?
        && var o := step(Top(step, s0, e.iterations - 1).value, e.iterations - 1);
           !o.Continue? && e == EndingOf(o, e.iterations - 1))
  }

  lemma {:induction false} PlayEnds(step: Step, s0: LoopState, s: LoopState, i: nat, n: nat)
    requires i <= n && Top(step, s0, i) == Some(s)
    ensures EndsAt(step, s0, n, Play(step, s, i, n))
    decreases n - i
  {
    if i < n {
      var o := step(s, i);
      if o.Continue? {
        assert Top(step, s0, i + 1) == Some(o.state);
        PlayEnds(step, s0, o.state, i + 1, n);
      }
    }
  }

  function Played(cfg: Config, turns: nat -> Turn, seed: string, unrecovered: nat): Ending {
    Play(Steps(cfg, turns), Initial(seed, unrecovered), 0, cfg.maxIter)
  }

  /** What every iteration keeps and what it leaves when it does not continue hold of the whole run. */
  lemma {:induction false} PlayKeeps(step: Step, s: LoopState, i: nat, n: nat, inv: (LoopState, nat) -> bool, end: Ending -> bool)
    requires i <= n && inv(s, i)
    requires forall s, i: nat :: inv(s, i) && step(s, i).Continue? ==> inv(step(s, i).state, i + 1)
    requires forall s, i: nat :: inv(s, i) && !step(s, i).Continue? ==> end(EndingOf(step(s, i), i))
    requires forall s :: inv(s, n) ==> end(Ending(MaxIter, n, s))
    ensures end(Play(step, s, i, n))
    decreases n - i
  {
    if i < n && step(s, i).Continue? {
      PlayKeeps(step, step(s, i).state, i + 1, n, inv, end);
    }
  }

  /** How many replies a run that ended as `e` has charged. */
  function RepliesOf(e: Ending, turns: nat -> Turn): nat {
    if e.iterations == 0 then 0
    else if e.reason == ProviderError then e.iterations - 1
    else if e.reason == Done && turns(e.iterations - 1).milestone.MilestoneReply? then e.iterations + 1
    else e.iterations
  }

  predicate EndsAccounted(e: Ending, turns: nat -> Turn) {
    Accounted(e.state, RepliesOf(e, turns))
  }

  lemma LastIterationIsAccounted(cfg: Config, turns: nat -> Turn, s: LoopState, i: nat)
    requires Ledger(cfg, s, i) && !Iteration(cfg, s, i, turns(i)).Continue?
    ensures EndsAccounted(EndingOf(Iteration(cfg, s, i, turns(i)), i), turns)
  {
    IterationKeepsLedger(cfg, s, i, turns(i));
    if Iteration(cfg, s, i, turns(i)).Stop? {
      StopReasons(cfg, s, i, turns(i));
    }
  }

  /** Conservation over a whole run: tokens, cost and replies in total are the sums over the roles; every iteration charges one
      reply, but a provider failure charges none and a memory milestone one more. */
  lemma RunIsAccounted(cfg: Config, turns: nat -> Turn, seed: string, unrecovered: nat)
    ensures EndsAccounted(Played(cfg, turns, seed, unrecovered), turns)
  {
    var step: Step := Steps(cfg, turns);
    forall s, i: nat | Ledger(cfg, s, i)
      ensures step(s, i).Continue? ==> Ledger(cfg, step(s, i).state, i + 1)
      ensures !step(s, i).Continue? ==> EndsAccounted(EndingOf(step(s, i), i), turns)
    {
      IterationKeepsLedger(cfg, s, i, turns(i));
      if !step(s, i).Continue? {
        LastIterationIsAccounted(cfg, turns, s, i);
      }
    }
    PlayKeeps(step, Initial(seed, unrecovered), 0, cfg.maxIter, (s: LoopState, i: nat) => Ledger(cfg, s, i),
              (e: Ending) => EndsAccounted(e, turns));
  }

  /** Tokens of the replies of the first `n` iterations; none where the provider failed. */
  function ReplyTokens(turns: nat -> Turn, n: nat): int {
    if n == 0 then 0
    else
      ReplyTokens(turns, n - 1)
      + match turns(n - 1).reply
        case None => 0
        case Some(r) => r.inputTokens + r.outputTokens
  }

  predicate CountsReplies(e: Ending, turns: nat -> Turn) {
    e.state.totalTokens == ReplyTokens(turns, e.iterations) + ExtraTokens(e, turns)
  }

  /** The tokens of a memory milestone, which only a finished run can have. */
  function ExtraTokens(e: Ending, turns: nat -> Turn): int {
    if e.reason == Done && e.iterations > 0 then
      match turns(e.iterations - 1).milestone
      case MilestoneReply(m, _) => m.inputTokens + m.outputTokens
      case _ => 0
    else 0
  }

  /** What one iteration adds to the tokens. */
  lemma IterationCounts(cfg: Config, turns: nat -> Turn, s: LoopState, i: nat)
    requires s.totalTokens == ReplyTokens(turns, i)
    ensures var o := Iteration(cfg, s, i, turns(i));
            && (o.Continue? ==> o.state.totalTokens == ReplyTokens(turns, i + 1))
            && (!o.Continue? ==> CountsReplies(EndingOf(o, i), turns))
  {
    var t := turns(i);
    if t.reply.Some? {
      if Iteration(cfg, s, i, t).Finished? && t.milestone.MilestoneReply? {
        MilestoneCharges(cfg, s, i, t);
        IterationCharges(cfg, s, i, t.(milestone := NoMilestone));
      } else {
        IterationCharges(cfg, s, i, t);
      }
      if Iteration(cfg, s, i, t).Stop? {
        StopReasons(cfg, s, i, t);
      }
    }
  }

  /** The tokens a run reports are those of the replies it got, milestone included. */
  lemma RunCountsReplies(cfg: Config, turns: nat -> Turn, seed: string, unrecovered: nat)
    ensures CountsReplies(Played(cfg, turns, seed, unrecovered), turns)
  {
    var step: Step := Steps(cfg, turns);
    var inv := (s: LoopState, i: nat) => s.totalTokens == ReplyTokens(turns, i);
    forall s: LoopState, i: nat | inv(s, i)
      ensures step(s, i).Continue? ==> inv(step(s, i).state, i + 1)
      ensures !step(s, i).Continue? ==> CountsReplies(EndingOf(step(s, i), i), turns)
    {
      IterationCounts(cfg, turns, s, i);
    }
    PlayKeeps(step, Initial(seed, unrecovered), 0, cfg.maxIter, inv, (e: Ending) => CountsReplies(e, turns));
  }

  predicate EndsWellFormed(e: Ending) {
    e.reason != Done ==> WellFormed(e.state.messages)
  }

  /** With even sizes a run that is not done leaves a well-formed history. */
  lemma RunLeavesWellFormed(cfg: Config, turns: nat -> Turn, seed: string, unrecovered: nat)
    requires EvenSizes(cfg)
    ensures EndsWellFormed(Played(cfg, turns, seed, unrecovered))
  {
    var step: Step := Steps(cfg, turns);
    forall s: LoopState, i: nat | WellFormed(s.messages)
      ensures step(s, i).Continue? ==> WellFormed(step(s, i).state.messages)
      ensures !step(s, i).Continue? ==> EndsWellFormed(EndingOf(step(s, i), i))
    {
      IterationKeepsWellFormed(cfg, s, i, turns(i));
    }
    PlayKeeps(step, Initial(seed, unrecovered), 0, cfg.maxIter, (s: LoopState, i: nat) => WellFormed(s.messages), EndsWellFormed);
  }

  // ---------------------------------------------------------------- grace

  const HANDOFF := "budget_exhausted_with_handoff"
  const WRAP_UP := "[BUDGET WRAP-UP]"

  /** What the loop object remembers of a budget stop. */
  datatype Grace = Grace(
    fired: bool, status: string, messages: seq<Message>,
    totalTokens: int, totalCost: real, maxTokens: int, maxCost: real
  )

  const NO_GRACE_YET := Grace(false, "", [], 0, 0.0, 0, 0.0)

  datatype WrapUpReply = NoProvider | ProviderFails | WrapUpText(text: string)

  predicate Over(g: Grace) {
    (g.maxTokens > 0 && g.totalTokens >= g.maxTokens) || (g.maxCost > 0.0 && g.totalCost >= g.maxCost)
  }

  function WrapUpRequest(messages: seq<Message>): seq<Message> {
    messages + [UserText(WRAP_UP)]
  }

  function Graced(g: Grace, noGrace: bool, reply: WrapUpReply): Grace {
    if !Over(g) || noGrace then g
    else if g.fired then g.(status := HANDOFF)
    else
      var fired := g.(fired := true, status := HANDOFF);
      if reply.WrapUpText? then fired.(messages := g.messages + [Message(Assistant, reply.text, [], [])]) else fired
  }

  /** The requests a grace check sends. */
  function Sent(g: Grace, noGrace: bool, reply: WrapUpReply): seq<seq<Message>> {
    if Over(g) && !noGrace && !g.fired && !reply.NoProvider? then [WrapUpRequest(g.messages)] else []
  }

  /** A second check changes nothing and sends nothing, whatever the provider would now say. */
  lemma GraceIsIdempotent(g: Grace, noGrace: bool, first: WrapUpReply, second: WrapUpReply)
    ensures var once := Graced(g, noGrace, first); Graced(once, noGrace, second) == once && Sent(once, noGrace, second) == []
  {
  }

  // ---------------------------------------------------------------- the result

  /** The last verification: how many checks there were and whether all passed. */
  datatype FinalVerify = FinalVerify(checks: nat, allPass: bool)

  datatype RunResult = RunResult(
    status: string, iterations: nat, tokens: int, cost: real, failed: bool, budgetReason: string, byRole: map<string, Usage>
  )

  predicate OnBudget(e: Ending) {
    e.reason in {BudgetTokens, BudgetCost}
  }

  function Synced(cfg: Config, g: Grace, s: LoopState): Grace {
    Grace(g.fired, g.status, s.messages, s.totalTokens, s.totalCost, cfg.maxTokens, cfg.maxCost)
  }

  function GraceAfter(cfg: Config, e: Ending, noGrace: bool, reply: WrapUpReply): Grace {
    if OnBudget(e) then Graced(Synced(cfg, NO_GRACE_YET, e.state), noGrace, reply) else NO_GRACE_YET
  }

  function RequestsAfter(cfg: Config, e: Ending, noGrace: bool, reply: WrapUpReply): seq<seq<Message>> {
    if OnBudget(e) then Sent(Synced(cfg, NO_GRACE_YET, e.state), noGrace, reply) else []
  }

  function VerifyStatus(final: FinalVerify): string {
    if final.checks == 0 then "budget_exhausted"
    else if final.allPass then "budget_exhausted_verify_passed"
    else "budget_exhausted_verify_failed"
  }

  function StatusOf(e: Ending, g: Grace, final: FinalVerify): string {
    match e.reason
    case BudgetTokens => if g.status != "" then g.status else VerifyStatus(final)
    case BudgetCost => if g.status != "" then g.status else VerifyStatus(final)
    case Stuck => "stuck"
    case MaxIter => "max_iterations"
    case Done => "done"
    case ProviderError => "error"
  }

  function BudgetReasonOf(e: Ending): string {
    if e.reason == BudgetTokens then "tokens" else if e.reason == BudgetCost then "cost" else ""
  }

  function Report(e: Ending, g: Grace, final: FinalVerify): RunResult {
    RunResult(StatusOf(e, g, final), e.iterations, e.state.totalTokens, e.state.totalCost,
              e.reason in {Stuck, ProviderError}, BudgetReasonOf(e), e.state.byRole)
  }

  lemma HandoffIsItsOwnStatus(final: FinalVerify)
    ensures HANDOFF !in {VerifyStatus(final), "", "stuck", "max_iterations", "done", "error"}
  {
    assert |HANDOFF| == 29 && |"budget_exhausted_verify_passed"| == 30 && |"budget_exhausted_verify_failed"| == 30;
  }

  /** A run reports a hand-off exactly when the budget stopped it with the full cap reached and grace is allowed. */
  lemma HandoffNeedsTheFullCap(cfg: Config, e: Ending, noGrace: bool, reply: WrapUpReply, final: FinalVerify)
    ensures var status := Report(e, GraceAfter(cfg, e, noGrace, reply), final).status;
            status == HANDOFF <==> OnBudget(e) && !noGrace && Over(Synced(cfg, NO_GRACE_YET, e.state))
  {
    HandoffIsItsOwnStatus(final);
  }

  /** What a run reports of its ending, hand-offs aside: one status for each way to end, an error exactly when it was stuck or
      the provider failed, and the counters as they stood. */
  lemma ReportMeaning(e: Ending, g: Grace, final: FinalVerify)
    ensures var r := Report(e, g, final);
            && (e.reason == Done ==> r.status == "done") && (e.reason == MaxIter ==> r.status == "max_iterations")
            && (e.reason == Stuck ==> r.status == "stuck") && (e.reason == ProviderError ==> r.status == "error")
            && (e.reason in {BudgetTokens, BudgetCost} && g.status == "" ==>
                  r.status == if final.checks == 0 then "budget_exhausted"
                              else if final.allPass then "budget_exhausted_verify_passed" else "budget_exhausted_verify_failed")
            && (r.failed <==> e.reason in {Stuck, ProviderError})
            && (r.budgetReason == "tokens" <==> e.reason == BudgetTokens) && (r.budgetReason == "cost" <==> e.reason == BudgetCost)
            && r.iterations == e.iterations && r.tokens == e.state.totalTokens && r.cost == e.state.totalCost
            && r.byRole == e.state.byRole
  {
  }

  /** The wrap-up of a budget stop: one request, the history and then the prompt, exactly when a full cap is reached, grace is
      allowed and there is a provider; what it answers is kept behind the history. */
  lemma WrapUpMeaning(cfg: Config, e: Ending, noGrace: bool, reply: WrapUpReply)
    requires OnBudget(e)
    ensures var tokens, cost := e.state.totalTokens, e.state.totalCost;
            var full := (cfg.maxTokens > 0 && tokens >= cfg.maxTokens) || (cfg.maxCost > 0.0 && cost >= cfg.maxCost);
            var prompted := e.state.messages + [Message(User, WRAP_UP, [], [])];
            var g := GraceAfter(cfg, e, noGrace, reply);
            && RequestsAfter(cfg, e, noGrace, reply) == (if full && !noGrace && reply != NoProvider then [prompted] else [])
            && (g.fired <==> full && !noGrace) && (g.status == if full && !noGrace then "budget_exhausted_with_handoff" else "")
            && g.messages == if full && !noGrace && reply.WrapUpText? then e.state.messages + [Message(Assistant, reply.text, [], [])]
                             else e.state.messages
  {
  }

  /** The last reply is no larger than the reserve. */
  predicate SmallLastReply(cfg: Config, turns: nat -> Turn, e: Ending) {
    e.iterations > 0 && var r := turns(e.iterations - 1).reply; r.Some? && Tokens(r.value) <= cfg.reserve
  }

  predicate LeavesRoom(cfg: Config, turns: nat -> Turn, e: Ending) {
    e.reason == BudgetTokens && SmallLastReply(cfg, turns, e) ==> e.state.totalTokens < cfg.maxTokens
  }

  lemma LastIterationLeavesRoom(cfg: Config, turns: nat -> Turn, s: LoopState, i: nat)
    requires UnderBudget(cfg, s) && cfg.reserve < cfg.maxTokens && !Iteration(cfg, s, i, turns(i)).Continue?
    ensures LeavesRoom(cfg, turns, EndingOf(Iteration(cfg, s, i, turns(i)), i))
  {
    var o := Iteration(cfg, s, i, turns(i));
    if o.Stop? {
      StopReasons(cfg, s, i, turns(i));
      if o.reason == BudgetTokens {
        TokenStopLeavesRoom(cfg, s, i, turns(i));
      }
    }
  }

  /** When the reserve is under the cap and the last reply no larger than the reserve, a run stopped on tokens ends below the
      full cap. */
  lemma TokenStopIsBelowTheCap(cfg: Config, turns: nat -> Turn, seed: string, unrecovered: nat)
    requires cfg.reserve < cfg.maxTokens
    ensures LeavesRoom(cfg, turns, Played(cfg, turns, seed, unrecovered))
  {
    var step: Step := Steps(cfg, turns);
    forall s, i: nat | Ledger(cfg, s, i)
      ensures step(s, i).Continue? ==> Ledger(cfg, step(s, i).state, i + 1)
      ensures !step(s, i).Continue? ==> LeavesRoom(cfg, turns, EndingOf(step(s, i), i))
    {
      IterationKeepsLedger(cfg, s, i, turns(i));
      if !step(s, i).Continue? {
        LastIterationLeavesRoom(cfg, turns, s, i);
      }
    }
    PlayKeeps(step, Initial(seed, unrecovered), 0, cfg.maxIter, (s: LoopState, i: nat) => Ledger(cfg, s, i),
              (e: Ending) => LeavesRoom(cfg, turns, e));
  }

  /** So such a run, if its cost stayed below the cap as well, never hands off and sends no wrap-up request: the loop stops
      short of the full cap that the grace check looks at. */
  lemma ReserveKeepsGraceAway(cfg: Config, turns: nat -> Turn, seed: string, unrecovered: nat,
                              noGrace: bool, reply: WrapUpReply, final: FinalVerify)
    requires cfg.reserve < cfg.maxTokens
    requires var e := Played(cfg, turns, seed, unrecovered);
             e.reason == BudgetTokens && SmallLastReply(cfg, turns, e) && (cfg.maxCost > 0.0 ==> e.state.totalCost < cfg.maxCost)
    ensures var e := Played(cfg, turns, seed, unrecovered);
            && Report(e, GraceAfter(cfg, e, noGrace, reply), final).status == VerifyStatus(final)
            && RequestsAfter(cfg, e, noGrace, reply) == []
  {
    TokenStopIsBelowTheCap(cfg, turns, seed, unrecovered);
  }

  predicate UserLast(e: Ending) {
    e.reason != Done ==> EndsInUser(e.state.messages)
  }

  /** Whatever the sizes, a run that is not done leaves a user message last. */
  lemma RunEndsInUser(cfg: Config, turns: nat -> Turn, seed: string, unrecovered: nat)
    ensures UserLast(Played(cfg, turns, seed, unrecovered))
  {
    var step: Step := Steps(cfg, turns);
    forall s: LoopState, i: nat | EndsInUser(s.messages)
      ensures step(s, i).Continue? ==> EndsInUser(step(s, i).state.messages)
      ensures !step(s, i).Continue? ==> UserLast(EndingOf(step(s, i), i))
    {
      IterationEndsInUser(cfg, s, i, turns(i));
    }
    PlayKeeps(step, Initial(seed, unrecovered), 0, cfg.maxIter, (s: LoopState, i: nat) => EndsInUser(s.messages), UserLast);
  }

  /** So the wrap-up request that follows a run never has roles in turns: its prompt stands behind another user message. */
  lemma WrapUpNeverAlternates(cfg: Config, turns: nat -> Turn, seed: string, unrecovered: nat, noGrace: bool, reply: WrapUpReply)
    ensures forall request: seq<Message> :: request in RequestsAfter(cfg, Played(cfg, turns, seed, unrecovered), noGrace, reply) ==>
              !Alternates(request)
  {
    var e := Played(cfg, turns, seed, unrecovered);
    RunEndsInUser(cfg, turns, seed, unrecovered);
    forall request: seq<Message> | request in RequestsAfter(cfg, e, noGrace, reply)
      ensures !Alternates(request)
    {
      var n := |e.state.messages|;
      assert request == WrapUpRequest(e.state.messages);
      assert request[n - 1].role == request[n].role == User && RoleAt(n - 1) != RoleAt(n);
    }
  }

  // ---------------------------------------------------------------- the loop object

  class AgentLoop {
    const cfg: Config
    const noGrace: bool
    var unrecovered: nat
    var graceFired: bool
    var graceStatus: string
    var graceBudgetMaxTokens: int
    var graceBudgetMaxCost: real
    var graceTotalTokens: int
    var graceTotalCost: real
    var graceMessages: seq<Message>
    /** Every wrap-up request sent so far, over all runs. */
    var requests: seq<seq<Message>>

    constructor (cfg: Config, noGrace: bool)
      ensures this.cfg == cfg && this.noGrace == noGrace && unrecovered == 0 && requests == [] && Remembered() == NO_GRACE_YET
    {
      this.cfg, this.noGrace, unrecovered, requests := cfg, noGrace, 0, [];
      graceFired, graceStatus, graceMessages := false, "", [];
      graceBudgetMaxTokens, graceBudgetMaxCost, graceTotalTokens, graceTotalCost := 0, 0.0, 0, 0.0;
    }

    function Remembered(): Grace
      reads this
    {
      Grace(graceFired, graceStatus, graceMessages, graceTotalTokens, graceTotalCost, graceBudgetMaxTokens, graceBudgetMaxCost)
    }

    method ResetGrace()
      modifies this
      ensures Remembered() == NO_GRACE_YET && unrecovered == old(unrecovered) && requests == old(requests)
    {
      graceFired, graceStatus, graceMessages := false, "", [];
      graceBudgetMaxTokens, graceBudgetMaxCost, graceTotalTokens, graceTotalCost := 0, 0.0, 0, 0.0;
    }

    method SyncGraceState(s: LoopState)
      modifies this
      ensures Remembered() == Synced(cfg, old(Remembered()), s)
      ensures unrecovered == old(unrecovered) && requests == old(requests)
    {
      graceTotalTokens := s.totalTokens;
      graceTotalCost := s.totalCost;
      graceBudgetMaxTokens := cfg.maxTokens;
      graceBudgetMaxCost := cfg.maxCost;
      graceMessages := s.messages;
    }

    method CheckBudgetAndMaybeGrace(reply: WrapUpReply)
      modifies this
      ensures Remembered() == Graced(old(Remembered()), noGrace, reply)
      ensures requests == old(requests) + Sent(old(Remembered()), noGrace, reply)
      ensures unrecovered == old(unrecovered)
    {
      var overTokens := graceBudgetMaxTokens > 0 && graceTotalTokens >= graceBudgetMaxTokens;
      var overCost := graceBudgetMaxCost > 0.0 && graceTotalCost >= graceBudgetMaxCost;
      if !overTokens && !overCost {
        return;
      }
      if noGrace {
        return;
      }
      if graceFired {
        graceStatus := HANDOFF;
        return;
      }
      graceFired := true;
      graceStatus := HANDOFF;
      if reply.NoProvider? {
        return;
      }
      requests := requests + [graceMessages + [UserText(WRAP_UP)]];
      if reply.ProviderFails? {
        return;
      }
      graceMessages := graceMessages + [Message(Assistant, reply.text, [], [])];
    }

    /** The loop itself: iterations until one does not continue. */
    method Loop(seed: string, turns: nat -> Turn) returns (e: Ending)
      ensures e == Played(cfg, turns, seed, unrecovered)
    {
      var s := Initial(seed, unrecovered);
      var iter := 0;
      while iter < cfg.maxIter
        invariant iter <= cfg.maxIter
        invariant Played(cfg, turns, seed, unrecovered) == Play(Steps(cfg, turns), s, iter, cfg.maxIter)
      {
        var o := Iterate(cfg, s, iter, turns(iter));
        iter := iter + 1;
        match o {
          case Continue(next) =>
            s := next;
          case Stop(reason, last) =>
            return Ending(reason, iter, last);
          case Finished(last) =>
            return Ending(Done, iter, last);
          case Errored(last) =>
            return Ending(ProviderError, iter, last);
        }
      }
      e := Ending(MaxIter, cfg.maxIter, s);
    }

    /** The status and the budget reason that go with an ending. */
    method Result(e: Ending, final: FinalVerify) returns (r: RunResult)
      ensures r == Report(e, Remembered(), final)
    {
      var status, budgetReason := "", "";
      match e.reason {
        case BudgetTokens =>
          budgetReason := "tokens";
        case BudgetCost =>
          budgetReason := "cost";
        case Stuck =>
          status := "stuck";
        case MaxIter =>
          status := "max_iterations";
        case Done =>
          status := "done";
        case ProviderError =>
          status := "error";
      }
      if e.reason == BudgetTokens || e.reason == BudgetCost {
        if final.checks == 0 {
          status := "budget_exhausted";
        } else if final.allPass {
          status := "budget_exhausted_verify_passed";
        } else {
          status := "budget_exhausted_verify_failed";
        }
        if graceStatus != "" {
          status := graceStatus;
        }
      }
      var failed := e.reason == Stuck || e.reason == ProviderError;
      r := RunResult(status, e.iterations, e.state.totalTokens, e.state.totalCost, failed, budgetReason, e.state.byRole);
    }

    /** One run: grace starts afresh, and unrecovered stuck signals carry over from earlier runs. */
    method Run(seed: string, turns: nat -> Turn, final: FinalVerify, reply: WrapUpReply) returns (r: RunResult)
      modifies this
      ensures var e := Played(cfg, turns, seed, old(unrecovered));
              && r == Report(e, GraceAfter(cfg, e, noGrace, reply), final)
              && Remembered() == GraceAfter(cfg, e, noGrace, reply)
              && requests == old(requests) + RequestsAfter(cfg, e, noGrace, reply)
              && unrecovered == e.state.unrecovered
    {
      ResetGrace();
      var e := Loop(seed, turns);
      unrecovered := e.state.unrecovered;
      if OnBudget(e) {
        SyncGraceState(e.state);
        CheckBudgetAndMaybeGrace(reply);
      }
      assert Remembered() == GraceAfter(cfg, e, noGrace, reply);
      r := Result(e, final);
    }
  }
}
