/** The agent loop: one provider call per iteration, its tool calls, the budget, stuck signals, verification and compaction.
    What providers, tools, the verifier and the stuck strategy do is an arbitrary input to each iteration. */
module AgentIteration {
  import opened Messages
  import opened Compactor
  import opened Text

  datatype Response = Response(text: string, calls: seq<ToolCall>, inputTokens: int, outputTokens: int)

  function Tokens(r: Response): int {
    r.inputTokens + r.outputTokens
  }

  // ---------------------------------------------------------------- roles and usage

  const PLANNER := "planner"
  const EDITOR := "editor"
  const MAIN := "main"
  const ROLES: set<string> := {PLANNER, EDITOR, MAIN}

  const EXEC_TOOLS: set<string> := {"bash", "edit", "write_file", "apply_patch", "read_file", "memory_update"}

  /** The role of the iteration with index `i`, by the shape of the previous response. */
  function ClassifyTurn(i: nat, last: Option<Response>): (role: string)
    ensures role in ROLES
  {
    if i == 0 then PLANNER
    else
      match last
      case None => MAIN
      case Some(r) =>
        if exists k :: 0 <= k < |r.calls| && r.calls[k].name == "plan" then PLANNER
        else if |r.calls| > 0 && forall k :: 0 <= k < |r.calls| ==> r.calls[k].name in EXEC_TOOLS then EDITOR
        else MAIN
  }

  predicate CallsTool(r: Response, name: string) {
    exists k :: 0 <= k < |r.calls| && r.calls[k].name == name
  }

  /** The first turn is the planner's. Later the order of the tests is of no account: planning is not an execution tool, so a
      response that calls it never goes to the editor. */
  lemma RoleTestsExclude(i: nat, r: Response)
    ensures forall last :: ClassifyTurn(0, last) == "planner"
    ensures ClassifyTurn(i + 1, None) == "main"
    ensures ClassifyTurn(i + 1, Some(r)) == "planner" <==> CallsTool(r, "plan")
    ensures ClassifyTurn(i + 1, Some(r)) == "editor"
            <==> |r.calls| > 0 && forall k :: 0 <= k < |r.calls| ==>
                   r.calls[k].name in {"bash", "edit", "write_file", "apply_patch", "read_file", "memory_update"}
    ensures ClassifyTurn(i + 1, Some(r)) in {"planner", "editor", "main"}
  {
    assert PLANNER[0] == 'p' && EDITOR[0] == 'e' && MAIN[0] == 'm';
    assert "plan" !in EXEC_TOOLS by {
      assert |"plan"| == |"bash"| == |"edit"| && "plan"[0] != "bash"[0] && "plan"[0] != "edit"[0];
    }
  }

  datatype Usage = Usage(calls: nat, inputTokens: int, outputTokens: int, cost: real)

  const NO_USAGE := Usage(0, 0, 0, 0.0)

  function UsageOf(byRole: map<string, Usage>, role: string): Usage {
    if role in byRole then byRole[role] else NO_USAGE
  }

  function Charged(byRole: map<string, Usage>, role: string, r: Response, cost: real): map<string, Usage> {
    var u := UsageOf(byRole, role);
    byRole[role := Usage(u.calls + 1, u.inputTokens + r.inputTokens, u.outputTokens + r.outputTokens, u.cost + cost)]
  }

  method RecordRoleUsage(byRole: map<string, Usage>, role: string, r: Response, cost: real) returns (m: map<string, Usage>)
    ensures m == Charged(byRole, role, r, cost)
  {
    var cur := if role in byRole then byRole[role] else NO_USAGE;
    cur := cur.(calls := cur.calls + 1);
    cur := cur.(inputTokens := cur.inputTokens + r.inputTokens);
    cur := cur.(outputTokens := cur.outputTokens + r.outputTokens);
    cur := cur.(cost := cur.cost + cost);
    m := byRole[role := cur];
  }

  function TokensOf(byRole: map<string, Usage>, role: string): int {
    UsageOf(byRole, role).inputTokens + UsageOf(byRole, role).outputTokens
  }

  function SumTokens(byRole: map<string, Usage>): int {
    TokensOf(byRole, PLANNER) + TokensOf(byRole, EDITOR) + TokensOf(byRole, MAIN)
  }

  function SumCost(byRole: map<string, Usage>): real {
    UsageOf(byRole, PLANNER).cost + UsageOf(byRole, EDITOR).cost + UsageOf(byRole, MAIN).cost
  }

  function SumCalls(byRole: map<string, Usage>): nat {
    UsageOf(byRole, PLANNER).calls + UsageOf(byRole, EDITOR).calls + UsageOf(byRole, MAIN).calls
  }

  lemma ChargeAddsUp(byRole: map<string, Usage>, role: string, r: Response, cost: real)
    requires role in ROLES
    ensures var m := Charged(byRole, role, r, cost);
            && SumTokens(m) == SumTokens(byRole) + Tokens(r)
            && SumCost(m) == SumCost(byRole) + cost
            && SumCalls(m) == SumCalls(byRole) + 1
            && m.Keys == byRole.Keys + {role}
  {
    assert PLANNER[0] == 'p' && EDITOR[0] == 'e' && MAIN[0] == 'm';
  }

  // ---------------------------------------------------------------- budget

  const DEFAULT_RESERVE := 8000

  /** The tokens held back: the caller's setting before the specification's, by default 8000 or a tenth of the cap if less;
      never negative. */
  function Reserve(fromSpec: int, override: int, maxTokens: int): int {
    var r := if override != 0 then override else fromSpec;
    var d := if r != 0 then r else if maxTokens > 0 && maxTokens / 10 < DEFAULT_RESERVE then maxTokens / 10 else DEFAULT_RESERVE;
    if d < 0 then 0 else d
  }

  /** Where the loop stops: the cap less the reserve, at least one. */
  function EffectiveCap(maxTokens: int, reserve: int): int {
    if maxTokens > 0 && maxTokens - reserve <= 0 then 1 else maxTokens - reserve
  }

  /** With nothing configured a tenth of the cap at most is held back, so the effective cap is the cap less the reserve. */
  lemma DefaultReserveFits(maxTokens: int)
    requires maxTokens > 0
    ensures var r := Reserve(0, 0, maxTokens);
            0 <= r < maxTokens && 10 * r <= maxTokens && EffectiveCap(maxTokens, r) == maxTokens - r
  {
  }

  /** A setting of the caller's comes before the specification's, a negative one means no reserve; without any it is 8000 tokens
      or a tenth of the cap, whichever is less. */
  lemma ReserveMeaning(fromSpec: int, override: int, maxTokens: int)
    ensures override != 0 ==> Reserve(fromSpec, override, maxTokens) == if override > 0 then override else 0
    ensures override == 0 && fromSpec != 0 ==> Reserve(fromSpec, override, maxTokens) == if fromSpec > 0 then fromSpec else 0
    ensures override == 0 && fromSpec == 0 ==>
              Reserve(fromSpec, override, maxTokens) == if 0 < maxTokens < 80000 then maxTokens / 10 else 8000
  {
  }

  /** A cap of zero or less is no cap. */
  datatype Config = Config(
    compactor: Option<Settings>,
    maxTokens: int,
    reserve: int,
    maxCost: real,
    stuckThreshold: int,
    maxIter: nat
  )

  datatype Reason = BudgetTokens | BudgetCost | Stuck | MaxIter | Done | ProviderError

  // ---------------------------------------------------------------- what an iteration is given

  datatype CallOutcome = Denied(reason: string) | UnknownTool | Failed(message: string) | Ran(content: string, isError: bool)

  datatype Milestone = NoMilestone | MilestoneFailed | MilestoneReply(reply: Response, cost: Option<real>)

  /** `reply` is None when the provider fails; `recovered` has one entry for each stuck signal; `outcome` tells what becomes of
      the k-th tool call. */
  datatype Turn = Turn(
    compactWanted: bool,
    historySkips: bool,
    summary: Option<string>,
    reply: Option<Response>,
    cost: Option<real>,
    stuckChecked: bool,
    recovered: seq<bool>,
    outcome: nat -> CallOutcome,
    verified: bool,
    feedback: string,
    milestone: Milestone
  )

  function Truncated(message: string): string {
    if |message| > 500 then message[..500] + "... (truncated)" else message
  }

  function ResultOf(call: ToolCall, outcome: CallOutcome): (r: ToolResult)
    ensures r.toolUseId == call.id
  {
    match outcome
    case Denied(reason) => ToolResult(call.id, reason, true)
    case UnknownTool => ToolResult(call.id, "unknown tool: " + call.name, true)
    case Failed(message) => ToolResult(call.id, "tool error: " + Truncated(message), true)
    case Ran(content, isError) => ToolResult(call.id, content, isError)
  }

  function ResultsOf(calls: seq<ToolCall>, outcome: nat -> CallOutcome): (r: seq<ToolResult>)
    ensures |r| == |calls|
  {
    seq(|calls|, (k: nat) requires k < |calls| => ResultOf(calls[k], outcome(k)))
  }

  // ---------------------------------------------------------------- one iteration

  datatype LoopState = LoopState(
    messages: seq<Message>,
    totalTokens: int,
    totalCost: real,
    byRole: map<string, Usage>,
    last: Option<Response>,
    unrecovered: nat
  )

  function Initial(seed: string, unrecovered: nat): LoopState {
    LoopState([UserText(seed)], 0, 0.0, map[], None, unrecovered)
  }

  /** An iteration goes on to the next, stops the loop, or ends the run. */
  datatype Outcome =
    | Continue(state: LoopState)
    | Stop(reason: Reason, state: LoopState)
    | Finished(state: LoopState)
    | Errored(state: LoopState)

  function CostOf(cost: Option<real>): real {
    match cost case None => 0.0 case Some(c) => c
  }

  function AfterCompaction(cfg: Config, s: LoopState, t: Turn): LoopState {
    if cfg.compactor.None? || !t.compactWanted then s
    else
      match Compacted(cfg.compactor.value, s.messages, t.historySkips, t.summary)
      case None => s
      case Some(msgs) => s.(messages := msgs)
  }

  /** The reply is charged to the role of this iteration and to the totals. */
  function AfterCharge(s: LoopState, role: string, r: Response, cost: Option<real>): LoopState {
    s.(totalTokens := s.totalTokens + Tokens(r), totalCost := s.totalCost + CostOf(cost),
       byRole := Charged(s.byRole, role, r, CostOf(cost)))
  }

  function BudgetStop(cfg: Config, s: LoopState): Option<Reason> {
    if cfg.maxTokens > 0 && s.totalTokens >= EffectiveCap(cfg.maxTokens, cfg.reserve) then Some(BudgetTokens)
    else if cfg.maxCost > 0.0 && s.totalCost / cfg.maxCost >= 1.0 then Some(BudgetCost)
    else None
  }

  function Unrecovered(recovered: seq<bool>): nat {
    if |recovered| == 0 then 0
    else Unrecovered(recovered[..|recovered| - 1]) + if recovered[|recovered| - 1] then 0 else 1
  }

  function StuckLimit(cfg: Config): int {
    if cfg.stuckThreshold <= 0 then 3 else cfg.stuckThreshold
  }

  function AfterSignals(s: LoopState, t: Turn): LoopState {
    if t.stuckChecked then s.(unrecovered := s.unrecovered + Unrecovered(t.recovered)) else s
  }

  /** The assistant message, and then verification or the tool results. */
  function AfterAssistant(s: LoopState, r: Response, t: Turn): Outcome {
    var msgs := s.messages + [Message(Assistant, r.text, r.calls, [])];
    if |r.calls| > 0 then
      Continue(s.(messages := msgs + [Message(User, "", [], ResultsOf(r.calls, t.outcome))]))
    else if !t.verified then
      Continue(s.(messages := msgs + [UserText(t.feedback)]))
    else
      var done := s.(messages := msgs);
      match t.milestone
      case MilestoneReply(m, cost) => Finished(AfterCharge(done, MAIN, m, cost))
      case _ => Finished(done)
  }

  function AfterReply(cfg: Config, s: LoopState, i: nat, r: Response, t: Turn): Outcome {
    var charged := AfterCharge(s, ClassifyTurn(i, s.last), r, t.cost).(last := Some(r));
    var stop := BudgetStop(cfg, charged);
    var signalled := AfterSignals(charged, t);
    if stop.Some? then Stop(stop.value, charged)
    else if t.stuckChecked && signalled.unrecovered >= StuckLimit(cfg) then Stop(Stuck, signalled)
    else AfterAssistant(signalled, r, t)
  }

  /** The iteration with index `i` (from 0). */
  function Iteration(cfg: Config, s: LoopState, i: nat, t: Turn): Outcome {
    var compacted := AfterCompaction(cfg, s, t);
    match t.reply
    case None => Errored(compacted)
    case Some(r) => AfterReply(cfg, compacted, i, r, t)
  }

  method RunToolCalls(calls: seq<ToolCall>, outcome: nat -> CallOutcome) returns (results: seq<ToolResult>)
    ensures results == ResultsOf(calls, outcome)
  {
    results := [];
    for k := 0 to |calls|
      invariant |results| == k && forall j :: 0 <= j < k ==> results[j] == ResultOf(calls[j], outcome(j))
    {
      var tc := calls[k];
      match outcome(k) {
        case Denied(reason) =>
          results := results + [ToolResult(tc.id, reason, true)];
        case UnknownTool =>
          results := results + [ToolResult(tc.id, "unknown tool: " + tc.name, true)];
        case Failed(message) =>
          var msg := message;
          if |msg| > 500 {
            msg := msg[..500] + "... (truncated)";
          }
          results := results + [ToolResult(tc.id, "tool error: " + msg, true)];
        case Ran(content, isError) =>
          results := results + [ToolResult(tc.id, content, isError)];
      }
    }
  }

  method CountUnrecovered(recovered: seq<bool>, before: nat) returns (n: nat)
    ensures n == before + Unrecovered(recovered)
  {
    n := before;
    for k := 0 to |recovered|
      invariant n == before + Unrecovered(recovered[..k])
    {
      assert recovered[..k + 1][..k] == recovered[..k];
      if !recovered[k] {
        n := n + 1;
      }
    }
    assert recovered[..|recovered|] == recovered;
  }

  method CompactHistory(cfg: Config, s: LoopState, t: Turn) returns (now: LoopState)
    ensures now == AfterCompaction(cfg, s, t)
  {
    now := s;
    if cfg.compactor.Some? && t.compactWanted {
      var compacted := Compact(cfg.compactor.value, s.messages, t.historySkips, t.summary);
      if compacted.Some? {
        now := now.(messages := compacted.value);
      }
    }
  }

  method Charge(s: LoopState, role: string, r: Response, cost: Option<real>) returns (now: LoopState)
    ensures now == AfterCharge(s, role, r, cost)
  {
    var iterCost, totalCost := 0.0, s.totalCost;
    if cost.Some? {
      iterCost := cost.value;
      totalCost := totalCost + cost.value;
    }
    var byRole := RecordRoleUsage(s.byRole, role, r, iterCost);
    now := s.(totalTokens := s.totalTokens + r.inputTokens + r.outputTokens, totalCost := totalCost, byRole := byRole);
  }

  method TakeReply(s: LoopState, r: Response, t: Turn) returns (o: Outcome)
    ensures o == AfterAssistant(s, r, t)
  {
    var messages := s.messages + [Message(Assistant, r.text, r.calls, [])];
    if |r.calls| == 0 {
      if t.verified {
        var now := s.(messages := messages);
        if t.milestone.MilestoneReply? {
          now := Charge(now, MAIN, t.milestone.reply, t.milestone.cost);
        }
        return Finished(now);
      }
      messages := messages + [UserText(t.feedback)];
      return Continue(s.(messages := messages));
    }
    var toolResults := RunToolCalls(r.calls, t.outcome);
    messages := messages + [Message(User, "", [], toolResults)];
    o := Continue(s.(messages := messages));
  }

  /** The loop body. */
  method Iterate(cfg: Config, s: LoopState, i: nat, t: Turn) returns (o: Outcome)
    ensures o == Iteration(cfg, s, i, t)
  {
    var now := CompactHistory(cfg, s, t);
    var role := ClassifyTurn(i, s.last);
    if t.reply.None? {
      return Errored(now);
    }
    var resp := t.reply.value;
    now := Charge(now, role, resp, t.cost);
    now := now.(last := Some(resp));
    if cfg.maxTokens > 0 {
      if now.totalTokens >= EffectiveCap(cfg.maxTokens, cfg.reserve) {
        return Stop(BudgetTokens, now);
      }
    }
    if cfg.maxCost > 0.0 {
      if now.totalCost / cfg.maxCost >= 1.0 {
        return Stop(BudgetCost, now);
      }
    }
    if t.stuckChecked {
      var unrecovered := CountUnrecovered(t.recovered, now.unrecovered);
      now := now.(unrecovered := unrecovered);
      if unrecovered >= StuckLimit(cfg) {
        return Stop(Stuck, now);
      }
    }
    o := TakeReply(now, resp, t);
  }

  // ---------------------------------------------------------------- what every iteration keeps

  /** The totals are the sums over the roles, `replies` of them, and nothing is charged to anyone else. */
  predicate Accounted(s: LoopState, replies: nat) {
    && s.totalTokens == SumTokens(s.byRole) && s.totalCost == SumCost(s.byRole)
    && SumCalls(s.byRole) == replies && s.byRole.Keys <= ROLES
  }

  predicate UnderBudget(cfg: Config, s: LoopState) {
    && (cfg.maxTokens > 0 ==> s.totalTokens < EffectiveCap(cfg.maxTokens, cfg.reserve))
    && (cfg.maxCost > 0.0 ==> s.totalCost < cfg.maxCost)
  }

  predicate EvenSizes(cfg: Config) {
    cfg.compactor.Some? ==> HeadKeep(cfg.compactor.value) % 2 == 0 && TailKeep(cfg.compactor.value) % 2 == 0
  }

  /** What holds of the counters at the top of the iteration with index `i`. */
  predicate Ledger(cfg: Config, s: LoopState, i: nat) {
    Accounted(s, i) && UnderBudget(cfg, s)
  }

  /** The one message whose calls a compaction may leave without their results. */
  function Hole(cfg: Config): int {
    match cfg.compactor case None => -1 case Some(c) => HeadKeep(c) - 1
  }

  lemma ChargeKeeps(s: LoopState, replies: nat, role: string, r: Response, cost: Option<real>)
    requires Accounted(s, replies) && role in ROLES
    ensures Accounted(AfterCharge(s, role, r, cost), replies + 1)
  {
    ChargeAddsUp(s.byRole, role, r, CostOf(cost));
  }

  lemma CostBelow(total: real, max: real)
    requires max > 0.0
    ensures total / max >= 1.0 <==> total >= max
  {
    var q := total / max;
    assert q * max == total;
  }

  lemma NoStopIsUnderBudget(cfg: Config, s: LoopState)
    ensures BudgetStop(cfg, s).None? <==> UnderBudget(cfg, s)
  {
    if cfg.maxCost > 0.0 {
      CostBelow(s.totalCost, cfg.maxCost);
    }
  }

  /** A user turn behind an assistant turn keeps a history well-formed. */
  lemma TwoTurnsKeepWellFormed(msgs: seq<Message>, a: Message, u: Message)
    requires WellFormed(msgs) && a.role == Assistant && a.results == [] && u.role == User
    requires u.results != [] ==> Answers(a, u)
    ensures WellFormed(msgs + [a] + [u])
  {
    var out := msgs + [a] + [u];
    assert forall i :: 0 <= i < |msgs| ==> out[i] == msgs[i];
    assert out[|msgs|] == a && out[|msgs| + 1] == u;
    assert RoleAt(|msgs|) == Assistant && RoleAt(|msgs| + 1) == User;
  }

  /** A turn that makes calls and the turn that answers them leave every other call as answered as it was. */
  lemma TwoTurnsKeepAnswers(msgs: seq<Message>, a: Message, u: Message, hole: int)
    requires AnsweredExcept(msgs, hole) && u.calls == [] && (a.calls != [] ==> Answers(a, u))
    ensures AnsweredExcept(msgs + [a] + [u], hole)
  {
    var out := msgs + [a] + [u];
    assert out[|msgs|] == a && out[|msgs| + 1] == u;
    forall i | 0 <= i < |out| && i != hole
      ensures AnsweredAt(out, i)
    {
      if i < |msgs| {
        assert AnsweredAt(msgs, i) && out[i] == msgs[i];
      }
    }
  }

  /** The two turns a reply adds when the run goes on. */
  lemma AssistantAddsTwoTurns(s: LoopState, r: Response, t: Turn)
    requires AfterAssistant(s, r, t).Continue?
    ensures var a, u := Message(Assistant, r.text, r.calls, []), if |r.calls| > 0 then
                Message(User, "", [], ResultsOf(r.calls, t.outcome)) else UserText(t.feedback);
            && AfterAssistant(s, r, t).state == s.(messages := s.messages + [a] + [u])
            && ((a.calls != [] || u.results != []) ==> Answers(a, u))
  {
    assert forall k :: 0 <= k < |r.calls| ==> ResultsOf(r.calls, t.outcome)[k] == ResultOf(r.calls[k], t.outcome(k));
  }

  lemma AssistantKeepsHistory(s: LoopState, r: Response, t: Turn, hole: int)
    requires AfterAssistant(s, r, t).Continue?
    ensures WellFormed(s.messages) ==> WellFormed(AfterAssistant(s, r, t).state.messages)
    ensures AnsweredExcept(s.messages, hole) ==> AnsweredExcept(AfterAssistant(s, r, t).state.messages, hole)
  {
    var a := Message(Assistant, r.text, r.calls, []);
    var u := if |r.calls| > 0 then Message(User, "", [], ResultsOf(r.calls, t.outcome)) else UserText(t.feedback);
    AssistantAddsTwoTurns(s, r, t);
    if WellFormed(s.messages) {
      TwoTurnsKeepWellFormed(s.messages, a, u);
    }
    if AnsweredExcept(s.messages, hole) {
      TwoTurnsKeepAnswers(s.messages, a, u, hole);
    }
  }

  lemma AssistantKeepsLedger(cfg: Config, s: LoopState, i: nat, r: Response, t: Turn)
    requires Ledger(cfg, s, i)
    ensures var o := AfterAssistant(s, r, t);
            && (o.Continue? ==> Ledger(cfg, o.state, i))
            && (o.Finished? ==> Accounted(o.state, if t.milestone.MilestoneReply? then i + 1 else i))
  {
    if |r.calls| == 0 && t.verified && t.milestone.MilestoneReply? {
      var a := Message(Assistant, r.text, r.calls, []);
      ChargeKeeps(s.(messages := s.messages + [a]), i, MAIN, t.milestone.reply, t.milestone.cost);
    }
  }

  /** How many replies are charged when the iteration with index `i` comes out as `o`. */
  function Replies(o: Outcome, i: nat, t: Turn): nat {
    match o
    case Errored(_) => i
    case Finished(_) => if t.milestone.MilestoneReply? then i + 2 else i + 1
    case _ => i + 1
  }

  /** An iteration that starts accounted for and under budget goes on so, or ends accounted for. */
  lemma IterationKeepsLedger(cfg: Config, s: LoopState, i: nat, t: Turn)
    requires Ledger(cfg, s, i)
    ensures var o := Iteration(cfg, s, i, t);
            && Accounted(o.state, Replies(o, i, t))
            && (o.Continue? ==> Ledger(cfg, o.state, i + 1))
  {
    if t.reply.Some? {
      var c, r := AfterCompaction(cfg, s, t), t.reply.value;
      ChargeKeeps(c, i, ClassifyTurn(i, c.last), r, t.cost);
      var charged := AfterCharge(c, ClassifyTurn(i, c.last), r, t.cost).(last := Some(r));
      NoStopIsUnderBudget(cfg, charged);
      if BudgetStop(cfg, charged).None? {
        AssistantKeepsLedger(cfg, AfterSignals(charged, t), i + 1, r, t);
      }
    }
  }

  /** With even sizes an iteration that starts with a well-formed history leaves one, unless it ends the run. */
  lemma IterationKeepsWellFormed(cfg: Config, s: LoopState, i: nat, t: Turn)
    requires WellFormed(s.messages) && EvenSizes(cfg)
    ensures var o := Iteration(cfg, s, i, t); !o.Finished? ==> WellFormed(o.state.messages)
  {
    if cfg.compactor.Some? {
      CompactKeepsWellFormed(cfg.compactor.value, s.messages, t.historySkips, t.summary);
    }
    if Iteration(cfg, s, i, t).Continue? {
      var c, r := AfterCompaction(cfg, s, t), t.reply.value;
      AssistantKeepsHistory(AfterSignals(AfterCharge(c, ClassifyTurn(i, c.last), r, t.cost).(last := Some(r)), t), r, t, -1);
    }
  }

  /** Whatever the sizes, no call but that of the last head message is ever left without its results. */
  lemma IterationKeepsAnswers(cfg: Config, s: LoopState, i: nat, t: Turn)
    requires AnsweredExcept(s.messages, Hole(cfg))
    ensures var o := Iteration(cfg, s, i, t); !o.Finished? ==> AnsweredExcept(o.state.messages, Hole(cfg))
  {
    if cfg.compactor.Some? && t.summary.Some? && !Skips(cfg.compactor.value, |s.messages|, t.historySkips) {
      CompactKeepsAnswers(cfg.compactor.value, s.messages, t.summary.value);
    }
    if Iteration(cfg, s, i, t).Continue? {
      var c, r := AfterCompaction(cfg, s, t), t.reply.value;
      AssistantKeepsHistory(AfterSignals(AfterCharge(c, ClassifyTurn(i, c.last), r, t.cost).(last := Some(r)), t), r, t, Hole(cfg));
    }
  }

  /** Whatever the sizes, an iteration that starts with a user message last leaves one, unless it ends the run. */
  lemma IterationEndsInUser(cfg: Config, s: LoopState, i: nat, t: Turn)
    requires EndsInUser(s.messages)
    ensures var o := Iteration(cfg, s, i, t); !o.Finished? ==> EndsInUser(o.state.messages)
  {
    var c := AfterCompaction(cfg, s, t);
    assert EndsInUser(c.messages);
    if Iteration(cfg, s, i, t).Continue? {
      var r := t.reply.value;
      AssistantAddsTwoTurns(AfterSignals(AfterCharge(c, ClassifyTurn(i, c.last), r, t.cost).(last := Some(r)), t), r, t);
    }
  }

  /** What an iteration's stop says of its counters: a cap reached, or the limit of unrecovered signals reached under both
      caps. */
  lemma StopReasons(cfg: Config, s: LoopState, i: nat, t: Turn)
    requires Iteration(cfg, s, i, t).Stop?
    ensures var o := Iteration(cfg, s, i, t);
            && o.reason in {BudgetTokens, BudgetCost, Stuck}
            && (o.reason == BudgetTokens <==> cfg.maxTokens > 0 && o.state.totalTokens >= EffectiveCap(cfg.maxTokens, cfg.reserve))
            && (o.reason == BudgetCost ==> cfg.maxCost > 0.0 && o.state.totalCost >= cfg.maxCost)
            && (o.reason == Stuck ==> t.stuckChecked && o.state.unrecovered == s.unrecovered + Unrecovered(t.recovered)
                                      && o.state.unrecovered >= StuckLimit(cfg) && UnderBudget(cfg, o.state))
  {
    NoStopIsUnderBudget(cfg, Iteration(cfg, s, i, t).state);
    if cfg.maxCost > 0.0 {
      CostBelow(Iteration(cfg, s, i, t).state.totalCost, cfg.maxCost);
    }
  }

  /** The iteration stops exactly when its reply takes the tokens to the cap less the reserve (or to one token, if the reserve
      leaves less), or the cost to its cap, or a check leaves three unrecovered signals or as many as configured; tokens before
      cost before signals. */
  lemma StopsExactly(cfg: Config, s: LoopState, i: nat, t: Turn)
    requires t.reply.Some?
    ensures var o, r := Iteration(cfg, s, i, t), t.reply.value;
            var cost := s.totalCost + if t.cost.Some? then t.cost.value else 0.0;
            var tokens := s.totalTokens + r.inputTokens + r.outputTokens;
            var signals := s.unrecovered + Unrecovered(t.recovered);
            var overTokens := cfg.maxTokens > 0 && (tokens >= cfg.maxTokens - cfg.reserve && tokens >= 1);
            var overCost := cfg.maxCost > 0.0 && cost >= cfg.maxCost;
            var stuck := t.stuckChecked && signals >= (if cfg.stuckThreshold <= 0 then 3 else cfg.stuckThreshold);
            && (o.Stop? <==> overTokens || overCost || stuck)
            && (o.Stop? ==> o.reason == if overTokens then BudgetTokens else if overCost then BudgetCost else Stuck)
  {
    if cfg.maxCost > 0.0 {
      CostBelow(s.totalCost + CostOf(t.cost), cfg.maxCost);
    }
  }

  /** What became of a tool call, as the next request shows it. */
  predicate Shows(result: ToolResult, call: ToolCall, outcome: CallOutcome) {
    && result.toolUseId == call.id
    && match outcome
       case Ran(content, isError) => result.content == content && result.isError == isError
       case Denied(reason) => result.content == reason && result.isError
       case UnknownTool => result.content == "unknown tool: " + call.name && result.isError
       case Failed(message) =>
         && result.isError
         && result.content == "tool error: " + if |message| <= 500 then message else message[..500] + "... (truncated)"
  }

  /** What an iteration that is not stopped writes behind the history: the reply as an assistant message, and then what became
      of every one of its calls, or, when it makes none, the verifier's feedback or nothing more, and the run is over. */
  lemma IterationWrites(cfg: Config, s: LoopState, i: nat, t: Turn)
    requires t.reply.Some? && !Iteration(cfg, s, i, t).Stop?
    ensures var o, r, n := Iteration(cfg, s, i, t), t.reply.value, |AfterCompaction(cfg, s, t).messages|;
            var msgs := o.state.messages;
            && (o.Finished? <==> r.calls == [] && t.verified)
            && (o.Continue? <==> !o.Finished?)
            && |msgs| == (if o.Finished? then n + 1 else n + 2)
            && msgs[..n] == AfterCompaction(cfg, s, t).messages
            && msgs[n] == Message(Assistant, r.text, r.calls, [])
            && (o.Continue? && r.calls == [] ==> msgs[n + 1] == Message(User, t.feedback, [], []))
            && (o.Continue? && r.calls != [] ==>
                  && msgs[n + 1].role == User && msgs[n + 1].content == "" && msgs[n + 1].calls == []
                  && |msgs[n + 1].results| == |r.calls|
                  && forall k: nat :: k < |r.calls| ==> Shows(msgs[n + 1].results[k], r.calls[k], t.outcome(k)))
  {
    if Iteration(cfg, s, i, t).Continue? && |t.reply.value.calls| > 0 {
      var results := ResultsOf(t.reply.value.calls, t.outcome);
      assert forall k: nat :: k < |results| ==> results[k] == ResultOf(t.reply.value.calls[k], t.outcome(k));
    }
  }

  /** The history an iteration works on: shortened to head, summary and tail when that is wanted, not skipped, long enough and
      the summary was made; otherwise as it was. */
  lemma CompactionWrites(cfg: Config, s: LoopState, t: Turn)
    ensures var after := AfterCompaction(cfg, s, t);
            && after == s.(messages := after.messages)
            && match cfg.compactor
               case None => after == s
               case Some(c) =>
                 var h := if c.headKeep <= 0 then 2 else c.headKeep;
                 var k := if c.tailKeep <= 0 then 6 else c.tailKeep;
                 var m := if c.minMiddle <= 0 then 8 else c.minMiddle;
                 if !t.compactWanted || t.historySkips || |s.messages| < h + k + m || t.summary.None? then after == s
                 else after.messages == s.messages[..h] + [Message(User, t.summary.value, [], [])] + s.messages[|s.messages| - k..]
  {
  }

  /** One role's usage has grown by one reply, the other roles' are as they were. */
  predicate GrownBy(before: map<string, Usage>, after: map<string, Usage>, role: string, r: Response, cost: real) {
    var u := if role in before then before[role] else Usage(0, 0, 0, 0.0);
    && role in after
    && after[role] == Usage(u.calls + 1, u.inputTokens + r.inputTokens, u.outputTokens + r.outputTokens, u.cost + cost)
    && after.Keys == before.Keys + {role}
    && forall other :: other in before && other != role ==> after[other] == before[other]
  }

  /** What one charge does. */
  predicate Charges(before: LoopState, after: LoopState, role: string, r: Response, cost: Option<real>) {
    var usd := if cost.Some? then cost.value else 0.0;
    && after.totalTokens == before.totalTokens + r.inputTokens + r.outputTokens
    && after.totalCost == before.totalCost + usd
    && GrownBy(before.byRole, after.byRole, role, r, usd)
  }

  lemma ChargeCharges(s: LoopState, role: string, r: Response, cost: Option<real>)
    ensures Charges(s, AfterCharge(s, role, r, cost), role, r, cost)
  {
  }

  /** What an iteration charges: its reply, to the totals and to the role of the turn; and the signals it counts. */
  lemma IterationCharges(cfg: Config, s: LoopState, i: nat, t: Turn)
    requires t.reply.Some? && !(Iteration(cfg, s, i, t).Finished? && t.milestone.MilestoneReply?)
    ensures var o, r := Iteration(cfg, s, i, t), t.reply.value;
            && o.state.last == Some(r) && Charges(s, o.state, ClassifyTurn(i, s.last), r, t.cost)
            && o.state.unrecovered ==
               if t.stuckChecked && !(o.Stop? && o.reason != Stuck) then s.unrecovered + Unrecovered(t.recovered) else s.unrecovered
  {
    ChargeCharges(AfterCompaction(cfg, s, t), ClassifyTurn(i, s.last), t.reply.value, t.cost);
  }

  /** A milestone reply is charged on top, to "main". */
  lemma MilestoneCharges(cfg: Config, s: LoopState, i: nat, t: Turn)
    requires Iteration(cfg, s, i, t).Finished? && t.milestone.MilestoneReply?
    ensures var plain := Iteration(cfg, s, i, t.(milestone := NoMilestone)).state;
            var now := Iteration(cfg, s, i, t).state;
            && Charges(plain, now, "main", t.milestone.reply, t.milestone.cost)
            && now.last == plain.last && now.messages == plain.messages && now.unrecovered == plain.unrecovered
  {
    var plain := Iteration(cfg, s, i, t.(milestone := NoMilestone)).state;
    ChargeCharges(plain, "main", t.milestone.reply, t.milestone.cost);
    assert Iteration(cfg, s, i, t).state == AfterCharge(plain, "main", t.milestone.reply, t.milestone.cost);
  }

  /** The signals that count are those without a recovery. */
  lemma {:induction false} UnrecoveredMeaning(recovered: seq<bool>)
    ensures Unrecovered(recovered) == |set k: nat | k < |recovered| && !recovered[k]|
  {
    if |recovered| > 0 {
      var init, last := recovered[..|recovered| - 1], |recovered| - 1;
      UnrecoveredMeaning(init);
      var before, all := set k: nat | k < |init| && !init[k], set k: nat | k < |recovered| && !recovered[k];
      assert all == before + if recovered[last] then {} else {last};
    }
  }

  /** A token stop ends below the full cap exactly when the last response is smaller than what was left of the cap; so it does
      whenever the reserve is under the cap and the last response is no larger than the reserve. */
  lemma TokenStopLeavesRoom(cfg: Config, s: LoopState, i: nat, t: Turn)
    requires UnderBudget(cfg, s) && cfg.maxTokens > 0
    requires Iteration(cfg, s, i, t).Stop? && Iteration(cfg, s, i, t).reason == BudgetTokens
    ensures var total := Iteration(cfg, s, i, t).state.totalTokens;
            && (total < cfg.maxTokens <==> Tokens(t.reply.value) < cfg.maxTokens - s.totalTokens)
            && (cfg.reserve < cfg.maxTokens && Tokens(t.reply.value) <= cfg.reserve ==> total < cfg.maxTokens)
  {
  }
}
