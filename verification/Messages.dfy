/** Conversation messages and what the run keeps true of them. */
module Messages {

  datatype Role = User | Assistant

  datatype ToolCall = ToolCall(id: string, name: string, input: string)

  datatype ToolResult = ToolResult(toolUseId: string, content: string, isError: bool)

  datatype Message = Message(role: Role, content: string, calls: seq<ToolCall>, results: seq<ToolResult>)

  function UserText(content: string): Message {
    Message(User, content, [], [])
  }

  function RoleAt(i: int): Role {
    if i % 2 == 0 then User else Assistant
  }

  /** User first, then in turns. */
  predicate Alternates(msgs: seq<Message>) {
    forall i :: 0 <= i < |msgs| ==> msgs[i].role == RoleAt(i)
  }

  /** One result for each call, in order, under the call's id. */
  predicate Answers(call: Message, answer: Message) {
    && call.role == Assistant && |answer.results| == |call.calls|
    && forall k :: 0 <= k < |call.calls| ==> answer.results[k].toolUseId == call.calls[k].id
  }

  /** Every message with tool results directly follows the assistant message whose calls they answer. */
  predicate NoOrphanResult(msgs: seq<Message>) {
    forall i :: 0 <= i < |msgs| && msgs[i].results != [] ==> i > 0 && Answers(msgs[i - 1], msgs[i])
  }

  predicate EndsInUser(msgs: seq<Message>) {
    |msgs| > 0 && msgs[|msgs| - 1].role == User
  }

  /** What holds of the history at the top of every iteration. */
  predicate WellFormed(msgs: seq<Message>) {
    |msgs| % 2 == 1 && Alternates(msgs) && NoOrphanResult(msgs)
  }

  /** The calls of message `i`, if it makes any, are answered by the next message. */
  predicate AnsweredAt(msgs: seq<Message>, i: int)
    requires 0 <= i < |msgs|
  {
    msgs[i].calls != [] ==> i + 1 < |msgs| && Answers(msgs[i], msgs[i + 1])
  }

  /** Every message with tool calls is directly followed by their results, the one at `hole` perhaps excepted. */
  predicate AnsweredExcept(msgs: seq<Message>, hole: int) {
    forall i :: 0 <= i < |msgs| && i != hole ==> AnsweredAt(msgs, i)
  }

  predicate EveryCallAnswered(msgs: seq<Message>) {
    forall i :: 0 <= i < |msgs| ==> AnsweredAt(msgs, i)
  }
}
