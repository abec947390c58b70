/** The `useChatPython` hook: the same chat state as `useChat`, but one
    request per send that answers with the whole reply, and delete and rename
    handlers that are stubs. The backend's answer is a parameter. */
module UseChatPython {
  import opened Wrappers
  import opened Text
  import opened Messages

  /** A request made to the backend, in the order made. */
  datatype Effect =
    | SendChat(history: seq<Turn>, conversationId: Option<string>)
    | ReloadConversations

  /** What the chat request answers: the reply and maybe a conversation id. */
  datatype Reply = Reply(reply: string, conversationId: Option<string>)

  /** The effects and final state of one `sendMessage`. */
  datatype Sent = Sent(state: ChatState, effects: seq<Effect>)

  /** The rest of a send once the request has answered (`Some`) or thrown
      (`None`), from the state after the submit. */
  function Complete(submitted: ChatState, before: Option<string>, assistantId: string, answer: Option<Reply>): (r: Sent)
    ensures !r.state.isLoading
    ensures answer.None? ==>
      r.state.messages == RemoveById(submitted.messages, assistantId) && r.state.conversationId == submitted.conversationId && r.effects == []
    ensures answer.Some? ==>
      r.state.messages == UpdateWhere(submitted.messages, assistantId,
                                      (m: Message) => m.(content := answer.value.reply, isStreaming := Some(false)))
    ensures answer.Some? && !IsSet(before) && IsSet(answer.value.conversationId) ==>
      r.state.conversationId == answer.value.conversationId && r.effects == [ReloadConversations]
    ensures answer.Some? && (IsSet(before) || !IsSet(answer.value.conversationId)) ==>
      r.state.conversationId == submitted.conversationId && r.effects == []
  {
    match answer
    case None =>
      Sent(submitted.(messages := RemoveById(submitted.messages, assistantId), isLoading := false), [])
    case Some(resp) =>
      var adopt := !IsSet(before) && IsSet(resp.conversationId);
      var conv := if adopt then resp.conversationId else submitted.conversationId;
      var ms := UpdateWhere(submitted.messages, assistantId,
                            (m: Message) => m.(content := resp.reply, isStreaming := Some(false)));
      Sent(submitted.(messages := ms, conversationId := conv, isLoading := false),
           if adopt then [ReloadConversations] else [])
  }

  /** `sendMessage(content)`: the guard, the submit, the request with the
      previous messages plus the user message, then the answer. */
  function SendMessage(s: ChatState, content: string, userId: string, assistantId: string, answer: Option<Reply>): (r: Sent)
    ensures !CanSubmit(s, content) ==> r == Sent(s, [])
    ensures CanSubmit(s, content) ==>
      |r.effects| >= 1 && r.effects[0] == SendChat(History(s.messages + [UserMessage(userId, content)]), s.conversationId)
      && !r.state.isLoading
  {
    if !CanSubmit(s, content) then Sent(s, [])
    else
      var submitted := Submit(s, content, userId, assistantId);
      var request := SendChat(History(s.messages + [UserMessage(userId, content)]), s.conversationId);
      var done := Complete(submitted, s.conversationId, assistantId, answer);
      Sent(done.state, [request] + done.effects)
  }

  /** A successful send leaves the earlier messages, the user message, and
      the placeholder now holding the reply, no longer streaming. */
  lemma SendReplies(s: ChatState, content: string, userId: string, assistantId: string, reply: Reply)
    requires CanSubmit(s, content) && FreshId(s.messages, assistantId) && userId != assistantId
    ensures SendMessage(s, content, userId, assistantId, Some(reply)).state.messages
         == s.messages + [UserMessage(userId, content), Message(assistantId, Assistant, reply.reply, Some(false))]
  {
    SubmitThenUpdate(s, content, userId, assistantId, (m: Message) => m.(content := reply.reply, isStreaming := Some(false)));
  }

  /** A failed send removes exactly the placeholder and keeps the user message. */
  lemma SendFails(s: ChatState, content: string, userId: string, assistantId: string)
    requires CanSubmit(s, content) && FreshId(s.messages, assistantId) && userId != assistantId
    ensures SendMessage(s, content, userId, assistantId, None).state.messages
         == s.messages + [UserMessage(userId, content)]
    ensures SendMessage(s, content, userId, assistantId, None).state.conversationId == s.conversationId
  {
    SubmitThenRemove(s, content, userId, assistantId);
  }

  /** The current conversation changes only when there was none and the
      answer names one; an existing one is never replaced. */
  lemma ConversationAdopted(s: ChatState, content: string, userId: string, assistantId: string, answer: Option<Reply>)
    requires CanSubmit(s, content)
    ensures var c := SendMessage(s, content, userId, assistantId, answer).state.conversationId;
      c != s.conversationId ==>
        !IsSet(s.conversationId) && answer.Some? && IsSet(answer.value.conversationId) && c == answer.value.conversationId
  {
  }

  /** The outcome of a stub handler and the state after it. */
  datatype Stubbed = Stubbed(ok: bool, state: ChatState)

  /** `deleteConversation`: no endpoint; always reports failure and changes nothing. */
  function DeleteConversation(s: ChatState, convId: string): (r: Stubbed)
    ensures !r.ok && r.state == s
  {
    Stubbed(false, s)
  }

  /** `renameConversation`: no endpoint; always reports failure and changes nothing. */
  function RenameConversation(s: ChatState, convId: string, newTitle: string): (r: Stubbed)
    ensures !r.ok && r.state == s
  {
    Stubbed(false, s)
  }
}
