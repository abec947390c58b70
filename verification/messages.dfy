/** The chat state both chat hooks keep — the visible messages, the
    loading flag and the current conversation — and the list updates they
    share: append, rewrite the message with a given id, drop it. */
module Messages {
  import opened Wrappers
  import opened Text
  import Seqs

  datatype Role = User | Assistant

  /** A visible chat message; `isStreaming` is `None` when the field is absent. */
  datatype Message = Message(id: string, role: Role, content: string, isStreaming: Option<bool>)

  /** What is sent upstream for one message: `{ role, content }`. */
  datatype Turn = Turn(role: Role, content: string)

  /** A stored message row as the backend returns it. */
  datatype MessageRecord = MessageRecord(id: string, conversationId: string, role: Role, content: string, createdAt: string)

  /** The hook state `(messages, isLoading, conversationId)`; `None` is `null`. */
  datatype ChatState = ChatState(messages: seq<Message>, isLoading: bool, conversationId: Option<string>)

  /** The state a hook starts in. */
  function Initial(): ChatState {
    ChatState([], false, None)
  }

  /** The submit guard `!content.trim() || isLoading`, negated: a send goes ahead. */
  predicate CanSubmit(s: ChatState, content: string) {
    Trim(content) != "" && !s.isLoading
  }

  /** No message in `ms` carries `id`. */
  predicate FreshId(ms: seq<Message>, id: string) {
    forall i :: 0 <= i < |ms| ==> ms[i].id != id
  }

  function UserMessage(id: string, content: string): Message {
    Message(id, User, content, None)
  }

  /** The empty assistant message a send shows while the reply is pending. */
  function Placeholder(id: string): Message {
    Message(id, Assistant, "", Some(true))
  }

  /** `[...messages, userMessage].map(m => ({ role: m.role, content: m.content }))`. */
  function History(ms: seq<Message>): (h: seq<Turn>)
    ensures |h| == |ms|
    ensures forall i :: 0 <= i < |ms| ==> h[i].role == ms[i].role && h[i].content == ms[i].content
  {
    Seqs.Map(ms, (m: Message) => Turn(m.role, m.content))
  }

  /** `prev.map(m => m.id === id ? upd(m) : m)`. */
  function UpdateWhere(ms: seq<Message>, id: string, upd: Message -> Message): (r: seq<Message>)
    ensures |r| == |ms|
    ensures forall i :: 0 <= i < |ms| && ms[i].id != id ==> r[i] == ms[i]
    ensures forall i :: 0 <= i < |ms| && ms[i].id == id ==> r[i] == upd(ms[i])
  {
    Seqs.Map(ms, (m: Message) => if m.id == id then upd(m) else m)
  }

  /** `prev.filter(m => m.id !== id)`. */
  function RemoveById(ms: seq<Message>, id: string): (r: seq<Message>)
    ensures FreshId(r, id)
    ensures forall m :: m in r <==> m in ms && m.id != id
  {
    var r := Seqs.Filter(ms, (m: Message) => m.id != id);
    assert forall i :: 0 <= i < |r| ==> r[i] in r;
    r
  }

  /** Rewriting the message with a fresh id appended last touches that message only. */
  lemma UpdateLast(ms: seq<Message>, m: Message, upd: Message -> Message)
    requires FreshId(ms, m.id)
    ensures UpdateWhere(ms + [m], m.id, upd) == ms + [upd(m)]
  {
    var r := UpdateWhere(ms + [m], m.id, upd);
    assert forall i :: 0 <= i < |ms| ==> (ms + [m])[i] == ms[i];
    assert r[|ms|] == upd(m);
  }

  /** Removing a fresh id appended last gives back exactly what was there before. */
  lemma RemoveLast(ms: seq<Message>, m: Message)
    requires FreshId(ms, m.id)
    ensures RemoveById(ms + [m], m.id) == ms
  {
    var p := (x: Message) => x.id != m.id;
    Seqs.FilterAppend(ms, [m], p);
    Seqs.FilterAll(ms, p);
    assert Seqs.Filter([m], p) == [];
  }

  /** Submitting: `isLoading` is set, then the user message (content as typed,
      not trimmed) and an empty streaming placeholder are appended, in that order. */
  function Submit(s: ChatState, content: string, userId: string, assistantId: string): (r: ChatState)
    ensures r.isLoading && r.conversationId == s.conversationId
    ensures |r.messages| == |s.messages| + 2 && r.messages[..|s.messages|] == s.messages
    ensures r.messages[|s.messages|] == Message(userId, User, content, None)
    ensures r.messages[|s.messages| + 1] == Message(assistantId, Assistant, "", Some(true))
  {
    var ms := s.messages + [UserMessage(userId, content)] + [Placeholder(assistantId)];
    assert ms[..|s.messages|] == s.messages;
    s.(isLoading := true, messages := ms)
  }

  /** After a submit whose placeholder id is fresh, rewriting the placeholder
      leaves the earlier messages and the user message as they were. */
  lemma SubmitThenUpdate(s: ChatState, content: string, userId: string, assistantId: string, upd: Message -> Message)
    requires FreshId(s.messages, assistantId) && userId != assistantId
    ensures UpdateWhere(Submit(s, content, userId, assistantId).messages, assistantId, upd)
         == s.messages + [UserMessage(userId, content), upd(Placeholder(assistantId))]
  {
    var pre := s.messages + [UserMessage(userId, content)];
    assert Submit(s, content, userId, assistantId).messages == pre + [Placeholder(assistantId)];
    UpdateLast(pre, Placeholder(assistantId), upd);
  }

  /** After a submit whose placeholder id is fresh, dropping the placeholder
      leaves the earlier messages followed by the user message. */
  lemma SubmitThenRemove(s: ChatState, content: string, userId: string, assistantId: string)
    requires FreshId(s.messages, assistantId) && userId != assistantId
    ensures RemoveById(Submit(s, content, userId, assistantId).messages, assistantId)
         == s.messages + [UserMessage(userId, content)]
  {
    var pre := s.messages + [UserMessage(userId, content)];
    assert Submit(s, content, userId, assistantId).messages == pre + [Placeholder(assistantId)];
    RemoveLast(pre, Placeholder(assistantId));
  }

  /** `{ id: m.id, role: m.role, content: m.content }`: a stored row as a visible message. */
  function FromRecord(rec: MessageRecord): Message {
    Message(rec.id, rec.role, rec.content, None)
  }

  /** What fetching a conversation's messages gives back: a failure, or the
      data, which may be `null`. */
  datatype Fetched = FetchFailed | Fetched(data: Option<seq<MessageRecord>>)

  /** `loadMessages(convId)`: on success the rows become the visible messages,
      in order and without a streaming flag (`null` data reads as no rows),
      and `convId` becomes current; on failure nothing changes. */
  function LoadMessages(s: ChatState, convId: string, fetched: Fetched): (r: ChatState)
    ensures fetched.FetchFailed? ==> r == s
    ensures fetched.Fetched? ==> r.conversationId == Some(convId) && r.isLoading == s.isLoading
    ensures fetched.Fetched? ==> |r.messages| == |fetched.data.GetOr([])|
    ensures fetched.Fetched? ==> forall i :: 0 <= i < |r.messages| ==>
      var rec := fetched.data.GetOr([])[i];
      r.messages[i].id == rec.id && r.messages[i].role == rec.role
      && r.messages[i].content == rec.content && r.messages[i].isStreaming.None?
  {
    match fetched
    case FetchFailed => s
    case Fetched(data) =>
      s.(messages := Seqs.Map(data.GetOr([]), FromRecord), conversationId := Some(convId))
  }

  /** What a send after loading a conversation sends upstream is exactly the stored turns. */
  lemma LoadedHistory(s: ChatState, convId: string, records: seq<MessageRecord>)
    ensures History(LoadMessages(s, convId, Fetched(Some(records))).messages)
         == Seqs.Map(records, (rec: MessageRecord) => Turn(rec.role, rec.content))
  {
  }

  /** `startNewChat`: no messages and no current conversation. */
  function StartNewChat(s: ChatState): (r: ChatState)
    ensures r.messages == [] && r.conversationId.None? && r.isLoading == s.isLoading
  {
    s.(messages := [], conversationId := None)
  }

  /** Outside a request, a new chat is the state the hook starts in, whatever came before. */
  lemma NewChatIsInitial(s: ChatState)
    requires !s.isLoading
    ensures StartNewChat(s) == Initial()
  {
  }
}
