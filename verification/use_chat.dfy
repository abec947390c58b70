/** The `useChat` hook: sending a message against a stored conversation,
    following the stream's callbacks into a placeholder message, and deleting
    or renaming conversations. Each handler is one atomic transition; what it
    asks of the backend is returned as a list of effects, and the backend's
    answers (created id, delete outcomes, stream callbacks) are parameters. */
module UseChat {
  import opened Wrappers
  import opened Text
  import opened Messages
  import StreamChat
  import SsePayload
  import Seqs

  /** A request made to the backend, in the order made. */
  datatype Effect =
    | CreateConversation(title: string)
    | SaveMessage(conversation: string, role: Role, content: string)
    | OpenStream(history: seq<Turn>)
    | DeleteMessagesOf(conversation: string)
    | DeleteConversationRow(conversation: string)
    | RenameConversationRow(conversation: string, title: string)
    | ReloadConversations

  const TitleLength := 50
  const Ellipsis := "..."

  /** The title of a new conversation: the first 50 characters of its first
      message, with `...` appended exactly when something was cut off. */
  function Title(first: string): (t: string)
    ensures |t| <= TitleLength + |Ellipsis|
    ensures |first| <= TitleLength ==> t == first
    ensures |t| <= TitleLength <==> |first| <= TitleLength
    ensures |first| > TitleLength ==>
      |t| == TitleLength + |Ellipsis| && t[..TitleLength] == first[..TitleLength] && t[TitleLength..] == Ellipsis
  {
    if |first| > TitleLength then first[..TitleLength] + Ellipsis else first
  }

  /** A send that got as far as the stream: the state, the effects so far,
      the conversation and placeholder it writes to, and `fullResponse`. */
  datatype Run = Run(state: ChatState, effects: seq<Effect>, conversation: string, assistantId: string, fullResponse: string)

  /** `onDelta`: the delta is added to the reply so far, and the placeholder
      shows the whole reply so far. */
  function OnDelta(r: Run, delta: string): (q: Run)
    ensures q.fullResponse == r.fullResponse + delta
    ensures q.state.messages == UpdateWhere(r.state.messages, r.assistantId, (m: Message) => m.(content := q.fullResponse))
    ensures q.effects == r.effects && q.state.isLoading == r.state.isLoading
  {
    var full := r.fullResponse + delta;
    r.(fullResponse := full,
       state := r.state.(messages := UpdateWhere(r.state.messages, r.assistantId, (m: Message) => m.(content := full))))
  }

  /** `onDone`: the placeholder stops streaming, a non-empty reply is saved,
      and loading ends. */
  function OnDone(r: Run): (q: Run)
    ensures q.state.messages == UpdateWhere(r.state.messages, r.assistantId, (m: Message) => m.(isStreaming := Some(false)))
    ensures !q.state.isLoading
    ensures q.effects == r.effects + (if r.fullResponse != "" && r.conversation != "" then [SaveMessage(r.conversation, Assistant, r.fullResponse)] else [])
  {
    var saved := if r.fullResponse != "" && r.conversation != "" then [SaveMessage(r.conversation, Assistant, r.fullResponse)] else [];
    r.(effects := r.effects + saved,
       state := r.state.(messages := UpdateWhere(r.state.messages, r.assistantId, (m: Message) => m.(isStreaming := Some(false))),
                         isLoading := false))
  }

  /** `onError`: the placeholder is removed and loading ends. */
  function OnError(r: Run): (q: Run)
    ensures q.state.messages == RemoveById(r.state.messages, r.assistantId)
    ensures !q.state.isLoading && q.effects == r.effects
  {
    r.(state := r.state.(messages := RemoveById(r.state.messages, r.assistantId), isLoading := false))
  }

  /** The callbacks of one stream, applied in order. */
  function Follow(r: Run, events: seq<StreamChat.Event>): Run
    decreases |events|
  {
    if |events| == 0 then r
    else
      var q := match events[0]
        case Delta(d) => OnDelta(r, d)
        case Done => OnDone(r)
        case Error(_) => OnError(r);
      Follow(q, events[1..])
  }

  lemma {:induction false} FollowAppend(r: Run, e1: seq<StreamChat.Event>, e2: seq<StreamChat.Event>)
    ensures Follow(r, e1 + e2) == Follow(Follow(r, e1), e2)
    decreases |e1|
  {
    if |e1| > 0 {
      assert (e1 + e2)[0] == e1[0];
      assert (e1 + e2)[1..] == e1[1..] + e2;
      var q := match e1[0]
        case Delta(d) => OnDelta(r, d)
        case Done => OnDone(r)
        case Error(_) => OnError(r);
      FollowAppend(q, e1[1..], e2);
    } else {
      assert e1 + e2 == e2;
    }
  }

  /** Delta reconciliation: after any run of deltas, the placeholder (last,
      with a fresh id) shows the concatenation of all deltas so far and every
      other message is as it was. */
  lemma {:induction false} FollowDeltas(r: Run, pre: seq<Message>, p: Message, ds: seq<string>)
    requires FreshId(pre, r.assistantId) && p.id == r.assistantId
    requires r.state.messages == pre + [p] && p.content == r.fullResponse
    ensures Follow(r, StreamChat.DeltaEvents(ds)).fullResponse == r.fullResponse + Seqs.Concat(ds)
    ensures Follow(r, StreamChat.DeltaEvents(ds)).state.messages == pre + [p.(content := r.fullResponse + Seqs.Concat(ds))]
    ensures Follow(r, StreamChat.DeltaEvents(ds)).state.isLoading == r.state.isLoading
    ensures Follow(r, StreamChat.DeltaEvents(ds)).effects == r.effects
    ensures Follow(r, StreamChat.DeltaEvents(ds)).assistantId == r.assistantId
    ensures Follow(r, StreamChat.DeltaEvents(ds)).conversation == r.conversation
    decreases |ds|
  {
    var es := StreamChat.DeltaEvents(ds);
    if |ds| == 0 {
      assert r.fullResponse + Seqs.Concat(ds) == r.fullResponse;
      assert p.(content := r.fullResponse) == p;
    } else {
      assert es[0] == StreamChat.Delta(ds[0]);
      assert es[1..] == StreamChat.DeltaEvents(ds[1..]);
      var q := OnDelta(r, ds[0]);
      assert Follow(r, es) == Follow(q, es[1..]);
      UpdateLast(pre, p, (m: Message) => m.(content := q.fullResponse));
      var p1 := p.(content := q.fullResponse);
      assert q.state.messages == pre + [p1];
      FollowDeltas(q, pre, p1, ds[1..]);
      AppendAssoc(r.fullResponse, ds[0], Seqs.Concat(ds[1..]));
      assert p1.(content := q.fullResponse + Seqs.Concat(ds[1..])) == p.(content := r.fullResponse + Seqs.Concat(ds));
    }
  }

  /** How far `sendMessage` got before the stream. */
  datatype Started = Ignored | NoConversation(state: ChatState, effects: seq<Effect>) | Streaming(run: Run)

  /** Getting or creating the conversation: with none yet, a row titled
      after the message is inserted, and the id it returns (if any) becomes
      the conversation and the list reloads. */
  function GetOrCreate(s: ChatState, content: string, created: Option<string>): (r: (ChatState, seq<Effect>))
    ensures r.0.messages == s.messages && r.0.isLoading == s.isLoading
    ensures IsSet(s.conversationId) ==> r == (s, [])
    ensures !IsSet(s.conversationId) ==> |r.1| >= 1 && r.1[0] == CreateConversation(Title(content))
    ensures !IsSet(s.conversationId) ==> (ReloadConversations in r.1 <==> created.Some?)
    ensures forall e :: e in r.1 ==> e.CreateConversation? || e.ReloadConversations?
    ensures IsSet(r.0.conversationId) <==> IsSet(s.conversationId) || IsSet(created)
    ensures IsSet(r.0.conversationId) ==>
      r.0.conversationId.value == if IsSet(s.conversationId) then s.conversationId.value else created.value
  {
    if IsSet(s.conversationId) then (s, [])
    else
      var c := [CreateConversation(Title(content))];
      if created.None? then (s, c)
      else (s.(conversationId := created), c + [ReloadConversations])
  }

  /** `sendMessage(content)` up to the stream request: the guard, getting or
      creating the conversation (`created` is what the insert returned), the
      user message with its save, and the placeholder. */
  function Start(s: ChatState, content: string, created: Option<string>, userId: string, assistantId: string): (r: Started)
    ensures !CanSubmit(s, content) <==> r.Ignored?
    ensures r.NoConversation? <==> CanSubmit(s, content) && !IsSet(s.conversationId) && !IsSet(created)
    ensures r.NoConversation? ==>
      r.state.messages == s.messages && !r.state.isLoading && |r.effects| >= 1 && r.effects[0] == CreateConversation(Title(content)) && forall e :: e in r.effects ==> !e.OpenStream?
    ensures r.Streaming? ==>
      && r.run.state.messages == s.messages + [UserMessage(userId, content), Placeholder(assistantId)]
      && r.run.state.isLoading && r.run.fullResponse == "" && r.run.assistantId == assistantId
      && r.run.conversation == (if IsSet(s.conversationId) then s.conversationId.value else created.value)
      && r.run.conversation != ""
      && OpenStream(History(s.messages + [UserMessage(userId, content)])) in r.run.effects
      && forall e :: e in r.run.effects ==> !(e.SaveMessage? && e.role == Assistant)
  {
    if !CanSubmit(s, content) then Ignored
    else
      var (s2, created_effects) := GetOrCreate(s.(isLoading := true), content, created);
      if !IsSet(s2.conversationId) then NoConversation(s2.(isLoading := false), created_effects)
      else
        var conv := s2.conversationId.value;
        var user := UserMessage(userId, content);
        var state := Submit(s2, content, userId, assistantId);
        var effects := created_effects + [SaveMessage(conv, User, content), OpenStream(History(s.messages + [user]))];
        assert state.messages == s.messages + [UserMessage(userId, content), Placeholder(assistantId)];
        Streaming(Run(state, effects, conv, assistantId, ""))
  }

  /** The effects and final state of one `sendMessage`, the stream's callbacks given. */
  datatype Sent = Sent(state: ChatState, effects: seq<Effect>)

  function SendMessage(s: ChatState, content: string, created: Option<string>, userId: string, assistantId: string,
                       events: seq<StreamChat.Event>): (r: Sent)
    ensures !CanSubmit(s, content) ==> r == Sent(s, [])
    ensures CanSubmit(s, content) && !IsSet(s.conversationId) && !IsSet(created) ==>
      r.state.messages == s.messages && !r.state.isLoading && forall e :: e in r.effects ==> !e.OpenStream?
  {
    match Start(s, content, created, userId, assistantId)
    case Ignored => Sent(s, [])
    case NoConversation(state, effects) => Sent(state, effects)
    case Streaming(run) =>
      var q := Follow(run, events);
      Sent(q.state, q.effects)
  }

  /** The conversation a send writes to: the current one, or the one it created. */
  function Target(s: ChatState, created: Option<string>): string
    requires IsSet(s.conversationId) || IsSet(created)
  {
    if IsSet(s.conversationId) then s.conversationId.value else created.value
  }

  /** A stream that delivers `ds` and then `onDone` leaves the earlier
      messages, the user message, and the placeholder holding the whole
      reply, no longer streaming; the reply is saved exactly when non-empty,
      and loading has ended. */
  lemma SendDelivers(s: ChatState, content: string, created: Option<string>, userId: string, assistantId: string, ds: seq<string>)
    requires CanSubmit(s, content) && FreshId(s.messages, assistantId) && userId != assistantId
    requires IsSet(s.conversationId) || IsSet(created)
    ensures var r := SendMessage(s, content, created, userId, assistantId, StreamChat.DeltaEvents(ds) + [StreamChat.Done]);
      && r.state.messages == s.messages + [UserMessage(userId, content), Message(assistantId, Assistant, Seqs.Concat(ds), Some(false))]
      && !r.state.isLoading
      && (SaveMessage(Target(s, created), Assistant, Seqs.Concat(ds)) in r.effects <==> Seqs.Concat(ds) != "")
      && OpenStream(History(s.messages + [UserMessage(userId, content)])) in r.effects
  {
    var run := Start(s, content, created, userId, assistantId).run;
    var pre := s.messages + [UserMessage(userId, content)];
    assert run.state.messages == pre + [Placeholder(assistantId)];
    FollowDeltas(run, pre, Placeholder(assistantId), ds);
    FollowAppend(run, StreamChat.DeltaEvents(ds), [StreamChat.Done]);
    var q := Follow(run, StreamChat.DeltaEvents(ds));
    assert "" + Seqs.Concat(ds) == Seqs.Concat(ds);
    var p1 := Placeholder(assistantId).(content := Seqs.Concat(ds));
    assert Follow(q, [StreamChat.Done]) == OnDone(q);
    UpdateLast(pre, p1, (m: Message) => m.(isStreaming := Some(false)));
    assert pre + [p1.(isStreaming := Some(false))]
        == s.messages + [UserMessage(userId, content), Message(assistantId, Assistant, Seqs.Concat(ds), Some(false))];
  }

  /** A stream that delivers `ds` and then `onError` removes exactly the
      placeholder, keeps the user message, saves no reply, and ends loading. */
  lemma SendFails(s: ChatState, content: string, created: Option<string>, userId: string, assistantId: string, ds: seq<string>, message: string)
    requires CanSubmit(s, content) && FreshId(s.messages, assistantId) && userId != assistantId
    requires IsSet(s.conversationId) || IsSet(created)
    ensures var r := SendMessage(s, content, created, userId, assistantId, StreamChat.DeltaEvents(ds) + [StreamChat.Error(message)]);
      && r.state.messages == s.messages + [UserMessage(userId, content)]
      && !r.state.isLoading
      && forall e :: e in r.effects ==> !(e.SaveMessage? && e.role == Assistant)
  {
    var run := Start(s, content, created, userId, assistantId).run;
    var pre := s.messages + [UserMessage(userId, content)];
    assert run.state.messages == pre + [Placeholder(assistantId)];
    FollowDeltas(run, pre, Placeholder(assistantId), ds);
    FollowAppend(run, StreamChat.DeltaEvents(ds), [StreamChat.Error(message)]);
    var q := Follow(run, StreamChat.DeltaEvents(ds));
    assert Follow(q, [StreamChat.Error(message)]) == OnError(q);
    RemoveLast(pre, Placeholder(assistantId).(content := q.fullResponse));
  }

  /** The callbacks `streamChat` makes are some deltas and then one terminal callback. */
  lemma SessionShape(resp: StreamChat.Response, parse: SsePayload.Parser)
    ensures var events := StreamChat.Session(resp, parse);
      var ds := seq(|events| - 1, i requires 0 <= i < |events| - 1 => events[i].text);
      events == StreamChat.DeltaEvents(ds) + [events[|events| - 1]]
  {
    var events := StreamChat.Session(resp, parse);
    var ds := seq(|events| - 1, i requires 0 <= i < |events| - 1 => events[i].text);
    assert events == events[..|events| - 1] + [events[|events| - 1]];
    assert events[..|events| - 1] == StreamChat.DeltaEvents(ds);
  }

  /** A run of callbacks that ends in `onDone` or `onError` leaves loading off. */
  lemma FollowSettles(r: Run, events: seq<StreamChat.Event>)
    requires |events| >= 1 && !events[|events| - 1].Delta?
    ensures !Follow(r, events).state.isLoading
  {
    var init, last := events[..|events| - 1], events[|events| - 1];
    assert events == init + [last];
    FollowAppend(r, init, [last]);
    var q := Follow(r, init);
    assert Follow(q, [last]) == if last.Done? then OnDone(q) else OnError(q);
  }

  /** Whatever the response, a send that reached the stream ends with
      loading switched off, since `streamChat` ends in exactly one of
      `onDone` and `onError`. */
  lemma SendSettles(s: ChatState, content: string, created: Option<string>, userId: string, assistantId: string,
                    resp: StreamChat.Response, parse: SsePayload.Parser)
    requires CanSubmit(s, content)
    ensures !SendMessage(s, content, created, userId, assistantId, StreamChat.Session(resp, parse)).state.isLoading
  {
    var st := Start(s, content, created, userId, assistantId);
    if st.Streaming? {
      FollowSettles(st.run, StreamChat.Session(resp, parse));
    }
  }

  /** `deleteConversation(convId)`: the outcome, the state after, the effects made. */
  datatype Deleted = Deleted(ok: bool, state: ChatState, effects: seq<Effect>)

  /** Messages are deleted before the conversation row; a failed message
      delete skips the row delete; success needs both; the view is cleared
      only when the deleted conversation is the current one. */
  function DeleteConversation(s: ChatState, convId: string, messagesDeleted: bool, rowDeleted: bool): (r: Deleted)
    ensures r.ok <==> messagesDeleted && rowDeleted
    ensures |r.effects| >= 1 && r.effects[0] == DeleteMessagesOf(convId)
    ensures DeleteConversationRow(convId) in r.effects <==> messagesDeleted
    ensures r.state == (if r.ok && s.conversationId == Some(convId) then StartNewChat(s) else s)
  {
    if !messagesDeleted then Deleted(false, s, [DeleteMessagesOf(convId)])
    else if !rowDeleted then Deleted(false, s, [DeleteMessagesOf(convId), DeleteConversationRow(convId)])
    else
      var state := if s.conversationId == Some(convId) then StartNewChat(s) else s;
      Deleted(true, state, [DeleteMessagesOf(convId), DeleteConversationRow(convId), ReloadConversations])
  }

  /** `renameConversation(convId, newTitle)`: the outcome and the effects;
      the chat state is not touched. */
  function RenameConversation(convId: string, newTitle: string, updated: bool): (r: (bool, seq<Effect>))
    ensures r.0 == updated
    ensures |r.1| >= 1 && r.1[0] == RenameConversationRow(convId, newTitle)
    ensures ReloadConversations in r.1 <==> updated
  {
    (updated, [RenameConversationRow(convId, newTitle)] + (if updated then [ReloadConversations] else []))
  }
}
