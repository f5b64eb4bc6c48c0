/** The first exchange of a new conversation, from the dashboard's POST through
    the chat page's initial run to the PUT that records the answer. */
module Conversation {
  import opened ChatTypes
  import opened StoreSpec
  import opened Backend
  import opened NewPrompt

  /** The chat page's view of a successfully read chat. */
  function ViewOf(t: Tables, id: ChatId, u: UserId): ChatView
  {
    var r := Read(t, id, u);
    ChatView(id, if r.Ok? then Some(r.value.history) else None)
  }

  /** What `generateFromServer` yields for a payload (client/src/lib/gemini.js:15-21): the
      guard's 400 makes it throw; otherwise it returns the backend's text. */
  function ServerReply(payload: Option<GenerateBody>, backendText: Option<string>): Reply
  {
    if payload.Some? && Generate(payload.value).Ok? then Returned(backendText) else Threw
  }

  /** One call of `add` against the backend, with the corrected PUT body. */
  function Exchange(view: ChatView, text: string, isInitial: bool, aiData: map<string, string>,
                    filePath: Option<string>, backendText: Option<string>): (Option<GenerateBody>, Option<PutCall>)
  {
    AddRequests(view, text, isInitial, aiData, filePath, ServerReply(Payload(text, aiData, view.history), backendText))
  }

  /** The same call as the code is written. */
  function ExchangeAsWritten(view: ChatView, text: string, isInitial: bool, aiData: map<string, string>,
                             filePath: Option<string>, backendText: Option<string>): (Option<GenerateBody>, Option<PutCall>)
  {
    AddRequestsAsWritten(view, text, isInitial, aiData, filePath, ServerReply(Payload(text, aiData, view.history), backendText))
  }

  /** The tables after the PUT, if one was sent. */
  function AfterPut(t: Tables, u: UserId, put: Option<PutCall>): Tables
  {
    if put.None? then t
    else Append(t, put.value.chatId, u, put.value.body.question, put.value.body.answer, put.value.body.img).0
  }

  /** A freshly created chat is read back as its one user turn. */
  lemma NewChatView(t: Tables, u: UserId, text: string, id: ChatId)
    requires u != ""
    ensures var t1 := Create(t, Some(u), text, id).0;
      && t1.chats[id] == ChatDoc(u, [Turn(User, [Part(text)], None)])
      && Read(t1, id, u) == Ok(t1.chats[id])
      && ViewOf(t1, id, u) == ChatView(id, Some([Turn(User, [Part(text)], None)]))
  {
    var t1 := Create(t, Some(u), text, id).0;
    assert t1.chats[id] == ChatDoc(u, [UserTurn(text, None)]);
  }

  /** The initial run on a one-turn chat, with the intended PUT body, appends
      the answer alone. */
  lemma InitialRunAppendsAnswer(t1: Tables, u: UserId, text: string, id: ChatId,
                                aiData: map<string, string>, filePath: Option<string>, answer: string)
    requires id in t1.chats && t1.chats[id] == ChatDoc(u, [Turn(User, [Part(text)], None)])
    requires text != "" && answer != ""
    ensures var view := ChatView(id, Some([Turn(User, [Part(text)], None)]));
      var (generate, put) := Exchange(view, text, true, aiData, filePath, Some(answer));
      && MountStepOf(false, view) == Fire(text)
      && generate.Some?
      && Generate(generate.value) == Ok(BackendCall(DefaultModel, text, DefaultTemperature, DefaultMaxOutputTokens))
      && put.Some? && put.value.chatId == id
      && AfterPut(t1, u, put).chats[id] == ChatDoc(u, [Turn(User, [Part(text)], None), Turn(Model, [Part(answer)], None)])
  {
    var view := ChatView(id, Some([UserTurn(text, None)]));
    var payload := Payload(text, aiData, view.history);
    assert ServerReply(payload, Some(answer)) == Returned(Some(answer));
    var (generate, put) := Exchange(view, text, true, aiData, filePath, Some(answer));
    assert put.value.body.question.None?;
    assert NewItems(put.value.body.question, put.value.body.answer, put.value.body.img) == [ModelTurn(answer)];
  }

  /** With the intended PUT body, after the first exchange the stored history
      is exactly the user's opening message followed by the model's answer. */
  lemma FirstExchange(t: Tables, u: UserId, text: string, id: ChatId,
                      aiData: map<string, string>, filePath: Option<string>, answer: string)
    requires u != "" && text != "" && answer != ""
    ensures var t1 := Create(t, Some(u), text, id).0;
      var view := ViewOf(t1, id, u);
      var (generate, put) := Exchange(view, text, true, aiData, filePath, Some(answer));
      && Read(t1, id, u) == Ok(ChatDoc(u, [Turn(User, [Part(text)], None)]))
      && MountStepOf(false, view) == Fire(text)
      && generate.Some?
      && Generate(generate.value) == Ok(BackendCall(DefaultModel, text, DefaultTemperature, DefaultMaxOutputTokens))
      && put.Some? && put.value.chatId == id
      && Read(AfterPut(t1, u, put), id, u) == Ok(ChatDoc(u, [Turn(User, [Part(text)], None), Turn(Model, [Part(answer)], None)]))
  {
    NewChatView(t, u, text, id);
    InitialRunAppendsAnswer(Create(t, Some(u), text, id).0, u, text, id, aiData, filePath, answer);
  }

  /** An empty opening message never gets an answer, whatever the backend
      would say: the guard refuses the initial run's payload, the call throws
      and no PUT is made. */
  lemma EmptyFirstMessageUnanswered(t: Tables, u: UserId, id: ChatId,
                                    aiData: map<string, string>, filePath: Option<string>, backendText: Option<string>)
    requires u != ""
    ensures var t1 := Create(t, Some(u), "", id).0;
      var view := ViewOf(t1, id, u);
      var (generate, put) := Exchange(view, "", true, aiData, filePath, backendText);
      && MountStepOf(false, view) == Fire("")
      && generate.Some? && Generate(generate.value) == Err(MissingPrompt)
      && ServerReply(generate, backendText) == Threw
      && put.None?
  {
  }

  /** As written, the first exchange is lost: the initial run is fired and the
      guard passes, but the mutation's body throws, no PUT is sent, and the
      stored history stays the single user turn. */
  lemma FirstExchangeLostAsWritten(t: Tables, u: UserId, text: string, id: ChatId,
                                   aiData: map<string, string>, filePath: Option<string>, answer: string)
    requires u != "" && text != "" && answer != ""
    ensures var t1 := Create(t, Some(u), text, id).0;
      var view := ViewOf(t1, id, u);
      var (generate, put) := ExchangeAsWritten(view, text, true, aiData, filePath, Some(answer));
      && MountStepOf(false, view) == Fire(text)
      && generate.Some? && Generate(generate.value).Ok?
      && put.None?
      && Read(AfterPut(t1, u, put), id, u) == Ok(ChatDoc(u, [Turn(User, [Part(text)], None)]))
  {
  }

  /** A later exchange, issued from the form with a non-empty question, adds
      exactly that question and its answer at the end. */
  lemma LaterExchange(t: Tables, u: UserId, id: ChatId, question: string,
                      aiData: map<string, string>, filePath: Option<string>, answer: string)
    requires Owns(t, id, u) && question != "" && answer != ""
    requires forall i :: 0 <= i < |t.chats[id].history| ==> t.chats[id].history[i].parts != []
    ensures var (generate, put) := Exchange(ChatView(id, Some(t.chats[id].history)), question, false, aiData, filePath, Some(answer));
      && put.Some?
      && AfterPut(t, u, put).chats[id].history == t.chats[id].history
                      + [Turn(User, [Part(question)], OrAbsent(filePath)), Turn(Model, [Part(answer)], None)]
  {
  }
}
