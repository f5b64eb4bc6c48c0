/** The chat backend's handlers: the generate guard, and the conversation
    store whose methods are the chat routes. */
module Backend {
  import opened ChatTypes
  import opened StoreSpec

  // ---- POST /api/generate ---------------------------------------------------

  const DefaultModel: string := "gemini-2.5-flash"
  const DefaultTemperature: real := 0.7
  const DefaultMaxOutputTokens: int := 1024

  /** The request the handler hands to the generation backend. */
  datatype BackendCall = BackendCall(model: string, contents: string, temperature: real, maxOutputTokens: int)

  /** The 400 "Missing prompt" answer. */
  datatype GenerateError = MissingPrompt

  function OrDefault<T>(v: Option<T>, default: T): T
  {
    if v.Some? then v.value else default
  }

  /** A missing or empty prompt is refused before the backend is called;
      otherwise the prompt alone is the content, with the documented defaults
      for the generation parameters the body leaves out. */
  function Generate(body: GenerateBody): (r: Result<BackendCall, GenerateError>)
    ensures r.Err? <==> !Truthy(body.prompt)
    ensures r.Err? ==> r.error == MissingPrompt
    ensures r.Ok? ==> r.value.contents == body.prompt.value
    ensures r.Ok? ==> r.value.model == (if body.model.Some? then body.model.value else DefaultModel)
    ensures r.Ok? ==> r.value.temperature == (if body.temperature.Some? then body.temperature.value else DefaultTemperature)
    ensures r.Ok? ==> r.value.maxOutputTokens == (if body.maxOutputTokens.Some? then body.maxOutputTokens.value else DefaultMaxOutputTokens)
  {
    if !Truthy(body.prompt) then Err(MissingPrompt)
    else Ok(BackendCall(
      OrDefault(body.model, DefaultModel),
      body.prompt.value,
      OrDefault(body.temperature, DefaultTemperature),
      OrDefault(body.maxOutputTokens, DefaultMaxOutputTokens)))
  }

  /** The handler reads neither the history nor the image of the body. */
  lemma GenerateIgnoresHistoryAndImage(body: GenerateBody, history: seq<Turn>, img: Option<map<string, string>>)
    ensures Generate(body.(history := history, img := img)) == Generate(body)
  {
  }

  // ---- the chat routes --------------------------------------------------------

  class ConversationStore {
    var chats: map<ChatId, ChatDoc>
    var userChats: map<UserId, seq<Entry>>
    /** Every id handed out so far is below this one. */
    var nextId: ChatId

    function State(): Tables
      reads this
    {
      Tables(chats, userChats)
    }

    ghost predicate Valid()
      reads this
    {
      forall id :: id in chats ==> id < nextId
    }

    constructor ()
      ensures Valid() && State() == Tables(map[], map[]) && StoreInvariant(State())
    {
      chats, userChats, nextId := map[], map[], 0;
    }

    /** POST /api/chat: save the chat, then create or extend the caller's index. */
    method PostChat(userId: Option<UserId>, text: string) returns (response: CreateResponse)
      requires Valid()
      modifies this
      ensures Valid()
      ensures (State(), response) == Create(old(State()), userId, text, old(nextId))
      ensures nextId == if Truthy(userId) then old(nextId) + 1 else old(nextId)
      ensures old(chats).Keys <= chats.Keys
      ensures StoreInvariant(old(State())) ==> StoreInvariant(State()) && OnlyGrows(old(State()), State())
    {
      if !Truthy(userId) {
        return MissingUserId;
      }
      var u := userId.value;
      var id := nextId;
      chats := chats[id := ChatDoc(u, [UserTurn(text, None)])];
      nextId := nextId + 1;
      var entry := Entry(id, Title(text));
      if u !in userChats {
        userChats := userChats[u := [entry]];
        response := Stored(None);
      } else {
        userChats := userChats[u := userChats[u] + [entry]];
        response := Stored(Some(id));
      }
      if StoreInvariant(old(State())) {
        CreatePreservesInvariant(old(State()), userId, text, id);
      }
    }

    /** GET /api/userchats. */
    method GetUserChats(u: UserId) returns (list: Option<seq<Entry>>)
      ensures list.Some? <==> u in userChats
      ensures list.Some? ==> list.value == userChats[u]
      ensures list == ListOf(State(), u)
    {
      if u in userChats {
        list := Some(userChats[u]);
      } else {
        list := None;
      }
    }

    /** GET /api/chats/:id. */
    method GetChat(id: ChatId, u: UserId) returns (r: Result<ChatDoc, ReadError>)
      ensures r.Ok? <==> id in chats && chats[id].userId == u && |chats[id].history| > 0 && chats[id].history[0].role == User
      ensures r.Ok? ==> r.value == chats[id]
      ensures r.Err? ==> r.error == InvalidOrCorrupted
      ensures r == Read(State(), id, u)
    {
      if id in chats && chats[id].userId == u {
        var chat := chats[id];
        if |chat.history| > 0 && chat.history[0].role == User {
          return Ok(chat);
        }
      }
      r := Err(InvalidOrCorrupted);
    }

    /** PUT /api/chats/:id. */
    method PutChat(id: ChatId, u: UserId, question: Option<string>, answer: string, img: Option<string>) returns (matched: bool)
      requires Valid()
      modifies this
      ensures Valid() && nextId == old(nextId)
      ensures (State(), matched) == Append(old(State()), id, u, question, answer, img)
      ensures chats.Keys == old(chats).Keys
      ensures StoreInvariant(old(State())) ==> StoreInvariant(State()) && OnlyGrows(old(State()), State())
    {
      var newItems := NewItems(question, answer, img);
      matched := id in chats && chats[id].userId == u;
      if matched {
        chats := chats[id := ChatDoc(u, chats[id].history + newItems)];
      }
      if StoreInvariant(old(State())) {
        AppendPreservesInvariant(old(State()), id, u, question, answer, img);
      }
    }

    /** DELETE /api/chats/:id. */
    method DeleteChat(id: ChatId, u: UserId)
      requires Valid()
      modifies this
      ensures Valid() && nextId == old(nextId)
      ensures State() == Delete(old(State()), id, u)
      ensures StoreInvariant(old(State())) ==> StoreInvariant(State()) && OnlyGrows(old(State()), State())
    {
      if id in chats && chats[id].userId == u {
        chats := chats - {id};
      }
      if u in userChats {
        userChats := userChats[u := Without(userChats[u], id)];
      }
      if StoreInvariant(old(State())) {
        DeletePreservesInvariant(old(State()), id, u);
      }
    }
  }
}
