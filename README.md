# Conversation store of a chat assistant, in Dafny

This project models the conversation store behind the chat backend's HTTP
handlers, and the request building of the chat page's prompt box that feeds it.

The backend (`backend/index.js`) keeps two collections:

- `chats` holds one document per conversation: the owner's user id and the
  ordered `history` of turns.
- `userChats` holds, per user, the ordered index of that user's conversations
  as `{_id, title}` entries.

The handlers are modelled twice. Module `StoreSpec` states each one as a
function from the old tables to the new ones, together with the invariant the
handlers keep. That invariant says every history is non-empty and starts with
a user turn, every index entry points at a chat its user owns, and every chat
is listed in its owner's index. Module `Backend` holds class
`ConversationStore`, whose fields are the two tables, and a method per route
that updates them in place. Each method is proved to end in the state the
matching `StoreSpec` function gives. Each method also keeps the invariant.
No chat that is still there changes owner or loses or rewrites a stored turn.
Create and append keep every chat; only delete removes one, and only a chat
the caller owns.

Behaviour the model keeps as the code has it:

- Creating a chat stores a one-turn history. It then creates the caller's
  index or appends to it. The title is the first 40 characters of the text,
  without capitalisation. The new id is sent back with status 201 only when
  the caller's index already existed. For a user's first chat, both writes are
  made but no response is sent at all (backend/index.js:102-113). The request is
  left open, so the dashboard's `onSuccess` handler, which navigates to the new
  chat, does not run (client/src/routes/dashboardPage/DashboardPage.jsx:21-24). The model's response
  `Stored(None)` stands for this "no response" outcome.
- A read fails with one and the same 400 failure in every bad case: a missing
  chat, a foreign chat, an empty history, or a history that does not start
  with a user turn (backend/index.js:157-163).
- An append addressed to a chat the caller does not own matches nothing and
  changes nothing.
- Delete is owner-filtered, and then every entry with that id is pulled from
  the caller's own index.
- `/api/generate` refuses a missing or empty prompt before any backend call.
  It sends only the prompt, and ignores the `history` and `img` of the body.

The client side (`NewPrompt.jsx`) is modelled in module `NewPrompt`. The
generate payload, the mutation variables and the PUT body are functions. Class
`PromptSession` holds the component state that `add` and the one-shot initial
run change. Module `Conversation` connects the two sides: with the intended
PUT body, the first exchange of a new chat leaves the history as exactly
`[user turn, model turn]`.

Inputs the model cannot see become parameters:

- the authenticated user id;
- the outcome of the generate call (`Reply`) in `PromptSession`. In module
  `Conversation`, the outcome comes from the guard instead: a refused payload
  makes the call throw (client/src/lib/gemini.js:15-17), and otherwise the backend's text is a
  parameter;
- the image entries and upload path set by the upload component;
- the fresh document ids, taken from a counter in `ConversationStore`.

## Model

| member | source | states |
|---|---|---|
| `ChatTypes.Title` | backend/index.js:108 | the title is a prefix of the text, whose length is the smaller of 40 and the text's length |
| `ChatTypes.NewItems` | backend/index.js:179-184 | two turns for a truthy question (user turn with the image only when one is given, then the model turn), otherwise only the model turn; only the user turn can carry an image |
| `ChatTypes.Without` | backend/index.js:212-215 | after the pull, an entry is present iff it was present and has another id |
| `ChatTypes.WithoutConcat` | backend/index.js:212-215 | the pull works entry by entry: pulling from `a + b` is pulling from `a` followed by pulling from `b`, so the kept entries keep their order and their repetitions |
| `ChatTypes.WithoutSingle` | backend/index.js:212-215 | a single entry is dropped iff its id is the pulled one, and is kept as it is otherwise |
| `ChatTypes.WithoutAbsent` | backend/index.js:212-215 | pulling an id that no entry has leaves the index unchanged |
| `StoreSpec.CreateRejectsMissingUser` | backend/index.js:87 | a missing user id is answered 401 and neither table is written |
| `StoreSpec.CreateEffect` | backend/index.js:91-128 | the new chat is owned by the caller and holds one user turn with the text; the caller's index is `[entry]` when it did not exist (and no id is sent back) or the old index plus the entry (id sent back); the title is the 40-character prefix; no other user's index changes |
| `StoreSpec.CreatePreservesInvariant` | backend/index.js:91-126 | with a fresh id, creating keeps every history valid and the index sound and complete; every existing chat is still there and is unchanged |
| `StoreSpec.ReadSucceedsIff` | backend/index.js:155-165 | a read succeeds iff the chat exists, is the caller's, has a non-empty history and starts with a user turn; it then returns that document; every failure is the same one |
| `StoreSpec.ReadOwnedSucceeds` | backend/index.js:155-163 | in a store that keeps the invariant, reading an owned chat always succeeds |
| `StoreSpec.ListedChatsReadable` | backend/index.js:141-143 | in a store that keeps the invariant, every entry of a caller's listed index can be read by that caller, and the read returns the stored chat |
| `StoreSpec.AppendEffect` | backend/index.js:179-196 | owned chat: its history becomes the old history plus the new items, growing by 2 or 1; otherwise nothing changes; other chats and the index never change |
| `StoreSpec.AppendPreservesInvariant` | backend/index.js:187-196 | appending keeps every history valid and the index consistent, keeps the same set of chats, and only extends histories |
| `StoreSpec.DeleteEffect` | backend/index.js:210-215 | the chat is removed only if the caller owns it; only the caller's index changes, and it becomes exactly `Without(old index, id)`, which keeps the other entries in order and with their repetitions |
| `StoreSpec.DeleteForeignIsNoop` | backend/index.js:210-215 | deleting another user's chat changes neither table |
| `StoreSpec.DeletePreservesInvariant` | backend/index.js:210-215 | deleting keeps every history valid and the index sound (no orphaned entry) and complete |
| `Backend.Generate` | backend/index.js:38-46 | refused with MissingPrompt iff the prompt is missing or empty; otherwise the backend gets the prompt with the given or default model, temperature and length cap |
| `Backend.GenerateIgnoresHistoryAndImage` | backend/index.js:38-46 | the backend call does not depend on the body's history or image |
| `Backend.ConversationStore.PostChat` | backend/index.js:82-134 | the new tables and response are those of `Create` with the next fresh id; no chat is removed; the invariant is kept and histories only grow |
| `Backend.ConversationStore.GetUserChats` | backend/index.js:136-148 | returns the caller's index, or nothing when the caller has none; equals `ListOf` on the current tables |
| `Backend.ConversationStore.GetChat` | backend/index.js:150-170 | succeeds iff the chat exists, is the caller's and has a history starting with a user turn; returns the stored document; one failure otherwise |
| `Backend.ConversationStore.PutChat` | backend/index.js:172-202 | the new tables are those of `Append`; reports whether a chat matched; the set of chats is unchanged; the invariant is kept |
| `Backend.ConversationStore.DeleteChat` | backend/index.js:204-224 | the new tables are those of `Delete`; the invariant is kept |
| `NewPrompt.ReduceHistory` | client/src/components/newPrompt/NewPrompt.jsx:73-77 | defined iff every turn has a part; same length, each turn keeps its role and only its first part's text |
| `NewPrompt.Payload` | client/src/components/newPrompt/NewPrompt.jsx:70-79 | the prompt is the text; img is the image entries when there is at least one, else absent; history is `[]` when there is no array, else the reduced turns; building fails iff some turn has no parts |
| `NewPrompt.Mutation` | client/src/components/newPrompt/NewPrompt.jsx:87-91 | no question on the initial run, the text otherwise; the image path only when truthy |
| `NewPrompt.PutBody` | client/src/components/newPrompt/NewPrompt.jsx:39-44 | question omitted iff absent or empty, img omitted iff no path, answer and role passed through (corrected form, see Findings) |
| `NewPrompt.PutBodyAsWritten` | client/src/components/newPrompt/NewPrompt.jsx:39-44 | throws iff the question is absent; otherwise equals the corrected body |
| `NewPrompt.AddRequestsAsWritten` | client/src/components/newPrompt/NewPrompt.jsx:39-44 | as written: the same generate payload as the corrected form; on the initial run no PUT is ever sent; on a later run the same PUT as the corrected form |
| `NewPrompt.AddPutsOnlyOnReply` | client/src/components/newPrompt/NewPrompt.jsx:81-94 | corrected form (`PutBody`, see Findings): the PUT is issued iff the payload was built and the reply has a truthy text; it targets the shown chat, carries the reply, and has no question on the initial run |
| `NewPrompt.MountStepOf` | client/src/components/newPrompt/NewPrompt.jsx:110-117 | the initial run fires iff it has not run and the history has exactly one turn with a part, and then uses that part's text; after a run it is skipped |
| `NewPrompt.PromptSession.Add` | client/src/components/newPrompt/NewPrompt.jsx:65-98 | corrected form (`PutBody`, see Findings): sends the requests of `AddRequests`; sets the question only when not initial; loading stays set when building or the call throws; the answer is set only when a PUT is sent |
| `NewPrompt.PromptSession.Mount` | client/src/components/newPrompt/NewPrompt.jsx:109-117 | corrected form (`PutBody`): runs `add(text, true)` only when `MountStepOf` fires, and marks the run done unless reading the text threw, so it fires at most once; when it does not fire, loading and the answer are unchanged; when it fires, they change as `add` changes them |
| `Conversation.NewChatView` | backend/index.js:91-95 | a created chat holds the single user turn, reads back successfully, and the page sees it as a one-turn history |
| `Conversation.InitialRunAppendsAnswer` | client/src/components/newPrompt/NewPrompt.jsx:109-117 | corrected form: on a one-turn chat the initial run fires, passes the guard with the defaults, and its PUT appends the model turn alone |
| `Conversation.FirstExchange` | client/src/components/newPrompt/NewPrompt.jsx:109-117 | corrected form: create, read, initial run, guard (which decides whether the call throws) and PUT together leave the history as exactly `[user(text), model(answer)]` |
| `Conversation.EmptyFirstMessageUnanswered` | backend/index.js:39 | an empty opening message fires the initial run and is refused by the guard; the refusal makes the call throw, so no PUT follows, whatever the backend would have said |
| `Conversation.FirstExchangeLostAsWritten` | client/src/components/newPrompt/NewPrompt.jsx:40 | as written (through `AddRequestsAsWritten`): the initial run fires and passes the guard, but building the PUT body throws, no PUT is sent, and the stored history stays the single user turn |
| `Conversation.LaterExchange` | backend/index.js:179-194 | an exchange from the form appends exactly `[user(question, image path), model(answer)]` to the history |

## Left out

- Express, CORS and Clerk plumbing, including the 401 error middleware (backend/index.js:14-33, 226-230). The user id is a trusted input.
- The Mongo connection and the Mongoose schemas. `models/chat.js` and `models/userChats.js` are not part of this model. An id that does not parse as an ObjectId and a failing database are not modelled, so the 500 answers of the `catch` branches are not either.
- A missing or non-string `text` in POST /api/chat is not modelled. The code would throw at `substring` after the chat was saved, but the schema that decides whether that save succeeds is not visible.
- Backend.ConversationStore.PostChat: the two writes (chat, then index) happen in one method, so a failure between them is not modelled.
- `UserChats.find` could return several documents for one user. The model keeps at most one per user; create never makes a second one.
- ChatTypes.Title: `substring` counts UTF-16 code units, while the model counts Dafny characters. Text outside the Basic Multilingual Plane can cut at a different place.
- The Gemini SDK call and `response?.text` (backend/index.js:41-50) are a foreign call. Its outcome is the `Reply` parameter, and the generate answer's `text`/`raw` body is not modelled.
- The ImageKit authentication route (backend/index.js:70-80) and `Upload.jsx` are glue around foreign services. Of `gemini.js`, only the throw on a non-2xx answer is modelled (`Conversation.ServerReply`); the fetch itself is not.
- Prompts, questions and answers of non-string JSON types are not modelled. Truthiness is modelled only for strings and absent values, and `answer` is always a string.
- The PUT body's `role` field is built but the handler never reads it.
- `handleSubmit` (NewPrompt.jsx:100-106) is not modelled, since its guard depends on the whitespace set of `String.prototype.trim`.
- Rendering, scrolling, query invalidation and the form reset after a successful PUT (NewPrompt.jsx:25-27, 47-63, 119-145) are UI.
- The chat page does not currently mount the prompt box (ChatPage.jsx:42 is commented out). The model treats it as mounted with the fetched chat.
- Concurrent requests and their interleavings are not modelled.

## Findings

| source | as written | input that shows it | evidently intended | confidence | as-written member | corrected member |
|---|---|---|---|---|---|---|
| client/src/components/newPrompt/NewPrompt.jsx:40 | the initial run passes `question: undefined` (line 88), and the mutation reads `q.length` on it, which throws, so the PUT is never sent and the first answer is never stored | a new chat whose text is "hello", mounted once, with the reply "hi" | leave `question` out when it is absent (`q?.length`), so the backend appends the model turn alone | high; not executed | `Conversation.FirstExchangeLostAsWritten`, through `NewPrompt.AddRequestsAsWritten` and `NewPrompt.PutBodyAsWritten` | `NewPrompt.PutBody`, used by `NewPrompt.AddRequests`, `NewPrompt.AddPutsOnlyOnReply`, `NewPrompt.PromptSession.Add`, `NewPrompt.PromptSession.Mount` and `Conversation.FirstExchange` |
