/** Documents stored by the chat backend and the request bodies exchanged
    between the browser client and the backend. */
module ChatTypes {

  datatype Option<+T> = None | Some(value: T)

  datatype Result<+T, +E> = Ok(value: T) | Err(error: E)

  /** The opaque identity supplied by the authentication layer. */
  type UserId = string

  /** Chat document ids; the store hands out fresh ones. */
  type ChatId = nat

  datatype Role = User | Model

  datatype Part = Part(text: string)

  /** One message of a conversation; `img` is the uploaded image's path. */
  datatype Turn = Turn(role: Role, parts: seq<Part>, img: Option<string>)

  /** A document of the `chats` collection. */
  datatype ChatDoc = ChatDoc(userId: UserId, history: seq<Turn>)

  /** One element of a `userChats` document's `chats` array. */
  datatype Entry = Entry(id: ChatId, title: string)

  /** Body of POST /api/generate. The optional fields are absent unless the
      caller sends them; `img` holds the entries of the inline image object. */
  datatype GenerateBody = GenerateBody(
    prompt: Option<string>,
    img: Option<map<string, string>>,
    history: seq<Turn>,
    model: Option<string>,
    temperature: Option<real>,
    maxOutputTokens: Option<int>)

  /** Body of PUT /api/chats/:id after JSON serialisation (absent fields dropped). */
  datatype PutRequest = PutRequest(question: Option<string>, answer: string, role: Role, img: Option<string>)

  /** JavaScript truthiness of a value that is a string or absent. */
  predicate Truthy(s: Option<string>)
  {
    s.Some? && s.value != ""
  }

  /** `s || undefined` on a string-or-absent value. */
  function OrAbsent(s: Option<string>): (r: Option<string>)
    ensures r.Some? <==> Truthy(s)
    ensures r.Some? ==> r == s
  {
    if Truthy(s) then s else None
  }

  const TitleLength: nat := 40

  /** `text.substring(0, 40)`: the first 40 characters, or all of a shorter text. */
  function Title(text: string): (r: string)
    ensures |r| == if |text| < TitleLength then |text| else TitleLength
    ensures r <= text
  {
    if |text| <= TitleLength then text else text[..TitleLength]
  }

  function UserTurn(text: string, img: Option<string>): Turn
  {
    Turn(User, [Part(text)], img)
  }

  function ModelTurn(text: string): Turn
  {
    Turn(Model, [Part(text)], None)
  }

  /** The turns a PUT appends: a user turn for a truthy question (carrying the
      image path only when one is given), then exactly one model turn. */
  function NewItems(question: Option<string>, answer: string, img: Option<string>): (r: seq<Turn>)
    ensures |r| == if Truthy(question) then 2 else 1
    ensures r[|r| - 1] == ModelTurn(answer)
    ensures Truthy(question) ==> r[0] == UserTurn(question.value, OrAbsent(img))
    ensures forall i :: 0 <= i < |r| && r[i].img.Some? ==> r[i].role == User && Truthy(img)
  {
    (if Truthy(question) then [UserTurn(question.value, OrAbsent(img))] else []) + [ModelTurn(answer)]
  }

  /** The read-side validity check: a history is non-empty and starts with a user turn. */
  predicate HistoryIsValid(history: seq<Turn>)
  {
    |history| > 0 && history[0].role == User
  }

  /** `$pull: { chats: { _id: id } }` on one array: every entry with that id goes
      and every other entry stays. */
  function Without(list: seq<Entry>, id: ChatId): (r: seq<Entry>)
    ensures forall e :: e in r <==> e in list && e.id != id
    ensures |r| <= |list|
  {
    if list == [] then []
    else if list[0].id == id then Without(list[1..], id)
    else [list[0]] + Without(list[1..], id)
  }

  /** Pulling an id that no entry carries leaves the array as it was. */
  lemma {:induction false} WithoutAbsent(list: seq<Entry>, id: ChatId)
    requires forall e :: e in list ==> e.id != id
    ensures Without(list, id) == list
  {
    if list != [] {
      assert list[0] in list;
      forall e | e in list[1..] ensures e.id != id {
        assert e in list;
      }
      WithoutAbsent(list[1..], id);
      assert [list[0]] + list[1..] == list;
    }
  }

  /** The pull works element by element: it distributes over concatenation, */
  lemma {:induction false} WithoutConcat(a: seq<Entry>, b: seq<Entry>, id: ChatId)
    ensures Without(a + b, id) == Without(a, id) + Without(b, id)
  {
    if a == [] {
      assert a + b == b;
    } else {
      assert (a + b)[0] == a[0];
      assert (a + b)[1..] == a[1..] + b;
      WithoutConcat(a[1..], b, id);
    }
  }

  /** and on one entry it drops it iff it has the id; so the surviving entries
      keep their order and their number of occurrences. */
  lemma WithoutSingle(e: Entry, id: ChatId)
    ensures Without([e], id) == if e.id == id then [] else [e]
  {
    assert [e][1..] == [];
  }
}
