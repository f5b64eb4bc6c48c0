/** The two collections behind the chat handlers, and what each handler does to
    them, as functions from the old tables to the new ones. */
module StoreSpec {
  import opened ChatTypes

  /** `chats`: one document per conversation; `userChats`: each user's ordered
      index of its conversations. */
  datatype Tables = Tables(chats: map<ChatId, ChatDoc>, userChats: map<UserId, seq<Entry>>)

  /** What POST /api/chat answers. `MissingUserId` is the 401. `Stored(sent)`
      means both writes were made; `sent` is the id sent back with status 201,
      or `None` when the user had no index yet: that branch sends no response
      at all, so the request is left open. */
  datatype CreateResponse = MissingUserId | Stored(sent: Option<ChatId>)

  /** The one failure of GET /api/chats/:id (status 400). */
  datatype ReadError = InvalidOrCorrupted

  // ---- the handlers' effect on the tables -------------------------------

  /** POST /api/chat with a fresh document id `id`. */
  function Create(t: Tables, userId: Option<UserId>, text: string, id: ChatId): (Tables, CreateResponse)
  {
    if !Truthy(userId) then (t, MissingUserId)
    else
      var u := userId.value;
      var chats := t.chats[id := ChatDoc(u, [UserTurn(text, None)])];
      var entry := Entry(id, Title(text));
      if u !in t.userChats then (Tables(chats, t.userChats[u := [entry]]), Stored(None))
      else (Tables(chats, t.userChats[u := t.userChats[u] + [entry]]), Stored(Some(id)))
  }

  /** GET /api/userchats: the caller's index, absent when it has none. */
  function ListOf(t: Tables, u: UserId): Option<seq<Entry>>
  {
    if u in t.userChats then Some(t.userChats[u]) else None
  }

  /** GET /api/chats/:id: the document filtered by id and owner, then validated. */
  function Read(t: Tables, id: ChatId, u: UserId): Result<ChatDoc, ReadError>
  {
    if id in t.chats && t.chats[id].userId == u && HistoryIsValid(t.chats[id].history)
    then Ok(t.chats[id])
    else Err(InvalidOrCorrupted)
  }

  predicate Owns(t: Tables, id: ChatId, u: UserId)
  {
    id in t.chats && t.chats[id].userId == u
  }

  /** PUT /api/chats/:id: `$push` of the new items onto the history of the
      document matching id and owner; the bool is whether one matched. */
  function Append(t: Tables, id: ChatId, u: UserId, question: Option<string>, answer: string, img: Option<string>): (Tables, bool)
  {
    if Owns(t, id, u) then
      (Tables(t.chats[id := ChatDoc(u, t.chats[id].history + NewItems(question, answer, img))], t.userChats), true)
    else (t, false)
  }

  /** DELETE /api/chats/:id: an owner-filtered delete, then a pull of the id
      from the caller's index. */
  function Delete(t: Tables, id: ChatId, u: UserId): Tables
  {
    var chats := if Owns(t, id, u) then t.chats - {id} else t.chats;
    var userChats := if u in t.userChats then t.userChats[u := Without(t.userChats[u], id)] else t.userChats;
    Tables(chats, userChats)
  }

  // ---- the invariant the handlers keep -----------------------------------

  ghost predicate HistoriesValid(t: Tables)
  {
    forall id :: id in t.chats ==> HistoryIsValid(t.chats[id].history)
  }

  /** No orphaned index entries: each points at a chat owned by that user. */
  ghost predicate IndexSound(t: Tables)
  {
    forall u, e :: u in t.userChats && e in t.userChats[u] ==> e.id in t.chats && t.chats[e.id].userId == u
  }

  ghost predicate Listed(list: seq<Entry>, id: ChatId)
  {
    exists e :: e in list && e.id == id
  }

  /** Every chat appears in its owner's index. */
  ghost predicate IndexComplete(t: Tables)
  {
    forall id :: id in t.chats ==> t.chats[id].userId in t.userChats && Listed(t.userChats[t.chats[id].userId], id)
  }

  ghost predicate StoreInvariant(t: Tables)
  {
    HistoriesValid(t) && IndexSound(t) && IndexComplete(t)
  }

  /** No chat that is still there has changed owner or lost or rewritten a
      turn; whether a chat may disappear is stated separately. */
  ghost predicate OnlyGrows(t: Tables, t': Tables)
  {
    forall id :: id in t.chats && id in t'.chats ==>
      t'.chats[id].userId == t.chats[id].userId && t.chats[id].history <= t'.chats[id].history
  }

  // ---- create --------------------------------------------------------------

  lemma CreateRejectsMissingUser(t: Tables, userId: Option<UserId>, text: string, id: ChatId)
    requires !Truthy(userId)
    ensures Create(t, userId, text, id) == (t, MissingUserId)
  {
  }

  lemma CreateEffect(t: Tables, u: UserId, text: string, id: ChatId)
    requires u != ""
    ensures var (t', r) := Create(t, Some(u), text, id);
      && t'.chats == t.chats[id := ChatDoc(u, [Turn(User, [Part(text)], None)])]
      && u in t'.userChats
      && t'.userChats == t.userChats[u := t'.userChats[u]]
      && (u !in t.userChats ==> t'.userChats[u] == [Entry(id, text[..if |text| < 40 then |text| else 40])] && r == Stored(None))
      && (u in t.userChats ==> t'.userChats[u] == t.userChats[u] + [Entry(id, text[..if |text| < 40 then |text| else 40])] && r == Stored(Some(id)))
  {
    var n := if |text| < 40 then |text| else 40;
    assert Title(text) == text[..n];
  }

  lemma CreatePreservesInvariant(t: Tables, userId: Option<UserId>, text: string, id: ChatId)
    requires StoreInvariant(t) && id !in t.chats
    ensures StoreInvariant(Create(t, userId, text, id).0)
    ensures OnlyGrows(t, Create(t, userId, text, id).0)
    ensures t.chats.Keys <= Create(t, userId, text, id).0.chats.Keys
    ensures forall cid :: cid in t.chats ==> Create(t, userId, text, id).0.chats[cid] == t.chats[cid]
  {
    if Truthy(userId) {
      var u := userId.value;
      var t' := Create(t, userId, text, id).0;
      assert t'.chats == t.chats[id := ChatDoc(u, [UserTurn(text, None)])];
      assert HistoriesValid(t');
      assert OnlyGrows(t, t');
      CreateKeepsIndexSound(t, u, text, id);
      CreateKeepsIndexComplete(t, u, text, id);
    }
  }

  lemma CreateKeepsIndexSound(t: Tables, u: UserId, text: string, id: ChatId)
    requires IndexSound(t) && id !in t.chats && u != ""
    ensures IndexSound(Create(t, Some(u), text, id).0)
  {
    var t' := Create(t, Some(u), text, id).0;
    forall v, e | v in t'.userChats && e in t'.userChats[v]
      ensures e.id in t'.chats && t'.chats[e.id].userId == v
    {
      if v == u && e == Entry(id, Title(text)) {
      } else {
        assert e in t.userChats[v];
      }
    }
  }

  lemma CreateKeepsIndexComplete(t: Tables, u: UserId, text: string, id: ChatId)
    requires IndexComplete(t) && id !in t.chats && u != ""
    ensures IndexComplete(Create(t, Some(u), text, id).0)
  {
    var t' := Create(t, Some(u), text, id).0;
    assert Entry(id, Title(text)) in t'.userChats[u];
    forall cid | cid in t'.chats
      ensures t'.chats[cid].userId in t'.userChats && Listed(t'.userChats[t'.chats[cid].userId], cid)
    {
      if cid != id {
        var o := t.chats[cid].userId;
        var e :| e in t.userChats[o] && e.id == cid;
        assert e in t'.userChats[o];
      }
    }
  }

  // ---- read ----------------------------------------------------------------

  /** A read succeeds exactly for an existing, owned, well-formed chat; every
      other case, a foreign id included, gets the same single failure. */
  lemma ReadSucceedsIff(t: Tables, id: ChatId, u: UserId)
    ensures Read(t, id, u).Ok? <==> id in t.chats && t.chats[id].userId == u
                                    && |t.chats[id].history| > 0 && t.chats[id].history[0].role == User
    ensures Read(t, id, u).Ok? ==> Read(t, id, u).value == t.chats[id]
    ensures Read(t, id, u).Err? ==> Read(t, id, u) == Err(InvalidOrCorrupted)
  {
  }

  /** Under the invariant, the corruption check never rejects an owned chat. */
  lemma ReadOwnedSucceeds(t: Tables, id: ChatId, u: UserId)
    requires StoreInvariant(t) && Owns(t, id, u)
    ensures Read(t, id, u) == Ok(t.chats[id])
  {
  }

  /** Every chat the caller's index lists can be read by the caller. */
  lemma ListedChatsReadable(t: Tables, u: UserId, e: Entry)
    requires StoreInvariant(t) && u in t.userChats && e in t.userChats[u]
    ensures ListOf(t, u).Some? && e in ListOf(t, u).value
    ensures Read(t, e.id, u) == Ok(t.chats[e.id])
  {
  }

  // ---- append ----------------------------------------------------------------

  lemma AppendEffect(t: Tables, id: ChatId, u: UserId, question: Option<string>, answer: string, img: Option<string>)
    ensures var (t', matched) := Append(t, id, u, question, answer, img);
      && matched == Owns(t, id, u)
      && t'.userChats == t.userChats
      && t'.chats.Keys == t.chats.Keys
      && (forall cid :: cid in t.chats && cid != id ==> t'.chats[cid] == t.chats[cid])
      && (!matched ==> t' == t)
      && (matched ==> t'.chats[id] == ChatDoc(u, t.chats[id].history + NewItems(question, answer, img)))
      && (matched ==> |t'.chats[id].history| == |t.chats[id].history| + (if Truthy(question) then 2 else 1))
  {
  }

  lemma AppendPreservesInvariant(t: Tables, id: ChatId, u: UserId, question: Option<string>, answer: string, img: Option<string>)
    requires StoreInvariant(t)
    ensures StoreInvariant(Append(t, id, u, question, answer, img).0)
    ensures OnlyGrows(t, Append(t, id, u, question, answer, img).0)
    ensures Append(t, id, u, question, answer, img).0.chats.Keys == t.chats.Keys
  {
    if Owns(t, id, u) {
      var t' := Append(t, id, u, question, answer, img).0;
      var chat := ChatDoc(u, t.chats[id].history + NewItems(question, answer, img));
      assert t' == Tables(t.chats[id := chat], t.userChats);
      AppendKeepsChats(t, id, chat);
    }
  }

  /** Replacing one chat by a document with the same owner whose history
      extends the old one keeps the invariant and only grows the store. */
  lemma AppendKeepsChats(t: Tables, id: ChatId, chat: ChatDoc)
    requires StoreInvariant(t) && id in t.chats
    requires chat.userId == t.chats[id].userId && t.chats[id].history <= chat.history
    ensures var t' := Tables(t.chats[id := chat], t.userChats);
      StoreInvariant(t') && OnlyGrows(t, t')
  {
    var t' := Tables(t.chats[id := chat], t.userChats);
    assert chat.history[0] == t.chats[id].history[0];
    assert HistoriesValid(t');
    assert IndexSound(t');
    forall cid | cid in t'.chats
      ensures t'.chats[cid].userId in t'.userChats && Listed(t'.userChats[t'.chats[cid].userId], cid)
    {
      assert t'.chats[cid].userId == t.chats[cid].userId;
    }
  }

  // ---- delete ----------------------------------------------------------------

  lemma DeleteEffect(t: Tables, id: ChatId, u: UserId)
    ensures var t' := Delete(t, id, u);
      && (Owns(t, id, u) ==> t'.chats == t.chats - {id})
      && (!Owns(t, id, u) ==> t'.chats == t.chats)
      && t'.userChats.Keys == t.userChats.Keys
      && (forall v :: v in t.userChats && v != u ==> t'.userChats[v] == t.userChats[v])
      && (u in t.userChats ==> forall e :: e in t'.userChats[u] <==> e in t.userChats[u] && e.id != id)
      && (u in t.userChats ==> t'.userChats[u] == Without(t.userChats[u], id))
  {
  }

  /** Deleting someone else's chat changes nothing: the document stays and the
      caller's index holds no entry with that id to pull. */
  lemma DeleteForeignIsNoop(t: Tables, id: ChatId, u: UserId)
    requires StoreInvariant(t) && id in t.chats && t.chats[id].userId != u
    ensures Delete(t, id, u) == t
  {
    if u in t.userChats {
      WithoutAbsent(t.userChats[u], id);
      assert t.userChats[u := t.userChats[u]] == t.userChats;
    }
  }

  lemma DeletePreservesInvariant(t: Tables, id: ChatId, u: UserId)
    requires StoreInvariant(t)
    ensures StoreInvariant(Delete(t, id, u))
    ensures OnlyGrows(t, Delete(t, id, u))
  {
    DeleteKeepsIndexSound(t, id, u);
    DeleteKeepsIndexComplete(t, id, u);
  }

  lemma DeleteKeepsIndexSound(t: Tables, id: ChatId, u: UserId)
    requires IndexSound(t)
    ensures IndexSound(Delete(t, id, u))
  {
    var t' := Delete(t, id, u);
    forall v, e | v in t'.userChats && e in t'.userChats[v]
      ensures e.id in t'.chats && t'.chats[e.id].userId == v
    {
      assert e in t.userChats[v];
      assert v == u ==> e.id != id;
    }
  }

  lemma DeleteKeepsIndexComplete(t: Tables, id: ChatId, u: UserId)
    requires IndexComplete(t)
    ensures IndexComplete(Delete(t, id, u))
  {
    var t' := Delete(t, id, u);
    forall cid | cid in t'.chats
      ensures t'.chats[cid].userId in t'.userChats && Listed(t'.userChats[t'.chats[cid].userId], cid)
    {
      var o := t.chats[cid].userId;
      var e :| e in t.userChats[o] && e.id == cid;
      if o == u {
        assert cid != id;
        assert e in t'.userChats[o];
      }
    }
  }
}
