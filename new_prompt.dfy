/** The prompt box of a chat page: the generate payload and the PUT body it
    builds, and the `add` / initial-run steps that send them. */
module NewPrompt {
  import opened ChatTypes

  /** The chat the page shows: its id and its `history`, absent when the
      fetched data has no history array. */
  datatype ChatView = ChatView(id: ChatId, history: Option<seq<Turn>>)

  /** What `generateFromServer` gives back: it throws on a non-2xx answer,
      otherwise yields the reply's `text` field, which may be absent. */
  datatype Reply = Threw | Returned(text: Option<string>)

  /** A PUT to /api/chats/:chatId. */
  datatype PutCall = PutCall(chatId: ChatId, body: PutRequest)

  /** The variables `add` hands to the mutation. */
  datatype MutationVars = MutationVars(question: Option<string>, answer: string, imgPath: Option<string>)

  // ---- the generate payload -----------------------------------------------

  /** Each turn reduced to its role and the text of its first part; a turn
      with no parts makes `parts[0].text` throw, so nothing is built. */
  function ReduceHistory(h: seq<Turn>): (r: Option<seq<Turn>>)
    ensures r.Some? <==> forall i :: 0 <= i < |h| ==> h[i].parts != []
    ensures r.Some? ==> |r.value| == |h|
    ensures r.Some? ==> forall i :: 0 <= i < |h| ==>
      r.value[i] == Turn(h[i].role, [Part(h[i].parts[0].text)], None)
  {
    if h == [] then Some([])
    else if h[0].parts == [] then None
    else match ReduceHistory(h[1..])
      case None => None
      case Some(rest) => Some([Turn(h[0].role, [Part(h[0].parts[0].text)], None)] + rest)
  }

  /** The body `add` posts to /api/generate. */
  function Payload(text: string, aiData: map<string, string>, history: Option<seq<Turn>>): (r: Option<GenerateBody>)
    ensures r.None? <==> history.Some? && exists i :: 0 <= i < |history.value| && history.value[i].parts == []
    ensures r.Some? ==> r.value.prompt == Some(text)
    ensures r.Some? ==> r.value.img == (if |aiData| > 0 then Some(aiData) else None)
    ensures r.Some? && history.None? ==> r.value.history == []
    ensures r.Some? && history.Some? ==> |r.value.history| == |history.value|
    ensures r.Some? && history.Some? ==> forall i :: 0 <= i < |history.value| ==>
      r.value.history[i].role == history.value[i].role &&
      r.value.history[i].parts == [Part(history.value[i].parts[0].text)]
    ensures r.Some? ==> r.value.model.None? && r.value.temperature.None? && r.value.maxOutputTokens.None?
  {
    var img := if |aiData| > 0 then Some(aiData) else None;
    if history.None? then Some(GenerateBody(Some(text), img, [], None, None, None))
    else match ReduceHistory(history.value)
      case None => None
      case Some(h) => Some(GenerateBody(Some(text), img, h, None, None, None))
  }

  // ---- the PUT body ---------------------------------------------------------

  /** Line 88-90: the initial run passes no question; the image path is
      dropped when the upload gave none. */
  function Mutation(text: string, isInitial: bool, result: string, filePath: Option<string>): (v: MutationVars)
    ensures v.question.None? <==> isInitial
    ensures !isInitial ==> v.question == Some(text)
    ensures v.answer == result
    ensures v.imgPath.Some? <==> Truthy(filePath)
    ensures v.imgPath.Some? ==> v.imgPath == filePath
  {
    MutationVars(if isInitial then None else Some(text), result, OrAbsent(filePath))
  }

  /** The PUT body as the mutation is evidently meant to build it: `question`
      is left out when it is empty or absent, `img` when no path is given. */
  function PutBody(q: Option<string>, a: string, imgPath: Option<string>): (r: PutRequest)
    ensures r.question.None? <==> !Truthy(q)
    ensures r.question.Some? ==> r.question == q
    ensures r.img.None? <==> !Truthy(imgPath)
    ensures r.img.Some? ==> r.img == imgPath
    ensures r.answer == a && r.role == User
  {
    PutRequest(OrAbsent(q), a, User, OrAbsent(imgPath))
  }

  /** The PUT body as line 40 builds it: `q.length` is read before the test,
      so an absent question throws and no request is made. */
  function PutBodyAsWritten(q: Option<string>, a: string, imgPath: Option<string>): (r: Option<PutRequest>)
    ensures r.None? <==> q.None?
    ensures r.Some? ==> r.value == PutBody(q, a, imgPath)
  {
    if q.None? then None
    else Some(PutRequest(if |q.value| > 0 then q else None, a, User, OrAbsent(imgPath)))
  }

  // ---- add and the initial run -----------------------------------------------

  /** The two requests one call of `add` makes, in order, with the corrected
      PUT body: the generate payload (absent when building it throws) and the
      PUT (absent unless the reply has a truthy text). */
  function AddRequests(data: ChatView, text: string, isInitial: bool, aiData: map<string, string>,
                       filePath: Option<string>, reply: Reply): (Option<GenerateBody>, Option<PutCall>)
  {
    var payload := Payload(text, aiData, data.history);
    if payload.None? then (None, None)
    else if reply.Threw? || !Truthy(reply.text) then (payload, None)
    else
      var v := Mutation(text, isInitial, reply.text.value, filePath);
      (payload, Some(PutCall(data.id, PutBody(v.question, v.answer, v.imgPath))))
  }

  /** `add` as lines 85-91 and 40 are written: the PUT body comes from
      `PutBodyAsWritten`, so on the initial run building it throws inside the
      mutation and no PUT is sent, although the answer has already been set. */
  function AddRequestsAsWritten(data: ChatView, text: string, isInitial: bool, aiData: map<string, string>,
                                filePath: Option<string>, reply: Reply): (r: (Option<GenerateBody>, Option<PutCall>))
    ensures r.0 == AddRequests(data, text, isInitial, aiData, filePath, reply).0
    ensures isInitial ==> r.1.None?
    ensures !isInitial ==> r.1 == AddRequests(data, text, isInitial, aiData, filePath, reply).1
  {
    var payload := Payload(text, aiData, data.history);
    if payload.None? then (None, None)
    else if reply.Threw? || !Truthy(reply.text) then (payload, None)
    else
      var v := Mutation(text, isInitial, reply.text.value, filePath);
      var body := PutBodyAsWritten(v.question, v.answer, v.imgPath);
      (payload, if body.None? then None else Some(PutCall(data.id, body.value)))
  }

  /** With the corrected PUT body: the append is issued exactly when a payload
      was built and the reply carries a truthy text; the initial run never
      sends a question. */
  lemma AddPutsOnlyOnReply(data: ChatView, text: string, isInitial: bool, aiData: map<string, string>,
                           filePath: Option<string>, reply: Reply)
    ensures var (payload, put) := AddRequests(data, text, isInitial, aiData, filePath, reply);
      && (put.Some? <==> payload.Some? && reply.Returned? && Truthy(reply.text))
      && (put.Some? ==> put.value.chatId == data.id && put.value.body.answer == reply.text.value)
      && (put.Some? && isInitial ==> put.value.body.question.None?)
      && (put.Some? && !isInitial ==> put.value.body.question == OrAbsent(Some(text)))
      && (put.Some? ==> put.value.body.img == OrAbsent(filePath))
  {
  }

  /** What the initial-run effect does on mount. */
  datatype MountStep = Skip | Throws | Fire(text: string)

  /** Line 110-117: only on the first mount and only for a one-turn history;
      reading `parts[0].text` of an empty parts array throws. */
  function MountStepOf(hasRun: bool, data: ChatView): (s: MountStep)
    ensures s.Fire? <==> !hasRun && data.history.Some? && |data.history.value| == 1 && data.history.value[0].parts != []
    ensures s.Fire? ==> s.text == data.history.value[0].parts[0].text
    ensures hasRun ==> s == Skip
  {
    if hasRun || data.history.None? || |data.history.value| != 1 then Skip
    else if data.history.value[0].parts == [] then Throws
    else Fire(data.history.value[0].parts[0].text)
  }

  /** The component's state that `add` and the initial run touch. */
  class PromptSession {
    var question: string
    var answer: Option<string>
    var isLoading: bool
    var hasRun: bool
    /** Entries of `img.aiData` and `img.dbData.filePath`, set by the upload. */
    var aiData: map<string, string>
    var filePath: Option<string>

    constructor ()
      ensures question == "" && answer.None? && !isLoading && !hasRun && aiData == map[] && filePath.None?
    {
      question, answer, isLoading, hasRun := "", None, false, false;
      aiData, filePath := map[], None;
    }

    /** `add(text, isInitial)` with the corrected PUT body, the generate
        call's outcome being `reply`. */
    method Add(data: ChatView, text: string, isInitial: bool, reply: Reply) returns (generate: Option<GenerateBody>, put: Option<PutCall>)
      modifies this
      ensures (generate, put) == AddRequests(data, text, isInitial, old(aiData), old(filePath), reply)
      ensures question == if isInitial then old(question) else text
      ensures isLoading == (generate.None? || reply.Threw?)
      ensures answer == if put.Some? then reply.text else old(answer)
      ensures hasRun == old(hasRun) && aiData == old(aiData) && filePath == old(filePath)
    {
      isLoading := true;
      if !isInitial {
        question := text;
      }
      generate := Payload(text, aiData, data.history);
      put := None;
      if generate.None? {
        return;
      }
      if reply.Threw? {
        return;
      }
      var result := reply.text;
      isLoading := false;
      if Truthy(result) {
        answer := result;
        var v := Mutation(text, isInitial, result.value, filePath);
        put := Some(PutCall(data.id, PutBody(v.question, v.answer, v.imgPath)));
      }
    }

    /** The mount effect: runs `add(history[0].parts[0].text, true)` at most once. */
    method Mount(data: ChatView, reply: Reply) returns (generate: Option<GenerateBody>, put: Option<PutCall>)
      modifies this
      ensures var step := MountStepOf(old(hasRun), data);
        && (step.Fire? ==> (generate, put) == AddRequests(data, step.text, true, old(aiData), old(filePath), reply))
        && (!step.Fire? ==> generate.None? && put.None?)
        && (step.Skip? ==> hasRun)
        && (step.Throws? ==> hasRun == old(hasRun))
        && (step.Fire? ==> hasRun)
        && (!step.Fire? ==> isLoading == old(isLoading) && answer == old(answer))
        && (step.Fire? ==> isLoading == (generate.None? || reply.Threw?))
        && (step.Fire? ==> answer == if put.Some? then reply.text else old(answer))
      ensures question == old(question) && aiData == old(aiData) && filePath == old(filePath)
    {
      var step := MountStepOf(hasRun, data);
      generate, put := None, None;
      if step.Throws? {
        return;
      }
      if step.Fire? {
        generate, put := Add(data, step.text, true, reply);
      }
      hasRun := true;
    }
  }
}
