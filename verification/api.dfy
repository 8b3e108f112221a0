/** The request handlers of back/app.py, each a function from the request
    and the current store to the response status, the response body and the
    store afterwards. */
module Api {
  import opened Wrappers
  import opened ConversationStore
  import opened Orchestrator

  const StatusOk: int := 200
  const StatusBadRequest: int := 400
  const MissingMessageError: string := "Missing 'message' in request body"
  const ClearedMessage: string := "Conversation cleared"

  /** The JSON bodies the handlers send back. */
  datatype Payload =
    | Health(status: string, message: string)
    | MissingMessage(error: string)
    | Chat(result: ProcessResult)
    | Conversation(success: bool, conversation: seq<Entry>, conversationId: string)
    | Cleared(success: bool, message: string)
    | Conversations(success: bool, conversations: seq<string>)

  datatype Response = Response(status: int, payload: Payload, store: Store)

  /** A parsed JSON chat request body: `None` stands for a body that parsed
      to `null` or to another falsy value (`false`, `0`, `""`, `[]`);
      otherwise a JSON object with string-valued fields. */
  type ChatBody = Option<map<string, string>>

  /** The body is absent or empty, or has no "message" field. */
  predicate LacksMessage(body: ChatBody) {
    body.None? || |body.value| == 0 || "message" !in body.value
  }

  /** health_check. */
  function HealthCheck(st: Store): (r: Response)
    ensures r.status == StatusOk && r.store == st
    ensures r.payload == Health("healthy", "Agent API is running")
  {
    Response(StatusOk, Health("healthy", "Agent API is running"), st)
  }

  /** chat: `freshId` stands for the random identifier used when the body
      names no conversation, and `timestamp` for the time of the call. */
  function HandleChat(st: Store, body: ChatBody, freshId: string, infer: Inference,
                      timestamp: string): (r: Response)
    ensures LacksMessage(body) ==>
      r == Response(StatusBadRequest, MissingMessage(MissingMessageError), st)
    ensures !LacksMessage(body) ==> r.status == StatusOk && r.payload.Chat?
    ensures !LacksMessage(body) && "conversation_id" in body.value ==>
      r.payload.result.conversationId == body.value["conversation_id"]
    ensures !LacksMessage(body) && "conversation_id" !in body.value ==>
      r.payload.result.conversationId == freshId
    ensures !LacksMessage(body) ==>
      var id := r.payload.result.conversationId;
      && r.payload.result == ProcessMessage(st, body.value["message"], id, infer, timestamp).result
      && (r.payload.result.success <==> infer(st, body.value["message"]).Reply?)
      && Get(r.store, id) == Get(st, id) + [r.payload.result.message]
      && (forall k :: k != id ==> Get(r.store, k) == Get(st, k))
      && List(r.store) == (if id in st.conversations then List(st) else List(st) + [id])
    ensures Valid(st) ==> Valid(r.store)
  {
    if LacksMessage(body) then
      Response(StatusBadRequest, MissingMessage(MissingMessageError), st)
    else
      var data := body.value;
      var id := if "conversation_id" in data then data["conversation_id"] else freshId;
      var p := ProcessMessage(st, data["message"], id, infer, timestamp);
      Response(StatusOk, Chat(p.result), p.store)
  }

  /** get_conversation_endpoint: report the stored entries of `id` (none
      when it is absent) without touching the store. */
  function GetConversationEndpoint(st: Store, id: string): (r: Response)
    ensures r.status == StatusOk && r.store == st
    ensures r.payload.Conversation? && r.payload.success && r.payload.conversationId == id
    ensures r.payload.conversation == Get(st, id)
    ensures Valid(st) ==> (|r.payload.conversation| > 0 <==> id in List(st))
  {
    Response(StatusOk, Conversation(true, Get(st, id), id), st)
  }

  /** clear_conversation_endpoint: succeeds whether or not `id` existed. */
  function ClearConversationEndpoint(st: Store, id: string): (r: Response)
    ensures r.status == StatusOk && r.payload == Cleared(true, ClearedMessage)
    ensures id !in r.store.conversations
    ensures forall k :: k != id ==> Get(r.store, k) == Get(st, k)
    ensures id !in st.conversations ==> r.store == st
    ensures Valid(st) ==> List(r.store) == RemoveKey(List(st), id)
    ensures Valid(st) ==> Valid(r.store)
  {
    Response(StatusOk, Cleared(true, ClearedMessage), Clear(st, id))
  }

  /** list_conversations_endpoint: every current conversation id, once. */
  function ListConversationsEndpoint(st: Store): (r: Response)
    ensures r.status == StatusOk && r.store == st
    ensures r.payload.Conversations? && r.payload.success
    ensures r.payload.conversations == List(st)
    ensures Valid(st) ==> Distinct(r.payload.conversations)
    ensures Valid(st) ==> forall k :: k in r.payload.conversations <==> k in st.conversations
  {
    Response(StatusOk, Conversations(true, List(st)), st)
  }

  /** A chat request with a message always answers 200 and adds exactly one
      entry to the conversation it names, successful inference or not. */
  lemma ChatThenGetHasOneMore(st: Store, body: map<string, string>, freshId: string,
                              infer: Inference, timestamp: string)
    requires "message" in body
    ensures var c := HandleChat(st, Some(body), freshId, infer, timestamp);
      var id := c.payload.result.conversationId;
      && c.status == StatusOk
      && |GetConversationEndpoint(c.store, id).payload.conversation|
         == |GetConversationEndpoint(st, id).payload.conversation| + 1
  {
  }

  /** A conversation read after it was deleted is empty, not an error, and
      deleting is idempotent. */
  lemma DeleteThenGetIsEmpty(st: Store, id: string)
    ensures var d := ClearConversationEndpoint(st, id);
      && GetConversationEndpoint(d.store, id) == Response(StatusOk, Conversation(true, [], id), d.store)
      && ClearConversationEndpoint(d.store, id) == d
  {
  }

  /** A "hello" to conversation "t1" on a fresh store, whose inference answers
      "hi there", returns that reply, which becomes the conversation's only
      entry. */
  lemma HelloScenario(infer: Inference, freshId: string, timestamp: string)
    requires infer(Empty, "hello") == Reply("hi there")
    ensures var c := HandleChat(Empty, Some(map["message" := "hello", "conversation_id" := "t1"]),
                                freshId, infer, timestamp);
      && c.status == StatusOk
      && c.payload == Chat(ProcessResult(true, Text("hi there"), None, "t1"))
      && GetConversationEndpoint(c.store, "t1").payload.conversation == [Text("hi there")]
      && ListConversationsEndpoint(c.store).payload.conversations == ["t1"]
  {
  }

  /** A chat on a fresh store whose inference raises an error still answers
      200, reports the wrapped failure, and records one error entry. */
  lemma NetworkErrorScenario(infer: Inference, freshId: string, timestamp: string, detail: string)
    requires infer(Empty, "hello") == Raised(detail)
    ensures var c := HandleChat(Empty, Some(map["message" := "hello"]), freshId, infer, timestamp);
      && c.status == StatusOk
      && c.payload.result.conversationId == freshId
      && !c.payload.result.success
      && c.payload.result.error == Some(BedrockErrorPrefix + detail)
      && GetConversationEndpoint(c.store, freshId).payload.conversation
         == [ErrorEntry(ApologyPrefix + BedrockErrorPrefix + detail, [], timestamp)]
  {
    var body := map["message" := "hello"];
    assert "conversation_id" !in body && body["message"] == "hello";
    assert !LacksMessage(Some(body));
    var e := BedrockErrorPrefix + detail;
    assert BedrockResponse(infer(Empty, "hello")) == Failure(e);
    assert ApologyPrefix + BedrockErrorPrefix + detail == ApologyPrefix + e;
  }
}
