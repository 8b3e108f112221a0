/** The message-processing orchestrator of back/index.py: one call to the
    remote inference endpoint, whose outcome is recorded in the conversation
    and reported back to the caller. */
module Orchestrator {
  import opened Wrappers
  import opened ConversationStore

  /** What the remote call yields: a parsed reply text, no response object
      at all, or an exception whose message is `detail` (network failure,
      provider error, malformed response body). */
  datatype RemoteReply = Reply(text: string) | NoResponse | Raised(detail: string)

  /** The remote inference call. The request payload serialises the whole
      store, every conversation in key-insertion order and not just the
      target one, together with the user's input, so the call is given both. */
  type Inference = (Store, string) -> RemoteReply

  const BedrockErrorPrefix: string := "Error calling bedrock: "
  const NoResponseMessage: string := "No response from bedrock"
  const ApologyPrefix: string := "I'm sorry, I encountered an error: "
  const DefaultConversationId: string := "default"

  /** The result record of process_message. On success `message` is the
      reply text; on failure it is the error entry and `error` holds the
      failure message. */
  datatype ProcessResult =
    ProcessResult(success: bool, message: Entry, error: Option<string>, conversationId: string)

  datatype Processed = Processed(result: ProcessResult, store: Store)

  /** The text left after `prefix`, when `s` starts with it. */
  function StripPrefix(prefix: string, s: string): (r: Option<string>)
    ensures r.Some? <==> prefix <= s
    ensures r.Some? ==> s == prefix + r.value
  {
    if prefix <= s then Some(s[|prefix|..]) else None
  }

  /** bedrock_response with the remote call done: any failure, the missing
      response included, is re-raised with the "Error calling bedrock: "
      prefix in front of the original message. */
  function BedrockResponse(reply: RemoteReply): (r: Result<string, string>)
    ensures r.Success? <==> reply.Reply?
    ensures reply.Reply? ==> r.value == reply.text
    ensures r.Failure? ==> BedrockErrorPrefix <= r.error
    ensures reply.Raised? ==> StripPrefix(BedrockErrorPrefix, r.error) == Some(reply.detail)
    ensures reply.NoResponse? ==> StripPrefix(BedrockErrorPrefix, r.error) == Some(NoResponseMessage)
  {
    match reply
    case Reply(text) => Success(text)
    case NoResponse => Failure(BedrockErrorPrefix + NoResponseMessage)
    case Raised(detail) => Failure(BedrockErrorPrefix + detail)
  }

  /** The entry recorded for a failed inference. */
  function ErrorEntryFor(error: string, timestamp: string): (r: Entry)
    ensures r.ErrorEntry? && r.toolsUsed == [] && r.timestamp == timestamp
    ensures StripPrefix(ApologyPrefix, r.content) == Some(error)
  {
    ErrorEntry(ApologyPrefix + error, [], timestamp)
  }

  /** process_message: ask for a reply using the store as it stands, then
      append the reply text, or an error entry stamped with `timestamp`, to
      conversation `conversationId`. */
  function ProcessMessage(st: Store, userInput: string, conversationId: string,
                          infer: Inference, timestamp: string): (r: Processed)
    ensures r.result.conversationId == conversationId
    ensures r.result.success <==> infer(st, userInput).Reply?
    ensures r.result.success <==> r.result.error.None?
    ensures Get(r.store, conversationId) == Get(st, conversationId) + [r.result.message]
    ensures forall k :: k != conversationId ==> Get(r.store, k) == Get(st, k)
    ensures r.store.conversations.Keys == st.conversations.Keys + {conversationId}
    ensures List(r.store) == if conversationId in st.conversations then List(st) else List(st) + [conversationId]
    ensures Valid(st) ==> Valid(r.store)
  {
    match BedrockResponse(infer(st, userInput))
    case Success(text) =>
      Processed(ProcessResult(true, Text(text), None, conversationId),
                Add(st, conversationId, Text(text)))
    case Failure(e) =>
      var entry := ErrorEntryFor(e, timestamp);
      Processed(ProcessResult(false, entry, Some(e), conversationId),
                Add(st, conversationId, entry))
  }

  /** process_message called without a conversation id. */
  function ProcessMessageDefault(st: Store, userInput: string, infer: Inference,
                                 timestamp: string): (r: Processed)
    ensures r.result.conversationId == DefaultConversationId
    ensures |Get(r.store, DefaultConversationId)| == |Get(st, DefaultConversationId)| + 1
  {
    ProcessMessage(st, userInput, DefaultConversationId, infer, timestamp)
  }

  /** A successful inference appends exactly the reply text and returns it. */
  lemma ProcessMessageOnReply(st: Store, userInput: string, conversationId: string,
                              infer: Inference, timestamp: string, text: string)
    requires infer(st, userInput) == Reply(text)
    ensures var r := ProcessMessage(st, userInput, conversationId, infer, timestamp);
      && r.result == ProcessResult(true, Text(text), None, conversationId)
      && Get(r.store, conversationId) == Get(st, conversationId) + [Text(text)]
  {
  }

  /** A failed inference appends an apology entry carrying the wrapped
      failure message and no tools, and returns that same entry together
      with the message. */
  lemma ProcessMessageOnFailure(st: Store, userInput: string, conversationId: string,
                                infer: Inference, timestamp: string)
    requires !infer(st, userInput).Reply?
    ensures var r := ProcessMessage(st, userInput, conversationId, infer, timestamp);
      && !r.result.success
      && r.result.error == Some(BedrockResponse(infer(st, userInput)).error)
      && BedrockErrorPrefix <= r.result.error.value
      && r.result.message == ErrorEntry(ApologyPrefix + r.result.error.value, [], timestamp)
      && Get(r.store, conversationId) == Get(st, conversationId) + [r.result.message]
  {
  }

  /** Whatever the outcome, the target conversation grows by one entry and
      is listed afterwards. */
  lemma ProcessMessageGrowsByOne(st: Store, userInput: string, conversationId: string,
                                 infer: Inference, timestamp: string)
    requires Valid(st)
    ensures var r := ProcessMessage(st, userInput, conversationId, infer, timestamp);
      && |Get(r.store, conversationId)| == |Get(st, conversationId)| + 1
      && conversationId in List(r.store)
  {
  }
}
