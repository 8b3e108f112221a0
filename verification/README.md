# Conversation relay: store, orchestrator and request handlers

A Dafny model of the local logic of a small chat-relay service. The service
keeps an in-memory map from conversation id to the entries recorded for that
conversation, forwards each user message to a remote language-model
inference endpoint, records the reply (or an error entry when the call
fails), and exposes the store through five HTTP handlers.

- `wrappers.dfy` (`Wrappers`): `Option` and `Result`.
- `conversation_store.dfy` (`ConversationStore`): the `conversations`
  dictionary of `back/index.py` and its four operations, `Get`, `Add`,
  `Clear` and `List`. A Python dict keeps its keys in insertion order and
  `list_conversations` reports them in that order, so a `Store` is the map
  plus its key order. `Valid` is the invariant every operation keeps: each
  key is listed exactly once, and every stored conversation is non-empty.
  Entries come in the two shapes the code stores: the raw reply text
  (`Text`), or an error record with content, tools used and timestamp
  (`ErrorEntry`).
- `store_history.dfy` (`StoreHistory`): an independent reference for the
  store. `Since(ops, id)` is the list of entries appended to `id` after its
  last deletion. `Received(ops, id)` says some append to `id` was not undone
  by a later deletion. Both are proved to agree with replaying the operations
  on an empty store.
- `orchestrator.dfy` (`Orchestrator`): `bedrock_response` reduced to its
  error contract (`BedrockResponse`), and `process_message`
  (`ProcessMessage`).
- `api.dfy` (`Api`): the handlers of `back/app.py`. Each is a function from
  the request and the store to a `Response`, which holds the status, the
  JSON body and the new store.

Three inputs are parameters of the model. The remote inference call is a
function `Inference` from (the whole store, the user input) to a
`RemoteReply`: `Reply(text)`, `NoResponse` or `Raised(detail)`. The store is
included because the request payload serialises every conversation, in
key-insertion order, not only the target one. The timestamp that `datetime.now()` supplies is a string
parameter, and so is the fresh id that `uuid.uuid4()` supplies.

In three places the model keeps the code's behaviour where a reader might
expect otherwise:
- The stored entries are not normalised to one message shape. A success
  stores the raw text, and a failure stores an error record.
- The 400 response body is `{error}` with no `success` field.
- Conversation ids are listed in the order their keys entered the dict, as a
  Python dict keeps its keys, not sorted or otherwise reordered.

## Model

| member | source | states |
|---|---|---|
| ConversationStore.EmptyValid | back/index.py:39 | the store a process starts with satisfies the invariant and every conversation in it reads as empty |
| ConversationStore.RemoveKey | back/index.py:52-54 | deleting a key from the dictionary's key order keeps every other key, drops that key, and keeps the keys distinct |
| ConversationStore.RemoveKeyDistributes | back/index.py:52-54 | removing a key from a concatenation removes it from each part, so the remaining keys keep their relative order |
| ConversationStore.Get | back/index.py:44-45 | a conversation reads as non-empty exactly when its id is listed |
| ConversationStore.Add | back/index.py:47-50 | the target conversation becomes its old entries (none if absent) followed by the new one; the key is created when missing and goes to the end of the key order; every other conversation is unchanged; the invariant is kept |
| ConversationStore.Clear | back/index.py:52-54 | the key is gone and the conversation reads as empty; other conversations are unchanged; the listing is the old one with that id removed and the rest in their order; an absent key leaves the store exactly as it was; the invariant is kept |
| ConversationStore.List | back/index.py:56-57 | the listed ids are exactly the stored keys, each listed once |
| ConversationStore.ClearIdempotent | back/index.py:52-54 | clearing twice equals clearing once |
| ConversationStore.AddThenClearRestores | back/index.py:47-54 | adding to a new conversation and then clearing it restores the previous store, key order included |
| ConversationStore.ListingAfterAddAndClear | back/index.py:47-57 | an id is listed after an add to it and not after clearing it; no other id's listing changes |
| StoreHistory.Replay | back/index.py:39-57 | any sequence of adds and clears applied to the starting store yields a store that satisfies the invariant |
| StoreHistory.ReplayMatchesHistory | back/index.py:44-54 | after any sequence of adds and clears, each conversation holds exactly the entries appended since its last clear, in order |
| StoreHistory.ListedIffReceived | back/index.py:47-57 | an id is listed exactly when it received an add that no later clear undid |
| Orchestrator.BedrockResponse | back/index.py:119-128 | a parsed reply is returned as is; every failure, including a missing response, carries the "Error calling bedrock: " prefix followed by the original message |
| Orchestrator.ErrorEntryFor | back/index.py:73-77 | the error entry's content is the apology prefix followed by the error; it has no tools and carries the given timestamp |
| Orchestrator.ProcessMessage | back/index.py:59-86 | the result echoes the conversation id; it succeeds exactly when the remote call yields a reply and has an error exactly when it fails; the target conversation gains exactly the returned message; other conversations are unchanged; a new id goes to the end of the listing and the other ids keep their order |
| Orchestrator.ProcessMessageDefault | back/index.py:59 | without an id, the message goes to conversation "default", which grows by one entry |
| Orchestrator.ProcessMessageOnReply | back/index.py:62-70 | on a reply, the text is appended and returned with success and the echoed id |
| Orchestrator.ProcessMessageOnFailure | back/index.py:72-86 | on a failure, the apology entry with the prefixed error, no tools and the timestamp is appended and returned, together with the error |
| Orchestrator.ProcessMessageGrowsByOne | back/index.py:62-86 | in both outcomes the target conversation grows by exactly one entry and is listed |
| Api.HealthCheck | back/app.py:9-12 | always the constant healthy body with status 200, and the store is untouched |
| Api.HandleChat | back/app.py:14-27 | a JSON body that is `null` or another falsy value, an empty object, or an object without "message" gets 400 and the fixed error, with the store unchanged; otherwise status 200 with process_message's result unchanged, even for a failed inference, under the body's conversation id or else the fresh id, which goes to the end of the listing when new while the other ids keep their order |
| Api.GetConversationEndpoint | back/app.py:35-44 | success with the echoed id and exactly the stored entries of that id (none when absent); the conversation is non-empty exactly when the id is listed; the store is unchanged |
| Api.ClearConversationEndpoint | back/app.py:51-59 | success with "Conversation cleared" whether or not the id existed; the id is gone and the others are unchanged and keep their listing order; an absent id leaves the store exactly as it was |
| Api.ListConversationsEndpoint | back/app.py:66-74 | success with exactly the stored ids, each once, in the order their keys entered the store; the store is unchanged |
| Api.ChatThenGetHasOneMore | back/app.py:19-44 | a chat with a message answers 200, and reading its conversation afterwards shows one more entry than before |
| Api.DeleteThenGetIsEmpty | back/app.py:36-59 | reading a deleted conversation gives an empty conversation, not an error, and deleting again changes nothing |
| Api.HelloScenario | back/app.py:14-44 | "hello" to "t1" answered "hi there" returns that reply; "t1" then holds just that entry and is the only listed id |
| Api.NetworkErrorScenario | back/app.py:14-27 | a raised remote error still answers 200 under the fresh id, reports the prefixed error, and records one error entry |

## Left out

- The Bedrock client and `invoke_model` (back/index.py:38, back/index.py:113-117): a remote network call. It is the `Inference` parameter.
- Building the request payload with `json.dumps` and parsing the response (back/index.py:93-110, back/index.py:120-121): foreign serialisation. A parsed text is `Reply(text)`. A parsing failure, such as a missing key, is `Raised(detail)` with the exception text.
- The system prompt, the model id and the sampling parameters (back/index.py:10-33, back/index.py:107-108, back/index.py:114): constant data and floating-point values.
- `datetime.now()` (back/index.py:41-42) and `uuid.uuid4()` (back/app.py:23): nondeterministic. They are the `timestamp` and `freshId` parameters.
- Flask routing, `jsonify`, CORS, `app.run` and the `print` calls: HTTP and I/O plumbing.
- The catch-all 500 branches (back/app.py:29-33, 45-49, 60-64, 75-79): they fire only on unforeseen runtime exceptions, which the model does not have. This includes the exception `request.get_json()` raises for an absent body, a body that is not JSON, or a request whose content type is not JSON; those requests get 500, not 400.
- Chat bodies that are JSON but not objects, and object fields that are not strings. For example, Python's `in` on a list or a string body, or a `null` conversation id that becomes the dictionary key `None`. `ChatBody` is an optional map from strings to strings.
- Concurrent access to the unsynchronised global dictionary: the model is sequential.
- back/Models/message.py: a record that copies three fields and serialises them, with nothing to verify. Its field names inform `ErrorEntry`.
- The `__main__` blocks (back/index.py:130-132, back/app.py:81-87): manual start-up code.
