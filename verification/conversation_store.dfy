/** The process-wide conversation store of back/index.py: a dictionary from
    conversation id to the append-only list of entries recorded for it.

    A Python dict remembers the order in which its keys were inserted, and
    `list_conversations` reports the keys in that order, so the store is
    modelled as the map together with its key order. */
module ConversationStore {

  /** One recorded entry. A successful inference stores the reply text as is;
      a failed one stores a structured error record. */
  datatype Entry =
    | Text(text: string)
    | ErrorEntry(content: string, toolsUsed: seq<string>, timestamp: string)

  datatype Store = Store(order: seq<string>, conversations: map<string, seq<Entry>>)

  /** The store of a freshly started process. */
  const Empty: Store := Store([], map[])

  predicate Distinct(s: seq<string>) {
    forall i, j :: 0 <= i < j < |s| ==> s[i] != s[j]
  }

  /** The representation invariant: the key order lists every key exactly
      once, and a conversation exists only once something was added to it. */
  predicate Valid(st: Store) {
    && Distinct(st.order)
    && (forall k :: k in st.order ==> k in st.conversations)
    && (forall k :: k in st.conversations ==> k in st.order)
    && (forall k :: k in st.conversations ==> |st.conversations[k]| > 0)
  }

  lemma EmptyValid()
    ensures Valid(Empty)
    ensures forall k :: Get(Empty, k) == []
  {
  }

  /** `s` without any occurrence of `id`, the rest in the same order. */
  function RemoveKey(s: seq<string>, id: string): (r: seq<string>)
    ensures forall k :: k in r <==> k in s && k != id
    ensures |r| <= |s|
    ensures Distinct(s) ==> Distinct(r)
    ensures id !in s ==> r == s
  {
    if |s| == 0 then []
    else if s[0] == id then RemoveKey(s[1..], id)
    else
      var rest := RemoveKey(s[1..], id);
      assert Distinct(s) ==> s[0] !in rest;
      [s[0]] + rest
  }

  /** get_conversation: the entries of `id`, or none when it is absent. */
  function Get(st: Store, id: string): (r: seq<Entry>)
    ensures Valid(st) ==> (|r| > 0 <==> id in List(st))
  {
    if id in st.conversations then st.conversations[id] else []
  }

  /** add_message_to_conversation: create the conversation if it is missing,
      then append `e` to it. */
  function Add(st: Store, id: string, e: Entry): (r: Store)
    ensures Get(r, id) == Get(st, id) + [e]
    ensures forall k :: k != id ==> Get(r, k) == Get(st, k)
    ensures id in r.conversations
    ensures r.conversations.Keys == st.conversations.Keys + {id}
    ensures List(r) == if id in st.conversations then List(st) else List(st) + [id]
    ensures Valid(st) ==> Valid(r)
  {
    if id in st.conversations then
      Store(st.order, st.conversations[id := st.conversations[id] + [e]])
    else
      Store(st.order + [id], st.conversations[id := [e]])
  }

  /** clear_conversation: drop `id` and its entries; nothing happens when it
      is absent. */
  function Clear(st: Store, id: string): (r: Store)
    ensures Get(r, id) == []
    ensures id !in r.conversations
    ensures forall k :: k != id ==> Get(r, k) == Get(st, k)
    ensures r.conversations.Keys == st.conversations.Keys - {id}
    ensures id !in st.conversations ==> r == st
    ensures Valid(st) ==> List(r) == RemoveKey(List(st), id)
    ensures Valid(st) ==> Valid(r)
  {
    if id in st.conversations then
      Store(RemoveKey(st.order, id), st.conversations - {id})
    else
      st
  }

  /** list_conversations: the conversation ids, in insertion order. */
  function List(st: Store): (r: seq<string>)
    ensures Valid(st) ==> Distinct(r)
    ensures Valid(st) ==> forall k :: k in r <==> k in st.conversations
  {
    st.order
  }

  /** Clearing twice is the same as clearing once. */
  lemma ClearIdempotent(st: Store, id: string)
    ensures Clear(Clear(st, id), id) == Clear(st, id)
  {
  }

  /** Removing a key from a concatenation removes it from each part, so the
      remaining keys keep their relative order. */
  lemma {:induction false} RemoveKeyDistributes(a: seq<string>, b: seq<string>, id: string)
    ensures RemoveKey(a + b, id) == RemoveKey(a, id) + RemoveKey(b, id)
    decreases |a|
  {
    if |a| == 0 {
      assert a + b == b;
    } else {
      assert (a + b)[1..] == a[1..] + b;
      RemoveKeyDistributes(a[1..], b, id);
    }
  }

  /** Dropping the last element of a list that held it only there. */
  lemma {:induction false} RemoveKeyAppended(s: seq<string>, id: string)
    requires id !in s
    ensures RemoveKey(s + [id], id) == s
    decreases |s|
  {
    if |s| == 0 {
      assert s + [id] == [id];
    } else {
      assert (s + [id])[1..] == s[1..] + [id];
      RemoveKeyAppended(s[1..], id);
    }
  }

  /** Adding to a conversation that did not exist and then clearing it gives
      back the store as it was, key order included. */
  lemma AddThenClearRestores(st: Store, id: string, e: Entry)
    requires Valid(st)
    requires id !in st.conversations
    ensures Clear(Add(st, id, e), id) == st
  {
    RemoveKeyAppended(st.order, id);
    assert st.conversations[id := [e]] - {id} == st.conversations;
  }

  /** An id is listed after anything is added to it and not after it is
      cleared; no other id changes its listing. */
  lemma ListingAfterAddAndClear(st: Store, id: string, e: Entry)
    requires Valid(st)
    ensures id in List(Add(st, id, e))
    ensures id !in List(Clear(st, id))
    ensures forall k :: k != id ==> (k in List(Add(st, id, e)) <==> k in List(st))
    ensures forall k :: k != id ==> (k in List(Clear(st, id)) <==> k in List(st))
  {
  }
}
