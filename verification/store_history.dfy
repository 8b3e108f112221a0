/** An independent account of the conversation store: what a conversation
    holds, and whether it is listed, after any sequence of appends and
    deletions applied to a freshly started process. */
module StoreHistory {
  import opened ConversationStore

  /** A store mutation: add_message_to_conversation or clear_conversation. */
  datatype Op = Append(id: string, entry: Entry) | Delete(id: string)

  function Apply(st: Store, op: Op): Store {
    match op
    case Append(id, e) => Add(st, id, e)
    case Delete(id) => Clear(st, id)
  }

  /** The store after applying `ops`, oldest first, to the empty store. */
  function Replay(ops: seq<Op>): (r: Store)
    ensures Valid(r)
  {
    if |ops| == 0 then
      EmptyValid();
      Empty
    else
      Apply(Replay(ops[..|ops| - 1]), ops[|ops| - 1])
  }

  /** Reference definition: the entries appended to `id` since it was last
      deleted, in the order they were appended. */
  function Since(ops: seq<Op>, id: string): seq<Entry> {
    if |ops| == 0 then []
    else
      var earlier := Since(ops[..|ops| - 1], id);
      match ops[|ops| - 1]
      case Append(k, e) => if k == id then earlier + [e] else earlier
      case Delete(k) => if k == id then [] else earlier
  }

  /** `id` received an append that no later deletion of `id` undid. */
  predicate Received(ops: seq<Op>, id: string) {
    exists i :: 0 <= i < |ops| && ops[i].Append? && ops[i].id == id &&
      forall j :: i < j < |ops| ==> ops[j] != Delete(id)
  }

  /** Every conversation holds exactly the entries appended to it since its
      last deletion. */
  lemma {:induction false} ReplayMatchesHistory(ops: seq<Op>, id: string)
    ensures Get(Replay(ops), id) == Since(ops, id)
    decreases |ops|
  {
    if |ops| > 0 {
      ReplayMatchesHistory(ops[..|ops| - 1], id);
    }
  }

  /** The reference history is non-empty exactly when an append survives. */
  lemma {:induction false} SinceNonEmptyIffReceived(ops: seq<Op>, id: string)
    ensures |Since(ops, id)| > 0 <==> Received(ops, id)
    decreases |ops|
  {
    if |ops| > 0 {
      var n := |ops| - 1;
      var earlier := ops[..n];
      SinceNonEmptyIffReceived(earlier, id);
      if Received(ops, id) {
        var i :| 0 <= i < |ops| && ops[i].Append? && ops[i].id == id &&
          forall j :: i < j < |ops| ==> ops[j] != Delete(id);
        if i < n {
          assert earlier[i] == ops[i];
          assert forall j :: i < j < |earlier| ==> earlier[j] != Delete(id) by {
            forall j | i < j < |earlier| ensures earlier[j] != Delete(id) {
              assert earlier[j] == ops[j];
            }
          }
          assert Received(earlier, id);
        }
      }
      if Received(earlier, id) && ops[n] != Delete(id) {
        var i :| 0 <= i < |earlier| && earlier[i].Append? && earlier[i].id == id &&
          forall j :: i < j < |earlier| ==> earlier[j] != Delete(id);
        assert ops[i] == earlier[i];
        assert forall j :: i < j < |ops| ==> ops[j] != Delete(id) by {
          forall j | i < j < |ops| ensures ops[j] != Delete(id) {
            if j < n { assert ops[j] == earlier[j]; }
          }
        }
        assert Received(ops, id);
      }
      if ops[n].Append? && ops[n].id == id {
        assert Received(ops, id);
      }
    }
  }

  /** The list of conversations names exactly the ids that received an
      append not undone by a later deletion. */
  lemma ListedIffReceived(ops: seq<Op>, id: string)
    ensures id in List(Replay(ops)) <==> Received(ops, id)
  {
    ReplayMatchesHistory(ops, id);
    SinceNonEmptyIffReceived(ops, id);
  }
}
