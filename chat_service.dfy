/**
 * `ChatService`'s in-memory session store: one message history per session id,
 * created on first use and handed back, the same object, on every later request.
 */
module ChatSessions {

  /** Insert `v` under `k` unless `k` is already present; present entries are never replaced. */
  function InsertIfAbsent<K, V>(m: map<K, V>, k: K, v: V): (r: map<K, V>)
    ensures r.Keys == m.Keys + {k}
    ensures forall j :: j in m ==> r[j] == m[j]
    ensures k in m ==> r == m
    ensures k !in m ==> r[k] == v
  {
    if k in m then m else m[k := v]
  }

  /** The store gains exactly one session when the key is new and none otherwise. */
  lemma InsertIfAbsentSize<K, V>(m: map<K, V>, k: K, v: V)
    ensures |InsertIfAbsent(m, k, v)| == |m| + (if k in m then 0 else 1)
  {
    if k !in m {
      var r := m[k := v];
      assert r.Keys == m.Keys + {k};
      assert |r.Keys| == |m.Keys| + 1;
    }
  }

  /** Asking again for a session already inserted changes nothing. */
  lemma InsertIfAbsentIdempotent<K, V>(m: map<K, V>, k: K, v: V, w: V)
    ensures InsertIfAbsent(InsertIfAbsent(m, k, v), k, w) == InsertIfAbsent(m, k, v)
  {
  }

  /** A turn of the conversation, as the history records it. */
  datatype Turn = HumanTurn(text: string) | AiTurn(text: string)

  /** `ChatMessageHistory`: the turns of one session, in order. */
  class ChatMessageHistory {
    var messages: seq<Turn>

    constructor ()
      ensures messages == []
    {
      messages := [];
    }
  }

  /** The part of `ChatService` that keeps the histories. */
  class ChatService {
    var store: map<string, ChatMessageHistory>

    /** The store starts empty. */
    constructor ()
      ensures store == map[]
    {
      store := map[];
    }

    /** `get_session_history`: the session's history, created empty on first use. */
    method GetSessionHistory(sessionId: string) returns (h: ChatMessageHistory)
      modifies this
      ensures store == InsertIfAbsent(old(store), sessionId, h)
      ensures sessionId in store && store[sessionId] == h
      ensures sessionId in old(store) ==> h == old(store)[sessionId] && store == old(store)
      ensures sessionId !in old(store) ==> fresh(h) && h.messages == []
    {
      if sessionId !in store {
        var created := new ChatMessageHistory();
        store := store[sessionId := created];
      }
      h := store[sessionId];
    }
  }
}
