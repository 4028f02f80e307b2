/**
 * The conversation store (connectors/mongo_connector.py) as the documented semantics of the three
 * document-store calls it makes on one collection keyed by session id: `update_one` with
 * `upsert=True`, `$setOnInsert`, `$set` and `$push` appends a message, creating the conversation
 * when absent; `find_one` with a `$slice` projection reads a window of messages; `delete_one`
 * removes the conversation. The pure functions below state those semantics on a map; the class
 * holds the map and performs the calls.
 */
module ConversationStore {
  import opened Chat

  /** A clock reading (`datetime.now()`), supplied by the caller. */
  type Time = int

  /** A persisted message: its role, its text and when it was written. */
  datatype StoredMessage = StoredMessage(role: Role, content: string, timestamp: Time)

  /** The document kept per session. */
  datatype Conversation = Conversation(createdAt: Time, updatedAt: Time, messages: seq<StoredMessage>)

  /** The collection: at most one conversation per session id. */
  type Collection = map<string, Conversation>

  function Min(a: int, b: int): int {
    if a <= b then a else b
  }

  /** The messages of a session, empty when it has no conversation. */
  function Messages(db: Collection, sessionId: string): seq<StoredMessage> {
    if sessionId in db then db[sessionId].messages else []
  }

  // ---------------------------------------------------------------------------------------------
  // save_message: upsert + $push

  /** The collection after `save_message`: the session's conversation is created if absent
      (creation time = now), its modification time becomes now, the new message goes at the end;
      no other session is touched. */
  function Upsert(db: Collection, sessionId: string, role: Role, content: string, now: Time): (r: Collection)
    ensures r.Keys == db.Keys + {sessionId}
    ensures sessionId !in db ==> r[sessionId] == Conversation(now, now, [StoredMessage(role, content, now)])
    ensures sessionId in db ==>
      && r[sessionId].createdAt == db[sessionId].createdAt
      && r[sessionId].updatedAt == now
      && r[sessionId].messages == db[sessionId].messages + [StoredMessage(role, content, now)]
    ensures forall other :: other in db && other != sessionId ==> r[other] == db[other]
  {
    var message := StoredMessage(role, content, now);
    if sessionId in db then
      db[sessionId := db[sessionId].(updatedAt := now, messages := db[sessionId].messages + [message])]
    else
      db[sessionId := Conversation(now, now, [message])]
  }

  /** Saving appends exactly one message to the session and leaves every other session's messages
      as they were. */
  lemma SaveAppendsOneMessage(db: Collection, sessionId: string, role: Role, content: string, now: Time)
    ensures Messages(Upsert(db, sessionId, role, content, now), sessionId)
         == Messages(db, sessionId) + [StoredMessage(role, content, now)]
    ensures forall other :: other != sessionId ==>
      Messages(Upsert(db, sessionId, role, content, now), other) == Messages(db, other)
  {
  }

  // ---------------------------------------------------------------------------------------------
  // get_history: find_one with {"messages": {"$slice": -limit}}, projected to role and content

  /** The `$slice: n` projection of an array: the first `n` elements for `n >= 0` (none for 0),
      the last `-n` elements for `n < 0`, never more than there are. */
  function SliceProjection<T>(s: seq<T>, n: int): seq<T> {
    if n >= 0 then s[..Min(n, |s|)] else s[|s| - Min(-n, |s|)..]
  }

  /** `{"role": msg["role"], "content": msg["content"]}`: the timestamp is dropped. */
  function Project(m: StoredMessage): ChatMessage {
    ChatMessage(m.role, m.content)
  }

  /** What `get_history(sessionId, limit)` returns: nothing for a session without conversation;
      for `limit > 0` the last `min(limit, n)` messages in chronological order, projected; for
      `limit = 0` nothing; for `limit < 0` the first `min(-limit, n)` messages. */
  function History(db: Collection, sessionId: string, limit: int): (r: seq<ChatMessage>)
    ensures sessionId !in db ==> r == []
    ensures limit == 0 ==> r == []
    ensures limit > 0 ==> IsLastWindow(r, Messages(db, sessionId), limit)
    ensures limit < 0 ==> IsFirstWindow(r, Messages(db, sessionId), -limit)
  {
    if sessionId in db then
      var msgs := db[sessionId].messages;
      ProjectedSliceWindow(msgs, -limit);
      ProjectAll(SliceProjection(msgs, -limit))
    else []
  }

  /** `r` is the projection of the last `min(n, |msgs|)` of `msgs`, in order. */
  predicate IsLastWindow(r: seq<ChatMessage>, msgs: seq<StoredMessage>, n: int) {
    && |r| == Min(n, |msgs|)
    && forall k :: 0 <= k < |r| ==> r[k] == Project(msgs[|msgs| - |r| + k])
  }

  /** `r` is the projection of the first `min(n, |msgs|)` of `msgs`, in order. */
  predicate IsFirstWindow(r: seq<ChatMessage>, msgs: seq<StoredMessage>, n: int) {
    && |r| == Min(n, |msgs|)
    && forall k :: 0 <= k < |r| ==> r[k] == Project(msgs[k])
  }

  /** What the projected `$slice: n` keeps, position by position. */
  lemma ProjectedSliceWindow(msgs: seq<StoredMessage>, n: int)
    ensures n < 0 ==> IsLastWindow(ProjectAll(SliceProjection(msgs, n)), msgs, -n)
    ensures n >= 0 ==> IsFirstWindow(ProjectAll(SliceProjection(msgs, n)), msgs, n)
  {
  }

  function ProjectAll(msgs: seq<StoredMessage>): (r: seq<ChatMessage>)
    ensures |r| == |msgs|
    ensures forall k :: 0 <= k < |msgs| ==> r[k] == Project(msgs[k])
  {
    seq(|msgs|, k requires 0 <= k < |msgs| => Project(msgs[k]))
  }

  /** The last `min(n, |s|)` elements of `s`. */
  function LastN<T>(s: seq<T>, n: nat): seq<T> {
    s[|s| - Min(n, |s|)..]
  }

  /** A positive window is the projection of the last `limit` messages. */
  lemma HistoryIsLastN(db: Collection, sessionId: string, limit: int)
    requires limit > 0
    ensures History(db, sessionId, limit) == ProjectAll(LastN(Messages(db, sessionId), limit))
  {
  }

  /** Each message is projected on its own, so projection distributes over concatenation. */
  lemma ProjectAllConcat(a: seq<StoredMessage>, b: seq<StoredMessage>)
    ensures ProjectAll(a + b) == ProjectAll(a) + ProjectAll(b)
  {
    var l, r := ProjectAll(a + b), ProjectAll(a) + ProjectAll(b);
    forall k | 0 <= k < |l| ensures l[k] == r[k] {
      if k < |a| {
        assert (a + b)[k] == a[k];
      } else {
        assert (a + b)[k] == b[k - |a|];
      }
    }
  }

  lemma ProjectAllAppend(a: seq<StoredMessage>, m: StoredMessage)
    ensures ProjectAll(a + [m]) == ProjectAll(a) + [Project(m)]
  {
  }

  lemma ProjectAllLastN(msgs: seq<StoredMessage>, n: nat)
    ensures ProjectAll(LastN(msgs, n)) == LastN(ProjectAll(msgs), n)
  {
  }

  /** Appending to a sequence and keeping the last `n` only needs the last `n` of the old one. */
  lemma LastNAppend<T>(s: seq<T>, x: T, n: nat)
    requires n > 0
    ensures LastN(s + [x], n) == LastN(LastN(s, n) + [x], n)
  {
    if |s| < n {
      assert LastN(s, n) == s;
    } else {
      var t := s[|s| - n..];
      assert LastN(s, n) == t;
      assert LastN(s + [x], n) == (s + [x])[|s| + 1 - n..] == s[|s| + 1 - n..] + [x];
      assert LastN(t + [x], n) == (t + [x])[1..] == t[1..] + [x];
      assert t[1..] == s[|s| + 1 - n..];
    }
  }

  /** Reading after a save slides the window: it is the previous window with the new message
      added, cut back to the limit. */
  lemma HistoryAfterSave(db: Collection, sessionId: string, role: Role, content: string, now: Time, limit: int)
    requires limit > 0
    ensures History(Upsert(db, sessionId, role, content, now), sessionId, limit)
         == LastN(History(db, sessionId, limit) + [ChatMessage(role, content)], limit)
  {
    var message := StoredMessage(role, content, now);
    var before := Messages(db, sessionId);
    var db' := Upsert(db, sessionId, role, content, now);
    SaveAppendsOneMessage(db, sessionId, role, content, now);
    HistoryIsLastN(db', sessionId, limit);
    HistoryIsLastN(db, sessionId, limit);
    LastNAppend(before, message, limit);
    ProjectAllLastN(LastN(before, limit) + [message], limit);
    ProjectAllAppend(LastN(before, limit), message);
  }

  /** Right after a message is saved, the latest entry of any positive window is that message. */
  lemma SavedMessageIsLatest(db: Collection, sessionId: string, role: Role, content: string, now: Time, limit: int)
    requires limit > 0
    ensures var h := History(Upsert(db, sessionId, role, content, now), sessionId, limit);
      h != [] && h[|h| - 1] == ChatMessage(role, content)
  {
    SaveAppendsOneMessage(db, sessionId, role, content, now);
  }

  /** The first message of a session creates its conversation with exactly that message. */
  lemma FirstSaveCreatesConversation(db: Collection, sessionId: string, role: Role, content: string, now: Time, limit: int)
    requires sessionId !in db && limit > 0
    ensures History(Upsert(db, sessionId, role, content, now), sessionId, limit) == [ChatMessage(role, content)]
  {
    SavedMessageIsLatest(db, sessionId, role, content, now, limit);
  }

  // ---------------------------------------------------------------------------------------------
  // clear_session: delete_one

  /** The collection after `clear_session`: the session's conversation is gone, the others stay. */
  function Delete(db: Collection, sessionId: string): (r: Collection)
    ensures r.Keys == db.Keys - {sessionId}
    ensures forall other :: other in r ==> r[other] == db[other]
  {
    db - {sessionId}
  }

  /** A cleared session reads back as empty, whatever the limit. */
  lemma ClearedHistoryIsEmpty(db: Collection, sessionId: string, limit: int)
    ensures History(Delete(db, sessionId), sessionId, limit) == []
  {
  }

  /** Clearing twice is clearing once, and clearing an absent session changes nothing. */
  lemma ClearIsIdempotent(db: Collection, sessionId: string)
    ensures Delete(Delete(db, sessionId), sessionId) == Delete(db, sessionId)
    ensures sessionId !in db ==> Delete(db, sessionId) == db
  {
  }

  /** The store object: the conversations collection and the three calls on it. */
  class MongoConnector {
    var conversations: Collection

    constructor ()
      ensures conversations == map[]
    {
      conversations := map[];
    }

    /** `save_message(session_id, role, content)`, at clock reading `now`. */
    method SaveMessage(sessionId: string, role: Role, content: string, now: Time)
      modifies this
      ensures conversations == Upsert(old(conversations), sessionId, role, content, now)
      ensures Messages(conversations, sessionId) == Messages(old(conversations), sessionId) + [StoredMessage(role, content, now)]
      ensures forall other :: other != sessionId ==> Messages(conversations, other) == Messages(old(conversations), other)
    {
      SaveAppendsOneMessage(conversations, sessionId, role, content, now);
      conversations := Upsert(conversations, sessionId, role, content, now);
    }

    /** `get_history(session_id, limit)`. */
    function GetHistory(sessionId: string, limit: int): (r: seq<ChatMessage>)
      reads this
      ensures r == History(conversations, sessionId, limit)
      ensures limit > 0 ==> |r| <= limit
    {
      History(conversations, sessionId, limit)
    }

    /** `clear_session(session_id)`. */
    method ClearSession(sessionId: string)
      modifies this
      ensures conversations == Delete(old(conversations), sessionId)
      ensures forall limit :: GetHistory(sessionId, limit) == []
    {
      conversations := Delete(conversations, sessionId);
    }
  }
}
