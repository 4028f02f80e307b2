/**
 * The memory service (services/memory_service.py): the layer the orchestrator uses to write and
 * read a session's conversation. It fixes the role of each message it saves and always reads
 * with the configured history window.
 */
module Memory {
  import opened Settings
  import opened Chat
  import opened ConversationStore

  class MemoryService {
    const mongo: MongoConnector
    /** Number of most recent messages read back (`settings.conversation_history_limit`). */
    const historyLimit: int := ConversationHistoryLimit

    constructor (mongo: MongoConnector)
      ensures this.mongo == mongo
    {
      this.mongo := mongo;
    }

    /** `save_user_message`: one message with role user is appended to the session. */
    method SaveUserMessage(sessionId: string, content: string, now: Time)
      modifies mongo
      ensures mongo.conversations == Upsert(old(mongo.conversations), sessionId, User, content, now)
      ensures Messages(mongo.conversations, sessionId)
           == Messages(old(mongo.conversations), sessionId) + [StoredMessage(User, content, now)]
      ensures GetConversationHistory(sessionId) != []
      ensures GetConversationHistory(sessionId)[|GetConversationHistory(sessionId)| - 1] == ChatMessage(User, content)
    {
      mongo.SaveMessage(sessionId, User, content, now);
      SavedMessageIsLatest(old(mongo.conversations), sessionId, User, content, now, historyLimit);
    }

    /** `save_assistant_message`: one message with role assistant is appended to the session. */
    method SaveAssistantMessage(sessionId: string, content: string, now: Time)
      modifies mongo
      ensures mongo.conversations == Upsert(old(mongo.conversations), sessionId, Assistant, content, now)
      ensures Messages(mongo.conversations, sessionId)
           == Messages(old(mongo.conversations), sessionId) + [StoredMessage(Assistant, content, now)]
    {
      mongo.SaveMessage(sessionId, Assistant, content, now);
    }

    /** `get_conversation_history`: the session's most recent messages, at most `historyLimit` of
        them, oldest first. */
    function GetConversationHistory(sessionId: string): (r: seq<ChatMessage>)
      reads mongo
      ensures |r| <= historyLimit
      ensures var msgs := Messages(mongo.conversations, sessionId);
        && |r| == Min(historyLimit, |msgs|)
        && forall k :: 0 <= k < |r| ==> r[k] == Project(msgs[|msgs| - |r| + k])
    {
      mongo.GetHistory(sessionId, historyLimit)
    }

    /** `clear_conversation`: the session's whole conversation is removed. */
    method ClearConversation(sessionId: string)
      modifies mongo
      ensures mongo.conversations == Delete(old(mongo.conversations), sessionId)
      ensures GetConversationHistory(sessionId) == []
    {
      mongo.ClearSession(sessionId);
    }
  }
}
