# CV question-answering service: the read-time pipeline

This project models the core of a FastAPI service that answers questions about one CV. The
service uses retrieval-augmented generation: it keeps a per-session conversation in a document
store and answers each question from chunks of the CV found by vector search.

The modelled core has four parts:

- **The orchestrator** (`services/rag_service.py`):
  - it decides whether a question is vague;
  - it rewrites a vague question with the chat model and the conversation history;
  - `process_question` saves the question, retrieves grounding, asks the chat model and saves the
    answer.
- **The retrieval layer** (`services/embedding_service.py`):
  - semantic search embeds the question, asks the vector index for `k` neighbours within the CV
    source, and keeps the hits whose distance is at most 0.7;
  - the context formatter renders each hit as `[section]: text` and joins them with blank lines.
- **The conversation store** (`connectors/mongo_connector.py`):
  - an upsert that appends a message;
  - a read of the last `limit` messages, projected to role and content;
  - a delete.
- **The memory service** (`services/memory_service.py`): fixes the role of each saved message and
  always reads with the configured window of 10.

Layout:

| file | module | contents |
|---|---|---|
| `wrappers.dfy` | `Wrappers` | Option and Result |
| `settings.dfy` | `Settings` | the configuration defaults the core reads |
| `strings.dfy` | `Strings` | Python's `lower`, `in`, `split`, `strip` and `join` on `seq<char>` |
| `chat.dfy` | `Chat` | messages, requests, and the `ChatClient` object |
| `retrieval.dfy` | `Retrieval` | semantic search and context formatting |
| `store.dfy` | `ConversationStore` | the store semantics on a map, and the `MongoConnector` class |
| `memory.dfy` | `Memory` | the `MemoryService` class |
| `rag.dfy` | `Rag` | vagueness, rewriting, `Pipeline` and the `RAGService` class |

External services become values:

- **The chat model** is the `respond` function held by `ChatClient`. It maps a request to a reply
  or to the error the call raises. The client also logs every request it is given, which is how
  calls are counted.
- **Embedding and vector search** are two functions in a `VectorIndex`. Either can fail, and a
  failure propagates as `Failure`, as an exception does in the code.
- **Clock readings** (`datetime.now()`) are `Time` parameters of the saving operations.

`Pipeline` is a pure function. It states what one `process_question` does once the history read
after saving the question is known: the result, and the exact chat requests in order.
`RAGService.ProcessQuestion` is an imperative method following the code step by step. It is proved
to return `Pipeline`'s result, to make `Pipeline`'s requests and to leave the store as `LogAfter`
says. The pipeline's promises are lemmas about `Pipeline`.

Three behaviours of the code are worth knowing:

- **The rewrite cleanup** is `strip().strip('"').strip("'")`. It removes every leading and trailing
  double quote, then every leading and trailing single quote. It does not remove just one matching pair
  of quotes. See `CleanRewriteStripsEveryDoubleQuote` and `CleanRewriteKeepsInnerDoubleQuotes`.
- **The retrieved context** goes into the final user turn, before the question. The system
  instruction is a fixed text.
- **The question is saved before the rewriter reads the history**, so that history always holds at
  least the question. The rewriter's "empty history: return the question" branch is therefore never
  taken from `process_question`: a vague first question of a new session still makes one rewrite
  call. See `FirstVagueQuestionIsRewritten`. The branch itself is modelled and
  `RewriteNoOpOnEmptyHistory` states it.

## Model

| member | source | states |
|---|---|---|
| Rag.AnyContained | services/rag_service.py:34 | `any(indicator in s ...)` is true exactly when some indicator occurs at some position of `s` |
| Rag.IsVagueQuery | services/rag_service.py:20-36 | a question is vague exactly when its lowercased text contains one of the 14 indicators as a substring, or fewer than 5 words start in it (a word starts at a non-whitespace character that is first or follows whitespace), for every input |
| Rag.WithIsVague | services/rag_service.py:26-34 | substring matching: any question containing "with" is vague, because "it" occurs inside it |
| Rag.FewTokensIsVague | services/rag_service.py:35 | a question of at most four words is vague whatever the words are |
| Rag.ClearQuestionIsNotVague | services/rag_service.py:33-36 | five or more words and no indicator anywhere in the lowercased text: not vague (the converse direction) |
| Rag.RewriteMessagesShape | services/rag_service.py:55-71 | the rewrite request is the system instruction, then all of the history except its latest entry, then the user turn quoting the question |
| Rag.CleanRewrite | services/rag_service.py:74 | the cleaned rewrite is no longer than the reply and neither starts nor ends with a single quote |
| Rag.CleanRewriteIsPieceOfReply | services/rag_service.py:74 | the cleaned rewrite is a contiguous piece of the model's reply |
| Rag.CleanRewriteStripsEveryDoubleQuote | services/rag_service.py:74 | a body wrapped in two double quotes on each side comes back as the bare body: whole runs of quotes are removed |
| Rag.CleanRewriteKeepsInnerDoubleQuotes | services/rag_service.py:74 | double quotes are stripped before single quotes, so `'"x"'` cleans to `"x"` |
| Rag.RewriteNoOpOnEmptyHistory | services/rag_service.py:49-52 | with an empty history the rewriter returns the question unchanged and makes no chat call |
| Rag.RAGService.RewriteQuery | services/rag_service.py:38-74 | the method returns the rewrite result for the history it reads, or the chat error; it makes no call for an empty history and one call at temperature 0.3 otherwise |
| Rag.AtMostTwoCalls | services/rag_service.py:90-143 | one run makes at most two chat calls, the rewrite and the answer, both at temperature 0.3 |
| Rag.AnsweringAddsAtMostOneRequest | services/rag_service.py:96-143 | after the search query is known, a run adds at most one request, at temperature 0.3 |
| Rag.EmptyRetrievalShortCircuits | services/rag_service.py:98-105 | when retrieval finds nothing, the answer is the fixed no-information text with 0 sources, and no answer request is made |
| Rag.SourcesCountIsHitCount | services/rag_service.py:143-151 | a successful answer's `sources_count` is the number of filtered hits, and the answer is the model's reply to the last request |
| Rag.ClearQuestionSearchedVerbatim | services/rag_service.py:91-96 | a question that is not vague is searched as it stands and causes no rewrite call: the run makes at most one request, and any request it makes opens with the answering instruction |
| Rag.AnsweringAsksOnlyToAnswer | services/rag_service.py:96-143 | after the search query is known, every request a run adds opens with the answering instruction |
| Rag.RewriteRequestIsNotAnswerRequest | services/rag_service.py:55-62 | a rewrite request opens with the rewriting instruction, so it is never taken for an answer request |
| Rag.AnswerMessagesShape | services/rag_service.py:114-140 | the answer request is the system instruction, the history without its latest entry, and a final user turn holding the context that ends with the original question |
| Rag.LastRequestAnswers | services/rag_service.py:107-143 | when retrieval finds hits, the last request of the run is the answer request built from their context |
| Rag.AnswerRequestUsesOriginalQuestion | services/rag_service.py:131-143 | the answer request uses the original question, never the rewritten query, after the history without its latest entry |
| Rag.RunAppendsToLog | services/rag_service.py:87-146 | a successful run appends the question and then the answer to the session's log; a failed run appends the question only; no other session changes |
| Rag.PromptHistoryIsPriorMessages | services/rag_service.py:110-131 | the history a run reads ends with the question just saved, and what the prompts include of it is exactly the nine messages stored before it |
| Rag.AllButLastOfLastN | services/rag_service.py:131 | dropping the latest entry of the last-`n` window over `xs + [x]` leaves the last-`(n-1)` window over `xs` |
| Rag.FirstVagueQuestionIsRewritten | services/rag_service.py:88-93 | a vague first question of a new session still makes one rewrite request, holding only the instruction and the quoted question |
| Rag.RAGService.ProcessQuestion | services/rag_service.py:76-151 | returns `Pipeline`'s result, makes exactly `Pipeline`'s chat requests, and leaves the store as `LogAfter` says (question saved first, answer saved only on success) |
| Retrieval.FilterRelevant | services/embedding_service.py:46-49 | every kept hit is within the distance threshold, every hit within it is kept, and the kept hits are a subsequence of the index's hits |
| Retrieval.FilterConcat | services/embedding_service.py:46-49 | the filter distributes over concatenation: each hit is judged on its own |
| Retrieval.FilterKeepsRelevantList | services/embedding_service.py:46-49 | a list whose hits are all relevant passes the filter unchanged |
| Retrieval.FilterIdempotent | services/embedding_service.py:46-49 | filtering twice is filtering once |
| Retrieval.MissingDistanceDropped | services/embedding_service.py:48 | a hit without `vector_distance` counts as 1.0, so under the 0.7 threshold it is never kept |
| Retrieval.SemanticSearch | services/embedding_service.py:22-51 | an embedding or search error propagates; otherwise the result is exactly the distance filter of the hits the search returns for the configured source and effective `k`: every relevant hit, repeats included, in index order, no other |
| Retrieval.FalsyKUsesTopK | services/embedding_service.py:33 | no `k` and `k = 0` both search with the configured top-k of 5 |
| Retrieval.RenderAllConcat | services/embedding_service.py:67-71 | each hit is rendered on its own: rendering a concatenation is concatenating the renderings |
| Retrieval.ExtractContextFromHits | services/embedding_service.py:53-73 | the appending loop produces the blank-line join of the rendered hits, and the empty string for no hits |
| Retrieval.ContextEmpty | services/embedding_service.py:63-64 | no hits give an empty context |
| Retrieval.ContextAppend | services/embedding_service.py:66-73 | adding a hit adds a blank line and its rendering to the end of the context |
| Retrieval.ContextStartsWithFirstSection | services/embedding_service.py:67-73 | the context of a non-empty list starts with the first hit's `[section]: ` label |
| Retrieval.ContextLength | services/embedding_service.py:73 | the context is exactly as long as its parts plus two characters between each two |
| Retrieval.RenderDefaults | services/embedding_service.py:68-71 | a hit without a document, or with a document that has neither field, renders as `[unknown]: ` |
| ConversationStore.Upsert | connectors/mongo_connector.py:21-44 | the session's conversation is created when absent, with creation and update times of now; otherwise its creation time is kept, its update time becomes now and the message goes at the end; no other session changes |
| ConversationStore.SaveAppendsOneMessage | connectors/mongo_connector.py:21-44 | saving appends exactly one message to the session and leaves every other session's messages as they were |
| ConversationStore.History | connectors/mongo_connector.py:46-67 | nothing for an unknown session; for a positive limit, the last `min(limit, n)` messages in order, without timestamps; nothing for limit 0; the first messages for a negative limit (the `$slice` rules) |
| ConversationStore.ProjectAllConcat | connectors/mongo_connector.py:63-66 | each message is projected on its own: projecting a concatenation is concatenating the projections |
| ConversationStore.HistoryIsLastN | connectors/mongo_connector.py:56-66 | a positive window is the projection of the last `limit` stored messages |
| ConversationStore.LastNAppend | connectors/mongo_connector.py:59 | the last `n` of a sequence with one more element depend only on the last `n` before it |
| ConversationStore.HistoryAfterSave | connectors/mongo_connector.py:21-67 | reading after a save slides the window: the previous window plus the new message, cut back to the limit |
| ConversationStore.SavedMessageIsLatest | connectors/mongo_connector.py:21-67 | right after a save, the latest entry of any positive window is that message |
| ConversationStore.FirstSaveCreatesConversation | connectors/mongo_connector.py:29-43 | the first save of a session creates a conversation holding exactly that message |
| ConversationStore.Delete | connectors/mongo_connector.py:69-76 | the session's conversation is removed and every other one stays |
| ConversationStore.ClearedHistoryIsEmpty | connectors/mongo_connector.py:69-76 | a cleared session reads back as empty whatever the limit |
| ConversationStore.ClearIsIdempotent | connectors/mongo_connector.py:69-76 | clearing twice is clearing once, and clearing an unknown session changes nothing |
| ConversationStore.MongoConnector.SaveMessage | connectors/mongo_connector.py:21-44 | the collection becomes `Upsert` of the old one; this session gains exactly the new message and the others are unchanged |
| ConversationStore.MongoConnector.GetHistory | connectors/mongo_connector.py:46-67 | the `History` window of the current collection, never longer than a positive limit |
| ConversationStore.MongoConnector.ClearSession | connectors/mongo_connector.py:69-76 | the collection becomes `Delete` of the old one, and every later read of the session is empty |
| Memory.MemoryService.SaveUserMessage | services/memory_service.py:21-23 | one user message is appended, and it is the latest entry of the session's history |
| Memory.MemoryService.SaveAssistantMessage | services/memory_service.py:25-27 | one assistant message is appended to the session |
| Memory.MemoryService.GetConversationHistory | services/memory_service.py:29-36 | at most 10 messages, the session's most recent ones, oldest first |
| Memory.MemoryService.ClearConversation | services/memory_service.py:38-40 | the session's conversation is removed and reads back empty |
| Chat.ChatClient.ChatCompletion | connectors/openai_connector.py:49-65 | one call logs its request and returns the provider's reply or error for it |
| Strings.Lower | services/rag_service.py:32 | the length is kept, no upper-case ASCII letter is left, each upper-case letter becomes its lower-case partner and every other character is unchanged |
| Strings.LowerAppend | services/rag_service.py:32 | lowercasing distributes over concatenation |
| Strings.LowerIdempotent | services/rag_service.py:32 | lowercasing twice is lowercasing once |
| Strings.ContainsIff | services/rag_service.py:34 | Python's `sub in s` is true exactly when `sub` occurs at some position of `s` |
| Strings.Split | services/rag_service.py:35 | `split()` returns non-empty tokens without whitespace which, laid end to end, are exactly the non-whitespace characters of the input, one token per word start, so leading, trailing and repeated whitespace of any kind makes no empty token |
| Strings.SplitJoinWords | services/rag_service.py:35 | splitting words joined by single spaces gives back the same words, so the token count is the word count |
| Strings.Strip | services/rag_service.py:74 | `strip(cs)` keeps the piece starting after the leading run of `cs` characters; what remains neither starts nor ends with one, and it is empty only when every character is in `cs` |
| Strings.StripFramed | services/rag_service.py:74 | stripping a body framed on both sides by runs of `cs` characters gives back the body, when the body starts and ends outside `cs` |
| Strings.StripThriceIsPiece | services/rag_service.py:74 | three successive strips leave a contiguous piece of the original |
| Strings.JoinAppend | services/embedding_service.py:66-73 | joining one more part adds the separator and that part, as the appending loop does |
| Strings.JoinLength | services/embedding_service.py:73 | a join is as long as its parts plus one separator between each two |

## Left out

- The chat model and the embedding model are oracles. No property of their answers is assumed
  beyond their being a fixed function of the request.
- The vector index is an oracle. Its `k` nearest-neighbour ranking and the `source:=` filter syntax
  are not modelled. The model keeps the arguments the code passes to it: the vector, `k` and the
  CV source name.
- The document store is an in-memory map that never fails. Connection errors, timeouts and a
  missing `messages` field are not modelled.
- The three calls to `datetime.now()` in one save are equal in the model: they are one `Time`
  parameter.
- `Strings.Lower` and `Strings.IsWhitespace` cover ASCII only. Python's Unicode case mapping and
  Unicode whitespace are not modelled.
- Distances and the temperature are Dafny `real`s, not IEEE floats.
- A hit whose `vector_distance` is present but `None` is not modelled. In Python that comparison
  raises.
- A `document` whose `section` or `text` key is present with the value `None` is not modelled.
  Python's `dict.get` returns the stored `None` and the f-string renders it as `None`. The model
  treats a present `None` like a missing key and renders `unknown` or the empty text.
- The long system instructions are abbreviated to constants whose exact wording no property uses.
  The final-turn and rewrite-instruction formats are kept in full.
- `Rag.RAGService.ProcessQuestion`: the request validation done before it is called (session id of
  at least 1 character, question of 1 to 1000 characters) is not a precondition, since the method
  does not depend on it.
- Health checks, the HTTP controllers, settings loading from the environment, the user-tracking and
  user-question services, and the ingestion side are outside the modelled core.
- Concurrency is not modelled. Two requests of the same session interleaving their saves and reads
  is not captured.
