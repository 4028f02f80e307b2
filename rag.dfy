/**
 * The question-answering orchestrator (services/rag_service.py): vagueness detection, query
 * rewriting and the pipeline that saves the question, retrieves grounding, asks the chat model and
 * saves the answer.
 *
 * `Pipeline` states, as a function, everything one `process_question` call does once the history
 * it reads is known: its result and the chat-completion requests it makes. The lemmas after it are
 * the pipeline's promises; `RAGService.ProcessQuestion` is proved to behave as `Pipeline` says and
 * to leave the store as `LogAfter` says.
 */
module Rag {
  import opened Wrappers
  import opened Settings
  import opened Strings
  import opened Chat
  import opened Retrieval
  import opened ConversationStore
  import opened Memory

  // ---------------------------------------------------------------------------------------------
  // Vagueness

  /** The markers of a question that depends on earlier turns. */
  const VagueIndicators: seq<string> := [
    "it", "that", "this", "one", "which one",
    "them", "those", "he", "she", "they",
    "more", "else", "also", "there"
  ]

  /** Questions with fewer whitespace-separated tokens than this are always vague. */
  const MinClearTokens: int := 5

  /** Some marker occurs somewhere in `s`, possibly inside a longer word. */
  ghost predicate MentionsIndicator(s: string) {
    exists k, i :: 0 <= k < |VagueIndicators| && OccursAt(s, VagueIndicators[k], i)
  }

  /** `any(indicator in s for indicator in indicators)`. */
  function AnyContained(s: string, indicators: seq<string>): (found: bool)
    ensures found <==> exists k, i :: 0 <= k < |indicators| && OccursAt(s, indicators[k], i)
  {
    if indicators == [] then false
    else
      ContainsIff(s, indicators[0]);
      var found := Contains(s, indicators[0]) || AnyContained(s, indicators[1..]);
      assert forall k :: 1 <= k < |indicators| ==> indicators[1..][k - 1] == indicators[k];
      found
  }

  /** `_is_vague_query`: the lowercased question contains a marker as a substring, or the question
      has fewer than five tokens, that is, fewer than five places where a word starts. */
  function IsVagueQuery(question: string): (vague: bool)
    ensures vague <==> MentionsIndicator(Lower(question)) || WordStarts(question) < MinClearTokens
  {
    AnyContained(Lower(question), VagueIndicators) || |Split(question)| < MinClearTokens
  }

  /** Substring matching: "with" makes a question vague, because "it" occurs inside it. */
  lemma WithIsVague(prefix: string, suffix: string)
    ensures IsVagueQuery(prefix + "with" + suffix)
  {
    var q := prefix + "with" + suffix;
    var i := |prefix| + 1;
    assert Lower(q)[i] == 'i' && Lower(q)[i + 1] == 't';
    assert Lower(q)[i..i + 2] == "it";
    assert OccursAt(Lower(q), VagueIndicators[0], i);
  }

  /** A question of four tokens or fewer is vague whatever its words. */
  lemma FewTokensIsVague(words: seq<string>)
    requires |words| < MinClearTokens
    requires forall k :: 0 <= k < |words| ==> words[k] != [] && NoWhitespace(words[k])
    ensures IsVagueQuery(JoinWords(words))
  {
    SplitJoinWords(words);
  }

  /** Five or more tokens without any marker: not vague. */
  lemma ClearQuestionIsNotVague(words: seq<string>)
    requires |words| >= MinClearTokens
    requires forall k :: 0 <= k < |words| ==> words[k] != [] && NoWhitespace(words[k])
    requires !MentionsIndicator(Lower(JoinWords(words)))
    ensures !IsVagueQuery(JoinWords(words))
  {
    SplitJoinWords(words);
  }

  // ---------------------------------------------------------------------------------------------
  // Query rewriting

  /** The rewriter's system instruction; its wording does not matter to the pipeline. */
  const RewriteSystemPrompt: string := "You are a query rewriting assistant."

  const RewriteInstructionPrefix: string := "Rewrite this vague question into a clear, standalone question: '"

  /** The user turn asking for a rewrite, quoting the question. */
  function RewriteInstruction(question: string): string {
    RewriteInstructionPrefix + question + "'"
  }

  /** `history[:-1] if len(history) > 1 else []`. */
  function AllButLast<T>(history: seq<T>): seq<T> {
    if |history| > 1 then history[..|history| - 1] else []
  }

  /** The rewrite request's messages: the instruction, the history without its latest entry, the
      quoted question. */
  function RewriteMessages(history: seq<ChatMessage>, question: string): seq<ChatMessage> {
    [ChatMessage(System, RewriteSystemPrompt)] + AllButLast(history) + [ChatMessage(User, RewriteInstruction(question))]
  }

  /** The rewrite request is one system turn, all history but its latest entry, one user turn. */
  lemma RewriteMessagesShape(history: seq<ChatMessage>, question: string)
    ensures var m := RewriteMessages(history, question);
      && |m| == 1 + (if |history| > 0 then |history| - 1 else 0) + 1
      && m[0].role == System
      && m[1..|m| - 1] == AllButLast(history)
      && (history != [] ==> m[1..|m| - 1] == history[..|history| - 1])
      && m[|m| - 1] == ChatMessage(User, RewriteInstruction(question))
  {
    var m := RewriteMessages(history, question);
    assert m[1..|m| - 1] == AllButLast(history);
  }

  const DoubleQuote: set<char> := {'"'}
  const SingleQuote: set<char> := {'\''}

  lemma QuotesAreNotWhitespace()
    ensures '"' !in Whitespace && '\'' !in Whitespace
  {
  }

  /** `rewritten.strip().strip('"').strip("'")`: surrounding whitespace, then every leading and
      trailing double quote, then every leading and trailing single quote. The result neither
      starts nor ends with a single quote. */
  function CleanRewrite(reply: string): (r: string)
    ensures |r| <= |reply|
    ensures r != [] ==> r[0] != '\'' && r[|r| - 1] != '\''
  {
    Strip(Strip(Strip(reply, Whitespace), DoubleQuote), SingleQuote)
  }

  /** The cleaned rewrite is a piece of the model's reply. */
  lemma CleanRewriteIsPieceOfReply(reply: string)
    ensures exists i :: OccursAt(reply, CleanRewrite(reply), i)
  {
    CleanRewriteIsThreeStrips(reply);
    StripThriceIsPiece(reply, Whitespace, DoubleQuote, SingleQuote);
  }

  lemma CleanRewriteIsThreeStrips(reply: string)
    ensures CleanRewrite(reply) == Strip(Strip(Strip(reply, Whitespace), DoubleQuote), SingleQuote)
  {
  }

  /** The strip removes whole runs of quote characters, not one matching pair: a reply wrapped in
      doubled double quotes loses both of them on each side. */
  lemma CleanRewriteStripsEveryDoubleQuote(body: string)
    requires body != []
    requires body[0] != '"' && body[0] != '\'' && body[|body| - 1] != '"' && body[|body| - 1] != '\''
    ensures CleanRewrite("\"\"" + body + "\"\"") == body
  {
    var s := "\"\"" + body + "\"\"";
    assert s[0] == s[|s| - 1] == '"';
    QuotesAreNotWhitespace();
    StripUntouched(s, Whitespace);
    StripFramed("\"\"", body, "\"\"", DoubleQuote);
    StripUntouched(body, SingleQuote);
    CleanRewriteIsThreeStrips(s);
  }

  /** Double quotes are stripped before single quotes, so a double-quoted reply inside single quotes
      keeps its double quotes. */
  lemma CleanRewriteKeepsInnerDoubleQuotes(quoted: string)
    requires |quoted| >= 2 && quoted[0] == '"' && quoted[|quoted| - 1] == '"'
    ensures CleanRewrite("'" + quoted + "'") == quoted
  {
    var s := "'" + quoted + "'";
    assert s[0] == s[|s| - 1] == '\'';
    QuotesAreNotWhitespace();
    StripUntouched(s, Whitespace);
    StripUntouched(s, DoubleQuote);
    StripFramed("'", quoted, "'", SingleQuote);
    CleanRewriteIsThreeStrips(s);
  }

  /** What the rewriter asks the chat model, given the history it reads: nothing when the history
      is empty, one low-temperature request otherwise. */
  function RewriteCalls(history: seq<ChatMessage>, question: string): seq<ChatRequest> {
    if history == [] then [] else [ChatRequest(RewriteMessages(history, question), PipelineTemperature)]
  }

  /** What `_rewrite_query` returns: the question itself for an empty history, otherwise the
      cleaned reply, or the error of the chat call. */
  function RewriteResult(history: seq<ChatMessage>, question: string, respond: ChatRequest -> Result<string>): Result<string> {
    if history == [] then Success(question)
    else
      match respond(ChatRequest(RewriteMessages(history, question), PipelineTemperature))
      case Success(reply) => Success(CleanRewrite(reply))
      case Failure(e) => Failure(e)
  }

  /** With an empty history the rewriter returns the question unchanged and makes no call. */
  lemma RewriteNoOpOnEmptyHistory(question: string, respond: ChatRequest -> Result<string>)
    ensures RewriteResult([], question, respond) == Success(question)
    ensures RewriteCalls([], question) == []
  {
  }

  // ---------------------------------------------------------------------------------------------
  // The pipeline

  /** `{"answer": ..., "sources_count": ...}`. */
  datatype AnswerResult = AnswerResult(answer: string, sourcesCount: nat)

  const NoResultsAnswer: string := "I couldn't find relevant information in the CV to answer this question."

  /** The answering model's system instruction; its wording does not matter to the pipeline. */
  const AnswerSystemPrompt: string := "You are a helpful assistant answering questions about Martin Hristev's CV."

  /** The final user turn: the grounding context, then the original question. */
  function FinalTurn(context: string, question: string): string {
    "CV Context:\n\n" + context + "\n\nQuestion: " + question
  }

  /** The answer request's messages: instruction, history without its latest entry, final turn. */
  function AnswerMessages(history: seq<ChatMessage>, context: string, question: string): seq<ChatMessage> {
    [ChatMessage(System, AnswerSystemPrompt)] + AllButLast(history) + [ChatMessage(User, FinalTurn(context, question))]
  }

  /** The text retrieval searches with: the question when it is not vague, else the rewrite. */
  function SearchQuery(history: seq<ChatMessage>, question: string, respond: ChatRequest -> Result<string>): Result<string> {
    if IsVagueQuery(question) then RewriteResult(history, question, respond) else Success(question)
  }

  /** The outcome of one pipeline run: its result and the chat requests it made, in order. */
  datatype Run = Run(result: Result<AnswerResult>, requests: seq<ChatRequest>)

  /** One `process_question` run, given the history read right after the question was saved. */
  function Pipeline(history: seq<ChatMessage>, question: string, index: VectorIndex,
                    respond: ChatRequest -> Result<string>): Run
  {
    var rewriteCalls := if IsVagueQuery(question) then RewriteCalls(history, question) else [];
    var query := SearchQuery(history, question, respond);
    if query.Failure? then Run(Failure(query.error), rewriteCalls)
    else Answering(history, question, query.value, index, respond, rewriteCalls)
  }

  /** The rest of a run once the search query is known: retrieval, then the answer request when
      there are hits. `earlier` are the requests already made. */
  function Answering(history: seq<ChatMessage>, question: string, searchQuery: string, index: VectorIndex,
                     respond: ChatRequest -> Result<string>, earlier: seq<ChatRequest>): Run
  {
    var hits := SemanticSearch(index, searchQuery, None);
    if hits.Failure? then Run(Failure(hits.error), earlier)
    else if hits.value == [] then Run(Success(AnswerResult(NoResultsAnswer, 0)), earlier)
    else
      var request := ChatRequest(AnswerMessages(history, Context(hits.value), question), PipelineTemperature);
      match respond(request)
      case Success(answer) => Run(Success(AnswerResult(answer, |hits.value|)), earlier + [request])
      case Failure(e) => Run(Failure(e), earlier + [request])
  }

  /** The store after a run: the question is always saved first; the answer is saved last, and
      only when the run produced one. */
  function LogAfter(db: Collection, sessionId: string, question: string, askedAt: Time, answeredAt: Time,
                    result: Result<AnswerResult>): Collection
  {
    var withQuestion := Upsert(db, sessionId, User, question, askedAt);
    if result.Success? then Upsert(withQuestion, sessionId, Assistant, result.value.answer, answeredAt)
    else withQuestion
  }

  /** The history both reads of a run see: the window taken right after the question was saved. */
  function HistorySeen(db: Collection, sessionId: string, question: string, askedAt: Time): seq<ChatMessage> {
    History(Upsert(db, sessionId, User, question, askedAt), sessionId, ConversationHistoryLimit)
  }

  /** Every request in `requests` uses the pipeline temperature. */
  predicate AtPipelineTemperature(requests: seq<ChatRequest>) {
    forall k :: 0 <= k < |requests| ==> requests[k].temperature == PipelineTemperature
  }

  /** The answering stage adds at most the one answer request, at the pipeline temperature, to the
      requests made before it. */
  lemma AnsweringAddsAtMostOneRequest(history: seq<ChatMessage>, question: string, searchQuery: string,
                                      index: VectorIndex, respond: ChatRequest -> Result<string>,
                                      earlier: seq<ChatRequest>)
    requires AtPipelineTemperature(earlier)
    ensures var run := Answering(history, question, searchQuery, index, respond, earlier);
      && |run.requests| <= |earlier| + 1
      && AtPipelineTemperature(run.requests)
  {
    var run := Answering(history, question, searchQuery, index, respond, earlier);
    if run.requests != earlier {
      var hits := SemanticSearch(index, searchQuery, None);
      var request := ChatRequest(AnswerMessages(history, Context(hits.value), question), PipelineTemperature);
      assert run.requests == earlier + [request];
    }
  }

  /** At most two chat calls (rewrite, answer), both at temperature 0.3. */
  lemma AtMostTwoCalls(history: seq<ChatMessage>, question: string, index: VectorIndex, respond: ChatRequest -> Result<string>)
    ensures var run := Pipeline(history, question, index, respond);
      && |run.requests| <= 2
      && forall k :: 0 <= k < |run.requests| ==> run.requests[k].temperature == PipelineTemperature
  {
    var rewriteCalls := if IsVagueQuery(question) then RewriteCalls(history, question) else [];
    assert |rewriteCalls| <= 1 && AtPipelineTemperature(rewriteCalls);
    var query := SearchQuery(history, question, respond);
    if query.Success? {
      AnsweringAddsAtMostOneRequest(history, question, query.value, index, respond, rewriteCalls);
    }
  }

  /** Empty retrieval: the fixed answer, no sources, and no answer request; the only possible call
      is the rewrite. */
  lemma EmptyRetrievalShortCircuits(history: seq<ChatMessage>, question: string, index: VectorIndex,
                                    respond: ChatRequest -> Result<string>)
    requires SearchQuery(history, question, respond).Success?
    requires SemanticSearch(index, SearchQuery(history, question, respond).value, None) == Success([])
    ensures var run := Pipeline(history, question, index, respond);
      && run.result == Success(AnswerResult(NoResultsAnswer, 0))
      && |run.requests| <= 1
      && forall k :: 0 <= k < |run.requests| ==> run.requests[k] == ChatRequest(RewriteMessages(history, question), PipelineTemperature)
  {
  }

  /** A successful answer counts exactly the filtered hits retrieved for the search query; when
      there were hits, the count is positive and the answer is the model's reply to the last
      request. */
  lemma SourcesCountIsHitCount(history: seq<ChatMessage>, question: string, index: VectorIndex,
                               respond: ChatRequest -> Result<string>)
    requires Pipeline(history, question, index, respond).result.Success?
    ensures var run := Pipeline(history, question, index, respond);
      var query := SearchQuery(history, question, respond);
      && query.Success?
      && SemanticSearch(index, query.value, None).Success?
      && var hits := SemanticSearch(index, query.value, None).value;
      && run.result.value.sourcesCount == |hits|
      && (hits != [] ==>
            && run.result.value.sourcesCount >= 1
            && run.requests != []
            && respond(run.requests[|run.requests| - 1]) == Success(run.result.value.answer))
  {
  }

  /** A question that is not vague is searched as it stands and causes no rewrite call. */
  lemma ClearQuestionSearchedVerbatim(history: seq<ChatMessage>, question: string, index: VectorIndex,
                                      respond: ChatRequest -> Result<string>)
    requires !IsVagueQuery(question)
    ensures SearchQuery(history, question, respond) == Success(question)
    ensures |Pipeline(history, question, index, respond).requests| <= 1
    ensures OnlyAnswerRequests(Pipeline(history, question, index, respond).requests)
  {
    AnsweringAsksOnlyToAnswer(history, question, question, index, respond, []);
  }

  /** The request opens with the answering instruction, which no rewrite request does. */
  predicate IsAnswerRequest(request: ChatRequest) {
    request.messages != [] && request.messages[0] == ChatMessage(System, AnswerSystemPrompt)
  }

  /** A rewrite request opens with the rewriting instruction, so it is never an answer request. */
  lemma RewriteRequestIsNotAnswerRequest(history: seq<ChatMessage>, question: string, temperature: real)
    ensures !IsAnswerRequest(ChatRequest(RewriteMessages(history, question), temperature))
  {
    assert RewriteMessages(history, question)[0] == ChatMessage(System, RewriteSystemPrompt);
    assert |RewriteSystemPrompt| != |AnswerSystemPrompt|;
  }

  predicate OnlyAnswerRequests(requests: seq<ChatRequest>) {
    forall k :: 0 <= k < |requests| ==> IsAnswerRequest(requests[k])
  }

  /** The answering stage adds no request other than the answer request. */
  lemma AnsweringAsksOnlyToAnswer(history: seq<ChatMessage>, question: string, searchQuery: string,
                                  index: VectorIndex, respond: ChatRequest -> Result<string>,
                                  earlier: seq<ChatRequest>)
    requires OnlyAnswerRequests(earlier)
    ensures OnlyAnswerRequests(Answering(history, question, searchQuery, index, respond, earlier).requests)
  {
    var run := Answering(history, question, searchQuery, index, respond, earlier);
    if run.requests != earlier {
      var hits := SemanticSearch(index, searchQuery, None);
      var request := ChatRequest(AnswerMessages(history, Context(hits.value), question), PipelineTemperature);
      assert run.requests == earlier + [request];
      assert request.messages[0] == ChatMessage(System, AnswerSystemPrompt);
    }
  }

  /** The answer request's messages: one system turn, the history without its latest entry, and a
      final user turn that ends with the original question. */
  lemma AnswerMessagesShape(history: seq<ChatMessage>, context: string, question: string)
    ensures var m := AnswerMessages(history, context, question);
      && |m| >= 2
      && m[0] == ChatMessage(System, AnswerSystemPrompt)
      && m[1..|m| - 1] == AllButLast(history)
      && m[|m| - 1] == ChatMessage(User, FinalTurn(context, question))
      && EndsWith(m[|m| - 1].content, "\n\nQuestion: " + question)
  {
    var m := AnswerMessages(history, context, question);
    assert m[1..|m| - 1] == AllButLast(history);
    var tail := "\n\nQuestion: " + question;
    var turn := FinalTurn(context, question);
    assert turn == ("CV Context:\n\n" + context) + tail;
    assert turn[|turn| - |tail|..] == tail;
  }

  /** When retrieval finds hits, the last request of the run is the answer request built from
      their context. */
  lemma LastRequestAnswers(history: seq<ChatMessage>, question: string, index: VectorIndex,
                           respond: ChatRequest -> Result<string>)
    requires SearchQuery(history, question, respond).Success?
    requires var hits := SemanticSearch(index, SearchQuery(history, question, respond).value, None);
      hits.Success? && hits.value != []
    ensures var run := Pipeline(history, question, index, respond);
      var hits := SemanticSearch(index, SearchQuery(history, question, respond).value, None).value;
      && run.requests != []
      && run.requests[|run.requests| - 1]
         == ChatRequest(AnswerMessages(history, Context(hits), question), PipelineTemperature)
  {
  }

  /** The answer request carries the original question in its final user turn, never the
      rewritten query, after the history without its latest entry. */
  lemma AnswerRequestUsesOriginalQuestion(history: seq<ChatMessage>, question: string, index: VectorIndex,
                                          respond: ChatRequest -> Result<string>)
    requires SearchQuery(history, question, respond).Success?
    requires var hits := SemanticSearch(index, SearchQuery(history, question, respond).value, None);
      hits.Success? && hits.value != []
    ensures var run := Pipeline(history, question, index, respond);
      var hits := SemanticSearch(index, SearchQuery(history, question, respond).value, None).value;
      && run.requests != []
      && var m := run.requests[|run.requests| - 1].messages;
      && |m| >= 2
      && m[0] == ChatMessage(System, AnswerSystemPrompt)
      && m[1..|m| - 1] == AllButLast(history)
      && m[|m| - 1] == ChatMessage(User, FinalTurn(Context(hits), question))
      && EndsWith(m[|m| - 1].content, "\n\nQuestion: " + question)
  {
    var hits := SemanticSearch(index, SearchQuery(history, question, respond).value, None).value;
    LastRequestAnswers(history, question, index, respond);
    AnswerMessagesShape(history, Context(hits), question);
  }

  predicate EndsWith(s: string, suffix: string) {
    |suffix| <= |s| && s[|s| - |suffix|..] == suffix
  }

  /** A successful run leaves the session's log longer by exactly the question and then the
      answer; a failed run by the question only. No other session changes. */
  lemma RunAppendsToLog(db: Collection, sessionId: string, question: string, askedAt: Time, answeredAt: Time,
                        result: Result<AnswerResult>)
    ensures var after := Messages(LogAfter(db, sessionId, question, askedAt, answeredAt, result), sessionId);
      var before := Messages(db, sessionId);
      if result.Success? then
        after == before + [StoredMessage(User, question, askedAt), StoredMessage(Assistant, result.value.answer, answeredAt)]
      else
        after == before + [StoredMessage(User, question, askedAt)]
    ensures forall other :: other != sessionId ==>
      Messages(LogAfter(db, sessionId, question, askedAt, answeredAt, result), other) == Messages(db, other)
  {
    var withQuestion := Upsert(db, sessionId, User, question, askedAt);
    SaveAppendsOneMessage(db, sessionId, User, question, askedAt);
    if result.Success? {
      SaveAppendsOneMessage(withQuestion, sessionId, Assistant, result.value.answer, answeredAt);
    }
  }

  /** The history a run sees ends with the question just saved, and what the prompts include of it
      (all but that latest entry) is exactly the nine messages before it. */
  lemma PromptHistoryIsPriorMessages(db: Collection, sessionId: string, question: string, askedAt: Time)
    ensures var seen := HistorySeen(db, sessionId, question, askedAt);
      && seen != []
      && seen[|seen| - 1] == ChatMessage(User, question)
      && AllButLast(seen) == History(db, sessionId, ConversationHistoryLimit - 1)
  {
    var message := StoredMessage(User, question, askedAt);
    var msgs := Messages(db, sessionId);
    var db' := Upsert(db, sessionId, User, question, askedAt);
    SaveAppendsOneMessage(db, sessionId, User, question, askedAt);
    HistoryIsLastN(db', sessionId, ConversationHistoryLimit);
    HistoryIsLastN(db, sessionId, ConversationHistoryLimit - 1);
    AllButLastOfProjectAll(LastN(msgs + [message], ConversationHistoryLimit));
    AllButLastOfLastN(msgs, message, ConversationHistoryLimit);
    SavedMessageIsLatest(db, sessionId, User, question, askedAt, ConversationHistoryLimit);
  }

  /** Dropping the latest entry of a window over `xs + [x]` leaves the one-shorter window over `xs`. */
  lemma AllButLastOfLastN<T>(xs: seq<T>, x: T, n: nat)
    requires n >= 1
    ensures AllButLast(LastN(xs + [x], n)) == LastN(xs, n - 1)
  {
    var w := LastN(xs + [x], n);
    if |w| > 1 {
      assert w == xs[|xs| + 1 - |w|..] + [x];
      assert w[..|w| - 1] == xs[|xs| + 1 - |w|..];
    }
  }

  lemma AllButLastOfProjectAll(w: seq<StoredMessage>)
    ensures AllButLast(ProjectAll(w)) == ProjectAll(AllButLast(w))
  {
  }

  /** A vague first question of a fresh session is sent to the rewriter: the question is saved
      before the history is read, so the history is never empty there, and the rewrite request
      holds only the instruction and the quoted question. */
  lemma FirstVagueQuestionIsRewritten(db: Collection, sessionId: string, question: string, askedAt: Time)
    requires sessionId !in db
    requires IsVagueQuery(question)
    ensures RewriteCalls(HistorySeen(db, sessionId, question, askedAt), question)
         == [ChatRequest([ChatMessage(System, RewriteSystemPrompt), ChatMessage(User, RewriteInstruction(question))],
                         PipelineTemperature)]
  {
    FirstSaveCreatesConversation(db, sessionId, User, question, askedAt, ConversationHistoryLimit);
    var seen := HistorySeen(db, sessionId, question, askedAt);
    assert seen == [ChatMessage(User, question)];
    assert AllButLast(seen) == [];
    var m := RewriteMessages(seen, question);
    assert m == [ChatMessage(System, RewriteSystemPrompt), ChatMessage(User, RewriteInstruction(question))];
    assert RewriteCalls(seen, question) == [ChatRequest(m, PipelineTemperature)];
  }

  lemma AppendAssociative<T>(a: seq<T>, b: seq<T>, c: seq<T>)
    ensures (a + b) + c == a + (b + c)
  {
  }

  // ---------------------------------------------------------------------------------------------
  // The service object

  class RAGService {
    const memory: MemoryService
    const openai: ChatClient
    const embedding: VectorIndex

    constructor (memory: MemoryService, openai: ChatClient, embedding: VectorIndex)
      ensures this.memory == memory && this.openai == openai && this.embedding == embedding
    {
      this.memory := memory;
      this.openai := openai;
      this.embedding := embedding;
    }

    /** `_rewrite_query`: reads the history and, unless it is empty, asks the chat model once. */
    method RewriteQuery(sessionId: string, question: string) returns (rewritten: Result<string>)
      modifies openai
      ensures var history := memory.GetConversationHistory(sessionId);
        && rewritten == RewriteResult(history, question, openai.respond)
        && openai.requests == old(openai.requests) + RewriteCalls(history, question)
    {
      var history := memory.GetConversationHistory(sessionId);
      if history == [] {
        return Success(question);
      }
      var messages := [ChatMessage(System, RewriteSystemPrompt)];
      messages := messages + AllButLast(history);
      messages := messages + [ChatMessage(User, RewriteInstruction(question))];
      var reply := openai.ChatCompletion(messages, PipelineTemperature);
      if reply.Failure? {
        return Failure(reply.error);
      }
      rewritten := Success(CleanRewrite(reply.value));
    }

    /** `process_question`: behaves as `Pipeline` on the history read after saving the question,
        and leaves the store as `LogAfter` says. `askedAt` and `answeredAt` are the clock readings
        of the two saves. */
    method ProcessQuestion(sessionId: string, question: string, askedAt: Time, answeredAt: Time)
      returns (result: Result<AnswerResult>)
      modifies memory.mongo, openai
      ensures var db := old(memory.mongo.conversations);
        var run := Pipeline(HistorySeen(db, sessionId, question, askedAt), question, embedding, openai.respond);
        && result == run.result
        && openai.requests == old(openai.requests) + run.requests
        && memory.mongo.conversations == LogAfter(db, sessionId, question, askedAt, answeredAt, result)
    {
      ghost var db := memory.mongo.conversations;
      ghost var requests0 := openai.requests;
      memory.SaveUserMessage(sessionId, question, askedAt);
      ghost var history := memory.GetConversationHistory(sessionId);
      assert history == HistorySeen(db, sessionId, question, askedAt);
      ghost var run := Pipeline(history, question, embedding, openai.respond);
      ghost var rewriteCalls := if IsVagueQuery(question) then RewriteCalls(history, question) else [];
      ghost var query := SearchQuery(history, question, openai.respond);

      var searchQuery := question;
      if IsVagueQuery(question) {
        var rewritten := RewriteQuery(sessionId, question);
        if rewritten.Failure? {
          assert run == Run(Failure(query.error), rewriteCalls);
          assert openai.requests == requests0 + run.requests;
          return Failure(rewritten.error);
        }
        searchQuery := rewritten.value;
      }
      assert query == Success(searchQuery);
      assert run == Answering(history, question, searchQuery, embedding, openai.respond, rewriteCalls);
      assert openai.requests == requests0 + rewriteCalls;
      assert memory.mongo.conversations == Upsert(db, sessionId, User, question, askedAt);

      var hits := SemanticSearch(embedding, searchQuery, None);
      if hits.Failure? {
        assert run == Run(Failure(hits.error), rewriteCalls);
        assert openai.requests == requests0 + run.requests;
        return Failure(hits.error);
      }
      if hits.value == [] {
        var answer := NoResultsAnswer;
        memory.SaveAssistantMessage(sessionId, answer, answeredAt);
        assert run == Run(Success(AnswerResult(answer, 0)), rewriteCalls);
        assert openai.requests == requests0 + run.requests;
        return Success(AnswerResult(answer, 0));
      }

      var cvContext := ExtractContextFromHits(hits.value);
      var current := memory.GetConversationHistory(sessionId);
      var messages := [ChatMessage(System, AnswerSystemPrompt)];
      messages := messages + AllButLast(current);
      messages := messages + [ChatMessage(User, FinalTurn(cvContext, question))];
      ghost var request := ChatRequest(messages, PipelineTemperature);
      assert request == ChatRequest(AnswerMessages(history, Context(hits.value), question), PipelineTemperature);

      ghost var before := openai.requests;
      assert before == requests0 + rewriteCalls;
      var answer := openai.ChatCompletion(messages, PipelineTemperature);
      assert openai.requests == before + [request];
      AppendAssociative(requests0, rewriteCalls, [request]);
      if answer.Failure? {
        assert run == Run(Failure(answer.error), rewriteCalls + [request]);
        return Failure(answer.error);
      }
      memory.SaveAssistantMessage(sessionId, answer.value, answeredAt);
      assert run == Run(Success(AnswerResult(answer.value, |hits.value|)), rewriteCalls + [request]);
      return Success(AnswerResult(answer.value, |hits.value|));
    }
  }
}
