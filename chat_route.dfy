/**
  The chat handlers of `app/api/v1/chat.py`. Every outside call (the query embedding, the
  vector search, the generation model, the database) is a parameter, so each handler is a
  function of its request and of what those calls return. A raised exception is an `Err`
  carrying its message; the HTTP errors the handlers raise are `HttpError` values.
 */
module ChatRoute {
  import opened Results
  import opened Text
  import opened Records
  import EmbeddingService

  /** `settings.SIMILARITY_THRESHOLD`. */
  const SimilarityThreshold: real := 0.7

  const NoContextReply: string :=
    "I couldn't find relevant information in the documents to answer your question. "
    + "Please try rephrasing or ask about topics covered in the documentation."
  const ChatErrorPrefix: string := "Error processing chat request: "
  const HistoryErrorPrefix: string := "Error retrieving chat history: "
  const DeleteErrorPrefix: string := "Error deleting chat session: "

  /** The exception both database handlers raise when there is no pool. */
  const NotInitialized: HttpError := HttpError(500, "Database not initialized")

  /** The row `save_conversation` inserts into `conversations`. */
  datatype Conversation = Conversation(sessionId: string, userMessage: string, botResponse: string, contextUsed: seq<string>)

  /** What `save_conversation` returns, and the row it sent to the database, if it got that far. */
  datatype SaveOutcome = SaveOutcome(saved: bool, sent: Option<Conversation>)

  /**
    The services the chat handler calls: the query embedding, the vector search (query
    vector, limit, score threshold), the generation model if one is configured, whether the
    database pool exists, and the error an insert raises, if any.
   */
  datatype Services = Services(
    embed: string -> Result<seq<real>, string>,
    search: (seq<real>, int, real) -> Result<seq<ContextDoc>, string>,
    model: Option<string -> Result<string, string>>,
    pool: bool,
    insert: Conversation -> Option<string>)

  /** `request.session_id or str(uuid.uuid4())`, with `newId` the generated id. */
  function EffectiveSessionId(requested: Option<string>, newId: string): (sid: string)
    ensures sid == newId || (requested.Some? && sid == requested.value)
    ensures sid == "" ==> newId == ""
    ensures requested.Some? && requested.value != "" ==> sid == requested.value
  {
    if requested.Some? && requested.value != "" then requested.value else newId
  }

  /** `[doc['source'] for doc in context_docs]`. */
  function Sources(docs: seq<ContextDoc>): (sources: seq<string>)
    ensures |sources| == |docs|
    ensures forall i :: 0 <= i < |docs| ==> sources[i] == docs[i].source
  {
    seq(|docs|, i requires 0 <= i < |docs| => docs[i].source)
  }

  /**
    `save_conversation`: false without a pool; otherwise the row is sent, and the result is
    true exactly when the insert raises nothing.
   */
  function SaveConversation(pool: bool, insert: Conversation -> Option<string>, c: Conversation): (o: SaveOutcome)
    ensures o.saved <==> pool && insert(c).None?
    ensures o.sent == if pool then Some(c) else None
  {
    if !pool then SaveOutcome(false, None)
    else if insert(c).None? then SaveOutcome(true, Some(c))
    else SaveOutcome(false, Some(c))
  }

  /** What one call of `chat_with_documents` answers, and what its save did. */
  datatype ChatOutcome = ChatOutcome(response: ChatResponse, save: SaveOutcome)

  /** The reply to the message given the context docs found for it. */
  function ChatReply(model: Option<string -> Result<string, string>>, message: string, docs: seq<ContextDoc>): (reply: string)
    ensures docs == [] ==> reply == NoContextReply
    ensures docs != [] && model.None? ==> reply == EmbeddingService.NotConfiguredReply
    ensures docs != [] && model.Some? ==>
      var outcome := model.value(EmbeddingService.Prompt(message, EmbeddingService.ContextText(docs)));
      reply == if outcome.Ok? then outcome.value else EmbeddingService.GenerationErrorPrefix + outcome.error
  {
    if docs != [] then EmbeddingService.GenerateResponseWithContext(model, message, docs) else NoContextReply
  }

  /** `chat_with_documents`, with `newId` the id `uuid.uuid4()` would produce. */
  function ChatWithDocuments(request: ChatRequest, newId: string, s: Services): (r: Result<ChatOutcome, HttpError>)
    ensures r.Err? <==> s.embed(request.message).Err? || s.search(s.embed(request.message).value, request.maxContextDocs, SimilarityThreshold).Err?
  {
    var sid := EffectiveSessionId(request.sessionId, newId);
    match s.embed(request.message)
    case Err(e) => Err(HttpError(500, ChatErrorPrefix + e))
    case Ok(query) =>
      match s.search(query, request.maxContextDocs, SimilarityThreshold)
      case Err(e) => Err(HttpError(500, ChatErrorPrefix + e))
      case Ok(docs) =>
        var reply := ChatReply(s.model, request.message, docs);
        var sources := Sources(docs);
        var save := SaveConversation(s.pool, s.insert, Conversation(sid, request.message, reply, sources));
        Ok(ChatOutcome(ChatResponse(reply, sid, docs, sources), save))
  }

  /**
    A successful answer echoes the effective session id and the context docs found, lists
    their sources in order, and saves exactly what it answers: same session, message,
    reply and sources.
   */
  lemma ChatEchoesAndSaves(request: ChatRequest, newId: string, s: Services)
    requires ChatWithDocuments(request, newId, s).Ok?
    ensures var o := ChatWithDocuments(request, newId, s).value;
      var docs := s.search(s.embed(request.message).value, request.maxContextDocs, SimilarityThreshold).value;
      && o.response.sessionId == EffectiveSessionId(request.sessionId, newId)
      && o.response.contextUsed == docs
      && |o.response.sources| == |docs|
      && (forall i :: 0 <= i < |docs| ==> o.response.sources[i] == docs[i].source)
      && o.response.response == ChatReply(s.model, request.message, docs)
      && o.save.sent == if s.pool then Some(Conversation(o.response.sessionId, request.message, o.response.response, o.response.sources)) else None
  {
  }

  /**
    When the search finds nothing the reply is the fixed apology, whatever the generation
    model would have said: the model is not consulted.
   */
  lemma NoContextNoGeneration(request: ChatRequest, newId: string, s: Services, other: Option<string -> Result<string, string>>)
    requires s.embed(request.message).Ok?
    requires s.search(s.embed(request.message).value, request.maxContextDocs, SimilarityThreshold) == Ok([])
    ensures ChatWithDocuments(request, newId, s).Ok?
    ensures ChatWithDocuments(request, newId, s).value.response.response == NoContextReply
    ensures ChatWithDocuments(request, newId, s) == ChatWithDocuments(request, newId, s.(model := other))
  {
  }

  /** With context docs the reply is what the generation step makes of the message and those docs. */
  lemma ContextGoesToGeneration(request: ChatRequest, newId: string, s: Services)
    requires s.embed(request.message).Ok?
    requires var found := s.search(s.embed(request.message).value, request.maxContextDocs, SimilarityThreshold);
      found.Ok? && found.value != []
    ensures var docs := s.search(s.embed(request.message).value, request.maxContextDocs, SimilarityThreshold).value;
      ChatWithDocuments(request, newId, s).value.response.response
        == EmbeddingService.GenerateResponseWithContext(s.model, request.message, docs)
  {
  }

  /** A failing embedding or search becomes an HTTP 500 whose detail is the fixed prefix and the error. */
  lemma ChatErrorIs500(request: ChatRequest, newId: string, s: Services)
    requires ChatWithDocuments(request, newId, s).Err?
    ensures var e := ChatWithDocuments(request, newId, s).error;
      var q := s.embed(request.message);
      && e.status == 500
      && e.detail == ChatErrorPrefix + (if q.Err? then q.error
           else s.search(q.value, request.maxContextDocs, SimilarityThreshold).error)
  {
  }

  /**
    The search is asked for at most `max_context_docs` hits above the configured threshold:
    two searches that agree on that call give the same outcome.
   */
  lemma SearchOnlyWithRequestLimit(request: ChatRequest, newId: string, s: Services,
                                   other: (seq<real>, int, real) -> Result<seq<ContextDoc>, string>)
    requires s.embed(request.message).Ok?
    requires var q := s.embed(request.message).value;
      other(q, request.maxContextDocs, SimilarityThreshold) == s.search(q, request.maxContextDocs, SimilarityThreshold)
    ensures ChatWithDocuments(request, newId, s) == ChatWithDocuments(request, newId, s.(search := other))
  {
  }

  // ---------------------------------------------------------------------------------------
  // History and deletion
  // ---------------------------------------------------------------------------------------

  /** A row of `conversations` as `fetch` returns it; `context_used` may be NULL. */
  datatype HistoryRow = HistoryRow(
    id: int, sessionId: string, userMessage: string, botResponse: string, contextUsed: Option<seq<string>>, createdAt: int)

  /** `{"session_id": ..., "history": [...]}`. */
  datatype HistoryReply = HistoryReply(sessionId: string, history: seq<ConversationHistory>)

  /** `row['context_used'] if row['context_used'] else []`. */
  function ContextUsedOrEmpty(c: Option<seq<string>>): (used: seq<string>)
    ensures c.None? ==> used == []
    ensures c.Some? ==> used == c.value
  {
    if c.Some? && c.value != [] then c.value else []
  }

  /** The `ConversationHistory` for one row: its fields, with a NULL or empty `context_used` reported as `[]`. */
  function HistoryEntry(row: HistoryRow): (h: ConversationHistory)
    ensures h.contextUsed == if row.contextUsed.Some? then row.contextUsed.value else []
    ensures h.id == row.id && h.sessionId == row.sessionId && h.userMessage == row.userMessage
    ensures h.botResponse == row.botResponse && h.createdAt == row.createdAt
  {
    ConversationHistory(row.id, row.sessionId, row.userMessage, row.botResponse, ContextUsedOrEmpty(row.contextUsed), row.createdAt)
  }

  /**
    `get_chat_history`: the rows `fetch` returns for the session, in order, one entry each;
    without a pool the "Database not initialized" exception, caught and re-raised with the
    handler's prefix.
   */
  function GetChatHistory(sessionId: string, pool: bool, fetch: string -> Result<seq<HistoryRow>, string>): (r: Result<HistoryReply, HttpError>)
    ensures !pool ==> r == Err(HttpError(500, HistoryErrorPrefix + HttpErrorText(NotInitialized)))
    ensures pool && fetch(sessionId).Err? ==> r == Err(HttpError(500, HistoryErrorPrefix + fetch(sessionId).error))
    ensures r.Ok? <==> pool && fetch(sessionId).Ok?
    ensures r.Ok? ==> r.value.sessionId == sessionId && |r.value.history| == |fetch(sessionId).value|
    ensures r.Ok? ==> forall i :: 0 <= i < |r.value.history| ==> r.value.history[i] == HistoryEntry(fetch(sessionId).value[i])
  {
    if !pool then Err(HttpError(500, HistoryErrorPrefix + HttpErrorText(NotInitialized)))
    else match fetch(sessionId)
      case Err(e) => Err(HttpError(500, HistoryErrorPrefix + e))
      case Ok(rows) => Ok(HistoryReply(sessionId, seq(|rows|, i requires 0 <= i < |rows| => HistoryEntry(rows[i]))))
  }

  /** `{"message": ..., "affected_rows": ...}`. */
  datatype DeleteReply = DeleteReply(message: string, affectedRows: int)

  /**
    Python's `repr` of a token without whitespace: in single quotes, or in double quotes when
    it holds a single quote and no double quote.
   */
  function PyRepr(tok: string): string {
    if '\'' in tok && '"' !in tok then "\"" + tok + "\"" else "'" + tok + "'"
  }

  /**
    `int(result.split()[-1])`: the last whitespace-separated token of the status string read
    as an integer, or the message of the exception Python raises.
   */
  function AffectedRows(status: string): (r: Result<int, string>)
    ensures Words(status) == [] <==> r == Err("list index out of range")
    ensures Words(status) != [] ==> var tok := Words(status)[|Words(status)| - 1];
      && (ParsePyInt(tok).Some? ==> r == Ok(ParsePyInt(tok).value))
      && (ParsePyInt(tok).None? ==> r == Err("invalid literal for int() with base 10: " + PyRepr(tok)))
  {
    var words := Words(status);
    if words == [] then Err("list index out of range")
    else
      var tok := words[|words| - 1];
      match ParsePyInt(tok)
      case Some(n) => Ok(n)
      case None => Err("invalid literal for int() with base 10: " + PyRepr(tok))
  }

  /** `delete_chat_session`, with `execute` the database's answer to the delete statement. */
  function DeleteChatSession(sessionId: string, pool: bool, execute: string -> Result<string, string>): (r: Result<DeleteReply, HttpError>)
    ensures !pool ==> r == Err(HttpError(500, DeleteErrorPrefix + HttpErrorText(NotInitialized)))
    ensures r.Ok? <==> pool && execute(sessionId).Ok? && AffectedRows(execute(sessionId).value).Ok?
    ensures r.Ok? ==> r.value.message == "Session " + sessionId + " deleted successfully"
    ensures r.Ok? ==> r.value.affectedRows == AffectedRows(execute(sessionId).value).value
    ensures pool && execute(sessionId).Err? ==> r == Err(HttpError(500, DeleteErrorPrefix + execute(sessionId).error))
    ensures pool && execute(sessionId).Ok? && AffectedRows(execute(sessionId).value).Err? ==>
      r == Err(HttpError(500, DeleteErrorPrefix + AffectedRows(execute(sessionId).value).error))
  {
    if !pool then Err(HttpError(500, DeleteErrorPrefix + HttpErrorText(NotInitialized)))
    else match execute(sessionId)
      case Err(e) => Err(HttpError(500, DeleteErrorPrefix + e))
      case Ok(status) =>
        match AffectedRows(status)
        case Err(e) => Err(HttpError(500, DeleteErrorPrefix + e))
        case Ok(n) => Ok(DeleteReply("Session " + sessionId + " deleted successfully", n))
  }

  /** The status Postgres reports for a delete, `DELETE n`, is read back as `n` affected rows. */
  lemma DeleteStatusRoundTrip(n: nat)
    ensures AffectedRows("DELETE " + NatToString(n)) == Ok(n)
  {
    var d := NatToString(n);
    assert IsWord("DELETE");
    assert "DELETE" + " " == "DELETE ";
    WordsOfWordThenSpace("DELETE");
    WordsAppend("DELETE ", d);
    assert IsWord(d);
    WordsOfWord(d);
    ParsePyIntOfNatToString(n);
  }

  /** So a delete that succeeds in the database reports its row count. */
  lemma DeleteReportsRowCount(sessionId: string, execute: string -> Result<string, string>, n: nat)
    requires execute(sessionId) == Ok("DELETE " + NatToString(n))
    ensures DeleteChatSession(sessionId, true, execute) == Ok(DeleteReply("Session " + sessionId + " deleted successfully", n))
  {
    DeleteStatusRoundTrip(n);
  }
}
