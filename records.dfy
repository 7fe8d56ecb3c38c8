/**
  The records the backend passes between its services and handlers: the request and response
  models of `app/models/schemas.py` and the dictionaries that `process_markdown_files` and the
  vector store build.
 */
module Records {
  import opened Results
  import opened Text

  /** The `metadata` dictionary of a document chunk. */
  datatype ChunkMetadata = ChunkMetadata(filename: string, filePath: string, chunkIndex: nat, totalChunks: nat)

  /** A document chunk dictionary; `embedding` is absent until `process_documents` attaches one. */
  datatype Document = Document(content: string, source: string, metadata: ChunkMetadata, embedding: Option<seq<real>>)

  /** A hit of the vector store's similarity search: the stored payload and the similarity score. */
  datatype ContextDoc = ContextDoc(content: string, source: string, metadata: ChunkMetadata, score: real)

  /** `ChatRequest`: `session_id` is optional and `max_context_docs` defaults to 5. */
  datatype ChatRequest = ChatRequest(message: string, sessionId: Option<string>, maxContextDocs: int)

  /** `ChatResponse`. */
  datatype ChatResponse = ChatResponse(response: string, sessionId: string, contextUsed: seq<ContextDoc>, sources: seq<string>)

  /** `ConversationHistory`; `createdAt` stands for the row's timestamp. */
  datatype ConversationHistory = ConversationHistory(
    id: int, sessionId: string, userMessage: string, botResponse: string, contextUsed: seq<string>, createdAt: int)

  /** `DocumentProcessResponse`. */
  datatype DocumentProcessResponse = DocumentProcessResponse(processed: nat, errors: seq<string>, message: string)

  /** A `fastapi.HTTPException`: a status code and a detail text. */
  datatype HttpError = HttpError(status: nat, detail: string)

  /** `str()` of an `HTTPException`, as Starlette renders it: "{status_code}: {detail}". */
  function HttpErrorText(e: HttpError): (t: string)
    ensures |t| > |e.detail| + 2 && t[|t| - |e.detail|..] == e.detail
    ensures t[..|t| - |e.detail|] == NatToString(e.status) + ": "
  {
    NatToString(e.status) + ": " + e.detail
  }

  /** The status and the detail can be read back from the text. */
  lemma HttpErrorTextReadBack(e1: HttpError, e2: HttpError)
    requires HttpErrorText(e1) == HttpErrorText(e2)
    ensures e1 == e2
  {
    var x1, x2 := ": " + e1.detail, ": " + e2.detail;
    assert HttpErrorText(e1) == NatToString(e1.status) + x1;
    assert HttpErrorText(e2) == NatToString(e2.status) + x2;
    NumeralPrefixInjective(e1.status, e2.status, x1, x2);
    assert e1.detail == x1[2..] && e2.detail == x2[2..];
  }
}
