# A verified model of the book site's RAG chatbot

The repository is a documentation site with a chat assistant. It has two halves.

- **Backend (FastAPI).** It walks the book's markdown files and cuts each text into overlapping chunks of at most 500 characters. It turns every chunk into a document record, attaches embeddings, and stores the records. It answers a chat message by retrieving the closest chunks and asking a generation model to answer from them. Missing context produces a fixed reply. Chat history can be read and deleted.
- **Front end (React).** It draws two animated canvas backgrounds: particles that drift and wrap at the canvas edges, and rotating "data lines" that wrap with a 100-unit margin. It filters a six-entry documentation list by a search box. It has a chat window that sends messages and shows the answers with a summary of their sources.

This project models that logic in Dafny and proves what the code promises about it.

## Modules

- `Results` holds the Option and Result datatypes.
- `Text` models the Python and JavaScript string built-ins the code relies on:
  - `str.strip` and `String.prototype.trim`, each with its own whitespace set;
  - `str.rfind`, `str.split()` and `int()` on a token;
  - `toLowerCase` and `includes`;
  - `join` and the decimal rendering of naturals in f-strings and template strings.
- `Records` mirrors the pydantic schemas and the document dictionaries. It also holds the text of a raised `HTTPException`: status, `": "`, then detail.
- `Chunker` models `_split_text_into_chunks`. The method `SplitTextIntoChunks` is the source's loop. It is proved to compute `Chunks`, the loop unrolled into recursive functions, and the properties of `Chunks` are proved as lemmas.
- `EmbeddingService` covers three things:
  - the per-chunk document records, built by the walk over the docs directory (`ProcessMarkdownFiles` and `AppendChunkDocuments`, loops proved against functions);
  - the context join and the prompt;
  - the no-model fallback of `generate_response_with_context`.
- `ChatRoute` covers the handlers of `chat.py`: `chat_with_documents`, `save_conversation`, `get_chat_history` and `delete_chat_session`. They are written as functions of the request and of the answers of the embedding, search, generation and database calls, which are parameters.
- `DocumentsRoute` covers `process_documents` and `search_documents`.
  - The embeddings are attached in place to an `array` of documents.
  - The save loop counts saves and collects errors.
  - Both methods are proved against recursive functions, whose accounting is proved as lemmas.
- `LandingCanvas` models the `Particle` and `DataLine` classes as Dafny classes. Their `update` methods are proved against pure step functions. The two stores are classes over a sequence of distinct objects, built by the constructor loops and stepped by `Animate`.
- `DocsSearch` models the `filteredDocs` filter over the six built-in entries.
- `ChatWidget` models the chat window's state and its handlers as a class:
  - `sendMessage`, with the HTTP outcome as a parameter;
  - `handleKeyPress` and the input's `onChange`;
  - the pure send-enabled guard, the session-id format and the sources summary line.

## Model

| member | source | states |
|---|---|---|
| Text.Strip | backend/app/services/embedding_service.py:115 | `strip()`/`trim()` return a result no longer than the input whose first and last characters are not whitespace of that language |
| Text.StripIsInfix | my-book/src/components/ChatInterface/index.tsx:45 | the stripped text is `s[a..b]`, and everything outside that range is whitespace |
| Text.StripEmptyIffBlank | my-book/src/components/ChatInterface/index.tsx:45 | stripping gives the empty string exactly when the text is all whitespace |
| Text.ToLower | my-book/src/pages/index.tsx:202-203 | lower-casing keeps the length and maps each character through the ASCII lower-case rule |
| Text.Contains | my-book/src/pages/index.tsx:202-203 | `includes` holds exactly when the pattern occurs at some index |
| Text.ContainsEmpty | my-book/src/pages/index.tsx:202-203 | every string includes the empty string |
| Text.RFind | backend/app/services/embedding_service.py:102-104 | `rfind` returns -1 or an index where the whole pattern fits |
| Text.RFindIsLast | backend/app/services/embedding_service.py:102-104 | `rfind` returns -1 exactly when the pattern does not occur; otherwise it returns the last occurrence |
| Text.JoinPlaces | backend/app/services/embedding_service.py:127-130 | in a join, element i sits at its offset, followed by the separator unless it is last |
| Text.NatToString | backend/app/services/embedding_service.py:64 | the decimal rendering is a non-empty run of digits with no leading zero |
| Text.NatToStringInjective | backend/app/services/embedding_service.py:64 | different naturals render differently |
| Text.NumeralPrefixInjective | backend/app/api/v1/documents.py:73 | a numeral followed by text that does not start with a digit determines both the number and the text |
| Text.ParsePyInt | backend/app/api/v1/chat.py:131 | `int(tok)` succeeds exactly on an optionally signed ASCII numeral (single `_` between digits allowed); the value is the digits' value, negated after `-` |
| Text.ParsePyIntOfNatToString | backend/app/api/v1/chat.py:131 | `int(str(n)) == n` |
| Text.Words | backend/app/api/v1/chat.py:131 | every token of `split()` is non-empty and free of whitespace |
| Text.WordsEmptyIffBlank | backend/app/api/v1/chat.py:131 | `split()` gives no tokens exactly when the text is all whitespace |
| Text.WordsAppend | backend/app/api/v1/chat.py:131 | splitting two texts joined at a token boundary gives the tokens of each, in order |
| Records.HttpErrorText | backend/app/api/v1/chat.py:74-78 | the text of a raised HTTP error is the status's decimal digits, then `: `, then the detail |
| Records.HttpErrorTextReadBack | backend/app/api/v1/chat.py:74-78 | the status and the detail can be read back from that text |
| Chunker.DefaultParamsValid | backend/app/services/embedding_service.py:82-83 | the defaults 500 and 50 satisfy the progress condition `10*overlap < 7*chunk_size` |
| Chunker.SentenceEndOccurs | backend/app/services/embedding_service.py:101-105 | a sentence end is an occurrence of `. `, `! ` or `? ` |
| Chunker.LastSentenceEnd | backend/app/services/embedding_service.py:101-105 | the max of the three `rfind`s is -1 or the index of a mark that fits in the window |
| Chunker.LastSentenceEndIsLast | backend/app/services/embedding_service.py:101-105 | that max is -1 exactly when the window has no sentence end; otherwise it is the last one |
| Chunker.LastMarkIn | backend/app/services/embedding_service.py:101-105 | a backward scan returns -1 or an offset within the scanned range |
| Chunker.LastMarkInIsLast | backend/app/services/embedding_service.py:101-105 | the scan finds the last sentence end in the range, or reports that there is none |
| Chunker.WindowEnd | backend/app/services/embedding_service.py:99-111 | a cut window ends after its start and within `chunk_size`: either the full window or past 70% plus the two mark characters |
| Chunker.CutScan | backend/app/services/embedding_service.py:99-111 | the scanning form of the cut keeps the same bounds |
| Chunker.CutScanIsLastMark | backend/app/services/embedding_service.py:107-111 | the scan cuts right after the last mark when `10*last > 7*chunk_size`, otherwise at the full window |
| Chunker.SentenceEndInWindow | backend/app/services/embedding_service.py:100 | a sentence end in the slice `text[start:end]` is one in the text, shifted by `start` |
| Chunker.CutMatchesSource | backend/app/services/embedding_service.py:99-111 | the source's `rfind`/`max`/70% computation cuts exactly at `WindowEnd` |
| Chunker.SpansEnds | backend/app/services/embedding_service.py:92-97 | there are no pieces exactly when the start is past the text; the first starts at `start`; the last ends at the text's end and is the only window reaching it |
| Chunker.SpanAt | backend/app/services/embedding_service.py:93-113 | every piece is a non-empty range of at most `chunk_size`; a piece that is not last ends at `WindowEnd`, and the next piece starts `overlap` before that |
| Chunker.CleanChunks | backend/app/services/embedding_service.py:115 | the final filter keeps at most as many pieces as it is given |
| Chunker.CleanChunksStripped | backend/app/services/embedding_service.py:115 | every kept piece is non-empty and has no leading or trailing whitespace |
| Chunker.CleanChunksAppend | backend/app/services/embedding_service.py:115 | strip-and-filter works piece by piece, so order is preserved |
| Chunker.CleanChunksOfOne | backend/app/services/embedding_service.py:115 | a piece is dropped exactly when it is blank, and otherwise kept stripped |
| Chunker.Chunks | backend/app/services/embedding_service.py:86-87 | a text of at most `chunk_size` characters is returned as `[text]`, unstripped even when empty; for a longer text every returned chunk is stripped and non-empty |
| Chunker.CutWindow | backend/app/services/embedding_service.py:99-111 | the loop body returns the cut `WindowEnd` and the chunk `text[start:end]` |
| Chunker.SplitTextIntoChunks | backend/app/services/embedding_service.py:79-115 | the source's `while` loop terminates and returns exactly `Chunks(text, chunk_size, overlap)` |
| Chunker.RawChunksBounded | backend/app/services/embedding_service.py:93-111 | every raw piece is the text between its span's ends and at most `chunk_size` long; the last is the suffix `text[start:]` |
| Chunker.SpansOverlap | backend/app/services/embedding_service.py:113 | each next piece starts exactly `overlap` characters before the previous one ended |
| Chunker.SpansCover | backend/app/services/embedding_service.py:92-113 | every index of the text from `start` on lies in some piece's span |
| Chunker.RawChunksCover | backend/app/services/embedding_service.py:95-97 | every character of the text appears in some raw piece, at its offset in that piece's span |
| Chunker.DefaultStride | backend/app/services/embedding_service.py:92-113 | with the defaults each piece that is not last is at least 353 long, and the next start is at least 303 further on |
| EmbeddingService.ChunkSource | backend/app/services/embedding_service.py:64 | a chunk's source is the file path, then `#chunk-`, then a non-empty run of digits |
| EmbeddingService.ChunkSourceInjective | backend/app/services/embedding_service.py:64 | `f"{file_path}#chunk-{i}"` determines both the path and the index |
| EmbeddingService.DigitsAfterTag | backend/app/services/embedding_service.py:64 | every character after the `#chunk-` tag is a digit |
| EmbeddingService.PathJoin | backend/app/services/embedding_service.py:46 | `os.path.join(root, file)` ends with the file name |
| EmbeddingService.ChunkDocument | backend/app/services/embedding_service.py:62-72 | chunk i's document holds `chunks[i]`, the file name and path, index i below `len(chunks)`, the source tagged with index i, and no embedding |
| EmbeddingService.ChunkDocuments | backend/app/services/embedding_service.py:61-72 | there is one document per chunk |
| EmbeddingService.AppendChunkDocuments | backend/app/services/embedding_service.py:61-72 | appends, in chunk order, one document per chunk, with content `chunks[i]`, source `path#chunk-i` and metadata `(file, path, i, len(chunks))`; earlier documents are kept |
| EmbeddingService.ProcessFile | backend/app/services/embedding_service.py:45-75 | one listed file adds its chunk documents when it is a readable `.md` file, and nothing otherwise |
| EmbeddingService.ProcessMarkdownFiles | backend/app/services/embedding_service.py:34-77 | returns nothing for a missing docs path; otherwise the documents of the walked files, in walk order |
| EmbeddingService.MarkdownDocuments | backend/app/services/embedding_service.py:34-77 | a missing docs path gives no documents; every returned document is well formed (see `WalkDocumentsWellFormed`) |
| EmbeddingService.WalkDocumentsWellFormed | backend/app/services/embedding_service.py:43-72 | every returned document is from a `.md` file, is tagged with its path and index, has an index below its chunk count, and has no embedding |
| EmbeddingService.SameSourceSameChunk | backend/app/services/embedding_service.py:64-69 | two such documents with the same source come from the same chunk of the same file |
| EmbeddingService.ShortFileOneDocument | backend/app/services/embedding_service.py:86-87 | a readable `.md` file of at most 500 characters becomes the single document holding its whole text, chunk 0 of 1 |
| EmbeddingService.ContextEntries | backend/app/services/embedding_service.py:127-130 | there is one context entry per document |
| EmbeddingService.ContextEntryFields | backend/app/services/embedding_service.py:128 | an entry is `Document: ` (10 characters), the source, `\nContent: ` (10 characters) and the content: the source at offset 10, the content right after the second label, and nothing else in its length |
| EmbeddingService.ContextHoldsEntries | backend/app/services/embedding_service.py:127-130 | entry i appears in the context at its offset, followed by `\n\n` unless it is last |
| EmbeddingService.ContextTextSmall | backend/app/services/embedding_service.py:127-130 | no documents give an empty context, and one document gives just its entry (every entry's place is in `ContextHoldsEntries`) |
| EmbeddingService.Prompt | backend/app/services/embedding_service.py:133-144 | the prompt template: the fixed head, the context, the fixed `User Question: ` part, the question and the fixed tail; where the context and the question sit is stated by `PromptHolds` |
| EmbeddingService.PromptHolds | backend/app/services/embedding_service.py:133-144 | the prompt holds the context text and, after it, the user question |
| EmbeddingService.PromptHoldsEntries | backend/app/services/embedding_service.py:127-144 | every context entry, in order and separated by `\n\n`, appears in the prompt |
| EmbeddingService.GenerateResponseWithContext | backend/app/services/embedding_service.py:117-150 | without a model the reply is the fixed "not configured" text; otherwise it is the model's text for the prompt, or `Error generating response: ` followed by its error |
| EmbeddingService.ReplyDependsOnPromptOnly | backend/app/services/embedding_service.py:146-150 | two models that answer the prompt alike give the same reply |
| ChatRoute.EffectiveSessionId | backend/app/api/v1/chat.py:23 | a non-empty requested id is used; otherwise (absent or empty) the generated one |
| ChatRoute.Sources | backend/app/api/v1/chat.py:45 | `sources` has one entry per context doc, its `source`, in order |
| ChatRoute.SaveConversation | backend/app/api/v1/chat.py:141-167 | without a pool: false, nothing sent; with one the row is sent, and the result is true exactly when the insert raises nothing |
| ChatRoute.ChatReply | backend/app/api/v1/chat.py:36-43 | no context docs give the fixed "couldn't find" reply; with docs, no model gives the "not configured" text, and a model gives its text for the prompt over the message and docs, or `Error generating response: ` and its error |
| ChatRoute.ChatWithDocuments | backend/app/api/v1/chat.py:19-66 | the handler fails exactly when the query embedding or the search fails |
| ChatRoute.ChatEchoesAndSaves | backend/app/api/v1/chat.py:47-60 | the answer echoes the effective session id, the context docs and their sources, and the saved row is that same session, message, reply and sources |
| ChatRoute.NoContextNoGeneration | backend/app/api/v1/chat.py:36-42 | with no context docs the reply is the fixed "couldn't find" text, and the outcome does not depend on the generation model |
| ChatRoute.ContextGoesToGeneration | backend/app/api/v1/chat.py:36-40 | with context docs the reply is what generation makes of the message and those docs |
| ChatRoute.ChatErrorIs500 | backend/app/api/v1/chat.py:62-66 | a failure is HTTP 500 with detail `Error processing chat request: ` followed by the error |
| ChatRoute.SearchOnlyWithRequestLimit | backend/app/api/v1/chat.py:29-33 | the search is consulted only with the request's `max_context_docs` and the 0.7 threshold |
| ChatRoute.ContextUsedOrEmpty | backend/app/api/v1/chat.py:97 | a NULL `context_used` is reported as `[]`, and a list as itself |
| ChatRoute.GetChatHistory | backend/app/api/v1/chat.py:69-109 | no pool gives a 500 wrapping "500: Database not initialized"; a fetch error is wrapped the same way; otherwise one entry per row, in order, under the requested session id |
| ChatRoute.HistoryEntry | backend/app/api/v1/chat.py:91-100 | each history entry keeps its row's id, session, message, reply and timestamp; a NULL or empty `context_used` becomes `[]` and any other list is kept |
| ChatRoute.AffectedRows | backend/app/api/v1/chat.py:131 | no tokens gives Python's IndexError text; otherwise the last token read by `int()`, or the ValueError text naming it |
| ChatRoute.DeleteChatSession | backend/app/api/v1/chat.py:112-138 | succeeds exactly when there is a pool, `execute` returns and `int(result.split()[-1])` reads its status; then it reports `Session {id} deleted successfully` and that number; otherwise a 500 whose detail is `Error deleting chat session: ` and the text of what was raised (the "500: Database not initialized" error, the database error, or the `IndexError`/`ValueError` of the parse) |
| ChatRoute.DeleteStatusRoundTrip | backend/app/api/v1/chat.py:131 | the status `DELETE n` is read back as `n` |
| ChatRoute.DeleteReportsRowCount | backend/app/api/v1/chat.py:123-132 | a delete answered with `DELETE n` reports `n` affected rows |
| DocumentsRoute.WithEmbeddings | backend/app/api/v1/documents.py:36-37 | document i gets `embeddings[i]` wherever the list reaches; content, source and metadata are unchanged |
| DocumentsRoute.AttachEmbeddings | backend/app/api/v1/documents.py:36-37 | in place, the array becomes `WithEmbeddings` of its old contents; it reports completion exactly when there are enough embeddings |
| DocumentsRoute.RowOf | backend/app/api/v1/documents.py:48-63 | the inserted row is the document's file name, path and content hash |
| DocumentsRoute.SaveError | backend/app/api/v1/documents.py:68 | an error is `Error saving `, the file name, `: `, the message, each at its offset, and nothing else |
| DocumentsRoute.SavedCount | backend/app/api/v1/documents.py:43-65 | the saved count never exceeds the number of documents (its per-document rule is `SaveStep`) |
| DocumentsRoute.SaveErrors | backend/app/api/v1/documents.py:44-68 | there are never more errors than documents (its per-document rule is `SaveStep`) |
| DocumentsRoute.SaveStep | backend/app/api/v1/documents.py:46-68 | with a pool, document i's insert that raises nothing adds one to the count and leaves the errors unchanged; one that raises `msg` leaves the count and appends exactly `Error saving {filename}: {msg}`; without a pool neither changes |
| DocumentsRoute.FailuresReported | backend/app/api/v1/documents.py:67-68 | with a pool, every insert that raised is reported by its error |
| DocumentsRoute.EveryInsertRejected | backend/app/api/v1/documents.py:55-68 | when every insert raises the same message, nothing is saved and document i's error is `Error saving {filename_i}: {msg}` |
| DocumentsRoute.SaveDocuments | backend/app/api/v1/documents.py:43-68 | the save loop's count and error list are `SavedCount` and `SaveErrors` of the documents |
| DocumentsRoute.SaveAccounting | backend/app/api/v1/documents.py:46-68 | with a pool, `saved_count + len(errors) == len(documents)` |
| DocumentsRoute.NoPoolNoSaves | backend/app/api/v1/documents.py:52-53 | without a pool, nothing is saved and there are no errors |
| DocumentsRoute.SaveErrorsReportFailures | backend/app/api/v1/documents.py:67-68 | every error is `Error saving {filename}: {msg}` for a document whose insert raised `msg` |
| DocumentsRoute.ProcessMessage | backend/app/api/v1/documents.py:73 | the message starts with `Successfully processed `, then the chunk count, ` document chunks. ` and the saved count, and ends with ` new entries saved.` |
| DocumentsRoute.ProcessMessageInjective | backend/app/api/v1/documents.py:73 | the message determines both the chunk count and the saved count |
| DocumentsRoute.ProcessReply | backend/app/api/v1/documents.py:15-80 | no documents give the fixed "No documents found" reply; the handler fails exactly when embedding fails, yields too few vectors, or `add_documents` raises, each a 500 with `Error processing documents: ` and that error (`list index out of range` for too few); otherwise `processed` is the document count, the errors are `SaveErrors` of the documents, and the message carries `SavedCount` |
| DocumentsRoute.ProcessDocuments | backend/app/api/v1/documents.py:15-80 | the handler returns `ProcessReply` of the documents it was given; the array then holds them with embeddings attached, whenever embedding succeeded |
| DocumentsRoute.VectorAnswerIgnored | backend/app/api/v1/documents.py:40 | whether `add_documents` answers `True` or `False` makes no difference to the reply |
| DocumentsRoute.ProcessAccounting | backend/app/api/v1/documents.py:40-74 | a successful run reports every document as processed, whatever the saves and the ignored vector-store result; the message carries the saved count; saves plus errors make up all documents with a pool, and both are zero without one |
| DocumentsRoute.SavesIgnoreEmbeddings | backend/app/api/v1/documents.py:46-68 | attaching embeddings changes neither the saved count nor the errors |
| DocumentsRoute.SearchDocuments | backend/app/api/v1/documents.py:152-180 | fails exactly when the query embedding or the vector search raises, with a 500 whose detail is `Error searching documents: ` and that error; otherwise the search's results for the request's limit and threshold, and their count |
| DocumentsRoute.SearchDefaults | backend/app/api/v1/documents.py:155-156 | without `limit` and `threshold`, the search asks for at most 5 hits scoring at least 0.5 |
| LandingCanvas.Place | my-book/src/pages/index.tsx:36-37 | `Math.random() * width` lies in [0, width], and below width when width > 0 |
| LandingCanvas.ScaleUnit | my-book/src/pages/index.tsx:36-37 | a draw in [0,1) scaled by a non-negative bound lies in [0, bound] |
| LandingCanvas.NewParticle | my-book/src/pages/index.tsx:35-42 | the particle constructor's fields from its six draws; their ranges are stated by `NewParticleRanges` |
| LandingCanvas.NewParticleRanges | my-book/src/pages/index.tsx:35-42 | a new particle lies on the canvas, has velocity in [-1,1), size in [0.5,2.5) and opacity in [0.3,0.8) |
| LandingCanvas.ParticleAxis | my-book/src/pages/index.tsx:45-50 | past the bound the axis jumps to exactly 0; below 0 to exactly the bound; otherwise it is `old + v`; always within [0, bound] |
| LandingCanvas.ParticleStep | my-book/src/pages/index.tsx:44-51 | after an update the position is in [0,width] × [0,height]; velocity, size and opacity are unchanged |
| LandingCanvas.ParticleMovesSlowly | my-book/src/pages/index.tsx:38-45 | without a wrap, a particle moves less than one unit per axis |
| LandingCanvas.Particle.constructor | my-book/src/pages/index.tsx:35-42 | the new object holds `NewParticle` of its draws |
| LandingCanvas.Particle.Update | my-book/src/pages/index.tsx:44-51 | in place, the state becomes `ParticleStep` of the old state |
| LandingCanvas.ParticleField.constructor | my-book/src/pages/index.tsx:61-63 | the store holds 50 distinct particles, particle i made from draw i |
| LandingCanvas.ParticleField.Animate | my-book/src/pages/index.tsx:65-75 | a frame updates every particle once and neither adds nor removes any |
| LandingCanvas.NewLine | my-book/src/pages/index.tsx:103-112 | the data line constructor's fields from its eight draws; their ranges are stated by `NewLineRanges` |
| LandingCanvas.NewLineRanges | my-book/src/pages/index.tsx:103-112 | a new line lies on the canvas, has length in [50,150), heading in [0,2π), opacity in [0.3,0.8), speed in [1,3) and velocity in [-1.5,1.5) |
| LandingCanvas.LineAxis | my-book/src/pages/index.tsx:119-122 | past `bound+100` the axis jumps to exactly -100; below -100 to exactly `bound+100`; otherwise it is kept; always within the margins |
| LandingCanvas.LineStep | my-book/src/pages/index.tsx:114-123 | the heading turns by exactly `speed*0.01`, and strictly when speed > 0; the position stays within the margins; the other fields are unchanged |
| LandingCanvas.LineStepsTurn | my-book/src/pages/index.tsx:115 | after k updates the heading has turned by exactly `k*speed*0.01` |
| LandingCanvas.LineMovesAtMostTwo | my-book/src/pages/index.tsx:116-117 | with cosine in [-1,1] and no wrap, a line moves at most two units along x |
| LandingCanvas.DataLine.constructor | my-book/src/pages/index.tsx:103-112 | the new object holds `NewLine` of its draws |
| LandingCanvas.DataLine.Update | my-book/src/pages/index.tsx:114-123 | in place, the state becomes `LineStep` of the old state |
| LandingCanvas.LineField.constructor | my-book/src/pages/index.tsx:141-143 | the store holds 12 distinct lines, line i made from draw i |
| LandingCanvas.LineField.Animate | my-book/src/pages/index.tsx:145-155 | a frame updates every line once and neither adds nor removes any |
| DocsSearch.Matches | my-book/src/pages/index.tsx:202-203 | an entry matches exactly when the lower-cased query occurs at some index of its lower-cased title or of its lower-cased content |
| DocsSearch.FilterDocs | my-book/src/pages/index.tsx:200-204 | an entry is kept exactly when it is in the list and its lower-cased title or content contains the lower-cased query |
| DocsSearch.FilterDocsOfOne | my-book/src/pages/index.tsx:200-204 | a single entry is kept exactly when it matches |
| DocsSearch.FilterDocsAppend | my-book/src/pages/index.tsx:200-204 | filtering a concatenation filters each part and concatenates, so every matching copy is kept in place |
| DocsSearch.FilterDocsSubsequence | my-book/src/pages/index.tsx:200-204 | the filtered list is a sub-list in the original order |
| DocsSearch.EmptyQueryKeepsAll | my-book/src/pages/index.tsx:200-204 | the empty query keeps the whole list |
| DocsSearch.NothingTypedShowsSix | my-book/src/pages/index.tsx:162-204 | before anything is typed, all six entries are shown |
| DocsSearch.FilterDocsIdempotent | my-book/src/pages/index.tsx:200-204 | filtering twice with the same query is filtering once |
| ChatWidget.SessionId | my-book/src/components/ChatInterface/index.tsx:41 | the session id starts with `session_` |
| ChatWidget.SessionIdReadBack | my-book/src/components/ChatInterface/index.tsx:41 | the clock reading and the random part can be read back from the id |
| ChatWidget.SendEnabled | my-book/src/components/ChatInterface/index.tsx:175 | send is enabled exactly when nothing is loading and the input is not blank |
| ChatWidget.ShouldSendOnKey | my-book/src/components/ChatInterface/index.tsx:101 | the key test of `handleKeyPress`; `Widget.HandleKeyPress` states what it does: Enter without Shift sends, any other key changes nothing |
| ChatWidget.SendStart | my-book/src/components/ChatInterface/index.tsx:47-56 | once a message is sent, loading is on and sending is disabled |
| ChatWidget.BotMessage | my-book/src/components/ChatInterface/index.tsx:72-94 | the bot message is from the bot, stamped with the answer time, and has sources exactly when the request was answered (its content is in `ReplyFollowsOutcome`) |
| ChatWidget.SendFinish | my-book/src/components/ChatInterface/index.tsx:95-97 | whatever the outcome, loading is off afterwards |
| ChatWidget.SendStep | my-book/src/components/ChatInterface/index.tsx:44-98 | `sendMessage` leaves the state unchanged exactly when the input is blank; otherwise loading ends and one request is sent (the rest is in `SendAppendsTwo`) |
| ChatWidget.BlankSendIsNoOp | my-book/src/components/ChatInterface/index.tsx:45 | a blank input changes nothing: no message, no loading, no request |
| ChatWidget.SendAppendsTwo | my-book/src/components/ChatInterface/index.tsx:47-97 | any other input is sent untrimmed with the session id and `max_context_docs` 5; the input clears; loading ends; exactly two messages are appended, the user's first, and earlier ones are kept |
| ChatWidget.ReplyFollowsOutcome | my-book/src/components/ChatInterface/index.tsx:71-94 | an ok answer shows its response and sources; a non-ok status or a thrown error shows the fixed apology with no sources |
| ChatWidget.ShownNames | my-book/src/components/ChatInterface/index.tsx:138 | exactly the first `min(3, len)` names are shown, as a prefix of the list |
| ChatWidget.MoreText | my-book/src/components/ChatInterface/index.tsx:139 | the ` and N more` part is empty exactly when there are at most three sources (its text is in `SummaryCountsTheRest`) |
| ChatWidget.SourcesSummary | my-book/src/components/ChatInterface/index.tsx:135-139 | the sources line appears exactly when sources exist and are non-empty |
| ChatWidget.SummaryNamesFirstSources | my-book/src/components/ChatInterface/index.tsx:138 | each of the first three names appears after `Sources: `, in order, at its offset in the `, ` join |
| ChatWidget.SummaryCountsTheRest | my-book/src/components/ChatInterface/index.tsx:139 | more than three sources end the line with ` and N more`, where N = length − 3 |
| ChatWidget.SummaryListsFew | my-book/src/components/ChatInterface/index.tsx:135-139 | up to three sources are all listed, with no count |
| ChatWidget.Widget.constructor | my-book/src/components/ChatInterface/index.tsx:25-42 | mounting starts with no messages, empty input, not loading, and the session id made once |
| ChatWidget.Widget.Edit | my-book/src/components/ChatInterface/index.tsx:167 | typing replaces the input and nothing else |
| ChatWidget.Widget.SendMessage | my-book/src/components/ChatInterface/index.tsx:44-98 | in place, the state becomes `SendStep` of the old state and outcome |
| ChatWidget.Widget.HandleKeyPress | my-book/src/components/ChatInterface/index.tsx:100-105 | Enter without Shift sends; any other key changes nothing |

## Notes on the code

- Particles. `x < 0` sets `x = canvas.width` (`my-book/src/pages/index.tsx:48`, likewise for y at line 50), so after an update x can equal the width. `ParticleStep` proves the closed range `[0, width] × [0, height]`.
- Vector-store failures. `VectorDatabase.search_documents` answers `[]` for a failure inside its `try`, and `add_documents` answers `False`. Both first create the Qdrant client outside the `try` (`backend/app/core/vector_db.py:18-21`), which can raise. So the model gives both searches, and `add_documents`, a `Result`, and each handler keeps its 500 path for that error.
- Duplicate chunks. `process_documents` inserts with `ON CONFLICT (content_hash) DO NOTHING` (`backend/app/api/v1/documents.py:57-59`). The schema `init_db` builds gives `content_hash` only a plain index and no unique constraint (`backend/app/core/database.py:45-63`). Postgres rejects an `ON CONFLICT` clause that names no unique or exclusion constraint, so with a pool every insert raises. Then `saved_count` is always 0, and every document produces an `Error saving ...` entry; `EveryInsertRejected` states this outcome. The model takes each insert's outcome as a parameter, so it also covers a database whose table has that constraint.

## Left out

- File reading, `os.walk`, `os.path.exists`, markdown-to-HTML conversion and BeautifulSoup text extraction. A walked file arrives as its directory, its name, and its extracted text or read error.
- The SentenceTransformer embeddings, Gemini generation, the Qdrant vector store and the asyncpg database. They are parameters: functions that return a value or an error message (for the vector store, the error it raises before its own `try`), an insert outcome per row, and "pool present".
- `hashlib.md5`, `uuid.uuid4`, `Date.now` and `Math.random`. They are parameters; random draws are reals in [0,1).
- Floating point. Coordinates, speeds and scores are reals. `Math.cos` and `Math.sin` are function parameters, bounded in [-1,1] where a lemma needs it. There is no claim of bit-exact agreement with IEEE doubles. The chunker's guard `last > chunk_size * 0.7` is modelled as `10 * last > 7 * chunk_size`. This matches the double product at the default size (`500 * 0.7 == 350.0`) but not at sizes where the product is inexact: in doubles `30 * 0.7 == 20.999999999999996`, so the source cuts at `last == 21` and the model does not.
- Canvas drawing, `requestAnimationFrame` scheduling, `offsetWidth` sizing and all JSX rendering apart from the sources line and the send button's disabled test.
- async/await scheduling and overlapping sends. `SendMessage` is one atomic step from sending to the answer.
- `get_document_status` and `clear_all_documents`: database and vector-store queries with no logic beyond passing results through.
- The `print` logging in every handler, and `scrollToBottom`.
- Text.ParsePyInt: accepts ASCII digits only. Python's `int()` also reads other Unicode decimal digits (`int('٣') == 3`), which the model rejects. The only caller reads the database's ASCII status text.
- Text.ToLower: only ASCII letters are lower-cased; JavaScript's full Unicode `toLowerCase` is not modelled.
- ChatRoute.PyRepr: models Python's `repr` of a token only for the choice of quotes; it does not model backslash escapes or non-printable characters.
- ChatWidget.Widget.constructor: the session id is set at construction, leaving out the first render, when it is still `''`, before the mount effect runs.
- ChatWidget.SessionId: the random part stands for the base-36 digits of `Math.random()`. How `toString(36).substr(2, 9)` computes them is not modelled.
- Message timestamps are the clock readings passed in. Their `Date` objects and `toLocaleTimeString` are not modelled.
- EmbeddingService.ProcessMarkdownFiles: the chunk size and overlap are the defaults 500 and 50, as the service calls it. `Chunker.SplitTextIntoChunks` takes any parameters with `10*overlap < 7*chunk_size`, which guarantees the loop progresses. Other values, for which the Python loop may not terminate, are not modelled.
- Exceptions other than the ones named are not modelled: Python's exception kinds and tracebacks. A raised error is its message string, except that the HTTP errors a handler raises and re-wraps read `{status}: {detail}`.
