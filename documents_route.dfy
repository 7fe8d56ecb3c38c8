/**
  The document handlers of `app/api/v1/documents.py`: `process_documents`, which attaches
  an embedding to every chunk document in place and then records each document in the
  database, and `search_documents`. The embedding model, the vector store, MD5 and the
  database are parameters.
 */
module DocumentsRoute {
  import opened Results
  import opened Text
  import opened Records

  const NoDocumentsError: string := "No documents found to process"
  const NoDocumentsMessage: string := "No documents found in the specified path"
  const ProcessErrorPrefix: string := "Error processing documents: "
  const SearchErrorPrefix: string := "Error searching documents: "
  /** What Python raises for `embeddings[i]` past the end of the list. */
  const IndexErrorText: string := "list index out of range"

  /** The defaults of the search endpoint's `limit` and `threshold` query parameters. */
  const DefaultSearchLimit: int := 5
  const DefaultSearchThreshold: real := 0.5

  // ---------------------------------------------------------------------------------------
  // Attaching embeddings
  // ---------------------------------------------------------------------------------------

  /**
    The documents after `doc['embedding'] = embeddings[i]` for every index the embedding
    list reaches; the loop stops (by raising) at the first index it does not.
   */
  function WithEmbeddings(docs: seq<Document>, embeddings: seq<seq<real>>): (r: seq<Document>)
    ensures |r| == |docs|
    ensures forall i :: 0 <= i < |docs| ==>
      r[i].content == docs[i].content && r[i].source == docs[i].source && r[i].metadata == docs[i].metadata
    ensures forall i :: 0 <= i < |docs| ==> r[i].embedding == if i < |embeddings| then Some(embeddings[i]) else docs[i].embedding
  {
    seq(|docs|, i requires 0 <= i < |docs| => if i < |embeddings| then docs[i].(embedding := Some(embeddings[i])) else docs[i])
  }

  /**
    The loop of lines 36-37, in place. It reports whether it went through every document;
    when it did not, the handler fails with an index error.
   */
  method AttachEmbeddings(docs: array<Document>, embeddings: seq<seq<real>>) returns (complete: bool)
    modifies docs
    ensures complete <==> docs.Length <= |embeddings|
    ensures docs[..] == WithEmbeddings(old(docs[..]), embeddings)
  {
    var i := 0;
    while i < docs.Length
      invariant 0 <= i <= docs.Length && i <= |embeddings|
      invariant forall j :: 0 <= j < i ==> docs[j] == old(docs[j]).(embedding := Some(embeddings[j]))
      invariant forall j :: i <= j < docs.Length ==> docs[j] == old(docs[j])
    {
      if i == |embeddings| {
        return false;
      }
      docs[i] := docs[i].(embedding := Some(embeddings[i]));
      i := i + 1;
    }
    return true;
  }

  // ---------------------------------------------------------------------------------------
  // Recording the documents
  // ---------------------------------------------------------------------------------------

  /** The values the insert into `documents` is given. */
  datatype DocumentRow = DocumentRow(filename: string, filePath: string, contentHash: string)

  /** The row for one document, with `md5` the hex digest of its content. */
  function RowOf(md5: string -> string, d: Document): (row: DocumentRow)
    ensures row.filename == d.metadata.filename && row.filePath == d.metadata.filePath && row.contentHash == md5(d.content)
  {
    DocumentRow(d.metadata.filename, d.metadata.filePath, md5(d.content))
  }

  /** `f"Error saving {filename}: {str(e)}"`. */
  function SaveError(filename: string, message: string): (e: string)
    ensures |e| == |filename| + |message| + 15
    ensures OccursAt(e, "Error saving ", 0) && OccursAt(e, filename, 13)
    ensures OccursAt(e, ": ", |filename| + 13) && OccursAt(e, message, |filename| + 15)
  {
    PartsOfFour("Error saving ", filename, ": ", message);
    "Error saving " + filename + ": " + message
  }

  /**
    Whether the insert for the document at `i` raised, and with what: `insert` stands for
    the database, which sees the position and the row.
   */
  function InsertOutcome(docs: seq<Document>, md5: string -> string, insert: (nat, DocumentRow) -> Option<string>, i: nat): Option<string>
    requires i < |docs|
  {
    insert(i, RowOf(md5, docs[i]))
  }

  /** `saved_count` after the save loop has gone through `docs`. */
  function SavedCount(docs: seq<Document>, pool: bool, md5: string -> string, insert: (nat, DocumentRow) -> Option<string>): (n: nat)
    ensures n <= |docs|
    decreases |docs|
  {
    if docs == [] then 0
    else
      var k := |docs| - 1;
      SavedCount(docs[..k], pool, md5, insert) + if pool && InsertOutcome(docs, md5, insert, k).None? then 1 else 0
  }

  /** `errors` after the save loop has gone through `docs`. */
  function SaveErrors(docs: seq<Document>, pool: bool, md5: string -> string, insert: (nat, DocumentRow) -> Option<string>): (errors: seq<string>)
    ensures |errors| <= |docs|
    decreases |docs|
  {
    if docs == [] then []
    else
      var k := |docs| - 1;
      SaveErrors(docs[..k], pool, md5, insert)
        + if pool && InsertOutcome(docs, md5, insert, k).Some?
          then [SaveError(docs[k].metadata.filename, InsertOutcome(docs, md5, insert, k).value)] else []
  }

  /** The save loop of lines 43-68. */
  method SaveDocuments(docs: array<Document>, pool: bool, md5: string -> string, insert: (nat, DocumentRow) -> Option<string>)
    returns (saved: nat, errors: seq<string>)
    ensures saved == SavedCount(docs[..], pool, md5, insert)
    ensures errors == SaveErrors(docs[..], pool, md5, insert)
  {
    saved, errors := 0, [];
    for i := 0 to docs.Length
      invariant saved == SavedCount(docs[..i], pool, md5, insert)
      invariant errors == SaveErrors(docs[..i], pool, md5, insert)
    {
      assert docs[..i + 1][..i] == docs[..i];
      var row := RowOf(md5, docs[i]);
      if pool {
        match insert(i, row)
        case None =>
          saved := saved + 1;
        case Some(e) =>
          errors := errors + [SaveError(docs[i].metadata.filename, e)];
      }
    }
    assert docs[..docs.Length] == docs[..];
  }

  /** With a pool every document is either counted as saved or reported by exactly one error. */
  lemma {:induction false} SaveAccounting(docs: seq<Document>, md5: string -> string, insert: (nat, DocumentRow) -> Option<string>)
    ensures SavedCount(docs, true, md5, insert) + |SaveErrors(docs, true, md5, insert)| == |docs|
    decreases |docs|
  {
    if docs != [] {
      SaveAccounting(docs[..|docs| - 1], md5, insert);
    }
  }

  /** Without a pool nothing is saved and nothing fails. */
  lemma {:induction false} NoPoolNoSaves(docs: seq<Document>, md5: string -> string, insert: (nat, DocumentRow) -> Option<string>)
    ensures SavedCount(docs, false, md5, insert) == 0 && SaveErrors(docs, false, md5, insert) == []
    decreases |docs|
  {
    if docs != [] {
      NoPoolNoSaves(docs[..|docs| - 1], md5, insert);
    }
  }

  /**
    The loop's rule for document `i`: with a pool, an insert that raises nothing adds one
    to the count and leaves the errors alone; one that raises appends exactly its error and
    leaves the count alone. Without a pool nothing changes.
   */
  lemma SaveStep(docs: seq<Document>, pool: bool, md5: string -> string, insert: (nat, DocumentRow) -> Option<string>, i: nat)
    requires i < |docs|
    ensures var outcome := InsertOutcome(docs, md5, insert, i);
      && SavedCount(docs[..i + 1], pool, md5, insert)
           == SavedCount(docs[..i], pool, md5, insert) + (if pool && outcome.None? then 1 else 0)
      && SaveErrors(docs[..i + 1], pool, md5, insert)
           == SaveErrors(docs[..i], pool, md5, insert)
              + (if pool && outcome.Some? then [SaveError(docs[i].metadata.filename, outcome.value)] else [])
  {
    assert docs[..i + 1][..i] == docs[..i];
    assert docs[..i + 1][i] == docs[i];
  }

  /** With a pool, every insert that raised is reported by its error. */
  lemma {:induction false} FailuresReported(docs: seq<Document>, md5: string -> string, insert: (nat, DocumentRow) -> Option<string>, i: nat)
    requires i < |docs| && InsertOutcome(docs, md5, insert, i).Some?
    ensures SaveError(docs[i].metadata.filename, InsertOutcome(docs, md5, insert, i).value) in SaveErrors(docs, true, md5, insert)
    decreases |docs|
  {
    var n := |docs| - 1;
    var front := docs[..n];
    var errors := SaveErrors(docs, true, md5, insert);
    var prev := SaveErrors(front, true, md5, insert);
    assert errors[..|prev|] == prev;
    if i < n {
      assert front[i] == docs[i];
      assert InsertOutcome(front, md5, insert, i) == InsertOutcome(docs, md5, insert, i);
      FailuresReported(front, md5, insert, i);
      var k :| 0 <= k < |prev| && prev[k] == SaveError(docs[i].metadata.filename, InsertOutcome(docs, md5, insert, i).value);
      assert errors[k] == prev[k];
    } else {
      assert errors[|prev|] == SaveError(docs[n].metadata.filename, InsertOutcome(docs, md5, insert, n).value);
    }
  }

  /**
    With the schema `init_db` creates, `content_hash` has a plain index and no unique
    constraint, so Postgres rejects the `ON CONFLICT (content_hash)` clause of every insert
    with the same message: nothing is saved, and each document gets its own error, in order.
   */
  lemma {:induction false} EveryInsertRejected(docs: seq<Document>, md5: string -> string,
                                               insert: (nat, DocumentRow) -> Option<string>, msg: string)
    requires forall i, row :: insert(i, row) == Some(msg)
    ensures SavedCount(docs, true, md5, insert) == 0
    ensures |SaveErrors(docs, true, md5, insert)| == |docs|
    ensures forall k :: 0 <= k < |docs| ==> SaveErrors(docs, true, md5, insert)[k] == SaveError(docs[k].metadata.filename, msg)
    decreases |docs|
  {
    if docs != [] {
      var n := |docs| - 1;
      var prev, last := SaveErrors(docs[..n], true, md5, insert), SaveError(docs[n].metadata.filename, msg);
      EveryInsertRejected(docs[..n], md5, insert, msg);
      assert InsertOutcome(docs, md5, insert, n) == Some(msg);
      assert SaveErrors(docs, true, md5, insert) == prev + [last];
      forall k | 0 <= k < |docs|
        ensures SaveErrors(docs, true, md5, insert)[k] == SaveError(docs[k].metadata.filename, msg)
      {
        if k < n {
          assert docs[..n][k] == docs[k];
        }
      }
    }
  }

  /** `e` is the error for some document whose insert raised: its file name and the exception's message. */
  predicate ReportsFailure(docs: seq<Document>, md5: string -> string, insert: (nat, DocumentRow) -> Option<string>, e: string) {
    exists i: nat :: i < |docs| && InsertOutcome(docs, md5, insert, i).Some?
      && e == SaveError(docs[i].metadata.filename, InsertOutcome(docs, md5, insert, i).value)
  }

  /** Every error in the list reports an insert that raised. */
  lemma {:induction false} SaveErrorsReportFailures(docs: seq<Document>, pool: bool, md5: string -> string, insert: (nat, DocumentRow) -> Option<string>)
    ensures forall k :: 0 <= k < |SaveErrors(docs, pool, md5, insert)| ==> ReportsFailure(docs, md5, insert, SaveErrors(docs, pool, md5, insert)[k])
    decreases |docs|
  {
    if docs != [] {
      var n := |docs| - 1;
      var front := docs[..n];
      SaveErrorsReportFailures(front, pool, md5, insert);
      var errors := SaveErrors(docs, pool, md5, insert);
      var prev := SaveErrors(front, pool, md5, insert);
      assert errors[..|prev|] == prev;
      forall k | 0 <= k < |errors|
        ensures ReportsFailure(docs, md5, insert, errors[k])
      {
        if k < |prev| {
          assert errors[k] == prev[k];
          var i: nat :| i < |front| && InsertOutcome(front, md5, insert, i).Some?
            && prev[k] == SaveError(front[i].metadata.filename, InsertOutcome(front, md5, insert, i).value);
          assert front[i] == docs[i];
          assert InsertOutcome(front, md5, insert, i) == InsertOutcome(docs, md5, insert, i);
        } else {
          assert errors[k] == SaveError(docs[n].metadata.filename, InsertOutcome(docs, md5, insert, n).value);
        }
      }
    }
  }

  // ---------------------------------------------------------------------------------------
  // The handler
  // ---------------------------------------------------------------------------------------

  /** `f"Successfully processed {len(documents)} document chunks. {saved_count} new entries saved."` */
  function ProcessMessage(processed: nat, saved: nat): (m: string)
    ensures OccursAt(m, "Successfully processed ", 0) && OccursAt(m, NatToString(processed), 23)
    ensures OccursAt(m, " document chunks. ", 23 + |NatToString(processed)|)
    ensures OccursAt(m, NatToString(saved), 41 + |NatToString(processed)|)
    ensures EndsWith(m, " new entries saved.")
  {
    var p, s := NatToString(processed), NatToString(saved);
    var head, mid, tail := "Successfully processed ", " document chunks. ", " new entries saved.";
    assert |head| == 23 && |mid| == 18 && |tail| == 19;
    var rest := s + tail;
    var after := mid + rest;
    var m := head + (p + after);
    assert m[..23] == head;
    assert m[23..] == p + after;
    assert (p + after)[..|p|] == p && (p + after)[|p|..] == after;
    assert after[..18] == mid && after[18..] == rest;
    assert rest[..|s|] == s && rest[|s|..] == tail;
    assert m[23 + |p|..] == after;
    assert m[41 + |p|..] == rest;
    m
  }

  /** The two counts can be read back from the message. */
  lemma ProcessMessageInjective(p1: nat, s1: nat, p2: nat, s2: nat)
    requires ProcessMessage(p1, s1) == ProcessMessage(p2, s2)
    ensures p1 == p2 && s1 == s2
  {
    var head := "Successfully processed ";
    var mid := " document chunks. ";
    var tail := " new entries saved.";
    var r1 := NatToString(p1) + (mid + (NatToString(s1) + tail));
    var r2 := NatToString(p2) + (mid + (NatToString(s2) + tail));
    assert r1 == ProcessMessage(p1, s1)[|head|..];
    assert r2 == ProcessMessage(p2, s2)[|head|..];
    NumeralPrefixInjective(p1, p2, mid + (NatToString(s1) + tail), mid + (NatToString(s2) + tail));
    assert NatToString(s1) + tail == (mid + (NatToString(s1) + tail))[|mid|..];
    assert NatToString(s2) + tail == (mid + (NatToString(s2) + tail))[|mid|..];
    NumeralPrefixInjective(s1, s2, tail, tail);
  }

  /**
    What `process_documents` answers for the documents `process_markdown_files` found, the
    outcome of `embed_texts`, the outcome of `VectorDatabase.add_documents`, the pool and the
    inserts. `add_documents` answers `True` or `False` and the handler ignores which, but it
    can also raise: creating the vector-store client happens outside its `try`.
   */
  function ProcessReply(docs: seq<Document>, embedded: Result<seq<seq<real>>, string>, added: Result<bool, string>,
                        pool: bool, md5: string -> string, insert: (nat, DocumentRow) -> Option<string>)
    : (r: Result<DocumentProcessResponse, HttpError>)
    ensures docs == [] ==> r == Ok(DocumentProcessResponse(0, [NoDocumentsError], NoDocumentsMessage))
    ensures r.Err? <==> docs != [] && (embedded.Err? || |embedded.value| < |docs| || added.Err?)
    ensures r.Err? ==> r.error.status == 500 && ProcessErrorPrefix <= r.error.detail
    ensures r.Ok? && docs != [] ==> r.value.processed == |docs|
    ensures r.Ok? && docs != [] ==>
      r.value.errors == SaveErrors(docs, pool, md5, insert) && r.value.message == ProcessMessage(|docs|, SavedCount(docs, pool, md5, insert))
    ensures docs != [] && embedded.Err? ==> r == Err(HttpError(500, ProcessErrorPrefix + embedded.error))
    ensures docs != [] && embedded.Ok? && |embedded.value| < |docs| ==> r == Err(HttpError(500, ProcessErrorPrefix + IndexErrorText))
    ensures docs != [] && embedded.Ok? && |embedded.value| >= |docs| && added.Err? ==>
      r == Err(HttpError(500, ProcessErrorPrefix + added.error))
  {
    if docs == [] then Ok(DocumentProcessResponse(0, [NoDocumentsError], NoDocumentsMessage))
    else match embedded
      case Err(e) => Err(HttpError(500, ProcessErrorPrefix + e))
      case Ok(embeddings) =>
        if |embeddings| < |docs| then Err(HttpError(500, ProcessErrorPrefix + IndexErrorText))
        else if added.Err? then Err(HttpError(500, ProcessErrorPrefix + added.error))
        else
          var stored := WithEmbeddings(docs, embeddings);
          var saved := SavedCount(stored, pool, md5, insert);
          SavesIgnoreEmbeddings(docs, embeddings, pool, md5, insert);
          Ok(DocumentProcessResponse(|docs|, SaveErrors(stored, pool, md5, insert), ProcessMessage(|docs|, saved)))
  }

  /**
    `process_documents`. `docs` holds what `process_markdown_files` returned and is updated
    in place; `added` is what `VectorDatabase.add_documents` returned or raised.
   */
  method ProcessDocuments(docs: array<Document>, embedded: Result<seq<seq<real>>, string>, added: Result<bool, string>,
                          pool: bool, md5: string -> string, insert: (nat, DocumentRow) -> Option<string>)
    returns (r: Result<DocumentProcessResponse, HttpError>)
    modifies docs
    ensures r == ProcessReply(old(docs[..]), embedded, added, pool, md5, insert)
    ensures docs[..] == if docs.Length > 0 && embedded.Ok? then WithEmbeddings(old(docs[..]), embedded.value) else old(docs[..])
  {
    if docs.Length == 0 {
      return Ok(DocumentProcessResponse(0, [NoDocumentsError], NoDocumentsMessage));
    }
    if embedded.Err? {
      return Err(HttpError(500, ProcessErrorPrefix + embedded.error));
    }
    var complete := AttachEmbeddings(docs, embedded.value);
    if !complete {
      return Err(HttpError(500, ProcessErrorPrefix + IndexErrorText));
    }
    if added.Err? {
      return Err(HttpError(500, ProcessErrorPrefix + added.error));
    }
    var saved, errors := SaveDocuments(docs, pool, md5, insert);
    var message := ProcessMessage(docs.Length, saved);
    r := Ok(DocumentProcessResponse(docs.Length, errors, message));
  }

  /**
    A successful run with documents reports every document as processed, whatever happened
    to the saves; with a pool the saved count and the errors add up to that number, without
    one both are zero.
   */
  lemma ProcessAccounting(docs: seq<Document>, embedded: Result<seq<seq<real>>, string>, added: Result<bool, string>,
                          pool: bool, md5: string -> string, insert: (nat, DocumentRow) -> Option<string>)
    requires docs != [] && ProcessReply(docs, embedded, added, pool, md5, insert).Ok?
    ensures var r := ProcessReply(docs, embedded, added, pool, md5, insert).value;
      var saved := SavedCount(WithEmbeddings(docs, embedded.value), pool, md5, insert);
      && r.processed == |docs|
      && r.message == ProcessMessage(|docs|, saved)
      && (pool ==> saved + |r.errors| == |docs|)
      && (!pool ==> saved == 0 && r.errors == [])
  {
    var stored := WithEmbeddings(docs, embedded.value);
    if pool {
      SaveAccounting(stored, md5, insert);
    } else {
      NoPoolNoSaves(stored, md5, insert);
    }
  }

  /** Whether `add_documents` answers `True` or `False` makes no difference to the reply. */
  lemma VectorAnswerIgnored(docs: seq<Document>, embedded: Result<seq<seq<real>>, string>,
                            pool: bool, md5: string -> string, insert: (nat, DocumentRow) -> Option<string>)
    ensures ProcessReply(docs, embedded, Ok(true), pool, md5, insert) == ProcessReply(docs, embedded, Ok(false), pool, md5, insert)
  {
  }

  /** An insert sees only the file name, path and content hash, none of which the embedding step changes. */
  lemma {:induction false} SavesIgnoreEmbeddings(docs: seq<Document>, embeddings: seq<seq<real>>, pool: bool,
                                                  md5: string -> string, insert: (nat, DocumentRow) -> Option<string>)
    ensures SavedCount(WithEmbeddings(docs, embeddings), pool, md5, insert) == SavedCount(docs, pool, md5, insert)
    ensures SaveErrors(WithEmbeddings(docs, embeddings), pool, md5, insert) == SaveErrors(docs, pool, md5, insert)
    decreases |docs|
  {
    if docs != [] {
      var n := |docs| - 1;
      SavesIgnoreEmbeddings(docs[..n], embeddings, pool, md5, insert);
      assert WithEmbeddings(docs, embeddings)[..n] == WithEmbeddings(docs[..n], embeddings);
    }
  }

  // ---------------------------------------------------------------------------------------
  // Search
  // ---------------------------------------------------------------------------------------

  /** `{"query": ..., "results": ..., "total_found": ...}`. */
  datatype SearchReply = SearchReply(query: string, results: seq<ContextDoc>, totalFound: int)

  /**
    `search_documents`. The vector store's search answers `[]` for a failure inside its
    `try`, but creating its client happens before that and can raise.
   */
  function SearchDocuments(query: string, limit: int, threshold: real,
                           embed: string -> Result<seq<real>, string>,
                           search: (seq<real>, int, real) -> Result<seq<ContextDoc>, string>): (r: Result<SearchReply, HttpError>)
    ensures r.Err? <==> embed(query).Err? || search(embed(query).value, limit, threshold).Err?
    ensures r.Err? ==> r.error.status == 500
    ensures r.Err? ==> r.error.detail == SearchErrorPrefix
                         + (if embed(query).Err? then embed(query).error else search(embed(query).value, limit, threshold).error)
    ensures r.Ok? ==> r.value.query == query && r.value.results == search(embed(query).value, limit, threshold).value
    ensures r.Ok? ==> r.value.totalFound == |r.value.results|
  {
    match embed(query)
    case Err(e) => Err(HttpError(500, SearchErrorPrefix + e))
    case Ok(v) =>
      match search(v, limit, threshold)
      case Err(e) => Err(HttpError(500, SearchErrorPrefix + e))
      case Ok(results) => Ok(SearchReply(query, results, |results|))
  }

  /** A request that gives neither `limit` nor `threshold` searches for at most 5 hits scoring at least 0.5. */
  lemma SearchDefaults(query: string, embed: string -> Result<seq<real>, string>,
                       search: (seq<real>, int, real) -> Result<seq<ContextDoc>, string>)
    requires SearchDocuments(query, DefaultSearchLimit, DefaultSearchThreshold, embed, search).Ok?
    ensures SearchDocuments(query, DefaultSearchLimit, DefaultSearchThreshold, embed, search).value.results
      == search(embed(query).value, 5, 0.5).value
  {
  }
}
