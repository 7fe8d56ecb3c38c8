/**
  `EmbeddingService` of `app/services/embedding_service.py` without its two foreign models:
  turning the walked markdown files into one document record per chunk, and building the
  context and the prompt for the generation model. The sentence-transformer embeddings, the
  file reading and the markdown-to-text conversion are not part of this model: a walked file
  arrives with the text extracted from it, or with the error that reading it raised.
 */
module EmbeddingService {
  import opened Results
  import opened Text
  import opened Records
  import Chunker

  /** The separator between a chunk's file path and its index in the chunk's `source`. */
  const ChunkTag: string := "#chunk-"

  /** `f"{file_path}#chunk-{i}"`. */
  function ChunkSource(filePath: string, i: nat): (s: string)
    ensures |s| > |filePath| + |ChunkTag| && s[..|filePath| + |ChunkTag|] == filePath + ChunkTag
    ensures forall k :: |filePath| + |ChunkTag| <= k < |s| ==> IsDigit(s[k])
  {
    var s := filePath + ChunkTag + NatToString(i);
    assert forall k :: |filePath| + |ChunkTag| <= k < |s| ==> s[k] == NatToString(i)[k - |filePath| - |ChunkTag|];
    s
  }

  /**
    A chunk's source names its file path and index unambiguously: the index is written in
    digits only, and the tag before it ends with the non-digit `-`, so the tag can only sit
    right before the last run of digits.
   */
  lemma ChunkSourceInjective(p1: string, i1: nat, p2: string, i2: nat)
    requires ChunkSource(p1, i1) == ChunkSource(p2, i2)
    ensures p1 == p2 && i1 == i2
  {
    var s := ChunkSource(p1, i1);
    if |p1| < |p2| {
      ChunkTagAt(p2, i2);
      DigitsAfterTag(p1, i1, |p2| + |ChunkTag| - 1);
      assert false;
    } else if |p2| < |p1| {
      ChunkTagAt(p1, i1);
      DigitsAfterTag(p2, i2, |p1| + |ChunkTag| - 1);
      assert false;
    } else {
      assert p1 == s[..|p1|] == p2;
      assert NatToString(i1) == s[|p1| + |ChunkTag|..] == NatToString(i2);
      DigitsValueOfNatToString(i1);
      DigitsValueOfNatToString(i2);
    }
  }

  /** The last character of the tag, `-`, sits right before the index. */
  lemma ChunkTagAt(p: string, i: nat)
    ensures ChunkSource(p, i)[|p| + |ChunkTag| - 1] == '-'
  {
  }

  /** Every character after the tag is a digit. */
  lemma DigitsAfterTag(p: string, i: nat, k: int)
    requires |p| + |ChunkTag| <= k < |ChunkSource(p, i)|
    ensures IsDigit(ChunkSource(p, i)[k])
  {
    assert ChunkSource(p, i)[k] == NatToString(i)[k - |p| - |ChunkTag|];
  }

  /**
    `os.path.join(root, name)` for a file name that `os.walk` lists: a `/` is put between
    the two unless `root` is empty or already ends with one; an absolute `name` replaces `root`.
   */
  function PathJoin(root: string, name: string): (path: string)
    ensures EndsWith(path, name)
  {
    if |name| > 0 && name[0] == '/' then name
    else if root == [] || root[|root| - 1] == '/' then root + name
    else root + "/" + name
  }

  /** The dictionary `process_markdown_files` builds for chunk `i` of a file's chunk list. */
  function ChunkDocument(filename: string, filePath: string, chunks: seq<string>, i: nat): (d: Document)
    requires i < |chunks|
    ensures d.content == chunks[i] && d.embedding.None?
    ensures d.metadata.filename == filename && d.metadata.filePath == filePath
    ensures d.metadata.chunkIndex == i < d.metadata.totalChunks == |chunks|
    ensures d.source == ChunkSource(d.metadata.filePath, d.metadata.chunkIndex)
  {
    Document(chunks[i], ChunkSource(filePath, i), ChunkMetadata(filename, filePath, i, |chunks|), None)
  }

  /** The documents of one file's chunk list, in chunk order. */
  function ChunkDocuments(filename: string, filePath: string, chunks: seq<string>): (docs: seq<Document>)
    ensures |docs| == |chunks|
  {
    seq(|chunks|, i requires 0 <= i < |chunks| => ChunkDocument(filename, filePath, chunks, i))
  }

  /**
    The inner `for i, chunk in enumerate(chunks)` loop: appends one document per chunk to
    `documents`, whose content is the chunk, whose source is the file path tagged with the
    chunk's index, and whose metadata records the file, the index and the chunk count.
   */
  method AppendChunkDocuments(documents: seq<Document>, filename: string, filePath: string, chunks: seq<string>)
    returns (out: seq<Document>)
    ensures out == documents + ChunkDocuments(filename, filePath, chunks)
    ensures |out| == |documents| + |chunks| && out[..|documents|] == documents
    ensures forall i :: 0 <= i < |chunks| ==>
      && out[|documents| + i].content == chunks[i]
      && out[|documents| + i].source == filePath + "#chunk-" + NatToString(i)
      && out[|documents| + i].metadata == ChunkMetadata(filename, filePath, i, |chunks|)
  {
    out := documents;
    var i := 0;
    while i < |chunks|
      invariant 0 <= i <= |chunks|
      invariant out == documents + ChunkDocuments(filename, filePath, chunks)[..i]
    {
      var document := Document(chunks[i], filePath + "#chunk-" + NatToString(i),
        ChunkMetadata(filename, filePath, i, |chunks|), None);
      assert ChunkDocuments(filename, filePath, chunks)[..i + 1]
        == ChunkDocuments(filename, filePath, chunks)[..i] + [document];
      out := out + [document];
      i := i + 1;
    }
    assert ChunkDocuments(filename, filePath, chunks)[..i] == ChunkDocuments(filename, filePath, chunks);
  }

  /** One file that `os.walk` lists under the docs path: its directory, its name, and the text extracted from it or the error reading it raised. */
  datatype WalkedFile = WalkedFile(root: string, name: string, text: Result<string, string>)

  /** The documents one walked file contributes: none unless it is a readable `.md` file. */
  ghost function FileDocuments(f: WalkedFile): seq<Document> {
    if EndsWith(f.name, ".md") && f.text.Ok? then
      ChunkDocuments(f.name, PathJoin(f.root, f.name), Chunker.Chunks(f.text.value, Chunker.DefaultChunkSize, Chunker.DefaultOverlap))
    else []
  }

  /** The documents of the walked files, in walk order. */
  ghost function WalkDocuments(walk: seq<WalkedFile>): seq<Document>
    decreases |walk|
  {
    if walk == [] then [] else WalkDocuments(walk[..|walk| - 1]) + FileDocuments(walk[|walk| - 1])
  }

  /** What `process_markdown_files` returns: nothing when the docs path does not exist. */
  ghost function MarkdownDocuments(pathExists: bool, walk: seq<WalkedFile>): (docs: seq<Document>)
    ensures !pathExists ==> docs == []
    ensures forall d :: d in docs ==> WellFormedDocument(d)
  {
    WalkDocumentsWellFormed(walk);
    if pathExists then WalkDocuments(walk) else []
  }

  /** `process_markdown_files`, with the existence of the docs path and the walk as inputs. */
  method ProcessMarkdownFiles(pathExists: bool, walk: seq<WalkedFile>) returns (documents: seq<Document>)
    ensures documents == MarkdownDocuments(pathExists, walk)
  {
    documents := [];
    if !pathExists {
      return;
    }
    var k := 0;
    while k < |walk|
      invariant 0 <= k <= |walk|
      invariant documents == WalkDocuments(walk[..k])
    {
      assert walk[..k + 1][..k] == walk[..k];
      documents := ProcessFile(documents, walk[k]);
      k := k + 1;
    }
    assert walk[..k] == walk;
  }

  /** The body of the walk for one listed file: a readable `.md` file adds its chunk documents. */
  method ProcessFile(documents: seq<Document>, f: WalkedFile) returns (out: seq<Document>)
    ensures out == documents + FileDocuments(f)
  {
    out := documents;
    if EndsWith(f.name, ".md") {
      var filePath := PathJoin(f.root, f.name);
      match f.text {
        case Ok(content) =>
          var chunks := Chunker.SplitTextIntoChunks(content, Chunker.DefaultChunkSize, Chunker.DefaultOverlap);
          out := AppendChunkDocuments(documents, f.name, filePath, chunks);
        case Err(_) =>
      }
    }
  }

  /**
    A document as `process_markdown_files` builds it: it comes from a `.md` file, its source
    is its file path tagged with its chunk index, its index is below its file's chunk count,
    and it has no embedding yet.
   */
  predicate WellFormedDocument(d: Document) {
    && EndsWith(d.metadata.filename, ".md")
    && EndsWith(d.metadata.filePath, d.metadata.filename)
    && d.source == ChunkSource(d.metadata.filePath, d.metadata.chunkIndex)
    && d.metadata.chunkIndex < d.metadata.totalChunks
    && d.embedding.None?
  }

  /** Every document `process_markdown_files` returns is well formed. */
  lemma {:induction false} WalkDocumentsWellFormed(walk: seq<WalkedFile>)
    ensures forall d :: d in WalkDocuments(walk) ==> WellFormedDocument(d)
    decreases |walk|
  {
    if walk != [] {
      WalkDocumentsWellFormed(walk[..|walk| - 1]);
      var f := walk[|walk| - 1];
      forall d | d in FileDocuments(f)
        ensures WellFormedDocument(d)
      {
        var docs := FileDocuments(f);
        var i :| 0 <= i < |docs| && docs[i] == d;
      }
    }
  }

  /** Two documents it returns with the same source come from the same chunk of the same file. */
  lemma SameSourceSameChunk(d1: Document, d2: Document)
    requires WellFormedDocument(d1) && WellFormedDocument(d2) && d1.source == d2.source
    ensures d1.metadata.filePath == d2.metadata.filePath && d1.metadata.chunkIndex == d2.metadata.chunkIndex
  {
    ChunkSourceInjective(d1.metadata.filePath, d1.metadata.chunkIndex, d2.metadata.filePath, d2.metadata.chunkIndex);
  }

  /** A readable `.md` file of at most 500 characters becomes the single document holding its whole text. */
  lemma ShortFileOneDocument(f: WalkedFile)
    requires EndsWith(f.name, ".md") && f.text.Ok? && |f.text.value| <= Chunker.DefaultChunkSize
    ensures FileDocuments(f) == [Document(f.text.value, ChunkSource(PathJoin(f.root, f.name), 0),
      ChunkMetadata(f.name, PathJoin(f.root, f.name), 0, 1), None)]
  {
  }

  // ---------------------------------------------------------------------------------------
  // Context and prompt for the generation model
  // ---------------------------------------------------------------------------------------

  /** `f"Document: {doc['source']}\nContent: {doc['content']}"`. */
  function ContextEntry(d: ContextDoc): string {
    "Document: " + d.source + "\nContent: " + d.content
  }

  /** The context entries of the docs, in order. */
  function ContextEntries(docs: seq<ContextDoc>): (es: seq<string>)
    ensures |es| == |docs|
  {
    seq(|docs|, i requires 0 <= i < |docs| => ContextEntry(docs[i]))
  }

  /** `context_text`: the entries joined by blank lines. */
  function ContextText(docs: seq<ContextDoc>): string {
    Join("\n\n", ContextEntries(docs))
  }

  const PromptHead: string :=
    "\n        You are a helpful AI assistant that answers questions based on the provided context.\n\n"
    + "        Context from the book/documentation:\n        "
  const PromptMiddle: string := "\n\n        User Question: "
  const PromptTail: string :=
    "\n\n        Please provide a helpful and accurate answer based on the context provided.\n"
    + "        If the context doesn't contain enough information to answer the question,\n"
    + "        please say so and suggest what additional information might be needed.\n        "

  /** The f-string prompt, with its source indentation kept. */
  function Prompt(query: string, contextText: string): string {
    PromptHead + contextText + PromptMiddle + query + PromptTail
  }

  /** Where the context starts in the prompt. */
  function ContextOffset(): nat { |PromptHead| }

  /** Where the query starts in the prompt. */
  function QueryOffset(contextText: string): nat { |PromptHead| + |contextText| + |PromptMiddle| }

  /** The prompt holds the query, and the context at the places the template puts them. */
  lemma PromptHolds(query: string, contextText: string, p: string, i: int)
    requires OccursAt(contextText, p, i)
    ensures OccursAt(Prompt(query, contextText), p, ContextOffset() + i)
    ensures OccursAt(Prompt(query, contextText), query, QueryOffset(contextText))
  {
    PartsOfFive(PromptHead, contextText, PromptMiddle, query, PromptTail);
    OccursWithin(Prompt(query, contextText), contextText, ContextOffset(), p, i);
  }

  /** Where entry `i` starts in the context. */
  function EntryOffset(docs: seq<ContextDoc>, i: nat): nat
    requires i < |docs|
  {
    JoinOffset("\n\n", ContextEntries(docs), i)
  }

  /** The context holds every doc's entry in the docs' order, with a blank line between consecutive entries. */
  lemma ContextHoldsEntries(docs: seq<ContextDoc>, i: nat)
    requires i < |docs|
    ensures OccursAt(ContextText(docs), ContextEntry(docs[i]), EntryOffset(docs, i))
    ensures i + 1 < |docs| ==> OccursAt(ContextText(docs), "\n\n", EntryOffset(docs, i) + |ContextEntry(docs[i])|)
  {
    JoinPlaces("\n\n", ContextEntries(docs), i);
  }

  /** So does the prompt, shifted by where the template puts the context. */
  lemma PromptHoldsEntries(query: string, docs: seq<ContextDoc>, i: nat)
    requires i < |docs|
    ensures OccursAt(Prompt(query, ContextText(docs)), ContextEntry(docs[i]), ContextOffset() + EntryOffset(docs, i))
    ensures i + 1 < |docs| ==>
      OccursAt(Prompt(query, ContextText(docs)), "\n\n", ContextOffset() + EntryOffset(docs, i) + |ContextEntry(docs[i])|)
  {
    var c, e, at := ContextText(docs), ContextEntry(docs[i]), EntryOffset(docs, i);
    ContextHoldsEntries(docs, i);
    PromptHolds(query, c, e, at);
    if i + 1 < |docs| {
      PromptHolds(query, c, "\n\n", at + |e|);
    }
  }

  /** An entry starts with the doc's source and ends with its content. */
  lemma ContextEntryFields(d: ContextDoc)
    ensures OccursAt(ContextEntry(d), d.source, 10)
    ensures OccursAt(ContextEntry(d), d.content, |d.source| + 20)
    ensures |ContextEntry(d)| == |d.source| + |d.content| + 20
  {
    PartsOfFour("Document: ", d.source, "\nContent: ", d.content);
  }

  /** With no docs the context is empty; with one it is that doc's entry alone. */
  lemma ContextTextSmall(docs: seq<ContextDoc>)
    ensures |docs| == 0 ==> ContextText(docs) == ""
    ensures |docs| == 1 ==> ContextText(docs) == ContextEntry(docs[0])
  {
  }

  const NotConfiguredReply: string := "Google AI is not configured. Please check your API key."
  const GenerationErrorPrefix: string := "Error generating response: "

  /**
    `generate_response_with_context`: the fixed reply without a configured model; otherwise
    the model's text for the prompt, or the error it raised after the fixed prefix. The model
    is a function from prompt to text or error message.
   */
  function GenerateResponseWithContext(model: Option<string -> Result<string, string>>, query: string,
                                       docs: seq<ContextDoc>): (reply: string)
    ensures model.None? ==> reply == NotConfiguredReply
    ensures model.Some? ==>
      var outcome := model.value(Prompt(query, ContextText(docs)));
      reply == if outcome.Ok? then outcome.value else GenerationErrorPrefix + outcome.error
  {
    match model
    case None => NotConfiguredReply
    case Some(generate) =>
      match generate(Prompt(query, ContextText(docs)))
      case Ok(text) => text
      case Err(msg) => GenerationErrorPrefix + msg
  }

  /** The model sees nothing but the prompt: two models that agree on it give the same reply. */
  lemma ReplyDependsOnPromptOnly(g1: string -> Result<string, string>, g2: string -> Result<string, string>,
                                 query: string, docs: seq<ContextDoc>)
    requires g1(Prompt(query, ContextText(docs))) == g2(Prompt(query, ContextText(docs)))
    ensures GenerateResponseWithContext(Some(g1), query, docs) == GenerateResponseWithContext(Some(g2), query, docs)
  {
  }
}
