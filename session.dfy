/** The page's session (app/page.tsx): the state the handlers replace step
    by step, with the route handlers called in place of `fetch`. */
module Session {
  import opened Wrappers
  import opened JsText
  import opened Entities
  import Chunker
  import Embedder
  import Retriever
  import Generator

  /** The body the vector store route answers with on success. */
  datatype StoreReceipt = StoreReceipt(stored: nat, message: string)

  /** The vector store route (`POST /api/vectordb`): a missing, non-array
      or empty `embeddings` field is refused; otherwise the count is echoed. */
  function StoreResponse(embeddings: Option<seq<Embedding>>): (r: Result<StoreReceipt>)
    ensures r.Failure? <==> embeddings.None? || embeddings.value == []
    ensures r.Failure? ==> r.error == "Invalid embeddings input"
    ensures r.Success? ==> r.value.stored == |embeddings.value|
    ensures r.Success? ==>
      r.value.message == "Successfully stored " + NatToString(|embeddings.value|) + " vectors in the database"
  {
    if embeddings.None? || embeddings.value == [] then Failure("Invalid embeddings input")
    else
      var n := |embeddings.value|;
      Success(StoreReceipt(n, "Successfully stored " + NatToString(n) + " vectors in the database"))
  }

  /** The chunk size the page starts with and returns to on reset. */
  const InitialChunkSize: real := 200.0

  /** `pipelineStages`: one flag per stage. */
  datatype Stages = Stages(
    document: bool, chunking: bool, embedding: bool, vectorDB: bool,
    query: bool, retrieval: bool, generation: bool)

  /** The flags, each derived from one piece of state alone. */
  function StagesOf(
    documents: seq<string>, chunks: seq<Chunk>, embeddings: seq<Embedding>, stored: bool,
    query: string, queryResult: Option<Result<QueryResult>>,
    generationResult: Option<Result<GenerationResult>>): (st: Stages)
    ensures st.document <==> documents != []
    ensures st.chunking <==> chunks != []
    ensures st.embedding <==> embeddings != []
    ensures st.vectorDB <==> stored
    ensures st.query <==> query != []
    ensures st.retrieval <==> queryResult.Some?
    ensures st.generation <==> generationResult.Some?
  {
    Stages(|documents| > 0, |chunks| > 0, |embeddings| > 0, stored, |query| > 0,
      queryResult.Some?, generationResult.Some?)
  }

  /** What the handlers keep true between them: each stage needs the one
      before it, and a non-empty query has been answered. Nothing ties the
      generation result to the query result: a timer scheduled before a
      reset still fires after it. */
  predicate Consistent(
    documents: seq<string>, chunks: seq<Chunk>, embeddings: seq<Embedding>, stored: bool,
    query: string, queryResult: Option<Result<QueryResult>>,
    generationResult: Option<Result<GenerationResult>>)
  {
    && (chunks != [] ==> documents != [])
    && (embeddings != [] ==> chunks != [])
    && (stored ==> embeddings != [])
    && (queryResult.Some? ==> stored)
    && (query != [] ==> queryResult.Some?)
  }

  /** The stages up to retrieval light up in pipeline order, and a lit query
      stage has a lit retrieval stage. Retrieval can be lit without the query
      stage (an empty query is answered with the route's error), and
      generation is not ordered at all. */
  predicate Ordered(st: Stages) {
    && (st.query ==> st.retrieval)
    && (st.retrieval ==> st.vectorDB)
    && (st.vectorDB ==> st.embedding)
    && (st.embedding ==> st.chunking)
    && (st.chunking ==> st.document)
  }

  /** Chunk ids restart at "chunk-0" for every document, so a session that
      chunks two documents holds the id "chunk-0" twice. */
  lemma DuplicateIdsAcrossDocuments(t1: string, t2: string, s1: Option<real>, s2: Option<real>)
    requires t1 != "" && t2 != ""
    ensures var c1 := Chunker.Response(Some(t1), s1).value;
      var c2 := Chunker.Response(Some(t2), s2).value;
      var all := c1 + c2;
      && |c1| < |all|
      && all[0].id == "chunk-0" && all[|c1|].id == "chunk-0"
  {
    Chunker.ResponseStartsAtChunk0(Some(t1), s1);
    Chunker.ResponseStartsAtChunk0(Some(t2), s2);
  }

  /** A generation the query handler has scheduled: the query text and the
      chunks its timer's callback hands to the generation route (none after
      a query route error, whose body has no `relevantChunks`). */
  datatype Timer = Timer(queryText: string, context: Option<seq<Chunk>>)

  /** The page's state. `sqrt` stands for `Math.sqrt`; `timers` are the
      scheduled generations that have not fired yet. */
  class Session {
    const sqrt: real -> real
    var documents: seq<string>
    var chunks: seq<Chunk>
    var chunkSize: real
    var embeddings: seq<Embedding>
    var isStoredInVectorDB: bool
    var query: string
    var queryResult: Option<Result<QueryResult>>
    var generationResult: Option<Result<GenerationResult>>
    var timers: seq<Timer>

    ghost predicate Valid()
      reads this
    {
      Consistent(documents, chunks, embeddings, isStoredInVectorDB, query, queryResult, generationResult)
    }

    /** `pipelineStages`. */
    function PipelineStages(): (st: Stages)
      reads this
      ensures Valid() ==> Ordered(st)
    {
      StagesOf(documents, chunks, embeddings, isStoredInVectorDB, query, queryResult, generationResult)
    }

    /** The initial `useState` values. */
    constructor(sqrt: real -> real)
      ensures this.sqrt == sqrt
      ensures documents == [] && chunks == [] && chunkSize == InitialChunkSize && embeddings == []
      ensures !isStoredInVectorDB && query == "" && queryResult.None? && generationResult.None?
      ensures timers == []
      ensures Valid()
    {
      this.sqrt := sqrt;
      documents := [];
      chunks := [];
      chunkSize := InitialChunkSize;
      embeddings := [];
      isStoredInVectorDB := false;
      query := "";
      queryResult := None;
      generationResult := None;
      timers := [];
    }

    /** `handleDocumentSubmit`: the size and the document are recorded
        first; the returned chunks are appended after the existing ones.
        When the chunk route refuses the text there is no `chunks` field to
        spread, the handler throws, and the chunks stay as they were. */
    method SubmitDocument(text: string, size: real)
      requires Valid()
      modifies this
      ensures Valid()
      ensures documents == old(documents) + [text]
      ensures chunkSize == size
      ensures var r := Chunker.Response(Some(text), Some(size));
        chunks == if r.Success? then old(chunks) + r.value else old(chunks)
      ensures text != "" ==> |old(chunks)| < |chunks| && chunks[|old(chunks)|].id == "chunk-0"
      ensures embeddings == old(embeddings) && isStoredInVectorDB == old(isStoredInVectorDB)
      ensures query == old(query) && queryResult == old(queryResult) && generationResult == old(generationResult)
      ensures timers == old(timers)
    {
      chunkSize := size;
      documents := documents + [text];
      var r := Chunker.Post(Some(text), Some(size));
      if r.Success? {
        Chunker.ResponseStartsAtChunk0(Some(text), Some(size));
        chunks := chunks + r.value;
      }
    }

    /** `handleGenerateEmbeddings`: nothing without chunks; otherwise
        embeddings for all current chunks, including those embedded before,
        are appended after the existing ones. */
    method GenerateEmbeddings()
      requires Valid()
      modifies this
      ensures Valid()
      ensures old(chunks) == [] ==> embeddings == old(embeddings)
      ensures old(chunks) != [] ==> embeddings == old(embeddings) + Embedder.Response(Some(old(chunks)), sqrt).value
      ensures old(chunks) != [] ==> |embeddings| == |old(embeddings)| + |old(chunks)|
      ensures documents == old(documents) && chunks == old(chunks) && chunkSize == old(chunkSize)
      ensures isStoredInVectorDB == old(isStoredInVectorDB)
      ensures query == old(query) && queryResult == old(queryResult) && generationResult == old(generationResult)
      ensures timers == old(timers)
    {
      if |chunks| == 0 {
        return;
      }
      var r := Embedder.Response(Some(chunks), sqrt);
      embeddings := embeddings + r.value;
    }

    /** `handleStoreInVectorDB`: nothing without embeddings; otherwise the
        stored flag is set when the store reports success. */
    method StoreInVectorDB()
      requires Valid()
      modifies this
      ensures Valid()
      ensures isStoredInVectorDB == (old(isStoredInVectorDB) || old(embeddings) != [])
      ensures documents == old(documents) && chunks == old(chunks) && chunkSize == old(chunkSize)
      ensures embeddings == old(embeddings)
      ensures query == old(query) && queryResult == old(queryResult) && generationResult == old(generationResult)
      ensures timers == old(timers)
    {
      if |embeddings| == 0 {
        return;
      }
      var r := StoreResponse(Some(embeddings));
      if r.Success? {
        isStoredInVectorDB := true;
      }
    }

    /** `handleQuery`: a query is refused unless the embeddings are stored;
        otherwise the query is recorded, the query route's answer, an error
        included, becomes the query result, and a timer is scheduled with
        the query text and the answer's relevant chunks. The generation
        result is left to the timer. */
    method Query(queryText: string)
      requires Valid()
      modifies this
      ensures Valid()
      ensures !old(isStoredInVectorDB) ==>
        query == old(query) && queryResult == old(queryResult) && timers == old(timers)
      ensures old(isStoredInVectorDB) ==>
        var qr := Retriever.Response(Some(queryText), Some(old(embeddings)), Some(old(chunks)), sqrt);
        var context := if qr.Success? then Some(qr.value.relevantChunks) else None;
        && query == queryText
        && queryResult == Some(qr)
        && timers == old(timers) + [Timer(queryText, context)]
      ensures documents == old(documents) && chunks == old(chunks) && chunkSize == old(chunkSize)
      ensures embeddings == old(embeddings) && isStoredInVectorDB == old(isStoredInVectorDB)
      ensures generationResult == old(generationResult)
    {
      if !isStoredInVectorDB {
        return;
      }
      query := queryText;
      var qr := Retriever.Post(Some(queryText), Some(embeddings), Some(chunks), sqrt);
      queryResult := Some(qr);
      var context := if qr.Success? then Some(qr.value.relevantChunks) else None;
      timers := timers + [Timer(queryText, context)];
    }

    /** Timer `i` fires: the generation route's answer for the query text
        and chunks it captured becomes the generation result, and the timer
        is gone. Timers may fire in any order, since each callback awaits
        its own request. */
    method CompleteGeneration(i: nat)
      requires Valid() && i < |timers|
      modifies this
      ensures Valid()
      ensures var t := old(timers[i]);
        generationResult == Some(Generator.Response(Some(t.queryText), t.context))
      ensures timers == old(timers[..i] + timers[i + 1..])
      ensures documents == old(documents) && chunks == old(chunks) && chunkSize == old(chunkSize)
      ensures embeddings == old(embeddings) && isStoredInVectorDB == old(isStoredInVectorDB)
      ensures query == old(query) && queryResult == old(queryResult)
    {
      var t := timers[i];
      var r := Generator.Response(Some(t.queryText), t.context);
      generationResult := Some(r);
      timers := timers[..i] + timers[i + 1..];
    }

    /** `resetPipeline`. Scheduled timers are not cancelled. */
    method Reset()
      modifies this
      ensures Valid()
      ensures documents == [] && chunks == [] && chunkSize == InitialChunkSize && embeddings == []
      ensures !isStoredInVectorDB && query == "" && queryResult.None? && generationResult.None?
      ensures timers == old(timers)
    {
      documents := [];
      chunks := [];
      chunkSize := InitialChunkSize;
      embeddings := [];
      isStoredInVectorDB := false;
      query := "";
      queryResult := None;
      generationResult := None;
    }
  }
}
