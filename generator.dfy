/** The template generator of the generation route
    (app/api/generate/route.ts). */
module Generator {
  import opened Wrappers
  import opened JsText
  import opened Entities

  // The canned responses, written as short literals joined by `+`: the
  // verifier handles a few short literals far more cheaply than one long one.

  const MachineLearningResponse: string :=
    "Based on " + "the retrieved " + "context, machine " + "learning is " + "a subset "
    + "of artificial " + "intelligence that " + "enables systems " + "to learn "
    + "and improve " + "from experience " + "without being " + "explicitly programmed. "
    + "It focuses " + "on developing " + "computer programs " + "that can "
    + "access data " + "and use " + "it to " + "learn for " + "themselves, identifying "
    + "patterns to " + "make better " + "decisions in " + "the future."
  const RagResponse: string :=
    "Retrieval-Augmented Generation " + "(RAG) is " + "an AI " + "framework that "
    + "combines information " + "retrieval with " + "text generation. " + "RAG systems "
    + "first retrieve " + "relevant documents " + "or passages " + "from a "
    + "knowledge base, " + "then use " + "this context " + "to generate "
    + "more accurate " + "and informed " + "responses. This " + "approach helps "
    + "language models " + "access up-to-date " + "information and "
    + "reduces hallucinations " + "by grounding " + "responses in " + "retrieved facts."
  const NlpResponse: string :=
    "Natural Language " + "Processing (NLP) " + "is a " + "branch of "
    + "artificial intelligence " + "that helps " + "computers understand, "
    + "interpret and " + "manipulate human " + "language. NLP " + "draws from "
    + "many disciplines, " + "including computer " + "science and "
    + "computational linguistics, " + "in its " + "pursuit to " + "fill the "
    + "gap between " + "human communication " + "and computer " + "understanding. Modern "
    + "NLP techniques " + "are based " + "on machine " + "learning, especially "
    + "deep learning " + "models."
  const EmbeddingResponse: string :=
    "Embeddings are " + "high-dimensional vector " + "representations of " + "text that "
    + "capture semantic " + "meaning. Each " + "chunk of " + "text is " + "converted to "
    + "a vector " + "in a " + "continuous space " + "where similar " + "texts have "
    + "similar vectors. " + "This enables " + "similarity search " + "and allows "
    + "the system " + "to find " + "relevant information " + "by comparing "
    + "vector distances."

  /** The keys of the `responses` table, in the order `Object.entries`
      visits them. */
  const Keys: seq<string> := ["machine learning", "rag", "nlp", "embedding"]

  /** The response stored under each key, position by position. */
  const Responses: seq<string> := [MachineLearningResponse, RagResponse, NlpResponse, EmbeddingResponse]

  const DefaultPrefix: string :=
    "Based on " + "the retrieved " + "context, I " + "can provide " + "the following "
    + "information:\n\n"
  const Ellipsis: string := "..."
  const DefaultSuffix: string :=
    "\n\nThis information " + "is derived " + "from the " + "documents you've "
    + "processed through " + "the RAG " + "pipeline. The " + "system retrieved "
    + "the most " + "relevant chunks " + "based on " + "semantic similarity " + "to your "
    + "query and " + "generated this " + "response using " + "that context."

  /** How much of the context text the default template quotes. */
  const QuoteLength: nat := 300

  /** The first key at or after `from` that occurs in
      `queryLower` (the `for..of` loop that returns on a match). */
  function FirstKeyword(queryLower: string, from: nat): (r: Option<nat>)
    requires from <= |Keys|
    ensures r.Some? ==> from <= r.value < |Keys| && Includes(queryLower, Keys[r.value])
    ensures r.Some? ==> forall j :: from <= j < r.value ==> !Includes(queryLower, Keys[j])
    ensures r.None? ==> forall j :: from <= j < |Keys| ==> !Includes(queryLower, Keys[j])
    decreases |Keys| - from
  {
    if from == |Keys| then None
    else if Includes(queryLower, Keys[from]) then Some(from)
    else FirstKeyword(queryLower, from + 1)
  }

  /** `contextText`: the chunk texts joined by blank lines. */
  function ContextText(context: seq<Chunk>): string {
    Join(Texts(context), "\n\n")
  }

  /** `s.substring(0, n)` for `n >= 0`. */
  function Head(s: string, n: nat): (r: string)
    ensures |r| == if |s| < n then |s| else n
    ensures r == s[..|r|]
  {
    if |s| < n then s else s[..n]
  }

  /** The default template around the quoted context. */
  function DefaultResponse(contextText: string): string {
    DefaultPrefix + Head(contextText, QuoteLength) + Ellipsis + DefaultSuffix
  }

  /** `generateResponse(query, context)`. */
  function GenerateResponse(query: string, context: seq<Chunk>): string {
    match FirstKeyword(Lower(query), 0)
    case Some(i) => Responses[i]
    case None => DefaultResponse(ContextText(context))
  }

  /** The first keyword occurring in the lowercased query selects its canned
      response, whatever the context. */
  lemma KeywordSelects(query: string, context: seq<Chunk>, i: nat)
    requires i < |Keys| && Includes(Lower(query), Keys[i])
    requires forall j :: 0 <= j < i ==> !Includes(Lower(query), Keys[j])
    ensures GenerateResponse(query, context) == Responses[i]
  {
  }

  /** A query with no keyword gets the default template. */
  lemma NoKeywordIsDefault(query: string, context: seq<Chunk>)
    requires forall j :: 0 <= j < |Keys| ==> !Includes(Lower(query), Keys[j])
    ensures GenerateResponse(query, context) == DefaultResponse(ContextText(context))
  {
  }

  /** A canned response does not depend on the context at all. */
  lemma CannedIgnoresContext(query: string, c1: seq<Chunk>, c2: seq<Chunk>)
    requires exists j :: 0 <= j < |Keys| && Includes(Lower(query), Keys[j])
    ensures GenerateResponse(query, c1) == GenerateResponse(query, c2)
  {
    var j :| 0 <= j < |Keys| && Includes(Lower(query), Keys[j]);
    assert FirstKeyword(Lower(query), 0).Some?;
  }

  /** The default response is the fixed prefix, the first (at most) 300
      characters of the context text, then "..." and the fixed suffix; the
      "..." is there even when the context text is short or empty. */
  lemma DefaultResponseShape(contextText: string)
    ensures var r := DefaultResponse(contextText);
      var n := if |contextText| < QuoteLength then |contextText| else QuoteLength;
      && |r| == |DefaultPrefix| + n + |Ellipsis| + |DefaultSuffix|
      && r[..|DefaultPrefix|] == DefaultPrefix
      && r[|DefaultPrefix|..|DefaultPrefix| + n] == contextText[..n]
      && r[|DefaultPrefix| + n..] == Ellipsis + DefaultSuffix
  {
    var n := if |contextText| < QuoteLength then |contextText| else QuoteLength;
    var r := DefaultResponse(contextText);
    var head := Head(contextText, QuoteLength);
    assert r == DefaultPrefix + head + (Ellipsis + DefaultSuffix);
    assert r[..|DefaultPrefix|] == DefaultPrefix;
    assert r[|DefaultPrefix|..|DefaultPrefix| + n] == head;
    assert r[|DefaultPrefix| + n..] == Ellipsis + DefaultSuffix;
  }

  /** When the first chunk has at least 300 characters, the default template
      quotes the start of that chunk and nothing of the others. */
  lemma DefaultQuotesFirstChunk(context: seq<Chunk>)
    requires context != [] && |context[0].text| >= QuoteLength
    ensures DefaultResponse(ContextText(context))
      == DefaultPrefix + context[0].text[..QuoteLength] + Ellipsis + DefaultSuffix
  {
    var texts := Texts(context);
    JoinStartsWithFirst(texts, "\n\n");
    var t := ContextText(context);
    assert t[..QuoteLength] == t[..|texts[0]|][..QuoteLength];
  }

  /** Only the first 300 characters of the context text matter. */
  lemma DefaultQuotesPrefixOnly(t1: string, t2: string)
    requires |t1| >= QuoteLength && |t2| >= QuoteLength && t1[..QuoteLength] == t2[..QuoteLength]
    ensures DefaultResponse(t1) == DefaultResponse(t2)
  {
  }

  /** The matching ignores ASCII case: the query and its lowercase get the
      same response. */
  lemma CaseInsensitive(query: string, context: seq<Chunk>)
    ensures GenerateResponse(Lower(query), context) == GenerateResponse(query, context)
  {
    assert Lower(Lower(query)) == Lower(query);
  }

  /** Keys match as raw substrings: any query containing "storage" (and not
      "machine learning") gets the RAG response, because "storage" contains
      "rag". */
  lemma StorageSelectsRag(query: string, context: seq<Chunk>)
    requires Includes(Lower(query), "storage")
    requires !Includes(Lower(query), "machine learning")
    ensures GenerateResponse(query, context) == RagResponse
  {
    var q := Lower(query);
    IncludesOccurs(q, "storage");
    var i :| OccursAt(q, "storage", i);
    assert q[i + 3..i + 6] == q[i..i + 7][3..6] == "rag";
    assert OccursAt(q, "rag", i + 3);
    IncludesOccurs(q, "rag");
    KeywordSelects(query, context, 1);
  }

  /** The generation route (`POST /api/generate`): a falsy `query` or a
      `context` that is not an array is refused; otherwise the prompt is the
      query unchanged and the context is the chunk texts in input order. */
  function Response(query: Option<string>, context: Option<seq<Chunk>>): (r: Result<GenerationResult>)
    ensures r.Failure? <==> query.None? || query.value == "" || context.None?
    ensures r.Failure? ==> r.error == "Invalid input"
    ensures r.Success? ==> && r.value.prompt == query.value
                           && r.value.response == GenerateResponse(query.value, context.value)
                           && |r.value.context| == |context.value|
                           && forall i :: 0 <= i < |context.value| ==> r.value.context[i] == context.value[i].text
  {
    if query.None? || query.value == "" || context.None? then Failure("Invalid input")
    else Success(GenerationResult(query.value, GenerateResponse(query.value, context.value), Texts(context.value)))
  }
}
