# RAG Visualizer engine, modelled in Dafny

This project models the engine behind the RAG Visualizer, a demonstration
pipeline of five stages: chunk a document, embed the chunks, store the
embeddings, retrieve the chunks closest to a query, and generate an answer.
Four HTTP routes and the page that drives them make up the engine:

- `POST /api/chunk` splits a text into sentences and packs them greedily
  into numbered, trimmed chunks (module `Chunker`, file `chunker.dfy`).
- `POST /api/embed` turns each chunk into a deterministic, hash-based,
  normalised 384-entry vector (module `Embedder`, file `embedder.dfy`).
- `POST /api/query` embeds the query with the same function, scores every
  embedding by cosine similarity, sorts by score, takes the first three
  entries and keeps those of them that have a chunk, so an orphan
  embedding among the three costs a place (module `Retriever`, file
  `retriever.dfy`).
- `POST /api/generate` answers from a keyword table or a default template
  that quotes the context (module `Generator`, file `generator.dfy`).
- The page keeps the session state. Its handlers call the routes in turn:
  submit a document, generate the embeddings, store them, query, reset.
  The session is a class (module `Session`, file `session.dfy`). The
  vector store route is the function `Session.StoreResponse`.

The supporting modules are:

- `Wrappers`: `Option` and `Result`.
- `JsNumber`: `ToInt32`, the `<<` operator, JavaScript's `%` (its sign
  follows the dividend) and `/`.
- `JsText`: `trim`, `toLowerCase`, `includes`, `join`, decimal rendering
  and UTF-16 code units.
- `Vectors`: dot products and scaling over `real`.
- `Entities`: the records `Chunk`, `Embedding`, `QueryResult` and
  `GenerationResult`.

Modelling conventions:

- A request field that is missing or of the wrong JavaScript type is
  `None`.
- A route's error answer is `Failure` with the route's error text.
- Numbers are `real` in the score and vector computations. The hash and
  the seeds are `int`, with the 32-bit wrap written out where JavaScript
  applies it.
- `Math.sqrt` is a parameter `sqrt: real -> real`. A lemma that needs a
  true square root says so in its `requires`.
- The handler loops are methods. The chunk packing loop, the embedding
  loop, the cosine loop and the scoring loop are each proved equal to the
  function the rest of the model reasons about.

## Model

| member | source | states |
|---|---|---|
| Chunker.EffectiveSize | app/api/chunk/route.ts:11-20 | The size is always in [50, 500]. It is 200 when the size is missing, non-numeric or 0. A size inside the range is kept, one above it becomes 500, and a non-zero size below it becomes 50. |
| Chunker.Response | app/api/chunk/route.ts:11-60 | The route refuses with "Invalid text input" exactly when `text` is missing, not a string or empty. Otherwise it returns the chunks of the text at the effective size, and there is at least one. |
| Chunker.Post | app/api/chunk/route.ts:9-60 | The handler, with its `for..of` packing loop and the final and fallback pushes, returns what `Response` specifies. Its loop invariant ties the loop's three variables to `Pack` of the sentences seen so far. |
| Chunker.NextTerminator | app/api/chunk/route.ts:23 | Returns the first terminator (`.`, `!` or `?`) at or after a position, or the end of the text. Every character before it is not a terminator. |
| Chunker.NextNonTerminator | app/api/chunk/route.ts:23 | Returns the end of a maximal run of terminators. |
| Chunker.TerminatedLength | app/api/chunk/route.ts:23 | Returns the length of the longest prefix that ends in a terminator. No terminator occurs after it. |
| Chunker.MatchesAreSentences | app/api/chunk/route.ts:23 | Every match of `[^.!?]+[.!?]+` is a non-empty run of non-terminators followed by a non-empty run of terminators. |
| Chunker.MatchesCover | app/api/chunk/route.ts:23 | The matches laid end to end give exactly the text from its first non-terminator to its last terminator. Leading terminators and the text after the last terminator belong to no match. |
| Chunker.Matches | app/api/chunk/route.ts:23 | The matches of the global pattern, scanned left to right. An attempt at a terminator moves on by one. An attempt whose run of non-terminators reaches the end ends the scan. Otherwise the match runs through the whole run of terminators after it. `MatchesAreSentences` and `MatchesCover` state what the matches are. |
| Chunker.Sentences | app/api/chunk/route.ts:23 | The matches, or the whole text when there are none. The list is never empty. |
| Chunker.Step | app/api/chunk/route.ts:29-39 | One iteration. When the buffer plus the sentence is longer than the size and the buffer is non-empty, the trimmed buffer becomes chunk `index`, the buffer becomes the sentence and the index advances. Otherwise the sentence and a space are appended to the buffer. |
| Chunker.StepPushesOne | app/api/chunk/route.ts:29-39 | A step pushes exactly one chunk when it flushes and none otherwise; the earlier chunks stay a prefix, and the index advances by the number of chunks pushed. |
| Chunker.Pack | app/api/chunk/route.ts:24-40 | The loop's three variables after a run of sentences: `Step` folded over them from no chunks, an empty buffer and index 0. |
| Chunker.PackNumbersChunks | app/api/chunk/route.ts:24-40 | After the loop the index equals the number of chunks, chunk `k` is numbered `k`, and every chunk text is trimmed. |
| Chunker.Chunks | app/api/chunk/route.ts:23-49 | The sentences packed by the loop, then the last push and the fallback push. There is at least one chunk. |
| Chunker.MakeChunk | app/api/chunk/route.ts:30-34 | Chunk `k` carries index `k` and the given text. |
| Chunker.Finish | app/api/chunk/route.ts:42-58 | After the last push and the fallback push, the chunk list is never empty. |
| Chunker.GroupsPartition | app/api/chunk/route.ts:28-40 | The loop's grouping puts every sentence in exactly one non-empty group, in order. The last sentence lies in the last group. |
| Chunker.PackFollowsGroups | app/api/chunk/route.ts:28-40 | After any non-empty run of sentences, every flushed chunk is the trimmed rendering of its group. The buffer holds the rendering of the open group. The index equals the number of flushed chunks. |
| Chunker.GroupsFit | app/api/chunk/route.ts:29-38 | A group of two or more sentences gives a trimmed chunk no longer than the size, because a sentence joins a non-empty buffer only when the result stays within the size. |
| Chunker.ChunksFollowSentences | app/api/chunk/route.ts:23-49 | When the pattern matches, chunk `k` is the trimmed rendering of group `k`. The groups partition the sentences in order. A chunk longer than the size holds exactly one sentence. |
| Chunker.ChunksWithoutSentence | app/api/chunk/route.ts:23-58 | When the pattern finds no match, the result is the single chunk `chunk-0` holding the trimmed text. |
| Chunker.ChunksNumbered | app/api/chunk/route.ts:26-48 | Chunk `k` has index `k` and id "chunk-k", and its text has no leading or trailing white space. |
| Chunker.ChunkIdsDistinct | app/api/chunk/route.ts:31-45 | No two chunks of one document share an id. |
| Chunker.ResponseStartsAtChunk0 | app/api/chunk/route.ts:26-31 | Every successful chunking starts with "chunk-0" at index 0. |
| JsText.Trim | app/api/chunk/route.ts:32 | `trim` is trimming the start, then the end. `TrimmedPiece` states what it keeps. |
| JsText.TrimStartShape | app/api/chunk/route.ts:32 | Trimming the start keeps a suffix of the text and drops only white space. The kept part starts with a non-white-space character. |
| JsText.TrimEndShape | app/api/chunk/route.ts:32 | Trimming the end keeps a prefix of the text and drops only white space. The kept part ends with a non-white-space character. |
| JsText.TrimmedPiece | app/api/chunk/route.ts:32 | `trim` gives a text with no white space at either end, no longer than the input. It is empty exactly when the input is entirely white space. |
| JsText.TrimIgnoresTrailingSpace | app/api/chunk/route.ts:38-46 | The space the loop appends after each sentence never survives `trim`. |
| JsText.NatToString | app/api/chunk/route.ts:31 | The decimal rendering of a number is a non-empty string of digits. |
| JsText.ParseNatToString | app/api/chunk/route.ts:31 | Reading the rendering back as a decimal gives the number. |
| JsText.NatToStringInjective | app/api/chunk/route.ts:31 | Distinct numbers render as distinct strings. |
| JsText.CodeUnits | app/api/embed/route.ts:20-21 | A text's UTF-16 code units each lie in [0, 65536). There are at least as many units as characters. |
| JsText.CodeUnitsOf | app/api/embed/route.ts:21 | A character has one or two code units. A character inside the Basic Multilingual Plane is its own single unit. |
| JsNumber.ToInt32 | app/api/embed/route.ts:21 | ToInt32 returns the 32-bit signed integer congruent to its argument modulo 2^32. |
| JsNumber.ToInt32OfInt32 | app/api/embed/route.ts:21 | ToInt32 leaves a 32-bit integer unchanged. |
| JsNumber.ShiftLeft | app/api/embed/route.ts:21 | `x << n` for `n` below 32 is a 32-bit signed integer: ToInt32 of the operand, times 2^n, wrapped again. |
| JsNumber.ShiftLeft5 | app/api/embed/route.ts:21 | `x << 5` equals ToInt32 of the exact product `x * 32`. |
| Embedder.HashStep | app/api/embed/route.ts:21 | One fold step is ToInt32(acc * 32) - acc + code. Only the shift wraps to 32 bits. |
| Embedder.HashBound | app/api/embed/route.ts:20-22 | After n code units the hash is at most n * 2^32 in magnitude. It is therefore an exact JavaScript integer for texts of up to 2^21 code units. |
| Embedder.HashOf | app/api/embed/route.ts:20-22 | The hash of a sequence of code units is `HashStep` folded over them from 0, as the `reduce` does. `HashBound` bounds it. |
| Embedder.Hash | app/api/embed/route.ts:20-22 | A text's hash is `HashOf` of its UTF-16 code units, the values `split('')` and `charCodeAt(0)` produce. |
| JsNumber.Rem | app/api/embed/route.ts:27 | JavaScript's `%` lies strictly between -b and b. Its sign follows the dividend, and it is the remainder of the truncating division. |
| Embedder.Seed | app/api/embed/route.ts:27 | A seed lies strictly between -2147483647 and 2147483647. Its sign is that of `hash + i * 7919`. |
| Embedder.RawValue | app/api/embed/route.ts:28 | The raw value of a seed is `(seed / 2147483647) * 2 - 1` over exact reals. Its range is stated by the three lemmas below. |
| Embedder.RawValueInRange | app/api/embed/route.ts:28 | For a non-negative seed the raw value lies in [-1, 1). |
| Embedder.RawValueOfNegativeSeed | app/api/embed/route.ts:28 | For a negative seed the raw value lies in (-3, -1), outside that range. |
| Embedder.RawValueNonZero | app/api/embed/route.ts:28 | No raw value is 0. |
| Embedder.RawVector | app/api/embed/route.ts:24-30 | The raw vector has one entry per position, and entry `i` is the raw value of seed `i`. |
| Embedder.RawVectorMagnitudePositive | app/api/embed/route.ts:33 | The sum of squares of a raw vector with at least one position is positive, so the magnitude is never 0. |
| JsNumber.Quotient | app/api/embed/route.ts:34 | JavaScript's `/`: for a non-zero divisor the quotient times the divisor is the dividend. |
| Vectors.Dot | app/api/query/route.ts:19-27 | The dot product of the first `n` entries, accumulated from index 0 upward as the cosine loop does. `DotSymmetric` and `DotNonNegative` state its properties. |
| Vectors.SumSquares | app/api/embed/route.ts:33 | The `reduce` summing the squares of the entries (also app/api/query/route.ts:45): the dot product of the vector with itself. |
| Vectors.Scale | app/api/embed/route.ts:34 | Dividing by the magnitude keeps the length and divides each entry. |
| Vectors.UnitAfterScaling | app/api/embed/route.ts:33-34 | Dividing a vector by a square root of its sum of squares gives sum of squares 1. |
| Embedder.EmbeddingOf | app/api/embed/route.ts:17-35 | The raw vector of the text's hash, each entry divided by `sqrt` of its sum of squares. It has one entry per position: `dimension` of them when positive, none otherwise. |
| Embedder.EmbeddingIsUnit | app/api/embed/route.ts:17-35 | The embedding has exactly `dimension` entries. With a true square root it has unit length. |
| Embedder.GenerateEmbedding | app/api/embed/route.ts:17-35 | The loop that pushes the raw values, followed by the normalisation, computes `EmbeddingOf`. The same text and dimension therefore always give the same vector. |
| Embedder.Response | app/api/embed/route.ts:37-55 | The route refuses with "Invalid chunks input" exactly when `chunks` is missing, not an array or empty. Otherwise it returns one embedding per chunk, in input order: the chunk's id, dimension 384, and the chunk text's 384-entry vector. |
| Vectors.DotSymmetric | app/api/query/route.ts:23-27 | The dot product does not depend on the order of its arguments. |
| Vectors.DotNonNegative | app/api/query/route.ts:25-26 | A sum of squares is never negative. |
| Retriever.Cosine | app/api/query/route.ts:16-30 | The similarity of two vectors of different lengths is 0. |
| Retriever.CosineSimilarity | app/api/query/route.ts:16-30 | The loop that accumulates the dot product and both norms computes `Cosine`. |
| Retriever.CosineSymmetric | app/api/query/route.ts:16-30 | The similarity does not depend on the order of its arguments. |
| Retriever.CosineSelf | app/api/query/route.ts:29 | With a true square root, a non-zero vector has similarity 1 with itself. |
| Retriever.CosineOpposite | app/api/query/route.ts:29 | With a true square root, a non-zero vector has similarity -1 with its negation. |
| Retriever.IdenticalTextScoresOne | app/api/query/route.ts:33-47 | With a true square root, a query whose text equals a chunk's text, embedded at the same dimension, scores 1 against it. |
| Retriever.QueryDimension | app/api/query/route.ts:61 | The query is embedded at the first embedding's dimension. It uses 384 when there is no first embedding or its dimension is 0. |
| Retriever.QueryVector | app/api/query/route.ts:61 | The query is embedded by the same function as the chunks (`EmbeddingOf`), at `QueryDimension`. |
| Retriever.FindFrom | app/api/query/route.ts:65 | The position of the first chunk at or after `from` with the id: no chunk between `from` and it has the id, and none at all means no chunk from `from` on has it. |
| Retriever.FindChunk | app/api/query/route.ts:65 | Lookup by id returns nothing exactly when no chunk has the id. Otherwise it returns the first chunk with that id. |
| Retriever.Score | app/api/query/route.ts:65-69 | An embedding without a chunk scores 0 and carries no chunk. Otherwise it carries the first matching chunk and the cosine of the query vector with its vector. |
| Retriever.Similarities | app/api/query/route.ts:64-70 | There is one scored entry per embedding, in input order. |
| Retriever.Insert | app/api/query/route.ts:74 | One step of the insertion sort: the entry goes after every entry scoring at least as much, and the list grows by one. |
| Retriever.Sort | app/api/query/route.ts:74 | `sort` by descending score as an insertion sort, keeping the length. The three lemmas below state that it permutes, orders and is stable. |
| Retriever.SortPermutes | app/api/query/route.ts:74 | The sort is a permutation of the similarities. |
| Retriever.SortDescending | app/api/query/route.ts:74 | The sorted scores are non-increasing. |
| Retriever.SortStable | app/api/query/route.ts:74 | The sort is stable: the entries with any one score keep their input order. |
| Retriever.TiesKeepInputOrder | app/api/query/route.ts:73-76 | Among the entries with a chunk that score exactly `v`, the ranking shows a prefix of them in input order: a tied entry is shown only if every earlier tied entry is. |
| Retriever.Top | app/api/query/route.ts:75 | `slice(0, 3)` keeps the first min(3, n) entries. |
| Retriever.KeepMatched | app/api/query/route.ts:76 | `filter(result => result.chunk !== null)`. `KeepMatchedAppend` states that it keeps order, and the lemmas after it state what it keeps. |
| Retriever.KeepMatchedAppend | app/api/query/route.ts:76 | Filtering a concatenation is concatenating the filtered parts, so the kept entries stay in input order. |
| Retriever.KeepMatchedCount | app/api/query/route.ts:76 | The filter drops exactly the entries without a chunk. |
| Retriever.KeepMatchedFrom | app/api/query/route.ts:76 | Every kept entry has a chunk and comes from the input. |
| Retriever.KeepMatchedKeeps | app/api/query/route.ts:76 | Every entry with a chunk is kept. |
| Retriever.KeepMatchedDescending | app/api/query/route.ts:76 | Filtering a descending list leaves it descending. |
| Retriever.Rank | app/api/query/route.ts:73-76 | The ranked entries: sorted, sliced to the first three, then filtered, in that order. `RankProperties` states the result. |
| Retriever.RankIsTop | app/api/query/route.ts:72-75 | Any entry scoring above a ranked entry is among the first three of the sorted entries. |
| Retriever.RankShowsBetter | app/api/query/route.ts:72-76 | Any entry with a chunk scoring above a ranked entry is ranked too: the ranking is the best of the entries with a chunk. |
| Retriever.RankProperties | app/api/query/route.ts:72-76 | The ranking has at most three entries, each with a chunk and taken from the similarities, in non-increasing score order. Every entry with a chunk that scores above a ranked entry is ranked too. Each orphan among the first three costs one place, even when other matched entries exist. |
| Retriever.ChunksOf | app/api/query/route.ts:78 | `relevantChunks` lists the chunk of each ranked entry, position by position. |
| Retriever.ScoresOf | app/api/query/route.ts:79 | `scores` lists the score of each ranked entry, position by position. |
| Retriever.Retrieve | app/api/query/route.ts:78-85 | The result echoes the query unchanged. Its chunks and scores have equal length. |
| Retriever.RetrieveShowsBetter | app/api/query/route.ts:61-85 | An embedding with a chunk whose cosine with the query vector exceeds a shown score has its chunk shown, with that cosine as its score. |
| Retriever.RetrieveRanks | app/api/query/route.ts:61-85 | At most three chunks come back, with non-increasing scores. Each shown chunk is the first chunk with some embedding's id, and its score is the cosine of the query vector with that embedding's vector. The shown chunks are the best: an embedding with a chunk that scores above a shown chunk has its own chunk shown, with its score. |
| Retriever.Response | app/api/query/route.ts:51-85 | The route refuses with "Invalid input" exactly when the query is missing or empty, or `embeddings` or `chunks` is not an array. Otherwise it returns the ranked result. |
| Retriever.Post | app/api/query/route.ts:49-85 | The handler, with its embedding, scoring and cosine loops, returns what `Response` specifies. |
| JsText.Lower | app/api/generate/route.ts:23 | Lowercasing keeps the length and maps each character through ASCII case folding. |
| JsText.Includes | app/api/generate/route.ts:25 | `includes` compares the needle with the start of each successive suffix of the text. `IncludesOccurs` states its meaning. |
| JsText.IncludesOccurs | app/api/generate/route.ts:25 | `includes` holds exactly when the needle occurs at some position of the text. |
| Entities.Texts | app/api/generate/route.ts:49 | The texts of the chunks, one per chunk, in input order. |
| Generator.FirstKeyword | app/api/generate/route.ts:23-28 | The search returns the first key, in table order, that occurs in the lowercased query. It returns none when no key occurs. |
| JsText.Join | app/api/generate/route.ts:12 | `join`: the parts separated by the separator, the only part for one part, empty for none. |
| JsText.JoinStartsWithFirst | app/api/generate/route.ts:12 | The joined text begins with the first part. |
| Generator.ContextText | app/api/generate/route.ts:12 | The context text is the chunk texts, in order, joined by blank lines. |
| Generator.Head | app/api/generate/route.ts:31 | `substring(0, n)` gives the first min(n, length) characters. |
| Generator.DefaultResponse | app/api/generate/route.ts:31 | The default template: the fixed prefix, the first 300 characters of the context text, "..." and the fixed suffix. `DefaultResponseShape` states it. |
| Generator.GenerateResponse | app/api/generate/route.ts:11-32 | The canned response of the first key occurring in the lowercased query, or else the default template around the context text. The lemmas below state each case. |
| Generator.KeywordSelects | app/api/generate/route.ts:16-28 | When key `i` occurs in the lowercased query and no earlier key does, the answer is canned response `i`. The keys are tried in the order "machine learning", "rag", "nlp", "embedding". |
| Generator.NoKeywordIsDefault | app/api/generate/route.ts:30-31 | With no key in the query, the answer is the default template around the context text. |
| Generator.CannedIgnoresContext | app/api/generate/route.ts:24-27 | When some key occurs, the answer does not depend on the context. |
| Generator.DefaultResponseShape | app/api/generate/route.ts:12-31 | The default answer is the fixed prefix, then the first at most 300 characters of the context text, then "..." and the fixed suffix. The "..." is present even for a short or empty context. |
| Generator.DefaultQuotesPrefixOnly | app/api/generate/route.ts:31 | Two context texts that agree on their first 300 characters give the same default answer. |
| Generator.DefaultQuotesFirstChunk | app/api/generate/route.ts:12-31 | When the first chunk has at least 300 characters, the default answer quotes the start of that chunk and nothing of the others. |
| Generator.CaseInsensitive | app/api/generate/route.ts:23 | A query and its lowercase get the same answer. |
| Generator.StorageSelectsRag | app/api/generate/route.ts:18-25 | Keys match as raw substrings: a query containing "storage" but not "machine learning" gets the RAG answer. |
| Generator.Response | app/api/generate/route.ts:34-55 | The route refuses with "Invalid input" exactly when the query is missing or empty, or `context` is not an array. Otherwise the prompt is the query unchanged, the answer is `GenerateResponse`, and the context is the chunks' texts, one per chunk, in input order. |
| Session.StoreResponse | app/api/vectordb/route.ts:5-22 | The store refuses with "Invalid embeddings input" exactly when there are no embeddings. Otherwise it reports the count and the message "Successfully stored n vectors in the database". |
| Session.StagesOf | app/page.tsx:148-156 | Each stage flag derives from one piece of the state alone: documents, chunks and embeddings non-empty, the stored flag, the query non-empty, and each result present. |
| Session.Session.PipelineStages | app/page.tsx:148-156 | In every state reached between handler runs, each handler running to completion before the next starts, query implies retrieval, retrieval implies vectorDB, vectorDB implies embedding, embedding implies chunking, and chunking implies document. Retrieval does not imply query: an empty query lights retrieval with the route's "Invalid input" error while the query stage stays dark. Generation implies nothing, because a timer scheduled before a reset still fires after it. |
| Session.DuplicateIdsAcrossDocuments | app/page.tsx:64 | Chunk ids restart at "chunk-0" for every document. A session that chunks two documents therefore holds "chunk-0" twice. |
| Session.Session.constructor | app/page.tsx:40-50 | The initial state: everything empty, chunk size 200, not stored, no results, no timer scheduled. |
| Session.Session.SubmitDocument | app/page.tsx:52-66 | The document is appended, the size recorded, and the returned chunks appended after the existing ones, which stay unchanged. A refused text leaves the chunks as they were. A non-empty text always adds a new "chunk-0". |
| Session.Session.GenerateEmbeddings | app/page.tsx:68-83 | Without chunks nothing changes. Otherwise one embedding per current chunk, including chunks embedded before, is appended after the existing embeddings. |
| Session.Session.StoreInVectorDB | app/page.tsx:85-103 | Without embeddings nothing changes. Otherwise the store succeeds and the stored flag becomes true. The embeddings are unchanged. |
| Session.Session.Query | app/page.tsx:105-134 | Unless the embeddings are stored, the query, the query result and the timers stay unchanged. Otherwise the query is recorded, the query route's answer, an error included, becomes the query result, and a timer is scheduled that captures the query text and the answer's relevant chunks (none after an error). The generation result is left to the timer. |
| Session.Session.CompleteGeneration | app/page.tsx:123-133 | A scheduled timer fires: the generation route's answer for the query text and chunks that timer captured becomes the generation result, and the timer is removed. Timers may fire in any order. Nothing else changes. |
| Session.Session.Reset | app/page.tsx:136-146 | Everything is emptied, the chunk size is 200 again, the stored flag is false and both results are gone. Scheduled timers are kept, as the handler does not cancel them. |

## Left out

- HTTP and JSON plumbing is not modelled: `request.json()`, `NextResponse`, status codes, `fetch` and `console.error`. A route's answer is its `Result`.
- The routes' `catch` branches ("Failed to ...") are not modelled. They are reached only through malformed JSON or a thrown exception, neither of which the model has.
- The simulated delays are not modelled: the 500 ms wait in the generation route, the 1000 ms wait in the store route and the 1500 ms timer in `handleQuery`.
- Session.Session.SubmitDocument: the handler runs to its end without a break at its `await`, so a Reset or a second submit during the chunking route's call is not modelled. In the source such a call writes the chunks it read before the `await` back after it, so they can outlive a reset, and two overlapping submits lose the first document's chunks.
- Session.Session.GenerateEmbeddings: the handler runs to its end without a break at its `await`, so a Reset or a second call during the embedding route's call is not modelled. In the source the stale embeddings are then written back after a reset, lighting embedding with chunking dark.
- Session.Session.StoreInVectorDB: the handler runs to its end without a break at its `await`, so a Reset during the store route's call is not modelled. In the source the stored flag can then be set on an emptied session, lighting vectorDB with embedding dark.
- Session.Session.PipelineStages: the stage ordering is promised only between handler runs, for the reason given in the three lines above.
- Session.Session.Query: the handler runs to its end without a break at its `await`, so two handlers interleaving around the query route's call are not modelled. The timer's callback, with its own `await`, is the separate method `CompleteGeneration`; pending timers are the field `timers`, and any of them may fire next.
- The page's transient flags `isGeneratingEmbeddings`, `isStoringInVectorDB` and `activeStage` are not modelled. No handler's logic reads them; they only drive the display.
- `alert` in `handleQuery` is not modelled. It is output only.
- Rendering is not modelled: the components, the button-enable conditions and the pipeline tracker are presentation.
- The demo-recording script is not part of this model.
- Floating point is not modelled. Vector and score arithmetic is exact over `real`, and `Math.sqrt` is the parameter `sqrt`.
- JsNumber.Quotient: a zero divisor yields 0, where JavaScript yields NaN or an infinity. The embedding route never divides by 0, since a raw vector's magnitude is positive. The cosine divides by 0 only for an empty or zero vector, which the embedding route never produces.
- Retriever.Sort: NaN scores are not modelled, and so neither is their effect on the comparator of `sort`.
- Embedder.Hash: the hash is an exact integer. That agrees with JavaScript only while it stays below 2^53 in magnitude, which `HashBound` guarantees for texts of up to 2^21 code units. Beyond that, JavaScript rounds and the model does not.
- Chunker.EffectiveSize: a size is a `real` or missing. Infinite sizes are not modelled. `None` covers a missing size and one whose `Number(...)` is NaN.
- JsText.Lower: only the ASCII letters are folded. Full Unicode case mapping is not modelled.
- JsText.IsWhiteSpace: the white space `trim` removes is the fixed ECMAScript set listed in `jstext.dfy`.
- JsText.CodeUnits: lengths, `trim` and `substring` count a Dafny `char` as one UTF-16 code unit. For a character outside the Basic Multilingual Plane, JavaScript counts two code units where the model counts one. Only the hash expands such characters into surrogate pairs.
- Queries that are truthy but not strings (a number, an object) are not modelled. A query is a string or missing.
