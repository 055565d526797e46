/** The records the route handlers and the page exchange. */
module Entities {
  import opened Wrappers

  /** A piece of a document, numbered from 0 within one chunking call. */
  datatype Chunk = Chunk(id: string, text: string, index: nat)

  /** The vector computed for the chunk whose id is `chunkId`. */
  datatype Embedding = Embedding(chunkId: string, vector: seq<real>, dimension: int)

  /** The answer of the query route: chunks and their scores, position by
      position. */
  datatype QueryResult = QueryResult(query: string, relevantChunks: seq<Chunk>, scores: seq<real>)

  /** The answer of the generation route. */
  datatype GenerationResult = GenerationResult(prompt: string, response: string, context: seq<string>)

  /** The texts of some chunks, in order (`chunks.map(c => c.text)`). */
  function Texts(chunks: seq<Chunk>): (r: seq<string>)
    ensures |r| == |chunks|
    ensures forall i :: 0 <= i < |r| ==> r[i] == chunks[i].text
  {
    seq(|chunks|, i requires 0 <= i < |chunks| => chunks[i].text)
  }
}
