/** The query route (app/api/query/route.ts): cosine similarity, the lookup
    of each embedding's chunk, and the stable top-3 ranking. */
module Retriever {
  import opened Wrappers
  import opened JsNumber
  import opened Vectors
  import opened Embedder
  import opened Entities

  /** How many results the route keeps before dropping orphans. */
  const TopCount: nat := 3

  // ---------------------------------------------------------------------
  // Cosine similarity

  /** `cosineSimilarity(vec1, vec2)`: 0 when the lengths differ, otherwise
      the dot product over the product of the two magnitudes. `sqrt` stands
      for `Math.sqrt`. */
  function Cosine(v1: seq<real>, v2: seq<real>, sqrt: real -> real): (r: real)
    ensures |v1| != |v2| ==> r == 0.0
  {
    if |v1| != |v2| then 0.0
    else Quotient(Dot(v1, v2, |v1|), sqrt(SumSquares(v1)) * sqrt(SumSquares(v2)))
  }

  /** The loop of `cosineSimilarity`, accumulating the dot product and both
      norms over the same index range. */
  method CosineSimilarity(vec1: seq<real>, vec2: seq<real>, sqrt: real -> real) returns (r: real)
    ensures r == Cosine(vec1, vec2, sqrt)
  {
    if |vec1| != |vec2| {
      return 0.0;
    }
    var dotProduct := 0.0;
    var norm1 := 0.0;
    var norm2 := 0.0;
    for i := 0 to |vec1|
      invariant dotProduct == Dot(vec1, vec2, i)
      invariant norm1 == Dot(vec1, vec1, i)
      invariant norm2 == Dot(vec2, vec2, i)
    {
      dotProduct := dotProduct + vec1[i] * vec2[i];
      norm1 := norm1 + vec1[i] * vec1[i];
      norm2 := norm2 + vec2[i] * vec2[i];
    }
    r := Quotient(dotProduct, sqrt(norm1) * sqrt(norm2));
  }

  /** The similarity does not depend on the order of its arguments. */
  lemma CosineSymmetric(v1: seq<real>, v2: seq<real>, sqrt: real -> real)
    ensures Cosine(v1, v2, sqrt) == Cosine(v2, v1, sqrt)
  {
    if |v1| == |v2| {
      DotSymmetric(v1, v2, |v1|);
      var m1 := sqrt(SumSquares(v1));
      var m2 := sqrt(SumSquares(v2));
      assert m1 * m2 == m2 * m1;
    }
  }

  /** A vector is perfectly similar to itself, when its magnitude is not 0
      and `sqrt` returns a square root. */
  lemma CosineSelf(v: seq<real>, sqrt: real -> real)
    requires SumSquares(v) != 0.0
    requires sqrt(SumSquares(v)) * sqrt(SumSquares(v)) == SumSquares(v)
    ensures Cosine(v, v, sqrt) == 1.0
  {
    CosineAsQuotient(v, v, sqrt);
    QuotientOfSame(SumSquares(v), sqrt(SumSquares(v)) * sqrt(SumSquares(v)));
  }

  /** A vector and its negation are perfectly dissimilar. */
  lemma CosineOpposite(v: seq<real>, sqrt: real -> real)
    requires SumSquares(v) != 0.0
    requires sqrt(SumSquares(v)) * sqrt(SumSquares(v)) == SumSquares(v)
    ensures Cosine(v, Negate(v), sqrt) == -1.0
  {
    var w := Negate(v);
    DotNegate(v, |v|);
    assert SumSquares(w) == SumSquares(v);
    assert Dot(v, w, |v|) == -SumSquares(v);
    CosineAsQuotient(v, w, sqrt);
    var s := SumSquares(v);
    assert Cosine(v, w, sqrt) == Quotient(-s, sqrt(s) * sqrt(s));
    QuotientOfNegated(s, sqrt(s) * sqrt(s));
  }

  lemma CosineAsQuotient(v1: seq<real>, v2: seq<real>, sqrt: real -> real)
    requires |v1| == |v2|
    ensures Cosine(v1, v2, sqrt) == Quotient(Dot(v1, v2, |v1|), sqrt(SumSquares(v1)) * sqrt(SumSquares(v2)))
  {
  }

  lemma QuotientOfSame(s: real, p: real)
    requires s != 0.0 && p == s
    ensures Quotient(s, p) == 1.0
  {
  }

  lemma QuotientOfNegated(s: real, p: real)
    requires s != 0.0 && p == s
    ensures Quotient(-s, p) == -1.0
  {
  }

  /** A query equal to a chunk's text scores 1 against that chunk's
      embedding when both use the same positive dimension, provided `sqrt`
      returns square roots (including `sqrt(1) == 1`). */
  lemma IdenticalTextScoresOne(text: string, dimension: int, sqrt: real -> real)
    requires dimension > 0
    requires var s := SumSquares(RawVector(Hash(text), dimension)); sqrt(s) * sqrt(s) == s
    requires sqrt(1.0) == 1.0
    ensures var e := EmbeddingOf(text, dimension, sqrt); Cosine(e, e, sqrt) == 1.0
  {
    EmbeddingIsUnit(text, dimension, sqrt);
    CosineSelf(EmbeddingOf(text, dimension, sqrt), sqrt);
  }

  // ---------------------------------------------------------------------
  // Scoring

  /** The position of the first chunk at or after `from` whose id is `id`
      (`chunks.find(c => c.id === id)`). */
  function FindFrom(chunks: seq<Chunk>, id: string, from: nat): (r: Option<nat>)
    requires from <= |chunks|
    ensures r.Some? ==> from <= r.value < |chunks| && chunks[r.value].id == id
    ensures r.Some? ==> forall j :: from <= j < r.value ==> chunks[j].id != id
    ensures r.None? ==> forall j :: from <= j < |chunks| ==> chunks[j].id != id
    decreases |chunks| - from
  {
    if from == |chunks| then None
    else if chunks[from].id == id then Some(from)
    else FindFrom(chunks, id, from + 1)
  }

  /** The first chunk whose id is `id`, if any. */
  function FindChunk(chunks: seq<Chunk>, id: string): (r: Option<Chunk>)
    ensures r.None? <==> forall j :: 0 <= j < |chunks| ==> chunks[j].id != id
    ensures r.Some? ==> r.value.id == id
    ensures r.Some? ==> exists i ::
      0 <= i < |chunks| && chunks[i] == r.value && forall j :: 0 <= j < i ==> chunks[j].id != id
  {
    match FindFrom(chunks, id, 0)
    case None => None
    case Some(i) => Some(chunks[i])
  }

  /** One entry of the `similarities` array. */
  datatype Scored = Scored(chunkId: string, score: real, chunk: Option<Chunk>)

  /** The score of one embedding: an orphan (no chunk with its id) scores 0
      and carries no chunk; otherwise the cosine against the query vector. */
  function Score(e: Embedding, chunks: seq<Chunk>, queryVector: seq<real>, sqrt: real -> real): (r: Scored)
    ensures r.chunkId == e.chunkId
    ensures r.chunk == FindChunk(chunks, e.chunkId)
    ensures r.chunk.None? ==> r.score == 0.0
    ensures r.chunk.Some? ==> r.score == Cosine(queryVector, e.vector, sqrt)
  {
    match FindChunk(chunks, e.chunkId)
    case None => Scored(e.chunkId, 0.0, None)
    case Some(c) => Scored(e.chunkId, Cosine(queryVector, e.vector, sqrt), Some(c))
  }

  /** `embeddings.map(...)`: one score per embedding, in input order. */
  function Similarities(embeddings: seq<Embedding>, chunks: seq<Chunk>, queryVector: seq<real>, sqrt: real -> real): (r: seq<Scored>)
    ensures |r| == |embeddings|
    ensures forall i :: 0 <= i < |r| ==> r[i] == Score(embeddings[i], chunks, queryVector, sqrt)
  {
    seq(|embeddings|, i requires 0 <= i < |embeddings| => Score(embeddings[i], chunks, queryVector, sqrt))
  }

  // ---------------------------------------------------------------------
  // The stable sort by descending score

  predicate Descending(s: seq<Scored>) {
    forall i, j :: 0 <= i < j < |s| ==> s[i].score >= s[j].score
  }

  /** Insert `x`, which comes after every element of `s` in the input, into
      the descending `s`: after every element scoring at least as much. */
  function Insert(x: Scored, s: seq<Scored>): (r: seq<Scored>)
    ensures |r| == |s| + 1
  {
    if s == [] then [x]
    else if x.score > s[0].score then [x] + s
    else [s[0]] + Insert(x, s[1..])
  }

  /** `sort((a, b) => b.score - a.score)`: a stable insertion sort. */
  function Sort(s: seq<Scored>): (r: seq<Scored>)
    ensures |r| == |s|
  {
    if s == [] then [] else Insert(s[|s| - 1], Sort(s[..|s| - 1]))
  }

  /** The elements of `s` scoring exactly `v`, in order. */
  function WithScore(s: seq<Scored>, v: real): seq<Scored> {
    if s == [] then []
    else (if s[0].score == v then [s[0]] else []) + WithScore(s[1..], v)
  }

  lemma {:induction false} InsertPermutes(x: Scored, s: seq<Scored>)
    ensures multiset(Insert(x, s)) == multiset(s) + multiset{x}
  {
    if s != [] && x.score <= s[0].score {
      InsertPermutes(x, s[1..]);
      assert s == [s[0]] + s[1..];
    }
  }

  /** Every score in `s` is at most `b`. */
  predicate AtMost(s: seq<Scored>, b: real) {
    forall i :: 0 <= i < |s| ==> s[i].score <= b
  }

  /** The tail of a descending list is descending. */
  lemma DescendingTail(s: seq<Scored>)
    requires s != [] && Descending(s)
    ensures Descending(s[1..])
  {
    var tail := s[1..];
    forall i, j | 0 <= i < j < |tail| ensures tail[i].score >= tail[j].score {
      assert tail[i] == s[i + 1] && tail[j] == s[j + 1];
    }
  }

  lemma {:induction false} InsertAtMost(x: Scored, s: seq<Scored>, b: real)
    requires AtMost(s, b) && x.score <= b
    ensures AtMost(Insert(x, s), b)
  {
    if s != [] && x.score <= s[0].score {
      InsertAtMost(x, s[1..], b);
    }
  }

  lemma {:induction false} InsertDescending(x: Scored, s: seq<Scored>)
    requires Descending(s)
    ensures Descending(Insert(x, s))
  {
    if s != [] && x.score <= s[0].score {
      var rest := Insert(x, s[1..]);
      InsertDescending(x, s[1..]);
      InsertAtMost(x, s[1..], s[0].score);
      var r := [s[0]] + rest;
      forall i, j | 0 <= i < j < |r| ensures r[i].score >= r[j].score {
        assert r[j] == rest[j - 1];
        if i > 0 {
          assert r[i] == rest[i - 1];
        }
      }
    }
  }

  lemma {:induction false} WithScoreNone(s: seq<Scored>, v: real)
    requires forall i :: 0 <= i < |s| ==> s[i].score < v
    ensures WithScore(s, v) == []
  {
    if s != [] {
      WithScoreNone(s[1..], v);
    }
  }

  lemma {:induction false} WithScoreAppend(a: seq<Scored>, b: seq<Scored>, v: real)
    ensures WithScore(a + b, v) == WithScore(a, v) + WithScore(b, v)
  {
    if a != [] {
      assert (a + b)[1..] == a[1..] + b;
      WithScoreAppend(a[1..], b, v);
    } else {
      assert a + b == b;
    }
  }

  /** Inserting `x` puts it after every earlier element of the same score. */
  lemma {:induction false} InsertStable(x: Scored, s: seq<Scored>, v: real)
    requires Descending(s)
    ensures WithScore(Insert(x, s), v) == WithScore(s, v) + WithScore([x], v)
  {
    if s == [] {
    } else if x.score > s[0].score {
      assert ([x] + s)[1..] == s;
      if x.score == v {
        forall i | 0 <= i < |s| ensures s[i].score < v {
          assert s[0].score >= s[i].score;
        }
        WithScoreNone(s, v);
      }
    } else {
      var tail := s[1..];
      DescendingTail(s);
      InsertStable(x, tail, v);
      var rest := Insert(x, tail);
      assert ([s[0]] + rest)[1..] == rest;
      assert WithScore(Insert(x, s), v) == WithScore([s[0]], v) + WithScore(rest, v);
      assert WithScore(s, v) == WithScore([s[0]], v) + WithScore(tail, v);
    }
  }

  /** The sort is a permutation. */
  lemma {:induction false} SortPermutes(s: seq<Scored>)
    ensures multiset(Sort(s)) == multiset(s)
  {
    if s != [] {
      var p := s[..|s| - 1];
      SortPermutes(p);
      InsertPermutes(s[|s| - 1], Sort(p));
      assert s == p + [s[|s| - 1]];
    }
  }

  /** The sort orders by non-increasing score. */
  lemma {:induction false} SortDescending(s: seq<Scored>)
    ensures Descending(Sort(s))
  {
    if s != [] {
      SortDescending(s[..|s| - 1]);
      InsertDescending(s[|s| - 1], Sort(s[..|s| - 1]));
    }
  }

  /** The sort is stable: elements of equal score keep their input order. */
  lemma {:induction false} SortStable(s: seq<Scored>, v: real)
    ensures WithScore(Sort(s), v) == WithScore(s, v)
  {
    if s != [] {
      var p := s[..|s| - 1];
      var x := s[|s| - 1];
      SortStable(p, v);
      SortDescending(p);
      InsertStable(x, Sort(p), v);
      assert s == p + [x];
      WithScoreAppend(p, [x], v);
    }
  }

  // ---------------------------------------------------------------------
  // slice(0, 3), filter, map

  /** `slice(0, 3)`. */
  function Top(s: seq<Scored>): (r: seq<Scored>)
    ensures |r| == if |s| < TopCount then |s| else TopCount
    ensures r == s[..|r|]
  {
    if |s| < TopCount then s else s[..TopCount]
  }

  /** `filter(result => result.chunk !== null)`. */
  function KeepMatched(s: seq<Scored>): seq<Scored> {
    if s == [] then []
    else (if s[0].chunk.Some? then [s[0]] else []) + KeepMatched(s[1..])
  }

  /** The number of orphan entries in `s`. */
  function Orphans(s: seq<Scored>): nat {
    if s == [] then 0 else (if s[0].chunk.None? then 1 else 0) + Orphans(s[1..])
  }

  /** Each orphan costs the filter one place. */
  lemma {:induction false} KeepMatchedCount(s: seq<Scored>)
    ensures |KeepMatched(s)| + Orphans(s) == |s|
  {
    if s != [] {
      KeepMatchedCount(s[1..]);
    }
  }

  /** Every kept entry has a chunk and comes from `s`. */
  lemma {:induction false} KeepMatchedFrom(s: seq<Scored>)
    ensures forall i :: 0 <= i < |KeepMatched(s)| ==> KeepMatched(s)[i].chunk.Some? && KeepMatched(s)[i] in s
  {
    if s != [] {
      KeepMatchedFrom(s[1..]);
      var rest := KeepMatched(s[1..]);
      var r := KeepMatched(s);
      forall i | 0 <= i < |r| ensures r[i].chunk.Some? && r[i] in s {
        if s[0].chunk.None? || i > 0 {
          var k := if s[0].chunk.Some? then i - 1 else i;
          assert 0 <= k < |rest|;
          assert r[i] == rest[k];
          assert rest[k].chunk.Some? && rest[k] in s[1..];
          var j :| 0 <= j < |s[1..]| && s[1..][j] == rest[k];
          assert s[j + 1] == r[i];
        }
      }
    }
  }

  /** The filter keeps every entry that has a chunk. */
  lemma {:induction false} KeepMatchedKeeps(s: seq<Scored>, x: Scored)
    requires x in s && x.chunk.Some?
    ensures x in KeepMatched(s)
  {
    if s[0] != x {
      assert x in s[1..];
      KeepMatchedKeeps(s[1..], x);
    }
  }

  lemma {:induction false} KeepMatchedAtMost(s: seq<Scored>, b: real)
    requires AtMost(s, b)
    ensures AtMost(KeepMatched(s), b)
  {
    if s != [] {
      KeepMatchedAtMost(s[1..], b);
    }
  }

  /** The filter keeps the order. */
  lemma {:induction false} KeepMatchedDescending(s: seq<Scored>)
    requires Descending(s)
    ensures Descending(KeepMatched(s))
  {
    if s != [] {
      var tail := s[1..];
      DescendingTail(s);
      KeepMatchedDescending(tail);
      if s[0].chunk.Some? {
        var rest := KeepMatched(tail);
        assert AtMost(tail, s[0].score) by {
          forall i | 0 <= i < |tail| ensures tail[i].score <= s[0].score {
            assert tail[i] == s[i + 1];
          }
        }
        KeepMatchedAtMost(tail, s[0].score);
        var r := [s[0]] + rest;
        forall i, j | 0 <= i < j < |r| ensures r[i].score >= r[j].score {
          assert r[j] == rest[j - 1];
          if i > 0 {
            assert r[i] == rest[i - 1];
          }
        }
      }
    }
  }

  /** The ranked entries: sorted, the first three, orphans dropped. */
  function Rank(similarities: seq<Scored>): seq<Scored> {
    KeepMatched(Top(Sort(similarities)))
  }

  /** Only the first three of the sorted entries can be ranked: an entry
      scoring above a ranked one is among them. */
  lemma RankIsTop(similarities: seq<Scored>, x: Scored, i: nat)
    requires x in similarities && i < |Rank(similarities)|
    requires x.score > Rank(similarities)[i].score
    ensures x in Top(Sort(similarities))
  {
    var sorted := Sort(similarities);
    var top := Top(sorted);
    SortPermutes(similarities);
    SortDescending(similarities);
    KeepMatchedFrom(top);
    var y := Rank(similarities)[i];
    var j :| 0 <= j < |top| && top[j] == y;
    assert sorted[j] == y;
    assert x in multiset(sorted);
    var m :| 0 <= m < |sorted| && sorted[m] == x;
    assert forall k :: |top| <= k < |sorted| ==> sorted[k].score <= sorted[j].score;
    assert m < |top|;
    assert top[m] == x;
  }

  /** The ranking is the best of the entries with a chunk: an entry with a
      chunk scoring above a ranked one is ranked too. */
  lemma RankShowsBetter(similarities: seq<Scored>, x: Scored, i: nat)
    requires x in similarities && x.chunk.Some? && i < |Rank(similarities)|
    requires x.score > Rank(similarities)[i].score
    ensures x in Rank(similarities)
  {
    RankIsTop(similarities, x, i);
    KeepMatchedKeeps(Top(Sort(similarities)), x);
  }

  /** The ranking keeps at most three entries, all with a chunk, in
      non-increasing score order, each being the score of some embedding;
      orphans among the first three take places without being shown. */
  lemma RankProperties(similarities: seq<Scored>)
    ensures var r := Rank(similarities);
      && |r| <= TopCount
      && |r| + Orphans(Top(Sort(similarities))) == (if |similarities| < TopCount then |similarities| else TopCount)
      && Descending(r)
      && (forall i :: 0 <= i < |r| ==> r[i].chunk.Some? && r[i] in similarities)
      && (forall x, i :: x in similarities && x.chunk.Some? && 0 <= i < |r| && x.score > r[i].score ==> x in r)
  {
    var sorted := Sort(similarities);
    var top := Top(sorted);
    SortDescending(similarities);
    SortPermutes(similarities);
    assert Descending(top);
    KeepMatchedCount(top);
    KeepMatchedFrom(top);
    KeepMatchedDescending(top);
    var r := Rank(similarities);
    forall i | 0 <= i < |r| ensures r[i] in similarities {
      assert r[i] in top;
      assert r[i] in sorted;
      assert r[i] in multiset(sorted);
    }
    assert |sorted| == |similarities| by {
      assert |multiset(sorted)| == |multiset(similarities)|;
    }
    forall x, i | x in similarities && x.chunk.Some? && 0 <= i < |r| && x.score > r[i].score
      ensures x in r
    {
      RankShowsBetter(similarities, x, i);
    }
  }

  // ---------------------------------------------------------------------
  // The route

  /** `embeddings[0]?.dimension || 384`. */
  function QueryDimension(embeddings: seq<Embedding>): (d: int)
    ensures embeddings != [] && embeddings[0].dimension != 0 ==> d == embeddings[0].dimension
    ensures embeddings == [] || embeddings[0].dimension == 0 ==> d == StandardDimension
  {
    if embeddings != [] && embeddings[0].dimension != 0 then embeddings[0].dimension else StandardDimension
  }

  /** The vector the query is compared against. */
  function QueryVector(query: string, embeddings: seq<Embedding>, sqrt: real -> real): seq<real> {
    EmbeddingOf(query, QueryDimension(embeddings), sqrt)
  }

  /** `topResults.map(result => result.chunk as Chunk)`. */
  function ChunksOf(ranked: seq<Scored>): (r: seq<Chunk>)
    ensures |r| == |ranked|
    ensures forall i :: 0 <= i < |r| && ranked[i].chunk.Some? ==> r[i] == ranked[i].chunk.value
  {
    seq(|ranked|, i requires 0 <= i < |ranked| => if ranked[i].chunk.Some? then ranked[i].chunk.value else Chunk("", "", 0))
  }

  /** `topResults.map(result => result.score)`. */
  function ScoresOf(ranked: seq<Scored>): (r: seq<real>)
    ensures |r| == |ranked|
    ensures forall i :: 0 <= i < |r| ==> r[i] == ranked[i].score
  {
    seq(|ranked|, i requires 0 <= i < |ranked| => ranked[i].score)
  }

  /** The result body built from the ranked entries. */
  function Retrieve(query: string, embeddings: seq<Embedding>, chunks: seq<Chunk>, sqrt: real -> real): (r: QueryResult)
    ensures r.query == query
    ensures |r.relevantChunks| == |r.scores|
  {
    var ranked := Rank(Similarities(embeddings, chunks, QueryVector(query, embeddings, sqrt), sqrt));
    QueryResult(query, ChunksOf(ranked), ScoresOf(ranked))
  }

  /** The query route (`POST /api/query`): a falsy `query`, or an
      `embeddings` or `chunks` field that is not an array, is refused. */
  function Response(query: Option<string>, embeddings: Option<seq<Embedding>>, chunks: Option<seq<Chunk>>, sqrt: real -> real): (r: Result<QueryResult>)
    ensures r.Failure? <==> query.None? || query.value == "" || embeddings.None? || chunks.None?
    ensures r.Failure? ==> r.error == "Invalid input"
    ensures r.Success? ==> r.value == Retrieve(query.value, embeddings.value, chunks.value, sqrt)
  {
    if query.None? || query.value == "" || embeddings.None? || chunks.None? then Failure("Invalid input")
    else Success(Retrieve(query.value, embeddings.value, chunks.value, sqrt))
  }

  /** What the result promises: the query echoed, at most three chunks with
      their scores position by position, scores non-increasing, and each
      chunk the first chunk carrying some embedding's id, scored by the
      cosine of that embedding against the query vector. */
  lemma RetrieveRanks(query: string, embeddings: seq<Embedding>, chunks: seq<Chunk>, sqrt: real -> real)
    ensures var r := Retrieve(query, embeddings, chunks, sqrt);
      var qv := QueryVector(query, embeddings, sqrt);
      && r.query == query
      && |r.relevantChunks| == |r.scores| <= TopCount
      && (forall i, j :: 0 <= i < j < |r.scores| ==> r.scores[i] >= r.scores[j])
      && (forall i :: 0 <= i < |r.scores| ==> exists k ::
            && 0 <= k < |embeddings|
            && FindChunk(chunks, embeddings[k].chunkId) == Some(r.relevantChunks[i])
            && r.scores[i] == Cosine(qv, embeddings[k].vector, sqrt))
      && (forall k, i ::
            (&& 0 <= k < |embeddings| && 0 <= i < |r.scores|
             && FindChunk(chunks, embeddings[k].chunkId).Some?
             && Cosine(qv, embeddings[k].vector, sqrt) > r.scores[i]) ==>
            Shown(r, FindChunk(chunks, embeddings[k].chunkId).value, Cosine(qv, embeddings[k].vector, sqrt)))
  {
    RetrieveShowsBetter(query, embeddings, chunks, sqrt);
    var qv := QueryVector(query, embeddings, sqrt);
    var sims := Similarities(embeddings, chunks, qv, sqrt);
    var ranked := Rank(sims);
    RankProperties(sims);
    var r := Retrieve(query, embeddings, chunks, sqrt);
    forall i | 0 <= i < |r.scores| ensures exists k ::
        && 0 <= k < |embeddings|
        && FindChunk(chunks, embeddings[k].chunkId) == Some(r.relevantChunks[i])
        && r.scores[i] == Cosine(qv, embeddings[k].vector, sqrt)
    {
      assert ranked[i] in sims;
      var k :| 0 <= k < |sims| && sims[k] == ranked[i];
      assert ranked[i] == Score(embeddings[k], chunks, qv, sqrt);
    }
  }

  lemma {:induction false} KeepMatchedAppend(a: seq<Scored>, b: seq<Scored>)
    ensures KeepMatched(a + b) == KeepMatched(a) + KeepMatched(b)
  {
    if a != [] {
      assert (a + b)[1..] == a[1..] + b;
      KeepMatchedAppend(a[1..], b);
    } else {
      assert a + b == b;
    }
  }

  /** Filtering by chunk and selecting by score commute. */
  lemma {:induction false} KeepMatchedWithScore(s: seq<Scored>, v: real)
    ensures WithScore(KeepMatched(s), v) == KeepMatched(WithScore(s, v))
  {
    if s != [] {
      var x := s[0];
      var kept := if x.chunk.Some? then [x] else [];
      var tied := if x.score == v then [x] else [];
      KeepMatchedWithScore(s[1..], v);
      WithScoreAppend(kept, KeepMatched(s[1..]), v);
      KeepMatchedAppend(tied, WithScore(s[1..], v));
      assert [x][1..] == [];
      assert WithScore(kept, v) == KeepMatched(tied);
    }
  }

  /** The result shows `chunk` with score `score` at some position. */
  predicate Shown(r: QueryResult, chunk: Chunk, score: real) {
    exists j :: 0 <= j < |r.relevantChunks| && j < |r.scores| && r.relevantChunks[j] == chunk && r.scores[j] == score
  }

  /** An embedding with a chunk that scores above a shown chunk has its own
      chunk shown, with its score. */
  lemma RetrieveShowsBetter(query: string, embeddings: seq<Embedding>, chunks: seq<Chunk>, sqrt: real -> real)
    ensures var r := Retrieve(query, embeddings, chunks, sqrt);
      var qv := QueryVector(query, embeddings, sqrt);
      forall k, i ::
        (&& 0 <= k < |embeddings| && 0 <= i < |r.scores|
         && FindChunk(chunks, embeddings[k].chunkId).Some?
         && Cosine(qv, embeddings[k].vector, sqrt) > r.scores[i]) ==>
        Shown(r, FindChunk(chunks, embeddings[k].chunkId).value, Cosine(qv, embeddings[k].vector, sqrt))
  {
    var qv := QueryVector(query, embeddings, sqrt);
    var sims := Similarities(embeddings, chunks, qv, sqrt);
    var ranked := Rank(sims);
    var r := Retrieve(query, embeddings, chunks, sqrt);
    forall k, i | 0 <= k < |embeddings| && 0 <= i < |r.scores|
        && FindChunk(chunks, embeddings[k].chunkId).Some?
        && Cosine(qv, embeddings[k].vector, sqrt) > r.scores[i]
      ensures Shown(r, FindChunk(chunks, embeddings[k].chunkId).value, Cosine(qv, embeddings[k].vector, sqrt))
    {
      var x := sims[k];
      assert x == Score(embeddings[k], chunks, qv, sqrt);
      RankShowsBetter(sims, x, i);
      var j :| 0 <= j < |ranked| && ranked[j] == x;
      assert r.relevantChunks[j] == x.chunk.value && r.scores[j] == x.score;
    }
  }

  /** Ties keep input order in what is shown: among the entries with a
      chunk scoring exactly `v`, the ranking shows the first few, in input
      order. */
  lemma TiesKeepInputOrder(similarities: seq<Scored>, v: real)
    ensures var shown := WithScore(Rank(similarities), v);
      var tied := WithScore(KeepMatched(similarities), v);
      |shown| <= |tied| && shown == tied[..|shown|]
  {
    var sorted := Sort(similarities);
    var top := Top(sorted);
    var rest := sorted[|top|..];
    assert sorted == top + rest;
    KeepMatchedWithScore(similarities, v);
    SortStable(similarities, v);
    KeepMatchedWithScore(sorted, v);
    KeepMatchedAppend(top, rest);
    WithScoreAppend(KeepMatched(top), KeepMatched(rest), v);
  }

  /** The handler: the query vector and each similarity are computed by the
      loops of `generateEmbedding` and `cosineSimilarity`. */
  method Post(query: Option<string>, embeddings: Option<seq<Embedding>>, chunks: Option<seq<Chunk>>, sqrt: real -> real)
    returns (r: Result<QueryResult>)
    ensures r == Response(query, embeddings, chunks, sqrt)
  {
    if query.None? || query.value == "" || embeddings.None? || chunks.None? {
      return Failure("Invalid input");
    }
    var es := embeddings.value;
    var cs := chunks.value;
    var queryVector := GenerateEmbedding(query.value, QueryDimension(es), sqrt);
    var similarities: seq<Scored> := [];
    for i := 0 to |es|
      invariant similarities == Similarities(es[..i], cs, queryVector, sqrt)
    {
      var e := es[i];
      var chunk := FindChunk(cs, e.chunkId);
      var entry;
      if chunk.None? {
        entry := Scored(e.chunkId, 0.0, None);
      } else {
        var score := CosineSimilarity(queryVector, e.vector, sqrt);
        entry := Scored(e.chunkId, score, chunk);
      }
      similarities := similarities + [entry];
    }
    assert es[..|es|] == es;
    var ranked := Rank(similarities);
    r := Success(QueryResult(query.value, ChunksOf(ranked), ScoresOf(ranked)));
  }
}
