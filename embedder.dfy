/** The hash-based stand-in for an embedding model (app/api/embed/route.ts;
    app/api/query/route.ts carries an identical copy) and the embedding
    route's per-chunk mapping. */
module Embedder {
  import opened Wrappers
  import opened JsNumber
  import opened JsText
  import opened Vectors
  import opened Entities

  /** The modulus of the seed, 2^31 - 1. */
  const Modulus: int := 2147483647
  /** The stride between the seeds of consecutive positions. */
  const SeedStride: int := 7919
  /** The dimension the embedding route always uses. */
  const StandardDimension: int := 384

  /** One step of the hash fold: `((acc << 5) - acc) + code`. Only the shift
      wraps to 32 bits; the subtraction and the addition are exact. */
  function HashStep(acc: int, code: int): (r: int)
    ensures r == ToInt32(acc * 32) - acc + code
  {
    ShiftLeft5(acc);
    ShiftLeft(acc, 5) - acc + code
  }

  /** The hash of a sequence of code units: a left fold of HashStep from 0. */
  function HashOf(units: seq<int>): int {
    if units == [] then 0 else HashStep(HashOf(units[..|units| - 1]), units[|units| - 1])
  }

  /** The hash of a text, folded over its UTF-16 code units. */
  function Hash(text: string): int {
    HashOf(CodeUnits(text))
  }

  /** Each step moves the accumulator by less than 2^32, so the hash of n
      code units is at most n * 2^32 in magnitude. As long as that stays
      below 2^53 (texts of up to 2^21 code units) the JavaScript numbers
      involved are exact integers, which is what the `int` model relies on. */
  lemma {:induction false} HashBound(units: seq<int>)
    requires forall k :: 0 <= k < |units| ==> 0 <= units[k] < 0x1_0000
    ensures -(|units| * TwoTo32) <= HashOf(units) <= |units| * TwoTo32
  {
    if units != [] {
      var prefix := units[..|units| - 1];
      HashBound(prefix);
      var acc := HashOf(prefix);
      assert IsInt32(ShiftLeft(acc, 5));
      assert HashOf(units) == ShiftLeft(acc, 5) - acc + units[|units| - 1];
    }
  }

  /** `(hash + i * 7919) % 2147483647`, with JavaScript's `%`. */
  function Seed(hash: int, i: int): (seed: int)
    ensures -Modulus < seed < Modulus
    ensures hash + i * SeedStride >= 0 ==> seed >= 0
    ensures hash + i * SeedStride <= 0 ==> seed <= 0
  {
    Rem(hash + i * SeedStride, Modulus)
  }

  /** `(seed / 2147483647) * 2 - 1`. */
  function RawValue(seed: int): real {
    (seed as real / Modulus as real) * 2.0 - 1.0
  }

  /** For a non-negative seed the raw value lies in [-1, 1), the range the
      source's comment announces. */
  lemma RawValueInRange(seed: int)
    requires 0 <= seed < Modulus
    ensures -1.0 <= RawValue(seed) < 1.0
  {
  }

  /** A negative seed (from a negative hash) falls outside that range:
      its raw value lies in (-3, -1). */
  lemma RawValueOfNegativeSeed(seed: int)
    requires -Modulus < seed < 0
    ensures -3.0 < RawValue(seed) < -1.0
  {
  }

  /** No raw value is zero, because the modulus is odd. */
  lemma RawValueNonZero(seed: int)
    requires -Modulus < seed < Modulus
    ensures RawValue(seed) != 0.0
  {
  }

  /** The number of positions the generating loop runs for. */
  function Positions(dimension: int): nat {
    if dimension > 0 then dimension else 0
  }

  /** The vector before normalisation: one raw value per position. */
  function RawVector(hash: int, dimension: int): (v: seq<real>)
    ensures |v| == Positions(dimension)
    ensures forall i :: 0 <= i < |v| ==> v[i] == RawValue(Seed(hash, i))
  {
    seq(Positions(dimension), i requires 0 <= i => RawValue(Seed(hash, i)))
  }

  /** `generateEmbedding(text, dimension)`: the raw vector divided by its
      magnitude. `sqrt` stands for `Math.sqrt`. */
  function EmbeddingOf(text: string, dimension: int, sqrt: real -> real): (r: seq<real>)
    ensures |r| == Positions(dimension)
  {
    var raw := RawVector(Hash(text), dimension);
    Scale(raw, sqrt(SumSquares(raw)))
  }

  /** The raw vector is never the zero vector (when it has a position at
      all), so its magnitude is never 0. */
  lemma RawVectorMagnitudePositive(hash: int, dimension: int)
    requires dimension > 0
    ensures SumSquares(RawVector(hash, dimension)) > 0.0
  {
    var v := RawVector(hash, dimension);
    RawValueNonZero(Seed(hash, 0));
    DotPositive(v, |v|, 0);
  }

  /** The embedding has exactly `dimension` entries and, when `sqrt` returns
      a square root of the raw vector's sum of squares, unit length. */
  lemma EmbeddingIsUnit(text: string, dimension: int, sqrt: real -> real)
    requires dimension > 0
    requires var s := SumSquares(RawVector(Hash(text), dimension)); sqrt(s) * sqrt(s) == s
    ensures |EmbeddingOf(text, dimension, sqrt)| == dimension
    ensures SumSquares(EmbeddingOf(text, dimension, sqrt)) == 1.0
  {
    var raw := RawVector(Hash(text), dimension);
    RawVectorMagnitudePositive(Hash(text), dimension);
    UnitAfterScaling(raw, sqrt(SumSquares(raw)));
  }

  /** `generateEmbedding`: the raw values are pushed by a loop, then mapped
      through the division by the magnitude. */
  method GenerateEmbedding(text: string, dimension: int, sqrt: real -> real) returns (vector: seq<real>)
    ensures vector == EmbeddingOf(text, dimension, sqrt)
    ensures |vector| == Positions(dimension)
  {
    var hash := Hash(text);
    var raw: seq<real> := [];
    var i := 0;
    while i < dimension
      invariant 0 <= i && |raw| == i
      invariant i <= Positions(dimension)
      invariant forall k :: 0 <= k < i ==> raw[k] == RawValue(Seed(hash, k))
    {
      var seed := Rem(hash + i * SeedStride, Modulus);
      var value := (seed as real / Modulus as real) * 2.0 - 1.0;
      raw := raw + [value];
      i := i + 1;
    }
    assert i == Positions(dimension);
    assert raw == RawVector(hash, dimension);
    var magnitude := sqrt(SumSquares(raw));
    vector := Scale(raw, magnitude);
  }

  /** The embedding route (`POST /api/embed`): one embedding per chunk, in
      input order, always of dimension 384; a missing, non-array or empty
      `chunks` field is refused. */
  function Response(chunks: Option<seq<Chunk>>, sqrt: real -> real): (r: Result<seq<Embedding>>)
    ensures r.Failure? <==> chunks.None? || chunks.value == []
    ensures r.Failure? ==> r.error == "Invalid chunks input"
    ensures r.Success? ==> |r.value| == |chunks.value|
    ensures r.Success? ==> forall i :: 0 <= i < |r.value| ==>
      && r.value[i].chunkId == chunks.value[i].id
      && r.value[i].dimension == StandardDimension
      && r.value[i].vector == EmbeddingOf(chunks.value[i].text, StandardDimension, sqrt)
      && |r.value[i].vector| == StandardDimension
  {
    if chunks.None? || chunks.value == [] then
      Failure("Invalid chunks input")
    else
      var cs := chunks.value;
      Success(seq(|cs|, i requires 0 <= i < |cs| =>
        Embedding(cs[i].id, EmbeddingOf(cs[i].text, StandardDimension, sqrt), StandardDimension)))
  }
}
