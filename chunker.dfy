/** The sentence chunker of the chunking route (app/api/chunk/route.ts). */
module Chunker {
  import opened Wrappers
  import opened JsText
  import opened Entities

  const DefaultSize: real := 200.0
  const MinSize: real := 50.0
  const MaxSize: real := 500.0

  /** `Math.max(50, Math.min(500, Number(chunkSize) || 200))`. `None` stands
      for a missing `chunkSize` or one whose `Number(...)` is NaN. */
  function EffectiveSize(chunkSize: Option<real>): (size: real)
    ensures MinSize <= size <= MaxSize
    ensures chunkSize.None? || chunkSize == Some(0.0) ==> size == DefaultSize
    ensures chunkSize.Some? && MinSize <= chunkSize.value <= MaxSize ==> size == chunkSize.value
    ensures chunkSize.Some? && chunkSize.value > MaxSize ==> size == MaxSize
    ensures chunkSize.Some? && chunkSize.value != 0.0 && chunkSize.value < MinSize ==> size == MinSize
  {
    var n := if chunkSize.None? || chunkSize.value == 0.0 then DefaultSize else chunkSize.value;
    var capped := if n < MaxSize then n else MaxSize;
    if capped > MinSize then capped else MinSize
  }

  // ---------------------------------------------------------------------
  // Sentence splitting: `text.match(/[^.!?]+[.!?]+/g) || [text]`

  predicate IsTerminator(c: char) {
    c == '.' || c == '!' || c == '?'
  }

  /** The shape of one match of the pattern: a non-empty run of
      non-terminators followed by a non-empty run of terminators. */
  predicate IsSentence(seg: string) {
    && |seg| >= 2
    && !IsTerminator(seg[0])
    && IsTerminator(seg[|seg| - 1])
    && forall i :: 0 < i < |seg| && IsTerminator(seg[i - 1]) ==> IsTerminator(seg[i])
  }

  /** The first position at or after `i` holding a terminator (or |s|). */
  function NextTerminator(s: string, i: nat): (j: nat)
    requires i <= |s|
    ensures i <= j <= |s|
    ensures forall k :: i <= k < j ==> !IsTerminator(s[k])
    ensures j < |s| ==> IsTerminator(s[j])
    decreases |s| - i
  {
    if i == |s| || IsTerminator(s[i]) then i else NextTerminator(s, i + 1)
  }

  /** The first position at or after `i` holding a non-terminator (or |s|). */
  function NextNonTerminator(s: string, i: nat): (j: nat)
    requires i <= |s|
    ensures i <= j <= |s|
    ensures forall k :: i <= k < j ==> IsTerminator(s[k])
    ensures j < |s| ==> !IsTerminator(s[j])
    decreases |s| - i
  {
    if i == |s| || !IsTerminator(s[i]) then i else NextNonTerminator(s, i + 1)
  }

  /** The matches of the global pattern from position `p` on. A match
      attempt at a terminator fails and moves on; an attempt whose run of
      non-terminators reaches the end fails, and so do all later ones. */
  function Matches(s: string, p: nat): seq<string>
    requires p <= |s|
    decreases |s| - p
  {
    if p == |s| then []
    else if IsTerminator(s[p]) then Matches(s, p + 1)
    else
      var j := NextTerminator(s, p);
      if j == |s| then []
      else
        var k := NextNonTerminator(s, j);
        [s[p..k]] + Matches(s, k)
  }

  /** The segments the packing loop consumes. */
  function Sentences(text: string): (r: seq<string>)
    ensures r != []
  {
    var m := Matches(text, 0);
    if m == [] then [text] else m
  }

  /** The length of the longest prefix of `s` that ends in a terminator. */
  function TerminatedLength(s: string): (n: nat)
    ensures n <= |s|
    ensures n > 0 ==> IsTerminator(s[n - 1])
    ensures forall k :: n <= k < |s| ==> !IsTerminator(s[k])
  {
    if s == [] || IsTerminator(s[|s| - 1]) then |s| else TerminatedLength(s[..|s| - 1])
  }

  /** Concatenation of a sequence of sequences. */
  function Flatten<T>(xss: seq<seq<T>>): seq<T> {
    if xss == [] then [] else Flatten(xss[..|xss| - 1]) + xss[|xss| - 1]
  }

  lemma FlattenSnoc<T>(xss: seq<seq<T>>, xs: seq<T>)
    ensures Flatten(xss + [xs]) == Flatten(xss) + xs
  {
    assert (xss + [xs])[..|xss|] == xss;
  }

  lemma {:induction false} FlattenCons<T>(xs: seq<T>, xss: seq<seq<T>>)
    ensures Flatten([xs] + xss) == xs + Flatten(xss)
    decreases |xss|
  {
    if xss != [] {
      var init := xss[..|xss| - 1];
      assert ([xs] + xss)[..|xss|] == [xs] + init;
      FlattenCons(xs, init);
    }
  }

  /** Every match has the shape of the pattern. */
  lemma {:induction false} MatchesAreSentences(s: string, p: nat)
    requires p <= |s|
    ensures forall i :: 0 <= i < |Matches(s, p)| ==> IsSentence(Matches(s, p)[i])
    decreases |s| - p
  {
    if p == |s| {
    } else if IsTerminator(s[p]) {
      MatchesAreSentences(s, p + 1);
    } else {
      var j := NextTerminator(s, p);
      if j < |s| {
        var k := NextNonTerminator(s, j);
        MatchesAreSentences(s, k);
        var seg := s[p..k];
        forall i | 0 < i < |seg| && IsTerminator(seg[i - 1]) ensures IsTerminator(seg[i]) {
          assert seg[i - 1] == s[p + i - 1] && seg[i] == s[p + i];
          assert p + i - 1 >= j;
          assert j <= p + i < k;
        }
        assert IsSentence(seg);
      }
    }
  }

  /** The matches, concatenated, are the text between its first
      non-terminator at or after `p` and the end of its last terminator
      run: leading terminators and a trailing unterminated tail belong to
      no match. */
  lemma {:induction false} MatchesCover(s: string, p: nat)
    requires p <= |s|
    ensures var a := NextNonTerminator(s, p);
      var e := TerminatedLength(s);
      Flatten(Matches(s, p)) == if a < e then s[a..e] else []
    decreases |s| - p
  {
    var e := TerminatedLength(s);
    if p == |s| {
    } else if IsTerminator(s[p]) {
      MatchesCover(s, p + 1);
      assert NextNonTerminator(s, p) == NextNonTerminator(s, p + 1);
    } else {
      assert NextNonTerminator(s, p) == p;
      var j := NextTerminator(s, p);
      if j < |s| {
        var k := NextNonTerminator(s, j);
        MatchesCover(s, k);
        MatchAt(s, p);
        assert NextNonTerminator(s, k) == k;
        TerminatedLengthCovers(s, k);
        ConsCover(s, p, k, e, Matches(s, k));
      }
    }
  }

  /** The step of MatchesCover: a match `s[p..k]` in front of matches
      covering `s[k..e]` covers `s[p..e]`. */
  lemma ConsCover(s: string, p: nat, k: nat, e: nat, rest: seq<string>)
    requires p < k <= e <= |s|
    requires Flatten(rest) == if k < e then s[k..e] else []
    ensures Flatten([s[p..k]] + rest) == s[p..e]
  {
    FlattenCons(s[p..k], rest);
    if k < e {
      assert s[p..e] == s[p..k] + s[k..e];
    } else {
      assert s[p..k] + [] == s[p..e];
    }
  }

  /** A match attempt at a non-terminator that finds a terminator. */
  lemma MatchAt(s: string, p: nat)
    requires p < |s| && !IsTerminator(s[p]) && NextTerminator(s, p) < |s|
    ensures var k := NextNonTerminator(s, NextTerminator(s, p));
      Matches(s, p) == [s[p..k]] + Matches(s, k)
  {
  }

  /** The terminated prefix reaches past every terminator. */
  lemma TerminatedLengthCovers(s: string, k: nat)
    requires 0 < k <= |s| && IsTerminator(s[k - 1])
    ensures TerminatedLength(s) >= k
  {
  }

  // ---------------------------------------------------------------------
  // Packing: the `for (const sentence of sentences)` loop and what follows

  /** Chunk `k` of a document. */
  function MakeChunk(k: nat, text: string): (c: Chunk)
    ensures c.index == k && c.text == text
  {
    Chunk("chunk-" + NatToString(k), text, k)
  }

  /** The loop's variables: `chunks`, `currentChunk` and `chunkIndex`. */
  datatype Packing = Packing(chunks: seq<Chunk>, current: string, index: nat)

  /** The loop's flush condition. */
  predicate Flushes(st: Packing, sentence: string, size: real) {
    (|st.current + sentence| as real) > size && |st.current| > 0
  }

  /** One iteration of the loop. */
  function Step(st: Packing, sentence: string, size: real): Packing {
    if Flushes(st, sentence, size) then
      Packing(st.chunks + [MakeChunk(st.index, Trim(st.current))], sentence, st.index + 1)
    else
      Packing(st.chunks, st.current + sentence + " ", st.index)
  }

  /** A flush pushes exactly one chunk and advances the index with it;
      otherwise neither changes. */
  lemma StepPushesOne(st: Packing, sentence: string, size: real)
    ensures var r := Step(st, sentence, size);
      && (Flushes(st, sentence, size) <==> |r.chunks| == |st.chunks| + 1)
      && (!Flushes(st, sentence, size) <==> r.chunks == st.chunks && r.index == st.index)
      && st.chunks <= r.chunks
      && r.index - st.index == |r.chunks| - |st.chunks|
  {
  }

  /** The loop's variables after the given sentences. */
  function Pack(sentences: seq<string>, size: real): Packing {
    if sentences == [] then Packing([], "", 0)
    else Step(Pack(sentences[..|sentences| - 1], size), sentences[|sentences| - 1], size)
  }

  /** The last chunk and the at-least-one-chunk fallback. */
  function Finish(text: string, st: Packing): (r: seq<Chunk>)
    ensures r != []
  {
    var last := Trim(st.current);
    var chunks := if |last| > 0 then st.chunks + [MakeChunk(st.index, last)] else st.chunks;
    if chunks == [] then [MakeChunk(0, Trim(text))] else chunks
  }

  lemma PackSnoc(sentences: seq<string>, i: nat, size: real)
    requires i < |sentences|
    ensures Pack(sentences[..i + 1], size) == Step(Pack(sentences[..i], size), sentences[i], size)
  {
    assert sentences[..i + 1][..i] == sentences[..i];
  }

  /** The chunks of `text` for an effective size `size`. */
  function Chunks(text: string, size: real): (r: seq<Chunk>)
    ensures r != []
  {
    Finish(text, Pack(Sentences(text), size))
  }

  /** The chunking route (`POST /api/chunk`): a missing, empty or
      non-string `text` is refused before any chunk is built. */
  function Response(text: Option<string>, chunkSize: Option<real>): (r: Result<seq<Chunk>>)
    ensures r.Failure? <==> text.None? || text.value == ""
    ensures r.Failure? ==> r.error == "Invalid text input"
    ensures r.Success? ==> r.value == Chunks(text.value, EffectiveSize(chunkSize)) && r.value != []
  {
    if text.None? || text.value == "" then Failure("Invalid text input")
    else Success(Chunks(text.value, EffectiveSize(chunkSize)))
  }

  /** The handler, with its packing loop. */
  method Post(text: Option<string>, chunkSize: Option<real>) returns (r: Result<seq<Chunk>>)
    ensures r == Response(text, chunkSize)
  {
    if text.None? || text.value == "" {
      return Failure("Invalid text input");
    }
    var size := EffectiveSize(chunkSize);
    var sentences := Sentences(text.value);
    var chunks: seq<Chunk> := [];
    var currentChunk := "";
    var chunkIndex: nat := 0;
    for i := 0 to |sentences|
      invariant Packing(chunks, currentChunk, chunkIndex) == Pack(sentences[..i], size)
    {
      var sentence := sentences[i];
      PackSnoc(sentences, i, size);
      if (|currentChunk + sentence| as real) > size && |currentChunk| > 0 {
        chunks := chunks + [MakeChunk(chunkIndex, Trim(currentChunk))];
        currentChunk := sentence;
        chunkIndex := chunkIndex + 1;
      } else {
        currentChunk := currentChunk + sentence + " ";
      }
    }
    assert sentences[..|sentences|] == sentences;
    ghost var packed := Packing(chunks, currentChunk, chunkIndex);
    if |Trim(currentChunk)| > 0 {
      chunks := chunks + [MakeChunk(chunkIndex, Trim(currentChunk))];
    }
    if |chunks| == 0 {
      chunks := [MakeChunk(0, Trim(text.value))];
    }
    assert chunks == Finish(text.value, packed);
    r := Success(chunks);
  }

  // ---------------------------------------------------------------------
  // What the packing does with the sentences

  /** The buffer text built from a group of consecutive sentences. The
      first group is started by appending `sentence + ' '` to the empty
      buffer; every later group is started by the flush assigning the bare
      sentence, so its first two sentences are not separated by a space. */
  function Render(g: seq<string>, first: bool): string
    requires g != []
  {
    if |g| == 1 then (if first then g[0] + " " else g[0])
    else Render(g[..|g| - 1], first) + g[|g| - 1] + " "
  }

  /** The sentences grouped as the loop packs them: one group per flushed
      chunk, and the group still in the buffer last. */
  ghost function Groups(sentences: seq<string>, size: real): seq<seq<string>> {
    if sentences == [] then []
    else
      var prefix := sentences[..|sentences| - 1];
      var s := sentences[|sentences| - 1];
      var gs := Groups(prefix, size);
      if gs == [] || Flushes(Pack(prefix, size), s, size) then gs + [[s]]
      else gs[..|gs| - 1] + [gs[|gs| - 1] + [s]]
  }

  /** Unfolding Groups one sentence at a time, as PackSnoc does for Pack. */
  lemma GroupsSnoc(sentences: seq<string>, s: string, size: real)
    ensures var gs := Groups(sentences, size);
      Groups(sentences + [s], size) ==
        if gs == [] || Flushes(Pack(sentences, size), s, size) then gs + [[s]]
        else gs[..|gs| - 1] + [gs[|gs| - 1] + [s]]
  {
    assert (sentences + [s])[..|sentences|] == sentences;
  }

  lemma PackAppend(sentences: seq<string>, s: string, size: real)
    ensures Pack(sentences + [s], size) == Step(Pack(sentences, size), s, size)
  {
    assert (sentences + [s])[..|sentences|] == sentences;
  }

  /** Chunk `k` is the trimmed text of group `k`, numbered `k`. */
  ghost predicate ChunksOfGroups(chunks: seq<Chunk>, gs: seq<seq<string>>)
    requires |chunks| <= |gs|
  {
    forall k :: 0 <= k < |chunks| ==> gs[k] != [] && chunks[k] == MakeChunk(k, Trim(Render(gs[k], k == 0)))
  }

  /** The loop's state matches the grouping `gs`: one flushed chunk per
      group but the last, numbered by its position and holding the trimmed
      text of its group, and the buffer holding the text of the last group. */
  ghost predicate Follows(st: Packing, gs: seq<seq<string>>) {
    && |gs| == |st.chunks| + 1
    && st.index == |st.chunks|
    && (forall k :: 0 <= k < |gs| ==> gs[k] != [])
    && ChunksOfGroups(st.chunks, gs)
    && st.current == Render(gs[|gs| - 1], |gs| == 1)
  }

  lemma FollowsStart(s: string, size: real)
    ensures Follows(Step(Packing([], "", 0), s, size), [[s]])
  {
    assert "" + s + " " == s + " ";
  }

  lemma FollowsFlush(st: Packing, gs: seq<seq<string>>, s: string, size: real)
    requires Follows(st, gs) && Flushes(st, s, size)
    ensures Follows(Step(st, s, size), gs + [[s]])
  {
    var st1 := Step(st, s, size);
    var gs1 := gs + [[s]];
    forall k | 0 <= k < |st1.chunks|
      ensures st1.chunks[k] == MakeChunk(k, Trim(Render(gs1[k], k == 0)))
    {
      if k < |st.chunks| {
        assert st1.chunks[k] == st.chunks[k] && gs1[k] == gs[k];
      }
    }
  }

  lemma FollowsAppend(st: Packing, gs: seq<seq<string>>, s: string, size: real)
    requires Follows(st, gs) && !Flushes(st, s, size)
    ensures var n := |gs|;
      Follows(Step(st, s, size), gs[..n - 1] + [gs[n - 1] + [s]])
  {
    var n := |gs|;
    var last := gs[n - 1];
    var gs1 := gs[..n - 1] + [last + [s]];
    assert (last + [s])[..|last|] == last;
    forall k | 0 <= k < |st.chunks| ensures gs1[k] == gs[k] { }
  }

  /** The groups, concatenated, are the sentences, and none is empty. */
  lemma {:induction false} GroupsPartition(sentences: seq<string>, size: real)
    ensures var gs := Groups(sentences, size);
      && Flatten(gs) == sentences
      && (forall k :: 0 <= k < |gs| ==> gs[k] != [])
      && (sentences != [] ==>
            gs != [] && gs[|gs| - 1] != [] && gs[|gs| - 1][|gs[|gs| - 1]| - 1] == sentences[|sentences| - 1])
    decreases |sentences|
  {
    if sentences != [] {
      var prefix := sentences[..|sentences| - 1];
      var s := sentences[|sentences| - 1];
      assert sentences == prefix + [s];
      GroupsPartition(prefix, size);
      GroupsSnoc(prefix, s, size);
      var gs0 := Groups(prefix, size);
      if gs0 == [] || Flushes(Pack(prefix, size), s, size) {
        PartitionStartGroup(gs0, prefix, s);
      } else {
        PartitionExtendGroup(gs0, prefix, s);
      }
    }
  }

  /** `gs` splits `sentences` into non-empty groups, the last ending with
      the last sentence. */
  ghost predicate Partitions(gs: seq<seq<string>>, sentences: seq<string>) {
    && Flatten(gs) == sentences
    && (forall k :: 0 <= k < |gs| ==> gs[k] != [])
    && (sentences != [] ==>
          gs != [] && gs[|gs| - 1] != [] && gs[|gs| - 1][|gs[|gs| - 1]| - 1] == sentences[|sentences| - 1])
  }

  /** A partition grows by a new group holding one more sentence. */
  lemma PartitionStartGroup(gs: seq<seq<string>>, sentences: seq<string>, s: string)
    requires Partitions(gs, sentences)
    ensures Partitions(gs + [[s]], sentences + [s])
  {
    FlattenSnoc(gs, [s]);
  }

  /** A partition grows by one more sentence in its last group. */
  lemma PartitionExtendGroup(gs: seq<seq<string>>, sentences: seq<string>, s: string)
    requires gs != [] && Partitions(gs, sentences)
    ensures Partitions(gs[..|gs| - 1] + [gs[|gs| - 1] + [s]], sentences + [s])
  {
    var n := |gs|;
    var init := gs[..n - 1];
    var last := gs[n - 1];
    assert gs == init + [last];
    FlattenSnoc(init, last);
    FlattenSnoc(init, last + [s]);
    var g := init + [last + [s]];
    forall k | 0 <= k < |g| ensures g[k] != [] {
      if k < n - 1 {
        assert g[k] == gs[k];
      }
    }
  }

  /** The loop's state follows the grouping of the sentences read so far. */
  lemma {:induction false} PackFollowsGroups(sentences: seq<string>, size: real)
    requires sentences != []
    ensures Follows(Pack(sentences, size), Groups(sentences, size))
    decreases |sentences|
  {
    var prefix := sentences[..|sentences| - 1];
    var s := sentences[|sentences| - 1];
    assert sentences == prefix + [s];
    if prefix != [] {
      PackFollowsGroups(prefix, size);
    }
    FollowsSnoc(prefix, s, size);
  }

  /** One more sentence keeps the loop's state following the grouping. */
  lemma FollowsSnoc(prefix: seq<string>, s: string, size: real)
    requires prefix != [] ==> Follows(Pack(prefix, size), Groups(prefix, size))
    ensures Follows(Pack(prefix + [s], size), Groups(prefix + [s], size))
  {
    PackAppend(prefix, s, size);
    GroupsSnoc(prefix, s, size);
    var st0 := Pack(prefix, size);
    var gs0 := Groups(prefix, size);
    if prefix == [] {
      FollowsStart(s, size);
    } else if Flushes(st0, s, size) {
      FollowsFlush(st0, gs0, s, size);
    } else {
      FollowsAppend(st0, gs0, s, size);
    }
  }

  /** A group of two or more sentences never yields a chunk longer than the
      size. */
  ghost predicate Fit(gs: seq<seq<string>>, size: real) {
    forall k :: 0 <= k < |gs| && |gs[k]| >= 2 ==> (|Trim(Render(gs[k], k == 0))| as real) <= size
  }

  /** The text of a group is at least as long as its last sentence. */
  lemma RenderCoversLast(g: seq<string>, first: bool)
    requires g != []
    ensures |Render(g, first)| >= |g[|g| - 1]|
  {
  }

  /** Appending a sentence to the buffer keeps the groups fitting: the
      sentence was appended only because the buffer plus it fitted. */
  lemma FitAppend(st: Packing, gs: seq<seq<string>>, s: string, size: real)
    requires Follows(st, gs) && !Flushes(st, s, size) && Fit(gs, size)
    requires gs[|gs| - 1][|gs[|gs| - 1]| - 1] != []
    ensures var n := |gs|; Fit(gs[..n - 1] + [gs[n - 1] + [s]], size)
  {
    var n := |gs|;
    var last := gs[n - 1];
    var gs1 := gs[..n - 1] + [last + [s]];
    RenderCoversLast(last, n == 1);
    assert (last + [s])[..|last|] == last;
    var buffer := st.current + s;
    assert Render(gs1[n - 1], n == 1) == buffer + " ";
    TrimIgnoresTrailingSpace(buffer);
    TrimmedPiece(buffer);
    forall k | 0 <= k < n - 1 ensures gs1[k] == gs[k] { }
  }

  /** Every grouping of non-empty sentences fits. */
  lemma {:induction false} GroupsFit(sentences: seq<string>, size: real)
    requires forall i :: 0 <= i < |sentences| ==> sentences[i] != []
    ensures Fit(Groups(sentences, size), size)
    decreases |sentences|
  {
    if sentences != [] {
      var prefix := sentences[..|sentences| - 1];
      var s := sentences[|sentences| - 1];
      assert sentences == prefix + [s];
      GroupsSnoc(prefix, s, size);
      var gs0 := Groups(prefix, size);
      GroupsFit(prefix, size);
      if prefix == [] {
        assert Groups(sentences, size) == [[s]];
      } else if Flushes(Pack(prefix, size), s, size) {
        assert forall k :: 0 <= k < |gs0| ==> (gs0 + [[s]])[k] == gs0[k];
      } else {
        PackFollowsGroups(prefix, size);
        GroupsPartition(prefix, size);
        FitAppend(Pack(prefix, size), gs0, s, size);
      }
    }
  }

  /** The text of a group contains its last sentence. */
  lemma RenderShowsLast(g: seq<string>, first: bool)
    requires g != [] && !AllWhiteSpace(g[|g| - 1])
    ensures !AllWhiteSpace(Render(g, first))
  {
    var last := g[|g| - 1];
    var k :| 0 <= k < |last| && !IsWhiteSpace(last[k]);
    if |g| == 1 {
      assert Render(g, first)[k] == last[k];
    } else {
      var before := Render(g[..|g| - 1], first);
      assert Render(g, first) == before + last + " ";
      assert (before + last + " ")[|before| + k] == last[k];
    }
  }

  /** When the buffer follows the groups and holds a sentence that is not
      all white space, Finish adds it as the last chunk. */
  lemma FinishFollowsGroups(text: string, st: Packing, gs: seq<seq<string>>)
    requires Follows(st, gs)
    requires !AllWhiteSpace(gs[|gs| - 1][|gs[|gs| - 1]| - 1])
    ensures Finish(text, st) == st.chunks + [MakeChunk(|st.chunks|, Trim(Render(gs[|gs| - 1], |gs| == 1)))]
    ensures ChunksOfGroups(Finish(text, st), gs)
  {
    var last := gs[|gs| - 1];
    RenderShowsLast(last, |gs| == 1);
    TrimmedPiece(st.current);
    var r := Finish(text, st);
    forall k | 0 <= k < |r| ensures r[k] == MakeChunk(k, Trim(Render(gs[k], k == 0))) {
      if k < |st.chunks| {
        assert r[k] == st.chunks[k];
      }
    }
  }

  /** A segment of the pattern's shape ends in a terminator, which is not
      white space. */
  lemma SentenceNotBlank(sentence: string)
    requires IsSentence(sentence)
    ensures !AllWhiteSpace(sentence)
  {
    assert !IsWhiteSpace(sentence[|sentence| - 1]);
  }

  /** What Chunks does with a list of sentences of the pattern's shape. */
  lemma PackedSentences(text: string, sentences: seq<string>, size: real)
    requires sentences != []
    requires forall i :: 0 <= i < |sentences| ==> IsSentence(sentences[i])
    ensures var chunks := Finish(text, Pack(sentences, size));
      var gs := Groups(sentences, size);
      && |chunks| == |gs|
      && Flatten(gs) == sentences
      && (forall k :: 0 <= k < |gs| ==> gs[k] != [])
      && ChunksOfGroups(chunks, gs)
      && Fit(gs, size)
  {
    PackFollowsGroups(sentences, size);
    GroupsPartition(sentences, size);
    GroupsFit(sentences, size);
    var gs := Groups(sentences, size);
    SentenceNotBlank(sentences[|sentences| - 1]);
    FinishFollowsGroups(text, Pack(sentences, size), gs);
  }

  /** When the text has at least one sentence, every sentence lands in
      exactly one chunk, in order: the chunks are the trimmed texts of
      consecutive groups of sentences whose concatenation is the sentence
      list, chunk `k` is numbered `k`, and a chunk longer than the size is a
      single sentence. The fallback chunk is not used. */
  lemma ChunksFollowSentences(text: string, size: real)
    requires Matches(text, 0) != []
    ensures var chunks := Chunks(text, size);
      var gs := Groups(Sentences(text), size);
      && |chunks| == |gs|
      && Flatten(gs) == Sentences(text)
      && (forall k :: 0 <= k < |gs| ==> gs[k] != [])
      && (forall k :: 0 <= k < |chunks| ==> chunks[k] == MakeChunk(k, Trim(Render(gs[k], k == 0))))
      && (forall k :: 0 <= k < |chunks| && (|chunks[k].text| as real) > size ==> |gs[k]| == 1)
  {
    MatchesAreSentences(text, 0);
    var ss := Sentences(text);
    PackedSentences(text, ss, size);
    var chunks := Chunks(text, size);
    var gs := Groups(ss, size);
    forall k | 0 <= k < |chunks| && (|chunks[k].text| as real) > size ensures |gs[k]| == 1 {
      assert chunks[k] == MakeChunk(k, Trim(Render(gs[k], k == 0)));
    }
  }

  /** Without any sentence the whole text, trimmed, is the only chunk. */
  lemma ChunksWithoutSentence(text: string, size: real)
    requires Matches(text, 0) == []
    ensures Chunks(text, size) == [MakeChunk(0, Trim(text))]
  {
    assert [text][..0] == [];
    assert Pack([text], size) == Packing([], text + " ", 0);
    TrimIgnoresTrailingSpace(text);
  }

  /** The loop only ever emits trimmed chunks numbered by their position. */
  lemma {:induction false} PackNumbersChunks(sentences: seq<string>, size: real)
    ensures var st := Pack(sentences, size);
      && st.index == |st.chunks|
      && forall k :: 0 <= k < |st.chunks| ==> st.chunks[k] == MakeChunk(k, st.chunks[k].text) && IsTrimmed(st.chunks[k].text)
    decreases |sentences|
  {
    if sentences != [] {
      var prefix := sentences[..|sentences| - 1];
      PackNumbersChunks(prefix, size);
      TrimmedPiece(Pack(prefix, size).current);
    }
  }

  /** Finish keeps the numbering and the trimming. */
  lemma FinishNumbers(text: string, st: Packing)
    requires st.index == |st.chunks|
    requires forall k :: 0 <= k < |st.chunks| ==> st.chunks[k] == MakeChunk(k, st.chunks[k].text) && IsTrimmed(st.chunks[k].text)
    ensures var chunks := Finish(text, st);
      forall k :: 0 <= k < |chunks| ==> chunks[k] == MakeChunk(k, chunks[k].text) && IsTrimmed(chunks[k].text)
  {
    TrimmedPiece(st.current);
    TrimmedPiece(text);
  }

  /** Chunk `k` has index `k` and id "chunk-k", and its text is trimmed. */
  lemma ChunksNumbered(text: string, size: real)
    ensures var chunks := Chunks(text, size);
      forall k :: 0 <= k < |chunks| ==>
        && chunks[k].index == k
        && chunks[k].id == "chunk-" + NatToString(k)
        && IsTrimmed(chunks[k].text)
  {
    var st := Pack(Sentences(text), size);
    PackNumbersChunks(Sentences(text), size);
    FinishNumbers(text, st);
  }

  /** Within one document no two chunks share an id. */
  lemma ChunkIdsDistinct(text: string, size: real, j: nat, k: nat)
    requires j < |Chunks(text, size)| && k < |Chunks(text, size)| && j != k
    ensures Chunks(text, size)[j].id != Chunks(text, size)[k].id
  {
    ChunksNumbered(text, size);
    var prefix := "chunk-";
    if Chunks(text, size)[j].id == Chunks(text, size)[k].id {
      assert (prefix + NatToString(j))[|prefix|..] == NatToString(j);
      assert (prefix + NatToString(k))[|prefix|..] == NatToString(k);
      NatToStringInjective(j, k);
    }
  }

  /** Every successful chunking starts again at "chunk-0". */
  lemma ResponseStartsAtChunk0(text: Option<string>, chunkSize: Option<real>)
    requires Response(text, chunkSize).Success?
    ensures Response(text, chunkSize).value[0].id == "chunk-0"
    ensures Response(text, chunkSize).value[0].index == 0
  {
    ChunksNumbered(text.value, EffectiveSize(chunkSize));
    assert NatToString(0) == "0";
  }
}
