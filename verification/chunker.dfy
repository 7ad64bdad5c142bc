/**
 * The whitespace sliding-window chunker applied to text extracted from an uploaded PDF
 * (`chunk_text`): the text is split into whitespace-separated tokens and every window of
 * `chunkSize` tokens, advancing by `chunkSize - overlap`, becomes one chunk, its tokens
 * joined by single spaces.
 */
module Chunker {
  import opened Text

  /** `tokens[start:start + size]`, with Python's clamping of the end bound. */
  function Window(tokens: seq<string>, start: int, size: int): seq<string> {
    Slice(tokens, start, start + size)
  }

  /** The chunks the loop emits once its index has reached `i`. */
  function ChunksFrom(tokens: seq<string>, i: nat, size: int, step: int): seq<string>
    requires step >= 1
    decreases |tokens| - i
  {
    if i >= |tokens| then []
    else [Join(" ", Window(tokens, i, size))] + ChunksFrom(tokens, i + step, size, step)
  }

  /**
   * What `chunk_text(text, chunkSize, overlap)` returns. Text without tokens yields no chunk
   * whatever the parameters; otherwise the step `chunkSize - overlap` must be positive.
   */
  function Chunks(text: string, chunkSize: int, overlap: int): seq<string>
    requires Split(text) != [] ==> chunkSize - overlap >= 1
  {
    if text == "" || Split(text) == [] then []
    else ChunksFrom(Split(text), 0, chunkSize, chunkSize - overlap)
  }

  /**
   * The chunker's loop. The source validates neither parameter; the loop terminates exactly
   * when there are no tokens or the step `chunkSize - overlap` is positive, which is what
   * this method requires.
   */
  method ChunkText(text: string, chunkSize: int, overlap: int) returns (chunks: seq<string>)
    requires Split(text) != [] ==> chunkSize - overlap >= 1
    ensures chunks == Chunks(text, chunkSize, overlap)
  {
    chunks := [];
    if text == "" {
      return;
    }
    var tokens := Split(text);
    var step := chunkSize - overlap;
    var i: nat := 0;
    while i < |tokens|
      invariant tokens == [] ==> chunks == []
      invariant tokens != [] ==>
        chunks + ChunksFrom(tokens, i, chunkSize, step) == ChunksFrom(tokens, 0, chunkSize, step)
      decreases |tokens| - i
    {
      chunks := chunks + [Join(" ", Window(tokens, i, chunkSize))];
      i := i + step;
    }
  }

  // ---------------------------------------------------------------------------
  // Properties of the chunks
  // ---------------------------------------------------------------------------

  /** Text made only of whitespace (including the empty text) yields no chunk. */
  lemma BlankTextNoChunks(text: string, chunkSize: int, overlap: int)
    requires AllSpace(text)
    ensures Split(text) == [] && Chunks(text, chunkSize, overlap) == []
  {
    SplitAllSpace(text);
  }

  /** The number of chunks from index `i` is the ceiling of the remaining tokens over the step. */
  lemma {:induction false} ChunksFromCount(tokens: seq<string>, i: nat, size: int, step: int)
    requires step >= 1
    ensures var c := |ChunksFrom(tokens, i, size, step)|;
      if i >= |tokens| then c == 0
      else i + (c - 1) * step < |tokens| <= i + c * step
    decreases |tokens| - i
  {
    if i < |tokens| {
      ChunksFromCount(tokens, i + step, size, step);
      var c' := |ChunksFrom(tokens, i + step, size, step)|;
      assert (c' + 1 - 1) * step == c' * step;
      assert (c' + 1) * step == c' * step + step;
      assert c' >= 1 ==> (c' - 1) * step == c' * step - step;
    }
  }

  lemma MulMonotone(a: int, b: int, s: int)
    requires s >= 1 && a <= b
    ensures a * s <= b * s
  {
    assert b * s == a * s + (b - a) * s;
  }

  /** The ceiling characterised by division. */
  lemma CeilDiv(n: nat, step: int, c: nat)
    requires step >= 1
    requires c * step >= n && (c == 0 || (c - 1) * step < n)
    ensures c == (n + step - 1) / step
  {
    var q := (n + step - 1) / step;
    var r := (n + step - 1) % step;
    assert n + step - 1 == q * step + r && 0 <= r < step;
    if c < q {
      MulMonotone(c, q - 1, step);
      assert false;
    }
    if c > q {
      MulMonotone(q, c - 1, step);
      assert false;
    }
  }

  /** With n tokens and a positive step, `chunk_text` yields `ceil(n / step)` chunks. */
  lemma ChunkCount(text: string, chunkSize: int, overlap: int)
    requires chunkSize - overlap >= 1
    ensures var n, step := |Split(text)|, chunkSize - overlap;
      |Chunks(text, chunkSize, overlap)| == (n + step - 1) / step
  {
    var tokens, step := Split(text), chunkSize - overlap;
    ChunksFromCount(tokens, 0, chunkSize, step);
    CeilDiv(|tokens|, step, |ChunksFrom(tokens, 0, chunkSize, step)|);
  }

  lemma {:induction false} ChunksFromAt(tokens: seq<string>, i: nat, size: int, step: int, j: nat)
    requires step >= 1
    requires j < |ChunksFrom(tokens, i, size, step)|
    ensures i + j * step < |tokens|
    ensures ChunksFrom(tokens, i, size, step)[j] == Join(" ", Window(tokens, i + j * step, size))
    decreases |tokens| - i
  {
    if j > 0 {
      ChunksFromAt(tokens, i + step, size, step, j - 1);
      assert i + step + (j - 1) * step == i + j * step;
    }
  }

  /** `tokens[s:s + size]` for a start inside the list and a positive size. */
  function WindowAt(tokens: seq<string>, s: nat, size: nat): seq<string>
    requires s <= |tokens|
  {
    tokens[s..if s + size < |tokens| then s + size else |tokens|]
  }

  /** Where chunk `j` starts: token `j * step`. */
  function ChunkStartIndex(chunkSize: int, overlap: int, j: nat): nat
    requires chunkSize - overlap >= 1
  {
    var step: nat := chunkSize - overlap;
    j * step
  }

  /** The tokens of chunk `j`: a window that starts at token `j * step`. */
  function ChunkTokens(text: string, chunkSize: nat, overlap: int, j: nat): seq<string>
    requires chunkSize - overlap >= 1
  {
    var tokens := Split(text);
    var start := ChunkStartIndex(chunkSize, overlap, j);
    if 0 <= start <= |tokens| then WindowAt(tokens, start, chunkSize) else []
  }

  lemma ChunkStart(text: string, chunkSize: int, overlap: int, j: nat)
    requires chunkSize - overlap >= 1
    requires j < |Chunks(text, chunkSize, overlap)|
    ensures ChunkStartIndex(chunkSize, overlap, j) < |Split(text)|
    ensures Chunks(text, chunkSize, overlap)[j] == Join(" ", Window(Split(text), ChunkStartIndex(chunkSize, overlap, j), chunkSize))
  {
    var tokens, step := Split(text), chunkSize - overlap;
    ChunksOfText(text, chunkSize, overlap);
    ChunksFromAt(tokens, 0, chunkSize, step, j);
    assert ChunkStartIndex(chunkSize, overlap, j) == 0 + j * step;
  }

  lemma ChunksOfText(text: string, chunkSize: int, overlap: int)
    requires chunkSize - overlap >= 1
    ensures Chunks(text, chunkSize, overlap) == ChunksFrom(Split(text), 0, chunkSize, chunkSize - overlap)
  {
  }

  /**
   * Chunk `j` is the space-joined token slice `[j * step, min(j * step + chunkSize, n))`,
   * it is never empty, and splitting it again gives back exactly those tokens, at most
   * `chunkSize` of them.
   */
  lemma ChunkAt(text: string, chunkSize: nat, overlap: int, j: nat)
    requires chunkSize >= 1 && chunkSize - overlap >= 1
    requires j < |Chunks(text, chunkSize, overlap)|
    ensures var toks := ChunkTokens(text, chunkSize, overlap, j);
      && Chunks(text, chunkSize, overlap)[j] == Join(" ", toks)
      && Split(Chunks(text, chunkSize, overlap)[j]) == toks
      && 1 <= |toks| <= chunkSize
      && Chunks(text, chunkSize, overlap)[j] != ""
  {
    var tokens := Split(text);
    ChunkStart(text, chunkSize, overlap, j);
    var s := ChunkStartIndex(chunkSize, overlap, j);
    assert ChunkTokens(text, chunkSize, overlap, j) == WindowAt(tokens, s, chunkSize);
    SplitTokens(text);
    WindowTokens(tokens, s, chunkSize);
  }

  /** A window starting inside the token list is a non-empty run of its tokens. */
  lemma WindowTokens(tokens: seq<string>, s: nat, size: nat)
    requires size >= 1 && s < |tokens|
    requires forall k :: 0 <= k < |tokens| ==> tokens[k] != "" && NoSpace(tokens[k])
    ensures var toks := WindowAt(tokens, s, size);
      && Window(tokens, s, size) == toks
      && Split(Join(" ", toks)) == toks
      && 1 <= |toks| <= size
      && Join(" ", toks) != ""
  {
    var toks := WindowAt(tokens, s, size);
    forall k | 0 <= k < |toks| ensures toks[k] != "" && NoSpace(toks[k]) {
      assert toks[k] == tokens[s + k];
    }
    SplitJoin(toks);
    JoinNonEmpty(toks);
  }

  lemma JoinNonEmpty(ws: seq<string>)
    requires ws != [] && ws[0] != ""
    ensures Join(" ", ws) != ""
  {
  }

  /**
   * Consecutive windows share exactly `overlap` tokens: when window `j` is full (it does not
   * reach past the last token), the tokens after its first `step` are the first `overlap`
   * tokens of window `j + 1`.
   */
  lemma ConsecutiveOverlap(text: string, chunkSize: nat, overlap: int, j: nat)
    requires 0 <= overlap < chunkSize
    requires ChunkStartIndex(chunkSize, overlap, j) + chunkSize <= |Split(text)|
    ensures var a, b := ChunkTokens(text, chunkSize, overlap, j), ChunkTokens(text, chunkSize, overlap, j + 1);
      |a| == chunkSize && overlap <= |b| && a[chunkSize - overlap..] == b[..overlap]
  {
    var tokens := Split(text);
    var s, t := ChunkStartIndex(chunkSize, overlap, j), ChunkStartIndex(chunkSize, overlap, j + 1);
    assert t == s + chunkSize - overlap by { NextChunkStart(chunkSize, overlap, j); }
    assert ChunkTokens(text, chunkSize, overlap, j) == WindowAt(tokens, s, chunkSize);
    assert ChunkTokens(text, chunkSize, overlap, j + 1) == WindowAt(tokens, t, chunkSize);
    WindowOverlap(tokens, s, chunkSize, overlap);
  }

  lemma NextChunkStart(chunkSize: int, overlap: int, j: nat)
    requires chunkSize - overlap >= 1
    ensures ChunkStartIndex(chunkSize, overlap, j + 1) == ChunkStartIndex(chunkSize, overlap, j) + chunkSize - overlap
  {
  }

  lemma WindowOverlap(tokens: seq<string>, s: nat, size: nat, overlap: nat)
    requires overlap < size && s + size <= |tokens|
    ensures var a, b := WindowAt(tokens, s, size), WindowAt(tokens, s + size - overlap, size);
      |a| == size && overlap <= |b| && a[size - overlap..] == b[..overlap]
  {
  }
}
