/**
  chunkText: the streaming sliding-window chunker, and its closed form.

  A text is a sequence of UTF-16 code units, so that offsets are those of the program.
*/
module Chunker {
  import opened Common

  type CodeUnit = c: int | 0 <= c < 0x1_0000

  type Text = seq<CodeUnit>

  datatype Span = Span(startOffset: nat, endOffset: nat)

  datatype TextChunk = TextChunk(chunkIndex: nat, content: Text, startOffset: nat, endOffset: nat)

  // What \s matches without the u flag.
  predicate IsSpace(c: CodeUnit) {
    || 0x9 <= c <= 0xD || c == 0x20 || c == 0xA0 || c == 0x1680 || 0x2000 <= c <= 0x200A
    || c == 0x2028 || c == 0x2029 || c == 0x202F || c == 0x205F || c == 0x3000 || c == 0xFEFF
  }

  predicate Blank(text: Text) {
    forall i :: 0 <= i < |text| ==> IsSpace(text[i])
  }

  // ----- tokens -----

  // The first position from `from` on that is (not) a space.
  function Skip(text: Text, from: nat, spaces: bool): (end: nat)
    requires from <= |text|
    ensures from <= end <= |text|
    ensures forall i :: from <= i < end ==> IsSpace(text[i]) == spaces
    ensures end < |text| ==> IsSpace(text[end]) != spaces
    decreases |text| - from
  {
    if from < |text| && IsSpace(text[from]) == spaces then Skip(text, from + 1, spaces) else from
  }

  // The matches of /\S+/g from a position on.
  function Tokens(text: Text, from: nat): seq<Span>
    requires from <= |text|
    decreases |text| - from
  {
    var start := Skip(text, from, true);
    if start == |text| then []
    else
      var end := Skip(text, start, false);
      [Span(start, end)] + Tokens(text, end)
  }

  // A maximal run of non-space characters.
  predicate IsToken(text: Text, t: Span) {
    && t.startOffset < t.endOffset <= |text|
    && (forall i :: t.startOffset <= i < t.endOffset ==> !IsSpace(text[i]))
    && (t.startOffset == 0 || IsSpace(text[t.startOffset - 1]))
    && (t.endOffset == |text| || IsSpace(text[t.endOffset]))
  }

  // ts lists, from left to right, maximal runs that start at or after a position.
  ghost predicate RunsFrom(text: Text, ts: seq<Span>, from: nat) {
    && (forall k :: 0 <= k < |ts| ==> IsToken(text, ts[k]) && from <= ts[k].startOffset)
    && (forall i, k :: 0 <= i < k < |ts| ==> ts[i].endOffset < ts[k].startOffset)
  }

  ghost predicate InSome(ts: seq<Span>, i: int) {
    exists t :: t in ts && t.startOffset <= i < t.endOffset
  }

  predicate AtBoundary(text: Text, from: nat) {
    from == 0 || from >= |text| || IsSpace(text[from]) || IsSpace(text[from - 1])
  }

  /** The tokens are exactly the maximal runs of non-space characters, from left to right. */
  lemma {:induction false} TokensAreRuns(text: Text, from: nat)
    requires from <= |text| && AtBoundary(text, from)
    ensures RunsFrom(text, Tokens(text, from), from)
    ensures forall i :: from <= i < |text| && !IsSpace(text[i]) ==> InSome(Tokens(text, from), i)
    decreases |text| - from
  {
    hide IsSpace, InSome;
    var start := Skip(text, from, true);
    if start < |text| {
      var end := Skip(text, start, false);
      TokensAreRuns(text, end);
      var rest := Tokens(text, end);
      FirstToken(text, from, start, end);
      MoreRuns(text, Span(start, end), rest, from);
      forall i | from <= i < |text| && !IsSpace(text[i]) ensures InSome([Span(start, end)] + rest, i) {
        InMore(Span(start, end), rest, i);
      }
    }
  }

  lemma FirstToken(text: Text, from: nat, start: nat, end: nat)
    requires from <= |text| && AtBoundary(text, from)
    requires start == Skip(text, from, true) < |text| && end == Skip(text, start, false)
    ensures IsToken(text, Span(start, end)) && AtBoundary(text, end) && from < end
  {
    hide IsSpace;
  }

  lemma MoreRuns(text: Text, t: Span, rest: seq<Span>, from: nat)
    requires IsToken(text, t) && from <= t.startOffset && RunsFrom(text, rest, t.endOffset)
    ensures RunsFrom(text, [t] + rest, from)
  {
    hide IsSpace;
    forall k | 0 <= k < |rest| ensures t.endOffset < rest[k].startOffset {
      assert IsToken(text, rest[k]);
      if t.endOffset == rest[k].startOffset { assert IsSpace(text[t.endOffset]); }
    }
  }

  lemma InMore(t: Span, rest: seq<Span>, i: int)
    requires t.startOffset <= i < t.endOffset || InSome(rest, i)
    ensures InSome([t] + rest, i)
  {
    if t.startOffset <= i < t.endOffset {
      assert t in [t] + rest;
    } else {
      var u :| u in rest && u.startOffset <= i < u.endOffset;
      assert u in [t] + rest;
    }
  }

  // ----- the closed form -----

  // Consecutive windows start step tokens apart.
  function Start(k: nat, step: nat): nat {
    k * step
  }

  // How many windows of target tokens it takes to cover n tokens: 0, 1, or 1 + ceil((n - target) / step).
  function WindowCount(n: nat, target: nat, step: nat): nat
    requires 1 <= step <= target
  {
    if n == 0 then 0 else if n <= target then 1 else 1 + (n - target + step - 1) / step
  }

  lemma StartNext(k: nat, step: nat)
    ensures Start(k + 1, step) == Start(k, step) + step
    ensures Start(0, step) == 0
  {
  }

  lemma StartGrows(i: nat, k: nat, step: nat)
    requires i <= k
    ensures Start(i, step) <= Start(k, step)
  {
  }

  // There is a window k + 1 exactly when window k does not reach the last token.
  lemma MoreWindowsIff(n: nat, target: nat, step: nat, k: nat)
    requires 1 <= step <= target && 1 <= n
    ensures k + 1 < WindowCount(n, target, step) <==> Start(k, step) + target < n
  {
    if target < n {
      CeilingCovers(n - target, step, k);
    }
  }

  lemma CeilingCovers(d: nat, step: nat, k: nat)
    requires 1 <= step && 1 <= d
    ensures k < (d + step - 1) / step <==> Start(k, step) < d
  {
    var q := (d + step - 1) / step;
    assert q * step <= d + step - 1 < q * step + step;
    if k < q {
      assert (k + 1) * step <= q * step;
    } else {
      assert q * step <= k * step;
    }
  }

  lemma WindowStarts(n: nat, target: nat, step: nat, k: nat)
    requires 1 <= step <= target && k < WindowCount(n, target, step)
    ensures Start(k, step) < n
  {
    if k > 0 {
      MoreWindowsIff(n, target, step, k - 1);
      StartNext(k - 1, step);
    } else {
      StartNext(0, step);
    }
  }

  function Min(a: nat, b: nat): nat {
    if a <= b then a else b
  }

  // Spans of a text, from left to right.
  predicate SpansOf(text: Text, ts: seq<Span>) {
    && (forall k :: 0 <= k < |ts| ==> ts[k].startOffset < ts[k].endOffset <= |text|)
    && (forall i, k :: 0 <= i < k < |ts| ==> ts[i].endOffset < ts[k].startOffset)
  }

  lemma RunsAreSpans(text: Text, ts: seq<Span>)
    requires RunsFrom(text, ts, 0)
    ensures SpansOf(text, ts)
  {
    forall k | 0 <= k < |ts| ensures ts[k].startOffset < ts[k].endOffset <= |text| {
      assert IsToken(text, ts[k]);
    }
  }

  // The text from the first of some spans to the last.
  function Slice(text: Text, ts: seq<Span>, index: nat): TextChunk
    requires SpansOf(text, ts) && ts != []
  {
    var first, last := ts[0], ts[|ts| - 1];
    TextChunk(index, text[first.startOffset..last.endOffset], first.startOffset, last.endOffset)
  }

  // The tokens of window k: target of them, or as many as there are.
  function WindowTokens(ts: seq<Span>, target: nat, step: nat, k: nat): (r: seq<Span>)
    requires Start(k, step) < |ts| && 1 <= target
    ensures r != []
  {
    ts[Start(k, step)..Min(Start(k, step) + target, |ts|)]
  }

  lemma SubSpans(text: Text, ts: seq<Span>, i: nat, k: nat)
    requires SpansOf(text, ts) && i <= k <= |ts|
    ensures SpansOf(text, ts[i..k])
  {
  }

  function Window(text: Text, ts: seq<Span>, target: nat, step: nat, k: nat): TextChunk
    requires SpansOf(text, ts) && Start(k, step) < |ts| && 1 <= target
  {
    SubSpans(text, ts, Start(k, step), Min(Start(k, step) + target, |ts|));
    Slice(text, WindowTokens(ts, target, step, k), k)
  }

  // The windows of a text, over the spans of its tokens.
  function WindowsOver(text: Text, ts: seq<Span>, target: nat, step: nat): seq<TextChunk>
    requires SpansOf(text, ts) && 1 <= step <= target
  {
    seq(WindowCount(|ts|, target, step), k requires 0 <= k < WindowCount(|ts|, target, step) =>
      WindowStarts(|ts|, target, step, k);
      Window(text, ts, target, step, k))
  }

  function Windows(text: Text, target: nat, step: nat): seq<TextChunk>
    requires 1 <= step <= target
  {
    TokensAreSpans(text);
    WindowsOver(text, Tokens(text, 0), target, step)
  }

  lemma TokensAreSpans(text: Text)
    ensures SpansOf(text, Tokens(text, 0))
  {
    TokensAreRuns(text, 0);
    RunsAreSpans(text, Tokens(text, 0));
  }

  // ----- the streaming loop -----

  datatype ChunkError = TargetNotPositive | OverlapNegative | OverlapNotSmaller

  // tokenSpans.splice(0, step) after a window has been emitted keeps the overlap.
  method PushChunk(chunks: seq<TextChunk>, text: Text, spans: seq<Span>, index: nat) returns (r: seq<TextChunk>)
    requires SpansOf(text, spans) && spans != []
    ensures r == chunks + [Slice(text, spans, index)]
  {
    var startSpan, endSpan := spans[0], spans[|spans| - 1];
    r := chunks + [TextChunk(index, text[startSpan.startOffset..endSpan.endOffset], startSpan.startOffset, endSpan.endOffset)];
  }

  // Where the loop stands after the first m tokens, k windows emitted.
  ghost predicate Streaming(
    text: Text, ts: seq<Span>, target: nat, step: nat, m: nat, k: nat, buffer: seq<Span>, chunks: seq<TextChunk>,
    sawToken: bool)
    requires SpansOf(text, ts) && 1 <= step <= target
  {
    && m <= |ts| && Start(k, step) <= m < Start(k, step) + target
    && buffer == ts[Start(k, step)..m]
    && (k > 0 ==> Start(k - 1, step) + target <= m)
    && (sawToken <==> k > 0 && Start(k - 1, step) + target < m)
    && |chunks| == k
    && (forall i :: 0 <= i < k ==> Start(i, step) + target <= |ts|
                                   && chunks[i] == Window(text, ts, target, step, i))
  }

  lemma FullBuffer(text: Text, ts: seq<Span>, target: nat, step: nat, m: nat, k: nat, buffer: seq<Span>)
    requires SpansOf(text, ts) && 1 <= step <= target && Start(k, step) <= m < |ts|
    requires buffer == ts[Start(k, step)..m] && |buffer| + 1 == target
    ensures var full := buffer + [ts[m]];
            && SpansOf(text, full) && Slice(text, full, k) == Window(text, ts, target, step, k)
            && full[step..] == ts[Start(k + 1, step)..m + 1]
  {
    StartNext(k, step);
    hide Start, SpansOf;
    var full := buffer + [ts[m]];
    assert full == ts[Start(k, step)..m + 1];
    SubSpans(text, ts, Start(k, step), m + 1);
    assert full[step..] == ts[Start(k + 1, step)..m + 1];
  }

  lemma Emits(
    text: Text, ts: seq<Span>, target: nat, step: nat, m: nat, k: nat, buffer: seq<Span>, chunks: seq<TextChunk>,
    sawToken: bool)
    requires SpansOf(text, ts) && 1 <= step <= target && m < |ts|
    requires Streaming(text, ts, target, step, m, k, buffer, chunks, sawToken) && |buffer| + 1 == target
    ensures var full := buffer + [ts[m]];
            && SpansOf(text, full)
            && Streaming(text, ts, target, step, m + 1, k + 1, full[step..], chunks + [Slice(text, full, k)], false)
  {
    StartNext(k, step);
    hide Start, Slice, Window, SpansOf;
    FullBuffer(text, ts, target, step, m, k, buffer);
  }

  lemma Takes(
    text: Text, ts: seq<Span>, target: nat, step: nat, m: nat, k: nat, buffer: seq<Span>, chunks: seq<TextChunk>,
    sawToken: bool)
    requires SpansOf(text, ts) && 1 <= step <= target && m < |ts|
    requires Streaming(text, ts, target, step, m, k, buffer, chunks, sawToken) && |buffer| + 1 < target
    ensures Streaming(text, ts, target, step, m + 1, k, buffer + [ts[m]], chunks, k > 0)
  {
    hide Start, Slice;
    assert buffer + [ts[m]] == ts[Start(k, step)..m + 1];
  }

  lemma CountReached(n: nat, target: nat, step: nat, k: nat)
    requires 1 <= step <= target && Start(k, step) <= n < Start(k, step) + target
    requires k > 0 ==> Start(k - 1, step) + target <= n
    ensures WindowCount(n, target, step) == if n > 0 && (k == 0 || Start(k - 1, step) + target < n) then k + 1 else k
    ensures n > 0 && (k == 0 || Start(k - 1, step) + target < n) ==> Start(k, step) < n
  {
    StartNext(0, step);
    if n > 0 {
      MoreWindowsIff(n, target, step, k);
      if k > 0 {
        MoreWindowsIff(n, target, step, k - 1);
        StartNext(k - 1, step);
        if k > 1 {
          MoreWindowsIff(n, target, step, k - 2);
          StartNext(k - 2, step);
        }
      }
    }
  }

  lemma Finishes(
    text: Text, ts: seq<Span>, target: nat, step: nat, k: nat, buffer: seq<Span>, chunks: seq<TextChunk>, sawToken: bool)
    requires SpansOf(text, ts) && 1 <= step <= target
    requires Streaming(text, ts, target, step, |ts|, k, buffer, chunks, sawToken)
    ensures SpansOf(text, buffer)
    ensures WindowsOver(text, ts, target, step)
         == if buffer != [] && (k == 0 || sawToken) then chunks + [Slice(text, buffer, k)] else chunks
  {
    CountReached(|ts|, target, step, k);
    SubSpans(text, ts, Start(k, step), |ts|);
    hide Start, Slice, SpansOf, WindowCount;
    assert ts[Start(k, step)..|ts|] == buffer;
    if buffer != [] && (k == 0 || sawToken) {
      assert WindowTokens(ts, target, step, k) == buffer;
    }
  }

  // The loop body for one match: buffer the token, and emit a window when the buffer is full.
  method TakeToken(
    text: Text, ghost ts: seq<Span>, ghost m: nat, token: Span, target: nat, step: nat, tokenSpans: seq<Span>,
    chunks: seq<TextChunk>, chunkIndex: nat, emittedChunk: bool, ghost sawToken: bool)
    returns (tokenSpans': seq<Span>, chunks': seq<TextChunk>, chunkIndex': nat, emittedChunk': bool,
             sawTokenAfterLastEmit': bool)
    requires SpansOf(text, ts) && 1 <= step <= target && m < |ts| && token == ts[m]
    requires Streaming(text, ts, target, step, m, chunkIndex, tokenSpans, chunks, sawToken)
    requires |tokenSpans| < target && (emittedChunk <==> chunkIndex > 0)
    ensures Streaming(text, ts, target, step, m + 1, chunkIndex', tokenSpans', chunks', sawTokenAfterLastEmit')
    ensures |tokenSpans'| < target && (emittedChunk' <==> chunkIndex' > 0)
  {
    hide Slice, Start, SpansOf, Streaming, IsSpace, Window;
    chunks', chunkIndex', emittedChunk' := chunks, chunkIndex, emittedChunk;
    sawTokenAfterLastEmit' := emittedChunk;
    tokenSpans' := tokenSpans + [token];
    if |tokenSpans'| == target {
      Emits(text, ts, target, step, m, chunkIndex, tokenSpans, chunks, sawToken);
      chunks' := PushChunk(chunks, text, tokenSpans', chunkIndex);
      chunkIndex' := chunkIndex + 1;
      emittedChunk' := true;
      sawTokenAfterLastEmit' := false;
      tokenSpans' := tokenSpans'[step..];
    } else {
      Takes(text, ts, target, step, m, chunkIndex, tokenSpans, chunks, sawToken);
    }
  }

  /** chunkText: the streaming loop emits exactly the windows of the closed form. */
  method ChunkText(text: Text, targetTokens: int, overlapTokens: int) returns (r: Result<seq<TextChunk>, ChunkError>)
    ensures r == if targetTokens < 1 then Failure(TargetNotPositive)
                 else if overlapTokens < 0 then Failure(OverlapNegative)
                 else if targetTokens <= overlapTokens then Failure(OverlapNotSmaller)
                 else Success(Windows(text, targetTokens, targetTokens - overlapTokens))
  {
    if targetTokens < 1 { return Failure(TargetNotPositive); }
    if overlapTokens < 0 { return Failure(OverlapNegative); }
    if overlapTokens >= targetTokens { return Failure(OverlapNotSmaller); }
    var step := targetTokens - overlapTokens;
    ghost var ts, m := Tokens(text, 0), 0;
    TokensAreSpans(text);
    hide Slice, Start, SpansOf, Streaming, IsSpace, WindowsOver, Tokens, Window;
    Begins(text, ts, targetTokens, step);
    var tokenSpans, chunks, chunkIndex, emittedChunk, sawTokenAfterLastEmit := [], [], 0, false, false;
    var position := 0;
    var start := Skip(text, position, true);
    assert Remaining(text, ts, m, position);
    hide Remaining;
    while start < |text|
      invariant 0 <= position <= start <= |text| && start == Skip(text, position, true)
      invariant Remaining(text, ts, m, position)
      invariant |tokenSpans| < targetTokens && chunkIndex >= 0 && (emittedChunk <==> chunkIndex > 0)
      invariant Streaming(text, ts, targetTokens, step, m, chunkIndex, tokenSpans, chunks, sawTokenAfterLastEmit)
      decreases |text| - position
    {
      var end := Skip(text, start, false);
      NextToken(text, ts, m, position, start, end);
      tokenSpans, chunks, chunkIndex, emittedChunk, sawTokenAfterLastEmit :=
        TakeToken(text, ts, m, Span(start, end), targetTokens, step, tokenSpans, chunks, chunkIndex, emittedChunk,
                  sawTokenAfterLastEmit);
      position, m := end, m + 1;
      start := Skip(text, position, true);
    }
    NoMoreTokens(text, ts, m, position);
    Finishes(text, ts, targetTokens, step, chunkIndex, tokenSpans, chunks, sawTokenAfterLastEmit);
    if |tokenSpans| > 0 && (!emittedChunk || sawTokenAfterLastEmit) {
      chunks := PushChunk(chunks, text, tokenSpans, chunkIndex);
    }
    r := Success(chunks);
  }

  // The tokens from m on are those the regular expression still has to find.
  ghost predicate Remaining(text: Text, ts: seq<Span>, m: nat, position: nat) {
    position <= |text| && m <= |ts| && ts[m..] == Tokens(text, position)
  }

  lemma NoMoreTokens(text: Text, ts: seq<Span>, m: nat, position: nat)
    requires Remaining(text, ts, m, position) && Skip(text, position, true) == |text|
    ensures m == |ts|
  {
    assert Tokens(text, position) == [];
  }

  lemma Begins(text: Text, ts: seq<Span>, target: nat, step: nat)
    requires SpansOf(text, ts) && 1 <= step <= target
    ensures Streaming(text, ts, target, step, 0, 0, [], [], false)
  {
    StartNext(0, step);
    hide Start, SpansOf, Window;
  }

  lemma NextToken(text: Text, ts: seq<Span>, m: nat, position: nat, start: nat, end: nat)
    requires Remaining(text, ts, m, position)
    requires start == Skip(text, position, true) < |text| && end == Skip(text, start, false)
    ensures m < |ts| && ts[m] == Span(start, end) && Remaining(text, ts, m + 1, end) && start < end
  {
    assert Tokens(text, position) == [Span(start, end)] + Tokens(text, end);
    assert ts[m..][1..] == ts[m + 1..];
  }

  // ----- what the windows promise -----

  /**
    Neighbouring windows share exactly the overlap: the last target - step tokens of one are the first of the next,
    which goes on with at least one token of its own.
  */
  lemma NeighboursShareOverlap(ts: seq<Span>, target: nat, step: nat, k: nat)
    requires 1 <= step <= target && k + 1 < WindowCount(|ts|, target, step)
    ensures Start(k, step) + target < |ts| && Start(k + 1, step) < |ts|
    ensures var first, second := WindowTokens(ts, target, step, k), WindowTokens(ts, target, step, k + 1);
            && |first| == target && target - step < |second| && first[step..] == second[..target - step]
  {
    MoreWindowsIff(|ts|, target, step, k);
    StartNext(k, step);
    hide Start, WindowCount;
    var first, second := WindowTokens(ts, target, step, k), WindowTokens(ts, target, step, k + 1);
    assert first[step..] == ts[Start(k + 1, step)..Start(k, step) + target];
    assert second[..target - step] == ts[Start(k + 1, step)..Start(k, step) + target];
  }

  /** Every token is in some window. */
  lemma EveryTokenCovered(n: nat, target: nat, step: nat, i: nat) returns (k: nat)
    requires 1 <= step <= target && i < n
    ensures k < WindowCount(n, target, step) && Start(k, step) <= i < Min(Start(k, step) + target, n)
  {
    if i < target {
      k := 0;
      StartNext(0, step);
    } else {
      var q := (i - target) / step;
      k := q + 1;
      assert q * step <= i - target < q * step + step;
      StartNext(q, step);
      MoreWindowsIff(n, target, step, q);
    }
  }

  // Chunk k of a text runs from its window's first token to its last.
  lemma ChunkBounds(text: Text, target: nat, step: nat, k: nat)
    requires 1 <= step <= target && k < |Windows(text, target, step)|
    ensures var ts, chunk := Tokens(text, 0), Windows(text, target, step)[k];
            && SpansOf(text, ts) && k < WindowCount(|ts|, target, step) && Start(k, step) < |ts|
            && var last := Min(Start(k, step) + target, |ts|) - 1;
               && Start(k, step) <= last && chunk.chunkIndex == k
               && chunk.startOffset == ts[Start(k, step)].startOffset && chunk.endOffset == ts[last].endOffset
               && chunk.startOffset <= chunk.endOffset <= |text|
               && chunk.content == text[chunk.startOffset..chunk.endOffset]
  {
    TokensAreSpans(text);
    WindowStarts(|Tokens(text, 0)|, target, step, k);
    hide Tokens, Start, WindowCount, IsSpace;
    SpansOrdered(text, Tokens(text, 0), Start(k, step), Min(Start(k, step) + target, |Tokens(text, 0)|) - 1);
  }

  lemma TokenAt(text: Text, i: nat) returns (j: nat)
    requires i < |text| && !IsSpace(text[i])
    ensures var ts := Tokens(text, 0); j < |ts| && ts[j].startOffset <= i < ts[j].endOffset
  {
    TokensAreRuns(text, 0);
    hide IsSpace, Tokens;
    assert InSome(Tokens(text, 0), i);
    var t :| t in Tokens(text, 0) && t.startOffset <= i < t.endOffset;
    j :| 0 <= j < |Tokens(text, 0)| && Tokens(text, 0)[j] == t;
  }

  /** Every non-space character of the text is in some chunk. */
  lemma NothingIsDropped(text: Text, target: nat, step: nat, i: nat) returns (k: nat)
    requires 1 <= step <= target && i < |text| && !IsSpace(text[i])
    ensures var chunks := Windows(text, target, step);
            k < |chunks| && chunks[k].startOffset <= i < chunks[k].endOffset
  {
    hide IsSpace, Tokens, Start, WindowCount, Window, SpansOf;
    var ts := Tokens(text, 0);
    var j := TokenAt(text, i);
    k := EveryTokenCovered(|ts|, target, step, j);
    ChunkBounds(text, target, step, k);
    SpansOrdered(text, ts, Start(k, step), j);
    SpansOrdered(text, ts, j, Min(Start(k, step) + target, |ts|) - 1);
  }

  lemma SpansOrdered(text: Text, ts: seq<Span>, i: nat, k: nat)
    requires SpansOf(text, ts) && i <= k < |ts|
    ensures ts[i].startOffset <= ts[k].startOffset && ts[i].endOffset <= ts[k].endOffset
    ensures i < k ==> ts[i].startOffset < ts[k].startOffset && ts[i].endOffset < ts[k].endOffset
  {
  }

  /** No chunk lies inside another: a later chunk starts later and ends later. */
  lemma NoChunkInsideAnother(text: Text, target: nat, step: nat, i: nat, k: nat)
    requires 1 <= step <= target
    requires var chunks := Windows(text, target, step); i < k < |chunks|
    ensures var chunks := Windows(text, target, step);
            chunks[i].startOffset < chunks[k].startOffset && chunks[i].endOffset < chunks[k].endOffset
  {
    var ts := Tokens(text, 0);
    hide Tokens, Start, WindowCount, SpansOf, Window;
    ChunkBounds(text, target, step, i);
    ChunkBounds(text, target, step, k);
    MoreWindowsIff(|ts|, target, step, k - 1);
    StartNext(k - 1, step);
    StartNext(i, step);
    StartGrows(i, k - 1, step);
    SpansOrdered(text, ts, Start(i, step), Start(k, step));
    SpansOrdered(text, ts, Start(i, step) + target - 1, Min(Start(k, step) + target, |ts|) - 1);
  }

  /**
    What insertPostgresChunks demands of its input: consecutive indices, ordered offsets within the text, and content
    that is the text between them and not blank.
  */
  lemma MeetsWriteContract(text: Text, target: nat, step: nat, k: nat)
    requires 1 <= step <= target && k < |Windows(text, target, step)|
    ensures var chunk := Windows(text, target, step)[k];
            && chunk.chunkIndex == k && chunk.startOffset <= chunk.endOffset <= |text|
            && chunk.content == text[chunk.startOffset..chunk.endOffset] && !Blank(chunk.content)
  {
    ChunkBounds(text, target, step, k);
    hide Tokens, Start, WindowCount, Window, IsSpace;
    var chunk := Windows(text, target, step)[k];
    StartsWithToken(text, Start(k, step));
    SpansOrdered(text, Tokens(text, 0), Start(k, step), Min(Start(k, step) + target, |Tokens(text, 0)|) - 1);
    assert chunk.content[0] == text[chunk.startOffset];
  }

  lemma StartsWithToken(text: Text, j: nat)
    requires j < |Tokens(text, 0)|
    ensures var t := Tokens(text, 0)[j]; t.startOffset < t.endOffset <= |text| && !IsSpace(text[t.startOffset])
  {
    TokensAreRuns(text, 0);
    hide IsSpace, Tokens;
    assert IsToken(text, Tokens(text, 0)[j]);
  }

  /** A text has no chunk if and only if it is blank. */
  lemma NoChunksIffBlank(text: Text, target: nat, step: nat)
    requires 1 <= step <= target
    ensures Windows(text, target, step) == [] <==> Blank(text)
  {
    if Windows(text, target, step) == [] {
      forall i | 0 <= i < |text| ensures IsSpace(text[i]) {
        if !IsSpace(text[i]) {
          var k := NothingIsDropped(text, target, step, i);
        }
      }
    } else {
      var chunk := Windows(text, target, step)[0];
      MeetsWriteContract(text, target, step, 0);
      var i :| 0 <= i < |chunk.content| && !IsSpace(chunk.content[i]);
      assert chunk.content[i] == text[chunk.startOffset + i];
    }
  }
}
