/** What the recursive splitter promises: separator cuts lose nothing, blank
    text gives no chunk, packing keeps the text and its order, every packed
    chunk fits unless it is a single oversized part, every chunk after the
    first carries the tail of the one before it, split_text takes the first
    level that fits, and the forced windows cover every token. */
module TextSplitterProperties {
  import opened Wrappers
  import opened Strings
  import opened TextSplitter

  // ---------------------------------------------------------------------------
  // Separator cuts

  lemma {:induction false} PiecesFromConcat(sep: Separator, text: string, start: nat, j: nat)
    requires start <= j && start <= |text| && j <= |text| + 1
    ensures Concat(PiecesFrom(sep, text, start, j)) == text[start..]
    decreases |text| + 1 - j
  {
    if j > |text| {
      assert Concat([text[start..]]) == Concat([]) + text[start..];
    } else if CutsAt(sep, text, j) {
      PiecesFromConcat(sep, text, j, j + 1);
      ConcatAppend([text[start..j]], PiecesFrom(sep, text, j, j + 1));
      assert Concat([text[start..j]]) == Concat([]) + text[start..j];
      assert text[start..j] + text[j..] == text[start..];
    } else {
      PiecesFromConcat(sep, text, start, j + 1);
    }
  }

  /** Cutting at a separator loses and reorders nothing: the pieces
      concatenate back to the text. */
  lemma PiecesConcat(sep: Separator, text: string)
    ensures Concat(Pieces(sep, text)) == text
  {
    PiecesFromConcat(sep, text, 0, 0);
  }

  lemma {:induction false} PiecesFromOfBlank(sep: Separator, text: string, start: nat, j: nat)
    requires start <= j && start <= |text| && j <= |text| + 1
    requires IsBlank(text[start..])
    ensures forall i :: 0 <= i < |PiecesFrom(sep, text, start, j)| ==> IsBlank(PiecesFrom(sep, text, start, j)[i])
    decreases |text| + 1 - j
  {
    if j > |text| {
    } else if CutsAt(sep, text, j) {
      assert forall i :: 0 <= i < j - start ==> text[start..j][i] == text[start..][i];
      assert forall i :: 0 <= i < |text| - j ==> text[j..][i] == text[start..][i + (j - start)];
      PiecesFromOfBlank(sep, text, j, j + 1);
    } else {
      PiecesFromOfBlank(sep, text, start, j + 1);
    }
  }

  lemma {:induction false} NonBlankOfBlank(pieces: seq<string>)
    requires forall i :: 0 <= i < |pieces| ==> IsBlank(pieces[i])
    ensures NonBlank(pieces) == []
  {
    if pieces != [] {
      NonBlankOfBlank(pieces[..|pieces| - 1]);
    }
  }

  /** Whitespace-only text leaves no part at any separator level. */
  lemma BlankTextHasNoParts(sep: Separator, text: string)
    requires IsBlank(text)
    ensures Parts(sep, text) == []
  {
    assert text[0..] == text;
    PiecesFromOfBlank(sep, text, 0, 0);
    NonBlankOfBlank(Pieces(sep, text));
  }

  // ---------------------------------------------------------------------------
  // Greedy packing

  /** The finished chunks and the open one concatenate to the parts read so far. */
  lemma {:induction false} PackStateConcat(sp: RecursiveTextSplitter, parts: seq<string>)
    ensures Concat(sp.PackState(parts).0) + sp.PackState(parts).1 == Concat(parts)
  {
    if parts != [] {
      var init := parts[..|parts| - 1];
      PackStateConcat(sp, init);
      var (done, current) := sp.PackState(init);
      var part := parts[|parts| - 1];
      assert parts == init + [part];
      ConcatAppend(init, [part]);
      assert Concat([part]) == Concat([]) + part;
      if sp.TokenLen(current + part) > sp.maxTokens && current != "" {
        ConcatAppend(done, [current]);
        assert Concat([current]) == Concat([]) + current;
      }
    }
  }

  /** Every finished chunk is non-empty. */
  lemma {:induction false} PackStateNonEmpty(sp: RecursiveTextSplitter, parts: seq<string>)
    ensures forall i :: 0 <= i < |sp.PackState(parts).0| ==> sp.PackState(parts).0[i] != ""
  {
    if parts != [] {
      PackStateNonEmpty(sp, parts[..|parts| - 1]);
    }
  }

  /** Every chunk, finished or open, fits in max_tokens or is a single part. */
  lemma {:induction false} PackStateFits(sp: RecursiveTextSplitter, parts: seq<string>)
    ensures var (done, current) := sp.PackState(parts);
      && (forall i :: 0 <= i < |done| ==> sp.TokenLen(done[i]) <= sp.maxTokens || done[i] in parts)
      && (current == "" || sp.TokenLen(current) <= sp.maxTokens || current in parts)
  {
    if parts != [] {
      var init := parts[..|parts| - 1];
      PackStateFits(sp, init);
      assert forall s :: s in init ==> s in parts;
    }
  }

  /** What the packing loop keeps: the finished chunks and the open one
      concatenate to the parts read so far; every finished chunk is
      non-empty; every chunk fits in max_tokens or is a single part. */
  lemma PackStateFacts(sp: RecursiveTextSplitter, parts: seq<string>)
    ensures var (done, current) := sp.PackState(parts);
      && Concat(done) + current == Concat(parts)
      && (forall i :: 0 <= i < |done| ==> done[i] != "")
      && (forall i :: 0 <= i < |done| ==> sp.TokenLen(done[i]) <= sp.maxTokens || done[i] in parts)
      && (current == "" || sp.TokenLen(current) <= sp.maxTokens || current in parts)
  {
    PackStateConcat(sp, parts);
    PackStateNonEmpty(sp, parts);
    PackStateFits(sp, parts);
  }

  /** Packing keeps the text of the parts in order, makes no empty chunk, and
      every chunk fits in max_tokens unless it is one part that is too large
      on its own. */
  lemma PackedFacts(sp: RecursiveTextSplitter, parts: seq<string>)
    ensures Concat(sp.Packed(parts)) == Concat(parts)
    ensures forall i :: 0 <= i < |sp.Packed(parts)| ==> sp.Packed(parts)[i] != ""
    ensures forall i :: 0 <= i < |sp.Packed(parts)| ==>
      sp.TokenLen(sp.Packed(parts)[i]) <= sp.maxTokens || sp.Packed(parts)[i] in parts
  {
    PackStateFacts(sp, parts);
    var (done, current) := sp.PackState(parts);
    if current != "" {
      ConcatAppend(done, [current]);
      assert Concat([current]) == Concat([]) + current;
    }
  }

  // ---------------------------------------------------------------------------
  // Overlap

  lemma {:induction false} OverlapFirstEntries(sp: RecursiveTextSplitter, chunks: seq<string>, n: nat)
    requires n <= |chunks|
    ensures n >= 1 ==> sp.OverlapFirst(chunks, n)[0] == chunks[0]
    ensures forall i :: 1 <= i < n ==>
      sp.OverlapFirst(chunks, n)[i] ==
        sp.CarriedText(sp.OverlapFirst(chunks, n)[i - 1], chunks[i], i == |chunks| - 1) + chunks[i]
  {
    if n > 1 {
      OverlapFirstEntries(sp, chunks, n - 1);
    }
  }

  /** _apply_overlap keeps one result per chunk: the first chunk as it is,
      and every later chunk preceded by the decoded tail of the previous
      result, so each result ends with its own chunk. */
  lemma OverlappedShape(sp: RecursiveTextSplitter, chunks: seq<string>)
    ensures |sp.Overlapped(chunks)| == |chunks|
    ensures |chunks| >= 1 ==> sp.Overlapped(chunks)[0] == chunks[0]
    ensures forall i :: 1 <= i < |chunks| ==>
      sp.Overlapped(chunks)[i] ==
        sp.CarriedText(sp.Overlapped(chunks)[i - 1], chunks[i], i == |chunks| - 1) + chunks[i]
    ensures forall i :: 0 <= i < |chunks| ==> EndsWith(sp.Overlapped(chunks)[i], chunks[i])
  {
    OverlapFirstEntries(sp, chunks, |chunks|);
    var r := sp.Overlapped(chunks);
    forall i | 0 <= i < |chunks| ensures EndsWith(r[i], chunks[i]) {
      if i >= 1 {
        var pre := sp.CarriedText(r[i - 1], chunks[i], i == |chunks| - 1);
        assert r[i] == pre + chunks[i];
        assert r[i][|r[i]| - |chunks[i]|..] == chunks[i];
      }
    }
  }

  /** The regular overlap carries min(overlap, n) of the previous result's n
      tokens, except that an overlap of 0 slices [-0:] and so carries all of
      them. */
  lemma RegularOverlapTokens(sp: RecursiveTextSplitter, prev: string, chunk: string, isLast: bool)
    requires !(isLast && (sp.TokenLen(chunk) as real) < (sp.maxTokens as real) * sp.minLengthRatio)
    ensures var carried := PySuffix(sp.tok.tokenize(prev), sp.CarriedTokens(prev, chunk, isLast));
      && (sp.overlap >= 1 ==> |carried| == if sp.overlap < sp.TokenLen(prev) then sp.overlap else sp.TokenLen(prev))
      && (sp.overlap == 0 ==> carried == sp.tok.tokenize(prev))
  {
    PySuffixShape(sp.tok.tokenize(prev), sp.overlap);
  }

  /** A count below max_tokens * ratio, with ratio at most 1, is below
      max_tokens. */
  lemma BelowRatioBelowMax(count: nat, maxTokens: nat, ratio: real)
    requires ratio <= 1.0
    requires (count as real) < (maxTokens as real) * ratio
    ensures count < maxTokens
  {
    var m := maxTokens as real;
    assert m * ratio <= m * 1.0 by {
      assert m >= 0.0;
      assert m * (1.0 - ratio) >= 0.0;
    }
  }

  /** A short last chunk (fewer than max_tokens * min_length_ratio tokens)
      that is still under max_tokens is topped up from the previous result:
      it receives min(max_tokens - own, n) of the previous result's n tokens,
      never pushing the token count past max_tokens. */
  lemma TopUpCarries(sp: RecursiveTextSplitter, prev: string, chunk: string)
    requires (sp.TokenLen(chunk) as real) < (sp.maxTokens as real) * sp.minLengthRatio
    requires sp.TokenLen(chunk) < sp.maxTokens
    ensures var carried := PySuffix(sp.tok.tokenize(prev), sp.CarriedTokens(prev, chunk, true));
      var needed := sp.maxTokens - sp.TokenLen(chunk);
      && |carried| == (if needed < sp.TokenLen(prev) then needed else sp.TokenLen(prev))
      && |carried| + sp.TokenLen(chunk) <= sp.maxTokens
  {
    var k := sp.CarriedTokens(prev, chunk, true);
    if k == 0 {
      assert sp.TokenLen(prev) == 0;
    } else {
      PySuffixShape(sp.tok.tokenize(prev), k);
    }
  }

  /** With a ratio of at most 1 every short last chunk is under max_tokens,
      so the top-up above always applies. */
  lemma ShortLastChunkTopUp(sp: RecursiveTextSplitter, prev: string, chunk: string)
    requires sp.minLengthRatio <= 1.0
    requires (sp.TokenLen(chunk) as real) < (sp.maxTokens as real) * sp.minLengthRatio
    ensures sp.TokenLen(chunk) < sp.maxTokens
    ensures var carried := PySuffix(sp.tok.tokenize(prev), sp.CarriedTokens(prev, chunk, true));
      var needed := sp.maxTokens - sp.TokenLen(chunk);
      && |carried| == (if needed < sp.TokenLen(prev) then needed else sp.TokenLen(prev))
      && |carried| + sp.TokenLen(chunk) <= sp.maxTokens
  {
    BelowRatioBelowMax(sp.TokenLen(chunk), sp.maxTokens, sp.minLengthRatio);
    TopUpCarries(sp, prev, chunk);
  }

  /** A ratio above 1 lets a "short" last chunk reach max_tokens. The count
      needed is then 0 or negative and is used as a slice start as it is: 0
      carries the whole previous result, and -m drops its first m tokens and
      carries the rest. Either way the result reaches at least max_tokens. */
  lemma OverfullLastChunkTopUp(sp: RecursiveTextSplitter, prev: string, chunk: string)
    requires (sp.TokenLen(chunk) as real) < (sp.maxTokens as real) * sp.minLengthRatio
    requires sp.TokenLen(chunk) >= sp.maxTokens
    ensures var tokens := sp.tok.tokenize(prev);
      var carried := PySuffix(tokens, sp.CarriedTokens(prev, chunk, true));
      var needed := sp.maxTokens - sp.TokenLen(chunk);
      && sp.CarriedTokens(prev, chunk, true) == needed
      && (needed == 0 ==> carried == tokens)
      && (needed < 0 ==> carried == if -needed >= |tokens| then [] else tokens[-needed..])
      && |carried| + sp.TokenLen(chunk) >= sp.maxTokens
  {
  }

  // ---------------------------------------------------------------------------
  // split_text

  /** The index of the first separator level from i on whose chunks fit, or
      the number of separators when none does. */
  function FirstFitIndex(sp: RecursiveTextSplitter, text: string, i: nat): (j: nat)
    requires i <= |Separators|
    ensures i <= j <= |Separators|
    decreases |Separators| - i
  {
    if i == |Separators| || sp.Fits(sp.Level(Separators[i], text)) then i
    else FirstFitIndex(sp, text, i + 1)
  }

  /** Every level the search passes over has an oversized chunk. */
  lemma {:induction false} FirstFitSkips(sp: RecursiveTextSplitter, text: string, i: nat)
    requires i <= |Separators|
    ensures forall m :: i <= m < FirstFitIndex(sp, text, i) ==> !sp.Fits(sp.Level(Separators[m], text))
    decreases |Separators| - i
  {
    if i < |Separators| && !sp.Fits(sp.Level(Separators[i], text)) {
      FirstFitSkips(sp, text, i + 1);
      var j := FirstFitIndex(sp, text, i + 1);
      assert FirstFitIndex(sp, text, i) == j;
      forall m | i <= m < j ensures !sp.Fits(sp.Level(Separators[m], text)) {
        if m != i {
          assert i + 1 <= m < j;
        }
      }
    }
  }

  /** The search returns the level it stops at, or the forced split when it
      runs out of levels. */
  lemma {:induction false} FirstFittingAt(sp: RecursiveTextSplitter, text: string, i: nat)
    requires i <= |Separators|
    ensures var j := FirstFitIndex(sp, text, i);
      && (j < |Separators| ==> sp.Fits(sp.Level(Separators[j], text)) &&
                               sp.FirstFitting(text, i) == Some(sp.Level(Separators[j], text)))
      && (j == |Separators| ==> sp.FirstFitting(text, i) == sp.ForceSplitOf(text))
    decreases |Separators| - i
  {
    if i < |Separators| && !sp.Fits(sp.Level(Separators[i], text)) {
      FirstFittingAt(sp, text, i + 1);
      assert FirstFitIndex(sp, text, i) == FirstFitIndex(sp, text, i + 1);
      assert sp.FirstFitting(text, i) == sp.FirstFitting(text, i + 1);
    }
  }

  lemma FirstFittingOutcome(sp: RecursiveTextSplitter, text: string, i: nat)
    requires i <= |Separators|
    ensures var j := FirstFitIndex(sp, text, i);
      && (forall m :: i <= m < j ==> !sp.Fits(sp.Level(Separators[m], text)))
      && (j < |Separators| ==> sp.Fits(sp.Level(Separators[j], text)) &&
                               sp.FirstFitting(text, i) == Some(sp.Level(Separators[j], text)))
      && (j == |Separators| ==> sp.FirstFitting(text, i) == sp.ForceSplitOf(text))
  {
    FirstFitSkips(sp, text, i);
    FirstFittingAt(sp, text, i);
  }

  /** split_text returns the chunks of the first separator level whose every
      chunk has at most max_tokens + 2 tokens; when no level does, it returns
      the forced token windows (None where that split never ends). */
  lemma SplitTextPicksFirstFitting(sp: RecursiveTextSplitter, text: string)
    ensures var j := FirstFitIndex(sp, text, 0);
      && (forall m :: 0 <= m < j ==> !sp.Fits(sp.Level(Separators[m], text)))
      && (j < |Separators| ==> sp.Fits(sp.Level(Separators[j], text)) &&
                               sp.SplitTextOf(text) == Some(sp.Level(Separators[j], text)))
      && (j == |Separators| ==> sp.SplitTextOf(text) == sp.ForceSplitOf(text))
  {
    FirstFittingOutcome(sp, text, 0);
  }

  /** Whitespace-only text is split into no chunk at all. */
  lemma BlankTextNoChunks(sp: RecursiveTextSplitter, text: string)
    requires IsBlank(text)
    ensures sp.SplitTextOf(text) == Some([])
  {
    BlankTextHasNoParts(Separators[0], text);
  }

  /** The forced split gives up (loops forever in the source) exactly when
      the text has more tokens than a window and the overlap is not smaller
      than a window. */
  lemma ForceSplitStalls(sp: RecursiveTextSplitter, text: string)
    ensures sp.ForceSplitOf(text).None? <==>
      |sp.tok.tokenize(text)| > sp.maxTokens && sp.overlap >= sp.maxTokens
  {
  }

  /** The constructor's defaults (max_tokens 1024, overlap 100,
      min_length_ratio 0.7) keep the overlap below max_tokens, so the forced
      split always ends, and keep the ratio at most 1, so a short last chunk
      is topped up to at most max_tokens. */
  lemma DefaultSettingsSafe(sp: RecursiveTextSplitter, text: string)
    requires sp.maxTokens == DefaultMaxTokens && sp.overlap == DefaultOverlap
    requires sp.minLengthRatio == DefaultMinLengthRatio
    ensures sp.ForceSplitOf(text).Some?
    ensures sp.minLengthRatio <= 1.0
  {
    ForceSplitStalls(sp, text);
  }

  // ---------------------------------------------------------------------------
  // Forced windows

  /** The windows from start: every window has min(max_tokens, total) tokens
      (the last one is widened backwards), the last ends at total, and each
      next window starts at least overlap tokens before the previous one
      ends and ends after it. */
  lemma {:induction false} WindowsFromShape(sp: RecursiveTextSplitter, total: nat, start: nat)
    requires start < total
    requires sp.overlap < sp.maxTokens || start + sp.maxTokens >= total
    requires start == 0 || total > sp.maxTokens
    ensures var ws := sp.WindowsFrom(total, start);
      && ws[0].0 <= start
      && ws[|ws| - 1].1 == total
      && (forall i :: 0 <= i < |ws| ==>
            ws[i].1 == ws[i].0 + if sp.maxTokens < total then sp.maxTokens else total)
      && (forall i :: 0 <= i < |ws| - 1 ==>
            ws[i + 1].0 + sp.overlap <= ws[i].1 < ws[i + 1].1)
    decreases total - start
  {
    var end := if start + sp.maxTokens < total then start + sp.maxTokens else total;
    if end < total {
      var next := end - sp.overlap;
      WindowsFromShape(sp, total, next);
      var rest := sp.WindowsFrom(total, next);
      assert sp.WindowsFrom(total, start) == [(start, end)] + rest;
    }
  }

  /** Every token of the text lies in some forced window, and the first
      window starts at the first token. */
  lemma ForceSplitCovers(sp: RecursiveTextSplitter, total: nat)
    requires total >= 1 && !sp.Stalls(total)
    ensures sp.WindowsFrom(total, 0)[0].0 == 0
    ensures forall t :: 0 <= t < total ==> Covered(sp.WindowsFrom(total, 0), t)
  {
    var ws := sp.WindowsFrom(total, 0);
    WindowsFromShape(sp, total, 0);
    forall t | 0 <= t < total
      ensures Covered(ws, t)
    {
      CoveredFrom(ws, t, 0, total, sp.overlap);
    }
  }

  /** Position t lies in one of the windows. */
  predicate Covered(ws: seq<(nat, nat)>, t: nat)
  {
    exists i :: 0 <= i < |ws| && ws[i].0 <= t < ws[i].1
  }

  /** Windows that start at 0, chain without gaps and end at total cover
      every position below total. */
  lemma {:induction false} CoveredFrom(ws: seq<(nat, nat)>, t: nat, i: nat, total: nat, overlap: nat)
    requires i < |ws| && ws[i].0 <= t < total
    requires ws[|ws| - 1].1 == total
    requires forall j :: 0 <= j < |ws| - 1 ==> ws[j + 1].0 + overlap <= ws[j].1 < ws[j + 1].1
    ensures Covered(ws, t)
    decreases |ws| - i
  {
    if t >= ws[i].1 {
      assert i < |ws| - 1;
      CoveredFrom(ws, t, i + 1, total, overlap);
    }
  }
}
