/** RecursiveTextSplitter: cut a document's text into chunks of at most
    max_tokens tokens of a Hugging Face tokenizer. Separators are tried from
    the coarsest (after a full stop) to the finest (between any two
    characters); at each level the non-blank pieces are packed greedily into
    chunks, every chunk after the first is prefixed with the tail of the
    previous one, and the level is accepted when every chunk has at most
    max_tokens + 2 tokens. When no level is accepted the token sequence is cut
    into fixed windows. */
module TextSplitter {
  import opened Wrappers
  import opened Strings

  /** The tokenizer, seen through the two calls the splitter makes:
      tokenize(text), and decode(convert_tokens_to_ids(tokens)). */
  datatype Tokenizer = Tokenizer(tokenize: string -> seq<string>, decode: seq<string> -> string)

  const DefaultMaxTokens: nat := 1024
  const DefaultOverlap: nat := 100
  const DefaultMinLengthRatio: real := 0.7

  /** The separator patterns, coarsest first: after 。！？, after ；，、,
      before a line break, before any whitespace, and the empty pattern. */
  datatype Separator = AfterSentenceEnd | AfterClauseMark | BeforeNewline | BeforeSpace | EveryPosition

  const Separators: seq<Separator> := [AfterSentenceEnd, AfterClauseMark, BeforeNewline, BeforeSpace, EveryPosition]

  /** The zero-width pattern of sep matches at position i of text. */
  predicate CutsAt(sep: Separator, text: string, i: nat)
    requires i <= |text|
  {
    match sep
    case AfterSentenceEnd => i > 0 && text[i - 1] in {'\U{3002}', '\U{FF01}', '\U{FF1F}'}
    case AfterClauseMark => i > 0 && text[i - 1] in {'\U{FF1B}', '\U{FF0C}', '\U{3001}'}
    case BeforeNewline => i < |text| && text[i] == '\n'
    case BeforeSpace => i < |text| && IsSpace(text[i])
    case EveryPosition => true
  }

  /** Splitting at a zero-width pattern: text is cut at every position
      0..|text| where the pattern matches; start is where the current piece
      began and j the next position to try. */
  function PiecesFrom(sep: Separator, text: string, start: nat, j: nat): (ps: seq<string>)
    requires start <= j && start <= |text| && j <= |text| + 1
    ensures |ps| >= 1
    decreases |text| + 1 - j
  {
    if j > |text| then [text[start..]]
    else if CutsAt(sep, text, j) then [text[start..j]] + PiecesFrom(sep, text, j, j + 1)
    else PiecesFrom(sep, text, start, j + 1)
  }

  function Pieces(sep: Separator, text: string): seq<string>
  {
    PiecesFrom(sep, text, 0, 0)
  }

  /** The pieces that are not blank, in order. */
  function NonBlank(pieces: seq<string>): (parts: seq<string>)
    ensures forall i :: 0 <= i < |parts| ==> !IsBlank(parts[i]) && parts[i] in pieces
  {
    if pieces == [] then []
    else
      var rest := NonBlank(pieces[..|pieces| - 1]);
      var p := pieces[|pieces| - 1];
      if IsBlank(p) then rest else rest + [p]
  }

  /** The filter goes piece by piece: what survives of a + b is what survives
      of a followed by what survives of b. */
  lemma {:induction false} NonBlankAppend(a: seq<string>, b: seq<string>)
    ensures NonBlank(a + b) == NonBlank(a) + NonBlank(b)
    decreases |b|
  {
    if b == [] {
      assert a + b == a;
    } else {
      var init := b[..|b| - 1];
      NonBlankAppend(a, init);
      assert (a + b)[..|a + b| - 1] == a + init;
      assert (a + b)[|a + b| - 1] == b[|b| - 1];
    }
  }

  /** One piece survives exactly when it is not blank. */
  lemma NonBlankSingle(p: string)
    ensures NonBlank([p]) == if IsBlank(p) then [] else [p]
  {
    assert [p][..0] == [];
  }

  /** The parts one separator level works on. */
  function Parts(sep: Separator, text: string): seq<string>
  {
    NonBlank(Pieces(sep, text))
  }

  class RecursiveTextSplitter {
    const tok: Tokenizer
    const maxTokens: nat
    const overlap: nat
    const minLengthRatio: real

    constructor (tok: Tokenizer, maxTokens: nat, overlap: nat, minLengthRatio: real)
      ensures this.tok == tok && this.maxTokens == maxTokens
      ensures this.overlap == overlap && this.minLengthRatio == minLengthRatio
    {
      this.tok := tok;
      this.maxTokens := maxTokens;
      this.overlap := overlap;
      this.minLengthRatio := minLengthRatio;
    }

    /** tokenize_len */
    function TokenLen(text: string): nat
    {
      |tok.tokenize(text)|
    }

    // -------------------------------------------------------------------------
    // Greedy packing (_recursive_split before the overlap)

    /** The finished chunks and the chunk being filled after the given parts. */
    function PackState(parts: seq<string>): (seq<string>, string)
    {
      if parts == [] then ([], "")
      else
        var (done, current) := PackState(parts[..|parts| - 1]);
        var part := parts[|parts| - 1];
        if TokenLen(current + part) <= maxTokens then (done, current + part)
        else ((if current != "" then done + [current] else done), part)
    }

    function Packed(parts: seq<string>): seq<string>
    {
      var (done, current) := PackState(parts);
      if current != "" then done + [current] else done
    }

    // -------------------------------------------------------------------------
    // Overlap (_apply_overlap)

    /** How many tokens of the previous chunk are carried over: the regular
        overlap, or for a short last chunk as many as it needs to reach
        max_tokens (at most all of them). The count is the k of prev[-k:]. */
    function CarriedTokens(prev: string, chunk: string, isLast: bool): int
    {
      var current := TokenLen(chunk);
      if isLast && (current as real) < (maxTokens as real) * minLengthRatio then
        var needed := maxTokens - current;
        var available := |tok.tokenize(prev)|;
        if needed < available then needed else available
      else overlap
    }

    /** The text put in front of a chunk: the decoded tail of the previous
        result's tokens. */
    function CarriedText(prev: string, chunk: string, isLast: bool): string
    {
      tok.decode(PySuffix(tok.tokenize(prev), CarriedTokens(prev, chunk, isLast)))
    }

    /** The first n results of the overlap pass over chunks; each chunk after the
        first is prefixed from the previous RESULT, which already carries its
        own prefix. */
    function OverlapFirst(chunks: seq<string>, n: nat): (r: seq<string>)
      requires n <= |chunks|
      ensures |r| == n
    {
      if n == 0 then []
      else if n == 1 then [chunks[0]]
      else
        var prev := OverlapFirst(chunks, n - 1);
        prev + [CarriedText(prev[n - 2], chunks[n - 1], n == |chunks|) + chunks[n - 1]]
    }

    function Overlapped(chunks: seq<string>): seq<string>
    {
      OverlapFirst(chunks, |chunks|)
    }

    /** The chunks one separator level produces. */
    function Level(sep: Separator, text: string): seq<string>
    {
      Overlapped(Packed(Parts(sep, text)))
    }

    /** The condition a level must meet: every chunk within max_tokens + 2. */
    predicate Fits(chunks: seq<string>)
    {
      forall i :: 0 <= i < |chunks| ==> TokenLen(chunks[i]) <= maxTokens + 2
    }

    // -------------------------------------------------------------------------
    // Forced token windows (_force_split)

    /** The token windows [lo, hi) cut from a sequence of total tokens,
        starting at start: each window has max_tokens tokens and the next one
        starts overlap tokens before its end; the last one ends at total and
        is widened backwards to max_tokens tokens. */
    function WindowsFrom(total: nat, start: nat): (ws: seq<(nat, nat)>)
      requires start < total
      requires overlap < maxTokens || start + maxTokens >= total
      ensures |ws| >= 1
      decreases total - start
    {
      var end := if start + maxTokens < total then start + maxTokens else total;
      var lo := if end == total && end - start < maxTokens && start != 0 then
                  (if start - (maxTokens - (end - start)) > 0 then start - (maxTokens - (end - start)) else 0)
                else start;
      if end == total then [(lo, end)]
      else [(lo, end)] + WindowsFrom(total, end - overlap)
    }

    /** Every forced window is non-empty and lies within the tokens. */
    lemma {:induction false} WindowsFromBounds(total: nat, start: nat)
      requires start < total
      requires overlap < maxTokens || start + maxTokens >= total
      ensures forall i :: 0 <= i < |WindowsFrom(total, start)| ==> WindowsFrom(total, start)[i].0 < WindowsFrom(total, start)[i].1 <= total
      decreases total - start
    {
      var end := if start + maxTokens < total then start + maxTokens else total;
      if end < total {
        WindowsFromBounds(total, end - overlap);
      }
    }

    /** Cutting never ends when a window does not advance: the text is longer
        than one window and the overlap is at least a window. */
    predicate Stalls(total: nat)
    {
      total > maxTokens && overlap >= maxTokens
    }

    /** The decoded windows, or None where the source loops forever. */
    function ForceSplitOf(text: string): Option<seq<string>>
    {
      var tokens := tok.tokenize(text);
      var total := |tokens|;
      if total == 0 then Some([])
      else if Stalls(total) then None
      else
        WindowsFromBounds(total, 0);
        Some(Decoded(tokens, WindowsFrom(total, 0)))
    }

    function Decoded(tokens: seq<string>, ws: seq<(nat, nat)>): (r: seq<string>)
      requires forall i :: 0 <= i < |ws| ==> ws[i].0 <= ws[i].1 <= |tokens|
      ensures |r| == |ws|
    {
      seq(|ws|, i requires 0 <= i < |ws| => tok.decode(tokens[ws[i].0..ws[i].1]))
    }

    // -------------------------------------------------------------------------
    // split_text

    /** The result of trying the separators from index i on. */
    function FirstFitting(text: string, i: nat): Option<seq<string>>
      requires i <= |Separators|
      decreases |Separators| - i
    {
      if i == |Separators| then ForceSplitOf(text)
      else if Fits(Level(Separators[i], text)) then Some(Level(Separators[i], text))
      else FirstFitting(text, i + 1)
    }

    function SplitTextOf(text: string): Option<seq<string>>
    {
      FirstFitting(text, 0)
    }

    // -------------------------------------------------------------------------
    // The methods

    /** Splits a text into chunks; None where the splitter never returns. */
    method SplitText(text: string) returns (r: Option<seq<string>>)
      ensures r == SplitTextOf(text)
    {
      var i := 0;
      while i < |Separators|
        invariant 0 <= i <= |Separators|
        invariant FirstFitting(text, i) == SplitTextOf(text)
      {
        var parts := Parts(Separators[i], text);
        var chunks := RecursiveSplit(parts);
        if forall j :: 0 <= j < |chunks| ==> TokenLen(chunks[j]) <= maxTokens + 2 {
          return Some(chunks);
        }
        i := i + 1;
      }
      r := ForceSplit(text);
    }

    /** Packs the parts into chunks under the token budget, then overlaps them. */
    method RecursiveSplit(parts: seq<string>) returns (chunks: seq<string>)
      ensures chunks == Overlapped(Packed(parts))
    {
      var done: seq<string> := [];
      var current := "";
      var i := 0;
      while i < |parts|
        invariant 0 <= i <= |parts|
        invariant (done, current) == PackState(parts[..i])
      {
        var part := parts[i];
        assert parts[..i + 1][..i] == parts[..i];
        if |tok.tokenize(current + part)| <= maxTokens {
          current := current + part;
        } else {
          if current != "" {
            done := done + [current];
          }
          current := part;
        }
        i := i + 1;
      }
      assert parts[..|parts|] == parts;
      if current != "" {
        done := done + [current];
      }
      chunks := ApplyOverlap(done);
    }

    /** Prefixes every chunk after the first with the tail of its predecessor. */
    method ApplyOverlap(chunks: seq<string>) returns (result: seq<string>)
      ensures result == Overlapped(chunks)
    {
      result := [];
      var i := 0;
      while i < |chunks|
        invariant 0 <= i <= |chunks|
        invariant result == OverlapFirst(chunks, i)
      {
        var chunk := chunks[i];
        if i == 0 {
          result := result + [chunk];
        } else {
          var prevChunk := result[|result| - 1];
          var currentTokens := |tok.tokenize(chunk)|;
          if i == |chunks| - 1 && (currentTokens as real) < (maxTokens as real) * minLengthRatio {
            var prevTokens := tok.tokenize(prevChunk);
            var tokensNeeded := maxTokens - currentTokens;
            var extraOverlapTokens := if tokensNeeded < |prevTokens| then tokensNeeded else |prevTokens|;
            var extraOverlapText := tok.decode(PySuffix(prevTokens, extraOverlapTokens));
            result := result + [extraOverlapText + chunk];
          } else {
            var prevTokens := tok.tokenize(prevChunk);
            var overlapText := tok.decode(PySuffix(prevTokens, overlap));
            result := result + [overlapText + chunk];
          }
        }
        i := i + 1;
      }
    }

    /** One pass of _force_split's loop: the window starting at start, its
        decoded text, and where the next window starts. */
    method CutWindow(tokens: seq<string>, start: nat) returns (chunkText: string, end: nat)
      requires start < |tokens|
      requires overlap < maxTokens || start + maxTokens >= |tokens|
      ensures var ws := WindowsFrom(|tokens|, start);
        && end == ws[0].1
        && chunkText == tok.decode(tokens[ws[0].0..ws[0].1])
        && (end == |tokens| ==> |ws| == 1)
        && (end < |tokens| ==> start < end - overlap && overlap < maxTokens &&
                               ws[1..] == WindowsFrom(|tokens|, end - overlap))
    {
      var totalTokens := |tokens|;
      end := if start + maxTokens < totalTokens then start + maxTokens else totalTokens;
      var lo := start;
      if end == totalTokens && end - start < maxTokens && start != 0 {
        var tokensNeeded := maxTokens - (end - start);
        lo := if start - tokensNeeded > 0 then start - tokensNeeded else 0;
      }
      chunkText := tok.decode(tokens[lo..end]);
      assert WindowsFrom(totalTokens, start)[0] == (lo, end);
    }

    /** Cuts a text into overlapping token windows; None where that loop never ends. */
    method ForceSplit(text: string) returns (r: Option<seq<string>>)
      ensures r == ForceSplitOf(text)
    {
      var tokens := tok.tokenize(text);
      var totalTokens := |tokens|;
      if totalTokens == 0 {
        return Some([]);
      }
      if Stalls(totalTokens) {
        return None;
      }
      WindowsFromBounds(totalTokens, 0);
      var chunks := CutAll(tokens);
      r := Some(chunks);
    }

    /** The loop of _force_split over a non-empty token list whose windows
        advance. */
    method CutAll(tokens: seq<string>) returns (chunks: seq<string>)
      requires |tokens| > 0 && !Stalls(|tokens|)
      requires forall i :: 0 <= i < |WindowsFrom(|tokens|, 0)| ==> WindowsFrom(|tokens|, 0)[i].0 < WindowsFrom(|tokens|, 0)[i].1 <= |tokens|
      ensures chunks == Decoded(tokens, WindowsFrom(|tokens|, 0))
    {
      var totalTokens := |tokens|;
      ghost var full := WindowsFrom(totalTokens, 0);
      chunks := [];
      var start: nat := 0;
      while start < totalTokens
        invariant |chunks| <= |full|
        invariant forall j :: 0 <= j < |chunks| ==> chunks[j] == tok.decode(tokens[full[j].0..full[j].1])
        invariant start < totalTokens ==> overlap < maxTokens || start + maxTokens >= totalTokens
        invariant start < totalTokens ==> |chunks| < |full| && full[|chunks|..] == WindowsFrom(totalTokens, start)
        invariant start >= totalTokens ==> |chunks| == |full|
        decreases totalTokens - start
      {
        ghost var n := |chunks|;
        ghost var ws := WindowsFrom(totalTokens, start);
        var chunkText, end := CutWindow(tokens, start);
        assert full[n] == ws[0];
        chunks := chunks + [chunkText];
        if end == totalTokens {
          assert |chunks| == |full|;
          break;
        }
        SuffixStep(full, n);
        start := end - overlap;
      }
      DecodedPointwise(tokens, full, chunks);
    }

    lemma DecodedPointwise(tokens: seq<string>, ws: seq<(nat, nat)>, chunks: seq<string>)
      requires forall i :: 0 <= i < |ws| ==> ws[i].0 <= ws[i].1 <= |tokens|
      requires |chunks| == |ws|
      requires forall j :: 0 <= j < |chunks| ==> chunks[j] == tok.decode(tokens[ws[j].0..ws[j].1])
      ensures chunks == Decoded(tokens, ws)
    {
    }
  }
}
