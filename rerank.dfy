/** Re-ranking of the fused retrieval result and the rendering of the kept
    chunks for the prompt. A cross-encoder scores every (query, chunk text)
    pair; the chunks are sorted by that score, highest first; those above the
    threshold are kept, but never fewer than three (the best three are taken
    instead) and never more than five. */
module Rerank {
  import opened Strings
  import opened Ranking
  import opened Fusion

  /** The cross-encoder's relevance score of a (query, passage) pair. */
  type Relevance = (string, string) -> real

  /** reranker keeps at least MinKept and at most MaxKept chunks. */
  const MinKept: nat := 3
  const MaxKept: nat := 5

  /** A (score, text, metadata) triple of the re-ranked list. */
  datatype Chunk = Chunk(score: real, text: string, metadata: Metadata)

  function ChunkScores(xs: seq<Chunk>): (s: seq<real>)
    ensures |s| == |xs|
    ensures forall i :: 0 <= i < |xs| ==> s[i] == xs[i].score
  {
    seq(|xs|, i requires 0 <= i < |xs| => xs[i].score)
  }

  /** The chunks ordered by descending relevance score, ties kept in input order. */
  function SortedChunks(xs: seq<Chunk>): (r: seq<Chunk>)
    ensures |r| == |xs|
  {
    var p := Order(ChunkScores(xs));
    OrderIsRanking(ChunkScores(xs));
    Arrange(xs, p)
  }

  /** The chunks whose score is strictly above the threshold, in order. */
  function Passing(xs: seq<Chunk>, threshold: real): seq<Chunk>
  {
    if xs == [] then []
    else
      var rest := Passing(xs[..|xs| - 1], threshold);
      if xs[|xs| - 1].score > threshold then rest + [xs[|xs| - 1]] else rest
  }

  /** The selection rule applied to the sorted list. */
  function Select(sorted: seq<Chunk>, threshold: real): seq<Chunk>
  {
    var passing := Passing(sorted, threshold);
    if |passing| < MinKept then Take(sorted, MinKept)
    else if |passing| > MaxKept then passing[..MaxKept]
    else passing
  }

  /** The chunks of the fused dictionary, each with its relevance score, in
      dictionary order. */
  function Scored(query: string, retrieved: seq<(string, Fused)>, relevance: Relevance): (r: seq<Chunk>)
    ensures |r| == |retrieved|
  {
    seq(|retrieved|, i requires 0 <= i < |retrieved| =>
      Chunk(relevance(query, retrieved[i].1.text), retrieved[i].1.text, retrieved[i].1.metadata))
  }

  /** Scores every retrieved chunk against the query, keeps those above the threshold and ranks them. */
  function RerankOf(query: string, retrieved: seq<(string, Fused)>, relevance: Relevance, threshold: real): seq<Chunk>
  {
    Select(SortedChunks(Scored(query, retrieved, relevance)), threshold)
  }

  /** reranker: the collecting loop, then the sort, filter and selection. */
  method Reranker(query: string, retrieved: seq<(string, Fused)>, relevance: Relevance, threshold: real)
    returns (reranked: seq<Chunk>)
    ensures reranked == RerankOf(query, retrieved, relevance, threshold)
  {
    var textChunks: seq<string> := [];
    var metaChunks: seq<Metadata> := [];
    var i := 0;
    while i < |retrieved|
      invariant 0 <= i <= |retrieved|
      invariant |textChunks| == |metaChunks| == i
      invariant forall j :: 0 <= j < i ==> textChunks[j] == retrieved[j].1.text && metaChunks[j] == retrieved[j].1.metadata
    {
      textChunks := textChunks + [retrieved[i].1.text];
      metaChunks := metaChunks + [retrieved[i].1.metadata];
      i := i + 1;
    }
    var scores := seq(|textChunks|, j requires 0 <= j < |textChunks| => relevance(query, textChunks[j]));
    var zipped := seq(|textChunks|, j requires 0 <= j < |textChunks| => Chunk(scores[j], textChunks[j], metaChunks[j]));
    assert zipped == Scored(query, retrieved, relevance);
    var sortedList := SortedChunks(zipped);
    reranked := Passing(sortedList, threshold);
    if |reranked| < 3 {
      reranked := Take(sortedList, 3);
    } else if |reranked| > 5 {
      reranked := reranked[..5];
    }
  }

  // ---------------------------------------------------------------------------
  // Properties

  predicate NonIncreasing(xs: seq<Chunk>)
  {
    forall a, b :: 0 <= a < b < |xs| ==> xs[a].score >= xs[b].score
  }

  /** The sort is stable and descending: each sorted chunk is input chunk
      p[j] for a ranking p of the input positions, so every chunk appears
      once, scores never increase, and equal scores keep input order. */
  lemma SortedChunksFacts(xs: seq<Chunk>)
    ensures var p := Order(ChunkScores(xs));
      && IsRanking(ChunkScores(xs), p)
      && (forall j :: 0 <= j < |xs| ==> SortedChunks(xs)[j] == xs[p[j]])
    ensures NonIncreasing(SortedChunks(xs))
  {
    var keys := ChunkScores(xs);
    var p := Order(keys);
    OrderIsRanking(keys);
    var r := SortedChunks(xs);
    forall a, b | 0 <= a < b < |r| ensures r[a].score >= r[b].score {
      assert Precedes(keys, p[a], p[b]);
    }
  }

  /** On a list sorted by non-increasing score, the chunks above the
      threshold are a prefix of it: they are all above it and the rest are
      not. */
  lemma {:induction false} PassingIsPrefix(xs: seq<Chunk>, threshold: real)
    requires NonIncreasing(xs)
    ensures |Passing(xs, threshold)| <= |xs|
    ensures Passing(xs, threshold) == xs[..|Passing(xs, threshold)|]
    ensures forall i :: 0 <= i < |xs| ==> (xs[i].score > threshold <==> i < |Passing(xs, threshold)|)
  {
    if xs != [] {
      var init := xs[..|xs| - 1];
      PassingIsPrefix(init, threshold);
      var rest := Passing(init, threshold);
      if xs[|xs| - 1].score > threshold {
        assert rest + [xs[|xs| - 1]] == xs[..|rest| + 1];
      }
    }
  }

  /** The selection rule on a sorted list of n chunks: the result is always a
      prefix of the sorted list of between min(3, n) and 5 chunks. Fewer than
      three passing: the first min(3, n); more than five: the first five, all
      passing; otherwise exactly the passing chunks. */
  lemma SelectFacts(sorted: seq<Chunk>, threshold: real)
    requires NonIncreasing(sorted)
    ensures var r, passing := Select(sorted, threshold), Passing(sorted, threshold);
      && |r| <= |sorted| && r == sorted[..|r|]
      && (if |sorted| < MinKept then |sorted| else MinKept) <= |r| <= MaxKept
      && (|passing| < MinKept ==> |r| == if |sorted| < MinKept then |sorted| else MinKept)
      && (|passing| > MaxKept ==> |r| == MaxKept)
      && (MinKept <= |passing| <= MaxKept ==> r == passing)
      && (|passing| >= MinKept ==> forall i :: 0 <= i < |r| ==> r[i].score > threshold)
  {
    PassingIsPrefix(sorted, threshold);
  }

  /** reranker returns a prefix of the retrieved chunks sorted by relevance,
      highest first, of between min(3, n) and 5 chunks, each one a retrieved
      chunk with its own relevance score. */
  lemma RerankFacts(query: string, retrieved: seq<(string, Fused)>, relevance: Relevance, threshold: real)
    ensures var r, sorted := RerankOf(query, retrieved, relevance, threshold),
                             SortedChunks(Scored(query, retrieved, relevance));
      && |r| <= |sorted| && r == sorted[..|r|]
      && (if |retrieved| < MinKept then |retrieved| else MinKept) <= |r| <= MaxKept
      && NonIncreasing(r)
      && (forall i :: 0 <= i < |r| ==> r[i] in Scored(query, retrieved, relevance))
  {
    var xs := Scored(query, retrieved, relevance);
    SortedChunksFacts(xs);
    var sorted := SortedChunks(xs);
    SelectFacts(sorted, threshold);
    var r := RerankOf(query, retrieved, relevance, threshold);
    var p := Order(ChunkScores(xs));
    forall i | 0 <= i < |r| ensures r[i] in xs {
      assert r[i] == sorted[i] == xs[p[i]];
    }
  }

  // ---------------------------------------------------------------------------
  // format_rag_output

  /** The file name of a chunk's metadata, or the text "None" when it has none. */
  function FileName(m: Metadata): string
  {
    if "filename" in m then m["filename"] else "None"
  }

  /** The heading of document n (1-based), with the full-width comma. */
  function DocumentHeading(n: nat): string
  {
    "Document " + Decimal(n) + "\U{FF0C}"
  }

  function DocumentItem(n: nat, c: Chunk): string
  {
    DocumentHeading(n) + FileName(c.metadata) + ":\n" + c.text
  }

  /** The context text handed to the language model: one numbered block per chunk. */
  function FormatRagOutput(chunks: seq<Chunk>): (r: string)
    ensures r == "" <==> chunks == []
    ensures chunks != [] ==> EndsWith(r, DocumentItem(|chunks|, chunks[|chunks| - 1]))
  {
    var items := seq(|chunks|, i requires 0 <= i < |chunks| => DocumentItem(i + 1, chunks[i]));
    if chunks == [] then ""
    else
      var last := DocumentItem(|chunks|, chunks[|chunks| - 1]);
      assert items[|items| - 1] == last;
      assert last[..9] == "Document ";
      JoinEndsWithLast("\n\n", items);
      Join("\n\n", items)
  }

  /** The output is built item by item: no chunks give "", and one more
      chunk adds a blank line and the next-numbered item. */
  lemma FormatRagOutputAppend(chunks: seq<Chunk>, c: Chunk)
    ensures FormatRagOutput([]) == ""
    ensures FormatRagOutput([c]) == DocumentItem(1, c)
    ensures chunks != [] ==>
      FormatRagOutput(chunks + [c]) == FormatRagOutput(chunks) + "\n\n" + DocumentItem(|chunks| + 1, c)
  {
    var items := seq(|chunks|, i requires 0 <= i < |chunks| => DocumentItem(i + 1, chunks[i]));
    var all := chunks + [c];
    var items' := seq(|all|, i requires 0 <= i < |all| => DocumentItem(i + 1, all[i]));
    assert items' == items + [DocumentItem(|chunks| + 1, c)];
    if chunks != [] {
      JoinAppend("\n\n", items, DocumentItem(|chunks| + 1, c));
    }
  }

  /** Documents are numbered from 1, and the number reads back from the
      heading, so no two headings are equal. */
  lemma DocumentNumbering(m: nat, n: nat)
    ensures ParseDecimal(DocumentHeading(n)[9..9 + |Decimal(n)|]) == n
    ensures m != n ==> DocumentHeading(m) != DocumentHeading(n)
  {
    assert DocumentHeading(n)[9..9 + |Decimal(n)|] == Decimal(n);
    DecimalRoundTrip(n);
    if m != n && DocumentHeading(m) == DocumentHeading(n) {
      assert |Decimal(m)| == |Decimal(n)|;
      assert DocumentHeading(m)[9..9 + |Decimal(m)|] == Decimal(m);
      DecimalInjective(m, n);
    }
  }
}
