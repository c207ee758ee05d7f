/** BM25 retrieval over the chunks stored in the vector database: the stored
    points' texts form the corpus of a fresh mixed-language BM25 index, and
    the hits are returned as the insertion-ordered dictionary the rank fusion
    takes, keyed "chunk_<point id>", with each hit's 0-based rank. */
module Retrieval {
  import opened Wrappers
  import opened Strings
  import opened Tokenizers
  import opened Bm25
  import opened Bm25Properties
  import opened Fusion

  /** A stored point: its id (rendered as text), the chunk text and
      the chunk metadata of its payload. */
  datatype Point = Point(id: string, text: string, metadata: Metadata)

  const DefaultTopK: int := 3

  /** The fusion key of a stored point: its id prefixed with "chunk_". */
  function ChunkKey(id: string): string
  {
    "chunk_" + id
  }

  /** Setting a key of an insertion-ordered dictionary: an existing key keeps
      its place and takes the new value, a new key goes last. */
  function Put<V>(d: seq<(string, V)>, key: string, v: V): (r: seq<(string, V)>)
  {
    match IndexOf(d, key)
    case Some(j) => d[j := (key, v)]
    case None => d + [(key, v)]
  }

  /** The BM25 hits as a ranked dictionary: each hit under its chunk's key, its
      position in the hit list as its rank. */
  function Shaped(ids: seq<string>, metas: seq<Metadata>, hits: seq<SearchHit>): seq<(string, Hit)>
    requires forall i :: 0 <= i < |hits| ==> hits[i].docId < |ids| && hits[i].docId < |metas|
  {
    if hits == [] then []
    else
      var h := hits[|hits| - 1];
      Put(Shaped(ids, metas, hits[..|hits| - 1]), ChunkKey(ids[h.docId]),
          Hit(h.text, metas[h.docId], |hits| - 1, h.score))
  }

  function Texts(points: seq<Point>): (r: seq<string>)
    ensures |r| == |points| && forall i :: 0 <= i < |points| ==> r[i] == points[i].text
  {
    seq(|points|, i requires 0 <= i < |points| => points[i].text)
  }

  function Ids(points: seq<Point>): (r: seq<string>)
    ensures |r| == |points| && forall i :: 0 <= i < |points| ==> r[i] == points[i].id
  {
    seq(|points|, i requires 0 <= i < |points| => points[i].id)
  }

  function Metas(points: seq<Point>): (r: seq<Metadata>)
    ensures |r| == |points| && forall i :: 0 <= i < |points| ==> r[i] == points[i].metadata
  {
    seq(|points|, i requires 0 <= i < |points| => points[i].metadata)
  }

  /** BM25 retrieval over the points the vector database returns: index their
      texts, search for the query and shape the hits for fusion. */
  function Bm25RetrievalOf(lib: Libraries, ln: Ln, points: seq<Point>, query: string, topK: int)
    : Result<seq<(string, Hit)>>
  {
    var corpus := Texts(points);
    match Bm25SearchOf(lib, ln, corpus, query, "mixed", topK, DefaultK1, DefaultB, None)
    case Err(e) => Err(e)
    case Ok(hits) =>
      Bm25SearchShape(lib, ln, corpus, query, "mixed", topK, DefaultK1, DefaultB, None);
      Ok(Shaped(Ids(points), Metas(points), hits))
  }

  /** bm25_retrieval: the collecting loop, the search and the shaping. */
  method Bm25Retrieval(lib: Libraries, ln: Ln, points: seq<Point>, query: string, topK: int)
    returns (r: Result<seq<(string, Hit)>>)
    ensures r == Bm25RetrievalOf(lib, ln, points, query, topK)
  {
    var retrievedText: seq<string> := [];
    var retrievedMeta: seq<Metadata> := [];
    var retrievedPointID: seq<string> := [];
    var i := 0;
    while i < |points|
      invariant 0 <= i <= |points|
      invariant retrievedText == Texts(points[..i])
      invariant retrievedMeta == Metas(points[..i])
      invariant retrievedPointID == Ids(points[..i])
    {
      retrievedText := retrievedText + [points[i].text];
      retrievedMeta := retrievedMeta + [points[i].metadata];
      retrievedPointID := retrievedPointID + [points[i].id];
      i := i + 1;
    }
    assert points[..|points|] == points;
    var bm25Result := Bm25Search(lib, ln, retrievedText, query, "mixed", topK, DefaultK1, DefaultB, None);
    if bm25Result.Err? {
      return Err(bm25Result.error);
    }
    Bm25SearchShape(lib, ln, retrievedText, query, "mixed", topK, DefaultK1, DefaultB, None);
    r := Ok(Shaped(retrievedPointID, retrievedMeta, bm25Result.value));
  }

  // ---------------------------------------------------------------------------
  // Properties

  predicate DistinctIds(points: seq<Point>)
  {
    forall a, b :: 0 <= a < b < |points| ==> points[a].id != points[b].id
  }

  lemma ChunkKeyInjective(a: string, b: string)
    requires ChunkKey(a) == ChunkKey(b)
    ensures a == b
  {
    assert a == ChunkKey(a)[6..];
    assert b == ChunkKey(b)[6..];
  }

  /** Result entry i of the shaping: hit i's chunk key, text and score, its
      point's metadata and rank i. */
  function ShapedEntry(ids: seq<string>, metas: seq<Metadata>, hits: seq<SearchHit>, i: nat): (string, Hit)
    requires i < |hits| && hits[i].docId < |ids| && hits[i].docId < |metas|
  {
    (ChunkKey(ids[hits[i].docId]), Hit(hits[i].text, metas[hits[i].docId], i, hits[i].score))
  }

  /** With distinct point ids and distinct hit documents no key is written
      twice, so entry i is exactly hit i, with rank i. */
  lemma {:induction false} ShapedEntries(ids: seq<string>, metas: seq<Metadata>, hits: seq<SearchHit>)
    requires forall i :: 0 <= i < |hits| ==> hits[i].docId < |ids| && hits[i].docId < |metas|
    requires forall a, b :: 0 <= a < b < |ids| ==> ids[a] != ids[b]
    requires forall a, b :: 0 <= a < b < |hits| ==> hits[a].docId != hits[b].docId
    ensures |Shaped(ids, metas, hits)| == |hits|
    ensures forall i :: 0 <= i < |hits| ==> Shaped(ids, metas, hits)[i] == ShapedEntry(ids, metas, hits, i)
  {
    if hits != [] {
      var init := hits[..|hits| - 1];
      ShapedEntries(ids, metas, init);
      var h := hits[|hits| - 1];
      var key := ChunkKey(ids[h.docId]);
      var v := Hit(h.text, metas[h.docId], |hits| - 1, h.score);
      ShapedFresh(ids, metas, init, h);
      PutNew(Shaped(ids, metas, init), key, v);
      var r := Shaped(ids, metas, hits);
      assert r == Shaped(ids, metas, init) + [(key, v)];
      forall i | 0 <= i < |hits|
        ensures r[i] == ShapedEntry(ids, metas, hits, i)
      {
        if i < |init| {
          assert r[i] == ShapedEntry(ids, metas, init, i);
          assert init[i] == hits[i];
        }
      }
    }
  }

  lemma PutNew<V>(d: seq<(string, V)>, key: string, v: V)
    requires key !in Keys(d)
    ensures Put(d, key, v) == d + [(key, v)]
  {
  }

  /** A hit whose document no earlier hit has gets a key no earlier entry
      has. */
  lemma ShapedFresh(ids: seq<string>, metas: seq<Metadata>, init: seq<SearchHit>, h: SearchHit)
    requires forall i :: 0 <= i < |init| ==> init[i].docId < |ids| && init[i].docId < |metas|
    requires h.docId < |ids|
    requires forall a, b :: 0 <= a < b < |ids| ==> ids[a] != ids[b]
    requires forall i :: 0 <= i < |init| ==> init[i].docId != h.docId
    requires |Shaped(ids, metas, init)| == |init|
    requires forall i :: 0 <= i < |init| ==> Shaped(ids, metas, init)[i] == ShapedEntry(ids, metas, init, i)
    ensures ChunkKey(ids[h.docId]) !in Keys(Shaped(ids, metas, init))
  {
    var d := Shaped(ids, metas, init);
    if ChunkKey(ids[h.docId]) in Keys(d) {
      var j :| 0 <= j < |d| && Keys(d)[j] == ChunkKey(ids[h.docId]);
      ChunkKeyInjective(ids[init[j].docId], ids[h.docId]);
      assert false;
    }
  }

  /** Entry i of a result shaped from the points' own ids and metadata
      carries the key, text and metadata of the point hit i found. */
  predicate FromPoint(points: seq<Point>, entry: (string, Hit))
  {
    exists d :: 0 <= d < |points| &&
      entry == (ChunkKey(points[d].id), entry.1.(text := points[d].text, metadata := points[d].metadata))
  }

  lemma ShapedFromPoints(points: seq<Point>, hits: seq<SearchHit>)
    requires DistinctIds(points)
    requires forall i :: 0 <= i < |hits| ==> hits[i].docId < |points| && hits[i].text == points[hits[i].docId].text
    requires forall a, b :: 0 <= a < b < |hits| ==> hits[a].docId != hits[b].docId
    ensures var r := Shaped(Ids(points), Metas(points), hits);
      && |r| == |hits|
      && (forall i :: 0 <= i < |r| ==> r[i].1.rank == i && FromPoint(points, r[i]))
      && DistinctKeys(r)
  {
    ShapedEntries(Ids(points), Metas(points), hits);
    var r := Shaped(Ids(points), Metas(points), hits);
    forall i | 0 <= i < |r| ensures FromPoint(points, r[i]) {
      var d := hits[i].docId;
      assert r[i] == (ChunkKey(points[d].id), r[i].1.(text := points[d].text, metadata := points[d].metadata));
    }
    forall a, b | 0 <= a < b < |r| ensures r[a].0 != r[b].0 {
      if r[a].0 == r[b].0 {
        ChunkKeyInjective(points[hits[a].docId].id, points[hits[b].docId].id);
      }
    }
  }

  /** bm25_retrieval returns min(top_k, |points|) entries; entry i has rank
      i and the key chunk_<id>, text and metadata of the point hit i found;
      with distinct point ids the keys are distinct. */
  lemma Bm25RetrievalFacts(lib: Libraries, ln: Ln, points: seq<Point>, query: string, topK: int)
    requires DistinctIds(points)
    requires Bm25RetrievalOf(lib, ln, points, query, topK).Ok?
    ensures var r := Bm25RetrievalOf(lib, ln, points, query, topK).value;
      && |r| == (if topK < |points| then topK else |points|)
      && (forall i :: 0 <= i < |r| ==> r[i].1.rank == i && FromPoint(points, r[i]))
      && DistinctKeys(r)
  {
    var corpus := Texts(points);
    var hits := Bm25SearchOf(lib, ln, corpus, query, "mixed", topK, DefaultK1, DefaultB, None).value;
    Bm25SearchShape(lib, ln, corpus, query, "mixed", topK, DefaultK1, DefaultB, None);
    ShapedFromPoints(points, hits);
  }

  /** bm25_retrieval fails exactly when there are no points (an empty
      corpus) or top_k is below 1. */
  lemma Bm25RetrievalDefined(lib: Libraries, ln: Ln, points: seq<Point>, query: string, topK: int)
    ensures Bm25RetrievalOf(lib, ln, points, query, topK).Ok? <==> |points| >= 1 && topK >= 1
  {
    var corpus := Texts(points);
    SelectVariantAccepts(lib, "mixed", None);
    LowerOfLowercase("mixed");
    if |points| >= 1 {
      var v := SelectVariant(lib, "mixed", None).value;
      BuiltSearchDefined(lib, ln, v, corpus, DefaultK1, DefaultB, query, topK);
    }
  }

  /** With the default top_k of 3, bm25_retrieval fails only when the
      collection has no points. */
  lemma DefaultTopKDefined(lib: Libraries, ln: Ln, points: seq<Point>, query: string)
    ensures Bm25RetrievalOf(lib, ln, points, query, DefaultTopK).Ok? <==> |points| >= 1
  {
    Bm25RetrievalDefined(lib, ln, points, query, DefaultTopK);
  }

  /** Fusing the BM25 result alone keeps the BM25 order, with scores
      1/(k + rank). */
  lemma Bm25AloneKeepsOrder(lib: Libraries, ln: Ln, points: seq<Point>, query: string, topK: int, k: int)
    requires DistinctIds(points) && k >= 1
    requires Bm25RetrievalOf(lib, ln, points, query, topK).Ok?
    ensures var r := Bm25RetrievalOf(lib, ln, points, query, topK).value;
      RrfOf([r], k) == Ok(SingleListFused(r, k))
  {
    Bm25RetrievalFacts(lib, ln, points, query, topK);
    RrfSingleList(Bm25RetrievalOf(lib, ln, points, query, topK).value, k);
  }
}
