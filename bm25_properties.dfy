/** What the BM25 index promises: the shape of the built statistics, when
    scores are defined and non-negative, the order and extent of search
    results, and what survives saving and loading an index. */
module Bm25Properties {
  import opened Wrappers
  import opened Strings
  import opened Tokenizers
  import opened Bm25Stats
  import opened Ranking
  import opened Bm25
  import opened LanguageDetect

  // ---------------------------------------------------------------------------
  // Built statistics

  /** Statistics on which every query term has a positive idf and the
      length normalisation never divides by a zero average. */
  predicate Sane(st: Stats)
  {
    && WellFormed(st)
    && st.avgDocLength >= 0.0
    && (|st.df| > 0 ==> st.avgDocLength > 0.0)
    && (forall t :: t in st.df ==> st.df[t] <= st.docCount)
  }

  /** The statistics of any tokenized corpus: one length and one term table
      per document, each length the number of tokens its table counts, every
      document frequency between 1 and the number of documents, and a
      positive average length as soon as some term is indexed. */
  lemma DocStatsFacts(docs: seq<seq<string>>)
    ensures |Lengths(docs)| == |TermFreqs(docs)| == |docs|
    ensures forall d :: 0 <= d < |docs| ==> Lengths(docs)[d] == SumValues(TermFreqs(docs)[d])
    ensures forall t :: t in DocFreq(docs) ==> 1 <= DocFreq(docs)[t] <= |docs|
    ensures |DocFreq(docs)| > 0 ==> Sum(Lengths(docs)) > 0
  {
    forall d | 0 <= d < |docs| ensures Lengths(docs)[d] == SumValues(TermFreqs(docs)[d]) {
      SumTermFreq(docs[d]);
    }
    forall t | t in DocFreq(docs) ensures 1 <= DocFreq(docs)[t] <= |docs| {
      DocFreqCounts(docs, t);
    }
    if |DocFreq(docs)| > 0 {
      var t :| t in DocFreq(docs);
      DocFreqCounts(docs, t);
      var i :| 0 <= i < |docs| && t in docs[i];
      SumPositive(Lengths(docs), i);
    }
  }

  /** A built index has one length and one term table per document, each
      length is the number of tokens its table counts, every document
      frequency lies between 1 and the corpus size, and the statistics are
      sane. */
  lemma BuiltStatsFacts(lib: Libraries, v: Variant, corpus: seq<string>, k1: real, b: real)
    requires |corpus| >= 1
    ensures var st := BuiltStats(lib, v, corpus, k1, b);
      && st.docCount == |st.docLengths| == |st.tf| == |corpus|
      && (forall d :: 0 <= d < |st.tf| ==> st.docLengths[d] == SumValues(st.tf[d]))
      && (forall t :: t in st.df ==> 1 <= st.df[t] <= st.docCount)
      && Sane(st)
  {
    var docs := TokenizeAll(lib, v, corpus);
    DocStatsFacts(docs);
    MeanFacts(Lengths(docs));
  }

  lemma MeanFacts(xs: seq<nat>)
    ensures Mean(xs) >= 0.0
    ensures Sum(xs) > 0 ==> Mean(xs) > 0.0
  {
    if |xs| > 0 {
      assert Sum(xs) as real >= 0.0 && |xs| as real > 0.0;
    }
  }

  // ---------------------------------------------------------------------------
  // Scores

  /** The idf's logarithm is taken above 1 exactly when the term occurs in
      no more documents than the corpus holds. */
  lemma IdfArgumentAboveOne(n: nat, dft: nat)
    ensures IdfArgument(n, dft) > 1.0 <==> dft <= n
  {
    var num := n as real - dft as real + 0.5;
    var den := dft as real + 0.5;
    assert IdfArgument(n, dft) == num / den + 1.0;
    if dft <= n {
      assert num > 0.0;
      assert num / den > 0.0;
    } else {
      assert num < 0.0;
      assert num / den < 0.0;
    }
  }

  lemma IdfPositive(ln: Ln, n: nat, dft: nat)
    requires dft <= n
    ensures Idf(ln, n, dft) > 0.0
  {
    IdfArgumentAboveOne(n, dft);
  }

  /** The contribution of one term is defined when the average length is
      positive and k1 > 0, 0 <= b < 1, and it is never negative when
      k1 >= 0 and 0 <= b <= 1. */
  lemma TermScoreFacts(st: Stats, ln: Ln, t: string, d: nat)
    requires Sane(st) && t in st.df && d < |st.docLengths|
    requires st.k1 >= 0.0 && 0.0 <= st.b <= 1.0
    ensures TermScore(st, ln, t, d).Ok? ==> TermScore(st, ln, t, d).value >= 0.0
    ensures st.k1 > 0.0 && st.b < 1.0 ==> TermScore(st, ln, t, d).Ok?
  {
    var f := (if t in st.tf[d] then st.tf[d][t] else 0) as real;
    assert st.avgDocLength > 0.0;
    DenominatorFacts(f, st.k1, st.b, st.docLengths[d], st.avgDocLength);
    var den := Denominator(f, st.k1, st.b, st.docLengths[d], st.avgDocLength);
    if den != 0.0 {
      IdfPositive(ln, st.docCount, st.df[t]);
      WeightedNonNegative(Idf(ln, st.docCount, st.df[t]), f, st.k1, den);
    }
  }

  /** With k1 >= 0 and 0 <= b <= 1 the denominator is at least the term
      frequency, and positive when k1 > 0 and b < 1. */
  lemma DenominatorFacts(f: real, k1: real, b: real, docLen: nat, avg: real)
    requires f >= 0.0 && k1 >= 0.0 && 0.0 <= b <= 1.0 && avg > 0.0
    ensures Denominator(f, k1, b, docLen, avg) >= f
    ensures k1 > 0.0 && b < 1.0 ==> Denominator(f, k1, b, docLen, avg) > 0.0
  {
    var len := docLen as real;
    assert b * len >= 0.0;
    var ratio := b * len / avg;
    assert ratio >= 0.0;
    var norm := 1.0 - b + ratio;
    assert norm >= 0.0;
    assert k1 * norm >= 0.0;
    if k1 > 0.0 && b < 1.0 {
      assert norm > 0.0;
      assert k1 * norm > 0.0;
    }
    assert Denominator(f, k1, b, docLen, avg) == f + k1 * norm;
  }

  /** A positive idf times a non-negative frequency part is non-negative. */
  lemma WeightedNonNegative(idf: real, f: real, k1: real, den: real)
    requires idf > 0.0 && f >= 0.0 && k1 >= 0.0 && den > 0.0
    ensures Weighted(idf, f, k1, den) >= 0.0
  {
    assert f * (k1 + 1.0) >= 0.0;
    assert f * (k1 + 1.0) / den >= 0.0;
  }

  /** A defined score is never negative when k1 >= 0 and 0 <= b <= 1. */
  lemma {:induction false} ScoreNonNegative(st: Stats, ln: Ln, q: seq<string>, d: nat)
    requires Sane(st) && st.k1 >= 0.0 && 0.0 <= st.b <= 1.0
    requires ScoreOf(st, ln, q, d).Ok?
    ensures ScoreOf(st, ln, q, d).value >= 0.0
  {
    if q != [] {
      ScoreNonNegative(st, ln, q[..|q| - 1], d);
      if q[|q| - 1] in st.df {
        TermScoreFacts(st, ln, q[|q| - 1], d);
      }
    }
  }

  /** With k1 > 0 and 0 <= b < 1 every existing document has a score. */
  lemma {:induction false} ScoreDefined(st: Stats, ln: Ln, q: seq<string>, d: nat)
    requires Sane(st) && st.k1 > 0.0 && 0.0 <= st.b < 1.0
    requires d < |st.docLengths|
    ensures ScoreOf(st, ln, q, d).Ok?
  {
    if q != [] {
      ScoreDefined(st, ln, q[..|q| - 1], d);
      if q[|q| - 1] in st.df {
        TermScoreFacts(st, ln, q[|q| - 1], d);
      }
    }
  }

  /** A query none of whose tokens is indexed scores 0 on every document. */
  lemma {:induction false} UnindexedQueryScoresZero(st: Stats, ln: Ln, q: seq<string>, d: nat)
    requires WellFormed(st) && d < |st.docLengths|
    requires forall i :: 0 <= i < |q| ==> q[i] !in st.df
    ensures ScoreOf(st, ln, q, d) == Ok(0.0)
  {
    if q != [] {
      UnindexedQueryScoresZero(st, ln, q[..|q| - 1], d);
    }
  }

  /** The scores of all documents exist when every document's score does. */
  lemma {:induction false} AllScoresDefined(st: Stats, ln: Ln, q: seq<string>, n: nat)
    requires WellFormed(st)
    requires forall d :: 0 <= d < n ==> ScoreOf(st, ln, q, d).Ok?
    ensures AllScores(st, ln, q, n).Ok?
  {
    if n > 0 {
      AllScoresDefined(st, ln, q, n - 1);
    }
  }

  /** Searching fails only for top_k < 1 or when some document's score
      fails; on a built index with k1 > 0 and 0 <= b < 1 it therefore
      fails exactly for top_k < 1. */
  lemma BuiltSearchDefined(lib: Libraries, ln: Ln, v: Variant, corpus: seq<string>, k1: real, b: real,
                           query: string, topK: int)
    requires |corpus| >= 1 && k1 > 0.0 && 0.0 <= b < 1.0
    ensures var st := BuiltStats(lib, v, corpus, k1, b);
      WellFormed(st) && (SearchOf(st, lib, ln, v, query, topK).Ok? <==> topK >= 1)
  {
    var st := BuiltStats(lib, v, corpus, k1, b);
    BuiltStatsFacts(lib, v, corpus, k1, b);
    var q := Tokens(lib, v, query);
    forall d | 0 <= d < st.docCount ensures ScoreOf(st, ln, q, d).Ok? {
      ScoreDefined(st, ln, q, d);
    }
    AllScoresDefined(st, ln, q, st.docCount);
  }

  /** An index whose corpus has more documents than it holds lengths for
      (a saved index loaded over a longer corpus) fails every search. */
  lemma MissingLengthsFailSearch(st: Stats, lib: Libraries, ln: Ln, v: Variant, query: string, topK: int)
    requires WellFormed(st) && |st.docLengths| < st.docCount
    ensures SearchOf(st, lib, ln, v, query, topK).Err?
  {
    var q := Tokens(lib, v, query);
    var n := |st.docLengths|;
    assert ScoreOf(st, ln, q, n) == Err(IndexOutOfRange);
    assert AllScores(st, ln, q, n + 1).Err?;
    AllScoresFailureStays(st, ln, q, n + 1, st.docCount);
  }

  // ---------------------------------------------------------------------------
  // Search results

  /** The document ids of a result list. */
  function Ids(r: seq<(nat, real)>): (ids: seq<nat>)
    ensures |ids| == |r| && forall i :: 0 <= i < |r| ==> ids[i] == r[i].0
  {
    seq(|r|, i requires 0 <= i < |r| => r[i].0)
  }

  /** The first k entries of the stable descending ranking of scores are
      min(k, N) distinct positions, each with its own score. */
  lemma TopRankedEntries(scores: seq<real>, k: nat)
    ensures var r := Take(Ranked(scores), k);
      && |r| == (if k < |scores| then k else |scores|)
      && (forall i :: 0 <= i < |r| ==> r[i].0 < |scores| && r[i].1 == scores[r[i].0])
      && (forall i, j :: 0 <= i < j < |r| ==> r[i].0 != r[j].0)
  {
    var p := Order(scores);
    OrderIsRanking(scores);
    RankingDistinct(scores, p);
    var r := Take(Ranked(scores), k);
    assert forall i :: 0 <= i < |r| ==> r[i] == (p[i], scores[p[i]]);
  }

  /** The first k entries of the stable descending ranking of scores are
      ordered by score with ties in position order, every position left out
      comes after the last one kept, and none is left out when k >= N. */
  lemma TopRankedOrder(scores: seq<real>, k: nat)
    ensures var r := Take(Ranked(scores), k);
      && (forall i, j :: 0 <= i < j < |r| ==>
            r[i].1 > r[j].1 || (r[i].1 == r[j].1 && r[i].0 < r[j].0))
      && (forall d :: 0 <= d < |scores| && d !in Ids(r) && |r| > 0 ==>
            r[|r| - 1].1 > scores[d] || (r[|r| - 1].1 == scores[d] && r[|r| - 1].0 < d))
      && (k >= |scores| ==> forall d :: 0 <= d < |scores| ==> d in Ids(r))
  {
    var p := Order(scores);
    OrderIsRanking(scores);
    var r := Take(Ranked(scores), k);
    assert forall i :: 0 <= i < |r| ==> r[i] == (p[i], scores[p[i]]);
    forall i, j | 0 <= i < j < |r| ensures r[i].1 > r[j].1 || (r[i].1 == r[j].1 && r[i].0 < r[j].0) {
      assert Precedes(scores, p[i], p[j]);
    }
    if |r| > 0 {
      var m := |r| - 1;
      assert Ids(r) == p[..m + 1];
      forall d | 0 <= d < |scores| && d !in Ids(r)
        ensures r[m].1 > scores[d] || (r[m].1 == scores[d] && r[m].0 < d)
      {
        RankingPrefixDominates(scores, p, m, d);
      }
    }
    if k >= |scores| {
      assert Ids(r) == p;
    }
  }

  /** The first k entries of the stable descending ranking of scores: the
      min(k, N) best positions, each once, with its own score, ordered by
      score with ties in position order, and every position left out comes
      after the last one kept. */
  lemma TopRankedShape(scores: seq<real>, k: nat)
    ensures var r := Take(Ranked(scores), k);
      && |r| == (if k < |scores| then k else |scores|)
      && (forall i :: 0 <= i < |r| ==> r[i].0 < |scores| && r[i].1 == scores[r[i].0])
      && (forall i, j :: 0 <= i < j < |r| ==> r[i].0 != r[j].0)
      && (forall i, j :: 0 <= i < j < |r| ==>
            r[i].1 > r[j].1 || (r[i].1 == r[j].1 && r[i].0 < r[j].0))
      && (forall d :: 0 <= d < |scores| && d !in Ids(r) && |r| > 0 ==>
            r[|r| - 1].1 > scores[d] || (r[|r| - 1].1 == scores[d] && r[|r| - 1].0 < d))
      && (k >= |scores| ==> forall d :: 0 <= d < |scores| ==> d in Ids(r))
  {
    TopRankedEntries(scores, k);
    TopRankedOrder(scores, k);
  }

  /** The results of a search are the min(top_k, N) documents, each once,
      with its own score. */
  lemma SearchResultEntries(st: Stats, lib: Libraries, ln: Ln, v: Variant, query: string, topK: int)
    requires WellFormed(st) && SearchOf(st, lib, ln, v, query, topK).Ok?
    ensures var r := SearchOf(st, lib, ln, v, query, topK).value;
      var q := Tokens(lib, v, query);
      && |r| == (if topK < st.docCount then topK else st.docCount)
      && (forall d :: 0 <= d < st.docCount ==> ScoreOf(st, ln, q, d).Ok?)
      && (forall i :: 0 <= i < |r| ==> r[i].0 < st.docCount && ScoreOf(st, ln, q, r[i].0) == Ok(r[i].1))
      && (forall i, j :: 0 <= i < j < |r| ==> r[i].0 != r[j].0)
  {
    var q := Tokens(lib, v, query);
    var scores := AllScores(st, ln, q, st.docCount).value;
    AllScoresLength(st, ln, q, st.docCount);
    TopRankedEntries(scores, topK);
  }

  /** The results of a search come in non-increasing score order with ties
      in document order, every document left out comes after the last one
      returned, and none is left out when top_k >= N. */
  lemma SearchResultOrder(st: Stats, lib: Libraries, ln: Ln, v: Variant, query: string, topK: int)
    requires WellFormed(st) && SearchOf(st, lib, ln, v, query, topK).Ok?
    ensures var r := SearchOf(st, lib, ln, v, query, topK).value;
      var q := Tokens(lib, v, query);
      && (forall d :: 0 <= d < st.docCount ==> ScoreOf(st, ln, q, d).Ok?)
      && (forall i, j :: 0 <= i < j < |r| ==>
            r[i].1 > r[j].1 || (r[i].1 == r[j].1 && r[i].0 < r[j].0))
      && (forall d :: 0 <= d < st.docCount && d !in Ids(r) && |r| > 0 ==>
            r[|r| - 1].1 > ScoreOf(st, ln, q, d).value ||
            (r[|r| - 1].1 == ScoreOf(st, ln, q, d).value && r[|r| - 1].0 < d))
      && (topK >= st.docCount ==> forall d :: 0 <= d < st.docCount ==> d in Ids(r))
  {
    var q := Tokens(lib, v, query);
    var scores := AllScores(st, ln, q, st.docCount).value;
    AllScoresLength(st, ln, q, st.docCount);
    var r := Take(Ranked(scores), topK);
    assert SearchOf(st, lib, ln, v, query, topK).value == r;
    TopRankedOrder(scores, topK);
    forall d | 0 <= d < st.docCount && d !in Ids(r) && |r| > 0
      ensures r[|r| - 1].1 > ScoreOf(st, ln, q, d).value ||
        (r[|r| - 1].1 == ScoreOf(st, ln, q, d).value && r[|r| - 1].0 < d)
    {
      assert ScoreOf(st, ln, q, d).value == scores[d];
    }
  }

  /** The results of a search are the min(top_k, N) best documents, each
      once, with its own score, in non-increasing score order with ties in
      document order, and every document left out comes after the last one
      returned. */
  lemma SearchResultShape(st: Stats, lib: Libraries, ln: Ln, v: Variant, query: string, topK: int)
    requires WellFormed(st) && SearchOf(st, lib, ln, v, query, topK).Ok?
    ensures var r := SearchOf(st, lib, ln, v, query, topK).value;
      var q := Tokens(lib, v, query);
      && |r| == (if topK < st.docCount then topK else st.docCount)
      && (forall d :: 0 <= d < st.docCount ==> ScoreOf(st, ln, q, d).Ok?)
      && (forall i :: 0 <= i < |r| ==> r[i].0 < st.docCount && ScoreOf(st, ln, q, r[i].0) == Ok(r[i].1))
      && (forall i, j :: 0 <= i < j < |r| ==> r[i].0 != r[j].0)
      && (forall i, j :: 0 <= i < j < |r| ==>
            r[i].1 > r[j].1 || (r[i].1 == r[j].1 && r[i].0 < r[j].0))
      && (forall d :: 0 <= d < st.docCount && d !in Ids(r) && |r| > 0 ==>
            r[|r| - 1].1 > ScoreOf(st, ln, q, d).value ||
            (r[|r| - 1].1 == ScoreOf(st, ln, q, d).value && r[|r| - 1].0 < d))
      && (topK >= st.docCount ==> forall d :: 0 <= d < st.docCount ==> d in Ids(r))
  {
    SearchResultEntries(st, lib, ln, v, query, topK);
    SearchResultOrder(st, lib, ln, v, query, topK);
  }

  /** Scores that never increase along the corpus (all equal, say, for a
      query with no indexed token) come back in corpus order. */
  lemma NonIncreasingScoresKeepCorpusOrder(scores: seq<real>, k: nat)
    requires forall a, b :: 0 <= a < b < |scores| ==> scores[a] >= scores[b]
    ensures forall i :: 0 <= i < |Take(Ranked(scores), k)| ==> Take(Ranked(scores), k)[i] == (i, scores[i])
  {
    OrderOfNonIncreasing(scores);
  }

  /** A search whose query has no indexed token returns the first min(top_k, N)
      documents in corpus order, all with score 0. */
  lemma UnindexedQueryKeepsCorpusOrder(st: Stats, lib: Libraries, ln: Ln, v: Variant, query: string, topK: int)
    requires WellFormed(st) && st.docCount <= |st.docLengths| && topK >= 1
    requires forall i :: 0 <= i < |Tokens(lib, v, query)| ==> Tokens(lib, v, query)[i] !in st.df
    ensures SearchOf(st, lib, ln, v, query, topK).Ok?
    ensures forall i :: 0 <= i < |SearchOf(st, lib, ln, v, query, topK).value| ==>
      SearchOf(st, lib, ln, v, query, topK).value[i] == (i, 0.0)
  {
    var q := Tokens(lib, v, query);
    forall d | 0 <= d < st.docCount ensures ScoreOf(st, ln, q, d) == Ok(0.0) {
      UnindexedQueryScoresZero(st, ln, q, d);
    }
    AllScoresDefined(st, ln, q, st.docCount);
    var scores := AllScores(st, ln, q, st.docCount).value;
    AllScoresLength(st, ln, q, st.docCount);
    NonIncreasingScoresKeepCorpusOrder(scores, topK);
  }

  // ---------------------------------------------------------------------------
  // Persistence

  /** The variant a saved index comes back as. */
  function Reloaded(lib: Libraries, v: Variant): Variant
  {
    match v
    case English(s) => English(s)
    case Chinese(s) => Chinese(s)
    case MixedLanguage(en, cn) => MixedLanguage(en + cn, lib.stopwordsChinese)
    case MixedChinese(s) => MixedChinese(s)
  }

  /** Saving a built index to a .json or .pkl path and loading that file
      over the same corpus gives back the same statistics, and the same
      tokenizer class; English and Chinese indexes come back identical,
      a mixed-language index comes back with its merged stopword set as
      its English stopwords. */
  lemma SaveLoadRoundTrip(lib: Libraries, v: Variant, corpus: seq<string>, k1: real, b: real,
                          path: string, file: SavedFile)
    requires |corpus| >= 1
    requires SaveOf(v, BuiltStats(lib, v, corpus, k1, b), path) == Ok(file)
    ensures LoadOf(lib, path, file, corpus) == Ok((Reloaded(lib, v), BuiltStats(lib, v, corpus, k1, b)))
  {
    var docs := TokenizeAll(lib, v, corpus);
    BuiltStatsFacts(lib, v, corpus, k1, b);
    assert Sums(TermFreqs(docs)) == Lengths(docs);
  }

  /** A reloaded English or Chinese index answers every query as the index
      that was saved. */
  lemma ReloadedSearchAgrees(lib: Libraries, ln: Ln, v: Variant, corpus: seq<string>, k1: real, b: real,
                             path: string, file: SavedFile, query: string, topK: int)
    requires |corpus| >= 1 && (v.English? || v.Chinese?)
    requires SaveOf(v, BuiltStats(lib, v, corpus, k1, b), path) == Ok(file)
    ensures LoadOf(lib, path, file, corpus).Ok?
    ensures var (v', st') := LoadOf(lib, path, file, corpus).value;
      WellFormed(st') &&
      SearchOf(st', lib, ln, v', query, topK) == SearchOf(BuiltStats(lib, v, corpus, k1, b), lib, ln, v, query, topK)
  {
    SaveLoadRoundTrip(lib, v, corpus, k1, b, path, file);
    BuiltStatsFacts(lib, v, corpus, k1, b);
  }

  /** A mixed-language index saved with the default stopwords comes back
      treating every Chinese stopword as an English one too. */
  lemma ReloadedMixedStopwords(lib: Libraries, en: set<string>, cn: set<string>)
    ensures Stopwords(Reloaded(lib, MixedLanguage(en, cn))) == en + cn + lib.stopwordsChinese
    ensures Stopwords(MixedLanguage(en, cn)) <= Stopwords(Reloaded(lib, MixedLanguage(en, cn)))
  {
  }

  /** With the corrected save and load every class that can be saved comes
      back with the same tokenizer and statistics. */
  lemma SaveLoadFixedRoundTrip(lib: Libraries, v: Variant, corpus: seq<string>, k1: real, b: real,
                               path: string, saved: (SavedFile, set<string>))
    requires |corpus| >= 1
    requires SaveFixedOf(v, BuiltStats(lib, v, corpus, k1, b), path) == Ok(saved)
    ensures LoadFixedOf(lib, path, saved.0, saved.1, corpus) == Ok((v, BuiltStats(lib, v, corpus, k1, b)))
  {
    var st := BuiltStats(lib, v, corpus, k1, b);
    var file := SaveOf(v, st, path).value;
    SaveLoadRoundTrip(lib, v, corpus, k1, b, path, file);
    assert saved.0.record.df == file.record.df && saved.0.record.tf == file.record.tf;
  }

  /** With the corrected save and load an index of any of the three saveable
      classes answers every query as the index that was saved. */
  lemma ReloadedFixedSearchAgrees(lib: Libraries, ln: Ln, v: Variant, corpus: seq<string>, k1: real, b: real,
                                  path: string, saved: (SavedFile, set<string>), query: string, topK: int)
    requires |corpus| >= 1
    requires SaveFixedOf(v, BuiltStats(lib, v, corpus, k1, b), path) == Ok(saved)
    ensures LoadFixedOf(lib, path, saved.0, saved.1, corpus).Ok?
    ensures var (v', st') := LoadFixedOf(lib, path, saved.0, saved.1, corpus).value;
      WellFormed(st') &&
      SearchOf(st', lib, ln, v', query, topK) == SearchOf(BuiltStats(lib, v, corpus, k1, b), lib, ln, v, query, topK)
  {
    SaveLoadFixedRoundTrip(lib, v, corpus, k1, b, path, saved);
    BuiltStatsFacts(lib, v, corpus, k1, b);
  }

  /** Libraries under which the reload shows: stemming and segmentation
      leave words alone, and the one Chinese stopword is 中. */
  function WitnessLibraries(): Libraries
  {
    Libraries(w => w, s => [s], {}, {"\U{4E2D}"})
  }

  /** The router sends 中 down the Chinese route. */
  lemma WitnessRoute()
    ensures TokenizerDetectLanguage("\U{4E2D}") == "zh"
  {
    var t: string := "\U{4E2D}";
    assert t == [t[0]];
    CjkCountSingle(t[0]);
  }

  /** Before the stopword filter, the Chinese route turns 中 into the one word 中. */
  lemma WitnessSegments()
    ensures LowerAll(DropSpaced(WitnessLibraries().cutForSearch(Strip("\U{4E2D}", KeepsWithDigits)))) == ["\U{4E2D}"]
  {
    var t: string := "\U{4E2D}";
    assert t == [t[0]] && t[..0] == "";
    StripSingle(t[0], KeepsWithDigits);
    assert WitnessLibraries().cutForSearch(t) == [t];
    assert !ContainsSpace(t);
    DropSpacedSingle(t);
    assert LowerChar(t[0]) == t;
    assert Lower(t) == t;
    var single: seq<string> := [t];
    assert single[..0] == [];
    assert LowerAll(single) == [Lower(t)];
  }

  /** A text the Chinese route turns into the one word t, which stemming keeps,
      tokenizes to [t] unless t is a stopword. */
  lemma OneWordTokens(lib: Libraries, stop: set<string>, t: string)
    requires LowerAll(DropSpaced(lib.cutForSearch(Strip(t, KeepsWithDigits)))) == [t]
    requires lib.stem(t) == t && t != ""
    ensures MixedChineseTokens(lib, stop, t) == if t in stop then [] else [t]
  {
    var single: seq<string> := [t];
    assert single[..0] == [];
    if t in stop {
      assert DropStopwords(single, stop) == [];
    } else {
      assert DropStopwords(single, stop) == single;
      assert StemAll(lib.stem, single) == single;
    }
  }

  /** A mixed-language index sends such a word down the Chinese route, where
      its merged stopword set decides alone whether it is kept. */
  lemma ChineseRouteOneWord(lib: Libraries, en: set<string>, cn: set<string>, t: string)
    requires TokenizerDetectLanguage(t) != "en"
    requires LowerAll(DropSpaced(lib.cutForSearch(Strip(t, KeepsWithDigits)))) == [t]
    requires lib.stem(t) == t && t != ""
    ensures Tokens(lib, MixedLanguage(en, cn), t) == if t in en + cn then [] else [t]
  {
    OneWordTokens(lib, en + cn, t);
  }

  /** Under WitnessLibraries the mixed-language index built with no stopwords
      keeps the query 中 as it is. */
  lemma WitnessTokens()
    ensures Tokens(WitnessLibraries(), MixedLanguage({}, {}), "\U{4E2D}") == ["\U{4E2D}"]
  {
    var lib: Libraries, t: string := WitnessLibraries(), "\U{4E2D}";
    WitnessRoute();
    WitnessSegments();
    assert lib.stem(t) == t;
    ChineseRouteOneWord(lib, {}, {}, t);
  }

  /** The same index, once reloaded, drops the query 中 as a stopword. */
  lemma WitnessReloadedTokens()
    ensures Tokens(WitnessLibraries(), Reloaded(WitnessLibraries(), MixedLanguage({}, {})), "\U{4E2D}") == []
  {
    var lib: Libraries, t: string := WitnessLibraries(), "\U{4E2D}";
    var none: set<string> := {};
    assert Reloaded(lib, MixedLanguage(none, none)) == MixedLanguage(none + none, lib.stopwordsChinese);
    WitnessRoute();
    WitnessSegments();
    assert lib.stem(t) == t;
    assert t in lib.stopwordsChinese;
    ChineseRouteOneWord(lib, none + none, lib.stopwordsChinese, t);
  }

  /** The statistics of the one-document corpus [中] under WitnessLibraries. */
  function WitnessStats(): Stats
  {
    Stats(1, [1], 1.0, map["\U{4E2D}" := 1], [map["\U{4E2D}" := 1]], DefaultK1, DefaultB)
  }

  lemma MeanOfOne()
    ensures Mean([1]) == 1.0
  {
    var one: seq<nat> := [1];
    assert one[..0] == [];
    assert Sum(one) == 1;
  }

  /** The document frequencies of a corpus whose one document is the word t. */
  lemma OneWordDocFreq(t: string)
    ensures DocFreq([[t]]) == map[t := 1]
  {
    var docs: seq<seq<string>> := [[t]];
    assert docs[..0] == [];
    assert TokenSet(docs[0]) == {t};
    assert AddOnce(map[], {t}) == map[t := 1];
  }

  /** The term counts and lengths of a corpus whose one document is the word t. */
  lemma OneWordCounts(t: string)
    ensures TermFreqs([[t]]) == [map[t := 1]]
    ensures Lengths([[t]]) == [1]
  {
    var single: seq<string> := [t];
    assert single[..0] == [];
    assert TermFreq(single) == map[t := 1];
  }

  lemma WitnessBuilt()
    ensures BuiltStats(WitnessLibraries(), MixedLanguage({}, {}), ["\U{4E2D}"], DefaultK1, DefaultB) == WitnessStats()
  {
    var lib: Libraries, v: Variant, t: string := WitnessLibraries(), MixedLanguage({}, {}), "\U{4E2D}";
    WitnessTokens();
    var single: seq<string> := [t];
    assert TokenizeAll(lib, v, single) == [single];
    OneWordDocFreq(t);
    OneWordCounts(t);
    MeanOfOne();
  }

  /** Document 0 scores ln(4/3) for the query [中], and 0 for the empty query. */
  lemma WitnessScores(ln: Ln)
    ensures ScoreOf(WitnessStats(), ln, ["\U{4E2D}"], 0) == Ok(ln(4.0 / 3.0))
    ensures ScoreOf(WitnessStats(), ln, [], 0) == Ok(0.0)
  {
    var st, t := WitnessStats(), "\U{4E2D}";
    assert IdfArgument(1, 1) == 4.0 / 3.0;
    assert Denominator(1.0, DefaultK1, DefaultB, 1, 1.0) == 2.5;
    assert Weighted(ln(4.0 / 3.0), 1.0, DefaultK1, 2.5) == ln(4.0 / 3.0);
    assert TermScore(st, ln, t, 0) == Ok(ln(4.0 / 3.0));
    var single: seq<string> := [t];
    assert single[..0] == [];
  }

  /** A one-document search returns that document with its score. */
  lemma OneDocumentSearch(st: Stats, lib: Libraries, ln: Ln, v: Variant, query: string, x: real)
    requires WellFormed(st) && st.docCount == 1
    requires ScoreOf(st, ln, Tokens(lib, v, query), 0) == Ok(x)
    ensures SearchOf(st, lib, ln, v, query, 1) == Ok([(0, x)])
  {
    var q := Tokens(lib, v, query);
    assert AllScores(st, ln, q, 0) == Ok([]);
    assert AllScores(st, ln, q, st.docCount) == Ok([] + [x]);
    OrderIsRanking([x]);
    assert Order([x]) == [0];
    assert Ranked([x]) == [(0, x)];
    assert Take(Ranked([x]), 1) == [(0, x)];
    assert [] + [x] == [x];
    assert SearchOf(st, lib, ln, v, query, 1) == Ok(Take(Ranked([x]), 1));
  }

  /** The witness index survives saving to index.json, and loading comes back
      with the same statistics under the reloaded variant. */
  lemma WitnessReload()
    ensures var lib, v, corpus := WitnessLibraries(), MixedLanguage({}, {}), ["\U{4E2D}"];
      var st := BuiltStats(lib, v, corpus, DefaultK1, DefaultB);
      && SaveOf(v, st, "index.json").Ok?
      && LoadOf(lib, "index.json", SaveOf(v, st, "index.json").value, corpus) == Ok((Reloaded(lib, v), st))
  {
    var lib, v, corpus := WitnessLibraries(), MixedLanguage({}, {}), ["\U{4E2D}"];
    var st := BuiltStats(lib, v, corpus, DefaultK1, DefaultB);
    assert EndsWith("index.json", ".json");
    SaveLoadRoundTrip(lib, v, corpus, DefaultK1, DefaultB, "index.json", SaveOf(v, st, "index.json").value);
  }

  /** Over the witness statistics the query 中 finds document 0 with score
      ln(4/3) before the reload and with score 0 after it. */
  lemma WitnessSearches(ln: Ln)
    ensures WellFormed(WitnessStats())
    ensures var lib, v := WitnessLibraries(), MixedLanguage({}, {});
      && SearchOf(WitnessStats(), lib, ln, v, "\U{4E2D}", 1) == Ok([(0, ln(4.0 / 3.0))])
      && SearchOf(WitnessStats(), lib, ln, Reloaded(lib, v), "\U{4E2D}", 1) == Ok([(0, 0.0)])
  {
    var lib, v := WitnessLibraries(), MixedLanguage({}, {});
    WitnessTokens();
    WitnessReloadedTokens();
    WitnessScores(ln);
    OneDocumentSearch(WitnessStats(), lib, ln, v, "\U{4E2D}", ln(4.0 / 3.0));
    OneDocumentSearch(WitnessStats(), lib, ln, Reloaded(lib, v), "\U{4E2D}", 0.0);
  }

  /** Saving the mixed-language index the factory builds for the one-document
      corpus 中 with empty stopword sets, and loading it back over the same
      corpus, changes the answer to the query 中: document 0 scores
      ln(4/3) > 0 before, and 0 after, since the reloaded index drops 中 as a
      Chinese stopword. */
  lemma ReloadedMixedChangesSearch(ln: Ln)
    ensures var lib, v, corpus := WitnessLibraries(), MixedLanguage({}, {}), ["\U{4E2D}"];
      var st := BuiltStats(lib, v, corpus, DefaultK1, DefaultB);
      && SaveOf(v, st, "index.json").Ok?
      && LoadOf(lib, "index.json", SaveOf(v, st, "index.json").value, corpus) == Ok((Reloaded(lib, v), st))
      && WellFormed(st)
      && SearchOf(st, lib, ln, v, "\U{4E2D}", 1) == Ok([(0, ln(4.0 / 3.0))])
      && SearchOf(st, lib, ln, Reloaded(lib, v), "\U{4E2D}", 1) == Ok([(0, 0.0)])
      && ln(4.0 / 3.0) > 0.0
  {
    WitnessReload();
    WitnessBuilt();
    WitnessSearches(ln);
  }

  /** Every type the factory can build can be saved; only the Chinese
      variant with mixed-script tokens cannot. */
  lemma SaveableVariants(v: Variant)
    ensures TypeTag(v).None? <==> v.MixedChinese?
  {
  }

  // ---------------------------------------------------------------------------
  // Factory and one-call search

  /** create_bm25 accepts exactly the selectors english/en, chinese/cn and
      mixed in any ASCII case, and without explicit stopwords each class
      gets its own defaults. */
  lemma SelectVariantAccepts(lib: Libraries, language: string, stopwords: Option<set<string>>)
    ensures SelectVariant(lib, language, stopwords).Ok? <==>
      Lower(language) in ["english", "en", "chinese", "cn", "mixed"]
    ensures stopwords.None? && SelectVariant(lib, language, stopwords).Ok? ==>
      SelectVariant(lib, language, stopwords).value in
        [English(lib.stopwordsEnPlus), Chinese(lib.stopwordsChinese),
         MixedLanguage(lib.stopwordsEnPlus, lib.stopwordsChinese)]
  {
  }

  /** bm25_search returns min(top_k, |corpus|) hits, each carrying its own
      document's text, distinct documents, in non-increasing score order. */
  lemma Bm25SearchShape(lib: Libraries, ln: Ln, corpus: seq<string>, query: string, language: string,
                        topK: int, k1: real, b: real, stopwords: Option<set<string>>)
    requires Bm25SearchOf(lib, ln, corpus, query, language, topK, k1, b, stopwords).Ok?
    ensures var hits := Bm25SearchOf(lib, ln, corpus, query, language, topK, k1, b, stopwords).value;
      && |hits| == (if topK < |corpus| then topK else |corpus|)
      && (forall i :: 0 <= i < |hits| ==> hits[i].docId < |corpus| && hits[i].text == corpus[hits[i].docId])
      && (forall i, j :: 0 <= i < j < |hits| ==> hits[i].docId != hits[j].docId && hits[i].score >= hits[j].score)
  {
    var v := SelectVariant(lib, language, stopwords).value;
    var st := BuiltStats(lib, v, corpus, k1, b);
    BuiltStatsFacts(lib, v, corpus, k1, b);
    SearchResultShape(st, lib, ln, v, query, topK);
  }
}
