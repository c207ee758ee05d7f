/** The Okapi BM25 index: construction from a corpus (tokenize every document,
    count term and document frequencies, lengths and their average), scoring,
    top-k search with a stable tie order, persistence of the index record, the
    language factory and the one-call search helper. The index is one scoring
    engine parameterised by a tokenizer Variant. */
module Bm25 {
  import opened Wrappers
  import opened Strings
  import opened LanguageDetect
  import opened Tokenizers
  import opened Bm25Stats
  import opened Ranking

  /** math.log, of which the model only knows that it is positive above 1. */
  type Ln = f: real -> real | forall x: real :: x > 1.0 ==> f(x) > 0.0 witness (x: real) => x - 1.0

  const DefaultK1: real := 1.5
  const DefaultB: real := 0.75

  /** Everything scoring and searching read from an index. */
  datatype Stats = Stats(
    docCount: nat,
    docLengths: seq<nat>,
    avgDocLength: real,
    df: map<string, nat>,
    tf: seq<map<string, nat>>,
    k1: real,
    b: real)

  /** One term-frequency table per recorded document length. */
  predicate WellFormed(st: Stats)
  {
    |st.tf| == |st.docLengths|
  }

  /** The arithmetic mean of the lengths, and 0 when there are none. */
  function Mean(xs: seq<nat>): real
  {
    if |xs| == 0 then 0.0 else Sum(xs) as real / |xs| as real
  }

  function TokenizeAll(lib: Libraries, v: Variant, corpus: seq<string>): (docs: seq<seq<string>>)
    ensures |docs| == |corpus|
  {
    seq(|corpus|, i requires 0 <= i < |corpus| => Tokens(lib, v, corpus[i]))
  }

  /** The statistics of an index built from corpus. */
  function BuiltStats(lib: Libraries, v: Variant, corpus: seq<string>, k1: real, b: real): Stats
  {
    var docs := TokenizeAll(lib, v, corpus);
    Stats(|corpus|, Lengths(docs), Mean(Lengths(docs)), DocFreq(docs), TermFreqs(docs), k1, b)
  }

  // ---------------------------------------------------------------------------
  // Scoring

  /** The argument of the logarithm in the idf: (N - df + 0.5) / (df + 0.5) + 1. */
  function IdfArgument(n: nat, dft: nat): real
  {
    (n as real - dft as real + 0.5) / (dft as real + 0.5) + 1.0
  }

  function Idf(ln: Ln, n: nat, dft: nat): real
  {
    ln(IdfArgument(n, dft))
  }

  /** The contribution idf * tf_part of one indexed query term to document d;
      a float division by zero raises. */
  function TermScore(st: Stats, ln: Ln, t: string, d: nat): Result<real>
    requires WellFormed(st) && t in st.df && d < |st.docLengths|
  {
    var f := (if t in st.tf[d] then st.tf[d][t] else 0) as real;
    if st.avgDocLength == 0.0 then Err(ZeroDivision)
    else
      var den := Denominator(f, st.k1, st.b, st.docLengths[d], st.avgDocLength);
      if den == 0.0 then Err(ZeroDivision)
      else Ok(Weighted(Idf(ln, st.docCount, st.df[t]), f, st.k1, den))
  }

  /** idf * tf_part, with tf_part = tf * (k1 + 1) / denominator. */
  function Weighted(idf: real, f: real, k1: real, den: real): real
    requires den != 0.0
  {
    idf * (f * (k1 + 1.0) / den)
  }

  /** The length-normalised denominator tf + k1 * (1 - b + b * len / avg). */
  function Denominator(f: real, k1: real, b: real, docLen: nat, avg: real): real
    requires avg != 0.0
  {
    f + k1 * (1.0 - b + b * (docLen as real) / avg)
  }

  /** The score accumulated over the query tokens q; tokens absent from df are
      skipped. */
  function ScoreTerms(st: Stats, ln: Ln, q: seq<string>, d: nat): Result<real>
    requires WellFormed(st) && d < |st.docLengths|
  {
    if q == [] then Ok(0.0)
    else
      match ScoreTerms(st, ln, q[..|q| - 1], d)
      case Err(e) => Err(e)
      case Ok(s) =>
        var t := q[|q| - 1];
        if t !in st.df then Ok(s)
        else
          match TermScore(st, ln, t, d)
          case Err(e) => Err(e)
          case Ok(c) => Ok(s + c)
  }

  /** The score of document d for the query terms q; the document's length is looked up first, so an unknown d fails before any term is scored. */
  function ScoreOf(st: Stats, ln: Ln, q: seq<string>, d: nat): Result<real>
    requires WellFormed(st)
  {
    if d >= |st.docLengths| then Err(IndexOutOfRange) else ScoreTerms(st, ln, q, d)
  }

  /** The scores of documents 0..n-1 in order; the first failure is raised. */
  function AllScores(st: Stats, ln: Ln, q: seq<string>, n: nat): Result<seq<real>>
    requires WellFormed(st)
  {
    if n == 0 then Ok([])
    else
      match AllScores(st, ln, q, n - 1)
      case Err(e) => Err(e)
      case Ok(s) =>
        match ScoreOf(st, ln, q, n - 1)
        case Err(e) => Err(e)
        case Ok(x) => Ok(s + [x])
  }

  /** The (document, score) pairs ordered by descending score, ties kept in document order. */
  function Ranked(scores: seq<real>): (r: seq<(nat, real)>)
    ensures |r| == |scores|
  {
    var p := Order(scores);
    OrderIsRanking(scores);
    seq(|p|, i requires 0 <= i < |p| => (p[i], scores[p[i]]))
  }

  /** The ranked answer to a query: the topK best (document, score) pairs. */
  function SearchOf(st: Stats, lib: Libraries, ln: Ln, v: Variant, query: string, topK: int)
    : Result<seq<(nat, real)>>
    requires WellFormed(st)
  {
    if topK < 1 then Err(TopKTooSmall)
    else
      match AllScores(st, ln, Tokens(lib, v, query), st.docCount)
      case Err(e) => Err(e)
      case Ok(scores) => Ok(Take(Ranked(scores), topK))
  }

  // ---------------------------------------------------------------------------
  // Persistence

  datatype Format = Json | Pickle

  /** The persisted index record {df, tf, k1, b, language, stopwords}. */
  datatype Record = Record(
    df: map<string, nat>,
    tf: seq<map<string, nat>>,
    k1: real,
    b: real,
    language: string,
    stopwords: set<string>)

  /** A saved file: the format its writer used and the record it holds. */
  datatype SavedFile = SavedFile(format: Format, record: Record)

  /** lang_mapping: the type tag of the classes that can be saved. */
  function TypeTag(v: Variant): Option<string>
  {
    match v
    case English(_) => Some("english")
    case Chinese(_) => Some("chinese")
    case MixedLanguage(_, _) => Some("mixlanguage")
    case MixedChinese(_) => None
  }

  /** The format a path selects by its suffix. */
  function FormatOf(path: string): Option<Format>
  {
    if EndsWith(path, ".json") then Some(Json)
    else if EndsWith(path, ".pkl") then Some(Pickle)
    else None
  }

  /** The file an index saves to a path: its class is checked before the path's suffix. */
  function SaveOf(v: Variant, st: Stats, path: string): (r: Result<SavedFile>)
    ensures r.Ok? <==> TypeTag(v).Some? && FormatOf(path).Some?
    ensures TypeTag(v).None? ==> r == Err(UnknownIndexType)
    ensures TypeTag(v).Some? && FormatOf(path).None? ==> r == Err(UnsupportedExtension)
  {
    match TypeTag(v)
    case None => Err(UnknownIndexType)
    case Some(tag) =>
      match FormatOf(path)
      case None => Err(UnsupportedExtension)
      case Some(fmt) => Ok(SavedFile(fmt, Record(st.df, st.tf, st.k1, st.b, tag, Stopwords(v))))
  }

  /** The class load picks for a tag, built the way load calls it:
      bm25_cls(corpus, k1, b, stopwords). For MixedLanguageBM25 the saved set
      lands in the stopwords_en position and stopwords_cn takes its default. */
  function VariantForTag(lib: Libraries, tag: string, stop: set<string>): Result<Variant>
  {
    if tag == "english" then Ok(English(stop))
    else if tag == "chinese" then Ok(Chinese(stop))
    else if tag == "mixlanguage" then Ok(MixedLanguage(stop, lib.stopwordsChinese))
    else Err(UnsupportedSavedLanguage)
  }

  /** Each document's length: the total of its term counts. */
  ghost function Sums(tf: seq<map<string, nat>>): (r: seq<nat>)
    ensures |r| == |tf|
  {
    seq(|tf|, i requires 0 <= i < |tf| => SumValues(tf[i]))
  }

  /** Loading a saved file over a corpus: the variant and the statistics of the
      index it returns. */
  ghost function LoadOf(lib: Libraries, path: string, file: SavedFile, corpus: seq<string>)
    : Result<(Variant, Stats)>
  {
    match FormatOf(path)
    case None => Err(UnsupportedExtension)
    case Some(fmt) =>
      if fmt != file.format then Err(Undecodable)
      else
        var rec := file.record;
        match VariantForTag(lib, rec.language, rec.stopwords)
        case Err(e) => Err(e)
        case Ok(v) =>
          if |corpus| == 0 then Err(EmptyCorpus)
          else Ok((v, Stats(|corpus|, Sums(rec.tf), Mean(Sums(rec.tf)), rec.df, rec.tf, rec.k1, rec.b)))
  }

  /** The save a mixed-language index needs to come back as it was: the
      record's stopwords are its English set alone, and its Chinese set is
      written beside the record. Every other class saves as before, with an
      empty Chinese set. */
  function SaveFixedOf(v: Variant, st: Stats, path: string): (r: Result<(SavedFile, set<string>)>)
    ensures r.Err? <==> SaveOf(v, st, path).Err?
    ensures r.Err? ==> r.error == SaveOf(v, st, path).error
  {
    match SaveOf(v, st, path)
    case Err(e) => Err(e)
    case Ok(file) =>
      match v
      case MixedLanguage(en, cn) => Ok((file.(record := file.record.(stopwords := en)), cn))
      case _ => Ok((file, {}))
  }

  /** load, handing a mixed-language record both of its stopword sets instead
      of letting the Chinese set fall back to the default. */
  ghost function LoadFixedOf(lib: Libraries, path: string, file: SavedFile, stopwordsCn: set<string>,
                             corpus: seq<string>): Result<(Variant, Stats)>
  {
    match LoadOf(lib, path, file, corpus)
    case Err(e) => Err(e)
    case Ok((v, st)) =>
      if v.MixedLanguage? then Ok((MixedLanguage(file.record.stopwords, stopwordsCn), st)) else Ok((v, st))
  }

  // ---------------------------------------------------------------------------
  // The index object

  /** Counts the occurrences of every token, one token at a time, as the index build does. */
  method CountTerms(tokens: seq<string>) returns (termFreq: map<string, nat>)
    ensures termFreq == TermFreq(tokens)
  {
    termFreq := map[];
    var j := 0;
    while j < |tokens|
      invariant 0 <= j <= |tokens|
      invariant termFreq == TermFreq(tokens[..j])
    {
      var term := tokens[j];
      assert tokens[..j + 1][..j] == tokens[..j];
      termFreq := termFreq[term := (if term in termFreq then termFreq[term] else 0) + 1];
      j := j + 1;
    }
    assert tokens[..|tokens|] == tokens;
  }

  /** The df update _build_index makes for one document: one more document
      for every distinct term of it. */
  method CountDocument(df: map<string, nat>, tokens: seq<string>) returns (df': map<string, nat>)
    ensures df' == AddOnce(df, TokenSet(tokens))
  {
    df' := df;
    var pending := TokenSet(tokens);
    while pending != {}
      invariant pending <= TokenSet(tokens)
      invariant df' == AddOnce(df, TokenSet(tokens) - pending)
      decreases pending
    {
      var term :| term in pending;
      AddOnceStep(df, TokenSet(tokens) - pending, term);
      assert (TokenSet(tokens) - pending) + {term} == TokenSet(tokens) - (pending - {term});
      df' := df'[term := (if term in df' then df'[term] else 0) + 1];
      pending := pending - {term};
    }
    assert TokenSet(tokens) - pending == TokenSet(tokens);
  }

  class Index {
    const lib: Libraries
    const ln: Ln
    const corpus: seq<string>
    const k1: real
    const b: real
    const variant: Variant
    const docCount: nat
    const tokenizedCorpus: seq<seq<string>>
    var docLengths: seq<nat>
    var avgDocLength: real
    var df: map<string, nat>
    var tf: seq<map<string, nat>>

    function Snapshot(): Stats
      reads this
    {
      Stats(docCount, docLengths, avgDocLength, df, tf, k1, b)
    }

    /** What holds after construction and after load: the corpus is non-empty
        and tokenized with the index's own tokenizer, every recorded length is
        the sum of its term-frequency table, and the average is their mean. */
    ghost predicate Valid()
      reads this
    {
      && docCount == |corpus| >= 1
      && tokenizedCorpus == TokenizeAll(lib, variant, corpus)
      && |tf| == |docLengths|
      && (forall d :: 0 <= d < |tf| ==> docLengths[d] == SumValues(tf[d]))
      && avgDocLength == Mean(docLengths)
    }

    /** Builds the index of a non-empty corpus (Create reports the error for the
        empty one). */
    constructor (lib: Libraries, ln: Ln, corpus: seq<string>, k1: real, b: real, variant: Variant)
      requires |corpus| >= 1
      ensures Valid()
      ensures this.lib == lib && this.ln == ln && this.corpus == corpus
      ensures this.k1 == k1 && this.b == b && this.variant == variant
      ensures Snapshot() == BuiltStats(lib, variant, corpus, k1, b)
    {
      this.lib := lib;
      this.ln := ln;
      this.corpus := corpus;
      this.k1 := k1;
      this.b := b;
      this.variant := variant;
      docCount := |corpus|;
      var tokenized := TokenizeCorpus(lib, variant, corpus);
      tokenizedCorpus := tokenized;
      docLengths := Lengths(tokenized);
      avgDocLength := Sum(Lengths(tokenized)) as real / |corpus| as real;
      df := map[];
      tf := [];
      new;
      BuildIndex();
      forall d | 0 <= d < |tf| ensures docLengths[d] == SumValues(tf[d]) {
        SumTermFreq(tokenizedCorpus[d]);
      }
    }

    /** Fills tf and df from the tokenized corpus, then the lengths and their average. */
    method BuildIndex()
      requires tf == [] && df == map[]
      modifies this
      ensures tf == TermFreqs(tokenizedCorpus) && df == DocFreq(tokenizedCorpus)
      ensures docLengths == old(docLengths) && avgDocLength == old(avgDocLength)
    {
      var docs := tokenizedCorpus;
      var d := 0;
      while d < |docs|
        invariant 0 <= d <= |docs|
        invariant tf == TermFreqs(docs[..d])
        invariant df == DocFreq(docs[..d])
        invariant docLengths == old(docLengths) && avgDocLength == old(avgDocLength)
      {
        var tokens := docs[d];
        var termFreq := CountTerms(tokens);
        TermFreqsStep(docs, d);
        tf := tf + [termFreq];
        var counted := CountDocument(df, tokens);
        DocFreqStep(docs, d);
        df := counted;
        d := d + 1;
      }
      assert docs[..|docs|] == docs;
    }

    /** The BM25 score of one document for already tokenized query terms. */
    method Score(queryTokens: seq<string>, docId: nat) returns (r: Result<real>)
      requires WellFormed(Snapshot())
      ensures r == ScoreOf(Snapshot(), ln, queryTokens, docId)
    {
      if docId >= |docLengths| {
        return Err(IndexOutOfRange);
      }
      var st := Snapshot();
      var score := 0.0;
      var docLen := docLengths[docId];
      var i := 0;
      while i < |queryTokens|
        invariant 0 <= i <= |queryTokens|
        invariant ScoreTerms(st, ln, queryTokens[..i], docId) == Ok(score)
      {
        var term := queryTokens[i];
        ScoreTermsStep(st, ln, queryTokens, i, docId);
        if term in df {
          var idf := Idf(ln, docCount, df[term]);
          var termFreq := (if term in tf[docId] then tf[docId][term] else 0) as real;
          if avgDocLength == 0.0 {
            ScoreTermsFailureStays(st, ln, queryTokens, i + 1, docId);
            return Err(ZeroDivision);
          }
          var den := Denominator(termFreq, k1, b, docLen, avgDocLength);
          if den == 0.0 {
            ScoreTermsFailureStays(st, ln, queryTokens, i + 1, docId);
            return Err(ZeroDivision);
          }
          score := score + Weighted(idf, termFreq, k1, den);
        }
        i := i + 1;
      }
      assert queryTokens[..|queryTokens|] == queryTokens;
      r := Ok(score);
    }

    /** Tokenizes the query, scores every document and keeps the topK best. */
    method Search(query: string, topK: int) returns (r: Result<seq<(nat, real)>>)
      requires WellFormed(Snapshot())
      ensures r == SearchOf(Snapshot(), lib, ln, variant, query, topK)
    {
      if topK < 1 {
        return Err(TopKTooSmall);
      }
      var queryTokens := Tokenize(lib, variant, query);
      var st := Snapshot();
      var scores: seq<real> := [];
      var d := 0;
      while d < docCount
        invariant 0 <= d <= docCount
        invariant AllScores(st, ln, queryTokens, d) == Ok(scores)
      {
        var s := Score(queryTokens, d);
        if s.Err? {
          AllScoresFailureStays(st, ln, queryTokens, d + 1, docCount);
          return Err(s.error);
        }
        scores := scores + [s.value];
        d := d + 1;
      }
      r := Ok(Take(Ranked(scores), topK));
    }

    /** Saves the index: the file written, or why nothing was. */
    method Save(path: string) returns (r: Result<SavedFile>)
      requires Valid()
      ensures r == SaveOf(variant, Snapshot(), path)
    {
      var tag := TypeTag(variant);
      if tag.None? {
        return Err(UnknownIndexType);
      }
      var record := Record(df, tf, k1, b, tag.value, Stopwords(variant));
      var fmt := FormatOf(path);
      if fmt.None? {
        return Err(UnsupportedExtension);
      }
      r := Ok(SavedFile(fmt.value, record));
    }

    /** Loads a saved file over a corpus, as the code is written: read the record,
        rebuild an index of the tagged class over corpus, then install df and tf
        and recompute the lengths and their average from tf. For a mixed-language
        index the saved stopwords become the English set and the Chinese set
        falls back to its default (see SaveFixedOf for the corrected pair). */
    static method Load(lib: Libraries, ln: Ln, path: string, file: SavedFile, corpus: seq<string>)
      returns (r: Result<Index>)
      ensures r.Err? <==> LoadOf(lib, path, file, corpus).Err?
      ensures r.Err? ==> r.error == LoadOf(lib, path, file, corpus).error
      ensures r.Ok? ==> fresh(r.value) && r.value.Valid() && r.value.corpus == corpus
      ensures r.Ok? ==> (r.value.variant, r.value.Snapshot()) == LoadOf(lib, path, file, corpus).value
    {
      var fmt := FormatOf(path);
      if fmt.None? {
        return Err(UnsupportedExtension);
      }
      if fmt.value != file.format {
        return Err(Undecodable);
      }
      var rec := file.record;
      var v := VariantForTag(lib, rec.language, rec.stopwords);
      if v.Err? {
        return Err(v.error);
      }
      if |corpus| == 0 {
        return Err(EmptyCorpus);
      }
      var index := new Index(lib, ln, corpus, rec.k1, rec.b, v.value);
      index.df := rec.df;
      index.tf := rec.tf;
      var lengths := DocLengths(rec.tf);
      index.docLengths := lengths;
      index.avgDocLength := if |lengths| > 0 then Sum(lengths) as real / |lengths| as real else 0.0;
      r := Ok(index);
    }
  }

  /** Computes every document's length from its term counts, one document at a time. */
  method DocLengths(tf: seq<map<string, nat>>) returns (lengths: seq<nat>)
    ensures lengths == Sums(tf)
  {
    lengths := [];
    var i := 0;
    while i < |tf|
      invariant 0 <= i <= |tf|
      invariant lengths == Sums(tf[..i])
    {
      var s := SumOfValues(tf[i]);
      assert tf[..i + 1] == tf[..i] + [tf[i]];
      lengths := lengths + [s];
      i := i + 1;
    }
    assert tf[..|tf|] == tf;
  }

  /** Tokenizes every document of the corpus, in corpus order. */
  method TokenizeCorpus(lib: Libraries, v: Variant, corpus: seq<string>) returns (docs: seq<seq<string>>)
    ensures docs == TokenizeAll(lib, v, corpus)
  {
    docs := [];
    var i := 0;
    while i < |corpus|
      invariant 0 <= i <= |corpus|
      invariant docs == TokenizeAll(lib, v, corpus[..i])
    {
      var tokens := Tokenize(lib, v, corpus[i]);
      TokenizeAllStep(lib, v, corpus, i);
      docs := docs + [tokens];
      i := i + 1;
    }
    assert corpus[..|corpus|] == corpus;
  }

  lemma TokenizeAllStep(lib: Libraries, v: Variant, corpus: seq<string>, i: nat)
    requires i < |corpus|
    ensures TokenizeAll(lib, v, corpus[..i + 1]) == TokenizeAll(lib, v, corpus[..i]) + [Tokens(lib, v, corpus[i])]
  {
    assert corpus[..i + 1] == corpus[..i] + [corpus[i]];
  }

  /** Index construction, including the error for an empty corpus. */
  method Create(lib: Libraries, ln: Ln, corpus: seq<string>, k1: real, b: real, v: Variant)
    returns (r: Result<Index>)
    ensures r.Err? <==> |corpus| == 0
    ensures r.Err? ==> r.error == EmptyCorpus
    ensures r.Ok? ==> fresh(r.value) && r.value.Valid() && r.value.variant == v
    ensures r.Ok? ==> r.value.lib == lib && r.value.ln == ln && r.value.corpus == corpus
    ensures r.Ok? ==> r.value.Snapshot() == BuiltStats(lib, v, corpus, k1, b)
  {
    if |corpus| == 0 {
      return Err(EmptyCorpus);
    }
    var index := new Index(lib, ln, corpus, k1, b, v);
    r := Ok(index);
  }

  // ---------------------------------------------------------------------------
  // Factory and one-call search

  /** create_bm25's choice of class and stopwords from its selector. */
  function SelectVariant(lib: Libraries, language: string, stopwords: Option<set<string>>): (r: Result<Variant>)
    ensures r.Err? ==> r.error == UnsupportedLanguage
    ensures r.Ok? ==> !r.value.MixedChinese?
  {
    var lang := Lower(language);
    var en := if stopwords.Some? then stopwords.value else lib.stopwordsEnPlus;
    var cn := if stopwords.Some? then stopwords.value else lib.stopwordsChinese;
    if lang == "english" || lang == "en" then Ok(English(en))
    else if lang == "chinese" || lang == "cn" then Ok(Chinese(cn))
    else if lang == "mixed" then Ok(MixedLanguage(en, cn))
    else Err(UnsupportedLanguage)
  }

  /** The factory: picks the index class that the language name selects and builds it. */
  method CreateBm25(lib: Libraries, ln: Ln, corpus: seq<string>, language: string, k1: real, b: real,
                    stopwords: Option<set<string>>)
    returns (r: Result<Index>)
    ensures r.Err? <==> SelectVariant(lib, language, stopwords).Err? || |corpus| == 0
    ensures SelectVariant(lib, language, stopwords).Err? ==> r == Err(UnsupportedLanguage)
    ensures SelectVariant(lib, language, stopwords).Ok? && |corpus| == 0 ==> r == Err(EmptyCorpus)
    ensures r.Ok? ==> fresh(r.value) && r.value.Valid()
    ensures r.Ok? ==> r.value.lib == lib && r.value.ln == ln && r.value.corpus == corpus
    ensures r.Ok? ==> SelectVariant(lib, language, stopwords) == Ok(r.value.variant)
    ensures r.Ok? ==> r.value.Snapshot() == BuiltStats(lib, r.value.variant, corpus, k1, b)
  {
    var v := SelectVariant(lib, language, stopwords);
    if v.Err? {
      return Err(v.error);
    }
    r := Create(lib, ln, corpus, k1, b, v.value);
  }

  datatype SearchHit = SearchHit(docId: nat, score: real, text: string)

  /** Builds an index for the language and answers one query with it. */
  function Bm25SearchOf(lib: Libraries, ln: Ln, corpus: seq<string>, query: string, language: string,
                        topK: int, k1: real, b: real, stopwords: Option<set<string>>)
    : Result<seq<SearchHit>>
  {
    match SelectVariant(lib, language, stopwords)
    case Err(e) => Err(e)
    case Ok(v) =>
      if |corpus| == 0 then Err(EmptyCorpus) else SearchBuilt(lib, ln, v, corpus, query, topK, k1, b)
  }

  /** The hits of searching a freshly built index over corpus. */
  function SearchBuilt(lib: Libraries, ln: Ln, v: Variant, corpus: seq<string>, query: string,
                       topK: int, k1: real, b: real)
    : Result<seq<SearchHit>>
  {
    var st := BuiltStats(lib, v, corpus, k1, b);
    match SearchOf(st, lib, ln, v, query, topK)
    case Err(e) => Err(e)
    case Ok(r) =>
      SearchIdsInRange(st, lib, ln, v, query, topK);
      Ok(Attach(corpus, r))
  }

  /** Every search result with the text of its document attached. */
  function Attach(corpus: seq<string>, r: seq<(nat, real)>): (hits: seq<SearchHit>)
    requires forall i :: 0 <= i < |r| ==> r[i].0 < |corpus|
    ensures |hits| == |r|
    ensures forall i :: 0 <= i < |r| ==> hits[i] == SearchHit(r[i].0, r[i].1, corpus[r[i].0])
  {
    seq(|r|, i requires 0 <= i < |r| => SearchHit(r[i].0, r[i].1, corpus[r[i].0]))
  }

  method Bm25Search(lib: Libraries, ln: Ln, corpus: seq<string>, query: string, language: string,
                    topK: int, k1: real, b: real, stopwords: Option<set<string>>)
    returns (r: Result<seq<SearchHit>>)
    ensures r == Bm25SearchOf(lib, ln, corpus, query, language, topK, k1, b, stopwords)
  {
    var index := CreateBm25(lib, ln, corpus, language, k1, b, stopwords);
    if index.Err? {
      return Err(index.error);
    }
    ghost var v := index.value.variant;
    ghost var st := index.value.Snapshot();
    var results := index.value.Search(query, topK);
    assert results == SearchOf(st, lib, ln, v, query, topK);
    assert Bm25SearchOf(lib, ln, corpus, query, language, topK, k1, b, stopwords)
        == SearchBuilt(lib, ln, v, corpus, query, topK, k1, b);
    if results.Err? {
      return Err(results.error);
    }
    SearchIdsInRange(st, lib, ln, v, query, topK);
    r := Ok(Attach(corpus, results.value));
  }

  // ---------------------------------------------------------------------------
  // Lemmas: failure propagation (used by the loops)

  lemma {:induction false} ScoreTermsFailureStays(st: Stats, ln: Ln, q: seq<string>, i: nat, d: nat)
    requires WellFormed(st) && d < |st.docLengths| && i <= |q|
    requires ScoreTerms(st, ln, q[..i], d).Err?
    ensures ScoreTerms(st, ln, q, d) == ScoreTerms(st, ln, q[..i], d)
    decreases |q| - i
  {
    if i < |q| {
      assert q[..i + 1][..i] == q[..i];
      ScoreTermsFailureStays(st, ln, q, i + 1, d);
    } else {
      assert q[..i] == q;
    }
  }

  /** One more query token: ScoreTerms over q[..i+1] extends the prefix by
      the token's contribution, or skips it. */
  lemma ScoreTermsStep(st: Stats, ln: Ln, q: seq<string>, i: nat, d: nat)
    requires WellFormed(st) && d < |st.docLengths| && i < |q|
    ensures ScoreTerms(st, ln, q[..i + 1], d) ==
      match ScoreTerms(st, ln, q[..i], d)
      case Err(e) => Err(e)
      case Ok(s) =>
        if q[i] !in st.df then Ok(s)
        else
          match TermScore(st, ln, q[i], d)
          case Err(e) => Err(e)
          case Ok(c) => Ok(s + c)
  {
    assert q[..i + 1][..i] == q[..i];
  }

  lemma {:induction false} AllScoresFailureStays(st: Stats, ln: Ln, q: seq<string>, i: nat, n: nat)
    requires WellFormed(st) && i <= n
    requires AllScores(st, ln, q, i).Err?
    ensures AllScores(st, ln, q, n) == AllScores(st, ln, q, i)
    decreases n - i
  {
    if i < n {
      AllScoresFailureStays(st, ln, q, i + 1, n);
    }
  }

  lemma {:induction false} AllScoresLength(st: Stats, ln: Ln, q: seq<string>, n: nat)
    requires WellFormed(st) && AllScores(st, ln, q, n).Ok?
    ensures |AllScores(st, ln, q, n).value| == n
    ensures forall d :: 0 <= d < n ==> ScoreOf(st, ln, q, d) == Ok(AllScores(st, ln, q, n).value[d])
  {
    if n > 0 {
      AllScoresLength(st, ln, q, n - 1);
    }
  }

  lemma SearchIdsInRange(st: Stats, lib: Libraries, ln: Ln, v: Variant, query: string, topK: int)
    requires WellFormed(st)
    requires SearchOf(st, lib, ln, v, query, topK).Ok?
    ensures forall i :: 0 <= i < |SearchOf(st, lib, ln, v, query, topK).value| ==>
              SearchOf(st, lib, ln, v, query, topK).value[i].0 < st.docCount
  {
    var scores := AllScores(st, ln, Tokens(lib, v, query), st.docCount).value;
    AllScoresLength(st, ln, Tokens(lib, v, query), st.docCount);
    OrderIsRanking(scores);
  }
}
