# PDF RAG retrieval core, modelled in Dafny

This project models the retrieval engine of the PDF question-answering
backend, together with the chunking helpers its ingestion step uses. It
proves what each piece promises.

- **BM25 lexical index** (`Bm25`, `Bm25Stats`, `Bm25Properties`, `Tokenizers`).
  - The index is a class. Its term-frequency table, document-frequency table,
    lengths and average length are fields, filled by the construction loops.
  - Scoring is Okapi BM25 with the "+1 inside the log" idf.
  - Search returns the top-k documents of a stable descending sort.
  - The persisted record supports save and load.
  - The language factory builds one of four tokenizer variants: English,
    Chinese, Mixed-Chinese, and the Mixed-Language router.
- **Language detection** (`LanguageDetect`). Two counting classifiers over the
  CJK Unified Ideographs block U+4E00..U+9FFF of the Unicode Standard.
- **Token-budget text splitter** (`TextSplitter`, `TextSplitterProperties`).
  - A separator cascade with greedy packing and overlap between chunks.
  - A forced windowed split with a back-filled last window.
- **Table-row chunker** (`FrameFormatter`). It renders each row as
  "key = value" entries and packs the rows into chunks greedily.
- **Table merging** (`Docling`).
  - A table with default integer labels and the previous table's width
    continues that table.
  - Each table is rendered with a numbered heading.
- **Rank fusion, re-ranking and prompt formatting** (`Fusion`, `Rerank`,
  `Retrieval`).
  - Reciprocal Rank Fusion over insertion-ordered dictionaries.
  - The cross-encoder selection rule: a strict threshold, at least 3 chunks,
    at most 5.
  - The shaping of BM25 hits into ranked dictionaries keyed `chunk_<id>`.
  - The numbered prompt text.

## Conventions

**Python dictionaries.** Insertion-ordered dictionaries are sequences of
(key, value) pairs. Assigning to an existing key keeps its position.

**Sorting.** Python's `sorted(..., reverse=True)` is stable, so equal keys
keep their input order. `Ranking.Order` models this as the ranking of
positions, and `Ranking.IsRanking` specifies it independently.

**Foreign code.** Everything the core calls but does not define is a value
passed in:
- the English stemmer, jieba's search-mode segmenter and the stopword
  constants (`Tokenizers.Libraries`);
- `math.log`, of which only "positive above 1" is used (`Bm25.Ln`);
- the Hugging Face tokenizer's `tokenize` and `decode`
  (`TextSplitter.Tokenizer`);
- the cross-encoder (`Rerank.Relevance`);
- `DataFrame.to_markdown`;
- Python's Unicode `\w` class (`LanguageDetect.WordClass`), taken as any
  classifier exact on ASCII that counts the ideographs as word characters.

**Exceptions.** Python exceptions are `Err` values of `Wrappers.Result`.

**Non-termination.** A loop that never ends in the source, `_force_split`
with `overlap >= max_tokens` on a long text, is `None`.

**Source behaviour kept as written:**
- An `overlap` of 0 slices `prev_tokens[-0:]`, which carries the whole
  previous chunk.
- `chunk_rows` emits an empty first chunk when the first row alone exceeds
  the budget.
- A `MixedChineseBM25` index cannot be saved.
- A reloaded Mixed-Language index receives the saved merged stopword set as
  its English stopwords. The Chinese stopwords take their default.
  `Bm25.LoadOf` and `Bm25.Index.Load` model this as written; see "Findings"
  for the consequence and the corrected pair `Bm25.SaveFixedOf` /
  `Bm25.LoadFixedOf`.

## Model

Source paths are relative to the repository root.

| member | source | states |
|---|---|---|
| LanguageDetect.DetectLanguage | RAG_system/flask_backend/routes/BM25/detect_language.py:15-20 | the result is "zh" or "en", and it is "zh" exactly when the ideograph count exceeds twice the count of `\b[a-zA-Z]+\b` matches |
| LanguageDetect.TokenizerDetectLanguage | RAG_system/flask_backend/routes/BM25/detect_language.py:33-36 | the router's classifier returns only "zh" or "en" |
| LanguageDetect.CjkCountPositive | RAG_system/flask_backend/routes/BM25/detect_language.py:33 | the ideograph count is positive exactly when some character lies in U+4E00..U+9FFF |
| LanguageDetect.CjkCountAppend | RAG_system/flask_backend/routes/BM25/detect_language.py:33 | the ideograph count of a concatenation is the sum of the counts of its parts |
| LanguageDetect.CjkCountSingle | RAG_system/flask_backend/routes/BM25/detect_language.py:33 | one character counts 1 exactly when it lies in U+4E00..U+9FFF, else 0 |
| LanguageDetect.TokenizerDetectChinese | RAG_system/flask_backend/routes/BM25/detect_language.py:33-36 | the router says "zh" exactly when the text contains an ideograph |
| LanguageDetect.RouterEnglishIsEnglish | RAG_system/flask_backend/routes/BM25/detect_language.py:15-36 | text the router calls English is English for the document vote too |
| LanguageDetect.EmptyIsEnglish | RAG_system/flask_backend/routes/BM25/detect_language.py:15-36 | both classifiers call the empty text English |
| LanguageDetect.GluedRunIsNotAWord | RAG_system/flask_backend/routes/BM25/detect_language.py:17 | in a text made only of word characters (letters, digits, `_`, ideographs), an ASCII-letter run counts as an English word only when it is the whole text |
| Tokenizers.Strip | RAG_system/flask_backend/routes/BM25/bm25.py:199 | the stripped text holds only characters of the kept class |
| Tokenizers.StripAppend | RAG_system/flask_backend/routes/BM25/bm25.py:199 | stripping distributes over concatenation, so the result is the input's kept characters in their order |
| Tokenizers.StripSingle | RAG_system/flask_backend/routes/BM25/bm25.py:199 | one character survives stripping exactly when it is in the kept class |
| Tokenizers.DropStopwords | RAG_system/flask_backend/routes/BM25/bm25.py:201 | every surviving token is non-empty, not a stopword, and one of the input tokens |
| Tokenizers.DropStopwordsKeeps | RAG_system/flask_backend/routes/BM25/bm25.py:201 | every non-empty non-stopword input token survives the filter |
| Tokenizers.DropStopwordsAppend | RAG_system/flask_backend/routes/BM25/bm25.py:201 | the stopword filter distributes over concatenation, so every non-empty non-stopword token survives in order and as often as it occurs, which the term counts rely on |
| Tokenizers.DropStopwordsSingle | RAG_system/flask_backend/routes/BM25/bm25.py:201 | one token survives exactly when it is non-empty and not a stopword |
| Tokenizers.StemAll | RAG_system/flask_backend/routes/BM25/bm25.py:201 | one stem per token, in order |
| Tokenizers.DropSpaced | RAG_system/flask_backend/routes/BM25/bm25.py:232 | no surviving segment contains whitespace |
| Tokenizers.DropSpacedAppend | RAG_system/flask_backend/routes/BM25/bm25.py:232 | the whitespace filter distributes over concatenation, so every segment without whitespace survives, in order |
| Tokenizers.DropSpacedSingle | RAG_system/flask_backend/routes/BM25/bm25.py:232 | one segment survives exactly when it contains no whitespace |
| Tokenizers.LowerAll | RAG_system/flask_backend/routes/BM25/bm25.py:235-236 | each token is replaced by its lower-cased form, in place and in order |
| Tokenizers.LowerInPlace | RAG_system/flask_backend/routes/BM25/bm25.py:235-236 | the in-place loop leaves the array holding the lower-cased tokens of its old contents |
| Tokenizers.TokenizeMixedChinese | RAG_system/flask_backend/routes/BM25/bm25.py:227-238 | the Mixed-Chinese tokenizer runs strip, segment, drop-spaced, lower-case, filter, stem in that order |
| Tokenizers.Tokenize | RAG_system/flask_backend/routes/BM25/bm25.py:196-256 | each index class tokenizes with its own pipeline; the Mixed-Language class routes through the router's classifier |
| Tokenizers.EnglishWordsShape | RAG_system/flask_backend/routes/BM25/bm25.py:198-200 | every English word reaching the stopword filter is non-empty and holds only lower-case ASCII letters, digits and ideographs |
| Tokenizers.MixedChineseWordsShape | RAG_system/flask_backend/routes/BM25/bm25.py:230-238 | every Mixed-Chinese word reaching the stemmer is non-empty, not a stopword, free of whitespace and of upper-case ASCII letters |
| Tokenizers.MixedLanguageRouting | RAG_system/flask_backend/routes/BM25/bm25.py:250-256 | text without ideographs goes to the English pipeline with the English stopwords; other text goes to the Mixed-Chinese pipeline with both stopword sets |
| Tokenizers.EnglishTokensOfEmpty | RAG_system/flask_backend/routes/BM25/bm25.py:196-201 | the English pipeline yields no token for the empty text |
| Tokenizers.EnglishFiltersBeforeStemming | RAG_system/flask_backend/routes/BM25/bm25.py:201 | the stopword filter looks at the unstemmed word: a non-stopword word's stem is always among the tokens |
| Bm25Stats.TermFreqCounts | RAG_system/flask_backend/routes/BM25/bm25.py:69-72 | `tf[d]` has an entry exactly for the terms of document d, and each entry counts that term's occurrences |
| Bm25Stats.DocFreqCounts | RAG_system/flask_backend/routes/BM25/bm25.py:73-74 | `df` has an entry exactly for the terms some document contains; `df[t]` is the number of documents containing t, between 1 and the document count |
| Bm25Stats.SumTermFreq | RAG_system/flask_backend/routes/BM25/bm25.py:183 | the term frequencies of a document add up to its token count |
| Bm25Stats.SumOfValues | RAG_system/flask_backend/routes/BM25/bm25.py:183 | the summing loop computes the sum of the table's values |
| Bm25.Index.constructor | RAG_system/flask_backend/routes/BM25/bm25.py:23-55 | a new index holds the statistics built from its corpus, and its lengths are the sums of its term tables |
| Bm25.CountTerms | RAG_system/flask_backend/routes/BM25/bm25.py:69-71 | the counting loop gives each term of the document its number of occurrences |
| Bm25.CountDocument | RAG_system/flask_backend/routes/BM25/bm25.py:73-74 | each distinct term of the document has its document frequency raised by one, and no other term changes |
| Bm25.Index.BuildIndex | RAG_system/flask_backend/routes/BM25/bm25.py:66-74 | the nested counting loops install the term-frequency and document-frequency tables of the tokenized corpus and change nothing else |
| Bm25.TokenizeCorpus | RAG_system/flask_backend/routes/BM25/bm25.py:62-64 | the corpus is tokenized document by document, in order |
| Bm25.Create | RAG_system/flask_backend/routes/BM25/bm25.py:35-55 | construction fails (EmptyCorpus) exactly for the empty corpus; otherwise it yields an index of the built statistics |
| Bm25.Index.Score | RAG_system/flask_backend/routes/BM25/bm25.py:76-96 | the scoring loop yields the BM25 score of the document, and fails as the source does on a missing length or a zero denominator |
| Bm25.Index.Search | RAG_system/flask_backend/routes/BM25/bm25.py:98-109 | the search method yields the top-k prefix of the stable descending ranking of all documents' scores, or the source's error |
| Bm25Properties.DocStatsFacts | RAG_system/flask_backend/routes/BM25/bm25.py:66-74 | for any tokenized corpus, each length is the sum of its term table, each `df[t]` is between 1 and N, and a non-empty `df` forces a positive total length |
| Bm25Properties.BuiltStatsFacts | RAG_system/flask_backend/routes/BM25/bm25.py:41-74 | a built index has N lengths and N term tables; its lengths are the term-table sums; `1 <= df[t] <= N`; the average is positive whenever `df` is non-empty |
| Bm25Properties.MeanFacts | RAG_system/flask_backend/routes/BM25/bm25.py:50 | the average length is non-negative, and positive when the total length is |
| Bm25Properties.IdfArgumentAboveOne | RAG_system/flask_backend/routes/BM25/bm25.py:87-88 | the log argument `(N-df+0.5)/(df+0.5)+1` exceeds 1 exactly when `df <= N` |
| Bm25Properties.IdfPositive | RAG_system/flask_backend/routes/BM25/bm25.py:87-88 | the idf of an indexed term is positive |
| Bm25Properties.TermScoreFacts | RAG_system/flask_backend/routes/BM25/bm25.py:83-94 | with k1 >= 0 and 0 <= b <= 1 every term contribution is non-negative, and with k1 > 0 and b < 1 it is defined |
| Bm25Properties.ScoreNonNegative | RAG_system/flask_backend/routes/BM25/bm25.py:76-96 | every defined score is non-negative when k1 >= 0 and 0 <= b <= 1 |
| Bm25Properties.ScoreDefined | RAG_system/flask_backend/routes/BM25/bm25.py:76-96 | with k1 > 0 and 0 <= b < 1 every document has a score |
| Bm25Properties.UnindexedQueryScoresZero | RAG_system/flask_backend/routes/BM25/bm25.py:83-85 | a query with no indexed token scores 0 on every document |
| Bm25Properties.AllScoresDefined | RAG_system/flask_backend/routes/BM25/bm25.py:106-107 | the score list exists when every document's score does |
| Bm25Properties.BuiltSearchDefined | RAG_system/flask_backend/routes/BM25/bm25.py:98-109 | on a built index with k1 > 0 and 0 <= b < 1, search fails exactly when top_k < 1 |
| Bm25Properties.MissingLengthsFailSearch | RAG_system/flask_backend/routes/BM25/bm25.py:81 | an index that counts more documents than it holds lengths for fails every search |
| Bm25Properties.TopRankedShape | RAG_system/flask_backend/routes/BM25/bm25.py:108-109 | the first k ranked entries are the min(k, N) best positions, each once, each with its own score, ordered by score with ties in ascending position; every position left out ranks after the last one kept |
| Bm25Properties.SearchResultShape | RAG_system/flask_backend/routes/BM25/bm25.py:98-109 | a search returns min(top_k, N) distinct documents with their own scores, in non-increasing score order with ties in ascending id; no omitted document beats the last one returned |
| Bm25Properties.NonIncreasingScoresKeepCorpusOrder | RAG_system/flask_backend/routes/BM25/bm25.py:108 | scores that never increase along the corpus come back in corpus order |
| Bm25Properties.UnindexedQueryKeepsCorpusOrder | RAG_system/flask_backend/routes/BM25/bm25.py:98-109 | a query with no indexed token returns documents 0, 1, ... with score 0 |
| Bm25.SaveOf | RAG_system/flask_backend/routes/BM25/bm25.py:120-145 | save succeeds exactly for a saveable class and a .json/.pkl path; the class is checked before the suffix |
| Bm25.Index.Save | RAG_system/flask_backend/routes/BM25/bm25.py:111-145 | the method writes the record `{df, tf, k1, b, language, stopwords}` of the index, or raises as SaveOf says |
| Bm25.DocLengths | RAG_system/flask_backend/routes/BM25/bm25.py:183 | the recomputed lengths are the sums of the loaded term tables |
| Bm25.Index.Load | RAG_system/flask_backend/routes/BM25/bm25.py:147-185 | load fails exactly as LoadOf says; otherwise it yields a valid fresh index over the corpus with the loaded class and statistics |
| Bm25Properties.SaveLoadRoundTrip | RAG_system/flask_backend/routes/BM25/bm25.py:179-184 | saving a built index and loading it over the same corpus restores `df`, `tf`, the lengths and the average; English and Chinese indexes return the same class |
| Bm25Properties.ReloadedSearchAgrees | RAG_system/flask_backend/routes/BM25/bm25.py:147-185 | a reloaded English or Chinese index answers every search exactly as the saved one |
| Bm25Properties.ReloadedMixedStopwords | RAG_system/flask_backend/routes/BM25/bm25.py:242-248 | a reloaded Mixed-Language index filters a superset of its original stopwords: the merged set plus the default Chinese set |
| Bm25Properties.OneDocumentSearch | RAG_system/flask_backend/routes/BM25/bm25.py:98-109 | over a one-document index a search with top_k 1 returns that document with its score |
| Bm25Properties.ChineseRouteOneWord | RAG_system/flask_backend/routes/BM25/bm25.py:250-256 | a Mixed-Language index keeps a word the Chinese route passes through unchanged exactly when it is outside the merged stopword set |
| Bm25Properties.ReloadedMixedChangesSearch | RAG_system/flask_backend/routes/BM25/bm25.py:179-180 | as written, saving and reloading a concrete Mixed-Language index over the same corpus restores its statistics yet changes a search result's score from ln(4/3) > 0 to 0 |
| Bm25.SaveFixedOf | RAG_system/flask_backend/routes/BM25/bm25.py:111-140 | the corrected save fails exactly when the original save does, with the same error |
| Bm25Properties.SaveLoadFixedRoundTrip | RAG_system/flask_backend/routes/BM25/bm25.py:148-185 | with the corrected save and load, every savable built index comes back as the same variant with the same statistics |
| Bm25Properties.ReloadedFixedSearchAgrees | RAG_system/flask_backend/routes/BM25/bm25.py:148-185 | with the corrected save and load, a reloaded English, Chinese or Mixed-Language index answers every search exactly as the saved one |
| Bm25Properties.SaveableVariants | RAG_system/flask_backend/routes/BM25/bm25.py:120-127 | only the Mixed-Chinese class has no type tag and cannot be saved |
| Bm25.SelectVariant | RAG_system/flask_backend/routes/BM25/bm25.py:274-286 | the factory's only error is UnsupportedLanguage, and it never builds a Mixed-Chinese index |
| Bm25Properties.SelectVariantAccepts | RAG_system/flask_backend/routes/BM25/bm25.py:274-286 | the factory accepts exactly english/en, chinese/cn and mixed after lower-casing; without explicit stopwords each class gets its defaults |
| Bm25.CreateBm25 | RAG_system/flask_backend/routes/BM25/bm25.py:259-286 | create_bm25 fails exactly for an unsupported selector or an empty corpus, the selector checked first; otherwise it yields a valid index of the chosen class |
| Bm25.Bm25Search | RAG_system/flask_backend/routes/BM25/bm25.py:301-311 | bm25_search builds the index, searches it and attaches the document texts |
| Bm25Properties.Bm25SearchShape | RAG_system/flask_backend/routes/BM25/bm25.py:301-311 | bm25_search returns min(top_k, N) hits of distinct documents, each with its own text, scores non-increasing |
| Ranking.OrderIsRanking | RAG_system/flask_backend/routes/BM25/bm25.py:108 | the modelled sort lists every position exactly once, by non-increasing key, equal keys in ascending position |
| Ranking.RankingDistinct | RAG_system/flask_backend/routes/BM25/bm25.py:108 | a sorted ranking lists no position twice |
| Ranking.OrderOfNonIncreasing | RAG_system/flask_backend/routes/BM25/bm25.py:108 | keys already non-increasing are left in place, ties included |
| Ranking.RankingPrefixDominates | RAG_system/flask_backend/routes/BM25/bm25.py:109 | every position missing from a prefix of the ranking comes after the prefix's last entry |
| TextSplitter.RecursiveTextSplitter.constructor | util/text_splitter.py:5-18 | the splitter keeps its tokenizer, max_tokens, overlap and min_length_ratio |
| TextSplitter.NonBlank | util/text_splitter.py:26 | only non-blank pieces are kept, each one of the split pieces |
| TextSplitter.NonBlankAppend | util/text_splitter.py:26 | the blank filter distributes over concatenation, so every non-blank piece survives, in order |
| TextSplitter.NonBlankSingle | util/text_splitter.py:26 | one piece survives exactly when it is not blank |
| TextSplitterProperties.PiecesConcat | util/text_splitter.py:25 | splitting at a separator loses and reorders nothing: the pieces concatenate back to the text |
| TextSplitterProperties.BlankTextHasNoParts | util/text_splitter.py:25-26 | whitespace-only text leaves no part at any separator level |
| TextSplitter.RecursiveTextSplitter.RecursiveSplit | util/text_splitter.py:33-45 | the packing loop produces the greedy packing of the parts, then applies the overlap |
| TextSplitterProperties.PackStateConcat | util/text_splitter.py:36-42 | during packing the finished chunks followed by the open one concatenate to the parts read |
| TextSplitterProperties.PackStateNonEmpty | util/text_splitter.py:39-40 | a chunk is closed only when it is non-empty |
| TextSplitterProperties.PackStateFits | util/text_splitter.py:36-42 | every finished or open chunk has at most max_tokens tokens or is a single part |
| TextSplitterProperties.PackStateFacts | util/text_splitter.py:36-42 | during packing the finished chunks plus the open one concatenate to the parts read; no finished chunk is empty; each fits or is a single part |
| TextSplitterProperties.PackedFacts | util/text_splitter.py:33-44 | before the overlap the chunks concatenate to the parts in order, none is empty, and each has at most max_tokens tokens or is one part |
| TextSplitter.RecursiveTextSplitter.ApplyOverlap | util/text_splitter.py:72-102 | the overlap loop produces the overlapped chunks, each prefixed from the previous result |
| TextSplitterProperties.OverlappedShape | util/text_splitter.py:72-102 | the overlap returns one result per chunk; the first is unchanged; every later one is the decoded tail of the previous result followed by its own chunk, so each ends with its chunk |
| TextSplitterProperties.RegularOverlapTokens | util/text_splitter.py:93-98 | the regular overlap carries min(overlap, n) of the previous result's n tokens, and all n when overlap is 0 |
| TextSplitterProperties.ShortLastChunkTopUp | util/text_splitter.py:81-90 | a short last chunk receives min(max_tokens - own, n) tokens, never exceeding max_tokens in total (ratio at most 1) |
| TextSplitterProperties.TopUpCarries | util/text_splitter.py:81-90 | a short last chunk still under max_tokens receives min(max_tokens - own, n) of the previous result's n tokens, never exceeding max_tokens in total, whatever the ratio |
| TextSplitterProperties.OverfullLastChunkTopUp | util/text_splitter.py:81-90 | with a ratio above 1 a "short" last chunk can reach max_tokens; the needed count is then 0 (the whole previous result is carried) or negative (its first tokens are dropped and the rest carried), and the result reaches at least max_tokens |
| TextSplitter.RecursiveTextSplitter.WindowsFromBounds | util/text_splitter.py:53-68 | forced windows are non-empty and lie within the token stream |
| TextSplitter.RecursiveTextSplitter.CutWindow | util/text_splitter.py:54-68 | one pass of the loop decodes the first remaining window and, unless it reaches the end, resumes `overlap` tokens before its end, strictly after the old start |
| TextSplitter.RecursiveTextSplitter.CutAll | util/text_splitter.py:53-70 | the loop decodes every forced window, in order |
| TextSplitter.RecursiveTextSplitter.ForceSplit | util/text_splitter.py:47-70 | the windowing loop decodes exactly the forced windows, or never ends where the source loops |
| TextSplitterProperties.ForceSplitStalls | util/text_splitter.py:53-68 | the forced split fails to terminate exactly when the text has more than max_tokens tokens and overlap >= max_tokens |
| TextSplitterProperties.DefaultSettingsSafe | util/text_splitter.py:5 | with the default max_tokens 1024, overlap 100 and min_length_ratio 0.7 the forced split always terminates and the ratio is at most 1 |
| TextSplitterProperties.WindowsFromShape | util/text_splitter.py:53-68 | every window has min(max_tokens, total) tokens, the last ends at the end, and consecutive windows overlap by at least `overlap` and advance |
| TextSplitterProperties.ForceSplitCovers | util/text_splitter.py:53-68 | the windows start at token 0 and cover every token |
| TextSplitter.RecursiveTextSplitter.SplitText | util/text_splitter.py:23-31 | split_text returns the result of trying the separators in order, else the forced split |
| TextSplitterProperties.FirstFitSkips | util/text_splitter.py:24-30 | every separator level tried before the chosen one has a chunk over max_tokens + 2 |
| TextSplitterProperties.FirstFittingAt | util/text_splitter.py:24-31 | the chosen level's chunks all fit and are what is returned; when no level fits the forced split is returned |
| TextSplitterProperties.FirstFittingOutcome | util/text_splitter.py:24-31 | from a given separator on, every level before the chosen one has an oversized chunk, and the chosen level's chunks all fit in max_tokens + 2 |
| TextSplitterProperties.SplitTextPicksFirstFitting | util/text_splitter.py:23-31 | split_text returns the first level whose chunks all have at most max_tokens + 2 tokens, or the forced split when none does |
| TextSplitterProperties.BlankTextNoChunks | util/text_splitter.py:23-31 | whitespace-only text is split into no chunk |
| FrameFormatter.ShownItems | util/text_splitter.py:114 | only non-null non-blank cells are shown |
| FrameFormatter.ShownItemsAppend | util/text_splitter.py:113-114 | the cell filter distributes over concatenation, so every shown cell survives, in column order |
| FrameFormatter.ShownItemsSingle | util/text_splitter.py:114 | one cell is shown exactly when it is present and its text is not blank |
| FrameFormatter.FormatRow | util/text_splitter.py:110-119 | the row loop joins the entries of the shown cells with ", " |
| FrameFormatter.EntriesOfShown | util/text_splitter.py:113-119 | there is one "key = value" entry per shown cell, in column order; showing the index appends ". row_index" to each |
| FrameFormatter.EntriesShape | util/text_splitter.py:113-119 | entry i of a row renders shown cell i, and there are as many entries as shown cells |
| FrameFormatter.NothingShownIsEmpty | util/text_splitter.py:111-119 | a row without shown cells renders as "" |
| FrameFormatter.DataFrameFormatter.constructor | util/text_splitter.py:104-108 | the formatter keeps its tokenizer, show_index and max_tokens |
| FrameFormatter.DataFrameFormatter.FormatAllRows | util/text_splitter.py:121-125 | one rendered row per table row |
| FrameFormatter.DataFrameFormatter.ChunkRows | util/text_splitter.py:127-148 | the packing loop emits the "\n"-joined groups of the greedy packing |
| FrameFormatter.DataFrameFormatter.AddRow | util/text_splitter.py:134-143 | a row joins the open group when the token sum stays within max_tokens, else the open group is closed and the row opens the next; every closed group is emitted "\n"-joined |
| FrameFormatter.DataFrameFormatter.ChunkStateRows | util/text_splitter.py:133-143 | during packing the closed groups plus the open one hold the rows read, in order; the open count is its token sum; only the first group can be empty |
| FrameFormatter.DataFrameFormatter.ChunkStateFits | util/text_splitter.py:133-143 | during packing every group fits in max_tokens or is a single row |
| FrameFormatter.DataFrameFormatter.ChunkStateFirst | util/text_splitter.py:133-143 | the first closed group is empty exactly when the first row alone exceeds max_tokens |
| FrameFormatter.DataFrameFormatter.GroupsCover | util/text_splitter.py:127-148 | the groups, concatenated, are exactly the rows: none split, dropped or reordered |
| FrameFormatter.DataFrameFormatter.GroupsFit | util/text_splitter.py:133-146 | each group has a token sum within max_tokens or is a single row |
| FrameFormatter.DataFrameFormatter.GroupsOnlyFirstEmpty | util/text_splitter.py:133-146 | no group after the first is empty, and the first is empty exactly when the first row alone exceeds max_tokens |
| FrameFormatter.DataFrameFormatter.GroupsFacts | util/text_splitter.py:127-148 | the chunks never split, drop or reorder a row; each has a token sum within max_tokens or is one row; only the first can be empty, exactly when the first row alone is too large |
| Docling.ExtractTables | util/docling_util.py:3-19 | the nested loops produce the merge fold over all documents' tables, in order |
| Docling.MergeIntoRows | util/docling_util.py:10-17 | one merge step appends the table's rows after the rows collected so far |
| Docling.MergeIntoShape | util/docling_util.py:10-17 | one merge step adds a table exactly when there is no continuation, and leaves the last table as wide as the new one |
| Docling.MergeIntoKeepsMerged | util/docling_util.py:10-17 | one merge step keeps a list in which no table continues its predecessor that way |
| Docling.MergeAllRows | util/docling_util.py:3-19 | extraction loses, duplicates and reorders no row |
| Docling.MergeAllCount | util/docling_util.py:3-19 | extraction returns one table per input table that does not continue the previous one, the last as wide as the last input |
| Docling.MergeAllMerged | util/docling_util.py:3-19 | no returned table continues its predecessor |
| Docling.MergeAllFacts | util/docling_util.py:3-19 | extraction loses, duplicates and reorders no row; it returns one table per non-continuation; the last table is as wide as the last input; no returned table continues its predecessor |
| Docling.FirstTableOpens | util/docling_util.py:10 | the first returned table carries the first table's labels and starts with its rows |
| Docling.MergeAllOfMerged | util/docling_util.py:3-19 | tables none of which continues its predecessor come back unchanged |
| Docling.MergeAllIdempotent | util/docling_util.py:3-19 | merging the result again changes nothing |
| Docling.DfToText | util/docling_util.py:21-27 | one text per table, table i rendered as its heading "## Table i\n " followed by its markdown |
| Docling.HeadingNumbers | util/docling_util.py:24 | the heading carries the table's 0-based number, which parses back, so no two tables share a heading |
| Fusion.IndexOf | RAG_system/flask_backend/routes/util/ollama_util.py:79 | `id not in ret` holds exactly when the lookup finds nothing; a found index holds the key |
| Fusion.AccumulateOk | RAG_system/flask_backend/routes/util/ollama_util.py:82 | accumulation fails exactly when some k + rank is 0, and only with ZeroDivision |
| Fusion.AddContribution | RAG_system/flask_backend/routes/util/ollama_util.py:79-82 | create-with-0 then add yields the entry with 1/(k + rank) added, new keys last |
| Fusion.Rrf | RAG_system/flask_backend/routes/util/ollama_util.py:74-84 | the nested loops and the sort compute the fused dictionary, or fail on a zero denominator |
| Fusion.AccumulateFacts | RAG_system/flask_backend/routes/util/ollama_util.py:77-82 | the accumulated dictionary has each key of the inputs once, in order of first appearance; its scores are the sums of 1/(k + rank); its text and metadata come from the first occurrence |
| Fusion.SortedEntries | RAG_system/flask_backend/routes/util/ollama_util.py:84 | sorting is a permutation of the entries and keeps the key set |
| Fusion.SortedOrder | RAG_system/flask_backend/routes/util/ollama_util.py:84 | after sorting the keys are distinct and in non-increasing score, ties in order of first appearance |
| Fusion.SortedValues | RAG_system/flask_backend/routes/util/ollama_util.py:84 | sorting keeps each key's score, text and metadata |
| Fusion.RrfFacts | RAG_system/flask_backend/routes/util/ollama_util.py:74-84 | rrf fails exactly when some k + rank is 0. Otherwise its keys are the union of the lists' keys, each once. Each score is the sum of 1/(k + rank) over the lists. Text and metadata come from the first appearance. Order is by non-increasing score, ties by first appearance |
| Fusion.RrfSingleList | RAG_system/flask_backend/routes/util/ollama_util.py:74-84 | one list with distinct keys ranked 0..n-1 keeps its order, with scores 1/(k + i) |
| Retrieval.Bm25Retrieval | RAG_system/flask_backend/routes/util/ollama_util.py:27-72 | the collecting loop and the search produce the BM25 hits shaped into the `chunk_<id>` dictionary; the knowledge-base variant is the same computation over the points of that knowledge base |
| Retrieval.ChunkKeyInjective | RAG_system/flask_backend/routes/util/ollama_util.py:39 | distinct point ids give distinct `chunk_<id>` keys |
| Retrieval.ShapedEntries | RAG_system/flask_backend/routes/util/ollama_util.py:38-46 | with distinct ids and distinct hits no key is overwritten, so entry i is hit i with rank i |
| Retrieval.ShapedFromPoints | RAG_system/flask_backend/routes/util/ollama_util.py:38-46 | each shaped entry carries the key, text and metadata of the point its hit found, with rank i, keys distinct |
| Retrieval.Bm25RetrievalFacts | RAG_system/flask_backend/routes/util/ollama_util.py:27-48 | bm25_retrieval returns min(top_k, points) entries of ranks 0, 1, ..., each from its point, keys distinct |
| Retrieval.Bm25RetrievalDefined | RAG_system/flask_backend/routes/util/ollama_util.py:37 | bm25_retrieval fails exactly when there are no points or top_k < 1 |
| Retrieval.DefaultTopKDefined | RAG_system/flask_backend/routes/util/ollama_util.py:27 | with the default top_k of 3, BM25 retrieval fails exactly when there are no points |
| Retrieval.Bm25AloneKeepsOrder | RAG_system/flask_backend/routes/util/ollama_util.py:74-84 | fusing the BM25 result alone (k >= 1) keeps its order, with scores 1/(k + rank) |
| Rerank.Reranker | RAG_system/flask_backend/routes/util/ollama_util.py:108-122 | the collecting loop, the sort, the filter and the 3/5 selection compute the selection rule on the scored chunks |
| Rerank.SortedChunksFacts | RAG_system/flask_backend/routes/util/ollama_util.py:115 | the sort is a permutation of the scored chunks, in non-increasing score |
| Rerank.PassingIsPrefix | RAG_system/flask_backend/routes/util/ollama_util.py:116 | on a sorted list the chunks above the threshold form a prefix, and a chunk is in it exactly when its score is above the threshold |
| Rerank.SelectFacts | RAG_system/flask_backend/routes/util/ollama_util.py:116-120 | the selection is a prefix of the sorted list of min(3, n) to 5 chunks: the first min(3, n) when fewer than 3 pass, the first 5 when more than 5 pass, otherwise exactly the passing ones |
| Rerank.FormatRagOutput | RAG_system/flask_backend/routes/util/ollama_util.py:125-127 | the prompt text is empty exactly when there are no chunks, and otherwise ends with the last chunk's numbered item |
| Rerank.RerankFacts | RAG_system/flask_backend/routes/util/ollama_util.py:108-122 | reranker returns a prefix of the chunks sorted by relevance, of min(3, n) to 5 chunks, scores non-increasing, each a retrieved chunk with its own score |
| Rerank.FormatRagOutputAppend | RAG_system/flask_backend/routes/util/ollama_util.py:125-127 | no chunks give ""; one chunk gives its item; one more chunk adds a blank line and the next-numbered item |
| Rerank.DocumentNumbering | RAG_system/flask_backend/routes/util/ollama_util.py:126 | documents are numbered from 1; the number parses back from the heading, so headings are distinct |
| Strings.PySuffixShape | util/text_splitter.py:88 | `xs[-k:]` keeps the last min(k, n) items for k >= 1 and the whole list for k = 0, always a suffix |

## Left out

- Strip (Tokenizers.Strip): its own contract says only that every surviving character is in the kept class; that every kept character survives, in order, is stated by `Tokenizers.StripAppend` and `Tokenizers.StripSingle`.
- DropStopwords (Tokenizers.DropStopwords): its own contract says only that survivors are non-empty, non-stopword input tokens, and `Tokenizers.DropStopwordsKeeps` adds that every such token appears; order and multiplicity are stated by `Tokenizers.DropStopwordsAppend` and `Tokenizers.DropStopwordsSingle`.
- DropSpaced (Tokenizers.DropSpaced): its own contract says only that no survivor contains whitespace; that every other segment survives, in order, is stated by `Tokenizers.DropSpacedAppend` and `Tokenizers.DropSpacedSingle`.
- NonBlank (TextSplitter.NonBlank): its own contract says only that survivors are non-blank input pieces; that every non-blank piece survives, in order, is stated by `TextSplitter.NonBlankAppend` and `TextSplitter.NonBlankSingle`.
- ShownItems (FrameFormatter.ShownItems): its own contract says only that survivors are shown cells; that every shown cell survives, in column order, is stated by `FrameFormatter.ShownItemsAppend` and `FrameFormatter.ShownItemsSingle`.
- Python I/O:
  - JSON and pickle files are modelled as the record value plus the format that wrote it.
  - Reading a file in the other format fails as `Undecodable`.
  - A missing file and a malformed record are not modelled.
- Vector search, embeddings and chat completion are network calls to Qdrant and Ollama. These are `get_embeddings`, `get_completion`, `hybrid_retriever` and `hybrid_retriever_with_kbname`. Only the `rrf` they end in is modelled.
- `Retrieval.Bm25Retrieval` takes the points the vector database returns as a parameter.
- The cross-encoder's `predict` is the `Rerank.Relevance` parameter. The default model and threshold are not modelled.
- Floating point is modelled as exact `real` arithmetic, and `math.log` as an unknown function positive above 1 (`Bm25.Ln`). Rounding is not modelled.
- `Strings.Lower` is exact on ASCII and the two non-ASCII characters that lower-case into ASCII (U+0130, U+212A). Other non-ASCII characters are left unchanged. The English pipeline strips every character except ideographs, ASCII letters, digits and whitespace after lower-casing, so other case mappings never reach a token. In the Mixed-Chinese pipeline the source's segmenter only returns pieces of the already stripped text, so there too they never reach lower-casing; in the model the segmenter is an uninterpreted parameter that may return any text, so there the model's `Strings.Lower` can meet characters whose case mapping it does not model.
- The `MixedLanguageBM25` constructor also builds two sub-indexes over the corpus. Only their tokenizers are used, so their statistics are not modelled.
- jieba's `cut_for_search`, the stemmer, the Hugging Face tokenizer and `DataFrame.to_markdown` are uninterpreted parameters.
- Token ids are not modelled: `decode(convert_tokens_to_ids(t))` is one `decode` call on tokens.
- Point ids are modelled as the text `f"{id}"` produces. Metadata values are modelled as strings.
- pandas cells:
  - `pd.notnull` is modelled as the `Null` cell.
  - A cell's `str()` is its `text`.
  - Python's equality `True == 1` between column labels is not modelled.
- `TextSplitter.RecursiveTextSplitter.ForceSplit`: the loop that never ends is returned as `None` rather than diverging.
- Integers are unbounded (Python's are too). Counts are `nat`.

## Findings

| source | as written | input that shows it | evidently intended | confidence | as-written member | corrected member |
|---|---|---|---|---|---|---|
| RAG_system/flask_backend/routes/BM25/bm25.py:179-180 | `load` passes the saved stopwords positionally, so a `MixedLanguageBM25` gets the merged set as `stopwords_en` and the default Chinese set as `stopwords_cn` (bm25.py:242) | the one-document corpus 中, built with empty English and Chinese stopword sets, a stemmer and segmenter that leave words alone, and 中 among the default Chinese stopwords; the query 中 scores ln(4/3) before the save and 0 after the load | a loaded index filters with the stopwords it was saved with and answers every query as before | not executed | Bm25Properties.ReloadedMixedChangesSearch | Bm25Properties.ReloadedFixedSearchAgrees |
