/** The four tokenizer pipelines of the BM25 index (English, Chinese,
    Mixed-Chinese and the Mixed-Language router). The pipelines themselves are
    fixed (lower-casing, which characters are stripped, stopword filtering before
    stemming); the stemmer, the jieba search-mode segmenter and the stopword
    constants are libraries, passed in as values. */
module Tokenizers {
  import opened Strings
  import opened LanguageDetect

  /** The libraries and constants the tokenizers call. */
  datatype Libraries = Libraries(
    stem: string -> string,               // PyStemmer 'english' stemWord
    cutForSearch: string -> seq<string>,  // jieba.cut_for_search
    stopwordsEnPlus: set<string>,         // STOPWORDS_EN_PLUS
    stopwordsChinese: set<string>)        // STOPWORDS_CHINESE + STOPWORDS_ZH_TW

  /** The tokenizer strategy of an index: the concrete BM25 class and the
      stopword sets it was built with. MixedLanguage keeps the two sets its
      constructor receives: the English sub-tokenizer filters stopEn, the
      Mixed-Chinese one filters stopEn + stopCn. */
  datatype Variant =
    | English(stop: set<string>)
    | Chinese(stop: set<string>)
    | MixedChinese(stop: set<string>)
    | MixedLanguage(stopEn: set<string>, stopCn: set<string>)

  /** The stopword set an index of this variant filters with. */
  function Stopwords(v: Variant): set<string>
  {
    match v
    case English(s) => s
    case Chinese(s) => s
    case MixedChinese(s) => s
    case MixedLanguage(en, cn) => en + cn
  }

  // ---------------------------------------------------------------------------
  // Character classes of the regexes

  /** The ideograph range the tokenizers keep: 一-龥 (U+4E00..U+9FA5). */
  predicate IsHan(c: char)
  {
    '\U{4E00}' <= c <= '\U{9FA5}'
  }

  /** Characters the English cleaning keeps: Han characters, ASCII letters, digits and whitespace. */
  predicate KeepsWithDigits(c: char)
  {
    IsHan(c) || IsAsciiLetter(c) || IsAsciiDigit(c) || IsSpace(c)
  }

  /** Characters the Chinese cleaning keeps: Han characters and ASCII letters. */
  predicate KeepsLetters(c: char)
  {
    IsHan(c) || IsAsciiLetter(c)
  }

  /** Deletes every character outside a class, keeping the rest in order. */
  function Strip(s: string, keep: char -> bool): (r: string)
    ensures forall i :: 0 <= i < |r| ==> keep(r[i])
  {
    if s == [] then ""
    else Strip(s[..|s| - 1], keep) + (if keep(s[|s| - 1]) then [s[|s| - 1]] else "")
  }

  /** Stripping goes character by character: what survives of a + b is what
      survives of a followed by what survives of b. */
  lemma {:induction false} StripAppend(a: string, b: string, keep: char -> bool)
    ensures Strip(a + b, keep) == Strip(a, keep) + Strip(b, keep)
    decreases |b|
  {
    if b == [] {
      assert a + b == a;
    } else {
      var init := b[..|b| - 1];
      StripAppend(a, init, keep);
      assert (a + b)[..|a + b| - 1] == a + init;
      assert (a + b)[|a + b| - 1] == b[|b| - 1];
    }
  }

  /** One character survives exactly when it is in the kept class. */
  lemma StripSingle(c: char, keep: char -> bool)
    ensures Strip([c], keep) == if keep(c) then [c] else []
  {
    assert [c][..0] == [];
  }

  /** Splitting at whitespace: the maximal runs of non-whitespace characters. */
  function SplitWhitespace(s: string): seq<string>
  {
    SplitFrom(s, "")
  }

  function SplitFrom(s: string, cur: string): seq<string>
    decreases |s|
  {
    if s == [] then (if cur == "" then [] else [cur])
    else if IsSpace(s[0]) then (if cur == "" then [] else [cur]) + SplitFrom(s[1..], "")
    else SplitFrom(s[1..], cur + [s[0]])
  }

  /** The tokens that are non-empty and not stopwords, in order. */
  function DropStopwords(ts: seq<string>, stop: set<string>): (r: seq<string>)
    ensures forall i :: 0 <= i < |r| ==> r[i] != "" && r[i] !in stop && r[i] in ts
  {
    if ts == [] then []
    else
      var init := DropStopwords(ts[..|ts| - 1], stop);
      var t := ts[|ts| - 1];
      init + (if t != "" && t !in stop then [t] else [])
  }

  /** The stopword filter distributes over concatenation: it keeps every
      passing token, in order and as often as it occurs. */
  lemma {:induction false} DropStopwordsAppend(a: seq<string>, b: seq<string>, stop: set<string>)
    ensures DropStopwords(a + b, stop) == DropStopwords(a, stop) + DropStopwords(b, stop)
    decreases |b|
  {
    if b == [] {
      assert a + b == a;
    } else {
      var init := b[..|b| - 1];
      DropStopwordsAppend(a, init, stop);
      assert (a + b)[..|a + b| - 1] == a + init;
      assert (a + b)[|a + b| - 1] == b[|b| - 1];
    }
  }

  /** One token survives exactly when it is non-empty and not a stopword. */
  lemma DropStopwordsSingle(t: string, stop: set<string>)
    ensures DropStopwords([t], stop) == if t != "" && t !in stop then [t] else []
  {
    assert [t][..0] == [];
  }

  function StemAll(stem: string -> string, ts: seq<string>): (r: seq<string>)
    ensures |r| == |ts|
    ensures forall i :: 0 <= i < |ts| ==> r[i] == stem(ts[i])
  {
    if ts == [] then [] else StemAll(stem, ts[..|ts| - 1]) + [stem(ts[|ts| - 1])]
  }

  /** The tokens that contain no whitespace, in order. */
  function DropSpaced(ts: seq<string>): (r: seq<string>)
    ensures forall i :: 0 <= i < |r| ==> !ContainsSpace(r[i])
  {
    if ts == [] then []
    else DropSpaced(ts[..|ts| - 1]) + (if ContainsSpace(ts[|ts| - 1]) then [] else [ts[|ts| - 1]])
  }

  /** The filter goes segment by segment: what survives of a + b is what
      survives of a followed by what survives of b. */
  lemma {:induction false} DropSpacedAppend(a: seq<string>, b: seq<string>)
    ensures DropSpaced(a + b) == DropSpaced(a) + DropSpaced(b)
    decreases |b|
  {
    if b == [] {
      assert a + b == a;
    } else {
      var init := b[..|b| - 1];
      DropSpacedAppend(a, init);
      assert (a + b)[..|a + b| - 1] == a + init;
      assert (a + b)[|a + b| - 1] == b[|b| - 1];
    }
  }

  /** One segment survives exactly when it holds no whitespace. */
  lemma DropSpacedSingle(t: string)
    ensures DropSpaced([t]) == if ContainsSpace(t) then [] else [t]
  {
    assert [t][..0] == [];
  }

  function LowerAll(ts: seq<string>): (r: seq<string>)
    ensures |r| == |ts|
    ensures forall i :: 0 <= i < |ts| ==> r[i] == Lower(ts[i])
  {
    if ts == [] then [] else LowerAll(ts[..|ts| - 1]) + [Lower(ts[|ts| - 1])]
  }

  // ---------------------------------------------------------------------------
  // The pipelines

  /** EnglishBM25: lower-case, strip to ideographs/ASCII letters/digits/whitespace,
      split on whitespace. */
  function EnglishWords(text: string): seq<string>
  {
    SplitWhitespace(Strip(Lower(text), KeepsWithDigits))
  }

  /** EnglishBM25._tokenize: stopwords are filtered on the unstemmed words, then
      the survivors are stemmed. */
  function EnglishTokens(lib: Libraries, stop: set<string>, text: string): seq<string>
  {
    StemAll(lib.stem, DropStopwords(EnglishWords(text), stop))
  }

  /** ChineseBM25._tokenize: strip to ideographs and ASCII letters, segment in
      search mode, drop empty tokens and stopwords; no case folding. */
  function ChineseTokens(lib: Libraries, stop: set<string>, text: string): seq<string>
  {
    DropStopwords(lib.cutForSearch(Strip(text, KeepsLetters)), stop)
  }

  /** MixedChineseBM25, before stemming: strip to ideographs/ASCII letters/digits/
      whitespace, segment, drop every segment holding whitespace, lower-case,
      drop empty tokens and stopwords. */
  function MixedChineseWords(lib: Libraries, stop: set<string>, text: string): seq<string>
  {
    DropStopwords(LowerAll(DropSpaced(lib.cutForSearch(Strip(text, KeepsWithDigits)))), stop)
  }

  function MixedChineseTokens(lib: Libraries, stop: set<string>, text: string): seq<string>
  {
    StemAll(lib.stem, MixedChineseWords(lib, stop, text))
  }

  /** The token sequence an index of variant v produces for text. */
  function Tokens(lib: Libraries, v: Variant, text: string): seq<string>
  {
    match v
    case English(stop) => EnglishTokens(lib, stop, text)
    case Chinese(stop) => ChineseTokens(lib, stop, text)
    case MixedChinese(stop) => MixedChineseTokens(lib, stop, text)
    case MixedLanguage(en, cn) =>
      if TokenizerDetectLanguage(text) == "en" then EnglishTokens(lib, en, text)
      else MixedChineseTokens(lib, en + cn, text)
  }

  // ---------------------------------------------------------------------------
  // The in-place loop of MixedChineseBM25._tokenize and the dispatch

  /** Lower-cases every token of the list in place, position by position. */
  method LowerInPlace(a: array<string>)
    modifies a
    ensures a[..] == LowerAll(old(a[..]))
  {
    var i := 0;
    while i < a.Length
      invariant 0 <= i <= a.Length
      invariant forall j :: 0 <= j < i ==> a[j] == Lower(old(a[j]))
      invariant forall j :: i <= j < a.Length ==> a[j] == old(a[j])
    {
      a[i] := Lower(a[i]);
      i := i + 1;
    }
  }

  method TokenizeMixedChinese(lib: Libraries, stop: set<string>, text: string) returns (tokens: seq<string>)
    ensures tokens == MixedChineseTokens(lib, stop, text)
  {
    var segments := DropSpaced(lib.cutForSearch(Strip(text, KeepsWithDigits)));
    var a := new string[|segments|](i requires 0 <= i < |segments| => segments[i]);
    assert a[..] == segments;
    LowerInPlace(a);
    var lowered := a[..];
    assert lowered == LowerAll(segments);
    tokens := StemAll(lib.stem, DropStopwords(lowered, stop));
  }

  /** _tokenize of the index class of variant v. */
  method Tokenize(lib: Libraries, v: Variant, text: string) returns (tokens: seq<string>)
    ensures tokens == Tokens(lib, v, text)
  {
    match v
    case English(stop) => tokens := EnglishTokens(lib, stop, text);
    case Chinese(stop) => tokens := ChineseTokens(lib, stop, text);
    case MixedChinese(stop) => tokens := TokenizeMixedChinese(lib, stop, text);
    case MixedLanguage(en, cn) =>
      if TokenizerDetectLanguage(text) == "en" {
        tokens := EnglishTokens(lib, en, text);
      } else {
        tokens := TokenizeMixedChinese(lib, en + cn, text);
      }
  }

  // ---------------------------------------------------------------------------
  // Properties

  /** A word char of the English pipeline: lower-case ASCII letter, digit or
      ideograph. */
  predicate EnglishWordChar(c: char)
  {
    IsHan(c) || IsAsciiLower(c) || IsAsciiDigit(c)
  }

  lemma {:induction false} SplitFromWords(s: string, cur: string, ok: char -> bool)
    requires forall i :: 0 <= i < |s| ==> ok(s[i]) || IsSpace(s[i])
    requires forall i :: 0 <= i < |cur| ==> ok(cur[i]) && !IsSpace(cur[i])
    ensures forall w :: w in SplitFrom(s, cur) ==>
              w != "" && forall i :: 0 <= i < |w| ==> ok(w[i]) && !IsSpace(w[i])
    decreases |s|
  {
    if s != [] {
      if IsSpace(s[0]) {
        SplitFromWords(s[1..], "", ok);
      } else {
        var cur' := cur + [s[0]];
        assert forall i :: 0 <= i < |cur'| ==> ok(cur'[i]) && !IsSpace(cur'[i]) by {
          forall i | 0 <= i < |cur'| ensures ok(cur'[i]) && !IsSpace(cur'[i]) {
            if i < |cur| { assert cur'[i] == cur[i]; }
          }
        }
        SplitFromWords(s[1..], cur', ok);
      }
    }
  }

  lemma {:induction false} StripLowerChars(s: string)
    ensures forall i :: 0 <= i < |Strip(Lower(s), KeepsWithDigits)| ==>
              EnglishWordChar(Strip(Lower(s), KeepsWithDigits)[i]) || IsSpace(Strip(Lower(s), KeepsWithDigits)[i])
  {
    LowerHasNoAsciiUpper(s);
    StripKeepsSubset(Lower(s), KeepsWithDigits, (c: char) => !IsAsciiUpper(c));
  }

  lemma {:induction false} StripKeepsSubset(s: string, keep: char -> bool, p: char -> bool)
    requires forall i :: 0 <= i < |s| ==> p(s[i])
    ensures forall i :: 0 <= i < |Strip(s, keep)| ==> p(Strip(s, keep)[i]) && keep(Strip(s, keep)[i])
  {
    if s != [] {
      StripKeepsSubset(s[..|s| - 1], keep, p);
      var a := Strip(s[..|s| - 1], keep);
      var b: string := if keep(s[|s| - 1]) then [s[|s| - 1]] else "";
      forall i | 0 <= i < |a + b| ensures p((a + b)[i]) {
        if i >= |a| { assert (a + b)[i] == s[|s| - 1]; }
        else { assert (a + b)[i] == a[i]; }
      }
    }
  }

  /** Every word the English pipeline hands to the stopword filter is non-empty
      and made only of lower-case ASCII letters, digits and ideographs. */
  lemma EnglishWordsShape(text: string)
    ensures forall w :: w in EnglishWords(text) ==>
              w != "" && forall i :: 0 <= i < |w| ==> EnglishWordChar(w[i])
  {
    StripLowerChars(text);
    SplitFromWords(Strip(Lower(text), KeepsWithDigits), "", EnglishWordChar);
  }

  /** Every word the Mixed-Chinese pipeline hands to the stemmer is non-empty,
      not a stopword, free of whitespace and of upper-case ASCII letters. */
  lemma MixedChineseWordsShape(lib: Libraries, stop: set<string>, text: string)
    ensures forall w :: w in MixedChineseWords(lib, stop, text) ==>
              w != "" && w !in stop && !ContainsSpace(w)
              && forall i :: 0 <= i < |w| ==> !IsAsciiUpper(w[i])
  {
    var segs := DropSpaced(lib.cutForSearch(Strip(text, KeepsWithDigits)));
    var lowered := LowerAll(segs);
    forall w | w in MixedChineseWords(lib, stop, text)
      ensures !ContainsSpace(w) && forall i :: 0 <= i < |w| ==> !IsAsciiUpper(w[i])
    {
      assert w in lowered;
      var j :| 0 <= j < |lowered| && lowered[j] == w;
      LowerHasNoAsciiUpper(segs[j]);
      LowerKeepsNoSpace(segs[j]);
    }
  }

  lemma {:induction false} LowerKeepsNoSpace(s: string)
    requires !ContainsSpace(s)
    ensures !ContainsSpace(Lower(s))
  {
    LowerNoSpaceChars(s);
  }

  lemma {:induction false} LowerNoSpaceChars(s: string)
    requires forall i :: 0 <= i < |s| ==> !IsSpace(s[i])
    ensures forall i :: 0 <= i < |Lower(s)| ==> !IsSpace(Lower(s)[i])
  {
    if s != [] {
      var init := s[..|s| - 1];
      LowerNoSpaceChars(init);
      var a, b := Lower(init), LowerChar(s[|s| - 1]);
      assert !IsSpace(s[|s| - 1]);
      forall i | 0 <= i < |a + b| ensures !IsSpace((a + b)[i]) {
        if i < |a| { assert (a + b)[i] == a[i]; }
        else { assert (a + b)[i] == b[i - |a|]; }
      }
    }
  }

  /** The Mixed-Language router sends a text to the English pipeline exactly
      when it holds no character of U+4E00..U+9FFF, and to the Mixed-Chinese
      pipeline (with both stopword sets) otherwise. */
  lemma MixedLanguageRouting(lib: Libraries, en: set<string>, cn: set<string>, text: string)
    ensures (forall i :: 0 <= i < |text| ==> !IsCjk(text[i])) ==>
              Tokens(lib, MixedLanguage(en, cn), text) == EnglishTokens(lib, en, text)
    ensures (exists i :: 0 <= i < |text| && IsCjk(text[i])) ==>
              Tokens(lib, MixedLanguage(en, cn), text) == MixedChineseTokens(lib, en + cn, text)
  {
    TokenizerDetectChinese(text);
  }

  /** The English pipeline yields nothing for the empty text. */
  lemma EnglishTokensOfEmpty(lib: Libraries, stop: set<string>)
    ensures EnglishTokens(lib, stop, "") == []
  {
  }

  /** Stopwords are filtered before stemming: the tokens are the stems of the
      non-stopword words, one per word, in order. */
  lemma {:induction false} EnglishFiltersBeforeStemming(lib: Libraries, stop: set<string>, text: string, w: string)
    requires w in EnglishWords(text) && w !in stop
    ensures lib.stem(w) in EnglishTokens(lib, stop, text)
  {
    EnglishWordsShape(text);
    DropStopwordsKeeps(EnglishWords(text), stop, w);
    var kept := DropStopwords(EnglishWords(text), stop);
    var j :| 0 <= j < |kept| && kept[j] == w;
    assert StemAll(lib.stem, kept)[j] == lib.stem(w);
  }

  lemma {:induction false} DropStopwordsKeeps(ts: seq<string>, stop: set<string>, w: string)
    requires w in ts && w != "" && w !in stop
    ensures w in DropStopwords(ts, stop)
  {
    if ts[|ts| - 1] != w {
      assert w in ts[..|ts| - 1] by {
        var j :| 0 <= j < |ts| && ts[j] == w;
        assert ts[..|ts| - 1][j] == w;
      }
      DropStopwordsKeeps(ts[..|ts| - 1], stop, w);
    }
  }
}
