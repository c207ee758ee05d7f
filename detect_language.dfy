/** The two language classifiers of the BM25 package: a document-level vote
    (Chinese when CJK ideographs outnumber twice the English words) and the
    tokenizer router's test (Chinese as soon as one CJK ideograph occurs). Both
    count characters of U+4E00..U+9FFF, the CJK Unified Ideographs block of the
    Unicode Standard. */
module LanguageDetect {
  import opened Strings

  /** A character of the CJK Unified Ideographs block, U+4E00 to U+9FFF. */
  predicate IsCjk(c: char)
  {
    '\U{4E00}' <= c <= '\U{9FFF}'
  }

  /** The ASCII members of Python's \w. */
  predicate IsAsciiWord(c: char)
  {
    IsAsciiLetter(c) || IsAsciiDigit(c) || c == '_'
  }

  /** Python's \w on str patterns follows the Unicode database, which the model
      takes as a parameter: any classifier that is exact on ASCII and counts the
      CJK ideographs as word characters. */
  type WordClass = f: char -> bool
    | forall c: char :: (c as int < 128 ==> f(c) == IsAsciiWord(c)) && (IsCjk(c) ==> f(c))
    witness (c: char) => IsAsciiWord(c) || IsCjk(c)

  /** How many characters of the text lie in the CJK Unified Ideographs block. */
  function CjkCount(text: string): nat
  {
    if text == [] then 0
    else CjkCount(text[..|text| - 1]) + (if IsCjk(text[|text| - 1]) then 1 else 0)
  }

  /** The ideographs of a + b are those of a plus those of b. */
  lemma {:induction false} CjkCountAppend(a: string, b: string)
    ensures CjkCount(a + b) == CjkCount(a) + CjkCount(b)
    decreases |b|
  {
    if b == [] {
      assert a + b == a;
    } else {
      var init := b[..|b| - 1];
      CjkCountAppend(a, init);
      assert (a + b)[..|a + b| - 1] == a + init;
      assert (a + b)[|a + b| - 1] == b[|b| - 1];
    }
  }

  /** One character counts once exactly when it is an ideograph. */
  lemma CjkCountSingle(c: char)
    ensures CjkCount([c]) == if IsCjk(c) then 1 else 0
  {
    assert [c][..0] == [];
  }

  /** Length of the run of ASCII letters that starts s. */
  function LetterRun(s: string): (n: nat)
    ensures n <= |s|
  {
    if s == [] || !IsAsciiLetter(s[0]) then 0 else 1 + LetterRun(s[1..])
  }

  /** The whole-word matches of one or more ASCII letters in s, given whether
      the character just before s is a word character. A match is a maximal run
      of ASCII letters: the leading word boundary needs a non-word character (or
      the start) before the run, and since a letter run can only shrink onto
      another letter, the trailing boundary needs a non-word character (or the
      end) right after the whole run. */
  function WordsFrom(s: string, afterWord: bool, isWord: WordClass): nat
    decreases |s|
  {
    if s == [] then 0
    else if IsAsciiLetter(s[0]) then
      var rest := s[LetterRun(s)..];
      (if !afterWord && (rest == [] || !isWord(rest[0])) then 1 else 0)
      + WordsFrom(rest, true, isWord)
    else WordsFrom(s[1..], isWord(s[0]), isWord)
  }

  /** How many maximal runs of ASCII letters stand as whole words in the text. */
  function EnglishWordCount(text: string, isWord: WordClass): nat
  {
    WordsFrom(text, false, isWord)
  }

  /** detect_language: 'zh' when the ideographs outnumber twice the English words. */
  function DetectLanguage(text: string, isWord: WordClass): (r: string)
    ensures r == "zh" || r == "en"
    ensures r == "zh" <==> CjkCount(text) > 2 * EnglishWordCount(text, isWord)
  {
    if CjkCount(text) > EnglishWordCount(text, isWord) * 2 then "zh" else "en"
  }

  /** tokenizer_detect_language: 'zh' as soon as the text holds one ideograph. */
  function TokenizerDetectLanguage(text: string): (r: string)
    ensures r == "zh" || r == "en"
  {
    if CjkCount(text) > 0 then "zh" else "en"
  }

  /** The counter counts exactly the ideographs. */
  lemma {:induction false} CjkCountPositive(text: string)
    ensures CjkCount(text) > 0 <==> exists i :: 0 <= i < |text| && IsCjk(text[i])
  {
    if text != [] {
      var init := text[..|text| - 1];
      CjkCountPositive(init);
      if exists i :: 0 <= i < |init| && IsCjk(init[i]) {
        var i :| 0 <= i < |init| && IsCjk(init[i]);
        assert text[i] == init[i];
      }
      if exists i :: 0 <= i < |text| && IsCjk(text[i]) {
        var i :| 0 <= i < |text| && IsCjk(text[i]);
        if i < |init| { assert init[i] == text[i]; }
      }
    }
  }

  /** The router picks Chinese exactly when the text contains an ideograph. */
  lemma TokenizerDetectChinese(text: string)
    ensures TokenizerDetectLanguage(text) == "zh" <==> exists i :: 0 <= i < |text| && IsCjk(text[i])
  {
    CjkCountPositive(text);
  }

  /** Text the router calls English is also English for the document vote. */
  lemma RouterEnglishIsEnglish(text: string, isWord: WordClass)
    requires TokenizerDetectLanguage(text) == "en"
    ensures DetectLanguage(text, isWord) == "en"
  {
  }

  /** Both classifiers call the empty text English. */
  lemma EmptyIsEnglish(isWord: WordClass)
    ensures DetectLanguage("", isWord) == "en" && TokenizerDetectLanguage("") == "en"
  {
  }

  lemma {:induction false} LetterRunAll(s: string)
    ensures LetterRun(s) == |s| <==> forall i :: 0 <= i < |s| ==> IsAsciiLetter(s[i])
  {
    if s != [] {
      LetterRunAll(s[1..]);
      if forall i :: 0 <= i < |s| ==> IsAsciiLetter(s[i]) {
        forall i | 0 <= i < |s[1..]| ensures IsAsciiLetter(s[1..][i]) {
          assert s[1..][i] == s[i + 1];
        }
      }
      if IsAsciiLetter(s[0]) && forall i :: 0 <= i < |s[1..]| ==> IsAsciiLetter(s[1..][i]) {
        forall i | 0 <= i < |s| ensures IsAsciiLetter(s[i]) {
          if i > 0 { assert s[i] == s[1..][i - 1]; }
        }
      }
    }
  }

  lemma {:induction false} NoWordAfterWord(s: string, isWord: WordClass)
    requires forall i :: 0 <= i < |s| ==> isWord(s[i])
    ensures WordsFrom(s, true, isWord) == 0
  {
    if s != [] {
      if IsAsciiLetter(s[0]) {
        var rest := s[LetterRun(s)..];
        NoWordAfterWord(rest, isWord);
      } else {
        NoWordAfterWord(s[1..], isWord);
      }
    }
  }

  /** An ASCII-letter run glued to another word character (a digit, an
      underscore, an ideograph) is not an English word: a text made only of word
      characters holds one English word if it is all ASCII letters, else none. */
  lemma GluedRunIsNotAWord(text: string, isWord: WordClass)
    requires forall i :: 0 <= i < |text| ==> isWord(text[i])
    ensures EnglishWordCount(text, isWord)
            == if text != [] && forall i :: 0 <= i < |text| ==> IsAsciiLetter(text[i]) then 1 else 0
  {
    LetterRunAll(text);
    if text != [] {
      if IsAsciiLetter(text[0]) {
        var rest := text[LetterRun(text)..];
        NoWordAfterWord(rest, isWord);
        if rest != [] {
          assert rest[0] == text[LetterRun(text)];
          assert !IsAsciiLetter(text[LetterRun(text)]) by {
            RunStopsAtNonLetter(text);
          }
        }
      } else {
        NoWordAfterWord(text[1..], isWord);
      }
    }
  }

  lemma {:induction false} RunStopsAtNonLetter(s: string)
    ensures LetterRun(s) < |s| ==> !IsAsciiLetter(s[LetterRun(s)])
  {
    if s != [] && IsAsciiLetter(s[0]) {
      RunStopsAtNonLetter(s[1..]);
    }
  }
}
