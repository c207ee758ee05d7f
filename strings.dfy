/** Python string and list primitives the retrieval core relies on, written out
    with the semantics of CPython 3: joining, decimal rendering of integers,
    negative-index slicing, Unicode whitespace and the case mapping of str.lower
    on the characters the core keeps. */
module Strings {

  /** The strings written one after another. */
  function Concat(ss: seq<string>): string
  {
    if ss == [] then "" else Concat(ss[..|ss| - 1]) + ss[|ss| - 1]
  }

  /** The strings written one after another with sep between neighbours. */
  function Join(sep: string, ss: seq<string>): string
  {
    if |ss| == 0 then ""
    else if |ss| == 1 then ss[0]
    else Join(sep, ss[..|ss| - 1]) + sep + ss[|ss| - 1]
  }

  /** The concatenation of a list of lists. */
  function Flatten<T>(xss: seq<seq<T>>): seq<T>
  {
    if xss == [] then [] else Flatten(xss[..|xss| - 1]) + xss[|xss| - 1]
  }

  lemma ConcatAppend(ss: seq<string>, ts: seq<string>)
    ensures Concat(ss + ts) == Concat(ss) + Concat(ts)
  {
    if ts != [] {
      assert (ss + ts)[..|ss + ts| - 1] == ss + ts[..|ts| - 1];
      ConcatAppend(ss, ts[..|ts| - 1]);
    } else {
      assert ss + ts == ss;
    }
  }

  lemma FlattenAppend<T>(xss: seq<seq<T>>, yss: seq<seq<T>>)
    ensures Flatten(xss + yss) == Flatten(xss) + Flatten(yss)
  {
    if yss != [] {
      assert (xss + yss)[..|xss + yss| - 1] == xss + yss[..|yss| - 1];
      FlattenAppend(xss, yss[..|yss| - 1]);
    } else {
      assert xss + yss == xss;
    }
  }

  /** s followed by one more element of t. */
  lemma PrefixStep<T>(s: seq<T>, t: seq<T>, i: nat)
    requires i < |t|
    ensures s + t[..i + 1] == (s + t[..i]) + [t[i]]
  {
    assert t[..i + 1] == t[..i] + [t[i]];
  }

  /** Dropping one more element from the front. */
  lemma SuffixStep<T>(s: seq<T>, n: nat)
    requires n < |s|
    ensures s[n + 1..] == s[n..][1..]
  {
  }

  /** Flattening a prefix one list longer. */
  lemma FlattenPrefixStep<T>(xss: seq<seq<T>>, d: nat)
    requires d < |xss|
    ensures Flatten(xss[..d + 1]) == Flatten(xss[..d]) + xss[d]
  {
    assert xss[..d + 1][..d] == xss[..d];
  }

  lemma JoinAppend(sep: string, ss: seq<string>, s: string)
    requires ss != []
    ensures Join(sep, ss + [s]) == Join(sep, ss) + sep + s
  {
    assert (ss + [s])[..|ss + [s]| - 1] == ss;
  }

  /** A non-empty join ends with its last piece. */
  lemma JoinEndsWithLast(sep: string, ss: seq<string>)
    requires ss != []
    ensures EndsWith(Join(sep, ss), ss[|ss| - 1])
  {
    var j := Join(sep, ss);
    var last := ss[|ss| - 1];
    if |ss| > 1 {
      assert j == Join(sep, ss[..|ss| - 1]) + sep + last;
    }
    assert j[|j| - |last|..] == last;
  }

  // ---------------------------------------------------------------------------
  // Decimal rendering of integers

  function DigitChar(d: nat): char
    requires d < 10
  {
    ('0' as int + d) as char
  }

  /** The decimal text of a non-negative integer. */
  function Decimal(n: nat): (s: string)
    ensures |s| >= 1
    ensures forall i :: 0 <= i < |s| ==> '0' <= s[i] <= '9'
  {
    if n < 10 then [DigitChar(n)] else Decimal(n / 10) + [DigitChar(n % 10)]
  }

  /** The decimal text of any integer, with a minus sign when negative. */
  function IntText(i: int): string
  {
    if i < 0 then "-" + Decimal(-i) else Decimal(i)
  }

  /** The number a string of ASCII digits denotes: the inverse of Decimal. */
  function ParseDecimal(s: string): nat
    requires forall i :: 0 <= i < |s| ==> '0' <= s[i] <= '9'
  {
    if s == [] then 0
    else ParseDecimal(s[..|s| - 1]) * 10 + (s[|s| - 1] as int - '0' as int)
  }

  lemma {:induction false} DecimalRoundTrip(n: nat)
    ensures ParseDecimal(Decimal(n)) == n
  {
    if n >= 10 {
      DecimalRoundTrip(n / 10);
      var s := Decimal(n);
      assert s[..|s| - 1] == Decimal(n / 10);
    }
  }

  /** Distinct numbers render to distinct strings. */
  lemma DecimalInjective(m: nat, n: nat)
    requires Decimal(m) == Decimal(n)
    ensures m == n
  {
    DecimalRoundTrip(m);
    DecimalRoundTrip(n);
  }

  // ---------------------------------------------------------------------------
  // Characters

  /** Python's str.isspace(), which is also what \s matches in a str pattern and
      what str.split() and str.strip() treat as whitespace. */
  predicate IsSpace(c: char)
  {
    ('\t' <= c <= '\r') || ('\U{1C}' <= c <= '\U{1F}') || c == ' ' || c == '\U{85}'
    || c == '\U{A0}' || c == '\U{1680}' || ('\U{2000}' <= c <= '\U{200A}')
    || c == '\U{2028}' || c == '\U{2029}' || c == '\U{202F}' || c == '\U{205F}'
    || c == '\U{3000}'
  }

  predicate IsAsciiUpper(c: char) { 'A' <= c <= 'Z' }
  predicate IsAsciiLower(c: char) { 'a' <= c <= 'z' }
  predicate IsAsciiLetter(c: char) { IsAsciiUpper(c) || IsAsciiLower(c) }
  predicate IsAsciiDigit(c: char) { '0' <= c <= '9' }

  /** The string holds nothing but whitespace (the empty string included). */
  predicate IsBlank(s: string)
  {
    forall i :: 0 <= i < |s| ==> IsSpace(s[i])
  }

  predicate ContainsSpace(s: string)
  {
    exists i :: 0 <= i < |s| && IsSpace(s[i])
  }

  /** Python's lower-casing of one character, exact on every ASCII character, on U+0130
      (which lower-cases to "i" and a combining dot) and on the Kelvin sign
      U+212A (which lower-cases to "k"); every other character is left as it
      is (see README: the other non-ASCII case mappings only touch characters
      that the tokenizers strip). */
  function LowerChar(c: char): string
  {
    if IsAsciiUpper(c) then [(c as int + 32) as char]
    else if c == '\U{130}' then "i\U{307}"
    else if c == '\U{212A}' then "k"
    else [c]
  }

  function Lower(s: string): (r: string)
  {
    if s == [] then "" else Lower(s[..|s| - 1]) + LowerChar(s[|s| - 1])
  }

  lemma {:induction false} LowerHasNoAsciiUpper(s: string)
    ensures forall i :: 0 <= i < |Lower(s)| ==> !IsAsciiUpper(Lower(s)[i])
  {
    if s != [] {
      LowerHasNoAsciiUpper(s[..|s| - 1]);
      var a, b := Lower(s[..|s| - 1]), LowerChar(s[|s| - 1]);
      assert Lower(s) == a + b;
      forall i | 0 <= i < |a + b| ensures !IsAsciiUpper((a + b)[i]) {
        if i >= |a| { assert (a + b)[i] == b[i - |a|]; }
      }
    }
  }

  lemma {:induction false} LowerAppend(s: string, t: string)
    ensures Lower(s + t) == Lower(s) + Lower(t)
  {
    if t != [] {
      assert (s + t)[..|s + t| - 1] == s + t[..|t| - 1];
      LowerAppend(s, t[..|t| - 1]);
    } else {
      assert s + t == s;
    }
  }

  /** A string without upper-case ASCII letters and without the two other
      characters LowerChar maps is its own lower case. */
  lemma {:induction false} LowerOfLowercase(s: string)
    requires forall i :: 0 <= i < |s| ==> IsAsciiLower(s[i])
    ensures Lower(s) == s
  {
    if s != [] {
      LowerOfLowercase(s[..|s| - 1]);
    }
  }

  // ---------------------------------------------------------------------------
  // Python slicing and suffix tests

  /** The first k items, or all of them when there are fewer. */
  function Take<T>(xs: seq<T>, k: nat): (r: seq<T>)
    ensures |r| == if k < |xs| then k else |xs|
  {
    if k < |xs| then xs[..k] else xs
  }

  /** A suffix taken by a negative slice start: k > 0 keeps the last min(k, |xs|)
      items; k == 0 keeps the WHOLE list; k < 0 drops the first |k| items. */
  function PySuffix<T>(xs: seq<T>, k: int): seq<T>
  {
    if k > 0 then (if k >= |xs| then xs else xs[|xs| - k..])
    else if k == 0 then xs
    else (if -k >= |xs| then [] else xs[-k..])
  }

  lemma PySuffixShape<T>(xs: seq<T>, k: int)
    ensures k >= 1 ==> |PySuffix(xs, k)| == (if k < |xs| then k else |xs|)
    ensures k == 0 ==> PySuffix(xs, k) == xs
    ensures xs == xs[..|xs| - |PySuffix(xs, k)|] + PySuffix(xs, k)
  {
  }

  /** The string ends with the suffix. */
  predicate EndsWith(s: string, suffix: string)
  {
    |suffix| <= |s| && s[|s| - |suffix|..] == suffix
  }
}
