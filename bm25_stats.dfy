/** The counting tables of the BM25 index: the per-document term-frequency
    table, the document-frequency table, document lengths and their sums,
    each defined the way `_build_index` fills it and tied to an independent
    counting definition. */
module Bm25Stats {

  /** The number of occurrences of t in tokens. */
  function Count(tokens: seq<string>, t: string): nat
  {
    if tokens == [] then 0
    else Count(tokens[..|tokens| - 1], t) + (if tokens[|tokens| - 1] == t then 1 else 0)
  }

  /** The term counts of one document: every token adds 1 to its term's entry,
      an absent entry starting at 0. */
  function TermFreq(tokens: seq<string>): map<string, nat>
  {
    if tokens == [] then map[]
    else
      var m := TermFreq(tokens[..|tokens| - 1]);
      var x := tokens[|tokens| - 1];
      m[x := (if x in m then m[x] else 0) + 1]
  }

  /** m with 1 added to the entry of every term of s (absent entries start at 0):
      one document's contribution to the document frequencies, each distinct term once. */
  function AddOnce(m: map<string, nat>, s: set<string>): map<string, nat>
  {
    map t | t in m.Keys + s :: (if t in m then m[t] else 0) + (if t in s then 1 else 0)
  }

  function TokenSet(tokens: seq<string>): set<string>
  {
    set t | t in tokens
  }

  /** The df dict after indexing docs in order. */
  function DocFreq(docs: seq<seq<string>>): map<string, nat>
  {
    if docs == [] then map[] else AddOnce(DocFreq(docs[..|docs| - 1]), TokenSet(docs[|docs| - 1]))
  }

  /** The number of documents of docs that contain t. */
  function DocsContaining(docs: seq<seq<string>>, t: string): nat
  {
    if docs == [] then 0
    else DocsContaining(docs[..|docs| - 1], t) + (if t in docs[|docs| - 1] then 1 else 0)
  }

  function TermFreqs(docs: seq<seq<string>>): (r: seq<map<string, nat>>)
    ensures |r| == |docs|
  {
    seq(|docs|, i requires 0 <= i < |docs| => TermFreq(docs[i]))
  }

  function Lengths(docs: seq<seq<string>>): (r: seq<nat>)
    ensures |r| == |docs|
  {
    seq(|docs|, i requires 0 <= i < |docs| => |docs[i]|)
  }

  /** The total of a list of counts. */
  function Sum(xs: seq<nat>): nat
  {
    if xs == [] then 0 else Sum(xs[..|xs| - 1]) + xs[|xs| - 1]
  }

  /** The total of the counts a term map holds. */
  ghost function SumValues(m: map<string, nat>): nat
    decreases |m|
  {
    if m == map[] then 0
    else
      var k :| k in m;
      assert |m - {k}| < |m| by { assert (m - {k}).Keys == m.Keys - {k}; }
      m[k] + SumValues(m - {k})
  }

  // ---------------------------------------------------------------------------

  /** tf[d][t] counts the occurrences of t in document d, and the table has an
      entry exactly for the terms of the document. */
  lemma {:induction false} TermFreqCounts(tokens: seq<string>, t: string)
    ensures t in TermFreq(tokens) <==> t in tokens
    ensures t in TermFreq(tokens) ==> TermFreq(tokens)[t] == Count(tokens, t)
  {
    if tokens != [] {
      var init := tokens[..|tokens| - 1];
      TermFreqCounts(init, t);
      CountAbsent(init, t);
      assert tokens == init + [tokens[|tokens| - 1]];
    }
  }

  lemma {:induction false} CountAbsent(tokens: seq<string>, t: string)
    ensures t !in tokens ==> Count(tokens, t) == 0
  {
    if tokens != [] {
      CountAbsent(tokens[..|tokens| - 1], t);
      if t !in tokens {
        assert t !in tokens[..|tokens| - 1];
      }
    }
  }

  lemma {:induction false} DocsContainingAbsent(docs: seq<seq<string>>, t: string)
    requires forall i :: 0 <= i < |docs| ==> t !in docs[i]
    ensures DocsContaining(docs, t) == 0
  {
    if docs != [] {
      DocsContainingAbsent(docs[..|docs| - 1], t);
    }
  }

  /** df[t] is the number of documents containing t, and df has an entry exactly
      for the terms occurring somewhere, so 1 <= df[t] <= number of documents. */
  lemma {:induction false} DocFreqCounts(docs: seq<seq<string>>, t: string)
    ensures t in DocFreq(docs) <==> exists i :: 0 <= i < |docs| && t in docs[i]
    ensures t in DocFreq(docs) ==> DocFreq(docs)[t] == DocsContaining(docs, t)
    ensures t in DocFreq(docs) ==> 1 <= DocFreq(docs)[t] <= |docs|
  {
    if docs != [] {
      var init := docs[..|docs| - 1];
      DocFreqCounts(init, t);
      DocsContainingBound(init, t);
      if forall i :: 0 <= i < |init| ==> t !in init[i] {
        DocsContainingAbsent(init, t);
      }
      if exists i :: 0 <= i < |init| && t in init[i] {
        var i :| 0 <= i < |init| && t in init[i];
        assert docs[i] == init[i];
      }
      if exists i :: 0 <= i < |docs| && t in docs[i] {
        var i :| 0 <= i < |docs| && t in docs[i];
        if i < |init| { assert init[i] == docs[i]; }
      }
    }
  }

  lemma {:induction false} DocsContainingBound(docs: seq<seq<string>>, t: string)
    ensures DocsContaining(docs, t) <= |docs|
  {
    if docs != [] { DocsContainingBound(docs[..|docs| - 1], t); }
  }

  lemma {:induction false} SumValuesRemove(m: map<string, nat>, k: string)
    requires k in m
    ensures SumValues(m) == m[k] + SumValues(m - {k})
    decreases |m|
  {
    var k' :| k' in m && SumValues(m) == m[k'] + SumValues(m - {k'});
    if k' != k {
      assert |m - {k'}| < |m| by { assert (m - {k'}).Keys == m.Keys - {k'}; }
      assert |m - {k}| < |m| by { assert (m - {k}).Keys == m.Keys - {k}; }
      SumValuesRemove(m - {k'}, k);
      SumValuesRemove(m - {k}, k');
      assert (m - {k'}) - {k} == (m - {k}) - {k'};
    }
  }

  /** The term frequencies of a document add up to its length. */
  lemma {:induction false} SumTermFreq(tokens: seq<string>)
    ensures SumValues(TermFreq(tokens)) == |tokens|
  {
    if tokens != [] {
      var init := tokens[..|tokens| - 1];
      var m := TermFreq(init);
      var x := tokens[|tokens| - 1];
      var m' := TermFreq(tokens);
      SumTermFreq(init);
      SumValuesRemove(m', x);
      if x in m {
        SumValuesRemove(m, x);
        assert m' - {x} == m - {x};
      } else {
        assert m' - {x} == m;
      }
    }
  }

  /** One step of the df loop. */
  lemma TermFreqsStep(docs: seq<seq<string>>, d: nat)
    requires d < |docs|
    ensures TermFreqs(docs[..d + 1]) == TermFreqs(docs[..d]) + [TermFreq(docs[d])]
  {
  }

  lemma DocFreqStep(docs: seq<seq<string>>, d: nat)
    requires d < |docs|
    ensures DocFreq(docs[..d + 1]) == AddOnce(DocFreq(docs[..d]), TokenSet(docs[d]))
  {
    assert docs[..d + 1][..d] == docs[..d];
  }

  lemma AddOnceStep(m: map<string, nat>, s: set<string>, t: string)
    requires t !in s
    ensures AddOnce(m, s)[t := (if t in AddOnce(m, s) then AddOnce(m, s)[t] else 0) + 1]
            == AddOnce(m, s + {t})
  {
  }

  lemma {:induction false} SumPositive(xs: seq<nat>, i: nat)
    requires i < |xs|
    ensures Sum(xs) >= xs[i]
  {
    if i < |xs| - 1 {
      SumPositive(xs[..|xs| - 1], i);
    }
  }

  /** Adds up the counts of a term map one key at a time. */
  method SumOfValues(m: map<string, nat>) returns (s: nat)
    ensures s == SumValues(m)
  {
    var rest := m;
    s := 0;
    while rest != map[]
      invariant s + SumValues(rest) == SumValues(m)
      decreases |rest|
    {
      var k :| k in rest;
      SumValuesRemove(rest, k);
      assert (rest - {k}).Keys == rest.Keys - {k};
      s := s + rest[k];
      rest := rest - {k};
    }
  }
}
