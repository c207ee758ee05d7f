/** Reciprocal Rank Fusion of retrieval results. Each retriever returns an
    insertion-ordered dictionary from a chunk key ("chunk_<point id>") to the
    chunk's text, metadata and 0-based rank; the fusion adds 1/(k + rank) for
    every list a key appears in and sorts the keys by the fused score,
    highest first. */
module Fusion {
  import opened Wrappers
  import opened Ranking
  import opened Strings

  /** A chunk's metadata dictionary (file name, knowledge base, ...). */
  type Metadata = map<string, string>

  /** One value of a retriever's result dictionary. */
  datatype Hit = Hit(text: string, metadata: Metadata, rank: int, score: real)

  /** One value of the fused dictionary. */
  datatype Fused = Fused(score: real, text: string, metadata: Metadata)

  /** The keys of an insertion-ordered dictionary, in order. */
  function Keys<V>(d: seq<(string, V)>): (ks: seq<string>)
    ensures |ks| == |d|
    ensures forall i :: 0 <= i < |d| ==> ks[i] == d[i].0
  {
    seq(|d|, i requires 0 <= i < |d| => d[i].0)
  }

  /** Where key id sits in the dictionary, if anywhere. */
  function IndexOf<V>(d: seq<(string, V)>, id: string): (r: Option<nat>)
    ensures r.Some? ==> r.value < |d| && d[r.value].0 == id
    ensures r.None? <==> id !in Keys(d)
  {
    if d == [] then None
    else if d[0].0 == id then Some(0)
    else match IndexOf(d[1..], id)
      case None => None
      case Some(j) => Some(j + 1)
  }

  /** The first position of id in keys, or |keys| when it does not occur. */
  function FirstIndex(keys: seq<string>, id: string): (r: nat)
    ensures id in keys ==> r < |keys| && keys[r] == id && forall j :: 0 <= j < r ==> keys[j] != id
    ensures id !in keys ==> r == |keys|
  {
    if keys == [] then 0
    else if id in keys[..|keys| - 1] then FirstIndex(keys[..|keys| - 1], id)
    else |keys| - 1 + (if keys[|keys| - 1] == id then 0 else 1)
  }

  // ---------------------------------------------------------------------------
  // The fused score

  /** No hit makes k + rank zero, so every 1.0/(k + rank) is defined. */
  predicate Divisible(hits: seq<(string, Hit)>, k: int)
  {
    forall i :: 0 <= i < |hits| ==> k + hits[i].1.rank != 0
  }

  /** What one hit adds to its chunk's fused score: the reciprocal of k plus its rank. */
  function Contribution(k: int, h: Hit): real
    requires k + h.rank != 0
  {
    1.0 / (k + h.rank) as real
  }

  /** The independent definition of the fused score of id: the sum of
      1/(k + rank) over the hits carrying id. */
  function ContributionSum(hits: seq<(string, Hit)>, id: string, k: int): real
    requires Divisible(hits, k)
  {
    if hits == [] then 0.0
    else
      ContributionSum(hits[..|hits| - 1], id, k)
      + (if hits[|hits| - 1].0 == id then Contribution(k, hits[|hits| - 1].1) else 0.0)
  }

  /** The entry with c added to its score. */
  function Bump(entry: (string, Fused), c: real): (e: (string, Fused))
    ensures e.0 == entry.0 && e.1.score == entry.1.score + c
    ensures e.1.text == entry.1.text && e.1.metadata == entry.1.metadata
  {
    (entry.0, entry.1.(score := entry.1.score + c))
  }

  /** Adds c to the fused score of id, creating its entry from h first when id is new. */
  function AddScore(ret: seq<(string, Fused)>, id: string, h: Hit, c: real): seq<(string, Fused)>
  {
    match IndexOf(ret, id)
    case Some(j) => ret[j := Bump(ret[j], c)]
    case None => ret + [(id, Fused(0.0 + c, h.text, h.metadata))]
  }

  lemma AddScoreExisting(ret: seq<(string, Fused)>, id: string, h: Hit, c: real, j: nat)
    requires IndexOf(ret, id) == Some(j)
    ensures AddScore(ret, id, h, c) == ret[j := Bump(ret[j], c)]
  {
  }

  lemma AddScoreNew(ret: seq<(string, Fused)>, id: string, h: Hit, c: real)
    requires IndexOf(ret, id) == None
    ensures id !in Keys(ret)
    ensures AddScore(ret, id, h, c) == ret + [(id, Fused(0.0 + c, h.text, h.metadata))]
  {
  }

  /** The dictionary ret after the given hits, before sorting. */
  function Accumulate(hits: seq<(string, Hit)>, k: int): Result<seq<(string, Fused)>>
  {
    if hits == [] then Ok([])
    else
      match Accumulate(hits[..|hits| - 1], k)
      case Err(e) => Err(e)
      case Ok(ret) =>
        var (id, h) := hits[|hits| - 1];
        if k + h.rank == 0 then Err(ZeroDivision)
        else Ok(AddScore(ret, id, h, Contribution(k, h)))
  }

  /** The fused scores, in dictionary order. */
  function Scores(ret: seq<(string, Fused)>): (s: seq<real>)
    ensures |s| == |ret|
    ensures forall i :: 0 <= i < |ret| ==> s[i] == ret[i].1.score
  {
    seq(|ret|, i requires 0 <= i < |ret| => ret[i].1.score)
  }

  /** The fused entries ordered by descending score, ties kept in first-seen order. */
  function SortedByScore(ret: seq<(string, Fused)>): (r: seq<(string, Fused)>)
    ensures |r| == |ret|
  {
    var p := Order(Scores(ret));
    OrderIsRanking(Scores(ret));
    Arrange(ret, p)
  }

  /** Reciprocal rank fusion of several ranked lists with smoothing constant k. */
  function RrfOf(ranks: seq<seq<(string, Hit)>>, k: int): Result<seq<(string, Fused)>>
  {
    match Accumulate(Flatten(ranks), k)
    case Err(e) => Err(e)
    case Ok(ret) => Ok(SortedByScore(ret))
  }

  lemma AccumulateAppend(hits: seq<(string, Hit)>, x: (string, Hit), k: int)
    ensures Accumulate(hits + [x], k) ==
      match Accumulate(hits, k)
      case Err(e) => Err(e)
      case Ok(ret) => if k + x.1.rank == 0 then Err(ZeroDivision) else Ok(AddScore(ret, x.0, x.1, Contribution(k, x.1)))
  {
    assert (hits + [x])[..|hits|] == hits;
  }

  /** The hit at position i of list d sits right after the hits of the
      lists before d. */
  lemma AllHitsAt(ranks: seq<seq<(string, Hit)>>, d: nat, i: nat)
    requires d < |ranks| && i < |ranks[d]|
    ensures |Flatten(ranks[..d])| + i < |Flatten(ranks)|
    ensures Flatten(ranks)[|Flatten(ranks[..d])| + i] == ranks[d][i]
  {
    assert ranks == ranks[..d + 1] + ranks[d + 1..];
    FlattenAppend(ranks[..d + 1], ranks[d + 1..]);
    FlattenPrefixStep(ranks, d);
  }

  /** The accumulation succeeds exactly when no k + rank is zero, and its
      only failure is the division by zero. */
  lemma {:induction false} AccumulateOk(hits: seq<(string, Hit)>, k: int)
    ensures Accumulate(hits, k).Ok? <==> Divisible(hits, k)
    ensures Accumulate(hits, k).Err? ==> Accumulate(hits, k) == Err(ZeroDivision)
  {
    if hits != [] {
      var init := hits[..|hits| - 1];
      AccumulateOk(init, k);
      if !Divisible(init, k) {
        var i :| 0 <= i < |init| && k + init[i].1.rank == 0;
        assert hits[i] == init[i];
      }
    }
  }

  /** The body of rrf's inner loop for one hit: create the entry with score
      0 when the key is new, then add 1.0/(k + rank) to it. */
  method AddContribution(ret: seq<(string, Fused)>, id: string, val: Hit, k: int)
    returns (ret': seq<(string, Fused)>)
    requires k + val.rank != 0
    ensures ret' == AddScore(ret, id, val, Contribution(k, val))
  {
    ret' := ret;
    if IndexOf(ret', id).None? {
      ret' := ret' + [(id, Fused(0.0, val.text, val.metadata))];
      assert ret'[|ret|].0 == id;
      assert id in Keys(ret');
    }
    var j := IndexOf(ret', id).value;
    ret' := ret'[j := (id, ret'[j].1.(score := ret'[j].1.score + 1.0 / (k + val.rank) as real))];
  }

  /** rrf as the nested loops it is. */
  method Rrf(ranks: seq<seq<(string, Hit)>>, k: int) returns (r: Result<seq<(string, Fused)>>)
    ensures r == RrfOf(ranks, k)
  {
    var ret: seq<(string, Fused)> := [];
    var d := 0;
    while d < |ranks|
      invariant 0 <= d <= |ranks|
      invariant Accumulate(Flatten(ranks[..d]), k) == Ok(ret)
    {
      var rank := ranks[d];
      ghost var seen := Flatten(ranks[..d]);
      assert seen + rank[..0] == seen;
      var i := 0;
      while i < |rank|
        invariant 0 <= i <= |rank|
        invariant Accumulate(seen + rank[..i], k) == Ok(ret)
      {
        var (id, val) := rank[i];
        if k + val.rank == 0 {
          AllHitsAt(ranks, d, i);
          AccumulateOk(Flatten(ranks), k);
          return Err(ZeroDivision);
        }
        AccumulateAppend(seen + rank[..i], rank[i], k);
        PrefixStep(seen, rank, i);
        ret := AddContribution(ret, id, val, k);
        i := i + 1;
      }
      FlattenPrefixStep(ranks, d);
      assert rank[..|rank|] == rank;
      d := d + 1;
    }
    assert ranks[..|ranks|] == ranks;
    r := Ok(SortedByScore(ret));
  }

  // ---------------------------------------------------------------------------
  // What the accumulated dictionary holds

  /** The entry was created from the first hit carrying its key. */
  predicate FromFirst(hits: seq<(string, Hit)>, entry: (string, Fused))
  {
    var f := FirstIndex(Keys(hits), entry.0);
    f < |hits| && entry.1.text == hits[f].1.text && entry.1.metadata == hits[f].1.metadata
  }

  /** The dictionary's keys are the hits' keys. */
  ghost predicate SameKeys(hits: seq<(string, Hit)>, ret: seq<(string, Fused)>)
  {
    forall id :: id in Keys(ret) <==> id in Keys(hits)
  }

  /** The dictionary's keys are in order of first appearance (hence each
      occurs once). */
  predicate FirstAppearanceOrder(hits: seq<(string, Hit)>, ret: seq<(string, Fused)>)
  {
    forall a, b :: 0 <= a < b < |ret| ==> FirstIndex(Keys(hits), ret[a].0) < FirstIndex(Keys(hits), ret[b].0)
  }

  /** Each score is the sum of its key's contributions. */
  predicate ScoresAreSums(hits: seq<(string, Hit)>, k: int, ret: seq<(string, Fused)>)
    requires Divisible(hits, k)
  {
    forall j :: 0 <= j < |ret| ==> ret[j].1.score == ContributionSum(hits, ret[j].0, k)
  }

  /** Text and metadata come from each key's first hit. */
  predicate EntriesFromFirst(hits: seq<(string, Hit)>, ret: seq<(string, Fused)>)
  {
    forall j :: 0 <= j < |ret| ==> FromFirst(hits, ret[j])
  }

  /** The dictionary after the hits: its keys are the hits' keys, each once,
      in order of first appearance; each score is the sum of the key's
      contributions; text and metadata come from the key's first hit. */
  ghost predicate Accumulated(hits: seq<(string, Hit)>, k: int, ret: seq<(string, Fused)>)
  {
    && Divisible(hits, k)
    && SameKeys(hits, ret)
    && FirstAppearanceOrder(hits, ret)
    && ScoresAreSums(hits, k, ret)
    && EntriesFromFirst(hits, ret)
  }

  lemma ContributionSumAbsent(hits: seq<(string, Hit)>, id: string, k: int)
    requires Divisible(hits, k) && id !in Keys(hits)
    ensures ContributionSum(hits, id, k) == 0.0
  {
    if hits != [] {
      var init := hits[..|hits| - 1];
      assert Keys(init) == Keys(hits)[..|hits| - 1];
      ContributionSumAbsent(init, id, k);
    }
  }

  lemma KeysAppend<V>(d: seq<(string, V)>, x: (string, V))
    ensures Keys(d + [x]) == Keys(d) + [x.0]
  {
  }

  /** Updating a value leaves the keys as they are. */
  lemma KeysUpdate<V>(d: seq<(string, V)>, j: nat, e: (string, V))
    requires j < |d| && e.0 == d[j].0
    ensures Keys(d[j := e]) == Keys(d)
  {
    var d' := d[j := e];
    assert forall i :: 0 <= i < |d| ==> Keys(d')[i] == Keys(d)[i];
  }

  /** A later hit does not move a key's first appearance, and a new key
      first appears at the end. */
  lemma FirstIndexAppend(keys: seq<string>, x: string, id: string)
    ensures id in keys ==> FirstIndex(keys + [x], id) == FirstIndex(keys, id)
    ensures id !in keys && id == x ==> FirstIndex(keys + [x], id) == |keys|
  {
    assert (keys + [x])[..|keys|] == keys;
  }

  lemma StepKeys(hits: seq<(string, Hit)>, x: (string, Hit), ret: seq<(string, Fused)>, ret': seq<(string, Fused)>)
    requires SameKeys(hits, ret)
    requires Keys(ret') == Keys(ret) || Keys(ret') == Keys(ret) + [x.0]
    requires x.0 in Keys(ret) || Keys(ret') == Keys(ret) + [x.0]
    ensures SameKeys(hits + [x], ret')
  {
    KeysAppend(hits, x);
  }

  lemma StepOrderOld(hits: seq<(string, Hit)>, x: (string, Hit), ret: seq<(string, Fused)>, ret': seq<(string, Fused)>)
    requires SameKeys(hits, ret) && FirstAppearanceOrder(hits, ret)
    requires Keys(ret') == Keys(ret)
    ensures FirstAppearanceOrder(hits + [x], ret')
  {
    KeysAppend(hits, x);
    forall a, b | 0 <= a < b < |ret'|
      ensures FirstIndex(Keys(hits + [x]), ret'[a].0) < FirstIndex(Keys(hits + [x]), ret'[b].0)
    {
      assert ret[a].0 in Keys(ret) && ret[b].0 in Keys(ret);
      FirstIndexAppend(Keys(hits), x.0, ret[a].0);
      FirstIndexAppend(Keys(hits), x.0, ret[b].0);
    }
  }

  lemma StepOrderNew(hits: seq<(string, Hit)>, x: (string, Hit), ret: seq<(string, Fused)>, ret': seq<(string, Fused)>)
    requires SameKeys(hits, ret) && FirstAppearanceOrder(hits, ret)
    requires x.0 !in Keys(ret) && Keys(ret') == Keys(ret) + [x.0]
    ensures FirstAppearanceOrder(hits + [x], ret')
  {
    KeysAppend(hits, x);
    FirstIndexAppend(Keys(hits), x.0, x.0);
    forall a, b | 0 <= a < b < |ret'|
      ensures FirstIndex(Keys(hits + [x]), ret'[a].0) < FirstIndex(Keys(hits + [x]), ret'[b].0)
    {
      assert Keys(ret')[a] == ret'[a].0 && Keys(ret')[b] == ret'[b].0;
      assert ret[a].0 in Keys(ret);
      FirstIndexAppend(Keys(hits), x.0, ret[a].0);
      if b < |ret| {
        assert ret[b].0 in Keys(ret);
        FirstIndexAppend(Keys(hits), x.0, ret[b].0);
      }
    }
  }

  lemma StepFirstOld(hits: seq<(string, Hit)>, x: (string, Hit), ret: seq<(string, Fused)>, ret': seq<(string, Fused)>)
    requires SameKeys(hits, ret) && EntriesFromFirst(hits, ret)
    requires |ret'| == |ret|
    requires forall i :: 0 <= i < |ret| ==> ret'[i].0 == ret[i].0 && ret'[i].1.text == ret[i].1.text && ret'[i].1.metadata == ret[i].1.metadata
    ensures EntriesFromFirst(hits + [x], ret')
  {
    KeysAppend(hits, x);
    forall i | 0 <= i < |ret'| ensures FromFirst(hits + [x], ret'[i]) {
      assert ret[i].0 in Keys(ret);
      assert FromFirst(hits, ret[i]);
      FirstIndexAppend(Keys(hits), x.0, ret[i].0);
      assert (hits + [x])[FirstIndex(Keys(hits), ret[i].0)] == hits[FirstIndex(Keys(hits), ret[i].0)];
    }
  }

  lemma StepFirstNew(hits: seq<(string, Hit)>, x: (string, Hit), ret: seq<(string, Fused)>)
    requires SameKeys(hits, ret) && EntriesFromFirst(hits, ret)
    requires x.0 !in Keys(ret)
    ensures forall c: real :: EntriesFromFirst(hits + [x], ret + [(x.0, Fused(c, x.1.text, x.1.metadata))])
  {
    KeysAppend(hits, x);
    FirstIndexAppend(Keys(hits), x.0, x.0);
    forall c: real ensures EntriesFromFirst(hits + [x], ret + [(x.0, Fused(c, x.1.text, x.1.metadata))]) {
      var ret' := ret + [(x.0, Fused(c, x.1.text, x.1.metadata))];
      forall i | 0 <= i < |ret'| ensures FromFirst(hits + [x], ret'[i]) {
        if i < |ret| {
          assert ret[i].0 in Keys(ret);
          assert FromFirst(hits, ret[i]);
          FirstIndexAppend(Keys(hits), x.0, ret[i].0);
          assert (hits + [x])[FirstIndex(Keys(hits), ret[i].0)] == hits[FirstIndex(Keys(hits), ret[i].0)];
        }
      }
    }
  }

  lemma ContributionSumAppend(hits: seq<(string, Hit)>, x: (string, Hit), k: int, id: string)
    requires Divisible(hits, k) && k + x.1.rank != 0 && Divisible(hits + [x], k)
    ensures ContributionSum(hits + [x], id, k)
      == ContributionSum(hits, id, k) + (if x.0 == id then Contribution(k, x.1) else 0.0)
  {
    assert (hits + [x])[..|hits|] == hits;
  }

  lemma StepScoresOld(hits: seq<(string, Hit)>, x: (string, Hit), k: int, ret: seq<(string, Fused)>, j: nat,
                      ret': seq<(string, Fused)>)
    requires Divisible(hits, k) && k + x.1.rank != 0 && Divisible(hits + [x], k)
    requires ScoresAreSums(hits, k, ret) && FirstAppearanceOrder(hits, ret)
    requires j < |ret| && ret[j].0 == x.0
    requires ret' == ret[j := Bump(ret[j], Contribution(k, x.1))]
    ensures ScoresAreSums(hits + [x], k, ret')
  {
    forall i | 0 <= i < |ret'| ensures ret'[i].1.score == ContributionSum(hits + [x], ret'[i].0, k) {
      ContributionSumAppend(hits, x, k, ret'[i].0);
      if i < j {
        assert FirstIndex(Keys(hits), ret[i].0) < FirstIndex(Keys(hits), ret[j].0);
      } else if i > j {
        assert FirstIndex(Keys(hits), ret[j].0) < FirstIndex(Keys(hits), ret[i].0);
      }
    }
  }

  lemma StepScoresNew(hits: seq<(string, Hit)>, x: (string, Hit), k: int, ret: seq<(string, Fused)>,
                      ret': seq<(string, Fused)>)
    requires Divisible(hits, k) && k + x.1.rank != 0 && Divisible(hits + [x], k)
    requires ScoresAreSums(hits, k, ret)
    requires x.0 !in Keys(ret) && x.0 !in Keys(hits)
    requires ret' == ret + [(x.0, Fused(0.0 + Contribution(k, x.1), x.1.text, x.1.metadata))]
    ensures ScoresAreSums(hits + [x], k, ret')
  {
    forall i | 0 <= i < |ret'| ensures ret'[i].1.score == ContributionSum(hits + [x], ret'[i].0, k) {
      ContributionSumAppend(hits, x, k, ret'[i].0);
      if i < |ret| {
        assert Keys(ret)[i] == ret[i].0;
      } else {
        ContributionSumAbsent(hits, x.0, k);
      }
    }
  }

  lemma DivisibleAppend(hits: seq<(string, Hit)>, x: (string, Hit), k: int)
    requires Divisible(hits, k) && k + x.1.rank != 0
    ensures Divisible(hits + [x], k)
  {
  }

  /** A hit whose key is already in the dictionary keeps Accumulated. */
  lemma AccumulatedStepOld(hits: seq<(string, Hit)>, x: (string, Hit), k: int, ret: seq<(string, Fused)>, j: nat,
                           ret': seq<(string, Fused)>)
    requires Accumulated(hits, k, ret) && k + x.1.rank != 0
    requires IndexOf(ret, x.0) == Some(j)
    requires ret' == AddScore(ret, x.0, x.1, Contribution(k, x.1))
    ensures Accumulated(hits + [x], k, ret')
  {
    AddScoreExisting(ret, x.0, x.1, Contribution(k, x.1), j);
    DivisibleAppend(hits, x, k);
    KeysUpdate(ret, j, Bump(ret[j], Contribution(k, x.1)));
    assert Keys(ret)[j] == x.0;
    StepKeys(hits, x, ret, ret');
    StepOrderOld(hits, x, ret, ret');
    StepFirstOld(hits, x, ret, ret');
    StepScoresOld(hits, x, k, ret, j, ret');
  }

  /** A hit with a new key keeps Accumulated. */
  lemma AccumulatedStepNew(hits: seq<(string, Hit)>, x: (string, Hit), k: int, ret: seq<(string, Fused)>,
                           ret': seq<(string, Fused)>)
    requires Accumulated(hits, k, ret) && k + x.1.rank != 0
    requires IndexOf(ret, x.0) == None
    requires ret' == AddScore(ret, x.0, x.1, Contribution(k, x.1))
    ensures Accumulated(hits + [x], k, ret')
  {
    AddScoreNew(ret, x.0, x.1, Contribution(k, x.1));
    DivisibleAppend(hits, x, k);
    KeysAppend(ret, ret'[|ret|]);
    StepKeys(hits, x, ret, ret');
    StepOrderNew(hits, x, ret, ret');
    StepFirstNew(hits, x, ret);
    StepScoresNew(hits, x, k, ret, ret');
  }

  /** One step of the accumulation keeps Accumulated. */
  lemma AccumulatedStep(hits: seq<(string, Hit)>, x: (string, Hit), k: int, ret: seq<(string, Fused)>,
                        ret': seq<(string, Fused)>)
    requires Accumulated(hits, k, ret) && k + x.1.rank != 0
    requires ret' == AddScore(ret, x.0, x.1, Contribution(k, x.1))
    ensures Accumulated(hits + [x], k, ret')
  {
    match IndexOf(ret, x.0)
    case Some(j) => AccumulatedStepOld(hits, x, k, ret, j, ret');
    case None => AccumulatedStepNew(hits, x, k, ret, ret');
  }

  /** When the accumulation succeeds its dictionary is Accumulated. */
  lemma {:induction false} AccumulateFacts(hits: seq<(string, Hit)>, k: int)
    ensures Accumulate(hits, k).Ok? ==> Accumulated(hits, k, Accumulate(hits, k).value)
  {
    if hits != [] {
      var init, x := hits[..|hits| - 1], hits[|hits| - 1];
      AccumulateFacts(init, k);
      AccumulateAppend(init, x, k);
      assert hits == init + [x];
      if Accumulate(init, k).Ok? && k + x.1.rank != 0 {
        AccumulatedStep(init, x, k, Accumulate(init, k).value, Accumulate(hits, k).value);
      }
    }
  }

  // ---------------------------------------------------------------------------
  // rrf

  /** Sorting keeps exactly the entries: entry j of the sorted dictionary
      is entry p[j] of the unsorted one, each entry appearing once. */
  lemma SortedEntries(ret: seq<(string, Fused)>)
    ensures var r, p := SortedByScore(ret), Order(Scores(ret));
      && IsRanking(Scores(ret), p)
      && (forall j :: 0 <= j < |r| ==> r[j] == ret[p[j]])
      && (forall id :: id in Keys(r) <==> id in Keys(ret))
  {
    var keys := Scores(ret);
    var p := Order(keys);
    OrderIsRanking(keys);
    var r := SortedByScore(ret);
    forall id | id in Keys(r) ensures id in Keys(ret) {
      var j :| 0 <= j < |r| && Keys(r)[j] == id;
      assert Keys(ret)[p[j]] == id;
    }
    forall id | id in Keys(ret) ensures id in Keys(r) {
      var j :| 0 <= j < |ret| && Keys(ret)[j] == id;
      assert j in p;
      var m :| 0 <= m < |p| && p[m] == j;
      assert Keys(r)[m] == id;
    }
  }

  /** The sorted dictionary is in non-increasing score, equal scores in the
      unsorted dictionary's order, which for an accumulated dictionary is the
      order of first appearance. */
  lemma SortedOrder(hits: seq<(string, Hit)>, ret: seq<(string, Fused)>)
    requires FirstAppearanceOrder(hits, ret)
    ensures var r := SortedByScore(ret);
      && (forall a, b :: 0 <= a < b < |r| ==> r[a].0 != r[b].0)
      && (forall a, b :: 0 <= a < b < |r| ==>
            r[a].1.score > r[b].1.score
            || (r[a].1.score == r[b].1.score && FirstIndex(Keys(hits), r[a].0) < FirstIndex(Keys(hits), r[b].0)))
  {
    SortedEntries(ret);
    var keys := Scores(ret);
    var p := Order(keys);
    var r := SortedByScore(ret);
    forall a, b | 0 <= a < b < |r|
      ensures r[a].0 != r[b].0
      ensures r[a].1.score > r[b].1.score
          || (r[a].1.score == r[b].1.score && FirstIndex(Keys(hits), r[a].0) < FirstIndex(Keys(hits), r[b].0))
    {
      assert Precedes(keys, p[a], p[b]);
      if p[a] < p[b] {
        assert FirstIndex(Keys(hits), ret[p[a]].0) < FirstIndex(Keys(hits), ret[p[b]].0);
      } else {
        assert FirstIndex(Keys(hits), ret[p[b]].0) < FirstIndex(Keys(hits), ret[p[a]].0);
      }
    }
  }

  /** Sorting keeps each entry's score, text and metadata. */
  lemma SortedValues(hits: seq<(string, Hit)>, k: int, ret: seq<(string, Fused)>)
    requires Divisible(hits, k) && ScoresAreSums(hits, k, ret) && EntriesFromFirst(hits, ret)
    ensures ScoresAreSums(hits, k, SortedByScore(ret)) && EntriesFromFirst(hits, SortedByScore(ret))
  {
    SortedEntries(ret);
  }

  /** rrf fails (ZeroDivisionError) exactly when some hit has k + rank == 0.
      Otherwise its keys are the union of the lists' keys, each once; each
      score is the sum of 1/(k + rank) over the lists; text and metadata come
      from the first list in which the key appears; and the keys are in
      non-increasing score, equal scores in order of first appearance. */
  lemma RrfFacts(ranks: seq<seq<(string, Hit)>>, k: int)
    ensures RrfOf(ranks, k).Ok? <==> Divisible(Flatten(ranks), k)
    ensures RrfOf(ranks, k).Ok? ==>
      var hits, r := Flatten(ranks), RrfOf(ranks, k).value;
      && (forall id :: id in Keys(r) <==> id in Keys(hits))
      && (forall a, b :: 0 <= a < b < |r| ==> r[a].0 != r[b].0)
      && (forall j :: 0 <= j < |r| ==> r[j].1.score == ContributionSum(hits, r[j].0, k))
      && (forall j :: 0 <= j < |r| ==> FromFirst(hits, r[j]))
      && (forall a, b :: 0 <= a < b < |r| ==>
            r[a].1.score > r[b].1.score
            || (r[a].1.score == r[b].1.score && FirstIndex(Keys(hits), r[a].0) < FirstIndex(Keys(hits), r[b].0)))
  {
    var hits := Flatten(ranks);
    AccumulateOk(hits, k);
    AccumulateFacts(hits, k);
    if Accumulate(hits, k).Ok? {
      var ret := Accumulate(hits, k).value;
      SortedEntries(ret);
      SortedOrder(hits, ret);
      SortedValues(hits, k, ret);
    }
  }

  /** The fused dictionary of a single list whose keys are distinct and whose
      ranks are 0..n-1 in dictionary order, with k >= 1. */
  function SingleListFused(rank: seq<(string, Hit)>, k: int): (r: seq<(string, Fused)>)
    requires k >= 1
    ensures |r| == |rank|
  {
    seq(|rank|, i requires 0 <= i < |rank| =>
      (rank[i].0, Fused(0.0 + 1.0 / (k + i) as real, rank[i].1.text, rank[i].1.metadata)))
  }

  predicate DistinctKeys<V>(d: seq<(string, V)>)
  {
    forall a, b :: 0 <= a < b < |d| ==> d[a].0 != d[b].0
  }

  lemma {:induction false} AccumulateSingleList(rank: seq<(string, Hit)>, k: int)
    requires k >= 1 && DistinctKeys(rank)
    requires forall i :: 0 <= i < |rank| ==> rank[i].1.rank == i
    ensures Accumulate(rank, k) == Ok(SingleListFused(rank, k))
  {
    if rank != [] {
      var init, x := rank[..|rank| - 1], rank[|rank| - 1];
      AccumulateSingleList(init, k);
      assert rank == init + [x];
      AccumulateAppend(init, x, k);
      var ret := SingleListFused(init, k);
      assert x.0 !in Keys(ret);
      AddScoreNew(ret, x.0, x.1, Contribution(k, x.1));
      SingleListFusedStep(rank, k);
    }
  }

  lemma SingleListFusedStep(rank: seq<(string, Hit)>, k: int)
    requires k >= 1 && rank != []
    ensures SingleListFused(rank, k) == SingleListFused(rank[..|rank| - 1], k) +
      [(rank[|rank| - 1].0, Fused(0.0 + 1.0 / (k + |rank| - 1) as real, rank[|rank| - 1].1.text, rank[|rank| - 1].1.metadata))]
  {
  }

  /** A single list whose ranks are 0..n-1 in dictionary order (as every
      retriever here produces) keeps its order through rrf, with scores
      1/(k + rank). */
  lemma RrfSingleList(rank: seq<(string, Hit)>, k: int)
    requires k >= 1 && DistinctKeys(rank)
    requires forall i :: 0 <= i < |rank| ==> rank[i].1.rank == i
    ensures RrfOf([rank], k) == Ok(SingleListFused(rank, k))
  {
    assert [rank][..0] == [];
    assert Flatten([rank]) == rank;
    AccumulateSingleList(rank, k);
    var ret := SingleListFused(rank, k);
    assert Accumulate(Flatten([rank]), k) == Ok(ret);
    var keys := Scores(ret);
    SingleListScoresDecrease(rank, k);
    OrderOfNonIncreasing(keys);
    assert SortedByScore(ret) == ret;
  }

  lemma SingleListScoresDecrease(rank: seq<(string, Hit)>, k: int)
    requires k >= 1
    ensures var keys := Scores(SingleListFused(rank, k));
      forall a, b :: 0 <= a < b < |keys| ==> keys[a] >= keys[b]
  {
    var keys := Scores(SingleListFused(rank, k));
    forall a, b | 0 <= a < b < |keys| ensures keys[a] >= keys[b] {
      ReciprocalDecreasing(k + a, k + b);
    }
  }

  lemma ReciprocalDecreasing(m: int, n: int)
    requires 1 <= m <= n
    ensures 1.0 / m as real >= 1.0 / n as real
  {
    var x, y := m as real, n as real;
    assert 1.0 / x - 1.0 / y == (y - x) / (x * y);
  }
}
