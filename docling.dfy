/** Table extraction from converted documents: the tables of all documents
    are collected in order, and a table without a header of its own (its
    column labels are just 0..n-1) that has as many columns as the table
    collected before it is taken to continue that table across a page break,
    so its rows are appended to it under the earlier table's labels. */
module Docling {
  import opened Strings
  import opened Frames

  /** Table t continues the table collected before it: t's labels are the
      default 0..n-1 and both have the same number of columns. Only the
      column labels of the two tables matter. */
  predicate Continues(previous: Table, t: Table)
  {
    DefaultLabels(t.columns) && |previous.columns| == |t.columns|
  }

  /** The continuation t appended below previous, under previous's column labels. */
  function Concatenated(previous: Table, t: Table): (r: Table)
    ensures r.columns == previous.columns && r.rows == previous.rows + t.rows
  {
    Table(previous.columns, previous.rows + t.rows)
  }

  /** One step of extract_tables: t is merged into the last collected table
      or appended after it. */
  function MergeInto(collected: seq<Table>, t: Table): seq<Table>
  {
    if collected != [] && Continues(collected[|collected| - 1], t)
    then collected[..|collected| - 1] + [Concatenated(collected[|collected| - 1], t)]
    else collected + [t]
  }

  /** The tables extract_tables returns for the tables ts, in document order. */
  function MergeAll(ts: seq<Table>): seq<Table>
  {
    if ts == [] then [] else MergeInto(MergeAll(ts[..|ts| - 1]), ts[|ts| - 1])
  }

  lemma MergeAllAppend(ts: seq<Table>, t: Table)
    ensures MergeAll(ts + [t]) == MergeInto(MergeAll(ts), t)
  {
    assert (ts + [t])[..|ts|] == ts;
  }

  /** The body of extract_tables's inner loop for one table: pop the last
      collected table and push it back merged with t, or push t. */
  method Collect(allTables: seq<Table>, table: Table) returns (r: seq<Table>)
    ensures r == MergeInto(allTables, table)
  {
    if allTables != [] && DefaultLabels(table.columns)
      && |allTables[|allTables| - 1].columns| == |table.columns|
    {
      var last := allTables[|allTables| - 1];
      var merged := Table(last.columns, last.rows + table.rows);
      r := allTables[..|allTables| - 1];
      r := r + [merged];
    } else {
      r := allTables + [table];
    }
  }

  /** Table extraction over a list of converted documents, each document given
      as its exported tables. */
  method ExtractTables(docs: seq<seq<Table>>) returns (allTables: seq<Table>)
    ensures allTables == MergeAll(Flatten(docs))
  {
    allTables := [];
    var d := 0;
    while d < |docs|
      invariant 0 <= d <= |docs|
      invariant allTables == MergeAll(Flatten(docs[..d]))
    {
      var tables := docs[d];
      ghost var seen := Flatten(docs[..d]);
      assert seen + tables[..0] == seen;
      var i := 0;
      while i < |tables|
        invariant 0 <= i <= |tables|
        invariant allTables == MergeAll(seen + tables[..i])
      {
        MergeAllAppend(seen + tables[..i], tables[i]);
        PrefixStep(seen, tables, i);
        allTables := Collect(allTables, tables[i]);
        i := i + 1;
      }
      FlattenPrefixStep(docs, d);
      assert tables[..|tables|] == tables;
      d := d + 1;
    }
    assert docs[..|docs|] == docs;
  }

  /** All rows of a list of tables, table after table. */
  function RowsOf(ts: seq<Table>): seq<Row>
  {
    if ts == [] then [] else RowsOf(ts[..|ts| - 1]) + ts[|ts| - 1].rows
  }

  /** The number of tables that continue the table before them. */
  function Continuations(ts: seq<Table>): nat
  {
    if |ts| <= 1 then 0
    else Continuations(ts[..|ts| - 1]) + (if Continues(ts[|ts| - 2], ts[|ts| - 1]) then 1 else 0)
  }

  /** No collected table continues the one before it. */
  predicate FullyMerged(ts: seq<Table>)
  {
    forall i :: 1 <= i < |ts| ==> !Continues(ts[i - 1], ts[i])
  }

  lemma RowsOfAppend(ts: seq<Table>, t: Table)
    ensures RowsOf(ts + [t]) == RowsOf(ts) + t.rows
  {
    assert (ts + [t])[..|ts|] == ts;
  }

  /** One merge step appends t's rows after the collected rows. */
  lemma MergeIntoRows(collected: seq<Table>, t: Table)
    ensures RowsOf(MergeInto(collected, t)) == RowsOf(collected) + t.rows
  {
    if collected != [] && Continues(collected[|collected| - 1], t) {
      var init, last := collected[..|collected| - 1], collected[|collected| - 1];
      assert collected == init + [last];
      RowsOfAppend(init, last);
      RowsOfAppend(init, Concatenated(last, t));
    } else {
      RowsOfAppend(collected, t);
    }
  }

  /** One merge step adds a table exactly when t continues nothing, and
      leaves a last table as wide as t. */
  lemma MergeIntoShape(collected: seq<Table>, t: Table)
    ensures |MergeInto(collected, t)| ==
      |collected| + (if collected != [] && Continues(collected[|collected| - 1], t) then 0 else 1)
    ensures var r := MergeInto(collected, t); |r[|r| - 1].columns| == |t.columns|
  {
  }

  /** One merge step keeps a fully merged list fully merged. */
  lemma MergeIntoKeepsMerged(collected: seq<Table>, t: Table)
    requires FullyMerged(collected)
    ensures FullyMerged(MergeInto(collected, t))
  {
    var r := MergeInto(collected, t);
    if collected != [] && Continues(collected[|collected| - 1], t) {
      var n := |collected|;
      forall i | 1 <= i < |r|
        ensures !Continues(r[i - 1], r[i])
      {
        assert r[i - 1] == collected[i - 1];
        if i < n - 1 {
          assert r[i] == collected[i];
        } else {
          assert r[i].columns == collected[i].columns;
          assert !Continues(collected[i - 1], collected[i]);
        }
      }
    } else {
      forall i | 1 <= i < |r|
        ensures !Continues(r[i - 1], r[i])
      {
        assert r[i - 1] == collected[i - 1];
        if i < |collected| {
          assert r[i] == collected[i];
        }
      }
    }
  }

  /** extract_tables loses, duplicates and reorders no row: the rows of the
      returned tables, in order, are the rows of the documents' tables. */
  lemma {:induction false} MergeAllRows(ts: seq<Table>)
    ensures RowsOf(MergeAll(ts)) == RowsOf(ts)
  {
    if ts != [] {
      var init, t := ts[..|ts| - 1], ts[|ts| - 1];
      MergeAllRows(init);
      MergeIntoRows(MergeAll(init), t);
      RowsOfAppend(init, t);
      assert ts == init + [t];
    }
  }

  /** extract_tables returns one table per input table that does not
      continue its predecessor, and the last returned table is as wide as
      the last input table. */
  lemma {:induction false} MergeAllCount(ts: seq<Table>)
    ensures |MergeAll(ts)| + Continuations(ts) == |ts|
    ensures ts != [] ==> MergeAll(ts) != [] && |MergeAll(ts)[|MergeAll(ts)| - 1].columns| == |ts[|ts| - 1].columns|
  {
    if ts != [] {
      var init, t := ts[..|ts| - 1], ts[|ts| - 1];
      MergeAllCount(init);
      var collected := MergeAll(init);
      MergeIntoShape(collected, t);
      if |ts| >= 2 {
        assert Continues(collected[|collected| - 1], t) == Continues(ts[|ts| - 2], t);
      }
    }
  }

  /** No table extract_tables returns continues the one before it. */
  lemma {:induction false} MergeAllMerged(ts: seq<Table>)
    ensures FullyMerged(MergeAll(ts))
  {
    if ts != [] {
      var init := ts[..|ts| - 1];
      MergeAllMerged(init);
      MergeIntoKeepsMerged(MergeAll(init), ts[|ts| - 1]);
    }
  }

  /** The three facts about extract_tables together. */
  lemma MergeAllFacts(ts: seq<Table>)
    ensures RowsOf(MergeAll(ts)) == RowsOf(ts)
    ensures |MergeAll(ts)| + Continuations(ts) == |ts|
    ensures ts != [] ==> MergeAll(ts) != [] && |MergeAll(ts)[|MergeAll(ts)| - 1].columns| == |ts[|ts| - 1].columns|
    ensures FullyMerged(MergeAll(ts))
  {
    MergeAllRows(ts);
    MergeAllCount(ts);
    MergeAllMerged(ts);
  }

  /** The first table is never merged into anything: the first returned
      table carries its labels and starts with its rows. */
  lemma {:induction false} FirstTableOpens(ts: seq<Table>)
    requires ts != []
    ensures MergeAll(ts) != []
    ensures MergeAll(ts)[0].columns == ts[0].columns
    ensures ts[0].rows <= MergeAll(ts)[0].rows
  {
    MergeAllFacts(ts);
    if |ts| > 1 {
      var init := ts[..|ts| - 1];
      FirstTableOpens(init);
      assert init[0] == ts[0];
      var collected := MergeAll(init);
      if Continues(collected[|collected| - 1], ts[|ts| - 1]) && |collected| == 1 {
        assert MergeInto(collected, ts[|ts| - 1])[0] == Concatenated(collected[0], ts[|ts| - 1]);
      }
    }
  }

  /** Tables no one of which continues its predecessor come back unchanged;
      in particular extract_tables is idempotent. */
  lemma {:induction false} MergeAllOfMerged(ts: seq<Table>)
    requires FullyMerged(ts)
    ensures MergeAll(ts) == ts
  {
    if ts != [] {
      var init := ts[..|ts| - 1];
      MergeAllOfMerged(init);
      assert ts == init + [ts[|ts| - 1]];
      if |ts| >= 2 {
        assert !Continues(ts[|ts| - 2], ts[|ts| - 1]);
      }
    }
  }

  lemma MergeAllIdempotent(ts: seq<Table>)
    ensures MergeAll(MergeAll(ts)) == MergeAll(ts)
  {
    MergeAllFacts(ts);
    MergeAllOfMerged(MergeAll(ts));
  }

  // ---------------------------------------------------------------------------
  // df_to_text

  /** The heading df_to_text puts before the table at position i. */
  function Heading(i: nat): string
  {
    "## Table " + Decimal(i) + "\n "
  }

  /** The text of every extracted table, with the markdown rendering of a table
      given as a parameter. */
  method DfToText(tables: seq<Table>, toMarkdown: Table -> string) returns (texts: seq<string>)
    ensures |texts| == |tables|
    ensures forall i :: 0 <= i < |tables| ==> texts[i] == Heading(i) + toMarkdown(tables[i])
  {
    texts := [];
    var i := 0;
    while i < |tables|
      invariant 0 <= i <= |tables|
      invariant |texts| == i
      invariant forall j :: 0 <= j < i ==> texts[j] == Heading(j) + toMarkdown(tables[j])
    {
      texts := texts + ["## Table " + Decimal(i) + "\n " + toMarkdown(tables[i])];
      i := i + 1;
    }
  }

  /** The heading carries the table's 0-based position, which reads back
      from it, so two tables never share a heading. */
  lemma HeadingNumbers(i: nat, j: nat)
    ensures |Heading(i)| == 11 + |Decimal(i)|
    ensures ParseDecimal(Heading(i)[9..9 + |Decimal(i)|]) == i
    ensures i != j ==> Heading(i) != Heading(j)
  {
    assert Heading(i)[9..9 + |Decimal(i)|] == Decimal(i);
    DecimalRoundTrip(i);
    if i != j && Heading(i) == Heading(j) {
      assert |Decimal(i)| == |Decimal(j)|;
      assert Heading(j)[9..9 + |Decimal(j)|] == Decimal(j);
      DecimalInjective(i, j);
    }
  }
}
