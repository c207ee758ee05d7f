/** DataFrameFormatter: render each row of a table as "key = value" entries
    and pack the rendered rows greedily into chunks within a token budget,
    never splitting a row. */
module FrameFormatter {
  import opened Strings
  import opened Frames
  import opened TextSplitter

  /** A row's (column label, cell) pairs in column order, as Series.items()
      yields them. */
  function Items(columns: seq<Label>, row: Row): (items: seq<(Label, Cell)>)
    requires |row.cells| == |columns|
    ensures |items| == |columns|
  {
    seq(|columns|, i requires 0 <= i < |columns| => (columns[i], row.cells[i]))
  }

  /** A cell is shown when it is present and its text is not blank. */
  predicate Shown(c: Cell)
  {
    c.Value? && !IsBlank(c.text)
  }

  /** One rendered cell: the key, an equals sign and the value, followed by the row index when it is shown. */
  function Entry(key: Label, value: string, rowIndex: int, showIndex: bool): string
  {
    LabelText(key) + " = " + value + (if showIndex then ". " + IntText(rowIndex) else "")
  }

  /** The entries format_row collects, one per shown cell, in column order. */
  function Entries(items: seq<(Label, Cell)>, rowIndex: int, showIndex: bool): seq<string>
  {
    if items == [] then []
    else
      var rest := Entries(items[..|items| - 1], rowIndex, showIndex);
      var (key, value) := items[|items| - 1];
      if Shown(value) then rest + [Entry(key, value.text, rowIndex, showIndex)] else rest
  }

  /** One rendered row: its shown cells joined into a single line. */
  function RowText(items: seq<(Label, Cell)>, rowIndex: int, showIndex: bool): string
  {
    Join(", ", Entries(items, rowIndex, showIndex))
  }

  /** format_row as the loop it is. */
  method FormatRow(items: seq<(Label, Cell)>, rowIndex: int, showIndex: bool) returns (s: string)
    ensures s == RowText(items, rowIndex, showIndex)
  {
    var output: seq<string> := [];
    var i := 0;
    while i < |items|
      invariant 0 <= i <= |items|
      invariant output == Entries(items[..i], rowIndex, showIndex)
    {
      var (key, value) := items[i];
      assert items[..i + 1][..i] == items[..i];
      if value.Value? && !IsBlank(value.text) {
        var entry := LabelText(key) + " = " + value.text;
        if showIndex {
          entry := entry + ". " + IntText(rowIndex);
        }
        assert entry == Entry(key, value.text, rowIndex, showIndex);
        output := output + [entry];
      }
      i := i + 1;
    }
    assert items[..|items|] == items;
    s := Join(", ", output);
  }

  /** The cells a row shows, with their labels. */
  function ShownItems(items: seq<(Label, Cell)>): (r: seq<(Label, Cell)>)
    ensures forall i :: 0 <= i < |r| ==> Shown(r[i].1)
  {
    if items == [] then []
    else
      var rest := ShownItems(items[..|items| - 1]);
      if Shown(items[|items| - 1].1) then rest + [items[|items| - 1]] else rest
  }

  /** The cells are looked at one by one: the shown cells of a + b are those
      of a followed by those of b. */
  lemma {:induction false} ShownItemsAppend(a: seq<(Label, Cell)>, b: seq<(Label, Cell)>)
    ensures ShownItems(a + b) == ShownItems(a) + ShownItems(b)
    decreases |b|
  {
    if b == [] {
      assert a + b == a;
    } else {
      var init := b[..|b| - 1];
      ShownItemsAppend(a, init);
      assert (a + b)[..|a + b| - 1] == a + init;
      assert (a + b)[|a + b| - 1] == b[|b| - 1];
    }
  }

  /** One cell is shown exactly when it is neither null nor blank. */
  lemma ShownItemsSingle(item: (Label, Cell))
    ensures ShownItems([item]) == if Shown(item.1) then [item] else []
  {
    assert [item][..0] == [];
  }

  /** Entry i of a row is the entry of its i-th shown cell. */
  lemma {:induction false} EntriesShape(items: seq<(Label, Cell)>, rowIndex: int, showIndex: bool)
    ensures var shown := ShownItems(items);
      && |Entries(items, rowIndex, showIndex)| == |shown|
      && (forall i :: 0 <= i < |shown| ==>
            Entries(items, rowIndex, showIndex)[i] == Entry(shown[i].0, shown[i].1.text, rowIndex, showIndex))
  {
    if items != [] {
      var init := items[..|items| - 1];
      EntriesShape(init, rowIndex, showIndex);
      var es, shown := Entries(items, rowIndex, showIndex), ShownItems(items);
      forall i | 0 <= i < |shown|
        ensures es[i] == Entry(shown[i].0, shown[i].1.text, rowIndex, showIndex)
      {
        if i < |ShownItems(init)| {
          assert shown[i] == ShownItems(init)[i];
          assert es[i] == Entries(init, rowIndex, showIndex)[i];
        }
      }
    }
  }

  /** format_row emits exactly one entry per shown cell, in column order;
      showing the index only appends ". {row_index}" to every entry. */
  lemma EntriesOfShown(items: seq<(Label, Cell)>, rowIndex: int)
    ensures var shown := ShownItems(items);
      && |Entries(items, rowIndex, false)| == |shown|
      && |Entries(items, rowIndex, true)| == |shown|
      && (forall i :: 0 <= i < |shown| ==>
            Entries(items, rowIndex, false)[i] == LabelText(shown[i].0) + " = " + shown[i].1.text)
      && (forall i :: 0 <= i < |shown| ==>
            Entries(items, rowIndex, true)[i] == Entries(items, rowIndex, false)[i] + ". " + IntText(rowIndex))
  {
    EntriesShape(items, rowIndex, false);
    EntriesShape(items, rowIndex, true);
    var shown := ShownItems(items);
    forall i | 0 <= i < |shown|
      ensures Entries(items, rowIndex, false)[i] == LabelText(shown[i].0) + " = " + shown[i].1.text
      ensures Entries(items, rowIndex, true)[i] == Entries(items, rowIndex, false)[i] + ". " + IntText(rowIndex)
    {
      var base := LabelText(shown[i].0) + " = " + shown[i].1.text;
      assert Entry(shown[i].0, shown[i].1.text, rowIndex, false) == base + "";
      assert base + "" == base;
    }
  }

  /** A row with no shown cell renders as the empty string. */
  lemma NothingShownIsEmpty(items: seq<(Label, Cell)>, rowIndex: int, showIndex: bool)
    requires forall i :: 0 <= i < |items| ==> !Shown(items[i].1)
    ensures RowText(items, rowIndex, showIndex) == ""
  {
    EntriesOfShown(items, rowIndex);
    if ShownItems(items) != [] {
      ShownItemsAreItems(items, 0);
    }
  }

  lemma {:induction false} ShownItemsAreItems(items: seq<(Label, Cell)>, i: nat)
    requires i < |ShownItems(items)|
    ensures ShownItems(items)[i] in items
  {
    if items != [] {
      var rest := ShownItems(items[..|items| - 1]);
      if i < |rest| {
        ShownItemsAreItems(items[..|items| - 1], i);
      }
    }
  }

  class DataFrameFormatter {
    const tok: Tokenizer
    const showIndex: bool
    const maxTokens: nat

    constructor (tok: Tokenizer, showIndex: bool, maxTokens: nat)
      ensures this.tok == tok && this.showIndex == showIndex && this.maxTokens == maxTokens
    {
      this.tok := tok;
      this.showIndex := showIndex;
      this.maxTokens := maxTokens;
    }

    /** Every row rendered, each numbered with its index label plus one. */
    function FormatAllRows(t: Table): (rows: seq<string>)
      requires Rectangular(t)
      ensures |rows| == |t.rows|
    {
      seq(|t.rows|, i requires 0 <= i < |t.rows| =>
        RowText(Items(t.columns, t.rows[i]), t.rows[i].index + 1, showIndex))
    }

    function RowTokens(row: string): nat
    {
      |tok.tokenize(row)|
    }

    function TokenSum(rows: seq<string>): nat
    {
      if rows == [] then 0 else TokenSum(rows[..|rows| - 1]) + RowTokens(rows[|rows| - 1])
    }

    /** The finished groups, the open group and its token count after the
        given rows. */
    function ChunkState(rows: seq<string>): (seq<seq<string>>, seq<string>, nat)
    {
      if rows == [] then ([], [], 0)
      else
        var (done, current, n) := ChunkState(rows[..|rows| - 1]);
        var row := rows[|rows| - 1];
        if n + RowTokens(row) <= maxTokens then (done, current + [row], n + RowTokens(row))
        else (done + [current], [row], RowTokens(row))
    }

    lemma ChunkStateStep(rows: seq<string>, i: nat)
      requires i < |rows|
      ensures ChunkState(rows[..i + 1]) ==
        var (done, current, n) := ChunkState(rows[..i]);
        if n + RowTokens(rows[i]) <= maxTokens then (done, current + [rows[i]], n + RowTokens(rows[i]))
        else (done + [current], [rows[i]], RowTokens(rows[i]))
    {
      assert rows[..i + 1][..i] == rows[..i];
    }

    /** The rows of each chunk chunk_rows emits. */
    function Groups(rows: seq<string>): seq<seq<string>>
    {
      var (done, current, _) := ChunkState(rows);
      if current != [] then done + [current] else done
    }

    function Chunks(rows: seq<string>): (chunks: seq<string>)
      ensures |chunks| == |Groups(rows)|
    {
      var groups := Groups(rows);
      seq(|groups|, i requires 0 <= i < |groups| => Join("\n", groups[i]))
    }

    /** One pass of chunk_rows's loop: the row joins the current chunk if
        the token budget allows, else the current chunk is emitted and the
        row starts the next one. */
    method AddRow(chunks: seq<string>, done: seq<seq<string>>, current: seq<string>, n: nat, row: string)
      returns (chunks': seq<string>, done': seq<seq<string>>, current': seq<string>, n': nat)
      requires |chunks| == |done| && forall j :: 0 <= j < |done| ==> chunks[j] == Join("\n", done[j])
      ensures (done', current', n') ==
        if n + RowTokens(row) <= maxTokens then (done, current + [row], n + RowTokens(row))
        else (done + [current], [row], RowTokens(row))
      ensures |chunks'| == |done'| && forall j :: 0 <= j < |done'| ==> chunks'[j] == Join("\n", done'[j])
    {
      var rowTokens := |tok.tokenize(row)|;
      chunks', done' := chunks, done;
      if n + rowTokens <= maxTokens {
        current' := current + [row];
        n' := n + rowTokens;
      } else {
        chunks' := chunks + [Join("\n", current)];
        done' := done + [current];
        current' := [row];
        n' := rowTokens;
      }
    }

    method ChunkRows(t: Table) returns (chunks: seq<string>)
      requires Rectangular(t)
      ensures chunks == Chunks(FormatAllRows(t))
    {
      var formattedRows := FormatAllRows(t);
      chunks := [];
      var done: seq<seq<string>> := [];
      var currentChunk: seq<string> := [];
      var currentTokens := 0;
      var i := 0;
      while i < |formattedRows|
        invariant 0 <= i <= |formattedRows|
        invariant (done, currentChunk, currentTokens) == ChunkState(formattedRows[..i])
        invariant |chunks| == |done| && forall j :: 0 <= j < |done| ==> chunks[j] == Join("\n", done[j])
      {
        ChunkStateStep(formattedRows, i);
        chunks, done, currentChunk, currentTokens := AddRow(chunks, done, currentChunk, currentTokens, formattedRows[i]);
        i := i + 1;
      }
      assert formattedRows[..|formattedRows|] == formattedRows;
      if currentChunk != [] {
        chunks := chunks + [Join("\n", currentChunk)];
        done := done + [currentChunk];
      }
      assert done == Groups(formattedRows);
    }

    /** The packing loop's invariant on content: the groups and the open
        group hold the rows read so far in order, the open group's count is
        its token sum, and only the first group can be empty. */
    lemma {:induction false} ChunkStateRows(rows: seq<string>)
      ensures var (done, current, n) := ChunkState(rows);
        && Flatten(done) + current == rows
        && n == TokenSum(current)
        && (forall i :: 1 <= i < |done| ==> done[i] != [])
        && (rows != [] ==> current != [])
    {
      if rows != [] {
        var init := rows[..|rows| - 1];
        ChunkStateRows(init);
        var (done, current, n) := ChunkState(init);
        var row := rows[|rows| - 1];
        assert rows == init + [row];
        assert (current + [row])[..|current + [row]| - 1] == current;
        assert TokenSum([row]) == RowTokens(row) by {
          assert [row][..0] == [];
        }
        if n + RowTokens(row) > maxTokens {
          FlattenAppend(done, [current]);
          assert Flatten([current]) == current by {
            assert [current][..0] == [];
          }
        }
      }
    }

    /** The packing loop's invariant on size: every group fits in max_tokens
        unless it is a single row. */
    lemma {:induction false} ChunkStateFits(rows: seq<string>)
      ensures var (done, current, n) := ChunkState(rows);
        && (forall i :: 0 <= i < |done| ==> TokenSum(done[i]) <= maxTokens || |done[i]| == 1)
        && (TokenSum(current) <= maxTokens || |current| == 1)
    {
      ChunkStateRows(rows);
      if rows != [] {
        var init := rows[..|rows| - 1];
        ChunkStateFits(init);
        ChunkStateRows(init);
        var (done, current, n) := ChunkState(init);
        var row := rows[|rows| - 1];
        assert (current + [row])[..|current + [row]| - 1] == current;
        assert TokenSum([row]) == RowTokens(row) by {
          assert [row][..0] == [];
        }
      }
    }

    /** The first group is empty exactly when the first row alone exceeds
        the budget. */
    lemma {:induction false} ChunkStateFirst(rows: seq<string>)
      ensures var (done, current, n) := ChunkState(rows);
        rows != [] ==> ((|done| >= 1 && done[0] == []) <==> RowTokens(rows[0]) > maxTokens)
    {
      if rows != [] {
        var init := rows[..|rows| - 1];
        ChunkStateFirst(init);
        ChunkStateRows(init);
        var (done, current, n) := ChunkState(init);
        if init == [] {
          assert current == [] && done == [] && n == 0;
        } else {
          assert init[0] == rows[0];
          assert current != [];
          if done != [] {
            assert (done + [current])[0] == done[0];
          }
        }
      }
    }

    /** chunk_rows never splits or reorders a row: the chunks' rows, in
        order, are exactly the formatted rows; every chunk's token sum is
        within max_tokens unless it is a single row; only the first chunk
        can be empty, and it is exactly when the first row alone exceeds the
        budget. */
    lemma GroupsFacts(rows: seq<string>)
      ensures Flatten(Groups(rows)) == rows
      ensures forall i :: 0 <= i < |Groups(rows)| ==> TokenSum(Groups(rows)[i]) <= maxTokens || |Groups(rows)[i]| == 1
      ensures forall i :: 1 <= i < |Groups(rows)| ==> Groups(rows)[i] != []
      ensures rows != [] ==> (Groups(rows)[0] == [] <==> RowTokens(rows[0]) > maxTokens)
    {
      GroupsCover(rows);
      GroupsFit(rows);
      GroupsOnlyFirstEmpty(rows);
    }

    lemma GroupsCover(rows: seq<string>)
      ensures Flatten(Groups(rows)) == rows
    {
      ChunkStateRows(rows);
      var (done, current, n) := ChunkState(rows);
      if current != [] {
        FlattenAppend(done, [current]);
        assert Flatten([current]) == current by {
          assert [current][..0] == [];
        }
      }
    }

    lemma GroupsFit(rows: seq<string>)
      ensures forall i :: 0 <= i < |Groups(rows)| ==> TokenSum(Groups(rows)[i]) <= maxTokens || |Groups(rows)[i]| == 1
    {
      ChunkStateFits(rows);
    }

    lemma GroupsOnlyFirstEmpty(rows: seq<string>)
      ensures forall i :: 1 <= i < |Groups(rows)| ==> Groups(rows)[i] != []
      ensures rows != [] ==> (Groups(rows)[0] == [] <==> RowTokens(rows[0]) > maxTokens)
    {
      ChunkStateRows(rows);
      ChunkStateFirst(rows);
    }
  }
}
