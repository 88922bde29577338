/** The two-column ("Information", "Value") table that each of the four tabs
    shows, reduced to what the monitor writes into it: an ordered list of
    rows. Fonts and colours are reduced to one flag per row, `isHeader`:
    a header row has its label in the bold accent style, any other row has
    both cells in the content font. */
module Table {
  import opened PyStr

  /** A row: the text of its "Information" cell (the label), the text of
      its "Value" cell, and whether it is styled as a section header. */
  datatype Row = Row(info: string, value: string, isHeader: bool)

  /** Labels whose first two characters are "==" are section headers. */
  predicate IsHeaderLabel(info: string) {
    |info| >= 2 && info[0] == '=' && info[1] == '='
  }

  /** The header test is `label.startswith("==")`. */
  lemma HeaderLabelStartsWith(info: string)
    ensures IsHeaderLabel(info) <==> StartsWith(info, "==")
  {
    if |info| >= 2 {
      assert info[..2] == [info[0], info[1]];
    }
  }

  /** A row styled as `add_info_to_table` styles it. */
  predicate WellStyled(row: Row) {
    row.isHeader == IsHeaderLabel(row.info)
  }

  /** The row `add_info_to_table(table, label, value)` puts on screen:
      both cells carry the given text, and the row has header styling
      exactly when the label is a header label. */
  function StyledRow(info: string, value: string): (row: Row)
    ensures row.info == info && row.value == value
    ensures WellStyled(row)
  {
    Row(info, value, IsHeaderLabel(info))
  }

  /** One row per (label, value) pair, in order. */
  function PairRows(pairs: seq<(string, string)>): (rows: seq<Row>)
    ensures |rows| == |pairs|
    ensures forall i :: 0 <= i < |pairs| ==> rows[i] == StyledRow(pairs[i].0, pairs[i].1)
  {
    seq(|pairs|, i requires 0 <= i < |pairs| => StyledRow(pairs[i].0, pairs[i].1))
  }

  /** A table widget of one tab. */
  class InfoTable {
    var rows: seq<Row>

    /** Every row on screen is styled by its label. */
    ghost predicate Valid()
      reads this
    {
      forall i :: 0 <= i < |rows| ==> WellStyled(rows[i])
    }

    /** `create_info_tab`: a new table has no rows. */
    constructor ()
      ensures Valid() && rows == []
    {
      rows := [];
    }

    /** `table.setRowCount(0)`: removes every row. */
    method Clear()
      modifies this
      ensures Valid() && rows == []
    {
      rows := [];
    }

    /** `add_info_to_table(table, label, value)`: inserts one row at index
        `rowCount()`, so the table grows by exactly one row, the rows before
        it stay as they were, and the new row is the last one. */
    method AddInfo(info: string, value: string)
      requires Valid()
      modifies this
      ensures Valid()
      ensures rows == old(rows) + [StyledRow(info, value)]
      ensures |rows| == |old(rows)| + 1 && rows[..|old(rows)|] == old(rows)
      ensures rows[|old(rows)|].info == info && rows[|old(rows)|].value == value
    {
      var row := |rows|;
      rows := rows[..row] + [StyledRow(info, value)];
    }

    /** The `for key, value in info.items()` loops: one `add_info_to_table`
        per pair, in the order of the pairs. */
    method AddPairs(pairs: seq<(string, string)>)
      requires Valid()
      modifies this
      ensures Valid()
      ensures rows == old(rows) + PairRows(pairs)
    {
      for i := 0 to |pairs|
        invariant Valid()
        invariant rows == old(rows) + PairRows(pairs[..i])
      {
        AddInfo(pairs[i].0, pairs[i].1);
        assert PairRows(pairs[..i + 1]) == PairRows(pairs[..i]) + [StyledRow(pairs[i].0, pairs[i].1)];
      }
      assert pairs[..|pairs|] == pairs;
    }
  }
}
