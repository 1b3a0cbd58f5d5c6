/**
 * The shape of the data frames the two Flask services build in `read_data`:
 * a loaded table, the date column converted with `pd.to_datetime`, the
 * selection of the date and value columns, the sort by date and the date
 * index. Parsing dates is an oracle; the table comes from the reader oracle.
 */
module Frames {
  import opened Wrappers

  /** A Python exception, represented by what `str(e)` gives for it. */
  datatype Raised = Raised(message: string)

  /** `KeyError(col)`: its text is the repr of the missing key. */
  function KeyError(col: string): Raised
  {
    Raised("'" + col + "'")
  }

  /**
   * The ValueError pandas raises when a sort key names more than one column,
   * as `sort_values(date_col)` does after `df[[date_col, value_col]]` with
   * `value_col == date_col`.
   */
  function NotUniqueLabel(col: string): Raised
  {
    Raised("The column label '" + col + "' is not unique.")
  }

  /** A cell of a frame. `Timestamp` holds a converted date as an abstract instant. */
  datatype Value = Timestamp(instant: int) | Number(x: real) | Text(s: string) | Null

  type Row = map<string, Value>

  /** A table as the reader returns it: its column names and its rows. */
  datatype Table = Table(columns: seq<string>, rows: seq<Row>)

  /** The cell of `row` under `col`; a row without that key reads as missing. */
  function Cell(row: Row, col: string): Value
  {
    if col in row then row[col] else Null
  }

  /** One row of the frame `read_data` returns: its date index and its value. */
  datatype Obs = Obs(date: int, value: Value)

  /** A frame that holds only the value column and is indexed by the date column. */
  datatype DatedFrame = DatedFrame(indexName: string, valueName: string, rows: seq<Obs>)

  /** Row `k` is the first row whose cell under `col` does not convert. */
  predicate FirstFailure(rows: seq<Row>, col: string, parse: Value -> Result<int, Raised>, k: nat)
  {
    && k < |rows|
    && parse(Cell(rows[k], col)).Err?
    && forall m :: 0 <= m < k ==> parse(Cell(rows[m], col)).Ok?
  }

  /**
   * `pd.to_datetime(df[col])`: converts every cell of the column, and raises
   * the first conversion error when a cell cannot be converted.
   */
  function ToDatetime(rows: seq<Row>, col: string, parse: Value -> Result<int, Raised>): (r: Result<seq<int>, Raised>)
    ensures r.Ok? <==> forall k :: 0 <= k < |rows| ==> parse(Cell(rows[k], col)).Ok?
    ensures r.Ok? ==> |r.value| == |rows|
    ensures r.Ok? ==> forall k :: 0 <= k < |rows| ==> parse(Cell(rows[k], col)) == Ok(r.value[k])
    ensures r.Err? ==> exists k: nat :: FirstFailure(rows, col, parse, k) && parse(Cell(rows[k], col)) == Err(r.error)
  {
    if rows == [] then Ok([])
    else
      match parse(Cell(rows[0], col))
      case Err(e) => Err(e)
      case Ok(t) =>
        match ToDatetime(rows[1..], col, parse)
        case Err(e) =>
          ghost var k: nat :| FirstFailure(rows[1..], col, parse, k) && parse(Cell(rows[1..][k], col)) == Err(e);
          assert FirstFailure(rows, col, parse, k + 1);
          Err(e)
        case Ok(rest) => Ok([t] + rest)
  }

  /** The date and value of every row, in the table's row order. */
  function Observations(rows: seq<Row>, dates: seq<int>, dateCol: string, valueCol: string): (r: seq<Obs>)
    requires |dates| == |rows|
    ensures |r| == |rows|
  {
    seq(|rows|, k requires 0 <= k < |rows| =>
      Obs(dates[k], Cell(rows[k], valueCol)))
  }

  predicate SortedByDate(s: seq<Obs>)
  {
    forall i, j :: 0 <= i < j < |s| ==> s[i].date <= s[j].date
  }

  function Insert(o: Obs, s: seq<Obs>): (r: seq<Obs>)
    requires SortedByDate(s)
    ensures SortedByDate(r)
    ensures multiset(r) == multiset(s) + multiset{o}
  {
    if s == [] then [o]
    else if o.date <= s[0].date then [o] + s
    else
      var rest := Insert(o, s[1..]);
      assert s == [s[0]] + s[1..];
      forall x | x in rest ensures s[0].date <= x.date {
        assert x in multiset(rest);
      }
      [s[0]] + rest
  }

  /**
   * `sort_values(date_col)`: the rows ordered by ascending date. Only the
   * order of rows with distinct dates is promised; rows sharing a date are
   * kept in their input order here.
   */
  function SortByDate(s: seq<Obs>): (r: seq<Obs>)
    ensures SortedByDate(r)
    ensures multiset(r) == multiset(s)
  {
    if s == [] then []
    else
      assert s == [s[0]] + s[1..];
      Insert(s[0], SortByDate(s[1..]))
  }

  /**
   * Lines 31-33 of `read_data` (11-13 in the day-forecast service): convert
   * the date column, keep the date and value columns, sort by date and index
   * by date. A missing date column raises KeyError before anything else; a
   * cell that does not convert raises; a missing value column raises KeyError;
   * the same column named twice makes the sort key ambiguous and raises.
   */
  function SelectDateValue(t: Table, dateCol: string, valueCol: string, parse: Value -> Result<int, Raised>): (r: Result<DatedFrame, Raised>)
    ensures dateCol !in t.columns ==> r == Err(KeyError(dateCol))
    ensures dateCol in t.columns && ToDatetime(t.rows, dateCol, parse).Err? ==>
      r == Err(ToDatetime(t.rows, dateCol, parse).error)
    ensures dateCol in t.columns && ToDatetime(t.rows, dateCol, parse).Ok? && valueCol !in t.columns ==>
      r == Err(KeyError(valueCol))
    ensures dateCol in t.columns && ToDatetime(t.rows, dateCol, parse).Ok? && valueCol == dateCol ==>
      r == Err(NotUniqueLabel(dateCol))
    ensures r.Ok? <==>
      dateCol in t.columns && ToDatetime(t.rows, dateCol, parse).Ok? && valueCol in t.columns && valueCol != dateCol
    ensures r.Ok? ==>
      && r.value.indexName == dateCol
      && r.value.valueName == valueCol
      && SortedByDate(r.value.rows)
      && multiset(r.value.rows) == multiset(Observations(t.rows, ToDatetime(t.rows, dateCol, parse).value, dateCol, valueCol))
  {
    if dateCol !in t.columns then Err(KeyError(dateCol))
    else
      var dates :- ToDatetime(t.rows, dateCol, parse);
      if valueCol !in t.columns then Err(KeyError(valueCol))
      else if valueCol == dateCol then Err(NotUniqueLabel(dateCol))
      else Ok(DatedFrame(dateCol, valueCol, SortByDate(Observations(t.rows, dates, dateCol, valueCol))))
  }

  /** Sorting keeps every row: each row of the result is one of the input's, and vice versa. */
  lemma SortKeepsRows(s: seq<Obs>, o: Obs)
    ensures o in SortByDate(s) <==> o in s
  {
    assert o in SortByDate(s) <==> o in multiset(SortByDate(s));
    assert o in s <==> o in multiset(s);
  }
}
