/**
 * The pure derivations of App.js from its `data` (forecast rows) and
 * `pastData` (history rows): the chart labels and the single forecast
 * dataset, the results table, and the CSV export's fixed header mapping.
 * Rows are the objects `JSON.parse` yields; reading a key a row lacks
 * gives `undefined`.
 */
module ForecastView {
  import opened Wrappers

  /** A scalar JSON value. */
  datatype Json = JString(s: string) | JNumber(x: real) | JBool(b: bool) | JNull

  /** A parsed row object. */
  type Row = map<string, Json>

  /** What `row[key]` evaluates to. */
  datatype Field = Defined(json: Json) | Undefined

  function Get(row: Row, key: string): Field
  {
    if key in row then Defined(row[key]) else Undefined
  }

  /** `({ "Order Date": item["index"] })`. */
  function AsHistoryRow(item: Row): (r: Row)
    ensures Get(r, "Order Date") == Get(item, "index")
  {
    if "index" in item then map["Order Date" := item["index"]] else map[]
  }

  /** `labels`: past rows concatenated with the re-keyed forecast rows, each mapped to its "Order Date". */
  function ChartLabels(pastData: seq<Row>, data: seq<Row>): (labels: seq<Field>)
    ensures |labels| == |pastData| + |data|
    ensures forall k :: 0 <= k < |pastData| ==> labels[k] == Get(pastData[k], "Order Date")
    ensures forall k :: 0 <= k < |data| ==> labels[|pastData| + k] == Get(data[k], "index")
  {
    var rekeyed := seq(|data|, k requires 0 <= k < |data| => AsHistoryRow(data[k]));
    var all := pastData + rekeyed;
    seq(|all|, k requires 0 <= k < |all| => Get(all[k], "Order Date"))
  }

  /** A plotted point `{x, y}`. */
  datatype Point = Point(x: Field, y: Field)

  /** A chart dataset; `legend` is its `label`. */
  datatype Dataset = Dataset(legend: string, points: seq<Point>)

  datatype ChartData = ChartData(labels: seq<Field>, datasets: seq<Dataset>)

  /** The point of one forecast row: x from "index", y from "Predicted Value". */
  function ForecastPoint(item: Row): Point
  {
    Point(Get(item, "index"), Get(item, "Predicted Value"))
  }

  /**
   * `chartData`: the labels, and a single dataset "Forecast Data" with one
   * point per forecast row, in order. The history dataset is commented out,
   * so past rows contribute labels only.
   */
  function BuildChartData(pastData: seq<Row>, data: seq<Row>): (c: ChartData)
    ensures c.labels == ChartLabels(pastData, data)
    ensures |c.datasets| == 1 && c.datasets[0].legend == "Forecast Data"
    ensures |c.datasets[0].points| == |data|
    ensures forall k :: 0 <= k < |data| ==>
      c.datasets[0].points[k] == Point(Get(data[k], "index"), Get(data[k], "Predicted Value"))
  {
    var points := seq(|data|, k requires 0 <= k < |data| => ForecastPoint(data[k]));
    ChartData(ChartLabels(pastData, data), [Dataset("Forecast Data", points)])
  }

  /** History changes the labels but never the plotted data. */
  lemma HistoryIsNotPlotted(past1: seq<Row>, past2: seq<Row>, data: seq<Row>)
    ensures BuildChartData(past1, data).datasets == BuildChartData(past2, data).datasets
  {
    var d1 := BuildChartData(past1, data).datasets;
    var d2 := BuildChartData(past2, data).datasets;
    assert d1[0].points == d2[0].points;
  }

  /** Every plotted point's x is one of the labels, at position `|pastData| + k`. */
  lemma PointsAlignWithForecastLabels(pastData: seq<Row>, data: seq<Row>, k: nat)
    requires k < |data|
    ensures BuildChartData(pastData, data).datasets[0].points[k].x == BuildChartData(pastData, data).labels[|pastData| + k]
  {
  }

  /** One row of the results table: `row.index` and `row["Predicted Value"]`. */
  datatype TableRow = TableRow(index: Field, predicted: Field)

  const TableHeader: seq<string> := ["Index", "Predicted Value"]

  function TableRows(data: seq<Row>): (rows: seq<TableRow>)
    ensures |rows| == |data|
    ensures forall k :: 0 <= k < |data| ==> rows[k] == TableRow(Get(data[k], "index"), Get(data[k], "Predicted Value"))
  {
    seq(|data|, k requires 0 <= k < |data| => TableRow(Get(data[k], "index"), Get(data[k], "Predicted Value")))
  }

  /** One column of the CSV export: the header text (`label`) and the row key it reads. */
  datatype CsvHeader = CsvHeader(title: string, key: string)

  function CsvHeaders(): seq<CsvHeader>
  {
    [CsvHeader("Index", "index"), CsvHeader("Predicted Value", "Predicted Value")]
  }

  /** The CSV export as a table: the header labels, then one record per row with the header keys read in order. */
  datatype CsvExport = CsvExport(filename: string, header: seq<string>, records: seq<seq<Field>>)

  function ExportCsv(data: seq<Row>): (e: CsvExport)
    ensures e.filename == "forecast.csv"
    ensures e.header == ["Index", "Predicted Value"]
    ensures |e.records| == |data|
    ensures forall k :: 0 <= k < |data| ==> e.records[k] == [Get(data[k], "index"), Get(data[k], "Predicted Value")]
  {
    var headers := CsvHeaders();
    CsvExport(
      "forecast.csv",
      seq(|headers|, h requires 0 <= h < |headers| => headers[h].title),
      seq(|data|, k requires 0 <= k < |data| =>
        seq(|headers|, h requires 0 <= h < |headers| => Get(data[k], headers[h].key))))
  }

  /** The exported CSV shows, row by row, exactly what the on-screen table shows. */
  lemma CsvMatchesTable(data: seq<Row>, k: nat)
    requires k < |data|
    ensures ExportCsv(data).header == TableHeader
    ensures ExportCsv(data).records[k] == [TableRows(data)[k].index, TableRows(data)[k].predicted]
  {
  }

  /** The results section: table, download buttons and chart. */
  datatype Results = Results(table: seq<TableRow>, csv: CsvExport, chart: ChartData)

  /** `{data.length > 0 && ...}`: the section exists only when there are forecast rows. */
  function ResultsSection(pastData: seq<Row>, data: seq<Row>): (r: Option<Results>)
    ensures r.Some? <==> |data| > 0
    ensures r.Some? ==> r.value == Results(TableRows(data), ExportCsv(data), BuildChartData(pastData, data))
  {
    if |data| > 0 then Some(Results(TableRows(data), ExportCsv(data), BuildChartData(pastData, data))) else None
  }

  /** A concrete export: two forecast rows give the fixed header and the two records, in order. */
  lemma ExportExample()
    ensures
      var rows := [map["index" := JString("2024-01-01T00:00:00Z"), "Predicted Value" := JNumber(100.0)],
                   map["index" := JString("2024-02-01T00:00:00Z"), "Predicted Value" := JNumber(110.0)]];
      ExportCsv(rows) == CsvExport("forecast.csv", ["Index", "Predicted Value"],
        [[Defined(JString("2024-01-01T00:00:00Z")), Defined(JNumber(100.0))],
         [Defined(JString("2024-02-01T00:00:00Z")), Defined(JNumber(110.0))]])
  {
  }
}
