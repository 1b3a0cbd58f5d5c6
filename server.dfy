/**
 * What the two Flask services share: the multipart request, the JSON
 * response, the request guard, the error reply, the JSON records built from
 * frames, and the library calls (pandas readers, `to_datetime`,
 * `resample(...).mean()`, SARIMAX and Holt-Winters) as oracle functions.
 */
module Server {
  import opened Wrappers
  import opened Frames
  import opened OrderSearch

  /** An uploaded file: its name, and an opaque handle on its bytes. */
  datatype Upload = Upload(filename: string, content: nat)

  /** `request.files` and `request.form`. */
  datatype Request = Request(files: map<string, Upload>, form: map<string, string>)

  /** The resampling frequency of `preprocess_data`: 'MS' (month start) or 'D' (daily). */
  datatype Freq = MonthStart | Daily

  /** The series `resample(freq).mean()` yields, as (instant, mean) points. */
  datatype Series = Series(freq: Freq, points: seq<(int, real)>)

  /** An opaque handle on a fitted statsmodels result. */
  datatype Fitted = Fitted(handle: nat)

  /** One forecast step: its timestamp and `predicted_mean`. */
  datatype Prediction = Prediction(index: int, predicted: real)

  /**
   * The library calls the services make, each returning its result or the
   * exception it raises.
   */
  datatype Library = Library(
    readCsv: Upload -> Result<Table, Raised>,
    readExcel: Upload -> Result<Table, Raised>,
    toDatetime: Value -> Result<int, Raised>,
    resample: (Freq, seq<Obs>) -> Result<Series, Raised>,
    sarimaxAic: (Series, Order, SeasonalOrder) -> Option<real>,
    sarimaxFit: (Series, Option<Order>, Option<SeasonalOrder>) -> Result<Fitted, Raised>,
    sarimaxForecast: (Fitted, nat) -> Result<seq<Prediction>, Raised>,
    holtWintersFit: Series -> Result<Fitted, Raised>,
    holtWintersForecast: (Fitted, nat) -> Result<seq<Prediction>, Raised>)

  /** One JSON record of `to_json(orient="records")`: its keys in column order. */
  type Record = seq<(string, Value)>

  /** The JSON body of a response. */
  datatype Body =
    | ErrorJson(error: string)                               // {"error": ...}
    | PastPredicted(past: seq<Record>, predicted: seq<Record>) // {"past": ..., "predicted": ...}
    | RecordsText(records: seq<Record>)                      // a bare records string

  datatype Response = Response(status: nat, body: Body)

  function Keys(r: Record): (ks: seq<string>)
    ensures |ks| == |r|
  {
    seq(|r|, k requires 0 <= k < |r| => r[k].0)
  }

  /** The guard both endpoints of each service start with. */
  predicate HasRequiredFields(req: Request)
  {
    "file" in req.files && "date_col" in req.form && "value_col" in req.form
  }

  const MissingFieldsMessage := "Missing file or parameters"

  /** The reply of the try/except block: the body on success, 500 with `str(e)` on an exception. */
  function Reply(run: Result<Body, Raised>): (resp: Response)
    ensures resp.status == 200 <==> run.Ok?
    ensures run.Ok? ==> resp.body == run.value
    ensures run.Err? ==> resp == Response(500, ErrorJson(run.error.message))
  {
    match run
    case Ok(body) => Response(200, body)
    case Err(e) => Response(500, ErrorJson(e.message))
  }

  /**
   * An endpoint: 400 before any processing when a field is missing,
   * otherwise the reply to what `run` computes from the three fields.
   */
  function Endpoint(req: Request, run: (Upload, string, string) -> Result<Body, Raised>): (resp: Response)
    ensures resp.status == 400 <==> !HasRequiredFields(req)
    ensures !HasRequiredFields(req) ==> resp == Response(400, ErrorJson(MissingFieldsMessage))
    ensures HasRequiredFields(req) ==> resp == Reply(run(req.files["file"], req.form["date_col"], req.form["value_col"]))
    ensures resp.status in {200, 400, 500}
  {
    if !HasRequiredFields(req) then Response(400, ErrorJson(MissingFieldsMessage))
    else Reply(run(req.files["file"], req.form["date_col"], req.form["value_col"]))
  }

  /**
   * `pred_ci.reset_index().to_json(orient="records")`: one record per
   * forecast step, in order, with exactly the keys "index" and "Predicted Value".
   */
  function ForecastRecords(preds: seq<Prediction>): (r: seq<Record>)
    ensures |r| == |preds|
    ensures forall k :: 0 <= k < |r| ==> Keys(r[k]) == ["index", "Predicted Value"]
    ensures forall k :: 0 <= k < |r| ==>
      |r[k]| == 2 && r[k][0].1 == Timestamp(preds[k].index) && r[k][1].1 == Number(preds[k].predicted)
  {
    seq(|preds|, k requires 0 <= k < |preds| =>
      [("index", Timestamp(preds[k].index)), ("Predicted Value", Number(preds[k].predicted))])
  }

  /**
   * The "past" records: `read_data`'s frame with its index reset and the date
   * and value columns renamed to "Order Date" and "Sales", in frame order.
   */
  function PastRecords(rows: seq<Obs>): (r: seq<Record>)
    ensures |r| == |rows|
    ensures forall k :: 0 <= k < |r| ==> Keys(r[k]) == ["Order Date", "Sales"]
    ensures forall k :: 0 <= k < |r| ==>
      |r[k]| == 2 && r[k][0].1 == Timestamp(rows[k].date) && r[k][1].1 == rows[k].value
  {
    seq(|rows|, k requires 0 <= k < |rows| =>
      [("Order Date", Timestamp(rows[k].date)), ("Sales", rows[k].value)])
  }

  /** Records built from a date-sorted frame list their "Order Date"s in ascending order. */
  lemma PastRecordsAscending(rows: seq<Obs>, i: nat, j: nat)
    requires SortedByDate(rows)
    requires i < j < |rows|
    ensures PastRecords(rows)[i][0].1.instant <= PastRecords(rows)[j][0].1.instant
  {
  }

  /**
   * `train_sarima_model` / `train_model`: the final SARIMAX, built with the
   * orders the grid search selected (None for both when every fit raised).
   */
  function TrainedSarimax(y: Series, lib: Library): Result<Fitted, Raised>
  {
    var best := Select(Grid(), y, lib.sarimaxAic);
    lib.sarimaxFit(y, BestOrder(best), BestSeasonal(best))
  }

  /**
   * Resampling `df` at `freq`, the final SARIMAX of the grid search and its
   * `steps`-step forecast all return without raising.
   */
  predicate SarimaxStagesOk(df: DatedFrame, freq: Freq, steps: nat, lib: Library)
  {
    var y := lib.resample(freq, df.rows);
    && y.Ok?
    && TrainedSarimax(y.value, lib).Ok?
    && lib.sarimaxForecast(TrainedSarimax(y.value, lib).value, steps).Ok?
  }

  /** `records` is the `steps`-step forecast of the final SARIMAX of the grid search, fitted to `df` resampled at `freq`. */
  predicate SarimaxForecastOf(df: DatedFrame, freq: Freq, steps: nat, lib: Library, records: seq<Record>)
  {
    && SarimaxStagesOk(df, freq, steps, lib)
    && records == ForecastRecords(lib.sarimaxForecast(TrainedSarimax(lib.resample(freq, df.rows).value, lib).value, steps).value)
  }

  /** `e` is the exception of the first of those stages that raises. */
  predicate SarimaxFailure(df: DatedFrame, freq: Freq, steps: nat, lib: Library, e: Raised)
  {
    var y := lib.resample(freq, df.rows);
    if y.Err? then e == y.error
    else
      var fitted := TrainedSarimax(y.value, lib);
      if fitted.Err? then e == fitted.error
      else
        var preds := lib.sarimaxForecast(fitted.value, steps);
        preds.Err? && e == preds.error
  }

  /** Resampling `df` at `freq`, the Holt-Winters fit and its `steps`-step forecast all return without raising. */
  predicate HoltWintersStagesOk(df: DatedFrame, freq: Freq, steps: nat, lib: Library)
  {
    var y := lib.resample(freq, df.rows);
    && y.Ok?
    && lib.holtWintersFit(y.value).Ok?
    && lib.holtWintersForecast(lib.holtWintersFit(y.value).value, steps).Ok?
  }

  /** `records` is the `steps`-step forecast of a Holt-Winters model fitted to `df` resampled at `freq`. */
  predicate HoltWintersForecastOf(df: DatedFrame, freq: Freq, steps: nat, lib: Library, records: seq<Record>)
  {
    && HoltWintersStagesOk(df, freq, steps, lib)
    && records == ForecastRecords(lib.holtWintersForecast(lib.holtWintersFit(lib.resample(freq, df.rows).value).value, steps).value)
  }

  /** `e` is the exception of the first Holt-Winters stage that raises. */
  predicate HoltWintersFailure(df: DatedFrame, freq: Freq, steps: nat, lib: Library, e: Raised)
  {
    var y := lib.resample(freq, df.rows);
    if y.Err? then e == y.error
    else
      var model := lib.holtWintersFit(y.value);
      if model.Err? then e == model.error
      else
        var preds := lib.holtWintersForecast(model.value, steps);
        preds.Err? && e == preds.error
  }

  /** A forecast oracle that returns exactly as many steps as asked for. */
  ghost predicate HonestHorizon(forecast: (Fitted, nat) -> Result<seq<Prediction>, Raised>)
  {
    forall m, n :: forecast(m, n).Ok? ==> |forecast(m, n).value| == n
  }

  /** When every fit of the grid raises, the final SARIMAX gets `order=None` and `seasonal_order=None`. */
  lemma AllFitsFailLeaveOrdersUnset(y: Series, lib: Library)
    requires forall k :: 0 <= k < |Grid()| ==> AicAt(Grid(), y, lib.sarimaxAic, k).None?
    ensures TrainedSarimax(y, lib) == lib.sarimaxFit(y, None, None)
  {
    SelectNoneIffAllFail(Grid(), y, lib.sarimaxAic);
  }

  /** Otherwise the final SARIMAX gets the first pair of the grid with the minimum AIC. */
  lemma FirstMinimumIsTrained(y: Series, lib: Library, k: nat)
    requires IsFirstMinimum(Grid(), y, lib.sarimaxAic, k)
    ensures TrainedSarimax(y, lib) == lib.sarimaxFit(y, Some(Grid()[k].0), Some(Grid()[k].1))
  {
    FirstMinimumIsSelected(Grid(), y, lib.sarimaxAic, k);
  }
}
