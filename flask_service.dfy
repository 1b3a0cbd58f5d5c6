/**
 * The service in the top-level app.py: `read_data` (always CSV),
 * `train_model` (the same grid search), and the endpoints `/forecast`
 * (monthly, 120 steps) and `/dayforecast` (daily, 30 steps), which answer
 * with the forecast records alone.
 */
module FlaskService {
  import opened Wrappers
  import opened Frames
  import opened OrderSearch
  import opened Server
  import SarimaService

  /**
   * `read_data`: the upload is read as CSV whatever its name; the result keeps
   * only the date and value columns, sorted by ascending date and indexed by date.
   */
  function ReadData(file: Upload, dateCol: string, valueCol: string, lib: Library): (r: Result<DatedFrame, Raised>)
    ensures lib.readCsv(file).Err? ==> r == Err(lib.readCsv(file).error)
    ensures lib.readCsv(file).Ok? ==> r == SelectDateValue(lib.readCsv(file).value, dateCol, valueCol, lib.toDatetime)
    ensures r.Ok? ==> r.value.indexName == dateCol && r.value.valueName == valueCol && SortedByDate(r.value.rows)
  {
    var table :- lib.readCsv(file);
    SelectDateValue(table, dateCol, valueCol, lib.toDatetime)
  }

  /** For a ".csv" upload both services read the same frame. */
  lemma ReadDataAgreesOnCsv(file: Upload, dateCol: string, valueCol: string, lib: Library)
    requires SarimaService.EndsWith(file.filename, ".csv")
    ensures ReadData(file, dateCol, valueCol, lib) == SarimaService.ReadData(file, dateCol, valueCol, lib)
  {
  }

  /** For any other name this service still reads the upload as CSV, where the other refuses it or reads Excel. */
  lemma ReadDataIgnoresSuffix(file: Upload, dateCol: string, valueCol: string, lib: Library)
    requires !SarimaService.EndsWith(file.filename, ".csv")
    requires lib.readCsv(file).Ok?
    ensures ReadData(file, dateCol, valueCol, lib) == SelectDateValue(lib.readCsv(file).value, dateCol, valueCol, lib.toDatetime)
    ensures SarimaService.ReadData(file, dateCol, valueCol, lib).Err? ||
            SarimaService.ReaderFor(file.filename) == Ok(SarimaService.ExcelReader)
  {
  }

  /** `/forecast` resamples by month start and forecasts 120 steps. */
  const MonthlyHorizon: nat := 120

  /** `/dayforecast` resamples by day and forecasts 30 steps. */
  const DailyHorizon: nat := 30

  /** The try block of both endpoints, for a frequency and a horizon. */
  function ForecastPipeline(freq: Freq, steps: nat, file: Upload, dateCol: string, valueCol: string, lib: Library): (r: Result<Body, Raised>)
    ensures r.Ok? ==> r.value.RecordsText?
    ensures r.Ok? ==> forall k :: 0 <= k < |r.value.records| ==> Keys(r.value.records[k]) == ["index", "Predicted Value"]
    ensures r.Ok? <==> ReadData(file, dateCol, valueCol, lib).Ok? && SarimaxStagesOk(ReadData(file, dateCol, valueCol, lib).value, freq, steps, lib)
    ensures ReadData(file, dateCol, valueCol, lib).Ok? && r.Err? ==>
      SarimaxFailure(ReadData(file, dateCol, valueCol, lib).value, freq, steps, lib, r.error)
    ensures r.Ok? ==> SarimaxForecastOf(ReadData(file, dateCol, valueCol, lib).value, freq, steps, lib, r.value.records)
    ensures r.Ok? && HonestHorizon(lib.sarimaxForecast) ==> |r.value.records| == steps
    ensures ReadData(file, dateCol, valueCol, lib).Err? ==> r == Err(ReadData(file, dateCol, valueCol, lib).error)
  {
    var df :- ReadData(file, dateCol, valueCol, lib);
    var y :- lib.resample(freq, df.rows);
    var result :- TrainedSarimax(y, lib);
    var predCi :- lib.sarimaxForecast(result, steps);
    Ok(RecordsText(ForecastRecords(predCi)))
  }

  /** The request's upload reads into a frame, and `records` is the SARIMAX forecast of that frame resampled at `freq`. */
  predicate Forecasted(req: Request, freq: Freq, steps: nat, lib: Library, records: seq<Record>)
    requires HasRequiredFields(req)
  {
    var df := ReadData(req.files["file"], req.form["date_col"], req.form["value_col"], lib);
    df.Ok? && SarimaxForecastOf(df.value, freq, steps, lib, records)
  }

  /** `POST /forecast`: monthly resampling, 120 steps, the bare records on success. */
  function ForecastRoute(req: Request, lib: Library): (resp: Response)
    ensures resp.status == 400 <==> !HasRequiredFields(req)
    ensures resp.status == 400 ==> resp.body == ErrorJson(MissingFieldsMessage)
    ensures resp.status == 200 ==> resp.body.RecordsText?
    ensures resp.status == 200 ==> HasRequiredFields(req) && Forecasted(req, MonthStart, MonthlyHorizon, lib, resp.body.records)
    ensures resp.status == 200 && HonestHorizon(lib.sarimaxForecast) ==> |resp.body.records| == MonthlyHorizon
    ensures resp.status != 200 ==> resp.body.ErrorJson?
    ensures resp.status in {200, 400, 500}
    ensures HasRequiredFields(req) ==>
      resp == Reply(ForecastPipeline(MonthStart, MonthlyHorizon, req.files["file"], req.form["date_col"], req.form["value_col"], lib))
  {
    Endpoint(req, (file, dateCol, valueCol) => ForecastPipeline(MonthStart, MonthlyHorizon, file, dateCol, valueCol, lib))
  }

  /** `POST /dayforecast`: daily resampling, 30 steps, the bare records on success. */
  function DayForecastRoute(req: Request, lib: Library): (resp: Response)
    ensures resp.status == 400 <==> !HasRequiredFields(req)
    ensures resp.status == 400 ==> resp.body == ErrorJson(MissingFieldsMessage)
    ensures resp.status == 200 ==> resp.body.RecordsText?
    ensures resp.status == 200 ==> HasRequiredFields(req) && Forecasted(req, Daily, DailyHorizon, lib, resp.body.records)
    ensures resp.status == 200 && HonestHorizon(lib.sarimaxForecast) ==> |resp.body.records| == DailyHorizon
    ensures resp.status != 200 ==> resp.body.ErrorJson?
    ensures resp.status in {200, 400, 500}
    ensures HasRequiredFields(req) ==>
      resp == Reply(ForecastPipeline(Daily, DailyHorizon, req.files["file"], req.form["date_col"], req.form["value_col"], lib))
  {
    Endpoint(req, (file, dateCol, valueCol) => ForecastPipeline(Daily, DailyHorizon, file, dateCol, valueCol, lib))
  }

  /**
   * `train_model`: the grid search, then the final SARIMAX with the first
   * pair of minimum AIC, or with None for both orders when every fit raised.
   */
  method TrainModel(y: Series, lib: Library) returns (result: Result<Fitted, Raised>)
    ensures result == TrainedSarimax(y, lib)
    ensures (forall k :: 0 <= k < |Grid()| ==> AicAt(Grid(), y, lib.sarimaxAic, k).None?) ==>
      result == lib.sarimaxFit(y, None, None)
    ensures forall k: nat :: IsFirstMinimum(Grid(), y, lib.sarimaxAic, k) ==>
      result == lib.sarimaxFit(y, Some(Grid()[k].0), Some(Grid()[k].1))
  {
    var best := SearchGrid(y, lib.sarimaxAic);
    result := lib.sarimaxFit(y, BestOrder(best), BestSeasonal(best));
    forall k: nat | IsFirstMinimum(Grid(), y, lib.sarimaxAic, k)
      ensures result == lib.sarimaxFit(y, Some(Grid()[k].0), Some(Grid()[k].1))
    {
      FirstMinimumIsTrained(y, lib, k);
    }
  }
}
