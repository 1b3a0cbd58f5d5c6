/**
 * The rate-limited service in Sales_Predictor_Model/app.py: `read_data` with
 * its file-suffix dispatch, `train_sarima_model`, and the two endpoints
 * `/forecast/sarima` and `/forecast/holt-winters`, which answer with the
 * renamed history ("past") and a 120-step forecast ("predicted").
 */
module SarimaService {
  import opened Wrappers
  import opened Frames
  import opened OrderSearch
  import opened Server

  /** The pandas reader `read_data` picks. */
  datatype Reader = CsvReader | ExcelReader

  /** Python's `str.endswith`: case-sensitive suffix test. */
  predicate EndsWith(s: string, suffix: string)
  {
    |suffix| <= |s| && s[|s| - |suffix|..] == suffix
  }

  /** A name ends with `suffix` exactly when it is some prefix followed by `suffix`. */
  lemma EndsWithIffSplit(s: string, suffix: string)
    ensures EndsWith(s, suffix) <==> exists prefix :: s == prefix + suffix
  {
    if EndsWith(s, suffix) {
      var prefix := s[..|s| - |suffix|];
      assert s == prefix + suffix;
    }
    if exists prefix :: s == prefix + suffix {
      var prefix :| s == prefix + suffix;
      assert s[|s| - |suffix|..] == suffix;
    }
  }

  const UnsupportedFormat := "Unsupported file format. Please upload a CSV or Excel file."

  /**
   * The suffix dispatch of `read_data`: ".csv" first, then ".xls" or ".xlsx",
   * anything else raises ValueError.
   */
  function ReaderFor(filename: string): (r: Result<Reader, Raised>)
    ensures r == Ok(CsvReader) <==> EndsWith(filename, ".csv")
    ensures r == Ok(ExcelReader) <==>
      !EndsWith(filename, ".csv") && (EndsWith(filename, ".xls") || EndsWith(filename, ".xlsx"))
    ensures r.Err? <==>
      !EndsWith(filename, ".csv") && !EndsWith(filename, ".xls") && !EndsWith(filename, ".xlsx")
    ensures r.Err? ==> r.error == Raised(UnsupportedFormat)
  {
    if EndsWith(filename, ".csv") then Ok(CsvReader)
    else if EndsWith(filename, ".xls") || EndsWith(filename, ".xlsx") then Ok(ExcelReader)
    else Err(Raised(UnsupportedFormat))
  }

  /** Concrete names: the test is on the last characters only, and is case-sensitive. */
  lemma ReaderForExamples()
    ensures ReaderFor("sales.csv") == Ok(CsvReader)
    ensures ReaderFor("sales.xls") == Ok(ExcelReader)
    ensures ReaderFor("sales.xlsx") == Ok(ExcelReader)
    ensures ReaderFor("sales.xlsx.csv") == Ok(CsvReader)
    ensures ReaderFor("sales.csv.xlsx") == Ok(ExcelReader)
    ensures ReaderFor("SALES.CSV").Err?
    ensures ReaderFor("sales.txt").Err?
  {
    assert "sales.csv"[5..] == ".csv";
    assert "sales.xls"[5..] == ".xls";
    assert "sales.xlsx"[5..] == ".xlsx";
    assert "sales.xlsx.csv"[10..] == ".csv";
    assert "sales.csv.xlsx"[9..] == ".xlsx";
  }

  /** `pd.read_csv(file)` or `pd.read_excel(file)`. */
  function Load(reader: Reader, file: Upload, lib: Library): Result<Table, Raised>
  {
    match reader
    case CsvReader => lib.readCsv(file)
    case ExcelReader => lib.readExcel(file)
  }

  /**
   * `read_data`: an unsupported name raises before the file is read;
   * otherwise the result keeps only the date and value columns, sorted by
   * ascending date and indexed by date.
   */
  function ReadData(file: Upload, dateCol: string, valueCol: string, lib: Library): (r: Result<DatedFrame, Raised>)
    ensures ReaderFor(file.filename).Err? ==> r == Err(Raised(UnsupportedFormat))
    ensures ReaderFor(file.filename).Ok? ==>
      var loaded := Load(ReaderFor(file.filename).value, file, lib);
      r == if loaded.Err? then Err(loaded.error) else SelectDateValue(loaded.value, dateCol, valueCol, lib.toDatetime)
    ensures r.Ok? ==> r.value.indexName == dateCol && r.value.valueName == valueCol && SortedByDate(r.value.rows)
  {
    var reader :- ReaderFor(file.filename);
    var table :- Load(reader, file, lib);
    SelectDateValue(table, dateCol, valueCol, lib.toDatetime)
  }

  /** `forecast_sarima` and `forecast_holt_winters` are both called with `steps=120`. */
  const Horizon: nat := 120

  /** The success body carries exactly "past" and "predicted", with the renamed and the forecast columns. */
  predicate PastPredictedShape(b: Body)
  {
    && b.PastPredicted?
    && (forall k :: 0 <= k < |b.past| ==> Keys(b.past[k]) == ["Order Date", "Sales"])
    && (forall k :: 0 <= k < |b.predicted| ==> Keys(b.predicted[k]) == ["index", "Predicted Value"])
  }

  /** The try block of `forecast_sarima_endpoint`. */
  function SarimaPipeline(file: Upload, dateCol: string, valueCol: string, lib: Library): (r: Result<Body, Raised>)
    ensures r.Ok? ==> PastPredictedShape(r.value)
    ensures r.Ok? ==> ReadData(file, dateCol, valueCol, lib).Ok?
    ensures r.Ok? ==> r.value.past == PastRecords(ReadData(file, dateCol, valueCol, lib).value.rows)
    ensures r.Ok? <==> ReadData(file, dateCol, valueCol, lib).Ok? && SarimaxStagesOk(ReadData(file, dateCol, valueCol, lib).value, MonthStart, Horizon, lib)
    ensures r.Ok? ==> SarimaxForecastOf(ReadData(file, dateCol, valueCol, lib).value, MonthStart, Horizon, lib, r.value.predicted)
    ensures ReadData(file, dateCol, valueCol, lib).Err? ==> r == Err(ReadData(file, dateCol, valueCol, lib).error)
    ensures ReadData(file, dateCol, valueCol, lib).Ok? && r.Err? ==>
      SarimaxFailure(ReadData(file, dateCol, valueCol, lib).value, MonthStart, Horizon, lib, r.error)
    ensures r.Ok? && HonestHorizon(lib.sarimaxForecast) ==> |r.value.predicted| == Horizon
  {
    var df :- ReadData(file, dateCol, valueCol, lib);
    var y :- lib.resample(MonthStart, df.rows);
    var result :- TrainedSarimax(y, lib);
    var predCi :- lib.sarimaxForecast(result, Horizon);
    Ok(PastPredicted(PastRecords(df.rows), ForecastRecords(predCi)))
  }

  /** The try block of `forecast_holt_winters_endpoint`. */
  function HoltWintersPipeline(file: Upload, dateCol: string, valueCol: string, lib: Library): (r: Result<Body, Raised>)
    ensures r.Ok? ==> PastPredictedShape(r.value)
    ensures r.Ok? ==> ReadData(file, dateCol, valueCol, lib).Ok?
    ensures r.Ok? ==> r.value.past == PastRecords(ReadData(file, dateCol, valueCol, lib).value.rows)
    ensures r.Ok? <==> ReadData(file, dateCol, valueCol, lib).Ok? && HoltWintersStagesOk(ReadData(file, dateCol, valueCol, lib).value, MonthStart, Horizon, lib)
    ensures r.Ok? ==> HoltWintersForecastOf(ReadData(file, dateCol, valueCol, lib).value, MonthStart, Horizon, lib, r.value.predicted)
    ensures ReadData(file, dateCol, valueCol, lib).Err? ==> r == Err(ReadData(file, dateCol, valueCol, lib).error)
    ensures ReadData(file, dateCol, valueCol, lib).Ok? && r.Err? ==>
      HoltWintersFailure(ReadData(file, dateCol, valueCol, lib).value, MonthStart, Horizon, lib, r.error)
    ensures r.Ok? && HonestHorizon(lib.holtWintersForecast) ==> |r.value.predicted| == Horizon
  {
    var df :- ReadData(file, dateCol, valueCol, lib);
    var y :- lib.resample(MonthStart, df.rows);
    var model :- lib.holtWintersFit(y);
    var predCi :- lib.holtWintersForecast(model, Horizon);
    Ok(PastPredicted(PastRecords(df.rows), ForecastRecords(predCi)))
  }

  /** The request's upload reads into a frame, and `past` holds that frame's renamed records. */
  predicate ServedFrom(req: Request, lib: Library, past: seq<Record>)
    requires HasRequiredFields(req)
  {
    var df := ReadData(req.files["file"], req.form["date_col"], req.form["value_col"], lib);
    df.Ok? && past == PastRecords(df.value.rows)
  }

  /** `POST /forecast/sarima`. */
  function SarimaEndpoint(req: Request, lib: Library): (resp: Response)
    ensures resp.status == 400 <==> !HasRequiredFields(req)
    ensures resp.status == 400 ==> resp.body == ErrorJson(MissingFieldsMessage)
    ensures resp.status == 200 ==> PastPredictedShape(resp.body)
    ensures resp.status == 200 ==> HasRequiredFields(req) && ServedFrom(req, lib, resp.body.past)
    ensures resp.status == 200 ==>
      SarimaxForecastOf(ReadData(req.files["file"], req.form["date_col"], req.form["value_col"], lib).value, MonthStart, Horizon, lib, resp.body.predicted)
    ensures resp.status == 200 && HonestHorizon(lib.sarimaxForecast) ==> |resp.body.predicted| == Horizon
    ensures resp.status != 200 ==> resp.body.ErrorJson?
    ensures resp.status in {200, 400, 500}
    ensures HasRequiredFields(req) ==>
      resp == Reply(SarimaPipeline(req.files["file"], req.form["date_col"], req.form["value_col"], lib))
    ensures resp.status == 500 ==> HasRequiredFields(req)
    ensures resp.status == 500 ==>
      (var run := SarimaPipeline(req.files["file"], req.form["date_col"], req.form["value_col"], lib);
       run.Err? && resp.body == ErrorJson(run.error.message))
  {
    Endpoint(req, (file, dateCol, valueCol) => SarimaPipeline(file, dateCol, valueCol, lib))
  }

  /** `POST /forecast/holt-winters`. */
  function HoltWintersEndpoint(req: Request, lib: Library): (resp: Response)
    ensures resp.status == 400 <==> !HasRequiredFields(req)
    ensures resp.status == 400 ==> resp.body == ErrorJson(MissingFieldsMessage)
    ensures resp.status == 200 ==> PastPredictedShape(resp.body)
    ensures resp.status == 200 ==> HasRequiredFields(req) && ServedFrom(req, lib, resp.body.past)
    ensures resp.status == 200 ==>
      HoltWintersForecastOf(ReadData(req.files["file"], req.form["date_col"], req.form["value_col"], lib).value, MonthStart, Horizon, lib, resp.body.predicted)
    ensures resp.status == 200 && HonestHorizon(lib.holtWintersForecast) ==> |resp.body.predicted| == Horizon
    ensures resp.status != 200 ==> resp.body.ErrorJson?
    ensures resp.status in {200, 400, 500}
    ensures HasRequiredFields(req) ==>
      resp == Reply(HoltWintersPipeline(req.files["file"], req.form["date_col"], req.form["value_col"], lib))
    ensures resp.status == 500 ==> HasRequiredFields(req)
    ensures resp.status == 500 ==>
      (var run := HoltWintersPipeline(req.files["file"], req.form["date_col"], req.form["value_col"], lib);
       run.Err? && resp.body == ErrorJson(run.error.message))
  {
    Endpoint(req, (file, dateCol, valueCol) => HoltWintersPipeline(file, dateCol, valueCol, lib))
  }

  /**
   * `train_sarima_model`: the grid search, then the final SARIMAX. It is
   * built with the first pair of minimum AIC, or with None for both orders
   * when every fit raised.
   */
  method TrainSarimaModel(y: Series, lib: Library) returns (result: Result<Fitted, Raised>)
    ensures result == TrainedSarimax(y, lib)
    ensures (forall k :: 0 <= k < |Grid()| ==> AicAt(Grid(), y, lib.sarimaxAic, k).None?) ==>
      result == lib.sarimaxFit(y, None, None)
    ensures forall k: nat :: IsFirstMinimum(Grid(), y, lib.sarimaxAic, k) ==>
      result == lib.sarimaxFit(y, Some(Grid()[k].0), Some(Grid()[k].1))
  {
    var best := SearchGrid(y, lib.sarimaxAic);
    var bestPdq := BestOrder(best);
    var bestSeasonalPdq := BestSeasonal(best);
    result := lib.sarimaxFit(y, bestPdq, bestSeasonalPdq);
    forall k: nat | IsFirstMinimum(Grid(), y, lib.sarimaxAic, k)
      ensures result == lib.sarimaxFit(y, Some(Grid()[k].0), Some(Grid()[k].1))
    {
      FirstMinimumIsTrained(y, lib, k);
    }
  }
}
